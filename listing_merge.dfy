/**
 * The listing merge: every bot of a snapshot whose name is not yet saved gets
 * a skeletal record; saved records are never touched. Specified as a fold over
 * the snapshot's listings, category by category, each in page order.
 */
module ListingMerge {
  import opened Records

  /** The listings of a snapshot in the order the merge visits them. */
  function Flatten(snapshot: seq<CategoryPage>): seq<Listing> {
    if snapshot == [] then [] else Flatten(snapshot[..|snapshot| - 1]) + snapshot[|snapshot| - 1].results
  }

  function Names(ls: seq<Listing>): set<string> {
    set l | l in ls :: l.name
  }

  /** One visit: an unsaved name gets a skeletal record, a saved one is left alone. */
  function MergeOne(saved: map<string, Bot>, l: Listing): map<string, Bot> {
    if l.name in saved then saved else saved[l.name := BuildBotFromSnapshot(l)]
  }

  /** The saved-bots map after visiting the listings `ls` in order. */
  function MergeListings(saved: map<string, Bot>, ls: seq<Listing>): map<string, Bot> {
    if ls == [] then saved else MergeOne(MergeListings(saved, ls[..|ls| - 1]), ls[|ls| - 1])
  }

  /** The final value of `changesDetected`: some listed name was not saved beforehand. */
  predicate AddsNewName(saved: map<string, Bot>, ls: seq<Listing>) {
    exists l :: l in ls && l.name !in saved
  }

  lemma MergeListingsAppend(saved: map<string, Bot>, ls: seq<Listing>, l: Listing)
    ensures MergeListings(saved, ls + [l]) == MergeOne(MergeListings(saved, ls), l)
  {
    assert (ls + [l])[..|ls|] == ls;
  }

  /** Extending a visited prefix by the next listing of a category. */
  lemma PrefixStep(visited: seq<Listing>, results: seq<Listing>, j: int)
    requires 0 <= j < |results|
    ensures visited + results[..j] + [results[j]] == visited + results[..j + 1]
  {
    assert results[..j + 1] == results[..j] + [results[j]];
  }

  lemma FlattenAppend(snapshot: seq<CategoryPage>, p: CategoryPage)
    ensures Flatten(snapshot + [p]) == Flatten(snapshot) + p.results
  {
    assert (snapshot + [p])[..|snapshot|] == snapshot;
  }

  /** Every listing of every category of the snapshot is visited. */
  lemma {:induction false} FlattenContains(snapshot: seq<CategoryPage>, p: CategoryPage, l: Listing)
    requires p in snapshot && l in p.results
    ensures l in Flatten(snapshot)
  {
    var last := snapshot[|snapshot| - 1];
    if p != last {
      assert p in snapshot[..|snapshot| - 1];
      FlattenContains(snapshot[..|snapshot| - 1], p, l);
    }
  }

  /** After the merge the saved names are the old ones plus every listed name. */
  lemma {:induction false} MergeListingsKeys(saved: map<string, Bot>, ls: seq<Listing>)
    ensures MergeListings(saved, ls).Keys == saved.Keys + Names(ls)
  {
    if ls != [] {
      var init := ls[..|ls| - 1];
      MergeListingsKeys(saved, init);
      assert ls == init + [ls[|ls| - 1]];
      assert Names(ls) == Names(init) + {ls[|ls| - 1].name};
    }
  }

  /** A record saved beforehand is still saved, and is the identical record. */
  lemma {:induction false} MergeListingsKeepsSaved(saved: map<string, Bot>, ls: seq<Listing>, k: string)
    requires k in saved
    ensures k in MergeListings(saved, ls) && MergeListings(saved, ls)[k] == saved[k]
  {
    if ls != [] {
      MergeListingsKeepsSaved(saved, ls[..|ls| - 1], k);
    }
  }

  /**
   * A name that was not saved gets the skeletal record of its FIRST listing:
   * later listings with the same name are ignored.
   */
  lemma {:induction false} MergeListingsFirstWins(saved: map<string, Bot>, ls: seq<Listing>, i: int)
    requires 0 <= i < |ls| && ls[i].name !in saved
    requires forall j :: 0 <= j < i ==> ls[j].name != ls[i].name
    ensures ls[i].name in MergeListings(saved, ls)
    ensures MergeListings(saved, ls)[ls[i].name] == BuildBotFromSnapshot(ls[i])
  {
    var init := ls[..|ls| - 1];
    if i < |ls| - 1 {
      MergeListingsFirstWins(saved, init, i);
    } else {
      MergeListingsKeys(saved, init);
      assert ls[i].name !in Names(init);
    }
  }

  /** Merging records every name of every category's results. */
  lemma MergeSnapshotSavesAllNames(saved: map<string, Bot>, snapshot: seq<CategoryPage>)
    ensures forall p, l :: p in snapshot && l in p.results ==> l.name in MergeListings(saved, Flatten(snapshot))
  {
    MergeListingsKeys(saved, Flatten(snapshot));
    forall p, l | p in snapshot && l in p.results
      ensures l.name in MergeListings(saved, Flatten(snapshot))
    {
      FlattenContains(snapshot, p, l);
    }
  }

  /** Listings whose names are all saved change nothing. */
  lemma {:induction false} MergeListingsNoop(saved: map<string, Bot>, ls: seq<Listing>)
    requires Names(ls) <= saved.Keys
    ensures MergeListings(saved, ls) == saved
  {
    if ls != [] {
      var init := ls[..|ls| - 1];
      assert Names(init) <= Names(ls);
      MergeListingsNoop(saved, init);
      assert ls[|ls| - 1] in ls;
    }
  }

  /** `changesDetected` is raised exactly when the merge changes the map. */
  lemma ChangesDetectedIffChanged(saved: map<string, Bot>, ls: seq<Listing>)
    ensures AddsNewName(saved, ls) <==> MergeListings(saved, ls) != saved
  {
    MergeListingsKeys(saved, ls);
    if !AddsNewName(saved, ls) {
      MergeListingsNoop(saved, ls);
    } else {
      var l :| l in ls && l.name !in saved;
      assert l.name in MergeListings(saved, ls);
    }
  }

  /** Merging the same listings again changes nothing and detects no change. */
  lemma MergeListingsIdempotent(saved: map<string, Bot>, ls: seq<Listing>)
    ensures MergeListings(MergeListings(saved, ls), ls) == MergeListings(saved, ls)
    ensures !AddsNewName(MergeListings(saved, ls), ls)
  {
    MergeListingsKeys(saved, ls);
    MergeListingsNoop(MergeListings(saved, ls), ls);
  }

  /** What one merge of a whole snapshot guarantees, gathered for the merge loop. */
  lemma MergeSnapshotFacts(saved: map<string, Bot>, snapshot: seq<CategoryPage>)
    ensures AddsNewName(saved, Flatten(snapshot)) <==> MergeListings(saved, Flatten(snapshot)) != saved
    ensures forall k :: k in saved ==>
              k in MergeListings(saved, Flatten(snapshot)) && MergeListings(saved, Flatten(snapshot))[k] == saved[k]
    ensures forall p, l :: p in snapshot && l in p.results ==> l.name in MergeListings(saved, Flatten(snapshot))
  {
    ChangesDetectedIffChanged(saved, Flatten(snapshot));
    MergeSnapshotSavesAllNames(saved, snapshot);
    forall k | k in saved
      ensures k in MergeListings(saved, Flatten(snapshot)) && MergeListings(saved, Flatten(snapshot))[k] == saved[k]
    {
      MergeListingsKeepsSaved(saved, Flatten(snapshot), k);
    }
  }

  /** How the flag evolves over one more visit: the step the merge loop relies on. */
  lemma AddsNewNameStep(saved: map<string, Bot>, ls: seq<Listing>, l: Listing)
    ensures AddsNewName(saved, ls + [l]) <==> AddsNewName(saved, ls) || l.name !in MergeListings(saved, ls)
  {
    MergeListingsKeys(saved, ls);
    if l.name !in MergeListings(saved, ls) {
      assert l in ls + [l];
    }
    if AddsNewName(saved, ls) {
      var w :| w in ls && w.name !in saved;
      assert w in ls + [l];
    }
    if AddsNewName(saved, ls + [l]) && !AddsNewName(saved, ls) {
      var w :| w in ls + [l] && w.name !in saved;
      assert w == l;
    }
  }
}
