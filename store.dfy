/** The saved-bots map (bots.json), which both merges update in place. */
module Store {
  import opened Records
  import opened ListingMerge
  import opened DetailMerge

  class SavedBots {
    /** Bot records keyed by bot name. */
    var entries: map<string, Bot>

    constructor (entries: map<string, Bot>)
      ensures this.entries == entries
    {
      this.entries := entries;
    }

    /**
     * Merges a snapshot: each bot not yet saved gets a skeletal record, first
     * listing first, and `changesDetected` says whether any was added (the
     * source rewrites bots.json only then). Saved records stay as they were.
     */
    method UpdateBotList(snapshot: seq<CategoryPage>) returns (changesDetected: bool)
      modifies this
      ensures entries == MergeListings(old(entries), Flatten(snapshot))
      ensures changesDetected == AddsNewName(old(entries), Flatten(snapshot))
      ensures changesDetected <==> entries != old(entries)
      ensures forall k :: k in old(entries) ==> k in entries && entries[k] == old(entries)[k]
      ensures forall p, l :: p in snapshot && l in p.results ==> l.name in entries
    {
      changesDetected := false;
      for i := 0 to |snapshot|
        invariant entries == MergeListings(old(entries), Flatten(snapshot[..i]))
        invariant changesDetected == AddsNewName(old(entries), Flatten(snapshot[..i]))
      {
        changesDetected := MergeCategoryResults(snapshot[i].results, old(entries), Flatten(snapshot[..i]), changesDetected);
        assert snapshot[..i + 1] == snapshot[..i] + [snapshot[i]];
        FlattenAppend(snapshot[..i], snapshot[i]);
      }
      assert snapshot[..|snapshot|] == snapshot;
      MergeSnapshotFacts(old(entries), snapshot);
    }

    /**
     * The inner loop of the listing merge, over one category's results, after
     * the listings `visited` have already been merged into `base`.
     */
    method MergeCategoryResults(results: seq<Listing>, ghost base: map<string, Bot>, ghost visited: seq<Listing>,
                                changesBefore: bool)
      returns (changesDetected: bool)
      requires entries == MergeListings(base, visited)
      requires changesBefore == AddsNewName(base, visited)
      modifies this
      ensures entries == MergeListings(base, visited + results)
      ensures changesDetected == AddsNewName(base, visited + results)
    {
      changesDetected := changesBefore;
      ghost var done := visited;
      assert results[..0] == [] && done == visited + results[..0];
      for j := 0 to |results|
        invariant done == visited + results[..j]
        invariant entries == MergeListings(base, done)
        invariant changesDetected == AddsNewName(base, done)
      {
        var bot := results[j];
        AddsNewNameStep(base, done, bot);
        MergeListingsAppend(base, done, bot);
        if bot.name !in entries {
          changesDetected := true;
          entries := entries[bot.name := BuildBotFromSnapshot(bot)];
        }
        PrefixStep(visited, results, j);
        done := done + [bot];
      }
      assert results[..|results|] == results;
    }

    /**
     * Writes each detail record over the entry of its name, in order, and
     * returns this same map. The last update of a name wins, whole; names no
     * update carries keep their records.
     */
    method UpdateDetailsForBots(updates: seq<Bot>) returns (r: SavedBots)
      modifies this
      ensures r == this
      ensures entries == ApplyDetails(old(entries), updates)
      ensures entries.Keys == old(entries).Keys + UpdatedNames(updates)
      ensures forall i :: 0 <= i < |updates| && (forall j :: i < j < |updates| ==> updates[j].name != updates[i].name) ==>
                entries[updates[i].name] == updates[i]
      ensures forall k :: k in old(entries) && k !in UpdatedNames(updates) ==> entries[k] == old(entries)[k]
    {
      for i := 0 to |updates|
        invariant entries == ApplyDetails(old(entries), updates[..i])
      {
        ApplyDetailsAppend(old(entries), updates[..i], updates[i]);
        assert updates[..i + 1] == updates[..i] + [updates[i]];
        entries := entries[updates[i].name := updates[i]];
      }
      assert updates[..|updates|] == updates;
      r := this;
      ApplyDetailsKeys(old(entries), updates);
      forall i | 0 <= i < |updates| && (forall j :: i < j < |updates| ==> updates[j].name != updates[i].name)
        ensures entries[updates[i].name] == updates[i]
      {
        ApplyDetailsLastWins(old(entries), updates, i);
      }
      forall k | k in old(entries) && k !in UpdatedNames(updates)
        ensures entries[k] == old(entries)[k]
      {
        ApplyDetailsKeepsOthers(old(entries), updates, k);
      }
    }
  }
}
