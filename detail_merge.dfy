/**
 * The detail merge: each detail record replaces, as a whole, the saved entry
 * of its name, in the order the updates arrive.
 */
module DetailMerge {
  import opened Records

  /** The saved-bots map after writing each update under its name, in order. */
  function ApplyDetails(saved: map<string, Bot>, updates: seq<Bot>): map<string, Bot> {
    if updates == [] then saved
    else
      var last := updates[|updates| - 1];
      ApplyDetails(saved, updates[..|updates| - 1])[last.name := last]
  }

  function UpdatedNames(updates: seq<Bot>): set<string> {
    set u | u in updates :: u.name
  }

  lemma ApplyDetailsAppend(saved: map<string, Bot>, updates: seq<Bot>, u: Bot)
    ensures ApplyDetails(saved, updates + [u]) == ApplyDetails(saved, updates)[u.name := u]
  {
    assert (updates + [u])[..|updates|] == updates;
  }

  /** The merge adds exactly the updated names that were not saved and removes none. */
  lemma {:induction false} ApplyDetailsKeys(saved: map<string, Bot>, updates: seq<Bot>)
    ensures ApplyDetails(saved, updates).Keys == saved.Keys + UpdatedNames(updates)
  {
    if updates != [] {
      var init := updates[..|updates| - 1];
      ApplyDetailsKeys(saved, init);
      assert updates == init + [updates[|updates| - 1]];
      assert UpdatedNames(updates) == UpdatedNames(init) + {updates[|updates| - 1].name};
    }
  }

  /**
   * The entry of an updated name is the LAST update carrying it, whole: no field
   * of the earlier record or of earlier updates survives.
   */
  lemma {:induction false} ApplyDetailsLastWins(saved: map<string, Bot>, updates: seq<Bot>, i: int)
    requires 0 <= i < |updates|
    requires forall j :: i < j < |updates| ==> updates[j].name != updates[i].name
    ensures updates[i].name in ApplyDetails(saved, updates)
    ensures ApplyDetails(saved, updates)[updates[i].name] == updates[i]
  {
    if i < |updates| - 1 {
      ApplyDetailsLastWins(saved, updates[..|updates| - 1], i);
    }
  }

  /** Names no update carries keep their saved records. */
  lemma {:induction false} ApplyDetailsKeepsOthers(saved: map<string, Bot>, updates: seq<Bot>, k: string)
    requires k in saved && k !in UpdatedNames(updates)
    ensures k in ApplyDetails(saved, updates) && ApplyDetails(saved, updates)[k] == saved[k]
  {
    if updates != [] {
      var init := updates[..|updates| - 1];
      assert UpdatedNames(init) <= UpdatedNames(updates);
      assert updates[|updates| - 1] in updates;
      ApplyDetailsKeepsOthers(saved, init, k);
    }
  }

  /** Applying the same updates twice gives the same map as applying them once. */
  lemma ApplyDetailsIdempotent(saved: map<string, Bot>, updates: seq<Bot>)
    ensures ApplyDetails(ApplyDetails(saved, updates), updates) == ApplyDetails(saved, updates)
  {
    var once := ApplyDetails(saved, updates);
    var twice := ApplyDetails(once, updates);
    ApplyDetailsKeys(saved, updates);
    ApplyDetailsKeys(once, updates);
    forall k | k in twice
      ensures twice[k] == once[k]
    {
      if k in UpdatedNames(updates) {
        var i := LastIndexOf(updates, k);
        ApplyDetailsLastWins(saved, updates, i);
        ApplyDetailsLastWins(once, updates, i);
      } else {
        ApplyDetailsKeepsOthers(once, updates, k);
      }
    }
  }

  /** The position of the last update carrying `k`. */
  function LastIndexOf(updates: seq<Bot>, k: string): (i: int)
    requires k in UpdatedNames(updates)
    ensures 0 <= i < |updates| && updates[i].name == k
    ensures forall j :: i < j < |updates| ==> updates[j].name != k
  {
    var last := updates[|updates| - 1];
    if last.name == k then |updates| - 1
    else
      assert forall u :: u in updates && u != last ==> u in updates[..|updates| - 1] by {
        assert updates == updates[..|updates| - 1] + [last];
      }
      LastIndexOf(updates[..|updates| - 1], k)
  }
}
