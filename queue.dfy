/**
 * The queue builder: the bots still lacking a description that the current
 * work queue does not already hold, each mapped to its url.
 */
module Queue {
  import opened Records
  import opened ListingMerge
  import opened DetailMerge

  /** `BOT_QUEUE[k]` is truthy: the key is present and its url is not the empty string. */
  predicate IsQueued(botQueue: map<string, string>, k: string) {
    k in botQueue && botQueue[k] != ""
  }

  /** The queue the builder produces from the saved bots and the current queue. */
  function IncompleteQueue(savedBots: map<string, Bot>, botQueue: map<string, string>): map<string, string> {
    map k | k in savedBots && LacksDescription(savedBots[k]) && !IsQueued(botQueue, k) :: savedBots[k].url
  }

  /**
   * Builds the new queue. A saved bot is included exactly when its description
   * is empty and it is not truthily queued already, and it is mapped to its
   * own url. Both inputs are values: neither is changed.
   */
  method CheckBotListForIncompletes(savedBots: map<string, Bot>, botQueue: map<string, string>)
    returns (queue: map<string, string>)
    ensures forall k :: k in queue <==> k in savedBots && LacksDescription(savedBots[k]) && !IsQueued(botQueue, k)
    ensures forall k :: k in queue ==> queue[k] == savedBots[k].url
    ensures queue.Keys <= savedBots.Keys
    ensures queue == IncompleteQueue(savedBots, botQueue)
  {
    queue := map[];
    var remaining := savedBots.Keys;
    while remaining != {}
      invariant remaining <= savedBots.Keys
      invariant forall k :: k in queue <==>
                  k in savedBots && k !in remaining && LacksDescription(savedBots[k]) && !IsQueued(botQueue, k)
      invariant forall k :: k in queue ==> queue[k] == savedBots[k].url
      decreases remaining
    {
      var bot :| bot in remaining;
      if LacksDescription(savedBots[bot]) && !IsQueued(botQueue, bot) {
        queue := queue[bot := savedBots[bot].url];
      }
      remaining := remaining - {bot};
    }
  }

  /**
   * A bot the listing merge adds is queued with the url of its first listing,
   * unless the current queue already holds it.
   */
  lemma NewBotsAreQueued(saved: map<string, Bot>, ls: seq<Listing>, botQueue: map<string, string>, i: int)
    requires 0 <= i < |ls| && ls[i].name !in saved
    requires forall j :: 0 <= j < i ==> ls[j].name != ls[i].name
    requires !IsQueued(botQueue, ls[i].name)
    ensures ls[i].name in IncompleteQueue(MergeListings(saved, ls), botQueue)
    ensures IncompleteQueue(MergeListings(saved, ls), botQueue)[ls[i].name] == ls[i].url
  {
    MergeListingsFirstWins(saved, ls, i);
  }

  /** The listing merge never drops an entry from the queue it would build, nor changes its url. */
  lemma ListingMergeKeepsQueue(saved: map<string, Bot>, ls: seq<Listing>, botQueue: map<string, string>)
    ensures forall k :: k in IncompleteQueue(saved, botQueue) ==>
              k in IncompleteQueue(MergeListings(saved, ls), botQueue) &&
              IncompleteQueue(MergeListings(saved, ls), botQueue)[k] == IncompleteQueue(saved, botQueue)[k]
  {
    forall k | k in IncompleteQueue(saved, botQueue)
      ensures k in IncompleteQueue(MergeListings(saved, ls), botQueue) &&
              IncompleteQueue(MergeListings(saved, ls), botQueue)[k] == IncompleteQueue(saved, botQueue)[k]
    {
      MergeListingsKeepsSaved(saved, ls, k);
    }
  }

  /** A bot whose last detail record carries a description leaves the queue. */
  lemma DetailedBotsLeaveQueue(saved: map<string, Bot>, updates: seq<Bot>, botQueue: map<string, string>, i: int)
    requires 0 <= i < |updates| && !LacksDescription(updates[i])
    requires forall j :: i < j < |updates| ==> updates[j].name != updates[i].name
    ensures updates[i].name !in IncompleteQueue(ApplyDetails(saved, updates), botQueue)
  {
    ApplyDetailsLastWins(saved, updates, i);
  }
}
