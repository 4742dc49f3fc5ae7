/** What the history caches promise to their callers, stated on the pure
    model of one cache: an entry expires as configured, a stale entry is
    not returned yet kept, a nudge can be undone through the opposite
    direction, and an emptied cache finds nothing. */
module RotaryLemmas {
  import opened Directions
  import opened Lru
  import opened Handles
  import opened Rotary

  /** The way back from the way back is the way there. */
  lemma OppositeIsInvolution(direction: Direction)
    ensures Opposite(Opposite(direction)) == direction
  {
  }

  /** A stale entry is not returned, but the get that found it leaves it in
      the cache, now the most recently used. */
  lemma StaleEntryIsKept<I, K>(policy: CachePolicy, s: seq<Entry<I, K, FocusHistory>>, i: int, elapsedRealtime: int)
    requires Wf(s) && 0 <= i < |s|
    requires policy.cacheType == ExpiredAfterSomeTime
    requires elapsedRealtime - s[i].value.timestamp >= policy.expirationTimeMs
    ensures Lookup(policy, s, s[i].id, elapsedRealtime) == None
    ensures var after := AfterGet(s, s[i].id);
            Get(after, s[i].id) == Some(s[i].value) && after[|after| - 1] == s[i]
  {
    GetPromotes(s, i);
    var after := AfterGet(s, s[i].id);
    IndexOfUnique(after, |after| - 1);
  }

  /** With an expiration time of 100 ms, a node saved at time 0 is found at
      time 50 and no longer at time 150. */
  lemma ExpiryExample(focusArea: Node, focusedNode: Node)
    ensures var policy := CachePolicy(ExpiredAfterSomeTime, 100);
            var s := Put([], focusArea.element, focusArea, FocusHistory(focusedNode, 0), 10).entries;
            && Lookup(policy, s, focusArea.element, 50) == Some(focusedNode)
            && Lookup(policy, s, focusArea.element, 150) == None
  {
    var s := Put([], focusArea.element, focusArea, FocusHistory(focusedNode, 0), 10).entries;
    PutStoresValue([], focusArea.element, focusArea, FocusHistory(focusedNode, 0), 10);
    assert Get(s, focusArea.element) == Some(FocusHistory(focusedNode, 0));
  }

  /** After evictAll every lookup misses. */
  lemma EvictAllForgets<I, K>(policy: CachePolicy, s: seq<Entry<I, K, FocusHistory>>, id: I, elapsedRealtime: int)
    requires Wf(s)
    ensures Lookup(policy, EvictAll(s).entries, id, elapsedRealtime) == None
  {
    EvictAllEmpties(s, id);
  }

  /** The key saveTargetFocusArea stores for a nudge from `source` to
      `target` in `direction`, with the copies numbered from `n`. */
  function NudgeKey(target: Node, direction: Direction, n: nat): FocusAreaHistory {
    FocusAreaHistory(Node(target.element, n), Opposite(direction))
  }

  /** After a nudge from `source` to `target` in `direction` is saved, a
      nudge back from `target` in the opposite direction finds `source`;
      and the save creates no entry for nudging on from `target` in the
      same direction, nor for nudging from `source` in that direction
      again. */
  lemma NudgeBackFindsSource(policy: CachePolicy, s: seq<Entry<(nat, Direction), FocusAreaHistory, FocusHistory>>,
                             source: Node, target: Node, direction: Direction, elapsedRealtime: int, maxSize: int, n: nat)
    requires Wf(s) && 1 <= maxSize
    requires policy.WellFormed() && policy.Enabled()
    ensures var key := NudgeKey(target, direction, n);
            var r := Put(s, FocusAreaIdentity(key), key, FocusHistory(Node(source.element, n + 1), elapsedRealtime), maxSize).entries;
            && Lookup(policy, r, (target.element, Opposite(direction)), elapsedRealtime) == Some(Node(source.element, n + 1))
            && (forall e :: e in r && e.id == (target.element, direction) ==> e in s)
            && (forall e :: e in r && e.id == (source.element, direction) ==> e in s)
  {
    var key := NudgeKey(target, direction, n);
    var value := FocusHistory(Node(source.element, n + 1), elapsedRealtime);
    SaveThenLookup(policy, s, FocusAreaIdentity(key), key, Node(source.element, n + 1), elapsedRealtime, maxSize);
    PutKeepsOthers(s, FocusAreaIdentity(key), key, value, maxSize);
  }
}
