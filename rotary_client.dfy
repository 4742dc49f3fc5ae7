/** A client of RotaryCache, calling the methods on the cache object
    itself: the round trips of a save followed by a get, and that every
    method keeps the copies the caches own distinct. */
module RotaryClient {
  import opened Directions
  import opened Lru
  import opened Handles
  import opened Rotary

  /** Saving the focused node of a focus area and then asking for it at the
      same time returns a fresh copy of that node: the focus area is copied
      first, the node second, and the get copies the cached node again. */
  method SaveThenGetFocusedNode(c: RotaryCache, focusArea: Node, focusedNode: Node, elapsedRealtime: int)
    returns (node: Option<Node>)
    requires c.Valid() && c.focusHistoryCache.policy.Enabled()
    modifies c`nextInstance, c.focusHistoryCache`entries, c.focusHistoryCache`released
    ensures c.Valid()
    ensures node == Some(Node(focusedNode.element, old(c.nextInstance) + 2))
  {
    c.SaveFocusedNode(focusArea, focusedNode, elapsedRealtime);
    node := c.GetFocusedNode(focusArea, elapsedRealtime);
  }

  /** Saving a nudge from `sourceFocusArea` to `targetFocusArea` and then
      nudging back from the target in the opposite direction, at the same
      time, returns a fresh copy of the source. */
  method NudgeThenNudgeBack(c: RotaryCache, sourceFocusArea: Node, targetFocusArea: Node, direction: Direction,
                            elapsedRealtime: int)
    returns (node: Option<Node>)
    requires c.Valid() && c.focusAreaHistoryCache.policy.Enabled()
    modifies c`nextInstance, c.focusAreaHistoryCache`entries, c.focusAreaHistoryCache`released
    ensures c.Valid()
    ensures node == Some(Node(sourceFocusArea.element, old(c.nextInstance) + 2))
  {
    c.SaveTargetFocusArea(sourceFocusArea, targetFocusArea, direction, elapsedRealtime);
    node := c.GetTargetFocusArea(targetFocusArea, Opposite(direction), elapsedRealtime);
  }

  /** After saveFocusedNode in an enabled cache: the focus history cache
      owns the two new copies `n` and `n + 1` besides its old ones, the
      other cache's copies are unchanged and the counter is past both new
      copies, so every copy is still owned once. */
  lemma FocusHistoryGrowthKeepsCopiesDistinct(c: RotaryCache, n: nat, changed: multiset<nat>, kept: multiset<nat>)
    requires UniqueBelow(changed + kept, n)
    requires c.nextInstance == n + 2
    requires c.focusHistoryCache.Ledger() == changed + multiset{n, n + 1}
    requires c.focusAreaHistoryCache.Ledger() == kept
    ensures c.DistinctCopies()
  {
    UniqueBelowStep(changed, kept, c.focusHistoryCache.Ledger(), n);
  }

  /** The same after saveTargetFocusArea, with the two caches' roles swapped. */
  lemma FocusAreaHistoryGrowthKeepsCopiesDistinct(c: RotaryCache, n: nat, kept: multiset<nat>, changed: multiset<nat>)
    requires UniqueBelow(kept + changed, n)
    requires c.nextInstance == n + 2
    requires c.focusHistoryCache.Ledger() == kept
    requires c.focusAreaHistoryCache.Ledger() == changed + multiset{n, n + 1}
    ensures c.DistinctCopies()
  {
    UniqueBelowStep(changed, kept, c.focusAreaHistoryCache.Ledger(), n);
  }

  /** saveFocusedNode keeps the copies distinct. */
  method SaveFocusedNodeKeepsCopiesDistinct(c: RotaryCache, focusArea: Node, focusedNode: Node, elapsedRealtime: int)
    requires c.Valid() && c.DistinctCopies()
    modifies c`nextInstance, c.focusHistoryCache`entries, c.focusHistoryCache`released
    ensures c.Valid() && c.DistinctCopies()
  {
    ghost var n := c.nextInstance;
    ghost var changed := c.focusHistoryCache.Ledger();
    ghost var kept := c.focusAreaHistoryCache.Ledger();
    c.SaveFocusedNode(focusArea, focusedNode, elapsedRealtime);
    if c.focusHistoryCache.policy.Enabled() {
      FocusHistoryGrowthKeepsCopiesDistinct(c, n, changed, kept);
    }
  }

  /** saveTargetFocusArea keeps the copies distinct. */
  method SaveTargetFocusAreaKeepsCopiesDistinct(c: RotaryCache, sourceFocusArea: Node, targetFocusArea: Node,
                                                direction: Direction, elapsedRealtime: int)
    requires c.Valid() && c.DistinctCopies()
    modifies c`nextInstance, c.focusAreaHistoryCache`entries, c.focusAreaHistoryCache`released
    ensures c.Valid() && c.DistinctCopies()
  {
    ghost var n := c.nextInstance;
    ghost var kept := c.focusHistoryCache.Ledger();
    ghost var changed := c.focusAreaHistoryCache.Ledger();
    c.SaveTargetFocusArea(sourceFocusArea, targetFocusArea, direction, elapsedRealtime);
    if c.focusAreaHistoryCache.policy.Enabled() {
      FocusAreaHistoryGrowthKeepsCopiesDistinct(c, n, kept, changed);
    }
  }

  /** getFocusedNode keeps the copies distinct: the copy it hands out is
      numbered past every copy the caches own. */
  method GetFocusedNodeKeepsCopiesDistinct(c: RotaryCache, focusArea: Node, elapsedRealtime: int)
    returns (node: Option<Node>)
    requires c.Valid() && c.DistinctCopies()
    modifies c`nextInstance, c.focusHistoryCache`entries
    ensures c.Valid() && c.DistinctCopies()
  {
    ghost var n := c.nextInstance;
    ghost var bag := c.focusHistoryCache.Ledger() + c.focusAreaHistoryCache.Ledger();
    node := c.GetFocusedNode(focusArea, elapsedRealtime);
    UniqueBelowRaise(bag, n, c.nextInstance);
  }

  /** getTargetFocusArea keeps the copies distinct, as getFocusedNode does. */
  method GetTargetFocusAreaKeepsCopiesDistinct(c: RotaryCache, sourceFocusArea: Node, direction: Direction,
                                               elapsedRealtime: int)
    returns (node: Option<Node>)
    requires c.Valid() && c.DistinctCopies()
    modifies c`nextInstance, c.focusAreaHistoryCache`entries
    ensures c.Valid() && c.DistinctCopies()
  {
    ghost var n := c.nextInstance;
    ghost var bag := c.focusHistoryCache.Ledger() + c.focusAreaHistoryCache.Ledger();
    node := c.GetTargetFocusArea(sourceFocusArea, direction, elapsedRealtime);
    UniqueBelowRaise(bag, n, c.nextInstance);
  }

  /** clearFocusAreaHistory keeps the copies distinct: every copy it takes
      out of the cache is recycled, so the ledgers do not change. */
  method ClearFocusAreaHistoryKeepsCopiesDistinct(c: RotaryCache)
    requires c.Valid() && c.DistinctCopies()
    modifies c.focusAreaHistoryCache`entries, c.focusAreaHistoryCache`released
    ensures c.Valid() && c.DistinctCopies()
  {
    c.ClearFocusAreaHistory();
  }
}
