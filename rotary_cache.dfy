/** The rotation and nudge history of a rotary controller: a cache of the
    last focused node by focus area, and a cache of the focus area to nudge
    to by source focus area and direction, so that a user who nudged too far
    can go back where they came from. Both are LRU caches with a policy
    that disables them, lets entries expire, or keeps them for good. */
module Rotary {
  import opened Directions
  import opened Lru
  import opened Handles

  /** CACHE_TYPE_DISABLED, CACHE_TYPE_EXPIRED_AFTER_SOME_TIME and
      CACHE_TYPE_NEVER_EXPIRE. */
  datatype CacheType = Disabled | ExpiredAfterSomeTime | NeverExpire

  /** The IllegalArgumentException a history cache's construction throws:
      from LruCache for a size that is not positive, or from the cache
      itself for an expiring cache whose expiration time is not positive. */
  datatype ConfigError = NonPositiveSize | NonPositiveExpiration

  datatype Result<T> = Success(value: T) | Failure(error: ConfigError)

  /** The type and expiration time a history cache was built with. */
  datatype CachePolicy = CachePolicy(cacheType: CacheType, expirationTimeMs: int) {

    /** What the constructor accepts: an expiring cache needs a positive
        expiration time. */
    predicate WellFormed() {
      cacheType == ExpiredAfterSomeTime ==> expirationTimeMs > 0
    }

    /** enabled(): a disabled cache accepts no entry at any time. */
    predicate Enabled()
      ensures !Enabled() ==> forall h, t :: !IsValidFocusHistory(h, t)
    {
      cacheType != Disabled
    }

    /** isValidFocusHistory: whether a looked-up entry may be used at time
        `elapsedRealtime`. A missing entry never is; under NeverExpire a
        present one always is; under ExpiredAfterSomeTime it is while
        younger than the expiration time; any other type rejects it. */
    predicate IsValidFocusHistory(focusHistory: Option<FocusHistory>, elapsedRealtime: int)
      ensures IsValidFocusHistory(focusHistory, elapsedRealtime) ==> focusHistory.Some? && cacheType != Disabled
      ensures cacheType == NeverExpire ==> (IsValidFocusHistory(focusHistory, elapsedRealtime) <==> focusHistory.Some?)
      ensures cacheType == ExpiredAfterSomeTime && focusHistory.Some?
              ==> (IsValidFocusHistory(focusHistory, elapsedRealtime)
                   <==> focusHistory.value.timestamp > elapsedRealtime - expirationTimeMs)
    {
      match focusHistory
      case None => false
      case Some(h) =>
        match cacheType
        case NeverExpire => true
        case ExpiredAfterSomeTime => elapsedRealtime - h.timestamp < expirationTimeMs
        case Disabled => false
    }
  }

  /** The construction of a history cache: LruCache(size) checks the size
      first, then the cache checks the expiration time of an expiring
      type. */
  function CheckConfig(cacheType: CacheType, size: int, expirationTimeMs: int): (r: Option<ConfigError>)
    ensures r == None <==> size > 0 && CachePolicy(cacheType, expirationTimeMs).WellFormed()
    ensures size <= 0 ==> r == Some(NonPositiveSize)
    ensures size > 0 && cacheType == ExpiredAfterSomeTime && expirationTimeMs <= 0
            ==> r == Some(NonPositiveExpiration)
  {
    if size <= 0 then Some(NonPositiveSize)
    else if cacheType == ExpiredAfterSomeTime && expirationTimeMs <= 0 then Some(NonPositiveExpiration)
    else None
  }

  /** A key of the focus area history cache: a source focus area and a
      direction. */
  datatype FocusAreaHistory = FocusAreaHistory(sourceFocusArea: Node, direction: Direction) {

    /** FocusAreaHistory.equals: the same direction and equal source focus
        areas (node equality compares the element, not the copy). */
    predicate Equals(that: FocusAreaHistory)
      ensures Equals(that) <==> FocusAreaIdentity(this) == FocusAreaIdentity(that)
    {
      direction == that.direction && sourceFocusArea.element == that.sourceFocusArea.element
    }
  }

  /** The identity of a focus history key: AccessibilityNodeInfo.equals. */
  function NodeIdentity(n: Node): nat { n.element }

  /** The node a focus history key holds: the key itself. */
  function NodeHandle(n: Node): Node { n }

  /** The identity of a focus area history key, as its equals and hashCode
      define it. */
  function FocusAreaIdentity(k: FocusAreaHistory): (nat, Direction) {
    (k.sourceFocusArea.element, k.direction)
  }

  /** The node a focus area history key holds, which entryRemoved recycles. */
  function FocusAreaHandle(k: FocusAreaHistory): Node { k.sourceFocusArea }

  /** The node a get finds under `id` before copying it: nothing when the
      cache is disabled, holds no entry for `id`, or holds a stale one. */
  function Lookup<I(==), K>(policy: CachePolicy, s: seq<Entry<I, K, FocusHistory>>, id: I, elapsedRealtime: int)
    : (r: Option<Node>)
    ensures r.Some? <==> policy.IsValidFocusHistory(Get(s, id), elapsedRealtime)
    ensures r.Some? ==> exists i :: 0 <= i < |s| && s[i].id == id && s[i].value.node == r.value
    ensures !policy.Enabled() ==> r == None
  {
    var found := Get(s, id);
    if policy.Enabled() && policy.IsValidFocusHistory(found, elapsedRealtime) then Some(found.value.node)
    else None
  }

  /** Saving and then looking up the same key at the same time finds the
      saved node, in an enabled cache of any well-formed policy and any
      positive size. */
  lemma SaveThenLookup<I, K>(policy: CachePolicy, s: seq<Entry<I, K, FocusHistory>>, id: I, key: K, node: Node,
                             elapsedRealtime: int, maxSize: int)
    requires Wf(s) && 1 <= maxSize
    requires policy.WellFormed() && policy.Enabled()
    ensures var r := Put(s, id, key, FocusHistory(node, elapsedRealtime), maxSize).entries;
            Lookup(policy, r, id, elapsedRealtime) == Some(node)
  {
    PutStoresValue(s, id, key, FocusHistory(node, elapsedRealtime), maxSize);
  }

  /** FocusHistoryCache or FocusAreaHistoryCache: an LruCache of focus
      histories whose entryRemoved recycles the key's node and the old
      value's node. Keys are told apart by `identity`; `keyNode` is the node
      a key holds. The nodes recycled so far are logged in `released`. */
  class HistoryCache<I(==), K> {
    const maxSize: int
    const policy: CachePolicy
    const identity: K -> I
    const keyNode: K -> Node
    /** The entries of the underlying LinkedHashMap, least recently used
        first. */
    var entries: seq<Entry<I, K, FocusHistory>>
    ghost var released: seq<Node>

    /** No two entries are under equal keys, and the construction checks
        passed. */
    ghost predicate Coherent()
      reads this
    {
      Wf(entries) && 0 < maxSize && policy.WellFormed()
    }

    /** Between operations the cache also holds at most `maxSize` entries. */
    ghost predicate Valid()
      reads this
    {
      Coherent() && |entries| <= maxSize
    }

    /** Every node copy the cache took ownership of: those it holds and
        those it recycled. */
    ghost function Ledger(): multiset<nat>
      reads this
    {
      Handles.Ledger(keyNode, entries, released)
    }

    constructor (cacheType: CacheType, size: int, expirationTimeMs: int, identity: K -> I, keyNode: K -> Node)
      requires CheckConfig(cacheType, size, expirationTimeMs) == None
      ensures Valid() && entries == [] && released == []
      ensures maxSize == size && policy == CachePolicy(cacheType, expirationTimeMs)
      ensures this.identity == identity && this.keyNode == keyNode
    {
      maxSize := size;
      policy := CachePolicy(cacheType, expirationTimeMs);
      this.identity := identity;
      this.keyNode := keyNode;
      entries := [];
      released := [];
    }

    /** entryRemoved: recycles the key's node and the old value's node. */
    method EntryRemoved(key: K, oldValue: FocusHistory)
      modifies this`released
      ensures released == old(released) + [keyNode(key), oldValue.node]
    {
      released := released + [keyNode(key), oldValue.node];
    }

    /** get: the value under the key's identity, made most recently used. */
    method Get(key: K) returns (focusHistory: Option<FocusHistory>)
      requires Valid()
      modifies this`entries
      ensures Valid()
      ensures focusHistory == Lru.Get(old(entries), identity(key))
      ensures entries == AfterGet(old(entries), identity(key))
      ensures Ledger() == old(Ledger())
    {
      var id := identity(key);
      GetKeepsLedger(keyNode, entries, id, released);
      focusHistory := Lru.Get(entries, id);
      entries := AfterGet(entries, id);
    }

    /** trimToSize: evicts the least recently used entry, handing it to
        entryRemoved, until at most `limit` entries remain or none do. */
    method TrimToSize(limit: int)
      requires Coherent()
      modifies this`entries, this`released
      ensures Coherent()
      ensures var out := Lru.TrimToSize(old(entries), limit);
              entries == out.entries && released == old(released) + ReleasedBy(keyNode, out.removed)
    {
      ghost var start := entries;
      ghost var j := 0;
      while |entries| > limit && entries != []
        invariant 0 <= j <= EvictionCount(|start|, limit) && entries == start[j..]
        invariant released == old(released) + ReleasedBy(keyNode, start[..j])
        decreases |entries|
      {
        var eldest := entries[0];
        entries := entries[1..];
        EntryRemoved(eldest.key, eldest.value);
        ReleasedBySnoc(keyNode, start[..j], eldest);
        assert start[..j + 1] == start[..j] + [eldest];
        j := j + 1;
      }
      assert j == EvictionCount(|start|, limit);
    }

    /** put: stores the value under the key's identity as the most recently
        used entry (keeping the key already held for it, and handing the
        argument key and the replaced value to entryRemoved), then trims
        the cache to its maximum size. */
    method Put(key: K, value: FocusHistory)
      requires Valid()
      modifies this`entries, this`released
      ensures Valid()
      ensures var out := Lru.Put(old(entries), identity(key), key, value, maxSize);
              entries == out.entries && released == old(released) + ReleasedBy(keyNode, out.removed)
      ensures Ledger() == old(Ledger()) + multiset{keyNode(key).instance, value.node.instance}
    {
      PutReleasesInOrder(keyNode, entries, identity(key), key, value, maxSize, released);
      PutGrowsLedger(keyNode, entries, identity(key), key, value, maxSize, released);
      Store(key, value);
      TrimToSize(maxSize);
    }

    /** The map.put inside put: stores the value under the key's identity as
        the most recently used entry, keeping the key already held for it,
        and hands the argument key and a replaced value to entryRemoved. */
    method Store(key: K, value: FocusHistory)
      requires Coherent()
      modifies this`entries, this`released
      ensures Coherent()
      ensures entries == Stored(old(entries), identity(key), key, value)
      ensures released == old(released) + ReleasedBy(keyNode, Overwritten(old(entries), identity(key), key))
    {
      var id := identity(key);
      ghost var gone := Overwritten(entries, id, key);
      var i := IndexOf(entries, id);
      if i < 0 {
        entries := Stored(entries, id, key, value);
        assert gone == [] && ReleasedBy(keyNode, gone) == [];
        assert released == old(released) + ReleasedBy(keyNode, gone);
      } else {
        var previous := entries[i].value;
        entries := Stored(entries, id, key, value);
        EntryRemoved(key, previous);
        assert gone == [Entry(id, key, previous)];
        ReleasedByOne(keyNode, Entry(id, key, previous));
      }
    }

    /** evictAll: trimToSize(-1). */
    method EvictAll()
      requires Valid()
      modifies this`entries, this`released
      ensures Valid() && entries == []
      ensures released == old(released) + ReleasedBy(keyNode, old(entries))
      ensures Ledger() == old(Ledger())
    {
      TrimToSize(-1);
      assert Lru.TrimToSize(old(entries), -1).removed == old(entries);
      TrimKeepsLedger(keyNode, old(entries), -1, old(released));
    }
  }

  /** RotaryCache: the focus history cache and the focus area history
      cache. Utils.copyNode makes a new node object each time; the copies
      are numbered from `nextInstance` on. */
  class RotaryCache {
    const focusHistoryCache: HistoryCache<nat, Node>
    const focusAreaHistoryCache: HistoryCache<(nat, Direction), FocusAreaHistory>
    var nextInstance: nat

    /** Both caches are valid and key their entries as equals does. */
    ghost predicate Valid()
      reads this, focusHistoryCache, focusAreaHistoryCache
    {
      && focusHistoryCache.Valid()
      && focusAreaHistoryCache.Valid()
      && focusHistoryCache.identity == NodeIdentity
      && focusHistoryCache.keyNode == NodeHandle
      && focusAreaHistoryCache.identity == FocusAreaIdentity
      && focusAreaHistoryCache.keyNode == FocusAreaHandle
    }

    /** The caches own distinct copies: no copy is held or recycled twice,
        by either cache, and every one was made by this cache. Each
        operation states how it changes the two ledgers; the RotaryClient
        methods show, call by call, that those changes keep this. */
    ghost predicate DistinctCopies()
      reads this, focusHistoryCache, focusAreaHistoryCache
    {
      UniqueBelow(focusHistoryCache.Ledger() + focusAreaHistoryCache.Ledger(), nextInstance)
    }

    constructor (focusHistoryCacheType: CacheType, focusHistoryCacheSize: int, focusHistoryExpirationTimeMs: int,
                 focusAreaHistoryCacheType: CacheType, focusAreaHistoryCacheSize: int, focusAreaHistoryExpirationTimeMs: int)
      requires CheckConfig(focusHistoryCacheType, focusHistoryCacheSize, focusHistoryExpirationTimeMs) == None
      requires CheckConfig(focusAreaHistoryCacheType, focusAreaHistoryCacheSize, focusAreaHistoryExpirationTimeMs) == None
      ensures Valid() && DistinctCopies() && fresh(focusHistoryCache) && fresh(focusAreaHistoryCache)
      ensures focusHistoryCache.entries == [] && focusAreaHistoryCache.entries == []
      ensures focusHistoryCache.maxSize == focusHistoryCacheSize
      ensures focusHistoryCache.policy == CachePolicy(focusHistoryCacheType, focusHistoryExpirationTimeMs)
      ensures focusAreaHistoryCache.maxSize == focusAreaHistoryCacheSize
      ensures focusAreaHistoryCache.policy == CachePolicy(focusAreaHistoryCacheType, focusAreaHistoryExpirationTimeMs)
    {
      focusHistoryCache := new HistoryCache(focusHistoryCacheType, focusHistoryCacheSize,
                                            focusHistoryExpirationTimeMs, NodeIdentity, NodeHandle);
      focusAreaHistoryCache := new HistoryCache(focusAreaHistoryCacheType, focusAreaHistoryCacheSize,
                                                focusAreaHistoryExpirationTimeMs, FocusAreaIdentity, FocusAreaHandle);
      nextInstance := 0;
    }

    /** copyNode: a new copy of `node`, numbered `nextInstance`. */
    method CopyNode(node: Node) returns (copy: Node)
      modifies this`nextInstance
      ensures copy == Node(node.element, old(nextInstance)) && nextInstance == old(nextInstance) + 1
    {
      copy := Node(node.element, nextInstance);
      nextInstance := nextInstance + 1;
    }

    /** getFocusedNode: a copy of the node last focused in `focusArea`, or
        nothing when the cache is disabled, has no entry or a stale one. A
        stale entry is left in place. */
    method GetFocusedNode(focusArea: Node, elapsedRealtime: int) returns (node: Option<Node>)
      requires Valid()
      modifies this`nextInstance, focusHistoryCache`entries
      ensures Valid()
      ensures var found := Lookup(focusHistoryCache.policy, old(focusHistoryCache.entries), focusArea.element, elapsedRealtime);
              node == if found.Some? then Some(Node(found.value.element, old(nextInstance))) else None
      ensures nextInstance == if node.Some? then old(nextInstance) + 1 else old(nextInstance)
      ensures focusHistoryCache.Ledger() == old(focusHistoryCache.Ledger())
      ensures focusHistoryCache.entries
              == if focusHistoryCache.policy.Enabled() then AfterGet(old(focusHistoryCache.entries), focusArea.element)
                 else old(focusHistoryCache.entries)
    {
      node := None;
      if focusHistoryCache.policy.Enabled() {
        var focusHistory := focusHistoryCache.Get(focusArea);
        if focusHistoryCache.policy.IsValidFocusHistory(focusHistory, elapsedRealtime) {
          var copy := CopyNode(focusHistory.value.node);
          node := Some(copy);
        }
      }
    }

    /** saveFocusedNode: caches a copy of `focusedNode` under a copy of
        `focusArea`, stamped `elapsedRealtime`; the focus area is copied
        first. A disabled cache changes nothing. */
    method SaveFocusedNode(focusArea: Node, focusedNode: Node, elapsedRealtime: int)
      requires Valid()
      modifies this`nextInstance, focusHistoryCache`entries, focusHistoryCache`released
      ensures Valid()
      ensures !focusHistoryCache.policy.Enabled()
              ==> nextInstance == old(nextInstance)
                  && focusHistoryCache.entries == old(focusHistoryCache.entries)
                  && focusHistoryCache.released == old(focusHistoryCache.released)
      ensures focusHistoryCache.policy.Enabled()
              ==> var out := Lru.Put(old(focusHistoryCache.entries), focusArea.element,
                                     Node(focusArea.element, old(nextInstance)),
                                     FocusHistory(Node(focusedNode.element, old(nextInstance) + 1), elapsedRealtime),
                                     focusHistoryCache.maxSize);
                  && nextInstance == old(nextInstance) + 2
                  && focusHistoryCache.entries == out.entries
                  && focusHistoryCache.released == old(focusHistoryCache.released) + ReleasedBy(NodeHandle, out.removed)
                  && focusHistoryCache.Ledger()
                     == old(focusHistoryCache.Ledger()) + multiset{old(nextInstance), old(nextInstance) + 1}
      ensures focusHistoryCache.policy.Enabled()
              ==> Lookup(focusHistoryCache.policy, focusHistoryCache.entries, focusArea.element, elapsedRealtime)
                  == Some(Node(focusedNode.element, old(nextInstance) + 1))
    {
      if focusHistoryCache.policy.Enabled() {
        var key := CopyNode(focusArea);
        var copy := CopyNode(focusedNode);
        ghost var before := focusHistoryCache.entries;
        focusHistoryCache.Put(key, FocusHistory(copy, elapsedRealtime));
        SaveThenLookup(focusHistoryCache.policy, before, focusArea.element, key, copy, elapsedRealtime,
                       focusHistoryCache.maxSize);
      }
    }

    /** getTargetFocusArea: a copy of the focus area a nudge in `direction`
        from `sourceFocusArea` last went to, or nothing when the cache is
        disabled, has no entry or a stale one. */
    method GetTargetFocusArea(sourceFocusArea: Node, direction: Direction, elapsedRealtime: int) returns (node: Option<Node>)
      requires Valid()
      modifies this`nextInstance, focusAreaHistoryCache`entries
      ensures Valid()
      ensures var found := Lookup(focusAreaHistoryCache.policy, old(focusAreaHistoryCache.entries),
                                  (sourceFocusArea.element, direction), elapsedRealtime);
              node == if found.Some? then Some(Node(found.value.element, old(nextInstance))) else None
      ensures nextInstance == if node.Some? then old(nextInstance) + 1 else old(nextInstance)
      ensures focusAreaHistoryCache.Ledger() == old(focusAreaHistoryCache.Ledger())
      ensures focusAreaHistoryCache.entries
              == if focusAreaHistoryCache.policy.Enabled()
                 then AfterGet(old(focusAreaHistoryCache.entries), (sourceFocusArea.element, direction))
                 else old(focusAreaHistoryCache.entries)
    {
      node := None;
      if focusAreaHistoryCache.policy.Enabled() {
        var focusHistory := focusAreaHistoryCache.Get(FocusAreaHistory(sourceFocusArea, direction));
        if focusAreaHistoryCache.policy.IsValidFocusHistory(focusHistory, elapsedRealtime) {
          var copy := CopyNode(focusHistory.value.node);
          node := Some(copy);
        }
      }
    }

    /** saveTargetFocusArea: records the way back. Under a copy of the
        target and the opposite direction it caches a copy of the source,
        stamped `elapsedRealtime`; the target is copied first. A disabled
        cache changes nothing. */
    method SaveTargetFocusArea(sourceFocusArea: Node, targetFocusArea: Node, direction: Direction, elapsedRealtime: int)
      requires Valid()
      modifies this`nextInstance, focusAreaHistoryCache`entries, focusAreaHistoryCache`released
      ensures Valid()
      ensures !focusAreaHistoryCache.policy.Enabled()
              ==> nextInstance == old(nextInstance)
                  && focusAreaHistoryCache.entries == old(focusAreaHistoryCache.entries)
                  && focusAreaHistoryCache.released == old(focusAreaHistoryCache.released)
      ensures focusAreaHistoryCache.policy.Enabled()
              ==> var key := FocusAreaHistory(Node(targetFocusArea.element, old(nextInstance)), Opposite(direction));
                  var out := Lru.Put(old(focusAreaHistoryCache.entries), FocusAreaIdentity(key), key,
                                     FocusHistory(Node(sourceFocusArea.element, old(nextInstance) + 1), elapsedRealtime),
                                     focusAreaHistoryCache.maxSize);
                  && nextInstance == old(nextInstance) + 2
                  && focusAreaHistoryCache.entries == out.entries
                  && focusAreaHistoryCache.released
                     == old(focusAreaHistoryCache.released) + ReleasedBy(FocusAreaHandle, out.removed)
                  && focusAreaHistoryCache.Ledger()
                     == old(focusAreaHistoryCache.Ledger()) + multiset{old(nextInstance), old(nextInstance) + 1}
      ensures focusAreaHistoryCache.policy.Enabled()
              ==> Lookup(focusAreaHistoryCache.policy, focusAreaHistoryCache.entries,
                         (targetFocusArea.element, Opposite(direction)), elapsedRealtime)
                  == Some(Node(sourceFocusArea.element, old(nextInstance) + 1))
    {
      if focusAreaHistoryCache.policy.Enabled() {
        var oppositeDirection := Opposite(direction);
        var target := CopyNode(targetFocusArea);
        var source := CopyNode(sourceFocusArea);
        ghost var before := focusAreaHistoryCache.entries;
        var key := FocusAreaHistory(target, oppositeDirection);
        focusAreaHistoryCache.Put(key, FocusHistory(source, elapsedRealtime));
        SaveThenLookup(focusAreaHistoryCache.policy, before, FocusAreaIdentity(key), key, source, elapsedRealtime,
                       focusAreaHistoryCache.maxSize);
      }
    }

    /** clearFocusAreaHistory: empties an enabled focus area history cache,
        recycling every entry's nodes. */
    method ClearFocusAreaHistory()
      requires Valid()
      modifies focusAreaHistoryCache`entries, focusAreaHistoryCache`released
      ensures Valid()
      ensures focusAreaHistoryCache.Ledger() == old(focusAreaHistoryCache.Ledger())
      ensures !focusAreaHistoryCache.policy.Enabled()
              ==> focusAreaHistoryCache.entries == old(focusAreaHistoryCache.entries)
                  && focusAreaHistoryCache.released == old(focusAreaHistoryCache.released)
      ensures focusAreaHistoryCache.policy.Enabled()
              ==> var out := Lru.EvictAll(old(focusAreaHistoryCache.entries));
                  && focusAreaHistoryCache.entries == out.entries
                  && focusAreaHistoryCache.released
                     == old(focusAreaHistoryCache.released) + ReleasedBy(FocusAreaHandle, out.removed)
    {
      if focusAreaHistoryCache.policy.Enabled() {
        focusAreaHistoryCache.EvictAll();
      }
    }

    /** isFocusAreaHistoryCacheEmpty: whether the focus area history cache
        has no entry, that is, whether every lookup in it misses. */
    function IsFocusAreaHistoryCacheEmpty(): (empty: bool)
      reads focusAreaHistoryCache
      ensures empty <==> forall id :: Lru.Get(focusAreaHistoryCache.entries, id) == None
    {
      var s := focusAreaHistoryCache.entries;
      assert |s| > 0 ==> Lru.Get(s, s[0].id).Some?;
      Lru.Size(s) == 0
    }
  }

  /** Builds a RotaryCache, or reports the exception its construction
      throws: the focus history cache is built first, and each cache checks
      its size before its expiration time. */
  method NewRotaryCache(focusHistoryCacheType: CacheType, focusHistoryCacheSize: int, focusHistoryExpirationTimeMs: int,
                        focusAreaHistoryCacheType: CacheType, focusAreaHistoryCacheSize: int, focusAreaHistoryExpirationTimeMs: int)
    returns (r: Result<RotaryCache>)
    ensures var first := CheckConfig(focusHistoryCacheType, focusHistoryCacheSize, focusHistoryExpirationTimeMs);
            var second := CheckConfig(focusAreaHistoryCacheType, focusAreaHistoryCacheSize, focusAreaHistoryExpirationTimeMs);
            && (r.Failure? <==> first.Some? || second.Some?)
            && (r.Failure? ==> r.error == if first.Some? then first.value else second.value)
    ensures r.Success? ==> fresh(r.value) && r.value.Valid() && r.value.DistinctCopies()
    ensures r.Success? ==> r.value.focusHistoryCache.entries == [] && r.value.focusAreaHistoryCache.entries == []
    ensures r.Success? ==> r.value.focusHistoryCache.maxSize == focusHistoryCacheSize
                           && r.value.focusHistoryCache.policy == CachePolicy(focusHistoryCacheType, focusHistoryExpirationTimeMs)
    ensures r.Success? ==> r.value.focusAreaHistoryCache.maxSize == focusAreaHistoryCacheSize
                           && r.value.focusAreaHistoryCache.policy
                              == CachePolicy(focusAreaHistoryCacheType, focusAreaHistoryExpirationTimeMs)
  {
    var first := CheckConfig(focusHistoryCacheType, focusHistoryCacheSize, focusHistoryExpirationTimeMs);
    if first.Some? {
      return Failure(first.value);
    }
    var second := CheckConfig(focusAreaHistoryCacheType, focusAreaHistoryCacheSize, focusAreaHistoryExpirationTimeMs);
    if second.Some? {
      return Failure(second.value);
    }
    var cache := new RotaryCache(focusHistoryCacheType, focusHistoryCacheSize, focusHistoryExpirationTimeMs,
                                 focusAreaHistoryCacheType, focusAreaHistoryCacheSize, focusAreaHistoryExpirationTimeMs);
    return Success(cache);
  }
}
