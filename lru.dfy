/** The sequential contract of android.util.LruCache when every entry has
    size one, as the two history caches use it. The cache is an
    access-ordered LinkedHashMap: its entries form a list from least to most
    recently used, no two of them under equal keys. The cache is bounded by a
    maximum size and calls entryRemoved for every entry it drops or
    overwrites. Locking and the hit/miss counters are not part of it. */
module Lru {

  datatype Option<T> = None | Some(value: T)

  /** One mapping: the identity of the key (the equivalence its equals and
      hashCode define), the key object the map holds, and the value. */
  datatype Entry<I, K, V> = Entry(id: I, key: K, value: V)

  /** New entries, together with the entries handed to entryRemoved on the
      way, in the order of the calls. */
  datatype Outcome<I, K, V> = Outcome(entries: seq<Entry<I, K, V>>, removed: seq<Entry<I, K, V>>)

  /** No two entries are under equal keys. */
  ghost predicate Wf<I, K, V>(s: seq<Entry<I, K, V>>) {
    forall i, j :: 0 <= i < j < |s| ==> s[i].id != s[j].id
  }

  /** Where the entry under `id` is, or -1. */
  function IndexOf<I(==), K, V>(s: seq<Entry<I, K, V>>, id: I): (r: int)
    ensures -1 <= r < |s|
    ensures 0 <= r ==> s[r].id == id
    ensures r < 0 <==> forall i :: 0 <= i < |s| ==> s[i].id != id
  {
    if s == [] then -1
    else if s[0].id == id then 0
    else
      var r := IndexOf(s[1..], id);
      if r < 0 then -1 else r + 1
  }

  /** In a well-formed list the entry under `id` is the only one. */
  lemma IndexOfUnique<I, K, V>(s: seq<Entry<I, K, V>>, i: int)
    requires Wf(s) && 0 <= i < |s|
    ensures IndexOf(s, s[i].id) == i
  {
  }

  /** The number of entries, what LruCache.size() reports. */
  function Size<I, K, V>(s: seq<Entry<I, K, V>>): nat {
    |s|
  }

  /** LruCache.get: the value cached under the identity `id`, if any. */
  function Get<I(==), K, V>(s: seq<Entry<I, K, V>>, id: I): (r: Option<V>)
    ensures r == None <==> forall i :: 0 <= i < |s| ==> s[i].id != id
    ensures r.Some? ==> exists i :: 0 <= i < |s| && s[i].id == id && s[i].value == r.value
  {
    var i := IndexOf(s, id);
    if i < 0 then None else Some(s[i].value)
  }

  /** `s` without its element at index `i`. */
  function RemoveAt<T>(s: seq<T>, i: int): seq<T>
    requires 0 <= i < |s|
  {
    s[..i] + s[i + 1..]
  }

  /** Taking out one entry and appending another under the same key keeps
      the list well formed. */
  lemma MoveToEndWf<I, K, V>(s: seq<Entry<I, K, V>>, i: int, e: Entry<I, K, V>)
    requires Wf(s) && 0 <= i < |s| && e.id == s[i].id
    ensures Wf(RemoveAt(s, i) + [e])
  {
    var r := RemoveAt(s, i) + [e];
    forall a, b | 0 <= a < b < |r|
      ensures r[a].id != r[b].id
    {
      var a' := if a < i then a else a + 1;
      var b' := if b < |r| - 1 then (if b < i then b else b + 1) else i;
      assert r[a] == s[a'] && r[b].id == s[b'].id;
    }
  }

  /** The entries after LruCache.get: a hit moves the entry to the most
      recently used end; nothing is added, removed or changed. */
  function AfterGet<I(==), K, V>(s: seq<Entry<I, K, V>>, id: I): (r: seq<Entry<I, K, V>>)
    requires Wf(s)
    ensures Wf(r)
  {
    var i := IndexOf(s, id);
    if i < 0 then s
    else
      MoveToEndWf(s, i, s[i]);
      RemoveAt(s, i) + [s[i]]
  }

  /** How many of `n` entries trimToSize(maxSize) evicts. */
  function EvictionCount(n: nat, maxSize: int): nat {
    if maxSize < 0 then n else if n <= maxSize then 0 else n - maxSize
  }

  /** LruCache.trimToSize: evicts the least recently used entries until at
      most `maxSize` remain (all of them when `maxSize` is negative). The
      evicted entries come first in the list, in the order they go. */
  function TrimToSize<I, K, V>(s: seq<Entry<I, K, V>>, maxSize: int): (r: Outcome<I, K, V>)
    requires Wf(s)
    ensures Wf(r.entries)
    ensures r.removed + r.entries == s
    ensures |r.entries| == if maxSize < 0 then 0 else if |s| < maxSize then |s| else maxSize
  {
    var k := EvictionCount(|s|, maxSize);
    assert s[..k] + s[k..] == s;
    Outcome(s[k..], s[..k])
  }

  /** The entries right after LruCache.put stored `value` under `id`,
      before trimming: an existing entry keeps the key object already in
      the map, a new one takes the argument key; either becomes the most
      recently used. */
  function Stored<I(==), K, V>(s: seq<Entry<I, K, V>>, id: I, key: K, value: V): (r: seq<Entry<I, K, V>>)
    requires Wf(s)
    ensures Wf(r)
  {
    var i := IndexOf(s, id);
    if i < 0 then s + [Entry(id, key, value)]
    else
      MoveToEndWf(s, i, Entry(id, s[i].key, value));
      RemoveAt(s, i) + [Entry(id, s[i].key, value)]
  }

  /** What put hands to entryRemoved for a value it replaces: the argument
      key and the old value. */
  function Overwritten<I(==), K, V>(s: seq<Entry<I, K, V>>, id: I, key: K): seq<Entry<I, K, V>> {
    var i := IndexOf(s, id);
    if i < 0 then [] else [Entry(id, key, s[i].value)]
  }

  /** LruCache.put with every entry of size one: store, report the replaced
      value to entryRemoved, then trim the cache to `maxSize`. */
  function Put<I(==), K, V>(s: seq<Entry<I, K, V>>, id: I, key: K, value: V, maxSize: int): (r: Outcome<I, K, V>)
    requires Wf(s)
    ensures Wf(r.entries)
  {
    var trimmed := TrimToSize(Stored(s, id, key, value), maxSize);
    Outcome(trimmed.entries, Overwritten(s, id, key) + trimmed.removed)
  }

  /** LruCache.evictAll: trimToSize(-1), which evicts every entry, least
      recently used first. */
  function EvictAll<I, K, V>(s: seq<Entry<I, K, V>>): (r: Outcome<I, K, V>)
    requires Wf(s)
    ensures r.entries == [] && r.removed == s
  {
    TrimToSize(s, -1)
  }

  // ---------------------------------------------------------------------------
  // Properties

  /** A get returns the value of the entry under `id`, and afterwards that
      entry is the most recently used while the others keep their order. */
  lemma GetPromotes<I, K, V>(s: seq<Entry<I, K, V>>, i: int)
    requires Wf(s) && 0 <= i < |s|
    ensures Get(s, s[i].id) == Some(s[i].value)
    ensures AfterGet(s, s[i].id) == s[..i] + s[i + 1..] + [s[i]]
  {
    IndexOfUnique(s, i);
  }

  /** A get moves entries but never adds, drops or changes one. */
  lemma GetKeepsEntries<I, K, V>(s: seq<Entry<I, K, V>>, id: I)
    requires Wf(s)
    ensures multiset(AfterGet(s, id)) == multiset(s)
  {
    var i := IndexOf(s, id);
    if i >= 0 {
      assert s == s[..i] + [s[i]] + s[i + 1..];
    }
  }

  /** A miss finds nothing and changes nothing. */
  lemma MissChangesNothing<I, K, V>(s: seq<Entry<I, K, V>>, id: I)
    requires Wf(s)
    requires forall i :: 0 <= i < |s| ==> s[i].id != id
    ensures Get(s, id) == None && AfterGet(s, id) == s
  {
  }

  /** A put into a cache of maximum size at least one leaves `value` under
      `id`, in the most recently used entry; the map keeps the key object
      it already held for `id`, or takes the argument key. */
  lemma PutStoresValue<I, K, V>(s: seq<Entry<I, K, V>>, id: I, key: K, value: V, maxSize: int)
    requires Wf(s) && 1 <= maxSize
    ensures var r := Put(s, id, key, value, maxSize).entries;
            && |r| > 0
            && r[|r| - 1] == Entry(id, if IndexOf(s, id) >= 0 then s[IndexOf(s, id)].key else key, value)
            && Get(r, id) == Some(value)
  {
    var stored := Stored(s, id, key, value);
    StoredEndsWithValue(s, id, key, value);
    TrimKeepsNewest(stored, maxSize);
    var r := TrimToSize(stored, maxSize).entries;
    IndexOfUnique(r, |r| - 1);
  }

  /** Storing leaves the stored entry last. */
  lemma StoredEndsWithValue<I, K, V>(s: seq<Entry<I, K, V>>, id: I, key: K, value: V)
    requires Wf(s)
    ensures var r := Stored(s, id, key, value);
            |r| > 0 && r[|r| - 1] == Entry(id, if IndexOf(s, id) >= 0 then s[IndexOf(s, id)].key else key, value)
  {
  }

  /** Trimming to a positive size keeps the most recently used entry. */
  lemma TrimKeepsNewest<I, K, V>(s: seq<Entry<I, K, V>>, maxSize: int)
    requires Wf(s) && 1 <= maxSize && |s| > 0
    ensures var r := TrimToSize(s, maxSize).entries;
            |r| > 0 && r[|r| - 1] == s[|s| - 1]
  {
    var t := TrimToSize(s, maxSize);
    assert s == t.removed + t.entries;
  }

  /** A put changes no entry other than the one under `id`: every other
      entry it leaves was there before. */
  lemma PutKeepsOthers<I, K, V>(s: seq<Entry<I, K, V>>, id: I, key: K, value: V, maxSize: int)
    requires Wf(s)
    ensures var r := Put(s, id, key, value, maxSize).entries;
            forall e :: e in r && e.id != id ==> e in s
  {
    var stored := Stored(s, id, key, value);
    var t := TrimToSize(stored, maxSize);
    forall e | e in t.entries && e.id != id
      ensures e in s
    {
      assert e in stored by {
        assert stored == t.removed + t.entries;
      }
      var i := IndexOf(s, id);
      if i >= 0 {
        assert s == s[..i] + [s[i]] + s[i + 1..];
      }
    }
  }

  /** A put never leaves more than `maxSize` entries in a cache that held
      at most that many. */
  lemma PutIsBounded<I, K, V>(s: seq<Entry<I, K, V>>, id: I, key: K, value: V, maxSize: int)
    requires Wf(s) && 0 <= maxSize && Size(s) <= maxSize
    ensures Size(Put(s, id, key, value, maxSize).entries) <= maxSize
  {
  }

  /** Trimming a cache that is within bounds changes nothing. */
  lemma TrimWithinBoundsIsNoop<I, K, V>(s: seq<Entry<I, K, V>>, maxSize: int)
    requires Wf(s) && |s| <= maxSize
    ensures TrimToSize(s, maxSize) == Outcome(s, [])
  {
  }

  /** Trimming a cache one entry over its bound evicts exactly the least
      recently used entry. */
  lemma TrimOneOverDropsEldest<I, K, V>(s: seq<Entry<I, K, V>>, maxSize: int)
    requires Wf(s) && 0 <= maxSize && |s| == maxSize + 1
    ensures TrimToSize(s, maxSize) == Outcome(s[1..], [s[0]])
  {
  }

  /** A put into a cache of maximum size at least one that already held the
      key, or still had room, evicts nothing: the only entry handed to
      entryRemoved is the overwritten one. */
  lemma PutWithRoomEvictsNothing<I, K, V>(s: seq<Entry<I, K, V>>, id: I, key: K, value: V, maxSize: int)
    requires Wf(s) && 1 <= maxSize && Size(s) <= maxSize
    requires IndexOf(s, id) >= 0 || Size(s) < maxSize
    ensures Put(s, id, key, value, maxSize).removed == Overwritten(s, id, key)
    ensures Put(s, id, key, value, maxSize).entries == Stored(s, id, key, value)
  {
    TrimWithinBoundsIsNoop(Stored(s, id, key, value), maxSize);
  }

  /** A put of a new key into a full cache evicts exactly the least
      recently used entry. */
  lemma PutIntoFullEvictsEldest<I, K, V>(s: seq<Entry<I, K, V>>, id: I, key: K, value: V, maxSize: int)
    requires Wf(s) && 1 <= maxSize
    requires IndexOf(s, id) < 0 && Size(s) == maxSize
    ensures Put(s, id, key, value, maxSize).removed == [s[0]]
    ensures Put(s, id, key, value, maxSize).entries == s[1..] + [Entry(id, key, value)]
  {
    var stored := s + [Entry(id, key, value)];
    TrimOneOverDropsEldest(stored, maxSize);
    assert stored[1..] == s[1..] + [Entry(id, key, value)];
  }

  /** After evictAll the cache is empty and every lookup misses. */
  lemma EvictAllEmpties<I, K, V>(s: seq<Entry<I, K, V>>, id: I)
    requires Wf(s)
    ensures Size(EvictAll(s).entries) == 0
    ensures Get(EvictAll(s).entries, id) == None
  {
  }
}
