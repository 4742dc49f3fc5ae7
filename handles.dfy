/** Node handles and the bookkeeping of which copies a history cache owns.

    A handle stands for an AccessibilityNodeInfo object. `element` is the
    identity its equals compares (the window and the source node), so two
    copies of one node are equal as keys; `instance` tells apart the objects
    that copies of one node are, so that owning, handing out and releasing a
    particular copy can be tracked. */
module Handles {
  import opened Lru

  datatype Node = Node(element: nat, instance: nat)

  /** A record of when a node was focused (or nudged to). */
  datatype FocusHistory = FocusHistory(node: Node, timestamp: int)

  /** The handles entryRemoved releases for the removed entries, in call
      order: for each, the node of the key it was given, then the node of
      the old value. */
  function ReleasedBy<I, K>(keyNode: K -> Node, removed: seq<Entry<I, K, FocusHistory>>): (r: seq<Node>)
    ensures |r| == 2 * |removed|
  {
    if removed == [] then []
    else [keyNode(removed[0].key), removed[0].value.node] + ReleasedBy(keyNode, removed[1..])
  }

  /** Each removed entry releases its key's node, then its old value's node,
      before the next removed entry releases anything. */
  lemma {:induction false} ReleasedByPairs<I, K>(keyNode: K -> Node, removed: seq<Entry<I, K, FocusHistory>>, i: int)
    requires 0 <= i < |removed|
    ensures ReleasedBy(keyNode, removed)[2 * i] == keyNode(removed[i].key)
    ensures ReleasedBy(keyNode, removed)[2 * i + 1] == removed[i].value.node
  {
    if i > 0 {
      ReleasedByPairs(keyNode, removed[1..], i - 1);
    }
  }

  lemma {:induction false} ReleasedByAppend<I, K>(keyNode: K -> Node, a: seq<Entry<I, K, FocusHistory>>, b: seq<Entry<I, K, FocusHistory>>)
    ensures ReleasedBy(keyNode, a + b) == ReleasedBy(keyNode, a) + ReleasedBy(keyNode, b)
  {
    if a != [] {
      assert (a + b)[1..] == a[1..] + b;
      ReleasedByAppend(keyNode, a[1..], b);
    } else {
      assert a + b == b;
    }
  }

  /** Removing one entry releases its key's node, then its value's. */
  lemma ReleasedByOne<I, K>(keyNode: K -> Node, e: Entry<I, K, FocusHistory>)
    ensures ReleasedBy(keyNode, [e]) == [keyNode(e.key), e.value.node]
  {
    assert [e][1..] == [];
  }

  /** Removing one more entry releases its key's node, then its value's. */
  lemma ReleasedBySnoc<I, K>(keyNode: K -> Node, a: seq<Entry<I, K, FocusHistory>>, e: Entry<I, K, FocusHistory>)
    ensures ReleasedBy(keyNode, a + [e]) == ReleasedBy(keyNode, a) + [keyNode(e.key), e.value.node]
  {
    ReleasedByAppend(keyNode, a, [e]);
    assert [e][1..] == [];
  }

  /** The instance numbers of a sequence of handles, in order. */
  ghost function Instances(ns: seq<Node>): (r: seq<nat>)
    ensures |r| == |ns|
  {
    if ns == [] then [] else [ns[0].instance] + Instances(ns[1..])
  }

  lemma {:induction false} InstancesAppend(a: seq<Node>, b: seq<Node>)
    ensures Instances(a + b) == Instances(a) + Instances(b)
  {
    if a != [] {
      assert (a + b)[1..] == a[1..] + b;
      InstancesAppend(a[1..], b);
    } else {
      assert a + b == b;
    }
  }

  /** The copies a list of entries owns, with repetitions: its keys' nodes
      and its values' nodes, which are what releasing them would release. */
  ghost function Held<I, K>(keyNode: K -> Node, es: seq<Entry<I, K, FocusHistory>>): multiset<nat> {
    multiset(Instances(ReleasedBy(keyNode, es)))
  }

  /** The copies of a concatenation are those of its parts. */
  lemma HeldAppend<I, K>(keyNode: K -> Node, a: seq<Entry<I, K, FocusHistory>>, b: seq<Entry<I, K, FocusHistory>>)
    ensures Held(keyNode, a + b) == Held(keyNode, a) + Held(keyNode, b)
  {
    ReleasedByAppend(keyNode, a, b);
    InstancesAppend(ReleasedBy(keyNode, a), ReleasedBy(keyNode, b));
  }

  /** An entry owns its key's copy and its value's copy. */
  lemma HeldOne<I, K>(keyNode: K -> Node, e: Entry<I, K, FocusHistory>)
    ensures Held(keyNode, [e]) == multiset{keyNode(e.key).instance, e.value.node.instance}
  {
    assert [e][1..] == [];
    var pair := [keyNode(e.key), e.value.node];
    assert ReleasedBy(keyNode, [e]) == pair;
    assert pair[1..] == [e.value.node] && pair[1..][1..] == [];
    assert Instances(pair) == [keyNode(e.key).instance, e.value.node.instance];
  }

  /** What a cache holds plus what it has released: every copy it ever took
      ownership of, with repetitions. */
  ghost function Ledger<I, K>(keyNode: K -> Node, entries: seq<Entry<I, K, FocusHistory>>, released: seq<Node>): multiset<nat> {
    Held(keyNode, entries) + multiset(Instances(released))
  }

  /** No copy is counted twice, and every copy is numbered below `bound`. */
  ghost predicate UniqueBelow(bag: multiset<nat>, bound: nat) {
    forall n :: n in bag ==> bag[n] == 1 && n < bound
  }

  // ---------------------------------------------------------------------------
  // How the cache operations move copies

  /** A get only reorders entries, so the cache owns the same copies. */
  lemma GetKeepsLedger<I, K>(keyNode: K -> Node, s: seq<Entry<I, K, FocusHistory>>, id: I, released: seq<Node>)
    requires Wf(s)
    ensures Ledger(keyNode, AfterGet(s, id), released) == Ledger(keyNode, s, released)
  {
    var i := IndexOf(s, id);
    if i >= 0 {
      assert s == s[..i] + ([s[i]] + s[i + 1..]);
      HeldAppend(keyNode, s[..i], [s[i]] + s[i + 1..]);
      HeldAppend(keyNode, [s[i]], s[i + 1..]);
      HeldAppend(keyNode, s[..i] + s[i + 1..], [s[i]]);
      HeldAppend(keyNode, s[..i], s[i + 1..]);
    }
  }

  /** Trimming hands every copy it stops owning to entryRemoved, and the
      released handles join the log. */
  lemma TrimKeepsLedger<I, K>(keyNode: K -> Node, s: seq<Entry<I, K, FocusHistory>>, limit: int, released: seq<Node>)
    requires Wf(s)
    ensures var r := TrimToSize(s, limit);
            Ledger(keyNode, r.entries, released + ReleasedBy(keyNode, r.removed)) == Ledger(keyNode, s, released)
  {
    var r := TrimToSize(s, limit);
    HeldAppend(keyNode, r.removed, r.entries);
    InstancesAppend(released, ReleasedBy(keyNode, r.removed));
  }

  /** Storing before the trim: the cache gains the two copies it was given
      (the argument key and the value) and, for a value it replaces, keeps
      its old key and releases the argument key and the old value. */
  lemma StoreTakesCopies<I, K>(keyNode: K -> Node, s: seq<Entry<I, K, FocusHistory>>, id: I, key: K, value: FocusHistory)
    requires Wf(s)
    ensures Held(keyNode, Stored(s, id, key, value)) + Held(keyNode, Overwritten(s, id, key))
            == Held(keyNode, s) + multiset{keyNode(key).instance, value.node.instance}
  {
    var i := IndexOf(s, id);
    if i < 0 {
      HeldAppend(keyNode, s, [Entry(id, key, value)]);
      HeldOne(keyNode, Entry(id, key, value));
    } else {
      var e := Entry(id, s[i].key, value);
      var gone := Entry(id, key, s[i].value);
      assert s == s[..i] + ([s[i]] + s[i + 1..]);
      HeldAppend(keyNode, s[..i], [s[i]] + s[i + 1..]);
      HeldAppend(keyNode, [s[i]], s[i + 1..]);
      HeldAppend(keyNode, s[..i] + s[i + 1..], [e]);
      HeldAppend(keyNode, s[..i], s[i + 1..]);
      HeldOne(keyNode, s[i]);
      HeldOne(keyNode, e);
      HeldOne(keyNode, gone);
    }
  }

  /** A put takes ownership of the two copies it was given and hands every
      copy it stops owning to entryRemoved, whose releases join the log. */
  lemma PutGrowsLedger<I, K>(keyNode: K -> Node, s: seq<Entry<I, K, FocusHistory>>, id: I, key: K, value: FocusHistory,
                             maxSize: int, released: seq<Node>)
    requires Wf(s)
    ensures var r := Put(s, id, key, value, maxSize);
            Ledger(keyNode, r.entries, released + ReleasedBy(keyNode, r.removed))
            == Ledger(keyNode, s, released) + multiset{keyNode(key).instance, value.node.instance}
  {
    var stored := Stored(s, id, key, value);
    var before := released + ReleasedBy(keyNode, Overwritten(s, id, key));
    PutReleasesInOrder(keyNode, s, id, key, value, maxSize, released);
    TrimKeepsLedger(keyNode, stored, maxSize, before);
    StoreGrowsLedger(keyNode, s, id, key, value, released);
  }

  /** A put releases the overwritten entry's handles before those of the
      entries the trim evicts. */
  lemma PutReleasesInOrder<I, K>(keyNode: K -> Node, s: seq<Entry<I, K, FocusHistory>>, id: I, key: K, value: FocusHistory,
                                 maxSize: int, released: seq<Node>)
    requires Wf(s)
    ensures var r := Put(s, id, key, value, maxSize);
            var trimmed := TrimToSize(Stored(s, id, key, value), maxSize);
            r.entries == trimmed.entries
            && released + ReleasedBy(keyNode, r.removed)
               == (released + ReleasedBy(keyNode, Overwritten(s, id, key))) + ReleasedBy(keyNode, trimmed.removed)
  {
    var trimmed := TrimToSize(Stored(s, id, key, value), maxSize);
    ReleasedByAppend(keyNode, Overwritten(s, id, key), trimmed.removed);
  }

  /** Storing, with the overwritten entry's handles released, adds the two
      given copies to the ledger. */
  lemma StoreGrowsLedger<I, K>(keyNode: K -> Node, s: seq<Entry<I, K, FocusHistory>>, id: I, key: K, value: FocusHistory,
                               released: seq<Node>)
    requires Wf(s)
    ensures Ledger(keyNode, Stored(s, id, key, value), released + ReleasedBy(keyNode, Overwritten(s, id, key)))
            == Ledger(keyNode, s, released) + multiset{keyNode(key).instance, value.node.instance}
  {
    var gone := ReleasedBy(keyNode, Overwritten(s, id, key));
    InstancesAppend(released, gone);
    assert multiset(Instances(released + gone)) == multiset(Instances(released)) + multiset(Instances(gone));
    StoreTakesCopies(keyNode, s, id, key, value);
    Reshuffle(Held(keyNode, Stored(s, id, key, value)), Held(keyNode, Overwritten(s, id, key)),
              multiset(Instances(released)), Held(keyNode, s) + multiset{keyNode(key).instance, value.node.instance});
  }

  /** The bag algebra behind StoreGrowsLedger. */
  lemma Reshuffle(held: multiset<nat>, gone: multiset<nat>, log: multiset<nat>, total: multiset<nat>)
    requires held + gone == total
    ensures held + (log + gone) == total + log
  {
  }

  /** One cache takes ownership of two new copies, numbered `bound` and
      `bound + 1`, while the other keeps its copies: if every copy was
      counted once and numbered below `bound`, every copy still is, below
      `bound + 2`. */
  lemma UniqueBelowStep(changed: multiset<nat>, kept: multiset<nat>, changed': multiset<nat>, bound: nat)
    requires UniqueBelow(changed + kept, bound) || UniqueBelow(kept + changed, bound)
    requires changed' == changed + multiset{bound, bound + 1}
    ensures UniqueBelow(changed' + kept, bound + 2) && UniqueBelow(kept + changed', bound + 2)
  {
    assert changed + kept == kept + changed;
    assert bound !in changed + kept && bound + 1 !in changed + kept;
    assert changed' + kept == (changed + kept) + multiset{bound, bound + 1};
    assert kept + changed' == changed' + kept;
  }

  /** Making a copy that no cache takes keeps every copy counted once. */
  lemma UniqueBelowRaise(bag: multiset<nat>, bound: nat, bound': nat)
    requires UniqueBelow(bag, bound) && bound <= bound'
    ensures UniqueBelow(bag, bound')
  {
  }
}
