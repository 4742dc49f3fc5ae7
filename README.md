# Rotary focus geometry and focus history caches

This project models two parts of the rotary controller service of Android
Automotive, which moves focus between views with a rotary knob and nudges.

- `FocusFinder` decides where a nudge goes. Given a direction and the
  rectangle of the focused view, it decides whether another rectangle is a
  candidate and which of two candidates is better. The ranking has three
  stages. First comes the beam: a rectangle that overlaps the source's
  beam beats one that does not, except that for up and down the beam
  preference is capped by distance. Then comes a weighted distance
  `13 * major^2 + minor^2`.
- `RotaryCache` remembers two things in LRU caches. The first is the last
  focused node of each focus area. The second is the way back after a
  nudge: saving a nudge from A to B in direction d stores the key
  (B, opposite of d) with the value A. Each cache is disabled, has entries
  that expire, or has entries that never expire. Expiry is checked only
  when an entry is read, so a stale entry is reported as absent but stays
  in the cache. The caches hold their own copies of nodes. Every entry the
  LRU cache evicts or clears recycles its key's node and its value's node.
  An overwrite is different: the map keeps its old key object, and
  `entryRemoved` is handed the key passed to `put`. So the new copy of the
  key is recycled with the old value's node, and the old key copy stays
  in the cache.

Modules:

- `Directions`: the four nudge directions.
- `FocusFinder` and `FocusFinderLemmas`: the geometry as total functions
  over a `Rect` of four integers, and what is proved about them.
- `Lru`: the sequential contract of the platform LRU cache. The cache is an
  access-ordered `LinkedHashMap`. It is modelled as its list of entries,
  least recently used first, with distinct identities. `get` moves a hit to
  the end. `put` under a new key appends the entry. Under a key already
  present it takes that entry out and appends it at the most recent end
  with the new value, keeping the old key object. Either way it then trims. Trimming drops
  the eldest entries while the size exceeds the maximum. `evictAll` trims
  to -1. `Put`, `TrimToSize` and `EvictAll` also return the entries they
  removed, in the order in which `entryRemoved` sees them.
- `Handles`: nodes as opaque handles. `Node(element, instance)` names the
  view a node is for and which copy of it this is. The module defines the
  nodes that a run of `entryRemoved` calls recycles, and a ledger of the
  copies a cache holds or has recycled.
- `Rotary`: the two history caches as a class `HistoryCache`, whose fields
  the LRU operations update, and `RotaryCache` as a class over two of them.
  `copyNode` hands out a fresh copy number. Each cache logs its recycled
  nodes in a ghost sequence.
- `RotaryLemmas`: properties of the cache that span several operations.
- `RotaryClient`: calls on a `RotaryCache` object: a save followed by a
  get, and, for each method that changes the cache, that it keeps the
  copies the caches own distinct.

The clock is a parameter (`elapsedRealtime`). Directions are a
four-constructor datatype. Java's truncating `/ 2` in `minorAxisDistance`
is written out (`HalfTowardZero`), so no rectangle needs to be
well-formed for the distances to agree with the source.

## Model

| member | source | states |
|---|---|---|
| FocusFinder.HalfTowardZero | src/com/android/car/rotary/FocusFinder.java:168-174 | Java's `x / 2`: twice the result is within 1 of `x` and lies between 0 and `x` |
| FocusFinder.IsBetterCandidate | src/com/android/car/rotary/FocusFinder.java:124-152 | a better candidate is a candidate, and a candidate beats every non-candidate |
| FocusFinder.WeightedDistanceFor | src/com/android/car/rotary/FocusFinder.java:154-157 | the weighted distance is at least 13 times the squared major distance and at least the squared minor distance |
| FocusFinder.MinorAxisDistance | src/com/android/car/rotary/FocusFinder.java:163-178 | the distance between the centre lines across the direction is non-negative, and 0 exactly when those centre lines coincide |
| FocusFinder.BeamBeats | src/com/android/car/rotary/FocusFinder.java:185-212 | a beam win needs rect1 in the source's beam and rect2 out of it |
| FocusFinder.BeamsOverlap | src/com/android/car/rotary/FocusFinder.java:219-230 | beams overlap exactly when the rectangles overlap on the axis across the direction |
| FocusFinder.MajorAxisDistance | src/com/android/car/rotary/FocusFinder.java:256-258 | the near-edge distance is never negative, and is the raw gap when that is positive, else 0 |
| FocusFinder.MajorAxisDistanceRaw | src/com/android/car/rotary/FocusFinder.java:260-273 | the raw near-edge gap is non-negative exactly when the destination lies wholly in the direction |
| FocusFinder.MajorAxisDistanceToFarEdge | src/com/android/car/rotary/FocusFinder.java:281-283 | the far-edge distance is at least 1, and is the raw far-edge gap when that is larger, else 1 |
| FocusFinder.MajorAxisDistanceToFarEdgeRaw | src/com/android/car/rotary/FocusFinder.java:285-298 | the raw far-edge gap is the raw near-edge gap plus the destination's extent along the direction |
| FocusFinder.IsPartiallyInDirection | src/com/android/car/rotary/FocusFinder.java:45-58 | part of the destination is in the direction exactly when it does not lie wholly in the opposite direction |
| FocusFinder.IsCandidate | src/com/android/car/rotary/FocusFinder.java:84-111 | a candidate's far edge is strictly beyond the source's leading edge, and a rectangle of positive extent wholly in the direction is a candidate |
| FocusFinder.IsToDirectionOf | src/com/android/car/rotary/FocusFinder.java:235-248 | a rectangle wholly in the direction does not overlap the source along the direction of travel |
| FocusFinder.OverlapOnYAxis | src/com/android/car/rotary/FocusFinder.java:304-306 | for rectangles of positive height, the projections overlap exactly when the lower top is above the higher bottom |
| FocusFinder.OverlapOnXAxis | src/com/android/car/rotary/FocusFinder.java:312-314 | for rectangles of positive width, the projections overlap exactly when the rightmost left edge is left of the leftmost right edge |
| FocusFinderLemmas.NeverCandidateOfItself | src/com/android/car/rotary/FocusFinder.java:84-111 | no rectangle is a candidate from itself in any direction |
| FocusFinderLemmas.CandidateIsPartiallyInDirection | src/com/android/car/rotary/FocusFinder.java:45-58 | for a well-formed source, every candidate lies at least partly in the direction of the source |
| FocusFinderLemmas.CandidateMirrors | src/com/android/car/rotary/FocusFinder.java:84-111 | mirroring the plane swaps the candidate test for left and right, and for up and down |
| FocusFinderLemmas.MajorAxisDistanceIsClampedGap | src/com/android/car/rotary/FocusFinder.java:256-273 | the major distance is the raw gap when that is positive and 0 otherwise |
| FocusFinderLemmas.FarEdgeNotCloserThanNearEdge | src/com/android/car/rotary/FocusFinder.java:281-298 | for a well-formed destination the far-edge distance is at least the near-edge distance |
| FocusFinderLemmas.MinorAxisDistanceSymmetric | src/com/android/car/rotary/FocusFinder.java:163-178 | the minor distance does not depend on which rectangle is the source |
| FocusFinderLemmas.WeightedDistanceMonotone | src/com/android/car/rotary/FocusFinder.java:154-157 | non-negative distances no larger on both axes and smaller on one give a strictly smaller weighted distance |
| FocusFinderLemmas.BeamsOverlapSymmetric | src/com/android/car/rotary/FocusFinder.java:219-230 | beam overlap is symmetric |
| FocusFinderLemmas.BeamBeatsAsymmetric | src/com/android/car/rotary/FocusFinder.java:185-191 | beamBeats(a, b) and beamBeats(b, a) never both hold |
| FocusFinderLemmas.HorizontalBeamBeats | src/com/android/car/rotary/FocusFinder.java:198-205 | for left and right a beam win is exactly "a in the beam and b out of it" |
| FocusFinderLemmas.VerticalBeamBeatsIsCapped | src/com/android/car/rotary/FocusFinder.java:207-211 | for up and down, with a in the beam, b out of it and b wholly ahead, a wins exactly when its near distance is below b's far distance |
| FocusFinderLemmas.InBeamBeatsOffToTheSide | src/com/android/car/rotary/FocusFinder.java:198-204 | a rectangle in the beam beats one out of the beam that is not wholly in the direction, for every direction |
| FocusFinderLemmas.BetterCandidateDecisionOrder | src/com/android/car/rotary/FocusFinder.java:124-152 | the comparator decides by candidacy, then beam in both orders, then the weighted distance, in that order |
| FocusFinderLemmas.BetterCandidateIrreflexive | src/com/android/car/rotary/FocusFinder.java:124-152 | no rectangle is better than itself |
| FocusFinderLemmas.BetterCandidateAsymmetric | src/com/android/car/rotary/FocusFinder.java:124-152 | two rectangles are never each better than the other |
| FocusFinderLemmas.EqualMajorSmallerMinorWins | src/com/android/car/rotary/FocusFinder.java:146-157 | with no beam win and equal major distances, the smaller minor distance wins, and only it |
| FocusFinderLemmas.NearerOnBothAxesWins | src/com/android/car/rotary/FocusFinder.java:146-157 | with no beam win, a candidate strictly nearer on one axis and no farther on the other wins |
| FocusFinderLemmas.BeamBeatsMirrors | src/com/android/car/rotary/FocusFinder.java:185-212 | the beam comparison is the same for left as for right in the mirrored plane, and for up as for down |
| FocusFinderLemmas.DistancesMirror | src/com/android/car/rotary/FocusFinder.java:256-298 | the major and minor distances are unchanged by mirroring the plane and the direction |
| FocusFinderLemmas.BetterCandidateMirrors | src/com/android/car/rotary/FocusFinder.java:124-152 | the comparator is symmetric under mirroring the plane and the direction |
| FocusFinderLemmas.StraddlingLeftEdgeIsCandidate | src/com/android/car/rotary/FocusFinder.java:86-91 | a rectangle reaching past the source's left edge is a left candidate, even though it overlaps the source |
| FocusFinderLemmas.ZeroExtentInsideOverlaps | src/com/android/car/rotary/FocusFinder.java:300-314 | a rectangle of zero height (width) strictly inside another's vertical (horizontal) span is reported as overlapping it, although the overlap length is zero |
| FocusFinderLemmas.AlignedBeatsShifted | src/com/android/car/rotary/FocusFinder.java:140-157 | going down from (0, 0, 10, 10), (0, 20, 10, 30) is a better candidate than (5, 20, 15, 30), and not the other way round |
| FocusFinderLemmas.VerticalBeamPreferenceIsCapped | src/com/android/car/rotary/FocusFinder.java:207-211 | going down, a far in-beam rectangle does not beam-beat a near one beside the beam |
| FocusFinderLemmas.HorizontalBeamPreferenceIsNotCapped | src/com/android/car/rotary/FocusFinder.java:198-205 | going left, a far in-beam rectangle is a better candidate than a near one beside the beam and wholly ahead, because for left and right the beam preference is not capped |
| Lru.Get | src/com/android/car/rotary/RotaryCache.java:231 | get misses exactly when no entry is under the identity, and a hit returns the value of an entry under it |
| Lru.IndexOf | src/com/android/car/rotary/RotaryCache.java:231 | the position of the entry under an identity, or -1 exactly when there is none |
| Lru.AfterGet | src/com/android/car/rotary/RotaryCache.java:231 | a get keeps the entries' identities distinct |
| Lru.TrimToSize | src/com/android/car/rotary/RotaryCache.java:126 | trimming removes a prefix of the eldest entries and leaves min(size, max) of them, none for a negative max |
| Lru.Stored | src/com/android/car/rotary/RotaryCache.java:246-247 | storing keeps the entries' identities distinct |
| Lru.Put | src/com/android/car/rotary/RotaryCache.java:246-247 | a put keeps the entries' identities distinct |
| Lru.EvictAll | src/com/android/car/rotary/RotaryCache.java:285 | evictAll leaves nothing and removes every entry in order |
| Lru.GetPromotes | src/com/android/car/rotary/RotaryCache.java:231 | a hit returns the entry's value and moves it to the most recent end |
| Lru.GetKeepsEntries | src/com/android/car/rotary/RotaryCache.java:231 | a get only reorders the entries |
| Lru.MissChangesNothing | src/com/android/car/rotary/RotaryCache.java:231 | a miss returns nothing and changes nothing |
| Lru.PutStoresValue | src/com/android/car/rotary/RotaryCache.java:246-247 | after a put into a cache of size at least 1, the value is the most recent entry and get finds it; an overwrite keeps the old key |
| Lru.PutKeepsOthers | src/com/android/car/rotary/RotaryCache.java:246-247 | every entry under another identity after a put was there before |
| Lru.PutIsBounded | src/com/android/car/rotary/RotaryCache.java:125-126 | a put never leaves more entries than the maximum size |
| Lru.TrimWithinBoundsIsNoop | src/com/android/car/rotary/RotaryCache.java:126 | trimming a cache within its bound removes nothing |
| Lru.TrimOneOverDropsEldest | src/com/android/car/rotary/RotaryCache.java:126 | trimming one entry over the bound removes exactly the eldest |
| Lru.PutWithRoomEvictsNothing | src/com/android/car/rotary/RotaryCache.java:246-247 | a put with room, or an overwrite, removes only the overwritten entry |
| Lru.PutIntoFullEvictsEldest | src/com/android/car/rotary/RotaryCache.java:246-247 | a put of a new key into a full cache evicts exactly the eldest entry |
| Lru.EvictAllEmpties | src/com/android/car/rotary/RotaryCache.java:283-292 | after evictAll the size is 0 and every get misses |
| Handles.ReleasedBy | src/com/android/car/rotary/RotaryCache.java:154-159 | removing n entries recycles 2n nodes |
| Handles.ReleasedByPairs | src/com/android/car/rotary/RotaryCache.java:154-159 | the i-th removed entry recycles its key's node, then its value's node |
| Handles.ReleasedByAppend | src/com/android/car/rotary/RotaryCache.java:203-208 | the nodes recycled by two runs of removals are those of each run in order |
| Handles.InstancesAppend | src/com/android/car/rotary/RotaryCache.java:317-319 | copy numbers of a concatenation are the concatenation of copy numbers |
| Handles.GetKeepsLedger | src/com/android/car/rotary/RotaryCache.java:231 | a get neither takes nor recycles a copy |
| Handles.TrimKeepsLedger | src/com/android/car/rotary/RotaryCache.java:154-159 | every copy an eviction takes out of the cache is recycled, and nothing else is |
| Handles.StoreTakesCopies | src/com/android/car/rotary/RotaryCache.java:246-247 | the copies held after storing, plus those of the overwritten entry, are those held before plus the new key and value copies |
| Handles.PutReleasesInOrder | src/com/android/car/rotary/RotaryCache.java:246-247 | a put recycles the overwritten entry's nodes before those of the entries its trim evicts |
| Handles.StoreGrowsLedger | src/com/android/car/rotary/RotaryCache.java:246-247 | storing, with the overwritten entry recycled, adds exactly the two new copies to the copies held or recycled |
| Handles.PutGrowsLedger | src/com/android/car/rotary/RotaryCache.java:243-249 | a put adds exactly the two new copies to the copies held or recycled |
| Handles.UniqueBelowStep | src/com/android/car/rotary/RotaryCache.java:243-249 | when one cache gains the next two fresh copy numbers and the other keeps its copies, the copies stay distinct and below the raised counter, in either order of the two ledgers |
| Handles.UniqueBelowRaise | src/com/android/car/rotary/RotaryCache.java:317-319 | copies numbered below a bound stay so when more copies are made |
| Rotary.CheckConfig | src/com/android/car/rotary/RotaryCache.java:125-133 | construction fails for a non-positive size, then for an expiring type with a non-positive expiration time, and succeeds otherwise |
| Directions.Opposite | src/com/android/car/rotary/RotaryCache.java:296-309 | the opposite direction is never the direction itself and lies on the same axis |
| Rotary.CachePolicy.Enabled | src/com/android/car/rotary/RotaryCache.java:136-138 | a disabled cache accepts no entry at any time |
| Rotary.CachePolicy.IsValidFocusHistory | src/com/android/car/rotary/RotaryCache.java:140-152 | only a present entry of an enabled cache is valid; under NeverExpire every present one is; under ExpiredAfterSomeTime exactly those younger than the expiration time |
| Rotary.FocusAreaHistory.Equals | src/com/android/car/rotary/RotaryCache.java:97-108 | two focus area keys are equal exactly when they have the same cache identity (element of the source focus area, direction) |
| Rotary.Lookup | src/com/android/car/rotary/RotaryCache.java:228-237 | a lookup finds a node exactly when the entry get returns is valid, the node is that of an entry under the identity, and a disabled cache finds nothing |
| Rotary.SaveThenLookup | src/com/android/car/rotary/RotaryCache.java:228-249 | a save followed by a get at the same time on an enabled cache finds the saved node |
| Rotary.HistoryCache.constructor | src/com/android/car/rotary/RotaryCache.java:125-134 | a new cache is empty, has recycled nothing and keeps its size and policy |
| Rotary.HistoryCache.EntryRemoved | src/com/android/car/rotary/RotaryCache.java:154-159 | recycles the key's node, then the old value's node |
| Rotary.HistoryCache.Get | src/com/android/car/rotary/RotaryCache.java:231 | returns the platform get's result, promotes the entry and keeps the copies held or recycled |
| Rotary.HistoryCache.TrimToSize | src/com/android/car/rotary/RotaryCache.java:154-159 | evicts the platform trim's prefix in order, calling entryRemoved on each |
| Rotary.HistoryCache.Store | src/com/android/car/rotary/RotaryCache.java:246-247 | stores the entry and calls entryRemoved on an overwritten one with the argument key |
| Rotary.HistoryCache.Put | src/com/android/car/rotary/RotaryCache.java:246-247 | leaves the platform put's entries, recycles the overwritten and evicted entries in order, and adds the two new copies to the ledger |
| Rotary.HistoryCache.EvictAll | src/com/android/car/rotary/RotaryCache.java:285 | empties the cache, recycles every entry in order and keeps the ledger |
| Rotary.RotaryCache.constructor | src/com/android/car/rotary/RotaryCache.java:211-221 | builds both caches empty, with their sizes and policies, owning distinct copies |
| Rotary.NewRotaryCache | src/com/android/car/rotary/RotaryCache.java:211-221 | the first failing cache configuration is the error; success builds two empty caches with the given sizes, types and expiration times, owning distinct copies |
| Rotary.RotaryCache.CopyNode | src/com/android/car/rotary/RotaryCache.java:317-319 | a copy is for the same element and has a fresh copy number |
| Rotary.RotaryCache.GetFocusedNode | src/com/android/car/rotary/RotaryCache.java:228-237 | returns a fresh copy of the valid entry's node, or nothing when disabled, missing or stale; promotes the entry when enabled |
| Rotary.RotaryCache.SaveFocusedNode | src/com/android/car/rotary/RotaryCache.java:243-249 | when disabled changes nothing; otherwise puts fresh copies of the focus area and node, the ledger grows by exactly those copies, and a lookup of the focus area at the same time finds the node's copy |
| Rotary.RotaryCache.GetTargetFocusArea | src/com/android/car/rotary/RotaryCache.java:256-266 | as getFocusedNode, keyed by source focus area and direction |
| Rotary.RotaryCache.SaveTargetFocusArea | src/com/android/car/rotary/RotaryCache.java:272-280 | when disabled changes nothing; otherwise puts (copy of target, opposite direction) to a copy of the source, and a lookup of (target, opposite direction) at the same time finds the source's copy |
| Rotary.RotaryCache.ClearFocusAreaHistory | src/com/android/car/rotary/RotaryCache.java:283-287 | when disabled changes nothing; otherwise evicts every entry, recycling its nodes |
| Rotary.RotaryCache.IsFocusAreaHistoryCacheEmpty | src/com/android/car/rotary/RotaryCache.java:289-292 | the cache is empty exactly when every get misses |
| RotaryLemmas.OppositeIsInvolution | src/com/android/car/rotary/RotaryCache.java:296-309 | the opposite of the opposite is the direction itself |
| RotaryLemmas.StaleEntryIsKept | src/com/android/car/rotary/RotaryCache.java:140-152 | a stale entry is reported as absent, yet the get keeps it and moves it to the most recent end |
| RotaryLemmas.ExpiryExample | src/com/android/car/rotary/RotaryCache.java:189-201 | with a 100 ms expiration, an entry saved at 0 is found at 50 and not at 150 |
| RotaryLemmas.EvictAllForgets | src/com/android/car/rotary/RotaryCache.java:283-292 | after a clear every lookup misses |
| RotaryLemmas.NudgeBackFindsSource | src/com/android/car/rotary/RotaryCache.java:272-280 | after saving a nudge, a lookup of (target, opposite direction) finds the source, and no entry under (target, direction) or (source, direction) is new |
| RotaryClient.SaveThenGetFocusedNode | src/com/android/car/rotary/RotaryCache.java:228-249 | saveFocusedNode then getFocusedNode at the same time, on an enabled cache object, returns a fresh copy of the saved node |
| RotaryClient.NudgeThenNudgeBack | src/com/android/car/rotary/RotaryCache.java:256-280 | saveTargetFocusArea then getTargetFocusArea from the target in the opposite direction, on an enabled cache object, returns a fresh copy of the source |
| RotaryClient.FocusHistoryGrowthKeepsCopiesDistinct | src/com/android/car/rotary/RotaryCache.java:243-249 | when the focus history cache has gained the copies `n` and `n + 1`, the other cache is unchanged and the counter is `n + 2`, the cache object owns distinct copies |
| RotaryClient.FocusAreaHistoryGrowthKeepsCopiesDistinct | src/com/android/car/rotary/RotaryCache.java:272-280 | the same, with the focus area history cache gaining the two copies |
| RotaryClient.SaveFocusedNodeKeepsCopiesDistinct | src/com/android/car/rotary/RotaryCache.java:243-249 | saveFocusedNode on a cache object that owns distinct copies leaves it valid and owning distinct copies |
| RotaryClient.SaveTargetFocusAreaKeepsCopiesDistinct | src/com/android/car/rotary/RotaryCache.java:272-280 | saveTargetFocusArea keeps the cache object valid and its copies distinct |
| RotaryClient.GetFocusedNodeKeepsCopiesDistinct | src/com/android/car/rotary/RotaryCache.java:228-237 | getFocusedNode keeps the cache object valid and its copies distinct: the copy it hands out is numbered past every copy the caches own |
| RotaryClient.GetTargetFocusAreaKeepsCopiesDistinct | src/com/android/car/rotary/RotaryCache.java:256-266 | getTargetFocusArea keeps the cache object valid and its copies distinct |
| RotaryClient.ClearFocusAreaHistoryKeepsCopiesDistinct | src/com/android/car/rotary/RotaryCache.java:283-287 | clearFocusAreaHistory keeps the cache object valid and its copies distinct |

## Left out

- `L.java` (logging) and the Robolectric `NodeBuilderTest` are not part of this model: they hold no behaviour of the two cores.
- `Utils.copyNode`, `Utils.recycleNode` and the swappable `sUtils` are foreign calls. A copy is a fresh `Node` numbered by the cache, and a recycle is an entry in a ghost log.
- `SystemClock`: the time is a parameter.
- `android.util.LruCache` is not part of this model's sources. Its sequential contract is modelled from the platform class. Its locking, hit and miss statistics, `create`, `sizeOf` (always 1 here) and the size-consistency exception are not modelled.
- The platform cache is a map plus a recency order. It is modelled as one recency-ordered list of entries with distinct identities, which carries both.
- The `IllegalArgumentException` for a direction integer that is not one of the four is unreachable: directions are a datatype. For the same reason, an unknown cache type integer is not modelled. `isValidFocusHistory` still rejects everything under the one remaining type, `Disabled`.
- Null nodes are not modelled. A get that misses returns `None`, and `FocusHistory.node` is never null.
- Java `int` and `long` overflow is not modelled: integers are unbounded. The weighted distance widens to `long` in the source, and edge differences of realistic screens stay well inside `int`.
- `hashCode` is not modelled. Cache keys are compared by their identity, which is what `equals` compares.
- Rotary.RotaryCache.Valid: states that the caches key their entries by the `equals` identity of the node or of (node, direction). It does not state that each stored entry's identity is the identity of its key object.
- Rotary.RotaryCache.DistinctCopies: that the caches own distinct copies is not a class invariant of every method. Each method instead states how it changes the two ledgers, and the `RotaryClient` methods `SaveFocusedNodeKeepsCopiesDistinct`, `SaveTargetFocusAreaKeepsCopiesDistinct`, `GetFocusedNodeKeepsCopiesDistinct`, `GetTargetFocusAreaKeepsCopiesDistinct` and `ClearFocusAreaHistoryKeepsCopiesDistinct` prove, call by call, that each method keeps the copies distinct.
- FocusFinder.OverlapOnYAxis: the overlap characterisation is stated only for rectangles of positive height. The code at `FocusFinder.java:304-306` reports an overlap for a zero-height rectangle strictly inside the other's vertical span, although its documentation asks for an overlap length above zero; the model keeps the code's test, and `ZeroExtentInsideOverlaps` exhibits the case.
- FocusFinder.OverlapOnXAxis: the same for rectangles of positive width and a zero-width rectangle strictly inside the other's horizontal span (`FocusFinder.java:312-314`).
- A node that the caller passes in and a node the cache hands out are not tracked after the call: recycling the result is the caller's duty.
