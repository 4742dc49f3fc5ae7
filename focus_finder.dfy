/** The geometry that picks the next view to focus in a direction: whether a
    rectangle qualifies as a candidate, and which of two candidates is better.
    Every member is a pure function of a direction and the integer edges of
    two or three rectangles. */
module FocusFinder {
  import opened Directions

  /** How much the major axis outweighs the minor axis in WeightedDistanceFor. */
  const MajorAxisBias: int := 13

  /** An android.graphics.Rect: screen coordinates, Y growing downwards. */
  datatype Rect = Rect(left: int, top: int, right: int, bottom: int) {

    function Width(): int { right - left }

    function Height(): int { bottom - top }

    /** A rectangle whose edges are not crossed; it may be empty (a point). */
    predicate Valid() { left <= right && top <= bottom }
  }

  /** Java's int division by two, which truncates toward zero (Dafny's `/`
      rounds toward negative infinity for negative operands). */
  function HalfTowardZero(x: int): (r: int)
    ensures -1 <= x - 2 * r <= 1
    ensures x >= 0 ==> 0 <= r && 2 * r <= x
    ensures x <= 0 ==> r <= 0 && x <= 2 * r
  {
    if x >= 0 then x / 2 else -((-x) / 2)
  }

  /** The horizontal center used by minorAxisDistance: left + width / 2. */
  function CenterX(r: Rect): int { r.left + HalfTowardZero(r.Width()) }

  /** The vertical center used by minorAxisDistance: top + height / 2. */
  function CenterY(r: Rect): int { r.top + HalfTowardZero(r.Height()) }

  /** Whether part of `dest` lies in `direction` of part of `src`. */
  predicate IsPartiallyInDirection(src: Rect, dest: Rect, direction: Direction)
    ensures IsPartiallyInDirection(src, dest, direction) <==> !IsToDirectionOf(Opposite(direction), src, dest)
  {
    match direction
    case Left => dest.left < src.right
    case Right => dest.right > src.left
    case Up => dest.top < src.bottom
    case Down => dest.bottom > src.top
  }

  /** Whether `dest` is a candidate for the next focus from `src` in
      `direction`: its near edge is strictly beyond src's near edge, and its
      far edge is beyond src's far edge, or level with it while the two
      overlap on the other axis, or beyond src's near edge (an empty src). */
  predicate IsCandidate(src: Rect, dest: Rect, direction: Direction)
    ensures IsCandidate(src, dest, direction) ==> MajorAxisDistanceToFarEdgeRaw(direction, src, dest) > 0
    ensures IsToDirectionOf(direction, src, dest)
            && (if direction.IsHorizontal() then dest.Width() > 0 else dest.Height() > 0)
            ==> IsCandidate(src, dest, direction)
  {
    match direction
    case Left =>
      src.left > dest.left
      && (src.right > dest.right
          || (src.right == dest.right && OverlapOnYAxis(src, dest))
          || src.left >= dest.right)
    case Right =>
      src.right < dest.right
      && (src.left < dest.left
          || (src.left == dest.left && OverlapOnYAxis(src, dest))
          || src.right <= dest.left)
    case Up =>
      src.top > dest.top
      && (src.bottom > dest.bottom
          || (src.bottom == dest.bottom && OverlapOnXAxis(src, dest))
          || src.top >= dest.bottom)
    case Down =>
      src.bottom < dest.bottom
      && (src.top < dest.top
          || (src.top == dest.top && OverlapOnXAxis(src, dest))
          || src.bottom <= dest.top)
  }

  /** Whether `rect1` is a better candidate than the current best `rect2`
      for a search from `source` in `direction`: candidacy first, then beam
      preference either way, then the smaller weighted distance. */
  predicate IsBetterCandidate(direction: Direction, source: Rect, rect1: Rect, rect2: Rect)
    ensures IsBetterCandidate(direction, source, rect1, rect2) ==> IsCandidate(source, rect1, direction)
    ensures IsCandidate(source, rect1, direction) && !IsCandidate(source, rect2, direction)
            ==> IsBetterCandidate(direction, source, rect1, rect2)
  {
    if !IsCandidate(source, rect1, direction) then false
    else if !IsCandidate(source, rect2, direction) then true
    else if BeamBeats(direction, source, rect1, rect2) then true
    else if BeamBeats(direction, source, rect2, rect1) then false
    else
      WeightedDistanceFor(MajorAxisDistance(direction, source, rect1),
                          MinorAxisDistance(direction, source, rect1))
      < WeightedDistanceFor(MajorAxisDistance(direction, source, rect2),
                            MinorAxisDistance(direction, source, rect2))
  }

  /** The distance that ranks candidates neither of which wins by beam; the
      source widens to long here, so the squares cannot overflow there. */
  function WeightedDistanceFor(majorAxisDistance: int, minorAxisDistance: int): (r: int)
    ensures r >= MajorAxisBias * majorAxisDistance * majorAxisDistance
    ensures r >= minorAxisDistance * minorAxisDistance
  {
    MajorAxisBias * majorAxisDistance * majorAxisDistance
    + minorAxisDistance * minorAxisDistance
  }

  /** The distance between the centers of `source` and `dest` across the
      direction of travel (vertical centers for left and right, horizontal
      centers for up and down). */
  function MinorAxisDistance(direction: Direction, source: Rect, dest: Rect): (r: int)
    ensures r >= 0
    ensures r == 0 <==> if direction.IsHorizontal() then CenterY(source) == CenterY(dest)
                        else CenterX(source) == CenterX(dest)
  {
    var delta := if direction.IsHorizontal() then CenterY(source) - CenterY(dest)
                 else CenterX(source) - CenterX(dest);
    if delta < 0 then -delta else delta
  }

  /** Whether `rect1` beats `rect2` by being in the beam of `source`: rect1
      must overlap the beam and rect2 must not; for up and down the
      preference is capped when rect2 lies wholly in the direction and its
      far edge is no farther than rect1's near edge. */
  predicate BeamBeats(direction: Direction, source: Rect, rect1: Rect, rect2: Rect)
    ensures BeamBeats(direction, source, rect1, rect2)
            ==> BeamsOverlap(direction, source, rect1) && !BeamsOverlap(direction, source, rect2)
  {
    var rect1InSrcBeam := BeamsOverlap(direction, source, rect1);
    var rect2InSrcBeam := BeamsOverlap(direction, source, rect2);
    if rect2InSrcBeam || !rect1InSrcBeam then false
    else if !IsToDirectionOf(direction, source, rect2) then true
    else if direction.IsHorizontal() then true
    else MajorAxisDistance(direction, source, rect1)
         < MajorAxisDistanceToFarEdge(direction, source, rect2)
  }

  /** Whether the beams of `rect1` and `rect2` along `direction` overlap,
      i.e. their projections across the direction of travel share a
      stretch of positive length. */
  predicate BeamsOverlap(direction: Direction, rect1: Rect, rect2: Rect)
    ensures BeamsOverlap(direction, rect1, rect2)
            == if direction.IsHorizontal() then OverlapOnYAxis(rect1, rect2)
               else OverlapOnXAxis(rect1, rect2)
  {
    match direction
    case Left => rect2.bottom > rect1.top && rect2.top < rect1.bottom
    case Right => rect2.bottom > rect1.top && rect2.top < rect1.bottom
    case Up => rect2.right > rect1.left && rect2.left < rect1.right
    case Down => rect2.right > rect1.left && rect2.left < rect1.right
  }

  /** Whether `dest` lies wholly in `direction` of `src` (touching allowed). */
  predicate IsToDirectionOf(direction: Direction, src: Rect, dest: Rect)
    ensures IsToDirectionOf(direction, src, dest)
            ==> !(if direction.IsHorizontal() then OverlapOnXAxis(src, dest) else OverlapOnYAxis(src, dest))
  {
    match direction
    case Left => src.left >= dest.right
    case Right => src.right <= dest.left
    case Up => src.top >= dest.bottom
    case Down => src.bottom <= dest.top
  }

  /** The gap from the edge of `source` furthest in `direction` to the edge
      of `dest` nearest to it, clamped at 0 when dest is not wholly ahead. */
  function MajorAxisDistance(direction: Direction, source: Rect, dest: Rect): (r: int)
    ensures r >= 0
    ensures r >= MajorAxisDistanceRaw(direction, source, dest)
    ensures r == MajorAxisDistanceRaw(direction, source, dest) || r == 0
  {
    var raw := MajorAxisDistanceRaw(direction, source, dest);
    if raw > 0 then raw else 0
  }

  /** The signed gap from source's leading edge to dest's near edge: it is
      non-negative exactly when dest lies wholly in the direction. */
  function MajorAxisDistanceRaw(direction: Direction, source: Rect, dest: Rect): (r: int)
    ensures r >= 0 <==> IsToDirectionOf(direction, source, dest)
  {
    match direction
    case Left => source.left - dest.right
    case Right => dest.left - source.right
    case Up => source.top - dest.bottom
    case Down => dest.top - source.bottom
  }

  /** The gap from source's leading edge to dest's far edge, never below 1,
      so that it breaks ties against MajorAxisDistance. */
  function MajorAxisDistanceToFarEdge(direction: Direction, source: Rect, dest: Rect): (r: int)
    ensures r >= 1
    ensures r >= MajorAxisDistanceToFarEdgeRaw(direction, source, dest)
    ensures r == MajorAxisDistanceToFarEdgeRaw(direction, source, dest) || r == 1
  {
    var raw := MajorAxisDistanceToFarEdgeRaw(direction, source, dest);
    if raw > 1 then raw else 1
  }

  /** The signed gap to dest's far edge: the gap to its near edge plus dest's
      own extent along the direction of travel. */
  function MajorAxisDistanceToFarEdgeRaw(direction: Direction, source: Rect, dest: Rect): (r: int)
    ensures r == MajorAxisDistanceRaw(direction, source, dest)
                 + if direction.IsHorizontal() then dest.Width() else dest.Height()
  {
    match direction
    case Left => source.left - dest.left
    case Right => dest.right - source.right
    case Up => source.top - dest.top
    case Down => dest.bottom - source.bottom
  }

  /** The larger of two coordinates. */
  function Max(a: int, b: int): int { if a < b then b else a }

  /** The smaller of two coordinates. */
  function Min(a: int, b: int): int { if a < b then a else b }

  /** Whether the projections of the two rectangles on the Y axis overlap
      with positive length: for rectangles of positive height, the lower of
      the tops is above the higher of the bottoms. */
  predicate OverlapOnYAxis(rect1: Rect, rect2: Rect)
    ensures rect1.Height() > 0 && rect2.Height() > 0
            ==> (OverlapOnYAxis(rect1, rect2) <==> Max(rect1.top, rect2.top) < Min(rect1.bottom, rect2.bottom))
  {
    rect1.bottom > rect2.top && rect1.top < rect2.bottom
  }

  /** Whether the projections of the two rectangles on the X axis overlap
      with positive length: for rectangles of positive width, the rightmost
      left edge is left of the leftmost right edge. */
  predicate OverlapOnXAxis(rect1: Rect, rect2: Rect)
    ensures rect1.Width() > 0 && rect2.Width() > 0
            ==> (OverlapOnXAxis(rect1, rect2) <==> Max(rect1.left, rect2.left) < Min(rect1.right, rect2.right))
  {
    rect1.left < rect2.right && rect1.right > rect2.left
  }
}
