/** Properties of the candidate-selection geometry in module FocusFinder. */
module FocusFinderLemmas {
  import opened Directions
  import opened FocusFinder

  /** The reflection of a rectangle in the Y axis (x becomes -x). */
  function MirrorX(r: Rect): (m: Rect)
    ensures m.Width() == r.Width() && m.top == r.top && m.bottom == r.bottom
  {
    Rect(-r.right, r.top, -r.left, r.bottom)
  }

  /** The reflection of a rectangle in the X axis (y becomes -y). */
  function MirrorY(r: Rect): (m: Rect)
    ensures m.Height() == r.Height() && m.left == r.left && m.right == r.right
  {
    Rect(r.left, -r.bottom, r.right, -r.top)
  }

  // ---------------------------------------------------------------------------
  // Candidacy

  /** A rectangle is never a candidate from itself: the first conjunct of
      every case compares an edge with itself strictly. */
  lemma NeverCandidateOfItself(r: Rect, direction: Direction)
    ensures !IsCandidate(r, r, direction)
  {
  }

  /** Every candidate from a well-formed source lies at least partly in the
      direction of travel. */
  lemma CandidateIsPartiallyInDirection(src: Rect, dest: Rect, direction: Direction)
    requires src.Valid()
    requires IsCandidate(src, dest, direction)
    ensures IsPartiallyInDirection(src, dest, direction)
  {
  }

  /** Candidacy to the left is candidacy to the right in the mirror image,
      and likewise for up and down. */
  lemma CandidateMirrors(src: Rect, dest: Rect)
    ensures IsCandidate(src, dest, Left) == IsCandidate(MirrorX(src), MirrorX(dest), Right)
    ensures IsCandidate(src, dest, Up) == IsCandidate(MirrorY(src), MirrorY(dest), Down)
  {
  }

  // ---------------------------------------------------------------------------
  // Distances

  /** The clamped near-edge distance is the raw gap whenever that gap is
      positive, and 0 otherwise. */
  lemma MajorAxisDistanceIsClampedGap(direction: Direction, source: Rect, dest: Rect)
    ensures MajorAxisDistanceRaw(direction, source, dest) > 0
            ==> MajorAxisDistance(direction, source, dest) == MajorAxisDistanceRaw(direction, source, dest)
    ensures MajorAxisDistanceRaw(direction, source, dest) <= 0
            ==> MajorAxisDistance(direction, source, dest) == 0
  {
  }

  /** For a well-formed destination the far edge is never closer than the
      near edge, so the far-edge distance is at least the near-edge one. */
  lemma FarEdgeNotCloserThanNearEdge(direction: Direction, source: Rect, dest: Rect)
    requires dest.Valid()
    ensures MajorAxisDistance(direction, source, dest) <= MajorAxisDistanceToFarEdge(direction, source, dest)
  {
  }

  /** The minor-axis distance does not depend on the order of its rectangles. */
  lemma MinorAxisDistanceSymmetric(direction: Direction, a: Rect, b: Rect)
    ensures MinorAxisDistance(direction, a, b) == MinorAxisDistance(direction, b, a)
  {
  }

  /** The weighted distance grows with either distance while the other does
      not shrink. */
  lemma {:induction false} WeightedDistanceMonotone(major1: int, minor1: int, major2: int, minor2: int)
    requires 0 <= major1 <= major2 && 0 <= minor1 <= minor2
    requires major1 < major2 || minor1 < minor2
    ensures WeightedDistanceFor(major1, minor1) < WeightedDistanceFor(major2, minor2)
  {
    assert major1 * major1 <= major1 * major2 <= major2 * major2;
    assert minor1 * minor1 <= minor1 * minor2 <= minor2 * minor2;
    if major1 < major2 {
      assert major1 * major1 <= major1 * major2 < major2 * major2;
    } else {
      assert minor1 * minor1 <= minor1 * minor2 < minor2 * minor2;
    }
  }

  /** Between two non-negative numbers, the square preserves the order. */
  lemma SquareOrder(x: int, y: int)
    requires 0 <= x && 0 <= y
    ensures x * x < y * y <==> x < y
  {
    if x < y {
      assert x * x <= x * y < y * y;
    } else {
      assert y * y <= y * x <= x * x;
    }
  }

  // ---------------------------------------------------------------------------
  // Beams

  /** The beams of two rectangles overlap in either order. */
  lemma BeamsOverlapSymmetric(direction: Direction, a: Rect, b: Rect)
    ensures BeamsOverlap(direction, a, b) == BeamsOverlap(direction, b, a)
  {
  }

  /** Beam preference is one-sided: two rectangles never beat each other. */
  lemma BeamBeatsAsymmetric(direction: Direction, source: Rect, a: Rect, b: Rect)
    ensures !(BeamBeats(direction, source, a, b) && BeamBeats(direction, source, b, a))
  {
  }

  /** For left and right, being exclusively in the source's beam always
      wins and is the only way to win. */
  lemma HorizontalBeamBeats(direction: Direction, source: Rect, a: Rect, b: Rect)
    requires direction.IsHorizontal()
    ensures BeamBeats(direction, source, a, b)
            <==> BeamsOverlap(direction, source, a) && !BeamsOverlap(direction, source, b)
  {
  }

  /** For up and down, a rectangle exclusively in the beam beats one that
      lies wholly in the direction only while its near edge is closer than
      the other's far edge. */
  lemma VerticalBeamBeatsIsCapped(direction: Direction, source: Rect, a: Rect, b: Rect)
    requires !direction.IsHorizontal()
    requires BeamsOverlap(direction, source, a) && !BeamsOverlap(direction, source, b)
    requires IsToDirectionOf(direction, source, b)
    ensures BeamBeats(direction, source, a, b)
            <==> MajorAxisDistance(direction, source, a) < MajorAxisDistanceToFarEdge(direction, source, b)
  {
  }

  /** A rectangle exclusively in the beam always beats one that is not
      wholly in the direction of travel, whatever the direction. */
  lemma InBeamBeatsOffToTheSide(direction: Direction, source: Rect, a: Rect, b: Rect)
    requires BeamsOverlap(direction, source, a) && !BeamsOverlap(direction, source, b)
    requires !IsToDirectionOf(direction, source, b)
    ensures BeamBeats(direction, source, a, b)
  {
  }

  // ---------------------------------------------------------------------------
  // The comparator

  /** The comparator decides in the documented order: candidacy of rect1,
      candidacy of rect2, beam preference of rect1, beam preference of
      rect2, and only then the weighted distance. */
  lemma BetterCandidateDecisionOrder(direction: Direction, source: Rect, rect1: Rect, rect2: Rect)
    ensures !IsCandidate(source, rect1, direction) ==> !IsBetterCandidate(direction, source, rect1, rect2)
    ensures IsCandidate(source, rect1, direction) && !IsCandidate(source, rect2, direction)
            ==> IsBetterCandidate(direction, source, rect1, rect2)
    ensures IsCandidate(source, rect1, direction) && IsCandidate(source, rect2, direction)
            ==> (BeamBeats(direction, source, rect1, rect2) ==> IsBetterCandidate(direction, source, rect1, rect2))
                && (BeamBeats(direction, source, rect2, rect1) ==> !IsBetterCandidate(direction, source, rect1, rect2))
    ensures IsCandidate(source, rect1, direction) && IsCandidate(source, rect2, direction)
            && !BeamBeats(direction, source, rect1, rect2) && !BeamBeats(direction, source, rect2, rect1)
            ==> (IsBetterCandidate(direction, source, rect1, rect2)
                 <==> WeightedDistanceFor(MajorAxisDistance(direction, source, rect1),
                                          MinorAxisDistance(direction, source, rect1))
                      < WeightedDistanceFor(MajorAxisDistance(direction, source, rect2),
                                            MinorAxisDistance(direction, source, rect2)))
  {
  }

  /** No rectangle is better than itself. */
  lemma BetterCandidateIrreflexive(direction: Direction, source: Rect, r: Rect)
    ensures !IsBetterCandidate(direction, source, r, r)
  {
  }

  /** Of two rectangles, at most one is the better candidate. */
  lemma BetterCandidateAsymmetric(direction: Direction, source: Rect, rect1: Rect, rect2: Rect)
    ensures !(IsBetterCandidate(direction, source, rect1, rect2)
              && IsBetterCandidate(direction, source, rect2, rect1))
  {
    BeamBeatsAsymmetric(direction, source, rect1, rect2);
  }

  /** With no beam advantage either way and equal major-axis distances, the
      candidate whose center is closer across the direction wins, and only
      that one. */
  lemma EqualMajorSmallerMinorWins(direction: Direction, source: Rect, rect1: Rect, rect2: Rect)
    requires IsCandidate(source, rect1, direction) && IsCandidate(source, rect2, direction)
    requires !BeamBeats(direction, source, rect1, rect2) && !BeamBeats(direction, source, rect2, rect1)
    requires MajorAxisDistance(direction, source, rect1) == MajorAxisDistance(direction, source, rect2)
    ensures IsBetterCandidate(direction, source, rect1, rect2)
            <==> MinorAxisDistance(direction, source, rect1) < MinorAxisDistance(direction, source, rect2)
  {
    SquareOrder(MinorAxisDistance(direction, source, rect1), MinorAxisDistance(direction, source, rect2));
  }

  /** With no beam advantage either way, a candidate that is no farther on
      either axis and strictly nearer on one is the better one. */
  lemma NearerOnBothAxesWins(direction: Direction, source: Rect, rect1: Rect, rect2: Rect)
    requires IsCandidate(source, rect1, direction) && IsCandidate(source, rect2, direction)
    requires !BeamBeats(direction, source, rect1, rect2) && !BeamBeats(direction, source, rect2, rect1)
    requires MajorAxisDistance(direction, source, rect1) <= MajorAxisDistance(direction, source, rect2)
    requires MinorAxisDistance(direction, source, rect1) <= MinorAxisDistance(direction, source, rect2)
    requires MajorAxisDistance(direction, source, rect1) < MajorAxisDistance(direction, source, rect2)
             || MinorAxisDistance(direction, source, rect1) < MinorAxisDistance(direction, source, rect2)
    ensures IsBetterCandidate(direction, source, rect1, rect2)
  {
    WeightedDistanceMonotone(MajorAxisDistance(direction, source, rect1), MinorAxisDistance(direction, source, rect1),
                             MajorAxisDistance(direction, source, rect2), MinorAxisDistance(direction, source, rect2));
  }

  /** Beam preference to the left is beam preference to the right in the
      mirror image, and likewise for up and down. */
  lemma BeamBeatsMirrors(source: Rect, a: Rect, b: Rect)
    ensures BeamBeats(Left, source, a, b) == BeamBeats(Right, MirrorX(source), MirrorX(a), MirrorX(b))
    ensures BeamBeats(Up, source, a, b) == BeamBeats(Down, MirrorY(source), MirrorY(a), MirrorY(b))
  {
  }

  /** Both axis distances to the left are those to the right in the mirror
      image, and likewise for up and down. */
  lemma DistancesMirror(source: Rect, dest: Rect)
    ensures MajorAxisDistance(Left, source, dest) == MajorAxisDistance(Right, MirrorX(source), MirrorX(dest))
    ensures MinorAxisDistance(Left, source, dest) == MinorAxisDistance(Right, MirrorX(source), MirrorX(dest))
    ensures MajorAxisDistance(Up, source, dest) == MajorAxisDistance(Down, MirrorY(source), MirrorY(dest))
    ensures MinorAxisDistance(Up, source, dest) == MinorAxisDistance(Down, MirrorY(source), MirrorY(dest))
  {
    assert CenterY(source) == CenterY(MirrorX(source)) && CenterY(dest) == CenterY(MirrorX(dest));
    assert CenterX(source) == CenterX(MirrorY(source)) && CenterX(dest) == CenterX(MirrorY(dest));
  }

  /** The comparator treats left and right as mirror images, and up and down
      as mirror images. */
  lemma BetterCandidateMirrors(source: Rect, rect1: Rect, rect2: Rect)
    ensures IsBetterCandidate(Left, source, rect1, rect2)
            == IsBetterCandidate(Right, MirrorX(source), MirrorX(rect1), MirrorX(rect2))
    ensures IsBetterCandidate(Up, source, rect1, rect2)
            == IsBetterCandidate(Down, MirrorY(source), MirrorY(rect1), MirrorY(rect2))
  {
    CandidateMirrors(source, rect1);
    CandidateMirrors(source, rect2);
    BeamBeatsMirrors(source, rect1, rect2);
    BeamBeatsMirrors(source, rect2, rect1);
    DistancesMirror(source, rect1);
    DistancesMirror(source, rect2);
  }

  // ---------------------------------------------------------------------------
  // Worked examples

  /** A rectangle straddling the left edge of the source is a candidate to
      the left. */
  lemma StraddlingLeftEdgeIsCandidate()
    ensures IsCandidate(Rect(0, 0, 100, 100), Rect(-50, 0, 50, 100), Left)
  {
  }

  /** A rectangle of zero height strictly inside another's vertical span
      overlaps it on the Y axis, and one of zero width strictly inside its
      horizontal span overlaps it on the X axis, although the overlap
      length is zero in both. */
  lemma ZeroExtentInsideOverlaps(outer: Rect, flat: Rect, thin: Rect)
    requires outer == Rect(0, 0, 10, 10) && flat == Rect(0, 5, 10, 5) && thin == Rect(5, 0, 5, 10)
    ensures OverlapOnYAxis(flat, outer) && Min(flat.bottom, outer.bottom) - Max(flat.top, outer.top) == 0
    ensures OverlapOnXAxis(thin, outer) && Min(thin.right, outer.right) - Max(thin.left, outer.left) == 0
  {
  }

  /** Going down from (0, 0, 10, 10), the rectangle (0, 20, 10, 30) right
      below it is a better candidate than (5, 20, 15, 30), shifted sideways
      by half its width, and not the other way round. */
  lemma AlignedBeatsShifted(source: Rect, aligned: Rect, shifted: Rect)
    requires source == Rect(0, 0, 10, 10)
    requires aligned == Rect(0, 20, 10, 30) && shifted == Rect(5, 20, 15, 30)
    ensures IsBetterCandidate(Down, source, aligned, shifted)
    ensures !IsBetterCandidate(Down, source, shifted, aligned)
  {
    assert !Down.IsHorizontal();
  }

  /** Going down, a far rectangle in the beam loses to a much closer one
      beside it that lies wholly below the source. */
  lemma VerticalBeamPreferenceIsCapped(source: Rect, far: Rect, near: Rect)
    requires source == Rect(0, 0, 10, 10)
    requires far == Rect(0, 100, 10, 110) && near == Rect(20, 12, 30, 20)
    ensures !IsBetterCandidate(Down, source, far, near)
  {
    assert !Down.IsHorizontal();
  }

  /** Going left, the same layout turned sideways keeps the beam preference:
      the far rectangle in the beam wins. */
  lemma HorizontalBeamPreferenceIsNotCapped(source: Rect, far: Rect, near: Rect)
    requires source == Rect(0, 0, 10, 10)
    requires far == Rect(-110, 0, -100, 10) && near == Rect(-20, 20, -12, 30)
    ensures IsBetterCandidate(Left, source, far, near)
  {
    assert Left.IsHorizontal();
  }
}
