/**
 * The two searches over a sorted edge array: the range search that finds
 * which edges a move passes, and the nearest-aligned-edge search used by
 * snapping.
 */
module Search {
  import opened Geometry

  /** Number of edges whose coordinate is strictly below `position`. */
  function CountBelow(edges: seq<Edge>, horizontal: bool, position: int): nat
  {
    if edges == [] then 0
    else (if Pos(edges[0], horizontal) < position then 1 else 0) + CountBelow(edges[1..], horizontal, position)
  }

  /** Number of edges whose coordinate is at most `position`. */
  function CountAtMost(edges: seq<Edge>, horizontal: bool, position: int): nat
  {
    if edges == [] then 0
    else (if Pos(edges[0], horizontal) <= position then 1 else 0) + CountAtMost(edges[1..], horizontal, position)
  }

  /**
   * What the range search answers: the first index whose coordinate is at
   * least `position` (|edges| when there is none), or the last index whose
   * coordinate is at most `position` (-1 when there is none).
   */
  function EdgeIndexNear(edges: seq<Edge>, position: int, wantIntervalMin: bool, horizontal: bool): int
  {
    if wantIntervalMin then CountBelow(edges, horizontal, position)
    else CountAtMost(edges, horizontal, position) - 1
  }

  lemma {:induction false} CountBelowIsBoundary(edges: seq<Edge>, horizontal: bool, position: int, k: int)
    requires 0 <= k <= |edges|
    requires forall j :: 0 <= j < k ==> Pos(edges[j], horizontal) < position
    requires forall j :: k <= j < |edges| ==> Pos(edges[j], horizontal) >= position
    ensures CountBelow(edges, horizontal, position) == k
  {
    if edges != [] {
      var rest := edges[1..];
      assert forall j :: 0 <= j < |rest| ==> rest[j] == edges[j + 1];
      CountBelowIsBoundary(rest, horizontal, position, if k == 0 then 0 else k - 1);
    }
  }

  lemma {:induction false} CountAtMostIsBoundary(edges: seq<Edge>, horizontal: bool, position: int, k: int)
    requires 0 <= k <= |edges|
    requires forall j :: 0 <= j < k ==> Pos(edges[j], horizontal) <= position
    requires forall j :: k <= j < |edges| ==> Pos(edges[j], horizontal) > position
    ensures CountAtMost(edges, horizontal, position) == k
  {
    if edges != [] {
      var rest := edges[1..];
      assert forall j :: 0 <= j < |rest| ==> rest[j] == edges[j + 1];
      CountAtMostIsBoundary(rest, horizontal, position, if k == 0 then 0 else k - 1);
    }
  }

  /** On a sorted array, CountBelow splits it into coordinates below and at or above `position`. */
  lemma {:induction false} CountBelowSplits(edges: seq<Edge>, horizontal: bool, position: int)
    requires Sorted(edges, horizontal)
    ensures CountBelow(edges, horizontal, position) <= |edges|
    ensures forall j :: 0 <= j < CountBelow(edges, horizontal, position) ==> Pos(edges[j], horizontal) < position
    ensures forall j :: CountBelow(edges, horizontal, position) <= j < |edges| ==> Pos(edges[j], horizontal) >= position
  {
    if edges != [] {
      var rest := edges[1..];
      assert forall j :: 0 <= j < |rest| ==> rest[j] == edges[j + 1];
      CountBelowSplits(rest, horizontal, position);
      if Pos(edges[0], horizontal) >= position {
        CountBelowIsBoundary(rest, horizontal, position, 0);
      }
    }
  }

  /** On a sorted array, CountAtMost splits it into coordinates at most and above `position`. */
  lemma {:induction false} CountAtMostSplits(edges: seq<Edge>, horizontal: bool, position: int)
    requires Sorted(edges, horizontal)
    ensures CountAtMost(edges, horizontal, position) <= |edges|
    ensures forall j :: 0 <= j < CountAtMost(edges, horizontal, position) ==> Pos(edges[j], horizontal) <= position
    ensures forall j :: CountAtMost(edges, horizontal, position) <= j < |edges| ==> Pos(edges[j], horizontal) > position
  {
    if edges != [] {
      var rest := edges[1..];
      assert forall j :: 0 <= j < |rest| ==> rest[j] == edges[j + 1];
      CountAtMostSplits(rest, horizontal, position);
      if Pos(edges[0], horizontal) > position {
        CountAtMostIsBoundary(rest, horizontal, position, 0);
      }
    }
  }

  /** The index halfway between low and high, rounded down. */
  function Midpoint(low: int, high: int): (m: int)
    requires 0 <= low < high
    ensures low <= m < high
  {
    low + (high - low) / 2
  }

  /**
   * The index the binary-search phase stops at: it halves [low, high] until
   * the interval is empty or it meets a coordinate equal to `position`; `mid`
   * is the last index it looked at.
   */
  function BinarySearchMid(edges: seq<Edge>, horizontal: bool, position: int, low: int, high: int, mid: int): (r: int)
    requires 0 <= low && high < |edges| && 0 <= mid < |edges|
    ensures 0 <= r < |edges|
    decreases high - low
  {
    if low < high then
      var m := Midpoint(low, high);
      if Pos(edges[m], horizontal) == position then m
      else if Pos(edges[m], horizontal) > position then BinarySearchMid(edges, horizontal, position, low, m - 1, m)
      else BinarySearchMid(edges, horizontal, position, m + 1, high, m)
    else mid
  }

  /** Index r holds `position` itself or lies within two indices of the first index at or above it. */
  predicate LandsNear(edges: seq<Edge>, horizontal: bool, position: int, r: int)
    requires 0 <= r < |edges|
  {
    Pos(edges[r], horizontal) == position ||
    CountBelow(edges, horizontal, position) - 2 <= r <= CountBelow(edges, horizontal, position) + 1
  }

  /** The binary-search phase both searches start with. */
  method ApproximateIndex(edges: seq<Edge>, position: int, horizontal: bool) returns (mid: int)
    requires |edges| > 0
    ensures 0 <= mid < |edges|
    ensures mid == BinarySearchMid(edges, horizontal, position, 0, |edges| - 1, 0)
    ensures Sorted(edges, horizontal) ==> LandsNear(edges, horizontal, position, mid)
  {
    mid := 0;
    var low, high := 0, |edges| - 1;
    while low < high
      invariant 0 <= low && high < |edges| && 0 <= mid < |edges|
      invariant BinarySearchMid(edges, horizontal, position, low, high, mid)
             == BinarySearchMid(edges, horizontal, position, 0, |edges| - 1, 0)
      decreases high - low
    {
      mid := Midpoint(low, high);
      var compare := Pos(edges[mid], horizontal);
      if compare == position {
        break;
      }
      if compare > position {
        high := mid - 1;
      } else {
        low := mid + 1;
      }
    }
    if Sorted(edges, horizontal) {
      BinarySearchIsNear(edges, horizontal, position);
    }
  }

  /**
   * While index c (the first index at or above `position` on a sorted
   * array) stays inside the window [low, high + 1] and `mid` is next to the
   * window or inside it, the binary-search phase ends on a coordinate equal
   * to `position` or within two indices of c.
   */
  lemma {:induction false} BinarySearchMidIsNear(edges: seq<Edge>, horizontal: bool, position: int, c: int,
                                                 low: int, high: int, mid: int)
    requires Sorted(edges, horizontal) && c == CountBelow(edges, horizontal, position)
    requires 0 <= low <= high + 1 && high < |edges| && 0 <= mid < |edges|
    requires low <= c <= high + 1
    requires low < high || mid == low - 1 || mid == low || mid == high + 1
    ensures LandsNear(edges, horizontal, position, BinarySearchMid(edges, horizontal, position, low, high, mid))
    decreases high - low
  {
    if low < high {
      var m := Midpoint(low, high);
      CountBelowAt(edges, horizontal, position, m);
      if Pos(edges[m], horizontal) > position {
        BinarySearchMidIsNear(edges, horizontal, position, c, low, m - 1, m);
      } else if Pos(edges[m], horizontal) < position {
        BinarySearchMidIsNear(edges, horizontal, position, c, m + 1, high, m);
      }
    }
  }

  /** On a sorted array the whole binary-search phase lands near the first index at or above `position`. */
  lemma BinarySearchIsNear(edges: seq<Edge>, horizontal: bool, position: int)
    requires Sorted(edges, horizontal) && |edges| > 0
    ensures LandsNear(edges, horizontal, position, BinarySearchMid(edges, horizontal, position, 0, |edges| - 1, 0))
  {
    CountBelowAt(edges, horizontal, position, 0);
    BinarySearchMidIsNear(edges, horizontal, position, CountBelow(edges, horizontal, position), 0, |edges| - 1, 0);
  }

  /** On a sorted array, an edge at or above `position` is at or after the first such index, and one below it is before. */
  lemma CountBelowAt(edges: seq<Edge>, horizontal: bool, position: int, m: int)
    requires Sorted(edges, horizontal) && 0 <= m < |edges|
    ensures CountBelow(edges, horizontal, position) <= |edges|
    ensures Pos(edges[m], horizontal) >= position ==> CountBelow(edges, horizontal, position) <= m
    ensures Pos(edges[m], horizontal) < position ==> CountBelow(edges, horizontal, position) > m
  {
    CountBelowSplits(edges, horizontal, position);
  }

  /**
   * find_index_of_edge_near_position: the boundary of the run of edges a
   * move starts from or ends at, resolving runs of equal coordinates to
   * their first (wantIntervalMin) or last element.
   */
  method FindIndexOfEdgeNearPosition(edges: seq<Edge>, position: int, wantIntervalMin: bool, horizontal: bool)
    returns (r: int)
    requires |edges| > 0 && Sorted(edges, horizontal)
    ensures wantIntervalMin ==>
      0 <= r <= |edges| &&
      (forall j :: 0 <= j < r ==> Pos(edges[j], horizontal) < position) &&
      (forall j :: r <= j < |edges| ==> Pos(edges[j], horizontal) >= position)
    ensures !wantIntervalMin ==>
      -1 <= r < |edges| &&
      (forall j :: 0 <= j <= r ==> Pos(edges[j], horizontal) <= position) &&
      (forall j :: r < j < |edges| ==> Pos(edges[j], horizontal) > position)
    ensures r == EdgeIndexNear(edges, position, wantIntervalMin, horizontal)
  {
    CountBelowSplits(edges, horizontal, position);
    CountAtMostSplits(edges, horizontal, position);
    var mid := ApproximateIndex(edges, position, horizontal);
    if wantIntervalMin {
      r := WalkToFirstAtOrAbove(edges, position, horizontal, mid);
    } else {
      r := WalkToLastAtOrBelow(edges, position, horizontal, mid);
    }
  }

  /** The linear phase for want_interval_min: from any start, walk to the first index at or above `position`. */
  method WalkToFirstAtOrAbove(edges: seq<Edge>, position: int, horizontal: bool, start: int) returns (r: int)
    requires 0 <= start < |edges| && Sorted(edges, horizontal)
    ensures r == CountBelow(edges, horizontal, position)
  {
    var n := |edges|;
    var mid := start;
    var compare := Pos(edges[mid], horizontal);
    while compare >= position && mid > 0
      invariant 0 <= mid < n && compare == Pos(edges[mid], horizontal)
    {
      mid := mid - 1;
      compare := Pos(edges[mid], horizontal);
    }
    while compare < position && mid < n - 1
      invariant 0 <= mid < n && compare == Pos(edges[mid], horizontal)
      invariant forall j :: 0 <= j < mid ==> Pos(edges[j], horizontal) < position
    {
      mid := mid + 1;
      compare := Pos(edges[mid], horizontal);
    }
    if compare < position {
      r := n;
    } else {
      r := mid;
    }
    CountBelowIsBoundary(edges, horizontal, position, r);
  }

  /** The linear phase otherwise: from any start, walk to the last index at or below `position`. */
  method WalkToLastAtOrBelow(edges: seq<Edge>, position: int, horizontal: bool, start: int) returns (r: int)
    requires 0 <= start < |edges| && Sorted(edges, horizontal)
    ensures r == CountAtMost(edges, horizontal, position) - 1
  {
    var n := |edges|;
    var mid := start;
    var compare := Pos(edges[mid], horizontal);
    while compare <= position && mid < n - 1
      invariant 0 <= mid < n && compare == Pos(edges[mid], horizontal)
    {
      mid := mid + 1;
      compare := Pos(edges[mid], horizontal);
    }
    while compare > position && mid > 0
      invariant 0 <= mid < n && compare == Pos(edges[mid], horizontal)
      invariant forall j :: mid < j < n ==> Pos(edges[j], horizontal) > position
    {
      mid := mid - 1;
      compare := Pos(edges[mid], horizontal);
    }
    if compare > position {
      r := -1;
    } else {
      r := mid;
    }
    CountAtMostIsBoundary(edges, horizontal, position, r + 1);
  }

  /** A left edge at x = `x`, one pixel tall. */
  function LeftEdgeAt(x: int): Edge { Edge(Rect(x, 0, 0, 1), Left, WindowEdge) }

  /** The array of the worked examples: 3 27 316 316 316 505 522 800 1213. */
  function ExampleEdges(): seq<Edge>
  {
    [LeftEdgeAt(3), LeftEdgeAt(27), LeftEdgeAt(316), LeftEdgeAt(316), LeftEdgeAt(316),
     LeftEdgeAt(505), LeftEdgeAt(522), LeftEdgeAt(800), LeftEdgeAt(1213)]
  }

  /** The array of the worked examples is sorted. */
  lemma ExampleEdgesSorted()
    ensures Sorted(ExampleEdges(), true)
  {
  }

  /** Worked example of the range search: First value above 500 is 505, at index 5. */
  lemma RangeSearchExample500Min()
    ensures EdgeIndexNear(ExampleEdges(), 500, true, true) == 5
  {
    CountBelowIsBoundary(ExampleEdges(), true, 500, 5);
  }

  /** Worked example of the range search: Last value below 805 is 800, at index 7. */
  lemma RangeSearchExample805Max()
    ensures EdgeIndexNear(ExampleEdges(), 805, false, true) == 7
  {
    CountAtMostIsBoundary(ExampleEdges(), true, 805, 8);
  }

  /** Worked example of the range search: The run of 316s starts at index 2. */
  lemma RangeSearchExample316Min()
    ensures EdgeIndexNear(ExampleEdges(), 316, true, true) == 2
  {
    CountBelowIsBoundary(ExampleEdges(), true, 316, 2);
  }

  /** Worked example of the range search: The run of 316s ends at index 4. */
  lemma RangeSearchExample316Max()
    ensures EdgeIndexNear(ExampleEdges(), 316, false, true) == 4
  {
    CountAtMostIsBoundary(ExampleEdges(), true, 316, 5);
  }

  /** Worked example of the range search: No value is at most 2. */
  lemma RangeSearchExample2Max()
    ensures EdgeIndexNear(ExampleEdges(), 2, false, true) == -1
  {
    CountAtMostIsBoundary(ExampleEdges(), true, 2, 0);
  }

  /** Worked example of the range search: No value is at least 2000: the length, 9. */
  lemma RangeSearchExample2000Min()
    ensures EdgeIndexNear(ExampleEdges(), 2000, true, true) == 9
  {
    CountBelowIsBoundary(ExampleEdges(), true, 2000, 9);
  }

  // ---------------------------------------------------------------------
  // Nearest aligned edge

  /**
   * Whether an edge may be snapped to: it must align with the moving
   * rectangle and, for forward-only (keyboard) snapping, must not lie on the
   * same side of the target as the starting position.
   */
  predicate Eligible(e: Edge, position: int, oldPosition: int, newRect: Rect, horizontal: bool, onlyForward: bool)
  {
    Aligns(e, newRect, horizontal) &&
    (!onlyForward || !PointsOnSameSide(position, Pos(e, horizontal), oldPosition))
  }

  /** The best candidate so far; no distance means nothing has been found yet. */
  datatype Best = Best(pos: int, dist: Option<nat>)

  /** Takes an edge's coordinate as the best candidate when it is strictly closer. */
  function Consider(e: Edge, position: int, horizontal: bool, b: Best): Best
  {
    var d := Abs(Pos(e, horizontal) - position);
    if b.dist.None? || d < b.dist.value then Best(Pos(e, horizontal), Some(d)) else b
  }

  /** The upward scan as written: it stops at the first eligible edge above `i`, closer or not. */
  function ScanUp(edges: seq<Edge>, position: int, oldPosition: int, newRect: Rect, horizontal: bool,
                  onlyForward: bool, i: int, b: Best): Best
    requires 0 <= i <= |edges|
    decreases |edges| - i
  {
    if i == |edges| then b
    else if Eligible(edges[i], position, oldPosition, newRect, horizontal, onlyForward) then
      Consider(edges[i], position, horizontal, b)
    else ScanUp(edges, position, oldPosition, newRect, horizontal, onlyForward, i + 1, b)
  }

  /** The downward scan as written: it stops at the first eligible edge below `i`. */
  function ScanDown(edges: seq<Edge>, position: int, oldPosition: int, newRect: Rect, horizontal: bool,
                    onlyForward: bool, i: int, b: Best): Best
    requires -1 <= i < |edges|
    decreases i + 1
  {
    if i == -1 then b
    else if Eligible(edges[i], position, oldPosition, newRect, horizontal, onlyForward) then
      Consider(edges[i], position, horizontal, b)
    else ScanDown(edges, position, oldPosition, newRect, horizontal, onlyForward, i - 1, b)
  }

  /** What find_nearest_position computes as written. */
  function NearestAsWritten(edges: seq<Edge>, position: int, oldPosition: int, newRect: Rect,
                            horizontal: bool, onlyForward: bool): int
    requires |edges| > 0
  {
    var mid := BinarySearchMid(edges, horizontal, position, 0, |edges| - 1, 0);
    var start := Best(oldPosition, None);
    var atMid := if Eligible(edges[mid], position, oldPosition, newRect, horizontal, onlyForward)
                 then Consider(edges[mid], position, horizontal, start) else start;
    var up := ScanUp(edges, position, oldPosition, newRect, horizontal, onlyForward, mid + 1, atMid);
    ScanDown(edges, position, oldPosition, newRect, horizontal, onlyForward, mid - 1, up).pos
  }

  /**
   * find_nearest_position as written: binary search to an index near
   * `position`, then look at that edge, the first eligible edge above it and
   * the first eligible edge below it.
   */
  method FindNearestPositionAsWritten(edges: seq<Edge>, position: int, oldPosition: int, newRect: Rect,
                                      horizontal: bool, onlyForward: bool) returns (best: int)
    requires |edges| > 0
    ensures best == NearestAsWritten(edges, position, oldPosition, newRect, horizontal, onlyForward)
    ensures best == oldPosition ||
      exists k :: 0 <= k < |edges| && Pos(edges[k], horizontal) == best &&
        Eligible(edges[k], position, oldPosition, newRect, horizontal, onlyForward)
  {
    var mid := ApproximateIndex(edges, position, horizontal);
    var b := Best(oldPosition, None);
    if Eligible(edges[mid], position, oldPosition, newRect, horizontal, onlyForward) {
      b := Consider(edges[mid], position, horizontal, b);
    }
    ghost var atMid := b;
    var i := mid + 1;
    while i < |edges|
      invariant mid + 1 <= i <= |edges|
      invariant ScanUp(edges, position, oldPosition, newRect, horizontal, onlyForward, i, b)
             == ScanUp(edges, position, oldPosition, newRect, horizontal, onlyForward, mid + 1, atMid)
    {
      if Eligible(edges[i], position, oldPosition, newRect, horizontal, onlyForward) {
        b := Consider(edges[i], position, horizontal, b);
        break;
      }
      i := i + 1;
    }
    ghost var up := b;
    i := mid - 1;
    while i >= 0
      invariant -1 <= i <= mid - 1
      invariant ScanDown(edges, position, oldPosition, newRect, horizontal, onlyForward, i, b)
             == ScanDown(edges, position, oldPosition, newRect, horizontal, onlyForward, mid - 1, up)
    {
      if Eligible(edges[i], position, oldPosition, newRect, horizontal, onlyForward) {
        b := Consider(edges[i], position, horizontal, b);
        break;
      }
      i := i - 1;
    }
    best := b.pos;
    NearestAsWrittenIsCandidate(edges, position, oldPosition, newRect, horizontal, onlyForward);
  }

  /** A candidate is the starting position or the coordinate of an eligible edge. */
  predicate IsCandidate(edges: seq<Edge>, position: int, oldPosition: int, newRect: Rect,
                        horizontal: bool, onlyForward: bool, p: int)
  {
    p == oldPosition ||
    exists k :: 0 <= k < |edges| && Pos(edges[k], horizontal) == p &&
      Eligible(edges[k], position, oldPosition, newRect, horizontal, onlyForward)
  }

  lemma {:induction false} ScanUpIsCandidate(edges: seq<Edge>, position: int, oldPosition: int, newRect: Rect,
                                             horizontal: bool, onlyForward: bool, i: int, b: Best)
    requires 0 <= i <= |edges|
    requires IsCandidate(edges, position, oldPosition, newRect, horizontal, onlyForward, b.pos)
    ensures IsCandidate(edges, position, oldPosition, newRect, horizontal, onlyForward,
                        ScanUp(edges, position, oldPosition, newRect, horizontal, onlyForward, i, b).pos)
    decreases |edges| - i
  {
    if i < |edges| && !Eligible(edges[i], position, oldPosition, newRect, horizontal, onlyForward) {
      ScanUpIsCandidate(edges, position, oldPosition, newRect, horizontal, onlyForward, i + 1, b);
    }
  }

  lemma {:induction false} ScanDownIsCandidate(edges: seq<Edge>, position: int, oldPosition: int, newRect: Rect,
                                               horizontal: bool, onlyForward: bool, i: int, b: Best)
    requires -1 <= i < |edges|
    requires IsCandidate(edges, position, oldPosition, newRect, horizontal, onlyForward, b.pos)
    ensures IsCandidate(edges, position, oldPosition, newRect, horizontal, onlyForward,
                        ScanDown(edges, position, oldPosition, newRect, horizontal, onlyForward, i, b).pos)
    decreases i + 1
  {
    if i >= 0 && !Eligible(edges[i], position, oldPosition, newRect, horizontal, onlyForward) {
      ScanDownIsCandidate(edges, position, oldPosition, newRect, horizontal, onlyForward, i - 1, b);
    }
  }

  lemma NearestAsWrittenIsCandidate(edges: seq<Edge>, position: int, oldPosition: int, newRect: Rect,
                                    horizontal: bool, onlyForward: bool)
    requires |edges| > 0
    ensures IsCandidate(edges, position, oldPosition, newRect, horizontal, onlyForward,
                        NearestAsWritten(edges, position, oldPosition, newRect, horizontal, onlyForward))
  {
    var mid := BinarySearchMid(edges, horizontal, position, 0, |edges| - 1, 0);
    var start := Best(oldPosition, None);
    var atMid := if Eligible(edges[mid], position, oldPosition, newRect, horizontal, onlyForward)
                 then Consider(edges[mid], position, horizontal, start) else start;
    ScanUpIsCandidate(edges, position, oldPosition, newRect, horizontal, onlyForward, mid + 1, atMid);
    var up := ScanUp(edges, position, oldPosition, newRect, horizontal, onlyForward, mid + 1, atMid);
    ScanDownIsCandidate(edges, position, oldPosition, newRect, horizontal, onlyForward, mid - 1, up);
  }

  /** Aligned left edges at x = 10, 20, 150, 160, 170, all spanning y in [0, 100). */
  function FarEdges(): seq<Edge>
  {
    [Edge(Rect(10, 0, 0, 100), Left, WindowEdge), Edge(Rect(20, 0, 0, 100), Left, WindowEdge),
     Edge(Rect(150, 0, 0, 100), Left, WindowEdge), Edge(Rect(160, 0, 0, 100), Left, WindowEdge),
     Edge(Rect(170, 0, 0, 100), Left, WindowEdge)]
  }

  /**
   * The search as written can miss the closest edge: looking for 100, the
   * binary search stops at index 0 (x = 10), the upward scan stops at the
   * first aligned edge (x = 20), and the edge at x = 150, which is closer,
   * is never looked at.
   */
  lemma NearestAsWrittenMissesCloserEdge()
    ensures Sorted(FarEdges(), true)
    ensures BinarySearchMid(FarEdges(), true, 100, 0, 4, 0) == 0
    ensures NearestAsWritten(FarEdges(), 100, 0, Rect(0, 0, 50, 50), true, false) == 20
    ensures Eligible(FarEdges()[2], 100, 0, Rect(0, 0, 50, 50), true, false)
    ensures Abs(Pos(FarEdges()[2], true) - 100) < Abs(20 - 100)
  {
    var s := FarEdges();
    var r := Rect(0, 0, 50, 50);
    assert BinarySearchMid(s, true, 100, 0, 4, 0) == BinarySearchMid(s, true, 100, 0, 1, 2);
    assert BinarySearchMid(s, true, 100, 0, 1, 2) == BinarySearchMid(s, true, 100, 1, 1, 0);
    var atMid := Consider(s[0], 100, true, Best(0, None));
    assert atMid == Best(10, Some(90));
    assert ScanUp(s, 100, 0, r, true, false, 1, atMid) == Best(20, Some(80));
  }

  // ---------------------------------------------------------------------
  // The nearest search as intended

  /** Folds Consider over the eligible edges from index i on, in index order. */
  function ClosestFrom(edges: seq<Edge>, position: int, oldPosition: int, newRect: Rect, horizontal: bool,
                       onlyForward: bool, i: int, b: Best): Best
    requires 0 <= i <= |edges|
    decreases |edges| - i
  {
    if i == |edges| then b
    else
      var b' := if Eligible(edges[i], position, oldPosition, newRect, horizontal, onlyForward)
                then Consider(edges[i], position, horizontal, b) else b;
      ClosestFrom(edges, position, oldPosition, newRect, horizontal, onlyForward, i + 1, b')
  }

  /**
   * The nearest aligned edge: among the eligible edges, the coordinate
   * closest to `position` (the lowest-index one on a tie), or `oldPosition`
   * when no edge is eligible.
   */
  function NearestPosition(edges: seq<Edge>, position: int, oldPosition: int, newRect: Rect,
                           horizontal: bool, onlyForward: bool): int
  {
    ClosestFrom(edges, position, oldPosition, newRect, horizontal, onlyForward, 0, Best(oldPosition, None)).pos
  }

  /** The best candidate so far is the closest of the eligible edges before index i. */
  predicate BestBefore(edges: seq<Edge>, position: int, oldPosition: int, newRect: Rect, horizontal: bool,
                       onlyForward: bool, i: int, b: Best)
    requires 0 <= i <= |edges|
  {
    (b.dist.None? ==>
      b.pos == oldPosition &&
      forall k :: 0 <= k < i ==> !Eligible(edges[k], position, oldPosition, newRect, horizontal, onlyForward)) &&
    (b.dist.Some? ==>
      b.dist.value == Abs(b.pos - position) &&
      (exists k :: 0 <= k < i && Pos(edges[k], horizontal) == b.pos &&
         Eligible(edges[k], position, oldPosition, newRect, horizontal, onlyForward)) &&
      forall k :: 0 <= k < i && Eligible(edges[k], position, oldPosition, newRect, horizontal, onlyForward) ==>
        b.dist.value <= Abs(Pos(edges[k], horizontal) - position))
  }

  lemma {:induction false} ClosestFromIsClosest(edges: seq<Edge>, position: int, oldPosition: int, newRect: Rect,
                                                horizontal: bool, onlyForward: bool, i: int, b: Best)
    requires 0 <= i <= |edges|
    requires BestBefore(edges, position, oldPosition, newRect, horizontal, onlyForward, i, b)
    ensures BestBefore(edges, position, oldPosition, newRect, horizontal, onlyForward, |edges|,
                       ClosestFrom(edges, position, oldPosition, newRect, horizontal, onlyForward, i, b))
    decreases |edges| - i
  {
    if i < |edges| {
      var b' := if Eligible(edges[i], position, oldPosition, newRect, horizontal, onlyForward)
                then Consider(edges[i], position, horizontal, b) else b;
      BestBeforeStep(edges, position, oldPosition, newRect, horizontal, onlyForward, i, b);
      ClosestFromIsClosest(edges, position, oldPosition, newRect, horizontal, onlyForward, i + 1, b');
    }
  }

  /** Looking at one more edge keeps the best candidate the closest one so far. */
  lemma BestBeforeStep(edges: seq<Edge>, position: int, oldPosition: int, newRect: Rect, horizontal: bool,
                       onlyForward: bool, i: int, b: Best)
    requires 0 <= i < |edges|
    requires BestBefore(edges, position, oldPosition, newRect, horizontal, onlyForward, i, b)
    ensures BestBefore(edges, position, oldPosition, newRect, horizontal, onlyForward, i + 1,
                       if Eligible(edges[i], position, oldPosition, newRect, horizontal, onlyForward)
                       then Consider(edges[i], position, horizontal, b) else b)
  {
    if Eligible(edges[i], position, oldPosition, newRect, horizontal, onlyForward) {
      var b' := Consider(edges[i], position, horizontal, b);
      if b' != b {
        assert Pos(edges[i], horizontal) == b'.pos;
      }
    }
  }

  /** The nearest search finds the closest eligible edge, or keeps the old position when there is none. */
  lemma NearestPositionIsClosest(edges: seq<Edge>, position: int, oldPosition: int, newRect: Rect,
                                 horizontal: bool, onlyForward: bool)
    ensures var r := NearestPosition(edges, position, oldPosition, newRect, horizontal, onlyForward);
      (r == oldPosition &&
       forall k :: 0 <= k < |edges| ==> !Eligible(edges[k], position, oldPosition, newRect, horizontal, onlyForward)) ||
      ((exists k :: 0 <= k < |edges| && Pos(edges[k], horizontal) == r &&
          Eligible(edges[k], position, oldPosition, newRect, horizontal, onlyForward)) &&
       forall k :: 0 <= k < |edges| && Eligible(edges[k], position, oldPosition, newRect, horizontal, onlyForward) ==>
         Abs(r - position) <= Abs(Pos(edges[k], horizontal) - position))
  {
    ClosestFromIsClosest(edges, position, oldPosition, newRect, horizontal, onlyForward, 0, Best(oldPosition, None));
  }

  /** The intended search finds the edge the as-written one misses. */
  lemma NearestPositionFindsCloserEdge()
    ensures NearestPosition(FarEdges(), 100, 0, Rect(0, 0, 50, 50), true, false) == 150
  {
    var s := FarEdges();
    var r := Rect(0, 0, 50, 50);
    NearestPositionIsClosest(s, 100, 0, r, true, false);
    var p := NearestPosition(s, 100, 0, r, true, false);
    assert Eligible(s[2], 100, 0, r, true, false);
    assert Abs(p - 100) <= 50;
    assert forall k :: 0 <= k < |s| && Pos(s[k], true) == p ==> k == 2;
  }

  /**
   * find_nearest_position, corrected: every edge is looked at, so the
   * closest eligible edge is never missed.
   */
  method FindNearestPosition(edges: seq<Edge>, position: int, oldPosition: int, newRect: Rect,
                             horizontal: bool, onlyForward: bool) returns (best: int)
    ensures best == NearestPosition(edges, position, oldPosition, newRect, horizontal, onlyForward)
  {
    var b := Best(oldPosition, None);
    var i := 0;
    while i < |edges|
      invariant 0 <= i <= |edges|
      invariant ClosestFrom(edges, position, oldPosition, newRect, horizontal, onlyForward, i, b)
             == ClosestFrom(edges, position, oldPosition, newRect, horizontal, onlyForward, 0, Best(oldPosition, None))
    {
      if Eligible(edges[i], position, oldPosition, newRect, horizontal, onlyForward) {
        var dist := Abs(Pos(edges[i], horizontal) - position);
        if b.dist.None? || dist < b.dist.value {
          b := Best(Pos(edges[i], horizontal), Some(dist));
        }
      }
      i := i + 1;
    }
    best := b.pos;
  }
}
