/**
 * Rectangles, edges and the small predicates that every part of the
 * edge-resistance engine shares.
 */
module Geometry {

  datatype Option<T> = None | Some(value: T)

  /** Which side of a moving window an edge resists (or attracts, when snapping). */
  datatype Side = Left | Right | Top | Bottom

  /** Where an edge comes from: another window, a monitor boundary or the screen boundary. */
  datatype EdgeKind = WindowEdge | MonitorEdge | ScreenEdge

  datatype Rect = Rect(x: int, y: int, width: int, height: int)

  /** A boundary segment: a degenerate rectangle, the side it acts on and its origin. */
  datatype Edge = Edge(rect: Rect, side: Side, kind: EdgeKind)

  /** The per-window requirements that decide whether timeout resistance applies. */
  datatype WindowFlags = WindowFlags(requireOnSingleMonitor: bool, requireFullyOnscreen: bool)

  // The four sides of a box; right and bottom are one past the last pixel.
  function BoxLeft(r: Rect): int { r.x }
  function BoxRight(r: Rect): int { r.x + r.width }
  function BoxTop(r: Rect): int { r.y }
  function BoxBottom(r: Rect): int { r.y + r.height }

  function Abs(n: int): nat { if n < 0 then -n else n }

  /** The coordinate an edge is sorted and compared by: x when searching horizontally, y otherwise. */
  function Pos(e: Edge, horizontal: bool): int {
    if horizontal then e.rect.x else e.rect.y
  }

  predicate VertOverlap(a: Rect, b: Rect) {
    a.y < b.y + b.height && b.y < a.y + a.height
  }

  predicate HorizOverlap(a: Rect, b: Rect) {
    a.x < b.x + b.width && b.x < a.x + a.width
  }

  /** An edge matters to a moving rectangle only if they overlap on the perpendicular axis. */
  predicate Aligns(e: Edge, r: Rect, horizontal: bool) {
    if horizontal then VertOverlap(e.rect, r) else HorizOverlap(e.rect, r)
  }

  /** The invariant of every edge array: ascending by the defining coordinate, duplicates allowed. */
  predicate Sorted(edges: seq<Edge>, horizontal: bool) {
    forall i, j :: 0 <= i <= j < |edges| ==> Pos(edges[i], horizontal) <= Pos(edges[j], horizontal)
  }

  /** Whether a step of the given sign moves a window side of kind `side` onto an edge of that kind. */
  predicate MovementTowardsEdge(side: Side, increment: int) {
    match side
    case Left | Top => increment < 0
    case Right | Bottom => increment > 0
  }

  /** Both points lie strictly on the same side of the reference point (the sign of a product). */
  predicate PointsOnSameSide(reference: int, pt1: int, pt2: int) {
    (pt1 - reference) * (pt2 - reference) > 0
  }

  lemma SameSideMeaning(reference: int, pt1: int, pt2: int)
    ensures PointsOnSameSide(reference, pt1, pt2) <==>
      (pt1 > reference && pt2 > reference) || (pt1 < reference && pt2 < reference)
  {
    var a, b := pt1 - reference, pt2 - reference;
    if a > 0 && b > 0 {
      assert a * b > 0;
    } else if a < 0 && b < 0 {
      assert a * b == (-a) * (-b);
      assert (-a) * (-b) > 0;
    } else if a == 0 || b == 0 {
      assert a * b == 0;
    } else if a > 0 {
      assert a * (-b) > 0;
    } else {
      assert (-a) * b > 0;
    }
  }
}
