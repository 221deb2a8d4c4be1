/**
 * The grab-level part: the edge cache built when a move or resize grab
 * starts, the per-side resistance data it owns, the evaluation of all four
 * sides, and the reconciliation of the four results into one move or resize.
 */
module Grab {
  import opened Geometry
  import opened Search
  import opened Resistance
  import opened Snapping
  import opened ResistanceProperties

  /** The edges of `s` that act on `side`, in their original order. */
  function OfSide(s: seq<Edge>, side: Side): seq<Edge>
  {
    if s == [] then []
    else OfSide(s[..|s| - 1], side) + (if s[|s| - 1].side == side then [s[|s| - 1]] else [])
  }

  lemma {:induction false} OfSideCounts(s: seq<Edge>, side: Side)
    ensures forall e :: multiset(OfSide(s, side))[e] == if e.side == side then multiset(s)[e] else 0
  {
    if s != [] {
      var init, last := s[..|s| - 1], s[|s| - 1];
      assert s == init + [last];
      OfSideCounts(init, side);
    }
  }

  lemma {:induction false} OfSideConcat(a: seq<Edge>, b: seq<Edge>, side: Side)
    ensures OfSide(a + b, side) == OfSide(a, side) + OfSide(b, side)
    decreases |b|
  {
    if b != [] {
      var init := b[..|b| - 1];
      assert (a + b)[..|a + b| - 1] == a + init;
      OfSideConcat(a, init, side);
    } else {
      assert a + b == a;
    }
  }

  lemma OfSideStep(edges: seq<Edge>, i: int, side: Side)
    requires 0 <= i < |edges|
    ensures OfSide(edges[..i + 1], side) == OfSide(edges[..i], side) + (if edges[i].side == side then [edges[i]] else [])
  {
    assert edges[..i + 1][..i] == edges[..i];
  }

  /** Inserts an edge into an array before the first element it does not follow. */
  function InsertSorted(e: Edge, s: seq<Edge>, horizontal: bool): (r: seq<Edge>)
    ensures multiset(r) == multiset(s) + multiset{e}
  {
    if s == [] then [e]
    else if Pos(e, horizontal) <= Pos(s[0], horizontal) then [e] + s
    else
      assert s == [s[0]] + s[1..];
      [s[0]] + InsertSorted(e, s[1..], horizontal)
  }

  /** Inserting adds `e` and nothing else. */
  lemma {:induction false} InsertSortedElements(e: Edge, s: seq<Edge>, horizontal: bool)
    ensures forall x :: x in InsertSorted(e, s, horizontal) ==> x == e || x in s
  {
    if s != [] && Pos(e, horizontal) > Pos(s[0], horizontal) {
      InsertSortedElements(e, s[1..], horizontal);
    }
  }

  /** An edge no later than any element of a sorted array may go in front of it. */
  lemma SortedCons(x: Edge, rest: seq<Edge>, horizontal: bool)
    requires Sorted(rest, horizontal)
    requires forall k :: 0 <= k < |rest| ==> Pos(x, horizontal) <= Pos(rest[k], horizontal)
    ensures Sorted([x] + rest, horizontal)
  {
    var r := [x] + rest;
    forall i, j | 0 <= i <= j < |r|
      ensures Pos(r[i], horizontal) <= Pos(r[j], horizontal)
    {
      if i > 0 {
        assert r[i] == rest[i - 1] && r[j] == rest[j - 1];
      } else if j > 0 {
        assert r[j] == rest[j - 1];
      }
    }
  }

  lemma {:induction false} InsertSortedKeepsOrder(e: Edge, s: seq<Edge>, horizontal: bool)
    requires Sorted(s, horizontal)
    ensures Sorted(InsertSorted(e, s, horizontal), horizontal)
  {
    if s == [] {
    } else if Pos(e, horizontal) <= Pos(s[0], horizontal) {
      SortedCons(e, s, horizontal);
    } else {
      var tail := s[1..];
      var rest := InsertSorted(e, tail, horizontal);
      InsertSortedKeepsOrder(e, tail, horizontal);
      InsertSortedElements(e, tail, horizontal);
      forall k | 0 <= k < |rest|
        ensures Pos(s[0], horizontal) <= Pos(rest[k], horizontal)
      {
        assert rest[k] in rest;
      }
      SortedCons(s[0], rest, horizontal);
    }
  }

  /** The edges of `s` ordered by their coordinate (the sort algorithm itself is incidental). */
  function SortEdges(s: seq<Edge>, horizontal: bool): (r: seq<Edge>)
    ensures multiset(r) == multiset(s)
  {
    if s == [] then []
    else
      assert s == [s[0]] + s[1..];
      InsertSorted(s[0], SortEdges(s[1..], horizontal), horizontal)
  }

  lemma {:induction false} SortEdgesSorts(s: seq<Edge>, horizontal: bool)
    ensures Sorted(SortEdges(s, horizontal), horizontal)
  {
    if s != [] {
      SortEdgesSorts(s[1..], horizontal);
      InsertSortedKeepsOrder(s[0], SortEdges(s[1..], horizontal), horizontal);
    }
  }

  /** The edges one side's array holds once the cache is built. */
  function CachedSide(windowEdges: seq<Edge>, monitorEdges: seq<Edge>, screenEdges: seq<Edge>,
                      side: Side, horizontal: bool): seq<Edge>
  {
    SortEdges(OfSide(windowEdges, side) + OfSide(monitorEdges, side) + OfSide(screenEdges, side), horizontal)
  }

  /** Each array of the cache holds exactly the given edges of its side, sorted. */
  lemma CachedSideIsPartition(windowEdges: seq<Edge>, monitorEdges: seq<Edge>, screenEdges: seq<Edge>,
                              side: Side, horizontal: bool)
    ensures Sorted(CachedSide(windowEdges, monitorEdges, screenEdges, side, horizontal), horizontal)
    ensures forall e :: multiset(CachedSide(windowEdges, monitorEdges, screenEdges, side, horizontal))[e] ==
                        (if e.side == side then multiset(windowEdges + monitorEdges + screenEdges)[e] else 0)
  {
    SortEdgesSorts(OfSide(windowEdges, side) + OfSide(monitorEdges, side) + OfSide(screenEdges, side), horizontal);
    OfSideConcat(windowEdges, monitorEdges, side);
    OfSideConcat(windowEdges + monitorEdges, screenEdges, side);
    OfSideCounts(windowEdges + monitorEdges + screenEdges, side);
  }

  /** Where the move or resize grab started: the y of the grab anchor on the root window and the window's initial y. */
  datatype GrabAnchor = GrabAnchor(rootY: int, initialWindowY: int)

  /** The ids the main loop would hand out for a timer armed on each side. */
  datatype SideTimers = SideTimers(left: nat, right: nat, top: nat, bottom: nat)

  /** The four cached edge arrays of a grab. */
  datatype EdgeSets = EdgeSets(left: seq<Edge>, right: seq<Edge>, top: seq<Edge>, bottom: seq<Edge>)

  /** The resistance state of the four sides of a grab. */
  datatype SideStates = SideStates(left: SideState, right: SideState, top: SideState, bottom: SideState)

  /** Left and right edges are ordered by x, top and bottom edges by y; resistance needs at least one edge per side. */
  predicate UsableEdges(sets: EdgeSets)
  {
    Sorted(sets.left, true) && Sorted(sets.right, true) &&
    Sorted(sets.top, false) && Sorted(sets.bottom, false) &&
    |sets.left| > 0 && |sets.right| > 0 && |sets.top| > 0 && |sets.bottom| > 0
  }

  /** The rectangle spanned by four side positions. */
  function SpannedRect(left: int, right: int, top: int, bottom: int): (r: Rect)
    ensures BoxLeft(r) == left && BoxRight(r) == right && BoxTop(r) == top && BoxBottom(r) == bottom
  {
    Rect(left, top, right - left, bottom - top)
  }

  /** The request one side makes of its edge array. */
  function SideRequest(oldPos: int, newPos: int, newOuter: Rect, horizontal: bool, keyboard: bool,
                       flags: WindowFlags, timerId: nat): Request
  {
    Request(oldPos, newPos, newOuter, horizontal, keyboard, flags, timerId)
  }

  /**
   * What applying resistance (or snapping) to each side independently
   * produces: the new outer rectangle and the new state of every side.
   */
  function EachSide(sets: EdgeSets, states: SideStates, flags: WindowFlags, oldOuter: Rect, newOuter: Rect,
                    timers: SideTimers, autoSnap: bool, keyboard: bool): (Rect, SideStates)
    requires UsableEdges(sets)
  {
    if autoSnap then
      (SpannedRect(
         SnapSide(BoxLeft(oldOuter), BoxLeft(newOuter), newOuter, sets.left, sets.right, true, keyboard),
         SnapSide(BoxRight(oldOuter), BoxRight(newOuter), newOuter, sets.left, sets.right, true, keyboard),
         SnapSide(BoxTop(oldOuter), BoxTop(newOuter), newOuter, sets.top, sets.bottom, false, keyboard),
         SnapSide(BoxBottom(oldOuter), BoxBottom(newOuter), newOuter, sets.top, sets.bottom, false, keyboard)),
       states)
    else
      var l := Resist(sets.left, SideRequest(BoxLeft(oldOuter), BoxLeft(newOuter), newOuter, true, keyboard, flags, timers.left), states.left);
      var r := Resist(sets.right, SideRequest(BoxRight(oldOuter), BoxRight(newOuter), newOuter, true, keyboard, flags, timers.right), states.right);
      var t := Resist(sets.top, SideRequest(BoxTop(oldOuter), BoxTop(newOuter), newOuter, false, keyboard, flags, timers.top), states.top);
      var b := Resist(sets.bottom, SideRequest(BoxBottom(oldOuter), BoxBottom(newOuter), newOuter, false, keyboard, flags, timers.bottom), states.bottom);
      (SpannedRect(l.pos, r.pos, t.pos, b.pos), SideStates(l.state, r.state, t.state, b.state))
  }

  /**
   * Resistance (without snapping) never moves a side past where it was
   * proposed to go: each side of the result lies between its old and its
   * proposed position, and is either the proposed position or the
   * coordinate of an edge aligned with the window.
   */
  lemma EachSideResistsWithinProposal(sets: EdgeSets, states: SideStates, flags: WindowFlags, oldOuter: Rect,
                                      newOuter: Rect, timers: SideTimers, keyboard: bool)
    requires UsableEdges(sets)
    ensures var res := EachSide(sets, states, flags, oldOuter, newOuter, timers, false, keyboard).0;
      Between(BoxLeft(res), BoxLeft(oldOuter), BoxLeft(newOuter)) &&
      Between(BoxRight(res), BoxRight(oldOuter), BoxRight(newOuter)) &&
      Between(BoxTop(res), BoxTop(oldOuter), BoxTop(newOuter)) &&
      Between(BoxBottom(res), BoxBottom(oldOuter), BoxBottom(newOuter)) &&
      (BoxLeft(res) == BoxLeft(newOuter) ||
       exists k :: 0 <= k < |sets.left| && Aligns(sets.left[k], newOuter, true) && Pos(sets.left[k], true) == BoxLeft(res)) &&
      (BoxRight(res) == BoxRight(newOuter) ||
       exists k :: 0 <= k < |sets.right| && Aligns(sets.right[k], newOuter, true) && Pos(sets.right[k], true) == BoxRight(res)) &&
      (BoxTop(res) == BoxTop(newOuter) ||
       exists k :: 0 <= k < |sets.top| && Aligns(sets.top[k], newOuter, false) && Pos(sets.top[k], false) == BoxTop(res)) &&
      (BoxBottom(res) == BoxBottom(newOuter) ||
       exists k :: 0 <= k < |sets.bottom| && Aligns(sets.bottom[k], newOuter, false) && Pos(sets.bottom[k], false) == BoxBottom(res))
  {
    ResistResultIsEdgeOrTarget(sets.left, SideRequest(BoxLeft(oldOuter), BoxLeft(newOuter), newOuter, true, keyboard, flags, timers.left), states.left);
    ResistResultIsEdgeOrTarget(sets.right, SideRequest(BoxRight(oldOuter), BoxRight(newOuter), newOuter, true, keyboard, flags, timers.right), states.right);
    ResistResultIsEdgeOrTarget(sets.top, SideRequest(BoxTop(oldOuter), BoxTop(newOuter), newOuter, false, keyboard, flags, timers.top), states.top);
    ResistResultIsEdgeOrTarget(sets.bottom, SideRequest(BoxBottom(oldOuter), BoxBottom(newOuter), newOuter, false, keyboard, flags, timers.bottom), states.bottom);
  }

  /**
   * Snapping leaves the resistance state alone and puts each side where it
   * was, where it was proposed, or on an aligned edge of the edges of its
   * own orientation (left sides may snap to right edges and vice versa).
   */
  lemma EachSideSnapsToEdges(sets: EdgeSets, states: SideStates, flags: WindowFlags, oldOuter: Rect,
                             newOuter: Rect, timers: SideTimers, keyboard: bool)
    requires UsableEdges(sets)
    ensures EachSide(sets, states, flags, oldOuter, newOuter, timers, true, keyboard).1 == states
    ensures var res := EachSide(sets, states, flags, oldOuter, newOuter, timers, true, keyboard).0;
      var xs := sets.left + sets.right;
      var ys := sets.top + sets.bottom;
      (BoxLeft(res) in {BoxLeft(oldOuter), BoxLeft(newOuter)} ||
       exists k :: 0 <= k < |xs| && Pos(xs[k], true) == BoxLeft(res) &&
         Eligible(xs[k], BoxLeft(newOuter), BoxLeft(oldOuter), newOuter, true, keyboard)) &&
      (BoxRight(res) in {BoxRight(oldOuter), BoxRight(newOuter)} ||
       exists k :: 0 <= k < |xs| && Pos(xs[k], true) == BoxRight(res) &&
         Eligible(xs[k], BoxRight(newOuter), BoxRight(oldOuter), newOuter, true, keyboard)) &&
      (BoxTop(res) in {BoxTop(oldOuter), BoxTop(newOuter)} ||
       exists k :: 0 <= k < |ys| && Pos(ys[k], false) == BoxTop(res) &&
         Eligible(ys[k], BoxTop(newOuter), BoxTop(oldOuter), newOuter, false, keyboard)) &&
      (BoxBottom(res) in {BoxBottom(oldOuter), BoxBottom(newOuter)} ||
       exists k :: 0 <= k < |ys| && Pos(ys[k], false) == BoxBottom(res) &&
         Eligible(ys[k], BoxBottom(newOuter), BoxBottom(oldOuter), newOuter, false, keyboard))
  {
    SnapIntoUnion(BoxLeft(oldOuter), BoxLeft(newOuter), newOuter, sets.left, sets.right, true, keyboard);
    SnapIntoUnion(BoxRight(oldOuter), BoxRight(newOuter), newOuter, sets.left, sets.right, true, keyboard);
    SnapIntoUnion(BoxTop(oldOuter), BoxTop(newOuter), newOuter, sets.top, sets.bottom, false, keyboard);
    SnapIntoUnion(BoxBottom(oldOuter), BoxBottom(newOuter), newOuter, sets.top, sets.bottom, false, keyboard);
  }

  /** SnapLandsOnEdge, with the two edge sets seen as one. */
  lemma SnapIntoUnion(oldPos: int, newPos: int, newRect: Rect, edges1: seq<Edge>, edges2: seq<Edge>,
                      horizontal: bool, keyboard: bool)
    ensures var r := SnapSide(oldPos, newPos, newRect, edges1, edges2, horizontal, keyboard);
      var all := edges1 + edges2;
      r in {oldPos, newPos} ||
      exists k :: 0 <= k < |all| && Pos(all[k], horizontal) == r &&
        Eligible(all[k], newPos, oldPos, newRect, horizontal, keyboard)
  {
    var r := SnapSide(oldPos, newPos, newRect, edges1, edges2, horizontal, keyboard);
    var all := edges1 + edges2;
    SnapLandsOnEdge(oldPos, newPos, newRect, edges1, edges2, horizontal, keyboard);
    if k :| 0 <= k < |edges1| && Pos(edges1[k], horizontal) == r &&
            Eligible(edges1[k], newPos, oldPos, newRect, horizontal, keyboard) {
      assert all[k] == edges1[k];
    } else if k :| 0 <= k < |edges2| && Pos(edges2[k], horizontal) == r &&
                   Eligible(edges2[k], newPos, oldPos, newRect, horizontal, keyboard) {
      assert all[|edges1| + k] == edges2[k];
    }
  }

  /** A rectangle moved by (dx, dy). */
  function Shift(r: Rect, dx: int, dy: int): Rect
  {
    Rect(r.x + dx, r.y + dy, r.width, r.height)
  }

  /**
   * Of the changes of the two opposite sides, the one a move applies to
   * both: the smaller in magnitude (the second on a tie), except that a
   * keyboard snap takes the other side's change when one side did not move.
   */
  function SmallerChange(lowChange: int, highChange: int, snap: bool, keyboard: bool): (r: int)
    ensures r == lowChange || r == highChange
    ensures snap && keyboard && lowChange == 0 ==> r == highChange
    ensures snap && keyboard && lowChange != 0 && highChange == 0 ==> r == lowChange
    ensures !(snap && keyboard && (lowChange == 0 || highChange == 0)) ==>
      Abs(r) <= Abs(lowChange) && Abs(r) <= Abs(highChange) &&
      (Abs(lowChange) == Abs(highChange) ==> r == highChange)
  {
    if snap && keyboard && lowChange == 0 then highChange
    else if snap && keyboard && highChange == 0 then lowChange
    else if Abs(lowChange) < Abs(highChange) then lowChange
    else highChange
  }

  /**
   * The window position a move ends at once the four independently
   * resisted sides in `newOuter` are reconciled. Changes are measured
   * against the proposed rectangle for a mouse snap and against the old
   * rectangle otherwise.
   */
  function ReconcileMove(oldOuter: Rect, proposedOuter: Rect, newOuter: Rect, oldX: int, oldY: int,
                         snap: bool, keyboard: bool): (int, int)
  {
    var reference := if snap && !keyboard then proposedOuter else oldOuter;
    var smallerX := SmallerChange(BoxLeft(newOuter) - BoxLeft(reference), BoxRight(newOuter) - BoxRight(reference), snap, keyboard);
    var smallerY := SmallerChange(BoxTop(newOuter) - BoxTop(reference), BoxBottom(newOuter) - BoxBottom(reference), snap, keyboard);
    (oldX + smallerX + (BoxLeft(reference) - BoxLeft(oldOuter)),
     oldY + smallerY + (BoxTop(reference) - BoxTop(oldOuter)))
  }

  /** The position a move of the window from (oldX, oldY) to (newX, newY) ends at. */
  function MoveResult(sets: EdgeSets, states: SideStates, flags: WindowFlags, oldOuter: Rect,
                      oldX: int, oldY: int, newX: int, newY: int,
                      timers: SideTimers, snap: bool, keyboard: bool): (int, int)
    requires UsableEdges(sets)
  {
    var proposedOuter := Shift(oldOuter, newX - oldX, newY - oldY);
    var resisted := EachSide(sets, states, flags, oldOuter, proposedOuter, timers, snap, keyboard).0;
    if resisted == proposedOuter then (newX, newY)
    else ReconcileMove(oldOuter, proposedOuter, resisted, oldX, oldY, snap, keyboard)
  }

  /**
   * A reconciled move keeps the window's size and puts its left or its
   * right side (and its top or its bottom side) exactly where that side
   * was resisted or snapped to.
   */
  lemma ReconciledMoveHonoursOneSide(oldOuter: Rect, proposedOuter: Rect, newOuter: Rect, oldX: int, oldY: int,
                                     snap: bool, keyboard: bool)
    requires proposedOuter.width == oldOuter.width && proposedOuter.height == oldOuter.height
    ensures var (x, y) := ReconcileMove(oldOuter, proposedOuter, newOuter, oldX, oldY, snap, keyboard);
      var moved := Shift(oldOuter, x - oldX, y - oldY);
      (BoxLeft(moved) == BoxLeft(newOuter) || BoxRight(moved) == BoxRight(newOuter)) &&
      (BoxTop(moved) == BoxTop(newOuter) || BoxBottom(moved) == BoxBottom(newOuter))
  {
  }

  /**
   * Resistance only ever shortens a move: without snapping, the window
   * ends up moved the proposed way, no further than proposed, on each axis.
   */
  lemma ResistedMoveStaysWithinProposal(sets: EdgeSets, states: SideStates, flags: WindowFlags, oldOuter: Rect,
                                        oldX: int, oldY: int, newX: int, newY: int,
                                        timers: SideTimers, keyboard: bool)
    requires UsableEdges(sets)
    ensures var (x, y) := MoveResult(sets, states, flags, oldOuter, oldX, oldY, newX, newY, timers, false, keyboard);
      Between(x - oldX, 0, newX - oldX) && Between(y - oldY, 0, newY - oldY)
  {
    var proposedOuter := Shift(oldOuter, newX - oldX, newY - oldY);
    EachSideResistsWithinProposal(sets, states, flags, oldOuter, proposedOuter, timers, keyboard);
  }

  /** The inner size a resize from (oldWidth, oldHeight) to (newWidth, newHeight) ends at. */
  function ResizeResult(sets: EdgeSets, states: SideStates, flags: WindowFlags, oldOuter: Rect, resizedOuter: Rect,
                        oldWidth: int, oldHeight: int, newWidth: int, newHeight: int,
                        timers: SideTimers, snap: bool, keyboard: bool): (int, int)
    requires UsableEdges(sets)
  {
    var resisted := EachSide(sets, states, flags, oldOuter, resizedOuter, timers, snap, keyboard).0;
    if resisted == resizedOuter then (newWidth, newHeight)
    else (oldWidth + (resisted.width - oldOuter.width), oldHeight + (resisted.height - oldOuter.height))
  }

  /**
   * A resize is only ever shortened by resistance: when on each axis the two
   * sides do not move the same way (one or both move out to grow, in to
   * shrink, as every gravity does), each dimension changes the proposed
   * way, no further than proposed.
   */
  lemma ResistedResizeStaysWithinProposal(sets: EdgeSets, states: SideStates, flags: WindowFlags,
                                          oldOuter: Rect, resizedOuter: Rect,
                                          oldWidth: int, oldHeight: int, newWidth: int, newHeight: int,
                                          timers: SideTimers, keyboard: bool)
    requires UsableEdges(sets)
    requires (BoxLeft(resizedOuter) <= BoxLeft(oldOuter) && BoxRight(resizedOuter) >= BoxRight(oldOuter)) ||
             (BoxLeft(resizedOuter) >= BoxLeft(oldOuter) && BoxRight(resizedOuter) <= BoxRight(oldOuter))
    requires (BoxTop(resizedOuter) <= BoxTop(oldOuter) && BoxBottom(resizedOuter) >= BoxBottom(oldOuter)) ||
             (BoxTop(resizedOuter) >= BoxTop(oldOuter) && BoxBottom(resizedOuter) <= BoxBottom(oldOuter))
    requires resizedOuter.width == oldOuter.width + (newWidth - oldWidth)
    requires resizedOuter.height == oldOuter.height + (newHeight - oldHeight)
    ensures var (w, h) := ResizeResult(sets, states, flags, oldOuter, resizedOuter, oldWidth, oldHeight,
                                       newWidth, newHeight, timers, false, keyboard);
      Between(w, oldWidth, newWidth) && Between(h, oldHeight, newHeight)
  {
    EachSideResistsWithinProposal(sets, states, flags, oldOuter, resizedOuter, timers, keyboard);
  }

  /** The edge data of one grab: four sorted edge arrays and the resistance data of each side. */
  class EdgeCache {
    var leftEdges: seq<Edge>
    var rightEdges: seq<Edge>
    var topEdges: seq<Edge>
    var bottomEdges: seq<Edge>
    const leftData: ResistanceData
    const rightData: ResistanceData
    const topData: ResistanceData
    const bottomData: ResistanceData
    var lastUserActionWasSnap: bool

    ghost predicate Valid()
      reads this
    {
      leftData != rightData && leftData != topData && leftData != bottomData &&
      rightData != topData && rightData != bottomData && topData != bottomData &&
      Sorted(leftEdges, true) && Sorted(rightEdges, true) &&
      Sorted(topEdges, false) && Sorted(bottomEdges, false)
    }

    function Edges(): EdgeSets
      reads this
    {
      EdgeSets(leftEdges, rightEdges, topEdges, bottomEdges)
    }

    function States(): SideStates
      reads this, leftData, rightData, topData, bottomData
    {
      SideStates(leftData.State(), rightData.State(), topData.State(), bottomData.State())
    }

    /**
     * cache_edges: partitions the window, monitor and screen edges by side
     * into four arrays and sorts each by its coordinate.
     */
    constructor (windowEdges: seq<Edge>, monitorEdges: seq<Edge>, screenEdges: seq<Edge>)
      ensures Valid()
      ensures fresh(leftData) && fresh(rightData) && fresh(topData) && fresh(bottomData)
      ensures leftEdges == CachedSide(windowEdges, monitorEdges, screenEdges, Left, true)
      ensures rightEdges == CachedSide(windowEdges, monitorEdges, screenEdges, Right, true)
      ensures topEdges == CachedSide(windowEdges, monitorEdges, screenEdges, Top, false)
      ensures bottomEdges == CachedSide(windowEdges, monitorEdges, screenEdges, Bottom, false)
      ensures !lastUserActionWasSnap
    {
      leftEdges, rightEdges, topEdges, bottomEdges := [], [], [], [];
      leftData := new ResistanceData();
      rightData := new ResistanceData();
      topData := new ResistanceData();
      bottomData := new ResistanceData();
      lastUserActionWasSnap := false;
      new;
      FillSides(windowEdges, monitorEdges, screenEdges);
    }

    /** Fills the empty side arrays from the three edge lists and sorts them. */
    method FillSides(windowEdges: seq<Edge>, monitorEdges: seq<Edge>, screenEdges: seq<Edge>)
      requires leftEdges == [] && rightEdges == [] && topEdges == [] && bottomEdges == []
      modifies this
      ensures leftEdges == CachedSide(windowEdges, monitorEdges, screenEdges, Left, true)
      ensures rightEdges == CachedSide(windowEdges, monitorEdges, screenEdges, Right, true)
      ensures topEdges == CachedSide(windowEdges, monitorEdges, screenEdges, Top, false)
      ensures bottomEdges == CachedSide(windowEdges, monitorEdges, screenEdges, Bottom, false)
      ensures Sorted(leftEdges, true) && Sorted(rightEdges, true)
      ensures Sorted(topEdges, false) && Sorted(bottomEdges, false)
      ensures lastUserActionWasSnap == old(lastUserActionWasSnap)
    {
      AppendAll(windowEdges, monitorEdges, screenEdges);
      SortSides();
    }

    /** The counting-free part of the fill: the three lists appended side by side. */
    method AppendAll(windowEdges: seq<Edge>, monitorEdges: seq<Edge>, screenEdges: seq<Edge>)
      requires leftEdges == [] && rightEdges == [] && topEdges == [] && bottomEdges == []
      modifies this
      ensures leftEdges == OfSide(windowEdges, Left) + OfSide(monitorEdges, Left) + OfSide(screenEdges, Left)
      ensures rightEdges == OfSide(windowEdges, Right) + OfSide(monitorEdges, Right) + OfSide(screenEdges, Right)
      ensures topEdges == OfSide(windowEdges, Top) + OfSide(monitorEdges, Top) + OfSide(screenEdges, Top)
      ensures bottomEdges == OfSide(windowEdges, Bottom) + OfSide(monitorEdges, Bottom) + OfSide(screenEdges, Bottom)
      ensures lastUserActionWasSnap == old(lastUserActionWasSnap)
    {
      AppendEdges(windowEdges);
      AppendEdges(monitorEdges);
      AppendEdges(screenEdges);
    }

    /** Sorts each side's array by its coordinate. */
    method SortSides()
      modifies this
      ensures Sorted(leftEdges, true) && Sorted(rightEdges, true)
      ensures Sorted(topEdges, false) && Sorted(bottomEdges, false)
      ensures leftEdges == SortEdges(old(leftEdges), true) && rightEdges == SortEdges(old(rightEdges), true)
      ensures topEdges == SortEdges(old(topEdges), false) && bottomEdges == SortEdges(old(bottomEdges), false)
      ensures lastUserActionWasSnap == old(lastUserActionWasSnap)
    {
      SortEdgesSorts(leftEdges, true);
      SortEdgesSorts(rightEdges, true);
      SortEdgesSorts(topEdges, false);
      SortEdgesSorts(bottomEdges, false);
      leftEdges := SortEdges(leftEdges, true);
      rightEdges := SortEdges(rightEdges, true);
      topEdges := SortEdges(topEdges, false);
      bottomEdges := SortEdges(bottomEdges, false);
    }

    /** Appends each edge of `edges` to the array of its side. */
    method AppendEdges(edges: seq<Edge>)
      modifies this
      ensures leftEdges == old(leftEdges) + OfSide(edges, Left)
      ensures rightEdges == old(rightEdges) + OfSide(edges, Right)
      ensures topEdges == old(topEdges) + OfSide(edges, Top)
      ensures bottomEdges == old(bottomEdges) + OfSide(edges, Bottom)
      ensures lastUserActionWasSnap == old(lastUserActionWasSnap)
    {
      var i := 0;
      while i < |edges|
        invariant 0 <= i <= |edges|
        invariant leftEdges == old(leftEdges) + OfSide(edges[..i], Left)
        invariant rightEdges == old(rightEdges) + OfSide(edges[..i], Right)
        invariant topEdges == old(topEdges) + OfSide(edges[..i], Top)
        invariant bottomEdges == old(bottomEdges) + OfSide(edges[..i], Bottom)
        invariant lastUserActionWasSnap == old(lastUserActionWasSnap)
        decreases |edges| - i
      {
        var edge := edges[i];
        OfSideStep(edges, i, Left);
        OfSideStep(edges, i, Right);
        OfSideStep(edges, i, Top);
        OfSideStep(edges, i, Bottom);
        match edge.side {
          case Left => leftEdges := leftEdges + [edge];
          case Right => rightEdges := rightEdges + [edge];
          case Top => topEdges := topEdges + [edge];
          case Bottom => bottomEdges := bottomEdges + [edge];
        }
        i := i + 1;
      }
      assert edges[..i] == edges;
    }

    /**
     * initialize_grab_edge_resistance_data: no timer set up and no buildup
     * on any side; every side may cross the screen edge except the top one,
     * which may only when the grab started at or below the window's top.
     */
    method Initialize(anchor: GrabAnchor)
      requires Valid()
      modifies leftData, rightData, topData, bottomData
      ensures Valid() && Edges() == old(Edges())
      ensures leftData.State() == old(leftData.State()).(timeoutSetup := false, keyboardBuildup := 0,
                                                         allowPastScreenEdge := true)
      ensures rightData.State() == old(rightData.State()).(timeoutSetup := false, keyboardBuildup := 0,
                                                           allowPastScreenEdge := true)
      ensures bottomData.State() == old(bottomData.State()).(timeoutSetup := false, keyboardBuildup := 0,
                                                             allowPastScreenEdge := true)
      ensures topData.State() == old(topData.State()).(timeoutSetup := false, keyboardBuildup := 0,
        allowPastScreenEdge := anchor.rootY >= anchor.initialWindowY)
    {
      leftData.timeoutSetup := false;
      rightData.timeoutSetup := false;
      topData.timeoutSetup := false;
      bottomData.timeoutSetup := false;

      leftData.keyboardBuildup := 0;
      rightData.keyboardBuildup := 0;
      topData.keyboardBuildup := 0;
      bottomData.keyboardBuildup := 0;

      leftData.allowPastScreenEdge := true;
      rightData.allowPastScreenEdge := true;
      bottomData.allowPastScreenEdge := true;
      topData.allowPastScreenEdge := anchor.rootY >= anchor.initialWindowY;
    }

    /**
     * apply_edge_resistance_to_each_side: resists (or snaps) each side of
     * the proposed rectangle independently and reports whether anything
     * changed.
     */
    method ApplyEdgeResistanceToEachSide(flags: WindowFlags, oldOuter: Rect, newOuter: Rect, timers: SideTimers,
                                         autoSnap: bool, keyboard: bool)
      returns (modified: bool, result: Rect)
      requires Valid() && UsableEdges(Edges())
      modifies leftData, rightData, topData, bottomData
      ensures Valid() && Edges() == old(Edges())
      ensures (result, States()) == EachSide(Edges(), old(States()), flags, oldOuter, newOuter, timers, autoSnap, keyboard)
      ensures modified <==> result != newOuter
    {
      var newLeft, newRight, newTop, newBottom;
      if autoSnap {
        newLeft := ApplyEdgeSnapping(BoxLeft(oldOuter), BoxLeft(newOuter), newOuter, leftEdges, rightEdges, true, keyboard);
        newRight := ApplyEdgeSnapping(BoxRight(oldOuter), BoxRight(newOuter), newOuter, leftEdges, rightEdges, true, keyboard);
        newTop := ApplyEdgeSnapping(BoxTop(oldOuter), BoxTop(newOuter), newOuter, topEdges, bottomEdges, false, keyboard);
        newBottom := ApplyEdgeSnapping(BoxBottom(oldOuter), BoxBottom(newOuter), newOuter, topEdges, bottomEdges, false, keyboard);
      } else {
        newLeft := leftData.ApplyEdgeResistance(leftEdges,
          SideRequest(BoxLeft(oldOuter), BoxLeft(newOuter), newOuter, true, keyboard, flags, timers.left));
        newRight := rightData.ApplyEdgeResistance(rightEdges,
          SideRequest(BoxRight(oldOuter), BoxRight(newOuter), newOuter, true, keyboard, flags, timers.right));
        newTop := topData.ApplyEdgeResistance(topEdges,
          SideRequest(BoxTop(oldOuter), BoxTop(newOuter), newOuter, false, keyboard, flags, timers.top));
        newBottom := bottomData.ApplyEdgeResistance(bottomEdges,
          SideRequest(BoxBottom(oldOuter), BoxBottom(newOuter), newOuter, false, keyboard, flags, timers.bottom));
      }
      result := Rect(newLeft, newTop, newRight - newLeft, newBottom - newTop);
      modified := result != newOuter;
    }

    /**
     * meta_window_edge_resistance_for_move: resists the move of a window
     * whose outer rectangle is `oldOuter` from (oldX, oldY) to
     * (newX, newY), and returns the position it may take.
     */
    method EdgeResistanceForMove(flags: WindowFlags, oldOuter: Rect, oldX: int, oldY: int, newX: int, newY: int,
                                 timers: SideTimers, snap: bool, keyboard: bool)
      returns (x: int, y: int)
      requires Valid() && UsableEdges(Edges())
      modifies this, leftData, rightData, topData, bottomData
      ensures Valid() && Edges() == old(Edges()) && lastUserActionWasSnap == snap
      ensures (x, y) == MoveResult(Edges(), old(States()), flags, oldOuter, oldX, oldY, newX, newY, timers, snap, keyboard)
      ensures States() == EachSide(Edges(), old(States()), flags, oldOuter,
                                   Shift(oldOuter, newX - oldX, newY - oldY), timers, snap, keyboard).1
    {
      var proposedOuter := Shift(oldOuter, newX - oldX, newY - oldY);
      lastUserActionWasSnap := snap;
      var modified, newOuter :=
        ApplyEdgeResistanceToEachSide(flags, oldOuter, proposedOuter, timers, snap, keyboard);
      if modified {
        var reconciled := ReconcileMove(oldOuter, proposedOuter, newOuter, oldX, oldY, snap, keyboard);
        x, y := reconciled.0, reconciled.1;
      } else {
        x, y := newX, newY;
      }
    }

    /**
     * meta_window_edge_resistance_for_resize: resists the resize of a window
     * from (oldWidth, oldHeight) to (newWidth, newHeight). `resizedOuter` is
     * the outer rectangle resized about the grab's gravity to the proposed
     * size.
     */
    method EdgeResistanceForResize(flags: WindowFlags, oldOuter: Rect, resizedOuter: Rect,
                                   oldWidth: int, oldHeight: int, newWidth: int, newHeight: int,
                                   timers: SideTimers, snap: bool, keyboard: bool)
      returns (width: int, height: int)
      requires Valid() && UsableEdges(Edges())
      modifies this, leftData, rightData, topData, bottomData
      ensures Valid() && Edges() == old(Edges()) && lastUserActionWasSnap == snap
      ensures (width, height) == ResizeResult(Edges(), old(States()), flags, oldOuter, resizedOuter,
                                              oldWidth, oldHeight, newWidth, newHeight, timers, snap, keyboard)
      ensures States() == EachSide(Edges(), old(States()), flags, oldOuter, resizedOuter, timers, snap, keyboard).1
    {
      lastUserActionWasSnap := snap;
      var modified, newOuter :=
        ApplyEdgeResistanceToEachSide(flags, oldOuter, resizedOuter, timers, snap, keyboard);
      if modified {
        width := oldWidth + (newOuter.width - oldOuter.width);
        height := oldHeight + (newOuter.height - oldOuter.height);
      } else {
        width, height := newWidth, newHeight;
      }
    }
  }
}
