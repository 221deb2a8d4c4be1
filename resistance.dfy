/**
 * Edge resistance for one side of a moving window: the walk over the edges a
 * move passes, with infinite screen-edge resistance, timeout resistance and
 * pixel-distance resistance for the mouse, and energy buildup for the
 * keyboard.
 */
module Resistance {
  import opened Geometry
  import opened Search

  // Pixel distances a mouse move must carry a side past an edge.
  const PixelDistanceThresholdTowardsWindow := 16
  const PixelDistanceThresholdAwayFromWindow := 8
  const PixelDistanceThresholdTowardsMonitor := 32
  const PixelDistanceThresholdAwayFromMonitor := 8
  const PixelDistanceThresholdTowardsScreen := 32
  const PixelDistanceThresholdAwayFromScreen := 8

  // Delays before a mouse move may cross an edge, in milliseconds.
  const TimeoutResistanceLengthMsWindow := 0
  const TimeoutResistanceLengthMsMonitor := 100
  const TimeoutResistanceLengthMsScreen := 750

  // Energy a keyboard move must build up against an edge.
  const KeyboardBuildupThresholdTowardsWindow := 16
  const KeyboardBuildupThresholdAwayFromWindow := 16
  const KeyboardBuildupThresholdTowardsMonitor := 24
  const KeyboardBuildupThresholdAwayFromMonitor := 16
  const KeyboardBuildupThresholdTowardsScreen := 32
  const KeyboardBuildupThresholdAwayFromScreen := 16

  function PixelDistanceThreshold(kind: EdgeKind, towards: bool): int
  {
    match kind
    case WindowEdge => if towards then PixelDistanceThresholdTowardsWindow else PixelDistanceThresholdAwayFromWindow
    case MonitorEdge => if towards then PixelDistanceThresholdTowardsMonitor else PixelDistanceThresholdAwayFromMonitor
    case ScreenEdge => if towards then PixelDistanceThresholdTowardsScreen else PixelDistanceThresholdAwayFromScreen
  }

  /** The delay an edge imposes on a move towards it: only where the window must stay on one monitor or on screen. */
  function TimeoutLengthMs(kind: EdgeKind, flags: WindowFlags): int
  {
    match kind
    case WindowEdge => TimeoutResistanceLengthMsWindow
    case MonitorEdge => if flags.requireOnSingleMonitor then TimeoutResistanceLengthMsMonitor else 0
    case ScreenEdge => if flags.requireFullyOnscreen then TimeoutResistanceLengthMsScreen else 0
  }

  function KeyboardBuildupThreshold(kind: EdgeKind, towards: bool): int
  {
    match kind
    case WindowEdge => if towards then KeyboardBuildupThresholdTowardsWindow else KeyboardBuildupThresholdAwayFromWindow
    case MonitorEdge => if towards then KeyboardBuildupThresholdTowardsMonitor else KeyboardBuildupThresholdAwayFromMonitor
    case ScreenEdge => if towards then KeyboardBuildupThresholdTowardsScreen else KeyboardBuildupThresholdAwayFromScreen
  }

  /**
   * The resistance state of one side. The timeout callback and the window it
   * is called with are not part of the state.
   */
  datatype SideState = SideState(
    timeoutSetup: bool,
    timeoutId: nat,
    timeoutEdgePos: int,
    timeoutOver: bool,
    keyboardBuildup: int,
    allowPastScreenEdge: bool)

  /**
   * One evaluation of one side: the side's old and proposed coordinate, the
   * proposed rectangle, the axis, the input device, the window's
   * requirements, and the id the main loop hands out if a timer is armed.
   */
  datatype Request = Request(
    oldPos: int,
    newPos: int,
    newRect: Rect,
    horizontal: bool,
    keyboard: bool,
    flags: WindowFlags,
    timerId: nat)

  /** The coordinate the side is allowed to take, and the side's new state. */
  datatype Outcome = Outcome(pos: int, state: SideState)

  /** What visiting one edge does: stop the side there, or let it pass. */
  datatype Visit = Stop(pos: int, state: SideState) | Pass(state: SideState, lastPassed: Option<int>)

  predicate Increasing(req: Request) { req.newPos > req.oldPos }

  function Increment(req: Request): int { if Increasing(req) then 1 else -1 }

  /** A timer armed for an edge that both the old and the new position lie strictly beyond is removed. */
  function DropStaleTimeout(st: SideState, oldPos: int, newPos: int): (r: SideState)
    ensures r.timeoutSetup <==>
      st.timeoutSetup &&
      (oldPos <= st.timeoutEdgePos || newPos <= st.timeoutEdgePos) &&
      (st.timeoutEdgePos <= oldPos || st.timeoutEdgePos <= newPos)
    ensures r.timeoutSetup == st.timeoutSetup ==> r == st
    ensures r.timeoutSetup != st.timeoutSetup ==> r == st.(timeoutSetup := false, timeoutId := 0)
  {
    if st.timeoutSetup &&
       ((st.timeoutEdgePos > oldPos && st.timeoutEdgePos > newPos) ||
        (st.timeoutEdgePos < oldPos && st.timeoutEdgePos < newPos))
    then st.(timeoutSetup := false, timeoutId := 0)
    else st
  }

  /**
   * The effect of one edge of the scanned range. `lastPassed` is the
   * coordinate of the last edge a keyboard move got past, if any; buildup is
   * kept across edges at that same coordinate.
   */
  function VisitEdge(e: Edge, req: Request, st: SideState, lastPassed: Option<int>): Visit
  {
    var c := Pos(e, req.horizontal);
    var towards := MovementTowardsEdge(e.side, Increment(req));
    if !Aligns(e, req.newRect, req.horizontal) then Pass(st, lastPassed)
    else if req.keyboard then
      var st1 := if lastPassed.Some? && c != lastPassed.value then st.(keyboardBuildup := 0) else st;
      var threshold := KeyboardBuildupThreshold(e.kind, towards) - st1.keyboardBuildup;
      if Abs(c - req.newPos) < threshold then
        Stop(c, st1.(keyboardBuildup :=
          if st1.keyboardBuildup != 0 then st1.keyboardBuildup + Abs(req.newPos - c) else 1))
      else Pass(st1, Some(c))
    else if e.kind == ScreenEdge && !st.allowPastScreenEdge && towards then Stop(c, st)
    else
      var timeout := if towards then TimeoutLengthMs(e.kind, req.flags) else 0;
      var st1 :=
        if towards && !st.timeoutSetup && timeout != 0
        then st.(timeoutSetup := true, timeoutId := req.timerId, timeoutEdgePos := c, timeoutOver := false)
        else st;
      if towards && !st1.timeoutOver && timeout != 0 then Stop(c, st1)
      else if Abs(c - req.newPos) < PixelDistanceThreshold(e.kind, towards) then Stop(c, st1)
      else Pass(st1, lastPassed)
  }

  /** The last passed keyboard edge, from the source's flag and coordinate pair. */
  function Passed(okayToClear: bool, buildupEdge: int): Option<int>
  {
    if okayToClear then Some(buildupEdge) else None
  }

  /** Whether index i is still inside the scanned range that ends at `end`. */
  predicate InScan(req: Request, i: int, end: int)
  {
    if Increasing(req) then i <= end else i >= end
  }

  /**
   * The walk from index i to `end` in the direction of the move; it ends at
   * the first edge that stops the side, or lets the side reach the proposed
   * position.
   */
  function Walk(edges: seq<Edge>, req: Request, i: int, end: int, st: SideState, lastPassed: Option<int>): Outcome
    requires Increasing(req) ==> 0 <= i && end < |edges|
    requires !Increasing(req) ==> i < |edges| && 0 <= end
    decreases if Increasing(req) then end - i + 1 else i - end + 1
  {
    if InScan(req, i, end) then
      match VisitEdge(edges[i], req, st, lastPassed)
      case Stop(p, st') => Outcome(p, st')
      case Pass(st', lp) => Walk(edges, req, i + Increment(req), end, st', lp)
    else
      Outcome(req.newPos,
        if lastPassed.Some? && req.newPos != lastPassed.value then st.(keyboardBuildup := 0) else st)
  }

  /** The first index of the scanned range: the edges at or beyond the old position. */
  function ScanBegin(edges: seq<Edge>, req: Request): int
  {
    EdgeIndexNear(edges, req.oldPos, Increasing(req), req.horizontal)
  }

  /** The last index of the scanned range: the edges at or before the proposed position. */
  function ScanEnd(edges: seq<Edge>, req: Request): int
  {
    EdgeIndexNear(edges, req.newPos, !Increasing(req), req.horizontal)
  }

  /** apply_edge_resistance, as a function of the side's state. */
  function Resist(edges: seq<Edge>, req: Request, st: SideState): Outcome
    requires Sorted(edges, req.horizontal)
  {
    if req.oldPos == req.newPos then Outcome(req.newPos, st)
    else
      CountBelowSplits(edges, req.horizontal, req.oldPos);
      CountBelowSplits(edges, req.horizontal, req.newPos);
      CountAtMostSplits(edges, req.horizontal, req.oldPos);
      CountAtMostSplits(edges, req.horizontal, req.newPos);
      Walk(edges, req, ScanBegin(edges, req), ScanEnd(edges, req),
           DropStaleTimeout(st, req.oldPos, req.newPos), None)
  }

  /** The per-side resistance data the grab keeps and every evaluation updates. */
  class ResistanceData {
    var timeoutSetup: bool
    var timeoutId: nat
    var timeoutEdgePos: int
    var timeoutOver: bool
    var keyboardBuildup: int
    var allowPastScreenEdge: bool

    function State(): SideState
      reads this
    {
      SideState(timeoutSetup, timeoutId, timeoutEdgePos, timeoutOver, keyboardBuildup, allowPastScreenEdge)
    }

    constructor ()
      ensures State() == SideState(false, 0, 0, false, 0, true)
    {
      timeoutSetup, timeoutId, timeoutEdgePos, timeoutOver := false, 0, 0, false;
      keyboardBuildup, allowPastScreenEdge := 0, true;
    }

    /** edge_resistance_timeout: the armed delay has elapsed; the timer source is not kept. */
    method Timeout() returns (keepSource: bool)
      modifies this
      ensures !keepSource
      ensures State() == old(State()).(timeoutOver := true, timeoutId := 0)
    {
      timeoutOver := true;
      timeoutId := 0;
      keepSource := false;
    }

    /** One aligned edge met by a keyboard move: energy buildup resistance. */
    method KeyboardStep(edge: Edge, req: Request, okayToClear: bool, buildupEdge: int)
      returns (stopped: bool, okayToClear': bool, buildupEdge': int)
      requires req.keyboard && Aligns(edge, req.newRect, req.horizontal)
      modifies this
      ensures VisitEdge(edge, req, old(State()), Passed(okayToClear, buildupEdge))
           == if stopped then Stop(Pos(edge, req.horizontal), State())
              else Pass(State(), Passed(okayToClear', buildupEdge'))
    {
      var compare := Pos(edge, req.horizontal);
      var towards := MovementTowardsEdge(edge.side, Increment(req));
      var resistance := KeyboardBuildupThreshold(edge.kind, towards);
      okayToClear', buildupEdge' := okayToClear, buildupEdge;
      if okayToClear' && compare != buildupEdge' {
        okayToClear' := false;
        keyboardBuildup := 0;
      }
      var threshold := resistance - keyboardBuildup;
      if Abs(compare - req.newPos) < threshold {
        if keyboardBuildup != 0 {
          keyboardBuildup := keyboardBuildup + Abs(req.newPos - compare);
        } else {
          keyboardBuildup := 1;
        }
        stopped := true;
      } else {
        okayToClear' := true;
        buildupEdge' := compare;
        stopped := false;
      }
    }

    /** One aligned edge met by a mouse move: screen-edge, timeout and pixel-distance resistance. */
    method MouseStep(edge: Edge, req: Request) returns (stopped: bool)
      requires !req.keyboard && Aligns(edge, req.newRect, req.horizontal)
      modifies this
      ensures forall lastPassed: Option<int> ::
        VisitEdge(edge, req, old(State()), lastPassed)
          == if stopped then Stop(Pos(edge, req.horizontal), State()) else Pass(State(), lastPassed)
    {
      var compare := Pos(edge, req.horizontal);
      var towards := MovementTowardsEdge(edge.side, Increment(req));
      if edge.kind == ScreenEdge && !allowPastScreenEdge && towards {
        return true;
      }
      if towards {
        var timeoutLengthMs := TimeoutLengthMs(edge.kind, req.flags);
        if !timeoutSetup && timeoutLengthMs != 0 {
          timeoutId := req.timerId;
          timeoutSetup := true;
          timeoutEdgePos := compare;
          timeoutOver := false;
        }
        if !timeoutOver && timeoutLengthMs != 0 {
          return true;
        }
      }
      var threshold := PixelDistanceThreshold(edge.kind, towards);
      stopped := Abs(compare - req.newPos) < threshold;
    }

    /** The walk of apply_edge_resistance over the edges between `begin` and `end`. */
    method ScanRange(edges: seq<Edge>, req: Request, begin: int, end: int) returns (pos: int)
      requires Increasing(req) ==> 0 <= begin && end < |edges|
      requires !Increasing(req) ==> begin < |edges| && 0 <= end
      modifies this
      ensures Outcome(pos, State()) == Walk(edges, req, begin, end, old(State()), None)
    {
      var okayToClearKeyboardBuildup := false;
      var keyboardBuildupEdge := 0;
      var increasing := req.newPos > req.oldPos;
      var increment := if increasing then 1 else -1;
      ghost var start := State();
      var i := begin;
      while (increasing && i <= end) || (!increasing && i >= end)
        invariant increasing ==> begin <= i && end < |edges|
        invariant !increasing ==> i <= begin && 0 <= end
        invariant Walk(edges, req, i, end, State(), Passed(okayToClearKeyboardBuildup, keyboardBuildupEdge))
               == Walk(edges, req, begin, end, start, None)
        decreases if increasing then end - i + 1 else i - end + 1
      {
        var edge := edges[i];
        if !Aligns(edge, req.newRect, req.horizontal) {
          i := i + increment;
          continue;
        }
        var stopped;
        if req.keyboard {
          stopped, okayToClearKeyboardBuildup, keyboardBuildupEdge :=
            KeyboardStep(edge, req, okayToClearKeyboardBuildup, keyboardBuildupEdge);
        } else {
          stopped := MouseStep(edge, req);
        }
        if stopped {
          return Pos(edge, req.horizontal);
        }
        i := i + increment;
      }

      if okayToClearKeyboardBuildup && req.newPos != keyboardBuildupEdge {
        keyboardBuildup := 0;
      }
      pos := req.newPos;
    }

    /** apply_edge_resistance: where this side may go, updating its resistance state. */
    method ApplyEdgeResistance(edges: seq<Edge>, req: Request) returns (pos: int)
      requires req.oldPos != req.newPos ==> |edges| > 0
      requires Sorted(edges, req.horizontal)
      modifies this
      ensures Outcome(pos, State()) == Resist(edges, req, old(State()))
    {
      var increasing := req.newPos > req.oldPos;

      if req.oldPos == req.newPos {
        return req.newPos;
      }

      if timeoutSetup &&
         ((timeoutEdgePos > req.oldPos && timeoutEdgePos > req.newPos) ||
          (timeoutEdgePos < req.oldPos && timeoutEdgePos < req.newPos)) {
        timeoutSetup := false;
        if timeoutId != 0 {
          timeoutId := 0;
        }
      }

      var begin := FindIndexOfEdgeNearPosition(edges, req.oldPos, increasing, req.horizontal);
      var end := FindIndexOfEdgeNearPosition(edges, req.newPos, !increasing, req.horizontal);
      assert State() == DropStaleTimeout(old(State()), req.oldPos, req.newPos);
      pos := ScanRange(edges, req, begin, end);
    }
  }
}
