/**
 * What edge resistance guarantees: where a side can end up, when an edge
 * holds it, how keyboard energy builds up and resets, and which parts of a
 * side's state an evaluation may change.
 */
module ResistanceProperties {
  import opened Geometry
  import opened Search
  import opened Resistance

  /** Index k lies in the part of the scanned range that starts at i. */
  predicate InRange(req: Request, k: int, i: int, end: int)
  {
    if Increasing(req) then i <= k <= end else end <= k <= i
  }

  /** c lies between a and b, both included. */
  predicate Between(c: int, a: int, b: int)
  {
    (a <= c <= b) || (b <= c <= a)
  }

  predicate WalkDefined(edges: seq<Edge>, req: Request, i: int, end: int)
  {
    (Increasing(req) ==> 0 <= i && end < |edges|) &&
    (!Increasing(req) ==> i < |edges| && 0 <= end)
  }

  /** With no movement, resistance returns the proposed position and leaves the state alone. */
  lemma ResistNoMovement(edges: seq<Edge>, req: Request, st: SideState)
    requires Sorted(edges, req.horizontal) && req.oldPos == req.newPos
    ensures Resist(edges, req, st) == Outcome(req.newPos, st)
  {
  }

  /** The scanned range is exactly the edges whose coordinate lies between the old and the proposed position. */
  lemma ScanRangeIsBetween(edges: seq<Edge>, req: Request)
    requires Sorted(edges, req.horizontal) && req.oldPos != req.newPos
    ensures WalkDefined(edges, req, ScanBegin(edges, req), ScanEnd(edges, req))
    ensures forall k :: 0 <= k < |edges| ==>
      (InRange(req, k, ScanBegin(edges, req), ScanEnd(edges, req)) <==>
       Between(Pos(edges[k], req.horizontal), req.oldPos, req.newPos))
  {
    CountBelowSplits(edges, req.horizontal, req.oldPos);
    CountBelowSplits(edges, req.horizontal, req.newPos);
    CountAtMostSplits(edges, req.horizontal, req.oldPos);
    CountAtMostSplits(edges, req.horizontal, req.newPos);
  }

  /** A walk ends at the proposed position or on the coordinate of an aligned edge it scanned. */
  lemma {:induction false} WalkLandsOnScannedEdge(edges: seq<Edge>, req: Request, i: int, end: int,
                                                  st: SideState, lastPassed: Option<int>)
    requires WalkDefined(edges, req, i, end)
    ensures var o := Walk(edges, req, i, end, st, lastPassed);
      o.pos == req.newPos ||
      exists k :: 0 <= k < |edges| && InRange(req, k, i, end) &&
        Aligns(edges[k], req.newRect, req.horizontal) && Pos(edges[k], req.horizontal) == o.pos
    decreases if Increasing(req) then end - i + 1 else i - end + 1
  {
    if InScan(req, i, end) {
      match VisitEdge(edges[i], req, st, lastPassed)
      case Stop(p, st') =>
        assert InRange(req, i, i, end);
      case Pass(st', lp) =>
        WalkLandsOnScannedEdge(edges, req, i + Increment(req), end, st', lp);
    }
  }

  /**
   * Resistance never carries a side past the proposed position nor back
   * behind where it started, and it either lets the side reach the proposed
   * position or holds it on an aligned edge.
   */
  lemma ResistResultIsEdgeOrTarget(edges: seq<Edge>, req: Request, st: SideState)
    requires Sorted(edges, req.horizontal)
    ensures var r := Resist(edges, req, st).pos;
      Between(r, req.oldPos, req.newPos) &&
      (r == req.newPos ||
       exists k :: 0 <= k < |edges| && Aligns(edges[k], req.newRect, req.horizontal) &&
         Pos(edges[k], req.horizontal) == r)
  {
    if req.oldPos != req.newPos {
      ScanRangeIsBetween(edges, req);
      WalkLandsOnScannedEdge(edges, req, ScanBegin(edges, req), ScanEnd(edges, req),
                             DropStaleTimeout(st, req.oldPos, req.newPos), None);
    }
  }

  // -------------------------------------------------------------------
  // Mouse moves

  /**
   * Whether an edge holds a mouse move: it aligns, and it is a screen edge
   * that may not be crossed, or it imposes a delay that has not yet
   * elapsed (an elapsed delay is one whose timer is set up and over), or
   * the proposed position is within the pixel threshold of it.
   */
  predicate MouseStops(e: Edge, req: Request, st: SideState)
  {
    var towards := MovementTowardsEdge(e.side, Increment(req));
    Aligns(e, req.newRect, req.horizontal) &&
    ((e.kind == ScreenEdge && !st.allowPastScreenEdge && towards) ||
     (towards && TimeoutLengthMs(e.kind, req.flags) != 0 && !(st.timeoutSetup && st.timeoutOver)) ||
     Abs(Pos(e, req.horizontal) - req.newPos) < PixelDistanceThreshold(e.kind, towards))
  }

  /** A mouse move stops at an edge exactly when the edge holds it, and passing an edge changes nothing. */
  lemma MouseVisit(e: Edge, req: Request, st: SideState, lastPassed: Option<int>)
    requires !req.keyboard
    ensures VisitEdge(e, req, st, lastPassed).Stop? <==> MouseStops(e, req, st)
    ensures VisitEdge(e, req, st, lastPassed).Stop? ==> VisitEdge(e, req, st, lastPassed).pos == Pos(e, req.horizontal)
    ensures VisitEdge(e, req, st, lastPassed).Pass? ==> VisitEdge(e, req, st, lastPassed) == Pass(st, lastPassed)
  {
  }

  lemma {:induction false} WalkMouseHeld(edges: seq<Edge>, req: Request, i: int, end: int,
                                         st: SideState, lastPassed: Option<int>, k: int)
    requires !req.keyboard && Sorted(edges, req.horizontal) && WalkDefined(edges, req, i, end)
    requires 0 <= k < |edges| && InRange(req, k, i, end) && MouseStops(edges[k], req, st)
    ensures Increasing(req) ==> Walk(edges, req, i, end, st, lastPassed).pos <= Pos(edges[k], req.horizontal)
    ensures !Increasing(req) ==> Walk(edges, req, i, end, st, lastPassed).pos >= Pos(edges[k], req.horizontal)
    decreases if Increasing(req) then end - i + 1 else i - end + 1
  {
    MouseVisit(edges[i], req, st, lastPassed);
    if VisitEdge(edges[i], req, st, lastPassed).Pass? {
      WalkMouseHeld(edges, req, i + Increment(req), end, st, lastPassed, k);
    }
  }

  /** A mouse walk that stops short of the proposed position stops on the coordinate of an edge that holds it. */
  lemma {:induction false} WalkMouseStopsOnHolder(edges: seq<Edge>, req: Request, i: int, end: int,
                                                  st: SideState, lastPassed: Option<int>)
    requires !req.keyboard && WalkDefined(edges, req, i, end)
    ensures var o := Walk(edges, req, i, end, st, lastPassed);
      o.pos == req.newPos ||
      exists k :: 0 <= k < |edges| && InRange(req, k, i, end) && MouseStops(edges[k], req, st) &&
        Pos(edges[k], req.horizontal) == o.pos
    decreases if Increasing(req) then end - i + 1 else i - end + 1
  {
    if InScan(req, i, end) {
      MouseVisit(edges[i], req, st, lastPassed);
      if VisitEdge(edges[i], req, st, lastPassed).Stop? {
        assert InRange(req, i, i, end);
      } else {
        WalkMouseStopsOnHolder(edges, req, i + Increment(req), end, st, lastPassed);
      }
    }
  }

  lemma {:induction false} WalkMousePasses(edges: seq<Edge>, req: Request, i: int, end: int, st: SideState)
    requires !req.keyboard && WalkDefined(edges, req, i, end)
    requires forall k :: 0 <= k < |edges| && InRange(req, k, i, end) ==> !MouseStops(edges[k], req, st)
    ensures Walk(edges, req, i, end, st, None) == Outcome(req.newPos, st)
    decreases if Increasing(req) then end - i + 1 else i - end + 1
  {
    if InScan(req, i, end) {
      assert InRange(req, i, i, end);
      MouseVisit(edges[i], req, st, None);
      WalkMousePasses(edges, req, i + Increment(req), end, st);
    }
  }

  /**
   * An edge that holds a mouse move (infinite screen-edge resistance, an
   * unexpired delay, or the pixel threshold) keeps the side from getting
   * past it: the side ends on it or on an edge met before it.
   */
  lemma ResistMouseHeld(edges: seq<Edge>, req: Request, st: SideState, k: int)
    requires Sorted(edges, req.horizontal) && !req.keyboard && req.oldPos != req.newPos
    requires 0 <= k < |edges| && Between(Pos(edges[k], req.horizontal), req.oldPos, req.newPos)
    requires MouseStops(edges[k], req, DropStaleTimeout(st, req.oldPos, req.newPos))
    ensures Increasing(req) ==> Resist(edges, req, st).pos <= Pos(edges[k], req.horizontal)
    ensures !Increasing(req) ==> Resist(edges, req, st).pos >= Pos(edges[k], req.horizontal)
  {
    ScanRangeIsBetween(edges, req);
    WalkMouseHeld(edges, req, ScanBegin(edges, req), ScanEnd(edges, req),
                  DropStaleTimeout(st, req.oldPos, req.newPos), None, k);
  }

  /**
   * A mouse move that resistance stops short of the proposed position is
   * stopped exactly on an edge between the old and the proposed position
   * that holds it; with ResistMouseHeld, it is the first such edge.
   */
  lemma ResistMouseStopsOnHolder(edges: seq<Edge>, req: Request, st: SideState)
    requires Sorted(edges, req.horizontal) && !req.keyboard
    ensures var r := Resist(edges, req, st).pos;
      r == req.newPos ||
      exists k :: 0 <= k < |edges| && Between(Pos(edges[k], req.horizontal), req.oldPos, req.newPos) &&
        MouseStops(edges[k], req, DropStaleTimeout(st, req.oldPos, req.newPos)) &&
        Pos(edges[k], req.horizontal) == r
  {
    if req.oldPos != req.newPos {
      ScanRangeIsBetween(edges, req);
      WalkMouseStopsOnHolder(edges, req, ScanBegin(edges, req), ScanEnd(edges, req),
                             DropStaleTimeout(st, req.oldPos, req.newPos), None);
    }
  }

  /** When no edge between the old and the proposed position holds a mouse move, the move goes through. */
  lemma ResistMousePasses(edges: seq<Edge>, req: Request, st: SideState)
    requires Sorted(edges, req.horizontal) && !req.keyboard && req.oldPos != req.newPos
    requires forall k :: 0 <= k < |edges| && Between(Pos(edges[k], req.horizontal), req.oldPos, req.newPos) ==>
      !MouseStops(edges[k], req, DropStaleTimeout(st, req.oldPos, req.newPos))
    ensures Resist(edges, req, st) == Outcome(req.newPos, DropStaleTimeout(st, req.oldPos, req.newPos))
  {
    ScanRangeIsBetween(edges, req);
    WalkMousePasses(edges, req, ScanBegin(edges, req), ScanEnd(edges, req),
                    DropStaleTimeout(st, req.oldPos, req.newPos));
  }

  /**
   * A mouse walk changes nothing but, when no timer is set up, arming one
   * for the edge it stops at, not yet elapsed and carrying the id the main
   * loop handed out.
   */
  lemma {:induction false} WalkMouseState(edges: seq<Edge>, req: Request, i: int, end: int, st: SideState)
    requires !req.keyboard && WalkDefined(edges, req, i, end)
    ensures var o := Walk(edges, req, i, end, st, None);
      o.state == st ||
      (!st.timeoutSetup &&
       o.state == st.(timeoutSetup := true, timeoutId := req.timerId, timeoutEdgePos := o.pos, timeoutOver := false))
    decreases if Increasing(req) then end - i + 1 else i - end + 1
  {
    if InScan(req, i, end) {
      MouseVisit(edges[i], req, st, None);
      if VisitEdge(edges[i], req, st, None).Pass? {
        WalkMouseState(edges, req, i + Increment(req), end, st);
      }
    }
  }

  // -------------------------------------------------------------------
  // Keyboard moves

  /**
   * A keyboard walk changes only the buildup; with a non-negative buildup
   * it stays non-negative, and a walk that ends short of the proposed
   * position has left at least 1 of buildup.
   */
  lemma {:induction false} WalkKeyboardBuildup(edges: seq<Edge>, req: Request, i: int, end: int,
                                               st: SideState, lastPassed: Option<int>)
    requires req.keyboard && WalkDefined(edges, req, i, end) && st.keyboardBuildup >= 0
    ensures var o := Walk(edges, req, i, end, st, lastPassed);
      o.state == st.(keyboardBuildup := o.state.keyboardBuildup) &&
      o.state.keyboardBuildup >= 0 &&
      (o.pos != req.newPos ==> o.state.keyboardBuildup >= 1)
    decreases if Increasing(req) then end - i + 1 else i - end + 1
  {
    if InScan(req, i, end) {
      match VisitEdge(edges[i], req, st, lastPassed)
      case Stop(p, st') =>
      case Pass(st', lp) =>
        WalkKeyboardBuildup(edges, req, i + Increment(req), end, st', lp);
    }
  }

  /**
   * A keyboard move that has passed no edge yet and meets an aligned edge
   * below its energy threshold stops exactly there; the buildup becomes 1 if
   * it was 0 and otherwise grows by the distance still to go, so repeated
   * nudges against the same edge strictly increase it.
   */
  lemma {:induction false} WalkKeyboardBlocked(edges: seq<Edge>, req: Request, i: int, end: int,
                                               st: SideState, k: int)
    requires req.keyboard && WalkDefined(edges, req, i, end)
    requires 0 <= k < |edges| && InRange(req, k, i, end)
    requires forall j :: 0 <= j < |edges| && InRange(req, j, i, end) && !InRange(req, j, k, end) ==>
      !Aligns(edges[j], req.newRect, req.horizontal)
    requires Aligns(edges[k], req.newRect, req.horizontal)
    requires Abs(Pos(edges[k], req.horizontal) - req.newPos) <
      KeyboardBuildupThreshold(edges[k].kind, MovementTowardsEdge(edges[k].side, Increment(req))) - st.keyboardBuildup
    ensures var c := Pos(edges[k], req.horizontal);
      Walk(edges, req, i, end, st, None) ==
        Outcome(c, st.(keyboardBuildup :=
          if st.keyboardBuildup != 0 then st.keyboardBuildup + Abs(req.newPos - c) else 1))
    ensures st.keyboardBuildup > 0 && Pos(edges[k], req.horizontal) != req.newPos ==>
      Walk(edges, req, i, end, st, None).state.keyboardBuildup > st.keyboardBuildup
    decreases if Increasing(req) then end - i + 1 else i - end + 1
  {
    if i != k {
      assert InRange(req, i, i, end) && !InRange(req, i, k, end);
      WalkKeyboardBlocked(edges, req, i + Increment(req), end, st, k);
    }
  }

  /**
   * Whether an edge can hold a keyboard move at all: it aligns, and the
   * proposed position is within the edge's energy threshold of it. Buildup
   * only lowers that threshold.
   */
  predicate KeyboardHolds(e: Edge, req: Request)
  {
    Aligns(e, req.newRect, req.horizontal) &&
    Abs(Pos(e, req.horizontal) - req.newPos) <
      KeyboardBuildupThreshold(e.kind, MovementTowardsEdge(e.side, Increment(req)))
  }

  /**
   * With a non-negative buildup, a keyboard move stops only at an edge that
   * can hold it, on its coordinate, and passing an edge keeps the buildup
   * non-negative.
   */
  lemma KeyboardVisit(e: Edge, req: Request, st: SideState, lastPassed: Option<int>)
    requires req.keyboard && st.keyboardBuildup >= 0
    ensures VisitEdge(e, req, st, lastPassed).Stop? ==>
      KeyboardHolds(e, req) && VisitEdge(e, req, st, lastPassed).pos == Pos(e, req.horizontal)
    ensures VisitEdge(e, req, st, lastPassed).Pass? ==>
      VisitEdge(e, req, st, lastPassed).state.keyboardBuildup >= 0
  {
  }

  /** A keyboard walk that meets no edge able to hold it reaches the proposed position. */
  lemma {:induction false} WalkKeyboardPasses(edges: seq<Edge>, req: Request, i: int, end: int,
                                              st: SideState, lastPassed: Option<int>)
    requires req.keyboard && WalkDefined(edges, req, i, end) && st.keyboardBuildup >= 0
    requires forall k :: 0 <= k < |edges| && InRange(req, k, i, end) ==> !KeyboardHolds(edges[k], req)
    ensures Walk(edges, req, i, end, st, lastPassed).pos == req.newPos
    decreases if Increasing(req) then end - i + 1 else i - end + 1
  {
    if InScan(req, i, end) {
      assert InRange(req, i, i, end);
      KeyboardVisit(edges[i], req, st, lastPassed);
      match VisitEdge(edges[i], req, st, lastPassed)
      case Pass(st', lp) =>
        WalkKeyboardPasses(edges, req, i + Increment(req), end, st', lp);
    }
  }

  /** A keyboard walk that stops short of the proposed position stops on the coordinate of an edge able to hold it. */
  lemma {:induction false} WalkKeyboardStopsOnHolder(edges: seq<Edge>, req: Request, i: int, end: int,
                                                     st: SideState, lastPassed: Option<int>)
    requires req.keyboard && WalkDefined(edges, req, i, end) && st.keyboardBuildup >= 0
    ensures var o := Walk(edges, req, i, end, st, lastPassed);
      o.pos == req.newPos ||
      exists k :: 0 <= k < |edges| && InRange(req, k, i, end) && KeyboardHolds(edges[k], req) &&
        Pos(edges[k], req.horizontal) == o.pos
    decreases if Increasing(req) then end - i + 1 else i - end + 1
  {
    if InScan(req, i, end) {
      KeyboardVisit(edges[i], req, st, lastPassed);
      match VisitEdge(edges[i], req, st, lastPassed)
      case Stop(p, st') =>
        assert InRange(req, i, i, end);
      case Pass(st', lp) =>
        WalkKeyboardStopsOnHolder(edges, req, i + Increment(req), end, st', lp);
    }
  }

  /**
   * A keyboard move with non-negative buildup goes through when no edge
   * between the old and the proposed position is within its energy
   * threshold of the proposed position.
   */
  lemma ResistKeyboardPasses(edges: seq<Edge>, req: Request, st: SideState)
    requires Sorted(edges, req.horizontal) && req.keyboard && st.keyboardBuildup >= 0
    requires forall k :: 0 <= k < |edges| && Between(Pos(edges[k], req.horizontal), req.oldPos, req.newPos) ==>
      !KeyboardHolds(edges[k], req)
    ensures Resist(edges, req, st).pos == req.newPos
  {
    if req.oldPos != req.newPos {
      ScanRangeIsBetween(edges, req);
      WalkKeyboardPasses(edges, req, ScanBegin(edges, req), ScanEnd(edges, req),
                         DropStaleTimeout(st, req.oldPos, req.newPos), None);
    }
  }

  /**
   * A keyboard move that resistance stops short of the proposed position is
   * stopped exactly on an edge between the old and the proposed position
   * that is within its energy threshold of the proposed position.
   */
  lemma ResistKeyboardStopsOnHolder(edges: seq<Edge>, req: Request, st: SideState)
    requires Sorted(edges, req.horizontal) && req.keyboard && st.keyboardBuildup >= 0
    ensures var r := Resist(edges, req, st).pos;
      r == req.newPos ||
      exists k :: 0 <= k < |edges| && Between(Pos(edges[k], req.horizontal), req.oldPos, req.newPos) &&
        KeyboardHolds(edges[k], req) && Pos(edges[k], req.horizontal) == r
  {
    if req.oldPos != req.newPos {
      ScanRangeIsBetween(edges, req);
      WalkKeyboardStopsOnHolder(edges, req, ScanBegin(edges, req), ScanEnd(edges, req),
                                DropStaleTimeout(st, req.oldPos, req.newPos), None);
    }
  }

  /**
   * Buildup survives edges at the coordinate it was built on, is reset when
   * a passed keyboard move meets an aligned edge elsewhere, and is reset when
   * the scan ends away from the last edge passed.
   */
  lemma KeyboardBuildupReset(e: Edge, req: Request, st: SideState, p: int)
    requires req.keyboard && Aligns(e, req.newRect, req.horizontal)
    ensures Pos(e, req.horizontal) == p ==> VisitEdge(e, req, st, Some(p)) == VisitEdge(e, req, st, None)
    ensures Pos(e, req.horizontal) != p ==>
      VisitEdge(e, req, st, Some(p)) == VisitEdge(e, req, st.(keyboardBuildup := 0), None)
    ensures forall edges: seq<Edge>, i: int, end: int ::
      WalkDefined(edges, req, i, end) && !InScan(req, i, end) && req.newPos != p ==>
        Walk(edges, req, i, end, st, Some(p)) == Outcome(req.newPos, st.(keyboardBuildup := 0))
  {
  }

  /** Neither mode changes whether the side may cross the screen edge; that is fixed for the grab. */
  lemma ResistKeepsScreenEdgePolicy(edges: seq<Edge>, req: Request, st: SideState)
    requires Sorted(edges, req.horizontal) && st.keyboardBuildup >= 0
    ensures Resist(edges, req, st).state.allowPastScreenEdge == st.allowPastScreenEdge
    ensures Resist(edges, req, st).state.keyboardBuildup >= 0
  {
    if req.oldPos != req.newPos {
      ScanRangeIsBetween(edges, req);
      var st1 := DropStaleTimeout(st, req.oldPos, req.newPos);
      if req.keyboard {
        WalkKeyboardBuildup(edges, req, ScanBegin(edges, req), ScanEnd(edges, req), st1, None);
      } else {
        WalkMouseState(edges, req, ScanBegin(edges, req), ScanEnd(edges, req), st1);
      }
    }
  }
}
