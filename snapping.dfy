/**
 * Edge snapping: instead of resisting, a side jumps to the nearest aligned
 * edge of either of two edge sets.
 */
module Snapping {
  import opened Geometry
  import opened Search

  /** Mouse moves shorter than this never snap further than this. */
  const SnapJitterPixels := 8

  /** The candidate closer to `newPos`, pos2 when both are equally close. */
  function Closer(pos1: int, pos2: int, newPos: int): (r: int)
    ensures r == pos1 || r == pos2
    ensures Abs(r - newPos) <= Abs(pos1 - newPos) && Abs(r - newPos) <= Abs(pos2 - newPos)
    ensures Abs(pos1 - newPos) == Abs(pos2 - newPos) ==> r == pos2
  {
    if Abs(pos1 - newPos) < Abs(pos2 - newPos) then pos1 else pos2
  }

  /**
   * The choice apply_edge_snapping makes between pos1 and pos2, the nearest
   * positions found in the two edge sets.
   */
  function ChooseSnap(oldPos: int, newPos: int, pos1: int, pos2: int, keyboard: bool): (r: int)
    ensures oldPos == newPos ==> r == newPos
    ensures oldPos != newPos ==> r == oldPos || r == pos1 || r == pos2
    // Keyboard: a candidate that does not lie ahead of the old position is discarded for the other.
    ensures keyboard && oldPos != newPos && !PointsOnSameSide(oldPos, pos1, newPos) ==> r == pos2
    ensures (keyboard && oldPos != newPos && PointsOnSameSide(oldPos, pos1, newPos) &&
             !PointsOnSameSide(oldPos, pos2, newPos)) ==> r == pos1
    // Keyboard: whenever some candidate lies ahead, the snap goes ahead.
    ensures (keyboard && oldPos != newPos &&
             (PointsOnSameSide(oldPos, pos1, newPos) || PointsOnSameSide(oldPos, pos2, newPos))) ==>
      PointsOnSameSide(oldPos, r, newPos)
    // Otherwise the closer candidate wins, pos2 on a tie.
    ensures (oldPos != newPos &&
             (keyboard ==> PointsOnSameSide(oldPos, pos1, newPos) && PointsOnSameSide(oldPos, pos2, newPos)) &&
             (!keyboard ==> Abs(newPos - oldPos) >= SnapJitterPixels)) ==>
      (r == pos1 || r == pos2) &&
      Abs(r - newPos) <= Abs(pos1 - newPos) && Abs(r - newPos) <= Abs(pos2 - newPos) &&
      (Abs(pos1 - newPos) == Abs(pos2 - newPos) ==> r == pos2)
    // Mouse: a move shorter than the jitter distance never snaps that far or further.
    ensures !keyboard && Abs(newPos - oldPos) < SnapJitterPixels ==> Abs(r - oldPos) < SnapJitterPixels
    // Mouse: a short move snaps to the closer candidate when it is within the jitter distance
    // of the old position, and otherwise stays at the old position.
    ensures !keyboard && 0 < Abs(newPos - oldPos) < SnapJitterPixels ==>
      (Abs(Closer(pos1, pos2, newPos) - oldPos) < SnapJitterPixels ==> r == Closer(pos1, pos2, newPos)) &&
      (Abs(Closer(pos1, pos2, newPos) - oldPos) >= SnapJitterPixels ==> r == oldPos)
  {
    if oldPos == newPos then newPos
    else if keyboard && !PointsOnSameSide(oldPos, pos1, newPos) then pos2
    else if keyboard && !PointsOnSameSide(oldPos, pos2, newPos) then pos1
    else
      var best := Closer(pos1, pos2, newPos);
      if !keyboard && Abs(best - oldPos) >= SnapJitterPixels && Abs(newPos - oldPos) < SnapJitterPixels
      then oldPos
      else best
  }

  /** The position one side snaps to, looking at two edge sets. */
  function SnapSide(oldPos: int, newPos: int, newRect: Rect, edges1: seq<Edge>, edges2: seq<Edge>,
                    horizontal: bool, keyboard: bool): int
  {
    ChooseSnap(oldPos, newPos,
               NearestPosition(edges1, newPos, oldPos, newRect, horizontal, keyboard),
               NearestPosition(edges2, newPos, oldPos, newRect, horizontal, keyboard),
               keyboard)
  }

  /** A snapped side stays put, keeps the proposed position, or lands on an edge aligned with the window. */
  lemma SnapLandsOnEdge(oldPos: int, newPos: int, newRect: Rect, edges1: seq<Edge>, edges2: seq<Edge>,
                        horizontal: bool, keyboard: bool)
    ensures var r := SnapSide(oldPos, newPos, newRect, edges1, edges2, horizontal, keyboard);
      r == newPos || r == oldPos ||
      (exists k :: 0 <= k < |edges1| && Pos(edges1[k], horizontal) == r &&
         Eligible(edges1[k], newPos, oldPos, newRect, horizontal, keyboard)) ||
      (exists k :: 0 <= k < |edges2| && Pos(edges2[k], horizontal) == r &&
         Eligible(edges2[k], newPos, oldPos, newRect, horizontal, keyboard))
  {
    NearestPositionIsClosest(edges1, newPos, oldPos, newRect, horizontal, keyboard);
    NearestPositionIsClosest(edges2, newPos, oldPos, newRect, horizontal, keyboard);
  }

  /** apply_edge_snapping */
  method ApplyEdgeSnapping(oldPos: int, newPos: int, newRect: Rect, edges1: seq<Edge>, edges2: seq<Edge>,
                           horizontal: bool, keyboard: bool) returns (r: int)
    ensures r == SnapSide(oldPos, newPos, newRect, edges1, edges2, horizontal, keyboard)
  {
    if oldPos == newPos {
      return newPos;
    }
    var pos1 := FindNearestPosition(edges1, newPos, oldPos, newRect, horizontal, keyboard);
    var pos2 := FindNearestPosition(edges2, newPos, oldPos, newRect, horizontal, keyboard);
    if keyboard {
      if !PointsOnSameSide(oldPos, pos1, newPos) {
        return pos2;
      }
      if !PointsOnSameSide(oldPos, pos2, newPos) {
        return pos1;
      }
    }
    var best := Closer(pos1, pos2, newPos);
    if !keyboard && Abs(best - oldPos) >= SnapJitterPixels && Abs(newPos - oldPos) < SnapJitterPixels {
      r := oldPos;
    } else {
      r := best;
    }
  }
}
