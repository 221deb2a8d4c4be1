# Edge resistance and snapping (Metacity), modelled in Dafny

This project models the edge resistance and snapping engine of the Metacity
window manager (`src/edge-resistance.c`). While the user moves or resizes a
window with the mouse or the keyboard, the engine decides where each side of
the window may go. It works from the edges of other windows, of monitors
("xinerama" in the source) and of the screen. Each edge is a zero-width or
zero-height rectangle with a side (left, right, top, bottom) and a kind
(window, monitor, screen).

The model has six modules:

- `Geometry` (geometry.dfy): rectangles, edges, the `BOX_*` sides, perpendicular overlap, the sortedness invariant of an edge array, `movement_towards_edge` and `points_on_same_side`.
- `Search` (search.dfy): the range search `find_index_of_edge_near_position` and the nearest-aligned-edge search `find_nearest_position`. The latter is modelled both as written and corrected (see Findings).
- `Resistance` (resistance.dfy): one side's resistance state as a class `ResistanceData`, with the timer callback and `apply_edge_resistance`. Each method is proved against the spec function `Resist` (a `Walk` over the scanned edges).
- `ResistanceProperties` (resistance_properties.dfy): what `Resist` guarantees for mouse and keyboard moves.
- `Snapping` (snapping.dfy): `apply_edge_snapping`.
- `Grab` (grab.dfy): the per-grab `EdgeCache` class, which covers:
  - `cache_edges`;
  - `initialize_grab_edge_resistance_data`;
  - `apply_edge_resistance_to_each_side`;
  - the move and resize reconciliation of `meta_window_edge_resistance_for_move` / `_for_resize`;
  - the spec functions `EachSide`, `MoveResult` and `ResizeResult` that those methods are proved against.

Inputs the engine takes from its surroundings become parameters:

- the window's outer rectangle;
- the id `g_timeout_add` would return for a timer armed on a side (`Request.timerId`, `SideTimers`);
- the window's `require_on_single_xinerama` / `require_fully_onscreen` flags (`WindowFlags`);
- the grab anchor (`GrabAnchor`);
- for a resize, the rectangle that `meta_rectangle_resize_with_gravity` produces.

## Model

| member | source | states |
|---|---|---|
| Geometry.SameSideMeaning | src/edge-resistance.c:167-171 | The product sign test holds exactly when both points are strictly above the reference or both strictly below it |
| Search.CountBelowSplits | src/edge-resistance.c:121-142 | On a sorted array the "first index at or above position" answer is at most len, every edge before it is below the position and every edge from it on is at or above |
| Search.CountAtMostSplits | src/edge-resistance.c:143-164 | On a sorted array the "last index at or below position" answer splits it into edges at most the position and edges above it |
| Search.CountBelowIsBoundary | src/edge-resistance.c:121-142 | The answer is the unique split point: any index with that split property equals it |
| Search.CountAtMostIsBoundary | src/edge-resistance.c:143-164 | Same uniqueness for the interval-max answer |
| Search.ApproximateIndex | src/edge-resistance.c:89-119 | The binary-search phase ends at an index inside the array, the one the halving recursion `BinarySearchMid` reaches; on a sorted array that index holds the position itself or is at most two indices from the first index at or above the position, the closeness the linear phase relies on |
| Search.Midpoint | src/edge-resistance.c:101 | The probe index `low + (high - low)/2` lies in [low, high) whenever low < high |
| Search.BinarySearchMidIsNear | src/edge-resistance.c:96-119 | On a sorted array, while the first index at or above the position stays inside [low, high + 1] and the last probe is next to that window or inside it, the search ends on an equal coordinate or within two indices of that first index |
| Search.BinarySearchIsNear | src/edge-resistance.c:96-119 | On a sorted non-empty array the whole binary-search phase ends on an equal coordinate or within two indices of the first index at or above the position |
| Search.CountBelowAt | src/edge-resistance.c:108-111 | On a sorted array a probe at or above the position bounds the first such index from above, and a probe below it bounds it from below |
| Search.FindIndexOfEdgeNearPosition | src/edge-resistance.c:65-165 | With want_interval_min, returns the smallest index whose coordinate is at least the position (len if none); otherwise the largest index whose coordinate is at most the position (-1 if none); duplicates resolve to the boundary of their run |
| Search.WalkToFirstAtOrAbove | src/edge-resistance.c:121-142 | From any start index the two linear walks reach the first index at or above the position, or len |
| Search.WalkToLastAtOrBelow | src/edge-resistance.c:143-164 | From any start index the two linear walks reach the last index at or below the position, or -1 |
| Search.RangeSearchExample500Min | src/edge-resistance.c:70-84 | Worked example of the header comment on the array 3 27 316 316 316 505 522 800 1213: (500, want_interval_min) is 5: 505 at index 5 is the first value above 500 |
| Search.RangeSearchExample805Max | src/edge-resistance.c:70-84 | Worked example of the header comment on the array 3 27 316 316 316 505 522 800 1213: (805, not want_interval_min) is 7: 800 at index 7 is the last value at most 805 |
| Search.RangeSearchExample316Min | src/edge-resistance.c:70-84 | Worked example of the header comment on the array 3 27 316 316 316 505 522 800 1213: (316, want_interval_min) is 2, the start of the run of 316s |
| Search.RangeSearchExample316Max | src/edge-resistance.c:70-84 | Worked example of the header comment on the array 3 27 316 316 316 505 522 800 1213: (316, not want_interval_min) is 4, the end of the run of 316s |
| Search.RangeSearchExample2Max | src/edge-resistance.c:70-84 | Worked example of the header comment on the array 3 27 316 316 316 505 522 800 1213: (2, not want_interval_min) is -1: no value is at most 2 |
| Search.RangeSearchExample2000Min | src/edge-resistance.c:70-84 | Worked example of the header comment on the array 3 27 316 316 316 505 522 800 1213: (2000, want_interval_min) is 9, the length: no value is at least 2000 |
| Search.FindNearestPositionAsWritten | src/edge-resistance.c:173-290 | The search as written returns the old position or the coordinate of an eligible (aligned, and for keyboard not behind) edge |
| Search.NearestAsWrittenIsCandidate | src/edge-resistance.c:220-289 | The as-written result is the old position or an eligible edge's coordinate |
| Search.NearestAsWrittenMissesCloserEdge | src/edge-resistance.c:240-262 | Counterexample: with aligned edges at 10, 20, 150, 160, 170 and target 100, the search returns 20 although the eligible edge at 150 is closer |
| Search.NearestPositionIsClosest | src/edge-resistance.c:173-290 | The corrected search returns the old position when no edge is eligible, otherwise an eligible edge coordinate no farther from the target than any other eligible edge |
| Search.NearestPositionFindsCloserEdge | src/edge-resistance.c:173-290 | On the counterexample input the corrected search returns 150 |
| Search.FindNearestPosition | src/edge-resistance.c:173-290 | The corrected loop computes `NearestPosition`, the closest eligible edge |
| Resistance.DropStaleTimeout | src/edge-resistance.c:357-370 | A timer stays armed exactly when it was armed and its edge is not strictly beyond both the old and the new position; a disarmed timer has id 0 and nothing else changes |
| Resistance.ResistanceData.constructor | src/edge-resistance.c:962-979 | A fresh side state as a grab starts it for the left, right and bottom sides: no timer, no buildup, may cross the screen edge (the top side's screen-edge policy is set by `Grab.EdgeCache.Initialize`) |
| Resistance.ResistanceData.Timeout | src/edge-resistance.c:308-318 | The timer callback marks the delay as over, clears the id, and does not keep the timer source |
| Resistance.ResistanceData.KeyboardStep | src/edge-resistance.c:399-466 | One aligned edge of a keyboard move: buildup reset at a new coordinate, stop below the threshold with the buildup update, otherwise pass and remember the coordinate, as `VisitEdge` says |
| Resistance.ResistanceData.MouseStep | src/edge-resistance.c:467-557 | One aligned edge of a mouse move: infinite screen-edge resistance, arming and honouring the timeout, then the pixel threshold, as `VisitEdge` says |
| Resistance.ResistanceData.ScanRange | src/edge-resistance.c:376-569 | The loop over the scanned range yields the position and state of `Walk`, including the final buildup reset |
| Resistance.ResistanceData.ApplyEdgeResistance | src/edge-resistance.c:320-570 | The position and new state are those of `Resist` on the old state |
| ResistanceProperties.ResistNoMovement | src/edge-resistance.c:353-355 | With no movement the proposed position is returned and the state is untouched |
| ResistanceProperties.ScanRangeIsBetween | src/edge-resistance.c:372-380 | The indices scanned stay inside the array and are exactly the edges whose coordinate lies between the old and the new position |
| ResistanceProperties.WalkLandsOnScannedEdge | src/edge-resistance.c:376-569 | A walk ends at the proposed position or at the coordinate of an aligned edge inside the scanned range |
| ResistanceProperties.ResistResultIsEdgeOrTarget | src/edge-resistance.c:320-570 | The result lies between the old and the new position and is the new position or an aligned edge's coordinate |
| ResistanceProperties.MouseVisit | src/edge-resistance.c:467-557 | A mouse move stops at an edge exactly when `MouseStops` (screen edge not to be crossed, pending timeout, or within the pixel threshold), stops at its coordinate, and passing changes nothing |
| ResistanceProperties.WalkMouseHeld | src/edge-resistance.c:376-561 | A holding edge in the rest of the scan keeps the mouse walk at or before it |
| ResistanceProperties.ResistMouseHeld | src/edge-resistance.c:474-556 | Any edge between the old and new position that holds a mouse move keeps the side at or before it |
| ResistanceProperties.WalkMouseStopsOnHolder | src/edge-resistance.c:376-561 | A mouse walk that does not reach the proposed position ends on the coordinate of a scanned edge that holds the move |
| ResistanceProperties.ResistMouseStopsOnHolder | src/edge-resistance.c:474-556 | A mouse move held short of the proposed position is held exactly on an edge between the old and the proposed position that holds it; with `ResistMouseHeld`, on the first such edge |
| ResistanceProperties.WalkMousePasses | src/edge-resistance.c:376-569 | With no holding edge in the rest of the scan the mouse walk reaches the proposed position with the state unchanged |
| ResistanceProperties.ResistMousePasses | src/edge-resistance.c:357-569 | With no holding edge between old and new position the side reaches the proposed position and only the stale timer is dropped |
| ResistanceProperties.WalkMouseState | src/edge-resistance.c:504-516 | A mouse walk leaves the state alone or, if no timer was armed, arms one for the stopping coordinate with the id handed out and not over |
| ResistanceProperties.WalkKeyboardBuildup | src/edge-resistance.c:436-465 | A keyboard walk changes only the buildup, keeps it non-negative, and leaves at least 1 when it stops short |
| ResistanceProperties.WalkKeyboardBlocked | src/edge-resistance.c:443-454 | When the first aligned edge of the scan is within the energy threshold less the buildup, the move stops there; buildup becomes 1 from 0, otherwise grows by the remaining distance, strictly |
| ResistanceProperties.KeyboardVisit | src/edge-resistance.c:432-465 | With non-negative buildup a keyboard move stops only at an edge within its energy threshold (`KeyboardHolds`), on its coordinate, and passing keeps the buildup non-negative |
| ResistanceProperties.WalkKeyboardPasses | src/edge-resistance.c:376-569 | With no edge in the rest of the scan within its energy threshold, the keyboard walk reaches the proposed position |
| ResistanceProperties.WalkKeyboardStopsOnHolder | src/edge-resistance.c:376-466 | A keyboard walk that does not reach the proposed position ends on the coordinate of a scanned edge within its energy threshold |
| ResistanceProperties.ResistKeyboardPasses | src/edge-resistance.c:353-569 | With no edge between old and new position within its energy threshold, a keyboard move reaches the proposed position |
| ResistanceProperties.ResistKeyboardStopsOnHolder | src/edge-resistance.c:357-466 | A keyboard move held short of the proposed position is held exactly on an edge between the old and the proposed position within its energy threshold |
| ResistanceProperties.KeyboardBuildupReset | src/edge-resistance.c:432-441 | Buildup survives edges at the coordinate last passed, is reset at an aligned edge elsewhere, and is reset when the scan ends away from the last passed edge |
| ResistanceProperties.ResistKeepsScreenEdgePolicy | src/edge-resistance.c:320-570 | Resistance never changes whether the side may cross the screen edge and keeps the buildup non-negative |
| Snapping.Closer | src/edge-resistance.c:615-619 | The result is one of the two candidates and no farther from the proposed position than either; pos2 on a tie |
| Snapping.ChooseSnap | src/edge-resistance.c:572-633 | No movement returns the new position. A keyboard snap discards a candidate that is not ahead and goes ahead whenever a candidate is. Otherwise the closer candidate wins, pos2 on a tie. A mouse move shorter than 8 pixels snaps to the closer candidate when that is within 8 pixels of the old position and otherwise stays at the old position |
| Snapping.SnapLandsOnEdge | src/edge-resistance.c:572-633 | A snapped side is the old or proposed position or the coordinate of an eligible edge of either set |
| Snapping.ApplyEdgeSnapping | src/edge-resistance.c:572-633 | The method computes `SnapSide`: `ChooseSnap` over the nearest positions in both edge sets |
| Grab.OfSideCounts | src/edge-resistance.c:901-944 | Partitioning by side keeps every edge of that side with its multiplicity and no edge of another side |
| Grab.OfSideConcat | src/edge-resistance.c:904-919 | Partitioning the three input lists one after the other equals partitioning their concatenation |
| Grab.InsertSortedKeepsOrder | src/edge-resistance.c:946-959 | Inserting into a sorted array keeps it sorted |
| Grab.SortEdgesSorts | src/edge-resistance.c:946-959 | The sort orders by the side's coordinate (and its function keeps the multiset) |
| Grab.CachedSideIsPartition | src/edge-resistance.c:820-960 | Each cached array is sorted and holds exactly the input edges of its side, with multiplicity |
| Grab.EdgeCache.AppendEdges | src/edge-resistance.c:920-944 | Appending a list adds exactly its edges of each side, in order, to that side's array |
| Grab.EdgeCache.AppendAll | src/edge-resistance.c:900-944 | Appending the window, monitor and screen lists to empty arrays leaves each side's array holding that side's edges of the three lists, in list order |
| Grab.EdgeCache.FillSides | src/edge-resistance.c:900-959 | Filling the empty arrays and sorting them leaves each one sorted and equal to the cached side partition |
| Grab.EdgeCache.SortSides | src/edge-resistance.c:946-959 | Each array is replaced by its sorted permutation |
| Grab.EdgeCache.constructor | src/edge-resistance.c:820-960 | The four arrays are the sorted side partitions of the window, monitor and screen edges, and the four side states are distinct fresh objects |
| Grab.EdgeCache.Initialize | src/edge-resistance.c:962-982 | Every side has no timer and no buildup; left, right and bottom may cross the screen edge, top only when the anchor y is at or below the window's initial y |
| Grab.SpannedRect | src/edge-resistance.c:740-744 | The rectangle built from four side positions has exactly those sides |
| Grab.EachSideResistsWithinProposal | src/edge-resistance.c:698-738 | Without snapping each side of the result lies between its old and proposed position and is the proposed one or an aligned edge's coordinate |
| Grab.EachSideSnapsToEdges | src/edge-resistance.c:660-698 | Snapping leaves the side states alone and puts each side at its old or proposed position or on an eligible edge of its axis (left/right sides on left or right edges) |
| Grab.SnapIntoUnion | src/edge-resistance.c:660-698 | A snapped side lands on an eligible edge of the union of the two sets it looks at |
| Grab.EdgeCache.ApplyEdgeResistanceToEachSide | src/edge-resistance.c:643-748 | The result rectangle and new states are `EachSide` of the old states; `modified` holds exactly when the result differs from the proposal |
| Grab.SmallerChange | src/edge-resistance.c:1219-1245 | The change applied is one of the two; a keyboard snap takes the other when one is 0; otherwise it has the smaller magnitude, the second (right/bottom) on a tie |
| Grab.ReconciledMoveHonoursOneSide | src/edge-resistance.c:1210-1250 | The reconciled move keeps the window's size and puts its left or right side (and top or bottom side) exactly where that side was resisted or snapped |
| Grab.ResistedMoveStaysWithinProposal | src/edge-resistance.c:1174-1252 | Without snapping a move goes the proposed way on each axis, no further than proposed |
| Grab.EdgeCache.EdgeResistanceForMove | src/edge-resistance.c:1174-1252 | Records the snap flag; the position and side states are those of `MoveResult` / `EachSide` on the proposal shifted by the requested delta |
| Grab.ResistedResizeStaysWithinProposal | src/edge-resistance.c:1258-1302 | Without snapping, a resize whose two sides on each axis do not move the same way (true of every gravity) changes each dimension the proposed way, no further than proposed |
| Grab.EdgeCache.EdgeResistanceForResize | src/edge-resistance.c:1258-1302 | Records the snap flag; the size and side states are those of `ResizeResult` / `EachSide`: the inner size follows the resisted outer size change |

## Left out

- Edge extraction (`meta_display_compute_resistance_and_snapping_edges`) is not modelled. It depends on the window stack and on rectangle intersection and subtraction code that is not part of this model. The cache takes the window, monitor and screen edges as inputs.
- `boxes.c` / `boxes.h` are not part of this model. `BOX_RIGHT`/`BOX_BOTTOM` are taken as x + width / y + height. `meta_rectangle_vert_overlap` / `_horiz_overlap` are taken as strict open-interval overlap.
- The comparator `meta_rectangle_edge_cmp` and the `g_array_sort` algorithm are not modelled. Only the order by the side's coordinate, which the searches rely on, is modelled (an insertion sort stands in). Tie-breaking among equal coordinates is not modelled.
- The GLib main loop is not modelled:
  - `g_timeout_add` is a parameter that supplies the id;
  - `g_source_remove` is modelled only as the armed flag and the id being cleared;
  - the scheduling of the callback is not modelled.
- The callback `timeout_func` and the window stored in the side data (and called by `edge_resistance_timeout`) are not modelled. Re-running the move after the delay is the caller's business.
- Memory management (`meta_display_cleanup_edges`, `g_free`, `g_array_free`, the list frees) is not modelled, nor is the first counting pass of `cache_edges`, which only sizes the arrays.
- `meta_window_get_outer_rect` / `meta_window_get_xor_rect` are not modelled; the old outer rectangle is a parameter. `meta_rectangle_resize_with_gravity` is not modelled either: its result is an unconstrained parameter of `Grab.EdgeCache.EdgeResistanceForResize`. `Grab.ResistedResizeStaysWithinProposal` assumes the width/height arithmetic of lines 1282-1283 and that the two sides of an axis do not move the same way.
- C `int` overflow is not modelled. Integers are unbounded, so `points_on_same_side` is the intended sign test and not a wrapping product. The `INT_MAX` starting distance of `find_nearest_position` becomes "no candidate yet" (`Option.None`). The `G_MAXINT` initial `keyboard_buildup_edge` is unreachable while the clear flag is false, and becomes `None`.
- The searches require a non-empty edge array, because they read element 0 before searching. `apply_edge_resistance` returns before searching when the side does not move, so `Resistance.ResistanceData.ApplyEdgeResistance` requires a non-empty array only for a move. The grab-level methods require every side's array to be non-empty; the screen edges always provide one edge per side.
- Search.NearestPosition: among equally close eligible edges it returns the lowest-index one. The source keeps the first it meets of the binary-search index, the first eligible edge above it and the first below it, so the two can differ on a tie: with aligned edges at 90, 110 and 120 and target 100, the source returns 110 and the model 90.
- Search.FindNearestPosition: computes `Search.NearestPosition`, so it breaks ties the same way, and snapping (`Snapping.SnapSide`) inherits that tie-break.
- Resize reconciliation takes the resisted outer size as it is. Unlike a move, it does not apply the smaller-magnitude policy, because the source applies it only to moves.

## Findings

| source | as written | input that shows it | evidently intended | confidence | as-written member | corrected member |
|---|---|---|---|---|---|---|
| src/edge-resistance.c:240-287 | After the binary search, the upward and downward scans `break` at the first aligned edge they meet, whether or not it is closer, and the binary search can stop up to two edges away from the first edge at or above the position (`Search.BinarySearchMidIsNear`) | Aligned left edges at x = 10, 20, 150, 160, 170, target 100, old position 0: the search stops at index 0 and the upward scan stops at 20, so 20 is returned | The aligned edge closest to the target (150 here), as the comment at lines 177-181 says ("looking for the value closest to position") | not executed | Search.NearestAsWrittenMissesCloserEdge | Search.NearestPositionIsClosest |

Snapping (`Snapping.SnapSide`, `Snapping.ApplyEdgeSnapping`) uses the corrected search `Search.NearestPosition` / `Search.FindNearestPosition`.
