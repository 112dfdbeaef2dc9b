# Verified models of the Open-RMF core

These modules model the hardest parts of the Open-RMF core (the planner, trajectories, conflict
detection, the traffic-light fleet adapter, the read-only adapter, the door supervisor) and prove
what they promise. `dafny verify dfyconfig.toml` checks everything.

| files | what they model |
|---|---|
| Scheduling, HeuristicQueue | the planner's invariant heuristic and why it is a lower bound on every plan |
| OrderMap, Waypoints, Trajectory, TrajectoryRuns | the trajectory container: sorted index, linked list, and a plain time-to-state table |
| Spline, Motion | cubic segments, re-parametrised windows, piecewise motion, slicing |
| Extrema, ConflictSweep | bounding extrema, box filter and the two-iterator sweep over two trajectories |
| LightSteps, CheckpointProtocol, Callbacks, EasyTrafficLight | the robot side of the checkpoint protocol: its steps, whole runs, the calls it makes, and the object |
| CheckpointBatches, PlanVersions | the planner side: batches of permissions, new plans, and versioned callbacks in a queue |
| PathRuns, GoingBack | planner and robot together over a whole path with replans and rejections |
| DelayTracking | delay bookkeeping of the read-only fleet adapter, on the trajectory container |
| Modular | comparison of version numbers that wrap around |
| DoorSupervisor | the door supervisor under reordered, lost and repeated messages |

Conventions. Times and durations are integer nanoseconds, `double` values are reals, and a square
root is any non-negative number whose square is the argument. Objects that the source updates in
place are classes; each of their methods is proved equal to a function of the old state, and the
properties of whole runs are lemmas about those functions. A list iterator is its position. A call
that would trip an assertion, index out of range or dereference a past-the-end iterator has an
explicit outcome.

Where the code differs from its documentation, the model follows the code:

- The header of the heuristic queue promises a lower bound for earliest starts that are "similar",
  and the caller's comment asks for costs "smallest to largest". The planner's set is ordered by
  earliest finish. Shortest-first is necessary and sufficient for a common start
  (`OrderContractExact`), and for any starts on agents that are busy until the last of them
  (`LateAgentsExact`). `EstimateBound` says how far the estimate can be off otherwise;
  `UnequalStartsOverestimate` gives an overestimate for the planner's own order, and
  `EarlyAgentOverestimates` one for shortest-first on an agent that is free early.
- `change_time` overwrites the index key before it throws on an occupied time
  (rmf_traffic/src/rmf_traffic/Trajectory.cpp:308 and 330), so `ChangeTime` proves that a refused call
  leaves list and index inconsistent.
- Moving the last waypoint later, and nothing else, calls `rotate` with the target right after the
  mover, which a debug assertion there excludes
  (rmf_traffic/src/rmf_traffic/TrajectoryInternal.hpp:168-169). `Rotate` and `ChangeTime` return
  whether it fails; what they promise besides, and the run theorem `PerformAll`, is what a build
  without assertions does.
- A single-point range clears the permissions it was about to send but keeps its standby index
  (rmf_fleet_adapter/src/rmf_fleet_adapter/agv/TrafficLight.cpp:1409-1414). `BatchesTile`,
  `PlannerFeedsRobot` and `PathStaysInStep` say exactly when that leaves a hole, `HoleFaults` from
  which checkpoints the robot side's assertion then fails, and `SinglePointRangeFaults` is the
  smallest case.
- `update_timing` shortens the range when a departure was pushed back, in order to send the
  checkpoints again (rmf_fleet_adapter/src/rmf_fleet_adapter/agv/TrafficLight.cpp:833-848). It gets
  there only when the plan starts at or beyond the range, and then nothing is sent
  (`TrafficLightData.UpdateTiming`).
- `update_location` takes a plan version but does not capture it
  (rmf_fleet_adapter/src/rmf_fleet_adapter/agv/TrafficLight.cpp:1014-1029), so a location reported
  under an older plan can confirm the current one: `StaleExactly`, `OldLocationReleasesNewPlan`.
- The test of a close start dereferences both footprints
  (rmf_traffic/src/rmf_traffic/DetectConflict.cpp:449-452), although a vehicle may have a vicinity
  only; the verdict is then `NullShape`.

## Model

| member | source | states |
|---|---|---|
| HeuristicQueue.InvariantHeuristicQueue.constructor | rmf_task/src/rmf_task/InvariantHeuristicQueue.cpp:26-34 | the stacks hold one initial value each and are sorted by last end |
| HeuristicQueue.InvariantHeuristicQueue.Add | rmf_task/src/rmf_task/InvariantHeuristicQueue.cpp:37-59 | the rotation is a sorted re-insertion of the front stack, so the order by last end survives every add |
| HeuristicQueue.InvariantHeuristicQueue.ComputeCost | rmf_task/src/rmf_task/InvariantHeuristicQueue.cpp:62-79 | the total is the charge of every element except the first of each stack, none below zero |
| HeuristicQueue.InsertStackAt | rmf_task/src/rmf_task/InvariantHeuristicQueue.cpp:45-58 | where the search loop stops is where sorted insertion puts the stack |
| HeuristicQueue.EndsOfPush | rmf_task/src/rmf_task/InvariantHeuristicQueue.cpp:40-58 | seen through the last ends, an add replaces the smallest end by that end plus the job's duration |
| HeuristicQueue.PushSorted | rmf_task/src/rmf_task/InvariantHeuristicQueue.cpp:37-59 | an add keeps the stacks sorted by last end |
| HeuristicQueue.StepCost | rmf_task/src/rmf_task/InvariantHeuristicQueue.cpp:37-79 | an add raises the cost by the charge of the new placement alone, wherever the rotation puts the stack |
| HeuristicQueue.CostIsLateness | rmf_task/src/rmf_task/InvariantHeuristicQueue.cpp:37-79 | after any run of adds the cost has grown by the clipped lateness of the greedy end times |
| HeuristicQueue.EstimateIsLateness | rmf_task/src/rmf_task/InvariantHeuristicQueue.cpp:26-79 | the final cost is the clipped lateness of the greedy end times, for every list of jobs and initial values |
| HeuristicQueue.Admissible | rmf_task/src/rmf_task/InvariantHeuristicQueue.hpp:25-28 | with a common earliest start and the planner's order, the cost is at most that of every plan: any agents, any order, any gaps |
| HeuristicQueue.ComputeH | rmf_task/src/rmf_task/BinaryPriorityCostCalculator.cpp:112-121 | the planner's use of the queue returns the lateness of an independent least-loaded-agent scheduler, and a lower bound on every plan when the starts agree |
| HeuristicQueue.OrderContractExact | rmf_task/src/rmf_task/BinaryPriorityCostCalculator.cpp:113-116 | for a common earliest start, adding the jobs shortest first is necessary and sufficient for the estimate never to exceed any plan on any agents |
| HeuristicQueue.WrongOrderOverestimates | rmf_task/src/rmf_task/BinaryPriorityCostCalculator.cpp:113-116 | for jobs with any earliest starts, two neighbours in the wrong order give a concrete plan of one agent that is cheaper than the estimate |
| HeuristicQueue.LateAgentsExact | rmf_task/src/rmf_task/InvariantHeuristicQueue.hpp:25-28 | for jobs with any earliest starts and agents that are busy until the last of them: the estimate exceeds no plan on any such agents if and only if the jobs are added shortest first |
| HeuristicQueue.LateAgentsAdmissible | rmf_task/src/rmf_task/InvariantHeuristicQueue.hpp:25-28 | the same as a lower bound for given agents, jobs and plan |
| HeuristicQueue.UnequalStartsOverestimate | rmf_task/src/rmf_task/agv/internal_task_planning.hpp:42-48 | the planner orders by finish time; with different earliest starts that order can be the wrong one, and a plan costs less than the estimate |
| HeuristicQueue.EarlyAgentOverestimates | rmf_task/src/rmf_task/InvariantHeuristicQueue.cpp:62-79 | an agent that is free before some job may start: even shortest first, the estimate can exceed a plan |
| Scheduling.SortRealsSorts | rmf_task/src/rmf_task/InvariantHeuristicQueue.cpp:30 | sorting the initial values gives a sorted permutation |
| Scheduling.CompletionsAreLeastLoaded | rmf_task/src/rmf_task/InvariantHeuristicQueue.cpp:37-59 | serving the front of the sorted queue gives the end times of a scheduler that picks any least loaded agent |
| Scheduling.LeastLoadedIgnoresOrder | rmf_task/src/rmf_task/InvariantHeuristicQueue.cpp:30-33 | the order in which the agents are listed does not change any end time |
| Scheduling.CompletionsMonotone | rmf_task/src/rmf_task/InvariantHeuristicQueue.cpp:37-59 | raising agents' loads never lowers the end time of any job |
| Scheduling.InitialValuesMonotone | rmf_task/src/rmf_task/InvariantHeuristicQueue.cpp:26-59 | the same for the unsorted initial values given to the constructor |
| Scheduling.ShortestToFront | rmf_task/src/rmf_task/InvariantHeuristicQueue.hpp:25-28 | moving a shortest job to the front of an agent's list does not raise its sum of end times |
| Scheduling.TradeFirst | rmf_task/src/rmf_task/InvariantHeuristicQueue.hpp:25-28 | exchanging the first jobs of two agents does not raise the total when the earlier agent has at least as many jobs |
| Scheduling.TradeAll | rmf_task/src/rmf_task/InvariantHeuristicQueue.hpp:25-28 | exchanging two agents' whole lists does not raise the total when the earlier agent has fewer jobs |
| Scheduling.Exchange | rmf_task/src/rmf_task/InvariantHeuristicQueue.hpp:25-28 | every assignment can be changed, at no loss, into one where a least loaded agent starts with a shortest job |
| Scheduling.LeastLoadedOptimal | rmf_task/src/rmf_task/InvariantHeuristicQueue.hpp:25-28 | no assignment of the jobs to the agents, in any order, has a smaller sum of end times than shortest-first greedy |
| Scheduling.RowBound | rmf_task/src/rmf_task/InvariantHeuristicQueue.hpp:25-28 | idle gaps only delay an agent's jobs |
| Scheduling.PlanBound | rmf_task/src/rmf_task/InvariantHeuristicQueue.hpp:25-28 | the finishes of every feasible plan are at least those of the same assignment without gaps, from the clipped initial values |
| Scheduling.GaplessBound | rmf_task/src/rmf_task/InvariantHeuristicQueue.hpp:25-28 | the finishes of every feasible plan are at least those of the same assignment without gaps, from the agents' own initial values |
| Scheduling.EstimateBound | rmf_task/src/rmf_task/InvariantHeuristicQueue.hpp:25-28 | for similar earliest starts the estimate exceeds no plan by more than the sum of the starts' distances from their common lower bound |
| OrderMaps.OrderMap.LowerBoundIn | rmf_traffic/src/rmf_traffic/TrajectoryInternal.hpp:83-91 | binary search in a part of the sorted vector finds the first key not below the wanted one |
| OrderMaps.OrderMap.EmplaceHint | rmf_traffic/src/rmf_traffic/TrajectoryInternal.hpp:93-160 | any hint gives sorted insertion without duplicates; the past-the-end element is dereferenced exactly for a non-end hint with a key above all stored keys |
| OrderMaps.OrderMap.PlaceOf | rmf_traffic/src/rmf_traffic/TrajectoryInternal.hpp:102-153 | whatever the hint, the search ends at the lower bound of the key |
| OrderMaps.InsertUniqueAt | rmf_traffic/src/rmf_traffic/TrajectoryInternal.hpp:93-160 | insertion at the lower bound is the recursive reference insertion |
| OrderMaps.OrderMap.Rotate | rmf_traffic/src/rmf_traffic/TrajectoryInternal.hpp:164-180 | one element is moved in front of another and all others keep their order; the assertion fails exactly when the target is right after the mover, and then nothing moves |
| OrderMaps.OrderMap.Find | rmf_traffic/src/rmf_traffic/TrajectoryInternal.hpp:206-213 | found exactly when the key is stored, and at its position |
| OrderMaps.OrderMap.EraseKey | rmf_traffic/src/rmf_traffic/TrajectoryInternal.hpp:182-189 | removes exactly the element with the key, nothing when it is missing; the past-the-end element is read exactly for a key above all stored ones |
| Trajectories.Trajectory.constructor | rmf_traffic/src/rmf_traffic/Trajectory.cpp:413-417 | an empty container is consistent |
| Trajectories.Trajectory.Copy | rmf_traffic/src/rmf_traffic/Trajectory.cpp:153-169 | the copy has the same waypoints, a consistent index and only nodes of its own |
| Trajectories.Trajectory.Insert | rmf_traffic/src/rmf_traffic/Trajectory.cpp:171-195 | list and index stay consistent; the waypoint is inserted in time order exactly when its time is free |
| Trajectories.Trajectory.Find | rmf_traffic/src/rmf_traffic/Trajectory.cpp:197-209 | first waypoint at or after the time, the end when the time precedes the trajectory |
| Trajectories.Trajectory.ChangeTime | rmf_traffic/src/rmf_traffic/Trajectory.cpp:287-355 | succeeds exactly when the time is the same or free, and then moves one waypoint to its place; otherwise list and index are left inconsistent because the key was already overwritten; the assertion in the rotation fails exactly when the last waypoint moves later |
| Trajectories.Trajectory.LastMovesLater | rmf_traffic/src/rmf_traffic/Trajectory.cpp:306-318 | the rotation is asked to move an element to where it stands exactly when the last waypoint moves later |
| Trajectories.Trajectory.AdjustTimes | rmf_traffic/src/rmf_traffic/Trajectory.cpp:358-403 | shifts the waypoint and all later ones in list and index alike; refuses exactly when the waypoint would reach its predecessor |
| Trajectories.Trajectory.Erase | rmf_traffic/src/rmf_traffic/Trajectory.cpp:220-224 | removes one waypoint from list and index and returns its successor |
| Trajectories.Trajectory.EraseRange | rmf_traffic/src/rmf_traffic/Trajectory.cpp:226-238 | removes a range from list and index |
| Trajectories.Trajectory.LowerIndexOf | rmf_traffic/src/rmf_traffic/Trajectory.cpp:211-218 | the index lower bound is the number of earlier waypoints |
| Trajectories.RetimedIsMoved | rmf_traffic/src/rmf_traffic/Trajectory.cpp:302-352 | removing a waypoint and inserting it at a free time is the splice and rotation that the source performs |
| Trajectories.MovedElements | rmf_traffic/src/rmf_traffic/Trajectory.cpp:314-348 | a move permutes the elements |
| Waypoints.OrderDeterminesList | rmf_traffic/src/rmf_traffic/Trajectory.cpp:746-806 | a time-ordered list is determined by the states it has at each time |
| Waypoints.InsertedGet | rmf_traffic/src/rmf_traffic/Trajectory.cpp:171-195 | insertion changes the state at the new time only, and only when it was free |
| Waypoints.RemovedGet | rmf_traffic/src/rmf_traffic/Trajectory.cpp:226-238 | erasing empties exactly the times of the range |
| Waypoints.RetimedGet | rmf_traffic/src/rmf_traffic/Trajectory.cpp:287-355 | retiming moves one state from the old time to the new one and touches no other time |
| Waypoints.ShiftedFromGet | rmf_traffic/src/rmf_traffic/Trajectory.cpp:358-403 | the suffix shift moves the states at and after a time by the delay and leaves the earlier ones |
| Waypoints.EditRefines | rmf_traffic/src/rmf_traffic/Trajectory.cpp:153-238 | one accepted edit of the list is the same edit of a plain time-to-state table |
| Waypoints.RunRefines | rmf_traffic/src/rmf_traffic/Trajectory.cpp:153-403 | any run of accepted edits, single and range erases and copies included, keeps the list strictly ordered and equal to the table |
| TrajectoryRuns.Perform | rmf_traffic/src/rmf_traffic/Trajectory.cpp:153-403 | one edit on the container, accepted where the table accepts it, is the edit on the list; a copy goes on with a new container and leaves the old one alone |
| TrajectoryRuns.PerformAll | rmf_traffic/src/rmf_traffic/Trajectory.cpp:153-403 | after any run of inserts, retimings, shifts, single and range erases and copies the container is consistent, holds the list after the same edits, and exactly the table after them |
| TrajectoryRuns.EditCopy | rmf_traffic/src/rmf_traffic/Trajectory.cpp:153-169 | whatever is done to a copy, the original keeps every waypoint |
| TrajectoryRuns.EditFits | rmf_traffic/src/rmf_traffic/Trajectory.cpp:287-403 | where the table accepts an edit the container does not throw |
| Splines.HermiteEnds | rmf_traffic/src/rmf_traffic/Spline.cpp:48-67 | the segment's cubic has the given values and slopes at both ends |
| Splines.HermiteOfWindow | rmf_traffic/src/rmf_traffic/Spline.cpp:48-94 | the Hermite cubic through a window of a cubic is that cubic reparametrised |
| Splines.SegmentEnds | rmf_traffic/src/rmf_traffic/Spline.cpp:70-94 | a spline between two waypoints has their positions and velocities at their times |
| Splines.KnotsRoundTrip | rmf_traffic/src/rmf_traffic/Spline.cpp:29-38 | cubic to knots and back is the identity both ways |
| Splines.KnotsFollowSpline | rmf_traffic/src/rmf_traffic/Spline.cpp:222-255 | the sub-spline's knots describe the original curve at the corresponding time, on every window |
| Splines.WindowFollows | rmf_traffic/src/rmf_traffic/Spline.cpp:222-255 | the cubic rebuilt on a window equals the original at the affinely mapped parameter, in value and slope |
| Splines.NormalisedFollows | rmf_traffic/src/rmf_traffic/Spline.cpp:325-337 | the normalised planar coefficients give the position at every time of the window |
| Splines.DifferentialIsOffset | rmf_traffic/src/rmf_traffic/Spline.cpp:340-360 | the distance differential equals the difference of the two planar positions at every time of the common window |
| Splines.VelocityIsRate | rmf_traffic/src/rmf_traffic/Spline.cpp:41-183 | velocity is the rate of change of position per 10^9 nanoseconds: over any stretch of h seconds, on each axis, the way is h times the exact mean of the velocity |
| Splines.Simpson | rmf_traffic/src/rmf_traffic/Spline.cpp:153-183 | for a cubic, the difference of two values is given exactly by the slopes at both ends and the middle |
| Splines.KnotsJoin | rmf_traffic/src/rmf_traffic/Spline.cpp:29-38 | the matrix is that of the uniform B-spline: equal knots stand still at their value, and the pieces of consecutive knots join in value, slope and second derivative |
| Splines.Resample | rmf_traffic/src/rmf_traffic/Spline.cpp:48-94 | a segment rebuilt from two samples of a spline has the spline's position and velocity at every time |
| Motions.ComputeCubicSplines | rmf_traffic/src/rmf_traffic/Motion.cpp:23-55 | nothing for an empty list, a point, a single spline or the list of all segments |
| Motions.StateAtWaypoint | rmf_traffic/src/rmf_traffic/Motion.cpp:170-179 | at a waypoint's time the motion has the waypoint's own position and velocity, whichever neighbour the lookup picks |
| Motions.StateOnSegment | rmf_traffic/src/rmf_traffic/Motion.cpp:170-179 | on a closed segment the lookup gives that segment's position and velocity |
| Motions.SliceTrajectory | rmf_traffic/src/rmf_traffic/DetectConflict.cpp:635-651 | the sampled start followed by the remaining waypoints, the first of them dropped when it repeats the start time |
| Motions.SlicePreservesMotion | rmf_traffic/src/rmf_traffic/DetectConflict.cpp:635-651 | the slice has the original's position and velocity at every time from the start on, also when the start is a waypoint's time |
| Motions.SuffixMotion | rmf_traffic/src/rmf_traffic/Motion.cpp:144-179 | the rest of a trajectory from a waypoint on has the same motion |
| Motions.CutMotion | rmf_traffic/src/rmf_traffic/DetectConflict.cpp:635-651 | replacing the first part of a segment by a sample of it keeps the motion |
| Extrema.LeastValue | rmf_traffic/src/rmf_traffic/DetectConflict.cpp:197-251 | a cubic's smallest value on the interval is at an end or at its low turn |
| Extrema.LowerBoundExact | rmf_traffic/src/rmf_traffic/DetectConflict.cpp:197-251 | the returned minimum is a lower bound if and only if the low turn, when inside, is covered by a candidate |
| Extrema.ExtremaExact | rmf_traffic/src/rmf_traffic/DetectConflict.cpp:197-251 | the returned bounds enclose the curve if and only if both turns are covered |
| Extrema.ExtremaByCoefficients | rmf_traffic/src/rmf_traffic/DetectConflict.cpp:197-251 | the same condition in closed form in the coefficients, for every branch: where it is not always met, the ends or the vertex candidate must reach beyond the mirror point of each turn inside the interval |
| Extrema.ExactBranchEncloses | rmf_traffic/src/rmf_traffic/DetectConflict.cpp:197-251 | in the branches without a tolerance the bounds enclose the curve at every parameter |
| Extrema.BoundsAttained | rmf_traffic/src/rmf_traffic/DetectConflict.cpp:197-251 | in the branches without a tolerance each bound is a value of the curve at 0, at 1 or where its slope is zero |
| Extrema.SmallDiscriminantMisses | rmf_traffic/src/rmf_traffic/DetectConflict.cpp:219-224 | in the branch for a small discriminant there is a cubic whose bounds do not enclose it |
| ConflictSweep.NextShares | rmf_traffic/src/rmf_traffic/DetectConflict.cpp:605-623 | advancing the segment that finishes first, or both, leads to segments that share time and to a window that starts where the last ended |
| ConflictSweep.SweepTiles | rmf_traffic/src/rmf_traffic/DetectConflict.cpp:555-623 | the windows from a shared pair on are consecutive and tile the time up to the earlier finish |
| ConflictSweep.InitialShares | rmf_traffic/src/rmf_traffic/DetectConflict.cpp:134-168 | the initial iterators point at segments that share the later start time |
| ConflictSweep.SweepCoversCommonTime | rmf_traffic/src/rmf_traffic/DetectConflict.cpp:96-168 | for overlapping trajectories the windows tile exactly the time both trajectories cover |
| ConflictSweep.PoseInBox | rmf_traffic/src/rmf_traffic/DetectConflict.cpp:254-264 | anywhere in a window the vehicle's centre is inside the box of its segment |
| ConflictSweep.ExactBoxEncloses | rmf_traffic/src/rmf_traffic/DetectConflict.cpp:254-264 | boxes computed in the exact branches enclose their segments |
| ConflictSweep.DetectExactInvasion | rmf_traffic/src/rmf_traffic/DetectConflict.cpp:527-632 | for trajectories whose segments are all in the exact branches, the filtered sweep returns none exactly when no window has a contact |
| ConflictSweep.FilterKeepsContacts | rmf_traffic/src/rmf_traffic/DetectConflict.cpp:278-324 | where the boxes enclose their segments, the filtered test of two shapes is the narrow phase itself |
| ConflictSweep.SoundSweep | rmf_traffic/src/rmf_traffic/DetectConflict.cpp:278-324 | there the filter changes nothing in what a whole sweep reports |
| ConflictSweep.FilterInventsNothing | rmf_traffic/src/rmf_traffic/DetectConflict.cpp:310-324 | with any boxes at all, a contact the filter lets through is a contact |
| ConflictSweep.FilteredReport | rmf_traffic/src/rmf_traffic/DetectConflict.cpp:572-603 | testing the boxes first reports exactly the contacts with overlapping boxes, each at a moment of its window |
| ConflictSweep.DetectInvasion | rmf_traffic/src/rmf_traffic/DetectConflict.cpp:527-632 | for all trajectories: collecting mode returns exactly the contacts the filter lets through, early-return mode the time of the first; every reported time lies in its window, less than a nanosecond before the moment at which the narrow phase judged the two segments to touch, and at that moment both trajectories are at the poses it judged; where the boxes enclose their segments these are exactly the contacts of the sweep without filter |
| ConflictSweep.Sweep | rmf_traffic/src/rmf_traffic/DetectConflict.cpp:555-623 | the two-iterator loop terminates and reports window by window |
| ConflictSweep.Advance | rmf_traffic/src/rmf_traffic/DetectConflict.cpp:605-622 | the iterator of the earlier finish moves on and its cached spline is dropped |
| ConflictSweep.NoConflictMeansNoTouch | rmf_traffic/src/rmf_traffic/DetectConflict.cpp:527-632 | no conflict is reported exactly when no window has a contact of either kind; skipping the complementary test for equal shapes hides none |
| ConflictSweep.GetInitialIterators | rmf_traffic/src/rmf_traffic/DetectConflict.cpp:134-168 | the iterators found by time are the first pair of segments that overlap |
| ConflictSweep.InvasionBetween | rmf_traffic/src/rmf_traffic/DetectConflict.cpp:761-831 | for all trajectories: short ones are refused; vehicles that cannot be compared are clear; a close start goes to the approach detection and a missing shape is a null dereference, each exactly when it is; otherwise a conflict is returned exactly when some window has a contact that the filter lets through, at the time of the first, which is less than a nanosecond from the moment the narrow phase found and at the poses it judged, and exactly when it has any contact where the boxes enclose their segments |
| ConflictSweep.ComputedMoment | rmf_traffic/src/rmf_traffic/DetectConflict.cpp:407-418 | the computed time lies in the window and is the real moment at that fraction of it, cut to a nanosecond |
| ConflictSweep.SweepExplained | rmf_traffic/src/rmf_traffic/DetectConflict.cpp:527-632 | over a whole sweep every reported conflict belongs to a window and a parameter of the narrow phase, at its moment and with the poses of both trajectories at that moment |
| ConflictSweep.OverlapMeans | rmf_traffic/src/rmf_traffic/DetectConflict.cpp:310-324 | two boxes overlap exactly when they have a point in common |
| ConflictSweep.ShapeBoxMeans | rmf_traffic/src/rmf_traffic/DetectConflict.cpp:278-307 | the box of a shape holds exactly the points within its characteristic length of the segment's own box, on each axis |
| ConflictSweep.TimeOverlapMeans | rmf_traffic/src/rmf_traffic/DetectConflict.cpp:96-131 | the trajectories overlap in time exactly when some moment belongs to both |
| ConflictSweep.ClosenessMeans | rmf_traffic/src/rmf_traffic/DetectConflict.cpp:439-524 | the start is close exactly when a footprint meets the other's vicinity at the positions both trajectories have at the later start |
| ConflictSweep.SweepNeedsFootprints | rmf_traffic/src/rmf_traffic/DetectConflict.cpp:439-524 | the test of the start dereferences both footprints, so a vehicle without one never gets as far as the sweep |
| EasyTrafficLights.EasyTrafficLight.ReceiveCheckpoints | rmf_fleet_adapter/src/rmf_fleet_adapter/agv/EasyTrafficLight.cpp:69-135 | batches for another path are ignored; unprocessed batches are merged as the list functions say; a pause is requested when the standby falls behind the last departure |
| EasyTrafficLights.EasyTrafficLight.Merge | rmf_fleet_adapter/src/rmf_fleet_adapter/agv/EasyTrafficLight.cpp:87-105 | the checkpoint replaces the one with its index or is appended |
| EasyTrafficLights.EasyTrafficLight.RemoveFrom | rmf_fleet_adapter/src/rmf_fleet_adapter/agv/EasyTrafficLight.cpp:107-114 | keeps exactly the checkpoints below the standby |
| EasyTrafficLights.EasyTrafficLight.AcceptNewCheckpoints | rmf_fleet_adapter/src/rmf_fleet_adapter/agv/EasyTrafficLight.cpp:271-285 | stores the received checkpoints, forgets those at or beyond the standby, and fails only on an index out of range |
| EasyTrafficLights.EasyTrafficLight.ReportMovingFrom | rmf_fleet_adapter/src/rmf_fleet_adapter/agv/EasyTrafficLight.cpp:288-387 | keeps the invariant and never trips an assertion; the answer depends only on the newest standby: go on or wait at the next checkpoint below it, with exactly one departure that was granted for this checkpoint and path, and pause or error beyond it |
| EasyTrafficLights.EasyTrafficLight.HandleNewCheckpointsWaiting | rmf_fleet_adapter/src/rmf_fleet_adapter/agv/EasyTrafficLight.cpp:390-416 | keeps the invariant; a batch that ends behind the robot is rejected once and kept, any other becomes the current permissions without changing how far the path is granted |
| EasyTrafficLights.EasyTrafficLight.ReportWaitingAt | rmf_fleet_adapter/src/rmf_fleet_adapter/agv/EasyTrafficLight.cpp:462-520 | keeps the invariant; resume below the newest standby, wait with its callback at it, and beyond it one rejection or an error |
| EasyTrafficLights.EasyTrafficLight.ReportWaitingAfter | rmf_fleet_adapter/src/rmf_fleet_adapter/agv/EasyTrafficLight.cpp:523-567 | keeps the invariant; resume below the newest standby, and at or beyond it one rejection or an error |
| EasyTrafficLights.EasyTrafficLight.FollowPath | rmf_fleet_adapter/src/rmf_fleet_adapter/agv/EasyTrafficLight.cpp:570-581 | a path of fewer than two waypoints is refused without a change; any other starts without permissions, callbacks, departure or progress |
| EasyTrafficLights.EasyTrafficLight.HandleAll | rmf_fleet_adapter/src/rmf_fleet_adapter/agv/EasyTrafficLight.cpp:69-627 | any run of calls takes the object through the stated steps, with the stated answers and calls, and none of its answers is a fault when the run is fed without a gap |
| CheckpointProtocol.MergedLookup | rmf_fleet_adapter/src/rmf_fleet_adapter/agv/EasyTrafficLight.cpp:79-115 | merging keeps one checkpoint per index, the newest, and only those below the newest standby |
| CheckpointProtocol.TakenAt | rmf_fleet_adapter/src/rmf_fleet_adapter/agv/EasyTrafficLight.cpp:271-285 | what each slot holds after an acceptance |
| CheckpointProtocol.MergeIsReplayExactly | rmf_fleet_adapter/src/rmf_fleet_adapter/agv/EasyTrafficLight.cpp:69-115 | merging two batches and accepting once equals accepting both in turn if and only if no index between the standbys is left open that was stored before |
| CheckpointProtocol.MergingEqualsReplaying | rmf_fleet_adapter/src/rmf_fleet_adapter/agv/EasyTrafficLight.cpp:69-115 | any number of contiguous batches, merged and accepted once, give the checkpoints, standby and standby callback of accepting each in turn |
| CheckpointProtocol.AcceptKeeps | rmf_fleet_adapter/src/rmf_fleet_adapter/agv/EasyTrafficLight.cpp:271-285 | accepting never indexes out of range and keeps stored exactly below standby |
| CheckpointProtocol.ReceiveKeeps | rmf_fleet_adapter/src/rmf_fleet_adapter/agv/EasyTrafficLight.cpp:69-115 | receiving a batch that starts at or below the accepted or the unprocessed standby keeps the invariant, merged or not, also after a rejection |
| CheckpointProtocol.MovingIsSafe | rmf_fleet_adapter/src/rmf_fleet_adapter/agv/EasyTrafficLight.cpp:309-387 | both assertions of a moving report hold and its departure callback belongs to the reported checkpoint on the current path |
| CheckpointProtocol.WaitingIsSafe | rmf_fleet_adapter/src/rmf_fleet_adapter/agv/EasyTrafficLight.cpp:390-416 | handling batches while waiting is safe and fires no departure |
| CheckpointProtocol.StepIsSafe | rmf_fleet_adapter/src/rmf_fleet_adapter/agv/EasyTrafficLight.cpp:69-567 | every kind of call keeps the invariant, faults never, and departs only with permission |
| CheckpointProtocol.RunIsSafe | rmf_fleet_adapter/src/rmf_fleet_adapter/agv/EasyTrafficLight.cpp:69-567 | the same at every step of every run whose batches join on to what was accepted or is unprocessed, rejections included |
| CheckpointProtocol.GapFaultsExactly | rmf_fleet_adapter/src/rmf_fleet_adapter/agv/EasyTrafficLight.cpp:356-387 | a batch, merged or not, makes the assertion fail if and only if the robot moves from a checkpoint in a gap that the batch leaves above both standbys |
| CheckpointProtocol.MovingMeans | rmf_fleet_adapter/src/rmf_fleet_adapter/agv/EasyTrafficLight.cpp:309-387 | what a moving report is answered, in terms of the newest standby alone; it changes neither the path nor how far it is granted |
| CheckpointProtocol.WaitAtMeans | rmf_fleet_adapter/src/rmf_fleet_adapter/agv/EasyTrafficLight.cpp:462-520 | the same for waiting at a checkpoint |
| CheckpointProtocol.WaitAfterMeans | rmf_fleet_adapter/src/rmf_fleet_adapter/agv/EasyTrafficLight.cpp:523-567 | the same for waiting past a checkpoint |
| CheckpointProtocol.IdleIsSilent | rmf_fleet_adapter/src/rmf_fleet_adapter/agv/EasyTrafficLight.cpp:255-268 | once the light is cleared, every run without a new path gives errors only and no departure, standby or rejection call |
| Callbacks.OwedStep | rmf_fleet_adapter/src/rmf_fleet_adapter/agv/EasyTrafficLight.cpp:69-520 | one call: a batch of the current path brings its standby and reject callbacks, a new path or none forgets them, and a callback that is called was owed and is forgotten |
| Callbacks.CalledOnce | rmf_fleet_adapter/src/rmf_fleet_adapter/agv/EasyTrafficLight.cpp:69-520 | in every run each standby or reject callback that is called belongs to the newest batch of the current path and is called for the first time since that batch came in |
| Callbacks.PausesExactly | rmf_fleet_adapter/src/rmf_fleet_adapter/agv/EasyTrafficLight.cpp:126-134 | in every run a pause is asked for exactly when a batch of the current path comes in whose standby lies behind the departure that the robot told last on this path |
| Callbacks.DepartureTold | rmf_fleet_adapter/src/rmf_fleet_adapter/agv/EasyTrafficLight.cpp:288-567 | the last departure is the one told by the last report since the path began |
| Callbacks.ReachedIsFurthest | rmf_fleet_adapter/src/rmf_fleet_adapter/agv/EasyTrafficLight.cpp:288-567 | on one path the last checkpoint reached is the furthest one that a report named |
| CheckpointBatches.TrafficLightData.SendCheckpoints | rmf_fleet_adapter/src/rmf_fleet_adapter/agv/TrafficLight.cpp:1226-1422 | sends exactly the checkpoints from the next departure up to the end of the range, once each and in order; a permission for a checkpoint of the plan begins there and has that checkpoint's own departure time, and only its last waypoint lies beyond the next checkpoint; what remains of the plan begins with the last waypoint inside the range; a single-point range sends none |
| CheckpointBatches.TrafficLightData.BuildPermissions | rmf_fleet_adapter/src/rmf_fleet_adapter/agv/TrafficLight.cpp:1254-1337 | the nested loops terminate and build exactly those permissions, each with its own stretch of the plan and its own departure time |
| CheckpointBatches.TrafficLightData.SegmentEnd | rmf_fleet_adapter/src/rmf_fleet_adapter/agv/TrafficLight.cpp:1271-1288 | a segment has at least two plan waypoints, moves past the current checkpoint or reaches the end of the range, takes all waypoints up to the next checkpoint and at most one beyond it, and that one only when it has to |
| CheckpointBatches.TakenDeparts | rmf_fleet_adapter/src/rmf_fleet_adapter/agv/TrafficLight.cpp:1267-1337 | a permission built from such a stretch departs from its own checkpoint at its own time whenever the plan has a waypoint there |
| CheckpointBatches.TrafficLightData.AddPermissions | rmf_fleet_adapter/src/rmf_fleet_adapter/agv/TrafficLight.cpp:1290-1328 | one permission for every checkpoint that a segment passes |
| CheckpointBatches.TrafficLightData.NewRange | rmf_fleet_adapter/src/rmf_fleet_adapter/agv/TrafficLight.cpp:1151-1223 | exactly when a published range is believed, that it then is the range, and what is then sent and with which departure times; a refused range changes nothing, whatever its plan |
| CheckpointBatches.TrafficLightData.UpdateTiming | rmf_fleet_adapter/src/rmf_fleet_adapter/agv/TrafficLight.cpp:747-849 | a new plan starts departures over at its first checkpoint; the checkpoints are to be sent again exactly when the plan starts inside the range, the last batch was rejected or a departure inside the range is at least 100 seconds away, where the range then ends; a batch goes out exactly when the plan starts inside the range: neither a rejection nor a shortened range makes a difference |
| CheckpointBatches.TrafficLightData.FillTiming | rmf_fleet_adapter/src/rmf_fleet_adapter/agv/TrafficLight.cpp:781-823 | every checkpoint the plan passes has a departure time: that of the last plan waypoint on it, or the passing time between two; the times of all other checkpoints stay |
| CheckpointBatches.TrafficLightData.PushedBack | rmf_fleet_adapter/src/rmf_fleet_adapter/agv/TrafficLight.cpp:833-848 | the first departure inside the range that is at least five ready thresholds away, if any |
| CheckpointBatches.ServeRanges | rmf_fleet_adapter/src/rmf_fleet_adapter/agv/TrafficLight.cpp:1151-1422 | any run of published ranges between two replans, refused and single-point ones included, is answered as stated for each and reaches the stated progress |
| CheckpointBatches.BatchesTile | rmf_fleet_adapter/src/rmf_fleet_adapter/agv/TrafficLight.cpp:1226-1422 | the permissions sent over any run of ranges have no gap and no repeat if and only if no single-point range reached beyond what was reached before it |
| CheckpointBatches.SentCount | rmf_fleet_adapter/src/rmf_fleet_adapter/agv/TrafficLight.cpp:1409-1414 | what is sent is never more than the stretch that was reached, and less exactly after a single-point range beyond it |
| CheckpointBatches.DispatchGrants | rmf_fleet_adapter/src/rmf_fleet_adapter/agv/TrafficLight.cpp:1226-1422 | what is sent grants each index of its interval, for its own path version |
| CheckpointBatches.DeliveryJoins | rmf_fleet_adapter/src/rmf_fleet_adapter/agv/TrafficLight.cpp:1409-1422 | in any state, one batch leaves no gap exactly when it starts at or below the accepted or the unprocessed standby, or, for a single-point range, ends there |
| CheckpointBatches.PlannerFeedsRobot | rmf_fleet_adapter/src/rmf_fleet_adapter/agv/TrafficLight.cpp:1226-1422 | between two replans, once what was accepted ends by the next departure: however the robot's reports come between the batches, early or late, the robot side is fed without a gap if and only if no single-point range left a hole, and its newest standby is the planner's next departure |
| CheckpointBatches.PlannerKeepsRobotSafe | rmf_fleet_adapter/src/rmf_fleet_adapter/agv/TrafficLight.cpp:1226-1422 | then every report and delivery of the interleaved run is answered without a fault and departs only with permission |
| CheckpointBatches.HoleFaults | rmf_fleet_adapter/src/rmf_fleet_adapter/agv/TrafficLight.cpp:1409-1414 | after a single-point range, moving from a checkpoint trips the robot side's assertion if and only if it lies above both standbys and inside the range |
| CheckpointBatches.SinglePointRangeFaults | rmf_fleet_adapter/src/rmf_fleet_adapter/agv/TrafficLight.cpp:1409-1414 | a plan along three checkpoints and a single-point range at the last, end to end |
| PathRuns.ServePath | rmf_fleet_adapter/src/rmf_fleet_adapter/agv/TrafficLight.cpp:747-1422 | any sequence of published ranges, new plans and reports along a path makes the planner side send as stated for each |
| PathRuns.DeliveryFed | rmf_fleet_adapter/src/rmf_fleet_adapter/agv/TrafficLight.cpp:1226-1422 | in any state, what is sent feeds the robot side without a gap if and only if it starts at or below the accepted or the unprocessed standby, or carries no permissions and ends there |
| PathRuns.PathFedExactly | rmf_fleet_adapter/src/rmf_fleet_adapter/agv/TrafficLight.cpp:747-1422 | over a whole path, with replans, rejections and any reports, the robot side is fed without a gap if and only if every batch joins on in that sense |
| PathRuns.ReportLeaves | rmf_fleet_adapter/src/rmf_fleet_adapter/agv/EasyTrafficLight.cpp:288-567 | a report from a robot that keeps to its permissions is remembered, and what it left behind stays granted |
| PathRuns.StepKeepsInStep | rmf_fleet_adapter/src/rmf_fleet_adapter/agv/TrafficLight.cpp:747-1422 | one range, plan or report keeps both sides in step, and a batch with permissions always joins on |
| PathRuns.PathStaysInStep | rmf_fleet_adapter/src/rmf_fleet_adapter/agv/TrafficLight.cpp:747-1422 | if the robot never reports behind its last departure nor beyond its permissions, and plans start no further than it has come, then through all replans and rejections every batch with permissions joins on, and the robot side is fed without a gap if and only if no single-point range reaches beyond what was granted |
| PathRuns.PathIsSafe | rmf_fleet_adapter/src/rmf_fleet_adapter/agv/TrafficLight.cpp:747-1422 | then every delivery and report of the path causes no fault and departs only with permission |
| PathRuns.PathStartsInStep | rmf_fleet_adapter/src/rmf_fleet_adapter/agv/TrafficLight.cpp:345-361 | a new path starts in step |
| GoingBack.GoingBackBreaks | rmf_fleet_adapter/src/rmf_fleet_adapter/agv/EasyTrafficLight.cpp:390-416 | a path from its start with a rejection and two new plans, on which every moment is proper and all goes well; with one report behind the last departure the rejected batch is accepted after all, the next batch leaves a gap, and moving into it trips the assertion |
| GoingBack.TellStory | rmf_fleet_adapter/src/rmf_fleet_adapter/agv/TrafficLight.cpp:747-1422 | the planner side does send the batches of that path |
| PlanVersions.PlanTracker.Run | rmf_fleet_adapter/src/rmf_fleet_adapter/agv/TrafficLight.cpp:1014-1070 | the first approval of the current plan, and nothing else, releases its range; the first rejection of the current plan with some of the path left, and nothing else, replans it; both end the awaited confirmation; every other callback has no effect and leaves the flags alone; a location update on the current path while a confirmation is awaited queues the confirmation that the location implies; keeps the account |
| PlanVersions.PlanTracker.UpdateTiming | rmf_fleet_adapter/src/rmf_fleet_adapter/agv/TrafficLight.cpp:747-978 | a confirmation is awaited exactly when the plan starts inside the range, the last one was rejected, a departure was pushed back or the plan begins with a stop, and only the third without the first two shortens the range; keeps the account; a new plan has no release and no replan yet, and every callback made before it is stale |
| PlanVersions.PlanTracker.StartPath | rmf_fleet_adapter/src/rmf_fleet_adapter/agv/TrafficLight.cpp:345-413 | keeps that account; the range is empty and nothing is answered; callbacks of every other path, and of every earlier plan, are stale |
| PlanVersions.PlanTracker.ObeyAll | rmf_fleet_adapter/src/rmf_fleet_adapter/agv/TrafficLight.cpp:747-1631 | the object follows any interleaving of callbacks, plans, paths and ranges; each plan version has at most one release and one replan, the current plan has exactly one release when it is approved and exactly one replan when it is rejected, and none of either while its confirmation is awaited |
| PlanVersions.RanMeans | rmf_fleet_adapter/src/rmf_fleet_adapter/agv/TrafficLight.cpp:1014-1631 | what any callback does to the flags, the last departure, the queue and the outside: exactly the first approval and the first rejection of the current plan have an effect |
| PlanVersions.ConfirmationAnswered | rmf_fleet_adapter/src/rmf_fleet_adapter/agv/TrafficLight.cpp:1556-1631 | a confirmation that runs for the current plan is answered exactly once, whatever happened before or happens after |
| PlanVersions.AwaitedRangeStands | rmf_fleet_adapter/src/rmf_fleet_adapter/agv/TrafficLight.cpp:1151-1193 | in every interleaving the range of a plan stands still while its confirmation is awaited, and only a new plan makes one awaited |
| PlanVersions.StaleExactly | rmf_fleet_adapter/src/rmf_fleet_adapter/agv/TrafficLight.cpp:1014-1070 | a stale callback has no effect and leaves versions, range and flags alone; it queues a confirmation of the current plan if and only if it is a location update for the current path while a confirmation is awaited, whatever plan it was made for |
| PlanVersions.OldLocationReleasesNewPlan | rmf_fleet_adapter/src/rmf_fleet_adapter/agv/TrafficLight.cpp:1014-1069 | a location reported under one plan releases the next one |
| PlanVersions.RunAccounted | rmf_fleet_adapter/src/rmf_fleet_adapter/agv/TrafficLight.cpp:1556-1631 | running any queued callback keeps the account: for the current plan approved exactly when it was released once, rejected exactly when it was replanned once |
| PlanVersions.AtMostOncePerPlan | rmf_fleet_adapter/src/rmf_fleet_adapter/agv/TrafficLight.cpp:1556-1631 | in every interleaving of callbacks, plans, paths and ranges each plan version causes at most one release and at most one rejection-triggered replan, and the current one has each exactly when its flag says so |
| DelayTracking.MakeTrajectory | rmf_fleet_adapter/src/rmf_fleet_adapter/make_trajectory.cpp:26-65 | a path that interpolates to fewer than two points gives a ten-second sitting trajectory at the robot's location, any other the interpolation |
| DelayTracking.ThresholdsAreDistances | rmf_fleet_adapter/src/read_only/FleetAdapterNode.cpp:258-293 | two path locations are the same exactly when they are at most 1e-8 apart, and a sitting robot is still there exactly when it is at most five centimetres and the yaw threshold away |
| DelayTracking.ScheduleEntry.PushRoute | rmf_fleet_adapter/src/read_only/FleetAdapterNode.cpp:204-215 | a new route starts without accumulated delay |
| DelayTracking.ScheduleEntry.UpdateRobot | rmf_fleet_adapter/src/read_only/FleetAdapterNode.cpp:230-238 | without a route, with a path that is not the rest of the remembered one, or when a moving robot comes to rest, the new route is pushed; otherwise the route is kept, delayed or replaced for the stated reasons; a pushed route starts without delay and the reported path is remembered |
| DelayTracking.ScheduleEntry.HandleDelay | rmf_fleet_adapter/src/read_only/FleetAdapterNode.cpp:241-396 | handled only with a route, a continued path and no change from moving to rest, and exactly when the decision, taken for the stated reasons, is not to replace; then path, delay and route are the decided ones |
| DelayTracking.ScheduleEntry.ContinuesPath | rmf_fleet_adapter/src/read_only/FleetAdapterNode.cpp:250-270 | true exactly when the reported path is the end of the remembered one |
| DelayTracking.ScheduleEntry.DecideWhenSitting | rmf_fleet_adapter/src/read_only/FleetAdapterNode.cpp:278-313 | a kept route ends within a second of ten seconds from now, an extended one exactly then and below the maximum delay, and a replaced one means that the robot moved or the maximum is reached; the assertion about its two positions holds |
| DelayTracking.ScheduleEntry.DecideWhenMoving | rmf_fleet_adapter/src/read_only/FleetAdapterNode.cpp:324-390 | a kept route ends within the threshold of the estimate, a shifted one exactly at it and below the maximum delay; a late route is shifted from the first waypoint that the robot has not passed, an early one as a whole |
| DelayTracking.ReplacedOnlyForDelay | rmf_fleet_adapter/src/read_only/FleetAdapterNode.cpp:354-384 | the case the source reports as a bug cannot happen: a moving robot's route is replaced only because the maximum delay is reached |
| DelayTracking.UpdateConserves | rmf_fleet_adapter/src/read_only/FleetAdapterNode.cpp:241-396 | one report keeps the accumulated delay equal to the delays told since the last route, and the finish explained by them |
| DelayTracking.UpdateTracks | rmf_fleet_adapter/src/read_only/FleetAdapterNode.cpp:241-396 | after a report the scheduled finish is the newest estimate up to the reporting thresholds |
| DelayTracking.DelaysConserved | rmf_fleet_adapter/src/read_only/FleetAdapterNode.cpp:204-396 | the same after every run of reports, with the accumulated delay below the maximum and the route's states those of the last route pushed |
| DelayTracking.RouteIsForPath | rmf_fleet_adapter/src/read_only/FleetAdapterNode.cpp:230-270 | over every run of reports the scheduled route is that of the last report that was pushed, and every report since then continues the path of the report before it |
| DelayTracking.ReportAll | rmf_fleet_adapter/src/read_only/FleetAdapterNode.cpp:204-396 | any run of reports takes the entry itself through these updates: what it tells the schedule is conserved and follows the last report, and the route on the schedule is that of a report since which every report carried on with the path before it |
| Modular.ComparesTrueOrder | rmf_utils/include/rmf_utils/Modular.hpp:49-70 | for counters of any size stored modulo 2^n, with w = 2^n / 2 - 1: the comparison answers with their true order from w / 2 below to w - w / 2 above and refuses every other distance within one turn |
| Modular.ComparesFromBasis | rmf_utils/include/rmf_utils/Modular.hpp:78-88 | two counters less than one turn past the basis are compared as the unbounded counters are, for types at least as wide as int |
| Modular.ComparesWithEquality | rmf_utils/include/rmf_utils/Modular.hpp:72-76 | comparison with equality answers the true order wherever the strict one answers and refuses elsewhere |
| Modular.ComparesWithEqualityFromBasis | rmf_utils/include/rmf_utils/Modular.hpp:90-94 | the same for two counters past the basis |
| Modular.PromotedComparesExactly | rmf_utils/include/rmf_utils/Modular.hpp:85-88 | for 8- and 16-bit types the subtraction is done in int: the comparison is right exactly for counters in the same turn |
| DoorSupervisors.DoorSupervisor.ProcessOpenRequest | rmf_fleet_adapter/src/door_supervisor/Node.cpp:66-82 | the requester's entry becomes the later of the two times, every other entry stays, the door is asked to open and a heartbeat shows the log |
| DoorSupervisors.DoorSupervisor.ProcessCloseRequest | rmf_fleet_adapter/src/door_supervisor/Node.cpp:96-126 | only an entry not later than the request is removed; the door is asked to close exactly when the last one went |
| DoorSupervisors.DoorSupervisor.DoorStateUpdate | rmf_fleet_adapter/src/door_supervisor/Node.cpp:140-166 | reminders exactly when the reported mode disagrees with the log |
| DoorSupervisors.DoorSupervisor.PublishHeartbeat | rmf_fleet_adapter/src/door_supervisor/Node.cpp:169-188 | the heartbeat lists every logged door once with exactly its sessions |
| DoorSupervisors.DoorSupervisor.Receive | rmf_fleet_adapter/src/door_supervisor/Node.cpp:55-63 | a message of either topic makes one step; other request modes are ignored |
| DoorSupervisors.SupervisorHasSession | rmf_fleet_adapter/src/rmf_fleet_adapter/phases/SupervisorHasSession.cpp:23-53 | the search of the first entry of the door finds exactly the sessions a heartbeat lists there |
| DoorSupervisors.ReflectedEntry | rmf_fleet_adapter/src/rmf_fleet_adapter/phases/SupervisorHasSession.cpp:23-53 | in a heartbeat of the supervisor a robot finds its session exactly when it is logged |
| DoorSupervisors.ReceiveAll | rmf_fleet_adapter/src/door_supervisor/Node.cpp:55-188 | a supervisor that receives any messages in any order goes through a run of the stated steps |
| DoorSupervisors.SessionIffStanding | rmf_fleet_adapter/src/door_supervisor/Node.cpp:66-126 | in every run, with messages in any order, lost or repeated, a session is logged if and only if some open request was not followed by a close request at its time or later |
| DoorSupervisors.TrackedStands | rmf_fleet_adapter/src/door_supervisor/Node.cpp:66-126 | a logged session carries the time of an open request that stands |
| DoorSupervisors.ClosesOnlyUnwanted | rmf_fleet_adapter/src/door_supervisor/Node.cpp:96-166 | in every run a door is asked to close only when no open request for it, from anybody, stands |
| DoorSupervisors.AsksExactly | rmf_fleet_adapter/src/door_supervisor/Node.cpp:66-166 | in every run every open request asks its door to open, a close request asks it to close exactly when it removes the last open request that stood, and a reported state brings a reminder exactly when it disagrees with what stands |
| DoorSupervisors.ReopensWanted | rmf_fleet_adapter/src/door_supervisor/Node.cpp:140-166 | a door reported closed or moving while an open request stands is asked to open again |
| DoorSupervisors.HeartbeatShowsStanding | rmf_fleet_adapter/src/door_supervisor/Node.cpp:169-188 | every heartbeat of every run shows a robot its session exactly when one of its open requests stands |
| DoorSupervisors.OrderMatters | rmf_fleet_adapter/src/door_supervisor/Node.cpp:96-126 | a close request that overtakes the open request it answers leaves the door wanted |

## Left out

- Floating-point rounding: all arithmetic is over reals and integers.
- The collision library: the narrow phase is a parameter, assumed only to report contacts whose centres come within the sum of the characteristic lengths on both axes at some parameter of the window.
- `detect_approach` and `approach_times`: root finding with `atan2` and epsilon heuristics; the verdict `StartsClose` says exactly when they are called. The static overlap test is a parameter.
- The tolerance branches of `get_local_extrema` have no unconditional bound; `ExtremaByCoefficients` says exactly when their bounds enclose the curve.
- CheckpointBatches.TrafficLightData.SendCheckpoints: requires a plan whose first index is at most the next departure and whose last reaches the end of the range, because the source underflows or loops for ever otherwise; plan waypoints without a graph index are not modelled.
- `update_timing` beyond departure times, versions, flags and what it sends: arrival times and the itinerary it publishes.
- CheckpointBatches.PlannerFeedsRobot: starts from a state in which what was accepted ends by the next departure, because it allows any reports and late deliveries; after a rejection that depends on the robot, which `PathFedExactly` and `PathStaysInStep` take into account.
- CheckpointBatches.PlannerKeepsRobotSafe: starts from the same states, for the same reason; `PathIsSafe` covers the others.
- CheckpointBatches.TrafficLightData.FillTiming: the time at which a checkpoint between two plan waypoints is passed is a parameter, because it comes from the kinematic interpolation.
- PlanVersions.PlanTracker.UpdateTiming: which departure was pushed back is a parameter here; `PushedBack` computes it.
- PathRuns.PathStaysInStep: that a new plan starts no further than just after the robot's last departure is a condition, since the plan comes from the planner.
- Immediate stop, resume and wall timers of the easy traffic light; blockade moderator, planner and schedule participant appear only through the values they deliver and the calls they receive.
- DelayTracking.MakeTrajectory: the interpolation of a path into waypoints is a parameter, assumed to be in time order (and, in `ReplacedOnlyForDelay`, to start at the time of the report); the ten-degree yaw threshold and the delay threshold are parameters too.
- DelayTracking.ScheduleEntry.HandleDelay: where the source has already changed the path or the accumulated delay before it gives up, the intermediate values are not modelled, since the route is then pushed and they are overwritten.
- Trajectories: iterators are positions, so the validity of iterators held by callers across edits is not captured.
- Task assignment priorities, dispatcher, lift supervisor, estimate cache, graph parsing, message conversion, ROS publishers and subscriptions: input and output or easy members.
