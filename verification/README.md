# ExcavatorRuntime: a verified model

ExcavatorRuntime drives a scaled excavator from a PC: it plans a path for the bucket tip, tracks
it with a learned policy, sends velocity commands to the machine over UDP and keeps a journal of
every command. This project models the parts of it whose correctness is a matter of whole runs or
of continuous geometry, and proves what they promise.

| file | component |
|---|---|
| `Geometry.dfy` | points, lengths and distances over the reals; the square root is a parameter constrained only by its defining equation |
| `Collision.dfy`, `Workspace.dfy`, `PathShaping.dfy`, `RrtPlanner.dfy` | the bucket-tip RRT planner, its sampled checks, its shortcuts and its resampling |
| `WorkspaceCells.dfy` | which solid the tetrahedra of the reachable workspace fill |
| `EdgeClearance.dfy`, `DeliveredPath.dfy` | how far around an accepted edge the obstacles keep, and what the edge checks say about the polyline the planner delivers |
| `Octomap.dfy`, `OctomapClearance.dfy` | occupied voxels turned into planner obstacles, and what an accepted edge says about the voxels |
| `TrajectoryTracker.dfy`, `FollowSession.dfy` | the waypoint tracker and the Follow session around it |
| `FixedActions.dfy` | the fixed-action executor |
| `CommandSink.dfy`, `ActionJournal.dfy`, `MotionChannel.dfy` | the gated command sink, the journalling sender with its writer thread, and the two composed |
| `Exporter.dfy`, `JournalFiles.dfy` | the exporter that reads journals back, and the part files it reads |
| `PlanIssuance.dfy`, `BehaviorLease.dfy`, `FollowLoop.dfy` | the live behaviour server: one-shot plans, the lease, and the Follow loop with the tables it reads |
| `WaypointObservation.dfy`, `UnityAdapter.dfy` | the waypoint observation and its change of axes |
| `OperatorLog.dfy` | the bounded operator log |

Code that updates objects or loops is modelled by classes and methods, each proved equal to a
specification function; the results are lemmas about those functions. Threads are modelled as
state machines whose steps are the atomic actions between lock boundaries, and the results about
them hold in every reachable state of every interleaving.

## What the code does not do

These are results: the code was kept as it is, and the exact condition is proved.

- The sampled collision check is sound for all segments and obstacles exactly when the collision
  radius is at least half the checking step (`Collision.RadiusConditionIsExact`); nothing in the
  planner enforces this.
- The resampled waypoints are safe points, but the chords between them are not checked again. For
  every collision radius and every checking step, all edges of all delivered paths were accepted
  exactly for those waypoint counts that leave the route as it is: no count, or at most one
  (`DeliveredPath.DeliveredEdgesCheckedIff`, with a request for every other count whose plan has a
  rejected edge). A delivered polyline still is outside every obstacle when the square of the radius
  is at least the sum of the squares of half a step and half its longest edge
  (`DeliveredPath.DeliveredPolylineIsClear`); for the surroundings of single edges that condition is
  exact (`EdgeClearance.TubeConditionIsExact`), and half a step plus half the edge is never needed
  (`DeliveredPath.HalvesCover`).
- The obstacle limit of the octomap adapter drops occupied cells silently, exactly when there are
  more cells than the limit (`Octomap.CellsKeptIffWithinLimit`).
- Accepted edges keep off the voxels behind the boxes exactly when the radius is at least half a box,
  plus the margin, plus the checking step over the root of eight, and the box with twice the radius
  is at least a step (`OctomapClearance.RadiusCoversIffEdgesAvoidCubes`); the planner takes any radius.
- The executor does not measure the swing axis. Some calls complete a sequence exactly when every
  swing move is within the tolerance (`FixedActions.SwingDecidesCompletion`); the profile loader
  refuses swing moves above 1e-9, and so every sequence it accepts can be completed
  (`FixedActions.LoadedSequencesCanComplete`).
- A trajectory can be completed exactly when its dwell times fit into its timeout, which construction
  does not check (`TrajectoryTracker.CompletableIff`).
- The second shortcut pass, which the planner runs by default, never changes what the first one has
  left (`PathShaping.ShortcutIsGreedy`).
- The tracker refuses a history exactly when a sample is earlier than one before it that found the
  task not yet completed; samples after the completion may be out of order among themselves
  (`TrajectoryTracker.RefusesIffTimeGoesBack`).
- After a short UDP send the number of the datagram that left is used again
  (`CommandSink.ShortSendNumberIsReused`).
- A write that fails leaves the last part file cut in the middle of a record, and then the exporter
  refuses the whole file, the complete records in it included (`JournalFiles.FailedWriteCutsFile`,
  and a run in `JournalFiles.CutPartIsRefused`); so it does with a part read while a record is being
  written. A part file is accepted exactly when it holds a whole line, is not cut inside a record
  and its clock did not go back (`JournalFiles.PartFileReadsBackIff`); every part but the last is
  never cut (`JournalFiles.EarlierPartsReadBack`).
- A goal that finishes by an exception after it released the lease releases it a second time, and
  then two behaviours can move the machine at once (`BehaviorLease.DoubleReleaseBreaksTheLease`);
  a release keeps the lease exclusive exactly when the lease is free or the releaser's own
  (`BehaviorLease.ReleaseIsSafeIff`), and leaves all later motion to the owner of the lease exactly
  when that holds, or the owner can no longer move, or the sink is disarmed
  (`BehaviorLease.ReleaseKeepsMotionOwnedIff`).
- A behaviour whose first stop raised before its zero left, and that then raises after the release,
  reports confirmed quiescence at its second stop although another behaviour may have moved in
  between (`BehaviorLease.ConfirmedQuiescenceCanBeLate`). The report can be trusted in every
  continuation exactly when, at the first release, a zero has left since the last motion, or the
  behaviour is in its exception handler already, or the sink is disarmed
  (`BehaviorLease.FirstReleaseDecides`).
- Publishing a plan again does not renew its place in the table, so it can be gone after two other
  publications (`PlanIssuance.RepublishedPlanIsEvictedByTwo`, and a history of ten publications in
  `PlanIssuance.RepublishedPlanIsLost`).
- For a path of fewer than two waypoints the observation reports the final waypoint without full
  progress until the index moves (`WaypointObservation.FullProgressIffFinal`).
- The tube term is the whole distance divided by the radius, not, as its docstring has it, a value
  near zero inside the tube: inside it takes every value from zero up to one
  (`WaypointObservation.TubeTermIsGraded`).
- Log messages without a module name are never merged, because they are filed under another name
  than they are compared with (`OperatorLog.RepeatMergesIffNamed`).

## Model

| member | source | states |
|---|---|---|
| Collision.CompileObstacles | localmap/localmap_core/simple_bucket_tip_planner.py:69-105 | compiling sorts the obstacles into boxes, spheres and cylinders, each grown by the collision radius, in input order |
| Collision.CompiledTestIsGrownTest | localmap/localmap_core/simple_bucket_tip_planner.py:69-129 | the vectorised point test on compiled obstacles holds exactly when the point is in some original obstacle grown by the radius |
| Collision.SegmentInCollision | localmap/localmap_core/simple_bucket_tip_planner.py:132-140 | the sampling loop reports a hit exactly when one of the evenly spaced samples, both ends included, is in collision |
| Collision.CheckedSegmentIsClear | localmap/localmap_core/simple_bucket_tip_planner.py:69-140 | with a radius of at least half a step (floored at 0.0001), an accepted segment has no point at all, sampled or not, inside an original box, sphere or cylinder |
| Collision.RadiusConditionIsExact | localmap/localmap_core/simple_bucket_tip_planner.py:132-140 | that condition on the radius is necessary as well: the check is sound for every segment and obstacle list if and only if it holds |
| Workspace.BuildTetras | localmap/localmap_core/reachable_workspace.py:111-124 | consecutive sections give the six tetrahedra of each cell, those of negligible volume left out, and an error if none remains |
| Workspace.LoadWorkspace | localmap/localmap_core/reachable_workspace.py:93-162 | loading anchor points gives the workspace they determine, whose tetrahedra are non-degenerate and lie in its bounding box, or the error for a wrong count or degenerate anchors |
| Workspace.BoxIsTight | localmap/localmap_core/reachable_workspace.py:158-161 | the bounding box holds every anchor, and each of its six bounds is the coordinate of one |
| Workspace.SolveIsUnique | localmap/localmap_core/reachable_workspace.py:127-138 | for a non-degenerate tetrahedron the linear system of the point test has exactly one solution, and the solver finds it |
| Workspace.InsideTestIsBlend | localmap/localmap_core/reachable_workspace.py:127-138 | the barycentric test accepts a point exactly when the point is a combination of the vertices with weights in range that add up to one |
| Workspace.ContainsIsUnionOfTetras | localmap/localmap_core/reachable_workspace.py:49-54 | without tolerance, containment means being in one of the tetrahedra: the bounding-box test before it never excludes such a point |
| WorkspaceCells.CellFillsBox | localmap/localmap_core/reachable_workspace.py:18-25 | when eight anchors are the corners of a skewed box above the least volume, the six tetrahedra of their cell fill that solid box: no hole and nothing outside |
| WorkspaceCells.WorkspaceIsItsBoxes | localmap/localmap_core/reachable_workspace.py:49-162 | loading the anchors of any number of consecutive skewed boxes succeeds, and the workspace contains, at no tolerance, exactly the points corner + u e1 + v e2 + w e3 of those boxes with u, v and w from zero to one |
| Workspace.SegmentInside | localmap/localmap_core/reachable_workspace.py:56-66 | the loop accepts a segment exactly when every one of its samples is contained |
| Workspace.SamplesAreContained | localmap/localmap_core/reachable_workspace.py:68-75 | every point the sampler can produce is contained in the workspace, for every choice of tetrahedron and of exponential draws |
| Workspace.EveryPointCanBeSampled | localmap/localmap_core/reachable_workspace.py:68-75 | and every point contained at no tolerance is a sample, for some tetrahedron and some draws |
| Octomap.BoundsMask | localmap/localmap_core/octomap_obstacle_adapter.py:10-19 | the mask keeps exactly the points within the bounds given for each axis |
| Octomap.CentersToObstacleBoxes | localmap/localmap_core/octomap_obstacle_adapter.py:22-60 | one box per occupied cell in key order up to the limit, each centred on the mean of the cell's in-bounds points |
| Octomap.MeanNearMembers | localmap/localmap_core/octomap_obstacle_adapter.py:44-52 | each occupied centre is less than a cell size away, per axis, from the centre of its cell's box |
| Octomap.CellsKeptIffWithinLimit | localmap/localmap_core/octomap_obstacle_adapter.py:42-60 | every occupied centre has the box of its cell if and only if the number of cells is within the limit |
| OctomapClearance.AcceptedEdgeAvoidsOccupiedCentres | localmap/localmap_core/octomap_obstacle_adapter.py:36-59 | end to end: with no cell cut off and a radius that covers, an edge the planner accepts meets no margin cube around an in-bounds occupied centre |
| OctomapClearance.RadiusCoversIffEdgesAvoidCubes | localmap/localmap_core/octomap_obstacle_adapter.py:36-59 | over all voxel lists, crops and edges this holds if and only if the radius exceeds half a box and the margin by at least the step over the root of eight, and twice the radius with the box is at least a step |
| PathShaping.CheckEdge | localmap/localmap_core/simple_bucket_tip_planner.py:184-193 | an edge is accepted exactly when its samples are in the workspace, if there is one, and none is in collision |
| PathShaping.ShortcutPath | localmap/localmap_core/simple_bucket_tip_planner.py:170-199 | the greedy loops compute the shortcut specification for any number of passes |
| PathShaping.ShortcutPreservesRoute | localmap/localmap_core/simple_bucket_tip_planner.py:170-199 | shortcutting a path of accepted edges keeps both ends, selects points in order, leaves only accepted edges although kept neighbours are not checked again, and never lengthens the path |
| PathShaping.ShortcutIsGreedy | localmap/localmap_core/simple_bucket_tip_planner.py:170-199 | with one pass or more the result is the one selection that jumps from each kept point to the furthest later point in sight, to the next one if none is; so passes after the first change nothing |
| PathShaping.ResamplePath | localmap/localmap_core/simple_bucket_tip_planner.py:202-223 | the resampling loop computes its specification, including the missing count, the short path and the degenerate segments |
| PathShaping.ResampledPointsOnPath | localmap/localmap_core/simple_bucket_tip_planner.py:202-223 | every resampled point lies on a segment of the path, and there are as many as requested |
| PathShaping.ResampleKeepsEnds | localmap/localmap_core/simple_bucket_tip_planner.py:202-223 | a resampled path starts exactly at the first point and ends within the degenerate length 1e-9 of the last |
| RrtPlanner.SteerReach | localmap/localmap_core/simple_bucket_tip_planner.py:152-158 | steering stays on the segment to the target, at the step distance or at the target itself if that is nearer |
| RrtPlanner.InferredBoundsMean | localmap/localmap_core/simple_bucket_tip_planner.py:143-149 | without bounds in the request, a point is in the planning bounds exactly when along each axis it is within half a metre of the range of start, goal and obstacle centres |
| RrtPlanner.Nearest | localmap/localmap_core/simple_bucket_tip_planner.py:282-283 | the loop finds the first node with the least distance to the sample |
| RrtPlanner.NearestIsFirstLeast | localmap/localmap_core/simple_bucket_tip_planner.py:282-283 | no node is nearer to the sample than the chosen one, and none before it is as near |
| RrtPlanner.ReconstructPath | localmap/localmap_core/simple_bucket_tip_planner.py:161-167 | following parents terminates and gives the branch from the root to the node |
| RrtPlanner.TraceIsChecked | localmap/localmap_core/simple_bucket_tip_planner.py:161-167 | in every tree the search can build, the branch to any node starts at the start, ends at the node, and consists of accepted edges inside the bounds |
| RrtPlanner.SampleGrowsTree | localmap/localmap_core/simple_bucket_tip_planner.py:277-307 | at every iteration the point steered from the first nearest node becomes a new node below that node exactly when sample, point and edge pass the checks, and the goal a node below the point exactly when it is within a step and its edge is accepted |
| RrtPlanner.ChainIsFound | localmap/localmap_core/simple_bucket_tip_planner.py:268-307 | for every chain of points from start to goal in bounds, neighbours at most a step apart and joined by accepted edges, each point nearer to its predecessor than to every earlier point: drawing its inner points makes the tree reach the goal no later than at the last of them |
| RrtPlanner.Search | localmap/localmap_core/simple_bucket_tip_planner.py:268-312 | the search succeeds exactly when growing the tree by the drawn samples reaches the goal within the iterations, reporting the first iteration that does and the resampled shortcut of the branch to the goal |
| RrtPlanner.GrowthIsTree | localmap/localmap_core/simple_bucket_tip_planner.py:268-307 | for every sequence of samples and at every moment, parents come before children, every edge was accepted and is no longer than a step, every node is in bounds, and a finished tree ends with the goal |
| RrtPlanner.FoundRoute | localmap/localmap_core/simple_bucket_tip_planner.py:303-309 | backtracking from the goal and shortcutting twice gives a route of accepted edges from start to goal inside the bounds |
| RrtPlanner.PlanBucketTipPath | localmap/localmap_core/simple_bucket_tip_planner.py:226-312 | the whole answer: the first failing check as the reason, else the resampled straight line if it is accepted, else what the search decides; the waypoints of a success resample a route of accepted edges from start to goal in bounds |
| RrtPlanner.ChainIsPlanned | localmap/localmap_core/simple_bucket_tip_planner.py:226-312 | for an admissible request whose samples are the inner points of such a chain the planner succeeds within as many iterations |
| RrtPlanner.PlannedWaypointsAreSafe | localmap/localmap_core/simple_bucket_tip_planner.py:226-312 | every waypoint of a successful plan is inside the planning bounds, and outside every original obstacle when the radius covers half a step |
| RrtPlanner.PlannedWaypointsReachGoal | localmap/localmap_core/simple_bucket_tip_planner.py:202-223 | a plan of at least two waypoints has exactly that many, starts at the start and ends within 1e-9 of the goal |
| DeliveredPath.ChordWithinArc | localmap/localmap_core/simple_bucket_tip_planner.py:202-223 | two resampled points are no further apart than the arc between them, round any number of corners |
| EdgeClearance.TubeConditionIsExact | localmap/localmap_core/simple_bucket_tip_planner.py:69-140 | everything within a distance of every accepted edge is outside every original obstacle if and only if the radius is not negative and its square is at least the sum of the squares of half a step and that distance |
| DeliveredPath.SpacedPolylineIsClear | localmap/localmap_core/simple_bucket_tip_planner.py:202-223 | a route resampled to another number of points is a polyline outside every original obstacle when the radius covers the tube of half its spacing, although its chords are not checked |
| DeliveredPath.DeliveredPolylineIsClear | localmap/localmap_core/simple_bucket_tip_planner.py:202-312 | every delivered polyline, whatever the samples and the count, is outside every obstacle of the request when the radius covers the tube of half its longest edge |
| DeliveredPath.HalvesCover | localmap/localmap_core/simple_bucket_tip_planner.py:202-312 | half a step plus half the longest edge is a sufficient radius, and always more than is needed |
| DeliveredPath.ManyWaypointsEscapeTheCheck | localmap/localmap_core/simple_bucket_tip_planner.py:202-312 | for every radius, every step and every count of three or more there is a request whose straight plan has a delivered edge that the check rejects |
| DeliveredPath.TwoWaypointsEscapeTheCheck | localmap/localmap_core/simple_bucket_tip_planner.py:202-312 | for every radius and every step there are a request and a sample with which the planner delivers, as two waypoints, the straight edge that it had rejected |
| DeliveredPath.DeliveredEdgesCheckedIff | localmap/localmap_core/simple_bucket_tip_planner.py:202-312 | for every radius, step and count: all edges of all delivered paths, over all requests, samples and iteration limits, were accepted if and only if the count is missing or at most one |
| TrajectoryTracker.CompletesIffWindows | mission/trajectory_tracker.py:44-97 | over any history with a clock that does not go back, the tracker completes if and only if there are disjoint windows in order, one per waypoint, of samples within tolerance, each lasting the dwell time up to 1e-12 and ending within the timeout of the first sample |
| TrajectoryTracker.CompletableIff | mission/trajectory_tracker.py:24-97 | some history completes a task if and only if the number of waypoints times the dwell time, less 1e-12 each, is within the timeout |
| TrajectoryTracker.OutcomeIsFinal | mission/trajectory_tracker.py:61-67 | completed and timed out are both final, whatever samples follow |
| TrajectoryTracker.UpdateDescribesStep | mission/trajectory_tracker.py:61-97 | the reported index, distance and flags describe the tracker after the step, and an advance is reported exactly when a waypoint was closed |
| TrajectoryTracker.RefusesIffTimeGoesBack | mission/trajectory_tracker.py:50-61 | over any history, the tracker raises exactly when some sample is earlier than one before it that it took before it was completed, and always the time regression |
| FollowSession.SessionIsTrackerOnNewSamples | mission/follow.py:232-259 | a session is its tracker run on exactly the samples whose stamp is later than the acceptance and than every stamp before it, errors included |
| FollowSession.SessionCompletesIffWindows | mission/follow.py:213-259 | a session completes if and only if those samples have a sufficient window near every waypoint, in order and in time |
| FollowSession.ReportMeans | mission/follow.py:232-275 | after any history in clock order an accepted observation reports completed if and only if the new samples have all windows, timed out if and only if they do not and more than the timeout has passed since the first of them; index, count, distance, elapsed time and advance describe the session it leaves |
| FollowSession.RejectionMeans | mission/follow.py:242-245 | an observation that is not new changes nothing and reports the last known distance and whether the session had completed |
| FollowSession.SessionCompletableIff | mission/follow.py:213-259 | a session as it is started can be completed by some history if and only if its dwell times, less 1e-12 each, fit into its timeout |
| FixedActions.PhysicalVelocityAction | runtime_bridge/fixed_actions.py:480-499 | the accumulated result is the clamped action scaled per axis by the limit of its direction, and an error unless there are four values |
| FixedActions.VelocityWithinLimits | runtime_bridge/fixed_actions.py:480-499 | no axis exceeds the larger of its two speed limits, for any input |
| FixedActions.ServoDirection | runtime_bridge/fixed_actions.py:606-614 | the servo action is zero exactly within the tolerance, otherwise points towards the target and stays within the action bounds |
| FixedActions.FixedActionExecutor.Step | runtime_bridge/fixed_actions.py:540-597 | one call moves the executor's fields as the specification says and returns its action and status |
| FixedActions.RunningActionMeans | runtime_bridge/fixed_actions.py:556-614 | every call of every run that drives commands each axis by its own distance, from the measured position to the clamped target of its step taken from the pose of the call in which the step began: nothing exactly when the axis is locked or within tolerance, otherwise towards the target, at the gain times the distance within the action bounds, times the limit of that direction |
| FixedActions.StatusDescribesState | runtime_bridge/fixed_actions.py:540-604 | the reported index, phase and flags describe the executor after the call, and only a driving call commands anything |
| FixedActions.NewExecutor | runtime_bridge/fixed_actions.py:505-533 | construction fails exactly for an empty sequence; otherwise the executor is at its first step with the floored tuning |
| FixedActions.ExecutorTerminates | runtime_bridge/fixed_actions.py:540-604 | whatever is measured, an executor of n steps called at least every g seconds is done or failed n * (timeout + hold + g) seconds after its first call |
| FixedActions.FinishedIsFinal | runtime_bridge/fixed_actions.py:540-554 | done and failed are absorbing and command zero |
| FixedActions.DoneAndFailedMean | runtime_bridge/fixed_actions.py:540-604 | done if and only if every step, in order, had a call within tolerance of its clamped target before its timeout and its hold passed; failed if and only if some step so reached saw a call past its timeout first |
| FixedActions.SwingDecidesCompletion | runtime_bridge/fixed_actions.py:540-655 | some ordered calls bring a sequence to its end if and only if every swing move, clamped, is within the tolerance |
| FixedActions.LoadedSequencesCanComplete | runtime_bridge/fixed_actions.py:214-225 | every dig or dump sequence of a profile that the loader accepts is a valid configuration and can be completed |
| CommandSink.EvaluatePhysicalIsInEnvelope | runtime_bridge/live_control.py:113-125 | the envelope allows an action exactly when no locked axis moves and every axis is within its bounds up to 1e-12 |
| CommandSink.GateOpensIff | runtime_bridge/live_control.py:362-416 | a velocity passes the gate exactly when the sink is armed, the state neither outdated nor stale, all flags good, and the action in the envelope if there is one |
| CommandSink.GateReasonIsTrue | runtime_bridge/live_control.py:382-393 | the reason of every verdict is true of the sink, the command and the state it came with |
| CommandSink.PolicyActionsPassEnvelope | runtime_bridge/live_control.py:52-125 | every normalized policy action, masked and scaled, passes its envelope and the sink's own limits; others are refused |
| CommandSink.MotionCommandSink.SendVelocity | runtime_bridge/live_control.py:362-416 | bad arguments change nothing; otherwise the first failing gate decides, the state number is remembered even if the send raises, and the packet is zero unless allowed |
| CommandSink.MotionCommandSink.SendZero | runtime_bridge/live_control.py:418-420 | a zero packet is attempted under the next number |
| CommandSink.MotionCommandSink.DisarmSink | runtime_bridge/live_control.py:422-426 | the sink is disarmed before the zero packet is attempted, so also when that raises |
| CommandSink.SinkIsSafe | runtime_bridge/live_control.py:362-439 | over every run, including sends that raise: each non-zero packet had good safety flags, a fresh state, values within limits and envelope; allowed state numbers never go back; after a disarm every packet is zero |
| CommandSink.SinkSendsWhatItMay | runtime_bridge/live_control.py:362-439 | over every run each command whose arguments are taken makes exactly one attempt, in order, under its own stamp and the number of packets recorded before it; it carries the values of the command if no disarm came before, its state is not older than that of any velocity taken before, age and flags are good and the envelope holds, and zeros otherwise |
| CommandSink.RecordedNumbersHaveNoGap | runtime_bridge/live_control.py:436-439 | the recorded packets of any run are numbered 0, 1, 2, ... |
| CommandSink.ShortSendNumberIsReused | runtime_bridge/action_journal.py:106-118 | the next attempt carries the number of the previous one exactly when that was not recorded |
| ActionJournal.JournalFile.RotateIfNeeded | runtime_bridge/action_journal.py:200-207 | a new part begins exactly when the current one is not empty and the record would not fit |
| ActionJournal.JournalFile.WriteAll | runtime_bridge/action_journal.py:209-216 | through any series of short writes the last part gains the bytes those writes take: the whole record, or what was written before the error |
| ActionJournal.StepKeepsInvariant | runtime_bridge/action_journal.py:106-189 | each atomic step of sender, writer and close keeps order, queue bound, stop order, late-datagram bound and partition |
| ActionJournal.JournalFollowsSends | runtime_bridge/action_journal.py:65-189 | in every interleaving: while healthy, written, in-flight and queued records are the successful sends in order; at most 8193 are unwritten; the put never finds the queue full; after a failure the complete records are a prefix of the sends with at most a torn part of the next; at most one datagram leaves after the failure flag |
| ActionJournal.CleanCloseKeepsEverySend | runtime_bridge/action_journal.py:120-189 | when the writer ends without having given up a record, every successful send is in the parts it wrote, as long as retention has not deleted earlier parts of the session |
| ActionJournal.HealthyJournalDrains | runtime_bridge/action_journal.py:163-189 | no record gets stuck: from every state of an open, healthy journal, mid-record or mid-send, steps of the writer alone empty the queue, and then the files hold every successful send but one still to be queued |
| ActionJournal.ClosedJournalFinishes | runtime_bridge/action_journal.py:120-189 | a close comes to its end: once the stop item is queued, the writer alone finishes a journal that has not failed, and the files then hold every successful send |
| ActionJournal.ClosingJournalFinishes | runtime_bridge/action_journal.py:120-189 | before that, however full the queue, the writer alone makes the room for the stop item and then finishes in the same way |
| ActionJournal.PartsPartitionTheRecords | runtime_bridge/action_journal.py:200-216 | every part is within the size limit or holds a single record, only the last can be torn or empty, and the parts in order are a prefix of the sends |
| ActionJournal.PartIsSlice | runtime_bridge/action_journal.py:197-216 | each part holds a contiguous stretch of the written records |
| Exporter.ValidateCommandOrder | runtime_bridge/apps/export_orin_policy_log_to_open_loop_csv.py:42-53 | the loop reports the first pair of neighbours with a gap or a time regression |
| Exporter.OrderErrorIsConsecutive | runtime_bridge/apps/export_orin_policy_log_to_open_loop_csv.py:42-53 | no complaint about neighbours if and only if the whole list is numbered consecutively and never goes back in time |
| Exporter.ParsePcJournalCommands | runtime_bridge/apps/export_orin_policy_log_to_open_loop_csv.py:78-121 | the first bad line gives its error, blank lines are skipped, and a result is non-empty and consecutive |
| Exporter.EncodedLinesParse | runtime_bridge/action_journal.py:143-161 | the lines written for records decode to the commands of those records |
| MotionChannel.EventKeepsInvariant | runtime_bridge/action_journal.py:106-118 | the composed machine: each step of a command, of its send, of the writer or of a close keeps the sink in the state of its finished commands and the sends equal to its recorded packets |
| MotionChannel.SendsAreTheSinksPackets | runtime_bridge/live_control.py:382-439 | in every interleaving, even between a send and the moment it is counted, the successful sends are exactly the packets that the sink's commands have as recorded, and as many as it has counted when no command runs |
| MotionChannel.SendsCarryCommands | runtime_bridge/live_control.py:362-439 | in every interleaving there is one datagram sent for each command taken whose datagram left whole, and record k in the files is that of the k-th of them, with the values of the command if it may move the machine and zeros otherwise |
| MotionChannel.CommandsAreKept | runtime_bridge/live_control.py:362-439 | in every interleaving the commands whose arguments are taken are, in the order given, those that ran to their end and the one that has the lock; the refused ones ended at once |
| MotionChannel.CommandGoesThrough | runtime_bridge/live_control.py:362-439 | from every reachable state with the lock free, the journal open and healthy and the queue not full, each command whose arguments are taken can be carried out: its datagram leaves with what the command may do, is recorded and counted |
| MotionChannel.JournalledMotionIsJustified | runtime_bridge/live_control.py:362-439 | every record in the files that moves the machine comes from a command whose state, age, values and envelope permitted it |
| MotionChannel.CleanCloseCountsDatagrams | runtime_bridge/action_journal.py:120-189 | after a close that gave up nothing there is one record for each datagram the sink has counted, in the order of its numbers, up to retention |
| JournalFiles.PartFileReadsBackIff | runtime_bridge/apps/export_orin_policy_log_to_open_loop_csv.py:78-121 | from sink through journal to exporter: in every reachable state of the composed machine the exporter accepts a part file, torn bytes included, if and only if it holds a whole line, does not end inside a record, and the clock did not go back within it; then it reads back exactly the commands of its whole lines, and a cut file is refused naming the cut line |
| JournalFiles.EarlierPartsReadBack | runtime_bridge/action_journal.py:200-216 | a part that another one follows always reads back as its records, numbered on from those before it, unless the clock went back within it |
| JournalFiles.JournalReadsBackIff | runtime_bridge/apps/export_orin_policy_log_to_open_loop_csv.py:78-121 | the same condition for all part files read one after the other |
| JournalFiles.CompleteRecordsReadBack | runtime_bridge/action_journal.py:106-216 | the complete records of each part and of the whole journal read back by themselves when the clock did not go back |
| JournalFiles.FailedWriteCutsFile | runtime_bridge/action_journal.py:169-189 | from every state in which all is written, a write of the next record that fails half way makes the exporter refuse the last part if and only if more than the line feed is missing |
| JournalFiles.CutPartIsRefused | runtime_bridge/apps/export_orin_policy_log_to_open_loop_csv.py:83-86 | a run in which the first record is written whole, the second fails after one byte, and the part is refused |
| Exporter.SplitSessions | runtime_bridge/apps/export_orin_policy_log_to_open_loop_csv.py:129-138 | the loop cuts the commands exactly at the gaps longer than the limit, one session per stretch, none empty |
| Exporter.LatestMotionSession | runtime_bridge/apps/export_orin_policy_log_to_open_loop_csv.py:124-143 | the result is the stretch between two gaps that contains the last non-zero command, with nothing moving after it, and again consecutive; it fails exactly for a bad gap or a journal without motion |
| Exporter.LatestMotionIsUnique | runtime_bridge/apps/export_orin_policy_log_to_open_loop_csv.py:124-143 | that stretch is determined by the commands and the gap |
| Exporter.NormalizedAction | runtime_bridge/apps/export_orin_policy_log_to_open_loop_csv.py:146-159 | the loop normalizes every axis or reports the first that exceeds its limit |
| Exporter.ExportRecoversPolicyAction | runtime_bridge/apps/export_orin_policy_log_to_open_loop_csv.py:146-159 | exporting a masked, scaled policy action gives back the masked policy action |
| PlanIssuance.PlanTable.Publish | runtime_bridge/apps/live_machine_behavior_server.py:484-488 | a publication keeps the last seven entries and adds or overwrites its digest |
| PlanIssuance.PlanTable.Take | runtime_bridge/apps/live_machine_behavior_server.py:424-443 | a goal consumes its digest whatever the outcome, which depends on presence and on the identifier |
| PlanIssuance.IssuanceIsOneShot | runtime_bridge/apps/live_machine_behavior_server.py:424-488 | in every interleaving the table holds at most eight digests, each once, and a plan passes the check no more often than it was published, with one publication to spare while it is in the table |
| PlanIssuance.DigestIsOneShot | runtime_bridge/apps/live_machine_behavior_server.py:424-488 | the same count per digest, whatever identifiers were used |
| PlanIssuance.NextPublicationEvicts | runtime_bridge/apps/live_machine_behavior_server.py:484-488 | a plan survives the next publication of another digest if and only if fewer than seven newer ones are in the table |
| PlanIssuance.FreshPlanSurvivesSeven | runtime_bridge/apps/live_machine_behavior_server.py:484-488 | a new digest survives any seven later publications of others |
| PlanIssuance.PublicationSurvivesOne | runtime_bridge/apps/live_machine_behavior_server.py:484-488 | every plan survives one later publication of another digest |
| PlanIssuance.RepublishedPlanIsEvictedByTwo | runtime_bridge/apps/live_machine_behavior_server.py:484-488 | but a republished one need not survive two |
| PlanIssuance.RepublishedPlanIsLost | runtime_bridge/apps/live_machine_behavior_server.py:484-488 | a history of ten publications from the empty table in which it does not |
| BehaviorLease.LeaseHolder.Reserve | runtime_bridge/apps/live_machine_behavior_server.py:567-611 | the lease is given exactly when it is free, the journal healthy, the state fresh and safe, the actuators inside and the mission allowed; otherwise the owner is unchanged and busy is reported first |
| BehaviorLease.StepKeepsInvariant | runtime_bridge/apps/live_machine_behavior_server.py:567-1133 | every step other than a foreign release keeps the lease with the one live behaviour, motion with the owner, and the separating zeros |
| BehaviorLease.LeaseProtectsMotion | runtime_bridge/apps/live_machine_behavior_server.py:567-1133 | over all interleavings without a foreign release: only the owner emits motion, behaviours move one after the other, nothing moves after the sink was disarmed; a behaviour that reported quiescence at its first stop rested before its release, and one that rested and reported, at whichever stop, has a zero of its own after its last motion and before the motion of any later one |
| BehaviorLease.FirstReleaseDecides | runtime_bridge/apps/live_machine_behavior_server.py:773-775 | at the first release it is decided whether a report of quiescence can be trusted in every continuation: if and only if a zero has left since the last motion, or the behaviour is in its exception handler, or the sink is disarmed |
| BehaviorLease.ConfirmedQuiescenceCanBeLate | runtime_bridge/apps/live_machine_behavior_server.py:1095-1109 | a concrete run without a foreign release in which a second stop confirms quiescence after another behaviour has moved |
| BehaviorLease.CleanFinishesReleaseOnce | runtime_bridge/apps/live_machine_behavior_server.py:1029-1109 | there is no foreign release as long as finishing a goal does not raise after the release |
| BehaviorLease.ReleaseIsSafeIff | runtime_bridge/apps/live_machine_behavior_server.py:1106-1107 | a release keeps the lease exclusive if and only if the lease is free or the releaser's own |
| BehaviorLease.ReleaseKeepsMotionOwnedIff | runtime_bridge/apps/live_machine_behavior_server.py:1106-1107 | after a release all motion comes from the owner of the lease, in every continuation without another foreign release, if and only if the lease was free or the releaser's own, or its owner could no longer move, or the sink was disarmed |
| BehaviorLease.DoubleReleaseBreaksTheLease | runtime_bridge/apps/live_machine_behavior_server.py:773-775 | a concrete run in which the second release of a failed finish lets two behaviours move at once |
| FollowLoop.StateReceiver.Receive | runtime_bridge/apps/live_machine_behavior_server.py:318-352 | a state is held exactly when its provenance is accepted, under the next local number; the clock offset is fixed by the first |
| FollowLoop.AcceptedIffBeyondAll | runtime_bridge/live_control.py:296-322 | over any stream a packet is accepted if and only if source and machine match, its stamp is positive, it is beyond every packet accepted before in number and stamp, and its clock offset is within 250 ms of the first accepted one |
| FollowLoop.HeldStatesAdvance | runtime_bridge/live_control.py:296-322 | over any stream of packets a later held state has larger local and source numbers and a larger stamp |
| FollowLoop.TipTable.OnTip | runtime_bridge/apps/live_machine_behavior_server.py:373-381 | a valid tip is filed under its millisecond, in place if that is present, and the oldest go beyond 32 |
| FollowLoop.TableKeepsLatest | runtime_bridge/apps/live_machine_behavior_server.py:373-381 | the table holds at most 32 tips and answers with the newest message of a stamp; other stamps keep theirs except the oldest of a full table |
| FollowLoop.TableHoldsNewest | runtime_bridge/apps/live_machine_behavior_server.py:373-381 | after any stream of tips the table holds at most 32, one for a millisecond, each the newest of its millisecond among those in the right frame at a positive time |
| FollowLoop.StampInMillisecond | runtime_bridge/apps/live_machine_behavior_server.py:1312-1313 | the seconds of a tip stamp lie within the millisecond it is filed under |
| FollowLoop.TipIsNew | runtime_bridge/apps/live_machine_behavior_server.py:677-696 | the tip of a sample just taken is rejected exactly when it is not later than the acceptance of the goal, and never once a command is pending |
| FollowLoop.CommandsMatchTheirGate | runtime_bridge/apps/live_machine_behavior_server.py:636-770 | in every interleaving of states, tips and the loop: each command sent or resent was computed from exactly the sample it is gated against, and the tip of a sample just taken is rejected exactly when no command is pending and it is not later than the acceptance of the goal |
| FollowLoop.StepSends | runtime_bridge/apps/live_machine_behavior_server.py:636-770 | in every reachable state a step of the loop sends exactly this: the new command, for the sample whose tip was just accepted, when the goal goes on; the last command again when no state came in time while the held one is fresh and supervised; and nothing otherwise |
| FollowLoop.NewStateIsServed | runtime_bridge/apps/live_machine_behavior_server.py:652-770 | from every reachable state in which the loop waits, a newer state and a tip with its millisecond lead to a command for that state, sent at once, unless the goal ends or the session rejects the tip; and then the loop waits again |
| FollowLoop.FollowEndsIff | runtime_bridge/apps/live_machine_behavior_server.py:711-715 | over every interleaving with a clock that does not go back, Follow ends with success if and only if the tips its session accepted have all windows, and by timeout if and only if they do not and the last came more than the timeout after the first; the tracker never raises |
| FollowLoop.StepEnds | runtime_bridge/apps/live_machine_behavior_server.py:643-770 | each other end has its one cause in every reachable state: a stale state when no state came in time and there is none or an old one, a missing tip when the wait for it ran out, a closed gate exactly when something was sent into one, a stop exactly when the goal was cancelled or not supervised; what has ended stays so and sends nothing |
| FollowLoop.LoopReceives | runtime_bridge/apps/live_machine_behavior_server.py:318-381 | in every interleaving the loop works on the receiver of the whole stream of states and on the table of all tips that arrived, before it and beside it |
| WaypointObservation.LookaheadWaypoints | localmap/localmap_core/trajectory.py:143-157 | the next waypoints, the last one repeated beyond the end; an error when there is none |
| WaypointObservation.DistanceIsMinimum | localmap/localmap_core/trajectory.py:160-168 | the clipped projection gives the least distance to the segment, attained on it, and within 1e-6 of the least for a degenerate segment |
| WaypointObservation.TubeSigned | localmap/localmap_core/trajectory.py:171-193 | the tube term is between zero and one, and an index error occurs exactly beyond the end of a path of two or more waypoints |
| WaypointObservation.BuildWaypointObservationSlice | localmap/localmap_core/trajectory.py:196-224 | the slice is the flattened errors followed by progress, tube term and final flag, or the first error |
| WaypointObservation.SliceRecoversWaypoints | localmap/localmap_core/trajectory.py:143-224 | scaling an observed triple back and adding the tip gives the waypoint it stands for, the last one beyond the end |
| WaypointObservation.SliceTerms | localmap/localmap_core/trajectory.py:212-219 | behind the triples: a progress that counts the steps of the configured path in equal shares from zero to one, the tube term, and a flag that is one exactly from the last configured waypoint on |
| WaypointObservation.TubeBelowOneIffInside | localmap/localmap_core/trajectory.py:171-193 | for a segment that is not degenerate the tube term is below one if and only if the tip is closer than the radius to some point of the segment in progress |
| WaypointObservation.TubeTermIsGraded | localmap/localmap_core/trajectory.py:171-193 | inside the tube the term takes every value from zero up to one |
| WaypointObservation.FullProgressIffFinal | localmap/localmap_core/trajectory.py:214-216 | full progress and the final flag agree if and only if there are two or more waypoints or the index is past the first |
| UnityAdapter.WaypointValuesToUnity | runtime_bridge/unity_observation_adapter.py:73-81 | twelve values are converted triple by triple and the last three kept; any other length is an error |
| UnityAdapter.UnityIsInvertible | runtime_bridge/unity_observation_adapter.py:18-24 | the change of axes is a bijection |
| UnityAdapter.UnityKeepsLengthsAndFlipsHands | runtime_bridge/unity_observation_adapter.py:11-24 | dot products are kept and cross products change sign: a change of handedness, not a rotation |
| UnityAdapter.UnityKeepsSegmentDistance | localmap/localmap_core/trajectory.py:160-168 | the clipped projection distance is the same in both frames |
| UnityAdapter.UnityCommutesWithObservation | runtime_bridge/unity_observation_adapter.py:73-81 | converting the observation equals observing the converted scene, tube term included, for a lookahead of three; other lookaheads are refused, and both sides fail alike |
| OperatorLog.AppendOperatorLog | airy_mission_panel/src/panel_state.cpp:135-197 | the loops compute the append: shrink, merge, drop a warning or the oldest error, refuse a warning when full of errors |
| OperatorLog.LatestEntryIsTheMessage | airy_mission_panel/src/panel_state.cpp:165-196 | unless a warning finds no room, the latest entry carries the severity, text and stamp of the message under a name that is never empty |
| OperatorLog.LogKeepsTheLatest | airy_mission_panel/src/panel_state.cpp:135-197 | for every stream and all capacities the log fits, and what it stands for, of errors and of warnings, is a suffix of what arrived |
| OperatorLog.ErrorsOutliveWarnings | airy_mission_panel/src/panel_state.cpp:183-190 | with a fixed capacity, while a warning is retained or the log is not full, no error has ever been lost |
| OperatorLog.RepeatMergesIffNamed | airy_mission_panel/src/panel_state.cpp:175-196 | an exact repeat of a message just recorded is merged if and only if it names its module |

## Left out

- IEEE rounding, NaN and infinities: numbers are reals; the code's constants (1e-12, 1e-9, 1e-4, 1e-8) are kept as reals.
- Random numbers: samples, exponential draws and tetrahedron choices are arbitrary, so results hold for every sequence; their distribution is not modelled.
- `step_size_m` of the planner is taken as not negative, `box_size_m` and the speed limits of the exporter as positive and the distance normalizer as not zero; otherwise the source computes with NaN, infinities or negative steps.
- Waypoint indices are natural numbers; the source would count a negative one from the end.
- FixedActions.ExecutorTerminates: clocks are real numbers handed in by the caller, as in the source; the gaps between calls are assumed, not derived from the network.
- JSON text, base64, SHA-256 and UTF-8: records and lines are datatypes with the fields the code tests; a proper part of an encoded record, which lacks its closing brace, is a malformed line.
- Journal retention, file locks, directory creation and leftover part files: a session is taken to start with an empty first part.
- ActionJournal.CleanCloseKeepsEverySend: what retention deletes afterwards, which can be earlier parts of the same session, is not modelled.
- ActionJournal.JournalFollowsSends: the two threads interleave at whole queue operations and whole writes accepted by the file system; memory-model effects below the locks are not modelled.
- MotionChannel.SendsAreTheSinksPackets: the lock of the sink is the only one its commands wait for besides the one of the sender, and no other thread sends through that sender.
- Sockets, ROS actions, publishers, timers and quality of service: arbitrary steps of the environment.
- The policy network: its output is an arbitrary action.
- BehaviorLease.LeaseProtectsMotion: the first test of the 0.6 second stop loop is assumed to succeed, and exceptions other than send errors inside that loop are not modelled.
- DeliveredPath.DeliveredPolylineIsClear: the condition is exact for the surroundings of one edge; whether some whole plan needs all of it is not decided.
- FollowLoop.CommandsMatchTheirGate: the receiver moves its state number and its state in one step, while the source assigns them one after the other under a lock that the loop, which reads each at its own moment, does not take; a read between the two assignments is not modelled. Supervision, audit, gate verdicts, state ages and cancellation are arbitrary verdicts of the environment.
- Validation of trajectory snapshots, mission targets and profiles: long lists of independent field checks.
- Manual jog: its loop sends through the same lease and sink; its endpoint margins are not modelled.
- Bucket pitch, roll-pitch-yaw and the quaternion part of the Unity adapter: trigonometry.
- The 64-bit wrap of the operator log's repeat counter; the panel's other view fields.
- The CSV text, the median interval and the trailing zero row of the exporter; `parse_commands` for the Orin text log.
- `mission/state_machine.py`, `mission/replay.py` and `mission/home.py`: a short linear table and a weaker copy of the tracker.
