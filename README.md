# Holonomic Dynamic Window Approach planner — verified model

This project models one planning cycle of the `holonomic_dwa` node of the
four-wheel-drive, independent-steering robot. Each cycle:

1. **Window.** It takes the previous velocity command and builds the dynamic window. That is the box of `(vx, vy, omega)` reachable within one control interval of 0.1 s, clamped to the configured maximum speeds.
2. **Grid.** It discretises the window on a regular grid and simulates every candidate command by forward Euler (step 0.01 s) from the robot-local origin. It stores each path's score in a three-dimensional cost grid. The score is the squared distance from the last pose to the robot-local goal.
3. **Selection.** It selects the first cell of minimum cost. The scan runs in `vx`, `vy`, `omega` order with a strict `<` against the sentinel 10000.
4. **Arrival.** When the goal lies within the position tolerance, it zeroes the linear components of the command and keeps the angular one.

The model is split into these modules:

- `PlannerTypes` holds the shared types and constants: commands, poses, the configuration, the node's constants, and double-to-`int` truncation.
- `Windows` is the dynamic window.
- `Discretisation` covers step counts and grid candidates.
- `Trajectories` covers path simulation and scoring.
- `Selection` is the arg-min scan.
- `Planning` holds the arrival test and the class `Planner`.

`Planner` holds the node's process-wide state as fields:
- the previous command;
- the six window bounds;
- the robot-local goal;
- the cost grid, an `array3<real>`.

Its methods change that state in place, as the source's functions change its globals.

Numbers are Dafny `real`s. `cos`, `sin` and the round trip through a tf quaternion (building one from a yaw, then reading the yaw back) are library calls. They enter the model as the three functions of a `Trig` value passed to each cycle. Nothing is assumed about them, so every property below holds for any trigonometry.

The cross-cycle invariant is `Planner.Valid()`:
- the configuration is usable;
- the stored command lies inside the velocity limits.

`Cycle` requires it and re-establishes it. Because the command lies inside the limits, the next cycle's window contains it and is never inverted.

Points where the behaviour of the code is easy to misread:

- **Path length.** The source pushes the pose after each integration step and never pushes the starting pose, so a path has exactly `trunc(SIMULATE_TIME / DT)` poses and pose `t` is the pose after `t + 1` steps.
- **No empty-grid signal.** The selector has no failure result. When no cost is below the sentinel, and in particular when the grid is empty, it returns cell `(0, 0, 0)`, whose command is the window's lower corner (`Planner.GetVelocity`).
- **Standing still.** With a zero command, only the position is shown to stay at `(0, 0)`. The yaw of each pose is the library's yaw round trip applied again, so it is not asserted to stay zero.

## Model

| member | source | states |
|---|---|---|
| PlannerTypes.Trunc | four_wheel_drive_independent_steering/src/holonomic_dwa.cpp:181-184 | converting a double to `int` truncates toward zero: the result is the integer next to `x` on the side of zero, within one of `x` |
| PlannerTypes.StepTime | four_wheel_drive_independent_steering/src/holonomic_dwa.cpp:184 | no contract: the number of integration steps, `SIMULATE_TIME / DT` truncated toward zero |
| Discretisation.StepCount | four_wheel_drive_independent_steering/src/holonomic_dwa.cpp:181-183 | no contract: the candidates of an axis, `(max - min) / res + 1` truncated toward zero (its value on ordered axes is stated by `StepCountOfOrderedAxis`) |
| Discretisation.Candidate | four_wheel_drive_independent_steering/src/holonomic_dwa.cpp:211-213 | no contract: the `i`-th candidate of an axis, `min + i * res` (its range is stated by `CandidatesCoverAxis`) |
| Discretisation.CandidateVelocity | four_wheel_drive_independent_steering/src/holonomic_dwa.cpp:271-273 | no contract: the command of cell `(i, j, k)`, one `Candidate` per axis, the linear axes at the linear resolution and omega at the angular one |
| Trajectories.Advance | four_wheel_drive_independent_steering/src/holonomic_dwa.cpp:222-225 | no contract: one Euler step; the yaw is read back through the quaternion round trip, the body-frame velocity is rotated by it and scaled by `DT`, and the new yaw is that yaw plus `omega * DT` |
| Trajectories.PoseAfter | four_wheel_drive_independent_steering/src/holonomic_dwa.cpp:218-225 | no contract: the pose after `t` Euler steps from the origin with zero yaw |
| Planning.Arrived | four_wheel_drive_independent_steering/src/holonomic_dwa.cpp:132-133 | no contract: the arrival test, the goal's squared distance below the squared tolerance (its agreement with the `sqrt` test is `ArrivedMatchesDistance`) |
| Windows.Reachable | four_wheel_drive_independent_steering/src/holonomic_dwa.cpp:152-175 | each bound is previous value ± `INTERVAL * accel` clamped to ±max; no bound passes its limit or its reach; each bound equals either its limit or its unclamped value |
| Windows.ReachableWellFormed | four_wheel_drive_independent_steering/src/holonomic_dwa.cpp:150-175 | given a previous command inside the limits and accelerations ≥ 0, all six bounds lie in `[-max, max]` of their axis; the previous command lies inside the window; so every axis has `min <= max` |
| Windows.InWindowWithinLimits | four_wheel_drive_independent_steering/src/holonomic_dwa.cpp:152-175 | a command inside a window whose bounds lie within the limits is itself within the limits |
| Discretisation.StepCountOfOrderedAxis | four_wheel_drive_independent_steering/src/holonomic_dwa.cpp:181-183 | on an axis with `min <= max` and `res > 0`, the truncated `(max - min) / res + 1` equals `floor((max - min) / res) + 1`, so it is at least 1 |
| Discretisation.CandidatesCoverAxis | four_wheel_drive_independent_steering/src/holonomic_dwa.cpp:211-213 | every candidate `min + i * res` with `i` below the step count lies in `[min, max]`; index 0 gives exactly `min`; the last candidate is less than one resolution below `max` |
| Discretisation.CandidateVelocityInWindow | four_wheel_drive_independent_steering/src/holonomic_dwa.cpp:208-213 | the command of every grid cell of an ordered window lies inside the window |
| Trajectories.Trajectory | four_wheel_drive_independent_steering/src/holonomic_dwa.cpp:214-227 | a path of `n` steps has exactly `n` poses, the last being the pose after `n` steps: the starting pose is not pushed, only the pose after each step (`TrajectoryAt`: pose `t` is the pose after `t + 1` steps) |
| Trajectories.TrajectoryAt | four_wheel_drive_independent_steering/src/holonomic_dwa.cpp:221-226 | the `t`-th pose pushed is the pose after `t + 1` Euler steps from the origin |
| Trajectories.TrajectoryPrefix | four_wheel_drive_independent_steering/src/holonomic_dwa.cpp:221-226 | the path of `m` steps is a prefix of the path of every `n >= m` steps of the same command |
| Trajectories.StandingStill | four_wheel_drive_independent_steering/src/holonomic_dwa.cpp:218-225 | with a zero command, the position stays at `(0, 0)` after any number of steps, whatever the trigonometry |
| Trajectories.StandingStillPath | four_wheel_drive_independent_steering/src/holonomic_dwa.cpp:218-226 | with a zero command, every pose of the path is at position `(0, 0)` |
| Trajectories.SimulatePath | four_wheel_drive_independent_steering/src/holonomic_dwa.cpp:214-227 | the step loop, advancing the pose and pushing it `stepTime` times, produces exactly the path of `stepTime` steps |
| Trajectories.Evaluate | four_wheel_drive_independent_steering/src/holonomic_dwa.cpp:238-245 | the score of a non-empty path is never negative and is zero when the last pose is on the goal's position |
| Trajectories.EvaluateLastPoseOnly | four_wheel_drive_independent_steering/src/holonomic_dwa.cpp:240-243 | two paths with the same last pose score the same: nothing before the last pose is looked at |
| Trajectories.EvaluateTrajectory | four_wheel_drive_independent_steering/src/holonomic_dwa.cpp:228 | the score stored for a candidate is the score of the single pose after its last step |
| Trajectories.StandingStillScore | four_wheel_drive_independent_steering/src/holonomic_dwa.cpp:228 | a zero command scores the goal's squared distance from the origin |
| Selection.ArgMin | four_wheel_drive_independent_steering/src/holonomic_dwa.cpp:251-267 | if some cost is below 10000, the returned cell has minimum cost and every cell scanned before it costs strictly more, so ties go to the first; otherwise the result is `(0, 0, 0)`; on a non-empty grid the cell is in bounds |
| Selection.SelectedUnique | four_wheel_drive_independent_steering/src/holonomic_dwa.cpp:256-267 | the selection rule determines a single cell, so the scan's result is fully specified |
| Selection.StrictMinimumExample | four_wheel_drive_independent_steering/src/holonomic_dwa.cpp:256-267 | on a 2×2×2 grid with a single minimum at `(1, 0, 1)`, the scan returns that cell |
| Selection.TieBreakExample | four_wheel_drive_independent_steering/src/holonomic_dwa.cpp:256-267 | with equal minima at `(0, 0, 0)` and `(1, 1, 1)`, the scan returns the one scanned first |
| Planning.CellCost | four_wheel_drive_independent_steering/src/holonomic_dwa.cpp:211-228 | the cost of a cell, the score of its candidate's simulated path, is never negative |
| Planning.ArrivalOverride | four_wheel_drive_independent_steering/src/holonomic_dwa.cpp:133-137 | on arrival, linear x and y become 0; otherwise the command is unchanged; angular z is kept in both cases |
| Planning.ArrivalOverrideWithinLimits | four_wheel_drive_independent_steering/src/holonomic_dwa.cpp:133-137 | the override keeps a command inside the limits, since 0 is inside them |
| Planning.ArrivedMatchesDistance | four_wheel_drive_independent_steering/src/holonomic_dwa.cpp:132-133 | for a tolerance ≥ 0 and any `d >= 0` whose square is the goal's squared distance, `d < tolerance` holds exactly when the squared comparison does |
| Planning.EmittedCommandWithinLimits | four_wheel_drive_independent_steering/src/holonomic_dwa.cpp:131-137 | the override of a grid cell's candidate, in a window inside the limits, is inside the limits; its `omega` is inside the window; off arrival the whole command is inside the window. This is what the next cycle's window needs |
| Planning.ArrivalExample | four_wheel_drive_independent_steering/src/holonomic_dwa.cpp:132-137 | a goal at `(0.01, 0)` with tolerance 0.05 has arrived: the command becomes `(0, 0, omega)` with the selected `omega` |
| Planning.ArrivalLeavesWindow | four_wheel_drive_independent_steering/src/holonomic_dwa.cpp:129-137 | on arrival the emitted command can lie outside the window: after a command of 0.5 with acceleration 1, the vx axis is `[0.4, 0.6]` and the override sends 0 |
| Planning.FillOmegaRow | four_wheel_drive_independent_steering/src/holonomic_dwa.cpp:210-229 | the innermost fill loop stores in every cell `(i, j, k)` of its row the score of that cell's path, and leaves the earlier cells as they were |
| Planning.FillVyPlane | four_wheel_drive_independent_steering/src/holonomic_dwa.cpp:209-232 | the middle fill loop does the same for every row of plane `i` |
| Planning.Planner.constructor | four_wheel_drive_independent_steering/src/holonomic_dwa.cpp:27-38 | start-up state: zero command; all window bounds 0, since they are initialised before the parameters are loaded; zero goal; empty grid; the invariant holds |
| Planning.Planner.CalculateDynamicWindow | four_wheel_drive_independent_steering/src/holonomic_dwa.cpp:147-176 | the window fields become the window reachable from the stored command; command, goal and grid are untouched |
| Planning.Planner.GeneratePaths | four_wheel_drive_independent_steering/src/holonomic_dwa.cpp:178-236 | a new grid is allocated, so no stale entry survives; it has `step_vx × step_vy × step_omega` cells, at least one per axis; every cell holds its candidate's score against the current goal; command, goal and window are untouched |
| Planning.Planner.GetVelocity | four_wheel_drive_independent_steering/src/holonomic_dwa.cpp:247-275 | the returned cell satisfies the selection rule and is in bounds on a non-empty grid; the command is that cell's candidate, and the window's lower corner when no cost is below 10000 |
| Planning.Planner.Cycle | four_wheel_drive_independent_steering/src/holonomic_dwa.cpp:129-138 | see below |

`Planning.Planner.Cycle` states the following:
- the invariant is preserved;
- the window is the one reachable from the previous command;
- the grid is fresh, correctly shaped and scored against the new goal;
- the stored and returned command is the arrival override applied to the candidate of the selected cell;
- `omega` stays inside the window;
- off arrival, the whole command lies inside the window.

## Left out

- The ROS plumbing of the node is not modelled: parameter loading, the goal subscriber and its callback, the velocity and debug publishers, the tf transform lookups and their exception handling, the loop rate and the console output (I/O and foreign library calls). The transformed robot-local goal is an input of `Planner.Cycle`. The conditions under which the main loop runs a cycle at all (a transform was found and a goal was received) are outside the model.
- `cos`, `sin` and the yaw read back from a quaternion built from a yaw are transcendental library calls. They are the uninterpreted functions of a `Trig` value.
- IEEE double rounding is not modelled: all arithmetic is exact `real` arithmetic. Overflow of the double-to-`int` conversions of the step counts is not modelled either; the conversion is exact truncation toward zero.
- `sqrt` in the arrival test is replaced by comparing the squared distance with the squared tolerance. The configuration requires the tolerance to be ≥ 0, and `Planning.ArrivedMatchesDistance` shows the two tests agree under that condition.
- The parameters `ALPHA`, `BETA`, `GAMMA`, `ROBOT_RADIUS` and `GOAL_YAW_TOLERANCE` are loaded but never read by the algorithm, so they are not in `Config`.
- fwdis/src/waypoints_test.cpp is not part of this model: it only publishes two fixed waypoints in a loop.
- The configuration is not validated by the source. In the model, a usable configuration is a precondition of `Planner.constructor` and part of `Planner.Valid()`:
  - the maxima and accelerations are ≥ 0;
  - the resolutions are > 0;
  - `trunc(SIMULATE_TIME / DT) >= 1`;
  - the tolerance is ≥ 0.

  Outside these conditions the source divides by zero, resizes with a negative count, or reads the pose before the first of an empty path.
- Trajectories.Evaluate: it does not state the converse, that a zero score means the last pose is on the goal's position. Only the one-way statement is proved, because the solver does not reliably conclude that a nonzero square is positive.
- Planning.Planner.Cycle: the goal the scores are compared against is the parameter of the cycle. When the source's goal transform fails, the previous goal stays in use; the model does not capture that case.
- Trajectories.SimulatePath: a pose is advanced by calling `Advance`, the step function that defines `PoseAfter`, instead of restating the update inline. The arithmetic is the same.
