/**
 * Forward simulation of one candidate command and the score of the
 * resulting path.
 */
module Trajectories {
  import opened PlannerTypes

  /**
   * One forward-Euler step of holonomic body-frame motion: the velocity is
   * rotated by the yaw read back from the current orientation, and the new
   * orientation is built from that yaw plus `omega * DT`.
   */
  function Advance(trig: Trig, p: Pose, v: Velocity): Pose
  {
    var yaw := trig.yawOf(p.yaw);
    Pose(
      p.x + (v.vx * trig.cos(yaw) - v.vy * trig.sin(yaw)) * DT,
      p.y + (v.vx * trig.sin(yaw) + v.vy * trig.cos(yaw)) * DT,
      yaw + v.omega * DT)
  }

  /** The pose after `t` integration steps from the origin. */
  function PoseAfter(trig: Trig, v: Velocity, t: nat): Pose
  {
    if t == 0 then Origin else Advance(trig, PoseAfter(trig, v, t - 1), v)
  }

  /**
   * The path of `n` integration steps: the pose after each step, in order.
   * The origin itself is not part of the path.
   */
  function Trajectory(trig: Trig, v: Velocity, n: nat): (path: seq<Pose>)
    ensures |path| == n
    ensures n > 0 ==> path[n - 1] == PoseAfter(trig, v, n)
  {
    if n == 0 then [] else Trajectory(trig, v, n - 1) + [PoseAfter(trig, v, n)]
  }

  /** The `t`-th pose of a path is the pose after `t + 1` steps. */
  lemma {:induction false} TrajectoryAt(trig: Trig, v: Velocity, n: nat, t: nat)
    requires t < n
    ensures Trajectory(trig, v, n)[t] == PoseAfter(trig, v, t + 1)
  {
    if t < n - 1 {
      TrajectoryAt(trig, v, n - 1, t);
    }
  }

  /** A path is a prefix of every longer path of the same command. */
  lemma {:induction false} TrajectoryPrefix(trig: Trig, v: Velocity, m: nat, n: nat)
    requires m <= n
    ensures Trajectory(trig, v, n)[..m] == Trajectory(trig, v, m)
  {
    if m < n {
      TrajectoryPrefix(trig, v, m, n - 1);
      assert Trajectory(trig, v, n)[..n - 1] == Trajectory(trig, v, n - 1);
    }
  }

  /** Standing still: with a zero command every pose stays at position (0, 0), whatever the trigonometry. */
  lemma {:induction false} StandingStill(trig: Trig, t: nat)
    ensures PoseAfter(trig, Stop, t).x == 0.0 && PoseAfter(trig, Stop, t).y == 0.0
  {
    if t > 0 {
      StandingStill(trig, t - 1);
    }
  }

  lemma StandingStillPath(trig: Trig, n: nat)
    ensures forall t :: 0 <= t < n ==>
      Trajectory(trig, Stop, n)[t].x == 0.0 && Trajectory(trig, Stop, n)[t].y == 0.0
  {
    forall t | 0 <= t < n
      ensures Trajectory(trig, Stop, n)[t].x == 0.0 && Trajectory(trig, Stop, n)[t].y == 0.0
    {
      TrajectoryAt(trig, Stop, n, t);
      StandingStill(trig, t + 1);
    }
  }

  /**
   * The inner loop of path generation: starting from the origin, advance
   * the pose `stepTime` times and append each new pose to the path.
   */
  method SimulatePath(trig: Trig, v: Velocity, stepTime: nat) returns (path: seq<Pose>)
    ensures path == Trajectory(trig, v, stepTime)
  {
    var pose := Origin;
    path := [];
    var t := 0;
    while t < stepTime
      invariant 0 <= t <= stepTime
      invariant pose == PoseAfter(trig, v, t)
      invariant path == Trajectory(trig, v, t)
    {
      pose := Advance(trig, pose, v);
      path := path + [pose];
      t := t + 1;
    }
  }

  lemma SquareNonNegative(a: real)
    ensures a * a >= 0.0
  {
  }

  /**
   * The score of a path: squared distance from its last pose to the goal's
   * position. It is never negative, it is zero for a path ending on the
   * goal, and it depends on nothing but the last pose.
   */
  function Evaluate(path: seq<Pose>, goal: Pose): (cost: real)
    requires |path| >= 1
    ensures cost >= 0.0
    ensures path[|path| - 1].x == goal.x && path[|path| - 1].y == goal.y ==> cost == 0.0
  {
    var last := path[|path| - 1];
    var dx := goal.x - last.x;
    var dy := goal.y - last.y;
    SquareNonNegative(dx);
    SquareNonNegative(dy);
    dx * dx + dy * dy
  }

  /** Only the final pose of a path is scored: paths with the same last pose score the same. */
  lemma EvaluateLastPoseOnly(p: seq<Pose>, q: seq<Pose>, goal: Pose)
    requires |p| >= 1 && |q| >= 1
    requires p[|p| - 1] == q[|q| - 1]
    ensures Evaluate(p, goal) == Evaluate(q, goal)
  {
  }

  /** The score of a simulated path is the score of the pose after its last step. */
  lemma EvaluateTrajectory(trig: Trig, v: Velocity, n: nat, goal: Pose)
    requires n >= 1
    ensures Evaluate(Trajectory(trig, v, n), goal) == Evaluate([PoseAfter(trig, v, n)], goal)
  {
    EvaluateLastPoseOnly(Trajectory(trig, v, n), [PoseAfter(trig, v, n)], goal);
  }

  /** With a zero command and `n >= 1` steps, the score is the squared distance of the goal from the origin. */
  lemma StandingStillScore(trig: Trig, n: nat, goal: Pose)
    requires n >= 1
    ensures Evaluate(Trajectory(trig, Stop, n), goal) == goal.x * goal.x + goal.y * goal.y
  {
    StandingStill(trig, n);
  }
}
