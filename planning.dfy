/**
 * The planner node's state and one planning cycle: compute the window,
 * fill the cost grid, select a command, and stop linear motion on arrival.
 */
module Planning {
  import opened PlannerTypes
  import opened Windows
  import opened Discretisation
  import opened Trajectories
  import opened Selection

  /** The cost stored for cell `(i, j, k)`: the score of that cell's simulated path. */
  function CellCost(trig: Trig, goal: Pose, w: Window, cfg: Config, i: int, j: int, k: int): (cost: real)
    requires StepTime(cfg) >= 1
    ensures cost >= 0.0
  {
    Evaluate(Trajectory(trig, CandidateVelocity(w, cfg, i, j, k), StepTime(cfg)), goal)
  }

  /**
   * The arrival test: the goal's distance from the robot is below the
   * tolerance, compared on squares.
   */
  predicate Arrived(goal: Pose, tolerance: real)
  {
    goal.x * goal.x + goal.y * goal.y < tolerance * tolerance
  }

  /**
   * The arrival override applied to the selected command: on arrival the
   * linear components become zero; the angular component is kept in every
   * case.
   */
  function ArrivalOverride(selected: Velocity, goal: Pose, tolerance: real): (command: Velocity)
    ensures command.omega == selected.omega
    ensures Arrived(goal, tolerance) ==> command.vx == 0.0 && command.vy == 0.0
    ensures !Arrived(goal, tolerance) ==> command == selected
  {
    if Arrived(goal, tolerance) then selected.(vx := 0.0, vy := 0.0) else selected
  }

  /** The override keeps a command inside the limits, since zero is inside them. */
  lemma ArrivalOverrideWithinLimits(cfg: Config, selected: Velocity, goal: Pose)
    requires cfg.maxVelocity >= 0.0
    requires WithinLimits(cfg, selected)
    ensures WithinLimits(cfg, ArrivalOverride(selected, goal, cfg.goalXyTolerance))
  {
  }

  /**
   * For a non-negative tolerance, comparing squares decides the same as
   * comparing the distance itself, for any `d >= 0` whose square is the
   * squared distance of the goal.
   */
  lemma ArrivedMatchesDistance(goal: Pose, tolerance: real, d: real)
    requires tolerance >= 0.0 && d >= 0.0
    requires d * d == goal.x * goal.x + goal.y * goal.y
    ensures d < tolerance <==> Arrived(goal, tolerance)
  {
    if d < tolerance {
      SquareLess(d, tolerance);
    } else {
      SquareAtMost(tolerance, d);
    }
  }

  /**
   * The command a cycle emits, the arrival override of a grid cell's
   * candidate in a window inside the limits, is itself inside the limits:
   * its angular component is always inside the window, and off arrival the
   * whole command is.
   */
  lemma EmittedCommandWithinLimits(cfg: Config, w: Window, i: int, j: int, k: int, goal: Pose)
    requires ValidConfig(cfg) && Ordered(w)
    requires -cfg.maxVelocity <= w.vxMin && w.vxMax <= cfg.maxVelocity
    requires -cfg.maxVelocity <= w.vyMin && w.vyMax <= cfg.maxVelocity
    requires -cfg.maxAngularVelocity <= w.omegaMin && w.omegaMax <= cfg.maxAngularVelocity
    requires 0 <= i < StepsVx(w, cfg) && 0 <= j < StepsVy(w, cfg) && 0 <= k < StepsOmega(w, cfg)
    ensures var command := ArrivalOverride(CandidateVelocity(w, cfg, i, j, k), goal, cfg.goalXyTolerance);
      && WithinLimits(cfg, command)
      && w.omegaMin <= command.omega <= w.omegaMax
      && (!Arrived(goal, cfg.goalXyTolerance) ==> InWindow(w, command))
  {
    var selected := CandidateVelocity(w, cfg, i, j, k);
    CandidateVelocityInWindow(w, cfg, i, j, k);
    InWindowWithinLimits(cfg, selected, w);
    ArrivalOverrideWithinLimits(cfg, selected, goal);
  }

  /** A goal 0.01 ahead with tolerance 0.05 has arrived: the linear components become zero, the angular one stays. */
  lemma ArrivalExample(selected: Velocity)
    ensures ArrivalOverride(selected, Pose(0.01, 0.0, 0.0), 0.05) == Velocity(0.0, 0.0, selected.omega)
  {
  }

  /**
   * On arrival the command can leave the window: after moving at 0.5 with
   * acceleration 1, the vx axis of the window is [0.4, 0.6], and the
   * override commands 0.
   */
  lemma ArrivalLeavesWindow()
    ensures var cfg := Config(1.0, 1.0, 1.0, 1.0, 0.1, 0.1, 1.0, 0.05);
      var w := Reachable(cfg, Velocity(0.5, 0.0, 0.0));
      && w.vxMin == 0.4 && w.vxMax == 0.6
      && !InWindow(w, ArrivalOverride(Velocity(0.5, 0.0, 0.0), Origin, cfg.goalXyTolerance))
  {
  }

  lemma SquareLess(a: real, b: real)
    requires 0.0 <= a < b
    ensures a * a < b * b
  {
    var e := b - a;
    assert b * b == (a + e) * (a + e);
    assert (a + e) * (a + e) == a * a + 2.0 * a * e + e * e;
  }

  lemma SquareAtMost(a: real, b: real)
    requires 0.0 <= a <= b
    ensures a * a <= b * b
  {
  }

  /** Loop invariant of the grid fill: every cell before `(x, y, z)` in scan order holds its score. */
  ghost predicate Filled(c: array3<real>, trig: Trig, g: Pose, w: Window, cfg: Config, x: int, y: int, z: int)
    reads c
    requires StepTime(cfg) >= 1
  {
    forall p, q, r :: InGrid(c, p, q, r) && ScannedBefore(p, q, r, x, y, z) ==>
      c[p, q, r] == CellCost(trig, g, w, cfg, p, q, r)
  }

  /** The innermost loop of the grid fill: score the cells `(i, j, 0)`, `(i, j, 1)`, ... in turn. */
  method FillOmegaRow(c: array3<real>, trig: Trig, g: Pose, w: Window, cfg: Config, i: nat, j: nat)
    requires StepTime(cfg) >= 1
    requires i < c.Length0 && j < c.Length1
    requires Filled(c, trig, g, w, cfg, i, j, 0)
    modifies c
    ensures Filled(c, trig, g, w, cfg, i, j + 1, 0)
  {
    var stepTime := StepTime(cfg);
    var k := 0;
    while k < c.Length2
      invariant 0 <= k <= c.Length2
      invariant Filled(c, trig, g, w, cfg, i, j, k)
    {
      var v := CandidateVelocity(w, cfg, i, j, k);
      var path := SimulatePath(trig, v, stepTime);
      c[i, j, k] := Evaluate(path, g);
      k := k + 1;
    }
  }

  /** The middle loop of the grid fill: the rows `(i, 0, _)`, `(i, 1, _)`, ... in turn. */
  method FillVyPlane(c: array3<real>, trig: Trig, g: Pose, w: Window, cfg: Config, i: nat)
    requires StepTime(cfg) >= 1
    requires i < c.Length0
    requires Filled(c, trig, g, w, cfg, i, 0, 0)
    modifies c
    ensures Filled(c, trig, g, w, cfg, i + 1, 0, 0)
  {
    var j := 0;
    while j < c.Length1
      invariant 0 <= j <= c.Length1
      invariant Filled(c, trig, g, w, cfg, i, j, 0)
    {
      FillOmegaRow(c, trig, g, w, cfg, i, j);
      j := j + 1;
    }
  }

  /**
   * The node's mutable state: the previous command, the window, the
   * robot-local goal and the cost grid, all rewritten every cycle.
   */
  class Planner {
    const config: Config
    var velocity: Velocity
    var vxMin: real
    var vxMax: real
    var vyMin: real
    var vyMax: real
    var omegaMin: real
    var omegaMax: real
    var goal: Pose
    var cost: array3<real>

    /** Between cycles: the configuration is usable and the last command is inside the limits. */
    ghost predicate Valid()
      reads this
    {
      ValidConfig(config) && WithinLimits(config, velocity)
    }

    function CurrentWindow(): Window
      reads this
    {
      Window(vxMin, vxMax, vyMin, vyMax, omegaMin, omegaMax)
    }

    /**
     * Start-up: the command is zero; the window bounds start at zero, since
     * they are initialised before the parameters are loaded; the goal is
     * the zero pose and the grid is empty.
     */
    constructor (cfg: Config)
      requires ValidConfig(cfg)
      ensures Valid()
      ensures config == cfg && velocity == Stop && goal == Origin
      ensures CurrentWindow() == Window(0.0, 0.0, 0.0, 0.0, 0.0, 0.0)
      ensures cost.Length0 == 0 && cost.Length1 == 0 && cost.Length2 == 0
    {
      config := cfg;
      velocity := Stop;
      vxMin, vxMax, vyMin, vyMax, omegaMin, omegaMax := 0.0, 0.0, 0.0, 0.0, 0.0, 0.0;
      goal := Origin;
      cost := new real[0, 0, 0];
    }

    /** Overwrite the window with the one reachable from the previous command. */
    method CalculateDynamicWindow()
      modifies this
      ensures CurrentWindow() == Reachable(config, velocity)
      ensures velocity == old(velocity) && goal == old(goal) && cost == old(cost)
    {
      var v := velocity;
      var reach := INTERVAL * config.maxAcceleration;
      var angularReach := INTERVAL * config.maxAngularAcceleration;
      var newVxMax := v.vx + reach;
      if newVxMax > config.maxVelocity {
        newVxMax := config.maxVelocity;
      }
      var newVxMin := v.vx - reach;
      if newVxMin < -config.maxVelocity {
        newVxMin := -config.maxVelocity;
      }
      var newVyMax := v.vy + reach;
      if newVyMax > config.maxVelocity {
        newVyMax := config.maxVelocity;
      }
      var newVyMin := v.vy - reach;
      if newVyMin < -config.maxVelocity {
        newVyMin := -config.maxVelocity;
      }
      var newOmegaMax := v.omega + angularReach;
      if newOmegaMax > config.maxAngularVelocity {
        newOmegaMax := config.maxAngularVelocity;
      }
      var newOmegaMin := v.omega - angularReach;
      if newOmegaMin < -config.maxAngularVelocity {
        newOmegaMin := -config.maxAngularVelocity;
      }
      vxMin, vxMax, vyMin, vyMax, omegaMin, omegaMax := newVxMin, newVxMax, newVyMin, newVyMax, newOmegaMin, newOmegaMax;
    }

    /** The cost grid has one cell per candidate of the current window. */
    ghost predicate GridShaped()
      reads this
      requires ValidConfig(config)
    {
      && cost.Length0 == StepsVx(CurrentWindow(), config)
      && cost.Length1 == StepsVy(CurrentWindow(), config)
      && cost.Length2 == StepsOmega(CurrentWindow(), config)
    }

    /** Every cell holds the score of its candidate's simulated path against the current goal. */
    ghost predicate GridScored(trig: Trig)
      reads this, cost
      requires ValidConfig(config)
    {
      forall i, j, k :: InGrid(cost, i, j, k) ==>
        cost[i, j, k] == CellCost(trig, goal, CurrentWindow(), config, i, j, k)
    }

    /**
     * Rebuild the cost grid for the current window: a new grid with one
     * cell per candidate, each holding its candidate's score.
     */
    method GeneratePaths(trig: Trig)
      requires ValidConfig(config) && Ordered(CurrentWindow())
      modifies this
      ensures fresh(cost)
      ensures GridShaped() && GridScored(trig)
      ensures cost.Length0 >= 1 && cost.Length1 >= 1 && cost.Length2 >= 1
      ensures velocity == old(velocity) && goal == old(goal) && CurrentWindow() == old(CurrentWindow())
    {
      var w := CurrentWindow();
      StepCountOfOrderedAxis(w.vxMin, w.vxMax, config.velocityResolution);
      StepCountOfOrderedAxis(w.vyMin, w.vyMax, config.velocityResolution);
      StepCountOfOrderedAxis(w.omegaMin, w.omegaMax, config.angularVelocityResolution);
      var stepVx := StepsVx(w, config);
      var stepVy := StepsVy(w, config);
      var stepOmega := StepsOmega(w, config);
      var c := new real[stepVx, stepVy, stepOmega]((p: nat, q: nat, r: nat) => 0.0);
      var i := 0;
      while i < stepVx
        invariant 0 <= i <= stepVx
        invariant Filled(c, trig, goal, w, config, i, 0, 0)
        modifies c
      {
        FillVyPlane(c, trig, goal, w, config, i);
        i := i + 1;
      }
      cost := c;
    }

    /**
     * Select the command: the candidate of the cell picked by the
     * selection rule (its indices are returned as well).
     */
    method GetVelocity() returns (v: Velocity, i: nat, j: nat, k: nat)
      ensures Selected(cost, i, j, k)
      ensures cost.Length0 > 0 && cost.Length1 > 0 && cost.Length2 > 0 ==> InGrid(cost, i, j, k)
      ensures v == CandidateVelocity(CurrentWindow(), config, i, j, k)
      ensures !SomeBelowSentinel(cost) ==> v == Velocity(vxMin, vyMin, omegaMin)
    {
      i, j, k := ArgMin(cost);
      v := Velocity(
        Candidate(vxMin, i, config.velocityResolution),
        Candidate(vyMin, j, config.velocityResolution),
        Candidate(omegaMin, k, config.angularVelocityResolution));
    }

    /**
     * One planning cycle for the robot-local goal `localGoal`: window,
     * grid, selection, then the arrival override, which zeroes the linear
     * components and keeps the angular one. The command is stored for the
     * next cycle and returned for publishing.
     */
    method Cycle(trig: Trig, localGoal: Pose) returns (command: Velocity)
      requires Valid()
      modifies this
      ensures Valid()
      ensures goal == localGoal && command == velocity
      ensures CurrentWindow() == Reachable(config, old(velocity))
      ensures fresh(cost) && GridShaped() && GridScored(trig)
      ensures exists i, j, k ::
        && Selected(cost, i, j, k)
        && InGrid(cost, i, j, k)
        && command == ArrivalOverride(CandidateVelocity(CurrentWindow(), config, i, j, k), localGoal, config.goalXyTolerance)
      ensures CurrentWindow().omegaMin <= command.omega <= CurrentWindow().omegaMax
      ensures !Arrived(localGoal, config.goalXyTolerance) ==> InWindow(CurrentWindow(), command)
    {
      goal := localGoal;
      CalculateDynamicWindow();
      ReachableWellFormed(config, velocity);
      GeneratePaths(trig);
      var selected, i, j, k := GetVelocity();
      EmittedCommandWithinLimits(config, CurrentWindow(), i, j, k, localGoal);
      command := selected;
      if Arrived(localGoal, config.goalXyTolerance) {
        command := command.(vx := 0.0, vy := 0.0);
      }
      assert command == ArrivalOverride(selected, localGoal, config.goalXyTolerance);
      velocity := command;
      assert Selected(cost, i, j, k) && InGrid(cost, i, j, k);
    }
  }
}
