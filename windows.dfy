/**
 * The dynamic window: the velocities reachable from the previous command
 * within one control interval, clamped to the configured limits.
 */
module Windows {
  import opened PlannerTypes

  datatype Window = Window(
    vxMin: real, vxMax: real,
    vyMin: real, vyMax: real,
    omegaMin: real, omegaMax: real)

  /** Every axis of the window is a non-empty interval. */
  predicate Ordered(w: Window)
  {
    w.vxMin <= w.vxMax && w.vyMin <= w.vyMax && w.omegaMin <= w.omegaMax
  }

  predicate InWindow(w: Window, v: Velocity)
  {
    && w.vxMin <= v.vx <= w.vxMax
    && w.vyMin <= v.vy <= w.vyMax
    && w.omegaMin <= v.omega <= w.omegaMax
  }

  /** Upper bound of one axis: `v + reach`, lowered to `limit` when it exceeds it. */
  function UpperBound(v: real, reach: real, limit: real): real
  {
    if v + reach > limit then limit else v + reach
  }

  /** Lower bound of one axis: `v - reach`, raised to `-limit` when it falls below it. */
  function LowerBound(v: real, reach: real, limit: real): real
  {
    if v - reach < -limit then -limit else v - reach
  }

  /**
   * The window for previous command `v`. Both linear axes share the linear
   * limits; the angular axis has its own.
   */
  function Reachable(cfg: Config, v: Velocity): (w: Window)
    // the clamps: no bound passes its limit, none passes v +- INTERVAL * accel
    ensures w.vxMax <= cfg.maxVelocity && w.vyMax <= cfg.maxVelocity
    ensures w.vxMin >= -cfg.maxVelocity && w.vyMin >= -cfg.maxVelocity
    ensures w.omegaMax <= cfg.maxAngularVelocity && w.omegaMin >= -cfg.maxAngularVelocity
    ensures w.vxMax <= v.vx + INTERVAL * cfg.maxAcceleration
    ensures w.vxMin >= v.vx - INTERVAL * cfg.maxAcceleration
    ensures w.vyMax <= v.vy + INTERVAL * cfg.maxAcceleration
    ensures w.vyMin >= v.vy - INTERVAL * cfg.maxAcceleration
    ensures w.omegaMax <= v.omega + INTERVAL * cfg.maxAngularAcceleration
    ensures w.omegaMin >= v.omega - INTERVAL * cfg.maxAngularAcceleration
    // each bound is one of its two candidates
    ensures w.vxMax == cfg.maxVelocity || w.vxMax == v.vx + INTERVAL * cfg.maxAcceleration
    ensures w.vxMin == -cfg.maxVelocity || w.vxMin == v.vx - INTERVAL * cfg.maxAcceleration
    ensures w.vyMax == cfg.maxVelocity || w.vyMax == v.vy + INTERVAL * cfg.maxAcceleration
    ensures w.vyMin == -cfg.maxVelocity || w.vyMin == v.vy - INTERVAL * cfg.maxAcceleration
    ensures w.omegaMax == cfg.maxAngularVelocity || w.omegaMax == v.omega + INTERVAL * cfg.maxAngularAcceleration
    ensures w.omegaMin == -cfg.maxAngularVelocity || w.omegaMin == v.omega - INTERVAL * cfg.maxAngularAcceleration
  {
    Window(
      LowerBound(v.vx, INTERVAL * cfg.maxAcceleration, cfg.maxVelocity),
      UpperBound(v.vx, INTERVAL * cfg.maxAcceleration, cfg.maxVelocity),
      LowerBound(v.vy, INTERVAL * cfg.maxAcceleration, cfg.maxVelocity),
      UpperBound(v.vy, INTERVAL * cfg.maxAcceleration, cfg.maxVelocity),
      LowerBound(v.omega, INTERVAL * cfg.maxAngularAcceleration, cfg.maxAngularVelocity),
      UpperBound(v.omega, INTERVAL * cfg.maxAngularAcceleration, cfg.maxAngularVelocity))
  }

  /**
   * From a previous command inside the limits and with non-negative
   * accelerations, every bound of the window lies inside the limits of its
   * axis, the previous command lies inside the window, and so the window is
   * never inverted.
   */
  lemma ReachableWellFormed(cfg: Config, v: Velocity)
    requires WithinLimits(cfg, v)
    requires cfg.maxAcceleration >= 0.0 && cfg.maxAngularAcceleration >= 0.0
    ensures var w := Reachable(cfg, v);
      && -cfg.maxVelocity <= w.vxMin && w.vxMax <= cfg.maxVelocity
      && -cfg.maxVelocity <= w.vyMin && w.vyMax <= cfg.maxVelocity
      && -cfg.maxAngularVelocity <= w.omegaMin && w.omegaMax <= cfg.maxAngularVelocity
      && InWindow(w, v)
      && Ordered(w)
  {
  }

  /** A window inside the limits contains only commands inside the limits. */
  lemma InWindowWithinLimits(cfg: Config, v: Velocity, w: Window)
    requires -cfg.maxVelocity <= w.vxMin && w.vxMax <= cfg.maxVelocity
    requires -cfg.maxVelocity <= w.vyMin && w.vyMax <= cfg.maxVelocity
    requires -cfg.maxAngularVelocity <= w.omegaMin && w.omegaMax <= cfg.maxAngularVelocity
    requires InWindow(w, v)
    ensures WithinLimits(cfg, v)
  {
  }
}
