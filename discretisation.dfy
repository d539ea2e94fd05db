/**
 * The regular grid a window is sampled on: how many candidates an axis
 * gets and where they lie.
 */
module Discretisation {
  import opened PlannerTypes
  import opened Windows

  /** Candidates on the axis `[lo, hi]` at spacing `res`: `(hi - lo) / res + 1`, truncated to `int`. */
  function StepCount(lo: real, hi: real, res: real): int
    requires res > 0.0
  {
    Trunc((hi - lo) / res + 1.0)
  }

  /** The `i`-th candidate of an axis starting at `lo`. */
  function Candidate(lo: real, i: int, res: real): real
  {
    lo + (i as real) * res
  }

  /**
   * On a non-empty axis the step count is `floor((hi - lo) / res) + 1`,
   * so there is at least one candidate.
   */
  lemma StepCountOfOrderedAxis(lo: real, hi: real, res: real)
    requires res > 0.0 && lo <= hi
    ensures StepCount(lo, hi, res) == ((hi - lo) / res).Floor + 1
    ensures StepCount(lo, hi, res) >= 1
  {
    var x := (hi - lo) / res;
    assert x >= 0.0;
    assert (x + 1.0).Floor == x.Floor + 1;
  }

  /**
   * Every candidate of a non-empty axis lies in `[lo, hi]`; the first is
   * exactly `lo`, and the last lies less than one resolution below `hi`.
   */
  lemma CandidatesCoverAxis(lo: real, hi: real, res: real, i: int)
    requires res > 0.0 && lo <= hi
    requires 0 <= i < StepCount(lo, hi, res)
    ensures lo <= Candidate(lo, i, res) <= hi
    ensures Candidate(lo, 0, res) == lo
    ensures i == StepCount(lo, hi, res) - 1 ==> hi - res < Candidate(lo, i, res)
  {
    StepCountOfOrderedAxis(lo, hi, res);
    var n := i as real;
    assert n <= (hi - lo) / res;
    BelowQuotient(n, hi - lo, res);
    if i == StepCount(lo, hi, res) - 1 {
      assert (hi - lo) / res < n + 1.0;
      AboveQuotient(n + 1.0, hi - lo, res);
      Distribute(n, res);
    }
  }

  lemma BelowQuotient(a: real, d: real, res: real)
    requires res > 0.0 && a <= d / res
    ensures a * res <= d
  {
  }

  lemma AboveQuotient(a: real, d: real, res: real)
    requires res > 0.0 && d / res < a
    ensures d < a * res
  {
  }

  lemma Distribute(a: real, res: real)
    ensures (a + 1.0) * res == a * res + res
  {
  }

  /** Steps of the three axes of a window, linear axes at the linear resolution. */
  function StepsVx(w: Window, cfg: Config): int
    requires cfg.velocityResolution > 0.0
  {
    StepCount(w.vxMin, w.vxMax, cfg.velocityResolution)
  }

  function StepsVy(w: Window, cfg: Config): int
    requires cfg.velocityResolution > 0.0
  {
    StepCount(w.vyMin, w.vyMax, cfg.velocityResolution)
  }

  function StepsOmega(w: Window, cfg: Config): int
    requires cfg.angularVelocityResolution > 0.0
  {
    StepCount(w.omegaMin, w.omegaMax, cfg.angularVelocityResolution)
  }

  /** The command of grid cell `(i, j, k)`. */
  function CandidateVelocity(w: Window, cfg: Config, i: int, j: int, k: int): Velocity
  {
    Velocity(
      Candidate(w.vxMin, i, cfg.velocityResolution),
      Candidate(w.vyMin, j, cfg.velocityResolution),
      Candidate(w.omegaMin, k, cfg.angularVelocityResolution))
  }

  /**
   * Every cell of the grid of an ordered window, and cell `(0, 0, 0)`
   * in particular, commands a velocity inside the window.
   */
  lemma CandidateVelocityInWindow(w: Window, cfg: Config, i: int, j: int, k: int)
    requires cfg.velocityResolution > 0.0 && cfg.angularVelocityResolution > 0.0
    requires Ordered(w)
    requires 0 <= i < StepsVx(w, cfg) && 0 <= j < StepsVy(w, cfg) && 0 <= k < StepsOmega(w, cfg)
    ensures InWindow(w, CandidateVelocity(w, cfg, i, j, k))
  {
    CandidatesCoverAxis(w.vxMin, w.vxMax, cfg.velocityResolution, i);
    CandidatesCoverAxis(w.vyMin, w.vyMax, cfg.velocityResolution, j);
    CandidatesCoverAxis(w.omegaMin, w.omegaMax, cfg.angularVelocityResolution, k);
  }
}
