/**
 * Shared vocabulary of the holonomic Dynamic Window Approach planner: the
 * velocity command, the robot-local pose, the planner's configuration, the
 * fixed constants of the node and the numeric conversions it relies on.
 */
module PlannerTypes {

  /** Control interval the window is computed over (seconds). */
  const INTERVAL: real := 0.1

  /** Forward-Euler integration step of the simulated paths (seconds). */
  const DT: real := 0.01

  /** Initial running minimum of the velocity selector: costs at or above it are never chosen. */
  const SENTINEL: real := 10000.0

  /** A body-frame command: linear x, linear y and angular z of a Twist. */
  datatype Velocity = Velocity(vx: real, vy: real, omega: real)

  const Stop: Velocity := Velocity(0.0, 0.0, 0.0)

  /**
   * A pose sample in the robot-local frame. `yaw` is the angle the pose's
   * orientation quaternion was built from; reading the orientation back
   * goes through `Trig.yawOf`.
   */
  datatype Pose = Pose(x: real, y: real, yaw: real)

  /** The pose every simulated path starts from. */
  const Origin: Pose := Pose(0.0, 0.0, 0.0)

  /**
   * The floating-point library calls the simulation makes, left
   * uninterpreted: `cos`, `sin`, and `yawOf`, the composition of building a
   * quaternion from a yaw angle and reading the yaw back from it.
   */
  datatype Trig = Trig(cos: real -> real, sin: real -> real, yawOf: real -> real)

  /** The parameters the node loads at start-up and that the planner reads. */
  datatype Config = Config(
    maxVelocity: real,
    maxAcceleration: real,
    maxAngularVelocity: real,
    maxAngularAcceleration: real,
    velocityResolution: real,
    angularVelocityResolution: real,
    simulateTime: real,
    goalXyTolerance: real)

  /** Conversion of a double to `int`: truncation toward zero. */
  function Trunc(x: real): (r: int)
    ensures 0.0 <= x ==> 0 <= r && r as real <= x < r as real + 1.0
    ensures x < 0.0 ==> r <= 0 && r as real - 1.0 < x <= r as real
  {
    if x >= 0.0 then x.Floor else -((-x).Floor)
  }

  /** Number of integration steps of every simulated path. */
  function StepTime(cfg: Config): int
  {
    Trunc(cfg.simulateTime / DT)
  }

  /**
   * The configurations under which one planning cycle is well defined:
   * resolutions are divisors, acceleration and velocity limits are
   * magnitudes, every path has a last pose, and the tolerance is a
   * distance.
   */
  predicate ValidConfig(cfg: Config)
  {
    && cfg.maxVelocity >= 0.0
    && cfg.maxAcceleration >= 0.0
    && cfg.maxAngularVelocity >= 0.0
    && cfg.maxAngularAcceleration >= 0.0
    && cfg.velocityResolution > 0.0
    && cfg.angularVelocityResolution > 0.0
    && StepTime(cfg) >= 1
    && cfg.goalXyTolerance >= 0.0
  }

  /** A command inside the velocity and angular-velocity limits. */
  predicate WithinLimits(cfg: Config, v: Velocity)
  {
    && -cfg.maxVelocity <= v.vx <= cfg.maxVelocity
    && -cfg.maxVelocity <= v.vy <= cfg.maxVelocity
    && -cfg.maxAngularVelocity <= v.omega <= cfg.maxAngularVelocity
  }
}
