/** Motion profiles of the rotary axis, over exact reals.

    A move follows a trapezoidal speed profile (a triangle when the distance is short); a stop
    follows a constant-deceleration ramp.  Both are sampled at an elapsed time, so everything the
    axis reports comes from `Sample`. */
module Motion {
  import opened Reals

  /** The device constants of one axis. */
  datatype Parameters = Parameters(
    minimum: real, maximum: real, initial: real, home: real,
    maxSpeed: real, acceleration: real, deceleration: real, tickInterval: real)
  {
    predicate Valid() {
      && minimum < maximum
      && minimum <= initial <= maximum
      && minimum <= home <= maximum
      && maxSpeed > 0.0 && acceleration > 0.0 && deceleration > 0.0 && tickInterval > 0.0
    }
  }

  const REFERENCE := Parameters(-180.0, 180.0, 0.0, 0.0, 90.0, 180.0, 180.0, 0.01)

  /** What the library square root promises; the model takes the function itself as a parameter. */
  ghost predicate SquareRoot(sqrt: real -> real) {
    forall x: real :: x >= 0.0 ==> sqrt(x) >= 0.0 && sqrt(x) * sqrt(x) == x
  }

  datatype Motion =
    | Still
    | Trajectory(start: real, target: real, direction: real, a: real, d: real,
                 peak: real, ta: real, td: real, tc: real, duration: real)
    | Brake(position: real, velocity: real, deceleration: real, direction: real, duration: real)

  datatype Reading = Reading(position: real, velocity: real, finished: bool)

  /** The accelerate, cruise and brake times that follow from a peak speed. */
  function Profile(start: real, target: real, peak: real, acceleration: real, deceleration: real): Motion
    requires acceleration > 0.0 && deceleration > 0.0
  {
    var direction := if target >= start then 1.0 else -1.0;
    var distance := Abs(target - start);
    var ta := peak / acceleration;
    var td := peak / deceleration;
    var ramp := peak * (ta + td) / 2.0;
    var tc := if peak != 0.0 then Max(0.0, (distance - ramp) / peak) else 0.0;
    Trajectory(start, target, direction, acceleration, deceleration, peak, ta, td, tc, ta + tc + td)
  }

  /** The requested speed, or the speed at which the two ramps alone fill the distance. */
  function Peak(sqrt: real -> real, distance: real, speed: real, acceleration: real, deceleration: real): real
    requires acceleration > 0.0 && deceleration > 0.0
  {
    Min(speed, sqrt(distance * 2.0 / (1.0 / acceleration + 1.0 / deceleration)))
  }

  function PlanTrajectory(sqrt: real -> real, start: real, target: real, speed: real,
                          acceleration: real, deceleration: real): Motion
    requires acceleration > 0.0 && deceleration > 0.0
  {
    Profile(start, target, Peak(sqrt, Abs(target - start), speed, acceleration, deceleration), acceleration, deceleration)
  }

  function PlanBrake(position: real, velocity: real, deceleration: real): Motion
    requires deceleration > 0.0
  {
    Brake(position, velocity, deceleration, if velocity >= 0.0 then 1.0 else -1.0,
          Abs(velocity) / deceleration)
  }

  /** Distance covered from rest in `t` seconds at the constant acceleration `k`. */
  function Ramp(k: real, t: real): real {
    k * t * t / 2.0
  }

  /** Speed gained in `t` seconds at the constant acceleration `k`. */
  function Gain(k: real, t: real): real {
    k * t
  }

  function BrakeSample(m: Motion, u: real): Reading
    requires m.Brake?
  {
    Reading(m.position + m.velocity * u - m.direction * Ramp(m.deceleration, u),
            m.velocity - m.direction * Gain(m.deceleration, u),
            u >= m.duration)
  }

  /** Distance covered once the acceleration is over and before braking starts. */
  function Cruise(m: Motion, t: real): real
    requires m.Trajectory?
  {
    m.peak * m.ta / 2.0 + m.peak * (t - m.ta)
  }

  /** Position, velocity and completion after `t` seconds of a motion. */
  function Sample(m: Motion, t: real): Reading
    requires !m.Still?
  {
    match m
    case Trajectory(start, target, direction, a, d, peak, ta, td, tc, duration) =>
      if t >= duration then
        Reading(target, 0.0, true)
      else if t < ta then
        Reading(start + direction * Ramp(a, t), direction * Gain(a, t), false)
      else if t < ta + tc then
        Reading(start + direction * Cruise(m, t), direction * peak, false)
      else
        var remaining := duration - t;
        Reading(target - direction * Ramp(d, remaining), direction * Gain(d, remaining), false)
    case Brake(position, velocity, deceleration, direction, duration) =>
      BrakeSample(m, Min(t, duration))
  }
}
