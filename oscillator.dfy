/**
 * The mathematics behind vvho.c: one step of the Velocity Verlet scheme for a
 * harmonic oscillator with unit mass and unit stiffness, in its two force modes,
 * and the state a run has reached after a given number of steps.
 *
 * Doubles are modelled as exact reals, so every recurrence here is the one the
 * C code evaluates, without rounding. The trigonometric functions the
 * time-driven mode calls are passed in as `cos` and `sin` and nothing is
 * assumed about them.
 */
module Oscillator {

  /** The running state of the integrator: position, velocity and the
      acceleration carried into the next step (currPos, currVel, currAcc). */
  datatype Phase = Phase(pos: real, vel: real, acc: real)

  /** Total energy of the unit-mass, unit-stiffness oscillator. */
  function Energy(pos: real, vel: real): real {
    0.5 * vel * vel + 0.5 * pos * pos
  }

  /** Harmonic restoring force per unit mass: the autonomous acceleration. */
  function Restoring(pos: real): real {
    -1.0 * pos
  }

  /** The acceleration of the time-driven mode: the exact solution's
      acceleration at time t, built from the initial conditions only. */
  function Forcing(posStart: real, velStart: real, t: real,
                   cos: real -> real, sin: real -> real): real
  {
    -1.0 * (posStart * cos(t) + velStart * sin(t))
  }

  /** Position update shared by both modes (second-order Taylor step). */
  function Drift(s: Phase, dt: real): real {
    s.pos + s.vel * dt + 0.5 * s.acc * dt * dt
  }

  /** Velocity update of the autonomous mode: the average of the old and the
      new acceleration over one step. */
  function AverageKick(vel: real, acc: real, newAcc: real, dt: real): real {
    vel + 0.5 * (acc + newAcc) * dt
  }

  /** Velocity update of the time-driven mode: first order, with the old
      acceleration only. */
  function EulerKick(vel: real, acc: real, dt: real): real {
    vel + acc * dt
  }

  /** One autonomous step: the force is re-evaluated at the new position and
      the velocity uses the average of the old and the new acceleration. */
  function VerletStep(s: Phase, dt: real): Phase {
    var pos := Drift(s, dt);
    var acc := Restoring(pos);
    Phase(pos, AverageKick(s.vel, s.acc, acc, dt), acc)
  }

  /** One time-driven step: Euler velocity update with the carried
      acceleration; `forcing` becomes the acceleration carried forward. */
  function TaylorStep(s: Phase, dt: real, forcing: real): Phase {
    Phase(Drift(s, dt), EulerKick(s.vel, s.acc, dt), forcing)
  }

  /** State after i autonomous steps from (posStart, velStart). */
  function VerletState(posStart: real, velStart: real, dt: real, i: nat): Phase {
    if i == 0 then Phase(posStart, velStart, Restoring(posStart))
    else VerletStep(VerletState(posStart, velStart, dt, i - 1), dt)
  }

  /** State after i time-driven steps over the grid `time`: the initial
      acceleration is taken at time[0], and step i carries forward the
      acceleration taken at time[i - 1]. */
  function TaylorState(posStart: real, velStart: real, dt: real, time: seq<real>,
                       cos: real -> real, sin: real -> real, i: nat): Phase
    requires 0 < |time| && i <= |time|
  {
    if i == 0 then Phase(posStart, velStart, Forcing(posStart, velStart, time[0], cos, sin))
    else TaylorStep(TaylorState(posStart, velStart, dt, time, cos, sin, i - 1), dt,
                    Forcing(posStart, velStart, time[i - 1], cos, sin))
  }

  /** The same state with its velocity negated: the time-reversed state. */
  function Reversed(s: Phase): Phase {
    s.(vel := -s.vel)
  }

  /** Grid index of the acceleration that the velocity update of step i uses
      in time-driven mode: the one carried from the previous step. */
  function TaylorLag(i: nat): nat {
    if i <= 1 then 0 else i - 2
  }
}
