/**
 * Properties of the recurrences of the Oscillator module: what each step
 * computes in terms of positions and velocities, and the exact time
 * reversibility of the autonomous scheme over the reals.
 */
module Recurrences {
  import opened Oscillator

  /** Total energy is never negative. */
  lemma EnergyNonNegative(pos: real, vel: real)
    ensures Energy(pos, vel) >= 0.0
  {
  }

  /** In autonomous mode the carried acceleration always equals the restoring
      force at the carried position. */
  lemma {:induction false} VerletAccIsRestoring(posStart: real, velStart: real, dt: real, i: nat)
    ensures VerletState(posStart, velStart, dt, i).acc == Restoring(VerletState(posStart, velStart, dt, i).pos)
  {
  }

  /** Autonomous recurrences on positions and velocities only: with x_i, v_i
      the state after i steps, x_i = x_(i-1) + v_(i-1) dt + 1/2 (-x_(i-1)) dt^2
      and v_i = v_(i-1) + 1/2 ((-x_(i-1)) + (-x_i)) dt. The acceleration
      carried from the previous step is the restoring force at x_(i-1). */
  lemma {:induction false} VerletRecurrence(posStart: real, velStart: real, dt: real, i: nat)
    requires 1 <= i
    ensures VerletState(posStart, velStart, dt, i).pos
         == Drift(Phase(VerletState(posStart, velStart, dt, i - 1).pos,
                        VerletState(posStart, velStart, dt, i - 1).vel,
                        Restoring(VerletState(posStart, velStart, dt, i - 1).pos)), dt)
    ensures VerletState(posStart, velStart, dt, i).vel
         == AverageKick(VerletState(posStart, velStart, dt, i - 1).vel,
                        Restoring(VerletState(posStart, velStart, dt, i - 1).pos),
                        Restoring(VerletState(posStart, velStart, dt, i).pos), dt)
  {
    var prev := VerletState(posStart, velStart, dt, i - 1);
    assert VerletState(posStart, velStart, dt, i) == VerletStep(prev, dt);
    VerletAccIsRestoring(posStart, velStart, dt, i - 1);
  }

  /** In time-driven mode the acceleration carried by state i is the forcing
      at time[0] for i = 0 and at time[i - 1] afterwards, independent of the
      integrated trajectory. */
  lemma {:induction false} TaylorAccIsForcing(posStart: real, velStart: real, dt: real, time: seq<real>,
                                               cos: real -> real, sin: real -> real, i: nat)
    requires 0 < |time| && i <= |time|
    ensures TaylorState(posStart, velStart, dt, time, cos, sin, i).acc
         == Forcing(posStart, velStart, time[if i == 0 then 0 else i - 1], cos, sin)
  {
  }

  /** Time-driven recurrences: the position advances with the carried
      acceleration, x_i = x_(i-1) + v_(i-1) dt + 1/2 a dt^2, and the velocity
      takes an Euler step with it, v_i = v_(i-1) + a dt, where a is the forcing
      at the lagged grid time time[TaylorLag(i)]: time[0] for the first step
      and time[i - 2] for every later one. */
  lemma {:induction false} TaylorRecurrence(posStart: real, velStart: real, dt: real, time: seq<real>,
                                             cos: real -> real, sin: real -> real, i: nat)
    requires 1 <= i <= |time|
    ensures TaylorState(posStart, velStart, dt, time, cos, sin, i).pos
         == Drift(Phase(TaylorState(posStart, velStart, dt, time, cos, sin, i - 1).pos,
                        TaylorState(posStart, velStart, dt, time, cos, sin, i - 1).vel,
                        Forcing(posStart, velStart, time[TaylorLag(i)], cos, sin)), dt)
    ensures TaylorState(posStart, velStart, dt, time, cos, sin, i).vel
         == EulerKick(TaylorState(posStart, velStart, dt, time, cos, sin, i - 1).vel,
                      Forcing(posStart, velStart, time[TaylorLag(i)], cos, sin), dt)
  {
    var prev := TaylorState(posStart, velStart, dt, time, cos, sin, i - 1);
    assert TaylorState(posStart, velStart, dt, time, cos, sin, i)
        == TaylorStep(prev, dt, Forcing(posStart, velStart, time[i - 1], cos, sin));
    TaylorAccIsForcing(posStart, velStart, dt, time, cos, sin, i - 1);
  }

  /** Exact reversibility of one autonomous step: stepping, negating the
      velocity and stepping again gives back the starting state with its
      velocity negated. */
  lemma VerletStepReverses(s: Phase, dt: real)
    requires s.acc == Restoring(s.pos)
    ensures VerletStep(Reversed(VerletStep(s, dt)), dt) == Reversed(s)
  {
    var t := VerletStep(s, dt);
    var u := VerletStep(Reversed(t), dt);
    calc {
      u.pos;
      t.pos - t.vel * dt + 0.5 * t.acc * dt * dt;
      t.pos - s.vel * dt - 0.5 * (s.acc + t.acc) * dt * dt + 0.5 * t.acc * dt * dt;
      t.pos - s.vel * dt - 0.5 * s.acc * dt * dt;
      s.pos;
    }
  }

  /** Time reversal of an autonomous run: restarting from the state after m
      steps with negated velocity retraces the forward run backwards, so after
      k <= m steps it is the forward state m - k with negated velocity. */
  lemma {:induction false} TimeReversal(posStart: real, velStart: real, dt: real, m: nat, k: nat)
    requires k <= m
    ensures var mid := VerletState(posStart, velStart, dt, m);
      VerletState(mid.pos, -mid.vel, dt, k) == Reversed(VerletState(posStart, velStart, dt, m - k))
  {
    var mid := VerletState(posStart, velStart, dt, m);
    if k == 0 {
      VerletAccIsRestoring(posStart, velStart, dt, m);
    } else {
      TimeReversal(posStart, velStart, dt, m, k - 1);
      var earlier := VerletState(posStart, velStart, dt, m - k);
      VerletAccIsRestoring(posStart, velStart, dt, m - k);
      VerletStepReverses(earlier, dt);
    }
  }

  /** Running the reversed run for as many steps as the forward one returns
      exactly to the initial conditions, velocity negated. */
  lemma ReversalReturnsToStart(posStart: real, velStart: real, dt: real, m: nat)
    ensures var mid := VerletState(posStart, velStart, dt, m);
      var back := VerletState(mid.pos, -mid.vel, dt, m);
      back.pos == posStart && back.vel == -velStart
  {
    TimeReversal(posStart, velStart, dt, m, m);
  }

  /** Negating the velocity leaves the total energy unchanged, so a reversed
      run retraces the forward energies as well. */
  lemma EnergyIsEven(pos: real, vel: real)
    ensures Energy(pos, -vel) == Energy(pos, vel)
  {
  }
}
