/**
 * velocityVerlet of vvho.c: fills caller-supplied position, velocity and
 * total-energy buffers in place, one step at a time, in autonomous or
 * time-driven mode.
 */
module Integrator {
  import opened Oscillator

  /** Number of leading slots of each output buffer a run of `size` steps
      writes: slot 0 is written before the loop guard is ever tested, so a
      run always writes at least one slot. */
  function SlotsWritten(size: nat): (n: nat)
    ensures 1 <= n && size <= n <= size + 1
    ensures 1 <= size ==> n == size
  {
    if size == 0 then 1 else size
  }

  /** The state recorded in slot i, by mode. */
  function RunState(useTime: bool, posStart: real, velStart: real, dt: real, time: seq<real>,
                    cos: real -> real, sin: real -> real, i: nat): Phase
    requires useTime ==> 0 < |time| && i <= |time|
  {
    if useTime then TaylorState(posStart, velStart, dt, time, cos, sin, i)
    else VerletState(posStart, velStart, dt, i)
  }

  /** Slot i's state is one step of the mode's scheme from slot i - 1's. */
  lemma RunStateNext(useTime: bool, posStart: real, velStart: real, dt: real, time: seq<real>,
                     cos: real -> real, sin: real -> real, i: nat)
    requires 1 <= i
    requires useTime ==> i <= |time|
    ensures RunState(useTime, posStart, velStart, dt, time, cos, sin, i)
         == if useTime
            then TaylorStep(RunState(useTime, posStart, velStart, dt, time, cos, sin, i - 1), dt,
                            Forcing(posStart, velStart, time[i - 1], cos, sin))
            else VerletStep(RunState(useTime, posStart, velStart, dt, time, cos, sin, i - 1), dt)
  {
  }

  /** Runs the integrator over `size` steps. Slot i of pos, vel and
      totalEnergy receives the state after i steps and its total energy;
      the slots past those written keep their old contents and `time` is only
      read (in time-driven mode, at time[0] and at time[i - 1] for every
      later step i). */
  method VelocityVerlet(posStart: real, velStart: real, timeStep: real,
                        time: array<real>, pos: array<real>, vel: array<real>,
                        totalEnergy: array<real>, size: nat, useTime: bool,
                        cos: real -> real, sin: real -> real)
    requires 1 <= pos.Length && 1 <= vel.Length && 1 <= totalEnergy.Length
    requires size <= pos.Length && size <= vel.Length && size <= totalEnergy.Length
    requires useTime ==> 1 <= time.Length && size <= time.Length + 1
    requires pos != vel && pos != totalEnergy && vel != totalEnergy
    requires time != pos && time != vel && time != totalEnergy
    modifies pos, vel, totalEnergy
    ensures pos[0] == posStart && vel[0] == velStart
    ensures totalEnergy[0] == Energy(posStart, velStart)
    ensures forall i :: 0 <= i < SlotsWritten(size) ==>
      var s := RunState(useTime, posStart, velStart, timeStep, time[..], cos, sin, i);
      pos[i] == s.pos && vel[i] == s.vel
    ensures forall i :: 0 <= i < SlotsWritten(size) ==> totalEnergy[i] == Energy(pos[i], vel[i])
    ensures forall i :: SlotsWritten(size) <= i < pos.Length ==> pos[i] == old(pos[i])
    ensures forall i :: SlotsWritten(size) <= i < vel.Length ==> vel[i] == old(vel[i])
    ensures forall i :: SlotsWritten(size) <= i < totalEnergy.Length ==> totalEnergy[i] == old(totalEnergy[i])
  {
    ghost var grid := time[..];

    // Initial conditions
    pos[0] := posStart;
    vel[0] := velStart;
    totalEnergy[0] := Energy(pos[0], vel[0]);

    var currPos := pos[0];
    var currVel := vel[0];
    var currAcc: real;
    if useTime {
      currAcc := Forcing(pos[0], vel[0], time[0], cos, sin);
    } else {
      currAcc := Restoring(currPos);
    }

    assert Phase(currPos, currVel, currAcc) == RunState(useTime, posStart, velStart, timeStep, grid, cos, sin, 0);
    var i := 1;
    while i < size
      invariant 1 <= i <= SlotsWritten(size)
      invariant pos[0] == posStart && vel[0] == velStart
      invariant Phase(currPos, currVel, currAcc)
             == RunState(useTime, posStart, velStart, timeStep, grid, cos, sin, i - 1)
      invariant forall k :: 0 <= k < i ==>
        var s := RunState(useTime, posStart, velStart, timeStep, grid, cos, sin, k);
        pos[k] == s.pos && vel[k] == s.vel
      invariant forall k :: 0 <= k < i ==> totalEnergy[k] == Energy(pos[k], vel[k])
      invariant forall k :: i <= k < pos.Length ==> pos[k] == old(pos[k])
      invariant forall k :: i <= k < vel.Length ==> vel[k] == old(vel[k])
      invariant forall k :: i <= k < totalEnergy.Length ==> totalEnergy[k] == old(totalEnergy[k])
    {
      RunStateNext(useTime, posStart, velStart, timeStep, grid, cos, sin, i);

      // Position at t + dt
      currPos := Drift(Phase(currPos, currVel, currAcc), timeStep);

      // Acceleration at t + dt
      var newAcc: real;
      if useTime {
        newAcc := Forcing(pos[0], vel[0], time[i - 1], cos, sin);
      } else {
        newAcc := Restoring(currPos);
      }

      // Velocity at t + dt
      if useTime {
        currVel := EulerKick(currVel, currAcc, timeStep);
      } else {
        currVel := AverageKick(currVel, currAcc, newAcc, timeStep);
      }

      assert Phase(currPos, currVel, newAcc) == RunState(useTime, posStart, velStart, timeStep, grid, cos, sin, i);
      pos[i] := currPos;
      vel[i] := currVel;
      currAcc := newAcc;

      var currTotalEnergy := Energy(currPos, currVel);
      totalEnergy[i] := currTotalEnergy;
      i := i + 1;
    }
  }
}
