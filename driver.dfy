/**
 * The per-trial bookkeeping of main in vvho.c: the forward and reverse time
 * grids, the reverse run's start index and initial conditions, the three
 * integrator runs of one (time step, initial velocity) pair, and the summary
 * statistics over the time-driven ("Taylor") run.
 */
module Driver {
  import opened Oscillator
  import opened Recurrences
  import opened Integrator

  /** main resets posStart to 0.0 before every trial. */
  const POS_START: real := 0.0

  /** Index of the forward state the reverse run starts from, and the length
      of the reverse grid: numSteps / 2, rounded down. It is a valid index of
      the forward run whenever that run has at least one step. */
  function ReverseIndex(numSteps: nat): (m: nat)
    ensures m + m <= numSteps <= m + m + 1
    ensures 1 <= numSteps ==> m < numSteps
  {
    numSteps / 2
  }

  /** Left-to-right sum, in the order main accumulates meanE. */
  function Sum(s: seq<real>): real {
    if s == [] then 0.0 else Sum(s[..|s| - 1]) + s[|s| - 1]
  }

  /** Values that all lie at or below m sum to at most |s| * m. */
  lemma {:induction false} SumAtMost(s: seq<real>, m: real)
    requires forall k :: 0 <= k < |s| ==> s[k] <= m
    ensures Sum(s) <= |s| as real * m
  {
    if s != [] {
      SumAtMost(s[..|s| - 1], m);
    }
  }

  /** Non-negative values have a non-negative sum. */
  lemma {:induction false} SumNonNegative(s: seq<real>)
    requires forall k :: 0 <= k < |s| ==> 0.0 <= s[k]
    ensures 0.0 <= Sum(s)
  {
    if s != [] {
      SumNonNegative(s[..|s| - 1]);
    }
  }

  /** The mean of values bounded above by m is bounded by m. */
  lemma MeanAtMost(s: seq<real>, m: real)
    requires 1 <= |s|
    requires forall k :: 0 <= k < |s| ==> s[k] <= m
    ensures Sum(s) / |s| as real <= m
  {
    SumAtMost(s, m);
    var n := |s| as real;
    assert Sum(s) / n <= (n * m) / n;
    assert (n * m) / n == m;
  }

  /** Builds the forward grid time[k] = k * dt for k < numSteps and the
      reverse grid timeR[k] = (numStepsR - k) * dt for k < numStepsR, with
      numStepsR = numSteps / 2: the reverse grid is the first half of the
      forward grid read backwards from index numStepsR. */
  method Grids(numSteps: nat, dt: real) returns (time: array<real>, timeR: array<real>)
    ensures fresh(time) && fresh(timeR)
    ensures time.Length == numSteps && timeR.Length == ReverseIndex(numSteps)
    ensures forall k :: 0 <= k < numSteps ==> time[k] == k as real * dt
    ensures forall k :: 0 <= k < timeR.Length ==> timeR[k] == (ReverseIndex(numSteps) - k) as real * dt
    ensures forall k :: 0 <= k < timeR.Length ==> timeR[k] == time[ReverseIndex(numSteps) - k]
  {
    var numStepsR := numSteps / 2;
    time := new real[numSteps];
    timeR := new real[numStepsR];
    for k := 0 to numSteps
      invariant forall j :: 0 <= j < k ==> time[j] == j as real * dt
    {
      time[k] := k as real * dt;
    }
    for k := 0 to numSteps / 2
      invariant forall j :: 0 <= j < numSteps ==> time[j] == j as real * dt
      invariant forall j :: 0 <= j < k ==> timeR[j] == (numStepsR - j) as real * dt
    {
      timeR[k] := (numStepsR - k) as real * dt;
    }
  }

  /** Summary statistics over the first numSteps slots of the Taylor run:
      maxP and maxE are the largest position and energy, or 0 when every one
      is negative (both start at 0 and only grow), and meanE is the mean
      energy. */
  method Statistics(posT: array<real>, totalEnergyT: array<real>, numSteps: nat)
    returns (maxP: real, maxE: real, meanE: real)
    requires 1 <= numSteps <= posT.Length && numSteps <= totalEnergyT.Length
    ensures 0.0 <= maxP && forall k :: 0 <= k < numSteps ==> posT[k] <= maxP
    ensures maxP == 0.0 || exists k :: 0 <= k < numSteps && maxP == posT[k]
    ensures 0.0 <= maxE && forall k :: 0 <= k < numSteps ==> totalEnergyT[k] <= maxE
    ensures maxE == 0.0 || exists k :: 0 <= k < numSteps && maxE == totalEnergyT[k]
    ensures meanE == Sum(totalEnergyT[..numSteps]) / numSteps as real
    ensures meanE <= maxE
    ensures (forall k :: 0 <= k < numSteps ==> 0.0 <= totalEnergyT[k]) ==> 0.0 <= meanE
  {
    maxP := 0.0;
    maxE := 0.0;
    meanE := 0.0;
    for k := 0 to numSteps
      invariant 0.0 <= maxP && forall j :: 0 <= j < k ==> posT[j] <= maxP
      invariant maxP == 0.0 || exists j :: 0 <= j < k && maxP == posT[j]
      invariant 0.0 <= maxE && forall j :: 0 <= j < k ==> totalEnergyT[j] <= maxE
      invariant maxE == 0.0 || exists j :: 0 <= j < k && maxE == totalEnergyT[j]
      invariant meanE == Sum(totalEnergyT[..k])
    {
      if totalEnergyT[k] > maxE {
        maxE := totalEnergyT[k];
      }
      if posT[k] > maxP {
        maxP := posT[k];
      }
      assert totalEnergyT[..k + 1][..k] == totalEnergyT[..k];
      meanE := meanE + totalEnergyT[k];
    }
    assert totalEnergyT[..numSteps] == totalEnergyT[..][..numSteps];
    MeanAtMost(totalEnergyT[..numSteps], maxE);
    if forall k :: 0 <= k < numSteps ==> 0.0 <= totalEnergyT[k] {
      SumNonNegative(totalEnergyT[..numSteps]);
    }
    meanE := meanE / numSteps as real;
  }

  /** As written, main allocates the reverse buffers with numStepsR slots and
      always runs the integrator on them, which writes SlotsWritten(numStepsR)
      slots. The run overruns its buffers exactly when the forward run has at
      most one step. */
  lemma ReverseRunOverrun(numSteps: nat)
    ensures SlotsWritten(ReverseIndex(numSteps)) > ReverseIndex(numSteps) <==> numSteps <= 1
  {
  }

  /** Allocates the three buffers of a forward run of numSteps steps from
      (POS_START, velStart) and fills them with the integrator. */
  method ForwardRun(velStart: real, dt: real, time: array<real>, numSteps: nat, useTime: bool,
                    cos: real -> real, sin: real -> real)
    returns (pos: array<real>, vel: array<real>, totalEnergy: array<real>)
    requires 1 <= numSteps && time.Length == numSteps
    ensures fresh(pos) && fresh(vel) && fresh(totalEnergy)
    ensures pos.Length == vel.Length == totalEnergy.Length == numSteps
    ensures forall k :: 0 <= k < numSteps ==>
      var s := RunState(useTime, POS_START, velStart, dt, time[..], cos, sin, k);
      pos[k] == s.pos && vel[k] == s.vel
    ensures forall k :: 0 <= k < numSteps ==> totalEnergy[k] == Energy(pos[k], vel[k])
  {
    pos := new real[numSteps];
    vel := new real[numSteps];
    totalEnergy := new real[numSteps];
    VelocityVerlet(POS_START, velStart, dt, time, pos, vel, totalEnergy, numSteps, useTime, cos, sin);
  }

  /** The reverse run: starts from the forward autonomous state at index
      numStepsR = numSteps / 2 with its velocity negated and runs the
      autonomous integrator for numStepsR steps, which retraces the forward
      run backwards. The original runs it even when numStepsR is 0 and then
      writes past its zero-length buffers; here it is skipped. */
  method ReverseRun(velStart: real, dt: real, pos: array<real>, vel: array<real>, numSteps: nat,
                    timeR: array<real>, cos: real -> real, sin: real -> real)
    returns (posR: array<real>, velR: array<real>, totalEnergyR: array<real>)
    requires 1 <= numSteps && pos.Length == numSteps && vel.Length == numSteps
    requires timeR.Length == ReverseIndex(numSteps)
    requires forall k :: 0 <= k < numSteps ==>
      pos[k] == VerletState(POS_START, velStart, dt, k).pos && vel[k] == VerletState(POS_START, velStart, dt, k).vel
    ensures fresh(posR) && fresh(velR) && fresh(totalEnergyR)
    ensures posR.Length == velR.Length == totalEnergyR.Length == ReverseIndex(numSteps)
    ensures forall k :: 0 <= k < ReverseIndex(numSteps) ==>
      posR[k] == pos[ReverseIndex(numSteps) - k] && velR[k] == -vel[ReverseIndex(numSteps) - k]
    ensures forall k :: 0 <= k < ReverseIndex(numSteps) ==> totalEnergyR[k] == Energy(posR[k], velR[k])
  {
    var numStepsR := ReverseIndex(numSteps);
    posR := new real[numStepsR];
    velR := new real[numStepsR];
    totalEnergyR := new real[numStepsR];

    var posStartRev := pos[numStepsR];
    var velStartRev := -1.0 * vel[numStepsR];

    if numStepsR >= 1 {
      VelocityVerlet(posStartRev, velStartRev, dt, timeR, posR, velR, totalEnergyR, numStepsR, false, cos, sin);
      forall k | 0 <= k < numStepsR
        ensures posR[k] == pos[numStepsR - k] && velR[k] == -vel[numStepsR - k]
      {
        TimeReversal(POS_START, velStart, dt, numStepsR, k);
      }
    }
  }

  /** One trial of main for a time step dt and an initial velocity: the
      forward autonomous run and the forward time-driven run over the grid
      `time`, the reverse run, and the statistics over the time-driven run. */
  method Trial(dt: real, velStart: real, numSteps: nat, time: array<real>, timeR: array<real>,
               cos: real -> real, sin: real -> real)
    returns (pos: array<real>, vel: array<real>, totalEnergy: array<real>,
             posT: array<real>, velT: array<real>, totalEnergyT: array<real>,
             posR: array<real>, velR: array<real>, totalEnergyR: array<real>,
             maxP: real, maxE: real, meanE: real)
    requires 1 <= numSteps && time.Length == numSteps && timeR.Length == ReverseIndex(numSteps)
    ensures fresh(pos) && fresh(vel) && fresh(totalEnergy)
    ensures fresh(posT) && fresh(velT) && fresh(totalEnergyT)
    ensures fresh(posR) && fresh(velR) && fresh(totalEnergyR)
    ensures pos.Length == vel.Length == totalEnergy.Length == numSteps
    ensures posT.Length == velT.Length == totalEnergyT.Length == numSteps
    ensures posR.Length == velR.Length == totalEnergyR.Length == ReverseIndex(numSteps)
    // forward autonomous run
    ensures forall k :: 0 <= k < numSteps ==>
      pos[k] == VerletState(POS_START, velStart, dt, k).pos && vel[k] == VerletState(POS_START, velStart, dt, k).vel
    ensures forall k :: 0 <= k < numSteps ==> totalEnergy[k] == Energy(pos[k], vel[k])
    // forward time-driven run
    ensures forall k :: 0 <= k < numSteps ==>
      posT[k] == TaylorState(POS_START, velStart, dt, time[..], cos, sin, k).pos
      && velT[k] == TaylorState(POS_START, velStart, dt, time[..], cos, sin, k).vel
    ensures forall k :: 0 <= k < numSteps ==> totalEnergyT[k] == Energy(posT[k], velT[k])
    // reverse run: the forward run read backwards from index numStepsR
    ensures forall k :: 0 <= k < ReverseIndex(numSteps) ==>
      posR[k] == pos[ReverseIndex(numSteps) - k] && velR[k] == -vel[ReverseIndex(numSteps) - k]
    ensures forall k :: 0 <= k < ReverseIndex(numSteps) ==>
      totalEnergyR[k] == totalEnergy[ReverseIndex(numSteps) - k]
    // statistics over the time-driven run
    ensures 0.0 <= maxP && forall k :: 0 <= k < numSteps ==> posT[k] <= maxP
    ensures maxP == 0.0 || exists k :: 0 <= k < numSteps && maxP == posT[k]
    ensures forall k :: 0 <= k < numSteps ==> totalEnergyT[k] <= maxE
    ensures maxE == 0.0 || exists k :: 0 <= k < numSteps && maxE == totalEnergyT[k]
    ensures meanE == Sum(totalEnergyT[..numSteps]) / numSteps as real
    ensures 0.0 <= meanE <= maxE
  {
    pos, vel, totalEnergy := ForwardRun(velStart, dt, time, numSteps, false, cos, sin);
    posT, velT, totalEnergyT := ForwardRun(velStart, dt, time, numSteps, true, cos, sin);
    posR, velR, totalEnergyR := ReverseRun(velStart, dt, pos, vel, numSteps, timeR, cos, sin);

    forall k | 0 <= k < ReverseIndex(numSteps)
      ensures totalEnergyR[k] == totalEnergy[ReverseIndex(numSteps) - k]
    {
      EnergyIsEven(pos[ReverseIndex(numSteps) - k], vel[ReverseIndex(numSteps) - k]);
    }
    forall k | 0 <= k < numSteps
      ensures 0.0 <= totalEnergyT[k]
    {
      EnergyNonNegative(posT[k], velT[k]);
    }
    maxP, maxE, meanE := Statistics(posT, totalEnergyT, numSteps);
  }
}
