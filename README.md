# Velocity Verlet harmonic oscillator, modelled in Dafny

`vvho.c` integrates a one-dimensional harmonic oscillator with unit mass and
unit stiffness. It uses the Velocity Verlet scheme and sweeps six time steps
and four initial velocities. For each (time step, initial velocity) pair,
`main` makes three runs of `velocityVerlet` and computes summary statistics:

- a forward autonomous run, where the acceleration is `-pos`;
- a forward time-driven ("Taylor") run, where the acceleration comes from the
  analytic expression `-(pos[0]·cos t + vel[0]·sin t)` at a lagged grid time;
- a reverse autonomous run, started from the forward state at index
  `numStepsR = numSteps / 2` with its velocity negated.

This project models that core.

- `oscillator.dfy` (module `Oscillator`) defines the state carried between
  steps, `Phase(pos, vel, acc)`, and one step of each mode. The autonomous
  step is `VerletStep`. The time-driven step is `TaylorStep`, with its
  `Forcing`. `VerletState` and `TaylorState` give the state after `i` steps.
  Doubles are exact reals. `cos` and `sin` are passed in as functions, and
  nothing is assumed about them.
- `recurrences.dfy` (module `Recurrences`) proves the properties of these
  recurrences:
  - the acceleration each mode carries to the next step;
  - the lag of the time-driven mode: its velocity update uses `time[0]` on
    the first step and `time[i - 2]` on step `i` after that;
  - that the autonomous scheme is exactly time reversible over the reals.
- `integrator.dfy` (module `Integrator`) is `velocityVerlet` itself. It is an
  imperative method that fills the caller's `pos`, `vel` and `totalEnergy`
  arrays in place. It is proved to write, in slot `i`, the state after `i`
  steps and its energy, and to leave the other slots alone.
- `driver.dfy` (module `Driver`) covers the bookkeeping of `main`:
  - the forward and reverse time grids;
  - the reverse start index and the reverse run's initial conditions;
  - one trial with its three runs;
  - the max and mean statistics over the Taylor run.

  `Trial` is proved to produce a reverse run that is the forward run read
  backwards: `posR[k] = pos[m - k]`, `velR[k] = -vel[m - k]` and
  `totalEnergyR[k] = totalEnergy[m - k]`, for `m = numSteps / 2`.

Three details of the code that the model keeps:

- The reverse grid counts down from `numStepsR·dt` to `dt`: its loop stops at
  `k < numStepsR`.
- Likewise, the reverse run stops at the forward state of index 1 and never
  reaches the initial state. `Recurrences.ReversalReturnsToStart` shows that
  one more step would return exactly to it.
- `velocityVerlet` writes slot 0 even when `size` is 0, so a run never
  returns fewer than one sample.

## Model

| member | source | states |
|---|---|---|
| `Oscillator.Energy` | vvho.c:27 | Defines the total energy `½vel² + ½pos²` recorded for slot 0 (line 27) and for every later slot (line 65). |
| `Oscillator.Restoring` | vvho.c:35 | Defines the autonomous acceleration `-1.0·pos` (lines 35 and 47). |
| `Oscillator.Forcing` | vvho.c:32 | Defines the time-driven acceleration `-1.0·(pos[0]·cos t + vel[0]·sin t)`, taken at `time[0]` (line 32) and at `time[i - 1]` (line 44). |
| `Oscillator.Drift` | vvho.c:40 | Defines the position update `pos + vel·dt + ½·acc·dt·dt` shared by both modes. |
| `Oscillator.AverageKick` | vvho.c:56 | Defines the autonomous velocity update `vel + ½(acc + newAcc)·dt`. |
| `Oscillator.EulerKick` | vvho.c:53 | Defines the time-driven velocity update `vel + acc·dt`. |
| `Oscillator.VerletStep` | vvho.c:40-62 | Defines one pass of the loop body in autonomous mode: new position, new acceleration `-pos`, averaged velocity, and the new acceleration carried forward. |
| `Oscillator.TaylorStep` | vvho.c:40-62 | Defines one pass of the loop body in time-driven mode: new position, Euler velocity with the carried acceleration, and the given forcing carried forward. |
| `Oscillator.VerletState` | vvho.c:25-62 | Defines the autonomous state after `i` passes: the initial conditions with acceleration `-posStart`, then `i` applications of `VerletStep`. |
| `Oscillator.TaylorState` | vvho.c:25-62 | Defines the time-driven state after `i` passes: the initial conditions with the forcing at `time[0]`, then step `i` carries the forcing at `time[i - 1]`. |
| `Oscillator.Reversed` | vvho.c:232-233 | Defines the reversed state: the same position with the velocity multiplied by `-1.0`. |
| `Oscillator.TaylorLag` | vvho.c:44-62 | Defines the grid index of the acceleration used by the velocity update of pass `i` in time-driven mode: 0 for `i <= 1`, `i - 2` afterwards. |
| `Integrator.RunState` | vvho.c:31-62 | Defines the state recorded in slot `i`, selected by `useTime`: `TaylorState` over the grid, or `VerletState`. |
| `Driver.Sum` | vvho.c:242-250 | Defines the left-to-right sum that accumulates `meanE` over `totalEnergyT`. |
| `Integrator.VelocityVerlet` | vvho.c:12-68 | Sets `pos[0] = posStart` and `vel[0] = velStart`. Every written slot `i` holds the position and velocity after `i` steps of the selected mode's recurrence (`VerletState` or `TaylorState` over `time`). `totalEnergy[i] = ½vel[i]² + ½pos[i]²`. Only slots below `SlotsWritten(size)` change. `time` is only read (not in the modifies clause). Requires at least one slot in each output array, because slot 0 is written before the loop guard. |
| `Integrator.SlotsWritten` | vvho.c:24-38 | The number of slots a run writes is at least 1 and at least `size`, and equals `size` whenever `size >= 1`. |
| `Recurrences.EnergyNonNegative` | vvho.c:27 | Total energy is never negative. |
| `Recurrences.VerletAccIsRestoring` | vvho.c:35-47 | In autonomous mode the carried acceleration is always `-pos` of the carried state. |
| `Recurrences.VerletRecurrence` | vvho.c:40-56 | Autonomous mode: `pos[i] = pos[i-1] + vel[i-1]·dt + ½(-pos[i-1])·dt²` and `vel[i] = vel[i-1] + ½((-pos[i-1]) + (-pos[i]))·dt`. |
| `Recurrences.TaylorAccIsForcing` | vvho.c:31-45 | Time-driven mode: the carried acceleration of state `i` is the forcing at `time[0]` for `i = 0` and at `time[i-1]` afterwards. It does not depend on the integrated trajectory. |
| `Recurrences.TaylorRecurrence` | vvho.c:40-62 | Time-driven mode: position and velocity (Euler) update with the acceleration `-(posStart·cos + velStart·sin)` at the lagged time `time[TaylorLag(i)]`, which is `time[0]` for `i = 1` and `time[i-2]` for `i >= 2`. |
| `Recurrences.VerletStepReverses` | vvho.c:40-56 | One autonomous step, a velocity negation, and another step give back the starting state with its velocity negated. |
| `Recurrences.TimeReversal` | vvho.c:231-237 | The autonomous run from `(pos[m], -vel[m])` is, after `k <= m` steps, the forward state `m - k` with its velocity negated. |
| `Recurrences.ReversalReturnsToStart` | vvho.c:231-237 | Reversing after `m` steps and running `m` more steps returns exactly to `(posStart, -velStart)`. |
| `Recurrences.EnergyIsEven` | vvho.c:65-66 | Negating the velocity leaves the total energy unchanged. |
| `Driver.ReverseIndex` | vvho.c:194 | `numStepsR` is `numSteps` halved and rounded down. It is `< numSteps` whenever `numSteps >= 1`, so the reads `pos[numStepsR]` and `vel[numStepsR]` are in bounds. |
| `Driver.Grids` | vvho.c:211-217 | `time[k] = k·dt` for `k < numSteps`. `timeR[k] = (numStepsR - k)·dt = time[numStepsR - k]` for `k < numStepsR`. |
| `Driver.Statistics` | vvho.c:239-251 | `maxE >= 0`, `maxE >= totalEnergyT[k]` for every `k`, and `maxE` is 0 or one of the `totalEnergyT[k]`. The same holds for `maxP` over `posT`. `meanE` is the left-to-right sum divided by `numSteps`. `meanE <= maxE`. `meanE >= 0` when all the energies are. |
| `Driver.SumAtMost` | vvho.c:249-251 | A sum of values each at most `m` is at most `n·m`. |
| `Driver.SumNonNegative` | vvho.c:249-251 | A sum of non-negative values is non-negative. |
| `Driver.MeanAtMost` | vvho.c:239-251 | The mean of values bounded by `m` is bounded by `m`. |
| `Driver.ForwardRun` | vvho.c:196-229 | Fresh buffers of `numSteps` slots, filled with the forward run of the chosen mode from `(0, velStart)`, with matching energies. |
| `Driver.ReverseRun` | vvho.c:205-237 | Fresh buffers of `numStepsR` slots. The run starts from `pos[numStepsR]` and `-vel[numStepsR]`, and `posR[k] = pos[numStepsR - k]` and `velR[k] = -vel[numStepsR - k]` for every `k < numStepsR`. |
| `Driver.Trial` | vvho.c:220-251 | One (time step, velocity) trial, covering the two forward runs, the reverse run and the statistics. `totalEnergyR[k] = totalEnergy[numStepsR - k]` and `0 <= meanE <= maxE`. |
| `Driver.ReverseRunOverrun` | vvho.c:194-237 | As written, the reverse run writes more slots than its buffers hold exactly when `numSteps <= 1`. |

## Left out

- IEEE-754 rounding, overflow and non-finite values: every double is an exact real. Energy drift, convergence to `velStart·sin t` and error growth with the time step are floating-point behaviour, and no property states them.
- `cos` and `sin` are function parameters with no properties, so nothing relates the time-driven run to the exact solution.
- The double-to-int truncation `numSteps = timeTotal / currStep`: `numSteps` is a parameter.
- The sweep loops of `main` over the six time steps and four velocities, and their fixed parameter arrays: `Grids` is one time step's grid construction, and `Trial` is one pass of the inner loop. The original allocates its buffers once per time step and reuses them for the four velocities. Here each trial allocates its own. Every slot read afterwards is rewritten by the trial, so the contents are the same.
- `malloc` and the buffers that are never freed.
- `gnuplotData`, `dumpData` and `makeFilename`: these build file names, write text files and run an external plotting process. This includes the plot-range thresholds (10 for position, 32.5 for energy) that consume `maxP`, `maxE` and `meanE`.
- Driver.Trial: requires `numSteps >= 1`. With `numSteps = 0` (a time step over 100) the original writes slot 0 of zero-length forward buffers and divides `meanE` by zero. The program's six time steps all give at least 25 steps.
- Driver.Statistics: requires `numSteps >= 1`, because `meanE` is divided by `numSteps`.

## Findings

| source | as written | input that shows it | evidently intended | confidence | as-written member | corrected member |
|---|---|---|---|---|---|---|
| vvho.c:194-237 | The reverse buffers get `numStepsR = numSteps / 2` slots, but `velocityVerlet` writes slot 0 of `posR`, `velR` and `totalEnergyR` before its loop guard, whatever its size. | `numSteps = 1` (any time step in (50, 100]) gives `numStepsR = 0`, so slot 0 is written in a zero-length buffer. | The reverse trajectory of such a trial is empty, and nothing is written. | not executed; unreachable with the program's six time steps, which give at least 25 steps | `Driver.ReverseRunOverrun` | `Driver.ReverseRun` |
