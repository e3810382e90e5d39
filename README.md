# AFQMC driver schedules and trial-wavefunction setup, modelled in Dafny

This project models the control logic of two imaginary-time auxiliary-field
quantum Monte Carlo drivers, plus the discrete rules of trial-wavefunction setup.

- **The newer driver** is `AFQMC.run` in `pauxy/qmc/afqmc.py`. A population
  of walkers is propagated, reweighted and fed to the estimators once per
  step, for steps `1..nsteps`. Orthogonalisation, the shift (`E_T`)
  update, printing, the equilibration bound and population control then
  fire on fixed `step % k == 0` cadences, in a fixed order.
- **The legacy driver** is `do_qmc` in `afqmcpy/qmc.py`. It adds per-walker
  reorthogonalisation with the `detR` fold-in and a history buffer
  `psi_hist` of population snapshots. It also adds the back-propagation
  window read out of that buffer and the two resets of slot 0.
- **Trial-wavefunction setup** (`pauxy/trial_wavefunction.py`) covers:
  - selection of the trial class by name;
  - Fortran-order reshape and the GHF up/down column split;
  - the multi-determinant basis size, type and orbital slicing;
  - site densities, density mixing and the self-consistency test;
  - the UHF search over random starting points with its "accept a new
    minimum" rule.

Each driver is modelled twice.

- **A specification on values.** `AfqmcSpec` and `LegacySpec` define one
  function per phase of a step, and `Steps` iterates them. Every
  collaborator call (propagation, estimator update, orthogonalisation,
  back-propagation, population control, printing) is appended to an
  event log, so cadence and order can be stated over the log.
- **An imperative class.** `AfqmcDriver.Afqmc` and
  `LegacyDriver.LegacyQmc` hold the driver's mutable state. Their step
  loops are proved to compute exactly `Steps`.

In the legacy class, `psi_hist` is an `array` of immutable snapshots.
Writing a slot therefore stores a value copy, so the deep-copy semantics
of the source hold by construction.

The numerics are supplied as function-valued parameters (`Ops`, `UhfOps`):
- local energies, and the eigen-decompositions behind them;
- the constant factor `exp(dt * Re E_T)` (`growth`);
- propagation, orthogonalisation, reorthogonalisation with its `detR`;
- back-propagation, the projected energy, `comb` and random starting points.

The model states only when these are called and what their results flow into.

Python's behaviour is written out where it matters:
- negative indices and slice clamping (`PyIndex`);
- `range` end points;
- the exceptions the source can raise, kept as explicit error outcomes
  (`Outcome.Failed`, `Option`, `UhfResult.Crashed`).

`afqmcpy/qmc.py` as written does not run. The model follows the intent
that its comments state:
- `psi_hist` is never created at line 25; the model allocates
  `nprop_tot + 1` slots, because line 55 writes up to slot `nprop_tot`;
- `estimates` is undefined at lines 69 and 82; the observable update and
  the ITCF calculation are taken to be the estimator's own;
- lines 73-74 have an indentation error; the model resets slot 0 after
  back-propagation exactly when ITCF is off, as the comment at line 78
  describes.

## Model

| member | source | states |
|---|---|---|
| Walkers.AbsAboveReal | pauxy/qmc/afqmc.py:150 | for a real weight, the magnitude test `abs(w) > t` holds iff the weight is above `t` or below `-t` |
| Walkers.ThresholdIsStrict | afqmcpy/qmc.py:43 | a weight of exactly `1e-8` (of either sign) is not above the threshold; twice it is |
| Walkers.ReweightKeepsSign | pauxy/qmc/afqmc.py:154 | multiplying a real weight by a positive factor keeps it real and keeps its sign |
| Walkers.Reweight | pauxy/qmc/afqmc.py:154 | reweighting changes a walker's weight only: `alive` and the wavefunction are untouched |
| AfqmcSpec.Sweep | pauxy/qmc/afqmc.py:146-154 | the walker loop keeps the population size |
| AfqmcSpec.StepsUnfold | pauxy/qmc/afqmc.py:145 | zero steps leave the state alone; step `n` runs on the state after steps `1..n-1` |
| AfqmcProperties.SweepReweightsOnce | pauxy/qmc/afqmc.py:146-154 | after the walker loop, an eligible walker is `propagate(w)` scaled once by the growth factor; an ineligible one is `w` scaled once, nothing else changed |
| AfqmcProperties.PropagationEventsMembership | pauxy/qmc/afqmc.py:146-152 | walker `i` is propagated in a sweep iff it exists and `abs(weight) > 1e-8 and alive` |
| AfqmcProperties.StepPropagations | pauxy/qmc/afqmc.py:146-152 | one step adds a propagation of `(t, i)` iff `t` is that step and walker `i` is eligible at its start |
| AfqmcProperties.StepsPropagations | pauxy/qmc/afqmc.py:145-152 | after `n` steps, `(t, i)` was propagated iff `1 <= t <= n` and walker `i` was eligible after step `t-1` |
| AfqmcProperties.PropagatedIffEligible | pauxy/qmc/afqmc.py:145-152 | over the whole run, walker `i` is propagated at step `t` iff `1 <= t <= nsteps` and it is eligible (weight above `1e-8` and alive) at the start of step `t` |
| AfqmcProperties.PropagationInOrder | pauxy/qmc/afqmc.py:146-152 | propagations are logged in walker order and after everything of earlier steps |
| AfqmcProperties.SweepPhaseInOrder | pauxy/qmc/afqmc.py:146-158 | after the walker loop and the estimator update, the log is ordered and nothing of a later phase has happened |
| AfqmcProperties.StepInOrder | pauxy/qmc/afqmc.py:146-171 | one step appends its events in the fixed order propagate, estimators, orthogonalise, shift, print, bound, population control |
| AfqmcProperties.IterateInOrder | pauxy/qmc/afqmc.py:145 | a step function that keeps the log ordered keeps it ordered over any number of steps |
| AfqmcProperties.StepsInOrder | pauxy/qmc/afqmc.py:145-171 | after `n` steps the log is ordered by step, then by phase, and holds nothing beyond step `n` |
| AfqmcProperties.RunInOrder | pauxy/qmc/afqmc.py:145-171 | a whole run's log is in step order, then phase order, and mentions no step beyond `nsteps` |
| AfqmcProperties.StepExtendsLog | pauxy/qmc/afqmc.py:146-171 | a step only appends to the log |
| AfqmcProperties.IterateExtendsLog | pauxy/qmc/afqmc.py:145 | an appending step function gives logs that are prefixes of each other |
| AfqmcProperties.StepsExtendLog | pauxy/qmc/afqmc.py:145-171 | the log after `m` steps is a prefix of the log after `n >= m` steps |
| AfqmcProperties.EveryStepFeedsEstimators | pauxy/qmc/afqmc.py:156-158 | for every `1 <= t <= nsteps`, the estimators receive at step `t` exactly the population produced by that step's walker loop |
| AfqmcProperties.NoMarkerInPropagations | pauxy/qmc/afqmc.py:146-152 | the walker loop logs no cadence events |
| AfqmcProperties.StepMarkers | pauxy/qmc/afqmc.py:159-171 | one step adds a cadence event for step `t` iff `t` is that step and the phase fires there |
| AfqmcProperties.IterateMarkers | pauxy/qmc/afqmc.py:145 | an event that each step adds exactly at step `t` when it fires is in the log iff `1 <= t <= n` and it fires |
| AfqmcProperties.StepsMarkers | pauxy/qmc/afqmc.py:145-171 | after `n` steps, a cadence event for step `t` is logged iff `1 <= t <= n` and its phase fires at `t` |
| AfqmcProperties.CadenceMembership | pauxy/qmc/afqmc.py:159-171 | orthogonalisation, population control and the shift update happen at step `t` iff `1 <= t <= nsteps` and `t` is a multiple of their period; the bound is updated iff `t < nequilibrate` |
| AfqmcProperties.CountAppendOne | pauxy/qmc/afqmc.py:159-171 | appending one event raises that phase's count by one and no other |
| AfqmcProperties.CountPropagations | pauxy/qmc/afqmc.py:146-152 | the walker loop changes no cadence count |
| AfqmcProperties.CountPhase | pauxy/qmc/afqmc.py:159-171 | a phase that may fire raises its own count by one when it does |
| AfqmcProperties.CountPhases | pauxy/qmc/afqmc.py:159-171 | the five cadence phases of a step raise the counts of exactly the phases that fire |
| AfqmcProperties.SweepCount | pauxy/qmc/afqmc.py:146-158 | the walker loop and the estimator update change no cadence count |
| AfqmcProperties.StepCount | pauxy/qmc/afqmc.py:146-171 | one step raises a phase's count by one iff the phase fires at that step |
| AfqmcProperties.IterateCount | pauxy/qmc/afqmc.py:145 | a count that rises by one exactly at multiples of `k` rises by the number of multiples of `k` in `1..n` |
| AfqmcProperties.StepsCount | pauxy/qmc/afqmc.py:145-171 | after `n` steps each periodic phase has fired once per multiple of its period in `1..n` |
| AfqmcProperties.CadenceCounts | pauxy/qmc/afqmc.py:142-171 | over a run, orthogonalisation runs `nsteps / nstblz` times, the shift update `nsteps / nupdate_shift` times, population control `nsteps / npop_control` times, and printing `nsteps / nmeasure` times plus the zeroth print when verbose |
| Cadence.MultiplesCount | pauxy/qmc/afqmc.py:159 | there are `n / k` multiples of `k` in `1..n` |
| Cadence.DivModUnique | pauxy/qmc/afqmc.py:159 | a quotient and remainder with `0 <= r < k` are Dafny's `/` and `%` |
| AfqmcProperties.StepFields | pauxy/qmc/afqmc.py:146-171 | after a step the walkers are the swept population, orthogonalised and combed on their cadences; `E_T` is unchanged off the shift cadence; the bound is the new `E_T` before equilibration and unchanged after |
| AfqmcProperties.IterateKeeps | pauxy/qmc/afqmc.py:145 | a quantity no step in `a+1..b` changes is the same after `a` and after `b` steps |
| AfqmcProperties.InitialShift | pauxy/qmc/afqmc.py:135-136 | `E_T` and the bound both start as walker 0's local energy |
| AfqmcProperties.ShiftHeld | pauxy/qmc/afqmc.py:162-163 | `E_T` does not change across steps `a+1..b` that are not multiples of `nupdate_shift` |
| AfqmcProperties.ShiftAtMultiple | pauxy/qmc/afqmc.py:162-163 | at a multiple of `nupdate_shift`, `E_T` becomes the projected energy of the estimators at that point of the step |
| AfqmcProperties.BoundTracksShift | pauxy/qmc/afqmc.py:167-169 | after any step `t < nequilibrate`, the mean local energy equals `E_T` |
| AfqmcProperties.BoundHeld | pauxy/qmc/afqmc.py:167-169 | from step `nequilibrate - 1` on, the mean local energy no longer changes |
| AfqmcProperties.ScaleTwice | pauxy/qmc/afqmc.py:154 | scaling a weight twice is scaling it by the product |
| AfqmcProperties.PowScale | pauxy/qmc/afqmc.py:154 | scaling by `f^(n-1)` and then by `f` is scaling by `f^n` |
| AfqmcProperties.QuietStep | pauxy/qmc/afqmc.py:146-171 | when propagation, orthogonalisation and population control do nothing, a step off the shift cadence only multiplies each weight by `growth(E_T)` |
| AfqmcProperties.IterateConstantFactor | pauxy/qmc/afqmc.py:145 | per-step constant reweighting compounds to a power of the factor |
| AfqmcProperties.ConstantFactorOnly | pauxy/qmc/afqmc.py:145-163 | under those conditions, for fewer than `nupdate_shift` steps `E_T` is fixed and each weight is multiplied by `growth(E_T)^n` |
| AfqmcDriver.Afqmc.Start | pauxy/qmc/afqmc.py:133-143 | adopts `psi` when given; fails (walker 0 does not exist) iff the population is empty, leaving the rest untouched; otherwise the state is `Initial` |
| AfqmcDriver.Afqmc.SweepWalkers | pauxy/qmc/afqmc.py:146-158 | the in-place walker loop and estimator update leave exactly the state `SweepPhase` specifies |
| AfqmcDriver.Afqmc.DoStep | pauxy/qmc/afqmc.py:146-171 | one iteration of the step loop leaves exactly the state `Step` specifies |
| AfqmcDriver.Afqmc.Run | pauxy/qmc/afqmc.py:133-171 | `run` succeeds iff the population is non-empty, and then leaves exactly the state of `AfqmcSpec.Run` |
| AfqmcProperties.ContainsAtOffset | pauxy/qmc/afqmc.py:204 | Python's `sub in s` holds iff `sub` occurs at some offset of `s` |
| AfqmcProperties.DtypeAsWrittenAlwaysComplex | pauxy/qmc/afqmc.py:203-206 | as written, `determine_dtype` is true for every input |
| AfqmcProperties.DtypeIntended | pauxy/qmc/afqmc.py:203-206 | corrected, the dtype is complex iff the Hubbard–Stratonovich type contains `continuous` or some twist component is non-zero |
| AfqmcProperties.DtypeCounterexample | pauxy/qmc/afqmc.py:205 | discrete fields with twist `[0.0]` give complex as written but real as intended |
| PyIndex.Index | afqmcpy/qmc.py:68-71 | a Python index is valid iff `-n <= i < n`, and then denotes `i` or `i + n` |
| PyIndex.Bound | afqmcpy/qmc.py:68 | Python's slice-bound rule: a bound in `0..n` is kept, a negative bound counts from the end and is clamped at 0, and a bound past the end becomes `n` |
| PyIndex.SliceRange | pauxy/trial_wavefunction.py:362 | a Python slice `a[i:j]` selects an ordered range within `0..n`, and exactly `i..j` when that is in range |
| LegacySpec.SweptWalkers | afqmcpy/qmc.py:39-52 | the walker loop keeps the population size |
| LegacySpec.SweepPhase | afqmcpy/qmc.py:39-52 | the walker loop only appends to the log and changes neither the history, `psi_left`, `E_T` nor the bound |
| LegacySpec.WriteSlot | afqmcpy/qmc.py:53-55 | the history write slot `bp_step + 1` always lies in `1..nprop_tot`, so slot 0 is never written there |
| LegacySpec.InitialHistory | afqmcpy/qmc.py:22-27 | a history exists iff back-propagation is on; it has `nprop_tot + 1` slots and slot 0 holds the initial population |
| LegacySpec.StepsUnfold | afqmcpy/qmc.py:38 | zero steps succeed unchanged; step `n` runs on the outcome of steps `1..n-1`, and a failure stops the run |
| LegacyProperties.TurnRule | afqmcpy/qmc.py:43-52 | one walker's turn propagates iff `abs(weight) > 1e-8` (no alive check) and reorthogonalises iff `step % nstblz == 0`; its events are in the order propagate, feed, reorthogonalise; the estimator gets the reweighted walker; the weight becomes `detR * weight` only without importance sampling |
| LegacyProperties.SweepEventsOfWalker | afqmcpy/qmc.py:39-52 | the sweep's events are exactly the events of each walker's own turn |
| LegacyProperties.SweepPropagatesIff | afqmcpy/qmc.py:39-52 | in a step, walker `i` is propagated iff its weight is above `1e-8`, and reorthogonalised iff the step is a multiple of `nstblz` |
| LegacyProperties.TurnHasNoMarker | afqmcpy/qmc.py:43-52 | a walker's turn logs no history, reset, ITCF, print, bound or population-control event |
| LegacyProperties.NoMarkerInSweep | afqmcpy/qmc.py:39-52 | the walker loop logs no such event |
| LegacyProperties.HistoryWrite | afqmcpy/qmc.py:53-79 | on every step the history phase succeeds when `nback_prop` divides `nprop_tot`. The write slot then holds the population. Slot 0 holds it too exactly when back-propagation ran with ITCF off, and is otherwise unchanged. Every other slot and the slot count are unchanged |
| LegacyProperties.HistorySlots | afqmcpy/qmc.py:53-79 | whenever the history phase succeeds, the new history is the old one with the write slot set to the population, and with slot 0 set too on a back-propagation step with ITCF off |
| LegacyProperties.ItcfReset | afqmcpy/qmc.py:80-86 | the ITCF step raises exactly when it fires with `psi_left` unbound or no slot 0. When it fires, slot 0 becomes the population and no other slot changes; otherwise the history is untouched |
| LegacyProperties.Aligned | afqmcpy/qmc.py:53 | when `nback_prop` divides both `nprop_tot` and the step, `bp_step + 1` is a positive multiple of `nback_prop` |
| LegacyProperties.WindowWithinHistory | afqmcpy/qmc.py:53-68 | when `nback_prop` divides `nprop_tot`, every back-propagation step has `0 <= s` and `e <= nprop_tot`; neither index wraps; the window is slots `s+1..e` and has exactly `nback_prop` snapshots |
| LegacyProperties.WindowWrapsWithoutDivisibility | afqmcpy/qmc.py:58 | without that divisibility (`nprop_tot = 3`, `nback_prop = 2`, step 4) `s` is `-1`, which Python reads as the last slot |
| LegacyProperties.BackPropReadsWindow | afqmcpy/qmc.py:56-79 | a back-propagation step succeeds; it back-propagates exactly the window; it updates the observables from slots `e` and `s`; it resets slot 0 iff ITCF is off |
| LegacyProperties.HistoryMarkers | afqmcpy/qmc.py:53-79 | the history phase logs a write and, when ITCF is off, the after-back-propagation reset exactly when they fire |
| LegacyProperties.ItcfMarkers | afqmcpy/qmc.py:80-86 | the ITCF phase logs its reset exactly at multiples of `nprop_tot` when ITCF is on |
| LegacyProperties.StepMarkers | afqmcpy/qmc.py:53-96 | a successful step logs a history, reset, ITCF, print, bound or population-control event for itself exactly when it fires |
| LegacyProperties.StepsOkPrefix | afqmcpy/qmc.py:38 | a successful run of `n` steps is a successful run of `n-1` steps followed by a successful step `n` |
| LegacyProperties.StepsOkAt | afqmcpy/qmc.py:38 | a successful run of `n` steps succeeds at every shorter length |
| LegacyProperties.LastStepMarkers | afqmcpy/qmc.py:38-96 | the last step of a successful run adds exactly its own firing events |
| LegacyProperties.StepsMarkers | afqmcpy/qmc.py:38-96 | after `n` successful steps, such an event for step `t` is logged iff `1 <= t <= n` and it fires |
| LegacyProperties.InitialFeedHasNoMarker | afqmcpy/qmc.py:32-33 | feeding the initial walkers logs none of those events |
| LegacyProperties.RunMarkers | afqmcpy/qmc.py:36-96 | over a successful run the logged cadence events are exactly the zeroth print and those of steps `1..nsteps-1` that fire: `range` excludes `nsteps` |
| LegacyProperties.AtMostOneReset | afqmcpy/qmc.py:73-86 | no step resets slot 0 both after back-propagation and after the ITCF |
| LegacyProperties.StepSucceeds | afqmcpy/qmc.py:39-96 | under a configuration that never raises, a step from a state with a full-size history succeeds and keeps the history full-size |
| LegacyProperties.IterateSucceeds | afqmcpy/qmc.py:38 | steps that preserve a readiness condition and never fail from it make every run of steps succeed |
| LegacyProperties.RunSucceeds | afqmcpy/qmc.py:11-98 | on a non-empty population, `do_qmc` completes when three things hold: ITCF is used only with back-propagation, `nback_prop` divides `nprop_tot`, and `comb` keeps the history size |
| LegacyProperties.PlainRunSucceeds | afqmcpy/qmc.py:11-98 | without back-propagation and ITCF, every run on a non-empty population completes |
| LegacyProperties.EmptyRunFails | afqmcpy/qmc.py:29 | an empty population raises at `psi[0]` before the loop |
| LegacyProperties.StepFields | afqmcpy/qmc.py:87-96 | `E_T` changes only at multiples of `nmeasure`; the bound takes `E_T` exactly while `step < nequilibrate`; the history is replaced by `comb`'s only at multiples of `npop_control` |
| LegacyProperties.EnergyHeld | afqmcpy/qmc.py:87-91 | `E_T` does not change across steps `a+1..b` that are not multiples of `nmeasure` |
| LegacyProperties.InitialEnergy | afqmcpy/qmc.py:29-91 | before the first multiple of `nmeasure`, `E_T` is still walker 0's local energy |
| LegacyDriver.FailurePersists | afqmcpy/qmc.py:38 | once a step raises, the run's outcome stays that failure |
| LegacyDriver.SweptPointwise | afqmcpy/qmc.py:39-52 | a population built walker by walker from each turn is the swept population |
| LegacyDriver.LegacyQmc.Start | afqmcpy/qmc.py:22-36 | fails exactly as `Initial` does (walker 0 missing); otherwise the state is `Initial` |
| LegacyDriver.LegacyQmc.TakeTurn | afqmcpy/qmc.py:43-52 | one walker's turn computes exactly `WalkerTurn` |
| LegacyDriver.LegacyQmc.SweepTurns | afqmcpy/qmc.py:39-52 | the walker loop computes exactly the swept population and the sweep's events |
| LegacyDriver.LegacyQmc.SweepWalkers | afqmcpy/qmc.py:39-52 | the walker loop leaves exactly the state `SweepPhase` specifies and keeps the history buffer |
| LegacyDriver.LegacyQmc.WriteHistory | afqmcpy/qmc.py:53-79 | the in-place history write and back-propagation leave exactly `HistoryPhase`'s state, or report its failure |
| LegacyDriver.LegacyQmc.BackPropagate | afqmcpy/qmc.py:56-79 | back-propagation over the window and the slot-0 reset leave exactly `BackPropPhase`'s state, or report its failure |
| LegacyDriver.LegacyQmc.Itcf | afqmcpy/qmc.py:80-86 | the ITCF computation and reset leave exactly `ItcfPhase`'s state, or report its failure |
| LegacyDriver.LegacyQmc.UpdateEnergy | afqmcpy/qmc.py:87-91 | leaves exactly `EnergyPhase`'s state |
| LegacyDriver.LegacyQmc.UpdateBound | afqmcpy/qmc.py:92-94 | leaves exactly `BoundPhase`'s state |
| LegacyDriver.LegacyQmc.ControlPopulation | afqmcpy/qmc.py:95-96 | leaves exactly `PopPhase`'s state, with `comb`'s history |
| LegacyDriver.LegacyQmc.Finish | afqmcpy/qmc.py:87-96 | the last three phases in order |
| LegacyDriver.LegacyQmc.DoStep | afqmcpy/qmc.py:39-96 | one iteration of the step loop leaves exactly `Step`'s state, or reports its failure |
| LegacyDriver.LegacyQmc.NextStep | afqmcpy/qmc.py:38-96 | from the state after `step - 1` steps, reaches the state after `step` steps |
| LegacyDriver.LegacyQmc.Loop | afqmcpy/qmc.py:38-96 | the step loop over `range(1, nsteps)` reaches exactly `Steps` at `StepCount`, or reports the first failure |
| LegacyDriver.LegacyQmc.Run | afqmcpy/qmc.py:11-98 | `do_qmc` leaves exactly the state of `LegacySpec.Run`, or reports the failure it raises |
| TrialWavefunction.GetTrialWavefunction | pauxy/trial_wavefunction.py:35-46 | fails iff `name` is missing; a selected class carries the requested tag; `None` iff no class has that tag |
| TrialProperties.DispatchRoundTrip | pauxy/trial_wavefunction.py:35-46 | each class's tag selects that class, and distinct classes have distinct tags |
| TrialWavefunction.Take | pauxy/trial_wavefunction.py:92 | `a[:n]` is the prefix of length `min(n, len(a))` |
| TrialWavefunction.Drop | pauxy/trial_wavefunction.py:93 | `a[n:]` is what follows `a[:n]` |
| TrialWavefunction.FillColumns | pauxy/trial_wavefunction.py:92-93 | assigning into `n` columns succeeds iff the source has `n` columns or broadcasts one; the result has `n` columns drawn from the source, equal to it when it had `n` |
| TrialWavefunction.ReshapeF | pauxy/trial_wavefunction.py:82-83 | `reshape(..., order='F')` succeeds iff the size matches, giving `cols` columns of `rows` entries |
| TrialWavefunction.RunOf | pauxy/trial_wavefunction.py:82-83 | each Fortran-order column is a run of `rows` entries |
| TrialWavefunction.RunBounds | pauxy/trial_wavefunction.py:82-83 | column `j`'s run lies within the flat array |
| TrialProperties.FlattenLength | pauxy/trial_wavefunction.py:82-83 | a rectangular matrix flattens to `rows * cols` entries |
| TrialProperties.FlattenColumn | pauxy/trial_wavefunction.py:82-83 | column `j` sits at offset `j * rows` of the flattened matrix |
| TrialProperties.ReshapeEntry | pauxy/trial_wavefunction.py:82-83 | entry `(i, j)` of the reshape is flat entry `j * rows + i` (Fortran order) |
| TrialProperties.ReshapeColumn | pauxy/trial_wavefunction.py:82-83 | column `j` of the reshape is the `j`-th run of `rows` entries |
| TrialProperties.ReshapeFlatten | pauxy/trial_wavefunction.py:82-83 | reshaping a flattened matrix gives it back |
| TrialProperties.FlattenReshape | pauxy/trial_wavefunction.py:82-83 | flattening a reshape gives back the flat array |
| TrialProperties.FlattenPrefix | pauxy/trial_wavefunction.py:82-83 | the first `c` columns flatten to the first `c * rows` entries |
| TrialWavefunction.UpperRows | pauxy/trial_wavefunction.py:92 | `tmp[:nbasis, ups]` has one column per up index |
| TrialWavefunction.LowerRows | pauxy/trial_wavefunction.py:93 | `tmp[nbasis:, downs]` has one column per down index |
| TrialWavefunction.AssembleGhf | pauxy/trial_wavefunction.py:92-93 | the two assignments succeed iff both halves fit their column ranges, giving `nup + ndown` columns |
| TrialProperties.GhfColumns | pauxy/trial_wavefunction.py:92-93 | with as many up and down columns as indices, column `k` is the upper half of up column `ups[k]` and column `nup + k` the lower half of down column `downs[k]` |
| TrialProperties.HalvesRejoin | pauxy/trial_wavefunction.py:92-93 | the upper and lower halves of a column rejoin to it |
| TrialSetup.SplitGhfColumns | pauxy/trial_wavefunction.py:84-91 | every column index goes to exactly one of `ups` and `downs`, to `ups` iff its first `nbasis` entries all exceed `1e-10` in magnitude; both lists are increasing |
| TrialSetup.ReadGhf | pauxy/trial_wavefunction.py:82-93 | fails when the orbital count is not `2 * nbasis * ne`; otherwise the columns are split and the trial is the assembled GHF matrix |
| TrialProperties.LayoutByType | pauxy/trial_wavefunction.py:325-332 | the basis size is `nbasis` for type `UHF` and `2 * nbasis` otherwise; the trial is complex iff `cplx` or type `GHF` |
| TrialWavefunction.ZeroMatrix | pauxy/trial_wavefunction.py:355-356 | `numpy.zeros` has the requested shape |
| TrialWavefunction.PySlice | pauxy/trial_wavefunction.py:362 | an in-range Python slice is the Dafny subsequence |
| TrialProperties.DetSlicesAdjacent | pauxy/trial_wavefunction.py:364-365 | each determinant's slice starts where the previous one ends |
| TrialProperties.DetSlicesTile | pauxy/trial_wavefunction.py:358-365 | every position `p < ndets * skip` lies in exactly one determinant's slice, that of `p / skip` |
| TrialProperties.SliceLength | pauxy/trial_wavefunction.py:362 | a slice `start:start+skip` has `skip` entries iff it ends within the array |
| TrialSetup.FillDeterminants | pauxy/trial_wavefunction.py:355-365 | succeeds iff the orbitals hold at least `ndets * nbasis * ne` coefficients (extra ones are ignored); then determinant `i` is the Fortran reshape of the `i`-th contiguous run |
| TrialWavefunction.Density | pauxy/trial_wavefunction.py:277-278 | one occupation per site |
| TrialProperties.NormSqNonNegative | pauxy/trial_wavefunction.py:278 | a squared magnitude is non-negative |
| TrialProperties.RowWeightNonNegative | pauxy/trial_wavefunction.py:278 | a row's squared norm is non-negative |
| TrialProperties.RowWeightAppend | pauxy/trial_wavefunction.py:278 | a row's squared norm adds over column blocks |
| TrialProperties.DensityNonNegative | pauxy/trial_wavefunction.py:277-278 | every site density is non-negative |
| TrialProperties.DensityAdditive | pauxy/trial_wavefunction.py:277-278 | the density of a column block union is the sum of the blocks' densities |
| TrialProperties.SumAppend | pauxy/trial_wavefunction.py:267 | `sum` adds over concatenation |
| TrialProperties.SumNonNegative | pauxy/trial_wavefunction.py:286 | a sum of non-negative terms is non-negative |
| TrialProperties.SumZero | pauxy/trial_wavefunction.py:286 | a sum of zeros is zero |
| TrialWavefunction.MixDensity | pauxy/trial_wavefunction.py:293-294 | mixing keeps the length |
| TrialProperties.MixEndpoints | pauxy/trial_wavefunction.py:293-294 | `alpha = 0` gives `new`, `alpha = 1` gives `old`, and mixing a density with itself gives it back |
| TrialProperties.MixBetween | pauxy/trial_wavefunction.py:293-294 | for `0 <= alpha <= 1`, each mixed entry lies between the new and old ones |
| TrialProperties.MixOfReals | pauxy/trial_wavefunction.py:294 | a convex combination lies between its two ends |
| TrialProperties.SqrtFreeTest | pauxy/trial_wavefunction.py:284-291 | for `x >= 0`, `x < sqrt(deps)` iff `x * x < deps` |
| TrialProperties.MeanAbsDiffNonNegative | pauxy/trial_wavefunction.py:286-287 | the mean absolute density change is non-negative |
| TrialProperties.MeanAbsDiffSelf | pauxy/trial_wavefunction.py:286-287 | an unchanged density has mean change zero |
| TrialProperties.SelfConsistentSquared | pauxy/trial_wavefunction.py:280-291 | the test holds iff `abs(enew - eold) < deps` and both squared mean density changes are below `deps` |
| TrialProperties.SelfConsistentAtFixpoint | pauxy/trial_wavefunction.py:280-291 | an unchanged energy and densities pass the test iff `deps > 0` |
| TrialWavefunction.OccupiedColumns | pauxy/trial_wavefunction.py:265-266 | the column assignment succeeds iff both eigenvector blocks fit, giving `nup + ndown` columns |
| TrialWavefunction.InitialiseTrial | pauxy/trial_wavefunction.py:255-269 | `initialise` succeeds iff the column assignment does, and its trial is the occupied columns |
| TrialProperties.InitialiseOccupied | pauxy/trial_wavefunction.py:263-267 | given enough eigenvectors, the trial is the first `nup` up then the first `ndown` down eigenvectors, and `eold` is the sum of the first `nup` up and `ndown` down energies |
| TrialProperties.InitialiseTooFewOrbitals | pauxy/trial_wavefunction.py:265 | fewer than `nup` up eigenvectors (more than one) makes the assignment raise |
| TrialWavefunction.MinOf | pauxy/trial_wavefunction.py:247 | `min` returns an element no larger than any other |
| TrialProperties.SeparatedAppend | pauxy/trial_wavefunction.py:230-231 | appending an energy more than `deps` below every recorded minimum keeps the minima strictly separated |
| TrialProperties.SeparatedLastIsMin | pauxy/trial_wavefunction.py:222-234 | the last of separated minima is their minimum |
| TrialWavefunction.Finish | pauxy/trial_wavefunction.py:246-253 | corrected result: "not found" iff no minimum was recorded; a found energy is the minimum of `minima` |
| TrialProperties.FinishAsWrittenNeverReportsFailure | pauxy/trial_wavefunction.py:247-253 | as written, the "no UHF wavefunction" branch is unreachable: empty minima crash at `min(minima)` |
| TrialProperties.FinishCounterexample | pauxy/trial_wavefunction.py:247 | with no minima the code as written crashes while the corrected version reports "not found" |
| TrialProperties.FinishAgreesWhenFound | pauxy/trial_wavefunction.py:246-249 | with at least one minimum, the written and corrected results agree |
| TrialSetup.FindUhfWfn | pauxy/trial_wavefunction.py:195-253 | the minima are at most one per attempt and strictly separated by `deps`; found iff some minimum was recorded and nothing raised; the found energy is the last and smallest minimum and is the energy of the returned trial; the returned trial and eigenvalues come from one and the same mean-field diagonalisation; `ninit > 0` with `nit_max == 0` raises. The search ends with the corrected `Finish` (see Findings), so `ninit == 0` gives "not found" where line 247 as written raises `ValueError` |

## Left out

- File and console I/O is not modelled: HDF5 and JSON metadata, printing
  and timing (`pauxy/qmc/afqmc.py` 85-122 and 173-232). A print appears
  only as a logged event at the step it happens.
- The MPI communicator and the parallel paths are left out: they are
  concurrency.
- The numerics are function-valued parameters:
  - `propagate_walker`, `orthogonalise`, `reortho` with its `detR`,
    `pop_control` and `comb`;
  - `back_propagate`, the ITCF calculators, `local_energy`, `gab`,
    `eproj` and `projected_energy`;
  - `exp(dt * Re E_T)`, `diagonalise_sorted` and `numpy.random`.

  The model states when they are called and where their results go, not
  what they compute.
- Estimator internals are left out: the estimator state is the event log
  that feeds it.
- Floating-point rounding is not modelled: weights, energies and densities
  are exact reals, and `1e-8` and `1e-10` are exact decimals.
- The imaginary part of `E_T` is dropped. The source takes `.real` for the
  initial bound (`pauxy/qmc/afqmc.py` 136, `afqmcpy/qmc.py` 30) and for the
  reweighting factor (`pauxy/qmc/afqmc.py` 154, `afqmcpy/qmc.py` 46). When
  it sets the bound during equilibration (`pauxy/qmc/afqmc.py` 169,
  `afqmcpy/qmc.py` 94), it stores the full, possibly complex `E_T`; the
  model keeps only its real part there.
- `read_fortran_complex_numbers` and `numpy.load` are taken as the list of
  coefficients they return (`pauxy/trial_wavefunction.py` 74-81 and
  379-387). They are file I/O.
- The `sys.exit` after a failed UHF search (`pauxy/trial_wavefunction.py`
  185-187) is process control. The model stops at the returned error flag.
- The multi-determinant `free_electron` debugging branch
  (`pauxy/trial_wavefunction.py` 338-346) is left out. It is diagnostic
  code, and `numpy.zeros(2, nbasis, nbasis)` there raises a `TypeError`.
- `ndets` is taken as a number. The source's default of `None` raises in
  `numpy.zeros` at line 333.
- Array dtypes are not modelled. Only the complex-or-real decision is
  (`IsComplex`, `DetermineDtype`).
- tools/reblock.py is not part of this model: it is analysis plumbing.
- Cadences of zero are excluded by `Config.Valid`. Once a step runs, the
  source raises there, because `step % 0` divides by zero. With
  `nsteps == 0` (newer driver) or `nsteps <= 1` (legacy driver) no step
  runs and the source returns normally, but the model still excludes
  those inputs.
- Step counts and cadences are `nat`, so negative values are not
  modelled. Python accepts them: a negative `nsteps` gives an empty
  `range`, and `step % -k == 0` holds exactly when `step % k == 0`.
- In the legacy driver the two ITCF flags (`state.itcf`, line 73, and
  `state.estimators.calc_itcf`, line 80) are merged into one flag. So are
  the two bound attributes (`state.qmc.mean_local_energy`, line 30, and
  `state.mean_local_energy`, line 94). They are evidently meant to be the
  same setting.
- In the legacy driver the observable updates at lines 69-72 and 74-77 are
  one logged update. Both take the same window ends and `psi_left`.
- AfqmcProperties.QuietStep and AfqmcProperties.ConstantFactorOnly cover
  the "only the constant factor" property only when the opaque operations
  are identities. In general their effect is whatever `Ops` gives.
- TrialSetup.FindUhfWfn: the print of line 243-244 is modelled only by its
  failure when no iteration ran (`it` unbound). The warning of line 251
  is not modelled.
- TrialWavefunction.Finish: a failure returns the last trial computed.
  As written, line 253 names an unbound `trial` and would raise
  `NameError`.

## Findings

| source | as written | input that shows it | evidently intended | confidence | as-written member | corrected member |
|---|---|---|---|---|---|---|
| pauxy/qmc/afqmc.py:205 | `system.ktwist.all() is not None` is a boolean, never `None`, so `twist` is always true and every run is complex | `hubbard_stratonovich` absent (`discrete`), `ktwist = [0.0]` | complex iff the field type is continuous or the twist is non-zero | not executed | AfqmcSpec.DetermineDtypeAsWritten, shown by AfqmcProperties.DtypeAsWrittenAlwaysComplex and AfqmcProperties.DtypeCounterexample | AfqmcSpec.DetermineDtype, proved by AfqmcProperties.DtypeIntended |
| pauxy/trial_wavefunction.py:247 | `min(minima)` runs before the `try`, so an empty `minima` raises `ValueError` and the "no UHF wavefunction found" branch at lines 250-253 never runs | `ninit = 1` with no attempt converging (`minima == []`) | return the error flag when no minimum was found | not executed | TrialWavefunction.FinishAsWritten, shown by TrialProperties.FinishCounterexample and TrialProperties.FinishAsWrittenNeverReportsFailure | TrialWavefunction.Finish, used by TrialSetup.FindUhfWfn |
