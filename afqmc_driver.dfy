/**
 * `AFQMC.run` (pauxy/qmc/afqmc.py) as the object it is: the population,
 * E_T, the local-energy bound and the estimator trace are fields that each
 * step updates in place.  Every method is proved against the value-level
 * schedule of `AfqmcSpec`, whose properties are the lemmas of
 * `AfqmcProperties`.
 */
module AfqmcDriver {
  import opened Wrappers
  import opened Walkers
  import opened AfqmcSpec

  class Afqmc {
    const cfg: Config
    const ops: Ops
    /** `self.psi.walkers` */
    var walkers: seq<Walker>
    /** the local variable `E_T` (its real part) */
    var eT: real
    /** `self.propagators.mean_local_energy` */
    var meanLocalEnergy: real
    /** everything the estimators and the printer have been told */
    var log: seq<Event>

    /** The fields as a value of the schedule's state type. */
    function Current(): State
      reads this
    {
      State(walkers, eT, meanLocalEnergy, log)
    }

    constructor (cfg: Config, ops: Ops, walkers: seq<Walker>)
      ensures this.cfg == cfg && this.ops == ops
      ensures this.walkers == walkers && this.log == []
    {
      this.cfg := cfg;
      this.ops := ops;
      this.walkers := walkers;
      this.eT := 0.0;
      this.meanLocalEnergy := 0.0;
      this.log := [];
    }

    /**
     * Lines 133-143: adopt `psi` when given, compute E_T from walker 0 and
     * feed (and, when verbose, print) step 0.  An empty population has no
     * walker 0: the source raises there, and `ok` is false.
     */
    method Start(psi: Option<seq<Walker>>, verbose: bool) returns (ok: bool)
      modifies this
      ensures walkers == (if psi.Some? then psi.value else old(walkers))
      ensures ok <==> |walkers| > 0
      ensures ok ==> Current() == Initial(walkers, verbose, ops)
      ensures !ok ==> eT == old(eT) && meanLocalEnergy == old(meanLocalEnergy) && log == old(log)
    {
      if psi.Some? {
        walkers := psi.value;
      }
      if |walkers| == 0 {
        return false;
      }
      var e := ops.localEnergy(walkers[0]);
      eT := e;
      meanLocalEnergy := e;
      log := [EstimatorsUpdated(0, walkers)];
      if verbose {
        log := log + [Printed(0)];
      }
      ok := true;
    }

    /** Lines 146-158: one pass over the walkers, then the estimator update. */
    method SweepWalkers(step: nat)
      modifies this
      ensures Current() == SweepPhase(old(Current()), step, ops)
    {
      ghost var ws0 := walkers;
      ghost var log0 := log;
      var i := 0;
      while i < |walkers|
        invariant 0 <= i <= |walkers| == |ws0|
        invariant forall k :: 0 <= k < i ==> walkers[k] == Advance(ws0[k], eT, ops)
        invariant forall k :: i <= k < |ws0| ==> walkers[k] == ws0[k]
        invariant log == log0 + PropagationEvents(ws0, step, i)
        invariant eT == old(eT) && meanLocalEnergy == old(meanLocalEnergy)
      {
        var w := walkers[i];
        if AbsAbove(w.weight, WeightEps) && w.alive {
          w := ops.propagate(w);
          log := log + [Propagated(step, i)];
        }
        w := Reweight(w, ops.growth(eT));
        walkers := walkers[i := w];
        i := i + 1;
      }
      assert walkers == Sweep(ws0, eT, ops);
      log := log + [EstimatorsUpdated(step, walkers)];
    }

    /** Lines 147-171: one step of the random walk. */
    method DoStep(step: nat)
      requires cfg.Valid()
      modifies this
      ensures Current() == Step(old(Current()), step, cfg, ops)
    {
      SweepWalkers(step);
      if step % cfg.nstblz == 0 {
        walkers := ops.orthogonalise(walkers);
        log := log + [Orthogonalised(step)];
      }
      if step % cfg.nupdateShift == 0 {
        eT := ops.projectedEnergy(log);
        log := log + [ShiftUpdated(step)];
      }
      if step % cfg.nmeasure == 0 {
        log := log + [Printed(step)];
      }
      if step < cfg.nequilibrate {
        meanLocalEnergy := eT;
        log := log + [BoundUpdated(step)];
      }
      if step % cfg.npopControl == 0 {
        walkers := ops.popControl(walkers);
        log := log + [PopulationControlled(step)];
      }
    }

    /** Lines 133-171: the whole open-ended random walk. */
    method Run(psi: Option<seq<Walker>>, verbose: bool) returns (ok: bool)
      requires cfg.Valid()
      modifies this
      ensures ok <==> |if psi.Some? then psi.value else old(walkers)| > 0
      ensures ok ==> Current() == AfqmcSpec.Run(if psi.Some? then psi.value else old(walkers), verbose, cfg, ops)
    {
      ok := Start(psi, verbose);
      if !ok {
        return;
      }
      ghost var s0 := Current();
      for step := 1 to cfg.nsteps + 1
        invariant Current() == Steps(s0, step - 1, cfg, ops)
      {
        DoStep(step);
        StepsUnfold(s0, step, cfg, ops);
      }
    }
  }
}
