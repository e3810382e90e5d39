/**
 * `do_qmc` (afqmcpy/qmc.py) as an object: the population, the history
 * buffer `psi_hist` (an array of snapshots overwritten slot by slot),
 * `psi_left`, E_T, the local-energy bound and the estimator trace are
 * fields that each step updates in place.  Every method is proved against
 * the value-level schedule of `LegacySpec`, whose properties are the lemmas
 * of `LegacyProperties`.
 */
module LegacyDriver {
  import opened Wrappers
  import opened Walkers
  import opened LegacySpec

  /** The outcome of a phase as the method reports it: `None` when no exception was raised. */
  predicate Reports(failure: Option<Failure>, o: Outcome) {
    (failure.None? <==> o.Ok?) && (o.Failed? ==> failure == Some(o.failure))
  }

  /** Once a run has failed, later steps do not change its outcome. */
  lemma {:induction false} FailurePersists(s0: State, m: nat, n: nat, cfg: Config, ops: Ops)
    requires cfg.Valid() && m <= n && Steps(s0, m, cfg, ops).Failed?
    ensures Steps(s0, n, cfg, ops) == Steps(s0, m, cfg, ops)
  {
    if m < n {
      FailurePersists(s0, m, n - 1, cfg, ops);
    }
  }

  /** A population whose every walker has taken its turn is the swept population. */
  lemma SweptPointwise(ws0: Snapshot, ws: Snapshot, step: nat, eT: real, cfg: Config, ops: Ops)
    requires cfg.Valid() && |ws| == |ws0|
    requires forall k :: 0 <= k < |ws0| ==> ws[k] == WalkerTurn(ws0[k], k, step, eT, cfg, ops).walker
    ensures ws == SweptWalkers(ws0, step, eT, cfg, ops)
  {
  }

  class LegacyQmc {
    const cfg: Config
    const ops: Ops
    /** the list `psi` of walkers */
    var psi: Snapshot
    /** `psi_hist`, one snapshot per slot, meaningful only while `hasHist` */
    var hist: array<Snapshot>
    /** whether `psi_hist` is an array rather than `None` */
    var hasHist: bool
    /** `psi_left`, unbound until the first back propagation */
    var psiLeft: Option<Snapshot>
    /** the local variable `E_T` (its real part) */
    var eT: real
    /** `state.mean_local_energy` */
    var meanLocalEnergy: real
    /** everything the estimators and the printer have been told */
    var log: seq<Event>

    /** The fields as a value of the schedule's state type. */
    function Current(): State
      reads this, hist
    {
      State(psi, if hasHist then Some(hist[..]) else None, psiLeft, eT, meanLocalEnergy, log)
    }

    constructor (cfg: Config, ops: Ops)
      ensures this.cfg == cfg && this.ops == ops && psi == [] && !hasHist && log == [] && psiLeft.None?
    {
      this.cfg := cfg;
      this.ops := ops;
      psi := [];
      hist := new Snapshot[0];
      hasHist := false;
      psiLeft := None;
      eT := 0.0;
      meanLocalEnergy := 0.0;
      log := [];
    }

    /** Lines 22-36: set up the history, E_T and the bound, and feed the initial population. */
    method Start(psi0: Snapshot) returns (failure: Option<Failure>)
      modifies this
      ensures hist == old(hist) || fresh(hist)
      ensures Reports(failure, Initial(psi0, cfg, ops))
      ensures failure.None? ==> Current() == Initial(psi0, cfg, ops).state
    {
      if |psi0| == 0 {
        return Some(IndexOutOfRange(0));
      }
      psi := psi0;
      if cfg.backProp {
        hist := new Snapshot[cfg.Slots()](k requires 0 <= k < cfg.Slots() => if k == 0 then psi0 else []);
        hasHist := true;
      } else {
        hasHist := false;
      }
      assert hasHist ==> hist[..] == InitialHistory(psi0, cfg).value;
      psiLeft := None;
      var e := ops.localEnergy(psi0[0]);
      eT := e;
      meanLocalEnergy := e;
      var feed: seq<Event> := [];
      for i := 0 to |psi0|
        invariant feed == InitialFeed(psi0, i)
      {
        feed := feed + [EstimatorFed(0, i, psi0[i])];
      }
      log := feed + [Printed(0)];
      failure := None;
    }

    /** Lines 43-52: one walker's turn. */
    method TakeTurn(w0: Walker, i: nat, step: nat) returns (turn: Turn)
      requires cfg.Valid()
      ensures turn == WalkerTurn(w0, i, step, eT, cfg, ops)
    {
      var w := w0;
      var events: seq<Event> := [];
      if AbsAbove(w.weight, WeightEps) {
        w := ops.propagate(w);
        events := events + [Propagated(step, i)];
      }
      w := w.(weight := Scale(w.weight, ops.growth(eT)));
      events := events + [EstimatorFed(step, i, w)];
      if step % cfg.nstblz == 0 {
        var (phi, detR) := ops.reortho(w.phi);
        w := w.(phi := phi);
        if !cfg.importanceSampling {
          w := w.(weight := Mul(detR, w.weight));
        }
        events := events + [Reorthogonalised(step, i)];
      }
      turn := Turn(w, events);
    }

    /** Lines 39-52: each walker's turn, in list order, computed without touching the fields. */
    method SweepTurns(step: nat) returns (ws: Snapshot, events: seq<Event>)
      requires cfg.Valid()
      ensures ws == SweptWalkers(psi, step, eT, cfg, ops)
      ensures events == SweepEvents(psi, step, eT, cfg, ops, |psi|)
    {
      ws, events := psi, [];
      var i := 0;
      while i < |psi|
        invariant 0 <= i <= |psi| == |ws|
        invariant forall k :: 0 <= k < i ==> ws[k] == WalkerTurn(psi[k], k, step, eT, cfg, ops).walker
        invariant forall k :: i <= k < |psi| ==> ws[k] == psi[k]
        invariant events == SweepEvents(psi, step, eT, cfg, ops, i)
      {
        var turn := TakeTurn(psi[i], i, step);
        ws := ws[i := turn.walker];
        events := events + turn.events;
        i := i + 1;
      }
      SweptPointwise(psi, ws, step, eT, cfg, ops);
    }

    /** The sweep applied to the population and the trace. */
    method SweepWalkers(step: nat)
      requires cfg.Valid()
      modifies this
      ensures hist == old(hist)
      ensures Current() == SweepPhase(old(Current()), step, cfg, ops)
    {
      var ws, events := SweepTurns(step);
      psi, log := ws, log + events;
    }

    /** Lines 56-79, after the history write: back propagation and the observable update. */
    method BackPropagate(step: nat) returns (failure: Option<Failure>)
      requires cfg.Valid() && hasHist
      modifies this, hist
      ensures hist == old(hist)
      ensures Reports(failure, BackPropPhase(old(Current()), step, cfg, ops))
      ensures failure.None? ==> Current() == BackPropPhase(old(Current()), step, cfg, ops).state
    {
      var h := hist[..];
      var window := Window(h, step, cfg);
      var left := ops.backPropagate(window);
      var iE := PyIndex.Index(WindowEnd(step, cfg), hist.Length);
      var iS := PyIndex.Index(WindowStart(step, cfg), hist.Length);
      if iE.None? || iS.None? {
        return Some(IndexOutOfRange(step));
      }
      psiLeft := Some(left);
      log := log + [BackPropagated(step, window), ObservablesUpdated(step, hist[iE.value], hist[iS.value], left)];
      if !cfg.itcf {
        hist[0] := psi;
        log := log + [AnchorReset(step, false)];
      }
      failure := None;
    }

    /** Lines 53-79: the history write and, on its cadence, back propagation. */
    method WriteHistory(step: nat) returns (failure: Option<Failure>)
      requires cfg.Valid()
      modifies this, hist
      ensures hist == old(hist)
      ensures Reports(failure, HistoryPhase(old(Current()), step, cfg, ops))
      ensures failure.None? ==> Current() == HistoryPhase(old(Current()), step, cfg, ops).state
    {
      if !cfg.backProp {
        return None;
      }
      if !hasHist {
        return Some(NoHistory(step));
      }
      var slot := WriteSlot(step, cfg);
      if slot >= hist.Length {
        return Some(IndexOutOfRange(step));
      }
      hist[slot] := psi;
      log := log + [HistoryWritten(step, slot)];
      if step % cfg.nbackProp == 0 {
        failure := BackPropagate(step);
      } else {
        failure := None;
      }
    }

    /** Lines 80-86. */
    method Itcf(step: nat) returns (failure: Option<Failure>)
      requires cfg.Valid()
      modifies this, hist
      ensures hist == old(hist)
      ensures Reports(failure, ItcfPhase(old(Current()), step, cfg))
      ensures failure.None? ==> Current() == ItcfPhase(old(Current()), step, cfg).state
    {
      if !(cfg.itcf && step % cfg.npropTot == 0) {
        return None;
      }
      if psiLeft.None? {
        return Some(PsiLeftUnbound(step));
      }
      if !hasHist {
        return Some(NoHistory(step));
      }
      if hist.Length == 0 {
        return Some(IndexOutOfRange(step));
      }
      log := log + [ItcfComputed(step, cfg.itcfStable, hist[..], psiLeft.value)];
      hist[0] := psi;
      log := log + [AnchorReset(step, true)];
      failure := None;
    }

    /** Lines 87-89: E_T from the estimators, and the print. */
    method UpdateEnergy(step: nat)
      requires cfg.Valid()
      modifies this
      ensures hist == old(hist)
      ensures Current() == EnergyPhase(old(Current()), step, cfg, ops)
    {
      if step % cfg.nmeasure == 0 {
        eT := ops.eproj(log);
        log := log + [EnergyUpdated(step), Printed(step)];
      }
    }

    /** Lines 92-94: during equilibration the bound follows E_T. */
    method UpdateBound(step: nat)
      modifies this
      ensures hist == old(hist)
      ensures Current() == BoundPhase(old(Current()), step, cfg)
    {
      if step < cfg.nequilibrate {
        meanLocalEnergy := eT;
        log := log + [BoundUpdated(step)];
      }
    }

    /** Lines 95-96: population control, which may hand back a new history. */
    method ControlPopulation(step: nat)
      requires cfg.Valid()
      modifies this
      ensures hist == old(hist) || fresh(hist)
      ensures Current() == PopPhase(old(Current()), step, cfg, ops)
    {
      if step % cfg.npopControl == 0 {
        var combed := ops.comb(psi, cfg.nwalkers, if hasHist then Some(hist[..]) else None);
        psi := combed.0;
        if combed.1.Some? {
          var h := combed.1.value;
          hist := new Snapshot[|h|](k requires 0 <= k < |h| => h[k]);
          assert hist[..] == h;
          hasHist := true;
        } else {
          hasHist := false;
        }
        log := log + [PopulationControlled(step)];
      }
    }

    /** Lines 87-96: E_T and printing, the bound, population control. */
    method Finish(step: nat)
      requires cfg.Valid()
      modifies this
      ensures hist == old(hist) || fresh(hist)
      ensures Current() == PopPhase(BoundPhase(EnergyPhase(old(Current()), step, cfg, ops), step, cfg), step, cfg, ops)
    {
      UpdateEnergy(step);
      UpdateBound(step);
      ControlPopulation(step);
    }

    /** Lines 39-96: one step; an exception ends it early. */
    method DoStep(step: nat) returns (failure: Option<Failure>)
      requires cfg.Valid()
      modifies this, hist
      ensures hist == old(hist) || fresh(hist)
      ensures Reports(failure, Step(old(Current()), step, cfg, ops))
      ensures failure.None? ==> Current() == Step(old(Current()), step, cfg, ops).state
    {
      SweepWalkers(step);
      failure := WriteHistory(step);
      if failure.Some? {
        return;
      }
      failure := Itcf(step);
      if failure.Some? {
        return;
      }
      Finish(step);
    }

    /** Step `step` of a run from `s0` that has completed the steps before it. */
    method NextStep(ghost s0: State, step: nat) returns (failure: Option<Failure>)
      requires cfg.Valid() && step >= 1 && Steps(s0, step - 1, cfg, ops) == Ok(Current())
      modifies this, hist
      ensures hist == old(hist) || fresh(hist)
      ensures Reports(failure, Steps(s0, step, cfg, ops))
      ensures failure.None? ==> Steps(s0, step, cfg, ops) == Ok(Current())
    {
      ghost var before := Current();
      failure := DoStep(step);
      assert Steps(s0, step, cfg, ops) == Step(before, step, cfg, ops);
    }

    /** Lines 38-96: `for step in range(1, nsteps)`, stopping at the first exception. */
    method Loop(ghost s0: State) returns (failure: Option<Failure>)
      requires cfg.Valid() && Current() == s0
      modifies this, hist
      ensures Reports(failure, Steps(s0, StepCount(cfg), cfg, ops))
      ensures failure.None? ==> Current() == Steps(s0, StepCount(cfg), cfg, ops).state
    {
      failure := None;
      var step := 1;
      while step < cfg.nsteps
        invariant 1 <= step <= (if cfg.nsteps == 0 then 1 else cfg.nsteps)
        invariant Steps(s0, step - 1, cfg, ops) == Ok(Current())
        invariant hist == old(hist) || fresh(hist)
        invariant failure.None?
      {
        failure := NextStep(s0, step);
        if failure.Some? {
          FailurePersists(s0, step, StepCount(cfg), cfg, ops);
          return;
        }
        step := step + 1;
      }
      assert step - 1 == StepCount(cfg);
    }

    /** Lines 11-98: the whole of `do_qmc`. */
    method Run(psi0: Snapshot) returns (failure: Option<Failure>)
      requires cfg.Valid()
      modifies this, hist
      ensures Reports(failure, LegacySpec.Run(psi0, cfg, ops))
      ensures failure.None? ==> Current() == LegacySpec.Run(psi0, cfg, ops).state
    {
      failure := Start(psi0);
      if failure.Some? {
        return;
      }
      failure := Loop(Current());
    }
  }
}
