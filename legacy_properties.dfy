/**
 * What the schedule of `do_qmc` guarantees: the walker rule inside the
 * sweep, the slot arithmetic of the history buffer, the alignment of the
 * back-propagation window, the two anchor resets, the cadences of E_T,
 * printing and population control, and the range `1..nsteps-1` of steps.
 */
module LegacyProperties {
  import opened Wrappers
  import opened Walkers
  import opened Cadence
  import opened PyIndex
  import opened LegacySpec

  // ---------------------------------------------------------------------
  // The sweep

  /**
   * Lines 43-52, one walker's turn: the walker is propagated iff
   * `abs(weight) > 1e-8`, whether it is alive or not; the estimator sees it
   * reweighted and before reorthogonalisation; reorthogonalisation runs iff
   * `step % nstblz == 0` and folds `detR` into the weight only without
   * importance sampling.
   */
  lemma TurnRule(w: Walker, i: nat, step: nat, eT: real, cfg: Config, ops: Ops)
    requires cfg.Valid()
    ensures Propagated(step, i) in WalkerTurn(w, i, step, eT, cfg, ops).events <==> AbsAbove(w.weight, WeightEps)
    ensures Reorthogonalised(step, i) in WalkerTurn(w, i, step, eT, cfg, ops).events <==> step % cfg.nstblz == 0
    ensures forall e :: e in WalkerTurn(w, i, step, eT, cfg, ops).events ==>
      e.step == step && (e.Propagated? || e.EstimatorFed? || e.Reorthogonalised?) && e.walker == i
    ensures
      var r := WalkerTurn(w, i, step, eT, cfg, ops);
      forall j, k :: 0 <= j < k < |r.events| ==> TurnRank(r.events[j]) < TurnRank(r.events[k])
    ensures
      var fed := Reweight(if AbsAbove(w.weight, WeightEps) then ops.propagate(w) else w, ops.growth(eT));
      var r := WalkerTurn(w, i, step, eT, cfg, ops);
      EstimatorFed(step, i, fed) in r.events
      && r.walker.weight ==
        (if step % cfg.nstblz == 0 && !cfg.importanceSampling then Mul(ops.reortho(fed.phi).1, fed.weight)
         else fed.weight)
  {
  }

  /** Walker `i`'s calls are exactly the events of the sweep that name walker `i`. */
  lemma {:induction false} SweepEventsOfWalker(ws: Snapshot, step: nat, eT: real, cfg: Config, ops: Ops, n: nat,
                                               e: Event)
    requires cfg.Valid() && n <= |ws|
    ensures e in SweepEvents(ws, step, eT, cfg, ops, n) <==>
      (e.Propagated? || e.EstimatorFed? || e.Reorthogonalised?) && e.walker < n
      && e in WalkerTurn(ws[e.walker], e.walker, step, eT, cfg, ops).events
  {
    if n > 0 {
      SweepEventsOfWalker(ws, step, eT, cfg, ops, n - 1, e);
      TurnRule(ws[n - 1], n - 1, step, eT, cfg, ops);
    }
  }

  /**
   * In the sweep of step `step`, walker `i` is propagated iff its weight
   * exceeds 1e-8 in modulus, and reorthogonalised iff `step % nstblz == 0`.
   */
  lemma SweepPropagatesIff(s: State, step: nat, cfg: Config, ops: Ops, i: nat)
    requires cfg.Valid() && i < |s.psi|
    ensures Propagated(step, i) in SweepPhase(s, step, cfg, ops).log <==>
      Propagated(step, i) in s.log || AbsAbove(s.psi[i].weight, WeightEps)
    ensures Reorthogonalised(step, i) in SweepPhase(s, step, cfg, ops).log <==>
      Reorthogonalised(step, i) in s.log || step % cfg.nstblz == 0
  {
    SweepEventsOfWalker(s.psi, step, s.eT, cfg, ops, |s.psi|, Propagated(step, i));
    SweepEventsOfWalker(s.psi, step, s.eT, cfg, ops, |s.psi|, Reorthogonalised(step, i));
    TurnRule(s.psi[i], i, step, s.eT, cfg, ops);
  }

  /** The markers below are never emitted by the sweep. */
  predicate IsMarker(e: Event) {
    e.HistoryWritten? || e.AnchorReset? || e.EnergyUpdated? || e.Printed? || e.BoundUpdated? || e.PopulationControlled?
  }

  /** A walker's turn never adds a marker. */
  lemma TurnHasNoMarker(w: Walker, i: nat, step: nat, eT: real, cfg: Config, ops: Ops, e: Event)
    requires cfg.Valid() && IsMarker(e)
    ensures e !in WalkerTurn(w, i, step, eT, cfg, ops).events
  {
  }

  lemma {:induction false} NoMarkerInSweep(ws: Snapshot, step: nat, eT: real, cfg: Config, ops: Ops, n: nat, e: Event)
    requires cfg.Valid() && n <= |ws| && IsMarker(e)
    ensures e !in SweepEvents(ws, step, eT, cfg, ops, n)
  {
    if n > 0 {
      NoMarkerInSweep(ws, step, eT, cfg, ops, n - 1, e);
      TurnHasNoMarker(ws[n - 1], n - 1, step, eT, cfg, ops, e);
    }
  }

  // ---------------------------------------------------------------------
  // The history buffer

  /**
   * Lines 53-79, the history slots after the history phase of any step:
   * slot `(step-1) % nprop_tot + 1` holds a copy of the population; slot 0
   * holds it too when back propagation ran with ITCF off (line 79) and is
   * otherwise as it was; every other slot is unchanged.  Off the
   * back-propagation cadence the phase always succeeds on a history of
   * `nprop_tot + 1` slots, and on it too when `nback_prop` divides
   * `nprop_tot`.
   */
  lemma HistoryWrite(s: State, step: nat, cfg: Config, ops: Ops)
    requires cfg.Valid() && cfg.backProp
    requires s.hist.Some? && |s.hist.value| == cfg.Slots()
    requires step % cfg.nbackProp == 0 ==> step >= 1 && cfg.npropTot % cfg.nbackProp == 0
    ensures HistoryPhase(s, step, cfg, ops).Ok?
    ensures
      var h, slot := s.hist.value, WriteSlot(step, cfg);
      var reset := step % cfg.nbackProp == 0 && !cfg.itcf;
      var h' := HistoryPhase(s, step, cfg, ops).state.hist;
      h'.Some? && |h'.value| == cfg.Slots()
      && h'.value[slot] == s.psi
      && h'.value[0] == (if reset then s.psi else h[0])
      && forall k :: 0 < k < cfg.Slots() && k != slot ==> h'.value[k] == h[k]
  {
    if step % cfg.nbackProp == 0 {
      var h := s.hist.value;
      var slot := WriteSlot(step, cfg);
      var written := s.(hist := Some(h[slot := s.psi]), log := s.log + [HistoryWritten(step, slot)]);
      BackPropReadsWindow(written, step, cfg, ops);
    }
  }

  /**
   * The same without any assumption on the configuration: whenever the
   * history phase succeeds, the new history is the old one with the write
   * slot, and on a back-propagation step with ITCF off slot 0, set to the
   * population.
   */
  lemma HistorySlots(s: State, step: nat, cfg: Config, ops: Ops)
    requires cfg.Valid() && cfg.backProp && HistoryPhase(s, step, cfg, ops).Ok?
    ensures s.hist.Some?
    ensures
      var written := s.hist.value[WriteSlot(step, cfg) := s.psi];
      HistoryPhase(s, step, cfg, ops).state.hist ==
        Some(if step % cfg.nbackProp == 0 && !cfg.itcf then written[0 := s.psi] else written)
  {
  }

  /**
   * Lines 80-86: the ITCF step succeeds unless `psi_left` is still unbound
   * or there is no slot 0; when it fires it stores the population in slot 0
   * and changes no other slot, and otherwise it leaves the history as it was.
   */
  lemma ItcfReset(s: State, step: nat, cfg: Config)
    requires cfg.Valid()
    ensures
      var fires := cfg.itcf && step % cfg.npropTot == 0;
      ItcfPhase(s, step, cfg).Ok? <==>
        !fires || (s.psiLeft.Some? && s.hist.Some? && |s.hist.value| > 0)
    ensures
      var fires := cfg.itcf && step % cfg.npropTot == 0;
      var r := ItcfPhase(s, step, cfg);
      r.Ok? ==>
        r.state.psi == s.psi && r.state.psiLeft == s.psiLeft
        && r.state.hist == (if fires then Some(s.hist.value[0 := s.psi]) else s.hist)
  {
  }

  /** `bp_step + 1` is a multiple of `nback_prop` when it divides both `nprop_tot` and `step`. */
  lemma Aligned(step: nat, cfg: Config) returns (k: int)
    requires cfg.Valid() && cfg.backProp && step >= 1
    requires cfg.npropTot % cfg.nbackProp == 0 && step % cfg.nbackProp == 0
    ensures k >= 1 && BpStep(step, cfg) + 1 == k * cfg.nbackProp
  {
    var b, p := cfg.nbackProp, cfg.npropTot;
    var c, q := p / b, step / b;
    assert p == c * b && step == q * b;
    var m := (step - 1) / p;
    var bp := BpStep(step, cfg);
    assert step - 1 == m * p + bp;
    k := q - c * m;
    assert bp + 1 == step - m * p;
    assert m * p == (c * m) * b;
    assert bp + 1 == k * b;
  }

  /**
   * Lines 53-59: when `nprop_tot` is a multiple of `nback_prop`, every
   * back-propagation step has `0 <= s` and `e <= nprop_tot`, `e - s ==
   * nback_prop`, and on a history of `nprop_tot + 1` slots no index wraps:
   * the window is exactly the `nback_prop` slots `s+1..e`.
   */
  lemma WindowWithinHistory(h: seq<Snapshot>, step: nat, cfg: Config)
    requires cfg.Valid() && cfg.backProp && step >= 1
    requires cfg.npropTot % cfg.nbackProp == 0 && step % cfg.nbackProp == 0
    requires |h| == cfg.Slots()
    ensures 0 <= WindowStart(step, cfg) && WindowEnd(step, cfg) <= cfg.npropTot
    ensures WindowEnd(step, cfg) - WindowStart(step, cfg) == cfg.nbackProp
    ensures Index(WindowStart(step, cfg), |h|) == Some(WindowStart(step, cfg) as nat)
    ensures Index(WindowEnd(step, cfg), |h|) == Some(WindowEnd(step, cfg))
    ensures Window(h, step, cfg) == h[WindowStart(step, cfg) + 1..WindowEnd(step, cfg) + 1]
    ensures |Window(h, step, cfg)| == cfg.nbackProp
  {
    var k := Aligned(step, cfg);
    MulAtLeast(k, cfg.nbackProp);
  }

  /**
   * Without the divisibility the start slot can be negative: with
   * `nprop_tot = 3`, `nback_prop = 2` and step 4, `s == -1` and Python's
   * `psi_hist[:, s]` reads the last slot instead.
   */
  lemma WindowWrapsWithoutDivisibility(cfg: Config)
    requires cfg.Valid() && cfg.backProp && cfg.npropTot == 3 && cfg.nbackProp == 2
    ensures WindowStart(4, cfg) == -1
    ensures Index(WindowStart(4, cfg), cfg.Slots()) == Some(cfg.npropTot)
  {
  }

  /**
   * Lines 56-79: on a back-propagation step of an aligned configuration the
   * back propagation gets the window `s+1..e`, the observable update gets
   * slots `e` and `s`, and slot 0 is reset to the population iff ITCF is off.
   */
  lemma BackPropReadsWindow(s: State, step: nat, cfg: Config, ops: Ops)
    requires cfg.Valid() && cfg.backProp && step >= 1
    requires cfg.npropTot % cfg.nbackProp == 0 && step % cfg.nbackProp == 0
    requires s.hist.Some? && |s.hist.value| == cfg.Slots()
    ensures 0 <= WindowStart(step, cfg) && WindowEnd(step, cfg) <= cfg.npropTot
    ensures BackPropPhase(s, step, cfg, ops).Ok?
    ensures
      var h := s.hist.value;
      var sIdx, eIdx := WindowStart(step, cfg) as nat, WindowEnd(step, cfg);
      var window := h[sIdx + 1..eIdx + 1];
      var left := ops.backPropagate(window);
      var r := BackPropPhase(s, step, cfg, ops).state;
      r.psiLeft == Some(left)
      && r.log[..|s.log| + 2] == s.log + [BackPropagated(step, window), ObservablesUpdated(step, h[eIdx], h[sIdx], left)]
      && (AnchorReset(step, false) in r.log <==> AnchorReset(step, false) in s.log || !cfg.itcf)
      && r.hist == Some(if cfg.itcf then h else h[0 := s.psi])
  {
    var h := s.hist.value;
    WindowWithinHistory(h, step, cfg);
    var sIdx, eIdx := WindowStart(step, cfg) as nat, WindowEnd(step, cfg);
    var window := h[sIdx + 1..eIdx + 1];
    assert Window(h, step, cfg) == window;
    var left := ops.backPropagate(window);
    var updated := s.log + [BackPropagated(step, window), ObservablesUpdated(step, h[eIdx], h[sIdx], left)];
    var r := BackPropPhase(s, step, cfg, ops).state;
    assert r.log == (if cfg.itcf then updated else updated + [AnchorReset(step, false)]);
    assert updated == r.log[..|s.log| + 2];
  }

  // ---------------------------------------------------------------------
  // Cadences of a step

  /** Whether a successful step `e.step` emits the marker `e`. */
  predicate Fires(cfg: Config, e: Event)
    requires cfg.Valid() && IsMarker(e)
  {
    match e
    case HistoryWritten(t, slot) => cfg.backProp && slot == WriteSlot(t, cfg)
    case AnchorReset(t, afterItcf) =>
      if afterItcf then cfg.itcf && t % cfg.npropTot == 0
      else cfg.backProp && t % cfg.nbackProp == 0 && !cfg.itcf
    case EnergyUpdated(t) => t % cfg.nmeasure == 0
    case Printed(t) => t % cfg.nmeasure == 0
    case BoundUpdated(t) => t < cfg.nequilibrate
    case PopulationControlled(t) => t % cfg.npopControl == 0
  }

  lemma HistoryMarkers(s: State, step: nat, cfg: Config, ops: Ops, e: Event)
    requires cfg.Valid() && IsMarker(e) && HistoryPhase(s, step, cfg, ops).Ok?
    ensures e in HistoryPhase(s, step, cfg, ops).state.log <==>
      e in s.log || (e.step == step && (e.HistoryWritten? || (e.AnchorReset? && !e.afterItcf)) && Fires(cfg, e))
  {
  }

  lemma ItcfMarkers(s: State, step: nat, cfg: Config, e: Event)
    requires cfg.Valid() && IsMarker(e) && ItcfPhase(s, step, cfg).Ok?
    ensures e in ItcfPhase(s, step, cfg).state.log <==>
      e in s.log || (e.step == step && e.AnchorReset? && e.afterItcf && Fires(cfg, e))
  {
  }

  /** A successful step emits exactly the markers of its own step that fire. */
  lemma StepMarkers(s: State, step: nat, cfg: Config, ops: Ops, e: Event)
    requires cfg.Valid() && IsMarker(e) && Step(s, step, cfg, ops).Ok?
    ensures e in Step(s, step, cfg, ops).state.log <==> e in s.log || (e.step == step && Fires(cfg, e))
  {
    NoMarkerInSweep(s.psi, step, s.eT, cfg, ops, |s.psi|, e);
    var s1 := SweepPhase(s, step, cfg, ops);
    assert e in s1.log <==> e in s.log;
    HistoryMarkers(s1, step, cfg, ops, e);
    var s2 := HistoryPhase(s1, step, cfg, ops).state;
    ItcfMarkers(s2, step, cfg, e);
  }

  /** A run that got through `n` steps got through the first `n - 1`. */
  lemma StepsOkPrefix(s0: State, n: nat, cfg: Config, ops: Ops)
    requires cfg.Valid() && n > 0 && Steps(s0, n, cfg, ops).Ok?
    ensures Steps(s0, n - 1, cfg, ops).Ok?
    ensures Step(Steps(s0, n - 1, cfg, ops).state, n, cfg, ops).Ok?
    ensures Steps(s0, n, cfg, ops).state == Step(Steps(s0, n - 1, cfg, ops).state, n, cfg, ops).state
  {
  }

  /** Step `n` of a completed run adds exactly its own markers that fire. */
  lemma LastStepMarkers(s0: State, n: nat, cfg: Config, ops: Ops, e: Event)
    requires cfg.Valid() && IsMarker(e) && n > 0 && Steps(s0, n, cfg, ops).Ok?
    ensures Steps(s0, n - 1, cfg, ops).Ok?
    ensures e in Steps(s0, n, cfg, ops).state.log <==>
      e in Steps(s0, n - 1, cfg, ops).state.log || (e.step == n && Fires(cfg, e))
  {
    StepsOkPrefix(s0, n, cfg, ops);
    StepMarkers(Steps(s0, n - 1, cfg, ops).state, n, cfg, ops, e);
  }

  lemma {:induction false} StepsMarkers(s0: State, n: nat, cfg: Config, ops: Ops, e: Event)
    requires cfg.Valid() && IsMarker(e) && Steps(s0, n, cfg, ops).Ok?
    ensures e in Steps(s0, n, cfg, ops).state.log <==> e in s0.log || (1 <= e.step <= n && Fires(cfg, e))
  {
    if n > 0 {
      LastStepMarkers(s0, n, cfg, ops, e);
      StepsMarkers(s0, n - 1, cfg, ops, e);
    }
  }

  lemma {:induction false} InitialFeedHasNoMarker(psi: Snapshot, n: nat, e: Event)
    requires n <= |psi| && IsMarker(e)
    ensures e !in InitialFeed(psi, n)
  {
    if n > 0 {
      InitialFeedHasNoMarker(psi, n - 1, e);
    }
  }

  /**
   * In a run that completes, the markers are exactly the step-0 print and
   * those of steps `1..nsteps-1` that fire: step `nsteps` is never visited,
   * because `range(1, nsteps)` excludes its end point.  In particular the
   * anchor slot 0 is reset after back propagation at step `t` iff back
   * propagation is on, ITCF is off and `t % nback_prop == 0`, and after the
   * ITCF iff ITCF is on and `t % nprop_tot == 0`; E_T is recomputed iff
   * `t % nmeasure == 0`; population control runs iff `t % npop_control == 0`.
   */
  lemma RunMarkers(psi: Snapshot, cfg: Config, ops: Ops, e: Event)
    requires cfg.Valid() && IsMarker(e) && Run(psi, cfg, ops).Ok?
    ensures e in Run(psi, cfg, ops).state.log <==>
      e == Printed(0) || (1 <= e.step < cfg.nsteps && Fires(cfg, e))
  {
    var s0 := Initial(psi, cfg, ops).state;
    InitialFeedHasNoMarker(psi, |psi|, e);
    StepsMarkers(s0, StepCount(cfg), cfg, ops, e);
  }

  /** The two anchor resets never fall on the same step. */
  lemma AtMostOneReset(psi: Snapshot, cfg: Config, ops: Ops, t: nat)
    requires cfg.Valid() && Run(psi, cfg, ops).Ok?
    ensures !(AnchorReset(t, false) in Run(psi, cfg, ops).state.log && AnchorReset(t, true) in Run(psi, cfg, ops).state.log)
  {
    RunMarkers(psi, cfg, ops, AnchorReset(t, false));
    RunMarkers(psi, cfg, ops, AnchorReset(t, true));
  }

  // ---------------------------------------------------------------------
  // E_T, the local-energy bound and the history under population control

  /**
   * Lines 87-96 after a successful step: E_T is the projected energy at
   * multiples of `nmeasure` and otherwise unchanged; the bound follows E_T
   * only while `step < nequilibrate`; the history returned by `comb`
   * replaces `psi_hist` only at multiples of `npop_control`.
   */
  lemma StepFields(s: State, step: nat, cfg: Config, ops: Ops)
    requires cfg.Valid() && Step(s, step, cfg, ops).Ok?
    ensures step % cfg.nmeasure != 0 ==> Step(s, step, cfg, ops).state.eT == s.eT
    ensures Step(s, step, cfg, ops).state.meanLocalEnergy ==
      (if step < cfg.nequilibrate then Step(s, step, cfg, ops).state.eT else s.meanLocalEnergy)
    ensures
      var s3 := ItcfPhase(HistoryPhase(SweepPhase(s, step, cfg, ops), step, cfg, ops).state, step, cfg).state;
      Step(s, step, cfg, ops).state.hist == (if step % cfg.npopControl == 0 then ops.comb(s3.psi, cfg.nwalkers, s3.hist).1 else s3.hist)
  {
  }

  /** E_T keeps its value over any stretch of completed steps without a multiple of `nmeasure`. */
  lemma {:induction false} EnergyHeld(s0: State, a: nat, b: nat, cfg: Config, ops: Ops)
    requires cfg.Valid() && a <= b && Steps(s0, b, cfg, ops).Ok?
    requires forall t :: a < t <= b ==> t % cfg.nmeasure != 0
    ensures Steps(s0, a, cfg, ops).Ok?
    ensures Steps(s0, b, cfg, ops).state.eT == Steps(s0, a, cfg, ops).state.eT
  {
    if a < b {
      StepsOkPrefix(s0, b, cfg, ops);
      EnergyHeld(s0, a, b - 1, cfg, ops);
      StepFields(Steps(s0, b - 1, cfg, ops).state, b, cfg, ops);
    }
  }

  /** A run that completes starts from walker 0's local energy and keeps E_T until step `nmeasure`. */
  lemma InitialEnergy(psi: Snapshot, cfg: Config, ops: Ops, t: nat)
    requires cfg.Valid() && Run(psi, cfg, ops).Ok? && t <= StepCount(cfg) && t < cfg.nmeasure
    ensures |psi| > 0 && Initial(psi, cfg, ops).Ok?
    ensures Steps(Initial(psi, cfg, ops).state, t, cfg, ops).Ok?
    ensures Steps(Initial(psi, cfg, ops).state, t, cfg, ops).state.eT == ops.localEnergy(psi[0])
  {
    var s0 := Initial(psi, cfg, ops).state;
    forall u | 0 < u <= t ensures u % cfg.nmeasure != 0 {
      DivModUnique(u, cfg.nmeasure, 0, u);
    }
    StepsOkAt(s0, StepCount(cfg), t, cfg, ops);
    EnergyHeld(s0, 0, t, cfg, ops);
  }

  /** A run that completes `n` steps completed every earlier number of steps. */
  lemma {:induction false} StepsOkAt(s0: State, n: nat, m: nat, cfg: Config, ops: Ops)
    requires cfg.Valid() && m <= n && Steps(s0, n, cfg, ops).Ok?
    ensures Steps(s0, m, cfg, ops).Ok?
  {
    if m < n {
      StepsOkPrefix(s0, n, cfg, ops);
      StepsOkAt(s0, n - 1, m, cfg, ops);
    }
  }

  // ---------------------------------------------------------------------
  // Which runs complete

  /** What the loop needs from a state: with back propagation on, a history of `nprop_tot + 1` slots. */
  predicate HistoryReady(s: State, cfg: Config) {
    cfg.backProp ==> s.hist.Some? && |s.hist.value| == cfg.Slots()
  }

  /**
   * A configuration under which no step of the loop raises: ITCF only with
   * back propagation, `nback_prop` dividing `nprop_tot`, and a `comb` that
   * returns a history of the size it was given.
   */
  ghost predicate NeverRaises(cfg: Config, ops: Ops) {
    cfg.Valid()
    && (cfg.itcf ==> cfg.backProp)
    && (cfg.backProp ==> cfg.npropTot % cfg.nbackProp == 0)
    && (cfg.backProp ==> forall p: Snapshot, n: nat, h: seq<Snapshot> ::
          |h| == cfg.Slots() ==> ops.comb(p, n, Some(h)).1.Some? && |ops.comb(p, n, Some(h)).1.value| == cfg.Slots())
  }

  /** A multiple of a multiple of `c` is a multiple of `c`. */
  lemma MultipleOfMultiple(a: nat, b: nat, c: nat)
    requires b > 0 && c > 0 && a % b == 0 && b % c == 0
    ensures a % c == 0
  {
    var q, r := a / b, b / c;
    assert a == q * b && b == r * c;
    assert a == (q * r) * c;
    DivModUnique(a, c, q * r, 0);
  }

  /** One step from a ready state succeeds and leaves a ready state. */
  lemma StepSucceeds(s: State, step: nat, cfg: Config, ops: Ops)
    requires NeverRaises(cfg, ops) && step >= 1 && HistoryReady(s, cfg)
    ensures Step(s, step, cfg, ops).Ok? && HistoryReady(Step(s, step, cfg, ops).state, cfg)
  {
    var s1 := SweepPhase(s, step, cfg, ops);
    if cfg.backProp {
      HistoryWrite(s1, step, cfg, ops);
      var s2 := HistoryPhase(s1, step, cfg, ops).state;
      if cfg.itcf && step % cfg.npropTot == 0 {
        MultipleOfMultiple(step, cfg.npropTot, cfg.nbackProp);
        assert s2.psiLeft.Some?;
      }
      ItcfReset(s2, step, cfg);
    }
  }

  /** Steps of a function that keep a predicate and never fail all succeed. */
  lemma {:induction false} IterateSucceeds(f: (State, nat) -> Outcome, ready: State -> bool, s0: State, n: nat)
    requires forall s: State, t: nat :: t >= 1 && ready(s) ==> f(s, t).Ok? && ready(f(s, t).state)
    requires ready(s0)
    ensures Iterate(f, s0, n).Ok? && ready(Iterate(f, s0, n).state)
  {
    if n > 0 {
      IterateSucceeds(f, ready, s0, n - 1);
    }
  }

  /**
   * Every run on a non-empty population under such a configuration
   * completes, so the results above about completed runs apply to it.
   */
  lemma RunSucceeds(psi: Snapshot, cfg: Config, ops: Ops)
    requires NeverRaises(cfg, ops) && |psi| > 0
    ensures Run(psi, cfg, ops).Ok?
  {
    var s0 := Initial(psi, cfg, ops).state;
    var ready := (s: State) => HistoryReady(s, cfg);
    forall s: State, t: nat | t >= 1 && ready(s)
      ensures StepFn(cfg, ops)(s, t).Ok? && ready(StepFn(cfg, ops)(s, t).state)
    {
      StepSucceeds(s, t, cfg, ops);
    }
    IterateSucceeds(StepFn(cfg, ops), ready, s0, StepCount(cfg));
  }

  /** In particular a run without back propagation and ITCF always completes on a non-empty population. */
  lemma PlainRunSucceeds(psi: Snapshot, cfg: Config, ops: Ops)
    requires cfg.Valid() && !cfg.backProp && !cfg.itcf && |psi| > 0
    ensures Run(psi, cfg, ops).Ok?
  {
    RunSucceeds(psi, cfg, ops);
  }

  /** An empty population raises before the loop, at `psi[0]`. */
  lemma EmptyRunFails(cfg: Config, ops: Ops)
    requires cfg.Valid()
    ensures Run([], cfg, ops) == Failed(IndexOutOfRange(0))
  {
  }
}
