/**
 * What the schedule of `AFQMC.run` guarantees: the trace is ordered by
 * step and by phase, a walker is propagated exactly when it is eligible,
 * each cadence fires exactly on its multiples, E_T and the local-energy
 * bound only change where the source says they do.
 */
module AfqmcProperties {
  import opened Wrappers
  import opened Walkers
  import opened Cadence
  import opened AfqmcSpec

  // ---------------------------------------------------------------------
  // Ordering of the trace

  /** Every event of `log` belongs to an earlier step, or to `step` and an earlier phase than `r`. */
  ghost predicate Below(log: seq<Event>, step: nat, r: nat) {
    forall x :: x in log ==> x.step < step || (x.step == step && Rank(x) < r)
  }

  lemma AppendEvent(log: seq<Event>, e: Event)
    requires InOrder(log)
    requires forall x :: x in log ==> Precedes(x, e)
    ensures InOrder(log + [e])
  {
    var l := log + [e];
    forall i, j | 0 <= i < j < |l| ensures Precedes(l[i], l[j]) {
      if j < |log| {
        assert l[i] == log[i] && l[j] == log[j];
      } else {
        assert l[i] == log[i] && log[i] in log;
      }
    }
  }

  /** Appending the event of a later phase of the current step keeps the trace in order. */
  lemma AppendRanked(log: seq<Event>, e: Event, step: nat)
    requires InOrder(log) && Below(log, step, Rank(e)) && e.step == step
    ensures InOrder(log + [e]) && Below(log + [e], step, Rank(e) + 1)
  {
    AppendEvent(log, e);
  }

  lemma BelowMono(log: seq<Event>, step: nat, r: nat, r': nat)
    requires Below(log, step, r) && r <= r'
    ensures Below(log, step, r')
  {
  }

  /** The sweep's propagation calls come in walker order, after everything of earlier steps. */
  lemma {:induction false} PropagationInOrder(log: seq<Event>, ws: seq<Walker>, step: nat, n: nat)
    requires n <= |ws|
    requires InOrder(log) && Below(log, step, 0)
    ensures InOrder(log + PropagationEvents(ws, step, n))
    ensures forall x :: x in log + PropagationEvents(ws, step, n) ==>
              x.step < step || (x.step == step && x.Propagated? && x.walker < n)
  {
    if n > 0 {
      PropagationInOrder(log, ws, step, n - 1);
      var pre := log + PropagationEvents(ws, step, n - 1);
      var tail := if Eligible(ws[n - 1]) then [Propagated(step, n - 1)] else [];
      assert log + PropagationEvents(ws, step, n) == pre + tail;
      if Eligible(ws[n - 1]) {
        AppendEvent(pre, Propagated(step, n - 1));
      }
    }
  }

  lemma SweepPhaseInOrder(s: State, step: nat, ops: Ops)
    requires InOrder(s.log) && Below(s.log, step, 0)
    ensures InOrder(SweepPhase(s, step, ops).log) && Below(SweepPhase(s, step, ops).log, step, 2)
  {
    var swept := Sweep(s.walkers, s.eT, ops);
    var pre := s.log + PropagationEvents(s.walkers, step, |s.walkers|);
    PropagationInOrder(s.log, s.walkers, step, |s.walkers|);
    AppendRanked(pre, EstimatorsUpdated(step, swept), step);
  }

  /** One step only appends events of that step, each phase after the previous one. */
  lemma StepInOrder(s: State, step: nat, cfg: Config, ops: Ops)
    requires cfg.Valid()
    requires InOrder(s.log) && Below(s.log, step, 0)
    ensures InOrder(Step(s, step, cfg, ops).log) && Below(Step(s, step, cfg, ops).log, step + 1, 0)
  {
    var s1 := SweepPhase(s, step, ops);
    SweepPhaseInOrder(s, step, ops);
    var s2 := OrthoPhase(s1, step, cfg, ops);
    if s2 != s1 { AppendRanked(s1.log, Orthogonalised(step), step); }
    var s3 := ShiftPhase(s2, step, cfg, ops);
    if s3 != s2 { AppendRanked(s2.log, ShiftUpdated(step), step); }
    var s4 := PrintPhase(s3, step, cfg);
    if s4 != s3 { AppendRanked(s3.log, Printed(step), step); }
    var s5 := BoundPhase(s4, step, cfg);
    if s5 != s4 { AppendRanked(s4.log, BoundUpdated(step), step); }
    var s6 := PopPhase(s5, step, cfg, ops);
    if s6 != s5 { AppendRanked(s5.log, PopulationControlled(step), step); }
    assert Below(s6.log, step, 7);
  }

  /** Steps that each append only their own events, in order, keep the whole trace in order. */
  lemma {:induction false} IterateInOrder(f: (State, nat) -> State, s0: State, n: nat)
    requires forall s: State, t: nat :: InOrder(s.log) && Below(s.log, t, 0) ==>
      InOrder(f(s, t).log) && Below(f(s, t).log, t + 1, 0)
    requires InOrder(s0.log) && Below(s0.log, 1, 0)
    ensures InOrder(Iterate(f, s0, n).log) && Below(Iterate(f, s0, n).log, n + 1, 0)
  {
    if n > 0 {
      IterateInOrder(f, s0, n - 1);
    }
  }

  lemma StepsInOrder(s0: State, n: nat, cfg: Config, ops: Ops)
    requires cfg.Valid()
    requires InOrder(s0.log) && Below(s0.log, 1, 0)
    ensures InOrder(Steps(s0, n, cfg, ops).log) && Below(Steps(s0, n, cfg, ops).log, n + 1, 0)
  {
    var f := StepFn(cfg, ops);
    forall s: State, t: nat | InOrder(s.log) && Below(s.log, t, 0)
      ensures InOrder(f(s, t).log) && Below(f(s, t).log, t + 1, 0)
    {
      StepInOrder(s, t, cfg, ops);
    }
    IterateInOrder(f, s0, n);
  }

  /**
   * The trace of a run is strictly ordered: by step (0, then 1..nsteps in
   * increasing order), within a step by phase (propagations, estimator
   * update, orthogonalisation, E_T update, print, bound, population
   * control), and the propagations by walker index.  So no phase fires
   * twice in one step and no event belongs to a step after `nsteps`.
   */
  lemma RunInOrder(walkers: seq<Walker>, verbose: bool, cfg: Config, ops: Ops)
    requires cfg.Valid() && |walkers| > 0
    ensures InOrder(Run(walkers, verbose, cfg, ops).log)
    ensures forall x :: x in Run(walkers, verbose, cfg, ops).log ==> x.step <= cfg.nsteps
  {
    var s0 := Initial(walkers, verbose, ops);
    if verbose {
      AppendEvent([EstimatorsUpdated(0, walkers)], Printed(0));
    }
    StepsInOrder(s0, cfg.nsteps, cfg, ops);
  }

  // ---------------------------------------------------------------------
  // The trace only grows

  lemma StepExtendsLog(s: State, step: nat, cfg: Config, ops: Ops)
    requires cfg.Valid()
    ensures s.log <= Step(s, step, cfg, ops).log
  {
    var s1 := SweepPhase(s, step, ops);
    assert s1.log == s.log + (PropagationEvents(s.walkers, step, |s.walkers|) + [EstimatorsUpdated(step, Sweep(s.walkers, s.eT, ops))]);
    var s2 := OrthoPhase(s1, step, cfg, ops);
    var s3 := ShiftPhase(s2, step, cfg, ops);
    var s4 := PrintPhase(s3, step, cfg);
    var s5 := BoundPhase(s4, step, cfg);
    var s6 := PopPhase(s5, step, cfg, ops);
    assert s.log <= s1.log <= s2.log <= s3.log <= s4.log <= s5.log <= s6.log;
  }

  lemma {:induction false} IterateExtendsLog(f: (State, nat) -> State, s0: State, m: nat, n: nat)
    requires forall s: State, t: nat :: s.log <= f(s, t).log
    requires m <= n
    ensures Iterate(f, s0, m).log <= Iterate(f, s0, n).log
  {
    if m < n {
      IterateExtendsLog(f, s0, m, n - 1);
    }
  }

  lemma StepsExtendLog(s0: State, m: nat, n: nat, cfg: Config, ops: Ops)
    requires cfg.Valid() && m <= n
    ensures Steps(s0, m, cfg, ops).log <= Steps(s0, n, cfg, ops).log
  {
    var f := StepFn(cfg, ops);
    forall s: State, t: nat ensures s.log <= f(s, t).log {
      StepExtendsLog(s, t, cfg, ops);
    }
    IterateExtendsLog(f, s0, m, n);
  }

  /**
   * Every step `1..nsteps` runs: its estimator update is in the trace and
   * carries the population after that step's sweep, i.e. after every
   * walker has been propagated (if eligible) and reweighted.
   */
  lemma EveryStepFeedsEstimators(walkers: seq<Walker>, verbose: bool, cfg: Config, ops: Ops, t: nat)
    requires cfg.Valid() && |walkers| > 0 && 1 <= t <= cfg.nsteps
    ensures
      var s0 := Initial(walkers, verbose, ops);
      var before := Steps(s0, t - 1, cfg, ops);
      EstimatorsUpdated(t, Sweep(before.walkers, before.eT, ops)) in Run(walkers, verbose, cfg, ops).log
  {
    var s0 := Initial(walkers, verbose, ops);
    var before := Steps(s0, t - 1, cfg, ops);
    var e := EstimatorsUpdated(t, Sweep(before.walkers, before.eT, ops));
    var s1 := SweepPhase(before, t, ops);
    assert e == s1.log[|s1.log| - 1];
    StepExtendsLog(before, t, cfg, ops);
    var s6 := Step(before, t, cfg, ops);
    assert s1.log <= s6.log by {
      var s2 := OrthoPhase(s1, t, cfg, ops);
      var s3 := ShiftPhase(s2, t, cfg, ops);
      var s4 := PrintPhase(s3, t, cfg);
      var s5 := BoundPhase(s4, t, cfg);
      assert s1.log <= s2.log <= s3.log <= s4.log <= s5.log <= s6.log;
    }
    assert e in s6.log;
    StepsUnfold(s0, t, cfg, ops);
    StepsExtendLog(s0, t, cfg.nsteps, cfg, ops);
  }

  // ---------------------------------------------------------------------
  // Which walkers are propagated

  lemma {:induction false} PropagationEventsMembership(ws: seq<Walker>, step: nat, n: nat, t: nat, i: nat)
    requires n <= |ws|
    ensures Propagated(t, i) in PropagationEvents(ws, step, n) <==> t == step && i < n && Eligible(ws[i])
  {
    if n > 0 {
      PropagationEventsMembership(ws, step, n - 1, t, i);
    }
  }

  lemma StepPropagations(s: State, step: nat, cfg: Config, ops: Ops, t: nat, i: nat)
    requires cfg.Valid()
    ensures Propagated(t, i) in Step(s, step, cfg, ops).log <==>
      Propagated(t, i) in s.log || (t == step && i < |s.walkers| && Eligible(s.walkers[i]))
  {
    PropagationEventsMembership(s.walkers, step, |s.walkers|, t, i);
    var s1 := SweepPhase(s, step, ops);
    assert s1.log == s.log + PropagationEvents(s.walkers, step, |s.walkers|) + [EstimatorsUpdated(step, Sweep(s.walkers, s.eT, ops))];
    var s2 := OrthoPhase(s1, step, cfg, ops);
    var s3 := ShiftPhase(s2, step, cfg, ops);
    var s4 := PrintPhase(s3, step, cfg);
    var s5 := BoundPhase(s4, step, cfg);
    var s6 := PopPhase(s5, step, cfg, ops);
    assert Propagated(t, i) in s6.log <==> Propagated(t, i) in s1.log;
  }

  lemma {:induction false} IteratePropagations(f: (State, nat) -> State, s0: State, n: nat, t: nat, i: nat)
    requires forall s: State, step: nat :: Propagated(t, i) in f(s, step).log <==>
      Propagated(t, i) in s.log || (t == step && i < |s.walkers| && Eligible(s.walkers[i]))
    requires Propagated(t, i) !in s0.log
    ensures Propagated(t, i) in Iterate(f, s0, n).log <==>
      1 <= t <= n && i < |Iterate(f, s0, t - 1).walkers| && Eligible(Iterate(f, s0, t - 1).walkers[i])
  {
    if n > 0 {
      IteratePropagations(f, s0, n - 1, t, i);
    }
  }

  lemma StepsPropagations(s0: State, n: nat, cfg: Config, ops: Ops, t: nat, i: nat)
    requires cfg.Valid()
    requires Propagated(t, i) !in s0.log
    ensures Propagated(t, i) in Steps(s0, n, cfg, ops).log <==>
      1 <= t <= n && i < |Steps(s0, t - 1, cfg, ops).walkers| && Eligible(Steps(s0, t - 1, cfg, ops).walkers[i])
  {
    var f := StepFn(cfg, ops);
    forall s: State, step: nat
      ensures Propagated(t, i) in f(s, step).log <==>
        Propagated(t, i) in s.log || (t == step && i < |s.walkers| && Eligible(s.walkers[i]))
    {
      StepPropagations(s, step, cfg, ops, t, i);
    }
    IteratePropagations(f, s0, n, t, i);
  }

  /**
   * Walker `i` is propagated at step `t` iff `1 <= t <= nsteps` and, at the
   * start of step `t`, it exists and `abs(weight) > 1e-8 and alive` holds.
   */
  lemma PropagatedIffEligible(walkers: seq<Walker>, verbose: bool, cfg: Config, ops: Ops, t: nat, i: nat)
    requires cfg.Valid() && |walkers| > 0
    ensures Propagated(t, i) in Run(walkers, verbose, cfg, ops).log <==>
      1 <= t <= cfg.nsteps
      && i < |Steps(Initial(walkers, verbose, ops), t - 1, cfg, ops).walkers|
      && Eligible(Steps(Initial(walkers, verbose, ops), t - 1, cfg, ops).walkers[i])
  {
    StepsPropagations(Initial(walkers, verbose, ops), cfg.nsteps, cfg, ops, t, i);
  }

  /**
   * In the sweep every walker is reweighted exactly once; one that is not
   * eligible (dead, or a weight of modulus at most 1e-8) changes in nothing
   * but that factor.
   */
  lemma SweepReweightsOnce(ws: seq<Walker>, eT: real, ops: Ops, i: nat)
    requires i < |ws|
    ensures Eligible(ws[i]) ==>
      Sweep(ws, eT, ops)[i] == ops.propagate(ws[i]).(weight := Scale(ops.propagate(ws[i]).weight, ops.growth(eT)))
    ensures !Eligible(ws[i]) ==>
      Sweep(ws, eT, ops)[i] == ws[i].(weight := Scale(ws[i].weight, ops.growth(eT)))
  {
  }

  // ---------------------------------------------------------------------
  // Cadences

  /** The marker event of phase `r` (2..6) at step `t`. */
  function Marker(r: nat, t: nat): (e: Event)
    requires 2 <= r <= 6
    ensures Rank(e) == r && e.step == t
  {
    if r == 2 then Orthogonalised(t)
    else if r == 3 then ShiftUpdated(t)
    else if r == 4 then Printed(t)
    else if r == 5 then BoundUpdated(t)
    else PopulationControlled(t)
  }

  /** Whether phase `r` fires at step `t`. */
  predicate Fires(cfg: Config, r: nat, t: nat)
    requires cfg.Valid() && 2 <= r <= 6
  {
    if r == 2 then t % cfg.nstblz == 0
    else if r == 3 then t % cfg.nupdateShift == 0
    else if r == 4 then t % cfg.nmeasure == 0
    else if r == 5 then t < cfg.nequilibrate
    else t % cfg.npopControl == 0
  }

  /** The modulus of a phase on a `step % k` cadence. */
  function Period(cfg: Config, r: nat): (k: nat)
    requires cfg.Valid() && r in {2, 3, 4, 6}
    ensures k > 0
    ensures forall t: nat :: Fires(cfg, r, t) <==> t % k == 0
  {
    if r == 2 then cfg.nstblz
    else if r == 3 then cfg.nupdateShift
    else if r == 4 then cfg.nmeasure
    else cfg.npopControl
  }

  lemma {:induction false} NoMarkerInPropagations(ws: seq<Walker>, step: nat, n: nat, e: Event)
    requires n <= |ws| && !e.Propagated?
    ensures e !in PropagationEvents(ws, step, n)
  {
    if n > 0 {
      NoMarkerInPropagations(ws, step, n - 1, e);
    }
  }

  lemma StepMarkers(s: State, step: nat, cfg: Config, ops: Ops, r: nat, t: nat)
    requires cfg.Valid() && 2 <= r <= 6
    ensures Marker(r, t) in Step(s, step, cfg, ops).log <==>
      Marker(r, t) in s.log || (t == step && Fires(cfg, r, step))
  {
    var m := Marker(r, t);
    NoMarkerInPropagations(s.walkers, step, |s.walkers|, m);
    var s1 := SweepPhase(s, step, ops);
    assert s1.log == s.log + PropagationEvents(s.walkers, step, |s.walkers|) + [EstimatorsUpdated(step, Sweep(s.walkers, s.eT, ops))];
    assert m in s1.log <==> m in s.log;
  }

  /** An event that only step `t` can add, and adds when `fires`, is in the trace after `n` steps iff it was there or `t` came. */
  lemma {:induction false} IterateMarkers(f: (State, nat) -> State, s0: State, n: nat, e: Event, t: nat, fires: bool)
    requires forall s: State, step: nat :: e in f(s, step).log <==> e in s.log || (step == t && fires)
    ensures e in Iterate(f, s0, n).log <==> e in s0.log || (1 <= t <= n && fires)
  {
    if n > 0 {
      IterateMarkers(f, s0, n - 1, e, t, fires);
    }
  }

  lemma StepsMarkers(s0: State, n: nat, cfg: Config, ops: Ops, r: nat, t: nat)
    requires cfg.Valid() && 2 <= r <= 6
    ensures Marker(r, t) in Steps(s0, n, cfg, ops).log <==>
      Marker(r, t) in s0.log || (1 <= t <= n && Fires(cfg, r, t))
  {
    var f := StepFn(cfg, ops);
    forall s: State, step: nat
      ensures Marker(r, t) in f(s, step).log <==> Marker(r, t) in s.log || (step == t && Fires(cfg, r, t))
    {
      StepMarkers(s, step, cfg, ops, r, t);
    }
    IterateMarkers(f, s0, n, Marker(r, t), t, Fires(cfg, r, t));
  }

  /**
   * Orthogonalisation runs at step `t` iff `1 <= t <= nsteps` and
   * `t % nstblz == 0`; population control iff `t % npop_control == 0`; the
   * E_T update iff `t % nupdate_shift == 0`; the bound is set iff `t < nequilibrate`.
   */
  lemma CadenceMembership(walkers: seq<Walker>, verbose: bool, cfg: Config, ops: Ops, t: nat)
    requires cfg.Valid() && |walkers| > 0
    ensures Orthogonalised(t) in Run(walkers, verbose, cfg, ops).log <==> 1 <= t <= cfg.nsteps && t % cfg.nstblz == 0
    ensures PopulationControlled(t) in Run(walkers, verbose, cfg, ops).log <==> 1 <= t <= cfg.nsteps && t % cfg.npopControl == 0
    ensures ShiftUpdated(t) in Run(walkers, verbose, cfg, ops).log <==> 1 <= t <= cfg.nsteps && t % cfg.nupdateShift == 0
    ensures BoundUpdated(t) in Run(walkers, verbose, cfg, ops).log <==> 1 <= t <= cfg.nsteps && t < cfg.nequilibrate
  {
    var s0 := Initial(walkers, verbose, ops);
    StepsMarkers(s0, cfg.nsteps, cfg, ops, 2, t);
    StepsMarkers(s0, cfg.nsteps, cfg, ops, 6, t);
    StepsMarkers(s0, cfg.nsteps, cfg, ops, 3, t);
    StepsMarkers(s0, cfg.nsteps, cfg, ops, 5, t);
  }

  /** Number of events of phase `r` in a trace. */
  function CountRank(log: seq<Event>, r: nat): nat {
    if log == [] then 0 else CountRank(log[..|log| - 1], r) + (if Rank(log[|log| - 1]) == r then 1 else 0)
  }

  lemma CountAppendOne(log: seq<Event>, e: Event, r: nat)
    ensures CountRank(log + [e], r) == CountRank(log, r) + (if Rank(e) == r then 1 else 0)
  {
    assert (log + [e])[..|log|] == log;
  }

  lemma {:induction false} CountPropagations(log: seq<Event>, ws: seq<Walker>, step: nat, n: nat, r: nat)
    requires n <= |ws| && r > 0
    ensures CountRank(log + PropagationEvents(ws, step, n), r) == CountRank(log, r)
  {
    if n > 0 {
      CountPropagations(log, ws, step, n - 1, r);
      var pre := log + PropagationEvents(ws, step, n - 1);
      assert log + PropagationEvents(ws, step, n) ==
        pre + (if Eligible(ws[n - 1]) then [Propagated(step, n - 1)] else []);
      if Eligible(ws[n - 1]) {
        CountAppendOne(pre, Propagated(step, n - 1), r);
      } else {
        assert pre + [] == pre;
      }
    } else {
      assert log + PropagationEvents(ws, step, 0) == log;
    }
  }

  /** Counting across a phase that appends its marker `e` when `fires`. */
  lemma CountPhase(log: seq<Event>, log': seq<Event>, e: Event, fires: bool, r: nat)
    requires log' == if fires then log + [e] else log
    ensures CountRank(log', r) == CountRank(log, r) + (if fires && Rank(e) == r then 1 else 0)
  {
    if fires { CountAppendOne(log, e, r); }
  }

  /** Counting across the five optional phases of a step, on bare logs. */
  lemma CountPhases(l1: seq<Event>, l2: seq<Event>, l3: seq<Event>, l4: seq<Event>, l5: seq<Event>, l6: seq<Event>,
                    step: nat, f2: bool, f3: bool, f4: bool, f5: bool, f6: bool, r: nat)
    requires l2 == if f2 then l1 + [Orthogonalised(step)] else l1
    requires l3 == if f3 then l2 + [ShiftUpdated(step)] else l2
    requires l4 == if f4 then l3 + [Printed(step)] else l3
    requires l5 == if f5 then l4 + [BoundUpdated(step)] else l4
    requires l6 == if f6 then l5 + [PopulationControlled(step)] else l5
    ensures CountRank(l6, r) == CountRank(l1, r)
      + (if (r == 2 && f2) || (r == 3 && f3) || (r == 4 && f4) || (r == 5 && f5) || (r == 6 && f6) then 1 else 0)
  {
    CountPhase(l1, l2, Orthogonalised(step), f2, r);
    CountPhase(l2, l3, ShiftUpdated(step), f3, r);
    CountPhase(l3, l4, Printed(step), f4, r);
    CountPhase(l4, l5, BoundUpdated(step), f5, r);
    CountPhase(l5, l6, PopulationControlled(step), f6, r);
  }

  lemma SweepCount(s: State, step: nat, ops: Ops, r: nat)
    requires r > 1
    ensures CountRank(SweepPhase(s, step, ops).log, r) == CountRank(s.log, r)
  {
    var pre := s.log + PropagationEvents(s.walkers, step, |s.walkers|);
    CountPropagations(s.log, s.walkers, step, |s.walkers|, r);
    CountAppendOne(pre, EstimatorsUpdated(step, Sweep(s.walkers, s.eT, ops)), r);
  }

  lemma StepCount(s: State, step: nat, cfg: Config, ops: Ops, r: nat)
    requires cfg.Valid() && 2 <= r <= 6
    ensures CountRank(Step(s, step, cfg, ops).log, r) == CountRank(s.log, r) + (if Fires(cfg, r, step) then 1 else 0)
  {
    var s1 := SweepPhase(s, step, ops);
    SweepCount(s, step, ops, r);
    var s2 := OrthoPhase(s1, step, cfg, ops);
    var s3 := ShiftPhase(s2, step, cfg, ops);
    var s4 := PrintPhase(s3, step, cfg);
    var s5 := BoundPhase(s4, step, cfg);
    var s6 := PopPhase(s5, step, cfg, ops);
    CountPhases(s1.log, s2.log, s3.log, s4.log, s5.log, s6.log, step,
                Fires(cfg, 2, step), Fires(cfg, 3, step), Fires(cfg, 4, step), Fires(cfg, 5, step), Fires(cfg, 6, step), r);
  }

  lemma {:induction false} IterateCount(f: (State, nat) -> State, s0: State, n: nat, r: nat, k: nat)
    requires k > 0
    requires forall s: State, t: nat :: CountRank(f(s, t).log, r) == CountRank(s.log, r) + (if t % k == 0 then 1 else 0)
    ensures CountRank(Iterate(f, s0, n).log, r) == CountRank(s0.log, r) + Multiples(n, k)
  {
    if n > 0 {
      IterateCount(f, s0, n - 1, r, k);
    }
  }

  lemma StepsCount(s0: State, n: nat, cfg: Config, ops: Ops, r: nat)
    requires cfg.Valid() && r in {2, 3, 4, 6}
    ensures CountRank(Steps(s0, n, cfg, ops).log, r) == CountRank(s0.log, r) + Multiples(n, Period(cfg, r))
  {
    var f := StepFn(cfg, ops);
    var k := Period(cfg, r);
    forall s, t: nat ensures CountRank(f(s, t).log, r) == CountRank(s.log, r) + (if t % k == 0 then 1 else 0) {
      StepCount(s, t, cfg, ops, r);
    }
    IterateCount(f, s0, n, r, k);
  }

  /**
   * Over a run, orthogonalisation fires `nsteps / nstblz` times, the E_T
   * update `nsteps / nupdate_shift` times, population control
   * `nsteps / npop_control` times and the print `nsteps / nmeasure` times
   * (plus the step-0 print when verbose).
   */
  lemma CadenceCounts(walkers: seq<Walker>, verbose: bool, cfg: Config, ops: Ops)
    requires cfg.Valid() && |walkers| > 0
    ensures CountRank(Run(walkers, verbose, cfg, ops).log, 2) == cfg.nsteps / cfg.nstblz
    ensures CountRank(Run(walkers, verbose, cfg, ops).log, 3) == cfg.nsteps / cfg.nupdateShift
    ensures CountRank(Run(walkers, verbose, cfg, ops).log, 4) == (if verbose then 1 else 0) + cfg.nsteps / cfg.nmeasure
    ensures CountRank(Run(walkers, verbose, cfg, ops).log, 6) == cfg.nsteps / cfg.npopControl
  {
    var s0 := Initial(walkers, verbose, ops);
    var first := [EstimatorsUpdated(0, walkers)];
    CountAppendOne([], EstimatorsUpdated(0, walkers), 2);
    CountAppendOne([], EstimatorsUpdated(0, walkers), 3);
    CountAppendOne([], EstimatorsUpdated(0, walkers), 4);
    CountAppendOne([], EstimatorsUpdated(0, walkers), 6);
    assert [] + [EstimatorsUpdated(0, walkers)] == first;
    if verbose {
      CountAppendOne(first, Printed(0), 2);
      CountAppendOne(first, Printed(0), 3);
      CountAppendOne(first, Printed(0), 4);
      CountAppendOne(first, Printed(0), 6);
    } else {
      assert s0.log == first;
    }
    StepsCount(s0, cfg.nsteps, cfg, ops, 2);
    StepsCount(s0, cfg.nsteps, cfg, ops, 3);
    StepsCount(s0, cfg.nsteps, cfg, ops, 4);
    StepsCount(s0, cfg.nsteps, cfg, ops, 6);
    MultiplesCount(cfg.nsteps, cfg.nstblz);
    MultiplesCount(cfg.nsteps, cfg.nupdateShift);
    MultiplesCount(cfg.nsteps, cfg.nmeasure);
    MultiplesCount(cfg.nsteps, cfg.npopControl);
  }

  // ---------------------------------------------------------------------
  // E_T and the local-energy bound

  /** What one step does to the population, E_T and the bound. */
  lemma StepFields(s: State, step: nat, cfg: Config, ops: Ops)
    requires cfg.Valid()
    ensures
      var swept := Sweep(s.walkers, s.eT, ops);
      var ortho := if step % cfg.nstblz == 0 then ops.orthogonalise(swept) else swept;
      Step(s, step, cfg, ops).walkers == (if step % cfg.npopControl == 0 then ops.popControl(ortho) else ortho)
    ensures step % cfg.nupdateShift != 0 ==> Step(s, step, cfg, ops).eT == s.eT
    ensures Step(s, step, cfg, ops).meanLocalEnergy ==
      (if step < cfg.nequilibrate then Step(s, step, cfg, ops).eT else s.meanLocalEnergy)
  {
  }

  /** A quantity that no step in `a+1..b` changes has the same value after `a` and after `b` steps. */
  lemma {:induction false} IterateKeeps(f: (State, nat) -> State, g: State -> real, s0: State, a: nat, b: nat)
    requires a <= b
    requires forall s: State, t: nat :: a < t <= b ==> g(f(s, t)) == g(s)
    ensures g(Iterate(f, s0, b)) == g(Iterate(f, s0, a))
  {
    if a < b {
      IterateKeeps(f, g, s0, a, b - 1);
    }
  }

  /** E_T keeps its value over any stretch of steps without a multiple of `nupdate_shift`. */
  lemma ShiftHeld(s0: State, a: nat, b: nat, cfg: Config, ops: Ops)
    requires cfg.Valid() && a <= b
    requires forall t :: a < t <= b ==> t % cfg.nupdateShift != 0
    ensures Steps(s0, b, cfg, ops).eT == Steps(s0, a, cfg, ops).eT
  {
    var f := StepFn(cfg, ops);
    var g := (s: State) => s.eT;
    forall s: State, t: nat | a < t <= b ensures g(f(s, t)) == g(s) {
      StepFields(s, t, cfg, ops);
    }
    IterateKeeps(f, g, s0, a, b);
  }

  /** At a multiple of `nupdate_shift`, E_T is the projected energy of what the estimators have seen by then. */
  lemma ShiftAtMultiple(s: State, step: nat, cfg: Config, ops: Ops)
    requires cfg.Valid() && step % cfg.nupdateShift == 0
    ensures Step(s, step, cfg, ops).eT == ops.projectedEnergy(OrthoPhase(SweepPhase(s, step, ops), step, cfg, ops).log)
  {
  }

  /** E_T starts as the real part of walker 0's local energy, and so does the bound. */
  lemma InitialShift(walkers: seq<Walker>, verbose: bool, ops: Ops)
    requires |walkers| > 0
    ensures Initial(walkers, verbose, ops).eT == ops.localEnergy(walkers[0])
    ensures Initial(walkers, verbose, ops).meanLocalEnergy == ops.localEnergy(walkers[0])
  {
  }

  /** Once equilibration is over the loop no longer touches the bound. */
  lemma BoundHeld(s0: State, a: nat, b: nat, cfg: Config, ops: Ops)
    requires cfg.Valid() && a <= b && a + 1 >= cfg.nequilibrate
    ensures Steps(s0, b, cfg, ops).meanLocalEnergy == Steps(s0, a, cfg, ops).meanLocalEnergy
  {
    var f := StepFn(cfg, ops);
    var g := (s: State) => s.meanLocalEnergy;
    forall s: State, t: nat | a < t <= b ensures g(f(s, t)) == g(s) {
      StepFields(s, t, cfg, ops);
    }
    IterateKeeps(f, g, s0, a, b);
  }

  /** During equilibration the bound follows E_T at the end of every step. */
  lemma BoundTracksShift(s0: State, t: nat, cfg: Config, ops: Ops)
    requires cfg.Valid() && 1 <= t && t < cfg.nequilibrate
    ensures Steps(s0, t, cfg, ops).meanLocalEnergy == Steps(s0, t, cfg, ops).eT
  {
    StepsUnfold(s0, t, cfg, ops);
    StepFields(Steps(s0, t - 1, cfg, ops), t, cfg, ops);
  }

  // ---------------------------------------------------------------------
  // A run in which only the constant factor acts

  function Pow(f: real, n: nat): real {
    if n == 0 then 1.0 else Pow(f, n - 1) * f
  }

  /** One more application of the factor raises its power by one. */
  lemma PowScale(w0: Complex, before: Complex, after: Complex, f: real, n: nat)
    requires n > 0 && before == Scale(w0, Pow(f, n - 1)) && after == Scale(before, f)
    ensures after == Scale(w0, Pow(f, n))
  {
    var p := Pow(f, n - 1);
    ScaleTwice(w0, p, f);
    assert Pow(f, n) == p * f;
  }

  lemma ScaleTwice(a: Complex, f: real, g: real)
    ensures Scale(Scale(a, f), g) == Scale(a, f * g)
  {
    assert a.re * f * g == a.re * (f * g);
    assert a.im * f * g == a.im * (f * g);
  }

  /** A step without an E_T update, under collaborators that keep walkers as they are, is the bare sweep. */
  lemma QuietStep(s: State, step: nat, cfg: Config, ops: Ops, i: nat)
    requires cfg.Valid() && step % cfg.nupdateShift != 0 && i < |s.walkers|
    requires forall w :: ops.propagate(w) == w
    requires forall p :: ops.orthogonalise(p) == p
    requires forall p :: ops.popControl(p) == p
    ensures Step(s, step, cfg, ops).eT == s.eT
    ensures |Step(s, step, cfg, ops).walkers| == |s.walkers|
    ensures Step(s, step, cfg, ops).walkers[i].weight == Scale(s.walkers[i].weight, ops.growth(s.eT))
  {
    StepFields(s, step, cfg, ops);
    var swept := Sweep(s.walkers, s.eT, ops);
    assert ops.orthogonalise(swept) == swept;
    assert ops.popControl(swept) == swept;
    assert ops.propagate(s.walkers[i]) == s.walkers[i];
    assert swept[i] == Advance(s.walkers[i], s.eT, ops);
  }

  /**
   * With a propagator, orthogonalisation and population control that leave
   * walkers unchanged, and no E_T update within the first `n` steps, every
   * weight after `n` steps is its initial weight times `exp(dt*E_T)^n`.
   */
  /** Steps `1..k-1` that keep E_T and scale walker `i` by `growth(E_T)` give it `growth(E_T)^n` after `n < k` steps. */
  lemma {:induction false} IterateConstantFactor(f: (State, nat) -> State, growth: real -> real, s0: State, n: nat, k: nat, i: nat)
    requires n < k && i < |s0.walkers|
    requires forall s: State, t: nat :: 0 < t < k && i < |s.walkers| ==>
      f(s, t).eT == s.eT && |f(s, t).walkers| == |s.walkers|
      && f(s, t).walkers[i].weight == Scale(s.walkers[i].weight, growth(s.eT))
    ensures Iterate(f, s0, n).eT == s0.eT
    ensures |Iterate(f, s0, n).walkers| == |s0.walkers|
    ensures Iterate(f, s0, n).walkers[i].weight == Scale(s0.walkers[i].weight, Pow(growth(s0.eT), n))
  {
    if n > 0 {
      IterateConstantFactor(f, growth, s0, n - 1, k, i);
      var before := Iterate(f, s0, n - 1);
      PowScale(s0.walkers[i].weight, before.walkers[i].weight, f(before, n).walkers[i].weight, growth(s0.eT), n);
    } else {
      var w0 := s0.walkers[i].weight;
      assert Scale(w0, 1.0) == w0;
    }
  }

  /**
   * With a propagator, orthogonalisation and population control that leave
   * walkers unchanged, and no E_T update within the first `n` steps, every
   * weight after `n` steps is its initial weight times `exp(dt*E_T)^n`.
   */
  lemma ConstantFactorOnly(s0: State, n: nat, cfg: Config, ops: Ops, i: nat)
    requires cfg.Valid() && n < cfg.nupdateShift && i < |s0.walkers|
    requires forall w :: ops.propagate(w) == w
    requires forall p :: ops.orthogonalise(p) == p
    requires forall p :: ops.popControl(p) == p
    ensures Steps(s0, n, cfg, ops).eT == s0.eT
    ensures |Steps(s0, n, cfg, ops).walkers| == |s0.walkers|
    ensures Steps(s0, n, cfg, ops).walkers[i].weight == Scale(s0.walkers[i].weight, Pow(ops.growth(s0.eT), n))
  {
    var f := StepFn(cfg, ops);
    forall s: State, t: nat | 0 < t < cfg.nupdateShift && i < |s.walkers|
      ensures f(s, t).eT == s.eT && |f(s, t).walkers| == |s.walkers|
      ensures f(s, t).walkers[i].weight == Scale(s.walkers[i].weight, ops.growth(s.eT))
    {
      assert t % cfg.nupdateShift != 0 by { DivModUnique(t, cfg.nupdateShift, 0, t); }
      QuietStep(s, t, cfg, ops, i);
    }
    IterateConstantFactor(f, ops.growth, s0, n, cfg.nupdateShift, i);
  }

  // ---------------------------------------------------------------------
  // determine_dtype

  /** `Contains` is Python's `in` on strings: `sub` occurs at some offset of `s`. */
  lemma {:induction false} ContainsAtOffset(s: string, sub: string)
    ensures Contains(s, sub) <==> exists k :: 0 <= k <= |s| && sub <= s[k..]
  {
    if sub <= s {
      assert s[0..] == s;
    } else if |s| == 0 {
      assert forall k :: 0 <= k <= |s| ==> s[k..] == s;
    } else {
      ContainsAtOffset(s[1..], sub);
      if exists k :: 0 <= k <= |s[1..]| && sub <= s[1..][k..] {
        var k :| 0 <= k <= |s[1..]| && sub <= s[1..][k..];
        assert s[1..][k..] == s[k + 1..];
      }
      if exists k :: 0 <= k <= |s| && sub <= s[k..] {
        var k :| 0 <= k <= |s| && sub <= s[k..];
        assert k != 0 by { assert s[0..] == s; }
        assert s[k..] == s[1..][k - 1..];
      }
    }
  }

  /** As written, `determine_dtype` makes every run complex, whatever the field and the twist. */
  lemma DtypeAsWrittenAlwaysComplex(hubbardStratonovich: Option<string>, ktwist: seq<real>)
    ensures DetermineDtypeAsWritten(hubbardStratonovich, ktwist)
  {
  }

  /**
   * As intended, a run is complex exactly when the field type names
   * "continuous" somewhere or some twist component is non-zero.
   */
  lemma DtypeIntended(hubbardStratonovich: Option<string>, ktwist: seq<real>)
    ensures DetermineDtype(hubbardStratonovich, ktwist) <==>
      (exists k :: 0 <= k <= |HsType(hubbardStratonovich)| && "continuous" <= HsType(hubbardStratonovich)[k..])
      || (exists i :: 0 <= i < |ktwist| && ktwist[i] != 0.0)
  {
    ContainsAtOffset(HsType(hubbardStratonovich), "continuous");
  }

  /** The default discrete field without a twist: complex as written, real as intended. */
  lemma DtypeCounterexample()
    ensures DetermineDtypeAsWritten(None, [0.0])
    ensures !DetermineDtype(None, [0.0])
  {
    var s := HsType(None);
    ContainsAtOffset(s, "continuous");
    forall k | 0 <= k <= |s| ensures !("continuous" <= s[k..]) {
      assert |s[k..]| < |"continuous"|;
    }
  }
}
