/**
 * The step schedule of the legacy driver `do_qmc` (afqmcpy/qmc.py) as
 * functions on a value state.  Besides the per-walker propagate/reweight
 * rule it feeds each walker to the estimator as soon as it is reweighted,
 * reorthogonalises walkers with the `detR` weight fold-in, keeps a history
 * `psi_hist` of population snapshots for back propagation and for the
 * imaginary-time correlation function (ITCF), and recomputes E_T on the
 * measurement cadence.
 *
 * `psi_hist[:, k]` (column `k` of an nwalkers-by-slots array of walkers) is
 * slot `k` of a sequence of snapshots; a snapshot is a value, so a slot
 * holds a deep copy by construction.  The Python errors that a step can
 * raise (an index out of range, an unbound `psi_left`, a missing history)
 * are `Failed` outcomes.
 */
module LegacySpec {
  import opened Wrappers
  import opened Walkers
  import opened PyIndex

  /** A copy of the whole population, one column of `psi_hist`. */
  type Snapshot = seq<Walker>

  /** The options of `state` that the loop reads. */
  datatype Config = Config(
    nsteps: nat,
    nstblz: nat,
    nmeasure: nat,
    nequilibrate: int,
    npopControl: nat,
    nwalkers: nat,
    // `state.nback_prop`
    nbackProp: nat,
    // `state.estimators.nprop_tot`
    npropTot: nat,
    // `state.back_propagation`
    backProp: bool,
    // `state.itcf`, which is also `state.estimators.calc_itcf`
    itcf: bool,
    // `state.itcf_stable`
    itcfStable: bool,
    // `state.importance_sampling`
    importanceSampling: bool)
  {
    /** The moduli the loop takes; `nback_prop` only when back propagating. */
    predicate Valid() {
      nstblz > 0 && nmeasure > 0 && npopControl > 0 && npropTot > 0 && (backProp ==> nbackProp > 0)
    }

    /** The number of `psi_hist` slots: the anchor (slot 0) and `nprop_tot` written slots. */
    function Slots(): nat {
      npropTot + 1
    }
  }

  /** What the loop tells its collaborators, in the order it tells them. */
  datatype Event =
    | EstimatorFed(step: nat, walker: nat, w: Walker)
    | Propagated(step: nat, walker: nat)
    | Reorthogonalised(step: nat, walker: nat)
    | HistoryWritten(step: nat, slot: nat)
    | BackPropagated(step: nat, window: seq<Snapshot>)
    | ObservablesUpdated(step: nat, right: Snapshot, left: Snapshot, psiLeft: Snapshot)
    | ItcfComputed(step: nat, stable: bool, hist: seq<Snapshot>, psiLeft: Snapshot)
    | AnchorReset(step: nat, afterItcf: bool)
    | EnergyUpdated(step: nat)
    | Printed(step: nat)
    | BoundUpdated(step: nat)
    | PopulationControlled(step: nat)

  /** The collaborators whose numerics are not modelled. */
  datatype Ops = Ops(
    // real part of `estimators.local_energy(system, psi[0].G)`
    localEnergy: Walker -> real,
    // `propagators.propagate_walker`
    propagate: Walker -> Walker,
    // `e -> exp(dt * e)`
    growth: real -> real,
    // `w.reortho(nup)`: the new columns and `detR`
    reortho: seq<Column> -> (seq<Column>, Complex),
    // `propagation.back_propagate` on a window of history slots
    backPropagate: seq<Snapshot> -> Snapshot,
    // real part of `estimators.eproj`, a function of what the estimators were told
    eproj: seq<Event> -> real,
    // `pop_control.comb(psi, nwalkers, psi_hist)`: the combed population and the returned history
    comb: (Snapshot, nat, Option<seq<Snapshot>>) -> (Snapshot, Option<seq<Snapshot>>))

  /** The Python exceptions a step can raise, with the step that raised it. */
  datatype Failure =
    | IndexOutOfRange(step: nat)
    | PsiLeftUnbound(step: nat)
    | NoHistory(step: nat)

  /** The loop state: population, history, `psi_left`, E_T, `mean_local_energy` and the trace. */
  datatype State = State(
    psi: Snapshot,
    hist: Option<seq<Snapshot>>,
    psiLeft: Option<Snapshot>,
    eT: real,
    meanLocalEnergy: real,
    log: seq<Event>)

  datatype Outcome = Ok(state: State) | Failed(failure: Failure)

  /** A walker after its turn in the sweep, and what its turn told the collaborators. */
  datatype Turn = Turn(walker: Walker, events: seq<Event>)

  /** The `detR` fold-in of lines 50-52: the weight is kept under importance sampling. */
  function Reortho(w: Walker, importanceSampling: bool, ops: Ops): Walker {
    var (phi, detR) := ops.reortho(w.phi);
    w.(phi := phi, weight := if importanceSampling then w.weight else Mul(detR, w.weight))
  }

  /** The order of a walker's calls within its turn: propagate, feed the estimator, reorthogonalise. */
  function TurnRank(e: Event): nat {
    if e.Propagated? then 0 else if e.EstimatorFed? then 1 else 2
  }

  /** Lines 43-52: one walker's turn. */
  function WalkerTurn(w: Walker, i: nat, step: nat, eT: real, cfg: Config, ops: Ops): Turn
    requires cfg.Valid()
  {
    var propagated := AbsAbove(w.weight, WeightEps);
    var moved := if propagated then ops.propagate(w) else w;
    var reweighted := Reweight(moved, ops.growth(eT));
    var fed := (if propagated then [Propagated(step, i)] else []) + [EstimatorFed(step, i, reweighted)];
    if step % cfg.nstblz == 0
    then Turn(Reortho(reweighted, cfg.importanceSampling, ops), fed + [Reorthogonalised(step, i)])
    else Turn(reweighted, fed)
  }

  /** The population after the `for w in psi` loop. */
  function SweptWalkers(ws: Snapshot, step: nat, eT: real, cfg: Config, ops: Ops): (r: Snapshot)
    requires cfg.Valid()
    ensures |r| == |ws|
  {
    seq(|ws|, i requires 0 <= i < |ws| => WalkerTurn(ws[i], i, step, eT, cfg, ops).walker)
  }

  /** What the turns of the first `n` walkers told the collaborators, in walker order. */
  function SweepEvents(ws: Snapshot, step: nat, eT: real, cfg: Config, ops: Ops, n: nat): seq<Event>
    requires cfg.Valid() && n <= |ws|
  {
    if n == 0 then []
    else SweepEvents(ws, step, eT, cfg, ops, n - 1) + WalkerTurn(ws[n - 1], n - 1, step, eT, cfg, ops).events
  }

  /** Lines 39-52: the sweep changes the population and tells the estimator, and touches nothing else. */
  function SweepPhase(s: State, step: nat, cfg: Config, ops: Ops): (r: State)
    requires cfg.Valid()
    ensures |r.psi| == |s.psi| && s.log <= r.log
    ensures r.hist == s.hist && r.psiLeft == s.psiLeft && r.eT == s.eT && r.meanLocalEnergy == s.meanLocalEnergy
  {
    s.(psi := SweptWalkers(s.psi, step, s.eT, cfg, ops),
       log := s.log + SweepEvents(s.psi, step, s.eT, cfg, ops, |s.psi|))
  }

  /** Line 53: `bp_step`. */
  function BpStep(step: nat, cfg: Config): nat
    requires cfg.Valid()
  {
    (step - 1) % cfg.npropTot
  }

  /** The slot line 55 writes: never the anchor slot 0, never past slot `nprop_tot`. */
  function WriteSlot(step: nat, cfg: Config): (slot: nat)
    requires cfg.Valid()
    ensures 1 <= slot <= cfg.npropTot
  {
    BpStep(step, cfg) + 1
  }

  /** Line 58: `s`, the slot just before the window; it may be negative. */
  function WindowStart(step: nat, cfg: Config): int
    requires cfg.Valid()
  {
    BpStep(step, cfg) - cfg.nbackProp + 1
  }

  /** Line 59: `e`, the last slot of the window. */
  function WindowEnd(step: nat, cfg: Config): nat
    requires cfg.Valid()
  {
    BpStep(step, cfg) + 1
  }

  /** Line 68: `psi_hist[:, s+1:e+1]` with Python's slice clamping. */
  function Window(h: seq<Snapshot>, step: nat, cfg: Config): seq<Snapshot>
    requires cfg.Valid()
  {
    var r := SliceRange(WindowStart(step, cfg) + 1, WindowEnd(step, cfg) + 1, |h|);
    h[r.0..r.1]
  }

  /**
   * Lines 56-79: back propagation over the window, the observable update
   * from slots `e` and `s`, and, with ITCF off, the reset of slot 0.
   */
  function BackPropPhase(s: State, step: nat, cfg: Config, ops: Ops): Outcome
    requires cfg.Valid() && s.hist.Some?
  {
    var h := s.hist.value;
    var window := Window(h, step, cfg);
    var left := ops.backPropagate(window);
    var iE := Index(WindowEnd(step, cfg), |h|);
    var iS := Index(WindowStart(step, cfg), |h|);
    if iE.None? || iS.None? then Failed(IndexOutOfRange(step))
    else
      var updated := s.log + [BackPropagated(step, window), ObservablesUpdated(step, h[iE.value], h[iS.value], left)];
      if cfg.itcf then Ok(s.(psiLeft := Some(left), log := updated))
      else Ok(s.(psiLeft := Some(left), hist := Some(h[0 := s.psi]), log := updated + [AnchorReset(step, false)]))
  }

  /** Lines 53-79: the history write and, on its cadence, back propagation. */
  function HistoryPhase(s: State, step: nat, cfg: Config, ops: Ops): Outcome
    requires cfg.Valid()
  {
    if !cfg.backProp then Ok(s)
    else if s.hist.None? then Failed(NoHistory(step))
    else
      var h := s.hist.value;
      var slot := WriteSlot(step, cfg);
      if slot >= |h| then Failed(IndexOutOfRange(step))
      else
        var written := s.(hist := Some(h[slot := s.psi]), log := s.log + [HistoryWritten(step, slot)]);
        if step % cfg.nbackProp == 0 then BackPropPhase(written, step, cfg, ops) else Ok(written)
  }

  /** Lines 80-86: the ITCF at multiples of `nprop_tot`, then the reset of slot 0. */
  function ItcfPhase(s: State, step: nat, cfg: Config): Outcome
    requires cfg.Valid()
  {
    if !(cfg.itcf && step % cfg.npropTot == 0) then Ok(s)
    else if s.psiLeft.None? then Failed(PsiLeftUnbound(step))
    else if s.hist.None? then Failed(NoHistory(step))
    else if |s.hist.value| == 0 then Failed(IndexOutOfRange(step))
    else
      var h := s.hist.value;
      Ok(s.(hist := Some(h[0 := s.psi]),
            log := s.log + [ItcfComputed(step, cfg.itcfStable, h, s.psiLeft.value), AnchorReset(step, true)]))
  }

  /** Lines 87-91. */
  function EnergyPhase(s: State, step: nat, cfg: Config, ops: Ops): State
    requires cfg.Valid()
  {
    if step % cfg.nmeasure == 0
    then s.(eT := ops.eproj(s.log), log := s.log + [EnergyUpdated(step), Printed(step)])
    else s
  }

  /** Lines 92-94. */
  function BoundPhase(s: State, step: nat, cfg: Config): State {
    if step < cfg.nequilibrate
    then s.(meanLocalEnergy := s.eT, log := s.log + [BoundUpdated(step)])
    else s
  }

  /** Lines 95-96. */
  function PopPhase(s: State, step: nat, cfg: Config, ops: Ops): State
    requires cfg.Valid()
  {
    if step % cfg.npopControl == 0
    then
      var combed := ops.comb(s.psi, cfg.nwalkers, s.hist);
      s.(psi := combed.0, hist := combed.1, log := s.log + [PopulationControlled(step)])
    else s
  }

  /** One pass of the body of `for step in range(1, nsteps)`. */
  function Step(s: State, step: nat, cfg: Config, ops: Ops): Outcome
    requires cfg.Valid()
  {
    var s1 := SweepPhase(s, step, cfg, ops);
    var o2 := HistoryPhase(s1, step, cfg, ops);
    if o2.Failed? then o2
    else
      var o3 := ItcfPhase(o2.state, step, cfg);
      if o3.Failed? then o3
      else Ok(PopPhase(BoundPhase(EnergyPhase(o3.state, step, cfg, ops), step, cfg), step, cfg, ops))
  }

  /** The history before the loop: the population in slot 0, the other slots empty. */
  function InitialHistory(psi: Snapshot, cfg: Config): (r: Option<seq<Snapshot>>)
    ensures r.Some? <==> cfg.backProp
    ensures r.Some? ==> |r.value| == cfg.Slots() && r.value[0] == psi
  {
    if cfg.backProp then Some(seq(cfg.Slots(), k requires 0 <= k < cfg.Slots() => if k == 0 then psi else []))
    else None
  }

  /** The estimator updates of lines 32-33. */
  function InitialFeed(psi: Snapshot, n: nat): seq<Event>
    requires n <= |psi|
  {
    if n == 0 then [] else InitialFeed(psi, n - 1) + [EstimatorFed(0, n - 1, psi[n - 1])]
  }

  /** Lines 22-36; an empty population has no `psi[0]` and raises. */
  function Initial(psi: Snapshot, cfg: Config, ops: Ops): Outcome {
    if |psi| == 0 then Failed(IndexOutOfRange(0))
    else
      var eT := ops.localEnergy(psi[0]);
      Ok(State(psi, InitialHistory(psi, cfg), None, eT, eT, InitialFeed(psi, |psi|) + [Printed(0)]))
  }

  /** Steps `1..n` of `f` from `s0`; the first failure ends the run. */
  function Iterate(f: (State, nat) -> Outcome, s0: State, n: nat): Outcome {
    if n == 0 then Ok(s0)
    else
      var o := Iterate(f, s0, n - 1);
      if o.Failed? then o else f(o.state, n)
  }

  function StepFn(cfg: Config, ops: Ops): (State, nat) -> Outcome
    requires cfg.Valid()
  {
    (s: State, t: nat) => Step(s, t, cfg, ops)
  }

  /** The outcome of steps `1..n` of the loop. */
  function Steps(s0: State, n: nat, cfg: Config, ops: Ops): Outcome
    requires cfg.Valid()
  {
    Iterate(StepFn(cfg, ops), s0, n)
  }

  lemma StepsUnfold(s0: State, n: nat, cfg: Config, ops: Ops)
    requires cfg.Valid()
    ensures Steps(s0, 0, cfg, ops) == Ok(s0)
    ensures n > 0 ==>
      Steps(s0, n, cfg, ops) ==
        (if Steps(s0, n - 1, cfg, ops).Failed? then Steps(s0, n - 1, cfg, ops)
         else Step(Steps(s0, n - 1, cfg, ops).state, n, cfg, ops))
  {
  }

  /** How many steps `range(1, nsteps)` visits. */
  function StepCount(cfg: Config): nat {
    if cfg.nsteps == 0 then 0 else cfg.nsteps - 1
  }

  /** The whole of `do_qmc`. */
  function Run(psi: Snapshot, cfg: Config, ops: Ops): Outcome
    requires cfg.Valid()
  {
    var o := Initial(psi, cfg, ops);
    if o.Failed? then o else Steps(o.state, StepCount(cfg), cfg, ops)
  }
}
