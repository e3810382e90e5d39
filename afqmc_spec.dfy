/**
 * The step schedule of the open-ended random walk `AFQMC.run`
 * (pauxy/qmc/afqmc.py), as functions on a value state.  One step sweeps
 * the walkers (propagate when eligible, then reweight by the constant
 * factor), feeds the population to the estimators and then fires, in this
 * order, orthogonalisation, the E_T update, printing, the equilibration
 * override of the local-energy bound and population control, each on its
 * own `step % k == 0` cadence.
 *
 * The numerical collaborators are the function-typed fields of `Ops`;
 * every call of one of them appends an `Event` to the log, so the log is
 * the observable trace of a run.
 */
module AfqmcSpec {
  import opened Wrappers
  import opened Walkers

  /** The cadences of `QMCOpts` that the loop reads. */
  datatype Config = Config(
    nsteps: nat,
    nstblz: nat,
    nupdateShift: nat,
    nmeasure: nat,
    nequilibrate: int,
    npopControl: nat)
  {
    /** Each cadence is a modulus taken every step. */
    predicate Valid() {
      nstblz > 0 && nupdateShift > 0 && nmeasure > 0 && npopControl > 0
    }
  }

  /** What the driver tells its collaborators, in the order it tells them. */
  datatype Event =
    | Propagated(step: nat, walker: nat)
    | EstimatorsUpdated(step: nat, population: seq<Walker>)
    | Orthogonalised(step: nat)
    | ShiftUpdated(step: nat)
    | Printed(step: nat)
    | BoundUpdated(step: nat)
    | PopulationControlled(step: nat)

  /** The collaborators whose numerics are not modelled. */
  datatype Ops = Ops(
    // real part of `walkers[0].local_energy(system)`
    localEnergy: Walker -> real,
    // `propagators.propagate_walker`
    propagate: Walker -> Walker,
    // `e -> exp(dt * e)`, the constant reweighting factor
    growth: real -> real,
    // `Walkers.orthogonalise`
    orthogonalise: seq<Walker> -> seq<Walker>,
    // real part of the mixed estimator's `projected_energy()`, a function of
    // everything the estimators have been fed so far
    projectedEnergy: seq<Event> -> real,
    // `Walkers.pop_control`
    popControl: seq<Walker> -> seq<Walker>)

  /** The position of an event within its step. */
  function Rank(e: Event): nat {
    match e
    case Propagated(_, _) => 0
    case EstimatorsUpdated(_, _) => 1
    case Orthogonalised(_) => 2
    case ShiftUpdated(_) => 3
    case Printed(_) => 4
    case BoundUpdated(_) => 5
    case PopulationControlled(_) => 6
  }

  /** `a` comes before `b` in the schedule: an earlier step, an earlier phase, or an earlier walker. */
  predicate Precedes(a: Event, b: Event) {
    a.step < b.step
    || (a.step == b.step && Rank(a) < Rank(b))
    || (a.step == b.step && a.Propagated? && b.Propagated? && a.walker < b.walker)
  }

  /** Every event of the log strictly precedes every later one. */
  ghost predicate InOrder(log: seq<Event>) {
    forall i, j :: 0 <= i < j < |log| ==> Precedes(log[i], log[j])
  }

  /** The run state: population, E_T, `propagators.mean_local_energy` and the trace. */
  datatype State = State(walkers: seq<Walker>, eT: real, meanLocalEnergy: real, log: seq<Event>)

  /** Guard of `propagate_walker`: `abs(w.weight) > 1e-8 and w.alive`. */
  predicate Eligible(w: Walker) {
    AbsAbove(w.weight, WeightEps) && w.alive
  }

  /** One walker's turn in the sweep: propagate if eligible, then reweight. */
  function Advance(w: Walker, eT: real, ops: Ops): Walker {
    Reweight(if Eligible(w) then ops.propagate(w) else w, ops.growth(eT))
  }

  /** The population after the `for w in self.psi.walkers` loop. */
  function Sweep(ws: seq<Walker>, eT: real, ops: Ops): (r: seq<Walker>)
    ensures |r| == |ws|
  {
    seq(|ws|, i requires 0 <= i < |ws| => Advance(ws[i], eT, ops))
  }

  /** The propagation calls made for the first `n` walkers, in walker order. */
  function PropagationEvents(ws: seq<Walker>, step: nat, n: nat): seq<Event>
    requires n <= |ws|
  {
    if n == 0 then []
    else PropagationEvents(ws, step, n - 1) + (if Eligible(ws[n - 1]) then [Propagated(step, n - 1)] else [])
  }

  /** Lines 146-158: the walker sweep followed by `estimators.update`. */
  function SweepPhase(s: State, step: nat, ops: Ops): State {
    var swept := Sweep(s.walkers, s.eT, ops);
    s.(walkers := swept,
       log := s.log + PropagationEvents(s.walkers, step, |s.walkers|) + [EstimatorsUpdated(step, swept)])
  }

  /** Lines 159-161. */
  function OrthoPhase(s: State, step: nat, cfg: Config, ops: Ops): State
    requires cfg.Valid()
  {
    if step % cfg.nstblz == 0
    then s.(walkers := ops.orthogonalise(s.walkers), log := s.log + [Orthogonalised(step)])
    else s
  }

  /** Lines 162-163. */
  function ShiftPhase(s: State, step: nat, cfg: Config, ops: Ops): State
    requires cfg.Valid()
  {
    if step % cfg.nupdateShift == 0
    then s.(eT := ops.projectedEnergy(s.log), log := s.log + [ShiftUpdated(step)])
    else s
  }

  /** Lines 164-166. */
  function PrintPhase(s: State, step: nat, cfg: Config): State
    requires cfg.Valid()
  {
    if step % cfg.nmeasure == 0 then s.(log := s.log + [Printed(step)]) else s
  }

  /** Lines 167-169. */
  function BoundPhase(s: State, step: nat, cfg: Config): State {
    if step < cfg.nequilibrate
    then s.(meanLocalEnergy := s.eT, log := s.log + [BoundUpdated(step)])
    else s
  }

  /** Lines 170-171. */
  function PopPhase(s: State, step: nat, cfg: Config, ops: Ops): State
    requires cfg.Valid()
  {
    if step % cfg.npopControl == 0
    then s.(walkers := ops.popControl(s.walkers), log := s.log + [PopulationControlled(step)])
    else s
  }

  /** One pass of the body of `for step in range(1, nsteps + 1)`. */
  function Step(s: State, step: nat, cfg: Config, ops: Ops): State
    requires cfg.Valid()
  {
    var s1 := SweepPhase(s, step, ops);
    var s2 := OrthoPhase(s1, step, cfg, ops);
    var s3 := ShiftPhase(s2, step, cfg, ops);
    var s4 := PrintPhase(s3, step, cfg);
    var s5 := BoundPhase(s4, step, cfg);
    PopPhase(s5, step, cfg, ops)
  }

  /**
   * Lines 135-143: E_T from walker 0, the bound set to it, the initial
   * estimator update and, when verbose, the print of step 0.
   */
  function Initial(walkers: seq<Walker>, verbose: bool, ops: Ops): State
    requires |walkers| > 0
  {
    var eT := ops.localEnergy(walkers[0]);
    State(walkers, eT, eT, [EstimatorsUpdated(0, walkers)] + (if verbose then [Printed(0)] else []))
  }

  /** `n` applications of a step function, the `t`-th with step number `t`. */
  function Iterate(f: (State, nat) -> State, s0: State, n: nat): State {
    if n == 0 then s0 else f(Iterate(f, s0, n - 1), n)
  }

  /** One step of the schedule as a function value. */
  function StepFn(cfg: Config, ops: Ops): (State, nat) -> State
    requires cfg.Valid()
  {
    (s: State, t: nat) => Step(s, t, cfg, ops)
  }

  /** The state after steps `1..n`. */
  function Steps(s0: State, n: nat, cfg: Config, ops: Ops): State
    requires cfg.Valid()
  {
    Iterate(StepFn(cfg, ops), s0, n)
  }

  /** Steps `1..n` are steps `1..n-1` followed by step `n`. */
  lemma StepsUnfold(s0: State, n: nat, cfg: Config, ops: Ops)
    requires cfg.Valid()
    ensures Steps(s0, 0, cfg, ops) == s0
    ensures n > 0 ==> Steps(s0, n, cfg, ops) == Step(Steps(s0, n - 1, cfg, ops), n, cfg, ops)
  {
  }

  /** The whole of `run`: steps `1..nsteps` from the initial state. */
  function Run(walkers: seq<Walker>, verbose: bool, cfg: Config, ops: Ops): State
    requires cfg.Valid() && |walkers| > 0
  {
    Steps(Initial(walkers, verbose, ops), cfg.nsteps, cfg, ops)
  }

  /** Python's `sub in s` on strings: `sub` is a prefix of some suffix of `s`. */
  predicate Contains(s: string, sub: string) {
    if sub <= s then true else if |s| == 0 then false else Contains(s[1..], sub)
  }

  /** `propagator.get('hubbard_stratonovich', 'discrete')`. */
  function HsType(hubbardStratonovich: Option<string>): string {
    if hubbardStratonovich.Some? then hubbardStratonovich.value else "discrete"
  }

  /** A twist is present when some component of `ktwist` is non-zero. */
  predicate TwistPresent(ktwist: seq<real>) {
    exists i :: 0 <= i < |ktwist| && ktwist[i] != 0.0
  }

  /**
   * `determine_dtype` as written (lines 203-206): `system.ktwist.all()` is a
   * numpy boolean, never `None`, so `twist` is always true.
   */
  function DetermineDtypeAsWritten(hubbardStratonovich: Option<string>, ktwist: seq<real>): bool {
    var continuous := Contains(HsType(hubbardStratonovich), "continuous");
    var twist := true;
    continuous || twist
  }

  /** `determine_dtype` as intended: complex for continuous fields or a non-zero twist. */
  function DetermineDtype(hubbardStratonovich: Option<string>, ktwist: seq<real>): bool {
    Contains(HsType(hubbardStratonovich), "continuous") || TwistPresent(ktwist)
  }
}
