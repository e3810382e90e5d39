/**
 * The discrete logic of trial-wavefunction setup (pauxy/trial_wavefunction.py):
 * selection of the trial class by its name tag, numpy's Fortran-order
 * reshape and column-slice assignment, the GHF up/down column rule, the
 * multi-determinant layout, site densities, density mixing, the UHF
 * convergence test and the UHF result assembly.
 *
 * Matrices are column-major: `m[j]` is column `j` and `m[j][i]` its row `i`.
 */
module TrialWavefunction {
  import opened Wrappers
  import opened Walkers
  import opened PyIndex

  type Matrix = seq<Column>

  // ---------------------------------------------------------------------
  // Dispatch on the name tag (lines 16-46)

  datatype TrialKind = FreeElectron | Uhf | MultiDeterminant | HartreeFock

  /** The `name` each trial class reports. */
  function Tag(k: TrialKind): string {
    match k
    case FreeElectron => "free_electron"
    case Uhf => "UHF"
    case MultiDeterminant => "multi_determinant"
    case HartreeFock => "hartree_fock"
  }

  /** `options['name']` raises KeyError when the key is missing; otherwise a class or `None`. */
  datatype Selection = MissingName | Selected(trial: Option<TrialKind>)

  function GetTrialWavefunction(options: map<string, string>): (r: Selection)
    ensures r.MissingName? <==> "name" !in options
    ensures r.Selected? && r.trial.Some? ==> Tag(r.trial.value) == options["name"]
    ensures r.Selected? && r.trial.None? ==> forall k: TrialKind :: Tag(k) != options["name"]
  {
    if "name" !in options then MissingName
    else
      var name := options["name"];
      Selected(
        if name == "free_electron" then Some(FreeElectron)
        else if name == "UHF" then Some(Uhf)
        else if name == "multi_determinant" then Some(MultiDeterminant)
        else if name == "hartree_fock" then Some(HartreeFock)
        else None)
  }

  // ---------------------------------------------------------------------
  // numpy shapes

  function Min(a: nat, b: nat): nat {
    if a <= b then a else b
  }

  /** `a[:n]` on a sequence (or on the columns of a matrix): the first `min(n, |a|)` entries. */
  function Take<T>(a: seq<T>, n: nat): (r: seq<T>)
    ensures |r| == Min(n, |a|) && r == a[..|r|]
  {
    a[..Min(n, |a|)]
  }

  /** `a[n:]`: everything after the first `min(n, |a|)` entries. */
  function Drop<T>(a: seq<T>, n: nat): (r: seq<T>)
    ensures Take(a, n) + r == a
  {
    a[Min(n, |a|)..]
  }

  /**
   * Assigning a block of columns to an `n`-column slice: numpy accepts
   * exactly `n` columns or broadcasts a single one, and raises ValueError
   * otherwise.
   */
  function FillColumns(src: Matrix, n: nat): (r: Option<Matrix>)
    ensures r.Some? <==> |src| == n || |src| == 1
    ensures r.Some? ==> |r.value| == n
    ensures r.Some? && |src| == n ==> r.value == src
    ensures r.Some? ==> forall j :: 0 <= j < n ==> r.value[j] in src
  {
    if |src| == n then Some(src)
    else if |src| == 1 then Some(seq(n, _ => src[0]))
    else None
  }

  /** Every column has `rows` entries. */
  predicate Rectangular(m: Matrix, rows: nat) {
    forall j :: 0 <= j < |m| ==> |m[j]| == rows
  }

  /**
   * `flat.reshape((rows, cols), order='F')`: column `j` is the `j`-th run of
   * `rows` consecutive entries; a size mismatch raises ValueError.
   */
  function ReshapeF(flat: seq<Complex>, rows: nat, cols: nat): (r: Option<Matrix>)
    ensures r.Some? <==> |flat| == rows * cols
    ensures r.Some? ==> |r.value| == cols && Rectangular(r.value, rows)
  {
    if |flat| != rows * cols then None
    else Some(seq(cols, j requires 0 <= j < cols => RunOf(flat, rows, cols, j)))
  }

  /** Entries `j*rows .. (j+1)*rows` of a length `rows*cols` sequence. */
  function RunOf(flat: seq<Complex>, rows: nat, cols: nat, j: nat): (r: Column)
    requires |flat| == rows * cols && j < cols
    ensures |r| == rows
  {
    RunBounds(rows, cols, j);
    flat[j * rows..(j + 1) * rows]
  }

  lemma RunBounds(rows: nat, cols: nat, j: nat)
    requires j < cols
    ensures 0 <= j * rows <= (j + 1) * rows <= rows * cols
  {
    MulMonotone(0, j, rows);
    MulMonotone(j, j + 1, rows);
    MulMonotone(j + 1, cols, rows);
  }

  lemma {:induction false} MulMonotone(a: nat, b: nat, k: nat)
    requires a <= b
    ensures a * k <= b * k
  {
    if a < b {
      MulMonotone(a, b - 1, k);
      assert b * k == (b - 1) * k + k;
    }
  }

  /** Column-major flattening, the inverse of `ReshapeF`. */
  function Flatten(m: Matrix): seq<Complex> {
    if m == [] then [] else Flatten(m[..|m| - 1]) + m[|m| - 1]
  }

  // ---------------------------------------------------------------------
  // GHF columns (lines 82-93)

  /** The magnitude threshold 1e-10 of the GHF split. */
  const OrbitalEps: real := 0.0000000001

  /** `all(abs(c[:nbasis]) > 1e-10)`: every one of the first `nbasis` entries is large. */
  predicate IsUpColumn(c: Column, nbasis: nat) {
    forall k :: 0 <= k < |Take(c, nbasis)| ==> AbsAbove(Take(c, nbasis)[k], OrbitalEps)
  }

  /** Strictly increasing indices. */
  predicate Increasing(s: seq<nat>) {
    forall i, j :: 0 <= i < j < |s| ==> s[i] < s[j]
  }

  /**
   * Lines 87-91: `ups` lists, in order, the columns of `tmp` that are up
   * columns and `downs` the others.
   */
  predicate GhfSplit(tmp: Matrix, nbasis: nat, ups: seq<nat>, downs: seq<nat>) {
    Increasing(ups) && Increasing(downs)
    && (forall k :: 0 <= k < |ups| ==> ups[k] < |tmp| && IsUpColumn(tmp[ups[k]], nbasis))
    && (forall k :: 0 <= k < |downs| ==> downs[k] < |tmp| && !IsUpColumn(tmp[downs[k]], nbasis))
    && (forall i :: 0 <= i < |tmp| ==> i in ups || i in downs)
  }

  /** Lines 92-93: up columns take the first `nbasis` rows, down columns the rest. */
  function AssembleGhf(tmp: Matrix, ups: seq<nat>, downs: seq<nat>, nbasis: nat, nup: nat, ndown: nat): (r: Option<Matrix>)
    requires forall k :: 0 <= k < |ups| ==> ups[k] < |tmp|
    requires forall k :: 0 <= k < |downs| ==> downs[k] < |tmp|
    ensures r.Some? <==> FillColumns(UpperRows(tmp, ups, nbasis), nup).Some? && FillColumns(LowerRows(tmp, downs, nbasis), ndown).Some?
    ensures r.Some? ==> |r.value| == nup + ndown
  {
    var up := FillColumns(UpperRows(tmp, ups, nbasis), nup);
    var down := FillColumns(LowerRows(tmp, downs, nbasis), ndown);
    if up.None? || down.None? then None else Some(up.value + down.value)
  }

  /** `tmp[:nbasis, ups]` */
  function UpperRows(tmp: Matrix, ups: seq<nat>, nbasis: nat): (r: Matrix)
    requires forall k :: 0 <= k < |ups| ==> ups[k] < |tmp|
    ensures |r| == |ups|
  {
    seq(|ups|, k requires 0 <= k < |ups| => Take(tmp[ups[k]], nbasis))
  }

  /** `tmp[nbasis:, downs]` */
  function LowerRows(tmp: Matrix, downs: seq<nat>, nbasis: nat): (r: Matrix)
    requires forall k :: 0 <= k < |downs| ==> downs[k] < |tmp|
    ensures |r| == |downs|
  {
    seq(|downs|, k requires 0 <= k < |downs| => Drop(tmp[downs[k]], nbasis))
  }

  // ---------------------------------------------------------------------
  // Multi-determinant layout (lines 325-365)

  /** Basis size: `system.nbasis` for a UHF expansion, twice it otherwise. */
  function BasisSize(expansionType: Option<string>, nbasis: nat): nat {
    if expansionType == Some("UHF") then nbasis else 2 * nbasis
  }

  /** The trial is complex for a complex run or a GHF expansion. */
  predicate IsComplex(cplx: bool, expansionType: Option<string>) {
    cplx || expansionType == Some("GHF")
  }

  /** `numpy.zeros((rows, cols))` */
  function ZeroMatrix(rows: nat, cols: nat): (r: Matrix)
    ensures |r| == cols && Rectangular(r, rows)
  {
    seq(cols, _ => seq(rows, _ => Complex(0.0, 0.0)))
  }

  /** Where determinant `i`'s slice of the flat orbital array starts. */
  function DetStart(i: nat, skip: nat): nat {
    i * skip
  }

  /** `a[i:j]` with Python's clamping of the bounds. */
  function PySlice<T>(a: seq<T>, i: int, j: int): (r: seq<T>)
    ensures 0 <= i <= j <= |a| ==> r == a[i..j]
  {
    var (lo, hi) := SliceRange(i, j, |a|);
    a[lo..hi]
  }

  /** `orbitals[start:end]` for determinant `i`. */
  function DetSlice(orbitals: seq<Complex>, i: nat, skip: nat): seq<Complex> {
    PySlice(orbitals, DetStart(i, skip), DetStart(i, skip) + skip)
  }

  // ---------------------------------------------------------------------
  // Densities and the UHF self-consistency loop (lines 255-294)

  function Sum(s: seq<real>): real {
    if s == [] then 0.0 else Sum(s[..|s| - 1]) + s[|s| - 1]
  }

  function Abs(x: real): real {
    if x < 0.0 then -x else x
  }

  /** `sum(abs(m[:, r])**2)`: row `r`'s squared norm, absent entries counting as zero. */
  function RowWeight(wfn: Matrix, r: nat): real {
    if wfn == [] then 0.0
    else
      var c := wfn[|wfn| - 1];
      RowWeight(wfn[..|wfn| - 1], r) + (if r < |c| then NormSq(c[r]) else 0.0)
  }

  /** `numpy.diag(wfn.dot(wfn.conj().T))` for an `nrows`-row matrix: the site occupations. */
  function Density(wfn: Matrix, nrows: nat): (r: seq<real>)
    ensures |r| == nrows
  {
    seq(nrows, i requires 0 <= i < nrows => RowWeight(wfn, i))
  }

  /** `(1-alpha)*new + alpha*old`, elementwise, for the new density `next` and the old `prev`. */
  function MixDensity(next: seq<real>, prev: seq<real>, alpha: real): (r: seq<real>)
    requires |next| == |prev|
    ensures |r| == |next|
  {
    seq(|next|, i requires 0 <= i < |next| => (1.0 - alpha) * next[i] + alpha * prev[i])
  }

  /** `sum(abs(a - b)) / len(a)`. */
  function MeanAbsDiff(a: seq<real>, b: seq<real>): real
    requires |a| == |b| > 0
  {
    Sum(seq(|a|, i requires 0 <= i < |a| => Abs(a[i] - b[i]))) / (|a| as real)
  }

  /**
   * `self_consistant`, with `d` standing for `deps**0.5`: the energy moved
   * by less than `deps` and each mean density change is below `sqrt(deps)`.
   */
  predicate SelfConsistent(enew: real, eold: real, niup: seq<real>, niupOld: seq<real>,
                           nidown: seq<real>, nidownOld: seq<real>, deps: real, d: real)
    requires d >= 0.0 && d * d == deps
    requires |niup| == |niupOld| > 0 && |nidown| == |nidownOld| > 0
  {
    Abs(enew - eold) < deps && MeanAbsDiff(niup, niupOld) < d && MeanAbsDiff(nidown, nidownOld) < d
  }

  /**
   * Lines 265-266 and 303-304: the first `nup` up eigenvectors, then the
   * first `ndown` down eigenvectors.
   */
  function OccupiedColumns(evUp: Matrix, evDown: Matrix, nup: nat, ndown: nat): (r: Option<Matrix>)
    ensures r.Some? <==> FillColumns(Take(evUp, nup), nup).Some? && FillColumns(Take(evDown, ndown), ndown).Some?
    ensures r.Some? ==> |r.value| == nup + ndown
  {
    var up := FillColumns(Take(evUp, nup), nup);
    var down := FillColumns(Take(evDown, ndown), ndown);
    if up.None? || down.None? then None else Some(up.value + down.value)
  }

  /** Lines 263-267: the occupied columns and the sum of their eigenvalues. */
  function InitialiseTrial(eUp: seq<real>, evUp: Matrix, eDown: seq<real>, evDown: Matrix, nup: nat, ndown: nat)
    : (r: Option<(Matrix, real)>)
    ensures r.Some? <==> OccupiedColumns(evUp, evDown, nup, ndown).Some?
    ensures r.Some? ==> r.value.0 == OccupiedColumns(evUp, evDown, nup, ndown).value
  {
    var cols := OccupiedColumns(evUp, evDown, nup, ndown);
    if cols.None? then None
    else Some((cols.value, Sum(Take(eUp, nup)) + Sum(Take(eDown, ndown))))
  }

  // ---------------------------------------------------------------------
  // The UHF minima and result (lines 224-253)

  /** `all(numpy.array(minima) - e > deps)`: `e` is below every recorded minimum by more than `deps`. */
  predicate AllAbove(minima: seq<real>, e: real, deps: real) {
    forall k :: 0 <= k < |minima| ==> minima[k] - e > deps
  }

  /** Accepted energies, in order, each lower than every earlier one by more than `deps`. */
  predicate Separated(minima: seq<real>, deps: real) {
    forall i, j :: 0 <= i < j < |minima| ==> minima[i] - minima[j] > deps
  }

  /** `min(minima)` */
  function MinOf(s: seq<real>): (m: real)
    requires |s| > 0
    ensures m in s && forall x :: x in s ==> m <= x
  {
    if |s| == 1 then s[0]
    else
      var m' := MinOf(s[..|s| - 1]);
      assert forall x :: x in s ==> x in s[..|s| - 1] || x == s[|s| - 1];
      if s[|s| - 1] < m' then s[|s| - 1] else m'
  }

  /** Why `find_uhf_wfn` raises. */
  datatype UhfCrash =
    | ShapeMismatch      // lines 265-266 and 303-304 assign too few or too many columns
    | UnboundIteration   // line 244 reads `it` after a `range(0)` loop
    | DivisionByZero     // lines 286-287 divide by `len(niup) == 0`
    | EmptyMinima        // line 247 takes `min([])`

  /** A found trial with its eigenvalues, energy and final densities; a failure; or an exception. */
  datatype UhfResult =
    | Found(psi: Matrix, eigs: seq<real>, emin: real, nav: (seq<real>, seq<real>))
    | NotFound(lastTrial: Option<Matrix>)
    | Crashed(reason: UhfCrash)

  /** An accepted trial and the eigenvalues that came with it. */
  datatype Accepted = Accepted(psi: Matrix, eigs: seq<real>)

  /**
   * Lines 246-253 as written: `min(minima)` is evaluated at line 247,
   * outside the `try`, so an empty `minima` raises there.
   */
  function FinishAsWritten(minima: seq<real>, accepted: Option<Accepted>, lastTrial: Option<Matrix>,
                           nav: (seq<real>, seq<real>)): UhfResult
  {
    if |minima| == 0 then Crashed(EmptyMinima)
    else if accepted.None? then NotFound(lastTrial)
    else Found(accepted.value.psi, accepted.value.eigs, MinOf(minima), nav)
  }

  /** Lines 246-253 as intended: no accepted trial sets the error flag. */
  function Finish(minima: seq<real>, accepted: Option<Accepted>, lastTrial: Option<Matrix>,
                  nav: (seq<real>, seq<real>)): (r: UhfResult)
    requires accepted.Some? <==> |minima| > 0
    ensures r.NotFound? <==> |minima| == 0
    ensures r.Found? ==> r.emin in minima && forall m :: m in minima ==> r.emin <= m
  {
    if accepted.None? then NotFound(lastTrial)
    else Found(accepted.value.psi, accepted.value.eigs, MinOf(minima), nav)
  }
}
