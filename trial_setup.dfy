/**
 * The loops of trial-wavefunction setup (pauxy/trial_wavefunction.py):
 * sorting GHF columns into up and down columns, cutting the flat orbital
 * array into determinants, and the UHF search over random starting points.
 * Each is proved against the definitions of `TrialWavefunction`.
 */
module TrialSetup {
  import opened Wrappers
  import opened Walkers
  import opened PyIndex
  import opened TrialWavefunction
  import opened TrialProperties

  // ---------------------------------------------------------------------
  // GHF input (lines 82-93)

  /** Lines 85-91: every column goes to `ups` or to `downs`, in column order. */
  method SplitGhfColumns(tmp: Matrix, nbasis: nat) returns (ups: seq<nat>, downs: seq<nat>)
    ensures GhfSplit(tmp, nbasis, ups, downs)
    ensures |ups| + |downs| == |tmp|
    ensures forall i :: 0 <= i < |tmp| ==> (i in ups <==> IsUpColumn(tmp[i], nbasis))
    ensures forall i :: 0 <= i < |tmp| ==> (i in downs <==> !IsUpColumn(tmp[i], nbasis))
  {
    ups, downs := [], [];
    var i := 0;
    while i < |tmp|
      invariant 0 <= i <= |tmp|
      invariant |ups| + |downs| == i
      invariant Increasing(ups) && Increasing(downs)
      invariant forall k :: 0 <= k < |ups| ==> ups[k] < i && IsUpColumn(tmp[ups[k]], nbasis)
      invariant forall k :: 0 <= k < |downs| ==> downs[k] < i && !IsUpColumn(tmp[downs[k]], nbasis)
      invariant forall c :: 0 <= c < i ==> c in ups || c in downs
    {
      if IsUpColumn(tmp[i], nbasis) {
        ups := ups + [i];
      } else {
        downs := downs + [i];
      }
      i := i + 1;
    }
  }

  /**
   * Lines 82-93: reshape the orbitals to `2*nbasis` rows in Fortran order,
   * split the columns and assign the halves; `None` where numpy raises.
   */
  method ReadGhf(orbitals: seq<Complex>, nbasis: nat, ne: nat, nup: nat, ndown: nat)
    returns (psi: Option<Matrix>, ups: seq<nat>, downs: seq<nat>)
    ensures |orbitals| != 2 * nbasis * ne ==> psi.None?
    ensures |orbitals| == 2 * nbasis * ne ==>
      var tmp := ReshapeF(orbitals, 2 * nbasis, ne).value;
      GhfSplit(tmp, nbasis, ups, downs) && |ups| + |downs| == ne
      && psi == AssembleGhf(tmp, ups, downs, nbasis, nup, ndown)
  {
    var tmp := ReshapeF(orbitals, 2 * nbasis, ne);
    if tmp.None? {
      return None, [], [];
    }
    ups, downs := SplitGhfColumns(tmp.value, nbasis);
    psi := AssembleGhf(tmp.value, ups, downs, nbasis, nup, ndown);
  }

  // ---------------------------------------------------------------------
  // Multi-determinant orbitals (lines 356-365)

  /**
   * Lines 358-365: determinant `i` is the `i`-th run of `nbasis*ne`
   * orbital coefficients, reshaped in Fortran order.  A run cut short by
   * the end of the array makes the reshape raise, and `ok` is false.
   */
  method FillDeterminants(orbitals: seq<Complex>, ndets: nat, nbasis: nat, ne: nat)
    returns (psi: array<Matrix>, ok: bool)
    ensures fresh(psi) && psi.Length == ndets
    ensures ok <==> ndets * (nbasis * ne) <= |orbitals|
    ensures ok ==> forall i :: 0 <= i < ndets ==>
      ReshapeF(DetSlice(orbitals, i, nbasis * ne), nbasis, ne) == Some(psi[i])
  {
    psi := new Matrix[ndets](_ => ZeroMatrix(nbasis, ne));
    var skip := nbasis * ne;
    var start := 0;
    var end := skip;
    var i := 0;
    while i < ndets
      invariant 0 <= i <= ndets
      invariant start == DetStart(i, skip) && end == start + skip
      invariant i * skip <= |orbitals|
      invariant forall k :: 0 <= k < i ==> ReshapeF(DetSlice(orbitals, k, skip), nbasis, ne) == Some(psi[k])
    {
      var r := ReshapeF(PySlice(orbitals, start, end), nbasis, ne);
      SliceLength(start, skip, |orbitals|);
      DetSlicesAdjacent(i, skip);
      if r.None? {
        MulMonotone(i + 1, ndets, skip);
        return psi, false;
      }
      psi[i] := r.value;
      start := end;
      end := end + skip;
      i := i + 1;
    }
    ok := true;
  }

  // ---------------------------------------------------------------------
  // UHF search (lines 195-253)

  /** What the search does not compute itself. */
  datatype UhfOps = UhfOps(
    /** `random_starting_point(nbasis)` for an attempt and a spin (true: up) */
    randomStart: (nat, bool) -> (seq<real>, Matrix),
    /** eigenvalues and eigenvectors of the two mean-field Hamiltonians built from the densities */
    meanField: (seq<real>, seq<real>) -> (seq<real>, Matrix, seq<real>, Matrix),
    /** the real part of the local energy of a trial (`gab` and `local_energy`) */
    energy: Matrix -> real)

  /** `psi` and `eigs` are the occupied columns and the eigenvalues of one mean-field diagonalisation. */
  predicate Diagonalised(ops: UhfOps, niup: seq<real>, nidown: seq<real>, nup: nat, ndown: nat,
                         psi: Matrix, eigs: seq<real>)
  {
    var (eUp, evUp, eDown, evDown) := ops.meanField(niup, nidown);
    eigs == eUp + eDown && OccupiedColumns(evUp, evDown, nup, ndown) == Some(psi)
  }

  /** Lines 230-234: some pair of densities was diagonalised into both `psi` and `eigs`. */
  ghost predicate FromOneDiagonalisation(ops: UhfOps, nup: nat, ndown: nat, psi: Matrix, eigs: seq<real>) {
    exists niup, nidown :: Diagonalised(ops, niup, nidown, nup, ndown, psi, eigs)
  }

  /** The accepted trial belongs to the last recorded minimum and to one diagonalisation. */
  ghost predicate AcceptedFits(ops: UhfOps, nup: nat, ndown: nat, minima: seq<real>, accepted: Option<Accepted>) {
    && (accepted.Some? <==> |minima| > 0)
    && (accepted.Some? ==> ops.energy(accepted.value.psi) == minima[|minima| - 1]
                           && FromOneDiagonalisation(ops, nup, ndown, accepted.value.psi, accepted.value.eigs))
  }

  /**
   * `find_uhf_wfn`: from each of `ninit` random starting points iterate the
   * mean-field equations, mixing densities, for at most `nitMax` steps;
   * a converged energy is recorded when it is lower than every earlier
   * minimum by more than `deps`.  The returned `minima` is the list the
   * source keeps; `d` stands for `deps**0.5`.
   */
  method FindUhfWfn(nbasis: nat, nup: nat, ndown: nat, ninit: nat, nitMax: nat,
                    alpha: real, deps: real, d: real, ops: UhfOps)
    returns (result: UhfResult, minima: seq<real>)
    requires d >= 0.0 && d * d == deps
    ensures |minima| <= ninit
    ensures Separated(minima, deps)
    ensures result.Found? <==> !result.Crashed? && |minima| > 0
    ensures result.NotFound? ==> minima == []
    ensures result.Found? ==> |minima| > 0 && result.emin == minima[|minima| - 1]
    ensures result.Found? ==> forall m :: m in minima ==> result.emin <= m
    ensures result.Found? ==> ops.energy(result.psi) == result.emin
    ensures result.Found? ==> FromOneDiagonalisation(ops, nup, ndown, result.psi, result.eigs)
    ensures ninit > 0 && nitMax == 0 ==> result.Crashed?
    ensures ninit == 0 ==> result == NotFound(None)
    ensures result.Crashed? ==> result.reason != EmptyMinima
  {
    ProductNonNegative(d, d);
    minima := [];
    var accepted: Option<Accepted> := None;
    var lastTrial: Option<Matrix> := None;
    var niup: seq<real> := [];
    var nidown: seq<real> := [];
    var attempt: nat := 0;
    while attempt < ninit
      invariant attempt <= ninit
      invariant |minima| <= attempt
      invariant Separated(minima, deps)
      invariant AcceptedFits(ops, nup, ndown, minima, accepted)
      invariant attempt == 0 ==> lastTrial.None?
      invariant attempt > 0 ==> nitMax > 0
    {
      var (eUp, evUp) := ops.randomStart(attempt, true);
      var (eDown, evDown) := ops.randomStart(attempt, false);
      var init := InitialiseTrial(eUp, evUp, eDown, evDown, nup, ndown);
      if init.None? {
        return Crashed(ShapeMismatch), minima;
      }
      var trial := init.value.0;
      var eold := init.value.1;
      lastTrial := Some(trial);
      niup := Density(Take(trial, nup), nbasis);
      nidown := Density(Drop(trial, nup), nbasis);
      var niupOld := niup;
      var nidownOld := nidown;
      if nitMax == 0 {
        return Crashed(UnboundIteration), minima;
      }
      var it := 0;
      while it < nitMax
        invariant it <= nitMax
        invariant |niup| == |niupOld| == nbasis && |nidown| == |nidownOld| == nbasis
        invariant |minima| <= attempt
        invariant Separated(minima, deps)
        invariant AcceptedFits(ops, nup, ndown, minima, accepted)
      {
        var niupIn, nidownIn := niup, nidown;
        var (eUpNew, evUpNew, eDownNew, evDownNew) := ops.meanField(niup, nidown);
        var cols := OccupiedColumns(evUpNew, evDownNew, nup, ndown);
        if cols.None? {
          return Crashed(ShapeMismatch), minima;
        }
        trial := cols.value;
        lastTrial := Some(trial);
        niup := Density(Take(trial, nup), nbasis);
        nidown := Density(Drop(trial, nup), nbasis);
        var enew := ops.energy(trial);
        if nbasis == 0 {
          return Crashed(DivisionByZero), minima;
        }
        if SelfConsistent(enew, eold, niup, niupOld, nidown, nidownOld, deps, d) {
          if attempt == 0 || AllAbove(minima, enew, deps) {
            SeparatedAppend(minima, enew, deps);
            minima := minima + [enew];
            accepted := Some(Accepted(trial, eUpNew + eDownNew));
            assert Diagonalised(ops, niupIn, nidownIn, nup, ndown, trial, eUpNew + eDownNew);
          }
          break;
        }
        var mixup := MixDensity(niup, niupOld, alpha);
        var mixdown := MixDensity(nidown, nidownOld, alpha);
        niupOld, nidownOld := niup, nidown;
        niup, nidown := mixup, mixdown;
        eold := enew;
        it := it + 1;
      }
      attempt := attempt + 1;
    }
    if |minima| > 0 {
      SeparatedLastIsMin(minima, deps);
    }
    result := Finish(minima, accepted, lastTrial, (niup, nidown));
  }
}
