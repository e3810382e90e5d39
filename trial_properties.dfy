/**
 * What the trial-wavefunction setup guarantees: the name tags select each
 * class and nothing else, the Fortran-order reshape and flattening are
 * inverse, the determinant slices tile the orbital array, densities are
 * non-negative and additive over columns, mixing interpolates, the
 * convergence test compares squares without a square root, and the UHF
 * result reports the lowest accepted energy.
 */
module TrialProperties {
  import opened Wrappers
  import opened Walkers
  import opened PyIndex
  import opened TrialWavefunction

  // ---------------------------------------------------------------------
  // Dispatch

  /** Each class is selected by its own tag, and by no other class's tag. */
  lemma DispatchRoundTrip(k: TrialKind, k': TrialKind)
    ensures GetTrialWavefunction(map["name" := Tag(k)]) == Selected(Some(k))
    ensures Tag(k) == Tag(k') ==> k == k'
  {
  }

  // ---------------------------------------------------------------------
  // Reshape and flatten

  lemma {:induction false} FlattenLength(m: Matrix, rows: nat)
    requires Rectangular(m, rows)
    ensures |Flatten(m)| == rows * |m|
  {
    if m != [] {
      var init := m[..|m| - 1];
      FlattenLength(init, rows);
      assert Flatten(m) == Flatten(init) + m[|m| - 1];
      assert rows * |m| == rows * |init| + rows;
    }
  }

  /** Column `j` of a rectangular matrix is the `j`-th run of its flattening. */
  lemma {:induction false} FlattenColumn(m: Matrix, rows: nat, j: nat)
    requires Rectangular(m, rows) && j < |m|
    ensures |Flatten(m)| == rows * |m|
    ensures Flatten(m)[j * rows..(j + 1) * rows] == m[j]
  {
    FlattenLength(m, rows);
    var init := m[..|m| - 1];
    FlattenLength(init, rows);
    assert Flatten(m) == Flatten(init) + m[|m| - 1];
    if j < |m| - 1 {
      FlattenColumn(init, rows, j);
      RunBounds(rows, |init|, j);
      assert Flatten(m)[j * rows..(j + 1) * rows] == Flatten(init)[j * rows..(j + 1) * rows];
    } else {
      assert j * rows == |Flatten(init)|;
    }
  }

  /** `order='F'`: entry `(i, j)` of the reshaped matrix is entry `i + j*rows` of the flat array. */
  lemma ReshapeEntry(flat: seq<Complex>, rows: nat, cols: nat, i: nat, j: nat)
    requires |flat| == rows * cols && i < rows && j < cols
    ensures ReshapeF(flat, rows, cols).Some?
    ensures ReshapeF(flat, rows, cols).value[j][i] == flat[j * rows + i]
  {
    ReshapeColumn(flat, rows, cols, j);
  }

  /** Reshaping the flattening of a rectangular matrix gives the matrix back. */
  lemma ReshapeFlatten(m: Matrix, rows: nat)
    requires Rectangular(m, rows)
    ensures ReshapeF(Flatten(m), rows, |m|) == Some(m)
  {
    var flat := Flatten(m);
    FlattenLength(m, rows);
    var r := ReshapeF(flat, rows, |m|).value;
    forall j | 0 <= j < |m| ensures r[j] == m[j] {
      ReshapeColumn(flat, rows, |m|, j);
      FlattenColumn(m, rows, j);
    }
    assert r == m;
  }

  lemma ReshapeColumn(flat: seq<Complex>, rows: nat, cols: nat, j: nat)
    requires |flat| == rows * cols && j < cols
    ensures 0 <= j * rows <= (j + 1) * rows <= |flat|
    ensures ReshapeF(flat, rows, cols).Some?
    ensures ReshapeF(flat, rows, cols).value[j] == flat[j * rows..(j + 1) * rows]
  {
    RunBounds(rows, cols, j);
  }

  /** Flattening a reshaped array gives the array back. */
  lemma FlattenReshape(flat: seq<Complex>, rows: nat, cols: nat)
    requires |flat| == rows * cols
    ensures ReshapeF(flat, rows, cols).Some?
    ensures Flatten(ReshapeF(flat, rows, cols).value) == flat
  {
    var m := ReshapeF(flat, rows, cols).value;
    FlattenPrefix(flat, rows, cols, m, cols);
    assert m[..cols] == m;
  }

  lemma {:induction false} FlattenPrefix(flat: seq<Complex>, rows: nat, cols: nat, m: Matrix, c: nat)
    requires |flat| == rows * cols && c <= cols
    requires ReshapeF(flat, rows, cols) == Some(m)
    ensures c * rows <= |flat|
    ensures Flatten(m[..c]) == flat[..c * rows]
  {
    if c == 0 {
      assert m[..0] == [];
    } else {
      FlattenPrefix(flat, rows, cols, m, c - 1);
      RunBounds(rows, cols, c - 1);
      assert m[..c][..c - 1] == m[..c - 1];
      assert m[c - 1] == flat[(c - 1) * rows..c * rows];
      assert flat[..c * rows] == flat[..(c - 1) * rows] + flat[(c - 1) * rows..c * rows];
    }
  }

  // ---------------------------------------------------------------------
  // Slice assignment

  /** With exactly the right number of columns, the assembled GHF trial is the up halves followed by the down halves. */
  lemma GhfColumns(tmp: Matrix, ups: seq<nat>, downs: seq<nat>, nbasis: nat)
    requires forall k :: 0 <= k < |ups| ==> ups[k] < |tmp|
    requires forall k :: 0 <= k < |downs| ==> downs[k] < |tmp|
    ensures AssembleGhf(tmp, ups, downs, nbasis, |ups|, |downs|).Some?
    ensures forall k :: 0 <= k < |ups| ==>
      AssembleGhf(tmp, ups, downs, nbasis, |ups|, |downs|).value[k] == Take(tmp[ups[k]], nbasis)
    ensures forall k :: 0 <= k < |downs| ==>
      AssembleGhf(tmp, ups, downs, nbasis, |ups|, |downs|).value[|ups| + k] == Drop(tmp[downs[k]], nbasis)
  {
  }

  /** Up and down halves of a column rejoin into the column. */
  lemma HalvesRejoin(c: Column, nbasis: nat)
    ensures Take(c, nbasis) + Drop(c, nbasis) == c
  {
  }

  /** The eigenvalue sum of `initialise` is the sum over the occupied orbitals of both spins. */
  lemma InitialiseOccupied(eUp: seq<real>, evUp: Matrix, eDown: seq<real>, evDown: Matrix, nup: nat, ndown: nat)
    requires nup <= |evUp| && ndown <= |evDown|
    ensures InitialiseTrial(eUp, evUp, eDown, evDown, nup, ndown).Some?
    ensures InitialiseTrial(eUp, evUp, eDown, evDown, nup, ndown).value.0 == evUp[..nup] + evDown[..ndown]
    ensures InitialiseTrial(eUp, evUp, eDown, evDown, nup, ndown).value.1 == Sum(Take(eUp, nup) + Take(eDown, ndown))
  {
    SumAppend(Take(eUp, nup), Take(eDown, ndown));
  }

  /** Too few eigenvectors for the electrons (and more than one) make the assignment fail. */
  lemma InitialiseTooFewOrbitals(eUp: seq<real>, evUp: Matrix, eDown: seq<real>, evDown: Matrix, nup: nat, ndown: nat)
    requires 1 < |evUp| < nup
    ensures InitialiseTrial(eUp, evUp, eDown, evDown, nup, ndown).None?
  {
  }

  // ---------------------------------------------------------------------
  // Multi-determinant layout

  /** The basis and the element type of each expansion type. */
  lemma LayoutByType(nbasis: nat, cplx: bool, other: string)
    requires other != "UHF" && other != "GHF"
    ensures BasisSize(Some("UHF"), nbasis) == nbasis && (IsComplex(cplx, Some("UHF")) <==> cplx)
    ensures BasisSize(Some("GHF"), nbasis) == 2 * nbasis && IsComplex(cplx, Some("GHF"))
    ensures BasisSize(Some(other), nbasis) == 2 * nbasis && (IsComplex(cplx, Some(other)) <==> cplx)
    ensures BasisSize(None, nbasis) == 2 * nbasis && (IsComplex(cplx, None) <==> cplx)
  {
  }

  /** Consecutive determinants are adjacent: each slice ends where the next begins. */
  lemma DetSlicesAdjacent(i: nat, skip: nat)
    ensures DetStart(i + 1, skip) == DetStart(i, skip) + skip
  {
  }

  /**
   * The slices of the `ndets` determinants tile `[0, ndets*skip)`: every
   * position lies in the slice of determinant `p / skip`, and in no other.
   */
  lemma DetSlicesTile(ndets: nat, skip: nat, p: nat, i: nat)
    requires skip > 0 && p < ndets * skip
    ensures p / skip < ndets
    ensures DetStart(p / skip, skip) <= p < DetStart(p / skip, skip) + skip
    ensures DetStart(i, skip) <= p < DetStart(i, skip) + skip ==> i == p / skip
  {
    var q := p / skip;
    assert DetStart(q, skip) <= p < DetStart(q, skip) + skip by {
      assert p == q * skip + p % skip && 0 <= p % skip < skip;
    }
    if q >= ndets {
      MulMonotone(ndets, q, skip);
    }
    if DetStart(i, skip) <= p < DetStart(i, skip) + skip {
      if i < q {
        MulMonotone(i + 1, q, skip);
        DetSlicesAdjacent(i, skip);
      } else if i > q {
        MulMonotone(q + 1, i, skip);
        DetSlicesAdjacent(q, skip);
      }
    }
  }


  /** `orbitals[start:start+skip]` holds `skip` entries exactly when it ends inside the array. */
  lemma SliceLength(start: nat, skip: nat, n: nat)
    ensures var r := SliceRange(start, start + skip, n); r.0 <= r.1
    ensures skip > 0 ==> (SliceRange(start, start + skip, n).1 - SliceRange(start, start + skip, n).0 == skip <==> start + skip <= n)
    ensures skip == 0 ==> SliceRange(start, start + skip, n).1 == SliceRange(start, start + skip, n).0
  {
  }

  // ---------------------------------------------------------------------
  // Sums and densities

  lemma {:induction false} SumAppend(a: seq<real>, b: seq<real>)
    ensures Sum(a + b) == Sum(a) + Sum(b)
  {
    if b == [] {
      assert a + b == a;
    } else {
      SumAppend(a, b[..|b| - 1]);
      assert (a + b)[..|a + b| - 1] == a + b[..|b| - 1];
    }
  }

  lemma {:induction false} SumNonNegative(s: seq<real>)
    requires forall i :: 0 <= i < |s| ==> s[i] >= 0.0
    ensures Sum(s) >= 0.0
  {
    if s != [] {
      SumNonNegative(s[..|s| - 1]);
    }
  }

  lemma {:induction false} SumZero(s: seq<real>)
    requires forall i :: 0 <= i < |s| ==> s[i] == 0.0
    ensures Sum(s) == 0.0
  {
    if s != [] {
      SumZero(s[..|s| - 1]);
    }
  }

  lemma NormSqNonNegative(a: Complex)
    ensures NormSq(a) >= 0.0
  {
    assert a.re * a.re >= 0.0 && a.im * a.im >= 0.0;
  }

  lemma {:induction false} RowWeightNonNegative(wfn: Matrix, r: nat)
    ensures RowWeight(wfn, r) >= 0.0
  {
    if wfn != [] {
      RowWeightNonNegative(wfn[..|wfn| - 1], r);
      var c := wfn[|wfn| - 1];
      if r < |c| {
        NormSqNonNegative(c[r]);
      }
    }
  }

  /** Every site occupation is non-negative. */
  lemma DensityNonNegative(wfn: Matrix, nrows: nat)
    ensures forall i :: 0 <= i < nrows ==> Density(wfn, nrows)[i] >= 0.0
  {
    forall i | 0 <= i < nrows ensures Density(wfn, nrows)[i] >= 0.0 {
      RowWeightNonNegative(wfn, i);
    }
  }

  lemma {:induction false} RowWeightAppend(a: Matrix, b: Matrix, r: nat)
    ensures RowWeight(a + b, r) == RowWeight(a, r) + RowWeight(b, r)
  {
    if b == [] {
      assert a + b == a;
    } else {
      RowWeightAppend(a, b[..|b| - 1], r);
      assert (a + b)[..|a + b| - 1] == a + b[..|b| - 1];
    }
  }

  /** The density of a block of columns is the sum of the densities of its parts. */
  lemma DensityAdditive(a: Matrix, b: Matrix, nrows: nat)
    ensures forall i :: 0 <= i < nrows ==> Density(a + b, nrows)[i] == Density(a, nrows)[i] + Density(b, nrows)[i]
  {
    forall i | 0 <= i < nrows ensures Density(a + b, nrows)[i] == Density(a, nrows)[i] + Density(b, nrows)[i] {
      RowWeightAppend(a, b, i);
    }
  }

  // ---------------------------------------------------------------------
  // Mixing and convergence

  /** `alpha = 0` keeps the new density, `alpha = 1` the old one, and mixing a density with itself changes nothing. */
  lemma MixEndpoints(next: seq<real>, prev: seq<real>, alpha: real)
    requires |next| == |prev|
    ensures MixDensity(next, prev, 0.0) == next
    ensures MixDensity(next, prev, 1.0) == prev
    ensures MixDensity(next, next, alpha) == next
  {
  }

  /** For `0 <= alpha <= 1` every mixed occupation lies between the new and the old one. */
  lemma MixBetween(next: seq<real>, prev: seq<real>, alpha: real, i: nat)
    requires |next| == |prev| && 0.0 <= alpha <= 1.0 && i < |next|
    ensures var m := MixDensity(next, prev, alpha)[i];
      (next[i] <= m <= prev[i]) || (prev[i] <= m <= next[i])
  {
    MixOfReals(next[i], prev[i], alpha, MixDensity(next, prev, alpha)[i]);
  }

  lemma MixOfReals(x: real, y: real, alpha: real, m: real)
    requires 0.0 <= alpha <= 1.0 && m == (1.0 - alpha) * x + alpha * y
    ensures (x <= m <= y) || (y <= m <= x)
  {
    assert m - x == alpha * (y - x);
    assert y - m == (1.0 - alpha) * (y - x);
    if x <= y {
      ProductNonNegative(alpha, y - x);
      ProductNonNegative(1.0 - alpha, y - x);
    } else {
      ProductNonNegative(alpha, x - y);
      ProductNonNegative(1.0 - alpha, x - y);
    }
  }

  lemma ProductNonNegative(a: real, b: real)
    requires a >= 0.0 && b >= 0.0
    ensures a * b >= 0.0
  {
  }

  /** Comparing a non-negative deviation with `sqrt(deps)` is comparing its square with `deps`. */
  lemma SqrtFreeTest(x: real, deps: real, d: real)
    requires d >= 0.0 && d * d == deps && x >= 0.0
    ensures x < d <==> x * x < deps
  {
    if x < d {
      SquareMonotone(x, d);
    } else if d < x {
      SquareMonotone(d, x);
    }
  }

  lemma MeanAbsDiffNonNegative(a: seq<real>, b: seq<real>)
    requires |a| == |b| > 0
    ensures MeanAbsDiff(a, b) >= 0.0
  {
    SumNonNegative(seq(|a|, i requires 0 <= i < |a| => Abs(a[i] - b[i])));
  }

  lemma MeanAbsDiffSelf(a: seq<real>)
    requires |a| > 0
    ensures MeanAbsDiff(a, a) == 0.0
  {
    var z := seq(|a|, i requires 0 <= i < |a| => Abs(a[i] - a[i]));
    forall i | 0 <= i < |z| ensures z[i] == 0.0 {
      assert z[i] == Abs(a[i] - a[i]);
      assert a[i] - a[i] == 0.0;
      assert Abs(0.0) == 0.0;
    }
    SumZero(z);
  }

  /**
   * The test, restated without square roots: the energy change is below
   * `deps` and each squared mean density change is below `deps`.
   */
  lemma SelfConsistentSquared(enew: real, eold: real, niup: seq<real>, niupOld: seq<real>,
                              nidown: seq<real>, nidownOld: seq<real>, deps: real, d: real)
    requires d >= 0.0 && d * d == deps
    requires |niup| == |niupOld| > 0 && |nidown| == |nidownOld| > 0
    ensures SelfConsistent(enew, eold, niup, niupOld, nidown, nidownOld, deps, d) <==>
      Abs(enew - eold) < deps
      && MeanAbsDiff(niup, niupOld) * MeanAbsDiff(niup, niupOld) < deps
      && MeanAbsDiff(nidown, nidownOld) * MeanAbsDiff(nidown, nidownOld) < deps
  {
    MeanAbsDiffNonNegative(niup, niupOld);
    MeanAbsDiffNonNegative(nidown, nidownOld);
    SqrtFreeTest(MeanAbsDiff(niup, niupOld), deps, d);
    SqrtFreeTest(MeanAbsDiff(nidown, nidownOld), deps, d);
  }

  /** An iteration that changes nothing is converged exactly when the tolerance is positive. */
  lemma SelfConsistentAtFixpoint(e: real, niup: seq<real>, nidown: seq<real>, deps: real, d: real)
    requires d >= 0.0 && d * d == deps
    requires |niup| > 0 && |nidown| > 0
    ensures SelfConsistent(e, e, niup, niup, nidown, nidown, deps, d) <==> deps > 0.0
  {
    MeanAbsDiffSelf(niup);
    MeanAbsDiffSelf(nidown);
    if d == 0.0 {
      assert deps == 0.0;
    } else {
      assert d * d > 0.0;
    }
  }

  // ---------------------------------------------------------------------
  // The UHF minima

  /** Recording an energy below all minima by more than `deps` keeps them separated. */
  lemma SeparatedAppend(minima: seq<real>, e: real, deps: real)
    requires Separated(minima, deps) && AllAbove(minima, e, deps)
    ensures Separated(minima + [e], deps)
  {
    var l := minima + [e];
    forall i, j | 0 <= i < j < |l| ensures l[i] - l[j] > deps {
      assert l[i] == minima[i];
      if j < |minima| {
        assert l[j] == minima[j];
      }
    }
  }

  /** The last of separated minima is `min(minima)`. */
  lemma SeparatedLastIsMin(minima: seq<real>, deps: real)
    requires Separated(minima, deps) && deps >= 0.0 && |minima| > 0
    ensures MinOf(minima) == minima[|minima| - 1]
  {
    var last := minima[|minima| - 1];
    var m := MinOf(minima);
    var i :| 0 <= i < |minima| && minima[i] == m;
    assert last in minima;
    if i < |minima| - 1 {
      assert minima[i] - last > deps;
    }
  }

  /**
   * As written, an empty `minima` raises at `min(minima)` before the fallback
   * can run, so a search that found nothing is never reported as such.
   */
  lemma FinishAsWrittenNeverReportsFailure(minima: seq<real>, accepted: Option<Accepted>, lastTrial: Option<Matrix>,
                                           nav: (seq<real>, seq<real>))
    requires accepted.Some? <==> |minima| > 0
    ensures !FinishAsWritten(minima, accepted, lastTrial, nav).NotFound?
    ensures |minima| == 0 ==> FinishAsWritten(minima, accepted, lastTrial, nav) == Crashed(EmptyMinima)
  {
  }

  /** No converged attempt at all: as written the search raises, as intended it reports failure. */
  lemma FinishCounterexample()
    ensures FinishAsWritten([], None, None, ([], [])) == Crashed(EmptyMinima)
    ensures Finish([], None, None, ([], [])) == NotFound(None)
  {
  }

  /** Whenever something was accepted the corrected result is the one written. */
  lemma FinishAgreesWhenFound(minima: seq<real>, accepted: Option<Accepted>, lastTrial: Option<Matrix>,
                              nav: (seq<real>, seq<real>))
    requires accepted.Some? <==> |minima| > 0
    requires |minima| > 0
    ensures Finish(minima, accepted, lastTrial, nav) == FinishAsWritten(minima, accepted, lastTrial, nav)
  {
  }
}
