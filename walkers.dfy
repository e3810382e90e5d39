/**
 * Walkers of the population: a complex weight, an `alive` flag and the
 * determinant columns.  The determinants are data the drivers pass to
 * collaborators; only the weight and the flag are inspected by the loops.
 */
module Walkers {

  /** A complex number over exact reals (numpy complex128 without rounding). */
  datatype Complex = Complex(re: real, im: real)

  function Mul(a: Complex, b: Complex): Complex {
    Complex(a.re * b.re - a.im * b.im, a.re * b.im + a.im * b.re)
  }

  /** Multiplication of a complex number by a real factor. */
  function Scale(a: Complex, f: real): Complex {
    Complex(a.re * f, a.im * f)
  }

  /** The squared modulus |a|^2. */
  function NormSq(a: Complex): real {
    a.re * a.re + a.im * a.im
  }

  /** `abs(a) > t` for a threshold t >= 0, compared without a square root. */
  predicate AbsAbove(a: Complex, t: real)
    requires t >= 0.0
  {
    NormSq(a) > t * t
  }

  /** The propagation threshold 1e-8 of both drivers. */
  const WeightEps: real := 0.00000001

  /** One column of a determinant matrix. */
  type Column = seq<Complex>

  datatype Walker = Walker(weight: Complex, alive: bool, phi: seq<Column>)

  /** The constant-factor reweighting `w.weight = w.weight * f`. */
  function Reweight(w: Walker, f: real): (r: Walker)
    ensures r.alive == w.alive && r.phi == w.phi
  {
    w.(weight := Scale(w.weight, f))
  }

  /** Squaring is strictly increasing on the non-negative reals. */
  lemma SquareMonotone(a: real, b: real)
    requires 0.0 <= a < b
    ensures a * a < b * b
  {
    var d := b - a;
    assert d > 0.0;
    assert b * b == a * a + 2.0 * a * d + d * d;
    assert a * d >= 0.0;
    assert d * d > 0.0;
  }

  /** On a real weight x, `abs(x) > t` is `x > t or x < -t`. */
  lemma AbsAboveReal(x: real, t: real)
    requires t >= 0.0
    ensures AbsAbove(Complex(x, 0.0), t) <==> (x > t || x < -t)
  {
    var y := if x >= 0.0 then x else -x;
    assert NormSq(Complex(x, 0.0)) == y * y;
    if y > t {
      SquareMonotone(t, y);
    } else if y < t {
      SquareMonotone(y, t);
    }
  }

  /** A weight of exactly 1e-8 (of either sign) is not above the threshold. */
  lemma ThresholdIsStrict()
    ensures !AbsAbove(Complex(WeightEps, 0.0), WeightEps)
    ensures !AbsAbove(Complex(-WeightEps, 0.0), WeightEps)
    ensures AbsAbove(Complex(2.0 * WeightEps, 0.0), WeightEps)
  {
  }

  /** Reweighting by a non-zero factor keeps a weight strictly positive or strictly negative on the real line. */
  lemma ReweightKeepsSign(w: Walker, f: real)
    requires f > 0.0 && w.weight.im == 0.0
    ensures Reweight(w, f).weight.im == 0.0
    ensures w.weight.re > 0.0 <==> Reweight(w, f).weight.re > 0.0
  {
    if w.weight.re <= 0.0 {
      assert w.weight.re * f <= 0.0;
    }
  }
}
