/** Complex numbers as pairs of reals, the way the concentration-matrix code
    keeps its real and imaginary parts in two separate real arrays. */
module ComplexNumbers {

  datatype Complex = Complex(re: real, im: real)

  const Zero: Complex := Complex(0.0, 0.0)
  const One: Complex := Complex(1.0, 0.0)

  function Of(x: real): Complex { Complex(x, 0.0) }

  function Add(a: Complex, b: Complex): Complex {
    Complex(a.re + b.re, a.im + b.im)
  }

  function Neg(a: Complex): Complex { Complex(-a.re, -a.im) }

  function Mul(a: Complex, b: Complex): Complex {
    Complex(a.re * b.re - a.im * b.im, a.re * b.im + a.im * b.re)
  }

  function Scale(k: real, a: Complex): Complex { Complex(k * a.re, k * a.im) }

  function Conj(a: Complex): Complex { Complex(a.re, -a.im) }

  predicate IsReal(a: Complex) { a.im == 0.0 }

  /** numpy orders complex numbers lexicographically: real part first, then
      imaginary part.  `x < 0` on a complex array therefore means this. */
  predicate LessThanZero(a: Complex) {
    a.re < 0.0 || (a.re == 0.0 && a.im < 0.0)
  }

  lemma MulCommutes(a: Complex, b: Complex)
    ensures Mul(a, b) == Mul(b, a)
  {
  }

  lemma ConjInvolutive(a: Complex)
    ensures Conj(Conj(a)) == a
  {
  }

  lemma MulByOne(a: Complex)
    ensures Mul(a, One) == a && Mul(One, a) == a
  {
  }

  /** A real number times the conjugate of a real number stays real. */
  lemma RealTimesRealIsReal(a: Complex, b: Complex)
    requires IsReal(a) && IsReal(b)
    ensures IsReal(Mul(a, b)) && Mul(a, b).re == a.re * b.re
  {
  }

  /** Negating flips a lexicographically negative number to a non-negative one. */
  lemma NegOfNegativeIsNotNegative(a: Complex)
    requires LessThanZero(a)
    ensures !LessThanZero(Neg(a))
  {
  }

  /** Multiplying the conjugate of `a`, scaled by `s`, by the conjugate of a
      real `b` gives the scaled conjugate of `a` times the conjugate of `b`. */
  lemma MulScaledConjByReal(s: real, a: Complex, b: Complex)
    requires IsReal(b)
    ensures Mul(Scale(s, Conj(a)), Conj(b)) == Scale(s, Conj(Mul(a, Conj(b))))
  {
    assert b.im == 0.0;
    assert (s * a.re) * b.re == s * (a.re * b.re);
    assert (s * -a.im) * b.re == s * -(a.im * b.re);
  }

  /** Scaling by a real weight commutes with a scaled conjugate. */
  lemma WeightCommutesWithScaledConj(w: real, s: real, a: Complex)
    ensures Scale(w, Scale(s, Conj(a))) == Scale(s, Conj(Scale(w, a)))
  {
    assert w * (s * a.re) == s * (w * a.re);
    assert w * (s * -a.im) == s * -(w * a.im);
  }
}
