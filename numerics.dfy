/** The numerical primitives the model treats abstractly: `np.pi`, a square
    root given as a parameter with only its defining property, and the
    `.sum()` of a real or complex array. */
module Numerics {
  import opened ComplexNumbers

  /** `np.pi`, the double nearest to pi. */
  const Pi: real := 3.141592653589793

  /** `sqrt` behaves as the square root on the non-negative reals. */
  ghost predicate IsSqrt(sqrt: real -> real) {
    forall x: real :: 0.0 <= x ==> 0.0 <= sqrt(x) && sqrt(x) * sqrt(x) == x
  }

  lemma SqrtPositive(sqrt: real -> real, x: real)
    requires IsSqrt(sqrt) && 0.0 < x
    ensures 0.0 < sqrt(x)
  {
    assert sqrt(x) * sqrt(x) == x;
  }

  lemma SquareMonotone(b: real, a: real)
    ensures 0.0 <= b <= a ==> b * b <= a * a
  {
    if 0.0 <= b <= a {
      assert b * b <= a * b;
      assert a * b <= a * a;
    }
  }

  lemma UnitSquare(z: real)
    requires 0.0 <= z && z * z == 1.0
    ensures z == 1.0
  {
    assert (z - 1.0) * (z + 1.0) == 0.0;
    assert 0.0 < z + 1.0;
  }

  /** The square root is strictly increasing. */
  lemma SqrtStrictlyIncreasing(sqrt: real -> real, x: real, y: real)
    requires IsSqrt(sqrt) && 0.0 <= x < y
    ensures sqrt(x) < sqrt(y)
  {
    var a, b := sqrt(x), sqrt(y);
    assert a * a == x && b * b == y && 0.0 <= a && 0.0 <= b;
    SquareMonotone(b, a);
  }

  /** `sqrt(a) * sqrt(1 / a) == 1` for positive `a`: the factors of the
      axisymmetric transforms cancel. */
  lemma SqrtReciprocal(sqrt: real -> real, a: real)
    requires IsSqrt(sqrt) && 0.0 < a
    ensures sqrt(a) * sqrt(1.0 / a) == 1.0
  {
    var s, t := sqrt(a), sqrt(1.0 / a);
    assert s * s == a && t * t == 1.0 / a;
    assert (s * t) * (s * t) == (s * s) * (t * t);
    UnitSquare(s * t);
  }

  /** `.sum()` of a real array. */
  function Sum(s: seq<real>): real {
    if s == [] then 0.0 else Sum(s[..|s| - 1]) + s[|s| - 1]
  }

  /** `.sum()` of a complex array. */
  function CSum(s: seq<Complex>): Complex {
    if s == [] then Zero else Add(CSum(s[..|s| - 1]), s[|s| - 1])
  }

  lemma {:induction false} SumOfZeros(s: seq<real>)
    requires forall k | 0 <= k < |s| :: s[k] == 0.0
    ensures Sum(s) == 0.0
  {
    if s != [] {
      SumOfZeros(s[..|s| - 1]);
    }
  }

  lemma {:induction false} CSumOfZeros(s: seq<Complex>)
    ensures (forall k | 0 <= k < |s| :: s[k] == Zero) ==> CSum(s) == Zero
  {
    if s != [] && forall k | 0 <= k < |s| :: s[k] == Zero {
      CSumOfZeros(s[..|s| - 1]);
    }
  }

  /** The sum of `s[k] * x[k]` over all `k`. */
  function Dot(s: seq<real>, x: seq<real>): real
    requires |s| == |x|
  {
    if s == [] then 0.0 else Dot(s[..|s| - 1], x[..|x| - 1]) + s[|s| - 1] * x[|x| - 1]
  }

  /** The sum of scaled conjugates is the scaled conjugate of the sum. */
  lemma {:induction false} CSumScaledConj(s: real, t: seq<Complex>, u: seq<Complex>)
    requires |u| == |t| && forall k | 0 <= k < |u| :: u[k] == Scale(s, Conj(t[k]))
    ensures CSum(u) == Scale(s, Conj(CSum(t)))
  {
    if u != [] {
      var n := |u| - 1;
      CSumScaledConj(s, t[..n], u[..n]);
      var a, b := CSum(t[..n]), t[n];
      assert s * (a.re + b.re) == s * a.re + s * b.re;
      assert s * -(a.im + b.im) == s * -a.im + s * -b.im;
    }
  }

  /** Summing entry by entry: the sum of pointwise sums is the sum of the
      two sums. */
  lemma {:induction false} SumAdd(a: seq<real>, b: seq<real>, c: seq<real>)
    requires |a| == |b| == |c| && forall k | 0 <= k < |c| :: c[k] == a[k] + b[k]
    ensures Sum(c) == Sum(a) + Sum(b)
  {
    if c != [] {
      var n := |c| - 1;
      SumAdd(a[..n], b[..n], c[..n]);
    }
  }

  /** Adding `d` to one entry adds `d` to the sum. */
  lemma {:induction false} SumUpdate(s: seq<real>, i: nat, d: real)
    requires i < |s|
    ensures Sum(s[i := s[i] + d]) == Sum(s) + d
  {
    var n := |s| - 1;
    var t := s[i := s[i] + d];
    if i < n {
      SumUpdate(s[..n], i, d);
      assert t[..n] == s[..n][i := s[i] + d];
    } else {
      assert t[..n] == s[..n];
    }
  }

  /** The dot product is linear in its second argument. */
  lemma {:induction false} DotAdd(s: seq<real>, x: seq<real>, y: seq<real>, z: seq<real>)
    requires |s| == |x| == |y| == |z| && forall k | 0 <= k < |z| :: z[k] == x[k] + y[k]
    ensures Dot(s, z) == Dot(s, x) + Dot(s, y)
  {
    if s != [] {
      var n := |s| - 1;
      DotAdd(s[..n], x[..n], y[..n], z[..n]);
      assert s[n] * z[n] == s[n] * x[n] + s[n] * y[n];
    }
  }

  /** The dot product with a zero vector is zero. */
  lemma {:induction false} DotZero(s: seq<real>, x: seq<real>)
    requires |s| == |x| && forall k | 0 <= k < |x| :: x[k] == 0.0
    ensures Dot(s, x) == 0.0
  {
    if s != [] {
      DotZero(s[..|s| - 1], x[..|x| - 1]);
    }
  }

  /** A common factor comes out of a sum: when every entry of `b` times
      `c` is the entry of `a`, the sum of `b` times `c` is the sum of `a`. */
  lemma {:induction false} SumTimes(c: real, a: seq<real>, b: seq<real>)
    requires |a| == |b| && forall k | 0 <= k < |b| :: b[k] * c == a[k]
    ensures Sum(b) * c == Sum(a)
  {
    if b != [] {
      var n := |b| - 1;
      SumTimes(c, a[..n], b[..n]);
      assert Sum(b) * c == Sum(b[..n]) * c + b[n] * c;
    }
  }
}
