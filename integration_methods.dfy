/** The integrals of `_integration_methods`: the pointwise product of any
    number of sampled functions, optionally weighted by the sphere's
    quadrature weights and restricted by a region mask, summed over the
    samples. Sampled functions are complex arrays; the real arrays of the
    mesh code are complex arrays with zero imaginary part. */
module IntegrationMethods {
  import opened ComplexNumbers
  import opened Numerics

  /** A function sampled on a grid or on the vertices of a mesh. */
  type Field = seq<Complex>

  /** Real samples seen as a complex array. */
  function RealField(x: seq<real>): (f: Field)
    ensures |f| == |x| && forall k | 0 <= k < |f| :: f[k] == Of(x[k])
  {
    seq(|x|, k requires 0 <= k < |x| => Of(x[k]))
  }

  /** `f.conj()`. */
  function ConjField(f: Field): (g: Field)
    ensures |g| == |f| && forall k | 0 <= k < |g| :: g[k] == Conj(f[k])
  {
    seq(|f|, k requires 0 <= k < |f| => Conj(f[k]))
  }

  /** `s * f.conj()` for a real `s`. */
  function ScaledConjField(s: real, f: Field): (g: Field)
    ensures |g| == |f| && forall k | 0 <= k < |g| :: g[k] == Scale(s, Conj(f[k]))
  {
    seq(|f|, k requires 0 <= k < |f| => Scale(s, Conj(f[k])))
  }

  predicate AllReal(f: Field) {
    forall k | 0 <= k < |f| :: IsReal(f[k])
  }

  predicate SameShape(fs: seq<Field>) {
    forall k | 0 <= k < |fs| :: |fs[k]| == |fs[0]|
  }

  /** `x * y` on two arrays of one shape. */
  function Times(a: Field, b: Field): (r: Field)
    requires |a| == |b|
    ensures |r| == |a| && forall k | 0 <= k < |r| :: r[k] == Mul(a[k], b[k])
  {
    seq(|a|, k requires 0 <= k < |a| => Mul(a[k], b[k]))
  }

  /** `_multiply_args(*args)`: `reduce(lambda x, y: x * y, args)`, a left
      fold of pointwise products. */
  function MultiplyArgs(fs: seq<Field>): (r: Field)
    requires 1 <= |fs| && SameShape(fs)
    ensures |r| == |fs[0]|
    ensures |fs| == 1 ==> r == fs[0]
  {
    if |fs| == 1 then fs[0] else Times(MultiplyArgs(fs[..|fs| - 1]), fs[|fs| - 1])
  }

  /** `x * weight` for real weights. */
  function Weighted(f: Field, weight: seq<real>): (r: Field)
    requires |f| == |weight|
    ensures |r| == |f| && forall k | 0 <= k < |r| :: r[k] == Scale(weight[k], f[k])
  {
    seq(|f|, k requires 0 <= k < |f| => Scale(weight[k], f[k]))
  }

  /** `x * mask` for a mask of booleans: samples outside the region become 0. */
  function Masked(f: Field, mask: seq<bool>): (r: Field)
    requires |f| == |mask|
    ensures |r| == |f| && forall k | 0 <= k < |r| :: r[k] == if mask[k] then f[k] else Zero
  {
    seq(|f|, k requires 0 <= k < |f| => if mask[k] then f[k] else Zero)
  }

  /** The mask as a function: 1 inside the region, 0 outside. */
  function Indicator(mask: seq<bool>): (f: Field)
    ensures |f| == |mask| && forall k | 0 <= k < |f| :: f[k] == if mask[k] then One else Zero
  {
    seq(|mask|, k requires 0 <= k < |mask| => if mask[k] then One else Zero)
  }

  /** Every sampled function of `fs` is real. */
  predicate AllRealFields(fs: seq<Field>) {
    forall j | 0 <= j < |fs| :: AllReal(fs[j])
  }

  /** `_integrate_whole_sphere`: integrating the constant 1 gives the sum of
      the quadrature weights, the area the quadrature assigns the sphere;
      real functions with real weights integrate to a real number. */
  function IntegrateWholeSphere(weight: seq<real>, fs: seq<Field>): (r: Complex)
    requires 1 <= |fs| && SameShape(fs) && |weight| == |fs[0]|
    ensures |fs| == 1 && (forall k | 0 <= k < |fs[0]| :: fs[0][k] == One) ==> r == Of(Sum(weight))
    ensures AllRealFields(fs) ==> IsReal(r)
  {
    var w := Weighted(MultiplyArgs(fs), weight);
    MultiplyArgsReal(fs);
    CSumOfReals(w);
    CSumRe(w, weight);
    CSum(w)
  }

  /** `_integrate_region_sphere`: with every sample in the region it is the
      whole-sphere integral, with none it is 0. */
  function IntegrateRegionSphere(mask: seq<bool>, weight: seq<real>, fs: seq<Field>): (r: Complex)
    requires 1 <= |fs| && SameShape(fs) && |weight| == |fs[0]| && |mask| == |fs[0]|
    ensures (forall k | 0 <= k < |mask| :: mask[k]) ==> r == IntegrateWholeSphere(weight, fs)
    ensures (forall k | 0 <= k < |mask| :: !mask[k]) ==> r == Zero
  {
    var w := Weighted(MultiplyArgs(fs), weight);
    assert (forall k | 0 <= k < |mask| :: mask[k]) ==> Masked(w, mask) == w;
    CSumOfZeros(Masked(w, mask));
    CSum(Masked(w, mask))
  }

  /** `_integrate_whole_mesh`: the vertices and faces are never used; real
      functions integrate to a real number. */
  function IntegrateWholeMesh(vertices: seq<seq<real>>, faces: seq<seq<nat>>, fs: seq<Field>): (r: Complex)
    requires 1 <= |fs| && SameShape(fs)
    ensures AllRealFields(fs) ==> IsReal(r)
  {
    MultiplyArgsReal(fs);
    CSumOfReals(MultiplyArgs(fs));
    CSum(MultiplyArgs(fs))
  }

  /** `_integrate_region_mesh`: real functions integrate to a real number
      over any region. */
  function IntegrateRegionMesh(mask: seq<bool>, vertices: seq<seq<real>>, faces: seq<seq<nat>>,
                               fs: seq<Field>): (r: Complex)
    requires 1 <= |fs| && SameShape(fs) && |mask| == |fs[0]|
    ensures AllRealFields(fs) ==> IsReal(r)
  {
    MultiplyArgsReal(fs);
    CSumOfReals(Masked(MultiplyArgs(fs), mask));
    CSum(Masked(MultiplyArgs(fs), mask))
  }

  /** The pointwise product of real functions is real. */
  lemma {:induction false} MultiplyArgsReal(fs: seq<Field>)
    requires 1 <= |fs| && SameShape(fs)
    ensures AllRealFields(fs) ==> AllReal(MultiplyArgs(fs))
  {
    if |fs| > 1 && AllRealFields(fs) {
      var init := fs[..|fs| - 1];
      MultiplyArgsReal(init);
      assert AllRealFields(init);
      var p := MultiplyArgs(init);
      forall k | 0 <= k < |fs[0]| ensures IsReal(MultiplyArgs(fs)[k]) {
        RealTimesRealIsReal(p[k], fs[|fs| - 1][k]);
      }
    }
  }

  /** A region integral on the sphere is the whole-sphere integral with the
      mask as one more factor. */
  lemma RegionSphereIsMaskedWholeSphere(mask: seq<bool>, weight: seq<real>, fs: seq<Field>)
    requires 1 <= |fs| && SameShape(fs) && |weight| == |fs[0]| && |mask| == |fs[0]|
    ensures SameShape(fs + [Indicator(mask)])
    ensures IntegrateRegionSphere(mask, weight, fs)
         == IntegrateWholeSphere(weight, fs + [Indicator(mask)])
  {
    var gs := fs + [Indicator(mask)];
    assert gs[..|gs| - 1] == fs;
    var p := MultiplyArgs(fs);
    var lhs := Masked(Weighted(p, weight), mask);
    var rhs := Weighted(MultiplyArgs(gs), weight);
    forall k | 0 <= k < |lhs| ensures lhs[k] == rhs[k] {
      if mask[k] {
        MulByOne(p[k]);
      }
    }
    assert lhs == rhs;
  }

  /** With every vertex in the region the region integral is the whole
      integral; with none it is 0. */
  lemma RegionMeshExtremes(mask: seq<bool>, vertices: seq<seq<real>>, faces: seq<seq<nat>>, fs: seq<Field>)
    requires 1 <= |fs| && SameShape(fs) && |mask| == |fs[0]|
    ensures (forall k | 0 <= k < |mask| :: mask[k])
      ==> IntegrateRegionMesh(mask, vertices, faces, fs) == IntegrateWholeMesh(vertices, faces, fs)
    ensures (forall k | 0 <= k < |mask| :: !mask[k])
      ==> IntegrateRegionMesh(mask, vertices, faces, fs) == Zero
  {
    var p := MultiplyArgs(fs);
    if forall k | 0 <= k < |mask| :: mask[k] {
      assert Masked(p, mask) == p;
    }
    if forall k | 0 <= k < |mask| :: !mask[k] {
      CSumOfZeros(Masked(p, mask));
    }
  }

  /** The mesh integrals depend on the sampled functions and the mask only. */
  lemma MeshIgnoresGeometry(mask: seq<bool>, v1: seq<seq<real>>, f1: seq<seq<nat>>,
                            v2: seq<seq<real>>, f2: seq<seq<nat>>, fs: seq<Field>)
    requires 1 <= |fs| && SameShape(fs) && |mask| == |fs[0]|
    ensures IntegrateWholeMesh(v1, f1, fs) == IntegrateWholeMesh(v2, f2, fs)
    ensures IntegrateRegionMesh(mask, v1, f1, fs) == IntegrateRegionMesh(mask, v2, f2, fs)
  {
  }

  /** Swapping the two functions of a product leaves the product unchanged. */
  lemma MultiplyTwoCommutes(a: Field, b: Field)
    requires |a| == |b|
    ensures MultiplyArgs([a, b]) == MultiplyArgs([b, a])
  {
    assert [a, b][..1] == [a] && [b, a][..1] == [b];
    var x, y := MultiplyArgs([a, b]), MultiplyArgs([b, a]);
    forall k | 0 <= k < |a| ensures x[k] == y[k] {
      MulCommutes(a[k], b[k]);
    }
    assert x == y;
  }

  /** Hence every integral of two functions is symmetric in them, which is
      why only one triangle of a real concentration matrix is computed. */
  lemma IntegralsSymmetric(mask: seq<bool>, weight: seq<real>, vertices: seq<seq<real>>,
                           faces: seq<seq<nat>>, a: Field, b: Field)
    requires |a| == |b| == |mask| == |weight|
    ensures IntegrateRegionMesh(mask, vertices, faces, [a, b]) == IntegrateRegionMesh(mask, vertices, faces, [b, a])
    ensures IntegrateRegionSphere(mask, weight, [a, b]) == IntegrateRegionSphere(mask, weight, [b, a])
  {
    MultiplyTwoCommutes(a, b);
  }

  lemma {:induction false} CSumOfReals(s: seq<Complex>)
    ensures AllReal(s) ==> IsReal(CSum(s))
  {
    if s != [] && AllReal(s) {
      CSumOfReals(s[..|s| - 1]);
    }
  }

  /** Integrating real functions over a mesh region gives a real number, so
      storing it in a real matrix loses nothing. */
  lemma RealMeshIntegral(mask: seq<bool>, vertices: seq<seq<real>>, faces: seq<seq<nat>>, a: seq<real>, b: seq<real>)
    requires |a| == |b| == |mask|
    ensures IsReal(IntegrateRegionMesh(mask, vertices, faces, [RealField(a), RealField(b)]))
    ensures IntegrateRegionMesh(mask, vertices, faces, [RealField(a), RealField(b)]).re
         == Sum(seq(|a|, k requires 0 <= k < |a| => if mask[k] then a[k] * b[k] else 0.0))
  {
    var fs := [RealField(a), RealField(b)];
    assert fs[..1] == [RealField(a)];
    var p := Masked(MultiplyArgs(fs), mask);
    forall k | 0 <= k < |p| ensures IsReal(p[k]) {
      RealTimesRealIsReal(Of(a[k]), Of(b[k]));
    }
    CSumOfReals(p);
    var s := seq(|a|, k requires 0 <= k < |a| => if mask[k] then a[k] * b[k] else 0.0);
    CSumRe(p, s);
  }

  /** The real part of a sum is the sum of the real parts. */
  lemma {:induction false} CSumRe(p: seq<Complex>, s: seq<real>)
    ensures (|p| == |s| && forall k | 0 <= k < |p| :: p[k].re == s[k]) ==> CSum(p).re == Sum(s)
  {
    if p != [] && |p| == |s| && forall k | 0 <= k < |p| :: p[k].re == s[k] {
      CSumRe(p[..|p| - 1], s[..|s| - 1]);
    }
  }

  /** Integrating a scaled conjugate against a real function gives the scaled
      conjugate of the integral. */
  lemma RegionSphereOfScaledConj(mask: seq<bool>, weight: seq<real>, s: real, a: Field, b: Field)
    requires |a| == |b| == |mask| == |weight| && AllReal(b)
    ensures IntegrateRegionSphere(mask, weight, [ScaledConjField(s, a), ConjField(b)])
         == Scale(s, Conj(IntegrateRegionSphere(mask, weight, [a, ConjField(b)])))
  {
    var fs, gs := [ScaledConjField(s, a), ConjField(b)], [a, ConjField(b)];
    assert fs[..1] == [fs[0]] && gs[..1] == [gs[0]];
    var p, q := MultiplyArgs(fs), MultiplyArgs(gs);
    assert p == Times(fs[0], fs[1]) && q == Times(gs[0], gs[1]);
    var t := Masked(Weighted(q, weight), mask);
    var u := Masked(Weighted(p, weight), mask);
    forall k | 0 <= k < |u| ensures u[k] == Scale(s, Conj(t[k])) {
      if mask[k] {
        assert p[k] == Mul(Scale(s, Conj(a[k])), Conj(b[k]));
        MulScaledConjByReal(s, a[k], b[k]);
        WeightCommutesWithScaledConj(weight[k], s, q[k]);
      }
    }
    CSumScaledConj(s, t, u);
  }

  /** Swapping the two harmonics of a region integral conjugates it. */
  lemma RegionSphereConjSwap(mask: seq<bool>, weight: seq<real>, a: Field, b: Field)
    requires |a| == |b| == |mask| == |weight|
    ensures IntegrateRegionSphere(mask, weight, [a, ConjField(b)])
         == Conj(IntegrateRegionSphere(mask, weight, [b, ConjField(a)]))
  {
    var fs, gs := [a, ConjField(b)], [b, ConjField(a)];
    assert fs[..1] == [fs[0]] && gs[..1] == [gs[0]];
    var p, q := MultiplyArgs(fs), MultiplyArgs(gs);
    assert p == Times(fs[0], fs[1]) && q == Times(gs[0], gs[1]);
    var t := Masked(Weighted(q, weight), mask);
    var u := Masked(Weighted(p, weight), mask);
    forall k | 0 <= k < |u| ensures u[k] == Scale(1.0, Conj(t[k])) {
      if mask[k] {
        assert p[k] == Mul(a[k], Conj(b[k])) && q[k] == Mul(b[k], Conj(a[k]));
      }
    }
    CSumScaledConj(1.0, t, u);
  }
}
