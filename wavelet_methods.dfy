/** The wavelet transforms: the axisymmetric transforms on harmonic
    coefficients, which read the wavelets only at order 0 and scale every
    order of a degree alike, the scale functions (kappas) laid out one scale
    per row, the dropping of all-zero scales, and the Slepian transforms
    built on the sifting convolution. */
module WaveletMethods {
  import opened ComplexNumbers
  import opened Numerics
  import opened HarmonicIndex
  import ParallelMethods
  import opened EigenMethods
  import Storage

  /** `np.sqrt(4 * np.pi / (2 * ell + 1))`. */
  function Scaling(sqrt: real -> real, ell: nat): real {
    sqrt(4.0 * Pi / (2 * ell + 1) as real)
  }

  /** `np.sqrt((2 * ell + 1) / (4 * np.pi))`. */
  function InverseScaling(sqrt: real -> real, ell: nat): real {
    sqrt((2 * ell + 1) as real / (4.0 * Pi))
  }

  lemma ScalingsCancel(sqrt: real -> real, ell: nat)
    requires IsSqrt(sqrt)
    ensures Scaling(sqrt, ell) * InverseScaling(sqrt, ell) == 1.0
  {
    var a := 4.0 * Pi / (2 * ell + 1) as real;
    assert 1.0 / a == (2 * ell + 1) as real / (4.0 * Pi);
    SqrtReciprocal(sqrt, a);
  }

  /** The index of order 0 in the degree of `ind`. */
  function ZeroOrder(ind: nat): (k: nat)
    ensures Ell(k) == Ell(ind) && M(k) == 0
    ensures k == Ind(Ell(ind), 0)
  {
    IndRoundTrip(Ell(ind), 0);
    Ind(Ell(ind), 0)
  }

  lemma ZeroOrderBelow(L: nat, ind: nat)
    requires ind < Sq(L)
    ensures Ell(ind) < L && ZeroOrder(ind) < Sq(L)
  {
    BelowBandlimit(L, ind);
    SqMonotone(Ell(ind) + 1, L);
  }

  /** `w[j, ind]` after `axisymmetric_wavelet_forward`: the harmonic
      coefficient times the scaled conjugate of the order-0 wavelet
      coefficient of its degree, and zero at or beyond `L^2`. */
  function ForwardEntry(sqrt: real -> real, L: nat, flm: seq<Complex>, wavelets: seq<seq<Complex>>, n: nat, j: nat, ind: nat): Complex
    requires Sq(L) <= n && Sq(L) <= |flm| && Width(wavelets, n) && j < |wavelets| && ind < n
  {
    if ind < Sq(L) then
      ZeroOrderBelow(L, ind);
      Mul(Scale(Scaling(sqrt, Ell(ind)), Conj(wavelets[j][ZeroOrder(ind)])), flm[ind])
    else Zero
  }

  function ForwardMatrix(sqrt: real -> real, L: nat, flm: seq<Complex>, wavelets: seq<seq<Complex>>, n: nat): (w: seq<seq<Complex>>)
    requires Sq(L) <= n && Sq(L) <= |flm| && Width(wavelets, n)
    ensures |w| == |wavelets| && Width(w, n)
    ensures forall j, ind | 0 <= j < |wavelets| && 0 <= ind < n :: w[j][ind] == ForwardEntry(sqrt, L, flm, wavelets, n, j, ind)
  {
    seq(|wavelets|, j requires 0 <= j < |wavelets| =>
      seq(n, ind requires 0 <= ind < n => ForwardEntry(sqrt, L, flm, wavelets, n, j, ind)))
  }

  /** `flm[ind]` after `axisymmetric_wavelet_inverse`: the sum over scales
      of the coefficient times the scaled order-0 wavelet coefficient. */
  function InverseEntry(sqrt: real -> real, L: nat, wavCoeffs: seq<seq<Complex>>, wavelets: seq<seq<Complex>>, n: nat, ind: nat): Complex
    requires Sq(L) <= n && Width(wavelets, n) && Width(wavCoeffs, n) && |wavCoeffs| == |wavelets| && ind < Sq(L)
  {
    CSum(InverseTerms(sqrt, L, wavCoeffs, wavelets, n, ind))
  }

  /** The terms of that sum, one per scale. */
  function InverseTerms(sqrt: real -> real, L: nat, wavCoeffs: seq<seq<Complex>>, wavelets: seq<seq<Complex>>, n: nat, ind: nat)
    : (t: seq<Complex>)
    requires Sq(L) <= n && Width(wavelets, n) && Width(wavCoeffs, n) && |wavCoeffs| == |wavelets| && ind < Sq(L)
    ensures |t| == |wavCoeffs|
  {
    ZeroOrderBelow(L, ind);
    seq(|wavCoeffs|, j requires 0 <= j < |wavCoeffs| =>
      Mul(wavCoeffs[j][ind], Scale(Scaling(sqrt, Ell(ind)), wavelets[j][ZeroOrder(ind)])))
  }

  /** Both transforms read the wavelets only in their order-0 columns. */
  lemma TransformsReadOnlyOrderZero(sqrt: real -> real, L: nat, flm: seq<Complex>, wavCoeffs: seq<seq<Complex>>,
                                    v: seq<seq<Complex>>, u: seq<seq<Complex>>, n: nat, ind: nat)
    requires Sq(L) <= n && Sq(L) <= |flm| && Width(v, n) && Width(u, n) && |v| == |u|
    requires Width(wavCoeffs, n) && |wavCoeffs| == |v| && ind < Sq(L)
    requires forall j, k | 0 <= j < |v| && 0 <= k < Sq(L) && M(k) == 0 :: v[j][k] == u[j][k]
    ensures forall j | 0 <= j < |v| :: ForwardEntry(sqrt, L, flm, v, n, j, ind) == ForwardEntry(sqrt, L, flm, u, n, j, ind)
    ensures InverseEntry(sqrt, L, wavCoeffs, v, n, ind) == InverseEntry(sqrt, L, wavCoeffs, u, n, ind)
  {
    ZeroOrderBelow(L, ind);
    var c := Scaling(sqrt, Ell(ind));
    var k0 := ZeroOrder(ind);
    assert seq(|wavCoeffs|, j requires 0 <= j < |wavCoeffs| => Mul(wavCoeffs[j][ind], Scale(c, v[j][k0])))
        == seq(|wavCoeffs|, j requires 0 <= j < |wavCoeffs| => Mul(wavCoeffs[j][ind], Scale(c, u[j][k0])));
  }

  /** `w[:, ind] = column`, one column of a two-dimensional array. */
  method SetColumn(w: array2<Complex>, c: nat, column: seq<Complex>)
    requires c < w.Length1 && |column| == w.Length0
    modifies w
    ensures forall r, k | 0 <= r < w.Length0 && 0 <= k < w.Length1 ::
      w[r, k] == if k == c then column[r] else old(w[r, k])
  {
    var r := 0;
    while r < w.Length0
      invariant 0 <= r <= w.Length0
      invariant forall q, k | 0 <= q < w.Length0 && 0 <= k < w.Length1 ::
        w[q, k] == if k == c && q < r then column[q] else old(w[q, k])
    {
      w[r, c] := column[r];
      r := r + 1;
    }
  }

  /** The index after the last order of degree `ell`. */
  lemma DegreeEnd(ell: nat)
    ensures Ind(ell, ell) + 1 == Sq(ell + 1)
  {
  }

  lemma RangeStep(k: nat)
    ensures ParallelMethods.Range(0, k) + [k] == ParallelMethods.Range(0, k + 1)
  {
    ParallelMethods.RangeAppend(0, k, k + 1);
    assert ParallelMethods.Range(k, k + 1) == [k];
  }

  /** One column of the forward transform: `w[:, ind] = wav_0 * flm[ind]`
      extends the columns already written by one. */
  method ForwardColumn(sqrt: real -> real, L: nat, flm: seq<Complex>, wavelets: seq<seq<Complex>>, n: nat,
                       w: array2<Complex>, ind: nat, wav0: seq<Complex>)
    requires Sq(L) <= n && Sq(L) <= |flm| && Width(wavelets, n) && ind < Sq(L)
    requires w.Length0 == |wavelets| && w.Length1 == n && |wav0| == |wavelets| && ZeroOrder(ind) < n
    requires forall j | 0 <= j < |wavelets| :: wav0[j] == Scale(Scaling(sqrt, Ell(ind)), Conj(wavelets[j][ZeroOrder(ind)]))
    requires forall j, k | 0 <= j < |wavelets| && 0 <= k < n ::
      w[j, k] == if k < ind then ForwardEntry(sqrt, L, flm, wavelets, n, j, k) else Zero
    modifies w
    ensures forall j, k | 0 <= j < |wavelets| && 0 <= k < n ::
      w[j, k] == if k < ind + 1 then ForwardEntry(sqrt, L, flm, wavelets, n, j, k) else Zero
  {
    SetColumn(w, ind, seq(|wavelets|, j requires 0 <= j < |wavelets| => Mul(wav0[j], flm[ind])));
  }

  /** `axisymmetric_wavelet_forward(L, flm, wavelets)`. The ghost `visited`
      lists the columns written, in order: every index below `L^2` once. */
  method AxisymmetricWaveletForward(sqrt: real -> real, L: nat, flm: seq<Complex>, wavelets: seq<seq<Complex>>, n: nat)
    returns (w: array2<Complex>, ghost visited: seq<nat>)
    requires Sq(L) <= n && Sq(L) <= |flm| && Width(wavelets, n)
    ensures fresh(w) && w.Length0 == |wavelets| && w.Length1 == n
    ensures forall j, ind | 0 <= j < |wavelets| && 0 <= ind < n :: w[j, ind] == ForwardEntry(sqrt, L, flm, wavelets, n, j, ind)
    ensures visited == ParallelMethods.Range(0, Sq(L))
  {
    w := new Complex[|wavelets|, n]((_, _) => Zero);
    visited := [];
    var ell: nat := 0;
    while ell < L
      invariant ell <= L && Sq(ell) <= Sq(L)
      invariant visited == ParallelMethods.Range(0, Sq(ell))
      invariant forall j, k | 0 <= j < |wavelets| && 0 <= k < n ::
        w[j, k] == if k < Sq(ell) then ForwardEntry(sqrt, L, flm, wavelets, n, j, k) else Zero
    {
      SqMonotone(ell + 1, L);
      SqMonotone(ell, ell + 1);
      visited := ForwardDegree(sqrt, L, flm, wavelets, n, w, ell, visited);
      ell := ell + 1;
    }
  }

  /** The columns of one degree of the forward transform, order by
      order. */
  method ForwardDegree(sqrt: real -> real, L: nat, flm: seq<Complex>, wavelets: seq<seq<Complex>>, n: nat,
                       w: array2<Complex>, ell: nat, ghost visited: seq<nat>)
    returns (ghost visited': seq<nat>)
    requires Sq(L) <= n && Sq(L) <= |flm| && Width(wavelets, n)
    requires w.Length0 == |wavelets| && w.Length1 == n && ell < L && Sq(ell) <= Sq(ell + 1) <= Sq(L)
    requires visited == ParallelMethods.Range(0, Sq(ell))
    requires forall j, k | 0 <= j < |wavelets| && 0 <= k < n ::
      w[j, k] == if k < Sq(ell) then ForwardEntry(sqrt, L, flm, wavelets, n, j, k) else Zero
    modifies w
    ensures visited' == ParallelMethods.Range(0, Sq(ell + 1))
    ensures forall j, k | 0 <= j < |wavelets| && 0 <= k < n ::
      w[j, k] == if k < Sq(ell + 1) then ForwardEntry(sqrt, L, flm, wavelets, n, j, k) else Zero
  {
    var indM0 := Ind(ell, 0);
    var wav0 := seq(|wavelets|, j requires 0 <= j < |wavelets| => Scale(Scaling(sqrt, ell), Conj(wavelets[j][indM0])));
    visited' := visited;
    var m: int := -(ell as int);
    while m <= ell
      invariant -(ell as int) <= m <= ell + 1 && Sq(ell) + ell + m <= Sq(L)
      invariant visited' == ParallelMethods.Range(0, Sq(ell) + ell + m)
      invariant forall j, k | 0 <= j < |wavelets| && 0 <= k < n ::
        w[j, k] == if k < Sq(ell) + ell + m then ForwardEntry(sqrt, L, flm, wavelets, n, j, k) else Zero
    {
      var ind := Ind(ell, m);
      IndRoundTrip(ell, m);
      ZeroOrderBelow(L, ind);
      ForwardColumn(sqrt, L, flm, wavelets, n, w, ind, wav0);
      RangeStep(ind);
      visited' := visited' + [ind];
      m := m + 1;
    }
    DegreeEnd(ell);
  }

  /** One coefficient of the inverse transform:
      `flm[ind] = (wav_coeffs[:, ind] * wav_0).sum()` extends the
      coefficients already written by one. */
  method InverseCoefficient(sqrt: real -> real, L: nat, wavCoeffs: seq<seq<Complex>>, wavelets: seq<seq<Complex>>, n: nat,
                            flm: array<Complex>, ind: nat, wav0: seq<Complex>)
    requires Sq(L) <= n && Width(wavelets, n) && Width(wavCoeffs, n) && |wavCoeffs| == |wavelets|
    requires flm.Length == Sq(L) && ind < Sq(L) && |wav0| == |wavelets| && ZeroOrder(ind) < n
    requires forall j | 0 <= j < |wavelets| :: wav0[j] == Scale(Scaling(sqrt, Ell(ind)), wavelets[j][ZeroOrder(ind)])
    requires forall k | 0 <= k < ind :: flm[k] == InverseEntry(sqrt, L, wavCoeffs, wavelets, n, k)
    modifies flm
    ensures forall k | 0 <= k < ind + 1 :: flm[k] == InverseEntry(sqrt, L, wavCoeffs, wavelets, n, k)
  {
    var terms := seq(|wavCoeffs|, j requires 0 <= j < |wavCoeffs| => Mul(wavCoeffs[j][ind], wav0[j]));
    assert terms == InverseTerms(sqrt, L, wavCoeffs, wavelets, n, ind);
    flm[ind] := CSum(terms);
  }

  /** The coefficients of one degree of the inverse transform, order by
      order. */
  method InverseDegree(sqrt: real -> real, L: nat, wavCoeffs: seq<seq<Complex>>, wavelets: seq<seq<Complex>>, n: nat,
                       flm: array<Complex>, ell: nat, ghost visited: seq<nat>)
    returns (ghost visited': seq<nat>)
    requires Sq(L) <= n && Width(wavelets, n) && Width(wavCoeffs, n) && |wavCoeffs| == |wavelets|
    requires flm.Length == Sq(L) && ell < L && Sq(ell) <= Sq(ell + 1) <= Sq(L)
    requires visited == ParallelMethods.Range(0, Sq(ell))
    requires forall k | 0 <= k < Sq(ell) :: flm[k] == InverseEntry(sqrt, L, wavCoeffs, wavelets, n, k)
    modifies flm
    ensures visited' == ParallelMethods.Range(0, Sq(ell + 1))
    ensures forall k | 0 <= k < Sq(ell + 1) :: flm[k] == InverseEntry(sqrt, L, wavCoeffs, wavelets, n, k)
  {
    var indM0 := Ind(ell, 0);
    var wav0 := seq(|wavelets|, j requires 0 <= j < |wavelets| => Scale(Scaling(sqrt, ell), wavelets[j][indM0]));
    visited' := visited;
    var m: int := -(ell as int);
    while m <= ell
      invariant -(ell as int) <= m <= ell + 1 && Sq(ell) + ell + m <= Sq(L)
      invariant visited' == ParallelMethods.Range(0, Sq(ell) + ell + m)
      invariant forall k | 0 <= k < Sq(ell) + ell + m :: flm[k] == InverseEntry(sqrt, L, wavCoeffs, wavelets, n, k)
    {
      var ind := Ind(ell, m);
      IndRoundTrip(ell, m);
      ZeroOrderBelow(L, ind);
      InverseCoefficient(sqrt, L, wavCoeffs, wavelets, n, flm, ind, wav0);
      RangeStep(ind);
      visited' := visited' + [ind];
      m := m + 1;
    }
    DegreeEnd(ell);
  }

  /** `axisymmetric_wavelet_inverse(L, wav_coeffs, wavelets)`, writing
      every index below `L^2` once, in order. */
  method AxisymmetricWaveletInverse(sqrt: real -> real, L: nat, wavCoeffs: seq<seq<Complex>>, wavelets: seq<seq<Complex>>, n: nat)
    returns (flm: array<Complex>, ghost visited: seq<nat>)
    requires Sq(L) <= n && Width(wavelets, n) && Width(wavCoeffs, n) && |wavCoeffs| == |wavelets|
    ensures fresh(flm) && flm.Length == Sq(L)
    ensures forall ind | 0 <= ind < Sq(L) :: flm[ind] == InverseEntry(sqrt, L, wavCoeffs, wavelets, n, ind)
    ensures visited == ParallelMethods.Range(0, Sq(L))
  {
    flm := new Complex[Sq(L)](_ => Zero);
    visited := [];
    var ell: nat := 0;
    while ell < L
      invariant ell <= L && Sq(ell) <= Sq(L)
      invariant visited == ParallelMethods.Range(0, Sq(ell))
      invariant forall k | 0 <= k < Sq(ell) :: flm[k] == InverseEntry(sqrt, L, wavCoeffs, wavelets, n, k)
    {
      SqMonotone(ell + 1, L);
      SqMonotone(ell, ell + 1);
      visited := InverseDegree(sqrt, L, wavCoeffs, wavelets, n, flm, ell, visited);
      ell := ell + 1;
    }
  }

  /** The number of scales of `axisym_wav_l`: the columns of `kappa`. */
  function Scales(kappa: seq<seq<real>>): nat {
    if kappa == [] then 0 else |kappa[0]|
  }

  /** What `axisym_wav_l(B, xlim, j_min)` returns: a scaling function of
      length `xlim` and an `xlim` by scales array of wavelet functions. */
  predicate KappaShaped(k: (seq<real>, seq<seq<real>>), xlim: nat) {
    |k.0| == xlim && |k.1| == xlim && Width(k.1, Scales(k.1))
  }

  /** `create_kappas(xlim, B, j_min)`: row 0 is the scaling function and
      row `j + 1` the wavelet function of scale `j`, each over `xlim`
      points. */
  function CreateKappas(xlim: nat, B: int, jMin: int, axisymWavL: (int, nat, int) -> (seq<real>, seq<seq<real>>)): (kappas: seq<seq<real>>)
    requires KappaShaped(axisymWavL(B, xlim, jMin), xlim)
    ensures var (kappa0, kappa) := axisymWavL(B, xlim, jMin);
      && |kappas| == Scales(kappa) + 1 && Width(kappas, xlim)
      && kappas[0] == kappa0
      && forall j | 0 <= j < Scales(kappa) :: kappas[j + 1] == Column(kappa, j)
  {
    var (kappa0, kappa) := axisymWavL(B, xlim, jMin);
    var J := Scales(kappa);
    var rows := ColumnsAsRows(kappa, ParallelMethods.Range(0, J), J);
    assert forall j | 0 <= j < J :: rows[j] == Column(kappa, j);
    [kappa0] + rows
  }

  /** The entry `_create_axisymmetric_wavelets` leaves at `[j, ind]`: the
      kappa of scale `j` at the degree, rescaled, in order-0 columns only. */
  function CreatedEntry(sqrt: real -> real, L: nat, kappas: seq<seq<real>>, j: nat, ind: nat): Complex
    requires j < |kappas| && Width(kappas, L) && ind < Sq(L)
  {
    if M(ind) == 0 then
      ZeroOrderBelow(L, ind);
      Scale(InverseScaling(sqrt, Ell(ind)), Of(kappas[j][Ell(ind)]))
    else Zero
  }

  function Created(sqrt: real -> real, L: nat, kappas: seq<seq<real>>): (w: seq<seq<Complex>>)
    requires Width(kappas, L)
    ensures |w| == |kappas| && Width(w, Sq(L))
    ensures forall j, ind | 0 <= j < |kappas| && 0 <= ind < Sq(L) :: w[j][ind] == CreatedEntry(sqrt, L, kappas, j, ind)
  {
    seq(|kappas|, j requires 0 <= j < |kappas| =>
      seq(Sq(L), ind requires 0 <= ind < Sq(L) => CreatedEntry(sqrt, L, kappas, j, ind)))
  }

  /** One pass of `_create_axisymmetric_wavelets`' loop: the column
      `ind(ell, 0)` of every row gets its scaled kappa value. */
  method CreateDegree(sqrt: real -> real, L: nat, kappas: seq<seq<real>>, wavelets: array2<Complex>, ell: nat)
    requires Width(kappas, L) && ell < L
    requires wavelets.Length0 == |kappas| && wavelets.Length1 == Sq(L)
    requires forall j, k | 0 <= j < |kappas| && 0 <= k < Sq(L) ::
      wavelets[j, k] == if Ell(k) < ell then CreatedEntry(sqrt, L, kappas, j, k) else Zero
    modifies wavelets
    ensures forall j, k | 0 <= j < |kappas| && 0 <= k < Sq(L) ::
      wavelets[j, k] == if Ell(k) < ell + 1 then CreatedEntry(sqrt, L, kappas, j, k) else Zero
  {
    SqMonotone(ell + 1, L);
    var factor := InverseScaling(sqrt, ell);
    var ind := Ind(ell, 0);
    IndRoundTrip(ell, 0);
    SetColumn(wavelets, ind, seq(|kappas|, j requires 0 <= j < |kappas| => Scale(factor, Of(kappas[j][ell]))));
    forall j, k | 0 <= j < |kappas| && 0 <= k < Sq(L)
      ensures wavelets[j, k] == if Ell(k) < ell + 1 then CreatedEntry(sqrt, L, kappas, j, k) else Zero
    {
      if k == ind {
      } else if Ell(k) == ell {
        assert M(k) != 0 by { assert Ind(Ell(k), M(k)) == k; }
      }
    }
  }

  /** `_create_axisymmetric_wavelets(L, B, j_min)`: one row per kappa,
      written degree by degree in the order-0 columns. */
  method CreateAxisymmetricWavelets(sqrt: real -> real, L: nat, B: int, jMin: int,
                                    axisymWavL: (int, nat, int) -> (seq<real>, seq<seq<real>>))
    returns (wavelets: array2<Complex>)
    requires KappaShaped(axisymWavL(B, L, jMin), L)
    ensures var kappas := CreateKappas(L, B, jMin, axisymWavL);
      && fresh(wavelets) && wavelets.Length0 == |kappas| && wavelets.Length1 == Sq(L)
      && forall j, ind | 0 <= j < |kappas| && 0 <= ind < Sq(L) :: wavelets[j, ind] == CreatedEntry(sqrt, L, kappas, j, ind)
  {
    var kappas := CreateKappas(L, B, jMin, axisymWavL);
    wavelets := new Complex[|kappas|, Sq(L)]((_, _) => Zero);
    var ell: nat := 0;
    while ell < L
      invariant ell <= L
      invariant forall j, ind | 0 <= j < |kappas| && 0 <= ind < Sq(L) ::
        wavelets[j, ind] == if Ell(ind) < ell then CreatedEntry(sqrt, L, kappas, j, ind) else Zero
    {
      CreateDegree(sqrt, L, kappas, wavelets, ell);
      ell := ell + 1;
    }
    forall ind | 0 <= ind < Sq(L) ensures Ell(ind) < L {
      BelowBandlimit(L, ind);
    }
  }

  /** The created wavelets are zero outside the order-0 columns. */
  lemma CreatedSupport(sqrt: real -> real, L: nat, kappas: seq<seq<real>>, j: nat, ind: nat)
    requires j < |kappas| && Width(kappas, L) && ind < Sq(L)
    ensures Ell(ind) < L
    ensures M(ind) != 0 ==> Created(sqrt, L, kappas)[j][ind] == Zero
    ensures M(ind) == 0 ==> Created(sqrt, L, kappas)[j][ind] == Scale(InverseScaling(sqrt, Ell(ind)), Of(kappas[j][Ell(ind)]))
  {
    ZeroOrderBelow(L, ind);
  }

  function Square(x: real): real {
    x * x
  }

  /** The sum over scales of the squared kappas at degree `ell`. */
  function SumSquares(kappas: seq<seq<real>>, ell: nat): real
    requires forall j | 0 <= j < |kappas| :: ell < |kappas[j]|
  {
    Sum(seq(|kappas|, j requires 0 <= j < |kappas| => Square(kappas[j][ell])))
  }

  /** One scale's contribution to the round trip: a coefficient taken
      against the conjugate of a rescaled kappa and multiplied back by the
      same rescaled kappa gives the squared kappa times the coefficient. */
  lemma TermOfRoundTrip(sqrt: real -> real, ell: nat, forward: Complex, wk: Complex, kappa: real, f: Complex)
    requires IsSqrt(sqrt)
    requires wk == Scale(InverseScaling(sqrt, ell), Of(kappa))
    requires forward == Mul(Scale(Scaling(sqrt, ell), Conj(wk)), f)
    ensures Mul(forward, Scale(Scaling(sqrt, ell), wk)) == Scale(Square(kappa), f)
  {
    var c, d := Scaling(sqrt, ell), InverseScaling(sqrt, ell);
    ScalingsCancel(sqrt, ell);
    assert c * (d * kappa) == (c * d) * kappa;
    assert Scale(c, Conj(wk)) == Of(kappa);
    assert Scale(c, wk) == Of(kappa);
  }

  lemma {:induction false} CSumOfScaled(k: seq<real>, f: Complex, u: seq<Complex>)
    requires |u| == |k| && forall j | 0 <= j < |u| :: u[j] == Scale(k[j], f)
    ensures CSum(u) == Scale(Sum(k), f)
  {
    if u != [] {
      var n := |u| - 1;
      CSumOfScaled(k[..n], f, u[..n]);
      assert Sum(k) == Sum(k[..n]) + k[n];
      assert (Sum(k[..n]) + k[n]) * f.re == Sum(k[..n]) * f.re + k[n] * f.re;
      assert (Sum(k[..n]) + k[n]) * f.im == Sum(k[..n]) * f.im + k[n] * f.im;
    }
  }

  lemma CreatedEntryAt(sqrt: real -> real, L: nat, kappas: seq<seq<real>>, ind: nat, k0: nat, j: nat)
    requires Width(kappas, L) && k0 < Sq(L) && j < |kappas|
    requires M(k0) == 0 && Ell(k0) == Ell(ind) && Ell(ind) < L
    ensures CreatedEntry(sqrt, L, kappas, j, k0) == Scale(InverseScaling(sqrt, Ell(ind)), Of(kappas[j][Ell(ind)]))
  {
  }

  /** The created wavelet in the order-0 column of a degree. */
  lemma CreatedAtZeroOrder(sqrt: real -> real, L: nat, kappas: seq<seq<real>>, ind: nat, j: nat)
    requires Width(kappas, L) && ind < Sq(L) && j < |kappas|
    ensures Ell(ind) < L && ZeroOrder(ind) < Sq(L)
    ensures Created(sqrt, L, kappas)[j][ZeroOrder(ind)] == Scale(InverseScaling(sqrt, Ell(ind)), Of(kappas[j][Ell(ind)]))
  {
    ZeroOrderBelow(L, ind);
    CreatedEntryAt(sqrt, L, kappas, ind, ZeroOrder(ind), j);
  }

  /** The forward coefficient at `[j, ind]` below the bandlimit. */
  lemma ForwardAt(sqrt: real -> real, L: nat, flm: seq<Complex>, wavelets: seq<seq<Complex>>, n: nat, j: nat, ind: nat)
    requires Sq(L) <= n && Sq(L) <= |flm| && Width(wavelets, n) && j < |wavelets| && ind < Sq(L)
    ensures Ell(ind) < L && ZeroOrder(ind) < Sq(L)
    ensures ForwardMatrix(sqrt, L, flm, wavelets, n)[j][ind]
      == Mul(Scale(Scaling(sqrt, Ell(ind)), Conj(wavelets[j][ZeroOrder(ind)])), flm[ind])
  {
    ZeroOrderBelow(L, ind);
    assert ForwardMatrix(sqrt, L, flm, wavelets, n)[j][ind] == ForwardEntry(sqrt, L, flm, wavelets, n, j, ind);
  }

  /** Scale `j` of the round trip at `ind`: the forward coefficient times
      the scaled order-0 wavelet is the squared kappa times `flm[ind]`. */
  lemma RoundTripTerm(sqrt: real -> real, L: nat, kappas: seq<seq<real>>, flm: seq<Complex>, ind: nat, j: nat)
    requires IsSqrt(sqrt) && Width(kappas, L) && Sq(L) <= |flm| && ind < Sq(L) && j < |kappas|
    ensures Ell(ind) < L && ZeroOrder(ind) < Sq(L)
    ensures Mul(ForwardMatrix(sqrt, L, flm, Created(sqrt, L, kappas), Sq(L))[j][ind],
                Scale(Scaling(sqrt, Ell(ind)), Created(sqrt, L, kappas)[j][ZeroOrder(ind)]))
        == Scale(Square(kappas[j][Ell(ind)]), flm[ind])
  {
    var W := Created(sqrt, L, kappas);
    CreatedAtZeroOrder(sqrt, L, kappas, ind, j);
    ForwardAt(sqrt, L, flm, W, Sq(L), j, ind);
    TermOfRoundTrip(sqrt, Ell(ind), ForwardMatrix(sqrt, L, flm, W, Sq(L))[j][ind], W[j][ZeroOrder(ind)],
                    kappas[j][Ell(ind)], flm[ind]);
  }

  /** For wavelets built by `_create_axisymmetric_wavelets`, the inverse of
      the forward transform multiplies every coefficient by the sum over
      scales of the squared kappas of its degree. */
  lemma RoundTrip(sqrt: real -> real, L: nat, kappas: seq<seq<real>>, flm: seq<Complex>, ind: nat)
    requires IsSqrt(sqrt) && Width(kappas, L) && Sq(L) <= |flm| && ind < Sq(L)
    ensures Ell(ind) < L
    ensures var W := Created(sqrt, L, kappas);
      InverseEntry(sqrt, L, ForwardMatrix(sqrt, L, flm, W, Sq(L)), W, Sq(L), ind)
        == Scale(SumSquares(kappas, Ell(ind)), flm[ind])
  {
    var W := Created(sqrt, L, kappas);
    var wc := ForwardMatrix(sqrt, L, flm, W, Sq(L));
    ZeroOrderBelow(L, ind);
    var ell, k0 := Ell(ind), ZeroOrder(ind);
    var c := Scaling(sqrt, ell);
    var terms := seq(|wc|, j requires 0 <= j < |wc| => Mul(wc[j][ind], Scale(c, W[j][k0])));
    assert InverseEntry(sqrt, L, wc, W, Sq(L), ind) == CSum(terms);
    var squares := seq(|kappas|, j requires 0 <= j < |kappas| => Square(kappas[j][ell]));
    forall j | 0 <= j < |terms| ensures terms[j] == Scale(squares[j], flm[ind]) {
      RoundTripTerm(sqrt, L, kappas, flm, ind, j);
    }
    CSumOfScaled(squares, flm[ind], terms);
  }

  /** When the kappas square-sum to one at every degree (a tight frame),
      the inverse undoes the forward transform. */
  lemma TightFrameRoundTrip(sqrt: real -> real, L: nat, kappas: seq<seq<real>>, flm: seq<Complex>, ind: nat)
    requires IsSqrt(sqrt) && Width(kappas, L) && Sq(L) <= |flm| && ind < Sq(L)
    requires forall ell | 0 <= ell < L :: SumSquares(kappas, ell) == 1.0
    ensures var W := Created(sqrt, L, kappas);
      InverseEntry(sqrt, L, ForwardMatrix(sqrt, L, flm, W, Sq(L)), W, Sq(L), ind) == flm[ind]
  {
    RoundTrip(sqrt, L, kappas, flm, ind);
    ZeroOrderBelow(L, ind);
  }

  /** `row.any()`: some entry differs from zero. */
  predicate AnyNonZero<T(==)>(row: seq<T>, zero: T) {
    exists k | 0 <= k < |row| :: row[k] != zero
  }

  /** The indices of the rows with a non-zero entry, in order. */
  function KeptRows<T(==)>(m: seq<seq<T>>, zero: T): (idx: seq<nat>)
    ensures forall p | 0 <= p < |idx| :: idx[p] < |m|
  {
    if m == [] then []
    else KeptRows(m[..|m| - 1], zero) + if AnyNonZero(m[|m| - 1], zero) then [|m| - 1] else []
  }

  /** `wav_coeffs[wav_coeffs.any(axis=1)]`: the rows with a non-zero entry. */
  function FindNonZeroWaveletCoefficients<T(==)>(m: seq<seq<T>>, zero: T): (r: seq<seq<T>>)
    ensures var idx := KeptRows(m, zero);
      |r| == |idx| && forall p | 0 <= p < |r| :: r[p] == m[idx[p]]
  {
    var idx := KeptRows(m, zero);
    seq(|idx|, p requires 0 <= p < |idx| => m[idx[p]])
  }

  /** The kept rows are exactly those with a non-zero entry, in their
      original order. */
  lemma {:induction false} KeptRowsExactly<T>(m: seq<seq<T>>, zero: T)
    ensures var idx := KeptRows(m, zero);
      && (forall p, q | 0 <= p < q < |idx| :: idx[p] < idx[q])
      && (forall i | 0 <= i < |m| :: i in idx <==> AnyNonZero(m[i], zero))
  {
    if m != [] {
      var init := m[..|m| - 1];
      KeptRowsExactly(init, zero);
      forall i | 0 <= i < |init| ensures m[i] == init[i] { }
    }
  }

  /** Every row kept holds a non-zero entry. */
  lemma FindNonZeroKeepsNonZero<T>(m: seq<seq<T>>, zero: T)
    ensures var r := FindNonZeroWaveletCoefficients(m, zero);
      forall p | 0 <= p < |r| :: AnyNonZero(r[p], zero)
  {
    KeptRowsExactly(m, zero);
    var idx := KeptRows(m, zero);
    forall p | 0 <= p < |idx| ensures AnyNonZero(m[idx[p]], zero) {
      assert idx[p] in idx;
    }
  }

  /** `slepian_wavelet_forward(f_p, wavelets, shannon)`: the sifting
      convolution of each wavelet with the coefficients, all-zero scales
      dropped. */
  function SlepianWaveletForward(fp: seq<Complex>, wavelets: seq<seq<Complex>>, shannon: nat,
                                 sifting: (seq<seq<Complex>>, seq<Complex>, nat) -> seq<seq<Complex>>): (r: seq<seq<Complex>>)
    ensures forall p | 0 <= p < |r| :: AnyNonZero(r[p], Zero)
    ensures var idx := KeptRows(sifting(wavelets, fp, shannon), Zero);
      |r| == |idx| && forall p | 0 <= p < |r| :: r[p] == sifting(wavelets, fp, shannon)[idx[p]]
  {
    FindNonZeroKeepsNonZero(sifting(wavelets, fp, shannon), Zero);
    FindNonZeroWaveletCoefficients(sifting(wavelets, fp, shannon), Zero)
  }

  /** `wav_coeffs.T`. */
  function Transpose(m: seq<seq<Complex>>, n: nat): (t: seq<seq<Complex>>)
    requires Width(m, n)
    ensures |t| == n && Width(t, |m|)
    ensures forall k, j | 0 <= k < n && 0 <= j < |m| :: t[k][j] == m[j][k]
  {
    seq(n, k requires 0 <= k < n => seq(|m|, j requires 0 <= j < |m| => m[j][k]))
  }

  /** `.sum(axis=0)` of a matrix with `n` columns. */
  function ColumnSums(m: seq<seq<Complex>>, n: nat): (s: seq<Complex>)
    requires Width(m, n)
    ensures |s| == n && forall k | 0 <= k < n :: s[k] == CSum(Column(m, k))
  {
    seq(n, k requires 0 <= k < n => CSum(Column(m, k)))
  }

  /** `slepian_wavelet_inverse(wav_coeffs, wavelets, shannon)`: the sifting
      convolution of the leading `len(wav_coeffs)` wavelets with the
      transposed coefficients, summed over scales. */
  function SlepianWaveletInverse(wavCoeffs: seq<seq<Complex>>, wavelets: seq<seq<Complex>>, n: nat, shannon: nat,
                                 sifting: (seq<seq<Complex>>, seq<seq<Complex>>, nat) -> seq<seq<Complex>>): (r: seq<Complex>)
    requires Width(wavCoeffs, n)
    requires Width(sifting(Storage.Take(wavelets, |wavCoeffs|), Transpose(wavCoeffs, n), shannon), n)
    ensures |r| == n
    ensures forall k | 0 <= k < n ::
      r[k] == CSum(Column(sifting(Storage.Take(wavelets, |wavCoeffs|), Transpose(wavCoeffs, n), shannon), k))
  {
    ColumnSums(sifting(Storage.Take(wavelets, |wavCoeffs|), Transpose(wavCoeffs, n), shannon), n)
  }

  /** The inverse ignores every wavelet beyond the number of coefficient
      rows, such as the scales the forward transform dropped. */
  lemma InverseUsesLeadingWavelets(wavCoeffs: seq<seq<Complex>>, v: seq<seq<Complex>>, u: seq<seq<Complex>>, n: nat, shannon: nat,
                                   sifting: (seq<seq<Complex>>, seq<seq<Complex>>, nat) -> seq<seq<Complex>>)
    requires Width(wavCoeffs, n) && |wavCoeffs| <= |v| && |wavCoeffs| <= |u| && v[..|wavCoeffs|] == u[..|wavCoeffs|]
    requires Width(sifting(Storage.Take(v, |wavCoeffs|), Transpose(wavCoeffs, n), shannon), n)
    ensures Width(sifting(Storage.Take(u, |wavCoeffs|), Transpose(wavCoeffs, n), shannon), n)
    ensures SlepianWaveletInverse(wavCoeffs, v, n, shannon, sifting) == SlepianWaveletInverse(wavCoeffs, u, n, shannon, sifting)
  {
    assert Storage.Take(v, |wavCoeffs|) == Storage.Take(u, |wavCoeffs|);
  }
}
