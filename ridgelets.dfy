/** Ridgelets: wavelets of `create_kappas(L, B, j_min)` multiplied by the
    ring of spin `spin` in harmonic space. The ring lives in the order-0
    coefficients of the degrees from `|spin|` up, so every ridgelet does
    too. The fields sit behind property setters that substitute the class
    defaults for an unspecified value, and the `j` setter validates. The
    ring's value at a degree (a `gammaln` formula) is a parameter. */
module Ridgelets {
  import opened ComplexNumbers
  import opened Errors
  import opened Numerics
  import opened HarmonicIndex
  import opened EigenMethods
  import opened WaveletScales
  import WaveletMethods
  import ArrayMethods

  /** The class defaults behind the setters. */
  const DefaultB := 2
  const DefaultJMin := 3
  const DefaultSpin := 2

  /** `abs(spin)`. */
  function Abs(x: int): nat {
    if x < 0 then -x else x
  }

  /** The entry `_compute_ring` leaves at `ind`: the ring's value in the
      order-0 coefficient of each degree from `|spin|` below `L`, zero
      everywhere else. */
  function RingEntry(spin: int, ringValue: (nat, int) -> real, ind: nat): Complex {
    if M(ind) == 0 && Abs(spin) <= Ell(ind) then Of(ringValue(Ell(ind), spin)) else Zero
  }

  /** `kappas[0, ell] * ring` for the scaling function and
      `kappas[j, ell] * ring / sqrt(2 pi)` for the wavelets. */
  function Weighted(sqrt: real -> real, r: nat, kappa: real, ring: Complex): Complex
    requires IsSqrt(sqrt)
  {
    SqrtPositive(sqrt, 2.0 * Pi);
    if r == 0 then Scale(kappa, ring) else Scale(1.0 / sqrt(2.0 * Pi), Scale(kappa, ring))
  }

  /** The entry `_create_wavelets` leaves at `[r, ind]`: the weighted
      ring in the order-0 columns, zero in the others. */
  function RidgeletEntry(sqrt: real -> real, L: nat, spin: int, kappas: seq<seq<real>>,
                         ringValue: (nat, int) -> real, r: nat, ind: nat): Complex
    requires IsSqrt(sqrt) && Width(kappas, L) && r < |kappas| && ind < Sq(L)
  {
    BelowBandlimit(L, ind);
    if M(ind) == 0 then Weighted(sqrt, r, kappas[r][Ell(ind)], RingEntry(spin, ringValue, ind)) else Zero
  }

  /** A ridgelet is zero outside the order-0 coefficients of the degrees
      from `|spin|` up. */
  lemma RidgeletSupport(sqrt: real -> real, L: nat, spin: int, kappas: seq<seq<real>>,
                        ringValue: (nat, int) -> real, r: nat, ind: nat)
    requires IsSqrt(sqrt) && Width(kappas, L) && r < |kappas| && ind < Sq(L)
    requires M(ind) != 0 || Ell(ind) < Abs(spin)
    ensures RidgeletEntry(sqrt, L, spin, kappas, ringValue, r, ind) == Zero
  {
    BelowBandlimit(L, ind);
    if M(ind) == 0 {
      assert RingEntry(spin, ringValue, ind) == Zero;
      var kappa := kappas[r][Ell(ind)];
      assert Scale(kappa, Zero) == Zero;
    }
  }

  lemma EntryAtZeroOrder(sqrt: real -> real, L: nat, spin: int, kappas: seq<seq<real>>,
                         ringValue: (nat, int) -> real, r: nat, ell: nat)
    requires IsSqrt(sqrt) && Width(kappas, L) && r < |kappas| && ell < L
    ensures Ind(ell, 0) < Sq(L)
    ensures RidgeletEntry(sqrt, L, spin, kappas, ringValue, r, Ind(ell, 0))
      == Weighted(sqrt, r, kappas[r][ell], RingEntry(spin, ringValue, Ind(ell, 0)))
  {
    SqMonotone(ell + 1, L);
    IndRoundTrip(ell, 0);
  }

  /** The order-0 coefficient of degree `ell` is the only index of that
      degree and order. */
  lemma ZeroOrderIndex(k: nat, ell: nat)
    ensures M(k) == 0 && Ell(k) == ell <==> k == Ind(ell, 0)
  {
    IndRoundTrip(ell, 0);
  }

  /** One pass of `_compute_ring`'s loop: the ring's value at degree `ell`
      into the order-0 coefficient of that degree. */
  method WriteRingDegree(ring: array<Complex>, L: nat, spin: int, ringValue: (nat, int) -> real, ell: nat)
    requires ring.Length == Sq(L) && Abs(spin) <= ell < L
    requires forall ind | 0 <= ind < Sq(L) ::
      ring[ind] == if M(ind) == 0 && Abs(spin) <= Ell(ind) < ell then Of(ringValue(Ell(ind), spin)) else Zero
    modifies ring
    ensures forall ind | 0 <= ind < Sq(L) ::
      ring[ind] == if M(ind) == 0 && Abs(spin) <= Ell(ind) < ell + 1 then Of(ringValue(Ell(ind), spin)) else Zero
  {
    SqMonotone(ell + 1, L);
    IndRoundTrip(ell, 0);
    ring[Ind(ell, 0)] := Of(ringValue(ell, spin));
    forall ind | 0 <= ind < Sq(L)
      ensures ring[ind] == if M(ind) == 0 && Abs(spin) <= Ell(ind) < ell + 1 then Of(ringValue(Ell(ind), spin)) else Zero
    {
      ZeroOrderIndex(ind, ell);
    }
  }

  /** One pass of `_create_wavelets`' loop: the column `ind(ell, 0)` of
      every row gets its weighted ring value. */
  method WriteDegree(w: array2<Complex>, sqrt: real -> real, L: nat, spin: int, kappas: seq<seq<real>>,
                     ringValue: (nat, int) -> real, ring: seq<Complex>, ell: nat)
    requires IsSqrt(sqrt) && Width(kappas, L) && ell < L
    requires w.Length0 == |kappas| && w.Length1 == Sq(L)
    requires |ring| == Sq(L) && forall ind | 0 <= ind < Sq(L) :: ring[ind] == RingEntry(spin, ringValue, ind)
    requires forall r, k | 0 <= r < |kappas| && 0 <= k < Sq(L) ::
      w[r, k] == if Ell(k) < ell then RidgeletEntry(sqrt, L, spin, kappas, ringValue, r, k) else Zero
    modifies w
    ensures forall r, k | 0 <= r < |kappas| && 0 <= k < Sq(L) ::
      w[r, k] == if Ell(k) < ell + 1 then RidgeletEntry(sqrt, L, spin, kappas, ringValue, r, k) else Zero
  {
    SqMonotone(ell + 1, L);
    IndRoundTrip(ell, 0);
    var ind := Ind(ell, 0);
    var x := ring[ind];
    var column := seq(|kappas|, r requires 0 <= r < |kappas| => Weighted(sqrt, r, kappas[r][ell], x));
    forall r | 0 <= r < |kappas|
      ensures column[r] == RidgeletEntry(sqrt, L, spin, kappas, ringValue, r, ind)
    {
      EntryAtZeroOrder(sqrt, L, spin, kappas, ringValue, r, ell);
    }
    WaveletMethods.SetColumn(w, ind, column);
    forall r, k | 0 <= r < |kappas| && 0 <= k < Sq(L)
      ensures w[r, k] == if Ell(k) < ell + 1 then RidgeletEntry(sqrt, L, spin, kappas, ringValue, r, k) else Zero
    {
      ZeroOrderIndex(k, ell);
    }
  }

  class Ridgelets {
    const L: nat
    var B: int
    var jMin: int
    var spin: int
    var j: Option<int>
    var wavelets: seq<seq<Complex>>

    /** The `j` setter's check holds of the current fields, with
        `j_max = pys2let_j_max(B, L, j_min)`. */
    predicate ValidJ(jMaxOf: (int, int, int) -> int)
      reads this
    {
      CheckJ(j, jMaxOf(B, L, jMin), jMin).Ok?
    }

    /** The private fields before any setter has run. */
    constructor (L: nat)
      ensures this.L == L && B == DefaultB && jMin == DefaultJMin && spin == DefaultSpin && j == None
      ensures wavelets == []
    {
      this.L := L;
      B, jMin, spin, j := DefaultB, DefaultJMin, DefaultSpin, None;
      wavelets := [];
    }

    /** The `B` setter. */
    method SetB(arg: SetterArg<int>)
      modifies this`B
      ensures B == arg.OrDefault(DefaultB)
    {
      B := arg.OrDefault(DefaultB);
    }

    /** The `j_min` setter. */
    method SetJMin(arg: SetterArg<int>)
      modifies this`jMin
      ensures jMin == arg.OrDefault(DefaultJMin)
    {
      jMin := arg.OrDefault(DefaultJMin);
    }

    /** The `spin` setter. */
    method SetSpin(arg: SetterArg<int>)
      modifies this`spin
      ensures spin == arg.OrDefault(DefaultSpin)
    {
      spin := arg.OrDefault(DefaultSpin);
    }

    /** The `j` setter: the default is no scale; a scale outside
        `[0, j_max - j_min]` raises and leaves `j` as it was. */
    method SetJ(arg: SetterArg<Option<int>>, jMaxOf: (int, int, int) -> int) returns (r: Result<()>)
      modifies this`j
      ensures r.Ok? <==> CheckJ(arg.OrDefault(None), jMaxOf(B, L, jMin), jMin).Ok?
      ensures r.Err? ==> r.error == ValueError
      ensures j == if r.Ok? then arg.OrDefault(None) else old(j)
      ensures r.Ok? ==> ValidJ(jMaxOf)
    {
      var v := arg.OrDefault(None);
      var jMax := jMaxOf(B, L, jMin);
      if v.Some? && v.value < 0 {
        return Err(ValueError);
      }
      if v.Some? && v.value > jMax - jMin {
        return Err(ValueError);
      }
      j := v;
      r := Ok(());
    }

    /** The dataclass constructor: the setters in field order, so that the
        `j` setter sees the new `B` and `j_min`. */
    static method New(L: nat, B: SetterArg<int>, jMin: SetterArg<int>, spin: SetterArg<int>,
                      j: SetterArg<Option<int>>, jMaxOf: (int, int, int) -> int) returns (r: Result<Ridgelets>)
      ensures r.Ok? <==> CheckJ(j.OrDefault(None), jMaxOf(B.OrDefault(DefaultB), L, jMin.OrDefault(DefaultJMin)),
                                jMin.OrDefault(DefaultJMin)).Ok?
      ensures r.Err? ==> r.error == ValueError
      ensures r.Ok? ==> fresh(r.value) && r.value.L == L && r.value.B == B.OrDefault(DefaultB)
      ensures r.Ok? ==> r.value.jMin == jMin.OrDefault(DefaultJMin) && r.value.spin == spin.OrDefault(DefaultSpin)
      ensures r.Ok? ==> r.value.j == j.OrDefault(None) && r.value.ValidJ(jMaxOf)
    {
      var x := new Ridgelets(L);
      x.SetB(B);
      x.SetJMin(jMin);
      x.SetSpin(spin);
      var outcome := x.SetJ(j, jMaxOf);
      if outcome.Err? {
        return Err(outcome.error);
      }
      r := Ok(x);
    }

    /** `_setup_args`: four extra arguments `B, j_min, spin, j`, through
        the setters in that order. */
    method SetupArgs(extraArgs: Option<seq<int>>, jMaxOf: (int, int, int) -> int) returns (r: Result<()>)
      modifies this
      ensures (ScaleArgs(B, jMin, j), r) == SetupScaleArgs(extraArgs, 4, old(ScaleArgs(B, jMin, j)), jMaxOf, L)
      ensures extraArgs.Some? && |extraArgs.value| == 4 ==> spin == extraArgs.value[2]
      ensures extraArgs.None? || |extraArgs.value| != 4 ==> spin == old(spin)
      ensures wavelets == old(wavelets)
      ensures old(ValidJ(jMaxOf)) && r.Ok? ==> ValidJ(jMaxOf)
    {
      ghost var expected := SetupScaleArgs(extraArgs, 4, ScaleArgs(B, jMin, j), jMaxOf, L);
      if extraArgs.None? {
        return Ok(());
      }
      var args := extraArgs.value;
      if |args| != 4 {
        return Err(ValueError);
      }
      SetB(Given(args[0]));
      SetJMin(Given(args[1]));
      SetSpin(Given(args[2]));
      r := SetJ(Given(Some(args[3])), jMaxOf);
      assert r == expected.1 by {
        if r.Ok? { assert r.value == () == expected.1.value; }
      }
    }

    /** `_compute_ring`: `L^2` zeros, then the ring's value at `ind(ell, 0)`
        for each degree from `|spin|` below `L`. */
    method ComputeRing(ringValue: (nat, int) -> real) returns (ring: array<Complex>)
      ensures fresh(ring) && ring.Length == Sq(L)
      ensures forall ind | 0 <= ind < Sq(L) :: ring[ind] == RingEntry(spin, ringValue, ind)
    {
      ring := new Complex[Sq(L)](_ => Zero);
      var ell: nat := Abs(spin);
      while ell < L
        invariant forall ind | 0 <= ind < Sq(L) ::
          ring[ind] == if M(ind) == 0 && Abs(spin) <= Ell(ind) < ell then Of(ringValue(Ell(ind), spin)) else Zero
      {
        WriteRingDegree(ring, L, spin, ringValue, ell);
        ell := ell + 1;
      }
      forall ind | 0 <= ind < Sq(L) ensures Ell(ind) < L {
        BelowBandlimit(L, ind);
      }
    }

    /** `_create_wavelets`: one row per kappa of `create_kappas(L, B,
        j_min)`, written degree by degree in the order-0 columns. */
    method CreateWavelets(sqrt: real -> real, ringValue: (nat, int) -> real,
                          axisymWavL: (int, nat, int) -> (seq<real>, seq<seq<real>>))
      requires IsSqrt(sqrt) && WaveletMethods.KappaShaped(axisymWavL(B, L, jMin), L)
      modifies this`wavelets
      ensures var kappas := WaveletMethods.CreateKappas(L, B, jMin, axisymWavL);
        && |wavelets| == |kappas| && Width(wavelets, Sq(L))
        && forall r, ind | 0 <= r < |kappas| && 0 <= ind < Sq(L) ::
             wavelets[r][ind] == RidgeletEntry(sqrt, L, spin, kappas, ringValue, r, ind)
    {
      var ringArray := ComputeRing(ringValue);
      var ring := ringArray[..];
      var kappas := WaveletMethods.CreateKappas(L, B, jMin, axisymWavL);
      var w := new Complex[|kappas|, Sq(L)]((_, _) => Zero);
      var ell: nat := 0;
      while ell < L
        invariant ell <= L
        invariant forall r, ind | 0 <= r < |kappas| && 0 <= ind < Sq(L) ::
          w[r, ind] == if Ell(ind) < ell then RidgeletEntry(sqrt, L, spin, kappas, ringValue, r, ind) else Zero
      {
        WriteDegree(w, sqrt, L, spin, kappas, ringValue, ring, ell);
        ell := ell + 1;
      }
      forall ind | 0 <= ind < Sq(L) ensures Ell(ind) < L {
        BelowBandlimit(L, ind);
      }
      wavelets := ArrayMethods.Rows(w);
    }

    /** `_create_coefficients`: the wavelets, then their row `0` or
        `j + 1`. */
    method CreateCoefficients(sqrt: real -> real, ringValue: (nat, int) -> real,
                              axisymWavL: (int, nat, int) -> (seq<real>, seq<seq<real>>))
      returns (r: Result<seq<Complex>>)
      requires IsSqrt(sqrt) && WaveletMethods.KappaShaped(axisymWavL(B, L, jMin), L)
      modifies this`wavelets
      ensures var kappas := WaveletMethods.CreateKappas(L, B, jMin, axisymWavL);
        && |wavelets| == |kappas| && Width(wavelets, Sq(L))
        && forall q, ind | 0 <= q < |kappas| && 0 <= ind < Sq(L) ::
             wavelets[q][ind] == RidgeletEntry(sqrt, L, spin, kappas, ringValue, q, ind)
      ensures r == SelectScale(wavelets, j)
    {
      CreateWavelets(sqrt, ringValue, axisymWavL);
      r := SelectScale(wavelets, j);
    }
  }
}
