/** The Dirac delta at the north pole in harmonic space: in the order-0
    coefficient of every degree `ell` below `L` the value
    `sqrt((2 ell + 1) / (4 pi))`, zero elsewhere. It is real, its spin is
    0 and its name is `dirac_delta`; it takes no extra arguments. */
module DiracDelta {
  import opened ComplexNumbers
  import opened Errors
  import opened Numerics
  import opened HarmonicIndex
  import WaveletMethods

  const Name := "dirac_delta"
  const Reality := true
  const Spin := 0

  /** `sqrt((2 ell + 1) / (4 pi))`. */
  function DeltaValue(sqrt: real -> real, ell: nat): real {
    WaveletMethods.InverseScaling(sqrt, ell)
  }

  /** The entry `_create_coefficients` leaves at `ind`. */
  function DeltaEntry(sqrt: real -> real, ind: nat): Complex {
    if M(ind) == 0 then Of(DeltaValue(sqrt, Ell(ind))) else Zero
  }

  /** `_create_coefficients`: `L^2` zeros, then the value of each degree at
      `ind(ell, 0)`. */
  method CreateCoefficients(sqrt: real -> real, L: nat) returns (flm: array<Complex>)
    ensures fresh(flm) && flm.Length == Sq(L)
    ensures forall ind | 0 <= ind < Sq(L) :: flm[ind] == DeltaEntry(sqrt, ind)
  {
    flm := new Complex[Sq(L)](_ => Zero);
    var ell: nat := 0;
    while ell < L
      invariant ell <= L
      invariant forall ind | 0 <= ind < Sq(L) :: flm[ind] == if Ell(ind) < ell then DeltaEntry(sqrt, ind) else Zero
    {
      SqMonotone(ell + 1, L);
      IndRoundTrip(ell, 0);
      flm[Ind(ell, 0)] := Of(DeltaValue(sqrt, ell));
      forall ind | 0 <= ind < Sq(L)
        ensures flm[ind] == if Ell(ind) < ell + 1 then DeltaEntry(sqrt, ind) else Zero
      {
        if ind != Ind(ell, 0) && Ell(ind) == ell {
          assert M(ind) != 0 by { assert Ind(Ell(ind), M(ind)) == ind; }
        }
      }
      ell := ell + 1;
    }
    forall ind | 0 <= ind < Sq(L) ensures Ell(ind) < L {
      BelowBandlimit(L, ind);
    }
  }

  /** The values are positive and strictly increase with the degree. */
  lemma DeltaValuesIncrease(sqrt: real -> real, ell: nat, ell': nat)
    requires IsSqrt(sqrt) && ell < ell'
    ensures 0.0 < DeltaValue(sqrt, ell) < DeltaValue(sqrt, ell')
  {
    var x := (2 * ell + 1) as real / (4.0 * Pi);
    var y := (2 * ell' + 1) as real / (4.0 * Pi);
    assert 0.0 < x < y;
    SqrtPositive(sqrt, x);
    SqrtStrictlyIncreasing(sqrt, x, y);
  }

  /** The delta is non-zero exactly in the order-0 coefficients. */
  lemma DeltaSupport(sqrt: real -> real, ind: nat)
    requires IsSqrt(sqrt)
    ensures DeltaEntry(sqrt, ind) != Zero <==> M(ind) == 0
  {
    if M(ind) == 0 {
      var ell := Ell(ind);
      var x := (2 * ell + 1) as real / (4.0 * Pi);
      SqrtPositive(sqrt, x);
    }
  }

  /** `_setup_args`: a list of extra arguments raises `AttributeError`. */
  function SetupArgs(extraArgs: Option<seq<int>>): (r: Result<()>)
    ensures r.Ok? <==> extraArgs.None?
    ensures r.Err? ==> r.error == AttributeError
  {
    if extraArgs.Some? then Err(AttributeError) else Ok(())
  }
}
