/** The axisymmetric wavelet coefficients of the Earth: the forward
    axisymmetric wavelet transform of the Earth's harmonic coefficients
    with the wavelets of `_create_axisymmetric_wavelets`, and the row `0`
    or `j + 1` of it. The coefficients are not real and their spin is 0.
    The Earth's coefficients (a data set) are a parameter. Unlike the
    other wavelet classes this one validates `j` against the class
    attributes `B = 3`, `j_min = 2` and the class's `L`, and only at
    construction: its dataclass has no assignment validation. The hooks
    run in `__post_init__`, which pydantic calls before it validates the
    fields, so `check_j` sees the `j` the extra arguments assigned, after
    the coefficients are computed. */
module AxisymmetricWaveletCoefficientsEarth {
  import opened ComplexNumbers
  import opened Errors
  import opened Numerics
  import opened HarmonicIndex
  import opened EigenMethods
  import opened WaveletScales
  import WaveletMethods
  import ArrayMethods

  /** The class attributes the validator reads. */
  const ClassB := 3
  const ClassJMin := 2

  /** `check_j`: the scale range of the class attributes, whatever the
      instance's `B` and `j_min` are. */
  function CheckJClassLevel(j: Option<int>, classL: int, jMaxOf: (int, int, int) -> int): (r: Result<Option<int>>)
    ensures r.Ok? <==> j.None? || 0 <= j.value <= jMaxOf(ClassB, classL, ClassJMin) - ClassJMin
    ensures r.Ok? ==> r.value == j
    ensures r.Err? ==> r.error == ValueError
  {
    CheckJ(j, jMaxOf(ClassB, classL, ClassJMin), ClassJMin)
  }

  /** The fields `_setup_args` leaves: three extra arguments replace
      `B, j_min, j`; none, or a wrong count, keep them. */
  function FinalArgs(extraArgs: Option<seq<int>>, B: int, jMin: int, j: Option<int>): (args: (int, int, Option<int>))
    ensures CheckArgCount(extraArgs, 3).Ok? && extraArgs.Some? ==>
      args == (extraArgs.value[0], extraArgs.value[1], Some(extraArgs.value[2]))
    ensures extraArgs.None? ==> args == (B, jMin, j)
  {
    if extraArgs.Some? && |extraArgs.value| == 3
    then (extraArgs.value[0], extraArgs.value[1], Some(extraArgs.value[2]))
    else (B, jMin, j)
  }

  /** The wavelets of `_create_axisymmetric_wavelets`, one row per
      kappa. */
  method WaveletRows(sqrt: real -> real, L: nat, B: int, jMin: int,
                     axisymWavL: (int, nat, int) -> (seq<real>, seq<seq<real>>))
    returns (wavelets: seq<seq<Complex>>)
    requires WaveletMethods.KappaShaped(axisymWavL(B, L, jMin), L)
    ensures wavelets == WaveletMethods.Created(sqrt, L, WaveletMethods.CreateKappas(L, B, jMin, axisymWavL))
  {
    var kappas := WaveletMethods.CreateKappas(L, B, jMin, axisymWavL);
    var w := WaveletMethods.CreateAxisymmetricWavelets(sqrt, L, B, jMin, axisymWavL);
    wavelets := ArrayMethods.Rows(w);
    var created := WaveletMethods.Created(sqrt, L, kappas);
    forall q | 0 <= q < |kappas| ensures wavelets[q] == created[q] { }
  }

  /** The forward transform of `flm` with the wavelets, one row per
      wavelet. */
  method ForwardRows(sqrt: real -> real, L: nat, flm: seq<Complex>, wavelets: seq<seq<Complex>>)
    returns (coefficients: seq<seq<Complex>>)
    requires |flm| == Sq(L) && Width(wavelets, Sq(L))
    ensures coefficients == WaveletMethods.ForwardMatrix(sqrt, L, flm, wavelets, Sq(L))
  {
    var transformed, _ := WaveletMethods.AxisymmetricWaveletForward(sqrt, L, flm, wavelets, Sq(L));
    coefficients := ArrayMethods.Rows(transformed);
    var forward := WaveletMethods.ForwardMatrix(sqrt, L, flm, wavelets, Sq(L));
    forall q | 0 <= q < |wavelets| ensures coefficients[q] == forward[q] { }
  }

  class AxisymmetricWaveletCoefficientsEarth {
    const L: nat
    var B: int
    var jMin: int
    var j: Option<int>
    var wavelets: seq<seq<Complex>>
    var earth: seq<Complex>
    var waveletCoefficients: seq<seq<Complex>>
    var coefficients: seq<Complex>

    const reality := false
    const spin := 0

    /** Construction: the dataclass fields, then `__post_init__` runs
        `_setup_args` (a wrong count is `ValueError`) and
        `_create_coefficients` (an out-of-range row is `IndexError`), and
        only then does pydantic run `check_j` on the `j` they leave. */
    static method New(L: nat, B: int, jMin: int, j: Option<int>, extraArgs: Option<seq<int>>,
                      classL: int, jMaxOf: (int, int, int) -> int,
                      sqrt: real -> real, axisymWavL: (int, nat, int) -> (seq<real>, seq<seq<real>>),
                      earthCoefficients: seq<Complex>)
      returns (r: Result<AxisymmetricWaveletCoefficientsEarth>)
      requires var (b, jm, _) := FinalArgs(extraArgs, B, jMin, j);
        WaveletMethods.KappaShaped(axisymWavL(b, L, jm), L) && |earthCoefficients| == Sq(L)
      ensures var (b, jm, jj) := FinalArgs(extraArgs, B, jMin, j);
        var rows := WaveletMethods.ForwardMatrix(sqrt, L, earthCoefficients,
          WaveletMethods.Created(sqrt, L, WaveletMethods.CreateKappas(L, b, jm, axisymWavL)), Sq(L));
        && (CheckArgCount(extraArgs, 3).Err? ==> r == Err(ValueError))
        && (CheckArgCount(extraArgs, 3).Ok? && SelectScale(rows, jj).Err? ==> r == Err(IndexError))
        && (CheckArgCount(extraArgs, 3).Ok? && SelectScale(rows, jj).Ok? ==>
              (r.Ok? <==> CheckJClassLevel(jj, classL, jMaxOf).Ok?))
        && (r.Ok? ==> && fresh(r.value) && r.value.L == L && r.value.B == b && r.value.jMin == jm && r.value.j == jj
                      && r.value.earth == earthCoefficients && r.value.waveletCoefficients == rows
                      && r.value.coefficients == SelectScale(rows, jj).value)
      ensures r.Err? ==> r.error == ValueError || r.error == IndexError
    {
      var x := new AxisymmetricWaveletCoefficientsEarth.Init(L, B, jMin, j);
      var setup := x.SetupArgs(extraArgs);
      if setup.Err? {
        return Err(setup.error);
      }
      var created := x.CreateCoefficients(sqrt, axisymWavL, earthCoefficients);
      if created.Err? {
        return Err(created.error);
      }
      var checked := CheckJClassLevel(x.j, classL, jMaxOf);
      if checked.Err? {
        return Err(checked.error);
      }
      r := Ok(x);
    }

    constructor Init(L: nat, B: int, jMin: int, j: Option<int>)
      ensures this.L == L && this.B == B && this.jMin == jMin && this.j == j
      ensures wavelets == [] && earth == [] && waveletCoefficients == [] && coefficients == []
    {
      this.L, this.B, this.jMin, this.j := L, B, jMin, j;
      wavelets, earth, waveletCoefficients, coefficients := [], [], [], [];
    }

    /** `_setup_args`: three extra arguments `B, j_min, j`, assigned
        without validation. */
    method SetupArgs(extraArgs: Option<seq<int>>) returns (r: Result<()>)
      modifies this
      ensures r == CheckArgCount(extraArgs, 3)
      ensures r.Ok? && extraArgs.Some? ==>
        B == extraArgs.value[0] && jMin == extraArgs.value[1] && j == Some(extraArgs.value[2])
      ensures r.Err? || extraArgs.None? ==> B == old(B) && jMin == old(jMin) && j == old(j)
      ensures wavelets == old(wavelets) && earth == old(earth)
      ensures waveletCoefficients == old(waveletCoefficients) && coefficients == old(coefficients)
    {
      r := CheckArgCount(extraArgs, 3);
      if r.Ok? && extraArgs.Some? {
        B, jMin, j := extraArgs.value[0], extraArgs.value[1], Some(extraArgs.value[2]);
      }
    }

    /** `_create_coefficients`: the wavelets, the Earth, the forward
        transform of the Earth with the wavelets, and its row `0` or
        `j + 1`, which an out-of-range `j` fails to index. */
    method CreateCoefficients(sqrt: real -> real, axisymWavL: (int, nat, int) -> (seq<real>, seq<seq<real>>),
                              earthCoefficients: seq<Complex>)
      returns (r: Result<()>)
      requires WaveletMethods.KappaShaped(axisymWavL(B, L, jMin), L) && |earthCoefficients| == Sq(L)
      modifies this`wavelets, this`earth, this`waveletCoefficients, this`coefficients
      ensures wavelets == WaveletMethods.Created(sqrt, L, WaveletMethods.CreateKappas(L, B, jMin, axisymWavL))
      ensures earth == earthCoefficients
      ensures Width(wavelets, Sq(L))
      ensures waveletCoefficients == WaveletMethods.ForwardMatrix(sqrt, L, earth, wavelets, Sq(L))
      ensures r.Ok? <==> SelectScale(waveletCoefficients, j).Ok?
      ensures r.Ok? ==> coefficients == SelectScale(waveletCoefficients, j).value
      ensures r.Err? ==> r.error == IndexError && coefficients == old(coefficients)
    {
      wavelets := WaveletRows(sqrt, L, B, jMin, axisymWavL);
      earth := earthCoefficients;
      waveletCoefficients := ForwardRows(sqrt, L, earth, wavelets);
      var selected := SelectScale(waveletCoefficients, j);
      if selected.Err? {
        return Err(selected.error);
      }
      coefficients := selected.value;
      r := Ok(());
    }
  }
}
