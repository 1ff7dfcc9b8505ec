/** The Slepian wavelet coefficients of a field on a mesh: the Slepian
    wavelet transform of the field's Slepian coefficients, with the
    all-zero scales dropped, and the row `0` or `j + 1` of what remains.
    The field's coefficients, the sifting convolution and the Shannon
    number are parameters. */
module MeshSlepianWaveletCoefficients {
  import opened ComplexNumbers
  import opened Errors
  import opened WaveletScales
  import WaveletMethods
  import MeshSlepianWavelets

  const NamePrefix := "slepian_wavelet_coefficients_"

  /** `_create_name`: the prefix, the mesh's name, then the `B`, `j_min`
      and scale parts (`filename_args` and `wavelet_ending` are parameters). */
  function CreateName(meshName: string, B: int, jMin: int, j: Option<int>,
                      filenameArgs: (int, string) -> string, waveletEnding: (int, Option<int>) -> string): (name: string)
    ensures |NamePrefix + meshName| <= |name| && name[..|NamePrefix + meshName|] == NamePrefix + meshName
    ensures name[|NamePrefix + meshName|..] == filenameArgs(B, "B") + filenameArgs(jMin, "jmin") + waveletEnding(jMin, j)
  {
    NamePrefix + meshName + filenameArgs(B, "B") + filenameArgs(jMin, "jmin") + waveletEnding(jMin, j)
  }

  class MeshSlepianWaveletCoefficients {
    const eigenvalueCount: nat
    var B: int
    var jMin: int
    var j: Option<int>
    var wavelets: seq<seq<real>>
    var waveletCoefficients: seq<seq<Complex>>

    predicate ValidJ(jMaxOf: (int, int, int) -> int)
      reads this
    {
      CheckJ(j, jMaxOf(B, eigenvalueCount, jMin), jMin).Ok?
    }

    constructor (eigenvalueCount: nat, B: int, jMin: int)
      ensures this.eigenvalueCount == eigenvalueCount && this.B == B && this.jMin == jMin && j == None
      ensures wavelets == [] && waveletCoefficients == []
    {
      this.eigenvalueCount := eigenvalueCount;
      this.B, this.jMin, j := B, jMin, None;
      wavelets, waveletCoefficients := [], [];
    }

    /** Construction with every keyword, `j` included: the `j` validator
        runs on the given `B`, the mesh's eigenvalue count and `j_min`, and
        a refused `j` is `ValueError`. */
    static method New(eigenvalueCount: nat, B: int, jMin: int, j: Option<int>, jMaxOf: (int, int, int) -> int)
      returns (r: Result<MeshSlepianWaveletCoefficients>)
      ensures r.Ok? <==> CheckJ(j, jMaxOf(B, eigenvalueCount, jMin), jMin).Ok?
      ensures r.Err? ==> r.error == ValueError
      ensures r.Ok? ==> fresh(r.value) && r.value.eigenvalueCount == eigenvalueCount && r.value.B == B
      ensures r.Ok? ==> r.value.jMin == jMin && r.value.j == j && r.value.ValidJ(jMaxOf)
      ensures r.Ok? ==> r.value.wavelets == [] && r.value.waveletCoefficients == []
    {
      var checked := CheckJ(j, jMaxOf(B, eigenvalueCount, jMin), jMin);
      if checked.Err? {
        return Err(checked.error);
      }
      var x := new MeshSlepianWaveletCoefficients(eigenvalueCount, B, jMin);
      x.j := j;
      r := Ok(x);
    }

    /** `_setup_args`: three extra arguments `B, j_min, j`. */
    method SetupArgs(extraArgs: Option<seq<int>>, jMaxOf: (int, int, int) -> int) returns (r: Result<()>)
      modifies this
      ensures (ScaleArgs(B, jMin, j), r) == SetupScaleArgs(extraArgs, 3, old(ScaleArgs(B, jMin, j)), jMaxOf, eigenvalueCount)
      ensures wavelets == old(wavelets) && waveletCoefficients == old(waveletCoefficients)
      ensures old(ValidJ(jMaxOf)) && r.Ok? ==> ValidJ(jMaxOf)
    {
      var (s, res) := SetupScaleArgs(extraArgs, 3, ScaleArgs(B, jMin, j), jMaxOf, eigenvalueCount);
      B, jMin, j := s.B, s.jMin, s.j;
      r := res;
    }

    /** `_create_coefficients`: the wavelets of `MeshSlepianWavelets(mesh,
        B, j_min)`, the forward transform of the field with them, and its
        row `0` or `j + 1`. */
    method CreateCoefficients(axisymWavL: (int, nat, int) -> (seq<real>, seq<seq<real>>),
                              field: seq<Complex>, shannon: nat,
                              sifting: (seq<seq<Complex>>, seq<Complex>, nat) -> seq<seq<Complex>>)
      returns (r: Result<seq<Complex>>)
      requires WaveletMethods.KappaShaped(axisymWavL(B, eigenvalueCount, jMin), eigenvalueCount)
      modifies this`wavelets, this`waveletCoefficients
      ensures wavelets == WaveletMethods.CreateKappas(eigenvalueCount, B, jMin, axisymWavL)
      ensures waveletCoefficients == WaveletMethods.SlepianWaveletForward(field, AsComplex(wavelets), shannon, sifting)
      ensures r == SelectScale(waveletCoefficients, j)
    {
      var smw := new MeshSlepianWavelets.MeshSlepianWavelets(eigenvalueCount, B, jMin);
      var _ := smw.CreateCoefficients(axisymWavL);
      wavelets := smw.wavelets;
      waveletCoefficients := WaveletMethods.SlepianWaveletForward(field, AsComplex(wavelets), shannon, sifting);
      r := SelectScale(waveletCoefficients, j);
    }
  }

  /** The row selected is the `j + 1`-th row of the transform that has a
      non-zero entry: once a lower scale has been dropped it is not the
      row of scale `j`. */
  lemma SelectsAmongKeptScales(field: seq<Complex>, wavelets: seq<seq<Complex>>, shannon: nat,
                               sifting: (seq<seq<Complex>>, seq<Complex>, nat) -> seq<seq<Complex>>, j: Option<int>)
    requires 0 <= SelectedScale(j)
    ensures var all := sifting(wavelets, field, shannon);
      var kept := WaveletMethods.KeptRows(all, Zero);
      var r := SelectScale(WaveletMethods.SlepianWaveletForward(field, wavelets, shannon, sifting), j);
      && (r.Ok? <==> SelectedScale(j) < |kept|)
      && (r.Ok? ==> r.value == all[kept[SelectedScale(j)]] && WaveletMethods.AnyNonZero(r.value, Zero))
  {
  }

  /** An instance: with the scaling-function row and the first scale
      all zero, `j = 0` selects the row of scale 1. */
  lemma DroppedScaleShiftsSelection(field: seq<Complex>, shannon: nat,
                                    sifting: (seq<seq<Complex>>, seq<Complex>, nat) -> seq<seq<Complex>>,
                                    wavelets: seq<seq<Complex>>)
    requires sifting(wavelets, field, shannon) == [[One], [Zero], [One, One]]
    ensures SelectScale(WaveletMethods.SlepianWaveletForward(field, wavelets, shannon, sifting), Some(0))
      == Ok([One, One])
  {
    var all := sifting(wavelets, field, shannon);
    assert WaveletMethods.AnyNonZero(all[0], Zero) by { assert all[0][0] != Zero; }
    assert !WaveletMethods.AnyNonZero(all[1], Zero);
    assert WaveletMethods.AnyNonZero(all[2], Zero) by { assert all[2][0] != Zero; }
    var first := all[..2][..1];
    assert first[..0] == [] && first[0] == all[0];
    assert WaveletMethods.KeptRows(first, Zero) == [0];
    assert all[..2][1] == all[1];
    assert WaveletMethods.KeptRows(all[..2], Zero) == [0];
    assert WaveletMethods.KeptRows(all, Zero) == [0, 2];
  }
}
