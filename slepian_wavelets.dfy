/** The axisymmetric wavelets of the Slepian functions of a region: one
    row of `create_kappas(L^2, B, j_min)` per scale. The coefficients are
    the row of the scale `j`, or the scaling function when there is none.
    They are not real, and their spin is 0. */
module SlepianWavelets {
  import opened Errors
  import opened HarmonicIndex
  import opened WaveletScales
  import WaveletMethods

  class SlepianWavelets {
    const L: nat
    var B: int
    var jMin: int
    var j: Option<int>
    var wavelets: seq<seq<real>>

    const reality := false
    const spin := 0

    /** The `j` validator holds of the current fields, with
        `j_max = pys2let_j_max(B, L^2, j_min)`. */
    predicate ValidJ(jMaxOf: (int, int, int) -> int)
      reads this
    {
      CheckJ(j, jMaxOf(B, Sq(L), jMin), jMin).Ok?
    }

    /** The fields `B` and `j_min` as given (by default 3 and 2), with no
        scale; `New` takes a scale too. */
    constructor (L: nat, B: int, jMin: int)
      ensures this.L == L && this.B == B && this.jMin == jMin && j == None && wavelets == []
    {
      this.L := L;
      this.B, this.jMin, j := B, jMin, None;
      wavelets := [];
    }

    /** Construction with every keyword, `j` included: the `j` validator
        runs on the given `B`, `L^2` and `j_min`, and a refused `j` is
        `ValueError`. */
    static method New(L: nat, B: int, jMin: int, j: Option<int>, jMaxOf: (int, int, int) -> int)
      returns (r: Result<SlepianWavelets>)
      ensures r.Ok? <==> CheckJ(j, jMaxOf(B, Sq(L), jMin), jMin).Ok?
      ensures r.Err? ==> r.error == ValueError
      ensures r.Ok? ==> fresh(r.value) && r.value.L == L && r.value.B == B && r.value.jMin == jMin
      ensures r.Ok? ==> r.value.j == j && r.value.wavelets == [] && r.value.ValidJ(jMaxOf)
    {
      var checked := CheckJ(j, jMaxOf(B, Sq(L), jMin), jMin);
      if checked.Err? {
        return Err(checked.error);
      }
      var x := new SlepianWavelets(L, B, jMin);
      x.j := j;
      r := Ok(x);
    }

    /** `_setup_args`: three extra arguments `B, j_min, j`, assigned in
        that order, the last one validated on assignment. */
    method SetupArgs(extraArgs: Option<seq<int>>, jMaxOf: (int, int, int) -> int) returns (r: Result<()>)
      modifies this
      ensures (ScaleArgs(B, jMin, j), r) == SetupScaleArgs(extraArgs, 3, old(ScaleArgs(B, jMin, j)), jMaxOf, Sq(L))
      ensures wavelets == old(wavelets)
      ensures old(ValidJ(jMaxOf)) && r.Ok? ==> ValidJ(jMaxOf)
    {
      var (s, res) := SetupScaleArgs(extraArgs, 3, ScaleArgs(B, jMin, j), jMaxOf, Sq(L));
      B, jMin, j := s.B, s.jMin, s.j;
      r := res;
    }

    /** `_create_coefficients`: the wavelets are `create_kappas(L^2, B,
        j_min)` and the coefficients the row `0` or `j + 1` of them. */
    method CreateCoefficients(axisymWavL: (int, nat, int) -> (seq<real>, seq<seq<real>>))
      returns (r: Result<seq<real>>)
      requires WaveletMethods.KappaShaped(axisymWavL(B, Sq(L), jMin), Sq(L))
      modifies this`wavelets
      ensures wavelets == WaveletMethods.CreateKappas(Sq(L), B, jMin, axisymWavL)
      ensures r == SelectScale(wavelets, j)
    {
      wavelets := WaveletMethods.CreateKappas(Sq(L), B, jMin, axisymWavL);
      r := SelectScale(wavelets, j);
    }
  }
}
