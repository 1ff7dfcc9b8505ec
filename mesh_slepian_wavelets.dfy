/** The Slepian wavelets of a region of a mesh: one row of
    `create_kappas(n, B, j_min)` per scale, where `n` is the number of
    mesh eigenvalues (the mesh itself is not modelled, only that count). */
module MeshSlepianWavelets {
  import opened Errors
  import opened WaveletScales
  import WaveletMethods

  class MeshSlepianWavelets {
    /** `mesh.mesh_eigenvalues.shape[0]`. */
    const eigenvalueCount: nat
    var B: int
    var jMin: int
    var j: Option<int>
    var wavelets: seq<seq<real>>

    /** The `j` validator holds of the current fields, with
        `j_max = pys2let_j_max(B, n, j_min)`. */
    predicate ValidJ(jMaxOf: (int, int, int) -> int)
      reads this
    {
      CheckJ(j, jMaxOf(B, eigenvalueCount, jMin), jMin).Ok?
    }

    /** `MeshSlepianWavelets(mesh, B=B, j_min=j_min)`: without a scale the
        validator has nothing to refuse. */
    constructor (eigenvalueCount: nat, B: int, jMin: int)
      ensures this.eigenvalueCount == eigenvalueCount && this.B == B && this.jMin == jMin
      ensures j == None && wavelets == []
    {
      this.eigenvalueCount := eigenvalueCount;
      this.B, this.jMin, j := B, jMin, None;
      wavelets := [];
    }

    /** `_setup_args`: three extra arguments `B, j_min, j`, assigned in
        that order, the last one validated on assignment. */
    method SetupArgs(extraArgs: Option<seq<int>>, jMaxOf: (int, int, int) -> int) returns (r: Result<()>)
      modifies this
      ensures (ScaleArgs(B, jMin, j), r) == SetupScaleArgs(extraArgs, 3, old(ScaleArgs(B, jMin, j)), jMaxOf, eigenvalueCount)
      ensures wavelets == old(wavelets)
      ensures old(ValidJ(jMaxOf)) && r.Ok? ==> ValidJ(jMaxOf)
    {
      var (s, res) := SetupScaleArgs(extraArgs, 3, ScaleArgs(B, jMin, j), jMaxOf, eigenvalueCount);
      B, jMin, j := s.B, s.jMin, s.j;
      r := res;
    }

    /** `_create_coefficients`: the wavelets are `create_kappas(n, B,
        j_min)` and the coefficients the row `0` or `j + 1` of them. */
    method CreateCoefficients(axisymWavL: (int, nat, int) -> (seq<real>, seq<seq<real>>))
      returns (r: Result<seq<real>>)
      requires WaveletMethods.KappaShaped(axisymWavL(B, eigenvalueCount, jMin), eigenvalueCount)
      modifies this`wavelets
      ensures wavelets == WaveletMethods.CreateKappas(eigenvalueCount, B, jMin, axisymWavL)
      ensures r == SelectScale(wavelets, j)
    {
      wavelets := WaveletMethods.CreateKappas(eigenvalueCount, B, jMin, axisymWavL);
      r := SelectScale(wavelets, j);
    }
  }
}
