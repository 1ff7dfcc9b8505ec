/** The mesh helpers of the current package: the inclusive bounding-box
    region, functions on vertices averaged onto faces, and the cached
    eigen-decomposition of the cotangent Laplacian with its basis functions
    normalised. The mesh library (its cotangent matrix and its averaging
    onto faces) and scipy's `eigsh` are not part of this model and come in
    as parameters. */
module MeshMethods {
  import opened ComplexNumbers
  import opened Errors
  import opened Strings
  import opened Numerics
  import opened IntegrationMethods
  import opened Storage
  import opened MeshConfig
  import LegacyMeshMethods
  import EigenMethods

  /** `create_mesh_region`: the vertices inside the closed box. */
  function CreateMeshRegion(b: Bounds, vertices: seq<seq<real>>): (region: seq<bool>)
    requires AllVertices(vertices)
    ensures |region| == |vertices|
    ensures forall k | 0 <= k < |vertices| :: region[k] <==> InsideInclusive(b, vertices[k])
  {
    seq(|vertices|, k requires 0 <= k < |vertices| => InsideInclusive(b, vertices[k]))
  }

  /** The strict region of the earlier package lies within this one, and
      the two differ exactly at vertices on a face of the box. */
  lemma StrictRegionWithinInclusive(b: Bounds, vertices: seq<seq<real>>, k: nat)
    requires AllVertices(vertices) && k < |vertices|
    ensures LegacyMeshMethods.CreateMeshRegion(b, vertices)[k] ==> CreateMeshRegion(b, vertices)[k]
    ensures var v := vertices[k];
      CreateMeshRegion(b, vertices)[k] && !LegacyMeshMethods.CreateMeshRegion(b, vertices)[k] <==>
      InsideInclusive(b, v) && (v[0] in {b.xMin, b.xMax} || v[1] in {b.yMin, b.yMax} || v[2] in {b.zMin, b.zMax})
  {
    StrictIsInclusiveOffTheFaces(b, vertices[k]);
  }

  /** A one-dimensional array (one function) or a two-dimensional one (one
      function per row). */
  datatype Functions = Vector(values: seq<real>) | Matrix(rows: seq<seq<real>>)

  /** The mesh library's `average_onto_faces(faces, f)`. */
  type AverageOntoFaces = (seq<seq<nat>>, seq<real>) -> seq<real>

  /** Averaging gives one value per face. */
  ghost predicate OneValuePerFace(average: AverageOntoFaces) {
    forall faces, f :: |average(faces, f)| == |faces|
  }

  /** `average_functions_on_vertices_to_faces`: a vector gives a vector of
      one value per face, a `k`-row matrix a `k`-row matrix of them, each
      row the average of the matching input row. */
  method AverageFunctionsOnVerticesToFaces(faces: seq<seq<nat>>, functionsOnVertices: Functions, average: AverageOntoFaces)
    returns (functionsOnFaces: Functions)
    requires OneValuePerFace(average)
    ensures functionsOnFaces.Vector? <==> functionsOnVertices.Vector?
    ensures functionsOnVertices.Vector? ==>
      |functionsOnFaces.values| == |faces| && functionsOnFaces.values == average(faces, functionsOnVertices.values)
    ensures functionsOnVertices.Matrix? ==>
      |functionsOnFaces.rows| == |functionsOnVertices.rows|
      && forall i | 0 <= i < |functionsOnVertices.rows| ::
           |functionsOnFaces.rows[i]| == |faces| && functionsOnFaces.rows[i] == average(faces, functionsOnVertices.rows[i])
  {
    var arrayIs1d := functionsOnVertices.Vector?;
    var rows := if arrayIs1d then [functionsOnVertices.values] else functionsOnVertices.rows;
    var onFaces := new real[|rows|, |faces|]((i, j) => 0.0);
    for i := 0 to |rows|
      invariant forall q, j | 0 <= q < i && 0 <= j < |faces| :: onFaces[q, j] == average(faces, rows[q])[j]
    {
      var g := average(faces, rows[i]);
      for j := 0 to |faces|
        invariant forall q, c | 0 <= q < i && 0 <= c < |faces| :: onFaces[q, c] == average(faces, rows[q])[c]
        invariant forall c | 0 <= c < j :: onFaces[i, c] == g[c]
      {
        onFaces[i, j] := g[j];
      }
    }
    var result := seq(|rows|, i requires 0 <= i < |rows| reads onFaces =>
      seq(|faces|, j requires 0 <= j < |faces| reads onFaces => onFaces[i, j]));
    if arrayIs1d {
      functionsOnFaces := Vector(result[0]);
    } else {
      functionsOnFaces := Matrix(result);
    }
  }

  /** The pointwise squares of `phi`. */
  function Squares(phi: seq<real>): (r: seq<real>)
    ensures |r| == |phi| && forall k | 0 <= k < |phi| :: r[k] == phi[k] * phi[k]
  {
    seq(|phi|, k requires 0 <= k < |phi| => phi[k] * phi[k])
  }

  /** `integrate_whole_mesh(vertices, faces, phi, phi)` for a real `phi`:
      the sum of its squares. */
  function SquareNorm(vertices: seq<seq<real>>, faces: seq<seq<nat>>, phi: seq<real>): (v: real)
    ensures v == Sum(Squares(phi))
  {
    var fs := [RealField(phi), RealField(phi)];
    var all := seq(|phi|, k => true);
    RegionMeshExtremes(all, vertices, faces, fs);
    RealMeshIntegral(all, vertices, faces, phi, phi);
    assert seq(|phi|, k requires 0 <= k < |phi| => if all[k] then phi[k] * phi[k] else 0.0)
        == Squares(phi);
    IntegrateWholeMesh(vertices, faces, fs).re
  }

  /** Every basis function has a non-zero norm. */
  predicate NonZero(vertices: seq<seq<real>>, faces: seq<seq<nat>>, basis: seq<seq<real>>) {
    forall i | 0 <= i < |basis| :: SquareNorm(vertices, faces, basis[i]) > 0.0
  }

  /** Each basis function divided by the square root of its norm. */
  function Normalised(vertices: seq<seq<real>>, faces: seq<seq<nat>>, basis: seq<seq<real>>, sqrt: real -> real)
    : (r: seq<seq<real>>)
    requires IsSqrt(sqrt) && NonZero(vertices, faces, basis)
    ensures |r| == |basis|
    ensures forall i | 0 <= i < |basis| :: |r[i]| == |basis[i]|
  {
    seq(|basis|, i requires 0 <= i < |basis| =>
      var s := sqrt(SquareNorm(vertices, faces, basis[i]));
      SqrtPositive(sqrt, SquareNorm(vertices, faces, basis[i]));
      seq(|basis[i]|, k requires 0 <= k < |basis[i]| => basis[i][k] / s))
  }

  /** After normalisation every basis function has norm 1. */
  lemma NormalisedHasUnitNorm(vertices: seq<seq<real>>, faces: seq<seq<nat>>, basis: seq<seq<real>>,
                              sqrt: real -> real, i: nat)
    requires IsSqrt(sqrt) && NonZero(vertices, faces, basis) && i < |basis|
    ensures SquareNorm(vertices, faces, Normalised(vertices, faces, basis, sqrt)[i]) == 1.0
  {
    var phi := basis[i];
    var n := SquareNorm(vertices, faces, phi);
    var s := sqrt(n);
    SqrtPositive(sqrt, n);
    assert s * s == n;
    var psi := Normalised(vertices, faces, basis, sqrt)[i];
    assert forall k | 0 <= k < |psi| :: psi[k] == phi[k] / s;
    QuotientHasUnitNorm(phi, psi, s, n);
  }

  /** Dividing a function by the square root of its sum of squares leaves
      a sum of squares of 1. */
  lemma QuotientHasUnitNorm(phi: seq<real>, psi: seq<real>, s: real, n: real)
    requires 0.0 < n && 0.0 < s && s * s == n
    requires |psi| == |phi| && forall k | 0 <= k < |psi| :: psi[k] == phi[k] / s
    requires Sum(Squares(phi)) == n
    ensures Sum(Squares(psi)) == 1.0
  {
    var squares, scaled := Squares(phi), Squares(psi);
    forall k | 0 <= k < |psi| ensures scaled[k] * n == squares[k] {
      EntryScaled(phi[k], psi[k], s, n);
    }
    SumTimes(n, squares, scaled);
    assert (Sum(scaled) - 1.0) * n == 0.0;
  }

  /** `(x / s)^2 * n == x^2` when `s` is the square root of `n`. */
  lemma EntryScaled(x: real, y: real, s: real, n: real)
    requires 0.0 < s && s * s == n && y == x / s
    ensures (y * y) * n == x * x
  {
    assert y * s == x;
    assert (y * y) * (s * s) == (y * s) * (y * s);
  }

  /** `_orthonormalise_basis_functions`: the norm of each basis function,
      one at a time, then each divided by the square root of its norm. */
  method OrthonormaliseBasisFunctions(vertices: seq<seq<real>>, faces: seq<seq<nat>>, basis: seq<seq<real>>,
                                      sqrt: real -> real)
    returns (r: seq<seq<real>>)
    requires IsSqrt(sqrt) && NonZero(vertices, faces, basis)
    ensures r == Normalised(vertices, faces, basis, sqrt)
  {
    var factor := new real[|basis|];
    for i := 0 to |basis|
      invariant forall q | 0 <= q < i :: factor[q] == SquareNorm(vertices, faces, basis[q])
    {
      factor[i] := IntegrateWholeMesh(vertices, faces, [RealField(basis[i]), RealField(basis[i])]).re;
    }
    r := [];
    for i := 0 to |basis|
      invariant forall q | 0 <= q < |basis| :: factor[q] == SquareNorm(vertices, faces, basis[q])
      invariant |r| == i && forall q | 0 <= q < i :: r[q] == Normalised(vertices, faces, basis, sqrt)[q]
    {
      var normalisation := sqrt(factor[i]);
      SqrtPositive(sqrt, factor[i]);
      r := r + [seq(|basis[i]|, k requires 0 <= k < |basis[i]| => basis[i][k] / normalisation)];
    }
  }

  /** `_mesh_laplacian`: minus the cotangent matrix. */
  function MeshLaplacian(cotmatrix: seq<seq<real>>): (lap: seq<seq<real>>)
    ensures |lap| == |cotmatrix|
    ensures forall r | 0 <= r < |lap| ::
      |lap[r]| == |cotmatrix[r]| && (forall c | 0 <= c < |lap[r]| :: lap[r][c] == -cotmatrix[r][c])
  {
    seq(|cotmatrix|, r requires 0 <= r < |cotmatrix| =>
      seq(|cotmatrix[r]|, c requires 0 <= c < |cotmatrix[r]| => -cotmatrix[r][c]))
  }

  /** `m.T` for a matrix with `w` columns. */
  function Transpose(m: seq<seq<real>>, w: nat): (t: seq<seq<real>>)
    requires EigenMethods.Width(m, w)
    ensures |t| == w && forall j | 0 <= j < w :: t[j] == EigenMethods.Column(m, j)
  {
    seq(w, j requires 0 <= j < w => EigenMethods.Column(m, j))
  }

  /** scipy's `eigsh(laplacian, k=k, which="LM", sigma=0)`: `k` eigenvalues
      and the matrix whose columns are the matching eigenvectors. */
  type Eigsh = (seq<seq<real>>, int) -> (seq<real>, seq<seq<real>>)

  /** The solver gives a column per eigenvalue, and no eigenvector is zero. */
  ghost predicate EigshShaped(eigsh: Eigsh, vertices: seq<seq<real>>, faces: seq<seq<nat>>) {
    forall d, k :: EigenMethods.Width(eigsh(d, k).1, |eigsh(d, k).0|)
      && NonZero(vertices, faces, Transpose(eigsh(d, k).1, |eigsh(d, k).0|))
  }

  /** The number of basis functions: the one given, or a quarter of the
      vertices. */
  function NumberBasisFunctions(vertices: seq<seq<real>>, given: Option<int>): (b: int)
    ensures given.None? ==> 0 <= b && 4 * b <= |vertices| < 4 * b + 4
    ensures given.Some? ==> b == given.value
  {
    if given.None? then |vertices| / 4 else given.value
  }

  /** The file name the cache names start from. */
  function BasisFunctionsName(name: string, b: int): string {
    "meshes_laplacians_basis_functions_" + name + "_b" + IntToString(b)
  }

  /** The position of the last `.` in `s`, or -1. */
  function LastDot(s: string): (i: int)
    ensures -1 <= i < |s|
    ensures 0 <= i ==> s[i] == '.' && '.' !in s[i + 1..]
    ensures i == -1 <==> '.' !in s
  {
    if s == [] then -1
    else if s[|s| - 1] == '.' then |s| - 1
    else
      var i := LastDot(s[..|s| - 1]);
      assert s == s[..|s| - 1] + [s[|s| - 1]];
      i
  }

  /** `PurePath(name).stem`: the name without its last suffix, a suffix
      being a `.` that neither starts nor ends the name and what follows
      it. */
  function Stem(name: string): (r: string)
    ensures r <= name
    ensures '.' !in name ==> r == name
  {
    var i := LastDot(name);
    if 0 < i < |name| - 1 then name[..i] else name
  }

  /** The cache files as written: `eigd_loc.with_name(f"{eigd_loc.stem}_
      eigenvalues.npy")`, which drops everything after a `.` in the mesh
      name. */
  function EvalLocationAsWritten(dataPath: string, name: string, b: int): (loc: string)
    ensures |loc| > |dataPath| + 16
    ensures loc[..|dataPath| + 1] == dataPath + "/" && loc[|loc| - 16..] == "_eigenvalues.npy"
  {
    dataPath + "/" + Stem(BasisFunctionsName(name, b)) + "_eigenvalues.npy"
  }

  function EvecLocationAsWritten(dataPath: string, name: string, b: int): string {
    dataPath + "/" + Stem(BasisFunctionsName(name, b)) + "_eigenvectors.npy"
  }

  /** The cache files as intended: the full name with its suffix. The
      eigenvalue file lies in `dataPath` and is never the eigenvector
      file. */
  function EvalLocation(dataPath: string, name: string, b: int): (loc: string)
    ensures |loc| > |dataPath| + 16
    ensures loc[..|dataPath| + 1] == dataPath + "/" && loc[|loc| - 16..] == "_eigenvalues.npy"
    ensures loc != EvecLocation(dataPath, name, b)
  {
    dataPath + "/" + BasisFunctionsName(name, b) + "_eigenvalues.npy"
  }

  function EvecLocation(dataPath: string, name: string, b: int): string {
    dataPath + "/" + BasisFunctionsName(name, b) + "_eigenvectors.npy"
  }

  /** `p . t` with no `.` in `t` has its last `.` right after `p`. */
  lemma LastDotAfter(p: string, t: string)
    requires '.' !in t
    ensures LastDot(p + "." + t) == |p|
  {
    assert (p + "." + t)[|p|] == '.';
  }

  /** A number written out has no `.` in it. */
  lemma NoDotInNumber(b: int)
    ensures '.' !in IntToString(b)
  {
    if b < 0 {
      assert IntToString(b) == "-" + NatToString(-b);
    }
  }

  /** For a mesh named `a.b` the written cache file is the same whatever
      the number of basis functions. */
  lemma DottedNameSharesCacheFile(dataPath: string, b: int, b': int)
    ensures EvalLocationAsWritten(dataPath, "a.b", b) == EvalLocationAsWritten(dataPath, "a.b", b')
  {
    var p := "meshes_laplacians_basis_functions_a";
    StemOfDotted(p, b);
    StemOfDotted(p, b');
  }

  /** The stem of `p.b_b<b>` is `p`. */
  lemma StemOfDotted(p: string, b: int)
    requires p == "meshes_laplacians_basis_functions_a"
    ensures Stem(BasisFunctionsName("a.b", b)) == p
  {
    var t := "b_b" + IntToString(b);
    NoDotInNumber(b);
    assert '.' !in t;
    var name := BasisFunctionsName("a.b", b);
    assert name == p + "." + t;
    LastDotAfter(p, t);
  }

  /** Without a `.` in the mesh name the two agree. */
  lemma AsWrittenAgreesWithoutDot(dataPath: string, name: string, b: int)
    requires '.' !in name
    ensures EvalLocationAsWritten(dataPath, name, b) == EvalLocation(dataPath, name, b)
    ensures EvecLocationAsWritten(dataPath, name, b) == EvecLocation(dataPath, name, b)
  {
    var s := BasisFunctionsName(name, b);
    NoDotInNumber(b);
    assert '.' !in s by {
      assert s == "meshes_laplacians_basis_functions_" + name + "_b" + IntToString(b);
    }
    assert Stem(s) == s;
  }

  /** With the intended names different basis counts never share a cache
      file, and the eigenvalues and eigenvectors never share one. */
  lemma LocationsDistinct(dataPath: string, name: string, b: int, b': int)
    ensures EvalLocation(dataPath, name, b) == EvalLocation(dataPath, name, b') ==> b == b'
    ensures EvalLocation(dataPath, name, b) != EvecLocation(dataPath, name, b)
  {
    if EvalLocation(dataPath, name, b) == EvalLocation(dataPath, name, b') {
      var head := dataPath + "/" + "meshes_laplacians_basis_functions_" + name + "_b";
      var tail := "_eigenvalues.npy";
      EvalLocationParts(dataPath, name, b, head, tail);
      EvalLocationParts(dataPath, name, b', head, tail);
      CancelAround(head, IntToString(b), IntToString(b'), tail);
      IntToStringInjective(b, b');
    }
    EvalShorterThanEvec(dataPath, name, b);
  }

  /** The cache file of the eigenvalues around the number in it. */
  lemma EvalLocationParts(dataPath: string, name: string, b: int, head: string, tail: string)
    requires head == dataPath + "/" + "meshes_laplacians_basis_functions_" + name + "_b"
    requires tail == "_eigenvalues.npy"
    ensures EvalLocation(dataPath, name, b) == head + IntToString(b) + tail
  {
    var n := "meshes_laplacians_basis_functions_" + name + "_b";
    var d := IntToString(b);
    assert BasisFunctionsName(name, b) == n + d;
    assert dataPath + "/" + (n + d) == dataPath + "/" + n + d;
  }

  lemma EvalShorterThanEvec(dataPath: string, name: string, b: int)
    ensures |EvalLocation(dataPath, name, b)| < |EvecLocation(dataPath, name, b)|
  {
    var s := dataPath + "/" + BasisFunctionsName(name, b);
    assert EvalLocation(dataPath, name, b) == s + "_eigenvalues.npy";
    assert EvecLocation(dataPath, name, b) == s + "_eigenvectors.npy";
  }

  /** What `mesh_eigendecomposition` returns and leaves on disk, with its
      cache files at `evalLoc` and `evecLoc`: the cached binaries when both
      exist; otherwise the `b` eigenvalues and the normalised eigenvectors,
      saved only under `SAVE_MATRICES`. */
  ghost predicate Decomposed(before: map<string, Stored>, after: map<string, Stored>,
                             evalLoc: string, evecLoc: string, vertices: seq<seq<real>>, faces: seq<seq<nat>>,
                             b: int, saveMatrices: bool, cotmatrix: seq<seq<real>>, eigsh: Eigsh,
                             sqrt: real -> real, eigenvalues: Stored, eigenvectors: Stored)
    requires EigshShaped(eigsh, vertices, faces) && IsSqrt(sqrt)
  {
    if evalLoc in before && evecLoc in before then
      eigenvalues == before[evalLoc] && eigenvectors == before[evecLoc] && after == before
    else
      var e := eigsh(MeshLaplacian(cotmatrix), b);
      var basis := Normalised(vertices, faces, Transpose(e.1, |e.0|), sqrt);
      eigenvalues == RealArray(e.0) && eigenvectors == RealMatrix(basis)
      && after == if saveMatrices then before[evalLoc := RealArray(e.0)][evecLoc := RealMatrix(basis)] else before
  }

  /** `mesh_eigendecomposition`, returning the number of basis functions it
      used as well. Its cache files are named as written, from the stem;
      for a mesh name without a `.` they are the intended ones. */
  method MeshEigendecomposition(disk: Disk, dataPath: string, name: string, vertices: seq<seq<real>>,
                                faces: seq<seq<nat>>, numberBasisFunctions: Option<int>, saveMatrices: bool,
                                cotmatrix: seq<seq<real>>, eigsh: Eigsh, sqrt: real -> real)
    returns (eigenvalues: Stored, eigenvectors: Stored, b: int)
    requires EigshShaped(eigsh, vertices, faces) && IsSqrt(sqrt)
    modifies disk
    ensures b == NumberBasisFunctions(vertices, numberBasisFunctions)
    ensures Decomposed(old(disk.files), disk.files,
                       EvalLocationAsWritten(dataPath, name, b), EvecLocationAsWritten(dataPath, name, b),
                       vertices, faces, b, saveMatrices, cotmatrix, eigsh, sqrt, eigenvalues, eigenvectors)
    ensures '.' !in name ==>
      Decomposed(old(disk.files), disk.files, EvalLocation(dataPath, name, b), EvecLocation(dataPath, name, b),
                 vertices, faces, b, saveMatrices, cotmatrix, eigsh, sqrt, eigenvalues, eigenvectors)
  {
    b := NumberBasisFunctions(vertices, numberBasisFunctions);
    var evalLoc, evecLoc := EvalLocationAsWritten(dataPath, name, b), EvecLocationAsWritten(dataPath, name, b);
    if disk.Exists(evalLoc) && disk.Exists(evecLoc) {
      eigenvalues, eigenvectors := disk.files[evalLoc], disk.files[evecLoc];
    } else {
      var laplacian := MeshLaplacian(cotmatrix);
      var e := eigsh(laplacian, b);
      var basis := OrthonormaliseBasisFunctions(vertices, faces, Transpose(e.1, |e.0|), sqrt);
      eigenvalues, eigenvectors := RealArray(e.0), RealMatrix(basis);
      if saveMatrices {
        disk.Save(evalLoc, eigenvalues);
        disk.Save(evecLoc, eigenvectors);
      }
    }
    if '.' !in name {
      AsWrittenAgreesWithoutDot(dataPath, name, b);
    }
  }
}
