/** The concentration matrix of a region of a mesh, shared by both versions
    of the mesh Slepian class: entry (j, i) is the region integral of basis
    function j times basis function i. Each column is filled by its own
    call, below and on the diagonal only; the upper triangle is completed
    afterwards by symmetry. */
module MeshDMatrix {
  import opened ComplexNumbers
  import opened Numerics
  import opened IntegrationMethods
  import opened ParallelMethods
  import opened ArrayMethods
  import EigenMethods

  /** What the matrix needs of a mesh: its vertices and faces, the region
      on its vertices and the basis functions (the Laplacian's
      eigenvectors) sampled on its vertices. */
  datatype MeshData = MeshData(
    name: string,
    vertices: seq<seq<real>>,
    faces: seq<seq<nat>>,
    region: seq<bool>,
    basis: seq<seq<real>>)
  {
    ghost predicate Valid() {
      forall k | 0 <= k < |basis| :: |basis[k]| == |region|
    }

    /** The number of basis functions, `mesh_eigenvalues.shape[0]`. */
    function Size(): nat { |basis| }
  }

  /** `_integral(i, j)`: `integrate_region_mesh(region, vertices, faces,
      basis[i], basis[j])`, a real number for real basis functions. */
  function Integral(m: MeshData, i: nat, j: nat): (v: real)
    requires m.Valid() && i < m.Size() && j < m.Size()
    ensures v == Sum(seq(|m.region|, k requires 0 <= k < |m.region| =>
      if m.region[k] then m.basis[i][k] * m.basis[j][k] else 0.0))
  {
    var a, b := m.basis[i], m.basis[j];
    RealMeshIntegral(m.region, m.vertices, m.faces, a, b);
    assert seq(|a|, k requires 0 <= k < |a| => if m.region[k] then a[k] * b[k] else 0.0)
        == seq(|m.region|, k requires 0 <= k < |m.region| =>
             if m.region[k] then m.basis[i][k] * m.basis[j][k] else 0.0);
    IntegrateRegionMesh(m.region, m.vertices, m.faces, [RealField(m.basis[i]), RealField(m.basis[j])]).re
  }

  /** The integral is symmetric, which is why one triangle suffices. */
  lemma IntegralSymmetric(m: MeshData, i: nat, j: nat)
    requires m.Valid() && i < m.Size() && j < m.Size()
    ensures Integral(m, i, j) == Integral(m, j, i)
  {
    var a, b := RealField(m.basis[i]), RealField(m.basis[j]);
    IntegralsSymmetric(m.region, seq(|m.region|, _ => 1.0), m.vertices, m.faces, a, b);
    assert [a, b] == [RealField(m.basis[i]), RealField(m.basis[j])];
  }

  /** `_fill_D_elements(D, i)`: the diagonal entry and every entry below it
      in column `i`, and nothing else. */
  method FillDElements(D: array2<real>, m: MeshData, i: nat)
    requires m.Valid() && D.Length0 == D.Length1 == m.Size() && i < m.Size()
    modifies D
    ensures forall r, c | 0 <= r < m.Size() && 0 <= c < m.Size() ::
      D[r, c] == if c == i && i <= r then Integral(m, r, i) else old(D[r, c])
  {
    D[i, i] := Integral(m, i, i);
    var j := i + 1;
    while j < m.Size()
      invariant i < j <= m.Size()
      invariant forall r, c | 0 <= r < m.Size() && 0 <= c < m.Size() ::
        D[r, c] == if c == i && i <= r < j then Integral(m, r, i) else old(D[r, c])
    {
      D[j, i] := Integral(m, j, i);
      j := j + 1;
    }
  }

  /** `func(chunk)`: the columns of one chunk, in order. */
  method FillChunk(D: array2<real>, m: MeshData, chunk: seq<nat>)
    requires m.Valid() && D.Length0 == D.Length1 == m.Size()
    requires forall t | 0 <= t < |chunk| :: chunk[t] < m.Size()
    modifies D
    ensures forall r, c | 0 <= r < m.Size() && 0 <= c < m.Size() ::
      D[r, c] == if c in chunk && c <= r then Integral(m, r, c) else old(D[r, c])
  {
    var u := 0;
    while u < |chunk|
      invariant 0 <= u <= |chunk|
      invariant forall r, c | 0 <= r < m.Size() && 0 <= c < m.Size() ::
        D[r, c] == if c in chunk[..u] && c <= r then Integral(m, r, c) else old(D[r, c])
    {
      FillDElements(D, m, chunk[u]);
      assert chunk[..u + 1] == chunk[..u] + [chunk[u]];
      u := u + 1;
    }
    assert chunk[..u] == chunk;
  }

  /** `e.map(func, chunks)`, one chunk after another. */
  method FillChunks(D: array2<real>, m: MeshData, chunks: seq<seq<nat>>)
    requires m.Valid() && D.Length0 == D.Length1 == m.Size()
    requires forall t, x | 0 <= t < |chunks| && x in chunks[t] :: x < m.Size()
    modifies D
    ensures forall r, c | 0 <= r < m.Size() && 0 <= c < m.Size() ::
      D[r, c] == if InChunks(chunks, |chunks|, c) && c <= r then Integral(m, r, c) else old(D[r, c])
  {
    var t := 0;
    while t < |chunks|
      invariant 0 <= t <= |chunks|
      invariant forall r, c | 0 <= r < m.Size() && 0 <= c < m.Size() ::
        D[r, c] == if InChunks(chunks, t, c) && c <= r then Integral(m, r, c) else old(D[r, c])
    {
      var chunk := chunks[t];
      assert forall u | 0 <= u < |chunk| :: chunk[u] in chunks[t];
      FillChunk(D, m, chunk);
      forall c ensures InChunks(chunks, t + 1, c) <==> InChunks(chunks, t, c) || c in chunk {
        if c in chunk {
          assert c in chunks[t];
        }
      }
      t := t + 1;
    }
  }

  /** The lower triangle, diagonal included, of the integrals; zeros
      above. */
  function Lower(m: MeshData): (d: seq<seq<real>>)
    requires m.Valid()
    ensures IsSquare(d) && |d| == m.Size()
    ensures forall r, c | 0 <= r < m.Size() && 0 <= c < m.Size() ::
      d[r][c] == if c <= r then Integral(m, r, c) else 0.0
  {
    seq(m.Size(), r requires 0 <= r < m.Size() =>
      seq(m.Size(), c requires 0 <= c < m.Size() => if c <= r then Integral(m, r, c) else 0.0))
  }

  /** `_create_D_matrix()`: zeros, the columns split into `ncpu` chunks,
      each chunk filled. The result does not depend on `ncpu`. */
  method CreateDMatrix(m: MeshData, ncpu: nat) returns (D: array2<real>)
    requires m.Valid() && 1 <= ncpu
    ensures fresh(D) && D.Length0 == D.Length1 == m.Size()
    ensures Rows(D) == Lower(m)
  {
    var n := m.Size();
    D := new real[n, n]((r, c) => 0.0);
    var chunks := SplitArrIntoChunks(n, ncpu, 0);
    forall c | 0 <= c < n
      ensures InChunks(chunks, ncpu, c)
    {
      SplitMembers(n, ncpu, 0, c);
    }
    forall t, x | 0 <= t < ncpu && x in chunks[t]
      ensures x < n
    {
      SplitMembers(n, ncpu, 0, x);
    }
    FillChunks(D, m, chunks);
    assert forall r | 0 <= r < n :: Rows(D)[r] == Lower(m)[r];
  }

  /** The identity, the conjugation of a real matrix. */
  function RealConj(x: real): real { x }

  /** After the completion every entry of the matrix is the integral of its
      two basis functions, so the matrix is exactly symmetric. */
  lemma CompletedIsIntegrals(m: MeshData, r: nat, c: nat)
    requires m.Valid() && r < m.Size() && c < m.Size()
    ensures Completed(Lower(m), RealConj)[r][c] == Integral(m, r, c)
    ensures Completed(Lower(m), RealConj)[r][c] == Completed(Lower(m), RealConj)[c][r]
  {
    var d := Lower(m);
    var h := Completed(d, RealConj);
    assert h[r][c] == if r < c then RealConj(d[c][r]) else d[r][c];
    assert h[c][r] == if c < r then RealConj(d[r][c]) else d[c][r];
    IntegralSymmetric(m, r, c);
  }

  /** `LA.eigh`: the eigenvalues of a real symmetric matrix and the matrix
      whose columns are the matching eigenvectors. numpy's solver is not
      part of this model, so it is a parameter. */
  type Eigh = seq<seq<real>> -> (seq<real>, seq<seq<real>>)

  /** The solver returns one eigenvector entry per eigenvalue in each row. */
  ghost predicate Shaped(eigh: Eigh) {
    forall d :: EigenMethods.Width(eigh(d).1, |eigh(d).0|)
  }

  /** The cleaned eigen-decomposition of the completed matrix. */
  ghost function Solved(m: MeshData, eigh: Eigh): (s: (seq<real>, seq<seq<real>>))
    requires m.Valid() && Shaped(eigh)
    ensures |s.0| == |s.1| == |eigh(Completed(Lower(m), RealConj)).0|
  {
    var d := eigh(Completed(Lower(m), RealConj));
    EigenMethods.CleanEvalsAndEvecs(d.0, d.1)
  }

  /** The body of the "from scratch" branch: build the lower triangle,
      complete it, solve and clean. The eigen-problem solved is that of the
      symmetric matrix of region integrals, whatever `ncpu` is. */
  method SolveFromScratch(m: MeshData, ncpu: nat, eigh: Eigh) returns (evals: seq<real>, evecs: seq<seq<real>>)
    requires m.Valid() && 1 <= ncpu && Shaped(eigh)
    ensures (evals, evecs) == Solved(m, eigh)
  {
    var D := CreateDMatrix(m, ncpu);
    FillUpperTriangleOfHermitianMatrix(D, RealConj);
    var d := eigh(Rows(D));
    var cleaned := EigenMethods.CleanEvalsAndEvecs(d.0, d.1);
    evals, evecs := cleaned.0, cleaned.1;
  }

  /** The Slepian eigenvalues come out from the largest down, and every
      eigen-pair of the concentration matrix is among them. */
  lemma SolvedIsSortedEigenbasis(m: MeshData, eigh: Eigh, q: nat)
    requires m.Valid() && Shaped(eigh)
    requires q < |eigh(Completed(Lower(m), RealConj)).0|
    ensures var s := Solved(m, eigh);
      forall p, p' | 0 <= p < p' < |s.0| :: s.0[p] >= s.0[p']
    ensures var d, s := eigh(Completed(Lower(m), RealConj)), Solved(m, eigh);
      exists p | 0 <= p < |s.0| :: s.0[p] == d.0[q] && s.1[p] == EigenMethods.Column(d.1, q)
  {
    var d := eigh(Completed(Lower(m), RealConj));
    EigenMethods.CleanKeepsPairs(d.0, d.1, q);
  }
}
