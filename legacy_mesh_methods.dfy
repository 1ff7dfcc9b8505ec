/** The mesh helpers of the earlier package: the strict bounding-box region,
    the graph Laplacian of the mesh's adjacency matrix, its cleaned
    eigen-decomposition, and integrals against the mass matrix. The mesh
    library's adjacency and mass matrices and numpy's `eigh` are not part of
    this model and come in as parameters. */
module LegacyMeshMethods {
  import opened ComplexNumbers
  import opened Numerics
  import opened ArrayMethods
  import opened MeshConfig
  import EigenMethods

  /** `create_mesh_region`: the vertices strictly inside the box. */
  function CreateMeshRegion(b: Bounds, vertices: seq<seq<real>>): (region: seq<bool>)
    requires AllVertices(vertices)
    ensures |region| == |vertices|
    ensures forall k | 0 <= k < |vertices| :: region[k] <==> InsideStrict(b, vertices[k])
  {
    seq(|vertices|, k requires 0 <= k < |vertices| => InsideStrict(b, vertices[k]))
  }

  /** `_graph_laplacian`: the adjacency matrix minus the diagonal matrix of
      its row sums, `A - D` (the opposite sign of the usual `D - A`). */
  function GraphLaplacian(a: seq<seq<real>>): (lap: seq<seq<real>>)
    requires IsSquare(a)
    ensures IsSquare(lap) && |lap| == |a|
    ensures forall r, c | 0 <= r < |a| && 0 <= c < |a| && r != c :: lap[r][c] == a[r][c]
    ensures forall r | 0 <= r < |a| :: lap[r][r] == a[r][r] - Sum(a[r])
  {
    seq(|a|, r requires 0 <= r < |a| =>
      seq(|a|, c requires 0 <= c < |a| => a[r][c] - if r == c then Sum(a[r]) else 0.0))
  }

  predicate Symmetric(m: seq<seq<real>>)
    requires IsSquare(m)
  {
    forall r, c | 0 <= r < |m| && 0 <= c < |m| :: m[r][c] == m[c][r]
  }

  /** Every row of the Laplacian sums to zero. */
  lemma LaplacianRowsSumToZero(a: seq<seq<real>>, r: nat)
    requires IsSquare(a) && r < |a|
    ensures Sum(GraphLaplacian(a)[r]) == 0.0
  {
    var lap := GraphLaplacian(a);
    assert lap[r] == a[r][r := a[r][r] + -Sum(a[r])];
    SumUpdate(a[r], r, -Sum(a[r]));
  }

  /** The Laplacian is symmetric exactly when the adjacency matrix is. */
  lemma LaplacianSymmetric(a: seq<seq<real>>)
    requires IsSquare(a)
    ensures Symmetric(GraphLaplacian(a)) <==> Symmetric(a)
  {
    var lap := GraphLaplacian(a);
    if Symmetric(lap) {
      forall r, c | 0 <= r < |a| && 0 <= c < |a|
        ensures a[r][c] == a[c][r]
      {
        if r != c {
          assert lap[r][c] == lap[c][r];
        }
      }
    }
  }

  /** With no self-loops the diagonal holds minus the vertex degree. */
  lemma LaplacianDiagonalIsMinusDegree(a: seq<seq<real>>, r: nat)
    requires IsSquare(a) && r < |a| && a[r][r] == 0.0
    ensures GraphLaplacian(a)[r][r] == -Sum(a[r])
  {
  }

  /** `LA.eigh` of a real symmetric matrix, in the complex array numpy
      returns it as here: the eigenvalues and the matrix whose columns are
      the eigenvectors, one row per row of the input. */
  type ComplexEigh = seq<seq<real>> -> (seq<real>, seq<seq<Complex>>)

  ghost predicate Shaped(eigh: ComplexEigh) {
    forall d :: EigenMethods.Width(eigh(d).1, |eigh(d).0|) && |eigh(d).1| == |d|
  }

  /** `mesh_eigendecomposition`: the cleaned eigen-decomposition of the
      graph Laplacian of the mesh's adjacency matrix. */
  method MeshEigendecomposition(adjacency: seq<seq<real>>, eigh: ComplexEigh)
    returns (evals: seq<real>, evecs: array2<Complex>)
    requires IsSquare(adjacency) && |adjacency| >= 1 && Shaped(eigh)
    ensures var d := eigh(GraphLaplacian(adjacency));
      evals == EigenMethods.Reorder(d.0, EigenMethods.DescendingOrder(d.0))
    ensures var d := eigh(GraphLaplacian(adjacency));
      evecs.Length0 == |d.0| && evecs.Length1 == |d.1| == |adjacency|
    ensures var d := eigh(GraphLaplacian(adjacency));
      forall p, k | 0 <= p < |d.0| && 0 <= k < |d.1| ::
        evecs[p, k] == EigenMethods.SignFixed(EigenMethods.LegacyRows(d.0, d.1)[p])[k]
  {
    var laplacian := GraphLaplacian(adjacency);
    var d := eigh(laplacian);
    evals, evecs := EigenMethods.CleanEvalsAndEvecsLegacy(d.0, d.1);
  }

  /** `mass.dot(f)`: the mass matrix applied to a function on the
      vertices. */
  function MassDot(mass: seq<seq<real>>, f: seq<real>): (g: seq<real>)
    requires forall r | 0 <= r < |mass| :: |mass[r]| == |f|
    ensures |g| == |mass| && forall r | 0 <= r < |mass| :: g[r] == Dot(mass[r], f)
  {
    seq(|mass|, r requires 0 <= r < |mass| => Dot(mass[r], f))
  }

  predicate MassFits(mass: seq<seq<real>>, n: nat) {
    forall r | 0 <= r < |mass| :: |mass[r]| == n
  }

  /** `integrate_whole_mesh`: `mass.dot(function).sum()`, which is 0 for
      the zero function whatever the mass matrix. */
  function IntegrateWholeMesh(mass: seq<seq<real>>, f: seq<real>): (v: real)
    requires MassFits(mass, |f|)
    ensures (forall k | 0 <= k < |f| :: f[k] == 0.0) ==> v == 0.0
  {
    MassDotOfZero(mass, f);
    Sum(MassDot(mass, f))
  }

  lemma MassDotOfZero(mass: seq<seq<real>>, f: seq<real>)
    requires MassFits(mass, |f|)
    ensures (forall k | 0 <= k < |f| :: f[k] == 0.0) ==> Sum(MassDot(mass, f)) == 0.0
  {
    if forall k | 0 <= k < |f| :: f[k] == 0.0 {
      var g := MassDot(mass, f);
      forall r | 0 <= r < |mass| ensures g[r] == 0.0 {
        DotZero(mass[r], f);
      }
      SumOfZeros(g);
    }
  }

  /** `function * mask`, the mask read as 0 or 1. */
  function Masked(f: seq<real>, mask: seq<bool>): (g: seq<real>)
    requires |f| == |mask|
    ensures |g| == |f| && forall k | 0 <= k < |f| :: g[k] == if mask[k] then f[k] else 0.0
  {
    seq(|f|, k requires 0 <= k < |f| => if mask[k] then f[k] else 0.0)
  }

  /** `integrate_region_mesh`: `mass.dot(function * mask).sum()`, the
      whole-mesh integral of the masked function. */
  function IntegrateRegionMesh(mass: seq<seq<real>>, f: seq<real>, mask: seq<bool>): (v: real)
    requires |f| == |mask| && MassFits(mass, |f|)
    ensures v == IntegrateWholeMesh(mass, Masked(f, mask))
  {
    Sum(MassDot(mass, Masked(f, mask)))
  }

  function Complement(mask: seq<bool>): (c: seq<bool>)
    ensures |c| == |mask| && forall k | 0 <= k < |mask| :: c[k] == !mask[k]
  {
    seq(|mask|, k requires 0 <= k < |mask| => !mask[k])
  }

  /** The integrals over a region and over the rest of the mesh add up to
      the integral over the whole mesh; the full mask gives the whole-mesh
      integral and the empty mask zero. */
  lemma RegionAndComplementMakeWhole(mass: seq<seq<real>>, f: seq<real>, mask: seq<bool>)
    requires |f| == |mask| && MassFits(mass, |f|)
    ensures IntegrateRegionMesh(mass, f, mask) + IntegrateRegionMesh(mass, f, Complement(mask))
         == IntegrateWholeMesh(mass, f)
    ensures (forall k | 0 <= k < |mask| :: mask[k]) ==> IntegrateRegionMesh(mass, f, mask) == IntegrateWholeMesh(mass, f)
    ensures (forall k | 0 <= k < |mask| :: !mask[k]) ==> IntegrateRegionMesh(mass, f, mask) == 0.0
  {
    var x, y := Masked(f, mask), Masked(f, Complement(mask));
    var gx, gy, g := MassDot(mass, x), MassDot(mass, y), MassDot(mass, f);
    forall r | 0 <= r < |mass| ensures g[r] == gx[r] + gy[r] {
      DotAdd(mass[r], x, y, f);
    }
    SumAdd(gx, gy, g);
    if forall k | 0 <= k < |mask| :: mask[k] {
      assert x == f;
    }
    if forall k | 0 <= k < |mask| :: !mask[k] {
      forall r | 0 <= r < |mass| ensures gx[r] == 0.0 {
        DotZero(mass[r], x);
      }
      SumOfZeros(gx);
    }
  }
}
