/** Masks of regions: on the sampling grid of the sphere (a polar cap, a
    latitude-longitude box, or a mask read from a file), and on a mesh (a
    bounding box on the vertices, then carried over to the faces). The
    sampling positions come in as parameters, and the mask files as a map
    from file name to mask. */
module MaskMethods {
  import opened Errors
  import opened Strings
  import opened Numerics
  import opened BoolMethods
  import opened Region
  import opened MeshConfig
  import MeshMethods

  /** A grid of `rows × cols` entries. */
  predicate IsGrid<T>(m: seq<seq<T>>, rows: nat, cols: nat) {
    |m| == rows && forall r | 0 <= r < rows :: |m[r]| == cols
  }

  /** `mask.shape == thetas.shape`. */
  predicate SameShape<T, U>(a: seq<seq<T>>, b: seq<seq<U>>) {
    |a| == |b| && forall r | 0 <= r < |a| :: |a[r]| == |b[r]|
  }

  /** The positions of the sampling grid, `thetas` and `phis`, one per
      sample. */
  datatype Grid = Grid(thetas: seq<seq<real>>, phis: seq<seq<real>>) {
    predicate Valid() { SameShape(thetas, phis) }
  }

  /** `_load_mask(name)`: the stored mask, or `FileNotFoundError`. */
  function LoadMask(masks: map<string, seq<seq<bool>>>, maskName: string): (r: Result<seq<seq<bool>>>)
    ensures r.Ok? <==> maskName in masks
    ensures r.Ok? ==> r.value == masks[maskName]
    ensures r.Err? ==> r.error == FileNotFoundError
  {
    if maskName in masks then Ok(masks[maskName]) else Err(FileNotFoundError)
  }

  /** The pointwise latitude-longitude box. */
  predicate InBox(a: Angles, theta: real, phi: real) {
    a.thetaMin <= theta <= a.thetaMax && a.phiMin <= phi <= a.phiMax
  }

  /** The pointwise polar cap, with the southern cap when `gap` is set. */
  predicate InCap(thetaMax: real, gap: bool, theta: real) {
    theta <= thetaMax || (gap && theta >= Pi - thetaMax)
  }

  /** The mask file of an arbitrary region at bandlimit `L`. */
  function MaskFileName(maskName: string, L: nat): (file: string)
    ensures |file| > |maskName| + 4
    ensures file[..|maskName|] == maskName && file[|file| - 4..] == ".npy"
  {
    maskName + "_L" + NatToString(L) + ".npy"
  }

  /** Two bandlimits never share a mask file. */
  lemma MaskFilePerBandlimit(maskName: string, L1: nat, L2: nat)
    requires MaskFileName(maskName, L1) == MaskFileName(maskName, L2)
    ensures L1 == L2
  {
    assert MaskFileName(maskName, L1) == (maskName + "_L") + NatToString(L1) + ".npy";
    assert MaskFileName(maskName, L2) == (maskName + "_L") + NatToString(L2) + ".npy";
    CancelAround(maskName + "_L", NatToString(L1), NatToString(L2), ".npy");
    NatToStringRoundTrip(L1);
    NatToStringRoundTrip(L2);
  }

  /** `create_mask_region`: the file mask of an arbitrary region, which
      must have the grid's shape; otherwise the box or the cap evaluated at
      every sample. */
  function CreateMaskRegion(L: nat, region: Region, grid: Grid, masks: map<string, seq<seq<bool>>>)
    : (r: Result<seq<seq<bool>>>)
    requires grid.Valid()
    requires region.regionType == Arbitrary ==> region.maskName.Some?
    reads region
    ensures region.regionType != Arbitrary ==> r.Ok? && SameShape(r.value, grid.thetas)
    ensures region.regionType == LimLatLon ==> forall i, j | 0 <= i < |grid.thetas| && 0 <= j < |grid.thetas[i]| ::
      r.value[i][j] <==> InBox(region.angles, grid.thetas[i][j], grid.phis[i][j])
    ensures region.regionType == Polar ==> forall i, j | 0 <= i < |grid.thetas| && 0 <= j < |grid.thetas[i]| ::
      r.value[i][j] <==> InCap(region.angles.thetaMax, region.gap, grid.thetas[i][j])
    ensures region.regionType == Arbitrary ==>
      var file := MaskFileName(region.maskName.value, L);
      (r.Ok? <==> file in masks && SameShape(masks[file], grid.thetas))
      && (r.Ok? ==> r.value == masks[file])
      && (file !in masks ==> r == Err(FileNotFoundError))
      && (file in masks && !SameShape(masks[file], grid.thetas) ==> r == Err(AssertionError))
  {
    var thetas, phis := grid.thetas, grid.phis;
    match region.regionType
    case Arbitrary =>
      var mask :- LoadMask(masks, MaskFileName(region.maskName.value, L));
      if SameShape(mask, thetas) then Ok(mask) else Err(AssertionError)
    case LimLatLon =>
      Ok(seq(|thetas|, i requires 0 <= i < |thetas| =>
        seq(|thetas[i]|, j requires 0 <= j < |thetas[i]| => InBox(region.angles, thetas[i][j], phis[i][j]))))
    case Polar =>
      Ok(seq(|thetas|, i requires 0 <= i < |thetas| =>
        seq(|thetas[i]|, j requires 0 <= j < |thetas[i]| => InCap(region.angles.thetaMax, region.gap, thetas[i][j]))))
  }

  /** The cap with its southern gap contains the plain cap. */
  lemma GapCapContainsCap(thetaMax: real, theta: real)
    ensures InCap(thetaMax, false, theta) ==> InCap(thetaMax, true, theta)
    ensures InCap(thetaMax, true, theta) && !InCap(thetaMax, false, theta) <==> thetaMax < theta && theta >= Pi - thetaMax
  {
  }

  /** `create_mesh_region` of this module: the vertices inside the closed
      box, the same region as the mesh helpers give. */
  function CreateMeshRegion(b: Bounds, vertices: seq<seq<real>>): (region: seq<bool>)
    requires AllVertices(vertices)
    ensures |region| == |vertices|
    ensures forall k | 0 <= k < |vertices| :: region[k] <==> InsideInclusive(b, vertices[k])
  {
    MeshMethods.CreateMeshRegion(b, vertices)
  }

  /** `np.isin(v, np.argwhere(region))`: vertex `v` is one of the region's. */
  predicate InRegion(region: seq<bool>, v: nat) {
    v < |region| && region[v]
  }

  /** Every vertex of the face is in the region. */
  predicate FaceInRegion(region: seq<bool>, face: seq<nat>) {
    forall c | 0 <= c < |face| :: InRegion(region, face[c])
  }

  /** `convert_region_on_vertices_to_faces`: zeros, then a 1 for each face
      whose vertices are all in the region. */
  method ConvertRegionOnVerticesToFaces(region: seq<bool>, faces: seq<seq<nat>>) returns (regionOnFaces: seq<real>)
    ensures |regionOnFaces| == |faces|
    ensures forall f | 0 <= f < |faces| :: regionOnFaces[f] == if FaceInRegion(region, faces[f]) then 1.0 else 0.0
  {
    var onFaces := new real[|faces|](f => 0.0);
    for f := 0 to |faces|
      invariant forall g | 0 <= g < |faces| ::
        onFaces[g] == if g < f && FaceInRegion(region, faces[g]) then 1.0 else 0.0
    {
      if FaceInRegion(region, faces[f]) {
        onFaces[f] := 1.0;
      }
    }
    regionOnFaces := onFaces[..];
  }

  /** A face is marked when its vertices all lie in the region, so growing
      the region never unmarks a face; the whole mesh marks every face whose
      vertices exist, and the empty region marks only faces with no
      vertices. */
  lemma FacesMonotone(small: seq<bool>, large: seq<bool>, face: seq<nat>)
    requires |small| == |large| && forall v | 0 <= v < |small| :: small[v] ==> large[v]
    ensures FaceInRegion(small, face) ==> FaceInRegion(large, face)
    ensures (forall v | 0 <= v < |large| :: large[v]) && (forall c | 0 <= c < |face| :: face[c] < |large|)
      ==> FaceInRegion(large, face)
    ensures (forall v | 0 <= v < |small| :: !small[v]) && |face| > 0 ==> !FaceInRegion(small, face)
  {
    if (forall v | 0 <= v < |small| :: !small[v]) && |face| > 0 {
      assert !InRegion(small, face[0]);
    }
  }
}
