/** The bounding box a mesh region settings file gives (`XMIN` ... `ZMAX`),
    and the two readings of "inside" the versions of `create_mesh_region`
    use. */
module MeshConfig {

  datatype Bounds = Bounds(xMin: real, xMax: real, yMin: real, yMax: real, zMin: real, zMax: real)

  /** A vertex is a row of the `n × 3` vertex array. */
  predicate IsVertex(v: seq<real>) { |v| == 3 }

  predicate AllVertices(vertices: seq<seq<real>>) {
    forall k | 0 <= k < |vertices| :: IsVertex(vertices[k])
  }

  /** Every coordinate within its `[MIN, MAX]`, boundary included. */
  predicate InsideInclusive(b: Bounds, v: seq<real>)
    requires IsVertex(v)
  {
    b.xMin <= v[0] <= b.xMax && b.yMin <= v[1] <= b.yMax && b.zMin <= v[2] <= b.zMax
  }

  /** Every coordinate strictly between its `MIN` and `MAX`. */
  predicate InsideStrict(b: Bounds, v: seq<real>)
    requires IsVertex(v)
  {
    b.xMin < v[0] < b.xMax && b.yMin < v[1] < b.yMax && b.zMin < v[2] < b.zMax
  }

  /** A vertex strictly inside is inside the closed box; the converse fails
      exactly on the faces of the box. */
  lemma StrictIsInclusiveOffTheFaces(b: Bounds, v: seq<real>)
    requires IsVertex(v)
    ensures InsideStrict(b, v) ==> InsideInclusive(b, v)
    ensures InsideInclusive(b, v) && !InsideStrict(b, v) <==>
      InsideInclusive(b, v) && (v[0] in {b.xMin, b.xMax} || v[1] in {b.yMin, b.yMax} || v[2] in {b.zMin, b.zMax})
  {
  }
}
