/** The mesh the generator hands to the viewer and the exporter: vertex
    positions and a flat list of 32-bit unsigned vertex indices, read three
    at a time as triangles. */
module Meshes {

  /** A 32-bit unsigned integer, the element type of the index list. */
  type Index = i: int | 0 <= i < 0x1_0000_0000

  /** A single-precision 3-component vector, with components as reals. */
  datatype Vec3 = Vec3(x: real, y: real, z: real)

  datatype Mesh = Mesh(vertices: seq<Vec3>, indices: seq<Index>)

  /** Every index names an existing vertex. */
  predicate IndicesInRange(m: Mesh) {
    forall i :: 0 <= i < |m.indices| ==> m.indices[i] < |m.vertices|
  }
}
