/** The vertex and mesh records the generators fill (ew::Vertex, ew::MeshData).
    A vertex is kept symbolic: where it sits on its grid or ring, which of the
    few fixed heights it has, and its normal and texture coordinate as the
    constants or ratios the generators write. The trigonometry and the scaling
    by width, height and radius are not modelled. */
module Mesh {

  /** Horizontal placement of a vertex. */
  datatype Place =
    | Grid(row: int, col: int)  // plane: (width·col/s, ·, −height·row/s); sphere: φ = row·π/n, θ = col·2π/n
    | Ring(i: int)              // cylinder ring point (radius·cos θi, ·, radius·sin θi), θi = i·2π/n
    | Axis                      // cylinder axis (0, ·, 0)

  /** Vertical coordinate of a vertex. */
  datatype Height =
    | Ground        // y = 0
    | TopY          // y = height/2
    | BottomY       // y = −height/2
    | Polar         // y = radius·cos φ on the sphere

  datatype Normal =
    | Up            // (0, 1, 0)
    | Down          // (0, −1, 0)
    | Outward       // unit vector from the centre (sphere) or the axis (cylinder side) through the vertex

  /** One texture coordinate. */
  datatype Coord =
    | Frac(num: int, den: int)          // num / den, computed in float
    | OneMinusFrac(num: int, den: int)  // 1 − num / den
    | Exact(value: real)                // a literal such as 0.5, 0 or 1

  datatype UV =
    | UV(u: Coord, v: Coord)
    | CapProjection                     // ((x + 1) / 2, (z + 1) / 2) of the vertex's own position

  datatype Vertex = Vertex(place: Place, y: Height, normal: Normal, uv: UV)

  /** ew::MeshData: the vertex list and the index list, three indices per triangle. */
  datatype MeshData = MeshData(vertices: seq<Vertex>, indices: seq<int>)

  datatype Tri = Tri(a: int, b: int, c: int)

  /** Triangle t of a mesh: indices 3t, 3t+1 and 3t+2. */
  function Triangle(mesh: MeshData, t: nat): Tri
    requires 3 * t + 3 <= |mesh.indices|
  {
    Tri(mesh.indices[3 * t], mesh.indices[3 * t + 1], mesh.indices[3 * t + 2])
  }

  /** Every index names a vertex of the mesh, so drawing it never reads past the vertex buffer. */
  predicate IndicesInRange(mesh: MeshData) {
    forall k :: 0 <= k < |mesh.indices| ==> 0 <= mesh.indices[k] < |mesh.vertices|
  }

  /** Appending to a list leaves every slice of the old list in place. */
  lemma AppendKeepsSlice<T>(xs: seq<T>, ys: seq<T>, a: int, b: int)
    requires 0 <= a <= b <= |xs|
    ensures (xs + ys)[a..b] == xs[a..b]
  {
  }

  /** A slice of the appended list is found in the new list shifted by the old length. */
  lemma AppendedSlice<T>(xs: seq<T>, ys: seq<T>, a: int, b: int)
    requires 0 <= a <= b <= |ys|
    ensures (xs + ys)[|xs| + a..|xs| + b] == ys[a..b]
  {
  }
}
