/** Procedural meshes (bob::createPlane, bob::createSphere, bob::createCylinder).
    Each generator pushes vertices in nested loops, then pushes three indices per
    triangle. The model keeps the loops; each generator is specified by a closed
    form giving the vertex and the index at every position of the two lists. */
module ProcGen {
  import opened Mesh
  import opened GridMath

  /** Where grid point (row, col) of a plane or sphere with n subdivisions goes in
      its vertex list: rows of n+1 points, one after the other. */
  function GridSlot(n: int, row: int, col: int): int {
    Slot(n + 1, row, col)
  }

  // ---------------------------------------------------------------- plane

  /** The plane vertex at grid point (row, col) of a plane with s subdivisions:
      position (width·col/s, 0, −height·row/s), normal up, uv (col/s, row/s). */
  function PlaneVertex(s: int, row: int, col: int): Vertex {
    Vertex(Grid(row, col), Ground, Up, UV(Frac(col, s), Frac(row, s)))
  }


  function PlaneVertexCount(s: int): nat {
    if s < 0 then 0 else (s + 1) * (s + 1)
  }

  /** The six indices of plane cell (row, col): its bottom-right and top-left triangles. */
  function PlaneQuad(s: int, row: int, col: int): seq<int> {
    var columns := s + 1;
    var start := Slot(columns, row, col);
    [start, start + 1, start + columns + 1, start, start + columns + 1, start + columns]
  }

  function PlaneIndexCount(s: int): nat {
    if s <= 0 then 0 else 6 * (s * s)
  }

  /** The vertex list of createPlane: (s+1)² vertices, grid point (row, col) at slot row·(s+1) + col. */
  predicate PlaneVertices(s: int, vs: seq<Vertex>) {
    && |vs| == PlaneVertexCount(s)
    && forall row, col :: 0 <= row <= s && 0 <= col <= s ==>
         GridSlot(s, row, col) < |vs| && vs[GridSlot(s, row, col)] == PlaneVertex(s, row, col)
  }

  /** The index list of createPlane: 6·s² indices, the quad of cell (row, col) at 6·(row·s + col). */
  predicate PlaneIndices(s: int, xs: seq<int>) {
    && |xs| == PlaneIndexCount(s)
    && forall row, col :: 0 <= row < s && 0 <= col < s ==>
         6 * Slot(s, row, col) + 6 <= |xs| && xs[6 * Slot(s, row, col)..6 * Slot(s, row, col) + 6] == PlaneQuad(s, row, col)
  }

  /** `mesh` is what createPlane builds for `s` subdivisions. */
  predicate IsPlaneMesh(s: int, mesh: MeshData) {
    PlaneVertices(s, mesh.vertices) && PlaneIndices(s, mesh.indices)
  }

  /** createPlane: a flat (s+1) × (s+1) grid of vertices and two triangles per cell.
      Its two loop nests are PlaneVertexLoop and PlaneIndexLoop. */
  method CreatePlane(subdivisions: int) returns (mesh: MeshData)
    ensures IsPlaneMesh(subdivisions, mesh)
    ensures IndicesInRange(mesh)
  {
    var vertices := PlaneVertexLoop(subdivisions);
    var indices := PlaneIndexLoop(subdivisions);
    mesh := MeshData(vertices, indices);
    PlaneIndicesInRange(subdivisions, mesh);
  }

  /** The vertex loops of createPlane: row by row, column by column. */
  method PlaneVertexLoop(s: int) returns (vertices: seq<Vertex>)
    ensures PlaneVertices(s, vertices)
  {
    vertices := [];
    var row := 0;
    while row <= s
      invariant 0 <= row <= if s < 0 then 0 else s + 1
      invariant |vertices| == RowStart(s + 1, row)
      invariant forall r, c :: 0 <= r < row && 0 <= c <= s ==>
        GridSlot(s, r, c) < |vertices| && vertices[GridSlot(s, r, c)] == PlaneVertex(s, r, c)
    {
      var col := 0;
      while col <= s
        invariant 0 <= col <= s + 1
        invariant |vertices| == GridSlot(s, row, col)
        invariant forall r, c :: 0 <= r <= row && 0 <= c <= s && (r < row || c < col) ==>
          GridSlot(s, r, c) < |vertices| && vertices[GridSlot(s, r, c)] == PlaneVertex(s, r, c)
      {
        vertices := vertices + [Vertex(Grid(row, col), Ground, Up, UV(Frac(col, s), Frac(row, s)))];
        col := col + 1;
      }
      row := row + 1;
    }
    if s >= 0 {
      RowStartIsProduct(s + 1, s + 1);
    }
  }

  /** The index loops of createPlane: cell by cell, six indices per cell. */
  method PlaneIndexLoop(s: int) returns (indices: seq<int>)
    ensures PlaneIndices(s, indices)
  {
    var columns := s + 1;
    indices := [];
    var row := 0;
    while row < s
      invariant 0 <= row <= if s < 0 then 0 else s
      invariant indices == GridRun(PlaneGrid, s, row)
    {
      ghost var before := indices;
      var col := 0;
      while col < s
        invariant 0 <= col <= s
        invariant indices == before + RowRun(PlaneGrid, s, row, col)
      {
        var start := row * columns + col;
        indices := indices + [start, start + 1, start + columns + 1];   // bottom-right triangle
        indices := indices + [start, start + columns + 1, start + columns];   // top-left triangle
        PlaneCellPushed(before, s, columns, row, col, start);
        col := col + 1;
      }
      assert indices == before + RowRun(PlaneGrid, s, row, s);
      assert GridRun(PlaneGrid, s, row + 1) == before + RowRun(PlaneGrid, s, row, s);
      row := row + 1;
    }
    assert indices == GridRun(PlaneGrid, s, s);
    PlaneCells(s);
  }



  /** Every position of the plane's vertex list holds grid point (k / (s+1), k mod (s+1)):
      the list is the grid read row-major, with no other vertices. */
  lemma PlaneVertexAt(s: int, mesh: MeshData, k: int)
    requires IsPlaneMesh(s, mesh)
    requires 0 <= k < |mesh.vertices|
    ensures mesh.vertices[k] == PlaneVertex(s, k / (s + 1), k % (s + 1))
    ensures mesh.vertices[k].y == Ground && mesh.vertices[k].normal == Up
  {
    RowStartIsProduct(s + 1, s + 1);
    CellOf(s + 1, s + 1, k);
    var row, col := k / (s + 1), k % (s + 1);
    assert mesh.vertices[GridSlot(s, row, col)] == PlaneVertex(s, row, col);
  }

  /** Cell (row, col) of the plane yields triangles 2c and 2c+1, c = row·s + col, with
      start = row·(s+1) + col: (start, start+1, start+s+2) and (start, start+s+2, start+s+1). */
  lemma PlaneCellTriangles(s: int, mesh: MeshData, row: int, col: int)
    requires IsPlaneMesh(s, mesh)
    requires 0 <= row < s && 0 <= col < s
    ensures var t := 2 * Slot(s, row, col);
      3 * t + 6 <= |mesh.indices|
      && var start := Slot(s + 1, row, col);
      && Triangle(mesh, t) == Tri(start, start + 1, start + s + 2)
      && Triangle(mesh, t + 1) == Tri(start, start + s + 2, start + s + 1)
  {
    var base := 6 * Slot(s, row, col);
    assert mesh.indices[base..base + 6] == PlaneQuad(s, row, col);
    assert 3 * (2 * Slot(s, row, col)) == base;
    forall j | 0 <= j < 6
      ensures mesh.indices[base + j] == PlaneQuad(s, row, col)[j]
    {
      assert mesh.indices[base + j] == mesh.indices[base..base + 6][j];
    }
  }

  /** Every plane index is a valid vertex index: below (s+1)². */
  lemma PlaneIndicesInRange(s: int, mesh: MeshData)
    requires IsPlaneMesh(s, mesh)
    ensures IndicesInRange(mesh)
  {
    forall k | 0 <= k < |mesh.indices|
      ensures 0 <= mesh.indices[k] < |mesh.vertices|
    {
      PlaneIndexInRange(s, mesh.indices, k);
    }
  }

  /** Index k of the plane's index list is corner k mod 6 of the quad of its cell. */
  lemma PlaneIndexInRange(s: int, xs: seq<int>, k: int)
    requires PlaneIndices(s, xs) && 0 <= k < |xs|
    ensures 0 <= xs[k] < PlaneVertexCount(s)
  {
    RowStartIsProduct(s, s);
    CellOfIndex(s, k);
    var row, col, j := (k / 6) / s, (k / 6) % s, k % 6;
    var a := 6 * Slot(s, row, col);
    assert xs[k] == xs[a..a + 6][j];
    PlaneQuadInRange(s, row, col, j);
  }

  /** The corners of every plane cell are grid points. */
  lemma PlaneQuadInRange(s: int, row: int, col: int, j: int)
    requires 0 <= row < s && 0 <= col < s && 0 <= j < 6
    ensures 0 <= PlaneQuad(s, row, col)[j] < PlaneVertexCount(s)
  {
    // the farthest corner of the cell is grid point (row + 1, col + 1)
    SlotBelow(s + 1, s + 1, row, col);
    SlotBelow(s + 1, s + 1, row + 1, col + 1);
    RowStartIsProduct(s + 1, s + 1);
  }


  // ---------------------------------------------------------------- sphere

  /** The sphere vertex at ring row (φ = row·π/n) and column col (θ = col·2π/n):
      position radius·(cos θ sin φ, cos φ, sin θ sin φ), normal along it, uv (col/n, 1 − row/n). */
  function SphereVertex(n: int, row: int, col: int): Vertex {
    Vertex(Grid(row, col), Polar, Outward, UV(Frac(col, n), OneMinusFrac(row, n)))
  }

  function SphereVertexCount(n: int): nat {
    if n < 0 then 0 else (n + 1) * (n + 1)
  }

  /** The six indices of sphere cell (row, col): two triangles sharing the edge start+1 — start+n+1. */
  function SphereQuad(n: int, row: int, col: int): seq<int> {
    var columns := n + 1;
    var start := Slot(columns, row, col);
    [start, start + 1, start + columns, start + columns, start + 1, start + columns + 1]
  }

  function SphereIndexCount(n: int): nat {
    if n <= 0 then 0 else 6 * (n * n)
  }

  /** The vertex list of createSphere: (n+1)² vertices, (row, col) at slot row·(n+1) + col. */
  predicate SphereVertices(n: int, vs: seq<Vertex>) {
    && |vs| == SphereVertexCount(n)
    && forall row, col :: 0 <= row <= n && 0 <= col <= n ==>
         GridSlot(n, row, col) < |vs| && vs[GridSlot(n, row, col)] == SphereVertex(n, row, col)
  }

  /** The index list of createSphere: 6·n² indices, the quad of cell (row, col) at 6·(row·n + col). */
  predicate SphereIndices(n: int, xs: seq<int>) {
    && |xs| == SphereIndexCount(n)
    && forall row, col :: 0 <= row < n && 0 <= col < n ==>
         6 * Slot(n, row, col) + 6 <= |xs| && xs[6 * Slot(n, row, col)..6 * Slot(n, row, col) + 6] == SphereQuad(n, row, col)
  }

  /** `mesh` is what createSphere builds for `n` segments. */
  predicate IsSphereMesh(n: int, mesh: MeshData) {
    SphereVertices(n, mesh.vertices) && SphereIndices(n, mesh.indices)
  }

  /** createSphere: an (n+1) × (n+1) latitude/longitude grid, the first and last column
      duplicated at the seam, and two triangles per cell. */
  method CreateSphere(numSegments: int) returns (mesh: MeshData)
    ensures IsSphereMesh(numSegments, mesh)
    ensures IndicesInRange(mesh)
  {
    var vertices := SphereVertexLoop(numSegments);
    var indices := SphereIndexLoop(numSegments);
    mesh := MeshData(vertices, indices);
    SphereIndicesInRange(numSegments, mesh);
  }

  /** The vertex loops of createSphere: ring by ring from the north pole, column by column. */
  method SphereVertexLoop(n: int) returns (vertices: seq<Vertex>)
    ensures SphereVertices(n, vertices)
  {
    vertices := [];
    var row := 0;
    while row <= n
      invariant 0 <= row <= if n < 0 then 0 else n + 1
      invariant |vertices| == RowStart(n + 1, row)
      invariant forall r, c :: 0 <= r < row && 0 <= c <= n ==>
        GridSlot(n, r, c) < |vertices| && vertices[GridSlot(n, r, c)] == SphereVertex(n, r, c)
    {
      var col := 0;
      while col <= n
        invariant 0 <= col <= n + 1
        invariant |vertices| == GridSlot(n, row, col)
        invariant forall r, c :: 0 <= r <= row && 0 <= c <= n && (r < row || c < col) ==>
          GridSlot(n, r, c) < |vertices| && vertices[GridSlot(n, r, c)] == SphereVertex(n, r, c)
      {
        vertices := vertices + [Vertex(Grid(row, col), Polar, Outward, UV(Frac(col, n), OneMinusFrac(row, n)))];
        col := col + 1;
      }
      row := row + 1;
    }
    if n >= 0 {
      RowStartIsProduct(n + 1, n + 1);
    }
  }

  /** The index loops of createSphere: cell by cell, six indices per cell. */
  method SphereIndexLoop(n: int) returns (indices: seq<int>)
    ensures SphereIndices(n, indices)
  {
    var columns := n + 1;
    indices := [];
    var row := 0;
    while row < n
      invariant 0 <= row <= if n < 0 then 0 else n
      invariant indices == GridRun(SphereGrid, n, row)
    {
      ghost var before := indices;
      var col := 0;
      while col < n
        invariant 0 <= col <= n
        invariant indices == before + RowRun(SphereGrid, n, row, col)
      {
        var start := row * columns + col;
        indices := indices + [start, start + 1, start + columns];   // triangle 1
        indices := indices + [start + columns, start + 1, start + columns + 1];   // triangle 2
        SphereCellPushed(before, n, columns, row, col, start);
        col := col + 1;
      }
      assert indices == before + RowRun(SphereGrid, n, row, n);
      assert GridRun(SphereGrid, n, row + 1) == before + RowRun(SphereGrid, n, row, n);
      row := row + 1;
    }
    assert indices == GridRun(SphereGrid, n, n);
    SphereCells(n);
  }



  /** Every position of the sphere's vertex list holds grid point (k / (n+1), k mod (n+1)),
      with its uv (col/n, 1 − row/n). */
  lemma SphereVertexAt(n: int, mesh: MeshData, k: int)
    requires IsSphereMesh(n, mesh)
    requires 0 <= k < |mesh.vertices|
    ensures mesh.vertices[k] == SphereVertex(n, k / (n + 1), k % (n + 1))
    ensures mesh.vertices[k].uv == UV(Frac(k % (n + 1), n), OneMinusFrac(k / (n + 1), n))
  {
    RowStartIsProduct(n + 1, n + 1);
    CellOf(n + 1, n + 1, k);
    var row, col := k / (n + 1), k % (n + 1);
    assert mesh.vertices[GridSlot(n, row, col)] == SphereVertex(n, row, col);
  }

  /** Cell (row, col) of the sphere yields triangles 2c and 2c+1, c = row·n + col, with
      start = row·(n+1) + col: (start, start+1, start+n+1) and (start+n+1, start+1, start+n+2). */
  lemma SphereCellTriangles(n: int, mesh: MeshData, row: int, col: int)
    requires IsSphereMesh(n, mesh)
    requires 0 <= row < n && 0 <= col < n
    ensures var t := 2 * Slot(n, row, col);
      3 * t + 6 <= |mesh.indices|
      && var start := Slot(n + 1, row, col);
      && Triangle(mesh, t) == Tri(start, start + 1, start + n + 1)
      && Triangle(mesh, t + 1) == Tri(start + n + 1, start + 1, start + n + 2)
  {
    var base := 6 * Slot(n, row, col);
    assert mesh.indices[base..base + 6] == SphereQuad(n, row, col);
    assert 3 * (2 * Slot(n, row, col)) == base;
    forall j | 0 <= j < 6
      ensures mesh.indices[base + j] == SphereQuad(n, row, col)[j]
    {
      assert mesh.indices[base + j] == mesh.indices[base..base + 6][j];
    }
  }

  /** Every sphere index is a valid vertex index: below (n+1)². */
  lemma SphereIndicesInRange(n: int, mesh: MeshData)
    requires IsSphereMesh(n, mesh)
    ensures IndicesInRange(mesh)
  {
    forall k | 0 <= k < |mesh.indices|
      ensures 0 <= mesh.indices[k] < |mesh.vertices|
    {
      SphereIndexInRange(n, mesh.indices, k);
    }
  }

  /** Index k of the sphere's index list is corner k mod 6 of the quad of its cell. */
  lemma SphereIndexInRange(n: int, xs: seq<int>, k: int)
    requires SphereIndices(n, xs) && 0 <= k < |xs|
    ensures 0 <= xs[k] < SphereVertexCount(n)
  {
    RowStartIsProduct(n, n);
    CellOfIndex(n, k);
    var row, col, j := (k / 6) / n, (k / 6) % n, k % 6;
    var a := 6 * Slot(n, row, col);
    assert xs[k] == xs[a..a + 6][j];
    SphereQuadInRange(n, row, col, j);
  }

  /** The corners of every sphere cell are grid points. */
  lemma SphereQuadInRange(n: int, row: int, col: int, j: int)
    requires 0 <= row < n && 0 <= col < n && 0 <= j < 6
    ensures 0 <= SphereQuad(n, row, col)[j] < SphereVertexCount(n)
  {
    // the farthest corner of the cell is grid point (row + 1, col + 1)
    SlotBelow(n + 1, n + 1, row, col);
    SlotBelow(n + 1, n + 1, row + 1, col + 1);
    RowStartIsProduct(n + 1, n + 1);
  }


  // ------------------------------------------------------- grid index runs

  /** The two generators that triangulate an n × n grid of cells. */
  datatype GridKind = PlaneGrid | SphereGrid

  function CellQuad(kind: GridKind, n: int, row: int, col: int): (r: seq<int>)
    ensures |r| == 6
  {
    match kind
    case PlaneGrid => PlaneQuad(n, row, col)
    case SphereGrid => SphereQuad(n, row, col)
  }

  /** What the inner index loop pushes for the first `count` cells of row `row`. */
  function RowRun(kind: GridKind, n: int, row: int, count: int): (r: seq<int>)
    ensures |r| == if count < 0 then 0 else 6 * count
    decreases count
  {
    if count <= 0 then [] else RowRun(kind, n, row, count - 1) + CellQuad(kind, n, row, count - 1)
  }

  /** What the index loops push for the first `rows` rows of an n × n grid of cells. */
  function GridRun(kind: GridKind, n: int, rows: int): (r: seq<int>)
    ensures 0 <= n ==> |r| == 6 * RowStart(n, rows)
    decreases rows
  {
    if rows <= 0 then [] else GridRun(kind, n, rows - 1) + RowRun(kind, n, rows - 1, n)
  }

  /** Pushing the plane loops' two triangles for cell (row, col), start = row·columns + col,
      extends the row's run by that cell. */
  lemma PlaneCellPushed(xs: seq<int>, n: int, columns: int, row: int, col: int, start: int)
    requires columns == n + 1 && 0 <= row && 0 <= col && start == row * columns + col
    ensures xs + RowRun(PlaneGrid, n, row, col) + [start, start + 1, start + columns + 1] + [start, start + columns + 1, start + columns]
        == xs + RowRun(PlaneGrid, n, row, col + 1)
  {
    RowStartIsProduct(columns, row);
    assert [start, start + 1, start + columns + 1] + [start, start + columns + 1, start + columns] == PlaneQuad(n, row, col);
    assert RowRun(PlaneGrid, n, row, col + 1) == RowRun(PlaneGrid, n, row, col) + PlaneQuad(n, row, col);
  }

  /** Pushing the sphere loops' two triangles for cell (row, col) extends the row's run by that cell. */
  lemma SphereCellPushed(xs: seq<int>, n: int, columns: int, row: int, col: int, start: int)
    requires columns == n + 1 && 0 <= row && 0 <= col && start == row * columns + col
    ensures xs + RowRun(SphereGrid, n, row, col) + [start, start + 1, start + columns] + [start + columns, start + 1, start + columns + 1]
        == xs + RowRun(SphereGrid, n, row, col + 1)
  {
    RowStartIsProduct(columns, row);
    assert [start, start + 1, start + columns] + [start + columns, start + 1, start + columns + 1] == SphereQuad(n, row, col);
    assert RowRun(SphereGrid, n, row, col + 1) == RowRun(SphereGrid, n, row, col) + SphereQuad(n, row, col);
  }

  /** Cell c of a row run sits at 6·c. */
  lemma {:induction false} RowRunAt(kind: GridKind, n: int, row: int, count: int, c: int)
    requires 0 <= c < count
    ensures RowRun(kind, n, row, count)[6 * c..6 * c + 6] == CellQuad(kind, n, row, c)
    decreases count
  {
    var xs, quad := RowRun(kind, n, row, count - 1), CellQuad(kind, n, row, count - 1);
    var ys := RowRun(kind, n, row, count);
    assert ys == xs + quad;
    if c == count - 1 {
      AppendedSlice(xs, quad, 0, 6);
      assert ys[6 * c..6 * c + 6] == quad[0..6];
    } else {
      RowRunAt(kind, n, row, count - 1, c);
      AppendKeepsSlice(xs, quad, 6 * c, 6 * c + 6);
      assert ys[6 * c..6 * c + 6] == xs[6 * c..6 * c + 6];
    }
  }

  /** Cell (r, c) of a grid run sits at 6·(r·n + c). */
  lemma {:induction false} GridRunAt(kind: GridKind, n: int, rows: int, r: int, c: int)
    requires 0 <= r < rows && 0 <= c < n
    ensures 6 * Slot(n, r, c) + 6 <= |GridRun(kind, n, rows)|
    ensures GridRun(kind, n, rows)[6 * Slot(n, r, c)..6 * Slot(n, r, c) + 6] == CellQuad(kind, n, r, c)
    decreases rows, 1
  {
    if r == rows - 1 {
      GridRunAtLastRow(kind, n, r, c);
    } else {
      GridRunAtEarlierRow(kind, n, rows, r, c);
    }
  }

  /** The last row's run is appended after every earlier row: its cell c sits at 6·(r·n + c). */
  lemma GridRunAtLastRow(kind: GridKind, n: int, r: int, c: int)
    requires 0 <= r && 0 <= c < n
    ensures 6 * Slot(n, r, c) + 6 <= |GridRun(kind, n, r + 1)|
    ensures GridRun(kind, n, r + 1)[6 * Slot(n, r, c)..6 * Slot(n, r, c) + 6] == CellQuad(kind, n, r, c)
  {
    var xs, run := GridRun(kind, n, r), RowRun(kind, n, r, n);
    var ys := GridRun(kind, n, r + 1);
    var a := 6 * Slot(n, r, c);
    assert ys == xs + run;
    assert a == |xs| + 6 * c;
    RowRunAt(kind, n, r, n, c);
    AppendedSlice(xs, run, 6 * c, 6 * c + 6);
    assert ys[a..a + 6] == run[6 * c..6 * c + 6];
  }

  /** Appending a row leaves the cells of the earlier rows where they were. */
  lemma {:induction false} GridRunAtEarlierRow(kind: GridKind, n: int, rows: int, r: int, c: int)
    requires 0 <= r < rows - 1 && 0 <= c < n
    ensures 6 * Slot(n, r, c) + 6 <= |GridRun(kind, n, rows)|
    ensures GridRun(kind, n, rows)[6 * Slot(n, r, c)..6 * Slot(n, r, c) + 6] == CellQuad(kind, n, r, c)
    decreases rows, 0
  {
    var xs, run := GridRun(kind, n, rows - 1), RowRun(kind, n, rows - 1, n);
    var ys := GridRun(kind, n, rows);
    var a := 6 * Slot(n, r, c);
    assert ys == xs + run;
    GridRunAt(kind, n, rows - 1, r, c);
    AppendKeepsSlice(xs, run, a, a + 6);
    assert ys[a..a + 6] == xs[a..a + 6];
  }

  /** The full plane run is the index list createPlane promises. */
  lemma PlaneCells(s: int)
    ensures PlaneIndices(s, GridRun(PlaneGrid, s, s))
  {
    if s > 0 {
      forall row, col | 0 <= row < s && 0 <= col < s
        ensures 6 * Slot(s, row, col) + 6 <= |GridRun(PlaneGrid, s, s)|
        ensures GridRun(PlaneGrid, s, s)[6 * Slot(s, row, col)..6 * Slot(s, row, col) + 6] == PlaneQuad(s, row, col)
      {
        GridRunAt(PlaneGrid, s, s, row, col);
      }
      RowStartIsProduct(s, s);
    }
  }

  /** The full sphere run is the index list createSphere promises. */
  lemma SphereCells(n: int)
    ensures SphereIndices(n, GridRun(SphereGrid, n, n))
  {
    if n > 0 {
      forall row, col | 0 <= row < n && 0 <= col < n
        ensures 6 * Slot(n, row, col) + 6 <= |GridRun(SphereGrid, n, n)|
        ensures GridRun(SphereGrid, n, n)[6 * Slot(n, row, col)..6 * Slot(n, row, col) + 6] == SphereQuad(n, row, col)
      {
        GridRunAt(SphereGrid, n, n, row, col);
      }
      RowStartIsProduct(n, n);
    }
  }

  // -------------------------------------------------------------- cylinder

  /** The four rings of createCylinder, in the order they are pushed. */
  datatype RingKind = TopCapRing | SideTopRing | SideBottomRing | BottomCapRing

  /** Vertices per ring: the loops run i = 0 .. numSegments, the seam point twice. */
  function RingSize(n: int): nat {
    if n < 0 then 0 else n + 1
  }

  /** Ring vertex i (θ = i·2π/n) of the given ring. Both cap rings get the normal (0, 1, 0). */
  function RingVertex(n: int, kind: RingKind, i: int): Vertex {
    match kind
    case TopCapRing => Vertex(Ring(i), TopY, Up, CapProjection)
    case SideTopRing => Vertex(Ring(i), TopY, Outward, UV(Frac(i, n), Exact(1.0)))
    case SideBottomRing => Vertex(Ring(i), BottomY, Outward, UV(Frac(i, n), Exact(0.0)))
    case BottomCapRing => Vertex(Ring(i), BottomY, Up, CapProjection)
  }

  const TopCentre := Vertex(Axis, TopY, Up, UV(Exact(0.5), Exact(0.5)))
  const BottomCentre := Vertex(Axis, BottomY, Down, UV(Exact(0.5), Exact(0.5)))

  /** The first `count` vertices of a ring, in push order. */
  function RingBlock(n: int, kind: RingKind, count: int): (r: seq<Vertex>)
    ensures |r| == if count < 0 then 0 else count
    decreases count
  {
    if count <= 0 then [] else RingBlock(n, kind, count - 1) + [RingVertex(n, kind, count - 1)]
  }

  /** Index of the first side vertex (`sideStart`) and of the first bottom cap vertex (`sideEnd`). */
  function SideStart(n: int): int { 1 + RingSize(n) }
  function SideEnd(n: int): int { 1 + 3 * RingSize(n) }
  /** Index of the bottom centre, the last vertex. */
  function BottomCentreIndex(n: int): int { 1 + 4 * RingSize(n) }

  /** The vertex list createCylinder builds. */
  function CylinderVertices(n: int): seq<Vertex> {
    var m := RingSize(n);
    [TopCentre] + RingBlock(n, TopCapRing, m) + RingBlock(n, SideTopRing, m)
      + RingBlock(n, SideBottomRing, m) + RingBlock(n, BottomCapRing, m) + [BottomCentre]
  }

  /** The first `count` triangles of the top fan: (1 + i, 0, 2 + i). */
  function TopFan(count: int): (r: seq<int>)
    ensures |r| == if count < 0 then 0 else 3 * count
    decreases count
  {
    if count <= 0 then [] else TopFan(count - 1) + [1 + (count - 1), 0, 1 + (count - 1) + 1]
  }

  /** The six indices of side quad i, `columns` = n + 1 apart between the two side rings. */
  function SideQuad(n: int, i: int): seq<int> {
    var start := SideStart(n) + i;
    var columns := n + 1;
    [start, start + 1, start + columns, start + 1, start + columns + 1, start + columns]
  }

  /** The first `count` side quads. */
  function SideStrip(n: int, count: int): (r: seq<int>)
    ensures |r| == if count < 0 then 0 else 6 * count
    decreases count
  {
    if count <= 0 then [] else SideStrip(n, count - 1) + SideQuad(n, count - 1)
  }

  /** The first `count` triangles of the bottom fan: (centre, sideEnd + i, sideEnd + i + 1). */
  function BottomFan(n: int, count: int): (r: seq<int>)
    ensures |r| == if count < 0 then 0 else 3 * count
    decreases count
  {
    if count <= 0 then []
    else BottomFan(n, count - 1) + [BottomCentreIndex(n), SideEnd(n) + (count - 1), SideEnd(n) + (count - 1) + 1]
  }

  /** The index list createCylinder builds. */
  function CylinderIndices(n: int): seq<int> {
    var m := RingSize(n);
    TopFan(m) + SideStrip(n, m) + BottomFan(n, m)
  }

  function CylinderMesh(n: int): MeshData {
    MeshData(CylinderVertices(n), CylinderIndices(n))
  }

  /** createCylinder: a top centre, four rings of n + 1 vertices (top cap, top side, bottom
      side, bottom cap) and a bottom centre; then a fan over the top cap, a strip of quads
      around the side and a fan under the bottom cap, each loop running n + 1 times. The
      float loop counters and indices of the source are exact integers while
      4·numSegments + 6 <= 2²⁴. */
  method CreateCylinder(numSegments: int) returns (mesh: MeshData)
    requires 4 * numSegments + 6 <= 0x100_0000
    ensures mesh == CylinderMesh(numSegments)
    ensures |mesh.vertices| == 4 * RingSize(numSegments) + 2
    ensures IndicesInRange(mesh)
  {
    var n := numSegments;
    var vertices := TopCapVertices(n);
    var sideStart := |vertices|;
    vertices := SideTopVertices(n, vertices);
    vertices := SideBottomVertices(n, vertices);
    var sideEnd := |vertices|;
    vertices := BottomCapVertices(n, vertices);
    var indices := TopFanIndices(n);
    indices := SideIndices(n, sideStart, indices);
    indices := BottomFanIndices(n, sideEnd, |vertices|, indices);
    mesh := MeshData(vertices, indices);
    CylinderVertexLayout(n);
    CylinderIndicesInRange(n);
  }

  /** Region "ring 1 top vertices": the top centre, then the top cap ring. */
  method TopCapVertices(n: int) returns (vertices: seq<Vertex>)
    ensures vertices == [TopCentre] + RingBlock(n, TopCapRing, RingSize(n))
  {
    vertices := [Vertex(Axis, TopY, Up, UV(Exact(0.5), Exact(0.5)))];
    var i := 0;
    while i <= n
      invariant 0 <= i <= RingSize(n)
      invariant vertices == [TopCentre] + RingBlock(n, TopCapRing, i)
    {
      vertices := vertices + [Vertex(Ring(i), TopY, Up, CapProjection)];
      i := i + 1;
    }
  }

  /** Region "ring 1 side vertices": the top ring again, facing outward, v = 1. */
  method SideTopVertices(n: int, before: seq<Vertex>) returns (vertices: seq<Vertex>)
    ensures vertices == before + RingBlock(n, SideTopRing, RingSize(n))
  {
    vertices := before;
    var i := 0;
    while i <= n
      invariant 0 <= i <= RingSize(n)
      invariant vertices == before + RingBlock(n, SideTopRing, i)
    {
      vertices := vertices + [Vertex(Ring(i), TopY, Outward, UV(Frac(i, n), Exact(1.0)))];
      i := i + 1;
    }
  }

  /** Region "ring 2 side vertices": the bottom ring, facing outward, v = 0. */
  method SideBottomVertices(n: int, before: seq<Vertex>) returns (vertices: seq<Vertex>)
    ensures vertices == before + RingBlock(n, SideBottomRing, RingSize(n))
  {
    vertices := before;
    var i := 0;
    while i <= n
      invariant 0 <= i <= RingSize(n)
      invariant vertices == before + RingBlock(n, SideBottomRing, i)
    {
      vertices := vertices + [Vertex(Ring(i), BottomY, Outward, UV(Frac(i, n), Exact(0.0)))];
      i := i + 1;
    }
  }

  /** Region "ring 2 bottom vertices": the bottom cap ring (normal (0, 1, 0)), then the
      bottom centre (normal (0, −1, 0)). */
  method BottomCapVertices(n: int, before: seq<Vertex>) returns (vertices: seq<Vertex>)
    ensures vertices == before + RingBlock(n, BottomCapRing, RingSize(n)) + [BottomCentre]
  {
    vertices := before;
    var i := 0;
    while i <= n
      invariant 0 <= i <= RingSize(n)
      invariant vertices == before + RingBlock(n, BottomCapRing, i)
    {
      vertices := vertices + [Vertex(Ring(i), BottomY, Up, CapProjection)];
      i := i + 1;
    }
    vertices := vertices + [Vertex(Axis, BottomY, Down, UV(Exact(0.5), Exact(0.5)))];
  }

  /** Region "ring 1 top indices": a fan from the top centre (index 0) over ring vertices
      start + i and start + i + 1, start = 1, for i = 0 .. n. */
  method TopFanIndices(n: int) returns (indices: seq<int>)
    ensures indices == TopFan(RingSize(n))
  {
    indices := [];
    var start := 1;
    var center := 0;
    var i := 0;
    while i <= n
      invariant 0 <= i <= RingSize(n)
      invariant indices == TopFan(i)
    {
      indices := indices + [start + i, center, start + i + 1];
      i := i + 1;
    }
  }

  /** Region "side indices": one quad per column i < n + 1, start = sideStart + i. */
  method SideIndices(n: int, sideStart: int, before: seq<int>) returns (indices: seq<int>)
    requires sideStart == SideStart(n)
    ensures indices == before + SideStrip(n, RingSize(n))
  {
    indices := before;
    var columns := n + 1;
    var i := 0;
    while i < columns
      invariant 0 <= i <= RingSize(n)
      invariant indices == before + SideStrip(n, i)
    {
      var start := sideStart + i;
      indices := indices + [start, start + 1, start + columns];   // triangle 1
      indices := indices + [start + 1, start + columns + 1, start + columns];   // triangle 2
      i := i + 1;
    }
  }

  /** Region "ring 2 bottom indices": a fan from the last vertex over start + i and
      start + i + 1, start = sideEnd, for i = 0 .. n. */
  method BottomFanIndices(n: int, sideEnd: int, vertexCount: int, before: seq<int>) returns (indices: seq<int>)
    requires sideEnd == SideEnd(n) && vertexCount == BottomCentreIndex(n) + 1
    ensures indices == before + BottomFan(n, RingSize(n))
  {
    indices := before;
    var start := sideEnd;
    var center := vertexCount - 1;
    var i := 0;
    while i <= n
      invariant 0 <= i <= RingSize(n)
      invariant indices == before + BottomFan(n, i)
    {
      indices := indices + [center, start + i, start + i + 1];
      i := i + 1;
    }
  }

  /** Vertex k of the cylinder by position: the top centre, the four rings of n + 1 and the
      bottom centre. */
  function CylinderVertexAt(n: int, k: int): Vertex {
    var m := RingSize(n);
    if k == 0 then TopCentre
    else if k <= m then RingVertex(n, TopCapRing, k - 1)
    else if k <= 2 * m then RingVertex(n, SideTopRing, k - 1 - m)
    else if k <= 3 * m then RingVertex(n, SideBottomRing, k - 1 - 2 * m)
    else if k <= 4 * m then RingVertex(n, BottomCapRing, k - 1 - 3 * m)
    else BottomCentre
  }

  /** Triangle t of the cylinder by position: n + 1 top fan triangles, then two per side
      quad for n + 1 quads, then n + 1 bottom fan triangles. */
  function CylinderTriangleAt(n: int, t: int): Tri {
    var m := RingSize(n);
    if t < m then Tri(1 + t, 0, 2 + t)
    else if t < 3 * m then
      var start := SideStart(n) + (t - m) / 2;
      if (t - m) % 2 == 0 then Tri(start, start + 1, start + m)
      else Tri(start + 1, start + m + 1, start + m)
    else Tri(BottomCentreIndex(n), SideEnd(n) + (t - 3 * m), SideEnd(n) + (t - 3 * m) + 1)
  }

  lemma {:induction false} RingBlockAt(n: int, kind: RingKind, count: int, i: int)
    requires 0 <= i < count
    ensures RingBlock(n, kind, count)[i] == RingVertex(n, kind, i)
  {
    if i < count - 1 {
      RingBlockAt(n, kind, count - 1, i);
    }
  }

  lemma {:induction false} TopFanAt(count: int, i: int, j: int)
    requires 0 <= i < count && 0 <= j < 3
    ensures TopFan(count)[3 * i + j] == [1 + i, 0, 2 + i][j]
  {
    if i < count - 1 {
      TopFanAt(count - 1, i, j);
    }
  }

  lemma {:induction false} SideStripAt(n: int, count: int, i: int, j: int)
    requires 0 <= i < count && 0 <= j < 6
    ensures SideStrip(n, count)[6 * i + j] == SideQuad(n, i)[j]
  {
    if i < count - 1 {
      SideStripAt(n, count - 1, i, j);
    }
  }

  lemma {:induction false} BottomFanAt(n: int, count: int, i: int, j: int)
    requires 0 <= i < count && 0 <= j < 3
    ensures BottomFan(n, count)[3 * i + j] == [BottomCentreIndex(n), SideEnd(n) + i, SideEnd(n) + i + 1][j]
  {
    if i < count - 1 {
      BottomFanAt(n, count - 1, i, j);
    }
  }

  /** The cylinder has 4(n + 1) + 2 vertices (just the two centres when n < 0), laid out
      as CylinderVertexAt says: sideStart = n + 2, sideEnd = 3n + 4, the bottom centre last. */
  lemma CylinderVertexLayout(n: int)
    ensures |CylinderVertices(n)| == 4 * RingSize(n) + 2
    ensures forall k :: 0 <= k < |CylinderVertices(n)| ==> CylinderVertices(n)[k] == CylinderVertexAt(n, k)
    ensures BottomCentreIndex(n) == |CylinderVertices(n)| - 1
  {
    var m := RingSize(n);
    var vs := CylinderVertices(n);
    forall k | 0 <= k < |vs|
      ensures vs[k] == CylinderVertexAt(n, k)
    {
      if 1 <= k <= m {
        RingBlockAt(n, TopCapRing, m, k - 1);
      } else if m < k <= 2 * m {
        RingBlockAt(n, SideTopRing, m, k - 1 - m);
      } else if 2 * m < k <= 3 * m {
        RingBlockAt(n, SideBottomRing, m, k - 1 - 2 * m);
      } else if 3 * m < k <= 4 * m {
        RingBlockAt(n, BottomCapRing, m, k - 1 - 3 * m);
      }
    }
  }

  /** With n >= 0 segments: 4n + 6 vertices, the top centre at 0, sideStart = n + 2,
      sideEnd = 3n + 4 and the bottom centre at 4n + 5; 12(n + 1) indices, 3(n + 1) of them
      in each fan and 6(n + 1) in the side strip. */
  lemma CylinderCounts(n: int)
    requires 0 <= n
    ensures |CylinderVertices(n)| == 4 * n + 6
    ensures CylinderVertices(n)[0] == TopCentre && CylinderVertices(n)[4 * n + 5] == BottomCentre
    ensures SideStart(n) == n + 2 && SideEnd(n) == 3 * n + 4 && BottomCentreIndex(n) == 4 * n + 5
    ensures |TopFan(RingSize(n))| == 3 * (n + 1) && |BottomFan(n, RingSize(n))| == 3 * (n + 1)
    ensures |SideStrip(n, RingSize(n))| == 6 * (n + 1)
    ensures |CylinderIndices(n)| == 12 * (n + 1)
  {
    CylinderVertexLayout(n);
  }

  /** Triangle t of a mesh whose index list is pre + block + post, with t inside block. */
  lemma TriangleInBlock(mesh: MeshData, pre: seq<int>, block: seq<int>, post: seq<int>, t: nat)
    requires mesh.indices == pre + block + post
    requires |pre| <= 3 * t && 3 * t + 3 <= |pre| + |block|
    ensures 3 * t + 3 <= |mesh.indices|
    ensures Triangle(mesh, t) == Tri(block[3 * t - |pre|], block[3 * t - |pre| + 1], block[3 * t - |pre| + 2])
  {
  }

  /** Top fan triangle t of the cylinder. */
  lemma CylinderTopFanTriangle(n: int, t: nat)
    requires t < RingSize(n)
    ensures 3 * t + 3 <= |CylinderIndices(n)|
    ensures Triangle(CylinderMesh(n), t) == Tri(1 + t, 0, 2 + t)
  {
    var m := RingSize(n);
    var top, side, bottom := TopFan(m), SideStrip(n, m), BottomFan(n, m);
    assert CylinderMesh(n).indices == [] + top + (side + bottom);
    TriangleInBlock(CylinderMesh(n), [], top, side + bottom, t);
    TopFanAt(m, t, 0);
    TopFanAt(m, t, 1);
    TopFanAt(m, t, 2);
  }

  /** CylinderTriangleAt on the side: triangle r of quad q is the r-th half of SideQuad(n, q). */
  lemma SideTriangleAt(n: int, q: nat, r: nat)
    requires q < RingSize(n) && r < 2
    ensures var quad := SideQuad(n, q);
      CylinderTriangleAt(n, RingSize(n) + 2 * q + r) == Tri(quad[3 * r], quad[3 * r + 1], quad[3 * r + 2])
  {
    DivModUnique(2 * q + r, 2, q, r);
  }

  /** Side triangle t of the cylinder: triangle r of quad q, t = n + 1 + 2q + r. */
  lemma CylinderSideTriangle(n: int, q: nat, r: nat)
    requires q < RingSize(n) && r < 2
    ensures 3 * (RingSize(n) + 2 * q + r) + 3 <= |CylinderIndices(n)|
    ensures Triangle(CylinderMesh(n), RingSize(n) + 2 * q + r) == CylinderTriangleAt(n, RingSize(n) + 2 * q + r)
  {
    SideBlockTriangle(n, q, r);
    SideStripTriangle(n, q, r);
  }

  /** Side triangle t is read from the side strip, which follows the 3(n + 1) top fan indices. */
  lemma SideBlockTriangle(n: int, q: nat, r: nat)
    requires q < RingSize(n) && r < 2
    ensures 3 * (RingSize(n) + 2 * q + r) + 3 <= |CylinderIndices(n)|
    ensures var side, x := SideStrip(n, RingSize(n)), 6 * q + 3 * r;
      Triangle(CylinderMesh(n), RingSize(n) + 2 * q + r) == Tri(side[x], side[x + 1], side[x + 2])
  {
    var m := RingSize(n);
    var top, side, bottom := TopFan(m), SideStrip(n, m), BottomFan(n, m);
    var t := m + 2 * q + r;
    assert 3 * t - |top| == 6 * q + 3 * r;
    TriangleInBlock(CylinderMesh(n), top, side, bottom, t);
  }

  /** Indices 6q + 3r .. 6q + 3r + 2 of the side strip form CylinderTriangleAt's side triangle. */
  lemma SideStripTriangle(n: int, q: nat, r: nat)
    requires q < RingSize(n) && r < 2
    ensures var side, x := SideStrip(n, RingSize(n)), 6 * q + 3 * r;
      Tri(side[x], side[x + 1], side[x + 2]) == CylinderTriangleAt(n, RingSize(n) + 2 * q + r)
  {
    var m := RingSize(n);
    SideStripAt(n, m, q, 3 * r);
    SideStripAt(n, m, q, 3 * r + 1);
    SideStripAt(n, m, q, 3 * r + 2);
    SideTriangleAt(n, q, r);
  }

  /** Bottom fan triangle i of the cylinder. */
  lemma CylinderBottomFanTriangle(n: int, i: nat)
    requires i < RingSize(n)
    ensures 3 * (3 * RingSize(n) + i) + 3 <= |CylinderIndices(n)|
    ensures Triangle(CylinderMesh(n), 3 * RingSize(n) + i) == Tri(BottomCentreIndex(n), SideEnd(n) + i, SideEnd(n) + i + 1)
  {
    var m := RingSize(n);
    var top, side, bottom := TopFan(m), SideStrip(n, m), BottomFan(n, m);
    assert CylinderMesh(n).indices == top + side + bottom + [];
    TriangleInBlock(CylinderMesh(n), top + side, bottom, [], 3 * m + i);
    BottomFanAt(n, m, i, 0);
    BottomFanAt(n, m, i, 1);
    BottomFanAt(n, m, i, 2);
  }

  /** Triangle t of the cylinder is the one CylinderTriangleAt places there. */
  lemma CylinderTriangle(n: int, t: nat)
    requires t < 4 * RingSize(n)
    ensures 3 * t + 3 <= |CylinderIndices(n)|
    ensures Triangle(CylinderMesh(n), t) == CylinderTriangleAt(n, t)
  {
    var m := RingSize(n);
    if t < m {
      CylinderTopFanTriangle(n, t);
    } else if t < 3 * m {
      var q, r := (t - m) / 2, (t - m) % 2;
      assert t == m + 2 * q + r;
      CylinderSideTriangle(n, q, r);
    } else {
      CylinderBottomFanTriangle(n, t - 3 * m);
    }
  }

  /** The cylinder has 12(n + 1) indices (none when n < 0), and triangle t is the one
      CylinderTriangleAt places there. */
  lemma CylinderTriangleLayout(n: int)
    ensures |CylinderIndices(n)| == 12 * RingSize(n)
    ensures forall t: nat :: t < 4 * RingSize(n) ==>
      3 * t + 3 <= |CylinderIndices(n)| && Triangle(CylinderMesh(n), t) == CylinderTriangleAt(n, t)
  {
    var m := RingSize(n);
    forall t: nat | t < 4 * m
      ensures 3 * t + 3 <= |CylinderIndices(n)| && Triangle(CylinderMesh(n), t) == CylinderTriangleAt(n, t)
    {
      CylinderTriangle(n, t);
    }
  }

  /** The corners CylinderTriangleAt gives lie below 4(n + 1) + 2. */
  lemma CylinderTriangleAtInRange(n: int, t: int)
    requires 0 <= t < 4 * RingSize(n)
    ensures var tri := CylinderTriangleAt(n, t);
      && 0 <= tri.a < 4 * RingSize(n) + 2
      && 0 <= tri.b < 4 * RingSize(n) + 2
      && 0 <= tri.c < 4 * RingSize(n) + 2
  {
  }

  /** Every cylinder index names one of its vertices. */
  lemma CylinderIndicesInRange(n: int)
    ensures IndicesInRange(CylinderMesh(n))
  {
    var mesh := CylinderMesh(n);
    forall k | 0 <= k < |mesh.indices|
      ensures 0 <= mesh.indices[k] < |mesh.vertices|
    {
      var t, j := k / 3, k % 3;
      assert k == 3 * t + j;
      CylinderTriangle(n, t);
      CylinderTriangleAtInRange(n, t);
    }
  }

  /** Each fan and the side strip run one step further than the n segments need, so the
      last triangle of each reaches past its own ring: the top fan's into the first side
      vertex (sideStart), the side strip's into the first bottom cap vertex (sideEnd),
      and the bottom fan's back to the bottom centre, which it then uses twice. */
  lemma CylinderOverruns(n: int)
    requires 0 <= n
    ensures |CylinderIndices(n)| == 12 * (n + 1)
    ensures Triangle(CylinderMesh(n), n) == Tri(n + 1, 0, SideStart(n))
    ensures Triangle(CylinderMesh(n), 3 * n + 2) == Tri(2 * n + 3, SideEnd(n), 3 * n + 3)
    ensures Triangle(CylinderMesh(n), 4 * n + 3) == Tri(BottomCentreIndex(n), 4 * n + 4, BottomCentreIndex(n))
    ensures CylinderVertices(n)[SideStart(n)] == RingVertex(n, SideTopRing, 0)
    ensures CylinderVertices(n)[SideEnd(n)] == RingVertex(n, BottomCapRing, 0)
  {
    CylinderVertexLayout(n);
    CylinderTriangle(n, n);
    CylinderTriangle(n, 3 * n + 2);
    CylinderTriangle(n, 4 * n + 3);
  }

  /** Both cap rings carry the normal (0, 1, 0): the bottom cap ring points up, while the
      bottom centre points down. */
  lemma CylinderCapNormals(n: int)
    ensures forall k :: 1 <= k <= RingSize(n) ==> CylinderVertices(n)[k].normal == Up
    ensures forall k :: SideEnd(n) <= k < BottomCentreIndex(n) ==> CylinderVertices(n)[k].normal == Up
    ensures CylinderVertices(n)[BottomCentreIndex(n)].normal == Down
    ensures CylinderVertices(n)[0].normal == Up
  {
    CylinderVertexLayout(n);
  }

  /** Whether two vertices of the cylinder sit at the same point. The cylinder's vertices
      are ring points and the two axis centres only; ring points i and j (0 <= i, j <= n)
      share a position exactly when i == j or they are 0 and n, since θ = 0 and
      θ = n·2π/n = 2π name the same angle. This holds for the cylinder alone: on the
      sphere the poles and the seam columns are grid points that coincide. */
  predicate SameCylinderPoint(n: int, v: Vertex, w: Vertex) {
    && v.y == w.y
    && (|| v.place == w.place
        || (v.place.Ring? && w.place.Ring? && v.place.i == 0 && w.place.i == n)
        || (v.place.Ring? && w.place.Ring? && v.place.i == n && w.place.i == 0))
  }

  /** A cylinder triangle two of whose corners coincide. */
  predicate CoincidingCorners(n: int, vs: seq<Vertex>, tri: Tri)
    requires 0 <= tri.a < |vs| && 0 <= tri.b < |vs| && 0 <= tri.c < |vs|
  {
    || SameCylinderPoint(n, vs[tri.a], vs[tri.b])
    || SameCylinderPoint(n, vs[tri.b], vs[tri.c])
    || SameCylinderPoint(n, vs[tri.a], vs[tri.c])
  }

  /** Coinciding corners of a triangle given by vertex positions in the cylinder layout. */
  predicate CoincidingCornersAt(n: int, tri: Tri) {
    || SameCylinderPoint(n, CylinderVertexAt(n, tri.a), CylinderVertexAt(n, tri.b))
    || SameCylinderPoint(n, CylinderVertexAt(n, tri.b), CylinderVertexAt(n, tri.c))
    || SameCylinderPoint(n, CylinderVertexAt(n, tri.a), CylinderVertexAt(n, tri.c))
  }

  /** With n >= 2, a top fan triangle has two coinciding corners exactly when it is the last one. */
  lemma TopFanDegenerate(n: int, t: int)
    requires 2 <= n && 0 <= t <= n
    ensures CoincidingCornersAt(n, CylinderTriangleAt(n, t)) <==> t == n
  {
    assert CylinderTriangleAt(n, t) == Tri(1 + t, 0, 2 + t);
  }

  /** With n >= 2, a side triangle has two coinciding corners exactly when it belongs to the
      last quad. */
  lemma SideDegenerate(n: int, t: int)
    requires 2 <= n && n + 1 <= t < 3 * (n + 1)
    ensures CoincidingCornersAt(n, CylinderTriangleAt(n, t)) <==> t == 3 * n + 1 || t == 3 * n + 2
  {
    var q, r := (t - n - 1) / 2, (t - n - 1) % 2;
    assert t == n + 1 + 2 * q + r;
    SideTriangleAt(n, q, r);
    if r == 0 {
      assert CylinderTriangleAt(n, t) == Tri(n + 2 + q, n + 3 + q, 2 * n + 3 + q);
    } else {
      assert CylinderTriangleAt(n, t) == Tri(n + 3 + q, 2 * n + 4 + q, 2 * n + 3 + q);
    }
  }

  /** With n >= 2, a bottom fan triangle has two coinciding corners exactly when it is the
      last one. */
  lemma BottomFanDegenerate(n: int, t: int)
    requires 2 <= n && 3 * (n + 1) <= t < 4 * (n + 1)
    ensures CoincidingCornersAt(n, CylinderTriangleAt(n, t)) <==> t == 4 * n + 3
  {
    var i := t - 3 * (n + 1);
    assert CylinderTriangleAt(n, t) == Tri(4 * n + 5, 3 * n + 4 + i, 3 * n + 5 + i);
  }

  /** With n >= 2, the positional triangle t has two coinciding corners exactly at the four
      overruns. */
  lemma CylinderTriangleAtDegenerate(n: int, t: int)
    requires 2 <= n && 0 <= t < 4 * (n + 1)
    ensures CoincidingCornersAt(n, CylinderTriangleAt(n, t)) <==> t == n || t == 3 * n + 1 || t == 3 * n + 2 || t == 4 * n + 3
  {
    if t <= n {
      TopFanDegenerate(n, t);
    } else if t < 3 * (n + 1) {
      SideDegenerate(n, t);
    } else {
      BottomFanDegenerate(n, t);
    }
  }

  /** With n >= 2 segments, a cylinder triangle has two coinciding corners exactly when it is
      one of the four overrun triangles: the last of the top fan, both of the last side quad
      and the last of the bottom fan. Every other triangle has three distinct corners; with
      n == 2 some of those still have no area, as their corners lie on one line. */
  lemma CylinderDegenerateTriangles(n: int, t: nat)
    requires 2 <= n && t < 4 * (n + 1)
    ensures 3 * t + 3 <= |CylinderIndices(n)|
    ensures var tri := Triangle(CylinderMesh(n), t);
      && 0 <= tri.a < |CylinderVertices(n)| && 0 <= tri.b < |CylinderVertices(n)| && 0 <= tri.c < |CylinderVertices(n)|
      && (CoincidingCorners(n, CylinderVertices(n), tri) <==> t == n || t == 3 * n + 1 || t == 3 * n + 2 || t == 4 * n + 3)
  {
    var vs := CylinderVertices(n);
    CylinderVertexLayout(n);
    CylinderTriangle(n, t);
    CylinderTriangleAtInRange(n, t);
    var tri := Triangle(CylinderMesh(n), t);
    assert vs[tri.a] == CylinderVertexAt(n, tri.a);
    assert vs[tri.b] == CylinderVertexAt(n, tri.b);
    assert vs[tri.c] == CylinderVertexAt(n, tri.c);
    CylinderTriangleAtDegenerate(n, t);
  }
}
