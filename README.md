# Procedural meshes and mouse-look, in Dafny

This project models two pieces of a small OpenGL course repository.

**The mesh generators** (`bob::createPlane`, `bob::createSphere`, `bob::createCylinder`).
Each one pushes vertices into `ew::MeshData::vertices` in loops (nested for the plane and the
sphere, four loops one after another for the cylinder). It then pushes three
indices per triangle into `ew::MeshData::indices`. The model keeps these loops as Dafny methods
over growing sequences (`ProcGen.PlaneVertexLoop`, `ProcGen.SphereIndexLoop`,
`ProcGen.TopFanIndices`, …). Each generator has a closed-form reference definition that says which
vertex and which index sits at every position:

- plane and sphere: `PlaneVertices`, `PlaneIndices`, `SphereVertices`, `SphereIndices`;
- cylinder: `CylinderVertexAt` and `CylinderTriangleAt`.

Lemmas then prove the counts, the row-major layout, the exact triangles of every cell, and that
every index names an existing vertex. The cylinder's fans and side strip run one step past a ring
(`i <= numSegments`). The model keeps these overruns as written. It proves where each overrun
lands, and that, with at least two segments, those overruns are exactly the triangles with two
coinciding corners (`CylinderDegenerateTriangles`).

A vertex is symbolic (`Mesh.Vertex`):

- its grid point or ring index;
- which of the fixed heights it has (0, ±height/2, or on the sphere);
- its normal (up, down, outward);
- its texture coordinate, as the ratio or constant the source writes.

**The mouse-look update** of the camera assignment: `clamp`, and the part of `moveCamera` that
updates `CameraControls` (`firstMouse`, `prevMouseX/Y`, `yaw`, `pitch`). `CameraControl.Step` is the
update as a function on the aiming state. `CameraControl.CameraControls.MoveCamera` is the same
update as a method on a class holding the struct's fields, and its postcondition ties it to `Step`.
The GLFW queries become parameters: whether the right button is held, and the cursor position.
Lemmas prove four things:

- the pitch stays in [-89, 89] over any run of frames;
- a fresh grab turns nothing;
- a release followed by a grab does not jump;
- over a drag, the yaw turns by the cursor's total travel times the sensitivity.

Files: `mesh.dfy` (module `Mesh`), `gridmath.dfy` (module `GridMath`, row-major slot arithmetic),
`procgen.dfy` (module `ProcGen`), `camera.dfy` (module `CameraControl`).

## Model

| member | source | states |
|---|---|---|
| ProcGen.CreatePlane | core/bob/procGen.cpp:4-39 | the mesh has the plane's (s+1)² vertices in row-major order and its 6·s² indices, cell by cell, and every index names a vertex |
| ProcGen.PlaneVertexLoop | core/bob/procGen.cpp:9-20 | after the loops there are exactly (s+1)² vertices, and grid point (row, col) is at slot row·(s+1)+col with y = 0, normal up and uv (col/s, row/s) |
| ProcGen.PlaneIndexLoop | core/bob/procGen.cpp:22-37 | after the loops there are exactly 6·s² indices, and the six of cell (row, col) sit at 6·(row·s+col) and form the cell's two triangles |
| ProcGen.PlaneCellPushed | core/bob/procGen.cpp:27-35 | the six pushes for one cell, with start = row·columns+col, extend the row's run by exactly that cell's quad |
| ProcGen.PlaneCells | core/bob/procGen.cpp:22-37 | the complete run of s rows of s cells is an index list of length 6·s² with every cell's quad at 6·(row·s+col) |
| ProcGen.PlaneVertexAt | core/bob/procGen.cpp:9-20 | position k of the vertex list holds grid point (k / (s+1), k mod (s+1)), with y = 0 and normal (0, 1, 0): no other vertices are present |
| ProcGen.PlaneCellTriangles | core/bob/procGen.cpp:27-35 | cell (row, col) yields triangles (start, start+1, start+s+2) and (start, start+s+2, start+s+1), start = row·(s+1)+col |
| ProcGen.PlaneIndicesInRange | core/bob/procGen.cpp:22-37 | every plane index is below (s+1)², the vertex count |
| ProcGen.PlaneIndexInRange | core/bob/procGen.cpp:27-35 | index k is a corner of cell k/6, so it lies below (s+1)² |
| ProcGen.PlaneQuadInRange | core/bob/procGen.cpp:29-35 | the six corners of any cell are grid points, all below (s+1)² |
| ProcGen.CreateSphere | core/bob/procGen.cpp:41-81 | the mesh has the sphere's (n+1)² vertices row-major (seam column duplicated) and its 6·n² indices, and every index names a vertex |
| ProcGen.SphereVertexLoop | core/bob/procGen.cpp:48-62 | after the loops there are exactly (n+1)² vertices, and (row, col) is at slot row·(n+1)+col with uv (col/n, 1 − row/n) and an outward normal |
| ProcGen.SphereIndexLoop | core/bob/procGen.cpp:64-79 | after the loops there are exactly 6·n² indices, and the six of cell (row, col) sit at 6·(row·n+col) |
| ProcGen.SphereCellPushed | core/bob/procGen.cpp:69-77 | the six pushes for one cell extend the row's run by exactly that cell's quad |
| ProcGen.SphereCells | core/bob/procGen.cpp:64-79 | the complete run of n rows of n cells is an index list of length 6·n² with every cell's quad at 6·(row·n+col) |
| ProcGen.SphereVertexAt | core/bob/procGen.cpp:48-62 | position k of the vertex list holds (k / (n+1), k mod (n+1)) with uv (col/n, 1 − row/n) |
| ProcGen.SphereCellTriangles | core/bob/procGen.cpp:69-77 | cell (row, col) yields triangles (start, start+1, start+n+1) and (start+n+1, start+1, start+n+2) |
| ProcGen.SphereIndicesInRange | core/bob/procGen.cpp:64-79 | every sphere index is below (n+1)², the vertex count |
| ProcGen.SphereIndexInRange | core/bob/procGen.cpp:69-77 | index k is a corner of cell k/6, so it lies below (n+1)² |
| ProcGen.SphereQuadInRange | core/bob/procGen.cpp:71-77 | the six corners of any cell are grid points, all below (n+1)² |
| ProcGen.RowRunAt | core/bob/procGen.cpp:25-36 | after the inner loop has pushed `count` cells of a row, cell c's six indices sit at 6·c |
| ProcGen.GridRunAt | core/bob/procGen.cpp:23-37 | after the outer loop has pushed `rows` rows, cell (r, c)'s six indices sit at 6·(r·n+c) |
| ProcGen.GridRunAtLastRow | core/bob/procGen.cpp:23-37 | the cells of the row pushed last sit after all earlier rows, at 6·(r·n+c) |
| ProcGen.GridRunAtEarlierRow | core/bob/procGen.cpp:23-37 | pushing a further row leaves every earlier cell where it was |
| ProcGen.CreateCylinder | core/bob/procGen.cpp:83-210 | the mesh is the top centre, four rings of n+1 vertices and the bottom centre, then the top fan, the side strip and the bottom fan; sideStart and sideEnd are read where the source reads them; it has 4(n+1)+2 vertices and every index names a vertex |
| ProcGen.TopCapVertices | core/bob/procGen.cpp:95-111 | the top centre (normal up, uv (0.5, 0.5)) followed by ring points 0..n at the top height with normal up and the cap projection uv |
| ProcGen.SideTopVertices | core/bob/procGen.cpp:115-128 | appends ring points 0..n at the top height, facing outward, with uv (i/n, 1), and changes nothing before them |
| ProcGen.SideBottomVertices | core/bob/procGen.cpp:130-144 | appends ring points 0..n at the bottom height, facing outward, with uv (i/n, 0) |
| ProcGen.BottomCapVertices | core/bob/procGen.cpp:146-164 | appends ring points 0..n at the bottom height with normal (0, 1, 0), then the bottom centre with normal (0, −1, 0) |
| ProcGen.TopFanIndices | core/bob/procGen.cpp:168-178 | n+1 triangles (1+i, 0, 2+i), i = 0..n |
| ProcGen.SideIndices | core/bob/procGen.cpp:180-195 | appends n+1 quads, each (start, start+1, start+n+1) and (start+1, start+n+2, start+n+1) with start = sideStart+i |
| ProcGen.BottomFanIndices | core/bob/procGen.cpp:197-207 | appends n+1 triangles (centre, sideEnd+i, sideEnd+i+1), centre being the last vertex |
| ProcGen.CylinderVertexLayout | core/bob/procGen.cpp:94-164 | the vertex list has 4(n+1)+2 entries, and vertex k is CylinderVertexAt(n, k): the centre at 0, the top cap ring, the two side rings from sideStart, the bottom cap ring from sideEnd, the bottom centre last |
| ProcGen.CylinderCounts | core/bob/procGen.cpp:96-207 | for n ≥ 0: 4n+6 vertices, the top centre at 0, sideStart = n+2, sideEnd = 3n+4, the bottom centre at 4n+5; 12(n+1) indices, 3(n+1) per fan and 6(n+1) in the side strip |
| ProcGen.TriangleInBlock | core/bob/procGen.cpp:166-207 | a triangle that falls inside one of the three index blocks is read from that block at the shifted position |
| ProcGen.CylinderTopFanTriangle | core/bob/procGen.cpp:170-177 | top fan triangle i is (1+i, 0, 2+i) |
| ProcGen.SideTriangleAt | core/bob/procGen.cpp:183-194 | CylinderTriangleAt places triangle r of side quad q at n+1+2q+r |
| ProcGen.CylinderSideTriangle | core/bob/procGen.cpp:183-194 | side triangle n+1+2q+r of the mesh is triangle r of side quad q |
| ProcGen.SideBlockTriangle | core/bob/procGen.cpp:180-195 | the side triangles are read from the side strip, which follows the 3(n+1) top fan indices |
| ProcGen.SideStripTriangle | core/bob/procGen.cpp:185-193 | indices 6q+3r..6q+3r+2 of the side strip are the corners of triangle r of quad q |
| ProcGen.CylinderBottomFanTriangle | core/bob/procGen.cpp:199-206 | bottom fan triangle i is (4n+5, 3n+4+i, 3n+5+i) |
| ProcGen.CylinderTriangle | core/bob/procGen.cpp:166-207 | triangle t of the mesh is CylinderTriangleAt(n, t), for every t < 4(n+1) |
| ProcGen.CylinderTriangleLayout | core/bob/procGen.cpp:166-207 | there are 12(n+1) indices, and every triangle is the one CylinderTriangleAt places there |
| ProcGen.CylinderTriangleAtInRange | core/bob/procGen.cpp:166-207 | every corner CylinderTriangleAt names is below 4(n+1)+2 |
| ProcGen.CylinderIndicesInRange | core/bob/procGen.cpp:166-207 | every cylinder index names a vertex, the loops' overruns included |
| ProcGen.CylinderOverruns | core/bob/procGen.cpp:172-206 | the last top fan triangle reaches sideStart (the first side vertex); the last side triangle reaches sideEnd (the first bottom cap vertex); the last bottom fan triangle uses the bottom centre twice |
| ProcGen.CylinderCapNormals | core/bob/procGen.cpp:97-163 | the top centre and both cap rings, the bottom one included, have normal (0, 1, 0); the bottom centre has (0, −1, 0) |
| ProcGen.TopFanDegenerate | core/bob/procGen.cpp:172-177 | with n ≥ 2, a top fan triangle has two coinciding corners exactly when it is the last one |
| ProcGen.SideDegenerate | core/bob/procGen.cpp:183-194 | with n ≥ 2, a side triangle has two coinciding corners exactly when it belongs to the last quad |
| ProcGen.BottomFanDegenerate | core/bob/procGen.cpp:201-206 | with n ≥ 2, a bottom fan triangle has two coinciding corners exactly when it is the last one |
| ProcGen.CylinderTriangleAtDegenerate | core/bob/procGen.cpp:166-207 | with n ≥ 2, triangle t has two coinciding corners exactly when t is n, 3n+1, 3n+2 or 4n+3 |
| ProcGen.CylinderDegenerateTriangles | core/bob/procGen.cpp:166-207 | with n ≥ 2, a triangle of the generated mesh has two coinciding corners exactly when it is one of the four overrun triangles; every other triangle has three distinct corners |
| GridMath.RowStartIsProduct | core/bob/procGen.cpp:27 | the start of a row built by repeated addition is row · columns, as the source computes it |
| GridMath.CellOf | core/bob/procGen.cpp:9-11 | every position of a row-major grid is the slot of the cell (k / columns, k mod columns) |
| CameraControl.Clamp | assignments/assignment5_camera/main.cpp:298-303 | with min ≤ max the result is in [min, max]; an in-range value is returned unchanged; below min gives min; above max gives max; with max < min the result is max |
| CameraControl.ClampIdempotent | assignments/assignment5_camera/main.cpp:298-303 | clamping twice is clamping once |
| CameraControl.ClampMonotone | assignments/assignment5_camera/main.cpp:298-303 | clamp preserves order |
| CameraControl.ScaledAdds | assignments/assignment5_camera/main.cpp:241-246 | the turns of two consecutive cursor movements add up to the turn of their sum |
| CameraControl.Step | assignments/assignment5_camera/main.cpp:216-253 | released: only firstMouse changes, to true; held: firstMouse false, prevMouse = cursor, pitch in [-89, 89]; first held frame: yaw unchanged; later frames: yaw += (x − prevX)·sensitivity, pitch = clamp(pitch + (y − prevY)·sensitivity) |
| CameraControl.RunKeepsPitchInRange | assignments/assignment5_camera/main.cpp:249 | starting in range, the pitch stays in [-89, 89] after any sequence of frames |
| CameraControl.DragTurnsYawByTravel | assignments/assignment5_camera/main.cpp:234-253 | over frames with the button held, the yaw turns by (last cursor x − where the drag starts)·sensitivity, where it starts being the first frame's cursor on a fresh grab and the remembered prevMouseX otherwise; prevMouseX ends at the last cursor and firstMouse is false |
| CameraControl.ReleaseThenGrabDoesNotJump | assignments/assignment5_camera/main.cpp:219-238 | after a release, the next held frame leaves the yaw unchanged and remembers the cursor |
| CameraControl.CameraControls.constructor | assignments/assignment5_camera/main.cpp:17-23 | yaw = pitch = 0, mouseSensitivity = 0.1, firstMouse, moveSpeed = 5; prevMouse takes the caller's values |
| CameraControl.CameraControls.MoveCamera | assignments/assignment5_camera/main.cpp:216-253 | the new aiming state is Step of the old one, mouseSensitivity and moveSpeed are unchanged, and a pitch in range stays in range |

## Left out

- Vertex positions and normals computed with `cos`, `sin`, `Normalize` and the width, height and
  radius scaling are not modelled. A vertex keeps its grid point or ring index, its height class
  and its normal direction, so positions are compared by those.
- Texture coordinates are kept as the ratios and constants the source writes, not evaluated in
  floating point. With 0 subdivisions or segments the source divides by zero; here that is a ratio
  with denominator 0.
- ProcGen.CreatePlane and ProcGen.CreateSphere: integers are unbounded. The source's 32-bit `int`
  arithmetic (`row * columns + col`) overflows only for grids far beyond any vertex buffer, and
  that is not modelled.
- ProcGen.CreateCylinder: requires 4·numSegments + 6 ≤ 2²⁴. The source keeps `sideStart`,
  `sideEnd`, `start`, `center`, `columns` and the fan loop counters in `float`, which are exact
  integers only up to 2²⁴. The model does not describe the rounded indices beyond that.
- CameraControl.Step and CameraControl.CameraControls.MoveCamera: angles and cursor positions are
  exact reals. The source's `float` yaw/pitch and `double` cursor rounding is not modelled.
- In `moveCamera`: the `forward`/`right`/`up` vectors, the keyboard movement of the camera
  position, the camera target, and the cursor-mode calls (`glfwSetInputMode`). The last is an
  effect on the window only.
- ProcGen.CylinderDegenerateTriangles: "coinciding corners" compares symbolic vertices. It
  assumes radius ≠ 0 and height ≠ 0, which `createCylinder` does not check, and exact angles;
  in `float`, ring point n is only close to ring point 0, so the overrun triangles are thin
  slivers rather than collapsed ones. It says nothing about area: with 2 segments every fan
  triangle but the last of each fan has collinear corners yet three distinct ones.
- The `prevMouseX/Y` fields start uninitialised in the source. The constructor takes them as
  parameters.
- `moveCamera` multiplies by the global `sensitivity` (main.cpp:48), not by the struct's
  `mouseSensitivity`. The model passes the global as a parameter and keeps the field, unread.
- CameraControl.Run, CameraControl.RunKeepsPitchInRange and CameraControl.DragTurnsYawByTravel
  assume one fixed sensitivity for the whole run of frames. In the source, an ImGui slider
  (main.cpp:199) can change the global between frames. `Step` and `MoveCamera` take the value
  per call, so each single frame allows for a change.
- `core/bob/camera.cpp`, `core/bob/texture.cpp`, `core/bob/shader.h` and `core/bob/procGen.h`
  are not part of this model: matrix math over an unseen library, image loading and OpenGL calls,
  and declarations only.
- The render loop, ImGui panels and cube layout of the camera assignment, and the other
  assignments' `main.cpp` files, are not part of this model. They are window, GPU and UI glue.
