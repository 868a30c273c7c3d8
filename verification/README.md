# OBJ loading and primary-ray generation of a small ray tracer, in Dafny

This project models the two discrete parts of a C++ ray tracer.

**The mesh loader** is class `Obj` in `objLoader.cpp`. It reads a Wavefront-OBJ-like text file line by line and dispatches on the first word of each line:

- `v x y z` appends a vertex position.
- `vt u v` appends a texture coordinate.
- `f a/b c/d e/f` appends a triangle. Its corners are looked up by 1-based index in the vertices and texture coordinates read so far.
- Any other first word aborts the load.

A loaded mesh can then be given a displacement and three rotation angles. `getTriangles` returns every triangle rotated (about x, then y, then z) and then translated.

**The renderer front end** is class `RayTracer` in `rayTracer.cpp`. `generateRays` builds one ray per pixel of an `h` x `w` image, rows outer and columns inner, all from the camera origin. The ray for row `i`, column `j` has direction `(-1 + 2j/w, 1 - 2i/h, 1)`. `render` maps every ray to a colour.

Modules, one per file:

- `Wrappers` (`wrappers.dfy`): `Option` and `Result`.
- `Ints` (`ints.dfy`): 32-bit `int` and the conversion of an `int` to the 64-bit `size_t`.
- `Decimal` (`decimal.dfy`): `std::stoi` in base 10, and a decimal printer it is proved to invert.
- `Geometry` (`geometry.dfy`): points over `real`, translation, and the axis rotations of `common.cpp` with sine and cosine left uninterpreted.
- `Mesh` (`mesh.dfy`): `TriangleVertex`, `TextureTriangle` and their transforms.
- `ObjLoader` (`obj_loader.dfy`): the parse loop as a fold over lines that returns a `Result`, `split`, the setters and getters, and `getTriangles`.
- `RayTracing` (`ray_tracer.dfy`): ray generation, the colour map, and its parallel form.

How the model represents the source:

- The file is a sequence of lines. Each line is already split at white space into words.
- `std::stof` is a parameter `pf: string -> Option<real>`. `None` stands for its exceptions.
- `std::stoi` is modelled exactly. It skips leading white space and reads an optional sign and then at least one digit. It ignores what follows the digits and fails when the value does not fit in an `int`.
- Each C++ exception becomes an `Err` value. The model keeps the kinds apart: an unknown keyword, a bad float, a bad integer, and an index out of range.
- The material callback that every triangle carries is an opaque type parameter `M`.
- `Ray::findColor` is a parameter. It receives the ray, the triangle list and the depth.

Behaviours of the code that the model keeps on purpose:

- **Short lines re-read their last word.** A failed `>>` extraction leaves the string unchanged. So on a short line the last word is read again: `v 1 2` gives the vertex (1, 2, 2). An empty line leaves the first word empty, so it is rejected like an unknown keyword (`ObjLoader.Word`).
- **Face tokens.** `split` reads the integer before the first `/` and the integer in the next segment. A token with no `/` makes the second `getline` fail, and `segment` keeps the first segment. So a bare `5` means vertex 5 with texture 5. `5/` and `5//7` have an empty second segment, and `stoi` rejects it.
- **Negative resolution.** The loops compare a `size_t` counter with the `int` resolution. A negative height or width is therefore converted to 2^64 + h (`Ints.SizeT`). The directions still use the signed values.
- **Too many rays.** `emplace_back` throws `std::length_error` once the vector already holds `max_size()` rays. `max_size()` is fixed by the implementation, so it is the parameter `maxSize`. `GenerateRays` and `Render` fail exactly when the image needs more than `maxSize` rays. Every `max_size()` is at most `PTRDIFF_MAX`, which is below 2^63. So a negative height or width makes them fail unless the other dimension is 0 (`RayTracing.NegativeResolutionOverflows`).
- **The copy returned by the setters.** `setDisplacement` and `setRotation` change the object and also return a copy of it. The functional model returns the updated object, which is what a call chain sees.
- **No normals.** The loader reads no normals: a `vn` line is rejected like any unknown keyword.
- **Positions only.** `rotate` and `operator+` move only the three positions. Texture coordinates and the callback pass through.

## Model

| member | source | states |
|---|---|---|
| Ints.SizeT | rayTracer.cpp:29-30 | the loop bound is the `int` converted to `size_t` by the rule for unsigned types: a value below 2^64 that is congruent to the `int` modulo 2^64 |
| Ints.SizeTUnique | rayTracer.cpp:29-30 | that rule fixes the value: any number below 2^64 that is congruent to the `int` is the converted value |
| Decimal.Stoi | objLoader.cpp:234-236 | a segment with no digit at all is rejected |
| Decimal.StoiShow | objLoader.cpp:234-236 | `stoi` inverts decimal printing for every integer, whatever non-digit text follows; integers outside the 32-bit range are rejected |
| ObjLoader.FirstSlash | objLoader.cpp:233 | the first segment ends at the first `/`: no earlier character is `/`, and the one at the returned position is |
| ObjLoader.Split | objLoader.cpp:225-238 | succeeds exactly when both segments convert; the vertex index comes from the first segment and the texture index from the second; with no `/` both indices are the same; failures are integer-conversion errors |
| ObjLoader.SplitShow | objLoader.cpp:225-238 | the token `a/b`, optionally followed by a third `/` segment, is read as vertex `a` and texture `b` |
| ObjLoader.SlashSegments | objLoader.cpp:230-235 | for slash-free `x` and `y`, the two `getline` calls on `x/y`, alone or followed by another `/` segment, read `x` and then `y` |
| ObjLoader.SplitShowBare | objLoader.cpp:232-236 | a bare integer token is read as that index for both the vertex and the texture |
| ObjLoader.SplitRejectsEmptyTexture | objLoader.cpp:235-236 | the `a//n` corner form fails, because its second segment is empty |
| ObjLoader.ParseVertex | objLoader.cpp:138-147 | a `v` line succeeds exactly when the next three words parse as floats, and gives the point made of them; otherwise it fails with a float error |
| ObjLoader.ParseTexCoord | objLoader.cpp:149-156 | a `vt` line succeeds exactly when the next two words parse, and gives the coordinate made of them; otherwise it fails with a float error |
| ObjLoader.ParseFace | objLoader.cpp:158-165 | an `f` line reads exactly words 1 to 3 through `split`; it succeeds exactly when all three split, and the corners are those splits in order |
| ObjLoader.Step | objLoader.cpp:131-172 | one line: `v` appends exactly one vertex, `vt` one texture coordinate, `f` one triangle whose corner k is `vertices[v_k - 1]` paired with `textures[vt_k - 1]` and whose callback is the mesh's, and nothing else changes; an `f` line whose indices do not resolve fails with an index error; any other keyword fails with the invalid-file error |
| ObjLoader.LoadObj | objLoader.cpp:126-174 | the constructor's line loop, which stops at the first failing line, computes the same result as the fold over all lines |
| ObjLoader.RunKeepsError | objLoader.cpp:131-172 | once a prefix of the file fails, the whole load fails with that same error |
| ObjLoader.LineFails | objLoader.cpp:131-172 | a line that fails on the state its predecessors leave makes the whole load fail |
| ObjLoader.RunCounts | objLoader.cpp:138-168 | from any starting state, each `v`, `vt` and `f` line adds exactly one element to its own list; the callback, displacement and rotation are unchanged |
| ObjLoader.LoadCounts | objLoader.cpp:126-174 | a successful load holds exactly as many vertices, texture coordinates and triangles as there are `v`, `vt` and `f` lines, with zero displacement and rotation and the given callback |
| ObjLoader.RunLists | objLoader.cpp:138-157 | from any starting state, the vertex and texture lists grow by exactly the points of the `v` and `vt` lines, in file order |
| ObjLoader.LoadLists | objLoader.cpp:138-157 | the loaded vertex and texture lists are exactly the `v` and `vt` lines of the file, in order, whatever lines are interleaved |
| ObjLoader.StepLists | objLoader.cpp:138-157 | a successful line adds its own point (a `v` line) or its own coordinate (a `vt` line) and nothing more to the two lists |
| ObjLoader.StepTriangles | objLoader.cpp:158-168 | a successful line adds its own triangle and nothing more: one for an `f` line whose corners resolve, none for other lines |
| ObjLoader.RunFaces | objLoader.cpp:158-168 | from any starting state, the triangle list grows by exactly the `f` lines, in file order; each line's corners are looked up in the vertices and texture coordinates that the start state and the earlier lines provide, and each triangle carries the mesh's callback |
| ObjLoader.LoadFaces | objLoader.cpp:126-174 | the loaded triangle list is exactly the file's `f` lines, in order, each resolved against the `v` and `vt` lines before it |
| ObjLoader.InvalidLineFails | objLoader.cpp:169-172 | any line whose first word is not exactly `v`, `vt` or `f` makes the load fail; this covers blank lines, comments and `vn` |
| ObjLoader.UnresolvedVertexFails | objLoader.cpp:167 | a face corner whose vertex index is 0, negative, or larger than the number of `v` lines before that face makes the load fail, so forward references fail |
| ObjLoader.UnresolvedTextureFails | objLoader.cpp:167 | the same for texture indices and the `vt` lines before the face |
| ObjLoader.FaceStepFails | objLoader.cpp:167 | a parsed face with any corner that cannot be looked up fails with the index error |
| ObjLoader.RunLastStep | objLoader.cpp:131-172 | the fold over k + 1 lines is one more step after the fold over k lines |
| ObjLoader.ExtraWordsIgnored | objLoader.cpp:138-168 | words after the three (`v`, `f`) or two (`vt`) that a line reads have no effect |
| ObjLoader.ShortLineRepeatsLastWord | objLoader.cpp:134-165 | a line that runs out of words re-reads its last word, so it behaves like the same line with that word repeated |
| ObjLoader.SetDisplacement | objLoader.cpp:176-185 | the getter returns the new displacement, the rotation is unchanged, and nothing else changes |
| ObjLoader.SetRotation | objLoader.cpp:187-202 | the getter returns the new angles, the displacement is unchanged, and nothing else changes |
| ObjLoader.GetTriangles | objLoader.cpp:204-211 | as many triangles as were parsed, in the same order; each position is rotated about x, y, z and then displaced; texture coordinates and callback pass through |
| ObjLoader.GetTrianglesUnplaced | objLoader.cpp:204-223 | with the initial zero displacement and rotation, the triangles come back exactly as parsed |
| ObjLoader.GetTrianglesRedisplaced | objLoader.cpp:176-211 | changing the displacement translates every returned triangle by the difference between the new and the old displacement |
| Mesh.TranslateTriangleUndo | objLoader.cpp:63-66 | translating a triangle by d and then by -d restores it |
| Mesh.RotateTriangleUndo | objLoader.cpp:68-71 | rotating a triangle and then applying the opposite angles in reverse order restores it |
| Mesh.PlaceTriangleUndo | objLoader.cpp:63-71 | placing a triangle (rotate, then displace by d) loses nothing: displacing by -d and un-rotating gives the original triangle back |
| Geometry.TranslateUndo | common.cpp:12-15 | translating a point by d and then by -d restores it |
| Geometry.RotateByXUndo | common.cpp:43-46 | rotating about x by b and then by -b restores the point, given sin^2 + cos^2 = 1 and the parity of sin and cos |
| Geometry.RotateByYUndo | common.cpp:47-50 | the same about y |
| Geometry.RotateByZUndo | common.cpp:51-54 | the same about z |
| Geometry.RotateUndo | objLoader.cpp:70 | the x-then-y-then-z rotation is undone by the opposite angles in the order z, y, x |
| Geometry.RotateByZeroIsIdentity | common.cpp:43-54 | rotating by three zero angles leaves every point in place |
| RayTracing.RaysShape | rayTracer.cpp:29-33 | after n rows there are n * w rays, all from the origin, and the ray of pixel (i, j) is at index i * w + j |
| RayTracing.GenerateRays | rayTracer.cpp:26-37 | fails with `length_error` exactly when h * w (as `size_t` counts) exceeds the vector's `max_size()`; otherwise exactly h * w rays, all from the tracer's origin, in row-major order, the ray at i * w + j being the one for row i, column j |
| RayTracing.PushOverflows | rayTracer.cpp:29-33 | a push that finds the vector full at pixel (i, j) means the image needs more rays than `max_size()` |
| RayTracing.NegativeResolutionOverflows | rayTracer.cpp:29-33 | with any `max_size()` up to `PTRDIFF_MAX`, a negative height or width and a non-zero other dimension need more rays than the vector can hold |
| RayTracing.PixelDirectionWindow | rayTracer.cpp:33 | z is 1; for positive w, x is in [-1, 1); for positive h, y is in (-1, 1]; a negative w or h puts x at or below -1, or y at or above 1 |
| RayTracing.PixelOfDirection | rayTracer.cpp:33 | the pixel can be recovered from its direction: the direction map is inverted by `PixelOf` |
| RayTracing.PixelRaysDistinct | rayTracer.cpp:33 | different pixels get different rays |
| RayTracing.DirIgnored | rayTracer.cpp:11-33 | the constructor's `dir` field has no effect on the generated rays |
| RayTracing.ColorRays | rayTracer.cpp:17-20 | the colour buffer has one entry per ray, and entry k is `findColor` of ray k at depth 0 |
| RayTracing.ColorRaysScheduled | rayTracer.cpp:17-20 | filling the buffer of default colours slot by slot, in any order that covers every slot (repeats allowed), gives the same buffer as the in-order map |
| RayTracing.Render | rayTracer.cpp:13-23 | fails exactly when `generateRays` throws; otherwise h * w colours, and the colour at i * w + j is `findColor` at depth 0 of the ray for pixel (i, j) |

## Left out

- Float arithmetic: coordinates, angles and directions are exact `real`s. Rounding in `2.0f * j / w`, in `stof`, and in the `double` to `float` narrowing of the setter arguments is not modelled.
- `std::stof` is an uninterpreted parameter. Its accepted syntax (hexadecimal floats, `inf`, `nan`, trailing text) is not modelled.
- `sin` and `cos` are uninterpreted. The lemmas that need their identities take them as preconditions at the angles used.
- Reading the file: `ifstream`, `getline` into lines, and splitting lines at white space are not modelled. The input is already split into words.
- Face index `INT_MIN`: the C++ code evaluates `v1 - 1`, which overflows (undefined behaviour). The model computes the index without wrap-around, so the lookup simply fails.
- Ray normalisation (`Ray::Ray`, `Point::normal`): it uses `sqrt`. The model keeps the un-normalised direction, and `findColor` is given that.
- `TextureTriangle::intersect`, `intersectionDistance` and the sky gradient (objLoader.cpp:73-105) are left out. They are float threshold tests, and an idealisation over the reals would not match the code.
- Vertex interpolation (`TriangleVertex::operator*` and `operator+(TriangleVertex)`) is only used by `intersect`, so it is left out too.
- `getColor` and the texture lambdas in main.cpp: they convert a float to an unsigned index into a global libpng buffer. `readPng.cpp` is not part of this model.
- `Ray::findColor`, nearest-hit selection and any acceleration structure: their definitions are not part of this model, so `findColor` is a parameter.
- The `Mirror` plane in mirror.cpp and the mirror material in main.cpp: float geometry and recursion through `findColor`.
- `writeImage` and `main`: PNG output and the frame loop.
- `std::execution::par_unseq`: threads are not modelled. `ColorRaysScheduled` models the parallel map as any serial order of the per-slot writes, which is what independent writes to distinct slots amount to.
- RayTracing.GenerateRays: running out of memory (`std::bad_alloc`) is not modelled. In practice it happens long before `max_size()` for a negative or very large resolution. The model only reports the `length_error` that the size limit implies.
- ObjLoader.Split: the model does not distinguish `stoi`'s two exceptions (`invalid_argument` and `out_of_range`). Both are `InvalidInteger`.
- ObjLoader.Step: when several `.at` lookups of one face fail, the C++ evaluation order of the arguments is unspecified. The model reports one `IndexOutOfRange` without saying which lookup failed.
