# GLShape geometry and colour bookkeeping

A Dafny model of the integer-valued core of `GLShape.java`, an OpenGL ES demo's shape class. The class has three concrete shapes: a circle drawn as a triangle fan, a square made of two triangles, and a triangle drawn as an outline. The model covers:

- the vertex arrays and draw-order (index) arrays each shape produces;
- the counts the `GLShape` constructor derives from them: `vertexCount = coords.length / 3` and `drawCount = drawOrder.length`;
- the split of a packed 32-bit colour into four channels in [0, 1] (`toColorFloatArray`);
- the draw mode chosen by each shape;
- the `Rotate` enum and the order of the matrix calls the transforming `draw` overload makes.

Modules:

- `JavaTypes` (`java_types.dfy`) covers the Java semantics the code relies on. That is the `(short)` narrowing conversion, the two array exceptions the code can raise, and a `Result` type carrying either a value or the thrown exception.
- `PackedColor` (`packed_color.dfy`) is `toColorFloatArray`. A Java `int` is modelled as its 32-bit two's-complement pattern (`bv32`). Java's signed `>>` is modelled as an arithmetic shift (`Sar`). It is then shown that the `0xff` mask discards the copied sign bits. Re-packing the channels gives back the original value, and so does re-packing the float array.
- `CircleGeometry` (`circle_geometry.dfy`) is `Circle`. The section count N is a parameter; `GLShape.java` fixes it at 360. There are two functions, one for the vertex array and one for the triangle fan. Each has a companion method that follows the Java loop and is proved to compute the same thing. Lemmas give the fan's index range and its triangle structure. A further lemma says that the fan covers each rim edge exactly once.
- `Shapes` (`shapes.dfy`) has the closed `Shape` datatype `{Circle(N), Square, Triangle}`, the fixed square and triangle data, the draw mode of each shape, and the constructor's derived fields. It also proves that every shape's draw order indexes only existing vertices. The constructor never checks this, but the indexed draw call relies on it.

The circle's section count is restricted to Java `short` values (`WellTyped`, `requires IsShort(n)`). Line 42 of `GLShape.java` stores `sectionCount` into a `short[]` without a cast. Java accepts that only for a constant whose value fits in a `short`, so that is the Java code's own domain. Within this domain, the `(short)` casts of `i` and `i + 1` never change a value. A section count of 0 or less is not excluded. It leads to the exception the Java code would throw, and the model returns that exception.

## Model

| member | source | states |
|---|---|---|
| JavaTypes.ToShort | src/app/src/main/java/minus/android/opengl/GLShape.java:46-47 | `(short) x` is a `short` congruent to `x` modulo 2^16, and is `x` itself whenever `x` already fits |
| PackedColor.Sar | src/app/src/main/java/minus/android/opengl/GLShape.java:169-171 | Java's signed `>>`: a logical shift when the sign bit is clear, and the logical shift with every vacated high bit set when it is set |
| PackedColor.Unpack | src/app/src/main/java/minus/android/opengl/GLShape.java:168-172 | the four masked channels are the bytes at bits 24, 16, 8 and 0 of the unsigned pattern, so sign extension never reaches them |
| PackedColor.Pack | src/app/src/main/java/minus/android/opengl/GLShape.java:168-172 | packing the channels with shifts of 24, 16, 8 and 0 puts `r` in the top byte and `a` in the bottom byte, where `Unpack` reads them |
| PackedColor.Scale | src/app/src/main/java/minus/android/opengl/GLShape.java:169-172 | a channel divided by 255 lies in [0, 1]; it is 0 exactly for channel 0 and 1 exactly for channel 255, and 255 times it is the channel |
| PackedColor.ToColorFloatArray | src/app/src/main/java/minus/android/opengl/GLShape.java:168-174 | four components, each in [0, 1]; red is 1 iff the top byte is 0xff, and alpha is 0 iff the bottom byte is 0 |
| PackedColor.ColorComponents | src/app/src/main/java/minus/android/opengl/GLShape.java:169-172 | each of the four components, times 255, is the byte at bits 24, 16, 8 or 0 of the packed value, so each component is that byte divided by 255 |
| PackedColor.SignExtensionMasked | src/app/src/main/java/minus/android/opengl/GLShape.java:169-172 | for shifts of 24, 16, 8 and 0, masking the arithmetic shift gives the same byte as masking a logical shift |
| PackedColor.PackUnpack | src/app/src/main/java/minus/android/opengl/GLShape.java:168-172 | reassembling the four extracted channels gives back the original 32-bit value |
| PackedColor.UnpackPack | src/app/src/main/java/minus/android/opengl/GLShape.java:168-172 | extracting the channels of a packed value gives back the channels packed |
| PackedColor.ScaleUnscale | src/app/src/main/java/minus/android/opengl/GLShape.java:169-172 | dividing a channel by 255 loses nothing: multiplying back recovers the channel |
| PackedColor.ColorFloatRoundTrip | src/app/src/main/java/minus/android/opengl/GLShape.java:168-174 | re-packing the float array produced for any colour yields that colour |
| CircleGeometry.CircleCoords | src/app/src/main/java/minus/android/opengl/GLShape.java:19-31 | for N >= 0, `3 * (N + 1)` coordinates (N + 1 vertices); vertex 0 is `(centerX, centerY, 0)` and every z-coordinate is 0; N = -1 fails on the store into `v[0]`, and N < -1 fails on the array size |
| CircleGeometry.CounterClockWiseVertex | src/app/src/main/java/minus/android/opengl/GLShape.java:19-31 | the Java loop yields the same array, with rim vertex `i` at `(centerX + r*sin_i, centerY + r*cos_i, 0)` |
| CircleGeometry.FanOrder | src/app/src/main/java/minus/android/opengl/GLShape.java:41-48 | the fan's reference definition: the N triangles flattened into exactly `3 * N` indices |
| CircleGeometry.CircleDrawOrder | src/app/src/main/java/minus/android/opengl/GLShape.java:39-50 | for N >= 1, the fan order, exactly `3 * N` indices, a multiple of 3; N = 0 fails on the store into `order[0]`, and N < 0 fails on the array size |
| CircleGeometry.GetDrawOrder | src/app/src/main/java/minus/android/opengl/GLShape.java:39-50 | the Java loop, including its `(short)` casts, yields exactly the fan order, or the exception `CircleDrawOrder` names |
| CircleGeometry.FanIndicesInRange | src/app/src/main/java/minus/android/opengl/GLShape.java:39-50 | every fan index lies in [0, N], so it names one of the circle's N + 1 vertices |
| CircleGeometry.FanStructure | src/app/src/main/java/minus/android/opengl/GLShape.java:41-48 | triangle 0 is the wrap-around `(0, N, 1)` and triangle `i`, for 1 <= i < N, is `(0, i, i + 1)` |
| CircleGeometry.FanCoversRimOnce | src/app/src/main/java/minus/android/opengl/GLShape.java:41-48 | every triangle starts at the centre; each rim edge `k -> k+1` (with `N -> 1` closing the circle) belongs to one triangle and to no other |
| Shapes.Mode | src/app/src/main/java/minus/android/opengl/GLShape.java:33-310 | circle and square draw TRIANGLES and the triangle draws LINE_LOOP, which is the base class default |
| Shapes.Coords | src/app/src/main/java/minus/android/opengl/GLShape.java:59-98 | every shape's vertex array holds a multiple of 3 coordinates; the square and the triangle cannot fail, and the triangle's coordinates are the `float` values its literals round to |
| Shapes.DrawOrder | src/app/src/main/java/minus/android/opengl/GLShape.java:71-108 | the square's and the triangle's draw orders cannot fail |
| Shapes.Construct | src/app/src/main/java/minus/android/opengl/GLShape.java:216-243 | construction succeeds iff the shape is not a circle with fewer than one section; a failure is the draw order's exception; on success, `vertexCount * 3` is the coordinate count with no remainder, `drawCount` is the order's length (a multiple of 3 in TRIANGLES mode), every index is below `vertexCount`, and the colour has four components in [0, 1]; the stored fields are the shape's own vertex array, draw order, converted fill colour and draw mode |
| Shapes.OrderFitsVertices | src/app/src/main/java/minus/android/opengl/GLShape.java:217-219 | for every shape whose draw order exists, the vertex array exists as well, and every draw-order index is below `coords.length / 3` |
| Shapes.DeclaredShapeCounts | src/app/src/main/java/minus/android/opengl/GLShape.java:216-237 | the declared 360-section circle gets 361 vertices and 1080 indices, the square 4 and 6, and the triangle 3 and 3 |
| Shapes.FixedShapesCounterClockwise | src/app/src/main/java/minus/android/opengl/GLShape.java:61-108 | the square's order is the triangles `(0,1,2)` and `(0,2,3)`, which between them use all four corners; both wind counter-clockwise, and so does the triangle |
| Shapes.FillColors | src/app/src/main/java/minus/android/opengl/GLShape.java:52-103 | with the packed values of the three `getFillColorRGBA()` literals, the circle is filled with (0, 0, 1, 0), the square with (1, 1, 1, 1) and the triangle with (0, 1, 0, 0) |
| Shapes.Degree | src/app/src/main/java/minus/android/opengl/GLShape.java:119-133 | `Rotate.value()` is a multiple of 90 in [0, 360), and it is 0 exactly for NONE |
| Shapes.FromDegree | src/app/src/main/java/minus/android/opengl/GLShape.java:119-133 | exactly the degree values 0, 90, 180 and 270 name a `Rotate` constant |
| Shapes.DegreeRoundTrip | src/app/src/main/java/minus/android/opengl/GLShape.java:119-133 | every constant's degree value leads back to that constant, so no two constants share a value |
| Shapes.TransformSteps | src/app/src/main/java/minus/android/opengl/GLShape.java:249-258 | the scale comes first; the z-rotation by `flip.value()` comes second iff `flip` is not NONE; the 180-degree y-rotation comes last iff `mirror` is set |

## Left out

- Shader compilation and linking (`loadShader`, `setupShaderProgram`), the draw calls and the GPU buffer allocation in the constructor are foreign OpenGL ES and `java.nio` calls. They return no status the code inspects.
- The vertex and fragment shader source strings are opaque text passed to the GPU.
- CircleGeometry.CircleCoords: the sine and cosine values are uninterpreted (`Trig`). The Circle rim coordinates are computed in exact real arithmetic, without rounding to `float`. Nothing is proved about the rim points lying on the circle or about the fan's winding direction. Read from the formulas alone (x from sine, y from cosine, lines 26-27), the rim runs clockwise from the top, so each fan triangle `(0, i, i + 1)` would have negative signed area. Despite the name `getCounterClockWiseVertex`, the circle would then wind opposite to the square and the triangle. Face culling is never enabled, so nothing visible depends on it.
- PackedColor.Scale: the division by 255 is exact real division, not rounded to `float`.
- `Color.parseColor` is an Android library call. Each shape's packed colour is taken as the 32-bit value of its eight-digit hex literal.
- Shapes.TransformSteps: records which matrix calls are made and in what order. It does not model the float 4x4 matrices those calls change.
- `MainActivity.java` is not part of this model: it holds activity lifecycle wiring and the view/projection matrix helper, which is float matrix maths done by `android.opengl.Matrix`.
- The circle's section count is limited to `short` values, because a larger constant would not compile at line 42 of `GLShape.java`. For the same reason the `int` overflow of `3 * (sectionCount + 1)` never arises and is not modelled.
