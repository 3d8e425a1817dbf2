# webgl-test mesh pipeline in Dafny

This project models the non-GL core of the Kotlin WebGL demo `webgl-test`:

- **the Wavefront OBJ reader** (`objparser.kt`). `parse` filters out blank and
  comment lines. It splits each remaining line into a directive and its
  argument and folds the lines into a mutable `ParserState`. The state holds
  four attribute lists, the name and faces of the group being collected, and
  the map of finished groups. `parse` then flushes the last group and packs
  an `ObjModel`.
- **the model builder** (`models.kt`). It resolves every slot of every face of
  one group to a `VBO` triple (vertex, normal, optional uv) and keeps each
  distinct triple once, in first-seen order. It numbers the distinct triples
  and flattens their components into the attribute buffers. It re-indexes
  each face against the numbering and buckets the faces by arity.
  `render` draws the buckets.
- **the `Vector` and `Matrix` value types** (`math-vector.kt`,
  `math-matrix.kt`). These cover their construction invariants, element-wise
  arithmetic, `cross`, the fixed matrix layouts and the row/column machinery.

Layout:

| file | module | contents |
|---|---|---|
| `outcomes.dfy` | `Outcomes` | `Option`, `Result` and the exception kinds; `require`, `getOrNull`, a throwing `map`, `filterNotNull` |
| `text.dfy` | `Text` | whitespace, `trim`, `split("\\s+")`, `split("/")` |
| `lists.dfy` | `Lists` | `map`, `merge`, `sum`, `flatMap`, Float division |
| `vectors.dfy` | `Vectors` | `Vector` and its operations |
| `matrices.dfy` | `Matrices` | `Matrix` and its operations |
| `objparser.dfy` | `ObjParser`, `ObjParserProperties` | the OBJ reader, and what it does over whole files |
| `models.dfy` | `Models` | the model builder and `render` |

How the model is built:

- Exceptions become `Failure(kind)` of a `Result`, and nullable values become
  `Option`.
- Floats are `real`.
- The library number parsers `safeParseDouble` and `parseInt` are
  function-typed fields of `NumberParsers`. The model assumes nothing about
  them.
- The OBJ reader keeps the source's imperative shape:
  - `ParserState` is a class whose `seq`/`map` fields the methods reassign.
  - `Parse` runs a `while` loop over the lines.
  - `ParseFace` runs a loop over the face tuples.
  - Each method is proved equal to a pure function: `Run` (the fold over the
    lines), `AfterStartGroup` and `FaceOf`. The lemmas about the whole parser
    are proved about those functions.
- The builder, the `Model` constructor, is the pure function `Build`.
- `render` is `Render`, the list of draw calls it would issue.

The code is modelled as written, including these behaviours:

- `get(row, col)` always reads flat index `row * 4 + col`, whatever the
  matrix width.
- `row`, `column`, `rows` and `columns` iterate the inclusive ranges
  `0..width` and `0..height`, so they return one element too many, or fail.
- It follows that matrix `times` never returns a matrix (`TimesNeverSucceeds`).
  `transpose` fails on every matrix of width at most 4
  (`NarrowTransposeFails`), under the IndexOutOfBounds reading of
  out-of-range reads (see "Left out").
- `translateMatrix` supplies 12 values for a 4×4 matrix, so it always fails
  the construction check.
- `mtllib` only reads the material map, and `allMaterials` is never used, so
  the parsed model's material map is always empty (`MaterialsAlwaysEmpty`).
- `parseFace` compacts each index list, dropping the tuples that lack that
  sub-token (`FaceListsCompacted`). A tuple with an empty uv sub-token
  therefore hands its slot the uv of a later tuple: slot `i` reads the uv of
  the `i`-th tuple that has one (`UvIndexOfTuple`). In `f 1//1 2/5/2`, slot 0
  reads uv index 4, which the second tuple names (`UvShiftExample`). Normals
  are compacted the same way.
- A slot at or past the end of the face's compacted uv list uses uv index 0
  (`MissingUvUsesFirst`); in the example that is slot 1.

In each case the model keeps the code's behaviour and proves what follows
from it.

## Model

| member | source | states |
|---|---|---|
| Outcomes.Require | src/cy/kotlin/webgl/math-vector.kt:4-6 | `require(c)` succeeds exactly when `c` holds, and throws IllegalArgumentException otherwise |
| Outcomes.GetOrNull | src/cy/kotlin/webgl/objparser.kt:82 | the element is returned exactly when the index is in `0..size-1`, and null otherwise |
| Outcomes.Somes | src/cy/kotlin/webgl/objparser.kt:73-75 | the non-null entries: no more of them than entries, every non-null value is kept and nothing else is added |
| Outcomes.SomesOrder | src/cy/kotlin/webgl/objparser.kt:73-75 | the kept values come from strictly increasing positions, and every non-null position is one of them: the order is kept and nothing is dropped |
| Outcomes.SomesCount | src/cy/kotlin/webgl/objparser.kt:73-75 | one entry per non-null position |
| Outcomes.SomesAll | src/cy/kotlin/webgl/objparser.kt:73-75 | with no null entry, the result is all the values in order |
| Outcomes.SomesShorter | src/cy/kotlin/webgl/models.kt:29 | one null entry makes the result shorter than the list |
| Outcomes.MapResults | src/cy/kotlin/webgl/models.kt:38-41 | `map` with a throwing lambda succeeds exactly when no element throws, and then maps every element in order; otherwise it throws the exception of the first element that throws |
| Text.LeadingWhitespace | src/cy/kotlin/webgl/objparser.kt:31 | the length of the maximal whitespace run at the start of a string |
| Text.TrailingWhitespace | src/cy/kotlin/webgl/objparser.kt:31 | the length of the maximal whitespace run at the end of a string |
| Text.LeadingWord | src/cy/kotlin/webgl/objparser.kt:33 | the regex `^[^\s]+` matches exactly the maximal non-whitespace run at the start |
| Text.Trim | src/cy/kotlin/webgl/objparser.kt:31-34 | `trim` drops only leading and trailing whitespace; it is empty exactly for a blank line; otherwise it starts and ends with non-whitespace |
| Text.SplitWhitespace | src/cy/kotlin/webgl/objparser.kt:62 | `split("\\s+")` yields at least one piece, and no piece contains whitespace |
| Text.SplitWhitespaceJoin | src/cy/kotlin/webgl/objparser.kt:62 | the pieces with a non-empty whitespace run put back between each pair of neighbours give back the input, so nothing but the separators is lost |
| Text.SplitWhitespaceInnerPieces | src/cy/kotlin/webgl/objparser.kt:62 | only the first and the last piece can be empty (leading or trailing whitespace) |
| Text.SplitTrimmedWords | src/cy/kotlin/webgl/objparser.kt:62 | splitting a trimmed, non-empty string on whitespace yields only non-empty tokens |
| Text.Split | src/cy/kotlin/webgl/objparser.kt:72 | `split("/")` yields at least one piece, and no piece contains the separator |
| Text.SplitJoin | src/cy/kotlin/webgl/objparser.kt:72 | splitting on `/` loses nothing: joining the pieces with `/` gives back the tuple |
| Lists.Sum | src/cy/kotlin/webgl/math-vector.kt:37 | `sum()` of a list; stated through `Vectors.DotOfThree`, and `Vectors.ScaledSum` ties it to the fold of `dot(v: Float)` |
| Lists.Flatten | src/cy/kotlin/webgl/math-matrix.kt:53 | `flatMap { it }`; its length and layout are `Lists.FlattenLength` and `Lists.FlattenAt` |
| Lists.MapReals | src/cy/kotlin/webgl/math-vector.kt:21 | `map` keeps the length and applies the function to each element in place |
| Lists.Merge | src/cy/kotlin/webgl/math-vector.kt:25 | `merge` pairs elements up to the shorter length |
| Lists.FlattenLength | src/cy/kotlin/webgl/math-matrix.kt:53 | `flatMap` over rows that are all `width` long gives `rows * width` elements |
| Lists.FlattenAt | src/cy/kotlin/webgl/math-matrix.kt:53 | `flatMap` over rows of one width puts element j of row i at position `i * width + j` |
| Lists.Quotient | src/cy/kotlin/webgl/math-vector.kt:33 | Float division: for a non-zero divisor, quotient × divisor = dividend |
| Vectors.NewVector | src/cy/kotlin/webgl/math-vector.kt:3-7 | a vector is constructed exactly when the value list is non-empty, and holds that list |
| Vectors.EmptyVector | src/cy/kotlin/webgl/math-vector.kt:9 | `emptyVector(n)` is n zeros, and fails the invariant with IllegalArgumentException for n ≤ 0 |
| Vectors.VectorOf | src/cy/kotlin/webgl/math-vector.kt:10 | `vectorOf` holds its arguments in order, and fails with IllegalArgumentException on none |
| Vectors.X | src/cy/kotlin/webgl/math-vector.kt:12-13 | `x` reads component 0 and, by the non-empty invariant, always succeeds |
| Vectors.Y | src/cy/kotlin/webgl/math-vector.kt:15-16 | `y` reads component 1 exactly when there are at least two components, and throws IndexOutOfBoundsException otherwise |
| Vectors.Z | src/cy/kotlin/webgl/math-vector.kt:18-19 | `z` reads component 2 exactly when there are at least three components, and throws IndexOutOfBoundsException otherwise |
| Vectors.Negate | src/cy/kotlin/webgl/math-vector.kt:21-22 | unary minus negates every component and keeps the length |
| Vectors.NegateInvolutive | src/cy/kotlin/webgl/math-vector.kt:21-22 | negating twice gives back the vector |
| Vectors.PlusScalar | src/cy/kotlin/webgl/math-vector.kt:24 | adds the scalar to every component and keeps the length |
| Vectors.Plus | src/cy/kotlin/webgl/math-vector.kt:25 | component-wise sum, as long as the shorter vector |
| Vectors.MinusScalar | src/cy/kotlin/webgl/math-vector.kt:27 | subtracts the scalar from every component and keeps the length |
| Vectors.Minus | src/cy/kotlin/webgl/math-vector.kt:28 | component-wise difference, as long as the shorter vector |
| Vectors.TimesScalar | src/cy/kotlin/webgl/math-vector.kt:30 | scales every component and keeps the length |
| Vectors.Times | src/cy/kotlin/webgl/math-vector.kt:31 | component-wise product, as long as the shorter vector |
| Vectors.DivideScalar | src/cy/kotlin/webgl/math-vector.kt:33 | keeps the length; for a non-zero divisor each component times the divisor is the original |
| Vectors.Divide | src/cy/kotlin/webgl/math-vector.kt:34 | as long as the shorter vector; where the divisor component is non-zero, it undoes multiplication |
| Vectors.DotScalar | src/cy/kotlin/webgl/math-vector.kt:36 | the fold `acc + e * v`; its value is stated by `Vectors.DotScalarIsScaledSum` |
| Vectors.Dot | src/cy/kotlin/webgl/math-vector.kt:37 | the sum of the component-wise product; stated by `Vectors.DotSymmetric` and `Vectors.DotOfThree` |
| Vectors.DotScalarIsScaledSum | src/cy/kotlin/webgl/math-vector.kt:36 | the fold `acc + e * v` equals the component sum times `v` |
| Vectors.ScaledSum | src/cy/kotlin/webgl/math-vector.kt:36 | the scaled left fold of a list equals its sum times the scalar |
| Vectors.DotSymmetric | src/cy/kotlin/webgl/math-vector.kt:37 | `dot` is symmetric |
| Vectors.DotOfThree | src/cy/kotlin/webgl/math-vector.kt:37 | the dot product of two 3-vectors is the sum of the three component products |
| Vectors.Cross | src/cy/kotlin/webgl/math-vector.kt:39-48 | standard cross product for a 3-vector; a 4-vector gives the same three components followed by 1.0; any other length throws UnsupportedOperationException; a second vector shorter than 3 throws IndexOutOfBounds |
| Vectors.CrossAntiCommutative | src/cy/kotlin/webgl/math-vector.kt:39-42 | `v × w = −(w × v)` for 3-vectors |
| Vectors.CrossOrthogonal | src/cy/kotlin/webgl/math-vector.kt:39-42 | the cross product of 3-vectors is orthogonal to both factors |
| Vectors.MinComponent | src/cy/kotlin/webgl/math-vector.kt:52 | `min()` is a component, and no component is smaller |
| Vectors.MaxComponent | src/cy/kotlin/webgl/math-vector.kt:53 | `max()` is a component, and no component is larger |
| Vectors.InterpolateTo | src/cy/kotlin/webgl/math-vector.kt:58 | `(other − this) * f + this` component by component, as long as the shorter vector |
| Vectors.InterpolateEnds | src/cy/kotlin/webgl/math-vector.kt:58 | for equal lengths, fraction 0 gives `this` and fraction 1 gives `other` |
| Matrices.NewMatrix | src/cy/kotlin/webgl/math-matrix.kt:3-8 | construction succeeds exactly when width > 0, height > 0 and there are width × height values |
| Matrices.NewMatrixWithDefaultValues | src/cy/kotlin/webgl/math-matrix.kt:3-8 | with the default 16 zeros, only shapes with width × height = 16 are accepted |
| Matrices.DefaultSquareIsFourByFour | src/cy/kotlin/webgl/math-matrix.kt:3-8 | `Matrix(w)` (height defaults to width) succeeds only for w = 4 |
| Matrices.IdentityMatrix | src/cy/kotlin/webgl/math-matrix.kt:11-20 | 4×4 with 1 at flat positions 0, 5, 10 and 15, and 0 elsewhere |
| Matrices.FrustumMatrix | src/cy/kotlin/webgl/math-matrix.kt:29-46 | 4×4; positions 1, 3, 4, 7, 8, 9, 12, 13 and 15 are 0, position 14 is −1, and the six projection entries are as written |
| Matrices.TranslateMatrix | src/cy/kotlin/webgl/math-matrix.kt:88-103 | 12 values for a 4×4 matrix: always fails with IllegalArgumentException |
| Matrices.MatrixOfRows | src/cy/kotlin/webgl/math-matrix.kt:48-54 | succeeds exactly for a non-empty list of equally long, non-empty rows; width is the row length, height the row count, values the rows concatenated |
| Matrices.MatrixOfRowsLayout | src/cy/kotlin/webgl/math-matrix.kt:48-54 | element j of row i lands at flat position `i * width + j` |
| Matrices.Get | src/cy/kotlin/webgl/math-matrix.kt:59 | reads flat index `row * 4 + col`, and throws outside the array |
| Matrices.ReadRow | src/cy/kotlin/webgl/math-matrix.kt:65 | a row read succeeds exactly when every `get` it makes does, and holds their values |
| Matrices.ReadColumn | src/cy/kotlin/webgl/math-matrix.kt:62 | a column read succeeds exactly when every `get` it makes does, and holds their values |
| Matrices.Row | src/cy/kotlin/webgl/math-matrix.kt:65 | `row(r)` is the width + 1 values from `4r`, and fails when they run past the array |
| Matrices.Column | src/cy/kotlin/webgl/math-matrix.kt:62 | `column(c)` is height + 1 values at stride 4, and fails when they run past the array |
| Matrices.ReadRows | src/cy/kotlin/webgl/math-matrix.kt:68 | reading rows succeeds exactly when each `row` does, holds each row in order, and otherwise throws IndexOutOfBoundsException |
| Matrices.ReadColumns | src/cy/kotlin/webgl/math-matrix.kt:71 | reading columns succeeds exactly when each `column` does, holds each column in order, and otherwise throws IndexOutOfBoundsException |
| Matrices.Rows | src/cy/kotlin/webgl/math-matrix.kt:68 | `rows()` succeeds exactly when `height * 4 + width` is inside the array (the last row's end), and then holds `row(i)` for i in `0..height`, each width + 1 long; otherwise IndexOutOfBoundsException |
| Matrices.Columns | src/cy/kotlin/webgl/math-matrix.kt:71 | `columns()` succeeds exactly when `height * 4 + width` is inside the array (the last column's end), and then holds `column(i)` for i in `0..width`, each height + 1 long; otherwise IndexOutOfBoundsException |
| Matrices.TimesScalar | src/cy/kotlin/webgl/math-matrix.kt:73 | keeps width and height and scales every element |
| Matrices.Products | src/cy/kotlin/webgl/math-matrix.kt:78-82 | one product per (row, column) pair |
| Matrices.RowProducts | src/cy/kotlin/webgl/math-matrix.kt:79-81 | one product per column |
| Matrices.Times | src/cy/kotlin/webgl/math-matrix.kt:74-84 | `width != other.height` throws IllegalArgumentException |
| Matrices.TimesNeverSucceeds | src/cy/kotlin/webgl/math-matrix.kt:74-84 | with the inclusive ranges, the product never passes the construction check |
| Matrices.Transpose | src/cy/kotlin/webgl/math-matrix.kt:86 | `transpose()` succeeds exactly when `columns()` does (`height * 4 + width` inside the array), and is then (height + 1) wide and (width + 1) high; otherwise IndexOutOfBoundsException |
| Matrices.TransposeLayout | src/cy/kotlin/webgl/math-matrix.kt:86 | row c, column k of the transpose is `get(k, c)`, flat index `k * 4 + c`, of the original |
| Matrices.NarrowTransposeFails | src/cy/kotlin/webgl/math-matrix.kt:86 | a matrix of width ≤ 4 cannot be transposed: a column read runs past the array |
| Matrices.ReadColumnsFailure | src/cy/kotlin/webgl/math-matrix.kt:71 | once a column read fails, reading more columns fails too |
| Matrices.TransposeNotInvolutive | src/cy/kotlin/webgl/math-matrix.kt:86 | a double transpose, when there is one, is two wider and two higher than the original, so never equal to it |
| Matrices.MatrixOfColumns | src/cy/kotlin/webgl/math-matrix.kt:56 | `matrixOfColumns(lists)` succeeds exactly when the lists pass `matrixOfRows` and `lists * 4 + length < lists * length`; it throws IllegalArgumentException for bad lists and IndexOutOfBoundsException for the transpose; the result is (lists + 1) wide and (length + 1) high, so lists of at most 4 values always fail |
| Matrices.MatrixOfColumnsLayout | src/cy/kotlin/webgl/math-matrix.kt:56 | row c, column k of the result is element `k * 4 + c` of the lists concatenated |
| Matrices.RowsOfWidthFour | src/cy/kotlin/webgl/math-matrix.kt:59-68 | on a width-4 matrix, `row(r)` is five values from `4r`, the last row fails, and so does `rows()` |
| ObjParser.IsSkipped | src/cy/kotlin/webgl/objparser.kt:31 | the filter of `parse`; its effect is stated by `ObjParser.ProcessLine` and `ObjParser.IgnoredLinesChangeNothing` |
| ObjParser.SplitLine | src/cy/kotlin/webgl/objparser.kt:33-34 | directive and argument of a kept line; stated by `ObjParser.SplitLineParts` |
| ObjParser.SplitLineParts | src/cy/kotlin/webgl/objparser.kt:33-34 | the directive is a non-empty run without whitespace that starts the trimmed line and is followed by whitespace or the end; the argument is the rest of the trimmed line, trimmed |
| ObjParser.ParseVector | src/cy/kotlin/webgl/objparser.kt:61-65 | one component per token (an unparsable token becomes the default), padded with the default to at least 3 |
| ObjParser.SubIndices | src/cy/kotlin/webgl/objparser.kt:72 | each `/`-separated sub-token is null when empty, else its parsed value minus 1 |
| ObjParser.SlotColumn | src/cy/kotlin/webgl/objparser.kt:72-76 | `faceParts.getOrNull(k)` for every tuple, in order |
| ObjParser.AddIfNotNull | src/cy/kotlin/webgl/objparser.kt:81 | appends a non-null value at the end, and leaves the list unchanged for null |
| ObjParser.FaceOf | src/cy/kotlin/webgl/objparser.kt:67-79 | what `parseFace` returns; stated by `ObjParser.FaceIndexCounts`, `ObjParser.CompleteTuplesAlign` and, for order, `Outcomes.SomesOrder` |
| ObjParser.ParseFace | src/cy/kotlin/webgl/objparser.kt:67-79 | the loop fills the three index lists exactly as `FaceOf` describes |
| ObjParser.ColumnGrows | src/cy/kotlin/webgl/objparser.kt:73-75 | one more tuple adds its sub-index to the list through `addIfNotNull` |
| ObjParser.FaceIndexCounts | src/cy/kotlin/webgl/objparser.kt:72-78 | vertex, uv and normal lists have one entry per tuple with that sub-token, so uvs and normals can be shorter |
| ObjParser.FaceListsCompacted | src/cy/kotlin/webgl/objparser.kt:72-78 | each of the vertex, uv and normal lists is its sub-token column with the missing entries dropped: entries come from strictly increasing tuple positions, and every tuple with the sub-token contributes |
| ObjParser.CompleteTuplesAlign | src/cy/kotlin/webgl/objparser.kt:72-78 | when every tuple has all three sub-tokens, the three lists line up with the tuples |
| ObjParser.AfterStartGroup | src/cy/kotlin/webgl/objparser.kt:97-105 | stores the collected faces under the current name only if there are any (replacing that name), then switches name and empties the list; other stored groups and all attribute lists are kept |
| ObjParser.ApplyEffect | src/cy/kotlin/webgl/objparser.kt:36-45 | `v`/`vn`/`vt`/`vp` append one parsed vector to their own list (missing or unparsable components are 0, or 1 for `vp`), `f` appends one face, only `g` touches the groups, and `mtllib` or an unknown directive changes nothing |
| ObjParser.Step | src/cy/kotlin/webgl/objparser.kt:30-45 | one line of the fold; stated by `ObjParser.ApplyEffect` and `ObjParser.IgnoredLinesChangeNothing` |
| ObjParser.Run | src/cy/kotlin/webgl/objparser.kt:30-46 | the fold over the lines; stated by `ObjParserProperties.RunConcat` and the other `ObjParserProperties` lemmas |
| ObjParser.Finish | src/cy/kotlin/webgl/objparser.kt:48-58 | the flush of the last group and the packing; stated by `ObjParserProperties.RootIsEmptyNameGroup` and `ObjParserProperties.UngroupedFileIsRoot` |
| ObjParser.ParseLines | src/cy/kotlin/webgl/objparser.kt:27-58 | `parse` as a function of the lines; stated by `ObjParser.Parse` and the `ObjParserProperties` lemmas |
| ObjParser.IgnoredLinesChangeNothing | src/cy/kotlin/webgl/objparser.kt:31-44 | blank lines, comments, `mtllib` and unknown directives leave the state unchanged |
| ObjParser.ParserState.constructor | src/cy/kotlin/webgl/objparser.kt:84-95 | a fresh state is empty, with group name "" |
| ObjParser.ParserState.StartGroup | src/cy/kotlin/webgl/objparser.kt:97-105 | the new state is `AfterStartGroup` of the old one |
| ObjParser.ProcessLine | src/cy/kotlin/webgl/objparser.kt:31-45 | a filtered-out line leaves the state alone; any other line is dispatched on its directive, so the state becomes `Step` of the old one |
| ObjParser.Dispatch | src/cy/kotlin/webgl/objparser.kt:36-45 | the `when` takes the state to `Apply` of the directive's kind: each branch changes only the field that `ApplyEffect` names |
| ObjParser.Parse | src/cy/kotlin/webgl/objparser.kt:27-59 | `parse` returns `ParseLines`: the fold of all lines, with the last group flushed and `root` the group named "" |
| ObjParserProperties.RunConcat | src/cy/kotlin/webgl/objparser.kt:30-46 | reading a file in two pieces, one after the other, is reading it whole |
| ObjParserProperties.OnlyEffectiveLinesMatter | src/cy/kotlin/webgl/objparser.kt:30-46 | removing blank lines, comments, `mtllib` and unknown directives does not change the result |
| ObjParserProperties.AttributeListsFollowLines | src/cy/kotlin/webgl/objparser.kt:39-42 | each attribute list is the parsed vectors of its lines, in line order, `vp` padded with 1.0 |
| ObjParserProperties.ParsedAttributes | src/cy/kotlin/webgl/objparser.kt:39-42 | the model's vertices, normals, uvs and params are exactly the vectors of the `v`, `vn`, `vt` and `vp` lines, in order |
| ObjParserProperties.MaterialsUnchanged | src/cy/kotlin/webgl/objparser.kt:37 | no line changes the material map |
| ObjParserProperties.MaterialsAlwaysEmpty | src/cy/kotlin/webgl/objparser.kt:27-51 | the parsed model's materials are always empty, whatever `allMaterials` holds |
| ObjParserProperties.StepKeepsGroupsWellFormed | src/cy/kotlin/webgl/objparser.kt:97-101 | one line keeps every stored group keyed by its own name and non-empty |
| ObjParserProperties.StoredGroupsWellFormed | src/cy/kotlin/webgl/objparser.kt:97-101 | every stored group is keyed by its own name and has at least one face |
| ObjParserProperties.RootIsEmptyNameGroup | src/cy/kotlin/webgl/objparser.kt:48-52 | `root` is present exactly when a group named "" is stored, is that group, and is non-empty |
| ObjParserProperties.FacesCollectInCurrentGroup | src/cy/kotlin/webgl/objparser.kt:43 | lines without `g` append their faces, in order, to the group being collected and keep the name and the stored groups |
| ObjParserProperties.UngroupedFileIsRoot | src/cy/kotlin/webgl/objparser.kt:48-53 | without `g` lines, all faces form the single root group "", and there is no group when there are no faces |
| ObjParserProperties.LastGroupHoldsFollowingFaces | src/cy/kotlin/webgl/objparser.kt:38-48 | the last `g` group holds exactly the faces of the lines after it, replacing an earlier group of that name |
| Models.GetVBO | src/cy/kotlin/webgl/models.kt:72-73 | throws unless both the vertex and the normal index are in range; the uv is present exactly when its index is in range |
| Models.FaceVBO | src/cy/kotlin/webgl/models.kt:70 | succeeds exactly when the slot has in-range vertex and normal indices (too few normal indices throws); the triple is the indexed vectors |
| Models.MissingUvUsesFirst | src/cy/kotlin/webgl/models.kt:70 | a slot at or past the end of the face's compacted uv list gets the model's first uv, or none when the model has no uvs |
| Models.UvIndexOfTuple | src/cy/kotlin/webgl/models.kt:70 | for a parsed face, uv index `i` is the uv sub-index of the `i`-th tuple that has one, which is tuple `i` or a later tuple |
| Models.UvShiftExample | src/cy/kotlin/webgl/models.kt:70 | for `f 1//1 2/5/2`, the parsed face is vertices [0, 1], normals [0, 1], uvs [4]; slot 0 reads uv index 4 and slot 1 falls back to 0 |
| Models.UvAbsentOnlyOutsideList | src/cy/kotlin/webgl/models.kt:70-73 | the uv is absent exactly when the (possibly defaulted) uv index is outside the uv list |
| Models.SlotVBOs | src/cy/kotlin/webgl/models.kt:71 | `getVBOs` succeeds exactly when every slot resolves, and holds one triple per slot, in order |
| Models.GetVBOs | src/cy/kotlin/webgl/models.kt:71 | `getVBOs(face)` succeeds exactly when every slot resolves, and then holds the triple of each slot in slot order; otherwise IndexOutOfBoundsException |
| Models.SlotsOfFaces | src/cy/kotlin/webgl/models.kt:24 | collecting the group's triples succeeds exactly when every slot of every face resolves, holds one triple per slot, and otherwise throws IndexOutOfBoundsException |
| Models.SlotsOfFacesAt | src/cy/kotlin/webgl/models.kt:24 | slot i of face k is at position (slots of the faces before k) + i: face after face, slot by slot |
| Models.SlotInSlotsOfFaces | src/cy/kotlin/webgl/models.kt:24 | every slot's triple is collected |
| Models.SlotsOfFacesFromSlots | src/cy/kotlin/webgl/models.kt:24 | every collected triple is some slot's triple |
| Models.Distinct | src/cy/kotlin/webgl/models.kt:24 | `toSet().toList()` has no duplicates and the same elements |
| Models.DistinctFirstOccurrenceOrder | src/cy/kotlin/webgl/models.kt:24 | the distinct elements come in first-occurrence order |
| Models.IndexMap | src/cy/kotlin/webgl/models.kt:25 | the map's keys are the list's elements, and each key maps to a position holding it |
| Models.IndexMapPositions | src/cy/kotlin/webgl/models.kt:25 | on a list without duplicates each element maps to its own position |
| Models.VertexVectors | src/cy/kotlin/webgl/models.kt:27 | the vertex of each triple, in list order |
| Models.NormalVectors | src/cy/kotlin/webgl/models.kt:28 | the normal of each triple, in list order |
| Models.PresentUvs | src/cy/kotlin/webgl/models.kt:29 | the present uvs only, so no more of them than triples; a vector is in it exactly when some triple has it as uv |
| Models.PresentUvsInOrder | src/cy/kotlin/webgl/models.kt:29 | one uv per triple that has one, taken from the triples in order |
| Models.ComponentLayout | src/cy/kotlin/webgl/models.kt:27-28 | vectors of one length n are laid out back to back: component j of vector k is at `k * n + j` |
| Models.UvBufferSkipsAbsent | src/cy/kotlin/webgl/models.kt:29 | one triple without a uv makes the uv list shorter than the triple list |
| Models.TypeOf | src/cy/kotlin/webgl/models.kt:32-36 | size 3 is TRIANGLE, size 4 is QUAD, every other size (including below 3) is POLY |
| Models.GroupBy | src/cy/kotlin/webgl/models.kt:31-36 | `groupBy` on the arity type; stated by `Models.GroupByBuckets` |
| Models.GroupByBuckets | src/cy/kotlin/webgl/models.kt:31-36 | a bucket exists exactly for the types that occur, and holds that type's faces in original order |
| Models.BucketSizes | src/cy/kotlin/webgl/models.kt:31-36 | every face lands in exactly one bucket |
| Models.FacesOfTypeHaveType | src/cy/kotlin/webgl/models.kt:31-36 | a bucket holds only faces of its type, taken from the group |
| Models.LookUpAll | src/cy/kotlin/webgl/models.kt:39 | `vboIndexesMap[it]!!` succeeds exactly when every triple has a number, and throws a NullPointerException otherwise |
| Models.BufferOf | src/cy/kotlin/webgl/models.kt:39-40 | a face's index list succeeds exactly when every slot resolves and every triple has a number; it then holds `face.size()` numbers, the number of each slot's triple in slot order; otherwise IndexOutOfBoundsException or NullPointerException |
| Models.BuffersOf | src/cy/kotlin/webgl/models.kt:37-41 | succeeds exactly when every face of the bucket gets its index list, and then holds one buffer per face, in order |
| Models.BufferBuckets | src/cy/kotlin/webgl/models.kt:37-42 | `mapValues` keeps exactly the existing buckets |
| Models.Build | src/cy/kotlin/webgl/models.kt:23-42 | the constructor succeeds exactly when every slot of every face resolves, and throws IndexOutOfBoundsException otherwise |
| Models.EveryFaceHasBuffer | src/cy/kotlin/webgl/models.kt:38-40 | once the triples are collected, every face of the group gets its index list |
| Models.BucketsResolve | src/cy/kotlin/webgl/models.kt:37-41 | once the triples are collected, building the index buffers cannot fail |
| Models.IndexListOf | src/cy/kotlin/webgl/models.kt:39-40 | a face's index list has `face.size()` entries, and entry i looks back up to the triple of slot i, so `!!` never throws |
| Models.AllVBOsProperties | src/cy/kotlin/webgl/models.kt:24-25 | the distinct list holds every slot's triple exactly once and nothing else, and `allVBOs[map[t]] == t` |
| Models.AllVBOsFirstSeenOrder | src/cy/kotlin/webgl/models.kt:24 | the distinct list has the collected triples' elements, and an earlier entry was first met at an earlier slot, reading the slots face after face |
| Models.TriplesFromModel | src/cy/kotlin/webgl/models.kt:24 | every distinct triple is made of the model's own vectors |
| Models.BuffersOfBuild | src/cy/kotlin/webgl/models.kt:27-29 | the buffers are the flattened vertices, normals and present uvs of the distinct triples, in list order |
| Models.UvBufferShorter | src/cy/kotlin/webgl/models.kt:29 | when all uvs have one length n and some distinct triple has no uv, the uv buffer is shorter than triples × n, so it no longer lines up with the other buffers |
| Models.ShortUvData | src/cy/kotlin/webgl/models.kt:29 | flattening the present uvs of triples, one of which has none, gives fewer than triples × n values |
| Models.BucketsOfBuild | src/cy/kotlin/webgl/models.kt:31-42 | the built model's buckets are the index buffers of each type's faces, in order, and only for types that occur |
| Models.Draws | src/cy/kotlin/webgl/models.kt:45-64 | one draw call per buffer, in order, with count equal to the buffer's size |
| Models.Render | src/cy/kotlin/webgl/models.kt:44-65 | the draw calls of `render`; stated by `Models.RenderOrder` |
| Models.RenderOrder | src/cy/kotlin/webgl/models.kt:44-65 | `render` draws the triangles with TRIANGLES, then the quads and then the polygons with TRIANGLE_FAN; each bucket is drawn in group order, one call per face with its whole index list, and every face is drawn once |
| Models.SameDraws | src/cy/kotlin/webgl/models.kt:45-64 | drawing a bucket's buffers with its mode issues each face's own draw call, in order |
| Models.BucketDraws | src/cy/kotlin/webgl/models.kt:44-65 | the draw calls of one bucket are those of that type's faces |

## Left out

- Float arithmetic. Elements are exact reals: Float rounding, NaN, −0.0,
  infinities and the Double-to-Float conversion of `parseVector` are not
  modelled.
- Vectors.DivideScalar, Vectors.Divide: division by zero gives an infinity
  or NaN in the source. The model uses a stand-in value and claims nothing
  about it.
- Matrices.FrustumMatrix: division by zero in the six projection entries
  is likewise left unconstrained.
- Out-of-range reads. The model gives the Kotlin semantics, an
  IndexOutOfBounds failure. It does not give the `undefined` that an
  out-of-range JavaScript array read would produce on the browser target.
- Matrices.Times: only the dimension check is stated. The success value is
  never reached (`TimesNeverSucceeds`).
- `length`, `normalize` and `perspectiveMatrix` are not modelled. They need
  `Math.sqrt` and `Math.tan`.
- `toList` and `toArray` on vectors are not modelled. They only change the
  container type.
- `safeParseDouble` and `parseInt` are left as parameters. Their definitions
  are not part of this model.
- The `println` for an unknown directive is not modelled. It is output only.
- Whitespace is the JavaScript `\s` class. That is what `trim`, `isBlank` and
  the `\s` regular expressions use on the browser target.
- Models.BufferBuckets: when a bucket's buffers cannot be built, the model
  does not follow the order in which `mapValues` visits the buckets. This
  case cannot arise after the triples are collected (`BucketsResolve`).
- WebGL calls are not modelled: buffer creation (`toArrayObject`,
  `createShortArrayObject`, the typed-array helpers `toUint32`, `toUint16`
  and `toFloat32`) and `bindBuffer`/`drawElements`. Buffers are plain
  sequences, and a draw call is a value. The truncation of indices to 16 bits
  is not modelled.
- `modelFromElement` is not modelled. It is a DOM lookup.
- shaders.kt, main.kt, cubemaps.kt, camera.kt, arrays.kt and vertexarrays.kt
  are not part of this model. They are GL, DOM and animation-loop plumbing.
