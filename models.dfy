/** The model builder and renderer of models.kt.

    `Model(gl, objModel, group)` resolves every slot of every face of the
    group to a `VBO` triple, keeps each distinct triple once, numbers the
    distinct triples, flattens their components into the vertex, normal
    and texture-coordinate buffers, and turns each face into an index list
    against the numbering, bucketed by the face's arity. The constructor
    is the function `Build`; GL buffers are plain sequences, and `render`
    is the list of draw calls it issues. */
module Models {
  import opened Outcomes
  import opened Lists
  import opened Vectors
  import opened ObjParser
  import opened Text

  datatype FaceType = TRIANGLE | QUAD | POLY

  /** One vertex of the GPU mesh: a position, a normal and an optional
      texture coordinate. Equality is structural, as for the data class. */
  datatype VBO = VBO(vertex: Vector, normal: Vector, uv: Option<Vector>)

  /** `BufferWithSize`: a face's index list and its length. */
  datatype BufferWithSize = BufferWithSize(indices: seq<int>, size: int)

  /** The GL primitive a draw call uses. */
  datatype DrawMode = TRIANGLES | TRIANGLE_FAN

  /** `gl.bindBuffer(ELEMENT_ARRAY_BUFFER, buffer)` followed by
      `gl.drawElements(mode, count, UNSIGNED_SHORT, 0)`. */
  datatype DrawCommand = DrawCommand(mode: DrawMode, indices: seq<int>, count: int)

  /** What `Model` keeps. */
  datatype BuiltModel = BuiltModel(
    group: ObjGroup,
    allVBOs: seq<VBO>,
    indexOf: map<VBO, int>,
    vertexData: seq<real>,
    normalData: seq<real>,
    uvData: seq<real>,
    faces: map<FaceType, seq<BufferWithSize>>)

  // ---------------------------------------------------------------------
  // Resolving slots

  /** `getVBO`: `vertices.get` and `normals.get` throw outside their lists;
      the uv is null outside the uv list. */
  function GetVBO(model: ObjModel, vertexIndex: int, normalIndex: int, uvIndex: int): (r: Result<VBO>)
    ensures r.Success? <==> 0 <= vertexIndex < |model.vertices| && 0 <= normalIndex < |model.normals|
    ensures r.Failure? ==> r.error == IndexOutOfBounds
    ensures r.Success? ==> r.value.vertex == model.vertices[vertexIndex] && r.value.normal == model.normals[normalIndex]
    ensures r.Success? ==> (r.value.uv.Some? <==> 0 <= uvIndex < |model.uvs|)
    ensures r.Success? && r.value.uv.Some? ==> r.value.uv.value == model.uvs[uvIndex]
  {
    if !(0 <= vertexIndex < |model.vertices|) || !(0 <= normalIndex < |model.normals|) then Failure(IndexOutOfBounds)
    else Success(VBO(model.vertices[vertexIndex], model.normals[normalIndex], GetOrNull(model.uvs, uvIndex)))
  }

  /** The uv index `faceVBO` uses for slot `i`: the face's own, or 0 when
      the face has none there. */
  function UvIndex(face: Face, i: int): int {
    GetOrNull(face.uvs, i).GetOr(0)
  }

  /** Slot `i` of the face can be resolved: the face has a vertex and a
      normal index there and both are inside the model's lists. */
  predicate SlotResolves(model: ObjModel, face: Face, i: int) {
    && 0 <= i < |face.vertices| && i < |face.normals|
    && 0 <= face.vertices[i] < |model.vertices| && 0 <= face.normals[i] < |model.normals|
  }

  /** `faceVBO(face, i)`: the triple at slot `i`. Reading `face.vertices[i]`
      or `face.normals[i]` past the end throws, so does an index outside
      the model's lists. */
  function FaceVBO(model: ObjModel, face: Face, i: int): (r: Result<VBO>)
    ensures r.Success? <==> SlotResolves(model, face, i)
    ensures r.Failure? ==> r.error == IndexOutOfBounds
    ensures r.Success? ==>
              && r.value.vertex == model.vertices[face.vertices[i]]
              && r.value.normal == model.normals[face.normals[i]]
              && r.value.uv == GetOrNull(model.uvs, UvIndex(face, i))
  {
    if !(0 <= i < |face.vertices|) || !(0 <= i < |face.normals|) then Failure(IndexOutOfBounds)
    else GetVBO(model, face.vertices[i], face.normals[i], UvIndex(face, i))
  }

  /** A slot at or past the end of the face's uv list falls back to uv
      index 0: its uv is the model's first one whenever the model has any,
      and absent otherwise. The uv list is compacted, so this is not the
      same as the slot's own tuple lacking a uv (see `UvIndexOfTuple`). */
  lemma MissingUvUsesFirst(model: ObjModel, face: Face, i: int)
    requires SlotResolves(model, face, i) && i >= |face.uvs|
    ensures FaceVBO(model, face, i).value.uv == (if model.uvs == [] then None else Some(model.uvs[0]))
  {
  }

  /** Uv index `i` of a parsed face is the uv of the `i`-th tuple that has
      one, which is tuple `i` or a later tuple. */
  lemma UvIndexOfTuple(argument: string, parseInt: string -> int, at: seq<int>, i: int)
    requires Enumerates(at, SlotColumn(SplitWhitespace(argument), 1, parseInt), FaceOf(argument, parseInt).uvs)
    requires 0 <= i < |at|
    ensures i <= at[i] < |SplitWhitespace(argument)|
    ensures UvIndex(FaceOf(argument, parseInt), i) == Slot(SplitWhitespace(argument)[at[i]], 1, parseInt).value
  {
    EnumeratesForward(at, SlotColumn(SplitWhitespace(argument), 1, parseInt), FaceOf(argument, parseInt).uvs, i);
  }

  /** In `f 1//1 2/5/2` the first tuple has no uv: slot 0 reads uv index 4,
      which the second tuple names, and slot 1 falls back to index 0. */
  lemma UvShiftExample(parseInt: string -> int)
    requires parseInt("1") == 1 && parseInt("2") == 2 && parseInt("5") == 5
    ensures FaceOf("1//1 2/5/2", parseInt) == Face([0, 1], [0, 1], [4])
    ensures UvIndex(FaceOf("1//1 2/5/2", parseInt), 0) == 4
    ensures UvIndex(FaceOf("1//1 2/5/2", parseInt), 1) == 0
  {
    ExampleTuples();
    ExampleColumns(parseInt);
    var tuples := ["1//1", "2/5/2"];
    ExampleSomes(SlotColumn(tuples, 0, parseInt), 0, 1);
    ExampleSomes(SlotColumn(tuples, 2, parseInt), 0, 1);
    ExampleSomesGap(SlotColumn(tuples, 1, parseInt), 4);
  }

  lemma ExampleSomesGap(c: seq<Option<int>>, y: int)
    requires c == [None, Some(y)]
    ensures Somes(c) == [y]
  {
    assert c[..1] == [None];
    assert c[..1][..0] == [];
  }

  lemma ExampleColumns(parseInt: string -> int)
    requires parseInt("1") == 1 && parseInt("2") == 2 && parseInt("5") == 5
    ensures SlotColumn(["1//1", "2/5/2"], 0, parseInt) == [Some(0), Some(1)]
    ensures SlotColumn(["1//1", "2/5/2"], 1, parseInt) == [None, Some(4)]
    ensures SlotColumn(["1//1", "2/5/2"], 2, parseInt) == [Some(0), Some(1)]
  {
    ExampleSubIndices(parseInt);
    var tuples := ["1//1", "2/5/2"];
    assert tuples[0] == "1//1" && tuples[1] == "2/5/2";
  }

  lemma ExampleSubIndices(parseInt: string -> int)
    requires parseInt("1") == 1 && parseInt("2") == 2 && parseInt("5") == 5
    ensures SubIndices("1//1", parseInt) == [Some(0), None, Some(0)]
    ensures SubIndices("2/5/2", parseInt) == [Some(1), Some(4), Some(1)]
  {
    ExampleSubTokens();
  }

  lemma ExampleSomes(c: seq<Option<int>>, x: int, y: int)
    requires c == [Some(x), Some(y)]
    ensures Somes(c) == [x, y]
  {
    assert c[..1] == [Some(x)];
    assert [Some(x)][..0] == [];
  }

  lemma ExampleTuples()
    ensures SplitWhitespace("1//1 2/5/2") == ["1//1", "2/5/2"]
  {
    var s := "1//1 2/5/2";
    ExampleFirstWord();
    ExampleLastWord();
    assert s[4..] == " 2/5/2" && s[..4] == "1//1";
    assert LeadingWhitespace(" 2/5/2") == 1 by {
      assert " 2/5/2"[1..] == "2/5/2";
    }
    assert s[5..] == "2/5/2";
    assert SplitWhitespace("2/5/2") == ["2/5/2"];
  }

  lemma ExampleFirstWord()
    ensures LeadingWord("1//1 2/5/2") == 4
  {
    assert LeadingWord(" 2/5/2") == 0;
    assert "1 2/5/2"[1..] == " 2/5/2";
    assert "/1 2/5/2"[1..] == "1 2/5/2";
    assert "//1 2/5/2"[1..] == "/1 2/5/2";
    assert "1//1 2/5/2"[1..] == "//1 2/5/2";
  }

  lemma ExampleLastWord()
    ensures LeadingWord("2/5/2") == 5
  {
    assert LeadingWord("") == 0;
    assert "2"[1..] == "";
    assert "/2"[1..] == "2";
    assert "5/2"[1..] == "/2";
    assert "/5/2"[1..] == "5/2";
    assert "2/5/2"[1..] == "/5/2";
  }

  lemma ExampleSubTokens()
    ensures Split("1//1", '/') == ["1", "", "1"]
    ensures Split("2/5/2", '/') == ["2", "5", "2"]
  {
    assert Split("", '/') == [""];
    assert "1"[1..] == "" && "2"[1..] == "";
    assert ['1'] + "" == "1" && ['2'] + "" == "2";
    assert Split("1", '/') == ["1"];
    assert Split("2", '/') == ["2"];
    assert "/1"[1..] == "1" && "//1"[1..] == "/1" && "1//1"[1..] == "//1";
    assert "/2"[1..] == "2" && "5/2"[1..] == "/2" && "/5/2"[1..] == "5/2" && "2/5/2"[1..] == "/5/2";
    assert ['5'] + "" == "5";
  }

  /** The uv of a resolved slot is absent exactly when its uv index (the
      face's own or the fallback 0) is outside the model's uv list. */
  lemma UvAbsentOnlyOutsideList(model: ObjModel, face: Face, i: int)
    requires SlotResolves(model, face, i)
    ensures FaceVBO(model, face, i).value.uv.None? <==> !(0 <= UvIndex(face, i) < |model.uvs|)
    ensures model.uvs != [] && i >= |face.uvs| ==> FaceVBO(model, face, i).value.uv.Some?
  {
  }

  /** The first `n` slots of the face resolved in order; the first slot
      that cannot be resolved throws. */
  function SlotVBOs(model: ObjModel, face: Face, n: nat): (r: Result<seq<VBO>>)
    requires n <= face.Size()
    ensures r.Success? <==> forall i :: 0 <= i < n ==> SlotResolves(model, face, i)
    ensures r.Failure? ==> r.error == IndexOutOfBounds
    ensures r.Success? ==> |r.value| == n && forall i :: 0 <= i < n ==> r.value[i] == FaceVBO(model, face, i).value
  {
    if n == 0 then Success([])
    else
      match SlotVBOs(model, face, n - 1)
      case Failure(e) => Failure(e)
      case Success(init) =>
        match FaceVBO(model, face, n - 1)
        case Failure(e) => Failure(e)
        case Success(last) => Success(init + [last])
  }

  /** `getVBOs(face)`: the triples of all slots of the face. */
  function GetVBOs(model: ObjModel, face: Face): (r: Result<seq<VBO>>)
    ensures r.Success? <==> forall i :: 0 <= i < face.Size() ==> SlotResolves(model, face, i)
    ensures r.Failure? ==> r.error == IndexOutOfBounds
    ensures r.Success? ==> |r.value| == face.Size()
    ensures r.Success? ==> forall i :: 0 <= i < face.Size() ==> r.value[i] == FaceVBO(model, face, i).value
  {
    SlotVBOs(model, face, face.Size())
  }

  predicate FaceResolves(model: ObjModel, face: Face) {
    forall i :: 0 <= i < face.Size() ==> SlotResolves(model, face, i)
  }

  /** `group.faces.flatMap { getVBOs(it) }`: the triples of every slot of
      every face, face after face. */
  function SlotsOfFaces(model: ObjModel, faces: seq<Face>): (r: Result<seq<VBO>>)
    ensures r.Success? <==> forall k :: 0 <= k < |faces| ==> FaceResolves(model, faces[k])
    ensures r.Failure? ==> r.error == IndexOutOfBounds
    ensures r.Success? ==> |r.value| == SlotCount(faces)
  {
    if faces == [] then Success([])
    else
      match SlotsOfFaces(model, faces[..|faces| - 1])
      case Failure(e) => Failure(e)
      case Success(init) =>
        match GetVBOs(model, faces[|faces| - 1])
        case Failure(e) => Failure(e)
        case Success(last) => Success(init + last)
  }

  /** The number of slots of the faces together. */
  function SlotCount(faces: seq<Face>): nat {
    if faces == [] then 0 else SlotCount(faces[..|faces| - 1]) + faces[|faces| - 1].Size()
  }

  /** Slot i of face k is collected at position `SlotCount(faces[..k]) + i`:
      the faces' triples come face after face, each face's in slot order.
      With the length `SlotCount(faces)` this fixes the whole list. */
  lemma SlotsOfFacesAt(model: ObjModel, faces: seq<Face>, k: int, i: int)
    requires SlotsOfFaces(model, faces).Success?
    requires 0 <= k < |faces| && 0 <= i < faces[k].Size()
    ensures SlotCount(faces[..k]) + i < |SlotsOfFaces(model, faces).value|
    ensures SlotsOfFaces(model, faces).value[SlotCount(faces[..k]) + i] == FaceVBO(model, faces[k], i).value
  {
    var upTo := faces[..k + 1];
    SlotsOfFacesPrefix(model, faces, k + 1);
    assert upTo[..k] == faces[..k] && upTo[k] == faces[k];
    LastFaceAt(model, upTo, i);
  }

  /** The last face's slots come last, in slot order. */
  lemma LastFaceAt(model: ObjModel, faces: seq<Face>, i: int)
    requires SlotsOfFaces(model, faces).Success? && faces != []
    requires 0 <= i < faces[|faces| - 1].Size()
    ensures SlotCount(faces[..|faces| - 1]) + i < |SlotsOfFaces(model, faces).value|
    ensures SlotsOfFaces(model, faces).value[SlotCount(faces[..|faces| - 1]) + i]
            == FaceVBO(model, faces[|faces| - 1], i).value
  {
    var before, last := SlotsOfFacesSnoc(model, faces);
  }

  /** The triples of the first m faces are a prefix of those of all faces. */
  lemma {:induction false} SlotsOfFacesPrefix(model: ObjModel, faces: seq<Face>, m: int)
    requires SlotsOfFaces(model, faces).Success? && 0 <= m <= |faces|
    ensures SlotsOfFaces(model, faces[..m]).Success?
    ensures SlotsOfFaces(model, faces[..m]).value <= SlotsOfFaces(model, faces).value
    decreases |faces| - m
  {
    if m == |faces| {
      assert faces[..m] == faces;
    } else {
      var init := faces[..|faces| - 1];
      var before, last := SlotsOfFacesSnoc(model, faces);
      SlotsOfFacesPrefix(model, init, m);
      assert init[..m] == faces[..m];
    }
  }

  /** The last face's triples come after those of the faces before it. */
  lemma SlotsOfFacesSnoc(model: ObjModel, faces: seq<Face>) returns (before: seq<VBO>, last: seq<VBO>)
    requires SlotsOfFaces(model, faces).Success? && faces != []
    ensures SlotsOfFaces(model, faces[..|faces| - 1]) == Success(before)
    ensures GetVBOs(model, faces[|faces| - 1]) == Success(last)
    ensures SlotsOfFaces(model, faces).value == before + last
  {
    before := SlotsOfFaces(model, faces[..|faces| - 1]).value;
    last := GetVBOs(model, faces[|faces| - 1]).value;
  }

  /** Every slot's triple is among the collected triples. */
  lemma {:induction false} SlotInSlotsOfFaces(model: ObjModel, faces: seq<Face>, k: int, i: int)
    requires SlotsOfFaces(model, faces).Success?
    requires 0 <= k < |faces| && 0 <= i < faces[k].Size()
    ensures FaceVBO(model, faces[k], i).Success?
    ensures FaceVBO(model, faces[k], i).value in SlotsOfFaces(model, faces).value
  {
    var init := faces[..|faces| - 1];
    var all := SlotsOfFaces(model, faces).value;
    var last := GetVBOs(model, faces[|faces| - 1]).value;
    assert all == SlotsOfFaces(model, init).value + last;
    if k < |faces| - 1 {
      assert faces[k] == init[k];
      SlotInSlotsOfFaces(model, init, k, i);
    } else {
      assert last[i] == FaceVBO(model, faces[k], i).value;
    }
  }

  /** Every collected triple is the triple of some slot. */
  lemma {:induction false} SlotsOfFacesFromSlots(model: ObjModel, faces: seq<Face>, x: VBO)
    requires SlotsOfFaces(model, faces).Success? && x in SlotsOfFaces(model, faces).value
    ensures exists k, i :: 0 <= k < |faces| && 0 <= i < faces[k].Size() && FaceVBO(model, faces[k], i) == Success(x)
  {
    var init := faces[..|faces| - 1];
    var last := GetVBOs(model, faces[|faces| - 1]).value;
    assert SlotsOfFaces(model, faces).value == SlotsOfFaces(model, init).value + last;
    if x in SlotsOfFaces(model, init).value {
      SlotsOfFacesFromSlots(model, init, x);
      var k, i :| 0 <= k < |init| && 0 <= i < init[k].Size() && FaceVBO(model, init[k], i) == Success(x);
      assert faces[k] == init[k];
    } else {
      var i :| 0 <= i < |last| && last[i] == x;
      assert FaceVBO(model, faces[|faces| - 1], i) == Success(x);
    }
  }

  // ---------------------------------------------------------------------
  // Deduplication and numbering

  predicate NoDuplicates<T(==)>(s: seq<T>) {
    forall i, j :: 0 <= i < j < |s| ==> s[i] != s[j]
  }

  /** `toSet().toList()`: the distinct elements, each kept at its first
      occurrence (a `LinkedHashSet` keeps insertion order). */
  function Distinct<T(==, !new)>(xs: seq<T>): (d: seq<T>)
    ensures NoDuplicates(d)
    ensures forall x :: x in d <==> x in xs
  {
    if xs == [] then []
    else
      var d := Distinct(xs[..|xs| - 1]);
      var last := xs[|xs| - 1];
      assert forall x :: x in xs <==> x in xs[..|xs| - 1] || x == last;
      if last in d then d else d + [last]
  }

  /** The position of the first occurrence of `x`. */
  function FirstIndex<T(==)>(xs: seq<T>, x: T): (r: nat)
    requires x in xs
    ensures r < |xs| && xs[r] == x
    ensures forall k :: 0 <= k < r ==> xs[k] != x
  {
    if xs[0] == x then 0 else 1 + FirstIndex(xs[1..], x)
  }

  lemma FirstIndexPrefix<T>(xs: seq<T>, y: T, x: T)
    requires x in xs
    ensures FirstIndex(xs + [y], x) == FirstIndex(xs, x)
  {
    var a, b := FirstIndex(xs + [y], x), FirstIndex(xs, x);
    assert (xs + [y])[b] == x;
    assert a <= b;
    assert xs[a] == x;
  }

  /** The distinct elements come in the order of their first occurrences. */
  lemma {:induction false} DistinctFirstOccurrenceOrder<T(!new)>(xs: seq<T>)
    ensures forall i, j :: 0 <= i < j < |Distinct(xs)| ==>
              FirstIndex(xs, Distinct(xs)[i]) < FirstIndex(xs, Distinct(xs)[j])
  {
    if xs != [] {
      var init, last := xs[..|xs| - 1], xs[|xs| - 1];
      var d := Distinct(init);
      DistinctFirstOccurrenceOrder(init);
      assert xs == init + [last];
      forall y | y in init
        ensures FirstIndex(xs, y) == FirstIndex(init, y)
      {
        FirstIndexPrefix(init, last, y);
      }
      if last !in d {
        assert FirstIndex(xs, last) == |init| by {
          assert forall k :: 0 <= k < |init| ==> xs[k] == init[k] != last;
        }
      }
    }
  }

  /** `withIndex().toMap({ it.value }, { it.index })`: each element to its
      position; a later equal element overwrites an earlier one. */
  function IndexMap<T(==)>(d: seq<T>): (m: map<T, int>)
    ensures m.Keys == set x | x in d
    ensures forall x :: x in m ==> 0 <= m[x] < |d| && d[m[x]] == x
  {
    if d == [] then map[]
    else IndexMap(d[..|d| - 1])[d[|d| - 1] := |d| - 1]
  }

  /** On a list without duplicates the map sends each element to its own
      position. */
  lemma IndexMapPositions<T>(d: seq<T>, i: int)
    requires NoDuplicates(d) && 0 <= i < |d|
    ensures d[i] in IndexMap(d) && IndexMap(d)[d[i]] == i
  {
    var m := IndexMap(d);
    assert d[i] in m;
    assert d[m[d[i]]] == d[i];
  }

  // ---------------------------------------------------------------------
  // Flat attribute buffers

  /** The list of the vectors' component lists. */
  function ComponentsOf(vectors: seq<Vector>): (rows: seq<seq<real>>)
    ensures |rows| == |vectors| && forall k :: 0 <= k < |vectors| ==> rows[k] == vectors[k].values
  {
    seq(|vectors|, k requires 0 <= k < |vectors| => vectors[k].values)
  }

  function VertexVectors(vbos: seq<VBO>): (r: seq<Vector>)
    ensures |r| == |vbos| && forall k :: 0 <= k < |vbos| ==> r[k] == vbos[k].vertex
  {
    seq(|vbos|, k requires 0 <= k < |vbos| => vbos[k].vertex)
  }

  function NormalVectors(vbos: seq<VBO>): (r: seq<Vector>)
    ensures |r| == |vbos| && forall k :: 0 <= k < |vbos| ==> r[k] == vbos[k].normal
  {
    seq(|vbos|, k requires 0 <= k < |vbos| => vbos[k].normal)
  }

  /** The uv of every triple, null where there is none. */
  function UvOptions(vbos: seq<VBO>): (r: seq<Option<Vector>>)
    ensures |r| == |vbos|
    ensures forall k :: 0 <= k < |vbos| ==> r[k] == vbos[k].uv
  {
    seq(|vbos|, k requires 0 <= k < |vbos| => vbos[k].uv)
  }

  /** The uvs that are present, in triple order: the vectors that
      `flatMap { it.uv?.values ?: emptyList() }` lays out back to back. */
  function PresentUvs(vbos: seq<VBO>): (r: seq<Vector>)
    ensures |r| <= |vbos|
    ensures forall x :: x in r <==> exists k :: 0 <= k < |vbos| && vbos[k].uv == Some(x)
  {
    var uvs := UvOptions(vbos);
    SomesMembers(uvs);
    assert forall x :: Some(x) in uvs <==> exists k :: 0 <= k < |vbos| && vbos[k].uv == Some(x);
    Somes(uvs)
  }

  /** The uv buffer holds one vector per triple that has a uv, taken from
      the triples in order. */
  lemma PresentUvsInOrder(vbos: seq<VBO>)
    ensures |PresentUvs(vbos)| == |set k | 0 <= k < |vbos| && vbos[k].uv.Some?|
    ensures exists at :: Enumerates(at, UvOptions(vbos), PresentUvs(vbos))
  {
    var uvs := UvOptions(vbos);
    SomesCount(uvs);
    assert (set k | 0 <= k < |uvs| && uvs[k].Some?) == (set k | 0 <= k < |vbos| && vbos[k].uv.Some?);
    SomesOrder(uvs);
  }

  /** Vectors of one length `n` are laid out back to back: component `j` of
      vector `k` is at position `k * n + j`. */
  lemma ComponentLayout(vectors: seq<Vector>, n: int, k: int, j: int)
    requires n >= 0 && forall i :: 0 <= i < |vectors| ==> |vectors[i].values| == n
    requires 0 <= k < |vectors| && 0 <= j < n
    ensures |Flatten(ComponentsOf(vectors))| == |vectors| * n
    ensures k * n + j < |Flatten(ComponentsOf(vectors))|
    ensures Flatten(ComponentsOf(vectors))[k * n + j] == vectors[k].values[j]
  {
    var rows := ComponentsOf(vectors);
    assert SameLength(rows, n) by {
      forall i | 0 <= i < |rows| ensures |rows[i]| == n {
        assert rows[i] == vectors[i].values;
      }
    }
    FlattenLength(rows, n);
    FlattenAt(rows, n, k, j);
  }

  /** When some triple has no uv, the uv buffer holds fewer vectors than
      there are triples, so it no longer lines up with the vertex buffer. */
  lemma UvBufferSkipsAbsent(vbos: seq<VBO>, k: int)
    requires 0 <= k < |vbos| && vbos[k].uv.None?
    ensures |PresentUvs(vbos)| < |vbos|
  {
    SomesShorter(UvOptions(vbos), k);
  }

  // ---------------------------------------------------------------------
  // Arity buckets

  /** The `when (it.size())` of the `groupBy`. */
  function TypeOf(size: int): (t: FaceType)
    ensures t == TRIANGLE <==> size == 3
    ensures t == QUAD <==> size == 4
    ensures t == POLY <==> size != 3 && size != 4
  {
    if size == 3 then TRIANGLE else if size == 4 then QUAD else POLY
  }

  /** The faces of one type, in their original order. */
  function FacesOfType(faces: seq<Face>, t: FaceType): seq<Face> {
    if faces == [] then []
    else
      var last := faces[|faces| - 1];
      FacesOfType(faces[..|faces| - 1], t) + (if TypeOf(last.Size()) == t then [last] else [])
  }

  /** `groupBy`: appends each face to its type's bucket, creating the
      bucket on first use. */
  function GroupBy(faces: seq<Face>): map<FaceType, seq<Face>> {
    if faces == [] then map[]
    else
      var buckets := GroupBy(faces[..|faces| - 1]);
      var last := faces[|faces| - 1];
      var t := TypeOf(last.Size());
      buckets[t := (if t in buckets then buckets[t] else []) + [last]]
  }

  /** A bucket exists exactly for the types that occur, and holds the faces
      of that type in their original order. */
  lemma {:induction false} GroupByBuckets(faces: seq<Face>)
    ensures forall t :: t in GroupBy(faces) <==> FacesOfType(faces, t) != []
    ensures forall t :: t in GroupBy(faces) ==> GroupBy(faces)[t] == FacesOfType(faces, t)
  {
    if faces != [] {
      GroupByBuckets(faces[..|faces| - 1]);
    }
  }

  /** Every face lands in exactly one bucket: the three buckets together
      hold as many faces as the group. */
  lemma {:induction false} BucketSizes(faces: seq<Face>)
    ensures |FacesOfType(faces, TRIANGLE)| + |FacesOfType(faces, QUAD)| + |FacesOfType(faces, POLY)| == |faces|
  {
    if faces != [] {
      BucketSizes(faces[..|faces| - 1]);
    }
  }

  /** Every face in a bucket has that bucket's type. */
  lemma {:induction false} FacesOfTypeHaveType(faces: seq<Face>, t: FaceType)
    ensures forall f :: f in FacesOfType(faces, t) ==> TypeOf(f.Size()) == t && f in faces
  {
    if faces != [] {
      FacesOfTypeHaveType(faces[..|faces| - 1], t);
    }
  }

  // ---------------------------------------------------------------------
  // Index lists

  /** `map { vboIndexesMap[it]!! }`: `!!` throws on a triple that has no
      number. */
  function LookUpAll(vbos: seq<VBO>, indexOf: map<VBO, int>): (r: Result<seq<int>>)
    ensures r.Success? <==> forall x :: x in vbos ==> x in indexOf
    ensures r.Failure? ==> r.error == NullPointer
    ensures r.Success? ==> |r.value| == |vbos| && forall i :: 0 <= i < |vbos| ==> r.value[i] == indexOf[vbos[i]]
  {
    if vbos == [] then Success([])
    else
      var init, last := vbos[..|vbos| - 1], vbos[|vbos| - 1];
      assert forall x :: x in vbos <==> x in init || x == last;
      match LookUpAll(init, indexOf)
      case Failure(e) => Failure(e)
      case Success(indices) =>
        if last in indexOf then Success(indices + [indexOf[last]]) else Failure(NullPointer)
  }

  /** One face's index list and its length: the number of each slot's
      triple, in slot order. A slot that does not resolve throws
      IndexOutOfBoundsException, a triple without a number a
      NullPointerException. */
  function BufferOf(model: ObjModel, face: Face, indexOf: map<VBO, int>): (r: Result<BufferWithSize>)
    ensures r.Success? <==>
              && FaceResolves(model, face)
              && forall i :: 0 <= i < face.Size() ==> FaceVBO(model, face, i).value in indexOf
    ensures r.Failure? && !FaceResolves(model, face) ==> r.error == IndexOutOfBounds
    ensures r.Failure? && FaceResolves(model, face) ==> r.error == NullPointer
    ensures r.Success? ==>
              && r.value.size == |r.value.indices| == face.Size()
              && forall i :: 0 <= i < face.Size() ==> r.value.indices[i] == indexOf[FaceVBO(model, face, i).value]
  {
    match GetVBOs(model, face)
    case Failure(e) => Failure(e)
    case Success(vbos) =>
      match LookUpAll(vbos, indexOf)
      case Failure(e) => Failure(e)
      case Success(indices) => Success(BufferWithSize(indices, |indices|))
  }

  /** `e.value.map { face -> ... }` over one bucket. */
  function BuffersOf(model: ObjModel, faces: seq<Face>, indexOf: map<VBO, int>): (r: Result<seq<BufferWithSize>>)
    ensures r.Success? <==> forall k :: 0 <= k < |faces| ==> BufferOf(model, faces[k], indexOf).Success?
    ensures r.Success? ==> |r.value| == |faces| && forall k :: 0 <= k < |faces| ==> r.value[k] == BufferOf(model, faces[k], indexOf).value
  {
    MapResults(faces, face => BufferOf(model, face, indexOf))
  }

  /** `mapValues` over the buckets that exist. */
  function BufferBuckets(model: ObjModel, buckets: map<FaceType, seq<Face>>, indexOf: map<VBO, int>)
    : (r: Result<map<FaceType, seq<BufferWithSize>>>)
    ensures r.Success? <==> forall t :: t in buckets ==> BuffersOf(model, buckets[t], indexOf).Success?
    ensures r.Success? ==> r.value.Keys == buckets.Keys
    ensures r.Success? ==> forall t :: t in buckets ==> r.value[t] == BuffersOf(model, buckets[t], indexOf).value
  {
    if forall t :: t in buckets ==> BuffersOf(model, buckets[t], indexOf).Success? then
      Success(map t | t in buckets :: BuffersOf(model, buckets[t], indexOf).value)
    else
      Failure(if exists t :: t in buckets && BuffersOf(model, buckets[t], indexOf) == Failure(NullPointer)
              then NullPointer else IndexOutOfBounds)
  }

  // ---------------------------------------------------------------------
  // The constructor and render

  /** The constructor `Model(gl, objModel, group)`. Only collecting the
      triples can throw; everything after it is then total. */
  function Build(model: ObjModel, group: ObjGroup): (r: Result<BuiltModel>)
    ensures r.Success? <==> forall k :: 0 <= k < |group.faces| ==> FaceResolves(model, group.faces[k])
    ensures r.Failure? ==> r.error == IndexOutOfBounds
  {
    match SlotsOfFaces(model, group.faces)
    case Failure(e) => Failure(e)
    case Success(slots) =>
      var all := Distinct(slots);
      var indexOf := IndexMap(all);
      var buckets := GroupBy(group.faces);
      BucketsResolve(model, group.faces, slots);
      match BufferBuckets(model, buckets, indexOf)
      case Failure(e) => Failure(e)
      case Success(faces) =>
        Success(BuiltModel(group, all, indexOf,
                           Flatten(ComponentsOf(VertexVectors(all))),
                           Flatten(ComponentsOf(NormalVectors(all))),
                           Flatten(ComponentsOf(PresentUvs(all))),
                           faces))
  }

  /** Once every slot resolves, every face's index list can be built: each
      of its triples was collected and so has a number. */
  lemma BucketsResolve(model: ObjModel, faces: seq<Face>, slots: seq<VBO>)
    requires SlotsOfFaces(model, faces) == Success(slots)
    ensures BufferBuckets(model, GroupBy(faces), IndexMap(Distinct(slots))).Success?
  {
    var indexOf := IndexMap(Distinct(slots));
    EveryFaceHasBuffer(model, faces, slots);
    GroupByBuckets(faces);
    forall t | t in GroupBy(faces)
      ensures BuffersOf(model, GroupBy(faces)[t], indexOf).Success?
    {
      FacesOfTypeHaveType(faces, t);
    }
  }

  lemma EveryFaceHasBuffer(model: ObjModel, faces: seq<Face>, slots: seq<VBO>)
    requires SlotsOfFaces(model, faces) == Success(slots)
    ensures forall f :: f in faces ==> BufferOf(model, f, IndexMap(Distinct(slots))).Success?
  {
    forall f | f in faces
      ensures BufferOf(model, f, IndexMap(Distinct(slots))).Success?
    {
      var k :| 0 <= k < |faces| && faces[k] == f;
      IndexListOf(model, faces, k);
    }
  }

  /** The index list of face `k`: one entry per slot, and entry `i` looks
      back up to the triple of slot `i` in the distinct list, so the `!!`
      never throws. */
  lemma IndexListOf(model: ObjModel, faces: seq<Face>, k: int)
    requires SlotsOfFaces(model, faces).Success? && 0 <= k < |faces|
    ensures var all := Distinct(SlotsOfFaces(model, faces).value);
            var b := BufferOf(model, faces[k], IndexMap(all));
            && b.Success?
            && b.value.size == |b.value.indices| == faces[k].Size()
            && forall i :: 0 <= i < faces[k].Size() ==>
                 0 <= b.value.indices[i] < |all| && all[b.value.indices[i]] == FaceVBO(model, faces[k], i).value
  {
    var slots := SlotsOfFaces(model, faces).value;
    var all := Distinct(slots);
    var indexOf := IndexMap(all);
    var face := faces[k];
    var vbos := GetVBOs(model, face).value;
    forall x | x in vbos
      ensures x in indexOf
    {
      var i :| 0 <= i < |vbos| && vbos[i] == x;
      SlotInSlotsOfFaces(model, faces, k, i);
    }
  }

  /** The distinct list holds the triple of every slot of every face and
      nothing else, each once; the map numbers each by its position. The
      order is `AllVBOsFirstSeenOrder`. */
  lemma AllVBOsProperties(model: ObjModel, group: ObjGroup)
    requires Build(model, group).Success?
    ensures var b := Build(model, group).value;
            && NoDuplicates(b.allVBOs)
            && (forall k, i :: 0 <= k < |group.faces| && 0 <= i < group.faces[k].Size() ==>
                  FaceVBO(model, group.faces[k], i).value in b.allVBOs)
            && (forall x :: x in b.allVBOs ==>
                  exists k, i :: 0 <= k < |group.faces| && 0 <= i < group.faces[k].Size()
                                 && FaceVBO(model, group.faces[k], i) == Success(x))
            && (forall i :: 0 <= i < |b.allVBOs| ==> b.allVBOs[i] in b.indexOf && b.indexOf[b.allVBOs[i]] == i)
            && (forall x :: x in b.indexOf ==> b.allVBOs[b.indexOf[x]] == x)
  {
    var slots := SlotsOfFaces(model, group.faces).value;
    var all := Distinct(slots);
    forall k, i | 0 <= k < |group.faces| && 0 <= i < group.faces[k].Size()
      ensures FaceVBO(model, group.faces[k], i).value in all
    {
      SlotInSlotsOfFaces(model, group.faces, k, i);
    }
    forall x | x in all
      ensures exists k, i :: 0 <= k < |group.faces| && 0 <= i < group.faces[k].Size()
                             && FaceVBO(model, group.faces[k], i) == Success(x)
    {
      SlotsOfFacesFromSlots(model, group.faces, x);
    }
    forall i | 0 <= i < |all|
      ensures all[i] in IndexMap(all) && IndexMap(all)[all[i]] == i
    {
      IndexMapPositions(all, i);
    }
  }

  /** `allVBOs` keeps the order in which the triples are first met when
      the slots are read face after face (positions as in
      `SlotsOfFacesAt`): an earlier entry was met first. */
  lemma AllVBOsFirstSeenOrder(model: ObjModel, group: ObjGroup)
    requires Build(model, group).Success?
    ensures var all, slots := Build(model, group).value.allVBOs, SlotsOfFaces(model, group.faces).value;
            && (forall x :: x in all <==> x in slots)
            && forall i, j :: 0 <= i < j < |all| ==> FirstIndex(slots, all[i]) < FirstIndex(slots, all[j])
  {
    var slots := SlotsOfFaces(model, group.faces).value;
    assert Build(model, group).value.allVBOs == Distinct(slots);
    DistinctFirstOccurrenceOrder(slots);
  }

  /** Every distinct triple is made of the model's own vectors. */
  lemma TriplesFromModel(model: ObjModel, group: ObjGroup)
    requires Build(model, group).Success?
    ensures var all := Build(model, group).value.allVBOs;
            forall i :: 0 <= i < |all| ==>
              && all[i].vertex in model.vertices && all[i].normal in model.normals
              && (all[i].uv.Some? ==> all[i].uv.value in model.uvs)
  {
    var slots := SlotsOfFaces(model, group.faces).value;
    var all := Build(model, group).value.allVBOs;
    assert all == Distinct(slots);
    forall i | 0 <= i < |all|
      ensures && all[i].vertex in model.vertices && all[i].normal in model.normals
              && (all[i].uv.Some? ==> all[i].uv.value in model.uvs)
    {
      assert all[i] in slots;
      SlotsOfFacesFromSlots(model, group.faces, all[i]);
      var f, s :| 0 <= f < |group.faces| && 0 <= s < group.faces[f].Size()
                  && FaceVBO(model, group.faces[f], s) == Success(all[i]);
    }
  }

  /** The buffers of a built model are the components of its distinct
      triples, vertex, normal and present uv, back to back. */
  lemma BuffersOfBuild(model: ObjModel, group: ObjGroup)
    requires Build(model, group).Success?
    ensures var b := Build(model, group).value;
            && b.vertexData == Flatten(ComponentsOf(VertexVectors(b.allVBOs)))
            && b.normalData == Flatten(ComponentsOf(NormalVectors(b.allVBOs)))
            && b.uvData == Flatten(ComponentsOf(PresentUvs(b.allVBOs)))
  {
  }

  /** A triple without uv contributes nothing to the uv buffer: with uvs of
      one length `n > 0`, the uv buffer is then shorter than the vertex
      count times `n`, and no longer lines up with the other buffers. */
  lemma UvBufferShorter(model: ObjModel, group: ObjGroup, n: int, k: int)
    requires Build(model, group).Success?
    requires n > 0 && forall v :: v in model.uvs ==> |v.values| == n
    requires 0 <= k < |Build(model, group).value.allVBOs| && Build(model, group).value.allVBOs[k].uv.None?
    ensures |Build(model, group).value.uvData| < |Build(model, group).value.allVBOs| * n
  {
    var all := Build(model, group).value.allVBOs;
    TriplesFromModel(model, group);
    BuffersOfBuild(model, group);
    assert forall i :: 0 <= i < |all| && all[i].uv.Some? ==> |all[i].uv.value.values| == n;
    ShortUvData(all, n, k);
  }

  lemma ShortUvData(all: seq<VBO>, n: int, k: int)
    requires n > 0 && forall i :: 0 <= i < |all| && all[i].uv.Some? ==> |all[i].uv.value.values| == n
    requires 0 <= k < |all| && all[k].uv.None?
    ensures |Flatten(ComponentsOf(PresentUvs(all)))| < |all| * n
  {
    UniformUvs(all, n);
    UvBufferSkipsAbsent(all, k);
    ScaleStrict(|PresentUvs(all)|, |all|, n);
  }

  lemma ScaleStrict(a: int, b: int, n: int)
    requires a < b && n > 0
    ensures a * n < b * n
  {
    assert b * n == a * n + (b - a) * n;
  }

  lemma UniformUvs(all: seq<VBO>, n: int)
    requires n > 0 && forall i :: 0 <= i < |all| && all[i].uv.Some? ==> |all[i].uv.value.values| == n
    ensures |Flatten(ComponentsOf(PresentUvs(all)))| == |PresentUvs(all)| * n
  {
    var present := PresentUvs(all);
    var rows := ComponentsOf(present);
    forall i | 0 <= i < |rows|
      ensures |rows[i]| == n
    {
      assert rows[i] == present[i].values;
      assert present[i] in present;
      var m :| 0 <= m < |all| && all[m].uv == Some(present[i]);
    }
    FlattenLength(rows, n);
  }

  /** The bucket of each type holds, for the faces of that type in their
      original order, the index lists of those faces; only types that
      occur have a bucket. */
  lemma BucketsOfBuild(model: ObjModel, group: ObjGroup, t: FaceType)
    requires Build(model, group).Success?
    ensures var b := Build(model, group).value;
            && (t in b.faces <==> FacesOfType(group.faces, t) != [])
            && (t in b.faces ==> BuffersOf(model, FacesOfType(group.faces, t), b.indexOf).Success?)
            && (t in b.faces ==> b.faces[t] == BuffersOf(model, FacesOfType(group.faces, t), b.indexOf).value)
  {
    GroupByBuckets(group.faces);
  }

  /** One draw call per face of a bucket, in order. */
  function Draws(mode: DrawMode, buffers: seq<BufferWithSize>): (r: seq<DrawCommand>)
    ensures |r| == |buffers|
    ensures forall k :: 0 <= k < |buffers| ==>
              r[k] == DrawCommand(mode, buffers[k].indices, buffers[k].size)
  {
    seq(|buffers|, k requires 0 <= k < |buffers| => DrawCommand(mode, buffers[k].indices, buffers[k].size))
  }

  /** `render(gl)`: the triangles with `TRIANGLES`, then the quads and then
      the other polygons with `TRIANGLE_FAN`; an absent bucket draws
      nothing. */
  function Render(b: BuiltModel): seq<DrawCommand> {
    (if TRIANGLE in b.faces then Draws(TRIANGLES, b.faces[TRIANGLE]) else [])
    + (if QUAD in b.faces then Draws(TRIANGLE_FAN, b.faces[QUAD]) else [])
    + (if POLY in b.faces then Draws(TRIANGLE_FAN, b.faces[POLY]) else [])
  }

  /** The draw call of a face: its index list, drawn with `TRIANGLES` for a
      triangle and `TRIANGLE_FAN` otherwise. */
  function DrawOf(model: ObjModel, face: Face, indexOf: map<VBO, int>): DrawCommand
    requires BufferOf(model, face, indexOf).Success?
  {
    var b := BufferOf(model, face, indexOf).value;
    DrawCommand(if TypeOf(face.Size()) == TRIANGLE then TRIANGLES else TRIANGLE_FAN, b.indices, b.size)
  }

  function DrawsOf(model: ObjModel, faces: seq<Face>, indexOf: map<VBO, int>): (r: seq<DrawCommand>)
    requires AllDrawable(model, faces, indexOf)
    ensures |r| == |faces|
  {
    seq(|faces|, k requires 0 <= k < |faces| => DrawOf(model, faces[k], indexOf))
  }

  /** Every face of a built group has its draw call. */
  predicate AllDrawable(model: ObjModel, faces: seq<Face>, indexOf: map<VBO, int>) {
    forall k :: 0 <= k < |faces| ==> BufferOf(model, faces[k], indexOf).Success?
  }

  /** Rendering a built group issues one draw call per face: all the
      triangles first, then the quads, then the other polygons, each in
      the group's order, each drawing its face's whole index list. */
  lemma RenderOrder(model: ObjModel, group: ObjGroup)
    requires Build(model, group).Success?
    ensures var b := Build(model, group).value;
            && AllDrawable(model, FacesOfType(group.faces, TRIANGLE), b.indexOf)
            && AllDrawable(model, FacesOfType(group.faces, QUAD), b.indexOf)
            && AllDrawable(model, FacesOfType(group.faces, POLY), b.indexOf)
    ensures var b := Build(model, group).value;
            && Render(b) == DrawsOf(model, FacesOfType(group.faces, TRIANGLE), b.indexOf)
                            + DrawsOf(model, FacesOfType(group.faces, QUAD), b.indexOf)
                            + DrawsOf(model, FacesOfType(group.faces, POLY), b.indexOf)
            && |Render(b)| == |group.faces|
  {
    BucketSizes(group.faces);
    BucketDraws(model, group, TRIANGLE, TRIANGLES);
    BucketDraws(model, group, QUAD, TRIANGLE_FAN);
    BucketDraws(model, group, POLY, TRIANGLE_FAN);
  }

  lemma BucketDraws(model: ObjModel, group: ObjGroup, t: FaceType, mode: DrawMode)
    requires Build(model, group).Success?
    requires mode == if t == TRIANGLE then TRIANGLES else TRIANGLE_FAN
    ensures AllDrawable(model, FacesOfType(group.faces, t), Build(model, group).value.indexOf)
    ensures var b := Build(model, group).value;
            (if t in b.faces then Draws(mode, b.faces[t]) else []) == DrawsOf(model, FacesOfType(group.faces, t), b.indexOf)
  {
    var b := Build(model, group).value;
    var faces := FacesOfType(group.faces, t);
    var slots := SlotsOfFaces(model, group.faces).value;
    assert b.indexOf == IndexMap(Distinct(slots));
    FacesOfTypeHaveType(group.faces, t);
    EveryFaceHasBuffer(model, group.faces, slots);
    assert forall k :: 0 <= k < |faces| ==> faces[k] in faces;
    BucketsOfBuild(model, group, t);
    if t in b.faces {
      SameDraws(model, faces, b.indexOf, t, mode);
    }
  }

  /** Drawing a bucket's buffers with its mode issues each face's own draw
      call. */
  lemma SameDraws(model: ObjModel, faces: seq<Face>, indexOf: map<VBO, int>, t: FaceType, mode: DrawMode)
    requires AllDrawable(model, faces, indexOf)
    requires forall f :: f in faces ==> TypeOf(f.Size()) == t
    requires mode == if t == TRIANGLE then TRIANGLES else TRIANGLE_FAN
    ensures BuffersOf(model, faces, indexOf).Success?
    ensures Draws(mode, BuffersOf(model, faces, indexOf).value) == DrawsOf(model, faces, indexOf)
  {
    var buffers := BuffersOf(model, faces, indexOf).value;
    forall k | 0 <= k < |faces|
      ensures Draws(mode, buffers)[k] == DrawsOf(model, faces, indexOf)[k]
    {
      assert faces[k] in faces;
    }
  }
}
