/** The line-oriented Wavefront OBJ reader of objparser.kt.

    `Parse` folds the lines into a mutable `ParserState` (four attribute
    lists, the name and faces of the group being collected, and the map of
    finished groups) and then packs the state into an `ObjModel`. The pure
    function `Run` states what the state is after a prefix of the lines;
    `Parse` is proved against it, and the lemmas at the end state what the
    fold does over whole files. */
module ObjParser {
  import opened Outcomes
  import opened Text
  import opened Vectors

  /** `data class Material` has no fields. */
  datatype Material = Material

  /** A polygon: zero-based indices into the model's vertex, normal and
      texture-coordinate lists. The three lists are filled independently,
      so the normal and uv lists can be shorter than the vertex list. */
  datatype Face = Face(vertices: seq<int>, normals: seq<int>, uvs: seq<int>) {
    /** `Face.size()`: the number of vertex indices */
    function Size(): nat { |vertices| }
  }

  datatype ObjGroup = ObjGroup(name: string, faces: seq<Face>)

  datatype ObjModel = ObjModel(
    materials: map<string, Material>,
    root: Option<ObjGroup>,
    groups: map<string, ObjGroup>,
    vertices: seq<Vector>,
    normals: seq<Vector>,
    uvs: seq<Vector>,
    params: seq<Vector>)

  /** The library number parsers `safeParseDouble` (null when the token is
      not a number) and `parseInt`, whose definitions are not part of this
      model. */
  datatype NumberParsers = NumberParsers(parseDouble: string -> Option<real>, parseInt: string -> int)

  /** The filter of `parse`: a blank line, or one whose trimmed text starts
      with `#`, is dropped before dispatch. */
  predicate IsSkipped(line: string) {
    IsBlank(line) || Trim(line)[0] == '#'
  }

  /** A kept line split into its directive and the rest of the line. */
  datatype Declaration = Declaration(directive: string, argument: string)

  /** The directive is the first run of non-whitespace characters of the
      trimmed line; the argument is what follows it, trimmed. */
  function SplitLine(line: string): (d: Declaration)
    requires !IsSkipped(line)
  {
    var t := Trim(line);
    var n := LeadingWord(t);
    Declaration(t[..n], Trim(t[n..]))
  }

  /** The directive is a non-empty word with no whitespace that starts the
      trimmed line; the rest of the trimmed line is empty or starts with
      whitespace, and the argument is that rest trimmed. */
  lemma SplitLineParts(line: string)
    requires !IsSkipped(line)
    ensures var t, d := Trim(line), SplitLine(line);
            && 0 < |d.directive| <= |t|
            && NoWhitespace(d.directive)
            && t[..|d.directive|] == d.directive
            && (|d.directive| < |t| ==> IsWhitespace(t[|d.directive|]))
            && d.argument == Trim(t[|d.directive|..])
  {
    var t := Trim(line);
    assert t != [] && !IsWhitespace(t[0]);
    DirectiveStartsWord(t);
  }

  lemma DirectiveStartsWord(t: string)
    requires t != [] && !IsWhitespace(t[0])
    ensures var n := LeadingWord(t);
            && 0 < n <= |t| && NoWhitespace(t[..n])
            && (n < |t| ==> IsWhitespace(t[n]))
  {
  }

  /** `String.parseVector(defaultValue, points = 3)`: each whitespace-
      separated token that does not parse becomes the default, and the
      list is padded with the default up to three components. */
  function ParseVector(argument: string, default: real, num: NumberParsers): (v: Vector)
    ensures var tokens := SplitWhitespace(argument);
            && |v.values| == (if |tokens| > 3 then |tokens| else 3)
            && (forall i :: 0 <= i < |tokens| ==> v.values[i] == num.parseDouble(tokens[i]).GetOr(default))
            && (forall i :: |tokens| <= i < |v.values| ==> v.values[i] == default)
  {
    var tokens := SplitWhitespace(argument);
    var numbers := seq(|tokens|, i requires 0 <= i < |tokens| => num.parseDouble(tokens[i]).GetOr(default));
    Vector(numbers + seq(if |numbers| < 3 then 3 - |numbers| else 0, _ => default))
  }

  /** The sub-tokens of one face tuple split on `/`: null for an empty
      sub-token, the one-based index minus one otherwise. */
  function SubIndices(tuple: string, parseInt: string -> int): (r: seq<Option<int>>)
    ensures |r| == |Split(tuple, '/')| >= 1
    ensures forall k :: 0 <= k < |r| ==>
              r[k] == if Split(tuple, '/')[k] == "" then None else Some(parseInt(Split(tuple, '/')[k]) - 1)
  {
    var parts := Split(tuple, '/');
    seq(|parts|, k requires 0 <= k < |parts| => if parts[k] == "" then None else Some(parseInt(parts[k]) - 1))
  }

  /** `faceParts.getOrNull(k)`: sub-index k of a tuple, null when the tuple
      has fewer sub-tokens or that one is empty. */
  function Slot(tuple: string, k: nat, parseInt: string -> int): Option<int> {
    var parts := SubIndices(tuple, parseInt);
    if k < |parts| then parts[k] else None
  }

  /** Sub-index k of every tuple, in order. */
  function SlotColumn(tuples: seq<string>, k: nat, parseInt: string -> int): (c: seq<Option<int>>)
    ensures |c| == |tuples|
    ensures forall i :: 0 <= i < |tuples| ==> c[i] == Slot(tuples[i], k, parseInt)
  {
    seq(|tuples|, i requires 0 <= i < |tuples| => Slot(tuples[i], k, parseInt))
  }

  /** `addIfNotNull`: appends the value unless it is null. */
  function AddIfNotNull(list: seq<int>, value: Option<int>): (r: seq<int>)
    ensures value.None? ==> r == list
    ensures value.Some? ==> |r| == |list| + 1 && r[..|list|] == list && r[|list|] == value.value
  {
    if value.Some? then list + [value.value] else list
  }

  /** What `parseFace` produces: sub-token 0 of each tuple feeds the vertex
      list, sub-token 1 the uv list and sub-token 2 the normal list, each
      skipping the tuples where that sub-token is missing or empty. */
  function FaceOf(argument: string, parseInt: string -> int): Face {
    var tuples := SplitWhitespace(argument);
    Face(Somes(SlotColumn(tuples, 0, parseInt)),
         Somes(SlotColumn(tuples, 2, parseInt)),
         Somes(SlotColumn(tuples, 1, parseInt)))
  }

  /** `String.parseFace()`: one pass over the whitespace-separated tuples,
      appending each present sub-index to its list. */
  method ParseFace(argument: string, parseInt: string -> int) returns (face: Face)
    ensures face == FaceOf(argument, parseInt)
  {
    var tuples := SplitWhitespace(argument);
    var vertices, normals, uvs := [], [], [];
    var i := 0;
    while i < |tuples|
      invariant 0 <= i <= |tuples|
      invariant vertices == Somes(SlotColumn(tuples[..i], 0, parseInt))
      invariant uvs == Somes(SlotColumn(tuples[..i], 1, parseInt))
      invariant normals == Somes(SlotColumn(tuples[..i], 2, parseInt))
    {
      ColumnGrows(tuples, i, 0, parseInt);
      ColumnGrows(tuples, i, 1, parseInt);
      ColumnGrows(tuples, i, 2, parseInt);
      vertices := AddIfNotNull(vertices, Slot(tuples[i], 0, parseInt));
      uvs := AddIfNotNull(uvs, Slot(tuples[i], 1, parseInt));
      normals := AddIfNotNull(normals, Slot(tuples[i], 2, parseInt));
      i := i + 1;
    }
    assert tuples[..i] == tuples;
    face := Face(vertices, normals, uvs);
  }

  lemma ColumnGrows(tuples: seq<string>, i: nat, k: nat, parseInt: string -> int)
    requires i < |tuples|
    ensures Somes(SlotColumn(tuples[..i + 1], k, parseInt))
            == AddIfNotNull(Somes(SlotColumn(tuples[..i], k, parseInt)), Slot(tuples[i], k, parseInt))
  {
    var c := SlotColumn(tuples[..i + 1], k, parseInt);
    assert c[..i] == SlotColumn(tuples[..i], k, parseInt);
  }

  /** A face has one vertex index per tuple whose first sub-token is
      non-empty, one uv index per tuple with a non-empty second sub-token
      and one normal index per tuple with a non-empty third one. */
  lemma FaceIndexCounts(argument: string, parseInt: string -> int)
    ensures var tuples, face := SplitWhitespace(argument), FaceOf(argument, parseInt);
            && |face.vertices| == |set i | 0 <= i < |tuples| && Slot(tuples[i], 0, parseInt).Some?|
            && |face.uvs| == |set i | 0 <= i < |tuples| && Slot(tuples[i], 1, parseInt).Some?|
            && |face.normals| == |set i | 0 <= i < |tuples| && Slot(tuples[i], 2, parseInt).Some?|
  {
    var tuples := SplitWhitespace(argument);
    forall k | 0 <= k < 3
      ensures |Somes(SlotColumn(tuples, k, parseInt))|
              == |set i | 0 <= i < |tuples| && Slot(tuples[i], k, parseInt).Some?|
    {
      var c := SlotColumn(tuples, k, parseInt);
      SomesCount(c);
      assert (set i | 0 <= i < |c| && c[i].Some?) == (set i | 0 <= i < |tuples| && Slot(tuples[i], k, parseInt).Some?);
    }
  }

  /** Each index list of a face is its column compacted: entry `a` comes
      from tuple `at[a]`, those positions increase, and every tuple that has
      the sub-token contributes. A tuple without a uv sub-token therefore
      moves the uvs of the later tuples one slot forward; normals alike. */
  lemma FaceListsCompacted(argument: string, parseInt: string -> int)
    ensures exists at :: Enumerates(at, SlotColumn(SplitWhitespace(argument), 0, parseInt), FaceOf(argument, parseInt).vertices)
    ensures exists at :: Enumerates(at, SlotColumn(SplitWhitespace(argument), 1, parseInt), FaceOf(argument, parseInt).uvs)
    ensures exists at :: Enumerates(at, SlotColumn(SplitWhitespace(argument), 2, parseInt), FaceOf(argument, parseInt).normals)
  {
    var tuples, face := SplitWhitespace(argument), FaceOf(argument, parseInt);
    ColumnCompacted(SlotColumn(tuples, 0, parseInt), face.vertices);
    ColumnCompacted(SlotColumn(tuples, 1, parseInt), face.uvs);
    ColumnCompacted(SlotColumn(tuples, 2, parseInt), face.normals);
  }

  lemma ColumnCompacted(column: seq<Option<int>>, list: seq<int>)
    requires list == Somes(column)
    ensures exists at :: Enumerates(at, column, list)
  {
    SomesOrder(column);
  }

  /** A `v/vt/vn` tuple with all three sub-indices present. */
  predicate CompleteTuple(tuple: string, parseInt: string -> int) {
    Slot(tuple, 0, parseInt).Some? && Slot(tuple, 1, parseInt).Some? && Slot(tuple, 2, parseInt).Some?
  }

  /** A face written with complete `v/vt/vn` tuples has the three index
      lists aligned: entry i of each comes from tuple i. */
  lemma CompleteTuplesAlign(argument: string, parseInt: string -> int)
    requires var tuples := SplitWhitespace(argument);
             forall i :: 0 <= i < |tuples| ==> CompleteTuple(tuples[i], parseInt)
    ensures var tuples, face := SplitWhitespace(argument), FaceOf(argument, parseInt);
            && face.Size() == |face.uvs| == |face.normals| == |tuples|
            && forall i :: 0 <= i < |tuples| ==>
                 && face.vertices[i] == Slot(tuples[i], 0, parseInt).value
                 && face.uvs[i] == Slot(tuples[i], 1, parseInt).value
                 && face.normals[i] == Slot(tuples[i], 2, parseInt).value
  {
    var tuples := SplitWhitespace(argument);
    CompleteColumns(tuples, parseInt);
  }

  /** The column form of `CompleteTuplesAlign`. */
  lemma CompleteColumns(tuples: seq<string>, parseInt: string -> int)
    requires forall i :: 0 <= i < |tuples| ==> CompleteTuple(tuples[i], parseInt)
    ensures forall k :: 0 <= k < 3 ==>
              && |Somes(SlotColumn(tuples, k, parseInt))| == |tuples|
              && forall i :: 0 <= i < |tuples| ==> Some(Somes(SlotColumn(tuples, k, parseInt))[i]) == Slot(tuples[i], k, parseInt)
  {
    forall k | 0 <= k < 3
      ensures && |Somes(SlotColumn(tuples, k, parseInt))| == |tuples|
              && forall i :: 0 <= i < |tuples| ==> Some(Somes(SlotColumn(tuples, k, parseInt))[i]) == Slot(tuples[i], k, parseInt)
    {
      SomesAll(SlotColumn(tuples, k, parseInt));
    }
  }

  /** The parser state as a value. */
  datatype Snapshot = Snapshot(
    vertices: seq<Vector>,
    normals: seq<Vector>,
    uvs: seq<Vector>,
    params: seq<Vector>,
    currentGroupName: string,
    currentFaces: seq<Face>,
    usedMaterials: map<string, Material>,
    groups: map<string, ObjGroup>)

  const Initial := Snapshot([], [], [], [], "", [], map[], map[])

  /** `startGroup(groupName)`: stores a copy of the collected faces under
      the current name when there are any (replacing an earlier group of
      that name), then switches to the new name with no faces. Nothing
      else changes. */
  function AfterStartGroup(s: Snapshot, groupName: string): (t: Snapshot)
    ensures t.currentGroupName == groupName && t.currentFaces == []
    ensures s.currentFaces != [] ==>
              && t.groups.Keys == s.groups.Keys + {s.currentGroupName}
              && t.groups[s.currentGroupName] == ObjGroup(s.currentGroupName, s.currentFaces)
    ensures s.currentFaces == [] ==> t.groups == s.groups
    ensures forall k :: k in s.groups && k != s.currentGroupName ==> k in t.groups && t.groups[k] == s.groups[k]
    ensures t.vertices == s.vertices && t.normals == s.normals && t.uvs == s.uvs && t.params == s.params
    ensures t.usedMaterials == s.usedMaterials
  {
    var groups := if s.currentFaces != [] then s.groups[s.currentGroupName := ObjGroup(s.currentGroupName, s.currentFaces)]
                  else s.groups;
    s.(groups := groups, currentGroupName := groupName, currentFaces := [])
  }

  /** The directives `parse` dispatches on; `Ignored` stands for skipped
      lines, `mtllib` and unknown directives. */
  datatype Kind = Group | VertexLine | NormalLine | UvLine | ParamLine | FaceLine | Ignored

  /** The branch of the `when` a directive selects. */
  function DirectiveKind(directive: string): Kind {
    if directive == "g" then Group
    else if directive == "v" then VertexLine
    else if directive == "vn" then NormalLine
    else if directive == "vt" then UvLine
    else if directive == "vp" then ParamLine
    else if directive == "f" then FaceLine
    else Ignored
  }

  function KindOf(line: string): Kind {
    if IsSkipped(line) then Ignored else DirectiveKind(SplitLine(line).directive)
  }

  function ArgumentOf(line: string): string {
    if IsSkipped(line) then "" else SplitLine(line).argument
  }

  /** What a line of the given kind with the given argument does to the
      state. */
  function Apply(s: Snapshot, kind: Kind, arg: string, num: NumberParsers): Snapshot {
    match kind
    case Group => AfterStartGroup(s, arg)
    case VertexLine => s.(vertices := s.vertices + [ParseVector(arg, 0.0, num)])
    case NormalLine => s.(normals := s.normals + [ParseVector(arg, 0.0, num)])
    case UvLine => s.(uvs := s.uvs + [ParseVector(arg, 0.0, num)])
    case ParamLine => s.(params := s.params + [ParseVector(arg, 1.0, num)])
    case FaceLine => s.(currentFaces := s.currentFaces + [FaceOf(arg, num.parseInt)])
    case Ignored => s
  }

  /** One line of the `forEach` in `parse`. A skipped line, `mtllib` (which
      only reads the material map) and an unknown directive leave the state
      as it is. */
  function Step(s: Snapshot, line: string, num: NumberParsers): Snapshot {
    Apply(s, KindOf(line), ArgumentOf(line), num)
  }

  /** What each kind of line does to each part of the state: `v`, `vn`,
      `vt` and `vp` append one vector to their own list, `f` appends one
      face to the group being collected, `g` starts a group, and nothing
      else changes anything. */
  lemma ApplyEffect(s: Snapshot, kind: Kind, arg: string, num: NumberParsers)
    ensures Apply(s, kind, arg, num).vertices
            == s.vertices + (if kind == VertexLine then [ParseVector(arg, 0.0, num)] else [])
    ensures Apply(s, kind, arg, num).normals
            == s.normals + (if kind == NormalLine then [ParseVector(arg, 0.0, num)] else [])
    ensures Apply(s, kind, arg, num).uvs
            == s.uvs + (if kind == UvLine then [ParseVector(arg, 0.0, num)] else [])
    ensures Apply(s, kind, arg, num).params
            == s.params + (if kind == ParamLine then [ParseVector(arg, 1.0, num)] else [])
    ensures Apply(s, kind, arg, num).usedMaterials == s.usedMaterials
    ensures kind != Group ==>
              && Apply(s, kind, arg, num).currentGroupName == s.currentGroupName
              && Apply(s, kind, arg, num).groups == s.groups
              && Apply(s, kind, arg, num).currentFaces
                 == s.currentFaces + (if kind == FaceLine then [FaceOf(arg, num.parseInt)] else [])
    ensures kind == Ignored ==> Apply(s, kind, arg, num) == s
  {
  }

  /** Blank lines, comments, `mtllib` and unknown directives leave the
      state exactly as it was. */
  lemma IgnoredLinesChangeNothing(s: Snapshot, line: string, num: NumberParsers)
    ensures IsSkipped(line) ==> Step(s, line, num) == s
    ensures !IsSkipped(line) && SplitLine(line).directive !in {"g", "v", "vn", "vt", "vp", "f"} ==> Step(s, line, num) == s
  {
    ApplyEffect(s, KindOf(line), ArgumentOf(line), num);
  }

  /** The state after the given lines. */
  function Run(s: Snapshot, lines: seq<string>, num: NumberParsers): Snapshot {
    if lines == [] then s
    else Step(Run(s, lines[..|lines| - 1], num), lines[|lines| - 1], num)
  }

  /** The end of `parse`: flush the group being collected and pack the
      result; `root` is the group stored under the empty name. */
  function Finish(s: Snapshot): ObjModel {
    var t := AfterStartGroup(s, s.currentGroupName);
    ObjModel(t.usedMaterials, if "" in t.groups then Some(t.groups[""]) else None, t.groups,
             t.vertices, t.normals, t.uvs, t.params)
  }

  /** `parse(lines, allMaterials)` as a function of the lines. */
  function ParseLines(lines: seq<string>, allMaterials: map<string, Material>, num: NumberParsers): ObjModel {
    Finish(Run(Initial, lines, num))
  }

  /** `ParserState`: the mutable accumulator of `parse`. */
  class ParserState {
    var vertices: seq<Vector>
    var normals: seq<Vector>
    var uvs: seq<Vector>
    var params: seq<Vector>
    var currentGroupName: string
    var currentFaces: seq<Face>
    var usedMaterials: map<string, Material>
    var groups: map<string, ObjGroup>

    function Value(): Snapshot
      reads this
    {
      Snapshot(vertices, normals, uvs, params, currentGroupName, currentFaces, usedMaterials, groups)
    }

    constructor ()
      ensures Value() == Initial
    {
      vertices, normals, uvs, params := [], [], [], [];
      currentGroupName, currentFaces := "", [];
      usedMaterials, groups := map[], map[];
    }

    /** `ParserState.startGroup(groupName)` */
    method StartGroup(groupName: string)
      modifies this
      ensures Value() == AfterStartGroup(old(Value()), groupName)
    {
      if currentFaces != [] {
        groups := groups[currentGroupName := ObjGroup(currentGroupName, currentFaces)];
      }
      currentGroupName := groupName;
      currentFaces := [];
    }
  }

  /** The body of the `forEach` in `parse`: the filter, the split into
      directive and argument, and the dispatch on the directive. */
  method ProcessLine(state: ParserState, line: string, num: NumberParsers)
    modifies state
    ensures state.Value() == Step(old(state.Value()), line, num)
  {
    if !IsSkipped(line) {
      var d := SplitLine(line);
      Dispatch(state, d.directive, d.argument, num);
    }
  }

  /** The `when (start)` of `parse`. `mtllib` reads the material map and
      discards the result, and an unknown directive is reported on the
      console; neither changes the state. */
  method Dispatch(state: ParserState, start: string, remaining: string, num: NumberParsers)
    modifies state
    ensures state.Value() == Apply(old(state.Value()), DirectiveKind(start), remaining, num)
  {
    ghost var before := state.Value();
    if start == "mtllib" {
      // `state.usedMaterials[remaining]` reads the map and discards the result
    } else if start == "g" {
      state.StartGroup(remaining);
    } else if start == "v" {
      state.vertices := state.vertices + [ParseVector(remaining, 0.0, num)];
      assert state.Value() == Apply(before, VertexLine, remaining, num);
    } else if start == "vn" {
      state.normals := state.normals + [ParseVector(remaining, 0.0, num)];
      assert state.Value() == Apply(before, NormalLine, remaining, num);
    } else if start == "vt" {
      state.uvs := state.uvs + [ParseVector(remaining, 0.0, num)];
      assert state.Value() == Apply(before, UvLine, remaining, num);
    } else if start == "vp" {
      state.params := state.params + [ParseVector(remaining, 1.0, num)];
      assert state.Value() == Apply(before, ParamLine, remaining, num);
    } else if start == "f" {
      var face := ParseFace(remaining, num.parseInt);
      state.currentFaces := state.currentFaces + [face];
      assert state.Value() == Apply(before, FaceLine, remaining, num);
    }
  }

  /** `parse(lines, allMaterials)`. `allMaterials` is never read. */
  method Parse(lines: seq<string>, allMaterials: map<string, Material>, num: NumberParsers) returns (model: ObjModel)
    ensures model == ParseLines(lines, allMaterials, num)
  {
    var state := new ParserState();
    var i := 0;
    while i < |lines|
      invariant 0 <= i <= |lines|
      invariant state.Value() == Run(Initial, lines[..i], num)
    {
      ProcessLine(state, lines[i], num);
      assert lines[..i + 1][..i] == lines[..i];
      i := i + 1;
    }
    assert lines[..i] == lines;
    state.StartGroup(state.currentGroupName);
    model := ObjModel(state.usedMaterials, if "" in state.groups then Some(state.groups[""]) else None,
                      state.groups, state.vertices, state.normals, state.uvs, state.params);
  }
}

/** What the parser does over whole files. */
module ObjParserProperties {
  import opened Outcomes
  import opened Text
  import opened Vectors
  import opened ObjParser

  /** The lines that change the parser state, in order. */
  function EffectiveLines(lines: seq<string>): seq<string> {
    if lines == [] then []
    else EffectiveLines(lines[..|lines| - 1]) + (if KindOf(lines[|lines| - 1]) != Ignored then [lines[|lines| - 1]] else [])
  }

  /** The vectors declared by the lines with the given directive, in order. */
  function Declared(lines: seq<string>, kind: Kind, default: real, num: NumberParsers): seq<Vector> {
    if lines == [] then []
    else
      var last := lines[|lines| - 1];
      Declared(lines[..|lines| - 1], kind, default, num)
        + (if KindOf(last) == kind then [ParseVector(ArgumentOf(last), default, num)] else [])
  }

  /** The faces declared by the `f` lines, in order. */
  function Faces(lines: seq<string>, num: NumberParsers): seq<Face> {
    if lines == [] then []
    else
      var last := lines[|lines| - 1];
      Faces(lines[..|lines| - 1], num) + (if KindOf(last) == FaceLine then [FaceOf(ArgumentOf(last), num.parseInt)] else [])
  }

  predicate NoGroupLines(lines: seq<string>) {
    forall i :: 0 <= i < |lines| ==> KindOf(lines[i]) != Group
  }

  lemma RunAppend(s: Snapshot, lines: seq<string>, line: string, num: NumberParsers)
    ensures Run(s, lines + [line], num) == Step(Run(s, lines, num), line, num)
  {
    assert (lines + [line])[..|lines|] == lines;
  }

  /** Running two pieces of a file one after the other is running the
      whole file. */
  lemma {:induction false} RunConcat(s: Snapshot, a: seq<string>, b: seq<string>, num: NumberParsers)
    ensures Run(s, a + b, num) == Run(Run(s, a, num), b, num)
  {
    if b == [] {
      assert a + b == a;
    } else {
      var init, last := b[..|b| - 1], b[|b| - 1];
      assert a + b == (a + init) + [last];
      calc {
        Run(s, a + b, num);
        { RunAppend(s, a + init, last, num); }
        Step(Run(s, a + init, num), last, num);
        { RunConcat(s, a, init, num); }
        Step(Run(Run(s, a, num), init, num), last, num);
        Run(Run(s, a, num), b, num);
      }
    }
  }

  /** Blank lines, comments, `mtllib` and unknown directives can be removed
      from a file without changing the parser state. */
  lemma {:induction false} OnlyEffectiveLinesMatter(s: Snapshot, lines: seq<string>, num: NumberParsers)
    ensures Run(s, lines, num) == Run(s, EffectiveLines(lines), num)
  {
    if lines != [] {
      var init, last := lines[..|lines| - 1], lines[|lines| - 1];
      OnlyEffectiveLinesMatter(s, init, num);
      ApplyEffect(Run(s, init, num), KindOf(last), ArgumentOf(last), num);
      if KindOf(last) == Ignored {
        assert EffectiveLines(lines) == EffectiveLines(init) + [];
        assert EffectiveLines(init) + [] == EffectiveLines(init);
      } else {
        assert EffectiveLines(lines) == EffectiveLines(init) + [last];
        RunAppend(s, EffectiveLines(init), last, num);
      }
    }
  }

  /** Each `v`, `vn`, `vt` and `vp` line appends exactly one vector to its
      list, so the lists follow line order; `vp` pads with 1.0, the others
      with 0.0. */
  lemma {:induction false} AttributeListsFollowLines(s: Snapshot, lines: seq<string>, num: NumberParsers)
    ensures Run(s, lines, num).vertices == s.vertices + Declared(lines, VertexLine, 0.0, num)
    ensures Run(s, lines, num).normals == s.normals + Declared(lines, NormalLine, 0.0, num)
    ensures Run(s, lines, num).uvs == s.uvs + Declared(lines, UvLine, 0.0, num)
    ensures Run(s, lines, num).params == s.params + Declared(lines, ParamLine, 1.0, num)
  {
    if lines == [] {
      assert s.vertices + [] == s.vertices && s.normals + [] == s.normals;
      assert s.uvs + [] == s.uvs && s.params + [] == s.params;
    } else {
      var init, last := lines[..|lines| - 1], lines[|lines| - 1];
      AttributeListsFollowLines(s, init, num);
      ApplyEffect(Run(s, init, num), KindOf(last), ArgumentOf(last), num);
      AppendAssociates(s.vertices, Declared(init, VertexLine, 0.0, num),
                       if KindOf(last) == VertexLine then [ParseVector(ArgumentOf(last), 0.0, num)] else []);
      AppendAssociates(s.normals, Declared(init, NormalLine, 0.0, num),
                       if KindOf(last) == NormalLine then [ParseVector(ArgumentOf(last), 0.0, num)] else []);
      AppendAssociates(s.uvs, Declared(init, UvLine, 0.0, num),
                       if KindOf(last) == UvLine then [ParseVector(ArgumentOf(last), 0.0, num)] else []);
      AppendAssociates(s.params, Declared(init, ParamLine, 1.0, num),
                       if KindOf(last) == ParamLine then [ParseVector(ArgumentOf(last), 1.0, num)] else []);
    }
  }

  lemma AppendAssociates<T>(a: seq<T>, b: seq<T>, c: seq<T>)
    ensures a + b + c == a + (b + c)
  {
  }

  /** The attribute lists of a parsed file are the vectors of its `v`,
      `vn`, `vt` and `vp` lines, in line order. */
  lemma ParsedAttributes(lines: seq<string>, allMaterials: map<string, Material>, num: NumberParsers)
    ensures ParseLines(lines, allMaterials, num).vertices == Declared(lines, VertexLine, 0.0, num)
    ensures ParseLines(lines, allMaterials, num).normals == Declared(lines, NormalLine, 0.0, num)
    ensures ParseLines(lines, allMaterials, num).uvs == Declared(lines, UvLine, 0.0, num)
    ensures ParseLines(lines, allMaterials, num).params == Declared(lines, ParamLine, 1.0, num)
  {
    AttributeListsFollowLines(Initial, lines, num);
  }

  /** No line records a material. */
  lemma {:induction false} MaterialsUnchanged(s: Snapshot, lines: seq<string>, num: NumberParsers)
    ensures Run(s, lines, num).usedMaterials == s.usedMaterials
  {
    if lines != [] {
      var init, last := lines[..|lines| - 1], lines[|lines| - 1];
      MaterialsUnchanged(s, init, num);
      ApplyEffect(Run(s, init, num), KindOf(last), ArgumentOf(last), num);
    }
  }

  /** `mtllib` never records anything: the material map of the result is
      always empty, whatever `allMaterials` holds. */
  lemma MaterialsAlwaysEmpty(lines: seq<string>, allMaterials: map<string, Material>, num: NumberParsers)
    ensures ParseLines(lines, allMaterials, num).materials == map[]
  {
    MaterialsUnchanged(Initial, lines, num);
  }

  predicate GroupsWellFormed(groups: map<string, ObjGroup>) {
    forall name :: name in groups ==> groups[name].name == name && groups[name].faces != []
  }

  /** Every stored group carries its own key as its name and at least one
      face. */
  lemma {:induction false} StoredGroupsWellFormed(s: Snapshot, lines: seq<string>, num: NumberParsers)
    requires GroupsWellFormed(s.groups)
    ensures GroupsWellFormed(Run(s, lines, num).groups)
  {
    if lines != [] {
      var init, last := lines[..|lines| - 1], lines[|lines| - 1];
      StoredGroupsWellFormed(s, init, num);
      StepKeepsGroupsWellFormed(Run(s, init, num), KindOf(last), ArgumentOf(last), num);
    }
  }

  lemma StepKeepsGroupsWellFormed(s: Snapshot, kind: Kind, arg: string, num: NumberParsers)
    requires GroupsWellFormed(s.groups)
    ensures GroupsWellFormed(Apply(s, kind, arg, num).groups)
  {
    if kind != Group {
      ApplyEffect(s, kind, arg, num);
    }
  }

  /** `root` is the group stored under the empty name: present exactly when
      faces were collected under that name, and then non-empty. */
  lemma RootIsEmptyNameGroup(lines: seq<string>, allMaterials: map<string, Material>, num: NumberParsers)
    ensures var m := ParseLines(lines, allMaterials, num);
            && GroupsWellFormed(m.groups)
            && (m.root.Some? <==> "" in m.groups)
            && (m.root.Some? ==> m.root.value == m.groups[""] && m.root.value.name == "" && m.root.value.faces != [])
  {
    StoredGroupsWellFormed(Initial, lines, num);
  }

  /** Lines without a `g` declaration add their faces to the group being
      collected and leave the group name and the stored groups alone. */
  lemma {:induction false} FacesCollectInCurrentGroup(s: Snapshot, body: seq<string>, num: NumberParsers)
    requires NoGroupLines(body)
    ensures Run(s, body, num).currentGroupName == s.currentGroupName
    ensures Run(s, body, num).currentFaces == s.currentFaces + Faces(body, num)
    ensures Run(s, body, num).groups == s.groups
  {
    if body == [] {
      assert s.currentFaces + Faces(body, num) == s.currentFaces;
    } else {
      var init, last := body[..|body| - 1], body[|body| - 1];
      NoGroupLinesPrefix(body);
      FacesCollectInCurrentGroup(s, init, num);
      ApplyEffect(Run(s, init, num), KindOf(last), ArgumentOf(last), num);
      AppendAssociates(s.currentFaces, Faces(init, num),
                       if KindOf(last) == FaceLine then [FaceOf(ArgumentOf(last), num.parseInt)] else []);
    }
  }

  lemma NoGroupLinesPrefix(lines: seq<string>)
    requires lines != [] && NoGroupLines(lines)
    ensures NoGroupLines(lines[..|lines| - 1]) && KindOf(lines[|lines| - 1]) != Group
  {
    var init := lines[..|lines| - 1];
    forall i | 0 <= i < |init| ensures KindOf(init[i]) != Group {
      assert init[i] == lines[i];
    }
  }

  /** A file without `g` lines puts all its faces in the root group, and
      has no group at all when it has no faces. */
  lemma UngroupedFileIsRoot(lines: seq<string>, allMaterials: map<string, Material>, num: NumberParsers)
    requires NoGroupLines(lines)
    ensures var m, faces := ParseLines(lines, allMaterials, num), Faces(lines, num);
            && (faces == [] ==> m.groups == map[] && m.root == None)
            && (faces != [] ==> m.groups == map["" := ObjGroup("", faces)] && m.root == Some(ObjGroup("", faces)))
  {
    var t, faces := Run(Initial, lines, num), Faces(lines, num);
    FacesCollectInCurrentGroup(Initial, lines, num);
    assert t.currentGroupName == "" && t.groups == map[];
    assert t.currentFaces == faces;
    var u := AfterStartGroup(t, "");
    if faces != [] {
      assert u.groups == map["" := ObjGroup("", faces)];
    } else {
      assert u.groups == map[];
    }
  }

  /** The group declared by the last `g` line holds exactly the faces of
      the lines after it; an earlier group of the same name is replaced. */
  lemma LastGroupHoldsFollowingFaces(prefix: seq<string>, groupLine: string, body: seq<string>,
                                     allMaterials: map<string, Material>, num: NumberParsers)
    requires KindOf(groupLine) == Group && NoGroupLines(body)
    requires Faces(body, num) != []
    ensures var m, name := ParseLines(prefix + [groupLine] + body, allMaterials, num), ArgumentOf(groupLine);
            name in m.groups && m.groups[name] == ObjGroup(name, Faces(body, num))
  {
    var name := ArgumentOf(groupLine);
    var started := Run(Initial, prefix + [groupLine], num);
    RunAppend(Initial, prefix, groupLine, num);
    assert started == AfterStartGroup(Run(Initial, prefix, num), name);
    assert started.currentGroupName == name && started.currentFaces == [];
    var t := Run(started, body, num);
    RunConcat(Initial, prefix + [groupLine], body, num);
    assert Run(Initial, prefix + [groupLine] + body, num) == t;
    FacesCollectInCurrentGroup(started, body, num);
    assert [] + Faces(body, num) == Faces(body, num);
    assert t.currentGroupName == name && t.currentFaces == Faces(body, num);
    assert AfterStartGroup(t, name).groups[name] == ObjGroup(name, Faces(body, num));
  }
}
