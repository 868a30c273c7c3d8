/** The OBJ mesh loader: the constructor of class `Obj` reads the file line by
    line and dispatches on the first word. `v` adds a vertex, `vt` a texture
    coordinate, `f` a triangle whose corners are 1-based `v/vt` index pairs
    into what has been read so far, and anything else aborts the load.

    The file arrives as a sequence of lines, each already split at white
    space. The loader reads each line with `>>` extractions. An extraction
    that finds nothing leaves the previous word in place (`Word`), so a short
    line re-reads its last token. `std::stof` is the parameter `pf`, opaque
    here. `std::stoi` is `Decimal.Stoi`. */
module ObjLoader {
  import opened Wrappers
  import opened Ints
  import opened Decimal
  import opened Geometry
  import opened Mesh

  /** One line of the file, already split at white space. */
  type Line = seq<string>

  /** `std::stof`; `None` stands for the exception it throws. */
  type FloatParser = string -> Option<real>

  /** What can abort a load. The C++ code throws a string literal for the first
      and standard exceptions for the others; the model keeps them apart. */
  datatype LoadError =
    | InvalidObjFile
    | InvalidFloat(token: string)
    | InvalidInteger(segment: string)
    | IndexOutOfRange

  datatype Rotation = Rotation(x: real, y: real, z: real)

  /** The loader's state: the colour callback given to the constructor, the
      three lists it accumulates, and the placement set afterwards. */
  datatype Obj<M> = Obj(
    material: M,
    vertices: seq<Point>,
    textures: seq<TexCoord>,
    triangles: seq<TextureTriangle<M>>,
    displacement: Point,
    rotation: Rotation)

  /** The object before its first line: empty lists, no displacement, no rotation. */
  function Fresh<M>(material: M): Obj<M> {
    Obj(material, [], [], [], Origin, Rotation(0.0, 0.0, 0.0))
  }

  /** The word held after the k-th `>>` extraction of a line (k = 0 reads the
      keyword). Past the end of the line the last token read stays in place;
      on an empty line the word stays the empty string it started as. */
  function Word(line: Line, k: nat): string {
    if k < |line| then line[k] else if |line| == 0 then "" else line[|line| - 1]
  }

  function Keyword(line: Line): string {
    Word(line, 0)
  }

  predicate IsKeyword(w: string) {
    w == "v" || w == "vt" || w == "f"
  }

  /** How many words after the keyword a line of that kind reads. */
  function Arity(w: string): nat {
    if w == "v" || w == "f" then 3 else if w == "vt" then 2 else 0
  }

  function ParseFloat(pf: FloatParser, token: string): Result<real, LoadError> {
    match pf(token)
    case None => Err(InvalidFloat(token))
    case Some(x) => Ok(x)
  }

  /** The three coordinates of a `v` line, converted left to right. */
  function ParseVertex(line: Line, pf: FloatParser): (r: Result<Point, LoadError>)
    ensures r.Ok? <==> pf(Word(line, 1)).Some? && pf(Word(line, 2)).Some? && pf(Word(line, 3)).Some?
    ensures r.Ok? ==> r.value == Point(pf(Word(line, 1)).value, pf(Word(line, 2)).value, pf(Word(line, 3)).value)
    ensures r.Err? ==> r.error.InvalidFloat?
  {
    match ParseFloat(pf, Word(line, 1))
    case Err(e) => Err(e)
    case Ok(x) =>
      match ParseFloat(pf, Word(line, 2))
      case Err(e) => Err(e)
      case Ok(y) =>
        match ParseFloat(pf, Word(line, 3))
        case Err(e) => Err(e)
        case Ok(z) => Ok(Point(x, y, z))
  }

  /** The two coordinates of a `vt` line. */
  function ParseTexCoord(line: Line, pf: FloatParser): (r: Result<TexCoord, LoadError>)
    ensures r.Ok? <==> pf(Word(line, 1)).Some? && pf(Word(line, 2)).Some?
    ensures r.Ok? ==> r.value == TexCoord(pf(Word(line, 1)).value, pf(Word(line, 2)).value)
    ensures r.Err? ==> r.error.InvalidFloat?
  {
    match ParseFloat(pf, Word(line, 1))
    case Err(e) => Err(e)
    case Ok(u) =>
      match ParseFloat(pf, Word(line, 2))
      case Err(e) => Err(e)
      case Ok(v) => Ok(TexCoord(u, v))
  }

  /** One corner of a face: a 1-based vertex index and a 1-based texture index. */
  datatype FaceRef = FaceRef(vertex: Int32, texture: Int32)

  datatype Face = Face(a: FaceRef, b: FaceRef, c: FaceRef)

  function Corners(f: Face): seq<FaceRef> {
    [f.a, f.b, f.c]
  }

  /** Position of the first `/`, or the length when there is none. */
  function FirstSlash(s: string): (r: nat)
    ensures r <= |s|
    ensures forall i | 0 <= i < r :: s[i] != '/'
    ensures r < |s| ==> s[r] == '/'
  {
    if |s| == 0 || s[0] == '/' then 0 else 1 + FirstSlash(s[1..])
  }

  /** What the first `getline(ss, segment, '/')` of `Obj::split` reads. */
  function FirstSegment(token: string): string {
    token[..FirstSlash(token)]
  }

  /** What `segment` holds after the second `getline`: the text between the
      first and the second `/`. When the token has no `/` the second read
      fails and the segment keeps the whole token. */
  function SecondSegment(token: string): string {
    var p := FirstSlash(token);
    if p == |token| then token
    else
      var rest := token[p + 1..];
      rest[..FirstSlash(rest)]
  }

  /** `Obj::split`: the integers of the first two `/`-separated segments. */
  function Split(token: string): (r: Result<FaceRef, LoadError>)
    ensures r.Ok? <==> Stoi(FirstSegment(token)).Some? && Stoi(SecondSegment(token)).Some?
    ensures r.Ok? ==> Stoi(FirstSegment(token)) == Some(r.value.vertex)
                      && Stoi(SecondSegment(token)) == Some(r.value.texture)
    ensures r.Ok? && FirstSlash(token) == |token| ==> r.value.texture == r.value.vertex
    ensures r.Err? ==> r.error.InvalidInteger?
  {
    var first := FirstSegment(token);
    var second := SecondSegment(token);
    assert FirstSlash(token) == |token| ==> second == first;
    match Stoi(first)
    case None => Err(InvalidInteger(first))
    case Some(v) =>
      match Stoi(second)
      case None => Err(InvalidInteger(second))
      case Some(t) => Ok(FaceRef(v, t))
  }

  /** The three corners of an `f` line; any further words are not read. */
  function ParseFace(line: Line): (r: Result<Face, LoadError>)
    ensures r.Ok? <==> Split(Word(line, 1)).Ok? && Split(Word(line, 2)).Ok? && Split(Word(line, 3)).Ok?
    ensures r.Ok? ==> r.value == Face(Split(Word(line, 1)).value, Split(Word(line, 2)).value, Split(Word(line, 3)).value)
    ensures r.Err? ==> r.error.InvalidInteger?
  {
    match Split(Word(line, 1))
    case Err(e) => Err(e)
    case Ok(a) =>
      match Split(Word(line, 2))
      case Err(e) => Err(e)
      case Ok(b) =>
        match Split(Word(line, 3))
        case Err(e) => Err(e)
        case Ok(c) => Ok(Face(a, b, c))
  }

  /** Whether both `.at(i - 1)` lookups of a corner succeed. */
  predicate Resolvable<M>(o: Obj<M>, r: FaceRef) {
    1 <= r.vertex <= |o.vertices| && 1 <= r.texture <= |o.textures|
  }

  function Corner<M>(o: Obj<M>, r: FaceRef): TriangleVertex
    requires Resolvable(o, r)
  {
    TriangleVertex(o.vertices[r.vertex - 1], o.textures[r.texture - 1])
  }

  /** One iteration of the constructor's loop. */
  function Step<M>(o: Obj<M>, line: Line, pf: FloatParser): (r: Result<Obj<M>, LoadError>)
    ensures !IsKeyword(Keyword(line)) ==> r == Err(InvalidObjFile)
    ensures Keyword(line) == "v" ==>
              && (r.Ok? <==> ParseVertex(line, pf).Ok?)
              && (r.Ok? ==> r.value == o.(vertices := o.vertices + [ParseVertex(line, pf).value]))
    ensures Keyword(line) == "vt" ==>
              && (r.Ok? <==> ParseTexCoord(line, pf).Ok?)
              && (r.Ok? ==> r.value == o.(textures := o.textures + [ParseTexCoord(line, pf).value]))
    ensures Keyword(line) == "f" ==>
              && (r.Ok? <==> && ParseFace(line).Ok?
                             && Resolvable(o, ParseFace(line).value.a)
                             && Resolvable(o, ParseFace(line).value.b)
                             && Resolvable(o, ParseFace(line).value.c))
              && (r.Ok? ==> var f := ParseFace(line).value;
                            r.value == o.(triangles := o.triangles + [TextureTriangle(Corner(o, f.a), Corner(o, f.b), Corner(o, f.c), o.material)]))
              && (ParseFace(line).Ok? && r.Err? ==> r.error == IndexOutOfRange)
  {
    var w := Keyword(line);
    if w == "v" then
      match ParseVertex(line, pf)
      case Err(e) => Err(e)
      case Ok(p) => Ok(o.(vertices := o.vertices + [p]))
    else if w == "vt" then
      match ParseTexCoord(line, pf)
      case Err(e) => Err(e)
      case Ok(t) => Ok(o.(textures := o.textures + [t]))
    else if w == "f" then
      match ParseFace(line)
      case Err(e) => Err(e)
      case Ok(f) =>
        if Resolvable(o, f.a) && Resolvable(o, f.b) && Resolvable(o, f.c) then
          Ok(o.(triangles := o.triangles + [TextureTriangle(Corner(o, f.a), Corner(o, f.b), Corner(o, f.c), o.material)]))
        else
          Err(IndexOutOfRange)
    else
      Err(InvalidObjFile)
  }

  /** The constructor's loop as a left fold: the first failing line aborts. */
  function Run<M>(o: Obj<M>, lines: seq<Line>, pf: FloatParser): Result<Obj<M>, LoadError>
    decreases |lines|
  {
    if |lines| == 0 then Ok(o)
    else
      match Run(o, lines[..|lines| - 1], pf)
      case Err(e) => Err(e)
      case Ok(p) => Step(p, lines[|lines| - 1], pf)
  }

  /** `Obj(path, colorFunction)` on a file with the given lines. */
  function Load<M>(lines: seq<Line>, pf: FloatParser, material: M): Result<Obj<M>, LoadError> {
    Run(Fresh(material), lines, pf)
  }

  /** The constructor's loop, line by line, stopping at the first throw. */
  method LoadObj<M>(lines: seq<Line>, pf: FloatParser, material: M) returns (r: Result<Obj<M>, LoadError>)
    ensures r == Load(lines, pf, material)
  {
    var obj := Fresh(material);
    var k := 0;
    while k < |lines|
      invariant 0 <= k <= |lines|
      invariant Run(Fresh(material), lines[..k], pf) == Ok(obj)
    {
      assert lines[..k + 1][..k] == lines[..k];
      var step := Step(obj, lines[k], pf);
      if step.Err? {
        RunKeepsError(Fresh(material), lines, k + 1, pf);
        return step;
      }
      obj := step.value;
      k := k + 1;
    }
    assert lines[..k] == lines;
    return Ok(obj);
  }

  /** Once a prefix of the file fails, the whole file fails with the same error. */
  lemma {:induction false} RunKeepsError<M>(o: Obj<M>, lines: seq<Line>, n: nat, pf: FloatParser)
    requires n <= |lines|
    requires Run(o, lines[..n], pf).Err?
    ensures Run(o, lines, pf) == Run(o, lines[..n], pf)
    decreases |lines|
  {
    if n == |lines| {
      assert lines[..n] == lines;
    } else {
      var init := lines[..|lines| - 1];
      assert init[..n] == lines[..n];
      RunKeepsError(o, init, n, pf);
    }
  }

  /** Number of lines whose keyword is `w`. */
  function Count(lines: seq<Line>, w: string): nat {
    if |lines| == 0 then 0
    else Count(lines[..|lines| - 1], w) + (if Keyword(lines[|lines| - 1]) == w then 1 else 0)
  }

  /** Every `v` line adds exactly one vertex, every `vt` line one texture
      coordinate, every `f` line one triangle; the callback and the placement
      are those the fold started from. */
  lemma {:induction false} RunCounts<M>(o: Obj<M>, lines: seq<Line>, pf: FloatParser)
    requires Run(o, lines, pf).Ok?
    ensures var p := Run(o, lines, pf).value;
            && |p.vertices| == |o.vertices| + Count(lines, "v")
            && |p.textures| == |o.textures| + Count(lines, "vt")
            && |p.triangles| == |o.triangles| + Count(lines, "f")
            && p.material == o.material
            && p.displacement == o.displacement
            && p.rotation == o.rotation
    decreases |lines|
  {
    if |lines| > 0 {
      RunCounts(o, lines[..|lines| - 1], pf);
    }
  }

  /** A loaded object holds one vertex per `v` line, one texture coordinate
      per `vt` line and one triangle per `f` line, with no displacement and
      no rotation yet. */
  lemma LoadCounts<M>(lines: seq<Line>, pf: FloatParser, material: M)
    requires Load(lines, pf, material).Ok?
    ensures var o := Load(lines, pf, material).value;
            && |o.vertices| == Count(lines, "v")
            && |o.textures| == Count(lines, "vt")
            && |o.triangles| == Count(lines, "f")
            && o.material == material
            && o.displacement == Origin
            && o.rotation == Rotation(0.0, 0.0, 0.0)
  {
    RunCounts(Fresh(material), lines, pf);
  }

  /** The point a `v` line adds; nothing for any other line. */
  function NewVertex(line: Line, pf: FloatParser): seq<Point> {
    if Keyword(line) == "v" && ParseVertex(line, pf).Ok? then [ParseVertex(line, pf).value] else []
  }

  /** The coordinate a `vt` line adds; nothing for any other line. */
  function NewTexCoord(line: Line, pf: FloatParser): seq<TexCoord> {
    if Keyword(line) == "vt" && ParseTexCoord(line, pf).Ok? then [ParseTexCoord(line, pf).value] else []
  }

  /** Reference for the vertex list: the points of the `v` lines, in file order. */
  function VertexLines(lines: seq<Line>, pf: FloatParser): seq<Point> {
    if |lines| == 0 then []
    else VertexLines(lines[..|lines| - 1], pf) + NewVertex(lines[|lines| - 1], pf)
  }

  /** Reference for the texture list: the coordinates of the `vt` lines, in file order. */
  function TexCoordLines(lines: seq<Line>, pf: FloatParser): seq<TexCoord> {
    if |lines| == 0 then []
    else TexCoordLines(lines[..|lines| - 1], pf) + NewTexCoord(lines[|lines| - 1], pf)
  }

  /** A successful step adds exactly the line's own vertex or texture coordinate. */
  lemma StepLists<M>(o: Obj<M>, line: Line, pf: FloatParser)
    requires Step(o, line, pf).Ok?
    ensures Step(o, line, pf).value.vertices == o.vertices + NewVertex(line, pf)
    ensures Step(o, line, pf).value.textures == o.textures + NewTexCoord(line, pf)
  {
  }

  lemma {:induction false} RunLists<M>(o: Obj<M>, lines: seq<Line>, pf: FloatParser)
    requires Run(o, lines, pf).Ok?
    ensures Run(o, lines, pf).value.vertices == o.vertices + VertexLines(lines, pf)
    ensures Run(o, lines, pf).value.textures == o.textures + TexCoordLines(lines, pf)
    decreases |lines|
  {
    if |lines| > 0 {
      var init := lines[..|lines| - 1];
      var last := lines[|lines| - 1];
      RunLists(o, init, pf);
      var p := Run(o, init, pf).value;
      assert Run(o, lines, pf) == Step(p, last, pf);
      StepLists(p, last, pf);
    }
  }

  /** The vertex and texture lists of a loaded object are exactly the `v` and
      `vt` lines of the file, in order, whatever lines are interleaved. */
  lemma LoadLists<M>(lines: seq<Line>, pf: FloatParser, material: M)
    requires Load(lines, pf, material).Ok?
    ensures Load(lines, pf, material).value.vertices == VertexLines(lines, pf)
    ensures Load(lines, pf, material).value.textures == TexCoordLines(lines, pf)
  {
    RunLists(Fresh(material), lines, pf);
  }
  /** The triangle an `f` line adds to `o`, if its corners resolve; no
      triangle for any other line. */
  function NewTriangle<M>(o: Obj<M>, line: Line): seq<TextureTriangle<M>> {
    if && Keyword(line) == "f" && ParseFace(line).Ok?
       && Resolvable(o, ParseFace(line).value.a)
       && Resolvable(o, ParseFace(line).value.b)
       && Resolvable(o, ParseFace(line).value.c)
    then
      var f := ParseFace(line).value;
      [TextureTriangle(Corner(o, f.a), Corner(o, f.b), Corner(o, f.c), o.material)]
    else []
  }

  /** Reference for the triangle list: each `f` line whose corners resolve
      against the vertices and texture coordinates that `o` and the earlier
      `v` and `vt` lines provide gives one triangle carrying `o`'s callback. */
  function FaceLines<M>(o: Obj<M>, lines: seq<Line>, pf: FloatParser): seq<TextureTriangle<M>> {
    if |lines| == 0 then []
    else
      var init := lines[..|lines| - 1];
      FaceLines(o, init, pf)
      + NewTriangle(o.(vertices := o.vertices + VertexLines(init, pf), textures := o.textures + TexCoordLines(init, pf)),
                    lines[|lines| - 1])
  }

  /** A successful step adds exactly the line's new triangle. */
  lemma StepTriangles<M>(o: Obj<M>, line: Line, pf: FloatParser)
    requires Step(o, line, pf).Ok?
    ensures Step(o, line, pf).value.triangles == o.triangles + NewTriangle(o, line)
  {
  }

  /** The new triangle depends only on the lists and the callback. */
  lemma NewTriangleOfLists<M>(o: Obj<M>, p: Obj<M>, line: Line)
    requires o.vertices == p.vertices && o.textures == p.textures && o.material == p.material
    ensures NewTriangle(o, line) == NewTriangle(p, line)
  {
    if Keyword(line) == "f" && ParseFace(line).Ok? {
      var f := ParseFace(line).value;
      assert Resolvable(o, f.a) == Resolvable(p, f.a);
      assert Resolvable(o, f.b) == Resolvable(p, f.b);
      assert Resolvable(o, f.c) == Resolvable(p, f.c);
    }
  }

  lemma {:induction false} RunFaces<M>(o: Obj<M>, lines: seq<Line>, pf: FloatParser)
    requires Run(o, lines, pf).Ok?
    ensures Run(o, lines, pf).value.triangles == o.triangles + FaceLines(o, lines, pf)
    decreases |lines|
  {
    if |lines| > 0 {
      var init := lines[..|lines| - 1];
      var last := lines[|lines| - 1];
      RunFaces(o, init, pf);
      RunLists(o, init, pf);
      RunCounts(o, init, pf);
      var p := Run(o, init, pf).value;
      var seen := o.(vertices := o.vertices + VertexLines(init, pf), textures := o.textures + TexCoordLines(init, pf));
      StepTriangles(p, last, pf);
      NewTriangleOfLists(p, seen, last);
      assert Run(o, lines, pf) == Step(p, last, pf);
      assert FaceLines(o, lines, pf) == FaceLines(o, init, pf) + NewTriangle(seen, last);
    }
  }

  /** The triangle list of a loaded object is exactly the `f` lines of the
      file, each resolved against the `v` and `vt` lines before it. */
  lemma LoadFaces<M>(lines: seq<Line>, pf: FloatParser, material: M)
    requires Load(lines, pf, material).Ok?
    ensures Load(lines, pf, material).value.triangles == FaceLines(Fresh(material), lines, pf)
  {
    RunFaces(Fresh(material), lines, pf);
  }


  /** A line whose keyword is not exactly `v`, `vt` or `f` (a blank line, a
      `#` comment, a `vn` normal) makes the whole load fail. */
  lemma InvalidLineFails<M>(lines: seq<Line>, k: nat, pf: FloatParser, material: M)
    requires k < |lines|
    requires !IsKeyword(Keyword(lines[k]))
    ensures Load(lines, pf, material).Err?
  {
    LineFails(Fresh(material), lines, k, pf);
  }

  /** A face corner whose vertex index is 0, negative, or larger than the
      number of `v` lines before it makes the load fail: indices are 1-based
      and only earlier lines can be referenced. */
  lemma UnresolvedVertexFails<M>(lines: seq<Line>, k: nat, j: nat, pf: FloatParser, material: M)
    requires k < |lines| && Keyword(lines[k]) == "f" && ParseFace(lines[k]).Ok?
    requires j < 3 && !(1 <= Corners(ParseFace(lines[k]).value)[j].vertex <= Count(lines[..k], "v"))
    ensures Load(lines, pf, material).Err?
  {
    var o := Fresh(material);
    if Run(o, lines[..k], pf).Ok? {
      var p := Run(o, lines[..k], pf).value;
      RunCounts(o, lines[..k], pf);
      assert |p.vertices| == Count(lines[..k], "v");
      FaceStepFails(p, lines[k], j, pf);
    }
    LineFails(o, lines, k, pf);
  }

  /** The same for texture indices and the `vt` lines before the face. */
  lemma UnresolvedTextureFails<M>(lines: seq<Line>, k: nat, j: nat, pf: FloatParser, material: M)
    requires k < |lines| && Keyword(lines[k]) == "f" && ParseFace(lines[k]).Ok?
    requires j < 3 && !(1 <= Corners(ParseFace(lines[k]).value)[j].texture <= Count(lines[..k], "vt"))
    ensures Load(lines, pf, material).Err?
  {
    var o := Fresh(material);
    if Run(o, lines[..k], pf).Ok? {
      var p := Run(o, lines[..k], pf).value;
      RunCounts(o, lines[..k], pf);
      assert |p.textures| == Count(lines[..k], "vt");
      FaceStepFails(p, lines[k], j, pf);
    }
    LineFails(o, lines, k, pf);
  }

  /** A line that fails on the state the lines before it leave makes the whole fold fail. */
  lemma LineFails<M>(o: Obj<M>, lines: seq<Line>, k: nat, pf: FloatParser)
    requires k < |lines|
    requires Run(o, lines[..k], pf).Ok? ==> Step(Run(o, lines[..k], pf).value, lines[k], pf).Err?
    ensures Run(o, lines, pf).Err?
  {
    RunLastStep(o, lines, k, pf);
    RunKeepsError(o, lines, k + 1, pf);
  }

  /** The fold over the first k + 1 lines is one step after the fold over the first k. */
  lemma RunLastStep<M>(o: Obj<M>, lines: seq<Line>, k: nat, pf: FloatParser)
    requires k < |lines|
    ensures Run(o, lines[..k + 1], pf) == match Run(o, lines[..k], pf)
                                          case Err(e) => Err(e)
                                          case Ok(p) => Step(p, lines[k], pf)
  {
    assert lines[..k + 1][..k] == lines[..k];
  }

  /** An `f` line with a corner that cannot be looked up fails. */
  lemma FaceStepFails<M>(o: Obj<M>, line: Line, j: nat, pf: FloatParser)
    requires Keyword(line) == "f" && ParseFace(line).Ok?
    requires j < 3 && !Resolvable(o, Corners(ParseFace(line).value)[j])
    ensures Step(o, line, pf) == Err(IndexOutOfRange)
  {
    var f := ParseFace(line).value;
    assert Corners(f)[j] == if j == 0 then f.a else if j == 1 then f.b else f.c;
    if j == 0 {
      assert !Resolvable(o, f.a);
    } else if j == 1 {
      assert !Resolvable(o, f.b);
    } else {
      assert !Resolvable(o, f.c);
    }
  }

  /** Words after the ones a line's kind reads have no effect. */
  lemma ExtraWordsIgnored<M>(o: Obj<M>, line: Line, extra: Line, pf: FloatParser)
    requires |line| > Arity(Keyword(line))
    ensures Step(o, line + extra, pf) == Step(o, line, pf)
  {
    var n := Arity(Keyword(line));
    assert forall k | 0 <= k <= n :: Word(line + extra, k) == Word(line, k);
  }

  /** A line that stops early reads its last word again: `v 1 2` is `v 1 2 2`,
      and a token without `/` serves as both indices of its corner. */
  lemma ShortLineRepeatsLastWord<M>(o: Obj<M>, line: Line, pf: FloatParser)
    requires |line| > 0
    ensures Step(o, line, pf) == Step(o, line + [line[|line| - 1]], pf)
  {
    var longer := line + [line[|line| - 1]];
    assert forall k: nat :: Word(longer, k) == Word(line, k);
  }

  /** A corner written `a/b`, optionally followed by another `/` segment,
      is read as vertex `a` and texture `b`. */
  lemma SplitShow(a: Int32, b: Int32, rest: string)
    requires rest == [] || rest[0] == '/'
    ensures Split(Show(a) + "/" + Show(b) + rest) == Ok(FaceRef(a, b))
  {
    NoSlashInShow(a);
    NoSlashInShow(b);
    SlashSegments(Show(a), Show(b), rest);
    assert Show(a) == Show(a) + "" && Show(b) == Show(b) + "";
    StoiShow(a, "");
    StoiShow(b, "");
  }

  /** The segments of `x/y` followed by nothing or by another `/` segment. */
  lemma SlashSegments(x: string, y: string, rest: string)
    requires forall i | 0 <= i < |x| :: x[i] != '/'
    requires forall i | 0 <= i < |y| :: y[i] != '/'
    requires rest == [] || rest[0] == '/'
    ensures FirstSegment(x + "/" + y + rest) == x
    ensures SecondSegment(x + "/" + y + rest) == y
  {
    var token := x + "/" + y + rest;
    assert token == x + ("/" + y + rest);
    SlashAfter(x, "/" + y + rest);
    var tail := token[|x| + 1..];
    assert tail == y + rest;
    SlashAfter(y, rest);
  }

  /** A corner written as a bare integer uses it as both indices. */
  lemma SplitShowBare(a: Int32)
    ensures Split(Show(a)) == Ok(FaceRef(a, a))
  {
    NoSlashInShow(a);
    SlashAfter(Show(a), "");
    assert Show(a) + "" == Show(a);
    StoiShow(a, "");
  }

  /** The `v//vn` corner form is rejected: its second segment is empty. */
  lemma SplitRejectsEmptyTexture(a: Int32, rest: string)
    ensures Split(Show(a) + "//" + rest) == Err(InvalidInteger(""))
  {
    var token := Show(a) + "//" + rest;
    NoSlashInShow(a);
    assert token == Show(a) + ("//" + rest);
    SlashAfter(Show(a), "//" + rest);
    assert FirstSegment(token) == Show(a);
    assert Show(a) == Show(a) + "";
    var tail := token[|Show(a)| + 1..];
    assert tail == "/" + rest;
    assert SecondSegment(token) == "";
    StoiShow(a, "");
  }

  lemma NoSlashInShow(n: int)
    ensures forall i | 0 <= i < |Show(n)| :: Show(n)[i] != '/'
  {
    var s := Show(n);
    if n < 0 {
      assert forall i | 1 <= i < |s| :: s[i] == ShowNat(-n)[i - 1];
    }
  }

  lemma {:induction false} SlashAfter(s: string, rest: string)
    requires forall i | 0 <= i < |s| :: s[i] != '/'
    requires rest == [] || rest[0] == '/'
    ensures FirstSlash(s + rest) == |s|
    ensures (s + rest)[..|s|] == s
  {
    if |s| > 0 {
      assert (s + rest)[1..] == s[1..] + rest;
      SlashAfter(s[1..], rest);
    }
  }

  /** `setDisplacement`: the new displacement is read back by the getter,
      and nothing else changes. */
  function SetDisplacement<M>(o: Obj<M>, x: real, y: real, z: real): (r: Obj<M>)
    ensures GetDisplacement(r) == Point(x, y, z)
    ensures GetRotation(r) == GetRotation(o)
    ensures r.(displacement := o.displacement) == o
  {
    o.(displacement := Point(x, y, z))
  }

  function GetDisplacement<M>(o: Obj<M>): Point {
    o.displacement
  }

  /** `setRotation`: the new angles are read back by the getter, and nothing
      else changes. */
  function SetRotation<M>(o: Obj<M>, x: real, y: real, z: real): (r: Obj<M>)
    ensures GetRotation(r) == Rotation(x, y, z)
    ensures GetDisplacement(r) == GetDisplacement(o)
    ensures r.(rotation := o.rotation) == o
  {
    o.(rotation := Rotation(x, y, z))
  }

  function GetRotation<M>(o: Obj<M>): Rotation {
    o.rotation
  }

  /** `getTriangles`: every stored triangle rotated and then displaced, in the
      stored order. Texture coordinates and the callback pass through. */
  function GetTriangles<M>(o: Obj<M>, trig: Trig): (r: seq<TextureTriangle<M>>)
    ensures |r| == |o.triangles|
    ensures forall k | 0 <= k < |r| ::
              && SameSurface(r[k], o.triangles[k])
              && r[k].v1.v == Add(Rotate(o.triangles[k].v1.v, o.rotation.x, o.rotation.y, o.rotation.z, trig), o.displacement)
              && r[k].v2.v == Add(Rotate(o.triangles[k].v2.v, o.rotation.x, o.rotation.y, o.rotation.z, trig), o.displacement)
              && r[k].v3.v == Add(Rotate(o.triangles[k].v3.v, o.rotation.x, o.rotation.y, o.rotation.z, trig), o.displacement)
  {
    seq(|o.triangles|, k requires 0 <= k < |o.triangles| =>
      Translate(RotateTriangle(o.triangles[k], o.rotation.x, o.rotation.y, o.rotation.z, trig), o.displacement))
  }

  /** With no displacement and no rotation, `getTriangles` returns the parsed
      triangles unchanged. */
  lemma GetTrianglesUnplaced<M>(o: Obj<M>, trig: Trig)
    requires TrigLawsAtZero(trig)
    requires o.displacement == Origin && o.rotation == Rotation(0.0, 0.0, 0.0)
    ensures GetTriangles(o, trig) == o.triangles
  {
    var r := GetTriangles(o, trig);
    forall k | 0 <= k < |r|
      ensures r[k] == o.triangles[k]
    {
      var t := o.triangles[k];
      RotateByZeroIsIdentity(t.v1.v, trig);
      RotateByZeroIsIdentity(t.v2.v, trig);
      RotateByZeroIsIdentity(t.v3.v, trig);
    }
  }

  /** Moving the mesh only moves its triangles: after `setDisplacement` the
      triangles differ from the previous ones by the change of displacement. */
  lemma GetTrianglesRedisplaced<M>(o: Obj<M>, x: real, y: real, z: real, trig: Trig)
    ensures var before := GetTriangles(o, trig);
            var after := GetTriangles(SetDisplacement(o, x, y, z), trig);
            var shift := Add(Point(x, y, z), Neg(o.displacement));
            |after| == |before| &&
            forall k | 0 <= k < |after| :: after[k] == Translate(before[k], shift)
  {
  }
}
