/**
 * What ParseObj reads out of an OBJ file: the per-line classification, the
 * record store that accumulates positions, normals, texture coordinates and
 * face corners in file order, the 65k size guard and the expansion of the
 * indexed corners into flat, parallel vertex buffers.
 */
module ObjFormat {
  import opened Wrappers
  import opened CsText

  datatype Vec2<F> = Vec2(x: F, y: F)
  datatype Vec3<F> = Vec3(x: F, y: F, z: F)

  /** One face corner: 0-based position, texture-coordinate and normal indices. */
  datatype TriData = TriData(vertIdx: int, uvIdx: int, normIdx: int)

  /** Why one line could not be read. */
  datatype LineProblem =
    | NotTriangle     // an `f` line that does not split into exactly four parts
    | PartMissing     // an IndexOutOfRangeException on a missing token
    | NumberInvalid   // a FormatException or OverflowException from a number parse

  /** The exceptions the loader lets escape. */
  datatype Fault =
    | MissingPart(line: nat)     // IndexOutOfRangeException while reading line `line` of the model file
    | BadNumber(line: nat)       // FormatException / OverflowException on line `line` of the model file
    | NoSuchCorner(corner: nat)  // ArgumentOutOfRangeException: corner `corner` indexes past a list
    | NoSuchFile(path: string)   // File.ReadAllLines on a path that is not a file: FileNotFoundException,
                                 // or, for a directory such as the bare base path, the access exception
    | MissingMaterialPart(line: nat) // IndexOutOfRangeException on `map_Kd` line `line` of the material file
    | NoSpawnPoint(index: int)   // IndexOutOfRangeException on the spawn-point array

  /** Why ParseObj returns null. */
  datatype Rejection = NotTriangulated(line: nat) | TooLarge

  /** How ParseObj stops without a mesh: it returns null, or it throws. */
  datatype Halt = Reject(why: Rejection) | Throw(fault: Fault)

  /** What one line of the model file contributes. */
  datatype LineRecord<F> =
    | Blank                           // empty, comment, or a tag the loader does not know
    | Position(p: Vec3<F>)            // `v`
    | Normal(n: Vec3<F>)              // `vn`
    | TexCoord(t: Vec2<F>)            // `vt`
    | Face(corners: seq<TriData>)     // `f`
    | MaterialLib(name: string)       // `mtllib`
    | Bad(problem: LineProblem)

  /** The raw lists vertsRaw, normsRaw, uvsRaw and trisIdx. */
  datatype RawModel<F> = RawModel(verts: seq<Vec3<F>>, norms: seq<Vec3<F>>,
                                  uvs: seq<Vec2<F>>, tris: seq<TriData>)

  /** The state after some lines: the raw lists, the text of the material-path
      builder, and whether the parse has stopped. */
  datatype Scan<F> = Scan(raw: RawModel<F>, mtlPath: string, halt: Option<Halt>)

  /** The four parallel arrays handed to the mesh. */
  datatype Mesh<F> = Mesh(vertices: seq<Vec3<F>>, uv: seq<Vec2<F>>,
                          normals: seq<Vec3<F>>, triangles: seq<int>)

  datatype ParseOutcome<F> = Parsed(mesh: Mesh<F>) | Halted(halt: Halt)

  /** Largest raw vertex count and corner count the loader accepts. */
  const VertexLimit: nat := 64999

  /** A line the loader skips before trimming: empty, or `#` in column 0. */
  predicate Skipped(l: string) {
    |l| == 0 || l[0] == '#'
  }

  /** l.Trim().Split(' '): the parts a line is cut into. */
  function Tokens(l: string): (parts: seq<string>)
    ensures |parts| >= 1
  {
    Split(Trim(l), ' ')
  }

  /** True when line `l` is an `f` statement. */
  predicate IsFaceLine(l: string) {
    !Skipped(l) && Tokens(l)[0] == "f"
  }

  /** True when line `l` is a statement with tag `tag`. */
  predicate IsTaggedLine(l: string, tag: string) {
    !Skipped(l) && Tokens(l)[0] == tag
  }

  /** True when line `l` is a `v` statement. */
  predicate IsPositionLine(l: string) {
    !Skipped(l) && Tokens(l)[0] == "v"
  }

  function HaltAt(p: LineProblem, line: nat): Halt {
    match p
    case NotTriangle => Reject(NotTriangulated(line))
    case PartMissing => Throw(MissingPart(line))
    case NumberInvalid => Throw(BadNumber(line))
  }

  /** float.Parse(parts[k]), where a missing part throws first. */
  function Component<F>(parts: seq<string>, k: nat, parseFloat: string -> Option<F>): Result<F, LineProblem>
  {
    if k >= |parts| then Failure(PartMissing)
    else match parseFloat(parts[k])
      case None => Failure(NumberInvalid)
      case Some(x) => Success(x)
  }

  /** LineToVector2: parts 1 and 2 as numbers, in that order; further parts are ignored. */
  function LineToVector2<F>(parts: seq<string>, parseFloat: string -> Option<F>): (r: Result<Vec2<F>, LineProblem>)
    ensures r.Success? <==> |parts| >= 3 && parseFloat(parts[1]).Some? && parseFloat(parts[2]).Some?
    ensures r.Success? ==> r.value == Vec2(parseFloat(parts[1]).value, parseFloat(parts[2]).value)
    ensures r.Failure? ==> r.error == PartMissing || r.error == NumberInvalid
    ensures r.Failure? && r.error == PartMissing <==>
              |parts| < 3 && forall k :: 1 <= k < |parts| ==> parseFloat(parts[k]).Some?
  {
    var x :- Component(parts, 1, parseFloat);
    var y :- Component(parts, 2, parseFloat);
    Success(Vec2(x, y))
  }

  /** LineToVector3: parts 1, 2 and 3 as numbers, in that order; further parts are ignored. */
  function LineToVector3<F>(parts: seq<string>, parseFloat: string -> Option<F>): (r: Result<Vec3<F>, LineProblem>)
    ensures r.Success? <==> |parts| >= 4 && parseFloat(parts[1]).Some? && parseFloat(parts[2]).Some?
                                        && parseFloat(parts[3]).Some?
    ensures r.Success? ==> r.value == Vec3(parseFloat(parts[1]).value, parseFloat(parts[2]).value,
                                           parseFloat(parts[3]).value)
    ensures r.Failure? ==> r.error == PartMissing || r.error == NumberInvalid
    ensures r.Failure? && r.error == PartMissing <==>
              |parts| < 4 && forall k :: 1 <= k < |parts| ==> parseFloat(parts[k]).Some?
  {
    var x :- Component(parts, 1, parseFloat);
    var y :- Component(parts, 2, parseFloat);
    var z :- Component(parts, 3, parseFloat);
    Success(Vec3(x, y, z))
  }

  /** `n - 1` on a C# int, which wraps around below Int32.MinValue. */
  function Dec32(n: int): (r: int)
    requires InInt32(n)
    ensures InInt32(r)
    ensures n > Int32Min ==> r == n - 1
    ensures n == Int32Min ==> r == Int32Max
  {
    if n == Int32Min then Int32Max else n - 1
  }

  /** int.Parse(token) - 1. */
  function ParseIndex(token: string): Result<int, LineProblem> {
    match ParseInt32(token)
    case None => Failure(NumberInvalid)
    case Some(n) => Success(Dec32(n))
  }

  /** One corner `a/b/c`: the three 1-based indices, made 0-based. The
      indices are read left to right; parts after the third are ignored. */
  function ParseCorner(token: string): (r: Result<TriData, LineProblem>)
  {
    var p := Split(token, '/');
    var a :- ParseIndex(p[0]);
    var b :- if |p| < 2 then Failure(PartMissing) else ParseIndex(p[1]);
    var c :- if |p| < 3 then Failure(PartMissing) else ParseIndex(p[2]);
    Success(TriData(a, b, c))
  }

  /** The corners of parts 1 .. n - 1 of a face line, in order, each read
      by `parse` (ParseCorner in the loader); the first that fails stops it. */
  function CornerPrefix(parts: seq<string>, n: nat, parse: string -> Result<TriData, LineProblem>)
    : (r: Result<seq<TriData>, LineProblem>)
    requires 1 <= n <= |parts|
    ensures r.Success? ==> |r.value| == n - 1
    decreases n
  {
    if n == 1 then Success([])
    else
      match CornerPrefix(parts, n - 1, parse)
      case Failure(e) => Failure(e)
      case Success(cs) =>
        match parse(parts[n - 1])
        case Failure(e) => Failure(e)
        case Success(c) =>
          Success(cs + [c])
  }

  /** What one line contributes; the `switch` on the first part. */
  function Classify<F>(l: string, parseFloat: string -> Option<F>): LineRecord<F> {
    if Skipped(l) then Blank
    else
      var parts := Tokens(l);
      var tag := parts[0];
      if tag == "v" then
        match LineToVector3(parts, parseFloat)
        case Success(p) => Position(p)
        case Failure(e) => Bad(e)
      else if tag == "vn" then
        match LineToVector3(parts, parseFloat)
        case Success(n) => Normal(n)
        case Failure(e) => Bad(e)
      else if tag == "vt" then
        match LineToVector2(parts, parseFloat)
        case Success(t) => TexCoord(t)
        case Failure(e) => Bad(e)
      else if tag == "f" then
        if |parts| != 4 then Bad(NotTriangle)
        else
          match CornerPrefix(parts, 4, ParseCorner)
          case Success(cs) => Face(cs)
          case Failure(e) => Bad(e)
      else if tag == "mtllib" then
        if |parts| < 2 then Bad(PartMissing) else MaterialLib(parts[1])
      else Blank
  }

  /** Stores one record: appends it to its own list, or to the material path. */
  function Step<F>(s: Scan<F>, rec: LineRecord<F>, line: nat): Scan<F> {
    match rec
    case Blank => s
    case Position(p) => s.(raw := s.raw.(verts := s.raw.verts + [p]))
    case Normal(n) => s.(raw := s.raw.(norms := s.raw.norms + [n]))
    case TexCoord(t) => s.(raw := s.raw.(uvs := s.raw.uvs + [t]))
    case Face(cs) => s.(raw := s.raw.(tris := s.raw.tris + cs))
    case MaterialLib(name) => s.(mtlPath := s.mtlPath + name)
    case Bad(p) => s.(halt := Some(HaltAt(p, line)))
  }

  /** What each line of the file contributes, in file order. */
  function Records<F>(lines: seq<string>, parseFloat: string -> Option<F>): (recs: seq<LineRecord<F>>)
    ensures |recs| == |lines|
    ensures forall i :: 0 <= i < |lines| ==> recs[i] == Classify(lines[i], parseFloat)
  {
    seq(|lines|, i requires 0 <= i < |lines| => Classify(lines[i], parseFloat))
  }

  /** The loop over the records: the state after storing `recs`, starting
      from empty lists and the material-path builder holding `base`. */
  function Store<F>(recs: seq<LineRecord<F>>, base: string): Scan<F>
    decreases |recs|
  {
    if |recs| == 0 then Scan(RawModel([], [], [], []), base, None)
    else
      var prev := Store(recs[..|recs| - 1], base);
      if prev.halt.Some? then prev
      else Step(prev, recs[|recs| - 1], |recs| - 1)
  }

  /** The loop over the lines of the model file. */
  function ReadLines<F>(lines: seq<string>, base: string, parseFloat: string -> Option<F>): Scan<F> {
    Store(Records(lines, parseFloat), base)
  }

  // Reference definitions: what each kind of record contributes, record by record.

  predicate Clean<F>(recs: seq<LineRecord<F>>) {
    forall i :: 0 <= i < |recs| ==> !recs[i].Bad?
  }

  function Positions<F>(recs: seq<LineRecord<F>>): seq<Vec3<F>>
    decreases |recs|
  {
    if |recs| == 0 then []
    else Positions(recs[..|recs| - 1]) + match recs[|recs| - 1] case Position(p) => [p] case _ => []
  }

  function Normals<F>(recs: seq<LineRecord<F>>): seq<Vec3<F>>
    decreases |recs|
  {
    if |recs| == 0 then []
    else Normals(recs[..|recs| - 1]) + match recs[|recs| - 1] case Normal(n) => [n] case _ => []
  }

  function TexCoords<F>(recs: seq<LineRecord<F>>): seq<Vec2<F>>
    decreases |recs|
  {
    if |recs| == 0 then []
    else TexCoords(recs[..|recs| - 1]) + match recs[|recs| - 1] case TexCoord(t) => [t] case _ => []
  }

  function Corners<F>(recs: seq<LineRecord<F>>): seq<TriData>
    decreases |recs|
  {
    if |recs| == 0 then []
    else Corners(recs[..|recs| - 1]) + match recs[|recs| - 1] case Face(cs) => cs case _ => []
  }

  function MaterialLibs<F>(recs: seq<LineRecord<F>>): string
    decreases |recs|
  {
    if |recs| == 0 then ""
    else MaterialLibs(recs[..|recs| - 1]) + match recs[|recs| - 1] case MaterialLib(name) => name case _ => ""
  }

  /** The raw lists the reference definitions give. */
  function RawOf<F>(recs: seq<LineRecord<F>>): RawModel<F> {
    RawModel(Positions(recs), Normals(recs), TexCoords(recs), Corners(recs))
  }

  /** Number of face records. */
  function FaceRecords<F>(recs: seq<LineRecord<F>>): nat
    decreases |recs|
  {
    if |recs| == 0 then 0 else FaceRecords(recs[..|recs| - 1]) + if recs[|recs| - 1].Face? then 1 else 0
  }

  /** Number of position records. */
  function PositionRecords<F>(recs: seq<LineRecord<F>>): nat
    decreases |recs|
  {
    if |recs| == 0 then 0 else PositionRecords(recs[..|recs| - 1]) + if recs[|recs| - 1].Position? then 1 else 0
  }

  /** Number of `f` statements. */
  function FaceCount(lines: seq<string>): nat
    decreases |lines|
  {
    if |lines| == 0 then 0
    else FaceCount(lines[..|lines| - 1]) + if IsFaceLine(lines[|lines| - 1]) then 1 else 0
  }

  /** Number of `v` statements. */
  function PositionCount(lines: seq<string>): nat
    decreases |lines|
  {
    if |lines| == 0 then 0
    else PositionCount(lines[..|lines| - 1]) + if IsPositionLine(lines[|lines| - 1]) then 1 else 0
  }

  // Expansion

  predicate CornerInRange<F>(raw: RawModel<F>, i: nat)
    requires i < |raw.tris|
  {
    var t := raw.tris[i];
    0 <= t.vertIdx < |raw.verts| && 0 <= t.uvIdx < |raw.uvs| && 0 <= t.normIdx < |raw.norms|
  }

  /** The expansion loop over the first `n` corners: one output vertex per
      corner, looked up in the raw lists; stops at the first corner that
      indexes past a list. */
  function Expand<F>(raw: RawModel<F>, n: nat): Result<Mesh<F>, Fault>
    requires n <= |raw.tris|
    decreases n
  {
    if n == 0 then Success(Mesh([], [], [], []))
    else
      var m :- Expand(raw, n - 1);
      if !CornerInRange(raw, n - 1) then Failure(NoSuchCorner(n - 1))
      else
        var t := raw.tris[n - 1];
        Success(Mesh(m.vertices + [raw.verts[t.vertIdx]], m.uv + [raw.uvs[t.uvIdx]],
                     m.normals + [raw.norms[t.normIdx]], m.triangles + [n - 1]))
  }

  /** The size guard: too many raw positions or too many corners. */
  predicate ExceedsLimit<F>(raw: RawModel<F>) {
    |raw.verts| > VertexLimit || |raw.tris| > VertexLimit
  }

  /** ParseObj on the lines of a model file whose material-path builder holds `base`. */
  function ParseObjSpec<F>(lines: seq<string>, base: string, parseFloat: string -> Option<F>): ParseOutcome<F> {
    var s := ReadLines(lines, base, parseFloat);
    if s.halt.Some? then Halted(s.halt.value)
    else if ExceedsLimit(s.raw) then Halted(Reject(TooLarge))
    else
      match Expand(s.raw, |s.raw.tris|)
      case Success(m) => Parsed(m)
      case Failure(f) => Halted(Throw(f))
  }

  // Lemmas: the record store

  /** Once a record has stopped the parse, later records change nothing. */
  lemma {:induction false} HaltPersists<F>(recs: seq<LineRecord<F>>, base: string, m: nat)
    requires m <= |recs|
    requires Store(recs[..m], base).halt.Some?
    ensures Store(recs, base) == Store(recs[..m], base)
    decreases |recs|
  {
    if m == |recs| {
      assert recs[..m] == recs;
    } else {
      var init := recs[..|recs| - 1];
      assert init[..m] == recs[..m];
      HaltPersists(init, base, m);
    }
  }

  /** The record store keeps, in order, every position, normal, texture
      coordinate and face corner, each in its own list, and appends every
      `mtllib` name to the base path; it stops exactly when some record is bad. */
  lemma {:induction false} StoreKeepsRecords<F>(recs: seq<LineRecord<F>>, base: string)
    ensures Store(recs, base).halt.None? <==> Clean(recs)
    ensures Clean(recs) ==> Store(recs, base) == Scan(RawOf(recs), base + MaterialLibs(recs), None)
    decreases |recs|
  {
    if |recs| > 0 {
      var n := |recs| - 1;
      var init := recs[..n];
      StoreKeepsRecords(init, base);
      assert forall i :: 0 <= i < n ==> init[i] == recs[i];
      if !Clean(init) {
        var i :| 0 <= i < n && init[i].Bad?;
        assert recs[i].Bad?;
      } else {
        assert Clean(recs) <==> !recs[n].Bad?;
        match recs[n] {
          case MaterialLib(name) =>
            assert base + MaterialLibs(recs) == (base + MaterialLibs(init)) + name;
          case _ =>
        }
      }
    }
  }

  /** The first bad record stops the parse, with the lists as they were before it. */
  lemma StoreFirstBad<F>(recs: seq<LineRecord<F>>, base: string, k: nat)
    requires k < |recs| && recs[k].Bad? && Clean(recs[..k])
    ensures Store(recs, base) ==
            Scan(RawOf(recs[..k]), base + MaterialLibs(recs[..k]), Some(HaltAt(recs[k].problem, k)))
  {
    StoreKeepsRecords(recs[..k], base);
    assert recs[..k + 1][..k] == recs[..k];
    HaltPersists(recs, base, k + 1);
  }

  /** Face records with three corners each give three corners per face record. */
  lemma {:induction false} CornersPerFace<F>(recs: seq<LineRecord<F>>)
    requires forall i :: 0 <= i < |recs| && recs[i].Face? ==> |recs[i].corners| == 3
    ensures |Corners(recs)| == 3 * FaceRecords(recs)
    decreases |recs|
  {
    if |recs| > 0 {
      CornersPerFace(recs[..|recs| - 1]);
    }
  }

  /** What the counting lemmas need to know about the record of line `l`. */
  predicate Agrees<F>(l: string, rec: LineRecord<F>) {
    && (rec.Face? ==> |rec.corners| == 3)
    && (!rec.Bad? ==> (rec.Face? <==> IsFaceLine(l)) && (rec.Position? <==> IsPositionLine(l)))
    && (!rec.Bad? ==> (rec.Normal? <==> IsTaggedLine(l, "vn")) && (rec.TexCoord? <==> IsTaggedLine(l, "vt")))
  }

  /** A line classifies as a face exactly when it is an `f` statement that
      reads without error, and then it has three corners; likewise for `v`,
      `vn` and `vt` and their records. */
  lemma ClassifyAgrees<F>(l: string, parseFloat: string -> Option<F>)
    ensures Agrees(l, Classify(l, parseFloat))
  {
    if !Skipped(l) {
      var parts := Tokens(l);
      if parts[0] == "f" && |parts| == 4 {
        var cs := CornerPrefix(parts, 4, ParseCorner);
        assert Classify(l, parseFloat) == if cs.Success? then Face(cs.value) else Bad(cs.error);
      } else if parts[0] == "v" {
        var v := LineToVector3(parts, parseFloat);
        assert Classify(l, parseFloat) == if v.Success? then Position(v.value) else Bad(v.error);
      } else if parts[0] == "vn" {
        var v := LineToVector3(parts, parseFloat);
        assert Classify(l, parseFloat) == if v.Success? then Normal(v.value) else Bad(v.error);
      } else if parts[0] == "vt" {
        var v := LineToVector2(parts, parseFloat);
        assert Classify(l, parseFloat) == if v.Success? then TexCoord(v.value) else Bad(v.error);
      }
    }
  }

  lemma {:induction false} CountsAgree<F>(lines: seq<string>, recs: seq<LineRecord<F>>)
    requires |lines| == |recs| && Clean(recs)
    requires forall i :: 0 <= i < |lines| ==> Agrees(lines[i], recs[i])
    ensures FaceRecords(recs) == FaceCount(lines)
    ensures PositionRecords(recs) == PositionCount(lines)
    decreases |lines|
  {
    if |lines| > 0 {
      var n := |lines| - 1;
      assert forall i :: 0 <= i < n ==> lines[..n][i] == lines[i] && recs[..n][i] == recs[i];
      CountsAgree(lines[..n], recs[..n]);
    }
  }

  /** Every record of a file agrees with its line. */
  lemma RecordsAgree<F>(lines: seq<string>, parseFloat: string -> Option<F>)
    ensures forall i :: 0 <= i < |lines| ==> Agrees(lines[i], Records(lines, parseFloat)[i])
  {
    forall i | 0 <= i < |lines|
      ensures Agrees(lines[i], Records(lines, parseFloat)[i])
    {
      ClassifyAgrees(lines[i], parseFloat);
    }
  }

  /** On a file that reads without error, there is one raw position per `v`
      line and three corners per `f` line. */
  lemma CleanCounts<F>(lines: seq<string>, parseFloat: string -> Option<F>)
    requires Clean(Records(lines, parseFloat))
    ensures |Positions(Records(lines, parseFloat))| == PositionCount(lines)
    ensures |Corners(Records(lines, parseFloat))| == 3 * FaceCount(lines)
  {
    var recs := Records(lines, parseFloat);
    RecordsAgree(lines, parseFloat);
    CountsAgree(lines, recs);
    CornersPerFace(recs);
    PositionsPerRecord(recs);
  }

  lemma {:induction false} PositionsPerRecord<F>(recs: seq<LineRecord<F>>)
    ensures |Positions(recs)| == PositionRecords(recs)
    decreases |recs|
  {
    if |recs| > 0 {
      PositionsPerRecord(recs[..|recs| - 1]);
    }
  }

  // Lemmas: faces and corners

  /** A corner reads exactly when its `/`-parts 0, 1 and 2 exist and are
      integers, and then holds those integers minus one. */
  lemma ParseCornerMeaning(token: string)
    ensures var p := Split(token, '/');
            ParseCorner(token).Success? <==>
              |p| >= 3 && ParseInt32(p[0]).Some? && ParseInt32(p[1]).Some? && ParseInt32(p[2]).Some?
    ensures var p := Split(token, '/');
            ParseCorner(token).Success? ==>
              ParseCorner(token).value ==
              TriData(Dec32(ParseInt32(p[0]).value), Dec32(ParseInt32(p[1]).value), Dec32(ParseInt32(p[2]).value))
    ensures ParseCorner(token).Failure? ==>
              ParseCorner(token).error == PartMissing || ParseCorner(token).error == NumberInvalid
  {
  }

  /** A token whose `/`-parts are three integers reads as those integers minus one. */
  lemma CornerOfParts(token: string, x: int, y: int, z: int)
    requires InInt32(x) && InInt32(y) && InInt32(z)
    requires Split(token, '/') == [IntToString(x), IntToString(y), IntToString(z)]
    ensures ParseCorner(token) == Success(TriData(Dec32(x), Dec32(y), Dec32(z)))
  {
    ParseIntToString(x);
    ParseIntToString(y);
    ParseIntToString(z);
    ParseCornerMeaning(token);
  }

  lemma JoinThree(sa: string, sb: string, sc: string)
    ensures Join([sa, sb, sc], '/') == sa + "/" + sb + "/" + sc
  {
    var parts := [sa, sb, sc];
    assert parts[1..] == [sb, sc];
    assert parts[1..][1..] == [sc];
    assert Join([sc], '/') == sc;
    assert Join([sb, sc], '/') == sb + "/" + sc;
  }

  lemma SplitThree(sa: string, sb: string, sc: string)
    requires '/' !in sa && '/' !in sb && '/' !in sc
    ensures Split(sa + "/" + sb + "/" + sc, '/') == [sa, sb, sc]
  {
    JoinThree(sa, sb, sc);
    SplitJoin([sa, sb, sc], '/');
  }

  /** The corner `a+1/b+1/c+1`, written in decimal, reads back as the
      0-based triple (a, b, c). */
  lemma CornerRoundTrip(a: int, b: int, c: int)
    requires 0 <= a < Int32Max && 0 <= b < Int32Max && 0 <= c < Int32Max
    ensures ParseCorner(IntToString(a + 1) + "/" + IntToString(b + 1) + "/" + IntToString(c + 1))
            == Success(TriData(a, b, c))
  {
    var sa, sb, sc := IntToString(a + 1), IntToString(b + 1), IntToString(c + 1);
    IntToStringHasNoSlash(a + 1);
    IntToStringHasNoSlash(b + 1);
    IntToStringHasNoSlash(c + 1);
    SplitThree(sa, sb, sc);
    CornerOfParts(sa + "/" + sb + "/" + sc, a + 1, b + 1, c + 1);
    assert Dec32(a + 1) == a && Dec32(b + 1) == b && Dec32(c + 1) == c;
  }

  /** An empty line, a line with `#` in its first column (before any
      trimming), and a line whose tag the switch does not know contribute
      nothing. */
  lemma ClassifyIgnores<F>(l: string, parseFloat: string -> Option<F>)
    requires Skipped(l) || Tokens(l)[0] !in ["v", "vn", "vt", "f", "mtllib"]
    ensures Classify(l, parseFloat) == Blank
  {
  }

  /** An `mtllib` line with a name contributes that name. */
  lemma ClassifyMaterialLib<F>(l: string, parseFloat: string -> Option<F>)
    requires !Skipped(l) && Tokens(l)[0] == "mtllib" && |Tokens(l)| >= 2
    ensures Classify(l, parseFloat) == MaterialLib(Tokens(l)[1])
  {
  }

  /** A bare `mtllib` line, without a second part, throws. */
  lemma ClassifyMaterialLibMissing<F>(l: string, parseFloat: string -> Option<F>)
    requires !Skipped(l) && Tokens(l)[0] == "mtllib" && |Tokens(l)| < 2
    ensures Classify(l, parseFloat) == Bad(PartMissing)
  {
  }

  /** An `f` line that does not split into exactly four parts is refused. */
  lemma ClassifyNotTriangle<F>(l: string, parseFloat: string -> Option<F>)
    requires IsFaceLine(l) && |Tokens(l)| != 4
    ensures Classify(l, parseFloat) == Bad(NotTriangle)
  {
  }

  /** The `f` branch of the switch on a line of four parts. */
  lemma ClassifyFace<F>(l: string, parseFloat: string -> Option<F>)
    requires IsFaceLine(l) && |Tokens(l)| == 4
    ensures var cs := CornerPrefix(Tokens(l), 4, ParseCorner);
            Classify(l, parseFloat) == if cs.Success? then Face(cs.value) else Bad(cs.error)
  {
  }

  /** The corner loop over parts 1 to 3 succeeds exactly when each part reads,
      and then holds the three corners in order. */
  lemma CornerPrefixOfFour(parts: seq<string>, parse: string -> Result<TriData, LineProblem>)
    requires |parts| == 4
    ensures var c1, c2, c3 := parse(parts[1]), parse(parts[2]), parse(parts[3]);
            && (CornerPrefix(parts, 4, parse).Success? <==> c1.Success? && c2.Success? && c3.Success?)
            && (CornerPrefix(parts, 4, parse).Success? ==>
                  CornerPrefix(parts, 4, parse).value == [c1.value, c2.value, c3.value])
  {
    assert CornerPrefix(parts, 1, parse) == Success([]);
  }

  /** A triangle line stores its three corners, in the order written, when
      all three read; otherwise it is bad. */
  lemma FaceLineCorners<F>(l: string, parseFloat: string -> Option<F>)
    requires IsFaceLine(l) && |Tokens(l)| == 4
    ensures var parts := Tokens(l);
            Classify(l, parseFloat).Face? <==>
              ParseCorner(parts[1]).Success? && ParseCorner(parts[2]).Success? && ParseCorner(parts[3]).Success?
    ensures var parts := Tokens(l);
            Classify(l, parseFloat).Face? ==>
              Classify(l, parseFloat).corners ==
              [ParseCorner(parts[1]).value, ParseCorner(parts[2]).value, ParseCorner(parts[3]).value]
    ensures !Classify(l, parseFloat).Face? ==>
              Classify(l, parseFloat).Bad? && Classify(l, parseFloat).problem != NotTriangle
  {
    ClassifyFace(l, parseFloat);
    CornerPrefixOfFour(Tokens(l), ParseCorner);
    CornerPrefixThrows(Tokens(l), 4);
  }

  /** A corner loop that fails throws: its problem is the failing corner's,
      a missing part or a bad number, never a refusal. */
  lemma {:induction false} CornerPrefixThrows(parts: seq<string>, n: nat)
    requires 1 <= n <= |parts|
    ensures CornerPrefix(parts, n, ParseCorner).Failure? ==>
              CornerPrefix(parts, n, ParseCorner).error != NotTriangle
    decreases n
  {
    if n > 1 {
      CornerPrefixThrows(parts, n - 1);
      ParseCornerMeaning(parts[n - 1]);
    }
  }

  /** Only an `f` line without exactly four parts is refused; every other
      bad line throws. */
  lemma NotTriangleOnlyFromFace<F>(l: string, parseFloat: string -> Option<F>)
    ensures Classify(l, parseFloat) == Bad(NotTriangle) <==> IsFaceLine(l) && |Tokens(l)| != 4
  {
    if IsFaceLine(l) && |Tokens(l)| == 4 {
      FaceLineCorners(l, parseFloat);
    }
  }

  // Lemmas: expansion

  /** `m` is the flat expansion of the first `n` corners of `raw`: one vertex
      per corner, each attribute looked up by that corner's own index, and the
      identity index buffer. */
  ghost predicate IsExpansion<F>(raw: RawModel<F>, n: nat, m: Mesh<F>)
    requires n <= |raw.tris|
  {
    && |m.vertices| == n && |m.uv| == n && |m.normals| == n && |m.triangles| == n
    && forall i :: 0 <= i < n ==>
         && CornerInRange(raw, i)
         && m.vertices[i] == raw.verts[raw.tris[i].vertIdx]
         && m.uv[i] == raw.uvs[raw.tris[i].uvIdx]
         && m.normals[i] == raw.norms[raw.tris[i].normIdx]
         && m.triangles[i] == i
  }

  /** `e` names the first of the first `n` corners that indexes past a list. */
  ghost predicate FirstBadCorner<F>(raw: RawModel<F>, n: nat, e: Fault)
    requires n <= |raw.tris|
  {
    && e.NoSuchCorner? && e.corner < n && !CornerInRange(raw, e.corner)
    && forall j :: 0 <= j < e.corner ==> CornerInRange(raw, j)
  }

  /** Expansion succeeds exactly when every corner is in range. */
  lemma {:induction false} ExpandSucceeds<F>(raw: RawModel<F>, n: nat)
    requires n <= |raw.tris|
    ensures Expand(raw, n).Success? <==> forall i :: 0 <= i < n ==> CornerInRange(raw, i)
    decreases n
  {
    if n > 0 {
      ExpandSucceeds(raw, n - 1);
    }
  }

  /** A successful expansion is the pointwise lookup with the identity index buffer. */
  lemma {:induction false} ExpandLooksUp<F>(raw: RawModel<F>, n: nat)
    requires n <= |raw.tris|
    ensures Expand(raw, n).Success? ==> IsExpansion(raw, n, Expand(raw, n).value)
    decreases n
  {
    if n > 0 && Expand(raw, n).Success? {
      ExpandLooksUp(raw, n - 1);
      var m := Expand(raw, n - 1).value;
      var m' := Expand(raw, n).value;
      assert m'.vertices[..n - 1] == m.vertices && m'.uv[..n - 1] == m.uv;
      assert m'.normals[..n - 1] == m.normals && m'.triangles[..n - 1] == m.triangles;
    }
  }

  /** A failed expansion names the first corner out of range. */
  lemma {:induction false} ExpandFailsFirst<F>(raw: RawModel<F>, n: nat)
    requires n <= |raw.tris|
    ensures Expand(raw, n).Failure? ==> FirstBadCorner(raw, n, Expand(raw, n).error)
    decreases n
  {
    if n > 0 && Expand(raw, n).Failure? {
      ExpandSucceeds(raw, n - 1);
      ExpandFailsFirst(raw, n - 1);
    }
  }

  /** Expansion succeeds exactly when every corner is in range, and is then a
      pointwise lookup with the identity index buffer; otherwise it fails at
      the first corner out of range, never with a default value. */
  lemma ExpandMeaning<F>(raw: RawModel<F>, n: nat)
    requires n <= |raw.tris|
    ensures Expand(raw, n).Success? <==> forall i :: 0 <= i < n ==> CornerInRange(raw, i)
    ensures Expand(raw, n).Success? ==> IsExpansion(raw, n, Expand(raw, n).value)
    ensures Expand(raw, n).Failure? ==> FirstBadCorner(raw, n, Expand(raw, n).error)
  {
    ExpandSucceeds(raw, n);
    ExpandLooksUp(raw, n);
    ExpandFailsFirst(raw, n);
  }

  // Lemmas: the whole parse

  /** ParseObj yields a mesh exactly when every line reads, the guard passes
      and every corner is in range; the mesh then has one vertex per corner,
      three per `f` line, looked up pointwise in the raw lists. */
  lemma ParseObjMesh<F>(lines: seq<string>, base: string, parseFloat: string -> Option<F>)
    ensures var recs := Records(lines, parseFloat);
            var raw := RawOf(recs);
            ParseObjSpec(lines, base, parseFloat).Parsed? <==>
              Clean(recs) && !ExceedsLimit(raw) && forall i :: 0 <= i < |raw.tris| ==> CornerInRange(raw, i)
    ensures var recs := Records(lines, parseFloat);
            var raw := RawOf(recs);
            var r := ParseObjSpec(lines, base, parseFloat);
            r.Parsed? ==> IsExpansion(raw, |raw.tris|, r.mesh) && |r.mesh.vertices| == 3 * FaceCount(lines)
  {
    var recs := Records(lines, parseFloat);
    StoreKeepsRecords(recs, base);
    if Clean(recs) {
      ExpandMeaning(RawOf(recs), |Corners(recs)|);
      CleanCounts(lines, parseFloat);
    }
  }

  /** An `f` line that is not a triangle makes the parse fail however fine
      the lines around it are; when no earlier line is bad it is the reason. */
  lemma NonTriangleFails<F>(lines: seq<string>, base: string, parseFloat: string -> Option<F>, k: nat)
    requires k < |lines| && IsFaceLine(lines[k]) && |Tokens(lines[k])| != 4
    ensures ParseObjSpec(lines, base, parseFloat).Halted?
    ensures Clean(Records(lines, parseFloat)[..k]) ==>
              ParseObjSpec(lines, base, parseFloat) == Halted(Reject(NotTriangulated(k)))
  {
    var recs := Records(lines, parseFloat);
    ClassifyNotTriangle(lines[k], parseFloat);
    StoreKeepsRecords(recs, base);
    if Clean(recs[..k]) {
      StoreFirstBad(recs, base, k);
    }
  }

  /** The index of the first bad record, or the number of records when there is none. */
  function FirstBad<F>(recs: seq<LineRecord<F>>): (k: nat)
    ensures k <= |recs| && Clean(recs[..k])
    ensures k < |recs| ==> recs[k].Bad?
    decreases |recs|
  {
    if |recs| == 0 || recs[0].Bad? then 0
    else
      var k := FirstBad(recs[1..]);
      assert forall j :: 0 <= j < k ==> recs[1..][j] == recs[j + 1];
      k + 1
  }

  /** ParseObj returns null exactly in two cases: the first bad line is an
      `f` line without exactly four parts, and then that line is the reason;
      or no line is bad and the guard refuses the model. */
  lemma RejectOnlyFrom<F>(lines: seq<string>, base: string, parseFloat: string -> Option<F>)
    ensures var recs := Records(lines, parseFloat);
            var k := FirstBad(recs);
            var r := ParseObjSpec(lines, base, parseFloat);
            r.Halted? && r.halt.Reject? <==>
              (k < |lines| && IsFaceLine(lines[k]) && |Tokens(lines[k])| != 4)
              || (k == |lines| && ExceedsLimit(RawOf(recs)))
    ensures var recs := Records(lines, parseFloat);
            var k := FirstBad(recs);
            k < |lines| && IsFaceLine(lines[k]) && |Tokens(lines[k])| != 4 ==>
              ParseObjSpec(lines, base, parseFloat) == Halted(Reject(NotTriangulated(k)))
    ensures var recs := Records(lines, parseFloat);
            FirstBad(recs) == |lines| && ExceedsLimit(RawOf(recs)) ==>
              ParseObjSpec(lines, base, parseFloat) == Halted(Reject(TooLarge))
  {
    var recs := Records(lines, parseFloat);
    var k := FirstBad(recs);
    if k < |lines| {
      StoreFirstBad(recs, base, k);
      NotTriangleOnlyFromFace(lines[k], parseFloat);
    } else {
      assert recs[..k] == recs;
      StoreKeepsRecords(recs, base);
    }
  }

  /** On a file whose lines all read, the guard refuses the model exactly
      when there are more than 64999 `v` lines or more than 64999 corners
      (that is, more than 21666 `f` lines); 64999 of each passes. */
  lemma SizeGuard<F>(lines: seq<string>, base: string, parseFloat: string -> Option<F>)
    requires Clean(Records(lines, parseFloat))
    ensures ParseObjSpec(lines, base, parseFloat) == Halted(Reject(TooLarge)) <==>
              PositionCount(lines) > VertexLimit || 3 * FaceCount(lines) > VertexLimit
    ensures 3 * FaceCount(lines) > VertexLimit <==> FaceCount(lines) > 21666
  {
    var recs := Records(lines, parseFloat);
    StoreKeepsRecords(recs, base);
    CleanCounts(lines, parseFloat);
    if !ExceedsLimit(RawOf(recs)) {
      ExpandMeaning(RawOf(recs), |Corners(recs)|);
    }
  }

  /** A corner that indexes past a raw list makes the parse throw at the
      first such corner, once the lines read and the guard passes. */
  lemma CornerOutOfRangeThrows<F>(lines: seq<string>, base: string, parseFloat: string -> Option<F>, k: nat)
    requires Clean(Records(lines, parseFloat))
    requires var raw := RawOf(Records(lines, parseFloat));
             && !ExceedsLimit(raw) && k < |raw.tris| && !CornerInRange(raw, k)
             && forall j :: 0 <= j < k ==> CornerInRange(raw, j)
    ensures ParseObjSpec(lines, base, parseFloat) == Halted(Throw(NoSuchCorner(k)))
  {
    var recs := Records(lines, parseFloat);
    var raw := RawOf(recs);
    StoreKeepsRecords(recs, base);
    ExpandSucceeds(raw, |raw.tris|);
    ExpandFailsFirst(raw, |raw.tris|);
    var e := Expand(raw, |raw.tris|).error;
    assert e == NoSuchCorner(k) by {
      assert e.corner <= k && e.corner >= k;
    }
  }

  // Lemmas the loops of the loader use

  lemma RecordsPrefix<F>(lines: seq<string>, parseFloat: string -> Option<F>, m: nat)
    requires m <= |lines|
    ensures Records(lines[..m], parseFloat) == Records(lines, parseFloat)[..m]
  {
  }

  /** Reading one more line applies that line's record. */
  lemma ReadLinesStep<F>(lines: seq<string>, base: string, parseFloat: string -> Option<F>, i: nat)
    requires i < |lines| && ReadLines(lines[..i], base, parseFloat).halt.None?
    ensures ReadLines(lines[..i + 1], base, parseFloat) ==
            Step(ReadLines(lines[..i], base, parseFloat), Classify(lines[i], parseFloat), i)
  {
    var recs := Records(lines[..i + 1], parseFloat);
    assert recs[..i] == Records(lines[..i], parseFloat);
  }

  /** A parse stopped after the first `m` lines stays stopped. */
  lemma ReadLinesHalted<F>(lines: seq<string>, base: string, parseFloat: string -> Option<F>, m: nat)
    requires m <= |lines| && ReadLines(lines[..m], base, parseFloat).halt.Some?
    ensures ReadLines(lines, base, parseFloat) == ReadLines(lines[..m], base, parseFloat)
  {
    RecordsPrefix(lines, parseFloat, m);
    HaltPersists(Records(lines, parseFloat), base, m);
  }

  /** A corner that does not read makes the whole face fail with its problem. */
  lemma {:induction false} CornerPrefixFails(parts: seq<string>, j: nat, n: nat,
                                           parse: string -> Result<TriData, LineProblem>)
    requires 1 <= j <= n <= |parts| && CornerPrefix(parts, j, parse).Failure?
    ensures CornerPrefix(parts, n, parse) == CornerPrefix(parts, j, parse)
    decreases n
  {
    if n > j {
      CornerPrefixFails(parts, j, n - 1, parse);
    }
  }

  /** Expanding one more corner that is in range appends its lookups. */
  lemma ExpandStep<F>(raw: RawModel<F>, i: nat, m: Mesh<F>)
    requires i < |raw.tris| && Expand(raw, i) == Success(m) && CornerInRange(raw, i)
    ensures var t := raw.tris[i];
            Expand(raw, i + 1) ==
            Success(Mesh(m.vertices + [raw.verts[t.vertIdx]], m.uv + [raw.uvs[t.uvIdx]],
                         m.normals + [raw.norms[t.normIdx]], m.triangles + [i]))
  {
  }

  /** Expansion that has failed at some corner stays failed there. */
  lemma {:induction false} ExpandFailurePersists<F>(raw: RawModel<F>, j: nat, n: nat)
    requires j <= n <= |raw.tris| && Expand(raw, j).Failure?
    ensures Expand(raw, n) == Expand(raw, j)
    decreases n
  {
    if n > j {
      ExpandFailurePersists(raw, j, n - 1);
    }
  }
}
