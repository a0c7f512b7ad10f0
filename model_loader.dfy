/**
 * The loader itself: LoadModel forms the model path, ParseObj walks the
 * model file and expands its faces, CreateMaterial looks up the diffuse
 * texture. The string builders the loader threads through these calls are
 * objects updated in place; the file system is a map from paths to lines.
 */
module ModelLoader {
  import opened Wrappers
  import opened CsText
  import opened ObjFormat
  import opened MtlFormat

  /** A System.Text.StringBuilder, reduced to the text it holds. */
  class PathBuilder {
    var text: string

    constructor (initial: string)
      ensures text == initial
    {
      text := initial;
    }

    /** StringBuilder.Append(s). */
    method Append(s: string)
      modifies this
      ensures text == old(text) + s
    {
      text := text + s;
    }

    /** StringBuilder.Insert(0, s). */
    method InsertAtStart(s: string)
      modifies this
      ensures text == s + old(text)
    {
      text := s + text;
    }
  }

  /** The model file for button `idx`: path + idx.ToString() + ".obj". */
  function ObjPath(path: string, idx: int): string {
    path + IntToString(idx) + ".obj"
  }

  /** The model path is the base path, the decimal index and ".obj", and the
      index can be read back from it. */
  lemma ObjPathParts(path: string, idx: int)
    requires InInt32(idx)
    ensures var p := ObjPath(path, idx);
            && |p| > |path| + 4
            && p[..|path|] == path
            && p[|p| - 4..] == ".obj"
            && ParseInt32(p[|path|..|p| - 4]) == Some(idx)
  {
    var p := ObjPath(path, idx);
    var digits := IntToString(idx);
    NatToStringDigits(if idx < 0 then -idx else idx);
    assert p[|path|..|p| - 4] == digits;
    ParseIntToString(idx);
  }

  /** Distinct buttons open distinct model files. */
  lemma ObjPathInjective(path: string, a: int, b: int)
    requires InInt32(a) && InInt32(b)
    requires ObjPath(path, a) == ObjPath(path, b)
    ensures a == b
  {
    ObjPathParts(path, a);
    ObjPathParts(path, b);
  }

  /** The body of ParseObj's loop up to the point where it stores: skips
      empty and comment lines, trims and splits the line, dispatches on its
      first part and reads the vector or the three face corners. */
  method ReadLineRecord<F>(l: string, parseFloat: string -> Option<F>) returns (rec: LineRecord<F>)
    ensures rec == Classify(l, parseFloat)
  {
    if |l| == 0 || l[0] == '#' {
      return Blank;
    }
    var lineParts := Split(Trim(l), ' ');
    var idStr := lineParts[0];
    if idStr == "v" {
      var v := LineToVector3(lineParts, parseFloat);
      rec := if v.Success? then Position(v.value) else Bad(v.error);
    } else if idStr == "vn" {
      var n := LineToVector3(lineParts, parseFloat);
      rec := if n.Success? then Normal(n.value) else Bad(n.error);
    } else if idStr == "vt" {
      var t := LineToVector2(lineParts, parseFloat);
      rec := if t.Success? then TexCoord(t.value) else Bad(t.error);
    } else if idStr == "f" {
      if |lineParts| != 4 {
        return Bad(NotTriangle);
      }
      var corners := ReadFaceCorners(lineParts);
      rec := if corners.Success? then Face(corners.value) else Bad(corners.error);
    } else if idStr == "mtllib" {
      rec := if |lineParts| < 2 then Bad(PartMissing) else MaterialLib(lineParts[1]);
    } else {
      rec := Blank;
    }
  }

  /** The loop over the three corners of a triangle line, parts 1 to 3, in order. */
  method ReadFaceCorners(lineParts: seq<string>) returns (r: Result<seq<TriData>, LineProblem>)
    requires |lineParts| == 4
    ensures r == CornerPrefix(lineParts, |lineParts|, ParseCorner)
  {
    var corners: seq<TriData> := [];
    for j := 1 to |lineParts|
      invariant CornerPrefix(lineParts, j, ParseCorner) == Success(corners)
    {
      var corner := ParseCorner(lineParts[j]);
      if corner.Failure? {
        CornerPrefixFails(lineParts, j + 1, |lineParts|, ParseCorner);
        return Failure(corner.error);
      }
      corners := corners + [corner.value];
    }
    r := Success(corners);
  }

  /** ParseObj: the loop over the lines fills the raw lists and extends the
      material path; then the size guard; then the expansion. */
  method ParseObj<F(0)>(lines: seq<string>, mtlPath: PathBuilder, parseFloat: string -> Option<F>)
    returns (r: ParseOutcome<F>)
    modifies mtlPath
    ensures r == ParseObjSpec(lines, old(mtlPath.text), parseFloat)
    ensures mtlPath.text == ReadLines(lines, old(mtlPath.text), parseFloat).mtlPath
  {
    ghost var base := mtlPath.text;
    var vertsRaw: seq<Vec3<F>> := [];
    var normsRaw: seq<Vec3<F>> := [];
    var uvsRaw: seq<Vec2<F>> := [];
    var trisIdx: seq<TriData> := [];

    for i := 0 to |lines|
      invariant ReadLines(lines[..i], base, parseFloat) ==
                Scan(RawModel(vertsRaw, normsRaw, uvsRaw, trisIdx), mtlPath.text, None)
    {
      ReadLinesStep(lines, base, parseFloat, i);
      var rec := ReadLineRecord(lines[i], parseFloat);
      match rec {
        case Blank =>
        case Position(p) => vertsRaw := vertsRaw + [p];
        case Normal(n) => normsRaw := normsRaw + [n];
        case TexCoord(t) => uvsRaw := uvsRaw + [t];
        case Face(cs) => trisIdx := trisIdx + cs;
        case MaterialLib(name) => mtlPath.Append(name);
        case Bad(problem) =>
          r := Halted(HaltAt(problem, i));
          ReadLinesHalted(lines, base, parseFloat, i + 1);
          return;
      }
    }
    assert lines[..|lines|] == lines;

    if |vertsRaw| > VertexLimit || |trisIdx| > VertexLimit {
      return Halted(Reject(TooLarge));
    }

    var mesh := ExpandCorners(vertsRaw, normsRaw, uvsRaw, trisIdx);
    match mesh {
      case Success(m) => r := Parsed(m);
      case Failure(f) => r := Halted(Throw(f));
    }
  }

  /** One pass of the expansion loop once the lookups succeeded: slot `i` of
      the four arrays receives the attributes and the index `i`. */
  method StoreCorner<F>(vertsFinal: array<Vec3<F>>, uvsFinal: array<Vec2<F>>, normsFinal: array<Vec3<F>>,
                        trisIndexer: array<int>, i: nat, v: Vec3<F>, uv: Vec2<F>, n: Vec3<F>)
    requires i < vertsFinal.Length && i < uvsFinal.Length && i < normsFinal.Length && i < trisIndexer.Length
    requires vertsFinal != normsFinal
    modifies vertsFinal, uvsFinal, normsFinal, trisIndexer
    ensures vertsFinal[..i + 1] == old(vertsFinal[..i]) + [v]
    ensures uvsFinal[..i + 1] == old(uvsFinal[..i]) + [uv]
    ensures normsFinal[..i + 1] == old(normsFinal[..i]) + [n]
    ensures trisIndexer[..i + 1] == old(trisIndexer[..i]) + [i]
    ensures vertsFinal[i + 1..] == old(vertsFinal[i + 1..]) && uvsFinal[i + 1..] == old(uvsFinal[i + 1..])
    ensures normsFinal[i + 1..] == old(normsFinal[i + 1..]) && trisIndexer[i + 1..] == old(trisIndexer[i + 1..])
  {
    vertsFinal[i] := v;
    uvsFinal[i] := uv;
    normsFinal[i] := n;
    trisIndexer[i] := i;
    assert vertsFinal[..i + 1] == old(vertsFinal[..i]) + [v];
    assert uvsFinal[..i + 1] == old(uvsFinal[..i]) + [uv];
    assert normsFinal[..i + 1] == old(normsFinal[..i]) + [n];
    assert trisIndexer[..i + 1] == old(trisIndexer[..i]) + [i];
  }

  /** The expansion loop: four parallel arrays with one entry per corner,
      filled by lookup in the raw lists, and the identity index buffer. */
  method ExpandCorners<F(0)>(vertsRaw: seq<Vec3<F>>, normsRaw: seq<Vec3<F>>, uvsRaw: seq<Vec2<F>>,
                             trisIdx: seq<TriData>)
    returns (r: Result<Mesh<F>, Fault>)
    ensures r == Expand(RawModel(vertsRaw, normsRaw, uvsRaw, trisIdx), |trisIdx|)
  {
    ghost var raw := RawModel(vertsRaw, normsRaw, uvsRaw, trisIdx);
    var vertsFinal := new Vec3<F>[|trisIdx|];
    var uvsFinal := new Vec2<F>[|trisIdx|];
    var normsFinal := new Vec3<F>[|trisIdx|];
    var trisIndexer := new int[|trisIdx|];

    ghost var acc: Mesh<F> := Mesh([], [], [], []);
    for i := 0 to |trisIdx|
      invariant Expand(raw, i) == Success(acc)
      invariant vertsFinal[..i] == acc.vertices && uvsFinal[..i] == acc.uv
      invariant normsFinal[..i] == acc.normals && trisIndexer[..i] == acc.triangles
    {
      var triData := trisIdx[i];
      if !(0 <= triData.vertIdx < |vertsRaw| && 0 <= triData.uvIdx < |uvsRaw|
           && 0 <= triData.normIdx < |normsRaw|) {
        assert Expand(raw, i + 1) == Failure(NoSuchCorner(i));
        ExpandFailurePersists(raw, i + 1, |trisIdx|);
        return Failure(NoSuchCorner(i));
      }
      ExpandStep(raw, i, acc);
      StoreCorner(vertsFinal, uvsFinal, normsFinal, trisIndexer, i,
                  vertsRaw[triData.vertIdx], uvsRaw[triData.uvIdx], normsRaw[triData.normIdx]);
      acc := Mesh(vertsFinal[..i + 1], uvsFinal[..i + 1], normsFinal[..i + 1], trisIndexer[..i + 1]);
    }
    assert vertsFinal[..] == vertsFinal[..|trisIdx|] && uvsFinal[..] == uvsFinal[..|trisIdx|];
    assert normsFinal[..] == normsFinal[..|trisIdx|] && trisIndexer[..] == trisIndexer[..|trisIdx|];
    r := Success(Mesh(vertsFinal[..], uvsFinal[..], normsFinal[..], trisIndexer[..]));
  }

  /** The first step of the LoadTexture coroutine, which runs as soon as it
      is started: the texture path becomes a file URL. */
  method LoadTexture(path: PathBuilder) returns (url: string)
    modifies path
    ensures path.text == TextureUrl(old(path.text))
    ensures url == path.text
  {
    path.InsertAtStart("file://");
    url := path.text;
  }

  /** CreateMaterial: reads the material file named by `mtlPath` and starts
      loading the texture named by its first `map_Kd` line into the blank
      placeholder texture. */
  method CreateMaterial(mtlPath: PathBuilder, texPath: PathBuilder, files: map<string, seq<string>>)
    returns (r: Result<Material, Fault>)
    modifies texPath
    ensures r == ResolveMaterial(files, old(mtlPath.text), old(texPath.text))
    ensures texPath.text == if r.Success? && r.value.textureUrl.Some? then r.value.textureUrl.value
                            else old(texPath.text)
  {
    var path := mtlPath.text;
    if path !in files {
      MissingMaterialThrows(files, path, texPath.text);
      return Failure(NoSuchFile(path));
    }
    var allLines := files[path];
    ghost var heads := Heads(allLines);
    for i := 0 to |allLines|
      invariant forall j :: 0 <= j < i ==> heads[j] != "map_Kd"
      invariant texPath.text == old(texPath.text)
    {
      var parts := Tokens(allLines[i]);
      assert heads[i] == parts[0];
      if parts[0] == "map_Kd" {
        FirstIndexOfIsFirst(heads, "map_Kd", i);
        r := StartDiffuseMap(texPath, parts, i);
        return;
      }
    }
    NoDiffuseMapKeepsBlank(files, path, texPath.text);
    r := Success(Material(None));
  }

  /** The `map_Kd` branch of CreateMaterial's loop: the texture name is the
      second part of the line, appended to the texture path. */
  method StartDiffuseMap(texPath: PathBuilder, parts: seq<string>, line: nat)
    returns (r: Result<Material, Fault>)
    modifies texPath
    ensures r == if |parts| < 2 then Failure(MissingMaterialPart(line))
                 else Success(Material(Some(TextureUrl(old(texPath.text) + parts[1]))))
    ensures texPath.text == if r.Success? then r.value.textureUrl.value else old(texPath.text)
  {
    if |parts| < 2 {
      return Failure(MissingMaterialPart(line));
    }
    texPath.Append(parts[1]);
    var url := LoadTexture(texPath);
    r := Success(Material(Some(url)));
  }

  // LoadModel

  /** The GameObject LoadModel builds: its name, the mesh of its MeshFilter
      (None for the null ParseObj returns) and the material of its renderer. */
  datatype Building<F> = Building(name: string, mesh: Option<Mesh<F>>, material: Material)

  /** LoadModel returns a flag and leaves a building in the scene, or lets an
      exception escape. */
  datatype LoadResult<F> = Returned(loaded: bool, building: Option<Building<F>>) | Raised(fault: Fault)

  /** The mesh ParseObj hands to the MeshFilter: null unless it parsed. */
  function MeshOf<F>(o: ParseOutcome<F>): (m: Option<Mesh<F>>)
    ensures m.Some? <==> o.Parsed?
    ensures o.Parsed? ==> m == Some(o.mesh)
  {
    if o.Parsed? then Some(o.mesh) else None
  }

  /** What follows the parse: the material is built from the material path the
      parse left behind, the spawn point idx - 1 is looked up, and the loader
      reports success. */
  function Furnish<F>(files: map<string, seq<string>>, mtlFile: string, path: string, idx: int,
                      spawnCount: nat, mesh: Option<Mesh<F>>): LoadResult<F>
    requires InInt32(idx)
  {
    match ResolveMaterial(files, mtlFile, path)
    case Failure(f) => Raised(f)
    case Success(mat) =>
      var spawn := Dec32(idx);
      if 0 <= spawn < spawnCount then Returned(true, Some(Building(IntToString(idx), mesh, mat)))
      else Raised(NoSpawnPoint(spawn))
  }

  /** LoadModel(idx) as written, on a file system `files`, the text `path` of
      the path field and a scene with `spawnCount` spawn points. */
  function LoadModelSpec<F>(files: map<string, seq<string>>, path: string, idx: int, spawnCount: nat,
                            parseFloat: string -> Option<F>): LoadResult<F>
    requires InInt32(idx)
  {
    var objPath := ObjPath(path, idx);
    if objPath !in files then Returned(false, None)
    else
      var lines := files[objPath];
      var parsed := ParseObjSpec(lines, path, parseFloat);
      if parsed.Halted? && parsed.halt.Throw? then Raised(parsed.halt.fault)
      else Furnish(files, ReadLines(lines, path, parseFloat).mtlPath, path, idx, spawnCount, MeshOf(parsed))
  }

  /** The tail of LoadModel: CreateMaterial on the two builders, then the
      spawn-point lookup. */
  method FurnishBuilding<F>(files: map<string, seq<string>>, mtlPath: PathBuilder, texPath: PathBuilder,
                            idx: int, spawnCount: nat, mesh: Option<Mesh<F>>)
    returns (r: LoadResult<F>)
    requires InInt32(idx)
    modifies texPath
    ensures r == Furnish(files, old(mtlPath.text), old(texPath.text), idx, spawnCount, mesh)
    ensures var mat := ResolveMaterial(files, old(mtlPath.text), old(texPath.text));
            texPath.text == if mat.Success? && mat.value.textureUrl.Some? then mat.value.textureUrl.value
                            else old(texPath.text)
  {
    var mat := CreateMaterial(mtlPath, texPath, files);
    if mat.Failure? {
      return Raised(mat.error);
    }
    var spawn := Dec32(idx);
    if !(0 <= spawn < spawnCount) {
      return Raised(NoSpawnPoint(spawn));
    }
    r := Returned(true, Some(Building(IntToString(idx), mesh, mat.value)));
  }

  /** LoadModel: both builders start from the path field; ParseObj extends
      the material path while it reads the model file. */
  method LoadModel<F(0)>(files: map<string, seq<string>>, path: string, idx: int, spawnCount: nat,
                         parseFloat: string -> Option<F>)
    returns (r: LoadResult<F>)
    requires InInt32(idx)
    ensures r == LoadModelSpec(files, path, idx, spawnCount, parseFloat)
  {
    var pathObj := path + IntToString(idx) + ".obj";
    if pathObj !in files {
      return Returned(false, None);
    }
    var mtlPath := new PathBuilder(path);
    var texPath := new PathBuilder(path);
    var parsed := ParseObj(files[pathObj], mtlPath, parseFloat);
    if parsed.Halted? && parsed.halt.Throw? {
      return Raised(parsed.halt.fault);
    }
    var mesh := if parsed.Parsed? then Some(parsed.mesh) else None;
    r := FurnishBuilding(files, mtlPath, texPath, idx, spawnCount, mesh);
  }

  /** What LoadModel reports: false exactly when the model file is missing;
      on true, the building carries the decimal index as its name, whatever
      mesh ParseObj produced (possibly none) and the material resolved from
      the material path the parse left behind; everything else is an
      exception from the parse, the material file or the spawn points. */
  lemma LoadModelOutcomes<F>(files: map<string, seq<string>>, path: string, idx: int, spawnCount: nat,
                             parseFloat: string -> Option<F>)
    requires InInt32(idx)
    ensures var r := LoadModelSpec(files, path, idx, spawnCount, parseFloat);
            r.Returned? && !r.loaded <==> ObjPath(path, idx) !in files
    ensures var r := LoadModelSpec(files, path, idx, spawnCount, parseFloat);
            r.Returned? ==> (r.loaded <==> r.building.Some?)
    ensures var r := LoadModelSpec(files, path, idx, spawnCount, parseFloat);
            r.Returned? && r.loaded ==>
              var lines := files[ObjPath(path, idx)];
              var parsed := ParseObjSpec(lines, path, parseFloat);
              var mat := ResolveMaterial(files, ReadLines(lines, path, parseFloat).mtlPath, path);
              && !(parsed.Halted? && parsed.halt.Throw?) && mat.Success?
              && 0 <= Dec32(idx) < spawnCount
              && r.building == Some(Building(IntToString(idx), MeshOf(parsed), mat.value))
  {
    var objPath := ObjPath(path, idx);
    if objPath in files {
      var lines := files[objPath];
      var parsed := ParseObjSpec(lines, path, parseFloat);
      if !(parsed.Halted? && parsed.halt.Throw?) {
        var mtl := ReadLines(lines, path, parseFloat).mtlPath;
        assert LoadModelSpec(files, path, idx, spawnCount, parseFloat)
               == Furnish(files, mtl, path, idx, spawnCount, MeshOf(parsed));
      }
    }
  }

  /** A model file that is present, parses or is refused without throwing,
      names a material that resolves, and has its spawn point: LoadModel
      returns true with the building named idx, carrying the parse's mesh
      (if any) and the resolved material. */
  lemma LoadModelLoads<F>(files: map<string, seq<string>>, path: string, idx: int, spawnCount: nat,
                          parseFloat: string -> Option<F>)
    requires InInt32(idx) && ObjPath(path, idx) in files
    requires var parsed := ParseObjSpec(files[ObjPath(path, idx)], path, parseFloat);
             !(parsed.Halted? && parsed.halt.Throw?)
    requires ResolveMaterial(files, ReadLines(files[ObjPath(path, idx)], path, parseFloat).mtlPath, path).Success?
    requires 0 <= Dec32(idx) < spawnCount
    ensures var lines := files[ObjPath(path, idx)];
            var mat := ResolveMaterial(files, ReadLines(lines, path, parseFloat).mtlPath, path);
            LoadModelSpec(files, path, idx, spawnCount, parseFloat)
            == Returned(true, Some(Building(IntToString(idx), MeshOf(ParseObjSpec(lines, path, parseFloat)), mat.value)))
  {
  }

  /** As written, LoadModel reports success for a model ParseObj refuses
      (a face that is not a triangle, or too many vertices): the building
      is left with no mesh, and the button is disabled as if it had loaded. */
  lemma RejectedModelReportsSuccess<F>(files: map<string, seq<string>>, path: string, idx: int,
                                       spawnCount: nat, parseFloat: string -> Option<F>)
    requires InInt32(idx) && ObjPath(path, idx) in files
    requires ParseObjSpec(files[ObjPath(path, idx)], path, parseFloat).Halted?
    requires ParseObjSpec(files[ObjPath(path, idx)], path, parseFloat).halt.Reject?
    requires ResolveMaterial(files, ReadLines(files[ObjPath(path, idx)], path, parseFloat).mtlPath, path).Success?
    requires 0 <= Dec32(idx) < spawnCount
    ensures var r := LoadModelSpec(files, path, idx, spawnCount, parseFloat);
            r.Returned? && r.loaded && r.building.Some? && r.building.value.mesh.None?
  {
    LoadModelOutcomes(files, path, idx, spawnCount, parseFloat);
  }

  /** No white space anywhere in `t`. */
  predicate Solid(t: string) {
    |t| > 0 && forall i :: 0 <= i < |t| ==> !IsWhiteSpace(t[i])
  }

  /** Model 1 of directory `dir`: it names material file `mtl`, which is
      empty, and has a single face with the four corners `c`. */
  function QuadModelFiles(dir: string, mtl: string, c: string): map<string, seq<string>> {
    map[dir + "1.obj" := ["mtllib " + mtl, "f " + c + " " + c + " " + c + " " + c], dir + mtl := []]
  }

  /** Button 1 opens the model file of QuadModelFiles, and the material
      file is a different, empty file. */
  lemma QuadModelLookup(dir: string, mtl: string, c: string)
    requires mtl != "1.obj"
    ensures var files := QuadModelFiles(dir, mtl, c);
            && ObjPath(dir, 1) == dir + "1.obj" && ObjPath(dir, 1) in files
            && files[ObjPath(dir, 1)] == ["mtllib " + mtl, "f " + c + " " + c + " " + c + " " + c]
            && dir + mtl in files && files[dir + mtl] == []
  {
    assert IntToString(1) == "1";
    assert dir + mtl != dir + "1.obj" by {
      assert (dir + mtl)[|dir|..] == mtl;
      assert (dir + "1.obj")[|dir|..] == "1.obj";
    }
  }

  /** Tokens of a line that has no white space at its ends: Split on ' '. */
  lemma TokensOfPlainLine(l: string, parts: seq<string>)
    requires |parts| >= 1 && forall i :: 0 <= i < |parts| ==> ' ' !in parts[i]
    requires l == Join(parts, ' ') && |l| > 0 && !IsWhiteSpace(l[0]) && !IsWhiteSpace(l[|l| - 1])
    ensures Tokens(l) == parts
  {
    assert TrimStart(l, IsWhiteSpace) == l;
    assert TrimEnd(l, IsWhiteSpace) == l;
    SplitJoin(parts, ' ');
  }

  /** The material line names `mtl`. */
  lemma QuadModelMaterialLine<F>(mtl: string, parseFloat: string -> Option<F>)
    requires Solid(mtl)
    ensures Classify("mtllib " + mtl, parseFloat) == MaterialLib(mtl)
  {
    var l := "mtllib " + mtl;
    assert l == Join(["mtllib", mtl], ' ') by {
      assert Join([mtl], ' ') == mtl;
    }
    TokensOfPlainLine(l, ["mtllib", mtl]);
    ClassifyMaterialLib(l, parseFloat);
  }

  /** The face line splits into five parts, so it is not a triangle. */
  lemma QuadModelFaceLine<F>(c: string, parseFloat: string -> Option<F>)
    requires Solid(c)
    ensures Classify("f " + c + " " + c + " " + c + " " + c, parseFloat) == Bad(NotTriangle)
  {
    var l := "f " + c + " " + c + " " + c + " " + c;
    var parts := ["f", c, c, c, c];
    assert l == Join(parts, ' ') by {
      assert Join(parts[4..], ' ') == c;
      assert Join(parts[3..], ' ') == c + " " + c;
      assert Join(parts[2..], ' ') == c + " " + c + " " + c;
      assert Join(parts[1..], ' ') == c + " " + c + " " + c + " " + c;
    }
    assert l[|l| - 1] == c[|c| - 1];
    TokensOfPlainLine(l, parts);
    ClassifyNotTriangle(l, parseFloat);
  }

  /** A material name followed by a face that is not a triangle: the parse
      stops at the face with the name appended and nothing stored. */
  lemma StoreLibThenBadFace<F>(recs: seq<LineRecord<F>>, base: string, name: string)
    requires |recs| == 2 && recs[0] == MaterialLib(name) && recs[1] == Bad(NotTriangle)
    ensures Store(recs, base) == Scan(RawModel([], [], [], []), base + name, Some(Reject(NotTriangulated(1))))
  {
    var first := recs[..1];
    assert first[..0] == [] && first[0] == MaterialLib(name);
    assert Store(first[..0], base) == Scan(RawModel([], [], [], []), base, None);
    assert Store(first, base) == Scan(RawModel([], [], [], []), base + name, None);
    assert recs[..|recs| - 1] == first;
  }

  /** The quad model's lines stop at the face line, after the material name. */
  lemma QuadModelReadLines<F>(base: string, mtl: string, c: string, parseFloat: string -> Option<F>)
    requires Solid(mtl) && Solid(c)
    ensures ReadLines(["mtllib " + mtl, "f " + c + " " + c + " " + c + " " + c], base, parseFloat)
            == Scan(RawModel([], [], [], []), base + mtl, Some(Reject(NotTriangulated(1))))
  {
    var lines := ["mtllib " + mtl, "f " + c + " " + c + " " + c + " " + c];
    QuadModelMaterialLine(mtl, parseFloat);
    QuadModelFaceLine(c, parseFloat);
    var recs := Records(lines, parseFloat);
    assert recs[0] == MaterialLib(mtl) && recs[1] == Bad(NotTriangle);
    StoreLibThenBadFace(recs, base, mtl);
  }

  /** Loading button 1 of QuadModelFiles with one spawn point: the quad face
      makes ParseObj return null, yet LoadModel returns true with a building
      that has no mesh. */
  lemma QuadModelReportsSuccess<F>(dir: string, mtl: string, c: string, parseFloat: string -> Option<F>)
    requires Solid(mtl) && Solid(c) && mtl != "1.obj"
    ensures LoadModelSpec(QuadModelFiles(dir, mtl, c), dir, 1, 1, parseFloat)
            == Returned(true, Some(Building("1", None, Material(None))))
  {
    QuadModelLookup(dir, mtl, c);
    QuadModelReadLines(dir, mtl, c, parseFloat);
    NoDiffuseMapKeepsBlank(QuadModelFiles(dir, mtl, c), dir + mtl, dir);
  }

  // The corrected LoadModel

  /** LoadModel as evidently intended: a model ParseObj refuses is reported
      as not loaded, like a missing file, and no building is made for it. */
  function LoadModelCheckedSpec<F>(files: map<string, seq<string>>, path: string, idx: int, spawnCount: nat,
                                   parseFloat: string -> Option<F>): LoadResult<F>
    requires InInt32(idx)
  {
    var objPath := ObjPath(path, idx);
    if objPath in files && ParseObjSpec(files[objPath], path, parseFloat).Halted?
       && ParseObjSpec(files[objPath], path, parseFloat).halt.Reject?
    then Returned(false, None)
    else LoadModelSpec(files, path, idx, spawnCount, parseFloat)
  }

  /** LoadModel with a null check on the mesh right after ParseObj. */
  method LoadModelChecked<F(0)>(files: map<string, seq<string>>, path: string, idx: int, spawnCount: nat,
                                parseFloat: string -> Option<F>)
    returns (r: LoadResult<F>)
    requires InInt32(idx)
    ensures r == LoadModelCheckedSpec(files, path, idx, spawnCount, parseFloat)
  {
    var pathObj := path + IntToString(idx) + ".obj";
    if pathObj !in files {
      return Returned(false, None);
    }
    var mtlPath := new PathBuilder(path);
    var texPath := new PathBuilder(path);
    var parsed := ParseObj(files[pathObj], mtlPath, parseFloat);
    match parsed {
      case Halted(Throw(fault)) => r := Raised(fault);
      case Halted(Reject(_)) => r := Returned(false, None);
      case Parsed(mesh) => r := FurnishBuilding(files, mtlPath, texPath, idx, spawnCount, Some(mesh));
    }
  }

  /** The corrected loader reports true only with the mesh ParseObj built,
      and false exactly when the model file is missing or refused. */
  lemma CheckedLoadIsHonest<F>(files: map<string, seq<string>>, path: string, idx: int, spawnCount: nat,
                               parseFloat: string -> Option<F>)
    requires InInt32(idx)
    ensures var r := LoadModelCheckedSpec(files, path, idx, spawnCount, parseFloat);
            var objPath := ObjPath(path, idx);
            r.Returned? && r.loaded ==>
              && objPath in files && ParseObjSpec(files[objPath], path, parseFloat).Parsed?
              && r.building.Some?
              && r.building.value.mesh == Some(ParseObjSpec(files[objPath], path, parseFloat).mesh)
    ensures var r := LoadModelCheckedSpec(files, path, idx, spawnCount, parseFloat);
            var objPath := ObjPath(path, idx);
            r.Returned? && !r.loaded <==>
              objPath !in files || (ParseObjSpec(files[objPath], path, parseFloat).Halted?
                                    && ParseObjSpec(files[objPath], path, parseFloat).halt.Reject?)
    ensures var objPath := ObjPath(path, idx);
            !(objPath in files && ParseObjSpec(files[objPath], path, parseFloat).Halted?
              && ParseObjSpec(files[objPath], path, parseFloat).halt.Reject?) ==>
              LoadModelCheckedSpec(files, path, idx, spawnCount, parseFloat)
              == LoadModelSpec(files, path, idx, spawnCount, parseFloat)
  {
    LoadModelOutcomes(files, path, idx, spawnCount, parseFloat);
    var objPath := ObjPath(path, idx);
    if objPath in files {
      var parsed := ParseObjSpec(files[objPath], path, parseFloat);
      if !(parsed.Halted? && parsed.halt.Reject?) {
        assert LoadModelCheckedSpec(files, path, idx, spawnCount, parseFloat)
               == LoadModelSpec(files, path, idx, spawnCount, parseFloat);
      }
    }
  }

  /** On the quad model the corrected loader reports false. */
  lemma QuadModelCheckedFails<F>(dir: string, mtl: string, c: string, parseFloat: string -> Option<F>)
    requires Solid(mtl) && Solid(c) && mtl != "1.obj"
    ensures LoadModelCheckedSpec(QuadModelFiles(dir, mtl, c), dir, 1, 1, parseFloat) == Returned(false, None)
  {
    QuadModelLookup(dir, mtl, c);
    QuadModelReadLines(dir, mtl, c, parseFloat);
  }
}
