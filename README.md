# ModelLoader: OBJ/MTL parsing and mesh expansion

This project models the core of `ModelLoader`, a Unity component that loads a
building model when its button is pressed. The Dafny model covers:

- **LoadModel(idx)** forms the model path `path + idx + ".obj"`. It returns
  false when that file does not exist. Otherwise it builds a GameObject from
  the file's mesh and material and returns true.
- **ParseObj** reads the model file line by line. It skips empty lines and
  lines with `#` in the first column. It trims every other line and splits it
  on `' '`, then switches on the first part:
  - `v`, `vn` and `vt` append a vector to their own raw list;
  - `f` must have exactly four parts, or the parse returns null; its three
    corners `a/b/c` become 0-based `TriData` triples;
  - `mtllib` appends its name to the material-path builder.

  Then the 65k size guard refuses more than 64999 raw positions or corners.
  Finally, the expansion loop writes one output vertex, texture coordinate
  and normal per corner, plus the identity index buffer.
- **CreateMaterial** reads the material file named by the material path. The
  first `map_Kd` line starts **LoadTexture**, which prefixes `file://` to the
  texture path. Without such a line the blank placeholder texture stays.
- **LineToVector2/3** read parts 1..2 or 1..3 of a line as numbers.

The loader's own structure is kept where it changes things step by step:
- the `StringBuilder`s are a `PathBuilder` class updated in place;
- ParseObj, CreateMaterial and the corner loop are methods with loops;
- the expansion fills four arrays.

Each method is proved equal to a specification function, and the properties
are proved as lemmas about those functions. The model also defines the
.NET behaviour the loader relies on:
- `String.Trim`, with the white-space set of `Char.IsWhiteSpace` as in
  .NET Framework 4.6.2 and later and .NET Core;
- `String.Split(char)`;
- `Int32.Parse` and `Int32.ToString()` under the invariant culture: ASCII
  digits, and `-` as the negative sign;
- the 32-bit wrap-around of `n - 1`.

Parameters stand in for what the model cannot see:
- **File system:** a map `files` from path to lines. An absent key means
  `File.Exists` is false, and `ReadAllLines` throws `FileNotFoundException`.
- **`float.Parse`:** a function `parseFloat: string -> Option<F>` over an
  abstract number type `F`. `None` stands for the exception.
- **`pathInput.text` and the spawn points:** a string `path` and a count
  `spawnCount`.

ParseObj has three kinds of outcome:
- `Parsed(mesh)`;
- `Halted(Reject(..))`, for `return null` (a face that is not a triangle, or
  a model that is too large);
- `Halted(Throw(..))`, for an exception. The exception is a missing part,
  a bad number, or a corner past a raw list.

LoadModel's outcome is `Returned(flag, building)` or `Raised(fault)`.

Modules:
- `CsText`: the .NET string and integer operations;
- `ObjFormat`: line records, the record store, the guard and the expansion;
- `MtlFormat`: the `map_Kd` search;
- `ModelLoader`: the builders and the loader's methods;
- `Wrappers`: Option and Result.

Some behaviours of the code are easy to miss, and the model keeps them:
- **Splitting.** Lines are split on single spaces, not on white space.
  Two adjacent spaces or a tab inside a line therefore change the parts: a
  face written with a double space has more than four parts and is refused.
- **Material errors.** A missing material file does not fall back to the
  blank texture: the exception escapes LoadModel. A first `map_Kd` line
  without a name escapes as well. Only a material file with no `map_Kd` line
  at all keeps the blank texture.
- **Refused models.** A model ParseObj refuses is still attached as a null
  mesh, and LoadModel returns true (see Findings).
- **Bad components.** A missing component throws
  `IndexOutOfRangeException`, and a non-numeric one `FormatException` or
  `OverflowException`. Neither returns null. Only a non-triangle face and
  the size guard return null (RejectOnlyFrom).

## Model

| member | source | states |
|---|---|---|
| ModelLoader.PathBuilder.constructor | Assets/ModelLoader.cs:58-59 | a new builder holds exactly the text it was given |
| ModelLoader.PathBuilder.Append | Assets/ModelLoader.cs:125 | Append adds the string at the end and changes nothing else |
| ModelLoader.PathBuilder.InsertAtStart | Assets/ModelLoader.cs:189 | Insert(0, s) puts s in front of the old text |
| ModelLoader.ObjPath | Assets/ModelLoader.cs:49 | definition of the model path; meaning in ObjPathParts, ObjPathInjective |
| ModelLoader.ObjPathParts | Assets/ModelLoader.cs:49 | the model path starts with the base path and ends with ".obj"; the part between them reads back as idx |
| ModelLoader.ObjPathInjective | Assets/ModelLoader.cs:49 | distinct buttons open distinct model files |
| ModelLoader.ReadLineRecord | Assets/ModelLoader.cs:86-126 | the loop body (skip test, trim, split, switch, vector and corner reads) yields the line's record Classify |
| ModelLoader.ReadFaceCorners | Assets/ModelLoader.cs:113-121 | the j = 1..3 loop yields the corners of parts 1..3 in order, or the first corner's failure |
| ModelLoader.ParseObj | Assets/ModelLoader.cs:75-163 | the method's outcome is ParseObjSpec of the lines and the old material path; the builder ends holding the base path plus every mtllib name read before the parse stopped |
| ModelLoader.StoreCorner | Assets/ModelLoader.cs:150-153 | one loop pass writes slot i of the four arrays (the looked-up values and the index i) and keeps every other slot |
| ModelLoader.ExpandCorners | Assets/ModelLoader.cs:142-154 | the four arrays the loop fills equal Expand over all corners; a corner out of range gives that corner's exception |
| ModelLoader.LoadTexture | Assets/ModelLoader.cs:187-192 | the texture path becomes "file://" + the old path, and that is the URL fetched |
| ModelLoader.CreateMaterial | Assets/ModelLoader.cs:166-185 | the outcome is ResolveMaterial of the material path; the texture builder changes only when a texture load starts, and then holds its URL |
| ModelLoader.StartDiffuseMap | Assets/ModelLoader.cs:177-181 | a map_Kd line without a second part throws; otherwise the texture URL is "file://" + base path + that part |
| ModelLoader.FurnishBuilding | Assets/ModelLoader.cs:61-64 | CreateMaterial, then the spawn-point lookup at idx - 1, then true, as Furnish states; the texture builder ends holding the URL of the texture load started, or its old text when none started |
| ModelLoader.LoadModel | Assets/ModelLoader.cs:46-65 | the method equals LoadModelSpec: path formation, the existence check, the parse, the material, the spawn point |
| ModelLoader.Furnish | Assets/ModelLoader.cs:61-64 | definition of the steps after the parse; meaning in LoadModelOutcomes |
| ModelLoader.LoadModelSpec | Assets/ModelLoader.cs:46-65 | definition of LoadModel's outcome; meaning in LoadModelOutcomes, RejectedModelReportsSuccess |
| ModelLoader.LoadModelOutcomes | Assets/ModelLoader.cs:46-65 | false exactly when the model file is missing; true exactly when a building was made; on true, the parse did not throw, the material resolved, the spawn point exists and the building is named idx and carries the parse's mesh, if any |
| ModelLoader.LoadModelLoads | Assets/ModelLoader.cs:57-64 | the converse: a present model whose parse does not throw, whose material resolves and whose spawn point exists makes LoadModel return true with the building named idx, carrying the parse's mesh (if any) and the material |
| ModelLoader.RejectedModelReportsSuccess | Assets/ModelLoader.cs:60-64 | as written: a model ParseObj refuses still returns true, with a building that has no mesh |
| ModelLoader.QuadModelReportsSuccess | Assets/ModelLoader.cs:60-64 | as written: a model with one quad face returns true with a mesh-less building named "1" |
| ModelLoader.LoadModelChecked | Assets/ModelLoader.cs:46-65 | the corrected loader, which checks for the null mesh, equals LoadModelCheckedSpec |
| ModelLoader.CheckedLoadIsHonest | Assets/ModelLoader.cs:51-64 | corrected: true only with the mesh ParseObj built; false exactly when the file is missing or refused; on every model it does not refuse, it behaves as LoadModel |
| ModelLoader.QuadModelCheckedFails | Assets/ModelLoader.cs:60-64 | corrected: the quad model reports false and makes no building |
| ObjFormat.Tokens | Assets/ModelLoader.cs:90 | a trimmed, split line always has a first part |
| ObjFormat.LineToVector2 | Assets/ModelLoader.cs:194-197 | succeeds exactly when parts 1 and 2 exist and parse, giving (part 1, part 2); a failure is a missing part or a bad number, never a refusal; it is a missing part exactly when fewer than three parts exist and every one of them parses |
| ObjFormat.LineToVector3 | Assets/ModelLoader.cs:199-202 | succeeds exactly when parts 1, 2 and 3 exist and parse, giving them in order; a failure is a missing part or a bad number, never a refusal; it is a missing part exactly when fewer than four parts exist and every one of them parses |
| ObjFormat.Dec32 | Assets/ModelLoader.cs:118-120 | `int - 1` stays a 32-bit int: the true difference, except that Int32.MinValue wraps to Int32.MaxValue |
| ObjFormat.CornerPrefix | Assets/ModelLoader.cs:113-121 | a successful corner loop over parts 1..n-1 yields exactly n - 1 corners |
| ObjFormat.Classify | Assets/ModelLoader.cs:86-127 | definition of what one line contributes (the skip test and the switch); meaning in ClassifyIgnores, ClassifyMaterialLib, ClassifyNotTriangle, ClassifyFace, FaceLineCorners, ClassifyAgrees |
| ObjFormat.ParseCorner | Assets/ModelLoader.cs:115-120 | definition of one corner's read; meaning in ParseCornerMeaning, CornerRoundTrip |
| ObjFormat.ParseIndex | Assets/ModelLoader.cs:118-120 | definition of `int.Parse(part) - 1`; meaning in ParseCornerMeaning |
| ObjFormat.Step | Assets/ModelLoader.cs:95-126 | definition of how one record is stored; meaning in StoreKeepsRecords, ReadLinesStep |
| ObjFormat.Store | Assets/ModelLoader.cs:84-128 | definition of the loop over the records; meaning in StoreKeepsRecords, StoreFirstBad, HaltPersists |
| ObjFormat.ReadLines | Assets/ModelLoader.cs:84-128 | definition of the loop over the lines; meaning in StoreKeepsRecords, ReadLinesHalted |
| ObjFormat.Expand | Assets/ModelLoader.cs:147-154 | definition of the expansion loop; meaning in ExpandSucceeds, ExpandLooksUp, ExpandFailsFirst |
| ObjFormat.ExceedsLimit | Assets/ModelLoader.cs:130 | definition of the 65k guard; meaning in SizeGuard |
| ObjFormat.ParseObjSpec | Assets/ModelLoader.cs:75-163 | definition of ParseObj's outcome; meaning in ParseObjMesh, NonTriangleFails, SizeGuard, CornerOutOfRangeThrows |
| ObjFormat.HaltPersists | Assets/ModelLoader.cs:108-111 | once a record stops the parse, later lines change nothing |
| ObjFormat.StoreKeepsRecords | Assets/ModelLoader.cs:84-128 | the parse stops exactly when some record is bad; otherwise every position, normal, texture coordinate and corner is kept in order in its own list, and the mtllib names are appended to the base path in order |
| ObjFormat.StoreFirstBad | Assets/ModelLoader.cs:84-128 | the first bad line stops the parse with that line's reason and with the lists as the earlier lines left them |
| ObjFormat.CornersPerFace | Assets/ModelLoader.cs:113-121 | three corners per face record |
| ObjFormat.ClassifyAgrees | Assets/ModelLoader.cs:86-122 | a line gives a face record exactly when it is an f line that reads, and then it has three corners; likewise v lines and positions, vn lines and normals, vt lines and texture coordinates |
| ObjFormat.CountsAgree | Assets/ModelLoader.cs:84-128 | on records that agree with their lines, the face and position records count the f and v lines |
| ObjFormat.RecordsAgree | Assets/ModelLoader.cs:84-128 | every record of a file agrees with its line |
| ObjFormat.CleanCounts | Assets/ModelLoader.cs:84-128 | on a file without errors: one raw position per v line, three corners per f line |
| ObjFormat.PositionsPerRecord | Assets/ModelLoader.cs:95-97 | one raw position per position record |
| ObjFormat.ParseCornerMeaning | Assets/ModelLoader.cs:115-120 | a corner reads exactly when its /-parts 0, 1 and 2 exist and are integers, and then holds each minus one, in that order; a corner that fails throws (a missing part or a bad number), never a refusal |
| ObjFormat.CornerOfParts | Assets/ModelLoader.cs:115-120 | a token whose /-parts are three written integers reads as those integers minus one |
| ObjFormat.CornerRoundTrip | Assets/ModelLoader.cs:115-120 | the corner "a+1/b+1/c+1" reads back as the 0-based TriData(a, b, c) |
| ObjFormat.ClassifyIgnores | Assets/ModelLoader.cs:87-93 | empty lines, lines with # in column 0 and unknown tags contribute nothing |
| ObjFormat.ClassifyMaterialLib | Assets/ModelLoader.cs:124-126 | an mtllib line contributes its second part verbatim |
| ObjFormat.ClassifyMaterialLibMissing | Assets/ModelLoader.cs:124-126 | a bare mtllib line, without a second part, throws IndexOutOfRangeException |
| ObjFormat.ClassifyNotTriangle | Assets/ModelLoader.cs:107-112 | an f line with other than four parts is refused as not triangulated |
| ObjFormat.ClassifyFace | Assets/ModelLoader.cs:107-122 | an f line of four parts is a face of its corners, or bad with the corner loop's problem |
| ObjFormat.CornerPrefixOfFour | Assets/ModelLoader.cs:113-121 | the corner loop over parts 1..3 succeeds exactly when each corner reads, and then gives the three corners in order |
| ObjFormat.FaceLineCorners | Assets/ModelLoader.cs:107-122 | a four-part f line is a face exactly when its three corners read, with the corners in the order written; otherwise the line is bad with a problem that throws, not a refusal |
| ObjFormat.ExpandSucceeds | Assets/ModelLoader.cs:147-154 | expansion succeeds exactly when every corner is in range |
| ObjFormat.ExpandLooksUp | Assets/ModelLoader.cs:147-154 | a successful expansion has one entry per corner, each attribute looked up by that corner's own index, and the identity index buffer |
| ObjFormat.ExpandFailsFirst | Assets/ModelLoader.cs:147-154 | a failed expansion names the first corner out of range |
| ObjFormat.ExpandMeaning | Assets/ModelLoader.cs:147-154 | the three expansion properties together |
| ObjFormat.ParseObjMesh | Assets/ModelLoader.cs:75-163 | ParseObj gives a mesh exactly when every line reads, the guard passes and every corner is in range; the mesh is then the pointwise expansion with 3 × (number of f lines) vertices and the identity index buffer |
| ObjFormat.NonTriangleFails | Assets/ModelLoader.cs:107-112 | a non-triangle f line stops the parse however fine the other lines are; with no earlier bad line, the result is null with that line as the reason |
| ObjFormat.CornerPrefixThrows | Assets/ModelLoader.cs:113-121 | a failing corner loop fails with a problem that throws, never a refusal |
| ObjFormat.NotTriangleOnlyFromFace | Assets/ModelLoader.cs:107-112 | a line is refused exactly when it is an f line without four parts; every other bad line throws |
| ObjFormat.FirstBad | Assets/ModelLoader.cs:84-128 | the index where the line loop stops: every earlier record is fine, and the record there, if any, is bad |
| ObjFormat.RejectOnlyFrom | Assets/ModelLoader.cs:107-134 | ParseObj returns null exactly when the first bad line is an f line without four parts (that line is then the reason), or when no line is bad and the guard refuses the model |
| ObjFormat.SizeGuard | Assets/ModelLoader.cs:130-134 | on a file without errors, the model is refused as too large exactly when there are more than 64999 v lines or more than 64999 corners (more than 21666 f lines); exactly 64999 passes |
| ObjFormat.CornerOutOfRangeThrows | Assets/ModelLoader.cs:147-153 | a corner past a raw list throws at the first such corner, never giving a default value |
| ObjFormat.ReadLinesStep | Assets/ModelLoader.cs:84-128 | reading one more line applies that line's record to the state |
| ObjFormat.ReadLinesHalted | Assets/ModelLoader.cs:84-128 | a parse stopped after some line stays stopped to the end of the file |
| ObjFormat.CornerPrefixFails | Assets/ModelLoader.cs:113-121 | a corner that does not read fails the whole face with its problem |
| ObjFormat.ExpandStep | Assets/ModelLoader.cs:147-154 | expanding one more in-range corner appends its lookups and its index |
| ObjFormat.ExpandFailurePersists | Assets/ModelLoader.cs:147-154 | an expansion that failed at a corner stays failed there |
| MtlFormat.ResolveMaterial | Assets/ModelLoader.cs:166-185 | definition of CreateMaterial's outcome; meaning in MissingMaterialThrows, NoDiffuseMapKeepsBlank, FirstDiffuseMapWins |
| MtlFormat.FirstIndexOf | Assets/ModelLoader.cs:174-182 | the search result is an index holding the tag with no earlier occurrence, or none when no line holds it |
| MtlFormat.FirstIndexOfIsFirst | Assets/ModelLoader.cs:174-181 | the first index holding the tag is what the search finds |
| MtlFormat.MissingMaterialThrows | Assets/ModelLoader.cs:173 | a missing material file throws FileNotFoundException |
| MtlFormat.NoDiffuseMapKeepsBlank | Assets/ModelLoader.cs:170-185 | without a map_Kd line no texture load starts, and the blank texture stays |
| MtlFormat.FirstDiffuseMapWins | Assets/ModelLoader.cs:174-181 | the first map_Kd line decides the texture, "file://" + base path + its second part, whatever later lines say; without a second part it throws |
| CsText.TrimStart | Assets/ModelLoader.cs:90 | trimming never lengthens the string |
| CsText.TrimEnd | Assets/ModelLoader.cs:90 | trimming never lengthens the string |
| CsText.Trim | Assets/ModelLoader.cs:90 | definition of String.Trim; meaning in TrimMeaning |
| CsText.TrimStartMeaning | Assets/ModelLoader.cs:90 | TrimStart keeps a suffix and drops only white characters, up to the first character that is not white |
| CsText.TrimEndMeaning | Assets/ModelLoader.cs:90 | TrimEnd keeps a prefix and drops only white characters, after the last character that is not white |
| CsText.TrimBothMeaning | Assets/ModelLoader.cs:90 | trimming both ends keeps a slice with only white characters around it and none at its ends |
| CsText.TrimMeaning | Assets/ModelLoader.cs:90 | String.Trim keeps the middle of the line between its leading and trailing white space |
| CsText.Split | Assets/ModelLoader.cs:90 | Split gives one more part than there are separators, and no part holds a separator |
| CsText.JoinSplit | Assets/ModelLoader.cs:90 | splitting loses nothing: joining the parts gives the line back |
| CsText.SplitPrefix | Assets/ModelLoader.cs:115 | a separator-free prefix is glued to the first part |
| CsText.SplitJoin | Assets/ModelLoader.cs:115 | joining separator-free parts and splitting again gives the parts back |
| CsText.ParseInt32 | Assets/ModelLoader.cs:118-120 | int.Parse only ever gives a 32-bit value |
| CsText.IntToString | Assets/ModelLoader.cs:49 | definition of Int32.ToString(); meaning in NatToStringDigits, ParseIntToString, IntToStringInjective |
| CsText.NatToStringDigits | Assets/ModelLoader.cs:49 | the decimal form is nonempty, all digits, and has the number's value |
| CsText.ParseIntToString | Assets/ModelLoader.cs:49 | int.Parse reads back what ToString wrote |
| CsText.IntToStringHasNoSlash | Assets/ModelLoader.cs:49 | a written integer holds neither '/' nor ' ' |
| CsText.IntToStringInjective | Assets/ModelLoader.cs:49 | distinct 32-bit values have distinct decimal forms |

## Left out

- Awake, the buttons and the input field: the button handler's
  `int.Parse(b.name)` and its `interactable` update are UI wiring. The model
  takes idx and the path text as parameters.
- The GameObject's scale and position. Only the `spawnPoints[idx - 1]`
  lookup is kept, as the count `spawnCount` and its
  `IndexOutOfRangeException`. Spawn points are not sorted by name.
- The GameObject that stays in the scene when a later step throws. The
  model reports only the exception.
- Unity's Mesh, Material, Texture2D and Shader objects, and
  `RecalculateBounds`: a mesh is its four sequences, and a material is the
  URL of the texture load it started.
- The LoadTexture coroutine after its first step: the WWW download and
  `LoadImageIntoTexture` run later and asynchronously, through I/O.
- `float.Parse`: abstracted as the `parseFloat` parameter, together with its
  culture rules and a float's range and precision.
- ParseInt32: does not model a culture's own sign strings or trailing NUL
  characters. It accepts ASCII white space, an optional `+` or `-`, and
  ASCII digits.
- IntToString: always writes `-` for a negative value; a culture with
  another negative sign is not modelled.
- Trim: uses the white-space set of .NET Framework 4.6.2 and later and
  .NET Core. .NET Framework 4.0 to 4.6.1 also trim U+180E. Older runtimes,
  and the Mono profiles of older Unity versions, also trim U+200B and U+FEFF,
  and do not trim U+202F or U+205F.
- File I/O: the file system is a map that does not change during a load.
  `ReadAllLines` line splitting and encodings are outside the model.
- Component: `parseFloat` is left unconstrained. In particular, the model
  does not force `float.Parse("")` to throw, although it always does: a
  `v` line with a doubled space throws `FormatException`. Every lemma holds
  for every `parseFloat`.
- ResolveMaterial: a material path naming a directory counts as a missing
  file. This happens with no `mtllib` line, where the path is the bare base
  directory. The exception .NET raises there is an access or I/O error, not
  `FileNotFoundException`; the model does not tell them apart.
- Debug.Log and Debug.LogError: they have no effect on the outcome.
- Aliasing: the model does not consider the two builders being the same
  object. LoadModel creates them separately.
- ParseObj: the raw lists (`List<T>.Add`) are modelled as sequence
  variables, not as list objects.

## Findings

| source | as written | input that shows it | evidently intended | confidence | as-written member | corrected member |
|---|---|---|---|---|---|---|
| Assets/ModelLoader.cs:60-64 | the mesh from ParseObj is attached without a null check, and LoadModel then returns true even when ParseObj returned null (a face that is not a triangle, or more than 64999 vertices or corners) | `QuadModelFiles("m/", "a.mtl", "1")`: `m/1.obj` holds `mtllib a.mtl` and `f 1 1 1 1`, and `m/a.mtl` is empty; button 1, one spawn point. LoadModel returns true with a building "1" that has no mesh, so the button is disabled as if the model had loaded | a refused model is reported as not loaded and no mesh-less building is made | not executed | ModelLoader.QuadModelReportsSuccess | ModelLoader.CheckedLoadIsHonest |
