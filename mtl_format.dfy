/**
 * What CreateMaterial reads out of a material file: the first `map_Kd`
 * statement names the diffuse texture, resolved against the model's base
 * directory; without one the blank placeholder texture stays.
 */
module MtlFormat {
  import opened Wrappers
  import opened ObjFormat

  /** The material handed to the renderer. Its main texture is the blank 2x2
      placeholder; `textureUrl` is the URL of the texture load that was
      started into it, if any. */
  datatype Material = Material(textureUrl: Option<string>)

  /** The first part of each line, after trimming and splitting on ' '. */
  function Heads(lines: seq<string>): (heads: seq<string>)
    ensures |heads| == |lines|
    ensures forall i :: 0 <= i < |lines| ==> heads[i] == Tokens(lines[i])[0]
  {
    seq(|lines|, i requires 0 <= i < |lines| => Tokens(lines[i])[0])
  }

  /** The index of the first occurrence of `tag` in `heads`. */
  function FirstIndexOf(heads: seq<string>, tag: string): (r: Option<nat>)
    ensures r.Some? ==> r.value < |heads| && heads[r.value] == tag
    ensures r.Some? ==> forall j :: 0 <= j < r.value ==> heads[j] != tag
    ensures r.None? ==> forall j :: 0 <= j < |heads| ==> heads[j] != tag
    decreases |heads|
  {
    if |heads| == 0 then None
    else if heads[0] == tag then Some(0)
    else
      match FirstIndexOf(heads[1..], tag)
      case None => None
      case Some(k) => Some(k + 1)
  }

  /** The index of the first `map_Kd` line. */
  function FirstMapKd(lines: seq<string>): Option<nat> {
    FirstIndexOf(Heads(lines), "map_Kd")
  }

  /** The URL LoadTexture fetches a texture path from. */
  function TextureUrl(path: string): string {
    "file://" + path
  }

  /** CreateMaterial on the file system `files`, reading the material file
      `mtlFile` and resolving the texture name against `texBase`. */
  function ResolveMaterial(files: map<string, seq<string>>, mtlFile: string, texBase: string): Result<Material, Fault> {
    if mtlFile !in files then Failure(NoSuchFile(mtlFile))
    else
      var lines := files[mtlFile];
      match FirstMapKd(lines)
      case None => Success(Material(None))
      case Some(k) =>
        var parts := Tokens(lines[k]);
        if |parts| < 2 then Failure(MissingMaterialPart(k))
        else Success(Material(Some(TextureUrl(texBase + parts[1]))))
  }

  /** The first occurrence is unique. */
  lemma FirstIndexOfIsFirst(heads: seq<string>, tag: string, k: nat)
    requires k < |heads| && heads[k] == tag && forall j :: 0 <= j < k ==> heads[j] != tag
    ensures FirstIndexOf(heads, tag) == Some(k)
  {
  }

  /** A missing material file throws. */
  lemma MissingMaterialThrows(files: map<string, seq<string>>, mtlFile: string, texBase: string)
    requires mtlFile !in files
    ensures ResolveMaterial(files, mtlFile, texBase) == Failure(NoSuchFile(mtlFile))
  {
  }

  /** Without any `map_Kd` line no texture load starts: the blank texture stays. */
  lemma NoDiffuseMapKeepsBlank(files: map<string, seq<string>>, mtlFile: string, texBase: string)
    requires mtlFile in files
    requires forall j :: 0 <= j < |files[mtlFile]| ==> Heads(files[mtlFile])[j] != "map_Kd"
    ensures ResolveMaterial(files, mtlFile, texBase) == Success(Material(None))
  {
  }

  /** The texture requested is the base path plus the second part of the
      first `map_Kd` line, whatever later `map_Kd` lines say; a first
      `map_Kd` line without a second part throws. */
  lemma FirstDiffuseMapWins(files: map<string, seq<string>>, mtlFile: string, texBase: string, k: nat)
    requires mtlFile in files && k < |files[mtlFile]|
    requires Heads(files[mtlFile])[k] == "map_Kd"
    requires forall j :: 0 <= j < k ==> Heads(files[mtlFile])[j] != "map_Kd"
    ensures var parts := Tokens(files[mtlFile][k]);
            ResolveMaterial(files, mtlFile, texBase) ==
            if |parts| < 2 then Failure(MissingMaterialPart(k))
            else Success(Material(Some("file://" + texBase + parts[1])))
  {
    FirstIndexOfIsFirst(Heads(files[mtlFile]), "map_Kd", k);
    assert FirstMapKd(files[mtlFile]) == Some(k);
    var parts := Tokens(files[mtlFile][k]);
    if |parts| >= 2 {
      assert TextureUrl(texBase + parts[1]) == "file://" + texBase + parts[1];
    }
  }
}
