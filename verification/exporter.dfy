/** The exporter: turns the generator's two meshes into a two-mesh scene in
    the chosen axis convention, checks the command's format and orientation
    arguments, and derives the output path. Building the scene objects of
    the 3D-format library, creating the output directory and writing the
    file are outside the model; the generator's result and the writer's
    success are parameters. */
module Exporter {
  import opened Wrappers
  import opened Meshes
  import opened Text

  // ---------------------------------------------------------------------
  // Scene

  /** A triangle of the exported scene: exactly three vertex indices. */
  datatype Face = Face(a: Index, b: Index, c: Index)

  datatype Color = Color(r: real, g: real, b: real)

  datatype Material = Material(name: string, diffuse: Color)

  datatype SceneMesh = SceneMesh(name: string, materialIndex: nat, vertices: seq<Vec3>, faces: seq<Face>)

  /** The exported scene: its materials, its meshes, and the mesh numbers
      the root node refers to. */
  datatype Scene = Scene(materials: seq<Material>, meshes: seq<SceneMesh>, rootMeshes: seq<nat>)

  const MaterialName: string := "Material"
  const MaterialColor: Color := Color(0.5, 0.5, 0.5)
  const ExportDataError: string := "Failed to generate the export data."

  // ---------------------------------------------------------------------
  // Axis convention

  /** The generator's meshes are y-up. For a z-up export (x, y, z) becomes
      (x, -z, y); for a y-up export the vertex is copied unchanged. */
  function ToExportAxes(v: Vec3, zUp: bool): Vec3 {
    if zUp then Vec3(v.x, -v.z, v.y) else v
  }

  /** The generator's coordinates of an exported vertex. */
  function FromExportAxes(v: Vec3, zUp: bool): Vec3 {
    if zUp then Vec3(v.x, v.z, -v.y) else v
  }

  /** The two conversions undo each other, so the export loses no vertex
      information; in a z-up export the generator's height (y) is the
      exported z, and the remap is a rotation (lengths are preserved). */
  lemma ExportAxesRoundTrip(v: Vec3, zUp: bool)
    ensures FromExportAxes(ToExportAxes(v, zUp), zUp) == v
    ensures ToExportAxes(FromExportAxes(v, zUp), zUp) == v
    ensures zUp ==> ToExportAxes(v, zUp).z == v.y
    ensures var w := ToExportAxes(v, zUp); w.x * w.x + w.y * w.y + w.z * w.z == v.x * v.x + v.y * v.y + v.z * v.z
  {
  }

  // ---------------------------------------------------------------------
  // Faces

  function FaceIndices(f: Face): seq<Index> {
    [f.a, f.b, f.c]
  }

  /** The index list a sequence of faces spells, face after face. */
  function Flatten(faces: seq<Face>): (ix: seq<Index>)
    ensures |ix| == 3 * |faces|
  {
    if |faces| == 0 then [] else FaceIndices(faces[0]) + Flatten(faces[1..])
  }

  /** Position `3 * i + k` of the flattened list is corner `k` of face `i`. */
  lemma {:induction false} FlattenAt(faces: seq<Face>, i: nat)
    requires i < |faces|
    ensures Flatten(faces)[3 * i] == faces[i].a
    ensures Flatten(faces)[3 * i + 1] == faces[i].b
    ensures Flatten(faces)[3 * i + 2] == faces[i].c
  {
    if i > 0 {
      FlattenAt(faces[1..], i - 1);
    }
  }

  /** Groups a flat index list into triangles: face `i` is indices
      `3 * i`, `3 * i + 1` and `3 * i + 2`. */
  function GroupFaces(indices: seq<Index>): (faces: seq<Face>)
    requires |indices| % 3 == 0
    ensures |faces| == |indices| / 3
  {
    seq(|indices| / 3, i requires 0 <= i < |indices| / 3 =>
      Face(indices[3 * i], indices[3 * i + 1], indices[3 * i + 2]))
  }

  /** Concatenating the grouped faces gives the index list back. */
  lemma {:induction false} FlattenGroupFaces(indices: seq<Index>)
    requires |indices| % 3 == 0
    ensures Flatten(GroupFaces(indices)) == indices
  {
    if |indices| > 0 {
      var rest := indices[3..];
      assert GroupFaces(indices)[1..] == GroupFaces(rest);
      FlattenGroupFaces(rest);
      assert indices == indices[..3] + rest;
    }
  }

  /** Grouping the flattened faces gives the faces back. */
  lemma GroupFlattenFaces(faces: seq<Face>)
    ensures GroupFaces(Flatten(faces)) == faces
  {
  }

  /** Converts one generator mesh into a scene mesh: the vertices, remapped
      to the export axes and in their original order, then the faces. The
      conversion fails when the index count is not a multiple of three. */
  function SceneMeshOf(name: string, mesh: Mesh, zUp: bool): (r: Result<SceneMesh, string>)
    ensures r.Success? <==> |mesh.indices| % 3 == 0
    ensures r.Failure? ==> r.error == ExportDataError
    ensures r.Success? ==>
      && r.value.name == name
      && r.value.materialIndex == 0
      && |r.value.vertices| == |mesh.vertices|
      && (forall i :: 0 <= i < |mesh.vertices| ==> FromExportAxes(r.value.vertices[i], zUp) == mesh.vertices[i])
      && |r.value.faces| == |mesh.indices| / 3
      && Flatten(r.value.faces) == mesh.indices
  {
    var vertices := seq(|mesh.vertices|, i requires 0 <= i < |mesh.vertices| => ToExportAxes(mesh.vertices[i], zUp));
    if |mesh.indices| % 3 != 0 then Failure(ExportDataError)
    else
      FlattenGroupFaces(mesh.indices);
      Success(SceneMesh(name, 0, vertices, GroupFaces(mesh.indices)))
  }

  /** Every corner of every face names an existing vertex. */
  predicate FacesInRange(m: SceneMesh) {
    forall i :: 0 <= i < |m.faces| ==>
      m.faces[i].a < |m.vertices| && m.faces[i].b < |m.vertices| && m.faces[i].c < |m.vertices|
  }

  /** A mesh whose indices are all in range converts into a scene mesh
      whose faces are all in range. */
  lemma SceneMeshOfInRange(name: string, mesh: Mesh, zUp: bool)
    requires IndicesInRange(mesh)
    requires |mesh.indices| % 3 == 0
    ensures FacesInRange(SceneMeshOf(name, mesh, zUp).value)
  {
  }

  /** The scene: one material, the terrain mesh as mesh 0 named "DFT", the
      base mesh as mesh 1 named "Base", and the root node referring to both. */
  function GenerateScene(dft: Mesh, base: Mesh, zUp: bool): (r: Result<Scene, string>)
    ensures r.Success? <==> |dft.indices| % 3 == 0 && |base.indices| % 3 == 0
    ensures r.Failure? ==> r.error == ExportDataError
    ensures r.Success? ==>
      && r.value.materials == [Material(MaterialName, MaterialColor)]
      && |r.value.meshes| == 2
      && r.value.meshes[0] == SceneMeshOf("DFT", dft, zUp).value
      && r.value.meshes[1] == SceneMeshOf("Base", base, zUp).value
      && r.value.rootMeshes == [0, 1]
      && SceneLinked(r.value)
  {
    var dftMesh :- SceneMeshOf("DFT", dft, zUp);
    var baseMesh :- SceneMeshOf("Base", base, zUp);
    Success(Scene([Material(MaterialName, MaterialColor)], [dftMesh, baseMesh], [0, 1]))
  }

  /** Every mesh the root node refers to exists, every mesh is referred to,
      and every mesh's material exists. */
  predicate SceneLinked(s: Scene) {
    && (forall i :: 0 <= i < |s.rootMeshes| ==> s.rootMeshes[i] < |s.meshes|)
    && (forall m :: 0 <= m < |s.meshes| ==> m in s.rootMeshes)
    && (forall m :: 0 <= m < |s.meshes| ==> s.meshes[m].materialIndex < |s.materials|)
  }

  // ---------------------------------------------------------------------
  // Arguments and output path

  const ExportsDirectory: string := "Exports/"
  const SupportedFormats: seq<string> := ["ply", "obj", "stl"]
  const FormatError: string := "Unrecognized export format."
  const OrientationError: string := "'orientation' must be either 'z-up' or 'y-up'."
  const WriteError: string := "Export failed."

  /** Whether the export is z-up; `None` for an unknown orientation. */
  function ParseOrientation(orientation: string): (r: Option<bool>)
    ensures r == Some(true) <==> orientation == "z-up"
    ensures r == Some(false) <==> orientation == "y-up"
  {
    if orientation == "z-up" then Some(true)
    else if orientation == "y-up" then Some(false)
    else None
  }

  /** The file name with every period turned into a dash. */
  function ReplaceDots(s: string): (r: string)
    ensures |r| == |s|
    ensures '.' !in r
    ensures forall i :: 0 <= i < |s| && s[i] != '.' ==> r[i] == s[i]
    ensures forall i :: 0 <= i < |s| && s[i] == '.' ==> r[i] == '-'
  {
    seq(|s|, i requires 0 <= i < |s| => if s[i] == '.' then '-' else s[i])
  }

  /** Replacing periods twice is replacing them once; a name without periods
      is left alone. */
  lemma ReplaceDotsIdempotent(s: string)
    ensures ReplaceDots(ReplaceDots(s)) == ReplaceDots(s)
    ensures '.' !in s ==> ReplaceDots(s) == s
  {
  }

  /** Different file names can share an output path, since a period and a
      dash end up the same. */
  lemma ReplaceDotsCollides()
    ensures ReplaceDots("a.b.flac") == ReplaceDots("a-b.flac")
  {
  }

  function ExportPath(fileName: string, format: string): string {
    ExportsDirectory + (ReplaceDots(fileName) + ("." + format))
  }

  /** The position of the last occurrence of `c` in `s`. */
  function LastIndexOf(s: string, c: char): (r: Option<nat>)
    ensures r.Some? ==> r.value < |s| && s[r.value] == c && c !in s[r.value + 1..]
    ensures r.None? ==> c !in s
  {
    if |s| == 0 then None
    else if s[|s| - 1] == c then Some(|s| - 1)
    else
      var r := LastIndexOf(s[..|s| - 1], c);
      assert s == s[..|s| - 1] + [s[|s| - 1]];
      r
  }

  /** The last `c` of `a + [c] + b` is the one after `a` when `b` has none. */
  lemma {:induction false} LastIndexOfAfter(a: string, b: string, c: char)
    requires c !in b
    ensures LastIndexOf(a + [c] + b, c) == Some(|a|)
  {
    var s := a + [c] + b;
    if |b| > 0 {
      assert s[..|s| - 1] == a + [c] + b[..|b| - 1];
      assert s[|s| - 1] == b[|b| - 1];
      LastIndexOfAfter(a, b[..|b| - 1], c);
    }
  }

  /** Splits an output path into the name part and the format after its last
      period. */
  function SplitExportPath(path: string): Option<(string, string)> {
    if !StartsWith(path, ExportsDirectory) then None
    else
      var rest := path[|ExportsDirectory|..];
      match LastIndexOf(rest, '.')
      case None => None
      case Some(k) => Some((rest[..k], rest[k + 1..]))
  }

  /** The output path determines the period-free name and the format: the
      name has as many characters as the file name and no period, and the
      format is what follows the path's last period. */
  lemma SplitExportPathRoundTrip(fileName: string, format: string)
    requires '.' !in format
    ensures SplitExportPath(ExportPath(fileName, format)) == Some((ReplaceDots(fileName), format))
  {
    var path := ExportPath(fileName, format);
    var rest := ReplaceDots(fileName) + ("." + format);
    assert path[..|ExportsDirectory|] == ExportsDirectory;
    assert path[|ExportsDirectory|..] == rest;
    var k := |ReplaceDots(fileName)|;
    assert rest == ReplaceDots(fileName) + ['.'] + format;
    LastIndexOfAfter(ReplaceDots(fileName), format, '.');
    assert rest[..k] == ReplaceDots(fileName);
  }

  /** The file the exporter writes: where, in which format, and what. */
  datatype ExportJob = ExportJob(path: string, format: string, scene: Scene)

  /** The generator's output for the requested audio file. */
  datatype Generated = Generated(dft: Mesh, base: Mesh)

  /** The `export` command after its file name was accepted. The format is
      checked first, then the orientation; only then is the generator run
      (`generated` is its outcome), the scene built and the file written
      (`written` is whether the writer succeeded). */
  function ExportModel(fileName: string, format: string, orientation: string,
                       generated: Result<Generated, string>, written: bool): (r: Result<ExportJob, string>)
    ensures format !in SupportedFormats ==> r == Failure(FormatError)
    ensures format in SupportedFormats && orientation != "z-up" && orientation != "y-up"
            ==> r == Failure(OrientationError)
    ensures r.Success? <==>
      && format in SupportedFormats
      && (orientation == "z-up" || orientation == "y-up")
      && generated.Success?
      && |generated.value.dft.indices| % 3 == 0
      && |generated.value.base.indices| % 3 == 0
      && written
    ensures format in SupportedFormats && ParseOrientation(orientation).Some? && generated.Failure?
            ==> r == Failure(generated.error)
    ensures format in SupportedFormats && ParseOrientation(orientation).Some? && generated.Success?
            && (|generated.value.dft.indices| % 3 != 0 || |generated.value.base.indices| % 3 != 0)
            ==> r == Failure(ExportDataError)
    ensures format in SupportedFormats && ParseOrientation(orientation).Some? && generated.Success?
            && |generated.value.dft.indices| % 3 == 0 && |generated.value.base.indices| % 3 == 0
            && !written
            ==> r == Failure(WriteError)
    ensures r.Success? ==>
      && r.value.format == format
      && r.value.path == ExportPath(fileName, format)
      && SplitExportPath(r.value.path) == Some((ReplaceDots(fileName), format))
      && r.value.scene == GenerateScene(generated.value.dft, generated.value.base, orientation == "z-up").value
  {
    if format !in SupportedFormats then Failure(FormatError)
    else
      match ParseOrientation(orientation)
      case None => Failure(OrientationError)
      case Some(zUp) =>
        var meshes :- generated;
        var scene :- GenerateScene(meshes.dft, meshes.base, zUp);
        if !written then Failure(WriteError)
        else
          SplitExportPathRoundTrip(fileName, format);
          Success(ExportJob(ExportPath(fileName, format), format, scene))
  }

  /** The argument checks come before generation: when the format or the
      orientation is refused, neither the generator's outcome nor the
      writer's affects the result. */
  lemma ArgumentsCheckedBeforeGeneration(fileName: string, format: string, orientation: string,
                                         g1: Result<Generated, string>, w1: bool,
                                         g2: Result<Generated, string>, w2: bool)
    requires format !in SupportedFormats || ParseOrientation(orientation).None?
    ensures ExportModel(fileName, format, orientation, g1, w1).Failure?
    ensures ExportModel(fileName, format, orientation, g1, w1) == ExportModel(fileName, format, orientation, g2, w2)
  {
  }
}
