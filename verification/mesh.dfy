/**
 * `Mesh::loadOBJ` as a whole, and the loaded-flag guard of `Mesh::draw`.
 * The file arrives as its sequence of lines, or `None` when it cannot be
 * opened; the buffer upload and the OpenGL calls are not modelled.
 */
module MeshModel {
  import opened Wrappers
  import opened Text
  import opened Face
  import opened ObjParse
  import opened Resolution

  /** The observable state of a `Mesh`: `mVertices` and `mLoaded`. */
  datatype Mesh = Mesh(vertices: seq<Vertex>, loaded: bool)

  /** A freshly constructed `Mesh`. */
  const NewMesh := Mesh([], false)

  /** The substring the file name must contain somewhere. */
  const ObjExtension := ".obj"

  /**
   * Why a load returns without loading. `NotObjFile` and `CannotOpen` are
   * the source's two `return false` paths; `SubstrOutOfRange` is the
   * exception a bare `vt` line raises; `Unresolved` stands for the
   * out-of-bounds read the source does not guard against.
   */
  datatype LoadError =
    | NotObjFile
    | CannotOpen
    | SubstrOutOfRange(line: nat)
    | Unresolved(cause: ResolveError)

  /**
   * `mesh.loadOBJ(filename)` on a file with contents `file`. On success
   * the resolved vertices are appended to `mVertices` and the mesh is
   * marked loaded; on failure the mesh is left as it was.
   */
  function Load(mesh: Mesh, filename: string, file: Option<seq<string>>): (r: Result<Mesh, LoadError>)
    ensures !Contains(filename, ObjExtension) ==> r == Failure(NotObjFile)
    ensures Contains(filename, ObjExtension) && file.None? ==> r == Failure(CannotOpen)
    ensures r.Success? ==> r.value.loaded
    ensures r.Success? ==> file.Some? && ParseLines(file.value).Success?
    ensures r.Success? ==>
      && |r.value.vertices| == |mesh.vertices| + |ParseLines(file.value).value.vertexIndices|
      && r.value.vertices[..|mesh.vertices|] == mesh.vertices
  {
    if !Contains(filename, ObjExtension) then Failure(NotObjFile)
    else if file.None? then Failure(CannotOpen)
    else
      match ParseLines(file.value)
      case Failure(line) => Failure(SubstrOutOfRange(line))
      case Success(st) =>
        match Resolve(st)
        case Failure(e) => Failure(Unresolved(e))
        case Success(vertices) => Success(Mesh(mesh.vertices + vertices, true))
  }

  /**
   * A load succeeds exactly when the name contains `.obj`, the file opens,
   * no line is a bare `vt`, and every read of the resolution loop is in
   * bounds. Output vertex `i` is then built from position entry
   * `vertexIndices[i] - 1` and texture entry `uvIndices[i] - 1`.
   */
  lemma LoadSucceeds(mesh: Mesh, filename: string, lines: seq<string>)
    ensures Load(mesh, filename, Some(lines)).Success? <==>
      && Contains(filename, ObjExtension)
      && (forall i :: 0 <= i < |lines| ==> lines[i] != "vt")
      && SourceInBounds(ParseLines(lines).value)
    ensures Load(mesh, filename, Some(lines)).Success? ==>
      var st, m := ParseLines(lines).value, Load(mesh, filename, Some(lines)).value;
      forall i :: 0 <= i < |st.vertexIndices| ==>
        Resolvable(st, i) &&
        m.vertices[|mesh.vertices| + i] == Vertex(st.positions[Slot(st.vertexIndices[i])], st.texCoords[Slot(st.uvIndices[i])])
  {
  }

  /** The single draw call `draw()` issues: `glDrawArrays(GL_TRIANGLES, first, count)`. */
  datatype DrawCall = DrawTriangles(first: nat, count: nat)

  /** `mesh.draw()`: nothing unless the mesh is loaded, else one call over every vertex. */
  function Draw(mesh: Mesh): Option<DrawCall> {
    if !mesh.loaded then None else Some(DrawTriangles(0, |mesh.vertices|))
  }

  /**
   * A never-loaded mesh draws nothing; after a successful load into it,
   * `draw()` covers one vertex per `vertexIndices` entry.
   */
  lemma DrawAfterLoad(filename: string, file: Option<seq<string>>)
    ensures Draw(NewMesh) == None
    ensures Load(NewMesh, filename, file).Success? ==>
      Draw(Load(NewMesh, filename, file).value) == Some(DrawTriangles(0, |ParseLines(file.value).value.vertexIndices|))
  {
  }

  /**
   * A file of `v`, `vt` and triangular `f` lines whose tokens are all
   * accepted loads three vertices per face.
   */
  lemma TriangleFileVertexCount(filename: string, lines: seq<string>)
    requires forall i :: 0 <= i < |lines| ==> lines[i] != "vt"
    requires forall i :: 0 <= i < |lines| ==> IsFaceLine(lines[i]) ==> |Tokenize(lines[i][2..])| == 3
    requires forall j :: 0 <= j < |AllCalls(lines)| ==> Accepted(AllCalls(lines)[j])
    ensures Load(NewMesh, filename, Some(lines)).Success? ==>
      |Load(NewMesh, filename, Some(lines)).value.vertices| == 3 * FaceCount(lines)
  {
    TriangleFacesEntries(lines);
  }

  /**
   * Any accepted face token without a texture index (`p` or `p//n`)
   * leaves `uvIndices` shorter than `vertexIndices`, so the source's loop
   * reads past the end of `uvIndices`; the load reports it instead.
   */
  lemma MissingTexCoordRejected(mesh: Mesh, filename: string, lines: seq<string>, j: nat)
    requires forall i :: 0 <= i < |lines| ==> lines[i] != "vt"
    requires j < |AllCalls(lines)| && Accepted(AllCalls(lines)[j]) && TexCoordEntry(AllCalls(lines)[j]) == []
    ensures !SourceInBounds(ParseLines(lines).value)
    ensures Contains(filename, ObjExtension) ==> Load(mesh, filename, Some(lines)).Failure?
  {
    MissingTexCoordShortensUVs(lines, j);
    ShortUVsUnresolvable(ParseLines(lines).value);
  }

  /** When the reads for the first vertex are out of bounds, the load reports exactly that read. */
  lemma FirstVertexRejected(mesh: Mesh, filename: string, lines: seq<string>)
    requires Contains(filename, ObjExtension) && ParseLines(lines).Success?
    requires |ParseLines(lines).value.vertexIndices| > 0 && !Resolvable(ParseLines(lines).value, 0)
    ensures !SourceInBounds(ParseLines(lines).value)
    ensures Load(mesh, filename, Some(lines)) == Failure(Unresolved(Diagnose(ParseLines(lines).value, 0)))
  {
    var st := ParseLines(lines).value;
    var r := Resolve(st);
    assert r.Failure?;
    assert r.error.at == 0;
  }

  /**
   * How a call of `loadOBJ` ends: it returns its `bool`, or the
   * `std::out_of_range` from `substr(3)` propagates out of it.
   */
  datatype Outcome = Returned(ok: bool) | Threw

  /**
   * The same load written as the source's loops: `find`, the `getline`
   * loop and the resolution loop. It gives how the call ends and the
   * resulting mesh. An out-of-bounds read of the resolution loop, which
   * the source does not guard, returns `false` here.
   */
  method LoadObjFile(mesh: Mesh, filename: string, file: Option<seq<string>>) returns (outcome: Outcome, result: Mesh)
    ensures outcome == Returned(true) <==> Load(mesh, filename, file).Success?
    ensures outcome == Threw <==> Load(mesh, filename, file).Failure? && Load(mesh, filename, file).error.SubstrOutOfRange?
    ensures outcome == Returned(true) ==> result == Load(mesh, filename, file).value
    ensures outcome != Returned(true) ==> result == mesh
  {
    var at := Find(filename, ObjExtension);
    if at == NotFound {
      return Returned(false), mesh;
    }
    if file.None? {
      return Returned(false), mesh;
    }
    var lines := file.value;
    var st := NoTables;
    var k := 0;
    while k < |lines|
      invariant 0 <= k <= |lines|
      invariant ParseLines(lines[..k]) == Success(st)
    {
      GetlineStep(lines, k, st);
      var next := ParseLine(st, lines[k]);
      if next.None? {
        return Threw, mesh;
      }
      st := next.value;
      k := k + 1;
    }
    assert lines[..k] == lines;
    var vertices: seq<Vertex> := [];
    var i := 0;
    while i < |st.vertexIndices|
      invariant 0 <= i <= |st.vertexIndices|
      invariant ResolvePrefix(st, i) == Success(vertices)
    {
      ResolveStep(st, i, vertices);
      if !Resolvable(st, i) {
        return Returned(false), mesh;
      }
      vertices := vertices + [Vertex(st.positions[Slot(st.vertexIndices[i])], st.texCoords[Slot(st.uvIndices[i])])];
      i := i + 1;
    }
    return Returned(true), Mesh(mesh.vertices + vertices, true);
  }
}
