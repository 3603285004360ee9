/**
 * What the model yields for whole files of the shape exporters write: a
 * textured triangle, a triangle whose corners carry normals but no texture
 * coordinates, and a triangle that names a position the file never
 * defines. The coordinate texts are left as parameters, since the loader
 * keeps them unparsed.
 */
module Scenarios {
  import opened Wrappers
  import opened Text
  import opened Seqs
  import opened Scanf
  import opened Face
  import opened ObjParse
  import opened Resolution
  import opened MeshModel

  /** A written integer is one word. */
  lemma IntTextIsWord(v: int)
    ensures IsWord(IntText(v))
  {
    var ds := NumeralText(if v < 0 then -v else v);
    assert forall i :: 0 <= i < |ds| ==> IsDigit(ds[i]);
    if v < 0 {
      NoSpaceAppend("-", ds);
    }
  }

  /** Every token shape is one word. */
  lemma RenderIsWord(form: TokenForm)
    ensures IsWord(Render(form))
  {
    match form
    case Pos(p) =>
      IntTextIsWord(p);
    case PosTex(p, t) =>
      IntTextIsWord(p);
      IntTextIsWord(t);
      NoSpaceAppend(IntText(p), "/");
      NoSpaceAppend(IntText(p) + "/", IntText(t));
    case PosTexNormal(p, t, n) =>
      IntTextIsWord(p);
      IntTextIsWord(t);
      IntTextIsWord(n);
      NoSpaceAppend(IntText(p), "/");
      NoSpaceAppend(IntText(p) + "/", IntText(t));
      NoSpaceAppend(IntText(p) + "/" + IntText(t), "/");
      NoSpaceAppend(IntText(p) + "/" + IntText(t) + "/", IntText(n));
    case PosNormal(p, n) =>
      IntTextIsWord(p);
      IntTextIsWord(n);
      NoSpaceAppend(IntText(p), "//");
      NoSpaceAppend(IntText(p) + "//", IntText(n));
  }

  /** The `vertexIndices` entry of a token shape. */
  function PositionIndex(form: TokenForm): u32 {
    ToUnsigned(Meaning(form).position)
  }

  /** The `uvIndices` entries of a token shape: one when it names a texture coordinate. */
  function TexIndex(form: TokenForm): seq<u32> {
    match Meaning(form).texCoord
    case None => []
    case Some(t) => [ToUnsigned(t)]
  }

  /** The face line `f a b c`, tokens separated by single spaces. */
  function TriangleLine(a: TokenForm, b: TokenForm, c: TokenForm): string {
    "f " + Join([Render(a), Render(b), Render(c)])
  }

  /** A triangle line's three tokens are handed over once each, in order. */
  lemma TriangleLineCalls(a: TokenForm, b: TokenForm, c: TokenForm)
    ensures IsFaceLine(TriangleLine(a, b, c))
    ensures LineCalls(TriangleLine(a, b, c)) == [Render(a), Render(b), Render(c)]
  {
    var tokens := [Render(a), Render(b), Render(c)];
    RenderIsWord(a);
    RenderIsWord(b);
    RenderIsWord(c);
    TokenizeJoin(tokens);
    var line := TriangleLine(a, b, c);
    assert line[2..] == Join(tokens);
    assert FaceCalls(tokens) == tokens;
  }

  /** The `uvIndices` entries of a token are those of its shape. */
  lemma RenderedTexIndex(form: TokenForm)
    ensures TexCoordEntry(Render(form)) == TexIndex(form)
  {
    RenderedTokenEntries(form);
  }

  lemma TrianglePositionEntries(a: TokenForm, b: TokenForm, c: TokenForm)
    ensures PositionEntries([Render(a), Render(b), Render(c)]) == [PositionIndex(a), PositionIndex(b), PositionIndex(c)]
  {
    RenderedTokenEntries(a);
    RenderedTokenEntries(b);
    RenderedTokenEntries(c);
    ConcatMapTriple(PositionEntry, Render(a), Render(b), Render(c));
    ThreeSingletons(PositionEntry(Render(a)), PositionEntry(Render(b)), PositionEntry(Render(c)), PositionIndex(a), PositionIndex(b), PositionIndex(c));
  }

  lemma TriangleTexCoordEntries(a: TokenForm, b: TokenForm, c: TokenForm)
    ensures TexCoordEntries([Render(a), Render(b), Render(c)]) == TexIndex(a) + TexIndex(b) + TexIndex(c)
  {
    RenderedTexIndex(a);
    RenderedTexIndex(b);
    RenderedTexIndex(c);
    ConcatMapTriple(TexCoordEntry, Render(a), Render(b), Render(c));
  }

  /**
   * Reading a triangle line appends its three position indices to
   * `vertexIndices`, and to `uvIndices` the texture index of each corner
   * that has one, leaving the two tables alone.
   */
  lemma TriangleLineRead(lines: seq<string>, st: Tables, a: TokenForm, b: TokenForm, c: TokenForm)
    requires ParseLines(lines) == Success(st)
    ensures ParseLines(lines + [TriangleLine(a, b, c)]) == Success(st.(
      vertexIndices := st.vertexIndices + [PositionIndex(a), PositionIndex(b), PositionIndex(c)],
      uvIndices := st.uvIndices + (TexIndex(a) + TexIndex(b) + TexIndex(c))))
  {
    var tokens := [Render(a), Render(b), Render(c)];
    TriangleLineCalls(a, b, c);
    FaceLineRead(lines, TriangleLine(a, b, c), st);
    TrianglePositionEntries(a, b, c);
    TriangleTexCoordEntries(a, b, c);
    ProcessTokensEntries(st, tokens);
  }

  /** Three `v` lines read from the start of a file. */
  lemma ThreePositionLines(v0: string, v1: string, v2: string)
    ensures ParseLines(["v " + v0, "v " + v1, "v " + v2]) ==
      Success(NoTables.(positions := [Position(v0), Position(v1), Position(v2)]))
  {
    var l0, l1, l2 := "v " + v0, "v " + v1, "v " + v2;
    assert l0[2..] == v0 && l1[2..] == v1 && l2[2..] == v2;
    var s1 := NoTables.(positions := [Position(v0)]);
    var s2 := NoTables.(positions := [Position(v0), Position(v1)]);
    assert ParseLines([]) == Success(NoTables);
    PositionLineRead([], l0, NoTables);
    assert [] + [l0] == [l0];
    assert NoTables.(positions := NoTables.positions + [Position(v0)]) == s1;
    PositionLineRead([l0], l1, s1);
    assert [l0] + [l1] == [l0, l1];
    assert s1.(positions := s1.positions + [Position(v1)]) == s2;
    PositionLineRead([l0, l1], l2, s2);
    assert [l0, l1] + [l2] == [l0, l1, l2];
    assert s2.positions + [Position(v2)] == [Position(v0), Position(v1), Position(v2)];
  }

  /** ... followed by three `vt` lines. */
  lemma ThreeTexCoordLines(v0: string, v1: string, v2: string, t0: string, t1: string, t2: string)
    ensures ParseLines(["v " + v0, "v " + v1, "v " + v2, "vt " + t0, "vt " + t1, "vt " + t2]) ==
      Success(Tables([Position(v0), Position(v1), Position(v2)], [TexCoord(t0), TexCoord(t1), TexCoord(t2)], [], []))
  {
    var l0, l1, l2 := "v " + v0, "v " + v1, "v " + v2;
    var m0, m1, m2 := "vt " + t0, "vt " + t1, "vt " + t2;
    var ps := [Position(v0), Position(v1), Position(v2)];
    assert m0[3..] == t0 && m1[3..] == t1 && m2[3..] == t2;
    assert m0 != "vt" && m1 != "vt" && m2 != "vt" by {
      assert |m0| > 2 && |m1| > 2 && |m2| > 2;
    }
    ThreePositionLines(v0, v1, v2);
    TexCoordLineRead([l0, l1, l2], m0, Tables(ps, [], [], []));
    assert [l0, l1, l2] + [m0] == [l0, l1, l2, m0];
    assert [] + [TexCoord(t0)] == [TexCoord(t0)];
    TexCoordLineRead([l0, l1, l2, m0], m1, Tables(ps, [TexCoord(t0)], [], []));
    assert [l0, l1, l2, m0] + [m1] == [l0, l1, l2, m0, m1];
    assert [TexCoord(t0)] + [TexCoord(t1)] == [TexCoord(t0), TexCoord(t1)];
    TexCoordLineRead([l0, l1, l2, m0, m1], m2, Tables(ps, [TexCoord(t0), TexCoord(t1)], [], []));
    assert [l0, l1, l2, m0, m1] + [m2] == [l0, l1, l2, m0, m1, m2];
    assert [TexCoord(t0), TexCoord(t1)] + [TexCoord(t2)] == [TexCoord(t0), TexCoord(t1), TexCoord(t2)];
  }

  /** The face `f 1/1 2/2 3/3` as token shapes. */
  lemma TexturedFaceText()
    ensures TriangleLine(PosTex(1, 1), PosTex(2, 2), PosTex(3, 3)) == "f 1/1 2/2 3/3"
  {
    assert Render(PosTex(1, 1)) == "1/1";
    assert Render(PosTex(2, 2)) == "2/2";
    assert Render(PosTex(3, 3)) == "3/3";
  }

  /**
   * Three positions, three texture coordinates and one triangle whose
   * corners name position `i` and texture coordinate `i`, such as
   * `f 1/1 2/2 3/3` or `f 1/1/1 2/2/1 3/3/1`.
   */
  function TexturedTriangle(vs: seq<string>, ts: seq<string>, a: TokenForm, b: TokenForm, c: TokenForm): seq<string>
    requires |vs| == 3 && |ts| == 3
  {
    ["v " + vs[0], "v " + vs[1], "v " + vs[2], "vt " + ts[0], "vt " + ts[1], "vt " + ts[2], TriangleLine(a, b, c)]
  }

  /** The corners name position `i` and texture coordinate `i` for `i` = 1, 2, 3. */
  predicate MatchingCorners(a: TokenForm, b: TokenForm, c: TokenForm) {
    && Meaning(a) == FaceRef(1, Some(1))
    && Meaning(b) == FaceRef(2, Some(2))
    && Meaning(c) == FaceRef(3, Some(3))
  }

  lemma TexturedTriangleTables(vs: seq<string>, ts: seq<string>, a: TokenForm, b: TokenForm, c: TokenForm)
    requires |vs| == 3 && |ts| == 3 && MatchingCorners(a, b, c)
    ensures ParseLines(TexturedTriangle(vs, ts, a, b, c)) ==
      Success(Tables([Position(vs[0]), Position(vs[1]), Position(vs[2])], [TexCoord(ts[0]), TexCoord(ts[1]), TexCoord(ts[2])], [1, 2, 3], [1, 2, 3]))
  {
    var head := ["v " + vs[0], "v " + vs[1], "v " + vs[2], "vt " + ts[0], "vt " + ts[1], "vt " + ts[2]];
    var st := Tables([Position(vs[0]), Position(vs[1]), Position(vs[2])], [TexCoord(ts[0]), TexCoord(ts[1]), TexCoord(ts[2])], [], []);
    ThreeTexCoordLines(vs[0], vs[1], vs[2], ts[0], ts[1], ts[2]);
    TriangleLineRead(head, st, a, b, c);
    assert head + [TriangleLine(a, b, c)] == TexturedTriangle(vs, ts, a, b, c);
    MatchingCornersIndices(a, b, c);
  }

  lemma MatchingCornersIndices(a: TokenForm, b: TokenForm, c: TokenForm)
    requires MatchingCorners(a, b, c)
    ensures [] + [PositionIndex(a), PositionIndex(b), PositionIndex(c)] == [1, 2, 3]
    ensures [] + (TexIndex(a) + TexIndex(b) + TexIndex(c)) == [1, 2, 3]
  {
    assert PositionIndex(a) == 1 && PositionIndex(b) == 2 && PositionIndex(c) == 3;
    ThreeSingletons(TexIndex(a), TexIndex(b), TexIndex(c), 1, 2, 3);
  }

  /**
   * Loading the textured triangle yields one vertex per corner, pairing
   * position `i` with texture coordinate `i`, and `draw()` then issues one
   * call over three vertices.
   */
  lemma TexturedTriangleLoads(filename: string, vs: seq<string>, ts: seq<string>, a: TokenForm, b: TokenForm, c: TokenForm)
    requires Contains(filename, ObjExtension)
    requires |vs| == 3 && |ts| == 3 && MatchingCorners(a, b, c)
    ensures Load(NewMesh, filename, Some(TexturedTriangle(vs, ts, a, b, c))) == Success(Mesh([
      Vertex(Position(vs[0]), TexCoord(ts[0])),
      Vertex(Position(vs[1]), TexCoord(ts[1])),
      Vertex(Position(vs[2]), TexCoord(ts[2]))], true))
    ensures Draw(Load(NewMesh, filename, Some(TexturedTriangle(vs, ts, a, b, c))).value) == Some(DrawTriangles(0, 3))
  {
    TexturedTriangleTables(vs, ts, a, b, c);
    IdentityResolves([Position(vs[0]), Position(vs[1]), Position(vs[2])], [TexCoord(ts[0]), TexCoord(ts[1]), TexCoord(ts[2])]);
  }

  /** Indices 1, 2, 3 on both lists pair the tables' entries up in order. */
  lemma IdentityResolves(ps: seq<Position>, ts: seq<TexCoord>)
    requires |ps| == 3 && |ts| == 3
    ensures Resolve(Tables(ps, ts, [1, 2, 3], [1, 2, 3])) == Success([Vertex(ps[0], ts[0]), Vertex(ps[1], ts[1]), Vertex(ps[2], ts[2])])
  {
    var st := Tables(ps, ts, [1, 2, 3], [1, 2, 3]);
    assert Resolvable(st, 0) && Resolvable(st, 1) && Resolvable(st, 2);
    var vertices := Resolve(st).value;
    assert |vertices| == 3;
    assert vertices[0] == Vertex(ps[0], ts[0]);
    assert vertices[1] == Vertex(ps[1], ts[1]);
    assert vertices[2] == Vertex(ps[2], ts[2]);
    assert vertices == [Vertex(ps[0], ts[0]), Vertex(ps[1], ts[1]), Vertex(ps[2], ts[2])];
  }

  /** Three positions and one triangle, such as `f 1//1 2//2 3//3`, whose corners name no texture coordinate. */
  function UntexturedTriangle(vs: seq<string>, a: TokenForm, b: TokenForm, c: TokenForm): seq<string>
    requires |vs| == 3
  {
    ["v " + vs[0], "v " + vs[1], "v " + vs[2], TriangleLine(a, b, c)]
  }

  lemma UntexturedTriangleTables(vs: seq<string>, a: TokenForm, b: TokenForm, c: TokenForm)
    requires |vs| == 3 && Meaning(a).texCoord.None? && Meaning(b).texCoord.None? && Meaning(c).texCoord.None?
    ensures ParseLines(UntexturedTriangle(vs, a, b, c)) ==
      Success(Tables([Position(vs[0]), Position(vs[1]), Position(vs[2])], [], [PositionIndex(a), PositionIndex(b), PositionIndex(c)], []))
  {
    var head := ["v " + vs[0], "v " + vs[1], "v " + vs[2]];
    ThreePositionLines(vs[0], vs[1], vs[2]);
    TriangleLineRead(head, NoTables.(positions := [Position(vs[0]), Position(vs[1]), Position(vs[2])]), a, b, c);
    assert head + [TriangleLine(a, b, c)] == UntexturedTriangle(vs, a, b, c);
    assert TexIndex(a) == [] && TexIndex(b) == [] && TexIndex(c) == [];
    assert [] + [PositionIndex(a), PositionIndex(b), PositionIndex(c)] == [PositionIndex(a), PositionIndex(b), PositionIndex(c)];
  }

  /**
   * Every token of an untextured triangle is accepted, yet `uvIndices`
   * stays empty, so the source's resolution loop would read `uvIndices[0]`
   * of an empty vector. When the first corner's position exists, the load
   * reports the missing texture index of the first vertex instead.
   */
  lemma UntexturedTriangleRejected(filename: string, vs: seq<string>, a: TokenForm, b: TokenForm, c: TokenForm)
    requires Contains(filename, ObjExtension)
    requires |vs| == 3 && Meaning(a).texCoord.None? && Meaning(b).texCoord.None? && Meaning(c).texCoord.None?
    requires 1 <= Meaning(a).position <= 3
    ensures ParseLines(UntexturedTriangle(vs, a, b, c)).Success?
    ensures !SourceInBounds(ParseLines(UntexturedTriangle(vs, a, b, c)).value)
    ensures Load(NewMesh, filename, Some(UntexturedTriangle(vs, a, b, c))) == Failure(Unresolved(TexCoordMissing(0)))
  {
    UntexturedTriangleTables(vs, a, b, c);
    var st := Tables([Position(vs[0]), Position(vs[1]), Position(vs[2])], [], [PositionIndex(a), PositionIndex(b), PositionIndex(c)], []);
    assert Slot(st.vertexIndices[0]) < 3;
    assert !Resolvable(st, 0);
    FirstVertexRejected(NewMesh, filename, UntexturedTriangle(vs, a, b, c));
    assert Diagnose(st, 0) == TexCoordMissing(0);
  }

  /**
   * An untextured triangle whose first corner names a position past the
   * three the file defines, such as the token `5`: the source would read
   * past the end of `tempVertices`; the load reports the out-of-range
   * position index of the first vertex instead.
   */
  lemma FarCornerRejected(filename: string, vs: seq<string>, a: TokenForm, b: TokenForm, c: TokenForm)
    requires Contains(filename, ObjExtension)
    requires |vs| == 3 && Meaning(a).texCoord.None? && Meaning(b).texCoord.None? && Meaning(c).texCoord.None?
    requires 3 < Meaning(a).position < UnsignedRange
    ensures ParseLines(UntexturedTriangle(vs, a, b, c)).Success?
    ensures !SourceInBounds(ParseLines(UntexturedTriangle(vs, a, b, c)).value)
    ensures Load(NewMesh, filename, Some(UntexturedTriangle(vs, a, b, c))) == Failure(Unresolved(PositionOutOfRange(0)))
  {
    UntexturedTriangleTables(vs, a, b, c);
    var st := Tables([Position(vs[0]), Position(vs[1]), Position(vs[2])], [], [PositionIndex(a), PositionIndex(b), PositionIndex(c)], []);
    assert Slot(st.vertexIndices[0]) >= 3;
    assert !Resolvable(st, 0);
    FirstVertexRejected(NewMesh, filename, UntexturedTriangle(vs, a, b, c));
    assert Diagnose(st, 0) == PositionOutOfRange(0);
  }
}
