/**
 * The line loop of `Mesh::loadOBJ`: each line is classified by its first
 * two characters and either adds a position, adds a texture coordinate,
 * feeds a face to `processFaceVertex`, or is skipped. The four vectors the
 * loop fills are modelled by `Tables`.
 */
module ObjParse {
  import opened Wrappers
  import opened Text
  import opened Scanf
  import opened Face
  import opened Seqs

  const UnsignedRange: int := 0x1_0000_0000

  /** `unsigned int`, the element type of `vertexIndices` and `uvIndices`. */
  type u32 = x: int | 0 <= x < 0x1_0000_0000

  /** The conversion `push_back` applies to the parsed `int`: reduction modulo 2^32. */
  function ToUnsigned(v: int): (u: u32)
    ensures 0 <= v < UnsignedRange ==> u == v
    ensures -UnsignedRange <= v < 0 ==> u == v + UnsignedRange
  {
    v % 0x1_0000_0000
  }

  /** A position record; the three coordinates stay as the unparsed text after `"v "`. */
  datatype Position = Position(text: string)

  /** A texture coordinate record; the two coordinates stay as the unparsed text after `"vt"` and one more character. */
  datatype TexCoord = TexCoord(text: string)

  /** The four local vectors of `loadOBJ`. */
  datatype Tables = Tables(
    positions: seq<Position>,      // tempVertices
    texCoords: seq<TexCoord>,      // tempUVs
    vertexIndices: seq<u32>,
    uvIndices: seq<u32>)

  const NoTables := Tables([], [], [], [])

  predicate IsPositionLine(line: string) {
    |line| >= 2 && line[0] == 'v' && line[1] == ' '
  }

  predicate IsTexCoordLine(line: string) {
    |line| >= 2 && line[0] == 'v' && line[1] == 't'
  }

  predicate IsFaceLine(line: string) {
    |line| >= 2 && line[0] == 'f' && line[1] == ' '
  }

  /** `line.substr(0, 2)` */
  function Head(line: string): string {
    if |line| <= 2 then line else line[..2]
  }

  /** `line.substr(pos)`, which throws `std::out_of_range` (here `None`) when `pos` exceeds the length. */
  function Suffix(line: string, pos: nat): Option<string> {
    if pos <= |line| then Some(line[pos..]) else None
  }

  lemma HeadClassifies(line: string)
    ensures Head(line) == "v " <==> IsPositionLine(line)
    ensures Head(line) == "vt" <==> IsTexCoordLine(line)
    ensures Head(line) == "f " <==> IsFaceLine(line)
  {
    if |line| >= 2 {
      assert Head(line) == [line[0], line[1]];
    }
  }

  /** The entry the grammar puts on `vertexIndices` for a token: its leading integer, if any. */
  function PositionEntry(token: string): seq<u32> {
    match ScanDecimal(token)
    case None => []
    case Some(c) => [ToUnsigned(c.value)]
  }

  /** The entry the grammar puts on `uvIndices` for a token: the integer after the first `/`, if any. */
  function TexCoordEntry(token: string): seq<u32> {
    match ScanDecimal(token)
    case None => []
    case Some(c) =>
      match TexAfterSlash(c.rest)
      case None => []
      case Some(t) => [ToUnsigned(t)]
  }

  /**
   * `processFaceVertex(token, vertexIndices, uvIndices)`: pushes the
   * position index when the token starts with an integer, and the texture
   * index as well when `/` and a second integer follow.
   */
  function ProcessToken(st: Tables, token: string): (st': Tables)
    ensures st'.positions == st.positions && st'.texCoords == st.texCoords
    ensures st'.vertexIndices == st.vertexIndices + PositionEntry(token)
    ensures st'.uvIndices == st.uvIndices + TexCoordEntry(token)
  {
    ProcessFaceVertexGrammar(token);
    match ProcessFaceVertex(token)
    case None => st
    case Some(FaceRef(p, None)) =>
      st.(vertexIndices := st.vertexIndices + [ToUnsigned(p)])
    case Some(FaceRef(p, Some(t))) =>
      st.(vertexIndices := st.vertexIndices + [ToUnsigned(p)], uvIndices := st.uvIndices + [ToUnsigned(t)])
  }

  /** A token `processFaceVertex` accepts. */
  predicate Accepted(token: string) {
    ScanDecimal(token).Some?
  }

  /** Each token yields at most one entry per list, and a texture entry only alongside a position entry. */
  lemma EntryShape(token: string)
    ensures |TexCoordEntry(token)| <= |PositionEntry(token)| <= 1
    ensures |PositionEntry(token)| == 1 <==> Accepted(token)
  {
  }

  /**
   * At the level of the two index lists: a token written `p/t` or `p/t/n`
   * appends `p` to `vertexIndices` and `t` to `uvIndices`; one written
   * `p//n` or `p` appends `p` alone.
   */
  lemma RenderedTokenEntries(form: TokenForm)
    ensures PositionEntry(Render(form)) == [ToUnsigned(Meaning(form).position)]
    ensures form.PosTex? || form.PosTexNormal? ==> TexCoordEntry(Render(form)) == [ToUnsigned(form.t)]
    ensures form.Pos? || form.PosNormal? ==> TexCoordEntry(Render(form)) == []
  {
    RenderedTokenParses(form);
    ParsedEntries(Render(form), Meaning(form));
  }

  /** The entries of a token follow from what `processFaceVertex` reads from it. */
  lemma ParsedEntries(token: string, ref: FaceRef)
    requires ProcessFaceVertex(token) == Some(ref)
    ensures PositionEntry(token) == [ToUnsigned(ref.position)]
    ensures ref.texCoord.Some? ==> TexCoordEntry(token) == [ToUnsigned(ref.texCoord.value)]
    ensures ref.texCoord.None? ==> TexCoordEntry(token) == []
  {
    ProcessFaceVertexGrammar(token);
  }

  function PositionEntries(tokens: seq<string>): seq<u32> {
    ConcatMap(PositionEntry, tokens)
  }

  function TexCoordEntries(tokens: seq<string>): seq<u32> {
    ConcatMap(TexCoordEntry, tokens)
  }

  /** Calls `processFaceVertex` on each token in turn. */
  function ProcessTokens(st: Tables, tokens: seq<string>): Tables {
    if |tokens| == 0 then st
    else ProcessToken(ProcessTokens(st, tokens[..|tokens| - 1]), tokens[|tokens| - 1])
  }

  /**
   * The calls leave the tables alone and append, to each index list, the
   * entries of the tokens in call order.
   */
  lemma {:induction false} ProcessTokensEntries(st: Tables, tokens: seq<string>)
    ensures ProcessTokens(st, tokens).positions == st.positions
    ensures ProcessTokens(st, tokens).texCoords == st.texCoords
    ensures ProcessTokens(st, tokens).vertexIndices == st.vertexIndices + PositionEntries(tokens)
    ensures ProcessTokens(st, tokens).uvIndices == st.uvIndices + TexCoordEntries(tokens)
  {
    if |tokens| > 0 {
      var init, last := tokens[..|tokens| - 1], tokens[|tokens| - 1];
      ProcessTokensEntries(st, init);
      var mid := ProcessTokens(st, init);
      var st' := ProcessToken(mid, last);
      EntriesSnoc(tokens);
      AppendTwice(st.vertexIndices, PositionEntries(init), PositionEntry(last), mid.vertexIndices, st'.vertexIndices);
      AppendTwice(st.uvIndices, TexCoordEntries(init), TexCoordEntry(last), mid.uvIndices, st'.uvIndices);
    }
  }

  lemma EntriesSnoc(tokens: seq<string>)
    requires |tokens| > 0
    ensures var init, last := tokens[..|tokens| - 1], tokens[|tokens| - 1];
      && PositionEntries(tokens) == PositionEntries(init) + PositionEntry(last)
      && TexCoordEntries(tokens) == TexCoordEntries(init) + TexCoordEntry(last)
  {
  }

  /**
   * `vertexIndices` grows by at most one entry per token, by exactly one
   * per token exactly when every token is accepted, and `uvIndices` never
   * grows more than `vertexIndices`.
   */
  lemma EntryCounts(tokens: seq<string>)
    ensures |TexCoordEntries(tokens)| <= |PositionEntries(tokens)| <= |tokens|
    ensures |PositionEntries(tokens)| == |tokens| <==> forall i :: 0 <= i < |tokens| ==> Accepted(tokens[i])
  {
    forall i | 0 <= i < |tokens|
      ensures |TexCoordEntry(tokens[i])| <= |PositionEntry(tokens[i])| <= 1
      ensures |PositionEntry(tokens[i])| == 1 <==> Accepted(tokens[i])
    {
      EntryShape(tokens[i]);
    }
    ConcatMapAtMostOne(PositionEntry, tokens);
    ConcatMapShorter(TexCoordEntry, PositionEntry, tokens);
  }

  lemma EntriesAppend(a: seq<string>, b: seq<string>)
    ensures PositionEntries(a + b) == PositionEntries(a) + PositionEntries(b)
    ensures TexCoordEntries(a + b) == TexCoordEntries(a) + TexCoordEntries(b)
  {
    ConcatMapAppend(PositionEntry, a, b);
    ConcatMapAppend(TexCoordEntry, a, b);
  }

  /**
   * One iteration of the `getline` loop. `None` stands for the
   * `std::out_of_range` that `substr(3)` throws on the two-character line
   * `vt`, which escapes `loadOBJ`.
   */
  function ParseLine(st: Tables, line: string): (r: Option<Tables>)
    ensures IsPositionLine(line) ==> r == Some(st.(positions := st.positions + [Position(line[2..])]))
    ensures IsTexCoordLine(line) ==> (r.None? <==> line == "vt")
    ensures IsTexCoordLine(line) && line != "vt" ==> r == Some(st.(texCoords := st.texCoords + [TexCoord(line[3..])]))
    ensures IsFaceLine(line) ==> r == Some(ProcessTokens(st, FaceCalls(Tokenize(line[2..]))))
    ensures !IsPositionLine(line) && !IsTexCoordLine(line) && !IsFaceLine(line) ==> r == Some(st)
  {
    HeadClassifies(line);
    if Head(line) == "v " then
      Some(st.(positions := st.positions + [Position(line[2..])]))
    else if Head(line) == "vt" then
      match Suffix(line, 3)
      case None => None
      case Some(rest) => Some(st.(texCoords := st.texCoords + [TexCoord(rest)]))
    else if Head(line) == "f " then
      Some(ProcessTokens(st, FaceCalls(Tokenize(line[2..]))))
    else
      Some(st)
  }

  /**
   * The whole `getline` loop, started from four empty vectors.
   * `Failure(i)` means line `i` threw: it is the first line that is
   * exactly `vt`.
   */
  function ParseLines(lines: seq<string>): (r: Result<Tables, nat>)
    ensures r.Failure? <==> exists i :: 0 <= i < |lines| && lines[i] == "vt"
    ensures r.Failure? ==> r.error < |lines| && lines[r.error] == "vt"
    ensures r.Failure? ==> forall j :: 0 <= j < r.error ==> lines[j] != "vt"
  {
    if |lines| == 0 then Success(NoTables)
    else
      var init := lines[..|lines| - 1];
      var last := lines[|lines| - 1];
      assert forall j :: 0 <= j < |init| ==> init[j] == lines[j];
      match ParseLines(init)
      case Failure(i) => Failure(i)
      case Success(st) =>
        match ParseLine(st, last)
        case None => Failure(|lines| - 1)
        case Some(st') => Success(st')
  }

  /** The loop after one more line. */
  lemma ParseLinesSnoc(lines: seq<string>, line: string)
    ensures ParseLines(lines + [line]) ==
      match ParseLines(lines)
      case Failure(i) => Failure(i)
      case Success(st) =>
        match ParseLine(st, line)
        case None => Failure(|lines|)
        case Some(st') => Success(st')
  {
    assert (lines + [line])[..|lines|] == lines;
  }

  /**
   * One turn of the `getline` loop on line `k`: either it throws, and so
   * does the whole loop, or it extends the tables read so far.
   */
  lemma GetlineStep(lines: seq<string>, k: nat, st: Tables)
    requires k < |lines| && ParseLines(lines[..k]) == Success(st)
    ensures ParseLine(st, lines[k]).None? ==> ParseLines(lines).Failure?
    ensures ParseLine(st, lines[k]).Some? ==> ParseLines(lines[..k + 1]) == Success(ParseLine(st, lines[k]).value)
  {
    if ParseLine(st, lines[k]).None? {
      assert lines[k] == "vt";
      assert 0 <= k < |lines| && lines[k] == "vt";
    } else {
      TakeOneMore(lines, k);
      ParseLinesSnoc(lines[..k], lines[k]);
    }
  }

  /** Reading one more `v ` line appends its text to the position table. */
  lemma PositionLineRead(lines: seq<string>, line: string, st: Tables)
    requires ParseLines(lines) == Success(st) && IsPositionLine(line)
    ensures ParseLines(lines + [line]) == Success(st.(positions := st.positions + [Position(line[2..])]))
  {
    ParseLinesSnoc(lines, line);
  }

  /** Reading one more `vt` line (other than a bare `vt`) appends its text to the texture table. */
  lemma TexCoordLineRead(lines: seq<string>, line: string, st: Tables)
    requires ParseLines(lines) == Success(st) && IsTexCoordLine(line) && line != "vt"
    ensures ParseLines(lines + [line]) == Success(st.(texCoords := st.texCoords + [TexCoord(line[3..])]))
  {
    ParseLinesSnoc(lines, line);
  }

  /** Reading one more `f ` line makes the fan's calls. */
  lemma FaceLineRead(lines: seq<string>, line: string, st: Tables)
    requires ParseLines(lines) == Success(st) && IsFaceLine(line)
    ensures ParseLines(lines + [line]) == Success(ProcessTokens(st, LineCalls(line)))
  {
    ParseLinesSnoc(lines, line);
  }

  /** What a line contributes to the position table: one entry for a `v ` line. */
  function PositionPiece(line: string): seq<Position> {
    if IsPositionLine(line) then [Position(line[2..])] else []
  }

  /** What a line contributes to the texture table: one entry for a `vt` line (a bare `vt` aborts the load instead). */
  function TexCoordPiece(line: string): seq<TexCoord> {
    if IsTexCoordLine(line) && |line| > 2 then [TexCoord(line[3..])] else []
  }

  /** The tokens one line hands to `processFaceVertex`, in call order. */
  function LineCalls(line: string): seq<string> {
    if IsFaceLine(line) then FaceCalls(Tokenize(line[2..])) else []
  }

  function PositionTable(lines: seq<string>): seq<Position> {
    ConcatMap(PositionPiece, lines)
  }

  function TexCoordTable(lines: seq<string>): seq<TexCoord> {
    ConcatMap(TexCoordPiece, lines)
  }

  /** All `processFaceVertex` calls of the file, in face-encounter order. */
  function AllCalls(lines: seq<string>): seq<string> {
    ConcatMap(LineCalls, lines)
  }

  /** The four vectors as the line-by-line reading of `lines` describes them. */
  function SeparateTables(lines: seq<string>): Tables {
    var calls := AllCalls(lines);
    Tables(PositionTable(lines), TexCoordTable(lines), PositionEntries(calls), TexCoordEntries(calls))
  }

  /** The reading of `lines` is that of all but the last line, extended by the last line's pieces. */
  lemma SeparateUnfold(lines: seq<string>)
    requires |lines| > 0
    ensures var init, last := lines[..|lines| - 1], lines[|lines| - 1];
      && PositionTable(lines) == PositionTable(init) + PositionPiece(last)
      && TexCoordTable(lines) == TexCoordTable(init) + TexCoordPiece(last)
      && PositionEntries(AllCalls(lines)) == PositionEntries(AllCalls(init)) + PositionEntries(LineCalls(last))
      && TexCoordEntries(AllCalls(lines)) == TexCoordEntries(AllCalls(init)) + TexCoordEntries(LineCalls(last))
  {
    EntriesAppend(AllCalls(lines[..|lines| - 1]), LineCalls(lines[|lines| - 1]));
  }

  lemma FaceLineExtendsSeparate(lines: seq<string>)
    requires |lines| > 0 && IsFaceLine(lines[|lines| - 1])
    ensures SeparateTables(lines) == ProcessTokens(SeparateTables(lines[..|lines| - 1]), LineCalls(lines[|lines| - 1]))
  {
    SeparateUnfold(lines);
    ProcessTokensEntries(SeparateTables(lines[..|lines| - 1]), LineCalls(lines[|lines| - 1]));
  }

  lemma SeparateStepFace(lines: seq<string>)
    requires |lines| > 0 && IsFaceLine(lines[|lines| - 1])
    ensures ParseLine(SeparateTables(lines[..|lines| - 1]), lines[|lines| - 1]) == Some(SeparateTables(lines))
  {
    FaceLineExtendsSeparate(lines);
  }

  lemma PositionLineExtendsSeparate(lines: seq<string>)
    requires |lines| > 0 && IsPositionLine(lines[|lines| - 1])
    ensures var st := SeparateTables(lines[..|lines| - 1]);
      SeparateTables(lines) == st.(positions := st.positions + [Position(lines[|lines| - 1][2..])])
  {
    SeparateUnfold(lines);
  }

  lemma SeparateStepPosition(lines: seq<string>)
    requires |lines| > 0 && IsPositionLine(lines[|lines| - 1])
    ensures ParseLine(SeparateTables(lines[..|lines| - 1]), lines[|lines| - 1]) == Some(SeparateTables(lines))
  {
    PositionLineExtendsSeparate(lines);
  }

  lemma TexCoordLineExtendsSeparate(lines: seq<string>)
    requires |lines| > 0 && IsTexCoordLine(lines[|lines| - 1]) && |lines[|lines| - 1]| > 2
    ensures var st := SeparateTables(lines[..|lines| - 1]);
      SeparateTables(lines) == st.(texCoords := st.texCoords + [TexCoord(lines[|lines| - 1][3..])])
  {
    SeparateUnfold(lines);
  }

  lemma SeparateStepTexCoord(lines: seq<string>)
    requires |lines| > 0 && IsTexCoordLine(lines[|lines| - 1]) && lines[|lines| - 1] != "vt"
    ensures ParseLine(SeparateTables(lines[..|lines| - 1]), lines[|lines| - 1]) == Some(SeparateTables(lines))
  {
    TexCoordLineExtendsSeparate(lines);
  }

  lemma OtherLineKeepsSeparate(lines: seq<string>)
    requires |lines| > 0
    requires var last := lines[|lines| - 1]; !IsPositionLine(last) && !IsTexCoordLine(last) && !IsFaceLine(last)
    ensures SeparateTables(lines) == SeparateTables(lines[..|lines| - 1])
  {
    SeparateUnfold(lines);
  }

  lemma SeparateStepOther(lines: seq<string>)
    requires |lines| > 0
    requires var last := lines[|lines| - 1]; !IsPositionLine(last) && !IsTexCoordLine(last) && !IsFaceLine(last)
    ensures ParseLine(SeparateTables(lines[..|lines| - 1]), lines[|lines| - 1]) == Some(SeparateTables(lines))
  {
    OtherLineKeepsSeparate(lines);
  }

  lemma SeparateStep(lines: seq<string>)
    requires |lines| > 0 && lines[|lines| - 1] != "vt"
    ensures ParseLine(SeparateTables(lines[..|lines| - 1]), lines[|lines| - 1]) == Some(SeparateTables(lines))
  {
    var last := lines[|lines| - 1];
    if IsFaceLine(last) {
      SeparateStepFace(lines);
    } else if IsPositionLine(last) {
      SeparateStepPosition(lines);
    } else if IsTexCoordLine(last) {
      SeparateStepTexCoord(lines);
    } else {
      SeparateStepOther(lines);
    }
  }

  /**
   * When no line aborts the loop, the four vectors separate line by line:
   * the position and texture tables list the `v ` and `vt` lines in file
   * order, and the index lists are the grammar's entries for the face
   * tokens in the order the faces are met, without any merging of repeated
   * references.
   */
  lemma {:induction false} ParseLinesSeparates(lines: seq<string>)
    requires forall i :: 0 <= i < |lines| ==> lines[i] != "vt"
    ensures ParseLines(lines) == Success(SeparateTables(lines))
  {
    if |lines| > 0 {
      var init := lines[..|lines| - 1];
      assert forall i :: 0 <= i < |init| ==> init[i] == lines[i];
      ParseLinesSeparates(init);
      SeparateStep(lines);
    }
  }

  /** After the loop, `uvIndices` is never longer than `vertexIndices`, which has at most one entry per call. */
  lemma IndexListsBounded(lines: seq<string>)
    requires ParseLines(lines).Success?
    ensures |ParseLines(lines).value.uvIndices| <= |ParseLines(lines).value.vertexIndices| <= |AllCalls(lines)|
    ensures |ParseLines(lines).value.vertexIndices| == |AllCalls(lines)| <==>
      forall i :: 0 <= i < |AllCalls(lines)| ==> Accepted(AllCalls(lines)[i])
  {
    ParseLinesSeparates(lines);
    EntryCounts(AllCalls(lines));
  }

  /** The number of face lines. */
  function FaceCount(lines: seq<string>): nat {
    |ConcatMap((line: string) => if IsFaceLine(line) then [line] else [], lines)|
  }

  /**
   * A file whose faces are all triangles of accepted tokens yields three
   * `vertexIndices` entries per face.
   */
  lemma {:induction false} TriangleFacesCount(lines: seq<string>)
    requires forall i :: 0 <= i < |lines| ==> IsFaceLine(lines[i]) ==> |Tokenize(lines[i][2..])| == 3
    ensures |AllCalls(lines)| == 3 * FaceCount(lines)
  {
    if |lines| > 0 {
      var init := lines[..|lines| - 1];
      assert forall i :: 0 <= i < |init| ==> init[i] == lines[i];
      TriangleFacesCount(init);
    }
  }

  lemma TriangleFacesEntries(lines: seq<string>)
    requires forall i :: 0 <= i < |lines| ==> lines[i] != "vt"
    requires forall i :: 0 <= i < |lines| ==> IsFaceLine(lines[i]) ==> |Tokenize(lines[i][2..])| == 3
    requires forall j :: 0 <= j < |AllCalls(lines)| ==> Accepted(AllCalls(lines)[j])
    ensures ParseLines(lines).Success?
    ensures |ParseLines(lines).value.vertexIndices| == 3 * FaceCount(lines)
  {
    ParseLinesSeparates(lines);
    EntryCounts(AllCalls(lines));
    TriangleFacesCount(lines);
  }

  /**
   * An accepted token that carries no texture index leaves `uvIndices`
   * strictly shorter than `vertexIndices` for the rest of the file.
   */
  lemma MissingTexCoordShortensUVs(lines: seq<string>, j: nat)
    requires forall i :: 0 <= i < |lines| ==> lines[i] != "vt"
    requires j < |AllCalls(lines)| && Accepted(AllCalls(lines)[j]) && TexCoordEntry(AllCalls(lines)[j]) == []
    ensures ParseLines(lines).Success?
    ensures |ParseLines(lines).value.uvIndices| < |ParseLines(lines).value.vertexIndices|
  {
    var calls := AllCalls(lines);
    ParseLinesSeparates(lines);
    forall i | 0 <= i < |calls|
      ensures |TexCoordEntry(calls[i])| <= |PositionEntry(calls[i])|
    {
      EntryShape(calls[i]);
    }
    EntryShape(calls[j]);
    ConcatMapStrictlyShorter(TexCoordEntry, PositionEntry, calls, j);
  }
}
