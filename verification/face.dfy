/**
 * One face line's contribution: the fan triangulation that decides which
 * tokens are handed to `Mesh::processFaceVertex`, and the cascade of three
 * `sscanf` formats that function tries on each token.
 */
module Face {
  import opened Wrappers
  import opened Scanf

  /** What `processFaceVertex` extracts from a token: the position index and, maybe, a texture index. */
  datatype FaceRef = FaceRef(position: int, texCoord: Option<int>)

  /** `"%d/%d/%d"` */
  const PositionTexNormal: seq<Directive> := [Decimal, Literal('/'), Decimal, Literal('/'), Decimal]
  /** `"%d//%d"` */
  const PositionNormal: seq<Directive> := [Decimal, Literal('/'), Literal('/'), Decimal]
  /** `"%d"` */
  const PositionOnly: seq<Directive> := [Decimal]

  /**
   * The three formats in the source's order. The first is accepted when it
   * stores at least two values, the second when it stores exactly two, the
   * third when it stores one; the normal index is discarded. Every format
   * starts with `%d`, so a token is accepted exactly when it starts with an
   * integer, and that integer is the position index.
   */
  function ProcessFaceVertex(token: string): (r: Option<FaceRef>)
    ensures r.None? <==> ScanDecimal(token).None?
    ensures r.Some? ==> r.value.position == ScanDecimal(token).value.value
  {
    SscanfStores(token, PositionTexNormal);
    SscanfStores(token, PositionNormal);
    SscanfStores(token, PositionOnly);
    var full := Sscanf(token, PositionTexNormal);
    if |full| >= 2 then Some(FaceRef(full[0], Some(full[1])))
    else
      var noTex := Sscanf(token, PositionNormal);
      if |noTex| == 2 then Some(FaceRef(noTex[0], None))
      else
        var bare := Sscanf(token, PositionOnly);
        if |bare| == 1 then Some(FaceRef(bare[0], None))
        else None
  }

  /** A `/` immediately followed by an integer, read as a texture index. */
  function TexAfterSlash(rest: string): Option<int> {
    if |rest| > 0 && rest[0] == '/' then
      match ScanDecimal(rest[1..])
      case Some(c) => Some(c.value)
      case None => None
    else None
  }

  /**
   * The cascade amounts to a simple grammar: a token is accepted exactly
   * when it starts with an integer, which is the position index; the
   * texture index is present exactly when `/` and another integer follow.
   */
  lemma ProcessFaceVertexGrammar(token: string)
    ensures ProcessFaceVertex(token).None? <==> ScanDecimal(token).None?
    ensures ScanDecimal(token).Some? ==>
      ProcessFaceVertex(token) == Some(FaceRef(ScanDecimal(token).value.value, TexAfterSlash(ScanDecimal(token).value.rest)))
  {
    match ScanDecimal(token)
    case None => NoLeadingInteger(token);
    case Some(c) =>
      var rest := c.rest;
      if |rest| > 0 && rest[0] == '/' {
        match ScanDecimal(rest[1..])
        case Some(d) => SlashInteger(token, c, d);
        case None => SlashOnly(token, c);
      } else {
        NoSlash(token, c);
      }
  }

  lemma NoLeadingInteger(token: string)
    requires ScanDecimal(token).None?
    ensures ProcessFaceVertex(token).None?
  {
    assert Sscanf(token, PositionTexNormal) == [];
    assert Sscanf(token, PositionNormal) == [];
    assert Sscanf(token, PositionOnly) == [];
  }

  lemma SlashInteger(token: string, c: Conversion, d: Conversion)
    requires ScanDecimal(token) == Some(c) && |c.rest| > 0 && c.rest[0] == '/'
    requires ScanDecimal(c.rest[1..]) == Some(d)
    ensures ProcessFaceVertex(token) == Some(FaceRef(c.value, Some(d.value)))
    ensures TexAfterSlash(c.rest) == Some(d.value)
  {
    assert PositionTexNormal[1..][1..] == PositionTexNormal[2..];
    var tail := Sscanf(c.rest[1..], PositionTexNormal[2..]);
    assert tail == [d.value] + Sscanf(d.rest, PositionTexNormal[3..]);
    assert Sscanf(token, PositionTexNormal) == [c.value] + tail;
  }

  lemma SlashOnly(token: string, c: Conversion)
    requires ScanDecimal(token) == Some(c) && |c.rest| > 0 && c.rest[0] == '/'
    requires ScanDecimal(c.rest[1..]).None?
    ensures ProcessFaceVertex(token) == Some(FaceRef(c.value, None))
    ensures TexAfterSlash(c.rest) == None
  {
    assert PositionTexNormal[1..][1..] == PositionTexNormal[2..];
    assert Sscanf(c.rest[1..], PositionTexNormal[2..]) == [];
    assert Sscanf(token, PositionTexNormal) == [c.value];
  }

  lemma NoSlash(token: string, c: Conversion)
    requires ScanDecimal(token) == Some(c) && !(|c.rest| > 0 && c.rest[0] == '/')
    ensures ProcessFaceVertex(token) == Some(FaceRef(c.value, None))
    ensures TexAfterSlash(c.rest) == None
  {
    assert Sscanf(token, PositionTexNormal) == [c.value];
    assert Sscanf(token, PositionNormal) == [c.value];
    assert Sscanf(token, PositionOnly) == [c.value];
  }

  /** The four token shapes the loader recognises, with the indices they carry. */
  datatype TokenForm =
    | Pos(p: int)
    | PosTex(p: int, t: int)
    | PosTexNormal(p: int, t: int, n: int)
    | PosNormal(p: int, n: int)

  /** The token text an exporter writes for a shape: `p`, `p/t`, `p/t/n` or `p//n`. */
  function Render(form: TokenForm): string {
    match form
    case Pos(p) => IntText(p)
    case PosTex(p, t) => IntText(p) + "/" + IntText(t)
    case PosTexNormal(p, t, n) => IntText(p) + "/" + IntText(t) + "/" + IntText(n)
    case PosNormal(p, n) => IntText(p) + "//" + IntText(n)
  }

  /** What the loader keeps of a shape: the normal index is dropped. */
  function Meaning(form: TokenForm): FaceRef {
    match form
    case Pos(p) => FaceRef(p, None)
    case PosTex(p, t) => FaceRef(p, Some(t))
    case PosTexNormal(p, t, _) => FaceRef(p, Some(t))
    case PosNormal(p, _) => FaceRef(p, None)
  }

  /** A token whose position integer is followed by `rest`. */
  lemma ParsesAs(token: string, p: int, rest: string, tex: Option<int>)
    requires ScanDecimal(token) == Some(Conversion(p, rest))
    requires TexAfterSlash(rest) == tex
    ensures ProcessFaceVertex(token) == Some(FaceRef(p, tex))
  {
    ProcessFaceVertexGrammar(token);
  }

  lemma BareParses(p: int)
    ensures ProcessFaceVertex(IntText(p)) == Some(FaceRef(p, None))
  {
    ScanIntText(p, []);
    assert IntText(p) + [] == IntText(p);
    ParsesAs(IntText(p), p, [], None);
  }

  lemma SlashThenInt(t: int, tail: string)
    requires tail == [] || !IsDigit(tail[0])
    ensures TexAfterSlash("/" + (IntText(t) + tail)) == Some(t)
  {
    var afterP := "/" + (IntText(t) + tail);
    assert afterP[1..] == IntText(t) + tail;
    ScanIntText(t, tail);
  }

  lemma WithTexParses(p: int, t: int, tail: string)
    requires tail == [] || !IsDigit(tail[0])
    ensures ProcessFaceVertex(IntText(p) + ("/" + (IntText(t) + tail))) == Some(FaceRef(p, Some(t)))
  {
    var afterP := "/" + (IntText(t) + tail);
    assert afterP[0] == '/';
    ScanIntText(p, afterP);
    SlashThenInt(t, tail);
    ParsesAs(IntText(p) + afterP, p, afterP, Some(t));
  }

  lemma NormalOnlyParses(p: int, n: int)
    ensures ProcessFaceVertex(IntText(p) + "//" + IntText(n)) == Some(FaceRef(p, None))
  {
    var afterP := "//" + IntText(n);
    assert IntText(p) + "//" + IntText(n) == IntText(p) + afterP;
    ScanIntText(p, afterP);
    assert afterP[1..][0] == '/';
    ScanDecimalNeedsDigit(afterP[1..]);
    ParsesAs(IntText(p) + afterP, p, afterP, None);
  }

  lemma PosTexRenders(p: int, t: int)
    ensures ProcessFaceVertex(Render(PosTex(p, t))) == Some(FaceRef(p, Some(t)))
  {
    assert Render(PosTex(p, t)) == IntText(p) + ("/" + (IntText(t) + []));
    WithTexParses(p, t, []);
  }

  lemma PosTexNormalRenders(p: int, t: int, n: int)
    ensures ProcessFaceVertex(Render(PosTexNormal(p, t, n))) == Some(FaceRef(p, Some(t)))
  {
    assert Render(PosTexNormal(p, t, n)) == IntText(p) + ("/" + (IntText(t) + ("/" + IntText(n))));
    WithTexParses(p, t, "/" + IntText(n));
  }

  /** Every rendered token parses back to the indices it was written from. */
  lemma RenderedTokenParses(form: TokenForm)
    ensures ProcessFaceVertex(Render(form)) == Some(Meaning(form))
  {
    match form
    case Pos(p) => BareParses(p);
    case PosTex(p, t) => PosTexRenders(p, t);
    case PosTexNormal(p, t, n) => PosTexNormalRenders(p, t, n);
    case PosNormal(p, n) => NormalOnlyParses(p, n);
  }

  /** Which corner the `k`-th call of the fan loop, started at triangle `i`, passes on. */
  function Corner(i: nat, k: nat): nat {
    if k % 3 == 0 then 0 else i + k / 3 + k % 3
  }

  /**
   * The calls made by iterations `i`, `i + 1`, ... of the loop
   * `for (i = 0; i < n - 2; i++)`: each iteration passes corner 0, then
   * corners `i + 1` and `i + 2`.
   */
  function FanFrom<T>(corners: seq<T>, i: nat): (calls: seq<T>)
    requires 3 <= |corners| && i <= |corners| - 2
    ensures |calls| == 3 * (|corners| - 2 - i)
    ensures forall k :: 0 <= k < |calls| ==> Corner(i, k) < |corners| && calls[k] == corners[Corner(i, k)]
    decreases |corners| - i
  {
    if i == |corners| - 2 then []
    else
      var rest := FanFrom(corners, i + 1);
      assert forall k :: 3 <= k < 3 + |rest| ==> Corner(i, k) == Corner(i + 1, k - 3);
      [corners[0], corners[i + 1], corners[i + 2]] + rest
  }

  /**
   * The tokens of one face line in the order they reach `processFaceVertex`:
   * a triangle as written, a quad as the fan `(t0, t1, t2), (t0, t2, t3)`,
   * and nothing for any other token count.
   */
  function FaceCalls<T>(tokens: seq<T>): (calls: seq<T>)
    ensures |tokens| == 3 ==> calls == tokens
    ensures |tokens| == 4 ==> calls == [tokens[0], tokens[1], tokens[2], tokens[0], tokens[2], tokens[3]]
    ensures |tokens| != 3 && |tokens| != 4 ==> calls == []
  {
    if |tokens| == 3 || |tokens| == 4 then
      var calls := FanFrom(tokens, 0);
      assert Corner(0, 0) == 0 && Corner(0, 1) == 1 && Corner(0, 2) == 2;
      assert Corner(0, 3) == 0 && Corner(0, 4) == 2 && Corner(0, 5) == 3;
      calls
    else []
  }
}
