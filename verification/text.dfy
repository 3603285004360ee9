/**
 * Character-level helpers of the C++ standard library that the loader
 * relies on: the whitespace test behind `operator>>` on strings, the
 * word splitting that `while (f >> indexGroup)` performs, and
 * `std::string::find`.
 */
module Text {

  /** The characters `isspace` accepts in the "C" locale. */
  predicate IsSpace(c: char) {
    c == ' ' || c == '\t' || c == '\n' || c == '\r' || c as int == 11 || c as int == 12
  }

  predicate NoSpace(s: string) {
    forall i :: 0 <= i < |s| ==> !IsSpace(s[i])
  }

  /** Only whitespace, possibly nothing. */
  predicate AllSpace(s: string) {
    forall i :: 0 <= i < |s| ==> IsSpace(s[i])
  }

  /** A word as `operator>>` extracts it: non-empty and free of whitespace. */
  predicate IsWord(s: string) {
    |s| > 0 && NoSpace(s)
  }

  lemma NoSpaceAppend(a: string, b: string)
    requires NoSpace(a) && NoSpace(b)
    ensures NoSpace(a + b)
  {
    forall i | 0 <= i < |a + b|
      ensures !IsSpace((a + b)[i])
    {
      if i >= |a| {
        assert (a + b)[i] == b[i - |a|];
      }
    }
  }

  /** Drops the leading whitespace, as `operator>>` does before reading a word. */
  function SkipSpace(s: string): (r: string)
    ensures |r| <= |s| && r == s[|s| - |r|..]
    ensures r == [] || !IsSpace(r[0])
  {
    if |s| > 0 && IsSpace(s[0]) then SkipSpace(s[1..]) else s
  }

  /** The length of the longest whitespace-free prefix. */
  function WordLength(s: string): (n: nat)
    ensures n <= |s|
    ensures NoSpace(s[..n])
    ensures n < |s| ==> IsSpace(s[n])
  {
    if |s| == 0 || IsSpace(s[0]) then 0
    else
      var m := WordLength(s[1..]);
      assert s[..1 + m] == [s[0]] + s[1..][..m];
      1 + m
  }

  /** The words `while (f >> word)` pushes, in order, for the stream contents `s`. */
  function Tokenize(s: string): (words: seq<string>)
    ensures forall i :: 0 <= i < |words| ==> IsWord(words[i])
    ensures words == [] <==> AllSpace(s)
    decreases |s|
  {
    if |s| == 0 then []
    else if IsSpace(s[0]) then Tokenize(s[1..])
    else
      var n := WordLength(s);
      [s[..n]] + Tokenize(s[n..])
  }

  /** Words separated by single spaces. */
  function Join(words: seq<string>): string {
    if |words| == 0 then []
    else if |words| == 1 then words[0]
    else words[0] + " " + Join(words[1..])
  }

  lemma WordLengthOfWord(w: string, rest: string)
    requires NoSpace(w)
    requires rest == [] || IsSpace(rest[0])
    ensures WordLength(w + rest) == |w|
    decreases |w|
  {
    if |w| > 0 {
      assert (w + rest)[1..] == w[1..] + rest;
      WordLengthOfWord(w[1..], rest);
    }
  }

  /** Whitespace in front of the stream is skipped, however much of it there is. */
  lemma {:induction false} TokenizeSpaces(ws: string, s: string)
    requires AllSpace(ws)
    ensures Tokenize(ws + s) == Tokenize(s)
    decreases |ws|
  {
    if |ws| > 0 {
      assert (ws + s)[0] == ws[0];
      assert (ws + s)[1..] == ws[1..] + s;
      TokenizeSpaces(ws[1..], s);
    } else {
      assert ws + s == s;
    }
  }

  /** A word that ends the stream or is followed by whitespace is extracted whole. */
  lemma TokenizeWordBefore(w: string, rest: string)
    requires IsWord(w)
    requires rest == [] || IsSpace(rest[0])
    ensures Tokenize(w + rest) == [w] + Tokenize(rest)
  {
    WordLengthOfWord(w, rest);
    assert (w + rest)[0] == w[0];
    assert (w + rest)[..|w|] == w;
    assert (w + rest)[|w|..] == rest;
  }

  /** A single word reads back as itself. */
  lemma TokenizeWord(w: string)
    requires IsWord(w)
    ensures Tokenize(w) == [w]
  {
    WordLengthOfWord(w, []);
    assert w + [] == w;
    assert w[..|w|] == w;
    assert w[|w|..] == [];
  }

  /** A word followed by a space contributes exactly itself, then the rest is split. */
  lemma TokenizeWordThen(w: string, rest: string)
    requires IsWord(w)
    ensures Tokenize(w + " " + rest) == [w] + Tokenize(rest)
  {
    var s := w + " " + rest;
    assert s == w + (" " + rest);
    WordLengthOfWord(w, " " + rest);
    assert s[..|w|] == w;
    assert s[|w|..] == " " + rest;
    TokenizeSpaces(" ", rest);
  }

  /** Splitting a space-joined list of words recovers exactly that list. */
  lemma {:induction false} TokenizeJoin(words: seq<string>)
    requires forall i :: 0 <= i < |words| ==> IsWord(words[i])
    ensures Tokenize(Join(words)) == words
    decreases |words|
  {
    if |words| == 0 {
    } else if |words| == 1 {
      TokenizeWord(words[0]);
    } else {
      var tail := words[1..];
      assert Join(words) == words[0] + " " + Join(tail);
      TokenizeWordThen(words[0], Join(tail));
      TokenizeJoin(tail);
      assert [words[0]] + tail == words;
    }
  }

  /**
   * A line laid out as `gaps[0] words[0] gaps[1] words[1] ... gaps[n]`:
   * whitespace runs around and between the words.
   */
  function Layout(words: seq<string>, gaps: seq<string>): string
    requires |gaps| == |words| + 1
    decreases |words|
  {
    if |words| == 0 then gaps[0] else gaps[0] + (words[0] + Layout(words[1..], gaps[1..]))
  }

  /** Every gap is whitespace, and the gaps between two words are not empty. */
  predicate Separated(words: seq<string>, gaps: seq<string>) {
    && |gaps| == |words| + 1
    && (forall i :: 0 <= i < |gaps| ==> AllSpace(gaps[i]))
    && (forall i :: 0 < i < |words| ==> |gaps[i]| > 0)
  }

  /**
   * Whatever whitespace separates, precedes or follows the words (blanks,
   * tabs, several in a row, a trailing `\r`), the stream yields exactly
   * those words, in order.
   */
  lemma {:induction false} TokenizeLayout(words: seq<string>, gaps: seq<string>)
    requires forall i :: 0 <= i < |words| ==> IsWord(words[i])
    requires Separated(words, gaps)
    ensures Tokenize(Layout(words, gaps)) == words
    decreases |words|
  {
    if |words| == 0 {
      TokenizeSpaces(gaps[0], []);
      assert gaps[0] + [] == gaps[0];
    } else {
      var rest := Layout(words[1..], gaps[1..]);
      SeparatedTail(words, gaps);
      TokenizeLayout(words[1..], gaps[1..]);
      LayoutTailStartsBlank(words, gaps);
      TokenizeWordBefore(words[0], rest);
      TokenizeSpaces(gaps[0], words[0] + rest);
      assert [words[0]] + words[1..] == words;
    }
  }

  lemma SeparatedTail(words: seq<string>, gaps: seq<string>)
    requires |words| > 0 && Separated(words, gaps)
    ensures Separated(words[1..], gaps[1..])
  {
    assert forall i :: 0 <= i < |gaps| - 1 ==> gaps[1..][i] == gaps[i + 1];
  }

  /** After the first word of a layout comes whitespace or the end of the line. */
  lemma LayoutTailStartsBlank(words: seq<string>, gaps: seq<string>)
    requires |words| > 0 && Separated(words, gaps)
    ensures var rest := Layout(words[1..], gaps[1..]); rest == [] || IsSpace(rest[0])
  {
    var rest := Layout(words[1..], gaps[1..]);
    if |words| > 1 {
      assert rest[0] == gaps[1][0];
    } else {
      assert rest == gaps[1];
    }
  }

  /** `pattern` occurs in `s` starting at index `i`. */
  predicate OccursAt(s: string, pattern: string, i: nat) {
    i + |pattern| <= |s| && s[i..i + |pattern|] == pattern
  }

  predicate Contains(s: string, pattern: string) {
    exists i: nat :: i <= |s| && OccursAt(s, pattern, i)
  }

  /** `std::string::npos`, the result of an unsuccessful `find`. */
  const NotFound: int := -1

  /** `s.find(pattern)`: the first position where `pattern` occurs, or `NotFound`. */
  method Find(s: string, pattern: string) returns (pos: int)
    ensures pos == NotFound <==> !Contains(s, pattern)
    ensures pos != NotFound ==> 0 <= pos && OccursAt(s, pattern, pos)
    ensures pos != NotFound ==> forall j: nat :: j < pos ==> !OccursAt(s, pattern, j)
  {
    var i := 0;
    while i + |pattern| <= |s|
      invariant 0 <= i <= |s| + 1
      invariant forall j: nat :: j < i ==> !OccursAt(s, pattern, j)
    {
      if s[i..i + |pattern|] == pattern {
        assert OccursAt(s, pattern, i);
        return i;
      }
      i := i + 1;
    }
    return NotFound;
  }
}
