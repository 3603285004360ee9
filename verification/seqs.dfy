/** Concatenating the pieces produced for each element of a sequence. */
module Seqs {

  /** `f(xs[0]) + f(xs[1]) + ...` */
  function ConcatMap<A, B>(f: A -> seq<B>, xs: seq<A>): seq<B> {
    if |xs| == 0 then [] else ConcatMap(f, xs[..|xs| - 1]) + f(xs[|xs| - 1])
  }

  /** Appending `a` and then `b` appends `a + b`. */
  lemma AppendTwice<T>(x: seq<T>, a: seq<T>, b: seq<T>, mid: seq<T>, out: seq<T>)
    requires mid == x + a && out == mid + b
    ensures out == x + (a + b)
  {
  }

  /** A prefix one element longer. */
  lemma TakeOneMore<T>(s: seq<T>, k: nat)
    requires k < |s|
    ensures s[..k] + [s[k]] == s[..k + 1]
  {
  }

  /** Three one-element pieces, in order. */
  lemma ThreeSingletons<T>(p: seq<T>, q: seq<T>, r: seq<T>, x: T, y: T, z: T)
    requires p == [x] && q == [y] && r == [z]
    ensures p + q + r == [x, y, z]
  {
  }

  lemma ConcatMapSingle<A, B>(f: A -> seq<B>, x: A)
    ensures ConcatMap(f, [x]) == f(x)
  {
    assert [x][..0] == [];
  }

  lemma ConcatMapTriple<A, B>(f: A -> seq<B>, x: A, y: A, z: A)
    ensures ConcatMap(f, [x, y, z]) == f(x) + f(y) + f(z)
  {
    ConcatMapSingle(f, x);
    assert [x, y, z][..2] == [x, y];
    assert [x, y][..1] == [x];
  }

  lemma {:induction false} ConcatMapAppend<A, B>(f: A -> seq<B>, xs: seq<A>, ys: seq<A>)
    ensures ConcatMap(f, xs + ys) == ConcatMap(f, xs) + ConcatMap(f, ys)
    decreases |ys|
  {
    if |ys| == 0 {
      assert xs + ys == xs;
    } else {
      var init := ys[..|ys| - 1];
      assert (xs + ys)[..|xs + ys| - 1] == xs + init;
      assert (xs + ys)[|xs + ys| - 1] == ys[|ys| - 1];
      ConcatMapAppend(f, xs, init);
    }
  }

  /**
   * When every element yields at most one piece, the result is no longer
   * than the input, and exactly as long when every element yields one.
   */
  lemma {:induction false} ConcatMapAtMostOne<A, B>(f: A -> seq<B>, xs: seq<A>)
    requires forall i :: 0 <= i < |xs| ==> |f(xs[i])| <= 1
    ensures |ConcatMap(f, xs)| <= |xs|
    ensures |ConcatMap(f, xs)| == |xs| <==> forall i :: 0 <= i < |xs| ==> |f(xs[i])| == 1
  {
    if |xs| > 0 {
      var init := xs[..|xs| - 1];
      assert forall i :: 0 <= i < |init| ==> init[i] == xs[i];
      ConcatMapAtMostOne(f, init);
    }
  }

  /** A pointwise shorter piece function gives a shorter concatenation. */
  lemma {:induction false} ConcatMapShorter<A, B, C>(g: A -> seq<C>, f: A -> seq<B>, xs: seq<A>)
    requires forall i :: 0 <= i < |xs| ==> |g(xs[i])| <= |f(xs[i])|
    ensures |ConcatMap(g, xs)| <= |ConcatMap(f, xs)|
  {
    if |xs| > 0 {
      var init := xs[..|xs| - 1];
      assert forall i :: 0 <= i < |init| ==> init[i] == xs[i];
      ConcatMapShorter(g, f, init);
    }
  }

  /** Pointwise shorter everywhere and strictly shorter at one element gives a strictly shorter concatenation. */
  lemma {:induction false} ConcatMapStrictlyShorter<A, B, C>(g: A -> seq<C>, f: A -> seq<B>, xs: seq<A>, j: nat)
    requires forall i :: 0 <= i < |xs| ==> |g(xs[i])| <= |f(xs[i])|
    requires j < |xs| && |g(xs[j])| < |f(xs[j])|
    ensures |ConcatMap(g, xs)| < |ConcatMap(f, xs)|
  {
    var init := xs[..|xs| - 1];
    assert forall i :: 0 <= i < |init| ==> init[i] == xs[i];
    if j == |xs| - 1 {
      ConcatMapShorter(g, f, init);
    } else {
      ConcatMapStrictlyShorter(g, f, init, j);
    }
  }
}
