/** How a stack of layers changes: a layer is pushed, the top replaced, or the top merged down. */
module Layers {

  ghost predicate Pushed<T>(f: seq<T>, g: seq<T>, x: T) {
    && |g| == |f| + 1 && g[|f|] == x
    && forall p :: 0 <= p < |f| ==> g[p] == f[p]
  }

  ghost predicate TopIs<T>(f: seq<T>, g: seq<T>, x: T) {
    && f != [] && |g| == |f| && g[|f| - 1] == x
    && forall p :: 0 <= p < |f| - 1 ==> g[p] == f[p]
  }

  ghost predicate Merged<T>(f: seq<seq<T>>, g: seq<seq<T>>, last: seq<T>) {
    && |f| >= 2 && |g| == |f| - 1 && g[|g| - 1] == f[|g| - 1] + last
    && forall p :: 0 <= p < |g| - 1 ==> g[p] == f[p]
  }

  function Concat<T>(c: seq<seq<T>>): seq<T> {
    if c == [] then [] else Concat(c[..|c| - 1]) + c[|c| - 1]
  }

  lemma {:induction false} ConcatAppend<T>(c: seq<seq<T>>, d: seq<seq<T>>)
    ensures Concat(c + d) == Concat(c) + Concat(d)
  {
    if d == [] {
      assert c + d == c;
    } else {
      assert (c + d)[..|c + d| - 1] == c + d[..|d| - 1];
      ConcatAppend(c, d[..|d| - 1]);
    }
  }

  lemma ConcatSplit<T>(c: seq<seq<T>>, a: nat, b: nat, end: nat)
    requires a <= b <= end <= |c|
    ensures Concat(c[a..b]) + Concat(c[b..end]) == Concat(c[a..end])
  {
    assert c[a..b] + c[b..end] == c[a..end];
    ConcatAppend(c[a..b], c[b..end]);
  }

  lemma ConcatPushed<T>(c: seq<seq<T>>, d: seq<seq<T>>, x: seq<T>)
    requires Pushed(c, d, x)
    ensures Concat(d) == Concat(c) + x
  {
    assert d[..|c|] == c;
  }

  lemma ConcatTop<T>(c: seq<seq<T>>, d: seq<seq<T>>, x: seq<T>)
    requires c != [] && TopIs(c, d, c[|c| - 1] + x)
    ensures Concat(d) == Concat(c) + x
  {
    assert d[..|c| - 1] == c[..|c| - 1];
  }

  lemma ConcatMerged<T>(c: seq<seq<T>>, d: seq<seq<T>>)
    requires c != [] && Merged(c, d, c[|c| - 1])
    ensures Concat(d) == Concat(c)
  {
    var k := |c| - 1;
    assert d[..k - 1] == c[..k - 1] == c[..k][..k - 1];
  }
}
