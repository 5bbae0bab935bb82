/**
 * The two folds every combinator is built from, stated on the abstract
 * (logical, head-first) sequence of a list.
 */
module Folds {

  /** Right fold: f(x0, f(x1, ... f(x(n-1), init))). */
  function FoldR<A, B>(f: (A, B) -> B, s: seq<A>, init: B): B
  {
    if s == [] then init else f(s[0], FoldR(f, s[1..], init))
  }

  /** Left fold: f(... f(f(init, x0), x1) ..., x(n-1)). */
  function FoldL<A, B>(f: (B, A) -> B, init: B, s: seq<A>): B
  {
    if s == [] then init else f(FoldL(f, init, s[..|s| - 1]), s[|s| - 1])
  }

  /** Folding right over s + t is folding over s from the fold over t. */
  lemma {:induction false} FoldRAppend<A, B>(f: (A, B) -> B, s: seq<A>, t: seq<A>, init: B)
    ensures FoldR(f, s + t, init) == FoldR(f, s, FoldR(f, t, init))
    decreases |s|
  {
    if s != [] {
      assert (s + t)[1..] == s[1..] + t;
      FoldRAppend(f, s[1..], t, init);
    } else {
      assert s + t == t;
    }
  }

  /** Folding left over s + t is folding over t from the fold over s. */
  lemma {:induction false} FoldLAppend<A, B>(f: (B, A) -> B, init: B, s: seq<A>, t: seq<A>)
    ensures FoldL(f, init, s + t) == FoldL(f, FoldL(f, init, s), t)
    decreases |t|
  {
    if t == [] {
      assert s + t == s;
    } else {
      assert (s + t)[..|s + t| - 1] == s + t[..|t| - 1];
      FoldLAppend(f, init, s, t[..|t| - 1]);
    }
  }

  /** Unfolding the left fold from the front. */
  lemma FoldLCons<A, B>(f: (B, A) -> B, init: B, s: seq<A>)
    requires s != []
    ensures FoldL(f, init, s) == FoldL(f, f(init, s[0]), s[1..])
  {
    assert s == [s[0]] + s[1..];
    FoldLAppend(f, init, [s[0]], s[1..]);
    assert [s[0]][..0] == [];
  }
}
