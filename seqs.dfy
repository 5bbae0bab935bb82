/** Sequence helpers shared by the list models: reversal and flattening. */
module Seqs {

  /** The sequence read back to front. */
  function Rev<T>(s: seq<T>): (r: seq<T>)
    ensures |r| == |s|
    ensures forall k :: 0 <= k < |s| ==> r[k] == s[|s| - 1 - k]
  {
    if s == [] then [] else Rev(s[1..]) + [s[0]]
  }

  lemma RevAppend<T>(a: seq<T>, b: seq<T>)
    ensures Rev(a + b) == Rev(b) + Rev(a)
  {
    assert forall k :: 0 <= k < |a + b| ==> Rev(a + b)[k] == (Rev(b) + Rev(a))[k];
  }

  lemma RevRev<T>(s: seq<T>)
    ensures Rev(Rev(s)) == s
  {
  }

  /** Putting a non-empty sequence's head back on its tail restores it. */
  lemma PrependHead<T>(a: seq<T>, b: seq<T>)
    requires |a| > 0
    ensures [a[0]] + (a[1..] + b) == a + b
  {
    assert a == [a[0]] + a[1..];
  }

  /** The concatenation of a sequence of runs, oldest run first. */
  function Concat<T>(vs: seq<seq<T>>): seq<T>
  {
    if vs == [] then [] else Concat(vs[..|vs| - 1]) + vs[|vs| - 1]
  }

  lemma ConcatAppend<T>(vs: seq<seq<T>>, v: seq<T>)
    ensures Concat(vs + [v]) == Concat(vs) + v
  {
    assert (vs + [v])[..|vs|] == vs;
  }

  /** Taking one more run appends it. */
  lemma ConcatTake<T>(vs: seq<seq<T>>, k: nat)
    requires k < |vs|
    ensures Concat(vs[..k + 1]) == Concat(vs[..k]) + vs[k]
  {
    assert vs[..k + 1] == vs[..k] + [vs[k]];
    ConcatAppend(vs[..k], vs[k]);
  }

  /** Taking one more run after a fixed prefix s appends the run. */
  lemma ConcatTakeAfter<T>(s: seq<T>, vs: seq<seq<T>>, k: nat)
    requires k < |vs|
    ensures s + Concat(vs[..k + 1]) == (s + Concat(vs[..k])) + vs[k]
  {
    ConcatTake(vs, k);
  }

  lemma {:induction false} ConcatPrefixLength<T>(vs: seq<seq<T>>, k: nat)
    requires k <= |vs|
    ensures |Concat(vs[..k])| <= |Concat(vs)|
    decreases |vs|
  {
    if k < |vs| {
      assert vs[..|vs| - 1][..k] == vs[..k];
      ConcatPrefixLength(vs[..|vs| - 1], k);
    } else {
      assert vs[..k] == vs;
    }
  }

  /** Element j of run k sits at position |Concat(vs[..k])| + j of the concatenation. */
  lemma {:induction false} ConcatAt<T>(vs: seq<seq<T>>, k: nat, j: nat)
    requires k < |vs| && j < |vs[k]|
    ensures |Concat(vs[..k])| + j < |Concat(vs)|
    ensures Concat(vs)[|Concat(vs[..k])| + j] == vs[k][j]
    decreases |vs|
  {
    var n := |vs| - 1;
    if k == n {
      assert vs[..k] == vs[..n];
    } else {
      var init := vs[..n];
      assert init[..k] == vs[..k];
      ConcatAt(init, k, j);
    }
  }

  /** Dropping the last element reverses to dropping the first. */
  lemma {:induction false} RevDropLast<T>(s: seq<T>)
    requires s != []
    ensures Rev(s[..|s| - 1]) == Rev(s)[1..]
  {
    var a, b := Rev(s[..|s| - 1]), Rev(s)[1..];
    assert |a| == |b|;
    forall k | 0 <= k < |a| ensures a[k] == b[k] {
      assert a[k] == s[..|s| - 1][|s| - 2 - k];
      assert b[k] == Rev(s)[k + 1];
    }
  }

  /** Dropping the first element reverses to dropping the last. */
  lemma {:induction false} RevDropFirst<T>(s: seq<T>)
    requires s != []
    ensures Rev(s[1..]) == Rev(s)[..|s| - 1]
  {
    var a, b := Rev(s[1..]), Rev(s)[..|s| - 1];
    assert |a| == |b|;
    forall k | 0 <= k < |a| ensures a[k] == b[k] {
      assert a[k] == s[1..][|s| - 2 - k];
      assert b[k] == Rev(s)[k];
    }
  }

  /** Concat unfolded from the front. */
  lemma {:induction false} ConcatCons<T>(v: seq<T>, vs: seq<seq<T>>)
    ensures Concat([v] + vs) == v + Concat(vs)
    decreases |vs|
  {
    if vs == [] {
      assert [v] + vs == [v];
      assert Concat([v]) == Concat([]) + v;
    } else {
      var n := |vs| - 1;
      assert ([v] + vs)[..|vs|] == [v] + vs[..n];
      ConcatCons(v, vs[..n]);
    }
  }

  /** Growing the last run by xs grows the concatenation by xs. */
  lemma {:induction false} ConcatGrowLast<T>(vs: seq<seq<T>>, xs: seq<T>)
    requires vs != []
    ensures Concat(vs[..|vs| - 1] + [vs[|vs| - 1] + xs]) == Concat(vs) + xs
  {
    var n := |vs| - 1;
    ConcatAppend(vs[..n], vs[n] + xs);
    assert Concat(vs) == Concat(vs[..n]) + vs[n];
    assert Concat(vs[..n]) + (vs[n] + xs) == (Concat(vs[..n]) + vs[n]) + xs;
  }

  /** Shortening the last run by one shortens the concatenation by its last element. */
  lemma {:induction false} ConcatShrinkLast<T>(vs: seq<seq<T>>)
    requires vs != [] && vs[|vs| - 1] != []
    ensures var w := vs[|vs| - 1];
      Concat(vs[..|vs| - 1] + [w[..|w| - 1]]) == Concat(vs)[..|Concat(vs)| - 1]
  {
    var w := vs[|vs| - 1];
    ConcatAppend(vs[..|vs| - 1], w[..|w| - 1]);
  }

  /** Shortening the first run by one drops the first element of the concatenation. */
  lemma {:induction false} ConcatShrinkFirst<T>(vs: seq<seq<T>>)
    requires vs != [] && vs[0] != []
    ensures |Concat(vs)| >= 1 && Concat([vs[0][1..]] + vs[1..]) == Concat(vs)[1..]
  {
    ConcatCons(vs[0][1..], vs[1..]);
    ConcatCons(vs[0], vs[1..]);
    assert vs == [vs[0]] + vs[1..];
  }

  /** Dropping the first run drops its elements from the front. */
  lemma {:induction false} ConcatDropFirst<T>(vs: seq<seq<T>>)
    requires vs != []
    ensures |vs[0]| <= |Concat(vs)| && Concat(vs[1..]) == Concat(vs)[|vs[0]|..]
  {
    ConcatCons(vs[0], vs[1..]);
    assert vs == [vs[0]] + vs[1..];
  }
}
