/**
 * The list combinators of functions.go, stated on the value a list reads:
 * its logical, head-first sequence. Each combinator is built the way the
 * source builds it (a right or left fold, or recursion on head and tail),
 * and the lemmas beside it tie it to what it promises.
 */
module ListFunctions {
  import opened Seqs
  import opened Folds

  // ---------------------------------------------------------------------
  // Reverse, Empty, Foldr1, Foldl1
  // ---------------------------------------------------------------------

  /** The step of `Reverse`: cons the element onto the accumulated list. */
  function ConsOnto<T>(xs: seq<T>, x: T): seq<T>
  {
    [x] + xs
  }

  /** `Reverse`: a left fold that conses each element onto a new list. */
  function Reverse<T>(l: seq<T>): seq<T>
  {
    FoldL(ConsOnto, [], l)
  }

  lemma {:induction false} FoldLConsOnto<T>(acc: seq<T>, s: seq<T>)
    ensures FoldL(ConsOnto, acc, s) == Rev(s) + acc
    decreases |s|
  {
    if s != [] {
      var n := |s| - 1;
      FoldLConsOnto(acc, s[..n]);
      assert s[..n] + [s[n]] == s;
      RevAppend(s[..n], [s[n]]);
    }
  }

  /** `Reverse` gives the elements back to front, and undoes itself. */
  lemma ReverseAt<T>(l: seq<T>)
    ensures |Reverse(l)| == |l|
    ensures forall k :: 0 <= k < |l| ==> Reverse(l)[k] == l[|l| - 1 - k]
    ensures Reverse(Reverse(l)) == l
  {
    FoldLConsOnto([], l);
    assert Reverse(l) == Rev(l);
    FoldLConsOnto([], Rev(l));
    RevRev(l);
  }

  /** `Empty`: the list has no elements. */
  function Empty<T>(l: seq<T>): (r: bool)
    ensures r <==> l == []
  {
    |l| <= 0
  }

  /** `Foldr1`: `Foldr` seeded with the last element, over the others. */
  function Foldr1<T>(l: seq<T>, f: (T, T) -> T): T
    requires |l| >= 1
  {
    FoldR(f, l[..|l| - 1], l[|l| - 1])
  }

  /** `Foldl1`: `Foldl` seeded with the first element, over the others. */
  function Foldl1<T>(l: seq<T>, f: (T, T) -> T): T
    requires |l| >= 1
  {
    FoldL(f, l[0], l[1..])
  }

  /**
   * The defining equations of a right fold without a seed: a single element
   * is the result, and otherwise the head is combined with the fold of the
   * rest.
   */
  lemma Foldr1Unfold<T>(l: seq<T>, f: (T, T) -> T)
    requires |l| >= 1
    ensures |l| == 1 ==> Foldr1(l, f) == l[0]
    ensures |l| >= 2 ==> Foldr1(l, f) == f(l[0], Foldr1(l[1..], f))
  {
    if |l| >= 2 {
      var n := |l| - 1;
      assert l[..n][1..] == l[1..][..|l[1..]| - 1];
    }
  }

  /**
   * The defining equations of a left fold without a seed: a single element
   * is the result, and otherwise the fold of all but the last element is
   * combined with the last.
   */
  lemma Foldl1Unfold<T>(l: seq<T>, f: (T, T) -> T)
    requires |l| >= 1
    ensures |l| == 1 ==> Foldl1(l, f) == l[0]
    ensures |l| >= 2 ==> Foldl1(l, f) == f(Foldl1(l[..|l| - 1], f), l[|l| - 1])
  {
    if |l| >= 2 {
      var n := |l| - 1;
      assert l[1..][..|l[1..]| - 1] == l[..n][1..];
    }
  }

  // ---------------------------------------------------------------------
  // Map, Filter, Partition
  // ---------------------------------------------------------------------

  /** `Map`: a right fold consing f of each element onto a new list. */
  function Map<T, U>(l: seq<T>, f: T -> U): seq<U>
  {
    FoldR((x: T, acc: seq<U>) => [f(x)] + acc, l, [])
  }

  /** `Map` keeps the length and applies f at every position. */
  lemma {:induction false} MapAt<T, U>(l: seq<T>, f: T -> U)
    ensures |Map(l, f)| == |l|
    ensures forall k :: 0 <= k < |l| ==> Map(l, f)[k] == f(l[k])
    decreases |l|
  {
    if l != [] {
      MapAt(l[1..], f);
      assert Map(l, f) == [f(l[0])] + Map(l[1..], f);
    }
  }

  /** `Filter`: a right fold consing the elements that satisfy f. */
  function Filter<T>(l: seq<T>, f: T -> bool): seq<T>
  {
    FoldR((x: T, acc: seq<T>) => if f(x) then [x] + acc else acc, l, [])
  }

  /** `Filter` over a join is the join of the filters. */
  lemma {:induction false} FilterAppend<T>(a: seq<T>, b: seq<T>, f: T -> bool)
    ensures Filter(a + b, f) == Filter(a, f) + Filter(b, f)
    decreases |a|
  {
    if a == [] {
      assert a + b == b;
    } else {
      assert (a + b)[1..] == a[1..] + b;
      FilterAppend(a[1..], b, f);
    }
  }

  /** `Filter` keeps exactly the elements that satisfy f. */
  lemma {:induction false} FilterMembers<T>(l: seq<T>, f: T -> bool)
    ensures forall x :: x in Filter(l, f) <==> x in l && f(x)
    ensures |Filter(l, f)| <= |l|
    decreases |l|
  {
    if l != [] {
      FilterMembers(l[1..], f);
      assert l == [l[0]] + l[1..];
    }
  }

  /** Filters with predicates that agree on every value agree. */
  lemma {:induction false} FilterAgree<T>(l: seq<T>, f: T -> bool, g: T -> bool)
    requires forall x :: x in l ==> f(x) == g(x)
    ensures Filter(l, f) == Filter(l, g)
    decreases |l|
  {
    if l != [] {
      FilterAgree(l[1..], f, g);
    }
  }

  /** `Partition`: one right fold that sends each element to one of two lists. */
  function Partition<T>(l: seq<T>, f: T -> bool): (seq<T>, seq<T>)
  {
    FoldR((x: T, v: (seq<T>, seq<T>)) => if f(x) then ([x] + v.0, v.1) else (v.0, [x] + v.1), l, ([], []))
  }

  /** `Partition` is the pair of `Filter` by f and `Filter` by not f. */
  lemma {:induction false} PartitionFilters<T>(l: seq<T>, f: T -> bool)
    ensures Partition(l, f) == (Filter(l, f), Filter(l, x => !f(x)))
    decreases |l|
  {
    if l != [] {
      PartitionFilters(l[1..], f);
    }
  }

  // ---------------------------------------------------------------------
  // Element, ElemIndex, ElemIndices
  // ---------------------------------------------------------------------

  /** `Element`: recursion on head and tail. */
  function Element<T(==)>(x: T, l: seq<T>): (found: bool)
    ensures found <==> x in l
    decreases |l|
  {
    if Empty(l) then false
    else if x == l[0] then true
    else
      assert l == [l[0]] + l[1..];
      Element(x, l[1..])
  }

  /** `NotElement`: the negation of `Element`. */
  function NotElement<T(==)>(x: T, l: seq<T>): (missing: bool)
    ensures missing <==> x !in l
  {
    !Element(x, l)
  }

  /**
   * `ElemIndex`: the index of the first occurrence when there is one. When
   * there is none, the -1 of the empty case is incremented once per element
   * on the way back, so the index returned is Len(l) - 1.
   */
  function ElemIndex<T(==)>(x: T, l: seq<T>): (r: (int, bool))
    ensures r.1 <==> x in l
    ensures r.1 ==> 0 <= r.0 < |l| && l[r.0] == x && x !in l[..r.0]
    ensures !r.1 ==> r.0 == |l| - 1
    decreases |l|
  {
    if Empty(l) then (-1, false)
    else if x == l[0] then (0, true)
    else
      var (i, ok) := ElemIndex(x, l[1..]);
      assert l == [l[0]] + l[1..];
      assert ok ==> l[..i + 1] == [l[0]] + l[1..][..i];
      (i + 1, ok)
  }

  /**
   * `indices`: count is the index of the element before ys; each element
   * bumps it, and the positions where y occurs are collected in order.
   */
  function Indices<T(==)>(y: T, ys: seq<T>, count: int): seq<int>
    decreases |ys|
  {
    if Empty(ys) then []
    else if ys[0] == y then [count + 1] + Indices(y, ys[1..], count + 1)
    else Indices(y, ys[1..], count + 1)
  }

  /** Every position `indices` reports, offset by count + 1, holds y. */
  lemma {:induction false} IndicesSound<T>(y: T, ys: seq<T>, count: int)
    ensures forall j :: 0 <= j < |Indices(y, ys, count)| ==>
      count < Indices(y, ys, count)[j] <= count + |ys| && ys[Indices(y, ys, count)[j] - count - 1] == y
    decreases |ys|
  {
    if ys != [] {
      var r, rest := Indices(y, ys, count), Indices(y, ys[1..], count + 1);
      IndicesSound(y, ys[1..], count + 1);
      forall j | 0 <= j < |rest|
        ensures count + 1 < rest[j] <= count + |ys| && ys[rest[j] - count - 1] == y
      {
        assert ys[1..][rest[j] - (count + 1) - 1] == y;
      }
    }
  }

  /** `indices` reports positions in ascending order. */
  lemma {:induction false} IndicesAscending<T>(y: T, ys: seq<T>, count: int)
    ensures forall j, k :: 0 <= j < k < |Indices(y, ys, count)| ==> Indices(y, ys, count)[j] < Indices(y, ys, count)[k]
    decreases |ys|
  {
    if ys != [] {
      var rest := Indices(y, ys[1..], count + 1);
      IndicesAscending(y, ys[1..], count + 1);
      IndicesSound(y, ys[1..], count + 1);
      assert forall k :: 0 <= k < |rest| ==> count + 1 < rest[k];
    }
  }

  /** `indices` misses no position at which y occurs. */
  lemma {:induction false} IndicesComplete<T>(y: T, ys: seq<T>, count: int)
    ensures forall k :: 0 <= k < |ys| && ys[k] == y ==> count + 1 + k in Indices(y, ys, count)
    decreases |ys|
  {
    if ys != [] {
      var rest := Indices(y, ys[1..], count + 1);
      IndicesComplete(y, ys[1..], count + 1);
      forall k | 1 <= k < |ys| && ys[k] == y
        ensures count + 1 + k in rest
      {
        assert ys[1..][k - 1] == y;
      }
    }
  }

  /**
   * `ElemIndices`: every index at which x occurs, ascending, and only those.
   */
  function ElemIndices<T(==)>(x: T, xs: seq<T>): (r: seq<int>)
    ensures forall j :: 0 <= j < |r| ==> 0 <= r[j] < |xs| && xs[r[j]] == x
    ensures forall j, k :: 0 <= j < k < |r| ==> r[j] < r[k]
    ensures forall k :: 0 <= k < |xs| && xs[k] == x ==> k in r
  {
    IndicesSound(x, xs, -1);
    IndicesAscending(x, xs, -1);
    IndicesComplete(x, xs, -1);
    Indices(x, xs, -1)
  }

  // ---------------------------------------------------------------------
  // Zip, ZipWith
  // ---------------------------------------------------------------------

  function Min(a: nat, b: nat): nat
  {
    if a <= b then a else b
  }

  /** `Zip`: pairs of heads, as two-element lists, up to the shorter list. */
  function Zip<T>(l1: seq<T>, l2: seq<T>): (r: seq<seq<T>>)
    ensures |r| == Min(|l1|, |l2|)
    ensures forall k :: 0 <= k < |r| ==> r[k] == [l1[k], l2[k]]
    decreases |l1|
  {
    if Empty(l1) || Empty(l2) then []
    else [[l1[0], l2[0]]] + Zip(l1[1..], l2[1..])
  }

  /** `ZipWith`: f of the heads, up to the shorter list. */
  function ZipWith<T, U, V>(l1: seq<T>, l2: seq<U>, f: (T, U) -> V): (r: seq<V>)
    ensures |r| == Min(|l1|, |l2|)
    ensures forall k :: 0 <= k < |r| ==> r[k] == f(l1[k], l2[k])
    decreases |l1|
  {
    if Empty(l1) || Empty(l2) then []
    else [f(l1[0], l2[0])] + ZipWith(l1[1..], l2[1..], f)
  }

  // ---------------------------------------------------------------------
  // TakeWhile, DropWhile, Span
  // ---------------------------------------------------------------------

  /** `TakeWhile`: heads kept while f holds. */
  function TakeWhile<T>(l: seq<T>, f: T -> bool): seq<T>
    decreases |l|
  {
    if Empty(l) then []
    else if f(l[0]) then [l[0]] + TakeWhile(l[1..], f)
    else []
  }

  /** `DropWhile`: heads dropped while f holds; the rest is l's own suffix. */
  function DropWhile<T>(l: seq<T>, f: T -> bool): seq<T>
    decreases |l|
  {
    if Empty(l) then []
    else if f(l[0]) then DropWhile(l[1..], f)
    else l
  }

  /** `Span`: both halves. */
  function Span<T>(l: seq<T>, f: T -> bool): (seq<T>, seq<T>)
  {
    (TakeWhile(l, f), DropWhile(l, f))
  }

  /**
   * When f holds before position i and fails at i (or i is the end), the
   * taken part is l[..i] and the dropped part l[i..].
   */
  lemma {:induction false} SpanAt<T>(l: seq<T>, f: T -> bool, i: nat)
    requires i <= |l|
    requires forall j :: 0 <= j < i ==> f(l[j])
    requires i < |l| ==> !f(l[i])
    ensures Span(l, f) == (l[..i], l[i..])
    decreases i
  {
    if i > 0 {
      SpanAt(l[1..], f, i - 1);
      assert l[..i] == [l[0]] + l[1..][..i - 1];
    }
  }

  /**
   * `Span` splits l at the first element that fails f: the first part is
   * the longest prefix all satisfying f, and the two parts join back to l.
   */
  lemma {:induction false} SpanSplits<T>(l: seq<T>, f: T -> bool)
    ensures Span(l, f).0 + Span(l, f).1 == l
    ensures forall x :: x in Span(l, f).0 ==> f(x)
    ensures Span(l, f).1 == [] || !f(Span(l, f).1[0])
    decreases |l|
  {
    if l != [] && f(l[0]) {
      SpanSplits(l[1..], f);
      assert l == [l[0]] + l[1..];
    }
  }

  // ---------------------------------------------------------------------
  // Flatten, And, Or, All, Any
  // ---------------------------------------------------------------------

  /** The step of `Flatten`: `Concatenate` of the sublist and what follows. */
  function Join<T>(x: seq<T>, acc: seq<T>): seq<T>
  {
    x + acc
  }

  /**
   * `Flatten`: `Foldr1` joining each sublist onto the rest. `Foldr1` reads
   * the last sublist, so at least one sublist is needed.
   */
  function Flatten<T>(l: seq<seq<T>>): seq<T>
    requires |l| >= 1
  {
    Foldr1(l, Join)
  }

  /** `Flatten` is the sublists' elements in order. */
  lemma {:induction false} FlattenConcat<T>(l: seq<seq<T>>)
    requires |l| >= 1
    ensures Flatten(l) == Concat(l)
    decreases |l|
  {
    Foldr1Unfold(l, Join);
    ConcatCons(l[0], l[1..]);
    assert l == [l[0]] + l[1..];
    if |l| == 1 {
      assert Concat<T>([]) == [];
      assert l[0] + [] == l[0];
    } else {
      FlattenConcat(l[1..]);
    }
  }

  function Conj(x: bool, acc: bool): bool
  {
    x && acc
  }

  function Disj(x: bool, acc: bool): bool
  {
    x || acc
  }

  /** `And`: `Foldr1` of conjunction; Go reads the last element, so it needs one. */
  function And(l: seq<bool>): bool
    requires |l| >= 1
  {
    Foldr1(l, Conj)
  }

  /** `Or`: `Foldr1` of disjunction; it needs one element too. */
  function Or(l: seq<bool>): bool
    requires |l| >= 1
  {
    Foldr1(l, Disj)
  }

  /** `And` holds exactly when every element is true. */
  lemma {:induction false} AndAll(l: seq<bool>)
    requires |l| >= 1
    ensures And(l) <==> forall k :: 0 <= k < |l| ==> l[k]
    decreases |l|
  {
    Foldr1Unfold(l, Conj);
    if |l| >= 2 {
      AndAll(l[1..]);
      assert forall k :: 1 <= k < |l| ==> l[k] == l[1..][k - 1];
    }
  }

  /** `Or` holds exactly when some element is true. */
  lemma {:induction false} OrSome(l: seq<bool>)
    requires |l| >= 1
    ensures Or(l) <==> exists k :: 0 <= k < |l| && l[k]
    decreases |l|
  {
    Foldr1Unfold(l, Disj);
    if |l| >= 2 {
      OrSome(l[1..]);
      assert forall k :: 1 <= k < |l| ==> l[k] == l[1..][k - 1];
    }
  }

  /** `All`: a right fold of f and conjunction, from true. */
  function All<T>(l: seq<T>, f: T -> bool): bool
  {
    FoldR((x: T, acc: bool) => f(x) && acc, l, true)
  }

  /** `Any`: a right fold of f and disjunction, from false. */
  function Any<T>(l: seq<T>, f: T -> bool): bool
  {
    FoldR((x: T, acc: bool) => f(x) || acc, l, false)
  }

  /** `All` holds exactly when every element satisfies f; so on [] it holds. */
  lemma {:induction false} AllEvery<T>(l: seq<T>, f: T -> bool)
    ensures All(l, f) <==> forall x :: x in l ==> f(x)
    decreases |l|
  {
    if l != [] {
      AllEvery(l[1..], f);
      assert l == [l[0]] + l[1..];
    }
  }

  /** `Any` holds exactly when some element satisfies f; so on [] it fails. */
  lemma {:induction false} AnySome<T>(l: seq<T>, f: T -> bool)
    ensures Any(l, f) <==> exists x :: x in l && f(x)
    decreases |l|
  {
    if l != [] {
      AnySome(l[1..], f);
      assert l == [l[0]] + l[1..];
    }
  }

  // ---------------------------------------------------------------------
  // Group
  // ---------------------------------------------------------------------

  /**
   * The step of `Group`'s right fold over the pair (groups so far, current
   * group): an element equal to the current group's head joins it;
   * otherwise the current group is pushed and a new one starts.
   */
  function GroupStep<T(==)>(x: T, v: (seq<seq<T>>, seq<T>)): (seq<seq<T>>, seq<T>)
  {
    if Empty(v.1) then (v.0, [x] + v.1)
    else if x == v.1[0] then (v.0, [x] + v.1)
    else ([v.1] + v.0, [x])
  }

  /** `Group`: the fold's current group consed onto the finished ones. */
  function Group<T(==)>(l: seq<T>): seq<seq<T>>
  {
    var r := FoldR(GroupStep, l, ([], []));
    [r.1] + r.0
  }

  /** Runs: non-empty, each of one repeated value, neighbours different. */
  ghost predicate Runs<T>(gs: seq<seq<T>>)
  {
    (forall i :: 0 <= i < |gs| ==> gs[i] != [] && forall j :: 0 <= j < |gs[i]| ==> gs[i][j] == gs[i][0]) &&
    (forall i :: 0 < i < |gs| ==> gs[i - 1][0] != gs[i][0])
  }

  lemma {:induction false} GroupFold<T>(s: seq<T>)
    ensures var r := FoldR(GroupStep, s, ([], []));
      if s == [] then r == ([], []) else r.1 != [] && Runs([r.1] + r.0) && Concat([r.1] + r.0) == s
    decreases |s|
  {
    if s != [] {
      var x, t := s[0], s[1..];
      var v := FoldR(GroupStep, t, ([], []));
      GroupFold(t);
      assert s == [x] + t;
      if t == [] {
        assert [[x]] + [] == [[x]];
        ConcatCons([x], []);
      } else {
        var gs := [v.1] + v.0;
        ConcatCons(v.1, v.0);
        if x == v.1[0] {
          var gs' := [[x] + v.1] + v.0;
          forall i | 0 <= i < |gs'|
            ensures gs'[i] != [] && forall j :: 0 <= j < |gs'[i]| ==> gs'[i][j] == gs'[i][0]
          {
            if i > 0 {
              assert gs'[i] == gs[i];
            } else {
              forall j | 0 <= j < |gs'[0]|
                ensures gs'[0][j] == x
              {
                if j > 0 {
                  assert gs'[0][j] == gs[0][j - 1];
                }
              }
            }
          }
          forall i | 0 < i < |gs'|
            ensures gs'[i - 1][0] != gs'[i][0]
          {
            assert gs'[i - 1][0] == gs[i - 1][0] && gs'[i] == gs[i];
          }
          ConcatCons([x] + v.1, v.0);
        } else {
          var gs' := [[x]] + gs;
          forall i | 0 < i < |gs'|
            ensures gs'[i - 1][0] != gs'[i][0]
          {
            if i > 1 {
              assert gs'[i] == gs[i - 1] && gs'[i - 1] == gs[i - 2];
            }
          }
          ConcatCons([x], gs);
        }
      }
    }
  }

  /**
   * `Group` cuts l into runs that join back to l; on the empty list it
   * gives one empty group.
   */
  lemma GroupRuns<T>(l: seq<T>)
    ensures l == [] ==> Group(l) == [[]]
    ensures l != [] ==> Runs(Group(l)) && Concat(Group(l)) == l
  {
    GroupFold(l);
  }

  // ---------------------------------------------------------------------
  // Unique, Delete, Difference, Union, Intersect, Equal
  // ---------------------------------------------------------------------

  /** A Go `map[Elem]bool` used as a set of the elements seen so far. */
  class Table<T(==)> {
    var keys: set<T>

    constructor ()
      ensures keys == {}
    {
      keys := {};
    }

    /** `table[x] = true` */
    method Put(x: T)
      modifies this
      ensures keys == old(keys) + {x}
    {
      keys := keys + {x};
    }
  }

  /**
   * The elements of l at the positions where they occur for the first time
   * and are not in seen, in order.
   */
  function FirstOccurrences<T(==)>(l: seq<T>, seen: set<T>): seq<T>
  {
    if l == [] then []
    else
      var n := |l| - 1;
      FirstOccurrences(l[..n], seen) + (if l[n] in seen || l[n] in l[..n] then [] else [l[n]])
  }

  /** No value appears twice. */
  ghost predicate NoDuplicates<T>(s: seq<T>)
  {
    forall i, j :: 0 <= i < j < |s| ==> s[i] != s[j]
  }

  /**
   * Keeping first occurrences leaves no duplicates and every value of l
   * that was not seen.
   */
  lemma {:induction false} FirstOccurrencesSpec<T>(l: seq<T>, seen: set<T>)
    ensures NoDuplicates(FirstOccurrences(l, seen))
    ensures forall x :: x in FirstOccurrences(l, seen) <==> x in l && x !in seen
    decreases |l|
  {
    if l != [] {
      var n := |l| - 1;
      FirstOccurrencesSpec(l[..n], seen);
      assert l == l[..n] + [l[n]];
    }
  }

  /** Taking first occurrences, unfolded from the front as `unique` walks. */
  lemma {:induction false} FirstOccurrencesCons<T>(l: seq<T>, seen: set<T>)
    requires l != []
    ensures FirstOccurrences(l, seen) ==
      if l[0] in seen then FirstOccurrences(l[1..], seen)
      else [l[0]] + FirstOccurrences(l[1..], seen + {l[0]})
    decreases |l|
  {
    var n := |l| - 1;
    if n > 0 {
      FirstOccurrencesCons(l[..n], seen);
      assert l[..n][1..] == l[1..][..n - 1];
      assert l[..n] == [l[0]] + l[1..][..n - 1];
      assert l[1..][n - 1] == l[n];
    }
  }

  /**
   * `unique`: recursion that skips heads already in the table and records
   * the others; the table is shared with the recursive calls.
   */
  method UniqueFrom<T(==)>(l: seq<T>, table: Table<T>) returns (r: seq<T>)
    modifies table
    ensures r == FirstOccurrences(l, old(table.keys))
    ensures table.keys == old(table.keys) + set x | x in l
    decreases |l|
  {
    if Empty(l) {
      return l;
    }
    FirstOccurrencesCons(l, table.keys);
    assert l == [l[0]] + l[1..];
    var head := l[0];
    if head in table.keys {
      r := UniqueFrom(l[1..], table);
      return;
    }
    table.Put(head);
    var rest := UniqueFrom(l[1..], table);
    r := [head] + rest;
  }

  /** `Unique`: first occurrences of l, in order, with a fresh table. */
  method Unique<T(==)>(l: seq<T>) returns (r: seq<T>)
    ensures r == FirstOccurrences(l, {})
  {
    var table := new Table<T>();
    r := UniqueFrom(l, table);
  }

  /**
   * `Delete`: the span before the first x, joined to what follows that x.
   * Go takes the tail of the span's second half, which is empty when x does
   * not occur, so x must occur.
   */
  function Delete<T(==)>(x: T, l: seq<T>): seq<T>
    requires x in l
  {
    var (without, with) := Span(l, y => x != y);
    SpanSplits(l, y => x != y);
    without + with[1..]
  }

  /** `Delete` removes exactly the first occurrence of x. */
  lemma DeleteFirst<T>(x: T, l: seq<T>)
    requires x in l
    ensures var i := ElemIndex(x, l).0;
      0 <= i < |l| && l[i] == x && x !in l[..i] && Delete(x, l) == l[..i] + l[i + 1..]
  {
    var i := ElemIndex(x, l).0;
    SpanAt(l, y => x != y, i);
  }

  /** Fills a table with the elements of l, walking it front to back. */
  method TableOf<T(==)>(l: seq<T>) returns (table: Table<T>)
    ensures fresh(table)
    ensures forall x :: x in table.keys <==> x in l
  {
    table := new Table<T>();
    var i := 0;
    while i < |l|
      invariant 0 <= i <= |l|
      invariant forall x :: x in table.keys <==> x in l[..i]
    {
      table.Put(l[i]);
      assert l[..i + 1] == l[..i] + [l[i]];
      i := i + 1;
    }
    assert l[..i] == l;
  }

  /**
   * `Difference`: the elements of base, in order and with their repeats,
   * that do not occur in subtract.
   */
  method Difference<T(==)>(base: seq<T>, subtract: seq<T>) returns (r: seq<T>)
    ensures r == Filter(base, x => x !in subtract)
  {
    var table := TableOf(subtract);
    var keys := table.keys;
    r := Filter(base, x => x !in keys);
    FilterAgree(base, x => x !in keys, x => x !in subtract);
  }

  /**
   * `Union`: l1 followed by the first occurrences of l2's values that are
   * not in l1. l1's own repeats stay.
   */
  method Union<T(==)>(l1: seq<T>, l2: seq<T>) returns (r: seq<T>)
    ensures r == l1 + Filter(FirstOccurrences(l2, {}), x => x !in l1)
  {
    var u := Unique(l2);
    var d := Difference(u, l1);
    r := l1 + d;
  }

  /** What `Union` promises: l1 first, then each new value of l2 once. */
  lemma UnionSpec<T>(l1: seq<T>, l2: seq<T>)
    ensures var r := l1 + Filter(FirstOccurrences(l2, {}), x => x !in l1);
      r[..|l1|] == l1 &&
      (forall x :: x in r <==> x in l1 || x in l2) &&
      NoDuplicates(r[|l1|..]) && (forall x :: x in r[|l1|..] ==> x !in l1)
  {
    var u := FirstOccurrences(l2, {});
    var d := Filter(u, x => x !in l1);
    var r := l1 + d;
    FirstOccurrencesSpec(l2, {});
    FilterMembers(u, x => x !in l1);
    FilterNoDuplicates(u, x => x !in l1);
    assert r[..|l1|] == l1 && r[|l1|..] == d;
  }

  /** Filtering keeps a sequence free of duplicates. */
  lemma {:induction false} FilterNoDuplicates<T>(l: seq<T>, f: T -> bool)
    requires NoDuplicates(l)
    ensures NoDuplicates(Filter(l, f))
    decreases |l|
  {
    if l != [] {
      FilterNoDuplicates(l[1..], f);
      FilterMembers(l[1..], f);
      assert l == [l[0]] + l[1..];
    }
  }

  /**
   * `Intersect`: the elements of l1, in order and with their repeats, that
   * occur in l2.
   */
  method Intersect<T(==)>(l1: seq<T>, l2: seq<T>) returns (r: seq<T>)
    ensures r == Filter(l1, x => x in l2)
  {
    var table := TableOf(l2);
    var keys := table.keys;
    r := Filter(l1, x => x in keys);
    FilterAgree(l1, x => x in keys, x => x in l2);
  }

  /** `Equal`: the lengths agree and then every position agrees. */
  method Equal<T(==)>(l1: seq<T>, l2: seq<T>) returns (eq: bool)
    ensures eq <==> l1 == l2
  {
    if |l1| != |l2| {
      return false;
    }
    var i := 0;
    while i < |l1|
      invariant 0 <= i <= |l1|
      invariant l1[..i] == l2[..i]
    {
      if l1[i] != l2[i] {
        return false;
      }
      assert l1[..i + 1] == l1[..i] + [l1[i]];
      assert l2[..i + 1] == l2[..i] + [l2[i]];
      i := i + 1;
    }
    assert l1 == l1[..i] && l2 == l2[..i];
    return true;
  }
}
