/**
 * The combinators of src/lst/listfuncs.go that differ from those of
 * functions.go. The rest of that file (Map, Filter, Elem, ElemIndex, Zip,
 * ZipWith, TakeWhile, DropWhile, Span, Flatten, And, Or, Any, All, Group,
 * Partition, Delete, Difference) is the same definition and is modelled once,
 * in ListFunctions.
 */
module FlatListFunctions {
  import opened Seqs
  import opened ListFunctions

  /**
   * `Unique`: a left fold that conses each element not yet in the table
   * and records it, then `Reverse` of what was built.
   */
  method Unique<T(==)>(l: seq<T>) returns (r: seq<T>)
    ensures r == FirstOccurrences(l, {})
  {
    var table := new Table<T>();
    var acc: seq<T> := [];
    var i := 0;
    while i < |l|
      invariant 0 <= i <= |l|
      invariant forall x :: x in table.keys <==> x in l[..i]
      invariant acc == Rev(FirstOccurrences(l[..i], {}))
    {
      var x := l[i];
      assert l[..i + 1][..i] == l[..i];
      if x !in table.keys {
        table.Put(x);
        RevAppend(FirstOccurrences(l[..i], {}), [x]);
        acc := [x] + acc;
      }
      assert l[..i + 1] == l[..i] + [x];
      i := i + 1;
    }
    assert l[..i] == l;
    r := Reverse(acc);
    ReverseAt(acc);
    RevRev(FirstOccurrences(l, {}));
    assert r == Rev(acc);
  }

  /**
   * `Union`: l1 followed by the elements of l2 that are not in l1, in l2's
   * order and with l2's repeats.
   */
  method Union<T(==)>(l1: seq<T>, l2: seq<T>) returns (r: seq<T>)
    ensures |l1| <= |r| && r[..|l1|] == l1
    ensures r[|l1|..] == Filter(l2, x => x !in l1)
    ensures forall x :: x in r <==> x in l1 || x in l2
  {
    var d := Difference(l2, l1);
    r := l1 + d;
    FilterMembers(l2, x => x !in l1);
    assert r[..|l1|] == l1 && r[|l1|..] == d;
  }

  /**
   * `Intersect`: the elements of l2, in l2's order and with its repeats,
   * that occur in l1.
   */
  method Intersect<T(==)>(l1: seq<T>, l2: seq<T>) returns (r: seq<T>)
    ensures r == Filter(l2, x => x in l1)
    ensures forall x :: x in r <==> x in l1 && x in l2
  {
    var table := TableOf(l1);
    var keys := table.keys;
    r := Filter(l2, x => x in keys);
    FilterAgree(l2, x => x in keys, x => x in l1);
    FilterMembers(l2, x => x in l1);
  }
}
