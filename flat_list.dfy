/**
 * The older, flat list (src/lst/list.go): one Go slice over a backing array
 * that several lists may share, stored oldest element first, with the
 * shared frontier counter `firstEmpty` and the index `firstUsed` of the
 * array slot where the slice starts.
 */
module FlatList {
  import opened Buffers
  import opened Seqs
  import opened Folds

  /** A list header: the slice, the shared frontier and the slice's first slot. */
  datatype List<T> = List(elements: Slice<T>, firstEmpty: Counter, firstUsed: int)

  function Len<T>(l: List<T>): nat
  {
    l.elements.len
  }

  /** The list the header stands for: its slice read back to front. */
  ghost function Abs<T>(l: List<T>): seq<T>
    reads l.elements.buf
    requires InBounds(l.elements)
  {
    Rev(View(l.elements))
  }

  /** Logical element i sits at slot Len - 1 - i of the slice (`get`). */
  function Get<T>(l: List<T>, i: int): (x: T)
    reads l.elements.buf
    requires InBounds(l.elements) && 0 <= i < Len(l)
    ensures x == Abs(l)[i]
  {
    var last := Len(l) - 1;
    l.elements.buf.data[l.elements.start + (last - i)]
  }

  function Head<T>(l: List<T>): (x: T)
    reads l.elements.buf
    requires InBounds(l.elements) && Len(l) >= 1
    ensures x == Abs(l)[0]
  {
    Get(l, 0)
  }

  function Last<T>(l: List<T>): (x: T)
    reads l.elements.buf
    requires InBounds(l.elements) && Len(l) >= 1
    ensures x == Abs(l)[|Abs(l)| - 1]
  {
    Get(l, Len(l) - 1)
  }

  /** `NewFromList`: a second header on the same slice and the same frontier. */
  function NewFromList<T>(original: List<T>): (dest: List<T>)
    reads original.elements.buf
    requires InBounds(original.elements)
    ensures InBounds(dest.elements) && Abs(dest) == Abs(original)
    ensures dest.firstEmpty == original.firstEmpty && dest.firstUsed == original.firstUsed
  {
    List(original.elements, original.firstEmpty, original.firstUsed)
  }

  /** `Tail`: the slice without its last slot, which holds the head. */
  function Tail<T>(l: List<T>): List<T>
    requires Len(l) >= 1
  {
    List(Slice(l.elements.buf, l.elements.start, l.elements.len - 1), l.firstEmpty, l.firstUsed)
  }

  /** `Init`: the slice without its first slot, which holds the last element. */
  function Init<T>(l: List<T>): List<T>
    requires Len(l) >= 1
  {
    List(Slice(l.elements.buf, l.elements.start + 1, l.elements.len - 1), l.firstEmpty, l.firstUsed + 1)
  }

  lemma TailAbs<T>(l: List<T>)
    requires InBounds(l.elements) && Len(l) >= 1
    ensures InBounds(Tail(l).elements) && Len(Tail(l)) == Len(l) - 1
    ensures Abs(Tail(l)) == Abs(l)[1..]
  {
    assert View(Tail(l).elements) == View(l.elements)[..Len(l) - 1];
    RevDropLast(View(l.elements));
  }

  lemma InitAbs<T>(l: List<T>)
    requires InBounds(l.elements) && Len(l) >= 1
    ensures InBounds(Init(l).elements) && Len(Init(l)) == Len(l) - 1
    ensures Abs(Init(l)) == Abs(l)[..Len(l) - 1]
  {
    assert View(Init(l).elements) == View(l.elements)[1..];
    RevDropFirst(View(l.elements));
  }

  /** Appending v to the slice puts v at the front of the list. */
  lemma AppendedAbs<T>(l: List<T>, w: seq<T>, v: T)
    requires InBounds(l.elements) && View(l.elements) == w + [v]
    ensures Abs(l) == [v] + Rev(w)
  {
    RevAppend(w, [v]);
    assert Rev([v]) == [v];
  }

  /** The guard of `Cons`: the slot after the slice is already claimed. */
  function Taken<T>(l: List<T>): bool
    reads l.firstEmpty
  {
    l.firstEmpty.n > Len(l) + l.firstUsed
  }

  /**
   * What the header promises: the slice lies in the written part of its
   * array, `firstUsed` is where it starts, and no slot at or past the
   * frontier has been written.
   */
  ghost predicate Fits<T>(l: List<T>)
    reads l.elements.buf, l.firstEmpty
  {
    InBounds(l.elements) && l.firstUsed == l.elements.start &&
    |l.elements.buf.data| <= l.firstEmpty.n
  }

  ghost function Objects<T>(live: set<List<T>>): set<object>
  {
    (set l | l in live :: l.elements.buf as object) + (set l | l in live :: l.firstEmpty as object)
  }

  /** Headers on one array share its frontier, and each array has its own. */
  ghost predicate Coherent<T>(live: set<List<T>>)
  {
    forall l, m :: l in live && m in live ==> (l.elements.buf == m.elements.buf <==> l.firstEmpty == m.firstEmpty)
  }

  lemma ObjectsAdd<T>(live: set<List<T>>, l: List<T>)
    ensures Objects(live + {l}) == Objects(live) + {l.elements.buf, l.firstEmpty}
  {
  }

  /** Every live header fits, and headers on one array share its frontier. */
  ghost predicate Sound<T>(live: set<List<T>>)
    reads Objects(live)
  {
    (forall l :: l in live ==> Fits(l)) && Coherent(live)
  }

  /**
   * With the header sound, the guard is false exactly when the slice ends at
   * the frontier, which is then the end of the written part of the array.
   */
  lemma GuardAtFrontier<T>(l: List<T>)
    requires Fits(l)
    ensures !Taken(l) <==> l.elements.start + Len(l) == |l.elements.buf.data| == l.firstEmpty.n
  {
  }

  lemma SoundSubset<T>(live: set<List<T>>, sub: set<List<T>>)
    requires Sound(live) && sub <= live
    ensures Sound(sub)
  {
    assert Objects(sub) <= Objects(live);
  }

  /** A sound set stays sound with a header on its own fresh array and counter. */
  lemma SoundAddFresh<T>(live: set<List<T>>, l: List<T>)
    requires Sound(live) && Fits(l)
    requires forall h :: h in live ==> h.elements.buf != l.elements.buf && h.firstEmpty != l.firstEmpty
    ensures Sound(live + {l})
  {
  }

  /** A header on a live header's array and frontier keeps the set coherent. */
  lemma CoherentShare<T>(live: set<List<T>>, l: List<T>, s: List<T>)
    requires Coherent(live) && l in live
    requires s.elements.buf == l.elements.buf && s.firstEmpty == l.firstEmpty
    ensures Coherent(live + {s})
  {
  }

  /** Two sound sets whose arrays and frontiers agree make a sound set. */
  lemma SoundUnion<T>(a: set<List<T>>, b: set<List<T>>)
    requires Sound(a) && Sound(b) && Coherent(a + b)
    ensures Sound(a + b)
  {
  }

  /** A header that shrinks a live one's slice keeps the set sound. */
  lemma SoundShrink<T>(live: set<List<T>>, l: List<T>, s: List<T>)
    requires Sound(live) && l in live
    requires s.elements.buf == l.elements.buf && s.firstEmpty == l.firstEmpty
    requires l.elements.start <= s.elements.start
    requires s.elements.start + s.elements.len <= l.elements.start + l.elements.len
    requires s.firstUsed == s.elements.start
    ensures Sound(live + {s})
  {
    assert Objects(live + {s}) == Objects(live);
  }

  lemma TailSound<T>(live: set<List<T>>, l: List<T>)
    requires Sound(live) && l in live && Len(l) >= 1
    ensures Sound(live + {Tail(l)})
  {
    SoundShrink(live, l, Tail(l));
  }

  lemma InitSound<T>(live: set<List<T>>, l: List<T>)
    requires Sound(live) && l in live && Len(l) >= 1
    ensures Sound(live + {Init(l)})
  {
    SoundShrink(live, l, Init(l));
  }

  /** `New`: an empty slice over a fresh 64-slot array, frontier 0. */
  method New<T>(ghost live: set<List<T>>) returns (l: List<T>)
    requires Sound(live)
    ensures Sound(live + {l}) && Abs(l) == [] && Len(l) == 0
    ensures fresh(l.elements.buf) && fresh(l.firstEmpty) && l.elements.buf.cap == 64
  {
    var vec := new Buffer<T>([], 64);
    var i := new Counter(0);
    l := List(Slice(vec, 0, 0), i, 0);
    SoundAddFresh(live, l);
  }

  /**
   * `NewFromSlice` as written: the elements are copied into a fresh array
   * of exactly their number, but the fresh frontier starts at 0, below the
   * slots just written.
   */
  method NewFromSliceAsWritten<T>(slice: seq<T>) returns (l: List<T>)
    ensures fresh(l.elements.buf) && fresh(l.firstEmpty)
    ensures InBounds(l.elements) && View(l.elements) == slice && Abs(l) == Rev(slice)
    ensures l.elements.start == 0 && l.firstUsed == 0 && l.elements.buf.cap == |slice|
    ensures l.firstEmpty.n == 0
  {
    var elements := new Buffer(slice, |slice|);
    var i := new Counter(0);
    l := List(Slice(elements, 0, |slice|), i, 0);
  }

  /** `NewFromSlice` with the frontier at the end of the copied elements. */
  method NewFromSlice<T>(slice: seq<T>, ghost live: set<List<T>>) returns (l: List<T>)
    requires Sound(live)
    ensures fresh(l.elements.buf) && fresh(l.firstEmpty)
    ensures Sound(live + {l}) && View(l.elements) == slice && Abs(l) == Rev(slice)
    ensures l.elements.start == 0 && l.elements.buf.cap == |slice| && l.firstEmpty.n == |slice|
  {
    var elements := new Buffer(slice, |slice|);
    var i := new Counter(|slice|);
    l := List(Slice(elements, 0, |slice|), i, 0);
    SoundAddFresh(live, l);
  }

  /**
   * `Cons` as written. The copy path starts from `NewFromSlice` with its
   * frontier at 0; the reallocation path assigns Len + 1 to the frontier the
   * new header holds, which on the sharing path is the old array's frontier.
   */
  method ConsAsWritten<T>(v: T, l: List<T>) returns (newl: List<T>)
    requires InBounds(l.elements)
    modifies l.elements.buf, l.firstEmpty
    ensures InBounds(newl.elements) && Abs(newl) == [v] + old(Abs(l))
    ensures var taken, full := old(Taken(l)), l.elements.start + Len(l) == l.elements.buf.cap;
      && (taken ==> l.elements.buf.data == old(l.elements.buf.data) && l.firstEmpty.n == old(l.firstEmpty.n) && fresh(newl.firstEmpty) &&
                    newl.firstUsed == 0 && newl.firstEmpty.n == (if full then Len(l) + 1 else 1))
      && (!taken && full ==> l.elements.buf.data == old(l.elements.buf.data) && newl.firstEmpty == l.firstEmpty &&
                             newl.firstUsed == 0 && l.firstEmpty.n == Len(l) + 1)
      && (!taken && !full ==> newl.elements.buf == l.elements.buf && newl.firstEmpty == l.firstEmpty &&
                              l.firstEmpty.n == old(l.firstEmpty.n) + 1 &&
                              l.elements.buf.data == Overwrite(old(l.elements.buf.data), l.elements.start + Len(l), [v]))
  {
    var w := View(l.elements);
    var base: List<T>;
    if Taken(l) {
      base := NewFromSliceAsWritten(w);
    } else {
      base := NewFromList(l);
    }
    if Len(l) == l.elements.buf.cap - l.elements.start {
      base.firstEmpty.Set(Len(l) + 1);
      base := base.(firstUsed := 0);
    } else {
      base.firstEmpty.Add(1);
    }
    assert View(base.elements) == w;
    var s := Append(base.elements, [v]);
    newl := base.(elements := s);
    AppendedAbs(newl, w, v);
  }

  /**
   * A list cons'd onto the tail of a two-element `NewFromSlice` overwrites
   * that list's head: the copy path's frontier of 0 lets the tail append in
   * place at a slot the original list reads.
   */
  method NewFromSliceOverwriteWitness() returns (before: seq<int>, after: seq<int>)
    ensures before == [2, 1] && after == [9, 1]
  {
    var l := NewFromSliceAsWritten([1, 2]);
    before := [Get(l, 0), Get(l, 1)];
    var t := Tail(l);
    var n := ConsAsWritten(9, t);
    assert l.elements.buf.data == [1, 9];
    after := [Get(l, 0), Get(l, 1)];
  }

  /**
   * Cons'ing onto a full slice that starts at slot 2 lowers the shared
   * frontier of the old array to 3 while 4 slots are written; a later cons
   * onto the tail of the original list then appends in place over its head.
   */
  method ReallocResetOverwriteWitness() returns (before: seq<int>, after: seq<int>)
    ensures before == [4, 3, 2, 1] && after == [5, 3, 2, 1]
  {
    var l := NewFromSlice([1, 2, 3, 4], {});
    before := [Get(l, 0), Get(l, 1), Get(l, 2), Get(l, 3)];
    var i := Init(Init(l));
    var n := ConsAsWritten(6, i);
    assert l.firstEmpty.n == 3;
    var t := Tail(l);
    var m := ConsAsWritten(5, t);
    assert l.elements.buf.data == [1, 2, 3, 5];
    after := [Get(l, 0), Get(l, 1), Get(l, 2), Get(l, 3)];
  }

  /**
   * `Cons` with both defects corrected: the copy starts its frontier at its
   * length, and a reallocation gives the new array a frontier of its own.
   * No live list reads anything new, the result reads v before l, and the
   * set with the result stays sound.
   */
  method Cons<T>(v: T, l: List<T>, ghost live: set<List<T>>) returns (newl: List<T>)
    requires Sound(live) && l in live
    modifies l.elements.buf, l.firstEmpty
    ensures Sound(live + {newl})
    ensures forall h :: h in live ==> View(h.elements) == old(View(h.elements))
    ensures Abs(newl) == [v] + old(Abs(l))
    ensures newl.elements.buf == l.elements.buf || fresh(newl.elements.buf)
    ensures newl.firstEmpty == l.firstEmpty || fresh(newl.firstEmpty)
  {
    if Taken(l) {
      newl := ConsCopy(v, l, live);
    } else if Len(l) == l.elements.buf.cap - l.elements.start {
      newl := ConsRealloc(v, l, live);
    } else {
      newl := ConsInPlace(v, l, live);
    }
  }

  /** The path of `Cons` where the slot after l is claimed: everything is copied. */
  method ConsCopy<T>(v: T, l: List<T>, ghost live: set<List<T>>) returns (newl: List<T>)
    requires Sound(live) && l in live
    ensures Sound(live + {newl}) && Abs(newl) == [v] + Abs(l)
    ensures fresh(newl.elements.buf) && fresh(newl.firstEmpty)
  {
    var w := View(l.elements);
    var base := NewFromSlice(w, live);
    if Len(l) == l.elements.buf.cap - l.elements.start {
      var frontier := new Counter(Len(l) + 1);
      base := base.(firstEmpty := frontier, firstUsed := 0);
    } else {
      base.firstEmpty.Add(1);
    }
    assert View(base.elements) == w && base.elements.buf.cap == |w|;
    var s := Append(base.elements, [v]);
    newl := base.(elements := s);
    AppendedAbs(newl, w, v);
    assert Fits(newl);
    SoundAddFresh(live, newl);
  }

  /**
   * The path of `Cons` where l fills its array to the end: append moves to a
   * fresh array, which gets a frontier of its own.
   */
  method ConsRealloc<T>(v: T, l: List<T>, ghost live: set<List<T>>) returns (newl: List<T>)
    requires Sound(live) && l in live && !Taken(l)
    requires Len(l) == l.elements.buf.cap - l.elements.start
    modifies l.elements.buf
    ensures l.elements.buf.data == old(l.elements.buf.data)
    ensures Sound(live + {newl}) && Abs(newl) == [v] + old(Abs(l))
    ensures fresh(newl.elements.buf) && fresh(newl.firstEmpty)
  {
    var w := View(l.elements);
    var base := NewFromList(l);
    var frontier := new Counter(Len(l) + 1);
    base := base.(firstEmpty := frontier, firstUsed := 0);
    var s := Append(base.elements, [v]);
    newl := base.(elements := s);
    AppendedAbs(newl, w, v);
    assert Fits(newl);
    SoundAddFresh(live, newl);
  }

  /**
   * The path of `Cons` where l ends at the frontier with room left in its
   * array: v goes into the frontier slot, which no live list reads, and the
   * shared frontier advances past it.
   */
  method ConsInPlace<T>(v: T, l: List<T>, ghost live: set<List<T>>) returns (newl: List<T>)
    requires Sound(live) && l in live && !Taken(l)
    requires Len(l) < l.elements.buf.cap - l.elements.start
    modifies l.elements.buf, l.firstEmpty
    ensures Sound(live + {newl})
    ensures forall h :: h in live ==> View(h.elements) == old(View(h.elements))
    ensures Abs(newl) == [v] + old(Abs(l))
    ensures newl.elements.buf == l.elements.buf && newl.firstEmpty == l.firstEmpty
  {
    ghost var d, w := l.elements.buf.data, View(l.elements);
    ghost var same := set h | h in live && h.elements.buf == l.elements.buf;
    ghost var others := live - same;
    SoundSubset(live, others);
    assert forall h :: h in others ==> h.elements.buf != l.elements.buf && h.firstEmpty != l.firstEmpty;
    assert forall h :: h in same ==> h.firstEmpty == l.firstEmpty && Fits(h);
    GuardAtFrontier(l);
    newl := AppendAtFrontier(v, l);
    FrontierWritten(same + {newl}, l, d);
    assert View(newl.elements) == w + [v];
    AppendedAbs(newl, w, v);
    CoherentShare(live, l, newl);
    assert live + {newl} == others + (same + {newl});
    SoundUnion(others, same + {newl});
  }

  /** The statements of the in-place path: advance the frontier, then append. */
  method AppendAtFrontier<T>(v: T, l: List<T>) returns (newl: List<T>)
    requires InBounds(l.elements)
    requires l.elements.start + Len(l) == |l.elements.buf.data| < l.elements.buf.cap
    modifies l.elements.buf, l.firstEmpty
    ensures l.elements.buf.data == old(l.elements.buf.data) + [v]
    ensures l.firstEmpty.n == old(l.firstEmpty.n) + 1
    ensures newl == List(Slice(l.elements.buf, l.elements.start, Len(l) + 1), l.firstEmpty, l.firstUsed)
  {
    var base := NewFromList(l);
    base.firstEmpty.Add(1);
    var s := Append(base.elements, [v]);
    OverwriteAtEnd(old(l.elements.buf.data), [v]);
    newl := base.(elements := s);
  }

  /**
   * Once the slot after d is written and the frontier advanced past it, the
   * lists on l's array fit, and those that ended within d read what they
   * read in d.
   */
  lemma FrontierWritten<T>(same: set<List<T>>, l: List<T>, d: seq<T>)
    requires forall h :: h in same ==> h.elements.buf == l.elements.buf && h.firstEmpty == l.firstEmpty
    requires forall h :: h in same ==> h.firstUsed == h.elements.start && h.elements.start + h.elements.len <= |d| + 1
    requires |l.elements.buf.data| == |d| + 1 == l.firstEmpty.n <= l.elements.buf.cap
    requires l.elements.buf.data[..|d|] == d
    ensures Sound(same)
    ensures forall h :: h in same && h.elements.start + h.elements.len <= |d| ==>
      View(h.elements) == d[h.elements.start..h.elements.start + h.elements.len]
  {
  }

  /** Reading the head and the tail of a cons gives back its parts. */
  lemma ConsHeadTail<T>(c: List<T>, v: T, l: List<T>)
    requires InBounds(c.elements) && InBounds(l.elements) && Abs(c) == [v] + Abs(l)
    ensures Len(c) == Len(l) + 1 && Head(c) == v && Abs(Tail(c)) == Abs(l)
  {
    assert |Abs(c)| == Len(c);
    TailAbs(c);
  }

  /**
   * `concat`: l1's elements cons'd one by one, last first, onto a header
   * for l2. No live list reads anything new, and the result's array and
   * frontier are l2's or fresh.
   */
  method ConcatPair<T>(l1: List<T>, l2: List<T>, ghost live: set<List<T>>) returns (con: List<T>)
    requires Sound(live) && l1 in live && l2 in live
    modifies Objects(live)
    ensures Sound(live + {con})
    ensures forall h :: h in live ==> View(h.elements) == old(View(h.elements))
    ensures Abs(con) == old(Abs(l1)) + old(Abs(l2))
    ensures con.elements.buf == l2.elements.buf || fresh(con.elements.buf)
    ensures con.firstEmpty == l2.firstEmpty || fresh(con.firstEmpty)
    decreases Len(l1)
  {
    if Len(l1) == 0 {
      con := NewFromList(l2);
      assert live + {con} == live;
      return;
    }
    ghost var a, b := Abs(l1), Abs(l2);
    var head := Head(l1);
    var tail := Tail(l1);
    TailSound(live, l1);
    TailAbs(l1);
    assert Objects(live + {tail}) == Objects(live);
    var rest := ConcatPair(tail, l2, live + {tail});
    ghost var r := Abs(rest);
    assert r == a[1..] + b;
    con := Cons(head, rest, live + {tail} + {rest});
    assert Abs(con) == [head] + r;
    PrependHead(a, b);
    SoundSubset(live + {tail} + {rest} + {con}, live + {con});
  }

  /** What each of the lists reads. */
  ghost function Contents<T>(lists: seq<List<T>>): (c: seq<seq<T>>)
    reads set k | 0 <= k < |lists| :: lists[k].elements.buf
    requires forall k :: 0 <= k < |lists| ==> InBounds(lists[k].elements)
    ensures |c| == |lists| && forall k :: 0 <= k < |lists| ==> c[k] == Abs(lists[k])
  {
    if lists == [] then [] else [Abs(lists[0])] + Contents(lists[1..])
  }

  /**
   * `Concat`: the lists joined in argument order, folding `concat` from the
   * last one back. Go indexes `lists[last]`, so at least one list is needed.
   */
  method Concat<T>(lists: seq<List<T>>, ghost live: set<List<T>>) returns (con: List<T>)
    requires |lists| >= 1 && Sound(live)
    requires forall k :: 0 <= k < |lists| ==> lists[k] in live
    modifies Objects(live)
    ensures Sound(live + {con})
    ensures forall h :: h in live ==> View(h.elements) == old(View(h.elements))
    ensures Abs(con) == Seqs.Concat(old(Contents(lists)))
  {
    ghost var contents := Contents(lists);
    var last := |lists| - 1;
    con := lists[last];
    assert live + {con} == live;
    assert Seqs.Concat(contents[last..]) == contents[last] by {
      assert contents[last..] == [contents[last]];
      ConcatCons(contents[last], []);
    }
    var i := last;
    while i > 0
      invariant 0 <= i <= last
      invariant Sound(live + {con})
      invariant forall h :: h in live ==> View(h.elements) == old(View(h.elements))
      invariant con.elements.buf == lists[last].elements.buf || fresh(con.elements.buf)
      invariant con.firstEmpty == lists[last].firstEmpty || fresh(con.firstEmpty)
      invariant Abs(con) == Seqs.Concat(contents[i..])
    {
      i := i - 1;
      assert Abs(lists[i]) == contents[i];
      ConcatFrom(contents, i);
      con := ConcatStep(lists[i], con, live, Seqs.Concat(contents[i + 1..]));
    }
  }

  /** One step of `Concat`: joins a live list onto the running result. */
  method ConcatStep<T>(l: List<T>, con: List<T>, ghost live: set<List<T>>, ghost rest: seq<T>) returns (next: List<T>)
    requires Sound(live + {con}) && l in live && Abs(con) == rest
    modifies Objects(live + {con})
    ensures Sound(live + {next})
    ensures forall h :: h in live ==> View(h.elements) == old(View(h.elements))
    ensures Abs(next) == old(Abs(l)) + rest
    ensures next.elements.buf == con.elements.buf || fresh(next.elements.buf)
    ensures next.firstEmpty == con.firstEmpty || fresh(next.firstEmpty)
  {
    next := ConcatPair(l, con, live + {con});
    SoundSubset(live + {con} + {next}, live + {next});
  }

  /** Joining the runs from i on puts run i before the runs after it. */
  lemma ConcatFrom<T>(contents: seq<seq<T>>, i: nat)
    requires i < |contents|
    ensures Seqs.Concat(contents[i..]) == contents[i] + Seqs.Concat(contents[i + 1..])
  {
    assert contents[i..] == [contents[i]] + contents[i + 1..];
    ConcatCons(contents[i], contents[i + 1..]);
  }

  /** `Foldr`: storage order is last element first, so f meets the head last. */
  method Foldr<T, A>(init: A, l: List<T>, f: (T, A) -> A) returns (accum: A)
    requires InBounds(l.elements)
    ensures accum == FoldR(f, Abs(l), init)
  {
    accum := init;
    var k := 0;
    while k < Len(l)
      invariant 0 <= k <= Len(l)
      invariant accum == FoldR(f, Abs(l)[Len(l) - k..], init)
    {
      assert Abs(l)[Len(l) - k - 1..] == [Abs(l)[Len(l) - k - 1]] + Abs(l)[Len(l) - k..];
      accum := f(l.elements.buf.data[l.elements.start + k], accum);
      k := k + 1;
    }
  }

  /** `Foldl`: f meets the elements from the head on. */
  method Foldl<T, A>(init: A, l: List<T>, f: (A, T) -> A) returns (accum: A)
    requires InBounds(l.elements)
    ensures accum == FoldL(f, init, Abs(l))
  {
    accum := init;
    var i := 0;
    while i < Len(l)
      invariant 0 <= i <= Len(l)
      invariant accum == FoldL(f, init, Abs(l)[..i])
    {
      assert Abs(l)[..i + 1][..i] == Abs(l)[..i];
      accum := f(accum, Get(l, i));
      i := i + 1;
    }
    assert Abs(l)[..i] == Abs(l);
  }

  /** `Reverse`: each element cons'd, head first, onto a fresh empty list. */
  method Reverse<T>(l: List<T>, ghost live: set<List<T>>) returns (rev: List<T>)
    requires Sound(live) && l in live
    ensures Sound(live + {rev}) && Abs(rev) == Rev(Abs(l))
  {
    rev := New(live);
    var i := 0;
    while i < Len(l)
      invariant 0 <= i <= Len(l)
      invariant fresh(rev.elements.buf) && fresh(rev.firstEmpty)
      invariant Sound(live + {rev})
      invariant Abs(rev) == Rev(Abs(l)[..i])
    {
      var x := Get(l, i);
      ghost var prev := rev;
      rev := Cons(x, rev, live + {rev});
      SoundSubset(live + {prev} + {rev}, live + {rev});
      assert Abs(l)[..i + 1] == Abs(l)[..i] + [x];
      RevAppend(Abs(l)[..i], [x]);
      i := i + 1;
    }
    assert Abs(l)[..i] == Abs(l);
  }
}
