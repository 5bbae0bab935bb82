/**
 * The segmented list of list.go: a persistent list whose elements live in
 * groups, each a slice of a backing array that several lists may share.
 *
 * A header (the Go `*List`) is a value here: every operation builds its
 * result header from fresh copies of the argument's header slices, so
 * headers are never shared. What is shared and updated in place are the
 * backing arrays (`Buffer`) and the frontier counters (`Counter`, the Go
 * `*int` in `firstEmpty`).
 *
 * Storage order is oldest first: the list's head is the last element of
 * the last group, so the logical list is the reverse of the storage.
 */
module SegmentedList {
  import opened Seqs
  import opened Buffers

  /**
   * One group: its slice, the bookkeeping offset (where the slice was
   * thought to start in the backing array) and the shared frontier counter
   * (first slot of the backing array no list has claimed).
   * In Go these are the parallel slices elements, offsets and firstEmpty.
   */
  datatype Group<T> = Group(slice: Slice<T>, offset: int, firstEmpty: Counter)

  /**
   * A list header: groups oldest first, and accumulatedLen[k], the number
   * of elements stored in the groups before group k.
   */
  datatype List<T> = List(groups: seq<Group<T>>, accumulatedLen: seq<int>)

  /** The header invariant: at least one group and consistent prefix sums. */
  ghost predicate WellFormed<T>(l: List<T>)
  {
    && |l.groups| >= 1
    && |l.accumulatedLen| == |l.groups|
    && l.accumulatedLen[0] == 0
    && forall k {:trigger l.groups[k]} :: 0 <= k < |l.groups| - 1 ==>
         l.accumulatedLen[k + 1] == l.accumulatedLen[k] + l.groups[k].slice.len
  }

  /** The backing arrays a list reads. */
  ghost function Frame<T>(l: List<T>): set<object>
  {
    set g | g in l.groups :: g.slice.buf
  }

  /** Every group's window lies within the written part of its array. */
  ghost predicate Readable<T>(l: List<T>)
    reads Frame(l)
  {
    forall g :: g in l.groups ==> InBounds(g.slice)
  }

  /** The windows of the groups, oldest group first. */
  ghost function Views<T>(l: List<T>): (vs: seq<seq<T>>)
    reads Frame(l)
    requires Readable(l)
    ensures |vs| == |l.groups|
    ensures forall k :: 0 <= k < |l.groups| ==> vs[k] == View(l.groups[k].slice)
  {
    seq(|l.groups|, k requires 0 <= k < |l.groups| && InBounds(l.groups[k].slice)
                      reads Frame(l) => View(l.groups[k].slice))
  }

  /** The elements in storage order (oldest first). */
  ghost function Storage<T>(l: List<T>): seq<T>
    reads Frame(l)
    requires Readable(l)
  {
    Concat(Views(l))
  }

  /** The abstract value of a list: its elements, head first. */
  ghost function Abs<T>(l: List<T>): seq<T>
    reads Frame(l)
    requires Readable(l)
  {
    Rev(Storage(l))
  }

  /** Len: the last prefix sum plus the length of the last group. */
  function Len<T>(l: List<T>): int
    requires WellFormed(l)
  {
    var numberOfGroups := |l.accumulatedLen|;
    l.accumulatedLen[numberOfGroups - 1] + l.groups[numberOfGroups - 1].slice.len
  }

  /** Empty: the list has no elements. */
  function Empty<T>(l: List<T>): bool
    requires WellFormed(l)
  {
    Len(l) <= 0
  }

  lemma {:induction false} PrefixLength<T>(l: List<T>, k: nat)
    requires WellFormed(l) && Readable(l) && k < |l.groups|
    ensures l.accumulatedLen[k] == |Concat(Views(l)[..k])|
  {
    if k > 0 {
      PrefixLength(l, k - 1);
      assert Views(l)[..k] == Views(l)[..k - 1] + [Views(l)[k - 1]];
      ConcatAppend(Views(l)[..k - 1], Views(l)[k - 1]);
    }
  }

  /**
   * The prefix sums count the stored elements before each group, and Len
   * is the number of elements of the list.
   */
  lemma LenIsLength<T>(l: List<T>)
    requires WellFormed(l) && Readable(l)
    ensures forall k :: 0 <= k < |l.groups| ==> l.accumulatedLen[k] == |Concat(Views(l)[..k])|
    ensures Len(l) == |Storage(l)| == |Abs(l)|
  {
    forall k | 0 <= k < |l.groups| ensures l.accumulatedLen[k] == |Concat(Views(l)[..k])| {
      PrefixLength(l, k);
    }
    var n := |l.groups| - 1;
    assert Views(l) == Views(l)[..n] + [Views(l)[n]];
    ConcatAppend(Views(l)[..n], Views(l)[n]);
  }

  /** Group k holds storage index i: it starts at or before i and the next group starts after i. */
  ghost predicate Owns(lengths: seq<int>, k: int, i: int)
  {
    0 <= k < |lengths| && lengths[k] <= i && (k + 1 < |lengths| ==> i < lengths[k + 1])
  }

  lemma OwnsInPrefix<T>(lengths: seq<int>, elements: seq<Group<T>>, middle: int, i: int, r: (Group<T>, int))
    requires 0 < middle < |lengths| == |elements| && i < lengths[middle]
    requires exists k :: Owns(lengths[..middle], k, i) && r == (elements[..middle][k], lengths[..middle][k])
    ensures exists k :: Owns(lengths, k, i) && r == (elements[k], lengths[k])
  {
    var k :| Owns(lengths[..middle], k, i) && r == (elements[..middle][k], lengths[..middle][k]);
    assert Owns(lengths, k, i);
  }

  lemma OwnsInSuffix<T>(lengths: seq<int>, elements: seq<Group<T>>, middle: int, i: int, r: (Group<T>, int))
    requires 0 < middle < |lengths| == |elements|
    requires exists k :: Owns(lengths[middle..], k, i) && r == (elements[middle..][k], lengths[middle..][k])
    ensures exists k :: Owns(lengths, k, i) && r == (elements[k], lengths[k])
  {
    var k :| Owns(lengths[middle..], k, i) && r == (elements[middle..][k], lengths[middle..][k]);
    assert Owns(lengths, middle + k, i);
  }

  /**
   * findSlice: bisects the prefix sums for the group that holds storage
   * index i, returning the group and the number of elements before it.
   */
  function FindSlice<T>(lengths: seq<int>, elements: seq<Group<T>>, i: int): (r: (Group<T>, int))
    requires |lengths| >= 1 && |elements| == |lengths| && lengths[0] <= i
    ensures exists k :: Owns(lengths, k, i) && r == (elements[k], lengths[k])
    decreases |lengths|
  {
    var numberOfGroups := |lengths|;
    if numberOfGroups == 1 then
      assert Owns(lengths, 0, i);
      (elements[0], lengths[0])
    else
      var middle := numberOfGroups / 2;
      if i < lengths[middle] then
        var r := FindSlice(lengths[..middle], elements[..middle], i);
        OwnsInPrefix(lengths, elements, middle, i, r);
        r
      else
        var r := FindSlice(lengths[middle..], elements[middle..], i);
        OwnsInSuffix(lengths, elements, middle, i, r);
        r
  }

  /** Storage index i lies in run k at position i - lengths[k] when the prefix sums count the runs. */
  lemma {:induction false} RunAt<T>(vs: seq<seq<T>>, lengths: seq<int>, k: int, i: int)
    requires |lengths| == |vs| && Owns(lengths, k, i) && i < |Concat(vs)|
    requires forall m :: 0 <= m < |vs| ==> lengths[m] == |Concat(vs[..m])|
    requires k + 1 == |vs| ==> i < lengths[k] + |vs[k]|
    requires k + 1 < |vs| ==> lengths[k + 1] == lengths[k] + |vs[k]|
    ensures 0 <= i - lengths[k] < |vs[k]| && Concat(vs)[i] == vs[k][i - lengths[k]]
  {
    ConcatAt(vs, k, i - lengths[k]);
  }

  /** The group FindSlice picks holds storage index `index`, at the right position. */
  lemma LocateIndex<T>(l: List<T>, index: int)
    requires WellFormed(l) && Readable(l) && 0 <= index < Len(l)
    ensures var r := FindSlice(l.accumulatedLen, l.groups, index);
      && r.0 in l.groups && r.1 <= index < r.1 + r.0.slice.len && index < |Storage(l)|
      && View(r.0.slice)[index - r.1] == Storage(l)[index]
  {
    var r := FindSlice(l.accumulatedLen, l.groups, index);
    var k :| Owns(l.accumulatedLen, k, index) && r == (l.groups[k], l.accumulatedLen[k]);
    LenIsLength(l);
    var vs := Views(l);
    var st := Storage(l);
    assert st == Concat(vs);
    assert vs[k] == View(l.groups[k].slice);
    RunAt(vs, l.accumulatedLen, k, index);
  }

  /** Logical index i is storage index Len - 1 - i. */
  lemma AbsAt<T>(l: List<T>, i: int)
    requires WellFormed(l) && Readable(l) && 0 <= i < Len(l)
    ensures |Abs(l)| == Len(l) == |Storage(l)| && Abs(l)[i] == Storage(l)[Len(l) - 1 - i]
  {
    LenIsLength(l);
  }

  /**
   * Get: the element at logical index i. The index is reversed into
   * storage order and located by bisection. An index outside [0, Len) is a
   * precondition (Go panics).
   */
  function Get<T>(l: List<T>, i: int): (r: T)
    reads Frame(l)
    requires WellFormed(l) && Readable(l) && 0 <= i < Len(l)
    ensures |Abs(l)| == Len(l) && r == Abs(l)[i]
  {
    var last := Len(l) - 1;
    var index := last - i;
    LocateIndex(l, index);
    AbsAt(l, i);
    var found := FindSlice(l.accumulatedLen, l.groups, index);
    var slice, offset := found.0.slice, found.1;
    View(slice)[index - offset]
  }

  /** Head: the most recently inserted element. */
  function Head<T>(l: List<T>): (r: T)
    reads Frame(l)
    requires WellFormed(l) && Readable(l) && Len(l) >= 1
    ensures |Abs(l)| == Len(l) && r == Abs(l)[0]
  {
    Get(l, 0)
  }

  /** Last: the first inserted element. */
  function Last<T>(l: List<T>): (r: T)
    reads Frame(l)
    requires WellFormed(l) && Readable(l) && Len(l) >= 1
    ensures |Abs(l)| == Len(l) && r == Abs(l)[|Abs(l)| - 1]
  {
    LenIsLength(l);
    Get(l, Len(l) - 1)
  }

  /** The groups of a list, as a set. */
  ghost function Members<T>(l: List<T>): set<Group<T>>
  {
    set g | g in l.groups
  }

  /** The backing arrays and frontier counters a set of groups refers to. */
  ghost function Objects<T>(gs: set<Group<T>>): set<object>
  {
    (set g | g in gs :: g.slice.buf as object) + (set g | g in gs :: g.firstEmpty as object)
  }

  /**
   * A group fits its frontier: its window is written, and the written part
   * of its array, shifted by the bookkeeping offset, has been claimed.
   */
  ghost predicate Fits<T>(g: Group<T>)
    reads g.slice.buf, g.firstEmpty
  {
    InBounds(g.slice) && |g.slice.buf.data| + (g.offset - g.slice.start) <= g.firstEmpty.n
  }

  /** Groups on one array share its frontier counter and the same offset shift. */
  ghost predicate Coherent<T>(g: Group<T>, h: Group<T>)
  {
    g.slice.buf == h.slice.buf ==>
      g.firstEmpty == h.firstEmpty && g.offset - g.slice.start == h.offset - h.slice.start
  }

  /**
   * The sharing invariant over every group some live list holds: each
   * group fits its frontier and groups on one array agree.
   */
  ghost predicate Sound<T>(live: set<Group<T>>)
    reads Objects(live)
  {
    && (forall g :: g in live ==> Fits(g))
    && (forall g, h :: g in live && h in live ==> Coherent(g, h))
  }

  lemma SoundReadable<T>(l: List<T>, live: set<Group<T>>)
    requires Sound(live) && Members(l) <= live
    ensures Readable(l)
  {
    forall g | g in l.groups ensures InBounds(g.slice) {
      assert g in Members(l) && Fits(g);
    }
  }

  /**
   * The shape every operation keeps once Cons replaces an empty last group:
   * no group is empty, except the only group of an empty list.
   */
  ghost predicate Tidy<T>(l: List<T>)
  {
    |l.groups| == 1 || forall k :: 0 <= k < |l.groups| ==> l.groups[k].slice.len > 0
  }

  /** In a tidy non-empty list the oldest and the newest group hold elements. */
  lemma TidyEnds<T>(l: List<T>)
    requires WellFormed(l) && Tidy(l) && Len(l) >= 1
    ensures l.groups[0].slice.len > 0 && l.groups[|l.groups| - 1].slice.len > 0
  {
  }

  /**
   * canAppendMoreToGroup: the group's end, counted from the bookkeeping
   * offset, plus amount reaches past the frontier.
   */
  function CanAppendMoreToGroup<T>(l: List<T>, amount: int, groupNumber: int): bool
    reads l.groups[groupNumber].firstEmpty
    requires 0 <= groupNumber < |l.groups|
  {
    var g := l.groups[groupNumber];
    g.slice.len + g.offset + amount >= g.firstEmpty.n + 1
  }

  /**
   * For a group that fits, the guard with amount 1 holds exactly when the
   * group's window ends at the end of the written part of its array and
   * at the frontier: the next slot is one no list has claimed.
   */
  lemma GuardAtFrontier<T>(l: List<T>, k: int)
    requires 0 <= k < |l.groups| && Fits(l.groups[k])
    ensures CanAppendMoreToGroup(l, 1, k) <==>
      var g := l.groups[k];
      g.slice.start + g.slice.len == |g.slice.buf.data| && g.slice.len + g.offset == g.firstEmpty.n
  {
  }

  /** At the frontier: the amount-1 guard holds for the group. */
  ghost predicate AtFrontier<T>(g: Group<T>)
    reads g.firstEmpty
  {
    g.slice.len + g.offset >= g.firstEmpty.n
  }

  /**
   * The two statements of the Go source that grow a group: `append` the
   * elements xs to the group's slice, then advance the group's frontier
   * counter by |xs|. The sharing invariant always holds for the grown
   * group too; when the group was at its frontier, nothing another live
   * group shows changes.
   */
  method AppendToGroup<T>(g: Group<T>, xs: seq<T>, ghost live: set<Group<T>>) returns (r: Group<T>)
    requires Sound(live) && g in live
    modifies g.slice.buf, g.firstEmpty
    ensures r.offset == g.offset && r.firstEmpty == g.firstEmpty && r.slice.len == g.slice.len + |xs|
    ensures g.firstEmpty.n == old(g.firstEmpty.n) + |xs|
    ensures InBounds(r.slice) && View(r.slice) == old(View(g.slice)) + xs
    ensures g.slice.start + g.slice.len + |xs| <= g.slice.buf.cap ==>
      r.slice.buf == g.slice.buf && r.slice.start == g.slice.start &&
      g.slice.buf.data == Overwrite(old(g.slice.buf.data), g.slice.start + g.slice.len, xs)
    ensures g.slice.start + g.slice.len + |xs| > g.slice.buf.cap ==>
      fresh(r.slice.buf) && r.slice.start == 0 && g.slice.buf.data == old(g.slice.buf.data)
    ensures Sound(live + {r})
    ensures old(AtFrontier(g)) ==> forall h :: h in live ==> View(h.slice) == old(View(h.slice))
  {
    assert Fits(g);
    var s := Append(g.slice, xs);
    g.firstEmpty.Add(|xs|);
    r := Group(s, g.offset, g.firstEmpty);
    forall h | h in live ensures Fits(h) {
      assert old(Fits(h)) && Coherent(g, h);
    }
    forall h | h in live + {r} ensures Fits(h) {
      if h != r {
        assert h in live;
      }
    }
    forall h1, h2 | h1 in live + {r} && h2 in live + {r} ensures Coherent(h1, h2) {
      if h1 != r && h2 != r {
        assert h1 in live && h2 in live;
      } else if h1 == r && h2 != r {
        assert Coherent(g, h2);
      } else if h1 != r && h2 == r {
        assert Coherent(h1, g);
      }
    }
    if old(AtFrontier(g)) {
      assert old(g.slice.start + g.slice.len == |g.slice.buf.data|);
      forall h | h in live ensures View(h.slice) == old(View(h.slice)) {
        assert old(Fits(h)) && Coherent(g, h);
      }
    }
  }

  lemma SoundSubset<T>(big: set<Group<T>>, small: set<Group<T>>)
    requires Sound(big) && small <= big
    ensures Sound(small)
  {
  }

  /** A group that fits on an array no live group uses keeps the invariant. */
  lemma SoundAdd<T>(live: set<Group<T>>, g: Group<T>)
    requires Sound(live) && Fits(g)
    requires forall h :: h in live ==> h.slice.buf != g.slice.buf
    ensures Sound(live + {g})
  {
    forall h1, h2 | h1 in live + {g} && h2 in live + {g} ensures Coherent(h1, h2) {
      if h1 in live && h2 in live {
      }
    }
  }

  /** A one-group list over a fresh array holding `stored`, claimed up to its end. */
  method SingleGroup<T>(stored: seq<T>, ghost live: set<Group<T>>) returns (l: List<T>)
    requires Sound(live)
    ensures WellFormed(l) && Tidy(l) && Sound(live + Members(l))
    ensures Readable(l) && Storage(l) == stored && Len(l) == |stored|
    ensures |l.groups| == 1 && l.groups[0].offset == 0 && l.groups[0].firstEmpty.n == |stored|
    ensures l.groups[0].slice.buf.cap == |stored|
    ensures fresh(l.groups[0].slice.buf) && fresh(l.groups[0].firstEmpty)
  {
    var buf := new Buffer(stored, |stored|);
    var firstEmpty := new Counter(|stored|);
    var g := Group(Slice(buf, 0, |stored|), 0, firstEmpty);
    l := List([g], [0]);
    assert Members(l) == {g};
    SoundAdd(live, g);
    assert buf.data[0..|stored|] == stored;
    assert Views(l) == [stored];
    assert Concat([stored]) == Concat([]) + stored;
  }

  /** New: the empty list, one empty group over an empty array, frontier 0. */
  method New<T>(ghost live: set<Group<T>>) returns (l: List<T>)
    requires Sound(live)
    ensures WellFormed(l) && Tidy(l) && Sound(live + Members(l))
    ensures Readable(l) && Abs(l) == [] && Len(l) == 0
    ensures |l.groups| == 1 && l.groups[0].offset == 0 && l.groups[0].firstEmpty.n == 0
    ensures l.groups[0].slice.buf.cap == 0
    ensures fresh(l.groups[0].slice.buf) && fresh(l.groups[0].firstEmpty)
  {
    l := SingleGroup([], live);
  }

  /**
   * NewFromList: a copy of the header. Headers are values in this model,
   * so the copy shares every group with the original and reads the same.
   */
  function NewFromList<T>(original: List<T>): (dest: List<T>)
    reads Frame(original)
    requires WellFormed(original) && Readable(original)
    ensures WellFormed(dest) && Members(dest) == Members(original) && Readable(dest)
    ensures Len(dest) == Len(original) && Abs(dest) == Abs(original)
  {
    List(original.groups, original.accumulatedLen)
  }

  /** newFromReversedSlice: one group holding a copy of the given storage. */
  method NewFromReversedSlice<T>(slice: seq<T>, ghost live: set<Group<T>>) returns (l: List<T>)
    requires Sound(live)
    ensures WellFormed(l) && Tidy(l) && Sound(live + Members(l))
    ensures Readable(l) && Storage(l) == slice && Abs(l) == Rev(slice) && Len(l) == |slice|
  {
    l := SingleGroup(slice, live);
  }

  /**
   * NewFromSlice: the list whose elements, head first, are the slice's.
   * The slice is reversed into storage order first.
   */
  method NewFromSlice<T>(slice: seq<T>, ghost live: set<Group<T>>) returns (l: List<T>)
    requires Sound(live)
    ensures WellFormed(l) && Tidy(l) && Sound(live + Members(l))
    ensures Readable(l) && Abs(l) == slice && Len(l) == |slice|
  {
    var reversed := new T[|slice|](i requires 0 <= i < |slice| => slice[i]);
    var k := 0;
    while k < |slice|
      invariant 0 <= k <= |slice|
      invariant forall j :: 0 <= j < k ==> reversed[|slice| - 1 - j] == slice[j]
    {
      reversed[|slice| - k - 1] := slice[k];
      k := k + 1;
    }
    assert reversed[..] == Rev(slice);
    l := NewFromReversedSlice(reversed[..], live);
    RevRev(slice);
  }

  /** The storage of a list whose group windows show ws, in order. */
  lemma {:induction false} StorageOf<T>(l: List<T>, ws: seq<seq<T>>)
    requires Readable(l) && |ws| == |l.groups|
    requires forall k :: 0 <= k < |ws| ==> View(l.groups[k].slice) == ws[k]
    ensures Views(l) == ws && Storage(l) == Concat(ws)
  {
  }

  /**
   * A narrower window of a live group, with the bookkeeping offset moved
   * by as much as the start, keeps the invariant.
   */
  lemma SoundShrink<T>(live: set<Group<T>>, g: Group<T>, h: Group<T>)
    requires Sound(live) && g in live
    requires h.slice.buf == g.slice.buf && h.firstEmpty == g.firstEmpty
    requires h.offset - h.slice.start == g.offset - g.slice.start
    requires h.slice.start + h.slice.len <= g.slice.start + g.slice.len
    ensures Sound(live + {h})
  {
    assert Fits(g);
    forall h1, h2 | h1 in live + {h} && h2 in live + {h} ensures Coherent(h1, h2) {
      if h1 in live && h2 in live {
      } else if h1 in live {
        assert Coherent(h1, g);
      } else if h2 in live {
        assert Coherent(g, h2);
      }
    }
  }

  /** Removing the last group removes its elements from the end of the storage. */
  lemma {:induction false} DropLastGroup<T>(l: List<T>)
    requires WellFormed(l) && Readable(l) && |l.groups| >= 2
    ensures var n := |l.groups| - 1;
      var t := List(l.groups[..n], l.accumulatedLen[..n]);
      WellFormed(t) && Readable(t) && Storage(l) == Storage(t) + View(l.groups[n].slice)
  {
    var n := |l.groups| - 1;
    var t := List(l.groups[..n], l.accumulatedLen[..n]);
    var vs := Views(l);
    StorageOf(t, vs[..n]);
    assert vs == vs[..n] + [vs[n]];
    ConcatAppend(vs[..n], vs[n]);
  }

  /** Shortening the last group by one removes the head from the storage's end. */
  lemma {:induction false} ShrinkLastGroup<T>(l: List<T>, shrunk: Group<T>)
    requires WellFormed(l) && Readable(l)
    requires var g := l.groups[|l.groups| - 1];
      g.slice.len >= 1 && shrunk == Group(Slice(g.slice.buf, g.slice.start, g.slice.len - 1), g.offset, g.firstEmpty)
    ensures var t := List(l.groups[..|l.groups| - 1] + [shrunk], l.accumulatedLen);
      WellFormed(t) && Readable(t) && |Storage(l)| >= 1 && Storage(t) == Storage(l)[..|Storage(l)| - 1]
  {
    var n := |l.groups| - 1;
    var t := List(l.groups[..n] + [shrunk], l.accumulatedLen);
    var vs := Views(l);
    assert Members(t) <= Members(l) + {shrunk};
    StorageOf(t, vs[..n] + [vs[n][..|vs[n]| - 1]]);
    ConcatShrinkLast(vs);
  }

  /**
   * The header Tail builds for a list of two or more elements: the last
   * group shrinks by one, or is dropped when it holds at most one element.
   */
  function TailHeader<T>(l: List<T>): (tail: List<T>)
    requires WellFormed(l) && Len(l) >= 2
    ensures WellFormed(tail)
  {
    var numberOfGroups := |l.groups|;
    var n := numberOfGroups - 1;
    var lenLastGroup := l.groups[n].slice.len;
    if lenLastGroup > 1 then
      var g := l.groups[n];
      List(l.groups[..n] + [Group(Slice(g.slice.buf, g.slice.start, lenLastGroup - 1), g.offset, g.firstEmpty)],
           l.accumulatedLen)
    else
      List(l.groups[..n], l.accumulatedLen[..n])
  }

  /** The tail header keeps the sharing invariant and tidiness. */
  lemma TailHeaderSound<T>(l: List<T>, live: set<Group<T>>)
    requires WellFormed(l) && Len(l) >= 2 && Sound(live) && Members(l) <= live
    ensures Sound(live + Members(TailHeader(l)))
    ensures Tidy(l) ==> Tidy(TailHeader(l))
  {
    var n := |l.groups| - 1;
    var tail := TailHeader(l);
    if l.groups[n].slice.len > 1 {
      var g := l.groups[n];
      assert g in Members(l);
      SoundShrink(live, g, tail.groups[n]);
      assert Members(tail) <= live + {tail.groups[n]};
      SoundSubset(live + {tail.groups[n]}, live + Members(tail));
    } else {
      assert Members(tail) <= live;
    }
  }

  /** The tail header reads the list without its head. */
  lemma TailHeaderAbs<T>(l: List<T>)
    requires WellFormed(l) && Readable(l) && Len(l) >= 2
    ensures Readable(TailHeader(l)) && |Abs(l)| == Len(l)
    ensures Abs(TailHeader(l)) == if l.groups[|l.groups| - 1].slice.len > 0 then Abs(l)[1..] else Abs(l)
  {
    LenIsLength(l);
    var n := |l.groups| - 1;
    var tail := TailHeader(l);
    if l.groups[n].slice.len > 1 {
      ShrinkLastGroup(l, tail.groups[n]);
      RevDropLast(Storage(l));
    } else {
      DropLastGroup(l);
      if l.groups[n].slice.len == 1 {
        assert Storage(tail) == Storage(l)[..|Storage(l)| - 1];
        RevDropLast(Storage(l));
      } else {
        assert Storage(tail) == Storage(l);
      }
    }
  }

  /**
   * Tail: all but the head. A one-element list gives a new empty list;
   * otherwise the header is the tail header above. Nothing is written.
   * Dropping an empty last group removes no element: this only happens to
   * lists that are not tidy.
   */
  method Tail<T>(l: List<T>, ghost live: set<Group<T>>) returns (tail: List<T>)
    requires WellFormed(l) && Sound(live) && Members(l) <= live && Len(l) >= 1
    ensures WellFormed(tail) && Sound(live + Members(tail))
    ensures Readable(l) && Readable(tail) && |Abs(l)| == Len(l)
    ensures Abs(tail) == if Len(l) == 1 || l.groups[|l.groups| - 1].slice.len > 0 then Abs(l)[1..] else Abs(l)
    ensures Tidy(l) ==> Tidy(tail)
  {
    if Len(l) == 1 {
      tail := New(live);
      SoundSubset(live + Members(tail), live);
      SoundReadable(l, live);
      LenIsLength(l);
      assert Abs(l)[1..] == [];
      return;
    }
    tail := TailHeader(l);
    SoundReadable(l, live);
    TailHeaderSound(l, live);
    TailHeaderAbs(l);
  }

  /** The first group without its oldest element: start and offset move by one. */
  function ShrinkFirstGroup<T>(l: List<T>): (r: List<T>)
    requires WellFormed(l) && l.groups[0].slice.len >= 1
    ensures WellFormed(r) && |r.groups| == |l.groups| && Len(r) == Len(l) - 1
    ensures r.groups[1..] == l.groups[1..]
  {
    var n := |l.groups|;
    var g := l.groups[0];
    var r := List([Group(Slice(g.slice.buf, g.slice.start + 1, g.slice.len - 1), g.offset + 1, g.firstEmpty)] + l.groups[1..],
                  [0] + seq(n - 1, k requires 0 <= k < n - 1 => l.accumulatedLen[k + 1] - 1));
    assert forall k :: 1 <= k < n ==> r.groups[k] == l.groups[k];
    r
  }

  /** The list without its first group: later prefix sums drop by its length. */
  function DropFirstGroup<T>(l: List<T>): (r: List<T>)
    requires WellFormed(l) && |l.groups| >= 2
    ensures WellFormed(r) && r.groups == l.groups[1..] && Len(r) == Len(l) - l.groups[0].slice.len
  {
    var n := |l.groups|;
    List(l.groups[1..], seq(n - 1, k requires 0 <= k < n - 1 => l.accumulatedLen[k + 1] - l.accumulatedLen[1]))
  }

  /**
   * The header Init builds for a list of two or more elements: the first
   * group loses its oldest element, or is dropped when it holds at most
   * one element.
   */
  function InitHeader<T>(l: List<T>): (init: List<T>)
    requires WellFormed(l) && Len(l) >= 2
    ensures WellFormed(init)
  {
    if l.groups[0].slice.len > 1 then ShrinkFirstGroup(l) else DropFirstGroup(l)
  }

  /** The init header keeps the sharing invariant and tidiness. */
  lemma InitHeaderSound<T>(l: List<T>, live: set<Group<T>>)
    requires WellFormed(l) && Len(l) >= 2 && Sound(live) && Members(l) <= live
    ensures Sound(live + Members(InitHeader(l)))
    ensures Tidy(l) ==> Tidy(InitHeader(l))
  {
    var init := InitHeader(l);
    var g := l.groups[0];
    assert g in Members(l);
    if g.slice.len > 1 {
      SoundShrink(live, g, init.groups[0]);
      assert Members(init) <= live + {init.groups[0]} by {
        forall h | h in init.groups ensures h in live + {init.groups[0]} {
          var k :| 0 <= k < |init.groups| && init.groups[k] == h;
          if k > 0 {
            assert h == l.groups[1..][k - 1];
          }
        }
      }
      SoundSubset(live + {init.groups[0]}, live + Members(init));
    } else {
      assert Members(init) <= live;
    }
  }

  /** Shrinking the first group drops the oldest element from the storage. */
  lemma {:induction false} ShrinkFirstGroupStorage<T>(l: List<T>)
    requires WellFormed(l) && Readable(l) && l.groups[0].slice.len >= 1
    ensures Readable(ShrinkFirstGroup(l)) && |Storage(l)| >= 1
    ensures Storage(ShrinkFirstGroup(l)) == Storage(l)[1..]
  {
    var r := ShrinkFirstGroup(l);
    var vs := Views(l);
    assert r.groups == [r.groups[0]] + l.groups[1..];
    StorageOf(r, [vs[0][1..]] + vs[1..]);
    ConcatShrinkFirst(vs);
  }

  /** Dropping the first group drops its elements from the front of the storage. */
  lemma {:induction false} DropFirstGroupStorage<T>(l: List<T>)
    requires WellFormed(l) && Readable(l) && |l.groups| >= 2
    ensures Readable(DropFirstGroup(l)) && l.groups[0].slice.len <= |Storage(l)|
    ensures Storage(DropFirstGroup(l)) == Storage(l)[l.groups[0].slice.len..]
  {
    var vs := Views(l);
    StorageOf(DropFirstGroup(l), vs[1..]);
    ConcatDropFirst(vs);
  }

  /** The init header reads the list without its last element. */
  lemma InitHeaderAbs<T>(l: List<T>)
    requires WellFormed(l) && Readable(l) && Len(l) >= 2
    ensures Readable(InitHeader(l)) && |Abs(l)| == Len(l)
    ensures Abs(InitHeader(l)) == if l.groups[0].slice.len > 0 then Abs(l)[..Len(l) - 1] else Abs(l)
  {
    LenIsLength(l);
    if l.groups[0].slice.len > 1 {
      ShrinkFirstGroupStorage(l);
      RevDropFirst(Storage(l));
    } else {
      DropFirstGroupStorage(l);
      if l.groups[0].slice.len == 1 {
        RevDropFirst(Storage(l));
      } else {
        assert Storage(l)[0..] == Storage(l);
      }
    }
  }

  /**
   * The first branch of Init on a header copy: narrow the first group and
   * decrement every later prefix sum, in a loop over accumulatedLen[1:].
   */
  method ShrinkFirst<T>(l: List<T>) returns (init: List<T>)
    requires WellFormed(l) && l.groups[0].slice.len >= 1
    ensures init == ShrinkFirstGroup(l)
  {
    var numberOfGroups := |l.groups|;
    var g := l.groups[0];
    var first := Group(Slice(g.slice.buf, g.slice.start + 1, g.slice.len - 1), g.offset + 1, g.firstEmpty);
    var accumulatedLen := l.accumulatedLen;
    var k := 0;
    while k < numberOfGroups - 1
      invariant 0 <= k <= numberOfGroups - 1 && |accumulatedLen| == numberOfGroups
      invariant accumulatedLen[0] == 0
      invariant forall j :: 1 <= j <= k ==> accumulatedLen[j] == l.accumulatedLen[j] - 1
      invariant forall j :: k < j < numberOfGroups ==> accumulatedLen[j] == l.accumulatedLen[j]
    {
      var v := accumulatedLen[k + 1];
      accumulatedLen := accumulatedLen[k + 1 := v - 1];
      k := k + 1;
    }
    init := List([first] + l.groups[1..], accumulatedLen);
    assert accumulatedLen == ShrinkFirstGroup(l).accumulatedLen;
  }

  /**
   * The second branch of Init on a header copy: drop the first group and
   * rebase the later prefix sums on the second, in a loop into a new array.
   */
  method DropFirst<T>(l: List<T>) returns (init: List<T>)
    requires WellFormed(l) && |l.groups| >= 2
    ensures init == DropFirstGroup(l)
  {
    var numberOfGroups := |l.groups|;
    var firstAccumulatedLen := l.accumulatedLen[1];
    var accumulatedLen := seq(numberOfGroups - 1, _ => 0);
    var k := 0;
    while k < numberOfGroups - 1
      invariant 0 <= k <= numberOfGroups - 1 && |accumulatedLen| == numberOfGroups - 1
      invariant forall j :: 0 <= j < k ==> accumulatedLen[j] == l.accumulatedLen[j + 1] - firstAccumulatedLen
    {
      var v := l.accumulatedLen[k + 1];
      accumulatedLen := accumulatedLen[k := v - firstAccumulatedLen];
      k := k + 1;
    }
    init := List(l.groups[1..], accumulatedLen);
    assert accumulatedLen == DropFirstGroup(l).accumulatedLen;
  }

  /**
   * Init: all but the last element. A one-element list gives a new empty
   * list; otherwise the header copy loses its oldest element. Nothing is
   * written. Dropping an empty first group removes no element: this only
   * happens to lists that are not tidy.
   */
  method Init<T>(l: List<T>, ghost live: set<Group<T>>) returns (init: List<T>)
    requires WellFormed(l) && Sound(live) && Members(l) <= live && Len(l) >= 1
    ensures WellFormed(init) && Sound(live + Members(init))
    ensures Readable(l) && Readable(init) && |Abs(l)| == Len(l)
    ensures Abs(init) == if Len(l) == 1 || l.groups[0].slice.len > 0 then Abs(l)[..Len(l) - 1] else Abs(l)
    ensures Tidy(l) ==> Tidy(init)
  {
    if Len(l) == 1 {
      init := New(live);
      SoundSubset(live + Members(init), live);
      SoundReadable(l, live);
      LenIsLength(l);
      return;
    }
    var lenFirstGroup := l.groups[0].slice.len;
    if lenFirstGroup > 1 {
      init := ShrinkFirst(l);
    } else {
      init := DropFirst(l);
    }
    SoundReadable(l, live);
    InitHeaderSound(l, live);
    InitHeaderAbs(l);
  }

  /**
   * A list whose groups all show what they showed in the earlier state
   * reads as it did then.
   */
  twostate lemma ReadsUnchanged<T>(l: List<T>)
    requires old(Readable(l)) && Readable(l)
    requires forall k :: 0 <= k < |l.groups| ==> View(l.groups[k].slice) == old(View(l.groups[k].slice))
    ensures Storage(l) == old(Storage(l)) && Abs(l) == old(Abs(l))
  {
    StorageOf(l, old(Views(l)));
  }

  /** A list whose last group grew by xs stores xs after what the old groups showed. */
  lemma {:induction false} GrowLastStorage<T>(l: List<T>, vs: seq<seq<T>>, xs: seq<T>)
    requires Readable(l) && |l.groups| == |vs| >= 1
    requires forall k :: 0 <= k < |vs| - 1 ==> View(l.groups[k].slice) == vs[k]
    requires View(l.groups[|vs| - 1].slice) == vs[|vs| - 1] + xs
    ensures Storage(l) == Concat(vs) + xs
  {
    var n := |vs| - 1;
    StorageOf(l, vs[..n] + [vs[n] + xs]);
    ConcatGrowLast(vs, xs);
  }

  /** A list with one more group than vs describes stores that group's window last. */
  lemma {:induction false} PushGroupStorage<T>(l: List<T>, vs: seq<seq<T>>)
    requires Readable(l) && |l.groups| == |vs| + 1
    requires forall k :: 0 <= k < |vs| ==> View(l.groups[k].slice) == vs[k]
    ensures Storage(l) == Concat(vs) + View(l.groups[|vs|].slice)
  {
    StorageOf(l, vs + [View(l.groups[|vs|].slice)]);
    ConcatAppend(vs, View(l.groups[|vs|].slice));
  }

  /** Storing x after s puts x at the head of the list s stores. */
  lemma {:induction false} RevSnoc<T>(s: seq<T>, x: T)
    ensures Rev(s + [x]) == [x] + Rev(s)
  {
    RevAppend(s, [x]);
    assert Rev([x]) == Rev([x][1..]) + [x];
  }

  /**
   * A list that keeps all but the last group of a tidy list and whose
   * remaining groups all hold elements is tidy.
   */
  lemma TidyAfterCons<T>(l: List<T>, r: List<T>)
    requires Tidy(l) && |l.groups| >= 1 && |r.groups| >= |l.groups|
    requires r.groups[..|l.groups| - 1] == l.groups[..|l.groups| - 1]
    requires forall k :: |l.groups| - 1 <= k < |r.groups| ==> r.groups[k].slice.len > 0
    ensures Tidy(r)
  {
    var n := |l.groups| - 1;
    forall k | 0 <= k < n ensures r.groups[k].slice.len > 0 {
      assert r.groups[k] == r.groups[..n][k];
    }
  }

  /**
   * The merge step shared by Cons and concatenate: xs is appended to the
   * last group of the header (in place or into a fresh array) and its
   * frontier advances by |xs|. When the last group was at its frontier,
   * every live group shows what it showed before and the list stores xs
   * after its old elements.
   */
  method GrowLastGroup<T>(l: List<T>, xs: seq<T>, ghost live: set<Group<T>>) returns (newl: List<T>)
    requires WellFormed(l) && Sound(live) && Members(l) <= live
    modifies l.groups[|l.groups| - 1].slice.buf, l.groups[|l.groups| - 1].firstEmpty
    ensures WellFormed(newl) && Sound(live + Members(newl)) && Len(newl) == Len(l) + |xs|
    ensures |newl.groups| == |l.groups| && newl.groups[..|l.groups| - 1] == l.groups[..|l.groups| - 1]
    ensures var g, r := l.groups[|l.groups| - 1], newl.groups[|l.groups| - 1];
      && r.slice.len == g.slice.len + |xs| && r.offset == g.offset && r.firstEmpty == g.firstEmpty
      && g.firstEmpty.n == old(g.firstEmpty.n) + |xs|
      && (r.slice.buf == g.slice.buf || fresh(r.slice.buf)) && old(InBounds(g.slice))
      && (g.slice.start + g.slice.len + |xs| <= g.slice.buf.cap ==>
            r.slice.buf == g.slice.buf &&
            g.slice.buf.data == Overwrite(old(g.slice.buf.data), g.slice.start + g.slice.len, xs))
    ensures old(AtFrontier(l.groups[|l.groups| - 1])) ==>
      && (forall h :: h in live ==> View(h.slice) == old(View(h.slice)))
      && old(Readable(l)) && Readable(newl) && Storage(newl) == old(Storage(l)) + xs
  {
    SoundReadable(l, live);
    ghost var vs := Views(l);
    var lastGroup := |l.groups| - 1;
    var last := l.groups[lastGroup];
    assert last in Members(l);
    var grown := AppendToGroup(last, xs, live);
    newl := List(l.groups[..lastGroup] + [grown], l.accumulatedLen);
    assert Sound(live + Members(newl)) by {
      assert Members(newl) <= live + {grown};
      SoundSubset(live + {grown}, live + Members(newl));
    }
    if old(AtFrontier(last)) {
      forall k | 0 <= k < lastGroup ensures View(l.groups[k].slice) == vs[k] {
        assert l.groups[k] in Members(l);
      }
      SoundReadable(newl, live + Members(newl));
      SoundSubset(live + Members(newl), live);
      SoundReadable(l, live);
      GrowLastStorageAfter(l, newl, vs, xs);
    }
  }

  /** The storage of l with its last group replaced by one showing xs more. */
  lemma GrowLastStorageAfter<T>(l: List<T>, newl: List<T>, vs: seq<seq<T>>, xs: seq<T>)
    requires Readable(l) && Readable(newl) && |vs| >= 1
    requires |l.groups| == |newl.groups| == |vs| && newl.groups[..|l.groups| - 1] == l.groups[..|l.groups| - 1]
    requires forall k :: 0 <= k < |vs| - 1 ==> View(l.groups[k].slice) == vs[k]
    requires View(newl.groups[|vs| - 1].slice) == vs[|vs| - 1] + xs
    ensures Storage(newl) == Concat(vs) + xs
  {
    forall k | 0 <= k < |vs| - 1 ensures View(newl.groups[k].slice) == vs[k] {
      assert newl.groups[k] == newl.groups[..|l.groups| - 1][k];
    }
    GrowLastStorage(newl, vs, xs);
  }

  /** The header l followed by one more group, with its prefix sum. */
  function PushGroup<T>(l: List<T>, group: Group<T>): (r: List<T>)
    requires WellFormed(l)
    ensures WellFormed(r) && |r.groups| == |l.groups| + 1 && r.groups[..|l.groups|] == l.groups
    ensures r.groups[|l.groups|] == group && Len(r) == Len(l) + group.slice.len
  {
    var lastInserted := |l.groups| - 1;
    var r := List(l.groups + [group], l.accumulatedLen + [l.accumulatedLen[lastInserted] + l.groups[lastInserted].slice.len]);
    assert r.groups[..|l.groups|] == l.groups;
    r
  }

  /** Pushing a group that keeps the invariant stores its window last. */
  lemma {:induction false} PushGroupSound<T>(l: List<T>, group: Group<T>, live: set<Group<T>>)
    requires WellFormed(l) && Sound(live + {group}) && Members(l) <= live
    ensures Sound(live + Members(PushGroup(l, group)))
    ensures Readable(l) && Readable(PushGroup(l, group))
    ensures Storage(PushGroup(l, group)) == Storage(l) + View(group.slice)
  {
    var r := PushGroup(l, group);
    assert Members(r) <= live + {group};
    SoundSubset(live + {group}, live + Members(r));
    SoundReadable(r, live + {group});
    SoundSubset(live + {group}, live);
    SoundReadable(l, live);
    PushGroupStorage(r, Views(l));
  }

  /**
   * The second branch of Cons: x starts a new one-element group over a
   * fresh array of capacity 1 with its own frontier 1.
   */
  method ConsNewGroup<T>(x: T, l: List<T>, ghost live: set<Group<T>>) returns (newl: List<T>)
    requires WellFormed(l) && Sound(live) && Members(l) <= live
    ensures WellFormed(newl) && Sound(live + Members(newl))
    ensures old(Readable(l)) && Readable(newl) && Storage(newl) == old(Storage(l)) + [x]
    ensures |newl.groups| == |l.groups| + 1 && newl.groups[..|l.groups|] == l.groups
    ensures newl.groups[|l.groups|].slice.len == 1
    ensures fresh(newl.groups[|l.groups|].slice.buf) && fresh(newl.groups[|l.groups|].firstEmpty)
  {
    SoundReadable(l, live);
    ghost var vs := Views(l);
    var buf := new Buffer([x], 1);
    var lenNewGroup := new Counter(1);
    var group := Group(Slice(buf, 0, 1), 0, lenNewGroup);
    newl := PushGroup(l, group);
    assert Sound(live + Members(newl)) by {
      SoundAdd(live, group);
      PushGroupSound(l, group, live);
    }
    assert Readable(newl) by {
      SoundReadable(newl, live + Members(newl));
    }
    assert Storage(newl) == Concat(vs) + [x] by {
      assert forall k :: 0 <= k < |vs| ==> View(newl.groups[k].slice) == vs[k];
      PushGroupStorage(newl, vs);
      assert View(group.slice) == [x];
    }
  }

  /**
   * The corrected second branch of Cons for an empty last group: the
   * group is replaced by a new one-element group over a fresh array,
   * instead of being kept in front of it.
   */
  method ConsReplacingEmptyGroup<T>(x: T, l: List<T>, ghost live: set<Group<T>>) returns (newl: List<T>)
    requires WellFormed(l) && Sound(live) && Members(l) <= live && l.groups[|l.groups| - 1].slice.len == 0
    ensures WellFormed(newl) && Sound(live + Members(newl))
    ensures old(Readable(l)) && Readable(newl) && Storage(newl) == old(Storage(l)) + [x]
    ensures |newl.groups| == |l.groups| && newl.groups[..|l.groups| - 1] == l.groups[..|l.groups| - 1]
    ensures newl.groups[|l.groups| - 1].slice.len == 1
  {
    SoundReadable(l, live);
    ghost var vs := Views(l);
    var lastGroup := |l.groups| - 1;
    var buf := new Buffer([x], 1);
    var lenNewGroup := new Counter(1);
    var group := Group(Slice(buf, 0, 1), 0, lenNewGroup);
    newl := List(l.groups[..lastGroup] + [group], l.accumulatedLen);
    assert Sound(live + Members(newl)) by {
      SoundAdd(live, group);
      assert Members(newl) <= live + {group};
      SoundSubset(live + {group}, live + Members(newl));
    }
    SoundReadable(newl, live + Members(newl));
    assert Storage(newl) == Concat(vs) + [x] by {
      assert forall k :: 0 <= k < lastGroup ==> View(newl.groups[k].slice) == vs[k];
      assert View(newl.groups[lastGroup].slice) == vs[lastGroup] + [x];
      GrowLastStorage(newl, vs, [x]);
    }
  }

  /**
   * Cons as the Go source writes it: onto the last group when the guard
   * (amount 1) holds, otherwise into a new group. Every live group shows
   * what it showed before, so every live list reads as before, and the
   * result reads x followed by l. The new group is started even when the
   * last group is empty, which leaves an empty group inside a non-empty
   * list.
   */
  method ConsAsWritten<T>(x: T, l: List<T>, ghost live: set<Group<T>>) returns (newl: List<T>)
    requires WellFormed(l) && Sound(live) && Members(l) <= live
    modifies l.groups[|l.groups| - 1].slice.buf, l.groups[|l.groups| - 1].firstEmpty
    ensures WellFormed(newl) && Sound(live + Members(newl))
    ensures forall h :: h in live ==> View(h.slice) == old(View(h.slice))
    ensures old(Readable(l)) && Readable(newl) && Abs(newl) == [x] + old(Abs(l))
    ensures |newl.groups| >= |l.groups| && newl.groups[..|l.groups| - 1] == l.groups[..|l.groups| - 1]
    ensures old(CanAppendMoreToGroup(l, 1, |l.groups| - 1)) ==>
      l.groups[|l.groups| - 1].firstEmpty.n == old(l.groups[|l.groups| - 1].firstEmpty.n) + 1
    ensures !old(CanAppendMoreToGroup(l, 1, |l.groups| - 1)) ==>
      |newl.groups| == |l.groups| + 1 && newl.groups[..|l.groups|] == l.groups &&
      unchanged(l.groups[|l.groups| - 1].slice.buf, l.groups[|l.groups| - 1].firstEmpty) &&
      fresh(newl.groups[|l.groups|].slice.buf) && fresh(newl.groups[|l.groups|].firstEmpty)
  {
    var lastGroup := |l.groups| - 1;
    if CanAppendMoreToGroup(l, 1, lastGroup) {
      newl := GrowLastGroup(l, [x], live);
    } else {
      newl := ConsNewGroup(x, l, live);
      assert newl.groups[..lastGroup] == l.groups[..lastGroup];
    }
    RevSnoc(old(Storage(l)), x);
  }

  /**
   * Cons as written keeps an empty group inside a list: an empty list E is
   * consed onto twice, so the second Cons finds E's frontier claimed and
   * starts a new group behind E's empty one; consing once more and taking
   * Init then drops that empty group instead of an element. The result
   * still has both elements, where Init should have left one.
   */
  method ConsKeepsEmptyGroupWitness() returns (len: int, ghost contents: seq<int>)
    ensures len == 2 && contents == [3, 2]
  {
    var l, live := EmptyGroupInside();
    label beforeInit:
    var init := Init(l, live);
    ReadsUnchanged@beforeInit(l);
    LenIsLength(init);
    len := Len(init);
    contents := Abs(init);
  }

  /** Cons as written twice onto a claimed empty list: [3, 2] behind an empty oldest group. */
  method EmptyGroupInside() returns (l: List<int>, ghost live: set<Group<int>>)
    ensures WellFormed(l) && Sound(live) && Members(l) <= live && Readable(l)
    ensures Abs(l) == [3, 2] && Len(l) == 2 && l.groups[0].slice.len == 0
  {
    var e;
    e, live := ClaimedEmptyList();
    var l2 := ConsAsWritten(2, e, live);
    assert Abs(l2) == [2];
    live := live + Members(l2);
    l := ConsAsWritten(3, l2, live);
    assert Abs(l) == [3, 2];
    live := live + Members(l);
    assert l.groups[0] == l2.groups[..1][0] == e.groups[0];
    LenIsLength(l);
  }

  /** An empty list whose frontier a Cons onto it has claimed. */
  method ClaimedEmptyList() returns (e: List<int>, ghost live: set<Group<int>>)
    ensures WellFormed(e) && Sound(live) && Members(e) <= live && Readable(e) && Abs(e) == []
    ensures |e.groups| == 1 && e.groups[0].slice.len == 0 && e.groups[0].offset == 0
    ensures e.groups[0].firstEmpty.n == 1
    ensures fresh(e.groups[0].slice.buf) && fresh(e.groups[0].firstEmpty)
  {
    e := New({});
    live := Members(e);
    var l1 := ConsAsWritten(1, e, live);
    live := live + Members(l1);
    assert e.groups[0] in live;
    SoundReadable(e, live);
    assert Abs(e) == [] by {
      assert Views(e) == [[]];
      assert Concat([[]]) == Concat<int>([]) + [];
    }
  }

  /**
   * Cons, corrected: as written, except that an empty last group the guard
   * refuses is replaced rather than kept. The result reads x followed by
   * l, every live list reads as before, and tidy lists stay tidy.
   */
  method Cons<T>(x: T, l: List<T>, ghost live: set<Group<T>>) returns (newl: List<T>)
    requires WellFormed(l) && Sound(live) && Members(l) <= live
    modifies l.groups[|l.groups| - 1].slice.buf, l.groups[|l.groups| - 1].firstEmpty
    ensures WellFormed(newl) && Sound(live + Members(newl))
    ensures forall h :: h in live ==> View(h.slice) == old(View(h.slice))
    ensures old(Readable(l)) && Readable(newl) && Abs(newl) == [x] + old(Abs(l))
    ensures Tidy(l) ==> Tidy(newl)
  {
    var lastGroup := |l.groups| - 1;
    if CanAppendMoreToGroup(l, 1, lastGroup) {
      newl := GrowLastGroup(l, [x], live);
      assert Tidy(l) ==> Tidy(newl) by {
        if Tidy(l) {
          TidyAfterCons(l, newl);
        }
      }
    } else if l.groups[lastGroup].slice.len == 0 {
      newl := ConsReplacingEmptyGroup(x, l, live);
      assert Tidy(l) ==> Tidy(newl) by {
        if Tidy(l) {
          TidyAfterCons(l, newl);
        }
      }
    } else {
      newl := ConsNewGroup(x, l, live);
      assert Tidy(l) ==> Tidy(newl) by {
        if Tidy(l) {
          assert newl.groups[lastGroup] == newl.groups[..|l.groups|][lastGroup];
          TidyAfterCons(l, newl);
        }
      }
    }
    assert Abs(newl) == [x] + old(Abs(l)) by {
      RevSnoc(old(Storage(l)), x);
    }
  }

  /**
   * One iteration of concatenate's loop: `group`, a group of the first
   * list, is merged into the last group of con when canAppendMoreToGroup
   * holds with the given amount, and is pushed as a group of its own,
   * sharing its array, offset and frontier, otherwise. The sharing
   * invariant always survives; with amount 1 the merge happens only at the
   * frontier, so every live group shows what it showed before and con
   * stores the group's window after its old elements.
   */
  method SpliceGroup<T>(con: List<T>, group: Group<T>, amount: int, ghost live: set<Group<T>>) returns (r: List<T>)
    requires WellFormed(con) && Sound(live) && Members(con) <= live && group in live
    modifies con.groups[|con.groups| - 1].slice.buf, con.groups[|con.groups| - 1].firstEmpty
    ensures WellFormed(r) && Sound(live + Members(r)) && Len(r) == Len(con) + group.slice.len
    ensures |r.groups| >= |con.groups| && r.groups[..|con.groups| - 1] == con.groups[..|con.groups| - 1]
    ensures old(CanAppendMoreToGroup(con, amount, |con.groups| - 1)) ==>
      var g, m := con.groups[|con.groups| - 1], r.groups[|con.groups| - 1];
      && |r.groups| == |con.groups| && m.slice.len == g.slice.len + group.slice.len
      && m.offset == g.offset && m.firstEmpty == g.firstEmpty
      && g.firstEmpty.n == old(g.firstEmpty.n) + group.slice.len
      && (m.slice.buf == g.slice.buf || fresh(m.slice.buf))
      && old(InBounds(g.slice)) && old(InBounds(group.slice))
      && (g.slice.start + g.slice.len + group.slice.len <= g.slice.buf.cap ==>
            m.slice.buf == g.slice.buf &&
            g.slice.buf.data == Overwrite(old(g.slice.buf.data), g.slice.start + g.slice.len, old(View(group.slice))))
    ensures !old(CanAppendMoreToGroup(con, amount, |con.groups| - 1)) ==>
      r == PushGroup(con, group) &&
      unchanged(con.groups[|con.groups| - 1].slice.buf, con.groups[|con.groups| - 1].firstEmpty)
    ensures amount == 1 ==>
      && (forall h :: h in live ==> View(h.slice) == old(View(h.slice)))
      && old(Readable(con)) && old(InBounds(group.slice)) && Readable(r)
      && Storage(r) == old(Storage(con)) + old(View(group.slice))
    ensures var g, m := con.groups[|con.groups| - 1], r.groups[|r.groups| - 1];
      m == group || (m.firstEmpty == g.firstEmpty && (m.slice.buf == g.slice.buf || fresh(m.slice.buf)))
    ensures Tidy(con) && con.groups[|con.groups| - 1].slice.len > 0 && group.slice.len > 0 ==>
      Tidy(r) && r.groups[|r.groups| - 1].slice.len > 0
  {
    var lastGroup := |con.groups| - 1;
    assert Fits(group);
    if CanAppendMoreToGroup(con, amount, lastGroup) {
      r := GrowLastGroup(con, View(group.slice), live);
    } else {
      r := PushGroup(con, group);
      assert live + {group} == live;
      PushGroupSound(con, group, live);
      assert r.groups[lastGroup] == r.groups[..|con.groups|][lastGroup];
    }
    if Tidy(con) && con.groups[lastGroup].slice.len > 0 && group.slice.len > 0 {
      TidyAfterCons(con, r);
    }
  }

  /**
   * The guard's amount in concatenate's loop: two lists share an array of
   * capacity 8 holding six elements, one showing slots 0 to 4 and the
   * other slots 0 to 5, so the frontier is 6. Splicing a two-element group
   * onto the shorter one with the group's length as the amount, as the
   * loop does, passes the guard and writes the group into slots 5 and 6,
   * so the longer list's slot 5 changes. With amount 1 the guard refuses.
   */
  method SpliceOverwriteWitness() returns (before: seq<int>, after: seq<int>, guardAtOne: bool)
    ensures before == [0, 1, 2, 3, 4, 5] && after == [0, 1, 2, 3, 4, 7] && !guardAtOne
  {
    var shared := new Buffer([0, 1, 2, 3, 4, 5], 8);
    var frontier := new Counter(6);
    var short := Group(Slice(shared, 0, 5), 0, frontier);
    var long := Group(Slice(shared, 0, 6), 0, frontier);
    var own := new Buffer([7, 8], 2);
    var ownFrontier := new Counter(2);
    var group := Group(Slice(own, 0, 2), 0, ownFrontier);
    var con := List([short], [0]);
    ghost var live := {short, long, group};
    assert Members(con) == {short};
    assert Sound(live) by {
      assert Fits(short) && Fits(long) && Fits(group);
    }
    before := View(long.slice);
    guardAtOne := CanAppendMoreToGroup(con, 1, 0);
    var r := SpliceGroup(con, group, group.slice.len, live);
    assert shared.data == [0, 1, 2, 3, 4, 7, 8];
    after := View(long.slice);
  }

  /** A non-empty tidy list has no empty group. */
  lemma TidyNonEmpty<T>(l: List<T>)
    requires WellFormed(l) && Tidy(l) && Len(l) >= 1
    ensures forall g :: g in l.groups ==> g.slice.len > 0
  {
  }

  /**
   * The state of concatenate's loop after k groups of l1: con is well
   * formed, keeps the sharing invariant and counts l2's elements plus
   * those of the first k groups of l1; in the corrected version it stores
   * l2's elements (s2) followed by the first k windows of l1 (v1); a loop
   * over non-empty groups starting from a tidy l2 keeps con tidy.
   */
  ghost predicate Spliced<T>(l1: List<T>, l2: List<T>, k: int, con: List<T>, live: set<Group<T>>,
                             asWritten: bool, tidy: bool, s2: seq<T>, v1: seq<seq<T>>)
    reads Objects(live + Members(con))
  {
    && WellFormed(l1) && WellFormed(l2) && Members(l1) <= live && 0 <= k <= |l1.groups| == |v1|
    && WellFormed(con) && Sound(live + Members(con))
    && Len(con) == Len(l2) + (if k < |l1.groups| then l1.accumulatedLen[k] else Len(l1))
    && (tidy ==> (forall g :: g in l1.groups ==> g.slice.len > 0) &&
                 Tidy(con) && con.groups[|con.groups| - 1].slice.len > 0)
    && (!asWritten ==> (SoundReadable(con, live + Members(con)); Storage(con) == s2 + Concat(v1[..k])))
  }

  /**
   * One iteration of concatenate's loop, stated on the loop's state: the
   * k-th group of l1 is spliced onto con with the guard's amount at the
   * group's length (as written) or at 1 (corrected).
   */
  method SpliceStep<T>(l1: List<T>, l2: List<T>, k: nat, con: List<T>, asWritten: bool, ghost live: set<Group<T>>,
                       ghost tidy: bool, ghost s2: seq<T>, ghost v1: seq<seq<T>>) returns (r: List<T>)
    requires Spliced(l1, l2, k, con, live, asWritten, tidy, s2, v1) && k < |l1.groups|
    requires InBounds(l1.groups[k].slice) && (!asWritten ==> View(l1.groups[k].slice) == v1[k])
    modifies con.groups[|con.groups| - 1].slice.buf, con.groups[|con.groups| - 1].firstEmpty
    ensures Spliced(l1, l2, k + 1, r, live, asWritten, tidy, s2, v1)
    ensures !asWritten ==> forall h :: h in live ==> View(h.slice) == old(View(h.slice))
    ensures var g, m := con.groups[|con.groups| - 1], r.groups[|r.groups| - 1];
      m == l1.groups[k] || (m.firstEmpty == g.firstEmpty && (m.slice.buf == g.slice.buf || fresh(m.slice.buf)))
  {
    var group := l1.groups[k];
    assert group in Members(l1);
    SoundReadable(con, live + Members(con));
    ghost var sb := Storage(con);
    assert !asWritten ==> sb == s2 + Concat(v1[..k]);
    var amount := if asWritten then group.slice.len else 1;
    r := SpliceGroup(con, group, amount, live + Members(con));
    assert Spliced(l1, l2, k + 1, r, live, asWritten, tidy, s2, v1) by {
      assert Sound(live + Members(r)) by {
        SoundSubset(live + Members(con) + Members(r), live + Members(r));
      }
      SoundReadable(r, live + Members(r));
      if !asWritten {
        assert Storage(r) == sb + v1[k];
        ConcatTakeAfter(s2, v1, k);
      }
      if tidy {
        assert group.slice.len > 0;
      }
    }
  }

  /**
   * The loop of concatenate: the groups of l1, oldest first, spliced onto
   * a copy of the header of l2. The guard's amount is the group's length
   * as the Go source writes it, and 1 in the corrected version. Either way
   * the sharing invariant holds, the length is the sum of the lengths and
   * tidiness is kept; in the corrected version every live list reads as
   * before and the result stores l2's elements, then l1's.
   */
  method SpliceGroups<T>(l1: List<T>, l2: List<T>, asWritten: bool, ghost live: set<Group<T>>, ghost tidy: bool)
    returns (con: List<T>)
    requires WellFormed(l1) && WellFormed(l2) && Sound(live) && Members(l1) <= live && Members(l2) <= live
    requires tidy ==> (forall g :: g in l1.groups ==> g.slice.len > 0) &&
                      Tidy(l2) && l2.groups[|l2.groups| - 1].slice.len > 0
    modifies Objects(live)
    ensures WellFormed(con) && Sound(live + Members(con)) && Len(con) == Len(l1) + Len(l2)
    ensures !asWritten ==>
      && (forall h :: h in live ==> View(h.slice) == old(View(h.slice)))
      && old(Readable(l1)) && old(Readable(l2)) && Readable(con)
      && Storage(con) == old(Storage(l2)) + old(Storage(l1))
    ensures tidy ==> Tidy(con)
  {
    SoundReadable(l1, live);
    SoundReadable(l2, live);
    ghost var v1 := Views(l1);
    ghost var s2 := Storage(l2);
    con := NewFromList(l2);
    SplicedStart(l1, l2, con, live, asWritten, tidy, v1);
    var k := 0;
    while k < |l1.groups|
      invariant 0 <= k <= |l1.groups| == |v1|
      invariant Spliced(l1, l2, k, con, live, asWritten, tidy, s2, v1)
      invariant !asWritten ==> forall h :: h in live ==> View(h.slice) == old(View(h.slice))
      invariant var g := con.groups[|con.groups| - 1];
        g.firstEmpty in Objects(live) && (g.slice.buf in Objects(live) || fresh(g.slice.buf))
    {
      assert l1.groups[k] in Members(l1);
      assert l1.groups[k].slice.buf in Objects(live) && l1.groups[k].firstEmpty in Objects(live);
      con := SpliceStep(l1, l2, k, con, asWritten, live, tidy, s2, v1);
      k := k + 1;
    }
    SplicedAll(l1, l2, con, live, asWritten, tidy, s2, v1);
  }

  /** The loop's state before the first iteration: con is a copy of l2's header. */
  lemma SplicedStart<T>(l1: List<T>, l2: List<T>, con: List<T>, live: set<Group<T>>,
                        asWritten: bool, tidy: bool, v1: seq<seq<T>>)
    requires WellFormed(l1) && WellFormed(l2) && Sound(live) && Members(l1) <= live && Members(l2) <= live
    requires Readable(l1) && v1 == Views(l1) && con == l2
    requires tidy ==> (forall g :: g in l1.groups ==> g.slice.len > 0) &&
                      Tidy(l2) && l2.groups[|l2.groups| - 1].slice.len > 0
    ensures Readable(l2) && Spliced(l1, l2, 0, con, live, asWritten, tidy, Storage(l2), v1)
    ensures con.groups[|con.groups| - 1].firstEmpty in Objects(live)
    ensures con.groups[|con.groups| - 1].slice.buf in Objects(live)
  {
    SoundReadable(l2, live);
    assert Members(con) <= live && live + Members(con) == live;
    assert con.groups[|con.groups| - 1] in Members(l2);
    assert v1[..0] == [];
  }

  /** The loop's state once every group of l1 is spliced. */
  lemma SplicedAll<T>(l1: List<T>, l2: List<T>, con: List<T>, live: set<Group<T>>,
                      asWritten: bool, tidy: bool, s2: seq<T>, v1: seq<seq<T>>)
    requires WellFormed(l1) && Spliced(l1, l2, |l1.groups|, con, live, asWritten, tidy, s2, v1)
    ensures WellFormed(con) && Sound(live + Members(con)) && Len(con) == Len(l1) + Len(l2)
    ensures !asWritten ==> Readable(con) && Storage(con) == s2 + Concat(v1)
    ensures tidy ==> Tidy(con)
  {
    assert v1[..|l1.groups|] == v1;
    SoundReadable(con, live + Members(con));
  }

  /**
   * concatenate, corrected: l1 followed by l2. An empty operand gives a
   * copy of the other header; otherwise the groups of l1 are spliced onto
   * a copy of l2 with the guard at amount 1. Every live list reads as
   * before, and tidy operands give a tidy result.
   */
  method ConcatenatePair<T>(l1: List<T>, l2: List<T>, ghost live: set<Group<T>>) returns (con: List<T>)
    requires WellFormed(l1) && WellFormed(l2) && Sound(live) && Members(l1) <= live && Members(l2) <= live
    modifies Objects(live)
    ensures WellFormed(con) && Sound(live + Members(con))
    ensures forall h :: h in live ==> View(h.slice) == old(View(h.slice))
    ensures old(Readable(l1)) && old(Readable(l2)) && Readable(con)
    ensures Abs(con) == old(Abs(l1)) + old(Abs(l2))
    ensures Tidy(l1) && Tidy(l2) ==> Tidy(con)
  {
    SoundReadable(l1, live);
    SoundReadable(l2, live);
    LenIsLength(l1);
    LenIsLength(l2);
    if Empty(l1) {
      con := NewFromList(l2);
      assert Members(con) <= live && Abs(l1) == [];
    } else if Empty(l2) {
      con := NewFromList(l1);
      assert Members(con) <= live && Abs(l2) == [];
    } else {
      con := SpliceNonEmpty(l1, l2, live);
    }
  }

  /** The loop branch of concatenate, corrected, for two non-empty lists. */
  method SpliceNonEmpty<T>(l1: List<T>, l2: List<T>, ghost live: set<Group<T>>) returns (con: List<T>)
    requires WellFormed(l1) && WellFormed(l2) && Sound(live) && Members(l1) <= live && Members(l2) <= live
    requires !Empty(l1) && !Empty(l2)
    modifies Objects(live)
    ensures WellFormed(con) && Sound(live + Members(con))
    ensures forall h :: h in live ==> View(h.slice) == old(View(h.slice))
    ensures old(Readable(l1)) && old(Readable(l2)) && Readable(con)
    ensures Abs(con) == old(Abs(l1)) + old(Abs(l2))
    ensures Tidy(l1) && Tidy(l2) ==> Tidy(con)
  {
    SoundReadable(l1, live);
    SoundReadable(l2, live);
    ghost var tidy := Tidy(l1) && Tidy(l2);
    if tidy {
      TidyNonEmpty(l1);
      TidyNonEmpty(l2);
    }
    con := SpliceGroups(l1, l2, false, live, tidy);
    RevAppend(old(Storage(l2)), old(Storage(l1)));
  }

  /**
   * concatenate as the Go source writes it: the loop passes the group's
   * length as the guard's amount. The sharing invariant and the length
   * hold, but a merge may write over slots another list shows.
   */
  method ConcatenatePairAsWritten<T>(l1: List<T>, l2: List<T>, ghost live: set<Group<T>>) returns (con: List<T>)
    requires WellFormed(l1) && WellFormed(l2) && Sound(live) && Members(l1) <= live && Members(l2) <= live
    modifies Objects(live)
    ensures WellFormed(con) && Sound(live + Members(con)) && Len(con) == Len(l1) + Len(l2)
    ensures Empty(l1) || Empty(l2) ==> forall h :: h in live ==> View(h.slice) == old(View(h.slice))
  {
    assert Len(l1) >= 0 && Len(l2) >= 0 by {
      SoundReadable(l1, live);
      SoundReadable(l2, live);
      LenIsLength(l1);
      LenIsLength(l2);
    }
    if Empty(l1) {
      con := NewFromList(l2);
      assert Members(con) <= live;
    } else if Empty(l2) {
      con := NewFromList(l1);
      assert Members(con) <= live;
    } else {
      con := SpliceGroups(l1, l2, true, live, false);
    }
  }

  /**
   * Concatenate(lists...) on the lists' contents: the Go loop starts from
   * the last list and puts each earlier list in front of the running
   * result with concatenate, so the result reads the lists in argument
   * order. Go panics on an empty argument list.
   */
  method ConcatenateContents<T>(contents: seq<seq<T>>) returns (con: seq<T>)
    requires |contents| >= 1
    ensures con == Concat(contents)
  {
    var i := |contents| - 1;
    con := contents[i];
    assert Concat(contents[i..]) == con by {
      assert contents[i..] == [con];
      assert Concat([con]) == Concat([]) + con;
    }
    while i > 0
      invariant 0 <= i < |contents|
      invariant con == Concat(contents[i..])
    {
      i := i - 1;
      assert contents[i..] == [contents[i]] + contents[i + 1..];
      ConcatCons(contents[i], contents[i + 1..]);
      con := contents[i] + con;
    }
  }

  /** An empty operand of Concatenate passes the others through unchanged. */
  lemma {:induction false} ConcatenateEmptyOperand<T>(contents: seq<seq<T>>, i: nat)
    requires i < |contents| && contents[i] == []
    ensures Concat(contents[..i] + contents[i + 1..]) == Concat(contents)
    decreases |contents|
  {
    var n := |contents| - 1;
    if i == n {
      assert contents[..i] + contents[i + 1..] == contents[..n];
    } else {
      var init := contents[..n];
      assert init[..i] + init[i + 1..] + [contents[n]] == contents[..i] + contents[i + 1..];
      ConcatenateEmptyOperand(init, i);
      ConcatAppend(init[..i] + init[i + 1..], contents[n]);
    }
  }
}
