/**
 * The shared mutable state behind both list representations: Go backing
 * arrays, the shared `*int` frontier counters, slice headers over the
 * arrays, and Go's `append`.
 */
module Buffers {

  /**
   * A Go backing array. `data` holds the slots written so far (a prefix of
   * the array); `cap` is the array's length, fixed at allocation.
   */
  class Buffer<T> {
    var data: seq<T>
    const cap: nat

    constructor (data: seq<T>, cap: nat)
      requires |data| <= cap
      ensures this.data == data && this.cap == cap
    {
      this.data := data;
      this.cap := cap;
    }

    /**
     * Copies xs into the slots starting at p, overwriting what is there and
     * extending the written prefix where xs reaches past it.
     */
    method Write(p: nat, xs: seq<T>)
      requires p <= |data| && p + |xs| <= cap
      modifies this
      ensures data == Overwrite(old(data), p, xs)
    {
      data := Overwrite(data, p, xs);
    }
  }

  /** What a backing array holds after xs is copied in at slot p. */
  function Overwrite<T>(d: seq<T>, p: nat, xs: seq<T>): (r: seq<T>)
    requires p <= |d|
    ensures |r| == if p + |xs| <= |d| then |d| else p + |xs|
    ensures r[..p] == d[..p] && r[p..p + |xs|] == xs
    ensures p + |xs| <= |d| ==> r[p + |xs|..] == d[p + |xs|..]
  {
    d[..p] + xs + (if p + |xs| < |d| then d[p + |xs|..] else [])
  }

  /** Writing just past the written prefix extends it. */
  lemma OverwriteAtEnd<T>(d: seq<T>, xs: seq<T>)
    ensures Overwrite(d, |d|, xs) == d + xs
  {
  }

  /** A shared `*int`: the frontier of a backing array. */
  class Counter {
    var n: int

    constructor (n: int)
      ensures this.n == n
    {
      this.n := n;
    }

    method Add(k: int)
      modifies this
      ensures n == old(n) + k
    {
      n := n + k;
    }

    /** `*p = k`: every holder of the pointer sees the new value. */
    method Set(k: int)
      modifies this
      ensures n == k
    {
      n := k;
    }
  }

  /** A Go slice header: a window [start, start+len) of a backing array. */
  datatype Slice<T> = Slice(buf: Buffer<T>, start: nat, len: nat)

  /** The window lies within the written part of the array. */
  ghost predicate InBounds<T>(s: Slice<T>)
    reads s.buf
  {
    s.start + s.len <= |s.buf.data| <= s.buf.cap
  }

  /** The elements a slice shows, in storage order. */
  function View<T>(s: Slice<T>): (v: seq<T>)
    reads s.buf
    requires InBounds(s)
    ensures |v| == s.len
  {
    s.buf.data[s.start..s.start + s.len]
  }

  /**
   * Go's `append(s, xs...)`: writes in place when the slice's capacity
   * (cap - start) holds the new elements, and otherwise copies the window
   * and xs into a fresh array of some capacity at least len + |xs|.
   * xs is a value: Go copies it before writing, even when it overlaps.
   */
  method Append<T>(s: Slice<T>, xs: seq<T>) returns (r: Slice<T>)
    requires InBounds(s)
    modifies s.buf
    ensures InBounds(r) && r.len == s.len + |xs|
    ensures View(r) == old(View(s)) + xs
    ensures s.start + s.len + |xs| <= s.buf.cap ==>
      r.buf == s.buf && r.start == s.start &&
      s.buf.data == Overwrite(old(s.buf.data), s.start + s.len, xs)
    ensures s.start + s.len + |xs| > s.buf.cap ==>
      fresh(r.buf) && r.start == 0 && |r.buf.data| == r.len &&
      s.buf.data == old(s.buf.data)
  {
    if s.start + s.len + |xs| <= s.buf.cap {
      ghost var before := s.buf.data;
      s.buf.Write(s.start + s.len, xs);
      r := Slice(s.buf, s.start, s.len + |xs|);
      assert s.buf.data[..s.start + s.len] == before[..s.start + s.len];
      assert View(r) == s.buf.data[s.start..s.start + s.len] + s.buf.data[s.start + s.len..s.start + s.len + |xs|];
    } else {
      var newCap: nat :| newCap >= s.len + |xs|;
      var b := new Buffer(View(s) + xs, newCap);
      r := Slice(b, 0, s.len + |xs|);
    }
  }
}
