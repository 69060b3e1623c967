/** Order-preserving selection and mapping over sequences: the row masks
    (`df.loc[mask]`, `df[mask]`) and the column-wise casts of the validator. */
module Seqs {

  /** The elements of `s` that satisfy `p`, in their original order. */
  function Filter<T>(s: seq<T>, p: T -> bool): (r: seq<T>)
    ensures |r| <= |s|
    ensures forall x :: x in r ==> x in s && p(x)
    ensures forall i :: 0 <= i < |s| && p(s[i]) ==> s[i] in r
    decreases |s|
  {
    if s == [] then []
    else Filter(s[..|s| - 1], p) + (if p(s[|s| - 1]) then [s[|s| - 1]] else [])
  }

  /** The positions of `s` whose element satisfies `p`, in increasing order:
      an independent description of what `Filter` keeps. */
  function KeptIndices<T>(s: seq<T>, p: T -> bool): (idx: seq<nat>)
    ensures forall k :: 0 <= k < |idx| ==> idx[k] < |s| && p(s[idx[k]])
    ensures forall k, l :: 0 <= k < l < |idx| ==> idx[k] < idx[l]
    ensures forall i :: 0 <= i < |s| && p(s[i]) ==> i in idx
    decreases |s|
  {
    if s == [] then []
    else
      var init := KeptIndices(s[..|s| - 1], p);
      assert forall k :: 0 <= k < |init| ==> s[init[k]] == s[..|s| - 1][init[k]];
      if p(s[|s| - 1]) then init + [|s| - 1] else init
  }

  /** `f` applied to every element of `s`. */
  function MapSeq<T, U>(f: T -> U, s: seq<T>): (r: seq<U>)
    ensures |r| == |s|
    ensures forall i :: 0 <= i < |s| ==> r[i] == f(s[i])
    decreases |s|
  {
    if s == [] then [] else MapSeq(f, s[..|s| - 1]) + [f(s[|s| - 1])]
  }

  /** Filtering keeps exactly the elements at `KeptIndices`, unaltered and in
      their original order. */
  lemma {:induction false} FilterAtKeptIndices<T>(s: seq<T>, p: T -> bool)
    ensures |Filter(s, p)| == |KeptIndices(s, p)|
    ensures forall k :: 0 <= k < |Filter(s, p)| ==> Filter(s, p)[k] == s[KeptIndices(s, p)[k]]
    decreases |s|
  {
    if s != [] {
      var init, last := s[..|s| - 1], s[|s| - 1];
      FilterAtKeptIndices(init, p);
      var f, ks := Filter(init, p), KeptIndices(init, p);
      var tail := if p(last) then [last] else [];
      var ktail := if p(last) then [|s| - 1] else [];
      assert Filter(s, p) == f + tail;
      assert KeptIndices(s, p) == ks + ktail;
      forall k | 0 <= k < |f + tail| ensures (f + tail)[k] == s[(ks + ktail)[k]] {
        if k < |f| {
          assert (f + tail)[k] == f[k] == init[ks[k]];
          assert (ks + ktail)[k] == ks[k];
        }
      }
    }
  }

  /** Nothing is dropped exactly when every element satisfies `p`. */
  lemma FilterDropsNone<T>(s: seq<T>, p: T -> bool)
    ensures |Filter(s, p)| == |s| <==> forall i :: 0 <= i < |s| ==> p(s[i])
  {
    var notP := x => !p(x);
    FilterPartition(s, p, notP);
    if exists i :: 0 <= i < |s| && !p(s[i]) {
      var i :| 0 <= i < |s| && !p(s[i]);
      assert s[i] in Filter(s, notP);
    }
  }

  /** Every element is kept by `p` or by its negation, never by both: the
      number dropped is the number of elements that fail `p`. */
  lemma {:induction false} FilterPartition<T>(s: seq<T>, p: T -> bool, notP: T -> bool)
    requires forall x :: notP(x) == !p(x)
    ensures |s| - |Filter(s, p)| == |Filter(s, notP)|
    decreases |s|
  {
    if s != [] {
      FilterPartition(s[..|s| - 1], p, notP);
    }
  }

  /** Two filters in a row are one filter by the conjunction. */
  lemma {:induction false} FilterFilter<T>(s: seq<T>, p: T -> bool, q: T -> bool, both: T -> bool)
    requires forall x :: both(x) == (p(x) && q(x))
    ensures Filter(Filter(s, p), q) == Filter(s, both)
    decreases |s|
  {
    if s != [] {
      var init := s[..|s| - 1];
      var last := s[|s| - 1];
      FilterFilter(init, p, q, both);
      FilterAppend(Filter(init, p), if p(last) then [last] else [], q);
    }
  }

  /** Filtering distributes over concatenation. */
  lemma {:induction false} FilterAppend<T>(a: seq<T>, b: seq<T>, p: T -> bool)
    ensures Filter(a + b, p) == Filter(a, p) + Filter(b, p)
    decreases |b|
  {
    if b == [] {
      assert a + b == a;
    } else {
      var b' := b[..|b| - 1];
      assert (a + b)[..|a + b| - 1] == a + b';
      FilterAppend(a, b', p);
    }
  }

  /** Filtering after mapping is mapping after filtering by the composed test. */
  lemma {:induction false} FilterMapSeq<T, U>(f: T -> U, s: seq<T>, q: U -> bool, qf: T -> bool)
    requires forall x :: qf(x) == q(f(x))
    ensures Filter(MapSeq(f, s), q) == MapSeq(f, Filter(s, qf))
    decreases |s|
  {
    if s != [] {
      var init := s[..|s| - 1];
      FilterMapSeq(f, init, q, qf);
      assert MapSeq(f, s)[..|s| - 1] == MapSeq(f, init);
      MapSeqAppend(f, Filter(init, qf), if qf(s[|s| - 1]) then [s[|s| - 1]] else []);
    }
  }

  /** Mapping distributes over concatenation. */
  lemma MapSeqAppend<T, U>(f: T -> U, a: seq<T>, b: seq<T>)
    ensures MapSeq(f, a + b) == MapSeq(f, a) + MapSeq(f, b)
  {
    assert |MapSeq(f, a + b)| == |MapSeq(f, a) + MapSeq(f, b)|;
    forall i | 0 <= i < |a + b| ensures MapSeq(f, a + b)[i] == (MapSeq(f, a) + MapSeq(f, b))[i] {
      if i >= |a| { assert (a + b)[i] == b[i - |a|]; }
    }
  }
}
