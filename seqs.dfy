/** Order-preserving filtering of a sequence, and what it means. */
module Seqs {

  /** `[x for x in xs if p(x)]` */
  function Filter<T>(p: T -> bool, xs: seq<T>): (r: seq<T>)
    ensures |r| <= |xs|
    ensures forall y :: y in r ==> y in xs && p(y)
  {
    if xs == [] then []
    else (if p(xs[0]) then [xs[0]] else []) + Filter(p, xs[1..])
  }

  /**
   * `r` consists of the elements of `xs` at the strictly increasing positions
   * `idx`, and those positions are exactly the ones where `p` holds.
   */
  ghost predicate Selects<T>(p: T -> bool, xs: seq<T>, r: seq<T>, idx: seq<nat>) {
    && |idx| == |r|
    && (forall k :: 0 <= k < |idx| ==> idx[k] < |xs| && r[k] == xs[idx[k]])
    && (forall k, l :: 0 <= k < l < |idx| ==> idx[k] < idx[l])
    && (forall i :: 0 <= i < |xs| ==> (p(xs[i]) <==> i in idx))
  }

  /** `i` is the position of the first element of `xs` that satisfies `p`. */
  ghost predicate IsFirst<T>(p: T -> bool, xs: seq<T>, i: int) {
    && 0 <= i < |xs|
    && p(xs[i])
    && (forall j :: 0 <= j < i ==> !p(xs[j]))
  }

  /** The positions shifted by one, as seen from the longer sequence `[x] + xs`. */
  function Shift(idx: seq<nat>): (r: seq<nat>)
    ensures |r| == |idx|
    ensures forall k :: 0 <= k < |idx| ==> r[k] == idx[k] + 1
  {
    seq(|idx|, k requires 0 <= k < |idx| => idx[k] + 1)
  }

  /** Filter keeps exactly the elements satisfying `p`, in their original order. */
  lemma {:induction false} FilterSelects<T>(p: T -> bool, xs: seq<T>)
    ensures exists idx :: Selects(p, xs, Filter(p, xs), idx)
  {
    if xs == [] {
      assert Filter(p, xs) == [];
      assert Selects(p, xs, [], []);
    } else {
      var tail := xs[1..];
      FilterSelects(p, tail);
      var idx' :| Selects(p, tail, Filter(p, tail), idx');
      SelectsCons(p, xs, tail, Filter(p, xs), Filter(p, tail), idx');
    }
  }

  /** A position is in the shifted positions exactly when its predecessor was in the original ones. */
  lemma ShiftMember(idx: seq<nat>, i: nat)
    ensures i + 1 in Shift(idx) <==> i in idx
    ensures 0 !in Shift(idx)
  {
    var s := Shift(idx);
    if i in idx {
      var k :| 0 <= k < |idx| && idx[k] == i;
      assert s[k] == i + 1;
    }
    if i + 1 in s {
      var k :| 0 <= k < |s| && s[k] == i + 1;
      assert idx[k] == i;
    }
  }

  /** Extends a selection of `xs` by one element `ys[0]` in front. */
  lemma SelectsCons<T>(p: T -> bool, ys: seq<T>, xs: seq<T>, r': seq<T>, r: seq<T>, idx': seq<nat>)
    requires Selects(p, xs, r, idx')
    requires |ys| > 0 && ys[1..] == xs
    requires r' == (if p(ys[0]) then [ys[0]] else []) + r
    ensures exists idx :: Selects(p, ys, r', idx)
  {
    var shifted := Shift(idx');
    forall i | 0 < i < |ys|
      ensures p(ys[i]) <==> i in shifted
    {
      ShiftMember(idx', i - 1);
      assert ys[i] == xs[i - 1];
    }
    ShiftMember(idx', 0);
    forall k | 0 <= k < |shifted|
      ensures shifted[k] < |ys| && r[k] == ys[shifted[k]]
    {
      assert ys[shifted[k]] == xs[idx'[k]];
    }
    if p(ys[0]) {
      SelectsTake(p, ys, r', r, shifted);
    } else {
      assert Selects(p, ys, r', shifted);
    }
  }

  /** The selection of `ys[1..]` at the shifted positions `tail`, with `ys[0]` taken in front. */
  lemma SelectsTake<T>(p: T -> bool, ys: seq<T>, r': seq<T>, r: seq<T>, tail: seq<nat>)
    requires |ys| > 0 && p(ys[0]) && r' == [ys[0]] + r
    requires |tail| == |r|
    requires forall k :: 0 <= k < |tail| ==> tail[k] < |ys| && r[k] == ys[tail[k]]
    requires forall k, l :: 0 <= k < l < |tail| ==> tail[k] < tail[l]
    requires 0 !in tail
    requires forall i :: 0 < i < |ys| ==> (p(ys[i]) <==> i in tail)
    ensures Selects(p, ys, r', [0] + tail)
  {
    var idx := [0] + tail;
    forall k | 0 < k < |idx|
      ensures idx[k] == tail[k - 1] && r'[k] == r[k - 1]
    {
    }
    forall k | 0 <= k < |tail|
      ensures tail[k] > 0
    {
      assert tail[k] in tail;
    }
    forall i | 0 < i < |ys|
      ensures i in idx <==> i in tail
    {
    }
  }

  /** Filter is empty exactly when nothing passes, and otherwise starts with the first element that does. */
  lemma {:induction false} FilterHead<T>(p: T -> bool, xs: seq<T>)
    ensures Filter(p, xs) == [] <==> forall i :: 0 <= i < |xs| ==> !p(xs[i])
    ensures forall i :: IsFirst(p, xs, i) ==> Filter(p, xs) != [] && Filter(p, xs)[0] == xs[i]
  {
    if xs != [] {
      FilterHead(p, xs[1..]);
      if !p(xs[0]) {
        forall i | 0 <= i < |xs[1..]| && !p(xs[1..][i])
          ensures !p(xs[i + 1])
        {
        }
        forall i | IsFirst(p, xs, i)
          ensures IsFirst(p, xs[1..], i - 1)
        {
        }
      }
    }
  }

  /** Filtering by `p` and then by `q` is filtering once by a condition `pq` meaning both. */
  lemma {:induction false} FilterFilter<T>(p: T -> bool, q: T -> bool, pq: T -> bool, xs: seq<T>)
    requires forall x :: pq(x) == (p(x) && q(x))
    ensures Filter(q, Filter(p, xs)) == Filter(pq, xs)
  {
    if xs != [] {
      FilterFilter(p, q, pq, xs[1..]);
      var head := if p(xs[0]) then [xs[0]] else [];
      assert Filter(p, xs) == head + Filter(p, xs[1..]);
      FilterAppend(q, head, Filter(p, xs[1..]));
    }
  }

  /** Filter distributes over concatenation. */
  lemma {:induction false} FilterAppend<T>(p: T -> bool, xs: seq<T>, ys: seq<T>)
    ensures Filter(p, xs + ys) == Filter(p, xs) + Filter(p, ys)
  {
    if xs != [] {
      assert (xs + ys)[1..] == xs[1..] + ys;
      FilterAppend(p, xs[1..], ys);
    } else {
      assert xs + ys == ys;
    }
  }
}
