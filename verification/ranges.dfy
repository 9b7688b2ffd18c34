/** Python's `range` with a positive step, and the nested comprehension over two ranges. */
module Ranges {

  /**
   * `list(range(start, stop, step))` for `step > 0`: the terms
   * `start, start + step, ...` that lie below `stop`, and no more.
   */
  function Range(start: int, stop: int, step: int): (r: seq<int>)
    requires step > 0
    ensures forall i :: 0 <= i < |r| ==> r[i] == start + step * i && r[i] < stop
    ensures start + step * |r| >= stop
    decreases stop - start
  {
    if start >= stop then
      []
    else
      var rest := Range(start + step, stop, step);
      var r := [start] + rest;
      assert start + step * |r| == start + step + step * |rest|;
      assert forall i :: 1 <= i < |r| ==> r[i] == rest[i - 1];
      assert forall i :: 1 <= i < |r| ==> start + step * i == start + step + step * (i - 1);
      r
  }

  /** The `i`-th term, where one exists, is `start + step * i` and lies below `stop`. */
  lemma RangeTerm(start: int, stop: int, step: int, i: int)
    requires step > 0
    ensures 0 <= i < |Range(start, stop, step)| ==> Range(start, stop, step)[i] == start + step * i < stop
  {
  }

  /** Where block `a` starts when blocks hold `width` entries each. */
  function BlockStart(a: nat, width: nat): nat {
    if a == 0 then 0 else BlockStart(a - 1, width) + width
  }

  lemma {:induction false} BlockStartIsProduct(a: nat, width: nat)
    ensures BlockStart(a, width) == a * width
  {
    if a > 0 {
      BlockStartIsProduct(a - 1, width);
    }
  }

  /** Every pair `(a, b)` of indices lands at position `BlockStart(a, |ys|) + b` of the product. */
  ghost predicate IsProduct(xs: seq<int>, ys: seq<int>, r: seq<(int, int)>) {
    && |r| == BlockStart(|xs|, |ys|)
    && forall a, b :: 0 <= a < |xs| && 0 <= b < |ys| ==> ProductEntry(xs, ys, r, a, b)
  }

  /** Pair `(xs[a], ys[b])` sits at position `BlockStart(a, |ys|) + b`. */
  ghost predicate ProductEntry(xs: seq<int>, ys: seq<int>, r: seq<(int, int)>, a: int, b: int)
    requires 0 <= a < |xs| && 0 <= b < |ys|
  {
    BlockStart(a, |ys|) + b < |r| && r[BlockStart(a, |ys|) + b] == (xs[a], ys[b])
  }

  /** `[(x, y) for x in xs for y in ys]`: the outer loop over `xs` varies slowest. */
  function Cross(xs: seq<int>, ys: seq<int>): (r: seq<(int, int)>)
    ensures IsProduct(xs, ys, r)
  {
    if xs == [] then
      []
    else
      var row := seq(|ys|, j requires 0 <= j < |ys| => (xs[0], ys[j]));
      var rest := Cross(xs[1..], ys);
      CrossStep(xs, ys, row, rest);
      row + rest
  }

  lemma CrossStep(xs: seq<int>, ys: seq<int>, row: seq<(int, int)>, rest: seq<(int, int)>)
    requires |xs| > 0
    requires row == seq(|ys|, j requires 0 <= j < |ys| => (xs[0], ys[j]))
    requires IsProduct(xs[1..], ys, rest)
    ensures IsProduct(xs, ys, row + rest)
  {
    var r := row + rest;
    assert |r| == BlockStart(|xs|, |ys|);
    forall a, b | 0 <= a < |xs| && 0 <= b < |ys|
      ensures ProductEntry(xs, ys, r, a, b)
    {
      CrossEntry(xs, ys, row, rest, a, b);
    }
  }

  /** Entry `(a, b)` lies in the first row when `a == 0` and in the product of `xs[1..]` otherwise. */
  lemma CrossEntry(xs: seq<int>, ys: seq<int>, row: seq<(int, int)>, rest: seq<(int, int)>, a: nat, b: nat)
    requires |xs| > 0
    requires row == seq(|ys|, j requires 0 <= j < |ys| => (xs[0], ys[j]))
    requires IsProduct(xs[1..], ys, rest)
    requires a < |xs| && b < |ys|
    ensures ProductEntry(xs, ys, row + rest, a, b)
  {
    if a == 0 {
      assert (row + rest)[b] == row[b];
    } else {
      assert ProductEntry(xs[1..], ys, rest, a - 1, b);
      assert xs[1..][a - 1] == xs[a];
      assert BlockStart(a, |ys|) == BlockStart(a - 1, |ys|) + |ys|;
    }
  }
}
