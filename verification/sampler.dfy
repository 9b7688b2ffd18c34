/**
 * `get_numbers`: 25 values drawn without replacement from the inclusive
 * range `[low, high]` by `random.sample`.
 *
 * The generator's random choices are an explicit oracle: a sequence of
 * naturals, one per draw, each reduced modulo the size of what is left to
 * draw from (the `randbelow(n - i)` of the pool procedure). An exhausted
 * oracle reads as zero.
 */
module Sampler {
  import opened Wrappers
  import opened SeqUtil
  import opened Ranges

  /** How many numbers a sheet carries. */
  const SheetNumbers: nat := 25

  /** `random.sample` raises when asked for more values than the population holds. */
  datatype SampleError = SampleLargerThanPopulation

  type Oracle = seq<nat>

  function Head(o: Oracle): nat {
    if o == [] then 0 else o[0]
  }

  function Tail(o: Oracle): Oracle {
    if o == [] then [] else o[1..]
  }

  /** `randbelow(n)`: the oracle's next value reduced to `[0, n)`. */
  function RandBelow(o: Oracle, n: nat): (j: nat)
    requires n > 0
    ensures j < n
  {
    Head(o) % n
  }

  /** What is left of the oracle after `n` draws. */
  function Drop(o: Oracle, n: nat): Oracle {
    if n <= |o| then o[n..] else []
  }

  /** `[i for i in range(low, high + 1)]`: each integer of `[low, high]` once. */
  function Population(low: int, high: int): (r: seq<int>)
    ensures |r| == if low <= high then high - low + 1 else 0
    ensures Distinct(r)
    ensures forall x :: x in r <==> low <= x <= high
  {
    var r := Range(low, high + 1, 1);
    RangeCoversInterval(low, high, r);
    r
  }

  lemma RangeCoversInterval(low: int, high: int, r: seq<int>)
    requires r == Range(low, high + 1, 1)
    ensures |r| == if low <= high then high - low + 1 else 0
    ensures forall x :: low <= x <= high ==> x in r
  {
    if |r| > 0 {
      assert r[|r| - 1] <= high;
    }
    forall x | low <= x <= high
      ensures x in r
    {
      assert r[x - low] == x;
    }
  }

  /**
   * The pool after drawing `pool[j]`: the last element moves into slot `j`
   * and the pool shrinks by one.
   */
  function Remove(pool: seq<int>, j: nat): (r: seq<int>)
    requires j < |pool| && Distinct(pool)
    ensures |r| == |pool| - 1
    ensures Distinct(r)
    ensures forall x :: x in r <==> x in pool && x != pool[j]
  {
    var last := |pool| - 1;
    var r := if j == last then pool[..last] else pool[..last][j := pool[last]];
    RemoveKeepsOthers(pool, j, r);
    r
  }

  lemma RemoveKeepsOthers(pool: seq<int>, j: nat, r: seq<int>)
    requires j < |pool| && Distinct(pool)
    requires r == if j == |pool| - 1 then pool[..|pool| - 1] else pool[..|pool| - 1][j := pool[|pool| - 1]]
    ensures Distinct(r)
    ensures forall x :: x in r <==> x in pool && x != pool[j]
  {
    var last := |pool| - 1;
    assert forall i :: 0 <= i < |r| ==> r[i] == pool[if i == j then last else i];
    forall x | x in pool && x != pool[j]
      ensures x in r
    {
      var i :| 0 <= i < |pool| && pool[i] == x;
      if i == last {
        assert r[j] == x;
      } else {
        assert r[i] == x;
      }
    }
  }

  /** `k` draws from `pool`, each taking the element at the oracle's index and removing it. */
  function Draw(pool: seq<int>, oracle: Oracle, k: nat): (r: seq<int>)
    requires k <= |pool| && Distinct(pool)
    ensures |r| == k
    ensures Distinct(r)
    ensures forall x :: x in r ==> x in pool
    decreases k
  {
    if k == 0 then
      []
    else
      var j := RandBelow(oracle, |pool|);
      var rest := Draw(Remove(pool, j), Tail(oracle), k - 1);
      DistinctCons(pool[j], rest);
      [pool[j]] + rest
  }

  /** `random.sample(range(low, high + 1), 25)`. */
  function Sample(low: int, high: int, oracle: Oracle): (r: Result<seq<int>, SampleError>)
    ensures r.Failure? <==> high - low + 1 < SheetNumbers
    ensures r.Success? ==> |r.value| == SheetNumbers && Distinct(r.value)
    ensures r.Success? ==> forall x :: x in r.value ==> low <= x <= high
  {
    var population := Population(low, high);
    if |population| < SheetNumbers then
      Failure(SampleLargerThanPopulation)
    else
      Success(Draw(population, oracle, SheetNumbers))
  }

  /** `k` draws read the oracle's first `k` values and nothing after them. */
  lemma {:induction false} DrawReadsPrefix(pool: seq<int>, o: Oracle, k: nat)
    requires k <= |pool| && Distinct(pool) && k <= |o|
    ensures Draw(pool, o, k) == Draw(pool, o[..k], k)
    decreases k
  {
    if k > 0 {
      var j := RandBelow(o, |pool|);
      assert Head(o[..k]) == Head(o);
      assert Tail(o[..k]) == Tail(o)[..k - 1];
      DrawReadsPrefix(Remove(pool, j), Tail(o), k - 1);
    }
  }

  /** A sample reads the oracle's first 25 values and nothing after them. */
  lemma SampleReadsPrefix(low: int, high: int, o: Oracle)
    requires |o| >= SheetNumbers
    ensures Sample(low, high, o) == Sample(low, high, o[..SheetNumbers])
  {
    var population := Population(low, high);
    if |population| >= SheetNumbers {
      DrawReadsPrefix(population, o, SheetNumbers);
    }
  }

  /** `get_numbers((low, high))`. */
  method GetNumbers(lowHigh: (int, int), oracle: Oracle) returns (r: Result<seq<int>, SampleError>)
    ensures r.Failure? <==> lowHigh.1 - lowHigh.0 + 1 < SheetNumbers
    ensures r.Success? ==> |r.value| == SheetNumbers && Distinct(r.value)
    ensures r.Success? ==> forall x :: x in r.value ==> lowHigh.0 <= x <= lowHigh.1
    ensures r == Sample(lowHigh.0, lowHigh.1, oracle)
  {
    var population := Population(lowHigh.0, lowHigh.1);
    if |population| < SheetNumbers {
      return Failure(SampleLargerThanPopulation);
    }
    var drawn := DrawLoop(population, oracle, SheetNumbers);
    return Success(drawn);
  }

  /** The pool procedure as a loop: one draw per turn, the pool shrinking as it goes. */
  method DrawLoop(population: seq<int>, oracle: Oracle, k: nat) returns (result: seq<int>)
    requires k <= |population| && Distinct(population)
    ensures result == Draw(population, oracle, k)
  {
    var pool := population;
    var o := oracle;
    result := [];
    var n: nat := k;
    while n > 0
      invariant n <= |pool| && Distinct(pool)
      invariant result + Draw(pool, o, n) == Draw(population, oracle, k)
    {
      var j := RandBelow(o, |pool|);
      DrawOne(result, pool, o, n, j);
      result := result + [pool[j]];
      pool := Remove(pool, j);
      o := Tail(o);
      n := n - 1;
    }
    DrawNothing(pool, o, result);
  }

  /** Moving one draw from the pending part to the drawn prefix. */
  lemma DrawOne(prefix: seq<int>, pool: seq<int>, o: Oracle, n: nat, j: nat)
    requires 0 < n <= |pool| && Distinct(pool) && j == RandBelow(o, |pool|)
    ensures (prefix + [pool[j]]) + Draw(Remove(pool, j), Tail(o), n - 1) == prefix + Draw(pool, o, n)
  {
    var rest := Draw(Remove(pool, j), Tail(o), n - 1);
    assert Draw(pool, o, n) == [pool[j]] + rest;
    assert (prefix + [pool[j]]) + rest == prefix + ([pool[j]] + rest);
  }

  lemma DrawNothing(pool: seq<int>, o: Oracle, prefix: seq<int>)
    requires Distinct(pool)
    ensures prefix + Draw(pool, o, 0) == prefix
  {
  }

  /** The position of a value known to occur. */
  function IndexOf(s: seq<int>, x: int): (i: nat)
    requires x in s
    ensures i < |s| && s[i] == x
  {
    if s[0] == x then 0 else 1 + IndexOf(s[1..], x)
  }

  /** Oracle values that make `Draw` pick the elements of `t` in order. */
  ghost function ChoicesFor(pool: seq<int>, t: seq<int>): Oracle
    requires Distinct(pool) && Distinct(t)
    requires forall x :: x in t ==> x in pool
    decreases |t|
  {
    if t == [] then
      []
    else
      var j := IndexOf(pool, t[0]);
      DistinctUncons(t);
      [j] + ChoicesFor(Remove(pool, j), t[1..])
  }

  /** Every repetition-free selection from a repetition-free pool is some run of `Draw`. */
  lemma {:induction false} DrawReaches(pool: seq<int>, t: seq<int>)
    requires Distinct(pool) && Distinct(t)
    requires forall x :: x in t ==> x in pool
    ensures |t| <= |pool|
    ensures Draw(pool, ChoicesFor(pool, t), |t|) == t
    decreases |t|
  {
    if t != [] {
      var j := ChoicesForCons(pool, t);
      DrawReaches(Remove(pool, j), t[1..]);
      ReachStep(pool, t, j, ChoicesFor(Remove(pool, j), t[1..]));
    }
  }

  /** The first choice picks the slot of `t[0]`; the rest pick the rest of `t` from what is left. */
  lemma ChoicesForCons(pool: seq<int>, t: seq<int>) returns (j: nat)
    requires Distinct(pool) && Distinct(t) && t != []
    requires forall x :: x in t ==> x in pool
    ensures j < |pool| && pool[j] == t[0]
    ensures Distinct(t[1..]) && forall x :: x in t[1..] ==> x in Remove(pool, j)
    ensures ChoicesFor(pool, t) == [j] + ChoicesFor(Remove(pool, j), t[1..])
  {
    j := IndexOf(pool, t[0]);
    DistinctUncons(t);
    RemainingChoices(pool, t, j);
  }

  /** Picking slot `j` first and then drawing the rest of `t` draws all of `t`. */
  lemma ReachStep(pool: seq<int>, t: seq<int>, j: nat, c: Oracle)
    requires Distinct(pool) && t != [] && |t| <= |pool|
    requires j < |pool| && pool[j] == t[0]
    requires Draw(Remove(pool, j), c, |t| - 1) == t[1..]
    ensures Draw(pool, [j] + c, |t|) == t
  {
    DrawChosen(pool, j, c, |t| - 1);
    assert t == [t[0]] + t[1..];
  }

  /** After drawing `t[0]`, the rest of `t` is still in the pool. */
  lemma RemainingChoices(pool: seq<int>, t: seq<int>, j: nat)
    requires Distinct(pool) && Distinct(t) && t != []
    requires forall x :: x in t ==> x in pool
    requires j < |pool| && pool[j] == t[0]
    ensures forall x :: x in t[1..] ==> x in Remove(pool, j)
  {
    DistinctUncons(t);
  }

  /** An oracle value below the pool size picks exactly that slot. */
  lemma DrawChosen(pool: seq<int>, j: nat, c: Oracle, k: nat)
    requires j < |pool| && k < |pool| && Distinct(pool)
    ensures Draw(pool, [j] + c, k + 1) == [pool[j]] + Draw(Remove(pool, j), c, k)
  {
    var o := [j] + c;
    assert Head(o) == j && Tail(o) == c;
    assert j % |pool| == j;
  }

  /**
   * The postcondition of `Sample` is exact: every list of 25 distinct values
   * of `[low, high]` is the sample for some oracle.
   */
  lemma SampleComplete(low: int, high: int, t: seq<int>)
    requires |t| == SheetNumbers && Distinct(t)
    requires forall x :: x in t ==> low <= x <= high
    ensures exists oracle :: Sample(low, high, oracle) == Success(t)
  {
    var population := Population(low, high);
    DrawReaches(population, t);
    var oracle := ChoicesFor(population, t);
    assert Sample(low, high, oracle) == Success(t);
  }
}
