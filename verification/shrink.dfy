/**
 `ShrinkRecords`: squeeze the records of one sensor in [Low, High] by
 `-delta` seconds. For each deletion number `n` the code moves a run of
 stamps down by `n + 1` with `UPDATE OR REPLACE`, then deletes the sensor's
 rows in (High + delta, High].

 The runs are computed as indices relative to Low — `delIndex` and
 `nextIndex` lie in [0, span] — but the UPDATE binds them as absolute
 stamps, and `nextIndex` is clamped by the absolute `High`. The model keeps
 this as written: the moves address the stamps `i` themselves. Every stamp
 they read or write lies below `Reach`, so rows at or above `Reach` only see
 the final delete.
 */
module Shrink {
  import opened Schema
  import opened Sql
  import opened Arith

  /** `(rangeSpan * k) / ((rangeSpan - totalDeletions) + 1)`. */
  function RunIndex(span: int, deletions: int, k: int): int
    requires 0 < deletions <= span
  {
    span * k / (span - deletions + 1)
  }

  /** An upper bound on every stamp the moves touch: the last `nextIndex`,
      clamped by `High` as the code clamps it. */
  function Reach(range: Range, deletions: int): int
    requires 0 < deletions <= range.Span()
  {
    Min(RunIndex(range.Span(), deletions, deletions + 1), range.high)
  }

  /** The rows the final DELETE removes: sensor `sid`, (High - deletions, High]. */
  predicate InTail(k: Key, sid: int, range: Range, deletions: int) {
    k.sensor == sid && range.high - deletions < k.stamp <= range.high
  }

  /** `m` agrees with `t` on every row of another sensor and every row of
      `sid` at or above `bound`. */
  ghost predicate AgreesAbove(t: Records, m: Records, sid: int, bound: int) {
    forall k: Key {:trigger k in m} {:trigger k in t} :: k.sensor != sid || k.stamp >= bound ==>
      (k in m <==> k in t) && (k in m ==> m[k] == t[k])
  }

  /** What a successful shrink guarantees. */
  ghost predicate Shrunk(t: Records, r: Records, sid: int, range: Range, deletions: int)
    requires 0 < deletions <= range.Span()
  {
    // rows of other sensors, and rows of `sid` out of the moves' reach,
    // change only by the final delete
    && (forall k: Key {:trigger k in r} {:trigger k in t} :: k.sensor != sid || k.stamp >= Reach(range, deletions) ==>
          (k in r <==> k in t && !InTail(k, sid, range, deletions))
          && (k in r ==> r[k] == t[k]))
    // and nothing of `sid` is left in (High - deletions, High]
    && (forall k: Key {:trigger k in r} :: InTail(k, sid, range, deletions) ==> k !in r)
  }

  /** Every `nextIndex` of the loop is at most the last one. */
  lemma RunIndexMono(span: int, deletions: int, a: int, b: int)
    requires 0 < deletions <= span && 0 <= a <= b
    ensures RunIndex(span, deletions, a) <= RunIndex(span, deletions, b)
  {
    MulMono(span, a, b);
    MulMono(span, 0, a);
    DivMono(span * a, span * b, span - deletions + 1);
  }

  /** `delIndex` and `nextIndex` as the code computes them:
      `rangeSpan * k` is an unchecked `int` product. */
  function RunIndex32(span: int, deletions: int, k: int): int
    requires 0 < deletions <= span
  {
    DivT(Wrap32(span * k), span - deletions + 1)
  }

  /** While `span * (deletions + 1)` fits in an `int`, the code's run
      indices are the exact ones. */
  lemma Shrink32Agrees(span: int, deletions: int, k: int)
    requires 0 < deletions <= span && 0 <= k <= deletions + 1
    requires span * (deletions + 1) <= Int32Max
    ensures RunIndex32(span, deletions, k) == RunIndex(span, deletions, k)
  {
    MulMono(span, 0, k);
    MulMono(span, k, deletions + 1);
  }

  /** A 30-day block (span 2592000 s) shrunk by 830 s overflows: for
      deletion number 827, `rangeSpan * 829` wraps, so the run from 828 to
      829 becomes the run from 828 to -828, and its record is not moved. */
  lemma MonthShrinkWraps()
    ensures RunIndex32(2592000, 830, 828) == RunIndex(2592000, 830, 828) == 828
    ensures RunIndex(2592000, 830, 829) == 829
    ensures RunIndex32(2592000, 830, 829) == -828
  {
    assert Wrap32(2592000 * 829) == -2146199296;
    assert DivT(-2146199296, 2591171) == -828;
  }

  /** One `UPDATE OR REPLACE ... stamp = stamp - shift` of a stamp below
      `bound` keeps the rows at or above `bound`. */
  lemma MoveBelow(t: Records, m: Records, sid: int, bound: int, i: int, shift: int)
    requires i < bound && shift >= 0
    requires AgreesAbove(t, m, sid, bound)
    ensures AgreesAbove(t, MoveOrReplace(m, sid, i, -shift), sid, bound)
  {
    var m' := MoveOrReplace(m, sid, i, -shift);
    forall k: Key {:trigger k in m'} {:trigger k in t} | k.sensor != sid || k.stamp >= bound
      ensures (k in m' <==> k in t) && (k in m' ==> m'[k] == t[k])
    {
      assert k != Key(sid, i) && k != Key(sid, i + -shift);
    }
  }

  /** The moves of deletion number `n`: stamps [lo, hi), each down by `n + 1`. */
  method MoveRun(t: Records, m0: Records, sid: int, lo: int, hi: int, n: nat, ghost bound: int) returns (m: Records)
    requires hi <= bound
    requires AgreesAbove(t, m0, sid, bound)
    ensures AgreesAbove(t, m, sid, bound)
  {
    m := m0;
    var i := lo;
    while i < hi
      invariant AgreesAbove(t, m, sid, bound)
    {
      MoveBelow(t, m, sid, bound, i, n + 1);
      m := MoveOrReplace(m, sid, i, -(n + 1));
      i := i + 1;
    }
  }

  /** `ShrinkRecords(sensorId, range, delta)` on the `Record` table. */
  method ShrinkRecords(t: Records, sid: int, range: Range, delta: int) returns (r: Records, ok: bool)
    ensures delta > 0 ==> !ok && r == t
    ensures delta == 0 ==> ok && r == t
    ensures delta < 0 && range.Span() < -delta ==> !ok && r == t
    ensures delta < 0 && range.Span() >= -delta ==> ok && Shrunk(t, r, sid, range, -delta)
  {
    if delta > 0 {
      return t, false;
    }
    if delta == 0 {
      return t, true;
    }
    var deletions := -delta;
    var span := range.Span();
    if span < deletions {
      return t, false;
    }
    var bound := Reach(range, deletions);
    r := t;
    var n := 0;
    while n < deletions
      invariant 0 <= n <= deletions
      invariant AgreesAbove(t, r, sid, bound)
    {
      var delIndex := RunIndex(span, deletions, n + 1);
      var nextIndex := RunIndex(span, deletions, n + 2);
      nextIndex := Min(nextIndex, range.high);
      RunIndexMono(span, deletions, n + 2, deletions + 1);
      r := MoveRun(t, r, sid, delIndex, nextIndex, n, bound);
      n := n + 1;
    }
    r := DeleteSensorStamps(r, sid, range.high - deletions + 1, range.high + 1);
    return r, true;
  }
}
