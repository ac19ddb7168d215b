/**
 `ExpandRecords`: stretch the records of one sensor in [Low, High] so that
 they cover [Low, High + delta]. The block [Low, High) is cut into parts by
 floor division; each part moves up by a shift that grows with the part
 index, parts are processed from the last one down and stamps within a part
 from the highest down, with `UPDATE OR REPLACE`.

 Indices are relative to Low: `span` is `High - Low`, `j` in [0, span) is the
 source index, `p` in [0, Parts) is the part index.
 */
module Expand {
  import opened Schema
  import opened Sql
  import opened Arith

  /** `splitParts = Math.Min(rangeSpan, delta + 1)`. */
  function Parts(span: int, delta: int): int { Min(span, delta + 1) }

  /** `curPartIndex` of part `p`: `p * rangeSpan / splitParts`. */
  function Cur(span: int, delta: int, p: int): int
    requires span >= 2 && delta >= 1 && p >= 0
  {
    p * span / Parts(span, delta)
  }

  /** `shift` of part `p`, as the code computes it through `destIndex`. */
  function CodeShift(span: int, delta: int, p: int): int
    requires span >= 2 && delta >= 1 && p >= 0
  {
    var cur := Cur(span, delta, p);
    var destIndex := cur * (span + delta - 1) / (span - 1);
    destIndex - cur
  }

  /** Source index `j` lies in part `p`. */
  predicate InPart(span: int, delta: int, p: int, j: int)
    requires span >= 2 && delta >= 1
  {
    0 <= p < Parts(span, delta) && Cur(span, delta, p) <= j < Cur(span, delta, p + 1)
  }

  /** The part holding source index `j`. */
  function PartOf(span: int, delta: int, j: int): int
    requires span >= 2 && delta >= 1 && 0 <= j
  {
    ((j + 1) * Parts(span, delta) - 1) / span
  }

  /** Where source index `j` lands, relative to Low. */
  function Dest(span: int, delta: int, j: int): int
    requires span >= 2 && delta >= 1 && 0 <= j < span
  {
    PartOfInPart(span, delta, j);
    j + CodeShift(span, delta, PartOf(span, delta, j))
  }

  // ---------------------------------------------------------------------
  // Arithmetic of the partition

  /** The parts are consecutive: part `p` ends where part `p + 1` starts,
      and the `Math.Min` clamp of `nextPartIndex` never bites. */
  lemma CurBounds(span: int, delta: int, p: int)
    requires span >= 2 && delta >= 1 && 0 <= p <= Parts(span, delta)
    ensures 0 <= Cur(span, delta, p) <= span
    ensures p == 0 ==> Cur(span, delta, p) == 0
    ensures p == Parts(span, delta) ==> Cur(span, delta, p) == span
  {
    var k := Parts(span, delta);
    DivMono(0, p * span, k);
    MulMono(span, p, k);
    DivMono(p * span, k * span, k);
    assert k * span / k == span by {
      DivAddMultiple(span, k, 0);
    }
  }

  lemma CurMono(span: int, delta: int, p: int, q: int)
    requires span >= 2 && delta >= 1 && 0 <= p <= q
    ensures Cur(span, delta, p) <= Cur(span, delta, q)
  {
    MulMono(span, p, q);
    DivMono(p * span, q * span, Parts(span, delta));
  }

  /** `PartOf` finds the part of every source index. */
  lemma PartOfInPart(span: int, delta: int, j: int)
    requires span >= 2 && delta >= 1 && 0 <= j < span
    ensures InPart(span, delta, PartOf(span, delta, j), j)
  {
    var k := Parts(span, delta);
    var p := PartOf(span, delta, j);
    PartOfBounds(span, k, j);
    PartOfLow(span, k, j);
    PartOfHigh(span, k, j);
    assert Cur(span, delta, p) == p * span / k;
    assert Cur(span, delta, p + 1) == (p + 1) * span / k;
  }

  lemma PartOfBounds(span: int, k: int, j: int)
    requires 1 <= k <= span && 0 <= j < span
    ensures 0 <= ((j + 1) * k - 1) / span < k
  {
    var n := (j + 1) * k - 1;
    MulMono(k, 1, j + 1);
    DivMono(0, n, span);
    MulMono(k, j + 1, span);
    assert n <= span * k - 1;
    DivMono(n, span * k - 1, span);
    assert span * (k - 1) + (span - 1) == span * k - 1;
    DivUnique(span * k - 1, span, k - 1, span - 1);
  }

  /** The part found starts at or below `j`. */
  lemma PartOfLow(span: int, k: int, j: int)
    requires 1 <= k <= span && 0 <= j < span
    ensures ((j + 1) * k - 1) / span * span / k <= j
  {
    var n := (j + 1) * k - 1;
    var p := n / span;
    DivFloor(n, span);
    PartOfBounds(span, k, j);
    DivMono(p * span, n, k);
    assert k * j + (k - 1) == n;
    DivUnique(n, k, j, k - 1);
  }

  /** The part after the one found starts above `j`. */
  lemma PartOfHigh(span: int, k: int, j: int)
    requires 1 <= k <= span && 0 <= j < span
    ensures (((j + 1) * k - 1) / span + 1) * span / k >= j + 1
  {
    var n := (j + 1) * k - 1;
    var p := n / span;
    assert n == span * p + n % span;
    assert (p + 1) * span == span * p + span;
    assert (p + 1) * span >= n + 1;
    PartOfBounds(span, k, j);
    DivMono(n + 1, (p + 1) * span, k);
    assert k * (j + 1) + 0 == n + 1;
    DivUnique(n + 1, k, j + 1, 0);
  }

  /** A source index lies in exactly one part. */
  lemma PartUnique(span: int, delta: int, p: int, q: int, j: int)
    requires span >= 2 && delta >= 1
    requires InPart(span, delta, p, j) && InPart(span, delta, q, j)
    ensures p == q
  {
    if p < q {
      CurMono(span, delta, p + 1, q);
    } else if q < p {
      CurMono(span, delta, q + 1, p);
    }
  }

  /** The code's shift is `Cur(p) * delta / (span - 1)`. */
  lemma ShiftFormula(span: int, delta: int, p: int)
    requires span >= 2 && delta >= 1 && p >= 0
    ensures CodeShift(span, delta, p) == Cur(span, delta, p) * delta / (span - 1)
  {
    var cur := Cur(span, delta, p);
    assert cur * (span + delta - 1) == cur * (span - 1) + cur * delta;
    DivAddMultiple(cur, span - 1, cur * delta);
  }

  /** Part shifts are non-negative, at most `delta`, and nondecreasing in
      the part index. */
  lemma ShiftMonotone(span: int, delta: int, p: int, q: int)
    requires span >= 2 && delta >= 1 && 0 <= p <= q < Parts(span, delta)
    ensures 0 <= CodeShift(span, delta, p) <= CodeShift(span, delta, q) <= delta
  {
    var b := span - 1;
    ShiftFormula(span, delta, p);
    ShiftFormula(span, delta, q);
    var cp, cq := Cur(span, delta, p), Cur(span, delta, q);
    CurBounds(span, delta, p);
    CurMono(span, delta, p, q);
    // part q is not empty, so it starts before span
    StrictCur(span, delta, q);
    CurMono(span, delta, q + 1, Parts(span, delta));
    CurBounds(span, delta, Parts(span, delta));
    assert cq <= b;
    ScaledQuotients(b, delta, cp, cq);
  }

  /** `x * delta / b` is monotone in `x` and stays within [0, delta] for `x`
      in [0, b]. */
  lemma ScaledQuotients(b: int, delta: int, x: int, y: int)
    requires b >= 1 && delta >= 1 && 0 <= x <= y <= b
    ensures 0 <= x * delta / b <= y * delta / b <= delta
  {
    MulMono(delta, 0, x);
    MulMono(delta, x, y);
    MulMono(delta, y, b);
    assert 0 <= x * delta <= y * delta <= b * delta;
    DivMono(0, x * delta, b);
    DivMono(x * delta, y * delta, b);
    DivMono(y * delta, b * delta, b);
    DivUnique(b * delta, b, delta, 0);
  }

  /** Every part is non-empty. */
  lemma StrictCur(span: int, delta: int, p: int)
    requires span >= 2 && delta >= 1 && 0 <= p
    ensures Cur(span, delta, p) < Cur(span, delta, p + 1)
  {
    var k := Parts(span, delta);
    assert (p + 1) * span >= p * span + k;
    DivMono(p * span + k, (p + 1) * span, k);
    DivAddMultiple(1, k, p * span);
  }

  /** Destinations are strictly increasing, never below the source and at
      most `delta` above it: the block keeps its order and lands inside
      [Low, High + delta - 1]. */
  lemma DestOrder(span: int, delta: int, i: int, j: int)
    requires span >= 2 && delta >= 1 && 0 <= i < j < span
    ensures i <= Dest(span, delta, i) < Dest(span, delta, j) <= j + delta
  {
    PartOfInPart(span, delta, i);
    PartOfInPart(span, delta, j);
    var pi, pj := PartOf(span, delta, i), PartOf(span, delta, j);
    if pj < pi {
      CurMono(span, delta, pj + 1, pi);
    }
    ShiftMonotone(span, delta, pi, pj);
  }

  lemma DestBounds(span: int, delta: int, j: int)
    requires span >= 2 && delta >= 1 && 0 <= j < span
    ensures j <= Dest(span, delta, j) <= j + delta
  {
    PartOfInPart(span, delta, j);
    var p := PartOf(span, delta, j);
    ShiftMonotone(span, delta, p, p);
  }

  /** With span 10 and delta 5, source index 7 lands on index 10, which is
      High: the record kept at High is replaced. */
  lemma SevenLandsOnHigh()
    ensures Dest(10, 5, 7) == 10
  {
    assert Parts(10, 5) == 6;
    assert PartOf(10, 5, 7) == 4;
    assert Cur(10, 5, 4) == 6;
    assert CodeShift(10, 5, 4) == 3;
  }

  // ---------------------------------------------------------------------
  // The code's 32-bit arithmetic

  /** `curPartIndex` as the code computes it: `partIndex * rangeSpan` is an
      unchecked `int` product. */
  function Cur32(span: int, delta: int, p: int): int
    requires span >= 2 && delta >= 1
  {
    DivT(Wrap32(p * span), Parts(span, delta))
  }

  /** `shift` as the code computes it, every product and difference in
      `int`. `(destIndex + Low) - (curPartIndex + Low)` wraps to the same
      value as `destIndex - curPartIndex`. */
  function CodeShift32(span: int, delta: int, p: int): int
    requires span >= 2 && delta >= 1
  {
    var cur := Cur32(span, delta, p);
    var destIndex := DivT(Wrap32(cur * Wrap32(span + delta - 1)), span - 1);
    Wrap32(destIndex - cur)
  }

  /** The block is small enough for the code's `int` products not to wrap. */
  predicate ExpandFits(span: int, delta: int) {
    && Parts(span, delta) * span <= Int32Max
    && (span - 1) * (span + delta - 1) <= Int32Max
  }

  /** While the products fit, the code's 32-bit part starts and shifts are
      the exact ones the rest of this module reasons about. */
  lemma Expand32Agrees(span: int, delta: int, p: int)
    requires span >= 2 && delta >= 1 && 0 <= p < Parts(span, delta)
    requires ExpandFits(span, delta)
    ensures Cur32(span, delta, p) == Cur(span, delta, p)
    ensures CodeShift32(span, delta, p) == CodeShift(span, delta, p)
  {
    var k := Parts(span, delta);
    MulMono(span, 0, p);
    MulMono(span, p, k);
    assert 0 <= p * span <= k * span;
    var cur := Cur(span, delta, p);
    assert Cur32(span, delta, p) == cur;
    StrictCur(span, delta, p);
    CurMono(span, delta, p + 1, k);
    CurBounds(span, delta, k);
    CurBounds(span, delta, p);
    assert 0 <= cur <= span - 1;
    var m := span + delta - 1;
    MulMono(m, 1, span - 1);
    assert Wrap32(m) == m;
    MulMono(m, 0, cur);
    MulMono(m, cur, span - 1);
    assert 0 <= cur * m <= (span - 1) * m;
    var dest := cur * m / (span - 1);
    DivMono(0, cur * m, span - 1);
    DivMono(cur * m, (span - 1) * m, span - 1);
    DivUnique((span - 1) * m, span - 1, m, 0);
    assert 0 <= dest <= m;
  }

  /** A one-day block (span 86400 s) stretched by one second overflows:
      `43200 * 86400` wraps to -562487296, so part 1 is shifted by -49710
      instead of 0. Its first record would land 6510 s below Low, where the
      exact arithmetic leaves it in place. */
  lemma DayStretchWraps()
    ensures Cur32(86400, 1, 1) == Cur(86400, 1, 1) == 43200
    ensures CodeShift(86400, 1, 1) == 0
    ensures CodeShift32(86400, 1, 1) == -49710
    ensures Cur(86400, 1, 1) + CodeShift32(86400, 1, 1) == -6510
  {
    assert Parts(86400, 1) == 2;
    assert Cur(86400, 1, 1) == 43200;
    assert Wrap32(43200 * 86400) == -562487296;
    assert DivT(-562487296, 86399) == -6510;
    assert 43200 * 86400 / 86399 == 43200;
  }

  // ---------------------------------------------------------------------
  // The loop

  /** The destinations of all source indices, as a table. */
  function DestTable(span: int, delta: int): (d: seq<int>)
    requires span >= 2 && delta >= 1
    ensures |d| == span
    ensures forall j {:trigger d[j]} :: 0 <= j < span ==> d[j] == Dest(span, delta, j)
  {
    seq(span, j requires 0 <= j < span => Dest(span, delta, j))
  }

  /** A destination table keeps the order of the block and stays within
      `delta` above each source. */
  predicate Spread(d: seq<int>, delta: int) {
    && (forall j {:trigger d[j]} :: 0 <= j < |d| ==> j <= d[j] <= j + delta)
    && (forall i, j {:trigger d[i], d[j]} :: 0 <= i < j < |d| ==> d[i] < d[j])
  }

  lemma DestTableSpread(span: int, delta: int)
    requires span >= 2 && delta >= 1
    ensures Spread(DestTable(span, delta), delta)
  {
    var d := DestTable(span, delta);
    forall j | 0 <= j < span
      ensures j <= d[j] <= j + delta
    {
      DestBounds(span, delta, j);
    }
    forall i, j | 0 <= i < j < span
      ensures d[i] < d[j]
    {
      DestOrder(span, delta, i, j);
    }
  }

  /** Every index of part `p` moves by the part's shift. */
  lemma PartShift(span: int, delta: int, p: int, j: int)
    requires span >= 2 && delta >= 1 && InPart(span, delta, p, j)
    ensures 0 <= j < span
    ensures Dest(span, delta, j) == j + CodeShift(span, delta, p)
  {
    CurBounds(span, delta, p);
    CurMono(span, delta, p + 1, Parts(span, delta));
    CurBounds(span, delta, Parts(span, delta));
    PartOfInPart(span, delta, j);
    PartUnique(span, delta, p, PartOf(span, delta, j), j);
  }

  /** The keys the moves may touch: sensor `sid` in [Low, High + delta). */
  predicate InRegion(k: Key, sid: int, range: Range, delta: int) {
    k.sensor == sid && range.low <= k.stamp < range.high + delta
  }

  /** Outside the region nothing changes. */
  ghost predicate FrameKept(c: Records, r: Records, sid: int, range: Range, delta: int) {
    forall k {:trigger k in r} :: !InRegion(k, sid, range, delta) ==>
      (k in r <==> k in c) && (k in r ==> r[k] == c[k])
  }

  /** The sources not yet processed, at or below index `j`, are intact. */
  ghost predicate PendingKept(c: Records, r: Records, sid: int, range: Range, j: int) {
    forall k: Key {:trigger k in r} ::
      k.sensor == sid && range.low <= k.stamp <= range.low + j ==>
      (k in r <==> k in c) && (k in r ==> r[k] == c[k])
  }

  /** The destination of source index `i`, as a separate term so that the
      facts about landed rows are only used where a proof asks for them. */
  function Lands(d: seq<int>, i: int): int
    requires 0 <= i < |d|
  {
    d[i]
  }

  /** Every processed source, above index `j`, sits at its destination. */
  ghost predicate Landed(c: Records, r: Records, sid: int, range: Range, d: seq<int>, j: int) {
    forall i {:trigger Lands(d, i)} :: 0 <= i < |d| && j < i && Key(sid, range.low + i) in c ==>
      Key(sid, range.low + Lands(d, i)) in r
      && r[Key(sid, range.low + Lands(d, i))] == c[Key(sid, range.low + i)]
  }

  /** Every row of the region is a pending source, the row at High, or a
      processed source at its destination. */
  ghost predicate Accounted(c: Records, r: Records, sid: int, range: Range, delta: int, d: seq<int>, j: int) {
    forall k {:trigger k in r} :: k in r && InRegion(k, sid, range, delta) ==>
      (k.stamp <= range.low + j && k in c && r[k] == c[k])
      || (k.stamp == range.high && k in c && r[k] == c[k])
      || (exists i {:trigger d[i]} :: 0 <= i < |d| && j < i
           && k.stamp == range.low + d[i]
           && Key(sid, range.low + i) in c && r[k] == c[Key(sid, range.low + i)])
  }

  /** The state after every source index above `j` has moved, starting
      from `c` (the table after the overflow delete). */
  ghost predicate ExpandInv(c: Records, r: Records, sid: int, range: Range, delta: int, d: seq<int>, j: int) {
    && FrameKept(c, r, sid, range, delta)
    && PendingKept(c, r, sid, range, j)
    && Landed(c, r, sid, range, d, j)
    && Accounted(c, r, sid, range, delta, d, j)
    // the row at High is never moved away
    && (Key(sid, range.high) in c ==> Key(sid, range.high) in r)
  }

  /** The invariant holds before the first move. */
  lemma ExpandInvInit(c: Records, sid: int, range: Range, delta: int, d: seq<int>)
    requires |d| == range.Span() >= 2 && delta >= 1
    requires forall k {:trigger k in c} :: k in c ==> !(range.high < k.stamp < range.high + delta)
    ensures ExpandInv(c, c, sid, range, delta, d, |d| - 1)
  {
  }

  /** One `UPDATE OR REPLACE` of source index `j` keeps the invariant, one
      index further down. */
  lemma ExpandStep(c: Records, r: Records, sid: int, range: Range, delta: int, d: seq<int>, j: int, sh: int)
    requires |d| == range.Span() && delta >= 1 && 0 <= j < |d|
    requires Spread(d, delta) && d[j] == j + sh
    requires ExpandInv(c, r, sid, range, delta, d, j)
    ensures ExpandInv(c, MoveOrReplace(r, sid, range.low + j, sh), sid, range, delta, d, j - 1)
  {
    assert j <= d[j] <= j + delta;
    StepFrame(c, r, sid, range, delta, j, sh);
    StepPending(c, r, sid, range, j, sh);
    StepLanded(c, r, sid, range, delta, d, j, sh);
    StepAccounted(c, r, sid, range, delta, d, j, sh);
    assert Key(sid, range.high) != Key(sid, range.low + j);
  }

  lemma StepFrame(c: Records, r: Records, sid: int, range: Range, delta: int, j: int, sh: int)
    requires 0 <= j < range.Span() && 0 <= sh <= delta
    requires FrameKept(c, r, sid, range, delta)
    ensures FrameKept(c, MoveOrReplace(r, sid, range.low + j, sh), sid, range, delta)
  {
    var m := MoveOrReplace(r, sid, range.low + j, sh);
    assert InRegion(Key(sid, range.low + j), sid, range, delta);
    assert InRegion(Key(sid, range.low + j + sh), sid, range, delta);
  }

  lemma StepPending(c: Records, r: Records, sid: int, range: Range, j: int, sh: int)
    requires 0 <= sh
    requires PendingKept(c, r, sid, range, j)
    ensures PendingKept(c, MoveOrReplace(r, sid, range.low + j, sh), sid, range, j - 1)
  {
  }

  lemma StepLanded(c: Records, r: Records, sid: int, range: Range, delta: int, d: seq<int>, j: int, sh: int)
    requires |d| == range.Span() && 0 <= j < |d|
    requires Spread(d, delta) && d[j] == j + sh
    requires PendingKept(c, r, sid, range, j) && Landed(c, r, sid, range, d, j)
    ensures Landed(c, MoveOrReplace(r, sid, range.low + j, sh), sid, range, d, j - 1)
  {
    var m := MoveOrReplace(r, sid, range.low + j, sh);
    var src := Key(sid, range.low + j);
    assert src in r <==> src in c;
    forall i | 0 <= i < |d| && j - 1 < i && Key(sid, range.low + i) in c
      ensures Key(sid, range.low + Lands(d, i)) in m
      ensures m[Key(sid, range.low + Lands(d, i))] == c[Key(sid, range.low + i)]
    {
      if i > j {
        assert d[j] < d[i];
      }
    }
  }

  lemma StepAccounted(c: Records, r: Records, sid: int, range: Range, delta: int, d: seq<int>, j: int, sh: int)
    requires |d| == range.Span() && 0 <= j < |d| && d[j] == j + sh
    requires PendingKept(c, r, sid, range, j) && Accounted(c, r, sid, range, delta, d, j)
    ensures Accounted(c, MoveOrReplace(r, sid, range.low + j, sh), sid, range, delta, d, j - 1)
  {
    var m := MoveOrReplace(r, sid, range.low + j, sh);
    forall k {:trigger k in m} | k in m && InRegion(k, sid, range, delta)
      ensures (k.stamp <= range.low + (j - 1) && k in c && m[k] == c[k])
           || (k.stamp == range.high && k in c && m[k] == c[k])
           || (exists i {:trigger d[i]} :: 0 <= i < |d| && j - 1 < i
                && k.stamp == range.low + d[i]
                && Key(sid, range.low + i) in c && m[k] == c[Key(sid, range.low + i)])
    {
      AccountedAt(c, r, sid, range, delta, d, j, sh, k);
    }
  }

  /** One row of the region after the move of index `j`, traced back. */
  lemma AccountedAt(c: Records, r: Records, sid: int, range: Range, delta: int, d: seq<int>, j: int, sh: int, k: Key)
    requires |d| == range.Span() && 0 <= j < |d| && d[j] == j + sh
    requires PendingKept(c, r, sid, range, j) && Accounted(c, r, sid, range, delta, d, j)
    requires k in MoveOrReplace(r, sid, range.low + j, sh) && InRegion(k, sid, range, delta)
    ensures var m := MoveOrReplace(r, sid, range.low + j, sh);
      (k.stamp <= range.low + (j - 1) && k in c && m[k] == c[k])
      || (k.stamp == range.high && k in c && m[k] == c[k])
      || (exists i {:trigger d[i]} :: 0 <= i < |d| && j - 1 < i
           && k.stamp == range.low + d[i]
           && Key(sid, range.low + i) in c && m[k] == c[Key(sid, range.low + i)])
  {
    var m := MoveOrReplace(r, sid, range.low + j, sh);
    var src, dst := Key(sid, range.low + j), Key(sid, range.low + j + sh);
    if src in r && k == dst {
      assert src in c && m[k] == c[src];
      assert k.stamp == range.low + d[j];
    } else {
      assert k in r && m[k] == r[k];
      assert k != src;
      if k.stamp <= range.low + j && k in c && r[k] == c[k] {
        assert k.stamp != range.low + j;
      } else if k.stamp == range.high && k in c && r[k] == c[k] {
      } else {
        var i :| 0 <= i < |d| && j < i && k.stamp == range.low + d[i]
          && Key(sid, range.low + i) in c && r[k] == c[Key(sid, range.low + i)];
        assert j - 1 < i;
      }
    }
  }

  /** The moves of one part, source indices [cur, next), from the highest
      stamp down: stamp `Low + j` moves to `Low + j + shift`. */
  method MovePart(c: Records, r0: Records, sid: int, range: Range, delta: int, ghost d: seq<int>,
                  cur: int, next: int, shift: int) returns (r: Records)
    requires |d| == range.Span() && delta >= 1 && Spread(d, delta)
    requires 0 <= cur <= next <= |d|
    requires forall i {:trigger d[i]} :: cur <= i < next ==> d[i] == i + shift
    requires ExpandInv(c, r0, sid, range, delta, d, next - 1)
    ensures ExpandInv(c, r, sid, range, delta, d, cur - 1)
  {
    r := r0;
    var j := next - 1;
    while j >= cur
      invariant cur - 1 <= j <= next - 1
      invariant ExpandInv(c, r, sid, range, delta, d, j)
    {
      ExpandStep(c, r, sid, range, delta, d, j, shift);
      r := MoveOrReplace(r, sid, range.low + j, shift);
      j := j - 1;
    }
    assert j == cur - 1;
  }

  /** `ExpandRecords(sensorId, range, delta)` on the `Record` table. A
      division by zero (span 1) raises before anything is committed. */
  method ExpandRecords(t: Records, sid: int, range: Range, delta: int) returns (r: Records, res: Result<bool>)
    ensures delta < 0 ==> res == Ok(false) && r == t
    ensures delta == 0 ==> res == Ok(true) && r == t
    ensures delta > 0 && range.Span() <= 0 ==> res == Ok(false) && r == t
    ensures delta > 0 && range.Span() == 1 ==> res == Err(DivideByZero) && r == t
    ensures delta > 0 && range.Span() >= 2 ==> res == Ok(true)
    ensures delta > 0 && range.Span() >= 2 ==> Expanded(t, r, sid, range, delta)
  {
    if delta < 0 {
      return t, Ok(false);
    }
    if delta == 0 {
      return t, Ok(true);
    }
    var span := range.Span();
    var resultingSpan := span + delta;
    if delta >= resultingSpan {
      return t, Ok(false);
    }
    if span == 1 {
      // destIndex = (curPartIndex * (resultingSpan - 1)) / (rangeSpan - 1)
      return t, Err(DivideByZero);
    }
    var splitParts := Parts(span, delta);
    var c := DeleteStamps(t, range.high + 1, range.high + delta);
    ghost var d := DestTable(span, delta);
    DestTableSpread(span, delta);
    CurBounds(span, delta, splitParts);
    ExpandInvInit(c, sid, range, delta, d);
    r := c;
    var p := splitParts - 1;
    ghost var top := span;
    while p >= 0
      invariant -1 <= p < splitParts && top == Cur(span, delta, p + 1)
      invariant ExpandInv(c, r, sid, range, delta, d, top - 1)
    {
      var cur := Cur(span, delta, p);
      var next := Min(Cur(span, delta, p + 1), span);
      var shift := CodeShift(span, delta, p);
      PartTable(span, delta, d, p, shift);
      r := MovePart(c, r, sid, range, delta, d, cur, next, shift);
      p, top := p - 1, cur;
    }
    CurBounds(span, delta, 0);
    assert top == 0;
    ExpandFinal(t, c, r, sid, range, delta, d);
    return r, Ok(true);
  }

  /** The table entries of part `p` are its indices moved by its shift. */
  lemma PartTable(span: int, delta: int, d: seq<int>, p: int, shift: int)
    requires span >= 2 && delta >= 1 && 0 <= p < Parts(span, delta)
    requires d == DestTable(span, delta)
    requires shift == CodeShift(span, delta, p)
    ensures 0 <= Cur(span, delta, p) <= Cur(span, delta, p + 1) <= span
    ensures forall i {:trigger d[i]} :: Cur(span, delta, p) <= i < Cur(span, delta, p + 1) ==> d[i] == i + shift
  {
    CurBounds(span, delta, p);
    CurMono(span, delta, p + 1, Parts(span, delta));
    CurBounds(span, delta, Parts(span, delta));
    forall i | Cur(span, delta, p) <= i < Cur(span, delta, p + 1)
      ensures d[i] == i + shift
    {
      PartShift(span, delta, p, i);
    }
  }

  /** What `ExpandRecords` leaves behind: rows outside the region keep their
      keys and values, except that the overflow window (High, High + delta)
      is emptied for every sensor; every record of [Low, High) lands at its
      destination; the row at High stays; and nothing else is in the region. */
  ghost predicate Expanded(t: Records, r: Records, sid: int, range: Range, delta: int)
    requires range.Span() >= 2 && delta >= 1
  {
    && OutsideKept(t, r, sid, range, delta)
    && AllLanded(t, r, sid, range, delta)
    && OnlyLanded(t, r, sid, range, delta)
    && (Key(sid, range.high) in t ==> Key(sid, range.high) in r)
  }

  ghost predicate OutsideKept(t: Records, r: Records, sid: int, range: Range, delta: int) {
    forall k {:trigger k in r} :: !InRegion(k, sid, range, delta) ==>
      (k in r <==> k in t && !(range.high < k.stamp < range.high + delta))
      && (k in r ==> r[k] == t[k])
  }

  ghost predicate AllLanded(t: Records, r: Records, sid: int, range: Range, delta: int)
    requires range.Span() >= 2 && delta >= 1
  {
    forall j {:trigger Dest(range.Span(), delta, j)} ::
      0 <= j < range.Span() && Key(sid, range.low + j) in t ==>
      Key(sid, range.low + Dest(range.Span(), delta, j)) in r
      && r[Key(sid, range.low + Dest(range.Span(), delta, j))] == t[Key(sid, range.low + j)]
  }

  ghost predicate OnlyLanded(t: Records, r: Records, sid: int, range: Range, delta: int)
    requires range.Span() >= 2 && delta >= 1
  {
    forall k {:trigger k in r} :: k in r && InRegion(k, sid, range, delta) ==>
      (k.stamp == range.high && k in t && r[k] == t[k])
      || (exists j {:trigger Dest(range.Span(), delta, j)} :: 0 <= j < range.Span()
           && k.stamp == range.low + Dest(range.Span(), delta, j)
           && Key(sid, range.low + j) in t && r[k] == t[Key(sid, range.low + j)])
  }

  /** Reading the invariant at the end back in terms of the original table. */
  lemma ExpandFinal(t: Records, c: Records, r: Records, sid: int, range: Range, delta: int, d: seq<int>)
    requires range.Span() >= 2 && delta >= 1
    requires c == DeleteStamps(t, range.high + 1, range.high + delta)
    requires d == DestTable(range.Span(), delta)
    requires ExpandInv(c, r, sid, range, delta, d, -1)
    ensures Expanded(t, r, sid, range, delta)
  {
    FinalOutside(t, c, r, sid, range, delta);
    FinalLanded(t, c, r, sid, range, delta, d);
    FinalOnly(t, c, r, sid, range, delta, d);
  }

  lemma FinalOutside(t: Records, c: Records, r: Records, sid: int, range: Range, delta: int)
    requires c == DeleteStamps(t, range.high + 1, range.high + delta)
    requires FrameKept(c, r, sid, range, delta)
    ensures OutsideKept(t, r, sid, range, delta)
  {
  }

  lemma FinalLanded(t: Records, c: Records, r: Records, sid: int, range: Range, delta: int, d: seq<int>)
    requires range.Span() >= 2 && delta >= 1
    requires c == DeleteStamps(t, range.high + 1, range.high + delta)
    requires d == DestTable(range.Span(), delta)
    requires Landed(c, r, sid, range, d, -1)
    ensures AllLanded(t, r, sid, range, delta)
  {
    var span := range.Span();
    forall j | 0 <= j < span && Key(sid, range.low + j) in t
      ensures Key(sid, range.low + Dest(span, delta, j)) in r
      ensures r[Key(sid, range.low + Dest(span, delta, j))] == t[Key(sid, range.low + j)]
    {
      assert Key(sid, range.low + j) in c;
      assert Lands(d, j) == Dest(span, delta, j);
    }
  }

  lemma FinalOnly(t: Records, c: Records, r: Records, sid: int, range: Range, delta: int, d: seq<int>)
    requires range.Span() >= 2 && delta >= 1
    requires c == DeleteStamps(t, range.high + 1, range.high + delta)
    requires d == DestTable(range.Span(), delta)
    requires Accounted(c, r, sid, range, delta, d, -1)
    ensures OnlyLanded(t, r, sid, range, delta)
  {
    var span := range.Span();
    forall k {:trigger k in r} | k in r && InRegion(k, sid, range, delta)
      ensures (k.stamp == range.high && k in t && r[k] == t[k])
           || (exists j {:trigger Dest(span, delta, j)} :: 0 <= j < span
                && k.stamp == range.low + Dest(span, delta, j)
                && Key(sid, range.low + j) in t && r[k] == t[Key(sid, range.low + j)])
    {
      if !(k.stamp == range.high && k in c && r[k] == c[k]) {
        var i :| 0 <= i < |d| && -1 < i && k.stamp == range.low + d[i]
          && Key(sid, range.low + i) in c && r[k] == c[Key(sid, range.low + i)];
        assert d[i] == Dest(span, delta, i);
      }
    }
  }
}
