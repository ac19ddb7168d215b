/**
 `AdjustTimeStamps`: move and stretch or squeeze the records of one sensor
 so that those in `currentRange` come to cover `correctedRange`, then
 rebuild the summaries over the ranges involved.

 `delta` is the change of span and `offset` the change of start. A shrink
 runs first and the offset after it, on the block that is left; otherwise
 the offset runs first and the expansion after it, on the shifted block.
 */
module Adjust {
  import opened Schema
  import opened Offset
  import opened Expand
  import opened Shrink
  import opened Summaries

  function Delta(cur: Range, cor: Range): int { cor.Span() - cur.Span() }

  function OffsetOf(cur: Range, cor: Range): int { cor.low - cur.low }

  /** Nothing to adjust: same start and same span. */
  predicate NoChange(cur: Range, cor: Range) {
    Delta(cur, cor) == 0 && OffsetOf(cur, cor) == 0
  }

  // ---------------------------------------------------------------------
  // The overwrite guard

  /** The corrected range reaches past the current one. */
  predicate Extends(cur: Range, cor: Range) {
    cor.low < cur.low || cor.high > cur.high
  }

  /** The WHERE clause the guard's `COUNT(*)` assembles: a record of the
      sensor in `[corLow, curLow)` when the range grows down, or in
      `(curHigh, corHigh]` when it grows up, and not in `[curLow, curHigh]`.
      The code never binds these parameters, so as executed the query
      raises instead of counting; this is the clause with the values it is
      meant to have. */
  predicate GuardHit(k: Key, sid: int, cur: Range, cor: Range) {
    && k.sensor == sid
    && ((cor.low < cur.low && k.stamp >= cor.low && k.stamp < cur.low)
        || (cor.high > cur.high && k.stamp <= cor.high && k.stamp > cur.high))
    && !(k.stamp >= cur.low && k.stamp <= cur.high)
  }

  /** The guard raises `InvalidOperationException`. */
  predicate Blocked(t: Records, sid: int, cur: Range, cor: Range, canOverwrite: bool) {
    !canOverwrite && Extends(cur, cor) && exists k :: k in t && GuardHit(k, sid, cur, cor)
  }

  /** The guard blocks exactly when overwriting is off and some record of the
      sensor lies in `[corLow, curLow)` or `(curHigh, corHigh]` but outside
      `[curLow, curHigh]`; for a well-formed current range the last clause
      is implied. */
  lemma BlockedWindows(t: Records, sid: int, cur: Range, cor: Range, canOverwrite: bool)
    ensures Blocked(t, sid, cur, cor, canOverwrite) <==>
      !canOverwrite && exists k :: k in t && InGrowth(k, sid, cur, cor) && !(cur.low <= k.stamp <= cur.high)
    ensures cur.low <= cur.high ==>
      (Blocked(t, sid, cur, cor, canOverwrite) <==> !canOverwrite && exists k :: k in t && InGrowth(k, sid, cur, cor))
  {
    if !canOverwrite && exists k :: k in t && InGrowth(k, sid, cur, cor) && !(cur.low <= k.stamp <= cur.high) {
      var k :| k in t && InGrowth(k, sid, cur, cor) && !(cur.low <= k.stamp <= cur.high);
      assert GuardHit(k, sid, cur, cor);
    }
  }

  /** A record of the sensor in `[corLow, curLow)` or `(curHigh, corHigh]`. */
  predicate InGrowth(k: Key, sid: int, cur: Range, cor: Range) {
    k.sensor == sid && (cor.low <= k.stamp < cur.low || cur.high < k.stamp <= cor.high)
  }

  // ---------------------------------------------------------------------
  // The records phase

  /** The table after `OffsetRecords` over `range`, or as it was when the
      offset is 0 and the call is skipped. */
  function Moved(t: Records, sid: int, range: Range, offset: int): Records {
    if offset == 0 then t else Shifted(t, sid, range, offset)
  }

  /** `OffsetRecords` over `range` reports rows moved. */
  function MovedAny(t: Records, sid: int, range: Range, offset: int): bool {
    offset != 0 && |SourceStamps(t, sid, range.low, range.high)| != 0
  }

  /** The block a shrink leaves, which the offset then moves. */
  function ShrunkBlock(cur: Range, cor: Range): Range {
    Range(cur.low, cur.low + cor.Span())
  }

  /** Shrink, then shift the block that is left. */
  ghost predicate ShrankThenShifted(t: Records, r: Records, ok: bool, sid: int, cur: Range, cor: Range)
    requires Delta(cur, cor) < 0
  {
    if cur.Span() >= -Delta(cur, cor) then
      ok && exists mid :: Shrunk(t, mid, sid, cur, -Delta(cur, cor)) && r == Moved(mid, sid, ShrunkBlock(cur, cor), OffsetOf(cur, cor))
    else
      r == Moved(t, sid, ShrunkBlock(cur, cor), OffsetOf(cur, cor)) && ok == MovedAny(t, sid, ShrunkBlock(cur, cor), OffsetOf(cur, cor))
  }

  /** Shift only: no change of span, or an expansion of an empty range,
      which does nothing. */
  ghost predicate ShiftedOnly(t: Records, r: Records, ok: bool, sid: int, cur: Range, cor: Range) {
    r == Moved(t, sid, cur, OffsetOf(cur, cor)) && ok == MovedAny(t, sid, cur, OffsetOf(cur, cor))
  }

  /** The current range moved to the corrected start. */
  function ShiftedRange(cur: Range, cor: Range): (r: Range)
    ensures r.Span() == cur.Span() && r.low == cor.low
  {
    Range(cur.low + OffsetOf(cur, cor), cur.high + OffsetOf(cur, cor))
  }

  /** Shift, then expand the shifted block. */
  ghost predicate ShiftedThenExpanded(t: Records, r: Records, ok: bool, sid: int, cur: Range, cor: Range)
    requires Delta(cur, cor) > 0
  {
    cur.Span() >= 2 && ok
    && Expanded(Moved(t, sid, cur, OffsetOf(cur, cor)), r, sid, ShiftedRange(cur, cor), Delta(cur, cor))
  }

  /** What the records phase leaves in `r`, and the flag `ok` it reports. */
  ghost predicate RecordsAdjusted(t: Records, r: Records, ok: bool, sid: int, cur: Range, cor: Range) {
    if Delta(cur, cor) < 0 then ShrankThenShifted(t, r, ok, sid, cur, cor)
    else if Delta(cur, cor) == 0 || cur.Span() <= 0 then ShiftedOnly(t, r, ok, sid, cur, cor)
    else ShiftedThenExpanded(t, r, ok, sid, cur, cor)
  }

  method ShrinkPhase(t: Records, sid: int, cur: Range, cor: Range) returns (r: Records, ok: bool)
    requires Delta(cur, cor) < 0
    ensures ShrankThenShifted(t, r, ok, sid, cur, cor)
  {
    var mid;
    mid, ok := ShrinkRecords(t, sid, cur, Delta(cur, cor));
    r := mid;
    var offset := OffsetOf(cur, cor);
    if offset != 0 {
      var moved;
      r, moved := OffsetRecords(mid, sid, ShrunkBlock(cur, cor), offset);
      ok := (moved != 0) || ok;
    }
    if cur.Span() >= -Delta(cur, cor) {
      assert Shrunk(t, mid, sid, cur, -Delta(cur, cor)) && r == Moved(mid, sid, ShrunkBlock(cur, cor), offset);
    }
  }

  method ShiftPhase(t: Records, sid: int, cur: Range, cor: Range) returns (r: Records, ok: bool)
    ensures ShiftedOnly(t, r, ok, sid, cur, cor)
  {
    var offset := OffsetOf(cur, cor);
    if offset == 0 {
      return t, false;
    }
    var moved;
    r, moved := OffsetRecords(t, sid, cur, offset);
    ok := moved != 0;
  }

  /** Shift, then expand. An expansion over a span of 1 divides by zero;
      the exception leaves the table as the offset left it. */
  method ExpandPhase(t: Records, sid: int, cur: Range, cor: Range) returns (r: Records, res: Result<bool>)
    requires Delta(cur, cor) > 0
    ensures res.Ok? && cur.Span() <= 0 ==> ShiftedOnly(t, r, res.value, sid, cur, cor)
    ensures res.Ok? && cur.Span() > 0 ==> ShiftedThenExpanded(t, r, res.value, sid, cur, cor)
    ensures res.Err? <==> cur.Span() == 1
    ensures res.Err? ==> res.error == DivideByZero && r == Moved(t, sid, cur, OffsetOf(cur, cor))
  {
    var shifted, ok := ShiftPhase(t, sid, cur, cor);
    var e;
    r, e := ExpandRecords(shifted, sid, ShiftedRange(cur, cor), Delta(cur, cor));
    if e.Err? {
      res := Err(e.error);
    } else {
      res := Ok(ok || e.value);
    }
  }

  /** The moves of `AdjustTimeStamps`. */
  method AdjustRecords(t: Records, sid: int, cur: Range, cor: Range) returns (r: Records, res: Result<bool>)
    ensures res.Ok? ==> RecordsAdjusted(t, r, res.value, sid, cur, cor)
    ensures res.Err? <==> Delta(cur, cor) > 0 && cur.Span() == 1
    ensures res.Err? ==> res.error == DivideByZero && r == Moved(t, sid, cur, OffsetOf(cur, cor))
  {
    var ok;
    if Delta(cur, cor) < 0 {
      r, ok := ShrinkPhase(t, sid, cur, cor);
      return r, Ok(ok);
    }
    if Delta(cur, cor) > 0 {
      r, res := ExpandPhase(t, sid, cur, cor);
      return;
    }
    r, ok := ShiftPhase(t, sid, cur, cor);
    return r, Ok(ok);
  }

  // ---------------------------------------------------------------------
  // The summaries phase

  /** The smallest range holding both. */
  function Hull(a: Range, b: Range): (h: Range)
    ensures h.low <= a.low && h.low <= b.low && h.high >= a.high && h.high >= b.high
    ensures (h.low == a.low || h.low == b.low) && (h.high == a.high || h.high == b.high)
  {
    Range(if a.low < b.low then a.low else b.low, if a.high > b.high then a.high else b.high)
  }

  lemma OthersKeptTrans<V>(a: map<Key, V>, b: map<Key, V>, c: map<Key, V>, sid: int)
    requires OthersKept(a, b, sid) && OthersKept(b, c, sid)
    ensures OthersKept(a, c, sid)
  {
  }

  /** The minute summaries depend on the readings and the directory only. */
  lemma MinuteSummariesFrame(a: Store, b: Store, stats: Stats, name: string, range: Range)
    requires a.records == b.records && a.sensors == b.sensors
    ensures MinuteSummaries(a, stats, name, range) == MinuteSummaries(b, stats, name, range)
  {
  }

  /** The sensor's rows outside both windows are as they were. */
  ghost predicate KeptOutside<V>(t: map<Key, V>, r: map<Key, V>, sid: int, a: Range, b: Range) {
    forall k :: k in t && k.sensor == sid && !(a.low <= k.stamp <= a.high) && !(b.low <= k.stamp <= b.high) ==>
      k in r && r[k] == t[k]
  }

  /** Two rebuilds in a row keep the rows outside both windows, leave only
      the second rebuild's summaries inside the second window, and keep the
      first rebuild's summaries that begin outside it. */
  lemma RebuiltTwice(t: SummaryTable, m: SummaryTable, r: SummaryTable, sid: int, s1: seq<Summary>, w1: Range, s2: seq<Summary>, w2: Range)
    requires Rebuilt(t, m, sid, s1, w1) && Rebuilt(m, r, sid, s2, w2)
    ensures KeptOutside(t, r, sid, w1, w2)
    ensures OnlyNewIn(r, sid, s2, w2)
    ensures HoldsOutside(r, sid, s1, w2)
  {
    forall k | k in t && k.sensor == sid && !(w1.low <= k.stamp <= w1.high) && !(w2.low <= k.stamp <= w2.high)
      ensures k in r && r[k] == t[k]
    {
      RebuiltMeaning(t, m, sid, s1, w1, k);
      RebuiltMeaning(m, r, sid, s2, w2, k);
    }
    if w2.Span() != 0 {
      forall k | k in r && k.sensor == sid && w2.low <= k.stamp <= w2.high
        ensures exists i :: 0 <= i < |s2| && s2[i].begin == k.stamp && r[k] == s2[i]
      {
        RebuiltMeaning(m, r, sid, s2, w2, k);
      }
    }
    forall i | 0 <= i < |s1| && !(w2.low <= s1[i].begin <= w2.high)
      ensures Key(sid, s1[i].begin) in r && r[Key(sid, s1[i].begin)] == s1[i]
    {
      RebuiltMeaning(m, r, sid, s2, w2, Key(sid, s1[i].begin));
    }
  }

  /** What a successful rebuild leaves in both summary tables: for
      overlapping ranges exactly the rebuild over the hull. For disjoint
      ones: the corrected range's summaries and nothing older inside its
      window, the current range's summaries that begin outside that window,
      and the sensor's rows outside both windows as they were. */
  ghost predicate SummariesRebuilt(st: Store, st': Store, stats: Stats, name: string, sid: int, cur: Range, cor: Range) {
    if cur.Intersects(cor) then
      && Rebuilt(st.minute, st'.minute, sid, MinuteSummaries(st', stats, name, Hull(cur, cor)), AlignedWindow(Hull(cur, cor)))
      && Rebuilt(st.tenMinute, st'.tenMinute, sid,
           TenMinuteSummaries(stats, MinuteSummaries(st', stats, name, Hull(cur, cor))), AlignedWindow(Hull(cur, cor)))
    else
      && Holds(st'.minute, sid, MinuteSummaries(st', stats, name, cor))
      && Holds(st'.tenMinute, sid, TenMinuteSummaries(stats, MinuteSummaries(st', stats, name, cor)))
      && KeptOutside(st.minute, st'.minute, sid, AlignedWindow(cur), AlignedWindow(cor))
      && KeptOutside(st.tenMinute, st'.tenMinute, sid, AlignedWindow(cur), AlignedWindow(cor))
      && OnlyNewIn(st'.minute, sid, MinuteSummaries(st', stats, name, cor), AlignedWindow(cor))
      && OnlyNewIn(st'.tenMinute, sid, TenMinuteSummaries(stats, MinuteSummaries(st', stats, name, cor)), AlignedWindow(cor))
      && HoldsOutside(st'.minute, sid, MinuteSummaries(st', stats, name, cur), AlignedWindow(cor))
      && HoldsOutside(st'.tenMinute, sid, TenMinuteSummaries(stats, MinuteSummaries(st', stats, name, cur)), AlignedWindow(cor))
  }

  /** Overlapping ranges are rebuilt once over their hull, disjoint ones
      each on its own, the current range first. */
  method RebuildSummaries(st: Store, stats: Stats, name: string, sid: int, cur: Range, cor: Range)
    returns (st': Store, res: Result<bool>)
    ensures st'.records == st.records && st'.sensors == st.sensors && st'.nextSensorId == st.nextSensorId
    ensures st'.hour == st.hour && st'.day == st.day && st'.syncStamps == st.syncStamps
    ensures res.Ok? ==> res.value
    ensures res.Err? ==> res.error == ConstraintViolation
    ensures res.Ok? ==> SummariesRebuilt(st, st', stats, name, sid, cur, cor)
    ensures OthersKept(st.minute, st'.minute, sid) && OthersKept(st.tenMinute, st'.tenMinute, sid)
  {
    if cur.Intersects(cor) {
      st', res := UpdateSummaryRecords(st, stats, Hull(cur, cor), name, sid);
      MinuteSummariesFrame(st, st', stats, name, Hull(cur, cor));
      return;
    }
    var first, res1 := UpdateSummaryRecords(st, stats, cur, name, sid);
    if res1.Err? {
      return first, res1;
    }
    st', res := UpdateSummaryRecords(first, stats, cor, name, sid);
    MinuteSummariesFrame(first, st', stats, name, cor);
    MinuteSummariesFrame(st, st', stats, name, cur);
    OthersKeptTrans(st.minute, first.minute, st'.minute, sid);
    OthersKeptTrans(st.tenMinute, first.tenMinute, st'.tenMinute, sid);
    if res.Ok? {
      var m1 := MinuteSummaries(st, stats, name, cur);
      var m2 := MinuteSummaries(first, stats, name, cor);
      RebuiltTwice(st.minute, first.minute, st'.minute, sid, m1, AlignedWindow(cur), m2, AlignedWindow(cor));
      RebuiltTwice(st.tenMinute, first.tenMinute, st'.tenMinute, sid,
        TenMinuteSummaries(stats, m1), AlignedWindow(cur), TenMinuteSummaries(stats, m2), AlignedWindow(cor));
    }
  }

  // ---------------------------------------------------------------------
  // AdjustTimeStamps

  /** Both phases, once the guard has let the call through. */
  method AdjustAndRebuild(st: Store, stats: Stats, name: string, sid: int, cur: Range, cor: Range)
    returns (st': Store, res: Result<bool>)
    ensures st'.sensors == st.sensors && st'.nextSensorId == st.nextSensorId
    ensures st'.hour == st.hour && st'.day == st.day && st'.syncStamps == st.syncStamps
    ensures res.Err? ==> res.error == DivideByZero || res.error == ConstraintViolation
    ensures res == Err(DivideByZero) ==>
      st'.minute == st.minute && st'.tenMinute == st.tenMinute && st'.records == Moved(st.records, sid, cur, OffsetOf(cur, cor))
    ensures res.Ok? ==> RecordsAdjusted(st.records, st'.records, res.value, sid, cur, cor)
    ensures res.Ok? ==> SummariesRebuilt(st, st', stats, name, sid, cur, cor)
    ensures OthersKept(st.minute, st'.minute, sid) && OthersKept(st.tenMinute, st'.tenMinute, sid)
  {
    var records, recordsOk := AdjustRecords(st.records, sid, cur, cor);
    var adjusted := st.(records := records);
    if recordsOk.Err? {
      return adjusted, recordsOk;
    }
    var summariesOk;
    st', summariesOk := RebuildSummaries(adjusted, stats, name, sid, cur, cor);
    if summariesOk.Err? {
      return st', summariesOk;
    }
    return st', Ok(recordsOk.value && summariesOk.value);
  }

  /** `AdjustTimeStamps(sensorName, currentRange, correctedRange,
      canOverwrite)`. */
  method AdjustTimeStamps(st: Store, stats: Stats, name: string, cur: Range, cor: Range, canOverwrite: bool)
    returns (st': Store, res: Result<bool>)
    // nothing to do: false, before any lookup
    ensures NoChange(cur, cor) ==> st' == st && res == Ok(false)
    // an unknown sensor raises before any row changes
    ensures !NoChange(cur, cor) && LookupId(st, name) < 0 ==> st' == st && res == Err(KeyNotFound)
    // the guard raises exactly when it finds a record in the way, and changes nothing
    ensures res == Err(InvalidOperation) <==>
      !NoChange(cur, cor) && LookupId(st, name) >= 0 && Blocked(st.records, LookupId(st, name), cur, cor, canOverwrite)
    ensures res == Err(InvalidOperation) ==> st' == st
    // the directory, the hour and day tables and the sync log are never touched
    ensures st'.sensors == st.sensors && st'.nextSensorId == st.nextSensorId
    ensures st'.hour == st.hour && st'.day == st.day && st'.syncStamps == st.syncStamps
    // the expansion over a span of 1 raises before any summary is rebuilt
    ensures res == Err(DivideByZero) ==>
      st'.minute == st.minute && st'.tenMinute == st.tenMinute
      && st'.records == Moved(st.records, LookupId(st, name), cur, OffsetOf(cur, cor))
    // success: the records as the phase leaves them, the answer its flag
    ensures res.Ok? && !NoChange(cur, cor) ==>
      RecordsAdjusted(st.records, st'.records, res.value, LookupId(st, name), cur, cor)
    // and the summaries rebuilt over the hull, or over each range when they are disjoint
    ensures res.Ok? && !NoChange(cur, cor) ==> SummariesRebuilt(st, st', stats, name, LookupId(st, name), cur, cor)
    ensures OthersKept(st.minute, st'.minute, LookupId(st, name)) && OthersKept(st.tenMinute, st'.tenMinute, LookupId(st, name))
  {
    var delta := cor.Span() - cur.Span();
    var offset := cor.low - cur.low;
    if delta == 0 && offset == 0 {
      return st, Ok(false);
    }
    var sid := LookupId(st, name);
    if sid < 0 {
      return st, Err(KeyNotFound);
    }
    if !canOverwrite && (cor.low < cur.low || cor.high > cur.high) {
      if exists k :: k in st.records && GuardHit(k, sid, cur, cor) {
        return st, Err(InvalidOperation);
      }
    }
    st', res := AdjustAndRebuild(st, stats, name, sid, cur, cor);
  }
}
