/**
 The summary pipeline: ten-minute periods, the grouping of minute summaries
 into ten-minute groups, the delete-then-insert rebuild of a summary table,
 `UpdateSummaryRecords`, and the choice of summary resolution for reads.

 `StatsUtil.Summarize` and `StatsUtil.Combine` are not part of this model:
 they are the two functions of a `Stats` value, about which nothing is
 assumed.
 */
module Summaries {
  import opened Schema
  import opened Sql
  import opened Batch
  import opened Query
  import opened Arith

  /** `StatsUtil.Summarize(readings, TimeUnit.Minute)` and `StatsUtil.Combine`. */
  datatype Stats = Stats(summarize: seq<Reading> -> seq<Summary>, combine: seq<Summary> -> Summary)

  // ---------------------------------------------------------------------
  // Ten-minute periods

  /** `PeriodTenMinutes`: the date, hour and minute rounded down to a
      multiple of ten, seconds dropped. In POSIX seconds this is the start of
      the ten-minute slot holding `t`. */
  function PeriodTenMinutes(t: int): (p: int)
    ensures p <= t < p + TenMinutes
    ensures p % TenMinutes == 0
  {
    t - t % TenMinutes
  }

  /** The slot start is the only multiple of ten minutes in the ten minutes
      up to `t`; in particular the rounding is idempotent, and slots agree
      with the `DateTime` calendar, whose origin is itself a slot start. */
  lemma PeriodUnique(t: int, p: int)
    requires p % TenMinutes == 0 && p <= t < p + TenMinutes
    ensures PeriodTenMinutes(t) == p
  {
    var q := PeriodTenMinutes(t);
    assert (q - p) % TenMinutes == 0;
    assert -TenMinutes < q - p < TenMinutes;
  }

  lemma PeriodIdempotent(t: int)
    ensures PeriodTenMinutes(PeriodTenMinutes(t)) == PeriodTenMinutes(t)
    ensures (PeriodTenMinutes(t) - DateTimeZero) % TenMinutes == 0
  {
    PeriodUnique(PeriodTenMinutes(t), PeriodTenMinutes(t));
  }

  // ---------------------------------------------------------------------
  // Grouping minute summaries

  function Period(s: Summary): int { PeriodTenMinutes(s.begin) }

  /** Every group is non-empty and its members share the ten-minute period
      of its first member. */
  predicate WellGrouped(groups: seq<seq<Summary>>) {
    forall g :: g in groups ==> |g| > 0 && forall s :: s in g ==> Period(s) == Period(g[0])
  }

  predicate OnePeriod(cur: seq<Summary>) {
    forall s :: s in cur ==> Period(s) == Period(cur[0])
  }

  /** The grouping loop of `UpdateSummaryRecords`, from element `i` on, with
      the finished groups and the group being filled. A summary whose period
      differs from the current group's closes that group and is itself put
      in no group; the next summary opens a new one. */
  function GroupFrom(ms: seq<Summary>, i: nat, groups: seq<seq<Summary>>, cur: seq<Summary>): seq<seq<Summary>>
    requires i <= |ms|
    decreases |ms| - i
  {
    if i == |ms| then
      (if |cur| > 0 then groups + [cur] else groups)
    else if |cur| == 0 || Period(cur[0]) == Period(ms[i]) then
      GroupFrom(ms, i + 1, groups, cur + [ms[i]])
    else
      GroupFrom(ms, i + 1, groups + [cur], [])
  }

  function Group(ms: seq<Summary>): seq<seq<Summary>>
  {
    GroupFrom(ms, 0, [], [])
  }

  /** The loop keeps its groups well formed. */
  lemma {:induction false} GroupFromWellGrouped(ms: seq<Summary>, i: nat, groups: seq<seq<Summary>>, cur: seq<Summary>)
    requires i <= |ms|
    requires WellGrouped(groups) && OnePeriod(cur)
    ensures WellGrouped(GroupFrom(ms, i, groups, cur))
    decreases |ms| - i
  {
    if i == |ms| {
    } else if |cur| == 0 || Period(cur[0]) == Period(ms[i]) {
      GroupFromWellGrouped(ms, i + 1, groups, cur + [ms[i]]);
    } else {
      GroupFromWellGrouped(ms, i + 1, groups + [cur], []);
    }
  }

  /** Every ten-minute group is non-empty and lies within one period. */
  lemma GroupWellGrouped(ms: seq<Summary>)
    ensures WellGrouped(Group(ms))
  {
    GroupFromWellGrouped(ms, 0, [], []);
  }

  /** The finished groups are carried along untouched. */
  lemma {:induction false} GroupFromAccum(ms: seq<Summary>, i: nat, groups: seq<seq<Summary>>, cur: seq<Summary>)
    requires i <= |ms|
    ensures GroupFrom(ms, i, groups, cur) == groups + GroupFrom(ms, i, [], cur)
    decreases |ms| - i
  {
    if i < |ms| {
      if |cur| == 0 || Period(cur[0]) == Period(ms[i]) {
        GroupFromAccum(ms, i + 1, groups, cur + [ms[i]]);
      } else {
        assert [] + [cur] == [cur];
        GroupFromAccum(ms, i + 1, groups + [cur], []);
        GroupFromAccum(ms, i + 1, [cur], []);
      }
    }
  }

  /** Only the input from element `i` on matters. */
  lemma {:induction false} GroupFromDrop(ms: seq<Summary>, d: nat, i: nat, groups: seq<seq<Summary>>, cur: seq<Summary>)
    requires d <= i <= |ms|
    ensures GroupFrom(ms, i, groups, cur) == GroupFrom(ms[d..], i - d, groups, cur)
    decreases |ms| - i
  {
    if i < |ms| {
      assert ms[d..][i - d] == ms[i];
      if |cur| == 0 || Period(cur[0]) == Period(ms[i]) {
        GroupFromDrop(ms, d, i + 1, groups, cur + [ms[i]]);
      } else {
        GroupFromDrop(ms, d, i + 1, groups + [cur], []);
      }
    }
  }

  /** Filling one group from a run of the same period. */
  lemma {:induction false} GroupFromRun(ms: seq<Summary>, run: nat, i: nat)
    requires 0 < i <= run <= |ms|
    requires forall j :: 0 <= j < run ==> Period(ms[j]) == Period(ms[0])
    ensures OnePeriod(ms[..i])
    ensures GroupFrom(ms, i, [], ms[..i]) == GroupFrom(ms, run, [], ms[..run])
    decreases run - i
  {
    if i < run {
      assert ms[..i] + [ms[i]] == ms[..i + 1];
      GroupFromRun(ms, run, i + 1);
    }
  }

  lemma GroupEmpty()
    ensures Group([]) == []
  {
  }

  /** A run of one period makes one group. */
  lemma GroupOneRun(run: seq<Summary>)
    requires |run| > 0 && OnePeriod(run)
    ensures Group(run) == [run]
  {
    assert run[..1] == [run[0]];
    assert forall j :: 0 <= j < |run| ==> Period(run[j]) == Period(run[0]) by {
      forall j | 0 <= j < |run| ensures Period(run[j]) == Period(run[0]) {
        assert run[j] in run;
      }
    }
    assert GroupFrom(run, 0, [], []) == GroupFrom(run, 1, [], [] + [run[0]]);
    assert [] + [run[0]] == run[..1];
    GroupFromRun(run, |run|, 1);
    assert run[..|run|] == run;
    assert GroupFrom(run, |run|, [], run) == [] + [run];
  }

  /** The summary `x` that ends a run of another period is dropped: the run
      is one group and grouping starts afresh after `x`. With `GroupEmpty`
      and `GroupOneRun` this determines the grouping of every input. */
  lemma GroupDropsTrigger(run: seq<Summary>, x: Summary, rest: seq<Summary>)
    requires |run| > 0 && OnePeriod(run) && Period(x) != Period(run[0])
    ensures Group(run + [x] + rest) == [run] + Group(rest)
  {
    var ms := run + [x] + rest;
    assert forall j :: 0 <= j < |run| ==> Period(ms[j]) == Period(ms[0]) by {
      forall j | 0 <= j < |run| ensures Period(ms[j]) == Period(ms[0]) {
        assert ms[j] == run[j] && run[j] in run;
      }
    }
    assert GroupFrom(ms, 0, [], []) == GroupFrom(ms, 1, [], [] + [ms[0]]);
    assert [] + [ms[0]] == ms[..1];
    GroupFromRun(ms, |run|, 1);
    assert ms[..|run|] == run;
    assert ms[|run|] == x;
    assert GroupFrom(ms, |run|, [], run) == GroupFrom(ms, |run| + 1, [] + [run], []);
    assert [] + [run] == [run];
    GroupFromAccum(ms, |run| + 1, [run], []);
    GroupFromDrop(ms, |run| + 1, |run| + 1, [], []);
    assert ms[|run| + 1..] == rest;
  }

  /** The ten-minute summaries: each group combined, its begin moved to the
      start of its period. */
  function TenMinuteSummaries(stats: Stats, minutes: seq<Summary>): (r: seq<Summary>)
    ensures |r| == |Group(minutes)|
    ensures forall i :: 0 <= i < |r| ==>
      var c := stats.combine(Group(minutes)[i]);
      r[i] == Summary(PeriodTenMinutes(c.begin), c.count, c.stats) && r[i].begin % TenMinutes == 0
  {
    var groups := Group(minutes);
    seq(|groups|, i requires 0 <= i < |groups| =>
      var c := stats.combine(groups[i]);
      Summary(PeriodTenMinutes(c.begin), c.count, c.stats))
  }

  /** Rounding down to the period keeps the order of stamps. */
  lemma PeriodMono(a: int, b: int)
    requires a <= b
    ensures PeriodTenMinutes(a) <= PeriodTenMinutes(b)
  {
    var pa, pb := PeriodTenMinutes(a), PeriodTenMinutes(b);
    assert (pa - pb) % TenMinutes == 0;
    assert pa - pb < TenMinutes;
  }

  /** Begins in nondecreasing order, as the summaries of readings read in
      ascending order come. */
  predicate Nondecreasing(ms: seq<Summary>) {
    forall a, b :: 0 <= a <= b < |ms| ==> ms[a].begin <= ms[b].begin
  }

  /** The period of a group's first member; 0 for the empty group, which the
      grouping never makes. */
  function Lead(g: seq<Summary>): int {
    if |g| > 0 then Period(g[0]) else 0
  }

  predicate LeadsAscending(groups: seq<seq<Summary>>) {
    forall a, b :: 0 <= a < b < |groups| ==> Lead(groups[a]) < Lead(groups[b])
  }

  /** Every summary from `i` on has a period above `p`. */
  predicate PeriodsAbove(ms: seq<Summary>, i: nat, p: int) {
    forall k :: i <= k < |ms| ==> p < Period(ms[k])
  }

  /** Every summary from `i` on has a period at least `p`. */
  predicate PeriodsFrom(ms: seq<Summary>, i: nat, p: int) {
    forall k :: i <= k < |ms| ==> p <= Period(ms[k])
  }

  lemma PeriodsFromAt(ms: seq<Summary>, i: nat)
    requires Nondecreasing(ms) && i < |ms|
    ensures PeriodsFrom(ms, i, Period(ms[i]))
  {
    forall k | i <= k < |ms| ensures Period(ms[i]) <= Period(ms[k]) {
      PeriodMono(ms[i].begin, ms[k].begin);
    }
  }

  /** The grouping loop over nondecreasing input closes groups in strictly
      increasing period order: a group is closed only by a summary of a
      later period, and every later summary is at least that late. */
  lemma {:induction false} GroupFromAscending(ms: seq<Summary>, i: nat, groups: seq<seq<Summary>>, cur: seq<Summary>)
    requires i <= |ms| && Nondecreasing(ms)
    requires LeadsAscending(groups)
    requires |groups| > 0 ==> PeriodsAbove(ms, i, Lead(groups[|groups| - 1]))
    requires |groups| > 0 && |cur| > 0 ==> Lead(groups[|groups| - 1]) < Lead(cur)
    requires |cur| > 0 ==> PeriodsFrom(ms, i, Lead(cur))
    ensures LeadsAscending(GroupFrom(ms, i, groups, cur))
    decreases |ms| - i
  {
    if i == |ms| {
    } else if |cur| == 0 || Period(cur[0]) == Period(ms[i]) {
      var cur' := cur + [ms[i]];
      assert Lead(cur') == Period(ms[i]) by {
        assert cur'[0] == if |cur| == 0 then ms[i] else cur[0];
      }
      PeriodsFromAt(ms, i);
      GroupFromAscending(ms, i + 1, groups, cur');
    } else {
      var groups' := groups + [cur];
      assert Lead(cur) < Period(ms[i]);
      PeriodsFromAt(ms, i);
      GroupFromAscending(ms, i + 1, groups', []);
    }
  }

  /** The ten-minute groups of nondecreasing minute summaries come in
      strictly increasing period order, so no two share a period. */
  lemma GroupLeadsAscending(ms: seq<Summary>)
    requires Nondecreasing(ms)
    ensures LeadsAscending(Group(ms))
  {
    GroupFromAscending(ms, 0, [], []);
  }

  /** `StatsUtil.Combine` is not part of this model. The property below
      assumes only that each combined summary begins between the first and
      the last begin of its group. */
  predicate CombineWithin(stats: Stats, groups: seq<seq<Summary>>) {
    forall i :: 0 <= i < |groups| && |groups[i]| > 0 ==>
      groups[i][0].begin <= stats.combine(groups[i]).begin <= groups[i][|groups[i]| - 1].begin
  }

  /** Ten-minute summaries built from nondecreasing minute summaries each
      begin at their group's period, and their begins strictly increase.
      So the rebuild's ten-minute rows have pairwise distinct keys and never
      collide with one another. */
  lemma TenMinuteBeginsAscending(stats: Stats, minutes: seq<Summary>)
    requires Nondecreasing(minutes) && CombineWithin(stats, Group(minutes))
    ensures var r := TenMinuteSummaries(stats, minutes);
      && (forall i :: 0 <= i < |r| ==> r[i].begin == Lead(Group(minutes)[i]))
      && (forall i, j :: 0 <= i < j < |r| ==> r[i].begin < r[j].begin)
  {
    var gs, r := Group(minutes), TenMinuteSummaries(stats, minutes);
    GroupWellGrouped(minutes);
    GroupLeadsAscending(minutes);
    forall i | 0 <= i < |r| ensures r[i].begin == Lead(gs[i]) {
      var g := gs[i];
      assert g in gs;
      var last := g[|g| - 1];
      assert last in g;
      var c := stats.combine(g);
      PeriodMono(g[0].begin, c.begin);
      PeriodMono(c.begin, last.begin);
    }
  }

  /** Hence the INSERT rows of a ten-minute rebuild never share a key: only
      a row already in the table can make that INSERT raise. */
  lemma TenMinuteRowsDistinct(stats: Stats, minutes: seq<Summary>, sid: int)
    requires Nondecreasing(minutes) && CombineWithin(stats, Group(minutes))
    ensures var rows := SummaryRows(sid, TenMinuteSummaries(stats, minutes));
      forall i, j :: 0 <= i < j < |rows| ==> rows[i].0 != rows[j].0
  {
    TenMinuteBeginsAscending(stats, minutes);
  }

  // ---------------------------------------------------------------------
  // Rebuilding a summary table

  /** The summary table once the rebuild's DELETE has run: the sensor's rows
      in [low, high] go, unless the window has span 0, when the DELETE is
      skipped. */
  function Cleared(t: SummaryTable, sid: int, window: Range): (r: SummaryTable)
    ensures window.Span() == 0 ==> r == t
    ensures window.Span() != 0 ==> forall k :: k in r <==>
      k in t && !(k.sensor == sid && window.low <= k.stamp <= window.high)
    ensures forall k :: k in r ==> k in t && r[k] == t[k]
  {
    if window.Span() != 0 then DeleteSensorStamps(t, sid, window.low, window.high + 1) else t
  }

  /** One INSERT row per summary, keyed by the sensor and the summary's begin. */
  function SummaryRows(sid: int, summaries: seq<Summary>): (rows: seq<(Key, Summary)>)
    ensures |rows| == |summaries|
    ensures forall i :: 0 <= i < |rows| ==> rows[i] == (Key(sid, summaries[i].begin), summaries[i])
  {
    seq(|summaries|, i requires 0 <= i < |summaries| => (Key(sid, summaries[i].begin), summaries[i]))
  }

  /** Every summary is stored under the sensor and its begin. */
  predicate Holds(table: SummaryTable, sid: int, summaries: seq<Summary>) {
    forall i :: 0 <= i < |summaries| ==>
      Key(sid, summaries[i].begin) in table && table[Key(sid, summaries[i].begin)] == summaries[i]
  }

  /** `r` is `t` rebuilt over `window` with `summaries`: the cleared table
      plus exactly one row per summary, the cleared rows unchanged. */
  ghost predicate Rebuilt(t: SummaryTable, r: SummaryTable, sid: int, summaries: seq<Summary>, window: Range) {
    && Holds(r, sid, summaries)
    && r.Keys == Cleared(t, sid, window).Keys + RowKeys(SummaryRows(sid, summaries), |summaries|)
    && (forall k :: k in Cleared(t, sid, window) ==> r[k] == t[k])
  }

  /** After a rebuild, every row outside the sensor's window is as it was,
      and a row of the sensor inside the window (of non-zero span) is one of
      the new summaries: no stale row survives. */
  lemma RebuiltMeaning(t: SummaryTable, r: SummaryTable, sid: int, summaries: seq<Summary>, window: Range, k: Key)
    requires Rebuilt(t, r, sid, summaries, window)
    ensures k in t && !(k.sensor == sid && window.low <= k.stamp <= window.high) ==> k in r && r[k] == t[k]
    ensures window.Span() != 0 && k in r && k.sensor == sid && window.low <= k.stamp <= window.high ==>
      exists i :: 0 <= i < |summaries| && summaries[i].begin == k.stamp && r[k] == summaries[i]
  {
    var rows := SummaryRows(sid, summaries);
    RowKeysIndex(rows, |rows|, k);
  }

  /** Inside `w`, when its span is not 0, every row of the sensor is one of
      the summaries: no older row is left there. */
  ghost predicate OnlyNewIn(r: SummaryTable, sid: int, summaries: seq<Summary>, w: Range) {
    w.Span() != 0 ==>
      forall k :: k in r && k.sensor == sid && w.low <= k.stamp <= w.high ==>
        exists i :: 0 <= i < |summaries| && summaries[i].begin == k.stamp && r[k] == summaries[i]
  }

  /** Every summary that begins outside `w` is stored under the sensor. */
  ghost predicate HoldsOutside(r: SummaryTable, sid: int, summaries: seq<Summary>, w: Range) {
    forall i :: 0 <= i < |summaries| && !(w.low <= summaries[i].begin <= w.high) ==>
      Key(sid, summaries[i].begin) in r && r[Key(sid, summaries[i].begin)] == summaries[i]
  }

  /** The rows of every sensor but `sid` are as they were. */
  ghost predicate OthersKept<V>(t: map<Key, V>, r: map<Key, V>, sid: int) {
    forall k: Key :: k.sensor != sid ==> (k in r <==> k in t) && (k in t ==> r[k] == t[k])
  }

  /** The INSERTs of all summaries went through: the rows were fresh, and
      the table is the cleared one plus the summaries. */
  lemma PushedAll(t: SummaryTable, sid: int, summaries: seq<Summary>, window: Range)
    requires Applied(Cleared(t, sid, window), SummaryRows(sid, summaries), Plain, |summaries|).Ok?
    ensures Fresh(Cleared(t, sid, window), SummaryRows(sid, summaries), |summaries|)
    ensures var r := Applied(Cleared(t, sid, window), SummaryRows(sid, summaries), Plain, |summaries|).value;
      && Holds(r, sid, summaries)
      && r.Keys == Cleared(t, sid, window).Keys + RowKeys(SummaryRows(sid, summaries), |summaries|)
      && (forall k :: k in Cleared(t, sid, window) ==> r[k] == t[k])
      && OthersKept(t, r, sid)
  {
    var start, rows := Cleared(t, sid, window), SummaryRows(sid, summaries);
    PlainAll(start, rows, |rows|);
    PlainFresh(start, rows, |rows|);
    KeepsOtherSensors(start, rows, Plain, |rows|, sid);
  }

  /** The INSERT of summary `f` raised: the rows were not fresh, and the
      batches committed before it touched no other sensor. */
  lemma PushedSome(t: SummaryTable, sid: int, summaries: seq<Summary>, window: Range, f: nat)
    requires f < |summaries|
    requires Applied(Cleared(t, sid, window), SummaryRows(sid, summaries), Plain, f + 1).Err?
    ensures !Fresh(Cleared(t, sid, window), SummaryRows(sid, summaries), |summaries|)
    ensures var c := f / RecordBatchQuantity;
      var done := Applied(Cleared(t, sid, window), SummaryRows(sid, summaries), Plain, c * RecordBatchQuantity);
      c > 0 && done.Ok? ==> OthersKept(t, done.value, sid)
  {
    var start, rows := Cleared(t, sid, window), SummaryRows(sid, summaries);
    ErrSticks(start, rows, Plain, f + 1, |rows|);
    PlainAll(start, rows, |rows|);
    var c := f / RecordBatchQuantity;
    DivFloor(f, RecordBatchQuantity);
    if Applied(start, rows, Plain, c * RecordBatchQuantity).Ok? {
      KeepsOtherSensors(start, rows, Plain, c * RecordBatchQuantity, sid);
    }
  }

  /** `PushSummaries`: delete the sensor's rows in the window (skipped for a
      span of 0), then a plain INSERT of every summary, committed in batches.
      A summary whose begin is still taken raises; the open transaction is
      lost, and with it the DELETE when no batch was committed yet. */
  method PushSummaries(t: SummaryTable, sid: int, summaries: seq<Summary>, window: Range)
    returns (r: SummaryTable, res: Result<bool>)
    ensures res.Ok? <==> Fresh(Cleared(t, sid, window), SummaryRows(sid, summaries), |summaries|)
    ensures res.Ok? ==> res.value
    ensures res.Err? ==> res.error == ConstraintViolation
    // success: the cleared table plus exactly the summaries
    ensures res.Ok? ==> Holds(r, sid, summaries)
    ensures res.Ok? ==> r.Keys == Cleared(t, sid, window).Keys + RowKeys(SummaryRows(sid, summaries), |summaries|)
    ensures res.Ok? ==> forall k :: k in Cleared(t, sid, window) ==> r[k] == t[k]
    // failure: nothing is rolled back past the last commit
    ensures res.Err? && |summaries| < RecordBatchQuantity ==> r == t
    ensures OthersKept(t, r, sid)
  {
    var start := Cleared(t, sid, window);
    var rows := SummaryRows(sid, summaries);
    var failed, commits;
    r, failed, commits := WriteBatched(t, start, rows, Plain, None);
    if failed.Some? {
      assert Applied(start, rows, Plain, failed.value + 1).Err?;
      PushedSome(t, sid, summaries, window, failed.value);
      return r, Err(ConstraintViolation);
    }
    PushedAll(t, sid, summaries, window);
    return r, Ok(true);
  }

  // ---------------------------------------------------------------------
  // UpdateSummaryRecords

  /** The window a rebuild covers: from the start of the ten-minute slot of
      `range.low` to the end of the slot of `range.high`. */
  function AlignedWindow(range: Range): (w: Range)
    ensures w.low <= range.low && w.low % TenMinutes == 0 && range.low - w.low < TenMinutes
    ensures w.high > range.high && w.high % TenMinutes == 0 && w.high - range.high <= TenMinutes
  {
    Range(PeriodTenMinutes(range.low), PeriodTenMinutes(range.high) + TenMinutes)
  }

  /** The window's closed upper end is the first second of the ten-minute
      slot after `range.high`'s. For a well-formed range the rebuild's
      DELETE therefore removes the sensor's row that begins that next slot,
      in both tables. */
  lemma WindowReachesNextSlot(t: SummaryTable, sid: int, range: Range)
    ensures AlignedWindow(range).high == PeriodTenMinutes(range.high) + TenMinutes
    ensures PeriodTenMinutes(AlignedWindow(range).high) == AlignedWindow(range).high > range.high
    ensures range.low <= range.high ==> Key(sid, AlignedWindow(range).high) !in Cleared(t, sid, AlignedWindow(range))
  {
    var w := AlignedWindow(range);
    PeriodUnique(w.high, w.high);
  }

  /** The minute summaries of the raw readings in the aligned window. */
  function MinuteSummaries(st: Store, stats: Stats, name: string, range: Range): seq<Summary>
  {
    var w := AlignedWindow(range);
    stats.summarize(GetReadings(st, name, w.low, w.high - w.low))
  }

  /** `UpdateSummaryRecords(range, sensorName, sensorId)`: read the raw
      readings of the aligned window, summarise them per minute, rebuild the
      minute table over the window, group and combine into ten-minute
      summaries, rebuild the ten-minute table. A rebuild that raises ends
      the call with that error. */
  method UpdateSummaryRecords(st: Store, stats: Stats, range: Range, name: string, sid: int)
    returns (st': Store, res: Result<bool>)
    ensures st'.records == st.records && st'.sensors == st.sensors && st'.nextSensorId == st.nextSensorId
    ensures st'.hour == st.hour && st'.day == st.day && st'.syncStamps == st.syncStamps
    ensures res.Ok? ==> res.value
    ensures res.Err? ==> res.error == ConstraintViolation
    // success: both tables are exactly the rebuild over the aligned window
    ensures res.Ok? ==> Rebuilt(st.minute, st'.minute, sid, MinuteSummaries(st, stats, name, range), AlignedWindow(range))
    ensures res.Ok? ==>
      Rebuilt(st.tenMinute, st'.tenMinute, sid, TenMinuteSummaries(stats, MinuteSummaries(st, stats, name, range)), AlignedWindow(range))
    // other sensors' summaries are never touched
    ensures OthersKept(st.minute, st'.minute, sid) && OthersKept(st.tenMinute, st'.tenMinute, sid)
  {
    var w := AlignedWindow(range);
    var minutes := MinuteSummaries(st, stats, name, range);
    var minute, minsOk := PushSummaries(st.minute, sid, minutes, w);
    st' := st.(minute := minute);
    if minsOk.Err? {
      return st', minsOk;
    }
    var tens := TenMinuteSummaries(stats, minutes);
    var tenMinute, tenMinsOk := PushSummaries(st.tenMinute, sid, tens, w);
    st' := st'.(tenMinute := tenMinute);
    if tenMinsOk.Err? {
      return st', tenMinsOk;
    }
    return st', Ok(minsOk.value && tenMinsOk.value);
  }

  // ---------------------------------------------------------------------
  // Choosing the summary resolution

  /** The `for` loop of `ChooseBestSummaryTimeSpan` from index `i`: the first
      entry not above `desired` decides between itself and its successor by
      strict distance, ties going to the successor. Falling off the end
      gives `default(TimeSpan)`. */
  function ScanSpans(spans: seq<int>, desired: int, i: nat): int
    requires |spans| > 0
    decreases |spans| - i
  {
    if i >= |spans| - 1 then 0
    else if spans[i] <= desired then
      (if Abs(spans[i] - desired) < Abs(spans[i + 1] - desired) then spans[i] else spans[i + 1])
    else ScanSpans(spans, desired, i + 1)
  }

  function Abs(x: int): int { if x < 0 then -x else x }

  /** `ChooseBestSummaryTimeSpan`, over the tick counts of `spans`. */
  function ChooseBestSummaryTimeSpan(spans: seq<int>, desired: int): (best: int)
    ensures spans == [] ==> best == 0
    ensures |spans| > 0 && desired <= spans[0] ==> best == spans[0]
    ensures |spans| > 0 && spans[0] < desired && desired >= spans[|spans| - 1] ==> best == spans[|spans| - 1]
  {
    if |spans| > 0 then
      var lasti := |spans| - 1;
      if desired <= spans[0] then spans[0]
      else if desired >= spans[lasti] then spans[lasti]
      else ScanSpans(spans, desired, 0)
    else 0
  }

  /** Past the two clamps the loop never gets beyond its first iteration:
      the answer is the nearer of the first two entries, a tie going to the
      second, whatever the later entries are. */
  lemma ChooseFirstPair(spans: seq<int>, desired: int)
    requires |spans| >= 2 && spans[0] < desired < spans[|spans| - 1]
    ensures ChooseBestSummaryTimeSpan(spans, desired) ==
      if desired - spans[0] < Abs(spans[1] - desired) then spans[0] else spans[1]
  {
  }

  predicate Sorted(spans: seq<int>) {
    forall i, j :: 0 <= i < j < |spans| ==> spans[i] <= spans[j]
  }

  /** For a non-empty list the choice is always one of its entries; for a
      sorted list of two it is the strictly nearer one, the larger on a tie. */
  lemma ChooseIsEntry(spans: seq<int>, desired: int)
    requires |spans| > 0
    ensures ChooseBestSummaryTimeSpan(spans, desired) in spans
    ensures Sorted(spans) && |spans| == 2 ==>
      var best := ChooseBestSummaryTimeSpan(spans, desired);
      && Abs(best - desired) <= Abs(spans[0] - desired)
      && Abs(best - desired) <= Abs(spans[1] - desired)
      && (Abs(spans[0] - desired) == Abs(spans[1] - desired) ==> best == spans[1])
  {
  }

  /** `ValidSummaryTimeSpans`: one minute and ten minutes, in ticks. */
  const ValidSummaryTimeSpans: seq<int> := [OneMinuteTicks, TenMinutesTicks]

  /** `GetReadingSummaries`: the minute table for a one-minute choice, the
      ten-minute table for a ten-minute one, `NotSupportedException`
      otherwise. */
  function GetReadingSummaries(st: Store, name: string, from: int, span: int, desired: int): (r: Result<seq<Summary>>)
    // the `NotSupportedException` branch is never taken
    ensures r.Ok?
    ensures desired >= TenMinutesTicks ==> r == Ok(GetPackedSummaries(st, st.tenMinute, name, from, span))
    ensures desired <= OneMinuteTicks ==> r == Ok(GetPackedSummaries(st, st.minute, name, from, span))
    // in between, the nearer resolution, a tie going to ten minutes
    ensures OneMinuteTicks < desired < TenMinutesTicks ==>
      r == Ok(GetPackedSummaries(st, if desired - OneMinuteTicks < TenMinutesTicks - desired then st.minute else st.tenMinute,
                                 name, from, span))
  {
    var best := ChooseBestSummaryTimeSpan(ValidSummaryTimeSpans, desired);
    if best == OneMinuteTicks then Ok(GetPackedSummaries(st, st.minute, name, from, span))
    else if best == TenMinutesTicks then Ok(GetPackedSummaries(st, st.tenMinute, name, from, span))
    else Err(NotSupported)
  }
}
