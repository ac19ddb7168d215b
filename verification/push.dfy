/**
 `Push`: store a batch of raw readings for a named sensor and rebuild the
 summaries over the time the batch covered.

 `PushReadings` runs the `INSERT OR REPLACE` (or `INSERT OR IGNORE`) of
 every reading in batches and tracks the least and greatest stamp of the
 readings it got through. An exception — here a storage fault injected at
 one reading — is swallowed: the open transaction is rolled back and the
 bounds cover only the readings before it.
 */
module Push {
  import opened Schema
  import opened Batch
  import opened Summaries

  /** `minStamp` and `maxStamp` after the first `n` readings: each starts at
      its sentinel (9999-01-01 and `new DateTime(0)`) and moves to a stamp
      that beats it. */
  function StampBounds(readings: seq<Reading>, n: nat): (b: Range)
    requires n <= |readings|
    // the bounds enclose every reading seen
    ensures forall i :: 0 <= i < n ==> b.low <= readings[i].stamp <= b.high
    // and are the sentinels or stamps of readings seen
    ensures b.low <= MaxStampSentinel && (b.low == MaxStampSentinel || exists i :: 0 <= i < n && readings[i].stamp == b.low)
    ensures b.high >= DateTimeZero && (b.high == DateTimeZero || exists i :: 0 <= i < n && readings[i].stamp == b.high)
    decreases n
  {
    if n == 0 then Range(MaxStampSentinel, DateTimeZero)
    else
      var b := StampBounds(readings, n - 1);
      var s := readings[n - 1].stamp;
      Range(if s < b.low then s else b.low, if s > b.high then s else b.high)
  }

  /** One INSERT row per reading, keyed by the sensor and the reading's stamp. */
  function ReadingRows(sid: int, readings: seq<Reading>): (rows: seq<(Key, Packed)>)
    ensures |rows| == |readings|
    ensures forall i :: 0 <= i < |rows| ==> rows[i] == (Key(sid, readings[i].stamp), readings[i].values)
  {
    seq(|readings|, i requires 0 <= i < |readings| => (Key(sid, readings[i].stamp), readings[i].values))
  }

  function ModeOf(replace: bool): InsertMode {
    if replace then OrReplace else OrIgnore
  }

  /** How many readings `PushReadings` gets through: all of them, or those
      before the faulting one. */
  function Processed(fault: Option<nat>, len: nat): (n: nat)
    ensures n <= len
    ensures n < len <==> fault.Some? && fault.value < len
  {
    if fault.Some? && fault.value < len then fault.value else len
  }

  /** `INSERT OR REPLACE` and `INSERT OR IGNORE` never reject a row: only an
      injected fault stops them. */
  lemma ResolvingNeverFails(start: Records, rows: seq<(Key, Packed)>, replace: bool, fault: Option<nat>, f: nat)
    requires f < |rows| && Applied(start, rows, ModeOf(replace), f).Ok?
    ensures FailsAt(start, rows, ModeOf(replace), fault, f) <==> fault == Some(f)
  {
  }

  /** `PushReadings`: the `Record` table as committed and the stamp bounds
      of the readings inserted. */
  method PushReadings(t: Records, sid: int, readings: seq<Reading>, replace: bool, fault: Option<nat>)
    returns (r: Records, bounds: Range)
    ensures bounds == StampBounds(readings, Processed(fault, |readings|))
    // no fault: every reading applied in order
    ensures Processed(fault, |readings|) == |readings| ==>
      Applied(t, ReadingRows(sid, readings), ModeOf(replace), |readings|) == Ok(r)
    // a fault: the batches committed before it, none if it came in the first
    ensures Processed(fault, |readings|) < |readings| && fault.value < RecordBatchQuantity ==> r == t
    ensures Processed(fault, |readings|) < |readings| && fault.value >= RecordBatchQuantity ==>
      Applied(t, ReadingRows(sid, readings), ModeOf(replace), fault.value / RecordBatchQuantity * RecordBatchQuantity) == Ok(r)
  {
    var rows := ReadingRows(sid, readings);
    var failed, commits;
    r, failed, commits := WriteBatched(t, t, rows, ModeOf(replace), fault);
    if failed.Some? {
      ResolvingNeverFails(t, rows, replace, fault, failed.value);
      bounds := StampBounds(readings, failed.value);
    } else {
      if ModeOf(replace) == OrReplace {
        ReplaceAll(t, rows, |rows|);
      } else {
        IgnoreAll(t, rows, |rows|);
      }
      bounds := StampBounds(readings, |readings|);
    }
  }

  /** With no fault every reading ends up stored: under replace with the
      value of its last reading at that stamp, otherwise an existing row
      keeps its value and a new one takes the first reading's. */
  lemma PushedReadingsStored(t: Records, sid: int, readings: seq<Reading>, replace: bool, i: nat)
    requires i < |readings|
    ensures var rows := ReadingRows(sid, readings);
      && Applied(t, rows, ModeOf(replace), |rows|).Ok?
      && Key(sid, readings[i].stamp) in RowKeys(rows, |rows|)
      && Key(sid, readings[i].stamp) in Applied(t, rows, ModeOf(replace), |rows|).value
      && (replace ==> Applied(t, rows, ModeOf(replace), |rows|).value[Key(sid, readings[i].stamp)]
                        == LastValue(rows, |rows|, Key(sid, readings[i].stamp)))
      && (!replace && Key(sid, readings[i].stamp) in t ==>
            Applied(t, rows, ModeOf(replace), |rows|).value[Key(sid, readings[i].stamp)] == t[Key(sid, readings[i].stamp)])
  {
    var rows := ReadingRows(sid, readings);
    RowKeysIndex(rows, |rows|, rows[i].0);
    if replace {
      ReplaceAll(t, rows, |rows|);
    } else {
      IgnoreAll(t, rows, |rows|);
    }
  }

  /** The store after the INSERTs, before the summaries are rebuilt. */
  function WithRecords(st: Store, r: Records): Store {
    st.(records := r)
  }

  /** `Push(sensor, readings, replace)`. An empty name is refused, an
      unknown one is a no-op answering false; otherwise the readings are
      inserted and the summaries rebuilt over the bounds of the readings
      inserted, and the answer is the rebuild's. */
  method Push(st: Store, stats: Stats, name: string, readings: seq<Reading>, replace: bool, fault: Option<nat>)
    returns (st': Store, res: Result<bool>)
    ensures name == [] ==> res == Err(ArgumentOutOfRange) && st' == st
    ensures name != [] && name !in st.sensors ==> res == Ok(false) && st' == st
    ensures name in st.sensors ==>
      st'.sensors == st.sensors && st'.nextSensorId == st.nextSensorId && st'.hour == st.hour
      && st'.day == st.day && st'.syncStamps == st.syncStamps
    ensures name != [] && name in st.sensors && Processed(fault, |readings|) == |readings| ==>
      Applied(st.records, ReadingRows(st.sensors[name].id, readings), ModeOf(replace), |readings|) == Ok(st'.records)
    ensures name != [] && name in st.sensors && Processed(fault, |readings|) < |readings| && fault.value < RecordBatchQuantity ==>
      st'.records == st.records
    ensures name != [] && name in st.sensors && Processed(fault, |readings|) < |readings| && fault.value >= RecordBatchQuantity ==>
      Applied(st.records, ReadingRows(st.sensors[name].id, readings), ModeOf(replace),
        fault.value / RecordBatchQuantity * RecordBatchQuantity) == Ok(st'.records)
    // both summary tables are exactly rebuilt from the readings now stored around the pushed stamps
    ensures name != [] && name in st.sensors && res.Ok? ==> res.value
    ensures name != [] && name in st.sensors && res.Ok? ==>
      Rebuilt(st.minute, st'.minute, st.sensors[name].id,
        MinuteSummaries(st', stats, name, StampBounds(readings, Processed(fault, |readings|))),
        AlignedWindow(StampBounds(readings, Processed(fault, |readings|))))
    ensures name != [] && name in st.sensors && res.Ok? ==>
      Rebuilt(st.tenMinute, st'.tenMinute, st.sensors[name].id,
        TenMinuteSummaries(stats, MinuteSummaries(st', stats, name, StampBounds(readings, Processed(fault, |readings|)))),
        AlignedWindow(StampBounds(readings, Processed(fault, |readings|))))
    ensures name != [] && name in st.sensors && res.Err? ==> res.error == ConstraintViolation
    ensures name != [] && name in st.sensors ==>
      OthersKept(st.minute, st'.minute, st.sensors[name].id) && OthersKept(st.tenMinute, st'.tenMinute, st.sensors[name].id)
  {
    if name == [] {
      return st, Err(ArgumentOutOfRange);
    }
    if name !in st.sensors {
      return st, Ok(false);
    }
    var sid := st.sensors[name].id;
    var records, bounds := PushReadings(st.records, sid, readings, replace, fault);
    var pushed := WithRecords(st, records);
    st', res := UpdateSummaryRecords(pushed, stats, bounds, name, sid);
  }

  /** Pushing no readings leaves the bounds at their sentinels, the wrong way
      round; the rebuild window is then inverted, so its DELETE removes
      nothing and the INSERTs land on the summaries already there. This
      takes the sentinels as exact integers. The code's POSIX stamps are
      32-bit `int`s, which cannot hold either sentinel, so what it actually
      reads and deletes here depends on `UnitUtility`'s conversions, which
      are not part of this model. */
  lemma EmptyPushClearsNothing(t: SummaryTable, sid: int)
    ensures StampBounds([], 0) == Range(MaxStampSentinel, DateTimeZero)
    ensures AlignedWindow(StampBounds([], 0)).low > AlignedWindow(StampBounds([], 0)).high
    ensures Cleared(t, sid, AlignedWindow(StampBounds([], 0))) == t
  {
    var c := Cleared(t, sid, AlignedWindow(StampBounds([], 0)));
    assert c.Keys == t.Keys;
  }
}
