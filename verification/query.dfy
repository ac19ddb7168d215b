/**
 Range reads: `GetReadings` over the `Record` table and `GetPackedSummaries`
 over a summary table. Both normalise `from`/`span` into an ascending pair,
 join on the sensor's name key and order by stamp, descending when the span
 is negative. `GetReadings` keeps both ends; the summary read excludes the
 upper end. The reader hands rows out in chunks of 256.
 */
module Query {
  import opened Schema

  /** The rows of sensor `sid` with stamps in [lo, hi], by ascending stamp. */
  function Scan<V>(t: map<Key, V>, sid: int, lo: int, hi: int): (r: seq<(int, V)>)
    ensures forall i :: 0 <= i < |r| ==>
      lo <= r[i].0 <= hi && Key(sid, r[i].0) in t && r[i].1 == t[Key(sid, r[i].0)]
    ensures forall i, j :: 0 <= i < j < |r| ==> r[i].0 < r[j].0
    decreases hi - lo
  {
    if hi < lo then []
    else Scan(t, sid, lo, hi - 1) + (if Key(sid, hi) in t then [(hi, t[Key(sid, hi)])] else [])
  }

  /** Every stored row of the sensor in [lo, hi] is read. */
  lemma {:induction false} ScanFinds<V>(t: map<Key, V>, sid: int, lo: int, hi: int, s: int)
    requires lo <= s <= hi && Key(sid, s) in t
    ensures exists i :: 0 <= i < |Scan(t, sid, lo, hi)| && Scan(t, sid, lo, hi)[i].0 == s
    decreases hi - lo
  {
    if s < hi {
      ScanFinds(t, sid, lo, hi - 1, s);
      var i :| 0 <= i < |Scan(t, sid, lo, hi - 1)| && Scan(t, sid, lo, hi - 1)[i].0 == s;
      assert Scan(t, sid, lo, hi)[i] == Scan(t, sid, lo, hi - 1)[i];
    } else {
      assert Scan(t, sid, lo, hi)[|Scan(t, sid, lo, hi)| - 1].0 == s;
    }
  }

  function Reverse<T>(s: seq<T>): (r: seq<T>)
    ensures |r| == |s| && forall i :: 0 <= i < |s| ==> r[i] == s[|s| - 1 - i]
  {
    seq(|s|, i requires 0 <= i < |s| => s[|s| - 1 - i])
  }

  /** `from` and `from + span`, lower one first. */
  function Bounds(from: int, span: int): (int, int)
  {
    var to := from + span;
    if to < from then (to, from) else (from, to)
  }

  /** The raw readings of sensor `name` between `from` and `from + span`,
      both ends included, ascending or, for a negative span, descending.
      An unknown name joins with nothing. */
  function GetReadings(st: Store, name: string, from: int, span: int): (r: seq<Reading>)
    ensures name !in st.sensors ==> r == []
    ensures var (lo, hi) := Bounds(from, span);
      forall i :: 0 <= i < |r| ==>
        && name in st.sensors
        && lo <= r[i].stamp <= hi
        && Key(st.sensors[name].id, r[i].stamp) in st.records
        && r[i].values == st.records[Key(st.sensors[name].id, r[i].stamp)]
    ensures span >= 0 ==> forall i, j :: 0 <= i < j < |r| ==> r[i].stamp < r[j].stamp
    ensures span < 0 ==> forall i, j :: 0 <= i < j < |r| ==> r[i].stamp > r[j].stamp
  {
    if name !in st.sensors then []
    else
      var (lo, hi) := Bounds(from, span);
      var rows := Scan(st.records, st.sensors[name].id, lo, hi);
      var asc := seq(|rows|, i requires 0 <= i < |rows| => Reading(rows[i].0, rows[i].1));
      if span < 0 then Reverse(asc) else asc
  }

  /** `GetReadings` misses nothing: every record of the sensor between the
      two bounds is among the readings. */
  lemma ReadingsComplete(st: Store, name: string, from: int, span: int, s: int)
    requires name in st.sensors
    requires Bounds(from, span).0 <= s <= Bounds(from, span).1
    requires Key(st.sensors[name].id, s) in st.records
    ensures exists i :: 0 <= i < |GetReadings(st, name, from, span)| && GetReadings(st, name, from, span)[i].stamp == s
  {
    var (lo, hi) := Bounds(from, span);
    var rows := Scan(st.records, st.sensors[name].id, lo, hi);
    ScanFinds(st.records, st.sensors[name].id, lo, hi, s);
    var i :| 0 <= i < |rows| && rows[i].0 == s;
    var r := GetReadings(st, name, from, span);
    if span < 0 {
      assert r[|rows| - 1 - i].stamp == s;
    } else {
      assert r[i].stamp == s;
    }
  }

  /** The summaries of sensor `name` stored in `table` with stamps from the
      lower bound up to but excluding the upper one; each carries its row's
      stamp as its begin. */
  function GetPackedSummaries(st: Store, table: SummaryTable, name: string, from: int, span: int): (r: seq<Summary>)
    ensures name !in st.sensors ==> r == []
    ensures var (lo, hi) := Bounds(from, span);
      forall i :: 0 <= i < |r| ==>
        && name in st.sensors
        && lo <= r[i].begin < hi
        && Key(st.sensors[name].id, r[i].begin) in table
        && r[i].count == table[Key(st.sensors[name].id, r[i].begin)].count
        && r[i].stats == table[Key(st.sensors[name].id, r[i].begin)].stats
    ensures span >= 0 ==> forall i, j :: 0 <= i < j < |r| ==> r[i].begin < r[j].begin
    ensures span < 0 ==> forall i, j :: 0 <= i < j < |r| ==> r[i].begin > r[j].begin
  {
    if name !in st.sensors then []
    else
      var (lo, hi) := Bounds(from, span);
      var rows := Scan(table, st.sensors[name].id, lo, hi - 1);
      var asc := seq(|rows|, i requires 0 <= i < |rows| => Summary(rows[i].0, rows[i].1.count, rows[i].1.stats));
      if span < 0 then Reverse(asc) else asc
  }

  /** The summary read misses nothing: every summary of the sensor stored
      from the lower bound up to but excluding the upper one is read. */
  lemma PackedSummariesComplete(st: Store, table: SummaryTable, name: string, from: int, span: int, s: int)
    requires name in st.sensors
    requires Bounds(from, span).0 <= s < Bounds(from, span).1
    requires Key(st.sensors[name].id, s) in table
    ensures var r := GetPackedSummaries(st, table, name, from, span);
      exists i :: 0 <= i < |r| && r[i].begin == s
  {
    var (lo, hi) := Bounds(from, span);
    var rows := Scan(table, st.sensors[name].id, lo, hi - 1);
    ScanFinds(table, st.sensors[name].id, lo, hi - 1, s);
    var i :| 0 <= i < |rows| && rows[i].0 == s;
    var r := GetPackedSummaries(st, table, name, from, span);
    if span < 0 {
      assert r[|rows| - 1 - i].begin == s;
    } else {
      assert r[i].begin == s;
    }
  }

  /** Rows per chunk of the reader. */
  const ChunkSize: nat := 256

  function Flatten<T>(chunks: seq<seq<T>>): seq<T>
  {
    if chunks == [] then [] else chunks[0] + Flatten(chunks[1..])
  }

  /** The reader's chunks: full chunks of `size` rows and a shorter last one;
      handing them out in order yields exactly the rows. */
  function Chunks<T>(s: seq<T>, size: nat): (r: seq<seq<T>>)
    requires size > 0
    ensures Flatten(r) == s
    ensures forall i :: 0 <= i < |r| ==> 0 < |r[i]| <= size
    ensures forall i :: 0 <= i < |r| - 1 ==> |r[i]| == size
    decreases |s|
  {
    if |s| <= size then (if s == [] then [] else [s])
    else
      var rest := Chunks(s[size..], size);
      var r := [s[..size]] + rest;
      assert r[1..] == rest;
      r
  }
}
