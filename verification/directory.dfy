/**
 The sensor directory and the sync-stamp log: `AddSensor`, `RenameSensor`,
 `DeleteSensor`, `PushSyncStamp` and `GetMaxSyncStamp`.

 Sensor ids come from the `Sensor` table's integer primary key, which the
 database chooses on INSERT. The `Sensor` schema is not part of this model:
 the model assumes the key is handed out by a counter, `nextSensorId`, that
 never goes back. A plain SQLite `INTEGER PRIMARY KEY` without
 `AUTOINCREMENT` would instead reuse the highest id once that sensor is
 deleted.
 */
module Directory {
  import opened Schema
  import opened Sql
  import opened Query

  /** Every sensor id was handed out before `nextSensorId`, and no two names
      share an id. */
  ghost predicate ValidDirectory(st: Store) {
    && (forall n :: n in st.sensors ==> st.sensors[n].id < st.nextSensorId)
    && (forall a, b :: a in st.sensors && b in st.sensors && a != b ==> st.sensors[a].id != st.sensors[b].id)
  }

  // ---------------------------------------------------------------------
  // AddSensor

  /** `AddSensor(sensor)`: `None` stands for a null sensor, which raises
      `ArgumentNullException`. A known name is left alone and answers false;
      a new one is inserted with an empty hardware id and answers true. */
  function AddSensor(st: Store, sensor: Option<string>): (r: (Store, Result<bool>))
    ensures sensor.None? ==> r == (st, Err(ArgumentNull))
    ensures sensor.Some? && sensor.value in st.sensors ==> r == (st, Ok(false))
    ensures sensor.Some? && sensor.value !in st.sensors ==>
      && r.1 == Ok(true)
      && r.0.sensors.Keys == st.sensors.Keys + {sensor.value}
      && r.0.sensors[sensor.value] == SensorRow(st.nextSensorId, [])
      && (forall n :: n in st.sensors ==> r.0.sensors[n] == st.sensors[n])
      && r.0 == st.(sensors := r.0.sensors, nextSensorId := st.nextSensorId + 1)
  {
    if sensor.None? then (st, Err(ArgumentNull))
    else if sensor.value in st.sensors then (st, Ok(false))
    else
      (st.(sensors := st.sensors[sensor.value := SensorRow(st.nextSensorId, [])],
           nextSensorId := st.nextSensorId + 1),
       Ok(true))
  }

  /** Adding keeps ids unique and below the counter, and the new sensor's id
      differs from every id still held. Under the counter assumption above
      it is also new to the orphaned rows a deleted sensor left behind. */
  lemma AddSensorValid(st: Store, name: string)
    requires ValidDirectory(st)
    ensures ValidDirectory(AddSensor(st, Some(name)).0)
    ensures name in AddSensor(st, Some(name)).0.sensors
    ensures name !in st.sensors ==>
      forall n :: n in st.sensors ==> st.sensors[n].id != AddSensor(st, Some(name)).0.sensors[name].id
  {
  }

  /** Adding the same name twice: the second call changes nothing and
      answers false. */
  lemma AddSensorTwice(st: Store, name: string)
    ensures AddSensor(AddSensor(st, Some(name)).0, Some(name)) == (AddSensor(st, Some(name)).0, Ok(false))
  {
  }

  // ---------------------------------------------------------------------
  // RenameSensor

  /** `RenameSensor(currentName, desiredName)`: one `UPDATE Sensor SET
      nameKey`. `fault` stands for a database that cannot be opened. The
      UPDATE matches nothing for an unknown name, and violates the unique
      name key when the desired name is taken by another sensor; every
      exception is caught and answers false. */
  function RenameSensor(st: Store, current: string, desired: string, fault: bool): (r: (Store, bool))
    // only the sensor directory changes
    ensures r.0 == st.(sensors := r.0.sensors)
    ensures fault ==> r == (st, false)
    ensures !fault && current in st.sensors && desired in st.sensors && desired != current ==> r == (st, false)
    ensures !fault && (current !in st.sensors || desired == current) ==> r == (st, true)
    ensures !fault && current in st.sensors && desired !in st.sensors ==>
      && r.1
      && r.0.sensors.Keys == st.sensors.Keys - {current} + {desired}
      && r.0.sensors[desired] == st.sensors[current]
      && (forall n :: n in st.sensors && n != current ==> r.0.sensors[n] == st.sensors[n])
  {
    if fault then (st, false)
    else if current !in st.sensors || desired == current then (st, true)
    else if desired in st.sensors then (st, false)
    else (st.(sensors := (st.sensors - {current})[desired := st.sensors[current]]), true)
  }

  /** A rename keeps the sensor's id, so its readings and summaries follow
      it, and keeps the directory valid. */
  lemma RenameKeepsData(st: Store, current: string, desired: string, from: int, span: int)
    requires ValidDirectory(st)
    requires current in st.sensors && desired !in st.sensors
    ensures ValidDirectory(RenameSensor(st, current, desired, false).0)
    ensures GetReadings(RenameSensor(st, current, desired, false).0, desired, from, span) == GetReadings(st, current, from, span)
    ensures GetReadings(RenameSensor(st, current, desired, false).0, current, from, span) == []
  {
    var st' := RenameSensor(st, current, desired, false).0;
    forall a, b | a in st'.sensors && b in st'.sensors && a != b
      ensures st'.sensors[a].id != st'.sensors[b].id
    {
      var a0 := if a == desired then current else a;
      var b0 := if b == desired then current else b;
      assert st'.sensors[a] == st.sensors[a0] && st'.sensors[b] == st.sensors[b0];
    }
  }

  /** Renaming back undoes a rename. */
  lemma RenameRoundTrip(st: Store, current: string, desired: string)
    requires current in st.sensors && desired !in st.sensors
    ensures RenameSensor(RenameSensor(st, current, desired, false).0, desired, current, false) == (st, true)
  {
    var st' := RenameSensor(st, current, desired, false).0;
    var back := RenameSensor(st', desired, current, false).0;
    assert back.sensors == st.sensors;
  }

  // ---------------------------------------------------------------------
  // DeleteSensor

  /** The four tables `DeleteSensor` purges, in its order. */
  datatype Table = HourRecord | DayRecord | RecordTable | SensorTable

  /** `DeleteSensor(name)`: an unknown name answers false. Otherwise one
      `DELETE ... WHERE sensorID` per table; a DELETE that raises (a table in
      `failing`) is skipped and makes the answer false. The minute and
      ten-minute summaries are not purged. */
  function DeleteSensor(st: Store, name: string, failing: set<Table>): (r: (Store, bool))
    ensures name !in st.sensors ==> r == (st, false)
    ensures name in st.sensors ==> r.1 == (failing == {})
    // the summaries, the sync log and the id counter are never touched
    ensures r.0.minute == st.minute && r.0.tenMinute == st.tenMinute
    ensures r.0.syncStamps == st.syncStamps && r.0.nextSensorId == st.nextSensorId
    ensures name in st.sensors && RecordTable !in failing ==>
      forall k :: k in r.0.records <==> k in st.records && k.sensor != st.sensors[name].id
    ensures forall k :: k in r.0.records ==> k in st.records && r.0.records[k] == st.records[k]
    ensures forall n :: n in r.0.sensors ==> n in st.sensors && r.0.sensors[n] == st.sensors[n]
    ensures name in st.sensors && DayRecord !in failing ==>
      forall k :: k in r.0.day <==> k in st.day && k.sensor != st.sensors[name].id
    ensures name in st.sensors && HourRecord !in failing ==>
      forall k :: k in r.0.hour <==> k in st.hour && k.sensor != st.sensors[name].id
    ensures name in st.sensors && SensorTable !in failing ==>
      forall n :: n in r.0.sensors <==> n in st.sensors && st.sensors[n].id != st.sensors[name].id
    ensures name in st.sensors && SensorTable in failing ==> r.0.sensors == st.sensors
    ensures name in st.sensors && RecordTable in failing ==> r.0.records == st.records
  {
    if name !in st.sensors then (st, false)
    else
      var sid := st.sensors[name].id;
      var hour := if HourRecord in failing then st.hour else set k | k in st.hour && k.sensor != sid;
      var day := if DayRecord in failing then st.day else set k | k in st.day && k.sensor != sid;
      var records := if RecordTable in failing then st.records else DeleteSensorRows(st.records, sid);
      var sensors := if SensorTable in failing then st.sensors else map n | n in st.sensors && st.sensors[n].id != sid :: st.sensors[n];
      (st.(hour := hour, day := day, records := records, sensors := sensors), failing == {})
  }

  /** After a clean delete the name reads nothing, the directory stays
      valid, and the sensor's summaries are left behind under its id. */
  lemma DeleteSensorOrphans(st: Store, name: string, k: Key, from: int, span: int)
    requires ValidDirectory(st) && name in st.sensors
    requires k in st.minute && k.sensor == st.sensors[name].id
    ensures var st' := DeleteSensor(st, name, {}).0;
      && name !in st'.sensors
      && ValidDirectory(st')
      && GetReadings(st', name, from, span) == []
      && k in st'.minute
      && forall n :: n in st'.sensors ==> st'.sensors[n].id != k.sensor
  {
  }

  // ---------------------------------------------------------------------
  // Sync stamps

  function Max(a: int, b: int): int { if a < b then b else a }

  /** The greatest element of a non-empty sequence. */
  function MaxOf(s: seq<int>): (m: int)
    requires |s| > 0
    ensures m in s && forall i :: 0 <= i < |s| ==> s[i] <= m
  {
    if |s| == 1 then s[0] else Max(MaxOf(s[..|s| - 1]), s[|s| - 1])
  }

  /** `PushSyncStamp(stamp)`: one INSERT into the append-only log. */
  function PushSyncStamp(st: Store, stamp: int): (r: (Store, bool))
    ensures r.1 && r.0 == st.(syncStamps := r.0.syncStamps)
    ensures |r.0.syncStamps| == |st.syncStamps| + 1 && r.0.syncStamps[|st.syncStamps|] == stamp
    ensures r.0.syncStamps[..|st.syncStamps|] == st.syncStamps
  {
    (st.(syncStamps := st.syncStamps + [stamp]), true)
  }

  /** A pushed stamp raises the log's maximum to at least itself, and to
      exactly the larger of the two. */
  lemma PushSyncStampMax(st: Store, stamp: int)
    ensures MaxOf(PushSyncStamp(st, stamp).0.syncStamps) ==
      if st.syncStamps == [] then stamp else Max(MaxOf(st.syncStamps), stamp)
  {
    var s := PushSyncStamp(st, stamp).0.syncStamps;
    assert s[..|s| - 1] == st.syncStamps;
  }

  /** `SELECT stamp FROM dayrecord ORDER BY stamp DESC LIMIT 1`, over every
      sensor. */
  method MaxDayStamp(day: set<Key>) returns (m: int)
    requires day != {}
    ensures exists k :: k in day && k.stamp == m
    ensures forall k :: k in day ==> k.stamp <= m
  {
    var first :| first in day;
    m := first.stamp;
    var rest := day - {first};
    while rest != {}
      invariant rest <= day
      invariant exists k :: k in day && k.stamp == m
      invariant forall k :: k in day && k !in rest ==> k.stamp <= m
      decreases |rest|
    {
      var k :| k in rest;
      if k.stamp > m {
        m := k.stamp;
      }
      rest := rest - {k};
    }
  }

  /** `GetMaxSyncStamp()`: the newest sync stamp; when the log is empty, or
      its newest stamp is `default(DateTime)`, the newest day summary of any
      sensor; `default(DateTime)` when there is neither. */
  method GetMaxSyncStamp(st: Store) returns (m: int)
    ensures |st.syncStamps| > 0 && MaxOf(st.syncStamps) != DateTimeZero ==> m == MaxOf(st.syncStamps)
    ensures (|st.syncStamps| == 0 || MaxOf(st.syncStamps) == DateTimeZero) && st.day != {} ==>
      (exists k :: k in st.day && k.stamp == m) && forall k :: k in st.day ==> k.stamp <= m
    ensures (|st.syncStamps| == 0 || MaxOf(st.syncStamps) == DateTimeZero) && st.day == {} ==> m == DateTimeZero
  {
    m := DateTimeZero;
    if |st.syncStamps| > 0 {
      m := MaxOf(st.syncStamps);
    }
    if m == DateTimeZero && st.day != {} {
      m := MaxDayStamp(st.day);
    }
  }
}
