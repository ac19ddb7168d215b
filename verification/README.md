# Atmo data store, modelled in Dafny

Atmo keeps weather-station readings in an SQLite database through
`DbDataStore`. This project models that class's record-keeping core as pure
functions over an immutable database value, and proves what it does to the
tables.

The database is a `Schema.Store` with these parts:

- the sensor directory, which maps a name to an id and a hardware id, plus the counter that hands out ids;
- the raw `Record` table, keyed by (sensor id, POSIX second) and holding 8 packed bytes;
- the minute and ten-minute summary tables, keyed the same way;
- the hour and day tables, which this core only reads and purges;
- the append-only sync-stamp log.

Each SQL statement the class issues is a map edit in `Sql`. A transaction
that raises is rolled back to its last commit.

Modules follow the source:

- `Offset`, `Expand` and `Shrink` model the three record movers that
  `AdjustTimeStamps` (in `Adjust`) combines: shift a block, stretch it, or
  squeeze it.
- `Batch` models the batched INSERT loop that `PushReadings` and
  `PushSummaries` share. It commits every 65535 rows; an exception loses the
  open batch.
- `Push` models `Push` and `PushReadings`.
- `Summaries` models the ten-minute period arithmetic, the grouping of minute
  summaries into ten-minute groups, the delete-then-insert rebuild of a
  summary table, `UpdateSummaryRecords`, and the choice of summary
  resolution for reads.
- `Query` models `GetReadings`, the summary reads and the 256-row chunking of
  the reader.
- `Directory` models `AddSensor`, `RenameSensor`, `DeleteSensor` and the
  sync-stamp log.
- `Stamped` models `TimeStampedValue` and its ordering.

Time is integer POSIX seconds. `TimeSpan` values are tick counts.
`StatsUtil.Summarize` and `StatsUtil.Combine` are the two fields of a
`Summaries.Stats` value, about which nothing is assumed. Exceptions are
`Err` values. Storage faults are an injected parameter: a fault index for the
batched INSERTs, or a set of failing tables for `DeleteSensor`.

Quirks of the code are modelled as written, and stated as properties:

- The overflow DELETEs of the offset and the expansion have no sensor filter.
- The expansion can land a record on `High`; see `Expand.SevenLandsOnHigh`.
- The shrink's run indices are relative to `Low` but are bound as absolute
  stamps.
- Ten-minute grouping drops the minute summary that closes a group; see
  `Summaries.GroupDropsTrigger`.
- The rebuild window is closed at its upper end, which is the first second
  of the next ten-minute slot. The rebuild's DELETE therefore removes the
  sensor's rows that begin that slot; see `Summaries.WindowReachesNextSlot`.

Three things are not modelled as written; see "Left out" and "Findings":

- `Adjust.Blocked` evaluates the overwrite guard's WHERE text with the
  intended values bound to its parameters, which the code never binds.
- The index arithmetic of the expansion and the shrink uses exact integers.
  The code uses 32-bit `int`, which wraps for blocks of about a day and more.
  `Expand.Cur32`, `Expand.CodeShift32` and `Shrink.RunIndex32` model the
  wrapped arithmetic as written. Lemmas show where it agrees with the exact
  one and exhibit inputs where it does not.
- `Push.EmptyPushClearsNothing` takes the stamp sentinels as exact integers.
  With no readings, the rebuild window is then inverted, and its DELETE
  removes nothing.

All source paths below are under `src/Atmo.Core`.

## Model

| member | source | states |
|---|---|---|
| Offset.OffsetRecords | src/Atmo.Core/Data/DbDataStore.cs:227-274 | An offset of 0 changes nothing and reports 0 rows. Otherwise the result is `Shifted`, and the count is the number of the sensor's records in [Low, High]. |
| Offset.Shifted | src/Atmo.Core/Data/DbDataStore.cs:235-268 | Every record of the block is found at its stamp plus the offset with its value. Other rows stay unless they lie in the spill window, which is emptied for every sensor. Nothing else appears. |
| Offset.ShiftedAt | src/Atmo.Core/Data/DbDataStore.cs:249-268 | A stamp of the block holds a record after the shift exactly when it held one before, with the same value. |
| Offset.AscendingStep | src/Atmo.Core/Data/DbDataStore.cs:249-253 | Each plain UPDATE of the ascending loop finds its destination free, so it never violates the key. It moves at most one row and counts it. |
| Offset.DescendingStep | src/Atmo.Core/Data/DbDataStore.cs:263-267 | The same for the descending loop of an upward shift. |
| Expand.ExpandRecords | src/Atmo.Core/Data/DbDataStore.cs:276-334 | A negative delta answers false and a zero delta true, both unchanged. An empty range answers false. A span of 1 raises `DivideByZero`. A span of 2 or more answers true, and the store is `Expanded`. |
| Expand.DestOrder | src/Atmo.Core/Data/DbDataStore.cs:315-318 | Destinations keep the block's order strictly. Each one is at least its source and at most delta above it. |
| Expand.ShiftMonotone | src/Atmo.Core/Data/DbDataStore.cs:315-318 | Part shifts are at least 0, at most delta, and nondecreasing in the part index. |
| Expand.DestBounds | src/Atmo.Core/Data/DbDataStore.cs:315-324 | Every source index lands at or above itself and at most delta above it, so the block lands within [Low, High + delta - 1]. |
| Expand.PartOfInPart | src/Atmo.Core/Data/DbDataStore.cs:315-316 | Every source index lies in the part `PartOf` names. |
| Expand.PartUnique | src/Atmo.Core/Data/DbDataStore.cs:315-316 | No source index lies in two parts. |
| Expand.CurBounds | src/Atmo.Core/Data/DbDataStore.cs:315-316 | The parts run from 0 to the span, one after another. The `Math.Min` clamp of `nextPartIndex` never bites. |
| Expand.SevenLandsOnHigh | src/Atmo.Core/Data/DbDataStore.cs:315-318 | For span 10 and delta 5, source index 7 lands on index 10, which is `High`. |
| Expand.Expand32Agrees | src/Atmo.Core/Data/DbDataStore.cs:315-318 | While `Parts * span` and `(span - 1) * (span + delta - 1)` fit in an `int`, the code's wrapped part starts and shifts equal the exact ones. |
| Expand.DayStretchWraps | src/Atmo.Core/Data/DbDataStore.cs:315-318 | For span 86400 and delta 1, the code's `int` arithmetic gives part 1 a shift of -49710 where the exact shift is 0. Its first record lands 6510 s below `Low`. |
| Shrink.ShrinkRecords | src/Atmo.Core/Data/DbDataStore.cs:336-381 | A positive delta answers false; a zero delta answers true; a span shorter than the deletions answers false. All three leave the table unchanged. Otherwise the answer is true and `Shrunk` holds. |
| Shrink.RunIndexMono | src/Atmo.Core/Data/DbDataStore.cs:360-361 | Run indices grow with the deletion number, so every stamp the moves touch is below `Reach`. |
| Shrink.Shrink32Agrees | src/Atmo.Core/Data/DbDataStore.cs:360-361 | While `span * (deletions + 1)` fits in an `int`, the code's wrapped run indices equal the exact ones. |
| Shrink.MonthShrinkWraps | src/Atmo.Core/Data/DbDataStore.cs:360-361 | For span 2592000 and 830 deletions, the code's `nextIndex` for deletion 827 wraps to -828 where the exact index is 829, so that run moves nothing. |
| Batch.WriteBatched | src/Atmo.Core/Data/DbDataStore.cs:583-610 | With no failure, every row is applied and there are `rows / 65535 + 1` commits. On failure it reports the first row whose INSERT raises. The table is then the one after the last full batch, or the one before the write when no batch was committed. |
| Batch.ReplaceAll | src/Atmo.Core/Data/DbDataStore.cs:637-640 | `INSERT OR REPLACE` never raises. Each named key ends with its last row's value; other keys are untouched. |
| Batch.IgnoreAll | src/Atmo.Core/Data/DbDataStore.cs:637-640 | `INSERT OR IGNORE` never raises. Existing keys keep their values; a new key takes its first row's value. |
| Batch.PlainAll | src/Atmo.Core/Data/DbDataStore.cs:663-667 | A plain INSERT of all rows succeeds exactly when the rows are fresh. It then agrees with `INSERT OR REPLACE`. |
| Batch.PlainFresh | src/Atmo.Core/Data/DbDataStore.cs:663-667 | Fresh rows are all stored under their keys, and every existing row is kept. |
| Batch.KeepsOtherSensors | src/Atmo.Core/Data/DbDataStore.cs:583-610 | INSERTs of one sensor's rows leave every other sensor's rows unchanged. |
| Push.StampBounds | src/Atmo.Core/Data/DbDataStore.cs:579-600 | The bounds enclose every reading processed. Each bound is its sentinel or the stamp of a reading processed. |
| Push.PushReadings | src/Atmo.Core/Data/DbDataStore.cs:573-613 | The bounds cover only the readings before a fault. With no fault the table is all readings applied in order. With a fault it is the committed batches, or the original table when none was committed. |
| Push.PushedReadingsStored | src/Atmo.Core/Data/DbDataStore.cs:636-640 | With no fault every reading is stored. Under replace a stamp holds its last reading's values; under ignore an existing row keeps its own. |
| Push.Push | src/Atmo.Core/Data/DbDataStore.cs:615-659 | An empty name raises; an unknown name answers false; both leave the store unchanged. Otherwise the readings are applied; after a fault, only the committed batches are kept. On success both summary tables are exactly rebuilt from the readings now stored around the pushed stamps. Other sensors' summaries are kept. |
| Push.EmptyPushClearsNothing | src/Atmo.Core/Data/DbDataStore.cs:579-580 | With no readings the bounds stay at their sentinels, so the aligned window is inverted and its DELETE removes nothing. |
| Query.GetReadings | src/Atmo.Core/Data/DbDataStore.cs:478-527 | Every reading returned is a stored record of the sensor between the bounds, both ends included. The order is ascending for a non-negative span and descending otherwise. An unknown name reads nothing. |
| Query.ReadingsComplete | src/Atmo.Core/Data/DbDataStore.cs:488-497 | Every stored record of the sensor between the bounds is among the readings. |
| Query.Chunks | src/Atmo.Core/Data/DbDataStore.cs:504-522 | The chunks are full 256-row chunks and a shorter last one, and they concatenate to exactly the rows. |
| Query.GetPackedSummaries | src/Atmo.Core/Data/DbDataStore.cs:852-929 | Returns the stored summaries of the sensor from the lower bound up to, but excluding, the upper one. They are ordered like `GetReadings`. |
| Query.PackedSummariesComplete | src/Atmo.Core/Data/DbDataStore.cs:864-876 | Every stored summary of the sensor from the lower bound up to, but excluding, the upper one is read. |
| Directory.AddSensor | src/Atmo.Core/Data/DbDataStore.cs:529-563 | A null sensor raises `ArgumentNull` and changes nothing. A known name changes nothing and answers false. A new name gets a fresh id and an empty hardware id, and answers true. |
| Directory.AddSensorValid | src/Atmo.Core/Data/DbDataStore.cs:544-552 | Adding keeps ids unique and below the id counter. A new sensor's id is not any existing sensor's id. |
| Directory.AddSensorTwice | src/Atmo.Core/Data/DbDataStore.cs:529-563 | A second add of the same name changes nothing and answers false. |
| Directory.RenameSensor | src/Atmo.Core/Data/DbDataStore.cs:968-982 | Only the directory changes. A fault answers false. A name taken by another sensor violates the unique key and answers false. An unknown name answers true with no change. Otherwise the row moves to the new name. |
| Directory.RenameKeepsData | src/Atmo.Core/Data/DbDataStore.cs:973-977 | After a rename the new name reads exactly the old name's readings, the old name reads nothing, and the directory stays valid. |
| Directory.RenameRoundTrip | src/Atmo.Core/Data/DbDataStore.cs:968-982 | Renaming back restores the store. |
| Directory.DeleteSensor | src/Atmo.Core/Data/DbDataStore.cs:798-845 | An unknown name answers false with no change. Each table whose DELETE succeeds loses exactly the sensor's rows; a failing one is left as it was and makes the answer false. The summaries are never purged. |
| Directory.DeleteSensorOrphans | src/Atmo.Core/Data/DbDataStore.cs:833-835 | After a clean delete the name reads nothing. The sensor's minute summaries remain under an id no sensor holds. |
| Directory.PushSyncStamp | src/Atmo.Core/Data/DbDataStore.cs:412-422 | Appends the stamp to the log, answers true and changes nothing else. |
| Directory.PushSyncStampMax | src/Atmo.Core/Data/DbDataStore.cs:392-398 | After a push the log's maximum is the larger of the old maximum and the pushed stamp. |
| Directory.MaxDayStamp | src/Atmo.Core/Data/DbDataStore.cs:400-407 | Returns the greatest stamp of the day table. |
| Directory.GetMaxSyncStamp | src/Atmo.Core/Data/DbDataStore.cs:387-410 | Returns the newest sync stamp. When there is none, or it is `default(DateTime)`, it returns the newest day stamp, or `default(DateTime)` when the day table is empty. |
| Summaries.PeriodTenMinutes | src/Atmo.Core/Data/DbDataStore.cs:747-749 | The period start is at most `t`, less than ten minutes below it, and a multiple of ten minutes. |
| Summaries.PeriodUnique | src/Atmo.Core/Data/DbDataStore.cs:747-749 | That start is the only such multiple. |
| Summaries.PeriodIdempotent | src/Atmo.Core/Data/DbDataStore.cs:747-749 | Rounding twice is rounding once, and the period starts agree with the `DateTime` calendar. |
| Summaries.GroupWellGrouped | src/Atmo.Core/Data/DbDataStore.cs:767-784 | Every ten-minute group is non-empty and lies within one period. |
| Summaries.GroupEmpty | src/Atmo.Core/Data/DbDataStore.cs:767-784 | No minute summaries make no groups. |
| Summaries.GroupOneRun | src/Atmo.Core/Data/DbDataStore.cs:767-784 | A run within one period makes one group. |
| Summaries.GroupDropsTrigger | src/Atmo.Core/Data/DbDataStore.cs:774-779 | A summary of another period closes the run as one group, is itself dropped, and grouping restarts after it. |
| Summaries.PeriodMono | src/Atmo.Core/Data/DbDataStore.cs:747-749 | Rounding down to the period keeps the order of stamps. |
| Summaries.GroupLeadsAscending | src/Atmo.Core/Data/DbDataStore.cs:767-784 | For minute summaries with nondecreasing begins, the groups' periods strictly increase, so no two groups share a period. |
| Summaries.TenMinuteBeginsAscending | src/Atmo.Core/Data/DbDataStore.cs:785-790 | For such minute summaries, each ten-minute summary begins at its group's period, and the begins strictly increase. This assumes each combined summary begins within its group. |
| Summaries.TenMinuteRowsDistinct | src/Atmo.Core/Data/DbDataStore.cs:785-793 | Under the same assumption, no two INSERT rows of the ten-minute rebuild share a key, so only a row already stored can make that INSERT raise. |
| Summaries.Cleared | src/Atmo.Core/Data/DbDataStore.cs:669-683 | The DELETE removes exactly the sensor's rows in the closed window. It is skipped for a window of span 0. |
| Summaries.PushSummaries | src/Atmo.Core/Data/DbDataStore.cs:661-745 | It succeeds exactly when the rows are fresh after the DELETE. Then the table is the cleared one plus exactly the summaries. A failure raises a constraint violation and loses the open batch. Other sensors' rows are always kept. |
| Summaries.PushedAll | src/Atmo.Core/Data/DbDataStore.cs:710-741 | A rebuild whose INSERTs all succeed holds every summary and keeps every other sensor's rows. |
| Summaries.AlignedWindow | src/Atmo.Core/Data/DbDataStore.cs:758-761 | The window starts on the period of the low bound and ends one period past the period of the high bound. |
| Summaries.WindowReachesNextSlot | src/Atmo.Core/Data/DbDataStore.cs:758-761 | The window's closed upper end is the first second of the next ten-minute slot, past the high bound. For a well-formed range the rebuild's DELETE removes the sensor's row that begins that slot. |
| Summaries.RebuiltMeaning | src/Atmo.Core/Data/DbDataStore.cs:669-741 | After a rebuild, every row outside the sensor's window is as it was. Every row of the sensor inside a window of non-zero span is one of the new summaries, so no stale row survives. |
| Summaries.UpdateSummaryRecords | src/Atmo.Core/Data/DbDataStore.cs:757-796 | Only the summary tables change. On success each table is exactly rebuilt over the aligned window. The minute table gets the minute summaries of the window's readings, and the ten-minute table their grouped combination. Other sensors' summaries are kept. |
| Summaries.ChooseBestSummaryTimeSpan | src/Atmo.Core/Data/DbDataStore.cs:931-953 | An empty list gives the zero span. At or below the first entry the first entry is chosen; at or above the last entry, the last. |
| Summaries.ChooseFirstPair | src/Atmo.Core/Data/DbDataStore.cs:941-949 | Between the clamps the loop decides on its first pass: the nearer of the first two entries, a tie going to the second. |
| Summaries.ChooseIsEntry | src/Atmo.Core/Data/DbDataStore.cs:931-953 | The choice is always an entry. For a sorted pair it is the nearer one, the larger on a tie. |
| Summaries.GetReadingSummaries | src/Atmo.Core/Data/DbDataStore.cs:955-966 | No desired span raises, the hour and day included. Spans of ten minutes and up read the ten-minute table, spans up to a minute the minute table, and in between the nearer resolution, a tie going to ten minutes. |
| Adjust.BlockedWindows | src/Atmo.Core/Data/DbDataStore.cs:145-181 | The guard blocks exactly when overwriting is off and some record of the sensor lies in the range's growth below or above, outside the current range. |
| Adjust.ShrinkPhase | src/Atmo.Core/Data/DbDataStore.cs:185-194 | Shrink, then shift the block that is left. |
| Adjust.ShiftPhase | src/Atmo.Core/Data/DbDataStore.cs:196-199 | Shift alone; it answers whether a row moved. |
| Adjust.ExpandPhase | src/Atmo.Core/Data/DbDataStore.cs:195-205 | Shift, then expand the shifted block. A span of 1 raises `DivideByZero` after the shift. |
| Adjust.AdjustRecords | src/Atmo.Core/Data/DbDataStore.cs:183-205 | It raises exactly for a growing range of span 1. Otherwise the records are moved as `RecordsAdjusted` describes. |
| Adjust.Hull | src/Atmo.Core/Data/DbDataStore.cs:211-216 | The smallest range holding both ranges. |
| Adjust.RebuiltTwice | src/Atmo.Core/Data/DbDataStore.cs:217-220 | Two rebuilds in a row keep the sensor's rows outside both windows. Inside the second window only the second rebuild's summaries remain. The first rebuild's summaries that begin outside the second window are kept. |
| Adjust.RebuildSummaries | src/Atmo.Core/Data/DbDataStore.cs:209-222 | Overlapping ranges are rebuilt once over their hull, and both tables are then exactly that rebuild. Disjoint ranges are rebuilt each in turn. Both tables then hold the corrected range's summaries and nothing older inside its window. They also hold the current range's summaries that begin outside that window, and rows outside both windows are kept. |
| Adjust.AdjustAndRebuild | src/Atmo.Core/Data/DbDataStore.cs:183-222 | A span-1 expansion raises with only the shift done and the summaries untouched. Otherwise the records are adjusted, and both summary tables are rebuilt as `RebuildSummaries` states. |
| Adjust.AdjustTimeStamps | src/Atmo.Core/Data/DbDataStore.cs:115-225 | No change answers false before any lookup. An unknown sensor raises `KeyNotFound`. The guard raises exactly when blocked, and then nothing changes. A span-1 expansion raises with only the shift done. Otherwise the records are adjusted and both summary tables rebuilt as `RebuildSummaries` states. Other sensors' summaries are kept. |
| Stamped.MakeRoundTrip | src/Atmo.Core/TimeStampedValue.cs:32-48 | The getters return what the constructor was given, and the constructor rebuilds a value from its getters. |
| Stamped.CompareTo | src/Atmo.Core/TimeStampedValue.cs:37-40 | The stamps decide when they differ; equal stamps defer to the values' comparison. |
| Stamped.CompareToIsLex | src/Atmo.Core/TimeStampedValue.cs:37-40 | `CompareTo` is negative exactly on lexicographic order, and zero exactly on equal stamps whose values compare equal. |
| Stamped.CompareIgnoresValues | src/Atmo.Core/TimeStampedValue.cs:37-40 | Different stamps decide alone. |
| Stamped.CompareSelf | src/Atmo.Core/TimeStampedValue.cs:37-40 | An instance compares equal to itself when its value does. |
| Stamped.CompareAntisymmetric | src/Atmo.Core/TimeStampedValue.cs:37-40 | An antisymmetric value order makes `CompareTo` antisymmetric. |
| Stamped.CompareTransitive | src/Atmo.Core/TimeStampedValue.cs:37-40 | A transitive value order makes `CompareTo` transitive. |

## Left out

- Connection handling (`ForceConnectionOpen`, `Dispose`) is left out. A database that cannot be opened appears only as `RenameSensor`'s `fault` flag, because only there is the exception caught.
- `GetLatestSensorNameForHardwareId`, `SetLatestSensorNameForHardwareId` and `GetAllSensorInfos` are not among the operations modelled.
- `PersistentState`, `DemoDaqConnection` and the user-interface forms are not part of this model.
- The packing codec (`PackedReadingValues`) is left out: readings are opaque 8-byte values, and summary statistics are opaque bytes.
- `StatsUtil.Summarize` and `StatsUtil.Combine` are uninterpreted. `UnitUtility.StripToUnit(t, TenMinutes)` is taken to round down to the ten-minute period, as `PeriodTenMinutes` does.
- `PosixTimeRange` and `TimeRange` are not part of this model. Both are taken to have integer bounds, `Span = High - Low`, and closed-interval overlap.
- 32-bit wrap-around is not modelled in stamps, spans or offsets: they are unbounded integers. Where it matters, in the index products of the expansion and the shrink, it is modelled separately and listed under "Findings". The code's products `partIndex * rangeSpan` and `curPartIndex * (resultingSpan - 1)` wrap from a span of 65536 s at delta 1, and from about 46341 s for larger deltas. The product `rangeSpan * (delNumber + 2)` wraps for shrinks such as a 30-day range shrunk by 830 s.
- Expand.ExpandRecords: `Expanded` uses exact arithmetic. It agrees with the code only under `Expand.ExpandFits` (see `Expand.Expand32Agrees`); beyond that the code moves records elsewhere, as `Expand.DayStretchWraps` shows.
- Expand.DestOrder: states the exact destinations, which are the code's only under `Expand.ExpandFits`.
- Expand.ShiftMonotone: states the exact shifts, which are the code's only under `Expand.ExpandFits`; the wrapped shift can be negative.
- Expand.DestBounds: states the exact destinations, which are the code's only under `Expand.ExpandFits`; the wrapped ones can lie below `Low`.
- Expand.PartOfInPart: states the exact part starts, which are the code's only while `Parts * span` fits in an `int`.
- Expand.PartUnique: the same condition as `Expand.PartOfInPart`.
- Expand.CurBounds: the same condition as `Expand.PartOfInPart`; the wrapped part starts need not run from 0 to the span.
- Shrink.ShrinkRecords: `Shrunk` uses exact run indices, which are the code's only while `span * (deletions + 1)` fits in an `int` (see `Shrink.Shrink32Agrees` and `Shrink.MonthShrinkWraps`).
- Shrink.RunIndexMono: states the exact run indices, under the same condition as `Shrink.ShrinkRecords`.
- Adjust.ShrinkPhase: inherits the `int` condition of `Shrink.ShrinkRecords`.
- Adjust.ExpandPhase: inherits the `int` condition of `Expand.ExpandRecords`.
- Adjust.AdjustRecords: `RecordsAdjusted` inherits the `int` conditions of both phases.
- Adjust.AdjustAndRebuild: inherits the `int` conditions of `Adjust.AdjustRecords`.
- Push.EmptyPushClearsNothing: takes the sentinels `new DateTime(9999, 1, 1)` and `new DateTime(0)` as exact POSIX seconds. The code's POSIX stamps are 32-bit `int`s, which cannot hold either value. What an empty push, or one faulting at its first row, actually reads and deletes depends on `UnitUtility`'s conversions, which are not part of this model.
- Names spliced into SQL text with quotes (`AddSensor`, `Push`) are treated as if they were bound parameters. Injection is not modelled.
- A null name for `Push`, `RenameSensor` or `DeleteSensor` is not modelled. The empty name stands for `String.IsNullOrEmpty` in `Push`.
- A transaction that is neither committed nor rolled back when its exception propagates is treated as rolled back.
- `double.CompareTo` (NaN ordering included) is a parameter of `CompareTo`, and only its sign laws are assumed.
- The `SupportedSummaryUnitSpans` list advertises hours and days, which `GetReadingSummaries` clamps to ten minutes. The model follows the code: no span is refused.
- Shrink.ShrinkRecords: states what happens at and above `Reach` and in the deleted tail. It does not say where the moved records land below `Reach`, because the run indices are bound as absolute stamps, so that placement depends on the values of `Low` and `High`.
- Adjust.AdjustTimeStamps: for disjoint ranges it does not say which rebuild each row inside the current range's window but outside the corrected one comes from. `StatsUtil.Summarize` may give summaries any begin, so either rebuild may have written such a row. It also inherits the `int` conditions of `Adjust.AdjustRecords`.
- Adjust.RebuildSummaries: the same disjoint-range gap as `Adjust.AdjustTimeStamps`.
- Adjust.AdjustAndRebuild: the same disjoint-range gap as `Adjust.AdjustTimeStamps`.
- Adjust.Blocked: the guard's query binds none of `@sensorId`, `@corLow`, `@curLow`, `@corHigh` and `@curHigh`, because the `AddParameter` calls are commented out (src/Atmo.Core/Data/DbDataStore.cs:151, 158-159, 164-165). The application opens the store on System.Data.SQLite (src/Atmo.UI.DevEx/MainForm.cs:43, 64), whose `ExecuteReader` raises for a command with unbound parameters. As executed, then, every call that reaches the guard (overwriting off and the corrected range reaching past the current one) raises at src/Atmo.Core/Data/DbDataStore.cs:172, before any row changes. That includes every shift the time-correction form makes (src/Atmo.UI.DevEx/TimeCorrection.cs:66) with overwriting off, since a non-zero offset always moves one end outward. The model instead evaluates the WHERE text with the intended values bound, so it blocks only when a record lies in the growth outside the current range.
- Sensor ids: the `Sensor` table's schema is not part of this model, and the INSERT lets the database choose the id. The model assumes a counter (`nextSensorId`) that never goes back. A plain SQLite `INTEGER PRIMARY KEY` hands out one more than the largest id present. After the highest-id sensor is deleted, a new sensor would then get its id, and with it the orphaned summaries that `Directory.DeleteSensorOrphans` shows are left behind.
- Summaries.TenMinuteBeginsAscending: `StatsUtil.Combine` is not part of this model. The lemma assumes that each combined summary begins between the first and the last begin of its group. It also assumes the minute summaries come with nondecreasing begins.
- Summaries.TenMinuteRowsDistinct: rests on the same two assumptions as `Summaries.TenMinuteBeginsAscending`: each combined summary begins between the first and the last begin of its group (`CombineWithin`), and the minute summaries come with nondecreasing begins.
- Offset.OffsetRecords: the fact that shifting back by the opposite offset restores the table is not proved. `Offset.ShiftedAt` states where each record lands instead.

## Findings

| source | as written | input that shows it | evidently intended | confidence | as-written member | corrected member |
|---|---|---|---|---|---|---|
| src/Atmo.Core/Data/DbDataStore.cs:315-318 | `curPartIndex * (resultingSpan - 1)` is an unchecked `int` product and wraps | span 86400, delta 1, part 1: shift -49710, so records land up to 6510 s below `Low` | exact arithmetic: the shift is between 0 and delta, and the block lands in [`Low`, `High + delta - 1`] | not executed; follows from the arithmetic as written | Expand.DayStretchWraps | Expand.DestBounds |
| src/Atmo.Core/Data/DbDataStore.cs:360-361 | `rangeSpan * (delNumber + 2)` is an unchecked `int` product and wraps | span 2592000, 830 deletions, deletion 827: `nextIndex` -828, so that run moves nothing. The run indices are bound as absolute stamps, so the wrap is observable only when `Low` is small, with stamps near 0 to the span | exact arithmetic: the run indices grow with the deletion number | not executed; follows from the arithmetic as written | Shrink.MonthShrinkWraps | Shrink.RunIndexMono |
