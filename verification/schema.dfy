/**
 The persisted schema of the Atmo data store, as immutable values.

 A database is a `Store`: the sensor directory, the raw `Record` table keyed by
 (sensor id, POSIX second), the two summary tables, the hour and day tables
 (only read and purged here) and the append-only sync-stamp log.
 */
module Schema {

  /** An 8-byte packed reading; the codec that produces it is not modelled. */
  type Packed = b: seq<bv8> | |b| == 8 witness [0, 0, 0, 0, 0, 0, 0, 0]

  /** Primary key of the `Record` and summary tables. */
  datatype Key = Key(sensor: int, stamp: int)

  type Records = map<Key, Packed>

  /** A raw reading as handed to `Push` or returned by `GetReadings`. */
  datatype Reading = Reading(stamp: int, values: Packed)

  /** A minute or ten-minute summary. `stats` stands for the packed
      min/max/mean/stddev blobs and the five histograms, which the store
      only copies around. */
  datatype Summary = Summary(begin: int, count: int, stats: seq<bv8>)

  type SummaryTable = map<Key, Summary>

  /** One row of the `Sensor` table, indexed by its unique name key. */
  datatype SensorRow = SensorRow(id: int, lastHardwareId: string)

  datatype Store = Store(
    sensors: map<string, SensorRow>,
    nextSensorId: int,
    records: Records,
    minute: SummaryTable,
    tenMinute: SummaryTable,
    hour: set<Key>,
    day: set<Key>,
    syncStamps: seq<int>
  )

  /** A closed range of POSIX seconds. Assumed shape of `PosixTimeRange`:
      integer bounds, `Span = High - Low`, closed-interval overlap. */
  datatype Range = Range(low: int, high: int) {
    function Span(): int { high - low }

    predicate Intersects(other: Range) {
      low <= other.high && other.low <= high
    }
  }

  /** The exceptions the store raises, and the one it would raise on a
      colliding plain UPDATE or INSERT. */
  datatype Error =
    | KeyNotFound
    | InvalidOperation
    | ArgumentNull
    | ArgumentOutOfRange
    | DivideByZero
    | ConstraintViolation
    | NotSupported

  datatype Result<+T> = Ok(value: T) | Err(error: Error)

  datatype Option<+T> = None | Some(value: T)

  /** Rows per transaction in bulk writes (`RecordBatchQuantity = UInt16.MaxValue`). */
  const RecordBatchQuantity: nat := 65535

  /** `new DateTime(9999, 1, 1)` and `new DateTime(0)` as POSIX seconds. */
  const MaxStampSentinel: int := 253370764800
  const DateTimeZero: int := -62135596800

  /** Seconds per ten-minute period. */
  const TenMinutes: int := 600

  /** `TimeSpan` tick counts (100 ns per tick). */
  const OneMinuteTicks: int := 600000000
  const TenMinutesTicks: int := 6000000000
  const OneHourTicks: int := 36000000000
  const OneDayTicks: int := 864000000000

  /** The sensor id the store resolves a name to, or -1 when there is none. */
  function LookupId(st: Store, name: string): int
  {
    if name in st.sensors then st.sensors[name].id else -1
  }
}
