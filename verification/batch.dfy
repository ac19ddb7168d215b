/**
 Bulk INSERTs committed in batches, as `PushReadings` and `PushSummaries` do
 them: one INSERT per row, a commit after every `RecordBatchQuantity` rows
 and a final commit. A row whose INSERT raises (a plain INSERT onto an
 existing key, or a storage fault injected at that row) ends the write; the
 open transaction is lost and only the committed batches remain.

 Every definition is about the first `n` rows of a sequence, so that a loop
 over the rows and the induction over them name the same terms.
 */
module Batch {
  import opened Schema

  /** How an INSERT resolves a key collision: `INSERT OR REPLACE`,
      `INSERT OR IGNORE` or a plain `INSERT`. */
  datatype InsertMode = OrReplace | OrIgnore | Plain

  /** One INSERT of `v` at `k`; a plain INSERT onto an existing key raises. */
  function Insert<V>(t: map<Key, V>, k: Key, v: V, mode: InsertMode): Result<map<Key, V>>
  {
    match mode
    case OrReplace => Ok(t[k := v])
    case OrIgnore => if k in t then Ok(t) else Ok(t[k := v])
    case Plain => if k in t then Err(ConstraintViolation) else Ok(t[k := v])
  }

  /** The first `n` rows in order, each INSERT applied to the table the
      previous ones left; the first INSERT that raises makes the whole result
      an error. */
  function Applied<V>(t: map<Key, V>, rows: seq<(Key, V)>, mode: InsertMode, n: nat): Result<map<Key, V>>
    requires n <= |rows|
    decreases n
  {
    if n == 0 then Ok(t)
    else
      match Applied(t, rows, mode, n - 1)
      case Err(e) => Err(e)
      case Ok(m) => Insert(m, rows[n - 1].0, rows[n - 1].1, mode)
  }

  /** The keys the first `n` rows name. */
  function RowKeys<V>(rows: seq<(Key, V)>, n: nat): set<Key>
    requires n <= |rows|
    decreases n
  {
    if n == 0 then {} else RowKeys(rows, n - 1) + {rows[n - 1].0}
  }

  /** The value of the last of the first `n` rows with key `k`. */
  function LastValue<V>(rows: seq<(Key, V)>, n: nat, k: Key): V
    requires n <= |rows| && k in RowKeys(rows, n)
    decreases n
  {
    if rows[n - 1].0 == k then rows[n - 1].1 else LastValue(rows, n - 1, k)
  }

  /** The value of the first row with key `k`. */
  function FirstValue<V>(rows: seq<(Key, V)>, n: nat, k: Key): V
    requires n <= |rows| && k in RowKeys(rows, n)
    decreases n
  {
    if k in RowKeys(rows, n - 1) then FirstValue(rows, n - 1, k) else rows[n - 1].1
  }

  /** No two of the first `n` rows share a key and none of their keys is
      already in `t`. */
  predicate Fresh<V>(t: map<Key, V>, rows: seq<(Key, V)>, n: nat)
    requires n <= |rows|
  {
    && (forall i, j :: 0 <= i < j < n ==> rows[i].0 != rows[j].0)
    && (forall i :: 0 <= i < n ==> rows[i].0 !in t)
  }

  lemma {:induction false} RowKeysIndex<V>(rows: seq<(Key, V)>, n: nat, k: Key)
    requires n <= |rows|
    ensures k in RowKeys(rows, n) <==> exists i :: 0 <= i < n && rows[i].0 == k
    decreases n
  {
    if n > 0 {
      RowKeysIndex(rows, n - 1, k);
    }
  }

  /** `INSERT OR REPLACE`: never raises, and each named key ends with the
      value of its last row; every other key is untouched. */
  lemma {:induction false} ReplaceAll<V>(t: map<Key, V>, rows: seq<(Key, V)>, n: nat)
    requires n <= |rows|
    ensures Applied(t, rows, OrReplace, n).Ok?
    ensures var m := Applied(t, rows, OrReplace, n).value;
      && m.Keys == t.Keys + RowKeys(rows, n)
      && (forall k :: k in RowKeys(rows, n) ==> m[k] == LastValue(rows, n, k))
      && (forall k :: k in t && k !in RowKeys(rows, n) ==> m[k] == t[k])
    decreases n
  {
    if n > 0 {
      ReplaceAll(t, rows, n - 1);
    }
  }

  /** `INSERT OR IGNORE`: never raises, an existing key keeps its value and a
      new key takes the value of its first row. */
  lemma {:induction false} IgnoreAll<V>(t: map<Key, V>, rows: seq<(Key, V)>, n: nat)
    requires n <= |rows|
    ensures Applied(t, rows, OrIgnore, n).Ok?
    ensures var m := Applied(t, rows, OrIgnore, n).value;
      && m.Keys == t.Keys + RowKeys(rows, n)
      && (forall k :: k in t ==> m[k] == t[k])
      && (forall k :: k in RowKeys(rows, n) && k !in t ==> m[k] == FirstValue(rows, n, k))
    decreases n
  {
    if n > 0 {
      IgnoreAll(t, rows, n - 1);
    }
  }

  /** A plain INSERT of every row succeeds exactly when the rows are fresh,
      and then it agrees with `INSERT OR REPLACE`. */
  lemma {:induction false} PlainAll<V>(t: map<Key, V>, rows: seq<(Key, V)>, n: nat)
    requires n <= |rows|
    ensures Applied(t, rows, Plain, n).Ok? <==> Fresh(t, rows, n)
    ensures Applied(t, rows, Plain, n).Ok? ==> Applied(t, rows, Plain, n) == Applied(t, rows, OrReplace, n)
    decreases n
  {
    if n > 0 {
      PlainAll(t, rows, n - 1);
      ReplaceAll(t, rows, n - 1);
      FreshNext(t, rows, n);
    }
  }

  /** The first `n` rows are fresh exactly when the first `n - 1` are and row
      `n - 1` names a key neither the table nor the earlier rows hold. */
  lemma FreshNext<V>(t: map<Key, V>, rows: seq<(Key, V)>, n: nat)
    requires 0 < n <= |rows|
    ensures Fresh(t, rows, n) <==>
      Fresh(t, rows, n - 1) && rows[n - 1].0 !in t && rows[n - 1].0 !in RowKeys(rows, n - 1)
  {
    RowKeysIndex(rows, n - 1, rows[n - 1].0);
  }

  /** Once an INSERT has raised, the later rows do not matter. */
  lemma {:induction false} ErrSticks<V>(t: map<Key, V>, rows: seq<(Key, V)>, mode: InsertMode, a: nat, b: nat)
    requires a <= b <= |rows| && Applied(t, rows, mode, a).Err?
    ensures Applied(t, rows, mode, b).Err?
    decreases b
  {
    if a < b {
      ErrSticks(t, rows, mode, a, b - 1);
    }
  }

  /** A plain INSERT of fresh rows adds each row under its key and keeps
      every existing row. */
  lemma {:induction false} PlainFresh<V>(t: map<Key, V>, rows: seq<(Key, V)>, n: nat)
    requires n <= |rows| && Fresh(t, rows, n)
    ensures Applied(t, rows, Plain, n).Ok?
    ensures var m := Applied(t, rows, Plain, n).value;
      && m.Keys == t.Keys + RowKeys(rows, n)
      && (forall k :: k in t ==> m[k] == t[k])
      && (forall i :: 0 <= i < n ==> rows[i].0 in m && m[rows[i].0] == rows[i].1)
    decreases n
  {
    if n > 0 {
      assert Fresh(t, rows, n - 1);
      PlainFresh(t, rows, n - 1);
      RowKeysIndex(rows, n - 1, rows[n - 1].0);
    }
  }

  /** Rows that all belong to sensor `sid` leave the other sensors' rows as
      they were, whatever the mode. */
  lemma {:induction false} KeepsOtherSensors<V>(t: map<Key, V>, rows: seq<(Key, V)>, mode: InsertMode, n: nat, sid: int)
    requires n <= |rows| && Applied(t, rows, mode, n).Ok?
    requires forall i :: 0 <= i < n ==> rows[i].0.sensor == sid
    ensures var m := Applied(t, rows, mode, n).value;
      forall k: Key :: k.sensor != sid ==> (k in m <==> k in t) && (k in t ==> m[k] == t[k])
    decreases n
  {
    if n > 0 {
      KeepsOtherSensors(t, rows, mode, n - 1, sid);
    }
  }

  /** Rows per transaction. */
  const Batch: nat := RecordBatchQuantity

  /** The INSERT of row `f` raises: a fault is injected there, or the table
      the earlier rows left rejects it. */
  predicate FailsAt<V>(start: map<Key, V>, rows: seq<(Key, V)>, mode: InsertMode, fault: Option<nat>, f: nat)
    requires f < |rows| && Applied(start, rows, mode, f).Ok?
  {
    fault == Some(f) || Insert(Applied(start, rows, mode, f).value, rows[f].0, rows[f].1, mode).Err?
  }

  /** After `i` rows the counter has wrapped `batches` times. */
  lemma BatchCount(i: int, batches: int, counter: int)
    requires 0 <= counter < Batch && batches * Batch + counter == i
    ensures i / Batch == batches
  {
  }

  /** Runs the INSERTs of `rows` on `start`, the table as it stands inside the
      first transaction; `base` is the table before that transaction began.
      Returns the table as committed, the index of the failing row if any,
      and the number of commits. */
  method WriteBatched<V>(base: map<Key, V>, start: map<Key, V>, rows: seq<(Key, V)>, mode: InsertMode, fault: Option<nat>)
    returns (r: map<Key, V>, failed: Option<nat>, commits: nat)
    // success: every row applied, one commit per full batch plus the final one
    ensures failed.None? ==> Applied(start, rows, mode, |rows|).Ok? && (fault.None? || fault.value >= |rows|)
    ensures failed.None? ==> r == Applied(start, rows, mode, |rows|).value && commits == |rows| / Batch + 1
    // failure: the first row whose INSERT raises, and the batches before it
    ensures failed.Some? ==> failed.value < |rows| && Applied(start, rows, mode, failed.value).Ok?
    ensures failed.Some? ==> (fault.None? || fault.value >= failed.value) && FailsAt(start, rows, mode, fault, failed.value)
    ensures failed.Some? ==> commits == failed.value / Batch
    ensures failed.Some? && commits == 0 ==> r == base
    ensures failed.Some? && commits > 0 ==> Applied(start, rows, mode, commits * Batch) == Ok(r)
  {
    var m := start;
    var committed := base;
    var counter := 0;
    var batches := 0;
    var i := 0;
    failed := None;
    while i < |rows| && failed.None?
      invariant 0 <= i <= |rows|
      invariant Applied(start, rows, mode, i) == Ok(m)
      invariant fault.None? || fault.value >= i
      invariant 0 <= counter < Batch && batches * Batch + counter == i
      invariant batches == 0 ==> committed == base
      invariant batches > 0 ==> Applied(start, rows, mode, batches * Batch) == Ok(committed)
      invariant failed.Some? ==> failed.value == i < |rows| && FailsAt(start, rows, mode, fault, i)
      decreases |rows| - i, failed.None?
    {
      var step := Insert(m, rows[i].0, rows[i].1, mode);
      if fault == Some(i) || step.Err? {
        failed := Some(i);
      } else {
        m := step.value;
        counter := counter + 1;
        if counter >= Batch {
          counter := 0;
          batches := batches + 1;
          committed := m;
        }
        i := i + 1;
      }
    }
    BatchCount(i, batches, counter);
    if failed.Some? {
      return committed, failed, batches;
    }
    return m, None, batches + 1;
  }
}
