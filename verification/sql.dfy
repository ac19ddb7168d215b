/**
 The SQL statements the store issues against a keyed table, as edits of a
 finite map. Each function is one statement; the contracts say which keys
 it touches and that it touches nothing else.
 */
module Sql {
  import opened Schema

  /** `DELETE FROM t WHERE stamp >= lo AND stamp < hi`, with no sensor filter:
      rows of every sensor in the window go. */
  function DeleteStamps<V>(t: map<Key, V>, lo: int, hi: int): (r: map<Key, V>)
    ensures forall k {:trigger k in r} :: k in r <==> k in t && !(lo <= k.stamp < hi)
    ensures forall k {:trigger r[k]} :: k in r ==> r[k] == t[k]
    ensures |r| <= |t|
  {
    var r := map k | k in t && !(lo <= k.stamp < hi) :: t[k];
    assert r.Keys <= t.Keys;
    SubsetCard(r.Keys, t.Keys);
    r
  }

  /** `DELETE FROM t WHERE sensorId = sid AND stamp >= lo AND stamp < hi`. */
  function DeleteSensorStamps<V>(t: map<Key, V>, sid: int, lo: int, hi: int): (r: map<Key, V>)
    ensures forall k :: k in r <==> k in t && !(k.sensor == sid && lo <= k.stamp < hi)
    ensures forall k :: k in r ==> r[k] == t[k]
    ensures |r| <= |t|
  {
    var r := map k | k in t && !(k.sensor == sid && lo <= k.stamp < hi) :: t[k];
    assert r.Keys <= t.Keys;
    SubsetCard(r.Keys, t.Keys);
    r
  }

  /** `DELETE FROM t WHERE sensorId = sid`. */
  function DeleteSensorRows<V>(t: map<Key, V>, sid: int): (r: map<Key, V>)
    ensures forall k :: k in r <==> k in t && k.sensor != sid
    ensures forall k :: k in r ==> r[k] == t[k]
  {
    map k | k in t && k.sensor != sid :: t[k]
  }

  lemma SubsetCard<T>(a: set<T>, b: set<T>)
    requires a <= b
    ensures |a| <= |b|
  {
    assert b == a + (b - a);
  }

  /** `UPDATE OR REPLACE t SET stamp = stamp + off WHERE sensorId = sid AND stamp = s`:
      the row moves, and a row already at the destination is replaced. */
  function MoveOrReplace<V>(t: map<Key, V>, sid: int, s: int, off: int): (r: map<Key, V>)
    ensures Key(sid, s) in t ==> Key(sid, s + off) in r && r[Key(sid, s + off)] == t[Key(sid, s)]
    ensures Key(sid, s) in t && off != 0 ==> Key(sid, s) !in r
    ensures forall k :: k != Key(sid, s) && k != Key(sid, s + off) ==>
      (k in r <==> k in t) && (k in r ==> r[k] == t[k])
    ensures Key(sid, s) !in t ==> r == t
    ensures |r| <= |t|
  {
    var src := Key(sid, s);
    if src in t then
      var rest := t - {src};
      assert rest.Keys == t.Keys - {src};
      assert |rest.Keys| == |t.Keys| - 1;
      var r := rest[Key(sid, s + off) := t[src]];
      assert r.Keys == rest.Keys + {Key(sid, s + off)};
      r
    else
      t
  }

  /** A plain `UPDATE t SET stamp = stamp + off WHERE sensorId = sid AND stamp = s`,
      returning the new table and the number of rows it changed. Moving onto
      an occupied key violates the primary key and raises. */
  function Move<V>(t: map<Key, V>, sid: int, s: int, off: int): (r: Result<(map<Key, V>, nat)>)
    ensures r.Err? <==> off != 0 && Key(sid, s) in t && Key(sid, s + off) in t
    ensures r.Err? ==> r.error == ConstraintViolation
    ensures r.Ok? ==> r.value.0 == MoveOrReplace(t, sid, s, off)
    ensures r.Ok? ==> r.value.1 == if Key(sid, s) in t then 1 else 0
  {
    var src := Key(sid, s);
    if src !in t then Ok((t, 0))
    else if off != 0 && Key(sid, s + off) in t then Err(ConstraintViolation)
    else Ok((MoveOrReplace(t, sid, s, off), 1))
  }
}
