/**
 `OffsetRecords`: shift every record of one sensor in a closed range by a
 fixed number of seconds, after emptying the window the shifted block
 will spill into.
 */
module Offset {
  import opened Schema
  import opened Sql

  /** Records of sensor `sid` whose stamp lies in [lo, hi]. */
  predicate IsSource(k: Key, sid: int, lo: int, hi: int) {
    k.sensor == sid && lo <= k.stamp <= hi
  }

  /** Stamps of the records of `sid` in [lo, hi]. */
  function SourceStamps<V>(t: map<Key, V>, sid: int, lo: int, hi: int): set<int> {
    set s | lo <= s <= hi && Key(sid, s) in t
  }

  /** The window emptied before the shift, for every sensor:
      [Low+offset, Low) when moving down, (High, High+offset] when moving up. */
  predicate InSpillWindow(k: Key, range: Range, offset: int) {
    if offset < 0 then range.low + offset <= k.stamp < range.low
    else range.high < k.stamp <= range.high + offset
  }

  function ClearSpillWindow(t: Records, range: Range, offset: int): (r: Records)
    ensures forall k {:trigger k in r} :: k in r <==> k in t && !InSpillWindow(k, range, offset)
    ensures forall k {:trigger r[k]} :: k in r ==> r[k] == t[k]
  {
    if offset < 0 then DeleteStamps(t, range.low + offset, range.low)
    else DeleteStamps(t, range.high + 1, range.high + offset + 1)
  }

  /** `k` is the destination of a record of `c` with stamp in [from, to]. */
  predicate IsDest(c: Records, sid: int, from: int, to: int, off: int, k: Key) {
    k.sensor == sid && from <= k.stamp - off <= to && Key(sid, k.stamp - off) in c
  }

  predicate InRelocated(c: Records, sid: int, from: int, to: int, off: int, k: Key) {
    (k in c && !IsSource(k, sid, from, to)) || IsDest(c, sid, from, to, off, k)
  }

  /** `c` after the records of `sid` with stamp in [from, to] moved by `off`
      and every other row stayed. */
  function Relocate(c: Records, sid: int, from: int, to: int, off: int): (r: Records)
    ensures forall k {:trigger k in r} :: k in r <==> InRelocated(c, sid, from, to, off, k)
    ensures forall k {:trigger r[k]} :: IsDest(c, sid, from, to, off, k) ==> k in r && r[k] == c[Key(sid, k.stamp - off)]
    ensures forall k {:trigger r[k]} :: k in r && !IsDest(c, sid, from, to, off, k) ==> k in c && r[k] == c[k]
  {
    map k | k in c.Keys + Landing(sid, from + off, to + off) && InRelocated(c, sid, from, to, off, k) ::
      if IsDest(c, sid, from, to, off, k) then c[Key(sid, k.stamp - off)] else c[k]
  }

  /** The keys of sensor `sid` with stamp in [lo, hi]. */
  function Landing(sid: int, lo: int, hi: int): (r: set<Key>)
    ensures forall k {:trigger k in r} :: k in r <==> k.sensor == sid && lo <= k.stamp <= hi
    decreases hi - lo
  {
    if hi < lo then {} else Landing(sid, lo, hi - 1) + {Key(sid, hi)}
  }

  /** Moving one more stamp `s` at the edge of the processed block [from, to],
      in the direction away from the destinations, grows the relocated block
      to [f', t']. */
  lemma RelocateGrow(c: Records, sid: int, from: int, to: int, f': int, t': int, off: int, s: int)
    requires from <= to + 1
    requires (f' == s && t' == to && s == from - 1 && off > 0) || (f' == from && t' == s && s == to + 1 && off < 0)
    requires Key(sid, s) in c ==> Key(sid, s + off) !in Relocate(c, sid, from, to, off)
    ensures MoveOrReplace(Relocate(c, sid, from, to, off), sid, s, off) == Relocate(c, sid, f', t', off)
  {
    var lhs := MoveOrReplace(Relocate(c, sid, from, to, off), sid, s, off);
    var rhs := Relocate(c, sid, f', t', off);
    forall k | k in lhs
      ensures k in rhs && lhs[k] == rhs[k]
    {
      RelocateGrowAt(c, sid, from, to, off, s, k);
    }
    forall k | k in rhs
      ensures k in lhs
    {
      RelocateGrowAt(c, sid, from, to, off, s, k);
    }
    assert lhs.Keys == rhs.Keys;
  }

  /** `RelocateGrow` at one key. */
  lemma RelocateGrowAt(c: Records, sid: int, from: int, to: int, off: int, s: int, k: Key)
    requires from <= to + 1
    requires (s == from - 1 && off > 0) || (s == to + 1 && off < 0)
    requires Key(sid, s) in c ==> Key(sid, s + off) !in Relocate(c, sid, from, to, off)
    ensures var f' := if s == from - 1 then s else from;
      var t' := if s == to + 1 then s else to;
      var lhs := MoveOrReplace(Relocate(c, sid, from, to, off), sid, s, off);
      var rhs := Relocate(c, sid, f', t', off);
      (k in lhs <==> k in rhs) && (k in lhs ==> lhs[k] == rhs[k])
  {
    var f' := if s == from - 1 then s else from;
    var t' := if s == to + 1 then s else to;
    var cur := Relocate(c, sid, from, to, off);
    var rhs := Relocate(c, sid, f', t', off);
    if k == Key(sid, s) {
      assert !InRelocated(c, sid, f', t', off, k);
    } else if k == Key(sid, s + off) {
      DestinationAt(c, sid, from, to, f', t', off, s);
    } else {
      assert IsDest(c, sid, f', t', off, k) <==> IsDest(c, sid, from, to, off, k);
      assert InRelocated(c, sid, from, to, off, k) <==> InRelocated(c, sid, f', t', off, k);
      if k in cur {
        assert cur[k] == rhs[k];
      }
    }
  }

  lemma DestinationAt(c: Records, sid: int, from: int, to: int, f': int, t': int, off: int, s: int)
    requires off != 0 && f' <= s <= t'
    requires (f' == s && t' == to && s == from - 1 && off > 0) || (f' == from && t' == s && s == to + 1 && off < 0)
    requires Key(sid, s) in c ==> Key(sid, s + off) !in Relocate(c, sid, from, to, off)
    ensures var lhs := MoveOrReplace(Relocate(c, sid, from, to, off), sid, s, off);
      var rhs := Relocate(c, sid, f', t', off);
      var k := Key(sid, s + off);
      (k in lhs <==> k in rhs) && (k in lhs ==> lhs[k] == rhs[k])
  {
    var cur := Relocate(c, sid, from, to, off);
    var rhs := Relocate(c, sid, f', t', off);
    var k := Key(sid, s + off);
    assert Key(sid, s) in cur <==> Key(sid, s) in c by {
      assert !IsDest(c, sid, from, to, off, Key(sid, s));
    }
    if Key(sid, s) in c {
      assert cur[Key(sid, s)] == c[Key(sid, s)] by {
        assert !IsDest(c, sid, from, to, off, Key(sid, s));
      }
      assert IsDest(c, sid, f', t', off, k);
    } else {
      assert IsDest(c, sid, f', t', off, k) <==> IsDest(c, sid, from, to, off, k);
      if k in cur {
        assert cur[k] == rhs[k];
      }
    }
  }

  /** The store `OffsetRecords` leaves: the spill window emptied for every
      sensor, then the block [Low, High] of sensor `sid` moved by `offset`. */
  function Shifted(t: Records, sid: int, range: Range, offset: int): (r: Records)
    requires offset != 0
    ensures forall k {:trigger IsDest(t, sid, range.low, range.high, offset, k)} ::
      IsDest(t, sid, range.low, range.high, offset, k) ==> k in r && r[k] == t[Key(sid, k.stamp - offset)]
    ensures forall k {:trigger k in r} ::
      k in t && !IsSource(k, sid, range.low, range.high) && !InSpillWindow(k, range, offset) ==>
      k in r && r[k] == t[k]
    ensures forall k {:trigger k in r} :: k in r ==>
      IsDest(t, sid, range.low, range.high, offset, k)
      || (k in t && !IsSource(k, sid, range.low, range.high) && !InSpillWindow(k, range, offset))
    ensures forall k: Key {:trigger k in r} :: k.sensor != sid && InSpillWindow(k, range, offset) ==> k !in r
  {
    var c := ClearSpillWindow(t, range, offset);
    var r := Relocate(c, sid, range.low, range.high, offset);
    forall k | IsDest(t, sid, range.low, range.high, offset, k)
      ensures k in r && r[k] == t[Key(sid, k.stamp - offset)]
    {
      assert !InSpillWindow(Key(sid, k.stamp - offset), range, offset);
      assert IsDest(c, sid, range.low, range.high, offset, k);
    }
    forall k | k in t && !IsSource(k, sid, range.low, range.high) && !InSpillWindow(k, range, offset)
      ensures k in r && r[k] == t[k]
    {
      assert k in c;
      if IsDest(c, sid, range.low, range.high, offset, k) {
        // a destination is either a source or inside the spill window
        assert false;
      }
    }
    r
  }

  /** Plain UPDATE stamp by stamp, highest first when moving up and lowest
      first when moving down, so that no UPDATE meets an occupied key; the
      count is the number of rows moved. */
  method OffsetRecords(t: Records, sid: int, range: Range, offset: int) returns (r: Records, moved: nat)
    ensures offset == 0 ==> r == t && moved == 0
    ensures offset != 0 ==> r == Shifted(t, sid, range, offset)
    ensures offset != 0 ==> moved == |SourceStamps(t, sid, range.low, range.high)|
  {
    if offset == 0 {
      return t, 0;
    }
    if range.high < range.low {
      EmptyBlock(t, sid, range, offset);
      return ClearSpillWindow(t, range, offset), 0;
    }
    if offset < 0 {
      r, moved := ShiftDown(t, sid, range, offset);
      AscendingShifts(t, sid, range, offset);
    } else {
      r, moved := ShiftUp(t, sid, range, offset);
      DescendingShifts(t, sid, range, offset);
    }
  }

  /** The table after the UPDATEs of stamps lo, lo+1, ..., i-1, in that order. */
  function MovedAscending(c: Records, sid: int, lo: int, i: int, off: int): Records
    decreases i - lo
  {
    if i <= lo then c else MoveOrReplace(MovedAscending(c, sid, lo, i - 1, off), sid, i - 1, off)
  }

  /** The table after the UPDATEs of stamps hi, hi-1, ..., i+1, in that order. */
  function MovedDescending(c: Records, sid: int, i: int, hi: int, off: int): Records
    decreases hi - i
  {
    if hi <= i then c else MoveOrReplace(MovedDescending(c, sid, i + 1, hi, off), sid, i + 1, off)
  }

  /** The whole ascending loop yields `Shifted` and counts the block. */
  lemma AscendingShifts(t: Records, sid: int, range: Range, offset: int)
    requires offset < 0 && range.low <= range.high
    ensures var c := ClearSpillWindow(t, range, offset);
      && MovedAscending(c, sid, range.low, range.high + 1, offset) == Shifted(t, sid, range, offset)
      && |SourceStamps(c, sid, range.low, range.high)| == |SourceStamps(t, sid, range.low, range.high)|
  {
    AscendingRelocates(t, sid, range, offset, range.high + 1);
    ClearKeepsSources(t, sid, range, offset);
  }

  /** The whole descending loop yields `Shifted` and counts the block. */
  lemma DescendingShifts(t: Records, sid: int, range: Range, offset: int)
    requires offset > 0 && range.low <= range.high
    ensures var c := ClearSpillWindow(t, range, offset);
      && MovedDescending(c, sid, range.low - 1, range.high, offset) == Shifted(t, sid, range, offset)
      && |SourceStamps(c, sid, range.low, range.high)| == |SourceStamps(t, sid, range.low, range.high)|
  {
    DescendingRelocates(t, sid, range, offset, range.low - 1);
    ClearKeepsSources(t, sid, range, offset);
  }

  /** Ascending UPDATEs of a downward shift relocate the processed block. */
  lemma {:induction false} AscendingRelocates(t: Records, sid: int, range: Range, offset: int, i: int)
    requires offset < 0 && range.low <= i <= range.high + 1
    ensures var c := ClearSpillWindow(t, range, offset);
      MovedAscending(c, sid, range.low, i, offset) == Relocate(c, sid, range.low, i - 1, offset)
    decreases i - range.low
  {
    if i == range.low {
      AscendingNone(t, sid, range, offset);
    } else {
      AscendingRelocates(t, sid, range, offset, i - 1);
      AscendingGrow(t, sid, range, offset, i);
    }
  }

  lemma AscendingNone(t: Records, sid: int, range: Range, offset: int)
    requires offset < 0
    ensures var c := ClearSpillWindow(t, range, offset);
      MovedAscending(c, sid, range.low, range.low, offset) == Relocate(c, sid, range.low, range.low - 1, offset)
  {
    RelocateNothing(ClearSpillWindow(t, range, offset), sid, range.low, range.low - 1, offset);
  }

  lemma AscendingGrow(t: Records, sid: int, range: Range, offset: int, i: int)
    requires offset < 0 && range.low < i <= range.high + 1
    requires var c := ClearSpillWindow(t, range, offset);
      MovedAscending(c, sid, range.low, i - 1, offset) == Relocate(c, sid, range.low, i - 2, offset)
    ensures var c := ClearSpillWindow(t, range, offset);
      MovedAscending(c, sid, range.low, i, offset) == Relocate(c, sid, range.low, i - 1, offset)
  {
    var c := ClearSpillWindow(t, range, offset);
    GrowBlock(t, sid, range, offset, range.low, i - 2, range.low, i - 1, i - 1);
  }

  /** Descending UPDATEs of an upward shift relocate the processed block. */
  lemma {:induction false} DescendingRelocates(t: Records, sid: int, range: Range, offset: int, i: int)
    requires offset > 0 && range.low - 1 <= i <= range.high
    ensures var c := ClearSpillWindow(t, range, offset);
      MovedDescending(c, sid, i, range.high, offset) == Relocate(c, sid, i + 1, range.high, offset)
    decreases range.high - i
  {
    if i == range.high {
      DescendingNone(t, sid, range, offset);
    } else {
      DescendingRelocates(t, sid, range, offset, i + 1);
      DescendingGrow(t, sid, range, offset, i);
    }
  }

  lemma DescendingNone(t: Records, sid: int, range: Range, offset: int)
    requires offset > 0
    ensures var c := ClearSpillWindow(t, range, offset);
      MovedDescending(c, sid, range.high, range.high, offset) == Relocate(c, sid, range.high + 1, range.high, offset)
  {
    RelocateNothing(ClearSpillWindow(t, range, offset), sid, range.high + 1, range.high, offset);
  }

  lemma DescendingGrow(t: Records, sid: int, range: Range, offset: int, i: int)
    requires offset > 0 && range.low - 1 <= i < range.high
    requires var c := ClearSpillWindow(t, range, offset);
      MovedDescending(c, sid, i + 1, range.high, offset) == Relocate(c, sid, i + 2, range.high, offset)
    ensures var c := ClearSpillWindow(t, range, offset);
      MovedDescending(c, sid, i, range.high, offset) == Relocate(c, sid, i + 1, range.high, offset)
  {
    var c := ClearSpillWindow(t, range, offset);
    GrowBlock(t, sid, range, offset, i + 2, range.high, i + 1, range.high, i + 1);
  }

  /** The UPDATE of stamp `i` in the ascending loop succeeds, yields the
      next state of the loop and counts its row. */
  lemma AscendingStep(t: Records, sid: int, range: Range, offset: int, i: int)
    requires offset < 0 && range.low <= i <= range.high
    ensures var c := ClearSpillWindow(t, range, offset);
      var step := Move(MovedAscending(c, sid, range.low, i, offset), sid, i, offset);
      && step.Ok?
      && step.value.0 == MovedAscending(c, sid, range.low, i + 1, offset)
      && |SourceStamps(c, sid, range.low, i)| == |SourceStamps(c, sid, range.low, i - 1)| + step.value.1
  {
    AscendingRelocates(t, sid, range, offset, i);
    ShiftStep(t, sid, range, offset, range.low, i - 1, range.low, i, i);
  }

  /** The UPDATE of stamp `i` in the descending loop succeeds, yields the
      next state of the loop and counts its row. */
  lemma DescendingStep(t: Records, sid: int, range: Range, offset: int, i: int)
    requires offset > 0 && range.low <= i <= range.high
    ensures var c := ClearSpillWindow(t, range, offset);
      var step := Move(MovedDescending(c, sid, i, range.high, offset), sid, i, offset);
      && step.Ok?
      && step.value.0 == MovedDescending(c, sid, i - 1, range.high, offset)
      && |SourceStamps(c, sid, i, range.high)| == |SourceStamps(c, sid, i + 1, range.high)| + step.value.1
  {
    DescendingRelocates(t, sid, range, offset, i);
    ShiftStep(t, sid, range, offset, i + 1, range.high, i, range.high, i);
  }

  /** The `offset < 0` branch: ascending over [Low, High]. */
  method ShiftDown(t: Records, sid: int, range: Range, offset: int) returns (r: Records, moved: nat)
    requires offset < 0 && range.low <= range.high
    ensures var c := ClearSpillWindow(t, range, offset);
      r == MovedAscending(c, sid, range.low, range.high + 1, offset)
      && moved == |SourceStamps(c, sid, range.low, range.high)|
  {
    var c := ClearSpillWindow(t, range, offset);
    r, moved := c, 0;
    var i := range.low;
    assert SourceStamps(c, sid, range.low, i - 1) == {};
    while i <= range.high
      invariant range.low <= i <= range.high + 1
      invariant r == MovedAscending(c, sid, range.low, i, offset)
      invariant moved == |SourceStamps(c, sid, range.low, i - 1)|
    {
      AscendingStep(t, sid, range, offset, i);
      var step := Move(r, sid, i, offset);
      r, moved := step.value.0, moved + step.value.1;
      i := i + 1;
    }
    assert i == range.high + 1;
  }

  /** The `offset > 0` branch: descending over [Low, High]. */
  method ShiftUp(t: Records, sid: int, range: Range, offset: int) returns (r: Records, moved: nat)
    requires offset > 0 && range.low <= range.high
    ensures var c := ClearSpillWindow(t, range, offset);
      r == MovedDescending(c, sid, range.low - 1, range.high, offset)
      && moved == |SourceStamps(c, sid, range.low, range.high)|
  {
    var c := ClearSpillWindow(t, range, offset);
    r, moved := c, 0;
    var i := range.high;
    assert SourceStamps(c, sid, i + 1, range.high) == {};
    while i >= range.low
      invariant range.low - 1 <= i <= range.high
      invariant r == MovedDescending(c, sid, i, range.high, offset)
      invariant moved == |SourceStamps(c, sid, i + 1, range.high)|
    {
      DescendingStep(t, sid, range, offset, i);
      var step := Move(r, sid, i, offset);
      r, moved := step.value.0, moved + step.value.1;
      i := i - 1;
    }
    assert i == range.low - 1;
  }

  /** One UPDATE of the loop grows the relocated block by one stamp. */
  lemma GrowBlock(t: Records, sid: int, range: Range, offset: int, from: int, to: int, f': int, t': int, s: int)
    requires range.low <= s <= range.high
    requires (offset < 0 && from == range.low && to == s - 1 && f' == from && t' == s)
          || (offset > 0 && from == s + 1 && to == range.high && f' == s && t' == to)
    ensures var c := ClearSpillWindow(t, range, offset);
      MoveOrReplace(Relocate(c, sid, from, to, offset), sid, s, offset) == Relocate(c, sid, f', t', offset)
  {
    DestinationVacant(t, sid, range, offset, from, to, s);
    RelocateGrow(ClearSpillWindow(t, range, offset), sid, from, to, f', t', offset, s);
  }

  /** With an empty block only the spill window is emptied. */
  lemma EmptyBlock(t: Records, sid: int, range: Range, offset: int)
    requires offset != 0 && range.high < range.low
    ensures Shifted(t, sid, range, offset) == ClearSpillWindow(t, range, offset)
    ensures SourceStamps(t, sid, range.low, range.high) == {}
  {
    RelocateNothing(ClearSpillWindow(t, range, offset), sid, range.low, range.high, offset);
  }

  lemma RelocateNothing(c: Records, sid: int, from: int, to: int, off: int)
    requires to < from
    ensures Relocate(c, sid, from, to, off) == c
  {
    var r := Relocate(c, sid, from, to, off);
    assert forall k :: k in r ==> k in c && r[k] == c[k];
    assert r.Keys == c.Keys;
  }

  /** The spill window never overlaps the block, so emptying it keeps every source. */
  lemma ClearKeepsSources(t: Records, sid: int, range: Range, offset: int)
    requires offset != 0
    ensures SourceStamps(ClearSpillWindow(t, range, offset), sid, range.low, range.high)
         == SourceStamps(t, sid, range.low, range.high)
  {
    var c := ClearSpillWindow(t, range, offset);
    forall s | range.low <= s <= range.high
      ensures Key(sid, s) in c <==> Key(sid, s) in t
    {
      assert !InSpillWindow(Key(sid, s), range, offset);
    }
  }

  /** One UPDATE of the loop: it succeeds, grows the relocated block by one
      stamp and counts the row it moved. */
  lemma ShiftStep(t: Records, sid: int, range: Range, offset: int, from: int, to: int, f': int, t': int, s: int)
    requires range.low <= s <= range.high
    requires (offset < 0 && from == range.low && to == s - 1 && f' == from && t' == s)
          || (offset > 0 && from == s + 1 && to == range.high && f' == s && t' == to)
    ensures var c := ClearSpillWindow(t, range, offset);
      var step := Move(Relocate(c, sid, from, to, offset), sid, s, offset);
      && step.Ok?
      && step.value.0 == Relocate(c, sid, f', t', offset)
      && |SourceStamps(c, sid, f', t')| == |SourceStamps(c, sid, from, to)| + step.value.1
  {
    var c := ClearSpillWindow(t, range, offset);
    DestinationVacant(t, sid, range, offset, from, to, s);
    RelocateGrow(c, sid, from, to, f', t', offset, s);
    if offset < 0 {
      CountGrowHigh(c, sid, from, s);
    } else {
      CountGrowLow(c, sid, s, to);
    }
  }

  /** The key the next UPDATE writes is free: either a stamp of the block
      already moved away, or a stamp of the emptied spill window. */
  lemma DestinationVacant(t: Records, sid: int, range: Range, offset: int, from: int, to: int, s: int)
    requires range.low <= s <= range.high
    requires (offset < 0 && from == range.low && to == s - 1) || (offset > 0 && from == s + 1 && to == range.high)
    ensures var c := ClearSpillWindow(t, range, offset);
      Key(sid, s + offset) !in Relocate(c, sid, from, to, offset)
  {
    var c := ClearSpillWindow(t, range, offset);
    var dst := Key(sid, s + offset);
    assert !IsDest(c, sid, from, to, offset, dst);
    if dst in c {
      assert !InSpillWindow(dst, range, offset);
      assert IsSource(dst, sid, from, to);
    }
  }

  lemma CountGrowHigh<V>(t: map<Key, V>, sid: int, lo: int, s: int)
    requires lo <= s
    ensures |SourceStamps(t, sid, lo, s)| ==
      |SourceStamps(t, sid, lo, s - 1)| + (if Key(sid, s) in t then 1 else 0)
  {
    var a := SourceStamps(t, sid, lo, s - 1);
    if Key(sid, s) in t {
      assert SourceStamps(t, sid, lo, s) == a + {s};
    } else {
      assert SourceStamps(t, sid, lo, s) == a;
    }
  }

  lemma CountGrowLow<V>(t: map<Key, V>, sid: int, s: int, hi: int)
    requires s <= hi
    ensures |SourceStamps(t, sid, s, hi)| ==
      |SourceStamps(t, sid, s + 1, hi)| + (if Key(sid, s) in t then 1 else 0)
  {
    var a := SourceStamps(t, sid, s + 1, hi);
    if Key(sid, s) in t {
      assert SourceStamps(t, sid, s, hi) == a + {s};
    } else {
      assert SourceStamps(t, sid, s, hi) == a;
    }
  }

  /** A record of the block is found at its shifted stamp, and nothing else is. */
  lemma ShiftedAt(t: Records, sid: int, range: Range, offset: int, src: Key, dst: Key)
    requires offset != 0 && src.sensor == sid && range.low <= src.stamp <= range.high
    requires dst == Key(sid, src.stamp + offset)
    ensures var r := Shifted(t, sid, range, offset);
      (dst in r <==> src in t) && (src in t ==> r[dst] == t[src])
  {
    var r := Shifted(t, sid, range, offset);
    if src in t {
      assert IsDest(t, sid, range.low, range.high, offset, dst);
    }
    if dst in r {
      assert !(dst in t && !IsSource(dst, sid, range.low, range.high) && !InSpillWindow(dst, range, offset));
      assert IsDest(t, sid, range.low, range.high, offset, dst);
    }
  }
}
