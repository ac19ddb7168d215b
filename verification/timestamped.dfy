/**
 `TimeStampedValue`: a stamp paired with a value, ordered by stamp and then
 by value. The value's own ordering (`double.CompareTo`) is a parameter
 `cmp`, assumed to answer with its sign as `IComparable` requires.
 */
module Stamped {

  datatype TimeStampedValue<V> = TimeStampedValue(stamp: int, value: V)

  /** `DateTime.CompareTo` on the stamps: -1, 0 or 1. */
  function IntCompare(a: int, b: int): int {
    if a < b then -1 else if a > b then 1 else 0
  }

  function Sign(x: int): int {
    if x < 0 then -1 else if x > 0 then 1 else 0
  }

  /** The constructor and the two getters. */
  function Make<V>(stamp: int, value: V): TimeStampedValue<V> { TimeStampedValue(stamp, value) }

  function StampProperty<V>(t: TimeStampedValue<V>): int { t.stamp }

  function ValueProperty<V>(t: TimeStampedValue<V>): V { t.value }

  /** The getters give back what the constructor was given, and the
      constructor rebuilds a value from its getters. */
  lemma MakeRoundTrip<V>(stamp: int, value: V, t: TimeStampedValue<V>)
    ensures StampProperty(Make(stamp, value)) == stamp && ValueProperty(Make(stamp, value)) == value
    ensures Make(StampProperty(t), ValueProperty(t)) == t
  {
  }

  /** `CompareTo(other)`: the stamps' comparison unless it is 0, then the
      values'. */
  function CompareTo<V>(a: TimeStampedValue<V>, b: TimeStampedValue<V>, cmp: (V, V) -> int): (c: int)
    ensures a.stamp < b.stamp ==> c == -1
    ensures a.stamp > b.stamp ==> c == 1
    ensures a.stamp == b.stamp ==> c == cmp(a.value, b.value)
  {
    var c := IntCompare(a.stamp, b.stamp);
    if c != 0 then c else cmp(a.value, b.value)
  }

  /** The lexicographic order written out independently. */
  predicate LexLess<V>(a: TimeStampedValue<V>, b: TimeStampedValue<V>, cmp: (V, V) -> int) {
    a.stamp < b.stamp || (a.stamp == b.stamp && cmp(a.value, b.value) < 0)
  }

  /** `CompareTo` is negative exactly when `a` comes first lexicographically,
      and zero exactly on equal stamps with values comparing equal. */
  lemma CompareToIsLex<V>(a: TimeStampedValue<V>, b: TimeStampedValue<V>, cmp: (V, V) -> int)
    ensures CompareTo(a, b, cmp) < 0 <==> LexLess(a, b, cmp)
    ensures CompareTo(a, b, cmp) == 0 <==> a.stamp == b.stamp && cmp(a.value, b.value) == 0
  {
  }

  /** Different stamps decide alone: the values are never consulted. */
  lemma CompareIgnoresValues<V>(a: TimeStampedValue<V>, b: TimeStampedValue<V>, v: V, w: V, cmp: (V, V) -> int)
    requires a.stamp != b.stamp
    ensures CompareTo(a, b, cmp) == CompareTo(a.(value := v), b.(value := w), cmp) == IntCompare(a.stamp, b.stamp)
  {
  }

  /** An instance compares equal to itself when the values do. */
  lemma CompareSelf<V>(a: TimeStampedValue<V>, cmp: (V, V) -> int)
    requires cmp(a.value, a.value) == 0
    ensures CompareTo(a, a, cmp) == 0
  {
  }

  /** Antisymmetric value comparison makes `CompareTo` antisymmetric. */
  lemma CompareAntisymmetric<V>(a: TimeStampedValue<V>, b: TimeStampedValue<V>, cmp: (V, V) -> int)
    requires forall x, y :: Sign(cmp(x, y)) == -Sign(cmp(y, x))
    ensures Sign(CompareTo(a, b, cmp)) == -Sign(CompareTo(b, a, cmp))
  {
    if a.stamp == b.stamp {
      assert Sign(cmp(a.value, b.value)) == -Sign(cmp(b.value, a.value));
    }
  }

  /** A transitive value ordering makes `CompareTo` transitive. */
  lemma CompareTransitive<V>(a: TimeStampedValue<V>, b: TimeStampedValue<V>, c: TimeStampedValue<V>, cmp: (V, V) -> int)
    requires forall x, y, z :: cmp(x, y) <= 0 && cmp(y, z) <= 0 ==> cmp(x, z) <= 0
    requires CompareTo(a, b, cmp) <= 0 && CompareTo(b, c, cmp) <= 0
    ensures CompareTo(a, c, cmp) <= 0
  {
    if a.stamp == b.stamp == c.stamp {
      assert cmp(a.value, b.value) <= 0 && cmp(b.value, c.value) <= 0;
    }
  }
}
