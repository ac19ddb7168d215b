/**
 Integer facts the index arithmetic of the expand and shrink loops rests on.
 Division is the Euclidean `/` on non-negative operands, where it agrees
 with the truncating division of the code.
 */
module Arith {
  function Min(a: int, b: int): int { if a < b then a else b }

  lemma MulMono(d: int, x: int, y: int)
    requires d >= 0 && x <= y
    ensures d * x <= d * y
  {
    assert d * y == d * x + d * (y - x);
  }

  /** The quotient and remainder of Euclidean division are unique. */
  lemma DivUnique(n: int, d: int, q: int, m: int)
    requires d > 0 && 0 <= m < d && n == d * q + m
    ensures n / d == q
  {
    var q0 := n / d;
    assert n == d * q0 + n % d;
    assert d * (q0 + 1) == d * q0 + d;
    assert d * (q + 1) == d * q + d;
    if q0 < q {
      MulMono(d, q0 + 1, q);
    } else if q < q0 {
      MulMono(d, q + 1, q0);
    }
  }

  lemma DivMono(a: int, b: int, d: int)
    requires 0 <= a <= b && d > 0
    ensures a / d <= b / d
  {
    var qa, qb := a / d, b / d;
    assert a == d * qa + a % d;
    assert b == d * qb + b % d;
    assert d * (qb + 1) == d * qb + d;
    if qb < qa {
      MulMono(d, qb + 1, qa);
    }
  }

  lemma DivFloor(n: int, d: int)
    requires n >= 0 && d > 0
    ensures 0 <= (n / d) * d <= n
  {
    var q := n / d;
    assert n == d * q + n % d;
    MulMono(d, 0, q);
    assert q * d == d * q;
  }

  lemma DivAddMultiple(x: int, b: int, y: int)
    requires b > 0
    ensures (x * b + y) / b == x + y / b
  {
    var q, m := y / b, y % b;
    assert y == b * q + m;
    assert x * b + y == b * (x + q) + m;
    DivUnique(x * b + y, b, x + q, m);
  }

  // ---------------------------------------------------------------------
  // C# `int` arithmetic

  const Int32Min: int := -0x8000_0000
  const Int32Max: int := 0x7fff_ffff

  /** An unchecked C# `int` result: the value wrapped into
      [-2^31, 2^31 - 1], equal to `x` modulo 2^32. */
  function Wrap32(x: int): (r: int)
    ensures Int32Min <= r <= Int32Max
    ensures (r - x) % 0x1_0000_0000 == 0
    ensures Int32Min <= x <= Int32Max ==> r == x
  {
    (x - Int32Min) % 0x1_0000_0000 + Int32Min
  }

  /** C# `/` on `int`: the quotient truncated toward zero. */
  function DivT(a: int, b: int): (q: int)
    requires b > 0
    ensures a >= 0 ==> q == a / b
    ensures a < 0 ==> q == -((-a) / b)
  {
    if a >= 0 then a / b else -((-a) / b)
  }
}
