/** The C integer vocabulary the resizer's arithmetic is written in: a
    32-bit `int` and division that truncates toward zero. */
module CInt {

  const MinInt32: int := -0x8000_0000
  const MaxInt32: int := 0x7FFF_FFFF

  /** A C `int` (`gint`) on the platforms GTK targets. */
  newtype int32 = x: int | -0x8000_0000 <= x < 0x8000_0000

  predicate InInt32(x: int)
  {
    MinInt32 <= x <= MaxInt32
  }

  function Abs(x: int): nat
  {
    if x < 0 then -x else x
  }

  /** Division as C defines it (section 6.5.5 of ISO/IEC 9899:1999): the
      quotient is truncated toward zero, so the remainder is smaller than
      the divisor in magnitude and has the sign of the dividend. */
  function TruncDiv(a: int, b: int): (q: int)
    requires b != 0
    ensures Abs(a - q * b) < Abs(b)
    ensures a - q * b == 0 || (a - q * b > 0 <==> a > 0)
    ensures Abs(q) <= Abs(a)
  {
    TruncDivFacts(a, b);
    var q0 := Abs(a) / Abs(b);
    if (a >= 0) == (b > 0) then q0 else -q0
  }

  /** The remainder left by the signed quotient is the remainder of the
      magnitudes, carrying the dividend's sign. */
  lemma TruncDivFacts(a: int, b: int)
    requires b != 0
    ensures var q0 := Abs(a) / Abs(b);
      var q := if (a >= 0) == (b > 0) then q0 else -q0;
      && Abs(a - q * b) == Abs(a) - q0 * Abs(b) < Abs(b)
      && (a - q * b == 0 || (a - q * b > 0 <==> a > 0))
      && Abs(q) <= Abs(a)
  {
    var d: int, c: int := Abs(a), Abs(b);
    FloorFacts(d, c);
    var q0: int := d / c;
    var q: int := if (a >= 0) == (b > 0) then q0 else -q0;
    var m := q0 * c;
    if a >= 0 && b > 0 {
      assert q * b == m;
    } else if a >= 0 {
      assert q * b == (-q0) * (-c) == m;
    } else if b > 0 {
      assert q * b == -m;
    } else {
      assert q * b == q0 * (-c) == -m;
    }
  }

  /** Dafny's division of a natural number by a positive one, as the
      truncated quotient and remainder of the magnitudes. */
  lemma FloorFacts(d: nat, c: int)
    requires c > 0
    ensures 0 <= d / c <= d
    ensures 0 <= d - (d / c) * c < c
  {
    var q := d / c;
    assert d == q * c + d % c;
    assert q * c >= q by {
      assert q >= 0;
      MulMonotone(q, c);
    }
  }

  lemma MulMonotone(q: nat, c: int)
    requires c >= 1
    ensures q * c >= q
    ensures q >= 1 ==> q * c >= c
  {
  }

  /** The two properties C requires of a quotient determine it. */
  lemma {:induction false} TruncDivUnique(a: int, b: int, q: int)
    requires b != 0
    requires Abs(a - q * b) < Abs(b)
    requires a - q * b == 0 || (a - q * b > 0 <==> a > 0)
    ensures q == TruncDiv(a, b)
  {
    var t := TruncDiv(a, b);
    var r, s := a - q * b, a - t * b;
    assert Abs(s - r) < Abs(b) by {
      if a > 0 {
        assert 0 <= r && 0 <= s;
      } else {
        assert r <= 0 && s <= 0;
      }
    }
    assert (q - t) * b == s - r;
    AbsMul(q - t, b);
    if q != t {
      MulMonotone(Abs(q - t), Abs(b));
    }
  }

  lemma AbsMul(x: int, y: int)
    ensures Abs(x * y) == Abs(x) * Abs(y)
  {
    if x < 0 && y < 0 {
      assert x * y == (-x) * (-y);
    } else if x < 0 {
      assert -(x * y) == (-x) * y;
    } else if y < 0 {
      assert -(x * y) == x * (-y);
    }
  }

  lemma MulLe(x: int, y: int, z: int)
    requires x <= y && z >= 0
    ensures x * z <= y * z
  {
  }

  /** The quotient of two C `int`s is a C `int`, except the least `int`
      divided by -1. */
  lemma {:induction false} TruncDivInt32(a: int, b: int)
    requires InInt32(a) && b != 0 && !(a == MinInt32 && b == -1)
    ensures InInt32(TruncDiv(a, b))
  {
    var d: int, c: int := Abs(a), Abs(b);
    FloorFacts(d, c);
    var q := d / c;
    if c >= 2 {
      MulLe(2, c, q);
      assert 2 * q <= d;
    } else {
      assert c == 1;
      assert q == d;
    }
  }

  /** On a non-negative dividend and a positive divisor truncation is the
      floor, which is what Dafny's own division computes there. */
  lemma TruncDivIsFloor(a: int, b: int)
    requires a >= 0 && b > 0
    ensures TruncDiv(a, b) == a / b
    ensures TruncDiv(a, b) * b <= a < (TruncDiv(a, b) + 1) * b
  {
  }

  /** C and Dafny disagree on a negative dividend: -7 / 2 is -3 in C. */
  lemma TruncDivNegative()
    ensures TruncDiv(-7, 2) == -3 && -7 / 2 == -4
  {
  }
}
