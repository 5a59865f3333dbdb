/** Facts about Euclidean division by a positive divisor that the movement and
    turn-rotation proofs need. Dafny's solver does not find them on its own. */
module Arith {

  /** Division and remainder are determined by any decomposition x == q * d + r with 0 <= r < d. */
  lemma DivModUnique(x: int, d: int, q: int, r: int)
    requires d > 0 && 0 <= r < d && x == q * d + r
    ensures x / d == q && x % d == r
  {
    var q', r' := x / d, x % d;
    assert x == q' * d + r';
    var k := q - q';
    assert k * d == r' - r by {
      assert q * d - q' * d == (q - q') * d;
    }
  }

  /** Adding to a number already reduced modulo d gives the same remainder as adding to the number. */
  lemma ModAdd(x: int, k: int, d: int)
    requires d > 0
    ensures (x % d + k) % d == (x + k) % d
  {
    var y := x % d + k;
    var q := (x + k) / d;
    var r := (x + k) % d;
    assert x == (x / d) * d + x % d;
    assert y == (q - x / d) * d + r by {
      assert (q - x / d) * d == q * d - (x / d) * d;
    }
    DivModUnique(y, d, q - x / d, r);
  }

  /** One more step moves the remainder up by one, or wraps it to 0 and carries one into the quotient. */
  lemma ModStep(a: int, d: int)
    requires d > 0
    ensures (a + 1) % d == (if a % d + 1 == d then 0 else a % d + 1)
    ensures (a + 1) / d == a / d + (if a % d + 1 == d then 1 else 0)
  {
    assert a == (a / d) * d + a % d;
    if a % d + 1 == d {
      assert a + 1 == (a / d + 1) * d + 0 by {
        assert (a / d + 1) * d == (a / d) * d + d;
      }
      DivModUnique(a + 1, d, a / d + 1, 0);
    } else {
      DivModUnique(a + 1, d, a / d, a % d + 1);
    }
  }

  /** A number in [0, d) is its own remainder. */
  lemma ModSmall(x: int, d: int)
    requires 0 <= x < d
    ensures x % d == x && x / d == 0
  {
    DivModUnique(x, d, 0, x);
  }

  lemma FloorBounds(x: int, d: int)
    requires d > 0
    ensures d * (x / d) <= x < d * (x / d + 1)
  {
    assert x == (x / d) * d + x % d;
  }

  lemma MulLe(a: int, b: int, c: int)
    requires a >= 0 && b <= c
    ensures a * b <= a * c
  {
    assert a * c - a * b == a * (c - b);
  }

  lemma MulLt(a: int, b: int, c: int)
    requires a > 0 && b < c
    ensures a * b < a * c
  {
    assert a * c - a * b == a * (c - b);
  }
}
