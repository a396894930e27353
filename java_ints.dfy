/**
 * Java's fixed-width integer arithmetic on Dafny's unbounded integers:
 * two's-complement wrap-around of int and long, and division and
 * remainder that truncate toward zero.
 */
module JavaInts {

  const Int32Modulus: int := 0x1_0000_0000
  const Int64Modulus: int := 0x1_0000_0000_0000_0000

  predicate IsInt32(x: int)
  {
    -0x8000_0000 <= x < 0x8000_0000
  }

  predicate IsInt64(x: int)
  {
    -0x8000_0000_0000_0000 <= x < 0x8000_0000_0000_0000
  }

  /** A Java int value. */
  type Int32 = x: int | IsInt32(x)

  /** A Java long value. */
  type Int64 = x: int | IsInt64(x)

  /** The int that Java's 32-bit arithmetic leaves for the exact result x. */
  function Wrap32(x: int): (r: Int32)
    ensures IsInt32(x) ==> r == x
  {
    (x + 0x8000_0000) % Int32Modulus - 0x8000_0000
  }

  /** The long that Java's 64-bit arithmetic leaves for the exact result x. */
  function Wrap64(x: int): (r: Int64)
    ensures IsInt64(x) ==> r == x
    ensures (x - r) % Int64Modulus == 0
  {
    (x + 0x8000_0000_0000_0000) % Int64Modulus - 0x8000_0000_0000_0000
  }

  /** Wrapping forgets exactly the multiples of 2^32. */
  lemma {:induction false} Wrap32Offset(x: int)
    ensures (x - Wrap32(x)) % Int32Modulus == 0
  {
    var h := x + 0x8000_0000;
    assert h == (h / Int32Modulus) * Int32Modulus + h % Int32Modulus;
    assert x - Wrap32(x) == (h / Int32Modulus) * Int32Modulus;
  }

  lemma {:induction false} Wrap32Congruent(x: int, y: int)
    requires (x - y) % Int32Modulus == 0
    ensures Wrap32(x) == Wrap32(y)
  {
    var k := (x - y) / Int32Modulus;
    assert x - y == k * Int32Modulus;
    var hx, hy := x + 0x8000_0000, y + 0x8000_0000;
    assert hx == hy + k * Int32Modulus;
    var qy := hy / Int32Modulus;
    assert hy == qy * Int32Modulus + hy % Int32Modulus;
    assert hx == (qy + k) * Int32Modulus + hy % Int32Modulus;
    assert hx % Int32Modulus == hy % Int32Modulus;
  }

  /** Adding to an already wrapped accumulator wraps the exact sum. */
  lemma Wrap32Add(a: int, v: int)
    ensures Wrap32(Wrap32(a) + v) == Wrap32(a + v)
  {
    Wrap32Offset(a);
    Wrap32Congruent(Wrap32(a) + v, a + v);
  }

  /** Subtracting two wrapped values wraps the exact difference. */
  lemma Wrap32Sub(a: int, b: int)
    ensures Wrap32(Wrap32(a) - Wrap32(b)) == Wrap32(a - b)
  {
    Wrap32Offset(a);
    Wrap32Offset(b);
    Wrap32Congruent(Wrap32(a) - Wrap32(b), a - b);
  }

  /**
   * Java's `/` on int and long: the quotient truncated toward zero, so the
   * remainder left over has the dividend's sign and is smaller than the
   * divisor in magnitude.
   */
  function JavaDiv(a: int, b: int): (q: int)
    requires b > 0
    ensures a >= 0 ==> 0 <= a - q * b < b
    ensures a < 0 ==> -b < a - q * b <= 0
  {
    if a >= 0 then a / b else -((-a) / b)
  }

  /** Those bounds leave one quotient only. */
  lemma JavaDivUnique(a: int, b: int, q: int)
    requires b > 0
    requires a >= 0 ==> 0 <= a - q * b < b
    requires a < 0 ==> -b < a - q * b <= 0
    ensures q == JavaDiv(a, b)
  {
    var d := JavaDiv(a, b);
    var k := q - d;
    assert (a - d * b) - (a - q * b) == k * b by {
      assert q * b == (d + k) * b == d * b + k * b;
    }
    MultipleBound(k, b);
  }

  /** A non-zero multiple of b is at least b away from zero. */
  lemma MultipleBound(k: int, b: int)
    requires b > 0
    ensures k >= 1 ==> k * b >= b
    ensures k <= -1 ==> k * b <= -b
  {
    if k >= 1 {
      assert k * b == b + (k - 1) * b;
    } else if k <= -1 {
      assert k * b == -b - (-k - 1) * b;
    }
  }

  /** Java's `%` on int and long: the remainder takes the sign of the dividend. */
  function JavaRem(a: int, b: int): (r: int)
    requires b > 0
    ensures a == JavaDiv(a, b) * b + r
    ensures a >= 0 ==> 0 <= r < b
    ensures a < 0 ==> -b < r <= 0
  {
    a - JavaDiv(a, b) * b
  }

  /** String.hashCode: h = 31 * h + c over the characters, in int arithmetic. */
  function StringHash(s: seq<char>): Int32
  {
    if |s| == 0 then 0 else Wrap32(31 * StringHash(s[..|s| - 1]) + s[|s| - 1] as int)
  }
}
