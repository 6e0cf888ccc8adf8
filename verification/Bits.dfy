/**
 Arithmetic modulo 2^64, in which sums, differences and products of numbers with the same bits have the same
 bits, and division as C cuts it off.
 */
module Bits {
  const TWO_TO_THE_63: int := 0x8000_0000_0000_0000
  const TWO_TO_THE_64: int := 0x1_0000_0000_0000_0000

  /** The two numbers have the same 64 bits. */
  predicate SameBits(v: int, w: int) {
    (v - w) % TWO_TO_THE_64 == 0
  }

  /** How many times 2^64 the two numbers are apart. */
  function Apart(v: int, w: int): (k: int)
    requires SameBits(v, w)
    ensures v == w + TWO_TO_THE_64 * k
  {
    (v - w) / TWO_TO_THE_64
  }

  lemma ApartSame(v: int, w: int, k: int)
    requires v == w + TWO_TO_THE_64 * k
    ensures SameBits(v, w)
  {
  }

  lemma SumKeepsBits(v: int, a: int, b: int, x: int, y: int)
    requires SameBits(v, a + b) && SameBits(a, x) && SameBits(b, y)
    ensures SameBits(v, x + y)
  {
    hide SameBits;
    var i, j, k := Apart(a, x), Apart(b, y), Apart(v, a + b);
    ApartSame(v, x + y, i + j + k);
  }

  lemma DifferenceKeepsBits(v: int, a: int, b: int, x: int, y: int)
    requires SameBits(v, a - b) && SameBits(a, x) && SameBits(b, y)
    ensures SameBits(v, x - y)
  {
    hide SameBits;
    var i, j, k := Apart(a, x), Apart(b, y), Apart(v, a - b);
    ApartSame(v, x - y, i - j + k);
  }

  lemma ProductKeepsBits(v: int, a: int, b: int, x: int, y: int)
    requires SameBits(v, a * b) && SameBits(a, x) && SameBits(b, y)
    ensures SameBits(v, x * y)
  {
    hide SameBits;
    var i, j, k := Apart(a, x), Apart(b, y), Apart(v, a * b);
    Expands(x, y, i, j, TWO_TO_THE_64);
    ApartSame(v, x * y, x * j + y * i + TWO_TO_THE_64 * (i * j) + k);
  }

  lemma Expands(x: int, y: int, i: int, j: int, m: int)
    ensures (x + m * i) * (y + m * j) == x * y + m * (x * j + y * i + m * (i * j))
  {
    calc {
      (x + m * i) * (y + m * j);
      x * (y + m * j) + (m * i) * (y + m * j);
      x * y + x * (m * j) + (m * i) * y + (m * i) * (m * j);
      x * y + m * (x * j) + m * (y * i) + m * (m * (i * j));
      x * y + m * (x * j + y * i + m * (i * j));
    }
  }

  /** Of the numbers with the same bits, one is a signed 64-bit number. */
  lemma OneInRange(v: int, w: int)
    requires SameBits(v, w)
    requires -TWO_TO_THE_63 <= v < TWO_TO_THE_63 && -TWO_TO_THE_63 <= w < TWO_TO_THE_63
    ensures v == w
  {
  }

  function Abs(x: int): int {
    if x < 0 then -x else x
  }

  /** C division truncates toward zero. */
  function TruncatedDiv(a: int, b: int): int
    requires b != 0
  {
    var q := Abs(a) / Abs(b);
    if (a < 0) != (b < 0) then -q else q
  }

  /** The rest of a division is smaller than the divisor and has the sign of the dividend. */
  predicate IsRest(rest: int, a: int, b: int) {
    -Abs(b) < rest < Abs(b) && (rest == 0 || (rest < 0 <==> a < 0))
  }

  lemma TruncatedDivIs(a: int, b: int)
    requires b != 0
    ensures IsRest(a - TruncatedDiv(a, b) * b, a, b)
  {
    var x, y := Abs(a), Abs(b);
    var q := x / y;
    DivisionLaw(x, y);
    SignedProduct(q, b);
    hide TruncatedDiv;
    QuotientSign(a, b);
  }

  lemma DivisionLaw(x: nat, y: nat)
    requires y > 0
    ensures 0 <= x - x / y * y < y
  {
  }

  lemma QuotientSign(a: int, b: int)
    requires b != 0
    ensures TruncatedDiv(a, b) == if (a < 0) != (b < 0) then -(Abs(a) / Abs(b)) else Abs(a) / Abs(b)
  {
  }

  lemma SignedProduct(q: int, b: int)
    ensures (-q) * b == -(q * b) && q * b == if b < 0 then -(q * Abs(b)) else q * Abs(b)
  {
  }
}
