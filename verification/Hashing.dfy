/**
 The string hash and the bucket index of the chained map (bootstrap/hmap.h:29-45), on unsigned numbers.
 */
module Hashing {
  const TWO_64: nat := 0x1_0000_0000_0000_0000
  const FNV_OFFSET: nat := 1469598103934665603
  const FNV_PRIME: nat := 1099511628211

  function Xor(a: nat, b: nat): nat {
    if a == 0 then b
    else if b == 0 then a
    else (if a % 2 == b % 2 then 0 else 1) + 2 * Xor(a / 2, b / 2)
  }

  function And(a: nat, b: nat): nat {
    if a == 0 || b == 0 then 0 else (a % 2) * (b % 2) + 2 * And(a / 2, b / 2)
  }

  /** A character as the unsigned byte it is in C. */
  function Byte(c: char): nat {
    c as int % 256
  }

  function Fold(s: string, acc: nat): nat {
    if s == [] then acc else Fold(s[1..], Xor(acc, Byte(s[0])) * FNV_PRIME % TWO_64)
  }

  /** 64-bit FNV-1a, except that the empty string hashes to 0. */
  function Hash(s: string): nat {
    if s == [] then 0 else Fold(s, FNV_OFFSET)
  }

  /** The bucket of a hash among `cap` buckets. */
  function Index(cap: nat, h: nat): (i: nat)
    requires cap > 0
    ensures i < cap
  {
    AndAtMost(cap - 1, h);
    And(cap - 1, h)
  }

  lemma {:induction false} AndAtMost(a: nat, b: nat)
    ensures And(a, b) <= a
  {
    if a != 0 && b != 0 {
      AndAtMost(a / 2, b / 2);
    }
  }

  method HashOf(s: string) returns (h: nat)
    ensures h == Hash(s)
  {
    if s == [] {
      return 0;
    }
    h := FNV_OFFSET;
    var i := 0;
    while i < |s|
      invariant 0 <= i <= |s|
      invariant Fold(s[i..], h) == Fold(s, FNV_OFFSET)
    {
      assert s[i..][1..] == s[i + 1..];
      h := Xor(h, Byte(s[i])) * FNV_PRIME % TWO_64;
      i := i + 1;
    }
  }

  // ----- capacities are powers of two -----

  predicate IsPowerOfTwo(n: nat) {
    n == 1 || (n > 1 && n % 2 == 0 && IsPowerOfTwo(n / 2))
  }

  lemma DoublingKeepsPower(n: nat)
    requires IsPowerOfTwo(n)
    ensures IsPowerOfTwo(2 * n)
  {
    assert 2 * n / 2 == n;
  }

  /** With a power of two, masking the hash is the remainder by the capacity. */
  lemma {:induction false} IndexIsRemainder(cap: nat, h: nat)
    requires IsPowerOfTwo(cap)
    ensures Index(cap, h) == h % cap
    decreases cap
  {
    if cap > 1 {
      var half := cap / 2;
      IndexIsRemainder(half, h / 2);
      assert (cap - 1) / 2 == half - 1 && (cap - 1) % 2 == 1;
      if h != 0 {
        HalfRemainder(h, half);
      }
    }
  }

  lemma HalfRemainder(h: nat, half: nat)
    requires half > 0
    ensures h % (2 * half) == h % 2 + 2 * (h / 2 % half)
  {
    var q, r := h / 2 / half, h / 2 % half;
    assert h == 2 * (h / 2) + h % 2;
    assert h / 2 == half * q + r;
    assert h == (2 * half) * q + (2 * r + h % 2);
    RemainderIs(h, 2 * half, q, 2 * r + h % 2);
  }

  lemma {:induction false} MulGap(n: nat, a: nat, b: nat)
    requires a > b
    ensures n * a >= n * b + n
    decreases a
  {
    if a > b + 1 {
      MulGap(n, a - 1, b);
    }
    MulStep(n, a);
  }

  lemma MulStep(n: nat, a: nat)
    requires a > 0
    ensures n * a == n * (a - 1) + n
  {
  }

  lemma Divide(h: nat, n: nat) returns (q: nat, r: nat)
    requires n > 0
    ensures h == n * q + r && r == h % n < n
  {
    q, r := h / n, h % n;
  }

  lemma RemainderIs(h: nat, n: nat, q: nat, r: nat)
    requires n > 0 && h == n * q + r && r < n
    ensures h % n == r
  {
    var q', r' := Divide(h, n);
    if q' > q {
      MulGap(n, q', q);
    } else if q' < q {
      MulGap(n, q, q');
    }
  }

  /** When the capacity doubles, a key stays in its bucket or moves up by the old capacity. */
  lemma DoublingSplitsBuckets(cap: nat, h: nat)
    requires IsPowerOfTwo(cap)
    ensures Index(2 * cap, h) == Index(cap, h) || Index(2 * cap, h) == Index(cap, h) + cap
  {
    DoublingKeepsPower(cap);
    IndexIsRemainder(cap, h);
    IndexIsRemainder(2 * cap, h);
    SplitRemainder(cap, h);
  }

  lemma SplitRemainder(n: nat, h: nat)
    requires n > 0
    ensures h % (2 * n) == h % n || h % (2 * n) == h % n + n
  {
    var q, r := Divide(h, 2 * n);
    TwiceMul(n, q);
    if r < n {
      RemainderIs(h, n, 2 * q, r);
    } else {
      MulStep(n, 2 * q + 1);
      RemainderIs(h, n, 2 * q + 1, r - n);
    }
  }

  lemma TwiceMul(n: nat, q: nat)
    ensures 2 * n * q == n * (2 * q)
  {
  }
}
