/**
 Bitwise and on unsigned integers, and the fact the ring index computation
 rests on: and-ing a counter with 2^k - 1 keeps the counter modulo 2^k.
 */
module Bits {

  /** The size of the u32 value space: u32 arithmetic is modulo this. */
  const Word: int := 0x1_0000_0000

  /** True when `n` is a power of two. */
  predicate IsPow2(n: int)
    decreases n
  {
    if n <= 1 then n == 1 else n % 2 == 0 && IsPow2(n / 2)
  }

  /** `a & b`, computed bit by bit from the lowest bit. */
  function BitAnd(a: nat, b: nat): (r: nat)
    ensures r <= a && r <= b
    decreases a
  {
    if a == 0 || b == 0 then 0
    else 2 * BitAnd(a / 2, b / 2) + (if a % 2 == 1 && b % 2 == 1 then 1 else 0)
  }

  /** `n * d` is at least `n` when `d` is at least one. */
  lemma {:induction false} MulAtLeast(n: int, d: int)
    requires n > 0 && d >= 1
    ensures n * d >= n
    decreases d
  {
    if d > 1 {
      MulAtLeast(n, d - 1);
      assert n * d == n * (d - 1) + n;
    }
  }

  /** Quotient and remainder are unique: any split `t == n * q + s` with
      `0 <= s < n` is the one `/` and `%` give. */
  lemma ModUnique(t: int, n: int, q: int, s: int)
    requires n > 0 && t == n * q + s && 0 <= s < n
    ensures t % n == s && t / n == q
  {
    var q', s' := t / n, t % n;
    assert n * (q - q') == s' - s;
    if q > q' {
      MulAtLeast(n, q - q');
    } else if q < q' {
      MulAtLeast(n, q' - q);
    }
  }

  /** And-ing with an odd mask keeps the lowest bit and and-s the rest. */
  lemma BitAndOddMask(t: nat, mask: nat)
    requires t > 0 && mask % 2 == 1
    ensures BitAnd(t, mask) == 2 * BitAnd(t / 2, mask / 2) + t % 2
  {
  }

  /** Halving a number and an even modulus: `t % n` from `(t / 2) % (n / 2)`. */
  lemma ModHalves(t: nat, n: int)
    requires n >= 2 && n % 2 == 0
    ensures t % n == 2 * ((t / 2) % (n / 2)) + t % 2
  {
    var h := n / 2;
    var q, r := (t / 2) / h, (t / 2) % h;
    assert t / 2 == h * q + r;
    assert n * q == 2 * (h * q);
    assert t == n * q + (2 * r + t % 2);
    ModUnique(t, n, q, 2 * r + t % 2);
  }

  /** With `mask + 1` a power of two, `t & mask` is `t` modulo `mask + 1`. */
  lemma {:induction false} BitAndLowMask(t: nat, mask: nat)
    requires IsPow2(mask + 1)
    ensures BitAnd(t, mask) == t % (mask + 1)
    decreases mask
  {
    if mask == 0 || t == 0 {
    } else {
      var n := mask + 1;
      assert n % 2 == 0 && IsPow2(n / 2);
      assert mask / 2 + 1 == n / 2;
      BitAndLowMask(t / 2, mask / 2);
      BitAndOddMask(t, mask);
      ModHalves(t, n);
    }
  }

  /** A smaller power of two divides a larger one. */
  lemma {:induction false} Pow2Divides(n: int, m: int)
    requires IsPow2(n) && IsPow2(m) && n <= m
    ensures m % n == 0
    decreases n
  {
    if n > 1 {
      Pow2Divides(n / 2, m / 2);
      var q := (m / 2) / (n / 2);
      assert m / 2 == (n / 2) * q;
      assert m == n * q;
      ModUnique(m, n, q, 0);
    }
  }

  /** 2^k. */
  function Pow2(k: nat): (p: int)
    ensures p >= 1
  {
    if k == 0 then 1 else 2 * Pow2(k - 1)
  }

  lemma {:induction false} Pow2IsPow2(k: nat)
    ensures IsPow2(Pow2(k))
  {
    if k > 0 {
      Pow2IsPow2(k - 1);
    }
  }

  /** 2^32 is a power of two. */
  lemma WordIsPow2()
    ensures IsPow2(Word)
  {
    Pow2IsPow2(32);
    assert Pow2(8) == 0x100;
    assert Pow2(16) == 0x1_0000;
    assert Pow2(24) == 0x100_0000;
  }

  /** Adding a multiple of `n` does not change a value modulo `n`. */
  lemma ModAddMultiple(y: int, n: int, m: int)
    requires n > 0
    ensures (y + n * m) % n == y % n
  {
    assert y == n * (y / n) + y % n;
    assert y + n * m == n * (y / n + m) + y % n;
    ModUnique(y + n * m, n, y / n + m, y % n);
  }

  /** Moving on by less than a full turn of `n` changes a value modulo `n`. */
  lemma ModShiftDiffers(x: int, n: int, d: int)
    requires 0 < d < n
    ensures (x + d) % n != x % n
  {
    var q, s := x / n, x % n;
    assert x + d == n * q + (s + d);
    if s + d < n {
      ModUnique(x + d, n, q, s + d);
    } else {
      assert x + d == n * (q + 1) + (s + d - n);
      ModUnique(x + d, n, q + 1, s + d - n);
    }
  }

  /** Multiplication regroups.  Kept as a lemma of its own: stated inside a
      proof that also knows `Word == n * c`, the solver does not find it. */
  lemma MulAssoc(a: int, b: int, c: int)
    ensures (a * b) * c == a * (b * c)
  {
  }

  /** Taking a value modulo 2^32 first does not change it modulo a power of
      two that is at most 2^32. */
  lemma WordThenMod(x: int, n: int)
    requires IsPow2(n) && n <= Word
    ensures (x % Word) % n == x % n
  {
    WordIsPow2();
    Pow2Divides(n, Word);
    var c := Word / n;
    var a := x / Word;
    assert Word == n * c by {
      assert Word == n * (Word / n) + Word % n;
    }
    assert x == x % Word + Word * a;
    MulAssoc(n, c, a);
    ModAddMultiple(x % Word, n, c * a);
  }
}
