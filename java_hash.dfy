/** Java's 32-bit integer arithmetic and the hashCode methods that
    Objects.hashCode combines: Boolean, Long, String and Arrays.hashCode. */
module JavaHash {
  import opened Wrappers

  const TWO32: int := 0x1_0000_0000

  /** Java int. */
  type Int32 = x: int | -0x8000_0000 <= x < 0x8000_0000

  /** Java long. */
  type Int64 = x: int | -0x8000_0000_0000_0000 <= x < 0x8000_0000_0000_0000

  /** The Java int that an exact integer value wraps around to: the one
      congruent to x modulo 2^32. */
  function Wrap32(x: int): (r: Int32)
    ensures (r - x) % TWO32 == 0
  {
    (x + 0x8000_0000) % TWO32 - 0x8000_0000
  }

  /** Only one Java int is congruent to x modulo 2^32. */
  lemma Wrap32Unique(r: Int32, x: int)
    requires (r - x) % TWO32 == 0
    ensures r == Wrap32(x)
  {
    var w := Wrap32(x);
    var k1, k2 := (r - x) / TWO32, (w - x) / TWO32;
    assert r - x == k1 * TWO32;
    assert w - x == k2 * TWO32;
    assert r - w == (k1 - k2) * TWO32;
  }

  /** Adding a multiple of 2^32 does not change the wrapped value. */
  lemma Wrap32Shift(x: int, k: int)
    ensures Wrap32(x + k * TWO32) == Wrap32(x)
  {
    var w := Wrap32(x);
    var j := (w - x) / TWO32;
    assert w - x == j * TWO32;
    assert w - (x + k * TWO32) == (j - k) * TWO32;
    Wrap32Unique(w, x + k * TWO32);
  }

  /** One step of Java's `h = 31 * h + x` on ints equals the exact step
      followed by wrap-around. */
  lemma Wrap32Step(h: int, x: int)
    ensures Wrap32(31 * Wrap32(h) + x) == Wrap32(31 * h + x)
  {
    var w := Wrap32(h);
    var j := (w - h) / TWO32;
    assert w == h + j * TWO32;
    assert 31 * w + x == (31 * h + x) + (31 * j) * TWO32;
    Wrap32Shift(31 * h + x, 31 * j);
  }

  /** The loop `for (x : xs) h = 31 * h + x` on Java ints, started at h = start,
      shared by String.hashCode (start 0) and Arrays.hashCode (start 1). */
  function Fold31(start: Int32, xs: seq<int>): Int32
  {
    if xs == [] then start else Wrap32(31 * Fold31(start, xs[..|xs| - 1]) + xs[|xs| - 1])
  }

  /** The same loop in exact arithmetic:
      start * 31^n + xs[0] * 31^(n-1) + ... + xs[n-1]. */
  function Polynomial31(start: int, xs: seq<int>): int
  {
    if xs == [] then start else 31 * Polynomial31(start, xs[..|xs| - 1]) + xs[|xs| - 1]
  }

  /** Overflow at every step of the loop gives the exact polynomial reduced
      to a Java int, as the Java documentation of String.hashCode states it. */
  lemma {:induction false} Fold31IsWrappedPolynomial(start: Int32, xs: seq<int>)
    ensures Fold31(start, xs) == Wrap32(Polynomial31(start, xs))
  {
    if xs == [] {
      Wrap32Unique(start, start);
    } else {
      var init := xs[..|xs| - 1];
      Fold31IsWrappedPolynomial(start, init);
      Wrap32Step(Polynomial31(start, init), xs[|xs| - 1]);
    }
  }

  /** Boolean.hashCode. */
  function BooleanHashCode(b: bool): (h: Int32)
    ensures b ==> h == 1231
    ensures !b ==> h == 1237
  {
    if b then 1231 else 1237
  }

  function Pow2(n: nat): (p: nat)
    ensures p >= 1
  {
    if n == 0 then 1 else 2 * Pow2(n - 1)
  }

  lemma {:induction false} Pow2Add(a: nat, b: nat)
    ensures Pow2(a + b) == Pow2(a) * Pow2(b)
  {
    if a > 0 {
      Pow2Add(a - 1, b);
    }
  }

  lemma Pow2Of32()
    ensures Pow2(32) == TWO32
  {
    assert Pow2(2) == 4;
    Pow2Add(2, 2);
    Pow2Add(4, 4);
    Pow2Add(8, 8);
    Pow2Add(16, 16);
  }

  /** The exclusive or of the low n bits of a and b. */
  function XorBits(a: nat, b: nat, n: nat): (x: nat)
    ensures x < Pow2(n)
  {
    if n == 0 then 0
    else (if a % 2 == b % 2 then 0 else 1) + 2 * XorBits(a / 2, b / 2, n - 1)
  }

  /** Zero is the unit of exclusive or. */
  lemma {:induction false} XorBitsZero(b: nat, n: nat)
    requires b < Pow2(n)
    ensures XorBits(0, b, n) == b
  {
    if n > 0 {
      XorBitsZero(b / 2, n - 1);
    }
  }

  /** Exclusive or with all ones is the complement. */
  lemma {:induction false} XorBitsOnes(b: nat, n: nat)
    requires b < Pow2(n)
    ensures XorBits(Pow2(n) - 1, b, n) == Pow2(n) - 1 - b
  {
    if n > 0 {
      assert (Pow2(n) - 1) / 2 == Pow2(n - 1) - 1;
      assert (Pow2(n) - 1) % 2 == 1;
      XorBitsOnes(b / 2, n - 1);
    }
  }

  /** A long in the int range has a high half of all zeros or all ones, so
      the exclusive or of its halves, read as an int, is v or its complement. */
  lemma XorOfHalvesInIntRange(v: int)
    requires -0x8000_0000 <= v < 0x8000_0000
    ensures var u := if v < 0 then v + TWO32 * TWO32 else v;
      Wrap32(XorBits(u / TWO32, u % TWO32, 32)) == (if v < 0 then -v - 1 else v)
  {
    Pow2Of32();
    if v < 0 {
      var u := v + TWO32 * TWO32;
      assert u / TWO32 == TWO32 - 1 && u % TWO32 == v + TWO32;
      XorBitsOnes(v + TWO32, 32);
      Wrap32Unique(-v - 1, -v - 1);
    } else {
      XorBitsZero(v, 32);
      Wrap32Unique(v, v);
    }
  }

  /** Long.hashCode: `(int) (value ^ (value >>> 32))`, the exclusive or of the
      two 32-bit halves of the two's-complement value, read as a Java int.
      A long in the int range hashes to itself when it is not negative and
      to its complement -v - 1 when it is. */
  function LongHashCode(v: Int64): (h: Int32)
    ensures 0 <= v < 0x8000_0000 ==> h == v
    ensures -0x8000_0000 <= v < 0 ==> h == -v - 1
  {
    var u := if v < 0 then v + TWO32 * TWO32 else v;
    if -0x8000_0000 <= v < 0x8000_0000 then
      XorOfHalvesInIntRange(v);
      Wrap32(XorBits(u / TWO32, u % TWO32, 32))
    else
      Wrap32(XorBits(u / TWO32, u % TWO32, 32))
  }

  /** Complementing both arguments leaves their exclusive or unchanged. */
  lemma {:induction false} XorBitsOfComplements(a: nat, b: nat, n: nat)
    requires a < Pow2(n) && b < Pow2(n)
    ensures XorBits(Pow2(n) - 1 - a, Pow2(n) - 1 - b, n) == XorBits(a, b, n)
  {
    if n > 0 {
      var p := Pow2(n - 1);
      assert (2 * p - 1 - a) / 2 == p - 1 - a / 2 && (2 * p - 1 - a) % 2 != a % 2;
      assert (2 * p - 1 - b) / 2 == p - 1 - b / 2 && (2 * p - 1 - b) % 2 != b % 2;
      XorBitsOfComplements(a / 2, b / 2, n - 1);
    }
  }

  /** Division by 2^32 has one quotient and one remainder. */
  lemma DivModTwo32(x: int, q: int, r: int)
    requires 0 <= r < TWO32 && x == q * TWO32 + r
    ensures x / TWO32 == q && x % TWO32 == r
  {
  }

  /** A long and its bitwise complement ~v (that is, -1 - v) have the same
      hash code: complementing flips both halves. */
  lemma LongHashCodeOfComplement(v: Int64)
    ensures LongHashCode(-1 - v) == LongHashCode(v)
  {
    Pow2Of32();
    var u := if v < 0 then v + TWO32 * TWO32 else v;
    var w: int := -1 - v;
    var u' := if w < 0 then w + TWO32 * TWO32 else w;
    var hi, lo := u / TWO32, u % TWO32;
    assert u' == (TWO32 - 1 - hi) * TWO32 + (TWO32 - 1 - lo);
    DivModTwo32(u', TWO32 - 1 - hi, TWO32 - 1 - lo);
    assert LongHashCode(v) == Wrap32(XorBits(hi, lo, 32));
    assert LongHashCode(w) == Wrap32(XorBits(TWO32 - 1 - hi, TWO32 - 1 - lo, 32));
    XorBitsOfComplements(hi, lo, 32);
  }

  /** The UTF-16 code units that a Java String holds for the character c. */
  function Utf16(c: char): (units: seq<int>)
    ensures |units| == (if c as int < 0x1_0000 then 1 else 2)
    ensures forall i :: 0 <= i < |units| ==> 0 <= units[i] < 0x1_0000
  {
    var n := c as int;
    if n < 0x1_0000 then [n]
    else [0xD800 + (n - 0x1_0000) / 0x400, 0xDC00 + (n - 0x1_0000) % 0x400]
  }

  /** The code units of a whole string. */
  function Utf16String(s: string): (units: seq<int>)
    ensures |s| <= |units| <= 2 * |s|
  {
    if s == [] then [] else Utf16(s[0]) + Utf16String(s[1..])
  }

  /** String.hashCode: the loop over the code units, started at 0. */
  function StringHashCode(s: string): (h: Int32)
    ensures h == Wrap32(Polynomial31(0, Utf16String(s)))
  {
    Fold31IsWrappedPolynomial(0, Utf16String(s));
    Fold31(0, Utf16String(s))
  }

  /** Arrays.hashCode(Object[]), which Objects.hashCode(Object...) returns:
      the loop over the element hash codes (0 for a null element), started at 1. */
  function ArraysHashCode(elementHashes: seq<Int32>): (h: Int32)
    ensures h == Wrap32(Polynomial31(1, elementHashes))
  {
    Fold31IsWrappedPolynomial(1, elementHashes);
    Fold31(1, elementHashes)
  }

  /** The hash code of a nullable String reference inside Arrays.hashCode. */
  function NullableStringHashCode(s: Option<string>): Int32
  {
    match s
    case None => 0
    case Some(t) => StringHashCode(t)
  }
}
