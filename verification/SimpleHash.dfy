/**
 The contract's 64-bit FNV-1a loop: exclusive or with the next byte, then multiply modulo 2^64. The
 multiplier is odd, so each step is a bijection on the state.
 */
module SimpleHash {
  const MODULUS: int := 0x1_0000_0000_0000_0000
  const PRIME: int := 0x100000001b3
  const OFFSET: int := 0xcbf29ce484222325

  /** The inverse of PRIME modulo 2^64. */
  const INVERSE: int := 0xce965057aff6957b

  type Word = n: int | 0 <= n < MODULUS
  type Byte = n: int | 0 <= n < 0x100

  function Pow2(n: nat): (r: int)
    ensures r >= 1
  {
    if n == 0 then 1 else 2 * Pow2(n - 1)
  }

  lemma Pow2Is64()
    ensures Pow2(56) == 0x100_0000_0000_0000 && Pow2(64) == MODULUS
  {
    assert Pow2(8) == 0x100;
    assert Pow2(16) == 0x1_0000;
    assert Pow2(24) == 0x100_0000;
    assert Pow2(32) == 0x1_0000_0000;
    assert Pow2(40) == 0x100_0000_0000;
    assert Pow2(48) == 0x1_0000_0000_0000;
    assert Pow2(56) == 0x100_0000_0000_0000;
  }

  /** Bitwise exclusive or of `n`-bit numbers, from the lowest bit up. */
  function Xor(a: nat, b: nat, n: nat): nat {
    if n == 0 then 0 else 2 * Xor(a / 2, b / 2, n - 1) + (a + b) % 2
  }

  lemma Halves(x: nat, d: nat)
    requires d < 2
    ensures (2 * x + d) / 2 == x && (2 * x + d) % 2 == d
  {
  }

  lemma {:induction false} XorBound(a: nat, b: nat, n: nat)
    requires a < Pow2(n) && b < Pow2(n)
    ensures Xor(a, b, n) < Pow2(n)
  {
    if n != 0 {
      XorBound(a / 2, b / 2, n - 1);
    }
  }

  lemma {:induction false} XorCommutes(a: nat, b: nat, n: nat)
    ensures Xor(a, b, n) == Xor(b, a, n)
  {
    if n != 0 {
      XorCommutes(a / 2, b / 2, n - 1);
    }
  }

  /** Exclusive or with the same number twice gives the number back. */
  lemma {:induction false} XorUndone(a: nat, b: nat, n: nat)
    requires a < Pow2(n)
    ensures Xor(Xor(a, b, n), b, n) == a
  {
    if n != 0 {
      var x, d := Xor(a / 2, b / 2, n - 1), (a + b) % 2;
      XorUndone(a / 2, b / 2, n - 1);
      Halves(x, d);
      assert Xor(2 * x + d, b, n) == 2 * Xor(x, b / 2, n - 1) + (2 * x + d + b) % 2;
      LowBit(x, a, b);
    }
  }

  lemma LowBit(x: nat, a: nat, b: nat)
    ensures (2 * x + (a + b) % 2 + b) % 2 == a % 2
  {
  }

  lemma XorTwice(a: nat, b: nat, n: nat)
    requires a < Pow2(n) && b < Pow2(n)
    ensures Xor(a, b, n) < Pow2(n)
    ensures Xor(Xor(a, b, n), b, n) == a && Xor(a, Xor(a, b, n), n) == b
  {
    XorBound(a, b, n);
    XorUndone(a, b, n);
    XorUndone(b, a, n);
    XorCommutes(a, b, n);
    XorCommutes(a, Xor(a, b, n), n);
  }

  function Bit(x: nat, i: nat): nat {
    x / Pow2(i) % 2
  }

  lemma HalfBit(x: nat, i: nat)
    requires i > 0
    ensures Bit(x, i) == Bit(x / 2, i - 1)
  {
    DivideTwice(x, Pow2(i - 1));
  }

  lemma DivideTwice(x: nat, p: nat)
    requires p >= 1
    ensures x / (2 * p) == x / 2 / p
  {
    var q := x / 2 / p;
    Division(x / 2, p);
    DoubledTimes(p, q);
    DoubledTimes(p, q + 1);
    QuotientIs(x, 2 * p, q);
  }

  lemma Division(m: nat, p: nat)
    requires p >= 1
    ensures p * (m / p) <= m < p * (m / p + 1)
  {
    assert m == p * (m / p) + m % p;
  }

  lemma DoubledTimes(p: nat, q: nat)
    ensures 2 * p * q == 2 * (p * q)
  {
  }

  lemma TimesGrows(d: nat, a: nat, b: nat)
    ensures a <= b ==> d * a <= d * b
  {
  }

  lemma QuotientIs(x: nat, d: nat, q: nat)
    requires d >= 1 && d * q <= x < d * (q + 1)
    ensures x / d == q
  {
    var r := x / d;
    assert x == d * r + x % d;
    TimesGrows(d, r + 1, q);
    TimesGrows(d, q + 1, r);
  }

  lemma XorStep(a: nat, b: nat, n: nat, x: nat)
    requires n > 0 && Xor(a / 2, b / 2, n - 1) == x
    ensures Xor(a, b, n) == 2 * x + (a + b) % 2
  {
  }

  /** A bit of the exclusive or is set when exactly one of the two bits is. */
  lemma {:induction false} XorBits(a: nat, b: nat, n: nat, i: nat)
    requires i < n
    ensures Bit(Xor(a, b, n), i) == if Bit(a, i) == Bit(b, i) then 0 else 1
  {
    var h := Xor(a / 2, b / 2, n - 1);
    XorStep(a, b, n, h);
    Halves(h, (a + b) % 2);
    if i > 0 {
      HalfBit(Xor(a, b, n), i);
      HalfBit(a, i);
      HalfBit(b, i);
      XorBits(a / 2, b / 2, n - 1, i - 1);
    } else {
      LowestBit(a);
      LowestBit(b);
      LowestBit(Xor(a, b, n));
    }
  }

  lemma LowestBit(x: nat)
    ensures Bit(x, 0) == x % 2
  {
  }

  /** `h ^= b as u64` */
  function XorWord(h: Word, b: Byte): Word {
    Pow2Is64();
    XorTwice(h, b, 64);
    Xor(h, b, 64)
  }

  function WrappingMul(h: Word, factor: int): Word {
    h * factor % MODULUS
  }

  function Step(h: Word, b: Byte): Word {
    WrappingMul(XorWord(h, b), PRIME)
  }

  function Undo(h: Word, b: Byte): Word {
    XorWord(WrappingMul(h, INVERSE), b)
  }

  function Hash(h: Word, s: seq<Byte>): Word
    decreases |s|
  {
    if s == [] then h else Hash(Step(h, s[0]), s[1..])
  }

  method SimpleHash(s: seq<Byte>) returns (h: Word)
    ensures h == Hash(0xcbf29ce484222325, s)
  {
    h := OFFSET;
    for i := 0 to |s|
      invariant Hash(h, s[i..]) == Hash(OFFSET, s)
    {
      assert s[i..][1..] == s[i + 1..];
      h := XorWord(h, s[i]);
      h := WrappingMul(h, PRIME);
    }
  }

  /** A step in the algorithm's own numbers: the byte's bits are turned over in the state, which is then multiplied
      modulo 2^64. */
  lemma StepExactly(h: Word, b: Byte, mixed: Word)
    requires forall i: nat :: i < 64 ==> Bit(mixed, i) == if Bit(h, i) == Bit(b, i) then 0 else 1
    ensures Step(h, b) == mixed * 0x100000001b3 % 0x1_0000_0000_0000_0000
  {
    Pow2Is64();
    var x := XorWord(h, b);
    forall i: nat | i < 64 ensures Bit(x, i) == Bit(mixed, i) {
      XorBits(h, b, 64, i);
    }
    SameBits(x, mixed, 64);
  }

  lemma {:induction false} SameBits(x: nat, y: nat, n: nat)
    requires x < Pow2(n) && y < Pow2(n) && forall i: nat :: i < n ==> Bit(x, i) == Bit(y, i)
    ensures x == y
  {
    if n != 0 {
      LowestBit(x);
      LowestBit(y);
      forall i: nat | i < n - 1 ensures Bit(x / 2, i) == Bit(y / 2, i) {
        HalfBit(x, i + 1);
        HalfBit(y, i + 1);
      }
      SameBits(x / 2, y / 2, n - 1);
    }
  }

  // ---------------------------------------------------------------- one step is a bijection

  lemma ModOfShift(x: int, k: int)
    requires 0 <= x < MODULUS
    ensures (x + MODULUS * k) % MODULUS == x
  {
  }

  lemma MulInverts(h: Word)
    ensures WrappingMul(WrappingMul(h, PRIME), INVERSE) == h
    ensures WrappingMul(WrappingMul(h, INVERSE), PRIME) == h
  {
    var k := PRIME * INVERSE / MODULUS;
    assert PRIME * INVERSE == 1 + MODULUS * k;
    var d := h * PRIME / MODULUS;
    assert h * PRIME % MODULUS * INVERSE == h + MODULUS * (h * k - d * INVERSE);
    ModOfShift(h, h * k - d * INVERSE);
    var e := h * INVERSE / MODULUS;
    assert h * INVERSE % MODULUS * PRIME == h + MODULUS * (h * k - e * PRIME);
    ModOfShift(h, h * k - e * PRIME);
  }

  lemma XorWordTwice(h: Word, b: Byte)
    ensures XorWord(XorWord(h, b), b) == h
    ensures Xor(h, XorWord(h, b), 64) == b
  {
    Pow2Is64();
    XorTwice(h, b, 64);
  }

  /** Undo inverts Step on both sides, for every byte. */
  lemma StepIsBijective(h: Word, b: Byte)
    ensures Undo(Step(h, b), b) == h && Step(Undo(h, b), b) == h
  {
    MulInverts(XorWord(h, b));
    XorWordTwice(h, b);
    XorWordTwice(WrappingMul(h, INVERSE), b);
    MulInverts(h);
  }

  /** From one state different bytes lead to different states. */
  lemma StepSeparatesBytes(h: Word, b: Byte, c: Byte)
    requires Step(h, b) == Step(h, c)
    ensures b == c
  {
    MulInverts(XorWord(h, b));
    MulInverts(XorWord(h, c));
    XorWordTwice(h, b);
    XorWordTwice(h, c);
  }

  // ---------------------------------------------------------------- whole strings

  lemma {:induction false} HashConcat(h: Word, s: seq<Byte>, u: seq<Byte>)
    ensures Hash(h, s + u) == Hash(Hash(h, s), u)
    decreases |s|
  {
    if s == [] {
      assert s + u == u;
    } else {
      assert (s + u)[1..] == s[1..] + u;
      HashConcat(Step(h, s[0]), s[1..], u);
    }
  }

  lemma {:induction false} HashIsInjectiveInState(g: Word, h: Word, u: seq<Byte>)
    ensures Hash(g, u) == Hash(h, u) <==> g == h
    decreases |u|
  {
    if u != [] {
      StepIsBijective(g, u[0]);
      StepIsBijective(h, u[0]);
      HashIsInjectiveInState(Step(g, u[0]), Step(h, u[0]), u[1..]);
    }
  }

  /** A common suffix neither makes nor hides a collision. */
  lemma SuffixIsIrrelevant(s: seq<Byte>, t: seq<Byte>, u: seq<Byte>)
    ensures Hash(OFFSET, s + u) == Hash(OFFSET, t + u) <==> Hash(OFFSET, s) == Hash(OFFSET, t)
  {
    HashConcat(OFFSET, s, u);
    HashConcat(OFFSET, t, u);
    HashIsInjectiveInState(Hash(OFFSET, s), Hash(OFFSET, t), u);
  }

  /** Changing exactly one byte always changes the hash. */
  lemma OneByteNeverCollides(s: seq<Byte>, i: nat, b: Byte)
    requires i < |s| && s[i] != b
    ensures Hash(OFFSET, s[i := b]) != Hash(OFFSET, s)
  {
    var head, tail := s[..i], s[i + 1..];
    assert s == head + ([s[i]] + tail) && s[i := b] == head + ([b] + tail);
    HashConcat(OFFSET, head, [s[i]] + tail);
    HashConcat(OFFSET, head, [b] + tail);
    var h := Hash(OFFSET, head);
    assert ([s[i]] + tail)[1..] == tail && ([b] + tail)[1..] == tail;
    HashIsInjectiveInState(Step(h, s[i]), Step(h, b), tail);
    if Step(h, s[i]) == Step(h, b) {
      StepSeparatesBytes(h, s[i], b);
      assert false;
    }
  }
}
