/** Powers of two, machine-word operations and the bridges between the source's
    bit tricks (shifts, masks, xor, trailing and leading zeros) and arithmetic. */
module Bits {
  const TWO32: nat := 0x1_0000_0000

  type byte = x: int | 0 <= x < 0x100
  type u16 = x: int | 0 <= x < 0x1_0000
  type u32 = x: int | 0 <= x < 0x1_0000_0000

  function Min(a: int, b: int): int {
    if a <= b then a else b
  }

  /** What is left of n in a word of m values: m is cast out. */
  function CastOut(n: nat, m: nat): (r: nat)
    requires m > 0
    ensures r < m && r <= n
  {
    if n < m then n else CastOut(n - m, m)
  }

  /** Casting out is the remainder, for words of 16 and of 32 bits. */
  lemma {:induction false} CastOutIsModulo(n: nat, m: nat)
    requires m == 0x1_0000 || m == TWO32
    ensures CastOut(n, m) == n % m
  {
    if n >= m { CastOutIsModulo(n - m, m); }
  }

  function Word(hi: byte, lo: byte): u16 {
    hi * 256 + lo
  }

  function High(x: u16): byte {
    x / 256
  }

  function Low(x: u16): byte {
    x % 256
  }

  /** `to_be_bytes`. */
  function Be16(x: u16): (s: seq<byte>)
    ensures |s| == 2 && Word(s[0], s[1]) == x
  {
    [High(x), Low(x)]
  }

  function P2(k: nat): (r: nat)
    ensures r >= 1
  {
    if k == 0 then 1 else 2 * P2(k - 1)
  }

  lemma TwiceTimes(p: nat, q: nat)
    ensures (2 * p) * q == 2 * (p * q)
  {
  }

  lemma {:induction false} P2Add(a: nat, b: nat)
    ensures P2(a + b) == P2(a) * P2(b)
  {
    if a > 0 {
      P2Add(a - 1, b);
      TwiceTimes(P2(a - 1), P2(b));
    }
  }

  lemma {:induction false} P2Less(a: nat, b: nat)
    requires a < b
    ensures 2 * P2(a) <= P2(b)
    decreases b
  {
    if a < b - 1 {
      P2Less(a, b - 1);
    }
  }

  /** Times 2^k is twice times 2^(k-1). */
  lemma DoublePower(q: nat, k: nat)
    requires k > 0
    ensures P2(k) == 2 * P2(k - 1)
    ensures q * P2(k) == 2 * (q * P2(k - 1))
  {
    TimesTwice(q, P2(k - 1));
  }

  lemma TimesTwice(q: nat, p: nat)
    ensures q * (2 * p) == 2 * (q * p)
  {
  }

  lemma SmallPowers()
    ensures P2(0) == 1 && P2(1) == 2 && P2(2) == 4
  {
  }

  lemma P2Values()
    ensures P2(0) == 1 && P2(1) == 2 && P2(2) == 4 && P2(4) == 16 && P2(6) == 64
    ensures P2(8) == 0x100 && P2(16) == 0x1_0000 && P2(24) == 0x100_0000
    ensures P2(30) == 0x4000_0000 && P2(31) == 0x8000_0000 && P2(32) == TWO32
  {
    assert P2(4) == 16;
    hide P2;
    SmallPowers();
    P2Add(4, 2);
    P2Add(4, 4);
    P2Add(8, 8);
    P2Add(16, 8);
    P2Add(16, 16);
    DoublePower(1, 32);
    DoublePower(1, 31);
  }

  // ---------------------------------------------------------------------
  // Right shift: division by a power of two, one bit at a time.
  // ---------------------------------------------------------------------

  function Shr(a: nat, k: nat): nat {
    if k == 0 then a else Shr(a / 2, k - 1)
  }

  /** The shift is the quotient by 2^k: it names the aligned block of size 2^k holding `a`. */
  lemma {:induction false} ShrBounds(a: nat, k: nat)
    ensures Shr(a, k) * P2(k) <= a < Shr(a, k) * P2(k) + P2(k)
    decreases k
  {
    if k > 0 {
      ShrBounds(a / 2, k - 1);
      DoublePower(Shr(a / 2, k - 1), k);
    }
  }

  lemma {:induction false} MulLess(a: nat, b: nat, p: nat)
    ensures a < b ==> a * p + p <= b * p
  {
    if a < b {
      MulLess(a, b - 1, p);
      assert b * p == (b - 1) * p + p;
    }
  }

  lemma {:induction false} ShrUnique(a: nat, k: nat, q: nat)
    requires q * P2(k) <= a < q * P2(k) + P2(k)
    ensures Shr(a, k) == q
  {
    ShrBounds(a, k);
    MulLess(Shr(a, k), q, P2(k));
    MulLess(q, Shr(a, k), P2(k));
  }

  lemma {:induction false} ShrShr(a: nat, i: nat, j: nat)
    ensures Shr(Shr(a, i), j) == Shr(a, i + j)
    decreases i
  {
    if i > 0 {
      ShrShr(a / 2, i - 1, j);
    }
  }

  /** Floor to a multiple of 2^k: what masking with the prefix mask computes. */
  function FloorTo(a: nat, k: nat): (r: nat)
  {
    Shr(a, k) * P2(k)
  }

  lemma FloorDouble(x: nat, k: nat)
    requires k > 0
    ensures FloorTo(x, k) == 2 * FloorTo(x / 2, k - 1)
  {
    DoublePower(Shr(x / 2, k - 1), k);
  }

  ghost predicate Aligned(a: nat, k: nat) {
    FloorTo(a, k) == a
  }

  lemma {:induction false} AlignedMultiple(q: nat, k: nat)
    ensures Shr(q * P2(k), k) == q
    ensures Aligned(q * P2(k), k)
  {
    ShrUnique(q * P2(k), k, q);
  }

  lemma {:induction false} AlignedWeaken(a: nat, j: nat, k: nat)
    requires j <= k && Aligned(a, k)
    ensures Aligned(a, j)
  {
    P2Add(k - j, j);
    var q := Shr(a, k);
    assert a == (q * P2(k - j)) * P2(j);
    AlignedMultiple(q * P2(k - j), j);
  }

  lemma {:induction false} AlignedAdd(a: nat, b: nat, k: nat)
    requires Aligned(a, k) && Aligned(b, k)
    ensures Aligned(a + b, k)
  {
    var p, q, r := Shr(a, k), Shr(b, k), P2(k);
    assert (p + q) * r == p * r + q * r;
    AlignedMultiple(p + q, k);
  }

  lemma {:induction false} AlignedPower(j: nat, k: nat)
    requires k <= j
    ensures Aligned(P2(j), k)
  {
    P2Add(j - k, k);
    AlignedMultiple(P2(j - k), k);
  }

  /** The next multiple of 2^k is 2^k away. */
  lemma {:induction false} AlignedGap(a: nat, b: nat, k: nat)
    requires Aligned(a, k) && Aligned(b, k) && a < b
    ensures a + P2(k) <= b
  {
    var p, q, r := Shr(a, k), Shr(b, k), P2(k);
    MulLess(p, q, r);
    MulLess(q, p, r);
  }

  // ---------------------------------------------------------------------
  // Trailing zeros and bit length.
  // ---------------------------------------------------------------------

  /** `u32::trailing_zeros`: 32 for zero. */
  function TrailingZeros(x: u32): nat {
    if x == 0 then 32 else OddShift(x)
  }

  function OddShift(x: nat): nat
    requires x > 0
  {
    if x % 2 == 1 then 0 else 1 + OddShift(x / 2)
  }

  lemma {:induction false} OddShiftSpec(x: nat)
    requires x > 0
    ensures Aligned(x, OddShift(x))
    ensures x >= P2(OddShift(x))
    ensures FloorTo(x, OddShift(x) + 1) == x - P2(OddShift(x))
  {
    if x % 2 == 1 {
      assert Shr(x, 1) == x / 2;
      assert P2(1) == 2;
    } else {
      OddShiftSpec(x / 2);
      var t := OddShift(x / 2);
      FloorDouble(x, t + 1);
      FloorDouble(x, t + 2);
    }
  }

  /** `trailing_zeros` is the largest alignment of a 32-bit value; for a non-zero value the
      enclosing block of twice that size starts exactly one block earlier. */
  lemma {:induction false} TrailingZerosSpec(x: u32)
    ensures TrailingZeros(x) <= 32
    ensures Aligned(x, TrailingZeros(x))
    ensures x > 0 ==> TrailingZeros(x) <= 31
    ensures x > 0 ==> FloorTo(x, TrailingZeros(x) + 1) == x - P2(TrailingZeros(x))
  {
    if x == 0 {
      AlignedMultiple(0, 32);
    } else {
      OddShiftSpec(x);
      P2Values();
      var t := OddShift(x);
      if t > 31 {
        P2Less(31, t);
      }
    }
  }

  /** Any alignment of a non-zero value is at most its trailing zeros. */
  lemma {:induction false} TrailingZerosMax(x: u32, k: nat)
    requires x > 0 && Aligned(x, k)
    ensures k <= TrailingZeros(x)
  {
    TrailingZerosSpec(x);
    var t := TrailingZeros(x);
    if k > t {
      AlignedWeaken(x, t + 1, k);
    }
  }

  /** `BITS - leading_zeros`: the number of significant bits. */
  function BitLength(x: nat): nat {
    if x == 0 then 0 else 1 + BitLength(x / 2)
  }

  lemma {:induction false} BitLengthSpec(x: nat)
    requires x > 0
    ensures BitLength(x) >= 1
    ensures P2(BitLength(x) - 1) <= x < P2(BitLength(x))
  {
    if x > 1 {
      BitLengthSpec(x / 2);
    } else {
      assert BitLength(1) == 1 + BitLength(0);
    }
  }

  lemma {:induction false} BitLengthUnique(x: nat, k: nat)
    requires P2(k) <= x < P2(k + 1)
    ensures BitLength(x) == k + 1
  {
    BitLengthSpec(x);
    var n := BitLength(x);
    if n < k + 1 {
      if n < k { P2Less(n, k); }
    } else if n > k + 1 {
      if n - 1 > k + 1 { P2Less(k + 1, n - 1); }
    }
  }

  // ---------------------------------------------------------------------
  // Bitwise AND and XOR on naturals, and what they do on masks.
  // ---------------------------------------------------------------------

  function And(x: nat, y: nat): nat {
    if x == 0 || y == 0 then 0
    else 2 * And(x / 2, y / 2) + (if x % 2 == 1 && y % 2 == 1 then 1 else 0)
  }

  function Xor(x: nat, y: nat): nat {
    if x == 0 then y
    else if y == 0 then x
    else 2 * Xor(x / 2, y / 2) + (if x % 2 != y % 2 then 1 else 0)
  }

  function Or(x: nat, y: nat): nat {
    if x == 0 then y
    else if y == 0 then x
    else 2 * Or(x / 2, y / 2) + (if x % 2 == 1 || y % 2 == 1 then 1 else 0)
  }

  /** Without a bit in common, or is addition. */
  lemma {:induction false} OrDisjoint(x: nat, y: nat)
    requires And(x, y) == 0
    ensures Or(x, y) == x + y
  {
    if x != 0 && y != 0 {
      OrDisjoint(x / 2, y / 2);
    }
  }

  /** The 32-bit value of `0xFFFFFFFF << k` for k in 0..31; k = 32 is the source's separate
      zero case. */
  function HighMask(width: nat, k: nat): (m: nat)
    requires k <= width
  {
    P2Monotone(k, width);
    P2(width) - P2(k)
  }

  lemma P2Monotone(a: nat, b: nat)
    requires a <= b
    ensures P2(a) <= P2(b)
  {
    if a < b { P2Less(a, b); }
  }

  /** AND with all ones is the identity below the width. */
  lemma {:induction false} AndOnes(x: nat, w: nat)
    requires x < P2(w)
    ensures And(x, P2(w) - 1) == x
    decreases w
  {
    if w > 0 && x > 0 {
      AndOnes(x / 2, w - 1);
      assert (P2(w) - 1) / 2 == P2(w - 1) - 1;
    }
  }

  lemma AndEven(x: nat, m: nat)
    ensures And(x, 2 * m) == 2 * And(x / 2, m)
  {
    assert (2 * m) / 2 == m && (2 * m) % 2 == 0;
  }

  /** Masking with a prefix mask floors to the block start. */
  lemma {:induction false} AndHighMask(x: nat, w: nat, k: nat)
    requires x < P2(w) && k <= w
    ensures And(x, HighMask(w, k)) == FloorTo(x, k)
    decreases w
  {
    if k == 0 {
      AndOnes(x, w);
    } else if x == 0 {
      AlignedMultiple(0, k);
    } else {
      AndHighMask(x / 2, w - 1, k - 1);
      var m := HighMask(w - 1, k - 1);
      assert HighMask(w, k) == 2 * m;
      FloorDouble(x, k);
      AndEven(x, m);
    }
  }

  /** Flipping bit k of a multiple of 2^k moves to the sibling block. */
  lemma {:induction false} XorBit(q: nat, k: nat)
    ensures Xor(q * P2(k), P2(k)) == (if q % 2 == 1 then q - 1 else q + 1) * P2(k)
    decreases k
  {
    if k == 0 {
      XorOne(q);
    } else {
      XorBit(q, k - 1);
      var s := if q % 2 == 1 then q - 1 else q + 1;
      DoublePower(q, k);
      DoublePower(s, k);
      XorEven(q * P2(k - 1), P2(k - 1));
    }
  }

  lemma XorOne(q: nat)
    ensures Xor(q, 1) == if q % 2 == 1 then q - 1 else q + 1
  {
    if q > 0 {
      assert Xor(q, 1) == 2 * Xor(q / 2, 0) + (if q % 2 != 1 then 1 else 0);
      assert Xor(q / 2, 0) == q / 2;
    }
  }

  lemma XorEven(x: nat, y: nat)
    ensures Xor(2 * x, 2 * y) == 2 * Xor(x, y)
  {
    assert (2 * x) / 2 == x && (2 * y) / 2 == y;
    assert (2 * x) % 2 == 0 && (2 * y) % 2 == 0;
  }

  /** The four big-endian bytes of a number, read back from it. */
  lemma BytesOfNumber(b0: byte, b1: byte, b2: byte, b3: byte) returns (n: u32)
    ensures n == ((b0 * 256 + b1) * 256 + b2) * 256 + b3
    ensures Shr(n, 24) % 256 == b0 && Shr(n, 16) % 256 == b1 && Shr(n, 8) % 256 == b2 && n % 256 == b3
  {
    hide Shr, P2;
    P2Values();
    n := ((b0 * 256 + b1) * 256 + b2) * 256 + b3;
    ShrUnique(n, 8, (b0 * 256 + b1) * 256 + b2);
    ShrUnique(n, 16, b0 * 256 + b1);
    ShrUnique(n, 24, b0);
  }

  /** The number that big-endian bytes spell. */
  function BigEndian(s: seq<byte>): nat {
    if s == [] then 0 else BigEndian(s[..|s| - 1]) * 256 + s[|s| - 1]
  }
}
