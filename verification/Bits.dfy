// channel_common.h: the bit arithmetic behind the channels' sizes and indices.
// A 64-bit word is a natural number below WORD; `&`, `|` and `>>` are defined bit by bit.
module Bits {
  import opened Arith

  const WORD: nat := 0x1_0000_0000_0000_0000
  const HALF_WORD: nat := 0x8000_0000_0000_0000

  function BitAnd(x: nat, y: nat): nat {
    if x == 0 || y == 0 then 0 else 2 * BitAnd(x / 2, y / 2) + (x % 2) * (y % 2)
  }

  function BitOr(x: nat, y: nat): nat
    decreases x + y
  {
    if x == 0 && y == 0 then 0
    else 2 * BitOr(x / 2, y / 2) + (if x % 2 == 1 || y % 2 == 1 then 1 else 0)
  }

  function Quotient(x: nat, p: nat): nat
    requires 0 < p
  {
    x / p
  }

  function ShiftRight(x: nat, n: nat): nat {
    Quotient(x, Pow2(n))
  }

  // Index of a running counter in a ring of `size` places.
  function GetIndex(index: nat, size: nat): nat
    requires 0 < size
  {
    BitAnd(index, size - 1)
  }

  lemma DoubleMod(x: nat, h: nat)
    requires 0 < h
    ensures x % (2 * h) == 2 * ((x / 2) % h) + x % 2
  {
    var q, r := (x / 2) / h, (x / 2) % h;
    assert x / 2 == q * h + r;
    assert q * (2 * h) == 2 * (q * h);
    ModWithin(x, 2 * h, q);
  }

  lemma {:induction false} MaskIsMod(x: nat, k: nat)
    ensures BitAnd(x, Pow2(k) - 1) == x % Pow2(k)
    decreases k
  {
    if k != 0 {
      var h := Pow2(k - 1);
      MaskIsMod(x / 2, k - 1);
      DoubleMod(x, h);
      var mask := Pow2(k) - 1;
      assert mask / 2 == h - 1 && mask % 2 == 1;
      assert BitAnd(x, mask) == 2 * BitAnd(x / 2, h - 1) + x % 2;
    }
  }

  // In a ring whose size is a power of two the mask is the remainder, for every counter.
  lemma GetIndexIsMod(index: nat, size: nat)
    requires IsPow2(size)
    ensures GetIndex(index, size) == index % size == Wrap(index, size)
  {
    var k: nat :| size == Pow2(k);
    MaskIsMod(index, k);
    WrapIsMod(index, size);
  }

  function Smear(x: nat, n: nat): nat {
    BitOr(x, ShiftRight(x, n))
  }

  // The smearing loop, unrolled as in the source; the last increment wraps at 64 bits.
  function Up2PowerOf2(value: nat): (r: nat)
    requires value < WORD
  {
    if value == 0 then 0
    else
      var v := Smear(Smear(Smear(Smear(Smear(Smear(value - 1, 1), 2), 4), 8), 16), 32);
      (v + 1) % WORD
  }

  // Ones in bits b..m-1 of x and in bits c..b-1 of y give ones in bits c..m-1 of the union.
  lemma {:induction false} OnesUnion(x: nat, y: nat, m: nat, b: nat, c: nat)
    requires c <= b <= m
    requires Pow2(m) - Pow2(b) <= x < Pow2(m)
    requires Pow2(b) - Pow2(c) <= y < Pow2(b)
    ensures Pow2(m) - Pow2(c) <= BitOr(x, y) < Pow2(m)
    decreases m
  {
    if m == 0 {
    } else if b == 0 {
      assert y == 0 && x == Pow2(m) - 1;
      Pow2Monotone(0, m - 1);
      OnesUnion(x / 2, 0, m - 1, 0, 0);
    } else if c == 0 {
      OnesUnion(x / 2, y / 2, m - 1, b - 1, 0);
    } else {
      OnesUnion(x / 2, y / 2, m - 1, b - 1, c - 1);
    }
  }

  lemma {:induction false} Pow2Add(a: nat, b: nat)
    ensures Pow2(a + b) == Pow2(a) * Pow2(b)
    decreases b
  {
    if b != 0 {
      Pow2Add(a, b - 1);
      assert a + b - 1 == a + (b - 1);
      assert Pow2(a) * (2 * Pow2(b - 1)) == 2 * (Pow2(a) * Pow2(b - 1));
    }
  }

  // Ones in the top j bits: all of them when the word has no more than j bits.
  ghost predicate TopOnes(x: nat, m: nat, j: nat) {
    if j <= m then Pow2(m) - Pow2(m - j) <= x < Pow2(m) else x == Pow2(m) - 1
  }

  lemma Pow2Split(m: nat, j: nat)
    requires j <= m
    ensures Pow2(m) == Pow2(j) * Pow2(m - j)
  {
    Pow2Add(j, m - j);
  }

  // Dividing a word with top ones by 2^j moves those ones j places down.
  lemma ShiftBounds(x: nat, top: nat, low: nat, p: nat, whole: nat, least: nat)
    requires 0 < p && low <= top && whole == p * top && least <= p * low
    requires whole - least <= x < whole
    ensures top - low <= x / p < top
  {
    var z := x / p;
    assert x == z * p + x % p;
    MulStep(z, top - low, p);
    MulStep(top, z + 1, p);
    assert (top - low) * p == p * top - p * low;
    assert (z + 1) * p == z * p + p;
  }

  lemma ShiftTopOnes(x: nat, m: nat, j: nat, c: nat)
    requires j <= m && TopOnes(x, m, j)
    requires c == if 2 * j <= m then m - 2 * j else 0
    ensures Pow2(m - j) - Pow2(c) <= ShiftRight(x, j) < Pow2(m - j)
  {
    Pow2Split(m, j);
    Pow2Monotone(c, m - j);
    if 2 * j <= m {
      Pow2Split(m - j, j);
      assert Pow2(m - j) == Pow2(j) * Pow2(c);
    } else {
      Pow2Monotone(m - j, j);
      assert Pow2(c) == 1;
      assert Pow2(j) * Pow2(c) == Pow2(j);
    }
    ShiftBounds(x, Pow2(m - j), Pow2(c), Pow2(j), Pow2(m), Pow2(m - j));
  }

  lemma {:induction false} OrZero(x: nat)
    ensures BitOr(x, 0) == x
  {
    if x != 0 {
      OrZero(x / 2);
    }
  }

  lemma QuotientSmall(x: nat, p: nat)
    requires x < p
    ensures Quotient(x, p) == 0
  {
  }

  lemma SmearAllOnes(x: nat, m: nat, j: nat)
    requires m < j && x == Pow2(m) - 1
    ensures Smear(x, j) == x
  {
    Pow2Monotone(m, j);
    QuotientSmall(x, Pow2(j));
    OrZero(x);
  }

  // A word of m bits whose top j bits are ones has its top 2j bits ones after one smear by j.
  lemma SmearDoubles(x: nat, m: nat, j: nat)
    requires 1 <= j && TopOnes(x, m, j)
    ensures TopOnes(Smear(x, j), m, 2 * j)
  {
    if j > m {
      SmearAllOnes(x, m, j);
    } else {
      var c := if 2 * j <= m then m - 2 * j else 0;
      var z := ShiftRight(x, j);
      ShiftTopOnes(x, m, j, c);
      OnesUnion(x, z, m, m - j, c);
      assert Pow2(0) == 1;
    }
  }

  lemma {:induction false} BitLength(x: nat, bits: nat) returns (m: nat)
    requires 0 < x < Pow2(bits)
    ensures 1 <= m <= bits && Pow2(m - 1) <= x < Pow2(m)
    decreases bits
  {
    if x < Pow2(bits - 1) {
      m := BitLength(x, bits - 1);
    } else {
      m := bits;
    }
  }

  lemma SmearFills(x: nat, m: nat)
    requires 1 <= m <= 64 && Pow2(m - 1) <= x < Pow2(m)
    ensures Smear(Smear(Smear(Smear(Smear(Smear(x, 1), 2), 4), 8), 16), 32) == Pow2(m) - 1
  {
    SmearDoubles(x, m, 1);
    var x1 := Smear(x, 1);
    SmearDoubles(x1, m, 2);
    var x2 := Smear(x1, 2);
    SmearDoubles(x2, m, 4);
    var x3 := Smear(x2, 4);
    SmearDoubles(x3, m, 8);
    var x4 := Smear(x3, 8);
    SmearDoubles(x4, m, 16);
    var x5 := Smear(x4, 16);
    SmearDoubles(x5, m, 32);
    if m == 64 {
      assert Pow2(0) == 1;
    }
  }

  lemma WordIsPow2()
    ensures WORD == Pow2(64) && Pow2(63) == HALF_WORD
  {
    assert Pow2(8) == 256;
    Pow2Add(8, 8);
    Pow2Add(16, 16);
    Pow2Add(32, 32);
    assert Pow2(64) == 2 * Pow2(63);
  }

  // r is the least power of two not below value.
  ghost predicate IsLeastPow2(r: nat, value: nat) {
    IsPow2(r) && value <= r && forall k: nat :: value <= Pow2(k) ==> r <= Pow2(k)
  }

  lemma LeastAbove(value: nat, m: nat, k: nat)
    requires m == 0 || Pow2(m - 1) < value
    ensures value <= Pow2(k) ==> Pow2(m) <= Pow2(k)
  {
    if k < m {
      Pow2Monotone(k, m - 1);
    } else {
      Pow2Monotone(m, k);
    }
  }

  lemma SmearZero(n: nat)
    ensures Smear(0, n) == 0
  {
  }

  lemma SmearedValue(value: nat) returns (m: nat)
    requires 1 <= value < WORD
    ensures m <= 64 && (m == 0 || Pow2(m - 1) < value) && value <= Pow2(m)
    ensures Up2PowerOf2(value) == Pow2(m) % WORD
  {
    hide Smear;
    if value == 1 {
      m := 0;
      SmearZero(1);
      SmearZero(2);
      SmearZero(4);
      SmearZero(8);
      SmearZero(16);
      SmearZero(32);
    } else {
      assert WORD == Pow2(64) by { WordIsPow2(); }
      m := BitLength(value - 1, 64);
      SmearFills(value - 1, m);
    }
  }

  // Above 2^63 the least power of two no longer fits the word, and the result wraps to zero.
  lemma Up2PowerOf2Wraps(value: nat)
    requires HALF_WORD < value < WORD
    ensures Up2PowerOf2(value) == 0
  {
    var m := SmearedValue(value);
    WordIsPow2();
    if m < 64 {
      Pow2Monotone(m, 63);
      assert false;
    }
  }

  // The result is the least power of two not below the argument exactly when that power
  // fits the word; for larger arguments, as for zero, the result is zero.
  lemma Up2PowerOf2IsLeast(value: nat)
    requires value < WORD
    ensures Up2PowerOf2(value) == 0 <==> value == 0 || value > HALF_WORD
    ensures Up2PowerOf2(value) != 0 ==> IsLeastPow2(Up2PowerOf2(value), value)
  {
    if value > HALF_WORD {
      Up2PowerOf2Wraps(value);
    } else if value != 0 {
      var m := SmearedValue(value);
      LeastFits(value, m);
      forall k: nat ensures value <= Pow2(k) ==> Pow2(m) <= Pow2(k) {
        LeastAbove(value, m, k);
      }
    }
  }

  lemma LeastFits(value: nat, m: nat)
    requires 0 < value <= HALF_WORD
    requires m == 0 || Pow2(m - 1) < value
    ensures Pow2(m) % WORD == Pow2(m)
  {
    WordIsPow2();
    LeastAbove(value, m, 63);
  }
}
