/** Shifts and masks on 32-bit words, as the file-system macros use them (bootstrap/fs.h), against the
    divisions and remainders they stand for. */
module BitArithmetic {

  import opened Arithmetic
  import opened Words

  function Pow2(k: nat): (r: nat)
    ensures r > 0
  {
    if k == 0 then 1 else 2 * Pow2(k - 1)
  }

  /** The smaller of two powers divides the larger. */
  lemma {:induction false} PowersDivide(k: nat, n: nat) returns (q: nat)
    requires k <= n
    ensures Pow2(n) == q * Pow2(k) && q > 0
    decreases n
  {
    q := 1;
    if k < n {
      var r := PowersDivide(k, n - 1);
      q := 2 * r;
    }
  }

  /** Bitwise and of naturals, bit by bit from the lowest. */
  function And(x: nat, y: nat): (r: nat)
    ensures r <= x
  {
    if x == 0 then 0 else 2 * And(x / 2, y / 2) + if x % 2 == 1 && y % 2 == 1 then 1 else 0
  }

  /** ~x in 32 bits. */
  function Not(x: nat): nat
    requires x < WORD
  {
    WORD - 1 - x
  }

  function ShiftRight(x: nat, k: nat): nat { if k == 0 then x else ShiftRight(x / 2, k - 1) }

  lemma DivMod2(x: nat, k: nat)
    requires k > 0
    ensures x % Pow2(k) == 2 * (x / 2 % Pow2(k - 1)) + x % 2
    ensures x / Pow2(k) == x / 2 / Pow2(k - 1)
  {
    var p, y := Pow2(k - 1), x / 2;
    assert y == y / p * p + y % p;
    assert x == y / p * (2 * p) + (2 * (y % p) + x % 2);
    DivUnique(x, Pow2(k), y / p, 2 * (y % p) + x % 2);
  }

  lemma {:induction false} AndZero(x: nat)
    ensures And(x, 0) == 0
  {
    if x > 0 { AndZero(x / 2); }
  }

  lemma HalfMask(p: nat)
    requires p > 0
    ensures (2 * p - 1) / 2 == p - 1 && (2 * p - 1) % 2 == 1
  {
  }

  /** Masking with 2^k - 1 is the remainder modulo 2^k. */
  lemma {:induction false} MaskIsMod(x: nat, k: nat)
    ensures And(x, Pow2(k) - 1) == x % Pow2(k)
  {
    if k == 0 {
      AndZero(x);
    } else if x == 0 {
      DivUnique(0, Pow2(k), 0, 0);
    } else {
      MaskIsMod(x / 2, k - 1);
      DivMod2(x, k);
      HalfMask(Pow2(k - 1));
    }
  }

  /** Shifting right is dividing by the power of two. */
  lemma {:induction false} ShiftIsDiv(x: nat, k: nat)
    ensures ShiftRight(x, k) == x / Pow2(k)
  {
    if k > 0 {
      ShiftIsDiv(x / 2, k - 1);
      DivMod2(x, k);
    }
  }

  /** A mask of the bits from k up to below n. */
  function HighMask(n: nat, k: nat): nat
    requires k <= n
  {
    Monotone(k, n);
    Pow2(n) - Pow2(k)
  }

  lemma {:induction false} Monotone(k: nat, n: nat)
    requires k <= n
    ensures Pow2(k) <= Pow2(n)
    decreases n
  {
    if k < n { Monotone(k, n - 1); }
  }

  /** Masking a word of n bits with the bits from k up clears the lower ones. */
  lemma {:induction false} MaskIsFloor(x: nat, n: nat, k: nat)
    requires k <= n && x < Pow2(n)
    ensures And(x, HighMask(n, k)) == x - x % Pow2(k)
  {
    if k == 0 {
      MaskIsMod(x, n);
      DivUnique(x, Pow2(n), 0, x);
    } else if x == 0 {
      DivUnique(0, Pow2(k), 0, 0);
    } else {
      MaskIsFloor(x / 2, n - 1, k - 1);
      DivMod2(x, k);
      assert HighMask(n, k) == 2 * HighMask(n - 1, k - 1);
    }
  }

  lemma Pow2Of32()
    ensures Pow2(32) == WORD
  {
    assert Pow2(8) == 0x100;
    assert Pow2(16) == 0x1_0000;
    assert Pow2(24) == 0x100_0000;
  }

  /** x & ~(2^k - 1), the rounding down to a multiple of 2^k. */
  lemma ClearLow(x: nat, k: nat)
    requires x < WORD && k <= 32
    ensures Pow2(k) - 1 < WORD && And(x, Not(Pow2(k) - 1)) == x - x % Pow2(k)
  {
    Pow2Of32();
    Monotone(k, 32);
    MaskIsFloor(x, 32, k);
  }
}
