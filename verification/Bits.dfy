/** Bits of natural numbers and the C bit operators on them, by recursion on the
    lowest bit. */
module Bits {
  import opened Arith

  type byte = x: int | 0 <= x < 256

  predicate Bit(x: nat, j: nat) {
    if j == 0 then x % 2 == 1 else Bit(x / 2, j - 1)
  }

  function Num(b: bool): nat {
    if b then 1 else 0
  }

  /** x >> s */
  function Shr(x: nat, s: nat): nat {
    if s == 0 then x else Shr(x / 2, s - 1)
  }

  /** x << s */
  function Shl(x: nat, s: nat): nat {
    if s == 0 then x else 2 * Shl(x, s - 1)
  }

  /** (1 << n) - 1 */
  function Ones(n: nat): nat {
    if n == 0 then 0 else 1 + 2 * Ones(n - 1)
  }

  function And(x: nat, y: nat): nat {
    if x == 0 || y == 0 then 0 else Num(x % 2 == 1 && y % 2 == 1) + 2 * And(x / 2, y / 2)
  }

  function Or(x: nat, y: nat): nat {
    if x == 0 then y else if y == 0 then x else Num(x % 2 == 1 || y % 2 == 1) + 2 * Or(x / 2, y / 2)
  }

  /** x & ~y */
  function AndNot(x: nat, y: nat): nat {
    if x == 0 then 0 else Num(x % 2 == 1 && y % 2 != 1) + 2 * AndNot(x / 2, y / 2)
  }

  lemma {:induction false} BitOfZero(j: nat)
    ensures !Bit(0, j)
  {
    if j > 0 {
      BitOfZero(j - 1);
    }
  }

  lemma {:induction false} BitOfShr(x: nat, s: nat, j: nat)
    ensures Bit(Shr(x, s), j) == Bit(x, s + j)
  {
    if s > 0 {
      BitOfShr(x / 2, s - 1, j);
    }
  }

  lemma {:induction false} BitOfShl(x: nat, s: nat, j: nat)
    ensures Bit(Shl(x, s), j) == (j >= s && Bit(x, j - s))
  {
    if s > 0 && j > 0 {
      BitOfShl(x, s - 1, j - 1);
      assert Shl(x, s) / 2 == Shl(x, s - 1);
    }
  }

  lemma {:induction false} BitOfOnes(n: nat, j: nat)
    ensures Bit(Ones(n), j) == (j < n)
  {
    if n == 0 {
      BitOfZero(j);
    } else if j > 0 {
      BitOfOnes(n - 1, j - 1);
      assert Ones(n) / 2 == Ones(n - 1);
    }
  }

  /** A number from its lowest bit and the rest. */
  lemma LowBit(b: bool, rest: nat, z: nat)
    requires z == Num(b) + 2 * rest
    ensures z / 2 == rest && Bit(z, 0) == b
  {
  }

  lemma BitAbove(z: nat, j: nat)
    requires j > 0
    ensures Bit(z, j) == Bit(z / 2, j - 1)
  {
  }

  lemma {:induction false} BitOfAnd(x: nat, y: nat, j: nat)
    ensures Bit(And(x, y), j) == (Bit(x, j) && Bit(y, j))
  {
    if x == 0 || y == 0 {
      BitOfZero(j);
    } else {
      LowBit(x % 2 == 1 && y % 2 == 1, And(x / 2, y / 2), And(x, y));
      if j > 0 {
        BitOfAnd(x / 2, y / 2, j - 1);
        BitAbove(And(x, y), j);
      }
    }
  }

  lemma {:induction false} BitOfOr(x: nat, y: nat, j: nat)
    ensures Bit(Or(x, y), j) == (Bit(x, j) || Bit(y, j))
  {
    if x == 0 || y == 0 {
      BitOfZero(j);
    } else {
      LowBit(x % 2 == 1 || y % 2 == 1, Or(x / 2, y / 2), Or(x, y));
      if j > 0 {
        BitOfOr(x / 2, y / 2, j - 1);
        BitAbove(Or(x, y), j);
      }
    }
  }

  lemma {:induction false} BitOfAndNot(x: nat, y: nat, j: nat)
    ensures Bit(AndNot(x, y), j) == (Bit(x, j) && !Bit(y, j))
  {
    if x == 0 {
      BitOfZero(j);
    } else {
      LowBit(x % 2 == 1 && y % 2 != 1, AndNot(x / 2, y / 2), AndNot(x, y));
      if j > 0 {
        BitOfAndNot(x / 2, y / 2, j - 1);
        BitAbove(AndNot(x, y), j);
      }
    }
  }

  /** Numbers with the same bits are the same number. */
  lemma {:induction false} SameBits(x: nat, y: nat)
    requires forall j: nat :: Bit(x, j) == Bit(y, j)
    ensures x == y
    decreases x + y
  {
    if x != 0 || y != 0 {
      assert Bit(x, 0) == Bit(y, 0);
      forall j: nat ensures Bit(x / 2, j) == Bit(y / 2, j) {
        assert Bit(x, j + 1) == Bit(y, j + 1);
      }
      SameBits(x / 2, y / 2);
    }
  }

  /** Numbers below 2^n have no bit from n on, and conversely. */
  lemma {:induction false} HighBitsClear(x: nat, n: nat, j: nat)
    requires x < Pow2(n) && j >= n
    ensures !Bit(x, j)
  {
    if n == 0 {
      BitOfZero(j);
    } else {
      HighBitsClear(x / 2, n - 1, j - 1);
    }
  }

  lemma {:induction false} BelowPow2(x: nat, n: nat)
    requires forall j: nat | j >= n :: !Bit(x, j)
    ensures x < Pow2(n)
    decreases x + n
  {
    if n > 0 {
      forall j: nat | j >= n - 1 ensures !Bit(x / 2, j) {
        assert !Bit(x, j + 1);
      }
      BelowPow2(x / 2, n - 1);
    } else if x > 0 {
      assert !Bit(x, 0);
      forall j: nat ensures !Bit(x / 2, j) {
        assert !Bit(x, j + 1);
      }
      BelowPow2(x / 2, 0);
    }
  }

  lemma ModDouble(x: nat, m: nat)
    requires m > 0
    ensures x % (2 * m) == x % 2 + 2 * (x / 2 % m)
  {
    var h := x / 2;
    var q, r := h / m, h % m;
    assert h == q * m + r;
    assert x == q * (2 * m) + (2 * r + x % 2);
    DivModUnique(x, 2 * m, q, 2 * r + x % 2);
  }

  /** Masking with n ones is the remainder modulo 2^n. */
  lemma {:induction false} MaskIsMod(x: nat, n: nat)
    ensures And(x, Ones(n)) == x % Pow2(n)
  {
    if x == 0 {
      DivModUnique(0, Pow2(n), 0, 0);
    } else if n > 0 {
      MaskIsMod(x / 2, n - 1);
      ModDouble(x, Pow2(n - 1));
      assert Ones(n) / 2 == Ones(n - 1);
    }
  }
}
