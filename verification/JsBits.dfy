// JavaScript's bitwise operators on numbers, and what they compute on the arguments that
// gzip.js gives them.
module JsBits {
  import opened Bits

  // The signed 32-bit integer a number is converted to before a bitwise operation.
  function ToInt32(x: int): int {
    var m := x % 0x1_0000_0000;
    if m < 0x8000_0000 then m else m - 0x1_0000_0000
  }

  // Distance of x from the nearer of 0 and -1: what halving x makes smaller.
  function Mag(x: int): nat {
    if x < 0 then -x - 1 else x
  }

  function And(a: int, b: int): int
    decreases Mag(a) + Mag(b)
  {
    if a == 0 || b == 0 then 0
    else if a == -1 then b
    else if b == -1 then a
    else 2 * And(a / 2, b / 2) + (if a % 2 == 1 && b % 2 == 1 then 1 else 0)
  }

  function Or(a: int, b: int): int
    decreases Mag(a) + Mag(b)
  {
    if a == 0 || b == -1 then b
    else if b == 0 || a == -1 then a
    else 2 * Or(a / 2, b / 2) + (if a % 2 == 1 || b % 2 == 1 then 1 else 0)
  }

  function Xor(a: int, b: int): int
    decreases Mag(a) + Mag(b)
  {
    if a == 0 then b
    else if b == 0 then a
    else if a == -1 && b == -1 then 0
    else 2 * Xor(a / 2, b / 2) + (if a % 2 != b % 2 then 1 else 0)
  }

  function Not(x: int): int {
    -x - 1
  }

  function Shl(x: int, n: nat): int {
    ToInt32(x * P2(n))
  }

  // The masks table of gzip.js.
  const MASK_BITS: seq<nat> := [
    0x0000,
    0x0001, 0x0003, 0x0007, 0x000f, 0x001f, 0x003f, 0x007f, 0x00ff,
    0x01ff, 0x03ff, 0x07ff, 0x0fff, 0x1fff, 0x3fff, 0x7fff, 0xffff]

  lemma MaskBits(n: nat)
    requires n <= 16
    ensures MASK_BITS[n] == P2(n) - 1
  {
    assert P2(4) == 16 && P2(8) == 0x100 && P2(12) == 0x1000;
  }

  lemma ToInt32Same(x: int)
    ensures ToInt32(x) == x <==> -0x8000_0000 <= x < 0x8000_0000
  {
  }

  // The first bit and the rest.
  lemma Halve(x: int, n: nat)
    ensures Low(x, n + 1) == x % 2 + 2 * Low(x / 2, n)
    ensures High(x, n + 1) == High(x / 2, n)
  {
    assert P2(1) == 2;
    TakeTake(x, 1, n);
  }

  lemma LowOfMinusOne(n: nat)
    ensures Low(-1, n) == P2(n) - 1 && High(-1, n) == -1
  {
    DivModUnique(-1, P2(n), -1, P2(n) - 1);
  }

  lemma {:induction false} AndMask(x: int, n: nat)
    ensures And(x, P2(n) - 1) == Low(x, n)
    decreases n
  {
    if x == 0 {
      LowSmall(0, n);
    } else if x == -1 {
      LowOfMinusOne(n);
    } else if n > 0 {
      AndMask(x / 2, n - 1);
      Halve(x, n - 1);
    }
  }

  lemma {:induction false} AndBit(x: int, n: nat)
    ensures And(x, P2(n)) == P2(n) * Bit(x, n)
    decreases n
  {
    assert P2(1) == 2;
    if x == 0 {
      Join(0, 0, n);
      LowSmall(0, 1);
    } else if x == -1 {
      LowOfMinusOne(n);
      LowOfMinusOne(1);
    } else if n > 0 {
      AndBit(x / 2, n - 1);
      Halve(x, n - 1);
      Distribute(2, Bit(x, n), 0, P2(n - 1));
    } else {
      assert And(x / 2, 0) == 0;
    }
  }

  lemma AndBitZero(x: int, n: nat)
    ensures And(x, P2(n)) == 0 <==> Bit(x, n) == 0
    ensures Bit(x, n) == 0 || Bit(x, n) == 1
  {
    AndBit(x, n);
    assert P2(1) == 2;
    MulCancel(P2(n), Bit(x, n), 0);
  }

  // Toggling bit n.
  lemma {:induction false} XorBit(x: int, n: nat)
    ensures Xor(x, P2(n)) == if Bit(x, n) == 0 then x + P2(n) else x - P2(n)
    decreases n
  {
    if x == 0 {
      assert P2(1) == 2;
      Join(0, 0, n);
      LowSmall(0, 1);
    } else if n == 0 {
      XorBit0(x);
    } else {
      XorBit(x / 2, n - 1);
      Halve(x, n - 1);
      XorEven(x, P2(n - 1));
    }
  }

  lemma XorBit0(x: int)
    requires x != 0
    ensures Xor(x, 1) == if Bit(x, 0) == 0 then x + 1 else x - 1
  {
    assert P2(1) == 2;
    assert Xor(x / 2, 0) == x / 2;
  }

  lemma XorEven(x: int, b: int)
    requires x != 0 && b > 0
    ensures Xor(x, 2 * b) == 2 * Xor(x / 2, b) + x % 2
  {
  }

  // Putting bits above the ones that are there.
  lemma {:induction false} OrAbove(x: int, y: int, n: nat)
    requires 0 <= x < P2(n)
    ensures Or(x, P2(n) * y) == x + P2(n) * y
    decreases n
  {
    if x != 0 && P2(n) * y != -1 && y != 0 && n > 0 {
      OrAbove(x / 2, y, n - 1);
      Distribute(2, y, 0, P2(n - 1));
      var b := P2(n) * y;
      assert b == 2 * (P2(n - 1) * y);
      assert b / 2 == P2(n - 1) * y && b % 2 == 0;
    } else if y == 0 {
      assert P2(n) * y == 0;
    } else if n > 0 {
      Distribute(2, y, 0, P2(n - 1));
    }
  }

  // Ones put above a number whose bits from n on are ones already change nothing.
  lemma {:induction false} OrOnes(x: int, n: nat)
    requires -1 * P2(n) <= x < 0
    ensures Or(x, -1 * P2(n)) == x
    decreases n
  {
    if n > 0 && x != -1 {
      OrOnes(x / 2, n - 1);
    }
  }

  // The bits of the 16-bit complement.
  lemma NotLow(x: int, n: nat)
    ensures And(Not(x), P2(n) - 1) == P2(n) - 1 - Low(x, n)
  {
    AndMask(Not(x), n);
    Split(x, n);
    Complement(P2(n), High(x, n));
    JoinAs(Not(x), -High(x, n) - 1, P2(n) - 1 - Low(x, n), n);
  }

  lemma Complement(p: int, h: int)
    ensures p * (-h - 1) == -(p * h) - p
  {
  }
}
