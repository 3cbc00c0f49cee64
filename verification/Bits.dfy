// Integers as bit strings. A bit string is an int in two's complement of unbounded width, least
// significant bit first: a stream that has run out of data simply continues with ones.
module Bits {

  function P2(n: nat): (r: nat)
    ensures r >= 1
  {
    if n == 0 then 1 else 2 * P2(n - 1)
  }

  // The first n bits of x, as a number.
  function Low(x: int, n: nat): (r: nat)
    ensures r < P2(n)
  {
    x % P2(n)
  }

  // What is left of x after its first n bits.
  function High(x: int, n: nat): int {
    x / P2(n)
  }

  // Bit n of x.
  function Bit(x: int, n: nat): nat {
    Low(High(x, n), 1)
  }

  // The first k bits of x read as a number whose MOST significant bit comes first, the way RFC 1951
  // (section 3.1.1) packs Huffman codes.
  function Msb(x: int, k: nat): nat {
    if k == 0 then 0 else 2 * Msb(x, k - 1) + Bit(x, k - 1)
  }

  lemma MulSmall(t: int, d: int)
    requires -d < t * d < d
    ensures t == 0
  {
  }

  lemma Distribute(p: int, a: int, b: int, c: int)
    ensures p * (a + b) == p * a + p * b
    ensures p * (c * a) == (p * c) * a
  {
  }

  lemma MulCancel(p: int, a: int, b: int)
    requires p > 0
    ensures p * a == p * b <==> a == b
  {
  }

  lemma DivModUnique(x: int, d: int, q: int, r: int)
    requires 0 <= r < d && x == q * d + r
    ensures x / d == q && x % d == r
  {
    var q', r' := x / d, x % d;
    assert x == q' * d + r';
    Distribute(d, q', -q, 0);
    MulSmall(q' - q, d);
  }

  lemma {:induction false} P2Add(a: nat, b: nat)
    ensures P2(a + b) == P2(a) * P2(b)
  {
    if b > 0 {
      P2Add(a, b - 1);
    }
  }

  lemma P2Values()
    ensures P2(1) == 2 && P2(2) == 4 && P2(3) == 8 && P2(4) == 16 && P2(5) == 32
    ensures P2(7) == 128 && P2(8) == 256 && P2(16) == 0x1_0000
  {
    assert P2(4) == 16;
    P2Add(4, 4);
    P2Add(8, 8);
  }

  lemma {:induction false} P2Mono(a: nat, b: nat)
    requires a <= b
    ensures P2(a) <= P2(b)
    ensures a < b ==> P2(a) < P2(b)
  {
    if a < b {
      P2Mono(a, b - 1);
    }
  }

  lemma Split(x: int, n: nat)
    ensures x == P2(n) * High(x, n) + Low(x, n)
  {
  }

  // High and Low are determined by the sum they make up.
  lemma Join(hi: int, lo: nat, n: nat)
    requires lo < P2(n)
    ensures High(P2(n) * hi + lo, n) == hi && Low(P2(n) * hi + lo, n) == lo
  {
    DivModUnique(P2(n) * hi + lo, P2(n), hi, lo);
  }

  lemma LowSmall(x: int, n: nat)
    ensures Low(x, n) == x <==> 0 <= x < P2(n)
  {
    if 0 <= x < P2(n) {
      DivModUnique(x, P2(n), 0, x);
    }
  }

  // Taking a bits and then b bits is taking a + b bits.
  lemma TakeTake(x: int, a: nat, b: nat)
    ensures High(High(x, a), b) == High(x, a + b)
    ensures Low(x, a + b) == Low(x, a) + P2(a) * Low(High(x, a), b)
  {
    var h := High(x, a);
    TakeTakeSum(x, h, High(h, b), Low(x, a), Low(h, b), a, b);
  }

  lemma TakeTakeSum(x: int, h: int, hh: int, l: nat, ll: nat, a: nat, b: nat)
    requires x == P2(a) * h + l && l < P2(a)
    requires h == P2(b) * hh + ll && ll < P2(b)
    ensures High(x, a + b) == hh && Low(x, a + b) == l + P2(a) * ll
  {
    hide *;
    P2Add(a, b);
    var p, q, pq := P2(a), P2(b), P2(a + b);
    MixedRadix(p, q, pq, h, hh, l, ll);
    var lo := l + p * ll;
    assert x == pq * hh + lo;
    JoinAs(x, hh, lo, a + b);
  }

  lemma JoinAs(x: int, hi: int, lo: nat, n: nat)
    requires lo < P2(n) && x == P2(n) * hi + lo
    ensures High(x, n) == hi && Low(x, n) == lo
  {
    Join(hi, lo, n);
  }

  lemma MixedRadix(p: int, q: int, pq: int, h: int, hh: int, l: int, ll: int)
    requires 0 <= l < p && 0 <= ll < q && h == q * hh + ll && pq == p * q
    ensures p * h + l == pq * hh + (l + p * ll)
    ensures 0 <= l + p * ll < pq
  {
    MulMono(p, 0, ll);
    Distribute(p, q * hh, ll, 0);
    Distribute(p, hh, 0, q);
    MulMono(p, ll + 1, q);
    Distribute(p, ll, 1, 0);
  }

  lemma MulMono(p: int, a: int, b: int)
    requires 0 <= p && a <= b
    ensures p * a <= p * b
  {
  }

  lemma LowLow(x: int, m: nat, n: nat)
    requires n <= m
    ensures Low(Low(x, m), n) == Low(x, n)
  {
    TakeTake(x, n, m - n);
    Join(Low(High(x, n), m - n), Low(x, n), n);
  }

  lemma HighBound(i: int, w: nat, n: nat)
    requires 0 <= i < P2(w + n)
    ensures 0 <= High(i, w) < P2(n)
    ensures Low(High(i, w), n) == High(i, w)
  {
    LowSmall(i, w + n);
    TakeTake(i, w, n);
    Split(i, w);
    MulCancel(P2(w), High(i, w), Low(High(i, w), n));
  }

  lemma {:induction false} MsbBound(x: int, k: nat)
    ensures Msb(x, k) < P2(k)
  {
    if k > 0 {
      MsbBound(x, k - 1);
    }
  }

  // A longer prefix extends a shorter one.
  lemma {:induction false} MsbPrefix(x: int, k: nat, m: nat)
    ensures P2(m) * Msb(x, k) <= Msb(x, k + m) < P2(m) * (Msb(x, k) + 1)
  {
    if m > 0 {
      var c := Msb(x, k);
      MsbPrefix(x, k, m - 1);
      assert Msb(x, k + m) == 2 * Msb(x, k + (m - 1)) + Bit(x, k + m - 1);
      Distribute(2, c, 0, P2(m - 1));
      Distribute(2, c + 1, 0, P2(m - 1));
    }
  }

  lemma MsbHigh(x: int, k: nat, m: nat)
    ensures High(Msb(x, k + m), m) == Msb(x, k)
  {
    MsbPrefix(x, k, m);
    var p, c := P2(m), Msb(x, k);
    Distribute(p, c, 1, 0);
    JoinAs(Msb(x, k + m), c, Msb(x, k + m) - p * c, m);
  }

  // Counting up by one either keeps the number above the first m bits or rolls these over.
  lemma HighStep(c: int, m: nat)
    ensures High(c + 1, m) == High(c, m) || (High(c + 1, m) == High(c, m) + 1 && c + 1 == P2(m) * High(c + 1, m))
  {
    var p, h, l := P2(m), High(c, m), Low(c, m);
    Split(c, m);
    if l + 1 < p {
      JoinAs(c + 1, h, l + 1, m);
    } else {
      Distribute(p, h, 1, 0);
      JoinAs(c + 1, h + 1, 0, m);
    }
  }

  // Msb says exactly as much about x as its first k bits do.
  lemma {:induction false} MsbLow(x: int, y: int, k: nat)
    ensures Msb(x, k) == Msb(y, k) <==> Low(x, k) == Low(y, k)
  {
    if k > 0 {
      MsbLow(x, y, k - 1);
      TakeTake(x, k - 1, 1);
      TakeTake(y, k - 1, 1);
      var a, b, p := Bit(x, k - 1), Bit(y, k - 1), P2(k - 1);
      assert P2(1) == 2;
      assert p * 0 == 0 && p * 1 == p;
      assert Low(x, k) == Low(x, k - 1) + p * a && Low(y, k) == Low(y, k - 1) + p * b;
      if a == b {
      } else if a == 0 {
        assert b == 1;
      } else {
        assert a == 1 && b == 0;
      }
    }
  }

  // A number below 2^w has only zeros from bit w on.
  lemma {:induction false} MsbPad(x: int, w: nat, m: nat)
    requires 0 <= x < P2(w)
    ensures Msb(x, w + m) == P2(m) * Msb(x, w)
  {
    if m > 0 {
      MsbPad(x, w, m - 1);
      ZeroAbove(x, w, w + m - 1);
      assert Msb(x, w + m) == 2 * Msb(x, w + (m - 1)) + Bit(x, w + m - 1);
      Distribute(2, Msb(x, w), 0, P2(m - 1));
    }
  }

  lemma ZeroAbove(x: int, w: nat, n: nat)
    requires 0 <= x < P2(w) && w <= n
    ensures Bit(x, n) == 0
  {
    P2Mono(w, n);
    Join(0, x, n);
    LowSmall(0, 1);
  }

  // ... and the converse.
  lemma {:induction false} MsbPadded(x: int, w: nat, m: nat, c: nat)
    requires 0 <= x < P2(w + m)
    requires Msb(x, w + m) == P2(m) * c
    ensures x < P2(w)
  {
    if m > 0 {
      var b := Bit(x, w + m - 1);
      calc {
        P2(m) * c;
        2 * P2(m - 1) * c;
        2 * (P2(m - 1) * c);
      }
      assert Msb(x, w + m) == 2 * Msb(x, w + (m - 1)) + b;
      assert b == 0;
      TakeTake(x, w + m - 1, 1);
      LowSmall(x, w + m);
      assert Low(x, w + m) == Low(x, w + m - 1) + P2(w + m - 1) * b;
      MsbPadded(x, w, m - 1, c);
    }
  }
}
