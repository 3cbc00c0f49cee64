// The fixed codes: their lengths (RFC 1951, section 3.2.6) give, by the rule of section 3.2.2, the codes
// listed there.
module FixedCodes {
  import opened Bits
  import opened Canonical
  import opened Deflate

  // The codes of section 3.2.6.
  function FixedCode(s: nat): nat
    requires s < 288
  {
    if s < 144 then 0x30 + s
    else if s < 256 then 0x190 + (s - 144)
    else if s < 280 then s - 256
    else 0xC0 + (s - 280)
  }

  lemma {:induction false} FixedCounts(n: nat, k: nat)
    requires n <= 288
    ensures CountIn(FixedLL(), n, k) ==
              if k == 7 then (if n <= 256 then 0 else if n <= 280 then n - 256 else 24)
              else if k == 8 then (if n <= 144 then n else if n <= 280 then 144 else n - 136)
              else if k == 9 then (if n <= 144 then 0 else if n <= 256 then n - 144 else 112)
              else 0
  {
    if n > 0 {
      FixedCounts(n - 1, k);
    }
  }

  lemma {:induction false} FixedFirst(k: nat)
    requires k <= 9
    ensures First(FixedLL(), k) == if k <= 7 then 0 else if k == 8 then 0x30 else 0x190
  {
    if k > 1 {
      FixedFirst(k - 1);
      FixedCounts(288, k - 1);
    }
  }

  // The general rule of section 3.2.2 gives the codes of section 3.2.6.
  lemma FixedCodeIs(s: nat)
    requires s < 288
    ensures Code(FixedLL(), s) == FixedCode(s)
  {
    FixedFirst(FixedLL()[s]);
    FixedCounts(s, FixedLL()[s]);
  }

  lemma {:induction false} FixedDistanceCounts(n: nat, k: nat)
    requires n <= 30
    ensures CountIn(FixedDL(), n, k) == if k == 5 then n else 0
  {
    if n > 0 {
      FixedDistanceCounts(n - 1, k);
    }
  }

  lemma {:induction false} FixedDistanceFirst(k: nat)
    requires k <= 5
    ensures First(FixedDL(), k) == 0
  {
    if k > 1 {
      FixedDistanceFirst(k - 1);
      FixedDistanceCounts(30, k - 1);
    }
  }

  // The distance codes are five-bit numbers.
  lemma FixedDistanceCodeIs(d: nat)
    requires d < 30
    ensures Code(FixedDL(), d) == d
  {
    FixedDistanceFirst(5);
    FixedDistanceCounts(d, 5);
  }

  lemma KraftAppend(lens: seq<nat>, l: nat)
    requires 0 < l <= MAX_BITS
    ensures Kraft(lens + [l]) == Kraft(lens) + P2(17 - l)
  {
    var all := lens + [l];
    assert all[..|all| - 1] == lens && all[|all| - 1] == l;
  }

  lemma {:induction false} KraftRepeat(lens: seq<nat>, l: nat, k: nat)
    requires 0 < l <= MAX_BITS
    ensures Kraft(lens + Repeat(l, k)) == Kraft(lens) + k * P2(17 - l)
  {
    hide Kraft, P2;
    if k == 0 {
      assert lens + Repeat(l, 0) == lens;
    } else {
      KraftRepeat(lens, l, k - 1);
      KraftAppend(lens + Repeat(l, k - 1), l);
      assert lens + Repeat(l, k) == lens + Repeat(l, k - 1) + [l];
      Distribute(P2(17 - l), k - 1, 1, 0);
    }
  }

  // The fixed literal code is complete; that for distances leaves two codes over.
  lemma FixedKraft()
    ensures Complete(FixedLL()) && Longest(FixedLL()) == 9
    ensures !Oversubscribed(FixedDL()) && Longest(FixedDL()) == 5
    ensures Bounded(FixedLL()) && Bounded(FixedDL())
  {
    FixedSums();
    assert FixedLL()[200] == 9 && FixedDL()[0] == 5;
    assert 9 in FixedLL() && 5 in FixedDL();
  }

  lemma FixedSums()
    ensures Kraft(FixedLL()) == P2(17) == 131072
    ensures Kraft(FixedDL()) == 122880
  {
    var a, b, c, d := Repeat(8, 144), Repeat(9, 112), Repeat(7, 24), Repeat(8, 8);
    assert FixedLL() == [] + a + b + c + d;
    assert FixedDL() == [] + Repeat(5, 30);
    LargePowers();
    hide P2, Repeat, FixedLL, FixedDL;
    KraftRepeat([], 8, 144);
    KraftRepeat([] + a, 9, 112);
    KraftRepeat([] + a + b, 7, 24);
    KraftRepeat([] + a + b + c, 8, 8);
    KraftRepeat([], 5, 30);
  }

  lemma LargePowers()
    ensures P2(17) == 131072 && P2(9) == 512 && P2(8) == 256 && P2(10) == 1024 && P2(12) == 4096
  {
    P2Values();
    P2Add(8, 1);
    P2Add(8, 2);
    P2Add(8, 4);
    P2Add(16, 1);
  }
}
