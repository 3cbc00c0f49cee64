// Finite strings of bits, and what it means that a stream begins with one.
module BitStrings {
  import opened Bits
  import opened Deflate
  import opened Runs

  // n bits, the first of them the least significant one of v.
  datatype BitString = BitString(v: nat, n: nat)

  predicate WfBits(b: BitString) {
    b.v < P2(b.n)
  }

  function Cat(a: BitString, b: BitString): BitString {
    BitString(a.v + P2(a.n) * b.v, a.n + b.n)
  }

  // The stream s begins with the bits of b.
  ghost predicate Begins(s: Stream, b: BitString) {
    Peek(s, b.n) == b.v
  }

  // A code of k bits, most significant bit first.
  function CodeBits(code: nat, k: nat): nat {
    if k == 0 then 0 else CodeBits(code / 2, k - 1) + P2(k - 1) * (code % 2)
  }

  lemma {:induction false} CodeBitsRead(code: nat, k: nat, x: int)
    requires code < P2(k)
    ensures CodeBits(code, k) < P2(k)
    ensures Low(x, k) == CodeBits(code, k) ==> Msb(x, k) == code
  {
    if k > 0 {
      CodeBitsRead(code / 2, k - 1, x);
      var lo, b, p := CodeBits(code / 2, k - 1), code % 2, P2(k - 1);
      assert p * 0 == 0 && p * 1 == p;
      if Low(x, k) == CodeBits(code, k) {
        TakeTake(x, k - 1, 1);
        assert P2(1) == 2;
        LowLow(x, k, k - 1);
        JoinAs(CodeBits(code, k), b, lo, k - 1);
        MulCancel(p, Low(High(x, k - 1), 1), b);
      }
    }
  }

  lemma CatBegins(s: Stream, a: BitString, b: BitString)
    requires WfBits(a) && Begins(s, Cat(a, b))
    ensures Begins(s, a) && Begins(Skip(s, a.n), b)
  {
    TakeTake(s.rest, a.n, b.n);
    LowLow(s.rest, a.n + b.n, a.n);
    JoinAs(Low(s.rest, a.n + b.n), b.v, a.v, a.n);
    MulCancel(P2(a.n), Low(High(s.rest, a.n), b.n), b.v);
  }

  lemma SkipCat(s: Stream, a: BitString, b: BitString)
    ensures Skip(Skip(s, a.n), b.n) == Skip(s, Cat(a, b).n)
  {
    hide P2, High;
    TakeTake(s.rest, a.n, b.n);
  }

  lemma CatWf(a: BitString, b: BitString)
    requires WfBits(a) && WfBits(b)
    ensures WfBits(Cat(a, b))
  {
    P2Add(a.n, b.n);
    MulMono(P2(a.n), b.v + 1, P2(b.n));
    Distribute(P2(a.n), b.v, 1, 0);
  }
}
