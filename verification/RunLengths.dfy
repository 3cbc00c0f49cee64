// The code lengths of a dynamic block: writing them with repeats and reading them back (RFC 1951,
// section 3.2.7).
module RunLengths {
  import opened Bits
  import opened Canonical
  import opened Huffman
  import opened Deflate
  import opened Runs
  import opened BitStrings
  import opened Encoding

  // A length by itself, 3 to 6 times the last one, 3 to 10 zeros, or 11 to 138 zeros.
  datatype Op = Len(v: nat) | Again(k: nat) | Zeros(k: nat) | ManyZeros(k: nat)

  predicate WfOp(op: Op) {
    match op
    case Len(v) => v < 16
    case Again(k) => 3 <= k <= 6
    case Zeros(k) => 3 <= k <= 10
    case ManyZeros(k) => 11 <= k <= 138
  }

  function OpSymbol(op: Op): (v: nat)
    requires WfOp(op)
    ensures v < 19
  {
    match op
    case Len(v) => v
    case Again(_) => 16
    case Zeros(_) => 17
    case ManyZeros(_) => 18
  }

  function OpExtra(op: Op): BitString
    requires WfOp(op)
  {
    match op
    case Len(_) => BitString(0, 0)
    case Again(k) => BitString(k - 3, 2)
    case Zeros(k) => BitString(k - 3, 3)
    case ManyZeros(k) => BitString(k - 11, 7)
  }

  // The lengths after those in `got`.
  function OpLengths(got: seq<nat>, op: Op): (r: seq<nat>)
    requires WfOp(op)
    ensures |r| >= 1
  {
    match op
    case Len(v) => [v]
    case Again(k) => Repeat(LastOf(got), k)
    case Zeros(k) => Repeat(0, k)
    case ManyZeros(k) => Repeat(0, k)
  }

  function OpsLengths(got: seq<nat>, ops: seq<Op>): (r: seq<nat>)
    requires AllWf(ops)
    ensures got <= r
    decreases |ops|
  {
    if ops == [] then got else OpsLengths(got + OpLengths(got, ops[0]), ops[1..])
  }

  predicate AllWf(ops: seq<Op>) {
    forall i :: 0 <= i < |ops| ==> WfOp(ops[i])
  }

  // cl has codes for all that is used.
  predicate OpCoded(cl: seq<nat>, op: Op) {
    WfOp(op) && HasCode(cl, OpSymbol(op))
  }

  predicate OpsCoded(cl: seq<nat>, ops: seq<Op>) {
    forall i :: 0 <= i < |ops| ==> OpCoded(cl, ops[i])
  }

  function OpBits(cl: seq<nat>, op: Op): BitString
    requires OpCoded(cl, op)
  {
    Cat(SymbolBits(cl, OpSymbol(op)), OpExtra(op))
  }

  function OpsBits(cl: seq<nat>, ops: seq<Op>): BitString
    requires OpsCoded(cl, ops)
  {
    if ops == [] then BitString(0, 0) else Cat(OpBits(cl, ops[0]), OpsBits(cl, ops[1..]))
  }

  lemma ExtraWf(op: Op)
    requires WfOp(op)
    ensures WfBits(OpExtra(op))
  {
    P2Values();
    assert P2(0) == 1;
  }

  lemma OpBitsWf(cl: seq<nat>, op: Op)
    requires IsCode(cl) && OpCoded(cl, op)
    ensures WfBits(OpBits(cl, op))
  {
    hide IsCode, Cat, OpSymbol, OpExtra, CodeBits, Code;
    SymbolRead(cl, OpSymbol(op), Stream(0, 0));
    ExtraWf(op);
    CatWf(SymbolBits(cl, OpSymbol(op)), OpExtra(op));
  }

  lemma {:induction false} OpsBitsWf(cl: seq<nat>, ops: seq<Op>)
    requires IsCode(cl) && OpsCoded(cl, ops)
    ensures WfBits(OpsBits(cl, ops))
    decreases |ops|
  {
    hide IsCode, Cat, OpBits, OpCoded;
    if ops == [] {
      assert P2(0) == 1;
    } else {
      OpBitsWf(cl, ops[0]);
      OpsBitsWf(cl, ops[1..]);
      CatWf(OpBits(cl, ops[0]), OpsBits(cl, ops[1..]));
    }
  }

  lemma OpRead(cl: seq<nat>, op: Op, s: Stream, got: seq<nat>)
    requires |cl| == 19 && IsCode(cl) && OpCoded(cl, op) && Begins(s, OpBits(cl, op))
    ensures NextPiece(cl, s, got) == Piece(OpLengths(got, op), Skip(s, OpBits(cl, op).n))
  {
    hide IsCode, Cat, Skip, Peek, CodeBits, Code, Symbol;
    var a, b := SymbolBits(cl, OpSymbol(op)), OpExtra(op);
    SymbolRead(cl, OpSymbol(op), s);
    CatBegins(s, a, b);
    SkipCat(s, a, b);
    SkipSkip(s, a.n, 0);
  }

  lemma {:induction false} OpsGrow(got: seq<nat>, ops: seq<Op>)
    requires AllWf(ops)
    ensures |OpsLengths(got, ops)| >= |got| + |ops|
    decreases |ops|
  {
    hide WfOp, OpLengths;
    if ops != [] {
      OpsGrow(got + OpLengths(got, ops[0]), ops[1..]);
    }
  }

  lemma CodedWf(cl: seq<nat>, ops: seq<Op>)
    requires OpsCoded(cl, ops)
    ensures AllWf(ops)
  {
  }

  // Reading back what was written gives all lengths, whatever repeats were used.
  lemma {:induction false} LengthsRoundTrip(cl: seq<nat>, ops: seq<Op>, s: Stream, got: seq<nat>)
    requires |cl| == 19 && IsCode(cl) && OpsCoded(cl, ops) && Begins(s, OpsBits(cl, ops)) && s.phase < 8
    ensures AllWf(ops)
    ensures var all := OpsLengths(got, ops);
            |got| <= |all| && ReadLengths(cl, s, |all|, got) == Some(Piece(all, Skip(s, OpsBits(cl, ops).n)))
    decreases |ops|
  {
    hide IsCode, Cat, Skip, Peek, OpCoded, OpLengths, NextPiece, WfOp, Begins, OpBits;
    CodedWf(cl, ops);
    OpsGrow(got, ops);
    if ops == [] {
      SkipNothing(s);
    } else {
      var a, rest := OpBits(cl, ops[0]), OpsBits(cl, ops[1..]);
      OpBitsWf(cl, ops[0]);
      CatBegins(s, a, rest);
      SkipCat(s, a, rest);
      OpRead(cl, ops[0], s, got);
      PhaseAfter(s, a.n);
      LengthsRoundTrip(cl, ops[1..], Skip(s, a.n), got + OpLengths(got, ops[0]));
    }
  }

  lemma SkipNothing(s: Stream)
    requires s.phase < 8
    ensures Skip(s, 0) == s
  {
    assert P2(0) == 1;
  }

  lemma PhaseAfter(s: Stream, n: nat)
    ensures Skip(s, n).phase < 8
  {
  }

  // A repeat that goes past the number of lengths is refused.
  lemma {:induction false} OverlongRefused(cl: seq<nat>, ops: seq<Op>, last: Op, s: Stream, n: nat, got: seq<nat>)
    requires |cl| == 19 && IsCode(cl) && OpsCoded(cl, ops + [last]) && s.phase < 8
    requires Begins(s, OpsBits(cl, ops + [last]))
    requires AllWf(ops) && AllWf(ops + [last])
    requires |OpsLengths(got, ops)| < n < |OpsLengths(got, ops + [last])|
    ensures |got| <= n && ReadLengths(cl, s, n, got).None?
    decreases |ops|
  {
    hide IsCode, Cat, Skip, Peek, OpCoded, OpLengths, NextPiece, WfOp, Begins, OpBits;
    var all := ops + [last];
    var a, rest := OpBits(cl, all[0]), OpsBits(cl, all[1..]);
    OpsGrow(got, ops);
    OpBitsWf(cl, all[0]);
    CatBegins(s, a, rest);
    OpRead(cl, all[0], s, got);
    if ops == [] {
      assert all[1..] == [];
    } else {
      assert all[1..] == ops[1..] + [last];
      PhaseAfter(s, a.n);
      OverlongRefused(cl, ops[1..], last, Skip(s, a.n), n, got + OpLengths(got, ops[0]));
    }
  }

  // Every vector of lengths can be written, if only one by one.
  function OneByOne(lens: seq<nat>): (ops: seq<Op>)
    requires Small(lens)
    ensures |ops| == |lens| && forall i :: 0 <= i < |lens| ==> ops[i] == Len(lens[i])
  {
    seq(|lens|, i requires 0 <= i < |lens| => Len(lens[i]))
  }

  lemma {:induction false} OneByOneLengths(got: seq<nat>, lens: seq<nat>)
    requires Small(lens)
    ensures AllWf(OneByOne(lens)) && OpsLengths(got, OneByOne(lens)) == got + lens
    decreases |lens|
  {
    var ops := OneByOne(lens);
    if lens == [] {
      assert got + lens == got;
    } else {
      assert ops[1..] == OneByOne(lens[1..]);
      OneByOneLengths(got + [lens[0]], lens[1..]);
      assert got + [lens[0]] + lens[1..] == got + lens;
    }
  }
}
