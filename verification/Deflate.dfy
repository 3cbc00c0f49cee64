// The DEFLATE format (RFC 1951) as a machine that reads a bit stream and produces bytes. It knows
// code lengths, not tables, keeps everything it has produced, and makes one small step at a time.
module Deflate {
  import opened Bits
  import opened JsBits
  import opened Canonical
  import opened Huffman

  type Byte = x: int | 0 <= x < 256

  const WSIZE: nat := 32768

  // The bits still to be read, and how many of them there are up to the next byte boundary.
  datatype Stream = Stream(rest: int, phase: nat)

  function Peek(s: Stream, n: nat): nat {
    Low(s.rest, n)
  }

  function Skip(s: Stream, n: nat): Stream {
    Stream(High(s.rest, n), (s.phase - n) % 8)
  }

  // The tables of section 3.2.5: lengths for symbols from 257 on, distances for symbols from 0 on,
  // and their numbers of extra bits, 99 for symbols that must not occur.
  function CopyLengths(): (r: seq<nat>)
    ensures |r| == 31
  {
    [3, 4, 5, 6, 7, 8, 9, 10, 11, 13, 15, 17, 19, 23, 27, 31,
     35, 43, 51, 59, 67, 83, 99, 115, 131, 163, 195, 227, 258, 0, 0]
  }

  function LengthBits(): (r: seq<nat>)
    ensures |r| == 31
    ensures forall i :: 0 <= i < 31 ==> r[i] <= 5 || r[i] == 99
  {
    [0, 0, 0, 0, 0, 0, 0, 0, 1, 1, 1, 1, 2, 2, 2, 2,
     3, 3, 3, 3, 4, 4, 4, 4, 5, 5, 5, 5, 0, 99, 99]
  }

  function CopyDistances(): (r: seq<nat>)
    ensures |r| == 30
  {
    [1, 2, 3, 4, 5, 7, 9, 13, 17, 25, 33, 49, 65, 97, 129, 193,
     257, 385, 513, 769, 1025, 1537, 2049, 3073, 4097, 6145,
     8193, 12289, 16385, 24577]
  }

  function DistanceBits(): (r: seq<nat>)
    ensures |r| == 30
    ensures forall i :: 0 <= i < 30 ==> r[i] <= 13
  {
    [0, 0, 0, 0, 1, 1, 2, 2, 3, 3, 4, 4, 5, 5, 6, 6,
     7, 7, 8, 8, 9, 9, 10, 10, 11, 11,
     12, 12, 13, 13]
  }

  // The order of the code length code lengths (section 3.2.7).
  function BitOrder(): (r: seq<nat>)
    ensures |r| == 19
    ensures forall i :: 0 <= i < 19 ==> r[i] < 19
  {
    [16, 17, 18, 0, 8, 7, 9, 6, 10, 5, 11, 4, 12, 3, 13, 2, 14, 1, 15]
  }

  lemma OrderDistinct(j: nat)
    requires j < 19
    ensures forall i :: j < i < 19 ==> BitOrder()[i] != BitOrder()[j]
  {
  }

  // That order by arithmetic: the repeats, no code at all, and then outwards from eight. Here the symbol
  // that the j-th field is for,
  function FieldSymbol(j: nat): (r: nat)
    requires j < 19
    ensures r < 19
  {
    if j < 3 then 16 + j else if j == 3 then 0 else if j % 2 == 0 then 8 + (j - 4) / 2 else 8 - (j - 3) / 2
  }

  // and the field of symbol k.
  function FieldOf(k: nat): (r: nat)
    requires k < 19
    ensures r < 19
  {
    if k >= 16 then k - 16 else if k == 0 then 3 else if k >= 8 then 4 + 2 * (k - 8) else 3 + 2 * (8 - k)
  }

  lemma OrderIs(j: nat)
    requires j < 19
    ensures BitOrder()[j] == FieldSymbol(j)
  {
  }

  lemma FieldsAndSymbols(j: nat)
    requires j < 19
    ensures FieldOf(FieldSymbol(j)) == j && FieldSymbol(FieldOf(j)) == j
  {
  }

  // The tables by arithmetic. Lengths: eight symbols for single lengths, four each for ranges of 2, 4, 8,
  // 16 and 32, and one for 258; the last two must not occur.
  lemma LengthTables(i: nat)
    requires i < 31
    ensures i < 8 ==> LengthBits()[i] == 0 && CopyLengths()[i] == 3 + i
    ensures 8 <= i < 28 ==>
              LengthBits()[i] == (i - 4) / 4 && CopyLengths()[i] == 3 + (4 + i % 4) * P2((i - 4) / 4)
    ensures i == 28 ==> LengthBits()[i] == 0 && CopyLengths()[i] == 258
    ensures i > 28 ==> LengthBits()[i] == 99
  {
    hide P2;
    SmallPowers();
  }

  // Distances: four symbols for single distances, and two each for ranges of 2, 4, 8 and so on.
  lemma DistanceTables(d: nat)
    requires d < 30
    ensures d < 4 ==> DistanceBits()[d] == 0 && CopyDistances()[d] == 1 + d
    ensures d >= 4 ==>
              DistanceBits()[d] == (d - 2) / 2 && CopyDistances()[d] == 1 + (2 + d % 2) * P2((d - 2) / 2)
  {
    hide P2, DistanceBits, CopyDistances;
    DistanceExtra(d);
    DistanceBase(d);
  }

  lemma DistanceExtra(d: nat)
    requires d < 30
    ensures DistanceBits()[d] == if d < 4 then 0 else (d - 2) / 2
  {
  }

  lemma DistanceBase(d: nat)
    requires d < 30
    ensures CopyDistances()[d] == if d < 4 then 1 + d else 1 + (2 + d % 2) * P2((d - 2) / 2)
  {
    hide P2;
    SmallPowers();
  }

  lemma SmallPowers()
    ensures P2(0) == 1 && P2(1) == 2 && P2(2) == 4 && P2(3) == 8 && P2(4) == 16 && P2(5) == 32 && P2(6) == 64
    ensures P2(7) == 128 && P2(8) == 256 && P2(9) == 512 && P2(10) == 1024 && P2(11) == 2048
    ensures P2(12) == 4096 && P2(13) == 8192
  {
    P2Values();
    P2Add(8, 1);
    P2Add(8, 2);
    P2Add(8, 3);
    P2Add(8, 4);
    P2Add(8, 5);
  }

  // The symbols of the three codes.
  function LiteralAlphabet(): (al: Alphabet)
    ensures Covers(al, 288)
  {
    Alphabet(257, CopyLengths(), LengthBits())
  }

  function DistanceAlphabet(): (al: Alphabet)
    ensures Covers(al, 30)
  {
    Alphabet(0, CopyDistances(), DistanceBits())
  }

  function LengthAlphabet(): (al: Alphabet)
    ensures Covers(al, 19)
  {
    Alphabet(19, [], [])
  }

  lemma LengthEntry(i: nat)
    requires i < 31 && LengthBits()[i] != 99
    ensures CopyLengths()[i] > 0
  {
  }

  // The lengths of the fixed codes (section 3.2.6).
  function FixedLength(s: int): nat {
    if s < 144 then 8 else if s < 256 then 9 else if s < 280 then 7 else 8
  }

  function FixedLL(): seq<nat> {
    seq(288, s => FixedLength(s))
  }

  function FixedDL(): seq<nat> {
    seq(30, _ => 5)
  }

  // What the machine is in the middle of: nothing, a stored block with `left` bytes to go, or a
  // block of codes with the given lengths.
  datatype Block = NoBlock | Stored(left: nat) | Codes(ll: seq<nat>, dl: seq<nat>)

  // hist is everything produced, with the initial contents of the window before it; last says that
  // no block follows this one. A copy of len bytes from dist bytes back is pending if len > 0.
  datatype State = State(s: Stream, hist: seq<Byte>, block: Block, last: bool, len: nat, dist: nat)

  // Why the machine halts: at the end of the stream, because the stream is bad, or because it
  // makes the program throw.
  datatype Why = End | Bad | Throw

  datatype Step = Emit(next: State) | Silent(next: State) | Halt(why: Why)

  predicate Wf(st: State) {
    && |st.hist| >= WSIZE
    && (st.len > 0 ==> st.block.Codes? && 1 <= st.dist <= WSIZE)
    && (st.len == 0 ==> st.dist == 0)
    && (st.block.Stored? ==> st.block.left > 0)
    && (st.block.Codes? ==> WfCodes(st.block.ll, st.block.dl))
  }

  // Literal/length codes and distance codes that can be used together.
  predicate WfCodes(ll: seq<nat>, dl: seq<nat>) {
    && 257 <= |ll| <= 288 && 1 <= |dl| <= 30
    && Bounded(ll) && Bounded(dl)
    && (Longest(dl) == 0 ==> |ll| == 257)
  }

  function Append(hist: seq<Byte>, b: Byte): (r: seq<Byte>)
    ensures |r| == |hist| + 1 && hist <= r
  {
    hist + [b]
  }

  // ---- one step ----

  ghost function Next(st: State): (r: Step)
    requires Wf(st)
    ensures r.Emit? ==> Wf(r.next) && |r.next.hist| == |st.hist| + 1 && st.hist <= r.next.hist
    ensures r.Silent? ==> Wf(r.next) && r.next.hist == st.hist
  {
    match st.block
    case NoBlock => if st.last then Halt(End) else Header(st)
    case Stored(left) =>
      P2Values();
      Emit(State(Skip(st.s, 8), Append(st.hist, Peek(st.s, 8)), if left == 1 then NoBlock else Stored(left - 1),
                 st.last, 0, 0))
    case Codes(ll, dl) =>
      if st.len > 0 then Emit(CopyOne(st)) else NextCode(st, ll, dl)
  }

  // The byte from dist bytes back.
  function CopyOne(st: State): (st': State)
    requires Wf(st) && st.len > 0
    ensures Wf(st')
  {
    var b := st.hist[|st.hist| - st.dist];
    State(st.s, Append(st.hist, b), st.block, st.last, st.len - 1, if st.len == 1 then 0 else st.dist)
  }

  // A literal, the end of the block, or a length and a distance.
  ghost function NextCode(st: State, ll: seq<nat>, dl: seq<nat>): (r: Step)
    requires Wf(st) && st.block == Codes(ll, dl) && st.len == 0
    ensures r.Emit? ==> Wf(r.next) && |r.next.hist| == |st.hist| + 1 && st.hist <= r.next.hist
    ensures r.Silent? ==> Wf(r.next) && r.next.hist == st.hist
  {
    if Longest(ll) == 0 then Halt(Throw)
    else
      match Symbol(ll, st.s.rest)
      case None => Halt(Bad)
      case Some(v) =>
        var s1 := Skip(st.s, ll[v]);
        if v < 256 then Emit(State(s1, Append(st.hist, v), st.block, st.last, 0, 0))
        else if v == 256 then Silent(st.(s := s1, block := NoBlock))
        else if LengthBits()[v - 257] == 99 then Halt(Bad)
        else
          LengthEntry(v - 257);
          var len := CopyLengths()[v - 257] + Peek(s1, LengthBits()[v - 257]);
          NextDistance(st, Skip(s1, LengthBits()[v - 257]), len, dl)
  }

  ghost function NextDistance(st: State, s2: Stream, len: nat, dl: seq<nat>): (r: Step)
    requires Wf(st) && st.block.Codes? && st.block.dl == dl && st.len == 0 && len > 0
    ensures r.Halt? || (r.Silent? && Wf(r.next) && r.next.hist == st.hist)
  {
    match Symbol(dl, s2.rest)
    case None => Halt(Bad)
    case Some(d) =>
      var s3 := Skip(s2, dl[d]);
      DistanceBound(s3, d);
      Silent(st.(s := Skip(s3, DistanceBits()[d]), len := len,
                 dist := CopyDistances()[d] + Peek(s3, DistanceBits()[d])))
  }

  lemma DistanceBound(s: Stream, d: nat)
    requires d < 30
    ensures 1 <= CopyDistances()[d] + Peek(s, DistanceBits()[d]) <= WSIZE
  {
    P2Values();
    P2Add(8, 1);
    P2Add(8, 2);
    P2Add(8, 3);
    P2Add(8, 4);
    P2Add(8, 5);
  }

  // The header of a block (section 3.2.3).
  ghost function Header(st: State): (r: Step)
    requires Wf(st) && st.block.NoBlock?
    ensures r.Halt? || (r.Silent? && Wf(r.next) && r.next.hist == st.hist)
  {
    var last := Peek(st.s, 1) != 0;
    var s1 := Skip(st.s, 1);
    var kind := Peek(s1, 2);
    var st1 := st.(s := Skip(s1, 2), last := last);
    if kind == 0 then StoredHeader(st1)
    else if kind == 1 then
      FixedWf();
      Silent(st1.(block := Codes(FixedLL(), FixedDL())))
    else if kind == 2 then DynamicHeader(st1)
    else Halt(Bad)
  }

  lemma FixedWf()
    ensures WfCodes(FixedLL(), FixedDL())
  {
    assert FixedDL()[0] == 5;
  }

  // A length and its complement, at a byte boundary (section 3.2.4).
  function StoredHeader(st: State): (r: Step)
    requires Wf(st) && st.block.NoBlock?
    ensures r.Halt? || (r.Silent? && Wf(r.next) && r.next.hist == st.hist)
  {
    var s1 := Skip(st.s, st.s.phase);
    var len := Peek(s1, 16);
    var s2 := Skip(s1, 16);
    if len + Peek(s2, 16) != 0xffff then Halt(Bad)
    else Silent(st.(s := Skip(s2, 16), block := if len == 0 then NoBlock else Stored(len)))
  }

  // ---- dynamic codes (section 3.2.7) ----

  // A code that the program accepts: complete, or with codes of one bit only.
  predicate Usable(lens: seq<nat>) {
    !Oversubscribed(lens) && (Complete(lens) || Longest(lens) <= 1)
  }

  // The code length code lengths: three bits each, in a peculiar order, and zero where not given. The
  // first j of nb have been read.
  function CodeLengths(s: Stream, nb: nat, j: nat, lens: seq<nat>): (r: seq<nat>)
    requires j <= nb <= 19 && |lens| == 19
    ensures |r| == 19
    ensures (forall i :: 0 <= i < 19 ==> lens[i] < 8) ==> forall i :: 0 <= i < 19 ==> r[i] < 8
    decreases nb - j
  {
    if j == nb then lens
    else
      P2Values();
      CodeLengths(Skip(s, 3), nb, j + 1, lens[BitOrder()[j] := Peek(s, 3)])
  }

  // Symbol k has the three bits of its field, if that is one of the nb fields that are there.
  predicate FieldsAre(lens: seq<nat>, s: Stream, nb: nat)
    requires |lens| == 19
  {
    forall k :: 0 <= k < 19 ==> lens[k] == if FieldOf(k) < nb then Peek(Skip(s, 3 * FieldOf(k)), 3) else 0
  }

  lemma AllFieldsRead(s: Stream, nb: nat)
    requires nb <= 19
    ensures FieldsAre(CodeLengths(s, nb, 0, Repeat(0, 19)), s, nb)
  {
    hide CodeLengths, Peek, Skip, FieldOf;
    forall k | 0 <= k < 19
      ensures CodeLengths(s, nb, 0, Repeat(0, 19))[k]
           == if FieldOf(k) < nb then Peek(Skip(s, 3 * FieldOf(k)), 3) else 0
    {
      FieldsReadFrom(s, nb, 0, Repeat(0, 19), k);
    }
  }

  lemma {:induction false} FieldsReadFrom(s: Stream, nb: nat, j: nat, lens: seq<nat>, k: nat)
    requires j <= nb <= 19 && |lens| == 19 && k < 19
    ensures CodeLengths(s, nb, j, lens)[k]
         == var f := FieldOf(k); if j <= f < nb then Peek(Skip(s, 3 * (f - j)), 3) else lens[k]
    decreases nb - j
  {
    hide Peek, Skip, BitOrder, FieldSymbol, FieldOf;
    if j < nb {
      var f := FieldOf(k);
      OrderIs(j);
      FieldsAndSymbols(j);
      FieldsAndSymbols(k);
      FieldsReadFrom(Skip(s, 3), nb, j + 1, lens[BitOrder()[j] := Peek(s, 3)], k);
      if f == j {
        SkipNone(s, 3);
      } else if f > j {
        SkipSkip(s, 3, 3 * (f - j - 1));
      }
    }
  }

  lemma SkipNone(s: Stream, n: nat)
    ensures Peek(Skip(s, 0), n) == Peek(s, n)
  {
    assert P2(0) == 1;
  }

  lemma SkipSkip(s: Stream, a: nat, b: nat)
    ensures Skip(Skip(s, a), b) == Skip(s, a + b)
  {
    hide P2, High;
    TakeTake(s.rest, a, b);
  }

  // A symbol, and the length of its code.
  datatype Coded = Coded(symbol: nat, bits: nat)

  // The symbol that the table for code lengths cl gives for x. Where no code matches, which needs a
  // code of a single bit, the table repeats its last symbol.
  ghost function LengthSymbol(cl: seq<nat>, x: int): (r: Coded)
    requires cl != []
    ensures r.symbol < |cl| && r.bits <= Longest(cl)
  {
    match Symbol(cl, x)
    case Some(v) => Coded(v, cl[v])
    case None => Coded(LastSymbol(cl), Longest(cl))
  }

  function Repeat(v: nat, k: nat): (r: seq<nat>)
    ensures |r| == k && forall i :: 0 <= i < k ==> r[i] == v
  {
    seq(k, _ => v)
  }

  // What code length symbols below 16, or 16, 17 and 18 stand for, and where reading goes on.
  datatype Piece = Piece(lens: seq<nat>, s: Stream)

  function ReadPiece(v: nat, s: Stream, prev: nat): (r: Piece)
    requires v < 19
    ensures |r.lens| >= 1
  {
    if v < 16 then Piece([v], s)
    else if v == 16 then Piece(Repeat(prev, 3 + Peek(s, 2)), Skip(s, 2))
    else if v == 17 then Piece(Repeat(0, 3 + Peek(s, 3)), Skip(s, 3))
    else Piece(Repeat(0, 11 + Peek(s, 7)), Skip(s, 7))
  }

  predicate Small(lens: seq<nat>) {
    forall i :: 0 <= i < |lens| ==> lens[i] < 16
  }

  function LastOf(got: seq<nat>): nat {
    if got == [] then 0 else got[|got| - 1]
  }

  // The next code lengths after those in `got`.
  ghost function NextPiece(cl: seq<nat>, s: Stream, got: seq<nat>): (r: Piece)
    requires |cl| == 19
    ensures |r.lens| >= 1
    ensures Small(got) ==> Small(r.lens)
  {
    var c := LengthSymbol(cl, s.rest);
    ReadPiece(c.symbol, Skip(s, c.bits), LastOf(got))
  }

  // n code lengths in all, of which `got` have been read.
  ghost function ReadLengths(cl: seq<nat>, s: Stream, n: nat, got: seq<nat>): (r: Option<Piece>)
    requires |cl| == 19 && |got| <= n
    ensures r.Some? ==> |r.value.lens| == n && (Small(got) ==> Small(r.value.lens))
    decreases n - |got|
  {
    if |got| == n then Some(Piece(got, s))
    else
      var p := NextPiece(cl, s, got);
      if |got| + |p.lens| > n then None else ReadLengths(cl, p.s, n, got + p.lens)
  }

  // The numbers of lengths: 257 to 288 for literals and lengths, 1 to 32 for distances, and 4 to 19
  // for the code lengths themselves.
  datatype HeaderCounts = HeaderCounts(nl: nat, nd: nat, nb: nat)

  function ReadCounts(s: Stream): (r: HeaderCounts)
    ensures 257 <= r.nl && 1 <= r.nd && 4 <= r.nb <= 19
  {
    P2Values();
    HeaderCounts(257 + Peek(s, 5), 1 + Peek(Skip(s, 5), 5), 4 + Peek(Skip(Skip(s, 5), 5), 4))
  }

  ghost function DynamicHeader(st: State): (r: Step)
    requires Wf(st) && st.block.NoBlock?
    ensures r.Halt? || (r.Silent? && Wf(r.next) && r.next.hist == st.hist)
  {
    var c := ReadCounts(st.s);
    if c.nl > 286 || c.nd > 30 then Halt(Bad)
    else ReadDynamic(st, Skip(Skip(Skip(st.s, 5), 5), 4), c)
  }

  ghost function ReadDynamic(st: State, s: Stream, c: HeaderCounts): (r: Step)
    requires Wf(st) && st.block.NoBlock? && 257 <= c.nl <= 286 && 1 <= c.nd <= 30 && c.nb <= 19
    ensures r.Halt? || (r.Silent? && Wf(r.next) && r.next.hist == st.hist)
  {
    var cl := CodeLengths(s, c.nb, 0, Repeat(0, 19));
    if !Usable(cl) then Halt(Bad)
    else if Longest(cl) == 0 then Halt(Throw)
    else
      var read := ReadLengths(cl, SkipEach(s, c.nb), c.nl + c.nd, []);
      if read.None? then Halt(Bad) else DynamicCodes(st, read.value, c.nl)
  }

  function SkipEach(s: Stream, nb: nat): Stream
    decreases nb
  {
    if nb == 0 then s else SkipEach(Skip(s, 3), nb - 1)
  }

  function DynamicCodes(st: State, p: Piece, nl: nat): (r: Step)
    requires Wf(st) && st.block.NoBlock? && 257 <= nl <= 286 && 1 <= |p.lens| - nl <= 30 && Small(p.lens)
    ensures r.Halt? || (r.Silent? && Wf(r.next) && r.next.hist == st.hist)
  {
    var ll, dl := p.lens[..nl], p.lens[nl..];
    if !Usable(ll) || !Usable(dl) || (Longest(dl) == 0 && nl > 257) then Halt(Bad)
    else Silent(st.(s := p.s, block := Codes(ll, dl)))
  }

  // ---- many steps ----

  // What a silent step makes smaller: the bits that are not all alike or, if it leaves these as they
  // are, the place in the block.
  function Left(s: Stream): nat {
    Mag(s.rest)
  }

  function Rank(st: State): nat {
    match st.block
    case NoBlock => 0
    case Stored(_) => 1
    case Codes(_, _) => if st.len > 0 then 1 else 2
  }

  lemma {:induction false} HighShrinks(x: int, n: nat)
    ensures Mag(High(x, n)) <= Mag(x)
    ensures n > 0 && Mag(x) > 0 ==> Mag(High(x, n)) < Mag(x)
    decreases n
  {
    if n > 0 {
      Halve(x, n - 1);
      HighShrinks(x / 2, n - 1);
    } else {
      assert P2(0) == 1;
    }
  }

  lemma SkipShrinks(s: Stream, n: nat)
    ensures Left(Skip(s, n)) <= Left(s)
    ensures n > 0 && Left(s) > 0 ==> Left(Skip(s, n)) < Left(s)
  {
    HighShrinks(s.rest, n);
  }

  lemma {:induction false} SkipEachShrinks(s: Stream, nb: nat)
    ensures Left(SkipEach(s, nb)) <= Left(s)
    decreases nb
  {
    if nb > 0 {
      SkipShrinks(s, 3);
      SkipEachShrinks(Skip(s, 3), nb - 1);
    }
  }

  lemma NextPieceShrinks(cl: seq<nat>, s: Stream, got: seq<nat>)
    requires |cl| == 19
    ensures Left(NextPiece(cl, s, got).s) <= Left(s)
  {
    var c := LengthSymbol(cl, s.rest);
    var s1 := Skip(s, c.bits);
    SkipShrinks(s, c.bits);
    SkipShrinks(s1, 2);
    SkipShrinks(s1, 3);
    SkipShrinks(s1, 7);
  }

  lemma {:induction false} ReadLengthsShrinks(cl: seq<nat>, s: Stream, n: nat, got: seq<nat>)
    requires |cl| == 19 && |got| <= n
    ensures ReadLengths(cl, s, n, got).Some? ==> Left(ReadLengths(cl, s, n, got).value.s) <= Left(s)
    decreases n - |got|
  {
    if |got| < n {
      NextPieceShrinks(cl, s, got);
      var p := NextPiece(cl, s, got);
      if |got| + |p.lens| <= n {
        ReadLengthsShrinks(cl, p.s, n, got + p.lens);
      }
    }
  }

  lemma DynamicShrinks(st: State)
    requires Wf(st) && st.block.NoBlock?
    ensures DynamicHeader(st).Silent? ==> Left(DynamicHeader(st).next.s) <= Left(st.s)
  {
    var s1 := Skip(st.s, 5);
    var s2 := Skip(s1, 5);
    SkipShrinks(st.s, 5);
    SkipShrinks(s1, 5);
    SkipShrinks(s2, 4);
    var c := ReadCounts(st.s);
    if c.nl <= 286 && c.nd <= 30 {
      ReadDynamicShrinks(st, Skip(s2, 4), c);
    }
  }

  lemma ReadDynamicShrinks(st: State, s: Stream, c: HeaderCounts)
    requires Wf(st) && st.block.NoBlock? && 257 <= c.nl <= 286 && 1 <= c.nd <= 30 && c.nb <= 19
    ensures ReadDynamic(st, s, c).Silent? ==> Left(ReadDynamic(st, s, c).next.s) <= Left(s)
  {
    hide Wf, Usable, CodeLengths, SkipEach, ReadLengths, Left, Small;
    SkipEachShrinks(s, c.nb);
    ReadLengthsShrinks(CodeLengths(s, c.nb, 0, Repeat(0, 19)), SkipEach(s, c.nb), c.nl + c.nd, []);
  }

  lemma StoredShrinks(st: State)
    requires Wf(st) && st.block.NoBlock?
    ensures StoredHeader(st).Silent? ==> Left(StoredHeader(st).next.s) <= Left(st.s)
    ensures st.s.rest == 0 ==> StoredHeader(st).Halt?
  {
    var s1 := Skip(st.s, st.s.phase);
    SkipShrinks(st.s, st.s.phase);
    SkipShrinks(s1, 16);
    SkipShrinks(Skip(s1, 16), 16);
    if st.s.rest == 0 {
      Join(0, 0, st.s.phase);
      Join(0, 0, 16);
    }
  }

  lemma HeaderShrinks(st: State)
    requires Wf(st) && st.block.NoBlock? && Header(st).Silent?
    ensures Left(Header(st).next.s) < Left(st.s)
  {
    var s1 := Skip(st.s, 1);
    var s2 := Skip(s1, 2);
    SkipShrinks(st.s, 1);
    SkipShrinks(s1, 2);
    var st1 := st.(s := s2, last := Peek(st.s, 1) != 0);
    StoredShrinks(st1);
    DynamicShrinks(st1);
    if st.s.rest == 0 {
      Join(0, 0, 1);
      Join(0, 0, 2);
    } else if st.s.rest == -1 {
      LowOfMinusOne(1);
      LowOfMinusOne(2);
      P2Values();
    }
  }

  lemma CodeShrinks(st: State)
    requires Wf(st) && st.block.Codes? && st.len == 0
    ensures var r := NextCode(st, st.block.ll, st.block.dl);
            r.Silent? ==> Left(r.next.s) <= Left(st.s) && Rank(r.next) < Rank(st)
  {
    hide Skip, Peek, Left, Symbol, Matches, NoMatch, LengthBits, CopyLengths, DistanceBits, CopyDistances;
    var ll, dl := st.block.ll, st.block.dl;
    var v := Symbol(ll, st.s.rest);
    if v.Some? {
      var s1 := Skip(st.s, ll[v.value]);
      SkipShrinks(st.s, ll[v.value]);
      if v.value > 256 {
        var k := LengthBits()[v.value - 257];
        var s2 := Skip(s1, k);
        SkipShrinks(s1, k);
        if k != 99 {
          LengthEntry(v.value - 257);
        }
        var d := Symbol(dl, s2.rest);
        if d.Some? {
          SkipShrinks(s2, dl[d.value]);
          SkipShrinks(Skip(s2, dl[d.value]), DistanceBits()[d.value]);
        }
      }
    }
  }

  lemma SilentShrinks(st: State)
    requires Wf(st) && Next(st).Silent?
    ensures var st' := Next(st).next;
            Left(st'.s) < Left(st.s) || (Left(st'.s) == Left(st.s) && Rank(st') < Rank(st))
  {
    if st.block.NoBlock? {
      HeaderShrinks(st);
    } else {
      CodeShrinks(st);
    }
  }

  // The machine run until it has produced n bytes or halts, whichever comes first.
  ghost function Run(st: State, n: nat): (r: State)
    requires Wf(st)
    ensures Wf(r) && st.hist <= r.hist && |r.hist| <= |st.hist| + n
    decreases n, Left(st.s), Rank(st)
  {
    if n == 0 then st
    else
      match Next(st)
      case Emit(st') => Run(st', n - 1)
      case Silent(st') => SilentShrinks(st); Run(st', n)
      case Halt(_) => st
  }

  // How a run ends: with as many bytes as were asked for, or for a reason.
  datatype Verdict = Full | Because(why: Why)

  ghost function Ends(st: State, n: nat): (r: Verdict)
    requires Wf(st)
    decreases n, Left(st.s), Rank(st)
  {
    if n == 0 then Full
    else
      match Next(st)
      case Emit(st') => Ends(st', n - 1)
      case Silent(st') => SilentShrinks(st); Ends(st', n)
      case Halt(why) => Because(why)
  }
}
