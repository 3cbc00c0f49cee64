// Whole DEFLATE streams: writing stored blocks, blocks with fixed codes and blocks with codes of their
// own, in any order, and reading them back (RFC 1951, section 3.2.3).
module Blocks {
  import opened Bits
  import opened Canonical
  import opened Huffman
  import opened Deflate
  import opened Runs
  import opened BitStrings
  import opened Lz77
  import opened FixedCodes
  import opened Encoding
  import opened RunLengths

  // The codes of a dynamic block and how they are written: cl are the lengths of the codes for code
  // lengths, of which nb are given, and ops writes the others.
  datatype Codebook = Codebook(ll: seq<nat>, dl: seq<nat>, cl: seq<nat>, nb: nat, ops: seq<Op>)

  // A block of bytes, with any bits up to the next byte boundary, or of literals and copies.
  datatype Spec = Plain(bytes: seq<Byte>, pad: nat) | Fixed(ts: seq<Token>) | Dynamic(book: Codebook, ts: seq<Token>)

  // Lengths of 257 to 286 and of 1 to 30 codes, whatever codes they describe, and a way to write them.
  predicate Written(b: Codebook) {
    && 257 <= |b.ll| <= 286 && 1 <= |b.dl| <= 30 && Small(b.ll) && Small(b.dl)
    && |b.cl| == 19 && 4 <= b.nb <= 19 && WfLengthCode(b.cl, b.nb)
    && OpsCoded(b.cl, b.ops) && RunLengths.AllWf(b.ops) && OpsLengths([], b.ops) == b.ll + b.dl
  }

  // The codes can be used; and if no distance has a code, there are no more than 257 of the others.
  predicate Accepted(b: Codebook) {
    Usable(b.ll) && Usable(b.dl) && (Longest(b.dl) == 0 ==> |b.ll| == 257)
  }

  predicate WfBook(b: Codebook) {
    Written(b) && Accepted(b)
  }

  predicate WfLengthCode(cl: seq<nat>, nb: nat)
    requires |cl| == 19 && 4 <= nb <= 19
  {
    && Usable(cl) && Longest(cl) > 0
    && (forall i :: 0 <= i < 19 ==> cl[i] < 8)
    && (forall i :: nb <= i < 19 ==> cl[FieldSymbol(i)] == 0)
  }

  predicate WfBlock(b: Spec) {
    match b
    case Plain(bytes, _) => |bytes| < 0x1_0000
    case Fixed(ts) => TokensCoded(FixedLL(), FixedDL(), ts)
    case Dynamic(book, ts) => WfBook(book) && TokensCoded(book.ll, book.dl, ts)
  }

  predicate AllWf(bs: seq<Spec>) {
    forall i :: 0 <= i < |bs| ==> WfBlock(bs[i])
  }

  // ---- writing ----

  function BytesBits(bytes: seq<Byte>): BitString {
    if bytes == [] then BitString(0, 0) else Cat(BitString(bytes[0], 8), BytesBits(bytes[1..]))
  }

  function PlainBits(phase: nat, bytes: seq<Byte>, pad: nat): BitString
    requires |bytes| < 0x1_0000
  {
    Cat(BitString(Low(pad, phase), phase),
        Cat(BitString(|bytes|, 16), Cat(BitString(0xffff - |bytes|, 16), BytesBits(bytes))))
  }

  // The lengths of the codes for code lengths, from the j-th on.
  function LengthCodeBits(cl: seq<nat>, nb: nat, j: nat): BitString
    requires |cl| == 19 && j <= nb <= 19
    decreases nb - j
  {
    if j == nb then BitString(0, 0) else Cat(BitString(cl[FieldSymbol(j)], 3), LengthCodeBits(cl, nb, j + 1))
  }

  function BookBits(b: Codebook): BitString
    requires Written(b)
  {
    Cat(BitString(|b.ll| - 257, 5),
        Cat(BitString(|b.dl| - 1, 5),
            Cat(BitString(b.nb - 4, 4), Cat(LengthCodeBits(b.cl, b.nb, 0), OpsBits(b.cl, b.ops)))))
  }

  // What follows the kind of a block, where `phase` bits are left up to the next byte boundary.
  function BodyBits(phase: nat, b: Spec): BitString
    requires WfBlock(b)
  {
    match b
    case Plain(bytes, pad) => PlainBits(phase, bytes, pad)
    case Fixed(ts) => TokensBits(FixedLL(), FixedDL(), ts)
    case Dynamic(book, ts) => Cat(BookBits(book), TokensBits(book.ll, book.dl, ts))
  }

  function Kind(b: Spec): nat {
    match b
    case Plain(_, _) => 0
    case Fixed(_) => 1
    case Dynamic(_, _) => 2
  }

  function BlockBits(phase: nat, last: bool, b: Spec): BitString
    requires WfBlock(b)
  {
    Cat(BitString(if last then 1 else 0, 1), Cat(BitString(Kind(b), 2), BodyBits((phase - 3) % 8, b)))
  }

  // One block after another; the last one is marked.
  function BlocksBits(phase: nat, bs: seq<Spec>): BitString
    requires bs != [] && AllWf(bs)
    decreases |bs|
  {
    var a := BlockBits(phase, |bs| == 1, bs[0]);
    if |bs| == 1 then a else Cat(a, BlocksBits((phase - a.n) % 8, bs[1..]))
  }

  // ---- what the blocks stand for ----

  predicate BlockInReach(n: nat, b: Spec) {
    b.Plain? || InReach(n, b.ts)
  }

  function ExpandBlock(hist: seq<Byte>, b: Spec): (r: seq<Byte>)
    requires BlockInReach(|hist|, b)
    ensures hist <= r
  {
    if b.Plain? then hist + b.bytes else Expand(hist, b.ts)
  }

  predicate BlocksInReach(hist: seq<Byte>, bs: seq<Spec>)
    decreases |bs|
  {
    bs == [] || (BlockInReach(|hist|, bs[0]) && BlocksInReach(ExpandBlock(hist, bs[0]), bs[1..]))
  }

  function ExpandBlocks(hist: seq<Byte>, bs: seq<Spec>): (r: seq<Byte>)
    requires BlocksInReach(hist, bs)
    ensures hist <= r
    decreases |bs|
  {
    if bs == [] then hist else ExpandBlocks(ExpandBlock(hist, bs[0]), bs[1..])
  }

  // ---- reading a stored block ----

  lemma {:induction false} BytesReach(st: State, bytes: seq<Byte>, m: nat)
    requires Wf(st) && st.block == Stored(|bytes|) && Begins(st.s, BytesBits(bytes)) && m >= |bytes|
    ensures Reaches(st, m, st.(s := Skip(st.s, BytesBits(bytes).n), hist := st.hist + bytes, block := NoBlock),
                    m - |bytes|)
    decreases |bytes|
  {
    hide Reaches, Next, Skip, Peek, Begins, Cat;
    P2Values();
    var a, rest := BitString(bytes[0], 8), BytesBits(bytes[1..]);
    ByteBegins(st.s, bytes[0], rest);
    SkipCat(st.s, a, rest);
    StoredNext(st);
    EmitReaches(st, m);
    var c := Next(st).next;
    assert c.hist == st.hist + [bytes[0]];
    var end := st.(s := Skip(st.s, BytesBits(bytes).n), hist := st.hist + bytes, block := NoBlock);
    if |bytes| > 1 {
      BytesReach(c, bytes[1..], m - 1);
      assert st.hist + [bytes[0]] + bytes[1..] == st.hist + bytes;
      ReachesTrans(st, m, c, m - 1, end, m - |bytes|);
    } else {
      assert bytes == [bytes[0]];
      SkipSkip(st.s, 8, 0);
    }
  }

  lemma ByteBegins(s: Stream, b: Byte, rest: BitString)
    requires Begins(s, Cat(BitString(b, 8), rest))
    ensures Peek(s, 8) == b && Begins(Skip(s, 8), rest)
  {
    P2Values();
    CatBegins(s, BitString(b, 8), rest);
  }

  // A number of n bits.
  lemma NumberBegins(s: Stream, v: nat, n: nat, rest: BitString)
    requires v < P2(n) && Begins(s, Cat(BitString(v, n), rest))
    ensures Peek(s, n) == v && Begins(Skip(s, n), rest)
    ensures Skip(Skip(s, n), rest.n) == Skip(s, Cat(BitString(v, n), rest).n)
  {
    CatBegins(s, BitString(v, n), rest);
    SkipCat(s, BitString(v, n), rest);
  }

  lemma PlainReaches(st: State, bytes: seq<Byte>, pad: nat, m: nat)
    requires Wf(st) && st.block.NoBlock? && |bytes| < 0x1_0000 && m > |bytes|
    requires Begins(st.s, PlainBits(st.s.phase, bytes, pad))
    ensures var r := StoredHeader(st);
            && r.Silent?
            && Reaches(r.next, m, st.(s := Skip(st.s, PlainBits(st.s.phase, bytes, pad).n), hist := st.hist + bytes),
                       m - |bytes|)
  {
    hide Reaches, Skip, Peek, Begins, Cat;
    P2Values();
    var s, p := st.s, st.s.phase;
    var c := BytesBits(bytes);
    var b := Cat(BitString(0xffff - |bytes|, 16), c);
    var a := Cat(BitString(|bytes|, 16), b);
    LowBelow(pad, p);
    NumberBegins(s, Low(pad, p), p, a);
    NumberBegins(Skip(s, p), |bytes|, 16, b);
    NumberBegins(Skip(Skip(s, p), 16), 0xffff - |bytes|, 16, c);
    var st1 := StoredHeader(st).next;
    if bytes == [] {
      ReachesSelf(st1, m);
      SkipSkip(Skip(Skip(s, p), 16), 16, 0);
      assert st.hist + bytes == st.hist;
    } else {
      BytesReach(st1, bytes, m);
    }
  }

  lemma LowBelow(x: nat, n: nat)
    ensures Low(x, n) < P2(n)
  {
  }

  // ---- reading the codes of a dynamic block ----

  // Code lengths that agree with cl as far as the first j in the order of the format, and are zero
  // beyond.
  predicate ReadSoFar(cl: seq<nat>, lens: seq<nat>, j: nat)
    requires |cl| == |lens| == 19
  {
    forall i :: 0 <= i < 19 ==> lens[FieldSymbol(i)] == if i < j then cl[FieldSymbol(i)] else 0
  }

  lemma ReadAll(cl: seq<nat>, lens: seq<nat>)
    requires |cl| == |lens| == 19 && ReadSoFar(cl, lens, 19)
    ensures lens == cl
  {
    hide FieldSymbol, FieldOf;
    forall k: nat | k < 19
      ensures lens[k] == cl[k]
    {
      FieldsAndSymbols(k);
      assert FieldSymbol(FieldOf(k)) == k;
    }
  }

  lemma ReadOne(cl: seq<nat>, lens: seq<nat>, j: nat)
    requires |cl| == |lens| == 19 && j < 19 && ReadSoFar(cl, lens, j)
    ensures ReadSoFar(cl, lens[BitOrder()[j] := cl[FieldSymbol(j)]], j + 1)
  {
    hide BitOrder, FieldSymbol, FieldOf;
    OrderIs(j);
    FieldsAndSymbols(j);
    forall i: nat | i < 19 && i != j
      ensures FieldSymbol(i) != FieldSymbol(j)
    {
      FieldsAndSymbols(i);
    }
  }

  lemma {:induction false} LengthCodeRead(cl: seq<nat>, nb: nat, j: nat, lens: seq<nat>, s: Stream)
    requires |cl| == 19 && 4 <= nb <= 19 && WfLengthCode(cl, nb) && j <= nb && s.phase < 8
    requires |lens| == 19 && ReadSoFar(cl, lens, j)
    requires Begins(s, LengthCodeBits(cl, nb, j))
    ensures CodeLengths(s, nb, j, lens) == cl
    ensures SkipEach(s, nb - j) == Skip(s, LengthCodeBits(cl, nb, j).n)
    decreases nb - j
  {
    hide Skip, Peek, Begins, Cat, BitOrder, FieldSymbol, Usable, ReadSoFar;
    if j == nb {
      AllGiven(cl, nb, lens);
      SkipNothing(s);
    } else {
      P2Values();
      NumberBegins(s, cl[FieldSymbol(j)], 3, LengthCodeBits(cl, nb, j + 1));
      ReadOne(cl, lens, j);
      PhaseAfter(s, 3);
      LengthCodeRead(cl, nb, j + 1, lens[BitOrder()[j] := cl[FieldSymbol(j)]], Skip(s, 3));
    }
  }

  lemma AllGiven(cl: seq<nat>, nb: nat, lens: seq<nat>)
    requires |cl| == 19 && 4 <= nb <= 19 && WfLengthCode(cl, nb) && |lens| == 19 && ReadSoFar(cl, lens, nb)
    ensures lens == cl
  {
    hide Usable, FieldSymbol;
    assert ReadSoFar(cl, lens, 19);
    ReadAll(cl, lens);
  }

  lemma {:induction false} LengthCodeBitsWf(cl: seq<nat>, nb: nat, j: nat)
    requires |cl| == 19 && 4 <= nb <= 19 && WfLengthCode(cl, nb) && j <= nb
    ensures WfBits(LengthCodeBits(cl, nb, j))
    decreases nb - j
  {
    hide Cat, FieldSymbol, Usable;
    if j == nb {
      assert P2(0) == 1;
    } else {
      P2Values();
      LengthCodeBitsWf(cl, nb, j + 1);
      CatWf(BitString(cl[FieldSymbol(j)], 3), LengthCodeBits(cl, nb, j + 1));
    }
  }

  lemma LengthCodeIsCode(cl: seq<nat>, nb: nat)
    requires |cl| == 19 && 4 <= nb <= 19 && WfLengthCode(cl, nb)
    ensures IsCode(cl)
  {
  }

  // The machine reads the codes as they were written, and goes on with them if and only if it accepts them.
  lemma BookRead(st: State, b: Codebook)
    requires Wf(st) && st.block.NoBlock? && Written(b) && Begins(st.s, BookBits(b))
    ensures DynamicHeader(st)
         == if Accepted(b) then Silent(st.(s := Skip(st.s, BookBits(b).n), block := Codes(b.ll, b.dl))) else Halt(Bad)
  {
    hide Skip, Peek, Begins, Cat, Usable, WfLengthCode, OpsCoded, OpsBits, OpsLengths, LengthCodeBits, ReadDynamic, Wf,
         Longest, Small;
    P2Values();
    var s := st.s;
    var d := Cat(LengthCodeBits(b.cl, b.nb, 0), OpsBits(b.cl, b.ops));
    var c := Cat(BitString(b.nb - 4, 4), d);
    var a := Cat(BitString(|b.dl| - 1, 5), c);
    NumberBegins(s, |b.ll| - 257, 5, a);
    NumberBegins(Skip(s, 5), |b.dl| - 1, 5, c);
    NumberBegins(Skip(Skip(s, 5), 5), b.nb - 4, 4, d);
    var t := Skip(Skip(Skip(s, 5), 5), 4);
    PhaseAfter(Skip(Skip(s, 5), 5), 4);
    BookBodyRead(st, b, t);
  }

  lemma BookBodyRead(st: State, b: Codebook, t: Stream)
    requires Wf(st) && st.block.NoBlock? && Written(b) && t.phase < 8
    requires Begins(t, Cat(LengthCodeBits(b.cl, b.nb, 0), OpsBits(b.cl, b.ops)))
    ensures ReadDynamic(st, t, HeaderCounts(|b.ll|, |b.dl|, b.nb))
         == if Accepted(b) then
              Silent(st.(s := Skip(t, Cat(LengthCodeBits(b.cl, b.nb, 0), OpsBits(b.cl, b.ops)).n),
                         block := Codes(b.ll, b.dl)))
            else Halt(Bad)
  {
    hide Skip, Peek, Begins, Cat, Usable, OpsCoded, OpsBits, OpsLengths, LengthCodeBits, Wf, CodeLengths, ReadLengths,
         Longest, Small, SkipEach, BitOrder, FieldSymbol, IsCode;
    var x, y := LengthCodeBits(b.cl, b.nb, 0), OpsBits(b.cl, b.ops);
    LengthCodeBitsWf(b.cl, b.nb, 0);
    CatBegins(t, x, y);
    SkipCat(t, x, y);
    LengthCodeRead(b.cl, b.nb, 0, Repeat(0, 19), t);
    LengthCodeIsCode(b.cl, b.nb);
    PhaseAfter(t, x.n);
    LengthsRoundTrip(b.cl, b.ops, Skip(t, x.n), []);
    var all := b.ll + b.dl;
    assert all[..|b.ll|] == b.ll && all[|b.ll|..] == b.dl;
  }

  lemma BookBitsWf(b: Codebook)
    requires Written(b)
    ensures WfBits(BookBits(b))
  {
    hide Cat, Usable, OpsCoded, OpsBits, OpsLengths, LengthCodeBits, Small, IsCode, WfLengthCode;
    P2Values();
    var e := LengthCodeBits(b.cl, b.nb, 0);
    LengthCodeBitsWf(b.cl, b.nb, 0);
    LengthCodeIsCode(b.cl, b.nb);
    OpsBitsWf(b.cl, b.ops);
    var d := Cat(e, OpsBits(b.cl, b.ops));
    CatWf(e, OpsBits(b.cl, b.ops));
    var c := Cat(BitString(b.nb - 4, 4), d);
    CatWf(BitString(b.nb - 4, 4), d);
    var a := Cat(BitString(|b.dl| - 1, 5), c);
    CatWf(BitString(|b.dl| - 1, 5), c);
    CatWf(BitString(|b.ll| - 257, 5), a);
  }

  // ---- reading a block ----

  lemma BytesBitsWf(bytes: seq<Byte>)
    ensures WfBits(BytesBits(bytes))
  {
    hide Cat;
    P2Values();
    if bytes == [] {
      assert P2(0) == 1;
    } else {
      BytesBitsWf(bytes[1..]);
      CatWf(BitString(bytes[0], 8), BytesBits(bytes[1..]));
    }
  }

  lemma PlainBitsWf(phase: nat, bytes: seq<Byte>, pad: nat)
    requires |bytes| < 0x1_0000
    ensures WfBits(PlainBits(phase, bytes, pad))
  {
    hide Cat;
    P2Values();
    var c := BytesBits(bytes);
    BytesBitsWf(bytes);
    var b := Cat(BitString(0xffff - |bytes|, 16), c);
    CatWf(BitString(0xffff - |bytes|, 16), c);
    var a := Cat(BitString(|bytes|, 16), b);
    CatWf(BitString(|bytes|, 16), b);
    LowBelow(pad, phase);
    CatWf(BitString(Low(pad, phase), phase), a);
  }

  lemma BodyBitsWf(phase: nat, b: Spec)
    requires WfBlock(b)
    ensures WfBits(BodyBits(phase, b))
  {
    hide Cat, TokensBits, BookBits, WfBook, Written, Accepted, TokensCoded, PlainBits, IsCode, FixedLL, FixedDL;
    match b {
      case Plain(bytes, pad) => PlainBitsWf(phase, bytes, pad);
      case Fixed(ts) =>
        FixedAreCodes();
        TokensBitsWf(FixedLL(), FixedDL(), ts);
      case Dynamic(book, ts) =>
        BookAreCodes(book);
        BookIs(book);
        BookBitsWf(book);
        TokensBitsWf(book.ll, book.dl, ts);
        CatWf(BookBits(book), TokensBits(book.ll, book.dl, ts));
    }
  }

  lemma FixedAreCodes()
    ensures IsCode(FixedLL()) && IsCode(FixedDL())
  {
    hide FixedLL, FixedDL;
    FixedKraft();
  }

  lemma BookIs(b: Codebook)
    requires WfBook(b)
    ensures Written(b) && Accepted(b)
  {
  }

  lemma BookAreCodes(b: Codebook)
    requires WfBook(b)
    ensures IsCode(b.ll) && IsCode(b.dl) && WfCodes(b.ll, b.dl)
  {
    hide WfLengthCode, OpsCoded, OpsLengths;
  }

  lemma BlockBitsWf(phase: nat, last: bool, b: Spec)
    requires WfBlock(b)
    ensures WfBits(BlockBits(phase, last, b))
  {
    hide Cat, BodyBits, WfBlock;
    P2Values();
    var body := BodyBits((phase - 3) % 8, b);
    BodyBitsWf((phase - 3) % 8, b);
    var a := Cat(BitString(Kind(b), 2), body);
    CatWf(BitString(Kind(b), 2), body);
    CatWf(BitString(if last then 1 else 0, 1), a);
  }

  // From the start of a block, what its three header bits say.
  lemma HeaderRead(st: State, last: bool, b: Spec)
    requires Wf(st) && st.block.NoBlock? && !st.last && WfBlock(b) && Begins(st.s, BlockBits(st.s.phase, last, b))
    ensures var st1 := st.(s := Skip(st.s, 3), last := last);
            && Wf(st1) && st1.s.phase == (st.s.phase - 3) % 8
            && Begins(st1.s, BodyBits(st1.s.phase, b))
            && Skip(st1.s, BodyBits(st1.s.phase, b).n) == Skip(st.s, BlockBits(st.s.phase, last, b).n)
            && Next(st) == match Kind(b)
                           case 0 => StoredHeader(st1)
                           case 1 => Silent(st1.(block := Codes(FixedLL(), FixedDL())))
                           case _ => DynamicHeader(st1)
  {
    hide Cat, Next, BodyBits, WfBlock, StoredHeader, DynamicHeader, FixedLL, FixedDL, Begins, Peek;
    P2Values();
    var s, body := st.s, BodyBits((st.s.phase - 3) % 8, b);
    var a := Cat(BitString(Kind(b), 2), body);
    NumberBegins(s, if last then 1 else 0, 1, a);
    NumberBegins(Skip(s, 1), Kind(b), 2, body);
    SkipSkip(s, 1, 2);
    HeaderNext(st);
  }

  // Reading a block puts out what it stands for.
  lemma BlockReaches(st: State, last: bool, b: Spec, m: nat)
    requires Wf(st) && st.block.NoBlock? && !st.last && WfBlock(b) && BlockInReach(|st.hist|, b)
    requires Begins(st.s, BlockBits(st.s.phase, last, b))
    requires m > |ExpandBlock(st.hist, b)| - |st.hist|
    ensures var st' := st.(s := Skip(st.s, BlockBits(st.s.phase, last, b).n), hist := ExpandBlock(st.hist, b),
                           last := last);
            Reaches(st, m, st', m - (|st'.hist| - |st.hist|))
  {
    hide Reaches, Cat, Next, StoredHeader, DynamicHeader, FixedLL, FixedDL, Begins, Peek, Skip, TokensBits, BookBits,
         WfBook, Written, Accepted, TokensCoded, PlainBits, IsCode, BlockBits, WfCodes, InReach, Expand;
    HeaderRead(st, last, b);
    var st1 := st.(s := Skip(st.s, 3), last := last);
    var st' := st.(s := Skip(st.s, BlockBits(st.s.phase, last, b).n), hist := ExpandBlock(st.hist, b), last := last);
    var k := m - (|st'.hist| - |st.hist|);
    match b {
      case Plain(bytes, pad) =>
        PlainReaches(st1, bytes, pad, m);
      case Fixed(ts) =>
        FixedAreCodes();
        FixedWf();
        TokensReach(st1.(block := Codes(FixedLL(), FixedDL())), FixedLL(), FixedDL(), ts, m);
      case Dynamic(book, ts) =>
        BookIs(book);
        BookBitsWf(book);
        BookAreCodes(book);
        CatBegins(st1.s, BookBits(book), TokensBits(book.ll, book.dl, ts));
        SkipCat(st1.s, BookBits(book), TokensBits(book.ll, book.dl, ts));
        BookRead(st1, book);
        TokensReach(DynamicHeader(st1).next, book.ll, book.dl, ts, m);
    }
    SilentReaches(st, m);
    ReachesTrans(st, m, Next(st).next, m, st', k);
  }

  // ---- whole streams ----

  lemma {:induction false} BlocksReach(st: State, bs: seq<Spec>, m: nat)
    requires Wf(st) && st.block.NoBlock? && !st.last && bs != [] && AllWf(bs) && BlocksInReach(st.hist, bs)
    requires Begins(st.s, BlocksBits(st.s.phase, bs))
    requires m > |ExpandBlocks(st.hist, bs)| - |st.hist|
    ensures var st' := st.(s := Skip(st.s, BlocksBits(st.s.phase, bs).n), hist := ExpandBlocks(st.hist, bs),
                           last := true);
            Reaches(st, m, st', m - (|st'.hist| - |st.hist|))
    decreases |bs|
  {
    hide Reaches, Begins, Peek, BlockBits, BlockInReach, ExpandBlock, WfBlock, Cat, High;
    var p, last := st.s.phase, |bs| == 1;
    var a := BlockBits(p, last, bs[0]);
    var c := st.(s := Skip(st.s, a.n), hist := ExpandBlock(st.hist, bs[0]), last := last);
    var k := m - (|c.hist| - |st.hist|);
    if last {
      assert bs[1..] == [];
      BlockReaches(st, last, bs[0], m);
    } else {
      var rest := BlocksBits((p - a.n) % 8, bs[1..]);
      BlockBitsWf(p, last, bs[0]);
      CatBegins(st.s, a, rest);
      SkipCat(st.s, a, rest);
      BlockReaches(st, last, bs[0], m);
      BlocksReach(c, bs[1..], k);
      var st' := st.(s := Skip(st.s, BlocksBits(p, bs).n), hist := ExpandBlocks(st.hist, bs), last := true);
      ReachesTrans(st, m, c, k, st', m - (|st'.hist| - |st.hist|));
    }
  }

  // Blocks that reach back no further than to their own start stand for the same bytes whatever comes
  // before them.
  lemma {:induction false} BlocksAfter(w: seq<Byte>, out: seq<Byte>, bs: seq<Spec>)
    requires BlocksInReach(out, bs)
    ensures BlocksInReach(w + out, bs)
    ensures ExpandBlocks(w + out, bs) == w + ExpandBlocks(out, bs)
    decreases |bs|
  {
    hide InReach, Expand;
    if bs != [] {
      var b := bs[0];
      if b.Plain? {
        assert w + out + b.bytes == w + (out + b.bytes);
      } else {
        ExpandAfter(w, out, b.ts);
      }
      BlocksAfter(w, ExpandBlock(out, b), bs[1..]);
    }
  }

  // Writing any blocks as a stream and running the machine on it puts out exactly the bytes that the
  // blocks stand for, and then ends.
  lemma DeflateRoundTrip(st: State, bs: seq<Spec>, m: nat)
    requires Wf(st) && st.block.NoBlock? && !st.last
    requires bs != [] && AllWf(bs) && BlocksInReach([], bs) && Begins(st.s, BlocksBits(st.s.phase, bs))
    requires m > |ExpandBlocks([], bs)|
    ensures Run(st, m).hist == st.hist + ExpandBlocks([], bs)
    ensures Ends(st, m) == Because(End)
  {
    hide Reaches, Run, Ends, BlocksBits, BlocksInReach, ExpandBlocks, Begins;
    BlocksAfter(st.hist, [], bs);
    assert st.hist + [] == st.hist;
    BlocksReach(st, bs, m);
    var st' := st.(s := Skip(st.s, BlocksBits(st.s.phase, bs).n), hist := ExpandBlocks(st.hist, bs), last := true);
    AtEnd(st, m, st', m - (|st'.hist| - |st.hist|));
  }

  // Any literals and any copies in reach can be written as one block with fixed codes.
  lemma FixedBlockRoundTrip(st: State, ts: seq<Token>, m: nat)
    requires Wf(st) && st.block.NoBlock? && !st.last && InReach(0, ts)
    ensures TokensCoded(FixedLL(), FixedDL(), ts)
    ensures Begins(st.s, BlocksBits(st.s.phase, [Fixed(ts)])) && m > |Expand([], ts)| ==>
              Run(st, m).hist == st.hist + Expand([], ts) && Ends(st, m) == Because(End)
  {
    hide Run, Ends, InReach, Expand, Begins, FixedLL, FixedDL, BlockBits;
    FixedCovers(0, ts);
    var bs := [Fixed(ts)];
    assert bs[1..] == [] && BlocksInReach(ExpandBlock([], Fixed(ts)), []);
    if Begins(st.s, BlocksBits(st.s.phase, bs)) && m > |Expand([], ts)| {
      DeflateRoundTrip(st, bs, m);
    }
  }

  lemma {:induction false} FixedCovers(n: nat, ts: seq<Token>)
    requires InReach(n, ts)
    ensures TokensCoded(FixedLL(), FixedDL(), ts)
    decreases |ts|
  {
    if ts != [] {
      FixedCovers(n + Size(ts[0]), ts[1..]);
      FixedCodesToken(ts[0]);
      assert forall i :: 0 < i < |ts| ==> ts[i] == ts[1..][i - 1];
    }
  }

  lemma FixedCodesToken(t: Token)
    requires WfToken(t)
    ensures TokenCoded(FixedLL(), FixedDL(), t)
  {
    hide LengthIndex, DistanceIndex;
  }
}
