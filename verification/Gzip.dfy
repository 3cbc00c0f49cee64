// Loading a gzip file: GZip.load, once all of the file is there, and files that were written as RFC 1952
// and RFC 1951 say.
module Gzip {
  import opened Bits
  import opened JsBits
  import opened Canonical
  import opened Deflate
  import opened Runs
  import opened BitReader
  import opened BitStrings
  import opened Blocks
  import opened GzipFile
  import opened Chunks
  import Gunzip
  import Crc32

  // GZip.parseFooter: what is wrong with `size` bytes of output with CRC `crc`.
  function FooterProblem(s: seq<Byte>, size: nat, crc: bv32): Option<Problem> {
    if crc != 0 && ToInt32(Crc32.Number(crc)) != Int32(s, |s| - 8) then Some(DataCrc)
    else if Int32(s, |s| - 4) != size % 0xffffffff then Some(DataLength)
    else None
  }

  // Where inflating starts: at the end at most, for past it there are only ones.
  function From(s: seq<Byte>, h: Header): (at: nat)
    ensures at <= |s|
  {
    if h.offset < |s| then h.offset else |s|
  }

  ghost function Begin(s: seq<Byte>, h: Header, window: seq<Byte>): (st: State)
    requires |window| == WSIZE
    ensures Wf(st)
  {
    State(Stream(Rest(s, From(s, h)), 0), window, NoBlock, false, 0, 0)
  }

  // Whatever is in the window, the machine halts on the stream.
  ghost predicate Halting(s: seq<Byte>, h: Header, total: nat) {
    forall w: seq<Byte> {:trigger Begin(s, h, w)} :: |w| == WSIZE ==> Ends(Begin(s, h, w), total) != Full
  }

  // What comes out of the stream with the given window.
  ghost function Inflated(s: seq<Byte>, h: Header, total: nat, w: seq<Byte>): seq<Byte>
    requires |w| == WSIZE
  {
    Run(Begin(s, h, w), total).hist[WSIZE..]
  }

  // What loading the file may give: the strings of the output, joined, and an error.
  ghost predicate Loaded(s: seq<Byte>, h: Header, total: nat, w: seq<Byte>, out: seq<Byte>, problem: Option<Problem>)
    requires |w| == WSIZE
  {
    var all := Inflated(s, h, total, w);
    match Ends(Begin(s, h, w), total)
    case Because(End) => out == all && problem == FooterProblem(s, |out|, Crc32.Crc(out, 0))
    case Because(Bad) =>
      out <= all && |all| < |out| + Gunzip.BUFSZ && problem == FooterProblem(s, |out|, Crc32.Crc(out, 0))
    case Because(Throw) => out <= all && |all| < |out| + Gunzip.BUFSZ && problem == Some(Inflating)
    case Full => false
  }

  method Load(s: seq<Byte>, ghost total: nat)
    returns (h: Result<Header>, out: seq<seq<Byte>>, problem: Option<Problem>, ghost w: seq<Byte>)
    requires HeaderOf(s).Ok? ==> Halting(s, HeaderOf(s).value, total)
    ensures h == HeaderOf(s) && |w| == WSIZE
    ensures if h.Err? then problem == Some(h.problem) && out == []
            else Loaded(s, h.value, total, w, Flat(out), problem)
  {
    hide Run, Ends, Rest, HeaderOf, Crc32.Crc, Wf, Int32, FooterProblem, Flat, Deflate.Next;
    w := seq(WSIZE, _ => 0);
    h := ParseHeader(s);
    if h.Err? {
      return h, [], Some(h.problem), w;
    }
    var m := new Gunzip.Member(s, From(s, h.value));
    w := m.from.hist;
    assert m.from == Begin(s, h.value, w);
    assert m.Sound(total);
    var thrown := m.ContinueInflate(|s|, true, total);
    problem := if thrown then Some(Inflating) else FooterProblem(s, m.outputSize, m.computedCRC32);
    out := m.data;
    if Ends(m.from, total) == Because(End) {
      m.SoundHolds(total);
    }
  }

  // ---- files as they should be ----

  // Bits in bytes, the last one filled up with zeros.
  function Pack(b: BitString): seq<Byte> {
    Bytes(b.v, (b.n + 7) / 8)
  }

  function Trailer(out: seq<Byte>): (r: seq<Byte>)
    ensures |r| == 8
  {
    Bytes(Crc32.Number(Crc32.Crc(out, 0)), 4) + Bytes(|out| % 0x1_0000_0000, 4)
  }

  // A file with header fields f and blocks bs.
  function File(f: Fields, bs: seq<Spec>): seq<Byte>
    requires bs != [] && Blocks.AllWf(bs) && BlocksInReach([], bs)
  {
    HeaderBytes(f) + (Pack(BlocksBits(0, bs)) + Trailer(ExpandBlocks([], bs)))
  }

  lemma {:induction false} PackedRead(data: seq<Byte>, pos: nat, v: nat, k: nat)
    requires At(data, pos, Bytes(v, k)) && v < P2(8 * k)
    ensures Low(Rest(data, pos), 8 * k) == v
    decreases k
  {
    if k > 0 {
      P2Values();
      P2Add(8, 8 * (k - 1));
      var p := Bytes(v, k);
      AtCat(data, pos, [p[0]], Bytes(v / 256, k - 1));
      AtByte(data, pos, p, 0);
      HighBound(v, 8, 8 * (k - 1));
      PackedRead(data, pos + 1, v / 256, k - 1);
      var x := Rest(data, pos);
      JoinAs(x, Rest(data, pos + 1), data[pos], 8);
      TakeTake(x, 8, 8 * (k - 1));
    }
  }

  lemma StreamBegins(data: seq<Byte>, pos: nat, b: BitString)
    requires WfBits(b) && At(data, pos, Pack(b))
    ensures Begins(Stream(Rest(data, pos), 0), b)
  {
    var k := (b.n + 7) / 8;
    P2Mono(b.n, 8 * k);
    PackedRead(data, pos, b.v, k);
    LowLow(Rest(data, pos), 8 * k, b.n);
    LowSmall(b.v, b.n);
  }

  lemma {:induction false} BlocksBitsWf(phase: nat, bs: seq<Spec>)
    requires bs != [] && Blocks.AllWf(bs)
    ensures WfBits(BlocksBits(phase, bs))
    decreases |bs|
  {
    hide Cat, BlockBits, WfBlock;
    BlockBitsWf(phase, |bs| == 1, bs[0]);
    if |bs| > 1 {
      var a := BlockBits(phase, false, bs[0]);
      BlocksBitsWf((phase - a.n) % 8, bs[1..]);
      CatWf(a, BlocksBits((phase - a.n) % 8, bs[1..]));
    }
  }

  // The check of the length takes the true length modulo 2^32 - 1 and reads the length in the file, which
  // is modulo 2^32, as a signed number.
  predicate SizeOk(n: nat) {
    n % 0x1_0000_0000 < 0x8000_0000 && (n / 0x1_0000_0000) % 0xffffffff == 0
  }

  lemma SizeChecked(n: nat)
    ensures ToInt32(n % 0x1_0000_0000) == n % 0xffffffff <==> SizeOk(n)
  {
    var q, r := n / 0x1_0000_0000, n % 0x1_0000_0000;
    assert n == q * 0xffffffff + (q + r);
    var a, c := q / 0xffffffff, q % 0xffffffff;
    if r < 0x8000_0000 {
      assert n == (q + a) * 0xffffffff + (c + r);
      if c + r < 0xffffffff {
        DivModUnique(n, 0xffffffff, q + a, c + r);
      } else {
        DivModUnique(n, 0xffffffff, q + a + 1, c + r - 0xffffffff);
      }
    }
  }

  // As far as lengths are exact in JavaScript, it accepts lengths below 2^31 only.
  lemma SizeLimit(n: nat)
    requires n < 0x20_0000_0000_0000
    ensures SizeOk(n) <==> n < 0x8000_0000
  {
  }

  // The length check refuses a file that says its length rightly.
  lemma LongFileRefused()
    ensures !SizeOk(0x8000_0000)
  {
  }

  lemma TrailerChecked(s: seq<Byte>, out: seq<Byte>)
    requires |s| >= 8 && At(s, |s| - 8, Trailer(out))
    ensures FooterProblem(s, |out|, Crc32.Crc(out, 0)) == if SizeOk(|out|) then None else Some(DataLength)
  {
    hide At, Bytes, Int32, Crc32.Crc, Crc32.Number, ToInt32, SizeOk;
    var c, n := Crc32.Number(Crc32.Crc(out, 0)), |out| % 0x1_0000_0000;
    AtCat(s, |s| - 8, Bytes(c, 4), Bytes(n, 4));
    AtInt32(s, |s| - 8, c);
    AtInt32(s, |s| - 4, n);
    SizeChecked(|out|);
  }

  // Of any trailer: the CRC has to be that of the output, unless this is zero, which is not looked at; and
  // the length its length modulo 2^32 - 1, and below 2^31.
  lemma AnyTrailer(s: seq<Byte>, out: seq<Byte>, crc: nat, size: nat)
    requires |s| >= 8 && crc < 0x1_0000_0000 && size < 0x1_0000_0000
    requires At(s, |s| - 8, Bytes(crc, 4) + Bytes(size, 4))
    ensures FooterProblem(s, |out|, Crc32.Crc(out, 0))
         == var number := Crc32.Number(Crc32.Crc(out, 0));
            if number != 0 && crc != number then Some(DataCrc)
            else if size >= 0x8000_0000 || size != |out| % 0xffff_ffff then Some(DataLength)
            else None
  {
    hide At, Bytes, Int32, Crc32.Crc, Crc32.Number;
    var c := Crc32.Crc(out, 0);
    AtCat(s, |s| - 8, Bytes(crc, 4), Bytes(size, 4));
    AtInt32(s, |s| - 8, crc);
    AtInt32(s, |s| - 4, size);
    ZeroNumber(c);
    SignedAlike(crc, Crc32.Number(c));
  }

  lemma ZeroNumber(c: bv32)
    ensures Crc32.Number(c) == 0 <==> c == 0
  {
  }

  lemma SignedAlike(a: nat, b: nat)
    requires a < 0x1_0000_0000 && b < 0x1_0000_0000
    ensures ToInt32(a) == ToInt32(b) <==> a == b
  {
  }

  lemma SameNumber(c: bv32, d: bv32)
    ensures Crc32.Number(c) == Crc32.Number(d) <==> c == d
  {
    hide Crc32.Number;
    WordOf(c);
    WordOf(d);
  }

  lemma WordOf(c: bv32)
    ensures Crc32.Number(c) as bv32 == c
  {
  }

  lemma OtherCrc(s: seq<Byte>, out: seq<Byte>, got: seq<Byte>)
    requires |s| >= 8 && At(s, |s| - 8, Trailer(out))
    requires Crc32.Crc(got, 0) != 0 && Crc32.Crc(got, 0) != Crc32.Crc(out, 0)
    ensures FooterProblem(s, |got|, Crc32.Crc(got, 0)) == Some(DataCrc)
  {
    hide At, Bytes, Crc32.Crc, FooterProblem, Crc32.Number;
    AnyTrailer(s, got, Crc32.Number(Crc32.Crc(out, 0)), |out| % 0x1_0000_0000);
    ZeroNumber(Crc32.Crc(got, 0));
    SameNumber(Crc32.Crc(got, 0), Crc32.Crc(out, 0));
  }

  // Where what comes out differs from what was written within 32 bits, loading reports it, unless the CRC of
  // what comes out is zero.
  lemma DamageFound(s: seq<Byte>, out: seq<Byte>, got: seq<Byte>, a: seq<bool>, p: seq<bool>, q: seq<bool>,
                    c: seq<bool>)
    requires |s| >= 8 && At(s, |s| - 8, Trailer(out))
    requires Crc32.MessageBits(out) == a + p + c && Crc32.MessageBits(got) == a + q + c
    requires |p| == |q| <= 32 && p != q && Crc32.Crc(got, 0) != 0
    ensures FooterProblem(s, |got|, Crc32.Crc(got, 0)) == Some(DataCrc)
  {
    hide At, Trailer, Crc32.Crc, FooterProblem, Crc32.MessageBits;
    Crc32.BurstDetected(out, got, a, p, q, c, 0);
    OtherCrc(s, out, got);
  }

  // Four bytes whose CRC is zero: whatever the trailer says of it is taken.
  lemma ZeroCrcUnchecked(s: seq<Byte>, crc: nat)
    requires |s| >= 8 && crc < 0x1_0000_0000 && At(s, |s| - 8, Bytes(crc, 4) + Bytes(4, 4))
    ensures FooterProblem(s, 4, Crc32.Crc([0x9d, 0x0a, 0xd9, 0x6d], 0)) == None
  {
    hide At, Bytes, Crc32.Crc, FooterProblem;
    Crc32.ZeroValue();
    ZeroNumber(0);
    AnyTrailer(s, [0x9d, 0x0a, 0xd9, 0x6d], crc, 4);
  }

  lemma FileParts(s: seq<Byte>, a: seq<Byte>, b: seq<Byte>, c: seq<Byte>)
    requires s == a + (b + c)
    ensures At(s, 0, a) && At(s, |a|, b) && At(s, |s| - |c|, c)
  {
    AtCat(s, 0, a, b + c);
    AtCat(s, |a|, b, c);
  }

  // A file that was written as the standards say, in whatever blocks, is loaded with exactly the header
  // and the bytes that were written, and without an error if and only if its length passes.
  lemma GzipRoundTrip(f: Fields, bs: seq<Spec>, total: nat, w: seq<Byte>)
    requires WfFields(f) && bs != [] && Blocks.AllWf(bs) && BlocksInReach([], bs) && |w| == WSIZE
    requires total > |ExpandBlocks([], bs)|
    ensures var s, out := File(f, bs), ExpandBlocks([], bs);
            var h := Header(Flags(f), ToInt32(f.mtime), f.extraFlags, f.system, f.extra, f.name, f.comment,
                            |HeaderBytes(f)|);
            && HeaderOf(s) == Ok(h)
            && Ends(Begin(s, h, w), total) == Because(End)
            && Inflated(s, h, total, w) == out
            && FooterProblem(s, |out|, Crc32.Crc(out, 0)) == if SizeOk(|out|) then None else Some(DataLength)
  {
    hide Run, Ends, Rest, HeaderOf, Crc32.Crc, Wf, Int32, HeaderBytes, Pack, BlocksBits, ExpandBlocks, BlocksInReach,
         Blocks.AllWf, FooterProblem, SizeOk, Flags, WfFields, Begins, At, Trailer, ToInt32, BlockBits;
    var a, b, c := HeaderBytes(f), Pack(BlocksBits(0, bs)), Trailer(ExpandBlocks([], bs));
    var s := File(f, bs);
    FileParts(s, a, b, c);
    HeaderRoundTrip(s, f);
    BlocksBitsWf(0, bs);
    StreamBegins(s, |a|, BlocksBits(0, bs));
    var h := HeaderOf(s).value;
    DeflateRoundTrip(Begin(s, h, w), bs, total);
    TrailerChecked(s, ExpandBlocks([], bs));
  }

  // So loading such a file ends, and gives what was written.
  lemma WrittenLoads(f: Fields, bs: seq<Spec>, total: nat, w: seq<Byte>, out: seq<Byte>, problem: Option<Problem>)
    requires WfFields(f) && bs != [] && Blocks.AllWf(bs) && BlocksInReach([], bs) && |w| == WSIZE
    requires total > |ExpandBlocks([], bs)|
    ensures HeaderOf(File(f, bs)).Ok? && Halting(File(f, bs), HeaderOf(File(f, bs)).value, total)
    ensures Loaded(File(f, bs), HeaderOf(File(f, bs)).value, total, w, out, problem) ==>
              && out == ExpandBlocks([], bs)
              && problem == if SizeOk(|out|) then None else Some(DataLength)
  {
    hide Run, Ends, HeaderOf, Crc32.Crc, Blocks.AllWf, BlocksInReach, ExpandBlocks, WfFields, File, FooterProblem,
         SizeOk, Inflated, Begin;
    GzipRoundTrip(f, bs, total, w);
    forall v: seq<Byte> | |v| == WSIZE
      ensures Ends(Begin(File(f, bs), HeaderOf(File(f, bs)).value, v), total) != Full
    {
      GzipRoundTrip(f, bs, total, v);
    }
  }
}
