// The inflater of gzip.js: the module-level zip_ variables are its fields.
module Inflate {
  import opened Bits
  import opened JsBits
  import opened Canonical
  import opened Huffman
  import opened Deflate
  import opened Runs
  import opened BitReader
  import opened HuftBuild
  import opened FixedCodes
  import opened Window
  import opened Walking

  // What the routines return: a number of bytes, -1, or an exception.
  datatype Outcome = Count(n: nat) | Fail | Thrown

  lemma Mask8(x: nat)
    ensures And(x, 7) == x % 8
  {
    P2Values();
    AndMask(x, 3);
  }

  class Inflater {
    var slide: array<Byte>
    var wp: nat
    var bitBuf: int
    var bitLen: nat
    var kind: int
    var eof: bool
    var copyLeng: nat
    var copyDist: int
    var tl: seq<Table>
    var td: seq<Table>
    var bl: nat
    var bd: nat
    var fixedTl: seq<Table>
    var fixedTd: seq<Table>
    var fixedBl: nat
    var fixedBd: nat
    var data: seq<Byte>
    var pos: nat

    // Everything put out, after the initial contents of the window.
    ghost var hist: seq<Byte>
    // The code lengths that tl and td were built from.
    ghost var ll: seq<nat>
    ghost var dl: seq<nat>

    // An inflater with a window whose cells hold whatever they are given.
    constructor ()
      ensures slide.Length == 2 * WSIZE && fresh(slide) && FixedReady()
    {
      slide := new Byte[2 * WSIZE];
      fixedTl := [];
    }

    // zip_inflate_start, and the data to inflate from index `at` on. The window and the tables for the
    // fixed codes stay as they are.
    method Start(bytes: seq<Byte>, at: nat)
      requires slide.Length == 2 * WSIZE && FixedReady() && at <= |bytes|
      modifies this
      ensures Valid() && slide == old(slide) && data == bytes && pos == at
      ensures Abs() == State(Stream(Rest(bytes, at), 0), slide[..WSIZE], NoBlock, false, 0, 0)
    {
      hide Rest, RingOf, Fits, Remaining, FixedReady, Valid, Abs, TablesFor, WrittenTo;
      ghost var cells := slide[..];
      wp, bitBuf, bitLen, kind, eof := 0, 0, 0, -1, false;
      copyLeng, copyDist := 0, 0;
      tl := [];
      data, pos := bytes, at;
      hist := cells[..WSIZE];
      StartValid();
    }

    lemma StartValid()
      requires slide.Length == 2 * WSIZE && FixedReady() && pos <= |data|
      requires wp == bitBuf == bitLen == copyLeng == 0 && kind == -1 && !eof && hist == slide[..WSIZE]
      ensures Valid() && Abs() == State(Stream(Rest(data, pos), 0), hist, NoBlock, false, 0, 0)
    {
      hide Rest, RingOf, Fits, Remaining, FixedReady, Tables, Back, TablesFor, WrittenTo;
      StartFits(data, pos);
      RingStart(slide[..]);
      assert slide[..][..WSIZE] == hist;
    }

    // ---- reading bits ----

    ghost predicate Reading()
      reads this`data, this`pos, this`bitBuf, this`bitLen
    {
      Fits(data, pos, bitBuf, bitLen)
    }

    // The bit stream that is still to be read.
    ghost function In(): Stream
      requires Reading()
      reads this`data, this`pos, this`bitBuf, this`bitLen
    {
      Stream(Remaining(data, pos, bitBuf, bitLen), bitLen % 8)
    }

    method GetByte() returns (b: int)
      requires Reading()
      modifies this`pos
      ensures if old(pos) < |data| then b == data[old(pos)] && pos == old(pos) + 1 else b == -1 && pos == old(pos)
    {
      if |data| <= pos {
        return -1;
      }
      b := data[pos];
      pos := pos + 1;
    }

    method NeedBits(n: nat)
      requires Reading() && n <= 16
      modifies this`pos, this`bitBuf, this`bitLen
      ensures Reading() && In() == old(In())
      ensures bitLen >= n && bitLen >= old(bitLen)
    {
      hide Remaining, Rest, P2, Or, Shl;
      while bitLen < n
        invariant Reading() && In() == old(In()) && bitLen >= old(bitLen)
        decreases n - bitLen
      {
        ghost var at, buf := pos, bitBuf;
        if at < |data| {
          TakeByte(data, at, buf, bitLen);
        } else {
          TakeEnd(data, buf, bitLen);
        }
        var b := GetByte();
        bitBuf := Or(bitBuf, Shl(b, bitLen));
        bitLen := bitLen + 8;
      }
    }

    method GetBits(n: nat) returns (r: nat)
      requires Reading() && n <= bitLen && n <= 16
      ensures r == Peek(In(), n)
    {
      Peeking(data, pos, bitBuf, bitLen, n);
      r := And(bitBuf, MASK_BITS[n]);
    }

    method DumpBits(n: nat)
      requires Reading() && n <= bitLen
      modifies this`bitBuf, this`bitLen
      ensures Reading() && In() == Skip(old(In()), n)
      ensures bitLen == old(bitLen) - n
    {
      hide Remaining, Rest, P2, High, Fits;
      Phase(bitLen, n);
      Dropping(data, pos, bitBuf, bitLen, n);
      bitBuf := High(bitBuf, n);
      bitLen := bitLen - n;
    }

    // The next n bits.
    method TakeBits(n: nat) returns (r: nat)
      requires Reading() && n <= 16
      modifies this`pos, this`bitBuf, this`bitLen
      ensures Reading() && In() == Skip(old(In()), n) && r == Peek(old(In()), n)
    {
      NeedBits(n);
      r := GetBits(n);
      DumpBits(n);
    }

    // Walks the tables to the entry of the next symbol.
    method DecodeSymbol(root: seq<Table>, m: nat, ghost lens: seq<nat>, ghost al: Alphabet)
      returns (t: HuftNode, ok: bool)
      requires Reading() && Covers(al, |lens|) && Decodes(root, m, lens, al)
      modifies this`pos, this`bitBuf, this`bitLen
      ensures Reading()
      ensures var s := Symbol(lens, old(In()).rest);
              && (ok <==> s.Some? && SymE(al, s.value) != 99)
              && (ok ==> t.e == SymE(al, s.value) && t.n == SymN(al, s.value) && In() == Skip(old(In()), lens[s.value]))
    {
      hide Linked, Walk, LeafOK, Skip, Peek, Covers, Symbol, Remaining, Fits, P2;
      ghost var x := In();
      ghost var w := Walk(root, 0, m, x.rest);
      ghost var used: nat := 0;
      PathStart(root, lens, al, x, m);
      var k: nat, bits: nat := 0, m;
      NeedBits(bits);
      var i := GetBits(bits);
      t := root[k][i];
      while t.e > 16
        invariant Reading() && bits <= bitLen && bits <= 16
        invariant OnPath(root, w, x, In(), k, bits, used, t)
        decreases |root| - k
      {
        if t.e == 99 {
          PathEnd(root, w, x, In(), k, bits, used, t);
          return t, false;
        }
        PathStep(root, w, x, In(), k, bits, used, t);
        DumpBits(t.b);
        used, bits, k := used + t.b, t.e - 16, t.t;
        NeedBits(bits);
        i := GetBits(bits);
        t := root[k][i];
      }
      PathEnd(root, w, x, In(), k, bits, used, t);
      DumpBits(t.b);
      ok := true;
    }

    // ---- the window ----

    ghost predicate Ring()
      reads this`slide, slide, this`wp, this`hist
    {
      RingOf(slide[..], wp, hist)
    }

    ghost predicate Written(buff: array<Byte>, b0: seq<Byte>, org: nat, base: nat)
      reads buff, this`hist
    {
      WrittenTo(buff[..], b0, org, base, hist)
    }

    // Puts out one byte, to the window and to the buffer.
    method Put(buff: array<Byte>, at: nat, b: Byte, ghost b0: seq<Byte>, ghost org: nat, ghost base: nat)
      requires Ring() && buff != slide
      requires Written(buff, b0, org, base) && at == org + (|hist| - base) < buff.Length
      modifies this`wp, this`hist, slide, buff
      ensures Ring() && Written(buff, b0, org, base)
      ensures hist == old(hist) + [b]
      ensures wp == old(wp) % WSIZE + 1
    {
      hide RingOf, WrittenTo, And, Fits, TablesFor;
      ghost var cells, bytes := slide[..], buff[..];
      MaskW(wp);
      RingPut(cells, wp, hist, b);
      WrittenPut(bytes, b0, org, base, hist, b);
      wp := And(wp, WSIZE - 1);
      slide[wp] := b;
      assert slide[..] == cells[wp := b];
      wp := wp + 1;
      buff[at] := b;
      assert buff[..] == bytes[at := b];
      hist := hist + [b];
    }

    // ---- the state as the machine's ----

    // tl and td decode the codes with lengths ll and dl. There may be no distance codes.
    ghost predicate Tables()
      reads this`tl, this`td, this`bl, this`bd, this`ll, this`dl
    {
      TablesFor(tl, bl, td, bd, ll, dl)
    }

    ghost predicate FixedReady()
      reads this`fixedTl, this`fixedTd, this`fixedBl, this`fixedBd
    {
      fixedTl != [] ==> TablesFor(fixedTl, fixedBl, fixedTd, fixedBd, FixedLL(), FixedDL())
    }

    ghost predicate Valid()
      reads this, slide
    {
      && Reading() && Ring() && FixedReady()
      && -1 <= kind <= 2
      && (kind == -1 ==> copyLeng == 0)
      && (kind == 0 ==> copyLeng > 0)
      && (kind > 0 ==> Tables())
    }

    ghost function Abs(): State
      requires Reading()
      reads this
    {
      var pending := if kind > 0 then copyLeng else 0;
      State(In(), hist, BlockOf(kind, copyLeng, ll, dl), eof, pending, if pending > 0 then Back(wp, copyDist) else 0)
    }

    lemma ValidWf()
      requires Valid()
      ensures Wf(Abs())
    {
    }

    // One byte of a pending copy.
    method CopyByte(buff: array<Byte>, at: nat, ghost b0: seq<Byte>, ghost org: nat, ghost base: nat)
      requires Valid() && kind > 0 && copyLeng > 0 && buff != slide
      requires Written(buff, b0, org, base) && at == org + (|hist| - base) < buff.Length
      modifies this`wp, this`hist, this`copyLeng, this`copyDist, slide, buff
      ensures Valid() && Written(buff, b0, org, base) && |hist| == |old(hist)| + 1
      ensures copyLeng == old(copyLeng) - 1
      ensures Wf(old(Abs())) && Next(old(Abs())) == Emit(Abs())
    {
      hide Valid, Abs, Ring, Written, Reading, In, FixedReady, Tables, Next, Wf, Back, BlockOf, RingOf, Fits, TablesFor,
           WrittenTo;
      Copying();
      ghost var a := Abs();
      var from, b := Fetch();
      Put(buff, at, b, b0, org, base);
      copyLeng, copyDist := copyLeng - 1, from + 1;
      Copied(a, b);
    }

    // The parts of a valid state with a copy pending.
    lemma Copying()
      requires Valid() && kind > 0 && copyLeng > 0
      ensures Reading() && Ring() && FixedReady() && Tables() && kind <= 2
      ensures Wf(Abs()) && Abs() == State(In(), hist, Codes(ll, dl), eof, copyLeng, Back(wp, copyDist))
    {
    }

    // And after one more byte.
    lemma Copied(a: State, b: Byte)
      requires Reading() && Ring() && FixedReady() && Tables() && 0 < kind <= 2 && a.len == copyLeng + 1
      requires a == State(In(), a.hist, Codes(ll, dl), eof, a.len, Back(wp, copyDist)) && Wf(a)
      requires b == a.hist[|a.hist| - a.dist] && hist == a.hist + [b]
      ensures Valid() && Next(a) == Emit(Abs())
    {
      hide Wf, Back, Ring, Reading, In, FixedReady, Tables, Next, RingOf, Fits, TablesFor, WrittenTo;
      CopyNext(a);
    }

    // The cell that a copy reads next, and what is in it.
    method Fetch() returns (from: nat, b: Byte)
      requires Ring()
      ensures Back(wp, copyDist) <= |hist| && b == hist[|hist| - Back(wp, copyDist)]
      ensures Back(wp % WSIZE + 1, from + 1) == Back(wp, copyDist)
    {
      hide Back, Ring, And, RingOf, Fits, TablesFor, WrittenTo;
      RingRead();
      MaskW(copyDist);
      from := And(copyDist, WSIZE - 1);
      b := slide[from];
    }

    lemma RingRead()
      requires Ring()
      ensures copyDist % WSIZE < slide.Length && slide[copyDist % WSIZE] == hist[|hist| - Back(wp, copyDist)]
      ensures Back(wp % WSIZE + 1, copyDist % WSIZE + 1) == Back(wp, copyDist) <= |hist|
    {
      hide Back;
      RingBack(slide[..], wp, hist, copyDist);
    }

    // Copies until nothing is pending or the buffer is full.
    method CopyPending(buff: array<Byte>, off: nat, n0: nat, size: nat, ghost b0: seq<Byte>, ghost org: nat,
                       ghost base: nat)
      returns (n: nat)
      requires Valid() && kind > 0 && buff != slide && n0 <= size && off + size <= buff.Length
      requires Written(buff, b0, org, base) && off + n0 == org + (|hist| - base)
      modifies this`wp, this`hist, this`copyLeng, this`copyDist, slide, buff
      ensures Valid() && Written(buff, b0, org, base) && n0 <= n <= size && off + n == org + (|hist| - base)
      ensures n == size || copyLeng == 0
      ensures copyLeng <= old(copyLeng)
      ensures Reaches(old(Abs()), size - n0, Abs(), size - n)
      ensures old(copyLeng) > 0 && n0 < size ==> n > n0
    {
      hide Reaches, Next, Wf, Ring, FixedReady, Tables, Abs, Written, RingOf, Fits, TablesFor, WrittenTo;
      n := n0;
      ValidWf();
      ReachesSelf(Abs(), size - n);
      while copyLeng > 0 && n < size
        invariant Valid() && Written(buff, b0, org, base) && n0 <= n <= size && off + n == org + (|hist| - base)
        invariant Reaches(old(Abs()), size - n0, Abs(), size - n)
        invariant copyLeng <= old(copyLeng) && (n == n0 ==> copyLeng == old(copyLeng))
      {
        ghost var a := Abs();
        CopyByte(buff, off + n, b0, org, base);
        EmitReaches(a, size - n);
        ReachesTrans(old(Abs()), size - n0, a, size - n, Abs(), size - n - 1);
        n := n + 1;
      }
    }

    // ---- a block of codes ----

    // In a block of codes, with nothing pending. Without literal codes there is no table.
    ghost predicate InCodes()
      reads this, slide
    {
      && Reading() && Ring() && FixedReady() && kind > 0 && copyLeng == 0 && kind <= 2
      && (Tables() || (tl == [] && WfCodes(ll, dl) && Longest(ll) == 0))
    }

    lemma InCodesWf()
      requires InCodes()
      ensures Wf(Abs()) && Abs().block == Codes(ll, dl) && Abs().len == 0 && Abs().s == In() && Abs().last == eof
    {
    }

    lemma InCodesTables()
      requires InCodes()
      ensures if tl == [] then Longest(ll) == 0
              else Longest(ll) > 0 && Covers(LiteralAlphabet(), |ll|) && Decodes(tl, bl, ll, LiteralAlphabet())
      ensures tl != [] && Longest(dl) > 0 ==>
                Covers(DistanceAlphabet(), |dl|) && Decodes(td, bd, dl, DistanceAlphabet())
      ensures Longest(ll) > 0 ==> tl != []
    {
      hide Decodes, Longest;
    }

    // The distance that follows a length of len.
    method DecodeDistance(len: nat, ghost st: State) returns (ok: bool)
      requires InCodes() && Longest(ll) > 0 && Longest(dl) > 0 && len > 0
      requires Wf(st) && st == Abs().(s := st.s)
      modifies this`pos, this`bitBuf, this`bitLen, this`copyLeng, this`copyDist
      ensures Reading()
      ensures var r := NextDistance(st, old(In()), len, dl);
              if ok then Valid() && copyLeng == len && r == Silent(Abs()) else r == Halt(Bad)
    {
      hide Reading, In, Ring, FixedReady, Tables, RingOf, Fits, TablesFor, Remaining, Decodes, Covers, Symbol, Matches,
           NoMatch, Skip, Peek, Wf, NextDistance, SymE, SymN, Longest, Bounded, Back, DistanceAlphabet;
      InCodesTables();
      DistanceNext(st, In(), len, dl);
      var t: HuftNode;
      t, ok := DecodeSymbol(td, bd, dl, DistanceAlphabet());
      if ok {
        var x := TakeBits(t.e);
        copyLeng, copyDist := len, wp - t.n - x;
        BackFar(wp, t.n + x);
      }
    }

    method DecodeToken() returns (t: Token)
      requires InCodes()
      modifies this`pos, this`bitBuf, this`bitLen, this`copyLeng, this`copyDist
      ensures Reading() && Wf(old(Abs())) && (t.NoTable? <==> tl == [])
      ensures match t
              case Literal(b) => InCodes() && Next(old(Abs())) == Emit(Abs().(hist := hist + [b]))
              case BlockEnd => InCodes() && Next(old(Abs())) == Silent(Abs().(block := NoBlock))
              case Copy => Valid() && copyLeng > 0 && Next(old(Abs())) == Silent(Abs())
              case Invalid => Next(old(Abs())) == Halt(Bad)
              case NoTable => Next(old(Abs())) == Halt(Throw)
    {
      hide RingOf, Fits, Decodes, Remaining, Symbol, Matches, NoMatch, Skip, Peek, NextDistance, Next, Wf, SymE, SymN,
           Longest, Bounded, LiteralAlphabet, DistanceAlphabet, TablesFor, WrittenTo;
      InCodesTables();
      InCodesWf();
      ghost var a := Abs();
      if tl == [] {
        NoTableNext(a);
        return NoTable;
      }
      var c, ok := DecodeSymbol(tl, bl, ll, LiteralAlphabet());
      if !ok {
        InvalidNext(a);
        return Invalid;
      }
      EntryNext(a);
      if c.e == 16 {
        return Literal(c.n);
      }
      if c.e == 15 {
        return BlockEnd;
      }
      var x := TakeBits(c.e);
      ok := DecodeDistance(c.n + x, a);
      t := if ok then Copy else Invalid;
    }

    // Routine call with `size` bytes to make, from state `from` of the machine: it made r.n of them, or
    // it ended the way the machine does, and `eof` says whether a bad block is the last one.
    ghost predicate Did(from: State, size: nat, r: Outcome)
      reads this, slide
    {
      && Wf(from)
      && match r
         case Count(k) => Valid() && k <= size && Reaches(from, size, Abs(), size - k) && (k == size || kind == -1)
         case Fail => Ends(from, size) == Because(Bad) && eof == BadIsLast(Run(from, size))
         case Thrown => Ends(from, size) == Because(Throw)
    }

    // One turn of the loop of zip_inflate_codes: a literal, the end of the block, or a copy as far as
    // it goes.
    method CodesTurn(buff: array<Byte>, off: nat, n0: nat, size: nat, ghost b0: seq<Byte>, ghost org: nat,
                     ghost base: nat)
      returns (n: nat, t: Token)
      requires InCodes() && buff != slide && n0 < size && off + size <= buff.Length
      requires Written(buff, b0, org, base) && off + n0 == org + (|hist| - base)
      modifies this`pos, this`bitBuf, this`bitLen, this`copyLeng, this`copyDist, this`wp, this`kind, this`hist, slide,
               buff
      ensures Reading() && Wf(old(Abs())) && Written(buff, b0, org, base)
      ensures match t
              case Invalid => Next(old(Abs())) == Halt(Bad)
              case NoTable => Next(old(Abs())) == Halt(Throw)
              case BlockEnd => Valid() && kind == -1 && n == n0
              case _ => Valid() && (n < size ==> InCodes()) && n0 < n <= size
      ensures !t.Invalid? && !t.NoTable? ==>
                Reaches(old(Abs()), size - n0, Abs(), size - n) && off + n == org + (|hist| - base)
    {
      hide Reaches, RingOf, WrittenTo, Fits, TablesFor, Next, Remaining, Wf, Ends;
      n := n0;
      ghost var a := Abs();
      t := DecodeToken();
      match t {
        case Literal(b) =>
          Put(buff, off + n, b, b0, org, base);
          EmitReaches(a, size - n);
          n := n + 1;
        case BlockEnd =>
          kind := -1;
          SilentReaches(a, size - n);
        case Copy =>
          ghost var c := Abs();
          SilentReaches(a, size - n);
          n := CopyPending(buff, off, n, size, b0, org, base);
          ReachesTrans(a, size - n0, c, size - n0, Abs(), size - n);
        case _ =>
      }
    }

    // zip_inflate_codes.
    method InflateCodes(buff: array<Byte>, off: nat, size: nat, ghost b0: seq<Byte>, ghost org: nat, ghost base: nat)
      returns (r: Outcome)
      requires InCodes() && buff != slide && size > 0 && off + size <= buff.Length
      requires Written(buff, b0, org, base) && off == org + (|hist| - base)
      modifies this`pos, this`bitBuf, this`bitLen, this`copyLeng, this`copyDist, this`wp, this`kind, this`hist, slide,
               buff
      ensures Reading() && Written(buff, b0, org, base) && Did(old(Abs()), size, r)
      ensures r.Count? ==> off + r.n == org + (|hist| - base)
    {
      hide Reaches, Next, Wf, Ends, Run, Abs, In, Written, Ring, FixedReady, Tables, RingOf, Fits, TablesFor, WrittenTo;
      var n := 0;
      InCodesWf();
      ghost var from := Abs();
      ReachesSelf(from, size);
      while true
        invariant InCodes() && Written(buff, b0, org, base) && n < size && off + n == org + (|hist| - base)
        invariant Wf(from) && Reaches(from, size, Abs(), size - n)
        decreases size - n
      {
        InCodesWf();
        ghost var a, m := Abs(), n;
        var t;
        n, t := CodesTurn(buff, off, n, size, b0, org, base);
        if t.Invalid? || t.NoTable? {
          assert BadIsLast(a) == eof;
          ReachesEnd(from, size, a, size - m);
          return if t.Invalid? then Fail else Thrown;
        }
        ReachesTrans(from, size, a, size - m, Abs(), size - n);
        if n == size || t.BlockEnd? {
          return Count(n);
        }
      }
    }

    // ---- a stored block ----

    ghost predicate InStored()
      reads this, slide
    {
      Reading() && Ring() && FixedReady() && kind == 0
    }

    lemma StoredWf()
      requires InStored()
      ensures Wf(Abs())
    {
    }

    method StoredByte(buff: array<Byte>, at: nat, ghost b0: seq<Byte>, ghost org: nat, ghost base: nat)
      requires InStored() && copyLeng > 0 && buff != slide
      requires Written(buff, b0, org, base) && at == org + (|hist| - base) < buff.Length
      modifies this`pos, this`bitBuf, this`bitLen, this`wp, this`hist, this`copyLeng, slide, buff
      ensures InStored() && Written(buff, b0, org, base) && |hist| == |old(hist)| + 1
      ensures copyLeng == old(copyLeng) - 1
      ensures Wf(old(Abs())) && Next(old(Abs())) == Emit(Abs())
    {
      hide Ring, Written, FixedReady, Reading, In, Next, Wf, Skip, Peek, Back, RingOf, Fits, TablesFor, WrittenTo;
      StoredWf();
      StoredNext(Abs());
      var b := TakeBits(8);
      Put(buff, at, b, b0, org, base);
      copyLeng := copyLeng - 1;
    }

    // Stored bytes until the block ends or the buffer is full.
    method StoredPending(buff: array<Byte>, off: nat, n0: nat, size: nat, ghost b0: seq<Byte>, ghost org: nat,
                         ghost base: nat)
      returns (n: nat)
      requires InStored() && buff != slide && n0 <= size && off + size <= buff.Length
      requires Written(buff, b0, org, base) && off + n0 == org + (|hist| - base)
      modifies this`pos, this`bitBuf, this`bitLen, this`wp, this`hist, this`copyLeng, this`kind, slide, buff
      ensures Valid() && Written(buff, b0, org, base) && n0 <= n <= size && off + n == org + (|hist| - base)
      ensures n == size || kind == -1
      ensures Wf(old(Abs())) && Reaches(old(Abs()), size - n0, Abs(), size - n)
      ensures old(copyLeng) > 0 && n0 < size ==> n > n0
    {
      hide Reaches, Ring, Written, FixedReady, Reading, In, Next, Wf, RingOf, Fits, TablesFor, WrittenTo;
      n := StoredLoop(buff, off, n0, size, b0, org, base);
      if copyLeng == 0 {
        kind := -1;
      }
    }

    method StoredLoop(buff: array<Byte>, off: nat, n0: nat, size: nat, ghost b0: seq<Byte>, ghost org: nat,
                      ghost base: nat)
      returns (n: nat)
      requires InStored() && buff != slide && n0 <= size && off + size <= buff.Length
      requires Written(buff, b0, org, base) && off + n0 == org + (|hist| - base)
      modifies this`pos, this`bitBuf, this`bitLen, this`wp, this`hist, this`copyLeng, slide, buff
      ensures InStored() && Written(buff, b0, org, base) && n0 <= n <= size && off + n == org + (|hist| - base)
      ensures n == size || copyLeng == 0
      ensures Wf(old(Abs())) && Reaches(old(Abs()), size - n0, Abs(), size - n)
      ensures old(copyLeng) > 0 && n0 < size ==> n > n0
    {
      hide Reaches, Next, Wf, Abs, Written, Ring, FixedReady, RingOf, Fits, TablesFor, WrittenTo;
      n := n0;
      StoredWf();
      ReachesSelf(Abs(), size - n);
      while copyLeng > 0 && n < size
        invariant InStored() && Written(buff, b0, org, base) && n0 <= n <= size && off + n == org + (|hist| - base)
        invariant Wf(old(Abs())) && Reaches(old(Abs()), size - n0, Abs(), size - n)
        invariant n == n0 ==> copyLeng == old(copyLeng)
      {
        ghost var a := Abs();
        StoredByte(buff, off + n, b0, org, base);
        EmitReaches(a, size - n);
        ReachesTrans(old(Abs()), size - n0, a, size - n, Abs(), size - n - 1);
        n := n + 1;
      }
    }

    // The state outside of any block.
    ghost function Outer(): State
      requires Reading()
      reads this
    {
      State(In(), hist, NoBlock, eof, 0, 0)
    }

    lemma OuterWf()
      requires Reading() && Ring()
      ensures Wf(Outer())
    {
    }

    // After the header of a block, which the machine reads in one step: the call did what follows.
    ghost predicate DidAfter(step: Step, size: nat, r: Outcome)
      reads this, slide
    {
      match step
      case Halt(why) => (why == Bad && r == Fail) || (why == Throw && r == Thrown)
      case Silent(b) => Did(b, size, r)
      case Emit(_) => false
    }

    method StoredLength() returns (n: nat, ok: bool)
      requires InStored() && copyLeng == 0
      modifies this`pos, this`bitBuf, this`bitLen
      ensures InStored()
      ensures var r := StoredHeader(old(Outer()));
              if ok then r == Silent(Outer().(block := if n == 0 then NoBlock else Stored(n))) else r == Halt(Bad)
    {
      hide RingOf, Fits, TablesFor, Remaining, Wf, Skip, Peek, Rest, WrittenTo;
      Mask8(bitLen);
      DumpBits(And(bitLen, 7));
      n := TakeBits(16);
      NeedBits(16);
      Complement16();
      if n != And(Not(bitBuf), 0xffff) {
        return n, false;
      }
      DumpBits(16);
      ok := true;
    }

    lemma Complement16()
      requires Reading() && bitLen >= 16
      ensures And(Not(bitBuf), 0xffff) == 0xffff - Peek(In(), 16)
    {
      P2Values();
      NotLow(bitBuf, 16);
      MaskBits(16);
      Peeking(data, pos, bitBuf, bitLen, 16);
      AndMask(bitBuf, 16);
    }

    // zip_inflate_stored.
    method InflateStored(buff: array<Byte>, off: nat, size: nat, ghost b0: seq<Byte>, ghost org: nat, ghost base: nat)
      returns (r: Outcome)
      requires InStored() && copyLeng == 0 && buff != slide && size > 0 && off + size <= buff.Length
      requires Written(buff, b0, org, base) && off == org + (|hist| - base)
      modifies this`pos, this`bitBuf, this`bitLen, this`copyLeng, this`wp, this`kind, this`hist, slide, buff
      ensures Reading() && Written(buff, b0, org, base) && DidAfter(StoredHeader(old(Outer())), size, r)
      ensures r.Count? ==> off + r.n == org + (|hist| - base)
    {
      hide Reaches, Ring, Written, FixedReady, Tables, In, StoredHeader, Wf, Next, Ends, Run, RingOf, Fits, TablesFor,
           WrittenTo;
      var leng, ok := StoredLength();
      if !ok {
        return Fail;
      }
      copyLeng := leng;
      var n := StoredPending(buff, off, 0, size, b0, org, base);
      return Count(n);
    }

    // ---- a block with fixed codes ----

    // Makes the tables of the fixed codes, the first time.
    method MakeFixed()
      requires FixedReady()
      modifies this`fixedTl, this`fixedTd, this`fixedBl, this`fixedBd
      ensures FixedReady() && fixedTl != []
    {
      hide TablesFor, Decodes, Kraft, Longest, LiteralAlphabet, DistanceAlphabet, FixedLL, FixedDL, RingOf, Fits,
           WrittenTo;
      if fixedTl == [] {
        var l := FixedLengths();
        FixedKraft();
        assert l[..][..288] == FixedLL();
        var h := Build(l[..], 288, LiteralAlphabet(), 7);
        var tl, bl := h.root, h.m;
        var i := 0;
        while i < 30
          invariant 0 <= i <= 30 && forall s :: 0 <= s < i ==> l[s] == 5
        {
          l[i] := 5;
          i := i + 1;
        }
        FixedDLIs(l[..][..30]);
        h := Build(l[..], 30, DistanceAlphabet(), 5);
        FixedTables(tl, bl, h.root, h.m);
        fixedTl, fixedBl, fixedTd, fixedBd := tl, bl, h.root, h.m;
      }
    }

    // With the tables for the fixed codes in use.
    lemma FixedInCodes()
      requires Reading() && Ring() && FixedReady() && fixedTl != [] && kind == 1 && copyLeng == 0
      requires tl == fixedTl && td == fixedTd && bl == fixedBl && bd == fixedBd && ll == FixedLL() && dl == FixedDL()
      ensures InCodes() && Abs() == Outer().(block := Codes(FixedLL(), FixedDL()))
    {
      hide Ring, Reading, In, TablesFor, RingOf, Fits, FixedLL, FixedDL;
    }

    method UseFixed()
      requires FixedReady()
      modifies this`fixedTl, this`fixedTd, this`fixedBl, this`fixedBd, this`tl, this`td, this`bl, this`bd, this`ll,
               this`dl
      ensures FixedReady() && fixedTl != []
      ensures tl == fixedTl && td == fixedTd && bl == fixedBl && bd == fixedBd && ll == FixedLL() && dl == FixedDL()
    {
      hide FixedReady, TablesFor, FixedLL, FixedDL;
      MakeFixed();
      tl, td, bl, bd, ll, dl := fixedTl, fixedTd, fixedBl, fixedBd, FixedLL(), FixedDL();
    }

    // zip_inflate_fixed.
    method InflateFixed(buff: array<Byte>, off: nat, size: nat, ghost b0: seq<Byte>, ghost org: nat, ghost base: nat)
      returns (r: Outcome)
      requires Reading() && Ring() && FixedReady() && kind == 1 && copyLeng == 0
      requires buff != slide && size > 0 && off + size <= buff.Length
      requires Written(buff, b0, org, base) && off == org + (|hist| - base)
      modifies this, slide, buff
      ensures Reading() && Written(buff, b0, org, base)
      ensures Did(old(Outer()).(block := Codes(FixedLL(), FixedDL())), size, r)
      ensures r.Count? ==> off + r.n == org + (|hist| - base)
      ensures eof == old(eof) && data == old(data) && slide == old(slide)
    {
      hide Ring, Written, Reading, In, FixedReady, Tables, InCodes, Abs, RingOf, WrittenTo, Fits, TablesFor, Remaining,
           Did, Wf, FixedLL, FixedDL;
      UseFixed();
      FixedInCodes();
      r := InflateCodes(buff, off, size, b0, org, base);
    }

    // ---- a block with dynamic codes ----

    // The code length code lengths, into the first 19 places of lens.
    method ReadCodeLengths(lens: array<nat>, nb: nat)
      requires Reading() && nb <= 19 && lens.Length == 316
      requires forall i :: 0 <= i < 316 ==> lens[i] == 0
      modifies this`pos, this`bitBuf, this`bitLen, lens
      ensures Reading() && In() == SkipEach(old(In()), nb)
      ensures lens[..19] == CodeLengths(old(In()), nb, 0, Repeat(0, 19))
      ensures forall i :: 0 <= i < 19 ==> lens[i] < 8
      ensures FieldsAre(lens[..19], old(In()), nb)
    {
      hide Fits, Remaining, Skip, Peek, BitOrder, FieldsAre;
      assert lens[..19] == Repeat(0, 19);
      var j := 0;
      while j < nb
        invariant 0 <= j <= nb && Reading()
        invariant SkipEach(In(), nb - j) == SkipEach(old(In()), nb)
        invariant CodeLengths(In(), nb, j, lens[..19]) == CodeLengths(old(In()), nb, 0, Repeat(0, 19))
        invariant forall i :: j <= i < 19 ==> lens[BitOrder()[i]] == 0
      {
        ghost var before := lens[..19];
        var x := TakeBits(3);
        OrderDistinct(j);
        lens[BitOrder()[j]] := x;
        assert lens[..19] == before[BitOrder()[j] := x];
        j := j + 1;
      }
      ghost var read := lens[..19];
      while j < 19
        invariant nb <= j <= 19 && lens[..19] == read
        invariant forall i :: j <= i < 19 ==> lens[BitOrder()[i]] == 0
        modifies lens
      {
        lens[BitOrder()[j]] := 0;
        j := j + 1;
      }
      AllFieldsRead(old(In()), nb);
    }

    // One code length symbol, and the lengths it stands for, unless they are too many.
    method ReadRun(lens: array<nat>, i0: nat, n: nat, l0: nat, ghost cl: seq<nat>) returns (i: nat, l: nat, ok: bool)
      requires Reading() && i0 < n <= lens.Length && |cl| == 19 && OneTable(tl, bl, cl)
      requires l0 == LastOf(lens[..i0])
      modifies this`pos, this`bitBuf, this`bitLen, lens
      ensures Reading() && lens[n..] == old(lens[n..])
      ensures var p := NextPiece(cl, old(In()), old(lens[..i0]));
              if i0 + |p.lens| > n then !ok
              else ok && i0 < i <= n && l == LastOf(lens[..i]) && In() == p.s && lens[..i] == old(lens[..i0]) + p.lens
    {
      hide Fits, Remaining, Skip, OneTable, LengthSymbol;
      TableSymbol(tl, bl, cl, In().rest);
      NeedBits(bl);
      var x := GetBits(bl);
      var t := tl[0][x];
      DumpBits(t.b);
      var j := t.n;
      ghost var got := lens[..i0];
      i, l, ok := i0, l0, true;
      if j < 16 {
        lens[i] := j;
        i, l := i + 1, j;
        assert lens[..i] == got + [j];
      } else {
        var v;
        if j == 16 {
          v := l;
          j := TakeBits(2);
          j := 3 + j;
        } else if j == 17 {
          v := 0;
          j := TakeBits(3);
          j := 3 + j;
        } else {
          v := 0;
          j := TakeBits(7);
          j := 11 + j;
        }
        if i + j > n {
          return i, l, false;
        }
        FillRun(lens, i, j, v);
        i, l := i + j, v;
        assert lens[..i] == got + Repeat(v, j);
      }
    }

    // All n code lengths.
    method ReadAllLengths(lens: array<nat>, n: nat, ghost cl: seq<nat>) returns (ok: bool)
      requires Reading() && 0 < n <= lens.Length && |cl| == 19 && OneTable(tl, bl, cl)
      modifies this`pos, this`bitBuf, this`bitLen, lens
      ensures Reading() && lens[n..] == old(lens[n..])
      ensures var r := ReadLengths(cl, old(In()), n, []);
              if ok then r == Some(Piece(lens[..n], In())) else r == None
    {
      hide Fits, Remaining, NextPiece, OneTable;
      var i, l := 0, 0;
      assert lens[..0] == [];
      while i < n
        invariant Reading() && 0 <= i <= n && l == LastOf(lens[..i]) && lens[n..] == old(lens[n..])
        invariant ReadLengths(cl, In(), n, lens[..i]) == ReadLengths(cl, old(In()), n, [])
      {
        i, l, ok := ReadRun(lens, i, n, l, cl);
        if !ok {
          return false;
        }
      }
      ok := true;
    }

    // The tables for the code lengths lens[..nl] and lens[nl..nl + nd].
    method BuildTables(lens: array<nat>, nl: nat, nd: nat) returns (ok: bool)
      requires lens.Length == 316 && 257 <= nl <= 286 && 1 <= nd <= 30 && Small(lens[..nl + nd])
      modifies this`tl, this`bl, this`td, this`bd, this`ll, this`dl, lens
      ensures ll == old(lens[..nl + nd])[..nl] && dl == old(lens[..nl + nd])[nl..]
      ensures ok <==> Usable(ll) && Usable(dl) && !(Longest(dl) == 0 && nl > 257)
      ensures ok ==> WfCodes(ll, dl) && if Longest(ll) == 0 then tl == [] else Tables()
    {
      hide Kraft, Longest, Decodes, Covers, LiteralAlphabet, DistanceAlphabet, Bounded;
      ll, dl := lens[..nl + nd][..nl], lens[..nl + nd][nl..];
      SmallBounded(lens[..nl + nd], nl);
      bl := 9;
      assert lens[..][..nl] == ll;
      CoversFewer(LiteralAlphabet(), nl, 288);
      var h := Build(lens[..], nl, LiteralAlphabet(), bl);
      if h.status != 0 {
        return false;
      }
      tl, bl := h.root, h.m;
      MoveDown(lens, nl, nd);
      assert lens[..][..nd] == dl;
      bd := 6;
      CoversFewer(DistanceAlphabet(), nd, 30);
      h := Build(lens[..], nd, DistanceAlphabet(), bd);
      td, bd := h.root, h.m;
      if bd == 0 && nl > 257 {
        return false;
      }
      if h.status != 0 {
        return false;
      }
      ok := true;
    }

    // The table for the code length code.
    method LengthTable(lens: array<nat>, nb: nat) returns (t: Token, ghost cl: seq<nat>)
      requires Reading() && nb <= 19 && lens.Length == 316
      requires forall i :: 0 <= i < 316 ==> lens[i] == 0
      modifies this`pos, this`bitBuf, this`bitLen, this`tl, this`bl, lens
      ensures Reading() && In() == SkipEach(old(In()), nb)
      ensures cl == CodeLengths(old(In()), nb, 0, Repeat(0, 19))
      ensures t == if !Usable(cl) then Invalid else if Longest(cl) == 0 then NoTable else Copy
      ensures t == Copy ==> OneTable(tl, bl, cl)
    {
      hide Fits, Remaining, Kraft, Longest, Decodes, CodeLengths, SkipEach, LengthAlphabet;
      ReadCodeLengths(lens, nb);
      cl := lens[..19];
      assert lens[..][..19] == cl;
      EightsBounded(cl);
      var h := Build(lens[..], 19, LengthAlphabet(), 7);
      if h.status != 0 {
        return Invalid, cl;
      }
      tl, bl := h.root, h.m;
      t := if tl == [] then NoTable else Copy;
    }

    // The tables of the block, by way of that for the code length code.
    method CodeTables(lens: array<nat>, nl: nat, nd: nat, ghost cl: seq<nat>, ghost st: State) returns (ok: bool)
      requires Reading() && Ring() && FixedReady() && kind == 2 && copyLeng == 0
      requires lens.Length == 316 && 257 <= nl <= 286 && 1 <= nd <= 30 && |cl| == 19 && OneTable(tl, bl, cl)
      requires Wf(st) && st == Outer().(s := st.s)
      modifies this`pos, this`bitBuf, this`bitLen, this`tl, this`bl, this`td, this`bd, this`ll, this`dl, lens
      ensures Reading()
      ensures var r := ReadLengths(cl, old(In()), nl + nd, []);
              if r.None? then !ok
              else
                var step := DynamicCodes(st, r.value, nl);
                if ok then InCodes() && step == Silent(Abs()) else step == Halt(Bad)
    {
      hide Fits, Remaining, Ring, RingOf, FixedReady, Kraft, Longest, Decodes, Skip, Peek, TablesFor, ReadLengths, Wf,
           Bounded, Usable, OneTable, WrittenTo;
      SmallNone();
      ok := ReadAllLengths(lens, nl + nd, cl);
      if ok {
        ok := BuildTables(lens, nl, nd);
      }
    }

    // What follows the three numbers in the header of a block with dynamic codes.
    method DynamicBody(nl: nat, nd: nat, nb: nat, ghost st: State) returns (t: Token)
      requires Reading() && Ring() && FixedReady() && kind == 2 && copyLeng == 0
      requires 257 <= nl <= 286 && 1 <= nd <= 30 && nb <= 19
      requires Wf(st) && st == Outer().(s := st.s)
      modifies this`pos, this`bitBuf, this`bitLen, this`tl, this`bl, this`td, this`bd, this`ll, this`dl
      ensures Reading()
      ensures match ReadDynamic(st, old(In()), HeaderCounts(nl, nd, nb))
              case Halt(why) => (why == Bad && t == Invalid) || (why == Throw && t == NoTable)
              case Silent(b) => t == Copy && InCodes() && Abs() == b
              case Emit(_) => false
    {
      hide Fits, Remaining, RingOf, Kraft, Longest, Decodes, Skip, Peek, TablesFor, CodeLengths, ReadLengths, SkipEach,
           Wf, WfCodes, Bounded, Usable, OneTable, Ring, FixedReady, WrittenTo;
      var lens := new nat[316](i => 0);
      ghost var cl;
      t, cl := LengthTable(lens, nb);
      if t == Copy {
        var ok := CodeTables(lens, nl, nd, cl, st);
        t := if ok then Copy else Invalid;
      }
    }

    // The header of a block with dynamic codes.
    method DynamicTables() returns (t: Token)
      requires Reading() && Ring() && FixedReady() && kind == 2 && copyLeng == 0
      modifies this`pos, this`bitBuf, this`bitLen, this`tl, this`bl, this`td, this`bd, this`ll, this`dl
      ensures Wf(old(Outer()))
      ensures Reading()
      ensures match DynamicHeader(old(Outer()))
              case Halt(why) => (why == Bad && t == Invalid) || (why == Throw && t == NoTable)
              case Silent(b) => t == Copy && InCodes() && Abs() == b
              case Emit(_) => false
    {
      hide Fits, Remaining, RingOf, Skip, Peek, TablesFor, ReadDynamic, Wf, WrittenTo;
      ghost var st := Outer();
      OuterWf();
      var nl := TakeBits(5);
      nl := 257 + nl;
      var nd := TakeBits(5);
      nd := 1 + nd;
      var nb := TakeBits(4);
      nb := 4 + nb;
      assert ReadCounts(st.s) == HeaderCounts(nl, nd, nb);
      if nl > 286 || nd > 30 {
        return Invalid;
      }
      t := DynamicBody(nl, nd, nb, st);
    }

    // zip_inflate_dynamic.
    method InflateDynamic(buff: array<Byte>, off: nat, size: nat, ghost b0: seq<Byte>, ghost org: nat, ghost base: nat)
      returns (r: Outcome)
      requires Reading() && Ring() && FixedReady() && kind == 2 && copyLeng == 0
      requires buff != slide && size > 0 && off + size <= buff.Length
      requires Written(buff, b0, org, base) && off == org + (|hist| - base)
      modifies this, slide, buff
      ensures Reading() && Written(buff, b0, org, base)
      ensures Wf(old(Outer())) && DidAfter(DynamicHeader(old(Outer())), size, r)
      ensures r.Count? ==> off + r.n == org + (|hist| - base)
      ensures eof == old(eof) && data == old(data) && slide == old(slide)
    {
      hide RingOf, WrittenTo, Fits, TablesFor, Remaining, Did, Wf, DynamicHeader;
      var t := DynamicTables();
      if t == Invalid {
        return Fail;
      }
      if t == NoTable {
        return Thrown;
      }
      r := InflateCodes(buff, off, size, b0, org, base);
    }

    // ---- any block ----

    // The next block: its header, and as much of it as there is room for.
    method InflateBlock(buff: array<Byte>, off: nat, size: nat, ghost b0: seq<Byte>, ghost org: nat, ghost base: nat)
      returns (r: Outcome)
      requires Valid() && kind == -1 && !eof && buff != slide && size > 0 && off + size <= buff.Length
      requires Written(buff, b0, org, base) && off == org + (|hist| - base)
      modifies this, slide, buff
      ensures Reading() && Written(buff, b0, org, base)
      ensures Wf(old(Abs())) && DidAfter(Next(old(Abs())), size, r)
      ensures eof == BadIsLast(old(Abs()))
      ensures r.Count? ==> off + r.n == org + (|hist| - base)
      ensures data == old(data) && slide == old(slide)
    {
      hide RingOf, Ring, Written, FixedReady, WrittenTo, Fits, TablesFor, Remaining, Did, Wf, StoredHeader,
           DynamicHeader, FixedLL, FixedDL, Next, Skip, Peek;
      ValidWf();
      HeaderNext(Abs());
      ReadHeader();
      if kind == 0 {
        r := InflateStored(buff, off, size, b0, org, base);
      } else if kind == 1 {
        r := InflateFixed(buff, off, size, b0, org, base);
      } else if kind == 2 {
        r := InflateDynamic(buff, off, size, b0, org, base);
      } else {
        r := Fail;
      }
    }

    // Codes that were left off when the last buffer was full, or the next block.
    method GoOn(buff: array<Byte>, off: nat, size: nat, ghost b0: seq<Byte>, ghost org: nat, ghost base: nat)
      returns (r: Outcome)
      requires Valid() && copyLeng == 0 && !(kind == -1 && eof)
      requires buff != slide && size > 0 && off + size <= buff.Length
      requires Written(buff, b0, org, base) && off == org + (|hist| - base)
      modifies this, slide, buff
      ensures Reading() && Written(buff, b0, org, base)
      ensures Wf(old(Abs()))
      ensures if old(kind) == -1 then DidAfter(Next(old(Abs())), size, r) else Did(old(Abs()), size, r)
      ensures old(kind) == -1 ==> eof == BadIsLast(old(Abs()))
      ensures r.Count? ==> off + r.n == org + (|hist| - base)
      ensures data == old(data) && slide == old(slide)
    {
      hide RingOf, WrittenTo, Fits, TablesFor, Remaining, Did, Wf, Next;
      ValidWf();
      if kind == -1 {
        r := InflateBlock(buff, off, size, b0, org, base);
      } else {
        r := InflateCodes(buff, off, size, b0, org, base);
      }
    }

    // One turn of the loop of zip_inflate_internal.
    method Turn(buff: array<Byte>, off: nat, n0: nat, size: nat, ghost b0: seq<Byte>, ghost org: nat, ghost base: nat)
      returns (n: nat, r: Outcome)
      requires Valid() && !(kind == -1 && eof) && buff != slide && n0 < size && off + size <= buff.Length
      requires Written(buff, b0, org, base) && off + n0 == org + (|hist| - base)
      modifies this, slide, buff
      ensures Reading() && Written(buff, b0, org, base)
      ensures Wf(old(Abs()))
      ensures match r
              case Count(_) =>
                && Valid() && n0 <= n <= size && off + n == org + (|hist| - base)
                && Closer(old(Abs()), size - n0, Abs(), size - n)
              case Fail =>
                Ends(old(Abs()), size - n0) == Because(Bad) && eof == BadIsLast(Run(old(Abs()), size - n0))
              case Thrown => Ends(old(Abs()), size - n0) == Because(Throw)
      ensures data == old(data) && slide == old(slide)
    {
      hide Reaches, RingOf, WrittenTo, Fits, TablesFor, Remaining, Wf, Next, Ends, Run, Left, Closer, Written, Ring,
           FixedReady;
      ghost var a := Abs();
      n := Resume(buff, off, n0, size, b0, org, base);
      if n == size || (kind == -1 && eof) {
        CloserByBytes(a, size - n0, Abs(), size - n);
        return n, Count(n);
      }
      ghost var c, m := Abs(), size - n;
      var i := GoOn(buff, off + n, size - n, b0, org, base);
      if i.Count? {
        if c.block.NoBlock? {
          CloserByHeader(a, size - n0, c, m, Abs(), m - i.n);
        } else {
          CloserByBlock(a, size - n0, c, m, Abs(), m - i.n);
        }
        n := n + i.n;
        r := Count(n);
      } else {
        WentWrong(a, size - n0, c, m, i.Fail?, eof);
        r := i;
      }
    }

    // zip_inflate_internal: the next `size` bytes into buff[off..], or fewer at the end of the stream. For a
    // bad block the return value is 0 if it is the last one, and -1 if it is not.
    method InflateInternal(buff: array<Byte>, off: nat, size: nat) returns (r: Outcome)
      requires Valid() && buff != slide && off + size <= buff.Length
      modifies this, slide, buff
      ensures Wf(old(Abs())) && Reading()
      ensures var from := old(Abs());
              match Ends(from, size)
              case Because(Bad) => r == if BadIsLast(Run(from, size)) then Count(0) else Fail
              case Because(Throw) => r == Thrown
              case _ => Valid() && Abs() == Run(from, size) && r == Count(|hist| - |from.hist|)
                        && WrittenTo(buff[..], old(buff[..]), off, |from.hist|, hist)
      ensures data == old(data) && slide == old(slide)
    {
      hide Reaches, RingOf, WrittenTo, Fits, TablesFor, Remaining, Wf, Next, Ends, Run, Left, Rank, Closer, Ring,
           FixedReady;
      var n := 0;
      ghost var from, b0, base := Abs(), buff[..], |hist|;
      ValidWf();
      ReachesSelf(from, size);
      WrittenNothing(b0, off, hist);
      while n < size
        invariant Valid() && Wf(from) && Written(buff, b0, off, base) && n <= size && n == |hist| - base
        invariant Reaches(from, size, Abs(), size - n)
        invariant data == old(data) && slide == old(slide)
        decreases size - n, Left(Abs().s), Rank(Abs())
      {
        if eof && kind == -1 {
          break;
        }
        ghost var a, m := Abs(), n;
        var i;
        n, i := Turn(buff, off, n, size, b0, off, base);
        if !i.Count? {
          EndsAlike(from, size, a, size - m);
          return if i.Thrown? then Thrown else if eof then Count(0) else Fail;
        }
        CloserReaches(from, size, a, size - m, Abs(), size - n);
      }
      AtEnd(from, size, Abs(), size - n);
      return Count(n);
    }

    // The last-block bit and the kind of the block.
    method ReadHeader()
      requires Valid() && kind == -1 && !eof
      modifies this`pos, this`bitBuf, this`bitLen, this`eof, this`kind, this`tl, this`copyLeng
      ensures Reading() && Ring() && FixedReady() && copyLeng == 0 && tl == []
      ensures var st := old(Abs());
              kind == Peek(Skip(st.s, 1), 2) && Outer() == st.(s := Skip(Skip(st.s, 1), 2), last := Peek(st.s, 1) != 0)
    {
      hide RingOf, WrittenTo, Fits, TablesFor, Remaining, Skip, Peek;
      var x := TakeBits(1);
      if x != 0 {
        eof := true;
      }
      kind := TakeBits(2);
      tl := [];
      copyLeng := 0;
    }

    // What a copy or a stored block left over from the last buffer goes on with.
    method Resume(buff: array<Byte>, off: nat, n0: nat, size: nat, ghost b0: seq<Byte>, ghost org: nat, ghost base: nat)
      returns (n: nat)
      requires Valid() && buff != slide && n0 < size && off + size <= buff.Length
      requires Written(buff, b0, org, base) && off + n0 == org + (|hist| - base)
      modifies this`pos, this`bitBuf, this`bitLen, this`wp, this`hist, this`copyLeng, this`copyDist, this`kind, slide,
               buff
      ensures Valid() && Written(buff, b0, org, base) && n0 <= n <= size && off + n == org + (|hist| - base)
      ensures n == size || copyLeng == 0
      ensures if old(copyLeng) > 0 then n > n0 else n == n0 && kind == old(kind)
      ensures Wf(old(Abs())) && Reaches(old(Abs()), size - n0, Abs(), size - n)
    {
      hide Reaches, RingOf, WrittenTo, Fits, TablesFor, Remaining, Wf;
      ValidWf();
      ReachesSelf(Abs(), size - n0);
      n := n0;
      if copyLeng > 0 {
        if kind != 0 {
          n := CopyPending(buff, off, n, size, b0, org, base);
        } else {
          n := StoredPending(buff, off, n, size, b0, org, base);
        }
      }
    }
  }

  lemma EightsBounded(cl: seq<nat>)
    requires forall i :: 0 <= i < |cl| ==> cl[i] < 8
    ensures Bounded(cl) && Longest(cl) <= 7
  {
    assert Longest(cl) > 0 ==> Longest(cl) in cl;
  }

  lemma CoversFewer(al: Alphabet, n: nat, m: nat)
    requires n <= m && Covers(al, m)
    ensures Covers(al, n)
  {
  }

  method MoveDown(lens: array<nat>, nl: nat, nd: nat)
    requires nl + nd <= lens.Length && nd <= nl
    modifies lens
    ensures lens[..nd] == old(lens[nl..nl + nd])
  {
    var i := 0;
    while i < nd
      invariant 0 <= i <= nd
      invariant lens[..i] == old(lens[nl..nl + i]) && lens[nl..] == old(lens[nl..])
    {
      assert lens[i + nl] == old(lens[nl..])[i];
      lens[i] := lens[i + nl];
      i := i + 1;
    }
  }

  lemma SmallNone()
    ensures Small([])
  {
  }

  lemma SmallBounded(lens: seq<nat>, nl: nat)
    requires nl <= |lens| && Small(lens)
    ensures Bounded(lens[..nl]) && Bounded(lens[nl..])
  {
  }

  method FillRun(lens: array<nat>, i: nat, k: nat, v: nat)
    requires i + k <= lens.Length
    modifies lens
    ensures lens[..] == old(lens[..i]) + Repeat(v, k) + old(lens[i + k..])
  {
    var j, at := k, i;
    while j > 0
      invariant 0 <= j <= k && at == i + (k - j)
      invariant lens[..] == old(lens[..i]) + Repeat(v, k - j) + old(lens[at..])
    {
      j := j - 1;
      lens[at] := v;
      at := at + 1;
    }
  }

  // A single table, which decodes the code length code with lengths cl.
  ghost predicate OneTable(tl: seq<Table>, bl: nat, cl: seq<nat>) {
    && |cl| == 19 && |tl| == 1 && bl <= 7
    && Decodes(tl, bl, cl, LengthAlphabet())
  }

  lemma TableSymbol(tl: seq<Table>, bl: nat, cl: seq<nat>, x: int)
    requires OneTable(tl, bl, cl)
    ensures bl <= 7 && |tl| == 1 && Low(x, bl) < |tl[0]|
    ensures var t := tl[0][Low(x, bl)];
            t.b <= bl && t.n < 19 && LengthSymbol(cl, x) == Coded(t.n, t.b)
  {
    var t := tl[0][Low(x, bl)];
    assert LinkedAt(tl, t, 0);
    DropFits(t.b, bl);
    assert LeafOK(cl, LengthAlphabet(), Walk(tl, 0, bl, x), 0, x);
  }

  method FixedLengths() returns (l: array<nat>)
    ensures fresh(l) && l.Length == 288 && l[..] == FixedLL()
  {
    l := new nat[288](i => 0);
    var i := 0;
    while i < 144
      invariant 0 <= i <= 144 && forall s :: 0 <= s < i ==> l[s] == FixedLength(s)
    {
      l[i] := 8;
      i := i + 1;
    }
    while i < 256
      invariant 144 <= i <= 256 && forall s :: 0 <= s < i ==> l[s] == FixedLength(s)
    {
      l[i] := 9;
      i := i + 1;
    }
    while i < 280
      invariant 256 <= i <= 280 && forall s :: 0 <= s < i ==> l[s] == FixedLength(s)
    {
      l[i] := 7;
      i := i + 1;
    }
    while i < 288
      invariant 280 <= i <= 288 && forall s :: 0 <= s < i ==> l[s] == FixedLength(s)
    {
      l[i] := 8;
      i := i + 1;
    }
  }

  lemma FixedDLIs(l: seq<nat>)
    requires |l| == 30 && forall s :: 0 <= s < 30 ==> l[s] == 5
    ensures l == FixedDL()
  {
  }

  lemma FixedTables(tl: seq<Table>, bl: nat, td: seq<Table>, bd: nat)
    requires tl != [] && Decodes(tl, bl, FixedLL(), LiteralAlphabet()) && Decodes(td, bd, FixedDL(), DistanceAlphabet())
    ensures TablesFor(tl, bl, td, bd, FixedLL(), FixedDL())
  {
    hide Decodes, Longest;
    FixedKraft();
    FixedWf();
  }

  datatype Token = Literal(b: Byte) | BlockEnd | Copy | Invalid | NoTable

  function BlockOf(kind: int, copyLeng: nat, ll: seq<nat>, dl: seq<nat>): Block {
    if kind == -1 || (kind == 0 && copyLeng == 0) then NoBlock
    else if kind == 0 then Stored(copyLeng)
    else Codes(ll, dl)
  }

  lemma Phase(bitLen: nat, n: nat)
    ensures (bitLen - n) % 8 == (bitLen % 8 - n) % 8
  {
  }

}
