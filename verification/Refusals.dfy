// Where the decoder and RFC 1951 part: books of codes that the format allows and the program refuses, and
// bits that stand for nothing and that the program takes for a symbol.
module Refusals {
  import opened Bits
  import opened Canonical
  import opened Huffman
  import opened Deflate
  import opened Runs
  import opened BitStrings
  import opened RunLengths
  import opened Blocks
  import opened BitReader
  import Inflate

  // ---- Kraft sums of short codes ----

  // The share of a code of one bit, and that of two.
  lemma HalfAndHalf()
    ensures P2(17) == P2(16) + P2(16)
  {
  }

  lemma KraftNext(lens: seq<nat>, l: nat)
    requires l <= 1
    ensures Kraft(lens + [l]) == Kraft(lens) + if l == 1 then P2(16) else 0
    ensures Longest(lens + [l]) == if Longest(lens) >= l then Longest(lens) else l
  {
    hide P2;
    assert (lens + [l])[..|lens|] == lens;
  }

  lemma {:induction false} KraftZeros(lens: seq<nat>, k: nat)
    ensures Kraft(lens + Repeat(0, k)) == Kraft(lens)
    ensures Longest(lens + Repeat(0, k)) == Longest(lens)
  {
    hide Kraft, Longest, P2;
    if k == 0 {
      assert lens + Repeat(0, k) == lens;
    } else {
      KraftZeros(lens, k - 1);
      KraftNext(lens + Repeat(0, k - 1), 0);
      assert lens + Repeat(0, k) == lens + Repeat(0, k - 1) + [0];
    }
  }

  // With codes of one bit only, each has its share.
  lemma {:induction false} KraftOnes(lens: seq<nat>)
    requires Longest(lens) <= 1
    ensures Count(lens, 1) >= 1 ==> Kraft(lens) >= P2(16)
    ensures Count(lens, 1) >= 2 ==> Kraft(lens) >= P2(16) + P2(16)
  {
    hide Kraft, P2, Longest;
    if lens != [] {
      var m := |lens| - 1;
      var init, l := lens[..m], lens[m];
      assert lens == init + [l];
      KraftNext(init, l);
      KraftOnes(init);
      CountLast(init, l);
      hide Count;
    }
  }

  lemma CountLast(init: seq<nat>, l: nat)
    requires l <= 1
    ensures Count(init + [l], 1) == Count(init, 1) + l
  {
    CountInPrefix(init + [l], |init|, |init|, 1);
    assert (init + [l])[..|init|] == init;
  }

  // ---- a code with one symbol ----

  // Lengths that can be used and are not complete have a single code, of one bit. The bit 1 has no meaning;
  // in a table for code lengths it stands for the same symbol.
  lemma LoneCode(cl: seq<nat>) returns (v: nat)
    requires Usable(cl) && Longest(cl) > 0 && !Complete(cl)
    ensures v < |cl| && cl[v] == 1 && forall i :: 0 <= i < |cl| && i != v ==> cl[i] == 0
    ensures forall x :: Matches(cl, v, x) <==> x % 2 == 0
    ensures forall x :: LengthSymbol(cl, x) == Coded(v, 1)
  {
    hide Kraft, Longest, P2, LengthSymbol, Matches, Count, LastSymbol;
    v := LastSymbol(cl);
    FewCodes(cl);
    forall i | 0 <= i < |cl| && i != v
      ensures cl[i] == 0
    {
      OnlyOne(cl, v, i);
    }
    forall x
      ensures Matches(cl, v, x) <==> x % 2 == 0
      ensures LengthSymbol(cl, x) == Coded(v, 1)
    {
      LoneMeaning(cl, v, x);
    }
  }

  lemma FewCodes(cl: seq<nat>)
    requires Usable(cl) && Longest(cl) > 0 && !Complete(cl)
    ensures Longest(cl) == 1 && Count(cl, 1) < 2
  {
    hide Kraft, Longest, Count, P2;
    HalfAndHalf();
    KraftOnes(cl);
  }

  lemma LoneMeaning(cl: seq<nat>, v: nat, x: int)
    requires v < |cl| && cl[v] == 1 && (forall i :: 0 <= i < |cl| && i != v ==> cl[i] == 0)
    requires Longest(cl) == 1 && v == LastSymbol(cl)
    ensures Matches(cl, v, x) <==> x % 2 == 0
    ensures LengthSymbol(cl, x) == Coded(v, 1)
  {
    hide Longest, LastSymbol, Msb;
    OneBit(x);
    CountNone(cl, v, 1);
  }

  lemma OnlyOne(cl: seq<nat>, v: nat, i: nat)
    requires v < |cl| && i < |cl| && i != v && cl[v] == 1 && cl[i] <= 1 && Count(cl, 1) < 2
    ensures cl[i] == 0
  {
    if cl[i] == 1 {
      var a, b := if i < v then i else v, if i < v then v else i;
      CountInMono(cl, a, b, 1);
      CountInMono(cl, b, |cl|, 1);
    }
  }

  lemma OneBit(x: int)
    ensures Msb(x, 1) == x % 2
  {
    assert P2(0) == 1;
  }

  // Every stream begins with a code exactly if the lengths are complete: of those that can be used, if there
  // is more than one code.
  lemma AllMeanSomething(cl: seq<nat>)
    requires Usable(cl) && Longest(cl) > 0 && Bounded(cl)
    ensures (forall x :: !NoMatch(cl, x)) <==> Complete(cl)
  {
    if Complete(cl) {
      forall x
        ensures !NoMatch(cl, x)
      {
        var s := CompleteMatches(cl, x);
      }
    } else {
      var v := LoneCode(cl);
      assert NoMatch(cl, 1) by {
        forall s
          ensures !Matches(cl, s, 1)
        {
          assert !Matches(cl, v, 1);
        }
      }
    }
  }

  // ---- a book that is refused ----

  // Two literal/length codes, for a byte and for the end of the block, and one more length that is not used;
  // no distance code. Section 3.2.7 allows it, and the program refuses it.
  lemma RefusedBook() returns (b: Codebook, st: State)
    ensures Written(b) && |b.ll| == 258 && Complete(b.ll) && b.dl == [0] && !Accepted(b)
    ensures Wf(st) && st.block.NoBlock? && Begins(st.s, BookBits(b)) && DynamicHeader(st) == Halt(Bad)
  {
    hide BookBits, DynamicHeader, Begins, Written, Accepted, Complete;
    b := Refused();
    RefusedWritten();
    BookBitsWf(b);
    st := State(Stream(BookBits(b).v, 0), Repeat(0, WSIZE), NoBlock, false, 0, 0);
    BeginsItself(BookBits(b));
    BookRead(st, b);
  }

  function Refused(): Codebook {
    var ll, dl := [1] + Repeat(0, 255) + [1] + [0], [0];
    Codebook(ll, dl, [1, 1] + Repeat(0, 17), 18, seq(259, i requires 0 <= i < 259 => Len((ll + dl)[i])))
  }

  lemma RefusedWritten()
    ensures var b := Refused(); Written(b) && |b.ll| == 258 && Complete(b.ll) && b.dl == [0] && !Accepted(b)
  {
    hide Kraft, Longest, OpsLengths, P2, WfLengthCode;
    var b := Refused();
    var all := b.ll + b.dl;
    TwoCodes();
    OneByOneLengths([], all);
    assert [] + all == all && b.ops == OneByOne(all);
    ShortCode(b.cl);
    forall i | 0 <= i < |b.ops|
      ensures OpCoded(b.cl, b.ops[i])
    {
      assert all[i] <= 1;
    }
  }

  lemma TwoCodes()
    ensures Kraft([1] + Repeat(0, 255) + [1] + [0]) == P2(17)
    ensures Kraft([1, 1] + Repeat(0, 17)) == P2(17) && Longest([1, 1] + Repeat(0, 17)) == 1
    ensures Longest([0]) == 0
  {
    hide Kraft, Longest, P2, Repeat;
    HalfAndHalf();
    ShortCodes();
    KraftZeros([1], 255);
    KraftNext([1] + Repeat(0, 255), 1);
    KraftNext([1] + Repeat(0, 255) + [1], 0);
    KraftZeros([1, 1], 17);
  }

  lemma ShortCodes()
    ensures Kraft([1]) == P2(16) && Kraft([1, 1]) == P2(16) + P2(16)
    ensures Longest([1]) == Longest([1, 1]) == 1 && Longest([0]) == 0
  {
    hide Kraft, Longest, P2;
    FirstCode(0);
    FirstCode(1);
    KraftNext([1], 1);
    assert [1] + [1] == [1, 1];
  }

  lemma FirstCode(l: nat)
    requires l <= 1
    ensures Kraft([l]) == (if l == 1 then P2(16) else 0) && Longest([l]) == l
  {
    hide Kraft, Longest, P2;
    NoCodes();
    KraftNext([], l);
    assert [] + [l] == [l];
  }

  lemma NoCodes()
    ensures Kraft([]) == 0 && Longest([]) == 0
  {
  }

  lemma ShortCode(cl: seq<nat>)
    requires cl == [1, 1] + Repeat(0, 17) && Complete(cl) && Longest(cl) == 1
    ensures WfLengthCode(cl, 18)
  {
    hide Kraft, Longest, P2;
    assert FieldSymbol(18) == 15;
  }

  lemma BeginsItself(b: BitString)
    requires WfBits(b)
    ensures Begins(Stream(b.v, 0), b)
  {
    LowSmall(b.v, b.n);
  }

  // ---- bad blocks ----

  // Data whose first block is of the kind that is reserved.
  lemma ReservedKind(b: Byte, hist: seq<Byte>)
    requires (b == 6 || b == 7) && |hist| >= WSIZE
    ensures var st := State(Stream(Rest([b], 0), 0), hist, NoBlock, false, 0, 0);
            && Wf(st) && Run(st, 1) == st && Ends(st, 1) == Because(Bad)
            && (BadIsLast(st) <==> b == 7)
  {
    var st := State(Stream(Rest([b], 0), 0), hist, NoBlock, false, 0, 0);
    RestOfOne(b);
    var x := Rest([b], 0);
    assert P2(1) == 2 && P2(2) == 4;
    assert Peek(st.s, 1) == x % 2 && Skip(st.s, 1).rest == x / 2 && Peek(Skip(st.s, 1), 2) == x / 2 % 4 == 3;
    HeaderNext(st);
    HaltEnds(st, 1);
  }

  lemma RestOfOne(b: Byte)
    ensures Rest([b], 0) == b - 256
  {
    P2Values();
    assert Rest([b], 1) == -1;
  }

  // The same bad block as the last one, and as one that is not: the program returns 0, as at the end of the
  // data, and -1.
  method BadBlocks() returns (last: Inflate.Outcome, other: Inflate.Outcome)
    ensures last == Inflate.Count(0) && other == Inflate.Fail
  {
    last := FirstBlock(7);
    other := FirstBlock(6);
  }

  // Inflates data of a single byte into a buffer of one byte.
  method FirstBlock(b: Byte) returns (r: Inflate.Outcome)
    requires b == 6 || b == 7
    ensures r == if b == 7 then Inflate.Count(0) else Inflate.Fail
  {
    hide Rest, Run, Ends, Wf, BadIsLast, Inflate.Inflater.FixedReady, Inflate.Inflater.Ring, Inflate.Inflater.Tables;
    var inflater := new Inflate.Inflater();
    inflater.Start([b], 0);
    ghost var hist := inflater.slide[..WSIZE];
    ReservedKind(b, hist);
    var buff := new Byte[1];
    r := inflater.InflateInternal(buff, 0, 1);
  }
}
