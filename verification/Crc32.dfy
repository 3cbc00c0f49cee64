// CRC-32 (section 8 of RFC 1952): the table-driven form of gzip.js, and the division of polynomials over
// GF(2), bit by bit, that it stands for.
module Crc32 {
  import opened Deflate

  const POLY: bv32 := 0xEDB88320
  const ONES: bv32 := 0xFFFFFFFF

  function Xor(a: bv32, b: bv32): bv32 {
    a ^ b
  }

  function Odd(a: bv32): bool {
    a & 1 == 1
  }

  function Half(a: bv32): bv32 {
    a >> 1
  }

  // ---- division, one bit at a time ----

  // The remainder times x, reduced: coefficients are held with the highest power in the lowest bit.
  function Times(r: bv32): bv32 {
    if Odd(r) then Xor(Half(r), POLY) else Half(r)
  }

  function TimesN(r: bv32, n: nat): bv32
    decreases n
  {
    if n == 0 then r else TimesN(Times(r), n - 1)
  }

  // Takes in the next bit of the message.
  function TakeBit(r: bv32, bit: bool): bv32 {
    Times(Xor(r, if bit then 1 else 0))
  }

  function TakeBits(r: bv32, bits: seq<bool>): bv32
    decreases |bits|
  {
    if bits == [] then r else TakeBits(TakeBit(r, bits[0]), bits[1..])
  }

  // A byte as a word.
  function Word(b: Byte): bv32 {
    (b as bv8) as bv32
  }

  // The lowest n bits, the lowest first.
  function WordBits(w: bv32, n: nat): (bits: seq<bool>)
    ensures |bits| == n
  {
    if n == 0 then [] else [Odd(w)] + WordBits(Half(w), n - 1)
  }

  // The bits of a message, in the order of transmission.
  function MessageBits(s: seq<Byte>): seq<bool> {
    if s == [] then [] else WordBits(Word(s[0]), 8) + MessageBits(s[1..])
  }

  // The CRC of what `crc` is the CRC of, followed by s.
  function Crc(s: seq<Byte>, crc: bv32): bv32 {
    Xor(TakeBits(Xor(crc, ONES), MessageBits(s)), ONES)
  }

  // The CRC as a number.
  function Number(crc: bv32): (r: nat)
    ensures r < 0x1_0000_0000
  {
    crc as int
  }

  // ---- words under xor ----

  lemma XorAssoc(a: bv32, b: bv32, c: bv32)
    ensures Xor(a, Xor(b, c)) == Xor(Xor(a, b), c)
  {
  }

  lemma XorComm(a: bv32, b: bv32)
    ensures Xor(a, b) == Xor(b, a)
  {
  }

  lemma XorRules(a: bv32, b: bv32, c: bv32)
    ensures Xor(Xor(a, c), b) == Xor(Xor(a, b), c)
    ensures Xor(a, Xor(b, c)) == Xor(Xor(a, b), c)
  {
    hide Xor;
    XorAssoc(a, c, b);
    XorComm(c, b);
    XorAssoc(a, b, c);
  }

  lemma XorCancel(a: bv32, b: bv32)
    ensures Xor(Xor(a, b), b) == a
    ensures Xor(a, 0) == a
  {
  }

  lemma XorXor(a: bv32, b: bv32, c: bv32)
    ensures Xor(Xor(a, c), Xor(b, c)) == Xor(a, b)
  {
    hide Xor;
    XorRules(Xor(a, c), b, c);
    XorRules(a, b, c);
    XorCancel(Xor(a, b), c);
  }

  lemma HalfXor(a: bv32, b: bv32)
    ensures Half(Xor(a, b)) == Xor(Half(a), Half(b))
    ensures Odd(Xor(a, b)) <==> Odd(a) != Odd(b)
  {
  }

  lemma TimesLinear(a: bv32, b: bv32)
    ensures Times(Xor(a, b)) == Xor(Times(a), Times(b))
  {
    hide Xor, Half, Odd;
    HalfXor(a, b);
    XorRules(Half(a), Half(b), POLY);
    XorXor(Half(a), Half(b), POLY);
  }

  lemma {:induction false} TimesNLinear(a: bv32, b: bv32, n: nat)
    ensures TimesN(Xor(a, b), n) == Xor(TimesN(a, n), TimesN(b, n))
    decreases n
  {
    hide Xor, Times;
    if n > 0 {
      TimesLinear(a, b);
      TimesNLinear(Times(a), Times(b), n - 1);
    }
  }

  lemma TimesInjective(a: bv32, b: bv32)
    requires Times(a) == Times(b)
    ensures a == b
  {
  }

  lemma {:induction false} TimesNInjective(a: bv32, b: bv32, n: nat)
    requires TimesN(a, n) == TimesN(b, n)
    ensures a == b
    decreases n
  {
    hide Times;
    if n > 0 {
      TimesNInjective(Times(a), Times(b), n - 1);
      TimesInjective(a, b);
    }
  }

  // ---- many bits at a time ----

  function HalfN(w: bv32, n: nat): bv32
    decreases n
  {
    if n == 0 then w else HalfN(Half(w), n - 1)
  }

  lemma TakeLow(r: bv32, w: bv32)
    ensures Xor(TakeBit(r, Odd(w)), Half(w)) == Times(Xor(r, w))
  {
    var low: bv32 := if Odd(w) then 1 else 0;
    var high := Xor(w, low);
    LowBit(w);
    hide Xor, Odd, Half;
    TimesLinear(Xor(r, low), high);
    XorRules(r, low, w);
    XorRules(Xor(r, low), w, low);
    XorXor(r, w, low);
    XorRules(r, w, low);
    XorCancel(Xor(r, w), low);
  }

  lemma LowBit(w: bv32)
    ensures !Odd(Xor(w, if Odd(w) then 1 else 0))
    ensures Half(Xor(w, if Odd(w) then 1 else 0)) == Half(w)
  {
  }

  // Taking in n bits one by one is adding them as a word and multiplying by the n-th power of x.
  lemma {:induction false} TakeWord(r: bv32, w: bv32, n: nat)
    requires HalfN(w, n) == 0
    ensures TakeBits(r, WordBits(w, n)) == TimesN(Xor(r, w), n)
    decreases n
  {
    hide Xor, Times, Odd, Half, TakeBit;
    if n == 0 {
      XorCancel(r, w);
    } else {
      TakeWord(TakeBit(r, Odd(w)), Half(w), n - 1);
      TakeLow(r, w);
    }
  }

  // ---- eight bits at a time, by table ----

  function LowByte(w: bv32): bv32 {
    w & 0xFF
  }

  function DropByte(w: bv32): bv32 {
    w >> 8
  }

  predicate LowZero(w: bv32, n: nat)
    decreases n
  {
    n == 0 || (!Odd(w) && LowZero(Half(w), n - 1))
  }

  lemma {:induction false} TimesNotReduced(w: bv32, n: nat)
    requires LowZero(w, n)
    ensures TimesN(w, n) == HalfN(w, n)
    decreases n
  {
    hide Xor, Odd, Half;
    if n > 0 {
      TimesNotReduced(Half(w), n - 1);
    }
  }

  function ClearByte(w: bv32): bv32 {
    w & 0xFFFFFF00
  }

  lemma ByteAndRest(w: bv32)
    ensures w == Xor(ClearByte(w), LowByte(w))
  {
  }

  lemma DropCleared(w: bv32)
    ensures HalfN(ClearByte(w), 8) == DropByte(w)
  {
  }

  lemma ClearedZero(w: bv32)
    ensures LowZero(ClearByte(w), 8)
  {
  }

  // Division eight bits at a time needs the remainders of the 256 bytes only.
  lemma Times8(w: bv32)
    ensures TimesN(w, 8) == Xor(DropByte(w), TimesN(LowByte(w), 8))
  {
    hide Xor, Times, TimesN, HalfN, LowZero, LowByte, ClearByte, DropByte;
    ByteAndRest(w);
    DropCleared(w);
    ClearedZero(w);
    TimesNotReduced(ClearByte(w), 8);
    TimesNLinear(ClearByte(w), LowByte(w), 8);
  }

  lemma WordFits(b: Byte)
    ensures HalfN(Word(b), 8) == 0
  {
  }

  lemma TakeByte(r: bv32, b: Byte)
    ensures TakeBits(r, WordBits(Word(b), 8)) == Xor(DropByte(r), TimesN(LowByte(Xor(r, Word(b))), 8))
  {
    hide Xor, Times, TimesN, HalfN, LowByte, DropByte, WordBits, TakeBits, Word;
    WordFits(b);
    TakeWord(r, Word(b), 8);
    Times8(Xor(r, Word(b)));
    DropWord(r, b);
  }

  lemma DropWord(r: bv32, b: Byte)
    ensures DropByte(Xor(r, Word(b))) == DropByte(r)
  {
  }

  // The table: the remainder of each byte.
  function Entry(n: bv32): bv32 {
    TimesN(n, 8)
  }

  function Update(r: bv32, b: Byte): bv32 {
    Xor(DropByte(r), Entry(LowByte(Xor(r, Word(b)))))
  }

  // ---- the entries of the table ----

  lemma {:induction false} TimesLate(r: bv32, n: nat)
    ensures TimesN(Times(r), n) == Times(TimesN(r, n))
    decreases n
  {
    hide Times;
    if n > 0 {
      TimesLate(Times(r), n - 1);
    }
  }

  // The remainder of half a byte is one step further on.
  lemma EntryHalf(n: bv32, half: bv32)
    requires Times(n) == half
    ensures Entry(half) == Times(Entry(n))
  {
    hide Times, TimesN;
    TimesLate(n, 8);
  }

  lemma Entry128()
    ensures Entry(128) == 0xEDB88320
  {
    assert TimesN(128, 8) == TimesN(64, 7) == TimesN(32, 6) == TimesN(16, 5) == TimesN(8, 4);
    assert TimesN(8, 4) == TimesN(4, 3) == TimesN(2, 2) == TimesN(1, 1) == TimesN(0xEDB88320, 0);
  }

  // The entries of the eight bits, which are those of the program.
  lemma BasisEntries()
    ensures Entry(128) == 0xEDB88320 && Entry(64) == 0x76DC4190
    ensures Entry(32) == 0x3B6E20C8 && Entry(16) == 0x1DB71064
    ensures Entry(8) == 0x0EDB8832 && Entry(4) == 0x076DC419
    ensures Entry(2) == 0xEE0E612C && Entry(1) == 0x77073096
  {
    hide Entry;
    Entry128();
    EntryHalf(128, 64);
    EntryHalf(64, 32);
    EntryHalf(32, 16);
    EntryHalf(16, 8);
    EntryHalf(8, 4);
    EntryHalf(4, 2);
    EntryHalf(2, 1);
  }

  lemma EntryXor(a: bv32, b: bv32)
    ensures Entry(Xor(a, b)) == Xor(Entry(a), Entry(b))
  {
    hide Xor, TimesN;
    TimesNLinear(a, b, 8);
  }

  // The sum of those of four words that the lowest bits of k ask for.
  function Sum(k: bv32, x: bv32, y: bv32, z: bv32, u: bv32): bv32 {
    Xor(Xor(if k & 1 == 1 then x else 0, if k & 2 == 2 then y else 0),
        Xor(if k & 4 == 4 then z else 0, if k & 8 == 8 then u else 0))
  }

  lemma EntryOfNone()
    ensures Entry(0) == 0
  {
    hide Entry, Xor;
    EntryXor(0, 0);
    XorSelf(0);
    XorSelf(Entry(0));
  }

  lemma XorSelf(a: bv32)
    ensures Xor(a, a) == 0
  {
  }

  lemma EntrySum(k: bv32, x: bv32, y: bv32, z: bv32, u: bv32)
    ensures Entry(Sum(k, x, y, z, u)) == Sum(k, Entry(x), Entry(y), Entry(z), Entry(u))
  {
    hide Entry, Xor;
    EntryOfNone();
    var x1 := if k & 1 == 1 then x else 0;
    var y1 := if k & 2 == 2 then y else 0;
    var z1 := if k & 4 == 4 then z else 0;
    var u1 := if k & 8 == 8 then u else 0;
    EntryXor(x1, y1);
    EntryXor(z1, u1);
    EntryXor(Xor(x1, y1), Xor(z1, u1));
  }

  lemma NibbleSum(k: bv32)
    requires k < 16
    ensures k == Sum(k, 1, 2, 4, 8) && k << 4 == Sum(k, 16, 32, 64, 128)
  {
  }

  lemma Halves(n: bv32)
    requires n < 256
    ensures n >> 4 < 16 && n & 15 < 16
    ensures n == Xor((n >> 4) << 4, n & 15)
  {
  }

  // The entries of the lower and of the upper halves of bytes.
  function LowSum(l: bv32): bv32 {
    Sum(l, 0x77073096, 0xEE0E612C, 0x076DC419, 0x0EDB8832)
  }

  function HighSum(h: bv32): bv32 {
    Sum(h, 0x1DB71064, 0x3B6E20C8, 0x76DC4190, 0xEDB88320)
  }

  // They fix all 256: the entry of a byte is the sum of those of its bits.
  lemma EntryIsSum(n: bv32)
    requires n < 256
    ensures Entry(n) == Xor(HighSum(n >> 4), LowSum(n & 15))
  {
    hide Entry, Xor, Sum;
    BasisEntries();
    Halves(n);
    NibbleSum(n >> 4);
    NibbleSum(n & 15);
    EntrySum(n >> 4, 16, 32, 64, 128);
    EntrySum(n & 15, 1, 2, 4, 8);
    EntryXor(Sum(n >> 4, 16, 32, 64, 128), Sum(n & 15, 1, 2, 4, 8));
  }

  // The bytes of s from `start` on, `length` of them at most, taken in by way of the table.
  method Crc32(s: seq<Byte>, start: nat, length: nat, crc: bv32) returns (r: bv32)
    requires start <= |s|
    ensures r == Crc(if start + length < |s| then s[start..start + length] else s[start..], crc)
  {
    hide Xor, Update, TakeBits, MessageBits;
    r := Xor(crc, ONES);
    var end := if |s| < start + length then |s| else start + length;
    var i := start;
    assert s[start..start] == [];
    NoBits(r);
    while i < end
      invariant start <= i <= end
      invariant r == TakeBits(Xor(crc, ONES), MessageBits(s[start..i]))
    {
      TakeNext(Xor(crc, ONES), s[start..i], s[i]);
      assert s[start..i + 1] == s[start..i] + [s[i]];
      r := Update(r, s[i]);
      i := i + 1;
    }
    r := Xor(r, ONES);
    assert start + length >= |s| ==> s[start..end] == s[start..];
  }

  lemma NoBits(r: bv32)
    ensures TakeBits(r, MessageBits([])) == r
  {
  }

  lemma CrcNothing(crc: bv32)
    ensures Crc([], crc) == crc
  {
    hide Xor;
    NoBits(Xor(crc, ONES));
    XorCancel(crc, ONES);
  }

  lemma {:induction false} TakeAppend(r: bv32, p: seq<bool>, q: seq<bool>)
    ensures TakeBits(r, p + q) == TakeBits(TakeBits(r, p), q)
    decreases |p|
  {
    hide TakeBit;
    if p == [] {
      assert p + q == q;
    } else {
      assert (p + q)[1..] == p[1..] + q;
      TakeAppend(TakeBit(r, p[0]), p[1..], q);
    }
  }

  lemma {:induction false} MessageAppend(s: seq<Byte>, t: seq<Byte>)
    ensures MessageBits(s + t) == MessageBits(s) + MessageBits(t)
  {
    hide WordBits, Word;
    if s == [] {
      assert s + t == t;
    } else {
      assert (s + t)[1..] == s[1..] + t;
      MessageAppend(s[1..], t);
      var b := WordBits(Word(s[0]), 8);
      assert b + (MessageBits(s[1..]) + MessageBits(t)) == (b + MessageBits(s[1..])) + MessageBits(t);
    }
  }

  lemma TakeNext(r: bv32, s: seq<Byte>, b: Byte)
    ensures TakeBits(r, MessageBits(s + [b])) == Update(TakeBits(r, MessageBits(s)), b)
  {
    hide Xor, TakeBits, WordBits, Word, LowByte, DropByte, TimesN;
    MessageAppend(s, [b]);
    assert [b][1..] == [] && MessageBits([]) == [];
    assert MessageBits([b]) == WordBits(Word(b), 8) + [] == WordBits(Word(b), 8);
    TakeAppend(r, MessageBits(s), MessageBits([b]));
    TakeByte(TakeBits(r, MessageBits(s)), b);
  }

  // One step of the loop, by the entries of the bits.
  function Next(r: bv32, b: bv32): bv32 {
    var n := LowByte(Xor(r, b));
    Xor(DropByte(r), Xor(HighSum(n >> 4), LowSum(n & 15)))
  }

  lemma ByteIsLow(w: bv32)
    ensures LowByte(w) < 256
  {
  }

  lemma CrcNext(r: bv32, s: seq<Byte>, b: Byte, t: seq<Byte>, w: bv32, next: bv32)
    requires t == s + [b]
    requires TakeBits(ONES, MessageBits(s)) == r
    requires Word(b) == w && next == Next(r, w)
    ensures TakeBits(ONES, MessageBits(t)) == next
  {
    hide Xor, TakeBits, MessageBits, DropByte, HighSum, LowSum, Entry, Word;
    ByteIsLow(Xor(r, w));
    TakeNext(ONES, s, b);
    EntryIsSum(LowByte(Xor(r, w)));
  }

  lemma Next123()
    ensures Next(ONES, 49) == 0x7C231048 && Next(0x7C231048, 50) == 0xB0ACBB32
    ensures Next(0xB0ACBB32, 51) == 0x77B79C2D
  {
  }

  lemma Next456()
    ensures Next(0x77B79C2D, 52) == 0x641C1F5C && Next(0x641C1F5C, 53) == 0x340AC5E3
    ensures Next(0x340AC5E3, 54) == 0xF68D2C9E
  {
  }

  lemma Next789()
    ensures Next(0xF68D2C9E, 55) == 0xAFFC9660 && Next(0xAFFC9660, 56) == 0x651F2550
    ensures Next(0x651F2550, 57) == 0x340BC6D9
  {
  }

  lemma Digits()
    ensures Word(49) == 49 && Word(50) == 50 && Word(51) == 51
    ensures Word(52) == 52 && Word(53) == 53 && Word(54) == 54
    ensures Word(55) == 55 && Word(56) == 56 && Word(57) == 57
  {
  }

  lemma Ones()
    ensures Xor(0, ONES) == 0xFFFF_FFFF && Xor(0x340BC6D9, ONES) == 0xCBF43926
  {
  }

  // The check value: the CRC of the characters 1 to 9.
  lemma CheckValue()
    ensures Crc([49, 50, 51, 52, 53, 54, 55, 56, 57], 0) == 0xCBF43926
  {
    hide Xor, TakeBits, MessageBits, Next, Word;
    Digits();
    Next123();
    Next456();
    Next789();
    Ones();
    NoBits(ONES);
    CrcNext(ONES, [], 49, [49], 49, 0x7C231048);
    CrcNext(0x7C231048, [49], 50, [49, 50], 50, 0xB0ACBB32);
    CrcNext(0xB0ACBB32, [49, 50], 51, [49, 50, 51], 51, 0x77B79C2D);
    CrcNext(0x77B79C2D, [49, 50, 51], 52, [49, 50, 51, 52], 52, 0x641C1F5C);
    CrcNext(0x641C1F5C, [49, 50, 51, 52], 53, [49, 50, 51, 52, 53], 53, 0x340AC5E3);
    CrcNext(0x340AC5E3, [49, 50, 51, 52, 53], 54, [49, 50, 51, 52, 53, 54], 54, 0xF68D2C9E);
    CrcNext(0xF68D2C9E, [49, 50, 51, 52, 53, 54], 55, [49, 50, 51, 52, 53, 54, 55], 55, 0xAFFC9660);
    CrcNext(0xAFFC9660, [49, 50, 51, 52, 53, 54, 55], 56, [49, 50, 51, 52, 53, 54, 55, 56], 56, 0x651F2550);
    CrcNext(0x651F2550, [49, 50, 51, 52, 53, 54, 55, 56], 57, [49, 50, 51, 52, 53, 54, 55, 56, 57], 57, 0x340BC6D9);
  }

  lemma NextZero()
    ensures Next(ONES, 0x9d) == 0xA343FF8B && Next(0xA343FF8B, 0x0a) == 0x9A1CF049
    ensures Next(0x9A1CF049, 0xd9) == 0xF0958FB4 && Next(0xF0958FB4, 0x6d) == ONES
    ensures Xor(ONES, ONES) == 0
  {
  }

  lemma FourBytes()
    ensures Word(0x9d) == 0x9d && Word(0x0a) == 0x0a && Word(0xd9) == 0xd9 && Word(0x6d) == 0x6d
  {
  }

  // A message that is not empty and has the CRC zero.
  lemma ZeroValue()
    ensures Crc([0x9d, 0x0a, 0xd9, 0x6d], 0) == 0
  {
    hide Xor, TakeBits, MessageBits, Next, Word;
    FourBytes();
    NextZero();
    Ones();
    NoBits(ONES);
    CrcNext(ONES, [], 0x9d, [0x9d], 0x9d, 0xA343FF8B);
    CrcNext(0xA343FF8B, [0x9d], 0x0a, [0x9d, 0x0a], 0x0a, 0x9A1CF049);
    CrcNext(0x9A1CF049, [0x9d, 0x0a], 0xd9, [0x9d, 0x0a, 0xd9], 0xd9, 0xF0958FB4);
    CrcNext(0xF0958FB4, [0x9d, 0x0a, 0xd9], 0x6d, [0x9d, 0x0a, 0xd9, 0x6d], 0x6d, ONES);
  }

  // Chaining: going on from the CRC of s gives the CRC of the whole.
  lemma CrcChain(s: seq<Byte>, t: seq<Byte>, crc: bv32)
    ensures Crc(t, Crc(s, crc)) == Crc(s + t, crc)
  {
    hide Xor, TakeBits, MessageBits;
    var r := TakeBits(Xor(crc, ONES), MessageBits(s));
    XorCancel(r, ONES);
    MessageAppend(s, t);
    TakeAppend(Xor(crc, ONES), MessageBits(s), MessageBits(t));
  }

  // ---- what it detects ----

  lemma {:induction false} HalfSum(w: bv32, m: nat, n: nat)
    ensures HalfN(HalfN(w, m), n) == HalfN(w, m + n)
    decreases m
  {
    hide Half;
    if m > 0 {
      HalfSum(Half(w), m - 1, n);
    }
  }

  lemma {:induction false} HalfZero(n: nat)
    ensures HalfN(0, n) == 0
  {
    if n > 0 {
      HalfZero(n - 1);
    }
  }

  lemma Half2(w: bv32)
    ensures HalfN(w, 1) == w >> 1 && HalfN(w, 2) == w >> 2
  {
    HalfUnfold(w);
    hide HalfN;
    assert Half(w) == w >> 1;
  }

  lemma HalfUnfold(w: bv32)
    ensures HalfN(w, 1) == Half(w) && HalfN(w, 2) == Half(Half(w))
  {
    hide Half;
  }

  lemma Half4(w: bv32)
    ensures HalfN(w, 4) == w >> 4
  {
    hide HalfN;
    Half2(w);
    Half2(w >> 2);
    HalfSum(w, 2, 2);
  }

  lemma Half8(w: bv32)
    ensures HalfN(w, 8) == w >> 8
  {
    hide HalfN;
    Half4(w);
    Half4(w >> 4);
    HalfSum(w, 4, 4);
  }

  lemma Half16(w: bv32)
    ensures HalfN(w, 16) == w >> 16
  {
    hide HalfN;
    Half8(w);
    Half8(w >> 8);
    HalfSum(w, 8, 8);
  }

  lemma Half30(w: bv32)
    ensures HalfN(w, 30) == w >> 30
  {
    hide HalfN;
    Half16(w);
    Half8(w >> 16);
    Half4(w >> 24);
    Half2(w >> 28);
    HalfSum(w, 16, 8);
    HalfSum(w, 24, 4);
    HalfSum(w, 28, 2);
  }

  lemma Half31(w: bv32)
    ensures HalfN(w, 31) == w >> 31
  {
    hide HalfN;
    Half30(w);
    Half2(w >> 30);
    HalfSum(w, 30, 1);
  }

  function BitsWord(p: seq<bool>): bv32 {
    if p == [] then 0 else Double(BitsWord(p[1..]), p[0])
  }

  function Double(w: bv32, bit: bool): bv32 {
    (w << 1) | (if bit then 1 else 0)
  }

  lemma DoubleHalf(w: bv32, bit: bool)
    requires w >> 31 == 0
    ensures Half(Double(w, bit)) == w && (Odd(Double(w, bit)) <==> bit)
  {
  }

  // Up to 32 bits are the bits of a word.
  lemma {:induction false} BitsFit(p: seq<bool>)
    requires |p| <= 32
    ensures HalfN(BitsWord(p), |p|) == 0 && WordBits(BitsWord(p), |p|) == p
  {
    hide Double, Half, Odd;
    if p != [] {
      var w, n := BitsWord(p[1..]), |p| - 1;
      BitsFit(p[1..]);
      HalfSum(w, n, 31 - n);
      HalfZero(31 - n);
      Half31(w);
      DoubleHalf(w, p[0]);
    }
  }

  lemma {:induction false} TakeInjective(r: bv32, s: bv32, p: seq<bool>)
    requires TakeBits(r, p) == TakeBits(s, p)
    ensures r == s
    decreases |p|
  {
    hide Xor, Times;
    if p != [] {
      var bit: bv32 := if p[0] then 1 else 0;
      TakeInjective(TakeBit(r, p[0]), TakeBit(s, p[0]), p[1..]);
      TimesInjective(Xor(r, bit), Xor(s, bit));
      XorCancel(r, bit);
      XorCancel(s, bit);
    }
  }

  lemma BurstTaken(r: bv32, p: seq<bool>, q: seq<bool>)
    requires |p| == |q| <= 32 && TakeBits(r, p) == TakeBits(r, q)
    ensures p == q
  {
    hide Xor, TakeBits, WordBits, TimesN, HalfN;
    var v, w := BitsWord(p), BitsWord(q);
    BitsFit(p);
    BitsFit(q);
    TakeWord(r, v, |p|);
    TakeWord(r, w, |p|);
    TimesNInjective(Xor(r, v), Xor(r, w), |p|);
    XorSame(r, v, w);
  }

  lemma XorSame(r: bv32, v: bv32, w: bv32)
    requires Xor(r, v) == Xor(r, w)
    ensures v == w
  {
  }

  // Messages that differ in a stretch of 32 bits at most have different CRCs.
  lemma BurstDetected(s: seq<Byte>, t: seq<Byte>, a: seq<bool>, p: seq<bool>, q: seq<bool>, c: seq<bool>, crc: bv32)
    requires MessageBits(s) == a + p + c && MessageBits(t) == a + q + c
    requires |p| == |q| <= 32 && p != q
    ensures Crc(s, crc) != Crc(t, crc)
  {
    hide Xor, TakeBits, MessageBits;
    if Crc(s, crc) == Crc(t, crc) {
      var r := Xor(crc, ONES);
      var k := TakeBits(r, a);
      TakeAppend(r, a + p, c);
      TakeAppend(r, a, p);
      TakeAppend(r, a + q, c);
      TakeAppend(r, a, q);
      XorCancel(TakeBits(TakeBits(k, p), c), ONES);
      XorCancel(TakeBits(TakeBits(k, q), c), ONES);
      TakeInjective(TakeBits(k, p), TakeBits(k, q), c);
      BurstTaken(k, p, q);
    }
  }
}
