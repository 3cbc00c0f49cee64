// A gzip file (RFC 1952, section 2.3): its header, its trailer, and what GZip.load makes of it.
module GzipFile {
  import opened Bits
  import opened JsBits
  import opened Canonical
  import opened Deflate
  import opened BitStrings
  import opened Chunks
  import Crc32

  // ---- reading bytes ----

  // Bin.byte: zero where there is no character.
  function ByteAt(s: seq<Byte>, i: int): Byte {
    if 0 <= i < |s| then s[i] else 0
  }

  function Uint16(s: seq<Byte>, i: int): (r: nat)
    ensures r < 0x1_0000
  {
    ByteAt(s, i) + 0x100 * ByteAt(s, i + 1)
  }

  // Bin.UInt32LE: four bytes as a signed number.
  function Int32(s: seq<Byte>, i: int): int {
    ToInt32(Uint16(s, i) + 0x1_0000 * Uint16(s, i + 2))
  }

  // The first zero byte from i on, or else the end; i itself past the end.
  function ZeroFrom(s: seq<Byte>, i: nat): (z: nat)
    ensures i <= z && (i <= |s| ==> z <= |s|) && (i > |s| ==> z == i)
    ensures forall k :: i <= k < z ==> ByteAt(s, k) != 0
    ensures z < |s| ==> s[z] == 0
    decreases |s| - i
  {
    if i < |s| && s[i] != 0 then ZeroFrom(s, i + 1) else i
  }

  // Bin.CString. Without a zero byte it throws, unless it starts past the end.
  method CString(s: seq<Byte>, offset: nat) returns (r: Option<seq<Byte>>)
    ensures r == if ZeroFrom(s, offset) == |s| then None else Some(Substring(s, offset, ZeroFrom(s, offset)))
  {
    var zeroIdx := offset;
    while zeroIdx < |s|
      invariant offset <= zeroIdx && ZeroFrom(s, zeroIdx) == ZeroFrom(s, offset)
    {
      if s[zeroIdx] == 0 {
        break;
      }
      zeroIdx := zeroIdx + 1;
    }
    r := if zeroIdx == |s| then None else Some(Substring(s, offset, zeroIdx));
  }

  // ---- the header ----

  datatype Problem = NotGzip | NoNullByte | HeaderCrc | Inflating | DataCrc | DataLength

  datatype Header = Header(flags: Byte, mtime: int, extraFlags: Byte, system: Byte,
                           extra: Option<seq<Byte>>, name: Option<seq<Byte>>, comment: Option<seq<Byte>>, offset: nat)

  datatype Result<+T> = Ok(value: T) | Err(problem: Problem)

  predicate HasFlag(flags: Byte, k: nat) {
    Bit(flags, k) == 1
  }

  // The optional parts, one after the other: what was read, and where to go on.
  datatype Part = Part(value: Option<seq<Byte>>, next: nat)

  function ExtraPart(s: seq<Byte>, flags: Byte, at: nat): Part {
    if HasFlag(flags, 2) then
      var xlen := Uint16(s, at);
      Part(Some(Substring(s, at + 2, at + 2 + xlen)), at + 2 + xlen)
    else Part(None, at)
  }

  // A string that ends with a zero byte, if flag k is set.
  function StringPart(s: seq<Byte>, flags: Byte, k: nat, at: nat): Result<Part> {
    if HasFlag(flags, k) then
      var z := ZeroFrom(s, at);
      if z == |s| then Err(NoNullByte)
      else
        var str := Substring(s, at, z);
        Ok(Part(Some(str), at + |str| + 1))
    else Ok(Part(None, at))
  }

  function Crc16(s: seq<Byte>, n: nat): nat {
    Crc32.Number(Crc32.Crc(Substring(s, 0, n), 0)) % 0x1_0000
  }

  function HeaderOf(s: seq<Byte>): Result<Header> {
    if ByteAt(s, 0) != 0x1f || ByteAt(s, 1) != 0x8b || ByteAt(s, 2) != 8 then Err(NotGzip)
    else
      var flags := ByteAt(s, 3);
      var e := ExtraPart(s, flags, 10);
      var n := StringPart(s, flags, 3, e.next);
      if n.Err? then Err(n.problem)
      else
        var c := StringPart(s, flags, 4, n.value.next);
        if c.Err? then Err(c.problem)
        else
          var at := c.value.next;
          if HasFlag(flags, 1) && Uint16(s, at) != Crc16(s, at) then Err(HeaderCrc)
          else
            Ok(Header(flags, Int32(s, 4), ByteAt(s, 8), ByteAt(s, 9), e.value, n.value.value, c.value.value,
                      if HasFlag(flags, 1) then at + 2 else at))
  }

  method ReadString(s: seq<Byte>, flags: Byte, k: nat, at: nat) returns (r: Result<Part>)
    ensures r == StringPart(s, flags, k, at)
  {
    if !HasFlag(flags, k) {
      return Ok(Part(None, at));
    }
    var str := CString(s, at);
    r := if str.None? then Err(NoNullByte) else Ok(Part(str, at + |str.value| + 1));
  }

  // GZip.parseHeader.
  method ParseHeader(s: seq<Byte>) returns (r: Result<Header>)
    ensures r == HeaderOf(s)
  {
    hide ZeroFrom, Substring, StringPart, Bit, Crc32.Crc;
    if ByteAt(s, 0) != 0x1f || ByteAt(s, 1) != 0x8b || ByteAt(s, 2) != 8 {
      return Err(NotGzip);
    }
    var flags := ByteAt(s, 3);
    var e := ExtraPart(s, flags, 10);
    var n := ReadString(s, flags, 3, e.next);
    if n.Err? {
      return Err(n.problem);
    }
    var c := ReadString(s, flags, 4, n.value.next);
    if c.Err? {
      return Err(c.problem);
    }
    var offset := c.value.next;
    var crc := Crc32.Crc32(s, 0, offset, 0);
    Prefix(s, offset);
    if HasFlag(flags, 1) {
      if Uint16(s, offset) != Crc32.Number(crc) % 0x1_0000 {
        return Err(HeaderCrc);
      }
      offset := offset + 2;
    }
    r := Ok(Header(flags, Int32(s, 4), ByteAt(s, 8), ByteAt(s, 9), e.value, n.value.value, c.value.value, offset));
  }

  lemma Prefix(s: seq<Byte>, n: nat)
    ensures Substring(s, 0, n) == if 0 + n < |s| then s[0..0 + n] else s[0..]
  {
    assert |s| <= 0 ==> s[0..] == [];
  }

  // ---- writing ----

  // The k lowest bytes of a number, the lowest first.
  function Bytes(v: nat, k: nat): (r: seq<Byte>)
    ensures |r| == k
    decreases k
  {
    if k == 0 then [] else [v % 256] + Bytes(v / 256, k - 1)
  }

  // What can be said in a header.
  datatype Fields = Fields(text: bool, mtime: nat, extraFlags: Byte, system: Byte,
                           extra: Option<seq<Byte>>, name: Option<seq<Byte>>, comment: Option<seq<Byte>>, crc: bool)

  predicate NoZero(o: Option<seq<Byte>>) {
    o.Some? ==> 0 !in o.value
  }

  predicate WfFields(f: Fields) {
    f.mtime < 0x1_0000_0000 && (f.extra.Some? ==> |f.extra.value| < 0x1_0000) && NoZero(f.name) && NoZero(f.comment)
  }

  function One(b: bool): nat {
    if b then 1 else 0
  }

  function Flags(f: Fields): (r: Byte)
    ensures r < 32
  {
    One(f.text) + 2 * One(f.crc) + 4 * One(f.extra.Some?) + 8 * One(f.name.Some?) + 16 * One(f.comment.Some?)
  }

  lemma FlagsAre(f: Fields)
    ensures HasFlag(Flags(f), 1) == f.crc && HasFlag(Flags(f), 2) == f.extra.Some?
    ensures HasFlag(Flags(f), 3) == f.name.Some? && HasFlag(Flags(f), 4) == f.comment.Some?
  {
    var r := Flags(f);
    P2Values();
    var q1 := One(f.crc) + 2 * One(f.extra.Some?) + 4 * One(f.name.Some?) + 8 * One(f.comment.Some?);
    var q2 := One(f.extra.Some?) + 2 * One(f.name.Some?) + 4 * One(f.comment.Some?);
    var q3 := One(f.name.Some?) + 2 * One(f.comment.Some?);
    FlagIs(r, 1, q1, One(f.text));
    FlagIs(r, 2, q2, One(f.text) + 2 * One(f.crc));
    FlagIs(r, 3, q3, One(f.text) + 2 * One(f.crc) + 4 * One(f.extra.Some?));
    FlagIs(r, 4, One(f.comment.Some?), One(f.text) + 2 * One(f.crc) + 4 * One(f.extra.Some?) + 8 * One(f.name.Some?));
  }

  lemma FlagIs(r: Byte, k: nat, q: nat, low: nat)
    requires low < P2(k) && r == P2(k) * q + low
    ensures HasFlag(r, k) <==> q % 2 == 1
  {
    JoinAs(r, q, low, k);
  }

  function Start(f: Fields): (r: seq<Byte>)
    ensures |r| == 10
  {
    [0x1f, 0x8b, 8, Flags(f)] + Bytes(f.mtime, 4) + [f.extraFlags, f.system]
  }

  function ExtraBytes(o: Option<seq<Byte>>): seq<Byte> {
    if o.Some? then Bytes(|o.value|, 2) + o.value else []
  }

  function StringBytes(o: Option<seq<Byte>>): seq<Byte> {
    if o.Some? then o.value + [0] else []
  }

  // The header up to its CRC.
  function Body(f: Fields): seq<Byte> {
    Start(f) + (ExtraBytes(f.extra) + (StringBytes(f.name) + StringBytes(f.comment)))
  }

  function HeaderBytes(f: Fields): seq<Byte> {
    Body(f) + if f.crc then Bytes(Crc32.Number(Crc32.Crc(Body(f), 0)) % 0x1_0000, 2) else []
  }

  // ---- reading what was written ----

  // p stands in s at index i.
  predicate At(s: seq<Byte>, i: nat, p: seq<Byte>) {
    i + |p| <= |s| && s[i..i + |p|] == p
  }

  lemma AtCat(s: seq<Byte>, i: nat, p: seq<Byte>, q: seq<Byte>)
    requires At(s, i, p + q)
    ensures At(s, i, p) && At(s, i + |p|, q)
  {
    var all := s[i..i + |p + q|];
    assert all[..|p|] == p && all[|p|..] == q;
    assert s[i..i + |p|] == all[..|p|];
    assert s[i + |p|..i + |p| + |q|] == all[|p|..];
  }

  lemma AtByte(s: seq<Byte>, i: nat, p: seq<Byte>, k: nat)
    requires At(s, i, p) && k < |p|
    ensures ByteAt(s, i + k) == p[k]
  {
    assert s[i..i + |p|][k] == s[i + k];
  }

  lemma AtUint16(s: seq<Byte>, i: nat, v: nat)
    requires v < 0x1_0000 && At(s, i, Bytes(v, 2))
    ensures Uint16(s, i) == v
  {
    var p := Bytes(v, 2);
    AtByte(s, i, p, 0);
    AtByte(s, i, p, 1);
    assert p[0] == v % 256 && p[1] == Bytes(v / 256, 1)[0] == v / 256;
  }

  lemma BytesSplit(v: nat)
    ensures Bytes(v, 4) == Bytes(v, 2) + Bytes(v / 0x1_0000, 2)
  {
    assert v / 256 / 256 == v / 0x1_0000;
    assert Bytes(v / 256, 3) == [v / 256 % 256] + Bytes(v / 256 / 256, 2);
    assert Bytes(v, 2) == [v % 256] + ([v / 256 % 256] + []);
  }

  lemma {:induction false} BytesLow(v: nat, k: nat)
    ensures Bytes(v % P2(8 * k), k) == Bytes(v, k)
    decreases k
  {
    if k > 0 {
      P2Values();
      P2Add(8, 8 * (k - 1));
      TakeTake(v, 8, 8 * (k - 1));
      var low := v % P2(8 * k);
      JoinAs(low, Low(High(v, 8), 8 * (k - 1)), Low(v, 8), 8);
      assert low / 256 == (v / 256) % P2(8 * (k - 1)) && low % 256 == v % 256;
      BytesLow(v / 256, k - 1);
    }
  }

  lemma AtInt32(s: seq<Byte>, i: nat, v: nat)
    requires v < 0x1_0000_0000 && At(s, i, Bytes(v, 4))
    ensures Int32(s, i) == ToInt32(v)
  {
    hide Bytes, At, Uint16, ToInt32;
    P2Values();
    BytesSplit(v);
    AtCat(s, i, Bytes(v, 2), Bytes(v / 0x1_0000, 2));
    BytesLow(v, 2);
    AtUint16(s, i, v % 0x1_0000);
    AtUint16(s, i + 2, v / 0x1_0000);
  }

  lemma AtSubstring(s: seq<Byte>, i: nat, p: seq<Byte>)
    requires At(s, i, p)
    ensures Substring(s, i, i + |p|) == p
  {
  }

  lemma {:induction false} AtZero(s: seq<Byte>, i: nat, p: seq<Byte>)
    requires 0 !in p && At(s, i, p + [0])
    ensures ZeroFrom(s, i) == i + |p|
    decreases |p|
  {
    AtByte(s, i, p + [0], 0);
    if p != [] {
      assert p + [0] == [p[0]] + (p[1..] + [0]);
      AtCat(s, i, [p[0]], p[1..] + [0]);
      AtZero(s, i + 1, p[1..]);
    }
  }

  lemma ExtraRead(s: seq<Byte>, flags: Byte, i: nat, o: Option<seq<Byte>>)
    requires HasFlag(flags, 2) == o.Some? && (o.Some? ==> |o.value| < 0x1_0000) && At(s, i, ExtraBytes(o))
    ensures ExtraPart(s, flags, i) == Part(o, i + |ExtraBytes(o)|)
  {
    hide HasFlag, At, Uint16, Substring, Bytes;
    if o.Some? {
      AtCat(s, i, Bytes(|o.value|, 2), o.value);
      AtUint16(s, i, |o.value|);
      AtSubstring(s, i + 2, o.value);
    }
  }

  lemma StringRead(s: seq<Byte>, flags: Byte, k: nat, i: nat, o: Option<seq<Byte>>)
    requires HasFlag(flags, k) == o.Some? && NoZero(o) && At(s, i, StringBytes(o))
    ensures StringPart(s, flags, k, i) == Ok(Part(o, i + |StringBytes(o)|))
  {
    hide HasFlag, Substring, ZeroFrom;
    if o.Some? {
      AtZero(s, i, o.value);
      AtCat(s, i, o.value, [0]);
      AtSubstring(s, i, o.value);
    }
  }

  lemma StartRead(s: seq<Byte>, f: Fields)
    requires WfFields(f) && At(s, 0, Start(f))
    ensures ByteAt(s, 0) == 0x1f && ByteAt(s, 1) == 0x8b && ByteAt(s, 2) == 8 && ByteAt(s, 3) == Flags(f)
    ensures Int32(s, 4) == ToInt32(f.mtime) && ByteAt(s, 8) == f.extraFlags && ByteAt(s, 9) == f.system
  {
    hide At, ByteAt, Int32, Flags, Bytes;
    var a, b, c := [0x1f, 0x8b, 8, Flags(f)], Bytes(f.mtime, 4), [f.extraFlags, f.system];
    AtCat(s, 0, a + b, c);
    AtCat(s, 0, a, b);
    AtByte(s, 0, a, 0);
    AtByte(s, 0, a, 1);
    AtByte(s, 0, a, 2);
    AtByte(s, 0, a, 3);
    AtInt32(s, 4, f.mtime);
    AtByte(s, 8, c, 0);
    AtByte(s, 8, c, 1);
  }

  lemma PartsRead(s: seq<Byte>, f: Fields)
    requires WfFields(f) && At(s, 0, Body(f))
    ensures var e, n := 10 + |ExtraBytes(f.extra)|, 10 + |ExtraBytes(f.extra)| + |StringBytes(f.name)|;
            && ExtraPart(s, Flags(f), 10) == Part(f.extra, e)
            && StringPart(s, Flags(f), 3, e) == Ok(Part(f.name, n))
            && StringPart(s, Flags(f), 4, n) == Ok(Part(f.comment, |Body(f)|))
    ensures At(s, 0, Start(f))
  {
    hide At, Flags, HasFlag, Start, ExtraBytes, StringBytes, ExtraPart, StringPart;
    var e, n, c := ExtraBytes(f.extra), StringBytes(f.name), StringBytes(f.comment);
    FlagsAre(f);
    AtCat(s, 0, Start(f), e + (n + c));
    AtCat(s, 10, e, n + c);
    AtCat(s, 10 + |e|, n, c);
    ExtraRead(s, Flags(f), 10, f.extra);
    StringRead(s, Flags(f), 3, 10 + |e|, f.name);
    StringRead(s, Flags(f), 4, 10 + |e| + |n|, f.comment);
  }

  // ---- what is refused ----

  // The first three bytes have to be those of a gzip file.
  lemma NotGzipExactly(s: seq<Byte>)
    ensures HeaderOf(s) == Err(NotGzip) <==> |s| < 3 || s[..3] != [0x1f, 0x8b, 8]
  {
    hide StringPart, ExtraPart, HasFlag, Crc16;
    if |s| >= 3 {
      assert s[..3] == [s[0], s[1], s[2]];
      PartProblems(s, ByteAt(s, 3), 3, ExtraPart(s, ByteAt(s, 3), 10).next);
      var n := StringPart(s, ByteAt(s, 3), 3, ExtraPart(s, ByteAt(s, 3), 10).next);
      if n.Ok? {
        PartProblems(s, ByteAt(s, 3), 4, n.value.next);
      }
    }
  }

  lemma PartProblems(s: seq<Byte>, flags: Byte, k: nat, at: nat)
    ensures StringPart(s, flags, k, at).Ok? || StringPart(s, flags, k, at) == Err(NoNullByte)
  {
  }

  // A header with another CRC than its own.
  lemma WrongHeaderCrc(s: seq<Byte>, f: Fields, number: nat)
    requires WfFields(f) && f.crc && number < 0x1_0000 && At(s, 0, Body(f) + Bytes(number, 2))
    ensures HeaderOf(s).Err? <==> number != Crc32.Number(Crc32.Crc(Body(f), 0)) % 0x1_0000
    ensures HeaderOf(s).Err? ==> HeaderOf(s) == Err(HeaderCrc)
  {
    hide At, ByteAt, Int32, Flags, HasFlag, Bytes, Body, Start, ExtraPart, StringPart, Uint16, Substring, Crc32.Crc,
         Crc32.Number, ToInt32, WfFields, ExtraBytes, StringBytes;
    AtCat(s, 0, Body(f), Bytes(number, 2));
    PartsRead(s, f);
    StartRead(s, f);
    FlagsAre(f);
    AtSubstring(s, 0, Body(f));
    AtUint16(s, |Body(f)|, number);
  }

  // A file that ends within its name.
  lemma NameCutOff(f: Fields, cut: seq<Byte>)
    requires WfFields(f) && f.name.Some? && 0 !in cut
    ensures HeaderOf(Start(f) + (ExtraBytes(f.extra) + cut)) == Err(NoNullByte)
  {
    hide ByteAt, Int32, Flags, HasFlag, Bytes, Start, ExtraPart, Uint16, Substring, Crc32.Crc, ToInt32, ExtraBytes,
         ZeroFrom, At;
    var e := ExtraBytes(f.extra);
    var s := Start(f) + (e + cut);
    Whole(s);
    AtCat(s, 0, Start(f), e + cut);
    AtCat(s, 10, e, cut);
    StartRead(s, f);
    FlagsAre(f);
    ExtraRead(s, Flags(f), 10, f.extra);
    NoZeroFrom(s, 10 + |e|, cut);
  }

  lemma Whole(s: seq<Byte>)
    ensures At(s, 0, s)
  {
  }

  lemma {:induction false} NoZeroFrom(s: seq<Byte>, i: nat, p: seq<Byte>)
    requires 0 !in p && At(s, i, p) && i + |p| == |s|
    ensures ZeroFrom(s, i) == |s|
    decreases |p|
  {
    if p != [] {
      assert p == [p[0]] + p[1..];
      AtByte(s, i, p, 0);
      AtCat(s, i, [p[0]], p[1..]);
      NoZeroFrom(s, i + 1, p[1..]);
    }
  }

  // ---- what is accepted ----

  // Parsing what was written gives the fields back, and the place where the data begins.
  lemma HeaderRoundTrip(s: seq<Byte>, f: Fields)
    requires WfFields(f) && At(s, 0, HeaderBytes(f))
    ensures HeaderOf(s) == Ok(Header(Flags(f), ToInt32(f.mtime), f.extraFlags, f.system, f.extra, f.name, f.comment,
                                     |HeaderBytes(f)|))
  {
    hide At, ByteAt, Int32, Flags, HasFlag, Bytes, Body, Start, ExtraPart, StringPart, Uint16, Substring, Crc32.Crc,
         Crc32.Number, ToInt32, WfFields, ExtraBytes, StringBytes;
    var number := Crc32.Number(Crc32.Crc(Body(f), 0)) % 0x1_0000;
    AtCat(s, 0, Body(f), if f.crc then Bytes(number, 2) else []);
    PartsRead(s, f);
    StartRead(s, f);
    FlagsAre(f);
    AtSubstring(s, 0, Body(f));
    if f.crc {
      AtUint16(s, |Body(f)|, number);
    }
  }
}
