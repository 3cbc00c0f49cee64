// Writing tar archives, and reading them back with the reader of gzip.js.
module Archives {
  import opened Canonical
  import opened Deflate
  import opened Tar

  // A file to write: what its header says, the part of the header that the reader does not look at, and
  // its content.
  datatype File = File(filename: seq<Byte>, mode: seq<Byte>, uid: seq<Byte>, gid: seq<Byte>, lastModified: seq<Byte>,
                       checkSum: seq<Byte>, fileType: seq<Byte>, linkName: seq<Byte>, rest: seq<Byte>,
                       content: seq<Byte>)

  // A string without zero bytes that fits into a field of n bytes.
  predicate Fits(s: seq<Byte>, n: nat) {
    |s| <= n && 0 !in s
  }

  // The length has to fit into eleven octal digits.
  predicate WfFile(f: File) {
    && Fits(f.filename, 100) && Fits(f.mode, 8) && Fits(f.uid, 8) && Fits(f.gid, 8) && Fits(f.lastModified, 12)
    && Fits(f.checkSum, 8) && Fits(f.fileType, 1) && Fits(f.linkName, 100) && |f.rest| == 255
    && |f.content| < 0x2_0000_0000
  }

  predicate AllWf(fs: seq<File>) {
    forall i :: 0 <= i < |fs| ==> WfFile(fs[i])
  }

  // ---- writing ----

  // A string, filled up with zero bytes.
  function Field(s: seq<Byte>, n: nat): (r: seq<Byte>)
    requires |s| <= n
    ensures |r| == n
  {
    s + Repeat(0, n - |s|)
  }

  // The k lowest octal digits of n, the highest first.
  function OctalDigits(n: nat, k: nat): (r: seq<Byte>)
    ensures |r| == k && forall i :: 0 <= i < k ==> 48 <= r[i] <= 55
  {
    if k == 0 then [] else OctalDigits(n / 8, k - 1) + [48 + n % 8]
  }

  function Owner(f: File): (r: seq<Byte>)
    requires WfFile(f)
    ensures |r| == 24
  {
    Field(f.mode, 8) + Field(f.uid, 8) + Field(f.gid, 8)
  }

  function Times(f: File): (r: seq<Byte>)
    requires WfFile(f)
    ensures |r| == 21
  {
    Field(f.lastModified, 12) + Field(f.checkSum, 8) + Field(f.fileType, 1)
  }

  function HeaderBytes(f: File): (r: seq<Byte>)
    requires WfFile(f)
    ensures |r| == 512
  {
    Field(f.filename, 100) + Owner(f) + (OctalDigits(|f.content|, 11) + [0]) + Times(f) + Field(f.linkName, 100)
    + f.rest
  }

  // How many bytes are missing to a whole number of blocks of 512.
  function Missing(n: nat): nat {
    if n % 512 == 0 then 0 else 512 - n % 512
  }

  function FileBytes(f: File): (r: seq<Byte>)
    requires WfFile(f)
  {
    HeaderBytes(f) + f.content + Repeat(0, Missing(|f.content|))
  }

  // One file after another, and two blocks of zeros.
  function ArchiveBytes(fs: seq<File>): (r: seq<Byte>)
    requires AllWf(fs)
    ensures |r| >= 1024
  {
    if fs == [] then Repeat(0, 1024) else FileBytes(fs[0]) + ArchiveBytes(fs[1..])
  }

  // ---- what should be found ----

  // With neither a name nor a content a header cannot be told from the one that ends the archive.
  predicate Nameless(f: File) {
    f.filename == [] && f.content == []
  }

  // The entry of a file whose header is at the given offset.
  function EntryOf(f: File, offset: nat): Entry {
    Entry(f.filename, f.mode, f.uid, f.gid, Some(|f.content|), f.lastModified, f.checkSum, f.fileType, f.linkName,
          offset + 512, Some(f.content))
  }

  // The entries up to the first file without name and content.
  function Entries(fs: seq<File>, offset: nat): (r: seq<Entry>)
    ensures |r| <= |fs|
  {
    if fs == [] || Nameless(fs[0]) then []
    else
      var n := |fs[0].content|;
      [EntryOf(fs[0], offset)] + Entries(fs[1..], offset + 512 + n + Missing(n))
  }

  // ---- fields ----

  lemma {:induction false} CutBefore(s: seq<Byte>, t: seq<Byte>)
    requires 0 !in s && (t == [] || t[0] == 0)
    ensures Cut(s + t) == s
  {
    if s == [] {
      assert s + t == t;
    } else {
      assert (s + t)[1..] == s[1..] + t;
      CutBefore(s[1..], t);
    }
  }

  lemma CutField(s: seq<Byte>, n: nat)
    requires Fits(s, n)
    ensures Cut(Field(s, n)) == s
  {
    CutBefore(s, Repeat(0, n - |s|));
  }

  function Pow8(k: nat): nat {
    if k == 0 then 1 else 8 * Pow8(k - 1)
  }

  predicate NoDigit(s: seq<Byte>) {
    forall i :: 0 <= i < |s| ==> !(48 <= s[i] <= 57)
  }

  lemma {:induction false} DigitsAppend(s: seq<Byte>, t: seq<Byte>)
    ensures Digits(s + t) == Digits(s) + Digits(t)
  {
    if s == [] {
      assert s + t == t;
    } else {
      assert (s + t)[1..] == s[1..] + t;
      DigitsAppend(s[1..], t);
    }
  }

  lemma {:induction false} AllDigits(s: seq<Byte>)
    requires forall i :: 0 <= i < |s| ==> 48 <= s[i] <= 57
    ensures Digits(s) == s
  {
    if s != [] {
      AllDigits(s[1..]);
    }
  }

  lemma {:induction false} OctalAppend(s: seq<Byte>, d: Byte, v: nat)
    requires (forall i :: 0 <= i < |s| ==> 48 <= s[i] <= 55) && 48 <= d <= 55
    ensures Octal(s + [d], v) == 8 * Octal(s, v) + (d - 48)
    decreases |s|
  {
    if s == [] {
      assert (s + [d])[1..] == [];
    } else {
      assert (s + [d])[1..] == s[1..] + [d];
      OctalAppend(s[1..], d, 8 * v + (s[0] - 48));
    }
  }

  lemma {:induction false} OctalBack(n: nat, k: nat)
    requires n < Pow8(k)
    ensures Octal(OctalDigits(n, k), 0) == n
    decreases k
  {
    if k > 0 {
      OctalBack(n / 8, k - 1);
      OctalAppend(OctalDigits(n / 8, k - 1), 48 + n % 8, 0);
    }
  }

  // A number in octal digits, with anything but digits around it, is read back.
  lemma NumberBack(before: seq<Byte>, n: nat, k: nat, after: seq<Byte>)
    requires k > 0 && n < Pow8(k) && NoDigit(before) && NoDigit(after)
    ensures Number(before + OctalDigits(n, k) + after) == Some(n)
  {
    hide Octal, Pow8;
    var d := OctalDigits(n, k);
    DigitsAppend(before + d, after);
    DigitsAppend(before, d);
    NoDigits(before);
    NoDigits(after);
    AllDigits(d);
    assert [] + d + [] == d;
    OctalBack(n, k);
  }

  lemma DigitsAround(before: seq<Byte>, o: seq<Byte>, d: Byte, after: seq<Byte>)
    requires NoDigit(before) && (forall i :: 0 <= i < |o| ==> 48 <= o[i] <= 55) && (d == 56 || d == 57)
    ensures Digits(before + o + [d] + after) == o + ([d] + Digits(after))
  {
    hide Digits;
    DigitsAppend(before + o + [d], after);
    DigitsAppend(before + o, [d]);
    DigitsAppend(before, o);
    NoDigits(before);
    AllDigits(o);
    AllDigits([d]);
    assert [] + o == o;
    assert o + [d] + Digits(after) == o + ([d] + Digits(after));
  }

  // An eight or a nine ends the number; without an octal digit before it, or without any digit, there is none.
  lemma NumberStops(before: seq<Byte>, n: nat, k: nat, d: Byte, after: seq<Byte>)
    requires n < Pow8(k) && NoDigit(before) && (d == 56 || d == 57)
    ensures Number(before + OctalDigits(n, k) + [d] + after) == if k > 0 then Some(n) else None
  {
    hide Octal, Pow8, Digits;
    var o := OctalDigits(n, k);
    DigitsAround(before, o, d, after);
    OctalBack(n, k);
    OctalStops(o, [d] + Digits(after), 0);
  }

  lemma {:induction false} OctalStops(s: seq<Byte>, t: seq<Byte>, v: nat)
    requires (forall i :: 0 <= i < |s| ==> 48 <= s[i] <= 55) && t != [] && t[0] > 55
    ensures Octal(s + t, v) == Octal(s, v)
    decreases |s|
  {
    if s == [] {
      assert s + t == t;
    } else {
      assert (s + t)[1..] == s[1..] + t;
      OctalStops(s[1..], t, 8 * v + (s[0] - 48));
    }
  }

  lemma NoNumber(s: seq<Byte>)
    requires NoDigit(s)
    ensures Number(s).None?
  {
    NoDigits(s);
  }

  // A file whose length is no number is never passed, however much arrives.
  lemma NeverPassed(text: seq<Byte>, p: Place)
    requires !Waiting(p.files) && p.offset + 512 <= |text|
    requires var h := text[p.offset..p.offset + 512]; NoDigit(h[124..136]) && h[0] != 0
    ensures forall more: seq<Byte> :: Process(more, Process(text, p)) == Process(text, p)
    ensures |Process(text, p).files| == |p.files| + 1 && Waiting(Process(text, p).files)
  {
    hide ParseHeader, TurnAt;
    var h := text[p.offset..p.offset + 512];
    var e := ParseHeader(h, p.offset + 512);
    NoLength(h, p.offset + 512);
    HeaderTurn(text, p);
    var q := Place(p.files + [e], p.offset + 512);
    WaitTurn(text, q);
    assert Process(text, p) == q;
    forall more: seq<Byte>
      ensures Process(more, q) == q
    {
      WaitTurn(more, q);
    }
  }

  lemma NoLength(h: seq<Byte>, offset: nat)
    requires |h| == 512 && NoDigit(h[124..136]) && h[0] != 0
    ensures var e := ParseHeader(h, offset); e.length.None? && e.filename != [] && e.data.None?
  {
    NoNumber(h[124..136]);
    assert h[..100][0] == h[0];
  }

  lemma SizeBack(n: nat)
    requires n < 0x2_0000_0000
    ensures Number(OctalDigits(n, 11) + [0]) == Some(n)
  {
    hide Number, OctalDigits;
    assert Pow8(4) == 4096;
    assert Pow8(8) == 4096 * Pow8(4);
    assert Pow8(11) == 512 * Pow8(8);
    NumberBack([], n, 11, [0]);
    assert [] + OctalDigits(n, 11) + [0] == OctalDigits(n, 11) + [0];
  }

  // ---- headers ----

  lemma OwnerParts(f: File)
    requires WfFile(f)
    ensures Owner(f)[..8] == Field(f.mode, 8) && Owner(f)[8..16] == Field(f.uid, 8)
    ensures Owner(f)[16..24] == Field(f.gid, 8)
  {
    hide Field;
  }

  lemma TimesParts(f: File)
    requires WfFile(f)
    ensures Times(f)[..12] == Field(f.lastModified, 12) && Times(f)[12..20] == Field(f.checkSum, 8)
    ensures Times(f)[20..21] == Field(f.fileType, 1)
  {
    hide Field;
  }

  lemma HeaderParts(f: File)
    requires WfFile(f)
    ensures var h := HeaderBytes(f);
            && h[..100] == Field(f.filename, 100) && h[100..124] == Owner(f)
            && h[124..136] == OctalDigits(|f.content|, 11) + [0]
            && h[136..157] == Times(f) && h[157..257] == Field(f.linkName, 100)
  {
    hide Field, Owner, Times, OctalDigits;
  }

  lemma SubPart(h: seq<Byte>, a: nat, b: nat, i: nat, j: nat)
    requires a <= b <= |h| && i <= j <= b - a
    ensures h[a..b][i..j] == h[a + i..a + j]
  {
    var x, y := h[a..b][i..j], h[a + i..a + j];
    assert forall k :: 0 <= k < j - i ==> x[k] == h[a..b][i + k] == h[a + i + k] == y[k];
  }

  lemma HeaderFields(f: File)
    requires WfFile(f)
    ensures var h := HeaderBytes(f);
            && h[100..108] == Field(f.mode, 8) && h[108..116] == Field(f.uid, 8) && h[116..124] == Field(f.gid, 8)
            && h[136..148] == Field(f.lastModified, 12) && h[148..156] == Field(f.checkSum, 8)
            && h[156..157] == Field(f.fileType, 1)
  {
    hide Field, Owner, Times, HeaderBytes;
    var h := HeaderBytes(f);
    HeaderParts(f);
    OwnerParts(f);
    TimesParts(f);
    SubPart(h, 100, 124, 0, 8);
    SubPart(h, 100, 124, 8, 16);
    SubPart(h, 100, 124, 16, 24);
    SubPart(h, 136, 157, 0, 12);
    SubPart(h, 136, 157, 12, 20);
    SubPart(h, 136, 157, 20, 21);
  }

  // A header that was written is parsed back.
  lemma HeaderBack(f: File, offset: nat)
    requires WfFile(f)
    ensures ParseHeader(HeaderBytes(f), offset + 512) == EntryOf(f, offset).(data := None)
  {
    hide Field, HeaderBytes, Cut, Number, OctalDigits;
    HeaderParts(f);
    HeaderFields(f);
    CutField(f.filename, 100);
    CutField(f.mode, 8);
    CutField(f.uid, 8);
    CutField(f.gid, 8);
    CutField(f.lastModified, 12);
    CutField(f.checkSum, 8);
    CutField(f.fileType, 1);
    CutField(f.linkName, 100);
    SizeBack(|f.content|);
  }

  // ---- the whole archive ----

  lemma WholeBlocks(n: nat)
    ensures 512 * ((n + 511) / 512) == n + Missing(n)
  {
  }

  // A text goes on with a and then with b.
  lemma GoesOn(text: seq<Byte>, o: nat, a: seq<Byte>, b: seq<Byte>)
    requires o <= |text| && text[o..] == a + b
    ensures o + |a| <= |text| && text[o..o + |a|] == a && text[o + |a|..] == b
  {
    var t := text[o..];
    assert t[..|a|] == a && t[|a|..] == b;
    assert text[o..o + |a|] == t[..|a|];
  }

  // The turn that finds the header of a file.
  lemma HeaderFound(text: seq<Byte>, p: Place, f: File, after: seq<Byte>)
    requires WfFile(f) && !Waiting(p.files) && p.offset <= |text|
    requires text[p.offset..] == HeaderBytes(f) + after
    ensures TurnAt(text, p) == if Nameless(f) then Go(Place(p.files, |text|))
                               else Go(Place(p.files + [EntryOf(f, p.offset).(data := None)], p.offset + 512))
  {
    hide HeaderBytes, ParseHeader, TurnAt;
    HeaderBack(f, p.offset);
    GoesOn(text, p.offset, HeaderBytes(f), after);
    HeaderTurn(text, p);
  }

  // The turn that finds its content.
  lemma ContentFound(text: seq<Byte>, q: Place, f: File, offset: nat, after: seq<Byte>)
    requires WfFile(f) && q.files != [] && q.files[|q.files| - 1] == EntryOf(f, offset).(data := None)
    requires q.offset <= |text| && text[q.offset..] == f.content + after && |after| >= 512
    ensures TurnAt(text, q) == Go(Place(q.files[|q.files| - 1 := EntryOf(f, offset)],
                                        q.offset + |f.content| + Missing(|f.content|)))
  {
    hide TurnAt;
    var n := |f.content|;
    GoesOn(text, q.offset, f.content, after);
    FillTurn(text, q);
    WholeBlocks(n);
  }

  lemma Replaced<T>(s: seq<T>, x: T, y: T)
    ensures (s + [x])[|s| := y] == s + [y]
  {
  }

  // A file takes two turns.
  lemma FileFound(text: seq<Byte>, p: Place, f: File, after: seq<Byte>)
    requires WfFile(f) && !Waiting(p.files) && p.offset <= |text| && !Nameless(f)
    requires text[p.offset..] == FileBytes(f) + after && |after| >= 512
    ensures TurnAt(text, p) == Go(Place(p.files + [EntryOf(f, p.offset).(data := None)], p.offset + 512))
    ensures var q := Place(p.files + [EntryOf(f, p.offset).(data := None)], p.offset + 512);
            TurnAt(text, q) == Go(Place(p.files + [EntryOf(f, p.offset)], p.offset + |FileBytes(f)|))
    ensures p.offset + |FileBytes(f)| <= |text| && text[p.offset + |FileBytes(f)|..] == after
  {
    hide HeaderBytes, TurnAt, WfFile, Nameless;
    var z := Repeat(0, Missing(|f.content|));
    var e := EntryOf(f, p.offset);
    assert FileBytes(f) + after == HeaderBytes(f) + (f.content + (z + after));
    HeaderFound(text, p, f, f.content + (z + after));
    GoesOn(text, p.offset, HeaderBytes(f), f.content + (z + after));
    Replaced(p.files, e.(data := None), e);
    ContentFound(text, Place(p.files + [e.(data := None)], p.offset + 512), f, p.offset, z + after);
    GoesOn(text, p.offset, FileBytes(f), after);
  }

  // The two blocks of zeros at the end.
  lemma EndFound(text: seq<Byte>, p: Place)
    requires !Waiting(p.files) && p.offset <= |text| && text[p.offset..] == Repeat(0, 1024)
    ensures TurnAt(text, p) == Go(Place(p.files, |text|)) && EmptyAt(text, p) == Some(p.offset)
  {
    hide HeaderAt, Empty;
    assert forall i :: p.offset <= i < |text| ==> text[i] == text[p.offset..][i - p.offset];
    ZeroHeader(text, p.offset);
  }

  lemma NamelessFound(text: seq<Byte>, p: Place, f: File, after: seq<Byte>)
    requires WfFile(f) && Nameless(f) && !Waiting(p.files) && p.offset <= |text|
    requires text[p.offset..] == FileBytes(f) + after
    ensures TurnAt(text, p) == Go(Place(p.files, |text|))
  {
    hide HeaderBytes, TurnAt, WfFile;
    var rest := f.content + (Repeat(0, Missing(|f.content|)) + after);
    assert FileBytes(f) + after == HeaderBytes(f) + rest;
    HeaderFound(text, p, f, rest);
  }

  lemma NotEmpty(text: seq<Byte>, p: Place, files: seq<Entry>, offset: nat)
    requires !Waiting(p.files) && TurnAt(text, p) == Go(Place(files, offset)) && files != p.files
    ensures !Empty(HeaderAt(text, p.offset))
  {
  }

  // What the reader finds in an archive that was written, from wherever it begins: all files, up to the
  // first one without name and content.
  lemma {:induction false} FilesFound(text: seq<Byte>, p: Place, fs: seq<File>)
    requires AllWf(fs) && !Waiting(p.files) && p.offset <= |text| && text[p.offset..] == ArchiveBytes(fs)
    ensures Process(text, p) == Place(p.files + Entries(fs, p.offset), |text|)
    ensures (forall i :: 0 <= i < |fs| ==> !Nameless(fs[i])) ==> EmptyAt(text, p) == Some(|text| - 1024)
    decreases |fs|
  {
    hide TurnAt, FileBytes, WfFile, Nameless, Empty, HeaderAt;
    if fs == [] {
      EndFound(text, p);
      LastTurn(text, Place(p.files, |text|));
      assert p.files + [] == p.files;
    } else if Nameless(fs[0]) {
      NamelessFound(text, p, fs[0], ArchiveBytes(fs[1..]));
      LastTurn(text, Place(p.files, |text|));
      assert p.files + [] == p.files;
    } else {
      var f, after := fs[0], ArchiveBytes(fs[1..]);
      FileFound(text, p, f, after);
      NotEmpty(text, p, p.files + [EntryOf(f, p.offset).(data := None)], p.offset + 512);
      var next := Place(p.files + [EntryOf(f, p.offset)], p.offset + |FileBytes(f)|);
      FilesFound(text, next, fs[1..]);
      FileLength(f);
      SameList(p.files, EntryOf(f, p.offset), Entries(fs[1..], next.offset));
    }
  }

  lemma FileLength(f: File)
    requires WfFile(f)
    ensures |FileBytes(f)| == 512 + |f.content| + Missing(|f.content|)
  {
    hide HeaderBytes;
  }

  lemma SameList<T>(a: seq<T>, x: T, b: seq<T>)
    ensures a + [x] + b == a + ([x] + b)
  {
  }

  // ---- round trips ----

  // Reading an archive that was written finds its files.
  lemma ArchiveRoundTrip(fs: seq<File>)
    requires AllWf(fs)
    ensures Process(ArchiveBytes(fs), Place([], 0)).files == Entries(fs, 0)
  {
    hide ArchiveBytes, Process, AllWf;
    var text := ArchiveBytes(fs);
    assert text[0..] == text;
    FilesFound(text, Place([], 0), fs);
    assert [] + Entries(fs, 0) == Entries(fs, 0);
  }

  // All of them exactly if each has a name or a content; and then each with what its header says, and
  // with its content.
  lemma {:induction false} EntriesAre(fs: seq<File>, offset: nat)
    ensures |Entries(fs, offset)| == |fs| <==> forall i :: 0 <= i < |fs| ==> !Nameless(fs[i])
    ensures forall i :: 0 <= i < |Entries(fs, offset)| ==>
              Entries(fs, offset)[i] == EntryOf(fs[i], 0).(offset := Entries(fs, offset)[i].offset)
    decreases |fs|
  {
    hide Nameless;
    if fs != [] && !Nameless(fs[0]) {
      var next := offset + 512 + |fs[0].content| + Missing(|fs[0].content|);
      EntriesAre(fs[1..], next);
      assert forall i :: 0 < i < |fs| ==> fs[i] == fs[1..][i - 1];
      assert forall i :: 0 <= i < |fs| - 1 ==> fs[1..][i] == fs[i + 1];
    }
  }

  // The same in whatever growing pieces the archive arrives.
  lemma ArchiveInPieces(fs: seq<File>, ns: seq<nat>)
    requires AllWf(fs) && forall i :: 0 <= i < |fs| ==> !Nameless(fs[i])
    requires ns != [] && Growing(ns) && ns[|ns| - 1] == |ArchiveBytes(fs)|
    ensures forall i :: 0 <= i < |ns| ==> ns[i] <= |ArchiveBytes(fs)|
    ensures Feed(ArchiveBytes(fs), ns, Place([], 0)).files == Entries(fs, 0) && |Entries(fs, 0)| == |fs|
  {
    hide ArchiveBytes, Process, Feed, EmptyAt, Quiet, Growing, AllWf, Nameless;
    var text, p := ArchiveBytes(fs), Place([], 0);
    assert text[0..] == text;
    FilesFound(text, p, fs);
    ZerosAtEnd(fs);
    ZerosQuiet(text, p);
    GrowingPieces(text, p, ns);
    ArchiveRoundTrip(fs);
    EntriesAre(fs, 0);
  }

  predicate ZeroBlocks(t: seq<Byte>) {
    |t| >= 1024 && forall i :: |t| - 1024 <= i < |t| ==> t[i] == 0
  }

  lemma {:induction false} ZerosAtEnd(fs: seq<File>)
    requires AllWf(fs)
    ensures ZeroBlocks(ArchiveBytes(fs))
    decreases |fs|
  {
    hide FileBytes, WfFile;
    if fs != [] {
      var b, rest := FileBytes(fs[0]), ArchiveBytes(fs[1..]);
      ZerosAtEnd(fs[1..]);
      assert forall i :: |b| <= i < |b + rest| ==> (b + rest)[i] == rest[i - |b|];
    }
  }
}
