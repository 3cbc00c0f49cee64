// The tar reader of gzip.js, which is given an archive in growing pieces.
module Tar {
  import opened Canonical
  import opened Deflate
  import opened Chunks

  // ---- headers ----

  // Everything up to the first zero character.
  function Cut(s: seq<Byte>): (r: seq<Byte>)
    ensures r <= s && 0 !in r
  {
    if s == [] || s[0] == 0 then [] else [s[0]] + Cut(s[1..])
  }

  function Digits(s: seq<Byte>): (r: seq<Byte>)
    ensures forall i :: 0 <= i < |r| ==> 48 <= r[i] <= 57
  {
    if s == [] then [] else (if 48 <= s[0] <= 57 then [s[0]] else []) + Digits(s[1..])
  }

  // The octal digits at the start of s, after those that make up v.
  function Octal(s: seq<Byte>, v: nat): nat {
    if s == [] || !(48 <= s[0] <= 55) then v else Octal(s[1..], 8 * v + (s[0] - 48))
  }

  // parseTarNumber: not a number (NaN) unless the first digit is an octal one.
  function Number(s: seq<Byte>): Option<nat> {
    var d := Digits(s);
    if d == [] || d[0] > 55 then None else Some(Octal(d, 0))
  }

  // A file of the archive. Its content is not there until all of it has arrived.
  datatype Entry = Entry(filename: seq<Byte>, mode: seq<Byte>, uid: seq<Byte>, gid: seq<Byte>, length: Option<nat>,
                         lastModified: seq<Byte>, checkSum: seq<Byte>, fileType: seq<Byte>, linkName: seq<Byte>,
                         offset: nat, data: Option<seq<Byte>>)

  // parseTarHeader, and the place where the content begins.
  function ParseHeader(s: seq<Byte>, offset: nat): Entry
    requires |s| == 512
  {
    Entry(Cut(s[..100]), Cut(s[100..108]), Cut(s[108..116]), Cut(s[116..124]), Number(s[124..136]),
          Cut(s[136..148]), Cut(s[148..156]), Cut(s[156..157]), Cut(s[157..257]), offset, None)
  }

  // Neither a length nor a name: the header that ends the archive.
  predicate Empty(e: Entry) {
    !(e.length.Some? && e.length.value > 0) && e.filename == []
  }

  // ---- one pass over what has arrived ----

  // The files so far, and where to go on.
  datatype Place = Place(files: seq<Entry>, offset: nat)

  // The last file waits for its content.
  predicate Waiting(files: seq<Entry>) {
    files != [] && files[|files| - 1].data.None?
  }

  function HeaderAt(text: seq<Byte>, offset: nat): Entry
    requires offset + 512 <= |text|
  {
    ParseHeader(text[offset..offset + 512], offset + 512)
  }

  // The whole blocks that a content of length n takes up.
  function Blocks(n: nat): (r: nat)
    ensures n <= r
  {
    512 * ((n + 511) / 512)
  }

  // What the next turn of the loop does: nothing more, or go on from another place.
  datatype Turn = Stop | Go(next: Place)

  function TurnAt(text: seq<Byte>, p: Place): Turn {
    if p.offset + 512 > |text| then Stop
    else if Waiting(p.files) then
      var e := p.files[|p.files| - 1];
      if e.length.None? || p.offset + e.length.value > |text| then Stop
      else
        var data := text[p.offset..p.offset + e.length.value];
        Go(Place(p.files[..|p.files| - 1] + [e.(data := Some(data))], p.offset + Blocks(e.length.value)))
    else
      var e := HeaderAt(text, p.offset);
      if Empty(e) then Go(Place(p.files, |text|)) else Go(Place(p.files + [e], p.offset + 512))
  }

  function Gap(text: seq<Byte>, p: Place): nat {
    if p.offset <= |text| then |text| - p.offset else 0
  }

  // All turns.
  function Process(text: seq<Byte>, p: Place): Place
    decreases Gap(text, p), if Waiting(p.files) then 1 else 0
  {
    match TurnAt(text, p)
    case Stop => p
    case Go(next) => Process(text, next)
  }

  // The turn that fills in a content that has arrived, and the one that waits for it.
  lemma FillTurn(text: seq<Byte>, p: Place)
    requires p.offset + 512 <= |text| && Waiting(p.files)
    requires var e := p.files[|p.files| - 1]; e.length.Some? && p.offset + e.length.value <= |text|
    ensures TurnAt(text, p)
         == var n, e := |p.files| - 1, p.files[|p.files| - 1];
            var data := text[p.offset..p.offset + e.length.value];
            Go(Place(p.files[n := e.(data := Some(data))], p.offset + 512 * ((e.length.value + 511) / 512)))
  {
    var n, e := |p.files| - 1, p.files[|p.files| - 1];
    var filled := e.(data := Some(text[p.offset..p.offset + e.length.value]));
    assert p.files[n := filled] == p.files[..n] + [filled];
  }

  lemma LastTurn(text: seq<Byte>, p: Place)
    requires p.offset + 512 > |text|
    ensures TurnAt(text, p) == Stop
  {
  }

  lemma WaitTurn(text: seq<Byte>, p: Place)
    requires Waiting(p.files)
    requires var e := p.files[|p.files| - 1]; e.length.None? || p.offset + e.length.value > |text|
    ensures TurnAt(text, p) == Stop
  {
  }

  // The turn that reads a header.
  lemma HeaderTurn(text: seq<Byte>, p: Place)
    requires p.offset + 512 <= |text| && !Waiting(p.files)
    ensures TurnAt(text, p)
         == var e := ParseHeader(text[p.offset..p.offset + 512], p.offset + 512);
            if (e.length.Some? && e.length.value > 0) || e.filename != [] then Go(Place(p.files + [e], p.offset + 512))
            else Go(Place(p.files, |text|))
  {
    hide ParseHeader;
  }

  // The TarGZ object, as far as its files go.
  class TarGZ {
    var files: seq<Entry>

    constructor ()
      ensures files == []
    {
      files := [];
    }

    // parseTar
    method ParseTar(text: seq<Byte>)
      modifies this
      ensures files == Process(text, Place([], 0)).files
    {
      hide Process;
      files := [];
      assert [text][1..] == [] && Flat([text]) == text + [] == text;
      var _ := ProcessTarChunks([text], 0, |text|);
    }

    // processTarChunks
    method ProcessTarChunks(chunks: seq<seq<Byte>>, start: nat, totalSize: nat) returns (offset: nat)
      requires totalSize == |Flat(chunks)|
      modifies this
      ensures Place(files, offset) == Process(Flat(chunks), Place(old(files), start))
    {
      hide Flat, ParseHeader, Substring, TurnAt;
      ghost var text := Flat(chunks);
      offset := start;
      while totalSize >= offset + 512
        invariant Process(text, Place(files, offset)) == Process(text, Place(old(files), start))
        decreases Gap(text, Place(files, offset)), if Waiting(files) then 1 else 0
      {
        ghost var p := Place(files, offset);
        var n := |files|;
        if n > 0 && files[n - 1].data == None {
          var header := files[n - 1];
          if header.length.Some? && offset + header.length.value <= totalSize {
            var s := ChunkSubstring(chunks, offset, offset + header.length.value);
            SubstringInside(text, offset, offset + header.length.value);
            FillTurn(text, p);
            files := files[n - 1 := header.(data := Some(s))];
            offset := offset + 512 * ((header.length.value + 511) / 512);
          } else {
            WaitTurn(text, p);
            break;
          }
        } else {
          var s := ChunkSubstring(chunks, offset, offset + 512);
          SubstringInside(text, offset, offset + 512);
          var header := ParseHeader(s, offset + 512);
          HeaderTurn(text, p);
          if (header.length.Some? && header.length.value > 0) || header.filename != [] {
            files := files + [header];
            offset := offset + 512;
          } else {
            offset := totalSize;
          }
        }
      }
      if totalSize < offset + 512 {
        LastTurn(text, Place(files, offset));
      }
    }
  }

  // ---- archives that arrive in pieces ----

  // The empty header that a pass from p meets, if any.
  function EmptyAt(text: seq<Byte>, p: Place): (o: Option<nat>)
    ensures o.Some? ==> p.offset <= o.value && o.value + 512 <= |text|
    decreases Gap(text, p), if Waiting(p.files) then 1 else 0
  {
    match TurnAt(text, p)
    case Stop => None
    case Go(next) =>
      if !Waiting(p.files) && Empty(HeaderAt(text, p.offset)) then Some(p.offset) else EmptyAt(text, next)
  }

  // One pass after another, over longer and longer beginnings of the archive.
  function Feed(text: seq<Byte>, ns: seq<nat>, p: Place): Place
    requires forall i :: 0 <= i < |ns| ==> ns[i] <= |text|
    decreases |ns|
  {
    if ns == [] then p else Feed(text, ns[1..], Process(text[..ns[0]], p))
  }

  predicate Growing(ns: seq<nat>) {
    forall i, j :: 0 <= i < j < |ns| ==> ns[i] <= ns[j]
  }

  // After the first empty header, no 512 bytes read as the header of a file.
  ghost predicate Quiet(text: seq<Byte>, p: Place) {
    var o := EmptyAt(text, p);
    o.Some? ==> forall n :: o.value + 512 <= n <= |text| - 512 ==> Empty(HeaderAt(text, n))
  }

  // Where a pass over a beginning goes on, a pass over the whole archive goes on alike.
  lemma SameTurn(text: seq<Byte>, n: nat, p: Place)
    requires n <= |text| && TurnAt(text[..n], p).Go?
    ensures !Waiting(p.files) ==> p.offset + 512 <= n && HeaderAt(text[..n], p.offset) == HeaderAt(text, p.offset)
    ensures Waiting(p.files) || !Empty(HeaderAt(text, p.offset)) ==> TurnAt(text, p) == TurnAt(text[..n], p)
  {
    hide Empty, ParseHeader, Blocks;
    var s := text[..n];
    assert s[p.offset..p.offset + 512] == text[p.offset..p.offset + 512];
    if Waiting(p.files) {
      var len := p.files[|p.files| - 1].length.value;
      assert s[p.offset..p.offset + len] == text[p.offset..p.offset + len];
    }
  }

  // A pass over a beginning without an empty header loses nothing.
  lemma {:induction false} PassThenPass(text: seq<Byte>, n: nat, p: Place)
    requires n <= |text| && EmptyAt(text[..n], p).None?
    ensures Process(text, Process(text[..n], p)) == Process(text, p)
    ensures EmptyAt(text, Process(text[..n], p)) == EmptyAt(text, p)
    decreases Gap(text[..n], p), if Waiting(p.files) then 1 else 0
  {
    hide Empty, HeaderAt;
    match TurnAt(text[..n], p)
    case Stop =>
    case Go(next) =>
      SameTurn(text, n, p);
      PassThenPass(text, n, next);
  }

  // A pass over a beginning that meets an empty header has all files of a pass over the whole.
  lemma {:induction false} PassToEmpty(text: seq<Byte>, n: nat, p: Place)
    requires n <= |text| && EmptyAt(text[..n], p).Some?
    ensures EmptyAt(text, p) == EmptyAt(text[..n], p)
    ensures var r := Process(text[..n], p);
            r.offset == n && r.files == Process(text, p).files && !Waiting(r.files)
    decreases Gap(text[..n], p), if Waiting(p.files) then 1 else 0
  {
    hide Empty, HeaderAt;
    match TurnAt(text[..n], p)
    case Go(next) =>
      SameTurn(text, n, p);
      if Waiting(p.files) || !Empty(HeaderAt(text, p.offset)) {
        PassToEmpty(text, n, next);
      }
    case Stop =>
  }

  // Past the first empty header of a quiet archive nothing is found.
  lemma PassQuiet(text: seq<Byte>, n: nat, p: Place)
    requires n <= |text| && !Waiting(p.files) && p.offset <= n
    requires forall k :: p.offset <= k <= |text| - 512 ==> Empty(HeaderAt(text, k))
    ensures var r := Process(text[..n], p);
            r.files == p.files && p.offset <= r.offset <= n
  {
    hide Empty, HeaderAt;
    if TurnAt(text[..n], p).Go? {
      SameTurn(text, n, p);
      assert TurnAt(text[..n], p) == Go(Place(p.files, n));
      assert TurnAt(text[..n], Place(p.files, n)) == Stop;
    }
  }

  // The state after some beginnings: as good as the one at the start, or past the first empty header
  // with all files.
  ghost predicate OnTrack(text: seq<Byte>, p0: Place, p: Place, n: nat) {
    || (Process(text, p) == Process(text, p0) && EmptyAt(text, p) == EmptyAt(text, p0))
    || (&& EmptyAt(text, p0).Some? && EmptyAt(text, p0).value + 512 <= p.offset <= n
        && p.files == Process(text, p0).files && !Waiting(p.files))
  }

  lemma StaysOnTrack(text: seq<Byte>, p0: Place, p: Place, m: nat, n: nat)
    requires m <= n <= |text| && Quiet(text, p0) && OnTrack(text, p0, p, m)
    ensures OnTrack(text, p0, Process(text[..n], p), n)
  {
    hide Process, EmptyAt, Empty, HeaderAt;
    if Process(text, p) == Process(text, p0) && EmptyAt(text, p) == EmptyAt(text, p0) {
      if EmptyAt(text[..n], p).None? {
        PassThenPass(text, n, p);
      } else {
        PassToEmpty(text, n, p);
      }
    } else {
      PassQuiet(text, n, p);
    }
  }

  lemma {:induction false} FeedOnTrack(text: seq<Byte>, p0: Place, p: Place, m: nat, ns: seq<nat>)
    requires ns != [] && Growing(ns) && m <= ns[0] && ns[|ns| - 1] == |text|
    requires Quiet(text, p0) && OnTrack(text, p0, p, m)
    ensures forall i :: 0 <= i < |ns| ==> ns[i] <= |text|
    ensures Feed(text, ns, p).files == Process(text, p0).files
    decreases |ns|
  {
    hide Process, EmptyAt, Quiet;
    StaysOnTrack(text, p0, p, m, ns[0]);
    if |ns| == 1 {
      assert ns == [|text|] && text[..|text|] == text;
      FeedOnce(text, p);
      LastPass(text, p0, p);
    } else {
      FeedOnTrack(text, p0, Process(text[..ns[0]], p), ns[0], ns[1..]);
    }
  }

  lemma {:induction false} ProcessTwice(text: seq<Byte>, p: Place)
    ensures Process(text, Process(text, p)) == Process(text, p)
    decreases Gap(text, p), if Waiting(p.files) then 1 else 0
  {
    match TurnAt(text, p)
    case Stop =>
    case Go(next) => ProcessTwice(text, next);
  }

  lemma LastPass(text: seq<Byte>, p0: Place, p: Place)
    requires OnTrack(text, p0, Process(text, p), |text|)
    ensures Process(text, p).files == Process(text, p0).files
  {
    ProcessTwice(text, p);
  }

  // In whatever growing pieces the archive arrives, the passes find the files of one pass over the
  // whole, if the archive is quiet.
  lemma GrowingPieces(text: seq<Byte>, p: Place, ns: seq<nat>)
    requires ns != [] && Growing(ns) && ns[|ns| - 1] == |text| && Quiet(text, p)
    ensures forall i :: 0 <= i < |ns| ==> ns[i] <= |text|
    ensures Feed(text, ns, p).files == Process(text, p).files
  {
    FeedOnTrack(text, p, p, 0, ns);
  }

  // And only if it is: otherwise two passes may find one file too many.
  lemma NotQuiet(text: seq<Byte>, p: Place) returns (ns: seq<nat>)
    requires !Quiet(text, p)
    ensures |ns| == 2 && Growing(ns) && ns[1] == |text|
    ensures Feed(text, ns, p).files != Process(text, p).files
  {
    hide Empty, HeaderAt, Process, EmptyAt;
    var o := EmptyAt(text, p).value;
    var n :| o + 512 <= n <= |text| - 512 && !Empty(HeaderAt(text, n));
    ns := [n, |text|];
    BeginningMeetsEmpty(text, n, p);
    PassToEmpty(text, n, p);
    var q := Process(text[..n], p);
    OneMore(text, q);
    TwoPasses(text, n, p);
  }

  lemma TwoPasses(text: seq<Byte>, n: nat, p: Place)
    requires n <= |text|
    ensures Feed(text, [n, |text|], p) == Process(text, Process(text[..n], p))
  {
    hide Process;
    var ns := [n, |text|];
    assert ns[1..] == [|text|];
    FeedOnce(text, Process(text[..n], p));
  }

  lemma FeedOnce(text: seq<Byte>, p: Place)
    ensures Feed(text, [|text|], p) == Process(text, p)
  {
    hide Process;
    var ns := [|text|];
    assert ns[1..] == [] && text[..|text|] == text;
  }

  lemma OneMore(text: seq<Byte>, q: Place)
    requires !Waiting(q.files) && q.offset + 512 <= |text| && !Empty(HeaderAt(text, q.offset))
    ensures |Process(text, q).files| > |q.files|
  {
    hide Empty, HeaderAt;
    NeverFewer(text, Place(q.files + [HeaderAt(text, q.offset)], q.offset + 512));
  }

  lemma {:induction false} NeverFewer(text: seq<Byte>, p: Place)
    ensures |Process(text, p).files| >= |p.files|
    decreases Gap(text, p), if Waiting(p.files) then 1 else 0
  {
    match TurnAt(text, p)
    case Stop =>
    case Go(next) => NeverFewer(text, next);
  }

  lemma {:induction false} BeginningMeetsEmpty(text: seq<Byte>, n: nat, p: Place)
    requires EmptyAt(text, p).Some? && EmptyAt(text, p).value + 512 <= n <= |text|
    ensures EmptyAt(text[..n], p).Some?
    decreases Gap(text, p), if Waiting(p.files) then 1 else 0
  {
    hide Empty, ParseHeader;
    var s := text[..n];
    match TurnAt(text, p)
    case Go(next) =>
      if Waiting(p.files) {
        var len := p.files[|p.files| - 1].length.value;
        assert s[p.offset..p.offset + len] == text[p.offset..p.offset + len];
        BeginningMeetsEmpty(text, n, next);
      } else {
        assert s[p.offset..p.offset + 512] == text[p.offset..p.offset + 512];
        if !Empty(HeaderAt(text, p.offset)) {
          BeginningMeetsEmpty(text, n, next);
        }
      }
    case Stop =>
  }

  // An archive that is not quiet: an empty header and after it one of a file. One pass finds nothing, and
  // two find the file.
  lemma FileAfterEnd() returns (text: seq<Byte>, ns: seq<nat>)
    ensures !Quiet(text, Place([], 0)) && Process(text, Place([], 0)).files == []
    ensures |ns| == 2 && Growing(ns) && ns[1] == |text| && Feed(text, ns, Place([], 0)).files != []
  {
    hide Process, EmptyAt, HeaderAt, Empty;
    text := Repeat(0, 512) + [97] + Repeat(0, 511);
    var p := Place([], 0);
    ZeroHeader(text, 0);
    NamedHeader(text, 512);
    EndsAtOnce(text);
    assert !Quiet(text, p);
    ns := NotQuiet(text, p);
  }

  lemma NamedHeader(text: seq<Byte>, n: nat)
    requires n + 512 <= |text| && text[n] != 0
    ensures !Empty(HeaderAt(text, n))
  {
    var s := text[n..n + 512];
    assert s[..100][0] == text[n];
  }

  lemma EndsAtOnce(text: seq<Byte>)
    requires |text| >= 512 && Empty(HeaderAt(text, 0))
    ensures EmptyAt(text, Place([], 0)) == Some(0) && Process(text, Place([], 0)).files == []
  {
    hide Empty, HeaderAt;
    assert TurnAt(text, Place([], 0)) == Go(Place([], |text|));
    assert TurnAt(text, Place([], |text|)) == Stop;
  }

  // An archive that is all zero after its first empty header is quiet.
  lemma ZerosQuiet(text: seq<Byte>, p: Place)
    requires var o := EmptyAt(text, p); o.Some? ==> forall i :: o.value + 512 <= i < |text| ==> text[i] == 0
    ensures Quiet(text, p)
  {
    hide EmptyAt, Empty, HeaderAt;
    var o := EmptyAt(text, p);
    if o.Some? {
      forall n | o.value + 512 <= n <= |text| - 512
        ensures Empty(HeaderAt(text, n))
      {
        ZeroHeader(text, n);
      }
    }
  }

  lemma ZeroHeader(text: seq<Byte>, n: nat)
    requires n + 512 <= |text| && forall i :: n <= i < n + 512 ==> text[i] == 0
    ensures Empty(HeaderAt(text, n))
  {
    var s := text[n..n + 512];
    assert forall i :: 0 <= i < 512 ==> s[i] == text[n + i];
    NoDigits(s[124..136]);
  }

  lemma {:induction false} NoDigits(s: seq<Byte>)
    requires forall i :: 0 <= i < |s| ==> !(48 <= s[i] <= 57)
    ensures Digits(s) == []
  {
    if s != [] {
      NoDigits(s[1..]);
    }
  }
}
