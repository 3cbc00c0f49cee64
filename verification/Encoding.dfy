// Writing literals and copies with any codes, and reading them back (RFC 1951, section 3.2.5).
module Encoding {
  import opened Bits
  import opened JsBits
  import opened Canonical
  import opened Huffman
  import opened Deflate
  import opened Runs
  import opened BitStrings
  import opened Lz77

  // ---- symbols ----

  // Symbol s has a code.
  predicate HasCode(lens: seq<nat>, s: nat) {
    s < |lens| && lens[s] > 0
  }

  // Lengths of at most 16 that leave room for all codes.
  predicate IsCode(lens: seq<nat>) {
    Bounded(lens) && !Oversubscribed(lens)
  }

  function SymbolBits(lens: seq<nat>, s: nat): BitString
    requires s < |lens|
  {
    BitString(CodeBits(Code(lens, s), lens[s]), lens[s])
  }

  // Where the lengths leave room for all codes, every code has room in its length.
  lemma CodeFits(lens: seq<nat>, s: nat)
    requires IsCode(lens) && HasCode(lens, s)
    ensures Code(lens, s) < P2(lens[s])
  {
    hide First, Code, CountIn, Kraft;
    KraftIsFirst(lens);
    FirstGrows(lens, lens[s], 17);
    P2Add(17 - lens[s], lens[s]);
    CodeBelow(lens, s);
    hide P2;
    ScaledBelow(P2(17 - lens[s]), First(lens, lens[s]) + Count(lens, lens[s]), P2(lens[s]), First(lens, 17), P2(17));
  }

  lemma ScaledBelow(p: int, c: int, q: int, first: int, pq: int)
    requires p > 0 && pq == p * q && p * c <= first <= pq
    ensures c <= q
  {
    if c > q {
      MulMono(p, q + 1, c);
      Distribute(p, q, 1, 0);
    }
  }

  lemma SymbolRead(lens: seq<nat>, s: nat, x: Stream)
    requires IsCode(lens) && HasCode(lens, s)
    ensures WfBits(SymbolBits(lens, s))
    ensures Begins(x, SymbolBits(lens, s)) ==> Symbol(lens, x.rest) == Some(s)
  {
    hide Code, CodeBits, IsCode;
    CodeFits(lens, s);
    CodeBitsRead(Code(lens, s), lens[s], x.rest);
    if Begins(x, SymbolBits(lens, s)) {
      assert Matches(lens, s, x.rest);
      SymbolIs(lens, s, x.rest);
    }
  }

  // ---- lengths and distances ----

  // Where a value is found in a list of base values: the last place whose base does not exceed it.
  function Place(base: seq<nat>, v: nat, i: nat): (r: nat)
    requires i < |base| && base[0] <= v
    ensures r <= i && base[r] <= v && (r < i ==> v < base[r + 1])
  {
    if base[i] <= v then i else Place(base, v, i - 1)
  }

  // A length symbol reaches as far as the next one.
  lemma LengthGap(i: nat)
    requires i < 28
    ensures LengthBits()[i] <= 5 && CopyLengths()[i + 1] - CopyLengths()[i] <= P2(LengthBits()[i])
  {
    P2Values();
    assert P2(0) == 1;
  }

  // The place of a length among the length symbols.
  function LengthIndex(len: nat): (i: nat)
    requires 3 <= len <= 258
    ensures i < 29 && LengthBits()[i] <= 5
    ensures CopyLengths()[i] <= len && len - CopyLengths()[i] < P2(LengthBits()[i])
  {
    var i := Place(CopyLengths(), len, 28);
    if i < 28 then LengthGap(i); i else i
  }

  lemma DistanceGap(i: nat)
    requires i < 30
    ensures (if i < 29 then CopyDistances()[i + 1] else WSIZE + 1) - CopyDistances()[i] <= P2(DistanceBits()[i])
  {
    P2Values();
    SmallPowers();
  }

  // The place of a distance among the distance symbols.
  function DistanceIndex(dist: nat): (j: nat)
    requires 1 <= dist <= WSIZE
    ensures j < 30 && DistanceBits()[j] <= 13
    ensures CopyDistances()[j] <= dist && dist - CopyDistances()[j] < P2(DistanceBits()[j])
  {
    var j := Place(CopyDistances(), dist, 29);
    DistanceGap(j);
    j
  }

  // ---- tokens ----

  function LengthString(ll: seq<nat>, len: nat): BitString
    requires 3 <= len <= 258 && LengthCoded(ll, len)
  {
    var i := LengthIndex(len);
    Cat(SymbolBits(ll, 257 + i), BitString(len - CopyLengths()[i], LengthBits()[i]))
  }

  function DistanceString(dl: seq<nat>, dist: nat): BitString
    requires 1 <= dist <= WSIZE && DistanceCoded(dl, dist)
  {
    var j := DistanceIndex(dist);
    Cat(SymbolBits(dl, j), BitString(dist - CopyDistances()[j], DistanceBits()[j]))
  }

  predicate LengthCoded(ll: seq<nat>, len: nat)
    requires 3 <= len <= 258
  {
    HasCode(ll, 257 + LengthIndex(len))
  }

  predicate DistanceCoded(dl: seq<nat>, dist: nat)
    requires 1 <= dist <= WSIZE
  {
    HasCode(dl, DistanceIndex(dist))
  }

  // The codes cover what the token needs.
  predicate TokenCoded(ll: seq<nat>, dl: seq<nat>, t: Token) {
    WfToken(t) &&
    match t
    case Literal(b) => HasCode(ll, b)
    case Copy(len, dist) => LengthCoded(ll, len) && DistanceCoded(dl, dist)
  }

  function TokenBits(ll: seq<nat>, dl: seq<nat>, t: Token): BitString
    requires TokenCoded(ll, dl, t)
  {
    match t
    case Literal(b) => SymbolBits(ll, b)
    case Copy(len, dist) => Cat(LengthString(ll, len), DistanceString(dl, dist))
  }

  predicate TokensCoded(ll: seq<nat>, dl: seq<nat>, ts: seq<Token>) {
    HasCode(ll, 256) && forall i :: 0 <= i < |ts| ==> TokenCoded(ll, dl, ts[i])
  }

  // The tokens and the end of the block.
  function TokensBits(ll: seq<nat>, dl: seq<nat>, ts: seq<Token>): BitString
    requires TokensCoded(ll, dl, ts)
  {
    if ts == [] then SymbolBits(ll, 256) else Cat(TokenBits(ll, dl, ts[0]), TokensBits(ll, dl, ts[1..]))
  }

  lemma LengthRead(ll: seq<nat>, len: nat, s: Stream)
    requires IsCode(ll) && 3 <= len <= 258 && LengthCoded(ll, len)
    ensures WfBits(LengthString(ll, len))
    ensures Begins(s, LengthString(ll, len)) ==>
              var i := LengthIndex(len);
              && Symbol(ll, s.rest) == Some(257 + i) && LengthBits()[i] <= 5
              && CopyLengths()[i] + Peek(Skip(s, ll[257 + i]), LengthBits()[i]) == len
              && Skip(Skip(s, ll[257 + i]), LengthBits()[i]) == Skip(s, LengthString(ll, len).n)
  {
    hide Skip, Peek, Symbol, CopyLengths, LengthBits, LengthIndex, Cat, CodeBits, Code, IsCode;
    var i := LengthIndex(len);
    var a, b := SymbolBits(ll, 257 + i), BitString(len - CopyLengths()[i], LengthBits()[i]);
    SymbolRead(ll, 257 + i, s);
    CatWf(a, b);
    SkipCat(s, a, b);
    if Begins(s, LengthString(ll, len)) {
      CatBegins(s, a, b);
    }
  }

  lemma DistanceRead(dl: seq<nat>, dist: nat, s: Stream)
    requires IsCode(dl) && 1 <= dist <= WSIZE && DistanceCoded(dl, dist)
    ensures WfBits(DistanceString(dl, dist))
    ensures Begins(s, DistanceString(dl, dist)) ==>
              var j := DistanceIndex(dist);
              && Symbol(dl, s.rest) == Some(j) && DistanceBits()[j] <= 13
              && CopyDistances()[j] + Peek(Skip(s, dl[j]), DistanceBits()[j]) == dist
              && Skip(Skip(s, dl[j]), DistanceBits()[j]) == Skip(s, DistanceString(dl, dist).n)
  {
    hide Skip, Peek, Symbol, CopyDistances, DistanceBits, DistanceIndex, Cat, CodeBits, Code, IsCode;
    var j := DistanceIndex(dist);
    var a, b := SymbolBits(dl, j), BitString(dist - CopyDistances()[j], DistanceBits()[j]);
    SymbolRead(dl, j, s);
    CatWf(a, b);
    SkipCat(s, a, b);
    if Begins(s, DistanceString(dl, dist)) {
      CatBegins(s, a, b);
    }
  }

  lemma TokenBitsWf(ll: seq<nat>, dl: seq<nat>, t: Token)
    requires IsCode(ll) && IsCode(dl) && TokenCoded(ll, dl, t)
    ensures WfBits(TokenBits(ll, dl, t))
  {
    hide IsCode, LengthString, DistanceString, SymbolBits, Cat;
    match t {
      case Literal(b) => SymbolRead(ll, b, Stream(0, 0));
      case Copy(len, dist) =>
        LengthRead(ll, len, Stream(0, 0));
        DistanceRead(dl, dist, Stream(0, 0));
        CatWf(LengthString(ll, len), DistanceString(dl, dist));
    }
  }

  lemma {:induction false} TokensBitsWf(ll: seq<nat>, dl: seq<nat>, ts: seq<Token>)
    requires IsCode(ll) && IsCode(dl) && TokensCoded(ll, dl, ts)
    ensures WfBits(TokensBits(ll, dl, ts))
    decreases |ts|
  {
    hide IsCode, TokenBits, SymbolBits, Cat;
    if ts == [] {
      SymbolRead(ll, 256, Stream(0, 0));
    } else {
      TokenBitsWf(ll, dl, ts[0]);
      TokensBitsWf(ll, dl, ts[1..]);
      CatWf(TokenBits(ll, dl, ts[0]), TokensBits(ll, dl, ts[1..]));
    }
  }

  // ---- the machine on them ----

  // In a block of these codes, with nothing pending.
  predicate InBlock(st: State, ll: seq<nat>, dl: seq<nat>) {
    Wf(st) && st.block == Codes(ll, dl) && st.len == 0 && IsCode(ll) && IsCode(dl)
  }

  lemma HasCodeLongest(lens: seq<nat>, s: nat)
    requires HasCode(lens, s)
    ensures Longest(lens) > 0
  {
  }

  lemma ValidSymbol(v: nat)
    requires v < 286
    ensures SymE(LiteralAlphabet(), v) != 99
  {
    if v > 256 {
      NotInvalid(v - 257);
    }
  }

  lemma NotInvalid(i: nat)
    requires i < 29
    ensures LengthBits()[i] != 99
  {
  }

  lemma LiteralStep(st: State, ll: seq<nat>, dl: seq<nat>, b: Byte)
    requires InBlock(st, ll, dl) && HasCode(ll, b) && Begins(st.s, SymbolBits(ll, b))
    ensures Next(st) == Emit(st.(s := Skip(st.s, SymbolBits(ll, b).n), hist := st.hist + [b]))
  {
    hide Wf, WfCodes, Skip, Peek, Symbol, Next, Longest, Begins, CodeBits, Code, IsCode;
    SymbolRead(ll, b, st.s);
    HasCodeLongest(ll, b);
    ValidSymbol(b);
    EntryNext(st);
  }

  lemma EndStep(st: State, ll: seq<nat>, dl: seq<nat>)
    requires InBlock(st, ll, dl) && HasCode(ll, 256) && Begins(st.s, SymbolBits(ll, 256))
    ensures Next(st) == Silent(st.(s := Skip(st.s, SymbolBits(ll, 256).n), block := NoBlock))
  {
    hide Wf, WfCodes, Skip, Peek, Symbol, Next, Longest, Begins, CodeBits, Code, IsCode;
    SymbolRead(ll, 256, st.s);
    HasCodeLongest(ll, 256);
    ValidSymbol(256);
    EntryNext(st);
  }

  lemma LengthStep(st: State, ll: seq<nat>, dl: seq<nat>, len: nat)
    requires InBlock(st, ll, dl) && 3 <= len <= 258 && LengthCoded(ll, len) && Begins(st.s, LengthString(ll, len))
    ensures Next(st) == NextDistance(st, Skip(st.s, LengthString(ll, len).n), len, dl)
  {
    hide Wf, WfCodes, Skip, Peek, Symbol, Next, NextDistance, Longest, Begins, LengthString, LengthIndex, CopyLengths,
         LengthBits, IsCode;
    var i := LengthIndex(len);
    LengthRead(ll, len, st.s);
    HasCodeLongest(ll, 257 + i);
    ValidSymbol(257 + i);
    EntryNext(st);
  }

  lemma DistanceStep(st: State, ll: seq<nat>, dl: seq<nat>, s: Stream, len: nat, dist: nat)
    requires InBlock(st, ll, dl) && len > 0 && 1 <= dist <= WSIZE
    requires DistanceCoded(dl, dist) && Begins(s, DistanceString(dl, dist))
    ensures NextDistance(st, s, len, dl)
         == Silent(st.(s := Skip(s, DistanceString(dl, dist).n), len := len, dist := dist))
  {
    hide Wf, WfCodes, Skip, Peek, Symbol, NextDistance, Longest, Begins, DistanceString, DistanceIndex, CopyDistances,
         DistanceBits, IsCode;
    DistanceRead(dl, dist, s);
    DistanceNext(st, s, len, dl);
  }

  // A length and a distance.
  lemma CopyStart(st: State, ll: seq<nat>, dl: seq<nat>, len: nat, dist: nat)
    requires InBlock(st, ll, dl) && TokenCoded(ll, dl, Copy(len, dist))
    requires Begins(st.s, TokenBits(ll, dl, Copy(len, dist)))
    ensures Next(st)
         == Silent(st.(s := Skip(st.s, TokenBits(ll, dl, Copy(len, dist)).n), len := len, dist := dist))
  {
    hide Wf, WfCodes, Skip, Peek, Next, NextDistance, LengthString, DistanceString, Begins, Cat, IsCode, LengthIndex,
         DistanceIndex;
    LengthRead(ll, len, st.s);
    CatBegins(st.s, LengthString(ll, len), DistanceString(dl, dist));
    SkipCat(st.s, LengthString(ll, len), DistanceString(dl, dist));
    LengthStep(st, ll, dl, len);
    DistanceStep(st, ll, dl, Skip(st.s, LengthString(ll, len).n), len, dist);
  }

  // A pending copy.
  lemma CopyOutNext(hist: seq<Byte>, len: nat, dist: nat)
    requires 1 <= dist <= |hist| && len > 0
    ensures CopyOut(hist, len, dist) == CopyOut(hist + [hist[|hist| - dist]], len - 1, dist)
    ensures len == 1 ==> CopyOut(hist, len, dist) == hist + [hist[|hist| - dist]]
  {
  }

  lemma {:induction false} CopyReaches(st: State, m: nat)
    requires Wf(st) && st.len > 0 && m >= st.len
    ensures Reaches(st, m, st.(hist := CopyOut(st.hist, st.len, st.dist), len := 0, dist := 0), m - st.len)
    decreases st.len
  {
    hide Reaches, Next, CopyOut, Wf;
    CopyNext(st);
    EmitReaches(st, m);
    var st' := Next(st).next;
    ReachesWf(st, m, st', m - 1);
    var done := st.(hist := CopyOut(st.hist, st.len, st.dist), len := 0, dist := 0);
    CopyOutNext(st.hist, st.len, st.dist);
    if st.len > 1 {
      CopyReaches(st', m - 1);
      ReachesTrans(st, m, st', m - 1, done, m - st.len);
    }
  }

  lemma LiteralReaches(st: State, ll: seq<nat>, dl: seq<nat>, b: Byte, m: nat)
    requires InBlock(st, ll, dl) && HasCode(ll, b) && Begins(st.s, SymbolBits(ll, b)) && m > 1
    ensures Reaches(st, m, st.(s := Skip(st.s, SymbolBits(ll, b).n), hist := Append(st.hist, b)), m - 1)
  {
    hide Reaches, Next, Skip, Begins, SymbolBits, IsCode, Wf;
    LiteralStep(st, ll, dl, b);
    EmitReaches(st, m);
  }

  lemma CopyTokenReaches(st: State, ll: seq<nat>, dl: seq<nat>, t: Token, m: nat)
    requires t.Copy? && InBlock(st, ll, dl) && TokenCoded(ll, dl, t) && Begins(st.s, TokenBits(ll, dl, t)) && m > t.len
    requires t.dist <= |st.hist|
    ensures Reaches(st, m, st.(s := Skip(st.s, TokenBits(ll, dl, t).n), hist := CopyOut(st.hist, t.len, t.dist)),
                    m - t.len)
  {
    hide Reaches, Next, Skip, Begins, TokenBits, IsCode, LengthCoded, DistanceCoded, CopyOut;
    CopyStart(st, ll, dl, t.len, t.dist);
    SilentReaches(st, m);
    var c := Next(st).next;
    var end := c.(hist := CopyOut(c.hist, t.len, t.dist), len := 0, dist := 0);
    CopyReaches(c, m);
    ReachesTrans(st, m, c, m, end, m - t.len);
    assert end == st.(s := c.s, hist := CopyOut(st.hist, t.len, t.dist));
  }

  // Reading the bits of a token puts out what it stands for.
  lemma TokenReaches(st: State, ll: seq<nat>, dl: seq<nat>, t: Token, m: nat)
    requires InBlock(st, ll, dl) && TokenCoded(ll, dl, t) && Begins(st.s, TokenBits(ll, dl, t)) && m > Size(t)
    requires t.Copy? ==> t.dist <= |st.hist|
    ensures var st' := st.(s := Skip(st.s, TokenBits(ll, dl, t).n), hist := ExpandOne(st.hist, t));
            Reaches(st, m, st', m - Size(t)) && InBlock(st', ll, dl)
  {
    hide Reaches, Skip, Begins, SymbolBits, IsCode, LengthCoded, DistanceCoded, LengthString, DistanceString, Cat,
         CopyOut, Wf, HasCode;
    match t {
      case Literal(b) => LiteralReaches(st, ll, dl, b, m);
      case Copy(_, _) => CopyTokenReaches(st, ll, dl, t, m);
    }
    ReachesWf(st, m, st.(s := Skip(st.s, TokenBits(ll, dl, t).n), hist := ExpandOne(st.hist, t)), m - Size(t));
  }

  // Reading the bits of all tokens, and the end of the block.
  lemma {:induction false} TokensReach(st: State, ll: seq<nat>, dl: seq<nat>, ts: seq<Token>, m: nat)
    requires InBlock(st, ll, dl) && TokensCoded(ll, dl, ts) && InReach(|st.hist|, ts)
    requires Begins(st.s, TokensBits(ll, dl, ts))
    requires m > |Expand(st.hist, ts)| - |st.hist|
    ensures var st' := st.(s := Skip(st.s, TokensBits(ll, dl, ts).n), hist := Expand(st.hist, ts), block := NoBlock);
            Reaches(st, m, st', m - (|st'.hist| - |st.hist|))
    decreases |ts|
  {
    hide Reaches, Next, Skip, Peek, TokenBits, Begins, SymbolBits, Cat, Wf, IsCode, TokenCoded;
    if ts == [] {
      EndStep(st, ll, dl);
      SilentReaches(st, m);
    } else {
      var t, rest := ts[0], TokensBits(ll, dl, ts[1..]);
      TokenBitsWf(ll, dl, t);
      CatBegins(st.s, TokenBits(ll, dl, t), rest);
      SkipCat(st.s, TokenBits(ll, dl, t), rest);
      TokenReaches(st, ll, dl, t, m);
      var c := st.(s := Skip(st.s, TokenBits(ll, dl, t).n), hist := ExpandOne(st.hist, t));
      TokensReach(c, ll, dl, ts[1..], m - Size(t));
      var st' := st.(s := Skip(st.s, TokensBits(ll, dl, ts).n), hist := Expand(st.hist, ts), block := NoBlock);
      ReachesTrans(st, m, c, m - Size(t), st', m - (|st'.hist| - |st.hist|));
    }
  }
}
