// zip_HuftBuild: from code lengths to lookup tables.
module HuftBuild {
  import opened Bits
  import opened JsBits
  import opened Canonical
  import opened Huffman
  import opened HuftInvariant
  import opened HuftSteps

  // ---- choosing the size of a table ----

  // f bit patterns of length j are not used up by the codes seen so far.
  ghost predicate PatternsLeft(f: nat, c: seq<nat>, lens: seq<nat>, w: nat, j: nat)
    requires j <= 16 && |c| == 17
  {
    && 0 < f <= P2(j)
    && (w == 0 ==> f + First(lens, j) + c[j] == P2(j))
  }

  lemma LongerPatterns(f: nat, c: seq<nat>, lens: seq<nat>, g: nat, w: nat, j: nat)
    requires Counts(c, lens, g) && 1 <= j && w + j < g
    requires PatternsLeft(f, c, lens, w, j)
    ensures Shl(f, 1) == 2 * f
    ensures c[w + j + 1] < 2 * f ==> PatternsLeft(2 * f - c[w + j + 1], c, lens, w, j + 1)
    ensures w == 0 && j + 1 < g ==> c[j + 1] < 2 * f
  {
    ShlIsP2(j);
    assert P2(1) == 2;
    ToInt32Same(f * 2);
    if w == 0 {
      assert RoomAt(c, lens, j);
      if j + 1 < g {
        assert RoomAt(c, lens, j + 1);
      }
    }
  }

  // Tries smaller tables up to z bits: as many bits as codes can use up.
  method TryTables(f0: nat, c: seq<nat>, k: nat, w: nat, g: nat, z: nat, ghost lens: seq<nat>) returns (j: nat)
    requires Counts(c, lens, g) && w < k < g && z <= g - w
    requires PatternsLeft(f0, c, lens, w, k - w)
    ensures k - w < j <= g - w
    ensures w == 0 && z == g ==> j == g
  {
    var f: int, xp := f0, k;
    j := k - w + 1;
    while j < z
      invariant k - w < j <= g - w && xp + 1 == w + j
      invariant f > 0 && PatternsLeft(f, c, lens, w, j - 1)
    {
      LongerPatterns(f, c, lens, g, w, j - 1);
      f := Shl(f, 1);
      xp := xp + 1;
      if f <= c[xp] {
        break;
      }
      f := f - c[xp];
      j := j + 1;
    }
  }

  // A table of k - w bits, its first try, is either large enough or leaves patterns over.
  lemma FirstTry(c: seq<nat>, k: nat, w: nat, a: nat, g: nat, lens: seq<nat>)
    requires Counts(c, lens, g) && w < k <= g && a + 1 <= c[k]
    requires k == g ==> P2(g - w) <= a + 1
    requires w == 0 ==> a + 1 == c[k] && First(lens, k) == 0
    ensures Shl(1, k - w) == P2(k - w)
    ensures P2(k - w) > a + 1 ==> k < g && PatternsLeft(P2(k - w) - (a + 1), c, lens, w, k - w)
    ensures P2(k - w) <= a + 1 && w == 0 ==> k == g
  {
    ShlIsP2(k - w);
    if k < g {
      assert RoomAt(c, lens, k);
    }
  }

  // The size of a table that starts after w bits, when a codes of length k are left beside the one
  // that needs the table. A first table that may be as large as the longest code is that large.
  method TableBits(c: seq<nat>, k: nat, w: nat, a: nat, g: nat, mm: nat, el: nat, ghost lens: seq<nat>) returns (j: nat)
    requires Counts(c, lens, g) && w < k <= g && a + 1 <= c[k]
    requires k == g ==> P2(g - w) <= a + 1
    requires w == 0 ==> a + 1 == c[k] && First(lens, k) == 0
    ensures 1 <= j && w + j <= g
    ensures w == 0 && mm >= g && el >= g ==> j == g
  {
    var z := g - w;
    if z > mm {
      z := mm;
    }
    j := k - w;
    FirstTry(c, k, w, a, g, lens);
    var f := Shl(1, j);
    if f > a + 1 {
      j := TryTables(f - (a + 1), c, k, w, g, z, lens);
    }
    if w + j > el && w < el {
      j := el - w;
    }
  }

  // ---- one code ----

  // The builder stands before code number `code` of length k.
  ghost predicate Ready(g: Gen, meta: seq<Meta>, k: nat, code: nat)
    requires Shape(g.root, meta) && Stack(g, meta)
  {
    && 0 <= g.i < P2(k)
    && Msb(g.i, k) == code < P2(k)
    && (g.h >= 0 ==> g.w < k && InTable(meta[g.u[g.h]], g.i))
    && (Top(g) < k ==> g.i < P2(Top(g)))
    && (Top(g) >= k ==> g.h >= 0 && g.q == g.u[g.h])
  }

  // How many codes of length k are left from this one on, when the longest are of length g.
  lemma CodesLeft(g: Gen, meta: seq<Meta>, k: nat, code: nat)
    requires Shape(g.root, meta) && Stack(g, meta) && Ready(g, meta, k, code) && Top(g) < k
    ensures P2(k - Top(g)) <= P2(k) - code
    ensures Top(g) == 0 ==> code == 0
  {
    var w := Top(g);
    MsbPad(g.i, w, k - w);
    P2Add(k - w, w);
    MsbBound(g.i, w);
    var p := P2(k - w);
    MulMono(p, Msb(g.i, w) + 1, P2(w));
    Distribute(p, Msb(g.i, w), 1, 0);
    if w == 0 {
      assert p * 0 == 0;
    }
  }

  lemma OpenReady(g: Gen, meta: seq<Meta>, k: nat, code: nat, q: Table, j: nat, n: nat)
    requires Links(g.root, meta) && Stack(g, meta) && Ready(g, meta, k, code) && Top(g) < k <= 16 && Blank(q, j)
    requires CanOpen(g)
    requires Shape(Opened(g, q, j, n).root, meta + [Meta(Top(g), j, g.i)])
    requires Stack(Opened(g, q, j, n), meta + [Meta(Top(g), j, g.i)])
    ensures Ready(Opened(g, q, j, n), meta + [Meta(Top(g), j, g.i)], k, code)
  {
    var g', meta' := Opened(g, q, j, n), meta + [Meta(Top(g), j, g.i)];
    LowSmall(g.i, Top(g));
    P2Mono(Top(g), Top(g'));
    assert meta'[g'.u[g'.h]] == Meta(Top(g), j, g.i);
  }

  // Puts the blank table q on the stack, linked from the table below it. The link keeps the value
  // n of the entry last placed.
  method LinkTable(g: Gen, ghost meta: seq<Meta>, k: nat, q: Table, j: nat, n: nat, ghost code: nat) returns (g': Gen)
    requires Links(g.root, meta) && Stack(g, meta) && NeedsTable(g, meta, k, code) && CanOpen(g)
    ensures g' == Opened(g, q, j, n)
  {
    var w := g.w + g.lx[1 + g.h];
    var h := g.h + 1;
    var root, x := g.root, g.x;
    if h > 0 {
      x := x[h := g.i];
      ShlIsP2(w);
      AndMask(g.i, w);
      LowSmall(g.i, w);
      var at := High(And(g.i, Shl(1, w) - 1), w - g.lx[h]);
      root := root[g.u[h - 1] := root[g.u[h - 1]][at := HuftNode(16 + j, g.lx[h], n, |root|)]];
    }
    g' := Gen(root + [q], g.u[h := |root|], g.lx[1 + h := j], x, h, w, g.i, |root|);
  }

  // Makes the next table. r is the entry last placed.
  method OpenTable(g: Gen, ghost meta: seq<Meta>, ghost lens: seq<nat>, ghost al: Alphabet, c: seq<nat>, k: nat, a: nat,
                   gmax: nat, mm: nat, el: nat, r: HuftNode, ghost code: nat)
    returns (g': Gen, ghost meta': seq<Meta>)
    requires Covers(al, |lens|) && Counts(c, lens, gmax) && 1 <= k <= gmax
    requires a + 1 <= c[k] && code == First(lens, k) + (c[k] - a - 1)
    requires Inv(g, meta, lens, al, k, code) && Ready(g, meta, k, code) && Top(g) < k
    ensures Inv(g', meta', lens, al, k, code) && Ready(g', meta', k, code)
    ensures Top(g') > Top(g) && g'.h >= 0
    ensures g.h == -1 && mm >= gmax && el >= gmax ==> Top(g') == gmax
    ensures |g'.root| == |g.root| + 1
  {
    CodesLeft(g, meta, k, code);
    var j := TableBits(c, k, Top(g), a, gmax, mm, el, lens);
    ShlIsP2(j);
    var q := seq(Shl(1, j), _ => HuftNode(0, 0, 0, 0));
    OpenInv(g, meta, lens, al, k, code, q, j, r.n);
    OpenReady(g, meta, k, code, q, j, r.n);
    g' := LinkTable(g, meta, k, q, j, r.n, code);
    meta' := meta + [Meta(Top(g), j, g.i)];
  }

  // ---- the entry of a code ----

  // v[pidx] is the next symbol, unless the symbols (total of them) have run out.
  ghost predicate NextSymbol(v: seq<nat>, pidx: nat, total: nat, lens: seq<nat>, g: nat, k: nat, code: nat) {
    && Longest(lens) == g && 1 <= k <= g && Count(lens, g) > 0
    && Sorted(v, lens, |lens|, g) && total == Offset(lens, g + 1) <= |v|
    && code >= First(lens, k)
    && (k < g ==> code < First(lens, k) + Count(lens, k))
    && pidx == Offset(lens, k) + if code < First(lens, k) + Count(lens, k) then code - First(lens, k)
                                 else Count(lens, k)
  }

  lemma SymbolHere(v: seq<nat>, pidx: nat, total: nat, lens: seq<nat>, g: nat, k: nat, code: nat)
    requires NextSymbol(v, pidx, total, lens, g, k, code) && code < First(lens, k) + Count(lens, k)
    ensures pidx < total && v[pidx] < |lens| && lens[v[pidx]] == k && Code(lens, v[pidx]) == code
  {
    OffsetMono(lens, k, g + 1);
    var m := code - First(lens, k);
    assert 0 <= m < CountIn(lens, |lens|, k);
    assert SortedAt(v, lens, k, m);
  }

  lemma SymbolsSpent(v: seq<nat>, pidx: nat, total: nat, lens: seq<nat>, g: nat, k: nat, code: nat)
    requires NextSymbol(v, pidx, total, lens, g, k, code) && code >= First(lens, k) + Count(lens, k)
    ensures 0 < pidx == total && k == g && lens != [] && v[pidx - 1] == LastSymbol(lens)
  {
    assert pidx == total;
    LastSorted(v, lens, g);
  }

  lemma LastSorted(v: seq<nat>, lens: seq<nat>, g: nat)
    requires 1 <= g && Longest(lens) == g && Count(lens, g) > 0 && Sorted(v, lens, |lens|, g)
    ensures lens != [] && 0 < Offset(lens, g) + Count(lens, g) <= |v|
    ensures v[Offset(lens, g) + Count(lens, g) - 1] == LastSymbol(lens)
  {
    var m := Count(lens, g) - 1;
    assert SortedAt(v, lens, g, m);
    RankUnique(lens, v[Offset(lens, g) + m], LastSymbol(lens));
  }

  lemma BeyondAll(lens: seq<nat>, g: nat, x: int)
    requires Longest(lens) == g && Msb(x, g) >= First(lens, g) + Count(lens, g)
    ensures Symbol(lens, x) == None
  {
    forall s: nat
      ensures !Matches(lens, s, x)
    {
      if Matches(lens, s, x) {
        CodeBelow(lens, s);
        if lens[s] < g {
          MatchOrder(lens, s, x, g);
        }
      }
    }
  }

  // The entry last made holds the value of the symbol before v[pidx].
  predicate HoldsLast(r: HuftNode, v: seq<nat>, pidx: nat, al: Alphabet, n: nat)
    requires Covers(al, n)
  {
    0 < pidx <= |v| && v[pidx - 1] < n ==> r.n == SymN(al, v[pidx - 1])
  }

  // The entry for the next code: that of the next symbol or, when none is left, an invalid one.
  method MakeEntry(v: seq<nat>, pidx: nat, total: nat, al: Alphabet, k: nat, w: nat, r: HuftNode, ghost lens: seq<nat>,
                   ghost g: nat, ghost code: nat)
    returns (r': HuftNode, pidx': nat)
    requires Covers(al, |lens|) && w < k <= 16
    requires NextSymbol(v, pidx, total, lens, g, k, code)
    requires HoldsLast(r, v, pidx, al, |lens|)
    ensures !IsLink(r') && r'.b == k - w && forall x :: Msb(x, k) == code ==> LeafOK(lens, al, r', w, x)
    ensures pidx' == if pidx < total then pidx + 1 else pidx
    ensures HoldsLast(r', v, pidx', al, |lens|)
  {
    if code < First(lens, k) + Count(lens, k) {
      SymbolHere(v, pidx, total, lens, g, k, code);
    } else {
      SymbolsSpent(v, pidx, total, lens, g, k, code);
    }
    r', pidx' := r.(b := k - w), pidx;
    if pidx >= total {
      r' := r'.(e := 99);
    } else if v[pidx] < al.simple {
      r' := r'.(e := if v[pidx] < 256 then 16 else 15, n := v[pidx]);
      pidx' := pidx + 1;
    } else {
      r' := r'.(e := al.extra[v[pidx] - al.simple], n := al.base[v[pidx] - al.simple]);
      pidx' := pidx + 1;
    }
    forall x | Msb(x, k) == code
      ensures LeafOK(lens, al, r', w, x)
    {
      if pidx < total {
        SymbolIs(lens, v[pidx], x);
      } else {
        BeyondAll(lens, g, x);
      }
    }
  }

  // ---- after a code ----

  // Between code `prev`, which has been placed, and the next one, i: where the tables up to the one
  // on top still hold prev.
  ghost predicate Leaving(g: Gen, meta: seq<Meta>, k: nat, code: nat, prev: nat)
    requires Shape(g.root, meta) && Stack(g, meta)
  {
    && 1 <= k <= 16 && code <= P2(k)
    && g.h >= 0 && g.w < k
    && g.x[g.h] == meta[g.u[g.h]].pfx
    && g.w == meta[g.u[g.h]].w
    && InTable(meta[g.u[g.h]], prev) && Msb(prev, k) + 1 == code
    && 0 <= g.i < P2(k)
    && (if code < P2(k) then Msb(g.i, k) == code else g.i == 0)
    && (Top(g) < k && code < P2(k) ==> g.i < P2(Top(g)))
    && (Top(g) >= k ==> g.q == g.u[g.h])
  }

  // Backs up over finished tables: i is the code after code `prev`, whose table is on top.
  method Backup(g: Gen, ghost meta: seq<Meta>, ghost lens: seq<nat>, ghost al: Alphabet, ghost k: nat, ghost code: nat,
                ghost prev: nat)
    returns (g': Gen)
    requires Covers(al, |lens|)
    requires Inv(g, meta, lens, al, k, code) && Leaving(g, meta, k, code, prev)
    ensures Inv(g', meta, lens, al, k, code) && 0 <= g'.h <= g.h && g' == g.(h := g'.h, w := g'.w)
    ensures code < P2(k) ==> Ready(g', meta, k, code)
  {
    g' := g;
    AtPrefix(g', meta, k, code, prev);
    while And(g'.i, Shl(1, g'.w) - 1) != g'.x[g'.h]
      invariant Inv(g', meta, lens, al, k, code) && Leaving(g', meta, k, code, prev)
      invariant 0 <= g'.h <= g.h && g' == g.(h := g'.h, w := g'.w)
      invariant And(g'.i, Shl(1, g'.w) - 1) == g'.x[g'.h] <==> InTable(meta[g'.u[g'.h]], g'.i)
      decreases g'.h
    {
      BackupStep(g', meta, lens, al, k, code, prev);
      g' := g'.(w := g'.w - g'.lx[g'.h], h := g'.h - 1);
      AtPrefix(g', meta, k, code, prev);
    }
    if code < P2(k) {
      Settled(g', meta, k, code, prev);
    }
  }

  lemma AtPrefix(g: Gen, meta: seq<Meta>, k: nat, code: nat, prev: nat)
    requires Shape(g.root, meta) && Stack(g, meta) && Leaving(g, meta, k, code, prev)
    ensures And(g.i, Shl(1, g.w) - 1) == g.x[g.h] <==> InTable(meta[g.u[g.h]], g.i)
  {
    ShlIsP2(g.w);
    AndMask(g.i, g.w);
  }

  lemma Settled(g: Gen, meta: seq<Meta>, k: nat, code: nat, prev: nat)
    requires Shape(g.root, meta) && Stack(g, meta) && Leaving(g, meta, k, code, prev)
    requires code < P2(k) && InTable(meta[g.u[g.h]], g.i)
    ensures Ready(g, meta, k, code)
  {
  }

  lemma StackTop(g: Gen, meta: seq<Meta>)
    requires Shape(g.root, meta) && Stack(g, meta) && g.h >= 0
    ensures g.x[g.h] == meta[g.u[g.h]].pfx && g.w == meta[g.u[g.h]].w
  {
    assert StackAt(g, meta, g.h);
  }

  lemma BackupStep(g: Gen, meta: seq<Meta>, lens: seq<nat>, al: Alphabet, k: nat, code: nat, prev: nat)
    requires Covers(al, |lens|)
    requires Inv(g, meta, lens, al, k, code) && Leaving(g, meta, k, code, prev)
    requires !InTable(meta[g.u[g.h]], g.i)
    ensures g.h > 0 && g.lx[g.h] <= g.w
    ensures Inv(Dropped(g), meta, lens, al, k, code)
    ensures Leaving(Dropped(g), meta, k, code, prev)
  {
    var m := meta[g.u[g.h]];
    assert StackAt(g, meta, g.h);
    assert m.w > 0;
    if code < P2(k) {
      LeftBehind(m, k, prev, g.i);
      MsbPadded(g.i, m.w, k - m.w, Msb(g.i, m.w));
    } else {
      forall x | InTable(m, x)
        ensures Msb(x, k) < code
      {
        MsbBound(x, k);
      }
    }
    DropInv(g, meta, lens, al, k, code);
    assert IsChild(g.root, meta, g.u[g.h - 1], g.u[g.h]);
    StackTop(Dropped(g), meta);
  }

  // ---- all codes ----

  // Between two codes: `code` is the next one of length k, if there is one.
  ghost predicate Between(g: Gen, meta: seq<Meta>, lens: seq<nat>, al: Alphabet, k: nat, code: nat)
    requires Covers(al, |lens|)
  {
    && Inv(g, meta, lens, al, k, code)
    && (code < P2(k) ==> Ready(g, meta, k, code))
    && (code > 0 ==> g.h >= 0)
  }

  // The tables are a single one, indexed by as many bits as the longest code has.
  predicate SingleLevel(g: Gen, gmax: nat) {
    && |g.lx| == 17 && -1 <= g.h < 16
    && if g.h == -1 then g.root == [] else |g.root| == 1 && Top(g) == gmax && g.h == 0
  }

  // Makes the tables that the next code needs.
  method OpenTables(g: Gen, ghost meta: seq<Meta>, ghost lens: seq<nat>, ghost al: Alphabet, c: seq<nat>, k: nat,
                    a: nat, gmax: nat, mm: nat, el: nat, r: HuftNode, ghost code: nat)
    returns (g': Gen, ghost meta': seq<Meta>)
    requires Covers(al, |lens|) && Counts(c, lens, gmax) && 1 <= k <= gmax
    requires a + 1 <= c[k] && code == First(lens, k) + (c[k] - a - 1)
    requires Inv(g, meta, lens, al, k, code) && Ready(g, meta, k, code)
    ensures Inv(g', meta', lens, al, k, code) && EndsHere(g', meta', k, code) && g'.q == g'.u[g'.h]
    ensures mm >= gmax && el >= gmax && SingleLevel(g, gmax) ==> SingleLevel(g', gmax)
  {
    g', meta' := g, meta;
    while k > Top(g')
      invariant Inv(g', meta', lens, al, k, code) && Ready(g', meta', k, code)
      invariant mm >= gmax && el >= gmax && SingleLevel(g, gmax) ==> SingleLevel(g', gmax)
      decreases k - Top(g')
    {
      g', meta' := OpenTable(g', meta', lens, al, c, k, a, gmax, mm, el, r, code);
    }
  }

  // Puts entry r into the table on top, and goes on to the next code.
  method PlaceCode(g: Gen, ghost meta: seq<Meta>, ghost lens: seq<nat>, ghost al: Alphabet, k: nat, r: HuftNode,
                   ghost code: nat)
    returns (g': Gen)
    requires Covers(al, |lens|) && 1 <= k <= 16 && code < P2(k)
    requires Inv(g, meta, lens, al, k, code) && EndsHere(g, meta, k, code) && g.q == g.u[g.h]
    requires !IsLink(r) && r.b == k - g.w && forall x :: Msb(x, k) == code ==> LeafOK(lens, al, r, g.w, x)
    ensures Between(g', meta, lens, al, k, code + 1)
    ensures 0 <= g'.h <= g.h && |g'.root| == |g.root| && g'.lx == g.lx
    ensures g'.h == g.h ==> Top(g') == Top(g)
  {
    hide Filled, OffClosed, Links, IsChild, LeafOK, StackAt;
    HighBound(g.i, g.w, k - g.w);
    var q := FillEntries(g.root[g.q], High(g.i, g.w), k - g.w, r);
    PlaceInv(g, meta, lens, al, k, code, q, r);
    g' := NextCode(g.(root := g.root[g.q := q]), meta, lens, al, k, code);
  }

  method NextCode(g: Gen, ghost meta: seq<Meta>, ghost lens: seq<nat>, ghost al: Alphabet, k: nat, ghost code: nat)
    returns (g': Gen)
    requires Covers(al, |lens|) && 1 <= k <= 16 && code < P2(k)
    requires Inv(g, meta, lens, al, k, code + 1) && EndsHere(g, meta, k, code) && g.q == g.u[g.h]
    ensures Between(g', meta, lens, al, k, code + 1)
    ensures 0 <= g'.h <= g.h && |g'.root| == |g.root| && g'.lx == g.lx
    ensures g'.h == g.h ==> Top(g') == Top(g)
  {
    hide Filled, OffClosed, LinkOK, IsChild, StackAt;
    var i := BackwardsIncrement(g.i, k);
    OtherCode(g, i, meta, lens, al, k, code + 1);
    Departs(g, i, meta, k, code);
    g' := Backup(g.(i := i), meta, lens, al, k, code + 1, g.i);
  }

  lemma Departs(g: Gen, i: nat, meta: seq<Meta>, k: nat, code: nat)
    requires Shape(g.root, meta) && Stack(g, meta) && Stack(g.(i := i), meta)
    requires 1 <= k <= 16 && code < P2(k) && EndsHere(g, meta, k, code) && g.q == g.u[g.h]
    requires i < P2(k) && if code + 1 < P2(k) then Msb(i, k) == code + 1 else i == 0
    ensures Leaving(g.(i := i), meta, k, code + 1, g.i)
  {
    hide IsChild;
    StackTop(g, meta);
  }

  lemma OtherCode(g: Gen, i: nat, meta: seq<Meta>, lens: seq<nat>, al: Alphabet, k: nat, code: nat)
    requires Covers(al, |lens|) && Inv(g, meta, lens, al, k, code)
    ensures Inv(g.(i := i), meta, lens, al, k, code)
  {
    var g' := g.(i := i);
    forall l | 0 <= l <= g'.h
      ensures StackAt(g', meta, l)
    {
      assert StackAt(g, meta, l);
    }
    forall l | 0 <= l < g'.h
      ensures IsChild(g'.root, meta, g'.u[l], g'.u[l + 1])
    {
      assert IsChild(g.root, meta, g.u[l], g.u[l + 1]);
    }
    forall t | 0 <= t < |meta|
      ensures OnStack(g', t) || Closed(meta[t], k, code)
    {
      if OnStack(g, t) {
        var l :| 0 <= l <= g.h && g.u[l] == t;
        assert g'.u[l] == t;
      }
    }
  }

  lemma BetweenLengths(g: Gen, meta: seq<Meta>, lens: seq<nat>, al: Alphabet, k: nat, code: nat)
    requires Covers(al, |lens|) && Between(g, meta, lens, al, k, code) && code < P2(k)
    ensures Between(g, meta, lens, al, k + 1, 2 * code)
  {
    NextLength(g, meta, lens, al, k, code);
    ReadyLonger(g, meta, k, code);
  }

  lemma ReadyLonger(g: Gen, meta: seq<Meta>, k: nat, code: nat)
    requires Shape(g.root, meta) && Stack(g, meta) && Ready(g, meta, k, code)
    ensures Ready(g, meta, k + 1, 2 * code)
  {
    ZeroAbove(g.i, k, k);
    assert Msb(g.i, k + 1) == 2 * Msb(g.i, k) + Bit(g.i, k);
  }

  // Where the symbols of length k have got to.
  ghost predicate At(pidx: nat, lens: seq<nat>, k: nat, code: nat) {
    && code >= First(lens, k)
    && pidx == Offset(lens, k) + if code < First(lens, k) + Count(lens, k) then code - First(lens, k)
                                 else Count(lens, k)
  }

  lemma {:induction false} NoneShorter(lens: seq<nat>, k: nat)
    requires forall l :: 1 <= l < k ==> Count(lens, l) == 0
    ensures First(lens, k) == 0 && Offset(lens, k) == 0
  {
    if k > 1 {
      NoneShorter(lens, k - 1);
    }
  }

  // The next code of length k, with a more to follow.
  method PlaceNext(g: Gen, ghost meta: seq<Meta>, al: Alphabet, v: seq<nat>, pidx: nat, total: nat, r: HuftNode,
                   c: seq<nat>, k: nat, a: nat, gmax: nat, mm: nat, el: nat, ghost lens: seq<nat>, ghost code: nat)
    returns (g': Gen, ghost meta': seq<Meta>, pidx': nat, r': HuftNode)
    requires Covers(al, |lens|) && Counts(c, lens, gmax) && 1 <= k <= gmax
    requires Sorted(v, lens, |lens|, gmax) && total == Offset(lens, gmax + 1) <= |v|
    requires a + 1 <= c[k] && code == First(lens, k) + (c[k] - a - 1)
    requires Between(g, meta, lens, al, k, code) && At(pidx, lens, k, code)
    requires HoldsLast(r, v, pidx, al, |lens|)
    ensures Between(g', meta', lens, al, k, code + 1) && At(pidx', lens, k, code + 1)
    ensures HoldsLast(r', v, pidx', al, |lens|)
    ensures mm >= gmax && el >= gmax && SingleLevel(g, gmax) ==> SingleLevel(g', gmax)
  {
    CodeFits(c, lens, gmax, k, code, a);
    g', meta' := OpenTables(g, meta, lens, al, c, k, a, gmax, mm, el, r, code);
    StepAt(v, pidx, total, lens, gmax, k, code, c);
    r', pidx' := MakeEntry(v, pidx, total, al, k, g'.w, r, lens, gmax, code);
    g' := PlaceCode(g', meta', lens, al, k, r', code);
  }

  // The codes of length k.
  method PlaceLength(g: Gen, ghost meta: seq<Meta>, al: Alphabet, v: seq<nat>, pidx: nat, total: nat, r: HuftNode,
                     c: seq<nat>, k: nat, gmax: nat, mm: nat, el: nat, ghost lens: seq<nat>)
    returns (g': Gen, ghost meta': seq<Meta>, pidx': nat, r': HuftNode)
    requires Covers(al, |lens|) && Counts(c, lens, gmax) && 1 <= k <= gmax
    requires Sorted(v, lens, |lens|, gmax) && total == Offset(lens, gmax + 1) <= |v|
    requires Between(g, meta, lens, al, k, First(lens, k)) && At(pidx, lens, k, First(lens, k))
    requires HoldsLast(r, v, pidx, al, |lens|)
    ensures Between(g', meta', lens, al, k, First(lens, k) + c[k]) && At(pidx', lens, k, First(lens, k) + c[k])
    ensures HoldsLast(r', v, pidx', al, |lens|)
    ensures mm >= gmax && el >= gmax && SingleLevel(g, gmax) ==> SingleLevel(g', gmax)
  {
    g', meta', pidx', r' := g, meta, pidx, r;
    var a := c[k];
    ghost var code := First(lens, k);
    while a > 0
      invariant 0 <= a <= c[k] && code == First(lens, k) + (c[k] - a)
      invariant Between(g', meta', lens, al, k, code) && At(pidx', lens, k, code)
      invariant HoldsLast(r', v, pidx', al, |lens|)
      invariant mm >= gmax && el >= gmax && SingleLevel(g, gmax) ==> SingleLevel(g', gmax)
    {
      a := a - 1;
      g', meta', pidx', r' := PlaceNext(g', meta', al, v, pidx', total, r', c, k, a, gmax, mm, el, lens, code);
      code := code + 1;
    }
  }

  lemma CodeFits(c: seq<nat>, lens: seq<nat>, g: nat, k: nat, code: nat, a: nat)
    requires Counts(c, lens, g) && 1 <= k <= g && a + 1 <= c[k] && code == First(lens, k) + (c[k] - a - 1)
    ensures code < P2(k)
  {
    if k < g {
      assert RoomAt(c, lens, k);
    }
  }

  lemma StepAt(v: seq<nat>, pidx: nat, total: nat, lens: seq<nat>, g: nat, k: nat, code: nat, c: seq<nat>)
    requires Counts(c, lens, g) && 1 <= k <= g && code < First(lens, k) + c[k]
    requires Sorted(v, lens, |lens|, g) && total == Offset(lens, g + 1) <= |v|
    requires At(pidx, lens, k, code)
    ensures NextSymbol(v, pidx, total, lens, g, k, code)
    ensures At(if pidx < total then pidx + 1 else pidx, lens, k, code + 1)
  {
    if k < g {
      assert RoomAt(c, lens, k);
    }
    if code < First(lens, k) + Count(lens, k) {
      SymbolHere(v, pidx, total, lens, g, k, code);
    } else {
      SymbolsSpent(v, pidx, total, lens, g, k, code);
    }
  }

  // About to place the codes of length k, or past the last of them.
  ghost predicate Generating(g: Gen, meta: seq<Meta>, lens: seq<nat>, al: Alphabet, k: nat, gmax: nat, pidx: nat)
    requires Covers(al, |lens|)
  {
    if k <= gmax then
      Between(g, meta, lens, al, k, First(lens, k)) && At(pidx, lens, k, First(lens, k))
    else
      Between(g, meta, lens, al, gmax, P2(gmax))
  }

  function Empty(): Gen {
    Gen([], seq(16, _ => 0), seq(17, _ => 0), seq(17, _ => 0), -1, 0, 0, 0)
  }

  lemma Start(lens: seq<nat>, al: Alphabet, kmin: nat, gmax: nat)
    requires Covers(al, |lens|) && 1 <= kmin <= gmax
    requires forall l :: 1 <= l < kmin ==> Count(lens, l) == 0
    ensures Generating(Empty(), [], lens, al, kmin, gmax, 0)
  {
    NoneShorter(lens, kmin);
    assert P2(0) == 1;
    MsbPad(0, 0, kmin);
  }

  lemma NextLengthUp(g: Gen, meta: seq<Meta>, lens: seq<nat>, al: Alphabet, c: seq<nat>, k: nat, gmax: nat, pidx: nat)
    requires Covers(al, |lens|) && Counts(c, lens, gmax) && 1 <= k <= gmax
    requires Between(g, meta, lens, al, k, First(lens, k) + c[k]) && At(pidx, lens, k, First(lens, k) + c[k])
    ensures Generating(g, meta, lens, al, k + 1, gmax, pidx)
  {
    hide Between, First, Count, At, P2;
    if k < gmax {
      CountBelow(c, lens, gmax, k);
      BetweenLengths(g, meta, lens, al, k, First(lens, k) + c[k]);
      AtNext(pidx, lens, k);
    }
  }

  // Below the longest length the counts are those of the lengths, and leave room.
  lemma CountBelow(c: seq<nat>, lens: seq<nat>, gmax: nat, k: nat)
    requires Counts(c, lens, gmax) && 1 <= k < gmax
    ensures c[k] == Count(lens, k) && First(lens, k) + c[k] < P2(k)
  {
    hide First, Count, P2, Longest;
    assert RoomAt(c, lens, k);
  }

  lemma AtNext(pidx: nat, lens: seq<nat>, k: nat)
    requires k >= 1 && At(pidx, lens, k, First(lens, k) + Count(lens, k))
    ensures First(lens, k + 1) == 2 * (First(lens, k) + Count(lens, k))
    ensures At(pidx, lens, k + 1, First(lens, k + 1))
  {
    hide Count;
  }

  // All the tables, from the shortest codes on.
  method Generate(al: Alphabet, v: seq<nat>, total: nat, c: seq<nat>, kmin: nat, gmax: nat, mm: nat, el: nat,
                  ghost lens: seq<nat>)
    returns (root: seq<Table>, m: nat)
    requires Covers(al, |lens|) && Counts(c, lens, gmax) && 1 <= kmin <= gmax
    requires forall l :: 1 <= l < kmin ==> Count(lens, l) == 0
    requires Sorted(v, lens, |lens|, gmax) && total == Offset(lens, gmax + 1) <= |v|
    ensures Decodes(root, m, lens, al) && m >= 1
    ensures mm >= gmax && el >= gmax ==> |root| == 1 && m == gmax
  {
    hide Filled, OffClosed, Links, IsChild, StackAt, Inv, Ready, First, Count, Offset, P2;
    var g, pidx, r, k := Empty(), 0, HuftNode(0, 0, 0, 0), kmin;
    ghost var meta: seq<Meta> := [];
    ghost var single := mm >= gmax && el >= gmax;
    Start(lens, al, kmin, gmax);
    while k <= gmax
      invariant kmin <= k <= gmax + 1
      invariant Generating(g, meta, lens, al, k, gmax, pidx)
      invariant HoldsLast(r, v, pidx, al, |lens|)
      invariant single ==> SingleLevel(g, gmax)
    {
      g, meta, pidx, r := PlaceLength(g, meta, al, v, pidx, total, r, c, k, gmax, mm, el, lens);
      NextLengthUp(g, meta, lens, al, c, k, gmax, pidx);
      k := k + 1;
    }
    Generated(g, meta, lens, al, k, gmax, pidx);
    root, m := g.root, g.lx[1];
  }

  lemma Generated(g: Gen, meta: seq<Meta>, lens: seq<nat>, al: Alphabet, k: nat, gmax: nat, pidx: nat)
    requires Covers(al, |lens|) && Generating(g, meta, lens, al, k, gmax, pidx) && k > gmax
    ensures |g.lx| == 17 && g.h >= 0
    ensures Decodes(g.root, g.lx[1], lens, al) && g.lx[1] >= 1
    ensures SingleLevel(g, gmax) ==> |g.root| == 1 && g.lx[1] == gmax
  {
    AllPlaced(g, meta, lens, al, gmax);
  }

  // ---- the whole builder ----

  ghost predicate SameCounts(c: seq<nat>, lens: seq<nat>) {
    |c| == 17 && forall l :: 0 <= l < 17 ==> c[l] == Count(lens, l)
  }

  // The shortest and the longest length.
  method Extremes(c: seq<nat>, ghost lens: seq<nat>) returns (j: nat, g: nat)
    requires Bounded(lens) && SameCounts(c, lens) && Count(lens, 0) != |lens|
    ensures 1 <= j <= g <= 16 && g == Longest(lens) && Count(lens, g) > 0
    ensures forall l :: 1 <= l < j ==> Count(lens, l) == 0
  {
    NotAllZero(lens);
    CountNone(lens, |lens|, Longest(lens));
    j := 1;
    while j <= 16 && c[j] == 0
      invariant 1 <= j <= Longest(lens)
      invariant forall l :: 1 <= l < j ==> Count(lens, l) == 0
    {
      j := j + 1;
    }
    g := 16;
    while g != 0 && c[g] == 0
      invariant Longest(lens) <= g <= 16
    {
      g := g - 1;
    }
    CountNone(lens, |lens|, g);
  }

  lemma NotAllZero(lens: seq<nat>)
    requires Bounded(lens) && Count(lens, 0) != |lens|
    ensures 1 <= Longest(lens) <= 16
  {
    if Longest(lens) == 0 {
      AllZero(lens, |lens|);
    }
  }

  lemma {:induction false} AllZero(lens: seq<nat>, n: nat)
    requires n <= |lens|
    ensures CountIn(lens, n, 0) == n <==> forall s :: 0 <= s < n ==> lens[s] == 0
  {
    if n > 0 {
      AllZero(lens, n - 1);
      CountAtMost(lens, n - 1, 0);
    }
  }

  lemma {:induction false} CountAtMost(lens: seq<nat>, n: nat, k: nat)
    requires n <= |lens|
    ensures CountIn(lens, n, k) <= n
  {
    if n > 0 {
      CountAtMost(lens, n - 1, k);
    }
  }

  // How many dummy codes of the greatest length g fill out the codes, or -1 for codes that are too many.
  method DummyCodes(c: seq<nat>, jmin: nat, g: nat, ghost lens: seq<nat>) returns (y: int)
    requires SameCounts(c, lens) && Bounded(lens) && 1 <= jmin <= g <= 16 && g == Longest(lens)
    requires forall l :: 1 <= l < jmin ==> Count(lens, l) == 0
    ensures y < 0 <==> Oversubscribed(lens)
    ensures y >= 0 ==> y + First(lens, g) + Count(lens, g) == P2(g)
  {
    var j := jmin;
    ShlIsP2(j);
    y := Shl(1, j);
    NoneShorter(lens, jmin);
    KraftAt(lens, g);
    while j < g
      invariant jmin <= j <= g
      invariant y + First(lens, j) == P2(j) && 0 <= y
    {
      y := y - c[j];
      if y < 0 {
        TooMany(lens, j, g);
        return;
      }
      ShlIsP2(j);
      assert P2(1) == 2;
      ToInt32Same(y * 2);
      y := Shl(y, 1);
      j := j + 1;
    }
    y := y - c[g];
  }

  lemma {:induction false} TooMany(lens: seq<nat>, j: nat, g: nat)
    requires 1 <= j < g && First(lens, j) + Count(lens, j) > P2(j)
    ensures First(lens, g) + Count(lens, g) > P2(g)
    decreases g - j
  {
    assert First(lens, j + 1) == 2 * (First(lens, j) + Count(lens, j));
    if j + 1 < g {
      TooMany(lens, j + 1, g);
    }
  }

  lemma FilledOut(c: seq<nat>, y: nat, lens: seq<nat>, g: nat)
    requires SameCounts(c, lens) && 1 <= g <= 16 && g == Longest(lens) && Count(lens, g) > 0
    requires y + First(lens, g) + Count(lens, g) == P2(g)
    ensures Counts(c[g := c[g] + y], lens, g)
  {
    var c' := c[g := c[g] + y];
    forall l | 1 <= l < g
      ensures RoomAt(c', lens, l)
    {
      RoomBelow(lens, l, g);
    }
  }

  // Builds the tables for the first n lengths of b, with at most mm bits in a table where possible.
  // Status 2 means too many codes, and 1 that some bit strings begin with no code, unless the only
  // length is 1.
  method Build(b: seq<nat>, n: nat, al: Alphabet, mm: nat) returns (r: Huft)
    requires 1 <= n <= |b| && n <= 288 && Bounded(b[..n]) && Covers(al, n)
    ensures r.status == 2 <==> Oversubscribed(b[..n])
    ensures r.status == 1 <==> !Oversubscribed(b[..n]) && !Complete(b[..n]) && Longest(b[..n]) > 1
    ensures r.status <= 2
    ensures Longest(b[..n]) == 0 ==> r == Huft(0, [], 0)
    ensures Longest(b[..n]) > 0 && r.status != 2 ==> Decodes(r.root, r.m, b[..n], al) && r.m >= 1
    ensures r.status == 2 ==> r.root == []
    ensures r.m == 0 <==> Longest(b[..n]) == 0
    ensures n <= 256 && mm >= Longest(b[..n]) > 0 && r.status != 2 ==> |r.root| == 1 && r.m == Longest(b[..n])
  {
    ghost var lens := b[..n];
    var c := CountLengths(b, n);
    var el := if n > 256 then b[256] else 16;
    if c[0] == n {
      AllZero(lens, n);
      NoLengths(lens);
      return Huft(0, [], 0);
    }
    var j, g := Extremes(c, lens);
    var bits := if mm < j then j else mm;
    if bits > g {
      bits := g;
    }
    var y := DummyCodes(c, j, g, lens);
    KraftAt(lens, g);
    if y < 0 {
      return Huft(2, [], bits);
    }
    FilledOut(c, y, lens, g);
    c := c[g := c[g] + y];
    var v, total := SortSymbols(b, n, c, g);
    var root, m := Generate(al, v, total, c, j, g, bits, el, lens);
    return Huft(if y != 0 && g != 1 then 1 else 0, root, m);
  }

  lemma {:induction false} NoLengths(lens: seq<nat>)
    requires forall s :: 0 <= s < |lens| ==> lens[s] == 0
    ensures Kraft(lens) == 0 && Longest(lens) == 0
  {
    if lens != [] {
      NoLengths(lens[..|lens| - 1]);
    }
  }
}
