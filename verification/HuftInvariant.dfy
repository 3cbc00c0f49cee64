// The state of zip_HuftBuild while it makes its tables, and what each of its steps preserves.
module HuftInvariant {
  import opened Bits
  import opened JsBits
  import opened Canonical
  import opened Huffman

  // Where a table stands: it is reached by the streams whose first w bits are pfx, and is indexed
  // by their next `bits` bits.
  datatype Meta = Meta(w: nat, bits: nat, pfx: nat)

  predicate InTable(m: Meta, x: int) {
    Low(x, m.w) == m.pfx
  }

  function Index(m: Meta, x: int): (j: nat)
    ensures j < P2(m.bits)
  {
    Low(High(x, m.w), m.bits)
  }

  ghost predicate Shape(root: seq<Table>, meta: seq<Meta>) {
    && |root| == |meta|
    && forall t :: 0 <= t < |root| ==> |root[t]| == P2(meta[t].bits) && 0 < meta[t].bits <= 16
  }

  ghost predicate LinkOK(c: HuftNode, meta: seq<Meta>, t: nat, j: nat)
    requires t < |meta|
  {
    && c.b <= meta[t].bits
    && (IsLink(c) ==>
      && t < c.t < |meta|
      && c.e == 16 + meta[c.t].bits
      && c.b == meta[t].bits
      && meta[c.t].w == meta[t].w + meta[t].bits
      && meta[c.t].pfx == meta[t].pfx + P2(meta[t].w) * j)
  }

  ghost predicate Links(root: seq<Table>, meta: seq<Meta>) {
    && Shape(root, meta)
    && forall t, j :: 0 <= t < |root| && 0 <= j < |root[t]| ==> LinkOK(root[t][j], meta, t, j)
  }

  ghost predicate CellOK(root: seq<Table>, meta: seq<Meta>, lens: seq<nat>, al: Alphabet, t: nat, x: int)
    requires Covers(al, |lens|) && Shape(root, meta) && t < |root|
  {
    var c := root[t][Index(meta[t], x)];
    IsLink(c) || LeafOK(lens, al, c, meta[t].w, x)
  }

  // In every table, the entries for streams below code number `code` of length k are right.
  ghost predicate Filled(root: seq<Table>, meta: seq<Meta>, lens: seq<nat>, al: Alphabet, k: nat, code: nat)
    requires Covers(al, |lens|) && Shape(root, meta)
  {
    forall t, x :: 0 <= t < |root| && InTable(meta[t], x) && Msb(x, k) < code ==> CellOK(root, meta, lens, al, t, x)
  }

  // The builder's variables of the same names; q is the number of the current table.
  datatype Gen = Gen(root: seq<Table>, u: seq<nat>, lx: seq<nat>, x: seq<nat>, h: int, w: nat, i: nat, q: nat)

  ghost predicate IsChild(root: seq<Table>, meta: seq<Meta>, t: nat, t': nat)
    requires Shape(root, meta)
  {
    && t < t' < |root|
    && meta[t'].w == meta[t].w + meta[t].bits
    && forall x :: InTable(meta[t'], x) ==> InTable(meta[t], x) && IsLink(root[t][Index(meta[t], x)])
  }

  // The stack of tables: each is linked from the one below it.
  ghost predicate Stack(g: Gen, meta: seq<Meta>)
    requires Shape(g.root, meta)
  {
    && |g.u| == 16 && |g.lx| == 17 && |g.x| == 17
    && -1 <= g.h < 16
    && g.lx[0] == 0 && g.x[0] == 0
    && (g.h == -1 ==> g.w == 0 && g.root == [])
    && (g.h >= 0 ==> g.u[0] == 0 && g.root != [] && meta[0].w == 0 && g.u[g.h] < |g.root| && g.w == meta[g.u[g.h]].w)
    && g.h <= g.w
    && (forall l :: 0 <= l <= g.h ==> StackAt(g, meta, l))
    && (forall l :: 0 <= l < g.h ==> IsChild(g.root, meta, g.u[l], g.u[l + 1]))
  }

  ghost predicate StackAt(g: Gen, meta: seq<Meta>, l: nat)
    requires |g.u| == 16 && |g.lx| == 17 && |g.x| == 17 && l < 16
  {
    && g.u[l] < |meta|
    && g.lx[1 + l] == meta[g.u[l]].bits
    && g.x[l] == meta[g.u[l]].pfx
    && l <= meta[g.u[l]].w
  }

  ghost predicate OnStack(g: Gen, t: nat)
    requires |g.u| == 16 && g.h < 16
  {
    exists l :: 0 <= l <= g.h && g.u[l] == t
  }

  ghost predicate Closed(m: Meta, k: nat, code: nat) {
    forall x :: InTable(m, x) ==> Msb(x, k) < code
  }

  // Tables that have left the stack are finished.
  ghost predicate OffClosed(g: Gen, meta: seq<Meta>, k: nat, code: nat)
    requires |g.u| == 16 && g.h < 16
  {
    forall t :: 0 <= t < |meta| ==> OnStack(g, t) || Closed(meta[t], k, code)
  }

  ghost predicate Inv(g: Gen, meta: seq<Meta>, lens: seq<nat>, al: Alphabet, k: nat, code: nat)
    requires Covers(al, |lens|)
  {
    && Links(g.root, meta)
    && Stack(g, meta)
    && Filled(g.root, meta, lens, al, k, code)
    && OffClosed(g, meta, k, code)
  }

  // The bits that the tables on the stack cover.
  function Top(g: Gen): nat
    requires |g.lx| == 17 && -1 <= g.h < 16
  {
    g.w + g.lx[1 + g.h]
  }

  // A longer code length only moves the scale.
  lemma NextLength(g: Gen, meta: seq<Meta>, lens: seq<nat>, al: Alphabet, k: nat, code: nat)
    requires Covers(al, |lens|)
    requires Inv(g, meta, lens, al, k, code)
    ensures Inv(g, meta, lens, al, k + 1, 2 * code)
  {
  }

  // ---- making a table ----

  // A stream with the prefix of a table at code i is not below that code.
  lemma PrefixNotBelow(i: nat, w: nat, k: nat, x: int)
    requires w <= k && i < P2(w) && Low(x, w) == i
    ensures Msb(x, k) >= Msb(i, k)
  {
    assert Msb(x, w) == Msb(i, w) by {
      LowSmall(i, w);
      MsbLow(x, i, w);
    }
    assert Msb(i, k) == P2(k - w) * Msb(i, w) by {
      MsbPad(i, w, k - w);
    }
    MsbPrefix(x, w, k - w);
  }

  // The streams of a table, by their place in the table below.
  lemma ChildIndex(m: Meta, i: nat, x: int)
    requires i < P2(m.w + m.bits) && InTable(m, i)
    ensures Low(x, m.w + m.bits) == i <==> InTable(m, x) && Index(m, x) == High(i, m.w)
    ensures High(i, m.w) == Index(m, i) && i == m.pfx + P2(m.w) * High(i, m.w)
  {
    LowSmall(i, m.w + m.bits);
    TakeTake(i, m.w, m.bits);
    TakeTake(x, m.w, m.bits);
    Split(i, m.w);
    var p := P2(m.w);
    MulCancel(p, High(i, m.w), Index(m, i));
    if Low(x, m.w + m.bits) == i {
      LowLow(x, m.w + m.bits, m.w);
      LowLow(i, m.w + m.bits, m.w);
      MulCancel(p, Index(m, x), Index(m, i));
    }
  }

  function SetLink(root: seq<Table>, t: nat, at: nat, j: nat, b: nat, n: nat): (r: seq<Table>)
    requires t < |root| && at < |root[t]|
  {
    root[t := root[t][at := HuftNode(16 + j, b, n, |root|)]]
  }

  // The state after the blank table q of 2^j entries has been linked in and put on the stack.
  function Opened(g: Gen, q: Table, j: nat, n: nat): Gen
    requires CanOpen(g)
  {
    var t, h := |g.root|, g.h + 1;
    var root := if h == 0 then [q] else SetLink(g.root, g.u[g.h], High(g.i, g.w), j, g.lx[h], n) + [q];
    Gen(root, g.u[h := t], g.lx[1 + h := j], if h == 0 then g.x else g.x[h := g.i], h, Top(g), g.i, t)
  }

  predicate CanOpen(g: Gen) {
    && |g.u| == 16 && |g.lx| == 17 && |g.x| == 17 && -1 <= g.h < 15
    && (g.h == -1 ==> g.root == [])
    && (g.h >= 0 ==> g.u[g.h] < |g.root| && 0 <= High(g.i, g.w) < |g.root[g.u[g.h]]|)
  }

  // A new table is needed: the next code is the first of the streams that share its first Top(g)
  // bits, and is longer than that.
  ghost predicate NeedsTable(g: Gen, meta: seq<Meta>, k: nat, code: nat)
    requires Shape(g.root, meta) && Stack(g, meta)
  {
    && Top(g) < k <= 16
    && g.i < P2(Top(g)) && Msb(g.i, k) == code
    && (g.h >= 0 ==> InTable(meta[g.u[g.h]], g.i))
  }

  ghost predicate Blank(q: Table, j: nat) {
    && 0 < j <= 16 && |q| == P2(j)
    && forall o :: 0 <= o < |q| ==> !IsLink(q[o]) && q[o].b == 0
  }

  lemma OpenAllowed(g: Gen, meta: seq<Meta>, k: nat, code: nat)
    requires Links(g.root, meta) && Stack(g, meta) && NeedsTable(g, meta, k, code)
    ensures CanOpen(g)
    ensures g.h >= 0 ==> g.i == meta[g.u[g.h]].pfx + P2(g.w) * High(g.i, g.w)
  {
    if g.h >= 0 {
      assert StackAt(g, meta, g.h);
      ChildIndex(meta[g.u[g.h]], g.i, g.i);
    }
  }

  lemma OpenLinks(g: Gen, meta: seq<Meta>, k: nat, code: nat, q: Table, j: nat, n: nat)
    requires Links(g.root, meta) && Stack(g, meta) && NeedsTable(g, meta, k, code) && Blank(q, j)
    requires CanOpen(g)
    ensures Links(Opened(g, q, j, n).root, meta + [Meta(Top(g), j, g.i)])
  {
    OpenAllowed(g, meta, k, code);
    var root', meta' := Opened(g, q, j, n).root, meta + [Meta(Top(g), j, g.i)];
    forall t, o | 0 <= t < |root'| && 0 <= o < |root'[t]|
      ensures LinkOK(root'[t][o], meta', t, o)
    {
      if t < |meta| {
        if t == g.u[g.h] && o == High(g.i, g.w) {
          assert StackAt(g, meta, g.h);
        } else {
          assert LinkOK(g.root[t][o], meta, t, o);
        }
      }
    }
  }

  lemma OpenFilled(g: Gen, meta: seq<Meta>, lens: seq<nat>, al: Alphabet, k: nat, code: nat, q: Table, j: nat, n: nat)
    requires Covers(al, |lens|)
    requires Links(g.root, meta) && Stack(g, meta) && NeedsTable(g, meta, k, code) && Blank(q, j)
    requires CanOpen(g) && Filled(g.root, meta, lens, al, k, code)
    requires Shape(Opened(g, q, j, n).root, meta + [Meta(Top(g), j, g.i)])
    ensures Filled(Opened(g, q, j, n).root, meta + [Meta(Top(g), j, g.i)], lens, al, k, code)
  {
    var root', meta' := Opened(g, q, j, n).root, meta + [Meta(Top(g), j, g.i)];
    forall t, x | 0 <= t < |root'| && InTable(meta'[t], x) && Msb(x, k) < code
      ensures CellOK(root', meta', lens, al, t, x)
    {
      if t == |meta| {
        PrefixNotBelow(g.i, Top(g), k, x);
      } else {
        assert meta'[t] == meta[t];
        assert CellOK(g.root, meta, lens, al, t, x);
      }
    }
  }

  lemma OpenStack(g: Gen, meta: seq<Meta>, k: nat, code: nat, q: Table, j: nat, n: nat)
    requires Links(g.root, meta) && Stack(g, meta) && NeedsTable(g, meta, k, code) && Blank(q, j)
    requires CanOpen(g) && Shape(Opened(g, q, j, n).root, meta + [Meta(Top(g), j, g.i)])
    ensures Stack(Opened(g, q, j, n), meta + [Meta(Top(g), j, g.i)])
  {
    var g', meta' := Opened(g, q, j, n), meta + [Meta(Top(g), j, g.i)];
    assert g.h >= 0 ==> StackAt(g, meta, g.h);
    forall l | 0 <= l <= g'.h
      ensures StackAt(g', meta', l)
    {
      if l <= g.h {
        assert StackAt(g, meta, l);
      } else if g.h >= 0 {
        assert StackAt(g, meta, g.h);
      }
    }
    forall l | 0 <= l < g'.h
      ensures IsChild(g'.root, meta', g'.u[l], g'.u[l + 1])
    {
      assert StackAt(g, meta, l);
      if l < g.h {
        assert StackAt(g, meta, l + 1);
        OpenKeepsChild(g, meta, k, code, q, j, n, l);
      } else {
        OpenChild(g, meta, k, code, q, j, n);
      }
    }
  }

  lemma StackOrder(g: Gen, meta: seq<Meta>, l: nat, m: nat)
    requires Shape(g.root, meta) && Stack(g, meta)
    requires l < m && m as int <= g.h
    ensures g.u[l] < g.u[m] < |g.root|
    decreases m - l
  {
    assert StackAt(g, meta, m);
    assert IsChild(g.root, meta, g.u[m - 1], g.u[m]);
    if l < m - 1 {
      StackOrder(g, meta, l, m - 1);
    }
  }

  lemma OpenKeepsChild(g: Gen, meta: seq<Meta>, k: nat, code: nat, q: Table, j: nat, n: nat, l: nat)
    requires Links(g.root, meta) && Stack(g, meta) && NeedsTable(g, meta, k, code) && Blank(q, j)
    requires CanOpen(g) && Shape(Opened(g, q, j, n).root, meta + [Meta(Top(g), j, g.i)])
    requires l as int < g.h && g.u[l] < |meta| && g.u[l + 1] < |meta|
    ensures IsChild(Opened(g, q, j, n).root, meta + [Meta(Top(g), j, g.i)], g.u[l], g.u[l + 1])
  {
    assert IsChild(g.root, meta, g.u[l], g.u[l + 1]);
    StackOrder(g, meta, l, g.h);
    var root', meta' := Opened(g, q, j, n).root, meta + [Meta(Top(g), j, g.i)];
    assert root'[g.u[l]] == g.root[g.u[l]] && meta'[g.u[l]] == meta[g.u[l]] && meta'[g.u[l + 1]] == meta[g.u[l + 1]];
  }

  lemma OpenChild(g: Gen, meta: seq<Meta>, k: nat, code: nat, q: Table, j: nat, n: nat)
    requires Links(g.root, meta) && Stack(g, meta) && NeedsTable(g, meta, k, code) && Blank(q, j)
    requires CanOpen(g) && Shape(Opened(g, q, j, n).root, meta + [Meta(Top(g), j, g.i)])
    requires g.h >= 0
    ensures IsChild(Opened(g, q, j, n).root, meta + [Meta(Top(g), j, g.i)], g.u[g.h], |meta|)
  {
    assert StackAt(g, meta, g.h);
    var root', meta' := Opened(g, q, j, n).root, meta + [Meta(Top(g), j, g.i)];
    var t := g.u[g.h];
    forall x | InTable(meta'[|meta|], x)
      ensures InTable(meta'[t], x) && IsLink(root'[t][Index(meta'[t], x)])
    {
      ChildIndex(meta[t], g.i, x);
    }
  }

  // Linking in a new table keeps the invariant.
  lemma OpenInv(g: Gen, meta: seq<Meta>, lens: seq<nat>, al: Alphabet, k: nat, code: nat, q: Table, j: nat, n: nat)
    requires Covers(al, |lens|)
    requires Inv(g, meta, lens, al, k, code) && NeedsTable(g, meta, k, code) && Blank(q, j)
    ensures CanOpen(g)
    ensures Inv(Opened(g, q, j, n), meta + [Meta(Top(g), j, g.i)], lens, al, k, code)
  {
    OpenAllowed(g, meta, k, code);
    OpenLinks(g, meta, k, code, q, j, n);
    OpenFilled(g, meta, lens, al, k, code, q, j, n);
    OpenStack(g, meta, k, code, q, j, n);
    var g', meta' := Opened(g, q, j, n), meta + [Meta(Top(g), j, g.i)];
    forall t | 0 <= t < |meta'|
      ensures OnStack(g', t) || Closed(meta'[t], k, code)
    {
      if t == |meta| {
        assert g'.u[g'.h] == t;
      } else if OnStack(g, t) {
        var l :| 0 <= l <= g.h && g.u[l] == t;
        assert g'.u[l] == t;
      } else {
        assert meta'[t] == meta[t];
      }
    }
  }

  // ---- placing a code ----

  // q' is q with r in every entry whose first n bits are `start`.
  ghost predicate Refilled(q: Table, q': Table, n: nat, start: int, r: HuftNode) {
    && |q'| == |q|
    && forall o :: 0 <= o < |q| ==> q'[o] == if Low(o, n) == start then r else q[o]
  }

  // The code i of length k ends in the table on top of the stack.
  ghost predicate EndsHere(g: Gen, meta: seq<Meta>, k: nat, code: nat)
    requires Shape(g.root, meta) && Stack(g, meta)
  {
    && g.h >= 0 && g.w < k <= Top(g)
    && g.i < P2(k) && Msb(g.i, k) == code
    && InTable(meta[g.u[g.h]], g.i)
  }

  lemma CellHit(m: Meta, i: nat, k: nat, x: int)
    requires InTable(m, i) && InTable(m, x)
    requires m.w < k <= m.w + m.bits && i < P2(k)
    ensures Low(Index(m, x), k - m.w) == High(i, m.w) <==> Msb(x, k) == Msb(i, k)
  {
    var n := k - m.w;
    HighBound(i, m.w, n);
    LowLow(High(x, m.w), m.bits, n);
    TakeTake(x, m.w, n);
    TakeTake(i, m.w, n);
    MsbLow(x, i, k);
    MulCancel(P2(m.w), Low(High(x, m.w), n), Low(High(i, m.w), n));
  }

  // The streams of code i pass through every table on the stack.
  lemma PassesStack(g: Gen, meta: seq<Meta>, x: int, l: nat)
    requires Shape(g.root, meta) && Stack(g, meta)
    requires l as int <= g.h && InTable(meta[g.u[g.h]], x)
    ensures g.u[l] < |meta| && InTable(meta[g.u[l]], x)
    ensures l as int < g.h ==> IsLink(g.root[g.u[l]][Index(meta[g.u[l]], x)])
    decreases g.h - l
  {
    assert StackAt(g, meta, l);
    if l as int < g.h {
      PassesStack(g, meta, x, l + 1);
      assert IsChild(g.root, meta, g.u[l], g.u[l + 1]);
    }
  }

  lemma PlaceFilled(g: Gen, meta: seq<Meta>, lens: seq<nat>, al: Alphabet, k: nat, code: nat, q': Table, r: HuftNode)
    requires Covers(al, |lens|)
    requires Inv(g, meta, lens, al, k, code) && EndsHere(g, meta, k, code)
    requires forall x :: Msb(x, k) == code ==> LeafOK(lens, al, r, g.w, x)
    requires Refilled(g.root[g.u[g.h]], q', k - g.w, High(g.i, g.w), r)
    ensures Filled(g.root[g.u[g.h] := q'], meta, lens, al, k, code + 1)
  {
    var top := g.u[g.h];
    var root' := g.root[top := q'];
    assert StackAt(g, meta, g.h);
    forall t, x | 0 <= t < |root'| && InTable(meta[t], x) && Msb(x, k) < code + 1
      ensures CellOK(root', meta, lens, al, t, x)
    {
      if t == top {
        CellHit(meta[top], g.i, k, x);
        if Msb(x, k) < code {
          assert CellOK(g.root, meta, lens, al, t, x);
        }
      } else if Msb(x, k) < code {
        assert CellOK(g.root, meta, lens, al, t, x);
      } else {
        assert !Closed(meta[t], k, code);
        assert OnStack(g, t);
        var l :| 0 <= l <= g.h && g.u[l] == t;
        PlacePrefix(meta[top], g.i, k, x);
        PassesStack(g, meta, x, l);
      }
    }
  }

  lemma PlacePrefix(m: Meta, i: nat, k: nat, x: int)
    requires InTable(m, i) && m.w <= k && Msb(x, k) == Msb(i, k)
    ensures InTable(m, x)
  {
    MsbLow(x, i, k);
    LowLow(x, k, m.w);
    LowLow(i, k, m.w);
  }

  // Putting the entry of a code in its table keeps the invariant, and counts the code as done.
  lemma PlaceInv(g: Gen, meta: seq<Meta>, lens: seq<nat>, al: Alphabet, k: nat, code: nat, q': Table, r: HuftNode)
    requires Covers(al, |lens|)
    requires Inv(g, meta, lens, al, k, code) && EndsHere(g, meta, k, code)
    requires !IsLink(r) && r.b == k - g.w && forall x :: Msb(x, k) == code ==> LeafOK(lens, al, r, g.w, x)
    requires Refilled(g.root[g.u[g.h]], q', k - g.w, High(g.i, g.w), r)
    ensures Inv(g.(root := g.root[g.u[g.h] := q']), meta, lens, al, k, code + 1)
  {
    PlaceFilled(g, meta, lens, al, k, code, q', r);
    var top := g.u[g.h];
    var g' := g.(root := g.root[top := q']);
    assert StackAt(g, meta, g.h);
    forall t, o | 0 <= t < |g'.root| && 0 <= o < |g'.root[t]|
      ensures LinkOK(g'.root[t][o], meta, t, o)
    {
      assert LinkOK(g.root[t][o], meta, t, o);
    }
    forall l | 0 <= l <= g'.h
      ensures StackAt(g', meta, l)
    {
      assert StackAt(g, meta, l);
    }
    forall l | 0 <= l < g'.h
      ensures IsChild(g'.root, meta, g'.u[l], g'.u[l + 1])
    {
      assert IsChild(g.root, meta, g.u[l], g.u[l + 1]);
      StackOrder(g, meta, l, g.h);
      assert g'.root[g.u[l]] == g.root[g.u[l]];
    }
    forall t | 0 <= t < |meta|
      ensures OnStack(g', t) || Closed(meta[t], k, code + 1)
    {
      if OnStack(g, t) {
        var l :| 0 <= l <= g.h && g.u[l] == t;
        assert g'.u[l] == t;
      } else {
        assert Closed(meta[t], k, code);
      }
    }
  }

  // ---- backing up over finished tables ----

  // The state after the table on top of the stack has been dropped.
  function Dropped(g: Gen): Gen
    requires |g.lx| == 17 && 0 < g.h < 16 && g.lx[g.h] <= g.w
  {
    g.(w := g.w - g.lx[g.h], h := g.h - 1)
  }

  lemma DropInv(g: Gen, meta: seq<Meta>, lens: seq<nat>, al: Alphabet, k: nat, code: nat)
    requires Covers(al, |lens|)
    requires Inv(g, meta, lens, al, k, code) && g.h > 0
    requires Closed(meta[g.u[g.h]], k, code)
    ensures g.lx[g.h] <= g.w
    ensures Inv(Dropped(g), meta, lens, al, k, code)
    ensures Top(Dropped(g)) == g.w
  {
    assert IsChild(g.root, meta, g.u[g.h - 1], g.u[g.h]);
    assert StackAt(g, meta, g.h - 1);
    assert StackAt(g, meta, g.h);
    var g' := Dropped(g);
    forall l | 0 <= l <= g'.h
      ensures StackAt(g', meta, l)
    {
      assert StackAt(g, meta, l);
    }
    forall l | 0 <= l < g'.h
      ensures IsChild(g'.root, meta, g'.u[l], g'.u[l + 1])
    {
      assert IsChild(g.root, meta, g.u[l], g.u[l + 1]);
    }
    forall t | 0 <= t < |meta|
      ensures OnStack(g', t) || Closed(meta[t], k, code)
    {
      if OnStack(g, t) {
        var l :| 0 <= l <= g.h && g.u[l] == t;
        if l < g.h {
          assert g'.u[l] == t;
        }
      }
    }
  }

  lemma LeftJump(w: nat, k: nat, prev: nat, i: nat)
    requires w <= k && Low(prev, w) != Low(i, w) && Msb(i, k) == Msb(prev, k) + 1
    ensures Msb(i, w) == Msb(prev, w) + 1 && Msb(i, k) == P2(k - w) * Msb(i, w)
  {
    hide *;
    MsbLow(i, prev, w);
    MsbHigh(i, w, k - w);
    MsbHigh(prev, w, k - w);
    HighStep(Msb(prev, k), k - w);
  }

  // A prefix that the next code has left is finished.
  lemma LeftBehind(m: Meta, k: nat, prev: nat, i: nat)
    requires m.w <= k && InTable(m, prev) && !InTable(m, i)
    requires Msb(i, k) == Msb(prev, k) + 1
    ensures Closed(m, k, Msb(i, k))
    ensures Msb(i, k) == P2(k - m.w) * Msb(i, m.w)
  {
    LeftJump(m.w, k, prev, i);
    forall x | InTable(m, x)
      ensures Msb(x, k) < Msb(i, k)
    {
      LeftBelow(m, k, prev, i, x);
    }
  }

  lemma LeftBelow(m: Meta, k: nat, prev: nat, i: nat, x: int)
    requires m.w <= k && InTable(m, prev) && InTable(m, x)
    requires Msb(i, m.w) == Msb(prev, m.w) + 1
    ensures Msb(x, k) < P2(k - m.w) * Msb(i, m.w)
  {
    MsbLow(x, prev, m.w);
    MsbPrefix(x, m.w, k - m.w);
  }

  // ---- the finished tables ----

  lemma LinksLinked(root: seq<Table>, meta: seq<Meta>)
    requires Links(root, meta)
    ensures Linked(root)
  {
    forall t, j | 0 <= t < |root| && 0 <= j < |root[t]|
      ensures LinkedAt(root, root[t][j], t)
    {
      assert LinkOK(root[t][j], meta, t, j);
      P2Mono(root[t][j].b, meta[t].bits);
    }
  }

  lemma {:induction false} WalkFinds(root: seq<Table>, meta: seq<Meta>, lens: seq<nat>, al: Alphabet, k: nat, t: nat,
                                     x: int)
    requires Covers(al, |lens|)
    requires Links(root, meta) && Linked(root) && Filled(root, meta, lens, al, k, P2(k))
    requires t < |root| && InTable(meta[t], x)
    ensures LeafOK(lens, al, Walk(root, t, meta[t].bits, High(x, meta[t].w)), meta[t].w, x)
    decreases |root| - t
  {
    var m := meta[t];
    MsbBound(x, k);
    assert CellOK(root, meta, lens, al, t, x);
    var j := Index(m, x);
    var c := root[t][j];
    if IsLink(c) {
      assert LinkedAt(root, c, t);
      assert LinkOK(c, meta, t, j);
      TakeTake(x, m.w, m.bits);
      WalkFinds(root, meta, lens, al, k, c.t, x);
    }
  }

  // Once every code has been placed, the tables decode the code.
  lemma AllPlaced(g: Gen, meta: seq<Meta>, lens: seq<nat>, al: Alphabet, k: nat)
    requires Covers(al, |lens|)
    requires Inv(g, meta, lens, al, k, P2(k)) && g.h >= 0
    ensures Decodes(g.root, g.lx[1], lens, al) && g.lx[1] >= 1
  {
    LinksLinked(g.root, meta);
    assert StackAt(g, meta, 0);
    RootDecodes(g.root, meta, lens, al, k);
  }

  lemma RootDecodes(root: seq<Table>, meta: seq<Meta>, lens: seq<nat>, al: Alphabet, k: nat)
    requires Covers(al, |lens|)
    requires Links(root, meta) && Linked(root) && Filled(root, meta, lens, al, k, P2(k))
    requires root != [] && meta[0].w == 0 && meta[0].pfx == 0
    ensures forall x :: LeafOK(lens, al, Walk(root, 0, meta[0].bits, x), 0, x)
  {
    hide Linked, Filled, LeafOK, LinkOK, Walk;
    forall x
      ensures LeafOK(lens, al, Walk(root, 0, meta[0].bits, x), 0, x)
    {
      WalkFinds(root, meta, lens, al, k, 0, x);
    }
  }
}
