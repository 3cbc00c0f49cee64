// The parts of zip_HuftBuild that do not touch the stack of tables: the length counts, the symbols
// in code order, the increment of a code and the filling of a table.
module HuftSteps {
  import opened Bits
  import opened JsBits
  import opened Canonical
  import opened Huffman
  import opened HuftInvariant

  // ---- the innermost steps ----

  lemma ShlIsP2(n: nat)
    requires n <= 16
    ensures Shl(1, n) == P2(n) <= 0x1_0000
  {
    P2Mono(n, 16);
    P2Values();
    ToInt32Same(P2(n));
  }

  // While the carry runs: the ones of code i from bit p + 1 on have been stripped, giving `code`.
  ghost predicate Carry(i: nat, k: nat, code: nat, p: int)
    requires -1 <= p < k
  {
    && code < P2(p + 1)
    && Msb(i, k) + 1 == P2(k - p - 1) * Msb(code, p + 1) + P2(k - p - 1)
  }

  lemma CarryOn(i: nat, k: nat, code: nat, p: nat)
    requires p < k && Carry(i, k, code, p) && And(code, P2(p)) != 0
    ensures 0 <= Xor(code, P2(p)) && Carry(i, k, Xor(code, P2(p)), p - 1)
    ensures High(P2(p), 1) == if p == 0 then 0 else P2(p - 1)
  {
    AndBitZero(code, p);
    XorBit(code, p);
    StripOne(code, p, k);
    if p > 0 {
      P2Values();
      Join(P2(p - 1), 0, 1);
    }
  }

  lemma StripOne(i: nat, p: nat, k: nat)
    requires p < k && i < P2(p + 1) && Bit(i, p) == 1
    ensures P2(p) <= i && i - P2(p) < P2(p)
    ensures P2(k - p - 1) * Msb(i, p + 1) + P2(k - p - 1) == P2(k - p) * Msb(i - P2(p), p) + P2(k - p)
  {
    LowSmall(i, p + 1);
    TakeTake(i, p, 1);
    assert P2(1) == 2;
    var i' := i - P2(p);
    assert i == Low(i, p) + P2(p) * Low(High(i, p), 1);
    assert P2(p) * 1 == P2(p);
    LowSmall(i', p);
    MsbLow(i, i', p);
    var m := Msb(i', p);
    Distribute(P2(k - p - 1), 2 * m, 1, 0);
    Distribute(P2(k - p - 1), m, 0, 2);
  }

  lemma CarryEnd(i: nat, k: nat, code: nat, p: nat)
    requires p < k && Carry(i, k, code, p) && And(code, P2(p)) == 0
    ensures 0 <= Xor(code, P2(p)) < P2(k) && Msb(Xor(code, P2(p)), k) == Msb(i, k) + 1
    ensures Msb(i, k) + 1 < P2(k)
  {
    hide P2, Msb, High, And, Xor, Bit;
    AndBitZero(code, p);
    XorBit(code, p);
    SetZero(code, p, k);
    MsbBound(code + P2(p), k);
  }

  // Setting the highest bit that is clear.
  lemma SetZero(i: nat, p: nat, k: nat)
    requires p < k && i < P2(p + 1) && Bit(i, p) == 0
    ensures i + P2(p) < P2(k)
    ensures Msb(i + P2(p), k) == P2(k - p - 1) * Msb(i, p + 1) + P2(k - p - 1)
  {
    LowSmall(i, p + 1);
    TakeTake(i, p, 1);
    assert P2(p) * 0 == 0;
    var i' := i + P2(p);
    Join(1, i, p);
    assert P2(1) == 2;
    LowSmall(1, 1);
    LowSmall(i, p);
    MsbLow(i, i', p);
    P2Mono(p + 1, k);
    MsbPad(i', p + 1, k - p - 1);
    Distribute(P2(k - p - 1), Msb(i, p + 1), 1, 0);
  }

  // Adds one to the k-bit code i, whose most significant bit comes first: the carry runs backwards.
  method BackwardsIncrement(i: nat, k: nat) returns (r: nat)
    requires 1 <= k <= 16 && i < P2(k)
    ensures r < P2(k)
    ensures Msb(i, k) + 1 < P2(k) ==> Msb(r, k) == Msb(i, k) + 1
    ensures Msb(i, k) + 1 >= P2(k) ==> r == 0
  {
    r := i;
    ghost var p: int := k - 1;
    ShlIsP2(k - 1);
    var j := Shl(1, k - 1);
    while And(r, j) != 0
      invariant -1 <= p < k && Carry(i, k, r, p)
      invariant j == if p >= 0 then P2(p) else 0
      decreases p
    {
      assert And(r, 0) == 0;
      CarryOn(i, k, r, p);
      r := Xor(r, j);
      j := High(j, 1);
      p := p - 1;
    }
    if p >= 0 {
      CarryEnd(i, k, r, p);
    }
    r := Xor(r, j);
  }

  // The entries of q before j have been treated; the next one to treat is j.
  ghost predicate Filling(q: Table, q': Table, start: nat, n: nat, r: HuftNode, j: nat) {
    && |q'| == |q|
    && forall o :: 0 <= o < |q| ==> q'[o] == if o < j && Low(o, n) == start then r else q[o]
  }

  lemma FillNext(q: Table, q': Table, start: nat, n: nat, r: HuftNode, j: nat, turns: nat)
    requires start < P2(n) && Filling(q, q', start, n, r, j) && j < |q|
    requires j == P2(n) * turns + start
    ensures Filling(q, q'[j := r], start, n, r, j + P2(n))
    ensures j + P2(n) == P2(n) * (turns + 1) + start
  {
    JoinAs(j, turns, start, n);
    forall o | j < o < j + P2(n)
      ensures Low(o, n) != start
    {
      NotYet(o, n, turns, start);
    }
    Distribute(P2(n), turns, 1, 0);
  }

  // Copies r into every 2^n-th entry from `start` on.
  method FillEntries(q: Table, start: nat, n: nat, r: HuftNode) returns (q': Table)
    requires n <= 16 && start < P2(n)
    ensures Refilled(q, q', n, start, r)
  {
    var f, j := Shl(1, n), start;
    ShlIsP2(n);
    q' := q;
    ghost var turns := 0;
    FillFirst(start, n);
    while j < |q|
      invariant j == P2(n) * turns + start
      invariant Filling(q, q', start, n, r, j)
    {
      FillNext(q, q', start, n, r, j, turns);
      q' := q'[j := r];
      j, turns := j + f, turns + 1;
    }
  }

  lemma FillFirst(start: nat, n: nat)
    requires start < P2(n)
    ensures forall o :: 0 <= o < start ==> Low(o, n) != start
  {
    forall o | 0 <= o < start
      ensures Low(o, n) != start
    {
      LowSmall(o, n);
    }
  }

  lemma NotYet(o: nat, n: nat, turns: nat, start: nat)
    requires start < P2(n) && P2(n) * turns + start < o < P2(n) * turns + start + P2(n)
    ensures Low(o, n) != start
  {
    var p, lo := P2(n), o - P2(n) * turns;
    if lo < p {
      Join(turns, lo, n);
    } else {
      Distribute(p, turns, 1, 0);
      Join(turns + 1, lo - p, n);
    }
  }

  // ---- the length counts ----

  // How many codes of lengths below k there are: where the symbols of length k begin among all.
  function Offset(lens: seq<nat>, k: nat): nat {
    if k <= 1 then 0 else Offset(lens, k - 1) + Count(lens, k - 1)
  }

  // Counts with the last one raised so that no bit string is left without a code.
  ghost predicate Counts(c: seq<nat>, lens: seq<nat>, g: nat) {
    && |c| == 17 && 1 <= g <= 16 && Longest(lens) == g
    && First(lens, g) + Count(lens, g) <= First(lens, g) + c[g] == P2(g)
    && Count(lens, g) > 0
    && forall l :: 1 <= l < g ==> RoomAt(c, lens, l)
  }

  ghost predicate RoomAt(c: seq<nat>, lens: seq<nat>, l: nat) {
    l < |c| && c[l] == Count(lens, l) && First(lens, l) + c[l] < P2(l)
  }

  lemma RoomBelow(lens: seq<nat>, l: nat, g: nat)
    requires 1 <= l < g && First(lens, g) < P2(g)
    ensures First(lens, l) + Count(lens, l) < P2(l)
  {
    FirstGrows(lens, l, g);
    P2Add(g - l, l);
    var p, a, b := P2(g - l), First(lens, l) + Count(lens, l), P2(l);
    if a >= b {
      MulMono(p, b, a);
    }
  }

  lemma {:induction false} OffsetMono(lens: seq<nat>, j: nat, k: nat)
    requires 1 <= j < k
    ensures Offset(lens, j) + Count(lens, j) <= Offset(lens, k)
  {
    if j + 1 < k {
      OffsetMono(lens, j, k - 1);
    }
  }

  function OffsetIn(lens: seq<nat>, n: nat, k: nat): nat
    requires n <= |lens|
  {
    if k <= 1 then 0 else OffsetIn(lens, n, k - 1) + CountIn(lens, n, k - 1)
  }

  lemma {:induction false} OffsetInStep(lens: seq<nat>, n: nat, k: nat)
    requires 0 < n <= |lens|
    ensures OffsetIn(lens, n, k) == OffsetIn(lens, n - 1, k) + if 0 < lens[n - 1] < k then 1 else 0
  {
    if k > 1 {
      OffsetInStep(lens, n, k - 1);
    }
  }

  lemma {:induction false} OffsetInNone(lens: seq<nat>, k: nat)
    ensures OffsetIn(lens, 0, k) == 0
  {
    if k > 1 {
      OffsetInNone(lens, k - 1);
    }
  }

  lemma {:induction false} OffsetBound(lens: seq<nat>, n: nat, k: nat)
    requires n <= |lens|
    ensures OffsetIn(lens, n, k) <= n
  {
    if n == 0 {
      OffsetInNone(lens, k);
    } else {
      OffsetInStep(lens, n, k);
      OffsetBound(lens, n - 1, k);
    }
  }

  lemma {:induction false} OffsetAll(lens: seq<nat>, k: nat)
    ensures Offset(lens, k) == OffsetIn(lens, |lens|, k)
  {
    if k > 1 {
      OffsetAll(lens, k - 1);
    }
  }

  method CountLengths(b: seq<nat>, n: nat) returns (c: seq<nat>)
    requires 1 <= n <= |b| && Bounded(b[..n])
    ensures |c| == 17 && forall k :: 0 <= k < 17 ==> c[k] == Count(b[..n], k)
  {
    ghost var lens := b[..n];
    c := seq(17, _ => 0);
    var pidx := 0;
    while pidx < n
      invariant 0 <= pidx <= n && |c| == 17
      invariant forall k :: 0 <= k < 17 ==> c[k] == CountIn(lens, pidx, k)
    {
      assert lens[pidx] == b[pidx];
      c := c[b[pidx] := c[b[pidx]] + 1];
      pidx := pidx + 1;
    }
  }

  // The table of symbols in code order.
  ghost predicate Sorted(v: seq<nat>, lens: seq<nat>, n: nat, g: nat)
    requires n <= |lens|
  {
    forall k, m :: 1 <= k <= g && 0 <= m < CountIn(lens, n, k) ==> SortedAt(v, lens, k, m)
  }

  ghost predicate SortedAt(v: seq<nat>, lens: seq<nat>, k: nat, m: nat) {
    var p := Offset(lens, k) + m;
    p < |v| && v[p] < |lens| && lens[v[p]] == k && CountIn(lens, v[p], k) == m
  }

  // Where the symbols of each length begin.
  method Offsets(c: seq<nat>, g: nat, ghost lens: seq<nat>) returns (x: seq<nat>)
    requires Counts(c, lens, g)
    ensures |x| == 17 && forall l {:trigger x[l]} :: 1 <= l <= g ==> x[l] == Offset(lens, l)
  {
    x := seq(17, _ => 0);
    var j, xp := 0, 2;
    while xp <= g
      invariant 2 <= xp && (xp <= g + 1 || g == 1) && |x| == 17
      invariant forall l {:trigger x[l]} :: 1 <= l < xp && l <= g ==> x[l] == Offset(lens, l)
      invariant j == Offset(lens, xp - 1)
    {
      assert RoomAt(c, lens, xp - 1);
      j := j + c[xp - 1];
      x := x[xp := j];
      xp := xp + 1;
    }
  }

  ghost predicate Sorting(v: seq<nat>, x: seq<nat>, lens: seq<nat>, i: nat, g: nat)
    requires i <= |lens|
  {
    && |x| == 17 && |v| == 288 && 1 <= g <= 16
    && (forall l {:trigger x[l]} :: 1 <= l <= g ==> x[l] == Offset(lens, l) + CountIn(lens, i, l))
    && Sorted(v, lens, i, g)
  }

  method SortSymbols(b: seq<nat>, n: nat, c: seq<nat>, g: nat) returns (v: seq<nat>, total: nat)
    requires 1 <= n <= |b| && n <= 288 && Counts(c, b[..n], g)
    ensures Sorted(v, b[..n], n, g) && total == Offset(b[..n], g + 1) <= |v|
  {
    ghost var lens := b[..n];
    var x := Offsets(c, g, lens);
    v := seq(288, _ => 0);
    var i := 0;
    while i < n
      invariant 0 <= i <= n && Sorting(v, x, lens, i, g)
    {
      var j := b[i];
      if j != 0 {
        SortingStep(v, x, lens, i, g);
        v := v[x[j] := i];
        x := x[j := x[j] + 1];
      }
      i := i + 1;
    }
    total := x[g];
    FewerThanAll(lens, g + 1);
  }

  lemma SortingStep(v: seq<nat>, x: seq<nat>, lens: seq<nat>, i: nat, g: nat)
    requires i < |lens| <= 288 && Sorting(v, x, lens, i, g) && Longest(lens) == g && lens[i] > 0
    ensures x[lens[i]] < |v|
    ensures Sorting(v[x[lens[i]] := i], x[lens[i] := x[lens[i]] + 1], lens, i + 1, g)
  {
    PlaceFor(lens, i, g);
    SortStep(v, lens, i, g);
  }

  lemma PlaceFor(lens: seq<nat>, i: nat, g: nat)
    requires i < |lens| <= 288 && Longest(lens) == g && lens[i] > 0
    ensures Offset(lens, lens[i]) + CountIn(lens, i, lens[i]) < 288
  {
    CountInMono(lens, i, |lens|, lens[i]);
    OffsetMono(lens, lens[i], g + 1);
    FewerThanAll(lens, g + 1);
  }

  lemma FewerThanAll(lens: seq<nat>, k: nat)
    ensures Offset(lens, k) <= |lens|
  {
    OffsetAll(lens, k);
    OffsetBound(lens, |lens|, k);
  }

  lemma SortStep(v: seq<nat>, lens: seq<nat>, i: nat, g: nat)
    requires i < |lens| && 1 <= lens[i] <= g && Sorted(v, lens, i, g)
    requires Offset(lens, lens[i]) + CountIn(lens, i, lens[i]) < |v|
    ensures Sorted(v[Offset(lens, lens[i]) + CountIn(lens, i, lens[i]) := i], lens, i + 1, g)
  {
    var j := lens[i];
    var v' := v[Offset(lens, j) + CountIn(lens, i, j) := i];
    forall k, m | 1 <= k <= g && 0 <= m < CountIn(lens, i + 1, k)
      ensures SortedAt(v', lens, k, m)
    {
      if m < CountIn(lens, i, k) {
        assert SortedAt(v, lens, k, m);
        CountInMono(lens, i, |lens|, j);
        CountInMono(lens, i, |lens|, k);
        if k < j {
          OffsetMono(lens, k, j);
        } else if j < k {
          OffsetMono(lens, j, k);
        }
      }
    }
  }
}
