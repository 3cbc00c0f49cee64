// Runs of the DEFLATE machine, taken apart and put together.
module Runs {
  import opened Bits
  import opened Canonical
  import opened Huffman
  import opened Deflate

  // From a, with m bytes to make, the machine gets to b, with n bytes still to make.
  ghost predicate Reaches(a: State, m: nat, b: State, n: nat) {
    && Wf(a) && Wf(b) && n <= m
    && Run(a, m) == Run(b, n) && Ends(a, m) == Ends(b, n)
    && |b.hist| - |a.hist| == m - n
    && a.hist <= b.hist
    && (n < m || Left(b.s) < Left(a.s) || (Left(b.s) == Left(a.s) && Rank(b) <= Rank(a)))
  }

  lemma ReachesTrans(a: State, m: nat, b: State, n: nat, c: State, k: nat)
    requires Reaches(a, m, b, n) && Reaches(b, n, c, k)
    ensures Reaches(a, m, c, k)
  {
    hide Run, Ends, Wf, Rank, Left;
  }

  lemma ReachesWf(a: State, m: nat, b: State, n: nat)
    requires Reaches(a, m, b, n)
    ensures Wf(b)
  {
  }

  lemma ReachesSelf(a: State, m: nat)
    requires Wf(a)
    ensures Reaches(a, m, a, m)
  {
  }

  lemma EmitReaches(a: State, m: nat)
    requires Wf(a) && m > 0 && Next(a).Emit?
    ensures Reaches(a, m, Next(a).next, m - 1)
  {
    hide Wf, Rank, Left;
  }

  lemma SilentReaches(a: State, m: nat)
    requires Wf(a) && m > 0 && Next(a).Silent?
    ensures Reaches(a, m, Next(a).next, m)
    ensures var b := Next(a).next;
            Left(b.s) < Left(a.s) || (Left(b.s) == Left(a.s) && Rank(b) < Rank(a))
  {
    hide Wf, Rank, Left;
    SilentShrinks(a);
  }

  // b is reached from a and is nearer to the end of the work.
  ghost predicate Closer(a: State, m: nat, b: State, n: nat) {
    && Reaches(a, m, b, n)
    && (n < m || Left(b.s) < Left(a.s) || (Left(b.s) == Left(a.s) && Rank(b) < Rank(a)))
  }

  lemma CloserByBytes(a: State, m: nat, b: State, n: nat)
    requires Reaches(a, m, b, n) && n < m
    ensures Closer(a, m, b, n)
  {
  }

  // By the header of a block and what follows it.
  lemma CloserByHeader(a: State, m: nat, c: State, k: nat, b: State, n: nat)
    requires Reaches(a, m, c, k) && k > 0
    requires Next(c).Silent? && Reaches(Next(c).next, k, b, n)
    ensures Closer(a, m, b, n)
  {
    hide Run, Ends, Rank, Left, Next;
    SilentReaches(c, k);
    ReachesTrans(c, k, Next(c).next, k, b, n);
    ReachesTrans(a, m, c, k, b, n);
    CloserTrans(a, m, c, k, Next(c).next, b, n);
  }

  lemma CloserTrans(a: State, m: nat, c: State, k: nat, c': State, b: State, n: nat)
    requires Reaches(a, m, c, k) && Reaches(c', k, b, n) && Reaches(a, m, b, n)
    requires Left(c'.s) < Left(c.s) || (Left(c'.s) == Left(c.s) && Rank(c') < Rank(c))
    ensures Closer(a, m, b, n)
  {
    hide Run, Ends, Wf, Rank, Left, Next;
  }

  // By the end of a block.
  lemma CloserByBlock(a: State, m: nat, c: State, k: nat, b: State, n: nat)
    requires Reaches(a, m, c, k) && Reaches(c, k, b, n) && k > 0
    requires c.block.Codes? && c.len == 0 && (n == 0 || b.block.NoBlock?)
    ensures Closer(a, m, b, n)
  {
    hide Run, Ends, Wf, Left, Next;
    ReachesTrans(a, m, c, k, b, n);
  }

  // Where the machine halts because of a bad block: this block, or the one whose header comes next, is the
  // last one.
  predicate BadIsLast(st: State) {
    st.last || (st.block.NoBlock? && Peek(st.s, 1) != 0)
  }

  // The machine halts in state st; `last` says whether a bad block is the last one.
  ghost predicate WrongAt(st: State, fail: bool, last: bool)
    requires Wf(st)
  {
    if fail then Next(st) == Halt(Bad) && last == BadIsLast(st) else Next(st) == Halt(Throw)
  }

  // It does so before it has made k bytes.
  ghost predicate WrongFrom(st: State, k: nat, fail: bool, last: bool)
    requires Wf(st)
  {
    if fail then Ends(st, k) == Because(Bad) && last == BadIsLast(Run(st, k)) else Ends(st, k) == Because(Throw)
  }

  lemma WentWrong(a: State, m: nat, c: State, k: nat, fail: bool, last: bool)
    requires Reaches(a, m, c, k) && k > 0
    requires || WrongAt(c, fail, last)
             || WrongFrom(c, k, fail, last)
             || (Next(c).Silent? && WrongFrom(Next(c).next, k, fail, last))
    ensures Ends(a, m) == Because(if fail then Bad else Throw)
    ensures fail ==> last == BadIsLast(Run(a, m))
  {
    hide Run, Rank, Left, Next, BadIsLast;
    if Next(c).Silent? {
      SilentReaches(c, k);
    } else if Next(c).Halt? {
      HaltEnds(c, k);
    }
  }

  lemma CloserReaches(a: State, m: nat, c: State, k: nat, b: State, n: nat)
    requires Reaches(a, m, c, k) && Closer(c, k, b, n)
    ensures Reaches(a, m, b, n)
    ensures n < k || (n == k && (Left(b.s) < Left(c.s) || (Left(b.s) == Left(c.s) && Rank(b) < Rank(c))))
  {
    hide Run, Ends, Wf, Rank, Left, Next;
    ReachesTrans(a, m, c, k, b, n);
  }

  lemma EndsAlike(a: State, m: nat, c: State, k: nat)
    requires Reaches(a, m, c, k)
    ensures Ends(a, m) == Ends(c, k) && Run(a, m) == Run(c, k)
  {
  }

  lemma AtEnd(a: State, m: nat, b: State, n: nat)
    requires Reaches(a, m, b, n) && (n == 0 || (b.block.NoBlock? && b.last))
    ensures Run(a, m) == b && Ends(a, m) == if n == 0 then Full else Because(End)
  {
    if n > 0 {
      HaltEnds(b, n);
    }
  }

  lemma ReachesEnd(a: State, m: nat, b: State, n: nat)
    requires Reaches(a, m, b, n) && n > 0 && Next(b).Halt?
    ensures Ends(a, m) == Because(Next(b).why) && Run(a, m) == b
  {
  }

  lemma HaltEnds(a: State, m: nat)
    requires Wf(a) && m > 0 && Next(a).Halt?
    ensures Run(a, m) == a && Ends(a, m) == Because(Next(a).why)
  {
  }

  // ---- what the machine does next ----

  lemma CopyNext(st: State)
    requires Wf(st) && st.len > 0
    ensures Next(st) == Emit(st.(hist := st.hist + [st.hist[|st.hist| - st.dist]], len := st.len - 1,
                                 dist := if st.len == 1 then 0 else st.dist))
    ensures st.block.Codes? && 1 <= st.dist <= WSIZE <= |st.hist|
  {
  }

  lemma StoredNext(st: State)
    requires Wf(st) && st.block.Stored?
    ensures Peek(st.s, 8) < 256
    ensures var left := st.block.left;
            Next(st) == Emit(st.(s := Skip(st.s, 8), hist := st.hist + [Peek(st.s, 8)],
                                 block := if left == 1 then NoBlock else Stored(left - 1)))
  {
    P2Values();
  }

  lemma HeaderNext(st: State)
    requires Wf(st) && st.block.NoBlock? && !st.last
    ensures var k, st1 := Peek(Skip(st.s, 1), 2), st.(s := Skip(Skip(st.s, 1), 2), last := Peek(st.s, 1) != 0);
            && Wf(st1)
            && Next(st) == (
              if k == 0 then StoredHeader(st1)
              else if k == 1 then Silent(st1.(block := Codes(FixedLL(), FixedDL())))
              else if k == 2 then DynamicHeader(st1)
              else Halt(Bad))
  {
    hide Peek, Skip, StoredHeader, DynamicHeader, FixedLL, FixedDL;
  }

  lemma NoTableNext(st: State)
    requires Wf(st) && st.block.Codes? && st.len == 0 && Longest(st.block.ll) == 0
    ensures Next(st) == Halt(Throw)
  {
  }

  lemma InvalidNext(st: State)
    requires Wf(st) && st.block.Codes? && st.len == 0 && Longest(st.block.ll) > 0
    requires var v := Symbol(st.block.ll, st.s.rest); v.None? || SymE(LiteralAlphabet(), v.value) == 99
    ensures Next(st) == Halt(Bad)
  {
    hide NextDistance, Skip, Peek, Symbol, Matches, NoMatch, Bounded, Longest, LengthBits, CopyLengths;
  }

  // The entry of the next symbol tells a literal, the end of the block, and a length.
  lemma EntryNext(st: State)
    requires Wf(st) && st.block.Codes? && st.len == 0 && Longest(st.block.ll) > 0
    requires var v := Symbol(st.block.ll, st.s.rest); v.Some? && SymE(LiteralAlphabet(), v.value) != 99
    ensures var ll, dl, v := st.block.ll, st.block.dl, Symbol(st.block.ll, st.s.rest).value;
            var e, n, s1 := SymE(LiteralAlphabet(), v), SymN(LiteralAlphabet(), v), Skip(st.s, ll[v]);
            if e == 16 then n < 256 && Next(st) == Emit(st.(s := s1, hist := st.hist + [n]))
            else if e == 15 then Next(st) == Silent(st.(s := s1, block := NoBlock))
            else
              && e <= 5 && n > 0 && Longest(dl) > 0
              && Next(st) == NextDistance(st, Skip(s1, e), n + Peek(s1, e), dl)
  {
    hide NextDistance, Skip, Peek, Symbol, Matches, NoMatch, Bounded, Longest, LengthBits, CopyLengths;
    var v := Symbol(st.block.ll, st.s.rest).value;
    if v > 256 {
      LengthEntry(v - 257);
    }
  }

  lemma DistanceNext(st: State, s: Stream, len: nat, dl: seq<nat>)
    requires Wf(st) && st.block.Codes? && st.block.dl == dl && st.len == 0 && len > 0
    ensures var d, r := Symbol(dl, s.rest), NextDistance(st, s, len, dl);
            if d.None? then r == Halt(Bad)
            else
              var e, n := SymE(DistanceAlphabet(), d.value), SymN(DistanceAlphabet(), d.value);
              var s3 := Skip(s, dl[d.value]);
              && e <= 13 && 1 <= n + Peek(s3, e) <= WSIZE
              && r == Silent(st.(s := Skip(s3, e), len := len, dist := n + Peek(s3, e)))
  {
    hide Skip, Peek, Symbol, Matches, NoMatch, Bounded, Longest, CopyDistances, DistanceBits;
    var d := Symbol(dl, s.rest);
    if d.Some? {
      DistanceBound(Skip(s, dl[d.value]), d.value);
    }
  }

  // ---- any split of the output into buffers ----

  // Making a bytes and then b more is making a + b bytes, also where the machine halts on the way.
  lemma {:induction false} RunSplit(st: State, a: nat, b: nat)
    requires Wf(st)
    ensures Run(st, a + b) == Run(Run(st, a), b)
    ensures Ends(st, a + b) == if Ends(st, a) == Full then Ends(Run(st, a), b) else Ends(st, a)
    ensures Ends(st, a) == Full ==> |Run(st, a).hist| == |st.hist| + a
    ensures Ends(st, a).Because? ==> Next(Run(st, a)) == Halt(Ends(st, a).why)
    decreases a, Left(st.s), Rank(st)
  {
    hide Next, Wf, Left, Rank;
    if a > 0 {
      match Next(st)
      case Emit(st') => RunSplit(st', a - 1, b);
      case Silent(st') =>
        SilentShrinks(st);
        RunSplit(st', a, b);
      case Halt(_) =>
    }
  }

  function Sum(sizes: seq<nat>): nat {
    if sizes == [] then 0 else sizes[0] + Sum(sizes[1..])
  }

  // The machine run with one buffer after another.
  ghost function RunAll(st: State, sizes: seq<nat>): (r: State)
    requires Wf(st)
    ensures Wf(r)
    decreases |sizes|
  {
    if sizes == [] then st else RunAll(Run(st, sizes[0]), sizes[1..])
  }

  lemma RunNothing(st: State)
    requires Wf(st)
    ensures Run(st, 0) == st
  {
  }

  // What has been put out in the end does not depend on the sizes of the buffers, only on their sum.
  lemma {:induction false} BuffersDoNotMatter(st: State, sizes: seq<nat>)
    requires Wf(st)
    ensures RunAll(st, sizes) == Run(st, Sum(sizes))
    decreases |sizes|
  {
    hide Run, Ends, Wf, Next;
    if sizes == [] {
      RunNothing(st);
    } else {
      BuffersDoNotMatter(Run(st, sizes[0]), sizes[1..]);
      RunSplit(st, sizes[0], Sum(sizes[1..]));
    }
  }
}
