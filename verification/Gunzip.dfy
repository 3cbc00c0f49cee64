// Inflating a stream buffer by buffer, as gzip.js does while the data arrives: continue_inflate and
// final_inflate.
module Gunzip {
  import opened Bits
  import opened Canonical
  import opened Huffman
  import opened Deflate
  import opened Runs
  import opened BitReader
  import opened Inflate
  import opened Window
  import opened Walking
  import opened Chunks
  import Crc32

  const BUFSZ: nat := 4096

  // How far inflating has got from state `from`: n bytes have come out, and what is still to come is
  // what the machine has still to make.
  ghost predicate Made(from: State, n: nat, total: nat, now: State) {
    && Wf(from) && Wf(now) && n <= total
    && from.hist <= now.hist && |now.hist| == |from.hist| + n
    && Ends(from, total) == Ends(now, total - n) && Run(from, total) == Run(now, total - n)
  }

  lemma MadeNothing(from: State, total: nat)
    requires Wf(from)
    ensures Made(from, 0, total, from)
  {
  }

  // One more buffer, of k bytes at most.
  lemma MadeMore(from: State, n: nat, total: nat, now: State, k: nat)
    requires Made(from, n, total, now) && Ends(from, total) != Full
    ensures var next := Run(now, k);
            && (Ends(now, k) == Full ==> |next.hist| == |now.hist| + k)
            && (Ends(now, k) != Full ==> Ends(now, k) == Ends(from, total) && next == Run(from, total))
            && (Ends(now, k) == Full || Ends(now, k) == Because(End) ==>
                  Made(from, n + |next.hist| - |now.hist|, total, next))
  {
    hide Run, Ends, Wf;
    if Ends(now, k) == Full {
      MadeFull(from, n, total, now, k);
    } else {
      MadeLast(from, n, total, now, k);
    }
  }

  lemma MadeFull(from: State, n: nat, total: nat, now: State, k: nat)
    requires Made(from, n, total, now) && Ends(from, total) != Full && Ends(now, k) == Full
    ensures |Run(now, k).hist| == |now.hist| + k && Made(from, n + k, total, Run(now, k))
  {
    hide Run, Ends, Wf;
    RunSplit(now, k, 0);
    if n + k > total {
      RunSplit(now, total - n, n + k - total);
      assert false;
    }
    RunSplit(now, k, total - n - k);
  }

  lemma MadeLast(from: State, n: nat, total: nat, now: State, k: nat)
    requires Made(from, n, total, now) && Ends(from, total) != Full && Ends(now, k) != Full
    ensures Ends(now, k) == Ends(from, total) && Run(now, k) == Run(from, total)
    ensures Ends(now, k) == Because(End) ==> Made(from, n + |Run(now, k).hist| - |now.hist|, total, Run(now, k))
  {
    hide Run, Ends, Wf, Next;
    RunSplit(now, k, 0);
    HaltsOnce(now, k, total - n);
    HaltsShort(now, total - n);
    HaltedRuns(Run(now, k), total - n - (|Run(now, k).hist| - |now.hist|));
  }

  // Once the machine has halted, asking for more or for less than it would make changes nothing.
  lemma HaltsOnce(st: State, k: nat, m: nat)
    requires Wf(st) && Ends(st, k) != Full && Ends(st, m) != Full
    ensures Ends(st, k) == Ends(st, m) && Run(st, k) == Run(st, m)
  {
    hide Run, Ends, Wf;
    if k <= m {
      RunSplit(st, k, m - k);
      HaltedRuns(Run(st, k), m - k);
    } else {
      RunSplit(st, m, k - m);
      HaltedRuns(Run(st, m), k - m);
    }
  }

  lemma HaltedRuns(st: State, m: nat)
    requires Wf(st) && Next(st).Halt?
    ensures Run(st, m) == st && Ends(st, m) == if m == 0 then Full else Because(Next(st).why)
  {
  }

  lemma {:induction false} HaltsShort(st: State, n: nat)
    requires Wf(st) && Ends(st, n) != Full
    ensures |Run(st, n).hist| < |st.hist| + n
    decreases n, Left(st.s), Rank(st)
  {
    hide Next, Wf, Left, Rank;
    match Next(st)
    case Emit(st') => HaltsShort(st', n - 1);
    case Silent(st') =>
      SilentShrinks(st);
      HaltsShort(st', n);
    case Halt(_) =>
  }

  // The output of a stream, as far as it has been made, in the strings of `data`.
  class Member {
    const inflater: Inflater
    const buff: array<Byte>
    var data: seq<seq<Byte>>
    var outputSize: nat
    var offset: nat
    var computedCRC32: bv32

    // The state that inflating started from.
    ghost var from: State

    // The strings hold what the inflater has put out.
    ghost predicate Holds()
      reads this, inflater, inflater.slide
    {
      && Flat(data) == inflater.hist[if |from.hist| <= |inflater.hist| then |from.hist| else 0..]
      && outputSize == |Flat(data)|
      && computedCRC32 == Crc32.Crc(Flat(data), 0)
    }

    ghost predicate Sound(total: nat)
      reads this, inflater, inflater.slide
    {
      && inflater.Valid() && buff.Length == BUFSZ && buff != inflater.slide
      && |from.hist| <= |inflater.hist|
      && Made(from, |inflater.hist| - |from.hist|, total, inflater.Abs())
      && Holds()
    }

    // start_inflate, for data from index `at` on.
    constructor (bytes: seq<Byte>, at: nat)
      requires at <= |bytes|
      ensures fresh(inflater) && fresh(inflater.slide) && fresh(buff)
      ensures from == State(Stream(Rest(bytes, at), 0), from.hist, NoBlock, false, 0, 0)
      ensures |from.hist| == WSIZE && data == []
      ensures forall total :: Sound(total)
    {
      hide Wf, Run, Ends, Rest, Made, Crc32.Crc, Inflater.Ring, Inflater.FixedReady, Inflater.Tables, RingOf, Fits,
           TablesFor, Inflater.In;
      inflater := new Inflater();
      buff := new Byte[BUFSZ];
      data, outputSize, offset, computedCRC32 := [], 0, at, 0;
      new;
      inflater.Start(bytes, at);
      from := inflater.Abs();
      inflater.ValidWf();
      forall total: nat
        ensures Made(from, 0, total, from)
      {
        MadeNothing(from, total);
      }
      Crc32.CrcNothing(0);
      assert inflater.hist[|from.hist|..] == [];
    }

    // Appends the first n bytes of the buffer.
    method Push(n: nat)
      requires n <= BUFSZ == buff.Length
      modifies this`data, this`outputSize, this`offset, this`computedCRC32
      ensures Flat(data) == Flat(old(data)) + buff[..n]
      ensures outputSize == old(outputSize) + n
      ensures computedCRC32 == Crc32.Crc(buff[..n], old(computedCRC32))
      ensures offset == inflater.pos
    {
      FlatAdd(data, buff[..n]);
      data := data + [buff[..n]];
      outputSize := outputSize + n;
      offset := inflater.pos;
      computedCRC32 := Crc32.Crc32(buff[..n], 0, n, computedCRC32);
      assert buff[..n][0..0 + n] == buff[..n] == buff[..n][0..];
    }

    static lemma Longer(hist: seq<Byte>, before: seq<Byte>, out: seq<Byte>, n: nat)
      requires before <= hist && n <= |before| && out == hist[|before|..]
      ensures hist[n..] == before[n..] + out
    {
    }

    // The next buffer of output, added to the strings.
    method NextBuffer(ghost total: nat) returns (r: Outcome)
      requires Sound(total) && Ends(from, total) != Full
      modifies this, buff, inflater, inflater.slide
      ensures from == old(from) && inflater.slide == old(inflater.slide)
      ensures match Ends(from, total)
              case Because(End) =>
                && r.Count? && Sound(total)
                && |inflater.hist| == old(|inflater.hist|) + r.n
                && (r.n == 0 ==> inflater.Abs() == Run(from, total))
              case Because(why) =>
                || (r.Count? && r.n == BUFSZ && Sound(total) && |inflater.hist| == old(|inflater.hist|) + r.n)
                || (data == old(data) && outputSize == old(outputSize) && computedCRC32 == old(computedCRC32)
                    && Ends(old(inflater.Abs()), BUFSZ) != Full
                    && r == if why == Throw then Thrown else if BadIsLast(Run(from, total)) then Count(0) else Fail)
              case Full => true
    {
      hide Wf, Run, Ends, RingOf, Fits, TablesFor, Remaining, Made, Crc32.Crc, Flat, Next, Inflater.Ring,
           Inflater.FixedReady, Inflater.Tables, BadIsLast;
      ghost var now, had := inflater.Abs(), Flat(data);
      MadeMore(from, |now.hist| - |from.hist|, total, now, BUFSZ);
      r := inflater.InflateInternal(buff, 0, BUFSZ);
      if r.Count? && r.n > 0 {
        ghost var out := buff[..r.n];
        assert out == inflater.hist[|now.hist|..];
        Longer(inflater.hist, now.hist, out, |from.hist|);
        Push(r.n);
        Crc32.CrcChain(had, out, 0);
      }
    }

    // What the machine puts out in all.
    ghost function Output(total: nat): seq<Byte>
      requires Wf(from)
      reads this`from
    {
      Run(from, total).hist[|from.hist|..]
    }

    // The strings hold all of it, but for less than a buffer.
    ghost predicate AllButABuffer(total: nat)
      requires Wf(from)
      reads this`from, this`data, this`outputSize, this`computedCRC32
    {
      && Flat(data) <= Output(total) && |Output(total)| < |Flat(data)| + BUFSZ
      && outputSize == |Flat(data)| && computedCRC32 == Crc32.Crc(Flat(data), 0)
    }

    lemma AtLoss(total: nat)
      requires Sound(total) && Ends(from, total) != Full && Ends(inflater.Abs(), BUFSZ) != Full
      ensures Wf(from) && AllButABuffer(total)
    {
      hide Wf, Run, Ends, RingOf, Fits, TablesFor, Remaining, Crc32.Crc, Next;
      var now := inflater.Abs();
      MadeMore(from, |now.hist| - |from.hist|, total, now, BUFSZ);
      HaltsShort(now, BUFSZ);
    }

    // continue_inflate, once `arrived` bytes of the data have arrived, and final_inflate, when all have:
    // buffer after buffer until less than one is sure to be there, or up to the end. A bad stream ends it
    // without a word, less than one buffer short.
    method ContinueInflate(arrived: nat, finalData: bool, ghost total: nat) returns (thrown: bool)
      requires Sound(total) && Ends(from, total) != Full
      modifies this, buff, inflater, inflater.slide
      ensures from == old(from) && inflater.slide == old(inflater.slide) && Wf(from)
      ensures match Ends(from, total)
              case Because(End) => !thrown && Sound(total) && (finalData ==> Flat(data) == Output(total))
              case Because(Bad) => !thrown && (AllButABuffer(total) || (Sound(total) && !finalData))
              case Because(Throw) => if thrown then AllButABuffer(total) else Sound(total) && !finalData
              case Full => true
    {
      hide Wf, Run, Ends, RingOf, Fits, TablesFor, Remaining, Crc32.Crc, Inflater.Ring, Inflater.FixedReady,
           Inflater.Tables, Next, AllButABuffer;
      SoundWf(total);
      if !finalData && arrived <= inflater.pos + BUFSZ + 64 {
        return false;
      }
      while true
        invariant Sound(total) && from == old(from) && inflater.slide == old(inflater.slide)
        decreases total - (|inflater.hist| - |from.hist|)
      {
        if Ends(inflater.Abs(), BUFSZ) != Full {
          AtLoss(total);
        }
        var i := NextBuffer(total);
        if i == Thrown {
          return true;
        }
        if i == Fail || i.n == 0 {
          return false;
        }
        if !finalData && arrived <= inflater.pos + BUFSZ + 64 {
          return false;
        }
      }
    }

    lemma SoundWf(total: nat)
      requires Sound(total)
      ensures Wf(from)
    {
    }

    // Inflating while the data arrives, and to the end once all of it has: what is put out, its size and
    // its CRC do not depend on the arrivals.
    method InflateAll(arrivals: seq<nat>, all: nat, ghost total: nat)
      requires Sound(total) && Ends(from, total) == Because(End)
      modifies this, buff, inflater, inflater.slide
      ensures from == old(from) && Wf(from) && Flat(data) == Output(total)
      ensures outputSize == |Output(total)| && computedCRC32 == Crc32.Crc(Output(total), 0)
    {
      hide Wf, Run, Ends, Sound, Crc32.Crc;
      var i := 0;
      while i < |arrivals|
        invariant Sound(total) && from == old(from) && inflater.slide == old(inflater.slide)
      {
        var thrown := ContinueInflate(arrivals[i], false, total);
        i := i + 1;
      }
      var thrown := ContinueInflate(all, true, total);
      SoundHolds(total);
    }

    lemma SoundHolds(total: nat)
      requires Sound(total)
      ensures outputSize == |Flat(data)| && computedCRC32 == Crc32.Crc(Flat(data), 0)
    {
    }
  }
}
