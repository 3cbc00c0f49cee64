// The ring window of gzip.js: its cells are the last bytes put out.
module Window {
  import opened Bits
  import opened JsBits
  import opened Deflate

  lemma MaskW(x: int)
    ensures And(x, WSIZE - 1) == x % WSIZE
  {
    P2Values();
    P2Add(8, 7);
    AndMask(x, 15);
  }

  // How far behind the write position a copy reads.
  function Back(wp: nat, copyDist: int): (d: nat)
    ensures 1 <= d <= WSIZE
  {
    (wp - copyDist - 1) % WSIZE + 1
  }

  lemma BackSame(wp: nat, copyDist: int)
    ensures (wp - Back(wp, copyDist)) % WSIZE == copyDist % WSIZE
    ensures Back(wp % WSIZE + 1, copyDist % WSIZE + 1) == Back(wp, copyDist)
  {
    var q, c := wp - wp % WSIZE, copyDist - copyDist % WSIZE;
    assert q % WSIZE == 0 && c % WSIZE == 0;
    assert wp - copyDist - 1 == ((wp % WSIZE + 1) - (copyDist % WSIZE + 1) - 1) + (q - c);
  }

  lemma BackFar(wp: nat, d: nat)
    requires 1 <= d <= WSIZE
    ensures Back(wp, wp - d) == d
  {
  }

  ghost predicate CellOf(cells: seq<Byte>, wp: nat, hist: seq<Byte>, d: nat) {
    && (wp - d) % WSIZE < |cells| && d <= |hist|
    && 1 <= d && cells[(wp - d) % WSIZE] == hist[|hist| - d]
  }

  // The cell d places behind the write position holds the byte put out d bytes ago.
  ghost predicate RingOf(cells: seq<Byte>, wp: nat, hist: seq<Byte>) {
    && |cells| == 2 * WSIZE && wp <= WSIZE && |hist| >= WSIZE
    && forall d :: 1 <= d <= WSIZE ==> CellOf(cells, wp, hist, d)
  }

  lemma RingStart(cells: seq<Byte>)
    requires |cells| == 2 * WSIZE
    ensures RingOf(cells, 0, cells[..WSIZE])
  {
    forall d | 1 <= d <= WSIZE
      ensures CellOf(cells, 0, cells[..WSIZE], d)
    {
      assert (0 - d) % WSIZE == (WSIZE - d) % WSIZE;
    }
  }

  lemma RingPut(cells: seq<Byte>, wp: nat, hist: seq<Byte>, b: Byte)
    requires RingOf(cells, wp, hist)
    ensures wp % WSIZE < |cells|
    ensures RingOf(cells[wp % WSIZE := b], wp % WSIZE + 1, hist + [b])
  {
    var cells', wp', hist' := cells[wp % WSIZE := b], wp % WSIZE + 1, hist + [b];
    forall d | 1 <= d <= WSIZE
      ensures CellOf(cells', wp', hist', d)
    {
      if d > 1 {
        assert CellOf(cells, wp, hist, d - 1);
        assert (wp' - d) % WSIZE == (wp - (d - 1)) % WSIZE;
      }
    }
  }

  lemma RingBack(cells: seq<Byte>, wp: nat, hist: seq<Byte>, copyDist: int)
    requires RingOf(cells, wp, hist)
    ensures 0 <= copyDist % WSIZE < |cells| && cells[copyDist % WSIZE] == hist[|hist| - Back(wp, copyDist)]
    ensures Back(wp % WSIZE + 1, copyDist % WSIZE + 1) == Back(wp, copyDist)
  {
    assert CellOf(cells, wp, hist, Back(wp, copyDist));
    BackSame(wp, copyDist);
  }

  // The buffer holds what has been put out since hist had length `base`, from index org on; its other
  // places are as in b0.
  ghost predicate WrittenTo(bytes: seq<Byte>, b0: seq<Byte>, org: nat, base: nat, hist: seq<Byte>) {
    && base <= |hist| && org + (|hist| - base) <= |b0|
    && bytes == b0[..org] + hist[base..] + b0[org + (|hist| - base)..]
  }

  lemma WrittenNothing(b0: seq<Byte>, org: nat, hist: seq<Byte>)
    requires org <= |b0|
    ensures WrittenTo(b0, b0, org, |hist|, hist)
  {
  }

  lemma WrittenPut(bytes: seq<Byte>, b0: seq<Byte>, org: nat, base: nat, hist: seq<Byte>, b: Byte)
    requires WrittenTo(bytes, b0, org, base, hist) && org + (|hist| - base) < |bytes|
    ensures WrittenTo(bytes[org + (|hist| - base) := b], b0, org, base, hist + [b])
  {
  }
}
