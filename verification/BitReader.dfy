// The bit buffer of gzip.js: its content and the unread bytes are one bit stream.
module BitReader {
  import opened Bits
  import opened JsBits
  import opened Deflate

  // The bytes from pos on. Past the end of the data zip_GET_BYTE returns -1, so that the stream goes
  // on with ones.
  function Rest(data: seq<Byte>, pos: nat): int
    requires pos <= |data|
    decreases |data| - pos
  {
    if pos == |data| then -1 else data[pos] + P2(8) * Rest(data, pos + 1)
  }

  // bitBuf holds bitLen bits of the stream. Once it has taken in bits from past the end of the data
  // it is negative.
  ghost predicate Fits(data: seq<Byte>, pos: nat, bitBuf: int, bitLen: nat) {
    && pos <= |data|
    && bitLen <= 23
    && -1 * P2(bitLen) <= bitBuf < P2(bitLen)
    && (bitBuf < 0 ==> pos == |data|)
  }

  // The stream as a whole.
  ghost function Remaining(data: seq<Byte>, pos: nat, bitBuf: int, bitLen: nat): int
    requires pos <= |data|
  {
    if bitBuf < 0 then bitBuf else bitBuf + P2(bitLen) * Rest(data, pos)
  }

  lemma StartFits(data: seq<Byte>, pos: nat)
    requires pos <= |data|
    ensures Fits(data, pos, 0, 0) && Remaining(data, pos, 0, 0) == Rest(data, pos)
  {
    assert P2(0) == 1;
  }

  lemma SmallShift(b: int, n: nat)
    requires -1 <= b < 256 && n < 16
    ensures Shl(b, n) == b * P2(n)
  {
    P2Mono(n, 15);
    P2Values();
    assert P2(16) == 2 * P2(15);
    hide P2, ToInt32;
    SmallProduct(b, P2(n));
    ToInt32Same(b * P2(n));
  }

  lemma SmallProduct(b: int, p: int)
    requires -1 <= b < 256 && 1 <= p <= 0x8000
    ensures -0x8000 <= b * p <= 255 * 0x8000
  {
    MulMono(p, b, 255);
    MulMono(p, -1, b);
  }

  // Taking in one more byte.
  lemma TakeByte(data: seq<Byte>, pos: nat, bitBuf: int, bitLen: nat)
    requires Fits(data, pos, bitBuf, bitLen) && bitLen < 16 && pos < |data|
    ensures var buf := Or(bitBuf, Shl(data[pos], bitLen));
            && buf >= 0 && Fits(data, pos + 1, buf, bitLen + 8)
            && Remaining(data, pos + 1, buf, bitLen + 8) == Remaining(data, pos, bitBuf, bitLen)
  {
    var b, p := data[pos], P2(bitLen);
    SmallShift(b, bitLen);
    OrAbove(bitBuf, b, bitLen);
    P2Values();
    P2Add(bitLen, 8);
    ByteAbove(p, bitBuf, b, Rest(data, pos + 1), P2(bitLen + 8), Rest(data, pos));
  }

  lemma ByteAbove(p: int, buf: int, b: int, rest: int, p8: int, rest': int)
    requires 0 <= buf < p && 0 <= b < 256 && p8 == p * 256 && rest' == b + 256 * rest
    ensures b * p == p * b && 0 <= buf + p * b < p8
    ensures (buf + p * b) + p8 * rest == buf + p * rest'
  {
    MulMono(p, b + 1, 256);
    Distribute(p, b, 1, 0);
    Distribute(p, b, 256 * rest, 0);
    Distribute(p, rest, 0, 256);
  }

  // Taking in bits past the end.
  lemma TakeEnd(data: seq<Byte>, bitBuf: int, bitLen: nat)
    requires Fits(data, |data|, bitBuf, bitLen) && bitLen < 16
    ensures var buf := Or(bitBuf, Shl(-1, bitLen));
            && Fits(data, |data|, buf, bitLen + 8)
            && Remaining(data, |data|, buf, bitLen + 8) == Remaining(data, |data|, bitBuf, bitLen)
  {
    SmallShift(-1, bitLen);
    P2Mono(bitLen, bitLen + 8);
    if bitBuf >= 0 {
      OrAbove(bitBuf, -1, bitLen);
    } else {
      OrOnes(bitBuf, bitLen);
    }
  }

  // The low bits of the buffer are those of the stream.
  lemma Peeking(data: seq<Byte>, pos: nat, bitBuf: int, bitLen: nat, n: nat)
    requires Fits(data, pos, bitBuf, bitLen) && n <= bitLen && n <= 16
    ensures And(bitBuf, MASK_BITS[n]) == Low(Remaining(data, pos, bitBuf, bitLen), n)
  {
    MaskBits(n);
    AndMask(bitBuf, n);
    if bitBuf >= 0 {
      var x := Remaining(data, pos, bitBuf, bitLen);
      LowLow(x, bitLen, n);
      Join(Rest(data, pos), bitBuf, bitLen);
    }
  }

  // Dropping bits from the buffer drops them from the stream.
  lemma Dropping(data: seq<Byte>, pos: nat, bitBuf: int, bitLen: nat, n: nat)
    requires Fits(data, pos, bitBuf, bitLen) && n <= bitLen
    ensures Fits(data, pos, High(bitBuf, n), bitLen - n)
    ensures Remaining(data, pos, High(bitBuf, n), bitLen - n) == High(Remaining(data, pos, bitBuf, bitLen), n)
  {
    var m := bitLen - n;
    if bitBuf >= 0 {
      HighBound(bitBuf, n, m);
      var x, r := Remaining(data, pos, bitBuf, bitLen), Rest(data, pos);
      Join(r, bitBuf, bitLen);
      TakeTake(x, n, m);
      Split(High(x, n), m);
      LowLow(x, bitLen, n);
      HighOfLow(x, n, m);
    } else {
      HighNegative(bitBuf, n, m);
    }
  }

  lemma HighOfLow(x: int, n: nat, m: nat)
    ensures High(Low(x, n + m), n) == Low(High(x, n), m)
  {
    TakeTake(x, n, m);
    JoinAs(Low(x, n + m), Low(High(x, n), m), Low(x, n), n);
  }

  lemma {:induction false} HighNegative(x: int, n: nat, m: nat)
    requires -1 * P2(n + m) <= x < 0
    ensures -1 * P2(m) <= High(x, n) < 0
    decreases n
  {
    if n > 0 {
      Halve(x, n - 1);
      HighNegative(x / 2, n - 1, m);
    } else {
      assert P2(0) == 1;
    }
  }
}
