// Literals and copies (RFC 1951, section 2), and the bytes that they stand for.
module Lz77 {
  import opened Bits
  import opened Deflate

  datatype Token = Literal(b: Byte) | Copy(len: nat, dist: nat)

  // Lengths and distances within the format's bounds.
  predicate WfToken(t: Token) {
    t.Copy? ==> 3 <= t.len <= 258 && 1 <= t.dist <= WSIZE
  }

  // len bytes more, each a copy of the one dist places before it.
  function CopyOut(hist: seq<Byte>, len: nat, dist: nat): (r: seq<Byte>)
    requires 1 <= dist <= |hist|
    ensures |r| == |hist| + len && hist <= r
    decreases len
  {
    if len == 0 then hist else CopyOut(Append(hist, hist[|hist| - dist]), len - 1, dist)
  }

  // Every copy reaches back no further than to the start of the n bytes before it and those put out
  // since.
  predicate InReach(n: nat, ts: seq<Token>)
    decreases |ts|
  {
    ts == [] || (WfToken(ts[0]) && (ts[0].Copy? ==> ts[0].dist <= n) && InReach(n + Size(ts[0]), ts[1..]))
  }

  function Size(t: Token): nat {
    if t.Copy? then t.len else 1
  }

  // What the tokens stand for, after hist.
  function Expand(hist: seq<Byte>, ts: seq<Token>): (r: seq<Byte>)
    requires InReach(|hist|, ts)
    ensures hist <= r
    decreases |ts|
  {
    if ts == [] then hist else Expand(ExpandOne(hist, ts[0]), ts[1..])
  }

  function ExpandOne(hist: seq<Byte>, t: Token): (r: seq<Byte>)
    requires WfToken(t) && (t.Copy? ==> t.dist <= |hist|)
    ensures hist <= r && |r| == |hist| + Size(t)
  {
    match t
    case Literal(b) => Append(hist, b)
    case Copy(len, dist) => CopyOut(hist, len, dist)
  }

  function Mod(i: nat, d: nat): (m: nat)
    requires d > 0
    ensures m < d
  {
    i % d
  }

  // A copy that overlaps itself repeats its first dist bytes.
  lemma {:induction false} CopyOutPeriodic(hist: seq<Byte>, len: nat, dist: nat, i: nat)
    requires 1 <= dist <= |hist| && i < len
    ensures CopyOut(hist, len, dist)[|hist| + i] == hist[|hist| - dist + Mod(i, dist)]
    decreases len
  {
    ModStep(i, dist);
    hide Mod;
    var hist' := Append(hist, hist[|hist| - dist]);
    if i > 0 {
      CopyOutPeriodic(hist', len - 1, dist, i - 1);
    }
  }

  lemma ModStep(i: nat, d: nat)
    requires d > 0
    ensures if i == 0 then Mod(i, d) == 0 else Mod(i - 1, d) == if Mod(i, d) == 0 then d - 1 else Mod(i, d) - 1
  {
    var q, r := i / d, i % d;
    if i == 0 {
    } else if r == 0 {
      Distribute(d, q, -1, 0);
      DivModUnique(i - 1, d, q - 1, d - 1);
    } else {
      DivModUnique(i - 1, d, q, r - 1);
    }
  }

  // Bytes that no copy reads do not matter: if the copies reach no further back than what has been put
  // out, the bytes put out are the same after any initial window.
  lemma {:induction false} CopyOutAfter(w: seq<Byte>, out: seq<Byte>, len: nat, dist: nat)
    requires 1 <= dist <= |out|
    ensures CopyOut(w + out, len, dist) == w + CopyOut(out, len, dist)
    decreases len
  {
    if len > 0 {
      var b := out[|out| - dist];
      assert (w + out)[|w + out| - dist] == b;
      assert w + out + [b] == w + (out + [b]);
      CopyOutAfter(w, out + [b], len - 1, dist);
    }
  }

  // What is put out does not depend on what was in the window before.
  lemma {:induction false} ExpandAfter(w: seq<Byte>, out: seq<Byte>, ts: seq<Token>)
    requires InReach(|out|, ts)
    ensures InReach(|w| + |out|, ts)
    ensures Expand(w + out, ts) == w + Expand(out, ts)
    decreases |ts|
  {
    if ts != [] {
      var t := ts[0];
      ExpandAfter(w, ExpandOne(out, t), ts[1..]);
      match t {
        case Literal(b) => assert w + out + [b] == w + (out + [b]);
        case Copy(len, dist) => CopyOutAfter(w, out, len, dist);
      }
    }
  }
}
