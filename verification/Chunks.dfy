// Text that comes in pieces.
module Chunks {
  import opened Deflate

  // The pieces joined.
  function Flat(chunks: seq<seq<Byte>>): seq<Byte> {
    if chunks == [] then [] else Flat(chunks[..|chunks| - 1]) + chunks[|chunks| - 1]
  }

  lemma FlatAdd(chunks: seq<seq<Byte>>, c: seq<Byte>)
    ensures Flat(chunks + [c]) == Flat(chunks) + c
  {
    assert (chunks + [c])[..|chunks|] == chunks;
  }

  lemma {:induction false} FlatAppend(a: seq<seq<Byte>>, b: seq<seq<Byte>>)
    ensures Flat(a + b) == Flat(a) + Flat(b)
    decreases |b|
  {
    if b == [] {
      assert a + b == a && Flat(a) + [] == Flat(a);
    } else {
      var n := |b| - 1;
      assert (a + b)[..|a + b| - 1] == a + b[..n];
      FlatAppend(a, b[..n]);
    }
  }

  lemma FlatNext(chunks: seq<seq<Byte>>, k: nat)
    requires k < |chunks|
    ensures Flat(chunks[..k + 1]) == Flat(chunks[..k]) + chunks[k]
  {
    assert chunks[..k + 1][..k] == chunks[..k];
  }

  // The first k pieces make a beginning of the whole, and the next one follows it.
  lemma FlatPrefix(chunks: seq<seq<Byte>>, k: nat)
    requires k <= |chunks|
    ensures Flat(chunks) == Flat(chunks[..k]) + Flat(chunks[k..])
    ensures k < |chunks| ==> Flat(chunks[..k + 1]) == Flat(chunks[..k]) + chunks[k]
  {
    hide Flat;
    assert chunks[..k] + chunks[k..] == chunks;
    FlatAppend(chunks[..k], chunks[k..]);
    if k < |chunks| {
      FlatNext(chunks, k);
    }
  }

  lemma FlatNothing(chunks: seq<seq<Byte>>)
    ensures Flat(chunks[..0]) == []
  {
  }

  // String.substring, for start <= end.
  function Substring(s: seq<Byte>, start: nat, end: nat): seq<Byte>
    requires start <= end
  {
    if |s| <= start then [] else if |s| <= end then s[start..] else s[start..end]
  }

  lemma SubstringInside(s: seq<Byte>, start: nat, end: nat)
    requires start <= end <= |s|
    ensures Substring(s, start, end) == s[start..end]
  {
  }

  // chunkSubstring: joins the pieces from the one with index `start` up to the one with index `end`, and
  // cuts out of these.
  method ChunkSubstring(chunks: seq<seq<Byte>>, start: nat, end: nat) returns (r: seq<Byte>)
    requires start <= end
    ensures r == Substring(Flat(chunks), start, end)
  {
    hide Flat, Substring;
    var soff, i := 0, 0;
    FlatNothing(chunks);
    while i < |chunks|
      invariant i <= |chunks| && soff == |Flat(chunks[..i])| <= start
    {
      FlatPrefix(chunks, i);
      if soff + |chunks[i]| > start {
        break;
      }
      soff := soff + |chunks[i]|;
      i := i + 1;
    }
    var strs, eoff, j := [], soff, i;
    ghost var k := i;
    assert chunks[i..i] == [];
    while j < |chunks|
      invariant i <= k == j <= |chunks| && eoff == |Flat(chunks[..j])|
      invariant strs == chunks[i..k]
    {
      FlatPrefix(chunks, j);
      strs := strs + [chunks[j]];
      k := k + 1;
      if eoff + |chunks[j]| > end {
        break;
      }
      eoff := eoff + |chunks[j]|;
      j := j + 1;
    }
    assert k == |chunks| || |Flat(chunks[..k])| > end;
    CutOut(chunks, i, k, start, end);
    assert strs == chunks[i..k] && soff == |Flat(chunks[..i])|;
    r := Substring(Flat(strs), start - soff, start - soff + (end - start));
  }

  // Cutting out of some of the pieces is cutting out of them all.
  lemma CutOut(chunks: seq<seq<Byte>>, i: nat, k: nat, start: nat, end: nat)
    requires i <= k <= |chunks| && |Flat(chunks[..i])| <= start <= end
    requires k == |chunks| || |Flat(chunks[..k])| > end
    ensures var soff := |Flat(chunks[..i])|;
            Substring(Flat(chunks), start, end)
            == Substring(Flat(chunks[i..k]), start - soff, start - soff + (end - start))
  {
    hide Flat, Substring;
    FlatPrefix(chunks, k);
    FlatPrefix(chunks[..k], i);
    assert chunks[..k][..i] == chunks[..i] && chunks[..k][i..] == chunks[i..k];
    assert k == |chunks| ==> chunks[..k] == chunks && Flat(chunks) + [] == Flat(chunks);
    SubstringOf(Flat(chunks[..i]), Flat(chunks[i..k]), if k == |chunks| then [] else Flat(chunks[k..]), start, end);
  }

  lemma SubstringOf(a: seq<Byte>, m: seq<Byte>, c: seq<Byte>, start: nat, end: nat)
    requires |a| <= start <= end && (c == [] || |a| + |m| > end)
    ensures Substring(m, start - |a|, start - |a| + (end - start)) == Substring(a + m + c, start, end)
  {
    var all := a + m + c;
    if |a| + |m| <= start {
    } else if |a| + |m| <= end {
      assert all[start..] == m[start - |a|..];
    } else {
      assert all[start..end] == m[start - |a|..end - |a|];
    }
  }
}
