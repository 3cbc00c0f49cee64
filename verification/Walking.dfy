// The linked tables of gzip.js for a block, and a walk through them, step by step.
module Walking {
  import opened Bits
  import opened JsBits
  import opened Canonical
  import opened Huffman
  import opened Deflate
  import opened Runs

  // Tables for literals and lengths and for distances, for codes that can be used together. There may be
  // no distance codes.
  ghost predicate TablesFor(tl: seq<Table>, bl: nat, td: seq<Table>, bd: nat, ll: seq<nat>, dl: seq<nat>) {
    && WfCodes(ll, dl) && Longest(ll) > 0
    && tl != [] && Decodes(tl, bl, ll, LiteralAlphabet())
    && (Longest(dl) > 0 ==> Decodes(td, bd, dl, DistanceAlphabet()))
  }

  lemma DropFits(b: nat, bits: nat)
    requires P2(b) <= P2(bits)
    ensures b <= bits
  {
    if b > bits {
      P2Mono(bits, b);
    }
  }

  // Entry t of table k has been reached by walking on stream x, from which `used` bits have been
  // dropped to give stream now; the walk ends in entry w.
  ghost predicate OnPath(root: seq<Table>, w: HuftNode, x: Stream, now: Stream, k: nat, bits: nat, used: nat,
                         t: HuftNode)
  {
    && Linked(root) && k < |root| && |root[k]| == P2(bits)
    && now == Skip(x, used) && t == root[k][Peek(now, bits)]
    && w == (var r := Walk(root, k, bits, now.rest); r.(b := used + r.b))
  }

  lemma PathStart(root: seq<Table>, lens: seq<nat>, al: Alphabet, x: Stream, m: nat)
    requires Covers(al, |lens|) && Decodes(root, m, lens, al) && x.phase < 8
    ensures LeafOK(lens, al, Walk(root, 0, m, x.rest), 0, x.rest)
    ensures Peek(x, m) < |root[0]|
    ensures OnPath(root, Walk(root, 0, m, x.rest), x, x, 0, m, 0, root[0][Peek(x, m)])
  {
  }

  lemma PathStep(root: seq<Table>, w: HuftNode, x: Stream, now: Stream, k: nat, bits: nat, used: nat, t: HuftNode)
    requires OnPath(root, w, x, now, k, bits, used, t) && IsLink(t)
    ensures t.b <= bits && t.e <= 32 && k < t.t < |root| && Peek(Skip(now, t.b), t.e - 16) < |root[t.t]|
    ensures OnPath(root, w, x, Skip(now, t.b), t.t, t.e - 16, used + t.b, root[t.t][Peek(Skip(now, t.b), t.e - 16)])
  {
    assert LinkedAt(root, t, k);
    DropFits(t.b, bits);
    SkipSkip(x, used, t.b);
  }

  lemma PathEnd(root: seq<Table>, w: HuftNode, x: Stream, now: Stream, k: nat, bits: nat, used: nat, t: HuftNode)
    requires OnPath(root, w, x, now, k, bits, used, t) && !IsLink(t)
    ensures t.b <= bits && w == t.(b := used + t.b) && Skip(now, t.b) == Skip(x, w.b)
  {
    assert LinkedAt(root, t, k);
    DropFits(t.b, bits);
    SkipSkip(x, used, t.b);
  }
}
