// The multi-level Huffman lookup tables of gzip.js, and what it means to walk them.
module Huffman {
  import opened Bits
  import opened JsBits
  import opened Canonical

  // A table entry. e > 16 (and not 99) links to table t of the list of tables, whose size is
  // 2^(e - 16); e == 16 is a literal, 15 the end of a block, 99 an invalid code, and any other e
  // the number of extra bits that follow the base value n. b is the number of bits to drop.
  datatype HuftNode = HuftNode(e: nat, b: nat, n: nat, t: nat)

  type Table = seq<HuftNode>

  // What a table builder returns: root is the list of tables, in the order of their making, and
  // empty for no tables at all; m is the number of bits that index the first of them.
  datatype Huft = Huft(status: nat, root: seq<Table>, m: nat)

  // The values of the symbols: below simple they stand for themselves, from there on they have a
  // base value and a number of extra bits.
  datatype Alphabet = Alphabet(simple: nat, base: seq<nat>, extra: seq<nat>)

  predicate Covers(al: Alphabet, n: nat) {
    && |al.base| == |al.extra|
    && n <= al.simple + |al.base|
    && forall s :: 0 <= s < |al.extra| ==> al.extra[s] <= 14 || al.extra[s] == 99
  }

  function SymE(al: Alphabet, s: nat): nat
    requires Covers(al, s + 1)
  {
    if s < al.simple then (if s < 256 then 16 else 15) else al.extra[s - al.simple]
  }

  function SymN(al: Alphabet, s: nat): nat
    requires Covers(al, s + 1)
  {
    if s < al.simple then s else al.base[s - al.simple]
  }

  predicate IsLink(c: HuftNode) {
    c.e > 16 && c.e != 99
  }

  // The last symbol in code order.
  function LastSymbol(lens: seq<nat>): (s: nat)
    requires lens != []
    ensures s < |lens|
    ensures lens[s] == Longest(lens)
    ensures CountIn(lens, s, lens[s]) + 1 == Count(lens, lens[s])
  {
    var m := |lens| - 1;
    if lens[m] >= Longest(lens) then m
    else
      assert Longest(lens) == Longest(lens[..m]);
      var s := LastSymbol(lens[..m]);
      assert CountIn(lens, s, lens[s]) == CountIn(lens[..m], s, lens[s]) by { CountInPrefix(lens, m, s, lens[s]); }
      assert CountIn(lens, m, lens[s]) == CountIn(lens[..m], m, lens[s]) by { CountInPrefix(lens, m, m, lens[s]); }
      s
  }

  // Entry c, found after w bits of x, is the right one for x: that of the symbol whose code x
  // begins with, or else an invalid one. An invalid entry keeps the value of the last symbol.
  ghost predicate LeafOK(lens: seq<nat>, al: Alphabet, c: HuftNode, w: nat, x: int)
    requires Covers(al, |lens|)
  {
    match Symbol(lens, x)
    case Some(s) => c.e == SymE(al, s) && c.n == SymN(al, s) && w + c.b == lens[s]
    case None => c.e == 99 && lens != [] && c.n == SymN(al, LastSymbol(lens)) && w + c.b == Longest(lens)
  }

  // Entries drop no more bits than index their table, and links lead to later tables of the size they
  // say.
  ghost predicate Linked(root: seq<Table>) {
    forall t, j :: 0 <= t < |root| && 0 <= j < |root[t]| ==> LinkedAt(root, root[t][j], t)
  }

  ghost predicate LinkedAt(root: seq<Table>, c: HuftNode, t: nat)
    requires t < |root|
  {
    && P2(c.b) <= |root[t]|
    && (IsLink(c) ==> c.e <= 32 && t < c.t < |root| && |root[c.t]| == P2(c.e - 16))
  }

  // The entry reached by walking the tables from table t on the bits x, with b the number of bits
  // used on the way.
  ghost function Walk(root: seq<Table>, t: nat, bits: nat, x: int): HuftNode
    requires Linked(root) && t < |root| && |root[t]| == P2(bits)
    decreases |root| - t
  {
    var c := root[t][Low(x, bits)];
    if IsLink(c) then
      assert LinkedAt(root, c, t);
      var r := Walk(root, c.t, c.e - 16, High(x, c.b));
      r.(b := c.b + r.b)
    else c
  }

  // The tables decode the code that the lengths describe, whatever bits they are walked on.
  ghost predicate Decodes(root: seq<Table>, m: nat, lens: seq<nat>, al: Alphabet)
    requires Covers(al, |lens|)
  {
    && Linked(root)
    && m <= 16
    && root != [] && |root[0]| == P2(m)
    && forall x :: LeafOK(lens, al, Walk(root, 0, m, x), 0, x)
  }

  lemma SymbolIs(lens: seq<nat>, s: nat, x: int)
    requires Matches(lens, s, x)
    ensures Symbol(lens, x) == Some(s)
  {
    MatchUnique(lens, s, Symbol(lens, x).value, x);
  }
}
