// Canonical prefix codes: what a vector of code lengths means (RFC 1951, section 3.2.2).
module Canonical {
  import opened Bits

  datatype Option<+T> = None | Some(value: T)

  const MAX_BITS: nat := 16

  // How many of the first n symbols have codes of length k.
  function CountIn(lens: seq<nat>, n: nat, k: nat): nat
    requires n <= |lens|
  {
    if n == 0 then 0 else CountIn(lens, n - 1, k) + (if lens[n - 1] == k then 1 else 0)
  }

  function Count(lens: seq<nat>, k: nat): nat {
    CountIn(lens, |lens|, k)
  }

  // The smallest code of length k.
  function First(lens: seq<nat>, k: nat): nat {
    if k <= 1 then 0 else 2 * (First(lens, k - 1) + Count(lens, k - 1))
  }

  // The code of symbol s: codes of one length are consecutive, in the order of their symbols.
  function Code(lens: seq<nat>, s: nat): nat
    requires s < |lens|
  {
    First(lens, lens[s]) + CountIn(lens, s, lens[s])
  }

  // The bit string x begins with the code of symbol s.
  predicate Matches(lens: seq<nat>, s: nat, x: int) {
    s < |lens| && lens[s] > 0 && Msb(x, lens[s]) == Code(lens, s)
  }

  ghost predicate NoMatch(lens: seq<nat>, x: int) {
    forall s :: !Matches(lens, s, x)
  }

  // The symbol whose code x begins with.
  ghost function Symbol(lens: seq<nat>, x: int): (r: Option<nat>)
    ensures r.Some? ==> r.value < |lens| && lens[r.value] > 0 && Matches(lens, r.value, x)
    ensures r.None? ==> NoMatch(lens, x)
  {
    if s :| Matches(lens, s, x) then Some(s) else None
  }

  // Every length is at most the maximum, the only demand zip_HuftBuild makes of its lengths.
  predicate Bounded(lens: seq<nat>) {
    forall s :: 0 <= s < |lens| ==> lens[s] <= MAX_BITS
  }

  // The Kraft sum of the lengths, in units of 2^-17.
  function Kraft(lens: seq<nat>): nat {
    if |lens| == 0 then 0
    else
      var l := lens[|lens| - 1];
      Kraft(lens[..|lens| - 1]) + if 0 < l <= MAX_BITS then P2(17 - l) else 0
  }

  predicate Oversubscribed(lens: seq<nat>) {
    Kraft(lens) > P2(17)
  }

  predicate Complete(lens: seq<nat>) {
    Kraft(lens) == P2(17)
  }

  // The greatest length.
  function Longest(lens: seq<nat>): (g: nat)
    ensures forall s :: 0 <= s < |lens| ==> lens[s] <= g
    ensures g > 0 ==> g in lens
  {
    if |lens| == 0 then 0
    else
      var g := Longest(lens[..|lens| - 1]);
      if lens[|lens| - 1] > g then lens[|lens| - 1] else g
  }

  lemma {:induction false} CountInPrefix(lens: seq<nat>, m: nat, n: nat, k: nat)
    requires n <= m <= |lens|
    ensures CountIn(lens[..m], n, k) == CountIn(lens, n, k)
  {
    if n > 0 {
      CountInPrefix(lens, m, n - 1, k);
    }
  }

  lemma {:induction false} CountInMono(lens: seq<nat>, m: nat, n: nat, k: nat)
    requires m <= n <= |lens|
    ensures CountIn(lens, m, k) <= CountIn(lens, n, k)
    ensures m < n && lens[m] == k ==> CountIn(lens, m, k) < CountIn(lens, n, k)
  {
    if m < n - 1 {
      CountInMono(lens, m, n - 1, k);
    } else if m < n {
      assert CountIn(lens, n, k) == CountIn(lens, m, k) + (if lens[m] == k then 1 else 0);
    }
  }

  // A symbol is determined by the length of its code and its rank among the codes of that length.
  lemma RankUnique(lens: seq<nat>, s: nat, t: nat)
    requires s < |lens| && t < |lens| && lens[s] == lens[t]
    requires CountIn(lens, s, lens[s]) == CountIn(lens, t, lens[s])
    ensures s == t
  {
    if s != t {
      var first, second := if s < t then s else t, if s < t then t else s;
      CountInMono(lens, first, second, lens[s]);
    }
  }

  lemma {:induction false} RankExists(lens: seq<nat>, n: nat, k: nat, m: nat) returns (s: nat)
    requires n <= |lens| && m < CountIn(lens, n, k)
    ensures s < n && lens[s] == k && CountIn(lens, s, k) == m
  {
    if m < CountIn(lens, n - 1, k) {
      s := RankExists(lens, n - 1, k, m);
    } else {
      s := n - 1;
    }
  }

  lemma {:induction false} CountNone(lens: seq<nat>, n: nat, k: nat)
    requires n <= |lens|
    ensures CountIn(lens, n, k) == 0 <==> forall s :: 0 <= s < n ==> lens[s] != k
  {
    if n > 0 {
      CountNone(lens, n - 1, k);
    }
  }

  // All codes of length j, padded to length k, lie below the first code of length k.
  lemma {:induction false} FirstGrows(lens: seq<nat>, j: nat, k: nat)
    requires 1 <= j < k
    ensures First(lens, k) >= P2(k - j) * (First(lens, j) + Count(lens, j))
  {
    var c := First(lens, j) + Count(lens, j);
    assert P2(1) == 2;
    if j + 1 < k {
      FirstGrows(lens, j, k - 1);
      Distribute(2, c, 0, P2(k - 1 - j));
      assert P2(k - j) == 2 * P2(k - j - 1);
    }
  }

  lemma CodeBelow(lens: seq<nat>, s: nat)
    requires s < |lens| && lens[s] > 0
    ensures First(lens, lens[s]) <= Code(lens, s) < First(lens, lens[s]) + Count(lens, lens[s])
  {
    CountInMono(lens, s, |lens|, lens[s]);
  }

  // A bit string that begins with the code of s begins below every later first code.
  lemma MatchOrder(lens: seq<nat>, s: nat, x: int, k: nat)
    requires Matches(lens, s, x) && lens[s] < k
    ensures Msb(x, k) < First(lens, k)
  {
    var j := lens[s];
    CodeBelow(lens, s);
    FirstGrows(lens, j, k);
    MsbPrefix(x, j, k - j);
    MulMono(P2(k - j), Msb(x, j) + 1, First(lens, j) + Count(lens, j));
  }

  // No bit string begins with the codes of two symbols: canonical codes are prefix free.
  lemma MatchUnique(lens: seq<nat>, s: nat, t: nat, x: int)
    requires Matches(lens, s, x) && Matches(lens, t, x)
    ensures s == t
  {
    if lens[s] < lens[t] {
      MatchOrder(lens, s, x, lens[t]);
    } else if lens[t] < lens[s] {
      MatchOrder(lens, t, x, lens[s]);
    } else {
      RankUnique(lens, s, t);
    }
  }

  // Between the first and the last code of length k there is a symbol for each code.
  lemma CodeHit(lens: seq<nat>, x: int, k: nat) returns (s: nat)
    requires k > 0 && First(lens, k) <= Msb(x, k) < First(lens, k) + Count(lens, k)
    ensures Matches(lens, s, x) && lens[s] == k
  {
    s := RankExists(lens, |lens|, k, Msb(x, k) - First(lens, k));
  }

  // A bit string below the end of the codes of length k begins with some code.
  lemma {:induction false} MatchBelow(lens: seq<nat>, x: int, k: nat) returns (s: nat)
    requires k > 0 && Msb(x, k) < First(lens, k) + Count(lens, k)
    ensures Matches(lens, s, x) && lens[s] <= k
  {
    if First(lens, k) <= Msb(x, k) {
      s := CodeHit(lens, x, k);
    } else {
      s := MatchBelow(lens, x, k - 1);
    }
  }

  // The Kraft sum is where the codes end.
  lemma {:induction false} KraftIsFirst(lens: seq<nat>)
    ensures Kraft(lens) == First(lens, 17)
  {
    if |lens| == 0 {
      FirstOfNone(lens, 17);
    } else {
      var m := |lens| - 1;
      KraftIsFirst(lens[..m]);
      FirstAppend(lens, 17);
    }
  }

  lemma {:induction false} FirstOfNone(lens: seq<nat>, k: nat)
    requires lens == []
    ensures First(lens, k) == 0
  {
    if k > 1 {
      FirstOfNone(lens, k - 1);
    }
  }

  lemma {:induction false} FirstAppend(lens: seq<nat>, k: nat)
    requires lens != []
    ensures var l := lens[|lens| - 1];
            First(lens, k) == First(lens[..|lens| - 1], k) + if 0 < l < k then P2(k - l) else 0
  {
    if k > 1 {
      FirstAppend(lens, k - 1);
      CountInPrefix(lens, |lens| - 1, |lens| - 1, k - 1);
      assert P2(1) == 2;
    }
  }

  // Past the longest length nothing is added to the codes.
  lemma {:induction false} FirstPast(lens: seq<nat>, g: nat, k: nat)
    requires 1 <= g < k && Longest(lens) <= g
    ensures First(lens, k) == P2(k - g) * (First(lens, g) + Count(lens, g))
  {
    var c := First(lens, g) + Count(lens, g);
    assert P2(1) == 2;
    if g + 1 < k {
      FirstPast(lens, g, k - 1);
      CountNone(lens, |lens|, k - 1);
      Distribute(2, c, 0, P2(k - 1 - g));
      assert P2(k - g) == 2 * P2(k - g - 1);
    }
  }

  // The Kraft inequality read off at the longest length.
  lemma KraftAt(lens: seq<nat>, g: nat)
    requires 1 <= g <= MAX_BITS && Longest(lens) <= g
    ensures Oversubscribed(lens) <==> First(lens, g) + Count(lens, g) > P2(g)
    ensures Complete(lens) <==> First(lens, g) + Count(lens, g) == P2(g)
  {
    KraftIsFirst(lens);
    KraftScaled(lens, g, 17);
  }

  // The same for any unit 2^-n.
  lemma KraftScaled(lens: seq<nat>, g: nat, n: nat)
    requires 1 <= g < n && Longest(lens) <= g
    ensures First(lens, n) > P2(n) <==> First(lens, g) + Count(lens, g) > P2(g)
    ensures First(lens, n) == P2(n) <==> First(lens, g) + Count(lens, g) == P2(g)
  {
    hide First, Count, P2, Longest;
    FirstPast(lens, g, n);
    P2Add(n - g, g);
    MulOrder(P2(n - g), First(lens, g) + Count(lens, g), P2(g), First(lens, n), P2(n));
  }

  lemma MulOrder(p: int, c: int, q: int, pc: int, pq: int)
    requires p > 0 && pc == p * c && pq == p * q
    ensures pc > pq <==> c > q
    ensures pc == pq <==> c == q
  {
    if c > q {
      MulMono(p, q + 1, c);
    } else {
      MulMono(p, c, q);
      if c < q {
        MulMono(p, c + 1, q);
      }
    }
  }

  // Every bit string begins with a code of a complete set of lengths.
  lemma CompleteMatches(lens: seq<nat>, x: int) returns (s: nat)
    requires Bounded(lens) && Complete(lens)
    ensures Matches(lens, s, x)
  {
    KraftIsFirst(lens);
    assert P2(17) == 2 * P2(16);
    MsbBound(x, 16);
    s := MatchBelow(lens, x, 16);
  }
}
