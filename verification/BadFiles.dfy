// The totals of bad input files, ProcessBadFilesList.py: reports are counted by file, and the totals of
// several days are merged.
module BadFiles {
  import opened Canonical

  type Did = string

  // What a job reports of a file. Reports that are of no interest are None.
  datatype Report = Report(did: Did, rse: string, kind: string)

  // What is known of a file.
  datatype Total = Total(did: Did, errors: nat, rses: set<string>, kinds: set<string>)

  // ---- counting everything at once ----

  function Count(xs: seq<Report>, d: Did): nat {
    if xs == [] then 0 else Count(xs[..|xs| - 1], d) + if xs[|xs| - 1].did == d then 1 else 0
  }

  function Rses(xs: seq<Report>, d: Did): set<string> {
    set x | x in xs && x.did == d :: x.rse
  }

  function Kinds(xs: seq<Report>, d: Did): set<string> {
    set x | x in xs && x.did == d :: x.kind
  }

  // The files, in the order in which they are first reported.
  function Dids(xs: seq<Report>): seq<Did> {
    if xs == [] then []
    else
      var ds, d := Dids(xs[..|xs| - 1]), xs[|xs| - 1].did;
      if d in ds then ds else ds + [d]
  }

  function TotalOf(xs: seq<Report>, d: Did): Total {
    Total(d, Count(xs, d), Rses(xs, d), Kinds(xs, d))
  }

  // Two totals of a file in one.
  function Plus(t: Total, u: Total): Total {
    Total(t.did, t.errors + u.errors, t.rses + u.rses, t.kinds + u.kinds)
  }

  function TotalsOf(xs: seq<Report>, ds: seq<Did>): (r: seq<Total>)
    ensures |r| == |ds| && forall i :: 0 <= i < |ds| ==> r[i] == TotalOf(xs, ds[i])
  {
    seq(|ds|, i requires 0 <= i < |ds| => TotalOf(xs, ds[i]))
  }

  function Summary(xs: seq<Report>): seq<Total> {
    TotalsOf(xs, Dids(xs))
  }

  // The reports of interest.
  function Interesting(rs: seq<Option<Report>>): seq<Report> {
    if rs == [] then []
    else Interesting(rs[..|rs| - 1]) + if rs[|rs| - 1].Some? then [rs[|rs| - 1].value] else []
  }

  // The places of the reports on a file.
  function Places(xs: seq<Report>, d: Did): set<int> {
    set i | 0 <= i < |xs| && xs[i].did == d
  }

  lemma {:induction false} CountIs(xs: seq<Report>, d: Did)
    ensures Count(xs, d) == |Places(xs, d)|
  {
    if xs != [] {
      var n := |xs| - 1;
      CountIs(xs[..n], d);
      assert Places(xs, d) == Places(xs[..n], d) + if xs[n].did == d then {n} else {};
    }
  }

  // The first report on the i-th file comes before the first one on the j-th.
  ghost predicate Before(xs: seq<Report>, d: Did, e: Did) {
    exists k :: 0 <= k < |xs| && xs[k].did == d && forall l :: 0 <= l <= k ==> xs[l].did != e
  }

  ghost predicate Reported(xs: seq<Report>, d: Did) {
    exists k :: 0 <= k < |xs| && xs[k].did == d
  }

  lemma ReportedNext(init: seq<Report>, x: Report, d: Did)
    ensures Reported(init + [x], d) <==> Reported(init, d) || x.did == d
  {
    var xs := init + [x];
    if Reported(init, d) {
      var k :| 0 <= k < |init| && init[k].did == d;
      assert xs[k].did == d;
    } else if x.did == d {
      assert xs[|init|].did == d;
    }
  }

  lemma {:induction false} DidsAre(xs: seq<Report>)
    ensures forall d :: d in Dids(xs) <==> Reported(xs, d)
    ensures forall i, j :: 0 <= i < j < |Dids(xs)| ==> Before(xs, Dids(xs)[i], Dids(xs)[j])
  {
    if xs != [] {
      hide Before, Reported;
      var init, x := xs[..|xs| - 1], xs[|xs| - 1];
      DidsAre(init);
      assert xs == init + [x];
      forall d: Did {
        ReportedNext(init, x, d);
      }
      forall i, j | 0 <= i < j < |Dids(xs)|
        ensures Before(xs, Dids(xs)[i], Dids(xs)[j])
      {
        if j == |Dids(init)| {
          BeforeNew(init, Dids(xs)[i], Dids(xs)[j]);
        }
        BeforeNext(init, x, Dids(xs)[i], Dids(xs)[j]);
      }
    }
  }

  lemma BeforeNext(init: seq<Report>, x: Report, d: Did, e: Did)
    requires Before(init, d, e)
    ensures Before(init + [x], d, e)
  {
    var k :| 0 <= k < |init| && init[k].did == d && forall l :: 0 <= l <= k ==> init[l].did != e;
    assert (init + [x])[k].did == d;
  }

  lemma BeforeNew(init: seq<Report>, d: Did, e: Did)
    requires Reported(init, d) && !Reported(init, e)
    ensures Before(init, d, e)
  {
    var k :| 0 <= k < |init| && init[k].did == d;
  }

  // A summary: each file that is reported once, in the order of their first reports; with the number of its
  // reports, and exactly the sites and the kinds that are named in one of them.
  lemma SummaryIs(xs: seq<Report>)
    ensures (set t | t in Summary(xs) :: t.did) == (set x | x in xs :: x.did)
    ensures forall i, j :: 0 <= i < j < |Summary(xs)| ==> Before(xs, Summary(xs)[i].did, Summary(xs)[j].did)
    ensures forall t <- Summary(xs) ::
              && t.errors == |set i | 0 <= i < |xs| && xs[i].did == t.did|
              && (forall s :: s in t.rses <==> exists x <- xs :: x.did == t.did && x.rse == s)
              && (forall k :: k in t.kinds <==> exists x <- xs :: x.did == t.did && x.kind == k)
  {
    hide Dids, Count, Before;
    var ds := Dids(xs);
    DidsAre(xs);
    forall d <- ds
      ensures d in set t | t in Summary(xs) :: t.did
    {
      var i :| 0 <= i < |ds| && ds[i] == d;
      assert Summary(xs)[i] in Summary(xs) && Summary(xs)[i].did == d;
    }
    assert (set t | t in Summary(xs) :: t.did) == set d | d in ds;
    assert (set x | x in xs :: x.did) == set d | d in ds by {
      assert forall x <- xs :: Reported(xs, x.did);
    }
    forall t <- Summary(xs)
      ensures t.errors == |set i | 0 <= i < |xs| && xs[i].did == t.did|
    {
      CountIs(xs, t.did);
      assert Places(xs, t.did) == set i | 0 <= i < |xs| && xs[i].did == t.did;
    }
  }

  // ---- what the program computes ----

  // The first total for a file.
  function Find(totals: seq<Total>, d: Did): (i: nat)
    ensures i <= |totals| && (i < |totals| ==> totals[i].did == d)
    ensures forall k :: 0 <= k < i ==> totals[k].did != d
  {
    if totals == [] || totals[0].did == d then 0 else Find(totals[1..], d) + 1
  }

  function Once(r: Report): Total {
    Total(r.did, 1, {r.rse}, {r.kind})
  }

  function Counted(totals: seq<Total>, r: Report): seq<Total> {
    var i := Find(totals, r.did);
    if i < |totals| then
      totals[i := Plus(totals[i], Once(r))]
    else totals + [Once(r)]
  }

  function Combined(t: Total, others: seq<Total>): Total {
    var i := Find(others, t.did);
    if i < |others| then Plus(t, others[i]) else t
  }

  // Those of the totals whose files are not among others.
  function Unmatched(totals: seq<Total>, others: seq<Total>): seq<Total> {
    if totals == [] then []
    else
      var t := totals[|totals| - 1];
      Unmatched(totals[..|totals| - 1], others) + if Find(others, t.did) < |others| then [] else [t]
  }

  function Merged(a: seq<Total>, b: seq<Total>): seq<Total> {
    seq(|a|, i requires 0 <= i < |a| => Combined(a[i], b)) + Unmatched(b, a)
  }

  // accumulate, on a list of totals that is changed in place.
  class Totals {
    var list: seq<Total>

    constructor ()
      ensures list == []
    {
      list := [];
    }

    method Accumulate(result: Option<Report>)
      modifies this
      ensures list == if result.None? then old(list) else Counted(old(list), result.value)
    {
      if result == None {
        return;
      }
      var r := result.value;
      var i := 0;
      while i < |list|
        invariant 0 <= i <= |list| && list == old(list)
        invariant forall k :: 0 <= k < i ==> list[k].did != r.did
      {
        if list[i].did == r.did {
          var t := list[i];
          list := list[i := t.(rses := t.rses + {r.rse}, kinds := t.kinds + {r.kind}, errors := t.errors + 1)];
          return;
        }
        i := i + 1;
      }
      list := list + [Total(r.did, 1, {r.rse}, {r.kind})];
    }

    // All reports, one after the other: the totals are those of counting everything at once.
    method AccumulateAll(results: seq<Option<Report>>)
      requires list == []
      modifies this
      ensures list == Summary(Interesting(results))
    {
      hide Counted, Summary;
      SummaryNothing();
      var i := 0;
      assert results[..0] == [];
      while i < |results|
        invariant 0 <= i <= |results| && list == Summary(Interesting(results[..i]))
      {
        assert results[..i + 1][..i] == results[..i];
        if results[i].Some? {
          CountOne(Interesting(results[..i]), results[i].value);
        } else {
          assert Interesting(results[..i]) + [] == Interesting(results[..i]);
        }
        Accumulate(results[i]);
        i := i + 1;
      }
      assert results[..i] == results;
    }
  }

  lemma SummaryNothing()
    ensures Summary([]) == []
  {
  }

  lemma CountNext(xs: seq<Report>, r: Report, d: Did)
    ensures TotalOf(xs + [r], d) == if r.did == d then Plus(TotalOf(xs, d), Once(r)) else TotalOf(xs, d)
  {
    var ys := xs + [r];
    assert ys[..|xs|] == xs;
    assert forall x :: x in ys <==> x in xs || x == r;
    assert Rses(ys, d) == if r.did == d then Rses(xs, d) + {r.rse} else Rses(xs, d);
    assert Kinds(ys, d) == if r.did == d then Kinds(xs, d) + {r.kind} else Kinds(xs, d);
  }

  lemma TotalsSame(xs: seq<Report>, ys: seq<Report>, ds: seq<Did>)
    requires forall d <- ds :: TotalOf(xs, d) == TotalOf(ys, d)
    ensures TotalsOf(xs, ds) == TotalsOf(ys, ds)
  {
    hide TotalOf;
  }

  lemma TotalsAdd(xs: seq<Report>, ds: seq<Did>, es: seq<Did>)
    ensures TotalsOf(xs, ds + es) == TotalsOf(xs, ds) + TotalsOf(xs, es)
  {
    hide TotalOf;
  }

  lemma {:induction false} DidsDistinct(xs: seq<Report>)
    ensures forall i, j :: 0 <= i < j < |Dids(xs)| ==> Dids(xs)[i] != Dids(xs)[j]
  {
    if xs != [] {
      DidsDistinct(xs[..|xs| - 1]);
    }
  }

  lemma FindInTotals(xs: seq<Report>, ds: seq<Did>, d: Did)
    ensures var i := Find(TotalsOf(xs, ds), d);
            && (i < |ds| <==> d in ds) && (i < |ds| ==> ds[i] == d)
  {
    if d in ds {
      var k :| 0 <= k < |ds| && ds[k] == d;
      assert TotalsOf(xs, ds)[k].did == d;
    }
  }

  // Counting one more report in a summary gives the summary with that report.
  lemma CountOne(xs: seq<Report>, r: Report)
    ensures Counted(Summary(xs), r) == Summary(xs + [r])
  {
    hide TotalOf, Find, Plus, Once;
    var ys, ds := xs + [r], Dids(xs);
    assert ys[..|xs|] == xs;
    FindInTotals(xs, ds, r.did);
    forall d: Did
      ensures TotalOf(ys, d) == if r.did == d then Plus(TotalOf(xs, d), Once(r)) else TotalOf(xs, d)
    {
      CountNext(xs, r, d);
    }
    if r.did in ds {
      DidsDistinct(xs);
      assert Dids(ys) == ds;
    } else {
      NotReported(xs, r.did);
      PlusNothing(Once(r));
      TotalsSame(xs, ys, ds);
      TotalsAdd(ys, ds, [r.did]);
      OnceIs(r);
      assert Dids(ys) == ds + [r.did] && TotalsOf(ys, [r.did]) == [TotalOf(ys, r.did)];
    }
  }

  lemma OnceIs(r: Report)
    ensures Once(r).did == r.did
  {
  }

  lemma PlusNothing(t: Total)
    ensures Plus(Total(t.did, 0, {}, {}), t) == t && Plus(t, Total(t.did, 0, {}, {})) == t
  {
  }

  lemma PlusAssoc(t: Total, u: Total, v: Total)
    ensures Plus(Plus(t, u), v) == Plus(t, Plus(u, v))
  {
  }

  lemma {:induction false} NotReported(xs: seq<Report>, d: Did)
    requires d !in Dids(xs)
    ensures TotalOf(xs, d) == Total(d, 0, {}, {})
  {
    if xs != [] {
      NotReported(xs[..|xs| - 1], d);
      CountNext(xs[..|xs| - 1], xs[|xs| - 1], d);
      assert xs == xs[..|xs| - 1] + [xs[|xs| - 1]];
    }
  }

  // ---- merging ----

  method AddTotals(tot1: seq<Total>, tot2: seq<Total>) returns (r: seq<Total>)
    ensures r == Merged(tot1, tot2)
  {
    hide Find, Unmatched;
    UnmatchedNone(tot2, tot1);
    r := [];
    var i := 0;
    while i < |tot1|
      invariant 0 <= i <= |tot1| && |r| == i && forall k :: 0 <= k < i ==> r[k] == Combined(tot1[k], tot2)
    {
      var dict1 := tot1[i];
      var j := 0;
      while j < |tot2|
        invariant 0 <= j <= |tot2| && dict1 == tot1[i]
        invariant forall k :: 0 <= k < j ==> tot2[k].did != dict1.did
      {
        if tot2[j].did == dict1.did {
          dict1 := dict1.(rses := dict1.rses + tot2[j].rses);
          dict1 := dict1.(kinds := dict1.kinds + tot2[j].kinds);
          dict1 := dict1.(errors := dict1.errors + tot2[j].errors);
          break;
        }
        j := j + 1;
      }
      FindIs(tot2, tot1[i].did, j);
      assert dict1 == Combined(tot1[i], tot2);
      r := r + [dict1];
      i := i + 1;
    }
    ghost var first := r;
    i := 0;
    while i < |tot2|
      invariant 0 <= i <= |tot2| && r == first + Unmatched(tot2[..i], tot1)
    {
      UnmatchedNext(tot2, i, tot1);
      var found, j := false, 0;
      while j < |tot1|
        invariant 0 <= j <= |tot1| && !found
        invariant forall k :: 0 <= k < j ==> tot1[k].did != tot2[i].did
      {
        if tot1[j].did == tot2[i].did {
          found := true;
          break;
        }
        j := j + 1;
      }
      FindIs(tot1, tot2[i].did, j);
      if !found {
        r := r + [tot2[i]];
      }
      i := i + 1;
    }
    assert tot2[..i] == tot2;
  }

  lemma UnmatchedNone(totals: seq<Total>, others: seq<Total>)
    ensures Unmatched(totals[..0], others) == []
  {
  }

  lemma UnmatchedNext(totals: seq<Total>, i: nat, others: seq<Total>)
    requires i < |totals|
    ensures Unmatched(totals[..i + 1], others)
         == Unmatched(totals[..i], others) + if Find(others, totals[i].did) < |others| then [] else [totals[i]]
  {
    assert totals[..i + 1][..i] == totals[..i];
  }

  lemma FindIs(totals: seq<Total>, d: Did, i: nat)
    requires i <= |totals| && (forall k :: 0 <= k < i ==> totals[k].did != d) && (i < |totals| ==> totals[i].did == d)
    ensures Find(totals, d) == i
  {
  }

  // ---- merging is counting ----

  lemma {:induction false} TotalOfSum(xs: seq<Report>, ys: seq<Report>, d: Did)
    ensures TotalOf(xs + ys, d) == Plus(TotalOf(xs, d), TotalOf(ys, d))
    decreases |ys|
  {
    if ys == [] {
      assert xs + ys == xs;
      PlusNothing(TotalOf(xs, d));
    } else {
      hide TotalOf, Plus, Once;
      var init, r := ys[..|ys| - 1], ys[|ys| - 1];
      TotalOfSum(xs, init, d);
      assert xs + ys == xs + init + [r] && ys == init + [r];
      CountNext(xs + init, r, d);
      CountNext(init, r, d);
      PlusAssoc(TotalOf(xs, d), TotalOf(init, d), Once(r));
    }
  }

  // Those of the files that are not in a list.
  function New(ds: seq<Did>, others: seq<Did>): seq<Did> {
    if ds == [] then []
    else New(ds[..|ds| - 1], others) + if ds[|ds| - 1] in others then [] else [ds[|ds| - 1]]
  }

  lemma NewNext(ds: seq<Did>, d: Did, others: seq<Did>)
    ensures New(ds + [d], others) == New(ds, others) + if d in others then [] else [d]
  {
    assert (ds + [d])[..|ds|] == ds;
  }

  lemma DidsNext(xs: seq<Report>, r: Report)
    ensures Dids(xs + [r]) == Dids(xs) + if r.did in Dids(xs) then [] else [r.did]
  {
    assert (xs + [r])[..|xs|] == xs;
    assert Dids(xs) + [] == Dids(xs);
  }

  lemma {:induction false} DidsSum(xs: seq<Report>, ys: seq<Report>)
    ensures Dids(xs + ys) == Dids(xs) + New(Dids(ys), Dids(xs))
    decreases |ys|
  {
    if ys == [] {
      assert xs + ys == xs && Dids(xs) + [] == Dids(xs);
    } else {
      var init, r := ys[..|ys| - 1], ys[|ys| - 1];
      DidsSum(xs, init);
      hide Dids, New;
      var a, b, i := Dids(xs), New(Dids(init), Dids(xs)), Dids(init);
      assert xs + ys == xs + init + [r] && ys == init + [r];
      DidsNext(xs + init, r);
      DidsNext(init, r);
      NewHas(i, a, r.did);
      NewNext(i, r.did, a);
      AppendNothing(a, b, i, r.did);
      assert r.did in a + b <==> r.did in a || r.did in b;
    }
  }

  lemma AppendNothing(a: seq<Did>, b: seq<Did>, c: seq<Did>, d: Did)
    ensures b + [] == b && c + [] == c && a + b + [] == a + b && a + b + [d] == a + (b + [d])
  {
  }

  lemma {:induction false} NewHas(ds: seq<Did>, others: seq<Did>, d: Did)
    ensures d in New(ds, others) <==> d in ds && d !in others
  {
    if ds != [] {
      NewHas(ds[..|ds| - 1], others, d);
      assert ds == ds[..|ds| - 1] + [ds[|ds| - 1]];
    }
  }

  lemma {:induction false} UnmatchedAre(ds: seq<Did>, ys: seq<Report>, xs: seq<Report>)
    ensures Unmatched(TotalsOf(ys, ds), Summary(xs)) == TotalsOf(ys, New(ds, Dids(xs)))
    decreases |ds|
  {
    if ds != [] {
      var init, d := ds[..|ds| - 1], ds[|ds| - 1];
      UnmatchedAre(init, ys, xs);
      TotalsAdd(ys, init, [d]);
      assert ds == init + [d] && TotalsOf(ys, [d]) == [TotalOf(ys, d)];
      assert TotalsOf(ys, ds)[..|ds| - 1] == TotalsOf(ys, init);
      FindInTotals(xs, Dids(xs), d);
      TotalsAdd(ys, New(init, Dids(xs)), [d]);
      assert TotalsOf(ys, init) + [] == TotalsOf(ys, init);
      assert New(init, Dids(xs)) + [] == New(init, Dids(xs));
    }
  }

  lemma CombinedIs(xs: seq<Report>, ys: seq<Report>, d: Did)
    ensures Combined(TotalOf(xs, d), Summary(ys)) == TotalOf(xs + ys, d)
  {
    FindInTotals(ys, Dids(ys), d);
    TotalOfSum(xs, ys, d);
    if d !in Dids(ys) {
      NotReported(ys, d);
      PlusNothing(TotalOf(xs, d));
    }
  }

  // Merging the totals of two lists of reports is counting both lists at once: the same files in the same
  // order with the same numbers, sites and kinds.
  lemma MergeIsCount(xs: seq<Report>, ys: seq<Report>)
    ensures Merged(Summary(xs), Summary(ys)) == Summary(xs + ys)
  {
    hide Find, Combined, Unmatched, TotalOf, Dids, New;
    var ds, es := Dids(xs), New(Dids(ys), Dids(xs));
    DidsSum(xs, ys);
    UnmatchedAre(Dids(ys), ys, xs);
    TotalsAdd(xs + ys, ds, es);
    forall i | 0 <= i < |ds|
      ensures Combined(Summary(xs)[i], Summary(ys)) == TotalOf(xs + ys, ds[i])
    {
      CombinedIs(xs, ys, ds[i]);
    }
    forall d <- es
      ensures TotalOf(ys, d) == TotalOf(xs + ys, d)
    {
      NewHas(Dids(ys), Dids(xs), d);
      NotReported(xs, d);
      TotalOfSum(xs, ys, d);
      OfItself(ys, d);
      PlusNothing(TotalOf(ys, d));
    }
    TotalsSame(ys, xs + ys, es);
    assert Merged(Summary(xs), Summary(ys)) == TotalsOf(xs + ys, ds) + TotalsOf(xs + ys, es);
  }

  lemma OfItself(xs: seq<Report>, d: Did)
    ensures TotalOf(xs, d).did == d
  {
  }

  // The totals of any number of days, merged one after the other.
  function MergedAll(days: seq<seq<Report>>): seq<Total> {
    if days == [] then [] else Merged(MergedAll(days[..|days| - 1]), Summary(days[|days| - 1]))
  }

  function AllReports(days: seq<seq<Report>>): seq<Report> {
    if days == [] then [] else AllReports(days[..|days| - 1]) + days[|days| - 1]
  }

  lemma {:induction false} DaysAreCounted(days: seq<seq<Report>>)
    ensures MergedAll(days) == Summary(AllReports(days))
  {
    hide Summary, Merged;
    if days == [] {
      SummaryNothing();
    } else {
      DaysAreCounted(days[..|days| - 1]);
      MergeIsCount(AllReports(days[..|days| - 1]), days[|days| - 1]);
    }
  }

  function Errors(totals: seq<Total>): nat {
    if totals == [] then 0 else Errors(totals[..|totals| - 1]) + totals[|totals| - 1].errors
  }

  lemma {:induction false} ErrorsUpdate(totals: seq<Total>, i: nat, t: Total)
    requires i < |totals|
    ensures Errors(totals[i := t]) + totals[i].errors == Errors(totals) + t.errors
    decreases |totals|
  {
    var n := |totals| - 1;
    if i == n {
      assert totals[i := t][..n] == totals[..n];
    } else {
      assert totals[i := t][..n] == totals[..n][i := t];
      ErrorsUpdate(totals[..n], i, t);
    }
  }

  // The errors add up to the number of reports, and no file is listed twice.
  lemma {:induction false} ErrorsAddUp(xs: seq<Report>)
    ensures Errors(Summary(xs)) == |xs|
    ensures forall i, j :: 0 <= i < j < |Summary(xs)| ==> Summary(xs)[i].did != Summary(xs)[j].did
  {
    DidsDistinct(xs);
    if xs == [] {
      SummaryNothing();
    } else {
      var init, r := xs[..|xs| - 1], xs[|xs| - 1];
      ErrorsAddUp(init);
      CountOne(init, r);
      assert xs == init + [r];
      CountedErrors(Summary(init), r);
    }
  }

  lemma CountedErrors(totals: seq<Total>, r: Report)
    ensures Errors(Counted(totals, r)) == Errors(totals) + 1
  {
    var i := Find(totals, r.did);
    if i < |totals| {
      ErrorsUpdate(totals, i, Plus(totals[i], Once(r)));
    } else {
      assert (totals + [Once(r)])[..|totals|] == totals;
    }
  }
}
