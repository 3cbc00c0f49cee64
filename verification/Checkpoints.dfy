// Where the job log is cut matters for the histories of sites and of wall-clock times, which are padded at
// the end of each call, and for the states, which the node state file overwrites between calls. This module
// says exactly when the padding shows, and when the overwriting does not.
module Checkpoints {
  import opened Canonical
  import opened JobLog

  // ---- what an event does to one node ----

  // The event is about the job of node n.
  predicate About(m: map<Proc, Node>, n: Node, k: Kind) {
    AboutJob(k) && k.proc in m && m[k.proc] == n
  }

  function NodeStep(m: map<Proc, Node>, n: Node, e: Event, i: Info): Info
    requires About(m, n, e.kind) ==> Submitted(i)
  {
    match e.kind
    case Submit(node, proc) => if node == Some(n) then AfterSubmit(i, e.time, proc) else i
    case PostScript(node, normally, value) =>
      if node == Some(n) then i.(state := Some(PostStatus(normally, value))) else i
    case k => if About(m, n, k) then AfterEvent(i, e.time, k) else i
  }

  lemma NodeStepIs(c: Cache, e: Event, n: Node)
    requires Sound(c) && Step(c, e).Some?
    ensures About(c.nodeMap, n, e.kind) ==> Submitted(Known(c, n))
    ensures Known(Step(c, e).value, n) == NodeStep(c.nodeMap, n, e, Known(c, n))
  {
    hide AfterEvent, AfterSubmit;
  }

  // ---- what events add to the two histories ----

  // Sites to append, a time to put in the last place, and times to append after that.
  datatype Added = Added(sites: seq<string>, last: Option<real>, walls: seq<real>)

  const NOTHING := Added([], None, [])

  predicate Fit(w: seq<real>, x: Added) {
    x.last.Some? ==> w != []
  }

  function Put(w: seq<real>, x: Added): (r: seq<real>)
    requires Fit(w, x)
    ensures |r| == |w| + |x.walls|
  {
    (if x.last.Some? then Last(w, x.last.value) else w) + x.walls
  }

  function Then(x: Added, y: Added): Added {
    if x.walls == [] then Added(x.sites + y.sites, if y.last.Some? then y.last else x.last, y.walls)
    else Added(x.sites + y.sites, x.last, Put(x.walls, y))
  }

  lemma PutThen(w: seq<real>, x: Added, y: Added)
    requires Fit(w, x) && Fit(Put(w, x), y)
    ensures Fit(w, Then(x, y)) && Put(w, Then(x, y)) == Put(Put(w, x), y)
  {
    if x.walls == [] {
      assert Put(w, x) == if x.last.Some? then Last(w, x.last.value) else w;
    } else if y.last.Some? {
      var base := if x.last.Some? then Last(w, x.last.value) else w;
      assert Last(base + x.walls, y.last.value) == base + Last(x.walls, y.last.value);
    }
  }

  function Since(i: Info, t: real): Option<real> {
    if i.startTimes == [] then None else Some(t - i.startTimes[|i.startTimes| - 1])
  }

  // What one event about a job adds; it depends on the core of the job only.
  function EventAdds(i: Info, t: real, k: Kind): Added {
    match k
    case Terminated(_, _, _, _) =>
      var started := i.startTimes != [] && i.startTimes[|i.startTimes| - 1] > 0.0;
      Added([], Some(if started then t - i.startTimes[|i.startTimes| - 1] else 0.0), [])
    case Evicted(_, _) => if i.state == Some(Idle) then NOTHING else Added([], Since(i, t), [0.0])
    case HeldBack(_, _) => if i.state == Some(Running) then Added([], Since(i, t), [0.0]) else NOTHING
    case Aborted(_, _) =>
      if (i.state == Some(Idle) || i.state == Some(Held)) && i.recordedSite == Some(false)
      then Added(["Unknown"], None, []) else NOTHING
    case AdInformation(_, site, _) =>
      if i.recordedSite == Some(false) && site.Some? then Added([site.value], None, []) else NOTHING
    case ImageSize(_, _, _) => Added([], Since(i, t), [])
    case _ => NOTHING
  }

  function StepAdds(c: Cache, e: Event, n: Node): Added
    requires Sound(c)
  {
    match e.kind
    case Submit(node, _) => if node == Some(n) then Added([], None, [0.0]) else NOTHING
    case PostScript(_, _, _) => NOTHING
    case Other => NOTHING
    case k => if k.proc in c.nodeMap && c.nodeMap[k.proc] == n then EventAdds(c.nodes[n], e.time, k) else NOTHING
  }

  // What a stretch of the log adds to the histories of a node.
  function Adds(c: Cache, events: seq<Event>, n: Node): Added
    requires Sound(c) && Fold(c, events).Some?
    decreases |events|
  {
    if events == [] then NOTHING
    else StepSound(c, events[0]); Then(StepAdds(c, events[0], n), Adds(Step(c, events[0]).value, events[1..], n))
  }

  lemma WithCpuAdds(i: Info, u: Usage)
    requires Submitted(i)
    ensures WithCpu(i, u).siteHistory == i.siteHistory && WithCpu(i, u).wallDurations == i.wallDurations
  {
  }

  lemma RestartedAdds(i: Info, t: real, u: Usage)
    requires Submitted(i)
    ensures Restarted(i, t, u).siteHistory == i.siteHistory
    ensures Restarted(i, t, u).wallDurations == Put(i.wallDurations, Added([], Since(i, t), [0.0]))
  {
    hide WithCpu;
    WithCpuAdds(Ended(i, t), u);
  }

  lemma EventAddsIs(i: Info, t: real, k: Kind)
    requires Submitted(i)
    ensures AfterEvent(i, t, k).siteHistory == i.siteHistory + EventAdds(i, t, k).sites
    ensures Fit(i.wallDurations, EventAdds(i, t, k))
    ensures AfterEvent(i, t, k).wallDurations == Put(i.wallDurations, EventAdds(i, t, k))
  {
    hide WithCpu, Restarted;
    match k
    case Evicted(_, u) => RestartedAdds(i, t, u);
    case HeldBack(_, u) => RestartedAdds(i, t, u);
    case Terminated(_, _, _, u) => WithCpuAdds(Measured(i, t), u);
    case Aborted(_, u) => WithCpuAdds(Stopped(i), u);
    case AdInformation(_, site, u) => WithCpuAdds(Placed(i, site), u);
    case ImageSize(_, size, u) => WithCpuAdds(Sized(i, t, size), u);
    case _ =>
  }

  lemma PutNothing(w: seq<real>)
    ensures Put(w, NOTHING) == w && w + [] == w
  {
  }

  lemma SubmitAdds(i: Info, e: Event)
    requires e.kind.Submit?
    ensures var j := AfterSubmit(i, e.time, e.kind.proc);
            j.siteHistory == i.siteHistory + [] && j.wallDurations == Put(i.wallDurations, Added([], None, [0.0]))
  {
  }

  lemma StepAddsIs(c: Cache, e: Event, n: Node)
    requires Sound(c) && Step(c, e).Some?
    ensures var i, j, x := Known(c, n), Known(Step(c, e).value, n), StepAdds(c, e, n);
            && j.siteHistory == i.siteHistory + x.sites
            && Fit(i.wallDurations, x) && j.wallDurations == Put(i.wallDurations, x)
  {
    hide AfterEvent, AfterSubmit, EventAdds, Put, Step, Submitted, Even;
    PutNothing(Known(c, n).wallDurations);
    NodeStepIs(c, e, n);
    if e.kind.Submit? {
      SubmitAdds(Known(c, n), e);
    } else if About(c.nodeMap, n, e.kind) {
      EventAddsIs(Known(c, n), e.time, e.kind);
    }
  }

  // The histories of a node after a stretch of the log are those before it with what the log adds.
  lemma {:induction false} AddsIs(c: Cache, events: seq<Event>, n: Node)
    requires Sound(c) && Fold(c, events).Some?
    ensures var i, j, x := Known(c, n), Known(Fold(c, events).value, n), Adds(c, events, n);
            && j.siteHistory == i.siteHistory + x.sites
            && Fit(i.wallDurations, x) && j.wallDurations == Put(i.wallDurations, x)
    decreases |events|
  {
    hide Step, StepAdds;
    if events != [] {
      StepSound(c, events[0]);
      StepAddsIs(c, events[0], n);
      AddsIs(Step(c, events[0]).value, events[1..], n);
      PutThen(Known(c, n).wallDurations, StepAdds(c, events[0], n), Adds(Step(c, events[0]).value, events[1..], n));
    }
  }

  lemma EventAddsSame(i: Info, j: Info, t: real, k: Kind)
    requires Core(i) == Core(j)
    ensures EventAdds(i, t, k) == EventAdds(j, t, k)
  {
  }

  lemma StepAddsSame(c: Cache, d: Cache, e: Event, n: Node)
    requires Sound(c) && Sound(d) && Same(c, d)
    ensures StepAdds(c, e, n) == StepAdds(d, e, n)
  {
    hide EventAdds, Core, Submitted, Even;
    if AboutJob(e.kind) && e.kind.proc in c.nodeMap {
      EventAddsSame(c.nodes[c.nodeMap[e.kind.proc]], d.nodes[c.nodeMap[e.kind.proc]], e.time, e.kind);
    }
  }

  // What the log adds does not depend on the two histories themselves.
  lemma {:induction false} AddsSame(c: Cache, d: Cache, events: seq<Event>, n: Node)
    requires Sound(c) && Sound(d) && Same(c, d) && Fold(c, events).Some? && Fold(d, events).Some?
    ensures Adds(c, events, n) == Adds(d, events, n)
    decreases |events|
  {
    hide Step, StepAdds, Same;
    if events != [] {
      StepSound(c, events[0]);
      StepSound(d, events[0]);
      StepSame(c, d, events[0]);
      StepAddsSame(c, d, events[0], n);
      AddsSame(Step(c, events[0]).value, Step(d, events[0]).value, events[1..], n);
    }
  }

  // ---- when padding in between shows ----

  predicate All<T(==)>(s: seq<T>, x: T) {
    forall e <- s :: e == x
  }

  lemma {:induction false} Shifted<T>(r: seq<T>, p: seq<T>, x: T)
    requires p != []
    ensures r + Copies(|p|, x) == p + r <==> All(p, x) && All(r, x)
  {
    var k, a, b := |p|, r + Copies(|p|, x), p + r;
    if a == b {
      AllFrom(r, p, x, |r|);
      forall i | 0 <= i < k
        ensures p[i] == x
      {
        assert p[i] == b[i] == a[i];
      }
    }
    if All(p, x) && All(r, x) {
      assert forall i :: 0 <= i < |r| ==> r[i] in r;
      assert forall i :: 0 <= i < k ==> p[i] in p;
      assert a == b;
    }
  }

  lemma {:induction false} AllFrom<T>(r: seq<T>, p: seq<T>, x: T, i: nat)
    requires i <= |r| && p != [] && r + Copies(|p|, x) == p + r
    ensures forall j :: |r| - i <= j < |r| ==> r[j] == x
  {
    if i > 0 {
      AllFrom(r, p, x, i - 1);
      var j, k := |r| - i, |p|;
      assert r[j] == (p + r)[k + j] == (r + Copies(k, x))[k + j];
    }
  }

  // Two histories that are padded at the end, one of them also in between, by p.
  lemma PaddedBetween<T>(base: seq<T>, r: seq<T>, p: seq<T>, d: int, x: T)
    requires p != []
    ensures base + r + Copies(|p| + d, x) == base + p + r + Copies(d, x)
       <==> d >= 0 && All(p, x) && All(r, x)
  {
    var a, b := base + r + Copies(|p| + d, x), base + p + r + Copies(d, x);
    if d >= 0 {
      var s, t := r + Copies(|p|, x), p + r;
      assert a == base + s + Copies(d, x);
      assert b == base + t + Copies(d, x);
      if s != t {
        Differ(base, s, t, Copies(d, x));
      }
      Shifted(r, p, x);
    } else {
      assert |a| != |b|;
    }
  }

  lemma Differ<T>(base: seq<T>, s: seq<T>, t: seq<T>, end: seq<T>)
    requires |s| == |t| && s != t
    ensures base + s + end != base + t + end
  {
    var i :| 0 <= i < |s| && s[i] != t[i];
    assert (base + s + end)[|base| + i] != (base + t + end)[|base| + i];
  }

  // The longer of two paddings of the same history.
  lemma PaddedMore<T>(base: seq<T>, k: nat, d: int, x: T)
    requires k > 0
    ensures base + Copies(d + k, x) == base + Copies(d, x) <==> d + k <= 0
  {
    if d + k > 0 {
      assert |base + Copies(d + k, x)| != |base + Copies(d, x)|;
    }
  }

  // For sites: before the checkpoint both histories are equally long; or there are fewer wall-clock times,
  // and at least as many sites as times follow; or there are fewer sites, at least as many times follow, and
  // all sites that follow are unknown.
  predicate SitesKept(i: Info, x: Added) {
    var sites, walls := |i.siteHistory|, |i.wallDurations|;
    || walls == sites
    || (walls < sites && |x.sites| >= |x.walls|)
    || (walls > sites && |x.walls| >= |x.sites| && All(x.sites, "Unknown"))
  }

  // For wall-clock times: as above, and where times are padded in between all of them are the same: those
  // padded, at the checkpoint and at the end, those written after it, and the one that is overwritten.
  predicate TimesKept(i: Info, x: Added, filler: real, atEnd: real) {
    TimesKeptIn(|i.siteHistory|, i.wallDurations, x, filler, atEnd)
  }

  // With s sites and wall-clock times w at the checkpoint.
  predicate TimesKeptIn(s: nat, w: seq<real>, x: Added, filler: real, atEnd: real) {
    || |w| == s
    || (|w| > s && |x.walls| >= |x.sites|)
    || (|w| < s && |x.sites| >= |x.walls| && All(x.walls, atEnd)
        && if x.last.None? then filler == atEnd
           else w != [] && w[|w| - 1] == x.last.value == atEnd && (s - |w| > 1 ==> filler == atEnd))
  }

  lemma SitesBetween(i: Info, j: Info, j': Info, x: Added, now: real, end: real)
    requires var p := Padded(i, now);
             && j.siteHistory == i.siteHistory + x.sites && |j.wallDurations| == |i.wallDurations| + |x.walls|
             && j'.siteHistory == p.siteHistory + x.sites && |j'.wallDurations| == |p.wallDurations| + |x.walls|
    ensures Padded(j, end).siteHistory == Padded(j', end).siteHistory <==> SitesKept(i, x)
  {
    var s, w, d := |i.siteHistory|, |i.wallDurations|, |x.walls| - |x.sites|;
    assert Padded(j, end).siteHistory == i.siteHistory + x.sites + Copies(w - s + d, "Unknown");
    assert Padded(j', end).siteHistory == i.siteHistory + Copies(w - s, "Unknown") + x.sites + Copies(d, "Unknown");
    if w > s {
      PaddedBetween(i.siteHistory, x.sites, Copies(w - s, "Unknown"), d, "Unknown");
    } else {
      assert i.siteHistory + Copies(w - s, "Unknown") == i.siteHistory;
      if w < s {
        PaddedMore(i.siteHistory + x.sites, s - w, w - s + d, "Unknown");
      }
    }
  }

  lemma TimesBetween(i: Info, j: Info, j': Info, x: Added, now: real, end: real)
    requires Fit(i.wallDurations, x) && Filler(j, end) == Filler(j', end)
    requires var p := Padded(i, now);
             && j.wallDurations == Put(i.wallDurations, x) && |j.siteHistory| == |i.siteHistory| + |x.sites|
             && j'.wallDurations == Put(p.wallDurations, x) && |j'.siteHistory| == |p.siteHistory| + |x.sites|
    ensures Padded(j, end).wallDurations == Padded(j', end).wallDurations
       <==> TimesKept(i, x, Filler(i, now), Filler(j, end))
  {
    hide Put, Copies, Filler;
    TimesPadded(|i.siteHistory|, i.wallDurations, x, Filler(i, now), Filler(j, end));
  }

  lemma TimesPadded(s: nat, w: seq<real>, x: Added, a: real, b: real)
    requires Fit(w, x)
    ensures Put(w, x) + Copies(s - |w| + |x.sites| - |x.walls|, b)
         == Put(w + Copies(s - |w|, a), x) + Copies(|x.sites| - |x.walls|, b)
       <==> TimesKeptIn(s, w, x, a, b)
  {
    var d, k := |x.sites| - |x.walls|, s - |w|;
    if k <= 0 {
      assert w + Copies(k, a) == w;
      if k < 0 {
        PaddedMore(Put(w, x), -k, k + d, b);
      }
    } else if x.last.None? {
      TimesUntouched(w, x.walls, k, d, a, b);
    } else {
      hide Put;
      PutTouched(w, k, a, x);
      TimesTouched(w[..|w| - 1], w[|w| - 1], x.last.value, x.walls, k, d, a, b);
    }
  }

  lemma PutTouched(w: seq<real>, k: nat, a: real, x: Added)
    requires w != [] && x.last.Some? && k > 0
    ensures Put(w, x) == w[..|w| - 1] + ([x.last.value] + x.walls)
    ensures Put(w + Copies(k, a), x)
         == w[..|w| - 1] + ([w[|w| - 1]] + Copies(k - 1, a)) + ([x.last.value] + x.walls)
  {
    var v, rest := x.last.value, [w[|w| - 1]] + Copies(k - 1, a);
    assert Last(w, v) == w[..|w| - 1] + [v];
    assert Last(w + Copies(k, a), v) == w[..|w| - 1] + rest + [v];
  }

  lemma TimesUntouched(w: seq<real>, walls: seq<real>, k: nat, d: int, a: real, b: real)
    requires k > 0
    ensures w + walls + Copies(k + d, b) == w + Copies(k, a) + walls + Copies(d, b)
       <==> d >= 0 && a == b && All(walls, b)
  {
    PaddedBetween(w, walls, Copies(k, a), d, b);
    CopiesAll(k, a, b);
  }

  lemma TimesTouched(base: seq<real>, l: real, v: real, walls: seq<real>, k: nat, d: int, a: real, b: real)
    requires k > 0
    ensures base + ([v] + walls) + Copies(k + d, b) == base + ([l] + Copies(k - 1, a)) + ([v] + walls) + Copies(d, b)
       <==> d >= 0 && l == v == b && (k > 1 ==> a == b) && All(walls, b)
  {
    var r, p := [v] + walls, [l] + Copies(k - 1, a);
    PaddedBetween(base, r, p, d, b);
    AllOf(v, walls, b);
    AllOf(l, Copies(k - 1, a), b);
    if k > 1 {
      CopiesAll(k - 1, a, b);
    }
  }

  lemma CopiesAll<T>(k: nat, e: T, x: T)
    requires k > 0
    ensures All(Copies(k, e), x) <==> e == x
  {
    assert Copies(k, e)[0] == e && e in Copies(k, e);
  }

  lemma AllOf<T>(e: T, rest: seq<T>, x: T)
    ensures All([e] + rest, x) <==> e == x && All(rest, x)
  {
    if All([e] + rest, x) {
      assert e in [e] + rest && forall y <- rest :: y in [e] + rest;
    }
  }

  // A node after one call and after two calls.
  lemma TwoWays(c: Cache, a: seq<Event>, b: seq<Event>, now: real, end: real, n: Node)
    returns (i: Info, j: Info, j': Info, x: Added)
    requires Sound(c) && Fold(c, a + b).Some?
    ensures Fold(c, a).Some? && Fold(Fold(c, a).value, b).Some? && i == Known(Fold(c, a).value, n)
    ensures x == Adds(Fold(c, a).value, b, n) && j == Known(Fold(c, a + b).value, n)
    ensures var p := Padded(i, now);
            && j.siteHistory == i.siteHistory + x.sites && j'.siteHistory == p.siteHistory + x.sites
            && Fit(i.wallDurations, x) && Fit(p.wallDurations, x)
            && j.wallDurations == Put(i.wallDurations, x) && j'.wallDurations == Put(p.wallDurations, x)
            && Core(j) == Core(j')
    ensures Parse(c, a + b, end).Some? && ParseAll(c, [Call(a, now), Call(b, end)]).Some?
    ensures Known(Parse(c, a + b, end).value, n) == Padded(j, end)
    ensures Known(ParseAll(c, [Call(a, now), Call(b, end)]).value, n) == Padded(j', end)
  {
    hide Fold, Adds, Core, Padded, PadAll, Sound, Same, ParseAll;
    FoldAppend(c, a, b);
    var f := Fold(c, a).value;
    var p := PadAll(f, now);
    SameSelf(f);
    PadSame(f, f, now);
    FoldSame(p, f, b);
    AddsSame(p, f, b, n);
    AddsIs(f, b, n);
    AddsIs(p, b, n);
    i, x := Known(f, n), Adds(f, b, n);
    j, j' := Known(Fold(f, b).value, n), Known(Fold(p, b).value, n);
    KnownSame(Fold(p, b).value, Fold(f, b).value, n);
    KnownPadded(f, now, n);
    KnownPadded(Fold(f, b).value, end, n);
    KnownPadded(Fold(p, b).value, end, n);
    TwoCalls(c, Call(a, now), Call(b, end));
  }

  lemma SameSelf(c: Cache)
    ensures Same(c, c)
  {
  }

  lemma KnownSame(c: Cache, d: Cache, n: Node)
    requires Same(c, d)
    ensures Core(Known(c, n)) == Core(Known(d, n))
  {
  }

  lemma KnownPadded(c: Cache, now: real, n: Node)
    requires Sound(c)
    ensures Known(PadAll(c, now), n) == Padded(Known(c, n), now)
  {
  }

  // The sites come out as from one call exactly if SitesKept holds at the checkpoint.
  lemma SitesKeptExactly(c: Cache, a: seq<Event>, b: seq<Event>, now: real, end: real, n: Node)
    requires Sound(c) && Fold(c, a + b).Some?
    ensures Fold(c, a).Some? && Fold(Fold(c, a).value, b).Some?
    ensures Parse(c, a + b, end).Some? && ParseAll(c, [Call(a, now), Call(b, end)]).Some?
    ensures Known(Parse(c, a + b, end).value, n).siteHistory
         == Known(ParseAll(c, [Call(a, now), Call(b, end)]).value, n).siteHistory
       <==> SitesKept(Known(Fold(c, a).value, n), Adds(Fold(c, a).value, b, n))
  {
    hide Fold, Adds, Core, Padded, Parse, Sound, ParseAll, SitesKept, Put;
    var i, j, j', x := TwoWays(c, a, b, now, end, n);
    SitesBetween(i, j, j', x, now, end);
  }

  // The wall-clock times come out as from one call exactly if TimesKept holds.
  lemma TimesKeptExactly(c: Cache, a: seq<Event>, b: seq<Event>, now: real, end: real, n: Node)
    requires Sound(c) && Fold(c, a + b).Some?
    ensures Fold(c, a).Some? && Fold(Fold(c, a).value, b).Some?
    ensures Parse(c, a + b, end).Some? && ParseAll(c, [Call(a, now), Call(b, end)]).Some?
    ensures Known(Parse(c, a + b, end).value, n).wallDurations
         == Known(ParseAll(c, [Call(a, now), Call(b, end)]).value, n).wallDurations
       <==> TimesKept(Known(Fold(c, a).value, n), Adds(Fold(c, a).value, b, n),
                      Filler(Known(Fold(c, a).value, n), now), Filler(Known(Fold(c, a + b).value, n), end))
  {
    hide Fold, Adds, Padded, Parse, Sound, ParseAll, TimesKept, Put;
    var i, j, j', x := TwoWays(c, a, b, now, end, n);
    assert Filler(j, end) == Filler(j', end);
    TimesBetween(i, j, j', x, now, end);
  }

  // ---- the node state file between calls ----

  // The program run once: new events, and then what the node state file says.
  datatype Round = Round(events: seq<Event>, ads: seq<Ad>, now: real)

  function RoundEvents(rounds: seq<Round>): seq<Event> {
    if rounds == [] then [] else rounds[0].events + RoundEvents(rounds[1..])
  }

  function RefreshAll(c: Cache, rounds: seq<Round>): (r: Option<Cache>)
    requires Sound(c)
    ensures r.Some? ==> Sound(r.value)
    decreases |rounds|
  {
    if rounds == [] then Some(c)
    else
      var r := rounds[0];
      if Refresh(c, r.events, r.ads, r.now).None? then None
      else
        OverlaySound(Parse(c, r.events, r.now).value, r.ads);
        RefreshAll(Refresh(c, r.events, r.ads, r.now).value, rounds[1..])
  }

  // Events look at the state only to see whether it is one of these.
  predicate Waiting(s: Option<Status>) {
    s == Some(Idle) || s == Some(Running) || s == Some(Held)
  }

  predicate SamePhase(s: Option<Status>, t: Option<Status>) {
    if Waiting(s) then s == t else !Waiting(t)
  }

  // The file does not say that a job that is idle, running or held is in some other state.
  predicate Calm(s: Option<Status>, ad: Ad) {
    Waiting(s) ==> ad.status !in {1, 2, 4, 5, 6}
  }

  lemma CalmKeeps(s: Option<Status>, ad: Ad)
    requires s.Some?
    ensures Calm(s, ad) <==> SamePhase(s, StateAfter(s, ad))
  {
  }

  predicate CalmOverlay(nodes: map<Node, Info>, ads: seq<Ad>)
    decreases |ads|
  {
    if ads == [] then true
    else
      var n := ads[0].node;
      var i := if n in nodes then nodes[n] else DEFAULTS;
      (i.submitTimes != [] && i.state.Some? ==> Calm(i.state, ads[0]))
      && CalmOverlay(nodes[n := Overlaid(i, ads[0])], ads[1..])
  }

  predicate CalmAll(c: Cache, rounds: seq<Round>)
    requires Sound(c)
    decreases |rounds|
  {
    if rounds == [] then true
    else
      var r := rounds[0];
      var p := Parse(c, r.events, r.now);
      if p.None? then true
      else
        OverlaySound(p.value, r.ads);
        CalmOverlay(p.value.nodes, r.ads) && CalmAll(Refresh(c, r.events, r.ads, r.now).value, rounds[1..])
  }

  // All histories but those of sites and of wall-clock times, without the state.
  function Histories(i: Info): Info {
    Core(i).(state := None)
  }

  predicate LikeInfo(i: Info, j: Info) {
    && Histories(i) == Histories(j)
    && (i.submitTimes != [] ==> i.state.Some? && j.state.Some? && SamePhase(i.state, j.state))
  }

  // The cache c may know nodes from the node state file that have not been submitted.
  predicate Aligned(c: Cache, d: Cache) {
    c.nodeMap == d.nodeMap && d.nodes.Keys <= c.nodes.Keys
  }

  ghost predicate Like(c: Cache, d: Cache) {
    Aligned(c, d) && forall n: Node :: LikeInfo(Known(c, n), Known(d, n))
  }

  function MapStep(m: map<Proc, Node>, e: Event): map<Proc, Node> {
    if e.kind.Submit? && e.kind.node.Some? then m[e.kind.proc := e.kind.node.value] else m
  }

  lemma AlignedStep(c: Cache, d: Cache, e: Event)
    requires Sound(c) && Sound(d) && Aligned(c, d) && Step(d, e).Some?
    ensures Step(c, e).Some? && Aligned(Step(c, e).value, Step(d, e).value)
    ensures Step(d, e).value.nodeMap == MapStep(d.nodeMap, e)
  {
    hide AfterEvent, AfterSubmit;
  }

  lemma RestartedState(i: Info, s: Option<Status>, t: real, u: Usage)
    requires Submitted(i) && s.Some?
    ensures Restarted(i.(state := s), t, u) == Restarted(i, t, u).(state := s)
  {
  }

  lemma WithCpuState(i: Info, s: Option<Status>, u: Usage)
    requires Submitted(i) && s.Some?
    ensures WithCpu(i.(state := s), u) == WithCpu(i, u).(state := s)
  {
  }

  lemma WithCpuKeeps(i: Info, u: Usage)
    requires Submitted(i)
    ensures WithCpu(i, u).state == i.state
  {
  }

  // These events neither look at the state nor set it.
  predicate Passing(k: Kind) {
    k.AdInformation? || k.ImageSize?
  }

  // In state s the event counts: as a restart, or as the end of a job that has not started.
  predicate Counts(k: Kind, s: Option<Status>) {
    match k
    case Evicted(_, _) => s != Some(Idle)
    case HeldBack(_, _) => s == Some(Running)
    case Aborted(_, _) => s == Some(Idle) || s == Some(Held)
    case _ => false
  }

  // Where an event counts the same in two states, these make no difference after it.
  lemma DecidedSame(i: Info, s: Option<Status>, t: real, k: Kind)
    requires Submitted(i) && s.Some? && AboutJob(k) && !Passing(k) && Counts(k, i.state) == Counts(k, s)
    ensures AfterEvent(i.(state := s), t, k) == AfterEvent(i, t, k) && AfterEvent(i, t, k).state.Some?
  {
    hide WithCpu, Restarted, Last;
    match k
    case Evicted(_, u) => RestartedState(i, s, t, u);
    case HeldBack(_, u) => RestartedState(i, s, t, u);
    case Terminated(_, _, _, u) => WithCpuState(Measured(i, t), s, u);
    case Aborted(_, u) => WithCpuKeeps(Stopped(i), u);
    case _ =>
  }

  lemma PassingSame(i: Info, s: Option<Status>, t: real, k: Kind)
    requires Submitted(i) && s.Some? && Passing(k)
    ensures AfterEvent(i.(state := s), t, k) == AfterEvent(i, t, k).(state := s)
    ensures AfterEvent(i, t, k).state == i.state
  {
    hide WithCpu, Last;
    match k
    case AdInformation(_, site, u) =>
      WithCpuState(Placed(i, site), s, u);
      WithCpuKeeps(Placed(i, site), u);
    case ImageSize(_, size, u) =>
      WithCpuState(Sized(i, t, size), s, u);
      WithCpuKeeps(Sized(i, t, size), u);
  }

  // What is left of a difference in the states after an event about the job: none if it counts the same,
  // and none if it passes but the states themselves.
  lemma AfterEventAlike(i: Info, j: Info, t: real, k: Kind)
    requires Submitted(i) && Submitted(j) && Histories(i) == Histories(j) && AboutJob(k)
    requires Passing(k) || Counts(k, i.state) == Counts(k, j.state)
    ensures var a, b := AfterEvent(i, t, k), AfterEvent(j, t, k);
            && Histories(a) == Histories(b) && a.state.Some? && b.state.Some?
            && if Passing(k) then a.state == i.state && b.state == j.state else a.state == b.state
  {
    hide AfterEvent, Counts;
    AfterEventSame(i.(state := j.state), j, t, k);
    if Passing(k) {
      PassingSame(i, j.state, t, k);
      PassingSame(j, j.state, t, k);
    } else {
      DecidedSame(i, j.state, t, k);
    }
  }

  lemma NodeStepLike(m: map<Proc, Node>, n: Node, e: Event, i: Info, j: Info)
    requires LikeInfo(i, j) && (About(m, n, e.kind) ==> Submitted(i) && Submitted(j))
    ensures LikeInfo(NodeStep(m, n, e, i), NodeStep(m, n, e, j))
  {
    hide AfterEvent, Submitted;
    if About(m, n, e.kind) {
      SubmittedIs(i);
      AfterEventAlike(i, j, e.time, e.kind);
    }
  }

  lemma SubmittedIs(i: Info)
    requires Submitted(i)
    ensures i.submitTimes != [] && i.state.Some?
  {
  }

  lemma StepLike(c: Cache, d: Cache, e: Event)
    requires Sound(c) && Sound(d) && Like(c, d) && Step(d, e).Some?
    ensures Step(c, e).Some? && Like(Step(c, e).value, Step(d, e).value)
  {
    hide Step, LikeInfo, Aligned, NodeStep, Sound, Known;
    AlignedStep(c, d, e);
    forall n: Node
      ensures LikeInfo(Known(Step(c, e).value, n), Known(Step(d, e).value, n))
    {
      NodeStepIs(c, e, n);
      NodeStepIs(d, e, n);
      AlignedMaps(c, d);
      NodeStepLike(c.nodeMap, n, e, Known(c, n), Known(d, n));
    }
  }

  lemma AlignedMaps(c: Cache, d: Cache)
    requires Aligned(c, d)
    ensures c.nodeMap == d.nodeMap
  {
  }

  lemma {:induction false} FoldLike(c: Cache, d: Cache, events: seq<Event>)
    requires Sound(c) && Sound(d) && Like(c, d) && Fold(d, events).Some?
    ensures Fold(c, events).Some? && Like(Fold(c, events).value, Fold(d, events).value)
    decreases |events|
  {
    hide Step, Sound, Like;
    if events != [] {
      StepLike(c, d, events[0]);
      StepSound(c, events[0]);
      StepSound(d, events[0]);
      FoldLike(Step(c, events[0]).value, Step(d, events[0]).value, events[1..]);
    }
  }

  lemma PadLike(c: Cache, d: Cache, now: real)
    requires Sound(c) && Like(c, d)
    ensures Like(PadAll(c, now), d)
  {
    forall n: Node
      ensures LikeInfo(Known(PadAll(c, now), n), Known(d, n))
    {
      KnownPadded(c, now, n);
      PaddedHistories(Known(c, n), now);
    }
  }

  lemma PaddedHistories(i: Info, now: real)
    ensures Histories(Padded(i, now)) == Histories(i) && Padded(i, now).state == i.state
  {
  }

  lemma {:induction false} OverlayLike(c: Cache, d: Cache, ads: seq<Ad>)
    requires Like(c, d) && CalmOverlay(c.nodes, ads)
    ensures Like(c.(nodes := Overlay(c.nodes, ads)), d)
    decreases |ads|
  {
    hide Overlaid, LikeInfo;
    if ads != [] {
      var n := ads[0].node;
      var i := if n in c.nodes then c.nodes[n] else DEFAULTS;
      OverlaidLike(i, Known(d, n), ads[0]);
      OverlayLike(c.(nodes := c.nodes[n := Overlaid(i, ads[0])]), d, ads[1..]);
    }
  }

  lemma OverlaidLike(i: Info, j: Info, ad: Ad)
    requires LikeInfo(i, j) && (i.submitTimes != [] && i.state.Some? ==> Calm(i.state, ad))
    ensures LikeInfo(Overlaid(i, ad), j)
  {
    if i.state.Some? {
      CalmKeeps(i.state, ad);
    }
  }

  // Run after run of the program, each with its node state file: the histories of all nodes come out as from
  // the whole log at once, if no file takes a job out of being idle, running or held. This is more than is
  // needed; RefreshesExactly below says what is.
  lemma {:induction false} RefreshesDoNotMatter(c: Cache, d: Cache, rounds: seq<Round>)
    requires Sound(c) && Sound(d) && Like(c, d) && CalmAll(c, rounds) && Fold(d, RoundEvents(rounds)).Some?
    ensures RefreshAll(c, rounds).Some? && Like(RefreshAll(c, rounds).value, Fold(d, RoundEvents(rounds)).value)
    decreases |rounds|
  {
    hide Fold, PadAll, Overlay, CalmOverlay, Sound, Like;
    if rounds == [] {
      FoldNothing(d);
    } else {
      var r := rounds[0];
      FoldAppend(d, r.events, RoundEvents(rounds[1..]));
      FoldLike(c, d, r.events);
      var f, g := Fold(c, r.events).value, Fold(d, r.events).value;
      PadLike(f, g, r.now);
      OverlayLike(PadAll(f, r.now), g, r.ads);
      OverlaySound(PadAll(f, r.now), r.ads);
      RefreshesDoNotMatter(Refresh(c, r.events, r.ads, r.now).value, g, rounds[1..]);
    }
  }

  lemma HistoriesAfterRefreshes(rounds: seq<Round>, n: Node)
    requires CalmAll(Cache(map[], map[]), rounds) && Fold(Cache(map[], map[]), RoundEvents(rounds)).Some?
    ensures RefreshAll(Cache(map[], map[]), rounds).Some?
    ensures var c := Cache(map[], map[]);
            var runs, whole := RefreshAll(c, rounds).value, Fold(c, RoundEvents(rounds)).value;
            runs.nodeMap == whole.nodeMap && Histories(Known(runs, n)) == Histories(Known(whole, n))
  {
    hide Fold, RefreshAll, CalmAll, RoundEvents, Histories;
    var c := Cache(map[], map[]);
    RefreshesDoNotMatter(c, c, rounds);
    assert LikeInfo(Known(RefreshAll(c, rounds).value, n), Known(Fold(c, RoundEvents(rounds)).value, n));
  }

  // ---- when an overwritten state shows ----

  // Two jobs that differ in how often they were restarted or started, and that no event tells apart.
  predicate Apart(i: Info, j: Info) {
    i.state == j.state && (i.restarts != j.restarts || |i.startTimes| != |j.startTimes|)
  }

  function StateOf(k: Kind, s: Option<Status>): Option<Status> {
    match k
    case Execute(_) => Some(Running)
    case Terminated(_, normally, value, _) => Some(if normally && value == 0 then Transferring else Cooloff)
    case Evicted(_, _) => Some(Idle)
    case Aborted(_, _) => Some(Killed)
    case HeldBack(_, _) => Some(Held)
    case Released(_) => Some(Idle)
    case _ => s
  }

  // The state after an event, and how many restarts and starts it adds, depend on the state only.
  lemma Effect(i: Info, t: real, k: Kind)
    requires Submitted(i) && AboutJob(k)
    ensures var r := AfterEvent(i, t, k);
            && r.state == StateOf(k, i.state)
            && r.restarts == i.restarts + (if Counts(k, i.state) && !k.Aborted? then 1 else 0)
            && |r.startTimes| == |i.startTimes| + if k.Execute? || (Counts(k, i.state) && k.Aborted?) then 1 else 0
  {
    hide WithCpu, Restarted, Last;
    match k
    case Evicted(_, u) => RestartedEffect(i, t, u);
    case HeldBack(_, u) => RestartedEffect(i, t, u);
    case Terminated(_, _, _, u) => WithCpuEffect(Measured(i, t), u);
    case Aborted(_, u) => WithCpuEffect(Stopped(i), u);
    case AdInformation(_, site, u) => WithCpuEffect(Placed(i, site), u);
    case ImageSize(_, size, u) => WithCpuEffect(Sized(i, t, size), u);
    case _ =>
  }

  lemma WithCpuEffect(i: Info, u: Usage)
    requires Submitted(i)
    ensures var r := WithCpu(i, u); r.state == i.state && r.restarts == i.restarts && r.startTimes == i.startTimes
  {
  }

  lemma RestartedEffect(i: Info, t: real, u: Usage)
    requires Submitted(i)
    ensures Restarted(i, t, u).startTimes == i.startTimes
  {
    hide WithCpu, Last;
    WithCpuEffect(Ended(i, t), u);
  }

  lemma NodeStepApart(m: map<Proc, Node>, n: Node, e: Event, i: Info, j: Info)
    requires Apart(i, j) && (About(m, n, e.kind) ==> Submitted(i) && Submitted(j))
    ensures Apart(NodeStep(m, n, e, i), NodeStep(m, n, e, j))
  {
    hide AfterEvent, Submitted, Counts, StateOf;
    if About(m, n, e.kind) {
      Effect(i, e.time, e.kind);
      Effect(j, e.time, e.kind);
    }
  }

  lemma DecidedApart(i: Info, j: Info, t: real, k: Kind)
    requires Submitted(i) && Submitted(j) && Histories(i) == Histories(j) && AboutJob(k)
    requires !Passing(k) && Counts(k, i.state) != Counts(k, j.state)
    ensures Apart(AfterEvent(i, t, k), AfterEvent(j, t, k))
  {
    hide AfterEvent;
    Effect(i, t, k);
    Effect(j, t, k);
  }

  lemma {:induction false} FoldApart(c: Cache, d: Cache, events: seq<Event>, n: Node)
    requires Sound(c) && Sound(d) && Aligned(c, d) && Apart(Known(c, n), Known(d, n)) && Fold(d, events).Some?
    ensures Fold(c, events).Some? && Aligned(Fold(c, events).value, Fold(d, events).value)
    ensures Apart(Known(Fold(c, events).value, n), Known(Fold(d, events).value, n))
    decreases |events|
  {
    hide Step, Sound, Aligned, Known, Apart, NodeStep;
    if events != [] {
      var e := events[0];
      AlignedStep(c, d, e);
      AlignedMaps(c, d);
      NodeStepIs(c, e, n);
      NodeStepIs(d, e, n);
      NodeStepApart(c.nodeMap, n, e, Known(c, n), Known(d, n));
      StepSound(c, e);
      StepSound(d, e);
      FoldApart(Step(c, e).value, Step(d, e).value, events[1..], n);
    }
  }

  lemma {:induction false} FoldAlike(c: Cache, d: Cache, events: seq<Event>, n: Node)
    requires Sound(c) && Sound(d) && Aligned(c, d) && LikeInfo(Known(c, n), Known(d, n)) && Fold(d, events).Some?
    ensures Fold(c, events).Some? && Aligned(Fold(c, events).value, Fold(d, events).value)
    ensures LikeInfo(Known(Fold(c, events).value, n), Known(Fold(d, events).value, n))
    decreases |events|
  {
    hide Step, Sound, Aligned, Known, LikeInfo, NodeStep;
    if events != [] {
      var e := events[0];
      AlignedStep(c, d, e);
      AlignedMaps(c, d);
      NodeStepIs(c, e, n);
      NodeStepIs(d, e, n);
      NodeStepLike(c.nodeMap, n, e, Known(c, n), Known(d, n));
      StepSound(c, e);
      StepSound(d, e);
      FoldAlike(Step(c, e).value, Step(d, e).value, events[1..], n);
    }
  }

  // The event sets the state of the node without looking at it.
  predicate SetsState(n: Node, k: Kind) {
    (k.Submit? || k.PostScript?) && k.node == Some(n)
  }

  // The first of the events that looks at the state of the node or sets it counts in one of the states and
  // not in the other.
  predicate Shows(m: map<Proc, Node>, n: Node, s: Option<Status>, t: Option<Status>, events: seq<Event>)
    decreases |events|
  {
    if events == [] then false
    else
      var k := events[0].kind;
      if SetsState(n, k) then false
      else if About(m, n, k) && !Passing(k) then Counts(k, s) != Counts(k, t)
      else Shows(MapStep(m, events[0]), n, s, t, events[1..])
  }

  // An event that decides: after it the node is alike for good, or apart for good.
  lemma Decides(m: map<Proc, Node>, n: Node, e: Event, i: Info, j: Info)
    requires Histories(i) == Histories(j) && (About(m, n, e.kind) ==> Submitted(i) && Submitted(j))
    requires SetsState(n, e.kind) || (About(m, n, e.kind) && !Passing(e.kind))
    ensures var a, b := NodeStep(m, n, e, i), NodeStep(m, n, e, j);
            if SetsState(n, e.kind) || Counts(e.kind, i.state) == Counts(e.kind, j.state) then LikeInfo(a, b)
            else Apart(a, b)
  {
    hide AfterEvent, Submitted, Counts, Apart;
    if About(m, n, e.kind) {
      if Counts(e.kind, i.state) == Counts(e.kind, j.state) {
        AfterEventAlike(i, j, e.time, e.kind);
      } else {
        DecidedApart(i, j, e.time, e.kind);
      }
    }
  }

  // Any other event leaves the states as they are, and the histories alike.
  lemma Undecided(m: map<Proc, Node>, n: Node, e: Event, i: Info, j: Info)
    requires Histories(i) == Histories(j) && (About(m, n, e.kind) ==> Submitted(i) && Submitted(j))
    requires !SetsState(n, e.kind) && (About(m, n, e.kind) ==> Passing(e.kind))
    ensures var a, b := NodeStep(m, n, e, i), NodeStep(m, n, e, j);
            Histories(a) == Histories(b) && a.state == i.state && b.state == j.state
  {
    hide AfterEvent, Submitted, Histories;
    if About(m, n, e.kind) {
      AfterEventAlike(i, j, e.time, e.kind);
    }
  }

  // Two caches in which a node has the same histories, and perhaps different states: after more events the
  // histories are the same if and only if the difference has not shown.
  lemma {:induction false} ShowsExactly(c: Cache, d: Cache, events: seq<Event>, n: Node)
    requires Sound(c) && Sound(d) && Aligned(c, d) && Fold(d, events).Some?
    requires Histories(Known(c, n)) == Histories(Known(d, n))
    ensures Fold(c, events).Some? && Aligned(Fold(c, events).value, Fold(d, events).value)
    ensures Histories(Known(Fold(c, events).value, n)) == Histories(Known(Fold(d, events).value, n))
       <==> !Shows(c.nodeMap, n, Known(c, n).state, Known(d, n).state, events)
    decreases |events|
  {
    hide Step, Sound, Aligned, Known, LikeInfo, Apart, NodeStep, Histories, SetsState, About, Counts, Passing, MapStep;
    if events != [] {
      var e, m, i, j := events[0], c.nodeMap, Known(c, n), Known(d, n);
      AlignedStep(c, d, e);
      AlignedMaps(c, d);
      NodeStepIs(c, e, n);
      NodeStepIs(d, e, n);
      StepSound(c, e);
      StepSound(d, e);
      var c', d', rest := Step(c, e).value, Step(d, e).value, events[1..];
      AlignedMaps(c', d');
      if SetsState(n, e.kind) || (About(m, n, e.kind) && !Passing(e.kind)) {
        Decides(m, n, e, i, j);
        if SetsState(n, e.kind) || Counts(e.kind, i.state) == Counts(e.kind, j.state) {
          FoldAlike(c', d', rest, n);
          AlikeMeans(Known(Fold(c', rest).value, n), Known(Fold(d', rest).value, n));
        } else {
          FoldApart(c', d', rest, n);
          ApartMeans(Known(Fold(c', rest).value, n), Known(Fold(d', rest).value, n));
        }
      } else {
        Undecided(m, n, e, i, j);
        ShowsExactly(c', d', rest, n);
      }
    }
  }

  lemma AlikeMeans(i: Info, j: Info)
    requires LikeInfo(i, j)
    ensures Histories(i) == Histories(j)
  {
  }

  lemma ApartMeans(i: Info, j: Info)
    requires Apart(i, j)
    ensures Histories(i) != Histories(j)
  {
    assert Histories(i) == Histories(j) ==> Histories(i).restarts == Histories(j).restarts;
    assert Histories(i) == Histories(j) ==> Histories(i).startTimes == Histories(j).startTimes;
  }

  // Padding and overlaying touch the state only.
  lemma RefreshKeeps(c: Cache, events: seq<Event>, ads: seq<Ad>, now: real, n: Node)
    requires Sound(c) && Fold(c, events).Some?
    ensures Refresh(c, events, ads, now).Some? && Sound(Refresh(c, events, ads, now).value)
    ensures Refresh(c, events, ads, now).value.nodeMap == Fold(c, events).value.nodeMap
    ensures Fold(c, events).value.nodes.Keys <= Refresh(c, events, ads, now).value.nodes.Keys
    ensures Histories(Known(Refresh(c, events, ads, now).value, n)) == Histories(Known(Fold(c, events).value, n))
  {
    hide Fold, Padded, Sound, Overlay, Histories;
    var f := Fold(c, events).value;
    OverlaySound(PadAll(f, now), ads);
    KnownPadded(f, now, n);
    PaddedHistories(Known(f, n), now);
    OverlayHistories(PadAll(f, now), ads, n);
  }

  lemma {:induction false} OverlayHistories(c: Cache, ads: seq<Ad>, n: Node)
    ensures c.nodes.Keys <= Overlay(c.nodes, ads).Keys
    ensures Histories(Known(c.(nodes := Overlay(c.nodes, ads)), n)) == Histories(Known(c, n))
    decreases |ads|
  {
    if ads != [] {
      var m := ads[0].node;
      var i := if m in c.nodes then c.nodes[m] else DEFAULTS;
      OverlayHistories(c.(nodes := c.nodes[m := Overlaid(i, ads[0])]), ads[1..], n);
    }
  }

  // In no round a difference between the states of the refreshed cache and those of the whole log shows.
  predicate Quiet(c: Cache, d: Cache, rounds: seq<Round>, n: Node)
    requires Sound(c) && Sound(d)
    decreases |rounds|
  {
    if rounds == [] then true
    else
      var r := rounds[0];
      if Refresh(c, r.events, r.ads, r.now).None? || Fold(d, r.events).None? then true
      else
        OverlaySound(Parse(c, r.events, r.now).value, r.ads);
        && !Shows(c.nodeMap, n, Known(c, n).state, Known(d, n).state, r.events)
        && Quiet(Refresh(c, r.events, r.ads, r.now).value, Fold(d, r.events).value, rounds[1..], n)
  }

  // After every round the histories are those of the whole log up to there.
  predicate AgreeAlways(c: Cache, d: Cache, rounds: seq<Round>, n: Node)
    requires Sound(c) && Sound(d)
    decreases |rounds|
  {
    if rounds == [] then true
    else
      var r := rounds[0];
      if Refresh(c, r.events, r.ads, r.now).None? || Fold(d, r.events).None? then true
      else
        OverlaySound(Parse(c, r.events, r.now).value, r.ads);
        var c', d' := Refresh(c, r.events, r.ads, r.now).value, Fold(d, r.events).value;
        Histories(Known(c', n)) == Histories(Known(d', n)) && AgreeAlways(c', d', rounds[1..], n)
  }

  // Run after run of the program, each with any node state file: the histories of a node agree with those of
  // the whole log after every run if and only if no difference in its states shows.
  lemma {:induction false} RefreshesExactly(c: Cache, d: Cache, rounds: seq<Round>, n: Node)
    requires Sound(c) && Sound(d) && Aligned(c, d) && Fold(d, RoundEvents(rounds)).Some?
    requires Histories(Known(c, n)) == Histories(Known(d, n))
    ensures RefreshAll(c, rounds).Some?
    ensures AgreeAlways(c, d, rounds, n) <==> Quiet(c, d, rounds, n)
    decreases |rounds|
  {
    hide Fold, Refresh, Sound, Aligned, Histories, Shows, Known;
    if rounds != [] {
      var r := rounds[0];
      FoldAppend(d, r.events, RoundEvents(rounds[1..]));
      ShowsExactly(c, d, r.events, n);
      RefreshKeeps(c, r.events, r.ads, r.now, n);
      var c', d' := Refresh(c, r.events, r.ads, r.now).value, Fold(d, r.events).value;
      AlignedAfter(Fold(c, r.events).value, c', d');
      if Histories(Known(c', n)) == Histories(Known(d', n)) {
        RefreshesExactly(c', d', rounds[1..], n);
      } else {
        RefreshesRun(c', d', rounds[1..]);
      }
    }
  }

  lemma AlignedAfter(f: Cache, c: Cache, d: Cache)
    requires Aligned(f, d) && c.nodeMap == f.nodeMap && f.nodes.Keys <= c.nodes.Keys
    ensures Aligned(c, d)
  {
  }

  // No node state file makes a run throw that would not have thrown.
  lemma {:induction false} RefreshesRun(c: Cache, d: Cache, rounds: seq<Round>)
    requires Sound(c) && Sound(d) && Aligned(c, d) && Fold(d, RoundEvents(rounds)).Some?
    ensures RefreshAll(c, rounds).Some?
    decreases |rounds|
  {
    hide Fold, Refresh, Sound, Aligned;
    if rounds != [] {
      var r := rounds[0];
      FoldAppend(d, r.events, RoundEvents(rounds[1..]));
      FoldAligned(c, d, r.events);
      RefreshKeeps(c, r.events, r.ads, r.now, "");
      var c', d' := Refresh(c, r.events, r.ads, r.now).value, Fold(d, r.events).value;
      AlignedAfter(Fold(c, r.events).value, c', d');
      RefreshesRun(c', d', rounds[1..]);
    }
  }

  lemma {:induction false} FoldAligned(c: Cache, d: Cache, events: seq<Event>)
    requires Sound(c) && Sound(d) && Aligned(c, d) && Fold(d, events).Some?
    ensures Fold(c, events).Some? && Aligned(Fold(c, events).value, Fold(d, events).value)
    decreases |events|
  {
    hide Step, Sound, Aligned;
    if events != [] {
      AlignedStep(c, d, events[0]);
      StepSound(c, events[0]);
      StepSound(d, events[0]);
      FoldAligned(Step(c, events[0]).value, Step(d, events[0]).value, events[1..]);
    }
  }

  // One checkpoint with a node state file: what comes out in the end is as from the whole log if and only if
  // the overwritten state does not show in the events after it.
  lemma RefreshExactly(c: Cache, x: Round, y: Round, n: Node)
    requires Sound(c) && Fold(c, x.events + y.events).Some?
    ensures Refresh(c, x.events, x.ads, x.now).Some? && Fold(c, x.events).Some? && RefreshAll(c, [x, y]).Some?
    ensures Histories(Known(RefreshAll(c, [x, y]).value, n)) == Histories(Known(Fold(c, x.events + y.events).value, n))
       <==> var p, f := Refresh(c, x.events, x.ads, x.now).value, Fold(c, x.events).value;
            !Shows(f.nodeMap, n, Known(p, n).state, Known(f, n).state, y.events)
  {
    hide Fold, Sound, Aligned, Histories, Shows, Known, Parse, Overlay, RefreshAll;
    FoldAppend(c, x.events, y.events);
    RefreshKeeps(c, x.events, x.ads, x.now, n);
    var p, f := Refresh(c, x.events, x.ads, x.now).value, Fold(c, x.events).value;
    AlignedSelf(f);
    AlignedAfter(f, p, f);
    ShowsExactly(p, f, y.events, n);
    RefreshKeeps(p, y.events, y.ads, y.now, n);
    TwoRounds(c, x, y);
  }

  lemma AlignedSelf(c: Cache)
    ensures Aligned(c, c)
  {
  }

  // It does show: a job that is waiting and that the file says to be unsubmitted counts as
  // restarted when it is evicted.
  lemma OverlaysMatter() returns (a: Event, ad: Ad, b: Event)
    ensures var c := Cache(map[], map[]);
            var runs := RefreshAll(c, [Round([a], [ad], 1.0), Round([b], [], 2.0)]);
            && runs.Some? && Fold(c, [a, b]).Some?
            && Known(runs.value, "1").restarts == 1 && Known(Fold(c, [a, b]).value, "1").restarts == 0
  {
    hide AfterEvent, Padded, RefreshAll, AfterSubmit, Overlaid;
    var proc := (1, 0);
    var c, i := Cache(map[], map[]), AfterSubmit(DEFAULTS, 0.0, proc);
    a, ad := Event(0.0, Submit(Some("1"), proc)), Ad("1", 1, 0, false);
    b := Event(0.0, Evicted(proc, Numbers(None, None)));
    EvictedJob(proc);
    var s := Cache(map["1" := i], map[proc := "1"]);
    FoldOne(c, a);
    assert Step(c, a) == Some(s);
    FoldOne(s, b);
    FoldAppend(c, [a], [b]);
    assert [a, b] == [a] + [b];
    var o := Overlaid(Padded(i, 1.0), ad);
    var p := Cache(map["1" := o], map[proc := "1"]);
    assert PadAll(s, 1.0) == Cache(map["1" := Padded(i, 1.0)], map[proc := "1"]);
    assert Overlay(map["1" := Padded(i, 1.0)], [ad]) == Overlay(map["1" := o], [ad][1..]) == map["1" := o];
    assert Refresh(c, [a], [ad], 1.0) == Some(p);
    FoldOne(p, b);
    var q := PadAll(Fold(p, [b]).value, 2.0);
    assert q.nodes["1"] == Padded(AfterEvent(o, 0.0, b.kind), 2.0);
    assert Refresh(p, [b], [], 2.0) == Some(q);
    TwoRounds(c, Round([a], [ad], 1.0), Round([b], [], 2.0));
  }

  lemma EvictedJob(proc: Proc)
    ensures var i := AfterSubmit(DEFAULTS, 0.0, proc);
            var o := Overlaid(Padded(i, 1.0), Ad("1", 1, 0, false));
            var k := Evicted(proc, Numbers(None, None));
            && Submitted(i) && Submitted(o)
            && AfterEvent(i, 0.0, k).restarts == 0 && Padded(AfterEvent(o, 0.0, k), 2.0).restarts == 1
  {
  }

  lemma TwoRounds(c: Cache, x: Round, y: Round)
    requires Sound(c)
    ensures RefreshAll(c, [x, y])
         == var p := Refresh(c, x.events, x.ads, x.now);
            if p.None? then None
            else (OverlaySound(Parse(c, x.events, x.now).value, x.ads); Refresh(p.value, y.events, y.ads, y.now))
  {
    hide Parse, Overlay;
    assert [x, y][1..] == [y] && [y][1..] == [];
    var p := Refresh(c, x.events, x.ads, x.now);
    if p.Some? {
      OverlaySound(Parse(c, x.events, x.now).value, x.ads);
      var q := Refresh(p.value, y.events, y.ads, y.now);
      if q.Some? {
        OverlaySound(Parse(p.value, y.events, y.now).value, y.ads);
        assert RefreshAll(q.value, []) == q;
      }
      assert RefreshAll(p.value, [y]) == q;
    }
  }
}
