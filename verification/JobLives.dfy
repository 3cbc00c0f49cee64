// The lives of some jobs, for all times, sites and sizes: what the log of a job that runs through, of one that
// is stopped and starts again, and of one that is submitted again leaves in the cache.
module JobLives {
  import opened Canonical
  import opened JobLog

  const EMPTY: Cache := Cache(map[], map[])

  const NO_USAGE := Numbers(None, None)

  // One node, and the jobs that have been submitted for it.
  function One(n: Node, procs: map<Proc, Node>, i: Info): Cache {
    Cache(map[n := i], procs)
  }

  predicate Jobs(n: Node, procs: map<Proc, Node>) {
    forall p <- procs :: procs[p] == n
  }

  lemma OneSound(n: Node, procs: map<Proc, Node>, i: Info)
    requires Submitted(i) && Jobs(n, procs)
    ensures Sound(One(n, procs, i))
  {
    hide Submitted, Even;
    SubmittedEven(i);
  }

  lemma SubmittedEven(i: Info)
    requires Submitted(i)
    ensures Even(i)
  {
  }

  lemma FoldNext(c: Cache, e: Event, d: Cache, rest: seq<Event>)
    requires Sound(c) && Step(c, e) == Some(d)
    ensures Sound(d) && Fold(c, [e] + rest) == Fold(d, rest)
  {
    hide Step, Sound;
    StepSound(c, e);
    assert ([e] + rest)[1..] == rest;
  }

  lemma NewInfo(t: real, proc: Proc)
    ensures var i := Info(Some(Idle), Some(false), 0, 0, [], [0], [t], [], [], [0.0], [0.0], [0.0], [proc]);
            AfterSubmit(DEFAULTS, t, proc) == i && Submitted(i)
  {
  }

  // An event about a job of the node,
  lemma JobStep(n: Node, procs: map<Proc, Node>, i: Info, e: Event, j: Info, events: seq<Event>, rest: seq<Event>)
    requires events == [e] + rest
    requires Submitted(i) && Jobs(n, procs) && AboutJob(e.kind) && e.kind.proc in procs
    requires AfterEvent(i, e.time, e.kind) == j
    ensures Submitted(j) && Sound(One(n, procs, i)) && Sound(One(n, procs, j))
    ensures Fold(One(n, procs, i), events) == Fold(One(n, procs, j), rest)
  {
    hide AfterEvent, Fold, Submitted, Sound;
    AfterEventSound(i, e.time, e.kind);
    OneSound(n, procs, i);
    assert map[n := i][n := j] == map[n := j];
    assert Step(One(n, procs, i), e) == Some(One(n, procs, j));
    FoldNext(One(n, procs, i), e, One(n, procs, j), rest);
  }

  // one about the node itself,
  lemma NodeStep(n: Node, procs: map<Proc, Node>, i: Info, e: Event, j: Info, events: seq<Event>, rest: seq<Event>)
    requires events == [e] + rest
    requires Submitted(i) && Jobs(n, procs) && e.kind.PostScript? && e.kind.node == Some(n)
    requires j == i.(state := Some(PostStatus(e.kind.normally, e.kind.value)))
    ensures Submitted(j) && Sound(One(n, procs, i)) && Sound(One(n, procs, j))
    ensures Fold(One(n, procs, i), events) == Fold(One(n, procs, j), rest)
  {
    hide Fold, Sound, PostStatus;
    OneSound(n, procs, i);
    assert map[n := i][n := j] == map[n := j];
    assert Step(One(n, procs, i), e) == Some(One(n, procs, j));
    FoldNext(One(n, procs, i), e, One(n, procs, j), rest);
  }

  // and a submission, the first one or another one.
  lemma FirstSubmit(n: Node, proc: Proc, t: real, events: seq<Event>, rest: seq<Event>)
    requires events == [Event(t, Submit(Some(n), proc))] + rest
    ensures var i := Info(Some(Idle), Some(false), 0, 0, [], [0], [t], [], [], [0.0], [0.0], [0.0], [proc]);
            && Sound(EMPTY) && Submitted(i) && Sound(One(n, map[proc := n], i))
            && Fold(EMPTY, events) == Fold(One(n, map[proc := n], i), rest)
  {
    hide Fold;
    var i := Info(Some(Idle), Some(false), 0, 0, [], [0], [t], [], [], [0.0], [0.0], [0.0], [proc]);
    NewInfo(t, proc);
    hide AfterSubmit, Submitted, Even;
    OneSound(n, map[proc := n], i);
    assert Step(EMPTY, Event(t, Submit(Some(n), proc))) == Some(One(n, map[proc := n], i));
    FoldNext(EMPTY, Event(t, Submit(Some(n), proc)), One(n, map[proc := n], i), rest);
  }

  lemma NextSubmit(n: Node, procs: map<Proc, Node>, i: Info, proc: Proc, t: real, j: Info, events: seq<Event>,
                   rest: seq<Event>)
    requires events == [Event(t, Submit(Some(n), proc))] + rest
    requires Submitted(i) && Jobs(n, procs) && AfterSubmit(i, t, proc) == j
    ensures Submitted(j) && Sound(One(n, procs, i)) && Sound(One(n, procs[proc := n], j))
    ensures Fold(One(n, procs, i), events) == Fold(One(n, procs[proc := n], j), rest)
  {
    hide Fold;
    OneSound(n, procs, i);
    OneSound(n, procs[proc := n], j);
    assert map[n := i][n := j] == map[n := j];
    var e := Event(t, Submit(Some(n), proc));
    assert Step(One(n, procs, i), e) == Some(One(n, procs[proc := n], j));
    FoldNext(One(n, procs, i), e, One(n, procs[proc := n], j), rest);
  }

  lemma PadOne(n: Node, procs: map<Proc, Node>, i: Info, j: Info, now: real)
    requires Sound(One(n, procs, i)) && Padded(i, now) == j
    ensures Fold(One(n, procs, i), []) == Some(One(n, procs, i))
    ensures PadAll(One(n, procs, i), now) == One(n, procs, j)
  {
    assert PadAll(One(n, procs, i), now).nodes == map[n := j];
  }

  // ---- a job that runs through ----

  // What the log says of it, up to the end of the job.
  function ThroughEvents(p: Proc, start: real, sized: real, end: real, site: string, size: int, times: CpuTimes)
    : seq<Event>
  {
    [Event(start, Execute(p)), Event(sized, AdInformation(p, Some(site), NO_USAGE)),
     Event(sized, ImageSize(p, size, NO_USAGE)), Event(end, Terminated(p, true, 0, Text(Some(times))))]
  }

  lemma Through(n: Node, p: Proc, submit: real, start: real, sized: real, end: real, site: string, size: int,
                times: CpuTimes, rest: seq<Event>)
    requires start > 0.0
    ensures var i := Info(Some(Idle), Some(false), 0, 0, [], [0], [submit], [], [], [0.0], [0.0], [0.0], [p]);
            var j := Info(Some(Transferring), Some(true), 0, 0, [site], [size], [submit], [start], [end],
                          [Seconds(times.user)], [Seconds(times.sys)], [end - start], [p]);
            && Submitted(j) && Sound(One(n, map[p := n], i)) && Sound(One(n, map[p := n], j))
            && Fold(One(n, map[p := n], i), ThroughEvents(p, start, sized, end, site, size, times) + rest)
            == Fold(One(n, map[p := n], j), rest)
  {
    hide Fold, Sound, Seconds;
    var m, es := map[p := n], ThroughEvents(p, start, sized, end, site, size, times);
    var e1, e2, e3, e4 := es[0], es[1], es[2], es[3];
    var u, s := Seconds(times.user), Seconds(times.sys);
    var i := Info(Some(Idle), Some(false), 0, 0, [], [0], [submit], [], [], [0.0], [0.0], [0.0], [p]);
    var i1 := Info(Some(Running), Some(false), 0, 0, [], [0], [submit], [start], [], [0.0], [0.0], [0.0], [p]);
    var i2 := Info(Some(Running), Some(true), 0, 0, [site], [0], [submit], [start], [], [0.0], [0.0], [0.0], [p]);
    var i3 := i2.(residentSetSize := [size], wallDurations := [sized - start]);
    var j := Info(Some(Transferring), Some(true), 0, 0, [site], [size], [submit], [start], [end], [u], [s],
                  [end - start], [p]);
    assert AfterEvent(i, start, e1.kind) == i1;
    assert AfterEvent(i1, sized, e2.kind) == i2;
    assert AfterEvent(i2, sized, e3.kind) == i3;
    assert AfterEvent(i3, end, e4.kind) == j;
    hide AfterEvent, Submitted;
    JobStep(n, m, i, e1, i1, es + rest, [e2, e3, e4] + rest);
    JobStep(n, m, i1, e2, i2, [e2, e3, e4] + rest, [e3, e4] + rest);
    JobStep(n, m, i2, e3, i3, [e3, e4] + rest, [e4] + rest);
    JobStep(n, m, i3, e4, j, [e4] + rest, rest);
  }

  // A job that runs through has one of everything: its site, its size, its CPU times, the wall-clock time
  // from its start to its end, and the state that the post-script gives it.
  lemma RunsThrough(n: Node, p: Proc, submit: real, start: real, sized: real, end: real, later: real, site: string,
                    size: int, user: Clock, sys: Clock, normally: bool, value: int, now: real)
    requires start > 0.0
    ensures Sound(EMPTY)
    ensures Parse(EMPTY, [Event(submit, Submit(Some(n), p))]
                         + ThroughEvents(p, start, sized, end, site, size, CpuTimes(user, sys))
                         + [Event(later, PostScript(Some(n), normally, value))], now)
         == Some(Cache(map[n := Info(Some(if !normally then Cooloff
                                          else if value == 0 then Finished
                                          else if value == 2 then Failed
                                          else Cooloff),
                                     Some(true), 0, 0, [site], [size], [submit], [start], [end],
                                     [(user.hours * 3600 + user.minutes * 60 + user.seconds) as real],
                                     [(sys.hours * 3600 + sys.minutes * 60 + sys.seconds) as real],
                                     [end - start], [p])],
                       map[p := n]))
  {
    hide Fold, Sound, Submitted, Padded, PadAll, ThroughEvents;
    var m, times := map[p := n], CpuTimes(user, sys);
    var es := ThroughEvents(p, start, sized, end, site, size, times);
    var post := Event(later, PostScript(Some(n), normally, value));
    var all := [Event(submit, Submit(Some(n), p))] + es + [post];
    FirstSubmit(n, p, submit, all, es + [post]);
    Through(n, p, submit, start, sized, end, site, size, times, [post]);
    var j := Info(Some(Transferring), Some(true), 0, 0, [site], [size], [submit], [start], [end],
                  [Seconds(user)], [Seconds(sys)], [end - start], [p]);
    var k := j.(state := Some(PostStatus(normally, value)));
    NodeStep(n, m, j, post, k, [post], []);
    NothingToPad(k, now);
    PadOne(n, m, k, k, now);
  }

  lemma NothingToPad(i: Info, now: real)
    requires |i.wallDurations| == |i.siteHistory|
    ensures Padded(i, now) == i
  {
    assert i.wallDurations + [] == i.wallDurations && i.siteHistory + [] == i.siteHistory;
  }

  // ---- a job that is stopped and starts again ----

  // It is evicted from one site, then held at another, released, and aborted before it starts again.
  function StoppedEvents(p: Proc, start: real, evicted: real, again: real, held: real, free: real, end: real,
                         site: string, other: string, user: real, sys: real): seq<Event>
  {
    [Event(start, Execute(p)), Event(start, AdInformation(p, Some(site), NO_USAGE)),
     Event(evicted, Evicted(p, Numbers(Some(sys), Some(user)))), Event(again, Execute(p)),
     Event(again, AdInformation(p, Some(other), NO_USAGE)), Event(held, HeldBack(p, NO_USAGE)),
     Event(free, Released(p)), Event(end, Aborted(p, NO_USAGE))]
  }

  lemma UpToEviction(n: Node, p: Proc, submit: real, start: real, evicted: real, site: string, user: real, sys: real,
                     events: seq<Event>, rest: seq<Event>)
    requires events == [Event(start, Execute(p)), Event(start, AdInformation(p, Some(site), NO_USAGE)),
                        Event(evicted, Evicted(p, Numbers(Some(sys), Some(user))))] + rest
    ensures var i := Info(Some(Idle), Some(false), 0, 0, [], [0], [submit], [], [], [0.0], [0.0], [0.0], [p]);
            var j := Info(Some(Idle), Some(true), 0, 1, [site], [0, 0], [submit, -1.0], [start], [evicted],
                          [user, 0.0], [sys, 0.0], [evicted - start, 0.0], [p, p]);
            && Submitted(j) && Sound(One(n, map[p := n], i)) && Sound(One(n, map[p := n], j))
            && Fold(One(n, map[p := n], i), events) == Fold(One(n, map[p := n], j), rest)
  {
    hide Fold, Sound;
    var m, e1, e2, e3 := map[p := n], events[0], events[1], events[2];
    var i := Info(Some(Idle), Some(false), 0, 0, [], [0], [submit], [], [], [0.0], [0.0], [0.0], [p]);
    var i1 := i.(startTimes := [start], state := Some(Running));
    var i2 := i1.(siteHistory := [site], recordedSite := Some(true));
    var j := Info(Some(Idle), Some(true), 0, 1, [site], [0, 0], [submit, -1.0], [start], [evicted],
                  [user, 0.0], [sys, 0.0], [evicted - start, 0.0], [p, p]);
    assert AfterEvent(i, start, e1.kind) == i1;
    assert AfterEvent(i1, start, e2.kind) == i2;
    assert AfterEvent(i2, evicted, e3.kind) == j;
    hide AfterEvent, Submitted;
    JobStep(n, m, i, e1, i1, events, [e2, e3] + rest);
    JobStep(n, m, i1, e2, i2, [e2, e3] + rest, [e3] + rest);
    JobStep(n, m, i2, e3, j, [e3] + rest, rest);
  }

  // From any state of that kind on.
  lemma FromEviction(n: Node, p: Proc, i: Info, w: real, again: real, held: real, free: real, end: real,
                     other: string, events: seq<Event>, j: Info)
    requires Submitted(i) && i.state == Some(Idle) && |i.wallDurations| == 2 && |i.siteHistory| == 1
    requires |i.jobIds| == 2 && i.wallDurations == [w, 0.0] && i.jobIds[1] == p
    requires events == [Event(again, Execute(p)), Event(again, AdInformation(p, Some(other), NO_USAGE)),
                        Event(held, HeldBack(p, NO_USAGE)), Event(free, Released(p)),
                        Event(end, Aborted(p, NO_USAGE))]
    requires j == i.(state := Some(Killed), recordedSite := Some(true), restarts := i.restarts + 1,
                     siteHistory := i.siteHistory + [other], residentSetSize := i.residentSetSize + [0],
                     submitTimes := i.submitTimes + [-1.0], startTimes := i.startTimes + [again, -1.0],
                     endTimes := i.endTimes + [held], userCpu := i.userCpu + [0.0], sysCpu := i.sysCpu + [0.0],
                     wallDurations := [w, held - again, 0.0], jobIds := i.jobIds + [p])
    ensures Sound(One(n, map[p := n], i)) && Submitted(j) && Sound(One(n, map[p := n], j))
    ensures Fold(One(n, map[p := n], i), events) == Fold(One(n, map[p := n], j), [])
  {
    hide Fold, Sound;
    var m, e1, e2, e3, e4, e5 := map[p := n], events[0], events[1], events[2], events[3], events[4];
    var i1 := i.(startTimes := i.startTimes + [again], state := Some(Running), recordedSite := Some(false));
    var i2 := i1.(siteHistory := i.siteHistory + [other], recordedSite := Some(true));
    var i3 := j.(state := Some(Held), startTimes := i.startTimes + [again]);
    var i4 := i3.(state := Some(Idle));
    assert AfterEvent(i, again, e1.kind) == i1;
    assert AfterEvent(i1, again, e2.kind) == i2;
    assert AfterEvent(i2, held, e3.kind) == i3;
    assert AfterEvent(i3, free, e4.kind) == i4;
    assert i.startTimes + [again] + [-1.0] == i.startTimes + [again, -1.0];
    assert AfterEvent(i4, end, e5.kind) == j;
    hide AfterEvent, Submitted;
    JobStep(n, m, i, e1, i1, events, [e2, e3, e4, e5]);
    JobStep(n, m, i1, e2, i2, [e2, e3, e4, e5], [e3, e4, e5]);
    JobStep(n, m, i2, e3, i3, [e3, e4, e5], [e4, e5]);
    JobStep(n, m, i3, e4, i4, [e4, e5], [e5]);
    JobStep(n, m, i4, e5, j, [e5], []);
  }

  // Such a job has one entry for each time that it was put in the queue, of which the last two have no time of
  // submission of their own; each run has its wall-clock time, the last entry none; and the last start is
  // not known. The site that is missing is filled in at the end of the call.
  lemma StopsAndStarts(n: Node, p: Proc, submit: real, start: real, evicted: real, again: real, held: real,
                       free: real, end: real, site: string, other: string, user: real, sys: real, now: real)
    ensures Sound(EMPTY)
    ensures Parse(EMPTY, [Event(submit, Submit(Some(n), p))]
                         + StoppedEvents(p, start, evicted, again, held, free, end, site, other, user, sys), now)
         == Some(Cache(map[n := Info(Some(Killed), Some(true), 0, 2, [site, other, "Unknown"], [0, 0, 0],
                                     [submit, -1.0, -1.0], [start, again, -1.0], [evicted, held],
                                     [user, 0.0, 0.0], [sys, 0.0, 0.0], [evicted - start, held - again, 0.0],
                                     [p, p, p])],
                       map[p := n]))
  {
    hide Fold, Sound, Submitted, PadAll;
    var m := map[p := n];
    var es := StoppedEvents(p, start, evicted, again, held, free, end, site, other, user, sys);
    var all := [Event(submit, Submit(Some(n), p))] + es;
    FirstSubmit(n, p, submit, all, es);
    var j := Info(Some(Idle), Some(true), 0, 1, [site], [0, 0], [submit, -1.0], [start], [evicted],
                  [user, 0.0], [sys, 0.0], [evicted - start, 0.0], [p, p]);
    var k := Info(Some(Killed), Some(true), 0, 2, [site, other], [0, 0, 0], [submit, -1.0, -1.0],
                  [start, again, -1.0], [evicted, held], [user, 0.0, 0.0], [sys, 0.0, 0.0],
                  [evicted - start, held - again, 0.0], [p, p, p]);
    var rest := es[3..];
    UpToEviction(n, p, submit, start, evicted, site, user, sys, es, rest);
    FromEviction(n, p, j, evicted - start, again, held, free, end, other, rest, k);
    PadOne(n, m, k, k.(siteHistory := [site, other, "Unknown"]), now);
  }

  // Out of the queue nothing more is noted: neither another eviction nor another site counts; and a job that
  // is aborted while it runs keeps its start, and the site of that start is filled in.
  lemma EvictedTwice(n: Node, p: Proc, submit: real, start: real, evicted: real, twice: real, again: real, end: real,
                     site: string, other: string, user: real, sys: real, now: real)
    ensures Sound(EMPTY)
    ensures Parse(EMPTY, [Event(submit, Submit(Some(n), p)), Event(start, Execute(p)),
                          Event(start, AdInformation(p, Some(site), NO_USAGE)),
                          Event(evicted, Evicted(p, Numbers(Some(sys), Some(user)))),
                          Event(twice, AdInformation(p, Some(other), NO_USAGE)),
                          Event(twice, Evicted(p, Numbers(Some(sys), Some(user)))),
                          Event(again, Execute(p)), Event(end, Aborted(p, NO_USAGE))], now)
         == Some(Cache(map[n := Info(Some(Killed), Some(false), 0, 1, [site, "Unknown"], [0, 0], [submit, -1.0],
                                     [start, again], [evicted], [user, 0.0], [sys, 0.0],
                                     [evicted - start, 0.0], [p, p])],
                       map[p := n]))
  {
    hide Fold, Sound, PadAll;
    var m := map[p := n];
    var e0, e1, e2 := Event(submit, Submit(Some(n), p)), Event(start, Execute(p)),
                      Event(start, AdInformation(p, Some(site), NO_USAGE));
    var e3, e4 := Event(evicted, Evicted(p, Numbers(Some(sys), Some(user)))),
                  Event(twice, AdInformation(p, Some(other), NO_USAGE));
    var e5, e6, e7 := Event(twice, Evicted(p, Numbers(Some(sys), Some(user)))), Event(again, Execute(p)),
                      Event(end, Aborted(p, NO_USAGE));
    FirstSubmit(n, p, submit, [e0, e1, e2, e3, e4, e5, e6, e7], [e1, e2, e3, e4, e5, e6, e7]);
    var j := Info(Some(Idle), Some(true), 0, 1, [site], [0, 0], [submit, -1.0], [start], [evicted],
                  [user, 0.0], [sys, 0.0], [evicted - start, 0.0], [p, p]);
    var j1 := j.(startTimes := [start, again], state := Some(Running), recordedSite := Some(false));
    var k := j1.(state := Some(Killed));
    UpToEviction(n, p, submit, start, evicted, site, user, sys, [e1, e2, e3, e4, e5, e6, e7], [e4, e5, e6, e7]);
    assert AfterEvent(j, twice, e4.kind) == j;
    assert AfterEvent(j, twice, e5.kind) == j;
    assert AfterEvent(j, again, e6.kind) == j1;
    assert AfterEvent(j1, end, e7.kind) == k;
    hide AfterEvent, Submitted;
    JobStep(n, m, j, e4, j, [e4, e5, e6, e7], [e5, e6, e7]);
    JobStep(n, m, j, e5, j, [e5, e6, e7], [e6, e7]);
    JobStep(n, m, j, e6, j1, [e6, e7], [e7]);
    JobStep(n, m, j1, e7, k, [e7], []);
    PadOne(n, m, k, k.(siteHistory := [site, "Unknown"]), now);
  }

  // Two starts without an eviction between them: two sites and one wall-clock time, which is zero; at the end
  // of the call the time since the last start is filled in, if that is known.
  lemma StartsTwice(n: Node, p: Proc, submit: real, start: real, again: real, site: string, other: string, now: real)
    ensures Sound(EMPTY)
    ensures Parse(EMPTY, [Event(submit, Submit(Some(n), p)), Event(start, Execute(p)),
                          Event(start, AdInformation(p, Some(site), NO_USAGE)), Event(again, Execute(p)),
                          Event(again, AdInformation(p, Some(other), NO_USAGE))], now)
         == Some(Cache(map[n := Info(Some(Running), Some(true), 0, 0, [site, other], [0], [submit], [start, again],
                                     [], [0.0], [0.0], [0.0, if again > 0.0 then now - again else 0.0], [p])],
                       map[p := n]))
  {
    hide Fold, Sound, PadAll;
    var m := map[p := n];
    var e1, e2 := Event(start, Execute(p)), Event(start, AdInformation(p, Some(site), NO_USAGE));
    var e3, e4 := Event(again, Execute(p)), Event(again, AdInformation(p, Some(other), NO_USAGE));
    FirstSubmit(n, p, submit, [Event(submit, Submit(Some(n), p)), e1, e2, e3, e4], [e1, e2, e3, e4]);
    var i := Info(Some(Idle), Some(false), 0, 0, [], [0], [submit], [], [], [0.0], [0.0], [0.0], [p]);
    var i1 := i.(startTimes := [start], state := Some(Running));
    var i2 := i1.(siteHistory := [site], recordedSite := Some(true));
    var i3 := i2.(startTimes := [start, again], recordedSite := Some(false));
    var j := i3.(siteHistory := [site, other], recordedSite := Some(true));
    assert AfterEvent(i, start, e1.kind) == i1;
    assert AfterEvent(i1, start, e2.kind) == i2;
    assert AfterEvent(i2, again, e3.kind) == i3;
    assert AfterEvent(i3, again, e4.kind) == j;
    hide AfterEvent, Submitted;
    JobStep(n, m, i, e1, i1, [e1, e2, e3, e4], [e2, e3, e4]);
    JobStep(n, m, i1, e2, i2, [e2, e3, e4], [e3, e4]);
    JobStep(n, m, i2, e3, i3, [e3, e4], [e4]);
    JobStep(n, m, i3, e4, j, [e4], []);
    PadOne(n, m, j, j.(wallDurations := [0.0, if again > 0.0 then now - again else 0.0]), now);
  }

  // ---- a job that is submitted again ----

  // A job whose start is not in the log and that fails, and that is submitted again as another one: the
  // retries count the submissions, and the wall-clock time is zero.
  lemma SubmittedAgain(n: Node, p: Proc, q: Proc, submit: real, end: real, post: real, next: real, value: int,
                       now: real)
    requires value != 0
    ensures Sound(EMPTY)
    ensures Parse(EMPTY, [Event(submit, Submit(Some(n), p)), Event(end, Terminated(p, true, value, NO_USAGE)),
                          Event(post, PostScript(Some(n), true, 1)), Event(next, Submit(Some(n), q))], now)
         == Some(Cache(map[n := Info(Some(Idle), Some(false), 1, 0, ["Unknown", "Unknown"], [0, 0], [submit, next],
                                     [], [end], [0.0, 0.0], [0.0, 0.0], [0.0, 0.0], [p, q])],
                       map[p := n, q := n]))
  {
    hide Fold, Sound, PadAll;
    var m, e1, e2, e3 := map[p := n], Event(end, Terminated(p, true, value, NO_USAGE)),
                         Event(post, PostScript(Some(n), true, 1)), Event(next, Submit(Some(n), q));
    FirstSubmit(n, p, submit, [Event(submit, Submit(Some(n), p)), e1, e2, e3], [e1, e2, e3]);
    var i := Info(Some(Idle), Some(false), 0, 0, [], [0], [submit], [], [], [0.0], [0.0], [0.0], [p]);
    var i1 := i.(state := Some(Cooloff), endTimes := [end]);
    var j := Info(Some(Idle), Some(false), 1, 0, [], [0, 0], [submit, next], [], [end], [0.0, 0.0], [0.0, 0.0],
                  [0.0, 0.0], [p, q]);
    assert AfterEvent(i, end, e1.kind) == i1;
    assert AfterSubmit(i1, next, q) == j;
    hide AfterEvent, AfterSubmit, Submitted;
    JobStep(n, m, i, e1, i1, [e1, e2, e3], [e2, e3]);
    NodeStep(n, m, i1, e2, i1, [e2, e3], [e3]);
    NextSubmit(n, m, i1, q, next, j, [e3], []);
    PadOne(n, m[q := n], j, j.(siteHistory := ["Unknown", "Unknown"]), now);
  }

  // ---- the node state file ----

  // The state of a node that the file names, in words: s is the one before.
  function StateByFile(s: Option<Status>, status: int, retry: int, notIdle: bool): Option<Status> {
    match status
    case 1 => if s == Some(Transferring) || s == Some(Cooloff) then Some(Cooloff) else Some(Unsubmitted)
    case 2 => Some(if retry == 0 then Unsubmitted else Cooloff)
    case 3 => if s.Some? then s else Some(if notIdle then Running else Idle)
    case 4 => Some(if s == Some(Cooloff) then Cooloff else Transferring)
    case 5 => Some(Finished)
    case 6 => Some(Failed)
    case _ => s
  }

  // After a run of the program each node that the file names has the state that the file gives it, over that
  // which the log has given it, and a node that it does not name the one of the log.
  lemma StatesOfFile(c: Cache, events: seq<Event>, ads: seq<Ad>, now: real, n: Node)
    requires Sound(c) && Distinct(ads) && Refresh(c, events, ads, now).Some?
    ensures var before, after := Parse(c, events, now).value.nodes, Refresh(c, events, ads, now).value.nodes;
            && (forall i :: 0 <= i < |ads| && ads[i].node == n ==>
                  && n in after
                  && after[n].state == StateByFile(if n in before then before[n].state else None,
                                                   ads[i].status, ads[i].retry, ads[i].notIdle))
            && ((forall i :: 0 <= i < |ads| ==> ads[i].node != n) ==>
                  (n in after <==> n in before) && (n in after ==> after[n] == before[n]))
  {
    hide Overlay, Parse, Sound;
    var before := Parse(c, events, now).value.nodes;
    forall i | 0 <= i < |ads| && ads[i].node == n
      ensures n in Overlay(before, ads)
      ensures Overlay(before, ads)[n].state
           == StateByFile(if n in before then before[n].state else None, ads[i].status, ads[i].retry, ads[i].notIdle)
    {
      OverlayHere(before, ads, i);
    }
    if forall i :: 0 <= i < |ads| ==> ads[i].node != n {
      OverlayElse(before, ads, n);
    }
  }
}
