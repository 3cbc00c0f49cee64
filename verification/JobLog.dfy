// The job-log cache of the scheduler, cache_status.py: the events of HTCondor, folded into histories that
// are kept per node of the DAG and taken up again at the next checkpoint.
module JobLog {
  import opened Canonical

  type Node = string
  type Proc = (int, int)

  datatype Status = Idle | Running | Transferring | Cooloff | Finished | Failed | Killed | Held | Unsubmitted

  // What is known of a job. The histories have one entry for each submission or restart.
  datatype Info = Info(state: Option<Status>, recordedSite: Option<bool>, retries: int, restarts: nat,
                       siteHistory: seq<string>, residentSetSize: seq<int>, submitTimes: seq<real>,
                       startTimes: seq<real>, endTimes: seq<real>, userCpu: seq<real>, sysCpu: seq<real>,
                       wallDurations: seq<real>, jobIds: seq<Proc>)

  // NODE_DEFAULTS
  const DEFAULTS := Info(None, None, 0, 0, [], [], [], [], [], [], [], [], [])

  datatype Clock = Clock(hours: nat, minutes: nat, seconds: nat)

  datatype CpuTimes = CpuTimes(user: Clock, sys: Clock)

  // What an event says about CPU times: a text that is read or not, or two numbers that may be missing.
  datatype Usage = Text(read: Option<CpuTimes>) | Numbers(sys: Option<real>, user: Option<real>)

  // An event, as classified by its type and by the patterns for node names. A site is given only if the
  // event names one.
  datatype Kind =
    | Submit(node: Option<Node>, proc: Proc)
    | Execute(proc: Proc)
    | Terminated(proc: Proc, normally: bool, value: int, usage: Usage)
    | PostScript(node: Option<Node>, normally: bool, value: int)
    | Evicted(proc: Proc, usage: Usage)
    | Aborted(proc: Proc, usage: Usage)
    | HeldBack(proc: Proc, usage: Usage)
    | Released(proc: Proc)
    | AdInformation(proc: Proc, site: Option<string>, usage: Usage)
    | ImageSize(proc: Proc, size: int, usage: Usage)
    | Other

  datatype Event = Event(time: real, kind: Kind)

  datatype Cache = Cache(nodes: map<Node, Info>, nodeMap: map<Proc, Node>)

  // ---- one event ----

  // Puts a value in the last place.
  function Last<T>(s: seq<T>, v: T): (r: seq<T>)
    requires s != []
    ensures |r| == |s|
  {
    s[|s| - 1 := v]
  }

  // The histories that grow together have the same length.
  predicate Even(i: Info) {
    && |i.submitTimes| == |i.jobIds| == |i.residentSetSize| == |i.userCpu| == |i.sysCpu|
    && |i.submitTimes| <= |i.wallDurations|
  }

  // A job that has been submitted: its last entries are there.
  predicate Submitted(i: Info) {
    Even(i) && i.submitTimes != [] && i.state.Some? && i.recordedSite.Some?
  }

  function Seconds(c: Clock): real {
    (3600 * c.hours + 60 * c.minutes + c.seconds) as real
  }

  // insertCpu
  function WithCpu(i: Info, u: Usage): (r: Info)
    requires Submitted(i)
    ensures Submitted(r) && |r.submitTimes| == |i.submitTimes|
  {
    match u
    case Text(None) => i
    case Text(Some(t)) => i.(userCpu := Last(i.userCpu, Seconds(t.user)), sysCpu := Last(i.sysCpu, Seconds(t.sys)))
    case Numbers(sys, user) =>
      i.(sysCpu := if sys.Some? then Last(i.sysCpu, sys.value) else i.sysCpu,
         userCpu := if user.Some? then Last(i.userCpu, user.value) else i.userCpu)
  }

  function AfterSubmit(i: Info, t: real, proc: Proc): Info {
    i.(state := Some(Idle), jobIds := i.jobIds + [proc], recordedSite := Some(false),
       submitTimes := i.submitTimes + [t], userCpu := i.userCpu + [0.0], sysCpu := i.sysCpu + [0.0],
       wallDurations := i.wallDurations + [0.0],
       residentSetSize := i.residentSetSize + [0], retries := |i.submitTimes|)
  }

  // The time since the last start, in the last place.
  function Timed(i: Info, t: real): (r: Info)
    requires Submitted(i)
    ensures Submitted(r)
  {
    if i.startTimes == [] then i
    else i.(wallDurations := Last(i.wallDurations, t - i.startTimes[|i.startTimes| - 1]))
  }

  function Ended(i: Info, t: real): (r: Info)
    requires Submitted(i)
    ensures Submitted(r)
  {
    Timed(i.(endTimes := i.endTimes + [t]), t)
  }

  // The job stops running, but goes on in its next place: everything gets one more entry.
  function Restarted(i: Info, t: real, u: Usage): (r: Info)
    requires Submitted(i)
    ensures Submitted(r) && |r.submitTimes| == |i.submitTimes| + 1 && r.restarts == i.restarts + 1
  {
    var j := WithCpu(Ended(i, t), u);
    j.(userCpu := j.userCpu + [0.0], sysCpu := j.sysCpu + [0.0], wallDurations := j.wallDurations + [0.0],
       residentSetSize := j.residentSetSize + [0], submitTimes := j.submitTimes + [-1.0],
       jobIds := j.jobIds + [j.jobIds[|j.jobIds| - 1]], restarts := j.restarts + 1)
  }

  // The end of a job; its start need not be in the log.
  function Measured(i: Info, t: real): (r: Info)
    requires Submitted(i)
    ensures Submitted(r)
  {
    var started := i.startTimes != [] && i.startTimes[|i.startTimes| - 1] > 0.0;
    var wall := if started then t - i.startTimes[|i.startTimes| - 1] else 0.0;
    i.(endTimes := i.endTimes + [t], wallDurations := Last(i.wallDurations, wall))
  }

  function Stopped(i: Info): (r: Info)
    requires Submitted(i)
    ensures Submitted(r)
  {
    var waiting := i.state == Some(Idle) || i.state == Some(Held);
    i.(startTimes := if waiting then i.startTimes + [-1.0] else i.startTimes,
       siteHistory := if waiting && i.recordedSite == Some(false) then i.siteHistory + ["Unknown"] else i.siteHistory,
       state := Some(Killed))
  }

  function Placed(i: Info, site: Option<string>): (r: Info)
    requires Submitted(i)
    ensures Submitted(r)
  {
    if i.recordedSite == Some(false) && site.Some?
    then i.(siteHistory := i.siteHistory + [site.value], recordedSite := Some(true)) else i
  }

  function Sized(i: Info, t: real, size: int): (r: Info)
    requires Submitted(i)
    ensures Submitted(r)
  {
    Timed(i.(residentSetSize := Last(i.residentSetSize, size)), t)
  }

  // What an event about a submitted job makes of it.
  function AfterEvent(i: Info, t: real, k: Kind): Info
    requires Submitted(i)
  {
    match k
    case Execute(_) => i.(startTimes := i.startTimes + [t], state := Some(Running), recordedSite := Some(false))
    case Terminated(_, normally, value, u) =>
      WithCpu(Measured(i, t), u).(state := Some(if normally && value == 0 then Transferring else Cooloff))
    case Evicted(_, u) => if i.state == Some(Idle) then i else Restarted(i, t, u).(state := Some(Idle))
    case Aborted(_, u) => WithCpu(Stopped(i), u)
    case HeldBack(_, u) => (if i.state == Some(Running) then Restarted(i, t, u) else i).(state := Some(Held))
    case Released(_) => i.(state := Some(Idle))
    case AdInformation(_, site, u) => WithCpu(Placed(i, site), u)
    case ImageSize(_, size, u) => WithCpu(Sized(i, t, size), u)
    case _ => i
  }

  function PostStatus(normally: bool, value: int): Status {
    if normally && value == 0 then Finished else if normally && value == 2 then Failed else Cooloff
  }

  // The event is about a job of its own, which must have been submitted.
  predicate AboutJob(k: Kind) {
    !k.Submit? && !k.PostScript? && !k.Other?
  }

  // Every job in the map has been submitted; and where a job has not been, its histories are even all the
  // same.
  ghost predicate Sound(c: Cache) {
    && (forall p <- c.nodeMap :: c.nodeMap[p] in c.nodes && Submitted(c.nodes[c.nodeMap[p]]))
    && (forall n <- c.nodes :: Even(c.nodes[n]))
  }

  function Known(c: Cache, n: Node): Info {
    if n in c.nodes then c.nodes[n] else DEFAULTS
  }

  // None is the KeyError for a job or a node that has never been submitted.
  function Step(c: Cache, e: Event): (r: Option<Cache>)
    requires Sound(c)
  {
    match e.kind
    case Submit(None, _) => Some(c)
    case Submit(Some(n), proc) =>
      Some(Cache(c.nodes[n := AfterSubmit(Known(c, n), e.time, proc)], c.nodeMap[proc := n]))
    case PostScript(None, _, _) => Some(c)
    case PostScript(Some(n), normally, value) =>
      if n !in c.nodes then None
      else Some(c.(nodes := c.nodes[n := c.nodes[n].(state := Some(PostStatus(normally, value)))]))
    case Other => Some(c)
    case k =>
      if k.proc !in c.nodeMap then None
      else
        var n := c.nodeMap[k.proc];
        Some(c.(nodes := c.nodes[n := AfterEvent(c.nodes[n], e.time, k)]))
  }

  lemma AfterEventSound(i: Info, t: real, k: Kind)
    requires Submitted(i)
    ensures Submitted(AfterEvent(i, t, k))
    ensures var r := AfterEvent(i, t, k);
            |r.submitTimes| - r.restarts == |i.submitTimes| - i.restarts && r.retries == i.retries
  {
  }

  lemma UpdateSound(c: Cache, n: Node, i: Info)
    requires Sound(c) && Even(i) && (n in c.nodes && Submitted(c.nodes[n]) ==> Submitted(i))
    ensures Sound(c.(nodes := c.nodes[n := i]))
  {
    hide Even;
  }

  lemma SubmitSound(c: Cache, n: Node, t: real, proc: Proc)
    requires Sound(c)
    ensures Submitted(AfterSubmit(Known(c, n), t, proc))
  {
  }

  lemma StatusEven(i: Info, s: Status)
    requires Even(i)
    ensures Even(i.(state := Some(s)))
  {
  }

  lemma StepSound(c: Cache, e: Event)
    requires Sound(c) && Step(c, e).Some?
    ensures Sound(Step(c, e).value)
  {
    hide AfterEvent, AfterSubmit, Even;
    match e.kind
    case Submit(Some(n), proc) =>
      SubmitSound(c, n, e.time, proc);
      var i := AfterSubmit(Known(c, n), e.time, proc);
      UpdateSound(c, n, i);
      var d := c.(nodes := c.nodes[n := i]);
      assert forall p <- d.nodeMap[proc := n] :: p == proc || p in d.nodeMap;
    case PostScript(Some(n), normally, value) =>
      StatusEven(c.nodes[n], PostStatus(normally, value));
      UpdateSound(c, n, c.nodes[n].(state := Some(PostStatus(normally, value))));
    case Submit(None, _) =>
    case PostScript(None, _, _) =>
    case Other =>
    case k =>
      var n := c.nodeMap[k.proc];
      AfterEventSound(c.nodes[n], e.time, k);
      UpdateSound(c, n, AfterEvent(c.nodes[n], e.time, k));
  }

  // ---- many events, and the end of a call ----

  function Fold(c: Cache, events: seq<Event>): (r: Option<Cache>)
    requires Sound(c)
    ensures r.Some? ==> Sound(r.value)
    decreases |events|
  {
    if events == [] then Some(c)
    else
      var s := Step(c, events[0]);
      if s.None? then None else StepSound(c, events[0]); Fold(s.value, events[1..])
  }

  function Copies<T>(n: int, v: T): (r: seq<T>)
    ensures |r| == if n > 0 then n else 0
  {
    if n <= 0 then [] else seq(n, _ => v)
  }

  // The wall-clock time that is filled in for a job.
  function Filler(i: Info, now: real): real {
    var start := if i.startTimes != [] then i.startTimes[|i.startTimes| - 1] else now;
    if start > 0.0 then now - start else 0.0
  }

  // At the end of a call the shorter of the two histories that need not be even is filled up.
  function Padded(i: Info, now: real): (r: Info)
    ensures |r.wallDurations| == |r.siteHistory|
    ensures |r.wallDurations| >= |i.wallDurations|
  {
    i.(wallDurations := i.wallDurations + Copies(|i.siteHistory| - |i.wallDurations|, Filler(i, now)),
       siteHistory := i.siteHistory + Copies(|i.wallDurations| - |i.siteHistory|, "Unknown"))
  }

  function PadAll(c: Cache, now: real): (r: Cache)
    requires Sound(c)
    ensures Sound(r)
  {
    c.(nodes := map n | n in c.nodes :: Padded(c.nodes[n], now))
  }

  // parseJobLog as a whole.
  function Parse(c: Cache, events: seq<Event>, now: real): (r: Option<Cache>)
    requires Sound(c)
    ensures r.Some? ==> Sound(r.value)
  {
    var f := Fold(c, events);
    if f.None? then None else Some(PadAll(f.value, now))
  }

  // ---- checkpoints ----

  // All but the histories of sites and of wall-clock times.
  function Core(i: Info): Info {
    i.(siteHistory := [], wallDurations := [])
  }

  ghost predicate Same(c: Cache, d: Cache) {
    && c.nodeMap == d.nodeMap && c.nodes.Keys == d.nodes.Keys
    && forall n <- c.nodes :: Core(c.nodes[n]) == Core(d.nodes[n])
  }

  ghost predicate SameResult(c: Option<Cache>, d: Option<Cache>) {
    if c.None? then d.None? else d.Some? && Same(c.value, d.value)
  }

  lemma WithCpuSame(i: Info, j: Info, u: Usage)
    requires Submitted(i) && Submitted(j) && Core(i) == Core(j)
    ensures Core(WithCpu(i, u)) == Core(WithCpu(j, u))
  {
    hide Last;
  }

  lemma RestartedSame(i: Info, j: Info, t: real, u: Usage)
    requires Submitted(i) && Submitted(j) && Core(i) == Core(j)
    ensures Core(Restarted(i, t, u)) == Core(Restarted(j, t, u))
  {
    hide Last, WithCpu;
    WithCpuSame(Ended(i, t), Ended(j, t), u);
  }

  // What an event does to the core depends on the core only.
  lemma AfterEventSame(i: Info, j: Info, t: real, k: Kind)
    requires Submitted(i) && Submitted(j) && Core(i) == Core(j)
    ensures Core(AfterEvent(i, t, k)) == Core(AfterEvent(j, t, k))
  {
    hide Last, WithCpu, Restarted;
    match k
    case Evicted(_, u) => RestartedSame(i, j, t, u);
    case HeldBack(_, u) => RestartedSame(i, j, t, u);
    case Terminated(_, _, _, u) => WithCpuSame(Measured(i, t), Measured(j, t), u);
    case Aborted(_, u) => WithCpuSame(Stopped(i), Stopped(j), u);
    case AdInformation(_, site, u) => WithCpuSame(Placed(i, site), Placed(j, site), u);
    case ImageSize(_, size, u) => WithCpuSame(Sized(i, t, size), Sized(j, t, size), u);
    case _ =>
  }

  lemma UpdateSame(c: Cache, d: Cache, n: Node, i: Info, j: Info)
    requires Same(c, d) && Core(i) == Core(j)
    ensures Same(c.(nodes := c.nodes[n := i]), d.(nodes := d.nodes[n := j]))
  {
    hide Core;
  }

  lemma SubmitSame(i: Info, j: Info, t: real, proc: Proc)
    requires Core(i) == Core(j)
    ensures Core(AfterSubmit(i, t, proc)) == Core(AfterSubmit(j, t, proc))
  {
  }

  lemma StatusSame(i: Info, j: Info, s: Status)
    requires Core(i) == Core(j)
    ensures Core(i.(state := Some(s))) == Core(j.(state := Some(s)))
  {
  }

  lemma StepSame(c: Cache, d: Cache, e: Event)
    requires Sound(c) && Sound(d) && Same(c, d)
    ensures SameResult(Step(c, e), Step(d, e))
  {
    hide AfterEvent, AfterSubmit, Core, Submitted, Even;
    match e.kind
    case Submit(Some(n), proc) =>
      var i, j := Known(c, n), Known(d, n);
      SubmitSame(i, j, e.time, proc);
      UpdateSame(c, d, n, AfterSubmit(i, e.time, proc), AfterSubmit(j, e.time, proc));
    case PostScript(Some(n), normally, value) =>
      if n in c.nodes {
        var s := PostStatus(normally, value);
        StatusSame(c.nodes[n], d.nodes[n], s);
        UpdateSame(c, d, n, c.nodes[n].(state := Some(s)), d.nodes[n].(state := Some(s)));
      }
    case Submit(None, _) =>
    case PostScript(None, _, _) =>
    case Other =>
    case k =>
      if k.proc in c.nodeMap {
        var n := c.nodeMap[k.proc];
        AfterEventSame(c.nodes[n], d.nodes[n], e.time, k);
        UpdateSame(c, d, n, AfterEvent(c.nodes[n], e.time, k), AfterEvent(d.nodes[n], e.time, k));
      }
  }

  lemma {:induction false} FoldSame(c: Cache, d: Cache, events: seq<Event>)
    requires Sound(c) && Sound(d) && Same(c, d)
    ensures SameResult(Fold(c, events), Fold(d, events))
    decreases |events|
  {
    hide Step, Sound, Same;
    if events != [] {
      StepSame(c, d, events[0]);
      var s, t := Step(c, events[0]), Step(d, events[0]);
      if s.Some? {
        StepSound(c, events[0]);
        StepSound(d, events[0]);
        FoldSame(s.value, t.value, events[1..]);
      }
    }
  }

  lemma {:induction false} FoldAppend(c: Cache, a: seq<Event>, b: seq<Event>)
    requires Sound(c)
    ensures Fold(c, a + b) == var f := Fold(c, a); if f.None? then None else Fold(f.value, b)
    decreases |a|
  {
    hide Step, Sound;
    if a == [] {
      assert a + b == b;
    } else {
      assert (a + b)[1..] == a[1..] + b;
      if Step(c, a[0]).Some? {
        StepSound(c, a[0]);
        FoldAppend(Step(c, a[0]).value, a[1..], b);
      }
    }
  }

  lemma PadSame(c: Cache, d: Cache, now: real)
    requires Sound(c) && Same(c, d)
    ensures Same(PadAll(c, now), d)
  {
  }

  // A piece of the log, and the time at which it is parsed.
  datatype Call = Call(events: seq<Event>, now: real)

  function AllEvents(calls: seq<Call>): seq<Event> {
    if calls == [] then [] else calls[0].events + AllEvents(calls[1..])
  }

  // One call after another, each from where the one before has stopped.
  function ParseAll(c: Cache, calls: seq<Call>): (r: Option<Cache>)
    requires Sound(c)
    ensures r.Some? ==> Sound(r.value)
    decreases |calls|
  {
    if calls == [] then Some(c)
    else
      var p := Parse(c, calls[0].events, calls[0].now);
      if p.None? then None else ParseAll(p.value, calls[1..])
  }

  // However the log is cut at checkpoints, states, job ids, times, retries, restarts, sizes, CPU times and
  // the map of jobs come out as from the whole log at once.
  lemma {:induction false} CheckpointsDoNotMatter(c: Cache, d: Cache, calls: seq<Call>)
    requires Sound(c) && Sound(d) && Same(c, d)
    ensures SameResult(ParseAll(c, calls), Fold(d, AllEvents(calls)))
    decreases |calls|
  {
    hide Fold, PadAll, Sound, Same;
    if calls == [] {
      FoldSame(c, d, []);
      FoldNothing(d);
    } else {
      var call := calls[0];
      FoldSame(c, d, call.events);
      FoldAppend(d, call.events, AllEvents(calls[1..]));
      var f, g := Fold(c, call.events), Fold(d, call.events);
      if f.Some? {
        PadSame(f.value, g.value, call.now);
        CheckpointsDoNotMatter(PadAll(f.value, call.now), g.value, calls[1..]);
      }
    }
  }

  lemma FoldNothing(c: Cache)
    requires Sound(c)
    ensures Fold(c, []) == Some(c)
  {
  }

  // ---- lengths of the histories ----

  // Every event about a job follows its submission, and every post script that of its node.
  predicate Follows(procs: set<Proc>, nodes: set<Node>, events: seq<Event>)
    decreases |events|
  {
    if events == [] then true
    else
      match events[0].kind
      case Submit(Some(n), proc) => Follows(procs + {proc}, nodes + {n}, events[1..])
      case Submit(None, _) => Follows(procs, nodes, events[1..])
      case PostScript(Some(n), _, _) => n in nodes && Follows(procs, nodes, events[1..])
      case PostScript(None, _, _) => Follows(procs, nodes, events[1..])
      case Other => Follows(procs, nodes, events[1..])
      case k => k.proc in procs && Follows(procs, nodes, events[1..])
  }

  // Exactly then no event throws.
  lemma {:induction false} FollowsSafe(c: Cache, events: seq<Event>)
    requires Sound(c)
    ensures Fold(c, events).Some? <==> Follows(c.nodeMap.Keys, c.nodes.Keys, events)
    decreases |events|
  {
    hide AfterEvent, AfterSubmit, Sound;
    if events != [] {
      var s := Step(c, events[0]);
      if s.Some? {
        StepSound(c, events[0]);
        FollowsSafe(s.value, events[1..]);
        StepKeys(c, events[0]);
      }
    }
  }

  lemma StepKeys(c: Cache, e: Event)
    requires Sound(c) && Step(c, e).Some?
    ensures var d := Step(c, e).value;
            if e.kind.Submit? && e.kind.node.Some?
            then d.nodeMap.Keys == c.nodeMap.Keys + {e.kind.proc} && d.nodes.Keys == c.nodes.Keys + {e.kind.node.value}
            else d.nodeMap.Keys == c.nodeMap.Keys && d.nodes.Keys == c.nodes.Keys
  {
    hide AfterEvent, AfterSubmit;
  }

  function Submits(events: seq<Event>, n: Node): nat {
    if events == [] then 0
    else (if events[0].kind.Submit? && events[0].kind.node == Some(n) then 1 else 0) + Submits(events[1..], n)
  }

  // Submissions of a node that its histories tell of.
  function Told(i: Info): int {
    |i.submitTimes| - i.restarts
  }

  lemma StepTold(c: Cache, e: Event, n: Node)
    requires Sound(c) && Step(c, e).Some?
    ensures Told(Known(Step(c, e).value, n))
         == Told(Known(c, n)) + if e.kind.Submit? && e.kind.node == Some(n) then 1 else 0
  {
    hide AfterEvent, Submitted, Even;
    match e.kind
    case Submit(_, _) =>
    case PostScript(_, _, _) =>
    case Other =>
    case k => AfterEventSound(c.nodes[c.nodeMap[k.proc]], e.time, k);
  }

  // The five even histories of a node have one entry for each submission and each restart.
  lemma {:induction false} HistoryLengths(c: Cache, events: seq<Event>, n: Node)
    requires Sound(c) && Fold(c, events).Some?
    ensures Told(Known(Fold(c, events).value, n)) == Told(Known(c, n)) + Submits(events, n)
    ensures Even(Known(Fold(c, events).value, n))
    decreases |events|
  {
    hide Step, Told;
    if events == [] {
      DefaultsEven(c, n);
    } else {
      StepTold(c, events[0], n);
      StepSound(c, events[0]);
      HistoryLengths(Step(c, events[0]).value, events[1..], n);
    }
  }

  lemma DefaultsEven(c: Cache, n: Node)
    requires Sound(c)
    ensures Even(Known(c, n))
  {
  }

  // From the beginning, over any number of calls.
  lemma {:induction false} HistoriesFromTheStart(calls: seq<Call>, n: Node)
    requires ParseAll(Cache(map[], map[]), calls).Some?
    ensures var c := ParseAll(Cache(map[], map[]), calls).value;
            var i := Known(c, n);
            && |i.submitTimes| == Submits(AllEvents(calls), n) + i.restarts
            && |i.jobIds| == |i.residentSetSize| == |i.userCpu| == |i.sysCpu| == |i.submitTimes|
            && forall p <- c.nodeMap :: c.nodeMap[p] in c.nodes && |c.nodes[c.nodeMap[p]].submitTimes| > 0
  {
    hide Fold, ParseAll, Submits, AllEvents;
    var c := Cache(map[], map[]);
    CheckpointsDoNotMatter(c, c, calls);
    HistoryLengths(c, AllEvents(calls), n);
    var d, w := ParseAll(c, calls).value, Fold(c, AllEvents(calls)).value;
    assert Core(Known(d, n)) == Core(Known(w, n));
  }

  // Each call leaves as many wall-clock times as sites.
  lemma PaddedAlike(c: Cache, events: seq<Event>, now: real)
    requires Sound(c) && Parse(c, events, now).Some?
    ensures forall n <- Parse(c, events, now).value.nodes ::
              |Parse(c, events, now).value.nodes[n].wallDurations| == |Parse(c, events, now).value.nodes[n].siteHistory|
  {
    hide Padded;
  }

  // These two histories do depend on the checkpoints: a site that becomes known after one is recorded
  // besides the placeholder.
  lemma SitesDependOnCheckpoints() returns (a: Event, b: Event)
    ensures var c := Cache(map[], map[]);
            var whole, parts := Parse(c, [a, b], 2.0), ParseAll(c, [Call([a], 1.0), Call([b], 2.0)]);
            && whole.Some? && parts.Some?
            && Known(whole.value, "1").siteHistory == ["T2"] && Known(parts.value, "1").siteHistory == ["Unknown", "T2"]
  {
    hide AfterEvent, Padded, ParseAll, AfterSubmit;
    var proc := (1, 0);
    a, b := Event(0.0, Submit(Some("1"), proc)), Event(0.0, AdInformation(proc, Some("T2"), Numbers(None, None)));
    var c, i := Cache(map[], map[]), AfterSubmit(DEFAULTS, 0.0, proc);
    SiteOfJob(proc);
    var s := Cache(map["1" := i], map[proc := "1"]);
    FoldOne(c, a);
    assert Step(c, a) == Some(s);
    FoldOne(s, b);
    FoldAppend(c, [a], [b]);
    assert [a, b] == [a] + [b];
    var p := PadAll(s, 1.0);
    assert p == Cache(map["1" := Padded(i, 1.0)], map[proc := "1"]);
    FoldOne(p, b);
    TwoCalls(c, Call([a], 1.0), Call([b], 2.0));
  }

  lemma SiteOfJob(proc: Proc)
    ensures var i := AfterSubmit(DEFAULTS, 0.0, proc);
            var k := AdInformation(proc, Some("T2"), Numbers(None, None));
            && Submitted(i) && Submitted(Padded(i, 1.0))
            && Padded(AfterEvent(i, 0.0, k), 2.0).siteHistory == ["T2"]
            && Padded(AfterEvent(Padded(i, 1.0), 0.0, k), 2.0).siteHistory == ["Unknown", "T2"]
  {
  }

  lemma FoldOne(c: Cache, e: Event)
    requires Sound(c)
    ensures Fold(c, [e]) == Step(c, e)
  {
    hide Step;
    if Step(c, e).Some? {
      StepSound(c, e);
      FoldNothing(Step(c, e).value);
      assert [e][1..] == [];
    }
  }

  lemma TwoCalls(c: Cache, x: Call, y: Call)
    requires Sound(c)
    ensures ParseAll(c, [x, y])
         == var p := Parse(c, x.events, x.now);
            if p.None? then None else Parse(p.value, y.events, y.now)
  {
    hide Parse;
    assert [x, y][1..] == [y] && [y][1..] == [];
    var p := Parse(c, x.events, x.now);
    if p.Some? {
      var q := Parse(p.value, y.events, y.now);
      assert ParseAll(p.value, [y]) == if q.None? then None else ParseAll(q.value, []);
    }
  }

  // ---- the node state file ----

  // What the file of DAGMan says of the node of a job.
  datatype Ad = Ad(node: Node, status: int, retry: int, notIdle: bool)

  function StateAfter(s: Option<Status>, ad: Ad): Option<Status> {
    if ad.status == 1 then
      (if s == Some(Transferring) then Some(Cooloff) else if s != Some(Cooloff) then Some(Unsubmitted) else s)
    else if ad.status == 2 then (if ad.retry == 0 then Some(Unsubmitted) else Some(Cooloff))
    else if ad.status == 3 then (if s.Some? then s else if ad.notIdle then Some(Running) else Some(Idle))
    else if ad.status == 4 then (if s != Some(Cooloff) then Some(Transferring) else s)
    else if ad.status == 5 then Some(Finished)
    else if ad.status == 6 then Some(Failed)
    else s
  }

  function Overlaid(i: Info, ad: Ad): Info {
    i.(state := StateAfter(i.state, ad))
  }

  // parseNodeStateV2, on the nodes of jobs.
  function Overlay(nodes: map<Node, Info>, ads: seq<Ad>): (r: map<Node, Info>)
    decreases |ads|
  {
    if ads == [] then nodes
    else
      var n := ads[0].node;
      Overlay(nodes[n := Overlaid(if n in nodes then nodes[n] else DEFAULTS, ads[0])], ads[1..])
  }

  predicate Distinct(ads: seq<Ad>) {
    forall i, j :: 0 <= i < j < |ads| ==> ads[i].node != ads[j].node
  }

  // A node that the file does not name stays as it is.
  lemma {:induction false} OverlayElse(nodes: map<Node, Info>, ads: seq<Ad>, n: Node)
    requires forall i :: 0 <= i < |ads| ==> ads[i].node != n
    ensures n in Overlay(nodes, ads) <==> n in nodes
    ensures n in nodes ==> Overlay(nodes, ads)[n] == nodes[n]
    decreases |ads|
  {
    hide Overlaid;
    if ads != [] {
      var m := ads[0].node;
      OverlayElse(nodes[m := Overlaid(if m in nodes then nodes[m] else DEFAULTS, ads[0])], ads[1..], n);
    }
  }

  // A node that it names once is overlaid once.
  lemma {:induction false} OverlayHere(nodes: map<Node, Info>, ads: seq<Ad>, i: nat)
    requires Distinct(ads) && i < |ads|
    ensures var n := ads[i].node;
            && n in Overlay(nodes, ads)
            && Overlay(nodes, ads)[n] == Overlaid(if n in nodes then nodes[n] else DEFAULTS, ads[i])
    decreases |ads|
  {
    hide Overlaid;
    var m, n := ads[0].node, ads[i].node;
    var next := nodes[m := Overlaid(if m in nodes then nodes[m] else DEFAULTS, ads[0])];
    if i == 0 {
      OverlayElse(next, ads[1..], n);
    } else {
      assert ads[1..][i - 1] == ads[i] && m != n;
      OverlayHere(next, ads[1..], i - 1);
    }
  }

  // One run of the program: new events, and then the node state file.
  function Refresh(c: Cache, events: seq<Event>, ads: seq<Ad>, now: real): (r: Option<Cache>)
    requires Sound(c)
  {
    var p := Parse(c, events, now);
    if p.None? then None else Some(p.value.(nodes := Overlay(p.value.nodes, ads)))
  }

  lemma StateTwice(s: Option<Status>, ad: Ad)
    ensures StateAfter(StateAfter(s, ad), ad) == StateAfter(s, ad)
  {
  }

  lemma OverlaidSound(i: Info, ad: Ad)
    ensures Submitted(i) ==> Submitted(Overlaid(i, ad))
    ensures Even(i) ==> Even(Overlaid(i, ad))
    ensures Overlaid(Overlaid(i, ad), ad) == Overlaid(i, ad)
  {
    StateTwice(i.state, ad);
  }

  lemma {:induction false} OverlaySound(c: Cache, ads: seq<Ad>)
    requires Sound(c)
    ensures Sound(c.(nodes := Overlay(c.nodes, ads)))
    decreases |ads|
  {
    hide Submitted, Even, Overlaid;
    if ads != [] {
      var n := ads[0].node;
      DefaultsEven(c, n);
      var i := if n in c.nodes then c.nodes[n] else DEFAULTS;
      OverlaidSound(i, ads[0]);
      OverlaySound(c.(nodes := c.nodes[n := Overlaid(i, ads[0])]), ads[1..]);
    }
  }

  // A history of sites and one of wall-clock times that are already alike are left alone.
  predicate Alike(nodes: map<Node, Info>) {
    forall n <- nodes :: |nodes[n].wallDurations| == |nodes[n].siteHistory|
  }

  lemma {:induction false} OverlayAlike(nodes: map<Node, Info>, ads: seq<Ad>)
    requires Alike(nodes)
    ensures Alike(Overlay(nodes, ads))
    decreases |ads|
  {
    if ads != [] {
      var n := ads[0].node;
      OverlayAlike(nodes[n := Overlaid(if n in nodes then nodes[n] else DEFAULTS, ads[0])], ads[1..]);
    }
  }

  lemma PadNothing(c: Cache, now: real)
    requires Sound(c) && Alike(c.nodes)
    ensures PadAll(c, now) == c
  {
    forall n <- c.nodes
      ensures Padded(c.nodes[n], now) == c.nodes[n]
    {
      var i := c.nodes[n];
      assert i.wallDurations + [] == i.wallDurations && i.siteHistory + [] == i.siteHistory;
    }
  }

  lemma OverlayTwice(nodes: map<Node, Info>, ads: seq<Ad>)
    requires Distinct(ads)
    ensures Overlay(Overlay(nodes, ads), ads) == Overlay(nodes, ads)
  {
    hide Overlaid, Overlay;
    var once := Overlay(nodes, ads);
    var twice := Overlay(once, ads);
    forall n: Node
      ensures n in twice <==> n in once
      ensures n in once ==> twice[n] == once[n]
    {
      if i :| 0 <= i < |ads| && ads[i].node == n {
        OverlayHere(nodes, ads, i);
        OverlayHere(once, ads, i);
        OverlaidSound(if n in nodes then nodes[n] else DEFAULTS, ads[i]);
      } else {
        OverlayElse(once, ads, n);
      }
    }
    assert twice.Keys == once.Keys;
  }

  // A run without new events and with the same node state file changes nothing.
  lemma RefreshTwice(c: Cache, events: seq<Event>, ads: seq<Ad>, now: real, later: real)
    requires Sound(c) && Distinct(ads) && Refresh(c, events, ads, now).Some?
    ensures Sound(Refresh(c, events, ads, now).value)
    ensures Refresh(Refresh(c, events, ads, now).value, [], ads, later) == Refresh(c, events, ads, now)
  {
    hide Overlay, Sound, Alike, PadAll, Fold;
    var p := Parse(c, events, now).value;
    PaddedAlike(c, events, now);
    assert Alike(p.nodes) by {
      AlikeIs(p.nodes);
    }
    OverlaySound(p, ads);
    OverlayAlike(p.nodes, ads);
    var d := Refresh(c, events, ads, now).value;
    FoldNothing(d);
    PadNothing(d, later);
    OverlayTwice(p.nodes, ads);
  }

  lemma AlikeIs(nodes: map<Node, Info>)
    requires forall n <- nodes :: |nodes[n].wallDurations| == |nodes[n].siteHistory|
    ensures Alike(nodes)
  {
  }

  // ---- the program ----

  method InsertCpu(u: Usage, info: Info) returns (i: Info)
    requires Submitted(info)
    ensures i == WithCpu(info, u)
  {
    i := info;
    match u
    case Text(read) =>
      if read.Some? {
        var u, s := read.value.user, read.value.sys;
        var user := u.hours * 3600 + u.minutes * 60 + u.seconds;
        var system := s.hours * 3600 + s.minutes * 60 + s.seconds;
        i := i.(userCpu := i.userCpu[|i.userCpu| - 1 := user as real]);
        i := i.(sysCpu := i.sysCpu[|i.sysCpu| - 1 := system as real]);
      }
    case Numbers(sys, user) =>
      if sys.Some? {
        i := i.(sysCpu := i.sysCpu[|i.sysCpu| - 1 := sys.value]);
      }
      if user.Some? {
        i := i.(userCpu := i.userCpu[|i.userCpu| - 1 := user.value]);
      }
  }

  // What the branches for evicted and for held jobs do to a job that was running.
  method Restart(info: Info, time: real, u: Usage) returns (i: Info)
    requires Submitted(info)
    ensures i == Restarted(info, time, u)
  {
    i := info.(endTimes := info.endTimes + [time]);
    if i.wallDurations != [] && i.endTimes != [] && i.startTimes != [] {
      var wall := i.endTimes[|i.endTimes| - 1] - i.startTimes[|i.startTimes| - 1];
      i := i.(wallDurations := i.wallDurations[|i.wallDurations| - 1 := wall]);
    }
    assert i == Ended(info, time);
    i := InsertCpu(u, i);
    hide WithCpu, Ended;
    i := i.(userCpu := i.userCpu + [0.0]);
    i := i.(sysCpu := i.sysCpu + [0.0]);
    i := i.(wallDurations := i.wallDurations + [0.0]);
    i := i.(residentSetSize := i.residentSetSize + [0]);
    i := i.(submitTimes := i.submitTimes + [-1.0]);
    i := i.(jobIds := i.jobIds + [i.jobIds[|i.jobIds| - 1]]);
    i := i.(restarts := i.restarts + 1);
  }

  // The branch for submissions.
  method SubmitJob(info: Info, time: real, proc: Proc) returns (i: Info)
    ensures i == AfterSubmit(info, time, proc)
  {
    i := info.(state := Some(Idle));
    i := i.(jobIds := i.jobIds + [proc]);
    i := i.(recordedSite := Some(false));
    i := i.(submitTimes := i.submitTimes + [time]);
    i := i.(userCpu := i.userCpu + [0.0]);
    i := i.(sysCpu := i.sysCpu + [0.0]);
    i := i.(wallDurations := i.wallDurations + [0.0]);
    i := i.(residentSetSize := i.residentSetSize + [0]);
    i := i.(retries := |i.submitTimes| - 1);
  }

  // The branches for events about a job that has been submitted.
  method HandleJob(info: Info, time: real, k: Kind) returns (i: Info)
    requires Submitted(info) && AboutJob(k)
    ensures i == AfterEvent(info, time, k)
  {
    hide WithCpu, Restarted;
    i := info;
    match k
    case Execute(_) =>
      i := i.(startTimes := i.startTimes + [time]);
      i := i.(state := Some(Running));
      i := i.(recordedSite := Some(false));
    case Terminated(_, normally, value, u) =>
      i := i.(endTimes := i.endTimes + [time]);
      if i.startTimes != [] && i.startTimes[|i.startTimes| - 1] > 0.0 {
        var wall := i.endTimes[|i.endTimes| - 1] - i.startTimes[|i.startTimes| - 1];
        i := i.(wallDurations := i.wallDurations[|i.wallDurations| - 1 := wall]);
      } else {
        i := i.(wallDurations := i.wallDurations[|i.wallDurations| - 1 := 0.0]);
      }
      i := InsertCpu(u, i);
      if normally && value == 0 {
        i := i.(state := Some(Transferring));
      } else {
        i := i.(state := Some(Cooloff));
      }
    case Evicted(_, u) =>
      if i.state != Some(Idle) {
        i := Restart(i, time, u);
        i := i.(state := Some(Idle));
      }
    case Aborted(_, u) =>
      if i.state == Some(Idle) || i.state == Some(Held) {
        i := i.(startTimes := i.startTimes + [-1.0]);
        if i.recordedSite == Some(false) {
          i := i.(siteHistory := i.siteHistory + ["Unknown"]);
        }
      }
      i := i.(state := Some(Killed));
      i := InsertCpu(u, i);
    case HeldBack(_, u) =>
      if i.state == Some(Running) {
        i := Restart(i, time, u);
      }
      i := i.(state := Some(Held));
    case Released(_) =>
      i := i.(state := Some(Idle));
    case AdInformation(_, site, u) =>
      if i.recordedSite == Some(false) && site.Some? {
        i := i.(siteHistory := i.siteHistory + [site.value]);
        i := i.(recordedSite := Some(true));
      }
      i := InsertCpu(u, i);
    case ImageSize(_, size, u) =>
      i := i.(residentSetSize := i.residentSetSize[|i.residentSetSize| - 1 := size]);
      if i.startTimes != [] {
        i := i.(wallDurations := i.wallDurations[|i.wallDurations| - 1 := time - i.startTimes[|i.startTimes| - 1]]);
      }
      i := InsertCpu(u, i);
  }

  // The padding of one job at the end of a call.
  method Pad(info: Info, now: real) returns (i: Info)
    ensures i == Padded(info, now)
  {
    i := info;
    var lastStart := if i.startTimes != [] then i.startTimes[|i.startTimes| - 1] else now;
    var wall := if lastStart > 0.0 then now - lastStart else 0.0;
    while |i.wallDurations| < |i.siteHistory|
      invariant |info.wallDurations| <= |i.wallDurations|
      invariant |info.wallDurations| < |i.wallDurations| ==> |i.wallDurations| <= |info.siteHistory|
      invariant i == info.(wallDurations := info.wallDurations + Copies(|i.wallDurations| - |info.wallDurations|, wall))
    {
      if lastStart > 0.0 {
        i := i.(wallDurations := i.wallDurations + [now - lastStart]);
      } else {
        i := i.(wallDurations := i.wallDurations + [0.0]);
      }
    }
    ghost var j := i;
    while |i.wallDurations| > |i.siteHistory|
      invariant |info.siteHistory| <= |i.siteHistory|
      invariant |info.siteHistory| < |i.siteHistory| ==> |i.siteHistory| <= |info.wallDurations|
      invariant i == j.(siteHistory := info.siteHistory + Copies(|i.siteHistory| - |info.siteHistory|, "Unknown"))
    {
      i := i.(siteHistory := i.siteHistory + ["Unknown"]);
    }
  }

  class StatusCache {
    var nodes: map<Node, Info>
    var nodeMap: map<Proc, Node>

    constructor ()
      ensures Value() == Cache(map[], map[])
    {
      nodes, nodeMap := map[], map[];
    }

    function Value(): Cache
      reads this
    {
      Cache(nodes, nodeMap)
    }

    // One turn of the loop over the events; false stands for the KeyError.
    method Handle(event: Event) returns (ok: bool)
      requires Sound(Value())
      modifies this
      ensures ok <==> Step(old(Value()), event).Some?
      ensures ok ==> Value() == Step(old(Value()), event).value
    {
      hide AfterEvent, AfterSubmit;
      ok := true;
      match event.kind
      case Submit(m, proc) =>
        if m.Some? {
          var node := m.value;
          if node !in nodes {
            nodes := nodes[node := DEFAULTS];
          }
          var info := SubmitJob(nodes[node], event.time, proc);
          nodes := nodes[node := info];
          nodeMap := nodeMap[proc := node];
        }
      case PostScript(m, normally, value) =>
        if m.Some? {
          var node := m.value;
          if node !in nodes {
            return false;
          }
          var status := Cooloff;
          if normally {
            if value == 0 {
              status := Finished;
            } else if value == 2 {
              status := Failed;
            }
          }
          nodes := nodes[node := nodes[node].(state := Some(status))];
        }
      case Other =>
      case k =>
        if k.proc !in nodeMap {
          return false;
        }
        var node := nodeMap[k.proc];
        var info := HandleJob(nodes[node], event.time, k);
        nodes := nodes[node := info];
    }

    // parseJobLog
    method ParseJobLog(events: seq<Event>, now: real) returns (ok: bool)
      requires Sound(Value())
      modifies this
      ensures ok <==> Parse(old(Value()), events, now).Some?
      ensures ok ==> Value() == Parse(old(Value()), events, now).value && Sound(Value())
    {
      hide Step, Sound, Padded;
      var count := 0;
      while count < |events|
        invariant 0 <= count <= |events| && Sound(Value())
        invariant Fold(old(Value()), events) == Fold(Value(), events[count..])
      {
        ghost var before := Value();
        ok := Handle(events[count]);
        if !ok {
          return;
        }
        StepSound(before, events[count]);
        assert events[count..][1..] == events[count + 1..];
        count := count + 1;
      }
      ghost var parsed := Value();
      FoldNothing(parsed);
      PadNodes(now);
      ok := true;
    }

    // The loop over all nodes at the end.
    method PadNodes(now: real)
      requires Sound(Value())
      modifies this`nodes
      ensures Value() == PadAll(old(Value()), now)
    {
      hide Padded;
      var left := nodes.Keys;
      ghost var before := nodes;
      while left != {}
        invariant left <= nodes.Keys == before.Keys
        invariant forall n <- before :: nodes[n] == if n in left then before[n] else Padded(before[n], now)
        decreases |left|
      {
        var node :| node in left;
        var info := Pad(nodes[node], now);
        nodes := nodes[node := info];
        left := left - {node};
      }
    }
  }
}
