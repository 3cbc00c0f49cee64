// The stageout wrapper of the worker node, cmscp.py: a chain of steps, each guarded by the return codes of
// earlier ones, and a loop over the stageout policies. What the world outside answers is a parameter.
module Cmscp {
  import opened Canonical

  // A return code; None if the step was not executed.
  type Code = Option<int>

  type Failure = x: int | x != 0 witness 1

  datatype Policy = Local | Remote | Unknown(name: string)

  datatype File = Log | Output(name: string)

  // An entry of CRAB_localOutputFiles: "name=destination", or something else.
  datatype Entry = Entry(name: string, dest: string) | Malformed

  // The job ad, as far as it matters. None stands for a missing attribute.
  datatype JobAd = JobAd(noStageout: bool, saveLogs: Option<bool>, transferOutputs: Option<bool>,
                         outputs: Option<seq<Entry>>, required: bool, policies: seq<Policy>, dests: nat)

  // How one transfer ends: well, by the timeout, with an error of the storage, or with an exception of
  // some other kind.
  datatype Transfer = Done | Timeout | StorageError(code: Failure) | Exception

  // How the archive of the logs is made: well, with an error of the tar library, or with some other
  // exception, which nothing catches.
  datatype Archive = Made | TarError | Uncaught

  // What the job report is like: as it should be, without one of its sections, or not to be read.
  datatype Report = Good | Misshaped | Unreadable

  // Whether an output is in the job report or can be added to it; adding it may also throw.
  datatype Reply = Yes | No | Throws

  // The answers of the world outside: what the report is like, which outputs exist and which are in the
  // report or can be added, what becomes of every transfer, and so on.
  datatype World = World(report: Report, exist: nat -> bool, reported: nat -> Reply, archive: Archive,
                         localOk: bool, directOk: bool, sameSite: bool, onlyRemote: bool,
                         log: Policy -> Transfer, output: (Policy, nat) -> Transfer, managerRaises: bool)

  datatype Request = Request(file: File, inject: bool)

  datatype Direct = Direct(file: File, removed: bool)

  // How main ends: before any step, at its end, or with an exception.
  datatype Ending = Early | Finished | Crashed

  // ---- the lists that outlive main ----

  // The files to be injected to ASO.
  function Injected(aso: seq<Request>): seq<File> {
    if aso == [] then []
    else Injected(aso[..|aso| - 1]) + if aso[|aso| - 1].inject then [aso[|aso| - 1].file] else []
  }

  // The files in the remote storage that nobody has removed.
  function Live(direct: seq<Direct>): seq<File> {
    if direct == [] then []
    else Live(direct[..|direct| - 1]) + if direct[|direct| - 1].removed then [] else [direct[|direct| - 1].file]
  }

  lemma InjectedAdd(aso: seq<Request>, r: Request)
    ensures Injected(aso + [r]) == Injected(aso) + if r.inject then [r.file] else []
  {
    assert (aso + [r])[..|aso|] == aso;
  }

  lemma LiveAdd(direct: seq<Direct>, d: Direct)
    ensures Live(direct + [d]) == Live(direct) + if d.removed then [] else [d.file]
  {
    assert (direct + [d])[..|direct|] == direct;
  }

  lemma {:induction false} InjectedNone(aso: seq<Request>)
    requires forall i :: 0 <= i < |aso| ==> !aso[i].inject
    ensures Injected(aso) == []
  {
    if aso != [] {
      InjectedNone(aso[..|aso| - 1]);
    }
  }

  lemma {:induction false} LiveNone(direct: seq<Direct>)
    requires forall i :: 0 <= i < |direct| ==> direct[i].removed
    ensures Live(direct) == []
  {
    if direct != [] {
      LiveNone(direct[..|direct| - 1]);
    }
  }

  // The requests, none of them to be injected any more.
  function Withdrawn(aso: seq<Request>): (r: seq<Request>)
    ensures |r| == |aso| && Injected(r) == []
  {
    var r := seq(|aso|, i requires 0 <= i < |aso| => aso[i].(inject := false));
    InjectedNone(r);
    r
  }

  function CleanedOne(d: Direct, keepLog: bool): Direct {
    if d.file == Log && keepLog then d else d.(removed := true)
  }

  // The direct stageouts after all files have been removed, but perhaps for the log.
  function Cleaned(direct: seq<Direct>, keepLog: bool): (r: seq<Direct>)
    ensures |r| == |direct| && (!keepLog ==> Live(r) == [])
  {
    var r := seq(|direct|, i requires 0 <= i < |direct| => CleanedOne(direct[i], keepLog));
    if !keepLog then LiveNone(r); r else r
  }

  lemma {:induction false} InjectedRequests(aso: seq<Request>, files: seq<File>)
    ensures Injected(aso + Requests(files)) == Injected(aso) + files
    decreases |files|
  {
    hide Injected;
    if files == [] {
      assert aso + Requests(files) == aso;
    } else {
      var n := |files| - 1;
      var before := aso + Requests(files[..n]);
      InjectedRequests(aso, files[..n]);
      InjectedAdd(before, Request(files[n], true));
      assert aso + Requests(files) == before + [Request(files[n], true)];
      assert Injected(aso) + files == Injected(aso) + files[..n] + [files[n]];
    }
  }

  lemma {:induction false} LiveDirects(direct: seq<Direct>, files: seq<File>)
    ensures Live(direct + Directs(files)) == Live(direct) + files
    decreases |files|
  {
    hide Live;
    if files == [] {
      assert direct + Directs(files) == direct;
    } else {
      var n := |files| - 1;
      var before := direct + Directs(files[..n]);
      LiveDirects(direct, files[..n]);
      LiveAdd(before, Direct(files[n], false));
      assert direct + Directs(files) == before + [Direct(files[n], false)];
      assert Live(direct) + files == Live(direct) + files[..n] + [files[n]];
    }
  }

  lemma GrownBy(aso: seq<Request>, direct: seq<Direct>, aso': seq<Request>, direct': seq<Direct>, local: bool,
                files: seq<File>)
    requires aso' == aso + (if local then Requests(files) else [])
    requires direct' == direct + (if local then [] else Directs(files))
    ensures Injected(aso') == if local then Injected(aso) + files else Injected(aso)
    ensures Live(direct') == if local then Live(direct) else Live(direct) + files
  {
    hide Injected, Live, Requests, Directs;
    InjectedRequests(aso, files);
    LiveDirects(direct, files);
    assert aso + [] == aso && direct + [] == direct;
  }

  // The files of the first n outputs.
  function Files(outputs: seq<Entry>, n: nat): (r: seq<File>)
    requires n <= |outputs| && forall i :: 0 <= i < n ==> outputs[i].Entry?
    ensures |r| == n && forall i :: 0 <= i < n ==> r[i] == Output(outputs[i].dest)
  {
    seq(n, i requires 0 <= i < n => Output(outputs[i].dest))
  }

  function Requests(files: seq<File>): seq<Request> {
    seq(|files|, i requires 0 <= i < |files| => Request(files[i], true))
  }

  function Directs(files: seq<File>): seq<Direct> {
    seq(|files|, i requires 0 <= i < |files| => Direct(files[i], false))
  }

  lemma NoFiles(outputs: seq<Entry>)
    ensures Requests(Files(outputs, 0)) == [] && Directs(Files(outputs, 0)) == []
  {
  }

  lemma NextFile(outputs: seq<Entry>, i: nat)
    requires i < |outputs| && forall k :: 0 <= k <= i ==> outputs[k].Entry?
    ensures var f := Output(outputs[i].dest);
            && Requests(Files(outputs, i + 1)) == Requests(Files(outputs, i)) + [Request(f, true)]
            && Directs(Files(outputs, i + 1)) == Directs(Files(outputs, i)) + [Direct(f, false)]
  {
  }

  // How many outputs have a destination, namely as many as there are of both; the first destination is
  // that of the logs.
  function Zipped(outputs: seq<Entry>, dests: nat): (n: nat)
    ensures n <= |outputs| && (n == 0 || n < dests)
    ensures n == |outputs| || n + 1 >= dests
  {
    if dests == 0 then 0 else if dests - 1 < |outputs| then dests - 1 else |outputs|
  }

  // All transfers of the first n outputs under a policy go well.
  predicate AllDone(policy: Policy, n: nat, w: World) {
    forall i :: 0 <= i < n ==> w.output(policy, i).Done?
  }

  // All transfers under a policy go well, those of the logs, if they are staged out, and of n outputs.
  predicate Works(p: Policy, logsOk: bool, n: nat, w: World) {
    (logsOk ==> w.log(p).Done?) && AllDone(p, n, w)
  }

  // What is staged out: the archive of the logs, if there is one, and the outputs that have a
  // destination.
  function Staged(withLog: bool, outputs: seq<Entry>, n: nat): seq<File>
    requires n <= |outputs| && forall i :: 0 <= i < n ==> outputs[i].Entry?
  {
    (if withLog then [Log] else []) + Files(outputs, n)
  }

  lemma StagedParts(withLog: bool, outputs: seq<Entry>, n: nat)
    requires n <= |outputs| && forall i :: 0 <= i < n ==> outputs[i].Entry?
    ensures var all, files := Staged(withLog, outputs, n), Files(outputs, n);
            && Requests(all) == (if withLog then [Request(Log, true)] else []) + Requests(files)
            && Directs(all) == (if withLog then [Direct(Log, false)] else []) + Directs(files)
  {
  }

  // The policies that main goes by: those of the job ad, or only the remote one if the sites have no
  // protocol in common, or the remote one first if the job runs where its output goes.
  function Policies(ad: JobAd, w: World): seq<Policy> {
    var ps := if w.onlyRemote then [Remote] else ad.policies;
    if w.sameSite && ps == [Local, Remote] then [Remote, Local] else ps
  }

  // ---- what is to be expected ----

  // Outputs are transferred unless there are none or the user says otherwise.
  predicate TransferOutputs(ad: JobAd) {
    ad.outputs.Some? && ad.outputs.value != [] && ad.transferOutputs != Some(false)
  }

  // Logs are transferred if the user says so and outputs are; or if there are none and the user does
  // not want them.
  predicate TransferLogs(ad: JobAd) {
    ad.saveLogs == Some(true) && (TransferOutputs(ad) || (ad.outputs == Some([]) && ad.transferOutputs == Some(false)))
  }

  // Outputs are to be transferred, and they and the report are as they should be.
  predicate ChecksOk(ad: JobAd, w: World) {
    && TransferOutputs(ad) && w.report.Good?
    && forall i :: 0 <= i < |ad.outputs.value| ==> ad.outputs.value[i].Entry? && w.exist(i) && w.reported(i).Yes?
  }

  predicate LogsOk(ad: JobAd, w: World) {
    TransferLogs(ad) && w.archive.Made? && ChecksOk(ad, w)
  }

  predicate Initialised(p: Policy, w: World) {
    match p
    case Local => w.localOk
    case Remote => w.directOk
    case Unknown(_) => false
  }

  // The first policy under which all goes well.
  function Winner(ps: seq<Policy>, logsOk: bool, n: nat, w: World): Option<Policy> {
    if ps == [] then None
    else
      var r, p := Winner(ps[..|ps| - 1], logsOk, n, w), ps[|ps| - 1];
      if r.Some? then r else if Initialised(p, w) && Works(p, logsOk, n, w) then Some(p) else None
  }

  // A failure to make the archive of the logs stays on record unless the initialisation for the remote
  // policy is forced on the exit code.
  predicate ArchiveRecorded(ad: JobAd, w: World) {
    TransferLogs(ad) && w.archive.TarError? && Local in Policies(ad, w) && w.localOk
  }

  // When the exit code is zero.
  predicate ExitsOk(ad: JobAd, w: World)
    requires ad.outputs.Some?
  {
    if TransferOutputs(ad) then
      && ChecksOk(ad, w) && !ArchiveRecorded(ad, w)
      && Winner(Policies(ad, w), LogsOk(ad, w), Zipped(ad.outputs.value, ad.dests), w).Some?
    else w.report.Good? && w.archive.Made?
  }

  // ---- when main ends ----

  // There is nothing to do, or the job ad does not say what.
  predicate EndsEarly(ad: JobAd) {
    ad.noStageout || ad.outputs.None? || !(TransferOutputs(ad) || TransferLogs(ad)) || !ad.required
  }

  // There is nothing to do; this is no failure.
  predicate NothingToDo(ad: JobAd) {
    ad.noStageout || (ad.outputs.Some? && !(TransferOutputs(ad) || TransferLogs(ad)))
  }

  // An exception before the loop: the report cannot be read, an output cannot be added to it, or the
  // archive throws what nothing catches.
  predicate ChecksCrash(ad: JobAd, w: World)
    requires ad.outputs.Some?
  {
    || w.report.Unreadable?
    || (TransferLogs(ad) && w.archive.Uncaught?)
    || (TransferOutputs(ad) && w.report.Good? && ReportThrows(ad.outputs.value, w))
  }

  // All outputs exist, and looking for one of them in the report or adding it throws.
  predicate ReportThrows(entries: seq<Entry>, w: World) {
    && (forall i :: 0 <= i < |entries| ==> entries[i].Entry? && w.exist(i))
    && exists i :: 0 <= i < |entries| && w.reported(i).Throws?
  }

  // The file is in the local storage after the transfer. What is thrown beside the errors of the manager
  // is thrown after it has done its work.
  predicate Kept(t: Transfer) {
    t.Done? || t.Exception?
  }

  // After a failure the local manager has outputs to remove.
  predicate ManagerHasFiles(logsOk: bool, n: nat, w: World) {
    (logsOk ==> w.log(Local).Done?) && n > 0 && Kept(w.output(Local, 0))
  }

  predicate NothingToStage(p: Policy, logsOk: bool, n: nat, w: World) {
    (logsOk ==> w.log(p).Done?) && n == 0
  }

  // An exception in the turn of a policy: where not one output has a destination there is no return code
  // to print, and an exception of the local manager when it is told to clean is not caught.
  predicate Breaks(p: Policy, logsOk: bool, n: nat, w: World) {
    || NothingToStage(p, logsOk, n, w)
    || (p == Local && !Works(p, logsOk, n, w) && ManagerHasFiles(logsOk, n, w) && w.managerRaises)
  }

  // The turn of policy k ends with an exception. A policy that is not known always throws, unless the
  // loop has ended before it, which it does after a success of both outputs and logs.
  predicate CrashesAt(ps: seq<Policy>, k: nat, logsOk: bool, outputsOk: bool, n: nat, w: World)
    requires k < |ps|
  {
    var before := Winner(ps[..k], logsOk, n, w);
    if ps[k].Unknown? then !(logsOk && before.Some?)
    else outputsOk && Initialised(ps[k], w) && before.None? && Breaks(ps[k], logsOk, n, w)
  }

  predicate LoopCrashes(ps: seq<Policy>, logsOk: bool, outputsOk: bool, n: nat, w: World) {
    exists k :: 0 <= k < |ps| && CrashesAt(ps, k, logsOk, outputsOk, n, w)
  }

  // main ends with an exception.
  predicate Crashes(ad: JobAd, w: World) {
    && !EndsEarly(ad)
    && (ChecksCrash(ad, w)
        || LoopCrashes(Policies(ad, w), LogsOk(ad, w), ChecksOk(ad, w), Zipped(ad.outputs.value, ad.dests), w))
  }

  // The first code that is not zero; zero without one.
  function FirstFailure(codes: seq<Code>): int {
    if codes == [] then 0 else if Failed(codes[0]) then codes[0].value else FirstFailure(codes[1..])
  }

  lemma CrashesHere(ps: seq<Policy>, k: nat, logsOk: bool, outputsOk: bool, n: nat, w: World)
    requires k < |ps|
    ensures CrashesAt(ps, k, logsOk, outputsOk, n, w)
       <==> var before := Winner(ps[..k], logsOk, n, w);
            if ps[k].Unknown? then !(logsOk && before.Some?)
            else outputsOk && Initialised(ps[k], w) && before.None? && Breaks(ps[k], logsOk, n, w)
  {
  }

  // Once a policy has won and the loop has ended no later policy throws.
  lemma NoCrashAfter(ps: seq<Policy>, k: nat, logsOk: bool, outputsOk: bool, n: nat, w: World)
    requires k <= |ps| && logsOk && Winner(ps[..k], logsOk, n, w).Some?
    ensures forall j :: k <= j < |ps| ==> !CrashesAt(ps, j, logsOk, outputsOk, n, w)
  {
    forall j | k <= j < |ps|
      ensures !CrashesAt(ps, j, logsOk, outputsOk, n, w)
    {
      assert ps[..j][..k] == ps[..k];
      WinnerStays(ps[..j], k, logsOk, n, w);
    }
  }

  lemma WinnerNext(ps: seq<Policy>, k: nat, logsOk: bool, n: nat, w: World)
    requires k < |ps|
    ensures Winner(ps[..k + 1], logsOk, n, w)
         == var r := Winner(ps[..k], logsOk, n, w);
            if r.Some? then r else if Initialised(ps[k], w) && Works(ps[k], logsOk, n, w) then Some(ps[k]) else None
  {
    assert ps[..k + 1][..k] == ps[..k];
  }

  lemma {:induction false} WinnerStays(ps: seq<Policy>, k: nat, logsOk: bool, n: nat, w: World)
    requires k <= |ps| && Winner(ps[..k], logsOk, n, w).Some?
    ensures Winner(ps, logsOk, n, w) == Winner(ps[..k], logsOk, n, w)
    decreases |ps| - k
  {
    if k < |ps| {
      WinnerNext(ps, k, logsOk, n, w);
      WinnerStays(ps, k + 1, logsOk, n, w);
    } else {
      assert ps[..k] == ps;
    }
  }

  lemma {:induction false} WinnerIn(ps: seq<Policy>, logsOk: bool, n: nat, w: World)
    ensures var r := Winner(ps, logsOk, n, w); r.Some? ==> r.value in ps && Initialised(r.value, w)
  {
    if ps != [] {
      WinnerIn(ps[..|ps| - 1], logsOk, n, w);
    }
  }

  predicate Can(p: Policy, logsOk: bool, n: nat, w: World) {
    Initialised(p, w) && Works(p, logsOk, n, w)
  }

  // The first of the policies under which all goes well has the number k; |ps| without one.
  predicate FirstIs(ps: seq<Policy>, k: nat, logsOk: bool, n: nat, w: World)
    requires k <= |ps|
  {
    && (forall j :: 0 <= j < k ==> !Can(ps[j], logsOk, n, w))
    && (k < |ps| ==> Can(ps[k], logsOk, n, w))
  }

  lemma FirstWins(ps: seq<Policy>, k: nat, logsOk: bool, n: nat, w: World)
    requires k <= |ps| && FirstIs(ps, k, logsOk, n, w)
    ensures Winner(ps, logsOk, n, w) == if k < |ps| then Some(ps[k]) else None
  {
    hide Can;
    NobodyBefore(ps, k, logsOk, n, w);
    if k < |ps| {
      assert Can(ps[k], logsOk, n, w);
      WinnerHere(ps, k, logsOk, n, w);
      WinnerStays(ps, k + 1, logsOk, n, w);
    } else {
      assert ps[..k] == ps;
    }
  }

  lemma WinnerHere(ps: seq<Policy>, k: nat, logsOk: bool, n: nat, w: World)
    requires k < |ps| && Winner(ps[..k], logsOk, n, w).None? && Can(ps[k], logsOk, n, w)
    ensures Winner(ps[..k + 1], logsOk, n, w) == Some(ps[k])
  {
    WinnerNext(ps, k, logsOk, n, w);
  }

  lemma {:induction false} NobodyBefore(ps: seq<Policy>, k: nat, logsOk: bool, n: nat, w: World)
    requires k <= |ps| && forall j :: 0 <= j < k ==> !Can(ps[j], logsOk, n, w)
    ensures Winner(ps[..k], logsOk, n, w).None?
  {
    hide Winner;
    if k > 0 {
      NobodyBefore(ps, k - 1, logsOk, n, w);
      WinnerNext(ps, k - 1, logsOk, n, w);
      assert !Can(ps[k - 1], logsOk, n, w);
    } else {
      WinnerOfNone(ps, logsOk, n, w);
    }
  }

  lemma WinnerOfNone(ps: seq<Policy>, logsOk: bool, n: nat, w: World)
    ensures Winner(ps[..0], logsOk, n, w).None?
  {
  }

  lemma FirstOfFour(a: Code, b: Code, c: Code, d: Code)
    ensures FirstFailure([a, b, c, d])
         == if Failed(a) then a.value else if Failed(b) then b.value
            else if Failed(c) then c.value else if Failed(d) then d.value else 0
  {
    assert [a, b, c, d][1..] == [b, c, d] && [b, c, d][1..] == [c, d] && [c, d][1..] == [d] && [d][1..] == [];
    assert FirstFailure([d]) == if Failed(d) then d.value else 0;
    assert FirstFailure([c, d]) == if Failed(c) then c.value else FirstFailure([d]);
  }

  // What a transfer returns. For local stageout the code of the storage's error is not used.
  function LocalCode(t: Transfer): int {
    match t
    case Done => 0
    case Timeout => 60403
    case StorageError(_) => 60307
    case Exception => 60318
  }

  function DirectCode(t: Transfer): int {
    match t
    case Done => 0
    case Timeout => 60403
    case StorageError(code) => code
    case Exception => 60318
  }

  predicate Failed(c: Code) {
    c.Some? && c.value != 0
  }

  // The code of a transfer: the timeout and other exceptions have theirs, and an error of the storage has its
  // own under the remote policy only.
  function CodeOf(p: Policy, t: Transfer): (code: int)
    ensures code == 0 <==> t.Done?
  {
    if t.Done? then 0
    else if t == Timeout then 60403
    else if t == Exception then 60318
    else if p == Remote then t.code
    else 60307
  }

  // The code of the first transfer of outputs that fails under a policy.
  ghost predicate OutputFailsWith(p: Policy, n: nat, w: World, code: Code) {
    exists i: nat :: i < n && AllDone(p, i, w) && !w.output(p, i).Done? && code == Some(CodeOf(p, w.output(p, i)))
  }

  // The code of the first transfer that fails under a policy: that of the logs, or that of an output.
  ghost predicate FailsWith(p: Policy, logsOk: bool, n: nat, w: World, code: Code) {
    if logsOk && !w.log(p).Done? then code == Some(CodeOf(p, w.log(p))) else OutputFailsWith(p, n, w, code)
  }

  // The k-th policy is the first that can be tried.
  predicate TriedFirst(ps: seq<Policy>, k: nat, w: World)
    requires k < |ps|
  {
    Initialised(ps[k], w) && forall j :: 0 <= j < k ==> !Initialised(ps[j], w)
  }

  function FirstTried(ps: seq<Policy>, w: World): (k: nat)
    ensures k <= |ps| && (k < |ps| ==> Initialised(ps[k], w)) && forall j :: 0 <= j < k ==> !Initialised(ps[j], w)
  {
    if ps == [] || Initialised(ps[0], w) then 0 else FirstTried(ps[1..], w) + 1
  }

  // The failure on record when the first k policies have been tried in vain: that of the first one.
  ghost predicate OnRecord(ps: seq<Policy>, k: nat, logsOk: bool, n: nat, w: World, code: Code)
    requires k <= |ps|
  {
    var f := FirstTried(ps, w);
    if f < k then FailsWith(ps[f], logsOk, n, w, code) else code.None?
  }

  lemma StaysOnRecord(ps: seq<Policy>, k: nat, logsOk: bool, n: nat, w: World, code: Code, next: Code)
    requires k < |ps| && OnRecord(ps, k, logsOk, n, w, code) && !Can(ps[k], logsOk, n, w)
    requires if code.None? && Initialised(ps[k], w) then FailsWith(ps[k], logsOk, n, w, next) else next == code
    ensures OnRecord(ps, k + 1, logsOk, n, w, next)
  {
  }

  class Wrapper {
    var exitCode: int
    var logs: map<Policy, Code>
    var outputs: map<Policy, Code>
    var validation: Code
    var exist: Code
    var inReport: Code
    var archive: Code
    var initLocal: Code
    var initDirect: Code
    var firstFailure: Code
    var aso: seq<Request>
    var direct: seq<Direct>
    // The files that the local stageout manager has in its storage.
    var completed: set<File>

    constructor ()
      ensures exitCode == 0 && aso == [] && direct == [] && Fresh()
    {
      exitCode := 0;
      logs, outputs := map[Local := None, Remote := None], map[Local := None, Remote := None];
      validation, exist, inReport, archive, initLocal, initDirect := None, None, None, None, None, None;
      firstFailure := None;
      aso, direct, completed := [], [], {};
    }

    // No step has been executed.
    ghost predicate Fresh()
      reads this
    {
      && exitCode == 0 && aso == [] && direct == []
      && logs == map[Local := None, Remote := None] && outputs == map[Local := None, Remote := None]
      && validation.None? && exist.None? && inReport.None? && archive.None? && initLocal.None? && initDirect.None?
      && firstFailure.None? && completed == {}
    }

    // The first failure stays, unless a code is forced.
    method UpdateExitInfo(code: Code, force: bool)
      modifies this`exitCode
      ensures exitCode == if code.Some? && (force || (old(exitCode) == 0 && code.value != 0)) then code.value
                          else old(exitCode)
    {
      if (exitCode == 0 && code != None && code != Some(0)) || (force && code != None) {
        exitCode := code.value;
      }
    }

    // perform_local_stageout: a file that was staged out is requested to be transferred on.
    method PerformLocalStageout(file: File, inject: bool, t: Transfer) returns (code: int)
      modifies this`aso, this`completed
      ensures code == LocalCode(t)
      ensures completed == if Kept(t) then old(completed) + {file} else old(completed)
      ensures aso == if t.Done? && inject then old(aso) + [Request(file, true)] else old(aso)
    {
      code := LocalCode(t);
      if Kept(t) {
        completed := completed + {file};
      }
      if code == 0 && inject {
        aso := aso + [Request(file, true)];
      }
    }

    // perform_direct_stageout: every attempt is recorded.
    method PerformDirectStageout(file: File, t: Transfer) returns (code: int)
      modifies this`direct
      ensures code == DirectCode(t) && direct == old(direct) + [Direct(file, false)]
    {
      direct := direct + [Direct(file, false)];
      code := DirectCode(t);
    }

    method PerformStageout(policy: Policy, file: File, inject: bool, t: Transfer) returns (code: int)
      requires !policy.Unknown?
      modifies this`aso, this`direct, this`completed
      ensures code == CodeOf(policy, t)
      ensures completed == if policy == Local && Kept(t) then old(completed) + {file} else old(completed)
      ensures policy == Local ==>
                direct == old(direct) && aso == if t.Done? && inject then old(aso) + [Request(file, true)] else old(aso)
      ensures policy == Remote ==> aso == old(aso) && direct == old(direct) + [Direct(file, false)]
    {
      if policy == Local {
        code := PerformLocalStageout(file, inject, t);
      } else {
        code := PerformDirectStageout(file, t);
      }
    }

    // clean_stageout_area. The local stageout manager is called if it has files to remove. An exception of
    // it is not caught: StageOutError is a module and not a class.
    method CleanStageoutArea(policy: Policy, keepLog: bool, w: World) returns (crashed: bool)
      requires !policy.Unknown?
      modifies this`aso, this`direct
      ensures crashed <==>
                policy == Local && completed - (if keepLog then {Log} else {}) != {} && w.managerRaises
      ensures policy == Local && !crashed ==> aso == Withdrawn(old(aso)) && direct == old(direct)
      ensures policy == Remote ==> aso == old(aso) && direct == Cleaned(old(direct), keepLog)
    {
      crashed := false;
      if policy == Local {
        if completed - (if keepLog then {Log} else {}) != {} && w.managerRaises {
          return true;
        }
        var i := 0;
        while i < |aso|
          invariant i <= |aso| == |old(aso)| && direct == old(direct)
          invariant forall k :: 0 <= k < i ==> aso[k] == old(aso)[k].(inject := false)
          invariant forall k :: i <= k < |aso| ==> aso[k] == old(aso)[k]
        {
          aso := aso[i := aso[i].(inject := false)];
          i := i + 1;
        }
      } else {
        var i := 0;
        while i < |direct|
          invariant i <= |direct| == |old(direct)| && aso == old(aso)
          invariant forall k :: 0 <= k < i ==> direct[k] == CleanedOne(old(direct)[k], keepLog)
          invariant forall k :: i <= k < |direct| ==> direct[k] == old(direct)[k]
        {
          if !direct[i].removed && !(direct[i].file == Log && keepLog) {
            direct := direct[i := direct[i].(removed := true)];
          }
          i := i + 1;
        }
      }
    }

    // ---- the loop over the policies ----

    // The return codes of both stageouts, by policy.
    ghost predicate HasCodes()
      reads this`logs, this`outputs
    {
      logs.Keys == {Local, Remote} && outputs.Keys == {Local, Remote}
    }

    // Stageout of the logs under a policy, if it is to be done.
    method StageLogs(policy: Policy, logsOk: bool, transferLogs: bool, w: World) returns (clean: bool)
      requires !policy.Unknown? && HasCodes()
      modifies this`logs, this`aso, this`direct, this`firstFailure, this`completed
      ensures HasCodes() && old(completed) <= completed <= old(completed) + {Log}
      ensures policy == Remote ==> completed == old(completed)
      ensures var other := if policy == Local then Remote else Local;
              var init := if policy == Local then initLocal else initDirect;
              var t := w.log(policy);
              if logsOk && init == Some(0) && old(logs)[other] != Some(0) then
                && logs == old(logs)[policy := logs[policy]] && logs[policy].Some?
                && logs[policy] == Some(CodeOf(policy, t))
                && clean == !t.Done?
                && firstFailure == (if clean && transferLogs && old(firstFailure).None? then logs[policy]
                                    else old(firstFailure))
                && aso == old(aso) + (if policy == Local && t.Done? && transferLogs then [Request(Log, true)] else [])
                && direct == old(direct) + (if policy == Remote then [Direct(Log, false)] else [])
              else
                && !clean && logs == old(logs) && aso == old(aso) && direct == old(direct)
                && firstFailure == old(firstFailure)
    {
      clean := false;
      var condition := logsOk;
      if policy == Local {
        condition := condition && initLocal == Some(0) && logs[Remote] != Some(0);
      } else {
        condition := condition && initDirect == Some(0) && logs[Local] != Some(0);
      }
      if condition {
        var code := PerformStageout(policy, Log, transferLogs, w.log(policy));
        logs := logs[policy := Some(code)];
        if code != 0 {
          clean := true;
          if transferLogs && firstFailure.None? {
            firstFailure := logs[policy];
          }
        }
      }
    }

    // The loop over the output files: it ends with the first one that fails.
    method StageFiles(policy: Policy, entries: seq<Entry>, n: nat, inject: bool, w: World)
      requires !policy.Unknown? && HasCodes() && n <= |entries| && outputs[policy].None?
      requires forall i :: 0 <= i < n ==> entries[i].Entry?
      requires policy == Local ==> completed <= {Log}
      modifies this`outputs, this`aso, this`direct, this`completed
      ensures policy == Local ==> (completed <= {Log} <==> n == 0 || !Kept(w.output(policy, 0)))
      ensures policy == Remote ==> completed == old(completed)
      ensures HasCodes() && outputs == old(outputs)[policy := outputs[policy]]
      ensures outputs[policy].None? <==> n == 0
      ensures AllDone(policy, n, w) <==> !Failed(outputs[policy])
      ensures Failed(outputs[policy]) ==> OutputFailsWith(policy, n, w, outputs[policy])
      ensures AllDone(policy, n, w) && policy == Local ==>
                aso == old(aso) + if inject then Requests(Files(entries, n)) else []
      ensures AllDone(policy, n, w) && policy == Remote ==> direct == old(direct) + Directs(Files(entries, n))
      ensures policy == Local ==> direct == old(direct)
      ensures policy == Remote ==> aso == old(aso)
    {
      var i := 0;
      hide Injected, Live, Files, Requests, Directs;
      NoFiles(entries);
      while i < n
        invariant 0 <= i <= n && HasCodes() && outputs == old(outputs)[policy := outputs[policy]]
        invariant outputs[policy] == if i == 0 then None else Some(0)
        invariant AllDone(policy, i, w)
        invariant policy == Remote ==> completed == old(completed)
        invariant policy == Local && i == 0 ==> completed <= {Log}
        invariant policy == Local && i > 0 ==> Output(entries[0].dest) in completed
        invariant policy == Local ==>
                    direct == old(direct) && aso == old(aso) + if inject then Requests(Files(entries, i)) else []
        invariant policy == Remote ==> aso == old(aso) && direct == old(direct) + Directs(Files(entries, i))
      {
        var file := Output(entries[i].dest);
        var code := PerformStageout(policy, file, inject, w.output(policy, i));
        outputs := outputs[policy := Some(code)];
        if code != 0 {
          return;
        }
        NextFile(entries, i);
        i := i + 1;
      }
    }

    // Stageout of the outputs under a policy, if it is to be done. Where not one output has a
    // destination there is no return code, and printing it throws.
    method StageOutputs(policy: Policy, entries: seq<Entry>, dests: nat, outputsOk: bool, inject: bool, w: World)
      returns (clean: bool, crashed: bool)
      requires !policy.Unknown? && HasCodes() && outputs[policy].None?
      requires outputsOk ==> forall i :: 0 <= i < |entries| ==> entries[i].Entry?
      requires policy == Local ==> completed <= {Log}
      modifies this`outputs, this`aso, this`direct, this`firstFailure, this`completed
      ensures HasCodes()
      ensures policy == Local && clean ==> (completed <= {Log} <==> !Kept(w.output(policy, 0)))
      ensures policy == Remote ==> completed == old(completed)
      ensures policy == Local && !clean && !crashed && Failed(outputs[policy]) ==> completed <= {Log}
      ensures var other := if policy == Local then Remote else Local;
              var init := if policy == Local then initLocal else initDirect;
              var n := Zipped(entries, dests);
              var due := outputsOk && init == Some(0) && old(outputs)[other] != Some(0);
              if !due then
                && !clean && !crashed && outputs == old(outputs) && aso == old(aso) && direct == old(direct)
                && firstFailure == old(firstFailure)
              else if Failed(logs[policy]) then
                && !clean && !crashed && outputs == old(outputs)[policy := Some(60318)]
                && aso == old(aso) && direct == old(direct)
                && firstFailure == old(firstFailure)
              else if n == 0 then crashed
              else
                var ok := AllDone(policy, n, w);
                && !crashed && clean == !ok
                && outputs == old(outputs)[policy := outputs[policy]] && outputs[policy].Some?
                && (ok <==> outputs[policy] == Some(0))
                && firstFailure == (if clean && old(firstFailure).None? then outputs[policy] else old(firstFailure))
                && (clean ==> OutputFailsWith(policy, n, w, outputs[policy]))
                && (policy == Local ==> direct == old(direct))
                && (policy == Local && ok ==> aso == old(aso) + if inject then Requests(Files(entries, n)) else [])
                && (policy == Remote ==> aso == old(aso))
                && (policy == Remote && ok ==> direct == old(direct) + Directs(Files(entries, n)))
    {
      clean, crashed := false, false;
      var condition := outputsOk;
      if policy == Local {
        condition := condition && initLocal == Some(0) && outputs[Remote] != Some(0);
      } else {
        condition := condition && initDirect == Some(0) && outputs[Local] != Some(0);
      }
      if condition && logs[policy] != None && logs[policy] != Some(0) {
        outputs := outputs[policy := Some(60318)];
        condition := false;
      }
      if condition {
        StageFiles(policy, entries, Zipped(entries, dests), inject, w);
        if outputs[policy] == None {
          return false, true;
        }
        if outputs[policy] != Some(0) {
          clean := true;
          if firstFailure.None? {
            firstFailure := outputs[policy];
          }
        }
      }
    }

    ghost function Init(p: Policy): Code
      reads this`initLocal, this`initDirect
    {
      if p == Local then initLocal else initDirect
    }

    // Under policy p, after its turn if it has had one: without the outputs, no success of the logs.
    ghost predicate Fate(p: Policy, tried: bool, logsOk: bool, outputsOk: bool)
      requires HasCodes() && !p.Unknown?
      reads this`logs, this`outputs, this`initLocal, this`initDirect, this`firstFailure
    {
      var other := if p == Local then Remote else Local;
      && (!tried || !outputsOk || Init(p) != Some(0) ==> logs[p].None? && outputs[p].None?)
      && (if logsOk then logs[p] == Some(0) <==> outputs[p] == Some(0) else logs[p].None?)
      && (tried && outputsOk && Init(p) == Some(0) ==> outputs[p].Some? || outputs[other] == Some(0))
      && (Failed(outputs[p]) ==> firstFailure.Some?)
    }

    // What holds between the turns of the loop.
    ghost predicate Loop(tried: set<Policy>, entries: seq<Entry>, dests: nat, logsOk: bool, outputsOk: bool)
      reads this
    {
      && HasCodes()
      && (outputsOk ==> forall i :: 0 <= i < |entries| ==> entries[i].Entry?)
      && (logsOk ==> outputsOk)
      && Fate(Local, Local in tried, logsOk, outputsOk) && Fate(Remote, Remote in tried, logsOk, outputsOk)
      && !(outputs[Local] == Some(0) && outputs[Remote] == Some(0))
      && (firstFailure.Some? ==> Failed(firstFailure) && (Failed(outputs[Local]) || Failed(outputs[Remote])))
      && (Local !in tried ==> completed == {})
      && Injected(aso) == (if outputs[Local] == Some(0) then Staged(logsOk, entries, Zipped(entries, dests)) else [])
      && Live(direct) == (if outputs[Remote] == Some(0) then Staged(logsOk, entries, Zipped(entries, dests)) else [])
    }

    // The stageout of logs and outputs under a policy is skipped, goes well, or fails.
    ghost predicate Due(policy: Policy, outputsOk: bool)
      requires HasCodes() && !policy.Unknown?
      reads this
    {
      outputsOk && Init(policy) == Some(0) && outputs[if policy == Local then Remote else Local] != Some(0)
    }

    method Attempt(policy: Policy, entries: seq<Entry>, dests: nat, logsOk: bool, outputsOk: bool, transferLogs: bool,
                   inject: bool, w: World, ghost tried: set<Policy>)
      returns (clean: bool, crashed: bool)
      requires Loop(tried, entries, dests, logsOk, outputsOk) && policy !in tried && !policy.Unknown?
      requires (outputsOk ==> inject) && (logsOk ==> transferLogs)
      modifies this`logs, this`outputs, this`aso, this`direct, this`firstFailure, this`completed
      ensures HasCodes() && (policy == Remote ==> completed == old(completed))
      ensures crashed <==> old(Due(policy, outputsOk)) && NothingToStage(policy, logsOk, Zipped(entries, dests), w)
      ensures policy == Local && !crashed && clean ==>
                (completed <= {Log} <==> !ManagerHasFiles(logsOk, Zipped(entries, dests), w))
      ensures forall q :: !crashed && q in logs && q != policy ==>
                logs[q] == old(logs)[q] && outputs[q] == old(outputs)[q]
      ensures !old(Due(policy, outputsOk)) ==>
                && !clean && !crashed && logs == old(logs) && outputs == old(outputs)
                && aso == old(aso) && direct == old(direct) && firstFailure == old(firstFailure)
      ensures old(Due(policy, outputsOk)) && !crashed ==> clean == !Works(policy, logsOk, Zipped(entries, dests), w)
      ensures old(Due(policy, outputsOk)) && !crashed && !clean ==>
                && logs[policy] == (if logsOk then Some(0) else None) && outputs[policy] == Some(0)
                && firstFailure == old(firstFailure)
                && var staged := Staged(logsOk, entries, Zipped(entries, dests));
                   && aso == old(aso) + (if policy == Local then Requests(staged) else [])
                   && direct == old(direct) + (if policy == Remote then Directs(staged) else [])
      ensures old(Due(policy, outputsOk)) && !crashed && clean ==>
                && (logsOk <==> logs[policy].Some?) && Failed(outputs[policy])
                && Failed(firstFailure)
                && (if old(firstFailure).Some? then firstFailure == old(firstFailure)
                    else FailsWith(policy, logsOk, Zipped(entries, dests), w, firstFailure))
                && (policy == Local ==> direct == old(direct)) && (policy == Remote ==> aso == old(aso))
    {
      hide Injected, Live, Zipped, Requests, Directs, AllDone, Files;
      ghost var n := Zipped(entries, dests);
      if outputsOk {
        StagedParts(logsOk, entries, n);
      }
      clean := StageLogs(policy, logsOk, transferLogs, w);
      var more;
      more, crashed := StageOutputs(policy, entries, dests, outputsOk, inject, w);
      clean := clean || more;
    }

    // What holds when the loop has ended.
    ghost predicate Settled(entries: seq<Entry>, dests: nat, logsOk: bool, outputsOk: bool)
      reads this`logs, this`outputs, this`firstFailure, this`aso, this`direct, this`initLocal, this`initDirect
    {
      && HasCodes()
      && (outputsOk ==> forall i :: 0 <= i < |entries| ==> entries[i].Entry?)
      && (forall p :: p in {Local, Remote} ==>
            if logsOk then logs[p] == Some(0) <==> outputs[p] == Some(0) else logs[p].None?)
      && !(outputs[Local] == Some(0) && outputs[Remote] == Some(0))
      && (firstFailure.Some? ==> Failed(firstFailure))
      && (firstFailure.Some? <==> Failed(outputs[Local]) || Failed(outputs[Remote]))
      && (outputs[Local] == Some(0) || outputs[Remote] == Some(0) ==> outputsOk)
      && (initLocal != Some(0) ==> outputs[Local].None?) && (initDirect != Some(0) ==> outputs[Remote].None?)
      && Injected(aso) == (if outputs[Local] == Some(0) then Staged(logsOk, entries, Zipped(entries, dests)) else [])
      && Live(direct) == (if outputs[Remote] == Some(0) then Staged(logsOk, entries, Zipped(entries, dests)) else [])
    }

    // Cleaning after a failure under a policy. A success of the logs is no success any more; that of the
    // outputs is a failure by now, so that the branch of the program that makes it one is never taken.
    method CleanAfter(policy: Policy, w: World) returns (crashed: bool)
      requires HasCodes() && !policy.Unknown? && Failed(outputs[policy])
      modifies this`logs, this`aso, this`direct
      ensures crashed <==> policy == Local && !(completed <= {Log}) && w.managerRaises
      ensures HasCodes() && logs == old(logs)[policy := logs[policy]]
      ensures !crashed ==> logs[policy] != Some(0) && (logs[policy].Some? <==> old(logs)[policy].Some?)
      ensures !crashed ==> if policy == Local then Injected(aso) == [] && direct == old(direct)
                           else Live(direct) == [] && aso == old(aso)
    {
      hide Injected, Live;
      var keepLog := policy != Remote;
      crashed := CleanStageoutArea(policy, keepLog, w);
      if !crashed && logs[policy] == Some(0) {
        logs := logs[policy := Some(60318)];
      }
    }

    // One turn: logs, outputs and, after a failure of either, cleaning. A policy that is not known has no
    // return codes, which throws.
    method Turn(policy: Policy, entries: seq<Entry>, dests: nat, logsOk: bool, outputsOk: bool, transferLogs: bool,
                inject: bool, w: World, ghost tried: set<Policy>)
      returns (stop: bool, crashed: bool)
      requires Loop(tried, entries, dests, logsOk, outputsOk) && policy !in tried
      requires (outputsOk ==> inject) && (logsOk ==> transferLogs)
      modifies this`logs, this`outputs, this`aso, this`direct, this`firstFailure, this`completed
      ensures crashed <==>
                policy.Unknown? || (old(Due(policy, outputsOk)) && Breaks(policy, logsOk, Zipped(entries, dests), w))
      ensures !crashed ==> Loop(tried + {policy}, entries, dests, logsOk, outputsOk) && !policy.Unknown?
      ensures !crashed ==> (stop <==> logsOk && outputs[policy] == Some(0))
      ensures !crashed ==>
                && (outputs[policy] == Some(0) <==>
                      old(Due(policy, outputsOk)) && Works(policy, logsOk, Zipped(entries, dests), w))
                && forall q :: q in outputs && q != policy ==> outputs[q] == old(outputs)[q]
      ensures !crashed ==> if policy == Local then direct == old(direct) else aso == old(aso)
      ensures !crashed ==>
                if old(firstFailure).None? && old(Due(policy, outputsOk))
                   && !Works(policy, logsOk, Zipped(entries, dests), w)
                then FailsWith(policy, logsOk, Zipped(entries, dests), w, firstFailure)
                else firstFailure == old(firstFailure)
    {
      hide Zipped, Injected, Live, Staged, Requests, Directs, ManagerHasFiles, Works, FailsWith;
      if policy.Unknown? {
        return false, true;
      }
      var clean;
      clean, crashed := Attempt(policy, entries, dests, logsOk, outputsOk, transferLogs, inject, w, tried);
      if crashed {
        return false, true;
      }
      if !clean && old(Due(policy, outputsOk)) {
        ghost var staged := Staged(logsOk, entries, Zipped(entries, dests));
        GrownBy(old(aso), old(direct), aso, direct, policy == Local, staged);
        assert [] + staged == staged;
      }
      if clean {
        crashed := CleanAfter(policy, w);
        if crashed {
          return false, true;
        }
      }
      stop := logs[policy] == Some(0) && outputs[policy] == Some(0);
    }

    // ---- the steps before the loop ----

    // CHECK OUTPUT FILES EXIST: a malformed entry, or a file that is not there. The first failure stays.
    method CheckExist(entries: seq<Entry>, w: World)
      requires exist.None?
      modifies this`exist
      ensures exist.None? <==> entries == []
      ensures exist == Some(0) ==> forall i :: 0 <= i < |entries| ==> entries[i].Entry? && w.exist(i)
      ensures entries != [] && (forall i :: 0 <= i < |entries| ==> entries[i].Entry? && w.exist(i)) ==> exist == Some(0)
    {
      var i := 0;
      while i < |entries|
        invariant 0 <= i <= |entries| && (exist.None? <==> i == 0)
        invariant i > 0 ==> (exist == Some(0) <==> forall k :: 0 <= k < i ==> entries[k].Entry? && w.exist(k))
      {
        var current := if entries[i].Malformed? then 80000 else if !w.exist(i) then 60302 else 0;
        if exist == None || exist == Some(0) {
          exist := Some(current);
        }
        i := i + 1;
      }
    }

    // CHECK OUTPUT FILES IN JOB REPORT: a file that is not in the report and cannot be added.
    method CheckReported(entries: seq<Entry>, w: World) returns (crashed: bool)
      requires inReport.None? && forall i :: 0 <= i < |entries| ==> entries[i].Entry?
      modifies this`inReport
      ensures crashed <==> exists i :: 0 <= i < |entries| && w.reported(i).Throws?
      ensures !crashed ==> (inReport.None? <==> entries == [])
      ensures !crashed && entries != [] ==>
                (inReport == Some(0) <==> forall i :: 0 <= i < |entries| ==> w.reported(i).Yes?)
    {
      var i := 0;
      while i < |entries|
        invariant 0 <= i <= |entries| && (inReport.None? <==> i == 0)
        invariant forall k :: 0 <= k < i ==> !w.reported(k).Throws?
        invariant i > 0 ==> (inReport == Some(0) <==> forall k :: 0 <= k < i ==> w.reported(k).Yes?)
      {
        if w.reported(i).Throws? {
          return true;
        }
        var current := if entries[i].Malformed? then 80000 else if w.reported(i).No? then 60318 else 0;
        if inReport == None || inReport == Some(0) {
          inReport := Some(current);
        }
        i := i + 1;
      }
      crashed := false;
    }

    // The steps up to the loop, each under its condition. The exit code is that of the first failure.
    method Checks(ad: JobAd, transferLogs: bool, transferOutputs: bool, w: World) returns (crashed: bool)
      requires Fresh() && ad.outputs.Some?
      requires transferOutputs == TransferOutputs(ad) && transferLogs == TransferLogs(ad)
      modifies this`validation, this`exist, this`inReport, this`archive, this`exitCode
      ensures crashed <==> ChecksCrash(ad, w)
      ensures !crashed ==>
                && (exist == Some(0) && inReport == Some(0) <==> ChecksOk(ad, w))
                && archive == (if !transferLogs then None else if w.archive.Made? then Some(0) else Some(80000))
                && exitCode == FirstFailure([validation, exist, inReport, archive])
                && (exitCode == 0 <==>
                      w.report.Good? && (transferOutputs ==> ChecksOk(ad, w)) && !Failed(archive))
    {
      var entries := ad.outputs.value;
      validation := Some(if w.report.Good? then 0 else 80000);
      UpdateExitInfo(validation, false);
      if w.report.Unreadable? {
        return true;
      }
      if transferOutputs {
        CheckExist(entries, w);
      }
      UpdateExitInfo(exist, false);
      if validation == Some(0) && exist == Some(0) {
        crashed := CheckReported(entries, w);
        if crashed {
          return;
        }
      }
      UpdateExitInfo(inReport, false);
      if transferLogs {
        if w.archive.Uncaught? {
          return true;
        }
        archive := Some(if w.archive.Made? then 0 else 80000);
      }
      UpdateExitInfo(archive, false);
      FirstOfFour(validation, exist, inReport, archive);
      crashed := false;
    }

    // LOCAL STAGEOUT MANAGER INITIALIZATION and DIRECT STAGEOUT IMPLEMENTATION INITIALIZATION. The result
    // of the second is forced on the exit code if the first was not done or failed, even if it is zero.
    method Initialise(ps: seq<Policy>, outputsOk: bool, w: World)
      requires initLocal.None? && initDirect.None?
      modifies this`initLocal, this`initDirect, this`exitCode
      ensures initLocal == if Local in ps && outputsOk then Some(if w.localOk then 0 else 60311) else None
      ensures initDirect == if Remote in ps && outputsOk then Some(if w.directOk then 0 else 60311) else None
      ensures exitCode == if initLocal != Some(0) && initDirect.Some? then initDirect.value
                          else if old(exitCode) == 0 && Failed(initLocal) then initLocal.value
                          else old(exitCode)
    {
      if Local in ps && outputsOk {
        initLocal := Some(if w.localOk then 0 else 60311);
      }
      UpdateExitInfo(initLocal, false);
      if Remote in ps && outputsOk {
        initDirect := Some(if w.directOk then 0 else 60311);
      }
      if initLocal != Some(0) {
        UpdateExitInfo(initDirect, true);
      }
    }

    // The loop over the policies and what follows it.
    method Stageout(ps: seq<Policy>, entries: seq<Entry>, dests: nat, logsOk: bool, outputsOk: bool, transferLogs: bool,
                    w: World)
      returns (crashed: bool)
      requires Loop({}, entries, dests, logsOk, outputsOk) && (logsOk ==> transferLogs)
      requires forall i, j :: 0 <= i < j < |ps| ==> ps[i] != ps[j]
      requires InitIs(ps, outputsOk, w)
      modifies this`logs, this`outputs, this`aso, this`direct, this`firstFailure, this`completed
      ensures crashed <==> LoopCrashes(ps, logsOk, outputsOk, Zipped(entries, dests), w)
      ensures !crashed ==> Settled(entries, dests, logsOk, outputsOk)
      ensures !crashed ==> var r := Winner(ps, logsOk, Zipped(entries, dests), w);
                WonBy(r, outputsOk) && (outputsOk && r.None? ==> forall p :: p in ps ==> GivenUp(p, w))
      ensures !crashed ==> (Local !in ps ==> aso == old(aso)) && (Remote !in ps ==> direct == old(direct))
      ensures !crashed && outputsOk && Winner(ps, logsOk, Zipped(entries, dests), w).None? ==>
                OnRecord(ps, |ps|, logsOk, Zipped(entries, dests), w, firstFailure)
    {
      hide Loop, Zipped, Settled, Works, WonBy, Winner, CrashesAt, FailsWith, OnRecord, Breaks, GivenUp, FirstTried;
      ghost var n := Zipped(entries, dests);
      ghost var tried: set<Policy> := {};
      crashed := false;
      LoopCodes(tried, entries, dests, logsOk, outputsOk);
      NobodyWon(ps, logsOk, n, w, outputsOk);
      NothingOnRecord(ps, entries, dests, logsOk, outputsOk, n, w);
      var k := 0;
      while k < |ps|
        invariant 0 <= k <= |ps| && (forall p :: p in tried <==> p in ps[..k])
        invariant Loop(tried, entries, dests, logsOk, outputsOk)
        invariant WonBy(Winner(ps[..k], logsOk, n, w), outputsOk)
        invariant logsOk ==> Winner(ps[..k], logsOk, n, w).None?
        invariant outputsOk && Winner(ps[..k], logsOk, n, w).None? ==> OnRecord(ps, k, logsOk, n, w, firstFailure)
        invariant forall p :: p in tried ==> !p.Unknown?
        invariant (Local !in ps ==> aso == old(aso)) && (Remote !in ps ==> direct == old(direct))
        invariant forall j :: 0 <= j < k ==> !CrashesAt(ps, j, logsOk, outputsOk, n, w)
      {
        var p := ps[k];
        ghost var r := Winner(ps[..k], logsOk, n, w);
        WinnerNext(ps, k, logsOk, n, w);
        WinnerIn(ps[..k], logsOk, n, w);
        CrashesHere(ps, k, logsOk, outputsOk, n, w);
        assert p !in ps[..k] && ps[..k + 1] == ps[..k] + [p];
        var stop;
        ghost var before := firstFailure;
        stop, crashed := TurnWins(p, r, entries, dests, logsOk, outputsOk, transferLogs, w, tried);
        if crashed {
          return true;
        }
        if outputsOk && Winner(ps[..k + 1], logsOk, n, w).None? {
          StaysOnRecord(ps, k, logsOk, n, w, before, firstFailure);
        }
        tried := tried + {p};
        k := k + 1;
        if stop {
          WinnerStays(ps, k, logsOk, n, w);
          NoCrashAfter(ps, k, logsOk, outputsOk, n, w);
          break;
        }
      }
      LoopSettles(tried, entries, dests, logsOk, outputsOk);
      if k == |ps| {
        assert ps[..k] == ps;
        if outputsOk && Winner(ps, logsOk, n, w).None? {
          AllInVain(ps, Winner(ps, logsOk, n, w), tried, entries, dests, logsOk, w);
        }
      }
    }

    // The initialisations of the policies that are tried.
    ghost predicate InitIs(ps: seq<Policy>, outputsOk: bool, w: World)
      reads this`initLocal, this`initDirect
    {
      forall p :: p in {Local, Remote} && p in ps && outputsOk ==> (Init(p) == Some(0) <==> Initialised(p, w))
    }

    // The outputs are staged out under policy r, and under no other.
    ghost predicate WonBy(r: Option<Policy>, outputsOk: bool)
      reads this`outputs
    {
      && outputs.Keys == {Local, Remote}
      && (outputs[Local] == Some(0) <==> outputsOk && r == Some(Local))
      && (outputs[Remote] == Some(0) <==> outputsOk && r == Some(Remote))
    }

    ghost predicate GivenUp(p: Policy, w: World)
      requires outputs.Keys == {Local, Remote}
      reads this`outputs
    {
      !p.Unknown? && (Initialised(p, w) ==> Failed(outputs[p]))
    }

    lemma WonByNobody(r: Option<Policy>, outputsOk: bool)
      requires WonBy(r, outputsOk) && r.None?
      ensures outputs.Keys == {Local, Remote} && outputs[Local] != Some(0) && outputs[Remote] != Some(0)
    {
    }

    lemma NobodyWon(ps: seq<Policy>, logsOk: bool, n: nat, w: World, outputsOk: bool)
      requires outputs.Keys == {Local, Remote} && outputs[Local] != Some(0) && outputs[Remote] != Some(0)
      ensures Winner(ps[..0], logsOk, n, w).None? && WonBy(None, outputsOk)
    {
    }

    lemma AllInVain(ps: seq<Policy>, r: Option<Policy>, tried: set<Policy>, entries: seq<Entry>, dests: nat,
                    logsOk: bool, w: World)
      requires Loop(tried, entries, dests, logsOk, true) && (forall p :: p in tried <==> p in ps)
      requires (forall p :: p in tried ==> !p.Unknown?) && WonBy(r, true) && r.None? && InitIs(ps, true, w)
      ensures outputs.Keys == {Local, Remote} && forall p :: p in ps ==> GivenUp(p, w)
    {
      hide Loop;
      WonByNobody(r, true);
      forall p | p in ps
        ensures GivenUp(p, w)
      {
        TriedInVain(p, tried, entries, dests, logsOk, true, w);
      }
    }

    lemma TriedInVain(p: Policy, tried: set<Policy>, entries: seq<Entry>, dests: nat, logsOk: bool, outputsOk: bool,
                      w: World)
      requires Loop(tried, entries, dests, logsOk, outputsOk) && outputsOk && p in tried && !p.Unknown?
      requires Init(p) == Some(0) <==> Initialised(p, w)
      requires outputs[Local] != Some(0) && outputs[Remote] != Some(0)
      ensures HasCodes() && GivenUp(p, w)
    {
      assert Fate(Local, Local in tried, logsOk, outputsOk) && Fate(Remote, Remote in tried, logsOk, outputsOk);
    }

    // A turn after which the winner is known; r is the winner before it.
    method TurnWins(p: Policy, ghost r: Option<Policy>, entries: seq<Entry>, dests: nat, logsOk: bool, outputsOk: bool,
                    transferLogs: bool, w: World, ghost tried: set<Policy>)
      returns (stop: bool, crashed: bool)
      requires Loop(tried, entries, dests, logsOk, outputsOk) && p !in tried && (logsOk ==> transferLogs)
      requires WonBy(r, outputsOk) && (r.Some? ==> r.value in tried && !r.value.Unknown?)
      requires logsOk ==> r.None?
      requires !p.Unknown? && outputsOk ==> (Init(p) == Some(0) <==> Initialised(p, w))
      modifies this`logs, this`outputs, this`aso, this`direct, this`firstFailure, this`completed
      ensures crashed <==>
                if p.Unknown? then true
                else outputsOk && Initialised(p, w) && r.None? && Breaks(p, logsOk, Zipped(entries, dests), w)
      ensures !crashed ==> Loop(tried + {p}, entries, dests, logsOk, outputsOk) && !p.Unknown?
      ensures !crashed ==>
                var r' := if r.Some? then r
                          else if Initialised(p, w) && Works(p, logsOk, Zipped(entries, dests), w) then Some(p)
                          else None;
                WonBy(r', outputsOk) && (stop <==> logsOk && r'.Some?)
      ensures !crashed ==> if p == Local then direct == old(direct) else aso == old(aso)
      ensures !crashed ==>
                if outputsOk && old(firstFailure).None? && r.None? && Initialised(p, w)
                   && !Works(p, logsOk, Zipped(entries, dests), w)
                then FailsWith(p, logsOk, Zipped(entries, dests), w, firstFailure)
                else firstFailure == old(firstFailure)
    {
      hide Loop, Zipped, Works, Breaks, FailsWith;
      LoopCodes(tried, entries, dests, logsOk, outputsOk);
      stop, crashed := Turn(p, entries, dests, logsOk, outputsOk, transferLogs, true, w, tried);
      if !crashed {
        LoopCodes(tried + {p}, entries, dests, logsOk, outputsOk);
      }
    }

    lemma LoopCodes(tried: set<Policy>, entries: seq<Entry>, dests: nat, logsOk: bool, outputsOk: bool)
      requires Loop(tried, entries, dests, logsOk, outputsOk)
      ensures HasCodes() && !(outputs[Local] == Some(0) && outputs[Remote] == Some(0)) && (logsOk ==> outputsOk)
      ensures !outputsOk || Local !in tried || initLocal != Some(0) ==> outputs[Local].None?
      ensures !outputsOk || Remote !in tried || initDirect != Some(0) ==> outputs[Remote].None?
      ensures outputsOk && Local in tried && initLocal == Some(0) ==> outputs[Local].Some? || outputs[Remote] == Some(0)
      ensures outputsOk && Remote in tried && initDirect == Some(0) ==>
                outputs[Remote].Some? || outputs[Local] == Some(0)
    {
    }

    lemma NothingOnRecord(ps: seq<Policy>, entries: seq<Entry>, dests: nat, logsOk: bool, outputsOk: bool, n: nat,
                          w: World)
      requires Loop({}, entries, dests, logsOk, outputsOk)
      ensures OnRecord(ps, 0, logsOk, n, w, firstFailure)
    {
    }

    lemma LoopSettles(tried: set<Policy>, entries: seq<Entry>, dests: nat, logsOk: bool, outputsOk: bool)
      requires Loop(tried, entries, dests, logsOk, outputsOk)
      ensures Settled(entries, dests, logsOk, outputsOk)
    {
      hide Injected, Live, Staged, Zipped;
      assert Fate(Local, Local in tried, logsOk, outputsOk) && Fate(Remote, Remote in tried, logsOk, outputsOk);
    }

    // main, from the job ad on: when it ends early and when with an exception. At its end exactly what
    // should be is requested from ASO and is left in the remote storage. With outputs to transfer, the exit
    // code is zero if and only if they are staged out under some policy and no failure of the archive of
    // the logs is left on record; without, the logs are never staged out.
    // The policies are tried in the order of the job ad, but for the two rewritings of it.
    method Run(ad: JobAd, w: World) returns (ending: Ending)
      requires Fresh()
      requires ad.policies != []
      requires w.onlyRemote || forall i, j :: 0 <= i < j < |ad.policies| ==> ad.policies[i] != ad.policies[j]
      modifies this
      ensures ending == Early <==> EndsEarly(ad)
      ensures ending == Crashed <==> Crashes(ad, w)
      ensures ending == Early ==> aso == [] && direct == [] && (exitCode == 0 <==> NothingToDo(ad))
      ensures ending == Finished ==>
                Settled(ad.outputs.value, ad.dests, LogsOk(ad, w), ChecksOk(ad, w))
      ensures ending == Finished ==>
                && WonBy(Winner(Policies(ad, w), LogsOk(ad, w), Zipped(ad.outputs.value, ad.dests), w), ChecksOk(ad, w))
                && (exitCode == 0 <==> ExitsOk(ad, w))
                && archive == (if !TransferLogs(ad) then None else Some(if w.archive.Made? then 0 else 80000))
      ensures ending == Finished && exitCode == 0 && TransferOutputs(ad) ==>
                WonBy(Some(Local), true) || WonBy(Some(Remote), true)
      ensures w.onlyRemote ==> GoesBy([Remote], ad, w, ending)
      ensures !w.onlyRemote && w.sameSite && ad.policies == [Local, Remote] ==>
                GoesBy([Remote, Local], ad, w, ending)
      ensures !w.onlyRemote && !(w.sameSite && ad.policies == [Local, Remote]) ==>
                GoesBy(ad.policies, ad, w, ending)
    {
      hide Loop, Settled, Zipped, Staged, Winner, Injected, Live, ChecksCrash, LoopCrashes, Went;
      if ad.noStageout {
        UpdateExitInfo(Some(0), true);
        return Early;
      }
      var transferLogs := if ad.saveLogs == None then false else ad.saveLogs.value;
      var transferOutputs := if ad.transferOutputs == None then true else ad.transferOutputs.value;
      if ad.outputs == None {
        UpdateExitInfo(Some(80000), true);
        return Early;
      }
      var entries := ad.outputs.value;
      if |entries| == 0 {
        if transferOutputs {
          transferOutputs, transferLogs := false, false;
        }
      } else if !transferOutputs {
        transferLogs := false;
      }
      if !transferLogs && !transferOutputs {
        UpdateExitInfo(Some(0), true);
        return Early;
      }
      if !ad.required {
        UpdateExitInfo(Some(80000), true);
        return Early;
      }
      ending := Perform(ad, w, transferLogs, transferOutputs);
      WinnerIn(Policies(ad, w), LogsOk(ad, w), Zipped(entries, ad.dests), w);
      if ending == Finished && ChecksOk(ad, w) {
        AllWentBy(Policies(ad, w), ad, w);
      }
    }

    // Outputs and, if they are made, the logs are staged out under policy p and under no other.
    ghost predicate StagedUnder(p: Policy, ad: JobAd, w: World)
      requires ad.outputs.Some? && ChecksOk(ad, w)
      reads this`outputs, this`aso, this`direct
    {
      var staged := Staged(LogsOk(ad, w), ad.outputs.value, Zipped(ad.outputs.value, ad.dests));
      && outputs.Keys == {Local, Remote}
      && match p
         case Local => outputs[Local] == Some(0) && Injected(aso) == staged && NothingUnder(Remote)
         case Remote => outputs[Remote] == Some(0) && Live(direct) == staged && NothingUnder(Local)
         case Unknown(_) => false
    }

    ghost predicate NothingUnder(p: Policy)
      requires outputs.Keys == {Local, Remote} && !p.Unknown?
      reads this`outputs, this`aso, this`direct
    {
      outputs[p] != Some(0) && if p == Local then Injected(aso) == [] else Live(direct) == []
    }

    // The policies have been tried in this order: what is staged out is staged out under the first of them
    // under which all goes well; without one nothing is, and the exit code is that of the first transfer that
    // has failed under the first policy that could be tried, if nothing has failed before; and a policy that is
    // not among them leaves no trace.
    ghost predicate Went(ps: seq<Policy>, ad: JobAd, w: World)
      requires ad.outputs.Some? && ChecksOk(ad, w)
      reads this`outputs, this`aso, this`direct, this`exitCode
    {
      var n := Zipped(ad.outputs.value, ad.dests);
      && outputs.Keys == {Local, Remote}
      && (forall k :: 0 <= k <= |ps| && FirstIs(ps, k, LogsOk(ad, w), n, w) ==>
            if k < |ps| then StagedUnder(ps[k], ad, w) else NothingUnder(Local) && NothingUnder(Remote))
      && (FirstIs(ps, |ps|, LogsOk(ad, w), n, w) && (TransferLogs(ad) ==> w.archive.Made?) ==>
            forall k :: 0 <= k < |ps| && TriedFirst(ps, k, w) ==> FailsWith(ps[k], LogsOk(ad, w), n, w, Some(exitCode)))
      && (Local !in ps ==> aso == []) && (Remote !in ps ==> direct == [])
    }

    // main goes by the policies in this order, also where it ends with an exception.
    ghost predicate GoesBy(ps: seq<Policy>, ad: JobAd, w: World, ending: Ending)
      reads this`outputs, this`aso, this`direct, this`exitCode
    {
      EndsEarly(ad)
      || (&& (ending == Crashed <==>
                || ChecksCrash(ad, w)
                || LoopCrashes(ps, LogsOk(ad, w), ChecksOk(ad, w), Zipped(ad.outputs.value, ad.dests), w))
          && (ending == Finished && ChecksOk(ad, w) ==> Went(ps, ad, w)))
    }

    lemma WentBy(ps: seq<Policy>, k: nat, ad: JobAd, w: World)
      requires ad.outputs.Some? && ChecksOk(ad, w) && k <= |ps|
      requires Settled(ad.outputs.value, ad.dests, LogsOk(ad, w), true)
      requires WonBy(Winner(ps, LogsOk(ad, w), Zipped(ad.outputs.value, ad.dests), w), true)
      requires FirstIs(ps, k, LogsOk(ad, w), Zipped(ad.outputs.value, ad.dests), w)
      ensures outputs.Keys == {Local, Remote}
      ensures if k < |ps| then StagedUnder(ps[k], ad, w) else NothingUnder(Local) && NothingUnder(Remote)
    {
      hide Injected, Live, Staged, Zipped, Winner, Works;
      FirstWins(ps, k, LogsOk(ad, w), Zipped(ad.outputs.value, ad.dests), w);
    }

    lemma ExplainedAt(ps: seq<Policy>, k: nat, ad: JobAd, w: World)
      requires ad.outputs.Some? && ChecksOk(ad, w) && Explained(ps, ad, w) && (TransferLogs(ad) ==> w.archive.Made?)
      requires k < |ps| && TriedFirst(ps, k, w)
      requires FirstIs(ps, |ps|, LogsOk(ad, w), Zipped(ad.outputs.value, ad.dests), w)
      ensures FailsWith(ps[k], LogsOk(ad, w), Zipped(ad.outputs.value, ad.dests), w, Some(exitCode))
    {
      hide Zipped, Winner, FailsWith, Initialised, FirstIs, FirstTried;
      FirstWins(ps, |ps|, LogsOk(ad, w), Zipped(ad.outputs.value, ad.dests), w);
      assert FirstTried(ps, w) == k;
    }

    lemma AllWentBy(ps: seq<Policy>, ad: JobAd, w: World)
      requires ad.outputs.Some? && ChecksOk(ad, w)
      requires Settled(ad.outputs.value, ad.dests, LogsOk(ad, w), true)
      requires WonBy(Winner(ps, LogsOk(ad, w), Zipped(ad.outputs.value, ad.dests), w), true)
      requires (Local !in ps ==> aso == []) && (Remote !in ps ==> direct == []) && Explained(ps, ad, w)
      ensures Went(ps, ad, w)
    {
      hide Settled, Staged, Zipped, Winner, FirstIs, StagedUnder, NothingUnder, LogsOk, ChecksOk, FailsWith, Explained,
           TriedFirst, FirstTried;
      assert outputs.Keys == {Local, Remote};
      forall k | 0 <= k <= |ps| && FirstIs(ps, k, LogsOk(ad, w), Zipped(ad.outputs.value, ad.dests), w)
        ensures if k < |ps| then StagedUnder(ps[k], ad, w) else NothingUnder(Local) && NothingUnder(Remote)
      {
        WentBy(ps, k, ad, w);
      }
      var n := Zipped(ad.outputs.value, ad.dests);
      if FirstIs(ps, |ps|, LogsOk(ad, w), n, w) && (TransferLogs(ad) ==> w.archive.Made?) {
        forall k | 0 <= k < |ps| && TriedFirst(ps, k, w)
          ensures FailsWith(ps[k], LogsOk(ad, w), n, w, Some(exitCode))
        {
          ExplainedAt(ps, k, ad, w);
        }
      }
    }

    // If stageout failed, the failure that happened first.
    method Conclude(transferLogs: bool, transferOutputs: bool)
      requires HasCodes() && (firstFailure.Some? ==> Failed(firstFailure))
      modifies this`exitCode
      ensures exitCode == if old(exitCode) == 0 && Missing(transferLogs, transferOutputs) && firstFailure.Some?
                          then firstFailure.value else old(exitCode)
    {
      if transferLogs && !(logs[Local] == Some(0) || logs[Remote] == Some(0)) {
        UpdateExitInfo(firstFailure, false);
      }
      if transferOutputs && !(outputs[Local] == Some(0) || outputs[Remote] == Some(0)) {
        UpdateExitInfo(firstFailure, false);
      }
    }

    // The steps before the loop, and what the exit code says after them.
    method Prepare(ad: JobAd, w: World, transferLogs: bool, transferOutputs: bool) returns (crashed: bool)
      requires Fresh() && ad.outputs.Some?
      requires transferOutputs == TransferOutputs(ad) && transferLogs == TransferLogs(ad)
      modifies this`validation, this`exist, this`inReport, this`archive, this`initLocal, this`initDirect, this`exitCode
      ensures crashed <==> ChecksCrash(ad, w)
      ensures !crashed ==>
                && (exist == Some(0) && inReport == Some(0) <==> ChecksOk(ad, w))
                && archive == (if !transferLogs then None else Some(if w.archive.Made? then 0 else 80000))
                && Started(Policies(ad, w), ChecksOk(ad, w), w)
                && ExitSoFar(ad, w)
    {
      hide FirstFailure, ReportThrows;
      crashed := Checks(ad, transferLogs, transferOutputs, w);
      if crashed {
        return;
      }
      Initialise(Policies(ad, w), exist == Some(0) && inReport == Some(0), w);
    }

    // The return codes of both initialisations.
    ghost predicate Started(ps: seq<Policy>, outputsOk: bool, w: World)
      reads this`initLocal, this`initDirect
    {
      && initLocal == (if Local in ps && outputsOk then Some(if w.localOk then 0 else 60311) else None)
      && initDirect == (if Remote in ps && outputsOk then Some(if w.directOk then 0 else 60311) else None)
    }

    // What the exit code says before the loop.
    ghost predicate ExitSoFar(ad: JobAd, w: World)
      requires ad.outputs.Some?
      reads this`initLocal, this`initDirect, this`exitCode
    {
      && !(TransferLogs(ad) && w.archive.Uncaught?)
      && (if !ChecksOk(ad, w) then
            exitCode == 0 <==> !TransferOutputs(ad) && w.report.Good? && (TransferLogs(ad) ==> w.archive.Made?)
          else if initLocal == Some(0) || initDirect == Some(0) then exitCode == 0 <==> !ArchiveRecorded(ad, w)
          else initLocal.Some? || initDirect.Some? ==> exitCode != 0)
    }

    // A stageout that is wanted has not gone well under any policy.
    ghost predicate Missing(transferLogs: bool, transferOutputs: bool)
      requires HasCodes()
      reads this`logs, this`outputs
    {
      || (transferLogs && logs[Local] != Some(0) && logs[Remote] != Some(0))
      || (transferOutputs && outputs[Local] != Some(0) && outputs[Remote] != Some(0))
    }

    // After the loop the exit code, with the first failure of a stageout that is missing, says whether all
    // went well.
    lemma Verdict(ad: JobAd, w: World, r: Option<Policy>)
      requires ad.outputs.Some? && ad.policies != [] && (TransferLogs(ad) || TransferOutputs(ad))
      requires Settled(ad.outputs.value, ad.dests, LogsOk(ad, w), ChecksOk(ad, w)) && WonBy(r, ChecksOk(ad, w))
      requires r == Winner(Policies(ad, w), LogsOk(ad, w), Zipped(ad.outputs.value, ad.dests), w)
      requires ChecksOk(ad, w) && r.None? ==> forall p :: p in Policies(ad, w) ==> GivenUp(p, w)
      requires Started(Policies(ad, w), ChecksOk(ad, w), w) && ExitSoFar(ad, w)
      ensures HasCodes()
      ensures ExitsOk(ad, w) <==>
              exitCode == 0 && !(Missing(TransferLogs(ad), TransferOutputs(ad)) && firstFailure.Some?)
    {
      hide Settled, Zipped, Winner;
      var ps, checked := Policies(ad, w), ChecksOk(ad, w);
      SettledCodes(ad.outputs.value, ad.dests, LogsOk(ad, w), checked);
      WinnerIn(ps, LogsOk(ad, w), Zipped(ad.outputs.value, ad.dests), w);
      if checked && r.None? {
        assert ps[0] in ps && GivenUp(ps[0], w);
        assert Remote in ps ==> GivenUp(Remote, w);
        assert exitCode != 0 || firstFailure.Some?;
      }
      if checked && r.Some? {
        assert initLocal == Some(0) || initDirect == Some(0);
        // Where one policy has failed and another has won both have been initialised.
        assert firstFailure.Some? ==> initLocal == Some(0) && initDirect == Some(0);
        assert firstFailure.Some? && TransferLogs(ad) && !LogsOk(ad, w) ==> exitCode != 0;
      }
    }

    // From JOB REPORT VALIDATION on.
    method Perform(ad: JobAd, w: World, transferLogs: bool, transferOutputs: bool) returns (ending: Ending)
      requires Fresh() && ad.outputs.Some? && ad.policies != []
      requires transferOutputs == TransferOutputs(ad) && transferLogs == TransferLogs(ad)
      requires transferLogs || transferOutputs
      requires var ps := Policies(ad, w); forall i, j :: 0 <= i < j < |ps| ==> ps[i] != ps[j]
      modifies this
      ensures ending == Finished || ending == Crashed
      ensures ending == Crashed <==>
                || ChecksCrash(ad, w)
                || LoopCrashes(Policies(ad, w), LogsOk(ad, w), ChecksOk(ad, w), Zipped(ad.outputs.value, ad.dests), w)
      ensures ending == Finished ==>
                Settled(ad.outputs.value, ad.dests, LogsOk(ad, w), ChecksOk(ad, w))
                && WonBy(Winner(Policies(ad, w), LogsOk(ad, w), Zipped(ad.outputs.value, ad.dests), w), ChecksOk(ad, w))
                && (exitCode == 0 <==> ExitsOk(ad, w))
                && archive == (if !TransferLogs(ad) then None else Some(if w.archive.Made? then 0 else 80000))
                && (Local !in Policies(ad, w) ==> aso == []) && (Remote !in Policies(ad, w) ==> direct == [])
                && Explained(Policies(ad, w), ad, w)
    {
      hide Loop, Settled, Zipped, Staged, Winner, Injected, Live, LoopCrashes, ChecksCrash, ExitSoFar, ExitsOk,
           OnRecord, FailsWith, Explained;
      var ps, entries := Policies(ad, w), ad.outputs.value;
      var crashed := Prepare(ad, w, transferLogs, transferOutputs);
      if crashed {
        return Crashed;
      }
      var outputsOk := exist == Some(0) && inReport == Some(0);
      var logsOk := archive == Some(0) && outputsOk;
      LoopStarts(entries, ad.dests, logsOk, outputsOk);
      crashed := Stageout(ps, entries, ad.dests, logsOk, outputsOk, transferLogs, w);
      if crashed {
        return Crashed;
      }
      SettledCodes(entries, ad.dests, logsOk, outputsOk);
      Verdict(ad, w, Winner(ps, logsOk, Zipped(entries, ad.dests), w));
      ghost var explains := InVain(ps, ad, w);
      if explains {
        FirstFailureCounts(ad, w);
      }
      Conclude(transferLogs, transferOutputs);
      ExplainedIs(ps, ad, w, explains);
      ending := Finished;
    }

    // No policy has staged out the outputs, though one could be tried and nothing has failed before.
    ghost predicate InVain(ps: seq<Policy>, ad: JobAd, w: World)
      requires ad.outputs.Some?
    {
      && ChecksOk(ad, w) && (TransferLogs(ad) ==> w.archive.Made?) && FirstTried(ps, w) < |ps|
      && Winner(ps, LogsOk(ad, w), Zipped(ad.outputs.value, ad.dests), w).None?
    }

    // Then the exit code is that of the first transfer that has failed under the first policy that was tried.
    ghost predicate Explained(ps: seq<Policy>, ad: JobAd, w: World)
      requires ad.outputs.Some?
      reads this`exitCode
    {
      InVain(ps, ad, w) ==>
        FailsWith(ps[FirstTried(ps, w)], LogsOk(ad, w), Zipped(ad.outputs.value, ad.dests), w, Some(exitCode))
    }

    lemma ExplainedIs(ps: seq<Policy>, ad: JobAd, w: World, explains: bool)
      requires ad.outputs.Some? && explains == InVain(ps, ad, w)
      requires explains ==>
                 FailsWith(ps[FirstTried(ps, w)], LogsOk(ad, w), Zipped(ad.outputs.value, ad.dests), w, Some(exitCode))
      ensures Explained(ps, ad, w)
    {
    }

    lemma FirstFailureCounts(ad: JobAd, w: World)
      requires ad.outputs.Some? && InVain(Policies(ad, w), ad, w) && HasCodes()
      requires Started(Policies(ad, w), true, w) && ExitSoFar(ad, w) && WonBy(None, true)
      requires var ps := Policies(ad, w);
               OnRecord(ps, |ps|, LogsOk(ad, w), Zipped(ad.outputs.value, ad.dests), w, firstFailure)
      ensures exitCode == 0 && Missing(TransferLogs(ad), TransferOutputs(ad)) && firstFailure.Some?
      ensures var ps := Policies(ad, w);
              && FirstTried(ps, w) < |ps|
              && FailsWith(ps[FirstTried(ps, w)], LogsOk(ad, w), Zipped(ad.outputs.value, ad.dests), w, firstFailure)
    {
      hide Zipped, Winner;
      var ps := Policies(ad, w);
      assert ps[FirstTried(ps, w)] in ps;
    }

    lemma LoopStarts(entries: seq<Entry>, dests: nat, logsOk: bool, outputsOk: bool)
      requires logs == map[Local := None, Remote := None] && outputs == map[Local := None, Remote := None]
      requires firstFailure.None? && aso == [] && direct == [] && completed == {}
      requires (outputsOk ==> forall i :: 0 <= i < |entries| ==> entries[i].Entry?) && (logsOk ==> outputsOk)
      ensures Loop({}, entries, dests, logsOk, outputsOk)
    {
    }

    lemma SettledCodes(entries: seq<Entry>, dests: nat, logsOk: bool, outputsOk: bool)
      requires Settled(entries, dests, logsOk, outputsOk)
      ensures HasCodes()
      ensures forall p :: p in {Local, Remote} ==>
                if logsOk then logs[p] == Some(0) <==> outputs[p] == Some(0) else logs[p].None?
      ensures firstFailure.Some? ==> Failed(firstFailure)
      ensures firstFailure.Some? <==> Failed(outputs[Local]) || Failed(outputs[Remote])
      ensures (initLocal != Some(0) ==> outputs[Local].None?) && (initDirect != Some(0) ==> outputs[Remote].None?)
    {
    }
  }

  // The failure of the archive is forgotten where only remote stageout is tried: a run ends with the exit
  // code zero, though the logs were to be transferred and are not.
  method ForgottenArchive() returns (ad: JobAd, w: World, run: Wrapper, ending: Ending)
    ensures TransferLogs(ad) && w.archive.TarError?
    ensures fresh(run) && ending == Finished && run.exitCode == 0
    ensures run.archive == Some(80000) && run.logs == map[Local := None, Remote := None]
    ensures run.HasCodes() && run.outputs[Remote] == Some(0)
  {
    ad := JobAd(false, Some(true), None, Some([Entry("a", "a_1")]), true, [Remote], 2);
    w := World(Good, _ => true, _ => Yes, TarError, true, true, false, false, _ => Done, (_, _) => Done, false);
    run := new Wrapper();
    OneRemote(ad, w);
    ending := run.Run(ad, w);
  }

  lemma OneRemote(ad: JobAd, w: World)
    requires Policies(ad, w) == [Remote] && w.directOk && !EndsEarly(ad) && ChecksOk(ad, w) && w.archive.TarError?
    requires Zipped(ad.outputs.value, ad.dests) == 1 && w.output(Remote, 0).Done?
    ensures !Crashes(ad, w) && ExitsOk(ad, w)
    ensures Winner(Policies(ad, w), LogsOk(ad, w), 1, w) == Some(Remote)
  {
    assert [Remote][..0] == [];
  }

  // With no outputs to transfer the logs may be wanted; they are archived, never staged out, and the
  // exit code is zero.
  method LogsWithoutOutputs() returns (ad: JobAd, w: World, run: Wrapper, ending: Ending)
    ensures TransferLogs(ad) && w.archive.Made?
    ensures fresh(run) && ending == Finished && run.exitCode == 0 && run.archive == Some(0)
    ensures run.logs == map[Local := None, Remote := None]
  {
    ad := JobAd(false, Some(true), Some(false), Some([]), true, [Local], 1);
    w := World(Good, _ => true, _ => Yes, Made, true, true, false, false, _ => Done, (_, _) => Done, false);
    run := new Wrapper();
    ending := run.Run(ad, w);
  }
}
