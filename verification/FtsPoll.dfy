// Polling of FTS jobs, FTS_Transfers.py: the files of a job that have ended are reported and taken off the
// list on disk, and the job stays on the list of ongoing jobs until all that is left to do is done.
module FtsPoll {
  import opened Canonical

  type Id = string
  type JobId = string

  datatype JobState = Active | Finished | FinishedDirty | Failed | Canceled | Waiting

  datatype FileState = Transferred | FileFailed | FileCanceled | Pending

  datatype FileStatus = FileStatus(id: Id, state: FileState, reason: Option<string>)

  // What FTS says of a job: that it does not know it, nothing at all, its state and that of its files, or
  // its state only, where the second query throws.
  datatype Answer =
    | NotFound
    | Unreachable
    | Status(state: JobState, files: seq<FileStatus>)
    | NoFiles(state: JobState)

  predicate Terminal(s: JobState) {
    s == Finished || s == FinishedDirty || s == Failed || s == Canceled
  }

  // The states for which the files are looked at.
  predicate Listed(a: Answer) {
    a.Status? && (a.state == Active || Terminal(a.state))
  }

  predicate Ended(a: Answer) {
    a.Status? && Terminal(a.state)
  }

  // The files are to be looked at and FTS does not list them. Nothing catches this.
  predicate Throws(a: Answer) {
    a.NoFiles? && (a.state == Active || Terminal(a.state))
  }

  // ---- one poll of one job ----

  // The files that are reported as done, those reported as failed, and those that failed in the end.
  predicate IsDone(f: FileStatus) {
    f.state == Transferred
  }

  predicate IsFailed(f: FileStatus) {
    f.state == FileFailed || f.state == FileCanceled
  }

  // A file that is not in a final state though its job is.
  predicate IsStuck(f: FileStatus, job: JobState) {
    f.state == Pending && Terminal(job)
  }

  // The files that are asked for: those done, those that failed, or all that are reported as failed.
  datatype Sort = DoneFiles | FailedFiles | FailedOrStuck(job: JobState)

  predicate Is(f: FileStatus, p: Sort) {
    match p
    case DoneFiles => IsDone(f)
    case FailedFiles => IsFailed(f)
    case FailedOrStuck(job) => IsFailed(f) || IsStuck(f, job)
  }

  // The ids of the files of a sort that are still in the local list.
  function Pick(files: seq<FileStatus>, local: seq<Id>, p: Sort): (r: seq<Id>)
    ensures forall x <- r :: x in local
  {
    if files == [] then []
    else
      var f := files[|files| - 1];
      Pick(files[..|files| - 1], local, p) + if f.id in local && Is(f, p) then [f.id] else []
  }

  function DoneNow(a: Answer, local: seq<Id>): seq<Id> {
    if Listed(a) then Pick(a.files, local, DoneFiles) else []
  }

  function FailedNow(a: Answer, local: seq<Id>): seq<Id> {
    if Listed(a) then Pick(a.files, local, FailedFiles) else []
  }

  // What is reported as failed: also the files that are stuck.
  function FailedReport(a: Answer, local: seq<Id>): seq<Id> {
    if Listed(a) then Pick(a.files, local, FailedOrStuck(a.state)) else []
  }

  // Among the first n files one that is stuck, still on the local list, and without a reason.
  predicate NoReason(a: Answer, n: nat, local: seq<Id>)
    requires a.Status? && n <= |a.files|
  {
    exists i :: 0 <= i < n && a.files[i].id in local && IsStuck(a.files[i], a.state) && a.files[i].reason.None?
  }

  // A reason is missing among those of the files reported as failed.
  predicate Unreasoned(a: Answer, local: seq<Id>) {
    Listed(a) && NoReason(a, |a.files|, local)
  }

  lemma NothingPicked(files: seq<FileStatus>, local: seq<Id>)
    ensures forall p :: Pick(files[..0], local, p) == []
  {
  }

  lemma PickNext(files: seq<FileStatus>, i: nat, local: seq<Id>)
    requires i < |files|
    ensures forall p :: Pick(files[..i + 1], local, p)
                     == if files[i].id in local && Is(files[i], p) then Pick(files[..i], local, p) + [files[i].id]
                        else Pick(files[..i], local, p)
  {
    assert files[..i + 1][..i] == files[..i];
    forall p: Sort
      ensures Pick(files[..i], local, p) + [] == Pick(files[..i], local, p)
    {
    }
  }

  // What the local list keeps.
  function Without(local: seq<Id>, gone: seq<Id>): (r: seq<Id>)
    ensures forall x :: x in r <==> x in local && x !in gone
  {
    if local == [] then []
    else Without(local[..|local| - 1], gone) + if local[|local| - 1] in gone then [] else [local[|local| - 1]]
  }

  // ---- the life of a job ----

  // The ids still in the local list, those reported as done, and those reported as failed from a final
  // state.
  datatype Tally = Tally(left: seq<Id>, done: seq<Id>, failed: seq<Id>)

  function Polled(t: Tally, a: Answer): Tally {
    var done, failed := DoneNow(a, t.left), FailedNow(a, t.left);
    Tally(Without(t.left, done + failed), t.done + done, t.failed + failed)
  }

  function PolledAll(t: Tally, answers: seq<Answer>): Tally
    decreases |answers|
  {
    if answers == [] then t else PolledAll(Polled(t, answers[0]), answers[1..])
  }

  // FTS lists each id once.
  predicate Once(a: Answer) {
    a.Status? ==> forall i, j :: 0 <= i < j < |a.files| ==> a.files[i].id != a.files[j].id
  }

  predicate Distinct(s: seq<Id>) {
    forall i, j :: 0 <= i < j < |s| ==> s[i] != s[j]
  }

  function All(t: Tally): seq<Id> {
    t.left + t.done + t.failed
  }

  // Some file with id x is of the sort.
  ghost predicate Has(files: seq<FileStatus>, x: Id, p: Sort) {
    exists i :: 0 <= i < |files| && files[i].id == x && Is(files[i], p)
  }

  lemma HasNext(files: seq<FileStatus>, x: Id, p: Sort)
    requires files != [] && forall i, j :: 0 <= i < j < |files| ==> files[i].id != files[j].id
    ensures var n := |files| - 1;
            && (Has(files, x, p) <==> Has(files[..n], x, p) || (files[n].id == x && Is(files[n], p)))
            && (files[n].id == x ==> !Has(files[..n], x, p))
  {
    var n := |files| - 1;
    if Has(files, x, p) {
      var i :| 0 <= i < |files| && files[i].id == x && Is(files[i], p);
      assert i < n ==> files[..n][i] == files[i];
    }
  }

  lemma {:induction false} PickCount(files: seq<FileStatus>, local: seq<Id>, p: Sort, x: Id)
    requires forall i, j :: 0 <= i < j < |files| ==> files[i].id != files[j].id
    ensures multiset(Pick(files, local, p))[x] == if x in local && Has(files, x, p) then 1 else 0
  {
    if files != [] {
      PickCount(files[..|files| - 1], local, p, x);
      HasNext(files, x, p);
      hide Has;
    }
  }

  lemma CountNext(s: seq<Id>, y: Id, x: Id)
    ensures multiset(s + [y])[x] == multiset(s)[x] + if x == y then 1 else 0
  {
    assert multiset(s + [y]) == multiset(s) + multiset{y};
  }

  lemma WithoutNext(init: seq<Id>, last: Id, gone: seq<Id>)
    ensures Without(init + [last], gone) == if last in gone then Without(init, gone) else Without(init, gone) + [last]
  {
    assert (init + [last])[..|init|] == init && Without(init, gone) + [] == Without(init, gone);
  }

  lemma {:induction false} WithoutCount(local: seq<Id>, gone: seq<Id>, x: Id)
    ensures multiset(Without(local, gone))[x] == if x in gone then 0 else multiset(local)[x]
  {
    if local != [] {
      hide Without;
      var init, last := local[..|local| - 1], local[|local| - 1];
      WithoutCount(init, gone, x);
      assert local == init + [last];
      WithoutNext(init, last, gone);
      CountNext(init, last, x);
      CountNext(Without(init, gone), last, x);
    }
  }

  lemma NotBoth(files: seq<FileStatus>, x: Id)
    requires forall i, j :: 0 <= i < j < |files| ==> files[i].id != files[j].id
    ensures !(Has(files, x, DoneFiles) && Has(files, x, FailedFiles))
  {
  }

  // What is reported is what is taken off the list.
  lemma ReportedOf(t: Tally, a: Answer, x: Id)
    requires Once(a)
    ensures multiset(DoneNow(a, t.left))[x] + multiset(FailedNow(a, t.left))[x] <= 1
    ensures x !in t.left ==> x !in DoneNow(a, t.left) && x !in FailedNow(a, t.left)
  {
    hide Pick, Has;
    if Listed(a) {
      PickCount(a.files, t.left, DoneFiles, x);
      PickCount(a.files, t.left, FailedFiles, x);
      NotBoth(a.files, x);
    }
  }

  lemma Sums(t: Tally, x: Id)
    ensures multiset(All(t))[x] == multiset(t.left)[x] + multiset(t.done)[x] + multiset(t.failed)[x]
  {
    assert multiset(All(t)) == multiset(t.left) + multiset(t.done) + multiset(t.failed);
  }

  // One poll moves ids, and neither loses one nor doubles one.
  lemma PollKeeps(t: Tally, a: Answer, x: Id)
    requires Once(a) && multiset(t.left)[x] <= 1
    ensures multiset(All(Polled(t, a)))[x] == multiset(All(t))[x]
    ensures multiset(Polled(t, a).left)[x] <= 1
  {
    hide DoneNow, FailedNow, Without, All;
    var done, failed := DoneNow(a, t.left), FailedNow(a, t.left);
    WithoutCount(t.left, done + failed, x);
    ReportedOf(t, a, x);
    Sums(t, x);
    Sums(Polled(t, a), x);
    assert multiset(done + failed)[x] == multiset(done)[x] + multiset(failed)[x];
    assert multiset(t.done + done)[x] == multiset(t.done)[x] + multiset(done)[x];
    assert multiset(t.failed + failed)[x] == multiset(t.failed)[x] + multiset(failed)[x];
    assert x in t.left <==> multiset(t.left)[x] == 1;
  }

  lemma {:induction false} PollsKeep(t: Tally, answers: seq<Answer>, x: Id)
    requires (forall a <- answers :: Once(a)) && multiset(t.left)[x] <= 1
    ensures multiset(All(PolledAll(t, answers)))[x] == multiset(All(t))[x]
    decreases |answers|
  {
    hide Polled, All, Once;
    if answers != [] {
      PollKeeps(t, answers[0], x);
      PollsKeep(Polled(t, answers[0]), answers[1..], x);
    }
  }

  // Over any polls the submitted ids are at any time those in the local list, those reported as done and
  // those reported as failed from a final state, each of them in one place and once only.
  lemma IdsAreConserved(submitted: seq<Id>, answers: seq<Answer>)
    requires Distinct(submitted) && forall a <- answers :: Once(a)
    ensures var t := PolledAll(Tally(submitted, [], []), answers);
            multiset(t.left) + multiset(t.done) + multiset(t.failed) == multiset(submitted)
    ensures Distinct(All(PolledAll(Tally(submitted, [], []), answers)))
  {
    hide PolledAll, Once;
    var t := PolledAll(Tally(submitted, [], []), answers);
    forall x: Id
      ensures multiset(All(t))[x] == multiset(submitted)[x] <= 1
    {
      DistinctCount(submitted, x);
      PollsKeep(Tally(submitted, [], []), answers, x);
      Sums(Tally(submitted, [], []), x);
    }
    assert multiset(All(t)) == multiset(submitted);
    assert multiset(All(t)) == multiset(t.left) + multiset(t.done) + multiset(t.failed);
    CountDistinct(All(t));
  }

  // ---- what is reported again ----

  // FTS lists a file with id x as transferred or as failed: in a final state.
  ghost predicate Final(a: Answer, x: Id) {
    Listed(a) && (Has(a.files, x, DoneFiles) || Has(a.files, x, FailedFiles))
  }

  // FTS lists a file with id x in a way that is reported if x is still on the local list.
  ghost predicate Mentioned(a: Answer, x: Id) {
    Listed(a) && (Has(a.files, x, DoneFiles) || Has(a.files, x, FailedOrStuck(a.state)))
  }

  predicate Reported(a: Answer, local: seq<Id>, x: Id) {
    x in DoneNow(a, local) || x in FailedReport(a, local)
  }

  lemma {:induction false} PickHas(files: seq<FileStatus>, local: seq<Id>, p: Sort, x: Id)
    ensures x in Pick(files, local, p) <==> x in local && Has(files, x, p)
  {
    if files != [] {
      var n := |files| - 1;
      PickHas(files[..n], local, p, x);
      if Has(files, x, p) {
        var i :| 0 <= i < |files| && files[i].id == x && Is(files[i], p);
        assert i < n ==> files[..n][i] == files[i];
      }
      if Has(files[..n], x, p) {
        var i :| 0 <= i < n && files[..n][i].id == x && Is(files[..n][i], p);
        assert files[i] == files[..n][i];
      }
    }
  }

  // What is reported is what is on the local list and is mentioned.
  lemma ReportedIs(a: Answer, local: seq<Id>, x: Id)
    ensures Reported(a, local, x) <==> x in local && Mentioned(a, x)
  {
    hide Pick, Has;
    if Listed(a) {
      PickHas(a.files, local, DoneFiles, x);
      PickHas(a.files, local, FailedOrStuck(a.state), x);
    }
  }

  // ---- in terms of what FTS answers ----

  // FTS lists, for a job in one of these states, a file with id x in one of those.
  ghost predicate Says(a: Answer, x: Id, jobs: set<JobState>, files: set<FileState>) {
    a.Status? && a.state in jobs && exists i :: 0 <= i < |a.files| && a.files[i].id == x && a.files[i].state in files
  }

  // Transferred files are reported as done, failed and canceled ones as failed, whether their job is active
  // or has ended; and so are all others, once their job has ended.
  lemma ReportsAre(a: Answer, local: seq<Id>, x: Id)
    ensures x in DoneNow(a, local) <==>
              x in local && Says(a, x, {Active, Finished, FinishedDirty, Failed, Canceled}, {Transferred})
    ensures x in FailedNow(a, local) <==>
              x in local && Says(a, x, {Active, Finished, FinishedDirty, Failed, Canceled}, {FileFailed, FileCanceled})
    ensures x in FailedReport(a, local) <==>
              && x in local
              && (|| Says(a, x, {Active, Finished, FinishedDirty, Failed, Canceled}, {FileFailed, FileCanceled})
                  || Says(a, x, {Finished, FinishedDirty, Failed, Canceled}, {Pending}))
  {
    hide Pick, Has, Says;
    if Listed(a) {
      PickHas(a.files, local, DoneFiles, x);
      PickHas(a.files, local, FailedFiles, x);
      PickHas(a.files, local, FailedOrStuck(a.state), x);
    }
    SaysIs(a, x);
  }

  lemma SaysIs(a: Answer, x: Id)
    ensures Listed(a) && Has(a.files, x, DoneFiles) <==>
              Says(a, x, {Active, Finished, FinishedDirty, Failed, Canceled}, {Transferred})
    ensures Listed(a) && Has(a.files, x, FailedFiles) <==>
              Says(a, x, {Active, Finished, FinishedDirty, Failed, Canceled}, {FileFailed, FileCanceled})
    ensures Listed(a) && Has(a.files, x, FailedOrStuck(a.state)) <==>
              || Says(a, x, {Active, Finished, FinishedDirty, Failed, Canceled}, {FileFailed, FileCanceled})
              || Says(a, x, {Finished, FinishedDirty, Failed, Canceled}, {Pending})
  {
  }

  // A file on the list of a job that has ended is stuck and has no reason.
  ghost predicate Stuck(a: Answer, local: seq<Id>) {
    && a.Status? && a.state in {Finished, FinishedDirty, Failed, Canceled}
    && exists i ::
         0 <= i < |a.files| && a.files[i].id in local && a.files[i].state == Pending && a.files[i].reason.None?
  }

  lemma UnreasonedIs(a: Answer, local: seq<Id>)
    ensures Unreasoned(a, local) <==> Stuck(a, local)
  {
  }

  // A job leaves the list: FTS does not know it; or it has ended, if a file on its list is transferred the
  // update of those done is accepted, and if one is not, the update of the others, for which no reason is
  // missing.
  ghost predicate Leaves(a: Answer, local: seq<Id>, doneOk: bool, failedOk: bool) {
    || a.NotFound?
    || (&& a.Status? && a.state in {Finished, FinishedDirty, Failed, Canceled}
        && (forall i :: 0 <= i < |a.files| && a.files[i].id in local && a.files[i].state == Transferred ==> doneOk)
        && (forall i :: 0 <= i < |a.files| && a.files[i].id in local && a.files[i].state != Transferred ==>
              failedOk && (a.files[i].state == Pending ==> a.files[i].reason.Some?)))
  }

  lemma LeavesIs(j: JobId, local: seq<Id>, w: World)
    ensures Stays(j, local, w) <==> !Leaves(w.fts(j), local, w.doneOk(j), w.failedOk(j))
  {
    hide Pick, Has;
    var a := w.fts(j);
    if Ended(a) {
      PickEmpty(a.files, local, DoneFiles);
      PickEmpty(a.files, local, FailedOrStuck(a.state));
      UnreasonedIs(a, local);
    }
  }

  lemma {:induction false} PickEmpty(files: seq<FileStatus>, local: seq<Id>, p: Sort)
    ensures Pick(files, local, p) == [] <==> forall i :: 0 <= i < |files| && files[i].id in local ==> !Is(files[i], p)
  {
    hide Is;
    if files != [] {
      PickEmpty(files[..|files| - 1], local, p);
      var n := |files| - 1;
      assert forall i :: 0 <= i < n ==> files[..n][i] == files[i];
    }
  }

  // A poll takes an id off the list exactly if it is in a final state.
  lemma LeftIs(t: Tally, a: Answer, x: Id)
    ensures x in Polled(t, a).left <==> x in t.left && !Final(a, x)
  {
    hide Pick, Has;
    if Listed(a) {
      PickHas(a.files, t.left, DoneFiles, x);
      PickHas(a.files, t.left, FailedFiles, x);
    }
  }

  lemma {:induction false} LeftAfter(t: Tally, answers: seq<Answer>, x: Id)
    ensures x in PolledAll(t, answers).left <==> x in t.left && forall a <- answers :: !Final(a, x)
    decreases |answers|
  {
    hide Polled, Final;
    if answers != [] {
      LeftIs(t, answers[0], x);
      LeftAfter(Polled(t, answers[0]), answers[1..], x);
      assert forall a <- answers :: a == answers[0] || a in answers[1..];
    }
  }

  // After any polls an id is reported at the next one exactly if it was submitted, none of them has listed it
  // in a final state, and now it is mentioned: so what has once been reported from a final state is never
  // reported again, whether the server has accepted the update or not, and what was stuck is.
  lemma ReportedAgain(t: Tally, answers: seq<Answer>, next: Answer, x: Id)
    ensures Reported(next, PolledAll(t, answers).left, x) <==>
            x in t.left && (forall a <- answers :: !Final(a, x)) && Mentioned(next, x)
  {
    ReportedIs(next, PolledAll(t, answers).left, x);
    LeftAfter(t, answers, x);
  }

  // Of two polls one after the other, the second reports an id that the first has reported exactly if the
  // file was stuck at the first and is mentioned at the second.
  lemma ReportedTwice(t: Tally, a: Answer, b: Answer, x: Id)
    requires Once(a) && Reported(a, t.left, x)
    ensures Reported(b, Polled(t, a).left, x) <==>
            (exists i :: 0 <= i < |a.files| && a.files[i].id == x && IsStuck(a.files[i], a.state)) && Mentioned(b, x)
  {
    hide Pick, Without;
    ReportedIs(a, t.left, x);
    ReportedIs(b, Polled(t, a).left, x);
    LeftIs(t, a, x);
    if Has(a.files, x, DoneFiles) {
      var i :| 0 <= i < |a.files| && a.files[i].id == x && Is(a.files[i], DoneFiles);
    } else {
      var i :| 0 <= i < |a.files| && a.files[i].id == x && Is(a.files[i], FailedOrStuck(a.state));
    }
  }

  // Once a job has ended and nothing is left of it, it leaves the list of jobs, whatever updates have failed.
  lemma NothingLeft(j: JobId, w: World)
    requires Ended(w.fts(j))
    ensures DoneNow(w.fts(j), []) == [] && FailedReport(w.fts(j), []) == [] && !Stays(j, [], w)
  {
    PickNothing(w.fts(j).files, DoneFiles);
    PickNothing(w.fts(j).files, FailedOrStuck(w.fts(j).state));
  }

  lemma {:induction false} PickNothing(files: seq<FileStatus>, p: Sort)
    ensures Pick(files, [], p) == []
  {
    if files != [] {
      PickNothing(files[..|files| - 1], p);
    }
  }

  lemma {:induction false} DistinctCount(s: seq<Id>, x: Id)
    requires Distinct(s)
    ensures multiset(s)[x] <= 1
  {
    if s != [] {
      var n := |s| - 1;
      DistinctCount(s[..n], x);
      assert s == s[..n] + [s[n]];
      assert x == s[n] ==> x !in s[..n];
    }
  }

  lemma CountDistinct(s: seq<Id>)
    requires forall x: Id :: multiset(s)[x] <= 1
    ensures Distinct(s)
  {
    forall i, j | 0 <= i < j < |s|
      ensures s[i] != s[j]
    {
      assert s == s[..i] + ([s[i]] + (s[i + 1..j] + ([s[j]] + s[j + 1..])));
      assert multiset(s)
          == multiset(s[..i]) + multiset{s[i]} + multiset(s[i + 1..j]) + multiset{s[j]} + multiset(s[j + 1..]);
      assert multiset(s)[s[i]] <= 1;
    }
  }

  // ---- the list of ongoing jobs ----

  // The services' answers in one run: what FTS says of each job, and whether the updates of the REST
  // server for it go through.
  datatype World = World(fts: JobId -> Answer, doneOk: JobId -> bool, failedOk: JobId -> bool)

  // There is nothing to report, or it has been reported. Where a reason is missing the report of failures
  // throws before it is sent, and counts as refused.
  predicate Marked(j: JobId, local: seq<Id>, w: World) {
    && (DoneNow(w.fts(j), local) == [] || w.doneOk(j))
    && (FailedReport(w.fts(j), local) == [] || (w.failedOk(j) && !Unreasoned(w.fts(j), local)))
  }

  // A job leaves the list if FTS does not know it, or if it has ended and all has been reported.
  predicate Stays(j: JobId, local: seq<Id>, w: World) {
    !w.fts(j).NotFound? && !(Ended(w.fts(j)) && Marked(j, local, w))
  }

  // Those of the jobs that are in a set, in their order.
  function Keep(jobs: seq<JobId>, s: set<JobId>): (r: seq<JobId>)
    ensures forall j :: j in r <==> j in jobs && j in s
  {
    if jobs == [] then []
    else Keep(jobs[..|jobs| - 1], s) + if jobs[|jobs| - 1] in s then [jobs[|jobs| - 1]] else []
  }

  lemma KeepNext(jobs: seq<JobId>, i: nat, s: set<JobId>)
    requires i < |jobs|
    ensures Keep(jobs[..i + 1], s) == Keep(jobs[..i], s) + if jobs[i] in s then [jobs[i]] else []
  {
    assert jobs[..i + 1][..i] == jobs[..i];
  }

  // list.remove: takes out the first occurrence.
  function Remove(jobs: seq<JobId>, j: JobId): seq<JobId> {
    if jobs == [] then [] else if jobs[0] == j then jobs[1..] else [jobs[0]] + Remove(jobs[1..], j)
  }

  lemma {:induction false} RemoveLast(jobs: seq<JobId>, j: JobId)
    requires j !in jobs
    ensures Remove(jobs + [j], j) == jobs
  {
    if jobs != [] {
      assert (jobs + [j])[1..] == jobs[1..] + [j];
      RemoveLast(jobs[1..], j);
    } else {
      assert [j][1..] == [];
    }
  }

  lemma {:induction false} RemoveFrom(a: seq<JobId>, b: seq<JobId>, j: JobId)
    ensures Remove(a + b, j) == if j in a then Remove(a, j) + b else a + Remove(b, j)
  {
    if a == [] {
      assert a + b == b && a + Remove(b, j) == Remove(b, j);
    } else {
      assert (a + b)[1..] == a[1..] + b;
      RemoveFrom(a[1..], b, j);
      var r, s := Remove(a[1..], j), Remove(b, j);
      if a[0] != j {
        assert [a[0]] + (r + b) == [a[0]] + r + b;
        assert [a[0]] + (a[1..] + s) == a + s;
      }
    }
  }

  lemma {:induction false} RemoveKept(jobs: seq<JobId>, s: set<JobId>, j: JobId)
    requires Distinct(jobs)
    ensures Remove(Keep(jobs, s), j) == Keep(jobs, s - {j})
  {
    if jobs != [] {
      var init, last := jobs[..|jobs| - 1], jobs[|jobs| - 1];
      var kept := Keep(init, s);
      RemoveKept(init, s, j);
      RemoveFrom(kept, if last in s then [last] else [], j);
      RemoveFrom(kept, [], j);
      assert [last][1..] == [] && [last] + [] == [last] && kept + [] == kept;
      if last == j {
        assert j !in init;
        KeepSame(init, s, s - {j});
      }
    }
  }

  lemma {:induction false} KeepSame(jobs: seq<JobId>, s: set<JobId>, t: set<JobId>)
    requires forall j <- jobs :: j in s <==> j in t
    ensures Keep(jobs, s) == Keep(jobs, t)
  {
    if jobs != [] {
      KeepSame(jobs[..|jobs| - 1], s, t);
    }
  }

  // How many jobs of a run are looked at before one for which FTS throws.
  function Reach(order: seq<JobId>, w: World): (n: nat)
    ensures n <= |order| && forall k :: 0 <= k < n ==> !Throws(w.fts(order[k]))
    ensures n < |order| ==> Throws(w.fts(order[n]))
  {
    if order == [] then 0
    else
      var n, last := Reach(order[..|order| - 1], w), |order| - 1;
      if n < last || Throws(w.fts(order[last])) then n else |order|
  }

  lemma ReachIs(order: seq<JobId>, w: World, i: nat)
    requires i <= |order| && (forall k :: 0 <= k < i ==> !Throws(w.fts(order[k])))
    requires i < |order| ==> Throws(w.fts(order[i]))
    ensures Reach(order, w) == i
  {
    hide Throws;
  }

  // What has been handed over to be sent to the server for a job: ids as done, ids as failed, and of these
  // the ones from a final state.
  datatype Posted = Posted(done: seq<Id>, failed: seq<Id>, final: seq<Id>)

  function AfterPost(p: Posted, a: Answer, local: seq<Id>): Posted {
    Posted(p.done + DoneNow(a, local), p.failed + FailedReport(a, local), p.final + FailedNow(a, local))
  }

  // After the reports on some jobs.
  function PostedFor(posted: map<JobId, Posted>, jobs: seq<JobId>, w: World, local: map<JobId, seq<Id>>)
    : (r: map<JobId, Posted>)
    ensures r.Keys == posted.Keys
  {
    map j | j in posted :: if j in jobs && j in local then AfterPost(posted[j], w.fts(j), local[j]) else posted[j]
  }

  function Tallies(contents: map<JobId, seq<Id>>, posted: map<JobId, Posted>): map<JobId, Tally> {
    map j | j in contents && j in posted :: Tally(contents[j], posted[j].done, posted[j].final)
  }

  predicate Kept(contents: map<JobId, seq<Id>>, posted: map<JobId, Posted>, jobIds: seq<JobId>) {
    contents.Keys == posted.Keys && Distinct(jobIds) && forall j <- jobIds :: j in contents
  }

  class Monitor {
    // The file with the ids that are left, for every job.
    var contents: map<JobId, seq<Id>>
    // The file fts_jobids.txt.
    var jobIds: seq<JobId>
    // What has been handed over to be sent to the REST server, for every job.
    ghost var posted: map<JobId, Posted>

    // What a run collects: the jobs that go on, those whose files were looked at, in this order, those that
    // have ended, and what is to be reported for each.
    var ongoing: seq<JobId>
    var checked: seq<JobId>
    var ended: seq<JobId>
    var doneIds: map<JobId, seq<Id>>
    var failedIds: map<JobId, seq<Id>>
    var reasons: map<JobId, seq<Option<string>>>

    ghost predicate Valid()
      reads this`contents, this`posted, this`jobIds
    {
      Kept(contents, posted, jobIds)
    }

    constructor ()
      ensures Valid() && contents == map[] && jobIds == [] && posted == map[]
    {
      contents, jobIds, posted := map[], [], map[];
      ongoing, checked, ended, doneIds, failedIds, reasons := [], [], [], map[], map[], map[];
    }

    // A job has been submitted: its ids are saved and it is put on the list.
    method Add(job: JobId, ids: seq<Id>)
      requires Valid() && job !in contents
      modifies this`contents, this`jobIds, this`posted
      ensures Valid() && jobIds == old(jobIds) + [job]
      ensures contents == old(contents)[job := ids] && posted == old(posted)[job := Posted([], [], [])]
    {
      contents, jobIds := contents[job := ids], jobIds + [job];
      posted := posted[job := Posted([], [], [])];
    }

    // The account of all jobs: those on the list, and for each the ids left, done and failed.
    ghost function Account(): Books
      reads this`contents, this`posted, this`jobIds
    {
      Books((set j | j in jobIds), Tallies(contents, posted))
    }

    // check_FTSJob. The list of ids on disk is written only if some are taken off it.
    method CheckFtsJob(job: JobId, a: Answer) returns (crashed: bool)
      requires job !in ongoing && (Listed(a) ==> job in contents)
      modifies this`ongoing, this`ended, this`checked, this`doneIds, this`failedIds, this`reasons, this`contents
      ensures crashed <==> Throws(a)
      ensures ongoing == if a.NotFound? then old(ongoing) else old(ongoing) + [job]
      ensures !crashed ==> ended == if Ended(a) then old(ended) + [job] else old(ended)
      ensures if Listed(a) then
                var local := old(contents)[job];
                && checked == old(checked) + [job]
                && doneIds == old(doneIds)[job := DoneNow(a, local)]
                && failedIds == old(failedIds)[job := FailedReport(a, local)]
                && job in reasons && |reasons[job]| == |failedIds[job]|
                && reasons == old(reasons)[job := reasons[job]]
                && (None in reasons[job] <==> Unreasoned(a, local))
                && contents == old(contents)[job := Without(local, DoneNow(a, local) + FailedNow(a, local))]
              else
                && checked == old(checked) && doneIds == old(doneIds) && failedIds == old(failedIds)
                && reasons == old(reasons) && contents == old(contents)
    {
      hide Pick, DoneNow, FailedNow, FailedReport, Without, Remove, Unreasoned;
      crashed := false;
      ongoing := ongoing + [job];
      if a.NotFound? {
        RemoveLast(old(ongoing), job);
        ongoing := Remove(ongoing, job);
        return;
      }
      if a.Unreachable? {
        return;
      }
      if Terminal(a.state) {
        ended := ended + [job];
      }
      if a.state == Active || Terminal(a.state) {
        if a.NoFiles? {
          return true;
        }
        checked := checked + [job];
        var done, failed, why, gone := ReadFiles(a, contents[job]);
        doneIds, failedIds, reasons := doneIds[job := done], failedIds[job := failed], reasons[job := why];
        SameWithout(contents[job], gone, DoneNow(a, contents[job]) + FailedNow(a, contents[job]));
        if gone != [] {
          contents := contents[job := Without(contents[job], gone)];
        } else {
          WithoutNothing(contents[job]);
          assert contents[job := contents[job]] == contents;
        }
      }
    }

    // The loop over the files of a job.
    method ReadFiles(a: Answer, local: seq<Id>)
      returns (done: seq<Id>, failed: seq<Id>, why: seq<Option<string>>, gone: seq<Id>)
      requires Listed(a)
      ensures done == DoneNow(a, local) && failed == FailedReport(a, local) && |why| == |failed|
      ensures None in why <==> Unreasoned(a, local)
      ensures forall x :: x in gone <==> x in DoneNow(a, local) || x in FailedNow(a, local)
      ensures forall x :: x in done <==>
                x in local && Says(a, x, {Active, Finished, FinishedDirty, Failed, Canceled}, {Transferred})
      ensures forall x :: x in failed <==>
                && x in local
                && (|| Says(a, x, {Active, Finished, FinishedDirty, Failed, Canceled}, {FileFailed, FileCanceled})
                    || Says(a, x, {Finished, FinishedDirty, Failed, Canceled}, {Pending}))
    {
      hide Pick, NoReason, Says;
      done, failed, why, gone := [], [], [], [];
      var i := 0;
      ghost var over: seq<Id> := [];
      NothingPicked(a.files, local);
      assert !NoReason(a, 0, local) by {
        NoReasonNone(a, local);
      }
      while i < |a.files|
        invariant 0 <= i <= |a.files| && |why| == |failed|
        invariant done == Pick(a.files[..i], local, DoneFiles)
        invariant failed == Pick(a.files[..i], local, FailedOrStuck(a.state))
        invariant over == Pick(a.files[..i], local, FailedFiles)
        invariant forall x :: x in gone <==> x in done || x in over
        invariant None in why <==> NoReason(a, i, local)
      {
        var f := a.files[i];
        PickNext(a.files, i, local);
        NoReasonNext(a, i, local);
        if f.id in local {
          if f.state == Transferred {
            done := done + [f.id];
            gone := gone + [f.id];
          } else if f.state == FileFailed || f.state == FileCanceled {
            failed := failed + [f.id];
            over := over + [f.id];
            var known := f.reason.Some? && f.reason.value != "";
            why := why + [if known then f.reason else Some("unable to get failure reason")];
            gone := gone + [f.id];
          } else if a.state != Active {
            failed := failed + [f.id];
            why := why + [f.reason];
          }
        }
        i := i + 1;
      }
      assert a.files[..i] == a.files;
      forall x: Id {
        ReportsAre(a, local, x);
      }
    }

    // What the first loop of a run over the first n of the jobs has collected.
    ghost predicate Checked(order: seq<JobId>, n: nat, w: World, local: map<JobId, seq<Id>>)
      requires n <= |order|
      reads this`ongoing, this`ended, this`checked, this`doneIds, this`failedIds, this`reasons, this`contents
    {
      && ongoing == Keep(order[..n], Found(order, w))
      && (forall j :: j in ended <==> j in order[..n] && Ended(w.fts(j)))
      && Distinct(checked) && (forall j :: j in checked <==> j in order[..n] && Listed(w.fts(j)))
      && Reports(checked, doneIds, failedIds, w, local) && Reasons(checked, reasons, w, local)
      && Lists(contents, order[..n], w, local)
    }

    // state_manager, for the lines of the file of job ids in any order. A job stays on the list exactly if
    // it should, and what is handed over to the server is what there is to report. If FTS throws, the lists on disk
    // of the jobs before have been written, and nothing has been sent.
    method StateManager(order: seq<JobId>, w: World) returns (crashed: bool)
      requires Valid() && Distinct(order) && forall j :: j in order <==> j in jobIds
      modifies this
      ensures Valid()
      ensures crashed <==> exists j <- order ::
                w.fts(j).NoFiles? && w.fts(j).state in {Active, Finished, FinishedDirty, Failed, Canceled}
      ensures contents == AfterPolls(order[..Reach(order, w)], w, old(contents))
      ensures crashed ==> jobIds == old(jobIds) && posted == old(posted)
      ensures !crashed ==>
                && jobIds == Keep(order, Staying(order, old(contents), w))
                && posted == PostedFor(old(posted), order, w, old(contents))
                && Account() == AfterRun(old(Account()), w)
      ensures !crashed ==>
                forall j :: j in jobIds <==>
                  j in order && !Leaves(w.fts(j), old(contents)[j], w.doneOk(j), w.failedOk(j))
    {
      hide Keep, Stays, PostedFor, AfterPolls, Lists, Throws, Reach, Tallies, AfterRun, Leaves;
      ghost var local := contents;
      crashed := CheckAll(order, w);
      ReachThrows(order, w);
      forall j <- order {
        ThrowsIs(w.fts(j));
      }
      ListsAre(contents, order[..Reach(order, w)], w, local);
      if crashed {
        return;
      }
      assert order[..|order|] == order;
      Report(order, w, local);
      jobIds := ongoing;
      KeepDistinct(order, Staying(order, local, w));
      BooksAfter((set j | j in old(jobIds)), order, w, local, old(posted));
      forall j | j in order
        ensures j in jobIds <==> !Leaves(w.fts(j), local[j], w.doneOk(j), w.failedOk(j))
      {
        LeavesIs(j, local[j], w);
      }
    }

    // Every job is looked at, up to one for which FTS throws.
    method CheckAll(order: seq<JobId>, w: World) returns (crashed: bool)
      requires Distinct(order) && forall j <- order :: j in contents
      modifies this`ongoing, this`ended, this`checked, this`doneIds, this`failedIds, this`reasons, this`contents
      ensures crashed <==> Reach(order, w) < |order|
      ensures Lists(contents, order[..Reach(order, w)], w, old(contents))
      ensures !crashed ==> Checked(order, |order|, w, old(contents))
    {
      hide Keep, Lists, Reports, Throws, Reach, Checked;
      ongoing, ended, checked, doneIds, failedIds, reasons := [], [], [], map[], map[], map[];
      ghost var local := contents;
      var i := 0;
      CheckedNothing(order, w);
      assert order[..0] == [];
      while i < |order|
        invariant 0 <= i <= |order| && Checked(order, i, w, local)
        invariant contents.Keys == local.Keys && forall k :: 0 <= k < i ==> !Throws(w.fts(order[k]))
      {
        assert order[..i + 1] == order[..i] + [order[i]];
        crashed := CheckNext(order, i, w, local);
        if crashed {
          ReachIs(order, w, i);
          return;
        }
        i := i + 1;
      }
      ReachIs(order, w, i);
      CheckedLists(order, w, local);
      crashed := false;
    }

    lemma CheckedNothing(order: seq<JobId>, w: World)
      requires ongoing == ended == checked == [] && doneIds == failedIds == map[] && reasons == map[]
      ensures Checked(order, 0, w, contents)
    {
      KeepNothing(order, Found(order, w));
      NothingYet(contents, w);
      assert order[..0] == [];
    }

    lemma CheckedLists(order: seq<JobId>, w: World, local: map<JobId, seq<Id>>)
      requires Checked(order, |order|, w, local)
      ensures Lists(contents, order[..|order|], w, local)
    {
    }

    // One more job.
    method CheckNext(order: seq<JobId>, i: nat, w: World, ghost local: map<JobId, seq<Id>>) returns (crashed: bool)
      requires Distinct(order) && i < |order| && Checked(order, i, w, local)
      requires contents.Keys == local.Keys && order[i] in local
      modifies this`ongoing, this`ended, this`checked, this`doneIds, this`failedIds, this`reasons, this`contents
      ensures crashed <==> Throws(w.fts(order[i]))
      ensures contents.Keys == local.Keys
      ensures crashed ==> Lists(contents, order[..i], w, local)
      ensures !crashed ==> Checked(order, i + 1, w, local)
    {
      hide DoneNow, FailedReport, FailedNow, Without, Listed, Ended, Keep, Lists, Reports, Reasons, Throws, Unreasoned;
      var job := order[i];
      KeepNext(order, i, Found(order, w));
      assert order[..i + 1] == order[..i] + [job] && job !in order[..i];
      NotKept(order[..i], Found(order, w), job);
      ListsNext(contents, order[..i], w, local, job);
      if Listed(w.fts(job)) {
        ReportsNext(checked, doneIds, failedIds, w, local, job);
      }
      ghost var before, why := checked, reasons;
      ThrowsIs(w.fts(job));
      crashed := CheckFtsJob(job, w.fts(job));
      if Listed(w.fts(job)) {
        ReasonsNext(before, why, w, local, job, reasons[job]);
      }
    }

    // mark_failed. Every reason has its commas replaced, which throws where there is none.
    method MarkFailed(why: seq<Option<string>>, accepted: bool) returns (ok: bool)
      ensures ok <==> None !in why && accepted
    {
      var i := 0;
      while i < |why|
        invariant 0 <= i <= |why| && None !in why[..i]
      {
        if why[i] == None {
          return false;
        }
        i := i + 1;
      }
      ok := accepted;
    }

    // The updates of the REST server, and the jobs that leave the list.
    method Report(order: seq<JobId>, w: World, ghost local: map<JobId, seq<Id>>)
      requires Checked(order, |order|, w, local) && Distinct(order) && posted.Keys == local.Keys
      modifies this`ongoing, this`posted
      ensures ongoing == Keep(order, Staying(order, local, w))
      ensures posted == PostedFor(old(posted), order, w, local)
    {
      hide DoneNow, FailedReport, FailedNow, AfterPolls, Keep, Listed, Ended, Marked, Remove, Lists, PostedFor,
           Unreasoned;
      assert order[..|order|] == order;
      ghost var stay := Found(order, w);
      var k := 0;
      PostedForNothing(posted, w, local);
      assert checked[..0] == [];
      while k < |checked|
        invariant 0 <= k <= |checked|
        invariant forall j :: j in stay <==>
                    j in Found(order, w) && !(j in checked[..k] && Ended(w.fts(j)) && Marked(j, Local(local, j), w))
        invariant ongoing == Keep(order, stay)
        invariant posted == PostedFor(old(posted), checked[..k], w, local)
      {
        var job := checked[k];
        assert checked[..k + 1] == checked[..k] + [job] && job !in checked[..k];
        PostedForNext(old(posted), checked[..k], w, local, job);
        posted := posted[job := Posted(posted[job].done + doneIds[job], posted[job].failed + failedIds[job],
                                       posted[job].final + FailedNow(w.fts(job), local[job]))];
        var markDone := if doneIds[job] != [] then w.doneOk(job) else true;
        var markFailed := true;
        if failedIds[job] != [] {
          markFailed := MarkFailed(reasons[job], w.failedOk(job));
        }
        MarkedIs(job, local[job], w);
        if job in ended && markDone && markFailed {
          RemoveKept(order, stay, job);
          ongoing := Remove(ongoing, job);
          stay := stay - {job};
        }
        k := k + 1;
      }
      assert checked[..k] == checked;
      PostedForListed(old(posted), checked, order, w, local);
      StayingIs(order, local, w);
      KeepSame(order, stay, Staying(order, local, w));
    }
  }

  // ---- run after run ----

  datatype Books = Books(jobs: set<JobId>, tally: map<JobId, Tally>)

  // A run in which FTS does not throw: a poll of every job on the list.
  function AfterRun(b: Books, w: World): Books {
    Books(set j | j in b.jobs && Stays(j, if j in b.tally then b.tally[j].left else [], w),
          map j | j in b.tally :: if j in b.jobs then Polled(b.tally[j], w.fts(j)) else b.tally[j])
  }

  function AfterRuns(b: Books, ws: seq<World>): Books
    decreases |ws|
  {
    if ws == [] then b else AfterRuns(AfterRun(b, ws[0]), ws[1..])
  }

  // What FTS says of a job as long as it is on the list.
  function Answers(b: Books, ws: seq<World>, j: JobId): seq<Answer>
    decreases |ws|
  {
    if ws == [] then []
    else (if j in b.jobs then [ws[0].fts(j)] else []) + Answers(AfterRun(b, ws[0]), ws[1..], j)
  }

  // For each job any runs are a row of polls.
  lemma {:induction false} RunsArePolls(b: Books, ws: seq<World>, j: JobId)
    requires j in b.tally
    ensures j in AfterRuns(b, ws).tally && AfterRuns(b, ws).tally[j] == PolledAll(b.tally[j], Answers(b, ws, j))
    decreases |ws|
  {
    hide Polled, Stays;
    if ws != [] {
      var next := AfterRun(b, ws[0]);
      RunsArePolls(next, ws[1..], j);
      var rest := Answers(next, ws[1..], j);
      if j in b.jobs {
        assert ([ws[0].fts(j)] + rest)[1..] == rest;
      } else {
        assert [] + rest == rest;
      }
    }
  }

  // A run in which FTS throws loses an id, for nothing is sent, exactly if it is of a job looked at before
  // and listed in a final state.
  lemma LostExactly(order: seq<JobId>, w: World, local: map<JobId, seq<Id>>, j: JobId, x: Id)
    requires j in local && x in local[j]
    ensures x !in AfterPolls(order[..Reach(order, w)], w, local)[j] <==>
            j in order[..Reach(order, w)] && Final(w.fts(j), x)
  {
    hide Reach, Without, Has;
    LeftIs(Tally(local[j], [], []), w.fts(j), x);
  }

  // Over any runs, if FTS does not throw, no id of a job is lost or doubled.
  lemma RunsConserve(b: Books, ws: seq<World>, j: JobId, submitted: seq<Id>)
    requires j in b.tally && b.tally[j] == Tally(submitted, [], []) && Distinct(submitted)
    requires forall w <- ws :: Once(w.fts(j))
    ensures j in AfterRuns(b, ws).tally
    ensures var t := AfterRuns(b, ws).tally[j];
            && multiset(t.left) + multiset(t.done) + multiset(t.failed) == multiset(submitted)
            && Distinct(All(t))
  {
    hide Once, Distinct, PolledAll, AfterRuns, All;
    RunsArePolls(b, ws, j);
    AnswersOnce(b, ws, j);
    IdsAreConserved(submitted, Answers(b, ws, j));
  }

  lemma {:induction false} AnswersOnce(b: Books, ws: seq<World>, j: JobId)
    requires forall w <- ws :: Once(w.fts(j))
    ensures forall a <- Answers(b, ws, j) :: Once(a)
    decreases |ws|
  {
    hide Once, AfterRun;
    if ws != [] {
      AnswersOnce(AfterRun(b, ws[0]), ws[1..], j);
    }
  }

  // The job has ended, but FTS lists its file x as pending, and gives no reason.
  ghost predicate StuckWithoutReason(a: Answer, x: Id) {
    && Ended(a) && Once(a)
    && exists i ::
         0 <= i < |a.files| && a.files[i].id == x && IsStuck(a.files[i], a.state) && a.files[i].reason.None?
  }

  // As long as this is so, the job never leaves the list and the file is never off it, whatever the server
  // says: the report of failures throws each time.
  lemma {:induction false} NeverLeaves(b: Books, ws: seq<World>, j: JobId, x: Id)
    requires j in b.jobs && j in b.tally && x in b.tally[j].left
    requires forall w <- ws :: StuckWithoutReason(w.fts(j), x)
    ensures var r := AfterRuns(b, ws); j in r.jobs && j in r.tally && x in r.tally[j].left
    decreases |ws|
  {
    hide StuckWithoutReason, Stays, Polled;
    if ws != [] {
      StuckStays(b.tally[j], j, ws[0], x);
      NeverLeaves(AfterRun(b, ws[0]), ws[1..], j, x);
    }
  }

  lemma StuckStays(t: Tally, j: JobId, w: World, x: Id)
    requires x in t.left && StuckWithoutReason(w.fts(j), x)
    ensures Stays(j, t.left, w) && x in Polled(t, w.fts(j)).left
  {
    hide Pick, Without, Polled;
    var a := w.fts(j);
    LeftIs(t, a, x);
    PickHas(a.files, t.left, FailedOrStuck(a.state), x);
    var i :| 0 <= i < |a.files| && a.files[i].id == x && IsStuck(a.files[i], a.state) && a.files[i].reason.None?;
    assert Is(a.files[i], FailedOrStuck(a.state));
    assert !Final(a, x);
  }

  // The reports on the jobs that were looked at.
  ghost predicate Reports(checked: seq<JobId>, done: map<JobId, seq<Id>>, failed: map<JobId, seq<Id>>, w: World,
                          local: map<JobId, seq<Id>>)
  {
    && (forall j <- checked :: j in local && j in done && j in failed)
    && (forall j <- checked :: done[j] == DoneNow(w.fts(j), local[j]))
    && forall j <- checked :: failed[j] == FailedReport(w.fts(j), local[j])
  }

  ghost predicate Reasons(checked: seq<JobId>, reasons: map<JobId, seq<Option<string>>>, w: World,
                          local: map<JobId, seq<Id>>)
  {
    && (forall j <- checked :: j in local && j in reasons)
    && forall j <- checked :: None in reasons[j] <==> Unreasoned(w.fts(j), local[j])
  }

  lemma ReasonsNext(checked: seq<JobId>, reasons: map<JobId, seq<Option<string>>>, w: World,
                    local: map<JobId, seq<Id>>, job: JobId, why: seq<Option<string>>)
    requires Reasons(checked, reasons, w, local) && job in local
    requires None in why <==> Unreasoned(w.fts(job), local[job])
    ensures Reasons(checked + [job], reasons[job := why], w, local)
  {
    hide Unreasoned;
  }

  lemma NoReasonNone(a: Answer, local: seq<Id>)
    requires a.Status?
    ensures !NoReason(a, 0, local)
  {
  }

  lemma NoReasonNext(a: Answer, i: nat, local: seq<Id>)
    requires a.Status? && i < |a.files|
    ensures NoReason(a, i + 1, local) <==>
              NoReason(a, i, local)
              || (a.files[i].id in local && IsStuck(a.files[i], a.state) && a.files[i].reason.None?)
  {
  }

  // What is left on disk after some of the jobs have been looked at.
  ghost predicate Lists(contents: map<JobId, seq<Id>>, jobs: seq<JobId>, w: World, local: map<JobId, seq<Id>>) {
    contents.Keys == local.Keys && forall j <- local :: contents[j] == AfterPoll(j, jobs, w, local[j])
  }

  lemma ThrowsIs(a: Answer)
    ensures Throws(a) <==> a.NoFiles? && a.state in {Active, Finished, FinishedDirty, Failed, Canceled}
    ensures Throws(a) ==> !Listed(a)
  {
  }

  lemma NotListed(a: Answer, local: seq<Id>)
    ensures !Listed(a) ==> DoneNow(a, local) == [] && FailedNow(a, local) == [] && FailedReport(a, local) == []
    ensures !Listed(a) ==> Without(local, DoneNow(a, local) + FailedNow(a, local)) == local
  {
    if !Listed(a) {
      WithoutNothing(local);
      assert DoneNow(a, local) + FailedNow(a, local) == [];
    }
  }

  lemma PostedForNothing(posted: map<JobId, Posted>, w: World, local: map<JobId, seq<Id>>)
    ensures PostedFor(posted, [], w, local) == posted
  {
  }

  lemma PostedForNext(posted: map<JobId, Posted>, jobs: seq<JobId>, w: World, local: map<JobId, seq<Id>>, job: JobId)
    requires job !in jobs && job in local && job in posted
    ensures job in PostedFor(posted, jobs, w, local)
    ensures var p := PostedFor(posted, jobs, w, local);
            PostedFor(posted, jobs + [job], w, local) == p[job := AfterPost(p[job], w.fts(job), local[job])]
  {
    hide AfterPost;
  }

  // Jobs that are not looked at have nothing to report.
  lemma PostedForListed(posted: map<JobId, Posted>, checked: seq<JobId>, order: seq<JobId>, w: World,
                        local: map<JobId, seq<Id>>)
    requires forall j :: j in checked <==> j in order && Listed(w.fts(j))
    ensures PostedFor(posted, checked, w, local) == PostedFor(posted, order, w, local)
  {
    hide DoneNow, FailedReport, FailedNow, Listed;
    forall j | j in posted && j in local && !Listed(w.fts(j))
      ensures AfterPost(posted[j], w.fts(j), local[j]) == posted[j]
    {
      NotListed(w.fts(j), local[j]);
      var p := posted[j];
      assert p.done + [] == p.done && p.failed + [] == p.failed && p.final + [] == p.final;
    }
  }

  lemma ReachThrows(order: seq<JobId>, w: World)
    ensures Reach(order, w) < |order| <==> exists j <- order :: Throws(w.fts(j))
    ensures Reach(order, w) == |order| ==> order[..Reach(order, w)] == order
  {
    hide Throws;
    var n := Reach(order, w);
    if n < |order| {
      assert order[n] in order;
    } else {
      assert order[..n] == order;
    }
  }

  lemma ListsAre(contents: map<JobId, seq<Id>>, jobs: seq<JobId>, w: World, local: map<JobId, seq<Id>>)
    requires Lists(contents, jobs, w, local)
    ensures contents == AfterPolls(jobs, w, local)
  {
    hide AfterPoll;
  }

  // The account after a run.
  lemma BooksAfter(jobs: set<JobId>, order: seq<JobId>, w: World, local: map<JobId, seq<Id>>,
                   posted: map<JobId, Posted>)
    requires local.Keys == posted.Keys && (forall j <- order :: j in local) && jobs == set j | j in order
    ensures AfterRun(Books(jobs, Tallies(local, posted)), w)
         == Books((set j | j in Keep(order, Staying(order, local, w))),
                  Tallies(AfterPolls(order, w, local), PostedFor(posted, order, w, local)))
  {
    hide Keep, Stays, Polled;
    var before, contents := Tallies(local, posted), AfterPolls(order, w, local);
    var after := Tallies(contents, PostedFor(posted, order, w, local));
    forall j <- local
      ensures after[j] == if j in jobs then Polled(before[j], w.fts(j)) else before[j]
    {
      PolledIs(local[j], posted[j], w.fts(j));
    }
    assert after == AfterRun(Books(jobs, before), w).tally;
  }

  lemma PolledIs(local: seq<Id>, p: Posted, a: Answer)
    ensures Polled(Tally(local, p.done, p.final), a)
         == Tally(if Listed(a) then Without(local, DoneNow(a, local) + FailedNow(a, local)) else local,
                  AfterPost(p, a, local).done, AfterPost(p, a, local).final)
  {
    hide DoneNow, FailedNow, Without, Listed, FailedReport;
    NotListed(a, local);
  }

  lemma {:induction false} KeepDistinct(jobs: seq<JobId>, s: set<JobId>)
    requires Distinct(jobs)
    ensures Distinct(Keep(jobs, s))
  {
    if jobs != [] {
      var n := |jobs| - 1;
      KeepDistinct(jobs[..n], s);
      assert jobs[n] !in Keep(jobs[..n], s);
    }
  }

  lemma ReportsNext(checked: seq<JobId>, done: map<JobId, seq<Id>>, failed: map<JobId, seq<Id>>, w: World,
                    local: map<JobId, seq<Id>>, job: JobId)
    requires Reports(checked, done, failed, w, local) && job in local
    ensures Reports(checked + [job], done[job := DoneNow(w.fts(job), local[job])],
                    failed[job := FailedReport(w.fts(job), local[job])], w, local)
  {
    hide DoneNow, FailedReport;
  }

  lemma ListsNext(contents: map<JobId, seq<Id>>, jobs: seq<JobId>, w: World, local: map<JobId, seq<Id>>, job: JobId)
    requires Lists(contents, jobs, w, local) && job !in jobs && (Listed(w.fts(job)) ==> job in contents)
    ensures job in local ==> contents[job] == local[job]
    ensures Lists(if Listed(w.fts(job)) then
                    var l := contents[job];
                    contents[job := Without(l, DoneNow(w.fts(job), l) + FailedNow(w.fts(job), l))]
                  else contents, jobs + [job], w, local)
  {
    hide DoneNow, FailedNow, Without, Listed;
  }

  lemma KeepNothing(order: seq<JobId>, s: set<JobId>)
    ensures Keep(order[..0], s) == []
  {
  }

  lemma NothingYet(local: map<JobId, seq<Id>>, w: World)
    ensures Reports([], map[], map[], w, local) && Reasons([], map[], w, local) && Lists(local, [], w, local)
  {
  }

  lemma NotKept(jobs: seq<JobId>, s: set<JobId>, j: JobId)
    requires j !in jobs
    ensures j !in Keep(jobs, s)
  {
  }

  lemma MarkedIs(j: JobId, local: seq<Id>, w: World)
    ensures Marked(j, local, w) <==>
              && (DoneNow(w.fts(j), local) == [] || w.doneOk(j))
              && (FailedReport(w.fts(j), local) == [] || (w.failedOk(j) && !Unreasoned(w.fts(j), local)))
  {
  }

  lemma StayingIs(order: seq<JobId>, local: map<JobId, seq<Id>>, w: World)
    ensures forall j :: j in Staying(order, local, w) <==>
              j in Found(order, w) && !(Ended(w.fts(j)) && Marked(j, Local(local, j), w))
    ensures forall j :: Ended(w.fts(j)) ==> Listed(w.fts(j))
  {
  }

  // The jobs that FTS knows.
  ghost function Found(order: seq<JobId>, w: World): set<JobId> {
    set j | j in order && !w.fts(j).NotFound?
  }

  // The jobs that stay on the list.
  ghost function Staying(order: seq<JobId>, local: map<JobId, seq<Id>>, w: World): set<JobId> {
    set j | j in order && Stays(j, Local(local, j), w)
  }

  function Local(contents: map<JobId, seq<Id>>, j: JobId): seq<Id> {
    if j in contents then contents[j] else []
  }

  // What a run leaves of the list of ids of a job.
  function AfterPoll(j: JobId, order: seq<JobId>, w: World, local: seq<Id>): seq<Id> {
    if j in order && Listed(w.fts(j)) then Without(local, DoneNow(w.fts(j), local) + FailedNow(w.fts(j), local))
    else local
  }

  function AfterPolls(order: seq<JobId>, w: World, local: map<JobId, seq<Id>>): (r: map<JobId, seq<Id>>)
    ensures r.Keys == local.Keys
  {
    map j | j in local :: AfterPoll(j, order, w, local[j])
  }

  lemma {:induction false} SameWithout(local: seq<Id>, gone: seq<Id>, other: seq<Id>)
    requires forall x :: x in gone <==> x in other
    ensures Without(local, gone) == Without(local, other)
  {
    if local != [] {
      SameWithout(local[..|local| - 1], gone, other);
    }
  }

  lemma {:induction false} WithoutNothing(local: seq<Id>)
    ensures Without(local, []) == local
  {
    if local != [] {
      hide Without;
      var init, last := local[..|local| - 1], local[|local| - 1];
      WithoutNothing(init);
      assert local == init + [last];
      WithoutNext(init, last, []);
    }
  }

  // ---- two inputs ----

  // The REST server refuses the update of a finished job. The job stays on the list, but at the next run
  // there is nothing to report, and it leaves the list: the update has been sent once, and in vain.
  method RefusedUpdate() returns (m: Monitor, j: JobId, x: Id, first: World, second: World)
    ensures fresh(m) && m.Valid() && !first.doneOk(j) && Ended(first.fts(j)) && second.fts(j) == first.fts(j)
    ensures m.contents == map[j := []] && m.posted == map[j := Posted([x], [], [])] && m.jobIds == []
  {
    j, x := "job", "file";
    var a := Status(Finished, [FileStatus(x, Transferred, None)]);
    first, second := World(_ => a, _ => false, _ => true), World(_ => a, _ => true, _ => true);
    m := new Monitor();
    m.Add(j, [x]);
    RunOverOne(m, j, x, [x], Posted([], [], []), first);
    assert [] + [x] == [x] && [x] + [] == [x];
    RunOverOne(m, j, x, [], Posted([x], [], []), second);
  }

  // A run over this one job, whose only file has been transferred.
  method RunOverOne(m: Monitor, j: JobId, x: Id, ghost local: seq<Id>, ghost p: Posted, w: World)
    requires m.Valid() && m.contents == map[j := local] && m.posted == map[j := p] && m.jobIds == [j]
    requires w.fts(j) == Status(Finished, [FileStatus(x, Transferred, None)]) && (local == [x] || local == [])
    modifies m
    ensures m.Valid() && m.contents == map[j := []] && m.posted == map[j := Posted(p.done + local, p.failed, p.final)]
    ensures m.jobIds == if local == [] || w.doneOk(j) then [] else [j]
  {
    hide DoneNow, FailedNow, FailedReport, Without, Keep, Stays, Reach, PostedFor, AfterPolls, Throws, AfterRun;
    OneRun(j, x, w.fts(j), local, p, w);
    var crashed := m.StateManager([j], w);
  }

  // FTS throws for the second of two jobs: the file of the first, which has been transferred, is off the
  // list on disk and has not been reported, and never will be.
  method LostReport() returns (m: Monitor, j: JobId, x: Id, w: World, crashed: bool)
    ensures fresh(m) && m.Valid() && crashed && Ended(w.fts(j))
    ensures j in m.contents && m.contents[j] == [] && m.posted[j] == Posted([], [], []) && j in m.jobIds
  {
    hide DoneNow, FailedNow, FailedReport, Without, Reach;
    j, x := "job", "file";
    var k := "other";
    var a := Status(Finished, [FileStatus(x, Transferred, None)]);
    w := World(i => if i == "job" then a else NoFiles(Active), _ => true, _ => true);
    m := new Monitor();
    m.Add(j, [x]);
    m.Add(k, ["more"]);
    assert m.jobIds == [j, k];
    OneDone(a, x);
    assert [j, k][..1] == [j] && [j, k][1] == k;
    ReachIs([j, k], w, 1);
    crashed := m.StateManager([j, k], w);
  }

  lemma OneDone(a: Answer, x: Id)
    requires a == Status(Finished, [FileStatus(x, Transferred, None)])
    ensures DoneNow(a, [x]) == [x] && FailedNow(a, [x]) == [] && FailedReport(a, [x]) == []
    ensures Without([x], [x] + []) == []
    ensures DoneNow(a, []) == [] && FailedReport(a, []) == [] && FailedNow(a, []) == [] && Without([], [] + []) == []
  {
    hide Pick, Without;
    var f, stuck := a.files[0], FailedOrStuck(a.state);
    PickOne(f, [x], DoneFiles);
    PickOne(f, [x], FailedFiles);
    PickOne(f, [x], stuck);
    PickOne(f, [], DoneFiles);
    PickOne(f, [], FailedFiles);
    PickOne(f, [], stuck);
    assert [x] + [] == [x] && [] + [x] == [x];
    WithoutNext([], x, [x]);
    WithoutEmpty([x]);
    WithoutEmpty([] + []);
  }

  lemma PickOne(f: FileStatus, local: seq<Id>, p: Sort)
    ensures Pick([f], local, p) == if f.id in local && Is(f, p) then [f.id] else []
  {
    assert [f][..0] == [] && Pick([], local, p) == [];
  }

  lemma WithoutEmpty(gone: seq<Id>)
    ensures Without([], gone) == []
  {
  }

  // A run over this one job.
  lemma OneRun(j: JobId, x: Id, a: Answer, local: seq<Id>, p: Posted, w: World)
    requires a == Status(Finished, [FileStatus(x, Transferred, None)]) && w.fts(j) == a
    requires local == [x] || local == []
    ensures Reach([j], w) == 1 && [j][..1] == [j] && !Throws(w.fts(j))
    ensures AfterPolls([j], w, map[j := local]) == map[j := []]
    ensures PostedFor(map[j := p], [j], w, map[j := local]) == map[j := p.(done := p.done + local)]
    ensures Keep([j], Staying([j], map[j := local], w)) == if local == [] || w.doneOk(j) then [] else [j]
  {
    hide DoneNow, FailedNow, FailedReport, Without, Reach;
    OneDone(a, x);
    ReachIs([j], w, 1);
    assert [j][..0] == [] && p.done + [] == p.done && p.failed + [] == p.failed && p.final + [] == p.final;
  }
}
