// Submission of transfers to FTS, FTS_Transfers.py: requests are grouped by their source, cut into jobs and
// remembered on disk.
module FtsSubmit {
  import opened Canonical

  type Id = string
  type Site = string
  type JobId = string

  // A requested transfer; what else it says is passed on as it is.
  datatype Transfer = Transfer(id: Id, source: Site, rest: string)

  datatype Job = Job(id: JobId, files: seq<Transfer>)

  // An update for the REST server: these ids are now submitted as that job.
  datatype Doc = Doc(ids: seq<Id>, job: JobId)

  function Ids(files: seq<Transfer>): (r: seq<Id>)
    ensures |r| == |files| && forall i :: 0 <= i < |files| ==> r[i] == files[i].id
  {
    seq(|files|, i requires 0 <= i < |files| => files[i].id)
  }

  // The requests from a source, in their order.
  function FromSite(ts: seq<Transfer>, s: Site): (r: seq<Transfer>)
    ensures forall i :: 0 <= i < |r| ==> r[i].source == s
  {
    if ts == [] then []
    else FromSite(ts[..|ts| - 1], s) + if ts[|ts| - 1].source == s then [ts[|ts| - 1]] else []
  }

  // The files of each job.
  function FilesOf(jobs: seq<Job>): (r: seq<seq<Transfer>>)
    ensures |r| == |jobs|
  {
    seq(|jobs|, i requires 0 <= i < |jobs| => jobs[i].files)
  }

  function FlatIds(lists: seq<seq<Id>>): seq<Id> {
    if lists == [] then [] else FlatIds(lists[..|lists| - 1]) + lists[|lists| - 1]
  }

  lemma NoFiles()
    ensures FilesOf([]) == []
  {
  }

  lemma FilesOfAdd(jobs: seq<Job>, j: Job)
    ensures FilesOf(jobs + [j]) == FilesOf(jobs) + [j.files]
  {
  }

  // chunks: stretches of n, the last of them perhaps shorter.
  function Chunks(l: seq<Transfer>, n: nat): (r: seq<seq<Transfer>>)
    requires n > 0
    ensures forall i :: 0 <= i < |r| ==> 0 < |r[i]| <= n && (i < |r| - 1 ==> |r[i]| == n)
    decreases |l|
  {
    if l == [] then [] else if |l| <= n then [l] else [l[..n]] + Chunks(l[n..], n)
  }

  function Join(chunks: seq<seq<Transfer>>): seq<Transfer> {
    if chunks == [] then [] else chunks[0] + Join(chunks[1..])
  }

  lemma NoChunks(n: nat)
    requires n > 0
    ensures Chunks([], n) == []
  {
  }

  lemma NextChunk(l: seq<Transfer>, n: nat)
    requires n > 0 && l != []
    ensures var k := if n < |l| then n else |l|;
            Chunks(l, n) == [l[..k]] + Chunks(l[k..], n)
  {
    assert l[..|l|] == l && l[|l|..] == [];
  }

  lemma {:induction false} ChunksJoin(l: seq<Transfer>, n: nat)
    requires n > 0
    ensures Join(Chunks(l, n)) == l
    decreases |l|
  {
    if |l| > n {
      ChunksJoin(l[n..], n);
      assert ([l[..n]] + Chunks(l[n..], n))[1..] == Chunks(l[n..], n);
    } else if l != [] {
      assert [l][1..] == [];
    }
  }

  lemma {:induction false} JoinAppend(a: seq<seq<Transfer>>, b: seq<seq<Transfer>>)
    ensures Join(a + b) == Join(a) + Join(b)
    decreases |a|
  {
    if a == [] {
      assert a + b == b;
    } else {
      assert (a + b)[1..] == a[1..] + b;
      JoinAppend(a[1..], b);
    }
  }

  // ---- what submitting should do ----

  // The requests of the sources, one source after the other: in jobs of n at most, or in a list of failed
  // ones where the paths cannot be mapped.
  function JobFiles(ts: seq<Transfer>, sites: seq<Site>, n: nat, mapped: Site -> bool): seq<seq<Transfer>>
    requires n > 0
  {
    if sites == [] then []
    else
      var s := sites[|sites| - 1];
      JobFiles(ts, sites[..|sites| - 1], n, mapped) + if mapped(s) then Chunks(FromSite(ts, s), n) else []
  }

  function FailedLists(ts: seq<Transfer>, sites: seq<Site>, mapped: Site -> bool): seq<seq<Id>> {
    if sites == [] then []
    else
      var s := sites[|sites| - 1];
      FailedLists(ts, sites[..|sites| - 1], mapped) + if mapped(s) then [] else [Ids(FromSite(ts, s))]
  }

  // Jobs are of one source each, neither empty nor too large.
  predicate WfFiles(files: seq<Transfer>, limit: nat) {
    0 < |files| <= limit && forall i :: 0 <= i < |files| ==> files[i].source == files[0].source
  }

  // The requests by source.
  function Grouped(ts: seq<Transfer>, sites: seq<Site>): seq<Transfer> {
    if sites == [] then [] else Grouped(ts, sites[..|sites| - 1]) + FromSite(ts, sites[|sites| - 1])
  }

  predicate Distinct(sites: seq<Site>) {
    forall i, j :: 0 <= i < j < |sites| ==> sites[i] != sites[j]
  }

  lemma {:induction false} SiteCount(ts: seq<Transfer>, s: Site, t: Transfer)
    ensures multiset(FromSite(ts, s))[t] == if t.source == s then multiset(ts)[t] else 0
  {
    if ts != [] {
      var init, last := ts[..|ts| - 1], ts[|ts| - 1];
      SiteCount(init, s, t);
      assert ts == init + [last];
    }
  }

  lemma {:induction false} GroupCount(ts: seq<Transfer>, sites: seq<Site>, t: Transfer)
    requires Distinct(sites)
    ensures multiset(Grouped(ts, sites))[t] == if t.source in sites then multiset(ts)[t] else 0
  {
    if sites != [] {
      var init, last := sites[..|sites| - 1], sites[|sites| - 1];
      GroupCount(ts, init, t);
      SiteCount(ts, last, t);
      assert sites == init + [last];
    }
  }

  lemma GroupingKeepsAll(ts: seq<Transfer>, sites: seq<Site>)
    requires Distinct(sites) && forall t <- ts :: t.source in sites
    ensures multiset(Grouped(ts, sites)) == multiset(ts)
  {
    forall t: Transfer
      ensures multiset(Grouped(ts, sites))[t] == multiset(ts)[t]
    {
      GroupCount(ts, sites, t);
    }
  }

  lemma RemoveAt<T>(b: seq<T>, k: nat)
    requires k < |b|
    ensures multiset(b) == multiset(b[..k] + b[k + 1..]) + multiset{b[k]}
  {
    assert b == b[..k] + ([b[k]] + b[k + 1..]);
  }

  lemma Cancel<T>(m: multiset<T>, n: multiset<T>, x: T)
    requires m + multiset{x} == n + multiset{x}
    ensures m == n
  {
    assert m == (m + multiset{x}) - multiset{x};
    assert n == (n + multiset{x}) - multiset{x};
  }

  lemma IdsWithout(b: seq<Transfer>, k: nat)
    requires k < |b|
    ensures multiset(Ids(b)) == multiset(Ids(b[..k] + b[k + 1..])) + multiset{b[k].id}
  {
    RemoveAt(Ids(b), k);
    assert Ids(b[..k] + b[k + 1..]) == Ids(b)[..k] + Ids(b)[k + 1..];
  }

  // Lists with the same elements have the same ids.
  lemma {:induction false} SameIds(a: seq<Transfer>, b: seq<Transfer>)
    requires multiset(a) == multiset(b)
    ensures multiset(Ids(a)) == multiset(Ids(b))
    decreases |a|
  {
    if a == [] {
      assert |multiset(b)| == 0;
    } else {
      hide Ids;
      assert a[0] in multiset(b);
      var k :| 0 <= k < |b| && b[k] == a[0];
      RemoveAt(a, 0);
      RemoveAt(b, k);
      IdsWithout(a, 0);
      IdsWithout(b, k);
      Cancel(multiset(a[..0] + a[1..]), multiset(b[..k] + b[k + 1..]), a[0]);
      SameIds(a[..0] + a[1..], b[..k] + b[k + 1..]);
    }
  }

  lemma {:induction false} GroupedIds(ts: seq<Transfer>, sites: seq<Site>, n: nat, mapped: Site -> bool)
    requires n > 0
    ensures multiset(Ids(Join(JobFiles(ts, sites, n, mapped)))) + multiset(FlatIds(FailedLists(ts, sites, mapped)))
         == multiset(Ids(Grouped(ts, sites)))
  {
    if sites == [] {
      JoinNothing();
    } else {
      hide Chunks, FromSite, Join, Ids, FlatIds;
      var init, s := sites[..|sites| - 1], sites[|sites| - 1];
      var files, before, lists := FromSite(ts, s), JobFiles(ts, init, n, mapped), FailedLists(ts, init, mapped);
      GroupedIds(ts, init, n, mapped);
      IdsAppend(Grouped(ts, init), files);
      if mapped(s) {
        JoinAppend(before, Chunks(files, n));
        ChunksJoin(files, n);
        IdsAppend(Join(before), files);
        assert lists + [] == lists;
      } else {
        FlatIdsAdd(lists, Ids(files));
        assert before + [] == before;
      }
    }
  }

  lemma IdsAppend(a: seq<Transfer>, b: seq<Transfer>)
    ensures Ids(a + b) == Ids(a) + Ids(b)
  {
  }

  lemma JoinNothing()
    ensures Join([]) == []
  {
  }

  lemma FlatIdsAdd(lists: seq<seq<Id>>, l: seq<Id>)
    ensures FlatIds(lists + [l]) == FlatIds(lists) + l
  {
    assert (lists + [l])[..|lists|] == lists;
  }

  // Every request ends in exactly one job or in exactly one list of failed ones.
  lemma EveryRequestEnds(ts: seq<Transfer>, sites: seq<Site>, n: nat, mapped: Site -> bool)
    requires n > 0 && Distinct(sites) && forall t <- ts :: t.source in sites
    ensures multiset(Ids(Join(JobFiles(ts, sites, n, mapped)))) + multiset(FlatIds(FailedLists(ts, sites, mapped)))
         == multiset(Ids(ts))
  {
    hide JobFiles, FailedLists, Join, FlatIds;
    GroupedIds(ts, sites, n, mapped);
    GroupingKeepsAll(ts, sites);
    SameIds(Grouped(ts, sites), ts);
  }

  // Jobs are of one source each, not empty and not too large.
  lemma {:induction false} JobsAreWf(ts: seq<Transfer>, sites: seq<Site>, n: nat, mapped: Site -> bool)
    requires n > 0
    ensures forall files <- JobFiles(ts, sites, n, mapped) :: WfFiles(files, n)
  {
    hide Chunks, FromSite;
    if sites != [] {
      JobsAreWf(ts, sites[..|sites| - 1], n, mapped);
      var s := sites[|sites| - 1];
      ChunksWf(FromSite(ts, s), s, n);
    }
  }

  lemma {:induction false} ChunksWf(l: seq<Transfer>, s: Site, n: nat)
    requires n > 0 && forall i :: 0 <= i < |l| ==> l[i].source == s
    ensures forall files <- Chunks(l, n) :: WfFiles(files, n)
    decreases |l|
  {
    if |l| > n {
      ChunksWf(l[n..], s, n);
    }
  }

  // In the jobs the requests of each source that can be mapped are in the order of the input.
  lemma {:induction false} OrderKept(ts: seq<Transfer>, sites: seq<Site>, n: nat, mapped: Site -> bool, s: Site)
    requires n > 0 && Distinct(sites)
    ensures FromSite(Join(JobFiles(ts, sites, n, mapped)), s) == if s in sites && mapped(s) then FromSite(ts, s) else []
  {
    hide Chunks, FromSite, Join;
    if sites == [] {
      JoinNothing();
      FromNothing(s);
    } else {
      var init, last := sites[..|sites| - 1], sites[|sites| - 1];
      var files, before := FromSite(ts, last), JobFiles(ts, init, n, mapped);
      OrderKept(ts, init, n, mapped, s);
      assert sites == init + [last];
      if mapped(last) {
        JoinAppend(before, Chunks(files, n));
        ChunksJoin(files, n);
        FromAppend(Join(before), files, s);
        FromOne(files, last, s);
      } else {
        assert before + [] == before;
      }
    }
  }

  lemma FromNothing(s: Site)
    ensures FromSite([], s) == []
  {
  }

  lemma {:induction false} FromAppend(a: seq<Transfer>, b: seq<Transfer>, s: Site)
    ensures FromSite(a + b, s) == FromSite(a, s) + FromSite(b, s)
    decreases |b|
  {
    if b == [] {
      assert a + b == a;
    } else {
      assert (a + b)[..|a + b| - 1] == a + b[..|b| - 1];
      FromAppend(a, b[..|b| - 1], s);
    }
  }

  lemma {:induction false} FromOne(files: seq<Transfer>, t: Site, s: Site)
    requires forall i :: 0 <= i < |files| ==> files[i].source == t
    ensures FromSite(files, s) == if s == t then files else []
  {
    if files != [] {
      FromOne(files[..|files| - 1], t, s);
    }
  }

  // ---- the program ----

  // What the services answer: whether the paths at a source can be mapped, and the ids of new jobs.
  datatype World = World(mapped: Site -> bool, jobs: nat -> JobId)

  class Submission {
    // The jobs that FTS has got, and the lists of ids marked as failed.
    ghost var submitted: seq<Job>
    var failed: seq<seq<Id>>
    var jobIds: seq<JobId>
    var toUpdate: seq<Doc>
    // The files with the ids of each job.
    var contents: map<JobId, seq<Id>>
    // The updates that have been sent.
    var posted: seq<Doc>

    constructor ()
      ensures submitted == [] && failed == [] && jobIds == [] && toUpdate == [] && contents == map[] && posted == []
    {
      submitted, failed, jobIds, toUpdate, contents, posted := [], [], [], [], map[], [];
    }

    // For every job there are its id, its update and its file of ids, and they say the same.
    ghost predicate Recorded()
      reads this
    {
      && |jobIds| == |submitted| == |toUpdate|
      && (forall i :: 0 <= i < |submitted| ==> jobIds[i] == submitted[i].id)
      && (forall i :: 0 <= i < |submitted| ==> toUpdate[i] == Doc(Ids(submitted[i].files), submitted[i].id))
      && forall i :: 0 <= i < |submitted| ==>
           submitted[i].id in contents && contents[submitted[i].id] == Ids(submitted[i].files)
    }

    // submitToFTS
    method SubmitToFts(files: seq<Transfer>, w: World) returns (job: JobId)
      requires files != []
      modifies this`submitted, this`jobIds, this`toUpdate
      ensures job == w.jobs(|old(jobIds)|)
      ensures submitted == old(submitted) + [Job(job, files)] && jobIds == old(jobIds) + [job]
      ensures toUpdate == old(toUpdate) + [Doc(Ids(files), job)]
    {
      job := w.jobs(|jobIds|);
      submitted := submitted + [Job(job, files)];
      jobIds := jobIds + [job];
      toUpdate := toUpdate + [Doc(Ids(files), job)];
    }

    // The jobs of one source.
    method SubmitChunks(files: seq<Transfer>, n: nat, w: World)
      requires n > 0 && Recorded() && Numbered(w)
      modifies this`submitted, this`jobIds, this`toUpdate, this`contents
      ensures Recorded() && Numbered(w)
      ensures FilesOf(submitted) == FilesOf(old(submitted)) + Chunks(files, n)
    {
      hide FilesOf, Ids, Chunks;
      var at := 0;
      ghost var done: seq<seq<Transfer>> := [];
      NoChunks(n);
      while at < |files|
        invariant 0 <= at <= |files| && Recorded() && Numbered(w)
        invariant FilesOf(submitted) == FilesOf(old(submitted)) + done
        invariant Chunks(files, n) == done + Chunks(files[at..], n)
      {
        var end := if at + n < |files| then at + n else |files|;
        var chunk := files[at..end];
        ghost var before := submitted;
        var job := SubmitToFts(chunk, w);
        contents := contents[job := Ids(chunk)];
        FilesOfAdd(before, Job(job, chunk));
        NextChunk(files[at..], n);
        assert files[at..][..end - at] == chunk && files[at..][end - at..] == files[end..];
        done := done + [chunk];
        at := end;
      }
      assert files[at..] == [];
    }

    // The ids of jobs are those that FTS has given, which are all different.
    ghost predicate Numbered(w: World)
      reads this`jobIds
    {
      && (forall i, j :: 0 <= i < j ==> w.jobs(i) != w.jobs(j))
      && forall i :: 0 <= i < |jobIds| ==> jobIds[i] == w.jobs(i)
    }

    // submit, for the sources in any order.
    method Submit(ts: seq<Transfer>, sites: seq<Site>, reuse: bool, w: World) returns (jobs: seq<JobId>)
      requires submitted == [] && failed == [] && jobIds == [] && toUpdate == [] && contents == map[] && posted == []
      requires Numbered(w)
      modifies this
      ensures Recorded() && jobs == jobIds && posted == toUpdate
      ensures FilesOf(submitted) == JobFiles(ts, sites, if reuse then 50 else 200, w.mapped)
      ensures failed == FailedLists(ts, sites, w.mapped)
    {
      hide FilesOf, Ids, Chunks, FromSite;
      var n := if reuse then 50 else 200;
      NoFiles();
      var i := 0;
      assert sites[..0] == [];
      while i < |sites|
        invariant 0 <= i <= |sites| && Recorded() && Numbered(w) && posted == []
        invariant FilesOf(submitted) == JobFiles(ts, sites[..i], n, w.mapped)
        invariant failed == FailedLists(ts, sites[..i], w.mapped)
      {
        assert sites[..i + 1][..i] == sites[..i];
        var files := FromSite(ts, sites[i]);
        if !w.mapped(sites[i]) {
          failed := failed + [Ids(files)];
        } else {
          SubmitChunks(files, n, w);
        }
        i := i + 1;
      }
      assert sites[..i] == sites;
      i := 0;
      while i < |toUpdate|
        invariant 0 <= i <= |toUpdate| && posted == toUpdate[..i] && Recorded()
        modifies this`posted
      {
        posted := posted + [toUpdate[i]];
        i := i + 1;
      }
      jobs := jobIds;
    }
  }
}
