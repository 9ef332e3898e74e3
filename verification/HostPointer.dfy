/**
 The pointers of a host to its last job and to the summary that job left
 (forail/main/signals.py:387-422).  They are kept by three parts of a deletion that do not
 know of each other: a note taken before it, the database clearing the pointers to what is
 deleted, and a repair after it.
 */
module HostPointer {

  import opened Options

  /** What a job did on a host; the host may be gone. */
  datatype Summary = Summary(host: Option<nat>, job: nat)
  datatype Host = Host(lastJob: Option<nat>, lastSummary: Option<nat>)
  datatype Db = Db(jobs: set<nat>, summaries: map<nat, Summary>, hosts: map<nat, Host>)

  predicate Of(summaries: map<nat, Summary>, s: nat, h: nat) {
    s in summaries && summaries[s].host == Some(h)
  }

  /** `s` is a summary of `h` with the greatest job. */
  predicate IsLatest(summaries: map<nat, Summary>, s: nat, h: nat) {
    Of(summaries, s, h) && forall t <- summaries :: Of(summaries, t, h) ==> summaries[t].job <= summaries[s].job
  }

  /** The pointers name the summary with the greatest job, or there is none. */
  predicate PointersOk(summaries: map<nat, Summary>, h: nat, host: Host) {
    match host.lastSummary
    case Some(s) => IsLatest(summaries, s, h) && host.lastJob == Some(summaries[s].job)
    case None => host.lastJob.None? && forall s <- summaries :: !Of(summaries, s, h)
  }

  /** Every summary belongs to a job. */
  predicate Linked(db: Db) {
    forall s <- db.summaries :: db.summaries[s].job in db.jobs
  }

  predicate AllPointersOk(db: Db) {
    forall h <- db.hosts :: PointersOk(db.summaries, h, db.hosts[h])
  }

  lemma LatestExists(summaries: map<nat, Summary>, among: set<nat>) returns (s: nat)
    requires among != {} && among <= summaries.Keys
    ensures s in among && forall t <- among :: summaries[t].job <= summaries[s].job
    decreases |among|
  {
    s :| s in among;
    if among != {s} {
      assert among - {s} != {};
      var t := LatestExists(summaries, among - {s});
      assert forall x <- among :: x == s || x in among - {s};
      s := if summaries[s].job < summaries[t].job then t else s;
    }
  }

  // ----- What a deletion comes to -----

  /** The rows that go with the jobs. */
  function Remaining(summaries: map<nat, Summary>, doomed: set<nat>): map<nat, Summary> {
    map s <- summaries | summaries[s].job !in doomed :: summaries[s]
  }

  predicate PointsInto(host: Host, doomed: set<nat>) {
    host.lastJob.Some? && host.lastJob.value in doomed
  }

  /** The database clears pointers to rows it deletes. */
  function Cleared(summaries: map<nat, Summary>, host: Host, doomed: set<nat>): Host {
    Host(if PointsInto(host, doomed) then None else host.lastJob,
         if host.lastSummary.Some? && host.lastSummary.value in summaries && summaries[host.lastSummary.value].job in doomed
         then None else host.lastSummary)
  }

  /** Deleting jobs gives the hosts whose last job was among them the latest summary left;
      every other host only loses a pointer to a summary that is gone. */
  predicate Deleted(was: Db, now: Db, doomed: set<nat>) {
    && now.jobs == was.jobs - doomed && now.summaries == Remaining(was.summaries, doomed) && now.hosts.Keys == was.hosts.Keys
    && forall h <- was.hosts ::
         if PointsInto(was.hosts[h], doomed) then PointersOk(now.summaries, h, now.hosts[h])
         else now.hosts[h] == Cleared(was.summaries, was.hosts[h], doomed)
  }

  /** A deletion in terms of rows and pointers. */
  lemma DeletedIs(was: Db, now: Db, doomed: set<nat>)
    requires Deleted(was, now, doomed)
    ensures forall s :: s in now.summaries <==> s in was.summaries && was.summaries[s].job !in doomed
    ensures forall s <- now.summaries :: now.summaries[s] == was.summaries[s]
    ensures forall h <- was.hosts ::
              var Host(lastJob, lastSummary) := was.hosts[h];
              if lastJob.Some? && lastJob.value in doomed then
                match now.hosts[h].lastSummary
                case None => now.hosts[h].lastJob == None && forall t <- now.summaries :: now.summaries[t].host != Some(h)
                case Some(s) =>
                  && s in now.summaries && now.summaries[s].host == Some(h) && now.hosts[h].lastJob == Some(now.summaries[s].job)
                  && forall t <- now.summaries :: now.summaries[t].host == Some(h) ==> now.summaries[t].job <= now.summaries[s].job
              else
                && now.hosts[h].lastJob == lastJob
                && now.hosts[h].lastSummary ==
                   if lastSummary.Some? && lastSummary.value in was.summaries && lastSummary.value !in now.summaries then None else lastSummary
  {
    forall h <- was.hosts | PointsInto(was.hosts[h], doomed)
      ensures PointersOk(now.summaries, h, now.hosts[h])
      ensures now.hosts[h].lastSummary.None? ==> forall t <- now.summaries :: now.summaries[t].host != Some(h)
    {
      assert forall t <- now.summaries :: Of(now.summaries, t, h) <==> now.summaries[t].host == Some(h);
    }
    forall h <- was.hosts, t <- now.summaries | now.summaries[t].host == Some(h)
      ensures Of(now.summaries, t, h)
    {
    }
  }

  /** Every summary of `h` newer than its last job goes. */
  predicate NewerGo(was: Db, doomed: set<nat>, h: nat)
    requires h in was.hosts
  {
    forall t <- was.summaries :: Of(was.summaries, t, h)
      && (was.hosts[h].lastJob.None? || was.summaries[t].job > was.hosts[h].lastJob.value)
      ==> was.summaries[t].job in doomed
  }

  /** The two pointers of `h` name a summary of it and the job of that summary; without a last
      job there may be a pointer to a summary that goes. */
  predicate PointersAgree(was: Db, doomed: set<nat>, h: nat)
    requires h in was.hosts
  {
    var Host(lastJob, lastSummary) := was.hosts[h];
    match lastJob
    case Some(j) => lastSummary.Some? && Of(was.summaries, lastSummary.value, h) && was.summaries[lastSummary.value].job == j
    case None => lastSummary.Some? ==> lastSummary.value in was.summaries && was.summaries[lastSummary.value].job in doomed
  }

  /** Whatever the pointers of a host are before a deletion, they are right after it exactly if
      its last job is deleted, which starts the repair; or they agree with each other and all
      that is newer goes.  A host that has missed a newer job is not repaired otherwise. */
  lemma RightAfterDeletion(was: Db, now: Db, doomed: set<nat>, h: nat)
    requires Deleted(was, now, doomed) && h in was.hosts
    ensures PointersOk(now.summaries, h, now.hosts[h]) <==>
              PointsInto(was.hosts[h], doomed) || (PointersAgree(was, doomed, h) && NewerGo(was, doomed, h))
  {
    var left, host := now.summaries, was.hosts[h];
    assert forall s :: Of(left, s, h) <==> Of(was.summaries, s, h) && was.summaries[s].job !in doomed;
    if !PointsInto(host, doomed) {
      if PointersAgree(was, doomed, h) && NewerGo(was, doomed, h) {
        assert PointersOk(left, h, now.hosts[h]);
      }
      if PointersOk(left, h, now.hosts[h]) {
        NewerHaveGone(was, now, doomed, h);
      }
    }
  }

  lemma NewerHaveGone(was: Db, now: Db, doomed: set<nat>, h: nat)
    requires Deleted(was, now, doomed) && h in was.hosts && !PointsInto(was.hosts[h], doomed)
    requires PointersOk(now.summaries, h, now.hosts[h])
    ensures PointersAgree(was, doomed, h) && NewerGo(was, doomed, h)
  {
    forall t <- was.summaries | Of(was.summaries, t, h) && was.summaries[t].job !in doomed
      ensures was.hosts[h].lastJob.Some? && was.summaries[t].job <= was.hosts[h].lastJob.value
    {
      assert Of(now.summaries, t, h);
    }
  }

  lemma PointersKept(was: Db, doomed: set<nat>, h: nat)
    requires h in was.hosts && PointersOk(was.summaries, h, was.hosts[h]) && !PointsInto(was.hosts[h], doomed)
    ensures PointersOk(Remaining(was.summaries, doomed), h, Cleared(was.summaries, was.hosts[h], doomed))
  {
    var host, left := was.hosts[h], Remaining(was.summaries, doomed);
    if host.lastSummary.Some? {
      var s := host.lastSummary.value;
      assert s in left && left[s] == was.summaries[s];
      forall t <- left | Of(left, t, h)
        ensures left[t].job <= left[s].job
      {
        assert Of(was.summaries, t, h);
      }
    } else {
      forall t <- left
        ensures !Of(left, t, h)
      {
        assert !Of(was.summaries, t, h);
      }
    }
  }

  /** Right pointers stay right. */
  lemma DeletionKeepsPointers(was: Db, now: Db, doomed: set<nat>)
    requires Deleted(was, now, doomed) && Linked(was) && AllPointersOk(was)
    ensures Linked(now) && AllPointersOk(now)
  {
    hide PointersOk;
    forall h <- now.hosts
      ensures PointersOk(now.summaries, h, now.hosts[h])
    {
      if !PointsInto(was.hosts[h], doomed) {
        PointersKept(was, doomed, h);
      }
    }
  }

  /** A sequence of deletions, each from the state the last one left. */
  ghost predicate Deletions(states: seq<Db>, doomed: seq<set<nat>>) {
    |states| == |doomed| + 1 && forall i :: 0 <= i < |doomed| ==> Deleted(states[i], states[i + 1], doomed[i])
  }

  function Union(doomed: seq<set<nat>>): set<nat> {
    if doomed == [] then {} else Union(doomed[..|doomed| - 1]) + doomed[|doomed| - 1]
  }

  /** The greatest job with a summary of `h`. */
  ghost predicate IsLastJob(summaries: map<nat, Summary>, h: nat, job: Option<nat>) {
    match job
    case Some(j) => exists s :: IsLatest(summaries, s, h) && summaries[s].job == j
    case None => forall s <- summaries :: !Of(summaries, s, h)
  }

  /** After any sequence of deletions the last job of every host is the greatest one among
      those left, whatever the order in which the others were deleted. */
  lemma {:induction false} AfterAnyDeletions(states: seq<Db>, doomed: seq<set<nat>>)
    requires Deletions(states, doomed) && Linked(states[0]) && AllPointersOk(states[0])
    ensures var first, last := states[0], states[|states| - 1];
            && Linked(last) && AllPointersOk(last)
            && last.summaries == Remaining(first.summaries, Union(doomed)) && last.hosts.Keys == first.hosts.Keys
            && forall h <- first.hosts :: IsLastJob(Remaining(first.summaries, Union(doomed)), h, last.hosts[h].lastJob)
    decreases |doomed|
  {
    hide PointersOk, IsLatest, IsLastJob;
    var first, last := states[0], states[|states| - 1];
    if doomed == [] {
      assert Remaining(first.summaries, {}) == first.summaries;
    } else {
      var n := |doomed| - 1;
      assert Deletions(states[..n + 1], doomed[..n]);
      AfterAnyDeletions(states[..n + 1], doomed[..n]);
      assert Deleted(states[n], states[n + 1], doomed[n]);
      DeletionKeepsPointers(states[n], states[n + 1], doomed[n]);
      assert Remaining(Remaining(first.summaries, Union(doomed[..n])), doomed[n]) == Remaining(first.summaries, Union(doomed));
    }
    forall h <- first.hosts
      ensures IsLastJob(last.summaries, h, last.hosts[h].lastJob)
    {
      LastJobOf(last.summaries, h, last.hosts[h]);
    }
  }

  lemma LastJobOf(summaries: map<nat, Summary>, h: nat, host: Host)
    requires PointersOk(summaries, h, host)
    ensures IsLastJob(summaries, h, host.lastJob)
  {
  }

  /** There is only one such job. */
  lemma OneLastJob(summaries: map<nat, Summary>, h: nat, a: Option<nat>, b: Option<nat>)
    requires IsLastJob(summaries, h, a) && IsLastJob(summaries, h, b)
    ensures a == b
  {
  }

  // ----- The deletion -----

  class Inventory {
    var jobs: set<nat>
    var summaries: map<nat, Summary>
    var hosts: map<nat, Host>

    function Snapshot(): Db
      reads this
    {
      Db(jobs, summaries, hosts)
    }

    /** The repair of one host.  The job of its latest summary may be in the middle of its own
        deletion. */
    method UpdateHostLastSummary(h: nat)
      requires h in hosts
      modifies this`hosts
      ensures hosts.Keys == old(hosts).Keys && forall x <- hosts :: x != h ==> hosts[x] == old(hosts)[x]
      ensures if exists s :: IsLatest(summaries, s, h) && summaries[s].job !in jobs then hosts[h] == old(hosts)[h]
              else PointersOk(summaries, h, hosts[h])
    {
      var its := set s <- summaries | Of(summaries, s, h);
      assert forall s <- summaries :: Of(summaries, s, h) ==> s in its;
      var latest: Option<nat> := None;
      var lastJob: Option<nat> := None;
      if its != {} {
        ghost var greatest := LatestExists(summaries, its);
        var s :| s in its && forall t <- its :: summaries[t].job <= summaries[s].job;
        latest := Some(s);
        lastJob := Some(summaries[s].job);
        assert IsLatest(summaries, s, h);
        if summaries[s].job !in jobs {
          return;
        }
      }
      if hosts[h].lastJob != lastJob {
        hosts := hosts[h := hosts[h].(lastJob := lastJob)];
      }
      if hosts[h].lastSummary != latest {
        hosts := hosts[h := hosts[h].(lastSummary := latest)];
      }
    }

    /** Before a job is deleted: the hosts whose last job it is. */
    method SaveHosts(doomed: set<nat>) returns (saved: map<nat, set<nat>>)
      ensures saved.Keys == doomed
      ensures forall j <- doomed :: saved[j] == set h <- hosts | hosts[h].lastJob == Some(j)
    {
      saved := map j <- doomed :: set h <- hosts | hosts[h].lastJob == Some(j);
    }

    /** After a job has been deleted. */
    method UpdateSaved(saved: set<nat>)
      requires saved <= hosts.Keys && Linked(Snapshot())
      modifies this`hosts
      ensures hosts.Keys == old(hosts).Keys
      ensures forall h <- hosts :: if h in saved then PointersOk(summaries, h, hosts[h]) else hosts[h] == old(hosts)[h]
    {
      hide PointersOk;
      var todo := saved;
      while todo != {}
        invariant todo <= saved && hosts.Keys == old(hosts).Keys && Linked(Snapshot())
        invariant forall h <- hosts :: if h in saved && h !in todo then PointersOk(summaries, h, hosts[h]) else hosts[h] == old(hosts)[h]
        decreases |todo|
      {
        var h :| h in todo;
        UpdateHostLastSummary(h);
        todo := todo - {h};
      }
    }

    /** After all of them. */
    method UpdateAllSaved(saved: map<nat, set<nat>>, doomed: set<nat>, ghost was: map<nat, Host>)
      requires Linked(Snapshot()) && was.Keys == hosts.Keys && saved.Keys == doomed
      requires forall j <- doomed :: saved[j] == set h <- was | was[h].lastJob == Some(j)
      modifies this`hosts
      ensures hosts.Keys == was.Keys
      ensures forall h <- hosts :: if PointsInto(was[h], doomed) then PointersOk(summaries, h, hosts[h]) else hosts[h] == old(hosts)[h]
    {
      hide PointersOk;
      var todo := doomed;
      while todo != {}
        invariant todo <= doomed && hosts.Keys == was.Keys && Linked(Snapshot())
        invariant forall h <- hosts ::
                    if PointsInto(was[h], doomed) && was[h].lastJob.value !in todo then PointersOk(summaries, h, hosts[h])
                    else hosts[h] == old(hosts)[h]
        decreases |todo|
      {
        var j :| j in todo;
        UpdateSaved(saved[j]);
        todo := todo - {j};
      }
    }

    /** Deletes jobs with their summaries. */
    method DeleteJobs(doomed: set<nat>)
      requires Linked(Snapshot())
      modifies this
      ensures Deleted(old(Snapshot()), Snapshot(), doomed)
    {
      hide PointersOk, PointsInto, Cleared;
      var saved := SaveHosts(doomed);
      hosts := map h <- hosts :: Cleared(summaries, hosts[h], doomed);
      summaries := Remaining(summaries, doomed);
      jobs := jobs - doomed;
      UpdateAllSaved(saved, doomed, old(hosts));
    }
  }
}
