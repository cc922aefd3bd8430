/** What CI shows in the end: how each job went as its runner reported it, how each run
    went as its jobs did, and when. */
module CiOutcomes {
  import opened Base
  import opened Events
  import opened Rows
  import opened CiReplay
  import opened CiProtocol
  import opened CiProtocolProofs
  import opened CiTheorems
  import opened RowHistories
  import Runner

  // ---- Reports are shown ----

  lemma OverAfter(h: CiHistory, k: nat, job: Id)
    requires k < |h| && !PhaseOf(h, job).Astray? && h[k].event.JobFinished? && h[k].event.jobId == job
    ensures var e := h[k].event;
      PhaseOf(h, job) == Over(Work(e.runId, e.repoId), e.attempt, e.conclusion, e.exitCode, h[k].at)
  {
    ReportFollows(h, k, job);
    assert h[..k + 1] == h[..k] + [h[k]];
    PhaseAppend(h[..k], h[k], job);
    PrefixLeads(h, k + 1, job);
  }

  lemma OverFits(seen: Phase, said: Phase, row: Option<JobRow>, taken: bool)
    requires Fits(seen, said, row, taken) && seen.Over?
    ensures row.Some? && row.value.status == JobEnded(seen.conclusion) && row.value.attempt == seen.attempt
    ensures row.value.exitCode == seen.exitCode && row.value.finishedAt == Some(seen.at) && row.value.runId == seen.work.run
  {}

  /** Once the projector has passed a report, its job's row shows what it said. */
  lemma ReportsAreShown(run: seq<Ci>, moves: seq<Move>, n: nat, k: nat)
    requires IsRun(run, moves) && n < |run| && k < run[n].cursor <= |run[n].log| && run[n].log[k].event.JobFinished?
    ensures var (e, row) := (run[n].log[k].event, Get(run[n].live.jobs, run[n].log[k].event.jobId));
      && row.Some? && row.value.status == JobEnded(e.conclusion) && row.value.exitCode == e.exitCode && row.value.attempt == e.attempt
      && row.value.finishedAt == Some(run[n].log[k].at) && row.value.runId == e.runId
  {
    var (w, job) := (run[n], run[n].log[k].event.jobId);
    var seen := w.log[..w.cursor];
    RunsKeep(run, moves, n);
    assert JobOk(w, job);
    assert seen[k] == w.log[k];
    OverAfter(seen, k, job);
    OverFits(PhaseOf(seen, job), PhaseOf(w.log, job), Get(w.live.jobs, job), job in w.taken);
  }

  predicate Bad(s: JobStatus) {
    s.JobEnded? && s.conclusion != JobSuccess && s.conclusion != JobCancelled
  }

  /** A run that is over failed exactly if a job of it went wrong, was cancelled exactly
      if every job was, and succeeded otherwise. */
  lemma RunsGoAsTheirJobs(run: seq<Ci>, moves: seq<Move>, n: nat, r: Id)
    requires IsRun(run, moves) && n < |run| && r in run[n].live.runs && run[n].live.runs[r].status.RunEnded?
    ensures var (jobs, c) := (run[n].live.jobs, run[n].live.runs[r].status.conclusion);
      && (c == RunFailed <==> exists j :: j in JobsOf(jobs, r) && Bad(jobs[j].status))
      && (c == RunCancelled <==> forall j :: j in JobsOf(jobs, r) ==> jobs[j].status == JobEnded(JobCancelled))
      && (c == RunSuccess <==>
            && (forall j :: j in JobsOf(jobs, r) ==> jobs[j].status == JobEnded(JobSuccess) || jobs[j].status == JobEnded(JobCancelled))
            && (exists j :: j in JobsOf(jobs, r) && jobs[j].status == JobEnded(JobSuccess)))
  {
    RunsEndWithTheirJobs(run, moves, n, r);
    VerdictMeans(run[n].live.jobs, r);
  }

  lemma VerdictMeans(jobs: map<Id, JobRow>, r: Id)
    requires Verdict(jobs, r).Some?
    ensures var c := Verdict(jobs, r).value;
      && (c == RunFailed <==> exists j :: j in JobsOf(jobs, r) && Bad(jobs[j].status))
      && (c == RunCancelled <==> forall j :: j in JobsOf(jobs, r) ==> jobs[j].status == JobEnded(JobCancelled))
      && (c == RunSuccess <==>
            && (forall j :: j in JobsOf(jobs, r) ==> jobs[j].status == JobEnded(JobSuccess) || jobs[j].status == JobEnded(JobCancelled))
            && (exists j :: j in JobsOf(jobs, r) && jobs[j].status == JobEnded(JobSuccess)))
  {
    var mine := JobsOf(jobs, r);
    assert forall j :: j in mine ==> jobs[j].status.JobEnded?;
    if forall j :: j in mine ==> jobs[j].status == JobEnded(JobCancelled) {
      var j :| j in mine;
    }
  }

  /** From a runner to the page: a job whose outcome was not success, reported and
      projected, makes its run a failure once it is over. */
  lemma FailuresFailTheRun(run: seq<Ci>, moves: seq<Move>, n: nat, k: nat, outcome: Runner.JobOutcome)
    requires IsRun(run, moves) && n < |run| && k < run[n].cursor <= |run[n].log| && run[n].log[k].event.JobFinished?
    requires Runner.Tells(outcome, run[n].log[k].event.conclusion, run[n].log[k].event.exitCode) && !outcome.Succeeded?
    requires run[n].log[k].event.runId in run[n].live.runs && run[n].live.runs[run[n].log[k].event.runId].status.RunEnded?
    ensures run[n].live.runs[run[n].log[k].event.runId].status == RunEnded(RunFailed)
  {
    var e := run[n].log[k].event;
    ReportsAreShown(run, moves, n, k);
    RunsGoAsTheirJobs(run, moves, n, e.runId);
    assert e.jobId in JobsOf(run[n].live.jobs, e.runId) && Bad(run[n].live.jobs[e.jobId].status);
  }

  // ---- What rows of runs and jobs are about ----

  function Queueing(r: Id): Stamped<CiEvent> -> bool { (s: Stamped<CiEvent>) => s.event.RunQueued? && s.event.runId == r }

  function Listing(job: Id): Stamped<CiEvent> -> bool { (s: Stamped<CiEvent>) => Lists(s.event, job) }

  /** A run is there once it was queued, and is what it was first queued as. */
  ghost predicate RunIs(h: CiHistory, r: Id, row: Option<RunRow>) {
    var first := First(h, Queueing(r));
    && (row.Some? <==> first.Some?)
    && (row.Some? ==>
          var e := first.value.event;
          && (row.value.repoId, row.value.number, row.value.workflow, row.value.trigger) == (e.repoId, e.number, e.workflow, e.trigger)
          && (row.value.headOid, row.value.refName, row.value.actorName) == (e.headOid, e.refName, e.actorName)
          && row.value.createdAt == first.value.at)
  }

  /** A job is there once it was listed, and is what it was first listed as. */
  ghost predicate JobIs(h: CiHistory, job: Id, row: Option<JobRow>) {
    var first := First(h, Listing(job));
    && (row.Some? <==> first.Some?)
    && (row.Some? ==>
          && (row.value.runId, row.value.repoId, row.value.createdAt) == (first.value.event.runId, first.value.event.repoId, first.value.at)
          && exists i :: 0 <= i < |first.value.event.jobs| && first.value.event.jobs[i] == JobSpec(job, row.value.name, row.value.image))
  }

  lemma {:induction false} RunsSpeak(h: CiHistory, r: Id)
    ensures RunIs(h, r, Get(FoldCi(NO_CI, h).runs, r))
  {
    if h != [] {
      var (init, s) := (h[..|h| - 1], h[|h| - 1]);
      RunsSpeak(init, r);
      var t := FoldCi(NO_CI, init);
      OneRunMoves(t, s, r);
    }
  }

  /** What an event does to the identity of a run's row. */
  lemma OneRunMoves(t: CiTables, s: Stamped<CiEvent>, r: Id)
    ensures var (a, b) := (Get(t.runs, r), Get(ApplyCi(t, s).runs, r));
      if s.event.RunQueued? && s.event.runId == r && a.None? then
        b.Some? && FixedRun(b.value) == FixedRun(RunRow(s.event.repoId, s.event.number, s.event.workflow, s.event.trigger, s.event.headOid,
                                                       s.event.refName, s.event.actorName, RunIsQueued, s.at, s.at, None, None))
      else (a.Some? <==> b.Some?) && (a.Some? ==> FixedRun(a.value) == FixedRun(b.value))
  {
    GetPut(t.runs, s.event.runId, RunStep(Get(t.runs, s.event.runId), t.jobs, StepJobs(t.jobs, s), s), r);
  }

  lemma {:induction false} SpecIsListed(jobs: seq<JobSpec>, id: Id)
    requires FirstSpec(jobs, id).Some?
    ensures exists i :: 0 <= i < |jobs| && jobs[i] == FirstSpec(jobs, id).value && jobs[i].jobId == id
  {
    if jobs[0].jobId != id {
      SpecIsListed(jobs[1..], id);
      var i :| 0 <= i < |jobs| - 1 && jobs[1..][i] == FirstSpec(jobs, id).value && jobs[1..][i].jobId == id;
      assert jobs[i + 1] == jobs[1..][i];
    } else {
      assert jobs[0] == FirstSpec(jobs, id).value;
    }
  }

  lemma {:induction false} JobsSpeak(h: CiHistory, job: Id)
    ensures JobIs(h, job, Get(FoldCi(NO_CI, h).jobs, job))
  {
    if h != [] {
      var (init, s) := (h[..|h| - 1], h[|h| - 1]);
      JobsSpeak(init, job);
      var t := FoldCi(NO_CI, init);
      JobRowsAfter(t, s, job);
      if Lists(s.event, job) && job !in t.jobs {
        SpecIsListed(s.event.jobs, job);
      }
    }
  }

  /** The live rows are about what the projected part of the log says, too. */
  lemma LiveRowsSpeak(run: seq<Ci>, moves: seq<Move>, n: nat, id: Id)
    requires IsRun(run, moves) && n < |run|
    ensures run[n].cursor <= |run[n].log|
    ensures var h := run[n].log[..run[n].cursor]; RunIs(h, id, Get(run[n].live.runs, id)) && JobIs(h, id, Get(run[n].live.jobs, id))
  {
    LiveAgreesWithRebuild(run, moves, n);
    var h := run[n].log[..run[n].cursor];
    RunsSpeak(h, id);
    JobsSpeak(h, id);
    FixedColumns(run[n].live, Rebuilt(run[n]), id);
  }

  lemma FixedColumns(l: CiTables, b: CiTables, id: Id)
    requires TablesAgree(l, b)
    ensures id in l.runs <==> id in b.runs
    ensures id in l.jobs <==> id in b.jobs
    ensures id in l.runs ==> FixedRun(l.runs[id]) == FixedRun(b.runs[id])
    ensures id in l.jobs ==> FixedJob(l.jobs[id]) == FixedJob(b.jobs[id])
  {
    if id in l.runs { assert SameEnding(l.runs[id], b.runs[id]); }
  }

  // ---- When ----

  function Starting(r: Id): Stamped<CiEvent> -> bool { (s: Stamped<CiEvent>) => s.event.JobStarted? && s.event.runId == r }

  function Finishing(r: Id): Stamped<CiEvent> -> bool { (s: Stamped<CiEvent>) => s.event.JobFinished? && s.event.runId == r }

  function TimeOf(s: Option<Stamped<CiEvent>>): Option<Instant> {
    if s.Some? then Some(s.value.at) else None
  }

  /** A log in which every job goes its way, and every run is queued once. */
  ghost predicate Orderly(h: CiHistory) {
    LogOk(h) && forall job :: !PhaseOf(h, job).Astray?
  }

  /** A rebuilt run started when the first of its jobs did; it is over when all its jobs
      are, and then ended when the last of them did. */
  ghost predicate RunTimes(h: CiHistory, r: Id, row: RunRow, verdict: Option<RunConclusion>) {
    && row.startedAt == TimeOf(First(h, Starting(r)))
    && (verdict.Some? ==> row.status == RunEnded(verdict.value) && row.finishedAt == TimeOf(Last(h, Finishing(r))) && row.finishedAt.Some?)
    && (verdict.None? ==> row.finishedAt == None && row.status == if First(h, Starting(r)).Some? then RunIsRunning else RunIsQueued)
  }

  lemma OrderlyInit(h: CiHistory)
    requires h != [] && Orderly(h)
    ensures Orderly(h[..|h| - 1])
  {
    var init := h[..|h| - 1];
    forall job ensures !PhaseOf(init, job).Astray? {
      PrefixLeads(h, |h| - 1, job);
    }
    assert forall k :: 0 <= k < |init| ==> init[k] == h[k];
  }

  lemma QueuedOnce(h: CiHistory)
    requires h != [] && Orderly(h) && h[|h| - 1].event.RunQueued?
    ensures var r := h[|h| - 1].event.runId;
      r !in FoldCi(NO_CI, h[..|h| - 1]).runs && First(h[..|h| - 1], Queueing(r)).None?
  {
    var (init, r) := (h[..|h| - 1], h[|h| - 1].event.runId);
    RunsSpeak(init, r);
    if First(init, Queueing(r)).Some? {
      FirstIsSomewhere(init, Queueing(r));
    }
  }

  lemma {:induction false} FirstIsSomewhere<E>(h: seq<E>, p: E -> bool)
    requires First(h, p).Some?
    ensures exists i :: 0 <= i < |h| && p(h[i])
  {
    if First(h[..|h| - 1], p).Some? {
      FirstIsSomewhere(h[..|h| - 1], p);
      var i :| 0 <= i < |h| - 1 && p(h[..|h| - 1][i]);
      assert p(h[i]);
    } else {
      assert p(h[|h| - 1]);
    }
  }

  /** What the tables say of the job an event of an orderly log is about. */
  lemma EventMeets(h: CiHistory)
    requires h != [] && Orderly(h) && (h[|h| - 1].event.JobStarted? || h[|h| - 1].event.JobFinished?)
    ensures var (t, e) := (FoldCi(NO_CI, h[..|h| - 1]), h[|h| - 1].event);
      && e.jobId in t.jobs && t.jobs[e.jobId].runId == e.runId
      && (e.JobStarted? ==> t.jobs[e.jobId].status == JobQueued) && (e.JobFinished? ==> t.jobs[e.jobId].status == JobRunning && t.jobs[e.jobId].attempt == e.attempt)
  {
    var (init, e) := (h[..|h| - 1], h[|h| - 1].event);
    assert !PhaseOf(h, e.jobId).Astray?;
    RebuildSays(init, e.jobId);
  }

  /** Until it is announced, a run has no jobs; an event moves only jobs of its own run. */
  lemma {:induction false} JobsHaveRuns(h: CiHistory, job: Id)
    requires Orderly(h) && job in FoldCi(NO_CI, h).jobs
    ensures FoldCi(NO_CI, h).jobs[job].runId in FoldCi(NO_CI, h).runs
  {
    JobsSpeak(h, job);
    var s := First(h, Listing(job)).value;
    ListedIsQueued(h, job);
    RunsSpeak(h, s.event.runId);
  }

  lemma {:induction false} ListedIsQueued(h: CiHistory, job: Id)
    requires First(h, Listing(job)).Some?
    ensures First(h, Queueing(First(h, Listing(job)).value.event.runId)).Some?
  {
    if First(h[..|h| - 1], Listing(job)).Some? {
      ListedIsQueued(h[..|h| - 1], job);
    }
  }

  lemma OtherRunsStay(h: CiHistory, job: Id)
    requires h != [] && Orderly(h)
    ensures var (a, b, r) := (Get(FoldCi(NO_CI, h[..|h| - 1]).jobs, job), Get(FoldCi(NO_CI, h).jobs, job), h[|h| - 1].event.runId);
      a == b || (b.Some? && b.value.runId == r && (a.Some? ==> a.value.runId == r))
  {
    var (t, s) := (FoldCi(NO_CI, h[..|h| - 1]), h[|h| - 1]);
    JobAfter(t, s, job);
    RebuildSays(h[..|h| - 1], job);
    assert !PhaseOf(h, job).Astray?;
  }

  lemma OtherVerdict(h: CiHistory, r: Id)
    requires h != [] && Orderly(h) && h[|h| - 1].event.runId != r
    ensures Verdict(FoldCi(NO_CI, h[..|h| - 1]).jobs, r) == Verdict(FoldCi(NO_CI, h).jobs, r)
  {
    var (a, b) := (FoldCi(NO_CI, h[..|h| - 1]).jobs, FoldCi(NO_CI, h).jobs);
    forall j ensures SameOrElsewhere(Get(a, j), Get(b, j), r) { OtherRunsStay(h, j); }
    UntouchedVerdict(a, b, r);
  }

  lemma NewRunHasNoVerdict(h: CiHistory)
    requires h != [] && Orderly(h) && h[|h| - 1].event.RunQueued?
    ensures Verdict(FoldCi(NO_CI, h).jobs, h[|h| - 1].event.runId).None?
  {
    var (t, s) := (FoldCi(NO_CI, h[..|h| - 1]), h[|h| - 1]);
    var jobs := FoldCi(NO_CI, h).jobs;
    QueuedOnce(h);
    OrderlyInit(h);
    forall j | j in t.jobs ensures j in jobs && jobs[j].runId in t.runs {
      JobRowsAfter(t, s, j);
      JobsHaveRuns(h[..|h| - 1], j);
      FixedRunsAgree(jobs[j], t.jobs[j]);
    }
    forall j | j in JobsOf(jobs, s.event.runId) ensures jobs[j].status == JobQueued {
      JobRowsAfter(t, s, j);
    }
  }

  lemma NothingBeforeQueued(h: CiHistory, r: Id)
    requires Orderly(h) && r !in FoldCi(NO_CI, h).runs
    ensures First(h, Starting(r)).None? && Last(h, Finishing(r)).None?
  {
    if h != [] {
      OrderlyInit(h);
      var (init, s) := (h[..|h| - 1], h[|h| - 1]);
      OneRunMoves(FoldCi(NO_CI, init), s, r);
      NothingBeforeQueued(init, r);
      if s.event.JobStarted? || s.event.JobFinished? {
        EventMeets(h);
        JobsHaveRuns(init, s.event.jobId);
      }
    }
  }

  lemma {:induction false} RunsKeepTime(h: CiHistory, r: Id)
    requires Orderly(h) && r in FoldCi(NO_CI, h).runs
    ensures RunTimes(h, r, FoldCi(NO_CI, h).runs[r], Verdict(FoldCi(NO_CI, h).jobs, r))
  {
    var (init, s) := (h[..|h| - 1], h[|h| - 1]);
    var (t, t') := (FoldCi(NO_CI, init), FoldCi(NO_CI, h));
    OrderlyInit(h);
    OneRunMoves(t, s, r);
    if s.event.runId != r {
      RunsKeepTime(init, r);
      OtherVerdict(h, r);
    } else if s.event.RunQueued? {
      QueuedOnce(h);
      NewRunHasNoVerdict(h);
      NothingBeforeQueued(init, r);
    } else {
      RunsKeepTime(init, r);
      EventMeets(h);
      NotYetOver(t.jobs, s.event.jobId, r);
      StartedJobIsNotOver(h);
      assert !s.event.RunFinished?;
    }
  }

  lemma NotYetOver(jobs: map<Id, JobRow>, job: Id, r: Id)
    requires job in jobs && jobs[job].runId == r && !jobs[job].status.JobEnded?
    ensures Verdict(jobs, r).None?
  {
    assert job in JobsOf(jobs, r);
  }

  lemma StartedJobIsNotOver(h: CiHistory)
    requires h != [] && Orderly(h)
    ensures h[|h| - 1].event.JobStarted? ==> Verdict(FoldCi(NO_CI, h).jobs, h[|h| - 1].event.runId).None?
  {
    var (t, s) := (FoldCi(NO_CI, h[..|h| - 1]), h[|h| - 1]);
    if s.event.JobStarted? {
      EventMeets(h);
      JobAfter(t, s, s.event.jobId);
      NotYetOver(FoldCi(NO_CI, h).jobs, s.event.jobId, s.event.runId);
    }
  }

  /** In every run of the hand-off, a rebuild keeps these times, and a live run that is
      over ended when the last of its jobs did. */
  lemma RunsEndOnTime(run: seq<Ci>, moves: seq<Move>, n: nat, r: Id)
    requires IsRun(run, moves) && n < |run| && r in run[n].live.runs
    ensures run[n].cursor <= |run[n].log|
    ensures var (h, b) := (run[n].log[..run[n].cursor], Rebuilt(run[n]));
      && r in b.runs && RunTimes(h, r, b.runs[r], Verdict(b.jobs, r))
      && (run[n].live.runs[r].status.RunEnded? ==> run[n].live.runs[r].finishedAt == TimeOf(Last(h, Finishing(r))) && run[n].live.runs[r].finishedAt.Some?)
  {
    RunsKeep(run, moves, n);
    var (w, h) := (run[n], run[n].log[..run[n].cursor]);
    forall job ensures !PhaseOf(h, job).Astray? {
      assert JobOk(w, job);
    }
    assert LogOk(h) by { assert forall k :: 0 <= k < |h| ==> h[k] == w.log[k]; }
    assert RunOk(w.live, Rebuilt(w), r);
    RunsKeepTime(h, r);
  }
}
