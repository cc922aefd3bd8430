/** What the CI hand-off guarantees over any run of it, whoever stops where. */
module CiTheorems {
  import opened Base
  import opened Events
  import opened Rows
  import opened CiReplay
  import opened CiProtocol
  import opened CiProtocolProofs

  // ---- At most one execution ----

  predicate GrantsTo(w: Ci, m: Move, job: Id) {
    m.Claim? && m.runner < |w.runners| && w.runners[m.runner].Holding? && w.runners[m.runner].job == job && Waits(w.live.jobs, job)
  }

  lemma {:induction false} TakenStays(run: seq<Ci>, moves: seq<Move>, a: nat, b: nat, job: Id)
    requires IsRun(run, moves) && a <= b < |run| && job in run[a].taken
    ensures job in run[b].taken
  {
    if a < b {
      TakenStays(run, moves, a, b - 1, job);
      assert MovesAt(run, moves, b - 1);
    }
  }

  /** However often a job is delivered, and to however many runners, one claim of it
      at most is granted over the whole run. */
  lemma OneClaimPerJob(run: seq<Ci>, moves: seq<Move>, a: nat, b: nat, job: Id)
    requires IsRun(run, moves) && a < b < |moves|
    requires GrantsTo(run[a], moves[a], job)
    ensures !GrantsTo(run[b], moves[b], job)
  {
    assert MovesAt(run, moves, a);
    TakenStays(run, moves, a + 1, b, job);
    RunsKeep(run, moves, b);
    assert JobOk(run[b], job);
  }

  lemma NeverAstray(run: seq<Ci>, moves: seq<Move>, n: nat, job: Id)
    requires IsRun(run, moves) && n < |run|
    ensures !PhaseOf(run[n].log, job).Astray?
  {
    RunsKeep(run, moves, n);
    assert JobOk(run[n], job);
  }

  /** A report in the log agrees with where its job's phase stood when it arrived. */
  lemma ReportFollows(h: CiHistory, k: nat, job: Id)
    requires k < |h| && !PhaseOf(h, job).Astray? && Mentions(h[k].event, job)
    ensures var (before, e) := (PhaseOf(h[..k], job), h[k].event);
      && (Lists(e, job) ==> before == Unlisted)
      && (e.JobStarted? ==> before == Waiting(Work(e.runId, e.repoId)))
      && (e.JobFinished? ==> before == Begun(Work(e.runId, e.repoId), e.attempt))
      && !PhaseOf(h, job).Unlisted? && PhaseOf(h, job).work == Work(e.runId, e.repoId)
  {
    PrefixLeads(h, k + 1, job);
    assert h[..k + 1] == h[..k] + [h[k]];
    PhaseAppend(h[..k], h[k], job);
  }

  /** What one event of the log implies for the phase at any later point. */
  lemma PhaseAfter(h: CiHistory, i: nat, k: nat, job: Id)
    requires i < k <= |h| && !PhaseOf(h, job).Astray? && Mentions(h[i].event, job)
    ensures var (later, e) := (PhaseOf(h[..k], job), h[i].event);
      && !later.Unlisted? && !later.Astray?
      && (e.JobStarted? ==> (later.Begun? || later.Over?) && later.attempt == e.attempt)
      && (e.JobFinished? ==> later.Over? && later.attempt == e.attempt)
  {
    PrefixLeads(h, k, job);
    assert h[..k][..i] == h[..i];
    assert h[..k][i] == h[i];
    ReportFollows(h[..k], i, job);
    PrefixLeads(h[..k], i + 1, job);
    assert h[..k][..i + 1] == h[..i] + [h[i]];
    PhaseAppend(h[..i], h[i], job);
  }

  /** The log holds one start and one end of a job at most. */
  lemma OneReportEach(run: seq<Ci>, moves: seq<Move>, n: nat, i: nat, k: nat)
    requires IsRun(run, moves) && n < |run| && i < k < |run[n].log|
    requires var (a, b) := (run[n].log[i].event, run[n].log[k].event);
      (a.JobStarted? && b.JobStarted?) || (a.JobFinished? && b.JobFinished?) || (a.JobFinished? && b.JobStarted?)
    ensures run[n].log[i].event.jobId != run[n].log[k].event.jobId
  {
    var h := run[n].log;
    var job := h[i].event.jobId;
    if h[k].event.jobId == job {
      NeverAstray(run, moves, n, job);
      ReportFollows(h, k, job);
      PhaseAfter(h, i, k, job);
    }
  }

  predicate StartOf(e: CiEvent, job: Id, attempt: int) {
    e.JobStarted? && e.jobId == job && e.attempt == attempt
  }

  lemma {:induction false} BegunWasStarted(h: CiHistory, job: Id) returns (i: nat)
    requires PhaseOf(h, job).Begun?
    ensures i < |h| && StartOf(h[i].event, job, PhaseOf(h, job).attempt)
  {
    var init := h[..|h| - 1];
    if PhaseOf(init, job).Begun? {
      i := BegunWasStarted(init, job);
    } else {
      i := |h| - 1;
    }
  }

  /** An end follows the start of the same attempt. */
  lemma EndsFollowStarts(run: seq<Ci>, moves: seq<Move>, n: nat, k: nat)
    requires IsRun(run, moves) && n < |run| && k < |run[n].log| && run[n].log[k].event.JobFinished?
    ensures var e := run[n].log[k].event; exists i :: 0 <= i < k && StartOf(run[n].log[i].event, e.jobId, e.attempt)
  {
    var h := run[n].log;
    var job := h[k].event.jobId;
    NeverAstray(run, moves, n, job);
    ReportFollows(h, k, job);
    var i := BegunWasStarted(h[..k], job);
    assert h[..k][i] == h[i];
  }

  // ---- The live table and the rebuilt one ----

  /** Runners write their claims past the log, and still the live table and a rebuild
      from the log up to the same position hold the same jobs and runs, agree on which
      are over, and on everything about those but when they started. */
  lemma LiveAgreesWithRebuild(run: seq<Ci>, moves: seq<Move>, n: nat)
    requires IsRun(run, moves) && n < |run|
    ensures run[n].cursor <= |run[n].log|
    ensures TablesAgree(run[n].live, Rebuilt(run[n]))
  {
    RunsKeep(run, moves, n);
    forall j | j in run[n].live.jobs ensures SameJobEnding(run[n].live.jobs[j], Rebuilt(run[n]).jobs[j]) { JobAgrees(run[n], j); }
    OkTablesAgree(run[n].live, Rebuilt(run[n]));
  }

  ghost predicate TablesAgree(l: CiTables, b: CiTables) {
    && JobsAgree(l, b) && l.runs.Keys == b.runs.Keys
    && forall r :: r in l.runs ==> SameEnding(l.runs[r], b.runs[r])
  }

  lemma OkTablesAgree(l: CiTables, b: CiTables)
    requires TablesOk(l, b) && forall j :: j in l.jobs ==> SameJobEnding(l.jobs[j], b.jobs[j])
    ensures TablesAgree(l, b)
  {
    forall r | r in l.runs ensures SameEnding(l.runs[r], b.runs[r]) { assert RunOk(l, b, r); }
  }

  predicate AllOver(jobs: map<Id, JobRow>, r: Id) {
    JobsOf(jobs, r) != {} && forall j :: j in JobsOf(jobs, r) ==> jobs[j].status.JobEnded?
  }

  /** A live run is over exactly when it has jobs and all are over, and then it went as
      they did. Until then it reads as queued, even while its jobs are running. */
  lemma RunsEndWithTheirJobs(run: seq<Ci>, moves: seq<Move>, n: nat, r: Id)
    requires IsRun(run, moves) && n < |run| && r in run[n].live.runs
    ensures run[n].live.runs[r].status.RunEnded? <==> AllOver(run[n].live.jobs, r)
    ensures run[n].live.runs[r].status.RunEnded? ==> Verdict(run[n].live.jobs, r) == Some(run[n].live.runs[r].status.conclusion)
    ensures run[n].live.runs[r].status != RunIsRunning
  {
    RunsKeep(run, moves, n);
    RunFollowsJobs(run[n].live, Rebuilt(run[n]), r);
  }

  lemma RunFollowsJobs(l: CiTables, b: CiTables, r: Id)
    requires TablesOk(l, b) && r in l.runs
    ensures l.runs[r].status.RunEnded? <==> AllOver(l.jobs, r)
    ensures l.runs[r].status.RunEnded? ==> Verdict(l.jobs, r) == Some(l.runs[r].status.conclusion)
    ensures l.runs[r].status != RunIsRunning
  {
    assert RunOk(l, b, r);
  }

  lemma JobStaysOver(w: Ci, m: Move, j: Id)
    requires JobsOk(w) && Enabled(w, m) && j in w.live.jobs && w.live.jobs[j].status.JobEnded?
    ensures j in Next(w, m).live.jobs && Next(w, m).live.jobs[j] == w.live.jobs[j]
  {
    if m.Project? {
      ProjectedJobStaysOver(w, j);
    }
  }

  lemma ProjectedJobStaysOver(w: Ci, j: Id)
    requires JobsOk(w) && w.cursor < |w.log| && j in w.live.jobs && w.live.jobs[j].status.JobEnded?
    ensures Get(ApplyCi(w.live, w.log[w.cursor]).jobs, j) == Some(w.live.jobs[j])
  {
    JobAfter(w.live, w.log[w.cursor], j);
    assert JobOk(w, j);
    ReachEvent(w, j);
    OverIsOver(PhaseOf(w.log[..w.cursor], j), PhaseOf(w.log, j), w.live.jobs[j], w.log[w.cursor], j);
  }

  lemma OverIsOver(seen: Phase, said: Phase, row: JobRow, s: Stamped<CiEvent>, j: Id)
    requires Fits(seen, said, Some(row), true) && row.status.JobEnded? && Leads(Advance(seen, s, j), said)
    ensures JobStep(j, Some(row), s) == Some(row)
  {}

  lemma RunStaysOver(w: Ci, m: Move, r: Id)
    requires LogOk(w.log) && w.cursor <= |w.log| && RunsSeen(w) && Enabled(w, m) && r in w.live.runs && w.live.runs[r].status.RunEnded?
    ensures r in Next(w, m).live.runs && Next(w, m).live.runs[r] == w.live.runs[r]
  {
    if m.Project? {
      var s := w.log[w.cursor];
      var k :| 0 <= k < w.cursor && w.log[k].event.RunQueued? && w.log[k].event.runId == r;
      if s.event.runId == r {
        OverRunStep(w.live.runs[r], w.live.jobs, ApplyCi(w.live, s).jobs, s);
      }
    }
  }

  lemma OverRunStep(row: RunRow, before: map<Id, JobRow>, after: map<Id, JobRow>, s: Stamped<CiEvent>)
    requires row.status.RunEnded? && (s.event.JobStarted? || s.event.JobFinished?)
    ensures RunStep(Some(row), before, after, s) == Some(row)
  {}

  /** What is over in one state of the tables stands as it is in the other. */
  ghost predicate OverStands(a: CiTables, b: CiTables) {
    && (forall j :: j in a.jobs && a.jobs[j].status.JobEnded? ==> j in b.jobs && b.jobs[j] == a.jobs[j])
    && (forall r :: r in a.runs && a.runs[r].status.RunEnded? ==> r in b.runs && b.runs[r] == a.runs[r])
  }

  lemma OverStandsOneMove(w: Ci, m: Move)
    requires Inv(w) && Enabled(w, m)
    ensures OverStands(w.live, Next(w, m).live)
  {
    var b := Next(w, m).live;
    forall j | j in w.live.jobs && w.live.jobs[j].status.JobEnded? ensures j in b.jobs && b.jobs[j] == w.live.jobs[j] { JobStaysOver(w, m, j); }
    forall r | r in w.live.runs && w.live.runs[r].status.RunEnded? ensures r in b.runs && b.runs[r] == w.live.runs[r] { RunStaysOver(w, m, r); }
  }

  lemma OverStandsOn(a: CiTables, b: CiTables, c: CiTables)
    requires OverStands(a, b) && OverStands(b, c)
    ensures OverStands(a, c)
  {}

  lemma OverStandsInRun(run: seq<Ci>, moves: seq<Move>, k: nat)
    requires IsRun(run, moves) && k < |moves|
    ensures OverStands(run[k].live, run[k + 1].live)
  {
    RunsKeep(run, moves, k);
    assert MovesAt(run, moves, k);
    OverStandsOneMove(run[k], moves[k]);
  }

  /** A job or a run that is over never changes again. */
  lemma {:induction false} OverForGood(run: seq<Ci>, moves: seq<Move>, a: nat, b: nat)
    requires IsRun(run, moves) && a <= b < |run|
    ensures OverStands(run[a].live, run[b].live)
  {
    if a < b {
      OverForGood(run, moves, a, b - 1);
      OverStandsInRun(run, moves, b - 1);
      OverStandsOn(run[a].live, run[b - 1].live, run[b].live);
    }
  }

  /** The logs this protocol writes are among those whose replay is harmless. */
  lemma ProtocolLogsReplay(run: seq<Ci>, moves: seq<Move>, n: nat)
    requires IsRun(run, moves) && n < |run|
    ensures OneRun(run[n].log)
    ensures var f := FoldCi(NO_CI, run[n].log); FoldCi(f, run[n].log) == f
  {
    var h := run[n].log;
    forall i, j, job | 0 <= i < |h| && 0 <= j < |h| && Mentions(h[i].event, job) && Mentions(h[j].event, job)
      ensures h[i].event.runId == h[j].event.runId
    {
      NeverAstray(run, moves, n, job);
      ReportFollows(h, i, job);
      ReportFollows(h, j, job);
    }
    CiHistoryReplays(h);
  }
}
