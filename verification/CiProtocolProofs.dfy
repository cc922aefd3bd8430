/** Every move of the CI hand-off keeps the invariant. */
module CiProtocolProofs {
  import opened Base
  import opened Events
  import opened Rows
  import opened CiReplay
  import opened CiProtocol

  // ---- Moves that append to the log ----

  lemma RunsStaySeen(w: Ci, s: Stamped<CiEvent>, w': Ci)
    requires w.cursor <= |w.log| && RunsSeen(w) && w'.log == w.log + [s] && w'.cursor == w.cursor && w'.live == w.live
    ensures RunsSeen(w') && w'.log[..w.cursor] == w.log[..w.cursor]
  {
    forall r | r in w'.live.runs ensures exists k :: 0 <= k < w'.cursor && w'.log[k].event.RunQueued? && w'.log[k].event.runId == r {
      var k :| 0 <= k < w.cursor && w.log[k].event.RunQueued? && w.log[k].event.runId == r;
      assert w'.log[k] == w.log[k];
    }
  }

  /** Moves of the log, the queue and the runners leave both tables alone. */
  lemma TablesStay(w: Ci, w': Ci)
    requires w.cursor <= |w.log| <= |w'.log| && w'.log[..w.cursor] == w.log[..w.cursor] && w'.cursor == w.cursor && w'.live == w.live
    requires TablesOk(w.live, Rebuilt(w))
    ensures TablesOk(w'.live, Rebuilt(w'))
  {}

  lemma LogStaysOk(log: CiHistory, s: Stamped<CiEvent>)
    requires LogOk(log) && (s.event.JobStarted? || s.event.JobFinished? || (s.event.RunQueued? && Fresh(log, s.event)))
    ensures LogOk(log + [s])
  {}

  lemma FreshMoves(log: CiHistory, s: Stamped<CiEvent>, job: Id)
    requires s.event.RunQueued? && Fresh(log, s.event)
    ensures PhaseOf(log + [s], job) == PhaseOf(log, job)
            || (PhaseOf(log, job) == Unlisted && PhaseOf(log + [s], job).Waiting?)
  {
    PhaseAppend(log, s, job);
    if Lists(s.event, job) {
      FreshIsUnlisted(log, job);
    }
  }

  lemma AnnounceKeepsPhases(w: Ci, s: Stamped<CiEvent>)
    requires JobsOk(w) && RunnersOk(w) && s.event.RunQueued? && Fresh(w.log, s.event)
    ensures JobsOk(w.(log := w.log + [s])) && RunnersOk(w.(log := w.log + [s]))
  {
    var w' := w.(log := w.log + [s]);
    assert w'.log[..w.cursor] == w.log[..w.cursor];
    forall job ensures JobOk(w', job) {
      assert JobOk(w, job);
      FreshMoves(w.log, s, job);
    }
    forall i | 0 <= i < |w'.runners| ensures RunnerOk(w', i) {
      assert RunnerOk(w, i);
      if w.runners[i] != Idle { FreshMoves(w.log, s, w.runners[i].job); }
    }
  }

  lemma AnnounceKeeps(w: Ci, e: CiEvent, at: Instant)
    requires Inv(w) && Enabled(w, Announce(e, at))
    ensures Inv(Next(w, Announce(e, at)))
  {
    AnnounceKeepsPhases(w, Stamped(e, at));
    RunsStaySeen(w, Stamped(e, at), Next(w, Announce(e, at)));
    LogStaysOk(w.log, Stamped(e, at));
    TablesStay(w, Next(w, Announce(e, at)));
  }

  lemma AdvanceOther(p: Phase, s: Stamped<CiEvent>, job: Id, j: Id)
    requires (s.event.JobStarted? || s.event.JobFinished?) && s.event.jobId == job && j != job
    ensures Advance(p, s, j) == p
  {}

  /** A report moves the phase of the job its runner is at work on, as that runner
      expects, and nobody else's. */
  lemma ReportKeepsPhases(w: Ci, i: nat, s: Stamped<CiEvent>, r: Runner)
    requires JobsOk(w) && RunnersOk(w) && i < |w.runners| && Busy(w.runners[i])
    requires (s.event.JobStarted? || s.event.JobFinished?) && s.event.jobId == w.runners[i].job
    requires var p := Advance(PhaseOf(w.log, w.runners[i].job), s, w.runners[i].job);
      (p.Begun? || p.Over?) && p.work == w.runners[i].work && p.attempt == w.runners[i].attempt
      && (r == Idle || (p.Begun? && r == Executing(w.runners[i].job, w.runners[i].work, w.runners[i].attempt)))
    ensures JobsOk(w.(log := w.log + [s], runners := w.runners[i := r])) && RunnersOk(w.(log := w.log + [s], runners := w.runners[i := r]))
  {
    var (job, w') := (w.runners[i].job, w.(log := w.log + [s], runners := w.runners[i := r]));
    assert RunnerOk(w, i);
    assert w'.log[..w.cursor] == w.log[..w.cursor];
    forall j ensures JobOk(w', j) {
      assert JobOk(w, j);
      PhaseAppend(w.log, s, j);
      if j != job { AdvanceOther(PhaseOf(w.log, j), s, job, j); }
    }
    forall k | 0 <= k < |w'.runners| ensures RunnerOk(w', k) {
      assert RunnerOk(w, k);
      if w.runners[k] != Idle {
        PhaseAppend(w.log, s, w.runners[k].job);
        if w.runners[k].job != job { AdvanceOther(PhaseOf(w.log, w.runners[k].job), s, job, w.runners[k].job); }
      }
    }
  }

  /** The report a runner may make: of the start it claimed, or of the end of what it
      started. */
  function Report(r: Runner, conclusion: JobConclusion, exitCode: Option<int>): CiEvent
    requires Busy(r)
  {
    if r.Claimed? then JobStarted(r.job, r.work.run, r.work.repo, r.attempt, 0)
    else JobFinished(r.job, r.work.run, r.work.repo, r.attempt, conclusion, exitCode)
  }

  function Reported(r: Runner): Runner
    requires Busy(r)
  {
    if r.Claimed? then Executing(r.job, r.work, r.attempt) else Idle
  }

  lemma ReportAdvances(r: Runner, said: Phase, row: Option<JobRow>, s: Stamped<CiEvent>, conclusion: JobConclusion, exitCode: Option<int>)
    requires Busy(r) && Holds(r, said, row) && s.event == Report(r, conclusion, exitCode)
    ensures var p := Advance(said, s, r.job); (p.Begun? || p.Over?) && p.work == r.work && p.attempt == r.attempt && (r.Claimed? ==> p.Begun?)
  {}

  lemma ReportKeeps(w: Ci, i: nat, conclusion: JobConclusion, exitCode: Option<int>, at: Instant)
    requires Inv(w) && i < |w.runners| && Busy(w.runners[i])
    ensures Inv(w.(log := w.log + [Stamped(Report(w.runners[i], conclusion, exitCode), at)], runners := w.runners[i := Reported(w.runners[i])]))
  {
    var s := Stamped(Report(w.runners[i], conclusion, exitCode), at);
    var w' := w.(log := w.log + [s], runners := w.runners[i := Reported(w.runners[i])]);
    assert RunnerOk(w, i);
    ReportAdvances(w.runners[i], PhaseOf(w.log, w.runners[i].job), Get(w.live.jobs, w.runners[i].job), s, conclusion, exitCode);
    ReportKeepsPhases(w, i, s, Reported(w.runners[i]));
    RunsStaySeen(w, s, w');
    LogStaysOk(w.log, s);
    TablesStay(w, w');
  }

  // ---- Moves of the queue and of one runner ----

  lemma ListedFor(h: CiHistory, k: nat, job: Id)
    requires k < |h| && h[k].event.RunQueued? && job in JobKeys(h[k].event) && !PhaseOf(h, job).Astray?
    ensures !PhaseOf(h, job).Unlisted? && PhaseOf(h, job).work == Work(h[k].event.runId, h[k].event.repoId)
  {
    FirstSpecListed(h[k].event.jobs, job);
    PrefixLeads(h, k + 1, job);
    assert h[..k + 1][..k] == h[..k];
  }

  lemma EnqueueKeeps(w: Ci, k: nat)
    requires Inv(w) && Enabled(w, Enqueue(k))
    ensures Inv(Next(w, Enqueue(k)))
  {
    var w' := Next(w, Enqueue(k));
    forall job ensures JobOk(w', job) {
      assert JobOk(w, job);
      if job in JobKeys(w.log[k].event) {
        ListedFor(w.log, k, job);
      }
    }
    forall i | 0 <= i < |w'.runners| ensures RunnerOk(w', i) {
      assert RunnerOk(w, i);
    }
  }

  lemma DeliverKeeps(w: Ci, i: nat, job: Id, attempt: int)
    requires Inv(w) && Enabled(w, Deliver(i, job, attempt))
    ensures Inv(Next(w, Deliver(i, job, attempt)))
  {
    var w' := Next(w, Deliver(i, job, attempt));
    DeliveredHolds(w, i, job, attempt);
    RunnerMoves(w, w', i);
    TablesStay(w, w');
  }

  lemma DeliveredHolds(w: Ci, i: nat, job: Id, attempt: int)
    requires JobsOk(w) && i < |w.runners| && job in w.queue
    ensures RunnerOk(w.(runners := w.runners[i := Holding(job, w.queue[job], attempt)]), i)
  {
    assert JobOk(w, job);
  }

  lemma RunnerMoves(w: Ci, w': Ci, i: nat)
    requires JobsOk(w) && RunnersOk(w) && i < |w.runners| == |w'.runners| && !Busy(w'.runners[i]) && RunnerOk(w', i)
    requires w' == w.(runners := w.runners[i := w'.runners[i]])
    ensures JobsOk(w') && RunnersOk(w')
  {
    forall j ensures JobOk(w', j) { assert JobOk(w, j); }
    forall k | 0 <= k < |w'.runners| ensures RunnerOk(w', k) { assert RunnerOk(w, k); }
  }

  lemma GiveUpKeeps(w: Ci, i: nat)
    requires Inv(w) && Enabled(w, GiveUp(i))
    ensures Inv(Next(w, GiveUp(i)))
  {
    RunnerMoves(w, Next(w, GiveUp(i)), i);
    TablesStay(w, Next(w, GiveUp(i)));
  }

  lemma ClaimKeeps(w: Ci, i: nat, at: Instant)
    requires Inv(w) && Enabled(w, Claim(i, at))
    ensures Inv(Next(w, Claim(i, at)))
  {
    if Waits(w.live.jobs, w.runners[i].job) {
      GrantedClaimKeepsJobs(w, i, at);
      GrantedClaimKeepsTables(w, i, at);
    } else {
      assert Next(w, Claim(i, at)) == Next(w, GiveUp(i));
      GiveUpKeeps(w, i);
    }
  }

  lemma GrantedClaimKeepsJobs(w: Ci, i: nat, at: Instant)
    requires JobsOk(w) && RunnersOk(w) && NoRepeats(w.taken) && Enabled(w, Claim(i, at)) && Waits(w.live.jobs, w.runners[i].job)
    ensures var w' := Next(w, Claim(i, at)); JobsOk(w') && RunnersOk(w') && NoRepeats(w'.taken)
  {
    var (r, w') := (w.runners[i], Next(w, Claim(i, at)));
    assert RunnerOk(w, i) && JobOk(w, r.job);
    forall j ensures JobOk(w', j) { assert JobOk(w, j); }
    forall k | 0 <= k < |w'.runners| ensures RunnerOk(w', k) && (k != i && Busy(w'.runners[k]) ==> w'.runners[k].job != r.job) {
      assert RunnerOk(w, k);
    }
  }

  lemma GrantedClaimKeepsTables(w: Ci, i: nat, at: Instant)
    requires w.cursor <= |w.log| && TablesOk(w.live, Rebuilt(w)) && RunsSeen(w) && Enabled(w, Claim(i, at)) && Waits(w.live.jobs, w.runners[i].job)
    ensures var w' := Next(w, Claim(i, at)); TablesOk(w'.live, Rebuilt(w')) && RunsSeen(w')
  {
    var (b, w', job) := (Rebuilt(w), Next(w, Claim(i, at)), w.runners[i].job);
    assert Rebuilt(w') == b;
    ClaimedTables(w.live, b, job, w.runners[i].attempt, at);
  }

  lemma ClaimedTables(l: CiTables, b: CiTables, job: Id, attempt: int, at: Instant)
    requires TablesOk(l, b) && Waits(l.jobs, job)
    ensures TablesOk(l.(jobs := l.jobs[job := ClaimedRow(l.jobs[job], attempt, at)]), b)
  {
    var l' := l.(jobs := l.jobs[job := ClaimedRow(l.jobs[job], attempt, at)]);
    assert l'.jobs.Keys == l.jobs.Keys;
    forall run | run in l'.runs ensures RunOk(l', b, run) {
      ClaimedVerdict(l.jobs, job, attempt, at, run);
      SameRunOk(l, l', b, run);
    }
    forall j | j in l'.jobs ensures SameJob(l', b, j) {
      assert SameJob(l, b, j);
    }
  }

  lemma ClaimedVerdict(jobs: map<Id, JobRow>, job: Id, attempt: int, at: Instant, run: Id)
    requires Waits(jobs, job)
    ensures Verdict(jobs[job := ClaimedRow(jobs[job], attempt, at)], run) == Verdict(jobs, run)
  {
    UnendedVerdict(jobs, jobs[job := ClaimedRow(jobs[job], attempt, at)], run);
  }

  lemma SameRunOk(l: CiTables, l': CiTables, b: CiTables, run: Id)
    requires run in l.runs && RunOk(l, b, run) && l'.runs == l.runs && Verdict(l'.jobs, run) == Verdict(l.jobs, run)
    ensures RunOk(l', b, run)
  {
  }

  /** Moving unfinished jobs about does not touch the verdict on any run. */
  lemma UnendedVerdict(a: map<Id, JobRow>, b: map<Id, JobRow>, run: Id)
    requires a.Keys == b.Keys
    requires forall j :: j in a ==> b[j].runId == a[j].runId && (a[j].status == b[j].status || (!a[j].status.JobEnded? && !b[j].status.JobEnded?))
    ensures Verdict(a, run) == Verdict(b, run)
  {
    assert JobsOf(a, run) == JobsOf(b, run);
  }

  // ---- The projector ----

  /** What the projector finds when it reaches an event. */
  lemma ReachEvent(w: Ci, job: Id)
    requires JobsOk(w) && w.cursor < |w.log|
    ensures PhaseOf(w.log[..w.cursor + 1], job) == Advance(PhaseOf(w.log[..w.cursor], job), w.log[w.cursor], job)
    ensures Leads(PhaseOf(w.log[..w.cursor + 1], job), PhaseOf(w.log, job))
  {
    assert JobOk(w, job);
    assert w.log[..w.cursor + 1] == w.log[..w.cursor] + [w.log[w.cursor]];
    PhaseAppend(w.log[..w.cursor], w.log[w.cursor], job);
    PrefixLeads(w.log, w.cursor + 1, job);
  }

  lemma ProjectedFits(seen: Phase, said: Phase, row: Option<JobRow>, taken: bool, s: Stamped<CiEvent>, job: Id)
    requires Fits(seen, said, row, taken) && Leads(Advance(seen, s, job), said)
    ensures Fits(Advance(seen, s, job), said, JobStep(job, row, s), taken)
  {}

  /** A start never wins the claim when it is projected: the runner that wrote it
      already had the job. */
  lemma StartLosesClaim(seen: Phase, said: Phase, row: Option<JobRow>, taken: bool, s: Stamped<CiEvent>)
    requires Fits(seen, said, row, taken) && s.event.JobStarted? && Leads(Advance(seen, s, s.event.jobId), said)
    ensures row.Some? ==> row.value.status != JobQueued
  {}

  /** An end always counts when it is projected: the row still carries its attempt. */
  lemma EndCounts(seen: Phase, said: Phase, row: Option<JobRow>, taken: bool, s: Stamped<CiEvent>)
    requires Fits(seen, said, row, taken) && s.event.JobFinished? && Leads(Advance(seen, s, s.event.jobId), said)
    ensures row.Some? && row.value.status == JobRunning && row.value.attempt == s.event.attempt && row.value.runId == s.event.runId
    ensures said.Over? && seen == Begun(Work(s.event.runId, s.event.repoId), s.event.attempt)
  {}

  lemma ProjectorNeverClaims(w: Ci)
    requires JobsOk(w) && w.cursor < |w.log|
    ensures !Claims(w.live.jobs, w.log[w.cursor].event)
  {
    var s := w.log[w.cursor];
    if s.event.JobStarted? {
      var j := s.event.jobId;
      ReachEvent(w, j);
      assert JobOk(w, j);
      StartLosesClaim(PhaseOf(w.log[..w.cursor], j), PhaseOf(w.log, j), Get(w.live.jobs, j), j in w.taken, s);
    }
  }

  lemma ProjectorFinishes(w: Ci)
    requires JobsOk(w) && w.cursor < |w.log| && w.log[w.cursor].event.JobFinished?
    ensures var e := w.log[w.cursor].event;
      && Finishes(w.live.jobs, e) && w.live.jobs[e.jobId].status == JobRunning && w.live.jobs[e.jobId].runId == e.runId
      && Finishes(Rebuilt(w).jobs, e) && PhaseOf(w.log, e.jobId).Over?
  {
    var s := w.log[w.cursor];
    var j := s.event.jobId;
    ReachEvent(w, j);
    RebuildSays(w.log[..w.cursor], j);
    assert JobOk(w, j);
    EndCounts(PhaseOf(w.log[..w.cursor], j), PhaseOf(w.log, j), Get(w.live.jobs, j), j in w.taken, s);
  }

  lemma ProjectKeepsJob(w: Ci, job: Id)
    requires JobsOk(w) && w.cursor < |w.log|
    ensures JobOk(Next(w, Project), job)
  {
    ReachEvent(w, job);
    assert JobOk(w, job);
    JobAfter(w.live, w.log[w.cursor], job);
    ProjectedFits(PhaseOf(w.log[..w.cursor], job), PhaseOf(w.log, job), Get(w.live.jobs, job), job in w.taken, w.log[w.cursor], job);
  }

  lemma ProjectedHolds(seen: Phase, said: Phase, row: Option<JobRow>, taken: bool, s: Stamped<CiEvent>, r: Runner)
    requires r != Idle && Fits(seen, said, row, taken) && Leads(Advance(seen, s, r.job), said) && Holds(r, said, row)
    ensures Holds(r, said, JobStep(r.job, row, s))
  {}

  lemma ProjectKeepsRunner(w: Ci, i: nat)
    requires JobsOk(w) && w.cursor < |w.log| && i < |w.runners| && RunnerOk(w, i)
    ensures RunnerOk(Next(w, Project), i)
  {
    var r := w.runners[i];
    if r != Idle {
      JobAfter(w.live, w.log[w.cursor], r.job);
      ReachEvent(w, r.job);
      assert JobOk(w, r.job);
      ProjectedHolds(PhaseOf(w.log[..w.cursor], r.job), PhaseOf(w.log, r.job), Get(w.live.jobs, r.job), r.job in w.taken, w.log[w.cursor], r);
    }
  }

  /** The live row and the rebuilt row of a job are over together, and then differ in
      nothing but the time it started. */
  predicate SameJobEnding(live: JobRow, rebuilt: JobRow) {
    && (live.status.JobEnded? <==> rebuilt.status.JobEnded?)
    && (live.status.JobEnded? ==> live.(startedAt := None) == rebuilt.(startedAt := None))
  }

  ghost predicate JobsAgree(live: CiTables, rebuilt: CiTables) {
    && live.jobs.Keys == rebuilt.jobs.Keys
    && (forall j :: j in live.jobs ==> FixedJob(live.jobs[j]) == FixedJob(rebuilt.jobs[j]) && SameJobEnding(live.jobs[j], rebuilt.jobs[j]))
  }

  lemma FitsLikeTheRebuild(seen: Phase, said: Phase, row: JobRow, taken: bool, rebuilt: Option<JobRow>)
    requires Fits(seen, said, Some(row), taken) && RowSays(rebuilt, seen)
    ensures rebuilt.Some? && (FixedJob(row) == FixedJob(rebuilt.value) ==> SameJobEnding(row, rebuilt.value))
  {}

  lemma JobAgrees(w: Ci, j: Id)
    requires JobsOk(w) && j in w.live.jobs
    ensures j in Rebuilt(w).jobs && (FixedJob(w.live.jobs[j]) == FixedJob(Rebuilt(w).jobs[j]) ==> SameJobEnding(w.live.jobs[j], Rebuilt(w).jobs[j]))
  {
    assert JobOk(w, j);
    RebuildSays(w.log[..w.cursor], j);
    FitsLikeTheRebuild(PhaseOf(w.log[..w.cursor], j), PhaseOf(w.log, j), w.live.jobs[j], j in w.taken, Get(Rebuilt(w).jobs, j));
  }

  lemma SameEndingsSameVerdict(live: CiTables, rebuilt: CiTables, run: Id)
    requires JobsAgree(live, rebuilt)
    ensures Verdict(live.jobs, run) == Verdict(rebuilt.jobs, run)
  {
    assert forall j :: j in live.jobs ==> live.jobs[j].runId == FixedJob(live.jobs[j]).0 == FixedJob(rebuilt.jobs[j]).0 == rebuilt.jobs[j].runId;
    assert JobsOf(live.jobs, run) == JobsOf(rebuilt.jobs, run);
  }

  lemma ProjectTables(w: Ci)
    requires w.cursor < |w.log|
    ensures Rebuilt(Next(w, Project)) == ApplyCi(Rebuilt(w), w.log[w.cursor])
  {
    assert w.log[..w.cursor + 1][..w.cursor] == w.log[..w.cursor];
  }

  /** How one event changes the set of job rows, in any tables. */
  lemma JobRowsAfter(t: CiTables, s: Stamped<CiEvent>, j: Id)
    ensures j in ApplyCi(t, s).jobs <==> j in t.jobs || Lists(s.event, j)
    ensures j in t.jobs ==> FixedJob(ApplyCi(t, s).jobs[j]) == FixedJob(t.jobs[j])
    ensures Lists(s.event, j) && j !in t.jobs ==>
      var r := ApplyCi(t, s).jobs[j];
      var spec := FirstSpec(s.event.jobs, j).value;
      r.status == JobQueued && FixedJob(r) == (s.event.runId, s.event.repoId, spec.name, spec.image, s.at)
  {
    JobAfter(t, s, j);
  }

  lemma FixedRunsAgree(a: JobRow, b: JobRow)
    requires FixedJob(a) == FixedJob(b)
    ensures a.runId == b.runId
  {}

  lemma ProjectKeepsFixed(l: CiTables, r: CiTables, s: Stamped<CiEvent>)
    requires l.jobs.Keys == r.jobs.Keys && forall j :: j in l.jobs ==> FixedJob(l.jobs[j]) == FixedJob(r.jobs[j])
    ensures var (l', r') := (ApplyCi(l, s), ApplyCi(r, s));
      && l'.jobs.Keys == r'.jobs.Keys
      && (forall j :: j in l'.jobs ==> FixedJob(l'.jobs[j]) == FixedJob(r'.jobs[j]))
  {
    forall j ensures (j in ApplyCi(l, s).jobs <==> j in ApplyCi(r, s).jobs)
      ensures j in ApplyCi(l, s).jobs ==> FixedJob(ApplyCi(l, s).jobs[j]) == FixedJob(ApplyCi(r, s).jobs[j])
    {
      JobRowsAfter(l, s, j);
      JobRowsAfter(r, s, j);
    }
  }

  /** An event moves only jobs of the run it names. */
  lemma MovesItsOwnRun(seen: Phase, said: Phase, row: Option<JobRow>, taken: bool, s: Stamped<CiEvent>, job: Id)
    requires Fits(seen, said, row, taken) && Leads(Advance(seen, s, job), said) && JobStep(job, row, s) != row
    ensures JobStep(job, row, s).Some? && JobStep(job, row, s).value.runId == s.event.runId && (row.Some? ==> row.value.runId == s.event.runId)
  {}

  lemma OtherRunStands(w: Ci, run: Id)
    requires JobsOk(w) && w.cursor < |w.log| && run != w.log[w.cursor].event.runId
    ensures Verdict(Next(w, Project).live.jobs, run) == Verdict(w.live.jobs, run)
  {
    var (a, b) := (w.live.jobs, Next(w, Project).live.jobs);
    forall j ensures SameOrElsewhere(Get(a, j), Get(b, j), run) { OtherRunsJobStays(w, j); }
    UntouchedVerdict(a, b, run);
  }

  predicate SameOrElsewhere(a: Option<JobRow>, b: Option<JobRow>, run: Id) {
    a == b || (b.Some? && b.value.runId != run && (a.Some? ==> a.value.runId != run))
  }

  lemma UntouchedVerdict(a: map<Id, JobRow>, b: map<Id, JobRow>, run: Id)
    requires forall j :: SameOrElsewhere(Get(a, j), Get(b, j), run)
    ensures Verdict(a, run) == Verdict(b, run)
  {
    forall j ensures (j in JobsOf(b, run) <==> j in JobsOf(a, run)) && (j in JobsOf(a, run) ==> a[j] == b[j]) {
      assert SameOrElsewhere(Get(a, j), Get(b, j), run);
    }
    assert JobsOf(a, run) == JobsOf(b, run);
  }

  lemma OtherRunsJobStays(w: Ci, j: Id)
    requires JobsOk(w) && w.cursor < |w.log|
    ensures var (a, b) := (Get(w.live.jobs, j), Get(Next(w, Project).live.jobs, j));
      a == b || (b.Some? && b.value.runId == w.log[w.cursor].event.runId && (a.Some? ==> a.value.runId == w.log[w.cursor].event.runId))
  {
    var s := w.log[w.cursor];
    JobAfter(w.live, s, j);
    assert JobOk(w, j);
    ReachEvent(w, j);
    if JobStep(j, Get(w.live.jobs, j), s) != Get(w.live.jobs, j) {
      MovesItsOwnRun(PhaseOf(w.log[..w.cursor], j), PhaseOf(w.log, j), Get(w.live.jobs, j), j in w.taken, s, j);
    }
  }

  /** A run and its jobs appear together, all of them waiting. */
  lemma QueuedRunOk(l: CiTables, r: CiTables, s: Stamped<CiEvent>)
    requires s.event.RunQueued? && l.runs.Keys == r.runs.Keys && s.event.runId !in l.runs
    requires forall j :: j in l.jobs ==> l.jobs[j].runId in l.runs
    ensures RunOk(ApplyCi(l, s), ApplyCi(r, s), s.event.runId)
  {
    var (run, l') := (s.event.runId, ApplyCi(l, s));
    forall j | j in l.jobs ensures j in l'.jobs && l'.jobs[j].runId in l.runs {
      JobRowsAfter(l, s, j);
      FixedRunsAgree(l'.jobs[j], l.jobs[j]);
    }
    forall j | j in JobsOf(l'.jobs, run) ensures l'.jobs[j].status == JobQueued {
      JobRowsAfter(l, s, j);
    }
  }

  lemma StartedRunOk(l: CiTables, r: CiTables, s: Stamped<CiEvent>)
    requires s.event.JobStarted? && !Claims(l.jobs, s.event) && s.event.runId in l.runs && RunOk(l, r, s.event.runId)
    ensures RunOk(ApplyCi(l, s), ApplyCi(r, s), s.event.runId)
  {
    forall j ensures Get(ApplyCi(l, s).jobs, j) == Get(l.jobs, j) { JobAfter(l, s, j); }
    MapsAgree(ApplyCi(l, s).jobs, l.jobs);
  }

  lemma FinishedRunOk(l: CiTables, r: CiTables, s: Stamped<CiEvent>)
    requires s.event.JobFinished? && s.event.runId in l.runs && RunOk(l, r, s.event.runId)
    requires Finishes(l.jobs, s.event) && Finishes(r.jobs, s.event)
    requires l.jobs[s.event.jobId].status == JobRunning && l.jobs[s.event.jobId].runId == s.event.runId
    requires Verdict(ApplyCi(l, s).jobs, s.event.runId) == Verdict(ApplyCi(r, s).jobs, s.event.runId)
    ensures RunOk(ApplyCi(l, s), ApplyCi(r, s), s.event.runId)
  {
    assert s.event.jobId in JobsOf(l.jobs, s.event.runId);
    assert l.runs[s.event.runId].status == RunIsQueued;
  }

  lemma OtherRunOk(l: CiTables, r: CiTables, s: Stamped<CiEvent>, run: Id)
    requires run in l.runs && RunOk(l, r, run) && run != s.event.runId && Verdict(ApplyCi(l, s).jobs, run) == Verdict(l.jobs, run)
    ensures run in ApplyCi(l, s).runs && RunOk(ApplyCi(l, s), ApplyCi(r, s), run)
  {}

  lemma RunKeys(t: CiTables, s: Stamped<CiEvent>)
    requires !s.event.RunFinished?
    ensures ApplyCi(t, s).runs.Keys == t.runs.Keys + (if s.event.RunQueued? then {s.event.runId} else {})
  {
    var (r, t') := (s.event.runId, ApplyCi(t, s));
    assert RunStep(Get(t.runs, r), t.jobs, t'.jobs, s).Some? <==> r in t.runs || s.event.RunQueued?;
    forall k ensures k in t'.runs <==> k in t.runs || (s.event.RunQueued? && k == r) {
      GetPut(t.runs, r, RunStep(Get(t.runs, r), t.jobs, t'.jobs, s), k);
      assert k in t'.runs <==> Get(t'.runs, k).Some?;
    }
  }

  lemma JobsAreNamed(l: CiTables, r: CiTables)
    requires TablesOk(l, r)
    ensures forall j :: j in l.jobs ==> l.jobs[j].runId in l.runs && FixedJob(l.jobs[j]) == FixedJob(r.jobs[j])
  {
    forall j | j in l.jobs ensures l.jobs[j].runId in l.runs && FixedJob(l.jobs[j]) == FixedJob(r.jobs[j]) { assert SameJob(l, r, j); }
  }

  lemma ProjectKeepsRun(w: Ci, run: Id)
    requires JobsOk(w) && w.cursor < |w.log| && LogOk(w.log) && TablesOk(w.live, Rebuilt(w)) && RunsSeen(w)
    requires run in Next(w, Project).live.runs
    requires JobsAgree(Next(w, Project).live, ApplyCi(Rebuilt(w), w.log[w.cursor]))
    ensures RunOk(Next(w, Project).live, ApplyCi(Rebuilt(w), w.log[w.cursor]), run)
  {
    var (s, l, r) := (w.log[w.cursor], w.live, Rebuilt(w));
    RunKeys(l, s);
    if run != s.event.runId {
      assert RunOk(l, r, run);
      OtherRunStands(w, run);
      OtherRunOk(l, r, s, run);
    } else if s.event.RunQueued? {
      JobsAreNamed(l, r);
      QueuedRunOk(l, r, s);
    } else if s.event.JobStarted? {
      ProjectorNeverClaims(w);
      StartedRunOk(l, r, s);
    } else {
      assert s.event.JobFinished?;
      ProjectorFinishes(w);
      SameEndingsSameVerdict(ApplyCi(l, s), ApplyCi(r, s), run);
      FinishedRunOk(l, r, s);
    }
  }

  lemma RunsStayNamed(l: CiTables, s: Stamped<CiEvent>)
    requires !s.event.RunFinished? && forall j :: j in l.jobs ==> l.jobs[j].runId in l.runs
    ensures forall j :: j in ApplyCi(l, s).jobs ==> ApplyCi(l, s).jobs[j].runId in ApplyCi(l, s).runs
  {
    RunKeys(l, s);
    forall j | j in ApplyCi(l, s).jobs ensures ApplyCi(l, s).jobs[j].runId in ApplyCi(l, s).runs {
      JobRowsAfter(l, s, j);
      if j in l.jobs { FixedRunsAgree(ApplyCi(l, s).jobs[j], l.jobs[j]); }
    }
  }

  lemma ProjectKeepsTables(w: Ci)
    requires Inv(w) && w.cursor < |w.log| && JobsOk(Next(w, Project))
    ensures TablesOk(Next(w, Project).live, Rebuilt(Next(w, Project)))
  {
    var (w', s) := (Next(w, Project), w.log[w.cursor]);
    ProjectTables(w);
    JobsAreNamed(w.live, Rebuilt(w));
    ProjectKeepsFixed(w.live, Rebuilt(w), s);
    forall j | j in w'.live.jobs ensures SameJobEnding(w'.live.jobs[j], Rebuilt(w').jobs[j]) { JobAgrees(w', j); }
    forall r | r in w'.live.runs ensures RunOk(w'.live, Rebuilt(w'), r) { ProjectKeepsRun(w, r); }
    RunKeys(w.live, s);
    RunKeys(Rebuilt(w), s);
    RunsStayNamed(w.live, s);
    forall j | j in w'.live.jobs ensures SameJob(w'.live, Rebuilt(w'), j) {}
  }

  lemma ProjectKeepsSeen(w: Ci)
    requires w.cursor < |w.log| && RunsSeen(w) && LogOk(w.log)
    ensures RunsSeen(Next(w, Project))
  {
    var w' := Next(w, Project);
    RunKeys(w.live, w.log[w.cursor]);
    forall r | r in w'.live.runs ensures exists k :: 0 <= k < w'.cursor && w'.log[k].event.RunQueued? && w'.log[k].event.runId == r {
      if r in w.live.runs {
        var k :| 0 <= k < w.cursor && w.log[k].event.RunQueued? && w.log[k].event.runId == r;
        assert w'.log[k].event.RunQueued?;
      } else {
        assert w'.log[w.cursor].event.RunQueued?;
      }
    }
  }

  lemma ProjectKeeps(w: Ci)
    requires Inv(w) && Enabled(w, Project)
    ensures Inv(Next(w, Project))
  {
    forall job ensures JobOk(Next(w, Project), job) { ProjectKeepsJob(w, job); }
    forall i | 0 <= i < |w.runners| ensures RunnerOk(Next(w, Project), i) { ProjectKeepsRunner(w, i); }
    ProjectKeepsTables(w);
    ProjectKeepsSeen(w);
  }

  lemma MoveKeeps(w: Ci, m: Move)
    requires Inv(w) && Enabled(w, m)
    ensures Inv(Next(w, m))
  {
    match m
    case Announce(e, at) => AnnounceKeeps(w, e, at);
    case Enqueue(k) => EnqueueKeeps(w, k);
    case Deliver(i, job, attempt) => DeliverKeeps(w, i, job, attempt);
    case Claim(i, at) => ClaimKeeps(w, i, at);
    case ReportStart(i, at) => ReportKeeps(w, i, JobSuccess, None, at);
    case ReportEnd(i, conclusion, exitCode, at) => ReportKeeps(w, i, conclusion, exitCode, at);
    case GiveUp(i) => GiveUpKeeps(w, i);
    case Project => ProjectKeeps(w);
  }

  lemma StartIsFine(w: Ci)
    requires Start(w)
    ensures Inv(w)
  {
    forall job ensures JobOk(w, job) {}
    forall i | 0 <= i < |w.runners| ensures RunnerOk(w, i) {}
    assert Rebuilt(w) == NO_CI;
  }

  lemma {:induction false} RunsKeep(run: seq<Ci>, moves: seq<Move>, k: nat)
    requires IsRun(run, moves) && k < |run|
    ensures Inv(run[k])
  {
    if k == 0 {
      StartIsFine(run[0]);
    } else {
      RunsKeep(run, moves, k - 1);
      assert MovesAt(run, moves, k - 1);
      MoveKeeps(run[k - 1], moves[k - 1]);
    }
  }
}
