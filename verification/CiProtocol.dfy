/** The hand-off of CI jobs. The orchestrator announces a run and then queues its jobs;
    the queue delivers a job as often as it likes, to as many runners as it likes; a
    runner claims the job in the live table, and reports through the log; the projector
    follows the log into the same table. Anyone may stop anywhere. */
module CiProtocol {
  import opened Base
  import opened Events
  import opened Rows
  import opened CiReplay

  /** What a queue record says about its job. */
  datatype Work = Work(run: Id, repo: Id)

  datatype Runner =
    | Idle
    | Holding(job: Id, work: Work, attempt: int)
    | Claimed(job: Id, work: Work, attempt: int)
    | Executing(job: Id, work: Work, attempt: int)

  /** `taken` lists the jobs whose claim by a runner was granted, in order. */
  datatype Ci = Ci(log: CiHistory, cursor: nat, live: CiTables, queue: map<Id, Work>, runners: seq<Runner>, taken: seq<Id>)

  datatype Move =
    | Announce(queued: CiEvent, at: Instant)
    | Enqueue(announcement: nat)
    | Deliver(runner: nat, job: Id, attempt: int)
    | Claim(runner: nat, at: Instant)
    | ReportStart(runner: nat, at: Instant)
    | ReportEnd(runner: nat, conclusion: JobConclusion, exitCode: Option<int>, at: Instant)
    | GiveUp(runner: nat)
    | Project

  predicate Start(w: Ci) {
    w.log == [] && w.cursor == 0 && w.live == NO_CI && w.queue == map[] && w.taken == []
    && forall i :: 0 <= i < |w.runners| ==> w.runners[i] == Idle
  }

  ghost predicate Fresh(log: CiHistory, e: CiEvent)
    requires e.RunQueued?
  {
    && (forall k :: 0 <= k < |log| ==> log[k].event.runId != e.runId)
    && (forall k, job :: 0 <= k < |log| && Mentions(log[k].event, job) ==> !Lists(e, job))
  }

  ghost predicate Enabled(w: Ci, m: Move) {
    match m
    case Announce(e, _) => e.RunQueued? && Fresh(w.log, e)
    case Enqueue(k) => k < |w.log| && w.log[k].event.RunQueued?
    case Deliver(i, job, attempt) => i < |w.runners| && w.runners[i].Idle? && job in w.queue && attempt >= 1
    case Claim(i, _) => i < |w.runners| && w.runners[i].Holding?
    case ReportStart(i, _) => i < |w.runners| && w.runners[i].Claimed?
    case ReportEnd(i, _, _, _) => i < |w.runners| && w.runners[i].Executing?
    case GiveUp(i) => i < |w.runners|
    case Project => w.cursor < |w.log|
  }

  function Enqueued(queue: map<Id, Work>, e: CiEvent): map<Id, Work>
    requires e.RunQueued?
  {
    map j | j in queue.Keys + JobKeys(e) :: if j in JobKeys(e) then Work(e.runId, e.repoId) else queue[j]
  }

  predicate Waits(jobs: map<Id, JobRow>, job: Id) {
    job in jobs && jobs[job].status == JobQueued
  }

  function ClaimedRow(row: JobRow, attempt: int, at: Instant): JobRow {
    row.(status := JobRunning, attempt := attempt, logOffset := Some(0), startedAt := Some(at), updatedAt := at)
  }

  /** The claim goes straight to the live table; losing it sends the runner back to
      the queue. A runner that gives up drops what it holds without a word. */
  function Next(w: Ci, m: Move): Ci
    requires Enabled(w, m)
  {
    match m
    case Announce(e, at) => w.(log := w.log + [Stamped(e, at)])
    case Enqueue(k) => w.(queue := Enqueued(w.queue, w.log[k].event))
    case Deliver(i, job, attempt) => w.(runners := w.runners[i := Holding(job, w.queue[job], attempt)])
    case Claim(i, at) =>
      var r := w.runners[i];
      if Waits(w.live.jobs, r.job) then
        w.(live := w.live.(jobs := w.live.jobs[r.job := ClaimedRow(w.live.jobs[r.job], r.attempt, at)]),
           runners := w.runners[i := Claimed(r.job, r.work, r.attempt)],
           taken := w.taken + [r.job])
      else w.(runners := w.runners[i := Idle])
    case ReportStart(i, at) =>
      var r := w.runners[i];
      w.(log := w.log + [Stamped(JobStarted(r.job, r.work.run, r.work.repo, r.attempt, 0), at)],
         runners := w.runners[i := Executing(r.job, r.work, r.attempt)])
    case ReportEnd(i, conclusion, exitCode, at) =>
      var r := w.runners[i];
      w.(log := w.log + [Stamped(JobFinished(r.job, r.work.run, r.work.repo, r.attempt, conclusion, exitCode), at)],
         runners := w.runners[i := Idle])
    case GiveUp(i) => w.(runners := w.runners[i := Idle])
    case Project => w.(live := ApplyCi(w.live, w.log[w.cursor]), cursor := w.cursor + 1)
  }

  ghost predicate IsRun(run: seq<Ci>, moves: seq<Move>) {
    && |run| == |moves| + 1 && Start(run[0])
    && forall k :: 0 <= k < |moves| ==> MovesAt(run, moves, k)
  }

  ghost predicate MovesAt(run: seq<Ci>, moves: seq<Move>, k: nat)
    requires k < |moves| < |run|
  {
    Enabled(run[k], moves[k]) && run[k + 1] == Next(run[k], moves[k])
  }

  // ---- What the log says of one job ----

  datatype Phase =
    | Unlisted
    | Waiting(work: Work)
    | Begun(work: Work, attempt: int)
    | Over(work: Work, attempt: int, conclusion: JobConclusion, exitCode: Option<int>, at: Instant)
    | Astray

  /** A job is listed once, then started once, then finished once by the attempt that
      started it. Anything else is astray, and stays so. */
  function Advance(p: Phase, s: Stamped<CiEvent>, job: Id): Phase {
    var e := s.event;
    if Lists(e, job) then
      if p.Unlisted? then Waiting(Work(e.runId, e.repoId)) else Astray
    else if e.JobStarted? && e.jobId == job then
      if p == Waiting(Work(e.runId, e.repoId)) && e.logOffset == 0 then Begun(p.work, e.attempt) else Astray
    else if e.JobFinished? && e.jobId == job then
      if p == Begun(Work(e.runId, e.repoId), e.attempt) then Over(p.work, e.attempt, e.conclusion, e.exitCode, s.at) else Astray
    else p
  }

  function PhaseOf(h: CiHistory, job: Id): Phase {
    if h == [] then Unlisted else Advance(PhaseOf(h[..|h| - 1], job), h[|h| - 1], job)
  }

  /** How the phase a prefix of the log gives can still move. */
  predicate Leads(p: Phase, q: Phase) {
    match p
    case Unlisted => true
    case Waiting(work) => (q.Waiting? || q.Begun? || q.Over?) && q.work == work
    case Begun(work, attempt) => (q.Begun? || q.Over?) && q.work == work && q.attempt == attempt
    case Over(_, _, _, _, _) => q == p
    case Astray => false
  }

  lemma PhaseAppend(h: CiHistory, s: Stamped<CiEvent>, job: Id)
    ensures PhaseOf(h + [s], job) == Advance(PhaseOf(h, job), s, job)
  {
    assert (h + [s])[..|h|] == h;
  }

  lemma {:induction false} PrefixLeads(h: CiHistory, p: nat, job: Id)
    requires p <= |h| && !PhaseOf(h, job).Astray?
    ensures Leads(PhaseOf(h[..p], job), PhaseOf(h, job))
  {
    if p == |h| {
      assert h[..p] == h;
    } else {
      var init := h[..|h| - 1];
      PrefixLeads(init, p, job);
      assert init[..p] == h[..p];
    }
  }

  lemma {:induction false} FreshIsUnlisted(h: CiHistory, job: Id)
    requires forall k :: 0 <= k < |h| ==> !Mentions(h[k].event, job)
    ensures PhaseOf(h, job) == Unlisted
  {
    if h != [] {
      FreshIsUnlisted(h[..|h| - 1], job);
      assert !Mentions(h[|h| - 1].event, job);
    }
  }

  /** A rebuild's row of a job is what its phase says. */
  ghost predicate RowSays(row: Option<JobRow>, p: Phase) {
    match p
    case Unlisted => row.None?
    case Waiting(work) => row.Some? && Work(row.value.runId, row.value.repoId) == work && row.value.status == JobQueued && row.value.attempt == 0
    case Begun(work, attempt) =>
      row.Some? && Work(row.value.runId, row.value.repoId) == work && row.value.status == JobRunning
      && row.value.attempt == attempt && row.value.logOffset == Some(0)
    case Over(work, attempt, conclusion, exitCode, at) =>
      row.Some? && Work(row.value.runId, row.value.repoId) == work && row.value.status == JobEnded(conclusion)
      && row.value.attempt == attempt && row.value.logOffset == Some(0) && row.value.exitCode == exitCode
      && row.value.finishedAt == Some(at) && row.value.updatedAt == at
    case Astray => true
  }

  lemma {:induction false} RebuildSays(h: CiHistory, job: Id)
    ensures RowSays(Get(FoldCi(NO_CI, h).jobs, job), PhaseOf(h, job))
  {
    if h != [] {
      var init := h[..|h| - 1];
      RebuildSays(init, job);
      JobAfter(FoldCi(NO_CI, init), h[|h| - 1], job);
    }
  }

  // ---- What every move keeps ----

  /** The live row of a job, against the phase the projected part of the log gives it
      and the phase the whole log does. */
  predicate Fits(seen: Phase, said: Phase, row: Option<JobRow>, taken: bool) {
    && !said.Astray? && Leads(seen, said)
    && (row.None? <==> seen.Unlisted?)
    && match row
       case None => (said.Unlisted? || said.Waiting?) && !taken
       case Some(r) =>
         && Work(r.runId, r.repoId) == said.work
         && match r.status
            case JobQueued => said.Waiting? && !taken
            case JobRunning => taken && !seen.Over? && r.logOffset == Some(0) && (said.Waiting? || said.attempt == r.attempt)
            case JobEnded(c) =>
              && taken && r.finishedAt == Some(r.updatedAt) && r.logOffset == Some(0)
              && seen == Over(Work(r.runId, r.repoId), r.attempt, c, r.exitCode, r.updatedAt)
  }

  /** What a runner believes of the job it has in hand. */
  predicate Holds(r: Runner, said: Phase, row: Option<JobRow>) {
    match r
    case Idle => true
    case Holding(_, work, _) => !said.Unlisted? && !said.Astray? && work == said.work
    case Claimed(_, work, attempt) =>
      said == Waiting(work) && row.Some? && row.value.status == JobRunning && row.value.attempt == attempt
    case Executing(_, work, attempt) =>
      said == Begun(work, attempt) && row.Some? && row.value.status == JobRunning && row.value.attempt == attempt
  }

  ghost predicate JobOk(w: Ci, job: Id)
    requires w.cursor <= |w.log|
  {
    && Fits(PhaseOf(w.log[..w.cursor], job), PhaseOf(w.log, job), Get(w.live.jobs, job), job in w.taken)
    && (job in w.queue ==> !PhaseOf(w.log, job).Unlisted? && w.queue[job] == PhaseOf(w.log, job).work)
  }

  ghost predicate RunnerOk(w: Ci, i: nat)
    requires i < |w.runners|
  {
    var r := w.runners[i];
    r == Idle || Holds(r, PhaseOf(w.log, r.job), Get(w.live.jobs, r.job))
  }

  predicate Busy(r: Runner) {
    r.Claimed? || r.Executing?
  }

  ghost predicate JobsOk(w: Ci) {
    w.cursor <= |w.log| && forall job :: JobOk(w, job)
  }

  ghost predicate RunnersOk(w: Ci) {
    && (forall i :: 0 <= i < |w.runners| ==> RunnerOk(w, i))
    && Apart(w.runners)
  }

  /** No two runners are at work on one job. */
  predicate Apart(runners: seq<Runner>) {
    forall i, k :: 0 <= i < k < |runners| && Busy(runners[i]) && Busy(runners[k]) ==> runners[i].job != runners[k].job
  }

  predicate NoRepeats(ids: seq<Id>) {
    forall i, k :: 0 <= i < k < |ids| ==> ids[i] != ids[k]
  }

  /** Run announcements are the only events about runs, and name each run once. */
  ghost predicate LogOk(log: CiHistory) {
    && (forall k :: 0 <= k < |log| ==> !log[k].event.RunFinished?)
    && (forall i, k :: 0 <= i < k < |log| && log[i].event.RunQueued? && log[k].event.RunQueued? ==> log[i].event.runId != log[k].event.runId)
  }

  /** The tables a rebuild up to the projector's position would hold. */
  function Rebuilt(w: Ci): CiTables
    requires w.cursor <= |w.log|
  {
    FoldCi(NO_CI, w.log[..w.cursor])
  }

  predicate SameEnding(live: RunRow, rebuilt: RunRow) {
    && FixedRun(live) == FixedRun(rebuilt)
    && (live.status.RunEnded? <==> rebuilt.status.RunEnded?)
    && (live.status.RunEnded? ==> live.status == rebuilt.status && live.finishedAt == rebuilt.finishedAt && live.updatedAt == rebuilt.updatedAt)
  }

  function Standing(jobs: map<Id, JobRow>, run: Id): RunStatus {
    match Verdict(jobs, run) case Some(c) => RunEnded(c) case None => RunIsQueued
  }

  ghost predicate RunOk(live: CiTables, rebuilt: CiTables, run: Id)
    requires run in live.runs
  {
    && run in rebuilt.runs && SameEnding(live.runs[run], rebuilt.runs[run])
    && live.runs[run].status == Standing(live.jobs, run)
  }

  ghost predicate TablesOk(live: CiTables, rebuilt: CiTables) {
    && live.jobs.Keys == rebuilt.jobs.Keys && live.runs.Keys == rebuilt.runs.Keys
    && (forall j :: j in live.jobs ==> SameJob(live, rebuilt, j))
    && (forall r :: r in live.runs ==> RunOk(live, rebuilt, r))
  }

  ghost predicate SameJob(live: CiTables, rebuilt: CiTables, j: Id)
    requires j in live.jobs && j in rebuilt.jobs
  {
    FixedJob(live.jobs[j]) == FixedJob(rebuilt.jobs[j]) && live.jobs[j].runId in live.runs
  }

  ghost predicate RunsSeen(w: Ci)
    requires w.cursor <= |w.log|
  {
    forall r :: r in w.live.runs ==> exists k :: 0 <= k < w.cursor && w.log[k].event.RunQueued? && w.log[k].event.runId == r
  }

  ghost predicate Inv(w: Ci) {
    JobsOk(w) && RunnersOk(w) && NoRepeats(w.taken) && LogOk(w.log) && TablesOk(w.live, Rebuilt(w)) && RunsSeen(w)
  }
}
