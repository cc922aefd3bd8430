/** The read models: rows, and what one event does to one row.

    A step takes the row under the event's key, or nothing, and gives the row that
    should be there afterwards. Columns that an upsert leaves out of its update keep
    the value of the first insert. */
module Rows {
  import opened Base
  import opened Events

  datatype UserRow = UserRow(username: string, usernameLower: string, email: string, passwordHash: string,
                             displayName: Option<string>, bio: Option<string>, active: bool,
                             createdAt: Instant, updatedAt: Instant)

  datatype RepoRow = RepoRow(ownerId: Id, ownerName: string, name: string, fullNameLower: string,
                             description: Option<string>, defaultBranch: string, visibility: string,
                             createdAt: Instant, updatedAt: Instant, deleted: bool)

  datatype IssueRow = IssueRow(repoId: Id, number: int, title: string, body: Option<string>, authorId: Id,
                               authorName: string, open: bool, commentCount: int, createdAt: Instant,
                               updatedAt: Instant, closedAt: Option<Instant>)

  datatype CommentRow = CommentRow(issueId: Id, repoId: Id, authorId: Id, authorName: string, text: string,
                                   createdAt: Instant, updatedAt: Instant)

  datatype Counters = Counters(openIssues: int, closedIssues: int)

  datatype PullState = PullOpen | PullMerged | PullClosed

  datatype MergeCheck = MergeCheck(clean: bool, head: Oid, base: Oid, paths: seq<string>)

  datatype PullRow = PullRow(repoId: Id, number: int, title: string, body: Option<string>, authorId: Id,
                             authorName: string, state: PullState, sourceBranch: string, targetBranch: string,
                             headOid: Oid, baseOid: Oid, check: Option<MergeCheck>, mergeCommit: Option<Oid>,
                             mergedByName: Option<string>, commentCount: int, createdAt: Instant,
                             updatedAt: Instant, mergedAt: Option<Instant>, closedAt: Option<Instant>)

  datatype ReviewRow = ReviewRow(prId: Id, repoId: Id, reviewerId: Id, reviewerName: string,
                                 verdict: ReviewVerdict, remark: Option<string>, createdAt: Instant)

  datatype JobStatus = JobQueued | JobRunning | JobEnded(conclusion: JobConclusion)

  datatype RunStatus = RunIsQueued | RunIsRunning | RunEnded(conclusion: RunConclusion)

  datatype RunRow = RunRow(repoId: Id, number: int, workflow: string, trigger: string, headOid: Oid,
                           refName: string, actorName: string, status: RunStatus, createdAt: Instant,
                           updatedAt: Instant, startedAt: Option<Instant>, finishedAt: Option<Instant>)

  datatype JobRow = JobRow(runId: Id, repoId: Id, name: string, image: string, status: JobStatus, attempt: int,
                           exitCode: Option<int>, logOffset: Option<int>, createdAt: Instant,
                           updatedAt: Instant, startedAt: Option<Instant>, finishedAt: Option<Instant>)

  /** An event with the time it happened, which is the only clock projection uses. */
  datatype Stamped<+E> = Stamped(event: E, at: Instant)

  // ---- Users and repositories ----

  function UserOf(e: UserEvent): Id { e.userId }

  function UserStep(row: Option<UserRow>, s: Stamped<UserEvent>): Option<UserRow> {
    match s.event
    case Registered(_, username, lower, email, hash) =>
      Some(UserRow(username, lower, email, hash, None, None, true,
                   if row.Some? then row.value.createdAt else s.at, s.at))
    case ProfileUpdated(_, displayName, bio) =>
      if row.None? then None else Some(row.value.(displayName := displayName, bio := bio, updatedAt := s.at))
    case Deactivated(_) =>
      if row.None? then None else Some(row.value.(active := false, updatedAt := s.at))
  }

  function RepoOf(e: RepoEvent): Id { e.repoId }

  function RepoStep(row: Option<RepoRow>, s: Stamped<RepoEvent>): Option<RepoRow> {
    match s.event
    case Created(_, ownerId, ownerName, name, full, description, branch, visibility) =>
      Some(RepoRow(ownerId, ownerName, name, full, description, branch, visibility,
                   if row.Some? then row.value.createdAt else s.at, s.at, false))
    case Renamed(_, name, full) =>
      if row.None? then None else Some(row.value.(name := name, fullNameLower := full, updatedAt := s.at))
    case DescriptionChanged(_, description) =>
      if row.None? then None else Some(row.value.(description := description, updatedAt := s.at))
    case VisibilityChanged(_, visibility) =>
      if row.None? then None else Some(row.value.(visibility := visibility, updatedAt := s.at))
    case DefaultBranchChanged(_, branch) =>
      if row.None? then None else Some(row.value.(defaultBranch := branch, updatedAt := s.at))
    case RepoDeleted(_) =>
      if row.None? then None else Some(row.value.(deleted := true, updatedAt := s.at))
    case CollaboratorAdded(_, _) => row
    case CollaboratorRemoved(_, _) => row
  }

  // ---- Pull requests ----

  function PullStep(row: Option<PullRow>, s: Stamped<PrEvent>): Option<PullRow> {
    match s.event
    case PrOpened(_, repo, number, title, body, author, authorName, source, target, head, base) =>
      var row' := PullRow(repo, number, title, body, author, authorName, PullOpen, source, target, head, base,
                            None, None, None, 0, s.at, s.at, None, None);
      Some(match row
           case None => row'
           case Some(r) => row'.(repoId := r.repoId, number := r.number, authorId := r.authorId,
                                   authorName := r.authorName, sourceBranch := r.sourceBranch,
                                   targetBranch := r.targetBranch, createdAt := r.createdAt))
    case Synchronized(_, _, head, base) =>
      if row.None? then None else Some(row.value.(headOid := head, baseOid := base, updatedAt := s.at))
    case MergeabilityComputed(_, _, head, base, mergeable, conflicts) =>
      // Stored only while the request still points at the commits it was computed for.
      if row.None? || row.value.headOid != head || row.value.baseOid != base then row
      else Some(row.value.(check := Some(MergeCheck(mergeable, head, base, if mergeable then [] else conflicts)), updatedAt := s.at))
    case Reviewed(_, _, _, _, _, _, _) => row
    case Merged(_, _, commit, _, name) =>
      if row.None? then None
      else Some(row.value.(state := PullMerged, mergeCommit := Some(commit), mergedByName := Some(name),
                           mergedAt := Some(s.at), closedAt := Some(s.at), updatedAt := s.at))
    case PrClosed(_, _, _) =>
      if row.None? then None
      else if row.value.state == PullMerged then Some(row.value.(updatedAt := s.at))
      else Some(row.value.(state := PullClosed, closedAt := Some(s.at), updatedAt := s.at))
    case PrReopened(_, _, _) =>
      if row.None? then None
      else if row.value.state == PullMerged then Some(row.value.(updatedAt := s.at))
      else Some(row.value.(state := PullOpen, closedAt := None, check := None, updatedAt := s.at))
  }

  function ReviewStep(row: Option<ReviewRow>, s: Stamped<PrEvent>): Option<ReviewRow> {
    match s.event
    case Reviewed(_, pr, repo, reviewer, name, verdict, remark) =>
      if row.Some? then row else Some(ReviewRow(pr, repo, reviewer, name, verdict, remark, s.at))
    case _ => row
  }

  datatype Mergeable = Unknown | Clean | Conflict

  /** The verdict, but only while it describes the commits the request points at. */
  function Mergeability(r: PullRow): Mergeable {
    match r.check
    case Some(c) => if c.head == r.headOid && c.base == r.baseOid then (if c.clean then Clean else Conflict) else Unknown
    case None => Unknown
  }

  function Conflicts(r: PullRow): seq<string> {
    match r.check
    case Some(c) => if c.head == r.headOid && c.base == r.baseOid then c.paths else []
    case None => []
  }

  predicate CanMerge(r: PullRow) {
    r.state == PullOpen && Mergeability(r) == Clean
  }

  // ---- Issues ----

  datatype IssueTables = IssueTables(issues: map<Id, IssueRow>, comments: map<Id, CommentRow>, counters: map<Id, Counters>)

  const NO_ISSUES := IssueTables(map[], map[], map[])

  /** Comments are counted from one page of them. */
  const PAGE := 100

  function CommentsOn(comments: map<Id, CommentRow>, issue: Id): set<Id> {
    set c | c in comments && comments[c].issueId == issue
  }

  function CountComments(comments: map<Id, CommentRow>, issue: Id): int {
    Min(PAGE, |CommentsOn(comments, issue)|)
  }

  function IssuesIn(issues: map<Id, IssueRow>, repo: Id, open: bool): set<Id> {
    set i | i in issues && issues[i].repoId == repo && issues[i].open == open
  }

  function CountIssues(issues: map<Id, IssueRow>, repo: Id): Counters {
    Counters(|IssuesIn(issues, repo, true)|, |IssuesIn(issues, repo, false)|)
  }

  /** What an issue event does to the issue's row, given the comments stored by then. */
  function IssueStep(row: Option<IssueRow>, count: int, s: Stamped<IssueEvent>): Option<IssueRow> {
    match s.event
    case IssueOpened(_, repo, number, title, body, author, authorName) =>
      var row' := IssueRow(repo, number, title, body, author, authorName, true, 0, s.at, s.at, None);
      Some(match row
           case None => row'
           case Some(r) => row'.(repoId := r.repoId, number := r.number, authorId := r.authorId,
                                   authorName := r.authorName, createdAt := r.createdAt))
    case Commented(_, _, _, _, _, _) =>
      if row.None? then None else Some(row.value.(commentCount := count, updatedAt := s.at))
    case TitleChanged(_, _, title) =>
      if row.None? then None else Some(row.value.(title := title, updatedAt := s.at))
    case IssueClosed(_, _, _) =>
      if row.None? then None else Some(row.value.(open := false, closedAt := Some(s.at), updatedAt := s.at))
    case IssueReopened(_, _, _) =>
      if row.None? then None else Some(row.value.(open := true, closedAt := None, updatedAt := s.at))
  }

  function CommentStep(row: Option<CommentRow>, s: Stamped<IssueEvent>): Option<CommentRow> {
    match s.event
    case Commented(_, issue, repo, author, name, text) =>
      if row.Some? then row else Some(CommentRow(issue, repo, author, name, text, s.at, s.at))
    case _ => row
  }

  predicate MovesCounters(e: IssueEvent) {
    e.IssueOpened? || e.IssueClosed? || e.IssueReopened?
  }

  function ApplyIssue(t: IssueTables, s: Stamped<IssueEvent>): IssueTables {
    var e := s.event;
    var comments := if e.Commented? then Put(t.comments, e.commentId, CommentStep(Get(t.comments, e.commentId), s)) else t.comments;
    var issues := Put(t.issues, e.issueId, IssueStep(Get(t.issues, e.issueId), CountComments(comments, e.issueId), s));
    IssueTables(issues, comments,
                if MovesCounters(e) then t.counters[e.repoId := CountIssues(issues, e.repoId)] else t.counters)
  }

  function FoldIssues(t: IssueTables, h: seq<Stamped<IssueEvent>>): IssueTables {
    if h == [] then t else ApplyIssue(FoldIssues(t, h[..|h| - 1]), h[|h| - 1])
  }

  // ---- CI ----

  datatype CiTables = CiTables(runs: map<Id, RunRow>, jobs: map<Id, JobRow>)

  const NO_CI := CiTables(map[], map[])

  function FromJobs(jobs: seq<JobConclusion>): RunConclusion {
    if exists i :: 0 <= i < |jobs| && jobs[i] != JobSuccess && jobs[i] != JobCancelled then RunFailed
    else if jobs != [] && forall i :: 0 <= i < |jobs| ==> jobs[i] == JobCancelled then RunCancelled
    else RunSuccess
  }

  function JobsOf(jobs: map<Id, JobRow>, run: Id): set<Id> {
    set j | j in jobs && jobs[j].runId == run
  }

  /** The verdict on a run from the set of its jobs: the order they are read in does
      not matter. Nothing while any job is unfinished, or if there is none. */
  function Verdict(jobs: map<Id, JobRow>, run: Id): Option<RunConclusion> {
    var mine := JobsOf(jobs, run);
    if mine == {} || exists j :: j in mine && !jobs[j].status.JobEnded? then None
    else if exists j :: j in mine && jobs[j].status != JobEnded(JobSuccess) && jobs[j].status != JobEnded(JobCancelled) then Some(RunFailed)
    else if forall j :: j in mine ==> jobs[j].status == JobEnded(JobCancelled) then Some(RunCancelled)
    else Some(RunSuccess)
  }

  /** A job listed more than once keeps the name and image of its first listing. */
  function FirstSpec(jobs: seq<JobSpec>, id: Id): Option<JobSpec> {
    if jobs == [] then None
    else if jobs[0].jobId == id then Some(jobs[0])
    else FirstSpec(jobs[1..], id)
  }

  /** What an event does to the row of one job. */
  function JobStep(id: Id, row: Option<JobRow>, s: Stamped<CiEvent>): Option<JobRow> {
    match s.event
    case RunQueued(run, repo, _, _, _, _, _, _, jobs) =>
      var spec := FirstSpec(jobs, id);
      if spec.None? then row
      else
        var row' := JobRow(run, repo, spec.value.name, spec.value.image, JobQueued, 0, None, None, s.at, s.at, None, None);
        Some(match row
             case None => row'
             case Some(r) => row'.(runId := r.runId, repoId := r.repoId, name := r.name, image := r.image, createdAt := r.createdAt))
    case JobStarted(job, _, _, attempt, logOffset) =>
      if job != id || row.None? || row.value.status != JobQueued then row
      else Some(row.value.(status := JobRunning, attempt := attempt, logOffset := Some(logOffset),
                           startedAt := Some(s.at), updatedAt := s.at))
    case JobFinished(job, _, _, attempt, conclusion, exitCode) =>
      if job != id || row.None? || row.value.attempt != attempt then row
      else Some(row.value.(status := JobEnded(conclusion), exitCode := exitCode, finishedAt := Some(s.at), updatedAt := s.at))
    case RunFinished(_, _, _) => row
  }

  /** Whether the conditional update of a job took. */
  predicate Claims(jobs: map<Id, JobRow>, e: CiEvent) {
    e.JobStarted? && e.jobId in jobs && jobs[e.jobId].status == JobQueued
  }

  predicate Finishes(jobs: map<Id, JobRow>, e: CiEvent) {
    e.JobFinished? && e.jobId in jobs && jobs[e.jobId].attempt == e.attempt
  }

  /** What an event does to the row of its run, from the jobs before and after it. */
  function RunStep(row: Option<RunRow>, before: map<Id, JobRow>, after: map<Id, JobRow>, s: Stamped<CiEvent>): Option<RunRow> {
    match s.event
    case RunQueued(_, repo, number, workflow, trigger, head, refName, actor, _) =>
      var row' := RunRow(repo, number, workflow, trigger, head, refName, actor, RunIsQueued, s.at, s.at, None, None);
      Some(match row
           case None => row'
           case Some(r) => row'.(repoId := r.repoId, number := r.number, workflow := r.workflow, trigger := r.trigger,
                                   headOid := r.headOid, refName := r.refName, actorName := r.actorName, createdAt := r.createdAt))
    case JobStarted(_, _, _, _, _) =>
      if row.None? || row.value.status != RunIsQueued || !Claims(before, s.event) then row
      else Some(row.value.(status := RunIsRunning, startedAt := Some(s.at), updatedAt := s.at))
    case JobFinished(_, run, _, _, _, _) =>
      if row.None? || row.value.status.RunEnded? || !Finishes(before, s.event) || Verdict(after, run).None? then row
      else Some(row.value.(status := RunEnded(Verdict(after, run).value), finishedAt := Some(s.at), updatedAt := s.at))
    case RunFinished(_, _, verdict) =>
      if row.None? then None else Some(row.value.(status := RunEnded(verdict), finishedAt := Some(s.at), updatedAt := s.at))
  }

  function JobKeys(e: CiEvent): set<Id> {
    if e.RunQueued? then set i | 0 <= i < |e.jobs| :: e.jobs[i].jobId else {}
  }

  function StepJobs(jobs: map<Id, JobRow>, s: Stamped<CiEvent>): map<Id, JobRow> {
    map j | j in jobs.Keys + JobKeys(s.event) && JobStep(j, Get(jobs, j), s).Some? :: JobStep(j, Get(jobs, j), s).value
  }

  function ApplyCi(t: CiTables, s: Stamped<CiEvent>): CiTables {
    var jobs := StepJobs(t.jobs, s);
    CiTables(Put(t.runs, s.event.runId, RunStep(Get(t.runs, s.event.runId), t.jobs, jobs, s)), jobs)
  }

  function FoldCi(t: CiTables, h: seq<Stamped<CiEvent>>): CiTables {
    if h == [] then t else ApplyCi(FoldCi(t, h[..|h| - 1]), h[|h| - 1])
  }

  lemma {:induction false} FirstSpecListed(jobs: seq<JobSpec>, id: Id)
    ensures FirstSpec(jobs, id).Some? <==> exists i :: 0 <= i < |jobs| && jobs[i].jobId == id
  {
    if jobs != [] {
      FirstSpecListed(jobs[1..], id);
      if i :| 0 < i < |jobs| && jobs[i].jobId == id {
        assert jobs[1..][i - 1].jobId == id;
      }
    }
  }

  /** The jobs table moves row by row. */
  lemma StepJobsPointwise(jobs: map<Id, JobRow>, s: Stamped<CiEvent>, j: Id)
    ensures Get(StepJobs(jobs, s), j) == JobStep(j, Get(jobs, j), s)
  {
    if s.event.RunQueued? {
      FirstSpecListed(s.event.jobs, j);
    }
  }
}
