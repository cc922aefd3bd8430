/** The projection as the program performs it: read a row, change its fields, upsert
    it, and recompute what is derived. Each method ends in the tables the row steps
    of module Rows prescribe. */
module Store {
  import opened Base
  import opened Events
  import opened Rows

  class Tables {
    var users: map<Id, UserRow>
    var repos: map<Id, RepoRow>
    var pulls: map<Id, PullRow>
    var reviews: map<Id, ReviewRow>
    var issues: map<Id, IssueRow>
    var comments: map<Id, CommentRow>
    var counters: map<Id, Counters>
    var runs: map<Id, RunRow>
    var jobs: map<Id, JobRow>

    constructor ()
      ensures users == map[] && repos == map[] && pulls == map[] && reviews == map[]
      ensures IssueRows() == NO_ISSUES && CiRows() == NO_CI
    {
      users, repos, pulls, reviews := map[], map[], map[], map[];
      issues, comments, counters, runs, jobs := map[], map[], map[], map[], map[];
    }

    function IssueRows(): IssueTables
      reads this
    {
      IssueTables(issues, comments, counters)
    }

    function CiRows(): CiTables
      reads this
    {
      CiTables(runs, jobs)
    }

    // ---- Users and repositories ----

    /** INSERT ... ON CONFLICT DO UPDATE of every column but the birthday. */
    method UpsertUser(id: Id, row: UserRow)
      modifies this`users
      ensures users == old(users)[id := if id in old(users) then row.(createdAt := old(users)[id].createdAt) else row]
    {
      users := users[id := if id in users then row.(createdAt := users[id].createdAt) else row];
    }

    method ApplyUserEvent(e: UserEvent, at: Instant)
      modifies this`users
      ensures users == Put(old(users), UserOf(e), UserStep(Get(old(users), UserOf(e)), Stamped(e, at)))
    {
      match e {
        case Registered(id, username, lower, email, hash) =>
          UpsertUser(id, UserRow(username, lower, email, hash, None, None, true, at, at));
        case ProfileUpdated(id, displayName, bio) =>
          if id in users {
            var existing := users[id].(displayName := displayName, bio := bio);
            UpsertUser(id, existing.(updatedAt := at));
          }
        case Deactivated(id) =>
          if id in users {
            var existing := users[id].(active := false);
            UpsertUser(id, existing.(updatedAt := at));
          }
      }
    }

    method UpsertRepo(id: Id, row: RepoRow)
      modifies this`repos
      ensures repos == old(repos)[id := if id in old(repos) then row.(createdAt := old(repos)[id].createdAt) else row]
    {
      repos := repos[id := if id in repos then row.(createdAt := repos[id].createdAt) else row];
    }

    method ApplyRepoEvent(e: RepoEvent, at: Instant)
      modifies this`repos
      ensures repos == Put(old(repos), RepoOf(e), RepoStep(Get(old(repos), RepoOf(e)), Stamped(e, at)))
    {
      var id := e.repoId;
      if e.CollaboratorAdded? || e.CollaboratorRemoved? {
        return;
      }
      if e.Created? {
        UpsertRepo(id, RepoRow(e.ownerId, e.ownerName, e.name, e.fullNameLower, e.description, e.defaultBranch,
                               e.visibility, at, at, false));
        return;
      }
      if id !in repos {
        return;
      }
      var record := repos[id];
      match e {
        case Renamed(_, name, full) => record := record.(name := name, fullNameLower := full);
        case DescriptionChanged(_, description) => record := record.(description := description);
        case VisibilityChanged(_, visibility) => record := record.(visibility := visibility);
        case DefaultBranchChanged(_, branch) => record := record.(defaultBranch := branch);
        case _ => record := record.(deleted := true);
      }
      UpsertRepo(id, record.(updatedAt := at));
    }

    // ---- Pull requests ----

    /** What a request was opened between is left out of the update. */
    method UpsertPull(id: Id, row: PullRow)
      modifies this`pulls
      ensures pulls == old(pulls)[id :=
        if id !in old(pulls) then row
        else var p := old(pulls)[id];
          row.(repoId := p.repoId, number := p.number, authorId := p.authorId, authorName := p.authorName,
               sourceBranch := p.sourceBranch, targetBranch := p.targetBranch, createdAt := p.createdAt)]
    {
      var stored := row;
      if id in pulls {
        var p := pulls[id];
        stored := p.(title := row.title, body := row.body, state := row.state, headOid := row.headOid,
                     baseOid := row.baseOid, check := row.check, mergeCommit := row.mergeCommit,
                     mergedByName := row.mergedByName, commentCount := row.commentCount,
                     updatedAt := row.updatedAt, mergedAt := row.mergedAt, closedAt := row.closedAt);
      }
      pulls := pulls[id := stored];
    }

    /** The commits are part of the WHERE, so a late answer about older ones is lost. */
    method RecordCheck(id: Id, check: MergeCheck, at: Instant) returns (stored: bool)
      modifies this`pulls
      ensures stored <==> id in old(pulls) && old(pulls)[id].headOid == check.head && old(pulls)[id].baseOid == check.base
      ensures pulls == if stored then old(pulls)[id := old(pulls)[id].(check := Some(check), updatedAt := at)] else old(pulls)
    {
      stored := id in pulls && pulls[id].headOid == check.head && pulls[id].baseOid == check.base;
      if stored {
        pulls := pulls[id := pulls[id].(check := Some(check), updatedAt := at)];
      }
    }

    method InsertReview(id: Id, row: ReviewRow)
      modifies this`reviews
      ensures reviews == if id in old(reviews) then old(reviews) else old(reviews)[id := row]
    {
      if id !in reviews {
        reviews := reviews[id := row];
      }
    }

    method ApplyPrEvent(e: PrEvent, at: Instant)
      modifies this`pulls, this`reviews
      ensures pulls == Put(old(pulls), e.prId, PullStep(Get(old(pulls), e.prId), Stamped(e, at)))
      ensures e.Reviewed? ==>
                reviews == Put(old(reviews), e.reviewId, ReviewStep(Get(old(reviews), e.reviewId), Stamped(e, at)))
      ensures !e.Reviewed? ==> reviews == old(reviews)
    {
      var id := e.prId;
      match e {
        case PrOpened(_, repo, number, title, body, author, authorName, source, target, head, base) =>
          UpsertPull(id, PullRow(repo, number, title, body, author, authorName, PullOpen, source, target, head, base,
                                 None, None, None, 0, at, at, None, None));
        case MergeabilityComputed(_, _, head, base, mergeable, conflicts) =>
          var check := if mergeable then MergeCheck(true, head, base, []) else MergeCheck(false, head, base, conflicts);
          var _ := RecordCheck(id, check, at);
        case Reviewed(review, pr, repo, reviewer, name, verdict, remark) =>
          InsertReview(review, ReviewRow(pr, repo, reviewer, name, verdict, remark, at));
        case _ =>
          if id in pulls {
            var pr := Mutate(pulls[id], e, at);
            UpsertPull(id, pr.(updatedAt := at));
          }
      }
    }

    /** The field changes of the events that update an existing request. */
    static function Mutate(pr: PullRow, e: PrEvent, at: Instant): (r: PullRow)
      ensures r.repoId == pr.repoId && r.number == pr.number && r.createdAt == pr.createdAt
      ensures pr.state == PullMerged && !e.Merged? && !e.Synchronized? ==> r == pr
    {
      match e
      case Synchronized(_, _, head, base) => pr.(headOid := head, baseOid := base)
      case Merged(_, _, commit, _, name) =>
        pr.(state := PullMerged, mergeCommit := Some(commit), mergedByName := Some(name), mergedAt := Some(at), closedAt := Some(at))
      case PrClosed(_, _, _) =>
        if pr.state != PullMerged then pr.(state := PullClosed, closedAt := Some(at)) else pr
      case PrReopened(_, _, _) =>
        if pr.state != PullMerged then pr.(state := PullOpen, closedAt := None, check := None) else pr
      case _ => pr
    }

    // ---- Issues ----

    method UpsertIssue(id: Id, row: IssueRow)
      modifies this`issues
      ensures issues == old(issues)[id :=
        if id !in old(issues) then row
        else var p := old(issues)[id];
          row.(repoId := p.repoId, number := p.number, authorId := p.authorId, authorName := p.authorName, createdAt := p.createdAt)]
    {
      var stored := row;
      if id in issues {
        stored := issues[id].(title := row.title, body := row.body, open := row.open, commentCount := row.commentCount,
                              updatedAt := row.updatedAt, closedAt := row.closedAt);
      }
      issues := issues[id := stored];
    }

    method InsertComment(id: Id, row: CommentRow)
      modifies this`comments
      ensures comments == if id in old(comments) then old(comments) else old(comments)[id := row]
    {
      if id !in comments {
        comments := comments[id := row];
      }
    }

    /** Recompute a repository's counters from its issues. */
    method RefreshCounters(repo: Id)
      modifies this`counters
      ensures counters == old(counters)[repo := CountIssues(issues, repo)]
    {
      var open := |IssuesIn(issues, repo, true)|;
      var closed := |IssuesIn(issues, repo, false)|;
      counters := counters[repo := Counters(open, closed)];
    }

    method ApplyIssueEvent(e: IssueEvent, at: Instant)
      modifies this`issues, this`comments, this`counters
      ensures IssueRows() == ApplyIssue(old(IssueRows()), Stamped(e, at))
    {
      var id := e.issueId;
      PutSame(issues, id);
      match e {
        case IssueOpened(_, repo, number, title, body, author, authorName) =>
          UpsertIssue(id, IssueRow(repo, number, title, body, author, authorName, true, 0, at, at, None));
          RefreshCounters(repo);
        case Commented(comment, _, repo, author, name, text) =>
          PutSame(comments, comment);
          InsertComment(comment, CommentRow(id, repo, author, name, text, at, at));
          if id in issues {
            var page := Min(PAGE, |CommentsOn(comments, id)|);
            UpsertIssue(id, issues[id].(commentCount := page, updatedAt := at));
          }
        case TitleChanged(_, _, title) =>
          if id in issues {
            UpsertIssue(id, issues[id].(title := title, updatedAt := at));
          }
        case IssueClosed(_, repo, _) =>
          if id in issues {
            UpsertIssue(id, issues[id].(open := false, closedAt := Some(at), updatedAt := at));
          }
          RefreshCounters(repo);
        case IssueReopened(_, repo, _) =>
          if id in issues {
            UpsertIssue(id, issues[id].(open := true, closedAt := None, updatedAt := at));
          }
          RefreshCounters(repo);
      }
    }

    // ---- CI ----

    method UpsertRun(id: Id, row: RunRow)
      modifies this`runs
      ensures runs == old(runs)[id :=
        if id !in old(runs) then row
        else old(runs)[id].(status := row.status, updatedAt := row.updatedAt, startedAt := row.startedAt, finishedAt := row.finishedAt)]
    {
      runs := runs[id :=
        if id !in runs then row
        else runs[id].(status := row.status, updatedAt := row.updatedAt, startedAt := row.startedAt, finishedAt := row.finishedAt)];
    }

    method UpsertJob(id: Id, row: JobRow)
      modifies this`jobs
      ensures jobs == old(jobs)[id := if id in old(jobs) then Reset(old(jobs)[id], row) else row]
    {
      jobs := jobs[id := if id in jobs then Reset(jobs[id], row) else row];
    }

    /** The columns an upsert of a job overwrites. */
    static function Reset(stored: JobRow, row: JobRow): (r: JobRow)
      ensures r.runId == stored.runId && r.name == stored.name && r.image == stored.image && r.createdAt == stored.createdAt
      ensures r.status == row.status && r.attempt == row.attempt
    {
      stored.(status := row.status, attempt := row.attempt, exitCode := row.exitCode, logOffset := row.logOffset,
              updatedAt := row.updatedAt, startedAt := row.startedAt, finishedAt := row.finishedAt)
    }

    /** Claim a job unless someone already has it. */
    method ClaimJob(id: Id, attempt: int, logOffset: int, at: Instant) returns (claimed: bool)
      modifies this`jobs
      ensures claimed <==> id in old(jobs) && old(jobs)[id].status == JobQueued
      ensures !claimed ==> jobs == old(jobs)
      ensures claimed ==>
        jobs == old(jobs)[id := old(jobs)[id].(status := JobRunning, attempt := attempt, logOffset := Some(logOffset),
                                               startedAt := Some(at), updatedAt := at)]
    {
      claimed := id in jobs && jobs[id].status == JobQueued;
      if claimed {
        jobs := jobs[id := jobs[id].(status := JobRunning, attempt := attempt, logOffset := Some(logOffset),
                                     startedAt := Some(at), updatedAt := at)];
      }
    }

    /** Record how a job ended, if this attempt is the one that owns it. */
    method FinishJob(id: Id, attempt: int, conclusion: JobConclusion, exitCode: Option<int>, at: Instant) returns (applied: bool)
      modifies this`jobs
      ensures applied <==> id in old(jobs) && old(jobs)[id].attempt == attempt
      ensures !applied ==> jobs == old(jobs)
      ensures applied ==>
        jobs == old(jobs)[id := old(jobs)[id].(status := JobEnded(conclusion), exitCode := exitCode,
                                               finishedAt := Some(at), updatedAt := at)]
    {
      applied := id in jobs && jobs[id].attempt == attempt;
      if applied {
        jobs := jobs[id := jobs[id].(status := JobEnded(conclusion), exitCode := exitCode,
                                     finishedAt := Some(at), updatedAt := at)];
      }
    }

    /** A run is as good as its worst job. */
    static method ConcludeFrom(conclusions: seq<JobConclusion>) returns (c: RunConclusion)
      ensures c == FromJobs(conclusions)
    {
      var cancelledOnly, any := true, false;
      for i := 0 to |conclusions|
        invariant any <==> i > 0
        invariant forall k :: 0 <= k < i ==> conclusions[k] == JobSuccess || conclusions[k] == JobCancelled
        invariant cancelledOnly <==> forall k :: 0 <= k < i ==> conclusions[k] == JobCancelled
      {
        any := true;
        match conclusions[i] {
          case JobSuccess => cancelledOnly := false;
          case JobCancelled =>
          case _ => return RunFailed;
        }
      }
      c := if any && cancelledOnly then RunCancelled else RunSuccess;
    }

    /** Whether every job of a run has ended, and how it went. */
    method ConcludeRun(run: Id) returns (verdict: Option<RunConclusion>)
      ensures verdict == Verdict(jobs, run)
    {
      var mine := JobsOf(jobs, run);
      var rest := mine;
      ghost var read: seq<Id> := [];
      var conclusions: seq<JobConclusion> := [];
      while rest != {}
        invariant rest <= mine && |read| == |conclusions|
        invariant forall j :: j in mine <==> j in rest || j in read
        invariant forall i :: 0 <= i < |read| ==> read[i] in mine && jobs[read[i]].status == JobEnded(conclusions[i])
        decreases |rest|
      {
        var j :| j in rest;
        if !jobs[j].status.JobEnded? {
          return None;
        }
        rest, conclusions := rest - {j}, conclusions + [jobs[j].status.conclusion];
        read := read + [j];
      }
      if conclusions == [] {
        return None;
      }
      var c := ConcludeFrom(conclusions);
      OrderDoesNotMatter(jobs, run, read, conclusions);
      verdict := Some(c);
    }

    method ApplyCiEvent(e: CiEvent, at: Instant)
      modifies this`runs, this`jobs
      ensures CiRows() == ApplyCi(old(CiRows()), Stamped(e, at))
    {
      ghost var s := Stamped(e, at);
      match e {
        case RunQueued(run, repo, number, workflow, trigger, head, refName, actor, specs) =>
          UpsertRun(run, RunRow(repo, number, workflow, trigger, head, refName, actor, RunIsQueued, at, at, None, None));
          QueueJobs(run, repo, specs, at);
          JobsAre(old(jobs), s, jobs);
        case JobStarted(job, run, _, attempt, logOffset) =>
          var claimed := ClaimJob(job, attempt, logOffset, at);
          JobsAre(old(jobs), s, jobs);
          if claimed && run in runs && runs[run].status == RunIsQueued {
            UpsertRun(run, runs[run].(status := RunIsRunning, updatedAt := at, startedAt := Some(at)));
          }
        case JobFinished(job, run, _, attempt, conclusion, exitCode) =>
          var applied := FinishJob(job, attempt, conclusion, exitCode, at);
          JobsAre(old(jobs), s, jobs);
          if applied {
            var verdict := ConcludeRun(run);
            if verdict.Some? && run in runs && !runs[run].status.RunEnded? {
              UpsertRun(run, runs[run].(status := RunEnded(verdict.value), updatedAt := at, finishedAt := Some(at)));
            }
          }
        case RunFinished(run, _, verdict) =>
          JobsAre(old(jobs), s, jobs);
          if run in runs {
            UpsertRun(run, runs[run].(status := RunEnded(verdict), updatedAt := at, finishedAt := Some(at)));
          }
      }
    }

    method QueueJobs(run: Id, repo: Id, specs: seq<JobSpec>, at: Instant)
      modifies this`jobs
      ensures forall j :: Get(jobs, j) == QueuedRow(run, repo, specs, at, j, Get(old(jobs), j))
    {
      for i := 0 to |specs|
        invariant forall j :: Get(jobs, j) == QueuedRow(run, repo, specs[..i], at, j, Get(old(jobs), j))
      {
        var id := specs[i].jobId;
        UpsertJob(id, JobRow(run, repo, specs[i].name, specs[i].image, JobQueued, 0, None, None, at, at, None, None));
        forall j ensures Get(jobs, j) == QueuedRow(run, repo, specs[..i + 1], at, j, Get(old(jobs), j)) {
          FirstSpecAppend(specs[..i], specs[i], j);
          assert specs[..i + 1] == specs[..i] + [specs[i]];
        }
      }
      assert specs[..|specs|] == specs;
    }
  }

  function QueuedRow(run: Id, repo: Id, specs: seq<JobSpec>, at: Instant, j: Id, row: Option<JobRow>): Option<JobRow> {
    JobStep(j, row, Stamped(RunQueued(run, repo, 0, "", "", ZERO, "", "", specs), at))
  }

  lemma {:induction false} FirstSpecAppend(specs: seq<JobSpec>, last: JobSpec, j: Id)
    ensures FirstSpec(specs + [last], j) ==
            if FirstSpec(specs, j).Some? then FirstSpec(specs, j) else if last.jobId == j then Some(last) else None
  {
    if specs != [] {
      FirstSpecAppend(specs[1..], last, j);
      assert (specs + [last])[1..] == specs[1..] + [last];
    } else {
      assert specs + [last] == [last];
    }
  }

  lemma JobsAre(before: map<Id, JobRow>, s: Stamped<CiEvent>, after: map<Id, JobRow>)
    requires forall j :: Get(after, j) == JobStep(j, Get(before, j), s)
    ensures after == StepJobs(before, s)
  {
    forall j ensures Get(after, j) == Get(StepJobs(before, s), j) {
      StepJobsPointwise(before, s, j);
    }
    MapsAgree(after, StepJobs(before, s));
  }

  /** However the rows of a run's jobs are ordered, and even if one were read twice,
      the verdict is the same. */
  lemma OrderDoesNotMatter(jobs: map<Id, JobRow>, run: Id, read: seq<Id>, conclusions: seq<JobConclusion>)
    requires |read| == |conclusions| > 0
    requires forall j :: j in JobsOf(jobs, run) <==> j in read
    requires forall i :: 0 <= i < |read| ==> read[i] in jobs && jobs[read[i]].status == JobEnded(conclusions[i])
    ensures Verdict(jobs, run) == Some(FromJobs(conclusions))
  {
    var mine := JobsOf(jobs, run);
    assert read[0] in mine;
    forall j | j in mine ensures exists i :: 0 <= i < |read| && read[i] == j {}
    if i :| 0 <= i < |conclusions| && conclusions[i] != JobSuccess && conclusions[i] != JobCancelled {
      assert read[i] in mine;
    }
    if forall i :: 0 <= i < |conclusions| ==> conclusions[i] == JobCancelled {
      assert forall j :: j in mine ==> jobs[j].status == JobEnded(JobCancelled);
    } else {
      var i :| 0 <= i < |conclusions| && conclusions[i] != JobCancelled;
      assert read[i] in mine;
    }
  }
}
