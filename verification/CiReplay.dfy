/** The same for CI, where a run's row is derived from the rows of its jobs. */
module CiReplay {
  import opened Base
  import opened Events
  import opened Rows

  type CiHistory = seq<Stamped<CiEvent>>

  predicate Lists(e: CiEvent, job: Id) {
    e.RunQueued? && FirstSpec(e.jobs, job).Some?
  }

  predicate Mentions(e: CiEvent, job: Id) {
    Lists(e, job) || (e.JobStarted? && e.jobId == job) || (e.JobFinished? && e.jobId == job)
  }

  /** Every event about a job names one run. */
  ghost predicate OneRun(h: CiHistory) {
    forall i, j, job :: 0 <= i < |h| && 0 <= j < |h| && Mentions(h[i].event, job) && Mentions(h[j].event, job) ==>
      h[i].event.runId == h[j].event.runId
  }

  function FixedJob(r: JobRow): (Id, Id, string, string, Instant) {
    (r.runId, r.repoId, r.name, r.image, r.createdAt)
  }

  function FixedRun(r: RunRow): RunRow {
    r.(status := RunIsQueued, updatedAt := 0, startedAt := None, finishedAt := None)
  }

  ghost predicate QueueAhead(h: CiHistory, p: nat, run: Id) {
    exists i :: p <= i < |h| && h[i].event.RunQueued? && h[i].event.runId == run
  }

  ghost predicate ListedAhead(h: CiHistory, p: nat, job: Id, run: Id) {
    exists i :: p <= i < |h| && Lists(h[i].event, job) && h[i].event.runId == run
  }

  ghost predicate Grown(a: CiTables, b: CiTables, h: CiHistory, p: nat) {
    && (forall j :: j in a.jobs ==> j in b.jobs && FixedJob(b.jobs[j]) == FixedJob(a.jobs[j]))
    && (forall j :: j in b.jobs && j !in a.jobs ==> ListedAhead(h, p, j, b.jobs[j].runId))
    && (forall r :: r in a.runs ==> r in b.runs && FixedRun(b.runs[r]) == FixedRun(a.runs[r]))
  }

  ghost predicate Covers(t: CiTables, e: CiEvent) {
    && (e.RunQueued? ==> e.runId in t.runs)
    && (forall j :: Lists(e, j) ==> j in t.jobs)
  }

  lemma JobAfter(t: CiTables, s: Stamped<CiEvent>, j: Id)
    ensures Get(ApplyCi(t, s).jobs, j) == JobStep(j, Get(t.jobs, j), s)
  {
    StepJobsPointwise(t.jobs, s, j);
  }

  lemma StepGrows(a: CiTables, h: CiHistory, p: nat)
    requires p < |h|
    ensures Grown(a, ApplyCi(a, h[p]), h, p) && Covers(ApplyCi(a, h[p]), h[p].event)
  {
    forall j ensures Get(ApplyCi(a, h[p]).jobs, j) == JobStep(j, Get(a.jobs, j), h[p]) { JobAfter(a, h[p], j); }
    var b := ApplyCi(a, h[p]);
    forall j | j in a.jobs ensures j in b.jobs && FixedJob(b.jobs[j]) == FixedJob(a.jobs[j]) {
      assert Get(b.jobs, j) == JobStep(j, Get(a.jobs, j), h[p]);
    }
    forall j | j in b.jobs && j !in a.jobs ensures ListedAhead(h, p, j, b.jobs[j].runId) {
      assert Get(b.jobs, j) == JobStep(j, Get(a.jobs, j), h[p]);
      assert Lists(h[p].event, j);
    }
    forall j | Lists(h[p].event, j) ensures j in b.jobs {
      assert Get(b.jobs, j) == JobStep(j, Get(a.jobs, j), h[p]);
    }
  }

  lemma GrownTransitive(a: CiTables, b: CiTables, c: CiTables, h: CiHistory, p: nat, q: nat)
    requires p <= q && Grown(a, b, h, p) && Grown(b, c, h, q)
    ensures Grown(a, c, h, p)
  {
    forall k | k in c.jobs && k !in a.jobs ensures ListedAhead(h, p, k, c.jobs[k].runId) {
      if k in b.jobs { assert ListedAhead(h, p, k, b.jobs[k].runId); } else { assert ListedAhead(h, q, k, c.jobs[k].runId); }
    }
  }

  function At(t: CiTables, h: CiHistory, p: nat): CiTables
    requires p <= |h|
  {
    FoldCi(t, h[..p])
  }

  lemma AtNext(t: CiTables, h: CiHistory, p: nat)
    requires p < |h|
    ensures At(t, h, p + 1) == ApplyCi(At(t, h, p), h[p])
  {
    assert h[..p + 1][..p] == h[..p];
  }

  lemma {:induction false} FoldGrows(t: CiTables, h: CiHistory, p: nat, q: nat)
    requires p <= q <= |h|
    ensures Grown(At(t, h, p), At(t, h, q), h, p)
  {
    if p < q {
      FoldGrows(t, h, p, q - 1);
      AtNext(t, h, q - 1);
      StepGrows(At(t, h, q - 1), h, q - 1);
      GrownTransitive(At(t, h, p), At(t, h, q - 1), At(t, h, q), h, p, q - 1);
    }
  }

  lemma FoldCovers(t: CiTables, h: CiHistory, i: nat)
    requires i < |h|
    ensures Covers(At(t, h, |h|), h[i].event)
  {
    AtNext(t, h, i);
    StepGrows(At(t, h, i), h, i);
    FoldGrows(t, h, i + 1, |h|);
  }

  ghost predicate SameKeys(t: CiTables, f: CiTables) {
    && t.jobs.Keys == f.jobs.Keys && t.runs.Keys == f.runs.Keys
    && (forall j :: j in f.jobs ==> FixedJob(t.jobs[j]) == FixedJob(f.jobs[j]))
    && (forall r :: r in f.runs ==> FixedRun(t.runs[r]) == FixedRun(f.runs[r]))
  }

  ghost predicate JobsTrack(s: CiTables, t: CiTables) {
    forall j :: j in s.jobs ==> j in t.jobs && t.jobs[j] == s.jobs[j]
  }

  ghost predicate RunTracks(h: CiHistory, p: nat, s: CiTables, t: CiTables, r: Id)
    requires r in s.runs && r in t.runs
  {
    t.runs[r] == s.runs[r] || QueueAhead(h, p, r)
  }

  /** A replay t against the first pass s at position p, the first pass ending at f:
      jobs agree from their first listing on, runs once they are queued for the last
      time. */
  ghost predicate Tracks(h: CiHistory, p: nat, s: CiTables, t: CiTables, f: CiTables) {
    && SameKeys(t, f) && JobsTrack(s, t)
    && (forall r :: r in s.runs ==> r in t.runs && RunTracks(h, p, s, t, r))
  }

  lemma KeysStay(t: CiTables, f: CiTables, s: Stamped<CiEvent>)
    requires SameKeys(t, f) && Covers(f, s.event)
    ensures SameKeys(ApplyCi(t, s), f)
  {
    var t' := ApplyCi(t, s);
    forall j ensures j in t'.jobs <==> j in f.jobs
      ensures j in f.jobs ==> FixedJob(t'.jobs[j]) == FixedJob(f.jobs[j])
    {
      JobStays(t, s, j);
      assert Lists(s.event, j) ==> j in f.jobs;
    }
  }

  /** A job row is added by listing the job, never lost, and keeps what it is. */
  lemma JobStays(t: CiTables, s: Stamped<CiEvent>, j: Id)
    ensures j in ApplyCi(t, s).jobs <==> j in t.jobs || Lists(s.event, j)
    ensures j in t.jobs ==> FixedJob(ApplyCi(t, s).jobs[j]) == FixedJob(t.jobs[j])
  {
    JobAfter(t, s, j);
  }

  lemma JobsTrackOn(h: CiHistory, p: nat, s: CiTables, t: CiTables, f: CiTables)
    requires p < |h| && SameKeys(t, f) && JobsTrack(s, t) && Grown(ApplyCi(s, h[p]), f, h, p + 1)
    ensures JobsTrack(ApplyCi(s, h[p]), ApplyCi(t, h[p]))
  {
    var (s', t') := (ApplyCi(s, h[p]), ApplyCi(t, h[p]));
    forall j | j in s'.jobs ensures j in t'.jobs && t'.jobs[j] == s'.jobs[j] {
      JobAfter(s, h[p], j);
      JobAfter(t, h[p], j);
      assert FixedJob(s'.jobs[j]) == FixedJob(f.jobs[j]) == FixedJob(t.jobs[j]);
    }
  }

  lemma QueueStillAhead(h: CiHistory, p: nat, r: Id)
    requires p < |h| && QueueAhead(h, p, r) && !(h[p].event.RunQueued? && h[p].event.runId == r)
    ensures QueueAhead(h, p + 1, r)
  {
    var i :| p <= i < |h| && h[i].event.RunQueued? && h[i].event.runId == r;
    assert i != p;
  }

  /** A job the first pass has not met yet is still to be listed, and so its run is
      still to be queued. */
  lemma UnknownJob(h: CiHistory, p: nat, s: CiTables, t: CiTables, f: CiTables, job: Id)
    requires p < |h| && OneRun(h) && SameKeys(t, f) && Grown(s, f, h, p) && Mentions(h[p].event, job)
    requires job !in s.jobs && job in t.jobs && !h[p].event.RunQueued?
    ensures QueueAhead(h, p + 1, h[p].event.runId)
  {
    var i :| p <= i < |h| && Lists(h[i].event, job) && h[i].event.runId == f.jobs[job].runId;
    assert Mentions(h[i].event, job);
    assert i != p;
  }

  lemma SameVerdict(h: CiHistory, p: nat, s: CiTables, t: CiTables, f: CiTables, r: Id)
    requires Grown(s, f, h, p) && SameKeys(t, f) && JobsTrack(s, t) && !QueueAhead(h, p, r)
    ensures Verdict(s.jobs, r) == Verdict(t.jobs, r)
  {
    forall j | j in JobsOf(t.jobs, r) ensures j in s.jobs {
      assert FixedJob(t.jobs[j]) == FixedJob(f.jobs[j]);
      assert ListedAhead(h, p, j, r) ==> QueueAhead(h, p, r);
    }
    assert JobsOf(s.jobs, r) == JobsOf(t.jobs, r);
  }

  lemma OtherRunTracks(h: CiHistory, p: nat, s: CiTables, t: CiTables, r: Id)
    requires p < |h| && r != h[p].event.runId && r in s.runs && r in t.runs && RunTracks(h, p, s, t, r)
    ensures var (s', t') := (ApplyCi(s, h[p]), ApplyCi(t, h[p]));
      r in s'.runs && r in t'.runs && RunTracks(h, p + 1, s', t', r)
  {
    if QueueAhead(h, p, r) {
      QueueStillAhead(h, p, r);
    }
  }

  /** The conditional updates of the two passes take or fail together. */
  lemma SameConditions(h: CiHistory, p: nat, s: CiTables, t: CiTables, f: CiTables)
    requires p < |h| && OneRun(h) && SameKeys(t, f) && JobsTrack(s, t) && Grown(s, f, h, p)
    requires !QueueAhead(h, p + 1, h[p].event.runId)
    ensures Claims(s.jobs, h[p].event) == Claims(t.jobs, h[p].event)
    ensures Finishes(s.jobs, h[p].event) == Finishes(t.jobs, h[p].event)
  {
    var e := h[p].event;
    if (e.JobStarted? || e.JobFinished?) && e.jobId !in s.jobs && e.jobId in t.jobs {
      UnknownJob(h, p, s, t, f, e.jobId);
    }
  }

  lemma SameRunStep(a: RunRow, sb: map<Id, JobRow>, sa: map<Id, JobRow>, tb: map<Id, JobRow>, ta: map<Id, JobRow>, s: Stamped<CiEvent>)
    requires Claims(sb, s.event) == Claims(tb, s.event) && Finishes(sb, s.event) == Finishes(tb, s.event)
    requires Verdict(sa, s.event.runId) == Verdict(ta, s.event.runId)
    ensures RunStep(Some(a), sb, sa, s) == RunStep(Some(a), tb, ta, s)
  {}

  lemma QueuedAlike(a: Option<RunRow>, b: RunRow, sb: map<Id, JobRow>, sa: map<Id, JobRow>, tb: map<Id, JobRow>, ta: map<Id, JobRow>, s: Stamped<CiEvent>)
    requires s.event.RunQueued? && RunStep(a, sb, sa, s).Some? && FixedRun(RunStep(a, sb, sa, s).value) == FixedRun(b)
    ensures RunStep(a, sb, sa, s) == RunStep(Some(b), tb, ta, s)
  {}

  lemma QueuedRunTracks(h: CiHistory, p: nat, s: CiTables, t: CiTables)
    requires p < |h| && h[p].event.RunQueued?
    requires var r := h[p].event.runId; r in t.runs && FixedRun(t.runs[r]) == FixedRun(ApplyCi(s, h[p]).runs[r])
    ensures ApplyCi(t, h[p]).runs[h[p].event.runId] == ApplyCi(s, h[p]).runs[h[p].event.runId]
  {
    var r := h[p].event.runId;
    QueuedAlike(Get(s.runs, r), t.runs[r], s.jobs, ApplyCi(s, h[p]).jobs, t.jobs, ApplyCi(t, h[p]).jobs, h[p]);
  }

  lemma LastQueuedRunTracks(h: CiHistory, p: nat, s: CiTables, t: CiTables, f: CiTables)
    requires p < |h| && OneRun(h) && SameKeys(t, f) && JobsTrack(s, t) && Grown(s, f, h, p)
    requires Grown(ApplyCi(s, h[p]), f, h, p + 1) && SameKeys(ApplyCi(t, h[p]), f)
    requires JobsTrack(ApplyCi(s, h[p]), ApplyCi(t, h[p]))
    requires !h[p].event.RunQueued? && !QueueAhead(h, p + 1, h[p].event.runId)
    requires var r := h[p].event.runId; r in s.runs && r in t.runs && RunTracks(h, p, s, t, r)
    ensures Get(ApplyCi(t, h[p]).runs, h[p].event.runId) == Get(ApplyCi(s, h[p]).runs, h[p].event.runId)
  {
    var r := h[p].event.runId;
    if QueueAhead(h, p, r) {
      QueueStillAhead(h, p, r);
    }
    SameConditions(h, p, s, t, f);
    SameVerdict(h, p + 1, ApplyCi(s, h[p]), ApplyCi(t, h[p]), f, r);
    SameRunStep(s.runs[r], s.jobs, ApplyCi(s, h[p]).jobs, t.jobs, ApplyCi(t, h[p]).jobs, h[p]);
  }

  lemma RunTracksOn(h: CiHistory, p: nat, s: CiTables, t: CiTables, f: CiTables, r: Id)
    requires p < |h| && OneRun(h) && Tracks(h, p, s, t, f) && Grown(s, f, h, p)
    requires Grown(ApplyCi(s, h[p]), f, h, p + 1) && SameKeys(ApplyCi(t, h[p]), f)
    requires JobsTrack(ApplyCi(s, h[p]), ApplyCi(t, h[p])) && r in ApplyCi(s, h[p]).runs
    ensures r in ApplyCi(t, h[p]).runs && RunTracks(h, p + 1, ApplyCi(s, h[p]), ApplyCi(t, h[p]), r)
  {
    assert r in f.runs && r in t.runs;
    if h[p].event.runId != r {
      OtherRunTracks(h, p, s, t, r);
    } else if h[p].event.RunQueued? {
      QueuedRunTracks(h, p, s, t);
    } else if !QueueAhead(h, p + 1, r) {
      OnlyQueueingAdds(s, h[p]);
      LastQueuedRunTracks(h, p, s, t, f);
    }
  }

  lemma OnlyQueueingAdds(s: CiTables, e: Stamped<CiEvent>)
    requires !e.event.RunQueued? && e.event.runId in ApplyCi(s, e).runs
    ensures e.event.runId in s.runs
  {}

  lemma TracksOn(h: CiHistory, p: nat, s: CiTables, t: CiTables, f: CiTables)
    requires p < |h| && OneRun(h) && Tracks(h, p, s, t, f) && Covers(f, h[p].event)
    requires Grown(s, f, h, p) && Grown(ApplyCi(s, h[p]), f, h, p + 1)
    ensures Tracks(h, p + 1, ApplyCi(s, h[p]), ApplyCi(t, h[p]), f)
  {
    var (s', t') := (ApplyCi(s, h[p]), ApplyCi(t, h[p]));
    KeysStay(t, f, h[p]);
    JobsTrackOn(h, p, s, t, f);
    forall r | r in s'.runs ensures r in t'.runs && RunTracks(h, p + 1, s', t', r) {
      RunTracksOn(h, p, s, t, f, r);
    }
  }

  lemma {:induction false} ReplayTracks(h: CiHistory, p: nat)
    requires p <= |h| && OneRun(h)
    ensures var f := FoldCi(NO_CI, h); Tracks(h, p, At(NO_CI, h, p), At(f, h, p), f)
  {
    var f := FoldCi(NO_CI, h);
    assert h[..|h|] == h;
    if p > 0 {
      ReplayTracks(h, p - 1);
      AtNext(NO_CI, h, p - 1);
      AtNext(f, h, p - 1);
      FoldCovers(NO_CI, h, p - 1);
      FoldGrows(NO_CI, h, p - 1, |h|);
      FoldGrows(NO_CI, h, p, |h|);
      TracksOn(h, p - 1, At(NO_CI, h, p - 1), At(f, h, p - 1), f);
    }
  }

  /** Replaying every CI event over the tables they produced changes no run and no
      job, provided each job's events name one run. */
  lemma CiHistoryReplays(h: CiHistory)
    requires OneRun(h)
    ensures var f := FoldCi(NO_CI, h); FoldCi(f, h) == f
  {
    var f := FoldCi(NO_CI, h);
    ReplayTracks(h, |h|);
    assert h[..|h|] == h;
    var t := FoldCi(f, h);
    assert t.jobs == f.jobs;
    forall r | r in f.runs ensures t.runs[r] == f.runs[r] { assert RunTracks(h, |h|, f, t, r) && !QueueAhead(h, |h|, r); }
    assert t.runs == f.runs;
  }

  /** The proviso is needed: a start that names another run than the one its job is
      later queued under is ignored the first time and obeyed in the replay. */
  lemma {:induction false} CrossedRunsDoNotReplay(a: Id, b: Id, repo: Id, job: Id)
    requires a != b
    ensures var h := [Stamped(RunQueued(a, repo, 1, "", "", ZERO, "", "", []), 1), Stamped(JobStarted(job, a, repo, 1, 0), 2),
                      Stamped(RunQueued(b, repo, 2, "", "", ZERO, "", "", [JobSpec(job, "", "")]), 3)];
      var f := FoldCi(NO_CI, h); FoldCi(f, h) != f
  {
    var h := [Stamped(RunQueued(a, repo, 1, "", "", ZERO, "", "", []), 1), Stamped(JobStarted(job, a, repo, 1, 0), 2),
              Stamped(RunQueued(b, repo, 2, "", "", ZERO, "", "", [JobSpec(job, "", "")]), 3)];
    var f := FoldCi(NO_CI, h);
    Three(NO_CI, h);
    Three(f, h);
    assert Lists(h[2].event, job);
    var (n1, n2) := (ApplyCi(NO_CI, h[0]), ApplyCi(ApplyCi(NO_CI, h[0]), h[1]));
    JobAfter(NO_CI, h[0], job);
    JobAfter(n1, h[1], job);
    JobAfter(n2, h[2], job);
    assert f.runs[a].status == RunIsQueued && f.jobs[job].status == JobQueued;
    var (r1, r2) := (ApplyCi(f, h[0]), ApplyCi(ApplyCi(f, h[0]), h[1]));
    JobAfter(f, h[0], job);
    assert Claims(r1.jobs, h[1].event) && r2.runs[a].status == RunIsRunning;
    assert ApplyCi(r2, h[2]).runs[a].status == RunIsRunning;
  }

  lemma Three(t: CiTables, h: CiHistory)
    requires |h| == 3
    ensures FoldCi(t, h) == ApplyCi(ApplyCi(ApplyCi(t, h[0]), h[1]), h[2])
  {
    assert h[..0] == [] && At(t, h, 0) == t;
    AtNext(t, h, 0);
    AtNext(t, h, 1);
    AtNext(t, h, 2);
    assert h[..3] == h;
  }

  /** A CI event delivered twice changes nothing the second time. */
  lemma {:induction false} CiEventTwice(t: CiTables, s: Stamped<CiEvent>)
    ensures ApplyCi(ApplyCi(t, s), s) == ApplyCi(t, s)
  {
    var (once, twice) := (ApplyCi(t, s), ApplyCi(ApplyCi(t, s), s));
    forall j ensures Get(twice.jobs, j) == Get(once.jobs, j) {
      JobAfter(t, s, j);
      JobAfter(once, s, j);
    }
    MapsAgree(twice.jobs, once.jobs);
    if s.event.JobStarted? || s.event.JobFinished? {
      JobAfter(t, s, s.event.jobId);
    }
    assert Get(twice.runs, s.event.runId) == Get(once.runs, s.event.runId);
    assert twice.runs == once.runs;
  }
}
