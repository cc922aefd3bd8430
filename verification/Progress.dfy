/** What the protocols can always go on to do: nothing that was promised of their runs is
    owed to their being stuck. */
module Progress {
  import opened Base
  import opened Events
  import opened KeyedLog
  import opened Commands
  import P = Protocol
  import ProtocolProofs
  import C = CiProtocol
  import CiReplay
  import Rows
  import Runner
  import F = PushOrder
  import Push

  // ---- Taking over ----

  /** Where a list of steps leads, if each is enabled when it is made. */
  ghost function After(w: P.World, steps: seq<P.Step>): Option<P.World> {
    if steps == [] then Some(w)
    else
      match After(w, steps[..|steps| - 1])
      case None => None
      case Some(v) => if P.Enabled(v, steps[|steps| - 1]) then Some(P.Next(v, steps[|steps| - 1])) else None
  }

  lemma AfterOne(w: P.World, steps: seq<P.Step>, v: P.World, s: P.Step)
    requires After(w, steps) == Some(v) && P.Enabled(v, s)
    ensures After(w, steps + [s]) == Some(P.Next(v, s))
  {
    assert (steps + [s])[..|steps|] == steps;
  }

  /** A process that serves, is the newest and has nothing in flight. */
  ghost predicate InCharge(w: P.World, p: nat) {
    P.IsServing(w, p) && w.procs[p].epoch == w.epoch && !w.procs[p].fenced && w.procs[p].flight.None?
  }

  /** Whatever the newest process decides to write, it can commit, and go on. */
  lemma CommandsCanCommit(w: P.World, p: nat, c: Command)
    requires P.Inv(w) && InCharge(w, p) && Decide(P.Fold(w.history), c).Write?
    ensures var (d, w') := (Decide(P.Fold(w.history), c), After(w, [P.Begin(p, c), P.Settle(true), P.Hear(p, P.HeardCommitted)]));
      && w'.Some? && InCharge(w'.value, p)
      && w'.value.history == w.history + [P.Txn(c, d.records, true)]
      && w'.value.procs[p].state == d.next == P.Fold(w'.value.history)
  {
    assert P.ProcOk(w, p);
    var begin, settle, hear := P.Begin(p, c), P.Settle(true), P.Hear(p, P.HeardCommitted);
    AfterOne(w, [], w, begin);
    var v := P.Next(w, begin);
    AfterOne(w, [begin], v, settle);
    var u := P.Next(v, settle);
    AfterOne(w, [begin, settle], u, hear);
    assert [] + [begin] == [begin] && [begin] + [settle] == [begin, settle] && [begin, settle] + [hear] == [begin, settle, hear];
    RememberingIsFolding(P.Fold(w.history), c);
    ProtocolProofs.FoldAppend(w.history, P.Txn(c, Decide(P.Fold(w.history), c).records, true));
  }

  ghost function FetchAll(p: nat, claims: bool, upTo: nat): seq<P.Step> {
    if upTo == 0 then [] else [if claims then P.FetchClaims(p, upTo) else P.FetchRefs(p, upTo)]
  }

  /** Boot, read both topics to the end, serve. */
  ghost function TakeOver(p: nat, settle: bool, claims: nat, refs: nat): seq<P.Step> {
    [P.Boot(p, settle)] + FetchAll(p, true, claims) + [P.ClaimsCaughtUp(p)] + FetchAll(p, false, refs) + [P.RefsCaughtUp(p)]
  }

  /** Any process that is not alive can take over at any moment, whoever else is at work
      and whatever is in flight, and then serves the fold of all that was committed. */
  lemma AnyoneCanTakeOver(w: P.World, p: nat, settle: bool)
    requires P.Inv(w) && !P.Alive(w, p)
    ensures var booted := P.Next(w, P.Boot(p, settle));
      var w' := After(w, TakeOver(p, settle, |booted.claimsTopic|, |booted.refsTopic|));
      && w'.Some? && InCharge(w'.value, p)
      && w'.value.epoch == w.epoch + 1 && w'.value.history == booted.history && w.history <= booted.history
      && w'.value.procs[p].state == P.Fold(booted.history)
  {
    var boot := P.Boot(p, settle);
    var v := P.Next(w, boot);
    AfterOne(w, [], w, boot);
    assert [] + [boot] == [boot];
    ProtocolProofs.StepKeeps(w, boot);
    assert v.procs[p] == P.Booting(w.epoch + 1, false, 0, map[], 0, map[]);
    FetchesClaims(w, [boot], v, p);
    var done := v.(procs := v.procs[p := P.Booting(w.epoch + 1, true, |v.claimsTopic|, P.Fold(v.history).catalog, 0, map[])]);
    FetchesRefs(w, [boot] + FetchAll(p, true, |v.claimsTopic|) + [P.ClaimsCaughtUp(p)], done, p);
  }

  ghost predicate Reads(v: P.World, p: nat, claimsDone: bool, claimsAt: nat, catalog: map<string, Claim>, refsAt: nat, refs: map<string, Oid>) {
    P.IsBooting(v, p) && v.procs[p] == P.Booting(v.epoch, claimsDone, claimsAt, catalog, refsAt, refs)
  }

  lemma FetchesClaims(w: P.World, pre: seq<P.Step>, v: P.World, p: nat)
    requires After(w, pre) == Some(v) && P.TopicsFold(v) && Reads(v, p, false, 0, map[], 0, map[])
    ensures After(w, pre + FetchAll(p, true, |v.claimsTopic|) + [P.ClaimsCaughtUp(p)]) ==
            Some(v.(procs := v.procs[p := P.Booting(v.epoch, true, |v.claimsTopic|, P.Fold(v.history).catalog, 0, map[])]))
  {
    var n := |v.claimsTopic|;
    var u := v.(procs := v.procs[p := P.Booting(v.epoch, false, n, P.Fold(v.history).catalog, 0, map[])]);
    assert v.claimsTopic[0..n] == v.claimsTopic;
    if n == 0 {
      assert FetchAll(p, true, n) == [] && pre + [] == pre;
      assert v.claimsTopic == [] && u.procs == v.procs;
      assert u == v;
    } else {
      AfterOne(w, pre, v, P.FetchClaims(p, n));
      assert FetchAll(p, true, n) == [P.FetchClaims(p, n)];
    }
    AfterOne(w, pre + FetchAll(p, true, n), u, P.ClaimsCaughtUp(p));
    assert u.procs[p := P.Booting(v.epoch, true, n, P.Fold(v.history).catalog, 0, map[])] == v.procs[p := P.Booting(v.epoch, true, n, P.Fold(v.history).catalog, 0, map[])];
  }

  lemma FetchesRefs(w: P.World, pre: seq<P.Step>, v: P.World, p: nat)
    requires After(w, pre) == Some(v) && P.TopicsFold(v) && Reads(v, p, true, |v.claimsTopic|, P.Fold(v.history).catalog, 0, map[])
    ensures After(w, pre + FetchAll(p, false, |v.refsTopic|) + [P.RefsCaughtUp(p)]) ==
            Some(v.(procs := v.procs[p := P.Serving(v.epoch, P.Fold(v.history), false, None)]))
  {
    var n := |v.refsTopic|;
    var u := v.(procs := v.procs[p := P.Booting(v.epoch, true, |v.claimsTopic|, P.Fold(v.history).catalog, n, P.Fold(v.history).refs)]);
    assert v.refsTopic[0..n] == v.refsTopic;
    if n == 0 {
      assert FetchAll(p, false, n) == [] && pre + [] == pre;
      assert v.refsTopic == [] && u.procs == v.procs;
      assert u == v;
    } else {
      AfterOne(w, pre, v, P.FetchRefs(p, n));
      assert FetchAll(p, false, n) == [P.FetchRefs(p, n)];
    }
    AfterOne(w, pre + FetchAll(p, false, n), u, P.RefsCaughtUp(p));
    assert u.procs[p := P.Serving(v.epoch, P.Fold(v.history), false, None)] == v.procs[p := P.Serving(v.epoch, P.Fold(v.history), false, None)];
  }

  // ---- Running a job ----

  /** Nothing fails from the claim to the end. */
  predicate Calm(s: Runner.Weather) {
    s.claim.Confirmed? && s.start.Confirmed? && s.logKept && s.end.Confirmed?
  }

  /** Whatever was announced can be queued, and any of its jobs that waits can be run by
      any idle runner, which leaves both its reports in the log and the runner idle. */
  lemma JobsCanRun(w: C.Ci, k: nat, i: nat, lease: Runner.Lease, s: Runner.Weather)
    requires k < |w.log| && w.log[k].event.RunQueued? && CiReplay.Lists(w.log[k].event, lease.job.job)
    requires lease.job.run == w.log[k].event.runId && lease.job.repo == w.log[k].event.repoId && lease.attempt >= 1
    requires i < |w.runners| && w.runners[i].Idle? && C.Waits(w.live.jobs, lease.job.job) && Calm(s)
    ensures C.Enabled(w, C.Enqueue(k))
    ensures var w' := Runner.After(C.Next(w, C.Enqueue(k)), Runner.Walk(i, lease, true, s));
      && w'.Some? && w'.value.runners == w.runners && w'.value.taken == w.taken + [lease.job.job]
      && |w'.value.log| == |w.log| + 2 && Runner.Leaves(lease, s, w'.value.log[|w.log|..])
  {
    ListedIsKeyed(w.log[k].event.jobs, lease.job.job);
    Runner.StepIsAWalk(C.Next(w, C.Enqueue(k)), i, lease, s);
    Runner.ReportedLeaves(lease, s);
    assert (w.log + Runner.Reported(lease, s))[|w.log|..] == Runner.Reported(lease, s);
  }

  lemma {:induction false} ListedIsKeyed(jobs: seq<JobSpec>, job: Id)
    requires Rows.FirstSpec(jobs, job).Some?
    ensures exists i :: 0 <= i < |jobs| && jobs[i].jobId == job
  {
    if jobs[0].jobId != job {
      ListedIsKeyed(jobs[1..], job);
      var i :| 0 <= i < |jobs[1..]| && jobs[1..][i].jobId == job;
      assert jobs[i + 1].jobId == job;
    }
  }

  // ---- Landing a push ----

  /** Whatever git may present can be stored whole, and is then decided against the state
      as it is, with every other push as it was. */
  lemma PushesCanLand(f: F.Forge, p: F.Pending)
    requires F.Presentable(f, p)
    ensures var (n, d) := (|f.pushes|, Decide(f.state, p.command));
      var f1 := F.After(f, F.Present(p));
      F.Enabled(f1, F.Store(n, |p.left|)) &&
      var f2 := F.After(f1, F.Store(n, |p.left|));
      F.Enabled(f2, F.Commit(n)) &&
      var f3 := F.After(f2, F.Commit(n));
      && f3.pushes == f.pushes && F.Held(f3, p.repo) == F.Held(f, p.repo) + F.Ids(Push.Members(p.left))
      && (d.Write? ==> f3.state == d.next && f3.history == f.history + d.records)
      && (d.Reply? ==> f3.state == f.state && f3.history == f.history)
  {
    assert p.left[..|p.left|] == p.left;
    assert F.Without(f.pushes + [p.(left := [])], |f.pushes|) == f.pushes;
    assert (f.pushes + [p])[|f.pushes| := p.(left := [])] == f.pushes + [p.(left := [])];
  }
}
