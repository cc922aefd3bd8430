/** The runner process: the buffer of acquired job records, the log of a job, and one
    step of the service, which makes no move the hand-off protocol does not have. */
module Runner {
  import opened Base
  import opened Events
  import opened Rows
  import opened Store
  import opened CiReplay
  import CiProtocol

  // ---- The queue ----

  /** A queue record as acquired; no work if it does not decode. */
  datatype Delivery = Delivery(offset: nat, work: Option<QueuedJob>, count: int)

  datatype QueuedJob = QueuedJob(job: Id, run: Id, repo: Id)

  datatype Ack = Accept | Release | Reject

  datatype Fate = Leased | Rejected | Lapsed

  datatype Lease = Lease(job: QueuedJob, attempt: int, record: Delivery)

  datatype QueueError = PollFailed | AcknowledgeFailed | CommitFailed

  /** What becomes of the records one call takes off the buffer: unreadable ones are
      rejected, while the consumer accepts rejections, up to the first that can be
      leased. */
  function Deal(pool: seq<Delivery>, allowed: nat): seq<(Delivery, Fate)> {
    if pool == [] then []
    else if pool[0].work.Some? then [(pool[0], Leased)]
    else if allowed == 0 then [(pool[0], Lapsed)]
    else [(pool[0], Rejected)] + Deal(pool[1..], allowed - 1)
  }

  function Rejections(dealt: seq<(Delivery, Fate)>): seq<(Delivery, Ack)> {
    if dealt == [] then []
    else (if dealt[0].1 == Rejected then [(dealt[0].0, Reject)] else []) + Rejections(dealt[1..])
  }

  function Answer(pool: seq<Delivery>, dealt: seq<(Delivery, Fate)>, commits: bool): Result<Option<Lease>, QueueError> {
    if dealt != [] && dealt[|dealt| - 1].1 == Lapsed then Err(AcknowledgeFailed)
    else if dealt != [] && dealt[|dealt| - 1].1 == Leased && dealt[|dealt| - 1].0.work.Some? then
      var d := dealt[|dealt| - 1].0;
      Ok(Some(Lease(d.work.value, Max(1, d.count), d)))
    else if commits then Ok(None) else Err(CommitFailed)
  }

  lemma {:induction false} RejectionsAppend(a: seq<(Delivery, Fate)>, last: (Delivery, Fate))
    ensures Rejections(a + [last]) == Rejections(a) + if last.1 == Rejected then [(last.0, Reject)] else []
  {
    if a != [] {
      var (first, rest) := (a[0], a[1..]);
      RejectionsAppend(rest, last);
      assert (a + [last])[0] == first && (a + [last])[1..] == rest + [last];
    }
  }

  lemma DealStep(d: seq<(Delivery, Fate)>, rest: seq<Delivery>, left: nat)
    requires rest != []
    ensures rest[0].work.None? && left > 0 ==> d + Deal(rest, left) == d + [(rest[0], Rejected)] + Deal(rest[1..], left - 1)
    ensures rest[0].work.Some? ==> Deal(rest, left) == [(rest[0], Leased)]
    ensures rest[0].work.None? && left == 0 ==> Deal(rest, left) == [(rest[0], Lapsed)]
  {}

  /** Everything up to the first record that can be decoded goes, in order; only that
      one is leased, and only what cannot be decoded is rejected. */
  lemma {:induction false} DealTakesThePrefix(pool: seq<Delivery>, allowed: nat)
    ensures var d := Deal(pool, allowed);
      && |d| <= |pool|
      && (forall i :: 0 <= i < |d| ==> d[i].0 == pool[i] && (d[i].1 == Leased <==> pool[i].work.Some?))
      && (forall i :: 0 <= i < |d| - 1 ==> d[i].1 == Rejected)
      && (|d| < |pool| ==> d != [] && d[|d| - 1].1 != Rejected)
  {
    if pool != [] && pool[0].work.None? && allowed > 0 {
      DealTakesThePrefix(pool[1..], allowed - 1);
    }
  }

  /** Behind no more unreadable records than the consumer will have rejected, there is one
      that can be leased. */
  predicate CanLease(pool: seq<Delivery>, allowed: nat) {
    exists n :: 0 <= n < |pool| && IsNext(pool, n) && n <= allowed
  }

  predicate IsNext(pool: seq<Delivery>, n: nat)
    requires n < |pool|
  {
    pool[n].work.Some? && forall i :: 0 <= i < n ==> pool[i].work.None?
  }

  /** What a call answers, said of the buffer: the lease of the first readable record,
      counted as at least one delivery; nothing, if there is none; or an error. */
  lemma {:induction false} DealAnswers(pool: seq<Delivery>, allowed: nat, commits: bool)
    ensures var a := Answer(pool, Deal(pool, allowed), commits);
      && (forall n :: 0 <= n < |pool| && IsNext(pool, n) && n <= allowed ==>
            a == Ok(Some(Lease(pool[n].work.value, if pool[n].count < 1 then 1 else pool[n].count, pool[n]))))
      && (a.Ok? && a.value.Some? ==> CanLease(pool, allowed))
      && ((forall i :: 0 <= i < |pool| ==> pool[i].work.None?) && |pool| <= allowed ==> a == if commits then Ok(None) else Err(CommitFailed))
      && (|pool| > allowed && (forall i :: 0 <= i <= allowed ==> pool[i].work.None?) ==> a == Err(AcknowledgeFailed))
  {
    var d := Deal(pool, allowed);
    DealTakesThePrefix(pool, allowed);
    DealEnds(pool, allowed);
    forall n | 0 <= n < |pool| && IsNext(pool, n) && n <= allowed ensures |d| == n + 1 && d[n].1 == Leased {
      assert n < |d| ==> (d[n].1 == Leased <==> pool[n].work.Some?);
    }
    if d != [] && d[|d| - 1].1 == Leased {
      assert IsNext(pool, |d| - 1);
    }
  }

  /** How far a call gets. */
  lemma {:induction false} DealEnds(pool: seq<Delivery>, allowed: nat)
    ensures var d := Deal(pool, allowed);
      && (forall n :: 0 <= n < |pool| && IsNext(pool, n) && n <= allowed ==> |d| == n + 1)
      && ((forall i :: 0 <= i < |pool| ==> pool[i].work.None?) && |pool| <= allowed ==> |d| == |pool| && forall i :: 0 <= i < |d| ==> d[i].1 == Rejected)
      && (|pool| > allowed && (forall i :: 0 <= i <= allowed ==> pool[i].work.None?) ==> |d| == allowed + 1 && d[allowed].1 == Lapsed)
      && (d != [] && d[|d| - 1].1 == Leased ==> |d| - 1 <= allowed)
  {
    if pool != [] && pool[0].work.None? && allowed > 0 {
      DealEnds(pool[1..], allowed - 1);
      forall n | 0 <= n < |pool| && IsNext(pool, n) && n <= allowed ensures |Deal(pool, allowed)| == n + 1 {
        assert IsNext(pool[1..], n - 1);
      }
    }
  }

  /** A poll is made only when the buffer is empty. */
  function Fetched(acquired: seq<Delivery>, polled: Result<seq<Delivery>, QueueError>): seq<Delivery> {
    if acquired == [] && polled.Ok? then polled.value else []
  }

  /** The answer to a call that found `pool` in the buffer, what it acknowledged, and
      what it left behind. */
  predicate Answers(pool: seq<Delivery>, allowed: nat, commits: bool, r: Result<Option<Lease>, QueueError>,
                    before: seq<(Delivery, Ack)>, after: seq<(Delivery, Ack)>, rest: seq<Delivery>)
  {
    var d := Deal(pool, allowed);
    r == Answer(pool, d, commits) && |d| <= |pool| && rest == pool[|d|..] && after == before + Rejections(d)
  }

  predicate Accounted(dealt: seq<(Delivery, Fate)>, waiting: seq<Delivery>, received: seq<Delivery>) {
    |dealt| <= |received| && waiting == received[|dealt|..] && forall i :: 0 <= i < |dealt| ==> dealt[i].0 == received[i]
  }

  lemma FetchAccounts(dealt: seq<(Delivery, Fate)>, received: seq<Delivery>, more: seq<Delivery>)
    requires Accounted(dealt, [], received)
    ensures Accounted(dealt, more, received + more)
  {}

  lemma DealingAccounts(dealt: seq<(Delivery, Fate)>, pool: seq<Delivery>, received: seq<Delivery>, allowed: nat)
    requires Accounted(dealt, pool, received)
    ensures var d := Deal(pool, allowed); |d| <= |pool| && Accounted(dealt + d, pool[|d|..], received)
  {
    DealTakesThePrefix(pool, allowed);
  }

  class JobQueue {
    var acquired: seq<Delivery>
    var acks: seq<(Delivery, Ack)>
    ghost var received: seq<Delivery>
    ghost var dealt: seq<(Delivery, Fate)>

    constructor ()
      ensures Valid() && acquired == [] && acks == [] && dealt == []
    {
      acquired, acks, received, dealt := [], [], [], [];
    }

    /** Every record acquired so far was leased, rejected or let lapse, once and in the
        order it came, or is still waiting behind those. */
    ghost predicate Valid()
      reads this
    {
      Accounted(dealt, acquired, received)
    }

    /** `allowed` rejections are accepted before one fails, if there are that many. */
    method Next(polled: Result<seq<Delivery>, QueueError>, allowed: nat, commits: bool) returns (r: Result<Option<Lease>, QueueError>)
      requires Valid()
      modifies this
      ensures Valid()
      ensures received == old(received) + Fetched(old(acquired), polled)
      ensures old(acquired) == [] && polled.Err? ==>
        r == Err(polled.error) && acks == old(acks) && dealt == old(dealt) && acquired == []
      ensures old(acquired) != [] || polled.Ok? ==>
        var pool := old(acquired) + Fetched(old(acquired), polled);
        Answers(pool, allowed, commits, r, old(acks), acks, acquired) && dealt == old(dealt) + Deal(pool, allowed)
    {
      if acquired == [] {
        if polled.Err? {
          return Err(polled.error);
        }
        FetchAccounts(dealt, received, polled.value);
        acquired := polled.value;
        received := received + polled.value;
      }
      assert acquired == old(acquired) + Fetched(old(acquired), polled);
      DealingAccounts(dealt, acquired, received, allowed);
      dealt := dealt + Deal(acquired, allowed);
      r := HandOut(allowed, commits);
    }

    /** Take records off the buffer up to the first that can be leased. */
    method HandOut(allowed: nat, commits: bool) returns (r: Result<Option<Lease>, QueueError>)
      modifies this`acquired, this`acks
      ensures Answers(old(acquired), allowed, commits, r, old(acks), acks, acquired)
    {
      ghost var pool, d := acquired, [];
      var left := allowed;
      while acquired != []
        invariant Deal(pool, allowed) == d + Deal(acquired, left)
        invariant |d| <= |pool| && acquired == pool[|d|..]
        invariant forall i :: 0 <= i < |d| ==> d[i].1 == Rejected
        invariant acks == old(acks) + Rejections(d)
        decreases |acquired|
      {
        DealStep(d, acquired, left);
        var record := acquired[0];
        acquired := acquired[1..];
        if record.work.Some? {
          RejectionsAppend(d, (record, Leased));
          return Ok(Some(Lease(record.work.value, Max(1, record.count), record)));
        }
        if left == 0 {
          RejectionsAppend(d, (record, Lapsed));
          return Err(AcknowledgeFailed);
        }
        RejectionsAppend(d, (record, Rejected));
        acks := acks + [(record, Reject)];
        d, left := d + [(record, Rejected)], left - 1;
      }
      assert d == Deal(pool, allowed);
      r := if commits then Ok(None) else Err(CommitFailed);
    }

    /** The consumer may not accept the acknowledgement, and may fail to commit it. */
    method Settle(lease: Lease, ack: Ack, accepts: bool, commits: bool) returns (r: Option<QueueError>)
      requires Valid()
      modifies this`acks
      ensures Valid() && acks == old(acks) + if accepts then [(lease.record, ack)] else []
      ensures r == if !accepts then Some(AcknowledgeFailed) else if !commits then Some(CommitFailed) else None
    {
      if !accepts {
        return Some(AcknowledgeFailed);
      }
      acks := acks + [(lease.record, ack)];
      r := if commits then None else Some(CommitFailed);
    }
  }

  // ---- The log of a job ----

  const LOG_CHUNK_BYTES := 64 * 1024

  datatype Chunk = Chunk(sequence: nat, text: seq<Byte>, eof: bool)

  function Texts(chunks: seq<Chunk>): seq<Byte> {
    if chunks == [] then [] else Texts(chunks[..|chunks| - 1]) + chunks[|chunks| - 1].text
  }

  lemma {:induction false} TextsAppend(a: seq<Chunk>, b: seq<Chunk>)
    ensures Texts(a + b) == Texts(a) + Texts(b)
  {
    if b == [] {
      assert a + b == a;
    } else {
      var (init, last) := (b[..|b| - 1], b[|b| - 1]);
      TextsAppend(a, init);
      TextsLast(a + init, last);
      TextsLast(init, last);
      assert a + b == a + init + [last] && b == init + [last];
      assert Texts(a) + (Texts(init) + last.text) == Texts(a) + Texts(init) + last.text;
    }
  }

  lemma TextsLast(a: seq<Chunk>, last: Chunk)
    ensures Texts(a + [last]) == Texts(a) + last.text
  {
    assert (a + [last])[..|a|] == a;
  }

  /** Chunks that follow one another, none of them the end. */
  predicate Numbered(chunks: seq<Chunk>, from: nat) {
    forall i :: 0 <= i < |chunks| ==> chunks[i].sequence == from + i && !chunks[i].eof
  }

  lemma Lands(written: seq<Chunk>, records: seq<Chunk>, next: nat)
    requires Numbered(written, 0) && Numbered(records, |written|) && next == |written| + |records|
    ensures var all := written + records;
      && Texts(all) == Texts(written) + Texts(records) && Numbered(all, 0)
      && Texts(all + [Chunk(next, [], true)]) == Texts(all) && (all + [Chunk(next, [], true)])[..|all|] == all
  {
    var all := written + records;
    TextsAppend(written, records);
    TextsLast(all, Chunk(next, [], true));
    assert (all + [Chunk(next, [], true)])[..|all|] == all;
  }

  class TopicLog {
    var buffer: seq<Byte>
    var sequence: nat
    var pending: seq<Chunk>
    /** What reached the log topic. */
    var written: seq<Chunk>
    /** All the job has said. */
    ghost var said: seq<Byte>

    constructor ()
      ensures Valid() && said == [] && written == []
    {
      buffer, sequence, pending, written, said := [], 0, [], [], [];
    }

    /** The topic, the sealed chunks and the buffer hold every byte once and in order,
        and chunks are numbered from zero without a gap. */
    ghost predicate Valid()
      reads this
    {
      && Texts(written) + Texts(pending) + buffer == said
      && Numbered(written, 0) && Numbered(pending, |written|) && sequence == |written| + |pending|
    }

    method Seal()
      requires Valid()
      modifies this`buffer, this`pending, this`sequence
      ensures Valid() && buffer == []
      ensures pending == old(pending) + if old(buffer) == [] then [] else [Chunk(old(sequence), old(buffer), false)]
    {
      if buffer == [] {
        return;
      }
      assert pending + [Chunk(sequence, buffer, false)] != [];
      assert (pending + [Chunk(sequence, buffer, false)])[..|pending|] == pending;
      pending := pending + [Chunk(sequence, buffer, false)];
      sequence, buffer := sequence + 1, [];
    }

    /** A line is kept until there are 64 KiB of them, and those are one chunk. */
    method Line(line: seq<Byte>)
      requires Valid()
      modifies this
      ensures Valid() && written == old(written) && said == old(said) + line + [10]
      ensures var held := old(buffer) + line + [10];
        if |held| < 65_536 then buffer == held && pending == old(pending)
        else buffer == [] && pending == old(pending) + [Chunk(old(sequence), held, false)]
    {
      buffer := buffer + line + [10];
      said := said + line + [10];
      if |buffer| >= LOG_CHUNK_BYTES {
        Seal();
      }
    }

    /** Everything said so far is in the topic, in chunks numbered in order, ended by a
        marker if this is the end; or the write failed, and those chunks are gone. It
        works if the write does, or if there is nothing to write. */
    method Flush(final: bool, commits: bool) returns (ok: bool)
      requires Valid()
      modifies this
      ensures ok ==> said == old(said) && Texts(written) == said
      ensures ok && !final ==> Valid() && pending == [] && buffer == []
      ensures ok && final ==> written != [] && written[|written| - 1] == Chunk(|written| - 1, [], true) && Numbered(written[..|written| - 1], 0)
      ensures ok <==> commits || (!final && old(pending) == [] && old(buffer) == [])
      ensures !ok ==> written == old(written)
    {
      Seal();
      if pending == [] && !final {
        return true;
      }
      var records := pending;
      pending := [];
      if !commits {
        return false;
      }
      Lands(written, records, sequence);
      written := written + records;
      if final {
        written := written + [Chunk(sequence, [], true)];
      }
      return true;
    }
  }

  // ---- The service ----

  datatype JobOutcome = Succeeded | Failed(exitCode: Option<int>) | TimedOut | InfraFailed

  function ConclusionOf(o: JobOutcome): JobConclusion {
    match o
    case Succeeded => JobSuccess
    case Failed(_) => JobFailed
    case TimedOut => JobTimedOut
    case InfraFailed => JobInfraFailed
  }

  function ExitCodeOf(o: JobOutcome): Option<int> {
    match o
    case Succeeded => Some(0)
    case Failed(code) => code
    case TimedOut => None
    case InfraFailed => None
  }

  datatype ServiceError = QueueFailed(error: QueueError) | StoreFailed | WriteFailed

  /** One committed record at a time, by the runner's own fenced writer. */
  class CiTopic {
    var records: CiHistory

    method Transact(e: CiEvent, at: Instant, outcome: Effect) returns (ok: bool)
      modifies this
      ensures ok == outcome.Confirmed?
      ensures records == old(records) + if outcome.NoEffect? then [] else [Stamped(e, at)]
    {
      if !outcome.NoEffect? {
        records := records + [Stamped(e, at)];
      }
      ok := outcome.Confirmed?;
    }
  }

  /** Where a list of moves leads, if each is enabled when it is made. */
  ghost function After(w: CiProtocol.Ci, moves: seq<CiProtocol.Move>): Option<CiProtocol.Ci> {
    if moves == [] then Some(w)
    else
      match After(w, moves[..|moves| - 1])
      case None => None
      case Some(v) => if CiProtocol.Enabled(v, moves[|moves| - 1]) then Some(CiProtocol.Next(v, moves[|moves| - 1])) else None
  }

  lemma AfterOne(w: CiProtocol.Ci, moves: seq<CiProtocol.Move>, v: CiProtocol.Ci, m: CiProtocol.Move)
    requires After(w, moves) == Some(v) && CiProtocol.Enabled(v, m)
    ensures After(w, moves + [m]) == Some(CiProtocol.Next(v, m))
  {
    assert (moves + [m])[..|moves|] == moves;
  }

  /** What the queue hands out is what was put in it. */
  predicate Honest(deliveries: seq<Delivery>, queue: map<Id, CiProtocol.Work>) {
    forall i :: 0 <= i < |deliveries| && deliveries[i].work.Some? ==>
      deliveries[i].work.value.job in queue
      && queue[deliveries[i].work.value.job] == CiProtocol.Work(deliveries[i].work.value.run, deliveries[i].work.value.repo)
  }

  /** Everything outside the process that one step depends on. */
  datatype Weather = Weather(polled: Result<seq<Delivery>, QueueError>, allowed: nat, commits: bool, claim: Effect, claimedAt: Instant,
                             start: Effect, startedAt: Instant, outcome: JobOutcome, logKept: bool, end: Effect, endedAt: Instant, accepts: bool, settles: bool)

  /** The moves one step makes with a lease, given whether the job's row was waiting. */
  function Walk(i: nat, lease: Lease, waits: bool, s: Weather): seq<CiProtocol.Move> {
    [CiProtocol.Deliver(i, lease.job.job, lease.attempt)]
    + (if s.claim.NoEffect? then [CiProtocol.GiveUp(i)]
       else [CiProtocol.Claim(i, s.claimedAt)]
            + (if s.claim.Unconfirmed? then [CiProtocol.GiveUp(i)] else if waits then Reports(i, s) else []))
  }

  function Reports(i: nat, s: Weather): seq<CiProtocol.Move> {
    if s.start.NoEffect? then [CiProtocol.GiveUp(i)]
    else [CiProtocol.ReportStart(i, s.startedAt)]
         + (if s.start.Unconfirmed? || !s.logKept || s.end.NoEffect? then [CiProtocol.GiveUp(i)]
            else [CiProtocol.ReportEnd(i, ConclusionOf(s.outcome), ExitCodeOf(s.outcome), s.endedAt)])
  }

  function Started(lease: Lease, s: Weather): Stamped<CiEvent> {
    Stamped(JobStarted(lease.job.job, lease.job.run, lease.job.repo, lease.attempt, 0), s.startedAt)
  }

  function Finished(lease: Lease, s: Weather): Stamped<CiEvent> {
    Stamped(JobFinished(lease.job.job, lease.job.run, lease.job.repo, lease.attempt, ConclusionOf(s.outcome), ExitCodeOf(s.outcome)), s.endedAt)
  }

  function Reported(lease: Lease, s: Weather): CiHistory {
    if s.start.NoEffect? then []
    else if s.start.Unconfirmed? || !s.logKept || s.end.NoEffect? then [Started(lease, s)]
    else [Started(lease, s), Finished(lease, s)]
  }

  /** What a report says of how the job went: a success only if it succeeded, with the
      exit code a shell would give; nothing is ever reported as cancelled. */
  predicate Tells(o: JobOutcome, c: JobConclusion, exitCode: Option<int>) {
    && (c == JobSuccess <==> o.Succeeded?) && (c == JobFailed <==> o.Failed?)
    && (c == JobTimedOut <==> o.TimedOut?) && (c == JobInfraFailed <==> o.InfraFailed?) && c != JobCancelled
    && (o.Succeeded? ==> exitCode == Some(0)) && (o.Failed? ==> exitCode == o.exitCode)
    && (o.TimedOut? || o.InfraFailed? ==> exitCode == None)
  }

  /** What a job leaves in the log: its start, if that write took effect; and its end, as
      it went, if the start was known to be written, the log kept, and the end took
      effect. */
  predicate Leaves(lease: Lease, s: Weather, records: CiHistory) {
    && |records| == (if s.start.NoEffect? then 0 else if s.start.Confirmed? && s.logKept && !s.end.NoEffect? then 2 else 1)
    && (|records| >= 1 ==> records[0] == Stamped(JobStarted(lease.job.job, lease.job.run, lease.job.repo, lease.attempt, 0), s.startedAt))
    && (|records| == 2 ==>
          && records[1].at == s.endedAt && records[1].event.JobFinished?
          && records[1].event.jobId == lease.job.job && records[1].event.runId == lease.job.run
          && records[1].event.repoId == lease.job.repo && records[1].event.attempt == lease.attempt
          && Tells(s.outcome, records[1].event.conclusion, records[1].event.exitCode))
  }

  lemma ReportedLeaves(lease: Lease, s: Weather)
    ensures Leaves(lease, s, Reported(lease, s))
  {}

  /** The state one step with a lease leaves behind. */
  function Stepped(w: CiProtocol.Ci, lease: Lease, s: Weather): CiProtocol.Ci {
    var job := lease.job.job;
    if s.claim.NoEffect? || !CiProtocol.Waits(w.live.jobs, job) then w
    else w.(live := w.live.(jobs := w.live.jobs[job := CiProtocol.ClaimedRow(w.live.jobs[job], lease.attempt, s.claimedAt)]),
            taken := w.taken + [job],
            log := w.log + if s.claim.Unconfirmed? then [] else Reported(lease, s))
  }

  lemma GivenBack(w: CiProtocol.Ci, i: nat, a: CiProtocol.Runner, v: CiProtocol.Ci)
    requires i < |w.runners| && w.runners[i].Idle? && v == w.(runners := w.runners[i := a])
    ensures v.(runners := v.runners[i := CiProtocol.Idle]) == w
  {
    assert w.runners[i := a][i := CiProtocol.Idle] == w.runners;
  }

  lemma ReportsLead(w: CiProtocol.Ci, i: nat, lease: Lease, s: Weather, pre: seq<CiProtocol.Move>, v: CiProtocol.Ci)
    requires i < |v.runners| && After(w, pre) == Some(v)
    requires v.runners[i] == CiProtocol.Claimed(lease.job.job, CiProtocol.Work(lease.job.run, lease.job.repo), lease.attempt)
    ensures After(w, pre + Reports(i, s)) == Some(v.(runners := v.runners[i := CiProtocol.Idle], log := v.log + Reported(lease, s)))
  {
    if s.start.NoEffect? {
      AfterOne(w, pre, v, CiProtocol.GiveUp(i));
      assert Reports(i, s) == [CiProtocol.GiveUp(i)] && v.log + [] == v.log;
    } else {
      var start := CiProtocol.ReportStart(i, s.startedAt);
      AfterOne(w, pre, v, start);
      EndLeads(w, i, lease, s, pre, v, CiProtocol.Next(v, start));
    }
  }

  lemma EndLeads(w: CiProtocol.Ci, i: nat, lease: Lease, s: Weather, pre: seq<CiProtocol.Move>, v: CiProtocol.Ci, u: CiProtocol.Ci)
    requires i < |v.runners| && !s.start.NoEffect? && After(w, pre + [CiProtocol.ReportStart(i, s.startedAt)]) == Some(u)
    requires u == v.(runners := v.runners[i := CiProtocol.Executing(lease.job.job, CiProtocol.Work(lease.job.run, lease.job.repo), lease.attempt)],
                     log := v.log + [Started(lease, s)])
    ensures After(w, pre + Reports(i, s)) == Some(v.(runners := v.runners[i := CiProtocol.Idle], log := v.log + Reported(lease, s)))
  {
    var start := CiProtocol.ReportStart(i, s.startedAt);
    assert u.runners[i := CiProtocol.Idle] == v.runners[i := CiProtocol.Idle];
    if s.start.Unconfirmed? || !s.logKept || s.end.NoEffect? {
      AfterOne(w, pre + [start], u, CiProtocol.GiveUp(i));
      assert pre + [start] + [CiProtocol.GiveUp(i)] == pre + Reports(i, s);
    } else {
      var end := CiProtocol.ReportEnd(i, ConclusionOf(s.outcome), ExitCodeOf(s.outcome), s.endedAt);
      AfterOne(w, pre + [start], u, end);
      assert pre + [start] + [end] == pre + Reports(i, s);
      assert v.log + [Started(lease, s)] + [Finished(lease, s)] == v.log + Reported(lease, s);
    }
  }

  /** One step of the service is a walk of the protocol, from one idle moment of this
      runner to the next, however it goes. */
  lemma StepIsAWalk(w: CiProtocol.Ci, i: nat, lease: Lease, s: Weather)
    requires i < |w.runners| && w.runners[i].Idle? && Offered(lease, w.queue)
    ensures After(w, Walk(i, lease, CiProtocol.Waits(w.live.jobs, lease.job.job), s)) == Some(Stepped(w, lease, s))
  {
    var (job, waits) := (lease.job.job, CiProtocol.Waits(w.live.jobs, lease.job.job));
    var deliver := CiProtocol.Deliver(i, job, lease.attempt);
    AfterOne(w, [], w, deliver);
    var v := CiProtocol.Next(w, deliver);
    assert [] + [deliver] == [deliver];
    if s.claim.NoEffect? {
      AfterOne(w, [deliver], v, CiProtocol.GiveUp(i));
      assert [deliver] + [CiProtocol.GiveUp(i)] == Walk(i, lease, waits, s);
      GivenBack(w, i, v.runners[i], v);
    } else {
      ClaimWalks(w, i, lease, s, v);
    }
  }

  lemma ClaimWalks(w: CiProtocol.Ci, i: nat, lease: Lease, s: Weather, v: CiProtocol.Ci)
    requires i < |w.runners| && w.runners[i].Idle? && !s.claim.NoEffect?
    requires v == w.(runners := w.runners[i := CiProtocol.Holding(lease.job.job, CiProtocol.Work(lease.job.run, lease.job.repo), lease.attempt)])
    requires After(w, [CiProtocol.Deliver(i, lease.job.job, lease.attempt)]) == Some(v)
    ensures After(w, Walk(i, lease, CiProtocol.Waits(w.live.jobs, lease.job.job), s)) == Some(Stepped(w, lease, s))
  {
    var (job, waits) := (lease.job.job, CiProtocol.Waits(w.live.jobs, lease.job.job));
    var (deliver, claim) := (CiProtocol.Deliver(i, job, lease.attempt), CiProtocol.Claim(i, s.claimedAt));
    AfterOne(w, [deliver], v, claim);
    var u := CiProtocol.Next(v, claim);
    assert u.runners[i := CiProtocol.Idle] == w.runners;
    if s.claim.Unconfirmed? {
      AfterOne(w, [deliver] + [claim], u, CiProtocol.GiveUp(i));
      assert w.log + [] == w.log;
      assert [deliver] + [claim] + [CiProtocol.GiveUp(i)] == Walk(i, lease, waits, s);
    } else if waits {
      ReportsLead(w, i, lease, s, [deliver] + [claim], u);
      assert [deliver] + [claim] + Reports(i, s) == Walk(i, lease, waits, s);
    } else {
      assert u.runners == w.runners;
      assert [deliver] + [claim] == Walk(i, lease, waits, s);
    }
  }

  predicate Offered(l: Lease, queue: map<Id, CiProtocol.Work>) {
    l.attempt >= 1 && l.job.job in queue && queue[l.job.job] == CiProtocol.Work(l.job.run, l.job.repo)
  }

  lemma HonestLease(pool: seq<Delivery>, allowed: nat, commits: bool, queue: map<Id, CiProtocol.Work>)
    requires Honest(pool, queue)
    ensures |Deal(pool, allowed)| <= |pool| && Honest(pool[|Deal(pool, allowed)|..], queue)
    ensures var a := Answer(pool, Deal(pool, allowed), commits); a.Ok? && a.value.Some? ==> Offered(a.value.value, queue)
    ensures CanLease(pool, allowed) <==> Answer(pool, Deal(pool, allowed), commits).Ok? && Answer(pool, Deal(pool, allowed), commits).value.Some?
  {
    DealTakesThePrefix(pool, allowed);
    DealAnswers(pool, allowed, commits);
  }

  predicate Settled(acks: seq<(Delivery, Ack)>, lease: Lease) {
    acks != [] && acks[|acks| - 1] == (lease.record, Accept)
  }

  class RunnerService {
    const queue: JobQueue
    const store: Tables
    const topic: CiTopic

    constructor (store: Tables, topic: CiTopic)
      ensures this.store == store && this.topic == topic && fresh(queue) && queue.Valid() && queue.acquired == []
    {
      this.store, this.topic := store, topic;
      queue := new JobQueue();
    }

    /** Take one job if there is one. Whatever fails and wherever it stops, the table
        and the log are as the walk of the protocol leaves them. The job's record is
        acknowledged last, once the job was run and reported or is another runner's. */
    method Step(s: Weather, ghost w: CiProtocol.Ci) returns (r: Result<bool, ServiceError>, leased: Option<Lease>)
      requires queue.Valid() && Honest(queue.acquired, w.queue) && (s.polled.Ok? ==> Honest(s.polled.value, w.queue))
      requires w.live == store.CiRows() && w.log == topic.records
      modifies queue, store`jobs, topic
      ensures queue.Valid() && Honest(queue.acquired, w.queue)
      ensures leased.None? ==> store.CiRows() == w.live && topic.records == w.log && r != Ok(true)
      ensures var pool := old(queue.acquired) + Fetched(old(queue.acquired), s.polled); CanLease(pool, s.allowed) <==> leased.Some?
      ensures leased.Some? ==>
        (r == Ok(true) <==> s.claim.Confirmed? && s.accepts && s.settles &&
                            (CiProtocol.Waits(w.live.jobs, leased.value.job.job) ==> s.start.Confirmed? && s.logKept && s.end.Confirmed?))
      ensures leased.Some? ==>
        var l := leased.value;
        && Offered(l, w.queue)
        && store.CiRows() == Stepped(w, l, s).live && topic.records == Stepped(w, l, s).log
        && (r == Ok(true) ==> Settled(queue.acks, l) && (CiProtocol.Waits(w.live.jobs, l.job.job) ==> topic.records == w.log + [Started(l, s), Finished(l, s)]))
    {
      leased := None;
      ghost var pool := queue.acquired + Fetched(queue.acquired, s.polled);
      HonestLease(pool, s.allowed, s.commits, w.queue);
      var next := queue.Next(s.polled, s.allowed, s.commits);
      if next.Err? {
        return Err(QueueFailed(next.error)), None;
      }
      if next.value.None? {
        return Ok(false), None;
      }
      leased := Some(next.value.value);
      r := Take(next.value.value, s, w);
    }

    /** Claim the job, run it if the claim is granted, and settle its record. */
    method Take(lease: Lease, s: Weather, ghost w: CiProtocol.Ci) returns (r: Result<bool, ServiceError>)
      requires queue.Valid() && w.live == store.CiRows() && w.log == topic.records
      modifies queue`acks, store`jobs, topic
      ensures queue.Valid()
      ensures store.CiRows() == Stepped(w, lease, s).live && topic.records == Stepped(w, lease, s).log
      ensures r == Ok(true) ==> Settled(queue.acks, lease)
      ensures r == Ok(true) <==> s.claim.Confirmed? && s.accepts && s.settles &&
                                 (CiProtocol.Waits(w.live.jobs, lease.job.job) ==> s.start.Confirmed? && s.logKept && s.end.Confirmed?)
      ensures r == Ok(true) && CiProtocol.Waits(w.live.jobs, lease.job.job) ==> topic.records == w.log + [Started(lease, s), Finished(lease, s)]
    {
      if s.claim.NoEffect? {
        return Err(StoreFailed);
      }
      var claimed := store.ClaimJob(lease.job.job, lease.attempt, 0, s.claimedAt);
      if s.claim.Unconfirmed? {
        return Err(StoreFailed);
      }
      if claimed {
        var done := Execute(lease, s);
        if !done {
          return Err(WriteFailed);
        }
      }
      // The loser of the claim accepts too: somebody else is running this.
      var failed := queue.Settle(lease, Accept, s.accepts, s.settles);
      r := if failed.None? then Ok(true) else Err(QueueFailed(failed.value));
    }

    /** Announce the start, run, announce the result. */
    method Execute(lease: Lease, s: Weather) returns (done: bool)
      modifies topic
      ensures topic.records == old(topic.records) + Reported(lease, s)
      ensures Leaves(lease, s, topic.records[|old(topic.records)|..])
      ensures done <==> s.start.Confirmed? && s.logKept && s.end.Confirmed?
      ensures done ==> Reported(lease, s) == [Started(lease, s), Finished(lease, s)]
    {
      ReportedLeaves(lease, s);
      done := topic.Transact(Started(lease, s).event, s.startedAt, s.start);
      if !done || !s.logKept {
        return false;
      }
      done := topic.Transact(Finished(lease, s).event, s.endedAt, s.end);
    }
  }
}
