/** The projector of one topic: rows and cursor move together, or not at all.

    A crash is a failure at the same point by a process that is not there to see it:
    what it leaves behind is what is durable, and the next process opens from that. */
module Projection {
  import opened Base
  import opened Events
  import opened Rows
  import opened Store
  import opened Tailing

  datatype Snapshot = Snapshot(users: map<Id, UserRow>, repos: map<Id, RepoRow>, pulls: map<Id, PullRow>,
                               reviews: map<Id, ReviewRow>, issues: IssueTables, ci: CiTables)

  const NO_ROWS := Snapshot(map[], map[], map[], map[], NO_ISSUES, NO_CI)

  /** What a record of the topic does to the rows. A record that does not decode, or is
      not an event of its topic, is skipped. */
  function Projected(topic: Topic, s: Snapshot, r: Record): Snapshot {
    match r.value
    case Some(OfUser(e, at)) =>
      if topic == EventsUsers then s.(users := Put(s.users, UserOf(e), UserStep(Get(s.users, UserOf(e)), Stamped(e, at)))) else s
    case Some(OfRepo(e, at)) =>
      if topic == EventsRepos then s.(repos := Put(s.repos, RepoOf(e), RepoStep(Get(s.repos, RepoOf(e)), Stamped(e, at)))) else s
    case Some(OfPr(e, at)) =>
      if topic == EventsPrs then
        s.(pulls := Put(s.pulls, e.prId, PullStep(Get(s.pulls, e.prId), Stamped(e, at))),
           reviews := if e.Reviewed? then Put(s.reviews, e.reviewId, ReviewStep(Get(s.reviews, e.reviewId), Stamped(e, at))) else s.reviews)
      else s
    case Some(OfIssue(e, at)) => if topic == EventsIssues then s.(issues := ApplyIssue(s.issues, Stamped(e, at))) else s
    case Some(OfCi(e, at)) => if topic == EventsCi then s.(ci := ApplyCi(s.ci, Stamped(e, at))) else s
    case _ => s
  }

  function Folded(topic: Topic, s: Snapshot, rs: seq<Record>): Snapshot {
    if rs == [] then s else Projected(topic, Folded(topic, s, rs[..|rs| - 1]), rs[|rs| - 1])
  }

  lemma {:induction false} FoldedAppend(topic: Topic, s: Snapshot, a: seq<Record>, b: seq<Record>)
    ensures Folded(topic, s, a + b) == Folded(topic, Folded(topic, s, a), b)
  {
    if b == [] {
      assert a + b == a;
    } else {
      FoldedAppend(topic, s, a, b[..|b| - 1]);
      assert (a + b)[..|a + b| - 1] == a + b[..|b| - 1];
    }
  }

  /** A record's effect reads and writes the slice of its topic, and no other. */
  lemma SlicesApart(t: Topic, u: Topic, s: Snapshot, a: Record, b: Record)
    requires t != u
    ensures Projected(t, Projected(u, s, b), a) == Projected(u, Projected(t, s, a), b)
  {
    var (ta, ub) := (Projected(t, s, a), Projected(u, s, b));
    OwnSlice(t, s, a);
    OwnSlice(u, s, b);
    OwnSlice(t, ub, a);
    OwnSlice(u, ta, b);
    SliceDecides(t, s, ub, a);
    SliceDecides(u, s, ta, b);
    SliceBySlice(t, u, s, ta, ub, Projected(t, ub, a), Projected(u, ta, b));
  }

  /** The rows of the other topics stay as they are, and do not matter. */
  predicate SameBut(t: Topic, a: Snapshot, b: Snapshot) {
    && (t != EventsUsers ==> a.users == b.users)
    && (t != EventsRepos ==> a.repos == b.repos)
    && (t != EventsPrs ==> a.pulls == b.pulls && a.reviews == b.reviews)
    && (t != EventsIssues ==> a.issues == b.issues)
    && (t != EventsCi ==> a.ci == b.ci)
  }

  predicate SameIn(t: Topic, a: Snapshot, b: Snapshot) {
    && (t == EventsUsers ==> a.users == b.users)
    && (t == EventsRepos ==> a.repos == b.repos)
    && (t == EventsPrs ==> a.pulls == b.pulls && a.reviews == b.reviews)
    && (t == EventsIssues ==> a.issues == b.issues)
    && (t == EventsCi ==> a.ci == b.ci)
  }

  lemma OwnSlice(t: Topic, s: Snapshot, a: Record)
    ensures SameBut(t, Projected(t, s, a), s)
  {}

  lemma SliceDecides(t: Topic, s: Snapshot, s': Snapshot, a: Record)
    requires SameIn(t, s, s')
    ensures SameIn(t, Projected(t, s, a), Projected(t, s', a))
  {}

  lemma SliceBySlice(t: Topic, u: Topic, s: Snapshot, ta: Snapshot, ub: Snapshot, x: Snapshot, y: Snapshot)
    requires t != u && SameBut(t, ta, s) && SameBut(u, ub, s) && SameBut(t, x, ub) && SameBut(u, y, ta)
    requires SameIn(t, x, ta) && SameIn(u, y, ub)
    ensures x == y
  {}

  /** Projectors of different topics do not meet: whichever goes first, the rows come
      out the same. */
  lemma {:induction false} TopicsCommute(t: Topic, u: Topic, s: Snapshot, a: Record, rs: seq<Record>)
    requires t != u
    ensures Projected(t, Folded(u, s, rs), a) == Folded(u, Projected(t, s, a), rs)
  {
    if rs != [] {
      TopicsCommute(t, u, s, a, rs[..|rs| - 1]);
      SlicesApart(t, u, Folded(u, s, rs[..|rs| - 1]), a, rs[|rs| - 1]);
    }
  }

  function Shot(t: Tables): Snapshot
    reads t
  {
    Snapshot(t.users, t.repos, t.pulls, t.reviews, t.IssueRows(), t.CiRows())
  }

  /** The read-model database, as one session sees it: statements read and write the
      working rows, and COMMIT makes rows and cursor durable in one step. */
  class Database {
    const tables: Tables
    var cursor: nat             // of the open transaction
    var durable: Snapshot
    var durableCursor: nat

    constructor ()
      ensures fresh(tables) && durable == NO_ROWS && durableCursor == 0
    {
      tables := new Tables();
      durable, durableCursor, cursor := NO_ROWS, 0, 0;
    }

    ghost predicate Clean()
      reads this, tables
    {
      Shot(tables) == durable && cursor == durableCursor
    }

    /** What a new session sees, and what is left when one is dropped mid-transaction. */
    method Rollback()
      modifies this`cursor, tables
      ensures Clean()
    {
      cursor := durableCursor;
      tables.users, tables.repos, tables.pulls, tables.reviews := durable.users, durable.repos, durable.pulls, durable.reviews;
      tables.issues, tables.comments, tables.counters := durable.issues.issues, durable.issues.comments, durable.issues.counters;
      tables.runs, tables.jobs := durable.ci.runs, durable.ci.jobs;
    }

    /** The answer to COMMIT can be lost after it took effect. */
    method Commit(outcome: Effect) returns (ok: bool)
      modifies this
      ensures ok == outcome.Confirmed? && cursor == old(cursor)
      ensures durable == (if outcome.NoEffect? then old(durable) else Shot(tables))
      ensures durableCursor == (if outcome.NoEffect? then old(durableCursor) else cursor)
    {
      if !outcome.NoEffect? {
        durable := Snapshot(tables.users, tables.repos, tables.pulls, tables.reviews, tables.IssueRows(), tables.CiRows());
        durableCursor := cursor;
      }
      ok := outcome.Confirmed?;
    }

    /** A statement outside a transaction is one of its own. */
    method SetCursorAlone(offset: nat, outcome: Effect) returns (ok: bool)
      requires Clean()
      modifies this
      ensures ok == outcome.Confirmed? && durable == old(durable) && Clean()
      ensures durableCursor == (if outcome.NoEffect? then old(durableCursor) else offset)
    {
      if !outcome.NoEffect? {
        cursor, durableCursor := offset, offset;
      }
      ok := outcome.Confirmed?;
    }

    /** The rows are the fold of the visible records below the cursor. The CI tables have
        another writer, the runners, so this is never said of them. */
    ghost predicate Sound(topic: Topic, log: seq<Cell<Record>>)
      reads this
    {
      topic != EventsCi && durableCursor <= |log| && durable == Folded(topic, NO_ROWS, Visible(log[..durableCursor]))
    }
  }

  method ApplyRecord(topic: Topic, tables: Tables, r: Record)
    modifies tables
    ensures Shot(tables) == Projected(topic, old(Shot(tables)), r)
  {
    match r.value {
      case Some(OfUser(e, at)) => if topic == EventsUsers { tables.ApplyUserEvent(e, at); }
      case Some(OfRepo(e, at)) => if topic == EventsRepos { tables.ApplyRepoEvent(e, at); }
      case Some(OfPr(e, at)) => if topic == EventsPrs { tables.ApplyPrEvent(e, at); }
      case Some(OfIssue(e, at)) => if topic == EventsIssues { tables.ApplyIssueEvent(e, at); }
      case Some(OfCi(e, at)) => if topic == EventsCi { tables.ApplyCiEvent(e, at); }
      case _ =>
    }
  }

  /** What can go wrong with one batch: a fetch, BEGIN, the statements of one record,
      the cursor, the COMMIT. */
  datatype Weather = Weather(fetch: bool, begin: bool, failAt: Option<nat>, moveCursor: bool, commit: Effect, extra: nat)

  /** The cursor is past every visible record of the log. */
  predicate Read(log: seq<Cell<Record>>, cursor: nat) {
    forall i :: cursor <= i < |log| ==> log[i].Control?
  }

  lemma {:induction false} InvisibleIsControl(log: seq<Cell<Record>>)
    requires Visible(log) == []
    ensures forall i :: 0 <= i < |log| ==> log[i].Control?
  {
    if log != [] { InvisibleIsControl(log[..|log| - 1]); }
  }

  /** Nothing goes wrong with a batch. */
  predicate Fair(w: Weather) {
    w.fetch && w.begin && w.failAt.None? && w.moveCursor && w.commit.Confirmed?
  }

  class Projector {
    const topic: Topic
    const db: Database
    const tailer: Tailer<Record>
    var applied: int

    /** Resume from the cursor in the database, and from nothing else. */
    constructor (topic: Topic, db: Database, ghost log: seq<Cell<Record>>)
      requires db.Sound(topic, log)
      modifies db`cursor, db.tables
      ensures this.topic == topic && this.db == db && fresh(tailer)
      ensures Serving(log) && applied == db.durableCursor - 1
    {
      this.topic, this.db := topic, db;
      tailer := new Tailer<Record>(db.durableCursor);
      applied := db.durableCursor - 1;
      new;
      db.Rollback();
      assert log[db.durableCursor..tailer.offset] == [];
    }

    /** Between batches: nothing is open, whatever lies between the durable cursor and the
        tailer's is invisible, and all that is durable is published. */
    ghost predicate Serving(log: seq<Cell<Record>>)
      reads this, db, db.tables, tailer
    {
      && db.Clean() && db.Sound(topic, log)
      && db.durableCursor <= tailer.offset <= |log| && Visible(log[db.durableCursor..tailer.offset]) == []
      && applied == db.durableCursor - 1
    }

    /** Dead or alive, nothing was published that is not durable. */
    ghost predicate Safe(log: seq<Cell<Record>>)
      reads this, db
    {
      db.Sound(topic, log) && applied < db.durableCursor
    }

    method PublishApplied(offset: int)
      modifies this`applied
      ensures applied == Max(old(applied), offset)
    {
      if offset > applied {
        applied := offset;
      }
    }

    /** Apply a fetched batch. A failure rolls back; the tailer has moved on, so a
        projector that failed must not go on, and does not. */
    method ApplyBatch(records: seq<Record>, next: nat, w: Weather, ghost log: seq<Cell<Record>>) returns (ok: bool)
      requires db.Clean() && Safe(log) && tailer.offset == next
      requires db.durableCursor <= next <= |log| && records == Visible(log[db.durableCursor..next])
      modifies this`applied, db, db.tables
      ensures Safe(log)
      ensures db.durableCursor >= old(db.durableCursor)
      ensures ok <==> w.begin && !(w.failAt.Some? && w.failAt.value < |records|) && w.moveCursor && w.commit.Confirmed?
      ensures ok ==> Serving(log) && db.durableCursor == next && applied == Max(old(applied), next - 1)
      ensures !ok ==> applied == old(applied) && (db.durableCursor == old(db.durableCursor) || (w.commit.Unconfirmed? && db.durableCursor == next))
    {
      if !w.begin {
        return false;
      }
      ghost var (base, from) := (db.durable, db.durableCursor);
      var all := ApplyRecords(records, w.failAt);
      if !all || !w.moveCursor {
        db.Rollback();
        return false;
      }
      Advanced(topic, log, from, next, base, records);
      ok := CommitBatch(next, w.commit, log);
    }

    /** Move the cursor, commit it with the rows, and only then publish. */
    method CommitBatch(next: nat, outcome: Effect, ghost log: seq<Cell<Record>>) returns (ok: bool)
      requires Safe(log) && tailer.offset == next && db.durableCursor <= next <= |log|
      requires Shot(db.tables) == Folded(topic, NO_ROWS, Visible(log[..next]))
      modifies this`applied, db
      ensures Safe(log) && ok == outcome.Confirmed?
      ensures db.durableCursor == if outcome.NoEffect? then old(db.durableCursor) else next
      ensures ok ==> Serving(log)
      ensures applied == if ok then Max(old(applied), next - 1) else old(applied)
    {
      db.cursor := next;
      ok := db.Commit(outcome);
      if ok {
        assert log[next..next] == [];
        PublishApplied(next - 1);
      }
    }

    /** The statements of every record of a batch, or of those up to the one that fails. */
    method ApplyRecords(records: seq<Record>, failAt: Option<nat>) returns (ok: bool)
      modifies db.tables
      ensures ok ==> Shot(db.tables) == Folded(topic, old(Shot(db.tables)), records)
      ensures ok <==> !(failAt.Some? && failAt.value < |records|)
    {
      for i := 0 to |records|
        invariant Shot(db.tables) == Folded(topic, old(Shot(db.tables)), records[..i])
        invariant !(failAt.Some? && failAt.value < i)
      {
        ApplyRecord(topic, db.tables, records[i]);
        assert records[..i + 1][..i] == records[..i];
        if failAt == Some(i) {
          return false;
        }
      }
      assert records[..|records|] == records;
      ok := true;
    }

    method CommitCursor(next: nat, outcome: Effect, ghost log: seq<Cell<Record>>) returns (ok: bool)
      requires db.Clean() && Safe(log) && tailer.offset == next
      requires db.durableCursor <= next <= |log| && Visible(log[db.durableCursor..next]) == []
      modifies this`applied, db
      ensures Safe(log) && db.durableCursor >= old(db.durableCursor)
      ensures ok ==> Serving(log) && db.durableCursor == next
      ensures ok == outcome.Confirmed?
    {
      Advanced(topic, log, db.durableCursor, next, db.durable, []);
      ok := db.SetCursorAlone(next, outcome);
      if ok {
        assert log[next..next] == [];
        PublishApplied(next - 1);
      }
    }

    /** Apply everything there is. Every record is applied once, and the rows end up as
        the whole log says; or the projector is dead, and the rows are as some prefix
        says. */
    method Drain(log: seq<Cell<Record>>, weather: nat -> Weather) returns (ok: bool)
      requires Serving(log)
      modifies this`applied, db, db.tables, tailer`offset
      ensures Safe(log) && db.durableCursor >= old(db.durableCursor)
      ensures (forall k :: Fair(weather(k))) ==> ok
      ensures ok ==> Serving(log) && tailer.offset == |log| && db.durable == Folded(topic, NO_ROWS, Visible(log))
    {
      var step := 0;
      while true
        invariant Serving(log) && db.durableCursor >= old(db.durableCursor)
        decreases |log| - tailer.offset
      {
        var w := weather(step);
        assert Fair(w) ==> w.fetch && w.commit.Confirmed?;
        if !w.fetch {
          return false;
        }
        ghost var before := tailer.offset;
        var batch := tailer.NextBatch(log, w.extra);
        if batch.records == [] {
          if batch.caughtUp {
            CaughtUp(topic, log, db.durableCursor);
            return true;
          }
          // Only invisible records: the cursor still moves.
          VisibleSplit(log, db.durableCursor, before, tailer.offset);
          ok := CommitCursor(batch.nextOffset, w.commit, log);
          if !ok {
            return false;
          }
        } else {
          VisibleSplit(log, db.durableCursor, before, tailer.offset);
          ok := ApplyBatch(batch.records, batch.nextOffset, w, log);
          if !ok {
            return false;
          }
        }
        step := step + 1;
      }
    }

    /** Wait for more, which may be invisible, and apply what came. */
    method Poll(log: seq<Cell<Record>>, w: Weather) returns (ok: bool)
      requires Serving(log)
      modifies this`applied, db, db.tables, tailer`offset
      ensures Safe(log) && db.durableCursor >= old(db.durableCursor) && (ok ==> Serving(log))
      ensures Fair(w) ==> ok
      ensures Read(log[..old(tailer.offset)], db.durableCursor)
    {
      if !w.fetch {
        NothingUnread(log, db.durableCursor, tailer.offset);
        return false;
      }
      ghost var before := tailer.offset;
      NothingUnread(log, db.durableCursor, before);
      var batch := tailer.NextBatch(log, w.extra);
      VisibleSplit(log, db.durableCursor, before, tailer.offset);
      if batch.records != [] {
        ok := ApplyBatch(batch.records, batch.nextOffset, w, log);
      } else {
        assert before == |log| ==> log[before..tailer.offset] == [];
        ok := true;
      }
    }

    /** One turn of the loop. The log has grown between draining it and polling. */
    method Turn(log: seq<Cell<Record>>, later: seq<Cell<Record>>, weather: nat -> Weather, w: Weather) returns (ok: bool)
      requires Serving(log) && log <= later
      modifies this`applied, db, db.tables, tailer`offset
      ensures Safe(later) && db.durableCursor >= old(db.durableCursor) && (ok ==> Serving(later))
      ensures (forall k :: Fair(weather(k))) && Fair(w) ==> ok
      ensures ok ==> Read(log, db.durableCursor)
    {
      ok := Drain(log, weather);
      GrownLog(topic, log, later, db.durableCursor);
      if ok {
        StillServing(this, log, later);
        assert later[..tailer.offset] == log;
        ok := Poll(later, w);
      }
    }
  }

  lemma NothingUnread(log: seq<Cell<Record>>, cursor: nat, to: nat)
    requires cursor <= to <= |log| && Visible(log[cursor..to]) == []
    ensures Read(log[..to], cursor)
  {
    InvisibleIsControl(log[cursor..to]);
    forall i | cursor <= i < to ensures log[..to][i].Control? { assert log[cursor..to][i - cursor] == log[i]; }
  }

  lemma StillServing(p: Projector, log: seq<Cell<Record>>, later: seq<Cell<Record>>)
    requires p.Serving(log) && log <= later
    ensures p.Serving(later)
  {
    GrownLog(p.topic, log, later, p.db.durableCursor);
    assert later[p.db.durableCursor..p.tailer.offset] == log[p.db.durableCursor..p.tailer.offset];
  }

  /** One turn of a projector: the log it drains, the log it polls, what goes wrong, and
      whether the process is killed afterwards. */
  datatype Round = Round(log: seq<Cell<Record>>, later: seq<Cell<Record>>, weather: nat -> Weather, last: Weather, killed: bool)

  /** The log only ever grows, within a round and from one to the next. */
  ghost predicate Growing(log: seq<Cell<Record>>, rounds: seq<Round>) {
    forall i :: 0 <= i < |rounds| ==> GrowsAt(log, rounds, i)
  }

  ghost predicate GrowsAt(log: seq<Cell<Record>>, rounds: seq<Round>, i: nat)
    requires i < |rounds|
  {
    LogBefore(log, rounds, i) <= rounds[i].log && rounds[i].log <= rounds[i].later
  }

  function LogBefore(log: seq<Cell<Record>>, rounds: seq<Round>, i: nat): seq<Cell<Record>>
    requires i <= |rounds|
  {
    if i == 0 then log else rounds[i - 1].later
  }

  /** A round in which nothing goes wrong. */
  ghost predicate FairRound(round: Round) {
    (forall k :: Fair(round.weather(k))) && Fair(round.last) && !round.killed
  }

  method OneRound(p: Projector, ghost before: seq<Cell<Record>>, round: Round) returns (alive: bool)
    requires p.Serving(before) && before <= round.log && round.log <= round.later
    modifies p`applied, p.db, p.db.tables, p.tailer`offset
    ensures p.Safe(round.later) && p.db.durableCursor >= old(p.db.durableCursor)
    ensures alive ==> p.Serving(round.later) && !round.killed
    ensures FairRound(round) ==> alive
    ensures alive ==> Read(round.log, p.db.durableCursor) && p.applied == p.db.durableCursor - 1
  {
    StillServing(p, before, round.log);
    alive := p.Turn(round.log, round.later, round.weather, round.last);
    alive := alive && !round.killed;
  }

  /** One process at work, from one round on, until it fails, is killed, or there is no
      more to do. */
  method Live(p: Projector, log: seq<Cell<Record>>, rounds: seq<Round>, from: nat) returns (next: nat)
    requires from < |rounds| && Growing(log, rounds) && p.Serving(rounds[from].log)
    modifies p, p.db, p.db.tables, p.tailer
    ensures from < next <= |rounds| && p.db.Sound(p.topic, LogBefore(log, rounds, next))
    ensures p.db.durableCursor >= old(p.db.durableCursor)
  {
    assert GrowsAt(log, rounds, from);
    var alive := OneRound(p, rounds[from].log, rounds[from]);
    next := from + 1;
    if alive {
      next := LiveOn(p, log, rounds, next);
    }
  }

  /** What one more round keeps. */
  method KeepRound(p: Projector, ghost before: seq<Cell<Record>>, round: Round) returns (alive: bool)
    requires p.Serving(before) && before <= round.log && round.log <= round.later
    modifies p`applied, p.db, p.db.tables, p.tailer`offset
    ensures p.Safe(round.later) && p.db.durableCursor >= old(p.db.durableCursor) && (alive ==> p.Serving(round.later))
  {
    alive := OneRound(p, before, round);
  }

  method LiveOn(p: Projector, log: seq<Cell<Record>>, rounds: seq<Round>, from: nat) returns (next: nat)
    requires from <= |rounds| && Growing(log, rounds) && p.Serving(LogBefore(log, rounds, from))
    modifies p`applied, p.db, p.db.tables, p.tailer`offset
    ensures from <= next <= |rounds| && p.Safe(LogBefore(log, rounds, next))
    ensures p.db.durableCursor >= old(p.db.durableCursor)
    decreases |rounds| - from
  {
    next := from;
    if from < |rounds| {
      assert GrowsAt(log, rounds, from);
      var alive := KeepRound(p, LogBefore(log, rounds, from), rounds[from]);
      next := from + 1;
      assert LogBefore(log, rounds, next) == rounds[from].later;
      if !alive {
        return;
      }
      next := LiveOn(p, log, rounds, next);
    }
  }

  /** Any number of processes in turn, each for any number of rounds until something
      fails or it is killed, each opened on what the last left behind: the rows are
      always the fold of the records below the cursor, and the cursor never goes back. */
  method Restarts(topic: Topic, db: Database, log: seq<Cell<Record>>, rounds: seq<Round>)
    requires db.Sound(topic, log) && Growing(log, rounds)
    modifies db, db.tables
    ensures db.Sound(topic, LogBefore(log, rounds, |rounds|)) && db.durableCursor >= old(db.durableCursor)
  {
    var i := 0;
    while i < |rounds|
      invariant i <= |rounds| && db.Sound(topic, LogBefore(log, rounds, i)) && db.durableCursor >= old(db.durableCursor)
      decreases |rounds| - i
    {
      assert GrowsAt(log, rounds, i);
      GrownLog(topic, LogBefore(log, rounds, i), rounds[i].log, db.durableCursor);
      var p := new Projector(topic, db, rounds[i].log);
      i := Live(p, log, rounds, i);
    }
  }

  /** Rows that are the fold up to one cursor become the fold up to the next. */
  lemma Advanced(topic: Topic, log: seq<Cell<Record>>, from: nat, to: nat, base: Snapshot, records: seq<Record>)
    requires from <= to <= |log| && base == Folded(topic, NO_ROWS, Visible(log[..from])) && records == Visible(log[from..to])
    ensures Folded(topic, base, records) == Folded(topic, NO_ROWS, Visible(log[..to]))
  {
    VisibleSplit(log, 0, from, to);
    assert log[0..from] == log[..from] && log[0..to] == log[..to];
    FoldedAppend(topic, NO_ROWS, Visible(log[..from]), records);
  }

  lemma CaughtUp(topic: Topic, log: seq<Cell<Record>>, cursor: nat)
    requires cursor <= |log| && Visible(log[cursor..|log|]) == []
    ensures Folded(topic, NO_ROWS, Visible(log[..cursor])) == Folded(topic, NO_ROWS, Visible(log))
  {
    VisibleSplit(log, 0, cursor, |log|);
    assert log[0..cursor] == log[..cursor] && log[0..|log|] == log;
    assert Visible(log) == Visible(log[..cursor]);
  }

  lemma GrownLog(topic: Topic, log: seq<Cell<Record>>, later: seq<Cell<Record>>, cursor: nat)
    requires log <= later && cursor <= |log|
    ensures later[..cursor] == log[..cursor]
  {}

  /** The read-your-writes gate, over the values its watch shows before time runs out. */
  method WaitForOffset(current: int, changes: seq<int>, offset: int) returns (reached: bool)
    ensures reached <==> current >= offset || exists i :: 0 <= i < |changes| && changes[i] >= offset
  {
    if current >= offset {
      return true;
    }
    for i := 0 to |changes|
      invariant forall k :: 0 <= k < i ==> changes[k] < offset
    {
      if changes[i] >= offset {
        return true;
      }
    }
    return false;
  }

  /** The rows are those of a history in which the record at the offset has its place. */
  ghost predicate HasWrite(topic: Topic, log: seq<Cell<Record>>, rows: Snapshot, cursor: nat, offset: nat)
    requires offset < cursor <= |log| && log[offset].Stored?
  {
    rows == Folded(topic, Projected(topic, Folded(topic, NO_ROWS, Visible(log[..offset])), log[offset].record), Visible(log[offset + 1..cursor]))
  }

  /** A round, and the value the watch shows after it. */
  method ShowRound(p: Projector, ghost before: seq<Cell<Record>>, round: Round) returns (alive: bool, value: int)
    requires p.Serving(before) && before <= round.log && round.log <= round.later
    modifies p`applied, p.db, p.db.tables, p.tailer`offset
    ensures p.Safe(round.later) && p.db.durableCursor >= old(p.db.durableCursor) && (alive ==> p.Serving(round.later))
    ensures value < p.db.durableCursor && (FairRound(round) ==> alive && Shows(value, before))
  {
    alive := OneRound(p, before, round);
    value := p.applied;
    if alive {
      ShownOnce(before, round.log, p.db.durableCursor);
    }
  }

  /** The values a watch shows while the projector works: those it publishes. */
  method Watch(p: Projector, log: seq<Cell<Record>>, rounds: seq<Round>) returns (changes: seq<int>, seen: seq<Cell<Record>>)
    requires p.Serving(log) && Growing(log, rounds)
    modifies p`applied, p.db, p.db.tables, p.tailer`offset
    ensures log <= seen && p.Safe(seen) && p.db.durableCursor >= old(p.db.durableCursor)
    ensures AllBelow(changes, p.db.durableCursor)
    ensures rounds != [] && FairRound(rounds[0]) ==> changes != [] && Shows(changes[0], log)
  {
    changes, seen := [], log;
    if rounds != [] {
      assert GrowsAt(log, rounds, 0);
      var alive, first := ShowRound(p, log, rounds[0]);
      var more, i := WatchOn(p, log, rounds, alive);
      changes, seen := [first] + more, LogBefore(log, rounds, i);
      OnlyGrows(log, rounds, i);
    }
  }

  /** The values of the rounds after the first. */
  method WatchOn(p: Projector, log: seq<Cell<Record>>, rounds: seq<Round>, started: bool) returns (changes: seq<int>, i: nat)
    requires rounds != [] && Growing(log, rounds) && p.Safe(rounds[0].later) && (started ==> p.Serving(rounds[0].later))
    modifies p`applied, p.db, p.db.tables, p.tailer`offset
    ensures i <= |rounds| && p.Safe(LogBefore(log, rounds, i)) && p.db.durableCursor >= old(p.db.durableCursor)
    ensures AllBelow(changes, p.db.durableCursor)
  {
    changes, i := [], 1;
    var alive := started;
    while alive && i < |rounds|
      invariant 0 < i <= |rounds| && p.Safe(LogBefore(log, rounds, i))
      invariant p.db.durableCursor >= old(p.db.durableCursor) && AllBelow(changes, p.db.durableCursor)
      invariant alive ==> p.Serving(LogBefore(log, rounds, i))
      decreases |rounds| - i
    {
      assert GrowsAt(log, rounds, i);
      ghost var cursor := p.db.durableCursor;
      var value;
      alive, value := ShowRound(p, LogBefore(log, rounds, i), rounds[i]);
      OneMoreBelow(changes, cursor, p.db.durableCursor, value);
      changes := changes + [value];
      i := i + 1;
    }
  }

  /** A value past every visible record of the log. */
  predicate Shows(value: int, log: seq<Cell<Record>>) {
    forall o :: 0 <= o < |log| && log[o].Stored? ==> o <= value
  }

  lemma ShownOnce(log: seq<Cell<Record>>, later: seq<Cell<Record>>, cursor: nat)
    requires log <= later && Read(later, cursor)
    ensures Shows(cursor - 1, log)
  {
    forall o | 0 <= o < |log| && log[o].Stored? ensures o <= cursor - 1 { assert later[o] == log[o]; }
  }

  lemma OneMoreBelow(values: seq<int>, bound: int, bound': int, value: int)
    requires AllBelow(values, bound) && bound <= bound' && value < bound'
    ensures AllBelow(values + [value], bound')
  {}

  lemma {:induction false} OnlyGrows(log: seq<Cell<Record>>, rounds: seq<Round>, i: nat)
    requires Growing(log, rounds) && i <= |rounds|
    ensures log <= LogBefore(log, rounds, i)
  {
    if i > 0 {
      OnlyGrows(log, rounds, i - 1);
      assert GrowsAt(log, rounds, i - 1);
    }
  }

  /** A handler waits on a projector at work: if the gate opens, the command's record is
      in the rows. */
  method WaitOnProjector(p: Projector, log: seq<Cell<Record>>, rounds: seq<Round>, offset: nat) returns (reached: bool, seen: seq<Cell<Record>>)
    requires p.Serving(log) && Growing(log, rounds)
    requires offset < |log| && log[offset].Stored?
    modifies p`applied, p.db, p.db.tables, p.tailer`offset
    ensures log <= seen && p.db.Sound(p.topic, seen)
    ensures rounds != [] && FairRound(rounds[0]) ==> reached
    ensures reached ==> offset < p.db.durableCursor && HasWrite(p.topic, seen, p.db.durable, p.db.durableCursor, offset)
  {
    var current := p.applied;
    var changes;
    changes, seen := Watch(p, log, rounds);
    reached := WaitForOffset(current, changes, offset);
    if reached {
      ReadYourWrites(p.topic, seen, p.db, offset, offset);
    }
  }

  predicate AllBelow(values: seq<int>, bound: int) {
    forall k :: 0 <= k < |values| ==> values[k] < bound
  }

  /** When the gate opens on the offset a command committed at, the rows are those of a
      history in which that command's record has its place. */
  lemma ReadYourWrites(topic: Topic, log: seq<Cell<Record>>, db: Database, applied: int, offset: nat)
    requires db.Sound(topic, log) && applied < db.durableCursor && offset <= applied
    requires log[offset].Stored?
    ensures HasWrite(topic, log, db.durable, db.durableCursor, offset)
  {
    var (at, r, rest) := (Visible(log[..offset]), log[offset].record, Visible(log[offset + 1..db.durableCursor]));
    VisibleAt(log, offset);
    VisibleSplit(log, 0, offset + 1, db.durableCursor);
    assert log[0..offset + 1] == log[..offset + 1] && log[0..db.durableCursor] == log[..db.durableCursor];
    FoldedAppend(topic, NO_ROWS, at + [r], rest);
    FoldedOne(topic, NO_ROWS, at, r);
  }

  lemma VisibleAt(log: seq<Cell<Record>>, offset: nat)
    requires offset < |log| && log[offset].Stored?
    ensures Visible(log[..offset + 1]) == Visible(log[..offset]) + [log[offset].record]
  {
    assert log[..offset + 1][..offset] == log[..offset];
  }

  lemma FoldedOne(topic: Topic, s: Snapshot, a: seq<Record>, r: Record)
    ensures Folded(topic, s, a + [r]) == Projected(topic, Folded(topic, s, a), r)
  {
    assert (a + [r])[..|a|] == a;
  }
}
