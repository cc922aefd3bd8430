/** A whole-history replay over tables that history already produced changes nothing. */
module Replay {
  import opened Base
  import opened Events
  import opened Rows

  // ---- Rows that evolve on their own ----

  function FoldRow<S, E>(step: (S, E) -> S, row: S, h: seq<E>): S {
    if h == [] then row else step(FoldRow(step, row, h[..|h| - 1]), h[|h| - 1])
  }

  lemma {:induction false} FoldRowAppend<S, E>(step: (S, E) -> S, row: S, a: seq<E>, b: seq<E>)
    ensures FoldRow(step, row, a + b) == FoldRow(step, FoldRow(step, row, a), b)
  {
    if b == [] {
      assert a + b == a;
    } else {
      assert (a + b)[..|a + b| - 1] == a + b[..|b| - 1];
      FoldRowAppend(step, row, a, b[..|b| - 1]);
    }
  }

  /** What makes a row replayable: only creating events make it, they leave nothing
      of the old row but its fixed columns, and no event changes those. */
  ghost predicate Replayable<R(!new), E(!new), F>(step: (Option<R>, E) -> Option<R>, creates: E -> bool, fixed: R -> F) {
    && (forall e :: step(None, e).Some? <==> creates(e))
    && (forall r, e :: step(Some(r), e).Some? && fixed(step(Some(r), e).value) == fixed(r))
    && (forall r, e :: creates(e) && fixed(r) == fixed(step(None, e).value) ==> step(Some(r), e) == step(None, e))
    && (forall r, q, e :: creates(e) && fixed(r) == fixed(q) ==> step(Some(r), e) == step(Some(q), e))
  }

  lemma {:induction false} FixedStays<R(!new), E(!new), F>(step: (Option<R>, E) -> Option<R>, creates: E -> bool, fixed: R -> F, r: R, h: seq<E>)
    requires Replayable(step, creates, fixed)
    ensures FoldRow(step, Some(r), h).Some? && fixed(FoldRow(step, Some(r), h).value) == fixed(r)
  {
    if h != [] {
      FixedStays(step, creates, fixed, r, h[..|h| - 1]);
    }
  }

  lemma {:induction false} NothingCreated<R(!new), E(!new), F>(step: (Option<R>, E) -> Option<R>, creates: E -> bool, fixed: R -> F, h: seq<E>)
    requires Replayable(step, creates, fixed)
    requires forall i :: 0 <= i < |h| ==> !creates(h[i])
    ensures FoldRow<Option<R>, E>(step, None, h) == None
  {
    if h != [] {
      NothingCreated(step, creates, fixed, h[..|h| - 1]);
    }
  }

  lemma FoldAround<S, E>(step: (S, E) -> S, row: S, h: seq<E>, i: nat)
    requires i < |h|
    ensures FoldRow(step, row, h) == FoldRow(step, step(FoldRow(step, row, h[..i]), h[i]), h[i + 1..])
  {
    assert h == h[..i + 1] + h[i + 1..];
    FoldRowAppend(step, row, h[..i + 1], h[i + 1..]);
    assert h[..i + 1][..i] == h[..i];
  }

  /** Two folds that agree after one event agree ever after. */
  lemma MeetOnce<S, E>(step: (S, E) -> S, a: S, b: S, h: seq<E>, i: nat)
    requires i < |h| && step(FoldRow(step, a, h[..i]), h[i]) == step(FoldRow(step, b, h[..i]), h[i])
    ensures FoldRow(step, a, h) == FoldRow(step, b, h)
  {
    FoldAround(step, a, h, i);
    FoldAround(step, b, h, i);
  }

  /** A creating event gives the same row in the first pass and in a replay over what
      the first pass left. */
  lemma RebornTheSame<R(!new), E(!new), F>(step: (Option<R>, E) -> Option<R>, creates: E -> bool, fixed: R -> F, row: Option<R>, h: seq<E>, i: nat)
    requires Replayable(step, creates, fixed) && i < |h| && creates(h[i])
    requires row.Some? || forall k :: 0 <= k < i ==> !creates(h[k])
    ensures step(FoldRow(step, FoldRow(step, row, h), h[..i]), h[i]) == step(FoldRow(step, row, h[..i]), h[i])
  {
    FoldAround(step, row, h, i);
    var first := FoldRow(step, row, h[..i]);
    match row {
      case None => NothingCreated(step, creates, fixed, h[..i]);
      case Some(r) => FixedStays(step, creates, fixed, r, h[..i]);
    }
    var born := step(first, h[i]).value;
    FixedStays(step, creates, fixed, born, h[i + 1..]);
    FixedStays(step, creates, fixed, FoldRow(step, row, h).value, h[..i]);
  }

  /** Replaying a stretch of history is harmless if it starts from nothing, or if it
      contains an event that creates the row. */
  lemma RowReplays<R(!new), E(!new), F>(step: (Option<R>, E) -> Option<R>, creates: E -> bool, fixed: R -> F, row: Option<R>, h: seq<E>)
    requires Replayable(step, creates, fixed)
    requires row.None? || exists i :: 0 <= i < |h| && creates(h[i])
    ensures FoldRow(step, FoldRow(step, row, h), h) == FoldRow(step, row, h)
  {
    if forall i :: 0 <= i < |h| ==> !creates(h[i]) {
      NothingCreated(step, creates, fixed, h);
    } else {
      var i := FirstCreation(creates, h);
      RebornTheSame(step, creates, fixed, row, h, i);
      FoldAround(step, row, h, i);
      FoldAround(step, FoldRow(step, row, h), h, i);
    }
  }

  lemma FirstCreation<E(!new)>(creates: E -> bool, h: seq<E>) returns (i: nat)
    requires exists k :: 0 <= k < |h| && creates(h[k])
    ensures i < |h| && creates(h[i]) && forall k :: 0 <= k < i ==> !creates(h[k])
  {
    i := 0;
    while !creates(h[i])
      invariant i < |h| && forall k :: 0 <= k < i ==> !creates(h[k])
      invariant exists k :: i <= k < |h| && creates(h[k])
      decreases |h| - i
    {
      i := i + 1;
    }
  }

  // ---- Tables made of such rows ----

  function ApplyKeyed<R, E>(keyOf: E -> Option<Id>, step: (Option<R>, E) -> Option<R>, t: map<Id, R>, e: E): map<Id, R> {
    match keyOf(e)
    case None => t
    case Some(k) => Put(t, k, step(Get(t, k), e))
  }

  function FoldKeyed<R, E>(keyOf: E -> Option<Id>, step: (Option<R>, E) -> Option<R>, t: map<Id, R>, h: seq<E>): map<Id, R> {
    if h == [] then t else ApplyKeyed(keyOf, step, FoldKeyed(keyOf, step, t, h[..|h| - 1]), h[|h| - 1])
  }

  function StepAt<R, E>(keyOf: E -> Option<Id>, step: (Option<R>, E) -> Option<R>, k: Id): (Option<R>, E) -> Option<R> {
    (row: Option<R>, e: E) => if keyOf(e) == Some(k) then step(row, e) else row
  }

  lemma {:induction false} RowOfTable<R, E>(keyOf: E -> Option<Id>, step: (Option<R>, E) -> Option<R>, t: map<Id, R>, h: seq<E>, k: Id)
    ensures Get(FoldKeyed(keyOf, step, t, h), k) == FoldRow(StepAt(keyOf, step, k), Get(t, k), h)
  {
    if h != [] {
      RowOfTable(keyOf, step, t, h[..|h| - 1], k);
    }
  }

  lemma KeyedRowReplays<R(!new), E(!new), F>(keyOf: E -> Option<Id>, step: (Option<R>, E) -> Option<R>, creates: E -> bool, fixed: R -> F,
                                             k: Id, row: Option<R>, h: seq<E>)
    requires Replayable(step, creates, fixed)
    requires row.None? || exists i :: 0 <= i < |h| && keyOf(h[i]) == Some(k) && creates(h[i])
    ensures FoldRow(StepAt(keyOf, step, k), FoldRow(StepAt(keyOf, step, k), row, h), h) == FoldRow(StepAt(keyOf, step, k), row, h)
  {
    RowReplays(StepAt(keyOf, step, k), (e: E) => keyOf(e) == Some(k) && creates(e), fixed, row, h);
  }

  lemma {:induction false} TableReplays<R(!new), E(!new), F>(keyOf: E -> Option<Id>, step: (Option<R>, E) -> Option<R>, creates: E -> bool, fixed: R -> F, h: seq<E>)
    requires Replayable(step, creates, fixed)
    ensures var t := FoldKeyed(keyOf, step, map[], h); FoldKeyed(keyOf, step, t, h) == t
  {
    var t := FoldKeyed(keyOf, step, map[], h);
    forall k ensures Get(FoldKeyed(keyOf, step, t, h), k) == Get(t, k) {
      RowOfTable(keyOf, step, map[], h, k);
      RowOfTable(keyOf, step, t, h, k);
      KeyedRowReplays(keyOf, step, creates, fixed, k, None, h);
    }
    MapsAgree(FoldKeyed(keyOf, step, t, h), t);
  }

  function UserKeyOf(s: Stamped<UserEvent>): Option<Id> { Some(UserOf(s.event)) }

  function RepoKeyOf(s: Stamped<RepoEvent>): Option<Id> { Some(RepoOf(s.event)) }

  function PullKeyOf(s: Stamped<PrEvent>): Option<Id> { Some(s.event.prId) }

  function ReviewKeyOf(s: Stamped<PrEvent>): Option<Id> {
    if s.event.Reviewed? then Some(s.event.reviewId) else None
  }

  function FoldUsers(t: map<Id, UserRow>, h: seq<Stamped<UserEvent>>): map<Id, UserRow> { FoldKeyed(UserKeyOf, UserStep, t, h) }

  function FoldRepos(t: map<Id, RepoRow>, h: seq<Stamped<RepoEvent>>): map<Id, RepoRow> { FoldKeyed(RepoKeyOf, RepoStep, t, h) }

  function FoldPulls(t: map<Id, PullRow>, h: seq<Stamped<PrEvent>>): map<Id, PullRow> { FoldKeyed(PullKeyOf, PullStep, t, h) }

  function FoldReviews(t: map<Id, ReviewRow>, h: seq<Stamped<PrEvent>>): map<Id, ReviewRow> { FoldKeyed(ReviewKeyOf, ReviewStep, t, h) }

  predicate IsOpening(s: Stamped<PrEvent>) { s.event.PrOpened? }

  function FixedOf(r: PullRow): (Id, int, Id, string, string, string, Instant) {
    (r.repoId, r.number, r.authorId, r.authorName, r.sourceBranch, r.targetBranch, r.createdAt)
  }

  lemma PullsReplayable()
    ensures Replayable(PullStep, IsOpening, FixedOf)
  {}

  /** Replaying the whole history over the rows it produced leaves every one of them
      as it was: users, repositories, pull requests, reviews. */
  lemma {:induction false} UsersReplay(h: seq<Stamped<UserEvent>>)
    ensures FoldUsers(FoldUsers(map[], h), h) == FoldUsers(map[], h)
  {
    TableReplays(UserKeyOf, UserStep, (s: Stamped<UserEvent>) => s.event.Registered?, (r: UserRow) => r.createdAt, h);
  }

  lemma {:induction false} ReposReplay(h: seq<Stamped<RepoEvent>>)
    ensures FoldRepos(FoldRepos(map[], h), h) == FoldRepos(map[], h)
  {
    TableReplays(RepoKeyOf, RepoStep, (s: Stamped<RepoEvent>) => s.event.Created?, (r: RepoRow) => r.createdAt, h);
  }

  lemma {:induction false} PullsReplay(h: seq<Stamped<PrEvent>>)
    ensures FoldPulls(FoldPulls(map[], h), h) == FoldPulls(map[], h)
    ensures FoldReviews(FoldReviews(map[], h), h) == FoldReviews(map[], h)
  {
    PullsReplayable();
    TableReplays(PullKeyOf, PullStep, IsOpening, FixedOf, h);
    TableReplays(ReviewKeyOf, ReviewStep, (s: Stamped<PrEvent>) => s.event.Reviewed?, (r: ReviewRow) => r, h);
  }

  /** Any one event delivered twice in a row leaves what it left the first time,
      whatever the tables held. */
  lemma {:induction false} RowEventTwice(u: Option<UserRow>, us: Stamped<UserEvent>, r: Option<RepoRow>, rs: Stamped<RepoEvent>,
                                         p: Option<PullRow>, v: Option<ReviewRow>, ps: Stamped<PrEvent>)
    ensures UserStep(UserStep(u, us), us) == UserStep(u, us)
    ensures RepoStep(RepoStep(r, rs), rs) == RepoStep(r, rs)
    ensures PullStep(PullStep(p, ps), ps) == PullStep(p, ps)
    ensures ReviewStep(ReviewStep(v, ps), ps) == ReviewStep(v, ps)
  {}

  /** The stretch does have to contain the creation. A trial merge whose answer was
      refused for other commits is accepted when its stretch is replayed after the
      request has moved to them. */
  lemma {:induction false} SuffixReplayDiffers(id: Id, repo: Id, head: Oid, base: Oid, row: PullRow)
    requires row.headOid != head && row.check.None?
    ensures var h := [Stamped(MergeabilityComputed(id, repo, head, base, true, []), 1), Stamped(Synchronized(id, repo, head, base), 2)];
      var once := FoldRow(StepAt(PullKeyOf, PullStep, id), Some(row), h);
      FoldRow(StepAt(PullKeyOf, PullStep, id), once, h) != once
  {
    var h := [Stamped(MergeabilityComputed(id, repo, head, base, true, []), 1), Stamped(Synchronized(id, repo, head, base), 2)];
    var step := StepAt(PullKeyOf, PullStep, id);
    var once := Some(row.(headOid := head, baseOid := base, updatedAt := 2));
    FoldTwo(step, Some(row), h);
    assert PullStep(Some(row), h[0]) == Some(row) && PullStep(Some(row), h[1]) == once;
    assert step(Some(row), h[0]) == PullStep(Some(row), h[0]) && step(Some(row), h[1]) == PullStep(Some(row), h[1]);
    FoldTwo(step, once, h);
    assert step(once, h[0]) == PullStep(once, h[0]) && PullStep(once, h[0]).value.check.Some?;
    assert step(PullStep(once, h[0]), h[1]) == PullStep(PullStep(once, h[0]), h[1]);
  }

  lemma FoldTwo<S, E>(step: (S, E) -> S, row: S, h: seq<E>)
    requires |h| == 2
    ensures FoldRow(step, row, h) == step(step(row, h[0]), h[1])
  {
    assert FoldRow(step, row, h[..1]) == step(row, h[0]) by {
      assert h[..1][..0] == [];
    }
  }
}
