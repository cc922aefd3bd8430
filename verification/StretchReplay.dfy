/** Replaying a stretch of a pull request's history over what it left: exactly when it
    does no harm. */
module StretchReplay {
  import opened Base
  import opened Events
  import opened Rows
  import opened Replay
  import opened MergeButton

  function PullFold(row: Option<PullRow>, g: PrHistory, pr: Id): Option<PullRow> {
    FoldRow(StepAt(PullKeyOf, PullStep, pr), row, g)
  }

  lemma PullFoldNext(row: Option<PullRow>, g: PrHistory, pr: Id)
    requires g != []
    ensures PullFold(row, g, pr) == if g[|g| - 1].event.prId == pr then PullStep(PullFold(row, g[..|g| - 1], pr), g[|g| - 1]) else PullFold(row, g[..|g| - 1], pr)
  {
    var (init, last) := (g[..|g| - 1], g[|g| - 1]);
    assert PullFold(row, g, pr) == StepAt(PullKeyOf, PullStep, pr)(PullFold(row, init, pr), last);
    assert PullKeyOf(last) == Some(pr) <==> last.event.prId == pr;
  }

  function StandingOf(r: PullRow): Standing {
    Standing(Some((r.headOid, r.baseOid)), r.state == PullMerged)
  }

  /** The last word of a stretch on the trial merge, judged from where the request stood
      before it: an accepted answer, the dropping of one, or nothing. */
  datatype Word = Silence | Dropped | Answered(check: MergeCheck)

  function LastSaid(s: Standing, g: PrHistory, pr: Id): Word {
    if g == [] then Silence
    else
      var (init, e) := (g[..|g| - 1], g[|g| - 1].event);
      if Accepts(StandingAfter(s, init, pr), e, pr) then Answered(CheckOf(e))
      else if Drops(StandingAfter(s, init, pr), e, pr) then Dropped
      else LastSaid(s, init, pr)
  }

  /** The answer on record once a word has been said. */
  function Recorded(check: Option<MergeCheck>, w: Word): Option<MergeCheck> {
    match w
    case Silence => check
    case Dropped => None
    case Answered(c) => Some(c)
  }

  predicate Opens(e: PrEvent, pr: Id) {
    e.prId == pr && e.PrOpened?
  }

  ghost predicate HasOpening(g: PrHistory, pr: Id) {
    exists i :: 0 <= i < |g| && Opens(g[i].event, pr)
  }

  /** Judged from where the stretch leaves the request, it has nothing new to say about
      the trial merge. */
  predicate NothingNew(r: PullRow, g: PrHistory, pr: Id) {
    var first := Recorded(r.check, LastSaid(StandingOf(r), g, pr));
    var again := LastSaid(StandingAfter(StandingOf(r), g, pr), g, pr);
    Recorded(first, again) == first
  }

  // ---- The check ----

  lemma {:induction false} StretchSays(r: PullRow, g: PrHistory, pr: Id)
    requires !HasOpening(g, pr)
    ensures PullFold(Some(r), g, pr).Some?
    ensures var f := PullFold(Some(r), g, pr).value;
      StandingOf(f) == StandingAfter(StandingOf(r), g, pr) && f.check == Recorded(r.check, LastSaid(StandingOf(r), g, pr))
  {
    if g != [] {
      var init := g[..|g| - 1];
      assert !HasOpening(init, pr) && !Opens(g[|g| - 1].event, pr) by {
        assert forall i :: 0 <= i < |init| ==> init[i] == g[i];
      }
      StretchSays(r, init, pr);
      PullFoldNext(Some(r), g, pr);
    }
  }

  // ---- What happened to the request ----

  datatype Life = Life(state: PullState, mergeCommit: Option<Oid>, mergedByName: Option<string>, mergedAt: Option<Instant>, closedAt: Option<Instant>)

  function LifeOf(r: PullRow): Life {
    Life(r.state, r.mergeCommit, r.mergedByName, r.mergedAt, r.closedAt)
  }

  function LifeStep(pr: Id): (Life, Stamped<PrEvent>) -> Life {
    (l: Life, s: Stamped<PrEvent>) =>
      if s.event.prId != pr then l
      else if s.event.Merged? then Life(PullMerged, Some(s.event.mergeCommit), Some(s.event.mergedByName), Some(s.at), Some(s.at))
      else if s.event.PrClosed? && l.state != PullMerged then l.(state := PullClosed, closedAt := Some(s.at))
      else if s.event.PrReopened? && l.state != PullMerged then l.(state := PullOpen, closedAt := None)
      else l
  }

  predicate Merges(e: PrEvent, pr: Id) { e.prId == pr && e.Merged? }

  predicate Toggles(e: PrEvent, pr: Id) { e.prId == pr && (e.PrClosed? || e.PrReopened?) }

  lemma {:induction false} StaysUnmerged(l: Life, g: PrHistory, pr: Id)
    requires l.state != PullMerged && forall i :: 0 <= i < |g| ==> !Merges(g[i].event, pr)
    ensures var f := FoldRow(LifeStep(pr), l, g);
      f.state != PullMerged && (f.mergeCommit, f.mergedByName, f.mergedAt) == (l.mergeCommit, l.mergedByName, l.mergedAt)
  {
    if g != [] {
      StaysUnmerged(l, g[..|g| - 1], pr);
      assert !Merges(g[|g| - 1].event, pr);
    }
  }

  lemma {:induction false} LifeStays(l: Life, g: PrHistory, pr: Id)
    requires forall i :: 0 <= i < |g| ==> !Merges(g[i].event, pr) && (Toggles(g[i].event, pr) ==> l.state == PullMerged)
    ensures FoldRow(LifeStep(pr), l, g) == l
  {
    if g != [] {
      LifeStays(l, g[..|g| - 1], pr);
      assert !Merges(g[|g| - 1].event, pr);
    }
  }

  lemma LifeReplays(l: Life, g: PrHistory, pr: Id)
    ensures var f := FoldRow(LifeStep(pr), l, g); FoldRow(LifeStep(pr), f, g) == f
  {
    var f := FoldRow(LifeStep(pr), l, g);
    if i :| 0 <= i < |g| && Merges(g[i].event, pr) {
      MeetOnce(LifeStep(pr), l, f, g, i);
    } else if i :| 0 <= i < |g| && Toggles(g[i].event, pr) && l.state != PullMerged {
      StaysUnmerged(l, g, pr);
      StaysUnmerged(l, g[..i], pr);
      StaysUnmerged(f, g[..i], pr);
      MeetOnce(LifeStep(pr), l, f, g, i);
    } else {
      LifeStays(l, g, pr);
    }
  }

  // ---- When it was last touched ----

  datatype Touch = Touch(head: Oid, base: Oid, updatedAt: Instant)

  function TouchOf(r: PullRow): Touch {
    Touch(r.headOid, r.baseOid, r.updatedAt)
  }

  function TouchStep(pr: Id): (Touch, Stamped<PrEvent>) -> Touch {
    (t: Touch, s: Stamped<PrEvent>) =>
      if s.event.prId != pr || s.event.PrOpened? || s.event.Reviewed? then t
      else if s.event.Synchronized? then Touch(s.event.headOid, s.event.baseOid, s.at)
      else if s.event.MergeabilityComputed? && (t.head, t.base) != (s.event.headOid, s.event.baseOid) then t
      else t.(updatedAt := s.at)
  }

  predicate Shifts(e: PrEvent, pr: Id) { e.prId == pr && e.Synchronized? }

  predicate Touches(t: Touch, e: PrEvent, pr: Id) {
    && e.prId == pr && !e.PrOpened? && !e.Reviewed?
    && (e.MergeabilityComputed? ==> (t.head, t.base) == (e.headOid, e.baseOid))
  }

  lemma {:induction false} StaysPut(t: Touch, g: PrHistory, pr: Id)
    requires forall i :: 0 <= i < |g| ==> !Shifts(g[i].event, pr)
    ensures var f := FoldRow(TouchStep(pr), t, g); (f.head, f.base) == (t.head, t.base)
    ensures (forall i :: 0 <= i < |g| ==> !Touches(t, g[i].event, pr)) ==> FoldRow(TouchStep(pr), t, g) == t
  {
    if g != [] {
      StaysPut(t, g[..|g| - 1], pr);
      assert !Shifts(g[|g| - 1].event, pr);
    }
  }

  lemma TouchReplays(t: Touch, g: PrHistory, pr: Id)
    ensures var f := FoldRow(TouchStep(pr), t, g); FoldRow(TouchStep(pr), f, g) == f
  {
    var f := FoldRow(TouchStep(pr), t, g);
    if i :| 0 <= i < |g| && Shifts(g[i].event, pr) {
      MeetOnce(TouchStep(pr), t, f, g, i);
    } else {
      StaysPut(t, g, pr);
      if i :| 0 <= i < |g| && Touches(t, g[i].event, pr) {
        StaysPut(t, g[..i], pr);
        StaysPut(f, g[..i], pr);
        MeetOnce(TouchStep(pr), t, f, g, i);
      }
    }
  }

  // ---- The whole row ----

  /** What no event but an opening says anything about. */
  function Settled(r: PullRow): (Id, int, string, Option<string>, Id, string, string, string, int, Instant) {
    (r.repoId, r.number, r.title, r.body, r.authorId, r.authorName, r.sourceBranch, r.targetBranch, r.commentCount, r.createdAt)
  }

  lemma {:induction false} RowInParts(r: PullRow, g: PrHistory, pr: Id)
    requires !HasOpening(g, pr)
    ensures PullFold(Some(r), g, pr).Some?
    ensures var f := PullFold(Some(r), g, pr).value;
      Settled(f) == Settled(r) && LifeOf(f) == FoldRow(LifeStep(pr), LifeOf(r), g) && TouchOf(f) == FoldRow(TouchStep(pr), TouchOf(r), g)
  {
    if g != [] {
      var init := g[..|g| - 1];
      assert !HasOpening(init, pr) && !Opens(g[|g| - 1].event, pr) by {
        assert forall i :: 0 <= i < |init| ==> init[i] == g[i];
      }
      RowInParts(r, init, pr);
      PullFoldNext(Some(r), g, pr);
      OneStepInParts(PullFold(Some(r), init, pr).value, g[|g| - 1], pr);
    }
  }

  lemma OneStepInParts(r: PullRow, s: Stamped<PrEvent>, pr: Id)
    requires !Opens(s.event, pr)
    ensures var f := if s.event.prId == pr then PullStep(Some(r), s) else Some(r);
      f.Some? && Settled(f.value) == Settled(r) && LifeOf(f.value) == LifeStep(pr)(LifeOf(r), s) && TouchOf(f.value) == TouchStep(pr)(TouchOf(r), s)
  {}

  lemma Parts(a: PullRow, b: PullRow)
    requires Settled(a) == Settled(b) && LifeOf(a) == LifeOf(b) && TouchOf(a) == TouchOf(b)
    ensures a == b <==> a.check == b.check
  {}

  /** Over a row that is there, a stretch without an opening replays harmlessly exactly
      if, judged from where it leaves the request, it has nothing new to say about the
      trial merge. Everything but the check is replayed to what it was in any case. */
  lemma RowStretchReplays(r: PullRow, g: PrHistory, pr: Id)
    requires !HasOpening(g, pr)
    ensures var once := PullFold(Some(r), g, pr); PullFold(once, g, pr) == once <==> NothingNew(r, g, pr)
  {
    StretchSays(r, g, pr);
    RowInParts(r, g, pr);
    var f := PullFold(Some(r), g, pr).value;
    StretchSays(f, g, pr);
    RowInParts(f, g, pr);
    LifeReplays(LifeOf(r), g, pr);
    TouchReplays(TouchOf(r), g, pr);
    Parts(f, PullFold(Some(f), g, pr).value);
  }

  /** Exactly when any stretch at all, over any row or none, replays harmlessly. */
  lemma StretchReplays(row: Option<PullRow>, g: PrHistory, pr: Id)
    ensures var once := PullFold(row, g, pr);
      PullFold(once, g, pr) == once <==> row.None? || HasOpening(g, pr) || NothingNew(row.value, g, pr)
  {
    if row.Some? && !HasOpening(g, pr) {
      RowStretchReplays(row.value, g, pr);
    } else {
      PullsReplayable();
      KeyedRowReplays(PullKeyOf, PullStep, IsOpening, FixedOf, pr, row, g) by {
        if row.Some? {
          var i :| 0 <= i < |g| && Opens(g[i].event, pr);
          assert PullKeyOf(g[i]) == Some(pr) && IsOpening(g[i]);
        }
      }
    }
  }

  /** A stretch that leaves the request where it found it, between the same commits and
      as merged as before, is harmless whatever it says. */
  lemma SameGroundReplays(r: PullRow, g: PrHistory, pr: Id)
    requires StandingAfter(StandingOf(r), g, pr) == StandingOf(r)
    ensures NothingNew(r, g, pr)
  {}

  // ---- The two ways to fail ----

  /** The request moves: an answer refused when it came is accepted once the request
      has moved to the commits it is for. */
  lemma {:induction false} EarlyAnswerIsHeard(pr: Id, repo: Id, head: Oid, base: Oid, row: PullRow)
    requires row.headOid != head && row.check.None?
    ensures var g := [Stamped(MergeabilityComputed(pr, repo, head, base, true, []), 1), Stamped(Synchronized(pr, repo, head, base), 2)];
      !NothingNew(row, g, pr) && PullFold(PullFold(Some(row), g, pr), g, pr) != PullFold(Some(row), g, pr)
  {
    var g := [Stamped(MergeabilityComputed(pr, repo, head, base, true, []), 1), Stamped(Synchronized(pr, repo, head, base), 2)];
    SuffixReplayDiffers(pr, repo, head, base, row);
    assert !HasOpening(g, pr);
    RowStretchReplays(row, g, pr);
  }

  /** The request is merged: a reopening that dropped an answer drops it no more. */
  lemma {:induction false} DroppedAnswerReturns(pr: Id, repo: Id, actor: Id, commit: Oid, row: PullRow)
    requires row.state != PullMerged && row.check.None?
    ensures var g := [Stamped(MergeabilityComputed(pr, repo, row.headOid, row.baseOid, true, []), 1), Stamped(PrReopened(pr, repo, actor), 2),
                      Stamped(Merged(pr, repo, commit, actor, ""), 3)];
      !NothingNew(row, g, pr) && PullFold(PullFold(Some(row), g, pr), g, pr) != PullFold(Some(row), g, pr)
  {
    var (e0, e1, e2) := (Stamped(MergeabilityComputed(pr, repo, row.headOid, row.baseOid, true, []), 1), Stamped(PrReopened(pr, repo, actor), 2),
                         Stamped(Merged(pr, repo, commit, actor, ""), 3));
    var g := [e0, e1, e2];
    var s := StandingOf(row);
    var t := s.(merged := true);
    ThreeSay(s, e0, e1, e2, pr);
    ThreeSay(t, e0, e1, e2, pr);
    assert LastSaid(s, g, pr) == Dropped && LastSaid(t, g, pr) == Answered(CheckOf(e0.event));
    assert !HasOpening(g, pr);
    RowStretchReplays(row, g, pr);
  }

  lemma {:induction false} ThreeSay(s: Standing, e0: Stamped<PrEvent>, e1: Stamped<PrEvent>, e2: Stamped<PrEvent>, pr: Id)
    requires e0.event.prId == e1.event.prId == e2.event.prId == pr && s.points.Some?
    requires e0.event.MergeabilityComputed? && s.points == Some((e0.event.headOid, e0.event.baseOid)) && e1.event.PrReopened? && e2.event.Merged?
    ensures var g := [e0, e1, e2];
      && StandingAfter(s, g, pr) == s.(merged := true)
      && LastSaid(s, g, pr) == if s.merged then Answered(CheckOf(e0.event)) else Dropped
  {
    var g := [e0, e1, e2];
    var none: PrHistory := [];
    assert g[..2] == [e0, e1] && [e0, e1][..1] == [e0] && [e0][..0] == none;
    assert StandingAfter(s, [e0], pr) == s && StandingAfter(s, [e0, e1], pr) == s;
    assert LastSaid(s, [e0], pr) == Answered(CheckOf(e0.event));
  }
}
