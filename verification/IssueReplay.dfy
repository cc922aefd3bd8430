/** The same for issues, whose counts are recomputed from other rows and so pass
    through different values in a replay before they arrive where they were. */
module IssueReplay {
  import opened Base
  import opened Events
  import opened Rows

  type History = seq<Stamped<IssueEvent>>

  function Fixed(r: IssueRow): (Id, int, Id, string, Instant) {
    (r.repoId, r.number, r.authorId, r.authorName, r.createdAt)
  }

  /** A comment on the issue from position p on. */
  ghost predicate CommentAhead(h: History, p: nat, issue: Id) {
    exists i :: p <= i < |h| && h[i].event.Commented? && h[i].event.issueId == issue
  }

  /** A recount of the repository from position p on. */
  ghost predicate RecountAhead(h: History, p: nat, repo: Id) {
    exists i :: p <= i < |h| && MovesCounters(h[i].event) && h[i].event.repoId == repo
  }

  ghost predicate OpeningAhead(h: History, p: nat, issue: Id, repo: Id) {
    exists i :: p <= i < |h| && h[i].event.IssueOpened? && h[i].event.issueId == issue && h[i].event.repoId == repo
  }

  /** What the events from p on can add to the tables a, reaching b. */
  ghost predicate Grown(a: IssueTables, b: IssueTables, h: History, p: nat) {
    && (forall c :: c in a.comments ==> c in b.comments && b.comments[c] == a.comments[c])
    && (forall c :: c in b.comments && c !in a.comments ==> CommentAhead(h, p, b.comments[c].issueId))
    && (forall x :: x in a.issues ==> x in b.issues && Fixed(b.issues[x]) == Fixed(a.issues[x]))
    && (forall x :: x in b.issues && x !in a.issues ==> OpeningAhead(h, p, x, b.issues[x].repoId))
    && a.counters.Keys <= b.counters.Keys
  }

  /** Everything an event names is in the tables once it has been applied. */
  ghost predicate Covers(t: IssueTables, e: IssueEvent) {
    && (e.Commented? ==> e.commentId in t.comments)
    && (e.IssueOpened? ==> e.issueId in t.issues)
    && (MovesCounters(e) ==> e.repoId in t.counters)
  }

  lemma StepGrows(a: IssueTables, h: History, p: nat)
    requires p < |h|
    ensures Grown(a, ApplyIssue(a, h[p]), h, p) && Covers(ApplyIssue(a, h[p]), h[p].event)
  {
    var b := ApplyIssue(a, h[p]);
    forall c | c in b.comments && c !in a.comments ensures CommentAhead(h, p, b.comments[c].issueId) {}
    forall x | x in b.issues && x !in a.issues ensures OpeningAhead(h, p, x, b.issues[x].repoId) {}
  }

  lemma GrownTransitive(a: IssueTables, b: IssueTables, c: IssueTables, h: History, p: nat, q: nat)
    requires p <= q && Grown(a, b, h, p) && Grown(b, c, h, q)
    ensures Grown(a, c, h, p)
  {
    forall k | k in c.comments && k !in a.comments ensures CommentAhead(h, p, c.comments[k].issueId) {
      if k in b.comments { assert CommentAhead(h, p, b.comments[k].issueId); } else { assert CommentAhead(h, q, c.comments[k].issueId); }
    }
    forall x | x in c.issues && x !in a.issues ensures OpeningAhead(h, p, x, c.issues[x].repoId) {
      if x in b.issues { assert OpeningAhead(h, p, x, b.issues[x].repoId); } else { assert OpeningAhead(h, q, x, c.issues[x].repoId); }
    }
  }

  function At(t: IssueTables, h: History, p: nat): IssueTables
    requires p <= |h|
  {
    FoldIssues(t, h[..p])
  }

  lemma AtNext(t: IssueTables, h: History, p: nat)
    requires p < |h|
    ensures At(t, h, p + 1) == ApplyIssue(At(t, h, p), h[p])
  {
    assert h[..p + 1][..p] == h[..p];
  }

  lemma {:induction false} FoldGrows(t: IssueTables, h: History, p: nat, q: nat)
    requires p <= q <= |h|
    ensures Grown(At(t, h, p), At(t, h, q), h, p)
  {
    if p < q {
      FoldGrows(t, h, p, q - 1);
      AtNext(t, h, q - 1);
      StepGrows(At(t, h, q - 1), h, q - 1);
      GrownTransitive(At(t, h, p), At(t, h, q - 1), At(t, h, q), h, p, q - 1);
    }
  }

  lemma FoldCovers(t: IssueTables, h: History, i: nat)
    requires i < |h|
    ensures Covers(At(t, h, |h|), h[i].event)
  {
    AtNext(t, h, i);
    StepGrows(At(t, h, i), h, i);
    FoldGrows(t, h, i + 1, |h|);
  }

  /** The tables name the same rows, with the same fixed columns and comments. */
  ghost predicate SameKeys(t: IssueTables, f: IssueTables) {
    && t.comments == f.comments && t.issues.Keys == f.issues.Keys && t.counters.Keys == f.counters.Keys
    && forall x :: x in f.issues ==> Fixed(t.issues[x]) == Fixed(f.issues[x])
  }

  ghost predicate RowTracks(h: History, p: nat, s: IssueTables, t: IssueTables, x: Id)
    requires x in s.issues && x in t.issues
  {
    && t.issues[x] == s.issues[x].(commentCount := t.issues[x].commentCount)
    && (t.issues[x].commentCount == s.issues[x].commentCount || CommentAhead(h, p, x))
  }

  ghost predicate CounterTracks(h: History, p: nat, s: IssueTables, t: IssueTables, r: Id)
    requires r in s.counters && r in t.counters
  {
    t.counters[r] == s.counters[r] || RecountAhead(h, p, r)
  }

  /** A replay t against the first pass s, both at position p, where f is where the
      first pass ends: what s knows t agrees with, except counts still to be redone. */
  ghost predicate Tracks(h: History, p: nat, s: IssueTables, t: IssueTables, f: IssueTables) {
    && SameKeys(t, f)
    && (forall x :: x in s.issues ==> x in t.issues && RowTracks(h, p, s, t, x))
    && (forall r :: r in s.counters ==> r in t.counters && CounterTracks(h, p, s, t, r))
  }

  lemma KeysStay(t: IssueTables, f: IssueTables, s: Stamped<IssueEvent>)
    requires SameKeys(t, f) && Covers(f, s.event)
    ensures SameKeys(ApplyIssue(t, s), f)
  {
    assert ApplyIssue(t, s).comments == t.comments;
  }

  lemma SameRowButCount(a: Option<IssueRow>, n: int, b: Option<IssueRow>, m: int, s: Stamped<IssueEvent>)
    requires b.Some? && IssueStep(a, n, s).Some?
    requires Fixed(b.value) == Fixed(IssueStep(a, n, s).value)
    requires a.Some? ==> b.value == a.value.(commentCount := b.value.commentCount)
    ensures var (a', b') := (IssueStep(a, n, s), IssueStep(b, m, s));
      && b'.Some? && b'.value == a'.value.(commentCount := b'.value.commentCount)
      && (s.event.IssueOpened? || (s.event.Commented? && n == m) || (a.Some? && a.value.commentCount == b.value.commentCount && !s.event.Commented?)
          ==> b'.value.commentCount == a'.value.commentCount)
  {}

  lemma SameComments(h: History, p: nat, a: IssueTables, f: IssueTables, x: Id)
    requires Grown(a, f, h, p) && !CommentAhead(h, p, x)
    ensures CommentsOn(a.comments, x) == CommentsOn(f.comments, x)
  {
    assert forall c :: c in f.comments && c !in a.comments ==> CommentAhead(h, p, f.comments[c].issueId);
  }

  lemma CommentStillAhead(h: History, p: nat, x: Id)
    requires p < |h| && CommentAhead(h, p, x) && !(h[p].event.Commented? && h[p].event.issueId == x)
    ensures CommentAhead(h, p + 1, x)
  {
    var i :| p <= i < |h| && h[i].event.Commented? && h[i].event.issueId == x;
    assert i != p;
  }

  lemma OtherRowTracks(h: History, p: nat, s: IssueTables, t: IssueTables, x: Id)
    requires p < |h| && x != h[p].event.issueId && x in s.issues && x in t.issues && RowTracks(h, p, s, t, x)
    ensures var (s', t') := (ApplyIssue(s, h[p]), ApplyIssue(t, h[p]));
      x in s'.issues && x in t'.issues && RowTracks(h, p + 1, s', t', x)
  {
    if CommentAhead(h, p, x) {
      CommentStillAhead(h, p, x);
    }
  }

  lemma ThisRowTracks(h: History, p: nat, s: IssueTables, t: IssueTables, f: IssueTables, x: Id)
    requires p < |h| && x == h[p].event.issueId && x in t.issues && (x in s.issues ==> RowTracks(h, p, s, t, x))
    requires Grown(ApplyIssue(s, h[p]), f, h, p + 1) && ApplyIssue(t, h[p]).comments == f.comments
    requires x in ApplyIssue(s, h[p]).issues && Fixed(t.issues[x]) == Fixed(ApplyIssue(s, h[p]).issues[x])
    ensures x in ApplyIssue(t, h[p]).issues && RowTracks(h, p + 1, ApplyIssue(s, h[p]), ApplyIssue(t, h[p]), x)
  {
    var (s', t', e) := (ApplyIssue(s, h[p]), ApplyIssue(t, h[p]), h[p].event);
    SameRowButCount(Get(s.issues, x), CountComments(s'.comments, x), Get(t.issues, x), CountComments(t'.comments, x), h[p]);
    if e.Commented? {
      if !CommentAhead(h, p + 1, x) {
        SameComments(h, p + 1, s', f, x);
      }
    } else if CommentAhead(h, p, x) {
      CommentStillAhead(h, p, x);
    }
  }

  lemma IssueRowTracks(h: History, p: nat, s: IssueTables, t: IssueTables, f: IssueTables, x: Id)
    requires p < |h| && Tracks(h, p, s, t, f) && SameKeys(ApplyIssue(t, h[p]), f)
    requires Grown(ApplyIssue(s, h[p]), f, h, p + 1)
    requires x in ApplyIssue(s, h[p]).issues
    ensures x in ApplyIssue(t, h[p]).issues && RowTracks(h, p + 1, ApplyIssue(s, h[p]), ApplyIssue(t, h[p]), x)
  {
    if x == h[p].event.issueId {
      assert x in f.issues;
      ThisRowTracks(h, p, s, t, f, x);
    } else {
      assert x in s.issues;
      OtherRowTracks(h, p, s, t, x);
    }
  }

  lemma OpeningRecounts(h: History, p: nat, x: Id, r: Id)
    ensures OpeningAhead(h, p, x, r) ==> RecountAhead(h, p, r)
  {}

  lemma SameIssues(h: History, p: nat, s: IssueTables, t: IssueTables, f: IssueTables, r: Id, open: bool)
    requires Grown(s, f, h, p) && SameKeys(t, f) && !RecountAhead(h, p, r)
    requires forall x :: x in s.issues ==> x in t.issues && RowTracks(h, p, s, t, x)
    ensures IssuesIn(t.issues, r, open) == IssuesIn(s.issues, r, open)
  {
    forall x ensures OpeningAhead(h, p, x, r) ==> RecountAhead(h, p, r) {
      OpeningRecounts(h, p, x, r);
    }
    forall x | x in t.issues && t.issues[x].repoId == r ensures x in s.issues {
      assert Fixed(t.issues[x]) == Fixed(f.issues[x]);
    }
    assert forall x :: x in s.issues ==> RowTracks(h, p, s, t, x);
  }

  lemma CounterTracksOn(h: History, p: nat, s: IssueTables, t: IssueTables, f: IssueTables, r: Id)
    requires p < |h| && Tracks(h, p, s, t, f) && Grown(ApplyIssue(s, h[p]), f, h, p + 1) && SameKeys(ApplyIssue(t, h[p]), f)
    requires forall x :: x in ApplyIssue(s, h[p]).issues ==>
               x in ApplyIssue(t, h[p]).issues && RowTracks(h, p + 1, ApplyIssue(s, h[p]), ApplyIssue(t, h[p]), x)
    requires r in ApplyIssue(s, h[p]).counters
    ensures r in ApplyIssue(t, h[p]).counters && CounterTracks(h, p + 1, ApplyIssue(s, h[p]), ApplyIssue(t, h[p]), r)
  {
    var (s', t', e) := (ApplyIssue(s, h[p]), ApplyIssue(t, h[p]), h[p].event);
    if MovesCounters(e) && e.repoId == r {
      if !RecountAhead(h, p + 1, r) {
        SameIssues(h, p + 1, s', t', f, r, true);
        SameIssues(h, p + 1, s', t', f, r, false);
      }
    } else if RecountAhead(h, p, r) {
      RecountStillAhead(h, p, r);
    }
  }

  lemma RecountStillAhead(h: History, p: nat, r: Id)
    requires p < |h| && RecountAhead(h, p, r) && !(MovesCounters(h[p].event) && h[p].event.repoId == r)
    ensures RecountAhead(h, p + 1, r)
  {
    var i :| p <= i < |h| && MovesCounters(h[i].event) && h[i].event.repoId == r;
    assert i != p;
  }

  lemma TracksOn(h: History, p: nat, s: IssueTables, t: IssueTables, f: IssueTables)
    requires p < |h| && Tracks(h, p, s, t, f) && Covers(f, h[p].event)
    requires Grown(ApplyIssue(s, h[p]), f, h, p + 1)
    ensures Tracks(h, p + 1, ApplyIssue(s, h[p]), ApplyIssue(t, h[p]), f)
  {
    var (s', t') := (ApplyIssue(s, h[p]), ApplyIssue(t, h[p]));
    KeysStay(t, f, h[p]);
    forall x | x in s'.issues ensures x in t'.issues && RowTracks(h, p + 1, s', t', x) {
      IssueRowTracks(h, p, s, t, f, x);
    }
    forall r | r in s'.counters ensures r in t'.counters && CounterTracks(h, p + 1, s', t', r) {
      CounterTracksOn(h, p, s, t, f, r);
    }
  }

  lemma {:induction false} ReplayTracks(h: History, p: nat)
    requires p <= |h|
    ensures var f := FoldIssues(NO_ISSUES, h); Tracks(h, p, At(NO_ISSUES, h, p), At(f, h, p), f)
  {
    var f := FoldIssues(NO_ISSUES, h);
    assert h[..|h|] == h;
    if p > 0 {
      ReplayTracks(h, p - 1);
      AtNext(NO_ISSUES, h, p - 1);
      AtNext(f, h, p - 1);
      FoldCovers(NO_ISSUES, h, p - 1);
      FoldGrows(NO_ISSUES, h, p, |h|);
      TracksOn(h, p - 1, At(NO_ISSUES, h, p - 1), At(f, h, p - 1), f);
    }
  }

  /** Replaying every issue event over the tables they produced changes no issue, no
      comment and no counter, for any history at all. */
  lemma IssuesReplay(h: History)
    ensures var f := FoldIssues(NO_ISSUES, h); FoldIssues(f, h) == f
  {
    var f := FoldIssues(NO_ISSUES, h);
    ReplayTracks(h, |h|);
    assert h[..|h|] == h;
    var t := FoldIssues(f, h);
    assert t.issues == f.issues by {
      forall x | x in f.issues ensures t.issues[x] == f.issues[x] { assert !CommentAhead(h, |h|, x); }
    }
    assert t.counters == f.counters by {
      forall r | r in f.counters ensures t.counters[r] == f.counters[r] { assert !RecountAhead(h, |h|, r); }
    }
  }

  /** And an event delivered twice changes nothing the second time. */
  lemma IssueEventTwice(t: IssueTables, s: Stamped<IssueEvent>)
    ensures ApplyIssue(ApplyIssue(t, s), s) == ApplyIssue(t, s)
  {
    var (once, twice) := (ApplyIssue(t, s), ApplyIssue(ApplyIssue(t, s), s));
    assert twice.comments == once.comments;
    assert twice.issues == once.issues;
  }

  // ---- Counters and counts agree with the rows ----

  /** The repository an event names is the one its issue belongs to. */
  ghost predicate Agrees(t: IssueTables, e: IssueEvent) {
    e.issueId in t.issues ==> t.issues[e.issueId].repoId == e.repoId
  }

  ghost predicate CountersRight(t: IssueTables) {
    && (forall r :: r in t.counters ==> t.counters[r] == CountIssues(t.issues, r))
    && (forall x :: x in t.issues ==> t.issues[x].repoId in t.counters)
  }

  lemma OtherCountsStay(t: IssueTables, s: Stamped<IssueEvent>, r: Id, open: bool)
    requires Agrees(t, s.event) && !(MovesCounters(s.event) && s.event.repoId == r)
    ensures IssuesIn(ApplyIssue(t, s).issues, r, open) == IssuesIn(t.issues, r, open)
  {
    var (a, b) := (t.issues, ApplyIssue(t, s).issues);
    forall x ensures x in IssuesIn(a, r, open) <==> x in IssuesIn(b, r, open) {
      assert x != s.event.issueId ==> Get(a, x) == Get(b, x);
      assert Get(a, x).Some? <==> x in a;
      assert Get(b, x).Some? <==> x in b;
    }
  }

  lemma CountersStayRight(t: IssueTables, s: Stamped<IssueEvent>)
    requires CountersRight(t) && Agrees(t, s.event)
    ensures CountersRight(ApplyIssue(t, s))
  {
    var (t', e) := (ApplyIssue(t, s), s.event);
    forall r | r in t'.counters ensures t'.counters[r] == CountIssues(t'.issues, r) {
      if !(MovesCounters(e) && e.repoId == r) {
        OtherCountsStay(t, s, r, true);
        OtherCountsStay(t, s, r, false);
      }
    }
  }

  /** Every event about an issue names one repository, wherever in the history. */
  ghost predicate Consistent(h: History) {
    forall i, j :: 0 <= i < |h| && 0 <= j < |h| && h[i].event.issueId == h[j].event.issueId ==> h[i].event.repoId == h[j].event.repoId
  }

  lemma {:induction false} RowsComeFromEvents(h: History, x: Id)
    requires x in FoldIssues(NO_ISSUES, h).issues
    ensures exists i :: 0 <= i < |h| && h[i].event.issueId == x && h[i].event.repoId == FoldIssues(NO_ISSUES, h).issues[x].repoId
  {
    assert h[..|h|] == h && h[..0] == [];
    FoldGrows(NO_ISSUES, h, 0, |h|);
    assert OpeningAhead(h, 0, x, FoldIssues(NO_ISSUES, h).issues[x].repoId);
  }

  /** After any history, the replays in it included, every counter is the number of
      the repository's open and closed issue rows. */
  lemma {:induction false} CountersAreCounts(h: History)
    requires Consistent(h)
    ensures CountersRight(FoldIssues(NO_ISSUES, h))
  {
    if h != [] {
      var (init, last) := (h[..|h| - 1], h[|h| - 1]);
      var t := FoldIssues(NO_ISSUES, init);
      CountersAreCounts(init);
      if last.event.issueId in t.issues {
        RowsComeFromEvents(init, last.event.issueId);
        var i :| 0 <= i < |init| && init[i].event.issueId == last.event.issueId && init[i].event.repoId == t.issues[last.event.issueId].repoId;
        assert h[i].event.repoId == h[|h| - 1].event.repoId;
      }
      CountersStayRight(t, last);
    }
  }

  /** A comment on the issue since its latest opening. */
  function Discussed(h: History, issue: Id): bool {
    if h == [] then false
    else
      var e := h[|h| - 1].event;
      if e.issueId == issue && e.Commented? then true
      else if e.issueId == issue && e.IssueOpened? then false
      else Discussed(h[..|h| - 1], issue)
  }

  /** An issue's comment count is one page of its stored comments once it has been
      commented on since it was last opened, and zero until then. */
  lemma {:induction false} CommentCountIsAPage(h: History, x: Id)
    requires x in FoldIssues(NO_ISSUES, h).issues
    ensures var t := FoldIssues(NO_ISSUES, h);
      t.issues[x].commentCount == if Discussed(h, x) then CountComments(t.comments, x) else 0
  {
    var (init, s) := (h[..|h| - 1], h[|h| - 1]);
    var (t, t') := (FoldIssues(NO_ISSUES, init), FoldIssues(NO_ISSUES, h));
    if x in t.issues {
      CommentCountIsAPage(init, x);
    }
    if !(s.event.Commented? && s.event.issueId == x) {
      assert CommentsOn(t'.comments, x) == CommentsOn(t.comments, x);
    }
  }
}
