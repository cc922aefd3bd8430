/** What a row shows, said of the history of events alone: which event each of its
    columns comes from. */
module RowHistories {
  import opened Base
  import opened Events
  import opened Rows
  import opened Replay
  import opened MergeButton
  import IssueReplay

  function Last<E>(h: seq<E>, p: E -> bool): (r: Option<E>)
    ensures r.Some? ==> p(r.value)
  {
    if h == [] then None else if p(h[|h| - 1]) then Some(h[|h| - 1]) else Last(h[..|h| - 1], p)
  }

  function First<E>(h: seq<E>, p: E -> bool): (r: Option<E>)
    ensures r.Some? ==> p(r.value)
  {
    if h == [] then None
    else if First(h[..|h| - 1], p).Some? then First(h[..|h| - 1], p)
    else if p(h[|h| - 1]) then Some(h[|h| - 1]) else None
  }

  lemma {:induction false} FirstAndLast<E>(h: seq<E>, p: E -> bool)
    ensures First(h, p).Some? <==> Last(h, p).Some?
  {
    if h != [] { FirstAndLast(h[..|h| - 1], p); }
  }

  lemma KeyedNext<R, E>(keyOf: E -> Option<Id>, step: (Option<R>, E) -> Option<R>, h: seq<E>, k: Id)
    requires h != []
    ensures var (before, e) := (Get(FoldKeyed(keyOf, step, map[], h[..|h| - 1]), k), h[|h| - 1]);
      Get(FoldKeyed(keyOf, step, map[], h), k) == if keyOf(e) == Some(k) then step(before, e) else before
  {}

  // ---- Users ----

  type UserHistory = seq<Stamped<UserEvent>>

  function OfUserEvent(id: Id): Stamped<UserEvent> -> bool { (s: Stamped<UserEvent>) => s.event.userId == id }

  function Registering(id: Id): Stamped<UserEvent> -> bool {
    (s: Stamped<UserEvent>) => s.event.userId == id && s.event.Registered?
  }

  function Profiling(id: Id): Stamped<UserEvent> -> bool {
    (s: Stamped<UserEvent>) => s.event.userId == id && (s.event.Registered? || s.event.ProfileUpdated?)
  }

  function Activating(id: Id): Stamped<UserEvent> -> bool {
    (s: Stamped<UserEvent>) => s.event.userId == id && (s.event.Registered? || s.event.Deactivated?)
  }

  /** A user is there once registered, under what the last registration said, with the
      profile set since, active unless deactivated since. */
  ghost predicate UserSays(h: UserHistory, id: Id, row: Option<UserRow>) {
    var (first, registered, profile, status, last) :=
      (First(h, Registering(id)), Last(h, Registering(id)), Last(h, Profiling(id)), Last(h, Activating(id)), Last(h, OfUserEvent(id)));
    && (row.Some? <==> registered.Some?)
    && (row.Some? ==>
          && first.Some? && profile.Some? && status.Some? && last.Some?
          && row.value.username == registered.value.event.username && row.value.usernameLower == registered.value.event.usernameLower
          && row.value.email == registered.value.event.email && row.value.passwordHash == registered.value.event.passwordHash
          && row.value.displayName == (if profile.value.event.ProfileUpdated? then profile.value.event.displayName else None)
          && row.value.bio == (if profile.value.event.ProfileUpdated? then profile.value.event.bio else None)
          && row.value.active == !status.value.event.Deactivated?
          && row.value.createdAt == first.value.at && row.value.updatedAt == last.value.at)
  }

  lemma {:induction false} UsersSpeak(h: UserHistory, id: Id)
    ensures UserSays(h, id, Get(FoldUsers(map[], h), id))
  {
    if h != [] {
      UsersSpeak(h[..|h| - 1], id);
      KeyedNext(UserKeyOf, UserStep, h, id);
      FirstAndLast(h[..|h| - 1], Registering(id));
    }
  }

  // ---- Repositories ----

  type RepoHistory = seq<Stamped<RepoEvent>>

  function Creating(id: Id): Stamped<RepoEvent> -> bool { (s: Stamped<RepoEvent>) => s.event.repoId == id && s.event.Created? }

  function Naming(id: Id): Stamped<RepoEvent> -> bool {
    (s: Stamped<RepoEvent>) => s.event.repoId == id && (s.event.Created? || s.event.Renamed?)
  }

  function Describing(id: Id): Stamped<RepoEvent> -> bool {
    (s: Stamped<RepoEvent>) => s.event.repoId == id && (s.event.Created? || s.event.DescriptionChanged?)
  }

  function Showing(id: Id): Stamped<RepoEvent> -> bool {
    (s: Stamped<RepoEvent>) => s.event.repoId == id && (s.event.Created? || s.event.VisibilityChanged?)
  }

  function Branching(id: Id): Stamped<RepoEvent> -> bool {
    (s: Stamped<RepoEvent>) => s.event.repoId == id && (s.event.Created? || s.event.DefaultBranchChanged?)
  }

  function Ending(id: Id): Stamped<RepoEvent> -> bool {
    (s: Stamped<RepoEvent>) => s.event.repoId == id && (s.event.Created? || s.event.RepoDeleted?)
  }

  function Changing(id: Id): Stamped<RepoEvent> -> bool {
    (s: Stamped<RepoEvent>) => s.event.repoId == id && !s.event.CollaboratorAdded? && !s.event.CollaboratorRemoved?
  }

  /** A repository is there once created. Its owner is as last created, its name as last
      created or changed; collaborators are not part of the row. */
  ghost predicate RepoIs(h: RepoHistory, id: Id, row: Option<RepoRow>) {
    var (first, created, named, last) := (First(h, Creating(id)), Last(h, Creating(id)), Last(h, Naming(id)), Last(h, Changing(id)));
    && (row.Some? <==> created.Some?)
    && (row.Some? ==>
          && first.Some? && named.Some? && last.Some?
          && row.value.ownerId == created.value.event.ownerId && row.value.ownerName == created.value.event.ownerName
          && row.value.name == named.value.event.name && row.value.fullNameLower == named.value.event.fullNameLower
          && row.value.createdAt == first.value.at && row.value.updatedAt == last.value.at)
  }

  /** Each of its settings is as last created or changed, and a deletion lasts until it is
      created again. */
  ghost predicate RepoIsSet(h: RepoHistory, id: Id, row: Option<RepoRow>) {
    var (described, shown, branched, ended) := (Last(h, Describing(id)), Last(h, Showing(id)), Last(h, Branching(id)), Last(h, Ending(id)));
    row.Some? ==>
      && described.Some? && shown.Some? && branched.Some? && ended.Some?
      && row.value.description == described.value.event.description
      && row.value.visibility == shown.value.event.visibility && row.value.defaultBranch == branched.value.event.defaultBranch
      && row.value.deleted == ended.value.event.RepoDeleted?
  }

  lemma {:induction false} ReposSpeak(h: RepoHistory, id: Id)
    ensures RepoIs(h, id, Get(FoldRepos(map[], h), id))
  {
    if h != [] {
      ReposSpeak(h[..|h| - 1], id);
      KeyedNext(RepoKeyOf, RepoStep, h, id);
      FirstAndLast(h[..|h| - 1], Creating(id));
    }
  }

  lemma {:induction false} RepoSettingsSpeak(h: RepoHistory, id: Id)
    ensures RepoIsSet(h, id, Get(FoldRepos(map[], h), id))
  {
    if h != [] {
      RepoSettingsSpeak(h[..|h| - 1], id);
      KeyedNext(RepoKeyOf, RepoStep, h, id);
    }
  }

  // ---- Pull requests ----

  function Opening(pr: Id): Stamped<PrEvent> -> bool { (s: Stamped<PrEvent>) => s.event.prId == pr && s.event.PrOpened? }

  function Merging(pr: Id): Stamped<PrEvent> -> bool {
    (s: Stamped<PrEvent>) => s.event.prId == pr && (s.event.PrOpened? || s.event.Merged?)
  }

  function Toggling(pr: Id): Stamped<PrEvent> -> bool {
    (s: Stamped<PrEvent>) => s.event.prId == pr && (s.event.PrOpened? || s.event.PrClosed? || s.event.PrReopened?)
  }

  /** When a request was last written to: by anything but a review, and by a trial merge
      only if it was for the commits the request stood between. */
  function LastTouched(h: PrHistory, pr: Id): Option<Instant> {
    if h == [] then None
    else
      var (init, s) := (h[..|h| - 1], h[|h| - 1]);
      if s.event.prId != pr || s.event.Reviewed? then LastTouched(init, pr)
      else if s.event.MergeabilityComputed? && !Accepts(StandingAfter(NOWHERE, init, pr), s.event, pr) then LastTouched(init, pr)
      else Some(s.at)
  }

  /** What identifies a request comes from its first opening, its text from the last;
      it bears the marks of the last merge since, or of a closing since that nothing
      undid. */
  ghost predicate PullSays(h: PrHistory, pr: Id, row: Option<PullRow>) {
    var (first, raised, merge, toggle) := (First(h, Opening(pr)), Last(h, Opening(pr)), Last(h, Merging(pr)), Last(h, Toggling(pr)));
    && (row.Some? <==> raised.Some?)
    && (row.Some? ==>
          && first.Some? && merge.Some? && toggle.Some? && LastTouched(h, pr).Some?
          && (row.value.repoId, row.value.number, row.value.authorId) == (first.value.event.repoId, first.value.event.number, first.value.event.authorId)
          && row.value.authorName == first.value.event.authorName
          && row.value.sourceBranch == first.value.event.sourceBranch && row.value.targetBranch == first.value.event.targetBranch
          && row.value.createdAt == first.value.at && row.value.commentCount == 0
          && row.value.title == raised.value.event.title && row.value.body == raised.value.event.body
          && row.value.updatedAt == LastTouched(h, pr).value
          && if merge.value.event.Merged? then
               && row.value.state == PullMerged && row.value.mergeCommit == Some(merge.value.event.mergeCommit)
               && row.value.mergedByName == Some(merge.value.event.mergedByName)
               && row.value.mergedAt == Some(merge.value.at) && row.value.closedAt == Some(merge.value.at)
             else
               && row.value.mergeCommit == None && row.value.mergedByName == None && row.value.mergedAt == None
               && row.value.state == (if toggle.value.event.PrClosed? then PullClosed else PullOpen)
               && row.value.closedAt == (if toggle.value.event.PrClosed? then Some(toggle.value.at) else None))
  }

  lemma {:induction false} PullsSpeak(h: PrHistory, pr: Id)
    ensures PullSays(h, pr, Row(h, pr))
  {
    if h != [] {
      PullsSpeak(h[..|h| - 1], pr);
      RowsSpeakForHistories(h[..|h| - 1], pr);
      RowNext(h, pr);
      FirstAndLast(h[..|h| - 1], Opening(pr));
    }
  }

  function Reviewing(id: Id): Stamped<PrEvent> -> bool { (s: Stamped<PrEvent>) => s.event.Reviewed? && s.event.reviewId == id }

  /** A review is what was first said under its id. */
  lemma {:induction false} ReviewsSpeak(h: PrHistory, id: Id)
    ensures Get(FoldReviews(map[], h), id) ==
            (match First(h, Reviewing(id))
             case None => None
             case Some(s) => Some(ReviewRow(s.event.prId, s.event.repoId, s.event.reviewerId, s.event.reviewerName, s.event.verdict, s.event.remark, s.at)))
  {
    if h != [] {
      ReviewsSpeak(h[..|h| - 1], id);
      KeyedNext(ReviewKeyOf, ReviewStep, h, id);
    }
  }

  // ---- Issues ----

  type IssueHistory = seq<Stamped<IssueEvent>>

  function Raising(x: Id): Stamped<IssueEvent> -> bool { (s: Stamped<IssueEvent>) => s.event.issueId == x && s.event.IssueOpened? }

  function Titling(x: Id): Stamped<IssueEvent> -> bool {
    (s: Stamped<IssueEvent>) => s.event.issueId == x && (s.event.IssueOpened? || s.event.TitleChanged?)
  }

  function Resolving(x: Id): Stamped<IssueEvent> -> bool {
    (s: Stamped<IssueEvent>) => s.event.issueId == x && (s.event.IssueOpened? || s.event.IssueClosed? || s.event.IssueReopened?)
  }

  function OfIssueEvent(x: Id): Stamped<IssueEvent> -> bool { (s: Stamped<IssueEvent>) => s.event.issueId == x }

  /** An issue is there once opened. What identifies it comes from its first opening; its
      title is that of the last opening or retitling; it is open unless its last opening,
      closing or reopening is a closing, and then it was closed at that time. */
  ghost predicate IssueSays(h: IssueHistory, x: Id, row: Option<IssueRow>) {
    var (first, raised, titled, resolved, last) :=
      (First(h, Raising(x)), Last(h, Raising(x)), Last(h, Titling(x)), Last(h, Resolving(x)), Last(h, OfIssueEvent(x)));
    && (row.Some? <==> raised.Some?)
    && (row.Some? ==>
          && first.Some? && titled.Some? && resolved.Some? && last.Some?
          && (row.value.repoId, row.value.number, row.value.authorId) == (first.value.event.repoId, first.value.event.number, first.value.event.authorId)
          && row.value.authorName == first.value.event.authorName && row.value.createdAt == first.value.at
          && row.value.title == titled.value.event.title && row.value.body == raised.value.event.body
          && row.value.open == !resolved.value.event.IssueClosed?
          && row.value.closedAt == (if resolved.value.event.IssueClosed? then Some(resolved.value.at) else None)
          && row.value.updatedAt == last.value.at)
  }

  /** A row but for its comment count, which depends on the comments. */
  function Uncounted(row: Option<IssueRow>): Option<IssueRow> {
    match row case Some(r) => Some(r.(commentCount := 0)) case None => None
  }

  lemma StepUncounted(row: Option<IssueRow>, n: int, m: int, s: Stamped<IssueEvent>)
    ensures Uncounted(IssueStep(row, n, s)) == Uncounted(IssueStep(row, m, s))
  {}

  lemma IssueNext(h: IssueHistory, x: Id)
    requires h != []
    ensures var (row, s) := (Get(FoldIssues(NO_ISSUES, h[..|h| - 1]).issues, x), h[|h| - 1]);
      Uncounted(Get(FoldIssues(NO_ISSUES, h).issues, x)) == if s.event.issueId == x then Uncounted(IssueStep(row, 0, s)) else Uncounted(row)
  {
    var (t, s) := (FoldIssues(NO_ISSUES, h[..|h| - 1]), h[|h| - 1]);
    ApplyNext(t, s, x);
  }

  lemma ApplyNext(t: IssueTables, s: Stamped<IssueEvent>, x: Id)
    ensures Uncounted(Get(ApplyIssue(t, s).issues, x)) ==
            if s.event.issueId == x then Uncounted(IssueStep(Get(t.issues, x), 0, s)) else Uncounted(Get(t.issues, x))
  {
    var comments := if s.event.Commented? then Put(t.comments, s.event.commentId, CommentStep(Get(t.comments, s.event.commentId), s)) else t.comments;
    var n := CountComments(comments, s.event.issueId);
    GetPut(t.issues, s.event.issueId, IssueStep(Get(t.issues, s.event.issueId), n, s), x);
    StepUncounted(Get(t.issues, s.event.issueId), n, 0, s);
  }

  lemma {:induction false} IssuesSpeak(h: IssueHistory, x: Id)
    ensures IssueSays(h, x, Get(FoldIssues(NO_ISSUES, h).issues, x))
  {
    if h != [] {
      IssuesSpeak(h[..|h| - 1], x);
      IssueNext(h, x);
      FirstAndLast(h[..|h| - 1], Raising(x));
    }
  }

  function Commenting(id: Id): Stamped<IssueEvent> -> bool { (s: Stamped<IssueEvent>) => s.event.Commented? && s.event.commentId == id }

  /** A comment is what was first said under its id. */
  lemma {:induction false} CommentsSpeak(h: IssueHistory, id: Id)
    ensures Get(FoldIssues(NO_ISSUES, h).comments, id) ==
            (match First(h, Commenting(id))
             case None => None
             case Some(s) => Some(CommentRow(s.event.issueId, s.event.repoId, s.event.authorId, s.event.authorName, s.event.text, s.at, s.at)))
  {
    if h != [] {
      CommentsSpeak(h[..|h| - 1], id);
    }
  }

  /** The issues ever opened in a repository that are open, or closed, by the history. */
  function InRepo(h: IssueHistory, repo: Id, open: bool): set<Id> {
    set i | 0 <= i < |h| && h[i].event.IssueOpened? && First(h, Raising(h[i].event.issueId)).Some?
            && First(h, Raising(h[i].event.issueId)).value.event.repoId == repo && Last(h, Resolving(h[i].event.issueId)).Some?
            && Last(h, Resolving(h[i].event.issueId)).value.event.IssueClosed? == !open
          :: h[i].event.issueId
  }

  lemma {:induction false} RaisedSomewhere(h: IssueHistory, x: Id)
    requires First(h, Raising(x)).Some?
    ensures exists i :: 0 <= i < |h| && h[i].event.IssueOpened? && h[i].event.issueId == x
  {
    if First(h[..|h| - 1], Raising(x)).Some? {
      RaisedSomewhere(h[..|h| - 1], x);
      var i :| 0 <= i < |h| - 1 && h[..|h| - 1][i].event.IssueOpened? && h[..|h| - 1][i].event.issueId == x;
      assert h[i].event.IssueOpened?;
    } else {
      assert h[|h| - 1].event.IssueOpened?;
    }
  }

  lemma SameIssueSets(h: IssueHistory, repo: Id, open: bool)
    ensures IssuesIn(FoldIssues(NO_ISSUES, h).issues, repo, open) == InRepo(h, repo, open)
  {
    var issues := FoldIssues(NO_ISSUES, h).issues;
    forall x ensures x in IssuesIn(issues, repo, open) <==> x in InRepo(h, repo, open) {
      IssuesSpeak(h, x);
      FirstAndLast(h, Raising(x));
      assert Get(issues, x).Some? <==> x in issues;
      if First(h, Raising(x)).Some? {
        RaisedSomewhere(h, x);
      }
    }
  }

  /** The distinct comments ever made on an issue. */
  function CommentsMade(h: IssueHistory, x: Id): set<Id> {
    set i | 0 <= i < |h| && h[i].event.Commented? && First(h, Commenting(h[i].event.commentId)).Some?
            && First(h, Commenting(h[i].event.commentId)).value.event.issueId == x
          :: h[i].event.commentId
  }

  lemma {:induction false} MadeSomewhere(h: IssueHistory, id: Id)
    requires First(h, Commenting(id)).Some?
    ensures First(h, Commenting(id)).value.event.Commented?
    ensures exists i :: 0 <= i < |h| && h[i].event.Commented? && h[i].event.commentId == id
  {
    if First(h[..|h| - 1], Commenting(id)).Some? {
      MadeSomewhere(h[..|h| - 1], id);
      var i :| 0 <= i < |h| - 1 && h[..|h| - 1][i].event.Commented? && h[..|h| - 1][i].event.commentId == id;
      assert h[i].event.Commented?;
    } else {
      assert h[|h| - 1].event.Commented?;
    }
  }

  /** An issue's comment count is the number of its comments, or 100 if there are more,
      once it has been commented on since it was last opened, and zero until then. */
  lemma CommentCountsSpeak(h: IssueHistory, x: Id)
    requires x in FoldIssues(NO_ISSUES, h).issues
    ensures FoldIssues(NO_ISSUES, h).issues[x].commentCount ==
            if !IssueReplay.Discussed(h, x) then 0 else if |CommentsMade(h, x)| > 100 then 100 else |CommentsMade(h, x)|
  {
    var comments := FoldIssues(NO_ISSUES, h).comments;
    forall c ensures c in CommentsOn(comments, x) <==> c in CommentsMade(h, x) {
      CommentsSpeak(h, c);
      assert Get(comments, c).Some? <==> c in comments;
      if First(h, Commenting(c)).Some? { MadeSomewhere(h, c); }
    }
    assert CommentsOn(comments, x) == CommentsMade(h, x);
    IssueReplay.CommentCountIsAPage(h, x);
  }

  lemma {:induction false} CountedWhen(h: IssueHistory, repo: Id)
    ensures repo in FoldIssues(NO_ISSUES, h).counters <==>
              exists i :: 0 <= i < |h| && h[i].event.repoId == repo && (h[i].event.IssueOpened? || h[i].event.IssueClosed? || h[i].event.IssueReopened?)
  {
    if h != [] {
      var init := h[..|h| - 1];
      CountedWhen(init, repo);
      assert forall i :: 0 <= i < |init| ==> init[i] == h[i];
    }
  }

  /** A repository's counters are the numbers of its issues the history leaves open and
      closed. */
  lemma CountersSpeak(h: IssueHistory, repo: Id)
    requires IssueReplay.Consistent(h) && repo in FoldIssues(NO_ISSUES, h).counters
    ensures FoldIssues(NO_ISSUES, h).counters[repo] == Counters(|InRepo(h, repo, true)|, |InRepo(h, repo, false)|)
  {
    IssueReplay.CountersAreCounts(h);
    SameIssueSets(h, repo, true);
    SameIssueSets(h, repo, false);
  }
}
