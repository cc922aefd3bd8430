/** From what was asked for to what is shown: commands write events, projection folds
    events into rows, and the rows show what the commands were asked for. */
module Shown {
  import opened Base
  import opened Events
  import opened Commands
  import opened Rows
  import opened Replay
  import opened Projection
  import opened RowHistories
  import MergeButton

  // ---- A drained projector shows the history of its topic ----

  function UserEventIn(r: Record): Option<Stamped<UserEvent>> {
    match r.value case Some(OfUser(e, at)) => Some(Stamped(e, at)) case _ => None
  }

  function RepoEventIn(r: Record): Option<Stamped<RepoEvent>> {
    match r.value case Some(OfRepo(e, at)) => Some(Stamped(e, at)) case _ => None
  }

  function PrEventIn(r: Record): Option<Stamped<PrEvent>> {
    match r.value case Some(OfPr(e, at)) => Some(Stamped(e, at)) case _ => None
  }

  function IssueEventIn(r: Record): Option<Stamped<IssueEvent>> {
    match r.value case Some(OfIssue(e, at)) => Some(Stamped(e, at)) case _ => None
  }

  function CiEventIn(r: Record): Option<Stamped<CiEvent>> {
    match r.value case Some(OfCi(e, at)) => Some(Stamped(e, at)) case _ => None
  }

  /** The events of one kind in some records; what does not decode is skipped. */
  function EventsIn<E>(rs: seq<Record>, decode: Record -> Option<E>): seq<E> {
    if rs == [] then []
    else EventsIn(rs[..|rs| - 1], decode) + (match decode(rs[|rs| - 1]) case Some(e) => [e] case None => [])
  }

  lemma EventsNext<E>(rs: seq<Record>, decode: Record -> Option<E>)
    requires rs != []
    ensures var e := decode(rs[|rs| - 1]);
      EventsIn(rs, decode) == if e.Some? then EventsIn(rs[..|rs| - 1], decode) + [e.value] else EventsIn(rs[..|rs| - 1], decode)
  {}

  lemma IssueAppend(h: seq<Stamped<IssueEvent>>, e: Stamped<IssueEvent>)
    ensures FoldIssues(NO_ISSUES, h + [e]) == ApplyIssue(FoldIssues(NO_ISSUES, h), e)
  {
    assert (h + [e])[..|h|] == h;
  }

  lemma CiAppend(h: seq<Stamped<CiEvent>>, e: Stamped<CiEvent>)
    ensures FoldCi(NO_CI, h + [e]) == ApplyCi(FoldCi(NO_CI, h), e)
  {
    assert (h + [e])[..|h|] == h;
  }

  lemma KeyedAppend<R, E>(keyOf: E -> Option<Id>, step: (Option<R>, E) -> Option<R>, t: map<Id, R>, h: seq<E>, e: E)
    ensures FoldKeyed(keyOf, step, t, h + [e]) == ApplyKeyed(keyOf, step, FoldKeyed(keyOf, step, t, h), e)
  {
    assert (h + [e])[..|h|] == h;
  }

  lemma OneUser(s: Snapshot, r: Record)
    ensures Projected(EventsUsers, s, r).users == if UserEventIn(r).Some? then ApplyKeyed(UserKeyOf, UserStep, s.users, UserEventIn(r).value) else s.users
  {}

  lemma {:induction false} UsersRefine(rs: seq<Record>)
    ensures Folded(EventsUsers, NO_ROWS, rs).users == FoldUsers(map[], EventsIn(rs, UserEventIn))
  {
    if rs != [] {
      var (init, last) := (rs[..|rs| - 1], rs[|rs| - 1]);
      UsersRefine(init);
      EventsNext(rs, UserEventIn);
      OneUser(Folded(EventsUsers, NO_ROWS, init), last);
      if UserEventIn(last).Some? {
        KeyedAppend(UserKeyOf, UserStep, map[], EventsIn(init, UserEventIn), UserEventIn(last).value);
      }
    }
  }

  lemma OneRepo(s: Snapshot, r: Record)
    ensures Projected(EventsRepos, s, r).repos == if RepoEventIn(r).Some? then ApplyKeyed(RepoKeyOf, RepoStep, s.repos, RepoEventIn(r).value) else s.repos
  {}

  lemma {:induction false} ReposRefine(rs: seq<Record>)
    ensures Folded(EventsRepos, NO_ROWS, rs).repos == FoldRepos(map[], EventsIn(rs, RepoEventIn))
  {
    if rs != [] {
      var (init, last) := (rs[..|rs| - 1], rs[|rs| - 1]);
      ReposRefine(init);
      EventsNext(rs, RepoEventIn);
      OneRepo(Folded(EventsRepos, NO_ROWS, init), last);
      if RepoEventIn(last).Some? {
        KeyedAppend(RepoKeyOf, RepoStep, map[], EventsIn(init, RepoEventIn), RepoEventIn(last).value);
      }
    }
  }

  lemma OnePull(s: Snapshot, r: Record)
    ensures Projected(EventsPrs, s, r).pulls == if PrEventIn(r).Some? then ApplyKeyed(PullKeyOf, PullStep, s.pulls, PrEventIn(r).value) else s.pulls
  {}

  lemma {:induction false} PullsRefine(rs: seq<Record>)
    ensures Folded(EventsPrs, NO_ROWS, rs).pulls == FoldPulls(map[], EventsIn(rs, PrEventIn))
  {
    if rs != [] {
      var (init, last) := (rs[..|rs| - 1], rs[|rs| - 1]);
      PullsRefine(init);
      EventsNext(rs, PrEventIn);
      OnePull(Folded(EventsPrs, NO_ROWS, init), last);
      if PrEventIn(last).Some? {
        KeyedAppend(PullKeyOf, PullStep, map[], EventsIn(init, PrEventIn), PrEventIn(last).value);
      }
    }
  }

  lemma OneReview(s: Snapshot, r: Record)
    ensures Projected(EventsPrs, s, r).reviews == if PrEventIn(r).Some? then ApplyKeyed(ReviewKeyOf, ReviewStep, s.reviews, PrEventIn(r).value) else s.reviews
  {}

  lemma {:induction false} ReviewsRefine(rs: seq<Record>)
    ensures Folded(EventsPrs, NO_ROWS, rs).reviews == FoldReviews(map[], EventsIn(rs, PrEventIn))
  {
    if rs != [] {
      var (init, last) := (rs[..|rs| - 1], rs[|rs| - 1]);
      ReviewsRefine(init);
      EventsNext(rs, PrEventIn);
      OneReview(Folded(EventsPrs, NO_ROWS, init), last);
      if PrEventIn(last).Some? {
        KeyedAppend(ReviewKeyOf, ReviewStep, map[], EventsIn(init, PrEventIn), PrEventIn(last).value);
      }
    }
  }

  lemma OneIssue(s: Snapshot, r: Record)
    ensures Projected(EventsIssues, s, r).issues == if IssueEventIn(r).Some? then ApplyIssue(s.issues, IssueEventIn(r).value) else s.issues
  {}

  lemma {:induction false} IssuesRefine(rs: seq<Record>)
    ensures Folded(EventsIssues, NO_ROWS, rs).issues == FoldIssues(NO_ISSUES, EventsIn(rs, IssueEventIn))
  {
    if rs != [] {
      var init := rs[..|rs| - 1];
      IssuesRefine(init);
      OneIssue(Folded(EventsIssues, NO_ROWS, init), rs[|rs| - 1]);
      EventsNext(rs, IssueEventIn);
      if IssueEventIn(rs[|rs| - 1]).Some? {
        IssueAppend(EventsIn(init, IssueEventIn), IssueEventIn(rs[|rs| - 1]).value);
      }
    }
  }

  lemma OneCi(s: Snapshot, r: Record)
    ensures Projected(EventsCi, s, r).ci == if CiEventIn(r).Some? then ApplyCi(s.ci, CiEventIn(r).value) else s.ci
  {}

  lemma {:induction false} CiRefines(rs: seq<Record>)
    ensures Folded(EventsCi, NO_ROWS, rs).ci == FoldCi(NO_CI, EventsIn(rs, CiEventIn))
  {
    if rs != [] {
      var init := rs[..|rs| - 1];
      CiRefines(init);
      OneCi(Folded(EventsCi, NO_ROWS, init), rs[|rs| - 1]);
      EventsNext(rs, CiEventIn);
      if CiEventIn(rs[|rs| - 1]).Some? {
        CiAppend(EventsIn(init, CiEventIn), CiEventIn(rs[|rs| - 1]).value);
      }
    }
  }

  /** Rows that are the fold of a topic, as a projector leaves them once it has drained
      it, say of every id what the history of that topic's events says. */
  lemma DrainedRowsSpeak(rs: seq<Record>, id: Id)
    ensures UserSays(EventsIn(rs, UserEventIn), id, Get(Folded(EventsUsers, NO_ROWS, rs).users, id))
    ensures RepoIs(EventsIn(rs, RepoEventIn), id, Get(Folded(EventsRepos, NO_ROWS, rs).repos, id))
    ensures RepoIsSet(EventsIn(rs, RepoEventIn), id, Get(Folded(EventsRepos, NO_ROWS, rs).repos, id))
    ensures PullSays(EventsIn(rs, PrEventIn), id, Get(Folded(EventsPrs, NO_ROWS, rs).pulls, id))
    ensures IssueSays(EventsIn(rs, IssueEventIn), id, Get(Folded(EventsIssues, NO_ROWS, rs).issues.issues, id))
  {
    UsersRefine(rs);
    ReposRefine(rs);
    PullsRefine(rs);
    IssuesRefine(rs);
    UsersSpeak(EventsIn(rs, UserEventIn), id);
    ReposSpeak(EventsIn(rs, RepoEventIn), id);
    RepoSettingsSpeak(EventsIn(rs, RepoEventIn), id);
    PullsSpeak(EventsIn(rs, PrEventIn), id);
    IssuesSpeak(EventsIn(rs, IssueEventIn), id);
  }

  // ---- What a command was asked for is what its rows show ----

  /** The rows after the projectors of all topics have applied some records. */
  function ProjectedAll(s: Snapshot, rs: seq<Record>): Snapshot {
    if rs == [] then s else Projected(rs[|rs| - 1].topic, ProjectedAll(s, rs[..|rs| - 1]), rs[|rs| - 1])
  }

  lemma ProjectedOne(t: Snapshot, r: Record)
    ensures ProjectedAll(t, [r]) == Projected(r.topic, t, r)
  {
    assert [r][..0] == [];
  }

  lemma ProjectedTwo(t: Snapshot, a: Record, b: Record)
    ensures ProjectedAll(t, [a, b]) == Projected(b.topic, Projected(a.topic, t, a), b)
  {
    assert [a, b][..1] == [a];
    ProjectedOne(t, a);
  }

  lemma ProjectedThree(t: Snapshot, a: Record, b: Record, c: Record)
    ensures ProjectedAll(t, [a, b, c]) == Projected(c.topic, Projected(b.topic, Projected(a.topic, t, a), b), c)
  {
    assert [a, b, c][..2] == [a, b];
    ProjectedTwo(t, a, b);
  }

  /** The rows after a decision's records: only its event record says anything to them. */
  function ShownBy(s: State, c: Command, t: Snapshot): Snapshot
    requires Decide(s, c).Write?
  {
    ProjectedAll(t, Decide(s, c).records)
  }

  lemma ClaimShows(s: State, c: Command, t: Snapshot)
    requires Decide(s, c).Write? && (c.RegisterUser? || c.CreateRepo? || c.OpenIssue? || c.OpenPull?)
    ensures var rs := Decide(s, c).records; |rs| == 2 && ShownBy(s, c, t) == Projected(rs[0].topic, t, rs[0])
  {
    var rs := Decide(s, c).records;
    assert rs == [rs[0], rs[1]];
    ProjectedTwo(t, rs[0], rs[1]);
  }

  lemma RegistrationShows(s: State, c: Command, t: Snapshot)
    requires c.RegisterUser? && Decide(s, c).Write? && c.id !in t.users
    ensures ShownBy(s, c, t) == t.(users := t.users[c.id :=
      UserRow(c.username, Lower(c.username), c.email, c.passwordHash, None, None, true, c.at, c.at)])
  {
    ClaimShows(s, c, t);
  }

  lemma CreationShows(s: State, c: Command, t: Snapshot)
    requires c.CreateRepo? && Decide(s, c).Write? && c.id !in t.repos
    ensures ShownBy(s, c, t) == t.(repos := t.repos[c.id :=
      RepoRow(c.owner, c.ownerName, c.repoName, Lower(c.ownerName) + "/" + Lower(c.repoName), c.description, "main", c.visibility, c.at, c.at, false)])
  {
    ClaimShows(s, c, t);
  }

  /** A text with nothing but white space in it is no text. */
  predicate IsBody(given: Option<string>, stored: Option<string>) {
    stored == if given.Some? && (exists ch :: ch in given.value && !IsWhitespace(ch)) then given else None
  }

  lemma OpenedIssueShows(s: State, c: Command, t: Snapshot)
    requires c.OpenIssue? && Decide(s, c).Write? && c.id !in t.issues.issues
    ensures var r := Get(ShownBy(s, c, t).issues.issues, c.id);
      r.Some? && IsBody(c.body, r.value.body)
      && r == Some(IssueRow(c.repo, NextIssueNumber(s.catalog, c.repo), Trim(c.title), r.value.body, c.author, c.authorName, true, 0, c.at, c.at, None))
  {
    ClaimShows(s, c, t);
  }

  lemma OpenedPullShows(s: State, c: Command, t: Snapshot)
    requires c.OpenPull? && Decide(s, c).Write? && c.id !in t.pulls
    ensures var r := Get(ShownBy(s, c, t).pulls, c.id);
      r.Some? && IsBody(c.body, r.value.body)
      && r == Some(PullRow(c.repo, NextIssueNumber(s.catalog, c.repo), Trim(c.title), r.value.body, c.author, c.authorName, PullOpen,
                           c.source, c.target, c.head, c.base, None, None, None, 0, c.at, c.at, None, None))
  {
    ClaimShows(s, c, t);
  }

  lemma AnnouncementShows(s: State, c: Command, t: Snapshot)
    requires Decide(s, c).Write? && |Decide(s, c).records| == 1
    ensures ShownBy(s, c, t) == Projected(Decide(s, c).records[0].topic, t, Decide(s, c).records[0])
  {
    assert Decide(s, c).records == [Decide(s, c).records[0]];
    ProjectedOne(t, Decide(s, c).records[0]);
  }

  lemma CommentShows(s: State, c: Command, t: Snapshot)
    requires c.CommentOnIssue? && Decide(s, c).Write? && c.id !in t.issues.comments
    ensures Get(ShownBy(s, c, t).issues.comments, c.id) == Some(CommentRow(c.issue, c.repo, c.author, c.authorName, Trim(c.text), c.at, c.at))
  {
    AnnouncementShows(s, c, t);
  }

  lemma IssueStateShows(s: State, c: Command, t: Snapshot)
    requires c.SetIssueState? && c.issue in t.issues.issues
    ensures Get(ShownBy(s, c, t).issues.issues, c.issue) ==
            Some(t.issues.issues[c.issue].(open := c.open, closedAt := if c.open then None else Some(c.at), updatedAt := c.at))
  {
    AnnouncementShows(s, c, t);
  }

  lemma ReviewShows(s: State, c: Command, t: Snapshot)
    requires c.ReviewPull? && c.id !in t.reviews
    ensures var r := Get(ShownBy(s, c, t).reviews, c.id);
      r.Some? && IsBody(c.remark, r.value.remark)
      && r == Some(ReviewRow(c.pr, c.repo, c.reviewer, c.reviewerName, c.verdict, r.value.remark, c.at))
  {
    AnnouncementShows(s, c, t);
  }

  lemma MergeabilityShows(s: State, c: Command, t: Snapshot)
    requires c.RecordMergeability? && c.pr in t.pulls
    ensures var row := t.pulls[c.pr];
      Get(ShownBy(s, c, t).pulls, c.pr) ==
      if (row.headOid, row.baseOid) != (c.head, c.base) then Some(row)
      else Some(row.(check := Some(MergeCheck(c.mergeable, c.head, c.base, if c.mergeable then [] else c.conflicts)), updatedAt := c.at))
  {
    AnnouncementShows(s, c, t);
  }

  lemma SynchronizationShows(s: State, c: Command, t: Snapshot)
    requires c.SynchronizePull? && c.pr in t.pulls
    ensures Get(ShownBy(s, c, t).pulls, c.pr) == Some(t.pulls[c.pr].(headOid := c.head, baseOid := c.base, updatedAt := c.at))
  {
    AnnouncementShows(s, c, t);
  }

  lemma PullStateShows(s: State, c: Command, t: Snapshot)
    requires c.SetPullState? && c.pr in t.pulls
    ensures var (row, shown) := (t.pulls[c.pr], Get(ShownBy(s, c, t).pulls, c.pr));
      if row.state == PullMerged then shown == Some(row.(updatedAt := c.at))
      else if c.open then shown == Some(row.(state := PullOpen, closedAt := None, check := None, updatedAt := c.at))
      else shown == Some(row.(state := PullClosed, closedAt := Some(c.at), updatedAt := c.at))
  {
    AnnouncementShows(s, c, t);
  }

  lemma MergeShows(s: State, c: Command, t: Snapshot)
    requires c.MergePull? && Decide(s, c).Write? && c.pr in t.pulls
    ensures Get(ShownBy(s, c, t).pulls, c.pr) ==
            Some(t.pulls[c.pr].(state := PullMerged, mergeCommit := Some(c.mergeCommit), mergedByName := Some(c.mergedByName),
                                mergedAt := Some(c.at), closedAt := Some(c.at), updatedAt := c.at))
    ensures GetRef(Decide(s, c).next.refs, c.repo, "refs/heads/" + c.target) == Some(c.mergeCommit)
  {
    var rs := Decide(s, c).records;
    assert rs == [rs[0], rs[1], rs[2]];
    ProjectedThree(t, rs[0], rs[1], rs[2]);
  }

  // ---- Where records go ----

  /** Each kind of value has its topic, and an event is keyed by what keeps it in order:
      its user, or its repository. */
  predicate Routed(r: Record) {
    match r.value
    case None => r.topic == GitRefs
    case Some(OfUser(e, _)) => r.topic == EventsUsers && r.key == e.userId
    case Some(OfRepo(e, _)) => r.topic == EventsRepos && r.key == e.repoId
    case Some(OfIssue(e, _)) => r.topic == EventsIssues && r.key == e.repoId
    case Some(OfPr(e, _)) => r.topic == EventsPrs && r.key == e.repoId
    case Some(OfRef(e, _)) => r.topic == EventsGitRefs && r.key == e.repoId
    case Some(OfCi(e, _)) => r.topic == EventsCi && r.key == e.runId
    case Some(OfClaim(_)) => r.topic == MetaCatalog
    case Some(OfTarget(_)) => r.topic == GitRefs
    case Some(Unreadable) => false
  }

  lemma {:induction false} PushIsRouted(at: Instant, repo: Id, us: seq<RefUpdate>, pusher: Id)
    ensures forall k :: 0 <= k < |PushRecords(at, repo, us, pusher)| ==> Routed(PushRecords(at, repo, us, pusher)[k])
  {
    if us != [] { PushIsRouted(at, repo, us[..|us| - 1], pusher); }
  }

  lemma RecordsAreRouted(s: State, c: Command)
    requires Decide(s, c).Write?
    ensures forall k :: 0 <= k < |Decide(s, c).records| ==> Routed(Decide(s, c).records[k])
  {
    if c.UpdateRefs? {
      PushIsRouted(c.at, c.repo, c.updates, c.pusher);
    }
  }

  // ---- Who did it, and when ----

  /** Who a record says did what it is about, and when; some events do not say who. */
  function SignedBy(r: Record): Option<(Id, Instant)> {
    match r.value
    case Some(OfUser(e, at)) => Some((e.userId, at))
    case Some(OfRepo(e, at)) => if e.Created? then Some((e.ownerId, at)) else None
    case Some(OfIssue(e, at)) =>
      if e.IssueOpened? || e.Commented? then Some((e.authorId, at))
      else if e.IssueClosed? || e.IssueReopened? then Some((e.actor, at))
      else None
    case Some(OfPr(e, at)) =>
      if e.PrOpened? then Some((e.authorId, at))
      else if e.Reviewed? then Some((e.reviewerId, at))
      else if e.Merged? then Some((e.mergedBy, at))
      else if e.PrClosed? || e.PrReopened? then Some((e.actor, at))
      else None
    case Some(OfRef(e, at)) => Some((e.pusher, at))
    case _ => None
  }

  /** Whose command it is. */
  function Asker(c: Command): Option<Id> {
    match c
    case RegisterUser(id, _, _, _, _) => Some(id)
    case CreateRepo(_, _, owner, _, _, _, _) => Some(owner)
    case OpenIssue(_, _, _, author, _, _, _) => Some(author)
    case CommentOnIssue(_, _, _, _, author, _, _) => Some(author)
    case SetIssueState(_, _, _, actor, _) => Some(actor)
    case UpdateRefs(_, _, _, pusher) => Some(pusher)
    case OpenPull(_, _, _, author, _, _, _, _, _, _, _) => Some(author)
    case ReviewPull(_, _, _, _, reviewer, _, _, _) => Some(reviewer)
    case RecordMergeability(_, _, _, _, _, _, _) => None
    case SynchronizePull(_, _, _, _, _) => None
    case MergePull(_, _, _, _, _, _, _, mergedBy, _) => Some(mergedBy)
    case SetPullState(_, _, _, actor, _) => Some(actor)
  }

  /** Everything a command writes down about someone is about whoever sent it, and the
      time it was sent at. */
  lemma RecordsAreSigned(s: State, c: Command, k: nat)
    requires Decide(s, c).Write? && k < |Decide(s, c).records|
    ensures SignedBy(Decide(s, c).records[0]).Some? <==> Asker(c).Some?
    ensures var signed := SignedBy(Decide(s, c).records[k]); signed.Some? ==> Asker(c).Some? && signed.value == (Asker(c).value, c.at)
  {
    if c.UpdateRefs? {
      PushIsSigned(s, c, k);
    } else if c.MergePull? {
      MergeIsSigned(s, c, k);
    } else if c.RegisterUser? || c.CreateRepo? || c.OpenIssue? || c.OpenPull? {
      ClaimIsSigned(s, c, k);
    } else {
      AnnouncementIsSigned(s, c, k);
    }
  }

  predicate IsSigned(s: State, c: Command, k: nat)
    requires Decide(s, c).Write? && k < |Decide(s, c).records|
  {
    var signed := SignedBy(Decide(s, c).records[k]);
    && (SignedBy(Decide(s, c).records[0]).Some? <==> Asker(c).Some?)
    && (signed.Some? ==> Asker(c).Some? && signed.value == (Asker(c).value, c.at))
  }

  lemma PushIsSigned(s: State, c: Command, k: nat)
    requires c.UpdateRefs? && Decide(s, c).Write? && k < |Decide(s, c).records|
    ensures IsSigned(s, c, k)
  {
    PushIsLogged(c.at, c.repo, c.updates, c.pusher, 0);
    PushIsLogged(c.at, c.repo, c.updates, c.pusher, k / 2);
  }

  lemma MergeIsSigned(s: State, c: Command, k: nat)
    requires c.MergePull? && Decide(s, c).Write? && k < |Decide(s, c).records|
    ensures IsSigned(s, c, k)
  {}

  lemma ClaimIsSigned(s: State, c: Command, k: nat)
    requires (c.RegisterUser? || c.CreateRepo? || c.OpenIssue? || c.OpenPull?) && Decide(s, c).Write? && k < |Decide(s, c).records|
    ensures IsSigned(s, c, k)
  {}

  lemma AnnouncementIsSigned(s: State, c: Command, k: nat)
    requires c.CommentOnIssue? || c.SetIssueState? || c.ReviewPull? || c.RecordMergeability? || c.SynchronizePull? || c.SetPullState?
    requires Decide(s, c).Write? && k < |Decide(s, c).records|
    ensures IsSigned(s, c, k)
  {}

  /** The i-th update of a push is the i-th entry of the reflog it writes, with the state
      it leaves beside it. */
  lemma {:induction false} PushIsLogged(at: Instant, repo: Id, us: seq<RefUpdate>, pusher: Id, i: nat)
    requires i < |us|
    ensures var rs := PushRecords(at, repo, us, pusher);
      && |rs| == 2 * |us|
      && rs[2 * i].value == Some(OfRef(RefUpdated(repo, us[i].name, us[i].expectedOld, us[i].newOid, pusher), at))
      && rs[2 * i + 1].key == repo + "/" + us[i].name
      && rs[2 * i + 1].value == (if us[i].newOid.None? then None else Some(OfTarget(us[i].newOid.value)))
  {
    if |us| > 1 {
      PushIsLogged(at, repo, us[..|us| - 1], pusher, if i < |us| - 1 then i else 0);
    }
  }
}
