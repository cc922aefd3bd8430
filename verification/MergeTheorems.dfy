/** What a merge is checked against, and what it is not. Its command carries the base
    and the head the person clicking was looking at; only the base is compared. */
module MergeTheorems {
  import opened Base
  import opened Events
  import opened Commands
  import opened Protocol
  import opened ProtocolProofs
  import opened HistoryTheorems
  import opened Rows
  import opened MergeButton

  // ---- What the decision looks at ----

  function TargetOf(c: Command): string
    requires c.MergePull?
  {
    BranchRef(c.target)
  }

  /** A merge goes through exactly if its branch is at the expected base, whatever head
      was expected, and whatever has happened to the request. */
  lemma MergeTakesWhen(s: State, c: Command)
    requires c.MergePull?
    ensures Decide(s, c).Write? <==> GetRef(s.refs, c.repo, TargetOf(c)) == Some(c.expectedBase)
    ensures Decide(s, c).Reply? ==> Decide(s, c).answer == Refused(StaleMerge(c.expectedBase, GetRef(s.refs, c.repo, TargetOf(c))))
    ensures forall head :: Decide(s, c.(expectedHead := head)) == Decide(s, c)
  {}

  // ---- Where a branch is ----

  function LastMove(us: seq<RefUpdate>, name: string): Option<Option<Oid>> {
    if us == [] then None
    else if us[|us| - 1].name == name then Some(us[|us| - 1].newOid)
    else LastMove(us[..|us| - 1], name)
  }

  /** Where a transaction leaves a reference, if it moves it. */
  function LeavesAt(t: Txn, repo: Id, name: string): Option<Option<Oid>> {
    if t.committed && MovesRepo(t.command) == repo then LastMove(Moves(t.command), name) else None
  }

  lemma {:induction false} MoveAllLastMove(refs: map<string, Oid>, repo: Id, us: seq<RefUpdate>, q: Id, name: string)
    ensures GetRef(MoveAll(refs, repo, us), q, name) ==
            if repo == q && LastMove(us, name).Some? then LastMove(us, name).value else GetRef(refs, q, name)
  {
    if us != [] {
      var (init, last) := (us[..|us| - 1], us[|us| - 1]);
      MoveAllLastMove(refs, repo, init, q, name);
      RefKeyInjective(repo, last.name, q, name);
      GetPut(MoveAll(refs, repo, init), RefKey(repo, last.name), last.newOid, RefKey(q, name));
    }
  }

  lemma RefAfterLast(h: seq<Txn>, repo: Id, name: string)
    requires Lawful(h) && h != []
    ensures var t := h[|h| - 1];
      GetRef(Fold(h).refs, repo, name) ==
      if LeavesAt(t, repo, name).Some? then LeavesAt(t, repo, name).value else GetRef(Fold(h[..|h| - 1]).refs, repo, name)
  {
    LawfulLast(h);
    var (init, t) := (h[..|h| - 1], h[|h| - 1]);
    if t.committed {
      RefsAfter(Fold(init), t.command);
      MoveAllLastMove(Fold(init).refs, MovesRepo(t.command), Moves(t.command), repo, name);
    }
  }

  ghost predicate UntouchedSince(h: seq<Txn>, k: nat, repo: Id, name: string) {
    forall m :: k < m < |h| ==> LeavesAt(h[m], repo, name).None?
  }

  /** The last transaction to move a reference left it where it is. */
  lemma {:induction false} WhereLastMoved(h: seq<Txn>, i: nat, repo: Id, name: string) returns (k: nat)
    requires Lawful(h) && i < |h| && LeavesAt(h[i], repo, name).Some?
    ensures i <= k < |h| && LeavesAt(h[k], repo, name) == Some(GetRef(Fold(h).refs, repo, name)) && UntouchedSince(h, k, repo, name)
  {
    var (init, n) := (h[..|h| - 1], |h| - 1);
    RefAfterLast(h, repo, name);
    if LeavesAt(h[n], repo, name).Some? {
      k := n;
    } else {
      LawfulLast(h);
      k := WhereLastMoved(init, i, repo, name);
      forall m | k < m < |h| ensures LeavesAt(h[m], repo, name).None? {
        assert m < n ==> init[m] == h[m];
      }
    }
  }

  lemma OneLastMove(h: seq<Txn>, k: nat, l: nat, repo: Id, name: string)
    requires k < |h| && l < |h| && UntouchedSince(h, k, repo, name) && UntouchedSince(h, l, repo, name)
    requires LeavesAt(h[k], repo, name).Some? && LeavesAt(h[l], repo, name).Some?
    ensures k == l
  {}

  // ---- Merging on one base twice ----

  /** Some transaction since the i-th put the branch there, and none has moved it
      since. */
  ghost predicate PutThere(h: seq<Txn>, i: nat, repo: Id, name: string, oid: Oid) {
    exists k :: i < k < |h| && LeavesAt(h[k], repo, name) == Some(Some(oid)) && UntouchedSince(h, k, repo, name)
  }

  predicate SameMerge(c: Command, d: Command) {
    c.MergePull? && d.MergePull? && d.repo == c.repo && d.pr == c.pr && d.target == c.target && d.expectedBase == c.expectedBase
  }

  /** After a committed merge, the same request merges on the same base again exactly if
      the branch was moved back to that base since, or the merge never moved it. */
  lemma SecondMergeTakesWhen(h: seq<Txn>, i: nat, d: Command)
    requires Lawful(h) && i < |h| && h[i].committed && SameMerge(h[i].command, d)
    ensures Decide(Fold(h), d).Write? <==>
              || PutThere(h, i, d.repo, TargetOf(d), d.expectedBase)
              || (h[i].command.mergeCommit == d.expectedBase && UntouchedSince(h, i, d.repo, TargetOf(d)))
  {
    MergeTakesWhen(Fold(h), d);
    MergeLeavesAt(h[i]);
    BackWhen(h, i, d.repo, TargetOf(d), h[i].command.mergeCommit, d.expectedBase);
  }

  lemma MergeLeavesAt(t: Txn)
    requires t.committed && t.command.MergePull?
    ensures LeavesAt(t, t.command.repo, TargetOf(t.command)) == Some(Some(t.command.mergeCommit))
  {
    assert Moves(t.command) == [RefUpdate(TargetOf(t.command), Some(t.command.expectedBase), Some(t.command.mergeCommit))];
  }

  lemma BackWhen(h: seq<Txn>, i: nat, repo: Id, name: string, left: Oid, oid: Oid)
    requires Lawful(h) && i < |h| && LeavesAt(h[i], repo, name) == Some(Some(left))
    ensures GetRef(Fold(h).refs, repo, name) == Some(oid) <==>
              PutThere(h, i, repo, name, oid) || (left == oid && UntouchedSince(h, i, repo, name))
  {
    var k := WhereLastMoved(h, i, repo, name);
    if l :| i < l < |h| && LeavesAt(h[l], repo, name) == Some(Some(oid)) && UntouchedSince(h, l, repo, name) {
      OneLastMove(h, k, l, repo, name);
    }
    if UntouchedSince(h, i, repo, name) {
      OneLastMove(h, k, i, repo, name);
    }
  }

  /** So wherever a log holds two such merges, the branch went back in between. */
  lemma TwoMergesMovedBack(h: seq<Txn>, i: nat, j: nat)
    requires Lawful(h) && i < j < |h| && h[i].committed && h[j].committed && SameMerge(h[i].command, h[j].command)
    requires h[i].command.mergeCommit != h[i].command.expectedBase
    ensures PutThere(h[..j], i, h[j].command.repo, TargetOf(h[j].command), h[j].command.expectedBase)
  {
    assert Justified(h, j);
    PrefixIsLawful(h, j);
    SecondMergeTakesWhen(h[..j], i, h[j].command);
  }

  lemma {:induction false} PrefixIsLawful(h: seq<Txn>, j: nat)
    requires Lawful(h) && j <= |h|
    ensures Lawful(h[..j])
  {
    if j == |h| {
      assert h[..j] == h;
    } else {
      LawfulLast(h);
      PrefixIsLawful(h[..|h| - 1], j);
      assert h[..|h| - 1][..j] == h[..j];
    }
  }

  // ---- The head that lands ----

  function PickPull(r: Record): Option<Stamped<PrEvent>> {
    match r.value
    case Some(OfPr(e, at)) => Some(Stamped(e, at))
    case _ => None
  }

  /** The committed pull-request events, in order. */
  function PullEvents(h: seq<Txn>): PrHistory { PickAll(h, PickPull) }

  lemma {:induction false} PullEventsAppend(a: seq<Txn>, b: seq<Txn>)
    ensures PullEvents(a + b) == PullEvents(a) + PullEvents(b)
  {
    if b == [] {
      assert a + b == a;
    } else {
      PullEventsAppend(a, b[..|b| - 1]);
      assert (a + b)[..|a + b| - 1] == a + b[..|b| - 1];
    }
  }

  lemma {:induction false} StandingAppend(s: Standing, a: PrHistory, b: PrHistory, pr: Id)
    ensures StandingAfter(s, a + b, pr) == StandingAfter(StandingAfter(s, a, pr), b, pr)
  {
    if b == [] {
      assert a + b == a;
    } else {
      StandingAppend(s, a, b[..|b| - 1], pr);
      assert (a + b)[..|a + b| - 1] == a + b[..|b| - 1];
    }
  }

  /** The commits a stretch last puts a request between, if it moves it at all. */
  function PlacedBy(g: PrHistory, pr: Id): Option<(Oid, Oid)> {
    if g == [] then None
    else
      var e := g[|g| - 1].event;
      if e.prId == pr && (e.PrOpened? || e.Synchronized?) then Some((e.headOid, e.baseOid)) else PlacedBy(g[..|g| - 1], pr)
  }

  /** Merged by a stretch, and not opened afresh since. */
  function MergedBy(g: PrHistory, pr: Id): bool {
    if g == [] then false
    else
      var e := g[|g| - 1].event;
      if e.prId == pr && e.PrOpened? then false else (e.prId == pr && e.Merged?) || MergedBy(g[..|g| - 1], pr)
  }

  /** The last word of a stretch on whether a request is open. */
  function ToggledBy(g: PrHistory, pr: Id): Option<bool> {
    if g == [] then None
    else
      var e := g[|g| - 1].event;
      if e.prId == pr && (e.PrOpened? || e.PrReopened?) then Some(true)
      else if e.prId == pr && e.PrClosed? then Some(false)
      else ToggledBy(g[..|g| - 1], pr)
  }

  lemma {:induction false} StretchMoves(s: Standing, g: PrHistory, pr: Id)
    requires s.points.Some?
    ensures StandingAfter(s, g, pr).points == if PlacedBy(g, pr).Some? then PlacedBy(g, pr) else s.points
    ensures !s.merged ==> StandingAfter(s, g, pr).merged == MergedBy(g, pr)
  {
    if g != [] { StretchMoves(s, g[..|g| - 1], pr); }
  }

  lemma {:induction false} StretchToggles(a: PrHistory, g: PrHistory, pr: Id)
    ensures LeftOpen(a + g, pr) == if ToggledBy(g, pr).Some? then ToggledBy(g, pr).value else LeftOpen(a, pr)
  {
    if g == [] {
      assert a + g == a;
    } else {
      StretchToggles(a, g[..|g| - 1], pr);
      assert (a + g)[..|a + g| - 1] == a + g[..|g| - 1];
    }
  }

  /** What the person clicking was promised: the request is open and not merged, and
      points at the head that was reviewed. */
  predicate AsReviewed(events: PrHistory, c: Command)
    requires c.MergePull?
  {
    && Points(events, c.pr).Some? && Points(events, c.pr).value.0 == c.expectedHead
    && !MergedNow(events, c.pr) && LeftOpen(events, c.pr)
  }

  /** A merge was asked for on the strength of the log up to m and committed at j. It
      lands what was reviewed exactly if nothing committed in between moved the request
      to another head, closed it for the last time, or merged it: the base is the only
      thing the commit itself compares. */
  lemma MergeLandsAsReviewedWhen(h: seq<Txn>, m: nat, j: nat)
    requires Lawful(h) && m <= j < |h| && h[j].committed && h[j].command.MergePull?
    requires AsReviewed(PullEvents(h[..m]), h[j].command)
    ensures var (c, g) := (h[j].command, PullEvents(h[m..j]));
      AsReviewed(PullEvents(h[..j]), c) <==>
        && (PlacedBy(g, c.pr).None? || PlacedBy(g, c.pr).value.0 == c.expectedHead)
        && !MergedBy(g, c.pr)
        && ToggledBy(g, c.pr) != Some(false)
    ensures GetRef(Fold(h[..j]).refs, h[j].command.repo, TargetOf(h[j].command)) == Some(h[j].command.expectedBase)
  {
    var (c, a, g) := (h[j].command, PullEvents(h[..m]), PullEvents(h[m..j]));
    assert h[..j] == h[..m] + h[m..j];
    PullEventsAppend(h[..m], h[m..j]);
    StandingAppend(NOWHERE, a, g, c.pr);
    StretchMoves(StandingAfter(NOWHERE, a, c.pr), g, c.pr);
    StretchToggles(a, g, c.pr);
    assert Justified(h, j);
    MergeTakesWhen(Fold(h[..j]), c);
  }

  // ---- A log that breaks the promise ----

  function Then(h: seq<Txn>, c: Command): seq<Txn>
    requires Decide(Fold(h), c).Write?
  {
    h + [Txn(c, Decide(Fold(h), c).records, true)]
  }

  lemma ThenIsLawful(h: seq<Txn>, c: Command)
    requires Lawful(h) && Decide(Fold(h), c).Write?
    ensures Lawful(Then(h, c)) && Fold(Then(h, c)) == Decide(Fold(h), c).next
    ensures PullEvents(Then(h, c)) == PullEvents(h) + Pick(Decide(Fold(h), c).records, PickPull)
  {
    var t := Txn(c, Decide(Fold(h), c).records, true);
    LawfulAppend(h, t);
    FoldAppend(h, t);
    RememberingIsFolding(Fold(h), c);
    assert Then(h, c)[..|h|] == h;
  }

  lemma OnePull(r: Record)
    ensures Pick([r], PickPull) == if PickPull(r).Some? then [PickPull(r).value] else []
  {
    assert [r][..0] == [];
  }

  /** A lone announcement about a request: always possible, and it leaves the decision
      state alone. */
  lemma AnnouncedPull(h: seq<Txn>, c: Command)
    requires Lawful(h) && (c.SynchronizePull? || (c.SetPullState? && !c.open))
    ensures Decide(Fold(h), c).Write? && Lawful(Then(h, c)) && Fold(Then(h, c)) == Fold(h)
    ensures PullEvents(Then(h, c)) == PullEvents(h) +
      [Stamped(if c.SynchronizePull? then Synchronized(c.pr, c.repo, c.head, c.base) else PrClosed(c.pr, c.repo, c.actor), c.at)]
  {
    ThenIsLawful(h, c);
    OnePull(Decide(Fold(h), c).records[0]);
    assert Decide(Fold(h), c).records == [Decide(Fold(h), c).records[0]];
  }

  lemma MergedPull(h: seq<Txn>, c: Command)
    requires Lawful(h) && c.MergePull? && GetRef(Fold(h).refs, c.repo, TargetOf(c)) == Some(c.expectedBase)
    ensures Decide(Fold(h), c).Write? && Lawful(Then(h, c)) && GetRef(Fold(Then(h, c)).refs, c.repo, TargetOf(c)) == Some(c.mergeCommit)
    ensures PullEvents(Then(h, c)) == PullEvents(h) + [Stamped(Merged(c.pr, c.repo, c.mergeCommit, c.mergedBy, c.mergedByName), c.at)]
  {
    ThenIsLawful(h, c);
    var rs := Decide(Fold(h), c).records;
    assert rs == [rs[0], rs[1], rs[2]];
    PickThree(rs[0], rs[1], rs[2], PickPull);
  }

  /** Any log in which a request is as reviewed can go on to move it to another head,
      close it, merge it at the head that was reviewed, and merge it again. */
  lemma MergesWhatWasNotReviewed(h: seq<Txn>, first: Command, head: Oid, actor: Id, again: Oid)
    returns (closed: seq<Txn>, merged: seq<Txn>, twice: seq<Txn>)
    requires Lawful(h) && first.MergePull? && AsReviewed(PullEvents(h), first)
    requires GetRef(Fold(h).refs, first.repo, TargetOf(first)) == Some(first.expectedBase) && head != first.expectedHead
    ensures Lawful(closed) && Lawful(merged) && Lawful(twice) && h <= closed < merged < twice
    ensures Points(PullEvents(closed), first.pr) == Some((head, first.expectedBase)) && !LeftOpen(PullEvents(closed), first.pr)
    ensures merged[|closed|].committed && merged[|closed|].command == first && MergedNow(PullEvents(merged), first.pr)
    ensures twice[|merged|].committed && twice[|merged|].command.MergePull? && twice[|merged|].command.pr == first.pr
  {
    var sync := SynchronizePull(first.at, first.repo, first.pr, head, first.expectedBase);
    var close := SetPullState(first.at, first.repo, first.pr, actor, false);
    var second := first.(expectedBase := first.mergeCommit, mergeCommit := again);
    AnnouncedPull(h, sync);
    var moved := Then(h, sync);
    AnnouncedPull(moved, close);
    closed := Then(moved, close);
    MergedPull(closed, first);
    merged := Then(closed, first);
    MergedPull(merged, second);
    twice := Then(merged, second);
    var (a, e0, e1) := (PullEvents(h), Stamped(Synchronized(first.pr, first.repo, head, first.expectedBase), first.at), Stamped(PrClosed(first.pr, first.repo, actor), first.at));
    var e2 := Stamped(Merged(first.pr, first.repo, first.mergeCommit, first.mergedBy, first.mergedByName), first.at);
    StandsAfterOne(a, e0, first.pr);
    StandsAfterOne(a + [e0], e1, first.pr);
    StandsAfterOne(a + [e0] + [e1], e2, first.pr);
  }

  lemma StandsAfterOne(a: PrHistory, e: Stamped<PrEvent>, pr: Id)
    ensures StandingAfter(NOWHERE, a + [e], pr) == Moved(StandingAfter(NOWHERE, a, pr), e.event, pr)
    ensures e.event.prId == pr && e.event.PrClosed? ==> !LeftOpen(a + [e], pr)
  {
    assert (a + [e])[..|a|] == a;
  }

  /** There are such logs: a branch, and a request opened on it. */
  lemma ThereAreReviewedRequests(repo: Id, pr: Id, actor: Id, name: string, base: Oid, head: Oid, commit: Oid) returns (h: seq<Txn>, first: Command)
    requires IsValidRefName(BranchRef(name)) && name != "topic"
    ensures Lawful(h) && first.MergePull? && AsReviewed(PullEvents(h), first) && first.expectedHead == head
    ensures GetRef(Fold(h).refs, first.repo, TargetOf(first)) == Some(first.expectedBase)
  {
    first := MergePull(0, repo, pr, name, base, head, commit, actor, "");
    var pushed := BranchExists(repo, actor, name, base);
    h := RequestOpens(pushed, repo, pr, actor, name, base, head);
  }

  lemma BranchExists(repo: Id, actor: Id, name: string, base: Oid) returns (h: seq<Txn>)
    requires IsValidRefName(BranchRef(name))
    ensures Lawful(h) && PullEvents(h) == [] && GetRef(Fold(h).refs, repo, BranchRef(name)) == Some(base)
  {
    var push := UpdateRefs(0, repo, [RefUpdate(BranchRef(name), None, Some(base))], actor);
    var none: seq<Txn> := [];
    assert Fold(none) == EMPTY && Decide(EMPTY, push).Write?;
    ThenIsLawful(none, push);
    h := Then(none, push);
    PushHasNoPulls(push.at, repo, push.updates, actor);
    MoveAllLastMove(EMPTY.refs, repo, push.updates, repo, BranchRef(name));
  }

  lemma RequestOpens(pushed: seq<Txn>, repo: Id, pr: Id, actor: Id, name: string, base: Oid, head: Oid) returns (h: seq<Txn>)
    requires Lawful(pushed) && PullEvents(pushed) == [] && name != "topic"
    ensures Lawful(h) && Fold(h).refs == Fold(pushed).refs
    ensures Points(PullEvents(h), pr) == Some((head, base)) && !MergedNow(PullEvents(h), pr) && LeftOpen(PullEvents(h), pr)
  {
    var open := OpenPull(pr, 0, repo, actor, "", "t", None, "topic", name, head, base);
    assert Validated("t", "title", MAX_TITLE) == Ok("t");
    ThenIsLawful(pushed, open);
    h := Then(pushed, open);
    var rs := Decide(Fold(pushed), open).records;
    assert rs == [rs[0], rs[1]];
    PickTwo(rs[0], rs[1], PickPull);
    var e := PickPull(rs[0]).value;
    assert PullEvents(h) == [e] && [e][..0] == PullEvents(pushed);
  }

  lemma {:induction false} PushHasNoPulls(at: Instant, repo: Id, us: seq<RefUpdate>, pusher: Id)
    ensures Pick(PushRecords(at, repo, us, pusher), PickPull) == []
  {
    if us != [] {
      var (init, last) := (us[..|us| - 1], us[|us| - 1]);
      PushHasNoPulls(at, repo, init, pusher);
      var move := MoveRecords(at, repo, last, pusher);
      PickAppend(PushRecords(at, repo, init, pusher), move, PickPull);
      PickTwo(move[0], move[1], PickPull);
    }
  }
}
