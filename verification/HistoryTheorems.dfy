/** What a lawful log looks like, whoever wrote it and however often the service
    was restarted: names are unique, numbers have no gap, the reflog is a chain. */
module HistoryTheorems {
  import opened Base
  import opened Events
  import opened Commands
  import opened Protocol
  import opened ProtocolProofs

  // ---- Reading events off the log ----

  function Pick<T>(rs: seq<Record>, pick: Record -> Option<T>): seq<T> {
    if rs == [] then []
    else Pick(rs[..|rs| - 1], pick) + (match pick(rs[|rs| - 1]) case Some(t) => [t] case None => [])
  }

  /** In commit order, across every topic. */
  function PickAll<T>(h: seq<Txn>, pick: Record -> Option<T>): seq<T> {
    if h == [] then []
    else PickAll(h[..|h| - 1], pick) + (if h[|h| - 1].committed then Pick(h[|h| - 1].records, pick) else [])
  }

  function PickUsername(r: Record): Option<string> {
    match r.value
    case Some(OfUser(Registered(_, _, lower, _, _), _)) => Some(lower)
    case _ => None
  }

  function PickRepoName(r: Record): Option<string> {
    match r.value
    case Some(OfRepo(Created(_, _, _, _, full, _, _, _), _)) => Some(full)
    case _ => None
  }

  function PickNumber(repo: Id): Record -> Option<int> {
    (r: Record) =>
      match r.value
      case Some(OfIssue(IssueOpened(_, q, number, _, _, _, _), _)) => if q == repo then Some(number) else None
      case Some(OfPr(PrOpened(_, q, number, _, _, _, _, _, _, _, _), _)) => if q == repo then Some(number) else None
      case _ => None
  }

  function PickRefEvent(r: Record): Option<RefEvent> {
    match r.value
    case Some(OfRef(e, _)) => Some(e)
    case _ => None
  }

  function Registrations(h: seq<Txn>): seq<string> { PickAll(h, PickUsername) }

  function Creations(h: seq<Txn>): seq<string> { PickAll(h, PickRepoName) }

  function Numbers(h: seq<Txn>, repo: Id): seq<int> { PickAll(h, PickNumber(repo)) }

  function Reflog(h: seq<Txn>): seq<RefEvent> { PickAll(h, PickRefEvent) }

  lemma {:induction false} PickAppend<T>(a: seq<Record>, b: seq<Record>, pick: Record -> Option<T>)
    ensures Pick(a + b, pick) == Pick(a, pick) + Pick(b, pick)
  {
    if b == [] {
      assert a + b == a;
    } else {
      assert (a + b)[..|a + b| - 1] == a + b[..|b| - 1];
      PickAppend(a, b[..|b| - 1], pick);
    }
  }

  function PickOne<T>(r: Record, pick: Record -> Option<T>): seq<T> {
    match pick(r) case Some(t) => [t] case None => []
  }

  lemma PickTwo<T>(a: Record, b: Record, pick: Record -> Option<T>)
    ensures Pick([a], pick) == PickOne(a, pick)
    ensures Pick([a, b], pick) == PickOne(a, pick) + PickOne(b, pick)
  {
    assert [a][..0] == [];
    assert [a, b] == [a] + [b] && [b][..0] == [];
    PickAppend([a], [b], pick);
  }

  lemma {:induction false} PickPush<T>(at: Instant, repo: Id, us: seq<RefUpdate>, pusher: Id, pick: Record -> Option<T>)
    requires forall u {:trigger MoveRecords(at, repo, u, pusher)} ::
               pick(MoveRecords(at, repo, u, pusher)[0]).None? && pick(MoveRecords(at, repo, u, pusher)[1]).None?
    ensures Pick(PushRecords(at, repo, us, pusher), pick) == []
  {
    if us != [] {
      var (init, last) := (us[..|us| - 1], us[|us| - 1]);
      PickPush(at, repo, init, pusher, pick);
      var move := MoveRecords(at, repo, last, pusher);
      PickAppend(PushRecords(at, repo, init, pusher), move, pick);
      PickTwo(move[0], move[1], pick);
    }
  }

  predicate IsMoveOrState(r: Record) {
    r.value.None? || r.value.value.OfRef? || r.value.value.OfTarget? || r.value.value.OfClaim?
  }

  ghost predicate IgnoresMoves<T>(pick: Record -> Option<T>) {
    forall r :: IsMoveOrState(r) ==> pick(r).None?
  }

  /** A picker that sees only events other than reference moves sees at most the
      first record of a decision. */
  lemma PickDecision<T>(s: State, c: Command, pick: Record -> Option<T>)
    requires Decide(s, c).Write?
    requires IgnoresMoves(pick)
    ensures Pick(Decide(s, c).records, pick) ==
            if c.UpdateRefs? then [] else PickOne(Decide(s, c).records[0], pick)
  {
    var rs := Decide(s, c).records;
    if c.UpdateRefs? {
      forall u {:trigger MoveRecords(c.at, c.repo, u, c.pusher)} ensures
        pick(MoveRecords(c.at, c.repo, u, c.pusher)[0]).None? && pick(MoveRecords(c.at, c.repo, u, c.pusher)[1]).None?
      {
        var move := MoveRecords(c.at, c.repo, u, c.pusher);
        assert IsMoveOrState(move[0]) && IsMoveOrState(move[1]);
      }
      PickPush(c.at, c.repo, c.updates, c.pusher, pick);
    } else if c.MergePull? {
      assert IsMoveOrState(rs[1]) && IsMoveOrState(rs[2]);
      assert rs == [rs[0]] + [rs[1], rs[2]];
      PickAppend([rs[0]], [rs[1], rs[2]], pick);
      PickTwo(rs[0], rs[0], pick);
      PickTwo(rs[1], rs[2], pick);
    } else if |rs| == 1 {
      assert rs == [rs[0]];
      PickTwo(rs[0], rs[0], pick);
    } else {
      assert IsMoveOrState(rs[1]);
      assert rs == [rs[0], rs[1]];
      PickTwo(rs[0], rs[1], pick);
    }
  }

  lemma LawfulLast(h: seq<Txn>)
    requires Lawful(h) && h != []
    ensures Lawful(h[..|h| - 1])
    ensures h[|h| - 1].committed ==>
              && Decide(Fold(h[..|h| - 1]), h[|h| - 1].command).Write?
              && Decide(Fold(h[..|h| - 1]), h[|h| - 1].command).records == h[|h| - 1].records
              && Decide(Fold(h[..|h| - 1]), h[|h| - 1].command).next == Fold(h)
  {
    var init := h[..|h| - 1];
    forall i | 0 <= i < |init| ensures Justified(init, i) {
      assert Justified(h, i);
      PrefixJustified(h, i);
    }
    assert Justified(h, |h| - 1);
    if h[|h| - 1].committed { LastFolds(h); }
  }

  lemma PrefixJustified(h: seq<Txn>, i: nat)
    requires i < |h| - 1 && Justified(h, i)
    ensures Justified(h[..|h| - 1], i)
  {
    assert h[..|h| - 1][..i] == h[..i];
  }

  lemma LastFolds(h: seq<Txn>)
    requires h != [] && Justified(h, |h| - 1) && h[|h| - 1].committed
    ensures Decide(Fold(h[..|h| - 1]), h[|h| - 1].command).next == Fold(h)
  {
    RememberingIsFolding(Fold(h[..|h| - 1]), h[|h| - 1].command);
  }

  // ---- Names ----

  ghost predicate Distinct<T>(s: seq<T>) {
    forall i, j :: 0 <= i < j < |s| ==> s[i] != s[j]
  }

  /** The catalog key a command claims. */
  function Claimed(c: Command): Option<string> {
    match c
    case RegisterUser(_, _, username, _, _) => Some(UserKey(Lower(username)))
    case CreateRepo(_, _, _, ownerName, repoName, _, _) => Some(RepoKey(FullName(ownerName, repoName)))
    case OpenIssue(_, _, repo, _, _, _, _) => Some(IssueCounterKey(repo))
    case OpenPull(_, _, repo, _, _, _, _, _, _, _, _) => Some(IssueCounterKey(repo))
    case _ => None
  }

  function FullName(ownerName: string, repoName: string): string {
    Lower(ownerName) + "/" + Lower(repoName)
  }

  lemma CatalogAfter(s: State, c: Command)
    requires Decide(s, c).Write?
    ensures Claimed(c).None? ==> Decide(s, c).next.catalog == s.catalog
    ensures Claimed(c).Some? ==>
              var rs := Decide(s, c).records;
              && |rs| == 2 && rs[1].value.Some? && rs[1].value.value.OfClaim?
              && Decide(s, c).next.catalog == s.catalog[Claimed(c).value := rs[1].value.value.claim]
    ensures c.RegisterUser? || c.CreateRepo? ==> Claimed(c).value !in s.catalog
  {}

  lemma KeysClaimed(c: Command, name: string)
    ensures Claimed(c) == Some(UserKey(name)) <==> c.RegisterUser? && name == Lower(c.username)
    ensures Claimed(c) == Some(RepoKey(name)) <==> c.CreateRepo? && name == FullName(c.ownerName, c.repoName)
  {
    match c
    case RegisterUser(_, _, username, _, _) => KeysAreApart(name, name, c.id, c.id); KeysAreApart(Lower(username), name, c.id, c.id); SameKind(name, Lower(username));
    case CreateRepo(_, _, _, ownerName, repoName, _, _) => KeysAreApart(name, FullName(ownerName, repoName), c.id, c.id); SameKind(name, FullName(ownerName, repoName));
    case OpenIssue(_, _, repo, _, _, _, _) => KeysAreApart(name, name, repo, repo);
    case OpenPull(_, _, repo, _, _, _, _, _, _, _, _) => KeysAreApart(name, name, repo, repo);
    case _ =>
  }

  lemma SameKind(a: string, b: string)
    ensures UserKey(a) == UserKey(b) <==> a == b
    ensures RepoKey(a) == RepoKey(b) <==> a == b
  {
    assert UserKey(a)[5..] == a && UserKey(b)[5..] == b && RepoKey(a)[5..] == a && RepoKey(b)[5..] == b;
  }

  lemma NamesPicked(s: State, c: Command)
    requires Decide(s, c).Write?
    ensures Pick(Decide(s, c).records, PickUsername) == if c.RegisterUser? then [Lower(c.username)] else []
    ensures Pick(Decide(s, c).records, PickRepoName) == if c.CreateRepo? then [FullName(c.ownerName, c.repoName)] else []
  {
    PickDecision(s, c, PickUsername);
    PickDecision(s, c, PickRepoName);
    if !c.UpdateRefs? {
      FirstNames(s, c);
    }
  }

  lemma FirstNames(s: State, c: Command)
    requires Decide(s, c).Write? && !c.UpdateRefs?
    ensures PickUsername(Decide(s, c).records[0]) == if c.RegisterUser? then Some(Lower(c.username)) else None
    ensures PickRepoName(Decide(s, c).records[0]) == if c.CreateRepo? then Some(FullName(c.ownerName, c.repoName)) else None
  {}

  /** No two committed registrations share a name, and the catalog says exactly which
      names are taken. */
  lemma {:induction false} UsernamesAreUnique(h: seq<Txn>)
    requires Lawful(h)
    ensures Distinct(Registrations(h))
    ensures forall name :: UserKey(name) in Fold(h).catalog <==> name in Registrations(h)
  {
    if h != [] {
      LawfulLast(h);
      var (init, t) := (h[..|h| - 1], h[|h| - 1]);
      UsernamesAreUnique(init);
      if t.committed {
        NamesPicked(Fold(init), t.command);
        CatalogAfter(Fold(init), t.command);
        forall name ensures UserKey(name) in Fold(h).catalog <==> name in Registrations(h) {
          KeysClaimed(t.command, name);
        }
      }
    }
  }

  /** The same for repositories. */
  lemma {:induction false} RepoNamesAreUnique(h: seq<Txn>)
    requires Lawful(h)
    ensures Distinct(Creations(h))
    ensures forall name :: RepoKey(name) in Fold(h).catalog <==> name in Creations(h)
  {
    if h != [] {
      LawfulLast(h);
      var (init, t) := (h[..|h| - 1], h[|h| - 1]);
      RepoNamesAreUnique(init);
      if t.committed {
        NamesPicked(Fold(init), t.command);
        CatalogAfter(Fold(init), t.command);
        forall name ensures RepoKey(name) in Fold(h).catalog <==> name in Creations(h) {
          KeysClaimed(t.command, name);
        }
      }
    }
  }

  // ---- Numbers ----

  predicate TakesNumber(c: Command, repo: Id) {
    (c.OpenIssue? || c.OpenPull?) && c.repo == repo
  }

  lemma NumberPicked(s: State, c: Command, repo: Id)
    requires Decide(s, c).Write?
    ensures Pick(Decide(s, c).records, PickNumber(repo)) ==
            if TakesNumber(c, repo) then [NextIssueNumber(s.catalog, repo)] else []
  {
    PickDecision(s, c, PickNumber(repo));
    if !c.UpdateRefs? {
      FirstNumber(s, c, repo);
    }
  }

  lemma FirstNumber(s: State, c: Command, repo: Id)
    requires Decide(s, c).Write? && !c.UpdateRefs?
    ensures PickNumber(repo)(Decide(s, c).records[0]) ==
            if TakesNumber(c, repo) then Some(NextIssueNumber(s.catalog, repo)) else None
  {}

  lemma CounterAfter(s: State, c: Command, repo: Id)
    requires Decide(s, c).Write?
    ensures NextIssueNumber(Decide(s, c).next.catalog, repo) ==
            NextIssueNumber(s.catalog, repo) + if TakesNumber(c, repo) then 1 else 0
  {
    if TakesNumber(c, repo) {
      assert Decide(s, c).next.catalog[IssueCounterKey(repo)] == IssueCounter(NextIssueNumber(s.catalog, repo) + 1);
    } else {
      CatalogAfter(s, c);
      assert Claimed(c) != Some(IssueCounterKey(repo)) by { CounterNotClaimed(c, repo); }
    }
  }

  lemma CounterNotClaimed(c: Command, repo: Id)
    requires !TakesNumber(c, repo)
    ensures Claimed(c) != Some(IssueCounterKey(repo))
  {
    match c
    case RegisterUser(_, _, username, _, _) => KeysAreApart(Lower(username), "", repo, repo);
    case CreateRepo(_, _, _, ownerName, repoName, _, _) => KeysAreApart("", FullName(ownerName, repoName), repo, repo);
    case OpenIssue(_, _, other, _, _, _, _) => KeysAreApart("", "", repo, other);
    case OpenPull(_, _, other, _, _, _, _, _, _, _, _) => KeysAreApart("", "", repo, other);
    case _ =>
  }

  /** The issues and pull requests of a repository, taken together in the order they
      were committed, are numbered one, two, three and so on. */
  lemma {:induction false} NumbersHaveNoGap(h: seq<Txn>, repo: Id)
    requires Lawful(h)
    ensures forall i :: 0 <= i < |Numbers(h, repo)| ==> Numbers(h, repo)[i] == i + 1
    ensures NextIssueNumber(Fold(h).catalog, repo) == |Numbers(h, repo)| + 1
  {
    if h != [] {
      LawfulLast(h);
      var (init, t) := (h[..|h| - 1], h[|h| - 1]);
      NumbersHaveNoGap(init, repo);
      if t.committed {
        NumberPicked(Fold(init), t.command, repo);
        CounterAfter(Fold(init), t.command, repo);
      }
    }
  }

  // ---- The reflog ----

  /** Where the log of moves leaves a reference, looking no further than the last
      event about it. */
  function LastNew(es: seq<RefEvent>, repo: Id, name: string): Option<Oid> {
    if es == [] then None
    else
      var last := es[|es| - 1];
      if last.repoId == repo && last.name == name then last.newOid else LastNew(es[..|es| - 1], repo, name)
  }

  ghost predicate LinkedAt(es: seq<RefEvent>, i: nat)
    requires i < |es|
  {
    es[i].oldOid == LastNew(es[..i], es[i].repoId, es[i].name)
  }

  /** Every event starts where the one before it on the same reference ended. */
  ghost predicate Chain(es: seq<RefEvent>) {
    forall i :: 0 <= i < |es| ==> LinkedAt(es, i)
  }

  lemma ChainAppend(es: seq<RefEvent>, e: RefEvent)
    ensures Chain(es + [e]) <==> Chain(es) && e.oldOid == LastNew(es, e.repoId, e.name)
  {
    var all := es + [e];
    assert all[..|es|] == es;
    forall i | 0 <= i < |es| ensures LinkedAt(all, i) <==> LinkedAt(es, i) {
      assert all[..i] == es[..i];
    }
    assert LinkedAt(all, |es|) <==> e.oldOid == LastNew(es, e.repoId, e.name);
    if Chain(all) {
      forall i | 0 <= i < |es| ensures LinkedAt(es, i) { assert LinkedAt(all, i); }
    }
  }

  lemma LastNewAppend(es: seq<RefEvent>, e: RefEvent, repo: Id, name: string)
    ensures LastNew(es + [e], repo, name) == if e.repoId == repo && e.name == name then e.newOid else LastNew(es, repo, name)
  {
    assert (es + [e])[..|es|] == es;
  }

  function EventOf(repo: Id, u: RefUpdate, pusher: Id): RefEvent {
    RefUpdated(repo, u.name, u.expectedOld, u.newOid, pusher)
  }

  function EventsOf(repo: Id, us: seq<RefUpdate>, pusher: Id): seq<RefEvent> {
    seq(|us|, i requires 0 <= i < |us| => EventOf(repo, us[i], pusher))
  }

  lemma {:induction false} PushPicked(at: Instant, repo: Id, us: seq<RefUpdate>, pusher: Id)
    ensures Pick(PushRecords(at, repo, us, pusher), PickRefEvent) == EventsOf(repo, us, pusher)
  {
    if us != [] {
      var (init, last) := (us[..|us| - 1], us[|us| - 1]);
      PushPicked(at, repo, init, pusher);
      var move := MoveRecords(at, repo, last, pusher);
      PickAppend(PushRecords(at, repo, init, pusher), move, PickRefEvent);
      PickTwo(move[0], move[1], PickRefEvent);
      assert EventsOf(repo, us, pusher) == EventsOf(repo, init, pusher) + [EventOf(repo, last, pusher)];
    }
  }

  /** What a command adds to the reflog, as a list of moves. */
  function Moves(c: Command): seq<RefUpdate> {
    match c
    case UpdateRefs(_, _, updates, _) => updates
    case MergePull(_, _, _, target, base, _, commit, _, _) => [RefUpdate(BranchRef(target), Some(base), Some(commit))]
    case _ => []
  }

  function MovesRepo(c: Command): Id {
    match c
    case UpdateRefs(_, repo, _, _) => repo
    case MergePull(_, repo, _, _, _, _, _, _, _) => repo
    case _ => "00000000-0000-0000-0000-000000000000"
  }

  function Mover(c: Command): Id {
    match c
    case UpdateRefs(_, _, _, pusher) => pusher
    case MergePull(_, _, _, _, _, _, _, mergedBy, _) => mergedBy
    case _ => "00000000-0000-0000-0000-000000000000"
  }

  lemma MovesPicked(s: State, c: Command)
    requires Decide(s, c).Write?
    ensures Pick(Decide(s, c).records, PickRefEvent) == EventsOf(MovesRepo(c), Moves(c), Mover(c))
  {
    if c.UpdateRefs? {
      PushPicked(c.at, c.repo, c.updates, c.pusher);
    } else if c.MergePull? {
      MergePicked(s, c);
    } else {
      NoMoves(s, c);
      NothingPicked(Decide(s, c).records);
    }
  }

  lemma MergePicked(s: State, c: Command)
    requires c.MergePull? && Decide(s, c).Write?
    ensures Pick(Decide(s, c).records, PickRefEvent) == EventsOf(MovesRepo(c), Moves(c), Mover(c))
  {
    var rs := Decide(s, c).records;
    PickThree(rs[0], rs[1], rs[2], PickRefEvent);
    assert rs == [rs[0], rs[1], rs[2]];
  }

  lemma PickThree<T>(a: Record, b: Record, c: Record, pick: Record -> Option<T>)
    ensures Pick([a, b, c], pick) == PickOne(a, pick) + PickOne(b, pick) + PickOne(c, pick)
  {
    assert [a, b, c] == [a] + [b, c];
    PickAppend([a], [b, c], pick);
    PickTwo(a, a, pick);
    PickTwo(b, c, pick);
  }

  lemma NoMoves(s: State, c: Command)
    requires !c.UpdateRefs? && !c.MergePull? && Decide(s, c).Write?
    ensures forall k :: 0 <= k < |Decide(s, c).records| ==> PickRefEvent(Decide(s, c).records[k]).None?
    ensures Moves(c) == []
  {}

  lemma {:induction false} NothingPicked(rs: seq<Record>)
    requires forall k :: 0 <= k < |rs| ==> PickRefEvent(rs[k]).None?
    ensures Pick(rs, PickRefEvent) == []
  {
    if rs != [] { NothingPicked(rs[..|rs| - 1]); }
  }

  /** Every move of a decision was checked against the same reference map. */
  lemma MovesChecked(s: State, c: Command)
    requires Decide(s, c).Write?
    ensures forall i :: 0 <= i < |Moves(c)| ==> Moves(c)[i].expectedOld == GetRef(s.refs, MovesRepo(c), Moves(c)[i].name)
    ensures c.UpdateRefs? ==> forall i :: 0 <= i < |Moves(c)| ==> IsValidRefName(Moves(c)[i].name)
  {
    if c.UpdateRefs? {
      var results := Checks(s.refs, c.repo, c.updates);
      forall i | 0 <= i < |Moves(c)|
        ensures Moves(c)[i].expectedOld == GetRef(s.refs, MovesRepo(c), Moves(c)[i].name) && IsValidRefName(Moves(c)[i].name)
      {
        assert results[i].rejection.None?;
      }
    }
  }

  lemma RefsAfter(s: State, c: Command)
    requires Decide(s, c).Write?
    ensures Decide(s, c).next.refs == MoveAll(s.refs, MovesRepo(c), Moves(c))
  {
    if c.MergePull? {
      assert Moves(c)[..0] == [];
    }
  }

  lemma {:induction false} MoveAllIsLastNew(refs: map<string, Oid>, es: seq<RefEvent>, repo: Id, us: seq<RefUpdate>, pusher: Id, q: Id, name: string)
    requires GetRef(refs, q, name) == LastNew(es, q, name)
    ensures GetRef(MoveAll(refs, repo, us), q, name) == LastNew(es + EventsOf(repo, us, pusher), q, name)
  {
    if us == [] {
      assert es + EventsOf(repo, us, pusher) == es;
    } else {
      var (init, last) := (us[..|us| - 1], us[|us| - 1]);
      MoveAllIsLastNew(refs, es, repo, init, pusher, q, name);
      RefKeyInjective(repo, last.name, q, name);
      GetPut(MoveAll(refs, repo, init), RefKey(repo, last.name), last.newOid, RefKey(q, name));
      assert es + EventsOf(repo, us, pusher) == (es + EventsOf(repo, init, pusher)) + [EventOf(repo, last, pusher)];
      LastNewAppend(es + EventsOf(repo, init, pusher), EventOf(repo, last, pusher), q, name);
    }
  }

  lemma ReflogGrows(h: seq<Txn>)
    requires Lawful(h) && h != []
    ensures var (init, t) := (h[..|h| - 1], h[|h| - 1]);
      Reflog(h) == if t.committed then Reflog(init) + EventsOf(MovesRepo(t.command), Moves(t.command), Mover(t.command)) else Reflog(init)
  {
    LawfulLast(h);
    if h[|h| - 1].committed {
      MovesPicked(Fold(h[..|h| - 1]), h[|h| - 1].command);
    } else {
      assert Reflog(h) == Reflog(h[..|h| - 1]) + [];
    }
  }

  /** The history of moves and the table of current values never disagree. */
  lemma {:induction false} ReflogGivesTheRefs(h: seq<Txn>, repo: Id, name: string)
    requires Lawful(h)
    ensures GetRef(Fold(h).refs, repo, name) == LastNew(Reflog(h), repo, name)
  {
    if h != [] {
      LawfulLast(h);
      ReflogGrows(h);
      var (init, t) := (h[..|h| - 1], h[|h| - 1]);
      ReflogGivesTheRefs(init, repo, name);
      if t.committed {
        RefsAfter(Fold(init), t.command);
        MoveAllIsLastNew(Fold(init).refs, Reflog(init), MovesRepo(t.command), Moves(t.command), Mover(t.command), repo, name);
      }
    }
  }

  /** A push whose updates to one name, if there are several, leave it where it was
      until the last of them. Pairwise distinct names are the usual case. */
  ghost predicate Linked(us: seq<RefUpdate>) {
    forall i, j :: 0 <= i < j < |us| && us[i].name == us[j].name ==> us[i].newOid == us[i].expectedOld
  }

  lemma {:induction false} LastOfPush(es: seq<RefEvent>, repo: Id, us: seq<RefUpdate>, pusher: Id, name: string) returns (j: int)
    ensures -1 <= j < |us| && (j >= 0 ==> us[j].name == name)
    ensures forall i :: j < i < |us| ==> us[i].name != name
    ensures LastNew(es + EventsOf(repo, us, pusher), repo, name) == if j < 0 then LastNew(es, repo, name) else us[j].newOid
  {
    if us == [] {
      j := -1;
      assert es + EventsOf(repo, us, pusher) == es;
    } else {
      var (init, last) := (us[..|us| - 1], us[|us| - 1]);
      j := LastOfPush(es, repo, init, pusher, name);
      assert es + EventsOf(repo, us, pusher) == (es + EventsOf(repo, init, pusher)) + [EventOf(repo, last, pusher)];
      LastNewAppend(es + EventsOf(repo, init, pusher), EventOf(repo, last, pusher), repo, name);
      if last.name == name {
        j := |us| - 1;
      }
    }
  }

  /** Every update of a push is checked against the map as it was before the push,
      so the chain continues through it exactly when the push is linked. */
  lemma {:induction false} PushChains(es: seq<RefEvent>, repo: Id, us: seq<RefUpdate>, pusher: Id)
    requires forall i :: 0 <= i < |us| ==> us[i].expectedOld == LastNew(es, repo, us[i].name)
    ensures Chain(es + EventsOf(repo, us, pusher)) <==> Chain(es) && Linked(us)
  {
    if us == [] {
      assert es + EventsOf(repo, us, pusher) == es;
    } else {
      var (init, last) := (us[..|us| - 1], us[|us| - 1]);
      PushChains(es, repo, init, pusher);
      var before := es + EventsOf(repo, init, pusher);
      assert es + EventsOf(repo, us, pusher) == before + [EventOf(repo, last, pusher)];
      ChainAppend(before, EventOf(repo, last, pusher));
      var j := LastOfPush(es, repo, init, pusher, last.name);
      assert us[|us| - 1] == last;
      if Linked(us) {
        assert Linked(init);
        assert j >= 0 ==> us[j].newOid == us[j].expectedOld;
      }
      if Linked(init) && (j >= 0 ==> init[j].newOid == init[j].expectedOld) {
        forall a, b | 0 <= a < b < |us| && us[a].name == us[b].name ensures us[a].newOid == us[a].expectedOld {
          if b == |us| - 1 && a != j { assert init[a].name == init[j].name && a < j; }
          else if b < |us| - 1 { assert init[a].name == init[b].name; }
        }
      }
    }
  }

  lemma MovesStartWhereTheyAre(init: seq<Txn>, c: Command)
    requires Lawful(init) && Decide(Fold(init), c).Write?
    ensures forall i :: 0 <= i < |Moves(c)| ==> Moves(c)[i].expectedOld == LastNew(Reflog(init), MovesRepo(c), Moves(c)[i].name)
  {
    MovesChecked(Fold(init), c);
    forall i | 0 <= i < |Moves(c)| ensures Moves(c)[i].expectedOld == LastNew(Reflog(init), MovesRepo(c), Moves(c)[i].name) {
      ReflogGivesTheRefs(init, MovesRepo(c), Moves(c)[i].name);
    }
  }

  ghost predicate PushLinked(t: Txn) {
    t.committed && t.command.UpdateRefs? ==> Linked(t.command.updates)
  }

  lemma ChainOn(h: seq<Txn>)
    requires Lawful(h) && h != []
    ensures Chain(Reflog(h)) <==> Chain(Reflog(h[..|h| - 1])) && PushLinked(h[|h| - 1])
  {
    LawfulLast(h);
    ReflogGrows(h);
    var (init, t) := (h[..|h| - 1], h[|h| - 1]);
    if t.committed {
      MovesStartWhereTheyAre(init, t.command);
      PushChains(Reflog(init), MovesRepo(t.command), Moves(t.command), Mover(t.command));
      MovesLinked(t.command);
    }
  }

  lemma MovesLinked(c: Command)
    ensures Linked(Moves(c)) <==> (c.UpdateRefs? ==> Linked(c.updates))
  {}

  /** The reflog of the whole forge is a chain, through pushes and merges and across
      restarts, exactly when no committed push moved one name twice. */
  lemma {:induction false} ReflogIsAChain(h: seq<Txn>)
    requires Lawful(h)
    ensures Chain(Reflog(h)) <==> forall i :: 0 <= i < |h| ==> PushLinked(h[i])
  {
    if h != [] {
      LawfulLast(h);
      ChainOn(h);
      ReflogIsAChain(h[..|h| - 1]);
      assert forall i :: 0 <= i < |h| - 1 ==> h[i] == h[..|h| - 1][i];
    }
  }

  lemma {:induction false} LastNewIsAnEvent(es: seq<RefEvent>, repo: Id, name: string)
    requires LastNew(es, repo, name).Some?
    ensures exists i :: 0 <= i < |es| && es[i].name == name
  {
    if !(es[|es| - 1].repoId == repo && es[|es| - 1].name == name) {
      LastNewIsAnEvent(es[..|es| - 1], repo, name);
    }
  }

  ghost predicate ValidNames(es: seq<RefEvent>) {
    forall i :: 0 <= i < |es| ==> IsValidRefName(es[i].name)
  }

  lemma KnownNamesAreValid(h: seq<Txn>, repo: Id, name: string)
    requires Lawful(h) && ValidNames(Reflog(h)) && GetRef(Fold(h).refs, repo, name).Some?
    ensures IsValidRefName(name)
  {
    ReflogGivesTheRefs(h, repo, name);
    LastNewIsAnEvent(Reflog(h), repo, name);
  }

  lemma MovesAreValid(h: seq<Txn>, c: Command)
    requires Lawful(h) && ValidNames(Reflog(h)) && Decide(Fold(h), c).Write?
    ensures ValidNames(EventsOf(MovesRepo(c), Moves(c), Mover(c)))
  {
    MovesChecked(Fold(h), c);
    if c.MergePull? {
      KnownNamesAreValid(h, c.repo, BranchRef(c.target));
    }
  }

  /** A merge never checks the branch name it is given, and does not have to: it may
      only move a reference that a push already created. */
  lemma {:induction false} StoredNamesAreValid(h: seq<Txn>)
    requires Lawful(h)
    ensures ValidNames(Reflog(h))
    ensures forall repo: Id, name: string :: RefKey(repo, name) in Fold(h).refs ==> IsValidRefName(name)
  {
    if h != [] {
      LawfulLast(h);
      ReflogGrows(h);
      StoredNamesAreValid(h[..|h| - 1]);
      if h[|h| - 1].committed {
        MovesAreValid(h[..|h| - 1], h[|h| - 1].command);
      }
    }
    forall repo: Id, name: string | RefKey(repo, name) in Fold(h).refs ensures IsValidRefName(name) {
      KnownNamesAreValid(h, repo, name);
    }
  }

  /** What the run theorem and the theorems above say together: at every moment of
      every run, whatever crashed and whoever was fenced. */
  lemma EveryRunIsConsistent(ws: seq<World>, ss: seq<Step>, n: nat, repo: Id)
    requires IsRun(ws, ss) && n <= |ss|
    ensures var h := ws[n].history;
      && Distinct(Registrations(h)) && Distinct(Creations(h))
      && (forall i :: 0 <= i < |Numbers(h, repo)| ==> Numbers(h, repo)[i] == i + 1)
      && ValidNames(Reflog(h))
      && (forall name :: GetRef(Fold(h).refs, repo, name) == LastNew(Reflog(h), repo, name))
      && (Chain(Reflog(h)) <==> forall i :: 0 <= i < |h| ==> PushLinked(h[i]))
  {
    RunsKeep(ws, ss, n);
    var h := ws[n].history;
    UsernamesAreUnique(h);
    RepoNamesAreUnique(h);
    NumbersHaveNoGap(h, repo);
    StoredNamesAreValid(h);
    ReflogIsAChain(h);
    forall name ensures GetRef(Fold(h).refs, repo, name) == LastNew(Reflog(h), repo, name) {
      ReflogGivesTheRefs(h, repo, name);
    }
  }

  /** The check that lets a name appear twice is real: one push that creates a
      reference twice is accepted, and the log then holds two creations of it. */
  lemma OnePushCanCreateTwice(repo: Id, pusher: Id, name: string, a: Oid, b: Oid)
    requires IsValidRefName(name)
    ensures var us := [RefUpdate(name, None, Some(a)), RefUpdate(name, None, Some(b))];
      var c := UpdateRefs(0, repo, us, pusher);
      var d := Decide(EMPTY, c);
      && d.Write? && Lawful([Txn(c, d.records, true)]) && !Chain(Reflog([Txn(c, d.records, true)]))
  {
    var us := [RefUpdate(name, None, Some(a)), RefUpdate(name, None, Some(b))];
    var c := UpdateRefs(0, repo, us, pusher);
    var h := [Txn(c, Decide(EMPTY, c).records, true)];
    assert h[..0] == [];
    assert Justified(h, 0);
    ReflogIsAChain(h);
    assert us[0].name == us[1].name && us[0].newOid != us[0].expectedOld;
    assert !Linked(us);
    assert h[0].command.updates == us;
  }
}
