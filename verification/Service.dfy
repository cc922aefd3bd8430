/** The command service itself: state behind a mutex, a writer, and for every command
    a check, one transaction, and an update of memory once it has committed. */
module Service {
  import opened Base
  import opened Events
  import opened Commands
  import opened Tailing
  import opened Writer

  class Catalog {
    var claims: map<string, Claim>

    constructor ()
      ensures claims == map[]
    {
      claims := map[];
    }

    method Apply(key: string, value: Option<Value>)
      modifies this
      ensures claims == ApplyClaim(old(claims), key, value)
    {
      match value {
        case None => claims := claims - {key};
        case Some(v) =>
          var parsed := AsClaim(v);
          if parsed.Some? {
            claims := claims[key := parsed.value];
          }
      }
    }
  }

  class RefMap {
    var refs: map<string, Oid>

    constructor ()
      ensures refs == map[]
    {
      refs := map[];
    }

    method Apply(key: string, value: Option<Value>)
      modifies this
      ensures refs == ApplyTarget(old(refs), key, value)
    {
      match value {
        case None => refs := refs - {key};
        case Some(v) =>
          var parsed := AsTarget(v);
          if parsed.Some? {
            refs := refs[key := parsed.value];
          }
      }
    }

    method Set(repo: Id, name: string, oid: Option<Oid>)
      modifies this
      ensures refs == SetRef(old(refs), repo, name, oid)
    {
      match oid {
        case Some(o) => refs := refs[RefKey(repo, name) := o];
        case None => refs := refs - {RefKey(repo, name)};
      }
    }
  }

  datatype Outcome =
    | Answered(answer: Answer, committed: Option<Committed>)
    | WriteFailed(error: WriteError)
    | NotProvisioned

  /** What running one command may do: nothing but answer, or attempt the decision's
      transaction and remember the decision's state exactly when it committed. */
  ghost predicate Ran(s: State, c: Command, before: Topics, wasFenced: bool,
                      s': State, after: Topics, fenced: bool, dead: bool, inDoubt: bool, r: Outcome)
  {
    Acted(s, Decide(s, c), before, wasFenced, s', after, fenced, dead, inDoubt, r)
  }

  ghost predicate Acted(s: State, d: Decision, before: Topics, wasFenced: bool,
                        s': State, after: Topics, fenced: bool, dead: bool, inDoubt: bool, r: Outcome)
  {
    match d
    case Reply(a) =>
      s' == s && after == before && fenced == wasFenced && !dead && !inDoubt && r == Answered(a, None)
    case Write(rs, next, a) =>
      match r
      case Answered(b, t) =>
        b == a && t.Some? && s' == next && Transacted(before, wasFenced, rs, after, fenced, dead, inDoubt, Ok(t.value))
      case WriteFailed(e) =>
        s' == s && Transacted(before, wasFenced, rs, after, fenced, dead, inDoubt, Err(e))
      case NotProvisioned => false
  }

  /** A decision to write was carried out and answered as decided. */
  predicate CarriedOut(d: Decision, r: Outcome) {
    d.Write? ==> r.Answered? && r.answer == d.answer && r.committed.Some?
  }

  method LoadClaims(log: seq<Cell<Record>>, pace: nat -> nat) returns (catalog: Catalog)
    ensures fresh(catalog) && catalog.claims == ReadClaims(map[], Visible(log))
  {
    var tailer := new Tailer<Record>(0);
    var records, _ := tailer.ReplayToEnd(log, pace);
    assert log[0..] == log;
    catalog := new Catalog();
    for i := 0 to |records|
      invariant catalog.claims == ReadClaims(map[], records[..i])
    {
      assert records[..i + 1][..i] == records[..i];
      catalog.Apply(records[i].key, records[i].value);
    }
    assert records[..|records|] == records;
  }

  method LoadTargets(log: seq<Cell<Record>>, pace: nat -> nat) returns (refs: RefMap)
    ensures fresh(refs) && refs.refs == ReadTargets(map[], Visible(log))
  {
    var tailer := new Tailer<Record>(0);
    var records, _ := tailer.ReplayToEnd(log, pace);
    assert log[0..] == log;
    refs := new RefMap();
    for i := 0 to |records|
      invariant refs.refs == ReadTargets(map[], records[..i])
    {
      assert records[..i + 1][..i] == records[..i];
      refs.Apply(records[i].key, records[i].value);
    }
    assert records[..|records|] == records;
  }

  class CommandService {
    const writer: FencedWriter
    const catalog: Catalog
    const refs: RefMap

    ghost function Memory(): State
      reads catalog, refs
    {
      State(catalog.claims, refs.refs)
    }

    ghost predicate Ready()
      reads writer, writer.broker
    {
      !writer.dead && !writer.broker.open
    }

    /** This process is the newest, does not think otherwise, and the network is calm. */
    ghost predicate Works(net: Net)
      reads writer, writer.broker
    {
      !writer.fenced && writer.broker.epoch <= writer.epoch && Calm(net)
    }

    /** Fence first, which settles what a predecessor left open, then rebuild the
        decision state from the two compacted topics, and only then serve. */
    constructor Start(broker: Broker, settle: bool, claimsPace: nat -> nat, refsPace: nat -> nat)
      modifies broker
      ensures Ready() && !writer.fenced && writer.broker == broker
      ensures writer.epoch == broker.epoch == old(broker.epoch) + 1
      ensures if old(broker.open) then Ended(old(broker.topics), old(broker.staged), settle, broker.topics) else broker.topics == old(broker.topics)
      ensures fresh(writer) && fresh(catalog) && fresh(refs)
      ensures Memory() == Rebuilt(broker.topics)
    {
      var fence := new FencedWriter(broker, settle);
      var claims := LoadClaims(Partition(broker.topics, MetaCatalog), claimsPace);
      var targets := LoadTargets(Partition(broker.topics, GitRefs), refsPace);
      writer, catalog, refs := fence, claims, targets;
    }

    /** An event and the claim it depends on commit together; memory follows. */
    method CommitClaim(event: Record, key: string, claim: Claim, id: Id, net: Net) returns (r: Outcome)
      requires Ready()
      modifies writer, writer.broker, catalog
      ensures Acted(old(Memory()), ClaimWith(old(Memory()), event, key, claim, id), old(writer.broker.topics), old(writer.fenced),
                    Memory(), writer.broker.topics, writer.fenced, writer.dead, writer.broker.open, r)
      ensures old(Works(net)) ==> CarriedOut(ClaimWith(old(Memory()), event, key, claim, id), r)
    {
      var t := writer.Transact([event, Record(MetaCatalog, key, Some(OfClaim(claim)))], net);
      match t {
        case Ok(c) =>
          catalog.Apply(key, Some(OfClaim(claim)));
          r := Answered(Done(id), Some(c));
        case Err(e) =>
          r := WriteFailed(e);
      }
    }

    method RegisterUser(id: Id, at: Instant, username: string, email: string, hash: string, net: Net) returns (r: Outcome)
      requires Ready()
      modifies writer, writer.broker, catalog
      ensures Ran(old(Memory()), Command.RegisterUser(id, at, username, email, hash), old(writer.broker.topics),
                  old(writer.fenced), Memory(), writer.broker.topics, writer.fenced, writer.dead, writer.broker.open, r)
      ensures old(Works(net)) ==> CarriedOut(Decide(old(Memory()), Command.RegisterUser(id, at, username, email, hash)), r)
    {
      var lower := Lower(username);
      if UserKey(lower) in catalog.claims {
        return Answered(Refused(UsernameTaken), None);
      }
      var event := Record(EventsUsers, id, Some(OfUser(Registered(id, username, lower, email, hash), at)));
      r := CommitClaim(event, UserKey(lower), UserClaim(id), id, net);
    }

    method CreateRepo(id: Id, at: Instant, owner: Id, ownerName: string, name: string, description: Option<string>,
                      visibility: string, provisioned: bool, net: Net) returns (r: Outcome)
      requires Ready()
      modifies writer, writer.broker, catalog
      ensures r == NotProvisioned <==> !provisioned && Decide(old(Memory()), Command.CreateRepo(id, at, owner, ownerName, name, description, visibility)).Write?
      ensures r == NotProvisioned ==> Memory() == old(Memory()) && writer.broker.topics == old(writer.broker.topics) && Ready() && writer.fenced == old(writer.fenced)
      ensures r != NotProvisioned ==>
        Ran(old(Memory()), Command.CreateRepo(id, at, owner, ownerName, name, description, visibility),
            old(writer.broker.topics), old(writer.fenced), Memory(), writer.broker.topics, writer.fenced,
            writer.dead, writer.broker.open, r)
      ensures provisioned && old(Works(net)) ==> CarriedOut(Decide(old(Memory()), Command.CreateRepo(id, at, owner, ownerName, name, description, visibility)), r)
    {
      var full := Lower(ownerName) + "/" + Lower(name);
      if RepoKey(full) in catalog.claims {
        return Answered(Refused(RepoExists), None);
      }
      // The repository's object topic has to exist first; creating it is no part of
      // the transaction.
      if !provisioned {
        return NotProvisioned;
      }
      var event := Record(EventsRepos, id, Some(OfRepo(Created(id, owner, ownerName, name, full, description,
                                                               "main", visibility), at)));
      r := CommitClaim(event, RepoKey(full), RepoClaim(id), id, net);
    }

    method OpenIssue(id: Id, at: Instant, repo: Id, author: Id, authorName: string, title: string,
                     body: Option<string>, net: Net) returns (r: Outcome)
      requires Ready()
      modifies writer, writer.broker, catalog
      ensures Ran(old(Memory()), Command.OpenIssue(id, at, repo, author, authorName, title, body),
                  old(writer.broker.topics), old(writer.fenced), Memory(), writer.broker.topics, writer.fenced,
                  writer.dead, writer.broker.open, r)
      ensures old(Works(net)) ==> CarriedOut(Decide(old(Memory()), Command.OpenIssue(id, at, repo, author, authorName, title, body)), r)
    {
      var checked := Validated(title, "title", MAX_TITLE);
      if checked.Err? {
        return Answered(Refused(checked.error), None);
      }
      var number := NextIssueNumber(catalog.claims, repo);
      var event := IssueRecord(at, repo, IssueOpened(id, repo, number, checked.value, NonBlank(body), author, authorName));
      r := CommitClaim(event, IssueCounterKey(repo), IssueCounter(number + 1), id, net);
    }

    method OpenPull(id: Id, at: Instant, repo: Id, author: Id, authorName: string, title: string, body: Option<string>,
                    source: string, target: string, head: Oid, base: Oid, net: Net) returns (r: Outcome)
      requires Ready()
      modifies writer, writer.broker, catalog
      ensures Ran(old(Memory()), Command.OpenPull(id, at, repo, author, authorName, title, body, source, target, head, base),
                  old(writer.broker.topics), old(writer.fenced), Memory(), writer.broker.topics, writer.fenced,
                  writer.dead, writer.broker.open, r)
      ensures old(Works(net)) ==> CarriedOut(Decide(old(Memory()), Command.OpenPull(id, at, repo, author, authorName, title, body, source, target, head, base)), r)
    {
      var checked := Validated(title, "title", MAX_TITLE);
      if checked.Err? {
        return Answered(Refused(checked.error), None);
      }
      if source == target {
        return Answered(Refused(BadRequest(SELF_MERGE)), None);
      }
      var number := NextIssueNumber(catalog.claims, repo);
      var event := PrRecord(at, repo, PrOpened(id, repo, number, checked.value, NonBlank(body), author, authorName,
                                               source, target, head, base));
      r := CommitClaim(event, IssueCounterKey(repo), IssueCounter(number + 1), id, net);
    }

    method CommentOnIssue(id: Id, at: Instant, repo: Id, issue: Id, author: Id, authorName: string, text: string,
                          net: Net) returns (r: Outcome)
      requires Ready()
      modifies writer, writer.broker
      ensures Ran(old(Memory()), Command.CommentOnIssue(id, at, repo, issue, author, authorName, text),
                  old(writer.broker.topics), old(writer.fenced), Memory(), writer.broker.topics, writer.fenced,
                  writer.dead, writer.broker.open, r)
      ensures old(Works(net)) ==> CarriedOut(Decide(old(Memory()), Command.CommentOnIssue(id, at, repo, issue, author, authorName, text)), r)
    {
      var checked := Validated(text, "comment", MAX_BODY);
      if checked.Err? {
        return Answered(Refused(checked.error), None);
      }
      var event := IssueRecord(at, repo, Commented(id, issue, repo, author, authorName, checked.value));
      var t := writer.Transact([event], net);
      r := if t.Ok? then Answered(Done(id), Some(t.value)) else WriteFailed(t.error);
    }

    /** Check every update against the map as it stands, write all of them in one
        transaction or none, and move the map only after the commit. */
    method UpdateRefs(at: Instant, repo: Id, updates: seq<RefUpdate>, pusher: Id, net: Net) returns (r: Outcome)
      requires Ready()
      modifies writer, writer.broker, refs
      ensures Ran(old(Memory()), Command.UpdateRefs(at, repo, updates, pusher), old(writer.broker.topics),
                  old(writer.fenced), Memory(), writer.broker.topics, writer.fenced, writer.dead, writer.broker.open, r)
      ensures old(Works(net)) ==> CarriedOut(Decide(old(Memory()), Command.UpdateRefs(at, repo, updates, pusher)), r)
    {
      if updates == [] {
        return Answered(RefResults([]), None);
      }
      var results: seq<RefResult> := [];
      var rejected := false;
      for i := 0 to |updates|
        invariant results == Checks(refs.refs, repo, updates)[..i]
        invariant rejected <==> exists k :: 0 <= k < i && results[k].rejection.Some?
      {
        assert Checks(refs.refs, repo, updates)[..i + 1] == Checks(refs.refs, repo, updates)[..i] + [Checks(refs.refs, repo, updates)[i]];
        var rejection := Check(refs.refs, repo, updates[i]);
        rejected := rejected || rejection.Some?;
        results := results + [RefResult(updates[i].name, rejection)];
      }
      assert results == Checks(refs.refs, repo, updates);
      if rejected {
        return Answered(RefResults(results), None);
      }
      var records := BuildPush(at, repo, updates, pusher);
      var t := writer.Transact(records, net);
      if t.Err? {
        return WriteFailed(t.error);
      }
      MoveRefs(repo, updates);
      r := Answered(RefResults(results), Some(t.value));
    }

    method BuildPush(at: Instant, repo: Id, updates: seq<RefUpdate>, pusher: Id) returns (records: seq<Record>)
      ensures records == PushRecords(at, repo, updates, pusher)
    {
      records := [];
      for i := 0 to |updates|
        invariant records == PushRecords(at, repo, updates[..i], pusher)
      {
        assert updates[..i + 1][..i] == updates[..i];
        var u := updates[i];
        records := records + [Record(EventsGitRefs, repo,
                                     Some(OfRef(RefUpdated(repo, u.name, u.expectedOld, u.newOid, pusher), at)))];
        match u.newOid {
          case Some(oid) => records := records + [Record(GitRefs, RefKey(repo, u.name), Some(OfTarget(oid)))];
          case None => records := records + [Record(GitRefs, RefKey(repo, u.name), None)];
        }
      }
      assert updates[..|updates|] == updates;
    }

    method MoveRefs(repo: Id, updates: seq<RefUpdate>)
      modifies refs
      ensures refs.refs == MoveAll(old(refs.refs), repo, updates)
    {
      for i := 0 to |updates|
        invariant refs.refs == MoveAll(old(refs.refs), repo, updates[..i])
      {
        assert updates[..i + 1][..i] == updates[..i];
        refs.Set(repo, updates[i].name, updates[i].newOid);
      }
      assert updates[..|updates|] == updates;
    }

    method MergePull(at: Instant, repo: Id, pr: Id, target: string, expectedBase: Oid, expectedHead: Oid,
                     mergeCommit: Oid, mergedBy: Id, mergedByName: string, net: Net) returns (r: Outcome)
      requires Ready()
      modifies writer, writer.broker, refs
      ensures Ran(old(Memory()), Command.MergePull(at, repo, pr, target, expectedBase, expectedHead, mergeCommit, mergedBy, mergedByName),
                  old(writer.broker.topics), old(writer.fenced), Memory(), writer.broker.topics, writer.fenced,
                  writer.dead, writer.broker.open, r)
      ensures old(Works(net)) ==> CarriedOut(Decide(old(Memory()), Command.MergePull(at, repo, pr, target, expectedBase, expectedHead, mergeCommit, mergedBy, mergedByName)), r)
    {
      var name := BranchRef(target);
      var current := GetRef(refs.refs, repo, name);
      if current != Some(expectedBase) {
        return Answered(Refused(StaleMerge(expectedBase, current)), None);
      }
      var merged := PrRecord(at, repo, Merged(pr, repo, mergeCommit, mergedBy, mergedByName));
      var moved := Record(EventsGitRefs, repo,
                          Some(OfRef(RefUpdated(repo, name, Some(expectedBase), Some(mergeCommit), mergedBy), at)));
      var value := Record(GitRefs, RefKey(repo, name), Some(OfTarget(mergeCommit)));
      assert [merged, moved, value] ==
        [merged] + MoveRecords(at, repo, RefUpdate(name, Some(expectedBase), Some(mergeCommit)), mergedBy);
      var t := writer.Transact([merged, moved, value], net);
      if t.Err? {
        return WriteFailed(t.error);
      }
      refs.Set(repo, name, Some(mergeCommit));
      r := Answered(Done(pr), Some(t.value));
    }
  }

  function ReadClaims(m: map<string, Claim>, rs: seq<Record>): map<string, Claim> {
    if rs == [] then m
    else ApplyClaim(ReadClaims(m, rs[..|rs| - 1]), rs[|rs| - 1].key, rs[|rs| - 1].value)
  }

  function ReadTargets(m: map<string, Oid>, rs: seq<Record>): map<string, Oid> {
    if rs == [] then m
    else ApplyTarget(ReadTargets(m, rs[..|rs| - 1]), rs[|rs| - 1].key, rs[|rs| - 1].value)
  }

  lemma {:induction false} ReadAppend(claims: map<string, Claim>, refs: map<string, Oid>, a: seq<Record>, b: seq<Record>)
    ensures ReadClaims(claims, a + b) == ReadClaims(ReadClaims(claims, a), b)
    ensures ReadTargets(refs, a + b) == ReadTargets(ReadTargets(refs, a), b)
  {
    if b == [] {
      assert a + b == a;
    } else {
      assert (a + b)[..|a + b| - 1] == a + b[..|b| - 1];
      ReadAppend(claims, refs, a, b[..|b| - 1]);
    }
  }

  lemma ReadOne(claims: map<string, Claim>, refs: map<string, Oid>, a: seq<Record>, r: Record)
    ensures ReadClaims(claims, a + [r]) == ApplyClaim(ReadClaims(claims, a), r.key, r.value) && ReadClaims(claims, a + []) == ReadClaims(claims, a)
    ensures ReadTargets(refs, a + [r]) == ApplyTarget(ReadTargets(refs, a), r.key, r.value) && ReadTargets(refs, a + []) == ReadTargets(refs, a)
  {
    assert (a + [r])[..|a|] == a && a + [] == a;
  }

  lemma {:induction false} ReadingIsFolding(s: State, rs: seq<Record>)
    ensures ReadClaims(s.catalog, OfTopic(rs, MetaCatalog)) == ApplyRecords(s, rs).catalog
    ensures ReadTargets(s.refs, OfTopic(rs, GitRefs)) == ApplyRecords(s, rs).refs
  {
    if rs != [] {
      var (init, last) := (rs[..|rs| - 1], rs[|rs| - 1]);
      ReadingIsFolding(s, init);
      ReadOne(s.catalog, s.refs, OfTopic(init, MetaCatalog), last);
      ReadOne(s.catalog, s.refs, OfTopic(init, GitRefs), last);
      ApplyLast(s, rs);
    }
  }

  lemma ApplyLast(s: State, rs: seq<Record>)
    requires rs != []
    ensures var (before, last) := (ApplyRecords(s, rs[..|rs| - 1]), rs[|rs| - 1]);
      && ApplyRecords(s, rs).catalog == (if last.topic == MetaCatalog then ApplyClaim(before.catalog, last.key, last.value) else before.catalog)
      && ApplyRecords(s, rs).refs == (if last.topic == GitRefs then ApplyTarget(before.refs, last.key, last.value) else before.refs)
  {}

  /** What a process that starts over this log would remember. */
  function Rebuilt(topics: Topics): State {
    State(ReadClaims(map[], Visible(Partition(topics, MetaCatalog))), ReadTargets(map[], Visible(Partition(topics, GitRefs))))
  }

  /** If memory agrees with the log, it does after any command that ran to an answer,
      whatever the network did: a restart would rebuild exactly what is remembered.
      While a transaction is in doubt the process is dead. */
  lemma MemoryFollowsTheLog(s: State, c: Command, before: Topics, wasFenced: bool,
                            s': State, after: Topics, fenced: bool, dead: bool, inDoubt: bool, r: Outcome)
    requires Ran(s, c, before, wasFenced, s', after, fenced, dead, inDoubt, r)
    requires s == Rebuilt(before)
    ensures s' == Rebuilt(after)
    ensures inDoubt ==> dead
    ensures r.WriteFailed? ==> s' == s && forall t :: Visible(Partition(after, t)) == Visible(Partition(before, t))
    ensures r.Answered? && r.committed.Some? ==>
              forall t :: Visible(Partition(after, t)) == Visible(Partition(before, t)) + OfTopic(Decide(s, c).records, t)
  {
    if Decide(s, c).Write? {
      var rs := Decide(s, c).records;
      if Ended(before, rs, true, after) && r.Answered? && rs != [] && !wasFenced {
        forall t ensures Visible(Partition(after, t)) == Visible(Partition(before, t)) + OfTopic(rs, t) {
          AllOrNothing(before, rs, true, after, t);
        }
        ReadAppend(map[], map[], Visible(Partition(before, MetaCatalog)), OfTopic(rs, MetaCatalog));
        ReadAppend(map[], map[], Visible(Partition(before, GitRefs)), OfTopic(rs, GitRefs));
        ReadingIsFolding(s, rs);
        RememberingIsFolding(s, c);
      } else if Ended(before, rs, false, after) {
        forall t ensures Visible(Partition(after, t)) == Visible(Partition(before, t)) {
          AllOrNothing(before, rs, false, after, t);
        }
      } else {
        DecisionsWriteSomething(s, c);
      }
    }
  }

  lemma DecisionsWriteSomething(s: State, c: Command)
    requires Decide(s, c).Write?
    ensures Decide(s, c).records != []
  {
    if c.UpdateRefs? {
      assert PushRecords(c.at, c.repo, c.updates, c.pusher)[|PushRecords(c.at, c.repo, c.updates, c.pusher)| - 1].topic == GitRefs;
    }
  }
}
