/** What the command service decides: the uniqueness catalog, the reference map,
    and for each command the records it writes and the state it remembers. */
module Commands {
  import opened Base
  import opened Events

  // ---- Text ----

  predicate IsWhitespace(c: char) {
    var n := c as int;
    9 <= n <= 13 || n == 0x20 || n == 0x85 || n == 0xA0 || n == 0x1680 || 0x2000 <= n <= 0x200A
    || n == 0x2028 || n == 0x2029 || n == 0x202F || n == 0x205F || n == 0x3000
  }

  function Trim(s: string): (t: string)
    ensures t != [] ==> !IsWhitespace(t[0]) && !IsWhitespace(t[|t| - 1])
    ensures t == [] <==> forall c :: c in s ==> IsWhitespace(c)
  {
    if s == [] then []
    else if IsWhitespace(s[0]) then
      (assert s == [s[0]] + s[1..]; Trim(s[1..]))
    else if IsWhitespace(s[|s| - 1]) then Trim(s[..|s| - 1])
    else s
  }

  const MAX_TITLE := 255
  const MAX_BODY := 64 * 1024

  function Validated(text: string, field: string, max: nat): Result<string, CommandError> {
    var trimmed := Trim(text);
    if trimmed == [] then Err(EmptyField(field))
    else if |trimmed| > max then Err(TooLong(field, max))
    else Ok(trimmed)
  }

  function NonBlank(body: Option<string>): Option<string> {
    match body
    case Some(b) => if Trim(b) == [] then None else body
    case None => None
  }

  function LowerChar(c: char): char {
    if 'A' <= c <= 'Z' then ((c as int) + 32) as char else c
  }

  function Lower(s: string): string {
    seq(|s|, i requires 0 <= i < |s| => LowerChar(s[i]))
  }

  /** Bytes a character takes in UTF-8; reference names are bounded in bytes. */
  function Utf8Len(s: string): nat {
    if s == [] then 0 else
      var n := s[0] as int;
      (if n < 0x80 then 1 else if n < 0x800 then 2 else if n < 0x10000 then 3 else 4) + Utf8Len(s[1..])
  }

  // ---- Keys ----

  function UserKey(usernameLower: string): string { "user:" + usernameLower }

  function RepoKey(fullNameLower: string): string { "repo:" + fullNameLower }

  function IssueCounterKey(repo: Id): string { "issuenum:" + repo }

  function RefKey(repo: Id, name: string): string { repo + "/" + name }

  /** Names of different kinds never share a catalog key, nor do different names. */
  lemma KeysAreApart(a: string, b: string, r: Id, q: Id)
    ensures UserKey(a) != RepoKey(b) && UserKey(a) != IssueCounterKey(r) && RepoKey(b) != IssueCounterKey(r)
    ensures UserKey(a) == UserKey(b) ==> a == b
    ensures RepoKey(a) == RepoKey(b) ==> a == b
    ensures IssueCounterKey(r) == IssueCounterKey(q) ==> r == q
  {
    assert UserKey(a)[0] == 'u' && RepoKey(b)[0] == 'r' && IssueCounterKey(r)[0] == 'i';
    assert UserKey(a)[5..] == a && UserKey(b)[5..] == b;
    assert RepoKey(a)[5..] == a && RepoKey(b)[5..] == b;
    assert IssueCounterKey(r)[9..] == r && IssueCounterKey(q)[9..] == q;
  }

  /** The flat string key stands for a pair. */
  lemma RefKeyInjective(r: Id, a: string, q: Id, b: string)
    ensures RefKey(r, a) == RefKey(q, b) <==> r == q && a == b
  {
    assert RefKey(r, a)[..36] == r && RefKey(q, b)[..36] == q;
    assert RefKey(r, a)[37..] == a && RefKey(q, b)[37..] == b;
  }

  // ---- Reference names ----

  predicate OccursAt(s: string, part: string, i: nat) {
    i + |part| <= |s| && s[i..i + |part|] == part
  }

  predicate Contains(s: string, part: string) {
    exists i: nat :: i <= |s| && OccursAt(s, part, i)
  }

  predicate EndsWith(s: string, part: string) {
    |part| <= |s| && s[|s| - |part|..] == part
  }

  predicate IsValidRefName(name: string) {
    && "refs/" <= name && Utf8Len(name) <= 255
    && !Contains(name, "..") && !Contains(name, "//") && !EndsWith(name, "/") && !EndsWith(name, ".lock")
    && forall c :: c in name ==> 32 <= c as int && c as int != 127 && c !in " ~^:?*[\\"
  }

  // ---- State ----

  datatype State = State(catalog: map<string, Claim>, refs: map<string, Oid>)

  const EMPTY := State(map[], map[])

  function AsClaim(v: Value): Option<Claim> {
    match v
    case OfClaim(c) => Some(c)
    case _ => None
  }

  function AsTarget(v: Value): Option<Oid> {
    match v
    case OfTarget(o) => Some(o)
    case _ => None
  }

  /** Catalog::apply: an unreadable value is skipped, a tombstone frees the name. */
  function ApplyClaim(catalog: map<string, Claim>, key: string, value: Option<Value>): map<string, Claim> {
    match value
    case Some(v) => (match AsClaim(v) case Some(c) => catalog[key := c] case None => catalog)
    case None => catalog - {key}
  }

  /** RefMap::apply. */
  function ApplyTarget(refs: map<string, Oid>, key: string, value: Option<Value>): map<string, Oid> {
    match value
    case Some(v) => (match AsTarget(v) case Some(o) => refs[key := o] case None => refs)
    case None => refs - {key}
  }

  function NextIssueNumber(catalog: map<string, Claim>, repo: Id): int {
    var claim: Option<Claim> := Get(catalog, IssueCounterKey(repo));
    if claim.Some? && claim.value.IssueCounter? then claim.value.next else 1
  }

  function GetRef(refs: map<string, Oid>, repo: Id, name: string): Option<Oid> {
    Get(refs, RefKey(repo, name))
  }

  function SetRef(refs: map<string, Oid>, repo: Id, name: string, oid: Option<Oid>): map<string, Oid> {
    Put(refs, RefKey(repo, name), oid)
  }

  /** What one committed record does to the decision state. */
  function ApplyRecord(s: State, r: Record): State {
    match r.topic
    case MetaCatalog => s.(catalog := ApplyClaim(s.catalog, r.key, r.value))
    case GitRefs => s.(refs := ApplyTarget(s.refs, r.key, r.value))
    case _ => s
  }

  function ApplyRecords(s: State, rs: seq<Record>): State {
    if rs == [] then s else ApplyRecord(ApplyRecords(s, rs[..|rs| - 1]), rs[|rs| - 1])
  }

  // ---- Commands ----

  datatype RefUpdate = RefUpdate(name: string, expectedOld: Option<Oid>, newOid: Option<Oid>)

  datatype RefRejection =
    | Stale(expected: Option<Oid>, actual: Option<Oid>)
    | DeletingMissing
    | BadName

  datatype RefResult = RefResult(name: string, rejection: Option<RefRejection>)

  datatype CommandError =
    | UsernameTaken
    | RepoExists
    | EmptyField(field: string)
    | TooLong(field: string, max: nat)
    | BadRequest(why: string)
    | StaleMerge(expected: Oid, actual: Option<Oid>)

  /** A request, with the id and instant that were minted for it. Names have been
      parsed already. */
  datatype Command =
    | RegisterUser(id: Id, at: Instant, username: string, email: string, passwordHash: string)
    | CreateRepo(id: Id, at: Instant, owner: Id, ownerName: string, repoName: string,
                 description: Option<string>, visibility: string)
    | OpenIssue(id: Id, at: Instant, repo: Id, author: Id, authorName: string, title: string,
                body: Option<string>)
    | CommentOnIssue(id: Id, at: Instant, repo: Id, issue: Id, author: Id, authorName: string, text: string)
    | SetIssueState(at: Instant, repo: Id, issue: Id, actor: Id, open: bool)
    | UpdateRefs(at: Instant, repo: Id, updates: seq<RefUpdate>, pusher: Id)
    | OpenPull(id: Id, at: Instant, repo: Id, author: Id, authorName: string, title: string,
               body: Option<string>, source: string, target: string, head: Oid, base: Oid)
    | ReviewPull(id: Id, at: Instant, repo: Id, pr: Id, reviewer: Id, reviewerName: string,
                 verdict: ReviewVerdict, remark: Option<string>)
    | RecordMergeability(at: Instant, repo: Id, pr: Id, head: Oid, base: Oid, mergeable: bool,
                         conflicts: seq<string>)
    | SynchronizePull(at: Instant, repo: Id, pr: Id, head: Oid, base: Oid)
    | MergePull(at: Instant, repo: Id, pr: Id, target: string, expectedBase: Oid, expectedHead: Oid,
                mergeCommit: Oid, mergedBy: Id, mergedByName: string)
    | SetPullState(at: Instant, repo: Id, pr: Id, actor: Id, open: bool)

  datatype Answer =
    | Refused(error: CommandError)
    | RefResults(results: seq<RefResult>)
    | Done(id: Id)

  /** Either an answer that writes nothing, or the records of one transaction with
      the state to remember and the answer to give once it commits. */
  datatype Decision =
    | Reply(answer: Answer)
    | Write(records: seq<Record>, next: State, answer: Answer)

  function Check(refs: map<string, Oid>, repo: Id, u: RefUpdate): Option<RefRejection> {
    var actual := GetRef(refs, repo, u.name);
    if !IsValidRefName(u.name) then Some(BadName)
    else if actual != u.expectedOld then Some(Stale(u.expectedOld, actual))
    else if u.newOid.None? && actual.None? then Some(DeletingMissing)
    else None
  }

  function Checks(refs: map<string, Oid>, repo: Id, us: seq<RefUpdate>): seq<RefResult> {
    seq(|us|, i requires 0 <= i < |us| => RefResult(us[i].name, Check(refs, repo, us[i])))
  }

  predicate AllAccepted(results: seq<RefResult>) {
    forall i :: 0 <= i < |results| ==> results[i].rejection.None?
  }

  function MoveRecords(at: Instant, repo: Id, u: RefUpdate, pusher: Id): seq<Record> {
    [Record(EventsGitRefs, repo, Some(OfRef(RefUpdated(repo, u.name, u.expectedOld, u.newOid, pusher), at))),
     Record(GitRefs, RefKey(repo, u.name), if u.newOid.Some? then Some(OfTarget(u.newOid.value)) else None)]
  }

  function PushRecords(at: Instant, repo: Id, us: seq<RefUpdate>, pusher: Id): seq<Record> {
    if us == [] then []
    else PushRecords(at, repo, us[..|us| - 1], pusher) + MoveRecords(at, repo, us[|us| - 1], pusher)
  }

  function MoveAll(refs: map<string, Oid>, repo: Id, us: seq<RefUpdate>): map<string, Oid> {
    if us == [] then refs
    else SetRef(MoveAll(refs, repo, us[..|us| - 1]), repo, us[|us| - 1].name, us[|us| - 1].newOid)
  }

  function Announce(s: State, r: Record, id: Id): Decision {
    Write([r], s, Done(id))
  }

  /** An event together with the catalog claim it depends on. */
  function ClaimWith(s: State, event: Record, key: string, claim: Claim, id: Id): Decision {
    Write([event, Record(MetaCatalog, key, Some(OfClaim(claim)))],
          s.(catalog := ApplyClaim(s.catalog, key, Some(OfClaim(claim)))),
          Done(id))
  }

  function IssueRecord(at: Instant, repo: Id, e: IssueEvent): Record {
    Record(EventsIssues, repo, Some(OfIssue(e, at)))
  }

  function PrRecord(at: Instant, repo: Id, e: PrEvent): Record {
    Record(EventsPrs, repo, Some(OfPr(e, at)))
  }

  function BranchRef(branch: string): string { "refs/heads/" + branch }

  const SELF_MERGE := "a branch cannot be merged into itself"

  /** The check, the transaction and the update every command makes, as one value. */
  function Decide(s: State, c: Command): Decision {
    match c
    case RegisterUser(id, at, username, email, hash) =>
      var lower := Lower(username);
      if UserKey(lower) in s.catalog then Reply(Refused(UsernameTaken))
      else ClaimWith(s, Record(EventsUsers, id, Some(OfUser(Registered(id, username, lower, email, hash), at))),
                     UserKey(lower), UserClaim(id), id)
    case CreateRepo(id, at, owner, ownerName, name, description, visibility) =>
      var full := Lower(ownerName) + "/" + Lower(name);
      if RepoKey(full) in s.catalog then Reply(Refused(RepoExists))
      else ClaimWith(s, Record(EventsRepos, id, Some(OfRepo(Created(id, owner, ownerName, name, full,
                                                description, "main", visibility), at))),
                     RepoKey(full), RepoClaim(id), id)
    case OpenIssue(id, at, repo, author, authorName, title, body) =>
      (match Validated(title, "title", MAX_TITLE)
       case Err(e) => Reply(Refused(e))
       case Ok(t) =>
         var number := NextIssueNumber(s.catalog, repo);
         ClaimWith(s, IssueRecord(at, repo, IssueOpened(id, repo, number, t, NonBlank(body), author, authorName)),
                   IssueCounterKey(repo), IssueCounter(number + 1), id))
    case CommentOnIssue(id, at, repo, issue, author, authorName, text) =>
      (match Validated(text, "comment", MAX_BODY)
       case Err(e) => Reply(Refused(e))
       case Ok(t) => Announce(s, IssueRecord(at, repo, Commented(id, issue, repo, author, authorName, t)), id))
    case SetIssueState(at, repo, issue, actor, open) =>
      Announce(s, IssueRecord(at, repo, if open then IssueReopened(issue, repo, actor) else IssueClosed(issue, repo, actor)), issue)
    case UpdateRefs(at, repo, updates, pusher) =>
      var results := Checks(s.refs, repo, updates);
      if updates == [] || !AllAccepted(results) then Reply(RefResults(results))
      else Write(PushRecords(at, repo, updates, pusher), s.(refs := MoveAll(s.refs, repo, updates)), RefResults(results))
    case OpenPull(id, at, repo, author, authorName, title, body, source, target, head, base) =>
      (match Validated(title, "title", MAX_TITLE)
       case Err(e) => Reply(Refused(e))
       case Ok(t) =>
         if source == target then Reply(Refused(BadRequest(SELF_MERGE)))
         else
           var number := NextIssueNumber(s.catalog, repo);
           ClaimWith(s, PrRecord(at, repo, PrOpened(id, repo, number, t, NonBlank(body), author, authorName,
                                                    source, target, head, base)),
                     IssueCounterKey(repo), IssueCounter(number + 1), id))
    case ReviewPull(id, at, repo, pr, reviewer, reviewerName, verdict, remark) =>
      Announce(s, PrRecord(at, repo, Reviewed(id, pr, repo, reviewer, reviewerName, verdict, NonBlank(remark))), id)
    case RecordMergeability(at, repo, pr, head, base, mergeable, conflicts) =>
      Announce(s, PrRecord(at, repo, MergeabilityComputed(pr, repo, head, base, mergeable, conflicts)), pr)
    case SynchronizePull(at, repo, pr, head, base) =>
      Announce(s, PrRecord(at, repo, Synchronized(pr, repo, head, base)), pr)
    case MergePull(at, repo, pr, target, expectedBase, _, mergeCommit, mergedBy, mergedByName) =>
      var name := BranchRef(target);
      var current := GetRef(s.refs, repo, name);
      if current != Some(expectedBase) then Reply(Refused(StaleMerge(expectedBase, current)))
      else
        Write([PrRecord(at, repo, Merged(pr, repo, mergeCommit, mergedBy, mergedByName))]
              + MoveRecords(at, repo, RefUpdate(name, Some(expectedBase), Some(mergeCommit)), mergedBy),
              s.(refs := SetRef(s.refs, repo, name, Some(mergeCommit))), Done(pr))
    case SetPullState(at, repo, pr, actor, open) =>
      Announce(s, PrRecord(at, repo, if open then PrReopened(pr, repo, actor) else PrClosed(pr, repo, actor)), pr)
  }

  // ---- Remembering is folding ----

  lemma {:induction false} ApplyAppend(s: State, a: seq<Record>, b: seq<Record>)
    ensures ApplyRecords(s, a + b) == ApplyRecords(ApplyRecords(s, a), b)
  {
    if b == [] {
      assert a + b == a;
    } else {
      assert (a + b)[..|a + b| - 1] == a + b[..|b| - 1];
      ApplyAppend(s, a, b[..|b| - 1]);
    }
  }

  lemma ApplyOne(s: State, r: Record)
    ensures ApplyRecords(s, [r]) == ApplyRecord(s, r)
  {
    assert [r][..0] == [];
  }

  lemma ApplyTwo(s: State, a: Record, b: Record)
    ensures ApplyRecords(s, [a, b]) == ApplyRecord(ApplyRecord(s, a), b)
  {
    assert [a, b] == [a] + [b];
    ApplyAppend(s, [a], [b]);
    ApplyOne(s, a);
    ApplyOne(ApplyRecord(s, a), b);
  }

  lemma ApplyMove(s: State, at: Instant, repo: Id, u: RefUpdate, pusher: Id)
    ensures ApplyRecords(s, MoveRecords(at, repo, u, pusher)) == s.(refs := SetRef(s.refs, repo, u.name, u.newOid))
  {
    var rs := MoveRecords(at, repo, u, pusher);
    ApplyTwo(s, rs[0], rs[1]);
  }

  lemma {:induction false} ApplyPush(s: State, at: Instant, repo: Id, us: seq<RefUpdate>, pusher: Id)
    ensures ApplyRecords(s, PushRecords(at, repo, us, pusher)) == s.(refs := MoveAll(s.refs, repo, us))
  {
    if us != [] {
      var (init, last) := (us[..|us| - 1], us[|us| - 1]);
      ApplyPush(s, at, repo, init, pusher);
      ApplyAppend(s, PushRecords(at, repo, init, pusher), MoveRecords(at, repo, last, pusher));
      ApplyMove(s.(refs := MoveAll(s.refs, repo, init)), at, repo, last, pusher);
    }
  }

  /** What a command remembers is what its records fold to, so memory can never
      disagree with a replay of the records it committed. */
  lemma RememberingIsFolding(s: State, c: Command)
    requires Decide(s, c).Write?
    ensures ApplyRecords(s, Decide(s, c).records) == Decide(s, c).next
  {
    var rs := Decide(s, c).records;
    if c.UpdateRefs? {
      ApplyPush(s, c.at, c.repo, c.updates, c.pusher);
    } else if c.MergePull? {
      var move := RefUpdate(BranchRef(c.target), Some(c.expectedBase), Some(c.mergeCommit));
      ApplyAppend(s, [rs[0]], MoveRecords(c.at, c.repo, move, c.mergedBy));
      ApplyOne(s, rs[0]);
      ApplyMove(s, c.at, c.repo, move, c.mergedBy);
    } else if |rs| == 1 {
      assert rs == [rs[0]];
      ApplyOne(s, rs[0]);
    } else {
      assert rs == [rs[0], rs[1]];
      ApplyTwo(s, rs[0], rs[1]);
    }
  }
}
