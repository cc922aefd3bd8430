/** When each command is taken, said of the log and of what was asked for, and what each
    refusal means. */
module Acceptance {
  import opened Base
  import opened Events
  import opened Commands
  import opened Protocol
  import opened ProtocolProofs
  import opened HistoryTheorems
  import opened MergeTheorems

  // ---- Text ----

  predicate Blank(s: string) {
    forall i :: 0 <= i < |s| ==> IsWhitespace(s[i])
  }

  /** A text with white space before and after it. */
  predicate Surrounded(s: string, before: string, middle: string, after: string) {
    s == before + middle + after && Blank(before) && Blank(after)
  }

  lemma WiderBefore(s: string, before: string, middle: string, after: string)
    requires s != [] && IsWhitespace(s[0]) && Surrounded(s[1..], before, middle, after)
    ensures Surrounded(s, [s[0]] + before, middle, after)
  {
    assert s == [s[0]] + s[1..];
  }

  lemma WiderAfter(s: string, before: string, middle: string, after: string)
    requires s != [] && IsWhitespace(s[|s| - 1]) && Surrounded(s[..|s| - 1], before, middle, after)
    ensures Surrounded(s, before, middle, after + [s[|s| - 1]])
  {
    assert s == s[..|s| - 1] + [s[|s| - 1]];
  }

  /** Trimming takes white space off both ends, all of it, and nothing else. */
  lemma {:induction false} TrimIsMiddle(s: string) returns (before: string, after: string)
    ensures Surrounded(s, before, Trim(s), after)
    ensures Trim(s) != [] ==> !IsWhitespace(Trim(s)[0]) && !IsWhitespace(Trim(s)[|Trim(s)| - 1])
  {
    before, after := [], [];
    if s != [] && IsWhitespace(s[0]) {
      before, after := TrimIsMiddle(s[1..]);
      WiderBefore(s, before, Trim(s), after);
      before := [s[0]] + before;
    } else if s != [] && IsWhitespace(s[|s| - 1]) {
      before, after := TrimIsMiddle(s[..|s| - 1]);
      WiderAfter(s, before, Trim(s), after);
      after := after + [s[|s| - 1]];
    } else {
      assert s == before + s + after;
    }
  }

  /** Equal but for the case of ASCII letters. */
  predicate SameLetter(a: char, b: char) {
    a == b || ('A' <= a <= 'Z' && b as int == a as int + 32) || ('A' <= b <= 'Z' && a as int == b as int + 32)
  }

  predicate SameLetters(a: string, b: string) {
    |a| == |b| && forall i :: 0 <= i < |a| ==> SameLetter(a[i], b[i])
  }

  lemma LowerMeans(a: string, b: string)
    ensures Lower(a) == Lower(b) <==> SameLetters(a, b)
  {
    if Lower(a) == Lower(b) {
      assert |Lower(a)| == |a| && |Lower(b)| == |b|;
      forall i | 0 <= i < |a| ensures SameLetter(a[i], b[i]) { assert Lower(a)[i] == Lower(b)[i]; }
    }
    if SameLetters(a, b) {
      forall i | 0 <= i < |a| ensures Lower(a)[i] == Lower(b)[i] { assert SameLetter(a[i], b[i]); }
    }
  }

  // ---- Names ----

  function PickName(r: Record): Option<(string, string)> {
    match r.value
    case Some(OfUser(Registered(_, username, lower, _, _), _)) => Some((username, lower))
    case _ => None
  }

  function PickFullName(r: Record): Option<(string, string)> {
    match r.value
    case Some(OfRepo(Created(_, _, ownerName, name, full, _, _, _), _)) => Some((ownerName + "/" + name, full))
    case _ => None
  }

  /** Every username and every owner/name so far, as it was given, with its lower-cased
      form. */
  function Usernames(h: seq<Txn>): seq<(string, string)> { PickAll(h, PickName) }

  function FullNames(h: seq<Txn>): seq<(string, string)> { PickAll(h, PickFullName) }

  lemma GivenPicked(s: State, c: Command)
    requires Decide(s, c).Write?
    ensures Pick(Decide(s, c).records, PickName) == if c.RegisterUser? then [(c.username, Lower(c.username))] else []
    ensures Pick(Decide(s, c).records, PickFullName) ==
            if c.CreateRepo? then [(c.ownerName + "/" + c.repoName, FullName(c.ownerName, c.repoName))] else []
  {
    PickDecision(s, c, PickName);
    PickDecision(s, c, PickFullName);
    if !c.UpdateRefs? {
      FirstGiven(s, c);
    }
  }

  lemma FirstGiven(s: State, c: Command)
    requires Decide(s, c).Write? && !c.UpdateRefs?
    ensures PickName(Decide(s, c).records[0]) == if c.RegisterUser? then Some((c.username, Lower(c.username))) else None
    ensures PickFullName(Decide(s, c).records[0]) ==
            if c.CreateRepo? then Some((c.ownerName + "/" + c.repoName, FullName(c.ownerName, c.repoName))) else None
  {}

  lemma LowerJoins(owner: string, name: string)
    ensures Lower(owner + "/" + name) == FullName(owner, name)
  {}

  /** Each name as given, with its lower-cased form, and the latter alone. */
  predicate Paired(names: seq<(string, string)>, lowers: seq<string>) {
    |names| == |lowers| && forall i :: 0 <= i < |names| ==> names[i].1 == lowers[i] == Lower(names[i].0)
  }

  lemma OneMorePair(names: seq<(string, string)>, lowers: seq<string>, name: string)
    requires Paired(names, lowers)
    ensures Paired(names + [(name, Lower(name))], lowers + [Lower(name)])
  {}

  lemma {:induction false} GivenAndLower(h: seq<Txn>)
    requires Lawful(h)
    ensures Paired(Usernames(h), Registrations(h)) && Paired(FullNames(h), Creations(h))
  {
    if h != [] {
      LawfulLast(h);
      var (init, t) := (h[..|h| - 1], h[|h| - 1]);
      GivenAndLower(init);
      if t.committed {
        GivenPicked(Fold(init), t.command);
        NamesPicked(Fold(init), t.command);
        if t.command.RegisterUser? {
          OneMorePair(Usernames(init), Registrations(init), t.command.username);
        } else if t.command.CreateRepo? {
          LowerJoins(t.command.ownerName, t.command.repoName);
          OneMorePair(FullNames(init), Creations(init), t.command.ownerName + "/" + t.command.repoName);
        }
      }
    }
  }

  ghost predicate Given(names: seq<(string, string)>, name: string) {
    exists i :: 0 <= i < |names| && SameLetters(names[i].0, name)
  }

  /** A username can be registered exactly if none registered before is the same but for
      case. */
  lemma RegistersWhen(h: seq<Txn>, c: Command)
    requires Lawful(h) && c.RegisterUser?
    ensures Decide(Fold(h), c).Write? <==> !Given(Usernames(h), c.username)
    ensures Given(Usernames(h), c.username) ==> Decide(Fold(h), c) == Reply(Refused(UsernameTaken))
  {
    UsernamesAreUnique(h);
    GivenAndLower(h);
    forall i | 0 <= i < |Usernames(h)| ensures SameLetters(Usernames(h)[i].0, c.username) <==> Registrations(h)[i] == Lower(c.username) {
      LowerMeans(Usernames(h)[i].0, c.username);
    }
    assert Lower(c.username) in Registrations(h) <==> exists i :: 0 <= i < |Registrations(h)| && Registrations(h)[i] == Lower(c.username);
  }

  /** A repository can be created exactly if no owner/name before is the same but for
      case. */
  lemma CreatesWhen(h: seq<Txn>, c: Command)
    requires Lawful(h) && c.CreateRepo?
    ensures Decide(Fold(h), c).Write? <==> !Given(FullNames(h), c.ownerName + "/" + c.repoName)
    ensures Given(FullNames(h), c.ownerName + "/" + c.repoName) ==> Decide(Fold(h), c) == Reply(Refused(RepoExists))
  {
    RepoNamesAreUnique(h);
    GivenAndLower(h);
    var name := c.ownerName + "/" + c.repoName;
    LowerJoins(c.ownerName, c.repoName);
    forall i | 0 <= i < |FullNames(h)| ensures SameLetters(FullNames(h)[i].0, name) <==> Creations(h)[i] == Lower(name) {
      LowerMeans(FullNames(h)[i].0, name);
    }
    assert Lower(name) in Creations(h) <==> exists i :: 0 <= i < |Creations(h)| && Creations(h)[i] == Lower(name);
  }

  // ---- Text and announcements ----

  /** An issue is opened exactly if its title, trimmed, has one to 255 characters. */
  lemma OpensWhen(s: State, c: Command)
    requires c.OpenIssue?
    ensures Decide(s, c).Write? <==> 1 <= |Trim(c.title)| <= 255
    ensures Trim(c.title) == [] ==> Decide(s, c) == Reply(Refused(EmptyField("title")))
    ensures |Trim(c.title)| > 255 ==> Decide(s, c) == Reply(Refused(TooLong("title", 255)))
  {}

  lemma CommentsWhen(s: State, c: Command)
    requires c.CommentOnIssue?
    ensures Decide(s, c).Write? <==> 1 <= |Trim(c.text)| <= 65536
    ensures Trim(c.text) == [] ==> Decide(s, c) == Reply(Refused(EmptyField("comment")))
    ensures |Trim(c.text)| > 65536 ==> Decide(s, c) == Reply(Refused(TooLong("comment", 65536)))
  {}

  /** A pull request needs a title too, and two branches. */
  lemma RequestsWhen(s: State, c: Command)
    requires c.OpenPull?
    ensures Decide(s, c).Write? <==> 1 <= |Trim(c.title)| <= 255 && c.source != c.target
    ensures Trim(c.title) == [] ==> Decide(s, c) == Reply(Refused(EmptyField("title")))
    ensures |Trim(c.title)| > 255 ==> Decide(s, c) == Reply(Refused(TooLong("title", 255)))
    ensures 1 <= |Trim(c.title)| <= 255 && c.source == c.target ==> Decide(s, c) == Reply(Refused(BadRequest(SELF_MERGE)))
  {}

  /** The other commands announce something, and are always taken. */
  lemma AnnouncesAlways(s: State, c: Command)
    requires c.SetIssueState? || c.ReviewPull? || c.RecordMergeability? || c.SynchronizePull? || c.SetPullState?
    ensures Decide(s, c).Write? && |Decide(s, c).records| == 1 && Decide(s, c).next == s
  {}

  // ---- Pushes ----

  /** An update that can be made where its reference is now. */
  predicate Fits(u: RefUpdate, actual: Option<Oid>) {
    IsValidRefName(u.name) && actual == u.expectedOld && (u.expectedOld.Some? || u.newOid.Some?)
  }

  /** What a client is told of one update: the name is bad; or it has another value than
      the client thought; or there is nothing to delete; or there is nothing wrong. */
  predicate Judged(u: RefUpdate, actual: Option<Oid>, r: RefResult) {
    && r.name == u.name
    && (r.rejection == Some(BadName) <==> !IsValidRefName(u.name))
    && (r.rejection == Some(Stale(u.expectedOld, actual)) <==> IsValidRefName(u.name) && actual != u.expectedOld)
    && (r.rejection == Some(DeletingMissing) <==> IsValidRefName(u.name) && actual.None? && u.expectedOld.None? && u.newOid.None?)
    && (r.rejection == None <==> Fits(u, actual))
  }

  /** A push goes through exactly if it asks for something and every update of it can be
      made where the references were before it; each update is judged by itself. */
  lemma PushTakesWhen(s: State, c: Command)
    requires c.UpdateRefs?
    ensures Decide(s, c).Write? <==> c.updates != [] && forall i :: 0 <= i < |c.updates| ==> Fits(c.updates[i], GetRef(s.refs, c.repo, c.updates[i].name))
    ensures Decide(s, c).answer.RefResults? && |Decide(s, c).answer.results| == |c.updates|
    ensures forall i :: 0 <= i < |c.updates| ==> Judged(c.updates[i], GetRef(s.refs, c.repo, c.updates[i].name), Decide(s, c).answer.results[i])
  {
    var results := Checks(s.refs, c.repo, c.updates);
    forall i | 0 <= i < |c.updates| ensures Judged(c.updates[i], GetRef(s.refs, c.repo, c.updates[i].name), results[i]) {
      CheckJudges(s.refs, c.repo, c.updates[i]);
    }
    if c.updates != [] && AllAccepted(results) {
      assert Decide(s, c).answer == RefResults(results);
    }
  }

  lemma CheckJudges(refs: map<string, Oid>, repo: Id, u: RefUpdate)
    ensures Judged(u, GetRef(refs, repo, u.name), RefResult(u.name, Check(refs, repo, u)))
  {}

  /** The same of the log: where a reference is, is where its last move left it. */
  lemma PushTakesOverHistory(h: seq<Txn>, c: Command)
    requires Lawful(h) && c.UpdateRefs?
    ensures Decide(Fold(h), c).Write? <==>
              c.updates != [] && forall i :: 0 <= i < |c.updates| ==> Fits(c.updates[i], LastNew(Reflog(h), c.repo, c.updates[i].name))
    ensures Decide(Fold(h), c).answer.RefResults? && |Decide(Fold(h), c).answer.results| == |c.updates|
    ensures forall i :: 0 <= i < |c.updates| ==>
              Judged(c.updates[i], LastNew(Reflog(h), c.repo, c.updates[i].name), Decide(Fold(h), c).answer.results[i])
  {
    PushTakesWhen(Fold(h), c);
    forall i | 0 <= i < |c.updates| ensures GetRef(Fold(h).refs, c.repo, c.updates[i].name) == LastNew(Reflog(h), c.repo, c.updates[i].name) {
      ReflogGivesTheRefs(h, c.repo, c.updates[i].name);
    }
  }

  lemma {:induction false} LastMoveIs(us: seq<RefUpdate>, i: nat)
    requires i < |us| && forall k :: i < k < |us| ==> us[k].name != us[i].name
    ensures LastMove(us, us[i].name) == Some(us[i].newOid)
  {
    if i < |us| - 1 { LastMoveIs(us[..|us| - 1], i); }
  }

  lemma {:induction false} NoMove(us: seq<RefUpdate>, name: string)
    requires forall k :: 0 <= k < |us| ==> us[k].name != name
    ensures LastMove(us, name).None?
  {
    if us != [] { NoMove(us[..|us| - 1], name); }
  }

  /** A push that goes through leaves every reference where its last update for it says,
      and no other reference moves. */
  lemma PushMoves(s: State, c: Command, repo: Id, name: string)
    requires c.UpdateRefs? && Decide(s, c).Write?
    ensures forall i :: 0 <= i < |c.updates| && repo == c.repo && c.updates[i].name == name && (forall k :: i < k < |c.updates| ==> c.updates[k].name != name)
              ==> GetRef(Decide(s, c).next.refs, repo, name) == c.updates[i].newOid
    ensures repo != c.repo || (forall k :: 0 <= k < |c.updates| ==> c.updates[k].name != name) ==>
              GetRef(Decide(s, c).next.refs, repo, name) == GetRef(s.refs, repo, name)
  {
    MoveAllLastMove(s.refs, c.repo, c.updates, repo, name);
    forall i | 0 <= i < |c.updates| && repo == c.repo && c.updates[i].name == name && (forall k :: i < k < |c.updates| ==> c.updates[k].name != name)
      ensures LastMove(c.updates, name) == Some(c.updates[i].newOid)
    {
      LastMoveIs(c.updates, i);
    }
    if forall k :: 0 <= k < |c.updates| ==> c.updates[k].name != name {
      NoMove(c.updates, name);
    }
  }

  /** What a caller is told of a command that is taken: the id of what it is about. */
  lemma TakenAnswers(s: State, c: Command)
    requires Decide(s, c).Write?
    ensures c.RegisterUser? || c.CreateRepo? || c.OpenIssue? || c.CommentOnIssue? || c.OpenPull? || c.ReviewPull? ==> Decide(s, c).answer == Done(c.id)
    ensures c.SetIssueState? ==> Decide(s, c).answer == Done(c.issue)
    ensures c.RecordMergeability? || c.SynchronizePull? || c.MergePull? || c.SetPullState? ==> Decide(s, c).answer == Done(c.pr)
  {}

  /** What a name is taken for. */
  lemma NamesAreTakenFor(s: State, c: Command)
    requires Decide(s, c).Write?
    ensures c.RegisterUser? ==> Get(Decide(s, c).next.catalog, "user:" + Lower(c.username)) == Some(UserClaim(c.id))
    ensures c.CreateRepo? ==> Get(Decide(s, c).next.catalog, "repo:" + Lower(c.ownerName + "/" + c.repoName)) == Some(RepoClaim(c.id))
  {
    if c.CreateRepo? { LowerJoins(c.ownerName, c.repoName); }
  }

  // ---- Reference names ----

  /** The rules, character by character. */
  predicate FollowsTheRules(name: string) {
    && |name| >= 5 && name[0] == 'r' && name[1] == 'e' && name[2] == 'f' && name[3] == 's' && name[4] == '/'
    && Utf8Len(name) <= 255 && name[|name| - 1] != '/'
    && (forall i :: 0 < i < |name| ==> !(name[i - 1] == '.' && name[i] == '.') && !(name[i - 1] == '/' && name[i] == '/'))
    && !(name[|name| - 5] == '.' && name[|name| - 4] == 'l' && name[|name| - 3] == 'o' && name[|name| - 2] == 'c' && name[|name| - 1] == 'k')
    && forall i :: 0 <= i < |name| ==> Allowed(name[i])
  }

  lemma PairOccurs(s: string, c: char)
    ensures Contains(s, [c, c]) <==> exists i :: 0 < i < |s| && s[i - 1] == c && s[i] == c
  {
    if i: nat :| i <= |s| && OccursAt(s, [c, c], i) {
      assert s[i..i + 2][0] == s[i] && s[i..i + 2][1] == s[i + 1];
      assert s[i + 1 - 1] == c && s[i + 1] == c;
    }
    if i :| 0 < i < |s| && s[i - 1] == c && s[i] == c {
      assert s[i - 1..i - 1 + 2] == [c, c];
      assert OccursAt(s, [c, c], i - 1);
    }
  }

  /** A name can be stored exactly if it follows the rules. */
  lemma ValidMeans(name: string)
    ensures IsValidRefName(name) <==> FollowsTheRules(name)
  {
    PairOccurs(name, '.');
    PairOccurs(name, '/');
    assert ".." == ['.', '.'] && "//" == ['/', '/'] && "refs/" == ['r', 'e', 'f', 's', '/'] && ".lock" == ['.', 'l', 'o', 'c', 'k'] && "/" == ['/'];
    if |name| >= 5 {
      assert name[..5] == [name[0], name[1], name[2], name[3], name[4]];
      var n := |name|;
      assert name[n - 5..] == [name[n - 5], name[n - 4], name[n - 3], name[n - 2], name[n - 1]];
      assert name[n - 1..] == [name[n - 1]];
    }
    CharsMean(name);
  }

  lemma CharsMean(name: string)
    ensures (forall c :: c in name ==> 32 <= c as int && c as int != 127 && c !in " ~^:?*[\\") <==>
              forall i :: 0 <= i < |name| ==> Allowed(name[i])
  {
    forall i | 0 <= i < |name| ensures name[i] in name {}
    assert forall c :: c !in " ~^:?*[\\" <==> c != ' ' && c != '~' && c != '^' && c != ':' && c != '?' && c != '*' && c != '[' && c != '\\';
  }

  predicate Allowed(c: char) {
    c as int >= 32 && c as int != 127 && c != ' ' && c != '~' && c != '^' && c != ':' && c != '?' && c != '*' && c != '[' && c != '\\'
  }

  // ---- Ordinary branch names ----

  predicate Plain(c: char) {
    'a' <= c <= 'z' || 'A' <= c <= 'Z' || '0' <= c <= '9' || c == '-' || c == '_'
  }

  lemma {:induction false} AsciiLen(s: string)
    requires forall i :: 0 <= i < |s| ==> (s[i] as int) < 0x80
    ensures Utf8Len(s) == |s|
  {
    if s != [] { AsciiLen(s[1..]); }
  }

  /** Letters, digits, hyphens and underscores make a branch name that can be stored, as
      far as 255 bytes go. */
  lemma PlainBranchesAreValid(name: string)
    requires name != [] && forall i :: 0 <= i < |name| ==> Plain(name[i])
    ensures IsValidRefName(BranchRef(name)) <==> |name| <= 244
    ensures BranchRef(name) == "refs/heads/" + name
  {
    var head := "refs/heads/";
    var full := head + name;
    assert |head| == 11 && head == ['r', 'e', 'f', 's', '/', 'h', 'e', 'a', 'd', 's', '/'];
    assert "refs/" == full[..5];
    forall i | 0 <= i < |full| ensures Plain(full[i]) || (full[i] == '/' && (i == 4 || i == 10)) {
      assert i >= 11 ==> full[i] == name[i - 11];
    }
    AsciiLen(full);
    assert full[|full| - 1] == name[|name| - 1];
    forall i | 0 <= i && i + 2 <= |full| ensures !OccursAt(full, "..", i) && !OccursAt(full, "//", i) {
      assert full[i..i + 2][0] == full[i] && full[i..i + 2][1] == full[i + 1];
    }
    if |full| >= 5 {
      var tail := full[|full| - 5..];
      assert tail[0] == full[|full| - 5] && ".lock"[0] == '.';
    }
    assert full[|full| - 1..][0] == full[|full| - 1] && "/"[0] == '/';
  }
}
