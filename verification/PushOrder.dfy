/** A reference never names an object its repository's topic does not hold, although
    the two are written by different writers, in pieces, by several pushes at once. */
module PushOrder {
  import opened Base
  import opened Events
  import opened Commands
  import opened Codec
  import opened Acceptance
  import Rows
  import P = Push

  // ---- What git presents ----

  /** One line of the hook's input; the zero id stands for no object. */
  datatype Proposed = Proposed(old': Oid, new': Oid, name: string)

  function Explicit(oid: Oid): Option<Oid> {
    if oid == ZERO then None else Some(oid)
  }

  function ToRefUpdate(p: Proposed): RefUpdate {
    RefUpdate(p.name, Explicit(p.old'), Explicit(p.new'))
  }

  function Ids(os: set<GitObject>): set<Oid> {
    set o | o in os :: o.oid
  }

  /** The ids a command would make references name. */
  function Tips(c: Command): set<Oid> {
    if c.UpdateRefs? then set i | 0 <= i < |c.updates| && c.updates[i].newOid.Some? :: c.updates[i].newOid.value
    else if c.MergePull? then {c.mergeCommit}
    else {}
  }

  /** What a line asks of a reference: to be where it says it is, and to go where it
      says, the zero id standing for nowhere. */
  predicate Asks(u: RefUpdate, p: Proposed) {
    && u.name == p.name
    && (p.old' == ZERO ==> u.expectedOld.None?) && (p.old' != ZERO ==> u.expectedOld == Some(p.old'))
    && (p.new' == ZERO ==> u.newOid.None?) && (p.new' != ZERO ==> u.newOid == Some(p.new'))
  }

  predicate AsksAll(c: Command, proposed: seq<Proposed>) {
    c.UpdateRefs? && |c.updates| == |proposed| && forall i :: 0 <= i < |proposed| ==> Asks(c.updates[i], proposed[i])
  }

  function NewIds(proposed: seq<Proposed>): set<Oid> {
    set i | 0 <= i < |proposed| && proposed[i].new' != ZERO :: proposed[i].new'
  }

  lemma TipsAreTheNewIds(c: Command, proposed: seq<Proposed>)
    requires AsksAll(c, proposed)
    ensures Tips(c) == NewIds(proposed)
  {
    forall o ensures o in Tips(c) <==> o in NewIds(proposed) {
      if i :| 0 <= i < |c.updates| && c.updates[i].newOid == Some(o) { assert Asks(c.updates[i], proposed[i]); }
      if i :| 0 <= i < |proposed| && proposed[i].new' != ZERO && proposed[i].new' == o { assert Asks(c.updates[i], proposed[i]); }
    }
  }

  function Somewhere(oid: Oid): Option<Oid> {
    if oid == ZERO then None else Some(oid)
  }

  predicate Ordinary(p: Proposed) {
    IsValidRefName(p.name) && (p.old' != ZERO || p.new' != ZERO)
  }

  /** A push whose lines are about different references, with valid names, each where its
      line says it is, goes through, and puts each reference where its line says. */
  lemma ProposalsLand(s: State, c: Command, proposed: seq<Proposed>)
    requires AsksAll(c, proposed) && proposed != []
    requires forall i :: 0 <= i < |proposed| ==> Ordinary(proposed[i]) && GetRef(s.refs, c.repo, proposed[i].name) == Somewhere(proposed[i].old')
    requires forall i, k :: 0 <= i < k < |proposed| ==> proposed[i].name != proposed[k].name
    ensures Decide(s, c).Write?
    ensures forall i :: 0 <= i < |proposed| ==> GetRef(Decide(s, c).next.refs, c.repo, proposed[i].name) == Somewhere(proposed[i].new')
  {
    PushTakesWhen(s, c);
    forall i | 0 <= i < |c.updates| ensures Acceptance.Fits(c.updates[i], GetRef(s.refs, c.repo, c.updates[i].name)) {
      assert Asks(c.updates[i], proposed[i]) && Ordinary(proposed[i]);
    }
    forall i | 0 <= i < |proposed| ensures GetRef(Decide(s, c).next.refs, c.repo, proposed[i].name) == Somewhere(proposed[i].new') {
      assert Asks(c.updates[i], proposed[i]);
      forall k | i < k < |c.updates| ensures c.updates[k].name != proposed[i].name { assert Asks(c.updates[k], proposed[k]); }
      PushMoves(s, c, c.repo, proposed[i].name);
    }
  }

  /** Store what is quarantined; only then is there a command to send. */
  method AcceptPush(writer: P.ObjectWriter, repo: Id, pusher: Id, at: Instant, quarantine: Option<seq<GitObject>>, proposed: seq<Proposed>,
                    weather: nat -> Effect) returns (r: Result<Command, P.StoreError>)
    requires writer.Valid()
    requires quarantine.Some? ==> P.Collisionless(writer.hash, writer.stored + P.Members(quarantine.value))
    requires forall i :: 0 <= i < |proposed| && proposed[i].new' != ZERO ==>
      proposed[i].new' in Ids(writer.stored + if quarantine.Some? then P.Members(quarantine.value) else {})
    modifies writer
    ensures writer.Valid() && old(writer.stored) <= writer.stored
    ensures r.Ok? ==> AsksAll(r.value, proposed) && r.value.repo == repo && r.value.pusher == pusher && r.value.at == at
    ensures r.Ok? ==> Tips(r.value) == NewIds(proposed) && Tips(r.value) <= Ids(writer.stored)
    ensures (forall k :: weather(k).Confirmed?) && (quarantine.Some? ==> P.Genuine(writer.hash, quarantine.value)) ==> r.Ok?
    ensures r.Ok? && quarantine.Some? ==> P.Members(quarantine.value) <= writer.stored
  {
    if quarantine.Some? && quarantine.value != [] {
      var objects := quarantine.value;
      var put := writer.PutAll(objects, weather);
      if put.Err? {
        return Err(put.error);
      }
      assert objects[..|objects|] == objects;
    }
    r := Ok(UpdateRefs(at, repo, seq(|proposed|, i requires 0 <= i < |proposed| => ToRefUpdate(proposed[i])), pusher));
    TipsAreTheNewIds(r.value, proposed);
  }

  datatype MergeAttempt = Clean(mergeCommit: Oid, added: seq<GitObject>) | Conflict(files: seq<string>)

  datatype MergeError = NotOpen | StaleBase | Conflicts(files: seq<string>) | NotStored(error: P.StoreError)

  /** Merge a pull request onto its target as that stands now, store what the merge
      added, and only then ask for the branch to move. */
  method PerformMerge(writer: P.ObjectWriter, pr: Id, row: Rows.PullRow, resolved: Option<Oid>, attempt: MergeAttempt, actor: Id, actorName: string,
                      at: Instant, weather: nat -> Effect) returns (r: Result<Command, MergeError>)
    requires writer.Valid()
    requires attempt.Clean? ==> P.Collisionless(writer.hash, writer.stored + P.Members(attempt.added)) && attempt.mergeCommit in Ids(P.Members(attempt.added))
    modifies writer
    ensures writer.Valid() && old(writer.stored) <= writer.stored
    ensures r.Ok? ==> row.state == Rows.PullOpen && resolved == Some(row.baseOid) && attempt.Clean?
    ensures r.Ok? ==> r.value == MergePull(at, row.repoId, pr, row.targetBranch, row.baseOid, row.headOid, attempt.mergeCommit, actor, actorName)
    ensures r.Ok? ==> Tips(r.value) <= Ids(writer.stored)
    ensures row.state == Rows.PullOpen && resolved == Some(row.baseOid) && attempt.Clean? && P.Genuine(writer.hash, attempt.added) && (forall k :: weather(k).Confirmed?) ==> r.Ok?
    ensures r == Err(NotOpen) <==> row.state != Rows.PullOpen
    ensures r == Err(StaleBase) <==> row.state == Rows.PullOpen && resolved != Some(row.baseOid)
    ensures attempt.Conflict? && row.state == Rows.PullOpen && resolved == Some(row.baseOid) ==> r == Err(Conflicts(attempt.files))
    ensures row.state != Rows.PullOpen || resolved != Some(row.baseOid) || attempt.Conflict? ==> r.Err? && writer.stored == old(writer.stored) && writer.log == old(writer.log)
  {
    if row.state != Rows.PullOpen {
      return Err(NotOpen);
    }
    // The branch as it is now, not as the request remembers it.
    if resolved != Some(row.baseOid) {
      return Err(StaleBase);
    }
    if attempt.Conflict? {
      return Err(Conflicts(attempt.files));
    }
    var put := writer.PutAll(attempt.added, weather);
    if put.Err? {
      return Err(NotStored(put.error));
    }
    assert attempt.added[..|attempt.added|] == attempt.added;
    r := Ok(MergePull(at, row.repoId, pr, row.targetBranch, row.baseOid, row.headOid, attempt.mergeCommit, actor, actorName));
  }

  // ---- Many pushes at once ----

  /** A push under way: the objects it has still to store, and its command. */
  datatype Pending = Pending(repo: Id, left: seq<GitObject>, command: Command)

  /** The object ids each repository's topic holds, and what the command service
      decides from. */
  datatype Forge = Forge(objects: map<Id, set<Oid>>, state: State, history: seq<Record>, pushes: seq<Pending>)

  const NEW_FORGE := Forge(map[], EMPTY, [], [])

  datatype Step =
    | Present(push: Pending)
    | Store(i: nat, n: nat)
    | GiveUp(i: nat)
    | Commit(i: nat)
    | Other(command: Command)

  function Held(f: Forge, repo: Id): set<Oid> {
    if repo in f.objects then f.objects[repo] else {}
  }

  function Without<T>(s: seq<T>, i: nat): seq<T>
    requires i < |s|
  {
    s[..i] + s[i + 1..]
  }

  predicate MovesRefs(c: Command) {
    c.UpdateRefs? || c.MergePull?
  }

  /** Git presents a tip that is in the quarantine or already stored. */
  predicate Presentable(f: Forge, p: Pending) {
    MovesRefs(p.command) && p.command.repo == p.repo && Tips(p.command) <= Held(f, p.repo) + Ids(P.Members(p.left))
  }

  predicate Enabled(f: Forge, s: Step) {
    match s
    case Present(p) => Presentable(f, p)
    case Store(i, n) => i < |f.pushes| && n <= |f.pushes[i].left|
    case GiveUp(i) => i < |f.pushes|
    case Commit(i) => i < |f.pushes| && f.pushes[i].left == []
    case Other(c) => !MovesRefs(c)
  }

  function Decided(f: Forge, c: Command): Forge {
    var d := Decide(f.state, c);
    if d.Write? then f.(state := d.next, history := f.history + d.records) else f
  }

  function After(f: Forge, s: Step): Forge
    requires Enabled(f, s)
  {
    match s
    case Present(p) => f.(pushes := f.pushes + [p])
    case Store(i, n) =>
      var p := f.pushes[i];
      f.(objects := f.objects[p.repo := Held(f, p.repo) + Ids(P.Members(p.left[..n]))], pushes := f.pushes[i := p.(left := p.left[n..])])
    case GiveUp(i) => f.(pushes := Without(f.pushes, i))
    case Commit(i) => Decided(f, f.pushes[i].command).(pushes := Without(f.pushes, i))
    case Other(c) => Decided(f, c)
  }

  /** The objects a record says a repository's references name. */
  function Names(r: Record): set<(Id, Oid)> {
    match r.value
    case Some(OfRef(e, _)) => if e.newOid.Some? then {(e.repoId, e.newOid.value)} else {}
    case Some(OfPr(e, _)) => if e.Merged? then {(e.repoId, e.mergeCommit)} else {}
    case _ => {}
  }

  ghost predicate Covered(f: Forge) {
    && (forall repo, name :: GetRef(f.state.refs, repo, name).Some? ==> GetRef(f.state.refs, repo, name).value in Held(f, repo))
    && (forall k, n :: 0 <= k < |f.history| && n in Names(f.history[k]) ==> n.1 in Held(f, n.0))
  }

  ghost predicate Good(f: Forge) {
    Covered(f) && forall i :: 0 <= i < |f.pushes| ==> Presentable(f, f.pushes[i])
  }

  lemma {:induction false} MovedRefsName(refs: map<string, Oid>, repo: Id, us: seq<RefUpdate>, r: Id, name: string)
    requires GetRef(MoveAll(refs, repo, us), r, name).Some?
    ensures var o := GetRef(MoveAll(refs, repo, us), r, name).value;
      GetRef(refs, r, name) == Some(o) || (r == repo && exists i :: 0 <= i < |us| && us[i].newOid == Some(o))
  {
    if us != [] {
      var init := us[..|us| - 1];
      RefKeyInjective(r, name, repo, us[|us| - 1].name);
      if !(r == repo && name == us[|us| - 1].name) {
        MovedRefsName(refs, repo, init, r, name);
        var o := GetRef(MoveAll(refs, repo, us), r, name).value;
        if i :| 0 <= i < |init| && init[i].newOid == Some(o) {
          assert us[i].newOid == Some(o);
        }
      }
    }
  }

  lemma {:induction false} PushNames(at: Instant, repo: Id, us: seq<RefUpdate>, pusher: Id, k: nat)
    requires k < |PushRecords(at, repo, us, pusher)|
    ensures forall n :: n in Names(PushRecords(at, repo, us, pusher)[k]) ==> n.0 == repo && exists i :: 0 <= i < |us| && us[i].newOid == Some(n.1)
  {
    var (init, last) := (us[..|us| - 1], us[|us| - 1]);
    var before := PushRecords(at, repo, init, pusher);
    if k < |before| {
      PushNames(at, repo, init, pusher, k);
      forall n | n in Names(before[k]) ensures exists i :: 0 <= i < |us| && us[i].newOid == Some(n.1) {
        var i :| 0 <= i < |init| && init[i].newOid == Some(n.1);
        assert us[i].newOid == Some(n.1);
      }
    } else {
      assert PushRecords(at, repo, us, pusher)[k] == MoveRecords(at, repo, last, pusher)[k - |before|];
      assert us[|us| - 1].newOid == last.newOid;
    }
  }

  /** A push decision makes references name tips of its command, or what they already
      named. */
  lemma PushCovers(f: Forge, c: Command)
    requires Covered(f) && c.UpdateRefs? && Tips(c) <= Held(f, c.repo)
    ensures Covered(Decided(f, c))
  {
    var f' := Decided(f, c);
    if Decide(f.state, c).Write? {
      forall repo, name | GetRef(f'.state.refs, repo, name).Some? ensures GetRef(f'.state.refs, repo, name).value in Held(f', repo) {
        MovedRefsName(f.state.refs, c.repo, c.updates, repo, name);
      }
      forall k, n | 0 <= k < |f'.history| && n in Names(f'.history[k]) ensures n.1 in Held(f', n.0) {
        if k < |f.history| {
          assert n in Names(f.history[k]);
        } else {
          PushNames(c.at, c.repo, c.updates, c.pusher, k - |f.history|);
        }
      }
    }
  }

  lemma MergeCovers(f: Forge, c: Command)
    requires Covered(f) && c.MergePull? && Tips(c) <= Held(f, c.repo)
    ensures Covered(Decided(f, c))
  {
    var f' := Decided(f, c);
    if Decide(f.state, c).Write? {
      forall repo, name | GetRef(f'.state.refs, repo, name).Some? ensures GetRef(f'.state.refs, repo, name).value in Held(f', repo) {
        RefKeyInjective(repo, name, c.repo, BranchRef(c.target));
        assert GetRef(f.state.refs, repo, name).Some? ==> GetRef(f.state.refs, repo, name).value in Held(f, repo);
      }
      forall k, n | 0 <= k < |f'.history| && n in Names(f'.history[k]) ensures n.1 in Held(f', n.0) {
        if k < |f.history| { assert n in Names(f.history[k]); }
      }
    }
  }

  lemma OthersNameNothing(s: State, c: Command)
    requires !MovesRefs(c) && Decide(s, c).Write?
    ensures Decide(s, c).next.refs == s.refs
    ensures forall k :: 0 <= k < |Decide(s, c).records| ==> Names(Decide(s, c).records[k]) == {}
  {}

  lemma OtherCovers(f: Forge, c: Command)
    requires Covered(f) && !MovesRefs(c)
    ensures Covered(Decided(f, c))
  {
    var f' := Decided(f, c);
    if Decide(f.state, c).Write? {
      OthersNameNothing(f.state, c);
      forall k, n | 0 <= k < |f'.history| && n in Names(f'.history[k]) ensures n.1 in Held(f', n.0) {
        if k < |f.history| { assert n in Names(f.history[k]); }
      }
    }
  }

  lemma StoreKeeps(f: Forge, i: nat, n: nat)
    requires Good(f) && Enabled(f, Store(i, n))
    ensures Good(After(f, Store(i, n)))
  {
    var f' := After(f, Store(i, n));
    assert f.pushes[i].left == f.pushes[i].left[..n] + f.pushes[i].left[n..];
    forall k | 0 <= k < |f'.pushes| ensures Presentable(f', f'.pushes[k]) {
      assert Presentable(f, f.pushes[k]);
    }
  }

  lemma StepKeeps(f: Forge, s: Step)
    requires Good(f) && Enabled(f, s)
    ensures Good(After(f, s))
  {
    match s
    case Present(p) =>
    case Store(i, n) => StoreKeeps(f, i, n);
    case GiveUp(i) =>
    case Commit(i) =>
      assert Presentable(f, f.pushes[i]) && P.Members(f.pushes[i].left) == {};
      if f.pushes[i].command.UpdateRefs? { PushCovers(f, f.pushes[i].command); } else { MergeCovers(f, f.pushes[i].command); }
      KeepsPresentable(f, f.pushes[i].command, i);
    case Other(c) =>
      OtherCovers(f, c);
  }

  lemma KeepsPresentable(f: Forge, c: Command, i: nat)
    requires Good(f) && i < |f.pushes|
    ensures var f' := Decided(f, c).(pushes := Without(f.pushes, i)); forall k :: 0 <= k < |f'.pushes| ==> Presentable(f', f'.pushes[k])
  {}

  ghost predicate IsRun(run: seq<Forge>, steps: seq<Step>) {
    && |run| == |steps| + 1 && run[0] == NEW_FORGE
    && forall k :: 0 <= k < |steps| ==> StepsAt(run, steps, k)
  }

  ghost predicate StepsAt(run: seq<Forge>, steps: seq<Step>, k: nat)
    requires k < |steps| < |run|
  {
    Enabled(run[k], steps[k]) && run[k + 1] == After(run[k], steps[k])
  }

  /** However pushes, merges and other commands interleave, and whoever gives up where,
      every object a committed record or reference names is in the topic of its
      repository. */
  lemma {:induction false} ObjectsComeFirst(run: seq<Forge>, steps: seq<Step>, k: nat)
    requires IsRun(run, steps) && k < |run|
    ensures Good(run[k])
  {
    if k > 0 {
      ObjectsComeFirst(run, steps, k - 1);
      assert StepsAt(run, steps, k - 1);
      StepKeeps(run[k - 1], steps[k - 1]);
    }
  }

  /** Nothing but git vouches for a tip: the command service takes any id, so a push
      that creates one reference leaves it covered exactly if its tip was stored. */
  lemma TipIsTakenOnTrust(f: Forge, at: Instant, repo: Id, name: string, tip: Oid, pusher: Id)
    requires Covered(f) && IsValidRefName(name) && GetRef(f.state.refs, repo, name).None?
    ensures var c := UpdateRefs(at, repo, [RefUpdate(name, None, Some(tip))], pusher);
      Covered(Decided(f, c)) <==> tip in Held(f, repo)
  {
    var us := [RefUpdate(name, None, Some(tip))];
    var c := UpdateRefs(at, repo, us, pusher);
    assert us[..0] == [];
    assert MoveAll(f.state.refs, repo, us) == SetRef(MoveAll(f.state.refs, repo, us[..0]), repo, name, Some(tip));
    assert Decided(f, c).state.refs == f.state.refs[RefKey(repo, name) := tip];
    if tip in Held(f, repo) {
      PushCovers(f, c);
    } else {
      assert GetRef(Decided(f, c).state.refs, repo, name) == Some(tip);
    }
  }
}
