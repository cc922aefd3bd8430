/** The fenced command service as a protocol: any number of processes boot, replay,
    serve, crash and are fenced, around one transactional log.

    The log is a sequence of transactions, committed or aborted. Each topic is what
    the transactions wrote to it: a slot per record, then the control marker that
    ends a transaction, with aborted records and markers invisible. */
module Protocol {
  import opened Base
  import opened Events
  import opened KeyedLog
  import opened Commands

  /** A finished transaction. The command is a history variable: it says on whose
      behalf the records were written, and no reader of the log sees it. */
  datatype Txn = Txn(command: Command, records: seq<Record>, committed: bool)

  // ---- The log and its topics ----

  function ClaimChange(value: Option<Value>): Change<Claim> {
    match value
    case None => Erase
    case Some(v) => if AsClaim(v).Some? then Assign(AsClaim(v).value) else Skip
  }

  function TargetChange(value: Option<Value>): Change<Oid> {
    match value
    case None => Erase
    case Some(v) => if AsTarget(v).Some? then Assign(AsTarget(v).value) else Skip
  }

  function RecordSlots<V>(rs: seq<Record>, topic: Topic, committed: bool, change: Option<Value> -> Change<V>): seq<Slot<V>> {
    if rs == [] then []
    else
      var (init, last) := (rs[..|rs| - 1], rs[|rs| - 1]);
      RecordSlots(init, topic, committed, change)
      + (if last.topic != topic then [] else if committed then [Entry(last.key, change(last.value))] else [Hidden])
  }

  function TxnSlots<V>(t: Txn, topic: Topic, change: Option<Value> -> Change<V>): seq<Slot<V>> {
    var slots := RecordSlots(t.records, topic, t.committed, change);
    if slots == [] then [] else slots + [Hidden]
  }

  function StateAfter(t: Txn, s: State): State {
    if t.committed then ApplyRecords(s, t.records) else s
  }

  function Fold(h: seq<Txn>): State {
    if h == [] then EMPTY else StateAfter(h[|h| - 1], Fold(h[..|h| - 1]))
  }

  /** The transaction is what the command decides against the log before it. */
  ghost predicate Justified(h: seq<Txn>, i: nat)
    requires i < |h|
  {
    h[i].committed ==>
      var d := Decide(Fold(h[..i]), h[i].command);
      d.Write? && d.records == h[i].records
  }

  ghost predicate Lawful(h: seq<Txn>) {
    forall i :: 0 <= i < |h| ==> Justified(h, i)
  }

  // ---- The world ----

  /** What a transaction in flight will have done. The outcome is the broker's, set
      when it settles the transaction and unknown to the process until it hears. */
  datatype Flight = Flight(command: Command, records: seq<Record>, next: State, outcome: Option<bool>)

  datatype Proc =
    | Booting(epoch: nat, claimsDone: bool, claimsAt: nat, catalog: map<string, Claim>,
              refsAt: nat, refs: map<string, Oid>)
    | Serving(epoch: nat, state: State, fenced: bool, flight: Option<Flight>)
    | Dead

  datatype Open = Open(owner: nat, epoch: nat, command: Command, records: seq<Record>)

  datatype World = World(
    epoch: nat,                        // of the newest producer
    history: seq<Txn>,
    open: Option<Open>,                // begun and not yet settled by the broker
    claimsTopic: seq<Slot<Claim>>,     // as stored: compaction has been at work
    refsTopic: seq<Slot<Oid>>,
    procs: map<nat, Proc>)

  datatype Heard = HeardCommitted | HeardFailed | HeardFenced | HeardNothing

  datatype Step =
    | Boot(p: nat, settle: bool)
    | FetchClaims(p: nat, upTo: nat)
    | ClaimsCaughtUp(p: nat)
    | FetchRefs(p: nat, upTo: nat)
    | RefsCaughtUp(p: nat)
    | Begin(p: nat, command: Command)
    | Settle(commit: bool)
    | Hear(p: nat, reply: Heard)
    | Crash(p: nat)
    | CompactClaims(i: nat)
    | CompactRefs(i: nat)

  const START := World(0, [], None, [], [], map[])

  ghost predicate Alive(w: World, p: nat) {
    p in w.procs && !w.procs[p].Dead?
  }

  ghost predicate IsBooting(w: World, p: nat) {
    p in w.procs && w.procs[p].Booting?
  }

  ghost predicate IsServing(w: World, p: nat) {
    p in w.procs && w.procs[p].Serving?
  }

  ghost predicate InFlight(w: World, p: nat) {
    IsServing(w, p) && w.procs[p].flight.Some?
  }

  ghost predicate Newest(w: World, p: nat) {
    Alive(w, p) && w.procs[p].epoch == w.epoch
  }

  ghost function ClaimCursors(w: World): set<nat> {
    set p | p in w.procs && w.procs[p].Booting? && !w.procs[p].claimsDone :: w.procs[p].claimsAt
  }

  ghost function RefCursors(w: World): set<nat> {
    set p | p in w.procs && w.procs[p].Booting? :: w.procs[p].refsAt
  }

  ghost predicate Enabled(w: World, s: Step) {
    match s
    case Boot(p, _) => !Alive(w, p)
    case FetchClaims(p, upTo) =>
      IsBooting(w, p) && !w.procs[p].claimsDone && w.procs[p].claimsAt < upTo <= |w.claimsTopic|
    case ClaimsCaughtUp(p) =>
      IsBooting(w, p) && !w.procs[p].claimsDone && w.procs[p].claimsAt == |w.claimsTopic|
    case FetchRefs(p, upTo) =>
      IsBooting(w, p) && w.procs[p].claimsDone && w.procs[p].refsAt < upTo <= |w.refsTopic|
    case RefsCaughtUp(p) =>
      IsBooting(w, p) && w.procs[p].claimsDone && w.procs[p].refsAt == |w.refsTopic|
    case Begin(p, c) =>
      IsServing(w, p) && w.procs[p].flight.None? && !w.procs[p].fenced && Decide(w.procs[p].state, c).Write?
    case Settle(_) => w.open.Some?
    case Hear(p, reply) => InFlight(w, p) && CanHear(w, w.procs[p].epoch, w.procs[p].flight.value.outcome, reply)
    case Crash(p) => Alive(w, p)
    case CompactClaims(i) => i < |w.claimsTopic| && MayBlank(w.claimsTopic, i, ClaimCursors(w))
    case CompactRefs(i) => i < |w.refsTopic| && MayBlank(w.refsTopic, i, RefCursors(w))
  }

  /** A writer told that its commit failed is told the truth; one that has been
      superseded may be told it was fenced; and the answer may always get lost. */
  ghost predicate CanHear(w: World, epoch: nat, outcome: Option<bool>, reply: Heard) {
    match reply
    case HeardCommitted => outcome == Some(true)
    case HeardFailed => outcome == Some(false) || (outcome.None? && epoch < w.epoch)
    case HeardFenced => outcome == Some(false) || epoch < w.epoch
    case HeardNothing => true
  }

  /** The broker ends the open transaction, whether or not its owner still lives. */
  ghost function Settled(w: World, commit: bool): World
    requires w.open.Some?
  {
    var o := w.open.value;
    var t := Txn(o.command, o.records, commit);
    w.(history := w.history + [t],
       open := None,
       claimsTopic := w.claimsTopic + TxnSlots(t, MetaCatalog, ClaimChange),
       refsTopic := w.refsTopic + TxnSlots(t, GitRefs, TargetChange),
       procs := if InFlight(w, o.owner)
                then w.procs[o.owner := w.procs[o.owner].(flight := Some(w.procs[o.owner].flight.value.(outcome := Some(commit))))]
                else w.procs)
  }

  ghost function AfterHearing(proc: Proc, reply: Heard): Proc
    requires proc.Serving? && proc.flight.Some?
  {
    match reply
    case HeardCommitted => proc.(state := proc.flight.value.next, flight := None)
    case HeardFailed => proc.(flight := None)
    case HeardFenced => proc.(fenced := true, flight := None)
    case HeardNothing => Dead       // the process ends itself
  }

  ghost function Next(w: World, s: Step): World
    requires Enabled(w, s)
  {
    match s
    case Boot(p, settle) =>
      // A new producer's epoch starts once whatever was open has been settled.
      var calm := if w.open.Some? then Settled(w, settle) else w;
      calm.(epoch := w.epoch + 1, procs := calm.procs[p := Booting(w.epoch + 1, false, 0, map[], 0, map[])])
    case FetchClaims(p, upTo) =>
      var b := w.procs[p];
      w.(procs := w.procs[p := b.(claimsAt := upTo, catalog := Replay(w.claimsTopic[b.claimsAt..upTo], b.catalog))])
    case ClaimsCaughtUp(p) =>
      w.(procs := w.procs[p := w.procs[p].(claimsDone := true)])
    case FetchRefs(p, upTo) =>
      var b := w.procs[p];
      w.(procs := w.procs[p := b.(refsAt := upTo, refs := Replay(w.refsTopic[b.refsAt..upTo], b.refs))])
    case RefsCaughtUp(p) =>
      var b := w.procs[p];
      w.(procs := w.procs[p := Serving(b.epoch, State(b.catalog, b.refs), false, None)])
    case Begin(p, c) =>
      // The check happens here, and the records are sent; the broker takes them
      // only from the newest producer.
      var d := Decide(w.procs[p].state, c);
      w.(open := if w.procs[p].epoch == w.epoch then Some(Open(p, w.epoch, c, d.records)) else w.open,
         procs := w.procs[p := w.procs[p].(flight := Some(Flight(c, d.records, d.next, None)))])
    case Settle(commit) => Settled(w, commit)
    case Hear(p, reply) => w.(procs := w.procs[p := AfterHearing(w.procs[p], reply)])
    case Crash(p) => w.(procs := w.procs[p := Dead])
    case CompactClaims(i) => w.(claimsTopic := Blank(w.claimsTopic, i))
    case CompactRefs(i) => w.(refsTopic := Blank(w.refsTopic, i))
  }

  /** A run: worlds linked by steps, from the empty forge. */
  ghost predicate IsRun(ws: seq<World>, ss: seq<Step>) {
    && |ws| == |ss| + 1 && ws[0] == START
    && forall i :: 0 <= i < |ss| ==> StepsAt(ws, ss, i)
  }

  ghost predicate StepsAt(ws: seq<World>, ss: seq<Step>, i: nat)
    requires i < |ss| < |ws|
  {
    Enabled(ws[i], ss[i]) && ws[i + 1] == Next(ws[i], ss[i])
  }

  // ---- The invariant ----

  ghost predicate TopicsFold(w: World) {
    && Readable(w.claimsTopic) && Readable(w.refsTopic)
    && Replay(w.claimsTopic, map[]) == Fold(w.history).catalog
    && Replay(w.refsTopic, map[]) == Fold(w.history).refs
  }

  ghost predicate OpenIsJustified(w: World) {
    w.open.Some? ==>
      var d := Decide(Fold(w.history), w.open.value.command);
      d.Write? && d.records == w.open.value.records
  }

  /** Nobody superseded has a transaction open: it was begun at the present epoch, and
      its owner, if it lives, is the newest process. */
  ghost predicate OpenIsCurrent(w: World) {
    w.open.Some? ==> w.open.value.epoch == w.epoch && (Alive(w, w.open.value.owner) ==> Newest(w, w.open.value.owner))
  }

  /** Wherever a reader has got to, reading on ends with the log's own map. */
  ghost predicate BootingOk(w: World, p: nat)
    requires IsBooting(w, p)
  {
    var b := w.procs[p];
    && b.claimsAt <= |w.claimsTopic| && b.refsAt <= |w.refsTopic|
    && (!b.claimsDone ==> Replay(w.claimsTopic[b.claimsAt..], b.catalog) == Fold(w.history).catalog)
    && (b.claimsDone && b.epoch == w.epoch ==> b.catalog == Fold(w.history).catalog)
    && Replay(w.refsTopic[b.refsAt..], b.refs) == Fold(w.history).refs
    && (b.epoch == w.epoch ==> w.open.None?)
  }

  /** Only the newest producer is promised anything: what it decides against, and
      what it will remember, is the fold of the log. */
  ghost predicate ServingOk(w: World, p: nat)
    requires IsServing(w, p)
  {
    var v := w.procs[p];
    v.epoch == w.epoch ==>
      match v.flight
      case None => v.state == Fold(w.history) && w.open.None?
      case Some(f) =>
        match f.outcome
        case None =>
          && v.state == Fold(w.history) && w.open == Some(Open(p, w.epoch, f.command, f.records))
          && var d := Decide(v.state, f.command); d.Write? && d.records == f.records && d.next == f.next
        case Some(true) => f.next == Fold(w.history) && w.open.None?
        case Some(false) => v.state == Fold(w.history) && w.open.None?
  }

  ghost predicate ProcOk(w: World, p: nat)
    requires Alive(w, p)
  {
    && w.procs[p].epoch <= w.epoch
    && (w.procs[p].Booting? ==> BootingOk(w, p))
    && (w.procs[p].Serving? ==> ServingOk(w, p))
  }

  ghost predicate OneNewest(w: World) {
    forall p, q :: Newest(w, p) && Newest(w, q) ==> p == q
  }

  ghost predicate Inv(w: World) {
    && Lawful(w.history) && TopicsFold(w) && OpenIsJustified(w) && OpenIsCurrent(w) && OneNewest(w)
    && forall p :: Alive(w, p) ==> ProcOk(w, p)
  }

  // ---- Topics fold to the state ----

  lemma {:induction false} ClaimSlotsFold(rs: seq<Record>, s: State)
    ensures Replay(RecordSlots(rs, MetaCatalog, true, ClaimChange), s.catalog) == ApplyRecords(s, rs).catalog
  {
    if rs != [] {
      var (init, last) := (rs[..|rs| - 1], rs[|rs| - 1]);
      ClaimSlotsFold(init, s);
      if last.topic == MetaCatalog {
        ReplayAppend(RecordSlots(init, MetaCatalog, true, ClaimChange), [Entry(last.key, ClaimChange(last.value))], s.catalog);
        ReadOne(Entry(last.key, ClaimChange(last.value)), ApplyRecords(s, init).catalog);
      } else {
        assert RecordSlots(rs, MetaCatalog, true, ClaimChange) == RecordSlots(init, MetaCatalog, true, ClaimChange);
      }
    }
  }

  lemma {:induction false} TargetSlotsFold(rs: seq<Record>, s: State)
    ensures Replay(RecordSlots(rs, GitRefs, true, TargetChange), s.refs) == ApplyRecords(s, rs).refs
  {
    if rs != [] {
      var (init, last) := (rs[..|rs| - 1], rs[|rs| - 1]);
      TargetSlotsFold(init, s);
      if last.topic == GitRefs {
        ReplayAppend(RecordSlots(init, GitRefs, true, TargetChange), [Entry(last.key, TargetChange(last.value))], s.refs);
        ReadOne(Entry(last.key, TargetChange(last.value)), ApplyRecords(s, init).refs);
      } else {
        assert RecordSlots(rs, GitRefs, true, TargetChange) == RecordSlots(init, GitRefs, true, TargetChange);
      }
    }
  }

  lemma {:induction false} AbortedSlotsAreHidden<V>(rs: seq<Record>, topic: Topic, change: Option<Value> -> Change<V>, m: map<string, V>)
    ensures Readable(RecordSlots(rs, topic, false, change))
    ensures Replay(RecordSlots(rs, topic, false, change), m) == m
  {
    if rs != [] {
      var init := RecordSlots(rs[..|rs| - 1], topic, false, change);
      AbortedSlotsAreHidden(rs[..|rs| - 1], topic, change, m);
      if rs[|rs| - 1].topic == topic {
        assert RecordSlots(rs, topic, false, change) == init + [Hidden];
        HiddenIsNothing(init, m);
      } else {
        assert RecordSlots(rs, topic, false, change) == init;
      }
    }
  }

  lemma HiddenIsNothing<V>(log: seq<Slot<V>>, m: map<string, V>)
    ensures Replay(log + [Hidden], m) == Replay(log, m)
  {
    ReplayAppend(log, [Hidden], m);
    ReadOne<V>(Hidden, Replay(log, m));
  }

  /** Records of the compacted topics that this program can read back. */
  ghost predicate WellTyped(rs: seq<Record>) {
    forall i :: 0 <= i < |rs| ==>
      && (rs[i].topic == MetaCatalog ==> !ClaimChange(rs[i].value).Skip?)
      && (rs[i].topic == GitRefs ==> !TargetChange(rs[i].value).Skip?)
  }

  lemma {:induction false} SlotsReadable<V>(rs: seq<Record>, topic: Topic, change: Option<Value> -> Change<V>)
    requires forall i :: 0 <= i < |rs| && rs[i].topic == topic ==> !change(rs[i].value).Skip?
    ensures Readable(RecordSlots(rs, topic, true, change))
  {
    if rs != [] {
      SlotsReadable(rs[..|rs| - 1], topic, change);
    }
  }

  lemma {:induction false} PushIsWellTyped(at: Instant, repo: Id, us: seq<RefUpdate>, pusher: Id)
    ensures WellTyped(PushRecords(at, repo, us, pusher))
  {
    if us != [] {
      PushIsWellTyped(at, repo, us[..|us| - 1], pusher);
    }
  }

  lemma DecisionsAreWellTyped(s: State, c: Command)
    requires Decide(s, c).Write?
    ensures WellTyped(Decide(s, c).records)
  {
    if c.UpdateRefs? {
      PushIsWellTyped(c.at, c.repo, c.updates, c.pusher);
    }
  }

  lemma TxnSlotsFold(t: Txn, s: State)
    requires t.committed ==> WellTyped(t.records)
    ensures Readable(TxnSlots(t, MetaCatalog, ClaimChange)) && Readable(TxnSlots(t, GitRefs, TargetChange))
    ensures Replay(TxnSlots(t, MetaCatalog, ClaimChange), s.catalog) == StateAfter(t, s).catalog
    ensures Replay(TxnSlots(t, GitRefs, TargetChange), s.refs) == StateAfter(t, s).refs
  {
    var cs := RecordSlots(t.records, MetaCatalog, t.committed, ClaimChange);
    var ts := RecordSlots(t.records, GitRefs, t.committed, TargetChange);
    if t.committed {
      ClaimSlotsFold(t.records, s);
      TargetSlotsFold(t.records, s);
      SlotsReadable(t.records, MetaCatalog, ClaimChange);
      SlotsReadable(t.records, GitRefs, TargetChange);
    } else {
      AbortedSlotsAreHidden(t.records, MetaCatalog, ClaimChange, s.catalog);
      AbortedSlotsAreHidden(t.records, GitRefs, TargetChange, s.refs);
    }
    HiddenIsNothing(cs, s.catalog);
    HiddenIsNothing(ts, s.refs);
  }
}
