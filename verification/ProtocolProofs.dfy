/** Every step of the protocol keeps the invariant, so every run does. */
module ProtocolProofs {
  import opened Base
  import opened Events
  import opened KeyedLog
  import opened Commands
  import opened Protocol

  lemma FoldAppend(h: seq<Txn>, t: Txn)
    ensures Fold(h + [t]) == StateAfter(t, Fold(h))
  {
    assert (h + [t])[..|h + [t]| - 1] == h;
  }

  lemma LawfulAppend(h: seq<Txn>, t: Txn)
    requires Lawful(h)
    requires t.committed ==> var d := Decide(Fold(h), t.command); d.Write? && d.records == t.records
    ensures Lawful(h + [t])
  {
    forall i | 0 <= i < |h + [t]| ensures Justified(h + [t], i) {
      if i < |h| {
        assert Justified(h, i);
        assert (h + [t])[..i] == h[..i];
      } else {
        assert (h + [t])[..i] == h;
      }
    }
  }

  lemma ReplayGrown<V>(log: seq<Slot<V>>, more: seq<Slot<V>>, at: nat, m: map<string, V>)
    requires at <= |log|
    ensures Replay((log + more)[at..], m) == Replay(more, Replay(log[at..], m))
  {
    assert (log + more)[at..] == log[at..] + more;
    ReplayAppend(log[at..], more, m);
  }

  lemma TopicsGrow(w: World, t: Txn)
    requires TopicsFold(w) && (t.committed ==> WellTyped(t.records))
    ensures Readable(w.claimsTopic + TxnSlots(t, MetaCatalog, ClaimChange))
    ensures Readable(w.refsTopic + TxnSlots(t, GitRefs, TargetChange))
    ensures Replay(w.claimsTopic + TxnSlots(t, MetaCatalog, ClaimChange), map[]) == Fold(w.history + [t]).catalog
    ensures Replay(w.refsTopic + TxnSlots(t, GitRefs, TargetChange), map[]) == Fold(w.history + [t]).refs
  {
    FoldAppend(w.history, t);
    TxnSlotsFold(t, Fold(w.history));
    ReplayAppend(w.claimsTopic, TxnSlots(t, MetaCatalog, ClaimChange), map[]);
    ReplayAppend(w.refsTopic, TxnSlots(t, GitRefs, TargetChange), map[]);
  }

  lemma ReadersGrow(w: World, t: Txn, p: nat)
    requires TopicsFold(w) && (t.committed ==> WellTyped(t.records)) && IsBooting(w, p) && BootingOk(w, p)
    ensures var b := w.procs[p];
      var (claims, refs) := (w.claimsTopic + TxnSlots(t, MetaCatalog, ClaimChange), w.refsTopic + TxnSlots(t, GitRefs, TargetChange));
      && (!b.claimsDone ==> Replay(claims[b.claimsAt..], b.catalog) == Fold(w.history + [t]).catalog)
      && Replay(refs[b.refsAt..], b.refs) == Fold(w.history + [t]).refs
  {
    FoldAppend(w.history, t);
    TxnSlotsFold(t, Fold(w.history));
    ReplayGrown(w.claimsTopic, TxnSlots(t, MetaCatalog, ClaimChange), w.procs[p].claimsAt, w.procs[p].catalog);
    ReplayGrown(w.refsTopic, TxnSlots(t, GitRefs, TargetChange), w.procs[p].refsAt, w.procs[p].refs);
  }

  /** What the open transaction will do, if it commits. */
  lemma OpenDecision(w: World)
    requires OpenIsJustified(w) && w.open.Some?
    ensures var o := w.open.value;
      WellTyped(o.records) && ApplyRecords(Fold(w.history), o.records) == Decide(Fold(w.history), o.command).next
  {
    RememberingIsFolding(Fold(w.history), w.open.value.command);
    DecisionsAreWellTyped(Fold(w.history), w.open.value.command);
  }

  /** The broker settles a transaction: the log and every reader's future move
      together, and the owner's next state becomes the fold. */
  lemma SettledKeeps(w: World, commit: bool)
    requires Inv(w) && w.open.Some?
    ensures Inv(Settled(w, commit))
  {
    var t := Txn(w.open.value.command, w.open.value.records, commit);
    OpenDecision(w);
    LawfulAppend(w.history, t);
    TopicsGrow(w, t);
    forall p | Alive(Settled(w, commit), p) ensures ProcOk(Settled(w, commit), p) {
      SettledProc(w, commit, p);
    }
    assert forall p :: Newest(Settled(w, commit), p) ==> Newest(w, p);
  }

  lemma SettledProc(w: World, commit: bool, p: nat)
    requires Inv(w) && w.open.Some? && Alive(Settled(w, commit), p)
    ensures ProcOk(Settled(w, commit), p)
  {
    var t := Txn(w.open.value.command, w.open.value.records, commit);
    assert Alive(w, p) && ProcOk(w, p);
    OpenDecision(w);
    if w.procs[p].Booting? {
      ReadersGrow(w, t, p);
    } else {
      FoldAppend(w.history, t);
    }
  }

  /** Only the process p differs, and the log and its open transaction do not. */
  ghost predicate OnlyProc(w: World, w': World, p: nat) {
    && w'.history == w.history && w'.open == w.open && w'.epoch == w.epoch
    && w'.claimsTopic == w.claimsTopic && w'.refsTopic == w.refsTopic
    && forall q :: q != p ==> (q in w'.procs <==> q in w.procs) && (q in w.procs ==> w'.procs[q] == w.procs[q])
  }

  lemma OneProcKeeps(w: World, w': World, p: nat)
    requires Inv(w) && OnlyProc(w, w', p)
    requires Alive(w', p) ==> ProcOk(w', p) && Alive(w, p) && w'.procs[p].epoch == w.procs[p].epoch
    ensures Inv(w')
  {
    forall q | Alive(w', q) ensures ProcOk(w', q) {
      if q != p {
        assert Alive(w, q) && ProcOk(w, q);
      }
    }
    assert forall q :: Newest(w', q) ==> Newest(w, q);
  }

  lemma BootKeeps(w: World, p: nat, settle: bool)
    requires Inv(w) && Enabled(w, Boot(p, settle))
    ensures Inv(Next(w, Boot(p, settle)))
  {
    var calm := if w.open.Some? then Settled(w, settle) else w;
    if w.open.Some? {
      SettledKeeps(w, settle);
    }
    var w' := Next(w, Boot(p, settle));
    assert w'.claimsTopic[0..] == w'.claimsTopic && w'.refsTopic[0..] == w'.refsTopic;
    forall q | Alive(w', q) ensures ProcOk(w', q) {
      if q != p {
        assert Alive(calm, q) && ProcOk(calm, q);
      }
    }
    forall q | Alive(w', q) && q != p ensures !Newest(w', q) {
      assert Alive(calm, q) && ProcOk(calm, q);
    }
  }

  lemma FetchedRest<V>(log: seq<Slot<V>>, at: nat, upTo: nat, m: map<string, V>)
    requires at <= upTo <= |log|
    ensures Replay(log[upTo..], Replay(log[at..upTo], m)) == Replay(log[at..], m)
  {
    ReplaySplit(log[at..], upTo - at, m);
    assert log[at..][..upTo - at] == log[at..upTo] && log[at..][upTo - at..] == log[upTo..];
  }

  lemma BootingStepKeeps(w: World, s: Step)
    requires Inv(w) && Enabled(w, s)
    requires s.FetchClaims? || s.ClaimsCaughtUp? || s.FetchRefs? || s.RefsCaughtUp?
    ensures Inv(Next(w, s))
  {
    var b := w.procs[s.p];
    assert Alive(w, s.p) && ProcOk(w, s.p);
    match s {
      case FetchClaims(p, upTo) =>
        FetchedRest(w.claimsTopic, b.claimsAt, upTo, b.catalog);
      case ClaimsCaughtUp(p) =>
        assert w.claimsTopic[b.claimsAt..] == [];
      case FetchRefs(p, upTo) =>
        FetchedRest(w.refsTopic, b.refsAt, upTo, b.refs);
      case RefsCaughtUp(p) =>
        assert w.refsTopic[b.refsAt..] == [];
    }
    OneProcKeeps(w, Next(w, s), s.p);
  }

  lemma BeginKeeps(w: World, p: nat, c: Command)
    requires Inv(w) && Enabled(w, Begin(p, c))
    ensures Inv(Next(w, Begin(p, c)))
  {
    var w' := Next(w, Begin(p, c));
    assert Alive(w, p) && ProcOk(w, p);
    if w.procs[p].epoch != w.epoch {
      OneProcKeeps(w, w', p);
    } else {
      assert Newest(w, p);
      forall q | Alive(w', q) ensures ProcOk(w', q) {
        assert Alive(w, q) && ProcOk(w, q);
        assert q != p ==> !Newest(w, q);
      }
      assert forall q :: Newest(w', q) ==> Newest(w, q);
    }
  }

  lemma HearKeeps(w: World, p: nat, reply: Heard)
    requires Inv(w) && Enabled(w, Hear(p, reply))
    ensures Inv(Next(w, Hear(p, reply)))
  {
    assert Alive(w, p) && ProcOk(w, p);
    OneProcKeeps(w, Next(w, Hear(p, reply)), p);
  }

  lemma CompactClaimsKeeps(w: World, i: nat)
    requires Inv(w) && Enabled(w, CompactClaims(i))
    ensures Inv(Next(w, CompactClaims(i)))
  {
    var w' := Next(w, CompactClaims(i));
    BlankKeepsReplay(w.claimsTopic, i, ClaimCursors(w), 0, map[]);
    assert w.claimsTopic[0..] == w.claimsTopic && w'.claimsTopic[0..] == w'.claimsTopic;
    forall p | Alive(w', p) ensures ProcOk(w', p) {
      assert Alive(w, p) && ProcOk(w, p);
      if w.procs[p].Booting? && !w.procs[p].claimsDone {
        BlankKeepsReplay(w.claimsTopic, i, ClaimCursors(w), w.procs[p].claimsAt, w.procs[p].catalog);
      }
    }
    assert forall q :: Newest(w', q) ==> Newest(w, q);
  }

  lemma CompactRefsKeeps(w: World, i: nat)
    requires Inv(w) && Enabled(w, CompactRefs(i))
    ensures Inv(Next(w, CompactRefs(i)))
  {
    var w' := Next(w, CompactRefs(i));
    BlankKeepsReplay(w.refsTopic, i, RefCursors(w), 0, map[]);
    assert w.refsTopic[0..] == w.refsTopic && w'.refsTopic[0..] == w'.refsTopic;
    forall p | Alive(w', p) ensures ProcOk(w', p) {
      assert Alive(w, p) && ProcOk(w, p);
      if w.procs[p].Booting? {
        BlankKeepsReplay(w.refsTopic, i, RefCursors(w), w.procs[p].refsAt, w.procs[p].refs);
      }
    }
    assert forall q :: Newest(w', q) ==> Newest(w, q);
  }

  lemma StepKeeps(w: World, s: Step)
    requires Inv(w) && Enabled(w, s)
    ensures Inv(Next(w, s))
  {
    match s
    case Boot(p, settle) => BootKeeps(w, p, settle);
    case Begin(p, c) => BeginKeeps(w, p, c);
    case Settle(commit) => SettledKeeps(w, commit);
    case Hear(p, reply) => HearKeeps(w, p, reply);
    case Crash(p) => OneProcKeeps(w, Next(w, s), p);
    case CompactClaims(i) => CompactClaimsKeeps(w, i);
    case CompactRefs(i) => CompactRefsKeeps(w, i);
    case FetchClaims(_, _) => BootingStepKeeps(w, s);
    case ClaimsCaughtUp(_) => BootingStepKeeps(w, s);
    case FetchRefs(_, _) => BootingStepKeeps(w, s);
    case RefsCaughtUp(_) => BootingStepKeeps(w, s);
  }

  lemma {:induction false} RunsKeep(ws: seq<World>, ss: seq<Step>, n: nat)
    requires IsRun(ws, ss) && n <= |ss|
    ensures Inv(ws[n])
  {
    if n > 0 {
      RunsKeep(ws, ss, n - 1);
      assert StepsAt(ws, ss, n - 1);
      StepKeeps(ws[n - 1], ss[n - 1]);
    }
  }

  /** The main theorem: at every moment of every run, the process with the newest
      epoch serves exactly the fold of the committed log whenever it is between
      commands, and while it waits for the broker the state it decided against was
      exactly that fold; and every committed transaction is what its command decides
      against the fold of everything committed before it. */
  lemma NewestServesTheFold(ws: seq<World>, ss: seq<Step>, n: nat, p: nat)
    requires IsRun(ws, ss) && n <= |ss|
    ensures Lawful(ws[n].history)
    ensures Replay(ws[n].claimsTopic, map[]) == Fold(ws[n].history).catalog
    ensures Replay(ws[n].refsTopic, map[]) == Fold(ws[n].history).refs
    ensures IsServing(ws[n], p) && ws[n].procs[p].epoch == ws[n].epoch ==>
              var v := ws[n].procs[p];
              if v.flight.None? || v.flight.value.outcome != Some(true)
              then v.state == Fold(ws[n].history)
              else v.flight.value.next == Fold(ws[n].history)
  {
    RunsKeep(ws, ss, n);
    if IsServing(ws[n], p) {
      assert Alive(ws[n], p) && ProcOk(ws[n], p);
    }
  }

  /** A commit is never taken from a process that has been superseded: whatever the
      broker may still commit was begun at the present epoch, by a process that is dead
      or the newest; and what the newest has in flight is what the broker holds. */
  lemma OnlyTheNewestWrites(ws: seq<World>, ss: seq<Step>, n: nat)
    requires IsRun(ws, ss) && n <= |ss|
    ensures forall p :: InFlight(ws[n], p) && ws[n].open.Some? && Newest(ws[n], p) ==>
              ws[n].open == Some(Open(p, ws[n].epoch, ws[n].procs[p].flight.value.command, ws[n].procs[p].flight.value.records))
    ensures ws[n].open.Some? ==>
              ws[n].open.value.epoch == ws[n].epoch && (Alive(ws[n], ws[n].open.value.owner) ==> Newest(ws[n], ws[n].open.value.owner))
    ensures forall p, q :: Newest(ws[n], p) && Newest(ws[n], q) ==> p == q
  {
    RunsKeep(ws, ss, n);
    forall p | InFlight(ws[n], p) && ws[n].open.Some? && Newest(ws[n], p)
      ensures ws[n].open == Some(Open(p, ws[n].epoch, ws[n].procs[p].flight.value.command, ws[n].procs[p].flight.value.records))
    {
      assert Alive(ws[n], p) && ProcOk(ws[n], p);
    }
  }
}
