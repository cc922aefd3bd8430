/** The single writer: one broker transaction per command, over many topics. */
module Writer {
  import opened Base
  import opened Events
  import opened Tailing

  type Topics = map<Topic, seq<Cell<Record>>>

  function Partition(topics: Topics, t: Topic): seq<Cell<Record>> {
    if t in topics then topics[t] else []
  }

  /** The records of a transaction that go to one topic. */
  function OfTopic(rs: seq<Record>, t: Topic): seq<Record> {
    if rs == [] then []
    else OfTopic(rs[..|rs| - 1], t) + (if rs[|rs| - 1].topic == t then [rs[|rs| - 1]] else [])
  }

  function Cells(rs: seq<Record>, committed: bool): seq<Cell<Record>> {
    seq(|rs|, i requires 0 <= i < |rs| => if committed then Stored(rs[i]) else Control)
  }

  const MARKER: seq<Cell<Record>> := [Control]

  lemma MarkerIsInvisible()
    ensures Visible(MARKER) == []
  {
    assert MARKER[..0] == [];
  }

  /** A partition after a transaction has ended: its records, visible or not, and the
      marker that ends it. */
  function Extended(log: seq<Cell<Record>>, mine: seq<Record>, committed: bool): seq<Cell<Record>> {
    if mine == [] then log else log + Cells(mine, committed) + MARKER
  }

  ghost predicate Ended(before: Topics, rs: seq<Record>, committed: bool, after: Topics) {
    forall t :: Partition(after, t) == Extended(Partition(before, t), OfTopic(rs, t), committed)
  }

  lemma {:induction false} VisibleCells(rs: seq<Record>, committed: bool)
    ensures Visible(Cells(rs, committed)) == if committed then rs else []
  {
    if rs != [] {
      VisibleCells(rs[..|rs| - 1], committed);
      assert Cells(rs, committed)[..|rs| - 1] == Cells(rs[..|rs| - 1], committed);
    }
  }

  /** Readers see a committed transaction whole and an aborted one not at all. */
  lemma AllOrNothing(before: Topics, rs: seq<Record>, committed: bool, after: Topics, t: Topic)
    requires Ended(before, rs, committed, after)
    ensures Visible(Partition(after, t)) == Visible(Partition(before, t)) + if committed then OfTopic(rs, t) else []
  {
    var (log, mine) := (Partition(before, t), OfTopic(rs, t));
    VisibleAppend(log, Cells(mine, committed));
    VisibleAppend(log + Cells(mine, committed), MARKER);
    VisibleCells(mine, committed);
    MarkerIsInvisible();
  }

  datatype ProducerError = FencedProducer | TransactionAborted | RecoveryRequired | Closed | OtherError

  datatype WriteError = Fenced | Producer(error: ProducerError)

  /** How the network and the broker behave during one call. */
  datatype Net = Net(begin: Option<ProducerError>, acks: seq<Option<ProducerError>>, end: Option<ProducerError>)

  function AckOf(net: Net, i: nat): Option<ProducerError> {
    if i < |net.acks| then net.acks[i] else None
  }

  datatype Committed = Committed(offsets: seq<(Topic, nat)>)

  function OffsetFor(offsets: seq<(Topic, nat)>, t: Topic): Option<nat> {
    if offsets == [] then None
    else if offsets[0].0 == t then Some(offsets[0].1)
    else OffsetFor(offsets[1..], t)
  }

  /** The broker's end of a transactional producer. */
  class Broker {
    var topics: Topics
    var epoch: nat
    var open: bool
    var staged: seq<Record>

    constructor ()
      ensures topics == map[] && epoch == 0 && !open && staged == []
    {
      topics, epoch, open, staged := map[], 0, false, [];
    }

    /** A new producer takes the next epoch, once whatever was left open has been
        settled one way or the other. */
    method InitProducer(commit: bool) returns (taken: nat)
      modifies this
      ensures taken == epoch == old(epoch) + 1 && !open && staged == []
      ensures if old(open) then Ended(old(topics), old(staged), commit, topics) else topics == old(topics)
    {
      if open {
        EndTransaction(commit);
      }
      epoch, staged := epoch + 1, [];
      taken := epoch;
    }

    /** Only the newest producer may begin. */
    method BeginTransaction(producer: nat, failure: Option<ProducerError>) returns (e: Option<ProducerError>)
      modifies this
      ensures e == (if producer < epoch then Some(FencedProducer) else failure) && topics == old(topics) && epoch == old(epoch)
      ensures e.None? ==> open && staged == []
      ensures e.Some? ==> open == old(open) && staged == old(staged)
    {
      e := if producer < epoch then Some(FencedProducer) else failure;
      if e.None? {
        open, staged := true, [];
      }
    }

    /** Each record gets the next offset of its topic. */
    method Send(r: Record) returns (offset: nat)
      requires open
      modifies this`staged
      ensures staged == old(staged) + [r]
      ensures offset == |Partition(topics, r.topic)| + |OfTopic(old(staged), r.topic)|
    {
      offset := |Partition(topics, r.topic)| + |OfTopic(staged, r.topic)|;
      staged := staged + [r];
    }

    method EndTransaction(commit: bool)
      requires open
      modifies this
      ensures !open && staged == [] && epoch == old(epoch) && Ended(old(topics), old(staged), commit, topics)
    {
      var touched := set r | r in staged :: r.topic;
      topics := map t | t in topics.Keys + touched :: Extended(Partition(topics, t), OfTopic(staged, t), commit);
      forall t | t !in old(topics) && t !in touched
        ensures OfTopic(old(staged), t) == []
      {
        NoneOfTopic(staged, t);
      }
      open, staged := false, [];
    }
  }

  lemma {:induction false} NoneOfTopic(rs: seq<Record>, t: Topic)
    requires forall r :: r in rs ==> r.topic != t
    ensures OfTopic(rs, t) == []
  {
    if rs != [] {
      NoneOfTopic(rs[..|rs| - 1], t);
    }
  }

  /** The offset of the last record of the topic, were these the first i records. */
  function Highest(before: Topics, rs: seq<Record>, t: Topic): Option<nat> {
    var n := |OfTopic(rs, t)|;
    if n == 0 then None else Some(|Partition(before, t)| + n - 1)
  }

  ghost predicate HighestOf(offsets: seq<(Topic, nat)>, before: Topics, rs: seq<Record>) {
    forall t :: OffsetFor(offsets, t) == Highest(before, rs, t)
  }

  method Note(offsets: seq<(Topic, nat)>, t: Topic, offset: nat) returns (noted: seq<(Topic, nat)>)
    ensures OffsetFor(noted, t) == Some(if OffsetFor(offsets, t).Some? then Max(OffsetFor(offsets, t).value, offset) else offset)
    ensures forall u :: u != t ==> OffsetFor(noted, u) == OffsetFor(offsets, u)
  {
    var i := 0;
    while i < |offsets| && offsets[i].0 != t
      invariant i <= |offsets|
      invariant forall k :: 0 <= k < i ==> offsets[k].0 != t
    {
      i := i + 1;
    }
    if i < |offsets| {
      noted := offsets[i := (t, Max(offsets[i].1, offset))];
      NotedAt(offsets, i, Max(offsets[i].1, offset));
    } else {
      noted := offsets + [(t, offset)];
      NotedLast(offsets, t, offset);
    }
  }

  lemma {:induction false} NotedAt(offsets: seq<(Topic, nat)>, i: nat, v: nat)
    requires i < |offsets| && forall k :: 0 <= k < i ==> offsets[k].0 != offsets[i].0
    ensures OffsetFor(offsets, offsets[i].0) == Some(offsets[i].1)
    ensures OffsetFor(offsets[i := (offsets[i].0, v)], offsets[i].0) == Some(v)
    ensures forall u :: u != offsets[i].0 ==> OffsetFor(offsets[i := (offsets[i].0, v)], u) == OffsetFor(offsets, u)
  {
    if i > 0 {
      NotedAt(offsets[1..], i - 1, v);
      assert offsets[i := (offsets[i].0, v)][1..] == offsets[1..][i - 1 := (offsets[i].0, v)];
    } else {
      assert offsets[0 := (offsets[0].0, v)][1..] == offsets[1..];
    }
  }

  lemma {:induction false} NotedLast(offsets: seq<(Topic, nat)>, t: Topic, v: nat)
    requires forall k :: 0 <= k < |offsets| ==> offsets[k].0 != t
    ensures OffsetFor(offsets, t) == None && OffsetFor(offsets + [(t, v)], t) == Some(v)
    ensures forall u :: u != t ==> OffsetFor(offsets + [(t, v)], u) == OffsetFor(offsets, u)
  {
    if offsets != [] {
      NotedLast(offsets[1..], t, v);
      assert (offsets + [(t, v)])[1..] == offsets[1..] + [(t, v)];
    }
  }

  /** Where the k-th record of a transaction lands in its topic. */
  function Landing(before: Topics, rs: seq<Record>, k: nat): nat
    requires k < |rs|
  {
    |Partition(before, rs[k].topic)| + |OfTopic(rs[..k], rs[k].topic)|
  }

  lemma NextLanding(before: Topics, rs: seq<Record>, k: nat)
    requires k < |rs|
    ensures forall t :: Highest(before, rs[..k + 1], t) == if t == rs[k].topic then Some(Landing(before, rs, k)) else Highest(before, rs[..k], t)
    ensures var h := Highest(before, rs[..k], rs[k].topic); h.Some? ==> h.value < Landing(before, rs, k)
  {
    assert rs[..k + 1][..k] == rs[..k];
    var n := |OfTopic(rs[..k], rs[k].topic)|;
    if n > 0 {
      assert Highest(before, rs[..k], rs[k].topic) == Some(|Partition(before, rs[k].topic)| + n - 1);
    }
  }

  /** Collect the acknowledgements, keeping the highest offset of each topic. */
  method Collect(ghost before: Topics, rs: seq<Record>, acks: seq<nat>, net: Net)
    returns (offsets: seq<(Topic, nat)>, refused: Option<ProducerError>)
    requires |acks| == |rs| && forall k :: 0 <= k < |rs| ==> acks[k] == Landing(before, rs, k)
    ensures refused.None? ==> HighestOf(offsets, before, rs)
    ensures refused.None? <==> AllAcked(net, |rs|)
    ensures refused.Some? ==> RefusedFirst(net, |rs|, refused.value)
  {
    offsets := [];
    for i := 0 to |rs|
      invariant HighestOf(offsets, before, rs[..i])
      invariant forall k :: 0 <= k < i ==> AckOf(net, k).None?
    {
      if AckOf(net, i).Some? {
        return offsets, AckOf(net, i);
      }
      NextLanding(before, rs, i);
      offsets := Note(offsets, rs[i].topic, acks[i]);
    }
    ghost var all := rs[..|rs|];
    assert HighestOf(offsets, before, all) && all == rs;
    refused := None;
  }

  predicate AllAcked(net: Net, n: nat) {
    forall i :: 0 <= i < n ==> AckOf(net, i).None?
  }

  /** The error of the first of n records to be refused. */
  predicate RefusedFirst(net: Net, n: nat, e: ProducerError) {
    exists i :: 0 <= i < n && AckOf(net, i) == Some(e) && AllAcked(net, i)
  }

  /** A network on which nothing goes wrong. */
  predicate Calm(net: Net) {
    net.begin.None? && net.end.None? && forall i :: 0 <= i < |net.acks| ==> net.acks[i].None?
  }

  /** How the caller learns of an error: having been superseded is its own answer. */
  predicate Reported(e: ProducerError, r: Result<Committed, WriteError>) {
    r == Err(if e == FencedProducer || e == TransactionAborted then Fenced else Producer(e))
  }

  /** How a transaction of the newest writer goes, step by step: it commits exactly if
      nothing is refused from beginning to end; otherwise the first refusal is what the
      caller is told, and nothing is visible. Only an unknown outcome leaves it open. */
  ghost predicate Went(net: Net, rs: seq<Record>, before: Topics, after: Topics, inDoubt: bool, r: Result<Committed, WriteError>) {
    && (r.Ok? <==> net.begin.None? && AllAcked(net, |rs|) && net.end.None?)
    && (r.Ok? ==> Ended(before, rs, true, after) && !inDoubt)
    && (net.begin.Some? ==> Reported(net.begin.value, r) && after == before)
    && (net.begin.None? && !AllAcked(net, |rs|) ==>
          Ended(before, rs, false, after) && exists e :: RefusedFirst(net, |rs|, e) && Reported(e, r))
    && (net.begin.None? && AllAcked(net, |rs|) && net.end.Some? ==>
          Reported(net.end.value, r) && if net.end.value == RecoveryRequired then inDoubt && after == before else Ended(before, rs, false, after))
  }

  /** What a call to Transact may leave behind, and what it then says. */
  ghost predicate Transacted(before: Topics, wasFenced: bool, rs: seq<Record>, after: Topics, fenced: bool, dead: bool,
                             inDoubt: bool, r: Result<Committed, WriteError>)
  {
    if wasFenced then
      r == Err(Fenced) && after == before && fenced && !dead && !inDoubt
    else if rs == [] then
      r == Ok(Committed([])) && after == before && !fenced && !dead && !inDoubt
    else
      match r
      case Ok(c) => Ended(before, rs, true, after) && HighestOf(c.offsets, before, rs) && !fenced && !dead && !inDoubt
      case Err(Fenced) => (after == before || Ended(before, rs, false, after)) && fenced && !dead && !inDoubt
      case Err(Producer(e)) =>
        && !fenced && (dead <==> e == RecoveryRequired) && (inDoubt ==> dead)
        && (after == before || Ended(before, rs, false, after))
  }

  /** A transactional producer that latches once it learns it has been superseded. */
  class FencedWriter {
    const broker: Broker
    const epoch: nat
    var fenced: bool
    var dead: bool      // the process ended itself over an unknown outcome

    /** Connecting fences every writer before this one. */
    constructor (broker: Broker, settle: bool)
      modifies broker
      ensures this.broker == broker && !fenced && !dead
      ensures epoch == broker.epoch == old(broker.epoch) + 1 && !broker.open
      ensures if old(broker.open) then Ended(old(broker.topics), old(broker.staged), settle, broker.topics) else broker.topics == old(broker.topics)
    {
      this.broker := broker;
      fenced, dead := false, false;
      var taken := broker.InitProducer(settle);
      epoch := taken;
    }

    method Classify(e: ProducerError) returns (w: WriteError)
      modifies this
      ensures fenced == (old(fenced) || e == FencedProducer || e == TransactionAborted)
      ensures dead == (old(dead) || e == RecoveryRequired)
      ensures w == if e == FencedProducer || e == TransactionAborted then Fenced else Producer(e)
    {
      match e {
        case FencedProducer => fenced := true; w := Fenced;
        case TransactionAborted => fenced := true; w := Fenced;
        case RecoveryRequired => dead := true; w := Producer(e);
        case _ => w := Producer(e);
      }
    }

    /** Fan the sends out; each answer is the offset its record landed at. */
    method SendAll(rs: seq<Record>) returns (acks: seq<nat>)
      requires broker.open && broker.staged == []
      modifies broker`staged
      ensures broker.staged == rs && |acks| == |rs|
      ensures forall k :: 0 <= k < |rs| ==> acks[k] == Landing(broker.topics, rs, k)
    {
      acks := [];
      for i := 0 to |rs|
        invariant broker.open && broker.staged == rs[..i] && |acks| == i
        invariant forall k :: 0 <= k < i ==> acks[k] == Landing(broker.topics, rs, k)
      {
        var offset := broker.Send(rs[i]);
        acks := acks + [offset];
        assert rs[..i + 1] == rs[..i] + [rs[i]];
      }
      assert rs[..|rs|] == rs;
    }

    /** Append records atomically. An error before the end aborts; an error at the end
        means the broker did not commit, unless the answer was lost, when the
        transaction stays in doubt and the process ends. */
    method Transact(rs: seq<Record>, net: Net) returns (r: Result<Committed, WriteError>)
      requires !broker.open && !dead
      modifies this, broker
      ensures Transacted(old(broker.topics), old(fenced), rs, broker.topics, fenced, dead, broker.open, r)
      ensures broker.open ==> broker.staged == rs
      ensures epoch < broker.epoch && rs != [] ==> r == Err(Fenced) && broker.topics == old(broker.topics)
      ensures broker.epoch == old(broker.epoch)
      ensures !old(fenced) && broker.epoch <= epoch && rs != [] ==> Went(net, rs, old(broker.topics), broker.topics, broker.open, r)
    {
      if fenced {
        return Err(Fenced);
      }
      if rs == [] {
        return Ok(Committed([]));
      }
      var failed := broker.BeginTransaction(epoch, net.begin);
      if failed.Some? {
        var w := Classify(failed.value);
        return Err(w);
      }

      var acks := SendAll(rs);
      var offsets, refused := Collect(broker.topics, rs, acks, net);
      if refused.Some? {
        broker.EndTransaction(false);
        var w := Classify(refused.value);
        return Err(w);
      }

      match net.end {
        case Some(RecoveryRequired) =>
          var w := Classify(RecoveryRequired);
          return Err(w);
        case Some(e) =>
          broker.EndTransaction(false);
          var w := Classify(e);
          return Err(w);
        case None =>
          broker.EndTransaction(true);
          return Ok(Committed(offsets));
      }
    }
  }

  lemma LastLands(log: seq<Cell<Record>>, mine: seq<Record>)
    requires mine != []
    ensures var (whole, o) := (Extended(log, mine, true), |log| + |mine| - 1);
      o < |whole| && whole[o] == Stored(mine[|mine| - 1]) && Visible(whole[o + 1..]) == []
  {
    var cells := Cells(mine, true);
    assert (log + cells + MARKER)[|log| + |cells|..] == MARKER;
    assert (log + cells + MARKER)[|log| + |cells| - 1] == cells[|cells| - 1];
    MarkerIsInvisible();
  }

  /** The offset a caller is told to wait for is where the last record of its
      transaction landed on that topic. */
  lemma OffsetIsTheLastRecord(before: Topics, rs: seq<Record>, after: Topics, c: Committed, t: Topic)
    requires Ended(before, rs, true, after) && HighestOf(c.offsets, before, rs) && OfTopic(rs, t) != []
    ensures var o := OffsetFor(c.offsets, t);
      && o.Some? && o.value < |Partition(after, t)|
      && Partition(after, t)[o.value] == Stored(OfTopic(rs, t)[|OfTopic(rs, t)| - 1])
      && Visible(Partition(after, t)[o.value + 1..]) == []
  {
    LastLands(Partition(before, t), OfTopic(rs, t));
    assert Partition(after, t) == Extended(Partition(before, t), OfTopic(rs, t), true);
    assert OffsetFor(c.offsets, t) == Highest(before, rs, t);
  }
}
