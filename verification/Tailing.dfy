/** Reading one partition from the beginning, without a consumer group. */
module Tailing {
  import opened Base

  /** One offset of a partition: a committed record, or something readers never see
      (a control batch, or a record of an aborted transaction). */
  datatype Cell<+R> = Control | Stored(record: R)

  function Visible<R>(log: seq<Cell<R>>): seq<R> {
    if log == [] then []
    else Visible(log[..|log| - 1]) + (match log[|log| - 1] case Stored(r) => [r] case Control => [])
  }

  lemma {:induction false} VisibleAppend<R>(a: seq<Cell<R>>, b: seq<Cell<R>>)
    ensures Visible(a + b) == Visible(a) + Visible(b)
  {
    if b == [] {
      assert a + b == a;
    } else {
      assert (a + b)[..|a + b| - 1] == a + b[..|b| - 1];
      VisibleAppend(a, b[..|b| - 1]);
    }
  }

  lemma VisibleSplit<R>(log: seq<Cell<R>>, i: nat, j: nat, k: nat)
    requires i <= j <= k <= |log|
    ensures Visible(log[i..k]) == Visible(log[i..j]) + Visible(log[j..k])
  {
    assert log[i..k] == log[i..j] + log[j..k];
    VisibleAppend(log[i..j], log[j..k]);
  }

  /** What the broker answers to a read-committed fetch: the visible records of a
      stretch of the log and where the stretch ends. A fetch that has something to
      step over always makes progress, even when no record of it is visible. */
  method Fetch<R>(log: seq<Cell<R>>, from: nat, extra: nat) returns (records: seq<R>, next: Option<nat>)
    ensures next.Some? <==> from < |log|
    ensures next.Some? ==> from < next.value <= |log| && records == Visible(log[from..next.value])
    ensures next.None? ==> records == []
  {
    records, next := [], None;
    if from < |log| {
      var stop := Min(|log|, from + 1 + extra);
      var i := from;
      while i < stop
        invariant from <= i <= stop
        invariant records == Visible(log[from..i])
      {
        assert log[from..i + 1][..i - from] == log[from..i];
        match log[i] {
          case Stored(r) => records := records + [r];
          case Control =>
        }
        i := i + 1;
      }
      next := Some(stop);
    }
  }

  datatype Batch<+R> = Batch(records: seq<R>, nextOffset: nat, caughtUp: bool)

  /** Call the consumer for each record of a batch. */
  method HandOver<R>(handed: seq<R>, count: nat, records: seq<R>) returns (all: seq<R>, total: nat)
    ensures all == handed + records && total == count + |records|
  {
    all, total := handed, count;
    for i := 0 to |records|
      invariant all == handed + records[..i] && total == count + i
    {
      all, total := all + [records[i]], total + 1;
    }
    assert records[..|records|] == records;
  }

  class Tailer<R> {
    var offset: nat
    var applied: int      // published: everything up to here has been handed out

    constructor (from: nat)
      ensures offset == from && applied == from - 1
    {
      offset, applied := from, from - 1;
    }

    method MarkApplied(to: int)
      modifies this`applied
      ensures applied == Max(old(applied), to)
    {
      if to > applied {
        applied := to;
      }
    }

    /** Fetch once. The cursor comes from the broker, not from the last record, so it
        steps over what is invisible. */
    method NextBatch(log: seq<Cell<R>>, extra: nat) returns (batch: Batch<R>)
      modifies this`offset
      ensures offset == batch.nextOffset
      ensures old(offset) < |log| ==> old(offset) < offset <= |log| && batch.records == Visible(log[old(offset)..offset]) && !batch.caughtUp
      ensures old(offset) >= |log| ==> offset == old(offset) && batch.records == [] && batch.caughtUp
    {
      var previous := offset;
      var records, next := Fetch(log, offset, extra);
      if next.Some? {
        offset := Max(next.value, offset);
      }
      batch := Batch(records, offset, records == [] && offset == previous);
    }

    /** Read to the end of the log, handing over every visible record once and in
        order, however the broker cuts the log into fetches. */
    method ReplayToEnd(log: seq<Cell<R>>, pace: nat -> nat) returns (handed: seq<R>, count: nat)
      requires offset <= |log| && applied == offset - 1
      modifies this
      ensures handed == Visible(log[old(offset)..]) && count == |handed|
      ensures offset == |log|
      ensures old(applied) <= applied < |log| && Visible(log[applied + 1..]) == []
    {
      handed, count := [], 0;
      ghost var start := offset;
      var caughtUp := false;
      while !caughtUp
        invariant start <= offset <= |log| && (caughtUp ==> offset == |log|)
        invariant handed == Visible(log[start..offset]) && count == |handed|
        invariant start - 1 <= applied <= offset - 1
        invariant Visible(log[applied + 1..offset]) == []
        decreases |log| - offset, !caughtUp
      {
        ghost var before := offset;
        var batch := NextBatch(log, pace(offset));
        VisibleSplit(log, start, before, offset);
        if batch.records == [] {
          caughtUp := batch.caughtUp;
          VisibleSplit(log, applied + 1, before, offset);
        } else {
          handed, count := HandOver(handed, count, batch.records);
          MarkApplied(batch.nextOffset - 1);
        }
      }
      assert log[start..] == log[start..offset] && log[applied + 1..] == log[applied + 1..offset];
    }
  }
}
