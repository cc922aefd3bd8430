/** When the merge button is offered, said of the history of events and not of the
    row: which trial merge stands, and on which commits. */
module MergeButton {
  import opened Base
  import opened Events
  import opened Rows
  import opened Replay

  type PrHistory = seq<Stamped<PrEvent>>

  function Row(h: PrHistory, pr: Id): Option<PullRow> {
    Get(FoldPulls(map[], h), pr)
  }

  lemma RowNext(h: PrHistory, pr: Id)
    requires h != []
    ensures Row(h, pr) == if h[|h| - 1].event.prId == pr then PullStep(Row(h[..|h| - 1], pr), h[|h| - 1]) else Row(h[..|h| - 1], pr)
  {}

  /** Where a request stands: the commits it is between, once it is opened, and
      whether it is merged. */
  datatype Standing = Standing(points: Option<(Oid, Oid)>, merged: bool)

  const NOWHERE := Standing(None, false)

  /** It stands between the commits it was opened with or last synchronized to, and is
      merged by a merge since it was opened. Nothing before it is opened counts. */
  function Moved(s: Standing, e: PrEvent, pr: Id): Standing {
    if e.prId != pr then s
    else if e.PrOpened? then Standing(Some((e.headOid, e.baseOid)), false)
    else if s.points.None? then s
    else if e.Synchronized? then s.(points := Some((e.headOid, e.baseOid)))
    else if e.Merged? then s.(merged := true)
    else s
  }

  function StandingAfter(s: Standing, h: PrHistory, pr: Id): Standing {
    if h == [] then s else Moved(StandingAfter(s, h[..|h| - 1], pr), h[|h| - 1].event, pr)
  }

  function Points(h: PrHistory, pr: Id): Option<(Oid, Oid)> { StandingAfter(NOWHERE, h, pr).points }

  function MergedNow(h: PrHistory, pr: Id): bool { StandingAfter(NOWHERE, h, pr).merged }

  /** The last word between opening, closing and reopening. */
  function LeftOpen(h: PrHistory, pr: Id): bool {
    if h == [] then false
    else
      var e := h[|h| - 1].event;
      if e.prId == pr && (e.PrOpened? || e.PrReopened?) then true
      else if e.prId == pr && e.PrClosed? then false
      else LeftOpen(h[..|h| - 1], pr)
  }

  /** A trial merge of the commits the request stands between when it arrives. */
  predicate Accepts(s: Standing, e: PrEvent, pr: Id) {
    e.prId == pr && e.MergeabilityComputed? && s.points == Some((e.headOid, e.baseOid))
  }

  /** A reopening that drops the answer of a trial merge. */
  predicate Drops(s: Standing, e: PrEvent, pr: Id) {
    e.prId == pr && e.PrReopened? && s.points.Some? && !s.merged
  }

  predicate Accepted(h: PrHistory, k: nat, pr: Id)
    requires k < |h|
  {
    Accepts(StandingAfter(NOWHERE, h[..k], pr), h[k].event, pr)
  }

  /** The k-th event leaves no earlier trial merge standing. */
  predicate Supersedes(h: PrHistory, k: nat, pr: Id)
    requires k < |h|
  {
    Accepted(h, k, pr) || (h[k].event.prId == pr && h[k].event.PrOpened?) || Drops(StandingAfter(NOWHERE, h[..k], pr), h[k].event, pr)
  }

  ghost predicate Stands(h: PrHistory, k: nat, pr: Id)
    requires k < |h|
  {
    Accepted(h, k, pr) && forall j :: k < j < |h| ==> !Supersedes(h, j, pr)
  }

  function LastWord(h: PrHistory, pr: Id): Option<nat> {
    if h == [] then None
    else if Accepted(h, |h| - 1, pr) then Some(|h| - 1)
    else if Supersedes(h, |h| - 1, pr) then None
    else LastWord(h[..|h| - 1], pr)
  }

  lemma PrefixAgrees(h: PrHistory, k: nat, pr: Id)
    requires h != [] && k < |h| - 1
    ensures Accepted(h, k, pr) == Accepted(h[..|h| - 1], k, pr) && Supersedes(h, k, pr) == Supersedes(h[..|h| - 1], k, pr)
  {
    assert h[..|h| - 1][..k] == h[..k];
  }

  lemma {:induction false} LastWordStands(h: PrHistory, pr: Id)
    ensures LastWord(h, pr).Some? ==> LastWord(h, pr).value < |h| && Stands(h, LastWord(h, pr).value, pr)
    ensures forall k :: 0 <= k < |h| && Stands(h, k, pr) ==> LastWord(h, pr) == Some(k)
  {
    if h != [] {
      var init := h[..|h| - 1];
      LastWordStands(init, pr);
      if LastWord(h, pr).Some? && LastWord(h, pr).value < |init| {
        StandsNext(h, LastWord(h, pr).value, pr);
      }
      forall k | 0 <= k < |h| && Stands(h, k, pr) ensures LastWord(h, pr) == Some(k) {
        if k < |init| { StandsNext(h, k, pr); }
      }
    }
  }

  lemma StandsNext(h: PrHistory, k: nat, pr: Id)
    requires h != [] && k < |h| - 1
    ensures Stands(h, k, pr) <==> Stands(h[..|h| - 1], k, pr) && !Supersedes(h, |h| - 1, pr)
  {
    var init := h[..|h| - 1];
    PrefixAgrees(h, k, pr);
    if Stands(h, k, pr) {
      forall j | k < j < |init| ensures !Supersedes(init, j, pr) {
        PrefixAgrees(h, j, pr);
        assert !Supersedes(h, j, pr);
      }
    }
    if Stands(init, k, pr) && !Supersedes(h, |h| - 1, pr) {
      forall j | k < j < |h| ensures !Supersedes(h, j, pr) {
        if j < |init| {
          PrefixAgrees(h, j, pr);
          assert !Supersedes(init, j, pr);
        }
      }
    }
  }

  /** The check a trial merge leaves in the row. */
  function CheckOf(e: PrEvent): MergeCheck
    requires e.MergeabilityComputed?
  {
    MergeCheck(e.mergeable, e.headOid, e.baseOid, if e.mergeable then [] else e.conflicts)
  }

  /** What the row of a request says about its history. */
  ghost predicate RowSays(h: PrHistory, pr: Id) {
    match Row(h, pr)
    case None => Points(h, pr).None? && !MergedNow(h, pr)
    case Some(r) =>
      && Points(h, pr) == Some((r.headOid, r.baseOid))
      && (r.state == PullMerged <==> MergedNow(h, pr))
      && (!MergedNow(h, pr) ==> (r.state == PullOpen <==> LeftOpen(h, pr)))
  }

  ghost predicate CheckSays(h: PrHistory, pr: Id) {
    var r := Row(h, pr);
    match LastWord(h, pr)
    case None => r.Some? ==> r.value.check.None?
    case Some(k) => k < |h| && h[k].event.MergeabilityComputed? && r.Some? && r.value.check == Some(CheckOf(h[k].event))
  }

  lemma {:induction false} RowsSpeakForHistories(h: PrHistory, pr: Id)
    ensures RowSays(h, pr)
  {
    if h != [] {
      RowsSpeakForHistories(h[..|h| - 1], pr);
      RowNext(h, pr);
    }
  }

  lemma {:induction false} ChecksSpeakForHistories(h: PrHistory, pr: Id)
    ensures CheckSays(h, pr)
  {
    if h != [] {
      var init := h[..|h| - 1];
      ChecksSpeakForHistories(init, pr);
      RowsSpeakForHistories(init, pr);
      RowNext(h, pr);
      LastWordStands(init, pr);
    }
  }

  /** The merge button is offered exactly when the request is open, not merged, and a
      clean trial merge stands for the very commits it is between: accepted for them,
      with no later answer and no opening or reopening since. */
  lemma CanMergeMeans(h: PrHistory, pr: Id)
    ensures (Row(h, pr).Some? && CanMerge(Row(h, pr).value)) <==>
              && !MergedNow(h, pr) && LeftOpen(h, pr)
              && exists k :: 0 <= k < |h| && Stands(h, k, pr) && h[k].event.mergeable
                             && Points(h, pr) == Some((h[k].event.headOid, h[k].event.baseOid))
  {
    RowsSpeakForHistories(h, pr);
    ChecksSpeakForHistories(h, pr);
    LastWordStands(h, pr);
    if Row(h, pr).Some? && CanMerge(Row(h, pr).value) {
      var k := LastWord(h, pr).value;
      assert Stands(h, k, pr) && h[k].event.mergeable;
    }
  }

  /** Conflicting paths are shown only while they describe the present commits. */
  lemma ConflictsMean(h: PrHistory, pr: Id)
    requires Row(h, pr).Some? && Conflicts(Row(h, pr).value) != []
    ensures exists k :: 0 <= k < |h| && Stands(h, k, pr) && !h[k].event.mergeable
              && h[k].event.conflicts == Conflicts(Row(h, pr).value)
              && Points(h, pr) == Some((h[k].event.headOid, h[k].event.baseOid))
  {
    RowsSpeakForHistories(h, pr);
    ChecksSpeakForHistories(h, pr);
    LastWordStands(h, pr);
    var k := LastWord(h, pr).value;
    assert Stands(h, k, pr);
  }

  /** Once merged, a request stays merged under everything but a fresh opening. */
  lemma {:induction false} MergedIsAbsorbing(h: PrHistory, g: PrHistory, pr: Id)
    requires Row(h, pr).Some? && Row(h, pr).value.state == PullMerged
    requires forall i :: 0 <= i < |g| && g[i].event.prId == pr ==> !g[i].event.PrOpened?
    ensures Row(h + g, pr).Some? && Row(h + g, pr).value.state == PullMerged && !CanMerge(Row(h + g, pr).value)
  {
    if g == [] {
      assert h + g == h;
    } else {
      MergedIsAbsorbing(h, g[..|g| - 1], pr);
      assert (h + g)[..|h + g| - 1] == h + g[..|g| - 1];
      RowNext(h + g, pr);
    }
  }
}
