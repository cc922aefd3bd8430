/** Objects before references, through two writers that know nothing of each other. */
module Push {
  import opened Base
  import opened Events
  import opened Commands
  import opened Codec
  import opened Cache
  import opened Tailing
  import Hydrate

  // ---- Storing objects ----

  const BATCH := 64

  datatype StoreError = CorruptObject(error: FrameError) | WriteFailed

  /** What is offered can be told apart by its id once it hashes to it, and its chunks
      can be counted. */
  ghost predicate Collisionless(hash: Hydrate.Hash, os: set<GitObject>) {
    && (forall a, b :: a in os && b in os && hash(a.kind, a.content) == hash(b.kind, b.content) ==> a.kind == b.kind && a.content == b.content)
    && (forall o :: o in os ==> Countable(o.content))
  }

  function Members(os: seq<GitObject>): set<GitObject> {
    set o | o in os
  }

  predicate Genuine(hash: Hydrate.Hash, os: seq<GitObject>) {
    forall i :: 0 <= i < |os| ==> hash(os[i].kind, os[i].content) == os[i].oid
  }

  /** The first object that does not hash to its id. */
  predicate FirstCorrupt(hash: Hydrate.Hash, os: seq<GitObject>, i: nat) {
    i < |os| && Genuine(hash, os[..i]) && hash(os[i].kind, os[i].content) != os[i].oid
  }

  /** The error names that object and what it hashes to. */
  ghost predicate NamesCorrupt(hash: Hydrate.Hash, os: seq<GitObject>, e: StoreError) {
    exists i: nat :: FirstCorrupt(hash, os, i) && e == CorruptObject(CorruptContent(os[i].oid, hash(os[i].kind, os[i].content)))
  }

  /** The records of some objects, one object after another. */
  ghost predicate Encodes(rs: seq<ObjectRecord>, os: seq<GitObject>) {
    && (forall k :: 0 <= k < |rs| ==> OfStored(Read(rs[k]), Members(os)))
    && (forall k :: 0 <= k < |os| ==> Owed(rs, os[k]))
  }

  method EncodeGroup(hash: Hydrate.Hash, group: seq<GitObject>) returns (r: Result<seq<ObjectRecord>, StoreError>)
    requires forall k :: 0 <= k < |group| ==> Countable(group[k].content)
    ensures r.Ok? <==> Genuine(hash, group)
    ensures r.Err? ==> NamesCorrupt(hash, group, r.error)
    ensures r.Ok? ==> Encodes(r.value, group)
  {
    var records: seq<ObjectRecord> := [];
    for i := 0 to |group|
      invariant Genuine(hash, group[..i]) && Encodes(records, group[..i])
    {
      var o := group[i];
      var found := hash(o.kind, o.content);
      if found != o.oid {
        assert FirstCorrupt(hash, group, i);
        return Err(CorruptObject(CorruptContent(o.oid, found)));
      }
      var encoded := EncodeObject(o);
      EncodedIs(o, encoded);
      EncodesAppend(records, group[..i], encoded, o);
      assert group[..i + 1] == group[..i] + [o];
      records := records + encoded;
    }
    assert group[..|group|] == group;
    r := Ok(records);
  }

  lemma EncodedIs(o: GitObject, rs: seq<ObjectRecord>)
    requires Countable(o.content) && |rs| == RecordsIn(o) && AreFirst(rs, o)
    ensures Encodes(rs, [o])
  {
    forall k | 0 <= k < |rs| ensures OfStored(Read(rs[k]), Members([o])) {
      RecordsRead(o, k);
      assert IsOf(Read(rs[k]), o) && o in Members([o]);
    }
    forall i | 0 <= i < RecordsIn(o) ensures Says(rs, NthMeaning(o, i)) {
      RecordsRead(o, i);
      assert Read(rs[i]) == NthMeaning(o, i);
    }
  }

  lemma EncodesAppend(rs: seq<ObjectRecord>, os: seq<GitObject>, more: seq<ObjectRecord>, o: GitObject)
    requires Encodes(rs, os) && Encodes(more, [o])
    ensures Encodes(rs + more, os + [o])
  {
    forall k | 0 <= k < |rs + more| ensures OfStored(Read((rs + more)[k]), Members(os + [o])) {
      if k < |rs| {
        assert (rs + more)[k] == rs[k] && OfStored(Read(rs[k]), Members(os));
      } else {
        assert (rs + more)[k] == more[k - |rs|] && OfStored(Read(more[k - |rs|]), Members([o]));
      }
    }
    forall k | 0 <= k < |os + [o]| ensures Owed(rs + more, (os + [o])[k]) {
      if k < |os| {
        Hydrate.MoreSays(rs, more, os[k]);
      } else {
        assert Owed(more, [o][0]);
        Hydrate.LaterOwes(rs, more, o);
      }
    }
  }

  function Cells(rs: seq<ObjectRecord>): Hydrate.ObjectLog {
    seq(|rs|, i requires 0 <= i < |rs| => Stored(rs[i]))
  }

  lemma {:induction false} CellsVisible(rs: seq<ObjectRecord>)
    ensures Visible(Cells(rs)) == rs
  {
    if rs != [] {
      CellsVisible(rs[..|rs| - 1]);
      assert Cells(rs)[..|rs| - 1] == Cells(rs[..|rs| - 1]);
    }
  }

  lemma TransactionIsSound(hash: Hydrate.Hash, log: Hydrate.ObjectLog, stored: set<GitObject>, rs: seq<ObjectRecord>, group: seq<GitObject>)
    requires Hydrate.Sound(hash, log, stored) && Encodes(rs, group) && Genuine(hash, group)
    requires Collisionless(hash, stored + Members(group))
    ensures Hydrate.Sound(hash, log + Cells(rs), stored + Members(group))
    ensures Hydrate.Grows(log, stored, log + Cells(rs), stored + Members(group))
  {
    var all := stored + Members(group);
    CellsVisible(rs);
    VisibleAppend(log, Cells(rs));
    forall o | o in Members(group) ensures Owed(rs, o) && hash(o.kind, o.content) == o.oid {
      var k :| 0 <= k < |group| && group[k] == o;
      assert Owed(rs, group[k]);
    }
    Hydrate.AppendGrows(log, stored, Cells(rs), Members(group));
    BothHonest(Visible(log), stored, rs, Members(group));
    forall o | o in all ensures Owed(Visible(log) + rs, o) {
      if o in stored { Hydrate.MoreSays(Visible(log), rs, o); } else { Hydrate.LaterOwes(Visible(log), rs, o); }
    }
  }

  lemma BothHonest(a: seq<ObjectRecord>, s: set<GitObject>, b: seq<ObjectRecord>, t: set<GitObject>)
    requires Honest(a, s) && forall k :: 0 <= k < |b| ==> OfStored(Read(b[k]), t)
    ensures Honest(a + b, s + t)
  {
    forall k | 0 <= k < |a + b| ensures OfStored(Read((a + b)[k]), s + t) {
      if k < |a| {
        assert OfStored(Read(a[k]), s);
      } else {
        assert OfStored(Read(b[k - |a|]), t);
      }
    }
  }

  /** One repository's object topic, and the writer of it. */
  class ObjectWriter {
    const hash: Hydrate.Hash
    var log: Hydrate.ObjectLog
    ghost var stored: set<GitObject>

    constructor (hash: Hydrate.Hash)
      ensures this.hash == hash && Valid() && log == [] && stored == {}
    {
      this.hash, log, stored := hash, [], {};
    }

    ghost predicate Valid()
      reads this
    {
      Hydrate.Sound(hash, log, stored)
    }

    /** A transaction of whole objects lands entirely or not at all, and the answer may
        get lost. */
    method Transact(records: seq<ObjectRecord>, outcome: Effect, ghost group: seq<GitObject>) returns (ok: bool)
      requires Valid() && Encodes(records, group) && Genuine(hash, group) && Collisionless(hash, stored + Members(group))
      modifies this
      ensures Valid() && ok == outcome.Confirmed?
      ensures stored == old(stored) + if outcome.NoEffect? then {} else Members(group)
      ensures Hydrate.Grows(old(log), old(stored), log, stored)
    {
      if !outcome.NoEffect? {
        TransactionIsSound(hash, log, stored, records, group);
        log := log + Cells(records);
        stored := stored + Members(group);
      } else {
        NothingGrows(log, stored);
      }
      ok := outcome.Confirmed?;
    }

    /** One batch, in one transaction. */
    method PutGroup(group: seq<GitObject>, outcome: Effect) returns (failed: Option<StoreError>)
      requires Valid() && Collisionless(hash, stored + Members(group))
      requires forall k :: 0 <= k < |group| ==> Countable(group[k].content)
      modifies this
      ensures Valid() && Hydrate.Grows(old(log), old(stored), log, stored)
      ensures failed.None? ==> stored == old(stored) + Members(group)
      ensures failed.Some? ==> Fails(hash, group, outcome, failed.value) && (stored == old(stored) || (Genuine(hash, group) && stored == old(stored) + Members(group)))
      ensures failed.None? <==> Genuine(hash, group) && outcome.Confirmed?
    {
      NothingGrows(log, stored);
      var records := EncodeGroup(hash, group);
      if records.Err? {
        return Some(records.error);
      }
      var ok := Transact(records.value, outcome, group);
      assert old(stored) + {} == old(stored);
      failed := if ok then None else Some(WriteFailed);
    }

    /** Store many objects, so many to a transaction. An object that does not hash to its
        id stops the batch it is in and those after it. */
    method PutAll(objects: seq<GitObject>, weather: nat -> Effect) returns (r: Result<nat, StoreError>)
      requires Valid() && Collisionless(hash, stored + Members(objects))
      modifies this
      ensures Valid() && Hydrate.Grows(old(log), old(stored), log, stored)
      ensures r.Ok? ==> r.value == |objects| && Sent(hash, objects, |objects|, old(stored), stored)
      ensures r.Err? ==> exists n :: 0 <= n <= |objects| && Sent(hash, objects, n, old(stored), stored)
      ensures (forall k :: weather(k).Confirmed?) ==> (r.Ok? <==> Genuine(hash, objects))
      ensures r.Err? ==> Blames(hash, objects, weather, r.error)
    {
      var written, step := 0, 0;
      NothingGrows(log, stored);
      while written < |objects|
        invariant Valid() && Sent(hash, objects, written, old(stored), stored)
        invariant Hydrate.Grows(old(log), old(stored), log, stored)
      {
        var group := objects[written..Min(written + BATCH, |objects|)];
        NextGroup(hash, objects, written, group, old(stored), stored);
        ghost var (log0, stored0) := (log, stored);
        var failed := PutGroup(group, weather(step));
        GrowthsAdd(old(log), old(stored), log0, stored0, log, stored);
        if failed.Some? {
          GroupFails(hash, objects, written, group, weather, step, failed.value);
          assert Sent(hash, objects, if stored == stored0 then written else written + |group|, old(stored), stored);
          return Err(failed.value);
        }
        written, step := written + |group|, step + 1;
      }
      assert objects[..|objects|] == objects;
      r := Ok(written);
    }
  }

  /** A whole number of batches went out, or everything. */
  ghost predicate Sent(hash: Hydrate.Hash, objects: seq<GitObject>, n: nat, before: set<GitObject>, after: set<GitObject>) {
    n <= |objects| && (n % 64 == 0 || n == |objects|) && Genuine(hash, objects[..n]) && after == before + Members(objects[..n])
  }

  /** An error is the first corrupt object, or a write that failed. */
  ghost predicate Blames(hash: Hydrate.Hash, objects: seq<GitObject>, weather: nat -> Effect, e: StoreError) {
    NamesCorrupt(hash, objects, e) || (e == WriteFailed && exists k: nat :: !weather(k).Confirmed?)
  }

  /** Why one batch failed. */
  ghost predicate Fails(hash: Hydrate.Hash, group: seq<GitObject>, outcome: Effect, e: StoreError) {
    if Genuine(hash, group) then e == WriteFailed && !outcome.Confirmed? else NamesCorrupt(hash, group, e)
  }

  lemma GroupFails(hash: Hydrate.Hash, objects: seq<GitObject>, at: nat, group: seq<GitObject>, weather: nat -> Effect, step: nat, e: StoreError)
    requires at + |group| <= |objects| && group == objects[at..at + |group|] && Genuine(hash, objects[..at]) && Fails(hash, group, weather(step), e)
    ensures Blames(hash, objects, weather, e) && (!Genuine(hash, objects) || !weather(step).Confirmed?)
  {
    if !Genuine(hash, group) { PartGenuine(hash, objects, at, group, weather, e); }
  }

  lemma NextGroup(hash: Hydrate.Hash, objects: seq<GitObject>, n: nat, group: seq<GitObject>, before: set<GitObject>, now: set<GitObject>)
    requires Sent(hash, objects, n, before, now) && n < |objects| && group == objects[n..Min(n + BATCH, |objects|)]
    requires Collisionless(hash, before + Members(objects))
    ensures forall k :: 0 <= k < |group| ==> Countable(group[k].content)
    ensures Collisionless(hash, now + Members(group))
    ensures Genuine(hash, group) ==> Sent(hash, objects, n + |group|, before, now + Members(group))
    ensures now + {} == now
  {
    assert objects[..n] + group == objects[..n + |group|];
    assert Members(objects[..n]) + Members(group) == Members(objects[..n + |group|]);
    assert forall k :: 0 <= k < |group| ==> group[k] in Members(objects);
    Smaller(hash, now + Members(group), before + Members(objects));
  }

  lemma PartGenuine(hash: Hydrate.Hash, objects: seq<GitObject>, at: nat, group: seq<GitObject>, weather: nat -> Effect, e: StoreError)
    requires at + |group| <= |objects| && group == objects[at..at + |group|] && Genuine(hash, objects[..at]) && NamesCorrupt(hash, group, e)
    ensures !Genuine(hash, objects) && Blames(hash, objects, weather, e)
  {
    var k: nat :| FirstCorrupt(hash, group, k) && e == CorruptObject(CorruptContent(group[k].oid, hash(group[k].kind, group[k].content)));
    assert objects[at + k] == group[k] && objects[..at + k] == objects[..at] + group[..k];
    assert FirstCorrupt(hash, objects, at + k);
  }

  lemma Smaller(hash: Hydrate.Hash, s: set<GitObject>, t: set<GitObject>)
    requires s <= t && Collisionless(hash, t)
    ensures Collisionless(hash, s)
  {}

  lemma NothingGrows(log: Hydrate.ObjectLog, stored: set<GitObject>)
    ensures Hydrate.Grows(log, stored, log, stored)
  {}

  lemma GrowthsAdd(a: Hydrate.ObjectLog, s: set<GitObject>, b: Hydrate.ObjectLog, t: set<GitObject>, c: Hydrate.ObjectLog, u: set<GitObject>)
    requires Hydrate.Grows(a, s, b, t) && Hydrate.Grows(b, t, c, u)
    ensures Hydrate.Grows(a, s, c, u)
  {
    forall o | o in u && o !in s ensures Owed(Hydrate.Unread(c, |a|), o) {
      if o !in t { Hydrate.EarlierOwesMore(c, o, |a|, |b|); }
    }
  }
}
