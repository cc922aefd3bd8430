/** The disposable cache: objects put together again from a stream of records, on a
    disk that can be behind, half written or gone. */
module Cache {
  import opened Base
  import opened Frame
  import opened Codec
  import opened Tailing

  // ---- Buffers ----

  datatype Head = Head(kind: Kind, totalLen: nat, chunkCount: nat)

  datatype Buffers = Buffers(manifests: map<Oid, Head>, partials: map<Oid, seq<Option<Bytes>>>, pending: seq<GitObject>)

  const EMPTY := Buffers(map[], map[], [])

  function Nones(n: nat): (s: seq<Option<Bytes>>)
    ensures |s| == n && forall i :: 0 <= i < n ==> s[i] == None
  {
    seq(n, i => None)
  }

  function Slotted(slots: seq<Option<Bytes>>, index: nat, data: Bytes): (s: seq<Option<Bytes>>)
    ensures index < |s| && s[index] == Some(data) && |slots| <= |s|
    ensures forall i :: 0 <= i < |s| && i != index ==> s[i] == if i < |slots| then slots[i] else None
  {
    (if |slots| <= index then slots + Nones(index + 1 - |slots|) else slots)[index := Some(data)]
  }

  function SlotsOf(b: Buffers, oid: Oid): seq<Option<Bytes>> {
    if oid in b.partials then b.partials[oid] else []
  }

  /** A tombstone forgets the parts of an object, but not a whole copy seen before. */
  function Absorb(b: Buffers, m: Meaning): Buffers {
    match m
    case IsWhole(oid, kind, content) => b.(pending := b.pending + [GitObject(oid, kind, content)])
    case IsManifest(oid, kind, len, count) =>
      b.(manifests := b.manifests[oid := Head(kind, len, count)],
         partials := if oid in b.partials then b.partials else b.partials[oid := Nones(count)])
    case IsChunk(oid, index, data) => b.(partials := b.partials[oid := Slotted(SlotsOf(b, oid), index, data)])
    case IsTombstone(oid) => b.(manifests := b.manifests - {oid}, partials := b.partials - {oid})
    case IsNoise => b
  }

  function Absorbed(rs: seq<ObjectRecord>): Buffers {
    if rs == [] then EMPTY else Absorb(Absorbed(rs[..|rs| - 1]), Read(rs[|rs| - 1]))
  }

  /** The objects the buffers amount to. */
  predicate Yields(b: Buffers, o: GitObject) {
    || o in b.pending
    || (o.oid in b.manifests && o.oid in b.partials && b.manifests[o.oid].kind == o.kind
        && Reassembled(b.manifests[o.oid].totalLen, b.manifests[o.oid].chunkCount, b.partials[o.oid]) == Ok(o.content))
  }

  // ---- What streams of honest records yield ----

  ghost predicate Says(rs: seq<ObjectRecord>, m: Meaning) {
    exists k :: 0 <= k < |rs| && Read(rs[k]) == m
  }

  lemma SaidEarlier(rs: seq<ObjectRecord>, n: nat, m: Meaning)
    requires n <= |rs| && Says(rs[..n], m)
    ensures Says(rs, m)
  {
    var k :| 0 <= k < n && Read(rs[..n][k]) == m;
    assert rs[k] == rs[..n][k];
  }

  lemma SaysNext(rs: seq<ObjectRecord>, m: Meaning)
    requires rs != []
    ensures Says(rs, m) <==> Says(rs[..|rs| - 1], m) || Read(rs[|rs| - 1]) == m
  {
    var init := rs[..|rs| - 1];
    if Says(init, m) {
      SaidEarlier(rs, |rs| - 1, m);
    }
    if k :| 0 <= k < |rs| && Read(rs[k]) == m {
      assert k < |init| ==> init[k] == rs[k];
    }
  }

  /** Said, and by no tombstone of its id since. */
  ghost predicate Stands(rs: seq<ObjectRecord>, m: Meaning)
    requires !m.IsNoise?
  {
    exists k :: 0 <= k < |rs| && Read(rs[k]) == m && Unburied(rs, k, m.oid)
  }

  ghost predicate Unburied(rs: seq<ObjectRecord>, k: nat, oid: Oid) {
    forall j :: k < j < |rs| ==> Read(rs[j]) != IsTombstone(oid)
  }

  lemma UnburiedNext(rs: seq<ObjectRecord>, k: nat, oid: Oid)
    requires k < |rs| - 1
    ensures Unburied(rs, k, oid) <==> Unburied(rs[..|rs| - 1], k, oid) && Read(rs[|rs| - 1]) != IsTombstone(oid)
  {
    var init := rs[..|rs| - 1];
    if Unburied(rs, k, oid) {
      forall j | k < j < |init| ensures Read(init[j]) != IsTombstone(oid) { assert init[j] == rs[j]; }
    }
    if Unburied(init, k, oid) {
      forall j | k < j < |init| ensures Read(rs[j]) != IsTombstone(oid) { assert init[j] == rs[j]; }
    }
  }

  lemma StandsNext(rs: seq<ObjectRecord>, m: Meaning)
    requires rs != [] && !m.IsNoise?
    ensures Stands(rs, m) <==> (Stands(rs[..|rs| - 1], m) && Read(rs[|rs| - 1]) != IsTombstone(m.oid)) || Read(rs[|rs| - 1]) == m
  {
    var (init, n) := (rs[..|rs| - 1], |rs| - 1);
    if Stands(init, m) && Read(rs[n]) != IsTombstone(m.oid) {
      var k :| 0 <= k < n && Read(init[k]) == m && Unburied(init, k, m.oid);
      UnburiedNext(rs, k, m.oid);
      assert Read(rs[k]) == m;
    }
    if Stands(rs, m) {
      var k :| 0 <= k < |rs| && Read(rs[k]) == m && Unburied(rs, k, m.oid);
      if k < n {
        UnburiedNext(rs, k, m.oid);
        assert Read(init[k]) == m;
      }
    }
    if Read(rs[n]) == m {
      assert Unburied(rs, n, m.oid);
    }
  }

  ghost predicate NoTombstones(rs: seq<ObjectRecord>) {
    forall k :: 0 <= k < |rs| ==> !Read(rs[k]).IsTombstone?
  }

  lemma SaidStands(rs: seq<ObjectRecord>, m: Meaning)
    requires !m.IsNoise?
    ensures Stands(rs, m) ==> Says(rs, m)
    ensures NoTombstones(rs) && Says(rs, m) ==> Stands(rs, m)
  {
    if NoTombstones(rs) && Says(rs, m) {
      var k :| 0 <= k < |rs| && Read(rs[k]) == m;
      assert Unburied(rs, k, m.oid);
    }
  }

  ghost predicate WholesSaid(rs: seq<ObjectRecord>, b: Buffers) {
    forall o :: o in b.pending <==> Says(rs, IsWhole(o.oid, o.kind, o.content))
  }

  ghost predicate HeadsStand(rs: seq<ObjectRecord>, b: Buffers) {
    && (forall oid :: oid in b.manifests ==> var h := b.manifests[oid]; Stands(rs, IsManifest(oid, h.kind, h.totalLen, h.chunkCount)))
    && (forall oid :: oid in b.manifests ==> oid in b.partials)
    && (forall oid, kind, len, n :: Stands(rs, IsManifest(oid, kind, len, n)) ==> oid in b.manifests)
  }

  predicate Filled(b: Buffers, oid: Oid, i: nat) {
    i < |SlotsOf(b, oid)| && SlotsOf(b, oid)[i].Some?
  }

  ghost predicate SlotsStand(rs: seq<ObjectRecord>, b: Buffers) {
    && (forall oid, i: nat :: Filled(b, oid, i) ==> Stands(rs, IsChunk(oid, i, SlotsOf(b, oid)[i].value)))
    && (forall oid, i: nat, data :: Stands(rs, IsChunk(oid, i, data)) ==> Filled(b, oid, i))
  }

  /** What is buffered is what was said, and the other way round, whatever the order and
      the repetition: a whole object if it was ever said, manifests and parts if they
      were said after the last tombstone of their id. */
  ghost predicate Recorded(rs: seq<ObjectRecord>, b: Buffers) {
    WholesSaid(rs, b) && HeadsStand(rs, b) && SlotsStand(rs, b)
  }

  ghost predicate SaysAlso(rs: seq<ObjectRecord>, init: seq<ObjectRecord>, last: Meaning) {
    && (forall m :: Says(rs, m) <==> Says(init, m) || last == m)
    && (forall m: Meaning :: !m.IsNoise? ==> (Stands(rs, m) <==> (Stands(init, m) && last != IsTombstone(m.oid)) || last == m))
  }

  lemma WholesNext(rs: seq<ObjectRecord>, init: seq<ObjectRecord>, b: Buffers, m: Meaning)
    requires SaysAlso(rs, init, m) && WholesSaid(init, b)
    ensures WholesSaid(rs, Absorb(b, m))
  {}

  lemma HeadsNext(rs: seq<ObjectRecord>, init: seq<ObjectRecord>, b: Buffers, m: Meaning)
    requires SaysAlso(rs, init, m) && HeadsStand(init, b)
    ensures HeadsStand(rs, Absorb(b, m))
  {}

  lemma SlotsAfter(b: Buffers, m: Meaning, oid: Oid, i: nat)
    ensures var (b', mine) := (Absorb(b, m), m.IsChunk? && m.oid == oid && m.index == i);
      && (Filled(b', oid, i) <==> (Filled(b, oid, i) && m != IsTombstone(oid)) || mine)
      && (Filled(b', oid, i) ==> SlotsOf(b', oid)[i].value == if mine then m.data else SlotsOf(b, oid)[i].value)
  {}

  lemma SlotsNext(rs: seq<ObjectRecord>, init: seq<ObjectRecord>, b: Buffers, m: Meaning)
    requires SaysAlso(rs, init, m) && SlotsStand(init, b)
    ensures SlotsStand(rs, Absorb(b, m))
  {
    var b' := Absorb(b, m);
    forall oid, i: nat | Filled(b', oid, i) ensures Stands(rs, IsChunk(oid, i, SlotsOf(b', oid)[i].value)) {
      SlotsAfter(b, m, oid, i);
    }
    forall oid, i: nat, data | Stands(rs, IsChunk(oid, i, data)) ensures Filled(b', oid, i) {
      SlotsAfter(b, m, oid, i);
    }
  }

  lemma {:induction false} StreamIsRecorded(rs: seq<ObjectRecord>)
    ensures Recorded(rs, Absorbed(rs))
  {
    if rs != [] {
      var (init, m, b) := (rs[..|rs| - 1], Read(rs[|rs| - 1]), Absorbed(rs[..|rs| - 1]));
      StreamIsRecorded(init);
      forall x ensures Says(rs, x) <==> Says(init, x) || m == x { SaysNext(rs, x); }
      forall x: Meaning | !x.IsNoise? ensures Stands(rs, x) <==> (Stands(init, x) && m != IsTombstone(x.oid)) || m == x { StandsNext(rs, x); }
      WholesNext(rs, init, b, m);
      HeadsNext(rs, init, b, m);
      SlotsNext(rs, init, b, m);
    }
  }

  ghost predicate IsOf(m: Meaning, o: GitObject) {
    exists i :: 0 <= i < RecordsIn(o) && m == NthMeaning(o, i)
  }

  ghost predicate OfStored(m: Meaning, os: set<GitObject>) {
    exists o :: o in os && IsOf(m, o)
  }

  /** Every record is one of some stored object. */
  ghost predicate Honest(rs: seq<ObjectRecord>, os: set<GitObject>) {
    forall k :: 0 <= k < |rs| ==> OfStored(Read(rs[k]), os)
  }

  /** The same with tombstones anywhere among them. */
  ghost predicate HonestWithTombstones(rs: seq<ObjectRecord>, os: set<GitObject>) {
    forall k :: 0 <= k < |rs| ==> Read(rs[k]).IsTombstone? || OfStored(Read(rs[k]), os)
  }

  /** An id names one object, and a manifest can count the chunks of each. */
  ghost predicate Distinct(os: set<GitObject>) {
    && (forall a, b :: a in os && b in os && a.oid == b.oid ==> a == b)
    && (forall o :: o in os ==> Countable(o.content))
  }

  /** The whole of an object is in the stream. */
  ghost predicate Owed(rs: seq<ObjectRecord>, o: GitObject) {
    forall i :: 0 <= i < RecordsIn(o) ==> Says(rs, NthMeaning(o, i))
  }

  /** What the program takes for the whole of an object: one frame, buried or not, or a
      manifest and every part, all after the last tombstone. */
  ghost predicate Complete(rs: seq<ObjectRecord>, o: GitObject) {
    if |o.content| <= CHUNK then Says(rs, NthMeaning(o, 0))
    else forall i :: 0 <= i < RecordsIn(o) ==> Stands(rs, NthMeaning(o, i))
  }

  lemma HonestSays(rs: seq<ObjectRecord>, os: set<GitObject>, m: Meaning) returns (o: GitObject)
    requires HonestWithTombstones(rs, os) && Says(rs, m) && !m.IsTombstone?
    ensures o in os && IsOf(m, o)
  {
    var k :| 0 <= k < |rs| && Read(rs[k]) == m;
    assert OfStored(Read(rs[k]), os);
    o :| o in os && IsOf(Read(rs[k]), o);
  }

  lemma SlotsAreItsPieces(rs: seq<ObjectRecord>, os: set<GitObject>, o: GitObject, slots: seq<Option<Bytes>>)
    requires HonestWithTombstones(rs, os) && Distinct(os) && o in os
    requires forall i: nat :: i < |slots| && slots[i].Some? ==> Says(rs, IsChunk(o.oid, i, slots[i].value))
    ensures PiecesOf(slots, o.content)
  {
    forall i | 0 <= i < |slots| && slots[i].Some? ensures i < ChunkCount(|o.content|) && slots[i].value == Piece(o.content, i) {
      var a := HonestSays(rs, os, IsChunk(o.oid, i, slots[i].value));
      assert a == o;
    }
  }

  /** A manifest that is present is the one of its object. */
  lemma ManifestIsIts(rs: seq<ObjectRecord>, os: set<GitObject>, oid: Oid, head: Head) returns (o: GitObject)
    requires HonestWithTombstones(rs, os) && Says(rs, IsManifest(oid, head.kind, head.totalLen, head.chunkCount))
    ensures o in os && o.oid == oid && |o.content| > CHUNK && head == Head(o.kind, |o.content|, ChunkCount(|o.content|))
  {
    o := HonestSays(rs, os, IsManifest(oid, head.kind, head.totalLen, head.chunkCount));
  }

  lemma NoneHonest(rs: seq<ObjectRecord>, os: set<GitObject>)
    requires Honest(rs, os)
    ensures NoTombstones(rs)
  {
    forall k | 0 <= k < |rs| ensures !Read(rs[k]).IsTombstone? {
      assert OfStored(Read(rs[k]), os);
      var o :| o in os && IsOf(Read(rs[k]), o);
    }
  }

  lemma PartsAreItsPieces(rs: seq<ObjectRecord>, os: set<GitObject>, b: Buffers, o: GitObject)
    requires HonestWithTombstones(rs, os) && Distinct(os) && o in os && SlotsStand(rs, b)
    ensures PiecesOf(SlotsOf(b, o.oid), o.content)
  {
    forall i: nat | i < |SlotsOf(b, o.oid)| && SlotsOf(b, o.oid)[i].Some? ensures Says(rs, IsChunk(o.oid, i, SlotsOf(b, o.oid)[i].value)) {
      assert Filled(b, o.oid, i);
      SaidStands(rs, IsChunk(o.oid, i, SlotsOf(b, o.oid)[i].value));
    }
    SlotsAreItsPieces(rs, os, o, SlotsOf(b, o.oid));
  }

  /** With honest records, a manifest's parts amount to the object it was written for,
      if they are complete, and to nothing otherwise. */
  lemma PartsAmountTo(rs: seq<ObjectRecord>, os: set<GitObject>, b: Buffers, oid: Oid) returns (a: GitObject)
    requires HonestWithTombstones(rs, os) && Distinct(os) && HeadsStand(rs, b) && SlotsStand(rs, b) && oid in b.manifests
    ensures oid in b.partials && a in os && a.oid == oid && |a.content| > CHUNK && b.manifests[oid].kind == a.kind
    ensures b.manifests[oid] == Head(a.kind, |a.content|, ChunkCount(|a.content|))
    ensures var r := Reassembled(b.manifests[oid].totalLen, b.manifests[oid].chunkCount, b.partials[oid]);
      if Full(b.partials[oid], ChunkCount(|a.content|)) then r == Ok(a.content) else r.Err?
  {
    var h := b.manifests[oid];
    SaidStands(rs, IsManifest(oid, h.kind, h.totalLen, h.chunkCount));
    a := ManifestIsIts(rs, os, oid, h);
    PartsAreItsPieces(rs, os, b, a);
    ReassemblyIsExact(b.partials[oid], a.content);
  }

  lemma WholeIsStored(rs: seq<ObjectRecord>, os: set<GitObject>, o: GitObject)
    requires HonestWithTombstones(rs, os) && Says(rs, IsWhole(o.oid, o.kind, o.content))
    ensures o in os && |o.content| <= CHUNK
  {
    var a := HonestSays(rs, os, IsWhole(o.oid, o.kind, o.content));
    assert a == o;
  }

  /** The parts of a chunked object are all there exactly if each was said after the
      last tombstone of the object. */
  lemma FullWhenAllStand(rs: seq<ObjectRecord>, os: set<GitObject>, b: Buffers, o: GitObject)
    requires HonestWithTombstones(rs, os) && Distinct(os) && o in os && SlotsStand(rs, b) && |o.content| > CHUNK
    ensures Full(SlotsOf(b, o.oid), ChunkCount(|o.content|)) <==> forall i :: 0 < i < RecordsIn(o) ==> Stands(rs, NthMeaning(o, i))
  {
    PartsAreItsPieces(rs, os, b, o);
    forall i: nat | i < ChunkCount(|o.content|) ensures Filled(b, o.oid, i) <==> Stands(rs, NthMeaning(o, i + 1)) {
      assert NthMeaning(o, i + 1) == IsChunk(o.oid, i, Piece(o.content, i));
    }
    if forall i :: 0 < i < RecordsIn(o) ==> Stands(rs, NthMeaning(o, i)) {
      forall i: nat | i < ChunkCount(|o.content|) ensures Filled(b, o.oid, i) {
        assert Stands(rs, NthMeaning(o, i + 1));
      }
      assert Filled(b, o.oid, ChunkCount(|o.content|) - 1);
      forall i: nat | i < ChunkCount(|o.content|) ensures SlotsOf(b, o.oid)[i].Some? { assert Filled(b, o.oid, i); }
    }
    if Full(SlotsOf(b, o.oid), ChunkCount(|o.content|)) {
      forall i | 0 < i < RecordsIn(o) ensures Stands(rs, NthMeaning(o, i)) {
        assert Filled(b, o.oid, i - 1);
      }
    }
  }

  lemma HeadWhenItStands(rs: seq<ObjectRecord>, os: set<GitObject>, b: Buffers, o: GitObject)
    requires HonestWithTombstones(rs, os) && Distinct(os) && o in os && HeadsStand(rs, b) && SlotsStand(rs, b) && |o.content| > CHUNK
    ensures o.oid in b.manifests <==> Stands(rs, NthMeaning(o, 0))
  {
    if o.oid in b.manifests {
      var a := PartsAmountTo(rs, os, b, o.oid);
      assert a == o;
    }
  }

  /** From honest records, in any order, repeated and with tombstones anywhere among
      them, exactly the stored objects that are complete are made, byte for byte. */
  lemma YieldsTheComplete(rs: seq<ObjectRecord>, os: set<GitObject>, o: GitObject)
    requires HonestWithTombstones(rs, os) && Distinct(os)
    ensures Yields(Absorbed(rs), o) <==> o in os && Complete(rs, o)
  {
    var b := Absorbed(rs);
    StreamIsRecorded(rs);
    if o in b.pending {
      WholeIsStored(rs, os, o);
    } else if o in os && |o.content| > CHUNK {
      ChunkedYields(rs, os, b, o);
    } else if Yields(b, o) {
      var a := PartsAmountTo(rs, os, b, o.oid);
    }
  }

  lemma ChunkedYields(rs: seq<ObjectRecord>, os: set<GitObject>, b: Buffers, o: GitObject)
    requires HonestWithTombstones(rs, os) && Distinct(os) && o in os && |o.content| > CHUNK && Recorded(rs, b) && o !in b.pending
    ensures Yields(b, o) <==> Complete(rs, o)
  {
    HeadWhenItStands(rs, os, b, o);
    FullWhenAllStand(rs, os, b, o);
    if o.oid in b.manifests {
      var a := PartsAmountTo(rs, os, b, o.oid);
      assert a == o;
    }
  }

  /** Nothing is made up, however incomplete the records. */
  lemma YieldsOnlyStored(rs: seq<ObjectRecord>, os: set<GitObject>, o: GitObject)
    requires Honest(rs, os) && Distinct(os) && Yields(Absorbed(rs), o)
    ensures o in os
  {
    YieldsTheComplete(rs, os, o);
  }

  /** Without tombstones, the records of an object yield it once all of them are there. */
  lemma OwedIsYielded(rs: seq<ObjectRecord>, os: set<GitObject>, o: GitObject)
    requires Honest(rs, os) && Distinct(os) && o in os && Owed(rs, o)
    ensures Yields(Absorbed(rs), o)
  {
    NoneHonest(rs, os);
    forall i | 0 <= i < RecordsIn(o) ensures Says(rs, NthMeaning(o, i)) && Stands(rs, NthMeaning(o, i)) {
      SaidStands(rs, NthMeaning(o, i));
    }
    YieldsTheComplete(rs, os, o);
  }
}
