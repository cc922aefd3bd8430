/** Bringing the cache up to date, and why it does not matter how often that is
    interrupted, or what was lost in between. */
module Hydrate {
  import opened Base
  import opened Frame
  import opened Codec
  import opened Cache
  import opened Tailing

  type Disk = map<Oid, (Kind, Bytes)>

  type Hash = (Kind, Bytes) -> Oid

  /** What lies in the cache's directory: loose objects, and how far the topic was
      replayed if that can be read. */
  datatype Folder = Folder(disk: Disk, cursor: Option<nat>)

  const NO_FOLDER := Folder(map[], None)

  function From(f: Folder): nat {
    if f.cursor.Some? then f.cursor.value else 0
  }

  type ObjectLog = seq<Cell<ObjectRecord>>

  function Unread(log: ObjectLog, from: nat): seq<ObjectRecord>
    requires from <= |log|
  {
    Visible(log[from..])
  }

  ghost predicate Kept(before: Disk, after: Disk) {
    forall oid :: oid in before ==> oid in after && after[oid] == before[oid]
  }

  ghost predicate NewAre(before: Disk, after: Disk, b: Buffers, hash: Hash) {
    forall oid :: oid in after && oid !in before ==> Yields(b, GitObject(oid, after[oid].0, after[oid].1)) && hash(after[oid].0, after[oid].1) == oid
  }

  ghost predicate AllPresent(b: Buffers, after: Disk) {
    forall o :: Yields(b, o) ==> o.oid in after
  }

  /** One hydration, from one state of the folder to the next. Interrupted anywhere, it
      may have written some of its objects, and has not moved the cursor. */
  ghost predicate Hydration(hash: Hash, log: ObjectLog, f: Folder, f': Folder, done: bool) {
    && From(f) <= |log|
    && var b := Absorbed(Unread(log, From(f)));
      && Kept(f.disk, f'.disk) && NewAre(f.disk, f'.disk, b, hash)
      && (if done then f'.cursor == Some(|log|) && AllPresent(b, f'.disk) else f'.cursor == f.cursor)
  }

  datatype CacheError = Corrupt(error: FrameError) | Io

  datatype Hydrated = Hydrated(written: nat, skipped: nat, cursor: nat)

  class CacheFolder {
    const hash: Hash
    var present: bool
    var disk: Disk
    var cursor: Option<nat>

    constructor (hash: Hash)
      ensures this.hash == hash && State() == NO_FOLDER && !present
    {
      this.hash := hash;
      present, disk, cursor := false, map[], None;
    }

    function State(): Folder
      reads this
    {
      Folder(disk, cursor)
    }

    /** Create the bare repository if it is not there. */
    method Init()
      modifies this`present
      ensures present
    {
      if !present {
        present := true;
      }
    }

    method Destroy()
      modifies this
      ensures State() == NO_FOLDER && !present
    {
      present, disk, cursor := false, map[], None;
    }

    /** Write a loose object, unless one is there already. */
    method WriteLoose(o: GitObject) returns (written: bool)
      modifies this`disk
      ensures written <==> o.oid !in old(disk)
      ensures disk == if written then old(disk)[o.oid := (o.kind, o.content)] else old(disk)
    {
      written := o.oid !in disk;
      if written {
        disk := disk[o.oid := (o.kind, o.content)];
      }
    }

    /** Fold the records into the three buffers. */
    static method Buffer(handed: seq<ObjectRecord>) returns (b: Buffers)
      ensures b == Absorbed(handed)
    {
      var manifests: map<Oid, Head> := map[];
      var partials: map<Oid, seq<Option<Bytes>>> := map[];
      var pending: seq<GitObject> := [];
      for i := 0 to |handed|
        invariant Buffers(manifests, partials, pending) == Absorbed(handed[..i])
      {
        assert handed[..i + 1][..i] == handed[..i];
        match Read(handed[i]) {
          case IsTombstone(oid) =>
            manifests := manifests - {oid};
            partials := partials - {oid};
          case IsWhole(oid, kind, content) => pending := pending + [GitObject(oid, kind, content)];
          case IsManifest(oid, kind, len, count) =>
            manifests := manifests[oid := Head(kind, len, count)];
            if oid !in partials {
              partials := partials[oid := Nones(count)];
            }
          case IsChunk(oid, index, data) =>
            var slots := if oid in partials then partials[oid] else [];
            if |slots| <= index {
              slots := slots + Nones(index + 1 - |slots|);
            }
            partials := partials[oid := slots[index := Some(data)]];
          case IsNoise =>
        }
      }
      assert handed[..|handed|] == handed;
      b := Buffers(manifests, partials, pending);
    }

    /** Add every chunked object whose parts all arrived, in whatever order the map
        gives them. */
    static method Assemble(b: Buffers) returns (pending: seq<GitObject>)
      ensures forall o :: o in pending <==> Yields(b, o)
      ensures |pending| == Amount(b)
    {
      pending := b.pending;
      var rest := b.manifests.Keys;
      NothingAssembled(b);
      while rest != {}
        invariant Assembled(b, rest, pending)
        decreases |rest|
      {
        var oid :| oid in rest;
        var found := AssembleOne(b, oid);
        OneAssembled(b, rest, pending, oid, found);
        rest := rest - {oid};
        if found.Some? {
          pending := pending + [found.value];
        }
      }
      assert Arrived(b) - {} == Arrived(b);
    }

    /** One chunked object, if all its parts arrived. */
    static method AssembleOne(b: Buffers, oid: Oid) returns (found: Option<GitObject>)
      requires oid in b.manifests
      ensures IsAssembled(b, oid, found)
    {
      found := None;
      if oid in b.partials {
        var head := b.manifests[oid];
        var r := Reassemble(head.totalLen, head.chunkCount, b.partials[oid]);
        if r.Ok? {
          found := Some(GitObject(oid, head.kind, r.value));
        }
      }
    }

    /** Replay the topic from the stored cursor and write what it amounts to.
        `budget` is how many objects are dealt with before the process dies, if it
        does; `saves` whether the cursor can be written. */
    method HydrateFrom(log: ObjectLog, pace: nat -> nat, budget: Option<nat>, saves: bool) returns (r: Result<Hydrated, CacheError>)
      requires From(State()) <= |log|
      modifies this
      ensures Hydration(hash, log, old(State()), State(), r.Ok?)
      ensures present
      ensures r.Ok? ==> r.value.written == |disk| - |old(disk)| && r.value.cursor == |log|
      ensures var b := Absorbed(Unread(log, From(old(State()))));
        && (r.Ok? ==> r.value.written + r.value.skipped == Amount(b))
        && (saves && (budget.None? || budget.value >= Amount(b)) ==> (r.Ok? <==> Genuine(b, hash)))
        && (r.Err? ==> Excuses(b, hash, !saves || (budget.Some? && budget.value < Amount(b)), r.error))
    {
      Init();
      var tailer := new Tailer<ObjectRecord>(From(State()));
      var handed, count := tailer.ReplayToEnd(log, pace);
      var b := Buffer(handed);
      var pending := Assemble(b);
      var done := WriteAll(b, pending, budget);
      if done.Err? {
        return Err(done.error);
      }
      if !saves {
        return Err(Io);
      }
      cursor := Some(tailer.offset);
      r := Ok(Hydrated(done.value.0, done.value.1, tailer.offset));
    }

    /** Verify each object on its way out, and write it. */
    method WriteAll(ghost b: Buffers, pending: seq<GitObject>, budget: Option<nat>) returns (r: Result<(nat, nat), CacheError>)
      requires forall o :: o in pending <==> Yields(b, o)
      modifies this`disk
      ensures Kept(old(disk), disk) && NewAre(old(disk), disk, b, hash)
      ensures r.Ok? ==> AllPresent(b, disk) && r.value.0 == |disk| - |old(disk)|
      ensures r.Ok? ==> Genuine(b, hash)
      ensures r.Ok? ==> r.value.0 + r.value.1 == |pending|
      ensures r.Err? ==> Excuses(b, hash, budget.Some? && budget.value < |pending|, r.error)
    {
      var written, skipped := 0, 0;
      for i := 0 to |pending|
        invariant Kept(old(disk), disk) && NewAre(old(disk), disk, b, hash)
        invariant forall k :: 0 <= k < i ==> pending[k].oid in disk && hash(pending[k].kind, pending[k].content) == pending[k].oid
        invariant written == |disk| - |old(disk)| && written + skipped == i
      {
        var o := pending[i];
        assert o in pending && Yields(b, o);
        ghost var disk0 := disk;
        if budget == Some(i) {
          return Err(Io);
        }
        var found := hash(o.kind, o.content);
        if found != o.oid {
          return Err(Corrupt(CorruptContent(o.oid, found)));
        }
        var wrote := WriteLoose(o);
        OneMoreWritten(old(disk), disk0, disk, b, hash, o);
        if wrote {
          written := written + 1;
        } else {
          skipped := skipped + 1;
        }
      }
      forall o | Yields(b, o) ensures o.oid in disk && hash(o.kind, o.content) == o.oid {
        assert o in pending;
      }
      r := Ok((written, skipped));
    }
  }

  lemma OneMoreWritten(before: Disk, disk: Disk, disk': Disk, b: Buffers, hash: Hash, o: GitObject)
    requires Kept(before, disk) && NewAre(before, disk, b, hash) && Yields(b, o) && hash(o.kind, o.content) == o.oid
    requires disk' == if o.oid in disk then disk else disk[o.oid := (o.kind, o.content)]
    ensures Kept(before, disk') && NewAre(before, disk', b, hash) && Kept(disk, disk')
    ensures |disk'| == |disk| + if o.oid in disk then 0 else 1
  {}

  /** The chunked objects whose parts are all there. */
  function Arrived(b: Buffers): set<Oid> {
    set oid | oid in b.manifests && oid in b.partials && Reassembled(b.manifests[oid].totalLen, b.manifests[oid].chunkCount, b.partials[oid]).Ok?
  }

  /** How many objects there are to deal with, counting one that was sent twice twice. */
  function Amount(b: Buffers): nat {
    |b.pending| + |Arrived(b)|
  }

  ghost predicate IsAssembled(b: Buffers, oid: Oid, found: Option<GitObject>) {
    && (found.Some? <==> oid in Arrived(b)) && (found.Some? ==> Yields(b, found.value))
    && forall o :: Yields(b, o) && o.oid == oid ==> o in b.pending || found == Some(o)
  }

  /** What is pending when the objects in `rest` have not been looked at. */
  ghost predicate Assembled(b: Buffers, rest: set<Oid>, pending: seq<GitObject>) {
    && rest <= b.manifests.Keys && b.pending <= pending
    && (forall o :: o in pending ==> Yields(b, o))
    && (forall o :: Yields(b, o) ==> o in pending || o.oid in rest)
    && |pending| == |b.pending| + |Arrived(b) - rest|
  }

  lemma NothingAssembled(b: Buffers)
    ensures Assembled(b, b.manifests.Keys, b.pending)
  {
    assert Arrived(b) - b.manifests.Keys == {};
  }

  lemma OneAssembled(b: Buffers, rest: set<Oid>, pending: seq<GitObject>, oid: Oid, found: Option<GitObject>)
    requires Assembled(b, rest, pending) && oid in rest && IsAssembled(b, oid, found)
    ensures Assembled(b, rest - {oid}, if found.Some? then pending + [found.value] else pending)
  {
    OneFewer(Arrived(b), rest, oid);
  }

  lemma OneFewer(all: set<Oid>, rest: set<Oid>, oid: Oid)
    requires oid in rest
    ensures |all - (rest - {oid})| == |all - rest| + if oid in all then 1 else 0
  {
    if oid in all { assert all - (rest - {oid}) == (all - rest) + {oid}; } else { assert all - (rest - {oid}) == all - rest; }
  }

  /** The process died, or the cursor could not be written; or an object does not hash
      to its id, which the error says. */
  ghost predicate Excuses(b: Buffers, hash: Hash, dies: bool, e: CacheError) {
    if dies && e == Io then true else exists o :: Yields(b, o) && hash(o.kind, o.content) != o.oid && e == Corrupt(CorruptContent(o.oid, hash(o.kind, o.content)))
  }

  /** Everything the buffers yield hashes to its id. */
  ghost predicate Genuine(b: Buffers, hash: Hash) {
    forall o :: Yields(b, o) ==> hash(o.kind, o.content) == o.oid
  }

  // ---- Schedules ----

  /** A repository's object topic, what was stored in it, and one cache of it. */
  datatype Depot = Depot(log: ObjectLog, stored: set<GitObject>, folder: Folder)

  /** Everything the topic holds was put there by storing a whole object whose content
      hashes to its id. */
  ghost predicate Sound(hash: Hash, log: ObjectLog, stored: set<GitObject>) {
    && Honest(Visible(log), stored) && Distinct(stored)
    && (forall o :: o in stored ==> Owed(Visible(log), o))
    && (forall o :: o in stored ==> hash(o.kind, o.content) == o.oid)
  }

  /** The topic moves on: nothing an object still needs goes away for a reader at any
      position, and what is new comes whole, after the old end. */
  ghost predicate Grows(log: ObjectLog, stored: set<GitObject>, log': ObjectLog, stored': set<GitObject>) {
    && |log| <= |log'| && stored <= stored'
    && (forall c: nat, o :: c <= |log| && o in stored && Owed(Unread(log, c), o) ==> Owed(Unread(log', c), o))
    && (forall o :: o in stored' && o !in stored ==> Owed(Unread(log', |log|), o))
  }

  /** What can happen: the topic grows or is compacted, a hydration runs its course or
      is cut short, the cursor file is lost or torn, the folder is thrown away. */
  ghost predicate Happens(hash: Hash, d: Depot, d': Depot) {
    || (d'.folder == d.folder && Sound(hash, d'.log, d'.stored) && Grows(d.log, d.stored, d'.log, d'.stored))
    || (d' == d.(folder := d'.folder) && HydrationHappens(hash, d.log, d.folder, d'.folder))
    || (d' == d.(folder := d.folder.(cursor := d'.folder.cursor)) && From(d'.folder) <= From(d.folder))
    || d' == d.(folder := NO_FOLDER)
  }

  ghost predicate HydrationHappens(hash: Hash, log: ObjectLog, f: Folder, f': Folder) {
    Hydration(hash, log, f, f', true) || Hydration(hash, log, f, f', false)
  }

  /** An object that is not on disk is still to come, whole, after the cursor; and
      nothing is on disk but what was stored. */
  ghost predicate Recoverable(d: Depot) {
    && From(d.folder) <= |d.log|
    && (forall o :: o in d.stored ==> o.oid in d.folder.disk || Owed(Unread(d.log, From(d.folder)), o))
    && (forall oid :: oid in d.folder.disk ==> GitObject(oid, d.folder.disk[oid].0, d.folder.disk[oid].1) in d.stored)
  }

  lemma VisibleParts(log: ObjectLog, from: nat)
    requires from <= |log|
    ensures Visible(log) == Visible(log[..from]) + Unread(log, from)
  {
    assert log == log[..from] + log[from..];
    VisibleAppend(log[..from], log[from..]);
  }

  lemma SuffixIsHonest(log: ObjectLog, stored: set<GitObject>, from: nat)
    requires Honest(Visible(log), stored) && from <= |log|
    ensures Honest(Unread(log, from), stored)
  {
    VisibleParts(log, from);
    TailIsHonest(Visible(log[..from]), Unread(log, from), stored);
  }

  lemma TailIsHonest(a: seq<ObjectRecord>, b: seq<ObjectRecord>, stored: set<GitObject>)
    requires Honest(a + b, stored)
    ensures Honest(b, stored)
  {
    forall k | 0 <= k < |b| ensures OfStored(Read(b[k]), stored) {
      assert (a + b)[|a| + k] == b[k];
    }
  }

  lemma LaterOwes(a: seq<ObjectRecord>, b: seq<ObjectRecord>, o: GitObject)
    requires Owed(b, o)
    ensures Owed(a + b, o)
  {
    forall i | 0 <= i < RecordsIn(o) ensures Says(a + b, NthMeaning(o, i)) {
      assert Says(b, NthMeaning(o, i));
      var k :| 0 <= k < |b| && Read(b[k]) == NthMeaning(o, i);
      assert (a + b)[|a| + k] == b[k];
    }
  }

  lemma EarlierOwesMore(log: ObjectLog, o: GitObject, from: nat, to: nat)
    requires from <= to <= |log| && Owed(Unread(log, to), o)
    ensures Owed(Unread(log, from), o)
  {
    assert log[from..] == log[from..to] + log[to..];
    VisibleAppend(log[from..to], log[to..]);
    LaterOwes(Visible(log[from..to]), Unread(log, to), o);
  }

  lemma FolderGoneKeeps(hash: Hash, d: Depot, f: Folder)
    requires Sound(hash, d.log, d.stored) && Recoverable(d)
    requires f == NO_FOLDER || (f.disk == d.folder.disk && From(f) <= From(d.folder))
    ensures Recoverable(d.(folder := f))
  {
    assert d.log[0..] == d.log;
    forall o | o in d.stored ensures o.oid in f.disk || Owed(Unread(d.log, From(f)), o) {
      if o.oid in d.folder.disk && f != NO_FOLDER {
      } else if f != NO_FOLDER {
        EarlierOwesMore(d.log, o, From(f), From(d.folder));
      }
    }
  }

  lemma HydrationKeeps(hash: Hash, d: Depot, f: Folder, done: bool)
    requires Sound(hash, d.log, d.stored) && Recoverable(d) && Hydration(hash, d.log, d.folder, f, done)
    ensures Recoverable(d.(folder := f))
    ensures done ==> forall o :: o in d.stored ==> o.oid in f.disk
  {
    var from := From(d.folder);
    SuffixIsHonest(d.log, d.stored, from);
    forall oid | oid in f.disk ensures GitObject(oid, f.disk[oid].0, f.disk[oid].1) in d.stored {
      if oid !in d.folder.disk {
        YieldsOnlyStored(Unread(d.log, from), d.stored, GitObject(oid, f.disk[oid].0, f.disk[oid].1));
      }
    }
    if done {
      forall o | o in d.stored ensures o.oid in f.disk {
        if o.oid !in d.folder.disk { OwedIsYielded(Unread(d.log, from), d.stored, o); }
      }
    }
  }

  lemma GrowthKeeps(d: Depot, d': Depot)
    requires Recoverable(d) && d'.folder == d.folder && Grows(d.log, d.stored, d'.log, d'.stored)
    ensures Recoverable(d')
  {
    forall o | o in d'.stored ensures o.oid in d'.folder.disk || Owed(Unread(d'.log, From(d'.folder)), o) {
      if o !in d.stored {
        EarlierOwesMore(d'.log, o, From(d.folder), |d.log|);
      }
    }
  }

  lemma HappeningKeeps(hash: Hash, d: Depot, d': Depot)
    requires Sound(hash, d.log, d.stored) && Recoverable(d) && Happens(hash, d, d')
    ensures Sound(hash, d'.log, d'.stored) && Recoverable(d')
  {
    if d'.folder == d.folder && Sound(hash, d'.log, d'.stored) && Grows(d.log, d.stored, d'.log, d'.stored) {
      GrowthKeeps(d, d');
    } else if d' == d.(folder := d'.folder) && Hydration(hash, d.log, d.folder, d'.folder, true) {
      HydrationKeeps(hash, d, d'.folder, true);
    } else if d' == d.(folder := d'.folder) && Hydration(hash, d.log, d.folder, d'.folder, false) {
      HydrationKeeps(hash, d, d'.folder, false);
    } else {
      FolderGoneKeeps(hash, d, d'.folder);
    }
  }

  ghost predicate IsSchedule(hash: Hash, ds: seq<Depot>) {
    && ds != [] && Sound(hash, ds[0].log, ds[0].stored) && ds[0].folder == NO_FOLDER
    && forall k :: 0 < k < |ds| ==> Happens(hash, ds[k - 1], ds[k])
  }

  lemma {:induction false} ScheduleKeeps(hash: Hash, ds: seq<Depot>, k: nat)
    requires IsSchedule(hash, ds) && k < |ds|
    ensures Sound(hash, ds[k].log, ds[k].stored) && Recoverable(ds[k])
  {
    if k == 0 {
      assert ds[0].log[0..] == ds[0].log;
    } else {
      ScheduleKeeps(hash, ds, k - 1);
      HappeningKeeps(hash, ds[k - 1], ds[k]);
    }
  }

  /** Just the stored objects, each under its id. */
  ghost predicate IsImage(disk: Disk, stored: set<GitObject>) {
    && (forall o :: o in stored ==> o.oid in disk && disk[o.oid] == (o.kind, o.content))
    && (forall oid :: oid in disk ==> GitObject(oid, disk[oid].0, disk[oid].1) in stored)
  }

  /** After any schedule whatever, one hydration that runs to its end leaves exactly
      the objects stored, and a hydration from scratch leaves the same. */
  lemma AnyScheduleThenHydrate(hash: Hash, ds: seq<Depot>, f: Folder, scratch: Folder)
    requires IsSchedule(hash, ds)
    requires var d := ds[|ds| - 1]; Hydration(hash, d.log, d.folder, f, true) && Hydration(hash, d.log, NO_FOLDER, scratch, true)
    ensures IsImage(f.disk, ds[|ds| - 1].stored) && f == scratch
  {
    var d := ds[|ds| - 1];
    ScheduleKeeps(hash, ds, |ds| - 1);
    HydrationKeeps(hash, d, f, true);
    FolderGoneKeeps(hash, d, NO_FOLDER);
    HydrationKeeps(hash, d.(folder := NO_FOLDER), scratch, true);
    ImageOf(d.(folder := f));
    ImageOf(d.(folder := scratch));
    OneImage(f.disk, scratch.disk, d.stored);
  }

  lemma OneImage(a: Disk, b: Disk, stored: set<GitObject>)
    requires IsImage(a, stored) && IsImage(b, stored)
    ensures a == b
  {
    assert forall oid :: oid in a ==> GitObject(oid, a[oid].0, a[oid].1) in stored && oid in b && b[oid] == a[oid];
    assert forall oid :: oid in b ==> GitObject(oid, b[oid].0, b[oid].1) in stored && oid in a;
    assert a.Keys == b.Keys;
  }

  lemma ImageOf(d: Depot)
    requires Distinct(d.stored) && Recoverable(d) && forall o :: o in d.stored ==> o.oid in d.folder.disk
    ensures IsImage(d.folder.disk, d.stored)
  {
    var disk := d.folder.disk;
    forall o | o in d.stored ensures disk[o.oid] == (o.kind, o.content) {
      assert GitObject(o.oid, disk[o.oid].0, disk[o.oid].1) in d.stored;
    }
  }

  ghost predicate Genuinely(disk: Disk, hash: Hash) {
    forall oid :: oid in disk ==> hash(disk[oid].0, disk[oid].1) == oid
  }

  /** What can happen to a folder when nothing is known of the topic: a hydration from
      any records at all, a lost or altered cursor, destruction. */
  ghost predicate FolderHappens(hash: Hash, log: ObjectLog, f: Folder, f': Folder) {
    HydrationHappens(hash, log, f, f') || f'.disk == f.disk || f' == NO_FOLDER
  }

  /** Whatever the topics hold, honest or not, at every moment every object on disk
      hashes to its id. */
  lemma {:induction false} DiskHashes(hash: Hash, logs: seq<ObjectLog>, fs: seq<Folder>, k: nat)
    requires |fs| == |logs| + 1 && k < |fs| && fs[0] == NO_FOLDER
    requires forall i :: 0 <= i < |logs| ==> FolderHappens(hash, logs[i], fs[i], fs[i + 1])
    ensures Genuinely(fs[k].disk, hash)
  {
    if k > 0 {
      DiskHashes(hash, logs, fs, k - 1);
      assert FolderHappens(hash, logs[k - 1], fs[k - 1], fs[k - 1 + 1]);
    }
  }

  // ---- How topics grow ----

  /** Appending a transaction of whole objects is growth. */
  lemma AppendGrows(log: ObjectLog, stored: set<GitObject>, tail: ObjectLog, new': set<GitObject>)
    requires forall o :: o in new' ==> Owed(Visible(tail), o)
    ensures Grows(log, stored, log + tail, stored + new')
  {
    forall c: nat, o | c <= |log| && o in stored && Owed(Unread(log, c), o) ensures Owed(Unread(log + tail, c), o) {
      assert (log + tail)[c..] == log[c..] + tail;
      VisibleAppend(log[c..], tail);
      MoreSays(Unread(log, c), Visible(tail), o);
    }
    assert (log + tail)[|log|..] == tail;
  }

  lemma MoreSays(a: seq<ObjectRecord>, b: seq<ObjectRecord>, o: GitObject)
    requires Owed(a, o)
    ensures Owed(a + b, o)
  {
    forall i | 0 <= i < RecordsIn(o) ensures Says(a + b, NthMeaning(o, i)) {
      assert Says(a, NthMeaning(o, i));
      var k :| 0 <= k < |a| && Read(a[k]) == NthMeaning(o, i);
      assert (a + b)[k] == a[k];
    }
  }

  lemma {:induction false} VisibleHas(log: ObjectLog, r: ObjectRecord)
    ensures r in Visible(log) <==> exists i :: 0 <= i < |log| && log[i] == Stored(r)
  {
    if log != [] {
      var init := log[..|log| - 1];
      VisibleHas(init, r);
      if i :| 0 <= i < |log| && log[i] == Stored(r) {
        assert i == |log| - 1 || init[i] == log[i];
      }
      if i :| 0 <= i < |init| && init[i] == Stored(r) {
        assert log[i] == Stored(r);
      }
    }
  }

  /** So is compaction, which blanks a record once the same one stands further on: the
      records of an object are the same whenever they are written. */
  lemma CompactionGrows(log: ObjectLog, stored: set<GitObject>, i: nat, j: nat)
    requires i < j < |log| && log[i].Stored? && log[j] == log[i]
    ensures Grows(log, stored, log[i := Control], stored)
  {
    var log' := log[i := Control];
    forall c: nat, o | c <= |log| && o in stored && Owed(Unread(log, c), o) ensures Owed(Unread(log', c), o) {
      forall n | 0 <= n < RecordsIn(o) ensures Says(Unread(log', c), NthMeaning(o, n)) {
        assert Says(Unread(log, c), NthMeaning(o, n));
        var k :| 0 <= k < |Unread(log, c)| && Read(Unread(log, c)[k]) == NthMeaning(o, n);
        StillThere(log, i, j, c, Unread(log, c)[k]);
      }
    }
  }

  lemma StillThere(log: ObjectLog, i: nat, j: nat, c: nat, r: ObjectRecord)
    requires i < j < |log| && log[i].Stored? && log[j] == log[i] && c <= |log| && r in Unread(log, c)
    ensures r in Unread(log[i := Control], c)
  {
    var log' := log[i := Control];
    VisibleHas(log[c..], r);
    VisibleHas(log'[c..], r);
    var k :| 0 <= k < |log[c..]| && log[c..][k] == Stored(r);
    var p := if c + k == i then j else c + k;
    assert log'[c..][p - c] == Stored(r);
  }

  /** What a tombstone keeps off the disk, for every topic: a finished hydration adds an
      object exactly if its one frame is among the unread records, tombstones or no, or
      its manifest and every part are, all after the last tombstone of its id. What is
      on disk already stays there. */
  lemma TombstonesKeepOff(hash: Hash, log: ObjectLog, stored: set<GitObject>, f: Folder, f': Folder, o: GitObject)
    requires Hydration(hash, log, f, f', true)
    requires HonestWithTombstones(Unread(log, From(f)), stored) && Distinct(stored) && o in stored
    ensures o.oid in f'.disk <==> o.oid in f.disk || Complete(Unread(log, From(f)), o)
  {
    var rs := Unread(log, From(f));
    YieldsTheComplete(rs, stored, o);
    if o.oid in f'.disk && o.oid !in f.disk {
      YieldsTheComplete(rs, stored, GitObject(o.oid, f'.disk[o.oid].0, f'.disk[o.oid].1));
    }
  }

  /** So a tombstone does not reach a whole object read before it in the same pass. */
  lemma {:induction false} TombstoneComesTooLate(o: GitObject)
    requires |o.content| <= CHUNK
    ensures var rs := [NthRecord(o, 0), ObjectRecord(ObjectKey(o.oid), None)];
      Read(rs[1]) == IsTombstone(o.oid) && Yields(Absorbed(rs), o)
  {
    var rs := [NthRecord(o, 0), ObjectRecord(ObjectKey(o.oid), None)];
    RecordsRead(o, 0);
    ObjectKeyParses(o.oid);
    assert rs[..1] == [rs[0]] && [rs[0]][..0] == [];
    assert Absorbed([rs[0]]) == Absorb(EMPTY, Read(rs[0]));
    assert o in Absorbed([rs[0]]).pending;
    assert Absorbed(rs) == Absorb(Absorbed([rs[0]]), IsTombstone(o.oid));
  }
}
