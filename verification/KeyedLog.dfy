/** A compacted topic, and what replaying it rebuilds.

    A slot holds a record or is invisible to readers: a control batch, a record of
    an aborted transaction, or a record that compaction has taken away. Compaction
    blanks slots and never moves them, so offsets keep their meaning. */
module KeyedLog {
  import opened Base

  /** What reading one record does to the value under its key. A value that does
      not parse is skipped. */
  datatype Change<V> = Assign(v: V) | Erase | Skip

  datatype Slot<V> = Hidden | Entry(key: string, change: Change<V>)

  function Read<V>(m: map<string, V>, s: Slot<V>): map<string, V> {
    match s
    case Hidden => m
    case Entry(k, Assign(v)) => m[k := v]
    case Entry(k, Erase) => m - {k}
    case Entry(_, Skip) => m
  }

  function Replay<V>(log: seq<Slot<V>>, m: map<string, V>): map<string, V> {
    if log == [] then m else Read(Replay(log[..|log| - 1], m), log[|log| - 1])
  }

  ghost predicate Readable<V>(log: seq<Slot<V>>) {
    forall i :: 0 <= i < |log| && log[i].Entry? ==> !log[i].change.Skip?
  }

  /** A record of the key that a reader can parse. */
  ghost predicate Decides<V>(s: Slot<V>, k: string) {
    s.Entry? && s.key == k && !s.change.Skip?
  }

  ghost predicate HasKey<V>(s: Slot<V>, k: string) {
    s.Entry? && s.key == k
  }

  /** A later record of the same key is still there. */
  ghost predicate Superseded<V>(log: seq<Slot<V>>, i: nat)
    requires i < |log|
  {
    log[i].Entry? && exists j :: i < j < |log| && HasKey(log[j], log[i].key)
  }

  /** A tombstone with nothing left to delete, which no reader has yet to reach:
      the broker keeps tombstones for longer than a replay takes. */
  ghost predicate SpentTombstone<V>(log: seq<Slot<V>>, i: nat, cursors: set<nat>)
    requires i < |log|
  {
    && log[i].Entry? && log[i].change.Erase?
    && (forall j :: 0 <= j < i ==> !HasKey(log[j], log[i].key))
    && (forall c :: c in cursors ==> i < c)
  }

  ghost predicate MayBlank<V>(log: seq<Slot<V>>, i: nat, cursors: set<nat>)
    requires i < |log|
  {
    Superseded(log, i) || SpentTombstone(log, i, cursors)
  }

  function Blank<V>(log: seq<Slot<V>>, i: nat): seq<Slot<V>>
    requires i < |log|
  {
    log[i := Hidden]
  }

  lemma {:induction false} ReplayAppend<V>(a: seq<Slot<V>>, b: seq<Slot<V>>, m: map<string, V>)
    ensures Replay(a + b, m) == Replay(b, Replay(a, m))
  {
    if b == [] {
      assert a + b == a;
    } else {
      var n := |b| - 1;
      assert (a + b)[..|a + b| - 1] == a + b[..n];
      ReplayAppend(a, b[..n], m);
    }
  }

  lemma ReplaySplit<V>(log: seq<Slot<V>>, i: nat, m: map<string, V>)
    requires i <= |log|
    ensures Replay(log, m) == Replay(log[i..], Replay(log[..i], m))
  {
    assert log == log[..i] + log[i..];
    ReplayAppend(log[..i], log[i..], m);
  }

  lemma ReadAway<V>(a: map<string, V>, b: map<string, V>, s: Slot<V>, k: string)
    requires a - {k} == b - {k}
    ensures Read(a, s) - {k} == Read(b, s) - {k}
    ensures HasKey(s, k) && !s.change.Skip? ==> Read(a, s) == Read(b, s)
  {
    forall q ensures Get(Read(a, s) - {k}, q) == Get(Read(b, s) - {k}, q) {
      assert Get(a - {k}, q) == Get(b - {k}, q);
    }
    MapsAgree(Read(a, s) - {k}, Read(b, s) - {k});
    if HasKey(s, k) && !s.change.Skip? {
      forall q ensures Get(Read(a, s), q) == Get(Read(b, s), q) {
        assert Get(a - {k}, q) == Get(b - {k}, q);
      }
      MapsAgree(Read(a, s), Read(b, s));
    }
  }

  /** Maps that differ at most at one key still do after any replay, and no longer
      differ once a record of that key has been read. */
  lemma {:induction false} ReplayForgets<V>(log: seq<Slot<V>>, a: map<string, V>, b: map<string, V>, k: string)
    requires a - {k} == b - {k}
    ensures Replay(log, a) - {k} == Replay(log, b) - {k}
    ensures (exists j :: 0 <= j < |log| && Decides(log[j], k)) ==> Replay(log, a) == Replay(log, b)
    ensures (forall j :: 0 <= j < |log| ==> !Decides(log[j], k)) ==> Get(Replay(log, a), k) == Get(a, k)
  {
    if log != [] {
      var n := |log| - 1;
      ReplayForgets(log[..n], a, b, k);
      ReadAway(Replay(log[..n], a), Replay(log[..n], b), log[n], k);
      if j :| 0 <= j < n && Decides(log[j], k) {
        assert Decides(log[..n][j], k);
      } else {
        assert forall j :: 0 <= j < n ==> !Decides(log[..n][j], k);
        assert !Decides(log[n], k) ==> Get(Read(Replay(log[..n], a), log[n]), k) == Get(Replay(log[..n], a), k);
      }
    }
  }

  lemma {:induction false} ReplayNeverMakes<V>(log: seq<Slot<V>>, m: map<string, V>, k: string)
    requires k !in m && forall j :: 0 <= j < |log| ==> !HasKey(log[j], k)
    ensures k !in Replay(log, m)
  {
    if log != [] {
      ReplayNeverMakes(log[..|log| - 1], m, k);
      assert !HasKey(log[|log| - 1], k);
    }
  }

  lemma ReadOne<V>(s: Slot<V>, m: map<string, V>)
    ensures Replay([s], m) == Read(m, s)
  {
    assert [s][..0] == [];
  }

  lemma ReplayAround<V>(log: seq<Slot<V>>, o: nat, i: nat, m: map<string, V>)
    requires o <= i < |log|
    ensures Replay(log[o..], m) == Replay(log[i + 1..], Read(Replay(log[o..i], m), log[i]))
  {
    assert log[o..] == (log[o..i] + [log[i]]) + log[i + 1..];
    ReplayAppend(log[o..i] + [log[i]], log[i + 1..], m);
    ReplayAppend(log[o..i], [log[i]], m);
    ReadOne(log[i], Replay(log[o..i], m));
  }

  /** Compaction under a reader's feet: whatever it has read so far, the rest of the
      replay ends with the same map. */
  lemma BlankKeepsReplay<V>(log: seq<Slot<V>>, i: nat, cursors: set<nat>, o: nat, m: map<string, V>)
    requires i < |log| && o <= |log| && Readable(log) && MayBlank(log, i, cursors)
    requires o in cursors || Superseded(log, i) || (o == 0 && m == map[])
    ensures Replay(Blank(log, i)[o..], m) == Replay(log[o..], m)
  {
    var blanked := Blank(log, i);
    if i < o {
      assert blanked[o..] == log[o..];
    } else {
      ReplayAround(log, o, i, m);
      ReplayAround(blanked, o, i, m);
      assert blanked[o..i] == log[o..i] && blanked[i + 1..] == log[i + 1..];
      var at := Replay(log[o..i], m);
      if Superseded(log, i) {
        SupersededIsForgotten(log, i, at);
      } else {
        NothingToErase(log, o, i, m);
      }
    }
  }

  lemma SupersededIsForgotten<V>(log: seq<Slot<V>>, i: nat, at: map<string, V>)
    requires i < |log| && Readable(log) && Superseded(log, i)
    ensures Replay(log[i + 1..], Read(at, log[i])) == Replay(log[i + 1..], at)
  {
    var k := log[i].key;
    var j :| i < j < |log| && HasKey(log[j], k);
    assert Decides(log[i + 1..][j - i - 1], k);
    assert Read(at, log[i]) - {k} == at - {k};
    ReplayForgets(log[i + 1..], Read(at, log[i]), at, k);
  }

  lemma NothingToErase<V>(log: seq<Slot<V>>, o: nat, i: nat, m: map<string, V>)
    requires o == 0 <= i < |log| && m == map[] && log[i].Entry? && log[i].change.Erase?
    requires forall j :: 0 <= j < i ==> !HasKey(log[j], log[i].key)
    ensures Read(Replay(log[o..i], m), log[i]) == Replay(log[o..i], m)
  {
    ReplayNeverMakes(log[o..i], m, log[i].key);
  }

  /** Taking any one record away leaves the replay as it was exactly if a later record
      of its key can be parsed, or it changed nothing when it was read. Compaction
      looks only for a later record, parsed or not. */
  lemma BlankIsHarmlessWhen<V>(log: seq<Slot<V>>, i: nat)
    requires i < |log| && log[i].Entry?
    ensures Replay(Blank(log, i), map[]) == Replay(log, map[]) <==>
              || (exists j :: i < j < |log| && Decides(log[j], log[i].key))
              || Read(Replay(log[..i], map[]), log[i]) == Replay(log[..i], map[])
  {
    var (k, rest, at, blanked) := (log[i].key, log[i + 1..], Replay(log[..i], map[]), Blank(log, i));
    var read := Read(at, log[i]);
    ReplayAround(log, 0, i, map[]);
    ReplayAround(blanked, 0, i, map[]);
    assert log[0..] == log && blanked[0..] == blanked && blanked[0..i] == log[..i] == log[0..i] && blanked[i + 1..] == rest;
    assert read - {k} == at - {k};
    ReplayForgets(rest, read, at, k);
    ReplayForgets(rest, at, read, k);
    assert forall j :: i < j < |log| ==> rest[j - i - 1] == log[j];
    if forall j :: i < j < |log| ==> !Decides(log[j], k) {
      assert forall j :: 0 <= j < |rest| ==> !Decides(rest[j], k) by {
        assert forall j :: 0 <= j < |rest| ==> rest[j] == log[i + 1 + j];
      }
      if Get(read, k) == Get(at, k) {
        SameBut(read, at, k);
      }
    } else {
      var j :| i < j < |log| && Decides(log[j], k);
      assert Decides(rest[j - i - 1], k);
    }
  }

  lemma SameBut<V>(a: map<string, V>, b: map<string, V>, k: string)
    requires a - {k} == b - {k} && Get(a, k) == Get(b, k)
    ensures a == b
  {
    forall q ensures Get(a, q) == Get(b, q) {
      assert Get(a - {k}, q) == Get(b - {k}, q);
    }
    MapsAgree(a, b);
  }

  /** Compaction looks only at keys, so a later record that the reader cannot parse
      takes a readable one with it: the replay of the compacted topic then differs. */
  lemma CompactionLosesUnreadable()
    ensures exists log: seq<Slot<int>>, i: nat ::
      i < |log| && MayBlank(log, i, {}) && Replay(Blank(log, i), map[]) != Replay(log, map[])
  {
    var log: seq<Slot<int>> := [Entry("k", Assign(1)), Entry("k", Skip)];
    assert HasKey(log[1], "k") && Superseded(log, 0) && MayBlank(log, 0, {});
    assert log[..1] == [log[0]] && Blank(log, 0)[..1] == [Hidden];
    ReadOne(log[0], map[]);
    ReadOne<int>(Hidden, map[]);
    assert "k" in Replay(log, map[]) && "k" !in Replay(Blank(log, 0), map[]);
  }
}
