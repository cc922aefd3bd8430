/** One repository's references out of the flat map, and into git's own. */
module RefMirror {
  import opened Base
  import opened Commands

  type Listing = seq<(string, Oid)>

  // ---- Listing a repository ----

  /** Names in the order strings sort. */
  predicate Less(a: string, b: string) {
    b != [] && (a == [] || a[0] < b[0] || (a[0] == b[0] && Less(a[1..], b[1..])))
  }

  lemma {:induction false} LessIsTotal(a: string, b: string)
    ensures a == b || Less(a, b) || Less(b, a)
  {
    if a != [] && b != [] && a[0] == b[0] {
      LessIsTotal(a[1..], b[1..]);
    }
  }

  lemma {:induction false} LessIsTransitive(a: string, b: string, c: string)
    requires Less(a, b) && Less(b, c)
    ensures Less(a, c)
  {
    if a != [] && a[0] == b[0] && b[0] == c[0] {
      LessIsTransitive(a[1..], b[1..], c[1..]);
    }
  }

  lemma {:induction false} LessIsStrict(a: string)
    ensures !Less(a, a)
  {
    if a != [] { LessIsStrict(a[1..]); }
  }

  predicate Ascending(s: Listing) {
    forall i, j :: 0 <= i < j < |s| ==> Less(s[i].0, s[j].0)
  }

  predicate Fresh(s: Listing, name: string) {
    forall i :: 0 <= i < |s| ==> s[i].0 != name
  }

  method Insert(s: Listing, e: (string, Oid)) returns (r: Listing)
    requires Ascending(s) && Fresh(s, e.0)
    ensures Ascending(r) && forall x :: x in r <==> x in s || x == e
  {
    var i := 0;
    while i < |s| && Less(s[i].0, e.0)
      invariant i <= |s| && forall k :: 0 <= k < i ==> Less(s[k].0, e.0)
    {
      i := i + 1;
    }
    forall k | i <= k < |s| ensures Less(e.0, s[k].0) {
      LessIsTotal(s[i].0, e.0);
      if i < k { LessIsTransitive(e.0, s[i].0, s[k].0); }
    }
    r := s[..i] + [e] + s[i..];
    assert s == s[..i] + s[i..];
  }

  /** The references of one repository, sorted by name. */
  method ForRepo(refs: map<string, Oid>, repo: Id) returns (out: Listing)
    ensures Ascending(out)
    ensures forall name, oid :: (name, oid) in out <==> GetRef(refs, repo, name) == Some(oid)
  {
    var prefix := repo + "/";
    var rest := refs.Keys;
    out := [];
    while rest != {}
      invariant rest <= refs.Keys && Ascending(out)
      invariant forall e :: e in out <==> RefKey(repo, e.0) in refs && RefKey(repo, e.0) !in rest && refs[RefKey(repo, e.0)] == e.1
      decreases |rest|
    {
      var key :| key in rest;
      ghost var before := rest;
      rest := rest - {key};
      if prefix <= key {
        var name := key[|prefix|..];
        assert key == prefix + name == RefKey(repo, name);
        forall i | 0 <= i < |out| ensures out[i].0 != name {
          assert out[i] in out;
        }
        ghost var had := out;
        out := Insert(out, (name, refs[key]));
        forall e ensures e in out <==> RefKey(repo, e.0) in refs && RefKey(repo, e.0) !in rest && refs[RefKey(repo, e.0)] == e.1 {
          RefKeyInjective(repo, e.0, repo, name);
        }
      } else {
        forall e: (string, Oid) ensures RefKey(repo, e.0) != key {
          assert prefix <= RefKey(repo, e.0);
        }
      }
    }
  }

  // ---- Mirroring into git ----

  /** One name is a directory of the other: git keeps no two such references. */
  predicate Clash(a: string, b: string) {
    a + "/" <= b || b + "/" <= a
  }

  /** The part of a name before its k-th character, which is a slash. */
  predicate IsDirectory(a: string, k: nat, b: string) {
    k < |a| && a[k] == '/' && b == a[..k]
  }

  lemma ClashMeans(a: string, b: string)
    ensures Clash(a, b) <==> exists k: nat :: IsDirectory(a, k, b) || IsDirectory(b, k, a)
  {
    if a + "/" <= b { assert (a + "/")[|a|] == '/' && b[..|a|] == a && IsDirectory(b, |a|, a); }
    if b + "/" <= a { assert (b + "/")[|b|] == '/' && a[..|b|] == b && IsDirectory(a, |b|, b); }
    if k: nat :| IsDirectory(a, k, b) || IsDirectory(b, k, a) {
      if IsDirectory(a, k, b) { assert b + "/" == a[..k + 1]; } else { assert a + "/" == b[..k + 1]; }
    }
  }

  function AsMap(s: Listing): map<string, Oid> {
    if s == [] then map[] else AsMap(s[..|s| - 1])[s[|s| - 1].0 := s[|s| - 1].1]
  }

  predicate DistinctNames(s: Listing) {
    forall i, j :: 0 <= i < j < |s| ==> s[i].0 != s[j].0
  }

  lemma {:induction false} AsMapHas(s: Listing, name: string)
    requires DistinctNames(s)
    ensures forall e :: e in s && e.0 == name ==> name in AsMap(s) && AsMap(s)[name] == e.1
    ensures name in AsMap(s) ==> (name, AsMap(s)[name]) in s
    ensures name in AsMap(s) <==> !Fresh(s, name)
  {
    if s != [] {
      var (init, last) := (s[..|s| - 1], s[|s| - 1]);
      AsMapHas(init, name);
      assert s == init + [last];
      FreshNext(s, |s| - 1, name);
      assert s[..|s| - 1 + 1] == s;
    }
  }

  lemma AscendingIsDistinct(s: Listing)
    requires Ascending(s)
    ensures DistinctNames(s)
  {
    forall i, j | 0 <= i < j < |s| ensures s[i].0 != s[j].0 { LessIsStrict(s[i].0); }
  }

  /** Setting the i-th name would clash with what is there by then. */
  ghost predicate Blocked(existing: map<string, Oid>, canonical: Listing, i: nat)
    requires i < |canonical|
  {
    && canonical[i] !in Entries(existing)
    && exists name :: (name in existing || !Fresh(canonical[..i], name)) && Clash(name, canonical[i].0)
  }

  ghost predicate AnyBlocked(existing: map<string, Oid>, canonical: Listing) {
    exists i :: 0 <= i < |canonical| && Blocked(existing, canonical, i)
  }

  ghost function Entries(m: map<string, Oid>): iset<(string, Oid)> {
    iset e: (string, Oid) | e.0 in m && m[e.0] == e.1
  }

  class GitRefs {
    var refs: map<string, Oid>
    var head: string

    constructor (refs: map<string, Oid>, head: string)
      ensures this.refs == refs && this.head == head
    {
      this.refs, this.head := refs, head;
    }

    /** update-ref, which git refuses if the name clashes with another. */
    method SetRef(name: string, oid: Oid) returns (ok: bool)
      modifies this`refs
      ensures ok <==> forall n :: n in old(refs) ==> !Clash(n, name)
      ensures refs == if ok then old(refs)[name := oid] else old(refs)
    {
      ok := forall n :: n in refs ==> !Clash(n, name);
      if ok {
        refs := refs[name := oid];
      }
    }

    /** Make the references match the canonical ones, deleting any others, and point
        HEAD at the default branch if there is one. It works exactly when no name to be
        set is a directory of one already there, or the other way round: deletions come
        last. Where it does not work it will not work the next time either. */
    method SyncRefs(canonical: Listing, listed: Listing, defaultBranch: string) returns (ok: bool)
      requires DistinctNames(canonical) && DistinctNames(listed) && AsMap(listed) == refs
      modifies this
      ensures ok <==> !AnyBlocked(old(refs), canonical)
      ensures ok ==> refs == AsMap(canonical)
      ensures ok ==> head == if BranchRef(defaultBranch) in AsMap(canonical) then BranchRef(defaultBranch) else old(head)
      ensures !ok ==> head == old(head) && AnyBlocked(refs, canonical)
    {
      for i := 0 to |canonical|
        invariant head == old(head)
        invariant forall k :: 0 <= k < i ==> !Blocked(old(refs), canonical, k)
        invariant Written(old(refs), canonical[..i], refs)
      {
        var (name, oid) := canonical[i];
        WrittenNext(old(refs), canonical, i, refs);
        AsMapHas(listed, name);
        if canonical[i] !in listed {
          ok := SetRef(name, oid);
          if !ok {
            StaysBlocked(old(refs), canonical, i, refs);
            return false;
          }
        }
      }
      assert canonical[..|canonical|] == canonical;
      DeleteOthers(canonical, listed, old(refs));
      if BranchRef(defaultBranch) in AsMap(canonical) {
        head := BranchRef(defaultBranch);
      }
      ok := true;
    }

    /** Delete what is not canonical. */
    method DeleteOthers(canonical: Listing, existing: Listing, ghost before: map<string, Oid>)
      requires DistinctNames(canonical) && DistinctNames(existing) && AsMap(existing) == before
      requires Written(before, canonical, refs)
      modifies this`refs
      ensures refs == AsMap(canonical)
    {
      ghost var start := refs;
      for i := 0 to |existing|
        invariant forall n :: Get(refs, n) == if n in AsMap(canonical) then Some(AsMap(canonical)[n]) else if Fresh(existing[..i], n) then Get(start, n) else None
      {
        var name := existing[i].0;
        AsMapHas(canonical, name);
        if Fresh(canonical, name) {
          refs := refs - {name};
        }
        forall n ensures Fresh(existing[..i + 1], n) <==> Fresh(existing[..i], n) && n != name {
          FreshNext(existing, i, n);
        }
      }
      assert existing[..|existing|] == existing;
      forall n ensures Get(refs, n) == Get(AsMap(canonical), n) {
        AsMapHas(existing, n);
        assert n in start ==> n in before || n in AsMap(canonical);
      }
      MapsAgree(refs, AsMap(canonical));
    }
  }

  /** After the first loop: canonical names have their ids, other names what they had. */
  ghost predicate Written(before: map<string, Oid>, done: Listing, refs: map<string, Oid>) {
    forall n :: Get(refs, n) == if n in AsMap(done) then Some(AsMap(done)[n]) else Get(before, n)
  }

  lemma FreshNext(s: Listing, i: nat, n: string)
    requires i < |s|
    ensures Fresh(s[..i + 1], n) <==> Fresh(s[..i], n) && n != s[i].0
  {
    assert s[..i + 1] == s[..i] + [s[i]];
    if Fresh(s[..i + 1], n) {
      assert s[..i + 1][i].0 != n;
      forall k | 0 <= k < i ensures s[..i][k].0 != n { assert s[..i + 1][k].0 != n; }
    }
  }

  lemma WrittenNext(before: map<string, Oid>, canonical: Listing, i: nat, refs: map<string, Oid>)
    requires i < |canonical| && DistinctNames(canonical) && Written(before, canonical[..i], refs)
    ensures Written(before, canonical[..i + 1], refs[canonical[i].0 := canonical[i].1])
    ensures canonical[i] in Entries(before) ==> Written(before, canonical[..i + 1], refs)
    ensures Blocked(before, canonical, i) <==> canonical[i] !in Entries(before) && exists n :: n in refs && Clash(n, canonical[i].0)
  {
    assert canonical[..i + 1][..i] == canonical[..i];
    forall n ensures n in AsMap(canonical[..i]) <==> !Fresh(canonical[..i], n) {
      AsMapHas(canonical[..i], n);
    }
    assert Fresh(canonical[..i], canonical[i].0);
    forall n ensures n in refs <==> n in before || !Fresh(canonical[..i], n) {
      assert n in refs <==> Get(refs, n).Some?;
    }
  }

  /** A name in the cache, or in the log. */
  predicate Named(refs: map<string, Oid>, flat: map<string, Oid>, repo: Id, name: string) {
    name in refs || GetRef(flat, repo, name).Some?
  }

  /** A cache whose references were synchronized says of every name what the log says,
      whatever it said before. */
  method MirrorRepo(flat: map<string, Oid>, repo: Id, git: GitRefs, listed: Listing, defaultBranch: string) returns (ok: bool)
    requires DistinctNames(listed) && AsMap(listed) == git.refs
    modifies git
    ensures ok ==> forall name :: Get(git.refs, name) == GetRef(flat, repo, name)
    ensures ok ==> git.head == if GetRef(flat, repo, "refs/heads/" + defaultBranch).Some? then "refs/heads/" + defaultBranch else old(git.head)
    ensures (forall a, b :: Named(old(git.refs), flat, repo, a) && Named(old(git.refs), flat, repo, b) ==> !Clash(a, b)) ==> ok
  {
    var canonical := ForRepo(flat, repo);
    AscendingIsDistinct(canonical);
    ghost var before := git.refs;
    ok := git.SyncRefs(canonical, listed, defaultBranch);
    if !ok && forall a, b :: Named(before, flat, repo, a) && Named(before, flat, repo, b) ==> !Clash(a, b) {
      NothingBlocks(before, canonical, flat, repo);
    }
    forall name ensures Get(AsMap(canonical), name) == GetRef(flat, repo, name) {
      AsMapHas(canonical, name);
      assert forall oid :: (name, oid) in canonical <==> GetRef(flat, repo, name) == Some(oid);
      if GetRef(flat, repo, name).Some? {
        assert (name, GetRef(flat, repo, name).value) in canonical;
      }
      if name in AsMap(canonical) {
        assert (name, AsMap(canonical)[name]) in canonical;
      }
    }
  }

  lemma NothingBlocks(before: map<string, Oid>, canonical: Listing, flat: map<string, Oid>, repo: Id)
    requires forall name, oid :: (name, oid) in canonical <==> GetRef(flat, repo, name) == Some(oid)
    requires forall a, b :: Named(before, flat, repo, a) && Named(before, flat, repo, b) ==> !Clash(a, b)
    ensures !AnyBlocked(before, canonical)
  {
    forall i | 0 <= i < |canonical| ensures !Blocked(before, canonical, i) {
      assert (canonical[i].0, canonical[i].1) in canonical;
      forall n | n in before || !Fresh(canonical[..i], n) ensures !Clash(n, canonical[i].0) {
        if n !in before {
          var k :| 0 <= k < i && canonical[..i][k].0 == n;
          assert (canonical[k].0, canonical[k].1) in canonical;
        }
      }
    }
  }

  lemma StaysBlocked(before: map<string, Oid>, canonical: Listing, i: nat, refs: map<string, Oid>)
    requires i < |canonical| && DistinctNames(canonical) && Written(before, canonical[..i], refs) && Blocked(before, canonical, i)
    ensures AnyBlocked(refs, canonical)
  {
    WrittenNext(before, canonical, i, refs);
    var (name, oid) := canonical[i];
    assert Fresh(canonical[..i], name);
    AsMapHas(canonical[..i], name);
    assert Get(refs, name) == Get(before, name);
    var n :| n in refs && Clash(n, name);
    assert Blocked(refs, canonical, i);
  }

  /** Any branch that gives way to one inside its directory, or the other way round,
      blocks the mirror, whatever else there is: the old name would have to go first. */
  lemma DirectoryInTheWay(existing: map<string, Oid>, canonical: Listing, i: nat, old': string)
    requires i < |canonical| && old' in existing && canonical[i].0 !in existing && Clash(old', canonical[i].0)
    ensures AnyBlocked(existing, canonical)
  {
    assert Blocked(existing, canonical, i);
  }

  /** For one, a branch "a" that became "a/b". */
  lemma BranchBecameDirectory(oid: Oid)
    ensures AnyBlocked(map["refs/heads/a" := oid], [("refs/heads/a/b", oid)])
  {
    assert "refs/heads/a" + "/" == "refs/heads/a/b"[..13];
    DirectoryInTheWay(map["refs/heads/a" := oid], [("refs/heads/a/b", oid)], 0, "refs/heads/a");
  }
}
