/** The frame of a record, and how an object is cut into records and put together
    again. */
module Codec {
  import opened Base
  import opened Frame

  datatype Kind = Commit | Tree | Blob | Tag

  function KindByte(k: Kind): Byte {
    match k case Commit => 1 case Tree => 2 case Blob => 3 case Tag => 4
  }

  function KindOf(b: Byte): Option<Kind> {
    if b == 1 then Some(Commit) else if b == 2 then Some(Tree) else if b == 3 then Some(Blob) else if b == 4 then Some(Tag) else None
  }

  datatype FrameError =
    | TooShort(n: nat) | BadMagic | BadKind(b: Byte)
    | LengthMismatch(claimed: nat, actual: nat)
    | CorruptContent(expected: Oid, found: Oid)
    | MissingChunk(index: nat)

  datatype Decoded =
    | Whole(kind: Kind, content: Bytes)
    | Manifest(kind: Kind, totalLen: nat, chunkCount: nat)
    | Chunk(kind: Kind, data: Bytes)

  // ---- Little-endian numbers ----

  function Le(n: nat, width: nat): (s: Bytes)
    ensures |s| == width
  {
    if width == 0 then [] else [(n % 256) as Byte] + Le(n / 256, width - 1)
  }

  function FromLe(s: Bytes): nat {
    if s == [] then 0 else s[0] as int + 256 * FromLe(s[1..])
  }

  function Pow256(n: nat): nat {
    if n == 0 then 1 else 256 * Pow256(n - 1)
  }

  lemma {:induction false} LeReads(n: nat, width: nat)
    requires n < Pow256(width)
    ensures FromLe(Le(n, width)) == n
  {
    if width > 0 {
      LeReads(n / 256, width - 1);
      assert Le(n, width)[1..] == Le(n / 256, width - 1);
    }
  }

  lemma Powers()
    ensures Pow256(8) == U64 && Pow256(4) == U32
  {
    assert Pow256(4) == 256 * (256 * (256 * (256 * Pow256(0))));
    assert Pow256(8) == 256 * (256 * (256 * (256 * Pow256(4))));
  }

  // ---- Frames ----

  const MAGIC: Bytes := [70, 71, 79, 49]

  const CHUNKED: Byte := 1

  const IS_CHUNK: Byte := 2

  const HEADER := 18

  function Header(kind: Kind, flags: Byte, len: nat, chunkCount: nat): (h: Bytes)
    ensures |h| == HEADER
  {
    MAGIC + [KindByte(kind), flags] + Le(len, 8) + Le(chunkCount, 4)
  }

  function EncodeWhole(kind: Kind, content: Bytes): Bytes {
    Header(kind, 0, |content|, 0) + content
  }

  function EncodeManifest(kind: Kind, totalLen: nat, chunkCount: nat): Bytes {
    Header(kind, CHUNKED, totalLen, chunkCount)
  }

  function EncodeChunk(kind: Kind, data: Bytes): Bytes {
    Header(kind, IS_CHUNK, |data|, 0) + data
  }

  /** Whatever follows a manifest's header is ignored; any other frame has to carry the
      content it claims. */
  function Decode(b: Bytes): Result<Decoded, FrameError> {
    if |b| < HEADER then Err(TooShort(|b|))
    else if b[..4] != MAGIC then Err(BadMagic)
    else if KindOf(b[4]).None? then Err(BadKind(b[4]))
    else
      var (kind, flags, claimed, chunkCount, body) := (KindOf(b[4]).value, b[5] as int, FromLe(b[6..14]), FromLe(b[14..18]), b[18..]);
      if flags % 2 == 1 then Ok(Manifest(kind, claimed, chunkCount))
      else if claimed != |body| then Err(LengthMismatch(claimed, |body|))
      else if flags / 2 % 2 == 1 then Ok(Chunk(kind, body))
      else Ok(Whole(kind, body))
  }

  lemma HeaderReads(kind: Kind, flags: Byte, len: nat, chunkCount: nat, body: Bytes)
    requires len < U64 && chunkCount < U32
    ensures var b := Header(kind, flags, len, chunkCount) + body;
      && |b| >= HEADER && b[..4] == MAGIC && KindOf(b[4]) == Some(kind) && b[5] == flags
      && FromLe(b[6..14]) == len && FromLe(b[14..18]) == chunkCount && b[18..] == body
  {
    var b := Header(kind, flags, len, chunkCount) + body;
    assert b[6..14] == Le(len, 8) && b[14..18] == Le(chunkCount, 4) && b[18..] == body && b[..4] == MAGIC;
    Powers();
    LeReads(len, 8);
    LeReads(chunkCount, 4);
  }

  lemma {:induction false} LeWrites(s: Bytes)
    ensures FromLe(s) < Pow256(|s|) && Le(FromLe(s), |s|) == s
  {
    if s != [] {
      var (b, rest) := (s[0] as int, FromLe(s[1..]));
      LeWrites(s[1..]);
      assert (b + 256 * rest) % 256 == b && (b + 256 * rest) / 256 == rest;
      assert Le(FromLe(s), |s|) == [s[0]] + Le(rest, |s| - 1);
    }
  }

  /** What lies where in a frame, and what a reader makes of the flags. */
  ghost predicate IsFrame(b: Bytes, kind: Kind, flags: Byte, len: nat, count: nat, body: Bytes) {
    len < U64 && count < U32 && b == Header(kind, flags, len, count) + body
  }

  predicate Means(d: Result<Decoded, FrameError>, kind: Kind, flags: Byte, len: nat, count: nat, body: Bytes) {
    if flags as int % 2 == 1 then d == Ok(Manifest(kind, len, count))
    else if len != |body| then d == Err(LengthMismatch(len, |body|))
    else d == Ok(if flags as int % 4 >= 2 then Chunk(kind, body) else Whole(kind, body))
  }

  /** For all bytes: what a reader makes of a header and anything after it, and that it
      makes nothing of any other bytes, and why. */
  lemma DecodesExactlyFrames(b: Bytes)
    ensures forall kind, flags, len, count, body :: IsFrame(b, kind, flags, len, count, body) ==> Means(Decode(b), kind, flags, len, count, body)
    ensures (exists kind, flags, len, count, body :: IsFrame(b, kind, flags, len, count, body)) || Decode(b) == Err(
              if |b| < 18 then TooShort(|b|) else if b[..4] != [70, 71, 79, 49] then BadMagic else BadKind(b[4]))
  {
    forall kind, flags, len, count, body | IsFrame(b, kind, flags, len, count, body) ensures Means(Decode(b), kind, flags, len, count, body) {
      HeaderReads(kind, flags, len, count, body);
    }
    if |b| >= HEADER && b[..4] == MAGIC && KindOf(b[4]).Some? {
      SplitsAsFrame(b);
    }
  }

  lemma SplitsAsFrame(b: Bytes)
    requires |b| >= HEADER && b[..4] == MAGIC && KindOf(b[4]).Some?
    ensures IsFrame(b, KindOf(b[4]).value, b[5], FromLe(b[6..14]), FromLe(b[14..18]), b[18..])
  {
    Powers();
    LeWrites(b[6..14]);
    LeWrites(b[14..18]);
    assert b == b[..4] + [b[4], b[5]] + b[6..14] + b[14..18] + b[18..];
  }

  lemma WholeRoundTrip(kind: Kind, content: Bytes)
    requires |content| < U64
    ensures Decode(EncodeWhole(kind, content)) == Ok(Whole(kind, content))
  {
    HeaderReads(kind, 0, |content|, 0, content);
  }

  lemma ManifestRoundTrip(kind: Kind, totalLen: nat, chunkCount: nat)
    requires totalLen < U64 && chunkCount < U32
    ensures Decode(EncodeManifest(kind, totalLen, chunkCount)) == Ok(Manifest(kind, totalLen, chunkCount))
  {
    HeaderReads(kind, CHUNKED, totalLen, chunkCount, []);
    assert Header(kind, CHUNKED, totalLen, chunkCount) + [] == Header(kind, CHUNKED, totalLen, chunkCount);
  }

  lemma ChunkRoundTrip(kind: Kind, data: Bytes)
    requires |data| < U64
    ensures Decode(EncodeChunk(kind, data)) == Ok(Chunk(kind, data))
  {
    HeaderReads(kind, IS_CHUNK, |data|, 0, data);
  }

  /** A frame cut short is refused, unless the cut leaves a manifest's header whole. */
  lemma TruncatedFrameRefused(kind: Kind, content: Bytes, n: nat)
    requires |content| < U64 && n < HEADER + |content|
    ensures Decode(EncodeWhole(kind, content)[..n]).Err? && Decode(EncodeChunk(kind, content)[..n]).Err?
  {
    if n >= HEADER {
      HeaderReads(kind, 0, |content|, 0, content[..n - HEADER]);
      HeaderReads(kind, IS_CHUNK, |content|, 0, content[..n - HEADER]);
      assert EncodeWhole(kind, content)[..n] == Header(kind, 0, |content|, 0) + content[..n - HEADER];
      assert EncodeChunk(kind, content)[..n] == Header(kind, IS_CHUNK, |content|, 0) + content[..n - HEADER];
    }
  }

  predicate IsKindByte(kind: Kind, b: Byte) {
    (kind.Commit? ==> b == 1) && (kind.Tree? ==> b == 2) && (kind.Blob? ==> b == 3) && (kind.Tag? ==> b == 4)
  }

  /** The layout, byte by byte: magic, kind, flags, length and chunk count, both with the
      lowest byte first. A manifest is flagged 1 and a chunk 2; data follows the header. */
  lemma FrameLayout(kind: Kind, flags: Byte, len: nat, count: nat, data: Bytes)
    requires len < 256 && count < 256
    ensures var b := KindByte(kind);
      IsKindByte(kind, b) && Header(kind, flags, len, count) ==
        [70, 71, 79, 49, b, flags, len as Byte, 0, 0, 0, 0, 0, 0, 0, count as Byte, 0, 0, 0]
    ensures EncodeWhole(kind, data) == Header(kind, 0, |data|, 0) + data
    ensures EncodeChunk(kind, data) == Header(kind, 2, |data|, 0) + data
    ensures EncodeManifest(kind, len, count) == Header(kind, 1, len, count)
  {
    SmallLe(len);
    SmallLe(count);
  }

  lemma LowestFirst()
    ensures Le(5_000_000, 8) == [64, 75, 76, 0, 0, 0, 0, 0]
  {
    ZeroLe(5);
    assert Le(5_000_000, 8) == [64] + ([75] + ([76] + Le(0, 5)));
  }

  lemma {:induction false} ZeroLe(width: nat)
    ensures forall i :: 0 <= i < width ==> Le(0, width)[i] == 0
  {
    if width > 0 { ZeroLe(width - 1); }
  }

  lemma SmallLe(n: nat)
    requires n < 256
    ensures Le(n, 8) == [n as Byte, 0, 0, 0, 0, 0, 0, 0] && Le(n, 4) == [n as Byte, 0, 0, 0]
  {
    ZeroLe(7);
    ZeroLe(3);
    assert Le(n, 8) == [n as Byte] + Le(0, 7) && Le(n, 4) == [n as Byte] + Le(0, 3);
  }

  // ---- Objects ----

  /** 4 MiB. */
  const CHUNK := 4_194_304

  datatype ObjectRecord = ObjectRecord(key: Bytes, value: Option<Bytes>)

  datatype GitObject = GitObject(oid: Oid, kind: Kind, content: Bytes)

  /** Content whose chunks a manifest can count. */
  predicate Countable(content: Bytes) {
    ChunkCount(|content|) < U32
  }

  function ChunkCount(len: nat): (n: nat)
    ensures CHUNK * n >= len && (n > 0 ==> CHUNK * (n - 1) < len)
  {
    (len + CHUNK - 1) / CHUNK
  }

  function Piece(content: Bytes, i: nat): (p: Bytes)
    requires i < ChunkCount(|content|)
    ensures 0 < |p| <= CHUNK
  {
    content[CHUNK * i..Min(CHUNK * (i + 1), |content|)]
  }

  /** The i-th record of an object: a manifest and then its chunks, or the whole. */
  function RecordsIn(o: GitObject): nat {
    if |o.content| <= CHUNK then 1 else 1 + ChunkCount(|o.content|)
  }

  function NthRecord(o: GitObject, i: nat): ObjectRecord
    requires i < RecordsIn(o)
  {
    if |o.content| <= CHUNK then ObjectRecord(ObjectKey(o.oid), Some(EncodeWhole(o.kind, o.content)))
    else if i == 0 then ObjectRecord(ObjectKey(o.oid), Some(EncodeManifest(o.kind, |o.content|, ChunkCount(|o.content|))))
    else ObjectRecord(ChunkKey(o.oid, i - 1), Some(EncodeChunk(o.kind, Piece(o.content, i - 1))))
  }

  /** Cut an object into records, in the order they are produced. */
  method EncodeObject(o: GitObject) returns (records: seq<ObjectRecord>)
    ensures |records| == RecordsIn(o) && AreFirst(records, o)
  {
    if |o.content| <= CHUNK {
      return [ObjectRecord(ObjectKey(o.oid), Some(EncodeWhole(o.kind, o.content)))];
    }
    var count := ChunkCount(|o.content|);
    records := [ObjectRecord(ObjectKey(o.oid), Some(EncodeManifest(o.kind, |o.content|, count)))];
    var rest := o.content;
    var index := 0;
    while rest != []
      invariant index <= count && rest == After(o.content, index)
      invariant |records| == index + 1 && AreFirst(records, o)
      decreases |rest|
    {
      CutPiece(o.content, index);
      var part := rest[..Min(CHUNK, |rest|)];
      var record := ObjectRecord(ChunkKey(o.oid, index), Some(EncodeChunk(o.kind, part)));
      OneMore(records, o, record);
      records := records + [record];
      rest, index := rest[|part|..], index + 1;
    }
    AllCut(o.content, index);
  }

  predicate AreFirst(records: seq<ObjectRecord>, o: GitObject) {
    |records| <= RecordsIn(o) && forall i :: 0 <= i < |records| ==> records[i] == NthRecord(o, i)
  }

  lemma OneMore(records: seq<ObjectRecord>, o: GitObject, record: ObjectRecord)
    requires AreFirst(records, o) && |records| < RecordsIn(o) && record == NthRecord(o, |records|)
    ensures AreFirst(records + [record], o)
  {}

  /** What is left of the content after so many chunks. */
  function After(content: Bytes, index: nat): Bytes {
    content[Min(CHUNK * index, |content|)..]
  }

  lemma CutPiece(content: Bytes, index: nat)
    requires After(content, index) != []
    ensures var rest := After(content, index);
      index < ChunkCount(|content|) && rest[..Min(CHUNK, |rest|)] == Piece(content, index) && rest[|Piece(content, index)|..] == After(content, index + 1)
  {
    assert CHUNK * index < |content|;
  }

  lemma AllCut(content: Bytes, index: nat)
    requires After(content, index) == [] && index <= ChunkCount(|content|)
    ensures index == ChunkCount(|content|)
  {
    assert CHUNK * index >= |content|;
  }

  /** The first `n` parts put together, or the first that is missing. */
  function Joined(chunks: seq<Option<Bytes>>, n: nat): Result<Bytes, FrameError> {
    if n == 0 then Ok([])
    else
      match Joined(chunks, n - 1)
      case Err(e) => Err(e)
      case Ok(c) => if n - 1 < |chunks| && chunks[n - 1].Some? then Ok(c + chunks[n - 1].value) else Err(MissingChunk(n - 1))
  }

  function Reassembled(totalLen: nat, chunkCount: nat, chunks: seq<Option<Bytes>>): Result<Bytes, FrameError> {
    match Joined(chunks, chunkCount)
    case Err(e) => Err(e)
    case Ok(c) => if |c| == totalLen then Ok(c) else Err(LengthMismatch(totalLen, |c|))
  }

  method Reassemble(totalLen: nat, chunkCount: nat, chunks: seq<Option<Bytes>>) returns (r: Result<Bytes, FrameError>)
    ensures r == Reassembled(totalLen, chunkCount, chunks)
  {
    var content: Bytes := [];
    for index := 0 to chunkCount
      invariant Joined(chunks, index) == Ok(content)
    {
      if index >= |chunks| || chunks[index].None? {
        Missing(chunks, index, chunkCount);
        return Err(MissingChunk(index));
      }
      content := content + chunks[index].value;
    }
    if |content| != totalLen {
      return Err(LengthMismatch(totalLen, |content|));
    }
    r := Ok(content);
  }

  lemma {:induction false} Missing(chunks: seq<Option<Bytes>>, i: nat, n: nat)
    requires i < n && Joined(chunks, i).Ok? && (i >= |chunks| || chunks[i].None?)
    ensures Joined(chunks, n) == Err(MissingChunk(i))
  {
    if i + 1 < n { Missing(chunks, i, n - 1); }
  }

  /** Slots that hold the pieces of some content, as far as they hold anything. */
  ghost predicate PiecesOf(chunks: seq<Option<Bytes>>, content: Bytes) {
    forall i :: 0 <= i < |chunks| && chunks[i].Some? ==> i < ChunkCount(|content|) && chunks[i].value == Piece(content, i)
  }

  predicate Full(chunks: seq<Option<Bytes>>, n: nat) {
    n <= |chunks| && forall i :: 0 <= i < n ==> chunks[i].Some?
  }

  lemma {:induction false} JoinPieces(chunks: seq<Option<Bytes>>, content: Bytes, n: nat)
    requires PiecesOf(chunks, content) && Full(chunks, n) && n <= ChunkCount(|content|)
    ensures Joined(chunks, n) == Ok(content[..Min(CHUNK * n, |content|)])
  {
    if n > 0 {
      JoinPieces(chunks, content, n - 1);
      assert content[..CHUNK * (n - 1)] + Piece(content, n - 1) == content[..Min(CHUNK * n, |content|)];
    }
  }

  lemma {:induction false} JoinNeedsAll(chunks: seq<Option<Bytes>>, n: nat)
    ensures Joined(chunks, n).Ok? <==> Full(chunks, n)
  {
    if n > 0 { JoinNeedsAll(chunks, n - 1); }
  }

  /** Slots filled with pieces of an object give back the object if none is missing,
      and nothing if one is. */
  lemma ReassemblyIsExact(chunks: seq<Option<Bytes>>, content: Bytes)
    requires PiecesOf(chunks, content)
    ensures var r := Reassembled(|content|, ChunkCount(|content|), chunks);
      if Full(chunks, ChunkCount(|content|)) then r == Ok(content) else r.Err? && r.error.MissingChunk?
  {
    var n := ChunkCount(|content|);
    JoinNeedsAll(chunks, n);
    if Full(chunks, n) {
      JoinPieces(chunks, content, n);
      assert content[..Min(CHUNK * n, |content|)] == content;
    } else {
      JoinErrors(chunks, n);
    }
  }

  lemma {:induction false} JoinErrors(chunks: seq<Option<Bytes>>, n: nat)
    ensures Joined(chunks, n).Err? ==> Joined(chunks, n).error.MissingChunk?
  {
    if n > 0 { JoinErrors(chunks, n - 1); }
  }

  /** Which error: the first part that is missing, or else the length that was claimed. */
  lemma {:induction false} ReassemblyErrs(totalLen: nat, chunkCount: nat, chunks: seq<Option<Bytes>>)
    ensures var r := Reassembled(totalLen, chunkCount, chunks);
      && (forall i: nat :: i < chunkCount && Full(chunks, i) && !Full(chunks, i + 1) ==> r == Err(MissingChunk(i)))
      && (Full(chunks, chunkCount) && r.Err? ==> r.error.LengthMismatch? && r.error.claimed == totalLen && r.error.actual != totalLen)
  {
    JoinNeedsAll(chunks, chunkCount);
    forall i: nat | i < chunkCount && Full(chunks, i) && !Full(chunks, i + 1) ensures Joined(chunks, chunkCount) == Err(MissingChunk(i)) {
      JoinNeedsAll(chunks, i);
      Missing(chunks, i, chunkCount);
    }
  }

  /** Parts of the wrong total length are refused, whatever they hold. */
  lemma WrongLengthRefused(totalLen: nat, chunkCount: nat, chunks: seq<Option<Bytes>>)
    ensures Reassembled(totalLen, chunkCount, chunks).Ok? ==> |Reassembled(totalLen, chunkCount, chunks).value| == totalLen && Full(chunks, chunkCount)
  {
    JoinNeedsAll(chunks, chunkCount);
  }

  /** An object of up to 4 MiB is one record; a larger one is a manifest and chunks of
      4 MiB each but for the last. No record's value is longer than a chunk and a header. */
  lemma RecordsFit(o: GitObject, i: nat)
    requires i < RecordsIn(o)
    ensures RecordsIn(o) == 1 <==> |o.content| <= 4_194_304
    ensures NthRecord(o, i).value.Some? && |NthRecord(o, i).value.value| <= 4_194_304 + 18
    ensures 0 < i < RecordsIn(o) - 1 ==> |NthRecord(o, i).value.value| == 4_194_304 + 18
  {}

  // ---- What a record says ----

  datatype Meaning =
    | IsWhole(oid: Oid, kind: Kind, content: Bytes)
    | IsManifest(oid: Oid, kind: Kind, totalLen: nat, chunkCount: nat)
    | IsChunk(oid: Oid, index: nat, data: Bytes)
    | IsTombstone(oid: Oid)
    | IsNoise

  /** A record whose key or frame does not parse, or whose frame does not fit its key,
      says nothing. */
  function Read(r: ObjectRecord): Meaning {
    match ParseKey(r.key)
    case None => IsNoise
    case Some((oid, index)) =>
      match r.value
      case None => IsTombstone(oid)
      case Some(bytes) =>
        var frame := Decode(bytes);
        if frame.Ok? && frame.value.Whole? && index.None? then IsWhole(oid, frame.value.kind, frame.value.content)
        else if frame.Ok? && frame.value.Manifest? && index.None? then IsManifest(oid, frame.value.kind, frame.value.totalLen, frame.value.chunkCount)
        else if frame.Ok? && frame.value.Chunk? && index.Some? then IsChunk(oid, index.value, frame.value.data)
        else IsNoise
  }

  function NthMeaning(o: GitObject, i: nat): Meaning
    requires i < RecordsIn(o)
  {
    if |o.content| <= CHUNK then IsWhole(o.oid, o.kind, o.content)
    else if i == 0 then IsManifest(o.oid, o.kind, |o.content|, ChunkCount(|o.content|))
    else IsChunk(o.oid, i - 1, Piece(o.content, i - 1))
  }

  /** Every record of an object reads back as what it was written for. */
  lemma RecordsRead(o: GitObject, i: nat)
    requires i < RecordsIn(o) && Countable(o.content)
    ensures Read(NthRecord(o, i)) == NthMeaning(o, i)
  {
    if |o.content| <= CHUNK {
      ObjectKeyParses(o.oid);
      WholeRoundTrip(o.kind, o.content);
      ReadsAs(ObjectKey(o.oid), EncodeWhole(o.kind, o.content), o.oid, None, Whole(o.kind, o.content));
    } else if i == 0 {
      var n := ChunkCount(|o.content|);
      ObjectKeyParses(o.oid);
      ManifestRoundTrip(o.kind, |o.content|, n);
      ReadsAs(ObjectKey(o.oid), EncodeManifest(o.kind, |o.content|, n), o.oid, None, Manifest(o.kind, |o.content|, n));
    } else {
      var p := Piece(o.content, i - 1);
      ChunkKeyParses(o.oid, i - 1);
      ChunkRoundTrip(o.kind, p);
      ReadsAs(ChunkKey(o.oid, i - 1), EncodeChunk(o.kind, p), o.oid, Some(i - 1), Chunk(o.kind, p));
    }
  }

  lemma ReadsAs(key: Bytes, bytes: Bytes, oid: Oid, index: Option<nat>, frame: Decoded)
    requires ParseKey(key) == Some((oid, index)) && Decode(bytes) == Ok(frame)
    ensures frame.Whole? && index.None? ==> Read(ObjectRecord(key, Some(bytes))) == IsWhole(oid, frame.kind, frame.content)
    ensures frame.Manifest? && index.None? ==> Read(ObjectRecord(key, Some(bytes))) == IsManifest(oid, frame.kind, frame.totalLen, frame.chunkCount)
    ensures frame.Chunk? && index.Some? ==> Read(ObjectRecord(key, Some(bytes))) == IsChunk(oid, index.value, frame.data)
  {}
}
