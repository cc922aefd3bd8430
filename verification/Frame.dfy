/** How a git object is written to the log: record keys, frames and chunks. Keys and
    frames are byte strings. */
module Frame {
  import opened Base

  type Bytes = seq<Byte>

  // ---- Object ids as text ----

  datatype InvalidOid = BadLength(n: nat) | NotHex

  function HexDigit(v: int): Byte
    requires 0 <= v < 16
  {
    if v < 10 then (48 + v) as Byte else (87 + v) as Byte
  }

  /** Upper case is accepted too. */
  function HexVal(c: Byte): Option<int> {
    if 48 <= c <= 57 then Some(c as int - 48)
    else if 97 <= c <= 102 then Some(c as int - 87)
    else if 65 <= c <= 70 then Some(c as int - 55)
    else None
  }

  function Hex(b: Bytes): (s: Bytes)
    ensures |s| == 2 * |b|
    ensures forall i :: 0 <= i < |b| ==> s[2 * i] == HexDigit(b[i] as int / 16) && s[2 * i + 1] == HexDigit(b[i] as int % 16)
  {
    if b == [] then [] else Hex(b[..|b| - 1]) + [HexDigit(b[|b| - 1] as int / 16), HexDigit(b[|b| - 1] as int % 16)]
  }

  method ToHex(oid: Oid) returns (s: Bytes)
    ensures s == Hex(oid)
  {
    s := [];
    for i := 0 to |oid|
      invariant s == Hex(oid[..i])
    {
      s := s + [HexDigit(oid[i] as int / 16), HexDigit(oid[i] as int % 16)];
      assert oid[..i + 1][..i] == oid[..i];
    }
    assert oid[..|oid|] == oid;
  }

  /** Two digits that spell a byte. */
  predicate IsPair(hi: Byte, lo: Byte, b: Byte) {
    HexVal(hi).Some? && HexVal(lo).Some? && b as int == 16 * HexVal(hi).value + HexVal(lo).value
  }

  function Values(s: Bytes): Option<Bytes>
    requires |s| % 2 == 0
  {
    if s == [] then Some([])
    else
      var (init, hi, lo) := (Values(s[..|s| - 2]), HexVal(s[|s| - 2]), HexVal(s[|s| - 1]));
      if init.Some? && hi.Some? && lo.Some? then Some(init.value + [(16 * hi.value + lo.value) as Byte]) else None
  }

  lemma {:induction false} ValuesAre(s: Bytes)
    requires |s| % 2 == 0
    ensures Values(s).Some? <==> forall i :: 0 <= i < |s| ==> HexVal(s[i]).Some?
    ensures Values(s).Some? ==> |Values(s).value| == |s| / 2
    ensures Values(s).Some? ==> forall i :: 0 <= i < |s| / 2 ==> IsPair(s[2 * i], s[2 * i + 1], Values(s).value[i])
  {
    if s != [] {
      var init := s[..|s| - 2];
      ValuesAre(init);
      assert forall i :: 0 <= i < |init| ==> init[i] == s[i];
      assert (forall i :: 0 <= i < |s| ==> HexVal(s[i]).Some?) ==> HexVal(s[|s| - 2]).Some? && HexVal(s[|s| - 1]).Some?;
    }
  }

  function ParseOid(s: Bytes): Result<Oid, InvalidOid> {
    if |s| != 40 then Err(BadLength(|s|))
    else
      ValuesAre(s);
      match Values(s) case Some(b) => Ok(b) case None => Err(NotHex)
  }

  predicate IsHex(s: Bytes) {
    forall i :: 0 <= i < |s| ==> 48 <= s[i] <= 57 || 97 <= s[i] <= 102 || 65 <= s[i] <= 70
  }

  /** Either case of a digit will do. */
  lemma {:induction false} CaseDoesNotMatter(s: Bytes, t: Bytes)
    requires |s| == |t| && forall i :: 0 <= i < |s| ==> t[i] == s[i] || (65 <= s[i] <= 70 && t[i] == s[i] + 32)
    ensures |s| % 2 == 0 ==> Values(s) == Values(t)
    ensures ParseOid(s) == ParseOid(t)
  {
    if s != [] && |s| % 2 == 0 {
      CaseDoesNotMatter(s[..|s| - 2], t[..|s| - 2]);
    }
  }

  method OidFromStr(s: Bytes) returns (r: Result<Oid, InvalidOid>)
    ensures r == ParseOid(s)
    ensures r.Ok? <==> |s| == 40 && IsHex(s)
    ensures r.Err? ==> r.error == if |s| == 40 then NotHex else BadLength(|s|)
  {
    if |s| != 40 {
      return Err(BadLength(|s|));
    }
    var out: Bytes := [];
    ValuesAre(s);
    for i := 0 to 20
      invariant |out| == i
      invariant forall k :: 0 <= k < i ==> IsPair(s[2 * k], s[2 * k + 1], out[k])
    {
      var hi, lo := HexVal(s[2 * i]), HexVal(s[2 * i + 1]);
      if hi.None? || lo.None? {
        return Err(NotHex);
      }
      out := out + [(16 * hi.value + lo.value) as Byte];
    }
    forall i | 0 <= i < 40 ensures HexVal(s[i]).Some? {
      assert IsPair(s[2 * (i / 2)], s[2 * (i / 2) + 1], out[i / 2]);
      assert i == 2 * (i / 2) || i == 2 * (i / 2) + 1;
    }
    assert out == Values(s).value;
    r := Ok(out);
  }

  /** An id survives being written and read back. */
  lemma HexRoundTrip(oid: Oid)
    ensures ParseOid(Hex(oid)) == Ok(oid)
  {
    var s := Hex(oid);
    ValuesAre(s);
    forall i | 0 <= i < |s| ensures HexVal(s[i]).Some? {
      assert s[2 * (i / 2)] == HexDigit(oid[i / 2] as int / 16) && s[2 * (i / 2) + 1] == HexDigit(oid[i / 2] as int % 16);
      assert i == 2 * (i / 2) || i == 2 * (i / 2) + 1;
    }
    forall i | 0 <= i < 20 ensures Values(s).value[i] == oid[i] {
      assert s[2 * i] == HexDigit(oid[i] as int / 16) && s[2 * i + 1] == HexDigit(oid[i] as int % 16);
    }
    assert Values(s).value == oid;
  }

  // ---- Decimal chunk numbers ----

  function Pow10(n: nat): (p: nat)
    ensures p > 0
  {
    if n == 0 then 1 else 10 * Pow10(n - 1)
  }

  function Fixed(n: nat, width: nat): (s: Bytes)
    ensures |s| == width
  {
    if width == 0 then [] else Fixed(n / 10, width - 1) + [(48 + n % 10) as Byte]
  }

  function Width(n: nat): (w: nat)
    ensures w >= 1 && n < Pow10(w)
    ensures w > 1 ==> Pow10(w - 1) <= n
  {
    if n < 10 then 1 else 1 + Width(n / 10)
  }

  /** Padded with zeros to six digits, and as long as it needs to be beyond. */
  function Padded(n: nat): Bytes {
    Fixed(n, Max(6, Width(n)))
  }

  predicate AllDigits(s: Bytes) {
    forall i :: 0 <= i < |s| ==> 48 <= s[i] <= 57
  }

  function Decimal(s: Bytes): nat
    requires AllDigits(s)
  {
    if s == [] then 0 else 10 * Decimal(s[..|s| - 1]) + (s[|s| - 1] as int - 48)
  }

  const U32 := 0x1_0000_0000

  const U64 := 0x1_0000_0000_0000_0000

  function ParseU32(s: Bytes): Option<nat> {
    var digits := if s != [] && s[0] == 43 then s[1..] else s;
    if digits == [] || !AllDigits(digits) || Decimal(digits) >= U32 then None else Some(Decimal(digits))
  }

  lemma {:induction false} FixedReads(n: nat, width: nat)
    requires n < Pow10(width)
    ensures AllDigits(Fixed(n, width)) && Decimal(Fixed(n, width)) == n
  {
    if width > 0 {
      FixedReads(n / 10, width - 1);
      assert Fixed(n, width)[..width - 1] == Fixed(n / 10, width - 1);
    }
  }

  lemma {:induction false} Pow10Grows(a: nat, b: nat)
    requires a <= b
    ensures Pow10(a) <= Pow10(b)
  {
    if a < b { Pow10Grows(a, b - 1); }
  }

  lemma PaddedReads(n: nat)
    requires n < U32
    ensures ParseU32(Padded(n)) == Some(n)
  {
    Pow10Grows(Width(n), Max(6, Width(n)));
    FixedReads(n, Max(6, Width(n)));
  }

  // ---- Record keys ----

  const PREFIX: Bytes := [111, 47]

  const SEPARATOR: Bytes := [47, 99, 47]

  function ObjectKey(oid: Oid): Bytes {
    PREFIX + Hex(oid)
  }

  function ChunkKey(oid: Oid, index: nat): Bytes {
    PREFIX + Hex(oid) + SEPARATOR + Padded(index)
  }

  predicate SeparatorAt(s: Bytes, k: nat) {
    k + 3 <= |s| && s[k] == 47 && s[k + 1] == 99 && s[k + 2] == 47
  }

  /** Where the separator first occurs. */
  function Find(s: Bytes, from: nat): (r: Option<nat>)
    ensures r.Some? ==> from <= r.value && SeparatorAt(s, r.value) && forall k :: from <= k < r.value ==> !SeparatorAt(s, k)
    ensures r.None? ==> forall k :: from <= k ==> !SeparatorAt(s, k)
    decreases |s| - from
  {
    if from + 3 > |s| then None
    else if SeparatorAt(s, from) then Some(from)
    else Find(s, from + 1)
  }

  function ParseKey(key: Bytes): Option<(Oid, Option<nat>)> {
    if |key| < 2 || key[..2] != PREFIX then None
    else
      var rest := key[2..];
      match Find(rest, 0)
      case Some(k) =>
        var (oid, index) := (ParseOid(rest[..k]), ParseU32(rest[k + 3..]));
        if oid.Ok? && index.Some? then Some((oid.value, Some(index.value))) else None
      case None =>
        var oid := ParseOid(rest);
        if oid.Ok? then Some((oid.value, None)) else None
  }

  /** No separator starts inside the hex of an id, whatever follows it. */
  lemma NoSeparatorInHex(oid: Oid, tail: Bytes)
    ensures forall k :: 0 <= k < 40 ==> !SeparatorAt(Hex(oid) + tail, k)
  {
    forall k | 0 <= k < 40 ensures Hex(oid)[k] != 47 && (Hex(oid) + tail)[k] == Hex(oid)[k] {
      assert Hex(oid)[2 * (k / 2)] == HexDigit(oid[k / 2] as int / 16) && Hex(oid)[2 * (k / 2) + 1] == HexDigit(oid[k / 2] as int % 16);
      assert k == 2 * (k / 2) || k == 2 * (k / 2) + 1;
    }
  }

  lemma ObjectKeyParses(oid: Oid)
    ensures ParseKey(ObjectKey(oid)) == Some((oid, None))
  {
    var rest := Hex(oid);
    assert rest + [] == rest;
    NoSeparatorInHex(oid, []);
    HexRoundTrip(oid);
    assert ObjectKey(oid)[..2] == PREFIX && ObjectKey(oid)[2..] == rest;
    assert Find(rest, 0).None?;
  }

  lemma SeparatorFound(oid: Oid, tail: Bytes)
    ensures Find(Hex(oid) + (SEPARATOR + tail), 0) == Some(40)
  {
    NoSeparatorInHex(oid, SEPARATOR + tail);
    var rest := Hex(oid) + (SEPARATOR + tail);
    assert rest[40] == 47 && rest[41] == 99 && rest[42] == 47;
    assert SeparatorAt(rest, 40);
  }

  lemma ChunkKeyParses(oid: Oid, index: nat)
    requires index < U32
    ensures ParseKey(ChunkKey(oid, index)) == Some((oid, Some(index)))
  {
    var (hex, tail) := (Hex(oid), Padded(index));
    SeparatorFound(oid, tail);
    HexRoundTrip(oid);
    PaddedReads(index);
    assert ChunkKey(oid, index) == PREFIX + (hex + (SEPARATOR + tail));
    assert ChunkKey(oid, index)[..2] == PREFIX && ChunkKey(oid, index)[2..] == hex + (SEPARATOR + tail);
    assert (hex + (SEPARATOR + tail))[..40] == hex && (hex + (SEPARATOR + tail))[43..] == tail;
  }

  /** The text of a key: the id's digits, and for a chunk its number. */
  predicate IsKey(key: Bytes, hex: Bytes, number: Bytes, oid: Oid, index: Option<nat>) {
    && ParseOid(hex) == Ok(oid)
    && if index.None? then key == [111, 47] + hex else ParseU32(number) == index && key == [111, 47] + (hex + ([47, 99, 47] + number))
  }

  lemma NoSeparatorInOid(hex: Bytes, tail: Bytes)
    requires ParseOid(hex).Ok?
    ensures |hex| == 40 && forall k :: 0 <= k < 40 ==> !SeparatorAt(hex + tail, k)
  {
    ValuesAre(hex);
    forall k | 0 <= k < 40 ensures (hex + tail)[k] != 47 { assert HexVal(hex[k]).Some?; }
  }

  /** A key is read as an object's or a chunk's exactly if it is the text of one. */
  lemma ParsesExactlyKeys(key: Bytes, oid: Oid, index: Option<nat>)
    ensures ParseKey(key) == Some((oid, index)) <==> exists hex, number :: IsKey(key, hex, number, oid, index)
  {
    if ParseKey(key) == Some((oid, index)) {
      var rest := key[2..];
      assert key == [111, 47] + rest;
      match Find(rest, 0)
      case None => assert IsKey(key, rest, [], oid, index);
      case Some(k) =>
        assert rest == rest[..k] + ([47, 99, 47] + rest[k + 3..]);
        assert IsKey(key, rest[..k], rest[k + 3..], oid, index);
    }
    if hex, number :| IsKey(key, hex, number, oid, index) {
      KeyReads(key, hex, number, oid, index);
    }
  }

  lemma KeyReads(key: Bytes, hex: Bytes, number: Bytes, oid: Oid, index: Option<nat>)
    requires IsKey(key, hex, number, oid, index)
    ensures ParseKey(key) == Some((oid, index))
  {
    var rest := key[2..];
    if index.None? {
      NoSeparatorInOid(hex, []);
      assert rest == hex && hex + [] == hex && Find(rest, 0).None?;
    } else {
      NoSeparatorInOid(hex, [47, 99, 47] + number);
      assert rest == hex + ([47, 99, 47] + number) && rest[40] == 47 && rest[41] == 99 && rest[42] == 47;
      assert SeparatorAt(rest, 40) && Find(rest, 0) == Some(40);
      assert rest[..40] == hex && rest[43..] == number;
    }
  }

  function KeyFor(oid: Oid, index: Option<nat>): Bytes {
    match index case Some(i) => ChunkKey(oid, i) case None => ObjectKey(oid)
  }

  /** Different objects, different chunks and an object and its chunks never share a
      key. */
  lemma KeysAreInjective(a: Oid, i: Option<nat>, b: Oid, k: Option<nat>)
    requires (i.Some? ==> i.value < U32) && (k.Some? ==> k.value < U32)
    requires KeyFor(a, i) == KeyFor(b, k)
    ensures a == b && i == k
  {
    if i.Some? { ChunkKeyParses(a, i.value); } else { ObjectKeyParses(a); }
    if k.Some? { ChunkKeyParses(b, k.value); } else { ObjectKeyParses(b); }
  }

  /** Byte strings in the order a broker or a file system lists them. */
  ghost predicate Before(a: Bytes, b: Bytes) {
    exists k :: 0 <= k < |b| && DiffersAt(a, b, k)
  }

  predicate DiffersAt(a: Bytes, b: Bytes, k: nat)
    requires k < |b|
  {
    k <= |a| && a[..k] == b[..k] && (k < |a| ==> a[k] < b[k])
  }

  /** How keys read: "o/", the id, and for a chunk "/c/" and its number in six digits. */
  lemma KeyLayout(oid: Oid, index: nat)
    requires index < 10
    ensures ObjectKey(oid) == [111, 47] + Hex(oid)
    ensures ChunkKey(oid, index) == ObjectKey(oid) + [47, 99, 47, 48, 48, 48, 48, 48, (48 + index) as Byte]
  {
    assert Padded(index) == Fixed(index, 6);
    assert Fixed(0, 5) == Fixed(0, 4) + [48] && Fixed(0, 4) == Fixed(0, 3) + [48] && Fixed(0, 3) == Fixed(0, 2) + [48] && Fixed(0, 2) == Fixed(0, 1) + [48];
    assert Fixed(0, 1) == Fixed(0, 0) + [48];
    assert Padded(index) == [48, 48, 48, 48, 48, (48 + index) as Byte];
  }

  lemma {:induction false} FixedSorts(n: nat, m: nat, width: nat) returns (k: nat)
    requires n < m < Pow10(width)
    ensures k < width && DiffersAt(Fixed(n, width), Fixed(m, width), k)
  {
    var (a, b) := (Fixed(n, width), Fixed(m, width));
    assert a[..width - 1] == Fixed(n / 10, width - 1) && b[..width - 1] == Fixed(m / 10, width - 1);
    if n / 10 < m / 10 {
      k := FixedSorts(n / 10, m / 10, width - 1);
      assert a[..width - 1][..k] == a[..k] && b[..width - 1][..k] == b[..k];
      assert a[k] == a[..width - 1][k] && b[k] == b[..width - 1][k];
    } else {
      k := width - 1;
    }
  }

  /** Where the first difference goes the other way, there is no order. */
  lemma NotBefore(a: Bytes, b: Bytes, k: nat)
    requires k < |a| && k < |b| && DiffersAt(b, a, k)
    ensures !Before(a, b)
  {
    assert forall j :: 0 <= j < k ==> a[j] == a[..k][j] == b[..k][j];
    assert forall j :: k < j <= |a| && j <= |b| ==> a[..j][k] == a[k] && b[..j][k] == b[k];
  }

  /** A common prefix changes nothing. */
  lemma CommonPrefix(p: Bytes, a: Bytes, b: Bytes)
    ensures Before(p + a, p + b) <==> Before(a, b)
  {
    if k :| 0 <= k < |b| && DiffersAt(a, b, k) {
      assert (p + a)[..|p| + k] == p + a[..k] && (p + b)[..|p| + k] == p + b[..k];
      assert DiffersAt(p + a, p + b, |p| + k);
    }
    assert forall k :: 0 <= k < |p| ==> (p + a)[k] == (p + b)[k];
    if k :| 0 <= k < |p + b| && DiffersAt(p + a, p + b, k) {
      var j := k - |p|;
      assert (p + a)[..k] == p + a[..j] && (p + b)[..k] == p + b[..j];
      assert a[..j] == (p + a)[..k][|p|..] && b[..j] == (p + b)[..k][|p|..];
      assert DiffersAt(a, b, j);
    }
  }

  /** A number without its last so many digits. */
  function Chop(n: nat, digits: nat): nat {
    if digits == 0 then n else Chop(n / 10, digits - 1)
  }

  lemma {:induction false} FixedStarts(n: nat, width: nat, more: nat)
    requires n < Pow10(width + more)
    ensures Chop(n, more) < Pow10(width) && Fixed(n, width + more)[..width] == Fixed(Chop(n, more), width)
  {
    if more > 0 {
      FixedStarts(n / 10, width, more - 1);
      assert Fixed(n, width + more)[..width + more - 1] == Fixed(n / 10, width + more - 1);
      assert Fixed(n, width + more)[..width] == Fixed(n, width + more)[..width + more - 1][..width];
    } else {
      assert Fixed(n, width)[..width] == Fixed(n, width);
    }
  }

  /** Digit strings of different lengths: the order is that of the shorter number and
      the leading digits of the longer. */
  lemma FixedOrder(i: nat, w: nat, j: nat, more: nat)
    requires i < Pow10(w) && j < Pow10(w + more) && (more == 0 ==> i != j)
    ensures Before(Fixed(i, w), Fixed(j, w + more)) <==> i <= Chop(j, more)
  {
    var (a, b, q) := (Fixed(i, w), Fixed(j, w + more), Chop(j, more));
    FixedStarts(j, w, more);
    assert b[..w] == Fixed(q, w);
    if i < q {
      var k := FixedSorts(i, q, w);
      assert b[..k] == b[..w][..k] && b[k] == b[..w][k];
      assert DiffersAt(a, b, k);
    } else if i == q {
      assert a[..w] == a;
      assert DiffersAt(a, b, w);
    } else {
      var k := FixedSorts(q, i, w);
      assert b[..k] == b[..w][..k] && b[k] == b[..w][k];
      NotBefore(a, b, k);
    }
  }

  function KeyWidth(n: nat): nat {
    Max(6, Width(n))
  }

  lemma {:induction false} WidthGrows(i: nat, j: nat)
    requires i <= j
    ensures Width(i) <= Width(j)
  {
    if i >= 10 { WidthGrows(i / 10, j / 10); }
  }

  /** When two chunks of an object sort by number, for all of them: the lower number
      must not exceed as many leading digits of the higher. */
  lemma ChunkOrder(oid: Oid, i: nat, j: nat)
    requires i < j
    ensures KeyWidth(i) <= KeyWidth(j)
    ensures Before(ChunkKey(oid, i), ChunkKey(oid, j)) <==> i <= Chop(j, KeyWidth(j) - KeyWidth(i))
  {
    WidthGrows(i, j);
    Pow10Grows(Width(i), KeyWidth(i));
    Pow10Grows(Width(j), KeyWidth(j));
    FixedOrder(i, KeyWidth(i), j, KeyWidth(j) - KeyWidth(i));
    CommonPrefix(PREFIX + Hex(oid) + SEPARATOR, Padded(i), Padded(j));
  }

  lemma SixDigits(n: nat)
    requires n < 1_000_000
    ensures KeyWidth(n) == 6
  {
    assert Pow10(6) == 1_000_000;
    if Width(n) > 6 {
      Pow10Grows(6, Width(n) - 1);
    }
  }

  lemma SevenDigits()
    ensures KeyWidth(1_000_000) == 7
  {
    assert Pow10(6) == 1_000_000;
    WidthBetween(1_000_000, 7);
  }

  lemma WidthBetween(n: nat, w: nat)
    requires w > 1 && Pow10(w - 1) <= n < Pow10(w)
    ensures Width(n) == w
  {
    if Width(n) > w {
      Pow10Grows(w, Width(n) - 1);
    } else if Width(n) < w {
      Pow10Grows(Width(n), w - 1);
    }
  }

  ghost predicate SortByNumber(oid: Oid, n: nat) {
    forall i, j :: 0 <= i < j < n ==> Before(ChunkKey(oid, i), ChunkKey(oid, j))
  }

  /** The chunks of an object sort by number exactly if there are no more than a
      million. */
  lemma ChunkKeysSort(oid: Oid, n: nat)
    ensures SortByNumber(oid, n) <==> n <= 1_000_000
  {
    if n <= 1_000_000 {
      forall i, j | 0 <= i < j < n ensures Before(ChunkKey(oid, i), ChunkKey(oid, j)) {
        SixDigits(i);
        SixDigits(j);
        ChunkOrder(oid, i, j);
      }
    } else {
      MillionthSortsEarly(oid);
    }
  }

  /** The first pair out of order. */
  lemma MillionthSortsEarly(oid: Oid)
    ensures !Before(ChunkKey(oid, 999_999), ChunkKey(oid, 1_000_000))
    ensures Before(ChunkKey(oid, 1_000_000), ChunkKey(oid, 999_999))
  {
    SixDigits(999_999);
    SevenDigits();
    ChunkOrder(oid, 999_999, 1_000_000);
    assert Chop(1_000_000, 1) == 100_000;
    OneOrOther(ChunkKey(oid, 999_999), ChunkKey(oid, 1_000_000));
  }

  lemma {:induction false} FirstDifference(a: Bytes, b: Bytes) returns (k: nat)
    requires !(a <= b) && !(b <= a)
    ensures k < |a| && k < |b| && a[..k] == b[..k] && a[k] != b[k]
  {
    k := 0;
    while a[k] == b[k]
      invariant k < |a| && k < |b| && a[..k] == b[..k]
      decreases |a| - k
    {
      assert a[..k + 1] == b[..k + 1];
      k := k + 1;
    }
  }

  lemma OneOrOther(a: Bytes, b: Bytes)
    requires !Before(a, b) && a != b
    ensures Before(b, a)
  {
    if a <= b {
      assert DiffersAt(a, b, |a|);
    } else if b <= a {
      assert DiffersAt(b, a, |b|);
    } else {
      var k := FirstDifference(a, b);
      assert DiffersAt(a, b, k) || DiffersAt(b, a, k);
    }
  }
}
