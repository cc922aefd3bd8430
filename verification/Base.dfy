/** Values shared by every part of the model. */
module Base {

  datatype Option<+T> = None | Some(value: T)

  datatype Result<+T, +E> = Ok(value: T) | Err(error: E)

  newtype Byte = x: int | 0 <= x < 256

  /** A git object id: twenty raw bytes. */
  type Oid = b: seq<Byte> | |b| == 20 witness ZERO_BYTES

  const ZERO_BYTES: seq<Byte> := [0, 0, 0, 0, 0, 0, 0, 0, 0, 0, 0, 0, 0, 0, 0, 0, 0, 0, 0, 0]

  /** The id git uses on the wire for "no such object". */
  const ZERO: Oid := ZERO_BYTES

  /** The text of a uuid, which is how every aggregate id appears in a record
      key: of fixed length, and without a slash. */
  type Id = s: string | |s| == 36 && '/' !in s witness "00000000-0000-0000-0000-000000000000"

  /** Seconds since some epoch; when an event happened. */
  type Instant = int

  /** How a request to another system ends: it may have taken effect even where no
      answer came. */
  datatype Effect = Confirmed | NoEffect | Unconfirmed

  function Get<K, V>(m: map<K, V>, k: K): Option<V> {
    if k in m then Some(m[k]) else None
  }

  /** Store a value, or delete the key. */
  function Put<K, V>(m: map<K, V>, k: K, v: Option<V>): map<K, V> {
    match v
    case Some(x) => m[k := x]
    case None => m - {k}
  }

  lemma GetPut<K, V>(m: map<K, V>, k: K, v: Option<V>, j: K)
    ensures Get(Put(m, k, v), j) == if j == k then v else Get(m, j)
  {}

  lemma PutSame<K, V>(m: map<K, V>, k: K)
    ensures Put(m, k, Get(m, k)) == m
  {}

  lemma MapsAgree<K, V>(a: map<K, V>, b: map<K, V>)
    requires forall k :: Get(a, k) == Get(b, k)
    ensures a == b
  {
    assert forall k :: k in a <==> Get(a, k).Some?;
    assert forall k :: k in b <==> Get(b, k).Some?;
    assert a.Keys == b.Keys;
    forall k | k in a ensures a[k] == b[k] {
      assert Get(a, k) == Get(b, k);
    }
  }

  function Min(a: int, b: int): int {
    if a < b then a else b
  }

  function Max(a: int, b: int): int {
    if a < b then b else a
  }
}
