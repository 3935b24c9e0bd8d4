/** Vocabulary shared by every module: options, bytes, machine words and finite sums. */
module Base {

  datatype Option<+T> = None | Some(value: T)

  type Byte = n: nat | n < 256

  type Bytes = seq<Byte>

  const TWO_TO_THE_64: nat := 0x1_0000_0000_0000_0000

  type U64 = n: nat | n < TWO_TO_THE_64

  /** `u64` addition of a release build: it wraps. */
  function Add64(a: U64, b: U64): U64
  {
    (a + b) % TWO_TO_THE_64
  }

  /** `u64` subtraction of a release build: it wraps. */
  function Sub64(a: U64, b: U64): U64
  {
    (a - b) % TWO_TO_THE_64
  }

  /** `HashMap::get`. */
  function Find<K, V>(m: map<K, V>, k: K): Option<V>
  {
    if k in m then Some(m[k]) else None
  }

  /** `Option::unwrap_or`. */
  function GetOr<T>(o: Option<T>, default: T): T
  {
    if o.Some? then o.value else default
  }

  /** `order` lists every element of `s` exactly once: one possible iteration order of a `HashMap`. */
  ghost predicate IsOrdering<K(!new)>(order: seq<K>, s: set<K>)
  {
    && (forall k :: k in order <==> k in s)
    && (forall i, j :: 0 <= i < j < |order| ==> order[i] != order[j])
  }
}
