/** Shared vocabulary: optional values, instants, and Go's 64-bit signed arithmetic. */
module Prelude {

  datatype Option<+T> = None | Some(value: T)

  /** An instant on the watchdog's clock, in nanoseconds. Go's zero time.Time is modelled as None. */
  type Time = int

  /** A time.Duration: an int64 count of nanoseconds. */
  type Duration = int

  const SECOND: Duration := 1_000_000_000
  const MINUTE: Duration := 60 * SECOND

  const TWO_63: int := 0x8000_0000_0000_0000
  const TWO_64: int := 0x1_0000_0000_0000_0000
  const MAX_INT64: int := TWO_63 - 1

  predicate IsInt64(x: int) {
    -TWO_63 <= x < TWO_63
  }

  /** The int64 value with the same low 64 bits as x. */
  function Wrap64(x: int): (r: int)
    ensures IsInt64(r)
    ensures IsInt64(x) ==> r == x
  {
    (x + TWO_63) % TWO_64 - TWO_63
  }

  function Pow2(n: nat): (r: int)
    ensures r >= 1
  {
    if n == 0 then 1 else 2 * Pow2(n - 1)
  }

  /** Go's x << n on an int64: the bits pushed past the top are lost. */
  function Shl64(x: int, n: nat): int {
    Wrap64(x * Pow2(n))
  }

  function Min(a: int, b: int): int {
    if a <= b then a else b
  }

  function Max(a: int, b: int): int {
    if a <= b then b else a
  }

  lemma {:induction false} Pow2Split(m: nat, n: nat)
    ensures Pow2(m + n) == Pow2(m) * Pow2(n)
  {
    if m > 0 {
      Pow2Split(m - 1, n);
      assert Pow2(m + n) == 2 * Pow2(m - 1 + n);
    }
  }

  lemma {:induction false} Pow2Monotone(m: nat, n: nat)
    requires m <= n
    ensures Pow2(m) <= Pow2(n)
  {
    if m < n {
      Pow2Monotone(m, n - 1);
    }
  }

  lemma Pow2Is2To64()
    ensures Pow2(64) == TWO_64
  {
    assert Pow2(8) == 256;
    Pow2Split(8, 8);
    Pow2Split(16, 16);
    Pow2Split(32, 32);
  }

  /** A multiple of 2^64 has no bits left in an int64. */
  lemma WrapOfMultiple(k: int)
    ensures Wrap64(k * TWO_64) == 0
  {
    assert (k * TWO_64 + TWO_63) % TWO_64 == TWO_63;
  }

  /** Wrapping changes a value by a multiple of 2^64 only. */
  lemma WrapIsCongruent(x: int)
    ensures (x - Wrap64(x)) % TWO_64 == 0
  {
  }

  /** The last element of a non-empty sequence. */
  function Last<T>(s: seq<T>): T
    requires s != []
  {
    s[|s| - 1]
  }

  /** All but the last element of a non-empty sequence. */
  function Front<T>(s: seq<T>): seq<T>
    requires s != []
  {
    s[..|s| - 1]
  }
}
