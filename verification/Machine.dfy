/** Fixed-width integers, bytes and the result types shared by every module. */
module Machine {
  const TWO_31: int := 0x8000_0000
  const TWO_32: int := 0x1_0000_0000
  const TWO_63: int := 0x8000_0000_0000_0000
  const TWO_64: int := 0x1_0000_0000_0000_0000

  type U8 = x: int | 0 <= x < 256
  type U32 = x: int | 0 <= x < TWO_32
  type U64 = x: int | 0 <= x < TWO_64
  type Bytes = seq<U8>

  /** A 32-byte digest. */
  type Hash32 = h: Bytes | |h| == 32 witness seq(32, _ => 0)

  datatype Option<+T> = None | Some(value: T)
  datatype Result<+T, +E> = Ok(value: T) | Err(error: E)

  /** Two's-complement truncation to `i32`: what `as i32` and wrapping `i32` arithmetic leave. */
  function AsI32(x: int): int {
    (x + TWO_31) % TWO_32 - TWO_31
  }

  /** Two's-complement reading of a `u64` as an `i64`. */
  function AsI64(x: U64): int {
    if x < TWO_63 then x else x - TWO_64
  }

  function Wrap64(x: nat): U64 {
    x % TWO_64
  }

  function Saturate64(x: nat): U64 {
    if x < TWO_64 then x else TWO_64 - 1
  }

  function CheckedAdd(a: U64, b: U64): Option<U64> {
    if a + b < TWO_64 then Some(a + b) else None
  }

  /** `/` of the source on signed operands: truncates toward zero. */
  function TruncDiv(a: int, b: int): int
    requires b > 0
  {
    if a >= 0 then a / b else -((-a) / b)
  }

  /** `%` of the source on signed operands: takes the sign of the dividend. */
  function TruncMod(a: int, b: int): int
    requires b > 0
  {
    if a >= 0 then a % b else -((-a) % b)
  }

  function CeilDiv(a: nat, b: nat): nat
    requires b > 0
  {
    (a + b - 1) / b
  }

  lemma AsI32Steps(x: int)
    ensures AsI32(AsI32(x) + 1) == AsI32(x + 1)
    ensures AsI32(0) == 0
  {
  }

  lemma Multiples(d: int, m: nat)
    ensures d >= 1 ==> d * m >= m
    ensures d <= -1 ==> d * m <= 0 - m
  {
    if d >= 1 {
      assert (d - 1) * m >= 0;
    } else if d <= -1 {
      assert (-1 - d) * m >= 0;
    }
  }

  /** Quotient and remainder are determined. */
  lemma QuotientUnique(q: nat, m: nat, r: nat)
    requires r < m
    ensures (q * m + r) / m == q && (q * m + r) % m == r
  {
    var x := q * m + r;
    var k, t := x / m, x % m;
    assert x == k * m + t;
    assert (q - k) * m == t - r by {
      assert (q - k) * m == q * m - k * m;
    }
    Multiples(q - k, m);
  }

  /** Results collected so far in front of the results still to come. */
  function Prepend<T, E>(done: seq<T>, rest: Result<seq<T>, E>): Result<seq<T>, E> {
    match rest
    case Err(e) => Err(e)
    case Ok(r) => Ok(done + r)
  }

  lemma PrependNothing<T, E>(rest: Result<seq<T>, E>)
    ensures Prepend([], rest) == rest
  {
    if rest.Ok? {
      assert [] + rest.value == rest.value;
    }
  }

  lemma PrependAssociates<T, E>(done: seq<T>, x: T, rest: Result<seq<T>, E>)
    ensures Prepend(done, Prepend([x], rest)) == Prepend(done + [x], rest)
  {
    if rest.Ok? {
      assert done + ([x] + rest.value) == (done + [x]) + rest.value;
    }
  }
}
