/**
 * Integer widths of the two sample programs: Go's 64-bit `int` (which wraps
 * around silently on overflow), Rust's `i32` and `usize`, and bytes.
 * Also the plain mathematical sum that Go's `sum` and Rust's `iter().sum()`
 * both compute up to their integer width.
 */
module Numeric {

  const TWO_TO_64: int := 0x1_0000_0000_0000_0000
  const MIN_INT64: int := -0x8000_0000_0000_0000
  const MAX_INT64: int := 0x7FFF_FFFF_FFFF_FFFF
  const MIN_INT32: int := -0x8000_0000
  const MAX_INT32: int := 0x7FFF_FFFF
  const MAX_USIZE: int := 0xFFFF_FFFF_FFFF_FFFF

  /** Go's `int` on a 64-bit platform. */
  type Int64 = x: int | MIN_INT64 <= x <= MAX_INT64
  /** Rust's `i32`. */
  type Int32 = x: int | MIN_INT32 <= x <= MAX_INT32
  /** Rust's `usize` on a 64-bit platform. */
  type Usize = x: int | 0 <= x <= MAX_USIZE
  /** One byte of a Go string. */
  type Byte = x: int | 0 <= x < 256

  predicate IsInt32(x: int) { MIN_INT32 <= x <= MAX_INT32 }

  /**
   * `x % 2 == 0`. Rust's `%` truncates toward zero and Dafny's does not, but
   * the remainder is zero for the same `x` under either convention.
   */
  predicate IsEven(x: int) { x % 2 == 0 }

  /**
   * Two's-complement wrap-around of Go's 64-bit `int`: the unique value of
   * the Int64 range congruent to `x` modulo 2^64.
   */
  function Wrap64(x: int): (r: Int64)
    ensures (x - r) % TWO_TO_64 == 0
  {
    (x - MIN_INT64) % TWO_TO_64 + MIN_INT64
  }

  /** A value in range that is congruent to `x` is the wrapped `x`. */
  lemma WrapUnique(x: int, y: int)
    requires MIN_INT64 <= y <= MAX_INT64
    requires (x - y) % TWO_TO_64 == 0
    ensures Wrap64(x) == y
  {
    var r := Wrap64(x);
    var q1 := (x - y) / TWO_TO_64;
    var q2 := (x - r) / TWO_TO_64;
    assert x - y == TWO_TO_64 * q1;
    assert x - r == TWO_TO_64 * q2;
    assert r - y == TWO_TO_64 * (q1 - q2);
  }

  /** Wrapping does nothing to a value that already fits. */
  lemma WrapInRange(x: int)
    requires MIN_INT64 <= x <= MAX_INT64
    ensures Wrap64(x) == x
  {
    WrapUnique(x, x);
  }

  /** Adding after wrapping is wrapping after adding. */
  lemma WrapAdd(a: int, b: int)
    ensures Wrap64(Wrap64(a) + b) == Wrap64(a + b)
  {
    var ra, rab := Wrap64(a), Wrap64(a + b);
    var qa := (a - ra) / TWO_TO_64;
    var qab := (a + b - rab) / TWO_TO_64;
    assert a - ra == TWO_TO_64 * qa;
    assert a + b - rab == TWO_TO_64 * qab;
    assert ra + b - rab == TWO_TO_64 * (qab - qa);
    WrapUnique(ra + b, rab);
  }

  /** Multiplying after wrapping is wrapping after multiplying. */
  lemma WrapMul(a: int, b: int)
    ensures Wrap64(Wrap64(a) * b) == Wrap64(a * b)
  {
    var ra, rab := Wrap64(a), Wrap64(a * b);
    var qa := (a - ra) / TWO_TO_64;
    var qab := (a * b - rab) / TWO_TO_64;
    assert a - ra == TWO_TO_64 * qa;
    assert a * b - rab == TWO_TO_64 * qab;
    MulShift(a, ra, b, qa);
    assert ra * b - rab == TWO_TO_64 * (qab - qa * b);
    WrapUnique(ra * b, rab);
  }

  /** Scaling a difference that is a multiple of 2^64 keeps it a multiple of 2^64. */
  lemma MulShift(a: int, ra: int, b: int, q: int)
    requires a - ra == TWO_TO_64 * q
    ensures ra * b == a * b - TWO_TO_64 * (q * b)
  {
    assert ra == a - TWO_TO_64 * q;
    assert (a - TWO_TO_64 * q) * b == a * b - (TWO_TO_64 * q) * b;
  }

  /** The mathematical sum of a sequence, accumulated left to right. */
  function Total(s: seq<int>): int
  {
    if s == [] then 0 else Total(s[..|s| - 1]) + s[|s| - 1]
  }

  /** The sum of a concatenation is the sum of the sums. */
  lemma {:induction false} TotalAppend(a: seq<int>, b: seq<int>)
    ensures Total(a + b) == Total(a) + Total(b)
  {
    if b == [] {
      assert a + b == a;
    } else {
      var b' := b[..|b| - 1];
      assert (a + b)[..|a + b| - 1] == a + b';
      TotalAppend(a, b');
    }
  }

  /** The sum of a sequence is its first element plus the sum of the rest. */
  lemma TotalCons(x: int, s: seq<int>)
    ensures Total([x] + s) == x + Total(s)
  {
    TotalAppend([x], s);
    assert [x][..0] == [];
  }

  /** No partial sum of `s`, taken from the front, leaves the `i32` range. */
  predicate SumFitsInt32(s: seq<int>)
  {
    forall k :: 0 <= k <= |s| ==> IsInt32(Total(s[..k]))
  }

  /**
   * Rust's `Iterator::sum` over `i32`: a fold from the front that panics as
   * soon as a partial sum overflows; so `acc` plus every partial sum of
   * `rest` must fit.
   */
  function FoldSum(acc: Int32, rest: seq<Int32>): (r: Int32)
    requires forall k :: 0 <= k <= |rest| ==> IsInt32(acc + Total(rest[..k]))
    ensures r == acc + Total(rest)
    decreases |rest|
  {
    if rest == [] then acc
    else
      assert forall k :: 0 <= k <= |rest| - 1 ==> rest[..k + 1] == [rest[0]] + rest[1..][..k];
      TotalStep(rest);
      assert rest[1..][..0] == [] && IsInt32(acc + Total(rest[..1]));
      FoldSum(acc + rest[0], rest[1..])
  }

  lemma TotalStep(rest: seq<int>)
    requires rest != []
    ensures forall k :: 0 <= k <= |rest| - 1 ==> Total(rest[..k + 1]) == rest[0] + Total(rest[1..][..k])
    ensures Total(rest) == rest[0] + Total(rest[1..])
  {
    forall k | 0 <= k <= |rest| - 1 ensures Total(rest[..k + 1]) == rest[0] + Total(rest[1..][..k]) {
      assert rest[..k + 1] == [rest[0]] + rest[1..][..k];
      TotalCons(rest[0], rest[1..][..k]);
    }
    assert rest == [rest[0]] + rest[1..];
    TotalCons(rest[0], rest[1..]);
  }

  /** `iter().sum()` of `i32` values: the total, when no partial sum overflows. */
  function IterSum(s: seq<Int32>): (r: Int32)
    requires SumFitsInt32(s)
    ensures r == Total(s)
  {
    FoldSum(0, s)
  }
}
