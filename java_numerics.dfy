/**
 * The two pieces of Java numeric semantics the game relies on: the `(int)` cast
 * of a `double`, which truncates toward zero, and 32-bit `int` arithmetic,
 * which wraps around.
 */
module JavaNumerics {

  /** Java's `int`. */
  newtype Int32 = x: int | -0x8000_0000 <= x < 0x8000_0000

  const TwoTo32: int := 0x1_0000_0000

  /**
   * The `int` that Java's `+` or `-` yields for the mathematical value `x`:
   * `x` shifted by whole multiples of 2^32 into the `int` range.
   */
  function Wrap32(x: int): (r: Int32)
    ensures -0x8000_0000 <= x < 0x8000_0000 ==> r as int == x
    decreases if x >= 0 then 2 * x else -2 * x - 1
  {
    if x >= 0x8000_0000 then Wrap32(x - TwoTo32)
    else if x < -0x8000_0000 then Wrap32(x + TwoTo32)
    else x as Int32
  }

  /** The wrapped value differs from `x` by a whole multiple of 2^32. */
  lemma {:induction false} WrapOffset(x: int) returns (k: int)
    ensures Wrap32(x) as int == x + k * TwoTo32
    decreases if x >= 0 then 2 * x else -2 * x - 1
  {
    if x >= 0x8000_0000 {
      var j := WrapOffset(x - TwoTo32);
      k := j - 1;
    } else if x < -0x8000_0000 {
      var j := WrapOffset(x + TwoTo32);
      k := j + 1;
    } else {
      k := 0;
    }
  }

  /** Values 2^32 apart wrap to the same `int`. */
  lemma WrapStep(x: int)
    ensures Wrap32(x + TwoTo32) == Wrap32(x)
  {
  }

  /** Shifting by a multiple of 2^32 does not change the wrapped value. */
  lemma {:induction false} ModShift(x: int, k: int)
    ensures Wrap32(x + k * TwoTo32) == Wrap32(x)
    decreases if k >= 0 then k else -k
  {
    if k > 0 {
      ModShift(x, k - 1);
      WrapStep(x + (k - 1) * TwoTo32);
    } else if k < 0 {
      ModShift(x, k + 1);
      WrapStep(x + k * TwoTo32);
    }
  }

  /** Wrapping twice is wrapping once: `(a + b) + c` on ints wraps like `a + b + c`. */
  lemma WrapAdd(a: int, b: int)
    ensures Wrap32(Wrap32(a) as int + b) == Wrap32(a + b)
  {
    var k := WrapOffset(a);
    ModShift(a + b, k);
  }

  /** Java's `(int) d` for a finite `double` within the `int` range: truncation toward zero. */
  function Trunc(x: real): (r: int)
    ensures 0.0 <= x ==> r as real <= x < r as real + 1.0
    ensures x < 0.0 ==> r as real - 1.0 < x <= r as real
  {
    if x >= 0.0 then x.Floor else -((-x).Floor)
  }

  /** Casting a value that is already whole changes nothing. */
  lemma TruncOfWhole(n: int)
    ensures Trunc(n as real) == n
  {
  }
}
