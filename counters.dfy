/** `Level.Counter`: a Java `int` that is increased and decreased in place. */
module Counters {
  import opened JavaNumerics

  class Counter {
    var count: Int32

    constructor (count: Int32)
      ensures this.count == count
    {
      this.count := count;
    }

    /** `count += number`, with Java's 32-bit wrap-around. */
    method Increase(number: Int32)
      modifies this
      ensures count == Wrap32(old(count) as int + number as int)
    {
      count := Wrap32(count as int + number as int);
    }

    /** `count -= number`: no lower bound, so the count can go negative. */
    method Decrease(number: Int32)
      modifies this
      ensures count == Wrap32(old(count) as int - number as int)
    {
      count := Wrap32(count as int - number as int);
    }

    function GetValue(): Int32
      reads this
    {
      count
    }
  }

  /** Increasing by `n` and then decreasing by `n` restores any count, even across wrap-around. */
  lemma IncreaseThenDecrease(c: Int32, n: Int32)
    ensures Wrap32(Wrap32(c as int + n as int) as int - n as int) == c
  {
    WrapAdd(c as int + n as int, -(n as int));
  }

  /** Increasing by `a` and then by `b` is increasing once by `a + b`. */
  lemma IncreaseTwice(c: Int32, a: int, b: int)
    ensures Wrap32(Wrap32(c as int + a) as int + b) == Wrap32(c as int + (a + b))
  {
    WrapAdd(c as int + a, b);
  }

  /** Decreasing below zero is allowed: from 3, decreasing by 5 gives -2. */
  lemma DecreaseGoesNegative()
    ensures Wrap32(3 - 5) == -2
  {
  }
}
