/**
 * The instruction-counting decay-timer policy (src/timer.rs): the 60 Hz
 * timers tick once every eight executed instructions.
 */
module Timer {
  import opened Bytes

  const INSTRUCTIONS_PER_TICK: uint8 := 8

  /** The counter after one `should_tick` call: back to 8 after a tick, otherwise one less. */
  function NextCounter(counter: uint8): (next: uint8)
    requires 1 <= counter <= INSTRUCTIONS_PER_TICK
    ensures 1 <= next <= INSTRUCTIONS_PER_TICK
    ensures counter == 1 <==> next == INSTRUCTIONS_PER_TICK
  {
    if counter == 1 then INSTRUCTIONS_PER_TICK else counter - 1
  }

  /** The counter of a new timer after `n` calls to `should_tick`. */
  function CounterAfter(n: nat): (counter: uint8)
    ensures 1 <= counter <= INSTRUCTIONS_PER_TICK
  {
    if n == 0 then INSTRUCTIONS_PER_TICK else NextCounter(CounterAfter(n - 1))
  }

  /** Whether call number `n + 1` (counting from 1) on a new timer ticks. */
  predicate TicksOnCall(n: nat)
  {
    CounterAfter(n) == 1
  }

  /** After `n` calls the counter is 8 - (n mod 8). */
  lemma {:induction false} CounterAfterFormula(n: nat)
    ensures CounterAfter(n) == INSTRUCTIONS_PER_TICK - n % 8
  {
    if n > 0 {
      CounterAfterFormula(n - 1);
      var q, r := (n - 1) / 8, (n - 1) % 8;
      assert n == 8 * q + r + 1;
      if r == 7 {
        assert n == 8 * (q + 1);
        assert n % 8 == 0;
      } else {
        assert n % 8 == r + 1;
      }
    }
  }

  /** Calls 8k+1 .. 8k+7 return false and call 8k+8 returns true: a strict 7-then-1 cycle. */
  lemma TickCadence(n: nat)
    ensures TicksOnCall(n) <==> (n + 1) % 8 == 0
  {
    CounterAfterFormula(n);
  }

  /** Any eight consecutive calls m+1 .. m+8 contain exactly one tick, at call m + 8 - m mod 8. */
  lemma OneTickInEveryEight(m: nat)
    ensures forall n :: m <= n < m + 8 ==> (TicksOnCall(n) <==> n == m + 7 - m % 8)
  {
    forall n | m <= n < m + 8 ensures TicksOnCall(n) <==> n == m + 7 - m % 8 {
      TickCadence(n);
    }
  }

  class InstructionTimer {
    var counter: uint8

    ghost predicate Valid()
      reads this
    {
      1 <= counter <= INSTRUCTIONS_PER_TICK
    }

    /** `InstructionTimer::new`: the counter starts at 8. */
    constructor ()
      ensures Valid() && counter == INSTRUCTIONS_PER_TICK && counter == CounterAfter(0)
    {
      counter := INSTRUCTIONS_PER_TICK;
    }

    /**
     * `should_tick`: true exactly when the counter was 1; the counter then
     * resets to 8, otherwise it decreases by one (never below 1).
     */
    method ShouldTick() returns (shouldTick: bool)
      requires Valid()
      modifies this
      ensures Valid()
      ensures shouldTick <==> old(counter) == 1
      ensures counter == if shouldTick then INSTRUCTIONS_PER_TICK else old(counter) - 1
      ensures counter == NextCounter(old(counter))
    {
      shouldTick := counter == 1;
      counter := if shouldTick then INSTRUCTIONS_PER_TICK else counter - 1;
    }
  }
}
