/**
 * The deterministic random source used for testing (src/random.rs): it
 * hands out a fixed, non-empty list of numbers over and over.
 */
module Random {
  import opened Bytes

  /** The index after `k` calls to `gen` on a new source over `length` numbers. */
  function IndexAfter(length: nat, k: nat): (index: nat)
    requires length > 0
    ensures index < length
  {
    if k == 0 then 0 else (IndexAfter(length, k - 1) + 1) % length
  }

  /** After `k` calls the index is k mod length, so call k (from 0) returns numbers[k mod length]. */
  lemma {:induction false} IndexAfterIsMod(length: nat, k: nat)
    requires length > 0
    ensures IndexAfter(length, k) == k % length
  {
    if k == 0 {
      ModUnique(0, length, 0, 0);
    } else {
      IndexAfterIsMod(length, k - 1);
      ModSuccessor(k - 1, length);
      assert IndexAfter(length, k) == ((k - 1) % length + 1) % length;
    }
  }

  /** Multiplying by a positive number preserves order. */
  lemma MulMonotonic(x: int, y: int, n: int)
    requires n > 0 && x <= y
    ensures x * n <= y * n
  {
    var d := y - x;
    assert y * n == x * n + d * n;
  }

  /** The remainder is determined by any quotient-remainder decomposition. */
  lemma ModUnique(a: int, n: int, q: int, r: int)
    requires n > 0 && 0 <= r < n && a == q * n + r
    ensures a % n == r
  {
    var q0, r0 := a / n, a % n;
    var d := q0 - q;
    assert d * n == r - r0 by {
      assert q0 * n == q * n + d * n;
    }
    if d >= 1 {
      MulMonotonic(1, d, n);
      assert false;
    } else if d <= -1 {
      MulMonotonic(d, -1, n);
      assert false;
    }
  }

  /** Adding one commutes with reduction modulo n. */
  lemma ModSuccessor(a: nat, n: nat)
    requires n > 0
    ensures (a % n + 1) % n == (a + 1) % n
  {
    var q, r := a / n, a % n;
    assert a == q * n + r;
    if r + 1 < n {
      ModUnique(a + 1, n, q, r + 1);
      ModUnique(r + 1, n, 0, r + 1);
    } else {
      assert (q + 1) * n == q * n + n;
      ModUnique(a + 1, n, q + 1, 0);
      ModUnique(n, n, 1, 0);
    }
  }

  class FixedRandomSource {
    const numbers: seq<uint8>
    var index: nat

    ghost predicate Valid()
      reads this
    {
      |numbers| > 0 && index < |numbers|
    }

    /** `FixedRandomSource::new`: panics on an empty list; starts at the first number. */
    constructor (numbers: seq<uint8>)
      requires |numbers| > 0
      ensures Valid() && this.numbers == numbers && index == IndexAfter(|numbers|, 0)
    {
      this.numbers := numbers;
      index := 0;
    }

    /** `gen`: the number at the index; the index then advances cyclically. */
    method Gen() returns (number: uint8)
      requires Valid()
      modifies this
      ensures Valid()
      ensures number == numbers[old(index)]
      ensures index == (old(index) + 1) % |numbers|
      ensures forall k: nat :: old(index) == IndexAfter(|numbers|, k) ==> index == IndexAfter(|numbers|, k + 1)
    {
      number := numbers[index];
      index := (index + 1) % |numbers|;
    }
  }

  /** The source's unit test: over [12, 34, 56] six calls give 12, 34, 56, 12, 34, 56. */
  method FixedSequenceExample()
  {
    var source := new FixedRandomSource([12, 34, 56]);
    var a := source.Gen();
    var b := source.Gen();
    var c := source.Gen();
    var d := source.Gen();
    var e := source.Gen();
    var f := source.Gen();
    assert [a, b, c, d, e, f] == [12, 34, 56, 12, 34, 56];
  }
}
