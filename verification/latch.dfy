/** The completion tracker: a `java.util.concurrent.CountDownLatch`, modelled
    by its count alone. The blocking `await()` is out of the model; what it
    waits for is `Released`. */
module Latch {

  /** `countDown()`: lowers a positive count by one and leaves a zero count
      at zero. */
  function CountDown(count: nat): (r: nat)
    ensures count > 0 ==> r + 1 == count
    ensures count == 0 ==> r == 0
  {
    if count == 0 then 0 else count - 1
  }

  /** `await()` returns once the count is zero. */
  predicate Released(count: nat) {
    count == 0
  }

  /** The latch after `k` calls of `countDown()`. */
  function CountDownTimes(count: nat, k: nat): nat
    decreases k
  {
    if k == 0 then count else CountDownTimes(CountDown(count), k - 1)
  }

  /** `k` calls lower the count by exactly `k` as long as `k` does not exceed
      it, and once it is reached every further call is absorbed. */
  lemma {:induction false} CountDownTimesSaturates(count: nat, k: nat)
    ensures CountDownTimes(count, k) == if k <= count then count - k else 0
    decreases k
  {
    if k > 0 {
      CountDownTimesSaturates(CountDown(count), k - 1);
    }
  }

  /** A latch sized to `n` is released by exactly `n` calls and by no fewer. */
  lemma ReleasedAfterExactly(n: nat, k: nat)
    ensures Released(CountDownTimes(n, k)) <==> k >= n
  {
    CountDownTimesSaturates(n, k);
  }
}
