/** The Fibonacci backoff strategy: a precomputed table of Fibonacci numbers,
    scaled by `timeoutMultiplier`, saturating at the last table entry, until
    `maxRetries` is reached. */
module FibonacciBackoff {

  /** The precomputed table. */
  const Fib: seq<int> := [1, 2, 3, 5, 8, 13, 21, 34, 55, 89, 144, 233, 377, 610, 987, 1597, 2584, 4181]

  /** The number of precomputed entries. */
  const MaxFib: nat := |Fib|

  const DefaultTimeoutMultiplier: int := 1000

  /** The strategy closure. */
  function Delay(timeoutMultiplier: int, maxRetries: int, retryCount: nat): int
  {
    if retryCount < maxRetries then
      if retryCount < MaxFib then Fib[retryCount] * timeoutMultiplier
      else Fib[MaxFib - 1] * timeoutMultiplier
    else -1
  }

  /** An independent definition of the sequence the table holds: it starts
      1, 2 and each term is the sum of the two before it. */
  function FibSeq(k: nat): nat
  {
    if k == 0 then 1 else if k == 1 then 2 else FibSeq(k - 2) + FibSeq(k - 1)
  }

  /** The table is the first 18 terms of FibSeq, ending in 4181. */
  lemma TableIsFibonacci()
    ensures MaxFib == 18 && Fib[MaxFib - 1] == 4181
    ensures forall k :: 0 <= k < MaxFib ==> Fib[k] == FibSeq(k)
  {
    assert FibSeq(0) == 1 && FibSeq(1) == 2;
    assert FibSeq(2) == 3 && FibSeq(3) == 5 && FibSeq(4) == 8 && FibSeq(5) == 13;
    assert FibSeq(6) == 21 && FibSeq(7) == 34 && FibSeq(8) == 55 && FibSeq(9) == 89;
    assert FibSeq(10) == 144 && FibSeq(11) == 233 && FibSeq(12) == 377;
    assert FibSeq(13) == 610 && FibSeq(14) == 987 && FibSeq(15) == 1597;
    assert FibSeq(16) == 2584 && FibSeq(17) == 4181;
  }

  /** The table's own recurrence: fib[k+2] = fib[k] + fib[k+1]. */
  lemma TableRecurrence(k: nat)
    requires k + 2 < MaxFib
    ensures Fib[k + 2] == Fib[k] + Fib[k + 1]
  {
    TableIsFibonacci();
  }

  /** The sequence never decreases. */
  lemma {:induction false} FibSeqMonotone(i: nat, j: nat)
    requires i <= j
    ensures FibSeq(i) <= FibSeq(j)
    decreases j - i
  {
    if i < j {
      FibSeqMonotone(i, j - 1);
      assert FibSeq(j - 1) <= FibSeq(j);
    }
  }

  /** The table entry used for attempt `retryCount` (the last entry once the
      table runs out). */
  function Entry(retryCount: nat): int
  {
    Fib[if retryCount < MaxFib then retryCount else MaxFib - 1]
  }

  /** Below both the limit and the table length, the wait is the table entry
      times the multiplier. */
  lemma BelowTable(timeoutMultiplier: int, maxRetries: int, retryCount: nat)
    requires retryCount < maxRetries && retryCount < MaxFib
    ensures Delay(timeoutMultiplier, maxRetries, retryCount) == Fib[retryCount] * timeoutMultiplier
  {
  }

  /** Past the table, below the limit, the wait saturates at 4181 times the
      multiplier. */
  lemma Saturates(timeoutMultiplier: int, maxRetries: int, retryCount: nat)
    requires MaxFib <= retryCount < maxRetries
    ensures Delay(timeoutMultiplier, maxRetries, retryCount) == 4181 * timeoutMultiplier
  {
  }

  /** From the limit on, every attempt is abandoned; so maxRetries = 0
      abandons every attempt. */
  lemma AtOrAboveLimit(timeoutMultiplier: int, maxRetries: int, retryCount: nat)
    requires maxRetries <= retryCount
    ensures Delay(timeoutMultiplier, maxRetries, retryCount) == -1
  {
  }

  /** Table entries used by later attempts are never smaller. */
  lemma EntryMonotone(i: nat, j: nat)
    requires i <= j
    ensures Entry(i) <= Entry(j)
  {
    TableIsFibonacci();
    FibSeqMonotone(if i < MaxFib then i else MaxFib - 1, if j < MaxFib then j else MaxFib - 1);
  }

  /** With a non-negative multiplier, waits never decrease while below the
      limit. */
  lemma NonDecreasing(timeoutMultiplier: int, maxRetries: int, i: nat, j: nat)
    requires timeoutMultiplier >= 0
    requires i <= j < maxRetries
    ensures Delay(timeoutMultiplier, maxRetries, i) <= Delay(timeoutMultiplier, maxRetries, j)
  {
    EntryMonotone(i, j);
    var x, y := Entry(i), Entry(j);
    assert Delay(timeoutMultiplier, maxRetries, i) == x * timeoutMultiplier;
    assert Delay(timeoutMultiplier, maxRetries, j) == y * timeoutMultiplier;
    assert (y - x) * timeoutMultiplier >= 0;
  }

  /** With the default multiplier 1000 the waits are fib[min(i,17)] * 1000:
      1000, 2000, 3000, 5000, ..., 4181000, 4181000, ... */
  lemma DefaultScaledEntry(maxRetries: int, retryCount: nat)
    requires retryCount < maxRetries
    ensures Delay(DefaultTimeoutMultiplier, maxRetries, retryCount)
            == Fib[if retryCount < 17 then retryCount else 17] * 1000
  {
  }
}
