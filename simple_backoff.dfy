/** The simple backoff strategy: the same wait for each of the first
    `maxRetries` attempts, then the abandon sentinel -1. */
module SimpleBackoff {

  /** The strategy closure: attempt `retryCount` waits `timeout`, or is
      abandoned (-1) once `retryCount` reaches `maxRetries`. */
  function Delay(timeout: int, maxRetries: int, retryCount: nat): int
  {
    if retryCount < maxRetries then timeout else -1
  }

  /** Below the limit every attempt waits exactly `timeout`. */
  lemma BelowLimit(timeout: int, maxRetries: int, retryCount: nat)
    requires retryCount < maxRetries
    ensures Delay(timeout, maxRetries, retryCount) == timeout
  {
  }

  /** From the limit on, every attempt is abandoned. */
  lemma AtOrAboveLimit(timeout: int, maxRetries: int, retryCount: nat)
    requires maxRetries <= retryCount
    ensures Delay(timeout, maxRetries, retryCount) == -1
  {
  }

  /** The wait does not depend on the attempt while below the limit. */
  lemma ConstantBelowLimit(timeout: int, maxRetries: int, i: nat, j: nat)
    requires i < maxRetries && j < maxRetries
    ensures Delay(timeout, maxRetries, i) == Delay(timeout, maxRetries, j)
  {
  }

  /** With no retries allowed, even the first attempt is abandoned. */
  lemma ZeroRetriesAbandons(timeout: int, retryCount: nat)
    ensures Delay(timeout, 0, retryCount) == -1
  {
  }

  /** With a non-negative timeout, the attempts that get a wait (rather than
      the sentinel) are exactly 0 .. maxRetries-1. */
  lemma WaitsExactlyBelowLimit(timeout: int, maxRetries: int, retryCount: nat)
    requires timeout >= 0
    ensures Delay(timeout, maxRetries, retryCount) >= 0 <==> retryCount < maxRetries
  {
  }
}
