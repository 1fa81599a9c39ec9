/** The exponential backoff strategy: `base` raised to `retryCount + offset`,
    scaled by `timeoutMultiplier`, until `maxRetries` is reached. Only integer
    configurations are modelled (see README). */
module ExponentialBackoff {

  const DefaultBase: int := 2
  const DefaultOffset: nat := 2
  const DefaultTimeoutMultiplier: int := 100

  /** `b` to the power `e`; stands for the exponentiation operator. */
  function Pow(b: int, e: nat): int
  {
    if e == 0 then 1 else b * Pow(b, e - 1)
  }

  /** The strategy closure. */
  function Delay(base: int, offset: nat, timeoutMultiplier: int, maxRetries: int, retryCount: nat): int
  {
    if retryCount < maxRetries then Pow(base, retryCount + offset) * timeoutMultiplier else -1
  }

  /** The strategy with every optional setting left at its default. */
  function DefaultDelay(maxRetries: int, retryCount: nat): int
  {
    Delay(DefaultBase, DefaultOffset, DefaultTimeoutMultiplier, maxRetries, retryCount)
  }

  /** Exponents add: b^(m+n) = b^m * b^n. */
  lemma {:induction false} PowAdd(b: int, m: nat, n: nat)
    ensures Pow(b, m + n) == Pow(b, m) * Pow(b, n)
  {
    if n == 0 {
      assert Pow(b, m + 0) == Pow(b, m) * 1;
    } else {
      calc {
        Pow(b, m + n);
        b * Pow(b, m + n - 1);
        { PowAdd(b, m, n - 1); }
        b * (Pow(b, m) * Pow(b, n - 1));
        Pow(b, m) * (b * Pow(b, n - 1));
        Pow(b, m) * Pow(b, n);
      }
    }
  }

  /** A non-negative base has non-negative powers. */
  lemma {:induction false} PowNonNegative(b: int, e: nat)
    requires b >= 0
    ensures Pow(b, e) >= 0
  {
    if e > 0 {
      PowNonNegative(b, e - 1);
      assert b * Pow(b, e - 1) >= 0;
    }
  }

  /** Below the limit the wait is base^(retryCount+offset) * timeoutMultiplier. */
  lemma BelowLimit(base: int, offset: nat, timeoutMultiplier: int, maxRetries: int, retryCount: nat)
    requires retryCount < maxRetries
    ensures Delay(base, offset, timeoutMultiplier, maxRetries, retryCount)
            == Pow(base, retryCount + offset) * timeoutMultiplier
  {
  }

  /** From the limit on, every attempt is abandoned; so maxRetries = 0
      abandons every attempt. */
  lemma AtOrAboveLimit(base: int, offset: nat, timeoutMultiplier: int, maxRetries: int, retryCount: nat)
    requires maxRetries <= retryCount
    ensures Delay(base, offset, timeoutMultiplier, maxRetries, retryCount) == -1
  {
  }

  /** Each wait below the limit is `base` times the previous one. */
  lemma Growth(base: int, offset: nat, timeoutMultiplier: int, maxRetries: int, retryCount: nat)
    requires retryCount + 1 < maxRetries
    ensures Delay(base, offset, timeoutMultiplier, maxRetries, retryCount + 1)
            == base * Delay(base, offset, timeoutMultiplier, maxRetries, retryCount)
  {
  }

  /** With the defaults (base 2, offset 2, multiplier 100) the waits are
      400 * 2^retryCount: 400, 800, 1600, ... */
  lemma {:induction false} DefaultsDoubleFrom400(maxRetries: int, retryCount: nat)
    requires retryCount < maxRetries
    ensures DefaultDelay(maxRetries, retryCount) == 400 * Pow(2, retryCount)
  {
    PowAdd(2, retryCount, 2);
    assert Pow(2, 2) == 4;
  }

  /** With a non-negative base and multiplier, an attempt gets a wait rather
      than the sentinel exactly when it is below the limit. */
  lemma WaitsExactlyBelowLimit(base: int, offset: nat, timeoutMultiplier: int, maxRetries: int, retryCount: nat)
    requires base >= 0 && timeoutMultiplier >= 0
    ensures Delay(base, offset, timeoutMultiplier, maxRetries, retryCount) >= 0
            <==> retryCount < maxRetries
  {
    if retryCount < maxRetries {
      PowNonNegative(base, retryCount + offset);
      assert Pow(base, retryCount + offset) * timeoutMultiplier >= 0;
    }
  }
}
