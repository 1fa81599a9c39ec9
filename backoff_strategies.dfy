/** The three backoff strategy factories, as one datatype of configurations
    and one evaluation function. A strategy maps an attempt index to a wait,
    or to the abandon sentinel -1. */
module BackoffStrategies {
  import SimpleBackoff
  import ExponentialBackoff
  import FibonacciBackoff

  /** The sentinel a strategy returns to say "give up". */
  const Abandon: int := -1

  /** A strategy configuration; each factory closes over one of these. */
  datatype Strategy =
    | Simple(timeout: int, maxRetries: int)
    | Exponential(base: int, offset: nat, timeoutMultiplier: int, maxRetries: int)
    | Fibonacci(timeoutMultiplier: int, maxRetries: int)

  /** The exponential factory with base, offset and multiplier left at their
      defaults (2, 2, 100). */
  function MakeExponential(maxRetries: int): Strategy
  {
    Exponential(ExponentialBackoff.DefaultBase, ExponentialBackoff.DefaultOffset,
                ExponentialBackoff.DefaultTimeoutMultiplier, maxRetries)
  }

  /** The Fibonacci factory with its multiplier left at the default 1000. */
  function MakeFibonacci(maxRetries: int): Strategy
  {
    Fibonacci(FibonacciBackoff.DefaultTimeoutMultiplier, maxRetries)
  }

  /** The strategy the retry controller uses when none is supplied. */
  const DefaultStrategy: Strategy := Simple(1000, 5)

  /** Calls the strategy closure on attempt `retryCount`. */
  function Eval(s: Strategy, retryCount: nat): int
  {
    match s
    case Simple(timeout, maxRetries) =>
      SimpleBackoff.Delay(timeout, maxRetries, retryCount)
    case Exponential(base, offset, timeoutMultiplier, maxRetries) =>
      ExponentialBackoff.Delay(base, offset, timeoutMultiplier, maxRetries, retryCount)
    case Fibonacci(timeoutMultiplier, maxRetries) =>
      FibonacciBackoff.Delay(timeoutMultiplier, maxRetries, retryCount)
  }

  /** The largest retry count a controller driven by `s` can reach. A negative
      maxRetries (which no factory rejects) allows no retry at all. */
  function Limit(s: Strategy): nat
  {
    if s.maxRetries < 0 then 0 else s.maxRetries
  }

  /** Every strategy returns the sentinel from its limit on, and a wait is
      only ever granted below the limit. */
  lemma AbandonsAtLimit(s: Strategy, retryCount: nat)
    ensures retryCount >= s.maxRetries ==> Eval(s, retryCount) == Abandon
    ensures Eval(s, retryCount) >= 0 ==> retryCount < Limit(s)
  {
  }

  /** The default strategy waits 1000 for attempts 0..4 and gives up at 5. */
  lemma DefaultStrategyWaits(retryCount: nat)
    ensures retryCount < 5 ==> Eval(DefaultStrategy, retryCount) == 1000
    ensures retryCount >= 5 ==> Eval(DefaultStrategy, retryCount) == Abandon
  {
  }
}
