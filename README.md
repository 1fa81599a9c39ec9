# use-retry in Dafny

A verified model of the core of `use-retry`, a React hook that decides when
to retry a failing asynchronous operation and when to give up.

- **Backoff strategies.** The three factories `makeSimpleBackoffStrategy`,
  `makeExponentialBackoffStrategy` and `makeFibonacciBackoffStrategy` each
  return a pure function from an attempt index to a wait. From `maxRetries`
  on, that function returns the abandon sentinel `-1`. Each factory is one
  module (`SimpleBackoff`, `ExponentialBackoff`, `FibonacciBackoff`) with a
  `Delay` function and lemmas about it. `BackoffStrategies` joins them as one
  `Strategy` datatype with `Eval`, and it also holds the hook's default
  strategy, Simple {timeout 1000, maxRetries 5}.
- **The retry controller.** `useRetry` runs a prioritised if/else chain on
  every render. `UseRetry.Controller` is a class with fields for the status,
  the retry count and the held timer handle, and with methods `Observe` (one
  render), `Fire` (a timer expiring) and `Teardown` (the unmount cleanup).
  The strategy is a parameter `f: nat -> int`. The host's timer queue is also
  state (`timers`: handle to delay), and `nextHandle` counts the timers
  armed. Ghost counters record strategy consultations, `retry` invocations
  and `clearTimeout` calls. `Valid()` ties them together: every armed timer
  is still pending, has fired once, or was cleared.
- **Scenarios.** `RetryScenarios.Run` drives a fresh controller with one of
  the three concrete strategies through any sequence of renders and
  expiries. It proves that the retry count never exceeds the strategy's
  `maxRetries` (0 for a negative limit), and that the status stays IDLE exactly while no flag has
  been raised. The other methods in that module replay the hook's test
  scenarios step by step.

The model follows what the code does with its single timer handle:
- A success during BACKOFF leaves the timer armed, so a timer can be pending
  outside BACKOFF (`SuccessKeepsTimer`).
- A "running, then failing again" sequence, while an earlier timer is still
  pending, arms a second timer and overwrites the held handle. Two timers are
  then pending at once.
- Unmounting clears only the held handle. The comment at src/useRetry.ts:40-42
  says a queued retry must be cancelled on unmount, but after the sequence
  above the first timer survives the unmount and still calls `retry`
  (`StaleTimerOutlivesUnmount`).

No factory validates `maxRetries`; a negative limit abandons every attempt
(`BackoffStrategies.AbandonsAtLimit`).

## Model

| member | source | states |
|---|---|---|
| `SimpleBackoff.Delay` | src/backoffStrategies/makeSimpleBackoffStrategy.ts:14-15 | the closure: `timeout` below `maxRetries`, otherwise -1 |
| `SimpleBackoff.BelowLimit` | src/backoffStrategies/makeSimpleBackoffStrategy.ts:14-15 | below `maxRetries` every attempt waits exactly `timeout` |
| `SimpleBackoff.AtOrAboveLimit` | src/backoffStrategies/makeSimpleBackoffStrategy.ts:15 | from `maxRetries` on, every attempt gets the sentinel -1 |
| `SimpleBackoff.ConstantBelowLimit` | src/backoffStrategies/makeSimpleBackoffStrategy.ts:9-15 | any two attempts below the limit get the same wait |
| `SimpleBackoff.ZeroRetriesAbandons` | src/backoffStrategies/makeSimpleBackoffStrategy.ts:15 | with `maxRetries = 0`, every attempt, including attempt 0, is abandoned |
| `SimpleBackoff.WaitsExactlyBelowLimit` | src/backoffStrategies/makeSimpleBackoffStrategy.ts:15 | with `timeout >= 0`, an attempt gets a non-negative wait if and only if it is below `maxRetries` |
| `ExponentialBackoff.Pow` | src/backoffStrategies/makeExponentialBackoffStrategy.ts:27 | integer power standing for `**` on a natural exponent |
| `ExponentialBackoff.Delay` | src/backoffStrategies/makeExponentialBackoffStrategy.ts:26-28 | the closure: base^(retryCount+offset) * timeoutMultiplier below `maxRetries`, otherwise -1 |
| `ExponentialBackoff.DefaultDelay` | src/backoffStrategies/makeExponentialBackoffStrategy.ts:21-24 | the closure with base, offset and multiplier at their defaults 2, 2 and 100 |
| `ExponentialBackoff.PowAdd` | src/backoffStrategies/makeExponentialBackoffStrategy.ts:27 | the power used for `**` adds exponents: b^(m+n) = b^m * b^n (by induction) |
| `ExponentialBackoff.PowNonNegative` | src/backoffStrategies/makeExponentialBackoffStrategy.ts:27 | a non-negative base has non-negative powers (by induction) |
| `ExponentialBackoff.BelowLimit` | src/backoffStrategies/makeExponentialBackoffStrategy.ts:26-27 | below `maxRetries` the wait is base^(retryCount+offset) * timeoutMultiplier |
| `ExponentialBackoff.AtOrAboveLimit` | src/backoffStrategies/makeExponentialBackoffStrategy.ts:27 | from `maxRetries` on, every attempt is abandoned, so `maxRetries = 0` abandons everything |
| `ExponentialBackoff.Growth` | src/backoffStrategies/makeExponentialBackoffStrategy.ts:27 | each wait below the limit is `base` times the previous one |
| `ExponentialBackoff.DefaultsDoubleFrom400` | src/backoffStrategies/makeExponentialBackoffStrategy.ts:21-28 | with the defaults base 2, offset 2 and multiplier 100, the waits are 400 * 2^i: 400, 800, 1600, ... |
| `ExponentialBackoff.WaitsExactlyBelowLimit` | src/backoffStrategies/makeExponentialBackoffStrategy.ts:27 | with base and multiplier non-negative, an attempt gets a non-negative wait if and only if it is below `maxRetries` |
| `FibonacciBackoff.Delay` | src/backoffStrategies/makeFibonacciBackoffStrategy.ts:25-36 | the closure: fib[i] * timeoutMultiplier below the limit and the table length, the last entry times the multiplier past the table, otherwise -1 |
| `FibonacciBackoff.TableIsFibonacci` | src/backoffStrategies/makeFibonacciBackoffStrategy.ts:8-9 | the table has 18 entries ending in 4181, and each entry equals an independently defined sequence starting 1, 2 in which every term is the sum of the two before it |
| `FibonacciBackoff.TableRecurrence` | src/backoffStrategies/makeFibonacciBackoffStrategy.ts:8 | fib[k+2] = fib[k] + fib[k+1] throughout the table |
| `FibonacciBackoff.FibSeqMonotone` | src/backoffStrategies/makeFibonacciBackoffStrategy.ts:8 | the Fibonacci sequence never decreases (by induction) |
| `FibonacciBackoff.EntryMonotone` | src/backoffStrategies/makeFibonacciBackoffStrategy.ts:27-33 | the table entry used for a later attempt, saturation included, is never smaller |
| `FibonacciBackoff.BelowTable` | src/backoffStrategies/makeFibonacciBackoffStrategy.ts:26-28 | below the limit and the table length, the wait is fib[i] * timeoutMultiplier |
| `FibonacciBackoff.Saturates` | src/backoffStrategies/makeFibonacciBackoffStrategy.ts:30-33 | from attempt 18 up to the limit, the wait stays at 4181 * timeoutMultiplier |
| `FibonacciBackoff.AtOrAboveLimit` | src/backoffStrategies/makeFibonacciBackoffStrategy.ts:25-35 | from `maxRetries` on, every attempt is abandoned, so `maxRetries = 0` abandons everything |
| `FibonacciBackoff.NonDecreasing` | src/backoffStrategies/makeFibonacciBackoffStrategy.ts:26-33 | with a non-negative multiplier, the waits never decrease below the limit |
| `FibonacciBackoff.DefaultScaledEntry` | src/backoffStrategies/makeFibonacciBackoffStrategy.ts:22-33 | with the default multiplier 1000, the wait for attempt i is fib[min(i,17)] * 1000 |
| `BackoffStrategies.MakeExponential` | src/backoffStrategies/makeExponentialBackoffStrategy.ts:21-24 | the exponential factory with base, offset and multiplier left at their defaults |
| `BackoffStrategies.MakeFibonacci` | src/backoffStrategies/makeFibonacciBackoffStrategy.ts:22-23 | the Fibonacci factory with the multiplier left at its default 1000 |
| `BackoffStrategies.Eval` | src/useRetry.ts:55 | calls the configured strategy closure, one of the three above, on the current retry count |
| `BackoffStrategies.AbandonsAtLimit` | src/useRetry.ts:55-57 | every concrete strategy returns -1 from its limit on, so a wait, and therefore an increment of the retry count, is only ever granted below `maxRetries` |
| `BackoffStrategies.DefaultStrategyWaits` | src/useRetry.ts:34 | the default strategy waits 1000 for attempts 0 to 4 and abandons from attempt 5 on |
| `UseRetry.Controller.constructor` | src/useRetry.ts:37-43 | before any render the status is IDLE, the count is 0, no handle is held and no timer is pending |
| `UseRetry.Controller.Observe` | src/useRetry.ts:45-69 | the whole new state for each branch of the chain. Success wins and resets the count. Running sets RUNNING and keeps the count. A failure in BACKOFF or ABANDONED, or no flag at all, changes nothing. Otherwise the strategy is consulted exactly once: a wait of at least 0 increments the count, sets BACKOFF and arms exactly one fresh timer with that delay, held in place of any previous handle; the sentinel sets ABANDONED and resets the count. `retry` is never called during a render. IDLE is never re-entered |
| `UseRetry.Controller.SetTimeout` | src/useRetry.ts:59 | arming issues a fresh handle, adds one pending timer with the delay, and overwrites the held handle without clearing the old timer |
| `UseRetry.Controller.Fire` | src/useRetry.ts:59-62 | an expiry removes that timer, clears the held handle, whichever timer it named, and invokes `retry` exactly once; status and count are untouched |
| `UseRetry.Controller.Teardown` | src/useRetry.ts:72-76 | unmounting calls `clearTimeout` exactly once, on the held handle, if and only if a handle is held, and changes nothing else |
| `RetryScenarios.Run` | src/useRetry.ts:45-69 | with any of the three concrete strategies, the default included, the retry count never exceeds `maxRetries` (0 for a negative limit) over any sequence of renders and expiries, and the status is IDLE exactly when no render raised a flag |
| `RetryScenarios.AbandonAfterOneRetry` | src/useRetry.spec.ts:74-140 | fail, wait 1000, retry, running, then fail with the sentinel: ABANDONED, count 0, `retry` called once, strategy consulted twice, no timer left pending |
| `RetryScenarios.SucceedAfterOneRetry` | src/useRetry.spec.ts:142-208 | fail, wait, retry, running, then succeed: SUCCEEDED, count 0, `retry` called once, no timer left pending |
| `RetryScenarios.UnmountCancelsTimer` | src/useRetry.spec.ts:210-257 | unmounting in BACKOFF clears exactly the handle the failure armed, once, and leaves no timer pending |
| `RetryScenarios.SuccessKeepsTimer` | src/useRetry.ts:45-48 | a success during BACKOFF leaves the timer pending; it still fires and calls `retry` |
| `RetryScenarios.StaleTimerOutlivesUnmount` | src/useRetry.ts:49-76 | running then failing again while a timer is pending arms a second timer; unmount clears only that one, and the first still fires and calls `retry` |

## Left out

- React plumbing is not modelled: `useRef`, `useEffect`, the `useCallback` memoisation of the strategy closures, and re-rendering. A render is one `Observe` call.
- Real time is not modelled. `setTimeout` and `clearTimeout` become a queue of pending handles with their requested delays. An expiry is an explicit `Fire` step for a pending handle, and clock arithmetic is left out.
- The body of the caller's `retry` is not modelled; only its invocations are counted. The test harness's flip to `isRunning` inside `retry` becomes the next `Observe` call.
- JavaScript number semantics are not modelled. The model uses integers only: fractional `base`, `offset` or multiplier, NaN, and floating-point rounding at large powers are all out. A negative `base` or multiplier is allowed, and the model computes exactly what `**` and `*` give on those integers. A negative `offset` is out, because `offset` is a natural number here: a negative one can give fractional powers.
- `BackoffStrategy` is typed in a `./common` module; the model treats it as a total function `nat -> int`. A mock strategy, whose answers depend on the call order, is modelled by passing each render's answer as its own `f`.
- Renders after unmount are not modelled: `Observe` requires a mounted hook, because React never renders an unmounted one. A timer can still `Fire` after unmount.
