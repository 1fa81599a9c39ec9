/** The controller driven by a concrete strategy over a whole lifetime of
    renders and timer expiries, and the hook's documented scenarios. */
module RetryScenarios {
  import opened UseRetry
  import BackoffStrategies

  /** Something that happens to a mounted hook: a render with the caller's
      current flags, or the host firing the timer with a given handle. */
  datatype Event =
    | Render(isFailing: bool, isSucceeded: bool, isRunning: bool)
    | Expire(handle: nat)

  /** An event that cannot move the controller out of IDLE. */
  predicate Quiet(e: Event)
  {
    e.Expire? || (!e.isFailing && !e.isSucceeded && !e.isRunning)
  }

  /** Drives a fresh controller with strategy `s` through `events`. An expiry
      of a handle the host no longer has pending does nothing. The retry
      count never exceeds the strategy's limit, and the status is still IDLE
      exactly when no event raised a flag. */
  method Run(s: BackoffStrategies.Strategy, events: seq<Event>) returns (status: Status, retryCount: nat)
    ensures retryCount <= BackoffStrategies.Limit(s)
    ensures status == Idle <==> forall k :: 0 <= k < |events| ==> Quiet(events[k])
  {
    var c := new Controller();
    var i := 0;
    while i < |events|
      invariant 0 <= i <= |events|
      invariant c.Valid() && c.mounted
      invariant c.retryCount <= BackoffStrategies.Limit(s)
      invariant c.status == Idle <==> forall k :: 0 <= k < i ==> Quiet(events[k])
    {
      match events[i] {
        case Render(isFailing, isSucceeded, isRunning) =>
          BackoffStrategies.AbandonsAtLimit(s, c.retryCount);
          c.Observe(isFailing, isSucceeded, isRunning, (n: nat) => BackoffStrategies.Eval(s, n));
        case Expire(h) =>
          if h in c.timers {
            c.Fire(h);
          }
      }
      i := i + 1;
    }
    status, retryCount := c.status, c.retryCount;
  }

  /** A mock strategy's answer: the same value whatever the attempt. */
  function Answer(d: int): nat -> int
  {
    (n: nat) => d
  }

  /** A failure, a wait of 1000, the retry (which flips the caller to
      running), then a second failure that the strategy abandons: ABANDONED
      with the count reset, `retry` invoked exactly once and nothing left
      queued. */
  method AbandonAfterOneRetry() returns (status: Status, retryCount: nat, pending: map<nat, int>)
    ensures status == Abandoned && retryCount == 0 && pending == map[]
  {
    var c := new Controller();
    c.Observe(true, false, false, Answer(1000));
    assert c.status == Backoff && c.retryCount == 1 && c.retries == 0;
    assert c.timers == map[0 := 1000];
    c.Fire(0);
    assert c.retries == 1;
    c.Observe(false, false, true, Answer(1000));
    assert c.status == Running && c.retryCount == 1;
    c.Observe(true, false, false, Answer(-1));
    assert c.retries == 1 && c.consults == 2;
    status, retryCount, pending := c.status, c.retryCount, c.timers;
  }

  /** As above, but the retried call succeeds: SUCCEEDED with the count
      reset, `retry` invoked exactly once and nothing left queued. */
  method SucceedAfterOneRetry() returns (status: Status, retryCount: nat, pending: map<nat, int>)
    ensures status == Succeeded && retryCount == 0 && pending == map[]
  {
    var c := new Controller();
    c.Observe(true, false, false, Answer(1000));
    assert c.status == Backoff && c.retryCount == 1;
    c.Fire(0);
    c.Observe(false, false, true, Answer(1000));
    assert c.status == Running && c.retryCount == 1;
    c.Observe(false, true, false, Answer(-1));
    assert c.retries == 1;
    status, retryCount, pending := c.status, c.retryCount, c.timers;
  }

  /** Unmounting while in BACKOFF clears exactly the timer the failure armed,
      so `retry` can no longer be invoked. */
  method UnmountCancelsTimer() returns (status: Status, cleared: Option<nat>, pending: map<nat, int>)
    ensures status == Backoff && cleared == Some(0) && pending == map[]
  {
    var c := new Controller();
    c.Observe(true, false, false, Answer(1000));
    assert c.clears == 0;
    c.Teardown();
    assert c.clears == 1 && c.retries == 0;
    status, cleared, pending := c.status, c.held, c.timers;
  }

  /** A success during BACKOFF does not cancel the timer: it still fires and
      invokes `retry`, with the status left at SUCCEEDED. */
  method SuccessKeepsTimer() returns (status: Status, pending: map<nat, int>)
    ensures status == Succeeded && pending == map[0 := 1000]
  {
    var c := new Controller();
    c.Observe(true, false, false, Answer(1000));
    c.Observe(false, true, false, Answer(1000));
    status, pending := c.status, c.timers;
    c.Fire(0);
    assert c.retries == 1 && c.status == Succeeded;
  }

  /** A caller that reports running and then failing again before the first
      timer has fired makes the hook arm a second timer and drop the first
      handle; unmounting then clears only the second, and the first still
      fires after unmount and invokes `retry`. */
  method StaleTimerOutlivesUnmount() returns (status: Status, retryCount: nat, pending: map<nat, int>)
    ensures status == Backoff && retryCount == 2 && pending == map[0 := 1000]
  {
    var c := new Controller();
    c.Observe(true, false, false, Answer(1000));
    c.Observe(false, false, true, Answer(1000));
    c.Observe(true, false, false, Answer(2000));
    assert c.held == Some(1) && c.timers == map[0 := 1000, 1 := 2000];
    c.Teardown();
    assert c.clears == 1;
    status, retryCount, pending := c.status, c.retryCount, c.timers;
    c.Fire(0);
    assert c.retries == 1 && !c.mounted;
  }
}
