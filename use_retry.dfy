/** The retry controller behind the `useRetry` hook: a state machine driven by
    observations of (isFailing, isSucceeded, isRunning) that consults a backoff
    strategy, arms one-shot timers whose expiry invokes the caller's `retry`,
    and clears the held timer when the hook is unmounted.

    The host's timer subsystem is part of the state so that what the code
    does with timer handles can be stated: `timers` holds every timer armed
    and neither expired nor cleared, `held` is the single handle the hook
    keeps. The two need not agree: arming overwrites `held` without clearing
    the timer it named. */
module UseRetry {

  datatype Status = Idle | Running | Backoff | Abandoned | Succeeded

  datatype Option<T> = None | Some(value: T)

  class Controller {
    /** The status the hook reports. */
    var status: Status
    /** Retries scheduled in the current failure episode. */
    var retryCount: nat
    /** The timer handle the hook holds, if any. */
    var held: Option<nat>
    /** The host's pending timers: handle -> requested delay. */
    var timers: map<nat, int>
    /** The handle the host's next `setTimeout` returns. */
    var nextHandle: nat
    /** False once the hook has been unmounted. */
    var mounted: bool
    /** How many times the strategy was consulted, how many times `retry`
        was invoked, and how many times `clearTimeout` was called. (The number
        of timers armed is `nextHandle`.) */
    ghost var consults: nat
    ghost var retries: nat
    ghost var clears: nat

    /** Handles are issued one per armed timer; while mounted the held handle
        names a pending timer; and every armed timer is either still pending,
        has expired (invoking `retry` once), or was cleared. */
    ghost predicate Valid()
      reads this
    {
      && (forall h :: h in timers ==> h < nextHandle)
      && (held.Some? ==> held.value < nextHandle)
      && (mounted && held.Some? ==> held.value in timers)
      && |timers| + retries + clears == nextHandle
    }

    /** Nothing observed yet: IDLE, no retries, no timer. */
    constructor ()
      ensures Valid() && mounted
      ensures status == Idle && retryCount == 0
      ensures held == None && timers == map[] && nextHandle == 0
      ensures consults == 0 && retries == 0 && clears == 0
    {
      status := Idle;
      retryCount := 0;
      held := None;
      timers := map[];
      nextHandle := 0;
      mounted := true;
      consults, retries, clears := 0, 0, 0;
    }

    /** One render of the hook: the prioritised if/else chain over the
        observed flags. `f` is the backoff strategy. */
    method Observe(isFailing: bool, isSucceeded: bool, isRunning: bool, f: nat -> int)
      requires Valid() && mounted
      modifies this
      ensures Valid() && mounted
      // `retry` is never invoked and no timer is ever cleared during a render
      ensures retries == old(retries) && clears == old(clears)
      // the strategy is consulted once on a failure outside BACKOFF/ABANDONED, and never otherwise
      ensures consults == old(consults)
                          + (if !isSucceeded && !isRunning && isFailing
                                && old(status) != Backoff && old(status) != Abandoned then 1 else 0)
      // success wins over every other flag
      ensures isSucceeded ==>
        && status == Succeeded && retryCount == 0
        && held == old(held) && timers == old(timers) && nextHandle == old(nextHandle)
      ensures !isSucceeded && isRunning ==>
        && status == Running && retryCount == old(retryCount)
        && held == old(held) && timers == old(timers) && nextHandle == old(nextHandle)
      // a failure outside BACKOFF/ABANDONED with a wait granted: one fresh timer
      ensures !isSucceeded && !isRunning && isFailing
              && old(status) != Backoff && old(status) != Abandoned
              && f(old(retryCount)) >= 0 ==>
        && status == Backoff && retryCount == old(retryCount) + 1
        && old(nextHandle) !in old(timers)
        && held == Some(old(nextHandle))
        && timers == old(timers)[old(nextHandle) := f(old(retryCount))]
        && nextHandle == old(nextHandle) + 1
      // a failure outside BACKOFF/ABANDONED with the sentinel: give up, reset
      ensures !isSucceeded && !isRunning && isFailing
              && old(status) != Backoff && old(status) != Abandoned
              && f(old(retryCount)) < 0 ==>
        && status == Abandoned && retryCount == 0
        && held == old(held) && timers == old(timers) && nextHandle == old(nextHandle)
      // no flag set, or a failure already in BACKOFF/ABANDONED: nothing changes
      ensures !isSucceeded && !isRunning
              && (!isFailing || old(status) == Backoff || old(status) == Abandoned) ==>
        && status == old(status) && retryCount == old(retryCount)
        && held == old(held) && timers == old(timers) && nextHandle == old(nextHandle)
      // IDLE is never re-entered
      ensures status == Idle ==> old(status) == Idle
    {
      if isSucceeded {
        retryCount := 0;
        status := Succeeded;
      } else if isRunning {
        status := Running;
      } else if isFailing && status != Backoff && status != Abandoned {
        var nextTimeout := f(retryCount);
        consults := consults + 1;
        if nextTimeout >= 0 {
          retryCount := retryCount + 1;
          status := Backoff;
          SetTimeout(nextTimeout);
        } else {
          status := Abandoned;
          retryCount := 0;
        }
      }
    }

    /** `timeoutHandle.current = setTimeout(..., delay)`: the host arms a
        timer under a fresh handle and the hook holds that handle, dropping
        whatever it held before. */
    method SetTimeout(delay: int)
      requires Valid() && mounted
      modifies this
      ensures Valid() && mounted
      ensures old(nextHandle) !in old(timers)
      ensures held == Some(old(nextHandle))
      ensures timers == old(timers)[old(nextHandle) := delay]
      ensures nextHandle == old(nextHandle) + 1
      ensures status == old(status) && retryCount == old(retryCount)
      ensures retries == old(retries) && clears == old(clears) && consults == old(consults)
    {
      var h := nextHandle;
      CardinalityAdd(timers, h, delay);
      timers := timers[h := delay];
      held := Some(h);
      nextHandle := nextHandle + 1;
    }

    /** The host fires pending timer `h`: the callback clears the held handle
        (whichever it is) and invokes `retry`. Status and count are left to
        the next render. A timer can fire after unmount. */
    method Fire(h: nat)
      requires Valid() && h in timers
      modifies this
      ensures Valid() && mounted == old(mounted)
      ensures timers == old(timers) - {h} && held == None
      ensures retries == old(retries) + 1 && clears == old(clears) && consults == old(consults)
      ensures nextHandle == old(nextHandle)
      ensures status == old(status) && retryCount == old(retryCount)
    {
      CardinalityRemove(timers, h);
      timers := timers - {h};
      held := None;
      retries := retries + 1;
    }

    /** The unmount cleanup: `clearTimeout` on the held handle, once, if and
        only if a handle is held. The handle itself is not reset. */
    method Teardown()
      requires Valid() && mounted
      modifies this
      ensures Valid() && !mounted
      ensures held == old(held) && nextHandle == old(nextHandle)
      ensures old(held).Some? ==> timers == old(timers) - {old(held).value}
      ensures old(held).None? ==> timers == old(timers)
      ensures clears == old(clears) + (if old(held).Some? then 1 else 0)
      ensures retries == old(retries) && consults == old(consults)
      ensures status == old(status) && retryCount == old(retryCount)
    {
      if held.Some? {
        CardinalityRemove(timers, held.value);
        timers := timers - {held.value};
        clears := clears + 1;
      }
      mounted := false;
    }
  }

  /** Adding a fresh key grows a map by one. */
  lemma CardinalityAdd(m: map<nat, int>, k: nat, v: int)
    requires k !in m
    ensures |m[k := v]| == |m| + 1
  {
  }

  /** Removing a present key shrinks a map by one. */
  lemma CardinalityRemove(m: map<nat, int>, k: nat)
    requires k in m
    ensures |m - {k}| == |m| - 1
  {
    assert (m - {k}).Keys == m.Keys - {k};
  }
}
