/** The wake-lock fields of HalProxy and the RAII token, as classes updated in place. */
module HalProxyWakeLock {
  import opened Basics
  import opened SharedWakeLock

  class WakeLockCounter {
    var threadsRun: bool
    var refCount: nat
    var timeoutStartTime: int
    var timeoutResetTime: int
    /** The calls made to the kernel so far. */
    ghost var calls: seq<Call>

    ghost function View(): Counter
      reads this
    {
      Counter(refCount, timeoutStartTime, timeoutResetTime, calls)
    }

    constructor (timeNow: int)
      ensures View() == Created(timeNow).counter && threadsRun
    {
      threadsRun, refCount, calls := true, 0, [];
      timeoutStartTime, timeoutResetTime := timeNow, timeNow;
    }

    method IncrementRefCountAndMaybeAcquireWakelock(delta: nat, timeNow: int) returns (ok: bool, timeoutStart: int)
      modifies this`refCount, this`timeoutStartTime, this`calls
      ensures ok == threadsRun && timeoutStart == timeNow
      ensures View() == Increment(old(View()), delta, threadsRun, timeNow)
      ensures ok ==> refCount == old(refCount) + delta && timeoutStartTime == timeNow
      ensures ok ==> calls == old(calls) + if old(refCount) == 0 then [Acquire] else []
      ensures !ok ==> refCount == old(refCount) && timeoutStartTime == old(timeoutStartTime) && calls == old(calls)
      ensures old(LockInv(View())) && (ok && old(refCount) == 0 ==> delta > 0) ==> LockInv(View())
    {
      timeoutStart := timeNow;
      ok := threadsRun;
      IncrementKeepsLockWhenPositive(View(), delta, threadsRun, timeNow);
      if !ok {
        return;
      }
      if refCount == 0 {
        calls := calls + [Acquire];
      }
      timeoutStartTime := timeNow;
      refCount := refCount + delta;
    }

    method DecrementRefCountAndMaybeReleaseWakelock(delta: nat, timeoutStart: int)
      modifies this`refCount, this`calls
      ensures View() == Decrement(old(View()), delta, threadsRun, timeoutStart)
      // counts taken before the latest reset are not given back
      ensures threadsRun && (timeoutStart == -1 || timeoutStart >= timeoutResetTime) ==>
                && refCount == (if delta < old(refCount) then old(refCount) - delta else 0)
                && calls == old(calls) + if old(refCount) > 0 && refCount == 0 then [Release] else []
      ensures !threadsRun || (timeoutStart != -1 && timeoutStart < timeoutResetTime) ==>
                refCount == old(refCount) && calls == old(calls)
      ensures old(LockInv(View())) ==> LockInv(View())
    {
      DecrementKeepsLockAlways(View(), delta, threadsRun, timeoutStart);
      if !threadsRun {
        return;
      }
      var since := if timeoutStart == -1 then timeoutResetTime else timeoutStart;
      if refCount == 0 || since < timeoutResetTime {
        return;
      }
      refCount := refCount - Min(refCount, delta);
      if refCount == 0 {
        calls := calls + [Release];
      }
    }

    method ResetSharedWakelock(timeNow: int)
      modifies this`refCount, this`calls, this`timeoutResetTime
      ensures View() == ResetCounter(old(View()), threadsRun, timeNow)
      ensures timeoutResetTime == timeNow && refCount == if threadsRun then 0 else old(refCount)
      ensures old(LockInv(View())) ==> LockInv(View())
    {
      DecrementRefCountAndMaybeReleaseWakelock(refCount, -1);
      timeoutResetTime := timeNow;
    }

    method SharedWakelockDidTimeout(timeout: int, timeNow: int) returns (didTimeout: bool, timeLeft: int)
      ensures didTimeout == TimedOut(View(), timeout, timeNow)
      ensures didTimeout <==> timeNow - timeoutStartTime > timeout
      ensures !didTimeout ==> timeLeft >= 0 && timeNow + timeLeft == timeoutStartTime + timeout
    {
      timeLeft := 0;
      var duration := timeNow - timeoutStartTime;
      didTimeout := duration > timeout;
      if !didTimeout {
        timeLeft := timeout - duration;
      }
    }

    /** The first half of a pass of handleWakelocks: if the lock has been held too long everything is reset;
        otherwise the mutex is let go for a read of at most timeLeft. */
    method BeginPass(timeout: int, checked: int, timeNow: int) returns (didReset: bool, timeLeft: int)
      requires threadsRun && refCount > 0
      modifies this`refCount, this`calls, this`timeoutResetTime
      ensures didReset == TimedOut(old(View()), timeout, checked)
      ensures didReset <==> checked - timeoutStartTime > timeout
      ensures didReset ==> refCount == 0 && timeoutResetTime == timeNow
      ensures !didReset ==> refCount == old(refCount) && timeoutResetTime == old(timeoutResetTime) && calls == old(calls)
      ensures View() == if didReset then ResetCounter(old(View()), true, timeNow) else old(View())
      ensures !didReset ==> timeLeft >= 0 && checked + timeLeft == timeoutStartTime + timeout
      ensures old(LockInv(View())) ==> LockInv(View()) && (didReset ==> refCount == 0 && !Held(View()))
    {
      didReset, timeLeft := SharedWakelockDidTimeout(timeout, checked);
      if didReset {
        ResetSharedWakelock(timeNow);
      }
    }

    /** The second half, with the mutex taken again: whatever the count and mThreadsRun are by now, what was read
        from the wake-lock FMQ is given back. */
    method EndPass(success: bool, numWakeLocksProcessed: nat)
      modifies this`refCount, this`calls
      ensures View() == if success then Decrement(old(View()), numWakeLocksProcessed, threadsRun, -1) else old(View())
      ensures refCount == if !success || !threadsRun then old(refCount)
                          else if numWakeLocksProcessed < old(refCount) then old(refCount) - numWakeLocksProcessed else 0
      ensures old(LockInv(View())) ==> LockInv(View())
    {
      if success {
        DecrementRefCountAndMaybeReleaseWakelock(numWakeLocksProcessed, -1);
      }
    }
  }

  class ScopedWakelock {
    var refCounter: WakeLockCounter?
    var createdAt: int
    var locked: bool

    constructor (refCounter: WakeLockCounter, lock: bool, timeNow: int)
      modifies refCounter
      ensures this.refCounter == refCounter
      ensures locked == (lock && old(refCounter.threadsRun)) && (locked ==> createdAt == timeNow)
      ensures refCounter.threadsRun == old(refCounter.threadsRun)
      ensures refCounter.View() == if lock then Increment(old(refCounter.View()), 1, refCounter.threadsRun, timeNow)
                                           else old(refCounter.View())
      ensures refCounter.refCount == old(refCounter.refCount) + if locked then 1 else 0
    {
      this.refCounter, this.createdAt, this.locked := refCounter, 0, lock;
      new;
      if lock {
        var ok, start := refCounter.IncrementRefCountAndMaybeAcquireWakelock(1, timeNow);
        locked, createdAt := ok, start;
      }
    }

    /** The move constructor: one token becomes another, the count is untouched. */
    constructor Move(other: ScopedWakelock)
      modifies other
      ensures refCounter == old(other.refCounter) && createdAt == old(other.createdAt) && locked == old(other.locked)
      ensures other.refCounter == null && other.createdAt == 0 && !other.locked
    {
      refCounter, createdAt, locked := other.refCounter, other.createdAt, other.locked;
      new;
      other.refCounter := null;
      other.createdAt := 0;
      other.locked := false;
    }

    method AssignFrom(other: ScopedWakelock)
      modifies this, other
      ensures other != this ==> refCounter == old(other.refCounter) && createdAt == old(other.createdAt) && locked == old(other.locked)
      ensures other.refCounter == null && other.createdAt == 0 && !other.locked
    {
      refCounter := other.refCounter;
      createdAt := other.createdAt;
      locked := other.locked;
      other.refCounter := null;
      other.createdAt := 0;
      other.locked := false;
    }

    method Destroy()
      requires locked ==> refCounter != null
      modifies refCounter
      ensures locked ==> refCounter.View() == Decrement(old(refCounter.View()), 1, old(refCounter.threadsRun), createdAt)
      ensures locked && refCounter.threadsRun && createdAt >= refCounter.timeoutResetTime && createdAt != -1 ==>
                refCounter.refCount == if old(refCounter.refCount) > 0 then old(refCounter.refCount) - 1 else 0
      ensures locked && createdAt < refCounter.timeoutResetTime && createdAt != -1 ==>
                refCounter.refCount == old(refCounter.refCount)
      ensures locked && old(LockInv(refCounter.View())) ==> LockInv(refCounter.View())
      ensures !locked && refCounter != null ==> unchanged(refCounter)
    {
      if locked {
        refCounter.DecrementRefCountAndMaybeReleaseWakelock(1, createdAt);
      }
    }
  }

  /** A whole token life: created, moved, moved again and destroyed it gives back exactly what it
      took, and the moved-from shells give back nothing. */
  method TokenLife(counter: WakeLockCounter, time: int)
    requires counter.threadsRun && LockInv(counter.View()) && counter.timeoutResetTime <= time && time >= 0
    modifies counter
    ensures counter.refCount == old(counter.refCount) && LockInv(counter.View())
    ensures old(counter.refCount) == 0 ==> counter.calls == old(counter.calls) + [Acquire, Release]
    ensures old(counter.refCount) > 0 ==> counter.calls == old(counter.calls)
  {
    IncrementKeepsLockWhenPositive(counter.View(), 1, true, time);
    var first := new ScopedWakelock(counter, true, time);
    var second := new ScopedWakelock.Move(first);
    first.Destroy();
    var third := new ScopedWakelock(counter, false, time);
    third.AssignFrom(second);
    second.Destroy();
    third.Destroy();
  }

  lemma IncrementKeepsLockWhenPositive(c: Counter, delta: nat, live: bool, time: int)
    ensures LockInv(c) && (live && c.refCount == 0 ==> delta > 0) ==> LockInv(Increment(c, delta, live, time))
  {
    if LockInv(c) { IncrementKeepsLock(c, delta, live, time); }
  }

  lemma DecrementKeepsLockAlways(c: Counter, delta: nat, live: bool, timeoutStart: int)
    ensures LockInv(c) ==> LockInv(Decrement(c, delta, live, timeoutStart))
  {
    if LockInv(c) { DecrementKeepsLock(c, delta, live, timeoutStart); }
  }
}
