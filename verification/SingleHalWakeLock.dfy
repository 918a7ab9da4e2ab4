/** The wake lock of the single HAL (2.X/Sensors.h, updateWakeLock and readWakeLockFMQ). */
module SingleHalWakeLock {

  const INT32_SPAN := 0x1_0000_0000
  const INT32_MAX := 0x7fff_ffff

  /** A value assigned to an int32_t. */
  function ToInt32(v: int): int {
    var r := v % INT32_SPAN;
    if r > INT32_MAX then r - INT32_SPAN else r
  }

  /** The value of an int32_t is in range and differs from what was assigned by a multiple of the span. */
  lemma ToInt32Wraps(v: int)
    ensures -INT32_MAX - 1 <= ToInt32(v) <= INT32_MAX && (v - ToInt32(v)) % INT32_SPAN == 0
  {
    assert v - v % INT32_SPAN == INT32_SPAN * (v / INT32_SPAN);
  }

  /** mOutstandingWakeUpEvents, mAutoReleaseWakeLockTime, mHasWakeLock; the timeout is in milliseconds. */
  datatype State = State(timeoutMs: int, outstanding: nat, autoReleaseTime: int, hasWakeLock: bool)

  /** A call: the clock is read once when events were written and again when the lock is held, and the kernel
      may refuse either request. */
  datatype Call = Call(written: nat, handled: nat, writtenAt: int, now: int, acquires: bool, releases: bool)

  function Outstanding(before: nat, written: nat, handled: nat): nat {
    var newVal := ToInt32(before + written - handled);
    if newVal < 0 then 0 else newVal
  }

  function AutoReleaseTime(s: State, c: Call): int {
    if c.written > 0 then c.writtenAt + s.timeoutMs else s.autoReleaseTime
  }

  function Apply(s: State, c: Call): State {
    var out, time := Outstanding(s.outstanding, c.written, c.handled), AutoReleaseTime(s, c);
    if !s.hasWakeLock then s.(outstanding := out, autoReleaseTime := time, hasWakeLock := out > 0 && c.acquires)
    else
      var left := if c.now > time then 0 else out;
      s.(outstanding := left, autoReleaseTime := time, hasWakeLock := !(left == 0 && c.releases))
  }

  function Run(s: State, calls: seq<Call>): State
    decreases |calls|
  {
    if calls == [] then s else Apply(Run(s, calls[..|calls| - 1]), calls[|calls| - 1])
  }

  function Created(timeoutMs: int): State { State(timeoutMs, 0, 0, false) }

  ghost predicate HeldWhenOutstanding(s: State) { s.hasWakeLock <==> s.outstanding > 0 }

  ghost predicate Granted(calls: seq<Call>) {
    forall i :: 0 <= i < |calls| ==> calls[i].acquires && calls[i].releases
  }

  /** One call keeps the lock in step with the count, if and only if the request it makes is granted. */
  lemma HeldWhenOutstandingExactly(s: State, c: Call)
    requires HeldWhenOutstanding(s)
    ensures var t := Apply(s, c);
      HeldWhenOutstanding(t) <==>
        && (!s.hasWakeLock && t.outstanding > 0 ==> c.acquires)
        && (s.hasWakeLock && t.outstanding == 0 ==> c.releases)
  {
  }

  /** When the kernel grants every request, the lock is held iff events are outstanding, after every run. */
  lemma {:induction false} HeldIffOutstanding(timeoutMs: int, calls: seq<Call>)
    requires Granted(calls)
    ensures HeldWhenOutstanding(Run(Created(timeoutMs), calls))
    decreases |calls|
  {
    if calls != [] {
      HeldIffOutstanding(timeoutMs, calls[..|calls| - 1]);
      HeldWhenOutstandingExactly(Run(Created(timeoutMs), calls[..|calls| - 1]), calls[|calls| - 1]);
    }
  }

  // ----- the count as the largest suffix sum

  function Delta(c: Call): int { c.written - c.handled }

  /** What was written minus what was handled by the calls from i on. */
  function SuffixSum(calls: seq<Call>, i: nat): int
    requires i <= |calls|
    decreases |calls|
  {
    if i == |calls| then 0 else SuffixSum(calls[..|calls| - 1], i) + Delta(calls[|calls| - 1])
  }

  /** No call found the lock held past its release time, and the int32_t sums did not wrap. */
  ghost predicate Undisturbed(s: State, calls: seq<Call>)
    decreases |calls|
  {
    calls == [] ||
      var before, c := Run(s, calls[..|calls| - 1]), calls[|calls| - 1];
      && Undisturbed(s, calls[..|calls| - 1])
      && !(before.hasWakeLock && c.now > AutoReleaseTime(before, c))
      && -INT32_MAX - 1 <= before.outstanding + c.written - c.handled <= INT32_MAX
  }

  lemma ToInt32InRange(v: int)
    requires -INT32_MAX - 1 <= v <= INT32_MAX
    ensures ToInt32(v) == v
  {
  }

  lemma SuffixSumSnoc(calls: seq<Call>, i: nat)
    requires i < |calls|
    ensures SuffixSum(calls, i) == SuffixSum(calls[..|calls| - 1], i) + Delta(calls[|calls| - 1])
  {
  }

  /** Without auto-release the count is the largest of zero and the sums of (written - handled) over the
      suffixes of the run: acknowledgements never go into debt. */
  lemma {:induction false} OutstandingIsMaxSuffix(timeoutMs: int, calls: seq<Call>) returns (best: nat)
    requires Undisturbed(Created(timeoutMs), calls)
    ensures var n := Run(Created(timeoutMs), calls).outstanding;
      && best <= |calls| && n == SuffixSum(calls, best)
      && forall i :: 0 <= i <= |calls| ==> n >= SuffixSum(calls, i)
    decreases |calls|
  {
    best := |calls|;
    if calls != [] {
      var init, c := calls[..|calls| - 1], calls[|calls| - 1];
      var s := Run(Created(timeoutMs), init);
      var b := OutstandingIsMaxSuffix(timeoutMs, init);
      ToInt32InRange(s.outstanding + c.written - c.handled);
      forall i | 0 <= i < |calls| ensures SuffixSum(calls, i) == SuffixSum(init, i) + Delta(c) {
        SuffixSumSnoc(calls, i);
      }
      if s.outstanding + Delta(c) >= 0 {
        best := b;
      }
    }
  }

  // ----- auto release

  /** A poll without new events, later than the release time, leaves the lock released and nothing outstanding,
      whatever was outstanding before. */
  lemma LatePollReleases(s: State, c: Call)
    requires HeldWhenOutstanding(s) && c.written == 0 && c.now > s.autoReleaseTime && c.releases
    requires s.outstanding - c.handled >= -INT32_MAX - 1
    ensures var t := Apply(s, c); !t.hasWakeLock && t.outstanding == 0
  {
    if !s.hasWakeLock {
      ToInt32InRange(0 - c.handled);
    }
  }

  /** The release time after a run: the time limit after the latest call that wrote events, `before` if none did. */
  ghost function ReleaseTime(timeoutMs: int, calls: seq<Call>, before: int): int
    decreases |calls|
  {
    if calls == [] then before
    else
      var last := calls[|calls| - 1];
      if last.written > 0 then last.writtenAt + timeoutMs else ReleaseTime(timeoutMs, calls[..|calls| - 1], before)
  }

  lemma {:induction false} ReleaseTimeIs(s: State, calls: seq<Call>)
    ensures Run(s, calls).timeoutMs == s.timeoutMs
    ensures Run(s, calls).autoReleaseTime == ReleaseTime(s.timeoutMs, calls, s.autoReleaseTime)
    decreases |calls|
  {
    if calls != [] {
      ReleaseTimeIs(s, calls[..|calls| - 1]);
    }
  }

  /** A held lock is let go only when the sum of what is outstanding and new and not handled is used up, or past the
      release time, which is the time limit after the latest write of the run; then, and with the kernel willing, it is. */
  lemma ReleasedExactly(timeoutMs: int, calls: seq<Call>, c: Call)
    requires Run(Created(timeoutMs), calls).hasWakeLock
    ensures var s, t := Run(Created(timeoutMs), calls), Run(Created(timeoutMs), calls + [c]);
      !t.hasWakeLock <==>
        c.releases && (ToInt32(s.outstanding + c.written - c.handled) <= 0 || c.now > ReleaseTime(timeoutMs, calls + [c], 0))
  {
    assert (calls + [c])[..|calls|] == calls;
    ReleaseTimeIs(Created(timeoutMs), calls);
  }

  // ----- the class

  class Sensors {
    const timeoutMs: int
    var mOutstandingWakeUpEvents: nat
    var mAutoReleaseWakeLockTime: int
    var mHasWakeLock: bool

    function Abs(): State
      reads this
    {
      State(timeoutMs, mOutstandingWakeUpEvents, mAutoReleaseWakeLockTime, mHasWakeLock)
    }

    constructor (timeoutMs: int)
      ensures Abs() == Created(timeoutMs)
    {
      this.timeoutMs := timeoutMs;
      mOutstandingWakeUpEvents, mAutoReleaseWakeLockTime, mHasWakeLock := 0, 0, false;
    }

    /** One call of updateWakeLock. acquired and released are what the kernel calls report if they are made. */
    method UpdateWakeLock(c: Call)
      modifies this
      ensures Abs() == Apply(old(Abs()), c)
      ensures old(HeldWhenOutstanding(Abs())) && c.acquires && c.releases ==> HeldWhenOutstanding(Abs())
      // a write puts the release time off
      ensures mAutoReleaseWakeLockTime == if c.written > 0 then c.writtenAt + timeoutMs else old(mAutoReleaseWakeLockTime)
      ensures var sum := old(mOutstandingWakeUpEvents) + c.written - c.handled;
        -INT32_MAX - 1 <= sum <= INT32_MAX ==>
          mOutstandingWakeUpEvents
            == if sum < 0 || (old(mHasWakeLock) && c.now > mAutoReleaseWakeLockTime) then 0 else sum
      ensures !old(mHasWakeLock) ==> (mHasWakeLock <==> mOutstandingWakeUpEvents > 0 && c.acquires)
      ensures old(mHasWakeLock) ==> (mHasWakeLock <==> mOutstandingWakeUpEvents > 0 || !c.releases)
    {
      var newVal := ToInt32(mOutstandingWakeUpEvents + c.written - c.handled);
      if newVal < 0 {
        mOutstandingWakeUpEvents := 0;
      } else {
        mOutstandingWakeUpEvents := newVal;
      }
      if c.written > 0 {
        mAutoReleaseWakeLockTime := c.writtenAt + timeoutMs;
      }
      if !mHasWakeLock && mOutstandingWakeUpEvents > 0 && c.acquires {
        mHasWakeLock := true;
      } else if mHasWakeLock {
        if c.now > mAutoReleaseWakeLockTime {
          mOutstandingWakeUpEvents := 0;
        }
        if mOutstandingWakeUpEvents == 0 && c.releases {
          mHasWakeLock := false;
        }
      }
    }

    /** readWakeLockFMQ: one poll after another while the thread runs; a read that times out handles nothing. */
    method ReadWakeLockFmq(polls: seq<Call>)
      requires forall i :: 0 <= i < |polls| ==> polls[i].written == 0
      modifies this
      ensures Abs() == Run(old(Abs()), polls)
    {
      for i := 0 to |polls|
        invariant Abs() == Run(old(Abs()), polls[..i])
      {
        assert polls[..i + 1][..i] == polls[..i];
        UpdateWakeLock(polls[i]);
      }
      assert polls[..|polls|] == polls;
    }
  }
}
