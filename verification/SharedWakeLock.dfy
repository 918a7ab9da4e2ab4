/** The reference count with which HalProxy decides when the kernel wake lock is held: the counter
    itself, the scoped tokens, framework acknowledgements, failed writes, timeouts and resets, as a
    transition system. The unlocked load of mThreadsRun that guards every update is a free boolean
    (`live`) of the step, so the results hold whatever value a racing stop lets it see. */
module SharedWakeLock {
  import opened Basics

  datatype Call = Acquire | Release

  datatype Counter = Counter(refCount: nat, startTime: int, resetTime: int, calls: seq<Call>)

  /** `sinceReset` is history: whether the token's count was taken after the latest reset. */
  datatype Token = Token(locked: bool, createdAt: int, sinceReset: bool)

  datatype State = State(
    counter: Counter,
    now: int,
    tokens: map<nat, Token>,
    // totals since the latest reset
    posted: nat,
    acked: nat,
    failed: nat)

  datatype Step =
    | TokenCreate(id: nat, lock: bool, live: bool, time: int)
    | TokenMove(source: nat, target: nat)
    | TokenAssign(source: nat, target: nat)
    | TokenDestroy(id: nat, live: bool)
    | Post(token: nat, wakeUps: nat, live: bool, time: int)
    | Ack(n: nat, live: bool)
    | FailedWrite(n: nat, live: bool)
    | Timeout(checked: int, live: bool, time: int)
    | Reset(live: bool, time: int)

  function Increment(c: Counter, delta: nat, live: bool, time: int): Counter {
    if !live then c
    else c.(refCount := c.refCount + delta, startTime := time,
            calls := if c.refCount == 0 then c.calls + [Acquire] else c.calls)
  }

  function Decrement(c: Counter, delta: nat, live: bool, timeoutStart: int): Counter {
    var since := if timeoutStart == -1 then c.resetTime else timeoutStart;
    if !live || c.refCount == 0 || since < c.resetTime then c
    else
      var left := c.refCount - Min(c.refCount, delta);
      c.(refCount := left, calls := if left == 0 then c.calls + [Release] else c.calls)
  }

  function ResetCounter(c: Counter, live: bool, time: int): Counter {
    Decrement(c, c.refCount, live, -1).(resetTime := time)
  }

  function TimedOut(c: Counter, timeout: int, time: int): bool {
    time - c.startTime > timeout
  }

  // ----- the steps

  ghost predicate Enabled(s: State, step: Step, timeout: int) {
    match step
    case TokenCreate(id, _, _, time) => id !in s.tokens && time >= 0
    case TokenMove(source, target) => source in s.tokens && target !in s.tokens
    case TokenAssign(source, target) => source in s.tokens && target in s.tokens
    case TokenDestroy(id, _) => id in s.tokens
    case Post(token, _, _, time) => token in s.tokens && time >= 0
    case Timeout(checked, _, time) => s.counter.refCount > 0 && TimedOut(s.counter, timeout, checked) && time >= 0
    case Reset(_, time) => time >= 0
    case _ => true
  }

  function AfterCreate(s: State, id: nat, lock: bool, live: bool, time: int): State {
    if lock && live then
      s.(counter := Increment(s.counter, 1, true, time), now := time,
         tokens := s.tokens[id := Token(true, time, true)])
    else
      s.(tokens := s.tokens[id := Token(false, 0, false)])
  }

  /** operator=: the target takes everything over and the source is emptied, in this order. */
  function AfterAssign(s: State, source: nat, target: nat): State
    requires source in s.tokens
  {
    s.(tokens := s.tokens[target := s.tokens[source]][source := Token(false, 0, false)])
  }

  function AfterDestroy(s: State, id: nat, live: bool): State
    requires id in s.tokens
  {
    var token := s.tokens[id];
    s.(counter := if token.locked then Decrement(s.counter, 1, live, token.createdAt) else s.counter,
       tokens := s.tokens - {id})
  }

  function AfterPost(s: State, token: nat, wakeUps: nat, live: bool, time: int): State
    requires token in s.tokens
  {
    if s.tokens[token].locked && live then
      s.(counter := Increment(s.counter, wakeUps, true, time), now := time, posted := s.posted + wakeUps)
    else s
  }

  function AfterReset(s: State, live: bool, time: int): State {
    s.(counter := ResetCounter(s.counter, live, time), now := time,
       tokens := map id | id in s.tokens :: s.tokens[id].(sinceReset := false),
       posted := 0, acked := 0, failed := 0)
  }

  ghost function Apply(s: State, step: Step, timeout: int): State
    requires Enabled(s, step, timeout)
  {
    match step
    case TokenCreate(id, lock, live, time) => AfterCreate(s, id, lock, live, time)
    case TokenMove(source, target) => AfterAssign(s, source, target)
    case TokenAssign(source, target) => AfterAssign(s, source, target)
    case TokenDestroy(id, live) => AfterDestroy(s, id, live)
    case Post(token, wakeUps, live, time) => AfterPost(s, token, wakeUps, live, time)
    case Ack(n, live) => s.(counter := Decrement(s.counter, n, live, -1), acked := s.acked + n)
    case FailedWrite(n, live) => s.(counter := Decrement(s.counter, n, live, -1), failed := s.failed + n)
    case Timeout(_, live, time) => AfterReset(s, live, time)
    case Reset(live, time) => AfterReset(s, live, time)
  }

  function Created(time: int): State {
    State(Counter(0, time, time, []), time, map[], 0, 0, 0)
  }

  ghost predicate IsRun(s: State, steps: seq<Step>, timeout: int)
    decreases |steps|
  {
    steps == [] || (Enabled(s, steps[0], timeout) && IsRun(Apply(s, steps[0], timeout), steps[1..], timeout))
  }

  ghost function Run(s: State, steps: seq<Step>, timeout: int): State
    requires IsRun(s, steps, timeout)
    decreases |steps|
  {
    if steps == [] then s else Run(Apply(s, steps[0], timeout), steps[1..], timeout)
  }

  // ----- the kernel lock follows the count

  ghost predicate Alternating(calls: seq<Call>) {
    forall i :: 0 <= i < |calls| ==> calls[i] == if i % 2 == 0 then Acquire else Release
  }

  predicate Held(c: Counter) {
    c.calls != [] && c.calls[|c.calls| - 1] == Acquire
  }

  /** acquire_wake_lock and release_wake_lock strictly alternate and the lock is held exactly while
      the count is positive. */
  ghost predicate LockInv(c: Counter) {
    Alternating(c.calls) && (Held(c) <==> c.refCount > 0)
  }

  /** The one way to break it: taking a zero count while it is zero. Posts are asserted never to do so. */
  ghost predicate TakesNothing(s: State, step: Step) {
    step.Post? && step.live && step.token in s.tokens && s.tokens[step.token].locked
    && step.wakeUps == 0 && s.counter.refCount == 0
  }

  lemma IncrementKeepsLock(c: Counter, delta: nat, live: bool, time: int)
    requires LockInv(c)
    ensures LockInv(Increment(c, delta, live, time)) <==> !(live && delta == 0 && c.refCount == 0)
  {
    LastCall(c.calls);
  }

  lemma DecrementKeepsLock(c: Counter, delta: nat, live: bool, timeoutStart: int)
    requires LockInv(c)
    ensures LockInv(Decrement(c, delta, live, timeoutStart))
  {
    LastCall(c.calls);
  }

  lemma LastCall(calls: seq<Call>)
    requires Alternating(calls)
    ensures calls != [] ==> (calls[|calls| - 1] == Acquire <==> |calls| % 2 == 1)
  {
  }

  /** A step keeps the lock and the count in agreement if and only if it does not take a zero count
      from zero; stale or racing reads of mThreadsRun do not matter. */
  lemma StepKeepsLockExactly(s: State, step: Step, timeout: int)
    requires LockInv(s.counter) && Enabled(s, step, timeout)
    ensures LockInv(Apply(s, step, timeout).counter) <==> !TakesNothing(s, step)
  {
    match step
    case TokenCreate(_, lock, live, time) => IncrementKeepsLock(s.counter, 1, lock && live, time);
    case TokenDestroy(id, live) => DecrementKeepsLock(s.counter, 1, live, s.tokens[id].createdAt);
    case Post(_, w, live, time) => IncrementKeepsLock(s.counter, w, live, time);
    case Ack(n, live) => DecrementKeepsLock(s.counter, n, live, -1);
    case FailedWrite(n, live) => DecrementKeepsLock(s.counter, n, live, -1);
    case Timeout(_, live, _) => DecrementKeepsLock(s.counter, s.counter.refCount, live, -1);
    case Reset(live, _) => DecrementKeepsLock(s.counter, s.counter.refCount, live, -1);
    case _ =>
  }

  ghost predicate NeverTakesNothing(s: State, steps: seq<Step>, timeout: int)
    requires IsRun(s, steps, timeout)
    decreases |steps|
  {
    steps == [] || (!TakesNothing(s, steps[0]) && NeverTakesNothing(Apply(s, steps[0], timeout), steps[1..], timeout))
  }

  lemma {:induction false} RunKeepsLock(s: State, steps: seq<Step>, timeout: int)
    requires LockInv(s.counter) && IsRun(s, steps, timeout) && NeverTakesNothing(s, steps, timeout)
    ensures LockInv(Run(s, steps, timeout).counter)
    decreases |steps|
  {
    if steps != [] {
      StepKeepsLockExactly(s, steps[0], timeout);
      RunKeepsLock(Apply(s, steps[0], timeout), steps[1..], timeout);
    }
  }

  lemma LockHeldIffCounted(time: int, steps: seq<Step>, timeout: int)
    requires IsRun(Created(time), steps, timeout) && NeverTakesNothing(Created(time), steps, timeout)
    ensures var c := Run(Created(time), steps, timeout).counter;
      (Held(c) <==> c.refCount > 0) && Alternating(c.calls)
  {
    RunKeepsLock(Created(time), steps, timeout);
  }

  /** A live reset, at a timeout or otherwise, lets the lock go. */
  lemma LiveResetReleases(s: State, time: int)
    requires LockInv(s.counter)
    ensures var c := AfterReset(s, true, time).counter; c.refCount == 0 && !Held(c)
  {
    LastCall(s.counter.calls);
  }

  /** initialize does not: with the threads stopped its reset only moves the reset time, so the count
      and the lock survive, and no token locked before it can ever take its count back. */
  lemma InitializeKeepsCountAndStrandsTokens(s: State, time: int, id: nat, live: bool)
    requires id in s.tokens && s.tokens[id].locked && -1 != s.tokens[id].createdAt < time
    ensures var t := AfterReset(s, false, time);
      && t.counter.refCount == s.counter.refCount && t.counter.calls == s.counter.calls
      && AfterDestroy(t, id, live).counter == t.counter
  {
  }

  // ----- when the count has timed out

  /** When a step takes counts, if it does: a token that is locked while threads run, and a post with a locked token. */
  function CountedAt(s: State, step: Step): Option<int> {
    match step
    case TokenCreate(_, lock, live, time) => if lock && live then Some(time) else None
    case Post(token, _, live, time) => if live && token in s.tokens && s.tokens[token].locked then Some(time) else None
    case _ => None
  }

  /** The time of the latest increment of a run, `before` standing for the time of before any. */
  ghost function LatestIncrement(s: State, steps: seq<Step>, before: int, timeout: int): int
    requires IsRun(s, steps, timeout)
    decreases |steps|
  {
    if steps == [] then before
    else
      var at := CountedAt(s, steps[0]);
      LatestIncrement(Apply(s, steps[0], timeout), steps[1..], if at.Some? then at.value else before, timeout)
  }

  lemma {:induction false} StartTimeIsLatestIncrement(s: State, steps: seq<Step>, timeout: int)
    requires IsRun(s, steps, timeout)
    ensures Run(s, steps, timeout).counter.startTime == LatestIncrement(s, steps, s.counter.startTime, timeout)
    decreases |steps|
  {
    if steps != [] {
      StartTimeMoves(s, steps[0], timeout);
      StartTimeIsLatestIncrement(Apply(s, steps[0], timeout), steps[1..], timeout);
    }
  }

  lemma StartTimeMoves(s: State, step: Step, timeout: int)
    requires Enabled(s, step, timeout)
    ensures var at := CountedAt(s, step);
      Apply(s, step, timeout).counter.startTime == if at.Some? then at.value else s.counter.startTime
  {
  }

  /** After every run a timeout is taken if and only if something is counted and more than the limit has passed since
      the latest increment, or since the start if there was none; no decrement and no reset puts it off. */
  lemma TimeoutTakenExactly(time: int, steps: seq<Step>, timeout: int, checked: int, live: bool, now: int)
    requires IsRun(Created(time), steps, timeout) && now >= 0
    ensures var s := Run(Created(time), steps, timeout);
      Enabled(s, Timeout(checked, live, now), timeout) <==>
        s.counter.refCount > 0 && checked - LatestIncrement(Created(time), steps, time, timeout) > timeout
  {
    StartTimeIsLatestIncrement(Created(time), steps, timeout);
  }

  // ----- conservation

  /** Tokens whose count was taken since the latest reset and not yet given back. */
  function LiveTokens(s: State): set<nat> {
    set id | id in s.tokens && s.tokens[id].locked && s.tokens[id].sinceReset
  }

  ghost predicate TimesInv(s: State) {
    && 0 <= s.counter.resetTime <= s.now
    && forall id :: id in s.tokens && s.tokens[id].locked ==>
         && 0 <= s.tokens[id].createdAt <= s.now
         && (s.tokens[id].sinceReset <==> s.tokens[id].createdAt >= s.counter.resetTime)
  }

  ghost predicate Balanced(s: State) {
    && s.acked + s.failed <= s.posted
    && s.counter.refCount == |LiveTokens(s)| + s.posted - s.acked - s.failed
  }

  /** The count may be larger than what it should cover, but never smaller. */
  ghost predicate Covers(s: State) {
    s.counter.refCount >= |LiveTokens(s)| + s.posted - s.acked - s.failed
  }

  /** The clock never shows the same time twice. */
  predicate Timely(s: State, step: Step) {
    match step
    case TokenCreate(_, _, _, time) => time > s.now
    case Post(_, _, _, time) => time > s.now
    case Timeout(_, _, time) => time > s.now
    case Reset(_, time) => time > s.now
    case _ => true
  }

  /** Threads are running, and no assignment goes over a token that still counts. */
  predicate Undisturbed(s: State, step: Step) {
    match step
    case TokenCreate(_, _, live, _) => live
    case TokenMove(_, _) => true
    case TokenAssign(_, target) => target !in LiveTokens(s)
    case TokenDestroy(_, live) => live
    case Post(_, _, live, _) => live
    case Ack(_, live) => live
    case FailedWrite(_, live) => live
    case Timeout(_, live, _) => live
    case Reset(live, _) => live
  }

  /** How many wake-up events a step gives back. */
  function GivenBack(step: Step): nat {
    match step
    case Ack(n, _) => n
    case FailedWrite(n, _) => n
    case _ => 0
  }

  /** The steps of ordinary operation: timely, undisturbed ones that give back no more than was posted. */
  predicate Ordinary(s: State, step: Step) {
    Timely(s, step) && Undisturbed(s, step) && (GivenBack(step) > 0 ==> s.acked + s.failed + GivenBack(step) <= s.posted)
  }

  function Replace(live: set<nat>, source: nat, target: nat): set<nat> {
    if source in live && source != target then (live - {source}) + {target} else live - {source, target}
  }

  lemma ReplaceSize(live: set<nat>, source: nat, target: nat)
    ensures |Replace(live, source, target)| == |live| - (if target in live then 1 else 0)
  {
    if source in live && source != target {
      var rest := live - {source};
      if target in live {
        assert rest + {target} == rest;
      }
    } else {
      assert live - {source, target} == live - {target};
    }
  }

  lemma AssignReplaces(s: State, source: nat, target: nat)
    requires source in s.tokens
    ensures LiveTokens(AfterAssign(s, source, target)) == Replace(LiveTokens(s), source, target)
  {
    var t := AfterAssign(s, source, target);
    forall id ensures id in LiveTokens(t) <==> id in Replace(LiveTokens(s), source, target) {
      if id == source {
      } else if id == target {
        assert t.tokens[id] == s.tokens[source];
      } else {
        assert id in t.tokens <==> id in s.tokens;
      }
    }
  }

  lemma AssignMovesOneCount(s: State, source: nat, target: nat)
    requires source in s.tokens
    ensures var t := AfterAssign(s, source, target);
      |LiveTokens(t)| == |LiveTokens(s)| - (if target in LiveTokens(s) then 1 else 0)
  {
    AssignReplaces(s, source, target);
    ReplaceSize(LiveTokens(s), source, target);
  }

  /** A moved-from token counts once; assigning over a counting token loses that token's count for
      good, and that is the only assignment that does. */
  lemma AssignBalancedExactly(s: State, source: nat, target: nat)
    requires Balanced(s) && source in s.tokens
    ensures Balanced(AfterAssign(s, source, target)) <==> target !in LiveTokens(s)
  {
    AssignMovesOneCount(s, source, target);
  }

  lemma CreateTakesOne(s: State, id: nat, lock: bool, live: bool, time: int)
    requires id !in s.tokens
    ensures |LiveTokens(AfterCreate(s, id, lock, live, time))| == |LiveTokens(s)| + (if lock && live then 1 else 0)
  {
    var t := AfterCreate(s, id, lock, live, time);
    assert LiveTokens(t) == if lock && live then LiveTokens(s) + {id} else LiveTokens(s);
  }

  lemma DestroyGivesBackOne(s: State, id: nat)
    requires TimesInv(s) && Balanced(s) && id in s.tokens
    ensures Balanced(AfterDestroy(s, id, true))
    ensures id !in LiveTokens(s) ==> AfterDestroy(s, id, true).counter == s.counter
  {
    var t := AfterDestroy(s, id, true);
    assert LiveTokens(t) == LiveTokens(s) - {id};
  }

  lemma ResetStartsOver(s: State, live: bool, time: int)
    ensures LiveTokens(AfterReset(s, live, time)) == {}
  {
  }

  /** Whatever the threads do and however much is given back, the count covers what it should. */
  lemma TimelyStepKeepsCover(s: State, step: Step, timeout: int)
    requires TimesInv(s) && Covers(s) && Enabled(s, step, timeout) && Timely(s, step)
    ensures TimesInv(Apply(s, step, timeout)) && Covers(Apply(s, step, timeout))
  {
    TimelyStepKeepsTimes(s, step, timeout);
    hide TimesInv;
    match step
    case TokenCreate(id, lock, live, time) => CreateTakesOne(s, id, lock, live, time);
    case TokenMove(source, target) => AssignMovesOneCount(s, source, target);
    case TokenAssign(source, target) => AssignMovesOneCount(s, source, target);
    case TokenDestroy(id, live) => DestroyKeepsCover(s, id, live);
    case Timeout(_, live, time) => ResetStartsOver(s, live, time);
    case Reset(live, time) => ResetStartsOver(s, live, time);
    case _ => SameTokens(s, step, timeout);
  }

  lemma SameTokens(s: State, step: Step, timeout: int)
    requires Enabled(s, step, timeout) && (step.Post? || step.Ack? || step.FailedWrite?)
    ensures LiveTokens(Apply(s, step, timeout)) == LiveTokens(s)
  {
  }

  lemma TimelyStepKeepsTimes(s: State, step: Step, timeout: int)
    requires TimesInv(s) && Enabled(s, step, timeout) && Timely(s, step)
    ensures TimesInv(Apply(s, step, timeout))
  {
    hide Increment, Decrement, LiveTokens;
    CountersKeepTimes(s.counter);
  }

  lemma CountersKeepTimes(c: Counter)
    ensures forall delta, live, time :: Increment(c, delta, live, time).resetTime == c.resetTime
    ensures forall delta, live, time :: Decrement(c, delta, live, time).resetTime == c.resetTime
  {
  }

  lemma DestroyKeepsCover(s: State, id: nat, live: bool)
    requires TimesInv(s) && Covers(s) && id in s.tokens
    ensures Covers(AfterDestroy(s, id, live))
  {
    assert LiveTokens(AfterDestroy(s, id, live)) == LiveTokens(s) - {id};
  }

  /** An acknowledgement or a failed write while threads run keeps the balance if and only if it gives back
      no more than is outstanding. */
  lemma GivingBackBalancedExactly(s: State, n: nat, timeout: int)
    requires Balanced(s) && n > 0
    ensures Balanced(Apply(s, Ack(n, true), timeout)) <==> s.acked + s.failed + n <= s.posted
    ensures Balanced(Apply(s, FailedWrite(n, true), timeout)) <==> s.acked + s.failed + n <= s.posted
  {
    assert LiveTokens(Apply(s, Ack(n, true), timeout)) == LiveTokens(s);
    assert LiveTokens(Apply(s, FailedWrite(n, true), timeout)) == LiveTokens(s);
  }

  /** An acknowledgement carries no date, so unlike a token it is never taken for older than the latest reset:
      whatever it acknowledges, it takes counts as long as there are any. */
  lemma AcknowledgementIsNeverStale(s: State, n: nat, timeout: int)
    ensures var c := Apply(s, Ack(n, true), timeout).counter;
      && c.refCount == s.counter.refCount - Min(s.counter.refCount, n)
      && (c.refCount == s.counter.refCount <==> n == 0 || s.counter.refCount == 0)
  {
  }

  /** A post of one wake-up event with its own token, which is destroyed right after it. */
  function PostOne(s: State, id: nat, time: int): State {
    AfterDestroy(AfterPost(AfterCreate(s, id, true, true, time), id, 1, true, time + 1), id, true)
  }

  lemma PostOneCounts(s: State, id: nat, time: int)
    requires s.tokens == map[] && s.counter.refCount == 0 && -1 < s.counter.resetTime <= time
    ensures var t := PostOne(s, id, time);
      && t.tokens == map[] && t.posted == s.posted + 1
      && t.counter == Counter(1, time + 1, s.counter.resetTime, s.counter.calls + [Acquire])
  {
    var made := AfterCreate(s, id, true, true, time);
    assert made.counter == Counter(1, time, s.counter.resetTime, s.counter.calls + [Acquire]);
    var posted := AfterPost(made, id, 1, true, time + 1);
    assert posted.counter == made.counter.(refCount := 2, startTime := time + 1);
    assert posted.tokens - {id} == map[];
  }

  /** Whenever nothing is counted: one wake-up event is posted and its count lost at a reset, another is posted.
      The late acknowledgement of the first lets the lock go, with the second one outstanding. */
  lemma LateAcknowledgementStealsACount(s: State, id: nat, time: int, r: int, id': nat, time': int, timeout: int)
    requires s.tokens == map[] && s.counter.refCount == 0 && -1 < s.counter.resetTime <= time && r <= time' && r >= 0
    ensures var reset := AfterReset(PostOne(s, id, time), true, r);
      var after := PostOne(reset, id', time');
      && !Held(reset.counter)
      && Held(after.counter) && after.counter.refCount == after.posted == 1 && LiveTokens(after) == {}
      && !Held(Apply(after, Ack(1, true), timeout).counter)
  {
    var before := PostOne(s, id, time);
    PostOneCounts(s, id, time);
    var reset := AfterReset(before, true, r);
    assert reset.counter == Counter(0, time + 1, r, before.counter.calls + [Release]) && reset.tokens == map[];
    PostOneCounts(reset, id', time');
    hide PostOne, AfterReset;
    var after := PostOne(reset, id', time');
    AcknowledgementIsNeverStale(after, 1, timeout);
    assert Apply(after, Ack(1, true), timeout).counter.calls == after.counter.calls + [Release];
  }

  lemma OrdinaryStepKeepsBalance(s: State, step: Step, timeout: int)
    requires TimesInv(s) && Balanced(s) && Enabled(s, step, timeout) && Ordinary(s, step)
    ensures TimesInv(Apply(s, step, timeout)) && Balanced(Apply(s, step, timeout))
  {
    TimelyStepKeepsTimes(s, step, timeout);
    hide TimesInv;
    match step
    case TokenCreate(id, lock, live, time) => CreateTakesOne(s, id, lock, live, time);
    case TokenMove(source, target) => AssignMovesOneCount(s, source, target);
    case TokenAssign(source, target) => AssignMovesOneCount(s, source, target);
    case TokenDestroy(id, _) => DestroyGivesBackOne(s, id);
    case Timeout(_, live, time) => ResetStartsOver(s, live, time);
    case Reset(live, time) => ResetStartsOver(s, live, time);
    case _ => SameTokens(s, step, timeout);
  }

  ghost predicate OrdinaryRun(s: State, steps: seq<Step>, timeout: int)
    requires IsRun(s, steps, timeout)
    decreases |steps|
  {
    steps == [] || (Ordinary(s, steps[0]) && OrdinaryRun(Apply(s, steps[0], timeout), steps[1..], timeout))
  }

  lemma {:induction false} RunKeepsBalance(s: State, steps: seq<Step>, timeout: int)
    requires TimesInv(s) && Balanced(s) && IsRun(s, steps, timeout) && OrdinaryRun(s, steps, timeout)
    ensures TimesInv(Run(s, steps, timeout)) && Balanced(Run(s, steps, timeout))
    decreases |steps|
  {
    if steps != [] {
      OrdinaryStepKeepsBalance(s, steps[0], timeout);
      RunKeepsBalance(Apply(s, steps[0], timeout), steps[1..], timeout);
    }
  }

  /** Over every ordinary run the count is the live tokens taken since the latest reset plus the
      wake-up events posted since it and not yet acknowledged or written off; a token older than the
      reset gives nothing back. */
  lemma CountIsConserved(time: int, steps: seq<Step>, timeout: int)
    requires time >= 0 && IsRun(Created(time), steps, timeout) && OrdinaryRun(Created(time), steps, timeout)
    ensures var s := Run(Created(time), steps, timeout);
      && s.acked + s.failed <= s.posted
      && s.counter.refCount == |LiveTokens(s)| + s.posted - s.acked - s.failed
      && (forall id :: id in s.tokens && !s.tokens[id].sinceReset ==>
            AfterDestroy(s, id, true).counter == s.counter)
  {
    assert LiveTokens(Created(time)) == {};
    RunKeepsBalance(Created(time), steps, timeout);
  }

  /** With threads running and something counted, destroying a locked token leaves the counter alone if and only
      if the token was created before the latest reset. */
  lemma TokenIsStaleExactly(s: State, id: nat)
    requires id in s.tokens && s.tokens[id].locked && s.tokens[id].createdAt != -1 && s.counter.refCount > 0
    ensures AfterDestroy(s, id, true).counter == s.counter <==> s.tokens[id].createdAt < s.counter.resetTime
  {
  }

  /** The steps that neither reset the count nor touch the token. */
  predicate LeavesAlone(step: Step, id: nat) {
    match step
    case TokenCreate(i, _, _, _) => true
    case TokenMove(i, j) => id != i && id != j
    case TokenAssign(i, j) => id != i && id != j
    case TokenDestroy(i, _) => id != i
    case Timeout(_, _, _) => false
    case Reset(_, _) => false
    case _ => true
  }

  lemma {:induction false} RunLeavesTokenAlone(s: State, id: nat, steps: seq<Step>, timeout: int)
    requires id in s.tokens && IsRun(s, steps, timeout)
    requires forall i :: 0 <= i < |steps| ==> LeavesAlone(steps[i], id)
    ensures var t := Run(s, steps, timeout);
      id in t.tokens && t.tokens[id] == s.tokens[id] && t.counter.resetTime == s.counter.resetTime
    decreases |steps|
  {
    if steps != [] {
      assert LeavesAlone(steps[0], id);
      RunLeavesTokenAlone(Apply(s, steps[0], timeout), id, steps[1..], timeout);
    }
  }

  /** A locked token held across a reset at time r, whatever else happens until the next one: while something is
      counted, destroying it takes a count unless it was created strictly before r. */
  lemma HeldAcrossResetExactly(s: State, r: int, id: nat, steps: seq<Step>, timeout: int)
    requires id in s.tokens && s.tokens[id].locked && s.tokens[id].createdAt != -1
    requires IsRun(AfterReset(s, true, r), steps, timeout)
    requires forall i :: 0 <= i < |steps| ==> LeavesAlone(steps[i], id)
    ensures var t := Run(AfterReset(s, true, r), steps, timeout);
      && id in t.tokens
      && (t.counter.refCount > 0 ==> (AfterDestroy(t, id, true).counter == t.counter <==> s.tokens[id].createdAt < r))
  {
    RunLeavesTokenAlone(AfterReset(s, true, r), id, steps, timeout);
    var t := Run(AfterReset(s, true, r), steps, timeout);
    if t.counter.refCount > 0 {
      TokenIsStaleExactly(t, id);
    }
  }

  /** With a clock that may repeat a reading the stale-token rule fails: a token created in the same
      nanosecond as the reset still takes a count away, here that of a token created after it. */
  lemma CoarseClockStealsACount()
    ensures var s := AfterCreate(AfterReset(AfterCreate(Created(5), 0, true, true, 5), true, 5), 1, true, true, 5);
      && !s.tokens[0].sinceReset && s.tokens[1].sinceReset && s.counter.refCount == 1
      && AfterDestroy(s, 0, true).counter.refCount == 0
  {
  }
}
