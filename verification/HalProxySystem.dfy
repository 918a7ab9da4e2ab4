/** The event pipeline and the wake-lock count running together: posts take counts, failed blocking writes and
    framework acknowledgements give them back; timeouts, stop and initialize cut across both. */
module HalProxySystem {
  import opened Basics
  import opened EventLog
  import P = EventPipeline
  import T = EventPipelineTheorems
  import W = SharedWakeLock

  /** What the count took and gave in this session before its latest reset. */
  datatype Totals = Totals(posted: nat, acked: nat, failed: nat)

  /** Besides the two halves, history since the latest initialize: what failed writes have given back beyond the
      events they dropped, the totals of before the latest reset, the wake-up events of posts that were not counted
      (the token unlocked, or mThreadsRun seen to be false), and whether all has been ordinary operation. */
  datatype State = State(queue: P.State, wake: W.State, excess: nat, before: Totals, uncounted: nat, calm: bool)

  datatype Step =
    | Post(events: seq<Event>, token: nat, live: bool, time: int)
    | WriteFails(live: bool)
    | Queue(queueStep: P.Step)
    | Wake(wakeStep: W.Step)
    | Restart(quantum: nat, time: int)

  /** Events of the session that have left the FMQ, to the framework or when stopping. */
  function Read(p: P.State): seq<Event>
    requires |p.fmq| <= |p.fmqHistory|
  {
    p.fmqHistory[..|p.fmqHistory| - |p.fmq|]
  }

  /** Wake-up events queued in the HAL or waiting unread in the FMQ. */
  function Undelivered(p: P.State): nat
    requires P.InFlight(p) <= |P.Flatten(p.pending)|
  {
    P.CountWakeUps(p.wakeHandles, P.Flatten(p.pending)[P.InFlight(p)..]) + P.CountWakeUps(p.wakeHandles, p.fmq)
  }

  /** The clock advances, a locked token comes only with wake-up events, and the framework acknowledges only wake-up
      events that have left the FMQ in this session. Everything else may happen at any time: timeouts and resets,
      stop, a restart once the threads have ended, wake-up events posted with an unlocked token, and calls that see
      mThreadsRun up or down (`live`). */
  ghost predicate Enabled(s: State, step: Step, timeout: int) {
    match step
    case Post(events, token, live, time) =>
      && P.Enabled(s.queue, P.PostEnter(events))
      && token in s.wake.tokens && time > s.wake.now && time >= 0
      && (s.wake.tokens[token].locked ==> P.CountWakeUps(s.queue.wakeHandles, events) > 0)
    case WriteFails(_) => P.Enabled(s.queue, P.DrainWrite(false))
    case Queue(q) => !q.PostEnter? && q != P.DrainWrite(false) && !q.Initialize? && P.Enabled(s.queue, q)
    case Wake(w) =>
      && !w.Post? && !w.FailedWrite?
      && W.Enabled(s.wake, w, timeout) && W.Timely(s.wake, w)
      && (w.Ack? ==>
            && |s.queue.fmq| <= |s.queue.fmqHistory|
            && s.before.acked + s.wake.acked + w.n <= P.CountWakeUps(s.queue.wakeHandles, Read(s.queue)))
    case Restart(quantum, time) => P.Enabled(s.queue, P.Initialize(quantum)) && time > s.wake.now && time >= 0
  }

  function AddTotals(b: Totals, w: W.State): Totals {
    Totals(b.posted + w.posted, b.acked + w.acked, b.failed + w.failed)
  }

  ghost function Apply(s: State, step: Step, timeout: int): State
    requires Enabled(s, step, timeout)
  {
    match step
    case Post(events, token, live, time) =>
      var n := P.CountWakeUps(s.queue.wakeHandles, events);
      var counted := live && s.wake.tokens[token].locked;
      State(P.AfterPostEnter(s.queue, events), W.AfterPost(s.wake, token, n, live, time), s.excess, s.before,
            if counted then s.uncounted else s.uncounted + n, s.calm && (counted || n == 0))
    case WriteFails(live) =>
      var n := P.ReleaseOnFailure(s.queue.wakeHandles, P.Head(s.queue), s.queue.drainer.quantum);
      State(P.AfterDrainWrite(s.queue, false), W.Apply(s.wake, W.FailedWrite(n, live), timeout),
            s.excess + T.Excess(s.queue), s.before, s.uncounted, s.calm && live)
    case Queue(q) => s.(queue := P.Apply(s.queue, q))
    case Wake(w) =>
      s.(wake := W.Apply(s.wake, w, timeout),
         before := if w.Timeout? || w.Reset? then AddTotals(s.before, s.wake) else s.before,
         calm := s.calm && W.Undisturbed(s.wake, w) && !w.Timeout? && !w.Reset?)
    case Restart(quantum, time) =>
      State(P.AfterInitialize(s.queue, quantum), W.AfterReset(s.wake, false, time), 0, Totals(0, 0, 0), 0,
            s.wake.counter.refCount == 0)
  }

  ghost predicate IsRun(s: State, steps: seq<Step>, timeout: int)
    decreases |steps|
  {
    steps == [] || (Enabled(s, steps[0], timeout) && IsRun(Apply(s, steps[0], timeout), steps[1..], timeout))
  }

  ghost function Run(s: State, steps: seq<Step>, timeout: int): State
    requires IsRun(s, steps, timeout)
    decreases |steps|
  {
    if steps == [] then s else Run(Apply(s, steps[0], timeout), steps[1..], timeout)
  }

  /** The state right after a first initialize. */
  function Initialized(wakeHandles: set<int>, quantum: nat, time: int): State {
    State(P.AfterInitialize(P.Created(wakeHandles), quantum), W.Created(time), 0, Totals(0, 0, 0), 0, true)
  }

  // ----- the invariant

  function Entering(p: P.State): nat {
    if p.poster.Inside? then p.poster.wakeUps else 0
  }

  /** Wake-up events of the log with a given fate. */
  function Wakes(p: P.State, fate: Fate): nat {
    P.CountWakeUps(p.wakeHandles, Project(p.log, fate))
  }

  /** What was outstanding at the latest reset, which does not count any more. */
  function WrittenOff(s: State): int { s.before.posted - s.before.acked - s.before.failed }

  ghost predicate Accounts(s: State) {
    && s.before.posted + s.wake.posted + s.uncounted
       == P.CountWakeUps(s.queue.wakeHandles, s.queue.posted) + Entering(s.queue)
    && |s.queue.fmq| <= |s.queue.fmqHistory|
    && s.before.acked + s.wake.acked <= P.CountWakeUps(s.queue.wakeHandles, Read(s.queue))
    && s.before.failed + s.wake.failed <= Wakes(s.queue, Dropped) + s.excess
    && (s.excess > 0 ==> Project(s.queue.log, Dropped) != [])
  }

  /** What holds of the count alone. */
  ghost predicate CountInv(s: State) {
    && W.TimesInv(s.wake) && W.Covers(s.wake) && W.LockInv(s.wake.counter)
    && (s.calm ==> s.before == Totals(0, 0, 0) && s.uncounted == 0)
    && (s.calm && s.excess == 0 ==> W.Balanced(s.wake))
  }

  ghost predicate Inv(s: State) { P.Inv(s.queue) && CountInv(s) && Accounts(s) }

  lemma {:induction false} FatesAddUp(wake: set<int>, log: seq<Entry>)
    ensures P.CountWakeUps(wake, Events(log))
         == P.CountWakeUps(wake, Project(log, Written)) + P.CountWakeUps(wake, Project(log, Pending))
            + P.CountWakeUps(wake, Project(log, Dropped))
  {
    if log != [] {
      FatesAddUp(wake, log[1..]);
      var e := log[0].event;
      forall rest: seq<Event>
        ensures P.CountWakeUps(wake, [e] + rest) == (if e.sensorHandle in wake then 1 else 0) + P.CountWakeUps(wake, rest)
      {
        assert ([e] + rest)[1..] == rest;
      }
    }
  }

  /** The wake-up events of a session are written, pending, dropped or being posted; those written have been read
      or are in the FMQ. */
  lemma WakesAddUp(p: P.State)
    requires P.Inv(p)
    ensures P.InFlight(p) <= |P.Flatten(p.pending)| && |p.fmq| <= |p.fmqHistory|
    ensures P.CountWakeUps(p.wakeHandles, p.posted)
         == P.CountWakeUps(p.wakeHandles, Read(p)) + Undelivered(p) + Wakes(p, Dropped)
  {
    hide P.QueueInv, P.WriterInv, Ordered, Project, P.Flatten, P.CountWakeUps, Events;
    FatesAddUp(p.wakeHandles, p.log);
    P.CountWakeUpsSplit(p.wakeHandles, p.fmqHistory, |p.fmqHistory| - |p.fmq|);
  }

  /** What the invariant says about the count: it covers the live tokens, the post under way and every wake-up event
      still queued or unread, less what failed writes gave back in excess, posts were not counted and the latest
      reset wrote off. */
  lemma CountCovers(s: State)
    requires Inv(s)
    ensures s.wake.counter.refCount
         >= |W.LiveTokens(s.wake)| + Entering(s.queue) + Undelivered(s.queue) - s.excess - s.uncounted - WrittenOff(s)
  {
    hide P.Inv, P.CountWakeUps, Read, Undelivered, Wakes, W.LiveTokens;
    WakesAddUp(s.queue);
  }

  /** While nothing but ordinary operation has happened, what is given back is covered by what is outstanding. */
  lemma GivenBackIsCovered(s: State, acked: nat, failed: nat)
    requires Inv(s) && s.calm && s.excess == 0
    requires s.wake.acked + acked <= P.CountWakeUps(s.queue.wakeHandles, Read(s.queue))
    requires failed <= Wakes(s.queue, Pending)
    ensures s.wake.acked + s.wake.failed + acked + failed <= s.wake.posted
  {
    hide P.QueueInv, P.WriterInv, Ordered, Project, P.Flatten, P.CountWakeUps, Events;
    FatesAddUp(s.queue.wakeHandles, s.queue.log);
    P.CountWakeUpsSplit(s.queue.wakeHandles, s.queue.fmqHistory, |s.queue.fmqHistory| - |s.queue.fmq|);
  }

  // ----- every step keeps it

  lemma PostKeepsInv(s: State, events: seq<Event>, token: nat, live: bool, time: int, timeout: int)
    requires Inv(s) && Enabled(s, Post(events, token, live, time), timeout)
    ensures Inv(Apply(s, Post(events, token, live, time), timeout))
  {
    hide P.Inv, P.CountWakeUps, W.LiveTokens, Project, W.TimesInv, W.Covers, W.Balanced, W.LockInv;
    var n := P.CountWakeUps(s.queue.wakeHandles, events);
    P.StepKeepsInv(s.queue, P.PostEnter(events));
    W.TimelyStepKeepsCover(s.wake, W.Post(token, n, live, time), timeout);
    if s.calm && live && s.excess == 0 {
      W.OrdinaryStepKeepsBalance(s.wake, W.Post(token, n, live, time), timeout);
    }
    W.StepKeepsLockExactly(s.wake, W.Post(token, n, live, time), timeout);
  }

  lemma {:induction false} ResolveDroppedGains(log: seq<Entry>, n: nat, wake: set<int>)
    requires n <= |Project(log, Pending)|
    ensures P.CountWakeUps(wake, Project(Resolve(log, n, Dropped), Dropped))
         == P.CountWakeUps(wake, Project(log, Dropped)) + P.CountWakeUps(wake, Project(log, Pending)[..n])
  {
    if log != [] && n != 0 {
      var tail := log[1..];
      var e := log[0].event;
      if log[0].fate == Pending {
        ResolveDroppedGains(tail, n - 1, wake);
        assert Project(log, Pending)[..n] == [e] + Project(tail, Pending)[..n - 1];
        P.CountWakeUpsAppend(wake, [e], Project(tail, Pending)[..n - 1]);
        P.CountWakeUpsAppend(wake, [e], Project(Resolve(tail, n - 1, Dropped), Dropped));
      } else {
        ResolveDroppedGains(tail, n, wake);
        if log[0].fate == Dropped {
          P.CountWakeUpsAppend(wake, [e], Project(Resolve(tail, n, Dropped), Dropped));
          P.CountWakeUpsAppend(wake, [e], Project(tail, Dropped));
        }
      }
    }
  }

  /** What a failed write does to the accounts of the queue. */
  lemma FailureAccounts(p: P.State)
    requires P.Inv(p) && P.Enabled(p, P.DrainWrite(false))
    ensures var n := P.ReleaseOnFailure(p.wakeHandles, P.Head(p), p.drainer.quantum);
      && n <= Wakes(p, Pending) + T.Excess(p)
      && Wakes(P.AfterDrainWrite(p, false), Dropped) + T.Excess(p) == Wakes(p, Dropped) + n
    ensures |Project(P.AfterDrainWrite(p, false).log, Dropped)| == |Project(p.log, Dropped)| + p.drainer.numToWrite
    ensures T.Excess(p) > 0 ==> p.drainer.numToWrite > 0
  {
    hide Project, Resolve, Events, Ordered, P.CountWakeUps, P.TotalSize, P.Flatten, P.ReleaseOnFailure;
    var k := p.drainer.numToWrite;
    P.FlattenHead(p.pending, k);
    T.FailedWriteReleaseExact(p);
    ResolveDroppedGains(p.log, k, p.wakeHandles);
    PrefixWakes(p.wakeHandles, Project(p.log, Pending)[..k], Project(p.log, Pending));
    ResolveDroppedLength(p.log, k);
  }

  lemma WriteFailsKeepsInv(s: State, live: bool, timeout: int)
    requires Inv(s) && Enabled(s, WriteFails(live), timeout)
    ensures Inv(Apply(s, WriteFails(live), timeout))
  {
    hide P.Inv, P.CountWakeUps, P.ReleaseOnFailure, W.LiveTokens, Project, W.TimesInv, W.Covers, W.Balanced, W.LockInv, Resolve;
    var n := P.ReleaseOnFailure(s.queue.wakeHandles, P.Head(s.queue), s.queue.drainer.quantum);
    FailureAccounts(s.queue);
    P.StepKeepsInv(s.queue, P.DrainWrite(false));
    W.TimelyStepKeepsCover(s.wake, W.FailedWrite(n, live), timeout);
    if s.calm && live && s.excess + T.Excess(s.queue) == 0 {
      GivenBackIsCovered(s, 0, n);
      W.OrdinaryStepKeepsBalance(s.wake, W.FailedWrite(n, live), timeout);
    }
    W.StepKeepsLockExactly(s.wake, W.FailedWrite(n, live), timeout);
  }

  lemma {:induction false} ResolveDroppedLength(log: seq<Entry>, n: nat)
    requires n <= |Project(log, Pending)|
    ensures |Project(Resolve(log, n, Dropped), Dropped)| == |Project(log, Dropped)| + n
  {
    if log != [] && n != 0 {
      ResolveDroppedLength(log[1..], if log[0].fate == Pending then n - 1 else n);
    }
  }

  lemma ReadGrows(p: P.State, q: P.Step)
    requires P.Inv(p) && P.Enabled(p, q) && !q.Initialize?
    requires P.Inv(P.Apply(p, q))
    ensures Read(p) <= Read(P.Apply(p, q))
  {
    hide P.QueueInv, P.WriterInv, Ordered, Project, P.Flatten, P.CountWakeUps, Events, P.GoneAfterFinish,
         P.AfterPostLeave, P.AfterDrainWrite;
    match q
    case PostLeave => HistoryGrows(p, q);
    case DrainWrite(_) => HistoryGrows(p, q);
    case _ =>
  }

  /** What is written goes to the end of the FMQ and of its history. */
  lemma HistoryGrows(p: P.State, q: P.Step)
    requires P.Inv(p) && P.Enabled(p, q) && (q.PostLeave? || q.DrainWrite?)
    ensures |p.fmq| <= |p.fmqHistory|
    ensures var t := P.Apply(p, q);
      && |t.fmqHistory| - |t.fmq| == |p.fmqHistory| - |p.fmq|
      && p.fmqHistory <= t.fmqHistory
  {
    hide P.QueueInv, Ordered, Project, P.CountWakeUps, Events, Resolve, P.Flatten, Tag;
  }

  lemma PrefixWakes(wake: set<int>, a: seq<Event>, b: seq<Event>)
    requires a <= b
    ensures P.CountWakeUps(wake, a) <= P.CountWakeUps(wake, b)
  {
    P.CountWakeUpsSplit(wake, b, |a|);
  }

  lemma {:induction false} ResolveKeepsDropped(log: seq<Entry>, n: nat)
    ensures Project(Resolve(log, n, Written), Dropped) == Project(log, Dropped)
  {
    T.ResolveWrittenDropsNothing(log, n);
  }

  lemma DroppedGrows(p: P.State, q: P.Step)
    requires P.Inv(p) && P.Enabled(p, q) && q != P.DrainWrite(false) && !q.Initialize?
    ensures Wakes(p, Dropped) <= Wakes(P.Apply(p, q), Dropped)
    ensures |Project(p.log, Dropped)| <= |Project(P.Apply(p, q).log, Dropped)|
  {
    match q
    case PostLeave =>
      var more := P.Apply(p, q).log[|p.log|..];
      assert P.Apply(p, q).log == p.log + more;
      ProjectAppend(p.log, more, Dropped);
      PrefixWakes(p.wakeHandles, Project(p.log, Dropped), Project(p.log, Dropped) + Project(more, Dropped));
    case DrainWrite(_) => ResolveKeepsDropped(p.log, p.drainer.numToWrite);
    case _ =>
  }

  lemma QueueStepKeepsAccounts(s: State, q: P.Step, timeout: int)
    requires P.Inv(s.queue) && Accounts(s) && Enabled(s, Queue(q), timeout)
    ensures P.Inv(P.Apply(s.queue, q)) && Accounts(s.(queue := P.Apply(s.queue, q)))
  {
    hide P.Inv, P.CountWakeUps, Project, Read;
    var p := s.queue;
    var t := P.Apply(p, q);
    P.StepKeepsInv(p, q);
    WakesAddUp(p);
    WakesAddUp(t);
    ReadGrows(p, q);
    PrefixWakes(p.wakeHandles, Read(p), Read(t));
    DroppedGrows(p, q);
    if q.PostLeave? {
      EnteringPosted(p);
    }
  }

  lemma QueueStepKeepsInv(s: State, q: P.Step, timeout: int)
    requires Inv(s) && Enabled(s, Queue(q), timeout)
    ensures Inv(Apply(s, Queue(q), timeout))
  {
    QueueStepKeepsAccounts(s, q, timeout);
    hide P.Inv, Accounts, W.TimesInv, W.Covers, W.LockInv, W.Balanced;
  }

  lemma EnteringPosted(p: P.State)
    requires P.Inv(p) && p.poster.Inside?
    ensures var t := P.AfterPostLeave(p);
      P.CountWakeUps(p.wakeHandles, t.posted) == P.CountWakeUps(p.wakeHandles, p.posted) + Entering(p)
  {
    hide P.QueueInv, P.HistoryInv, P.CountWakeUps;
    P.CountWakeUpsAppend(p.wakeHandles, p.posted, p.poster.events);
  }

  lemma WakeStepKeepsInv(s: State, w: W.Step, timeout: int)
    requires Inv(s) && Enabled(s, Wake(w), timeout)
    ensures Inv(Apply(s, Wake(w), timeout))
  {
    hide P.Inv, Project, P.CountWakeUps, W.LiveTokens, W.TimesInv, W.Covers, W.Balanced, W.LockInv;
    W.TimelyStepKeepsCover(s.wake, w, timeout);
    if s.calm && s.excess == 0 && W.Undisturbed(s.wake, w) {
      if w.Ack? {
        GivenBackIsCovered(s, w.n, 0);
      }
      W.OrdinaryStepKeepsBalance(s.wake, w, timeout);
    }
    W.StepKeepsLockExactly(s.wake, w, timeout);
  }

  lemma RestartKeepsInv(s: State, quantum: nat, time: int, timeout: int)
    requires Inv(s) && Enabled(s, Restart(quantum, time), timeout)
    ensures Inv(Apply(s, Restart(quantum, time), timeout))
  {
    hide P.Inv, W.TimesInv, W.LockInv;
    P.StepKeepsInv(s.queue, P.Initialize(quantum));
    W.TimelyStepKeepsCover(s.wake, W.Reset(false, time), timeout);
    W.StepKeepsLockExactly(s.wake, W.Reset(false, time), timeout);
    W.ResetStartsOver(s.wake, false, time);
  }

  lemma StepKeepsInv(s: State, step: Step, timeout: int)
    requires Inv(s) && Enabled(s, step, timeout)
    ensures Inv(Apply(s, step, timeout))
  {
    hide Inv, Enabled;
    match step
    case Post(events, token, live, time) => PostKeepsInv(s, events, token, live, time, timeout);
    case WriteFails(live) => WriteFailsKeepsInv(s, live, timeout);
    case Queue(q) => QueueStepKeepsInv(s, q, timeout);
    case Wake(w) => WakeStepKeepsInv(s, w, timeout);
    case Restart(quantum, time) => RestartKeepsInv(s, quantum, time, timeout);
  }

  lemma {:induction false} RunKeepsInv(s: State, steps: seq<Step>, timeout: int)
    requires Inv(s) && IsRun(s, steps, timeout)
    ensures Inv(Run(s, steps, timeout))
    decreases |steps|
  {
    hide Inv, Enabled, Apply;
    if steps != [] {
      StepKeepsInv(s, steps[0], timeout);
      RunKeepsInv(Apply(s, steps[0], timeout), steps[1..], timeout);
    }
  }

  lemma InitializedInv(wakeHandles: set<int>, quantum: nat, time: int)
    requires time >= 0
    ensures Inv(Initialized(wakeHandles, quantum, time))
  {
    T.CreatedInv(wakeHandles);
    T.StopInitializeKeepsInv(P.Created(wakeHandles), quantum);
    assert W.LiveTokens(W.Created(time)) == {};
  }

  lemma ReachableInv(wakeHandles: set<int>, quantum: nat, time: int, steps: seq<Step>, timeout: int)
    requires time >= 0 && IsRun(Initialized(wakeHandles, quantum, time), steps, timeout)
    ensures Inv(Run(Initialized(wakeHandles, quantum, time), steps, timeout))
  {
    hide Inv, IsRun, Run;
    InitializedInv(wakeHandles, quantum, time);
    RunKeepsInv(Initialized(wakeHandles, quantum, time), steps, timeout);
  }

  // ----- what the count is for

  /** Through every run, with any timeouts, stops and restarts, the device is kept awake by the kernel lock while the
      locked tokens and the wake-up events being posted, queued in the HAL or unread in the FMQ are more than what
      failed writes gave back in excess, posts did not count and the latest reset wrote off. In a session of ordinary
      operation only the excess is subtracted. */
  lemma AwakeWhileWakeUpsAreUndelivered(wakeHandles: set<int>, quantum: nat, time: int, steps: seq<Step>, timeout: int)
    requires time >= 0 && IsRun(Initialized(wakeHandles, quantum, time), steps, timeout)
    ensures var s := Run(Initialized(wakeHandles, quantum, time), steps, timeout);
      && P.InFlight(s.queue) <= |P.Flatten(s.queue.pending)|
      && var owed := |W.LiveTokens(s.wake)| + Entering(s.queue) + Undelivered(s.queue);
      && var forgiven := s.excess + s.uncounted + WrittenOff(s);
      && s.wake.counter.refCount >= owed - forgiven
      && (owed > forgiven ==> W.Held(s.wake.counter))
      && (s.calm ==> forgiven == s.excess)
      && W.Alternating(s.wake.counter.calls)
  {
    hide IsRun, Run, Project, P.CountWakeUps, Ordered, P.Flatten, W.LiveTokens, P.QueueInv, P.WriterInv;
    ReachableInv(wakeHandles, quantum, time, steps, timeout);
    CountCovers(Run(Initialized(wakeHandles, quantum, time), steps, timeout));
  }

  /** Nothing is left to do: no post, nothing pending, all that was written is acknowledged, no token lives. */
  ghost predicate AllAcknowledged(s: State) {
    && s.queue.poster == P.Outside && s.queue.pending == []
    && s.wake.acked == P.CountWakeUps(s.queue.wakeHandles, s.queue.fmqHistory)
    && W.LiveTokens(s.wake) == {}
  }

  /** What is still counted then, in ordinary operation without excess: exactly the dropped wake-up events that no failed
      write gave back, that is, those that a full queue dropped. The lock is held if and only if there are any. */
  lemma HeldForTheDropped(wakeHandles: set<int>, quantum: nat, time: int, steps: seq<Step>, timeout: int)
    requires time >= 0 && IsRun(Initialized(wakeHandles, quantum, time), steps, timeout)
    requires var s := Run(Initialized(wakeHandles, quantum, time), steps, timeout);
      AllAcknowledged(s) && s.calm && s.excess == 0
    ensures var s := Run(Initialized(wakeHandles, quantum, time), steps, timeout);
      && s.wake.counter.refCount == Wakes(s.queue, Dropped) - s.wake.failed
      && (W.Held(s.wake.counter) <==> Wakes(s.queue, Dropped) > s.wake.failed)
  {
    hide IsRun, Run, Project, P.CountWakeUps, Ordered, W.LiveTokens, P.QueueInv, P.WriterInv;
    var s := Run(Initialized(wakeHandles, quantum, time), steps, timeout);
    ReachableInv(wakeHandles, quantum, time, steps, timeout);
    FatesAddUp(s.queue.wakeHandles, s.queue.log);
    NothingPending(s.queue);
  }

  lemma NothingPending(p: P.State)
    requires p.pending == []
    ensures P.Flatten(p.pending) == [] && P.CountWakeUps(p.wakeHandles, []) == 0
  {
  }

  /** So if nothing was dropped the count is zero and the lock is released. */
  lemma AsleepWhenEverythingIsAcknowledged(wakeHandles: set<int>, quantum: nat, time: int, steps: seq<Step>, timeout: int)
    requires time >= 0 && IsRun(Initialized(wakeHandles, quantum, time), steps, timeout)
    requires var s := Run(Initialized(wakeHandles, quantum, time), steps, timeout);
      AllAcknowledged(s) && s.calm && Project(s.queue.log, Dropped) == []
    ensures var c := Run(Initialized(wakeHandles, quantum, time), steps, timeout).wake.counter;
      c.refCount == 0 && !W.Held(c)
  {
    hide IsRun, Run, AllAcknowledged;
    ReachableInv(wakeHandles, quantum, time, steps, timeout);
    HeldForTheDropped(wakeHandles, quantum, time, steps, timeout);
  }

  // ----- a full queue keeps the lock held

  lemma ConsRun(s: State, step: Step, rest: seq<Step>, timeout: int)
    requires Enabled(s, step, timeout) && IsRun(Apply(s, step, timeout), rest, timeout)
    ensures IsRun(s, [step] + rest, timeout)
    ensures Run(s, [step] + rest, timeout) == Run(Apply(s, step, timeout), rest, timeout)
  {
    assert ([step] + rest)[1..] == rest;
  }

  /** One post under its own token, read and acknowledged as far as the FMQ took it. */
  function OverflowRun(events: seq<Event>, quantum: nat, time: int): seq<Step> {
    [Wake(W.TokenCreate(0, true, true, time + 1))] + ([Post(events, 0, true, time + 2)] + ([Queue(P.PostLeave)]
      + ([Wake(W.TokenDestroy(0, true))] + ([Queue(P.FrameworkRead(quantum))] + ([Wake(W.Ack(quantum, true))] + [])))))
  }

  /** The state after the first four steps. */
  ghost function Overflowed(wakeHandles: set<int>, events: seq<Event>, quantum: nat, time: int): State
    requires quantum <= |events|
  {
    var p := P.Created(wakeHandles).(quantum := quantum, posted := events, fmq := events[..quantum],
               fmqHistory := events[..quantum], log := Tag(events[..quantum], Written) + Tag(events[quantum..], Dropped));
    State(p, W.State(W.Counter(|events|, time + 2, time, [W.Acquire]), time + 2, map[], |events|, 0, 0),
          0, Totals(0, 0, 0), 0, true)
  }

  lemma OverflowLeaves(p: P.State)
    requires p.poster.Inside? && p.pending == [] && p.fmq == [] && p.sizePending == 0
    requires p.poster.numToWrite == p.quantum && |p.poster.events| > p.quantum + P.MAX_PENDING
    ensures var n, events := p.quantum, p.poster.events;
      P.AfterPostLeave(p)
        == p.(poster := P.Outside, posted := p.posted + events, fmq := events[..n], fmqHistory := p.fmqHistory + events[..n],
              log := p.log + Tag(events[..n], Written) + Tag(events[n..], Dropped))
  {
    hide Tag, P.CountWakeUps;
  }

  /** The state after the first two steps: the post is inside its critical section and has taken its count. */
  ghost function Counted(wakeHandles: set<int>, events: seq<Event>, quantum: nat, time: int): State {
    var p := P.AfterInitialize(P.Created(wakeHandles), quantum).(poster := P.Inside(events, |events|, quantum));
    State(p, W.State(W.Counter(1 + |events|, time + 2, time, [W.Acquire]), time + 2,
                     map[0 := W.Token(true, time + 1, true)], |events|, 0, 0),
          0, Totals(0, 0, 0), 0, true)
  }

  lemma OverflowDrops(wakeHandles: set<int>, events: seq<Event>, quantum: nat, time: int, rest: seq<Step>, timeout: int)
    requires time >= 0 && |events| > quantum + P.MAX_PENDING
    requires IsRun(Overflowed(wakeHandles, events, quantum, time), rest, timeout)
    ensures var s, steps := Counted(wakeHandles, events, quantum, time), [Queue(P.PostLeave)] + ([Wake(W.TokenDestroy(0, true))] + rest);
      && IsRun(s, steps, timeout)
      && Run(s, steps, timeout) == Run(Overflowed(wakeHandles, events, quantum, time), rest, timeout)
  {
    hide IsRun, Run, Tag, P.CountWakeUps, P.AfterPostLeave;
    var s := Counted(wakeHandles, events, quantum, time);
    OverflowLeaves(s.queue);
    var left := Apply(s, Queue(P.PostLeave), timeout);
    assert left.queue.posted == events && left.queue.fmqHistory == events[..quantum];
    var done := Apply(left, Wake(W.TokenDestroy(0, true)), timeout);
    assert done.wake.tokens == map[];
    assert done == Overflowed(wakeHandles, events, quantum, time);
    ConsRun(left, Wake(W.TokenDestroy(0, true)), rest, timeout);
    ConsRun(s, Queue(P.PostLeave), [Wake(W.TokenDestroy(0, true))] + rest, timeout);
  }

  lemma OverflowCounts(wakeHandles: set<int>, events: seq<Event>, quantum: nat, time: int, rest: seq<Step>, timeout: int)
    requires time >= 0 && |events| > quantum && P.CountWakeUps(wakeHandles, events) == |events|
    requires IsRun(Counted(wakeHandles, events, quantum, time), rest, timeout)
    ensures var s := Initialized(wakeHandles, quantum, time);
      var steps := [Wake(W.TokenCreate(0, true, true, time + 1))] + ([Post(events, 0, true, time + 2)] + rest);
      && IsRun(s, steps, timeout)
      && Run(s, steps, timeout) == Run(Counted(wakeHandles, events, quantum, time), rest, timeout)
  {
    hide IsRun, Run, P.CountWakeUps;
    var s := Initialized(wakeHandles, quantum, time);
    var made := Apply(s, Wake(W.TokenCreate(0, true, true, time + 1)), timeout);
    assert made.wake.tokens == map[0 := W.Token(true, time + 1, true)];
    assert Apply(made, Post(events, 0, true, time + 2), timeout) == Counted(wakeHandles, events, quantum, time);
    ConsRun(made, Post(events, 0, true, time + 2), rest, timeout);
    ConsRun(s, Wake(W.TokenCreate(0, true, true, time + 1)), [Post(events, 0, true, time + 2)] + rest, timeout);
  }

  lemma OverflowAcknowledged(wakeHandles: set<int>, events: seq<Event>, quantum: nat, time: int, timeout: int)
    requires |events| > quantum + P.MAX_PENDING && P.CountWakeUps(wakeHandles, events) == |events|
    ensures var s := Overflowed(wakeHandles, events, quantum, time);
      var steps := [Queue(P.FrameworkRead(quantum))] + ([Wake(W.Ack(quantum, true))] + []);
      && IsRun(s, steps, timeout)
      && var t := Run(s, steps, timeout);
      && AllAcknowledged(t) && t.calm && t.excess == 0 && t.queue.log == s.queue.log
      && t.wake.counter.refCount == |events| - quantum && W.Held(t.wake.counter)
  {
    hide Tag, P.CountWakeUps;
    var s := Overflowed(wakeHandles, events, quantum, time);
    P.CountWakeUpsSplit(wakeHandles, events, quantum);
    var s1 := Apply(s, Queue(P.FrameworkRead(quantum)), timeout);
    assert Read(s1.queue) == events[..quantum];
    var s2 := Apply(s1, Wake(W.Ack(quantum, true)), timeout);
    ConsRun(s1, Wake(W.Ack(quantum, true)), [], timeout);
    ConsRun(s, Queue(P.FrameworkRead(quantum)), [Wake(W.Ack(quantum, true))] + [], timeout);
  }

  /** A post of wake-up events that the FMQ and the pending queue have no room for takes its count and drops what it
      could not write. All that was written is read and acknowledged, nothing is queued, no token lives: the dropped
      events stay counted and the lock stays held. */
  lemma OverflowKeepsAwake(wakeHandles: set<int>, events: seq<Event>, quantum: nat, time: int, timeout: int)
    requires time >= 0 && |events| > quantum + P.MAX_PENDING && P.CountWakeUps(wakeHandles, events) == |events|
    ensures IsRun(Initialized(wakeHandles, quantum, time), OverflowRun(events, quantum, time), timeout)
    ensures var s := Run(Initialized(wakeHandles, quantum, time), OverflowRun(events, quantum, time), timeout);
      && AllAcknowledged(s) && s.calm && s.excess == 0
      && Project(s.queue.log, Dropped) == events[quantum..]
      && s.wake.counter.refCount == |events| - quantum && W.Held(s.wake.counter)
  {
    hide IsRun, Run, Project, Tag, AllAcknowledged;
    OverflowAcknowledged(wakeHandles, events, quantum, time, timeout);
    var rest := [Queue(P.FrameworkRead(quantum))] + ([Wake(W.Ack(quantum, true))] + []);
    OverflowDrops(wakeHandles, events, quantum, time, rest, timeout);
    OverflowCounts(wakeHandles, events, quantum, time, [Queue(P.PostLeave)] + ([Wake(W.TokenDestroy(0, true))] + rest), timeout);
    TagEvents(events[..quantum], Written);
    TagEvents(events[quantum..], Dropped);
    ProjectAppend(Tag(events[..quantum], Written), Tag(events[quantum..], Dropped), Dropped);
  }
}
