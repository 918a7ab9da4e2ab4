/** The event half of HalProxy as a transition system: sub-HAL threads posting batches, the
    background thread draining the pending queue with a blocking write made outside the mutex,
    the framework reading the event FMQ, stop and re-initialize. */
module EventPipeline {
  import opened Basics
  import opened EventLog

  const MAX_PENDING: nat := 100000

  /** An entry of mPendingWriteEventsQueue. */
  datatype Batch = Batch(events: seq<Event>, wakeUps: nat)

  /** A posting thread: Inside means it holds mEventQueueWriteMutex and has chosen how much to write. */
  datatype Poster = Outside | Inside(events: seq<Event>, wakeUps: nat, numToWrite: nat)

  /** The pending-writes thread. It holds the mutex only while it enters and leaves Busy;
      `claimed` is the queue head it saw when it released the mutex. */
  datatype Drainer =
    | Waiting
    | Busy(claimed: Batch, numToWrite: nat, quantum: nat, wrote: bool)

  datatype State = State(
    wakeHandles: set<int>,
    running: bool,
    quantum: nat,
    fmq: seq<Event>,
    pending: seq<Batch>,
    sizePending: int,
    poster: Poster,
    drainer: Drainer,
    // history since the last initialize
    posted: seq<Event>,
    fmqHistory: seq<Event>,
    log: seq<Entry>,
    released: nat,
    // for each pending batch, the wake-up events of its post that have already left it
    gone: seq<nat>)

  datatype Step =
    | PostEnter(events: seq<Event>)
    | PostLeave
    | DrainBegin
    | DrainWrite(ok: bool)
    | DrainFinish
    | FrameworkRead(n: nat)
    | Stop
    | Initialize(quantum: nat)

  function CountWakeUps(wake: set<int>, events: seq<Event>): (n: nat)
    ensures n <= |events|
  {
    if events == [] then 0
    else (if events[0].sensorHandle in wake then 1 else 0) + CountWakeUps(wake, events[1..])
  }

  function Flatten(batches: seq<Batch>): seq<Event> {
    if batches == [] then [] else batches[0].events + Flatten(batches[1..])
  }

  function TotalSize(batches: seq<Batch>): nat {
    if batches == [] then 0 else |batches[0].events| + TotalSize(batches[1..])
  }

  /** The batch that the reference taken by the drain thread denotes now. */
  function Head(s: State): Batch {
    if s.pending == [] then Batch([], 0) else s.pending[0]
  }

  function Space(s: State): nat {
    if |s.fmq| <= s.quantum then s.quantum - |s.fmq| else 0
  }

  /** How many references the code drops when the blocking write of `batch` fails. */
  function ReleaseOnFailure(wake: set<int>, batch: Batch, quantum: nat): nat {
    if batch.wakeUps == 0 then 0
    else if |batch.events| > quantum then CountWakeUps(wake, batch.events[..quantum])
    else batch.wakeUps
  }

  // ----- the steps

  ghost predicate Enabled(s: State, step: Step) {
    match step
    case PostEnter(_) => s.poster == Outside
    case PostLeave => s.poster != Outside
    case DrainBegin => s.poster == Outside && s.drainer == Waiting && s.running && s.pending != []
    case DrainWrite(ok) => s.drainer.Busy? && !s.drainer.wrote && (ok ==> s.drainer.numToWrite <= Space(s))
    case DrainFinish => s.poster == Outside && s.drainer.Busy? && s.drainer.wrote
    case FrameworkRead(n) => n <= |s.fmq|
    case Stop => true
    case Initialize(_) => s.poster == Outside && s.drainer == Waiting && !s.running
  }

  function AfterPostEnter(s: State, events: seq<Event>): State {
    var n := if s.pending == [] then Min(|events|, Space(s)) else 0;
    s.(poster := Inside(events, CountWakeUps(s.wakeHandles, events), n))
  }

  /** The all-or-nothing write of the first n events, the push of what is left, or its loss. */
  function AfterPostLeave(s: State): State
    requires s.poster.Inside?
  {
    var events := s.poster.events;
    var n := if s.poster.numToWrite <= Space(s) then Min(s.poster.numToWrite, |events|) else 0;
    var left := events[n..];
    var queued := n < |events| && s.sizePending + |left| <= MAX_PENDING;
    var size := if queued then s.sizePending + |left| else s.sizePending;
    s.(fmq := s.fmq + events[..n],
       pending := if queued then s.pending + [Batch(left, s.poster.wakeUps)] else s.pending,
       sizePending := size,
       poster := Outside,
       posted := s.posted + events,
       fmqHistory := s.fmqHistory + events[..n],
       log := s.log + Tag(events[..n], Written) + Tag(left, if queued then Pending else Dropped),
       gone := if queued then s.gone + [CountWakeUps(s.wakeHandles, events[..n])] else s.gone)
  }

  function AfterDrainBegin(s: State): State {
    s.(drainer := Busy(Head(s), Min(|Head(s).events|, s.quantum), s.quantum, false))
  }

  function AfterDrainWrite(s: State, ok: bool): State
    requires s.drainer.Busy?
  {
    var n := Min(s.drainer.numToWrite, |Head(s).events|);
    var chunk := Head(s).events[..n];
    var done := s.drainer.(wrote := true);
    if ok then
      s.(fmq := s.fmq + chunk, fmqHistory := s.fmqHistory + chunk,
         log := Resolve(s.log, n, Written), drainer := done)
    else
      s.(log := Resolve(s.log, n, Dropped), drainer := done,
         released := s.released + ReleaseOnFailure(s.wakeHandles, Head(s), s.drainer.quantum))
  }

  function AfterDrainFinish(s: State): State
    requires s.drainer.Busy?
  {
    var rest :=
      if s.pending == [] then []
      else if |Head(s).events| > s.drainer.quantum then
        [Batch(Head(s).events[s.drainer.quantum..], Head(s).wakeUps)] + s.pending[1..]
      else s.pending[1..];
    s.(pending := rest, sizePending := s.sizePending - s.drainer.numToWrite, drainer := Waiting,
       gone := GoneAfterFinish(s))
  }

  function GoneAfterFinish(s: State): seq<nat>
    requires s.drainer.Busy?
  {
    if s.pending == [] || s.gone == [] then []
    else if |Head(s).events| > s.drainer.quantum then
      [s.gone[0] + CountWakeUps(s.wakeHandles, Head(s).events[..s.drainer.quantum])] + s.gone[1..]
    else s.gone[1..]
  }

  function AfterInitialize(s: State, quantum: nat): State {
    s.(running := true, quantum := quantum, fmq := [], pending := [], sizePending := 0,
       posted := [], fmqHistory := [], log := [], released := 0, gone := [])
  }

  ghost function Apply(s: State, step: Step): State
    requires Enabled(s, step)
  {
    match step
    case PostEnter(events) => AfterPostEnter(s, events)
    case PostLeave => AfterPostLeave(s)
    case DrainBegin => AfterDrainBegin(s)
    case DrainWrite(ok) => AfterDrainWrite(s, ok)
    case DrainFinish => AfterDrainFinish(s)
    case FrameworkRead(n) => s.(fmq := s.fmq[n..])
    case Stop => s.(running := false, fmq := [])
    case Initialize(quantum) => AfterInitialize(s, quantum)
  }

  /** A new proxy: mThreadsRun starts as true, though no thread has been started and there is no FMQ. */
  function Created(wake: set<int>): State {
    State(wake, true, 0, [], [], 0, Outside, Waiting, [], [], [], 0, [])
  }

  /** A run: every step is enabled in the state the previous ones lead to. */
  ghost predicate IsRun(s: State, steps: seq<Step>)
    decreases |steps|
  {
    steps == [] || (Enabled(s, steps[0]) && IsRun(Apply(s, steps[0]), steps[1..]))
  }

  ghost function Run(s: State, steps: seq<Step>): State
    requires IsRun(s, steps)
    decreases |steps|
  {
    if steps == [] then s else Run(Apply(s, steps[0]), steps[1..])
  }

  // ----- the invariant

  /** Events at the front of the queue whose fate is settled but which DrainFinish has yet to remove. */
  function InFlight(s: State): nat {
    if s.drainer.Busy? && s.drainer.wrote then s.drainer.numToWrite else 0
  }

  ghost predicate QueueInv(s: State) {
    && (forall i :: 0 <= i < |s.pending| ==> s.pending[i].events != [])
    && s.sizePending == TotalSize(s.pending)
    && s.sizePending <= MAX_PENDING
    && |s.gone| == |s.pending|
    && (forall i :: 0 <= i < |s.pending| ==>
          s.pending[i].wakeUps == CountWakeUps(s.wakeHandles, s.pending[i].events) + s.gone[i])
  }

  /** What keeps the two writers apart: the claimed batch stays at the head. */
  ghost predicate WriterInv(s: State) {
    && |s.fmq| <= s.quantum
    && (s.drainer.Busy? ==>
          && s.pending != []
          && s.pending[0] == s.drainer.claimed
          && s.drainer.quantum == s.quantum
          && s.drainer.numToWrite == Min(|s.drainer.claimed.events|, s.quantum))
    && (s.poster.Inside? ==>
          && s.poster.wakeUps == CountWakeUps(s.wakeHandles, s.poster.events)
          && s.poster.numToWrite <= |s.poster.events|
          && (s.poster.numToWrite > 0 ==> s.pending == [] && s.poster.numToWrite <= Space(s)))
  }

  ghost predicate HistoryInv(s: State) {
    && Events(s.log) == s.posted
    && Project(s.log, Written) == s.fmqHistory
    && Ordered(s.log)
    && InFlight(s) <= |Flatten(s.pending)|
    && Project(s.log, Pending) == Flatten(s.pending)[InFlight(s)..]
    && |s.fmq| <= |s.fmqHistory|
    && s.fmq == s.fmqHistory[|s.fmqHistory| - |s.fmq|..]
  }

  ghost predicate Inv(s: State) {
    QueueInv(s) && WriterInv(s) && HistoryInv(s)
  }

  // ----- facts about the queue functions

  lemma {:induction false} FlattenAppend(a: seq<Batch>, b: Batch)
    ensures Flatten(a + [b]) == Flatten(a) + b.events
    ensures TotalSize(a + [b]) == TotalSize(a) + |b.events|
  {
    if a == [] {
      assert a + [b] == [b];
    } else {
      FlattenAppend(a[1..], b);
      assert (a + [b])[0] == a[0] && (a + [b])[1..] == a[1..] + [b];
    }
  }

  lemma {:induction false} CountWakeUpsAppend(wake: set<int>, a: seq<Event>, b: seq<Event>)
    ensures CountWakeUps(wake, a + b) == CountWakeUps(wake, a) + CountWakeUps(wake, b)
  {
    if a == [] {
      assert a + b == b;
    } else {
      CountWakeUpsAppend(wake, a[1..], b);
      assert (a + b)[0] == a[0] && (a + b)[1..] == a[1..] + b;
    }
  }

  lemma CountOfOne(wake: set<int>, e: Event)
    ensures CountWakeUps(wake, [e]) == if e.sensorHandle in wake then 1 else 0
  {
    assert [e][1..] == [];
  }

  lemma CountWakeUpsSplit(wake: set<int>, events: seq<Event>, n: nat)
    requires n <= |events|
    ensures CountWakeUps(wake, events) == CountWakeUps(wake, events[..n]) + CountWakeUps(wake, events[n..])
  {
    assert events[..n] + events[n..] == events;
    CountWakeUpsAppend(wake, events[..n], events[n..]);
  }

  // ----- every step keeps the invariant

  lemma PostLeaveKeepsQueue(s: State)
    requires Inv(s) && s.poster.Inside?
    ensures QueueInv(AfterPostLeave(s)) && WriterInv(AfterPostLeave(s))
  {
    hide HistoryInv, Tag, CountWakeUps, TotalSize, Flatten;
    var t := AfterPostLeave(s);
    var n := |t.fmq| - |s.fmq|;
    CountWakeUpsSplit(s.wakeHandles, s.poster.events, n);
    if |t.pending| > |s.pending| {
      FlattenAppend(s.pending, t.pending[|s.pending|]);
    }
  }

  /** Appending events of one fate; written events may follow only if nothing is pending. */
  lemma AppendTagged(log: seq<Entry>, events: seq<Event>, fate: Fate)
    requires Ordered(log)
    requires fate == Written ==> events == [] || Project(log, Pending) == []
    ensures Events(log + Tag(events, fate)) == Events(log) + events
    ensures Project(log + Tag(events, fate), Written)
         == if fate == Written then Project(log, Written) + events else Project(log, Written)
    ensures Project(log + Tag(events, fate), Pending)
         == if fate == Pending then Project(log, Pending) + events else Project(log, Pending)
    ensures Ordered(log + Tag(events, fate))
  {
    TagEvents(events, fate);
    EventsAppend(log, Tag(events, fate));
    ProjectAppend(log, Tag(events, fate), Written);
    ProjectAppend(log, Tag(events, fate), Pending);
    OrderedAppend(log, Tag(events, fate));
  }

  /** The log after a post, stated on the parts of the state the post touches. */
  lemma LogAfterPost(log: seq<Entry>, events: seq<Event>, n: nat, fate: Fate)
    requires Ordered(log) && n <= |events| && fate != Written
    requires n == 0 || Project(log, Pending) == []
    ensures var t := log + Tag(events[..n], Written) + Tag(events[n..], fate);
      && Events(t) == Events(log) + events
      && Project(t, Written) == Project(log, Written) + events[..n]
      && Project(t, Pending) == (if fate == Pending then Project(log, Pending) + events[n..] else Project(log, Pending))
      && Ordered(t)
  {
    var mid := log + Tag(events[..n], Written);
    AppendTagged(log, events[..n], Written);
    AppendTaggedTwice(mid, Events(log), events, n, fate);
  }

  lemma AppendTaggedTwice(mid: seq<Entry>, before: seq<Event>, events: seq<Event>, n: nat, fate: Fate)
    requires Ordered(mid) && n <= |events| && fate != Written
    requires Events(mid) == before + events[..n]
    ensures var t := mid + Tag(events[n..], fate);
      && Events(t) == before + events
      && Project(t, Written) == Project(mid, Written)
      && Project(t, Pending) == (if fate == Pending then Project(mid, Pending) + events[n..] else Project(mid, Pending))
      && Ordered(t)
  {
    AppendTagged(mid, events[n..], fate);
    assert before + events[..n] + events[n..] == before + events;
  }

  lemma SuffixGrows(a: seq<Event>, history: seq<Event>, more: seq<Event>)
    requires |a| <= |history| && a == history[|history| - |a|..]
    ensures a + more == (history + more)[|history + more| - |a + more|..]
  {
  }

  /** What the framework has not read stays the tail of what was written. */
  lemma PostLeaveKeepsTail(s: State)
    requires s.poster.Inside? && |s.fmq| <= |s.fmqHistory| && s.fmq == s.fmqHistory[|s.fmqHistory| - |s.fmq|..]
    ensures var t := AfterPostLeave(s);
      |t.fmq| <= |t.fmqHistory| && t.fmq == t.fmqHistory[|t.fmqHistory| - |t.fmq|..]
  {
    hide Tag, CountWakeUps;
    var t := AfterPostLeave(s);
    SuffixGrows(s.fmq, s.fmqHistory, s.poster.events[..|t.fmq| - |s.fmq|]);
  }

  lemma FlattenNothing()
    ensures Flatten([]) == []
  {
  }

  /** What a post leaves goes to the end of the queue, behind what a blocking write is taking from its head. */
  lemma PostLeaveAppends(s: State)
    requires s.poster.Inside? && InFlight(s) <= |Flatten(s.pending)|
    ensures var t := AfterPostLeave(s);
      var left := if |t.pending| > |s.pending| then s.poster.events[|t.fmq| - |s.fmq|..] else [];
      && InFlight(t) == InFlight(s) <= |Flatten(t.pending)|
      && Flatten(t.pending)[InFlight(t)..] == Flatten(s.pending)[InFlight(s)..] + left
  {
    hide Tag, CountWakeUps, Flatten;
    var t := AfterPostLeave(s);
    if |t.pending| > |s.pending| {
      FlattenAppend(s.pending, t.pending[|s.pending|]);
    }
  }

  /** A post writes of its own only while nothing is pending. */
  lemma PostLeaveWrites(s: State)
    requires WriterInv(s) && HistoryInv(s) && s.poster.Inside?
    ensures var n := |AfterPostLeave(s).fmq| - |s.fmq|;
      0 <= n <= |s.poster.events| && (n == 0 || Project(s.log, Pending) == [])
  {
    hide Project, Events, Tag, Ordered, TotalSize, CountWakeUps, Flatten;
    FlattenNothing();
  }

  /** What a post does to the history, by the number of events it wrote. */
  lemma PostLeaveRecords(s: State, n: nat)
    requires s.poster.Inside? && n == |AfterPostLeave(s).fmq| - |s.fmq| && n <= |s.poster.events|
    ensures var t := AfterPostLeave(s);
      var events := s.poster.events;
      var fate := if |t.pending| > |s.pending| then Pending else Dropped;
      && t.posted == s.posted + events
      && t.fmqHistory == s.fmqHistory + events[..n]
      && t.log == s.log + Tag(events[..n], Written) + Tag(events[n..], fate)
  {
    hide Tag, CountWakeUps;
  }

  lemma PostLeaveLog(s: State)
    requires WriterInv(s) && HistoryInv(s) && s.poster.Inside?
    ensures var t := AfterPostLeave(s);
      var n := |t.fmq| - |s.fmq|;
      && Events(t.log) == t.posted
      && Project(t.log, Written) == t.fmqHistory
      && Ordered(t.log)
      && Project(t.log, Pending)
         == if |t.pending| > |s.pending| then Project(s.log, Pending) + s.poster.events[n..] else Project(s.log, Pending)
  {
    hide Project, Events, Tag, Ordered, Flatten, WriterInv, AfterPostLeave;
    var t := AfterPostLeave(s);
    var n := |t.fmq| - |s.fmq|;
    PostLeaveWrites(s);
    PostLeaveRecords(s, n);
    LogAfterPost(s.log, s.poster.events, n, if |t.pending| > |s.pending| then Pending else Dropped);
  }

  lemma PostLeaveKeepsHistory(s: State)
    requires Inv(s) && s.poster.Inside?
    ensures HistoryInv(AfterPostLeave(s))
  {
    hide QueueInv, WriterInv, AfterPostLeave, Project, Events, Ordered, Flatten, InFlight;
    PostLeaveKeepsTail(s);
    PostLeaveAppends(s);
    PostLeaveLog(s);
  }

  lemma DrainWriteKeepsInv(s: State, ok: bool)
    requires Inv(s) && Enabled(s, DrainWrite(ok))
    ensures Inv(AfterDrainWrite(s, ok))
  {
    DrainWriteKeepsQueue(s, ok);
    DrainWriteKeepsHistory(s, ok);
  }

  lemma DrainWriteKeepsQueue(s: State, ok: bool)
    requires Inv(s) && Enabled(s, DrainWrite(ok))
    ensures QueueInv(AfterDrainWrite(s, ok)) && WriterInv(AfterDrainWrite(s, ok))
  {
    hide HistoryInv, Resolve, TotalSize, CountWakeUps;
  }

  lemma FlattenHead(batches: seq<Batch>, n: nat)
    requires batches != [] && n <= |batches[0].events|
    ensures n <= |Flatten(batches)| && Flatten(batches)[..n] == batches[0].events[..n]
    ensures Flatten(batches)[0..] == Flatten(batches)
  {
  }

  /** The log after a blocking write, stated on the parts of the state the write touches. */
  lemma LogAfterWrite(log: seq<Entry>, history: seq<Event>, queued: seq<Event>, n: nat, ok: bool)
    requires Ordered(log) && Project(log, Written) == history && Project(log, Pending) == queued && n <= |queued|
    ensures var t := Resolve(log, n, if ok then Written else Dropped);
      && Events(t) == Events(log)
      && Project(t, Written) == (if ok then history + queued[..n] else history)
      && Project(t, Pending) == queued[n..]
      && Ordered(t)
  {
    hide Project, Events, Resolve, Ordered;
    var f := if ok then Written else Dropped;
    ResolveEvents(log, n, f);
    ResolvePending(log, n, f);
    if ok { ResolveWritten(log, n); } else { ResolveDropped(log, n); }
  }

  lemma DrainWriteKeepsTail(s: State, ok: bool)
    requires s.drainer.Busy? && |s.fmq| <= |s.fmqHistory| && s.fmq == s.fmqHistory[|s.fmqHistory| - |s.fmq|..]
    ensures var t := AfterDrainWrite(s, ok);
      |t.fmq| <= |t.fmqHistory| && t.fmq == t.fmqHistory[|t.fmqHistory| - |t.fmq|..]
  {
    hide Resolve, CountWakeUps, ReleaseOnFailure;
    if ok {
      SuffixGrows(s.fmq, s.fmqHistory, Head(s).events[..Min(s.drainer.numToWrite, |Head(s).events|)]);
    }
  }

  /** What a blocking write does to the history, by the events it takes. */
  lemma DrainWriteRecords(s: State, ok: bool, n: nat)
    requires WriterInv(s) && Enabled(s, DrainWrite(ok)) && n == s.drainer.numToWrite
    ensures n <= |Head(s).events| && s.pending != [] && Head(s) == s.pending[0] && InFlight(s) == 0
    ensures var t := AfterDrainWrite(s, ok);
      && t.posted == s.posted && t.pending == s.pending && InFlight(t) == n
      && t.fmqHistory == (if ok then s.fmqHistory + Head(s).events[..n] else s.fmqHistory)
      && t.log == Resolve(s.log, n, if ok then Written else Dropped)
  {
    hide Resolve, CountWakeUps, ReleaseOnFailure;
  }

  lemma DrainWriteLog(s: State, ok: bool)
    requires WriterInv(s) && Enabled(s, DrainWrite(ok)) && Ordered(s.log)
    requires Project(s.log, Written) == s.fmqHistory && Project(s.log, Pending) == Flatten(s.pending)
    ensures var t := AfterDrainWrite(s, ok);
      && Events(t.log) == Events(s.log) && t.posted == s.posted
      && Project(t.log, Written) == t.fmqHistory
      && Ordered(t.log)
      && InFlight(t) <= |Flatten(t.pending)|
      && Project(t.log, Pending) == Flatten(t.pending)[InFlight(t)..]
  {
    var n := s.drainer.numToWrite;
    hide Project, Events, Resolve, Ordered, Flatten, AfterDrainWrite, Enabled, WriterInv, InFlight, Head;
    DrainWriteRecords(s, ok, n);
    FlattenHead(s.pending, n);
    LogAfterWrite(s.log, s.fmqHistory, Flatten(s.pending), n, ok);
  }

  lemma DrainWriteKeepsHistory(s: State, ok: bool)
    requires WriterInv(s) && HistoryInv(s) && Enabled(s, DrainWrite(ok))
    ensures HistoryInv(AfterDrainWrite(s, ok))
  {
    hide Project, Events, Ordered, Flatten, AfterDrainWrite, WriterInv;
    assert Flatten(s.pending)[0..] == Flatten(s.pending);
    DrainWriteKeepsTail(s, ok);
    DrainWriteLog(s, ok);
  }

  lemma DrainFinishKeepsQueue(s: State)
    requires Inv(s) && Enabled(s, DrainFinish)
    ensures QueueInv(AfterDrainFinish(s)) && WriterInv(AfterDrainFinish(s))
  {
    hide HistoryInv, CountWakeUps, Flatten;
    var t := AfterDrainFinish(s);
    if |Head(s).events| > s.quantum {
      CountWakeUpsSplit(s.wakeHandles, Head(s).events, s.quantum);
      assert t.pending[1..] == s.pending[1..];
    }
  }

  /** Erasing from the head, or popping it, takes exactly the events whose fate the blocking write settled. */
  lemma DrainFinishTakes(s: State)
    requires Inv(s) && Enabled(s, DrainFinish)
    ensures s.drainer.numToWrite <= |Flatten(s.pending)|
    ensures Flatten(AfterDrainFinish(s).pending) == Flatten(s.pending)[s.drainer.numToWrite..]
  {
    hide HistoryInv, CountWakeUps, TotalSize;
    var t := AfterDrainFinish(s);
    var head := Head(s);
    if |head.events| > s.quantum {
      assert t.pending[1..] == s.pending[1..];
      assert Flatten(t.pending) == head.events[s.quantum..] + Flatten(s.pending[1..]);
    }
  }

  lemma DrainFinishKeepsInv(s: State)
    requires Inv(s) && Enabled(s, DrainFinish)
    ensures Inv(AfterDrainFinish(s))
  {
    DrainFinishKeepsQueue(s);
    DrainFinishTakes(s);
    hide QueueInv, WriterInv, Project, Events, Ordered, Flatten, GoneAfterFinish;
    var t := AfterDrainFinish(s);
    assert Flatten(t.pending)[0..] == Flatten(t.pending);
  }

  lemma FrameworkReadKeepsInv(s: State, n: nat)
    requires Inv(s) && Enabled(s, FrameworkRead(n))
    ensures Inv(Apply(s, FrameworkRead(n)))
  {
    hide TotalSize, CountWakeUps, Project, Events, Ordered, Flatten;
  }

  lemma InitializeKeepsInv(s: State, quantum: nat)
    requires Inv(s) && Enabled(s, Initialize(quantum))
    ensures Inv(Apply(s, Initialize(quantum)))
  {
    FlattenNothing();
    hide Flatten, CountWakeUps;
  }

  lemma StepKeepsInv(s: State, step: Step)
    requires Inv(s) && Enabled(s, step)
    ensures Inv(Apply(s, step))
  {
    hide TotalSize, CountWakeUps, Project, Events, Ordered, Flatten, AfterPostLeave, AfterDrainWrite, AfterDrainFinish;
    match step
    case PostEnter(_) =>
    case PostLeave => PostLeaveKeepsQueue(s); PostLeaveKeepsHistory(s);
    case DrainBegin =>
    case DrainWrite(ok) => DrainWriteKeepsInv(s, ok);
    case DrainFinish => DrainFinishKeepsInv(s);
    case FrameworkRead(n) => FrameworkReadKeepsInv(s, n);
    case Stop =>
    case Initialize(quantum) => InitializeKeepsInv(s, quantum);
  }

  lemma {:induction false} RunKeepsInv(s: State, steps: seq<Step>)
    requires Inv(s) && IsRun(s, steps)
    ensures Inv(Run(s, steps))
    decreases |steps|
  {
    if steps != [] {
      StepKeepsInv(s, steps[0]);
      RunKeepsInv(Apply(s, steps[0]), steps[1..]);
    }
  }
}
