/** What every interleaving of posters, drain thread, framework, stop and initialize guarantees. */
module EventPipelineTheorems {
  import opened Basics
  import opened EventLog
  import opened EventPipeline
  import opened Modular

  lemma ReachableInv(wake: set<int>, steps: seq<Step>)
    requires IsRun(Created(wake), steps)
    ensures Inv(Run(Created(wake), steps))
  {
    CreatedInv(wake);
    RunKeepsInv(Created(wake), steps);
  }

  lemma CreatedInv(wake: set<int>)
    ensures Inv(Created(wake))
  {
    assert Flatten([]) == [];
  }

  lemma StopInitializeKeepsInv(s: State, quantum: nat)
    requires Inv(s) && s.poster == Outside && s.drainer == Waiting
    ensures Inv(s.(running := false, fmq := []))
    ensures Inv(AfterInitialize(s, quantum))
  {
    StepKeepsInv(s, Stop);
    StepKeepsInv(Apply(s, Stop), Initialize(quantum));
  }

  /** A whole post without interleaving, as postEventsToMessageQueue runs when no other step intervenes. */
  lemma PostKeepsInv(s: State, events: seq<Event>)
    requires Inv(s) && s.poster == Outside
    ensures Inv(AfterPostLeave(AfterPostEnter(s, events)))
  {
    StepKeepsInv(s, PostEnter(events));
    StepKeepsInv(AfterPostEnter(s, events), PostLeave);
  }

  /** A post writes exactly what fits when nothing is pending, and nothing past events that are; what is left goes to
      the end of the queue with the count of the whole post, or is lost if the queue has no room. */
  lemma PostWritesWhatFits(s: State, events: seq<Event>)
    requires Inv(s) && s.poster == Outside
    ensures var t := AfterPostLeave(AfterPostEnter(s, events));
      var n := if s.pending == [] then Min(|events|, s.quantum - |s.fmq|) else 0;
      && 0 <= n <= |events|
      && t.fmq == s.fmq + events[..n]
      && (s.pending == [] && t.pending != [] ==> |t.fmq| == s.quantum)
      && t.pending == (if n < |events| && s.sizePending + |events| - n <= MAX_PENDING
                       then s.pending + [Batch(events[n..], CountWakeUps(s.wakeHandles, events))] else s.pending)
      && t.sizePending == s.sizePending + (if |t.pending| > |s.pending| then |events| - n else 0)
  {
    hide HistoryInv, Tag, Flatten, TotalSize, CountWakeUps;
  }

  /** The same with anything running between the choice and the write: the write that a post chose is never refused. */
  lemma {:induction false} PostWritesWhatItChose(s: State, events: seq<Event>, steps: seq<Step>)
    requires Inv(s) && s.poster == Outside && IsRun(AfterPostEnter(s, events), steps) && PostLeave !in steps
    ensures var n := if s.pending == [] then Min(|events|, s.quantum - |s.fmq|) else 0;
      var u := Run(AfterPostEnter(s, events), steps);
      && 0 <= n <= |events|
      && u.poster == Inside(events, CountWakeUps(s.wakeHandles, events), n)
      && AfterPostLeave(u).fmq == u.fmq + events[..n]
  {
    hide HistoryInv, Tag, Flatten, TotalSize, CountWakeUps;
    StepKeepsInv(s, PostEnter(events));
    RunKeepsInv(AfterPostEnter(s, events), steps);
    PosterWaits(AfterPostEnter(s, events), steps);
  }

  lemma {:induction false} PosterWaits(s: State, steps: seq<Step>)
    requires IsRun(s, steps) && s.poster.Inside? && PostLeave !in steps
    ensures Run(s, steps).poster == s.poster
    decreases |steps|
  {
    hide CountWakeUps;
    if steps != [] {
      assert steps[0] != PostLeave;
      PosterWaits(Apply(s, steps[0]), steps[1..]);
    }
  }

  /** A whole drain round during which the framework reads `freed` events. */
  function DrainRound(s: State, freed: nat, ok: bool): State
    requires freed <= |s.fmq|
  {
    AfterDrainFinish(AfterDrainWrite(AfterDrainBegin(s).(fmq := s.fmq[freed..]), ok))
  }

  /** What a whole round does to the two queues: the framework's read and the chunk leave, and the chunk is either
      written or lost. */
  lemma DrainRoundEffect(s: State, freed: nat, ok: bool)
    requires Inv(s) && Enabled(s, DrainBegin) && freed <= |s.fmq|
    requires ok ==> Min(|s.pending[0].events|, s.quantum) + |s.fmq| - freed <= s.quantum
    ensures var t := DrainRound(s, freed, ok);
      var n := Min(|s.pending[0].events|, s.quantum);
      && n <= |Flatten(s.pending)|
      && t.fmq == s.fmq[freed..] + (if ok then Flatten(s.pending)[..n] else [])
      && Flatten(t.pending) == Flatten(s.pending)[n..]
      && t.sizePending == s.sizePending - n
  {
    hide HistoryInv, Resolve, TotalSize, CountWakeUps, Flatten, ReleaseOnFailure, GoneAfterFinish;
    var read := AfterDrainBegin(s).(fmq := s.fmq[freed..]);
    StepKeepsInv(s, DrainBegin);
    StepKeepsInv(AfterDrainBegin(s), FrameworkRead(freed));
    StepKeepsInv(read, DrainWrite(ok));
    FlattenHead(s.pending, Min(|s.pending[0].events|, s.quantum));
    DrainFinishTakes(AfterDrainWrite(read, ok));
  }

  lemma DrainRoundKeepsInv(s: State, freed: nat, ok: bool)
    requires Inv(s) && Enabled(s, DrainBegin) && freed <= |s.fmq|
    requires ok ==> Min(|s.pending[0].events|, s.quantum) + |s.fmq| - freed <= s.quantum
    ensures Inv(DrainRound(s, freed, ok))
    ensures DrainRound(s, freed, ok).quantum == s.quantum && DrainRound(s, freed, ok).running
    ensures s.quantum > 0 ==>
      DrainRounds(DrainRound(s, freed, ok).pending, s.quantum) + 1 == DrainRounds(s.pending, s.quantum)
  {
    var claimed := AfterDrainBegin(s);
    StepKeepsInv(s, DrainBegin);
    var read := claimed.(fmq := s.fmq[freed..]);
    StepKeepsInv(claimed, FrameworkRead(freed));
    StepKeepsInv(read, DrainWrite(ok));
    StepKeepsInv(AfterDrainWrite(read, ok), DrainFinish);
    if s.quantum > 0 {
      DrainFinishTakesOneRound(AfterDrainWrite(read, ok));
    }
  }

  /** Every posted event is exactly one of written, pending or dropped; what reached the FMQ is an
      order-preserving subsequence of what was posted; what the framework has not read is its tail. */
  lemma EveryEventAccountedFor(wake: set<int>, steps: seq<Step>)
    requires IsRun(Created(wake), steps)
    ensures var s := Run(Created(wake), steps);
      && InFlight(s) <= |Flatten(s.pending)|
      && multiset(s.posted) == multiset(s.fmqHistory) + multiset(Flatten(s.pending)[InFlight(s)..])
                               + multiset(Project(s.log, Dropped))
      && IsSubsequence(s.fmqHistory, s.posted)
      && IsSubsequence(Flatten(s.pending)[InFlight(s)..], s.posted)
      && |s.fmq| <= |s.fmqHistory|
      && s.fmq == s.fmqHistory[|s.fmqHistory| - |s.fmq|..]
  {
    hide Project, Events, QueueInv, WriterInv, Flatten, IsRun, Run, IsSubsequence, Ordered;
    var s := Run(Created(wake), steps);
    ReachableInv(wake, steps);
    FatesPartition(s.log);
    ProjectIsSubsequence(s.log, Written);
    ProjectIsSubsequence(s.log, Pending);
  }

  /** The only steps that lose events: a blocking write that fails and a post the queue has no room for. */
  ghost predicate Loses(s: State, step: Step) {
    || step == DrainWrite(false)
    || (step == PostLeave && s.poster.Inside? && s.poster.numToWrite < |s.poster.events|
        && s.sizePending + |s.poster.events| - s.poster.numToWrite > MAX_PENDING)
  }

  ghost predicate LosslessRun(s: State, steps: seq<Step>)
    requires IsRun(s, steps)
    decreases |steps|
  {
    steps == [] || (!Loses(s, steps[0]) && LosslessRun(Apply(s, steps[0]), steps[1..]))
  }

  lemma {:induction false} ResolveWrittenDropsNothing(log: seq<Entry>, n: nat)
    ensures Project(Resolve(log, n, Written), Dropped) == Project(log, Dropped)
  {
    if log != [] && n != 0 {
      ResolveWrittenDropsNothing(log[1..], if log[0].fate == Pending then n - 1 else n);
    }
  }

  lemma AppendedDropped(log: seq<Entry>, events: seq<Event>, n: nat, fate: Fate)
    requires n <= |events| && (fate == Dropped ==> n == |events|)
    ensures Project(log + Tag(events[..n], Written) + Tag(events[n..], fate), Dropped) == Project(log, Dropped)
  {
    hide Project, Tag;
    TagEvents(events[..n], Written);
    TagEvents(events[n..], fate);
    ProjectAppend(log, Tag(events[..n], Written), Dropped);
    ProjectAppend(log + Tag(events[..n], Written), Tag(events[n..], fate), Dropped);
  }

  lemma LosslessStep(s: State, step: Step)
    requires Inv(s) && Enabled(s, step) && !Loses(s, step) && Project(s.log, Dropped) == []
    ensures Project(Apply(s, step).log, Dropped) == []
  {
    hide Project, Tag, Resolve, HistoryInv, CountWakeUps, TotalSize;
    match step
    case PostLeave =>
      var n := s.poster.numToWrite;
      AppendedDropped(s.log, s.poster.events, n, if n < |s.poster.events| then Pending else Dropped);
    case DrainWrite(ok) => ResolveWrittenDropsNothing(s.log, s.drainer.numToWrite);
    case Initialize(_) => NothingIsDropped();
    case _ =>
  }

  lemma NothingIsDropped()
    ensures Project([], Dropped) == []
  {
  }

  lemma {:induction false} LosslessRunDropsNothing(s: State, steps: seq<Step>)
    requires Inv(s) && IsRun(s, steps) && LosslessRun(s, steps) && Project(s.log, Dropped) == []
    ensures Project(Run(s, steps).log, Dropped) == []
    decreases |steps|
  {
    if steps != [] {
      LosslessStep(s, steps[0]);
      StepKeepsInv(s, steps[0]);
      LosslessRunDropsNothing(Apply(s, steps[0]), steps[1..]);
    }
  }

  /** With no overflow and no failed blocking write the pipeline is an exact FIFO. */
  lemma LosslessRunIsFifo(wake: set<int>, steps: seq<Step>)
    requires IsRun(Created(wake), steps) && LosslessRun(Created(wake), steps)
    ensures var s := Run(Created(wake), steps);
      && InFlight(s) <= |Flatten(s.pending)|
      && s.posted == s.fmqHistory + Flatten(s.pending)[InFlight(s)..]
  {
    ReachableInv(wake, steps);
    LosslessRunDropsNothing(Created(wake), steps);
    NothingDropped(Run(Created(wake), steps).log);
  }

  ghost predicate PosterWriting(s: State) { s.poster.Inside? && s.poster.numToWrite > 0 }

  ghost predicate DrainerWriting(s: State) { s.drainer.Busy? && !s.drainer.wrote }

  /** The mutex does not cover the blocking write, yet the FMQ never has two writers, the batch
      being written is still the head of the queue, and a post's own write is never refused. */
  lemma OneWriterAtATime(wake: set<int>, steps: seq<Step>)
    requires IsRun(Created(wake), steps)
    ensures var s := Run(Created(wake), steps);
      && !(PosterWriting(s) && DrainerWriting(s))
      && (s.drainer.Busy? ==> s.pending != [] && s.pending[0] == s.drainer.claimed && s.drainer.numToWrite <= s.quantum)
      && (s.poster.Inside? ==> s.poster.numToWrite <= Space(s))
  {
    ReachableInv(wake, steps);
  }

  /** From DrainBegin to the matching DrainFinish, whatever else runs only appends to the queue. */
  lemma {:induction false} BusyQueueOnlyGrows(s: State, steps: seq<Step>)
    requires Inv(s) && s.drainer.Busy? && IsRun(s, steps) && DrainFinish !in steps
    ensures s.pending <= Run(s, steps).pending
    ensures Run(s, steps).drainer.Busy? && Run(s, steps).drainer.claimed == s.drainer.claimed
    decreases |steps|
  {
    if steps != [] {
      var t := Apply(s, steps[0]);
      StepKeepsInv(s, steps[0]);
      assert t.drainer.Busy? && s.pending <= t.pending;
      BusyQueueOnlyGrows(t, steps[1..]);
    }
  }

  /** mSizePendingWriteEventsQueue is the number of pending events, never negative, never over the bound. */
  lemma QueueSizeExact(wake: set<int>, steps: seq<Step>)
    requires IsRun(Created(wake), steps)
    ensures var s := Run(Created(wake), steps);
      && 0 <= s.sizePending == |Flatten(s.pending)| <= MAX_PENDING
      && (forall i :: 0 <= i < |s.pending| ==> s.pending[i].events != [])
      && (s.drainer.Busy? ==> s.drainer.numToWrite <= s.sizePending)
  {
    ReachableInv(wake, steps);
    var s := Run(Created(wake), steps);
    FlattenLength(s.pending);
  }

  lemma {:induction false} FlattenLength(batches: seq<Batch>)
    ensures |Flatten(batches)| == TotalSize(batches)
  {
    if batches != [] { FlattenLength(batches[1..]); }
  }

  // ----- how many rounds a backlog takes

  function CeilDiv(n: nat, q: nat): nat
    requires q > 0
  {
    (n + q - 1) / q
  }

  /** Blocking writes needed for a backlog: each batch goes in chunks of at most the FMQ size. */
  function DrainRounds(batches: seq<Batch>, q: nat): nat
    requires q > 0
  {
    if batches == [] then 0 else CeilDiv(|batches[0].events|, q) + DrainRounds(batches[1..], q)
  }

  lemma CeilDivStep(n: nat, q: nat)
    requires q > 0 && n > 0
    ensures n <= q ==> CeilDiv(n, q) == 1
    ensures n > q ==> CeilDiv(n, q) == 1 + CeilDiv(n - q, q)
  {
    if n <= q {
      assert n + q - 1 == 1 * q + (n - 1);
      QuotientIs(n + q - 1, q, 1, n - 1);
    } else {
      var k := (n - 1) / q;
      DivMod(n - 1, q);
      QuotientIs(n + q - 1, q, k + 1, (n - 1) % q);
      QuotientIs(n - 1, q, k, (n - 1) % q);
    }
  }

  /** Each claim-write-finish of the drain thread, ok or failed and however interleaved with posts,
      takes exactly one round off the backlog. */
  lemma DrainFinishTakesOneRound(s: State)
    requires Inv(s) && Enabled(s, DrainFinish) && s.quantum > 0
    ensures DrainRounds(AfterDrainFinish(s).pending, s.quantum) + 1 == DrainRounds(s.pending, s.quantum)
  {
    var t := AfterDrainFinish(s);
    CeilDivStep(|Head(s).events|, s.quantum);
    if |Head(s).events| > s.quantum {
      assert t.pending[1..] == s.pending[1..];
    }
  }

  // ----- wake-up references released by a failed write

  /** What a failure of the write under way would give back beyond the events it drops. */
  function Excess(s: State): nat {
    if |Head(s).events| > s.quantum || s.gone == [] then 0 else s.gone[0]
  }

  /** What the wake-up count of a pending batch stands for: its own wake-up events, and those of its
      post that went before them. */
  lemma BatchKeepsItsPostsCount(wake: set<int>, steps: seq<Step>, i: nat)
    requires IsRun(Created(wake), steps) && i < |Run(Created(wake), steps).pending|
    ensures var s := Run(Created(wake), steps);
      |s.gone| == |s.pending| && s.pending[i].wakeUps == CountWakeUps(s.wakeHandles, s.pending[i].events) + s.gone[i]
  {
    ReachableInv(wake, steps);
  }

  ghost function WakeUpIndices(wake: set<int>, events: seq<Event>): set<int> {
    set i | 0 <= i < |events| && events[i].sensorHandle in wake
  }

  /** The recursive count is the number of positions that hold a wake-up event. */
  lemma {:induction false} CountIsHowMany(wake: set<int>, events: seq<Event>)
    ensures CountWakeUps(wake, events) == |WakeUpIndices(wake, events)|
    decreases |events|
  {
    if events != [] {
      hide CountWakeUps;
      var n := |events| - 1;
      CountIsHowMany(wake, events[..n]);
      CountWakeUpsSplit(wake, events, n);
      CountOfOne(wake, events[n]);
      assert events[n..] == [events[n]];
      OneMoreIndex(wake, events, n);
    }
  }

  lemma OneMoreIndex(wake: set<int>, events: seq<Event>, n: nat)
    requires |events| == n + 1
    ensures |WakeUpIndices(wake, events)|
         == |WakeUpIndices(wake, events[..n])| + if events[n].sensorHandle in wake then 1 else 0
  {
    var last := if events[n].sensorHandle in wake then {n} else {};
    assert WakeUpIndices(wake, events) == WakeUpIndices(wake, events[..n]) + last;
  }

  /** A failed blocking write gives back too much if and only if the batch fits the FMQ and wake-up events
      of its post left it earlier, and then too much by exactly their number. */
  lemma FailedWriteReleaseExact(s: State)
    requires Inv(s) && Enabled(s, DrainWrite(false))
    ensures s.gone != []
    ensures var dropped := CountWakeUps(s.wakeHandles, Head(s).events[..s.drainer.numToWrite]);
            var given := AfterDrainWrite(s, false).released - s.released;
      && given == dropped + Excess(s)
      && (given > dropped <==> |Head(s).events| <= s.quantum && s.gone[0] > 0)
  {
    var b := Head(s);
    CountWakeUpsSplit(s.wakeHandles, b.events, s.drainer.numToWrite);
    if |b.events| <= s.quantum {
      assert b.events[..|b.events|] == b.events;
    }
  }

  /** A reachable failure that gives back more than it drops: a two-event wake-up post of which the
      one-slot FMQ took the first event at once keeps its full count of two on the queue. */
  function OverReleaseRun(): seq<Step> {
    [Stop] + ([Initialize(1)] + ([PostEnter([Event(7, 0), Event(7, 1)])] + ([PostLeave] + ([DrainBegin] + [DrainWrite(false)]))))
  }

  /** The state after the first four steps: one event written, one pending with the count of both. */
  function HalfWritten(): State {
    State({7}, true, 1, [Event(7, 0)], [Batch([Event(7, 1)], 2)], 1, Outside, Waiting,
          [Event(7, 0), Event(7, 1)], [Event(7, 0)], [Entry(Event(7, 0), Written), Entry(Event(7, 1), Pending)], 0, [1])
  }

  lemma HalfWrittenPost(s: State)
    requires s == AfterInitialize(Created({7}), 1).(poster := Inside([Event(7, 0), Event(7, 1)], 2, 1))
    ensures AfterPostLeave(s) == HalfWritten()
  {
    var events := [Event(7, 0), Event(7, 1)];
    assert events[..1] == [Event(7, 0)] && events[1..] == [Event(7, 1)];
  }

  lemma HalfWrittenReached(rest: seq<Step>)
    requires IsRun(HalfWritten(), rest)
    ensures var steps := [Stop] + ([Initialize(1)] + ([PostEnter([Event(7, 0), Event(7, 1)])] + ([PostLeave] + rest)));
      IsRun(Created({7}), steps) && Run(Created({7}), steps) == Run(HalfWritten(), rest)
  {
    hide IsRun, Run, AfterPostLeave;
    var events := [Event(7, 0), Event(7, 1)];
    var s0 := Apply(Created({7}), Stop);
    var s1 := Apply(s0, Initialize(1));
    var s2 := Apply(s1, PostEnter(events));
    assert s2.poster == Inside(events, 2, 1);
    HalfWrittenPost(s2);
    ConsRun(s2, PostLeave, rest);
    ConsRun(s1, PostEnter(events), [PostLeave] + rest);
    ConsRun(s0, Initialize(1), [PostEnter(events)] + ([PostLeave] + rest));
    ConsRun(Created({7}), Stop, [Initialize(1)] + ([PostEnter(events)] + ([PostLeave] + rest)));
  }

  lemma HalfWrittenFails()
    ensures IsRun(HalfWritten(), [DrainBegin] + [DrainWrite(false)])
    ensures var s := Run(HalfWritten(), [DrainBegin] + [DrainWrite(false)]);
      && s.released == 2 && s.fmqHistory == [Event(7, 0)]
      && Project(s.log, Dropped) == [Event(7, 1)]
  {
    var s3 := HalfWritten();
    var s4 := Apply(s3, DrainBegin);
    var s5 := Apply(s4, DrainWrite(false));
    assert Resolve(s3.log[1..], 1, Dropped) == [Entry(Event(7, 1), Dropped)];
    assert s5.log == [Entry(Event(7, 0), Written), Entry(Event(7, 1), Dropped)];
    assert Project(s5.log[1..], Dropped) == [Event(7, 1)];
    ConsRun(s4, DrainWrite(false), []);
    ConsRun(s3, DrainBegin, [DrainWrite(false)]);
  }

  lemma PartlyWrittenBatchOverReleases()
    ensures IsRun(Created({7}), OverReleaseRun())
    ensures var s := Run(Created({7}), OverReleaseRun());
      && s.released == 2
      && Project(s.log, Dropped) == [Event(7, 1)]
      && s.fmqHistory == [Event(7, 0)]
  {
    hide IsRun, Run;
    HalfWrittenFails();
    HalfWrittenReached([DrainBegin] + [DrainWrite(false)]);
  }

  lemma ConsRun(s: State, step: Step, rest: seq<Step>)
    requires Enabled(s, step) && IsRun(Apply(s, step), rest)
    ensures IsRun(s, [step] + rest)
    ensures Run(s, [step] + rest) == Run(Apply(s, step), rest)
  {
    assert ([step] + rest)[1..] == rest;
  }
}
