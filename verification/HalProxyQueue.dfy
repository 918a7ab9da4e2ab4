/** The event queue fields of HalProxy and the critical sections that update them, as a class.
    Each method is tied to the steps of EventPipeline, whose runs cover the interleavings. */
module HalProxyQueue {
  import opened Basics
  import opened EventLog
  import opened EventPipeline
  import opened EventPipelineTheorems

  datatype History = History(posted: seq<Event>, written: seq<Event>, log: seq<Entry>, released: nat, gone: seq<nat>)

  class EventQueues {
    const wakeHandles: set<int>
    var running: bool
    var quantum: nat
    var fmq: seq<Event>
    var pending: seq<Batch>
    var sizePending: nat
    ghost var history: History
    // where the drain thread is: the locals it holds between its critical sections
    ghost var drainer: Drainer

    /** The state of the transition system while no poster is inside its critical section. */
    ghost function Abs(): State
      reads this
    {
      State(wakeHandles, running, quantum, fmq, pending, sizePending, Outside, drainer,
            history.posted, history.written, history.log, history.released, history.gone)
    }

    ghost predicate Valid()
      reads this
    {
      Inv(Abs())
    }

    constructor (wakeHandles: set<int>)
      ensures Valid() && Abs() == Created(wakeHandles)
    {
      this.wakeHandles := wakeHandles;
      running, quantum, fmq, pending, sizePending := true, 0, [], [], 0;
      history, drainer := History([], [], [], 0, []), Waiting;
      new;
      CreatedInv(wakeHandles);
    }

    method CountNumWakeUpEvents(events: seq<Event>, n: nat) returns (count: nat)
      requires n <= |events|
      ensures count == CountWakeUps(wakeHandles, events[..n])
    {
      count := 0;
      for i := 0 to n
        invariant count == CountWakeUps(wakeHandles, events[..i])
      {
        assert events[..i + 1] == events[..i] + [events[i]];
        CountWakeUpsAppend(wakeHandles, events[..i], [events[i]]);
        if events[i].sensorHandle in wakeHandles {
          count := count + 1;
        }
      }
    }

    /** The FMQ write: all of the events or none of them. */
    method WriteFmq(events: seq<Event>) returns (ok: bool)
      modifies this`fmq
      ensures ok == (|events| <= Space(old(Abs())))
      ensures |old(fmq)| <= quantum ==> (ok <==> |old(fmq)| + |events| <= quantum)
      ensures fmq == old(fmq) + if ok then events else []
    {
      var availableToWrite := if |fmq| <= quantum then quantum - |fmq| else 0;
      ok := |events| <= availableToWrite;
      if ok {
        fmq := fmq + events;
      }
    }

    /** A post, at any time the drain thread does not hold the mutex: also during its blocking write. */
    method PostEventsToMessageQueue(events: seq<Event>, numWakeUpEvents: nat)
      requires Valid()
      requires numWakeUpEvents == CountWakeUps(wakeHandles, events)
      modifies this
      ensures Valid() && drainer == old(drainer) && running == old(running) && quantum == old(quantum)
      ensures Abs() == AfterPostLeave(AfterPostEnter(old(Abs()), events))
      // with nothing pending as much as fits is written, and something is left pending only if the FMQ is full
      ensures old(pending) == [] ==> fmq == old(fmq) + events[..Min(|events|, quantum - |old(fmq)|)]
      ensures old(pending) == [] && pending != [] ==> |fmq| == quantum
      ensures old(pending) != [] ==> fmq == old(fmq)
      // what is left goes to the end of the queue, with the count of the whole post, if there is room for it
      ensures var left := |events| - (|fmq| - |old(fmq)|);
        && 0 <= left <= |events|
        && pending == (if left > 0 && old(sizePending) + left <= MAX_PENDING
                       then old(pending) + [Batch(events[|events| - left..], numWakeUpEvents)] else old(pending))
        && sizePending == old(sizePending) + (if |pending| > |old(pending)| then left else 0)
      ensures history.posted == old(history.posted) + events
    {
      hide CountWakeUps, QueueInv, HistoryInv, Tag;
      PostWritesWhatFits(Abs(), events);
      PostKeepsInv(Abs(), events);
      PostLocked(events, numWakeUpEvents);
    }

    /** The body of postEventsToMessageQueue, which runs under mEventQueueWriteMutex. */
    method PostLocked(events: seq<Event>, numWakeUpEvents: nat)
      requires |fmq| <= quantum
      requires numWakeUpEvents == CountWakeUps(wakeHandles, events)
      modifies this
      ensures Abs() == AfterPostLeave(AfterPostEnter(old(Abs()), events))
    {
      hide Tag, Flatten, TotalSize, CountWakeUps;
      var numToWrite := 0;
      if pending == [] {
        numToWrite := Min(|events|, quantum - |fmq|);
        if numToWrite > 0 {
          var ok := WriteFmq(events[..numToWrite]);
          if !ok {
            numToWrite := 0;
          }
        }
      }
      var numLeft := |events| - numToWrite;
      var queued := numToWrite < |events| && sizePending + numLeft <= MAX_PENDING;
      history := history.(posted := history.posted + events,
                          written := history.written + events[..numToWrite],
                          log := history.log + Tag(events[..numToWrite], Written)
                                 + Tag(events[numToWrite..], if queued then Pending else Dropped));
      if queued {
        pending := pending + [Batch(events[numToWrite..], numWakeUpEvents)];
        sizePending := sizePending + numLeft;
        history := history.(gone := history.gone + [CountWakeUps(wakeHandles, events[..numToWrite])]);
      }
    }

    /** One round of handlePendingWrites; meanwhile the framework reads `freed` events, after which
        the blocking write either fits or times out. */
    method HandlePendingWrite(freed: nat) returns (ok: bool)
      requires Valid() && drainer == Waiting && running && pending != [] && freed <= |fmq|
      modifies this
      ensures Valid() && drainer == Waiting
      ensures ok == (Min(|old(pending)[0].events|, quantum) + |old(fmq)| - freed <= quantum)
      ensures Abs() == DrainRound(old(Abs()), freed, ok)
      ensures var n := Min(|old(pending)[0].events|, quantum);
        && n <= |Flatten(old(pending))|
        && fmq == old(fmq)[freed..] + (if ok then Flatten(old(pending))[..n] else [])
        && Flatten(pending) == Flatten(old(pending))[n..] && sizePending == old(sizePending) - n
      ensures quantum == old(quantum) && running
      ensures quantum > 0 ==> DrainRounds(pending, quantum) + 1 == DrainRounds(old(pending), quantum)
    {
      ghost var s := Abs();
      var numWakeUpEvents, eventQueueSize, numToWrite := ClaimBatch();
      ok := BlockingWrite(numWakeUpEvents, eventQueueSize, numToWrite, freed);
      FinishWrite(eventQueueSize, numToWrite);
      DrainRoundKeepsInv(s, freed, ok);
      DrainRoundEffect(s, freed, ok);
    }

    /** What the thread reads under the mutex before it lets it go. */
    method ClaimBatch() returns (numWakeUpEvents: nat, eventQueueSize: nat, numToWrite: nat)
      requires Valid() && drainer == Waiting && running && pending != []
      modifies this`drainer
      ensures Valid() && Abs() == AfterDrainBegin(old(Abs()))
      ensures drainer == Busy(pending[0], numToWrite, eventQueueSize, false) && numWakeUpEvents == pending[0].wakeUps
      ensures eventQueueSize == quantum && numToWrite == Min(|pending[0].events|, quantum)
    {
      numWakeUpEvents, eventQueueSize := pending[0].wakeUps, quantum;
      numToWrite := Min(|pending[0].events|, eventQueueSize);
      StepKeepsInv(Abs(), DrainBegin);
      drainer := Busy(pending[0], numToWrite, eventQueueSize, false);
    }

    /** The part of the round that runs without the mutex. Posts may have come in since the batch was claimed. */
    method BlockingWrite(numWakeUpEvents: nat, eventQueueSize: nat, numToWrite: nat, freed: nat) returns (ok: bool)
      requires Valid() && drainer.Busy? && drainer == Busy(drainer.claimed, numToWrite, eventQueueSize, false)
      requires numWakeUpEvents == drainer.claimed.wakeUps && freed <= |fmq|
      modifies this`fmq, this`history, this`drainer
      ensures Valid()
      ensures ok == (numToWrite + |old(fmq)| - freed <= quantum)
      ensures Abs() == AfterDrainWrite(old(Abs()).(fmq := old(fmq)[freed..]), ok)
      ensures pending != [] && numToWrite <= |pending[0].events|
      ensures fmq == old(fmq)[freed..] + if ok then pending[0].events[..numToWrite] else []
    {
      hide Resolve, HistoryInv, QueueInv, Inv;
      ghost var s := Abs();
      BlockingWriteKeepsInv(s, freed, numToWrite + |fmq| - freed <= quantum);
      fmq := fmq[freed..];
      ok := WriteFmq(pending[0].events[..numToWrite]);
      if ok {
        history := history.(log := Resolve(history.log, numToWrite, Written),
                            written := history.written + pending[0].events[..numToWrite]);
      } else {
        var delta := GiveBack(numWakeUpEvents, eventQueueSize);
        history := history.(log := Resolve(history.log, numToWrite, Dropped), released := history.released + delta);
      }
      drainer := drainer.(wrote := true);
      assert Abs() == AfterDrainWrite(s.(fmq := s.fmq[freed..]), ok);
    }

    /** How many references the drain thread drops when its write has failed. */
    method GiveBack(numWakeUpEvents: nat, eventQueueSize: nat) returns (delta: nat)
      requires pending != [] && numWakeUpEvents == pending[0].wakeUps
      ensures delta == ReleaseOnFailure(wakeHandles, pending[0], eventQueueSize)
    {
      delta := 0;
      if numWakeUpEvents > 0 {
        if |pending[0].events| > eventQueueSize {
          delta := CountNumWakeUpEvents(pending[0].events, eventQueueSize);
        } else {
          delta := numWakeUpEvents;
        }
      }
    }

    /** The part of the round after the mutex is taken again. */
    method FinishWrite(eventQueueSize: nat, numToWrite: nat)
      requires Valid() && drainer.Busy? && drainer == Busy(drainer.claimed, numToWrite, eventQueueSize, true)
      modifies this
      ensures Valid() && Abs() == AfterDrainFinish(old(Abs()))
      ensures numToWrite <= |Flatten(old(pending))| && Flatten(pending) == Flatten(old(pending))[numToWrite..]
      ensures sizePending == old(sizePending) - numToWrite && fmq == old(fmq) && drainer == Waiting
    {
      hide HistoryInv;
      DrainFinishTakes(Abs());
      ghost var s := Abs();
      ghost var goneNow := GoneAfterFinish(s);
      FlattenLength(pending);
      StepKeepsInv(s, DrainFinish);
      sizePending := sizePending - numToWrite;
      if |pending[0].events| > eventQueueSize {
        pending := [Batch(pending[0].events[eventQueueSize..], pending[0].wakeUps)] + pending[1..];
      } else {
        pending := pending[1..];
      }
      drainer, history := Waiting, history.(gone := goneNow);
    }

    /** With no new posts the thread empties the backlog in exactly the sum over the batches of
        ceil(size / FMQ size) rounds, whether or not the individual writes succeed. */
    method HandlePendingWrites(freed: nat -> nat) returns (rounds: nat)
      requires Valid() && drainer == Waiting && running && quantum > 0
      modifies this
      ensures Valid() && pending == [] && sizePending == 0
      ensures rounds == DrainRounds(old(pending), old(quantum))
    {
      rounds := 0;
      while pending != []
        invariant Valid() && drainer == Waiting && running && quantum == old(quantum) > 0
        invariant rounds + DrainRounds(pending, quantum) == DrainRounds(old(pending), quantum)
        decreases DrainRounds(pending, quantum)
      {
        var ok := HandlePendingWrite(Min(freed(rounds), |fmq|));
        rounds := rounds + 1;
      }
    }

    /** The flag goes down and the FMQ is emptied, whatever the drain thread is doing. */
    method StopThreads()
      requires Valid()
      modifies this`running, this`fmq
      ensures Valid() && Abs() == old(Abs()).(running := false, fmq := [])
      ensures !running && fmq == [] && pending == old(pending) && sizePending == old(sizePending)
    {
      StepKeepsInv(Abs(), Stop);
      running := false;
      fmq := [];
    }

    /** stopThreads has waited for the drain thread to end. */
    method InitializeCommon(eventQueueSize: nat)
      requires Valid() && drainer == Waiting
      modifies this
      ensures Valid() && Abs() == AfterInitialize(old(Abs()), eventQueueSize)
      ensures running && quantum == eventQueueSize && fmq == [] && pending == [] && sizePending == 0
    {
      StopInitializeKeepsInv(Abs(), eventQueueSize);
      StopThreads();
      pending, sizePending := [], 0;
      quantum, fmq := eventQueueSize, [];
      history := History([], [], [], 0, []);
      running := true;
    }
  }

  /** A blocking write before which the framework reads, as steps of the transition system. */
  lemma BlockingWriteKeepsInv(s: State, freed: nat, ok: bool)
    requires Inv(s) && s.drainer.Busy? && !s.drainer.wrote && freed <= |s.fmq|
    requires ok ==> s.drainer.numToWrite + |s.fmq| - freed <= s.quantum
    ensures Inv(AfterDrainWrite(s.(fmq := s.fmq[freed..]), ok))
    ensures |s.fmq| <= s.quantum && s.drainer.quantum == s.quantum && s.pending != [] && s.pending[0] == s.drainer.claimed
    ensures s.drainer.numToWrite == Min(|s.pending[0].events|, s.quantum)
  {
    StepKeepsInv(s, FrameworkRead(freed));
    StepKeepsInv(s.(fmq := s.fmq[freed..]), DrainWrite(ok));
  }
}
