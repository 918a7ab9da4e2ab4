/** From a sub-HAL's events to the event queues (HalProxyCallback.cpp, postEvents): the events are tagged and
    counted by one set of functions and queued by another, and the two counts are the same. */
module HalProxyCallback {
  import opened Basics
  import L = EventLog
  import P = EventPipeline
  import Q = HalProxyQueue
  import R = SubHalRouting

  /** What of a tagged event the queues look at. */
  function Delivered(e: R.Event): L.Event { L.Event(e.sensorHandle as int, e.payload) }

  function AllDelivered(events: seq<R.Event>): (delivered: seq<L.Event>)
    ensures |delivered| == |events| && forall i :: 0 <= i < |events| ==> delivered[i] == Delivered(events[i])
  {
    seq(|events|, i requires 0 <= i < |events| => Delivered(events[i]))
  }

  /** The handles that the sensor list gives the wake-up flag. */
  ghost function WakeHandles(sensors: map<R.Handle, R.SensorInfo>): set<int> {
    set h | h in sensors && R.IsWakeUp(sensors[h].flags) :: h.bits as int
  }

  lemma WakeHandleIsFlagged(sensors: map<R.Handle, R.SensorInfo>, handle: bv32)
    ensures handle as int in WakeHandles(sensors) <==> R.IsWakeUp(R.FlagsOf(sensors, handle))
  {
    hide R.IsWakeUp;
    R.NoFlags();
    if handle as int in WakeHandles(sensors) {
      var h :| h in sensors && R.IsWakeUp(sensors[h].flags) && h.bits as int == handle as int;
      R.SameNumber(h.bits, handle);
      assert h == R.Handle(handle);
    }
    if R.IsWakeUp(R.FlagsOf(sensors, handle)) {
      assert R.Handle(handle) in sensors && R.Handle(handle).bits as int == handle as int;
    }
  }

  lemma DeliveredSnoc(events: seq<R.Event>)
    requires events != []
    ensures AllDelivered(events) == AllDelivered(events[..|events| - 1]) + [Delivered(events[|events| - 1])]
  {
    hide Delivered;
  }

  /** The count that processEvents delivers is the one that the queues go by. */
  lemma {:induction false} CountsAgree(sensors: map<R.Handle, R.SensorInfo>, events: seq<R.Event>)
    ensures R.CountWakeUps(sensors, events) == P.CountWakeUps(WakeHandles(sensors), AllDelivered(events))
    decreases |events|
  {
    hide WakeHandles, R.IsWakeUp, R.FlagsOf, AllDelivered, P.CountWakeUps;
    if events == [] {
      NothingToCount(WakeHandles(sensors), AllDelivered(events));
    } else {
      var init, last := events[..|events| - 1], events[|events| - 1];
      CountsAgree(sensors, init);
      WakeHandleIsFlagged(sensors, last.sensorHandle);
      DeliveredSnoc(events);
      P.CountOfOne(WakeHandles(sensors), Delivered(last));
      P.CountWakeUpsAppend(WakeHandles(sensors), AllDelivered(init), [Delivered(last)]);
    }
  }

  lemma NothingToCount(wake: set<int>, events: seq<L.Event>)
    requires |events| == 0
    ensures P.CountWakeUps(wake, events) == 0
  {
  }

  /** Delivered event `out` leads to this sub-HAL and, there, to the sensor of event e. */
  ghost predicate RoutesTo(out: L.Event, e: R.Event, index: nat) {
    && 0 <= out.sensorHandle < 0x1_0000_0000
    && R.ExtractSubHalIndex(out.sensorHandle as bv32) == index
    && R.ClearSubHalIndex(out.sensorHandle as bv32) == e.sensorHandle
  }

  lemma DeliveredRoutes(out: R.Event, e: R.Event, index: nat)
    requires R.ExtractSubHalIndex(out.sensorHandle) == index && R.ClearSubHalIndex(out.sensorHandle) == e.sensorHandle
    ensures RoutesTo(Delivered(out), e, index)
  {
    hide R.ExtractSubHalIndex, R.ClearSubHalIndex;
    assert (out.sensorHandle as int) as bv32 == out.sensorHandle;
  }

  /** postEvents: nothing for no events or while threads are stopped; otherwise the tagged events are posted
      with the number of wake-up events among them. */
  method PostEvents(queues: Q.EventQueues, sensors: map<R.Handle, R.SensorInfo>, index: nat, events: seq<R.Event>)
    returns (ghost delivered: seq<L.Event>)
    requires queues.Valid() && queues.wakeHandles == WakeHandles(sensors)
    modifies queues
    ensures queues.Valid()
    ensures events == [] || !old(queues.running) ==> queues.Abs() == old(queues.Abs()) && delivered == []
    ensures events != [] && old(queues.running) ==> |delivered| == |events|
    // what is posted is the events with their payloads, under handles that lead back to this sub-HAL and its sensors
    ensures queues.Abs() == if delivered == [] then old(queues.Abs())
                            else P.AfterPostLeave(P.AfterPostEnter(old(queues.Abs()), delivered))
    ensures queues.history.posted == old(queues.history.posted) + delivered
    ensures old(queues.pending) == [] && old(queues.running) ==>
              queues.fmq == old(queues.fmq) + delivered[..Min(|delivered|, queues.quantum - |old(queues.fmq)|)]
    ensures forall i :: 0 <= i < |delivered| ==> delivered[i] == Delivered(R.Tagged(events[i], index))
    ensures forall i :: 0 <= i < |delivered| ==> delivered[i].payload == events[i].payload
    ensures index < 128 ==> forall i :: 0 <= i < |delivered| && R.SubHalIndexIsClear(events[i].sensorHandle) ==>
              && 0 <= delivered[i].sensorHandle < 0x1_0000_0000
              && R.ExtractSubHalIndex(delivered[i].sensorHandle as bv32) == index
              && R.ClearSubHalIndex(delivered[i].sensorHandle as bv32) == events[i].sensorHandle
  {
    hide R.Tagged, R.ExtractSubHalIndex, R.ClearSubHalIndex, R.SubHalIndexIsClear, R.CountWakeUps, P.CountWakeUps, WakeHandles,
         P.AfterPostLeave, P.AfterPostEnter, P.QueueInv, P.HistoryInv;
    delivered := [];
    if events == [] || !queues.running {
      return;
    }
    var processed, numWakeUpEvents := R.ProcessEvents(sensors, index, events);
    CountsAgree(sensors, processed);
    queues.PostEventsToMessageQueue(AllDelivered(processed), numWakeUpEvents);
    delivered := AllDelivered(processed);
    if index < 128 {
      forall i | 0 <= i < |delivered| && R.SubHalIndexIsClear(events[i].sensorHandle)
        ensures RoutesTo(delivered[i], events[i], index)
      {
        DeliveredRoutes(processed[i], events[i], index);
      }
    }
  }
}
