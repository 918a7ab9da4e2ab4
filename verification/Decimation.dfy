/** The decimating writer of direct channels (SensorsSubHal.cpp, writeToDirectBuffer). */
module Decimation {
  import opened DirectReport
  import opened Modular

  datatype Event = Event(sensorHandle: int, payload: int)

  function Get(m: map<int, int>, k: int): int { if k in m then m[k] else 0 }

  predicate Listens(ch: DirectChannel, s: int) { s in ch.sensorHandles && Get(ch.rateNs, s) != 0 }

  /** Whether this sample of a listening channel is written: enough time has passed since the last one. */
  predicate IsDue(ch: DirectChannel, s: int, period: int) {
    period * (Get(ch.sampleCount, s) + 1) >= Get(ch.rateNs, s)
  }

  /** The channel after one event. */
  function AfterEvent(ch: DirectChannel, e: Event, period: int): DirectChannel {
    var s := e.sensorHandle;
    if !Listens(ch, s) then ch
    else ch.(sampleCount := ch.sampleCount[s := if IsDue(ch, s, period) then 0 else Get(ch.sampleCount, s) + 1])
  }

  function Written(ch: DirectChannel, e: Event, period: int): seq<Event> {
    if Listens(ch, e.sensorHandle) && IsDue(ch, e.sensorHandle, period) then [e] else []
  }

  /** The channel after a batch, and what of the batch it was given. */
  function AfterEvents(ch: DirectChannel, events: seq<Event>, period: int): DirectChannel
    decreases |events|
  {
    if events == [] then ch
    else AfterEvent(AfterEvents(ch, events[..|events| - 1], period), events[|events| - 1], period)
  }

  function AllWritten(ch: DirectChannel, events: seq<Event>, period: int): seq<Event>
    decreases |events|
  {
    if events == [] then []
    else
      var init := events[..|events| - 1];
      AllWritten(ch, init, period) + Written(AfterEvents(ch, init, period), events[|events| - 1], period)
  }

  lemma {:induction false} TablesUntouched(ch: DirectChannel, events: seq<Event>, period: int)
    ensures AfterEvents(ch, events, period).sensorHandles == ch.sensorHandles
    ensures AfterEvents(ch, events, period).rateNs == ch.rateNs
    decreases |events|
  {
    if events != [] {
      TablesUntouched(ch, events[..|events| - 1], period);
    }
  }

  // ----- the arithmetic of decimation

  /** One write every Stride samples. */
  function Stride(rate: int, period: int): int
    requires period > 0
  {
    (rate + period - 1) / period
  }

  lemma StrideBounds(rate: int, period: int)
    requires period > 0 && rate > 0
    ensures Stride(rate, period) >= 1
    ensures rate <= Stride(rate, period) * period < rate + period
  {
    var m := Stride(rate, period);
    assert rate + period - 1 == m * period + (rate + period - 1) % period;
  }

  lemma DueExactly(rate: int, period: int, k: int)
    requires period > 0 && rate > 0
    ensures period * k >= rate <==> k >= Stride(rate, period)
  {
    var m := Stride(rate, period);
    StrideBounds(rate, period);
    if k >= m {
      MulMonotone(period, m, k);
    } else {
      MulMonotone(period, k, m - 1);
    }
  }

  predicate AllFrom(events: seq<Event>, s: int) { forall i :: 0 <= i < |events| ==> events[i].sensorHandle == s }

  /** The state of a channel that has counted k samples of s since its last write. */
  ghost predicate Counts(ch: DirectChannel, s: int, rate: int, k: int) {
    s in ch.sensorHandles && Get(ch.rateNs, s) == rate && Get(ch.sampleCount, s) == k
  }

  lemma OneSample(ch: DirectChannel, e: Event, rate: int, period: int, k: int)
    requires period > 0 && rate > 0 && Counts(ch, e.sensorHandle, rate, k)
    ensures var due := k + 1 >= Stride(rate, period);
      && Counts(AfterEvent(ch, e, period), e.sensorHandle, rate, if due then 0 else k + 1)
      && Written(ch, e, period) == if due then [e] else []
  {
    DueExactly(rate, period, k + 1);
  }

  /** From a count of zero, after n samples of the one sensor the count is n modulo the stride and exactly
      floor(n / stride) of them were written. */
  lemma {:induction false} CountAfter(ch: DirectChannel, events: seq<Event>, s: int, rate: int, period: int)
    requires period > 0 && rate > 0 && Counts(ch, s, rate, 0) && AllFrom(events, s)
    ensures Stride(rate, period) >= 1
    ensures Counts(AfterEvents(ch, events, period), s, rate, |events| % Stride(rate, period))
    ensures |AllWritten(ch, events, period)| == |events| / Stride(rate, period)
    decreases |events|
  {
    hide Counts, Stride, AfterEvent, Written;
    var m, n := Stride(rate, period), |events|;
    StrideBounds(rate, period);
    if n > 0 {
      var init := events[..n - 1];
      CountAfter(ch, init, s, rate, period);
      OneSample(AfterEvents(ch, init, period), events[n - 1], rate, period, (n - 1) % m);
      NextQuotient(n - 1, m);
    } else {
      assert 0 % m == 0 && 0 / m == 0;
    }
  }

  /** Exactly every Stride-th sample is written. */
  lemma WrittenExactly(ch: DirectChannel, events: seq<Event>, s: int, rate: int, period: int)
    requires period > 0 && rate > 0 && Counts(ch, s, rate, 0) && AllFrom(events, s) && events != []
    ensures Stride(rate, period) >= 1
    ensures var init, e := events[..|events| - 1], events[|events| - 1];
      AllWritten(ch, events, period)
        == AllWritten(ch, init, period) + if |events| % Stride(rate, period) == 0 then [e] else []
  {
    hide Counts, Stride, AfterEvent, Written;
    var m, n := Stride(rate, period), |events|;
    StrideBounds(rate, period);
    CountAfter(ch, events[..n - 1], s, rate, period);
    OneSample(AfterEvents(ch, events[..n - 1], period), events[n - 1], rate, period, (n - 1) % m);
    NextQuotient(n - 1, m);
  }

  /** Two writes are at least the requested period apart, by less than one sample more, and so by less than
      twice the requested period whenever the sensor samples at least as fast as the channel asks. */
  lemma SpacingBounds(rate: int, period: int)
    requires period > 0 && rate > 0
    ensures rate <= Stride(rate, period) * period < rate + period
    ensures period <= rate ==> Stride(rate, period) * period < 2 * rate
  {
    StrideBounds(rate, period);
  }

  /** Over every sequence of calls on a new sub-HAL the period a sensor polls at for its direct channels is at
      most the period of each of them, so the writes of every channel are less than twice its period apart. */
  lemma SpacingOfEveryChannel(t: State, calls: seq<Call>, s: int, c: int)
    requires IsInitial(t) && forall i :: 0 <= i < |calls| ==> Allowed(calls[i])
    requires s in Run(t, calls).sensors && RateOf(Run(t, calls), s, c) > 0
    ensures var rate, period := RateOf(Run(t, calls), s, c), Run(t, calls).sensors[s].directRateNs;
      && 0 < period <= rate
      && rate <= Stride(rate, period) * period < 2 * rate
  {
    TablesAlwaysAgree(t, calls, s);
    SpacingBounds(RateOf(Run(t, calls), s, c), Run(t, calls).sensors[s].directRateNs);
  }

  // ----- the samples of other sensors do not disturb it

  function OnlyFrom(events: seq<Event>, s: int): seq<Event>
    decreases |events|
  {
    if events == [] then []
    else OnlyFrom(events[..|events| - 1], s) + if events[|events| - 1].sensorHandle == s then [events[|events| - 1]] else []
  }

  /** Two channels that treat sensor s alike. */
  predicate SameFor(t: DirectChannel, u: DirectChannel, s: int) {
    t.sensorHandles == u.sensorHandles && t.rateNs == u.rateNs && Get(t.sampleCount, s) == Get(u.sampleCount, s)
  }

  lemma OwnEvent(t: DirectChannel, u: DirectChannel, e: Event, period: int)
    requires SameFor(t, u, e.sensorHandle)
    ensures SameFor(AfterEvent(t, e, period), AfterEvent(u, e, period), e.sensorHandle)
    ensures Written(t, e, period) == Written(u, e, period)
  {
  }

  lemma ForeignEvent(t: DirectChannel, e: Event, s: int, period: int)
    requires e.sensorHandle != s
    ensures SameFor(AfterEvent(t, e, period), t, s) && OnlyFrom(Written(t, e, period), s) == []
  {
    OnlyFromOne(e, s);
  }

  lemma OnlyFromOne(e: Event, s: int)
    ensures OnlyFrom([e], s) == if e.sensorHandle == s then [e] else []
    ensures OnlyFrom([], s) == []
  {
    assert [e][..0] == [];
  }

  lemma Snoc(ch: DirectChannel, init: seq<Event>, e: Event, s: int, period: int)
    ensures AfterEvents(ch, init + [e], period) == AfterEvent(AfterEvents(ch, init, period), e, period)
    ensures AllWritten(ch, init + [e], period) == AllWritten(ch, init, period) + Written(AfterEvents(ch, init, period), e, period)
    ensures OnlyFrom(init + [e], s) == if e.sensorHandle == s then OnlyFrom(init, s) + [e] else OnlyFrom(init, s)
  {
    assert (init + [e])[..|init|] == init;
  }

  lemma {:induction false} OnlyFromIsFrom(events: seq<Event>, s: int)
    ensures AllFrom(OnlyFrom(events, s), s)
    decreases |events|
  {
    if events != [] {
      OnlyFromIsFrom(events[..|events| - 1], s);
    }
  }

  /** The channel that saw everything treats s like the one that saw only s, and gave it the same. */
  ghost predicate Independent(ch: DirectChannel, events: seq<Event>, s: int, period: int) {
    && OnlyFrom(AllWritten(ch, events, period), s) == AllWritten(ch, OnlyFrom(events, s), period)
    && SameFor(AfterEvents(ch, events, period), AfterEvents(ch, OnlyFrom(events, s), period), s)
  }

  lemma IndependentStep(ch: DirectChannel, init: seq<Event>, e: Event, s: int, period: int)
    requires Independent(ch, init, s, period)
    ensures Independent(ch, init + [e], s, period)
  {
    hide SameFor, AfterEvent, Written, AfterEvents, AllWritten, OnlyFrom;
    var mine := OnlyFrom(init, s);
    var t, u := AfterEvents(ch, init, period), AfterEvents(ch, mine, period);
    Snoc(ch, init, e, s, period);
    Snoc(ch, mine, e, s, period);
    OnlyFromAppend(AllWritten(ch, init, period), Written(t, e, period), s);
    if e.sensorHandle == s {
      OwnEvent(t, u, e, period);
      WrittenIsFrom(t, e, period);
    } else {
      ForeignEvent(t, e, s, period);
      SameForTransitive(AfterEvent(t, e, period), t, u, s);
    }
  }

  /** What a channel gets from sensor s, and its count for s, depend on the samples of s alone. */
  lemma {:induction false} SensorsAreIndependent(ch: DirectChannel, events: seq<Event>, s: int, period: int)
    ensures Independent(ch, events, s, period)
    decreases |events|
  {
    if events != [] {
      var init, e := events[..|events| - 1], events[|events| - 1];
      SensorsAreIndependent(ch, init, s, period);
      IndependentStep(ch, init, e, s, period);
      assert events == init + [e];
    }
  }

  /** Among any mixture of samples, exactly every Stride-th sample of s is written: floor(n / stride) of n. */
  lemma WritesOfOneSensor(ch: DirectChannel, events: seq<Event>, s: int, rate: int, period: int)
    requires period > 0 && rate > 0 && Counts(ch, s, rate, 0)
    ensures Stride(rate, period) >= 1
    ensures |OnlyFrom(AllWritten(ch, events, period), s)| == |OnlyFrom(events, s)| / Stride(rate, period)
  {
    SensorsAreIndependent(ch, events, s, period);
    OnlyFromIsFrom(events, s);
    CountAfter(ch, OnlyFrom(events, s), s, rate, period);
  }

  lemma SameForTransitive(t: DirectChannel, u: DirectChannel, v: DirectChannel, s: int)
    requires SameFor(t, u, s) && SameFor(u, v, s)
    ensures SameFor(t, v, s)
  {
  }

  lemma WrittenIsFrom(t: DirectChannel, e: Event, period: int)
    ensures OnlyFrom(Written(t, e, period), e.sensorHandle) == Written(t, e, period)
  {
    OnlyFromOne(e, e.sensorHandle);
  }

  lemma {:induction false} OnlyFromAppend(a: seq<Event>, b: seq<Event>, s: int)
    ensures OnlyFrom(a + b, s) == OnlyFrom(a, s) + OnlyFrom(b, s)
    decreases |b|
  {
    if b == [] {
      assert a + b == a;
    } else {
      var init := b[..|b| - 1];
      OnlyFromAppend(a, init, s);
      assert (a + b)[..|a + b| - 1] == a + init;
    }
  }
}
