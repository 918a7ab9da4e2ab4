/** The ring buffer of a direct channel: the writer (DirectChannel.cpp) and the reader that pairs with it
    (SensorsAidlTestSharedMemory.h). */
module LockfreeBuffer {
  import opened Basics
  import opened Modular

  /** A sensors_event_t without its counter: `size` is the field the reader checks. */
  datatype Event = Event(size: int, sensorHandle: int, sensorType: int, timestamp: int, data: seq<int>)

  datatype Slot = Slot(event: Event, counter: int)

  const EVENT_SIZE := 104
  const INT32_MAX := 0x7fff_ffff

  /** Memory after memset. */
  const EMPTY := Slot(Event(0, 0, 0, 0, [0, 0, 0, 0, 0, 0, 0, 0, 0, 0, 0, 0, 0, 0, 0, 0]), 0)

  // ----- what the memory holds after a history of writes

  /** The index of the newest of n events that fell into slot i. */
  function Newest(n: nat, m: nat, i: nat): (k: int)
    requires i < m && i < n
  {
    i + (n - 1 - i) / m * m
  }

  function SlotAfter(log: seq<Event>, m: nat, i: nat): Slot
    requires i < m
  {
    if i < |log| then
      NewestIs(|log|, m, i);
      Slot(log[Newest(|log|, m, i)], Newest(|log|, m, i) + 1)
    else EMPTY
  }

  function Image(log: seq<Event>, m: nat): (slots: seq<Slot>)
    ensures |slots| == m
    ensures forall i :: 0 <= i < m ==> slots[i] == SlotAfter(log, m, i)
  {
    seq(m, i requires 0 <= i < m => SlotAfter(log, m, i))
  }

  lemma NewestIs(n: nat, m: nat, i: nat)
    requires i < m && i < n
    ensures 0 <= Newest(n, m, i) < n && Newest(n, m, i) % m == i && n - m <= Newest(n, m, i)
  {
    DivMod(n - 1 - i, m);
    QuotientIs(Newest(n, m, i), m, (n - 1 - i) / m, i);
  }

  /** Newest is the largest index below n that is congruent to i. */
  lemma NewestIsNewest(n: nat, m: nat, i: nat, k: nat)
    requires i < m && k < n && k % m == i
    ensures i < n && k <= Newest(n, m, i)
  {
    DivMod(k, m);
    if k / m >= 0 {
      MulMonotone(m, 0, k / m);
    }
    NewestIs(n, m, i);
    if k > Newest(n, m, i) {
      CongruentAndClose(Newest(n, m, i), k, m);
    }
  }

  lemma NewestUnique(n: nat, m: nat, k: nat)
    requires m > 0 && k < n <= k + m
    ensures k % m < m && k % m < n && Newest(n, m, k % m) == k
  {
    DivMod(k, m);
    NewestIsNewest(n, m, k % m, k);
    NewestIs(n, m, k % m);
    CongruentAndClose(Newest(n, m, k % m), k, m);
  }

  /** A write replaces the slot at n mod m and no other. */
  lemma WriteStep(log: seq<Event>, m: nat, e: Event)
    requires m > 0
    ensures |log| % m < m
    ensures Image(log + [e], m) == Image(log, m)[|log| % m := Slot(e, |log| + 1)]
  {
    hide Newest;
    var n := |log|;
    DivMod(n, m);
    forall i | 0 <= i < m
      ensures SlotAfter(log + [e], m, i) == if i == n % m then Slot(e, n + 1) else SlotAfter(log, m, i)
    {
      if i == n % m {
        NewestUnique(n + 1, m, n);
      } else {
        OtherSlot(log, m, e, i);
      }
    }
  }

  lemma OtherSlot(log: seq<Event>, m: nat, e: Event, i: nat)
    requires m > 0 && i < m && i != |log| % m
    ensures SlotAfter(log + [e], m, i) == SlotAfter(log, m, i)
  {
    hide Newest;
    var n := |log|;
    if i < n {
      NewestIs(n, m, i);
      Shift(n, m);
      NewestUnique(n + 1, m, Newest(n, m, i));
    } else {
      SmallRemainder(n, m, i);
    }
  }

  lemma SmallRemainder(n: nat, m: nat, i: nat)
    requires n <= i < m && i != n % m
    ensures n + 1 <= i
  {
    QuotientIs(n, m, 0, n);
  }

  // ----- the reader

  /** The counter the slot at i is compared with. */
  function Previous(slots: seq<Slot>, lastCounter: int, start: nat, i: nat): int
    requires start <= i <= |slots|
  {
    if i == start then lastCounter else slots[i - 1].counter
  }

  /** The slots from start to end are newer and newer, and well-formed. */
  ghost predicate Readable(slots: seq<Slot>, lastCounter: int, start: nat, end: nat)
    requires start <= end <= |slots|
  {
    forall i :: start <= i < end ==>
      slots[i].counter > Previous(slots, lastCounter, start, i) && slots[i].event.size == EVENT_SIZE
  }

  ghost predicate StopsAt(slots: seq<Slot>, lastCounter: int, start: nat, end: nat)
    requires start <= end <= |slots|
  {
    end == |slots| || slots[end].counter <= Previous(slots, lastCounter, start, end)
  }

  ghost predicate BadAt(slots: seq<Slot>, lastCounter: int, start: nat, end: nat)
    requires start <= end <= |slots|
  {
    end < |slots| && slots[end].counter > Previous(slots, lastCounter, start, end) && slots[end].event.size != EVENT_SIZE
  }

  function Bodies(slots: seq<Slot>): (events: seq<Event>)
    ensures |events| == |slots| && forall i :: 0 <= i < |slots| ==> events[i] == slots[i].event
  {
    seq(|slots|, i requires 0 <= i < |slots| => slots[i].event)
  }

  /** events is what parseEvents returns: the longest run of newer and newer events, or nothing if the run
      meets a malformed one. */
  ghost predicate Parsed(slots: seq<Slot>, lastCounter: int, start: nat, events: seq<Event>)
    requires start <= |slots|
  {
    exists end: nat ::
      && start <= end <= |slots| && Readable(slots, lastCounter, start, end)
      && (|| (StopsAt(slots, lastCounter, start, end) && events == Bodies(slots[start..end]))
          || (BadAt(slots, lastCounter, start, end) && events == []))
  }

  lemma NothingRead(slots: seq<Slot>, lastCounter: int, start: nat)
    ensures start <= |slots| ==> Readable(slots, lastCounter, start, start) && Bodies(slots[start..start]) == []
  {
  }

  lemma Extend(slots: seq<Slot>, lastCounter: int, start: nat, i: nat)
    requires start <= i < |slots| && Readable(slots, lastCounter, start, i)
    requires slots[i].counter > Previous(slots, lastCounter, start, i) && slots[i].event.size == EVENT_SIZE
    ensures Readable(slots, lastCounter, start, i + 1)
    ensures Bodies(slots[start..i + 1]) == Bodies(slots[start..i]) + [slots[i].event]
  {
  }

  method ParseEvents(slots: seq<Slot>, lastCounter: int, offset: nat) returns (events: seq<Event>)
    ensures offset <= |slots| ==> Parsed(slots, lastCounter, offset, events)
    ensures offset > |slots| ==> events == []
  {
    hide Readable, Bodies;
    events := [];
    NothingRead(slots, lastCounter, offset);
    if offset > |slots| {
      return;
    }
    var last, i := lastCounter, offset;
    while i < |slots|
      invariant offset <= i <= |slots| && last == Previous(slots, lastCounter, offset, i)
      invariant Readable(slots, lastCounter, offset, i) && events == Bodies(slots[offset..i])
    {
      var atomicCounter := slots[i].counter;
      if atomicCounter <= last {
        assert StopsAt(slots, lastCounter, offset, i);
        return;
      }
      if slots[i].event.size != EVENT_SIZE {
        assert BadAt(slots, lastCounter, offset, i);
        events := [];
        return;
      }
      Extend(slots, lastCounter, offset, i);
      events := events + [slots[i].event];
      last := atomicCounter;
      i := i + 1;
    }
    assert StopsAt(slots, lastCounter, offset, i);
  }

  /** parseEvents has one result only: the run up to a slot that is not newer, or nothing if a newer slot that follows
      the run is malformed. */
  lemma ParsedUnique(slots: seq<Slot>, lastCounter: int, start: nat, end: nat, events: seq<Event>)
    requires start <= end <= |slots| && Readable(slots, lastCounter, start, end)
    requires Parsed(slots, lastCounter, start, events)
    ensures StopsAt(slots, lastCounter, start, end) ==> events == Bodies(slots[start..end])
    ensures BadAt(slots, lastCounter, start, end) ==> events == []
  {
    var e: nat :| start <= e <= |slots| && Readable(slots, lastCounter, start, e)
      && (|| (StopsAt(slots, lastCounter, start, e) && events == Bodies(slots[start..e]))
          || (BadAt(slots, lastCounter, start, e) && events == []));
    if e < end {
      ReadableAt(slots, lastCounter, start, end, e);
    } else if end < e {
      ReadableAt(slots, lastCounter, start, e, end);
    }
  }

  lemma ReadableAt(slots: seq<Slot>, lastCounter: int, start: nat, end: nat, i: nat)
    requires start <= i < end <= |slots| && Readable(slots, lastCounter, start, end)
    ensures slots[i].counter > Previous(slots, lastCounter, start, i) && slots[i].event.size == EVENT_SIZE
  {
  }

  // ----- reader and writer together

  ghost predicate WellFormed(log: seq<Event>) {
    forall i :: 0 <= i < |log| ==> log[i].size == EVENT_SIZE
  }

  /** Event b goes to the first slot. */
  predicate StartsLap(b: nat, m: nat) { m > 0 && b % m == 0 }

  lemma NextLap(b: nat, m: nat)
    requires StartsLap(b, m)
    ensures StartsLap(b + m, m)
  {
    Shift(b + m, m);
  }

  lemma InLap(b: nat, m: nat, i: nat)
    requires i < m && StartsLap(b, m)
    ensures (b + i) % m == i
  {
    DivMod(b, m);
    QuotientIs(b + i, m, b / m, i);
  }

  /** A slot that holds one of the newest m events; its lap began with event b. */
  lemma SlotHolds(log: seq<Event>, m: nat, b: nat, i: nat)
    requires i < m && StartsLap(b, m) && b + i < |log| <= b + i + m
    ensures SlotAfter(log, m, i) == Slot(log[b + i], b + i + 1)
  {
    hide Newest;
    InLap(b, m, i);
    NewestUnique(|log|, m, b + i);
  }

  /** The slot after the newest event is empty or holds the event one buffer earlier. */
  lemma SlotBehind(log: seq<Event>, m: nat, b: nat, i: nat)
    requires i < m && StartsLap(b, m) && |log| == b + i
    ensures SlotAfter(log, m, i).counter <= Max(0, |log| - m + 1)
  {
    hide Newest;
    var n := |log|;
    if i < n {
      InLap(b, m, i);
      NewestIs(n, m, i);
      if Newest(n, m, i) > n - m {
        CongruentAndClose(Newest(n, m, i), n, m);
      }
    }
  }

  /** The slots from i to end hold the events of the lap that began with event b. */
  ghost predicate Holds(slots: seq<Slot>, log: seq<Event>, b: nat, i: nat, end: nat) {
    && i <= end <= |slots| && b + end <= |log|
    && forall j :: i <= j < end ==> slots[j] == Slot(log[b + j], b + j + 1)
  }

  lemma ImageHolds(log: seq<Event>, m: nat, b: nat, i: nat, end: nat)
    requires StartsLap(b, m) && i <= end <= m && b + end <= |log| <= b + i + m
    ensures Holds(Image(log, m), log, b, i, end)
  {
    hide SlotAfter, StartsLap;
    forall j | i <= j < end ensures Image(log, m)[j] == Slot(log[b + j], b + j + 1) {
      SlotHolds(log, m, b, j);
    }
  }

  lemma HeldIsReadable(slots: seq<Slot>, log: seq<Event>, b: nat, i: nat, end: nat, last: int)
    requires Holds(slots, log, b, i, end) && WellFormed(log) && last <= b + i
    ensures Readable(slots, last, i, end) && Bodies(slots[i..end]) == log[b + i..b + end]
  {
    forall j | i <= j < end
      ensures slots[j].counter > Previous(slots, last, i, j) && slots[j].event.size == EVENT_SIZE
    {
      if j > i {
        assert slots[j - 1] == Slot(log[b + (j - 1)], b + (j - 1) + 1);
      }
    }
  }

  lemma HeldStops(log: seq<Event>, m: nat, b: nat, i: nat, end: nat, last: int)
    requires StartsLap(b, m) && Holds(Image(log, m), log, b, i, end) && (end == m || b + end == |log|)
    requires if i < end then last <= b + i else last == b + i
    ensures StopsAt(Image(log, m), last, i, end)
  {
    hide SlotAfter, StartsLap;
    if end < m {
      SlotBehind(log, m, b, end);
      if i < end {
        assert Image(log, m)[end - 1] == Slot(log[b + (end - 1)], b + (end - 1) + 1);
      }
    }
  }

  /** A reader that has seen the first r events, o of them in the lap that began with event b, and is at most
      one buffer behind gets, in order, every event it has not seen up to the end of the buffer. */
  lemma ReadsOn(log: seq<Event>, m: nat, b: nat, o: nat, r: nat, events: seq<Event>)
    requires o < m && StartsLap(b, m) && r == b + o && r <= |log| <= r + m && WellFormed(log)
    requires Parsed(Image(log, m), r, o, events)
    ensures r <= Min(|log|, b + m) && events == log[r..Min(|log|, b + m)]
  {
    hide StartsLap, Readable, StopsAt, Parsed, Image, Holds;
    var end := Min(|log|, b + m) - b;
    ImageHolds(log, m, b, o, end);
    HeldIsReadable(Image(log, m), log, b, o, end, r);
    HeldStops(log, m, b, o, end, r);
    ParsedUnique(Image(log, m), r, o, end, events);
  }

  lemma MalformedFirst(slots: seq<Slot>, lastCounter: int, start: nat, events: seq<Event>)
    requires start < |slots| && slots[start].event.size != EVENT_SIZE && Parsed(slots, lastCounter, start, events)
    ensures events == []
  {
  }

  lemma NothingWritten(m: nat, events: seq<Event>)
    requires m > 0 && Parsed(Image([], m), -1, 0, events)
    ensures events == []
  {
    MalformedFirst(Image([], m), -1, 0, events);
  }

  /** From the start of the buffer, with the default counter, a reader gets exactly the events of the lap the
      writer is in, which began with event b: those since then, or the whole lap when it is just complete. */
  lemma ReadsCurrentLap(log: seq<Event>, m: nat, b: nat, events: seq<Event>)
    requires m > 0 && StartsLap(b, m) && WellFormed(log) && Parsed(Image(log, m), -1, 0, events)
    requires if log == [] then b == 0 else b < |log| <= b + m
    ensures events == log[b..]
  {
    hide StartsLap, Readable, StopsAt, Parsed, Image, Holds;
    if log == [] {
      NothingWritten(m, events);
    } else {
      ImageHolds(log, m, b, 0, |log| - b);
      HeldIsReadable(Image(log, m), log, b, 0, |log| - b, -1);
      HeldStops(log, m, b, 0, |log| - b, -1);
      ParsedUnique(Image(log, m), -1, 0, |log| - b, events);
    }
  }

  /** A reader that is at most one buffer behind catches up with two polls and misses nothing. */
  lemma TwoPollsCatchUp(log: seq<Event>, m: nat, b: nat, o: nat, r: nat, first: seq<Event>, second: seq<Event>)
    requires o < m && StartsLap(b, m) && r == b + o && r <= |log| <= r + m && WellFormed(log)
    requires Parsed(Image(log, m), r, o, first)
    requires o + |first| == m ==> Parsed(Image(log, m), r + |first|, 0, second)
    requires o + |first| < m ==> Parsed(Image(log, m), r + |first|, o + |first|, second)
    ensures first + second == log[r..]
  {
    hide Parsed, StartsLap, Image;
    ReadsOn(log, m, b, o, r, first);
    if o + |first| == m {
      NextLap(b, m);
      ReadsOn(log, m, b + m, 0, b + m, second);
    } else {
      ReadsOn(log, m, b, o + |first|, r + |first|, second);
    }
  }

  // ----- the class

  class Buffer {
    const mData: array<Slot>
    var mWritePos: nat
    var mCounter: int
    ghost var log: seq<Event>

    ghost predicate Valid()
      reads this, mData
    {
      && mData[..] == Image(log, mData.Length)
      && mCounter == |log| + 1 && mCounter <= INT32_MAX
      && (mData.Length == 0 ==> log == [])
      && mWritePos == if mData.Length == 0 then 0 else |log| % mData.Length
    }

    constructor (data: array<Slot>)
      modifies data
      ensures mData == data && Valid() && log == []
    {
      mData := data;
      mWritePos, mCounter, log := 0, 1, [];
      new;
      for i := 0 to data.Length
        invariant forall j :: 0 <= j < i ==> data[j] == EMPTY
        invariant mData == data && mWritePos == 0 && mCounter == 1 && log == []
      {
        data[i] := EMPTY;
      }
      assert data[..] == Image([], data.Length);
    }

    /** Appends the events to the ring. The counter is an int32_t: past INT32_MAX its increment is undefined. */
    method Write(events: seq<Event>)
      requires Valid() && |log| + |events| < INT32_MAX
      modifies this, mData
      ensures Valid()
      ensures log == if mData.Length == 0 then old(log) else old(log) + events
    {
      if mData.Length == 0 {
        return;
      }
      for i := 0 to |events|
        invariant Valid() && log == old(log) + events[..i]
      {
        WriteOne(events[i]);
        assert old(log) + events[..i + 1] == old(log) + events[..i] + [events[i]];
      }
      assert events[..|events|] == events;
    }

    method WriteOne(e: Event)
      requires Valid() && mData.Length > 0 && |log| + 1 < INT32_MAX
      modifies this, mData
      ensures Valid() && log == old(log) + [e]
    {
      WriteStep(log, mData.Length, e);
      DivMod(|log|, mData.Length);
      NextQuotient(|log|, mData.Length);
      mData[mWritePos] := Slot(e, mCounter);
      mCounter := mCounter + 1;
      log := log + [e];
      mWritePos := mWritePos + 1;
      if mWritePos >= mData.Length {
        mWritePos := 0;
      }
    }
  }
}
