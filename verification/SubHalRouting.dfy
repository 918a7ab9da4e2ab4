/** Sensor handles across sub-HALs (HalProxy.cpp, HalProxyCallback.cpp): the sub-HAL index in the first byte of a
    handle, the sensor list built from it, and the events tagged with it. int32_t handles are 32-bit vectors;
    size_t has 64 bits. */
module SubHalRouting {
  import opened Basics

  const HANDLE_BITS: bv32 := 0x00ff_ffff
  const INDEX_BITS: bv32 := 0xff00_0000
  const SIGN_BIT: bv32 := 0x8000_0000

  const WAKE_UP: bv32 := 0x1
  const DIRECT_BITS: bv32 := 0xf80

  function SetSubHalIndex(handle: bv32, index: bv32): bv32 { handle | (index << 24) }

  /** The arithmetic shift of a negative handle gives a negative number, which becomes a huge size_t. */
  function ExtractSubHalIndex(handle: bv32): nat {
    if handle & SIGN_BIT != 0 then 0xffff_ffff_ffff_ff00 + (handle >> 24) as nat else (handle >> 24) as nat
  }

  function ClearSubHalIndex(handle: bv32): bv32 { handle & HANDLE_BITS }

  predicate SubHalIndexIsClear(handle: bv32) { handle & INDEX_BITS == 0 }

  predicate IsSubHalIndexValid(handle: bv32, count: nat) { ExtractSubHalIndex(handle) < count }

  // ----- handles

  lemma TagBits(handle: bv32, index: bv32)
    requires SubHalIndexIsClear(handle) && index < 128
    ensures SetSubHalIndex(handle, index) & SIGN_BIT == 0 && SetSubHalIndex(handle, index) >> 24 == index
    ensures ClearSubHalIndex(SetSubHalIndex(handle, index)) == handle
  {
  }

  lemma ClearIsClear(handle: bv32)
    ensures SubHalIndexIsClear(ClearSubHalIndex(handle))
  {
  }

  lemma Retag(handle: bv32)
    ensures SetSubHalIndex(ClearSubHalIndex(handle), handle >> 24) == handle
  {
  }

  lemma LargeIndexBits(handle: bv32, index: bv32)
    requires SubHalIndexIsClear(handle) && index >= 128
    ensures var tagged := SetSubHalIndex(handle, index); tagged & SIGN_BIT != 0 || tagged >> 24 != index
  {
  }

  /** A listed handle leads back to its sub-HAL and its original handle if and only if the index is below 128. */
  lemma RoutesBackExactly(handle: bv32, index: bv32)
    requires SubHalIndexIsClear(handle)
    ensures ExtractSubHalIndex(SetSubHalIndex(handle, index)) == index as nat <==> index < 128
    ensures index < 128 ==> ClearSubHalIndex(SetSubHalIndex(handle, index)) == handle
  {
    var tagged := SetSubHalIndex(handle, index);
    if index < 128 {
      TagBits(handle, index);
    } else {
      LargeIndexBits(handle, index);
      if tagged & SIGN_BIT == 0 && ExtractSubHalIndex(tagged) == index as nat {
        SameNumber(tagged >> 24, index);
      }
    }
  }

  lemma SameNumber(a: bv32, b: bv32)
    requires a as nat == b as nat
    ensures a == b
  {
    assert (a as nat) as bv32 == a && (b as nat) as bv32 == b;
  }

  /** Any int32 handle is rejected, or accepted and then exactly the tagged form of what the sub-HAL is given. */
  lemma AcceptedSafely(handle: bv32, count: nat)
    requires count <= 128
    ensures IsSubHalIndexValid(handle, count) ==>
              && handle & SIGN_BIT == 0 && ExtractSubHalIndex(handle) == (handle >> 24) as nat
              && SubHalIndexIsClear(ClearSubHalIndex(handle))
              && SetSubHalIndex(ClearSubHalIndex(handle), handle >> 24) == handle
  {
    ClearIsClear(handle);
    Retag(handle);
  }

  /** Handles of different sub-HALs, or different handles of one, never collide. */
  lemma NoCollision(h: bv32, i: bv32, h': bv32, i': bv32)
    requires SubHalIndexIsClear(h) && SubHalIndexIsClear(h') && i < 128 && i' < 128
    requires SetSubHalIndex(h, i) == SetSubHalIndex(h', i')
    ensures h == h' && i == i'
  {
    TagBits(h, i);
    TagBits(h', i');
  }

  // ----- the sensor list

  datatype SensorInfo = SensorInfo(sensorHandle: bv32, flags: bv32, name: string)

  /** The handle under which sub-HAL `index` is listed; size_t is truncated to int32_t. */
  function Tag(handle: bv32, index: nat): bv32 { SetSubHalIndex(handle, (index % 0x1_0000_0000) as bv32) }

  predicate IsDirect(flags: bv32) { flags & DIRECT_BITS != 0 }

  function WithoutDirect(flags: bv32): bv32 { flags & !DIRECT_BITS }

  /** The key of mSensors. */
  datatype Handle = Handle(bits: bv32)

  /** mSensors and mDirectChannelSubHal. */
  datatype Listing = Listing(sensors: map<Handle, SensorInfo>, direct: Option<nat>)

  /** setDirectChannelFlags: the flags a sensor keeps, given the sub-HAL chosen so far. */
  function KeptFlags(direct: Option<nat>, index: nat, flags: bv32): bv32 {
    if direct.None? || direct.value == index then flags else WithoutDirect(flags)
  }

  function Chosen(direct: Option<nat>, index: nat, flags: bv32): Option<nat> {
    if direct.None? && IsDirect(flags) then Some(index) else direct
  }

  function AfterSensor(l: Listing, index: nat, s: SensorInfo): Listing {
    if !SubHalIndexIsClear(s.sensorHandle) then l
    else
      var handle := Tag(s.sensorHandle, index);
      Listing(l.sensors[Handle(handle) := s.(sensorHandle := handle, flags := KeptFlags(l.direct, index, s.flags))],
              Chosen(l.direct, index, s.flags))
  }

  function AfterSubHal(l: Listing, index: nat, sensors: seq<SensorInfo>): Listing
    decreases |sensors|
  {
    if sensors == [] then l
    else AfterSensor(AfterSubHal(l, index, sensors[..|sensors| - 1]), index, sensors[|sensors| - 1])
  }

  function AfterSubHals(subHals: seq<seq<SensorInfo>>): Listing
    decreases |subHals|
  {
    if subHals == [] then Listing(map[], None)
    else AfterSubHal(AfterSubHals(subHals[..|subHals| - 1]), |subHals| - 1, subHals[|subHals| - 1])
  }

  class HalProxySensors {
    var mSensors: map<Handle, SensorInfo>
    var mDirectChannelSubHal: Option<nat>

    function Abs(): Listing
      reads this
    {
      Listing(mSensors, mDirectChannelSubHal)
    }

    constructor ()
      ensures Abs() == Listing(map[], None)
    {
      mSensors, mDirectChannelSubHal := map[], None;
    }

    method SetDirectChannelFlags(sensor: SensorInfo, subHal: nat) returns (s: SensorInfo)
      modifies this`mDirectChannelSubHal
      ensures s == sensor.(flags := KeptFlags(old(mDirectChannelSubHal), subHal, sensor.flags))
      ensures mDirectChannelSubHal == Chosen(old(mDirectChannelSubHal), subHal, sensor.flags)
    {
      hide IsDirect, WithoutDirect;
      s := sensor;
      var sensorSupportsDirectChannel := IsDirect(sensor.flags);
      if mDirectChannelSubHal.None? && sensorSupportsDirectChannel {
        mDirectChannelSubHal := Some(subHal);
      } else if mDirectChannelSubHal.Some? && mDirectChannelSubHal.value != subHal {
        s := s.(flags := WithoutDirect(s.flags));
      }
    }

    method InitializeSensorList(subHals: seq<seq<SensorInfo>>)
      requires Abs() == Listing(map[], None)
      modifies this
      ensures Abs() == AfterSubHals(subHals)
    {
      hide AfterSensor;
      for i := 0 to |subHals|
        invariant Abs() == AfterSubHals(subHals[..i])
      {
        assert subHals[..i + 1][..i] == subHals[..i];
        ListSubHal(i, subHals[i]);
      }
      assert subHals[..|subHals|] == subHals;
    }

    method ListSubHal(index: nat, list: seq<SensorInfo>)
      modifies this
      ensures Abs() == AfterSubHal(old(Abs()), index, list)
    {
      hide Tag, SubHalIndexIsClear, IsDirect, WithoutDirect;
      ghost var before := Abs();
      for j := 0 to |list|
        invariant Abs() == AfterSubHal(before, index, list[..j])
      {
        assert list[..j + 1][..j] == list[..j];
        var sensor := list[j];
        if SubHalIndexIsClear(sensor.sensorHandle) {
          sensor := sensor.(sensorHandle := Tag(sensor.sensorHandle, index));
          sensor := SetDirectChannelFlags(sensor, index);
          mSensors := mSensors[Handle(sensor.sensorHandle) := sensor];
        }
      }
      assert list[..|list|] == list;
    }
  }

  // ----- what the list holds

  ghost predicate Declares(subHals: seq<seq<SensorInfo>>, i: nat, s: SensorInfo) {
    i < |subHals| && s in subHals[i] && SubHalIndexIsClear(s.sensorHandle)
  }

  /** Sensor x of the list is sensor s of sub-HAL i, with direct-channel flags only if i is the chosen one. */
  ghost predicate IsEntry(x: SensorInfo, s: SensorInfo, i: nat, direct: Option<nat>) {
    && x.sensorHandle == Tag(s.sensorHandle, i) && x.name == s.name
    && x.flags == if direct == Some(i) then s.flags else WithoutDirect(s.flags)
  }

  /** What the listing of some sub-HALs and of some sensors of the next one promises. */
  ghost predicate Faithful(l: Listing, subHals: seq<seq<SensorInfo>>) {
    // every entry is a declared sensor, under its own handle
    && (forall h :: h in l.sensors ==>
          exists i, s :: Declares(subHals, i, s) && IsEntry(l.sensors[h], s, i, l.direct) && h == Handle(Tag(s.sensorHandle, i)))
    // every declared sensor has an entry
    && (forall i, s :: Declares(subHals, i, s) ==> Handle(Tag(s.sensorHandle, i)) in l.sensors)
    // the chosen sub-HAL is the first that declares a direct-capable sensor
    && (l.direct.Some? ==> exists s :: Declares(subHals, l.direct.value, s) && IsDirect(s.flags))
    && (forall i, s :: Declares(subHals, i, s) && IsDirect(s.flags) ==> l.direct.Some? && l.direct.value <= i)
  }

  lemma NotDirect(flags: bv32)
    ensures !IsDirect(flags) ==> WithoutDirect(flags) == flags
    ensures !IsDirect(WithoutDirect(flags))
    ensures IsWakeUp(WithoutDirect(flags)) <==> IsWakeUp(flags)
  {
  }

  /** One more sensor of the last sub-HAL. */
  lemma SensorKeepsFaithful(l: Listing, before: seq<seq<SensorInfo>>, list: seq<SensorInfo>, s: SensorInfo)
    requires Faithful(l, before + [list])
    ensures Faithful(AfterSensor(l, |before|, s), before + [list + [s]])
  {
    hide Tag, SubHalIndexIsClear, IsDirect, WithoutDirect;
    var n := |before|;
    var u, now := before + [list], before + [list + [s]];
    var t := AfterSensor(l, n, s);
    NotDirect(s.flags);
    forall i, x ensures Declares(now, i, x) <==> Declares(u, i, x) || (i == n && x == s && SubHalIndexIsClear(s.sensorHandle)) {
    }
    if SubHalIndexIsClear(s.sensorHandle) {
      assert Declares(now, n, s);
      EntriesKept(l, u, now, t, n, s);
    } else {
      SameDeclarations(l, u, now);
    }
  }

  lemma SameDeclarations(l: Listing, u: seq<seq<SensorInfo>>, now: seq<seq<SensorInfo>>)
    requires Faithful(l, u) && forall i, x :: Declares(now, i, x) <==> Declares(u, i, x)
    ensures Faithful(l, now)
  {
    hide Tag, IsDirect, Declares, IsEntry;
    forall h | h in l.sensors
      ensures exists i, x :: Declares(now, i, x) && IsEntry(l.sensors[h], x, i, l.direct) && h == Handle(Tag(x.sensorHandle, i))
    {
      var i, x :| Declares(u, i, x) && IsEntry(l.sensors[h], x, i, l.direct) && h == Handle(Tag(x.sensorHandle, i));
      assert Declares(now, i, x);
    }
    if l.direct.Some? {
      var x :| Declares(u, l.direct.value, x) && IsDirect(x.flags);
      assert Declares(now, l.direct.value, x);
    }
  }

  lemma EntriesKept(l: Listing, u: seq<seq<SensorInfo>>, now: seq<seq<SensorInfo>>, t: Listing, n: nat, s: SensorInfo)
    requires Faithful(l, u) && n + 1 == |now| == |u| && SubHalIndexIsClear(s.sensorHandle) && t == AfterSensor(l, n, s)
    requires forall i, x :: Declares(now, i, x) <==> Declares(u, i, x) || (i == n && x == s)
    requires l.direct.Some? ==> l.direct.value <= n
    ensures Faithful(t, now)
  {
    hide Tag, SubHalIndexIsClear, IsDirect, WithoutDirect, Declares;
    NotDirect(s.flags);
    assert Declares(now, n, s);
    if l.direct.Some? {
      var x :| Declares(u, l.direct.value, x) && IsDirect(x.flags);
      assert Declares(now, l.direct.value, x);
    }
    forall h | h in t.sensors
      ensures exists i, x :: Declares(now, i, x) && IsEntry(t.sensors[h], x, i, t.direct) && h == Handle(Tag(x.sensorHandle, i))
    {
      if h == Handle(Tag(s.sensorHandle, n)) {
        NewEntry(l, n, s);
        assert Declares(now, n, s);
      } else {
        var i, x :| Declares(u, i, x) && IsEntry(l.sensors[h], x, i, l.direct) && h == Handle(Tag(x.sensorHandle, i));
        assert l.direct.None? ==> !IsDirect(x.flags);
        OldEntry(l.sensors[h], x, i, l.direct, n, s.flags);
        assert Declares(now, i, x);
      }
    }
  }

  lemma NewEntry(l: Listing, n: nat, s: SensorInfo)
    requires SubHalIndexIsClear(s.sensorHandle)
    ensures var t := AfterSensor(l, n, s); var h := Handle(Tag(s.sensorHandle, n));
      h in t.sensors && IsEntry(t.sensors[h], s, n, t.direct)
  {
    hide Tag, SubHalIndexIsClear, IsDirect, WithoutDirect;
    NotDirect(s.flags);
  }

  lemma OldEntry(e: SensorInfo, x: SensorInfo, i: nat, direct: Option<nat>, n: nat, flags: bv32)
    requires IsEntry(e, x, i, direct) && (direct.None? ==> !IsDirect(x.flags))
    ensures IsEntry(e, x, i, Chosen(direct, n, flags))
  {
    hide Tag, IsDirect, WithoutDirect;
    NotDirect(x.flags);
  }

  lemma {:induction false} SubHalKeepsFaithful(l: Listing, before: seq<seq<SensorInfo>>, list: seq<SensorInfo>)
    requires Faithful(l, before + [[]])
    ensures Faithful(AfterSubHal(l, |before|, list), before + [list])
    decreases |list|
  {
    hide Faithful, AfterSensor;
    if list != [] {
      var init, last := list[..|list| - 1], list[|list| - 1];
      SubHalKeepsFaithful(l, before, init);
      SensorKeepsFaithful(AfterSubHal(l, |before|, init), before, init, last);
      assert init + [last] == list;
    }
  }

  lemma EmptySubHal(l: Listing, before: seq<seq<SensorInfo>>)
    requires Faithful(l, before)
    ensures Faithful(l, before + [[]])
  {
    hide IsDirect, SubHalIndexIsClear, Tag, IsEntry;
    forall i, s ensures Declares(before + [[]], i, s) <==> Declares(before, i, s) {
    }
    SameDeclarations(l, before, before + [[]]);
  }

  lemma NothingIsFaithful()
    ensures Faithful(Listing(map[], None), [])
  {
    hide IsDirect, SubHalIndexIsClear, Tag, IsEntry;
  }

  /** After listing, every entry is a declared sensor under its own handle, every declared sensor is listed,
      and only the sensors of the first sub-HAL that has a direct-capable one keep direct-channel flags. */
  lemma {:induction false} ListingIsFaithful(subHals: seq<seq<SensorInfo>>)
    ensures Faithful(AfterSubHals(subHals), subHals)
    decreases |subHals|
  {
    if subHals == [] {
      NothingIsFaithful();
    } else {
      hide Faithful, AfterSubHal;
      var before, list := subHals[..|subHals| - 1], subHals[|subHals| - 1];
      ListingIsFaithful(before);
      EmptySubHal(AfterSubHals(before), before);
      SubHalKeepsFaithful(AfterSubHals(before), before, list);
      assert before + [list] == subHals;
    }
  }

  lemma SmallIndex(i: nat)
    requires i < 128
    ensures ((i % 0x1_0000_0000) as bv32) as nat == i && ((i % 0x1_0000_0000) as bv32) < 128
  {
    assert i % 0x1_0000_0000 == i;
    var b := i as bv32;
    assert b as nat == i;
  }

  lemma TagIs(handle: bv32, i: nat)
    requires i < 128 && SubHalIndexIsClear(handle)
    ensures ExtractSubHalIndex(Tag(handle, i)) == i && ClearSubHalIndex(Tag(handle, i)) == handle
  {
    hide ExtractSubHalIndex, ClearSubHalIndex, SetSubHalIndex, SubHalIndexIsClear;
    SmallIndex(i);
    RoutesBackExactly(handle, (i % 0x1_0000_0000) as bv32);
  }

  /** With at most 128 sub-HALs every listed handle routes to the sub-HAL that declared it, as the handle that
      sub-HAL knows, and what is listed for it is what that sub-HAL declared. */
  lemma ListedHandlesRoute(subHals: seq<seq<SensorInfo>>, h: Handle) returns (i: nat, s: SensorInfo)
    requires |subHals| <= 128 && h in AfterSubHals(subHals).sensors
    ensures IsSubHalIndexValid(h.bits, |subHals|) && i == ExtractSubHalIndex(h.bits) < |subHals|
    ensures s in subHals[i] && s.sensorHandle == ClearSubHalIndex(h.bits)
    ensures IsEntry(AfterSubHals(subHals).sensors[h], s, i, AfterSubHals(subHals).direct)
  {
    hide ClearSubHalIndex, Tag, IsDirect, WithoutDirect, AfterSubHals;
    ListingIsFaithful(subHals);
    var l := AfterSubHals(subHals);
    i, s :| Declares(subHals, i, s) && IsEntry(l.sensors[h], s, i, l.direct) && h == Handle(Tag(s.sensorHandle, i));
    TagIs(s.sensorHandle, i);
  }

  /** Only one sub-HAL's sensors keep direct-channel flags after listing. */
  lemma OneDirectSubHal(subHals: seq<seq<SensorInfo>>, h: Handle)
    requires |subHals| <= 128 && h in AfterSubHals(subHals).sensors
    ensures var l := AfterSubHals(subHals);
      IsDirect(l.sensors[h].flags) ==> l.direct == Some(ExtractSubHalIndex(h.bits))
  {
    hide ExtractSubHalIndex, ClearSubHalIndex, Tag, IsDirect, WithoutDirect, AfterSubHals;
    var i, s := ListedHandlesRoute(subHals, h);
    NotDirect(s.flags);
  }

  // ----- events on their way up

  datatype Event = Event(sensorHandle: bv32, isDynamicMeta: bool, dynamicHandle: bv32, payload: int)

  function Tagged(e: Event, index: nat): Event {
    e.(sensorHandle := Tag(e.sensorHandle, index),
       dynamicHandle := if e.isDynamicMeta then Tag(e.dynamicHandle, index) else e.dynamicHandle)
  }

  /** Event `out` leads back to the sub-HAL with this index and to the sensor of event e there, and so does the dynamic
      sensor that it tells of. */
  ghost predicate RoutesBack(out: Event, e: Event, index: nat) {
    && (SubHalIndexIsClear(e.sensorHandle) ==>
          ExtractSubHalIndex(out.sensorHandle) == index && ClearSubHalIndex(out.sensorHandle) == e.sensorHandle)
    && (e.isDynamicMeta && SubHalIndexIsClear(e.dynamicHandle) ==>
          ExtractSubHalIndex(out.dynamicHandle) == index && ClearSubHalIndex(out.dynamicHandle) == e.dynamicHandle)
  }

  lemma TaggedRoutesBack(e: Event, index: nat)
    requires index < 128
    ensures RoutesBack(Tagged(e, index), e, index)
  {
    hide Tag, SubHalIndexIsClear, ExtractSubHalIndex, ClearSubHalIndex;
    if SubHalIndexIsClear(e.sensorHandle) {
      TagIs(e.sensorHandle, index);
    }
    if SubHalIndexIsClear(e.dynamicHandle) {
      TagIs(e.dynamicHandle, index);
    }
  }

  ghost predicate OnlyTagged(out: Event, e: Event) {
    && ClearSubHalIndex(out.sensorHandle) == ClearSubHalIndex(e.sensorHandle)
    && ClearSubHalIndex(out.dynamicHandle) == ClearSubHalIndex(e.dynamicHandle)
    && (!e.isDynamicMeta ==> out.dynamicHandle == e.dynamicHandle)
    && out.isDynamicMeta == e.isDynamicMeta && out.payload == e.payload
  }

  /** Whatever the handle and the index, tagging keeps the sensor's own bits and touches nothing else. */
  lemma TaggedKeepsRest(e: Event, index: nat)
    ensures OnlyTagged(Tagged(e, index), e)
  {
    hide ClearSubHalIndex, SetSubHalIndex;
    LowBitsKept(e.sensorHandle, (index % 0x1_0000_0000) as bv32);
    LowBitsKept(e.dynamicHandle, (index % 0x1_0000_0000) as bv32);
  }

  lemma LowBitsKept(handle: bv32, index: bv32)
    ensures ClearSubHalIndex(SetSubHalIndex(handle, index)) == ClearSubHalIndex(handle)
  {
  }

  /** getSensorInfo on an unknown handle gives a default entry without flags. */
  function FlagsOf(sensors: map<Handle, SensorInfo>, handle: bv32): bv32 {
    if Handle(handle) in sensors then sensors[Handle(handle)].flags else 0
  }

  predicate IsWakeUp(flags: bv32) { flags & WAKE_UP != 0 }

  function CountWakeUps(sensors: map<Handle, SensorInfo>, events: seq<Event>): nat
    decreases |events|
  {
    if events == [] then 0
    else
      CountWakeUps(sensors, events[..|events| - 1])
      + if IsWakeUp(FlagsOf(sensors, events[|events| - 1].sensorHandle)) then 1 else 0
  }

  method ProcessEvents(sensors: map<Handle, SensorInfo>, index: nat, events: seq<Event>)
    returns (eventsOut: seq<Event>, numWakeUpEvents: nat)
    ensures |eventsOut| == |events| && forall i :: 0 <= i < |events| ==> eventsOut[i] == Tagged(events[i], index)
    ensures numWakeUpEvents == CountWakeUps(sensors, eventsOut)
    // the sub-HAL's index goes into the handle, and the handle of a dynamic sensor that the event tells of
    ensures index < 128 ==> forall i :: 0 <= i < |events| && SubHalIndexIsClear(events[i].sensorHandle) ==>
              && ExtractSubHalIndex(eventsOut[i].sensorHandle) == index
              && ClearSubHalIndex(eventsOut[i].sensorHandle) == events[i].sensorHandle
    ensures index < 128 ==>
              forall i :: 0 <= i < |events| && events[i].isDynamicMeta && SubHalIndexIsClear(events[i].dynamicHandle) ==>
                && ExtractSubHalIndex(eventsOut[i].dynamicHandle) == index
                && ClearSubHalIndex(eventsOut[i].dynamicHandle) == events[i].dynamicHandle
    // and nothing else changes
    ensures forall i :: 0 <= i < |events| ==>
              && ClearSubHalIndex(eventsOut[i].sensorHandle) == ClearSubHalIndex(events[i].sensorHandle)
              && (!events[i].isDynamicMeta ==> eventsOut[i].dynamicHandle == events[i].dynamicHandle)
              && eventsOut[i].isDynamicMeta == events[i].isDynamicMeta && eventsOut[i].payload == events[i].payload
  {
    hide Tag, IsWakeUp, FlagsOf, SubHalIndexIsClear, ExtractSubHalIndex, ClearSubHalIndex;
    numWakeUpEvents := 0;
    eventsOut := [];
    for i := 0 to |events|
      invariant |eventsOut| == i && forall j :: 0 <= j < i ==> eventsOut[j] == Tagged(events[j], index)
      invariant numWakeUpEvents == CountWakeUps(sensors, eventsOut)
    {
      var event := events[i];
      event := event.(sensorHandle := Tag(event.sensorHandle, index));
      if event.isDynamicMeta {
        event := event.(dynamicHandle := Tag(event.dynamicHandle, index));
      }
      assert (eventsOut + [event])[..i] == eventsOut;
      eventsOut := eventsOut + [event];
      if IsWakeUp(FlagsOf(sensors, event.sensorHandle)) {
        numWakeUpEvents := numWakeUpEvents + 1;
      }
    }
    hide Tagged;
    forall i | 0 <= i < |events|
      ensures OnlyTagged(eventsOut[i], events[i]) && (index < 128 ==> RoutesBack(eventsOut[i], events[i], index))
    {
      TaggedKeepsRest(events[i], index);
      if index < 128 {
        TaggedRoutesBack(events[i], index);
      }
    }
  }

  /** The last sensor that the list declares under the handle is a wake-up sensor. */
  predicate LastIsWakeUp(list: seq<SensorInfo>, handle: bv32)
    decreases |list|
  {
    list != []
    && var last := list[|list| - 1];
       if last.sensorHandle == handle then IsWakeUp(last.flags) else LastIsWakeUp(list[..|list| - 1], handle)
  }

  predicate Counted(l: Listing, handle: bv32) { IsWakeUp(FlagsOf(l.sensors, handle)) }

  lemma AfterSensorCounts(l: Listing, i: nat, s: SensorInfo, j: nat, handle: bv32)
    requires i < 128 && j < 128 && SubHalIndexIsClear(handle)
    ensures Counted(AfterSensor(l, i, s), Tag(handle, j))
         == if i == j && s.sensorHandle == handle then IsWakeUp(s.flags) else Counted(l, Tag(handle, j))
  {
    hide Tag, IsDirect, WithoutDirect, SubHalIndexIsClear, ExtractSubHalIndex, ClearSubHalIndex, IsWakeUp;
    TagIs(handle, j);
    NotDirect(s.flags);
    if SubHalIndexIsClear(s.sensorHandle) {
      TagIs(s.sensorHandle, i);
    }
  }

  lemma {:induction false} AfterSubHalCounts(l: Listing, i: nat, list: seq<SensorInfo>, j: nat, handle: bv32)
    requires i < 128 && j < 128 && SubHalIndexIsClear(handle)
    requires i == j ==> Handle(Tag(handle, j)) !in l.sensors
    ensures Counted(AfterSubHal(l, i, list), Tag(handle, j))
         == if i == j then LastIsWakeUp(list, handle) else Counted(l, Tag(handle, j))
    decreases |list|
  {
    hide Tag, IsWakeUp, SubHalIndexIsClear;
    if list == [] {
      NoFlags();
    } else {
      var init, last := list[..|list| - 1], list[|list| - 1];
      AfterSubHalCounts(l, i, init, j, handle);
      AfterSensorCounts(AfterSubHal(l, i, init), i, last, j, handle);
    }
  }

  lemma {:induction false} AfterSubHalsCounts(subHals: seq<seq<SensorInfo>>, j: nat, handle: bv32)
    requires |subHals| <= 128 && j < 128 && SubHalIndexIsClear(handle)
    ensures Counted(AfterSubHals(subHals), Tag(handle, j)) <==> j < |subHals| && LastIsWakeUp(subHals[j], handle)
    decreases |subHals|
  {
    hide Tag, IsWakeUp, SubHalIndexIsClear, LastIsWakeUp, AfterSubHal, ExtractSubHalIndex, ClearSubHalIndex;
    if subHals == [] {
      NoFlags();
    } else {
      var n := |subHals| - 1;
      var l := AfterSubHals(subHals[..n]);
      AfterSubHalsCounts(subHals[..n], j, handle);
      TagIs(handle, j);
      if Handle(Tag(handle, j)) in l.sensors {
        var k, s := ListedHandlesRoute(subHals[..n], Handle(Tag(handle, j)));
      }
      AfterSubHalCounts(l, n, subHals[n], j, handle);
    }
  }

  lemma TagBitsOfAny(handle: bv32, index: bv32)
    ensures ClearSubHalIndex(SetSubHalIndex(handle, index)) == ClearSubHalIndex(handle)
  {
  }

  /** What an event of sub-HAL i counts as, whatever handle it carries. Its tagged handle names one sub-HAL, that
      is i if the handle is clear; the event counts as a wake-up event if and only if the last sensor that this
      sub-HAL declared under the handle's lower bits is a wake-up sensor. */
  lemma WakeUpAsDeclared(subHals: seq<seq<SensorInfo>>, i: nat, handle: bv32)
    requires |subHals| <= 128 && i < |subHals|
    ensures var j := ExtractSubHalIndex(Tag(handle, i));
      && (Counted(AfterSubHals(subHals), Tag(handle, i))
          <==> j < |subHals| && LastIsWakeUp(subHals[j], ClearSubHalIndex(handle)))
      && (SubHalIndexIsClear(handle) ==> j == i && ClearSubHalIndex(handle) == handle)
  {
    hide Tag, ExtractSubHalIndex, ClearSubHalIndex, SubHalIndexIsClear, IsWakeUp, AfterSubHals, LastIsWakeUp, SetSubHalIndex;
    var t := Tag(handle, i);
    var j, low := ExtractSubHalIndex(t), ClearSubHalIndex(handle);
    if SubHalIndexIsClear(handle) { TagIs(handle, i); }
    assert t == SetSubHalIndex(handle, (i % 0x1_0000_0000) as bv32) by { TagIsSet(handle, i); }
    TagBitsOfAny(handle, (i % 0x1_0000_0000) as bv32);
    ClearIsClear(handle);
    if j < |subHals| {
      AcceptedSafely(t, |subHals|);
      RetagIs(low, t >> 24, j);
      AfterSubHalsCounts(subHals, j, low);
    } else {
      if Handle(t) in AfterSubHals(subHals).sensors {
        var k, s := ListedHandlesRoute(subHals, Handle(t));
      }
      NoFlags();
    }
  }

  lemma TagIsSet(handle: bv32, i: nat)
    ensures Tag(handle, i) == SetSubHalIndex(handle, (i % 0x1_0000_0000) as bv32)
  {
  }

  lemma RetagIs(low: bv32, index: bv32, j: nat)
    requires j == index as nat && j < 128
    ensures Tag(low, j) == SetSubHalIndex(low, index)
  {
    hide SetSubHalIndex;
    SmallIndex(j);
    SameNumber((j % 0x1_0000_0000) as bv32, index);
  }

  lemma NoFlags()
    ensures !IsWakeUp(0)
  {
  }
}
