/** The direct-report tables of the sub-HAL (SensorsSubHal.cpp): the HAL-level table of channels with a rate per
    sensor, and the per-sensor tables of channels it must agree with. */
module DirectReport {
  import opened Basics
  import S = SubHalSensor

  /** What the sensor's flags say about direct reports. */
  datatype Info = Info(ashmem: bool, maxRate: int)

  datatype DirectChannel = DirectChannel(sensorHandles: seq<int>, rateNs: map<int, int>, sampleCount: map<int, int>)

  datatype RateLevel = STOP | NORMAL | FAST | VERY_FAST | UNKNOWN

  datatype Result = OK | BAD_VALUE | NO_MEMORY | INVALID_OPERATION

  datatype Reply = Reply(result: Result, handle: int)

  datatype State = State(
    infos: map<int, Info>,
    sensors: map<int, S.State>,
    channels: map<int, DirectChannel>,
    nextHandle: nat)

  const RATE_FAST := 2
  const RATE_VERY_FAST := 3

  /** The period a rate level stands for, if the sensor supports it. */
  function PeriodOf(rate: RateLevel, maxRate: int): Option<int> {
    match rate
    case STOP => Some(0)
    case NORMAL => Some(20000000)
    case FAST => if maxRate < RATE_FAST then None else Some(5000000)
    case VERY_FAST => if maxRate < RATE_VERY_FAST then None else Some(1250000)
    case UNKNOWN => None
  }

  // ----- one sensor of a table, and all of them in turn

  ghost function RemoveOne(sensors: map<int, S.State>, c: int, s: int): map<int, S.State> {
    if s in sensors then sensors[s := S.AfterRemove(sensors[s], c)] else sensors
  }

  ghost function RemoveAll(sensors: map<int, S.State>, c: int, handles: seq<int>): map<int, S.State>
    decreases |handles|
  {
    if handles == [] then sensors
    else RemoveOne(RemoveAll(sensors, c, handles[..|handles| - 1]), c, handles[|handles| - 1])
  }

  /** The channels below `end`, in the order of their handles. */
  ghost function RemoveChannels(sensors: map<int, S.State>, channels: map<int, DirectChannel>, end: nat): map<int, S.State>
    decreases end
  {
    if end == 0 then sensors
    else
      var rest := RemoveChannels(sensors, channels, end - 1);
      if end - 1 in channels then RemoveAll(rest, end - 1, channels[end - 1].sensorHandles) else rest
  }

  ghost function StopOne(t: State, c: int, s: int): State
    requires c in t.channels
  {
    if s !in t.sensors then t
    else
      var ch := t.channels[c];
      t.(sensors := t.sensors[s := S.AfterStop(t.sensors[s], c)],
         channels := t.channels[c := ch.(rateNs := ch.rateNs[s := 0])])
  }

  ghost function StopAll(t: State, c: int, handles: seq<int>): (u: State)
    requires c in t.channels
    ensures c in u.channels
    decreases |handles|
  {
    if handles == [] then t else StopOne(StopAll(t, c, handles[..|handles| - 1]), c, handles[|handles| - 1])
  }

  // ----- the calls

  function AfterRegister(t: State, outcome: Result): State {
    if outcome == OK then
      t.(channels := t.channels[t.nextHandle := DirectChannel([], map[], map[])], nextHandle := t.nextHandle + 1)
    else t
  }

  ghost function AfterUnregister(t: State, c: int): State {
    var sensors := if c in t.channels then RemoveAll(t.sensors, c, t.channels[c].sensorHandles) else t.sensors;
    t.(sensors := sensors, channels := t.channels - {c})
  }

  ghost function AfterInitialize(t: State): State {
    t.(sensors := RemoveChannels(t.sensors, t.channels, t.nextHandle), channels := map[])
  }

  predicate Configures(t: State, s: int, c: int, rate: RateLevel) {
    && c in t.channels && !(s == -1 && rate == STOP)
    && s in t.sensors && s in t.infos && t.infos[s].ashmem && PeriodOf(rate, t.infos[s].maxRate).Some?
  }

  ghost function SetRate(t: State, s: int, c: int, period: int): State
    requires c in t.channels && s in t.sensors
  {
    var ch := t.channels[c];
    t.(channels := t.channels[c := ch.(sensorHandles := ch.sensorHandles + [s], rateNs := ch.rateNs[s := period])],
       sensors := t.sensors[s := S.AfterAdd(t.sensors[s], c, period)])
  }

  ghost function AfterConfig(t: State, s: int, c: int, rate: RateLevel): State {
    if c in t.channels && s == -1 && rate == STOP then StopAll(t, c, t.channels[c].sensorHandles)
    else if Configures(t, s, c, rate) then SetRate(t, s, c, PeriodOf(rate, t.infos[s].maxRate).value)
    else t
  }

  function ConfigReply(t: State, s: int, c: int, rate: RateLevel): Reply {
    if c in t.channels && s == -1 && rate == STOP then Reply(OK, 0)
    else if Configures(t, s, c, rate) then Reply(OK, s)
    else Reply(BAD_VALUE, -1)
  }

  datatype Call =
    | Register(outcome: Result)
    | Unregister(channel: int)
    | Config(sensor: int, channel: int, rate: RateLevel)
    | Initialize
    | SensorCall(sensor: int, step: S.Step)

  /** Calls that reach a sensor without going through the channel tables are batch and activate. */
  predicate Allowed(call: Call) {
    call.SensorCall? ==> call.step.Batch? || call.step.Activate?
  }

  ghost function Apply(t: State, call: Call): State {
    match call
    case Register(outcome) => AfterRegister(t, outcome)
    case Unregister(c) => AfterUnregister(t, c)
    case Config(s, c, rate) => AfterConfig(t, s, c, rate)
    case Initialize => AfterInitialize(t)
    case SensorCall(s, step) => if s in t.sensors then t.(sensors := t.sensors[s := S.Apply(t.sensors[s], step)]) else t
  }

  // ----- the invariant

  /** The period channel c has for sensor s, zero if none. */
  function RateOf(t: State, s: int, c: int): int {
    if c in t.channels && s in t.channels[c].rateNs then t.channels[c].rateNs[s] else 0
  }

  ghost predicate Marks(x: S.State, c: int) { c in x.channels && x.channels[c].enabled }

  /** Sensor s and channel c agree. */
  ghost predicate Agree(t: State, s: int, c: int)
    requires s in t.sensors
  {
    var x := t.sensors[s];
    && (Marks(x, c) <==> RateOf(t, s, c) > 0)
    && (Marks(x, c) ==> x.channels[c].samplingPeriodNs == RateOf(t, s, c))
    && (c in x.channels ==> c in t.channels && s in t.channels[c].sensorHandles)
    && (c in t.channels && s in t.channels[c].rateNs ==> s in t.channels[c].sensorHandles)
  }

  ghost predicate Mirror(t: State) {
    forall s, c :: s in t.sensors ==> Agree(t, s, c)
  }

  ghost predicate Inv(t: State) {
    && Mirror(t)
    && (forall s :: s in t.sensors ==> S.Inv(t.sensors[s]))
    && (forall c :: c in t.channels ==> 1 <= c < t.nextHandle && t.channels[c].rateNs.Keys <= t.sensors.Keys)
    && t.nextHandle >= 1
  }

  // ----- what the loops do to one sensor

  ghost function Without(x: S.State, c: int, removed: bool): map<int, S.Channel> {
    if removed then x.channels - {c} else x.channels
  }

  lemma {:induction false} RemoveAllEffect(sensors: map<int, S.State>, c: int, handles: seq<int>, s: int)
    requires s in sensors && S.Inv(sensors[s])
    ensures RemoveAll(sensors, c, handles).Keys == sensors.Keys
    ensures S.Inv(RemoveAll(sensors, c, handles)[s])
    ensures RemoveAll(sensors, c, handles)[s].channels == Without(sensors[s], c, s in handles)
    decreases |handles|
  {
    hide S.Inv, S.AfterUpdate;
    if handles != [] {
      var init, last := handles[..|handles| - 1], handles[|handles| - 1];
      assert handles == init + [last];
      RemoveAllEffect(sensors, c, init, s);
      RemoveAllKeys(sensors, c, init);
      var x := RemoveAll(sensors, c, init)[s];
      S.StepKeepsInv(x, S.RemoveDirectChannel(c));
      RemoveChannelsField(x, c);
    }
  }

  lemma RemoveChannelsField(x: S.State, c: int)
    ensures S.AfterRemove(x, c).channels == x.channels - {c}
  {
  }

  lemma {:induction false} RemoveAllKeys(sensors: map<int, S.State>, c: int, handles: seq<int>)
    ensures RemoveAll(sensors, c, handles).Keys == sensors.Keys
    decreases |handles|
  {
    if handles != [] {
      RemoveAllKeys(sensors, c, handles[..|handles| - 1]);
    }
  }

  /** After the loops of initialize a sensor keeps only entries of channels they did not reach. */
  lemma {:induction false} RemoveChannelsEffect(t: State, end: nat, s: int, c: int)
    requires s in t.sensors && S.Inv(t.sensors[s])
    ensures RemoveChannels(t.sensors, t.channels, end).Keys == t.sensors.Keys
    ensures S.Inv(RemoveChannels(t.sensors, t.channels, end)[s])
    ensures c in RemoveChannels(t.sensors, t.channels, end)[s].channels <==>
              c in t.sensors[s].channels && !(0 <= c < end && c in t.channels && s in t.channels[c].sensorHandles)
    decreases end
  {
    hide S.Inv;
    if end > 0 {
      RemoveChannelsEffect(t, end - 1, s, c);
      var rest := RemoveChannels(t.sensors, t.channels, end - 1);
      if end - 1 in t.channels {
        RemoveAllEffect(rest, end - 1, t.channels[end - 1].sensorHandles, s);
      }
    }
  }

  ghost function Stopped(x: S.State, c: int, stopped: bool): map<int, S.Channel> {
    if stopped && c in x.channels then x.channels[c := S.Channel(false, 0)] else x.channels
  }

  lemma StopChannelsField(x: S.State, c: int)
    ensures S.AfterStop(x, c).channels == Stopped(x, c, true)
  {
  }

  lemma {:induction false} StopAllEffect(t: State, c: int, handles: seq<int>, s: int)
    requires c in t.channels && s in t.sensors && S.Inv(t.sensors[s])
    ensures var u := StopAll(t, c, handles);
      && u.infos == t.infos && u.nextHandle == t.nextHandle && u.sensors.Keys == t.sensors.Keys
      && u.channels.Keys == t.channels.Keys
      && (forall d :: d in t.channels && d != c ==> u.channels[d] == t.channels[d])
      && u.channels[c].sensorHandles == t.channels[c].sensorHandles
      && S.Inv(u.sensors[s]) && u.sensors[s].channels == Stopped(t.sensors[s], c, s in handles)
      && (s in u.channels[c].rateNs <==> s in handles || s in t.channels[c].rateNs)
      && (s in u.channels[c].rateNs ==> u.channels[c].rateNs[s] == if s in handles then 0 else t.channels[c].rateNs[s])
    decreases |handles|
  {
    hide S.Inv, S.AfterStop;
    if handles != [] {
      var init, last := handles[..|handles| - 1], handles[|handles| - 1];
      assert handles == init + [last];
      StopAllEffect(t, c, init, s);
      var x := StopAll(t, c, init).sensors[s];
      S.StepKeepsInv(x, S.StopDirectChannel(c));
      StopChannelsField(x, c);
    }
  }

  // ----- every call keeps it

  lemma UnregisterSensor(t: State, c: int, s: int, d: int)
    requires Inv(t) && s in AfterUnregister(t, c).sensors
    ensures s in t.sensors && Agree(AfterUnregister(t, c), s, d) && S.Inv(AfterUnregister(t, c).sensors[s])
  {
    hide S.Inv;
    if c in t.channels {
      RemoveAllKeys(t.sensors, c, t.channels[c].sensorHandles);
      RemoveAllEffect(t.sensors, c, t.channels[c].sensorHandles, s);
    }
    assert Agree(t, s, d) && Agree(t, s, c);
  }

  lemma UnregisterKeepsInv(t: State, c: int)
    requires Inv(t)
    ensures Inv(AfterUnregister(t, c))
  {
    hide S.Inv, Agree;
    var u := AfterUnregister(t, c);
    if c in t.channels {
      RemoveAllKeys(t.sensors, c, t.channels[c].sensorHandles);
    }
    forall s, d | s in u.sensors ensures Agree(u, s, d) {
      UnregisterSensor(t, c, s, d);
    }
    forall s | s in u.sensors ensures S.Inv(u.sensors[s]) {
      UnregisterSensor(t, c, s, 0);
    }
  }

  lemma {:induction false} RemoveChannelsKeys(t: State, end: nat)
    ensures RemoveChannels(t.sensors, t.channels, end).Keys == t.sensors.Keys
    decreases end
  {
    if end > 0 {
      RemoveChannelsKeys(t, end - 1);
      if end - 1 in t.channels {
        RemoveAllKeys(RemoveChannels(t.sensors, t.channels, end - 1), end - 1, t.channels[end - 1].sensorHandles);
      }
    }
  }

  lemma InitializeSensor(t: State, s: int, d: int)
    requires Inv(t) && s in AfterInitialize(t).sensors
    ensures Agree(AfterInitialize(t), s, d) && S.Inv(AfterInitialize(t).sensors[s])
  {
    hide S.Inv;
    RemoveChannelsKeys(t, t.nextHandle);
    RemoveChannelsEffect(t, t.nextHandle, s, d);
    assert Agree(t, s, d);
  }

  lemma InitializeKeepsInv(t: State)
    requires Inv(t)
    ensures Inv(AfterInitialize(t))
  {
    hide S.Inv, Agree;
    var u := AfterInitialize(t);
    forall s, d | s in u.sensors ensures Agree(u, s, d) {
      InitializeSensor(t, s, d);
    }
    forall s | s in u.sensors ensures S.Inv(u.sensors[s]) {
      InitializeSensor(t, s, 0);
    }
  }

  lemma ConfigKeepsInv(t: State, s: int, c: int, rate: RateLevel)
    requires Inv(t)
    ensures Inv(AfterConfig(t, s, c, rate))
  {
    hide S.Inv;
    if c in t.channels && s == -1 && rate == STOP {
      StopAllKeepsInv(t, c);
    } else if Configures(t, s, c, rate) {
      SetRateKeepsInv(t, s, c, PeriodOf(rate, t.infos[s].maxRate).value);
    }
  }

  lemma {:induction false} StopAllKeys(t: State, c: int, handles: seq<int>)
    requires c in t.channels
    ensures var u := StopAll(t, c, handles);
      u.sensors.Keys == t.sensors.Keys && u.channels.Keys == t.channels.Keys && u.nextHandle == t.nextHandle
    decreases |handles|
  {
    if handles != [] {
      StopAllKeys(t, c, handles[..|handles| - 1]);
    }
  }

  lemma StoppedAgrees(t: State, u: State, c: int, s: int, d: int)
    requires c in t.channels && s in t.sensors && Agree(t, s, d) && Agree(t, s, c)
    requires s in u.sensors && u.channels.Keys == t.channels.Keys
    requires forall e :: e in t.channels && e != c ==> u.channels[e] == t.channels[e]
    requires u.channels[c].sensorHandles == t.channels[c].sensorHandles
    requires var stopped := s in t.channels[c].sensorHandles;
      && u.sensors[s].channels == Stopped(t.sensors[s], c, stopped)
      && (s in u.channels[c].rateNs <==> stopped || s in t.channels[c].rateNs)
      && (s in u.channels[c].rateNs ==> u.channels[c].rateNs[s] == if stopped then 0 else t.channels[c].rateNs[s])
    ensures Agree(u, s, d)
  {
  }

  lemma StopAllSensor(t: State, c: int, s: int, d: int)
    requires Inv(t) && c in t.channels && s in t.sensors
    ensures var u := StopAll(t, c, t.channels[c].sensorHandles);
      s in u.sensors && Agree(u, s, d) && S.Inv(u.sensors[s])
  {
    hide S.Inv, StopAll, Agree;
    assert Agree(t, s, d) && Agree(t, s, c);
    StopAllEffect(t, c, t.channels[c].sensorHandles, s);
    hide Inv, Mirror;
    StoppedAgrees(t, StopAll(t, c, t.channels[c].sensorHandles), c, s, d);
  }

  lemma StopAllKeepsInv(t: State, c: int)
    requires Inv(t) && c in t.channels
    ensures Inv(StopAll(t, c, t.channels[c].sensorHandles))
  {
    hide S.Inv, Agree, StopAll;
    var handles := t.channels[c].sensorHandles;
    var u := StopAll(t, c, handles);
    StopAllKeys(t, c, handles);
    StopAllRates(t, c, handles);
    StopAllOthers(t, c, handles);
    forall s, d | s in u.sensors ensures Agree(u, s, d) {
      StopAllSensor(t, c, s, d);
    }
    forall s | s in u.sensors ensures S.Inv(u.sensors[s]) {
      StopAllSensor(t, c, s, 0);
    }
  }

  lemma {:induction false} StopAllRates(t: State, c: int, handles: seq<int>)
    requires c in t.channels && t.channels[c].rateNs.Keys <= t.sensors.Keys
    ensures StopAll(t, c, handles).channels[c].rateNs.Keys <= t.sensors.Keys
    decreases |handles|
  {
    if handles != [] {
      StopAllKeys(t, c, handles[..|handles| - 1]);
      StopAllRates(t, c, handles[..|handles| - 1]);
    }
  }

  lemma {:induction false} StopAllOthers(t: State, c: int, handles: seq<int>)
    requires c in t.channels
    ensures var u := StopAll(t, c, handles);
      u.channels.Keys == t.channels.Keys && forall d :: d in t.channels && d != c ==> u.channels[d] == t.channels[d]
    decreases |handles|
  {
    if handles != [] {
      StopAllOthers(t, c, handles[..|handles| - 1]);
    }
  }

  lemma AddChannelsField(x: S.State, c: int, period: int)
    ensures S.AfterAdd(x, c, period).channels
         == x.channels[c := if period == 0 then S.Channel(false, 0) else S.Channel(true, period)]
  {
  }

  lemma SetRateKeepsInv(t: State, s: int, c: int, period: int)
    requires Inv(t) && c in t.channels && s in t.sensors && period >= 0
    ensures Inv(SetRate(t, s, c, period))
  {
    hide S.Inv, S.AfterAdd;
    var u := SetRate(t, s, c, period);
    S.StepKeepsInv(t.sensors[s], S.AddDirectChannel(c, period));
    AddChannelsField(t.sensors[s], c, period);
    forall r, d | r in u.sensors ensures Agree(u, r, d) {
      assert Agree(t, r, d);
    }
  }

  // ----- what the calls are for

  ghost predicate OtherRatesKept(t: State, u: State, s: int, c: int) {
    forall r, d :: r != s || d != c ==> RateOf(u, r, d) == RateOf(t, r, d)
  }

  ghost predicate OtherChannelsKept(t: State, u: State, c: int) {
    forall r, d :: d != c ==> RateOf(u, r, d) == RateOf(t, r, d)
  }

  /** The call asks for all sensors of a channel to stop. */
  predicate AsksToStopAll(s: int, rate: RateLevel) { s == -1 && rate == STOP }

  /** A configuration is refused exactly for an unknown channel or sensor, a sensor without support for this kind of
      memory, or a level that the sensor does not support; a refusal changes nothing. */
  lemma ConfigRefusedExactly(t: State, s: int, c: int, rate: RateLevel)
    ensures var r := ConfigReply(t, s, c, rate);
      && (r.result == OK <==>
            && c in t.channels
            && (|| AsksToStopAll(s, rate)
                || (&& s in t.sensors && s in t.infos && t.infos[s].ashmem && rate != UNKNOWN
                    && (rate == FAST ==> t.infos[s].maxRate >= 2) && (rate == VERY_FAST ==> t.infos[s].maxRate >= 3))))
      && (r.result == OK ==> r.handle == if AsksToStopAll(s, rate) then 0 else s)
      && (r.result != OK ==> r == Reply(BAD_VALUE, -1) && AfterConfig(t, s, c, rate) == t)
  {
  }

  /** An accepted configuration of one sensor gives the channel the period of the level for it, in both tables, and
      leaves every other rate alone. */
  lemma ConfigTakesEffect(t: State, s: int, c: int, rate: RateLevel)
    requires Inv(t) && ConfigReply(t, s, c, rate).result == OK && !AsksToStopAll(s, rate)
    ensures var u := AfterConfig(t, s, c, rate);
      && (rate == STOP ==> RateOf(u, s, c) == 0)
      && (rate == NORMAL ==> RateOf(u, s, c) == 20000000)
      && (rate == FAST ==> RateOf(u, s, c) == 5000000)
      && (rate == VERY_FAST ==> RateOf(u, s, c) == 1250000)
      && OtherRatesKept(t, u, s, c)
      && s in u.sensors && (Marks(u.sensors[s], c) <==> rate != STOP)
      && (rate != STOP ==> u.sensors[s].channels[c].samplingPeriodNs == RateOf(u, s, c))
  {
    hide S.Inv, S.AfterAdd, Mirror;
    AddChannelsField(t.sensors[s], c, PeriodOf(rate, t.infos[s].maxRate).value);
  }

  /** Stopping all sensors of a channel leaves it without a rate for any sensor, and no sensor with it enabled. */
  lemma StopAllTakesEffect(t: State, c: int)
    requires Inv(t) && c in t.channels
    ensures var u := AfterConfig(t, -1, c, STOP);
      && (forall r :: RateOf(u, r, c) == 0)
      && OtherChannelsKept(t, u, c)
      && u.sensors.Keys == t.sensors.Keys && forall r :: r in u.sensors ==> !Marks(u.sensors[r], c)
  {
    hide S.Inv, StopAll, Inv, Marks;
    var u := AfterConfig(t, -1, c, STOP);
    StopAllKeys(t, c, t.channels[c].sensorHandles);
    StopAllOthers(t, c, t.channels[c].sensorHandles);
    forall r ensures RateOf(u, r, c) == 0 && (r in u.sensors ==> !Marks(u.sensors[r], c)) {
      StopAllOf(t, c, r);
    }
  }

  lemma StopAllOf(t: State, c: int, r: int)
    requires Inv(t) && c in t.channels
    ensures var u := AfterConfig(t, -1, c, STOP);
      RateOf(u, r, c) == 0 && (r in u.sensors ==> !Marks(u.sensors[r], c))
  {
    hide S.Inv, StopAll;
    var handles := t.channels[c].sensorHandles;
    StopAllKeys(t, c, handles);
    if r in t.sensors {
      StopAllEffect(t, c, handles, r);
      StopAllSensor(t, c, r, c);
      assert Agree(t, r, c);
    } else {
      StopAllRates(t, c, handles);
    }
  }

  /** An unregistered channel is gone from both tables, and nothing else is. */
  lemma UnregisterTakesEffect(t: State, c: int)
    requires Inv(t)
    ensures var u := AfterUnregister(t, c);
      && u.channels == t.channels - {c} && u.nextHandle == t.nextHandle
      && (forall r :: RateOf(u, r, c) == 0)
      && OtherChannelsKept(t, u, c)
      && u.sensors.Keys == t.sensors.Keys
      && forall r :: r in u.sensors ==> u.sensors[r].channels == t.sensors[r].channels - {c}
  {
    hide S.Inv, Mirror;
    if c in t.channels {
      RemoveAllKeys(t.sensors, c, t.channels[c].sensorHandles);
    }
    forall r | r in t.sensors ensures AfterUnregister(t, c).sensors[r].channels == t.sensors[r].channels - {c} {
      UnregisterOf(t, c, r);
    }
  }

  lemma UnregisterOf(t: State, c: int, r: int)
    requires Inv(t) && r in t.sensors
    ensures r in AfterUnregister(t, c).sensors
    ensures AfterUnregister(t, c).sensors[r].channels == t.sensors[r].channels - {c}
  {
    hide S.Inv;
    assert Agree(t, r, c);
    if c in t.channels {
      RemoveAllEffect(t.sensors, c, t.channels[c].sensorHandles, r);
    }
  }

  /** A registered channel is new and has no rate for any sensor. */
  lemma RegisterTakesEffect(t: State)
    requires Inv(t)
    ensures var u, c := AfterRegister(t, OK), t.nextHandle;
      && c !in t.channels && u.channels.Keys == t.channels.Keys + {c} && u.sensors == t.sensors
      && (forall r, d :: RateOf(u, r, d) == RateOf(t, r, d))
      && forall r :: RateOf(u, r, c) == 0
  {
    hide S.Inv, Mirror;
  }

  /** Once no channel is registered no sensor has an entry for any. */
  lemma NoChannelsLeft(t: State)
    requires Inv(t) && t.channels == map[]
    ensures forall r :: r in t.sensors ==> t.sensors[r].channels == map[]
  {
    hide S.Inv;
    forall r | r in t.sensors ensures t.sensors[r].channels == map[] {
      forall c ensures c !in t.sensors[r].channels {
        assert Agree(t, r, c);
      }
    }
  }

  lemma CallKeepsInv(t: State, call: Call)
    requires Inv(t) && Allowed(call)
    ensures Inv(Apply(t, call))
  {
    hide S.Inv;
    match call
    case Register(outcome) =>
      var u := AfterRegister(t, outcome);
      forall s, d | s in u.sensors ensures Agree(u, s, d) {
        assert Agree(t, s, d);
      }
    case Unregister(c) => UnregisterKeepsInv(t, c);
    case Config(s, c, rate) => ConfigKeepsInv(t, s, c, rate);
    case Initialize => InitializeKeepsInv(t);
    case SensorCall(s, step) =>
      if s in t.sensors {
        SensorCallKeepsInv(t, s, step);
      }
  }

  lemma SensorCallKeepsInv(t: State, s: int, step: S.Step)
    requires Inv(t) && s in t.sensors && (step.Batch? || step.Activate?)
    ensures Inv(t.(sensors := t.sensors[s := S.Apply(t.sensors[s], step)]))
  {
    var u := t.(sensors := t.sensors[s := S.Apply(t.sensors[s], step)]);
    S.StepKeepsInv(t.sensors[s], step);
    forall r, d | r in u.sensors ensures Agree(u, r, d) {
      assert Agree(t, r, d);
    }
  }

  /** The sample counts of the channels play no part in the agreement of the tables. */
  lemma CountsDoNotMatter(t: State, u: State)
    requires Inv(t) && u.infos == t.infos && u.sensors == t.sensors && u.nextHandle == t.nextHandle
    requires u.channels.Keys == t.channels.Keys
    requires forall c :: c in t.channels ==>
               u.channels[c].sensorHandles == t.channels[c].sensorHandles && u.channels[c].rateNs == t.channels[c].rateNs
    ensures Inv(u)
  {
    hide S.Inv;
    forall s, c | s in u.sensors ensures Agree(u, s, c) {
      assert Agree(t, s, c);
    }
  }

  // ----- over whole runs

  ghost function Run(t: State, calls: seq<Call>): State
    decreases |calls|
  {
    if calls == [] then t else Run(Apply(t, calls[0]), calls[1..])
  }

  lemma {:induction false} RunKeepsInv(t: State, calls: seq<Call>)
    requires Inv(t) && forall i :: 0 <= i < |calls| ==> Allowed(calls[i])
    ensures Inv(Run(t, calls))
    decreases |calls|
  {
    if calls != [] {
      CallKeepsInv(t, calls[0]);
      RunKeepsInv(Apply(t, calls[0]), calls[1..]);
    }
  }

  /** The sensors of a new sub-HAL hold no channels, and no channel is registered. */
  ghost predicate IsInitial(t: State) {
    && t.channels == map[] && t.nextHandle == 1
    && forall s :: s in t.sensors ==> S.Inv(t.sensors[s]) && t.sensors[s].channels == map[]
  }

  /** What the invariant says about sensor s. */
  ghost predicate TablesAgree(u: State, s: int)
    requires s in u.sensors
  {
    var x := u.sensors[s];
    && (forall c :: Marks(x, c) <==> RateOf(u, s, c) > 0)
    && (forall c :: Marks(x, c) ==> x.channels[c].samplingPeriodNs == RateOf(u, s, c))
    && (forall c :: c in x.channels ==> c in u.channels)
    && (x.directEnabled <==> exists c :: RateOf(u, s, c) > 0)
    && (forall c :: RateOf(u, s, c) > 0 ==> x.directRateNs <= RateOf(u, s, c))
    && (x.directRateNs == S.INT64_MAX || exists c :: RateOf(u, s, c) == x.directRateNs && RateOf(u, s, c) > 0)
  }

  lemma DerivedRate(u: State, s: int)
    requires Inv(u) && s in u.sensors
    ensures var x := u.sensors[s];
      && (x.directEnabled <==> exists c :: Marks(x, c))
      && (forall c :: Marks(x, c) ==> x.directRateNs <= x.channels[c].samplingPeriodNs)
      && (x.directRateNs == S.INT64_MAX || exists c :: Marks(x, c) && x.channels[c].samplingPeriodNs == x.directRateNs)
  {
    var x := u.sensors[s];
    assert S.Inv(x) && S.IsMinRate(x.channels, x.directRateNs);
    if x.directEnabled {
      var c :| c in x.channels && x.channels[c].enabled;
      assert Marks(x, c);
    }
    if x.directRateNs != S.INT64_MAX {
      var c :| c in x.channels && x.channels[c].enabled && x.channels[c].samplingPeriodNs == x.directRateNs;
      assert Marks(x, c);
    }
  }

  lemma InvMeans(u: State, s: int)
    requires Inv(u) && s in u.sensors
    ensures TablesAgree(u, s)
  {
    hide S.Inv, RateOf;
    var x := u.sensors[s];
    DerivedRate(u, s);
    forall c
      ensures Marks(x, c) <==> RateOf(u, s, c) > 0
      ensures Marks(x, c) ==> x.channels[c].samplingPeriodNs == RateOf(u, s, c)
      ensures c in x.channels ==> c in u.channels
    {
      assert Agree(u, s, c);
    }
  }

  lemma InitialInv(t: State)
    requires IsInitial(t)
    ensures Inv(t)
  {
  }

  /** After every sequence of calls on a new sub-HAL: sensor s marks channel c enabled with period r iff c is
      registered and its rate for s is r > 0, s has no entry for an unregistered channel, and the rate and the
      flag each sensor derives are the minimum over and the existence of the positive rates. */
  lemma TablesAlwaysAgree(t: State, calls: seq<Call>, s: int)
    requires IsInitial(t) && forall i :: 0 <= i < |calls| ==> Allowed(calls[i])
    requires s in Run(t, calls).sensors
    ensures TablesAgree(Run(t, calls), s)
  {
    InitialInv(t);
    RunKeepsInv(t, calls);
    InvMeans(Run(t, calls), s);
  }
}
