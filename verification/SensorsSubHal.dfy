/** ISensorsSubHalBase (SensorsSubHal.cpp): the methods that keep the channel table and the sensors' own
    tables, each tied to the call it makes in DirectReport, and the decimating writer. */
module SensorsSubHal {
  import S = SubHalSensor
  import D = DirectReport
  import N = Decimation

  /** A write to a channel's shared memory. */
  datatype Write = Write(channel: int, event: N.Event)

  ghost function WritesTo(writes: seq<Write>, c: int): seq<N.Event>
    decreases |writes|
  {
    if writes == [] then []
    else
      var last := writes[|writes| - 1];
      WritesTo(writes[..|writes| - 1], c) + if last.channel == c then [last.event] else []
  }

  lemma WritesToSnoc(writes: seq<Write>, w: Write, c: int)
    ensures WritesTo(writes + [w], c) == if w.channel == c then WritesTo(writes, c) + [w.event] else WritesTo(writes, c)
  {
    assert (writes + [w])[..|writes|] == writes;
  }

  class SensorsSubHal {
    const infos: map<int, D.Info>
    const mSensors: map<int, S.Sensor>
    var mDirectChannels: map<int, D.DirectChannel>
    var mNextChannelHandle: nat

    ghost function SensorStates(): map<int, S.State>
      reads mSensors.Values
    {
      map s | s in mSensors :: mSensors[s].Abs()
    }

    ghost function Abs(): D.State
      reads this, mSensors.Values
    {
      D.State(infos, SensorStates(), mDirectChannels, mNextChannelHandle)
    }

    ghost predicate ValidSensors()
      reads mSensors.Values
    {
      && (forall s, r :: s in mSensors && r in mSensors && s != r ==> mSensors[s] != mSensors[r])
      && (forall s :: s in mSensors ==> mSensors[s].Valid())
    }

    ghost predicate Valid()
      reads this, mSensors.Values
    {
      ValidSensors() && mSensors.Keys <= infos.Keys && D.Inv(Abs())
    }

    constructor (infos: map<int, D.Info>, sensors: map<int, S.Sensor>)
      requires forall s, r :: s in sensors && r in sensors && s != r ==> sensors[s] != sensors[r]
      requires sensors.Keys <= infos.Keys
      requires forall s :: s in sensors ==> sensors[s].Valid() && sensors[s].mDirectChannels == map[]
      ensures Valid() && this.infos == infos && mSensors == sensors && D.IsInitial(Abs())
    {
      this.infos, mSensors := infos, sensors;
      mDirectChannels, mNextChannelHandle := map[], 1;
      new;
      D.InitialInv(Abs());
    }

    lemma StatesAreTheSensors()
      ensures Abs().sensors.Keys == mSensors.Keys
      ensures forall r :: r in mSensors ==> Abs().sensors[r] == mSensors[r].Abs()
    {
    }

    // ----- one sensor of the table

    method RemoveFrom(s: int, channelHandle: int)
      requires ValidSensors()
      modifies mSensors.Values
      ensures ValidSensors()
      ensures SensorStates() == D.RemoveOne(old(SensorStates()), channelHandle, s)
    {
      hide S.Inv, S.AfterUpdate, S.AfterAdd, S.AfterStop, S.AfterRemove, D.Mirror;
      ghost var before := SensorStates();
      if s in mSensors {
        mSensors[s].Remove(channelHandle);
        forall r | r in mSensors && r != s ensures mSensors[r].Abs() == before[r] {
          assert mSensors[r] != mSensors[s];
        }
        assert SensorStates() == before[s := S.AfterRemove(before[s], channelHandle)];
      }
    }

    method RemoveFromAll(handles: seq<int>, channelHandle: int)
      requires ValidSensors()
      modifies mSensors.Values
      ensures ValidSensors()
      ensures SensorStates() == D.RemoveAll(old(SensorStates()), channelHandle, handles)
    {
      hide S.Inv, S.AfterUpdate, S.AfterAdd, S.AfterStop, S.AfterRemove, D.Mirror;
      ghost var before := SensorStates();
      for i := 0 to |handles|
        invariant ValidSensors()
        invariant SensorStates() == D.RemoveAll(before, channelHandle, handles[..i])
      {
        assert handles[..i + 1][..i] == handles[..i];
        RemoveFrom(handles[i], channelHandle);
      }
      assert handles[..|handles|] == handles;
    }

    // ----- the calls

    method RegisterDirectChannel(outcome: D.Result) returns (reply: D.Reply)
      requires Valid()
      modifies this
      ensures Valid() && Abs() == D.Apply(old(Abs()), D.Register(outcome))
      ensures reply == if outcome == D.OK then D.Reply(D.OK, old(mNextChannelHandle)) else D.Reply(outcome, -1)
      ensures outcome == D.OK ==>
                && reply.handle !in old(mDirectChannels) && mDirectChannels.Keys == old(mDirectChannels.Keys) + {reply.handle}
                && forall r :: D.RateOf(Abs(), r, reply.handle) == 0
      ensures outcome != D.OK ==> mDirectChannels == old(mDirectChannels)
    {
      D.CallKeepsInv(Abs(), D.Register(outcome));
      if outcome == D.OK {
        var channelHandle := mNextChannelHandle;
        mNextChannelHandle := mNextChannelHandle + 1;
        mDirectChannels := mDirectChannels[channelHandle := D.DirectChannel([], map[], map[])];
        return D.Reply(D.OK, channelHandle);
      }
      return D.Reply(outcome, -1);
    }

    method UnregisterDirectChannel(channelHandle: int) returns (result: D.Result)
      requires Valid()
      modifies this`mDirectChannels, mSensors.Values
      ensures Valid() && Abs() == D.Apply(old(Abs()), D.Unregister(channelHandle)) && result == D.OK
      ensures mDirectChannels == old(mDirectChannels) - {channelHandle}
      ensures forall r :: r in mSensors ==>
                mSensors[r].mDirectChannels == old(mSensors[r].mDirectChannels) - {channelHandle}
    {
      hide D.Inv, D.AfterUnregister;
      D.UnregisterTakesEffect(Abs(), channelHandle);
      StatesAreTheSensors();
      D.CallKeepsInv(Abs(), D.Unregister(channelHandle));
      DropChannel(channelHandle);
      StatesAreTheSensors();
      return D.OK;
    }

    /** What unregistering does to the two tables. */
    method DropChannel(channelHandle: int)
      requires ValidSensors()
      modifies this`mDirectChannels, mSensors.Values
      ensures ValidSensors() && Abs() == D.AfterUnregister(old(Abs()), channelHandle)
    {
      hide S.Inv, S.AfterUpdate, S.AfterAdd, S.AfterStop, S.AfterRemove, D.RemoveAll;
      if channelHandle in mDirectChannels {
        RemoveFromAll(mDirectChannels[channelHandle].sensorHandles, channelHandle);
      }
      mDirectChannels := mDirectChannels - {channelHandle};
    }

    method Initialize() returns (result: D.Result)
      requires Valid()
      modifies this`mDirectChannels, mSensors.Values
      ensures Valid() && Abs() == D.Apply(old(Abs()), D.Initialize) && result == D.OK && mDirectChannels == map[]
      ensures forall r :: r in mSensors ==> mSensors[r].mDirectChannels == map[]
    {
      hide S.Inv, S.AfterUpdate, S.AfterAdd, S.AfterStop, S.AfterRemove, D.Inv, D.RemoveAll;
      ghost var t := Abs();
      D.CallKeepsInv(t, D.Initialize);
      for c := 0 to mNextChannelHandle
        invariant ValidSensors() && mDirectChannels == t.channels
        invariant SensorStates() == D.RemoveChannels(t.sensors, t.channels, c)
      {
        if c in mDirectChannels {
          RemoveFromAll(mDirectChannels[c].sensorHandles, c);
        }
      }
      mDirectChannels := map[];
      assert Abs() == D.AfterInitialize(t);
      D.NoChannelsLeft(Abs());
      StatesAreTheSensors();
      return D.OK;
    }

    method StopAll(channelHandle: int)
      requires ValidSensors() && channelHandle in mDirectChannels
      modifies this`mDirectChannels, mSensors.Values
      ensures ValidSensors()
      ensures Abs() == D.StopAll(old(Abs()), channelHandle, old(mDirectChannels[channelHandle].sensorHandles))
    {
      hide S.Inv, S.AfterUpdate, S.AfterAdd, S.AfterStop, S.AfterRemove, D.Mirror;
      var handles := mDirectChannels[channelHandle].sensorHandles;
      ghost var t := Abs();
      for i := 0 to |handles|
        invariant ValidSensors() && channelHandle in mDirectChannels
        invariant Abs() == D.StopAll(t, channelHandle, handles[..i])
      {
        assert handles[..i + 1][..i] == handles[..i];
        StopOne(channelHandle, handles[i]);
      }
      assert handles[..|handles|] == handles;
    }

    method StopOne(channelHandle: int, s: int)
      requires ValidSensors() && channelHandle in mDirectChannels
      modifies this`mDirectChannels, mSensors.Values
      ensures ValidSensors() && Abs() == D.StopOne(old(Abs()), channelHandle, s)
    {
      hide S.Inv, S.AfterUpdate, S.AfterAdd, S.AfterStop, S.AfterRemove, D.Mirror;
      if s in mSensors {
        var ch := mDirectChannels[channelHandle];
        ghost var before := SensorStates();
        mDirectChannels := mDirectChannels[channelHandle := ch.(rateNs := ch.rateNs[s := 0])];
        mSensors[s].Stop(channelHandle);
        forall r | r in mSensors && r != s ensures mSensors[r].Abs() == before[r] {
          assert mSensors[r] != mSensors[s];
        }
        assert SensorStates() == before[s := S.AfterStop(before[s], channelHandle)];
      }
    }

    method ConfigDirectReport(s: int, channelHandle: int, rate: D.RateLevel) returns (reply: D.Reply)
      requires Valid()
      modifies this`mDirectChannels, mSensors.Values
      ensures Valid() && Abs() == D.Apply(old(Abs()), D.Config(s, channelHandle, rate))
      ensures reply == D.ConfigReply(old(Abs()), s, channelHandle, rate)
      ensures reply.result != D.OK ==> Abs() == old(Abs())
      ensures reply.result == D.OK <==>
                && channelHandle in old(mDirectChannels)
                && (|| (s == -1 && rate == D.STOP)
                    || (&& s in mSensors && infos[s].ashmem && rate != D.UNKNOWN
                        && (rate == D.FAST ==> infos[s].maxRate >= 2) && (rate == D.VERY_FAST ==> infos[s].maxRate >= 3)))
      // one sensor: its rate on this channel is that of the level, every other rate is kept
      ensures reply.result == D.OK && !(s == -1 && rate == D.STOP) ==>
                && reply.handle == s
                && (rate == D.STOP ==> D.RateOf(Abs(), s, channelHandle) == 0)
                && (rate == D.NORMAL ==> D.RateOf(Abs(), s, channelHandle) == 20000000)
                && (rate == D.FAST ==> D.RateOf(Abs(), s, channelHandle) == 5000000)
                && (rate == D.VERY_FAST ==> D.RateOf(Abs(), s, channelHandle) == 1250000)
                && (D.Marks(mSensors[s].Abs(), channelHandle) <==> rate != D.STOP)
                && D.OtherRatesKept(old(Abs()), Abs(), s, channelHandle)
      // all sensors: none has a rate on this channel any more, other channels keep theirs
      ensures reply.result == D.OK && s == -1 && rate == D.STOP ==>
                && reply.handle == 0
                && (forall r :: D.RateOf(Abs(), r, channelHandle) == 0)
                && (forall r :: r in mSensors ==> !D.Marks(mSensors[r].Abs(), channelHandle))
                && D.OtherChannelsKept(old(Abs()), Abs(), channelHandle)
    {
      hide S.Inv, S.AfterUpdate, S.AfterAdd, S.AfterStop, S.AfterRemove, D.Mirror;
      D.CallKeepsInv(Abs(), D.Config(s, channelHandle, rate));
      D.ConfigRefusedExactly(Abs(), s, channelHandle, rate);
      if channelHandle in mDirectChannels && s == -1 && rate == D.STOP {
        D.StopAllTakesEffect(Abs(), channelHandle);
      } else if D.ConfigReply(Abs(), s, channelHandle, rate).result == D.OK {
        D.ConfigTakesEffect(Abs(), s, channelHandle, rate);
      }
      if channelHandle !in mDirectChannels {
        return D.Reply(D.BAD_VALUE, -1);
      }
      if s == -1 && rate == D.STOP {
        StopAll(channelHandle);
        StatesAreTheSensors();
        return D.Reply(D.OK, 0);
      }
      if s !in mSensors {
        return D.Reply(D.BAD_VALUE, -1);
      }
      if !infos[s].ashmem {
        return D.Reply(D.BAD_VALUE, -1);
      }
      var period := D.PeriodOf(rate, infos[s].maxRate);
      if period.None? {
        return D.Reply(D.BAD_VALUE, -1);
      }
      SetRate(channelHandle, s, period.value);
      return D.Reply(D.OK, s);
    }

    method SetRate(channelHandle: int, s: int, period: int)
      requires ValidSensors() && channelHandle in mDirectChannels && s in mSensors
      modifies this`mDirectChannels, mSensors.Values
      ensures ValidSensors() && Abs() == D.SetRate(old(Abs()), s, channelHandle, period)
    {
      hide S.Inv, S.AfterUpdate, S.AfterAdd, S.AfterStop, S.AfterRemove, D.Mirror;
      ghost var before := SensorStates();
      var ch := mDirectChannels[channelHandle];
      ch := ch.(rateNs := ch.rateNs[s := period]);
      ch := ch.(sensorHandles := ch.sensorHandles + [s]);
      mDirectChannels := mDirectChannels[channelHandle := ch];
      mSensors[s].Add(channelHandle, period);
      forall r | r in mSensors && r != s ensures mSensors[r].Abs() == before[r] {
        assert mSensors[r] != mSensors[s];
      }
      assert SensorStates() == before[s := S.AfterAdd(before[s], channelHandle, period)];
    }

    // ----- the writer

    /** One event offered to one channel. */
    method Offer(event: N.Event, c: int, samplingPeriodNs: int) returns (due: bool)
      requires c in mDirectChannels
      modifies this`mDirectChannels
      ensures mDirectChannels == old(mDirectChannels)[c := N.AfterEvent(old(mDirectChannels)[c], event, samplingPeriodNs)]
      ensures N.Written(old(mDirectChannels)[c], event, samplingPeriodNs) == if due then [event] else []
    {
      var s := event.sensorHandle;
      var channel := mDirectChannels[c];
      if s !in channel.sensorHandles {
        return false;
      }
      if N.Get(channel.rateNs, s) == 0 {
        return false;
      }
      var count := N.Get(channel.sampleCount, s) + 1;
      if samplingPeriodNs * count < N.Get(channel.rateNs, s) {
        mDirectChannels := mDirectChannels[c := channel.(sampleCount := channel.sampleCount[s := count])];
        return false;
      }
      mDirectChannels := mDirectChannels[c := channel.(sampleCount := channel.sampleCount[s := 0])];
      return true;
    }

    /** One event offered to every channel in turn. */
    method OfferToAll(event: N.Event, samplingPeriodNs: int) returns (writes: seq<Write>)
      requires forall c :: c in mDirectChannels ==> 0 <= c < mNextChannelHandle
      modifies this`mDirectChannels
      ensures mDirectChannels.Keys == old(mDirectChannels.Keys)
      ensures forall c :: c in mDirectChannels ==>
                && mDirectChannels[c] == N.AfterEvent(old(mDirectChannels)[c], event, samplingPeriodNs)
                && WritesTo(writes, c) == N.Written(old(mDirectChannels)[c], event, samplingPeriodNs)
    {
      hide N.AfterEvent, N.Written, WritesTo;
      ghost var before := mDirectChannels;
      writes := [];
      NothingWritten();
      for c := 0 to mNextChannelHandle
        invariant mDirectChannels.Keys == before.Keys
        invariant forall d :: d in before ==>
                    && mDirectChannels[d] == (if d < c then N.AfterEvent(before[d], event, samplingPeriodNs) else before[d])
                    && WritesTo(writes, d) == (if d < c then N.Written(before[d], event, samplingPeriodNs) else [])
      {
        if c in mDirectChannels {
          var due := Offer(event, c, samplingPeriodNs);
          if due {
            forall d ensures WritesTo(writes + [Write(c, event)], d) == if d == c then WritesTo(writes, d) + [event] else WritesTo(writes, d) {
              WritesToSnoc(writes, Write(c, event), d);
            }
            writes := writes + [Write(c, event)];
          }
        }
      }
    }

    /** writeToDirectBuffer: a batch that finds the channel mutex taken is dropped; otherwise each channel decimates
        it on its own. */
    method WriteToDirectBuffer(events: seq<N.Event>, samplingPeriodNs: int, mutexFree: bool) returns (writes: seq<Write>)
      requires Valid()
      modifies this`mDirectChannels
      ensures Valid() && mDirectChannels.Keys == old(mDirectChannels.Keys)
      ensures !mutexFree ==> writes == [] && mDirectChannels == old(mDirectChannels)
      ensures mutexFree ==> forall c :: c in mDirectChannels ==>
                && mDirectChannels[c] == N.AfterEvents(old(mDirectChannels)[c], events, samplingPeriodNs)
                && WritesTo(writes, c) == N.AllWritten(old(mDirectChannels)[c], events, samplingPeriodNs)
    {
      writes := [];
      if mutexFree {
        writes := WriteLocked(events, samplingPeriodNs);
      }
    }

    method WriteLocked(events: seq<N.Event>, samplingPeriodNs: int) returns (writes: seq<Write>)
      requires Valid()
      modifies this`mDirectChannels
      ensures Valid() && mDirectChannels.Keys == old(mDirectChannels.Keys)
      ensures forall c :: c in mDirectChannels ==>
                && mDirectChannels[c] == N.AfterEvents(old(mDirectChannels)[c], events, samplingPeriodNs)
                && WritesTo(writes, c) == N.AllWritten(old(mDirectChannels)[c], events, samplingPeriodNs)
    {
      hide N.AfterEvent, N.Written, WritesTo, S.Inv;
      ghost var t := Abs();
      ghost var before := mDirectChannels;
      writes := [];
      NothingWritten();
      for i := 0 to |events|
        invariant mDirectChannels.Keys == before.Keys
        invariant forall c :: c in before ==>
                    && mDirectChannels[c] == N.AfterEvents(before[c], events[..i], samplingPeriodNs)
                    && WritesTo(writes, c) == N.AllWritten(before[c], events[..i], samplingPeriodNs)
      {
        assert events[..i + 1][..i] == events[..i];
        var more := OfferToAll(events[i], samplingPeriodNs);
        forall c ensures WritesTo(writes + more, c) == WritesTo(writes, c) + WritesTo(more, c) {
          WritesToAppend(writes, more, c);
        }
        writes := writes + more;
      }
      assert events[..|events|] == events;
      forall c | c in before
        ensures mDirectChannels[c].sensorHandles == before[c].sensorHandles && mDirectChannels[c].rateNs == before[c].rateNs
      {
        N.TablesUntouched(before[c], events, samplingPeriodNs);
      }
      D.CountsDoNotMatter(t, Abs());
    }
  }

  lemma NothingWritten()
    ensures forall c :: WritesTo([], c) == []
  {
  }

  lemma {:induction false} WritesToAppend(a: seq<Write>, b: seq<Write>, c: int)
    ensures WritesTo(a + b, c) == WritesTo(a, c) + WritesTo(b, c)
    decreases |b|
  {
    if b == [] {
      assert a + b == a;
    } else {
      var init := b[..|b| - 1];
      WritesToAppend(a, init, c);
      assert (a + b)[..|a + b| - 1] == a + init;
    }
  }
}
