/** A sensor of the sub-HAL (Sensor.cpp): the sampling request, the direct channels, and what of both is
    passed down to the hardware. */
module SubHalSensor {
  import opened Basics

  const INT64_MAX := 0x7fff_ffff_ffff_ffff

  /** An entry of mDirectChannels. */
  datatype Channel = Channel(enabled: bool, samplingPeriodNs: int)

  /** What the hardware was last told. */
  datatype Hardware = Hardware(on: bool, period: Option<int>)

  datatype State = State(
    minDelayUs: int,
    maxDelayUs: int,
    isEnabled: bool,
    directEnabled: bool,
    samplingPeriodNs: int,
    directRateNs: int,
    channels: map<int, Channel>,
    hardware: Hardware)

  // ----- the derived direct-channel rate

  /** The smallest period of the enabled channels among the keys, INT64_MAX standing for none. */
  ghost predicate IsMinOver(channels: map<int, Channel>, keys: set<int>, rate: int)
    requires keys <= channels.Keys
  {
    && rate <= INT64_MAX
    && (forall c :: c in keys && channels[c].enabled ==> rate <= channels[c].samplingPeriodNs)
    && (rate == INT64_MAX || exists c :: c in keys && channels[c].enabled && channels[c].samplingPeriodNs == rate)
  }

  ghost predicate IsMinRate(channels: map<int, Channel>, rate: int) {
    IsMinOver(channels, channels.Keys, rate)
  }

  ghost function MinRate(channels: map<int, Channel>): (rate: int)
    ensures IsMinRate(channels, rate)
  {
    MinRateExists(channels, channels.Keys);
    var rate :| IsMinOver(channels, channels.Keys, rate);
    rate
  }

  /** One more key: the smaller of its period, if it is enabled, and the minimum so far. */
  lemma MinOneMore(channels: map<int, Channel>, keys: set<int>, c: int, rate: int)
    requires keys <= channels.Keys && c in channels && IsMinOver(channels, keys, rate)
    ensures IsMinOver(channels, keys + {c},
                      if channels[c].enabled && channels[c].samplingPeriodNs < rate then channels[c].samplingPeriodNs else rate)
  {
  }

  lemma {:induction false} MinRateExists(channels: map<int, Channel>, keys: set<int>)
    requires keys <= channels.Keys
    ensures exists rate :: IsMinOver(channels, keys, rate)
    decreases |keys|
  {
    if keys == {} {
      assert IsMinOver(channels, keys, INT64_MAX);
    } else {
      NonemptySet(keys);
      var c :| c in keys;
      MinRateExists(channels, keys - {c});
      var r :| IsMinOver(channels, keys - {c}, r);
      MinOneMore(channels, keys - {c}, c, r);
      assert keys - {c} + {c} == keys;
    }
  }

  lemma MinRateUnique(channels: map<int, Channel>, rate: int)
    requires IsMinRate(channels, rate)
    ensures rate == MinRate(channels)
  {
  }

  ghost predicate AnyEnabled(channels: map<int, Channel>) {
    exists c :: c in channels && channels[c].enabled
  }

  // ----- the operations

  /** std::clamp, for lo <= hi. */
  function Clamp(v: int, lo: int, hi: int): int {
    if v < lo then lo else if hi < v then hi else v
  }

  function AfterBatch(s: State, samplingPeriodNs: int): State {
    var period := Clamp(samplingPeriodNs, s.minDelayUs * 1000, s.maxDelayUs * 1000);
    s.(samplingPeriodNs := period,
       hardware := if period < s.directRateNs then s.hardware.(period := Some(period)) else s.hardware)
  }

  function AfterActivate(s: State, enable: bool): State {
    if s.isEnabled == enable then s else s.(isEnabled := enable, hardware := s.hardware.(on := enable))
  }

  /** updateDirectChannel, its loops replaced by what they compute. */
  ghost function AfterUpdate(s: State): State {
    var rate, any := MinRate(s.channels), AnyEnabled(s.channels);
    var hw1 := if s.directRateNs != rate && rate < s.samplingPeriodNs then s.hardware.(period := Some(rate)) else s.hardware;
    var hw2 := if s.directEnabled != any && !s.isEnabled then hw1.(on := any) else hw1;
    s.(directRateNs := rate, directEnabled := any, hardware := hw2)
  }

  ghost function AfterStop(s: State, c: int): State {
    AfterUpdate(if c in s.channels then s.(channels := s.channels[c := Channel(false, 0)]) else s)
  }

  ghost function AfterAdd(s: State, c: int, samplingPeriodNs: int): State {
    if samplingPeriodNs == 0 then AfterStop(s.(channels := s.channels[c := Channel(false, 0)]), c)
    else AfterUpdate(s.(channels := s.channels[c := Channel(true, samplingPeriodNs)]))
  }

  ghost function AfterRemove(s: State, c: int): State {
    AfterUpdate(s.(channels := s.channels - {c}))
  }

  function Created(minDelayUs: int, maxDelayUs: int): State {
    State(minDelayUs, maxDelayUs, false, false, minDelayUs * 1000, INT64_MAX, map[], Hardware(false, None))
  }

  datatype Step =
    | Batch(samplingPeriodNs: int)
    | Activate(enable: bool)
    | AddDirectChannel(channel: int, samplingPeriodNs: int)
    | StopDirectChannel(channel: int)
    | RemoveDirectChannel(channel: int)

  ghost function Apply(s: State, step: Step): State {
    match step
    case Batch(p) => AfterBatch(s, p)
    case Activate(enable) => AfterActivate(s, enable)
    case AddDirectChannel(c, p) => AfterAdd(s, c, p)
    case StopDirectChannel(c) => AfterStop(s, c)
    case RemoveDirectChannel(c) => AfterRemove(s, c)
  }

  ghost function Run(s: State, steps: seq<Step>): State
    decreases |steps|
  {
    if steps == [] then s else Run(Apply(s, steps[0]), steps[1..])
  }

  // ----- what every call keeps

  ghost predicate DirectInv(s: State) {
    s.directRateNs == MinRate(s.channels) && s.directEnabled == AnyEnabled(s.channels)
  }

  ghost predicate Inv(s: State) {
    && DirectInv(s)
    && (s.isEnabled ==> s.hardware.on)
    && (s.hardware.on ==> s.isEnabled || s.directEnabled)
    && (s.hardware.period.Some? ==> s.hardware.period.value <= Min(s.samplingPeriodNs, s.directRateNs))
  }

  lemma UpdateKeepsInv(s: State, t: State)
    requires Inv(s) && t == s.(channels := t.channels)
    ensures Inv(AfterUpdate(t))
  {
  }

  lemma StopKeepsInv(s: State, t: State, c: int)
    requires Inv(s) && t == s.(channels := t.channels)
    ensures Inv(AfterStop(t, c))
  {
    UpdateKeepsInv(s, if c in t.channels then t.(channels := t.channels[c := Channel(false, 0)]) else t);
  }

  lemma StepKeepsInv(s: State, step: Step)
    requires Inv(s)
    ensures Inv(Apply(s, step))
  {
    match step
    case Batch(_) =>
    case Activate(_) =>
    case AddDirectChannel(c, p) =>
      if p == 0 {
        StopKeepsInv(s, s.(channels := s.channels[c := Channel(false, 0)]), c);
      } else {
        UpdateKeepsInv(s, s.(channels := s.channels[c := Channel(true, p)]));
      }
    case StopDirectChannel(c) => StopKeepsInv(s, s, c);
    case RemoveDirectChannel(c) => UpdateKeepsInv(s, s.(channels := s.channels - {c}));
  }

  lemma CreatedInv(minDelayUs: int, maxDelayUs: int)
    ensures Inv(Created(minDelayUs, maxDelayUs))
  {
    MinRateUnique(map[], INT64_MAX);
  }

  /** Over every sequence of calls: an enabled sensor is powered, a powered one is wanted by a request or a
      channel, the hardware never samples slower than the faster of the two, and rate and flag of the direct
      channels are the minimum over and the existence of enabled entries. */
  lemma {:induction false} RunKeepsInv(s: State, steps: seq<Step>)
    requires Inv(s)
    ensures Inv(Run(s, steps))
    decreases |steps|
  {
    if steps != [] {
      StepKeepsInv(s, steps[0]);
      RunKeepsInv(Apply(s, steps[0]), steps[1..]);
    }
  }

  // ----- what the hardware is told

  /** The period at which someone wants the sensor sampled: the request or, if it is shorter, the shortest of the
      enabled channels. */
  function WantedPeriod(s: State): int { Min(s.samplingPeriodNs, s.directRateNs) }

  /** The hardware is told a period only when it is the one wanted, and whenever that becomes shorter. */
  lemma PeriodPassedDown(s: State, step: Step)
    requires Inv(s)
    ensures var t := Apply(s, step);
      && (t.hardware.period == s.hardware.period || t.hardware.period == Some(WantedPeriod(t)))
      && (WantedPeriod(t) < WantedPeriod(s) ==> t.hardware.period == Some(WantedPeriod(t)))
  {
    hide IsMinRate;
  }

  /** A channel faster than anything so far sets the pace at once, and the first channel of a disabled sensor powers
      the hardware. */
  lemma AddTakesEffect(s: State, c: int, samplingPeriodNs: int)
    requires Inv(s)
    ensures var t := AfterAdd(s, c, samplingPeriodNs);
      && t.channels == s.channels[c := Channel(samplingPeriodNs != 0, samplingPeriodNs)]
      && (samplingPeriodNs != 0 && samplingPeriodNs < WantedPeriod(s) ==>
            t.directRateNs == samplingPeriodNs && t.hardware.period == Some(samplingPeriodNs))
      && (samplingPeriodNs != 0 && !s.isEnabled && !s.directEnabled ==> t.hardware.on)
  {
    hide IsMinRate;
    var t := AfterAdd(s, c, samplingPeriodNs);
    assert t.channels == s.channels[c := Channel(samplingPeriodNs != 0, samplingPeriodNs)];
    if samplingPeriodNs != 0 {
      assert c in t.channels && t.channels[c].enabled;
      if samplingPeriodNs < WantedPeriod(s) {
        FasterIsMin(s.channels, c, samplingPeriodNs);
        MinRateUnique(t.channels, samplingPeriodNs);
      }
    }
  }

  lemma FasterIsMin(channels: map<int, Channel>, c: int, period: int)
    requires period < MinRate(channels)
    ensures IsMinRate(channels[c := Channel(true, period)], period)
  {
    var t := channels[c := Channel(true, period)];
    assert c in t && t[c].enabled && t[c].samplingPeriodNs == period;
  }

  /** batch stores the request, brought into the range of the sensor, and changes nothing else but the hardware's
      period; activate stores the flag and switches the hardware with it when it changes. */
  lemma RequestsTakeEffect(s: State, samplingPeriodNs: int, enable: bool)
    requires s.minDelayUs <= s.maxDelayUs
    ensures var t := AfterBatch(s, samplingPeriodNs);
      && s.minDelayUs * 1000 <= t.samplingPeriodNs <= s.maxDelayUs * 1000
      && (s.minDelayUs * 1000 <= samplingPeriodNs <= s.maxDelayUs * 1000 ==> t.samplingPeriodNs == samplingPeriodNs)
      && (samplingPeriodNs < s.minDelayUs * 1000 ==> t.samplingPeriodNs == s.minDelayUs * 1000)
      && (samplingPeriodNs > s.maxDelayUs * 1000 ==> t.samplingPeriodNs == s.maxDelayUs * 1000)
      && t.isEnabled == s.isEnabled && t.hardware.on == s.hardware.on && t.channels == s.channels
    ensures var t := AfterActivate(s, enable);
      && t.isEnabled == enable && t.hardware.on == (if s.isEnabled != enable then enable else s.hardware.on)
      && t.hardware.period == s.hardware.period && t.channels == s.channels && t.samplingPeriodNs == s.samplingPeriodNs
  {
  }

  // ----- powered exactly when wanted?

  ghost predicate PoweredWhenWanted(s: State) {
    s.hardware.on <==> s.isEnabled || s.directEnabled
  }

  /** Disabling the sensor while a direct channel uses it is the one call that powers it down wrongly. */
  lemma PoweredWhenWantedExactly(s: State, step: Step)
    requires Inv(s) && PoweredWhenWanted(s)
    ensures PoweredWhenWanted(Apply(s, step)) <==> !(step == Activate(false) && s.isEnabled && s.directEnabled)
  {
    StepKeepsInv(s, step);
  }

  /** No channel but c is enabled. */
  ghost predicate NoOtherEnabled(s: State, c: int) {
    forall d :: d in s.channels && s.channels[d].enabled ==> d == c
  }

  /** The step ends the direct reports of the last channel that has any. */
  ghost predicate EndsLastChannel(s: State, step: Step) {
    match step
    case AddDirectChannel(c, period) => period == 0 && NoOtherEnabled(s, c)
    case StopDirectChannel(c) => NoOtherEnabled(s, c)
    case RemoveDirectChannel(c) => NoOtherEnabled(s, c)
    case _ => false
  }

  /** From a wrong power-down only two things help: enabling the sensor, or the last channel going away. */
  lemma RecoversExactly(s: State, step: Step)
    requires Inv(s) && !PoweredWhenWanted(s)
    ensures PoweredWhenWanted(Apply(s, step)) <==> step == Activate(true) || EndsLastChannel(s, step)
  {
    hide IsMinRate;
    StepKeepsInv(s, step);
    if step.AddDirectChannel? || step.StopDirectChannel? || step.RemoveDirectChannel? {
      var c, t := step.channel, Apply(s, step);
      assert forall d :: d != c ==> (d in t.channels <==> d in s.channels) && (d in s.channels ==> t.channels[d] == s.channels[d]);
      assert c in t.channels && t.channels[c].enabled <==> step.AddDirectChannel? && step.samplingPeriodNs != 0;
    }
  }

  /** Enable, open a 20 ms direct channel, disable: the channel is left with the hardware off. */
  lemma DisablingStarvesTheChannel()
    ensures var t := Run(Created(1000, 1000000), [Activate(true), AddDirectChannel(1, 20000000), Activate(false)]);
      t.directEnabled && !t.hardware.on
  {
    var s := Created(1000, 1000000);
    var s1 := Apply(s, Activate(true));
    var s2 := Apply(s1, AddDirectChannel(1, 20000000));
    assert s2.channels == map[1 := Channel(true, 20000000)];
    assert 1 in s2.channels && s2.channels[1].enabled;
    var steps := [Activate(true), AddDirectChannel(1, 20000000), Activate(false)];
    assert steps[1..] == [AddDirectChannel(1, 20000000), Activate(false)] && steps[1..][1..] == [Activate(false)];
    assert steps[1..][1..][1..] == [];
    assert Run(s, steps) == Apply(s2, Activate(false));
  }

  // ----- the class

  class Sensor {
    const minDelayUs: int
    const maxDelayUs: int
    var mIsEnabled: bool
    var mDirectChannelEnabled: bool
    var mSamplingPeriodNs: int
    var mDirectChannelRateNs: int
    var mDirectChannels: map<int, Channel>
    // the sensor hardware behind mSensor
    var hardware: Hardware

    ghost function Abs(): State
      reads this
    {
      State(minDelayUs, maxDelayUs, mIsEnabled, mDirectChannelEnabled, mSamplingPeriodNs, mDirectChannelRateNs,
            mDirectChannels, hardware)
    }

    ghost predicate Valid()
      reads this
    {
      minDelayUs <= maxDelayUs && Inv(Abs())
    }

    constructor (minDelayUs: int, maxDelayUs: int)
      requires minDelayUs <= maxDelayUs
      ensures Valid() && Abs() == Created(minDelayUs, maxDelayUs)
    {
      this.minDelayUs, this.maxDelayUs := minDelayUs, maxDelayUs;
      mIsEnabled, mDirectChannelEnabled := false, false;
      mSamplingPeriodNs, mDirectChannelRateNs := minDelayUs * 1000, INT64_MAX;
      mDirectChannels, hardware := map[], Hardware(false, None);
      new;
      CreatedInv(minDelayUs, maxDelayUs);
    }

    method SetPeriod(samplingPeriodNs: int)
      requires Valid()
      modifies this
      ensures Valid() && Abs() == AfterBatch(old(Abs()), samplingPeriodNs)
      ensures minDelayUs * 1000 <= mSamplingPeriodNs <= maxDelayUs * 1000
      ensures minDelayUs * 1000 <= samplingPeriodNs <= maxDelayUs * 1000 ==> mSamplingPeriodNs == samplingPeriodNs
      ensures samplingPeriodNs < minDelayUs * 1000 ==> mSamplingPeriodNs == minDelayUs * 1000
      ensures samplingPeriodNs > maxDelayUs * 1000 ==> mSamplingPeriodNs == maxDelayUs * 1000
      ensures hardware.period == if mSamplingPeriodNs < mDirectChannelRateNs then Some(mSamplingPeriodNs)
                                 else old(hardware.period)
      ensures hardware.on == old(hardware.on) && mIsEnabled == old(mIsEnabled) && mDirectChannels == old(mDirectChannels)
    {
      RequestsTakeEffect(Abs(), samplingPeriodNs, false);
      StepKeepsInv(Abs(), Batch(samplingPeriodNs));
      var period := Clamp(samplingPeriodNs, minDelayUs * 1000, maxDelayUs * 1000);
      if period < mDirectChannelRateNs {
        hardware := hardware.(period := Some(period));
      }
      if mSamplingPeriodNs != period {
        mSamplingPeriodNs := period;
      }
    }

    method SetEnabled(enable: bool)
      requires Valid()
      modifies this
      ensures Valid() && Abs() == AfterActivate(old(Abs()), enable)
      ensures mIsEnabled == enable
      ensures hardware == if old(mIsEnabled) != enable then old(hardware).(on := enable) else old(hardware)
      ensures mDirectChannels == old(mDirectChannels) && mSamplingPeriodNs == old(mSamplingPeriodNs)
    {
      StepKeepsInv(Abs(), Activate(enable));
      if mIsEnabled != enable {
        mIsEnabled := enable;
        hardware := hardware.(on := enable);
      }
    }

    method Add(channelHandle: int, samplingPeriodNs: int)
      requires Valid()
      modifies this
      ensures Valid() && Abs() == AfterAdd(old(Abs()), channelHandle, samplingPeriodNs)
      ensures mDirectChannels == old(mDirectChannels)[channelHandle := Channel(samplingPeriodNs != 0, samplingPeriodNs)]
      ensures samplingPeriodNs < Min(old(mSamplingPeriodNs), old(mDirectChannelRateNs)) && samplingPeriodNs != 0 ==>
                mDirectChannelRateNs == samplingPeriodNs && hardware.period == Some(samplingPeriodNs)
      ensures samplingPeriodNs != 0 && !old(mIsEnabled) && !old(mDirectChannelEnabled) ==> hardware.on
      ensures mIsEnabled == old(mIsEnabled) && mSamplingPeriodNs == old(mSamplingPeriodNs)
    {
      AddTakesEffect(Abs(), channelHandle, samplingPeriodNs);
      StepKeepsInv(Abs(), AddDirectChannel(channelHandle, samplingPeriodNs));
      if samplingPeriodNs == 0 {
        mDirectChannels := mDirectChannels[channelHandle := Channel(false, 0)];
        StopChannel(channelHandle);
        return;
      }
      mDirectChannels := mDirectChannels[channelHandle := Channel(true, samplingPeriodNs)];
      UpdateDirectChannel();
    }

    method Stop(channelHandle: int)
      requires Valid()
      modifies this
      ensures Valid() && Abs() == AfterStop(old(Abs()), channelHandle)
      ensures mDirectChannels == if channelHandle in old(mDirectChannels)
                                 then old(mDirectChannels)[channelHandle := Channel(false, 0)] else old(mDirectChannels)
      ensures mIsEnabled == old(mIsEnabled) && mSamplingPeriodNs == old(mSamplingPeriodNs)
    {
      StepKeepsInv(Abs(), StopDirectChannel(channelHandle));
      StopChannel(channelHandle);
    }

    method StopChannel(channelHandle: int)
      modifies this
      ensures Abs() == AfterStop(old(Abs()), channelHandle)
    {
      if channelHandle in mDirectChannels {
        mDirectChannels := mDirectChannels[channelHandle := Channel(false, 0)];
      }
      UpdateDirectChannel();
    }

    method Remove(channelHandle: int)
      requires Valid()
      modifies this
      ensures Valid() && Abs() == AfterRemove(old(Abs()), channelHandle)
      ensures mDirectChannels == old(mDirectChannels) - {channelHandle}
      ensures mIsEnabled == old(mIsEnabled) && mSamplingPeriodNs == old(mSamplingPeriodNs)
    {
      StepKeepsInv(Abs(), RemoveDirectChannel(channelHandle));
      if channelHandle in mDirectChannels {
        mDirectChannels := mDirectChannels - {channelHandle};
      } else {
        assert mDirectChannels - {channelHandle} == mDirectChannels;
      }
      UpdateDirectChannel();
    }

    method UpdateDirectChannel()
      modifies this
      ensures Abs() == AfterUpdate(old(Abs()))
    {
      var directChannelRateNs := MinOverChannels();
      MinRateUnique(mDirectChannels, directChannelRateNs);
      if mDirectChannelRateNs != directChannelRateNs {
        mDirectChannelRateNs := directChannelRateNs;
        if mDirectChannelRateNs < mSamplingPeriodNs {
          hardware := hardware.(period := Some(mDirectChannelRateNs));
        }
      }
      var anyChannelEnabled := AnyChannelEnabled();
      if mDirectChannelEnabled != anyChannelEnabled {
        mDirectChannelEnabled := anyChannelEnabled;
        if !mIsEnabled {
          hardware := hardware.(on := mDirectChannelEnabled);
        }
      }
    }

    method MinOverChannels() returns (rate: int)
      ensures IsMinRate(mDirectChannels, rate)
    {
      rate := INT64_MAX;
      var rest := mDirectChannels.Keys;
      while rest != {}
        invariant rest <= mDirectChannels.Keys
        invariant IsMinOver(mDirectChannels, mDirectChannels.Keys - rest, rate)
        decreases |rest|
      {
        NonemptySet(rest);
        var c :| c in rest;
        MinOneMore(mDirectChannels, mDirectChannels.Keys - rest, c, rate);
        assert mDirectChannels.Keys - rest + {c} == mDirectChannels.Keys - (rest - {c});
        if mDirectChannels[c].enabled && mDirectChannels[c].samplingPeriodNs < rate {
          rate := mDirectChannels[c].samplingPeriodNs;
        }
        rest := rest - {c};
      }
      assert mDirectChannels.Keys - rest == mDirectChannels.Keys;
    }

    method AnyChannelEnabled() returns (any: bool)
      ensures any <==> AnyEnabled(mDirectChannels)
    {
      var rest := mDirectChannels.Keys;
      while rest != {}
        invariant rest <= mDirectChannels.Keys
        invariant forall c :: c in mDirectChannels && c !in rest ==> !mDirectChannels[c].enabled
        decreases |rest|
      {
        NonemptySet(rest);
        var c :| c in rest;
        if mDirectChannels[c].enabled {
          return true;
        }
        rest := rest - {c};
      }
      return false;
    }
  }
}
