/** Sampling-rate arbitration: several sensor types sharing one device (SensorCore.cpp), and two devices sharing
    one SMI330 chip (SMI330.cpp). */
module RateArbitration {
  import opened Basics

  // ----- SensorCore: requests by type

  /** mEnableState, mSamplingPeriods and mIsEnabled, with what was last passed down: power and period. */
  datatype State = State(
    maxDelayUs: int,
    enabled: map<int, bool>,
    periods: map<int, int>,
    isEnabled: bool,
    power: bool,
    period: Option<int>)

  predicate Requests(enabled: map<int, bool>, t: int) { t in enabled && enabled[t] }

  ghost predicate AnyRequests(enabled: map<int, bool>) { exists t :: Requests(enabled, t) }

  /** The least of the device's longest period and the periods of the enabled types among the keys. */
  ghost predicate IsLeast(s: State, keys: set<int>, rate: int)
    requires keys <= s.periods.Keys
  {
    && rate <= s.maxDelayUs * 1000
    && (forall t :: t in keys && Requests(s.enabled, t) ==> rate <= s.periods[t])
    && (rate == s.maxDelayUs * 1000 || exists t :: t in keys && Requests(s.enabled, t) && s.periods[t] == rate)
  }

  /** The period the device should run at. */
  ghost predicate IsWanted(s: State, rate: int) { IsLeast(s, s.periods.Keys, rate) }

  ghost predicate Programmed(s: State) { s.period.Some? && IsWanted(s, s.period.value) }

  ghost predicate Powered(s: State) { s.power == s.isEnabled && (s.power <==> AnyRequests(s.enabled)) }

  lemma WantedUnique(s: State, a: int, b: int)
    requires IsWanted(s, a) && IsWanted(s, b)
    ensures a == b
  {
  }

  class SensorCore {
    const maxDelayUs: int
    var mIsEnabled: bool
    var mEnableState: map<int, bool>
    var mSamplingPeriods: map<int, int>
    // what setPowerMode and setSamplingRate last passed to the device
    var power: bool
    var period: Option<int>

    function Abs(): State
      reads this
    {
      State(maxDelayUs, mEnableState, mSamplingPeriods, mIsEnabled, power, period)
    }

    constructor (maxDelayUs: int)
      ensures Abs() == State(maxDelayUs, map[], map[], false, false, None) && Powered(Abs())
    {
      this.maxDelayUs := maxDelayUs;
      mIsEnabled, mEnableState, mSamplingPeriods, power, period := false, map[], map[], false, None;
    }

    method AnyEnabled() returns (any: bool)
      ensures any <==> AnyRequests(mEnableState)
    {
      var rest := mEnableState.Keys;
      while rest != {}
        invariant rest <= mEnableState.Keys
        invariant forall t :: t in mEnableState && t !in rest ==> !mEnableState[t]
        decreases |rest|
      {
        NonemptySet(rest);
        var t :| t in rest;
        if mEnableState[t] {
          assert Requests(mEnableState, t);
          return true;
        }
        rest := rest - {t};
      }
      return false;
    }

    method ActivateByType(t: int, enable: bool)
      requires Powered(Abs())
      modifies this
      ensures Powered(Abs())
      ensures mEnableState == old(mEnableState)[t := enable] && mSamplingPeriods == old(mSamplingPeriods)
      ensures power != old(power) ==> Programmed(Abs())
      ensures power == old(power) ==> period == old(period)
      ensures Activated(old(Abs()), t, enable, Abs())
    {
      mEnableState := mEnableState[t := enable];
      var isEnabled := AnyEnabled();
      if isEnabled != mIsEnabled {
        mIsEnabled := isEnabled;
        power := isEnabled;
        UpdateSamplingRate();
      }
    }

    method BatchByType(t: int, samplingPeriodNs: int)
      requires Powered(Abs())
      modifies this
      ensures Powered(Abs()) && Programmed(Abs())
      ensures mSamplingPeriods == old(mSamplingPeriods)[t := samplingPeriodNs]
      ensures forall u :: Requests(mEnableState, u) <==> Requests(old(mEnableState), u)
    {
      mSamplingPeriods := mSamplingPeriods[t := samplingPeriodNs];
      UpdateSamplingRate();
    }

    /** The lookup mEnableState[type] of the source inserts a false entry for a type never activated; that
        changes no request. */
    method UpdateSamplingRate()
      modifies this`period
      ensures Programmed(Abs())
    {
      var used := maxDelayUs * 1000;
      var rest := mSamplingPeriods.Keys;
      while rest != {}
        invariant rest <= mSamplingPeriods.Keys
        invariant IsLeast(Abs(), mSamplingPeriods.Keys - rest, used)
        decreases |rest|
      {
        NonemptySet(rest);
        var t :| t in rest;
        LeastOneMore(Abs(), mSamplingPeriods.Keys - rest, t, used);
        assert mSamplingPeriods.Keys - rest + {t} == mSamplingPeriods.Keys - (rest - {t});
        if Requests(mEnableState, t) && mSamplingPeriods[t] < used {
          used := mSamplingPeriods[t];
        }
        rest := rest - {t};
      }
      assert mSamplingPeriods.Keys - rest == mSamplingPeriods.Keys;
      period := Some(used);
    }
  }

  lemma LeastOneMore(s: State, keys: set<int>, t: int, rate: int)
    requires keys <= s.periods.Keys && t in s.periods && IsLeast(s, keys, rate)
    ensures IsLeast(s, keys + {t}, if Requests(s.enabled, t) && s.periods[t] < rate then s.periods[t] else rate)
  {
  }

  /** activateByType on values: the rate is passed down again only when the power changes. */
  ghost predicate Activated(s: State, t: int, enable: bool, u: State) {
    && u.maxDelayUs == s.maxDelayUs && u.enabled == s.enabled[t := enable] && u.periods == s.periods
    && Powered(u)
    && (u.power != s.power ==> Programmed(u))
    && (u.power == s.power ==> u.period == s.period)
  }

  /** Some other type is requested, at the period the device runs at. */
  ghost predicate SharedByAnother(s: State, t: int) {
    s.period.Some? && exists o :: o != t && o in s.periods && Requests(s.enabled, o) && s.periods[o] == s.period.value
  }

  ghost predicate OnlyRequest(s: State, t: int) { forall o :: Requests(s.enabled, o) ==> o == t }

  /** What a caller can tell before activateByType: it is the first or the last activation, or the type
      enabled asks for nothing faster, or the type disabled was not the one that set the pace. */
  ghost predicate PaceSurvives(s: State, t: int, enable: bool)
    requires s.period.Some?
  {
    if enable then
      !s.power || t !in s.periods || s.periods[t] >= s.period.value
    else
      OnlyRequest(s, t) || s.period.value == s.maxDelayUs * 1000 || SharedByAnother(s, t)
  }

  /** From a device that runs at the wanted period, activateByType leaves one that does if and only if the pace
      survives the call; otherwise it runs too slowly, or faster than anyone asks, until the next batch. */
  lemma ProgrammedAfterActivateExactly(s: State, t: int, enable: bool, u: State)
    requires Powered(s) && Programmed(s) && Activated(s, t, enable, u)
    ensures Programmed(u) <==> PaceSurvives(s, t, enable)
    ensures u.power != s.power <==> if enable then !s.power else s.power && OnlyRequest(s, t)
  {
    assert forall o :: o != t ==> (Requests(u.enabled, o) <==> Requests(s.enabled, o));
    assert Requests(u.enabled, t) <==> enable;
    if enable {
      EnabledPace(s, t, u);
    } else {
      DisabledPower(s, t, u);
      DisabledPace(s, t, u);
    }
  }

  ghost predicate SameButFor(s: State, t: int, u: State) {
    u.maxDelayUs == s.maxDelayUs && u.periods == s.periods
    && forall o :: o != t ==> (Requests(u.enabled, o) <==> Requests(s.enabled, o))
  }

  lemma EnabledPace(s: State, t: int, u: State)
    requires Powered(s) && Programmed(s) && Powered(u) && SameButFor(s, t, u) && Requests(u.enabled, t)
    requires if u.power != s.power then Programmed(u) else u.period == s.period
    ensures Programmed(u) <==> PaceSurvives(s, t, true)
    ensures u.power != s.power <==> !s.power
  {
    assert AnyRequests(u.enabled);
    if s.power {
      var rate := s.period.value;
      if rate != s.maxDelayUs * 1000 {
        var o :| o in s.periods && Requests(s.enabled, o) && s.periods[o] == rate;
        assert o in u.periods && u.periods[o] == rate && (o != t ==> Requests(u.enabled, o));
      }
    }
  }

  lemma DisabledPower(s: State, t: int, u: State)
    requires Powered(s) && Powered(u) && SameButFor(s, t, u) && !Requests(u.enabled, t)
    ensures u.power != s.power <==> s.power && OnlyRequest(s, t)
  {
    if s.power && !OnlyRequest(s, t) {
      var o :| Requests(s.enabled, o) && o != t;
      assert Requests(u.enabled, o);
    }
    if u.power {
      var o :| Requests(u.enabled, o);
      assert Requests(s.enabled, o);
    }
  }

  lemma DisabledPace(s: State, t: int, u: State)
    requires Powered(s) && Programmed(s) && Powered(u) && SameButFor(s, t, u) && !Requests(u.enabled, t)
    requires if u.power != s.power then Programmed(u) else u.period == s.period
    requires u.power != s.power <==> s.power && OnlyRequest(s, t)
    ensures Programmed(u) <==> PaceSurvives(s, t, false)
  {
    var rate := s.period.value;
    if u.power == s.power && Programmed(u) && rate != s.maxDelayUs * 1000 {
      var o :| o in u.periods && Requests(u.enabled, o) && u.periods[o] == rate;
      assert SharedByAnother(s, t);
    }
    if SharedByAnother(s, t) {
      var o :| o != t && o in s.periods && Requests(s.enabled, o) && s.periods[o] == rate;
      assert o in u.periods && Requests(u.enabled, o) && u.periods[o] == rate;
    }
    if !s.power {
      assert !AnyRequests(s.enabled);
      assert rate == s.maxDelayUs * 1000;
    }
  }

  /** A second type that asked for 5 ms is enabled while the first runs at 100 ms: the device stays at 100 ms. */
  lemma SecondTypeIsStarved(s: State, u: State)
    requires s == State(1280000, map[1 := true], map[1 := 100000000, 2 := 5000000], true, true, Some(100000000))
    requires Activated(s, 2, true, u)
    ensures Programmed(s) && Powered(s)
    ensures !Programmed(u) && u.period == Some(100000000) && Requests(u.enabled, 2)
  {
    assert Requests(s.enabled, 1) && Requests(u.enabled, 2);
    assert 2 in u.periods && u.periods[2] == 5000000;
  }

  // ----- the SMI330 chip

  const MIN_SAMPLING_RATE_NS := 2500000
  const MAX_SAMPLING_RATE_NS := 1280000000
  const SECOND := 1000000000

  function Pow2(k: nat): (p: nat)
    ensures p >= 1
  {
    if k == 0 then 1 else 2 * Pow2(k - 1)
  }

  /** r is the largest rate of the form 2.5 ms * 2^k, k <= 9, that does not exceed the request. */
  ghost predicate IsChosen(request: int, k: nat) {
    k <= 9 && MIN_SAMPLING_RATE_NS * Pow2(k) <= request && (k == 9 || request < MIN_SAMPLING_RATE_NS * Pow2(k + 1))
  }

  lemma {:induction false} PowMonotone(j: nat, k: nat)
    requires j <= k
    ensures Pow2(j) <= Pow2(k)
    decreases k
  {
    if j < k {
      PowMonotone(j, k - 1);
    }
  }

  lemma ChosenUnique(request: int, j: nat, k: nat)
    requires IsChosen(request, j) && IsChosen(request, k)
    ensures j == k
  {
    if j < k {
      PowMonotone(j + 1, k);
    } else if k < j {
      PowMonotone(k + 1, j);
    }
  }

  lemma TopRate()
    ensures MAX_SAMPLING_RATE_NS == MIN_SAMPLING_RATE_NS * Pow2(9)
  {
    assert Pow2(5) == 32;
    assert Pow2(9) == 512;
  }

  /** The halving loop: it stops at the chosen rate, or runs out when the request is below 2.5 ms. */
  method SelectRate(request: int) returns (odr: int, ghost k: nat)
    ensures request >= MIN_SAMPLING_RATE_NS ==> IsChosen(request, k) && odr == SECOND / (MIN_SAMPLING_RATE_NS * Pow2(k))
    ensures request < MIN_SAMPLING_RATE_NS ==> odr == SECOND / MAX_SAMPLING_RATE_NS
  {
    odr := SECOND / MAX_SAMPLING_RATE_NS;
    var samplingRate := MAX_SAMPLING_RATE_NS;
    k := 9;
    TopRate();
    while samplingRate >= MIN_SAMPLING_RATE_NS
      invariant k <= 9 && odr == SECOND / MAX_SAMPLING_RATE_NS
      invariant samplingRate == MIN_SAMPLING_RATE_NS * Pow2(k) || (samplingRate == MIN_SAMPLING_RATE_NS / 2 && k == 0)
      invariant samplingRate >= MIN_SAMPLING_RATE_NS && k < 9 ==> request < MIN_SAMPLING_RATE_NS * Pow2(k + 1)
      invariant samplingRate < MIN_SAMPLING_RATE_NS ==> request < MIN_SAMPLING_RATE_NS
      decreases samplingRate
    {
      if request >= samplingRate {
        odr := SECOND / samplingRate;
        return;
      }
      samplingRate := samplingRate / 2;
      if k > 0 {
        k := k - 1;
      }
    }
  }

  /** The output data rate written for each chosen rate: 400 Hz halved k times, rounded down. */
  lemma OdrIs(k: nat)
    requires k <= 9
    ensures SECOND / (MIN_SAMPLING_RATE_NS * Pow2(k)) == 400 / Pow2(k)
  {
    PowValues();
  }

  lemma PowValues()
    ensures Pow2(0) == 1 && Pow2(1) == 2 && Pow2(2) == 4 && Pow2(3) == 8 && Pow2(4) == 16
    ensures Pow2(5) == 32 && Pow2(6) == 64 && Pow2(7) == 128 && Pow2(8) == 256 && Pow2(9) == 512
  {
  }

  /** A usable rate is written if and only if the request lies in [2.5 ms, 1.28 s): outside it the code
      writes zero. */
  lemma OdrPositiveExactly(request: int, odr: int, k: nat)
    requires request >= MIN_SAMPLING_RATE_NS ==> IsChosen(request, k) && odr == SECOND / (MIN_SAMPLING_RATE_NS * Pow2(k))
    requires request < MIN_SAMPLING_RATE_NS ==> odr == SECOND / MAX_SAMPLING_RATE_NS
    ensures odr > 0 <==> MIN_SAMPLING_RATE_NS <= request < MAX_SAMPLING_RATE_NS
  {
    if request >= MIN_SAMPLING_RATE_NS {
      OdrIs(k);
      PowValues();
      if k == 9 {
        assert 400 / 512 == 0;
      } else {
        PowMonotone(k + 1, 9);
        PowMonotone(k, 8);
      }
    }
  }

  class Smi330Imu {
    var accelEnabled: bool
    var gyroEnabled: bool
    var accelPeriodNs: int
    var gyroPeriodNs: int
    // what was last written to in_sampling_frequency and to the power modes of the two halves
    var odr: Option<int>
    var accelMode: Option<int>
    var gyroMode: Option<int>

    constructor ()
      ensures !accelEnabled && !gyroEnabled && accelPeriodNs == gyroPeriodNs == MAX_SAMPLING_RATE_NS && odr == None
      ensures accelMode == gyroMode == None
    {
      accelEnabled, gyroEnabled, odr, accelMode, gyroMode := false, false, None, None, None;
      accelPeriodNs, gyroPeriodNs := MAX_SAMPLING_RATE_NS, MAX_SAMPLING_RATE_NS;
    }

    method SetPowerMode(accel: bool, enable: bool)
      modifies this
      ensures accelEnabled == (if accel then enable else old(accelEnabled)) && accelPeriodNs == old(accelPeriodNs)
      ensures gyroEnabled == (if accel then old(gyroEnabled) else enable) && gyroPeriodNs == old(gyroPeriodNs)
      ensures accelMode == (if accel then Some(if enable then 3 else 0) else old(accelMode))
      ensures gyroMode == (if accel then old(gyroMode) else Some(if enable then 3 else 0))
      ensures !accelEnabled && !gyroEnabled ==> odr == old(odr)
      ensures accelEnabled && !gyroEnabled ==> Serves(odr, accelPeriodNs)
      ensures gyroEnabled && !accelEnabled ==> Serves(odr, gyroPeriodNs)
      ensures accelEnabled && gyroEnabled ==> Serves(odr, Min(accelPeriodNs, gyroPeriodNs))
    {
      if accel {
        accelEnabled := enable;
      } else {
        gyroEnabled := enable;
      }
      UpdateSamplingRate();
      if accel {
        accelMode := Some(if enable then 3 else 0);
      } else {
        gyroMode := Some(if enable then 3 else 0);
      }
    }

    method SetSamplingRate(accel: bool, samplingPeriodNs: int)
      modifies this
      ensures accelPeriodNs == (if accel then samplingPeriodNs else old(accelPeriodNs)) && accelEnabled == old(accelEnabled)
      ensures gyroPeriodNs == (if accel then old(gyroPeriodNs) else samplingPeriodNs) && gyroEnabled == old(gyroEnabled)
      ensures accelMode == old(accelMode) && gyroMode == old(gyroMode)
      ensures !accelEnabled && !gyroEnabled ==> odr == old(odr)
      ensures accelEnabled && !gyroEnabled ==> Serves(odr, accelPeriodNs)
      ensures gyroEnabled && !accelEnabled ==> Serves(odr, gyroPeriodNs)
      ensures accelEnabled && gyroEnabled ==> Serves(odr, Min(accelPeriodNs, gyroPeriodNs))
    {
      if accel {
        accelPeriodNs := samplingPeriodNs;
      } else {
        gyroPeriodNs := samplingPeriodNs;
      }
      UpdateSamplingRate();
    }

    method UpdateSamplingRate()
      modifies this`odr
      ensures !accelEnabled && !gyroEnabled ==> odr == old(odr)
      ensures accelEnabled && !gyroEnabled ==> Serves(odr, accelPeriodNs)
      ensures gyroEnabled && !accelEnabled ==> Serves(odr, gyroPeriodNs)
      ensures accelEnabled && gyroEnabled ==> Serves(odr, Min(accelPeriodNs, gyroPeriodNs))
    {
      var samplingPeriodNs := 0;
      if accelEnabled && gyroEnabled {
        samplingPeriodNs := if gyroPeriodNs < accelPeriodNs then gyroPeriodNs else accelPeriodNs;
      } else if accelEnabled {
        samplingPeriodNs := accelPeriodNs;
      } else if gyroEnabled {
        samplingPeriodNs := gyroPeriodNs;
      } else {
        return;
      }
      var rate, k := SelectRate(samplingPeriodNs);
      if samplingPeriodNs >= MIN_SAMPLING_RATE_NS {
        OdrIs(k);
      }
      odr := Some(rate);
    }
  }

  /** The rate written for a request: 400 Hz / 2^k for the chosen k, and zero below 2.5 ms. */
  ghost predicate Serves(odr: Option<int>, request: int) {
    && odr.Some?
    && (request >= MIN_SAMPLING_RATE_NS ==> exists k :: IsChosen(request, k) && odr.value == 400 / Pow2(k))
    && (request < MIN_SAMPLING_RATE_NS ==> odr.value == 0)
  }
}
