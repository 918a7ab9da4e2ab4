/** CompositeSensorCore: the fusion's fields and the methods that update them (CompositeSensors.cpp). */
module Fusion {
  import opened Reals
  import opened Space
  import opened Quaternion
  import opened FusionSteps
  import opened Blocks
  import opened Covariance
  import opened NoiseGuard
  import opened KalmanPredict
  import opened Forms33
  import opened KalmanUpdate
  import opened Inversion33
  import opened Transition
  import Attitude
  import G = GaussJordan

  const DEFAULT_ACC_STDEV := 0.015
  const DEFAULT_MAG_STDEV := 0.1
  const FREE_FALL_THRESHOLD := 0.1 * NOMINAL_GRAVITY

  /** Orientation, bias and covariance after both measurement updates, with the two inverses they used. */
  datatype Correction = Correction(q: Quat, bias: Vec3, p: Block, horizontalSi: Mat33, verticalSi: Mat33)

  function MeasurementNoise(libm: Libm, l: real): real
    requires l != 0.0
  {
    1.0 / l * DEFAULT_ACC_STDEV * libm.exp(libm.sqrt(AbsR(l - NOMINAL_GRAVITY)))
  }

  /** The pseudo-measurement of the horizontal reference changes the covariance only; the accelerometer's
      measurement of the vertical then corrects all three. */
  ghost predicate IsCorrection(libm: Libm, q: Quat, bias: Vec3, p: Block, acc: Vec3, c: Correction)
    requires libm.Sound() && IsUnit(q) && Length(libm, acc) != 0.0
  {
    var north, up := Expected(q, Vec3(0.0, 1.0, 0.0)), Expected(q, Vec3(0.0, 0.0, 1.0));
    var p' := Checked(Updated(p, CrossMatrix(north, 0.0), c.horizontalSi));
    var l, e := CrossMatrix(up, 0.0), Sub(Scale(acc, 1.0 / Length(libm, acc)), up);
    && IsInverse(Innovation(north, p, DEFAULT_MAG_STDEV), c.horizontalSi)
    && IsInverse(Innovation(up, p', MeasurementNoise(libm, Length(libm, acc))), c.verticalSi)
    && c.p == Checked(Updated(p', l, c.verticalSi))
    && c.q == Corrected(libm, q, MulV(Gain0(p', l, c.verticalSi), e))
    && c.bias == Add(bias, MulV(Gain1(p', l, c.verticalSi), e))
  }

  class CompositeSensorCore {
    const libm: Libm
    var mX0: Quat
    var mX1: Vec3
    var mBa: Vec3
    var mBm: Vec3
    // mPhi[0][1] and mPhi[1][1] are never assigned: they keep whatever they held
    var mPhi: Block
    var mP: Block
    var mGQGt: Block
    var mGyroVar: real
    var mSamplingPeriodNs: int
    var mLastTimestamp: int
    var mJustStarted: bool

    /** What every update of a started fusion keeps. */
    ghost predicate Valid()
      reads this
    {
      && libm.Sound() && IsUnit(mX0) && mX0.w >= 0.0
      && SymmetricB(mP) && SymmetricB(mGQGt)
      && mBa == Vec3(0.0, 0.0, 1.0) && mBm == Vec3(0.0, 1.0, 0.0)
    }

    ghost predicate Proper()
      reads this
    {
      PositiveSemidefinite(mP) && PositiveSemidefinite(mGQGt)
    }

    /** The transition blocks, the sampling period and mJustStarted have no initial value in the source. */
    constructor (libm: Libm, phi: Block, samplingPeriodNs: int, justStarted: bool)
      ensures this.libm == libm && mPhi == phi && mSamplingPeriodNs == samplingPeriodNs && mJustStarted == justStarted
      ensures mLastTimestamp == 0 && mGyroVar == 0.0
    {
      this.libm := libm;
      mX0, mX1 := ZERO_QUAT, ZERO3;
      mBa, mBm := ZERO3, ZERO3;
      mPhi, mP, mGQGt := phi, ZERO66, ZERO66;
      mGyroVar, mSamplingPeriodNs, mLastTimestamp, mJustStarted := 0.0, samplingPeriodNs, 0, justStarted;
    }

    method Activate(enable: bool)
      modifies this`mJustStarted
      ensures mJustStarted
    {
      mJustStarted := true;
    }

    method InitFusion(q: Quat)
      requires libm.Sound() && IsUnit(q) && q.w >= 0.0
      modifies this
      ensures Valid() && mX0 == q && mX1 == ZERO3 && mP == ZERO66
      ensures mPhi == old(mPhi) && mSamplingPeriodNs == old(mSamplingPeriodNs) && mJustStarted == old(mJustStarted)
      ensures mLastTimestamp == old(mLastTimestamp)
      ensures mGyroVar == if old(mGyroVar) == 0.0 then DEFAULT_GYRO_VAR else old(mGyroVar)
      ensures mGQGt == ProcessNoise(mGyroVar, mSamplingPeriodNs as real / 1000000000.0)
      ensures mGyroVar >= 0.0 ==> (Proper() <==> mSamplingPeriodNs >= 0)
    {
      hide IsUnit, Libm.Sound, ProcessNoise, SymmetricB, PositiveSemidefinite;
      if mGyroVar == 0.0 {
        mGyroVar := DEFAULT_GYRO_VAR;
      }
      mBa, mBm := Vec3(0.0, 0.0, 1.0), Vec3(0.0, 1.0, 0.0);
      mX0, mX1 := q, ZERO3;
      var dT := mSamplingPeriodNs as real / 1000000000.0;
      mGQGt := ProcessNoise(mGyroVar, dT);
      mP := ZERO66;
      ProcessNoiseSymmetric(mGyroVar, dT);
      if mGyroVar >= 0.0 {
        ProcessNoiseExactly(mGyroVar, dT);
      }
      ZeroIsCovariance();
    }

    /** Normalising a zero sample divides by zero: the code's result is then not a number, and false is returned. */
    method InitRodrParams(acc: Vec3) returns (ok: bool)
      requires libm.Sound()
      modifies this
      ensures ok <==> acc != ZERO3
      ensures ok ==> Valid() && mX0 == InitialOrientation(libm, acc) && mX1 == ZERO3 && mP == ZERO66
      ensures mPhi == old(mPhi) && mSamplingPeriodNs == old(mSamplingPeriodNs) && mJustStarted == old(mJustStarted)
      ensures mLastTimestamp == old(mLastTimestamp)
      ensures ok && mGyroVar >= 0.0 ==> (Proper() <==> mSamplingPeriodNs >= 0)
    {
      hide IsUnit, Frame, MatrixToQuat, IsRotation;
      if acc == ZERO3 {
        return false;
      }
      FrameIsRotation(libm, acc);
      MatrixToQuatIsUnit(Frame(libm, acc), libm.sqrt);
      InitFusion(MatrixToQuat(Frame(libm, acc), libm.sqrt));
      return true;
    }

    method Predict(w: Vec3, dT: real)
      requires Valid()
      modifies this`mX0, this`mPhi, this`mP
      ensures Valid()
      ensures mX0 == Turned(libm, old(mX0), Sub(w, mX1), dT)
      ensures var we := Rate(libm, Sub(w, mX1));
        && Length(libm, we) != 0.0
        && mPhi == old(mPhi).(m00 := Phi00(libm, we, dT), m10 := Phi10(libm, we, dT))
      ensures mP == Checked(Predicted(mPhi, old(mP), mGQGt))
      ensures old(Proper()) ==> Proper() && mP == Predicted(mPhi, old(mP), mGQGt)
    {
      hide IsUnit, Libm.Sound, Turned, Phi00, Phi10, SymmetricB, PositiveSemidefinite, Congruence, AddB, KeepsCovariance, Checked;
      var we := Rate(libm, Sub(w, mX1));
      RateIsNonzero(libm, Sub(w, mX1));
      mPhi := mPhi.(m00 := Phi00(libm, we, dT), m10 := Phi10(libm, we, dT));
      TurnedIsUnit(libm, mX0, Sub(w, mX1), dT);
      mX0 := Turned(libm, mX0, Sub(w, mX1), dT);
      PredictedIsCovariance(mPhi, mP, mGQGt);
      ResetExactly(Predicted(mPhi, mP, mGQGt));
      mP := CheckState(Predicted(mPhi, mP, mGQGt));
    }

    /** The measurement update of P, with the inverse of S as the code computes it. When S cannot be inverted
        the code divides by zero: its result is then not a number, and false is returned. */
    method UpdateCovariance(b: Vec3, sigma: real) returns (ok: bool, k0: Mat33, k1: Mat33, ghost si: Mat33)
      requires SymmetricB(mP)
      modifies this`mP
      ensures ok <==> !Singular33(Innovation(b, old(mP), sigma))
      ensures !ok ==> mP == old(mP)
      ensures ok ==> IsInverse(Innovation(b, old(mP), sigma), si) && Symmetric(si)
      ensures ok ==> var l := CrossMatrix(b, 0.0);
                k0 == Gain0(old(mP), l, si) && k1 == Gain1(old(mP), l, si) && mP == Updated(old(mP), l, si)
    {
      hide CrossMatrix, Mul, AddM, SubM, Transpose, Diagonal, ScaledCovariance, SymmetricB, Symmetric, Singular33, IsInverse;
      var l := CrossMatrix(b, 0.0);
      var apat := ScaleCovariance(l, mP.m00);
      var s := AddM(apat, Diagonal(sigma * sigma));
      InnovationSymmetric(b, mP, sigma);
      var inverse := Invert33(s);
      k0, k1, si := ZERO33, ZERO33, ZERO33;
      if inverse.None? {
        return false, k0, k1, si;
      }
      si := inverse.value;
      InverseOfSymmetric(s, si);
      var ltSi := Mul(Transpose(l), inverse.value);
      k0 := Mul(mP.m00, ltSi);
      k1 := Mul(Transpose(mP.m10), ltSi);
      var k0l, k1l := Mul(k0, l), Mul(k1, l);
      mP := mP.(m00 := SubM(mP.m00, Mul(k0l, mP.m00)));
      mP := mP.(m11 := SubM(mP.m11, Mul(k1l, mP.m10)));
      mP := mP.(m10 := SubM(mP.m10, Mul(k0l, mP.m10)));
      mP := mP.(m01 := Transpose(mP.m10));
      return true, k0, k1, si;
    }

    method Update(z: Vec3, reference: Vec3, sigma: real) returns (ok: bool, ghost si: Mat33)
      requires Valid()
      modifies this`mX0, this`mX1, this`mP
      ensures ok <==> !Singular33(Innovation(Expected(old(mX0), reference), old(mP), sigma))
      ensures !ok ==> mX0 == old(mX0) && mX1 == old(mX1) && mP == old(mP)
      ensures ok ==> Valid()
      ensures ok ==>
                var b, p := Expected(old(mX0), reference), old(mP);
                var l := CrossMatrix(b, 0.0);
                && IsInverse(Innovation(b, p, sigma), si)
                && mP == Checked(Updated(p, l, si))
                && mX0 == Corrected(libm, old(mX0), MulV(Gain0(p, l, si), Sub(z, b)))
                && mX1 == Add(old(mX1), MulV(Gain1(p, l, si), Sub(z, b)))
      ensures ok && z == Expected(old(mX0), reference) ==> mX0 == old(mX0) && mX1 == old(mX1)
      ensures var b := Expected(old(mX0), reference);
        PositiveSemidefinite(old(mP)) ==>
          && (StrictlyOutweighs(sigma, TwistVector(b, old(mP))) ==> ok)
          && (ok && Outweighs(sigma, TwistVector(b, old(mP))) ==>
                PositiveSemidefinite(mP) && mP == Updated(old(mP), CrossMatrix(b, 0.0), si))
      ensures old(mP) == ZERO66 && sigma != 0.0 ==> ok && mX0 == old(mX0) && mX1 == old(mX1) && mP == ZERO66
    {
      hide IsUnit, Libm.Sound, Corrected, CrossMatrix, SymmetricB, PositiveSemidefinite, KeepsCovariance, Singular33, Checked,
           Innovation, Updated, Gain0, Gain1, Expected, Twist, IsInverse, MulV, Add, Sub, Outweighs, StrictlyOutweighs, TwistVector;
      var b := Expected(mX0, reference);
      ghost var p := mP;
      var k0, k1;
      ok, k0, k1, si := UpdateCovariance(b, sigma);
      ZeroIsCovariance();
      NothingCorrelated(b);
      if p == ZERO66 && sigma != 0.0 {
        NoTwistOutweighed(b, p, sigma);
      }
      if PositiveSemidefinite(p) && StrictlyOutweighs(sigma, TwistVector(b, p)) {
        ProperUpdateSucceeds(p, b, sigma);
      }
      if !ok {
        return;
      }
      UpdatedSymmetric(p, CrossMatrix(b, 0.0), si);
      ResetExactly(mP);
      if PositiveSemidefinite(p) && Outweighs(sigma, TwistVector(b, p)) {
        ProperUpdateStaysProper(p, b, sigma, si);
      }
      var e := Sub(z, b);
      if z == b {
        NothingToCorrect(k0, b);
        NothingToCorrect(k1, b);
        NoCorrection(libm, mX0);
        NoBias(mX1);
      }
      if p == ZERO66 {
        UpdatedZero(CrossMatrix(b, 0.0), si);
        ZeroApplied(e);
        NoCorrection(libm, mX0);
        NoBias(mX1);
        PositiveIsKept(ZERO66);
      }
      var dq := MulV(k0, e);
      CorrectedIsUnit(libm, mX0, dq);
      mX0 := Corrected(libm, mX0, dq);
      var db := MulV(k1, e);
      mX1 := Add(mX1, db);
      mP := CheckState(mP);
    }

    /** The error correction outside free fall: a pseudo-measurement of the horizontal reference, which agrees
        with the orientation by construction, and the accelerometer's measurement of the vertical. */
    method CorrectErrors(acc: Vec3, l: real) returns (ok: bool, ghost c: Correction)
      requires Valid() && l == Length(libm, acc) && l > 0.0
      modifies this`mX0, this`mX1, this`mP
      ensures ok ==> Valid()
      ensures ok ==> IsCorrection(libm, old(mX0), old(mX1), old(mP), acc, c) && mX0 == c.q && mX1 == c.bias && mP == c.p
      ensures old(mP) == ZERO66 ==> ok && mX0 == old(mX0) && mX1 == old(mX1) && mP == ZERO66
    {
      hide Length, Sub, Twist, CrossMatrix, Scale, AbsR, IsUnit, Libm.Sound, Corrected, SymmetricB, PositiveSemidefinite,
           KeepsCovariance, Singular33, Checked, Innovation, Updated, Gain0, Gain1, Expected, IsInverse, MulV, Add;
      var lInv := 1.0 / l;
      var m := Expected(mX0, mBm);
      var unityA := Scale(acc, lInv);
      var d := libm.sqrt(AbsR(l - NOMINAL_GRAVITY));
      var p := lInv * DEFAULT_ACC_STDEV * libm.exp(d);
      NoiseIsPositive(libm, lInv, d);
      ghost var s1, s2;
      c := Correction(mX0, mX1, mP, ZERO33, ZERO33);
      ok, s1 := Update(m, mBm, DEFAULT_MAG_STDEV);
      if !ok {
        return;
      }
      assert mX0 == old(mX0) && mX1 == old(mX1);
      assert p == MeasurementNoise(libm, l);
      ok, s2 := Update(unityA, mBa, p);
      c := Correction(mX0, mX1, mP, s1, s2);
    }

    /** calculateGravity on one accelerometer and one gyroscope sample. */
    method CalculateGravity(acc: Vec3, gyro: Vec3, timestamp: int) returns (ok: bool, g: Vec3, ghost c: Correction)
      requires libm.Sound() && (mJustStarted || Valid())
      modifies this
      ensures ok ==> Valid() && !mJustStarted && mLastTimestamp == timestamp
      ensures ok ==> g == GravityOf(mX0) && Dot(g, g) == NOMINAL_GRAVITY * NOMINAL_GRAVITY
      // standard gravity along where the orientation has up, turned by the gyroscope from where it was before the call;
      // the first sample says itself where that is
      ensures ok ==> g == Scale(QuatToMatrix(mX0).c2, 9.80665)
      ensures old(mJustStarted) && ok ==>
                var dT := (timestamp - old(mLastTimestamp)) as real / 1000000000.0;
                && Length(libm, acc) > 0.0 && Length(libm, Rate(libm, gyro)) > 0.0
                && (Attitude.DoubleAngles(libm) ==>
                      g == MulV(Phi00(libm, Rate(libm, gyro), dT), Scale(acc, 9.80665 / Length(libm, acc))))
      ensures !old(mJustStarted) && Length(libm, acc) < FREE_FALL_THRESHOLD ==>
                var dT := (timestamp - old(mLastTimestamp)) as real / 1000000000.0;
                var we := Rate(libm, Sub(gyro, old(mX1)));
                && Length(libm, we) > 0.0
                && (Attitude.DoubleAngles(libm) ==>
                      g == MulV(Phi00(libm, we, dT), Scale(QuatToMatrix(old(mX0)).c2, 9.80665)))
      ensures !old(mJustStarted) && Length(libm, acc) >= FREE_FALL_THRESHOLD && ok ==>
                var dT := (timestamp - old(mLastTimestamp)) as real / 1000000000.0;
                var we := Rate(libm, Sub(gyro, c.bias));
                && Length(libm, we) > 0.0
                && (Attitude.DoubleAngles(libm) ==>
                      g == MulV(Phi00(libm, we, dT), Scale(QuatToMatrix(c.q).c2, 9.80665)))
      // the first sample starts the fusion, unless it is zero
      ensures old(mJustStarted) ==> (ok <==> acc != ZERO3)
      ensures old(mJustStarted) && ok ==>
                var dT := (timestamp - old(mLastTimestamp)) as real / 1000000000.0;
                mX0 == Turned(libm, InitialOrientation(libm, acc), gyro, dT) && mX1 == ZERO3
                && mP == Checked(Predicted(mPhi, ZERO66, mGQGt))
      // in free fall only the gyroscope counts
      ensures !old(mJustStarted) && Length(libm, acc) < FREE_FALL_THRESHOLD ==>
                var dT := (timestamp - old(mLastTimestamp)) as real / 1000000000.0;
                ok && mX0 == Turned(libm, old(mX0), Sub(gyro, old(mX1)), dT) && mX1 == old(mX1)
                && mP == Checked(Predicted(mPhi, old(mP), mGQGt))
      // otherwise both sensors do
      ensures !old(mJustStarted) && Length(libm, acc) >= FREE_FALL_THRESHOLD && ok ==>
                var dT := (timestamp - old(mLastTimestamp)) as real / 1000000000.0;
                && IsCorrection(libm, old(mX0), old(mX1), old(mP), acc, c) && IsUnit(c.q)
                && mX0 == Turned(libm, c.q, Sub(gyro, c.bias), dT) && mX1 == c.bias
                && mP == Checked(Predicted(mPhi, c.p, mGQGt))
    {
      hide IsUnit, Libm.Sound, Turned, Phi00, Phi10, SymmetricB, PositiveSemidefinite, Predicted, Checked, InitialOrientation,
           QuatToMatrix, Dot, Add, Scale, Rate, IsCorrection, Length, Sub, MulV, GravityOf, Attitude.DoubleAngles;
      ok, g, c := false, ZERO3, Correction(mX0, mX1, mP, ZERO33, ZERO33);
      if mJustStarted {
        var started := InitRodrParams(acc);
        if !started {
          return;
        }
        InitialGravity(libm, acc);
        mJustStarted := false;
      }
      var l := Length(libm, acc);
      if l >= FREE_FALL_THRESHOLD {
        var corrected;
        corrected, c := CorrectErrors(acc, l);
        if !corrected {
          return;
        }
      }
      var deltaTime := timestamp - mLastTimestamp;
      mLastTimestamp := timestamp;
      SubZero(gyro);
      ghost var before := mX0;
      RateIsNonzero(libm, Sub(gyro, mX1));
      if Attitude.DoubleAngles(libm) {
        Attitude.GravityTurns(libm, before, Sub(gyro, mX1), deltaTime as real / 1000000000.0);
      }
      Predict(gyro, deltaTime as real / 1000000000.0);
      g := GravityOf(mX0);
      GravityIs(mX0);
      GravityIs(before);
      GravityLength(mX0);
      ok := true;
    }
  }

  lemma GravityIs(q: Quat)
    ensures GravityOf(q) == Scale(QuatToMatrix(q).c2, 9.80665)
  {
  }

  lemma NothingCorrelated(b: Vec3)
    ensures Twist(b, ZERO66.m00) == 0.0
  {
  }

  lemma SubZero(u: Vec3)
    ensures Sub(u, ZERO3) == u
  {
  }

  lemma ZeroTimesMatrix(a: Mat33)
    ensures Mul(ZERO33, a) == ZERO33
  {
    hide MulV;
    ZeroApplied(a.c0);
    ZeroApplied(a.c1);
    ZeroApplied(a.c2);
  }

  lemma ZeroIdentities()
    ensures SubM(ZERO33, ZERO33) == ZERO33 && Transpose(ZERO33) == ZERO33
  {
  }

  lemma UpdatedZero(l: Mat33, si: Mat33)
    ensures Updated(ZERO66, l, si) == ZERO66 && Gain0(ZERO66, l, si) == ZERO33 && Gain1(ZERO66, l, si) == ZERO33
  {
    hide Mul, SubM, Transpose;
    ZeroTimesMatrix(Mul(Transpose(l), si));
    ZeroTimesMatrix(l);
    ZeroTimesMatrix(ZERO33);
    ZeroIdentities();
  }

  lemma NoiseIsPositive(libm: Libm, lInv: real, d: real)
    requires libm.Sound() && lInv > 0.0
    ensures lInv * DEFAULT_ACC_STDEV * libm.exp(d) > 0.0
  {
    PositiveProduct(lInv * DEFAULT_ACC_STDEV, libm.exp(d));
  }

  /** The noise of a sample of length l: the accelerometer's, as an angle, times the exponential of the root of how far
      the length is from standard gravity. */
  lemma NoiseOfSample(libm: Libm, l: real, d: real)
    requires libm.Sound() && l > 0.0 && d >= 0.0 && d * d == AbsR(l - 9.80665)
    ensures l * MeasurementNoise(libm, l) == 0.015 * libm.exp(d) && MeasurementNoise(libm, l) > 0.0
  {
    hide IsSqrt;
    SqrtUnique(libm.sqrt, AbsR(l - NOMINAL_GRAVITY), d);
    NoiseTimes(l, 1.0 / l, libm.exp(d));
    NoiseIsPositive(libm, 1.0 / l, d);
  }

  lemma NoiseTimes(l: real, i: real, x: real)
    requires l * i == 1.0
    ensures l * (i * 0.015 * x) == 0.015 * x
  {
    assert l * (i * 0.015 * x) == (l * i) * (0.015 * x);
  }

  /** From a proper covariance S can be inverted if sigma^2 strictly outweighs the twist; if it just outweighs it, S
      can be inverted exactly if the measurement is blind in no direction. */
  lemma ProperUpdateSucceeds(p: Block, b: Vec3, sigma: real)
    requires SymmetricB(p) && PositiveSemidefinite(p)
    ensures StrictlyOutweighs(sigma, TwistVector(b, p)) ==> !Singular33(Innovation(b, p, sigma))
    ensures Outweighs(sigma, TwistVector(b, p)) ==>
              (Singular33(Innovation(b, p, sigma))
               <==> exists y :: Blind(Sandwich(CrossMatrix(b, 0.0), p.m00), ActualNoise(b, p, sigma), y))
  {
    hide PositiveSemidefinite, SymmetricB, Innovation, Singular33, MeasurementCovariance, Outweighs, StrictlyOutweighs, TwistVector,
         Blind, ActualNoise, CrossMatrix, Sandwich, Positive33, Definite33;
    var l, n := CrossMatrix(b, 0.0), ActualNoise(b, p, sigma);
    InnovationSplits(b, p, sigma);
    NoiseProperExactly(b, p, sigma);
    NoiseDefiniteExactly(b, p, sigma);
    if StrictlyOutweighs(sigma, TwistVector(b, p)) {
      MeasurementNonsingular(p, l, Innovation(b, p, sigma), n);
    }
    if Outweighs(sigma, TwistVector(b, p)) {
      MeasurementSingularExactly(p, l, Innovation(b, p, sigma), n);
    }
  }

  /** From a proper covariance the update leaves a proper one if sigma^2 outweighs the twist; and when the code's S is
      positive semidefinite, only if it does. */
  lemma ProperUpdateStaysProper(p: Block, b: Vec3, sigma: real, si: Mat33)
    requires SymmetricB(p) && PositiveSemidefinite(p)
    requires IsInverse(Innovation(b, p, sigma), si) && Symmetric(si)
    ensures var t := Updated(p, CrossMatrix(b, 0.0), si);
      && SymmetricB(t)
      && (PositiveSemidefinite(t) ==> Checked(t) == t)
      && (Outweighs(sigma, TwistVector(b, p)) ==> PositiveSemidefinite(t))
      && (Positive33(Innovation(b, p, sigma)) ==> (PositiveSemidefinite(t) <==> Outweighs(sigma, TwistVector(b, p))))
      && (PositiveSemidefinite(t) <==> forall y :: Leftover(ActualNoise(b, p, sigma), si, y) >= 0.0)
  {
    hide PositiveSemidefinite, SymmetricB, Symmetric, Innovation, MeasurementCovariance, Outweighs, TwistVector, Updated, Checked,
         ActualNoise, CrossMatrix, Positive33, Leftover, Mul;
    var l, n, s, t := CrossMatrix(b, 0.0), ActualNoise(b, p, sigma), Innovation(b, p, sigma), Updated(p, CrossMatrix(b, 0.0), si);
    InnovationSplits(b, p, sigma);
    InnovationSymmetric(b, p, sigma);
    NoiseProperExactly(b, p, sigma);
    UpdatedSymmetric(p, l, si);
    UpdatedPositiveExactly(p, l, s, n, si);
    if Outweighs(sigma, TwistVector(b, p)) {
      UpdatedPositive(p, l, s, n, si);
    }
    if PositiveSemidefinite(t) {
      PositiveIsKept(t);
    }
  }

  lemma NothingToCorrect(k: Mat33, b: Vec3)
    ensures MulV(k, Sub(b, b)) == ZERO3
  {
    assert Sub(b, b) == ZERO3;
    TimesZero(k, b);
  }

  lemma NoBias(u: Vec3)
    ensures Add(u, ZERO3) == u
  {
  }

  // ----- predict from nothing

  lemma TimesZeroMatrix(a: Mat33)
    ensures Mul(a, ZERO33) == ZERO33
  {
    hide MulV, Dot;
    TimesZero(a, ZERO3);
  }

  lemma AddZero(u: Vec3)
    ensures Add(ZERO3, u) == u
  {
  }

  lemma ZeroSums(a: Mat33)
    ensures AddM(ZERO33, ZERO33) == ZERO33 && AddM(ZERO33, a) == a
  {
    hide Add;
    AddZero(ZERO3);
    AddZero(a.c0);
    AddZero(a.c1);
    AddZero(a.c2);
  }

  /** predict from the zero covariance leaves the process noise, whatever the transition. */
  lemma PredictedFromZero(phi: Block, noise: Block)
    ensures Predicted(phi, ZERO66, noise) == noise
  {
    hide Mul, AddM;
    TimesZeroMatrix(phi.m00);
    TimesZeroMatrix(phi.m01);
    TimesZeroMatrix(phi.m10);
    TimesZeroMatrix(phi.m11);
    ZeroTimesMatrix(TransposeB(phi).m00);
    ZeroTimesMatrix(TransposeB(phi).m01);
    ZeroTimesMatrix(TransposeB(phi).m10);
    ZeroTimesMatrix(TransposeB(phi).m11);
    ZeroSums(noise.m00);
    ZeroSums(noise.m01);
    ZeroSums(noise.m10);
    ZeroSums(noise.m11);
  }

  // ----- the covariance over whole runs

  datatype CovarianceStep = Advance(phi: Block) | Measure(b: Vec3, sigma: real, si: Mat33)

  /** mP before checkState. */
  function Unchecked(p: Block, noise: Block, step: CovarianceStep): Block {
    match step
    case Advance(phi) => Predicted(phi, p, noise)
    case Measure(b, _, si) => Updated(p, CrossMatrix(b, 0.0), si)
  }

  ghost predicate CanTakeStep(p: Block, step: CovarianceStep) {
    step.Measure? ==> IsInverse(Innovation(step.b, p, step.sigma), step.si)
  }

  /** The covariances of a run of predict and update steps from the reset covariance. */
  ghost predicate IsCovarianceRun(noise: Block, steps: seq<CovarianceStep>, ps: seq<Block>) {
    && |ps| == |steps| + 1 && ps[0] == ZERO66
    && forall i :: 0 <= i < |steps| ==> CanTakeStep(ps[i], steps[i]) && ps[i + 1] == Checked(Unchecked(ps[i], noise, steps[i]))
  }

  lemma StepKeepsSymmetry(p: Block, noise: Block, step: CovarianceStep)
    requires SymmetricB(p) && SymmetricB(noise) && CanTakeStep(p, step)
    ensures SymmetricB(Unchecked(p, noise, step)) && SymmetricB(Checked(Unchecked(p, noise, step)))
  {
    hide SymmetricB, Symmetric, Predicted, Updated, Innovation, IsInverse, Checked, CrossMatrix;
    match step
    case Advance(phi) =>
      PredictedIsCovariance(phi, p, noise);
      ResetExactly(Unchecked(p, noise, step));
    case Measure(b, sigma, si) =>
      InnovationSymmetric(b, p, sigma);
      InverseOfSymmetric(Innovation(b, p, sigma), si);
      UpdatedSymmetric(p, CrossMatrix(b, 0.0), si);
      ResetExactly(Unchecked(p, noise, step));
  }

  lemma StepKeepsProper(p: Block, noise: Block, step: CovarianceStep)
    requires SymmetricB(p) && SymmetricB(noise) && CanTakeStep(p, step)
    requires PositiveSemidefinite(p) && PositiveSemidefinite(noise)
    requires step.Measure? ==> Outweighs(step.sigma, TwistVector(step.b, p))
    ensures PositiveSemidefinite(Unchecked(p, noise, step)) && Checked(Unchecked(p, noise, step)) == Unchecked(p, noise, step)
  {
    hide SymmetricB, Symmetric, Predicted, Updated, Innovation, IsInverse, Checked, CrossMatrix, PositiveSemidefinite, Outweighs,
         TwistVector, Leftover, Positive33, ActualNoise;
    match step
    case Advance(phi) => PredictedIsCovariance(phi, p, noise);
    case Measure(b, sigma, si) =>
      InnovationSymmetric(b, p, sigma);
      InverseOfSymmetric(Innovation(b, p, sigma), si);
      ProperUpdateStaysProper(p, b, sigma, si);
  }

  /** Through any sequence of predict and update steps the covariance stays symmetric. */
  lemma {:induction false} CovarianceStaysSymmetric(noise: Block, steps: seq<CovarianceStep>, ps: seq<Block>, k: nat)
    requires SymmetricB(noise) && IsCovarianceRun(noise, steps, ps) && k < |ps|
    ensures SymmetricB(ps[k])
  {
    hide SymmetricB, Unchecked, Checked, CanTakeStep;
    if k == 0 {
      ZeroIsCovariance();
    } else {
      CovarianceStaysSymmetric(noise, steps, ps, k - 1);
      StepKeepsSymmetry(ps[k - 1], noise, steps[k - 1]);
    }
  }

  /** As long as the noise of every update outweighs the twist, it also stays positive semidefinite and is never reset. */
  lemma {:induction false} CovarianceStaysProper(noise: Block, steps: seq<CovarianceStep>, ps: seq<Block>, k: nat)
    requires SymmetricB(noise) && PositiveSemidefinite(noise) && IsCovarianceRun(noise, steps, ps) && k < |ps|
    requires forall i :: 0 <= i < k && steps[i].Measure? ==>
               Outweighs(steps[i].sigma, TwistVector(steps[i].b, ps[i]))
    ensures PositiveSemidefinite(ps[k])
    ensures k > 0 ==> ps[k] == Unchecked(ps[k - 1], noise, steps[k - 1])
  {
    hide SymmetricB, Unchecked, Checked, CanTakeStep, PositiveSemidefinite, Outweighs, TwistVector;
    if k == 0 {
      ZeroIsCovariance();
    } else {
      CovarianceStaysProper(noise, steps, ps, k - 1);
      CovarianceStaysSymmetric(noise, steps, ps, k - 1);
      StepKeepsProper(ps[k - 1], noise, steps[k - 1]);
    }
  }
}
