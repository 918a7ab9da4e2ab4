/** A run of the fusion's covariance that ends with checkState throwing it away. The first sample starts the fusion and
    predict gives the covariance its process noise, that of a coarse gyroscope over one second; the second sample is
    corrected by the horizontal and then by the vertical reference, and the twist outweighs the accelerometer's noise. */
module Divergence {
  import opened Reals
  import opened Space
  import opened Quaternion
  import opened FusionSteps
  import opened Blocks
  import opened Covariance
  import opened Inversion33
  import opened Forms33
  import opened KalmanUpdate
  import opened NoiseGuard
  import opened KalmanPredict
  import opened Fusion
  import opened Transition
  import Attitude
  import BiasTransition

  // ----- the numbers

  /** Where the two references are expected in body space. */
  function North(): Vec3 { Vec3(-2.0 / 3.0, 1.0 / 3.0, 2.0 / 3.0) }
  function Up(): Vec3 { Vec3(2.0 / 3.0, 2.0 / 3.0, 1.0 / 3.0) }

  /** The variance that predict leaves on the orientation, and the gyroscope variance that does it in a second. */
  function Variance(): real { 117.0 / 3500.0 }
  function GyroVar(): real { Variance() - 0.33333 * DEFAULT_GYRO_BIAS_VAR }

  function Noise(): Block { ProcessNoise(GyroVar(), 1.0) }

  function NorthCross(): Mat33 {
    Mat33(Vec3(0.0, 2.0 / 3.0, -1.0 / 3.0), Vec3(-2.0 / 3.0, 0.0, -2.0 / 3.0), Vec3(1.0 / 3.0, 2.0 / 3.0, 0.0))
  }
  function NorthSeen(): Mat33 {
    Mat33(Vec3(0.0, 39.0 / 1750.0, -39.0 / 3500.0),
          Vec3(-39.0 / 1750.0, 0.0, -39.0 / 1750.0),
          Vec3(39.0 / 3500.0, 39.0 / 1750.0, 0.0))
  }
  function NorthSignal(): Mat33 {
    Mat33(Vec3(13.0 / 700.0, 13.0 / 1750.0, 13.0 / 875.0),
          Vec3(13.0 / 1750.0, 26.0 / 875.0, -13.0 / 1750.0),
          Vec3(13.0 / 875.0, -13.0 / 1750.0, 13.0 / 700.0))
  }
  function NorthCovariance(): Mat33 {
    Mat33(Vec3(1.0 / 35.0, 13.0 / 1750.0, 13.0 / 875.0),
          Vec3(13.0 / 1750.0, 139.0 / 3500.0, -13.0 / 1750.0),
          Vec3(13.0 / 875.0, -13.0 / 1750.0, 1.0 / 35.0))
  }
  function NorthInverse(): Mat33 {
    Mat33(Vec3(2175.0 / 38.0, -325.0 / 19.0, -650.0 / 19.0),
          Vec3(-325.0 / 19.0, 600.0 / 19.0, 325.0 / 19.0),
          Vec3(-650.0 / 19.0, 325.0 / 19.0, 2175.0 / 38.0))
  }

  function NorthWeight(): Mat33 {
    Mat33(Vec3(0.0, -875.0 / 57.0, 875.0 / 114.0),
          Vec3(875.0 / 57.0, 0.0, 875.0 / 57.0),
          Vec3(-875.0 / 114.0, -875.0 / 57.0, 0.0))
  }

  function NorthGain(): Mat33 {
    Mat33(Vec3(0.0, -39.0 / 76.0, 39.0 / 152.0),
          Vec3(39.0 / 76.0, 0.0, 39.0 / 76.0),
          Vec3(-39.0 / 152.0, -39.0 / 76.0, 0.0))
  }

  function NorthGainSeen(): Mat33 {
    Mat33(Vec3(65.0 / 152.0, 13.0 / 76.0, 13.0 / 38.0),
          Vec3(13.0 / 76.0, 13.0 / 19.0, -13.0 / 76.0),
          Vec3(13.0 / 38.0, -13.0 / 76.0, 65.0 / 152.0))
  }

  function NorthLoss(): Mat33 {
    Mat33(Vec3(1521.0 / 106400.0, 1521.0 / 266000.0, 1521.0 / 133000.0),
          Vec3(1521.0 / 266000.0, 1521.0 / 66500.0, -1521.0 / 266000.0),
          Vec3(1521.0 / 133000.0, -1521.0 / 266000.0, 1521.0 / 106400.0))
  }

  /** The covariance of the orientation after the horizontal reference. */
  function Learned(): Mat33 {
    Mat33(Vec3(10179.0 / 532000.0, -1521.0 / 266000.0, -1521.0 / 133000.0),
          Vec3(-1521.0 / 266000.0, 351.0 / 33250.0, 1521.0 / 266000.0),
          Vec3(-1521.0 / 133000.0, 1521.0 / 266000.0, 10179.0 / 532000.0))
  }

  function UpCross(): Mat33 {
    Mat33(Vec3(0.0, 1.0 / 3.0, -2.0 / 3.0), Vec3(-1.0 / 3.0, 0.0, 2.0 / 3.0), Vec3(2.0 / 3.0, -2.0 / 3.0, 0.0))
  }
  function UpSeen(): Mat33 {
    Mat33(Vec3(-1521.0 / 266000.0, 7449.0 / 532000.0, -4407.0 / 266000.0),
          Vec3(39.0 / 133000.0, -1521.0 / 266000.0, 1443.0 / 133000.0),
          Vec3(1443.0 / 133000.0, -4407.0 / 266000.0, 1521.0 / 133000.0))
  }
  function UpSignal(): Mat33 {
    Mat33(Vec3(949.0 / 133000.0, -2431.0 / 266000.0, 533.0 / 133000.0),
          Vec3(-2431.0 / 266000.0, 8359.0 / 532000.0, -3497.0 / 266000.0),
          Vec3(533.0 / 133000.0, -3497.0 / 266000.0, 2431.0 / 133000.0))
  }
  function TwistAlongUp(): real { 507.0 / 53200.0 }
  function UpError(): Mat33 {
    Mat33(Vec3(0.0, -169.0 / 53200.0, 169.0 / 26600.0),
          Vec3(-169.0 / 53200.0, 0.0, -169.0 / 26600.0),
          Vec3(169.0 / 26600.0, -169.0 / 26600.0, 0.0))
  }
  function UpWithoutNoise(): Mat33 {
    Mat33(Vec3(949.0 / 133000.0, -117.0 / 9500.0, 689.0 / 66500.0),
          Vec3(-117.0 / 9500.0, 8359.0 / 532000.0, -39.0 / 2000.0),
          Vec3(689.0 / 66500.0, -39.0 / 2000.0, 2431.0 / 133000.0))
  }

  /** The noise variance at which S is singular. */
  function Critical(): real { 13.0 / 3800.0 }

  // ----- products of numbers

  lemma ColumnIs(a: Mat33, v: Vec3, w: Vec3)
    requires a.c0.x * v.x + a.c1.x * v.y + a.c2.x * v.z == w.x
    requires a.c0.y * v.x + a.c1.y * v.y + a.c2.y * v.z == w.y
    requires a.c0.z * v.x + a.c1.z * v.y + a.c2.z * v.z == w.z
    ensures MulV(a, v) == w
  {
  }

  lemma CrossOfNorth()
    ensures CrossMatrix(North(), 0.0) == NorthCross() && CrossMatrix(Up(), 0.0) == UpCross()
  {
  }

  lemma NoiseBlock()
    ensures Noise().m00 == Diagonal(Variance())
  {
  }

  lemma NorthSandwich()
    ensures Mul(NorthCross(), Diagonal(Variance())) == NorthSeen()
    ensures Mul(NorthSeen(), Transpose(NorthCross())) == NorthSignal()
  {
    hide MulV, SubM;
    ColumnIs(NorthCross(), Diagonal(Variance()).c0, NorthSeen().c0);
    ColumnIs(NorthCross(), Diagonal(Variance()).c1, NorthSeen().c1);
    ColumnIs(NorthCross(), Diagonal(Variance()).c2, NorthSeen().c2);
    ColumnIs(NorthSeen(), Transpose(NorthCross()).c0, NorthSignal().c0);
    ColumnIs(NorthSeen(), Transpose(NorthCross()).c1, NorthSignal().c1);
    ColumnIs(NorthSeen(), Transpose(NorthCross()).c2, NorthSignal().c2);
  }

  lemma NorthInverseIs()
    ensures IsInverse(NorthCovariance(), NorthInverse())
  {
    hide MulV, SubM;
    ColumnIs(NorthCovariance(), NorthInverse().c0, Diagonal(1.0).c0);
    ColumnIs(NorthCovariance(), NorthInverse().c1, Diagonal(1.0).c1);
    ColumnIs(NorthCovariance(), NorthInverse().c2, Diagonal(1.0).c2);
    ColumnIs(NorthInverse(), NorthCovariance().c0, Diagonal(1.0).c0);
    ColumnIs(NorthInverse(), NorthCovariance().c1, Diagonal(1.0).c1);
    ColumnIs(NorthInverse(), NorthCovariance().c2, Diagonal(1.0).c2);
  }

  lemma NorthGainIs()
    ensures Mul(Transpose(NorthCross()), NorthInverse()) == NorthWeight()
    ensures Mul(Diagonal(Variance()), NorthWeight())
         == NorthGain()
  {
    hide MulV, SubM;
    ColumnIs(Transpose(NorthCross()), NorthInverse().c0, NorthWeight().c0);
    ColumnIs(Transpose(NorthCross()), NorthInverse().c1, NorthWeight().c1);
    ColumnIs(Transpose(NorthCross()), NorthInverse().c2, NorthWeight().c2);
    ColumnIs(Diagonal(Variance()), NorthWeight().c0, NorthGain().c0);
    ColumnIs(Diagonal(Variance()), NorthWeight().c1, NorthGain().c1);
    ColumnIs(Diagonal(Variance()), NorthWeight().c2, NorthGain().c2);
  }

  lemma NorthCorrection()
    ensures Mul(NorthGain(), NorthCross())
         == NorthGainSeen()
    ensures Mul(NorthGainSeen(), Diagonal(Variance()))
         == NorthLoss()
    ensures SubM(Diagonal(Variance()), NorthLoss())
         == Learned()
  {
    hide MulV, SubM;
    ColumnIs(NorthGain(), NorthCross().c0, NorthGainSeen().c0);
    ColumnIs(NorthGain(), NorthCross().c1, NorthGainSeen().c1);
    ColumnIs(NorthGain(), NorthCross().c2, NorthGainSeen().c2);
    ColumnIs(NorthGainSeen(), Diagonal(Variance()).c0, NorthLoss().c0);
    ColumnIs(NorthGainSeen(), Diagonal(Variance()).c1, NorthLoss().c1);
    ColumnIs(NorthGainSeen(), Diagonal(Variance()).c2, NorthLoss().c2);
    Remains();
  }

  lemma Remains()
    ensures SubM(Diagonal(Variance()), NorthLoss()) == Learned()
  {
  }

  lemma UpSandwich()
    ensures Mul(UpCross(), Learned()) == UpSeen()
    ensures Mul(UpSeen(), Transpose(UpCross())) == UpSignal()
  {
    hide MulV, SubM;
    ColumnIs(UpCross(), Learned().c0, UpSeen().c0);
    ColumnIs(UpCross(), Learned().c1, UpSeen().c1);
    ColumnIs(UpCross(), Learned().c2, UpSeen().c2);
    ColumnIs(UpSeen(), Transpose(UpCross()).c0, UpSignal().c0);
    ColumnIs(UpSeen(), Transpose(UpCross()).c1, UpSignal().c1);
    ColumnIs(UpSeen(), Transpose(UpCross()).c2, UpSignal().c2);
  }

  lemma UpTwist()
    ensures Twist(Up(), Learned()) == TwistAlongUp()
    ensures TwistError(Up(), TwistAlongUp()) == UpError()
    ensures AddM(UpSignal(), UpError()) == UpWithoutNoise()
  {
  }

  lemma NorthTwist()
    ensures Twist(North(), Diagonal(Variance())) == 0.0
    ensures TwistError(North(), 0.0) == ZERO33
    ensures AddM(NorthSignal(), AddM(ZERO33, Diagonal(DEFAULT_MAG_STDEV * DEFAULT_MAG_STDEV))) == NorthCovariance()
  {
  }

  // ----- the first sample: predict from nothing

  lemma NoiseIsProper()
    ensures SymmetricB(Noise()) && PositiveSemidefinite(Noise()) && Checked(Noise()) == Noise()
  {
    hide PositiveSemidefinite, SymmetricB, ProcessNoise, Checked;
    ProcessNoiseSymmetric(GyroVar(), 1.0);
    ProcessNoiseExactly(GyroVar(), 1.0);
    PositiveIsKept(Noise());
  }

  // ----- the second sample: the horizontal reference

  function Before(): Block { Updated(Noise(), NorthCross(), NorthInverse()) }

  lemma NorthInnovation()
    ensures Innovation(North(), Noise(), DEFAULT_MAG_STDEV) == NorthCovariance()
  {
    hide Innovation, AddM, Mul, Twist, TwistError, ProcessNoise, SymmetricB;
    NoiseIsProper();
    NoiseBlock();
    InnovationSplits(North(), Noise(), DEFAULT_MAG_STDEV);
    CrossOfNorth();
    NorthSandwich();
    NorthTwist();
  }

  lemma BeforeBlock()
    ensures Before().m00 == Learned()
  {
    hide Mul, SubM, ProcessNoise;
    NoiseBlock();
    NorthGainIs();
    NorthCorrection();
  }

  lemma NorthOutweighed()
    ensures Outweighs(DEFAULT_MAG_STDEV, TwistVector(North(), Noise()))
  {
    hide Twist, Outweighs, StrictlyOutweighs, TwistVector, ProcessNoise;
    NoiseBlock();
    NorthTwist();
    NoTwistOutweighed(North(), Noise(), DEFAULT_MAG_STDEV);
  }

  lemma BeforeIsProper()
    ensures SymmetricB(Before()) && PositiveSemidefinite(Before()) && Checked(Before()) == Before()
  {
    hide Innovation, IsInverse, Noise, North, NorthInverse, NorthCovariance, NorthCross, CrossMatrix, PositiveSemidefinite,
         SymmetricB, Updated, Checked, Outweighs, TwistVector, Leftover, Positive33, ActualNoise, Symmetric;
    NoiseIsProper();
    NorthInnovation();
    NorthInverseIs();
    CrossOfNorth();
    NorthOutweighed();
    InnovationSymmetric(North(), Noise(), DEFAULT_MAG_STDEV);
    InverseOfSymmetric(NorthCovariance(), NorthInverse());
    ProperUpdateStaysProper(Noise(), North(), DEFAULT_MAG_STDEV, NorthInverse());
  }

  // ----- and the vertical one

  lemma UpInnovation(sigma: real)
    ensures Innovation(Up(), Before(), sigma) == AddM(UpWithoutNoise(), Diagonal(sigma * sigma))
  {
    hide Innovation, AddM, Mul, Twist, TwistError, Updated, SymmetricB, PositiveSemidefinite, Checked;
    BeforeIsProper();
    BeforeBlock();
    InnovationSplits(Up(), Before(), sigma);
    CrossOfNorth();
    UpSandwich();
    UpTwist();
    AddMAssoc(UpSignal(), UpError(), Diagonal(sigma * sigma));
  }

  /** The direction in which S is the smallest. */
  function Weakest(): Vec3 { Vec3(15.0, 28.0, 18.0) }

  lemma WeakestSeen()
    ensures MulV(UpWithoutNoise(), Weakest()) == Scale(Weakest(), -Critical())
    ensures Dot(Weakest(), Weakest()) == 1333.0
  {
  }

  lemma UpForm(v: Vec3)
    ensures Form33(UpWithoutNoise(), v) + Critical() * Dot(v, v) >= 0.0
  {
    var s := 432.0 * v.x - 504.0 * v.y + 424.0 * v.z;
    var d := v.y - 14.0 / 9.0 * v.z;
    UpSquares(v.x, v.y, v.z);
    SquarePositive(s);
    SquarePositive(d);
    UpFormIs(v);
  }

  function UpTerms(x: real, y: real, z: real): real {
    432.0 * (x * x) + 783.0 * (y * y) + 888.0 * (z * z) + 2.0 * (-504.0 * (x * y) + 424.0 * (x * z) - 798.0 * (y * z))
  }

  lemma UpSquares(x: real, y: real, z: real)
    ensures 432.0 * UpTerms(x, y, z)
         == Square(432.0 * x - 504.0 * y + 424.0 * z) + 84240.0 * Square(y - 14.0 / 9.0 * z)
  {
  }

  lemma UpFormIs(v: Vec3)
    ensures Form33(UpWithoutNoise(), v) + Critical() * Dot(v, v) == 13.0 / 532000.0 * UpTerms(v.x, v.y, v.z)
  {
  }

  /** At the critical variance S cannot be inverted; above it S is positive definite. */
  lemma UpSingularExactly(sigma: real)
    requires sigma * sigma >= Critical()
    ensures Positive33(Innovation(Up(), Before(), sigma))
    ensures Singular33(Innovation(Up(), Before(), sigma)) <==> sigma * sigma == Critical()
  {
    hide Innovation, MulV, Dot, Updated, Form33, AddM;
    var r := sigma * sigma;
    var s := AddM(UpWithoutNoise(), Diagonal(r));
    UpInnovation(sigma);
    forall v ensures Form33(s, v) >= 0.0 && (r > Critical() && v != ZERO3 ==> Form33(s, v) > 0.0) {
      UpFormWith(r, v);
      UpForm(v);
      DotPositive(v);
      NonnegativeProduct(r - Critical(), Dot(v, v));
    }
    if r == Critical() {
      WeakestWith(r);
      assert Scale(Weakest(), 0.0) == ZERO3;
      SingularBy(s, Weakest());
    } else {
      forall v | InKernel33(s, v) ensures v == ZERO3 {
        KernelForm(s, v);
      }
    }
  }

  lemma UpFormWith(r: real, v: Vec3)
    ensures Form33(AddM(UpWithoutNoise(), Diagonal(r)), v)
         == Form33(UpWithoutNoise(), v) + Critical() * Dot(v, v) + (r - Critical()) * Dot(v, v)
  {
    hide MulV, Dot;
    FormAdds(UpWithoutNoise(), Diagonal(r), v);
    DiagonalApplied(r, v);
    DotLinear(v, v, v, r);
  }

  lemma WeakestWith(r: real)
    ensures MulV(AddM(UpWithoutNoise(), Diagonal(r)), Weakest()) == Scale(Weakest(), r - Critical())
  {
    hide MulV, Dot;
    MulVAdd(UpWithoutNoise(), Diagonal(r), Weakest());
    DiagonalApplied(r, Weakest());
    WeakestSeen();
  }

  // ----- the vertical reference overshoots

  function ThirdAxis(): Vec6 { Vec6(Vec3(0.0, 0.0, 1.0), ZERO3) }

  lemma ThirdAxisForm(p: Block)
    ensures Form(p, ThirdAxis()) == p.m00.c2.z && Apply(p, ThirdAxis()).v0 == p.m00.c2
  {
  }

  lemma ThirdAxisSeen()
    ensures MulV(UpCross(), Learned().c2) == UpSeen().c2
    ensures Dot(UpSeen().c2, Weakest()) == -507.0 / 5320.0 && Learned().c2.z == 10179.0 / 532000.0
  {
  }

  /** For every noise a little above the critical one the variance about the third axis comes out negative. */
  lemma VerticalOvershoots(sigma: real, si: Mat33)
    requires Critical() < sigma * sigma <= 0.00377 && IsInverse(Innovation(Up(), Before(), sigma), si)
    ensures SymmetricB(Updated(Before(), UpCross(), si)) && Updated(Before(), UpCross(), si).m00.c2.z < 0.0
  {
    hide Innovation, MulV, Dot, Updated, Form33, AddM, SymmetricB, PositiveSemidefinite, Positive33, Mul, Checked, Symmetric;
    var r, s, h := sigma * sigma, Innovation(Up(), Before(), sigma), UpSeen().c2;
    BeforeIsProper();
    BeforeBlock();
    InnovationSymmetric(Up(), Before(), sigma);
    InverseOfSymmetric(s, si);
    UpdatedSymmetric(Before(), UpCross(), si);
    UpdatedForm(Before(), UpCross(), si, ThirdAxis());
    ThirdAxisForm(Before());
    ThirdAxisForm(Updated(Before(), UpCross(), si));
    ThirdAxisSeen();
    UpSingularExactly(sigma);
    UpInnovation(sigma);
    var z := MulV(si, h);
    InverseApplied(s, si, h);
    WeakestWith(r);
    WeakestSeen();
    CauchySchwarz(s, z, Weakest());
    SymmetricAdjoint(s, z, Weakest());
    FormIs(s, z);
    FormIs(s, Weakest());
    DotLinear(z, h, h, 0.0);
    DotLinear(Weakest(), h, h, 0.0);
    DotLinear(Weakest(), Weakest(), Weakest(), r - Critical());
    Overshoot(Dot(h, z), (r - Critical()) * 1333.0, r - Critical());
  }

  lemma Overshoot(v: real, w: real, d: real)
    requires w == d * 1333.0 && 0.0 < d <= 0.00377 - Critical()
    requires 507.0 / 5320.0 * (507.0 / 5320.0) <= v * w
    ensures v > 10179.0 / 532000.0
  {
    if v <= 10179.0 / 532000.0 {
      NonnegativeProduct(10179.0 / 532000.0 - v, w);
    }
  }

  // ----- the run

  function RunSteps(phi: Block, sigma: real, si: Mat33): seq<CovarianceStep> {
    [Advance(phi), Measure(North(), DEFAULT_MAG_STDEV, NorthInverse()), Measure(Up(), sigma, si)]
  }

  /** predict, the horizontal update, the vertical update: the covariance is proper before the last step, the update
      leaves a negative variance, and checkState resets everything. */
  lemma RunDiverges(phi: Block, sigma: real, si: Mat33)
    requires Critical() < sigma * sigma <= 0.00377 && IsInverse(Innovation(Up(), Before(), sigma), si)
    ensures IsCovarianceRun(Noise(), RunSteps(phi, sigma, si), [ZERO66, Noise(), Before(), ZERO66])
    ensures PositiveSemidefinite(Noise()) && PositiveSemidefinite(Before())
    ensures !PositiveSemidefinite(Unchecked(Before(), Noise(), Measure(Up(), sigma, si)))
    ensures !Outweighs(sigma, TwistVector(Up(), Before()))
  {
    hide Innovation, MulV, Dot, Updated, AddM, SymmetricB, PositiveSemidefinite, IsInverse, Checked, ProcessNoise, Predicted,
         Outweighs, TwistVector, Symmetric, Leftover, Positive33;
    NoiseIsProper();
    PredictedFromZero(phi, Noise());
    NorthInnovation();
    NorthInverseIs();
    CrossOfNorth();
    BeforeIsProper();
    VerticalOvershoots(sigma, si);
    var t := Updated(Before(), UpCross(), si);
    ThirdAxisForm(t);
    assert !PositiveSemidefinite(t) by {
      if PositiveSemidefinite(t) { PositiveAt(t, ThirdAxis()); }
    }
    ResetExactly(t);
    InnovationSymmetric(Up(), Before(), sigma);
    InverseOfSymmetric(Innovation(Up(), Before(), sigma), si);
    ProperUpdateStaysProper(Before(), Up(), sigma, si);
    Resets(t);
  }

  lemma Resets(t: Block)
    requires SymmetricB(t) && t.m00.c2.z < 0.0
    ensures Checked(t) == ZERO66
  {
    hide SymmetricB;
    ResetExactly(t);
  }

  /** There is such a run for every such noise. */
  lemma RunExists(sigma: real) returns (si: Mat33)
    requires Critical() < sigma * sigma <= 0.00377
    ensures IsInverse(Innovation(Up(), Before(), sigma), si)
  {
    hide Innovation, IsInverse, Updated, Symmetric;
    UpSingularExactly(sigma);
    InnovationSymmetric(Up(), Before(), sigma);
    si := InverseExists(Innovation(Up(), Before(), sigma));
  }

  /** And at the critical noise the run cannot go on: a proper covariance meets a singular S. */
  lemma RunMeetsSingular(phi: Block, libm: Libm)
    requires libm.Sound()
    ensures var sigma := libm.sqrt(Critical());
      && IsCovarianceRun(Noise(), [Advance(phi), Measure(North(), DEFAULT_MAG_STDEV, NorthInverse())], [ZERO66, Noise(), Before()])
      && PositiveSemidefinite(Before()) && sigma > 0.0 && Singular33(Innovation(Up(), Before(), sigma))
  {
    hide Innovation, Updated, SymmetricB, PositiveSemidefinite, IsInverse, Checked, ProcessNoise, Predicted, Singular33;
    NoiseIsProper();
    PredictedFromZero(phi, Noise());
    NorthInnovation();
    NorthInverseIs();
    CrossOfNorth();
    BeforeIsProper();
    RootPositive(libm, Critical());
    UpSingularExactly(libm.sqrt(Critical()));
  }

  // ----- the same in the fusion's own terms

  function Axes(): Mat33 { Mat33(Vec3(-1.0 / 3.0, 2.0 / 3.0, -2.0 / 3.0), North(), Up()) }

  /** The orientation in which the references are seen where the run sees them. */
  function Orientation(libm: Libm): Quat {
    MatrixToQuat(Axes(), libm.sqrt)
  }

  lemma OrientationSees(libm: Libm)
    requires libm.Sound()
    ensures var q := Orientation(libm);
      IsUnit(q) && q.w >= 0.0 && Expected(q, Vec3(0.0, 1.0, 0.0)) == North() && Expected(q, Vec3(0.0, 0.0, 1.0)) == Up()
  {
    hide MatrixToQuat, QuatToMatrix, IsRotation, IsUnit, North, Up, MulV;
    var m := Axes();
    AxesRotate();
    AxesTrace();
    MatrixToQuatIsUnit(m, libm.sqrt);
    MatrixRoundTripExactly(m, libm.sqrt);
    Attitude.ColumnsOf(m);
    assert Attitude.Y_AXIS == Vec3(0.0, 1.0, 0.0) && Attitude.Z_AXIS == Vec3(0.0, 0.0, 1.0);
  }

  lemma AxesTrace()
    ensures Axes().c0.x + Axes().c1.y + Axes().c2.z > -1.0
  {
  }

  lemma AxesRotate()
    ensures IsRotation(Axes())
  {
    hide MulV;
    var m, t := Axes(), Transpose(Axes());
    ColumnIs(t, m.c0, Diagonal(1.0).c0);
    ColumnIs(t, m.c1, Diagonal(1.0).c1);
    ColumnIs(t, m.c2, Diagonal(1.0).c2);
    ColumnIs(m, t.c0, Diagonal(1.0).c0);
    ColumnIs(m, t.c1, Diagonal(1.0).c1);
    ColumnIs(m, t.c2, Diagonal(1.0).c2);
  }

  // ----- a first sample and a turn that lead there

  /** Turning about a unit axis, as Rodrigues' formula has it. */
  lemma TurnAboutAxis(libm: Libm, u: Vec3, rate: real, dT: real, v: Vec3)
    requires libm.Sound() && Dot(u, u) == 1.0 && rate > 0.0
    ensures Length(libm, Scale(u, rate)) == rate
    ensures MulV(Phi00(libm, Scale(u, rate), dT), v)
         == BiasTransition.Turn(v, Cross(u, v), Cross(u, Cross(u, v)),
                                Attitude.Sin(libm, rate * dT), 1.0 - Attitude.Cos(libm, rate * dT))
  {
    hide MulV, Cross, Dot, Scale, Phi00, K0, K1, K0Of, K1Of, Length, IsSqrt, BiasTransition.Turn, Attitude.Sin, Attitude.Cos;
    var we, x, y := Scale(u, rate), Cross(u, v), Cross(u, Cross(u, v));
    LengthOfAxis(libm, u, rate);
    BiasTransition.Phi00Applied(libm, we, dT, v);
    Attitude.CrossScale(u, rate, v);
    Attitude.CrossScale(u, rate, Cross(we, v));
    CrossOfScaled(u, x, rate);
    FactorsOfAxis(libm, rate, dT);
    FactorsOf(libm, we, dT);
    TurnOfScaled(v, x, y, rate, K1(libm, we, dT), K0(libm, we, dT),
                 Attitude.Sin(libm, rate * dT), 1.0 - Attitude.Cos(libm, rate * dT));
  }

  lemma FactorsOf(libm: Libm, we: Vec3, dT: real)
    requires Length(libm, we) != 0.0
    ensures K1(libm, we, dT) == K1Of(libm, Length(libm, we), dT) && K0(libm, we, dT) == K0Of(libm, Length(libm, we), dT)
  {
  }

  lemma LengthOfAxis(libm: Libm, u: Vec3, t: real)
    requires libm.Sound() && Dot(u, u) == 1.0 && t > 0.0
    ensures Length(libm, Scale(u, t)) == t
  {
    hide Dot, Scale, IsSqrt;
    ScaledDot(u, Scale(u, t), t);
    ScaledDot(u, u, t);
    TimesItself(t, Dot(u, Scale(u, t)));
    SqrtUnique(libm.sqrt, Dot(Scale(u, t), Scale(u, t)), t);
  }

  lemma TimesItself(t: real, x: real)
    requires x == t * 1.0
    ensures t * x == t * t
  {
  }

  lemma CrossOfScaled(u: Vec3, x: Vec3, t: real)
    ensures Cross(u, Scale(x, t)) == Scale(Cross(u, x), t)
  {
    hide MulV, Cross, Scale, CrossMatrix;
    MulVLinear(CrossMatrix(u, 0.0), x, x, t);
    Attitude.CrossAsMatrix(u, x);
    Attitude.CrossAsMatrix(u, Scale(x, t));
  }

  lemma FactorsOfAxis(libm: Libm, rate: real, dT: real)
    requires rate > 0.0
    ensures rate * K1Of(libm, rate, dT) == Attitude.Sin(libm, rate * dT)
    ensures (rate * rate) * K0Of(libm, rate, dT) == 1.0 - Attitude.Cos(libm, rate * dT)
  {
    hide K0Of, K1Of, Attitude.Sin, Attitude.Cos;
    Attitude.FactorsBySine(libm, rate, dT, 0.0);
    Cancels(rate, 1.0 / rate, Attitude.Sin(libm, rate * dT));
    CancelsTwice(rate, 1.0 / rate, 1.0 - Attitude.Cos(libm, rate * dT));
  }

  lemma Cancels(t: real, i: real, s: real)
    requires t * i == 1.0
    ensures t * (s * i) == s && (s * t) * i == s
  {
    assert t * (s * i) == s * (t * i);
    assert (s * t) * i == s * (t * i);
  }

  lemma CancelsTwice(t: real, i: real, c: real)
    requires t * i == 1.0
    ensures (t * t) * (c * (i * i)) == c
  {
    assert (t * t) * (c * (i * i)) == c * ((t * i) * (t * i));
    assert (t * i) * (t * i) == 1.0;
  }

  lemma TurnOfScaled(v: Vec3, x: Vec3, y: Vec3, t: real, k1: real, k0: real, s1: real, s0: real)
    requires t * k1 == s1 && (t * t) * k0 == s0
    ensures BiasTransition.Turn(v, Scale(x, t), Scale(Scale(y, t), t), k1, k0) == BiasTransition.Turn(v, x, y, s1, s0)
  {
    hide Add, Sub, Scale;
    ScaledBoth(x, t, k1, s1);
    ScaledBoth(y, t, t, t * t);
    ScaledBoth(y, t * t, k0, s0);
  }

  lemma ScaledBoth(v: Vec3, s: real, t: real, p: real)
    requires p == s * t
    ensures Scale(Scale(v, s), t) == Scale(v, p)
  {
    Attitude.ScaleVTwice(v, s, t);
  }

  /** Minus the half of the square root of two, where sine and cosine of five quarters of a half turn are. */
  ghost predicate IsDiagonal(c: real) { c < 0.0 && 2.0 * (c * c) == 1.0 }

  /** The frame of a sample along Up: east is halfway between -x and y negated, as getOrthogonal picks it. */
  function StartFrame(c: real): Mat33 {
    Mat33(Vec3(-c, c, 0.0), Vec3(-c / 3.0, -c / 3.0, 4.0 * c / 3.0), Up())
  }

  lemma EastOfUp(libm: Libm, c: real)
    requires libm.Sound() && IsDiagonal(c)
    ensures Up() != ZERO3 && GetOrthogonal(libm, Up()) == Vec3(-c, c, 0.0)
  {
    hide IsSqrt;
    var e := Vec3(2.0 / 3.0, -2.0 / 3.0, 0.0);
    assert Perpendicular(Up()) == e && Dot(e, e) == 8.0 / 9.0;
    var l := -4.0 * c / 3.0;
    assert l * l == 8.0 / 9.0;
    SqrtUnique(libm.sqrt, 8.0 / 9.0, l);
    InverseOf(l, -3.0 * c / 2.0);
  }

  lemma InverseOf(l: real, i: real)
    requires l != 0.0 && l * i == 1.0
    ensures 1.0 / l == i
  {
  }

  lemma SampleAlongUp(libm: Libm, g: real)
    requires libm.Sound() && g > 0.0
    ensures Scale(Up(), g) != ZERO3 && Normalize(libm, Scale(Up(), g)) == Up()
  {
    hide Length, IsSqrt;
    assert Dot(Up(), Up()) == 1.0;
    LengthOfAxis(libm, Up(), g);
    Cancels(g, 1.0 / g, Up().x);
    Cancels(g, 1.0 / g, Up().z);
  }

  lemma FrameOfUp(libm: Libm, g: real, c: real)
    requires libm.Sound() && g > 0.0 && IsDiagonal(c)
    ensures Scale(Up(), g) != ZERO3 && Frame(libm, Scale(Up(), g)) == StartFrame(c)
  {
    hide Normalize, GetOrthogonal, Scale;
    SampleAlongUp(libm, g);
    EastOfUp(libm, c);
  }

  /** Five quarters of a half turn about Up take the three axes of the start frame to the orientation of the run. */
  lemma AxesTurned(c: real)
    requires IsDiagonal(c)
    ensures var m, u := StartFrame(c), Up();
      && BiasTransition.Turn(m.c0, Cross(u, m.c0), Cross(u, Cross(u, m.c0)), c, 1.0 - c) == Axes().c0
      && BiasTransition.Turn(m.c1, Cross(u, m.c1), Cross(u, Cross(u, m.c1)), c, 1.0 - c) == Axes().c1
      && BiasTransition.Turn(m.c2, Cross(u, m.c2), Cross(u, Cross(u, m.c2)), c, 1.0 - c) == Axes().c2
  {
    hide Cross, BiasTransition.Turn;
    StartFrameCrosses(c);
    EastTurned(c);
    NorthTurned(c);
    UpStays(c);
  }

  lemma StartFrameCrosses(c: real)
    ensures var m, u := StartFrame(c), Up();
      && Cross(u, m.c0) == m.c1 && Cross(u, m.c1) == Vec3(c, -c, 0.0)
      && Cross(u, Vec3(c, -c, 0.0)) == Vec3(c / 3.0, c / 3.0, -4.0 * c / 3.0)
      && Cross(u, u) == ZERO3 && Cross(u, ZERO3) == ZERO3
  {
  }

  lemma EastTurned(c: real)
    requires IsDiagonal(c)
    ensures var m := StartFrame(c); BiasTransition.Turn(m.c0, m.c1, Vec3(c, -c, 0.0), c, 1.0 - c) == Axes().c0
  {
  }

  lemma NorthTurned(c: real)
    requires IsDiagonal(c)
    ensures var m := StartFrame(c);
      BiasTransition.Turn(m.c1, Vec3(c, -c, 0.0), Vec3(c / 3.0, c / 3.0, -4.0 * c / 3.0), c, 1.0 - c) == Axes().c1
  {
  }

  lemma UpStays(c: real)
    ensures BiasTransition.Turn(Up(), ZERO3, ZERO3, c, 1.0 - c) == Up()
  {
  }

  lemma TurnedFrame(libm: Libm, rate: real, dT: real, c: real)
    requires libm.Sound() && IsDiagonal(c) && rate > 0.0 && libm.sin(rate * dT) == c && libm.cos(rate * dT) == c
    ensures Length(libm, Scale(Up(), rate)) == rate
    ensures Mul(Phi00(libm, Scale(Up(), rate), dT), StartFrame(c)) == Axes()
  {
    hide MulV, Cross, Scale, Phi00, Length, IsSqrt, BiasTransition.Turn;
    assert Dot(Up(), Up()) == 1.0;
    TurnAboutAxis(libm, Up(), rate, dT, StartFrame(c).c0);
    TurnAboutAxis(libm, Up(), rate, dT, StartFrame(c).c1);
    TurnAboutAxis(libm, Up(), rate, dT, StartFrame(c).c2);
    AxesTurned(c);
  }

  lemma StartsAtFrame(libm: Libm, acc: Vec3, c: real)
    requires libm.Sound() && acc != ZERO3 && IsDiagonal(c) && Frame(libm, acc) == StartFrame(c)
    ensures IsUnit(InitialOrientation(libm, acc)) && QuatToMatrix(InitialOrientation(libm, acc)) == StartFrame(c)
  {
    hide IsRotation, QuatToMatrix, MatrixToQuat, IsUnit, Frame, IsSqrt;
    FrameIsRotation(libm, acc);
    MatrixToQuatIsUnit(StartFrame(c), libm.sqrt);
    MatrixRoundTripExactly(StartFrame(c), libm.sqrt);
  }

  /** A unit quaternion with w >= 0 and the attitude of the run is the run's orientation. */
  lemma AttitudeDecides(libm: Libm, q: Quat)
    requires libm.Sound() && IsUnit(q) && q.w >= 0.0 && QuatToMatrix(q) == Axes()
    ensures q == Orientation(libm)
  {
    hide QuatToMatrix, MatrixToQuat, IsUnit, IsSqrt;
    TraceRadicand(q);
    AxesTrace();
    assert q.w != 0.0;
    QuatRoundTripExactly(q, libm.sqrt);
  }

  /** The orientation after a first sample of length g along Up and a turn about it, as calculateGravity leaves it. */
  function Reached(libm: Libm, g: real, rate: real, dT: real): (q: Quat)
    requires libm.Sound() && g > 0.0
    ensures IsUnit(q) && q.w >= 0.0
  {
    SampleAlongUp(libm, g);
    FrameIsRotation(libm, Scale(Up(), g));
    MatrixToQuatIsUnit(Frame(libm, Scale(Up(), g)), libm.sqrt);
    TurnedIsUnit(libm, InitialOrientation(libm, Scale(Up(), g)), Scale(Up(), rate), dT);
    Turned(libm, InitialOrientation(libm, Scale(Up(), g)), Scale(Up(), rate), dT)
  }

  /** If the turn is by five quarters of a half turn, that is the orientation of the run. */
  lemma RunReachesOrientation(libm: Libm, g: real, rate: real, dT: real)
    requires libm.Sound() && Attitude.DoubleAngles(libm) && g > 0.0 && rate >= WVEC_EPS
    requires libm.sin(rate * dT) == libm.cos(rate * dT) < 0.0
    ensures Reached(libm, g, rate, dT) == Orientation(libm)
  {
    hide MulV, Mul, Cross, Scale, Phi00, Length, IsSqrt, Frame, QuatToMatrix, IsUnit, InitialOrientation, Turned, Attitude.DoubleAngles;
    var c, acc, w := libm.cos(rate * dT), Scale(Up(), g), Scale(Up(), rate);
    assert IsDiagonal(c) by { assert Square(libm.sin(rate * dT)) + Square(c) == 1.0; }
    FrameOfUp(libm, g, c);
    StartsAtFrame(libm, acc, c);
    TurnedFrame(libm, rate, dT, c);
    var q := InitialOrientation(libm, acc);
    assert Rate(libm, w) == w;
    Attitude.PredictTurnsAttitude(libm, q, w, dT);
    AttitudeDecides(libm, Reached(libm, g, rate, dT));
  }

  /** In the fusion's own terms: the first sample is along Up, the gyroscope turns about it by five quarters of a half
      turn, and at the second sample the accelerometer's noise is a little above critical. Correcting the errors of
      that sample throws the covariance away, whatever the transition matrix of the one predict was. */
  lemma CorrectionResets(libm: Libm, g: real, rate: real, dT: real, phi: Block, acc: Vec3, c: Correction)
    requires libm.Sound() && Attitude.DoubleAngles(libm) && g > 0.0 && rate >= WVEC_EPS
    requires libm.sin(rate * dT) == libm.cos(rate * dT) < 0.0
    requires Length(libm, acc) != 0.0
    requires var sigma := MeasurementNoise(libm, Length(libm, acc)); Critical() < sigma * sigma <= 0.00377
    requires IsCorrection(libm, Reached(libm, g, rate, dT), ZERO3, Checked(Predicted(phi, ZERO66, Noise())), acc, c)
    ensures c.p == ZERO66
  {
    hide Innovation, Updated, SymmetricB, PositiveSemidefinite, Checked, Predicted, ProcessNoise, Orientation, Expected, Length,
         IsUnit, Corrected, IsSqrt, Gain0, Gain1, MulV, MeasurementNoise, Reached;
    RunReachesOrientation(libm, g, rate, dT);
    OrientationSees(libm);
    NoiseIsProper();
    PredictedFromZero(phi, Noise());
    NorthInnovation();
    NorthInverseIs();
    InverseIsUnique(NorthCovariance(), NorthInverse(), c.horizontalSi);
    CrossOfNorth();
    BeforeIsProper();
    VerticalOvershoots(MeasurementNoise(libm, Length(libm, acc)), c.verticalSi);
    Resets(Updated(Before(), UpCross(), c.verticalSi));
  }
}
