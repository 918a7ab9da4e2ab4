/** The blocks of the transition matrix that predict assigns, and where the orientation expects a reference. */
module Transition {
  import opened Reals
  import opened Space
  import opened Quaternion
  import opened FusionSteps
  import opened Covariance

  /** k0, k1 * ilwe and the last factor of Phi10 in predict, by the length of the rate. */
  function K0Of(libm: Libm, lwe: real, dT: real): real
    requires lwe != 0.0
  {
    var ilwe := 1.0 / lwe;
    (1.0 - libm.cos(lwe * dT)) * (ilwe * ilwe)
  }

  function K1Of(libm: Libm, lwe: real, dT: real): real
    requires lwe != 0.0
  {
    libm.sin(lwe * dT) * (1.0 / lwe)
  }

  function K2Of(libm: Libm, lwe: real, dT: real): real
    requires lwe != 0.0
  {
    var lwedT, ilwe := lwe * dT, 1.0 / lwe;
    (ilwe * ilwe * ilwe) * (lwedT - libm.sin(lwedT))
  }

  function K0(libm: Libm, we: Vec3, dT: real): real
    requires Length(libm, we) != 0.0
  {
    K0Of(libm, Length(libm, we), dT)
  }

  function K1(libm: Libm, we: Vec3, dT: real): real
    requires Length(libm, we) != 0.0
  {
    K1Of(libm, Length(libm, we), dT)
  }

  function K2(libm: Libm, we: Vec3, dT: real): real
    requires Length(libm, we) != 0.0
  {
    K2Of(libm, Length(libm, we), dT)
  }

  /** I33 - wx * sin(|w| dT) / |w| + wx^2 * (1 - cos(|w| dT)) / |w|^2 */
  function Phi00(libm: Libm, we: Vec3, dT: real): Mat33
    requires Length(libm, we) != 0.0
  {
    var wx := CrossMatrix(we, 0.0);
    AddM(SubM(Diagonal(1.0), ScaleM(wx, K1(libm, we, dT))), ScaleM(Mul(wx, wx), K0(libm, we, dT)))
  }

  /** wx * (1 - cos(|w| dT)) / |w|^2 - I33 * dT - wx^2 * (|w| dT - sin(|w| dT)) / |w|^3 */
  function Phi10(libm: Libm, we: Vec3, dT: real): Mat33
    requires Length(libm, we) != 0.0
  {
    var wx := CrossMatrix(we, 0.0);
    SubM(SubM(ScaleM(wx, K0(libm, we, dT)), Diagonal(dT)), ScaleM(Mul(wx, wx), K2(libm, we, dT)))
  }

  /** What the measured vector should be in body space. */
  function Expected(q: Quat, reference: Vec3): Vec3 { MulV(QuatToMatrix(q), reference) }
}
