/**
 * The control logic of the gradient-descent orientation estimator
 * (`MadgwickAHRS`): it skips readings with no acceleration, gates the gyro
 * bias correction on the drift gain and, in still-only mode, on the
 * accelerometer reading about one g, and removes the bias from the gyro
 * before integrating. The numeric step (normalising the gradient, the
 * quaternion integration and its renormalisation, all of which need square
 * roots) is a parameter of the model.
 */
module Madgwick {
  import opened Common
  import opened Quaternions

  /** Default sample period (1/200 s), gradient gain and drift gain of the constructor. */
  const DefaultSamplePeriod: real := 1.0 / 200.0
  const DefaultBeta: real := 0.1
  const DefaultZeta: real := 0.0

  /** Half-width of the band around one g in which the controller counts as still. */
  const StillTolerance: real := 0.1

  /**
   * The gradient of the gravity error `Jᵀ f`, with `f = est_grav - a` and `J`
   * the Jacobian of the predicted gravity with respect to `q`.
   */
  function Gradient(q: Quaternion, accelNorm: Vec3): Quaternion
  {
    var f := EstimatedGravity(q).Sub(accelNorm);
    Quaternion(-2.0 * q.y * f.x + 2.0 * q.x * f.y,
               2.0 * q.z * f.x + 2.0 * q.w * f.y - 4.0 * q.x * f.z,
               -2.0 * q.w * f.x + 2.0 * q.z * f.y - 4.0 * q.y * f.z,
               2.0 * q.x * f.x + 2.0 * q.y * f.y)
  }

  /** When the measured gravity agrees with the prediction there is nothing to descend. */
  lemma GradientVanishesWhenAligned(q: Quaternion, accelNorm: Vec3)
    requires EstimatedGravity(q) == accelNorm
    ensures Gradient(q, accelNorm) == Quaternion(0.0, 0.0, 0.0, 0.0)
  {
  }

  /** The bias correction direction `est_grav × a`. */
  function BiasError(q: Quaternion, accelNorm: Vec3): Vec3
  {
    EstimatedGravity(q).Cross(accelNorm)
  }

  /**
   * The bias correction is perpendicular to both the predicted and the
   * measured gravity, and vanishes when the two agree.
   */
  lemma BiasErrorProperties(q: Quaternion, accelNorm: Vec3)
    ensures BiasError(q, accelNorm).Dot(EstimatedGravity(q)) == 0.0
    ensures BiasError(q, accelNorm).Dot(accelNorm) == 0.0
    ensures EstimatedGravity(q) == accelNorm ==> BiasError(q, accelNorm) == Zero3
  {
    var g := EstimatedGravity(q);
    CrossPerpendicular(g, accelNorm);
    if g == accelNorm {
      CrossSelf(g);
    }
  }

  /** The measured gravity direction: the reading divided by its magnitude. */
  function Normalised(accel: Vec3, accelMagnitude: real): Vec3
    requires accelMagnitude != 0.0
  {
    accel.Scale(1.0 / accelMagnitude)
  }

  /** The bias correction one update applies to a reading when the gate is open. */
  function Drift(q: Quaternion, accel: Vec3, accelMagnitude: real, zeta: real, dt: real): Vec3
    requires accelMagnitude != 0.0
  {
    BiasError(q, Normalised(accel, accelMagnitude)).Scale(zeta * dt)
  }

  /** Whether `update_imu` corrects the bias for a reading of magnitude `accelMagnitude`. */
  predicate CorrectsBias(zeta: real, correctWhenStill: bool, accelMagnitude: real)
  {
    zeta > 0.0 && (!correctWhenStill || (-StillTolerance < accelMagnitude - 1.0 < StillTolerance))
  }

  /**
   * The integration step left abstract: from the orientation, the
   * bias-corrected gyro, the gradient, the gradient gain and the sample
   * period to the new (normalised) orientation.
   */
  type Integrator = (Quaternion, Vec3, Quaternion, real, real) -> Quaternion

  class MadgwickFilter {
    var samplePeriod: real
    var beta: real
    var zeta: real
    var quaternion: Quaternion
    /** The gyro bias, a three-element array updated in place. */
    var gyroBias: array<real>

    ghost predicate Valid()
      reads this
    {
      gyroBias.Length == 3
    }

    /** The bias as a vector. */
    function Bias(): Vec3
      reads this, gyroBias
      requires Valid()
    {
      Vec3(gyroBias[0], gyroBias[1], gyroBias[2])
    }

    /** A new estimator starts at the default home orientation with zero bias. */
    constructor (samplePeriod: real, beta: real, zeta: real)
      ensures Valid() && fresh(gyroBias)
      ensures this.samplePeriod == samplePeriod && this.beta == beta && this.zeta == zeta
      ensures quaternion == DefaultHome
      ensures Bias() == Zero3
    {
      this.samplePeriod := samplePeriod;
      this.beta := beta;
      this.zeta := zeta;
      quaternion := DefaultHome;
      gyroBias := new real[3] [0.0, 0.0, 0.0];
    }

    /**
     * `update_imu`. The caller supplies the reading's Euclidean magnitude.
     * A zero magnitude leaves everything unchanged; otherwise the bias moves
     * by `zeta · dt · (est_grav × a/|a|)` exactly when the gate is open, and
     * the orientation becomes the integrator's result for the gyro with the
     * (new) bias removed.
     */
    method UpdateImu(gyro: Vec3, accel: Vec3, accelMagnitude: real, correctWhenStill: bool, integrate: Integrator)
      requires Valid()
      requires accelMagnitude >= 0.0 && accelMagnitude * accelMagnitude == accel.NormSq()
      modifies this`quaternion, gyroBias
      ensures Valid()
      ensures accelMagnitude == 0.0 ==> quaternion == old(quaternion) && Bias() == old(Bias())
      ensures accelMagnitude != 0.0 && !CorrectsBias(zeta, correctWhenStill, accelMagnitude) ==>
                Bias() == old(Bias())
      ensures accelMagnitude != 0.0 && CorrectsBias(zeta, correctWhenStill, accelMagnitude) ==>
                Bias() == old(Bias()).Add(Drift(old(quaternion), accel, accelMagnitude, zeta, samplePeriod))
      ensures accelMagnitude != 0.0 ==>
                quaternion == integrate(old(quaternion), gyro.Sub(Bias()),
                                        Gradient(old(quaternion), Normalised(accel, accelMagnitude)), beta, samplePeriod)
    {
      var q := quaternion;
      if accelMagnitude == 0.0 {
        return;
      }
      var accelNorm := Normalised(accel, accelMagnitude);
      if zeta > 0.0 {
        var isStationary := -StillTolerance < accelMagnitude - 1.0 < StillTolerance;
        var applyCorrection := !correctWhenStill || isStationary;
        if applyCorrection {
          var step := Drift(q, accel, accelMagnitude, zeta, samplePeriod);
          gyroBias[0] := gyroBias[0] + step.x;
          gyroBias[1] := gyroBias[1] + step.y;
          gyroBias[2] := gyroBias[2] + step.z;
        }
      }
      var corrected := gyro.Sub(Vec3(gyroBias[0], gyroBias[1], gyroBias[2]));
      quaternion := integrate(q, corrected, Gradient(q, accelNorm), beta, samplePeriod);
    }

    /** Writes a bias vector into the bias array, element by element. */
    method SetBias(b: Vec3)
      requires Valid()
      modifies gyroBias
      ensures Valid() && Bias() == b
    {
      gyroBias[0] := b.x;
      gyroBias[1] := b.y;
      gyroBias[2] := b.z;
    }
  }

  /**
   * With the drift gain at zero (the constructor's default) the bias never
   * moves, whatever the reading.
   */
  lemma NoDriftGainNoCorrection(correctWhenStill: bool, accelMagnitude: real)
    ensures !CorrectsBias(0.0, correctWhenStill, accelMagnitude)
  {
  }

  /**
   * In still-only mode a reading outside `(0.9, 1.1)` g never corrects the
   * bias; with the mode off, any non-zero reading does once the gain is positive.
   */
  lemma StillOnlyGate(zeta: real, accelMagnitude: real)
    requires zeta > 0.0
    ensures accelMagnitude <= 0.9 || accelMagnitude >= 1.1 ==> !CorrectsBias(zeta, true, accelMagnitude)
    ensures 0.9 < accelMagnitude < 1.1 ==> CorrectsBias(zeta, true, accelMagnitude)
    ensures CorrectsBias(zeta, false, accelMagnitude)
  {
  }
}
