/**
 * The SDL sensor loop: the single-pole low-pass filter on the
 * accelerometer, the axis remap of the raw sensor data, the gyro
 * calibration at start-up, and one pass of the poll loop (home-button
 * mapping, recenter and go-home requests, pausing, and the estimator
 * update).
 */
module Sdl {
  import opened Common
  import opened Quaternions
  import opened Madgwick

  // ---------------------------------------------------------------------
  // Low-pass filter

  /** The filter output for a new value `x` after `last`: `alpha·x + (1 − alpha)·last`. */
  function Blend(alpha: real, x: real, last: real): real
  {
    alpha * x + (1.0 - alpha) * last
  }

  /** For `alpha` in `[0, 1]` the output lies between the previous output and the new value. */
  lemma {:induction false} BlendBetween(alpha: real, x: real, last: real)
    requires 0.0 <= alpha <= 1.0
    ensures last <= x ==> last <= Blend(alpha, x, last) <= x
    ensures x <= last ==> x <= Blend(alpha, x, last) <= last
  {
    assert Blend(alpha, x, last) == last + alpha * (x - last);
    if last <= x {
      ProductBetween(alpha, x - last);
    } else {
      ProductBetween(alpha, last - x);
      assert alpha * (x - last) == -(alpha * (last - x));
    }
  }

  lemma ProductBetween(alpha: real, d: real)
    requires 0.0 <= alpha <= 1.0 && d >= 0.0
    ensures 0.0 <= alpha * d <= d
  {
    assert d - alpha * d == (1.0 - alpha) * d;
  }

  /** A steady input is a fixed point of the filter, whatever the smoothing factor. */
  lemma BlendFixedPoint(alpha: real, v: real)
    ensures Blend(alpha, v, v) == v
  {
    assert Blend(alpha, v, v) == (alpha + (1.0 - alpha)) * v;
  }

  /** What `update` returns for a new value `x`, given the filter's memory. */
  function Filtered(alpha: real, last: Option<real>, x: real): real
  {
    if last.None? then x else Blend(alpha, x, last.value)
  }

  /** `LowPassFilter`. */
  class LowPassFilter {
    var alpha: real
    var lastValue: Option<real>

    constructor (alpha: real)
      ensures this.alpha == alpha && lastValue == None
    {
      this.alpha := alpha;
      lastValue := None;
    }

    /** The first value primes the filter and comes back unchanged; later values are blended in. */
    method Update(newValue: real) returns (r: real)
      modifies this`lastValue
      ensures r == Filtered(alpha, old(lastValue), newValue)
      ensures lastValue == Some(r)
    {
      if lastValue.None? {
        lastValue := Some(newValue);
      } else {
        lastValue := Some(alpha * newValue + (1.0 - alpha) * lastValue.value);
      }
      r := lastValue.value;
    }

    /** Only the smoothing factor changes; the filter keeps its memory. */
    method SetAlpha(alpha: real)
      modifies this`alpha
      ensures this.alpha == alpha
    {
      this.alpha := alpha;
    }
  }

  // ---------------------------------------------------------------------
  // Axis remap and calibration

  /** The sensor-to-model axis remap: x kept, y and z negated. */
  function Remap(v: Vec3): (r: Vec3)
    ensures r.x == v.x && r.y == -v.y && r.z == -v.z
  {
    Vec3(v.x, -v.y, -v.z)
  }

  /** The remap is its own inverse and keeps lengths. */
  lemma RemapInvolution(v: Vec3)
    ensures Remap(Remap(v)) == v
    ensures Remap(v).NormSq() == v.NormSq()
  {
    assert (-v.y) * (-v.y) == v.y * v.y;
    assert (-v.z) * (-v.z) == v.z * v.z;
  }

  /** Number of gyro samples averaged at start-up. */
  const NumCalibrationSamples: nat := 400

  /** The componentwise sum of the remapped samples. */
  function RemappedSum(s: seq<Vec3>): Vec3
  {
    if |s| == 0 then Zero3 else RemappedSum(s[..|s| - 1]).Add(Remap(s[|s| - 1]))
  }

  /** The mean of the remapped samples. */
  function RemappedMean(s: seq<Vec3>): Vec3
    requires |s| > 0
  {
    RemappedSum(s).Scale(1.0 / (|s| as real))
  }

  /** Summing `n` identical samples gives `n` times the remapped sample. */
  lemma {:induction false} RemappedSumConstant(s: seq<Vec3>, v: Vec3)
    requires forall k :: 0 <= k < |s| ==> s[k] == v
    ensures RemappedSum(s) == Remap(v).Scale(|s| as real)
  {
    if |s| > 0 {
      RemappedSumConstant(s[..|s| - 1], v);
    }
  }

  /** A controller held perfectly still calibrates to its (remapped) resting reading. */
  lemma SteadyCalibration(s: seq<Vec3>, v: Vec3)
    requires |s| > 0
    requires forall k :: 0 <= k < |s| ==> s[k] == v
    ensures RemappedMean(s) == Remap(v)
  {
    RemappedSumConstant(s, v);
    var n := |s| as real;
    var r := Remap(v);
    assert n * r.x * (1.0 / n) == r.x;
    assert n * r.y * (1.0 / n) == r.y;
    assert n * r.z * (1.0 / n) == r.z;
  }

  /**
   * The calibration phase: the remapped gyro samples are accumulated in a
   * loop and divided by the sample count.
   */
  method Calibrate(rawGyro: seq<Vec3>) returns (initialBias: Vec3)
    requires |rawGyro| == NumCalibrationSamples
    ensures initialBias == RemappedMean(rawGyro)
  {
    var gyroSum := Zero3;
    var i := 0;
    while i < NumCalibrationSamples
      invariant 0 <= i <= NumCalibrationSamples
      invariant gyroSum == RemappedSum(rawGyro[..i])
    {
      assert rawGyro[..i + 1][..i] == rawGyro[..i];
      var g := rawGyro[i];
      gyroSum := gyroSum.Add(Vec3(g.x, -g.y, -g.z));
      i := i + 1;
    }
    assert rawGyro[..i] == rawGyro;
    initialBias := gyroSum.Scale(1.0 / (NumCalibrationSamples as real));
  }

  // ---------------------------------------------------------------------
  // Home-button mapping

  /** The button-mapping state: mapping mode, the mapped button name, and the home-button request. */
  datatype ButtonState = ButtonState(isMapping: bool, homeButtonMap: Option<string>, homeButtonEvent: bool)

  /**
   * One button-down event, with the button's name (`None` for a button
   * without one): in mapping mode it becomes the home button and mapping
   * ends; otherwise only the mapped button raises the home request.
   */
  function PressButton(st: ButtonState, name: Option<string>): (r: ButtonState)
    ensures st.isMapping ==> r == ButtonState(false, name, st.homeButtonEvent)
    ensures !st.isMapping ==> r.isMapping == st.isMapping && r.homeButtonMap == st.homeButtonMap
    ensures !st.isMapping ==> (r.homeButtonEvent <==> st.homeButtonEvent || name == st.homeButtonMap)
  {
    if st.isMapping then ButtonState(false, name, st.homeButtonEvent)
    else if name == st.homeButtonMap then st.(homeButtonEvent := true)
    else st
  }

  /** The events of one poll, in order. */
  function PressAll(st: ButtonState, names: seq<Option<string>>): ButtonState
  {
    if |names| == 0 then st else PressButton(PressAll(st, names[..|names| - 1]), names[|names| - 1])
  }

  /** Button presses never clear a pending home request. */
  lemma {:induction false} PressesKeepHomeRequest(st: ButtonState, names: seq<Option<string>>)
    requires st.homeButtonEvent
    ensures PressAll(st, names).homeButtonEvent
  {
    if |names| > 0 {
      PressesKeepHomeRequest(st, names[..|names| - 1]);
    }
  }

  /** Outside mapping mode, presses of buttons other than the mapped one change nothing. */
  lemma {:induction false} OtherButtonsIgnored(st: ButtonState, names: seq<Option<string>>)
    requires !st.isMapping
    requires forall k :: 0 <= k < |names| ==> names[k] != st.homeButtonMap
    ensures PressAll(st, names) == st
  {
    if |names| > 0 {
      OtherButtonsIgnored(st, names[..|names| - 1]);
    }
  }

  /** Mapping a button and then pressing it raises the home request. */
  lemma MapThenPress(st: ButtonState, b: string)
    requires st.isMapping
    ensures PressAll(st, [Some(b), Some(b)]) == ButtonState(false, Some(b), true)
  {
    assert [Some(b), Some(b)][..1] == [Some(b)];
    assert [Some(b)][..0] == [];
    assert PressAll(st, [Some(b)]) == ButtonState(false, Some(b), st.homeButtonEvent);
  }

  // ---------------------------------------------------------------------
  // The poll loop

  /** The recorded home: its name and orientation, each possibly missing; `None` fields and no record look alike to the loop. */
  datatype HomeRecord = HomeRecord(name: Option<string>, orientation: Option<Quaternion>)

  /** A home record is truthy when it has any key at all. */
  predicate HomeIsSet(home: Option<HomeRecord>)
  {
    home.Some? && (home.value.name.Some? || home.value.orientation.Some?)
  }

  /** The controller settings the poll loop reads on every pass. */
  datatype Settings = Settings(betaGain: real, driftCorrectionGain: real, accelerometerSmoothing: real,
                               correctDriftWhenStill: bool, pauseSensorUpdates: bool)

  /**
   * The orientation left by a pass's reset requests: a go-home with a
   * recorded home orientation restores that orientation, otherwise a
   * recenter restores the default home, otherwise the orientation stays.
   */
  function AfterResets(q: Quaternion, recenter: bool, goHome: bool, home: Option<HomeRecord>): Quaternion
  {
    if goHome && home.Some? && home.value.orientation.Some? then home.value.orientation.value
    else if recenter then DefaultHome
    else q
  }

  /**
   * The calibrated bias after one sensor update of the loop: the estimator
   * holds the calibration array itself, so a drift correction of its bias
   * lands in the calibration too.
   */
  function DriftedCalibration(c: Vec3, q: Quaternion, rawAccel: Vec3, accelMagnitude: real, settings: Settings,
                              dt: real): Vec3
  {
    if accelMagnitude != 0.0 && CorrectsBias(settings.driftCorrectionGain, settings.correctDriftWhenStill, accelMagnitude)
    then c.Add(Drift(q, Remap(rawAccel), accelMagnitude, settings.driftCorrectionGain, dt))
    else c
  }

  /**
   * The orientation after one sensor update of the loop from orientation
   * `q`: a zero reading leaves it; otherwise it is the integrator's result
   * for the remapped gyro with the (updated) bias removed and the gradient
   * of the remapped, normalised accelerometer reading.
   */
  function UpdatedOrientation(q: Quaternion, rawGyro: Vec3, bias: Vec3, rawAccel: Vec3, accelMagnitude: real,
                              beta: real, dt: real, integrate: Integrator): Quaternion
  {
    if accelMagnitude == 0.0 then q
    else integrate(q, Remap(rawGyro).Sub(bias), Gradient(q, Normalised(Remap(rawAccel), accelMagnitude)), beta, dt)
  }

  /**
   * The state of the SDL sensor loop after calibration: the estimator, the
   * three accelerometer filters, the array holding the calibrated bias, and
   * the flags and values it shares with the interface. The estimator's bias
   * is that very array (start-up and both resets assign it, they do not
   * copy it).
   */
  class SensorLoop {
    const filter: MadgwickFilter
    const lpfX: LowPassFilter
    const lpfY: LowPassFilter
    const lpfZ: LowPassFilter
    const initialBias: array<real>
    var buttons: ButtonState
    var recenterEvent: bool
    var goToHomeEvent: bool
    var homePosition: Option<HomeRecord>
    var accelData: Vec3
    var orientation: Quaternion

    ghost predicate Valid()
      reads this, filter, lpfX, lpfY, lpfZ
    {
      filter.Valid() && filter.gyroBias == initialBias && lpfX != lpfY && lpfY != lpfZ && lpfX != lpfZ
    }

    /** The calibrated bias as its array now holds it. */
    function Calibration(): Vec3
      reads initialBias
      requires initialBias.Length == 3
    {
      Vec3(initialBias[0], initialBias[1], initialBias[2])
    }

    /**
     * The state right after calibration: the estimator with the current
     * gains, handed the calibrated bias array itself, fresh filters, and
     * the home button mapped to `'a'`.
     */
    constructor (rawGyro: seq<Vec3>, settings: Settings, homePosition: Option<HomeRecord>)
      requires |rawGyro| == NumCalibrationSamples
      ensures Valid() && fresh(filter) && fresh(initialBias) && fresh(lpfX) && fresh(lpfY) && fresh(lpfZ)
      ensures filter.gyroBias == initialBias
      ensures Calibration() == RemappedMean(rawGyro) && filter.Bias() == Calibration()
      ensures filter.quaternion == DefaultHome && filter.samplePeriod == 1.0 / 200.0
      ensures filter.beta == settings.betaGain && filter.zeta == settings.driftCorrectionGain
      ensures lpfX.lastValue.None? && lpfY.lastValue.None? && lpfZ.lastValue.None?
      ensures buttons == ButtonState(false, Some("a"), false)
      ensures !recenterEvent && !goToHomeEvent && this.homePosition == homePosition
    {
      var bias := Calibrate(rawGyro);
      var calibrated := new real[3] [bias.x, bias.y, bias.z];
      var f := new MadgwickFilter(1.0 / 200.0, settings.betaGain, settings.driftCorrectionGain);
      f.gyroBias := calibrated;
      filter := f;
      initialBias := calibrated;
      lpfX := new LowPassFilter(settings.accelerometerSmoothing);
      lpfY := new LowPassFilter(settings.accelerometerSmoothing);
      lpfZ := new LowPassFilter(settings.accelerometerSmoothing);
      buttons := ButtonState(false, Some("a"), false);
      recenterEvent := false;
      goToHomeEvent := false;
      this.homePosition := homePosition;
      accelData := Zero3;
      orientation := DefaultHome;
    }

    /**
     * `zero_orientation`: with a home set, request a go-home; otherwise a
     * recenter.
     */
    method ZeroOrientation()
      modifies this`recenterEvent, this`goToHomeEvent
      ensures HomeIsSet(homePosition) ==> goToHomeEvent && recenterEvent == old(recenterEvent)
      ensures !HomeIsSet(homePosition) ==> recenterEvent && goToHomeEvent == old(goToHomeEvent)
    {
      if HomeIsSet(homePosition) {
        goToHomeEvent := true;
      } else {
        recenterEvent := true;
      }
    }

    /** Handles the button-down events of one pass, in order. */
    method HandleButtons(names: seq<Option<string>>)
      modifies this`buttons
      ensures buttons == PressAll(old(buttons), names)
    {
      var i := 0;
      while i < |names|
        invariant 0 <= i <= |names|
        invariant buttons == PressAll(old(buttons), names[..i])
      {
        assert names[..i + 1][..i] == names[..i];
        var buttonName := names[i];
        if buttons.isMapping {
          buttons := buttons.(homeButtonMap := buttonName, isMapping := false);
        } else if buttonName == buttons.homeButtonMap {
          buttons := buttons.(homeButtonEvent := true);
        }
        i := i + 1;
      }
      assert names[..i] == names;
    }

    /**
     * The recenter and go-home requests of one pass: a recenter puts the
     * estimator back at the default home orientation, a go-home at the
     * recorded home orientation when one is recorded, and each hands the
     * estimator the calibrated bias array again. That array already carries
     * every drift correction made since calibration, so the bias does not
     * move. Both requests are cleared.
     */
    method HandleResets()
      requires Valid()
      modifies this`recenterEvent, this`goToHomeEvent, filter`quaternion, filter`gyroBias
      ensures Valid() && !recenterEvent && !goToHomeEvent
      ensures filter.quaternion == AfterResets(old(filter.quaternion), old(recenterEvent), old(goToHomeEvent), homePosition)
      ensures filter.gyroBias == initialBias && Calibration() == old(Calibration())
      ensures filter.Bias() == old(filter.Bias()) == Calibration()
    {
      if recenterEvent {
        filter.quaternion := DefaultHome;
        filter.gyroBias := initialBias;
        recenterEvent := false;
      }
      if goToHomeEvent {
        if homePosition.Some? && homePosition.value.orientation.Some? {
          filter.quaternion := homePosition.value.orientation.value;
          filter.gyroBias := initialBias;
        }
        goToHomeEvent := false;
      }
    }

    /**
     * One pass of the poll loop, from the elapsed time, the button-down
     * events, the raw sensor data and the reading's magnitude. A pass with
     * no elapsed time does nothing. Otherwise the elapsed time becomes the
     * sample period, buttons and reset requests are handled, and, unless
     * sensor updates are paused, the sensor update follows; its drift
     * correction moves the calibrated bias along with the estimator's.
     */
    method PollStep(dt: real, names: seq<Option<string>>, rawGyro: Vec3, rawAccel: Vec3, accelMagnitude: real,
                    settings: Settings, integrate: Integrator)
      requires Valid()
      requires accelMagnitude >= 0.0 && accelMagnitude * accelMagnitude == rawAccel.NormSq()
      modifies this`buttons, this`recenterEvent, this`goToHomeEvent, this`accelData, this`orientation
      modifies filter`samplePeriod, filter`beta, filter`zeta, filter`quaternion, filter`gyroBias, initialBias
      modifies lpfX, lpfY, lpfZ
      ensures Valid() && filter.Bias() == Calibration()
      ensures dt <= 0.0 ==> buttons == old(buttons) && filter.quaternion == old(filter.quaternion)
                            && filter.samplePeriod == old(filter.samplePeriod) && Calibration() == old(Calibration())
                            && recenterEvent == old(recenterEvent) && goToHomeEvent == old(goToHomeEvent)
      ensures dt > 0.0 ==> filter.samplePeriod == dt && buttons == PressAll(old(buttons), names)
                           && !recenterEvent && !goToHomeEvent
      ensures dt > 0.0 && !settings.pauseSensorUpdates ==>
                Updated(settings, old(Memory()), rawAccel)
                && Calibration() == DriftedCalibration(old(Calibration()),
                                                       AfterResets(old(filter.quaternion), old(recenterEvent), old(goToHomeEvent), homePosition),
                                                       rawAccel, accelMagnitude, settings, dt)
                && filter.quaternion
                   == UpdatedOrientation(AfterResets(old(filter.quaternion), old(recenterEvent), old(goToHomeEvent), homePosition),
                                         rawGyro, Calibration(), rawAccel, accelMagnitude, settings.betaGain, dt, integrate)
      ensures dt > 0.0 && settings.pauseSensorUpdates ==>
                filter.quaternion == AfterResets(old(filter.quaternion), old(recenterEvent), old(goToHomeEvent), homePosition)
      ensures dt <= 0.0 || settings.pauseSensorUpdates ==>
                Memory() == old(Memory()) && accelData == old(accelData) && orientation == old(orientation)
                && Calibration() == old(Calibration())
                && filter.beta == old(filter.beta) && filter.zeta == old(filter.zeta)
                && lpfX.alpha == old(lpfX.alpha) && lpfY.alpha == old(lpfY.alpha) && lpfZ.alpha == old(lpfZ.alpha)
    {
      if dt <= 0.0 {
        return;
      }
      filter.samplePeriod := dt;
      HandleButtons(names);
      HandleResets();
      if settings.pauseSensorUpdates {
        return;
      }
      UpdateSensors(rawGyro, rawAccel, accelMagnitude, settings, integrate);
    }

    /** What the three low-pass filters remember. */
    function Memory(): (Option<real>, Option<real>, Option<real>)
      reads lpfX, lpfY, lpfZ
    {
      (lpfX.lastValue, lpfY.lastValue, lpfZ.lastValue)
    }

    /**
     * The state after a sensor update from filter memory `m`: the gains and
     * the smoothing factor are the settings', each remapped accelerometer
     * component is low-pass filtered and remembered, and the published
     * orientation is the estimator's.
     */
    ghost predicate Updated(settings: Settings, m: (Option<real>, Option<real>, Option<real>), rawAccel: Vec3)
      reads this, filter, lpfX, lpfY, lpfZ
    {
      filter.beta == settings.betaGain && filter.zeta == settings.driftCorrectionGain
      && lpfX.alpha == settings.accelerometerSmoothing && lpfY.alpha == settings.accelerometerSmoothing
      && lpfZ.alpha == settings.accelerometerSmoothing
      && accelData.x == Filtered(settings.accelerometerSmoothing, m.0, Remap(rawAccel).x)
      && accelData.y == Filtered(settings.accelerometerSmoothing, m.1, Remap(rawAccel).y)
      && accelData.z == Filtered(settings.accelerometerSmoothing, m.2, Remap(rawAccel).z)
      && Memory() == (Some(accelData.x), Some(accelData.y), Some(accelData.z))
      && orientation == filter.quaternion
    }

    /**
     * The unpaused part of a pass: the gains and the smoothing factor are
     * applied, the accelerometer is low-pass filtered and the estimator
     * updated with the remapped reading. The estimator's drift correction
     * writes into the calibrated bias array.
     */
    method UpdateSensors(rawGyro: Vec3, rawAccel: Vec3, accelMagnitude: real, settings: Settings, integrate: Integrator)
      requires Valid()
      requires accelMagnitude >= 0.0 && accelMagnitude * accelMagnitude == rawAccel.NormSq()
      modifies this`accelData, this`orientation
      modifies filter`beta, filter`zeta, filter`quaternion, initialBias, lpfX, lpfY, lpfZ
      ensures Valid() && Updated(settings, old(Memory()), rawAccel)
      ensures Calibration() == filter.Bias()
              == DriftedCalibration(old(Calibration()), old(filter.quaternion), rawAccel, accelMagnitude, settings,
                                    filter.samplePeriod)
      ensures filter.quaternion == UpdatedOrientation(old(filter.quaternion), rawGyro, filter.Bias(), rawAccel, accelMagnitude,
                                                      settings.betaGain, filter.samplePeriod, integrate)
    {
      var accel := Remap(rawAccel);
      var gyro := Remap(rawGyro);
      filter.beta := settings.betaGain;
      filter.zeta := settings.driftCorrectionGain;
      lpfX.SetAlpha(settings.accelerometerSmoothing);
      lpfY.SetAlpha(settings.accelerometerSmoothing);
      lpfZ.SetAlpha(settings.accelerometerSmoothing);
      var smoothX := lpfX.Update(accel.x);
      var smoothY := lpfY.Update(accel.y);
      var smoothZ := lpfZ.Update(accel.z);
      RemapInvolution(rawAccel);
      filter.UpdateImu(gyro, accel, accelMagnitude, settings.correctDriftWhenStill, integrate);
      accelData := Vec3(smoothX, smoothY, smoothZ);
      orientation := filter.quaternion;
    }
  }

  // ---------------------------------------------------------------------
  // Restoring the calibrated bias

  /** At the default home orientation the estimator predicts gravity at `(0, 0.975, 0.14)`. */
  lemma DefaultHomeGravity()
    ensures EstimatedGravity(DefaultHome) == Vec3(0.0, 0.975, 0.14)
  {
  }

  /** A reading of one g along z is its own normalisation. */
  lemma UpIsNormalised()
    ensures Normalised(Vec3(0.0, 0.0, 1.0), 1.0) == Vec3(0.0, 0.0, 1.0)
  {
  }

  /** Its magnitude is one. */
  lemma UpHasUnitMagnitude()
    ensures 1.0 * 1.0 == Vec3(0.0, 0.0, 1.0).NormSq()
  {
  }

  /**
   * Lying flat (one g along z) at the default home orientation, one update
   * with the default drift gain and a 5 ms period moves the bias by
   * `(0.00024375, 0, 0)`.
   */
  lemma FlatRestDrift()
    ensures BiasError(DefaultHome, Vec3(0.0, 0.0, 1.0)).Scale(0.05 * 0.005) == Vec3(0.00024375, 0.0, 0.0)
  {
    FlatRestError();
  }

  /** The bias correction direction lying flat at the default home orientation. */
  lemma FlatRestError()
    ensures BiasError(DefaultHome, Vec3(0.0, 0.0, 1.0)) == Vec3(0.975, 0.0, 0.0)
  {
    DefaultHomeGravity();
  }

  /**
   * The start-up and go-home code as written: the estimator is handed the
   * calibrated bias array itself rather than a copy. A first pass that
   * goes home to `q` and then corrects the bias also moves the
   * calibration, so a second go-home hands back the drifted array: the
   * "restored" bias is the calibration plus the drift, not the
   * calibration.
   */
  method GoHomeAfterDriftAsWritten(rawGyro: seq<Vec3>, q: Quaternion, gyro: Vec3, rawAccel: Vec3, accelMagnitude: real,
                                   settings: Settings, integrate: Integrator)
    returns (biasAfterGoHome: Vec3, calibration: Vec3)
    requires |rawGyro| == NumCalibrationSamples
    requires accelMagnitude > 0.0 && accelMagnitude * accelMagnitude == rawAccel.NormSq()
    requires !settings.pauseSensorUpdates
    requires CorrectsBias(settings.driftCorrectionGain, settings.correctDriftWhenStill, accelMagnitude)
    ensures calibration == RemappedMean(rawGyro)
    ensures var drift := Drift(q, Remap(rawAccel), accelMagnitude, settings.driftCorrectionGain, 0.005);
            biasAfterGoHome == calibration.Add(drift)
            && (drift != Zero3 ==> biasAfterGoHome != calibration)
  {
    var loop := new SensorLoop(rawGyro, settings, Some(HomeRecord(None, Some(q))));
    calibration := loop.Calibration();
    loop.ZeroOrientation();
    loop.PollStep(0.005, [], gyro, rawAccel, accelMagnitude, settings, integrate);
    ghost var drifted := loop.Calibration();
    loop.ZeroOrientation();
    loop.HandleResets();
    biasAfterGoHome := loop.filter.Bias();
    ghost var drift := Drift(q, Remap(rawAccel), accelMagnitude, settings.driftCorrectionGain, 0.005);
    assert drifted == calibration.Add(drift);
    if drift != Zero3 {
      DriftShows(calibration, drift);
    }
  }

  /** Adding a non-zero vector changes a vector. */
  lemma DriftShows(c: Vec3, d: Vec3)
    requires d != Zero3
    ensures c.Add(d) != c
  {
  }

  /** The raw reading of a controller lying flat: one g, remapped to `+z`. */
  lemma FlatReading()
    ensures 1.0 * 1.0 == Vec3(0.0, 0.0, -1.0).NormSq() && Remap(Vec3(0.0, 0.0, -1.0)) == Vec3(0.0, 0.0, 1.0)
  {
  }

  /**
   * An input that shows it: lying flat (the remapped reading is one g
   * along z) at the default home orientation, with the default drift gain,
   * still-only correction and a 5 ms period, the drift is
   * `(0.00024375, 0, 0)`, not zero.
   */
  lemma FlatRestDrifts()
    ensures CorrectsBias(0.05, true, 1.0)
    ensures 1.0 * 1.0 == Vec3(0.0, 0.0, -1.0).NormSq() && Remap(Vec3(0.0, 0.0, -1.0)) == Vec3(0.0, 0.0, 1.0)
    ensures Drift(DefaultHome, Vec3(0.0, 0.0, 1.0), 1.0, 0.05, 0.005) == Vec3(0.00024375, 0.0, 0.0)
  {
    FlatReading();
    UpIsNormalised();
    FlatRestDrift();
  }

  /**
   * The evident intent: the estimator works on its own copy of the
   * calibrated bias, and a recenter copies the calibration in again.
   * Whatever the drift correction did to the estimator's bias in between,
   * the recenter restores exactly the calibration.
   */
  method RecenterAfterDrift(calibration: Vec3, q: Quaternion, gyro: Vec3, accel: Vec3, accelMagnitude: real,
                            zeta: real, dt: real, correctWhenStill: bool, integrate: Integrator)
    returns (biasAfterRecenter: Vec3, biasBeforeRecenter: Vec3)
    requires accelMagnitude >= 0.0 && accelMagnitude * accelMagnitude == accel.NormSq()
    ensures accelMagnitude != 0.0 && CorrectsBias(zeta, correctWhenStill, accelMagnitude) ==>
              biasBeforeRecenter == calibration.Add(Drift(q, accel, accelMagnitude, zeta, dt))
    ensures biasAfterRecenter == calibration
  {
    var initialBias := new real[3] [calibration.x, calibration.y, calibration.z];
    var f := new MadgwickFilter(dt, DefaultBeta, zeta);
    f.SetBias(Vec3(initialBias[0], initialBias[1], initialBias[2]));
    f.quaternion := q;
    f.UpdateImu(gyro, accel, accelMagnitude, correctWhenStill, integrate);
    biasBeforeRecenter := f.Bias();
    f.quaternion := DefaultHome;
    f.SetBias(Vec3(initialBias[0], initialBias[1], initialBias[2]));
    biasAfterRecenter := f.Bias();
  }
}
