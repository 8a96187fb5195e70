/**
 * The recorded entities of the controller stack: a saved position (a cloud
 * of recorded gyro/accel samples summarised by per-axis averages and raw
 * extremes, with a padding margin, a set of axes to check and optional
 * user-set centres), a motion sequence step and a motion sequence with its
 * live progress fields.
 */
module Models {
  import opened Common

  /** The six sensor axes: three gyro angles and three accelerometer axes. */
  datatype Axis = Pitch | Yaw | Roll | X | Y | Z

  /** One recorded point: a gyro reading (pitch, yaw, roll) and an accel reading (x, y, z). */
  datatype Sample = Sample(gyro: Vec3, accel: Vec3)

  /** The value a gyro/accel pair shows on one axis. */
  function Reading(gyro: Vec3, accel: Vec3, a: Axis): real
  {
    match a
    case Pitch => gyro.x
    case Yaw => gyro.y
    case Roll => gyro.z
    case X => accel.x
    case Y => accel.y
    case Z => accel.z
  }

  /** Which axes a position checks. */
  datatype DetectionAxes = DetectionAxes(pitch: bool, yaw: bool, roll: bool, x: bool, y: bool, z: bool)
  {
    function Enabled(a: Axis): bool
    {
      match a
      case Pitch => pitch
      case Yaw => yaw
      case Roll => roll
      case X => x
      case Y => y
      case Z => z
    }

    function AnyEnabled(): bool { pitch || yaw || roll || x || y || z }
  }

  const AllAxes: DetectionAxes := DetectionAxes(true, true, true, true, true, true)

  lemma AnyEnabledMeans(d: DetectionAxes)
    ensures d.AnyEnabled() <==> exists a: Axis :: d.Enabled(a)
  {
    if d.AnyEnabled() {
      if d.pitch { assert d.Enabled(Pitch); }
      else if d.yaw { assert d.Enabled(Yaw); }
      else if d.roll { assert d.Enabled(Roll); }
      else if d.x { assert d.Enabled(X); }
      else if d.y { assert d.Enabled(Y); }
      else { assert d.Enabled(Z); }
    }
  }

  /** The values of one axis across a recording, in order. */
  function AxisValues(points: seq<Sample>, a: Axis): (vs: seq<real>)
    ensures |vs| == |points|
    ensures forall k :: 0 <= k < |points| ==> vs[k] == Reading(points[k].gyro, points[k].accel, a)
  {
    seq(|points|, k requires 0 <= k < |points| => Reading(points[k].gyro, points[k].accel, a))
  }

  function AxisMean(points: seq<Sample>, a: Axis): real
  {
    if |points| == 0 then 0.0 else Mean(AxisValues(points, a))
  }

  function AxisMin(points: seq<Sample>, a: Axis): real
  {
    if |points| == 0 then 0.0 else MinOf(AxisValues(points, a))
  }

  function AxisMax(points: seq<Sample>, a: Axis): real
  {
    if |points| == 0 then 0.0 else MaxOf(AxisValues(points, a))
  }

  datatype SavedPosition = SavedPosition(
    id: string,
    name: string,
    recordedPoints: seq<Sample>,
    paddingFactor: real,
    detectionAxes: DetectionAxes,
    avgGyro: Vec3,
    avgAccel: Vec3,
    rawMinGyro: Vec3,
    rawMaxGyro: Vec3,
    rawMinAccel: Vec3,
    rawMaxAccel: Vec3,
    customAvgGyro: Option<Vec3>,
    customAvgAccel: Option<Vec3>)
  {
    /** The stored average on one axis. */
    function Avg(a: Axis): real { Reading(avgGyro, avgAccel, a) }
    function RawMin(a: Axis): real { Reading(rawMinGyro, rawMinAccel, a) }
    function RawMax(a: Axis): real { Reading(rawMaxGyro, rawMaxAccel, a) }

    /** The centre of the detection window: the user override when set, else the average. */
    function Center(a: Axis): real
    {
      var g := if customAvgGyro.Some? then customAvgGyro.value else avgGyro;
      var c := if customAvgAccel.Some? then customAvgAccel.value else avgAccel;
      Reading(g, c, a)
    }
  }

  /**
   * `SavedPosition.__init__`: keeps the given id (a fresh one only when none
   * is given), defaults the axes to all six, and summarises the recording.
   */
  function NewSavedPosition(
    recordedPoints: seq<Sample>, name: string, paddingFactor: real,
    detectionAxes: Option<DetectionAxes>, id: Option<string>, freshId: string,
    customAvgGyro: Option<Vec3>, customAvgAccel: Option<Vec3>): (p: SavedPosition)
    ensures p.id == (if id.Some? then id.value else freshId)
    ensures p.detectionAxes == (if detectionAxes.Some? then detectionAxes.value else AllAxes)
    ensures p.recordedPoints == recordedPoints && p.name == name && p.paddingFactor == paddingFactor
    ensures p.customAvgGyro == customAvgGyro && p.customAvgAccel == customAvgAccel
    ensures Summarises(p)
  {
    var pts := recordedPoints;
    var p := SavedPosition(
      if id.Some? then id.value else freshId,
      name, pts, paddingFactor,
      if detectionAxes.Some? then detectionAxes.value else AllAxes,
      Vec3(AxisMean(pts, Pitch), AxisMean(pts, Yaw), AxisMean(pts, Roll)),
      Vec3(AxisMean(pts, X), AxisMean(pts, Y), AxisMean(pts, Z)),
      Vec3(AxisMin(pts, Pitch), AxisMin(pts, Yaw), AxisMin(pts, Roll)),
      Vec3(AxisMax(pts, Pitch), AxisMax(pts, Yaw), AxisMax(pts, Roll)),
      Vec3(AxisMin(pts, X), AxisMin(pts, Y), AxisMin(pts, Z)),
      Vec3(AxisMax(pts, X), AxisMax(pts, Y), AxisMax(pts, Z)),
      customAvgGyro, customAvgAccel);
    SummaryByAxis(p);
    p
  }

  lemma SummaryByAxis(p: SavedPosition)
    requires p.avgGyro == Vec3(AxisMean(p.recordedPoints, Pitch), AxisMean(p.recordedPoints, Yaw), AxisMean(p.recordedPoints, Roll))
    requires p.avgAccel == Vec3(AxisMean(p.recordedPoints, X), AxisMean(p.recordedPoints, Y), AxisMean(p.recordedPoints, Z))
    requires p.rawMinGyro == Vec3(AxisMin(p.recordedPoints, Pitch), AxisMin(p.recordedPoints, Yaw), AxisMin(p.recordedPoints, Roll))
    requires p.rawMaxGyro == Vec3(AxisMax(p.recordedPoints, Pitch), AxisMax(p.recordedPoints, Yaw), AxisMax(p.recordedPoints, Roll))
    requires p.rawMinAccel == Vec3(AxisMin(p.recordedPoints, X), AxisMin(p.recordedPoints, Y), AxisMin(p.recordedPoints, Z))
    requires p.rawMaxAccel == Vec3(AxisMax(p.recordedPoints, X), AxisMax(p.recordedPoints, Y), AxisMax(p.recordedPoints, Z))
    ensures Summarises(p)
  {
    forall a: Axis
      ensures p.Avg(a) == AxisMean(p.recordedPoints, a)
      ensures p.RawMin(a) == AxisMin(p.recordedPoints, a)
      ensures p.RawMax(a) == AxisMax(p.recordedPoints, a)
    {
      match a
      case Pitch =>
      case Yaw =>
      case Roll =>
      case X =>
      case Y =>
      case Z =>
    }
  }

  /** The summary fields of `p` are the ones its own recording determines. */
  ghost predicate Summarises(p: SavedPosition)
  {
    forall a: Axis ::
      p.Avg(a) == AxisMean(p.recordedPoints, a)
      && p.RawMin(a) == AxisMin(p.recordedPoints, a)
      && p.RawMax(a) == AxisMax(p.recordedPoints, a)
  }

  /**
   * The summary is a function of the recording: two positions that both
   * summarise the same points agree on every summary field.
   */
  lemma SummaryDetermined(p: SavedPosition, q: SavedPosition)
    requires Summarises(p) && Summarises(q)
    requires p.recordedPoints == q.recordedPoints
    ensures p.avgGyro == q.avgGyro && p.avgAccel == q.avgAccel
    ensures p.rawMinGyro == q.rawMinGyro && p.rawMaxGyro == q.rawMaxGyro
    ensures p.rawMinAccel == q.rawMinAccel && p.rawMaxAccel == q.rawMaxAccel
  {
    forall a: Axis
      ensures p.Avg(a) == q.Avg(a) && p.RawMin(a) == q.RawMin(a) && p.RawMax(a) == q.RawMax(a)
    {
    }
    assert p.Avg(Pitch) == q.Avg(Pitch) && p.Avg(Yaw) == q.Avg(Yaw) && p.Avg(Roll) == q.Avg(Roll);
    assert p.Avg(X) == q.Avg(X) && p.Avg(Y) == q.Avg(Y) && p.Avg(Z) == q.Avg(Z);
    assert p.RawMin(Pitch) == q.RawMin(Pitch) && p.RawMin(Yaw) == q.RawMin(Yaw) && p.RawMin(Roll) == q.RawMin(Roll);
    assert p.RawMin(X) == q.RawMin(X) && p.RawMin(Y) == q.RawMin(Y) && p.RawMin(Z) == q.RawMin(Z);
    assert p.RawMax(Pitch) == q.RawMax(Pitch) && p.RawMax(Yaw) == q.RawMax(Yaw) && p.RawMax(Roll) == q.RawMax(Roll);
    assert p.RawMax(X) == q.RawMax(X) && p.RawMax(Y) == q.RawMax(Y) && p.RawMax(Z) == q.RawMax(Z);
  }

  /**
   * What the summary of a non-empty recording means: on every axis the
   * average is the arithmetic mean, and the raw minimum and maximum bound
   * every recorded value and are themselves recorded values.
   */
  lemma RecordedStatistics(p: SavedPosition, a: Axis)
    requires Summarises(p)
    requires |p.recordedPoints| > 0
    ensures p.Avg(a) * (|p.recordedPoints| as real) == Sum(AxisValues(p.recordedPoints, a))
    ensures forall k :: 0 <= k < |p.recordedPoints| ==>
      p.RawMin(a) <= Reading(p.recordedPoints[k].gyro, p.recordedPoints[k].accel, a) <= p.RawMax(a)
    ensures exists k :: 0 <= k < |p.recordedPoints| && p.RawMin(a) == Reading(p.recordedPoints[k].gyro, p.recordedPoints[k].accel, a)
    ensures exists k :: 0 <= k < |p.recordedPoints| && p.RawMax(a) == Reading(p.recordedPoints[k].gyro, p.recordedPoints[k].accel, a)
  {
    var vs := AxisValues(p.recordedPoints, a);
    MinOfIsLeast(vs);
    MaxOfIsGreatest(vs);
    assert (Sum(vs) / (|vs| as real)) * (|vs| as real) == Sum(vs);
  }

  /** An empty recording is summarised by zeros on every axis. */
  lemma EmptyRecordingIsZero(p: SavedPosition, a: Axis)
    requires Summarises(p)
    requires |p.recordedPoints| == 0
    ensures p.Avg(a) == 0.0 && p.RawMin(a) == 0.0 && p.RawMax(a) == 0.0
  {
  }

  /** The recorded average always lies between the raw extremes. */
  lemma AverageWithinRawRange(p: SavedPosition, a: Axis)
    requires Summarises(p)
    ensures p.RawMin(a) <= p.Avg(a) <= p.RawMax(a)
  {
    if |p.recordedPoints| > 0 {
      MeanWithinExtremes(AxisValues(p.recordedPoints, a));
    }
  }

  /** The effective detection window: per axis, a low and a high bound. */
  datatype Ranges = Ranges(minGyro: Vec3, maxGyro: Vec3, minAccel: Vec3, maxAccel: Vec3)
  {
    function Lo(a: Axis): real { Reading(minGyro, minAccel, a) }
    function Hi(a: Axis): real { Reading(maxGyro, maxAccel, a) }
  }

  function Spread(p: SavedPosition, a: Axis): real { p.RawMax(a) - p.RawMin(a) }

  /**
   * `get_effective_ranges`: on every axis a window centred on the centre
   * (override or average), as wide as the raw spread plus the padding on
   * each side.
   */
  function EffectiveRanges(p: SavedPosition): (r: Ranges)
    ensures forall a: Axis :: r.Hi(a) - p.Center(a) == p.Center(a) - r.Lo(a)
    ensures forall a: Axis :: r.Hi(a) - r.Lo(a) == Spread(p, a) + 2.0 * p.paddingFactor
    ensures forall a: Axis :: p.customAvgGyro.Some? && a in {Pitch, Yaw, Roll} ==>
      r.Lo(a) + r.Hi(a) == 2.0 * Reading(p.customAvgGyro.value, p.avgAccel, a)
    ensures forall a: Axis :: p.customAvgAccel.Some? && a in {X, Y, Z} ==>
      r.Lo(a) + r.Hi(a) == 2.0 * Reading(p.avgGyro, p.customAvgAccel.value, a)
  {
    var cg := if p.customAvgGyro.Some? then p.customAvgGyro.value else p.avgGyro;
    var ca := if p.customAvgAccel.Some? then p.customAvgAccel.value else p.avgAccel;
    var hg := Vec3((p.rawMaxGyro.x - p.rawMinGyro.x) / 2.0 + p.paddingFactor,
                   (p.rawMaxGyro.y - p.rawMinGyro.y) / 2.0 + p.paddingFactor,
                   (p.rawMaxGyro.z - p.rawMinGyro.z) / 2.0 + p.paddingFactor);
    var ha := Vec3((p.rawMaxAccel.x - p.rawMinAccel.x) / 2.0 + p.paddingFactor,
                   (p.rawMaxAccel.y - p.rawMinAccel.y) / 2.0 + p.paddingFactor,
                   (p.rawMaxAccel.z - p.rawMinAccel.z) / 2.0 + p.paddingFactor);
    Ranges(cg.Sub(hg), cg.Add(hg), ca.Sub(ha), ca.Add(ha))
  }

  /**
   * For a position built from its recording with a non-negative padding,
   * every window is non-empty and contains its centre.
   */
  lemma RangesNonEmpty(p: SavedPosition, a: Axis)
    requires Summarises(p)
    requires p.paddingFactor >= 0.0
    ensures EffectiveRanges(p).Lo(a) <= p.Center(a) <= EffectiveRanges(p).Hi(a)
  {
    AverageWithinRawRange(p, a);
  }

  /**
   * Without an override, a recorded value lies at most one spread from the
   * average, so a padding of at least half the spread puts every recorded
   * value inside the window.
   */
  lemma RangesContainRecording(p: SavedPosition, a: Axis)
    requires Summarises(p)
    requires p.Center(a) == p.Avg(a)
    requires p.paddingFactor >= Spread(p, a) / 2.0
    ensures forall k :: 0 <= k < |p.recordedPoints| ==>
      EffectiveRanges(p).Lo(a) <= Reading(p.recordedPoints[k].gyro, p.recordedPoints[k].accel, a)
      <= EffectiveRanges(p).Hi(a)
  {
    AverageWithinRawRange(p, a);
    if |p.recordedPoints| > 0 {
      RecordedStatistics(p, a);
    }
  }

  /**
   * The window is centred on the mean, not on the midpoint of the extremes,
   * so with no padding a lopsided recording can leave one of its own values
   * outside: pitch readings 0, 10, 10, 10 average 7.5 and give the window
   * [2.5, 12.5], which misses the reading 0.
   */
  lemma LopsidedRecordingEscapesWindow()
    ensures var p := NewSavedPosition(LopsidedPoints, "lopsided", 0.0, None, Some("p"), "", None, None);
            EffectiveRanges(p).Lo(Pitch) == 2.5 && EffectiveRanges(p).Hi(Pitch) == 12.5
            && Reading(LopsidedPoints[0].gyro, LopsidedPoints[0].accel, Pitch) < EffectiveRanges(p).Lo(Pitch)
  {
    var p := NewSavedPosition(LopsidedPoints, "lopsided", 0.0, None, Some("p"), "", None, None);
    LopsidedStatistics();
    assert p.Avg(Pitch) == 7.5 && p.RawMin(Pitch) == 0.0 && p.RawMax(Pitch) == 10.0;
  }

  /** Pitch readings 0, 10, 10, 10 and nothing on the other axes. */
  const LopsidedPoints: seq<Sample> :=
    [Sample(Zero3, Zero3), Sample(Vec3(10.0, 0.0, 0.0), Zero3),
     Sample(Vec3(10.0, 0.0, 0.0), Zero3), Sample(Vec3(10.0, 0.0, 0.0), Zero3)]

  /** The pitch statistics of `LopsidedPoints`. */
  lemma LopsidedStatistics()
    ensures AxisMean(LopsidedPoints, Pitch) == 7.5
    ensures AxisMin(LopsidedPoints, Pitch) == 0.0
    ensures AxisMax(LopsidedPoints, Pitch) == 10.0
  {
    var vs := AxisValues(LopsidedPoints, Pitch);
    var v1, v2, v3 := [0.0], [0.0, 10.0], [0.0, 10.0, 10.0];
    assert vs == v3 + [10.0];
    assert v3 == v2 + [10.0] && v2 == v1 + [10.0];
    assert Sum(v1) == 0.0 && MinOf(v1) == 0.0 && MaxOf(v1) == 0.0;
    assert Sum(v2) == 10.0 && MinOf(v2) == 0.0 && MaxOf(v2) == 10.0;
    assert Sum(v3) == 20.0 && MinOf(v3) == 0.0 && MaxOf(v3) == 10.0;
    assert Sum(vs) == 30.0 && MinOf(vs) == 0.0 && MaxOf(vs) == 10.0;
  }

  // ---------------------------------------------------------------------
  // Motion sequences

  datatype GyroDirections = GyroDirections(pitch: string, yaw: string, roll: string)
  datatype AccelDirections = AccelDirections(x: string, y: string, z: string)

  const AnyGyro: GyroDirections := GyroDirections("any", "any", "any")
  const AnyAccel: AccelDirections := AccelDirections("any", "any", "any")

  datatype MotionSequenceStep = MotionSequenceStep(
    positionId: string, gyroDirections: GyroDirections, accelDirections: AccelDirections)

  /** `MotionSequenceStep.__init__`: directions default to "any" on every axis. */
  function NewStep(positionId: string, gyroDirections: Option<GyroDirections>, accelDirections: Option<AccelDirections>): (s: MotionSequenceStep)
    ensures s.positionId == positionId
    ensures gyroDirections.None? ==> s.gyroDirections == AnyGyro
    ensures gyroDirections.Some? ==> s.gyroDirections == gyroDirections.value
    ensures accelDirections.None? ==> s.accelDirections == AnyAccel
    ensures accelDirections.Some? ==> s.accelDirections == accelDirections.value
  {
    MotionSequenceStep(positionId,
      if gyroDirections.Some? then gyroDirections.value else AnyGyro,
      if accelDirections.Some? then accelDirections.value else AnyAccel)
  }

  /**
   * A motion sequence: its configuration (name, steps, windows, binding,
   * export settings) and its live progress (index of the next expected
   * step, timestamps in milliseconds, completion flag).
   */
  datatype MotionSequence = MotionSequence(
    name: string,
    steps: seq<MotionSequenceStep>,
    timeWindowMs: int,
    repetitionCount: int,
    currentPositionIndex: nat,
    lastMatchTime: Option<real>,
    resetGracePeriodMs: int,
    nonMatchStartTime: Option<real>,
    actionBinding: Option<string>,
    lastActionTriggerTime: Option<real>,
    exportRepsToFile: bool,
    exportFilePath: Option<string>,
    isCompletedThisFrame: bool)

  /**
   * `MotionSequence.__init__`: a new sequence starts at its first step with
   * no timestamps; the last-trigger argument is accepted but not stored.
   */
  function NewMotionSequence(
    name: string, steps: seq<MotionSequenceStep>, timeWindowMs: int, repetitionCount: int,
    resetGracePeriodMs: int, actionBinding: Option<string>, lastActionTriggerTime: Option<real>,
    exportRepsToFile: bool, exportFilePath: Option<string>): (s: MotionSequence)
    ensures s.name == name && s.steps == steps && s.timeWindowMs == timeWindowMs
    ensures s.repetitionCount == repetitionCount && s.resetGracePeriodMs == resetGracePeriodMs
    ensures s.actionBinding == actionBinding
    ensures s.exportRepsToFile == exportRepsToFile && s.exportFilePath == exportFilePath
    ensures s.currentPositionIndex == 0 && s.lastMatchTime.None? && s.nonMatchStartTime.None?
    ensures s.lastActionTriggerTime.None? && !s.isCompletedThisFrame
  {
    MotionSequence(name, steps, timeWindowMs, repetitionCount, 0, None, resetGracePeriodMs,
                   None, actionBinding, None, exportRepsToFile, exportFilePath, false)
  }

  // ---------------------------------------------------------------------
  // Distances

  /**
   * `euclidean_distance`, squared: an error unless both points have three
   * coordinates. The square root is left to `DistanceBelow`.
   */
  function SquaredDistance(p1: seq<real>, p2: seq<real>): (r: Result<real>)
    ensures r.Ok? <==> |p1| == 3 && |p2| == 3
    ensures r.Ok? ==> r.value == Vec3(p1[0], p1[1], p1[2]).Sub(Vec3(p2[0], p2[1], p2[2])).NormSq()
  {
    if |p1| != 3 || |p2| != 3 then Err("Points must be 3-dimensional for Euclidean distance calculation.")
    else
      var dx := p1[0] - p2[0];
      var dy := p1[1] - p2[1];
      var dz := p1[2] - p2[2];
      Ok(dx * dx + dy * dy + dz * dz)
  }

  /** `distance < tolerance`, decided on the squared distance. */
  predicate DistanceBelow(squaredDistance: real, tolerance: real)
  {
    0.0 < tolerance && squaredDistance < tolerance * tolerance
  }
}
