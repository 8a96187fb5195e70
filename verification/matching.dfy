/**
 * Spatial matching of a smoothed gyro/accel reading against saved
 * positions: a position matches when it checks at least one axis and every
 * axis it checks lies inside its effective window, bounds included. The
 * first matching position in stored order wins.
 */
module Matching {
  import opened Common
  import opened Models

  /** Inclusive bounds check `lo <= v <= hi`. */
  predicate InRange(lo: real, v: real, hi: real)
  {
    lo <= v && v <= hi
  }

  /**
   * The per-position test, staged as the controller evaluates it: the gyro
   * axes in order, then the accel axes, each only while the earlier ones
   * held, and finally the requirement that some axis is enabled.
   */
  predicate Matches(p: SavedPosition, gyro: Vec3, accel: Vec3)
  {
    var r := EffectiveRanges(p);
    var d := p.detectionAxes;
    var gyroOk :=
      (!d.pitch || InRange(r.minGyro.x, gyro.x, r.maxGyro.x))
      && (!d.yaw || InRange(r.minGyro.y, gyro.y, r.maxGyro.y))
      && (!d.roll || InRange(r.minGyro.z, gyro.z, r.maxGyro.z));
    var isMatch := gyroOk
      && (!d.x || InRange(r.minAccel.x, accel.x, r.maxAccel.x))
      && (!d.y || InRange(r.minAccel.y, accel.y, r.maxAccel.y))
      && (!d.z || InRange(r.minAccel.z, accel.z, r.maxAccel.z));
    isMatch && d.AnyEnabled()
  }

  /** Axis-wise reading of `Matches`: some axis is enabled and every enabled axis is in its window. */
  lemma MatchesMeans(p: SavedPosition, gyro: Vec3, accel: Vec3)
    ensures Matches(p, gyro, accel) <==>
      (exists a: Axis :: p.detectionAxes.Enabled(a))
      && forall a: Axis :: p.detectionAxes.Enabled(a) ==>
           InRange(EffectiveRanges(p).Lo(a), Reading(gyro, accel, a), EffectiveRanges(p).Hi(a))
  {
    AnyEnabledMeans(p.detectionAxes);
    var r := EffectiveRanges(p);
    var d := p.detectionAxes;
    if Matches(p, gyro, accel) {
      forall a: Axis | d.Enabled(a)
        ensures InRange(r.Lo(a), Reading(gyro, accel, a), r.Hi(a))
      {
        match a
        case Pitch =>
        case Yaw =>
        case Roll =>
        case X =>
        case Y =>
        case Z =>
      }
    } else if forall a: Axis :: d.Enabled(a) ==> InRange(r.Lo(a), Reading(gyro, accel, a), r.Hi(a)) {
      assert d.pitch ==> d.Enabled(Pitch);
      assert d.yaw ==> d.Enabled(Yaw);
      assert d.roll ==> d.Enabled(Roll);
      assert d.x ==> d.Enabled(X);
      assert d.y ==> d.Enabled(Y);
      assert d.z ==> d.Enabled(Z);
    }
  }

  /** A position with every axis switched off never matches. */
  lemma NoAxesNeverMatches(p: SavedPosition, gyro: Vec3, accel: Vec3)
    requires !p.detectionAxes.AnyEnabled()
    ensures !Matches(p, gyro, accel)
  {
  }

  /** A reading sitting exactly on the bounds of every enabled axis matches. */
  lemma BoundsAreInclusive(p: SavedPosition, gyro: Vec3, accel: Vec3)
    requires p.detectionAxes.AnyEnabled()
    requires forall a: Axis :: p.detectionAxes.Enabled(a) ==>
      Reading(gyro, accel, a) == EffectiveRanges(p).Lo(a) || Reading(gyro, accel, a) == EffectiveRanges(p).Hi(a)
    requires forall a: Axis :: EffectiveRanges(p).Lo(a) <= EffectiveRanges(p).Hi(a)
    ensures Matches(p, gyro, accel)
  {
    MatchesMeans(p, gyro, accel);
    AnyEnabledMeans(p.detectionAxes);
  }

  /**
   * `find_matching_position_index`: the index of the first position in
   * stored order that matches, or -1 when none does.
   */
  method FindMatchingPositionIndex(positions: seq<SavedPosition>, gyro: Vec3, accel: Vec3) returns (index: int)
    ensures -1 <= index < |positions|
    ensures index == -1 <==> forall i :: 0 <= i < |positions| ==> !Matches(positions[i], gyro, accel)
    ensures 0 <= index ==> Matches(positions[index], gyro, accel)
    ensures 0 <= index ==> forall i :: 0 <= i < index ==> !Matches(positions[i], gyro, accel)
  {
    var i := 0;
    while i < |positions|
      invariant 0 <= i <= |positions|
      invariant forall j :: 0 <= j < i ==> !Matches(positions[j], gyro, accel)
    {
      var p := positions[i];
      var r := EffectiveRanges(p);
      var d := p.detectionAxes;
      var isMatch := true;
      if d.pitch && !InRange(r.minGyro.x, gyro.x, r.maxGyro.x) { isMatch := false; }
      if isMatch && d.yaw && !InRange(r.minGyro.y, gyro.y, r.maxGyro.y) { isMatch := false; }
      if isMatch && d.roll && !InRange(r.minGyro.z, gyro.z, r.maxGyro.z) { isMatch := false; }
      if isMatch {
        if d.x && !InRange(r.minAccel.x, accel.x, r.maxAccel.x) { isMatch := false; }
        if isMatch && d.y && !InRange(r.minAccel.y, accel.y, r.maxAccel.y) { isMatch := false; }
        if isMatch && d.z && !InRange(r.minAccel.z, accel.z, r.maxAccel.z) { isMatch := false; }
      }
      var anyAxisEnabled := d.pitch || d.yaw || d.roll || d.x || d.y || d.z;
      if isMatch && anyAxisEnabled {
        return i;
      }
      i := i + 1;
    }
    return -1;
  }
}
