/**
 * The controller read loop of the controller stack: smoothing each raw
 * reading, highlighting the first matching position, ticking every motion
 * sequence in order, resetting progress after a reconnect, and turning a
 * finished recording into a new saved position.
 */
module Controller {
  import opened Common
  import opened Models
  import opened Matching
  import opened MovingAverage
  import opened SequenceTick
  import opened RepFile
  import opened Text
  import opened AppState

  // ---------------------------------------------------------------------
  // Smoothing

  /** The reading offered to an axis buffer: gyro axes have the re-level offset removed. */
  function Adjusted(rawGyro: Vec3, rawAccel: Vec3, offset: Vec3, a: Axis): real
  {
    Reading(rawGyro.Sub(offset), rawAccel, a)
  }

  /**
   * The smoothing step of the read loop (and of the recording loop): the
   * gyro offset is subtracted, each of the six axis buffers takes its value,
   * and each axis reports its buffer's mean.
   */
  method SmoothReading(buffers: AxisBuffers, offset: Vec3, rawGyro: Vec3, rawAccel: Vec3)
    returns (gyro: Vec3, accel: Vec3)
    requires buffers.Valid()
    modifies buffers`contents
    ensures buffers.Valid()
    ensures forall a: Axis :: buffers.contents[a]
              == Pushed(old(buffers.contents[a]), Adjusted(rawGyro, rawAccel, offset, a), buffers.maxLen[a])
    ensures forall a: Axis :: Reading(gyro, accel, a)
              == SmoothedValue(buffers.contents[a], Adjusted(rawGyro, rawAccel, offset, a))
  {
    var adjusted := rawGyro.Sub(offset);
    var m := buffers.maxLen;
    ghost var c0 := buffers.contents;
    var p := buffers.Apply(Pitch, adjusted.x);
    ghost var c1 := buffers.contents;
    var y := buffers.Apply(Yaw, adjusted.y);
    ghost var c2 := buffers.contents;
    var r := buffers.Apply(Roll, adjusted.z);
    ghost var c3 := buffers.contents;
    var ax := buffers.Apply(X, rawAccel.x);
    ghost var c4 := buffers.contents;
    var ay := buffers.Apply(Y, rawAccel.y);
    ghost var c5 := buffers.contents;
    var az := buffers.Apply(Z, rawAccel.z);
    gyro := Vec3(p, y, r);
    accel := Vec3(ax, ay, az);
    SixStores(c0, c1, c2, c3, c4, c5, buffers.contents,
              Pushed(c0[Pitch], adjusted.x, m[Pitch]), Pushed(c1[Yaw], adjusted.y, m[Yaw]),
              Pushed(c2[Roll], adjusted.z, m[Roll]), Pushed(c3[X], rawAccel.x, m[X]),
              Pushed(c4[Y], rawAccel.y, m[Y]), Pushed(c5[Z], rawAccel.z, m[Z]));
    PushedPerAxis(c0, buffers.contents, m, adjusted, rawAccel);
    SmoothedPerAxis(buffers.contents, adjusted, rawAccel, gyro, accel);
  }

  /**
   * Six stores in a row, one per axis: each axis ends up holding its own
   * stored value, and each store reads the axis it replaces untouched by
   * the stores before it.
   */
  lemma SixStores<T>(c0: map<Axis, T>, c1: map<Axis, T>, c2: map<Axis, T>, c3: map<Axis, T>, c4: map<Axis, T>,
                     c5: map<Axis, T>, c6: map<Axis, T>, vp: T, vy: T, vr: T, vx: T, vy2: T, vz: T)
    requires forall a: Axis :: a in c0
    requires c1 == c0[Pitch := vp] && c2 == c1[Yaw := vy] && c3 == c2[Roll := vr]
    requires c4 == c3[X := vx] && c5 == c4[Y := vy2] && c6 == c5[Z := vz]
    ensures c6[Pitch] == vp && c6[Yaw] == vy && c6[Roll] == vr && c6[X] == vx && c6[Y] == vy2 && c6[Z] == vz
    ensures c1[Pitch] == vp && c2[Yaw] == vy && c3[Roll] == vr && c4[X] == vx && c5[Y] == vy2
    ensures c1[Yaw] == c0[Yaw] && c2[Roll] == c0[Roll] && c3[X] == c0[X] && c4[Y] == c0[Y] && c5[Z] == c0[Z]
  {
  }

  lemma PushedPerAxis(c0: map<Axis, seq<real>>, c: map<Axis, seq<real>>, m: map<Axis, nat>, g: Vec3, acc: Vec3)
    requires forall a: Axis :: a in c0 && a in c && a in m
    requires c[Pitch] == Pushed(c0[Pitch], g.x, m[Pitch]) && c[Yaw] == Pushed(c0[Yaw], g.y, m[Yaw])
    requires c[Roll] == Pushed(c0[Roll], g.z, m[Roll]) && c[X] == Pushed(c0[X], acc.x, m[X])
    requires c[Y] == Pushed(c0[Y], acc.y, m[Y]) && c[Z] == Pushed(c0[Z], acc.z, m[Z])
    ensures forall a: Axis :: c[a] == Pushed(c0[a], Reading(g, acc, a), m[a])
  {
    forall a: Axis ensures c[a] == Pushed(c0[a], Reading(g, acc, a), m[a]) {
      match a
      case Pitch =>
      case Yaw =>
      case Roll =>
      case X =>
      case Y =>
      case Z =>
    }
  }

  lemma SmoothedPerAxis(c: map<Axis, seq<real>>, g: Vec3, acc: Vec3, gyro: Vec3, accel: Vec3)
    requires forall a: Axis :: a in c
    requires gyro == Vec3(SmoothedValue(c[Pitch], g.x), SmoothedValue(c[Yaw], g.y), SmoothedValue(c[Roll], g.z))
    requires accel == Vec3(SmoothedValue(c[X], acc.x), SmoothedValue(c[Y], acc.y), SmoothedValue(c[Z], acc.z))
    ensures forall a: Axis :: Reading(gyro, accel, a) == SmoothedValue(c[a], Reading(g, acc, a))
  {
    forall a: Axis ensures Reading(gyro, accel, a) == SmoothedValue(c[a], Reading(g, acc, a)) {
      match a
      case Pitch =>
      case Yaw =>
      case Roll =>
      case X =>
      case Y =>
      case Z =>
    }
  }

  /** Applying a new smoothing window size to every buffer keeps each buffer's latest values. */
  method ResizeBuffers(buffers: AxisBuffers, windowSize: nat)
    requires buffers.Valid()
    modifies buffers
    ensures buffers.Valid()
    ensures forall a: Axis :: buffers.maxLen[a] == windowSize
    ensures forall a: Axis :: buffers.contents[a] == LastN(old(buffers.contents[a]), windowSize)
  {
    buffers.Resize(windowSize);
  }

  // ---------------------------------------------------------------------
  // Ticking the motion sequences

  /** The sequences and the files after ticking sequences in list order. */
  datatype Ticks = Ticks(sequences: seq<MotionSequence>, files: FileSystem)

  /**
   * Ticking every sequence in list order; each sequence sees the files as
   * the sequences before it left them (two sequences may export to the
   * same file).
   */
  function TickAll(seqs: seq<MotionSequence>, positions: seq<SavedPosition>, gyro: Vec3, accel: Vec3,
                   now: real, files: FileSystem, dispatch: string -> bool): (r: Ticks)
    requires forall i :: 0 <= i < |seqs| ==> ProgressInvariant(seqs[i])
    ensures TickedFrom(seqs, r.sequences)
    decreases |seqs|
  {
    if |seqs| == 0 then Ticks([], files)
    else
      var prev := TickAll(seqs[..|seqs| - 1], positions, gyro, accel, now, files, dispatch);
      var t := StepSequence(seqs[|seqs| - 1], positions, gyro, accel, now, prev.files, dispatch);
      TickedFromSnoc(seqs, prev.sequences, t.sequence);
      Ticks(prev.sequences + [t.sequence], t.files)
  }

  /** One ticked sequence per sequence, each keeping its configuration and the progress invariant. */
  predicate TickedFrom(seqs: seq<MotionSequence>, out: seq<MotionSequence>)
  {
    |out| == |seqs|
    && forall i :: 0 <= i < |seqs| ==> ProgressInvariant(out[i]) && SameConfiguration(seqs[i], out[i])
  }

  lemma TickedFromSnoc(seqs: seq<MotionSequence>, out: seq<MotionSequence>, last: MotionSequence)
    requires |seqs| > 0 && TickedFrom(seqs[..|seqs| - 1], out)
    requires ProgressInvariant(last) && SameConfiguration(seqs[|seqs| - 1], last)
    ensures TickedFrom(seqs, out + [last])
  {
  }

  /**
   * When no sequence exports its count, the sequences do not interact: each
   * one ends up as if it had been ticked alone, and the files are untouched.
   */
  lemma {:induction false} TickAllIndependent(seqs: seq<MotionSequence>, positions: seq<SavedPosition>, gyro: Vec3,
                                              accel: Vec3, now: real, files: FileSystem, dispatch: string -> bool)
    requires forall i :: 0 <= i < |seqs| ==> ProgressInvariant(seqs[i])
    requires forall i :: 0 <= i < |seqs| ==> !seqs[i].exportRepsToFile
    ensures TickAll(seqs, positions, gyro, accel, now, files, dispatch).files == files
    ensures TickedAlone(seqs, TickAll(seqs, positions, gyro, accel, now, files, dispatch).sequences,
                        positions, gyro, accel, now, files, dispatch)
    decreases |seqs|
  {
    if |seqs| > 0 {
      var n := |seqs| - 1;
      var init := seqs[..n];
      TickAllIndependent(init, positions, gyro, accel, now, files, dispatch);
      var prev := TickAll(init, positions, gyro, accel, now, files, dispatch);
      CountOnlyGrows(seqs[n], positions, gyro, accel, now, files, dispatch);
      var t := StepSequence(seqs[n], positions, gyro, accel, now, prev.files, dispatch);
      assert TickAll(seqs, positions, gyro, accel, now, files, dispatch) == Ticks(prev.sequences + [t.sequence], t.files);
      TickedAloneSnoc(seqs, prev.sequences, t.sequence, positions, gyro, accel, now, files, dispatch);
    }
  }

  /** Every output sequence is its input sequence ticked on its own against `files`. */
  predicate TickedAlone(seqs: seq<MotionSequence>, out: seq<MotionSequence>, positions: seq<SavedPosition>,
                        gyro: Vec3, accel: Vec3, now: real, files: FileSystem, dispatch: string -> bool)
    requires forall i :: 0 <= i < |seqs| ==> ProgressInvariant(seqs[i])
  {
    |out| == |seqs|
    && forall i :: 0 <= i < |seqs| ==> out[i] == StepSequence(seqs[i], positions, gyro, accel, now, files, dispatch).sequence
  }

  lemma TickedAloneSnoc(seqs: seq<MotionSequence>, out: seq<MotionSequence>, last: MotionSequence,
                        positions: seq<SavedPosition>, gyro: Vec3, accel: Vec3, now: real, files: FileSystem,
                        dispatch: string -> bool)
    requires forall i :: 0 <= i < |seqs| ==> ProgressInvariant(seqs[i])
    requires |seqs| > 0 && TickedAlone(seqs[..|seqs| - 1], out, positions, gyro, accel, now, files, dispatch)
    requires last == StepSequence(seqs[|seqs| - 1], positions, gyro, accel, now, files, dispatch).sequence
    ensures TickedAlone(seqs, out + [last], positions, gyro, accel, now, files, dispatch)
  {
    forall i | 0 <= i < |seqs| - 1
      ensures (out + [last])[i] == StepSequence(seqs[i], positions, gyro, accel, now, files, dispatch).sequence
    {
      assert seqs[..|seqs| - 1][i] == seqs[i];
    }
  }

  /** The completion bookkeeping written as the source updates it, field by field; it agrees with `Complete`. */
  method CompleteSequence(s: MotionSequence, now: real, files: FileSystem, dispatch: string -> bool) returns (t: Tick)
    ensures t == Complete(s, now, files, dispatch)
  {
    var sq := s;
    var fs := files;
    if !sq.isCompletedThisFrame && CooldownOver(sq, now) {
      if sq.exportRepsToFile && Truthy(sq.exportFilePath) {
        var currentFileReps := ReadRepsFromFile(fs, sq.exportFilePath);
        sq := sq.(repetitionCount := currentFileReps + 1);
        fs := WriteRepsToFile(fs, sq.exportFilePath, currentFileReps + 1, false);
      } else {
        sq := sq.(repetitionCount := sq.repetitionCount + 1);
      }
      if Truthy(sq.actionBinding) {
        if dispatch(sq.actionBinding.value) {
          sq := sq.(lastActionTriggerTime := Some(now));
        }
      }
    }
    sq := sq.(currentPositionIndex := 0);
    sq := sq.(lastMatchTime := None);
    sq := sq.(isCompletedThisFrame := true);
    return Tick(sq, fs);
  }

  /**
   * One sequence's tick written as the loop body updates it, field by
   * field; it agrees with `StepSequence`.
   */
  method TickSequence(s: MotionSequence, positions: seq<SavedPosition>, gyro: Vec3, accel: Vec3,
                      now: real, files: FileSystem, dispatch: string -> bool) returns (t: Tick)
    requires ProgressInvariant(s)
    ensures t == StepSequence(s, positions, gyro, accel, now, files, dispatch)
  {
    if |s.steps| == 0 {
      return Tick(s.(isCompletedThisFrame := false), files);
    }
    var step := s.steps[s.currentPositionIndex];
    var target := IndexOfPosition(positions, step.positionId);
    var isSpatialMatch := target != -1 && Matches(positions[target], gyro, accel);
    t := TickLookedUp(s, target != -1, isSpatialMatch, now, files, dispatch);
  }

  /** The rest of the loop body once the expected position has been looked up and compared. */
  method TickLookedUp(s: MotionSequence, found: bool, isSpatialMatch: bool, now: real, files: FileSystem,
                      dispatch: string -> bool) returns (t: Tick)
    requires ProgressInvariant(s) && |s.steps| > 0 && (isSpatialMatch ==> found)
    ensures t == StepOn(s, found, isSpatialMatch, now, files, dispatch)
  {
    var sq := s.(isCompletedThisFrame := false);
    var fs := files;
    if !found {
      sq := sq.(currentPositionIndex := 0);
      sq := sq.(lastMatchTime := None);
      sq := sq.(nonMatchStartTime := None);
      return Tick(sq, fs);
    }
    if isSpatialMatch {
      t := TickMatched(s, now, files, dispatch);
      return;
    } else if sq.currentPositionIndex > 0 {
      if sq.nonMatchStartTime.None? {
        sq := sq.(nonMatchStartTime := Some(now));
      } else if now - sq.nonMatchStartTime.value > sq.resetGracePeriodMs as real {
        sq := sq.(currentPositionIndex := 0);
        sq := sq.(lastMatchTime := None);
        sq := sq.(nonMatchStartTime := None);
      }
    }
    return Tick(sq, fs);
  }

  /** The loop body when the expected position matches the reading. */
  method TickMatched(s: MotionSequence, now: real, files: FileSystem, dispatch: string -> bool) returns (t: Tick)
    requires ProgressInvariant(s) && |s.steps| > 0
    ensures t == StepOn(s, true, true, now, files, dispatch)
  {
    var sq := s.(isCompletedThisFrame := false);
    if sq.currentPositionIndex == 0 || now - sq.lastMatchTime.value <= sq.timeWindowMs as real {
      sq := sq.(lastMatchTime := Some(now));
      sq := sq.(nonMatchStartTime := None);
      sq := sq.(currentPositionIndex := sq.currentPositionIndex + 1);
      if sq.currentPositionIndex >= |sq.steps| {
        assert sq == s.(isCompletedThisFrame := false, lastMatchTime := Some(now), nonMatchStartTime := None,
                        currentPositionIndex := s.currentPositionIndex + 1);
        t := CompleteSequence(sq, now, files, dispatch);
        return;
      }
    } else {
      sq := sq.(currentPositionIndex := 0);
      sq := sq.(lastMatchTime := None);
      sq := sq.(nonMatchStartTime := None);
    }
    return Tick(sq, files);
  }

  /**
   * The body of the read loop once a smoothed reading is available: the
   * highlighted position becomes the first matching one (or -1), and every
   * motion sequence is ticked in list order.
   */
  method ProcessReading(app: App, gyro: Vec3, accel: Vec3, now: real, dispatch: string -> bool)
    requires app.Valid()
    modifies app`currentHighlightedLabelIndex, app`savedMotionSequences, app`files
    ensures app.Valid()
    ensures -1 <= app.currentHighlightedLabelIndex < |app.savedPositions|
    ensures app.currentHighlightedLabelIndex == -1 <==>
              forall i :: 0 <= i < |app.savedPositions| ==> !Matches(app.savedPositions[i], gyro, accel)
    ensures 0 <= app.currentHighlightedLabelIndex ==>
              Matches(app.savedPositions[app.currentHighlightedLabelIndex], gyro, accel)
              && forall i :: 0 <= i < app.currentHighlightedLabelIndex ==> !Matches(app.savedPositions[i], gyro, accel)
    ensures Ticks(app.savedMotionSequences, app.files)
            == TickAll(old(app.savedMotionSequences), app.savedPositions, gyro, accel, now, old(app.files), dispatch)
  {
    var matchedIndex := FindMatchingPositionIndex(app.savedPositions, gyro, accel);
    var ticked := TickEach(app.savedMotionSequences, app.savedPositions, gyro, accel, now, app.files, dispatch);
    if matchedIndex != app.currentHighlightedLabelIndex {
      app.currentHighlightedLabelIndex := matchedIndex;
    }
    app.savedMotionSequences := ticked.sequences;
    app.files := ticked.files;
  }

  /** The loop over the motion sequences, ticking each in list order against the files the previous ones left. */
  method TickEach(seqs: seq<MotionSequence>, positions: seq<SavedPosition>, gyro: Vec3, accel: Vec3,
                  now: real, files: FileSystem, dispatch: string -> bool) returns (r: Ticks)
    requires forall j :: 0 <= j < |seqs| ==> ProgressInvariant(seqs[j])
    ensures r == TickAll(seqs, positions, gyro, accel, now, files, dispatch)
  {
    var ticked: seq<MotionSequence> := [];
    var current := files;
    var i := 0;
    while i < |seqs|
      invariant 0 <= i <= |seqs|
      invariant Ticks(ticked, current) == TickAll(seqs[..i], positions, gyro, accel, now, files, dispatch)
    {
      TickAllSnoc(seqs, i, positions, gyro, accel, now, files, dispatch);
      var t := TickSequence(seqs[i], positions, gyro, accel, now, current, dispatch);
      ticked := ticked + [t.sequence];
      current := t.files;
      i := i + 1;
    }
    assert seqs[..i] == seqs;
    r := Ticks(ticked, current);
  }

  /** Ticking one more sequence extends the fold by that sequence's tick. */
  lemma TickAllSnoc(seqs: seq<MotionSequence>, i: nat, positions: seq<SavedPosition>, gyro: Vec3, accel: Vec3,
                    now: real, files: FileSystem, dispatch: string -> bool)
    requires i < |seqs|
    requires forall j :: 0 <= j < |seqs| ==> ProgressInvariant(seqs[j])
    ensures var prev := TickAll(seqs[..i], positions, gyro, accel, now, files, dispatch);
            var t := StepSequence(seqs[i], positions, gyro, accel, now, prev.files, dispatch);
            TickAll(seqs[..i + 1], positions, gyro, accel, now, files, dispatch)
            == Ticks(prev.sequences + [t.sequence], t.files)
  {
    assert seqs[..i + 1][..i] == seqs[..i];
  }

  // ---------------------------------------------------------------------
  // Reconnect and recording

  /** After a successful reconnect every sequence starts over, with both timers cleared. */
  method ResetProgressOnReconnect(app: App)
    requires app.Valid()
    modifies app`savedMotionSequences
    ensures app.Valid()
    ensures |app.savedMotionSequences| == |old(app.savedMotionSequences)|
    ensures forall i :: 0 <= i < |app.savedMotionSequences| ==>
              app.savedMotionSequences[i] == Reset(old(app.savedMotionSequences[i]))
    ensures app.savedPositions == old(app.savedPositions) && app.files == old(app.files)
    ensures app.selectedPositionIndex == old(app.selectedPositionIndex)
    ensures app.selectedMotionSequenceIndex == old(app.selectedMotionSequenceIndex)
    ensures app.currentHighlightedLabelIndex == old(app.currentHighlightedLabelIndex)
  {
    var i := 0;
    while i < |app.savedMotionSequences|
      invariant 0 <= i <= |app.savedMotionSequences| == |old(app.savedMotionSequences)|
      invariant forall j :: 0 <= j < i ==> app.savedMotionSequences[j] == Reset(old(app.savedMotionSequences[j]))
      invariant forall j :: i <= j < |app.savedMotionSequences| ==> app.savedMotionSequences[j] == old(app.savedMotionSequences[j])
    {
      var s := app.savedMotionSequences[i];
      s := s.(currentPositionIndex := 0, lastMatchTime := None, nonMatchStartTime := None);
      app.savedMotionSequences := app.savedMotionSequences[i := s];
      i := i + 1;
    }
  }

  /**
   * `_finalize_recording`: a non-empty recording becomes a new position
   * named after its place in the list, with the default padding, all six
   * axes and no overrides, appended at the end; the highlight and the
   * position selection are cleared. An empty recording changes nothing.
   */
  method FinalizeRecording(app: App, recordedData: seq<Sample>, freshId: string)
    requires app.Valid()
    modifies app`savedPositions, app`currentHighlightedLabelIndex, app`selectedPositionIndex
    ensures app.Valid()
    ensures |recordedData| == 0 ==>
              app.savedPositions == old(app.savedPositions)
              && app.currentHighlightedLabelIndex == old(app.currentHighlightedLabelIndex)
              && app.selectedPositionIndex == old(app.selectedPositionIndex)
    ensures |recordedData| > 0 ==>
              app.savedPositions == old(app.savedPositions)
                + [NewSavedPosition(recordedData, "Position " + NatToString(|old(app.savedPositions)| + 1),
                                    old(app.initialRangePadding), Some(AllAxes), None, freshId, None, None)]
              && app.currentHighlightedLabelIndex == -1 && app.selectedPositionIndex == -1
    ensures app.savedMotionSequences == old(app.savedMotionSequences) && app.files == old(app.files)
    ensures app.selectedMotionSequenceIndex == old(app.selectedMotionSequenceIndex)
  {
    if |recordedData| > 0 {
      var positionName := "Position " + NatToString(|app.savedPositions| + 1);
      var newSavedPos := NewSavedPosition(recordedData, positionName, app.initialRangePadding,
                                          Some(AllAxes), None, freshId, None, None);
      app.savedPositions := app.savedPositions + [newSavedPos];
      app.currentHighlightedLabelIndex := -1;
      app.selectedPositionIndex := -1;
    }
  }
}
