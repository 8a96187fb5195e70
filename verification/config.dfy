/**
 * Saving and loading the configuration: positions and motion sequences are
 * written as key/value records and read back, older files that list a
 * sequence's positions by id instead of as steps are still accepted, a
 * sequence that exports its count takes the count from its file, and an
 * import replaces the current positions and sequences instead of merging.
 *
 * A record field is `None` when the key is absent; for the keys read with a
 * default it is also `None` when the stored value is null.
 */
module Config {
  import opened Common
  import opened Models
  import opened RepFile
  import opened SequenceTick
  import opened AppState

  datatype PositionRecord = PositionRecord(
    id: Option<string>,
    name: Option<string>,
    recordedPoints: Option<seq<Sample>>,
    paddingFactor: Option<real>,
    detectionAxes: Option<DetectionAxes>,
    customAvgGyro: Option<Vec3>,
    customAvgAccel: Option<Vec3>)

  datatype StepRecord = StepRecord(
    positionId: Option<string>,
    gyroDirections: Option<GyroDirections>,
    accelDirections: Option<AccelDirections>)

  /** `positions` is the key of the older format: the sequence's position ids in order. */
  datatype SequenceRecord = SequenceRecord(
    name: Option<string>,
    steps: Option<seq<StepRecord>>,
    positions: Option<seq<string>>,
    timeWindowMs: Option<int>,
    repetitionCount: Option<int>,
    resetGracePeriodMs: Option<int>,
    actionBinding: Option<string>,
    lastActionTriggerTime: Option<real>,
    exportRepsToFile: Option<bool>,
    exportFilePath: Option<string>)

  datatype ConfigRecord = ConfigRecord(positions: Option<seq<PositionRecord>>, sequences: Option<seq<SequenceRecord>>)

  /** What a loop that stops at the first failure has produced: the items so far and the failure, if any. */
  datatype Partial<T> = Partial(items: seq<T>, error: Option<string>)

  function OrEmpty<T>(o: Option<seq<T>>): seq<T>
  {
    if o.Some? then o.value else []
  }

  function OrDefault<T>(o: Option<T>, default: T): T
  {
    if o.Some? then o.value else default
  }

  // ---------------------------------------------------------------------
  // Positions

  /** `_serialize_position`: every key is written; absent overrides are written as null. */
  function SerializePosition(p: SavedPosition): PositionRecord
  {
    PositionRecord(Some(p.id), Some(p.name), Some(p.recordedPoints), Some(p.paddingFactor),
                   Some(p.detectionAxes), p.customAvgGyro, p.customAvgAccel)
  }

  /**
   * `_deserialize_position`: a missing id, name, recording, padding or axes
   * key is an error naming the key; otherwise the position is rebuilt from
   * its recording with the stored id and overrides.
   */
  function DeserializePosition(d: PositionRecord): (r: Result<SavedPosition>)
    ensures r.Ok? <==> d.id.Some? && d.name.Some? && d.recordedPoints.Some? && d.paddingFactor.Some?
                       && d.detectionAxes.Some?
    ensures r.Ok? ==> Summarises(r.value) && r.value.id == d.id.value && r.value.name == d.name.value
    ensures r.Ok? ==> r.value.recordedPoints == d.recordedPoints.value && r.value.paddingFactor == d.paddingFactor.value
    ensures r.Ok? ==> r.value.detectionAxes == d.detectionAxes.value
    ensures r.Ok? ==> r.value.customAvgGyro == d.customAvgGyro && r.value.customAvgAccel == d.customAvgAccel
  {
    if d.recordedPoints.None? then Err("recorded_points")
    else if d.name.None? then Err("name")
    else if d.paddingFactor.None? then Err("padding_factor")
    else if d.detectionAxes.None? then Err("detection_axes")
    else if d.id.None? then Err("id")
    else Ok(NewSavedPosition(d.recordedPoints.value, d.name.value, d.paddingFactor.value, d.detectionAxes,
                             d.id, d.id.value, d.customAvgGyro, d.customAvgAccel))
  }

  /**
   * A saved position survives a save and a load: every stored field comes
   * back, overrides included when absent, and a position whose summary is
   * the one its recording determines comes back identical.
   */
  lemma PositionRoundTrip(p: SavedPosition)
    ensures var r := DeserializePosition(SerializePosition(p));
            r.Ok? && r.value.id == p.id && r.value.name == p.name && r.value.recordedPoints == p.recordedPoints
            && r.value.paddingFactor == p.paddingFactor && r.value.detectionAxes == p.detectionAxes
            && r.value.customAvgGyro == p.customAvgGyro && r.value.customAvgAccel == p.customAvgAccel
    ensures Summarises(p) ==> DeserializePosition(SerializePosition(p)) == Ok(p)
  {
    var q := DeserializePosition(SerializePosition(p)).value;
    if Summarises(p) {
      SummaryDetermined(p, q);
    }
  }

  // ---------------------------------------------------------------------
  // Steps

  function SerializeStep(s: MotionSequenceStep): StepRecord
  {
    StepRecord(Some(s.positionId), Some(s.gyroDirections), Some(s.accelDirections))
  }

  function SerializeSteps(steps: seq<MotionSequenceStep>): (r: seq<StepRecord>)
    ensures |r| == |steps|
    ensures forall i :: 0 <= i < |steps| ==> r[i] == SerializeStep(steps[i])
  {
    seq(|steps|, i requires 0 <= i < |steps| => SerializeStep(steps[i]))
  }

  /** One step of the current format: the position id is required, missing directions mean "any". */
  function DeserializeStep(d: StepRecord): (r: Result<MotionSequenceStep>)
    ensures r.Ok? <==> d.positionId.Some?
  {
    if d.positionId.None? then Err("position_id")
    else Ok(NewStep(d.positionId.value, d.gyroDirections, d.accelDirections))
  }

  /** The step loop of `_deserialize_motion_sequence`, stopping at the first step without a position id. */
  function DecodedSteps(ds: seq<StepRecord>): Partial<MotionSequenceStep>
  {
    if |ds| == 0 then Partial([], None)
    else
      var prev := DecodedSteps(ds[..|ds| - 1]);
      if prev.error.Some? then prev
      else match DeserializeStep(ds[|ds| - 1])
        case Err(e) => Partial(prev.items, Some(e))
        case Ok(s) => Partial(prev.items + [s], None)
  }

  lemma {:induction false} StepErrorPersists(ds: seq<StepRecord>, n: nat)
    requires 0 < n <= |ds|
    requires DecodedSteps(ds[..n]).error.Some?
    ensures DecodedSteps(ds) == DecodedSteps(ds[..n])
    decreases |ds|
  {
    if n == |ds| {
      assert ds[..n] == ds;
    } else {
      assert ds[..|ds| - 1][..n] == ds[..n];
      StepErrorPersists(ds[..|ds| - 1], n);
    }
  }

  /** Saved steps load back as the same steps, in the same order. */
  lemma {:induction false} StepsRoundTrip(steps: seq<MotionSequenceStep>)
    ensures DecodedSteps(SerializeSteps(steps)) == Partial(steps, None)
    decreases |steps|
  {
    if |steps| > 0 {
      var n := |steps| - 1;
      assert SerializeSteps(steps)[..n] == SerializeSteps(steps[..n]);
      StepsRoundTrip(steps[..n]);
      assert steps[..n] + [steps[n]] == steps;
    }
  }

  // ---------------------------------------------------------------------
  // The older format

  /** The legacy branch: one all-"any" step for each listed id that names a loaded position, in list order. */
  function LegacySteps(ids: seq<string>, positionMap: map<string, SavedPosition>): seq<MotionSequenceStep>
  {
    if |ids| == 0 then []
    else
      var pid := ids[|ids| - 1];
      LegacySteps(ids[..|ids| - 1], positionMap)
      + (if pid in positionMap then [NewStep(positionMap[pid].id, None, None)] else [])
  }

  /** The listed ids that name a loaded position, in list order. */
  function KnownIds(ids: seq<string>, positionMap: map<string, SavedPosition>): (r: seq<string>)
    ensures |r| <= |ids|
    ensures forall k :: 0 <= k < |r| ==> r[k] in positionMap && r[k] in ids
    ensures (forall k :: 0 <= k < |ids| ==> ids[k] in positionMap) ==> r == ids
    ensures (forall k :: 0 <= k < |ids| ==> ids[k] !in positionMap) ==> r == []
  {
    if |ids| == 0 then []
    else (if ids[0] in positionMap then [ids[0]] else []) + KnownIds(ids[1..], positionMap)
  }

  lemma {:induction false} KnownIdsSnoc(ids: seq<string>, pid: string, positionMap: map<string, SavedPosition>)
    ensures KnownIds(ids + [pid], positionMap) == KnownIds(ids, positionMap) + (if pid in positionMap then [pid] else [])
    decreases |ids|
  {
    if |ids| > 0 {
      assert (ids + [pid])[1..] == ids[1..] + [pid];
      KnownIdsSnoc(ids[1..], pid, positionMap);
    } else {
      assert ids + [pid] == [pid];
    }
  }

  /**
   * When every position is filed under its own id, the legacy branch makes
   * exactly one all-"any" step per known id, in list order, and skips the
   * unknown ones.
   */
  lemma {:induction false} LegacyStepsFollowKnownIds(ids: seq<string>, positionMap: map<string, SavedPosition>)
    requires forall pid :: pid in positionMap ==> positionMap[pid].id == pid
    ensures AnyStepsFor(LegacySteps(ids, positionMap), KnownIds(ids, positionMap))
    decreases |ids|
  {
    if |ids| > 0 {
      var n := |ids| - 1;
      var pid := ids[n];
      LegacyStepsFollowKnownIds(ids[..n], positionMap);
      KnownIdsSnoc(ids[..n], pid, positionMap);
      assert ids[..n] + [pid] == ids;
      if pid in positionMap {
        AnyStepsForSnoc(LegacySteps(ids[..n], positionMap), KnownIds(ids[..n], positionMap), pid);
      } else {
        assert KnownIds(ids, positionMap) == KnownIds(ids[..n], positionMap) + [];
        assert LegacySteps(ids, positionMap) == LegacySteps(ids[..n], positionMap) + [];
      }
    }
  }

  /** One all-"any" step per id, in order. */
  predicate AnyStepsFor(steps: seq<MotionSequenceStep>, ids: seq<string>)
  {
    |steps| == |ids| && forall k :: 0 <= k < |ids| ==> steps[k] == MotionSequenceStep(ids[k], AnyGyro, AnyAccel)
  }

  lemma AnyStepsForSnoc(steps: seq<MotionSequenceStep>, ids: seq<string>, pid: string)
    requires AnyStepsFor(steps, ids)
    ensures AnyStepsFor(steps + [NewStep(pid, None, None)], ids + [pid])
  {
  }

  // ---------------------------------------------------------------------
  // Sequences

  /** `_serialize_motion_sequence`: the configuration, the count and the last trigger time, with the steps in order. */
  function SerializeSequence(s: MotionSequence): SequenceRecord
  {
    SequenceRecord(Some(s.name), Some(SerializeSteps(s.steps)), None, Some(s.timeWindowMs),
                   Some(s.repetitionCount), Some(s.resetGracePeriodMs), s.actionBinding,
                   s.lastActionTriggerTime, Some(s.exportRepsToFile), s.exportFilePath)
  }

  /**
   * `_deserialize_motion_sequence`: steps from the `steps` key, else from
   * the older `positions` key, else none; the name and the time window are
   * required; the count, grace period, binding, export flag and path take
   * their defaults when absent; the stored trigger time is dropped; and a
   * sequence that exports to a path takes its count from that file.
   */
  function DecodedSequence(d: SequenceRecord, positionMap: map<string, SavedPosition>, files: FileSystem): (r: Result<MotionSequence>)
    ensures r.Ok? <==> d.name.Some? && d.timeWindowMs.Some?
                       && (d.steps.Some? ==> DecodedSteps(d.steps.value).error.None?)
    ensures r.Ok? ==> r.value.currentPositionIndex == 0 && r.value.lastMatchTime.None?
                      && r.value.nonMatchStartTime.None? && r.value.lastActionTriggerTime.None?
                      && !r.value.isCompletedThisFrame
  {
    var steps :=
      if d.steps.Some? then DecodedSteps(d.steps.value)
      else if d.positions.Some? then Partial(LegacySteps(d.positions.value, positionMap), None)
      else Partial([], None);
    if steps.error.Some? then Err(steps.error.value)
    else if d.name.None? then Err("name")
    else if d.timeWindowMs.None? then Err("time_window_ms")
    else
      var s := NewMotionSequence(d.name.value, steps.items, d.timeWindowMs.value, OrDefault(d.repetitionCount, 0),
                                 OrDefault(d.resetGracePeriodMs, 0), d.actionBinding, d.lastActionTriggerTime,
                                 OrDefault(d.exportRepsToFile, false), d.exportFilePath);
      if s.exportRepsToFile && Truthy(s.exportFilePath) then
        Ok(s.(repetitionCount := ReadRepsFromFile(files, s.exportFilePath)))
      else Ok(s)
  }

  /**
   * `_deserialize_motion_sequence` as the loops it runs: the step records
   * (or the legacy ids) are turned into steps one at a time, then the
   * sequence is built and its count possibly replaced from its file.
   */
  method DeserializeSequence(d: SequenceRecord, positionMap: map<string, SavedPosition>, files: FileSystem)
    returns (r: Result<MotionSequence>)
    ensures r == DecodedSequence(d, positionMap, files)
  {
    var steps: seq<MotionSequenceStep> := [];
    if d.steps.Some? {
      var records := d.steps.value;
      var i := 0;
      while i < |records|
        invariant 0 <= i <= |records|
        invariant DecodedSteps(records[..i]) == Partial(steps, None)
      {
        assert records[..i + 1][..i] == records[..i];
        var step := DeserializeStep(records[i]);
        if step.Err? {
          StepErrorPersists(records, i + 1);
          return Err(step.error);
        }
        steps := steps + [step.value];
        i := i + 1;
      }
      assert records[..i] == records;
    } else if d.positions.Some? {
      var ids := d.positions.value;
      for i := 0 to |ids|
        invariant steps == LegacySteps(ids[..i], positionMap)
      {
        assert ids[..i + 1][..i] == ids[..i];
        if ids[i] in positionMap {
          steps := steps + [NewStep(positionMap[ids[i]].id, None, None)];
        }
      }
      assert ids[..|ids|] == ids;
    }
    if d.name.None? {
      return Err("name");
    }
    if d.timeWindowMs.None? {
      return Err("time_window_ms");
    }
    var s := NewMotionSequence(d.name.value, steps, d.timeWindowMs.value, OrDefault(d.repetitionCount, 0),
                               OrDefault(d.resetGracePeriodMs, 0), d.actionBinding, d.lastActionTriggerTime,
                               OrDefault(d.exportRepsToFile, false), d.exportFilePath);
    if s.exportRepsToFile && Truthy(s.exportFilePath) {
      s := s.(repetitionCount := ReadRepsFromFile(files, s.exportFilePath));
    }
    return Ok(s);
  }

  /**
   * A motion sequence survives a save and a load with its configuration
   * (name, steps in order with their directions, windows, binding, export
   * settings); its progress starts over, the trigger time is not restored,
   * and an exporting sequence's count is the one in its file rather than
   * the saved one.
   */
  lemma SequenceRoundTrip(s: MotionSequence, positionMap: map<string, SavedPosition>, files: FileSystem)
    ensures var r := DecodedSequence(SerializeSequence(s), positionMap, files);
            r.Ok? && SameConfiguration(s, r.value)
            && r.value.currentPositionIndex == 0 && r.value.lastMatchTime.None? && r.value.nonMatchStartTime.None?
            && r.value.lastActionTriggerTime.None? && !r.value.isCompletedThisFrame
            && r.value.repetitionCount == (if s.exportRepsToFile && Truthy(s.exportFilePath)
                                           then ReadRepsFromFile(files, s.exportFilePath) else s.repetitionCount)
  {
    StepsRoundTrip(s.steps);
  }

  /**
   * A record of the current format with only a name, a time window and
   * steps gets no count, no grace period, no binding and no export; a step
   * without directions is "any" on every axis.
   */
  lemma MissingKeysTakeDefaults(name: string, timeWindowMs: int, positionId: string,
                                positionMap: map<string, SavedPosition>, files: FileSystem)
    ensures var d := SequenceRecord(Some(name), Some([StepRecord(Some(positionId), None, None)]), None,
                                    Some(timeWindowMs), None, None, None, None, None, None);
            var r := DecodedSequence(d, positionMap, files);
            r.Ok? && r.value.repetitionCount == 0 && r.value.resetGracePeriodMs == 0
            && r.value.actionBinding.None? && !r.value.exportRepsToFile && r.value.exportFilePath.None?
            && r.value.steps == [MotionSequenceStep(positionId, AnyGyro, AnyAccel)]
  {
    var ds := [StepRecord(Some(positionId), None, None)];
    assert ds[..|ds| - 1] == [];
    assert DecodedSteps(ds) == Partial([MotionSequenceStep(positionId, AnyGyro, AnyAccel)], None);
  }

  /** With the older key, ids that name no loaded position are skipped and the others kept in order. */
  lemma LegacyFormatSkipsUnknownIds(d: SequenceRecord, positionMap: map<string, SavedPosition>, files: FileSystem)
    requires d.steps.None? && d.positions.Some? && d.name.Some? && d.timeWindowMs.Some?
    requires forall pid :: pid in positionMap ==> positionMap[pid].id == pid
    ensures var r := DecodedSequence(d, positionMap, files);
            r.Ok? && |r.value.steps| == |KnownIds(d.positions.value, positionMap)|
            && forall k :: 0 <= k < |r.value.steps| ==>
                 r.value.steps[k] == MotionSequenceStep(KnownIds(d.positions.value, positionMap)[k], AnyGyro, AnyAccel)
  {
    LegacyStepsFollowKnownIds(d.positions.value, positionMap);
  }

  // ---------------------------------------------------------------------
  // Export and import

  /** `export_config`: every position and every sequence, in display order. */
  function Export(positions: seq<SavedPosition>, sequences: seq<MotionSequence>): ConfigRecord
  {
    ConfigRecord(Some(seq(|positions|, i requires 0 <= i < |positions| => SerializePosition(positions[i]))),
                 Some(seq(|sequences|, i requires 0 <= i < |sequences| => SerializeSequence(sequences[i]))))
  }

  /** The position loop of `import_config`, stopping at the first record that fails to load. */
  function DecodedPositions(ds: seq<PositionRecord>): (r: Partial<SavedPosition>)
    ensures forall k :: 0 <= k < |r.items| ==> Summarises(r.items[k])
  {
    if |ds| == 0 then Partial([], None)
    else
      var prev := DecodedPositions(ds[..|ds| - 1]);
      if prev.error.Some? then prev
      else match DeserializePosition(ds[|ds| - 1])
        case Err(e) => Partial(prev.items, Some(e))
        case Ok(p) => Partial(prev.items + [p], None)
  }

  lemma {:induction false} PositionErrorPersists(ds: seq<PositionRecord>, n: nat)
    requires 0 < n <= |ds|
    requires DecodedPositions(ds[..n]).error.Some?
    ensures DecodedPositions(ds) == DecodedPositions(ds[..n])
    decreases |ds|
  {
    if n == |ds| {
      assert ds[..n] == ds;
    } else {
      assert ds[..|ds| - 1][..n] == ds[..n];
      PositionErrorPersists(ds[..|ds| - 1], n);
    }
  }

  /** The id map `import_config` builds as it loads: a later position with the same id replaces an earlier one. */
  function PositionMapOf(positions: seq<SavedPosition>): (m: map<string, SavedPosition>)
    ensures forall pid :: pid in m ==> m[pid].id == pid
    ensures forall k :: 0 <= k < |positions| ==> positions[k].id in m
  {
    if |positions| == 0 then map[]
    else
      var p := positions[|positions| - 1];
      PositionMapOf(positions[..|positions| - 1])[p.id := p]
  }

  /** The sequence loop of `import_config`, stopping at the first record that fails to load. */
  function DecodedSequences(ds: seq<SequenceRecord>, positionMap: map<string, SavedPosition>, files: FileSystem)
    : (r: Partial<MotionSequence>)
    ensures forall k :: 0 <= k < |r.items| ==> ProgressInvariant(r.items[k])
  {
    if |ds| == 0 then Partial([], None)
    else
      var prev := DecodedSequences(ds[..|ds| - 1], positionMap, files);
      if prev.error.Some? then prev
      else match DecodedSequence(ds[|ds| - 1], positionMap, files)
        case Err(e) => Partial(prev.items, Some(e))
        case Ok(s) => Partial(prev.items + [s], None)
  }

  lemma {:induction false} SequenceErrorPersists(ds: seq<SequenceRecord>, n: nat, positionMap: map<string, SavedPosition>,
                                                 files: FileSystem)
    requires 0 < n <= |ds|
    requires DecodedSequences(ds[..n], positionMap, files).error.Some?
    ensures DecodedSequences(ds, positionMap, files) == DecodedSequences(ds[..n], positionMap, files)
    decreases |ds|
  {
    if n == |ds| {
      assert ds[..n] == ds;
    } else {
      assert ds[..|ds| - 1][..n] == ds[..n];
      SequenceErrorPersists(ds[..|ds| - 1], n, positionMap, files);
    }
  }

  /** The lists an import leaves behind, and the error that stopped it, if any. */
  datatype Imported = Imported(positions: seq<SavedPosition>, sequences: seq<MotionSequence>, error: Option<string>)

  /**
   * The outcome of `import_config` on a parsed file: positions load first,
   * then sequences against the loaded positions' ids; a failure stops the
   * import with what was loaded before it.
   */
  function Import(c: ConfigRecord, files: FileSystem): (r: Imported)
    ensures forall k :: 0 <= k < |r.sequences| ==> ProgressInvariant(r.sequences[k])
    ensures forall k :: 0 <= k < |r.positions| ==> Summarises(r.positions[k])
  {
    var ps := DecodedPositions(OrEmpty(c.positions));
    if ps.error.Some? then Imported(ps.items, [], ps.error)
    else
      var ss := DecodedSequences(OrEmpty(c.sequences), PositionMapOf(ps.items), files);
      Imported(ps.items, ss.items, ss.error)
  }

  /**
   * The position loop of `import_config`: loads the records one at a time,
   * filing each loaded position under its id, until one fails.
   */
  method LoadPositions(records: seq<PositionRecord>)
    returns (positions: seq<SavedPosition>, positionMap: map<string, SavedPosition>, error: Option<string>)
    ensures Partial(positions, error) == DecodedPositions(records)
    ensures positionMap == PositionMapOf(positions)
  {
    positions, positionMap, error := [], map[], None;
    var i := 0;
    while i < |records|
      invariant 0 <= i <= |records|
      invariant DecodedPositions(records[..i]) == Partial(positions, None)
      invariant positionMap == PositionMapOf(positions)
    {
      assert records[..i + 1][..i] == records[..i];
      var p := DeserializePosition(records[i]);
      if p.Err? {
        PositionErrorPersists(records, i + 1);
        error := Some(p.error);
        return;
      }
      assert (positions + [p.value])[..|positions|] == positions;
      positions := positions + [p.value];
      positionMap := positionMap[p.value.id := p.value];
      i := i + 1;
    }
    assert records[..i] == records;
  }

  /** The sequence loop of `import_config`: loads the records one at a time until one fails. */
  method LoadSequences(records: seq<SequenceRecord>, positionMap: map<string, SavedPosition>, files: FileSystem)
    returns (sequences: seq<MotionSequence>, error: Option<string>)
    ensures Partial(sequences, error) == DecodedSequences(records, positionMap, files)
  {
    sequences, error := [], None;
    var j := 0;
    while j < |records|
      invariant 0 <= j <= |records|
      invariant DecodedSequences(records[..j], positionMap, files) == Partial(sequences, None)
    {
      assert records[..j + 1][..j] == records[..j];
      var s := DeserializeSequence(records[j], positionMap, files);
      if s.Err? {
        SequenceErrorPersists(records, j + 1, positionMap, files);
        error := Some(s.error);
        return;
      }
      sequences := sequences + [s.value];
      j := j + 1;
    }
    assert records[..j] == records;
  }

  /**
   * `import_config` on a file that was read and parsed (`loaded`), or that
   * failed to (`Err`): a failure to read leaves everything as it was;
   * otherwise both lists are emptied and refilled from the file, and a
   * record that fails to load leaves what was loaded before it.
   */
  method ImportConfig(app: App, loaded: Result<ConfigRecord>)
    requires app.Valid()
    modifies app
    ensures app.Valid()
    ensures loaded.Err? ==> app.savedPositions == old(app.savedPositions)
                            && app.savedMotionSequences == old(app.savedMotionSequences)
    ensures loaded.Ok? ==> app.savedPositions == Import(loaded.value, app.files).positions
                           && app.savedMotionSequences == Import(loaded.value, app.files).sequences
    ensures app.selectedPositionIndex == old(app.selectedPositionIndex)
    ensures app.selectedMotionSequenceIndex == old(app.selectedMotionSequenceIndex)
    ensures app.currentHighlightedLabelIndex == old(app.currentHighlightedLabelIndex)
    ensures app.initialRangePadding == old(app.initialRangePadding) && app.files == old(app.files)
  {
    if loaded.Err? {
      return;
    }
    var c := loaded.value;
    app.savedPositions := [];
    app.savedMotionSequences := [];
    var positions, positionMap, error := LoadPositions(OrEmpty(c.positions));
    app.savedPositions := positions;
    if error.Some? {
      return;
    }
    var sequences, _ := LoadSequences(OrEmpty(c.sequences), positionMap, app.files);
    app.savedMotionSequences := sequences;
  }

  lemma {:induction false} PositionsRoundTrip(positions: seq<SavedPosition>)
    requires forall k :: 0 <= k < |positions| ==> Summarises(positions[k])
    ensures DecodedPositions(OrEmpty(Export(positions, []).positions)) == Partial(positions, None)
    decreases |positions|
  {
    var ds := OrEmpty(Export(positions, []).positions);
    if |positions| > 0 {
      var n := |positions| - 1;
      assert ds[..n] == OrEmpty(Export(positions[..n], []).positions);
      PositionsRoundTrip(positions[..n]);
      PositionRoundTrip(positions[n]);
      assert positions[..n] + [positions[n]] == positions;
    }
  }

  lemma {:induction false} SequencesRoundTrip(sequences: seq<MotionSequence>, positionMap: map<string, SavedPosition>,
                                              files: FileSystem)
    ensures var r := DecodedSequences(OrEmpty(Export([], sequences).sequences), positionMap, files);
            r.error.None? && |r.items| == |sequences|
            && forall k :: 0 <= k < |sequences| ==>
                 DecodedSequence(SerializeSequence(sequences[k]), positionMap, files) == Ok(r.items[k])
    decreases |sequences|
  {
    var ds := OrEmpty(Export([], sequences).sequences);
    if |sequences| > 0 {
      var n := |sequences| - 1;
      assert ds[..n] == OrEmpty(Export([], sequences[..n]).sequences);
      SequencesRoundTrip(sequences[..n], positionMap, files);
      var prev := DecodedSequences(ds[..n], positionMap, files);
      SequenceRoundTrip(sequences[n], positionMap, files);
      var last := DecodedSequence(ds[n], positionMap, files);
      assert ds[n] == SerializeSequence(sequences[n]);
      var r := DecodedSequences(ds, positionMap, files);
      assert r == Partial(prev.items + [last.value], None);
      forall k | 0 <= k < |sequences|
        ensures DecodedSequence(SerializeSequence(sequences[k]), positionMap, files) == Ok(r.items[k])
      {
        if k < n {
          assert sequences[..n][k] == sequences[k];
          assert r.items[k] == prev.items[k];
        }
      }
    }
  }

  /**
   * Exporting and importing again gives back the same positions, in order,
   * and the same sequences in order, each with its configuration kept, its
   * progress restarted and its count re-read from its file when it exports.
   */
  lemma ExportThenImport(positions: seq<SavedPosition>, sequences: seq<MotionSequence>, files: FileSystem)
    requires forall k :: 0 <= k < |positions| ==> Summarises(positions[k])
    ensures var r := Import(Export(positions, sequences), files);
            r.error.None? && r.positions == positions && |r.sequences| == |sequences|
            && forall k :: 0 <= k < |sequences| ==>
                 SameConfiguration(sequences[k], r.sequences[k]) && r.sequences[k].currentPositionIndex == 0
                 && r.sequences[k].lastMatchTime.None? && r.sequences[k].lastActionTriggerTime.None?
                 && r.sequences[k].repetitionCount
                    == (if sequences[k].exportRepsToFile && Truthy(sequences[k].exportFilePath)
                        then ReadRepsFromFile(files, sequences[k].exportFilePath) else sequences[k].repetitionCount)
  {
    var c := Export(positions, sequences);
    assert OrEmpty(c.positions) == OrEmpty(Export(positions, []).positions);
    assert OrEmpty(c.sequences) == OrEmpty(Export([], sequences).sequences);
    PositionsRoundTrip(positions);
    SequencesRoundTrip(sequences, PositionMapOf(positions), files);
    forall k | 0 <= k < |sequences| {
      SequenceRoundTrip(sequences[k], PositionMapOf(positions), files);
    }
  }
}
