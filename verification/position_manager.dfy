/**
 * The edits the position editor makes to the saved positions: selecting a
 * position, deleting it (and every step that refers to it), changing its
 * padding, name, checked axes and centre overrides, and combining several
 * positions into a new one.
 */
module PositionManager {
  import opened Common
  import opened Models
  import opened Text
  import opened SequenceTick
  import opened AppState

  /**
   * `select_position_for_editing`: selecting the selected position again
   * clears the selection, any other index becomes the selection.
   */
  method SelectPositionForEditing(app: App, index: nat)
    requires app.Valid()
    modifies app`selectedPositionIndex
    ensures app.Valid()
    ensures old(app.selectedPositionIndex) == index ==> app.selectedPositionIndex == -1
    ensures old(app.selectedPositionIndex) != index ==> app.selectedPositionIndex == index
    ensures app.savedPositions == old(app.savedPositions)
    ensures app.savedMotionSequences == old(app.savedMotionSequences)
    ensures app.selectedMotionSequenceIndex == old(app.selectedMotionSequenceIndex)
  {
    if app.selectedPositionIndex == index {
      app.selectedPositionIndex := -1;
    } else {
      app.selectedPositionIndex := index;
    }
  }

  /** Whether the editor's selection names an existing position (the guard of every edit). */
  predicate SelectionInRange(selected: int, positions: seq<SavedPosition>)
  {
    selected != -1 && selected < |positions|
  }

  // ---------------------------------------------------------------------
  // Deleting a position

  /** The steps that do not refer to the deleted position, in their order. */
  function RemoveSteps(steps: seq<MotionSequenceStep>, id: string): (r: seq<MotionSequenceStep>)
    ensures |r| <= |steps|
    ensures forall st :: st in r <==> st in steps && st.positionId != id
    ensures (forall k :: 0 <= k < |steps| ==> steps[k].positionId != id) ==> r == steps
  {
    if |steps| == 0 then []
    else (if steps[0].positionId != id then [steps[0]] else []) + RemoveSteps(steps[1..], id)
  }

  /** Removing steps keeps the order of what is left: it distributes over concatenation. */
  lemma {:induction false} RemoveStepsAppend(a: seq<MotionSequenceStep>, b: seq<MotionSequenceStep>, id: string)
    ensures RemoveSteps(a + b, id) == RemoveSteps(a, id) + RemoveSteps(b, id)
    decreases |a|
  {
    if |a| == 0 {
      assert a + b == b;
    } else {
      assert (a + b)[1..] == a[1..] + b;
      RemoveStepsAppend(a[1..], b, id);
    }
  }

  /**
   * What deleting position `id` does to one sequence: its steps on that
   * position go, and its progress restarts if the index no longer points
   * at a step.
   */
  function WithoutPosition(s: MotionSequence, id: string): MotionSequence
  {
    var steps := RemoveSteps(s.steps, id);
    if s.currentPositionIndex >= |steps| then s.(steps := steps, currentPositionIndex := 0, lastMatchTime := None)
    else s.(steps := steps)
  }

  /**
   * After the deletion no step refers to the position; a sequence whose
   * index ran past its remaining steps is back at its start with no match
   * time, any other keeps its progress; the rest of the sequence is as it
   * was, and the progress invariant still holds.
   */
  lemma DeletionKeepsProgress(s: MotionSequence, id: string)
    requires ProgressInvariant(s)
    ensures var t := WithoutPosition(s, id);
            ProgressInvariant(t)
            && (forall k :: 0 <= k < |t.steps| ==> t.steps[k].positionId != id)
            && (s.currentPositionIndex >= |t.steps| ==> t.currentPositionIndex == 0 && t.lastMatchTime.None?)
            && (s.currentPositionIndex < |t.steps| ==>
                  t.currentPositionIndex == s.currentPositionIndex && t.lastMatchTime == s.lastMatchTime)
            && t.nonMatchStartTime == s.nonMatchStartTime && t.repetitionCount == s.repetitionCount
            && t.name == s.name && t.timeWindowMs == s.timeWindowMs && t.actionBinding == s.actionBinding
  {
    var t := WithoutPosition(s, id);
    forall k | 0 <= k < |t.steps|
      ensures t.steps[k].positionId != id
    {
      assert t.steps[k] in t.steps;
    }
  }

  /**
   * `delete_selected_position`: with a selection in range, every sequence
   * loses its steps on the selected position (and restarts if its index ran
   * past them), the position leaves the list and the selection is cleared;
   * otherwise nothing happens.
   */
  method DeleteSelectedPosition(app: App)
    requires app.Valid()
    modifies app`savedPositions, app`savedMotionSequences, app`selectedPositionIndex
    ensures app.Valid()
    ensures !SelectionInRange(old(app.selectedPositionIndex), old(app.savedPositions)) ==>
              app.savedPositions == old(app.savedPositions) && app.savedMotionSequences == old(app.savedMotionSequences)
              && app.selectedPositionIndex == old(app.selectedPositionIndex)
    ensures SelectionInRange(old(app.selectedPositionIndex), old(app.savedPositions)) ==>
              var sel := old(app.selectedPositionIndex);
              var id := old(app.savedPositions)[sel].id;
              app.savedPositions == old(app.savedPositions)[..sel] + old(app.savedPositions)[sel + 1..]
              && |app.savedMotionSequences| == |old(app.savedMotionSequences)|
              && (forall i :: 0 <= i < |app.savedMotionSequences| ==>
                    app.savedMotionSequences[i] == WithoutPosition(old(app.savedMotionSequences)[i], id))
              && app.selectedPositionIndex == -1
    ensures app.selectedMotionSequenceIndex == old(app.selectedMotionSequenceIndex)
    ensures app.files == old(app.files) && app.initialRangePadding == old(app.initialRangePadding)
  {
    var sel := app.selectedPositionIndex;
    var positions := app.savedPositions;
    var sequences := app.savedMotionSequences;
    if !(sel != -1 && sel < |positions|) {
      return;
    }
    var deletedId := positions[sel].id;
    ghost var before := sequences;
    for i := 0 to |sequences|
      invariant |sequences| == |before|
      invariant forall k :: 0 <= k < i ==> sequences[k] == WithoutPosition(before[k], deletedId)
      invariant forall k :: i <= k < |sequences| ==> sequences[k] == before[k]
    {
      var s := sequences[i];
      var steps := RemoveSteps(s.steps, deletedId);
      s := s.(steps := steps);
      if s.currentPositionIndex >= |steps| {
        s := s.(currentPositionIndex := 0, lastMatchTime := None);
      }
      sequences := sequences[i := s];
    }
    forall k | 0 <= k < |sequences|
      ensures ProgressInvariant(sequences[k])
    {
      DeletionKeepsProgress(before[k], deletedId);
    }
    app.savedMotionSequences := sequences;
    app.savedPositions := positions[..sel] + positions[sel + 1..];
    app.selectedPositionIndex := -1;
  }

  // ---------------------------------------------------------------------
  // Editing the selected position

  /** Replaces the position at `i`, leaving the others. */
  function ReplaceAt(positions: seq<SavedPosition>, i: nat, p: SavedPosition): (r: seq<SavedPosition>)
    requires i < |positions|
    ensures |r| == |positions| && r[i] == p
    ensures forall k :: 0 <= k < |positions| && k != i ==> r[k] == positions[k]
  {
    positions[i := p]
  }

  /**
   * The axes actually stored for a requested choice: the request, unless
   * it disables every axis, in which case all six are enabled.
   */
  function GuardedAxes(requested: DetectionAxes): (r: DetectionAxes)
    ensures r.AnyEnabled()
    ensures requested.AnyEnabled() ==> r == requested
    ensures !requested.AnyEnabled() ==> forall a: Axis :: r.Enabled(a)
  {
    if requested.AnyEnabled() then requested else AllAxes
  }

  /**
   * `update_per_position_axis_detection`: the selected position gets the
   * guarded choice, so no position is left with every axis disabled.
   */
  method UpdateAxisDetection(app: App, requested: DetectionAxes)
    requires app.Valid()
    modifies app`savedPositions
    ensures app.Valid()
    ensures var sel := old(app.selectedPositionIndex);
            if SelectionInRange(sel, old(app.savedPositions)) then
              app.savedPositions == ReplaceAt(old(app.savedPositions), sel,
                                              old(app.savedPositions)[sel].(detectionAxes := GuardedAxes(requested)))
            else app.savedPositions == old(app.savedPositions)
    ensures app.savedMotionSequences == old(app.savedMotionSequences)
    ensures app.selectedPositionIndex == old(app.selectedPositionIndex)
  {
    var sel := app.selectedPositionIndex;
    if sel != -1 && sel < |app.savedPositions| {
      var p := app.savedPositions[sel];
      if !requested.AnyEnabled() {
        p := p.(detectionAxes := AllAxes);
      } else {
        p := p.(detectionAxes := requested);
      }
      app.savedPositions := app.savedPositions[sel := p];
    }
  }

  /**
   * `update_per_position_padding`: the selected position's padding becomes
   * the (already rounded) slider value.
   */
  method UpdatePadding(app: App, padding: real)
    requires app.Valid()
    modifies app`savedPositions
    ensures app.Valid()
    ensures var sel := old(app.selectedPositionIndex);
            if SelectionInRange(sel, old(app.savedPositions)) then
              app.savedPositions == ReplaceAt(old(app.savedPositions), sel,
                                              old(app.savedPositions)[sel].(paddingFactor := padding))
            else app.savedPositions == old(app.savedPositions)
    ensures app.savedMotionSequences == old(app.savedMotionSequences)
    ensures app.selectedPositionIndex == old(app.selectedPositionIndex)
  {
    var sel := app.selectedPositionIndex;
    if sel != -1 && sel < |app.savedPositions| {
      app.savedPositions := app.savedPositions[sel := app.savedPositions[sel].(paddingFactor := padding)];
    }
  }

  /**
   * `rename_selected_position`: a dialog answer that is empty after
   * stripping (or a cancelled dialog, `None`) changes nothing; otherwise the
   * stripped answer becomes the name.
   */
  method RenameSelectedPosition(app: App, answer: Option<string>)
    requires app.Valid()
    modifies app`savedPositions
    ensures app.Valid()
    ensures var sel := old(app.selectedPositionIndex);
            if SelectionInRange(sel, old(app.savedPositions)) && answer.Some? && OptionalText(answer.value).Some? then
              app.savedPositions == ReplaceAt(old(app.savedPositions), sel,
                                              old(app.savedPositions)[sel].(name := OptionalText(answer.value).value))
            else app.savedPositions == old(app.savedPositions)
    ensures app.savedMotionSequences == old(app.savedMotionSequences)
    ensures app.selectedPositionIndex == old(app.selectedPositionIndex)
  {
    var sel := app.selectedPositionIndex;
    if sel != -1 && sel < |app.savedPositions| && answer.Some? {
      var newName := OptionalText(answer.value);
      if newName.Some? {
        app.savedPositions := app.savedPositions[sel := app.savedPositions[sel].(name := newName.value)];
      }
    }
  }

  /**
   * The outcome of `update_edited_avg_axis_value`: with all six fields
   * parsed (and rounded) both overrides are set, with any field failing to
   * parse both are cleared.
   */
  function WithOverrides(p: SavedPosition, parsed: Option<(Vec3, Vec3)>): (q: SavedPosition)
    ensures q.customAvgGyro.Some? == q.customAvgAccel.Some?
    ensures q.(customAvgGyro := p.customAvgGyro, customAvgAccel := p.customAvgAccel) == p
  {
    if parsed.Some? then p.(customAvgGyro := Some(parsed.value.0), customAvgAccel := Some(parsed.value.1))
    else p.(customAvgGyro := None, customAvgAccel := None)
  }

  /**
   * An override moves the centre of every window to the typed values, and
   * a failed parse puts every centre back on the recorded averages; the
   * window widths stay those of the recording.
   */
  lemma OverridesMoveCentres(p: SavedPosition, parsed: Option<(Vec3, Vec3)>, a: Axis)
    ensures var q := WithOverrides(p, parsed);
            (parsed.Some? ==> q.Center(a) == Reading(parsed.value.0, parsed.value.1, a))
            && (parsed.None? ==> q.Center(a) == p.Avg(a))
            && EffectiveRanges(q).Hi(a) - EffectiveRanges(q).Lo(a) == EffectiveRanges(p).Hi(a) - EffectiveRanges(p).Lo(a)
  {
  }

  /** `update_edited_avg_axis_value` on the selected position. */
  method SetOverrides(app: App, parsed: Option<(Vec3, Vec3)>)
    requires app.Valid()
    modifies app`savedPositions
    ensures app.Valid()
    ensures var sel := old(app.selectedPositionIndex);
            if SelectionInRange(sel, old(app.savedPositions)) then
              app.savedPositions == ReplaceAt(old(app.savedPositions), sel, WithOverrides(old(app.savedPositions)[sel], parsed))
            else app.savedPositions == old(app.savedPositions)
    ensures app.savedMotionSequences == old(app.savedMotionSequences)
    ensures app.selectedPositionIndex == old(app.selectedPositionIndex)
  {
    var sel := app.selectedPositionIndex;
    if sel == -1 || sel >= |app.savedPositions| {
      return;
    }
    var p := app.savedPositions[sel];
    match parsed {
      case Some(values) =>
        p := p.(customAvgGyro := Some(values.0));
        p := p.(customAvgAccel := Some(values.1));
      case None =>
        p := p.(customAvgGyro := None, customAvgAccel := None);
    }
    app.savedPositions := app.savedPositions[sel := p];
  }

  /**
   * `reset_edited_avg_values`: both overrides of the selected position are
   * cleared, so its windows are centred on its recorded averages again.
   */
  method ResetOverrides(app: App)
    requires app.Valid()
    modifies app`savedPositions
    ensures app.Valid()
    ensures var sel := old(app.selectedPositionIndex);
            if SelectionInRange(sel, old(app.savedPositions)) then
              app.savedPositions == ReplaceAt(old(app.savedPositions), sel, WithOverrides(old(app.savedPositions)[sel], None))
              && forall a: Axis :: app.savedPositions[sel].Center(a) == app.savedPositions[sel].Avg(a)
            else app.savedPositions == old(app.savedPositions)
    ensures app.savedMotionSequences == old(app.savedMotionSequences)
    ensures app.selectedPositionIndex == old(app.selectedPositionIndex)
  {
    var sel := app.selectedPositionIndex;
    if sel == -1 || sel >= |app.savedPositions| {
      return;
    }
    var p := app.savedPositions[sel];
    p := p.(customAvgGyro := None, customAvgAccel := None);
    app.savedPositions := app.savedPositions[sel := p];
  }

  // ---------------------------------------------------------------------
  // Combining positions

  /** The chosen positions' recordings, one after another in the order chosen. */
  function AllPoints(chosen: seq<SavedPosition>): (r: seq<Sample>)
  {
    if |chosen| == 0 then []
    else AllPoints(chosen[..|chosen| - 1]) + chosen[|chosen| - 1].recordedPoints
  }

  /** The chosen positions' names, in the order chosen. */
  function Names(chosen: seq<SavedPosition>): (r: seq<string>)
    ensures |r| == |chosen|
    ensures forall i :: 0 <= i < |chosen| ==> r[i] == chosen[i].name
  {
    seq(|chosen|, i requires 0 <= i < |chosen| => chosen[i].name)
  }

  /** The position `_combine_positions` builds: all the recordings, all axes, no overrides, the default padding. */
  function Combined(chosen: seq<SavedPosition>, padding: real, freshId: string): SavedPosition
  {
    NewSavedPosition(AllPoints(chosen), "Combined (" + Join(Names(chosen), " & ") + ")", padding,
                     Some(AllAxes), None, freshId, None, None)
  }

  /** Every sample of every chosen recording is in the combined recording. */
  lemma {:induction false} AllPointsContains(chosen: seq<SavedPosition>, i: nat, k: nat)
    requires i < |chosen| && k < |chosen[i].recordedPoints|
    ensures chosen[i].recordedPoints[k] in AllPoints(chosen)
    decreases |chosen|
  {
    var n := |chosen| - 1;
    if i < n {
      AllPointsContains(chosen[..n], i, k);
    }
  }

  /** Every sample of the combined recording comes from one of the chosen recordings. */
  lemma {:induction false} AllPointsFrom(chosen: seq<SavedPosition>, s: Sample)
    requires s in AllPoints(chosen)
    ensures exists i :: 0 <= i < |chosen| && s in chosen[i].recordedPoints
    decreases |chosen|
  {
    var n := |chosen| - 1;
    if s in AllPoints(chosen[..n]) {
      AllPointsFrom(chosen[..n], s);
      var i :| 0 <= i < n && s in chosen[..n][i].recordedPoints;
      assert s in chosen[i].recordedPoints;
    } else {
      assert s in chosen[n].recordedPoints;
    }
  }

  /** The size of the combined recording is the total of the chosen sizes. */
  lemma {:induction false} AllPointsLength(chosen: seq<SavedPosition>, x: SavedPosition)
    ensures |AllPoints(chosen + [x])| == |AllPoints(chosen)| + |x.recordedPoints|
  {
    assert (chosen + [x])[..|chosen|] == chosen;
  }

  /**
   * The combined position's raw extremes span every chosen recording's:
   * on each axis its minimum is at most, and its maximum at least, those of
   * any chosen position summarised from a non-empty recording.
   */
  lemma CombinedSpansChosen(chosen: seq<SavedPosition>, padding: real, freshId: string, i: nat, a: Axis)
    requires i < |chosen| && Summarises(chosen[i]) && |chosen[i].recordedPoints| > 0
    ensures Combined(chosen, padding, freshId).RawMin(a) <= chosen[i].RawMin(a)
    ensures Combined(chosen, padding, freshId).RawMax(a) >= chosen[i].RawMax(a)
  {
    var c := Combined(chosen, padding, freshId);
    var p := chosen[i];
    RecordedStatistics(p, a);
    var kMin :| 0 <= kMin < |p.recordedPoints| && p.RawMin(a) == Reading(p.recordedPoints[kMin].gyro, p.recordedPoints[kMin].accel, a);
    var kMax :| 0 <= kMax < |p.recordedPoints| && p.RawMax(a) == Reading(p.recordedPoints[kMax].gyro, p.recordedPoints[kMax].accel, a);
    AllPointsContains(chosen, i, kMin);
    AllPointsContains(chosen, i, kMax);
    var pts := AllPoints(chosen);
    var jMin :| 0 <= jMin < |pts| && pts[jMin] == p.recordedPoints[kMin];
    var jMax :| 0 <= jMax < |pts| && pts[jMax] == p.recordedPoints[kMax];
    RecordedStatistics(c, a);
  }

  /**
   * `_combine_positions`: the chosen recordings are concatenated and their
   * names joined as they are visited, and one new position, named
   * `Combined (a & b …)`, is appended to the list.
   */
  method CombinePositions(app: App, chosen: seq<SavedPosition>, freshId: string)
    requires app.Valid()
    modifies app`savedPositions
    ensures app.Valid()
    ensures app.savedPositions == old(app.savedPositions) + [Combined(chosen, app.initialRangePadding, freshId)]
    ensures app.savedMotionSequences == old(app.savedMotionSequences)
    ensures app.selectedPositionIndex == old(app.selectedPositionIndex)
    ensures app.initialRangePadding == old(app.initialRangePadding)
  {
    var points: seq<Sample> := [];
    var names: seq<string> := [];
    for i := 0 to |chosen|
      invariant points == AllPoints(chosen[..i])
      invariant names == Names(chosen[..i])
    {
      assert chosen[..i + 1][..i] == chosen[..i];
      points := points + chosen[i].recordedPoints;
      names := names + [chosen[i].name];
    }
    assert chosen[..|chosen|] == chosen;
    var name := "Combined (" + Join(names, " & ") + ")";
    var p := NewSavedPosition(points, name, app.initialRangePadding, Some(AllAxes), None, freshId, None, None);
    app.savedPositions := app.savedPositions + [p];
  }
}
