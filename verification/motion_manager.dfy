/**
 * The edits the motion-sequence editor makes: selecting a sequence,
 * creating and deleting one, choosing its steps from the saved positions,
 * and the setters for its time window, grace period, action binding and
 * export settings (including resetting the export file's counter).
 */
module MotionManager {
  import opened Common
  import opened Models
  import opened Text
  import opened RepFile
  import opened SequenceTick
  import opened AppState

  /**
   * `select_motion_sequence_for_editing`: selecting the selected sequence
   * again clears the selection; any other index becomes the selection and
   * clears the position selection.
   */
  method SelectMotionForEditing(app: App, index: nat)
    requires app.Valid()
    modifies app`selectedMotionSequenceIndex, app`selectedPositionIndex
    ensures app.Valid()
    ensures old(app.selectedMotionSequenceIndex) == index ==>
              app.selectedMotionSequenceIndex == -1 && app.selectedPositionIndex == old(app.selectedPositionIndex)
    ensures old(app.selectedMotionSequenceIndex) != index ==>
              app.selectedMotionSequenceIndex == index && app.selectedPositionIndex == -1
    ensures app.savedPositions == old(app.savedPositions)
    ensures app.savedMotionSequences == old(app.savedMotionSequences)
  {
    if app.selectedMotionSequenceIndex == index {
      app.selectedMotionSequenceIndex := -1;
    } else {
      app.selectedPositionIndex := -1;
      app.selectedMotionSequenceIndex := index;
    }
  }

  /** Whether the editor's selection names an existing sequence (the guard of every edit). */
  predicate SelectionInRange(selected: int, sequences: seq<MotionSequence>)
  {
    selected != -1 && selected < |sequences|
  }

  // ---------------------------------------------------------------------
  // Creating and deleting

  /** Defaults of a sequence made from the editor: a 1000 ms window and a 100 ms grace period. */
  const NewTimeWindowMs: int := 1000
  const NewResetGraceMs: int := 100

  /**
   * `create_new_motion_sequence`: a dialog answer that is empty after
   * stripping (or a cancelled dialog) changes nothing; otherwise a sequence
   * with that name, no steps, the editor defaults, no binding and export
   * off is appended and selected.
   */
  method CreateNewMotionSequence(app: App, answer: Option<string>)
    requires app.Valid()
    modifies app`savedMotionSequences, app`selectedMotionSequenceIndex
    ensures app.Valid()
    ensures !(answer.Some? && OptionalText(answer.value).Some?) ==>
              app.savedMotionSequences == old(app.savedMotionSequences)
              && app.selectedMotionSequenceIndex == old(app.selectedMotionSequenceIndex)
    ensures answer.Some? && OptionalText(answer.value).Some? ==>
              var s := NewMotionSequence(OptionalText(answer.value).value, [], NewTimeWindowMs, 0, NewResetGraceMs,
                                         None, None, false, None);
              app.savedMotionSequences == old(app.savedMotionSequences) + [s]
              && app.selectedMotionSequenceIndex == |old(app.savedMotionSequences)|
    ensures app.savedPositions == old(app.savedPositions)
    ensures app.selectedPositionIndex == old(app.selectedPositionIndex)
  {
    if answer.Some? {
      var name := OptionalText(answer.value);
      if name.Some? {
        var s := NewMotionSequence(name.value, [], NewTimeWindowMs, 0, NewResetGraceMs, None, None, false, None);
        app.savedMotionSequences := app.savedMotionSequences + [s];
        app.selectedMotionSequenceIndex := |app.savedMotionSequences| - 1;
      }
    }
  }

  /** A sequence fresh from the editor is idle, so the controller can tick it at once. */
  lemma NewSequenceIsIdle(name: string)
    ensures var s := NewMotionSequence(name, [], NewTimeWindowMs, 0, NewResetGraceMs, None, None, false, None);
            ProgressInvariant(s) && s.repetitionCount == 0 && s.timeWindowMs == 1000 && s.resetGracePeriodMs == 100
            && s.actionBinding.None? && !s.exportRepsToFile && s.exportFilePath.None? && |s.steps| == 0
  {
  }

  /**
   * `delete_selected_motion`: with a selection in range, exactly that
   * sequence leaves the list and the selection is cleared; otherwise
   * nothing happens.
   */
  method DeleteSelectedMotion(app: App)
    requires app.Valid()
    modifies app`savedMotionSequences, app`selectedMotionSequenceIndex
    ensures app.Valid()
    ensures var sel := old(app.selectedMotionSequenceIndex);
            if SelectionInRange(sel, old(app.savedMotionSequences)) then
              app.savedMotionSequences == old(app.savedMotionSequences)[..sel] + old(app.savedMotionSequences)[sel + 1..]
              && app.selectedMotionSequenceIndex == -1
            else
              app.savedMotionSequences == old(app.savedMotionSequences)
              && app.selectedMotionSequenceIndex == old(app.selectedMotionSequenceIndex)
    ensures app.savedPositions == old(app.savedPositions)
    ensures app.selectedPositionIndex == old(app.selectedPositionIndex)
  {
    var sel := app.selectedMotionSequenceIndex;
    if sel != -1 && sel < |app.savedMotionSequences| {
      app.savedMotionSequences := app.savedMotionSequences[..sel] + app.savedMotionSequences[sel + 1..];
      app.selectedMotionSequenceIndex := -1;
    }
  }

  // ---------------------------------------------------------------------
  // Choosing the steps

  /** Whether some ticked box of the dialog is for a position with this id. */
  predicate Ticked(choices: seq<(string, bool)>, id: string)
  {
    exists j :: 0 <= j < |choices| && choices[j].1 && choices[j].0 == id
  }

  /**
   * The steps `save_positions` builds: one all-"any" step for each saved
   * position, in list order, that has a ticked box.
   */
  function ChosenSteps(positions: seq<SavedPosition>, choices: seq<(string, bool)>): (r: seq<MotionSequenceStep>)
    ensures |r| <= |positions|
    ensures forall k :: 0 <= k < |r| ==> r[k].gyroDirections == AnyGyro && r[k].accelDirections == AnyAccel
    ensures forall k :: 0 <= k < |r| ==> Ticked(choices, r[k].positionId)
  {
    if |positions| == 0 then []
    else
      var p := positions[|positions| - 1];
      ChosenSteps(positions[..|positions| - 1], choices)
      + (if Ticked(choices, p.id) then [MotionSequenceStep(p.id, AnyGyro, AnyAccel)] else [])
  }

  /**
   * Only which boxes are ticked matters, not the order they were ticked in
   * or listed: two dialogs that tick the same ids give the same steps.
   */
  lemma {:induction false} ClickOrderIrrelevant(positions: seq<SavedPosition>, c1: seq<(string, bool)>, c2: seq<(string, bool)>)
    requires forall id :: Ticked(c1, id) <==> Ticked(c2, id)
    ensures ChosenSteps(positions, c1) == ChosenSteps(positions, c2)
    decreases |positions|
  {
    if |positions| > 0 {
      ClickOrderIrrelevant(positions[..|positions| - 1], c1, c2);
    }
  }

  /** With every saved position ticked, the steps are the saved positions in list order. */
  lemma {:induction false} AllTickedFollowsList(positions: seq<SavedPosition>, choices: seq<(string, bool)>)
    requires forall k :: 0 <= k < |positions| ==> Ticked(choices, positions[k].id)
    ensures |ChosenSteps(positions, choices)| == |positions|
    ensures forall k :: 0 <= k < |positions| ==>
              ChosenSteps(positions, choices)[k] == MotionSequenceStep(positions[k].id, AnyGyro, AnyAccel)
    decreases |positions|
  {
    if |positions| > 0 {
      AllTickedFollowsList(positions[..|positions| - 1], choices);
    }
  }

  /**
   * `save_positions` for the sequence the dialog was opened on (`target`):
   * for each saved position in order the ticked boxes are searched for its
   * id, and on the first hit a step is added; the sequence then gets the new
   * steps and restarts.
   */
  method SavePositions(app: App, target: nat, choices: seq<(string, bool)>)
    requires app.Valid()
    requires target < |app.savedMotionSequences|
    modifies app`savedMotionSequences
    ensures app.Valid()
    ensures app.savedMotionSequences
            == old(app.savedMotionSequences)[target := old(app.savedMotionSequences)[target].(
                 steps := ChosenSteps(app.savedPositions, choices), currentPositionIndex := 0, lastMatchTime := None)]
    ensures app.savedPositions == old(app.savedPositions)
    ensures app.selectedPositionIndex == old(app.selectedPositionIndex)
    ensures app.selectedMotionSequenceIndex == old(app.selectedMotionSequenceIndex)
  {
    var positions := app.savedPositions;
    var steps: seq<MotionSequenceStep> := [];
    for i := 0 to |positions|
      invariant steps == ChosenSteps(positions[..i], choices)
    {
      assert positions[..i + 1][..i] == positions[..i];
      var j := 0;
      var found := false;
      while j < |choices|
        invariant 0 <= j <= |choices|
        invariant !found ==> forall j' :: 0 <= j' < j ==> !(choices[j'].1 && choices[j'].0 == positions[i].id)
        invariant found ==> Ticked(choices, positions[i].id)
      {
        if choices[j].1 && choices[j].0 == positions[i].id {
          found := true;
          break;
        }
        j := j + 1;
      }
      if found {
        steps := steps + [MotionSequenceStep(positions[i].id, AnyGyro, AnyAccel)];
      }
    }
    assert positions[..|positions|] == positions;
    var s := app.savedMotionSequences[target];
    s := s.(steps := steps);
    s := s.(currentPositionIndex := 0, lastMatchTime := None);
    app.savedMotionSequences := app.savedMotionSequences[target := s];
  }

  // ---------------------------------------------------------------------
  // Setters

  /** `int(x)` on a float: truncation toward zero. */
  function TruncateToInt(x: real): (r: int)
    ensures x >= 0.0 ==> r >= 0 && r as real <= x < r as real + 1.0
    ensures x < 0.0 ==> r <= 0 && r as real - 1.0 < x <= r as real
  {
    if x >= 0.0 then x.Floor else -((-x).Floor)
  }

  /** Truncation is odd and leaves whole numbers alone. */
  lemma TruncationProperties(x: real, n: int)
    ensures TruncateToInt(-x) == -TruncateToInt(x)
    ensures TruncateToInt(n as real) == n
  {
  }

  /**
   * `update_motion_time_window`: with a selection in range, the window
   * becomes the truncated slider value; the progress is left alone.
   */
  method UpdateTimeWindow(app: App, value: real)
    requires app.Valid()
    modifies app`savedMotionSequences
    ensures app.Valid()
    ensures var sel := old(app.selectedMotionSequenceIndex);
            if SelectionInRange(sel, old(app.savedMotionSequences)) then
              app.savedMotionSequences
              == old(app.savedMotionSequences)[sel := old(app.savedMotionSequences)[sel].(timeWindowMs := TruncateToInt(value))]
            else app.savedMotionSequences == old(app.savedMotionSequences)
    ensures app.savedPositions == old(app.savedPositions)
    ensures app.selectedMotionSequenceIndex == old(app.selectedMotionSequenceIndex)
  {
    var sel := app.selectedMotionSequenceIndex;
    if sel != -1 && sel < |app.savedMotionSequences| {
      app.savedMotionSequences := app.savedMotionSequences[sel := app.savedMotionSequences[sel].(timeWindowMs := TruncateToInt(value))];
    }
  }

  /** `_update_motion_reset_grace`: as the window setter, for the grace period. */
  method UpdateResetGrace(app: App, value: real)
    requires app.Valid()
    modifies app`savedMotionSequences
    ensures app.Valid()
    ensures var sel := old(app.selectedMotionSequenceIndex);
            if SelectionInRange(sel, old(app.savedMotionSequences)) then
              app.savedMotionSequences
              == old(app.savedMotionSequences)[sel := old(app.savedMotionSequences)[sel].(resetGracePeriodMs := TruncateToInt(value))]
            else app.savedMotionSequences == old(app.savedMotionSequences)
    ensures app.savedPositions == old(app.savedPositions)
    ensures app.selectedMotionSequenceIndex == old(app.selectedMotionSequenceIndex)
  {
    var sel := app.selectedMotionSequenceIndex;
    if sel != -1 && sel < |app.savedMotionSequences| {
      app.savedMotionSequences := app.savedMotionSequences[sel := app.savedMotionSequences[sel].(resetGracePeriodMs := TruncateToInt(value))];
    }
  }

  /** `_update_motion_action_binding`: the binding becomes the stripped text, or `None` when blank. */
  method UpdateActionBinding(app: App, text: string)
    requires app.Valid()
    modifies app`savedMotionSequences
    ensures app.Valid()
    ensures var sel := old(app.selectedMotionSequenceIndex);
            if SelectionInRange(sel, old(app.savedMotionSequences)) then
              app.savedMotionSequences
              == old(app.savedMotionSequences)[sel := old(app.savedMotionSequences)[sel].(actionBinding := OptionalText(text))]
            else app.savedMotionSequences == old(app.savedMotionSequences)
    ensures app.savedPositions == old(app.savedPositions)
    ensures app.selectedMotionSequenceIndex == old(app.selectedMotionSequenceIndex)
  {
    var sel := app.selectedMotionSequenceIndex;
    if sel != -1 && sel < |app.savedMotionSequences| {
      var actionText := Strip(text);
      var binding := if actionText != "" then Some(actionText) else None;
      app.savedMotionSequences := app.savedMotionSequences[sel := app.savedMotionSequences[sel].(actionBinding := binding)];
    }
  }

  /** `_update_motion_export_reps_setting`: the export flag becomes the checkbox state. */
  method UpdateExportSetting(app: App, enabled: bool)
    requires app.Valid()
    modifies app`savedMotionSequences
    ensures app.Valid()
    ensures var sel := old(app.selectedMotionSequenceIndex);
            if SelectionInRange(sel, old(app.savedMotionSequences)) then
              app.savedMotionSequences
              == old(app.savedMotionSequences)[sel := old(app.savedMotionSequences)[sel].(exportRepsToFile := enabled)]
            else app.savedMotionSequences == old(app.savedMotionSequences)
    ensures app.savedPositions == old(app.savedPositions)
    ensures app.selectedMotionSequenceIndex == old(app.selectedMotionSequenceIndex)
  {
    var sel := app.selectedMotionSequenceIndex;
    if sel != -1 && sel < |app.savedMotionSequences| {
      app.savedMotionSequences := app.savedMotionSequences[sel := app.savedMotionSequences[sel].(exportRepsToFile := enabled)];
    }
  }

  /** `_update_motion_export_file_path`: the path becomes the stripped text, or `None` when blank. */
  method UpdateExportFilePath(app: App, text: string)
    requires app.Valid()
    modifies app`savedMotionSequences
    ensures app.Valid()
    ensures var sel := old(app.selectedMotionSequenceIndex);
            if SelectionInRange(sel, old(app.savedMotionSequences)) then
              app.savedMotionSequences
              == old(app.savedMotionSequences)[sel := old(app.savedMotionSequences)[sel].(exportFilePath := OptionalText(text))]
            else app.savedMotionSequences == old(app.savedMotionSequences)
    ensures app.savedPositions == old(app.savedPositions)
    ensures app.selectedMotionSequenceIndex == old(app.selectedMotionSequenceIndex)
  {
    var sel := app.selectedMotionSequenceIndex;
    if sel != -1 && sel < |app.savedMotionSequences| {
      var filePath := Strip(text);
      var path := if filePath != "" then Some(filePath) else None;
      app.savedMotionSequences := app.savedMotionSequences[sel := app.savedMotionSequences[sel].(exportFilePath := path)];
    }
  }

  /** `rename_selected_motion`: a blank or cancelled answer changes nothing; otherwise the stripped answer is the name. */
  method RenameSelectedMotion(app: App, answer: Option<string>)
    requires app.Valid()
    modifies app`savedMotionSequences
    ensures app.Valid()
    ensures var sel := old(app.selectedMotionSequenceIndex);
            if SelectionInRange(sel, old(app.savedMotionSequences)) && answer.Some? && OptionalText(answer.value).Some? then
              app.savedMotionSequences
              == old(app.savedMotionSequences)[sel := old(app.savedMotionSequences)[sel].(name := OptionalText(answer.value).value)]
            else app.savedMotionSequences == old(app.savedMotionSequences)
    ensures app.savedPositions == old(app.savedPositions)
    ensures app.selectedMotionSequenceIndex == old(app.selectedMotionSequenceIndex)
  {
    var sel := app.selectedMotionSequenceIndex;
    if sel != -1 && sel < |app.savedMotionSequences| && answer.Some? {
      var newName := OptionalText(answer.value);
      if newName.Some? {
        app.savedMotionSequences := app.savedMotionSequences[sel := app.savedMotionSequences[sel].(name := newName.value)];
      }
    }
  }

  /**
   * `_reset_motion_export_file_counter`, once confirmed: the selected
   * sequence's export file holds "0", so reading it back gives 0; without a
   * path nothing is written.
   */
  method ResetExportFileCounter(app: App, confirmed: bool)
    requires app.Valid()
    modifies app`files
    ensures app.Valid()
    ensures var sel := old(app.selectedMotionSequenceIndex);
            var path := if SelectionInRange(sel, old(app.savedMotionSequences))
                        then old(app.savedMotionSequences)[sel].exportFilePath else None;
            if confirmed && Truthy(path) then
              app.files == old(app.files)[path.value := "0"] && ReadRepsFromFile(app.files, path) == 0
            else app.files == old(app.files)
    ensures app.savedPositions == old(app.savedPositions)
    ensures app.savedMotionSequences == old(app.savedMotionSequences)
    ensures app.selectedMotionSequenceIndex == old(app.selectedMotionSequenceIndex)
  {
    var sel := app.selectedMotionSequenceIndex;
    if sel != -1 && sel < |app.savedMotionSequences| {
      var path := app.savedMotionSequences[sel].exportFilePath;
      if Truthy(path) && confirmed {
        app.files := app.files[path.value := "0"];
        assert Strip("0") == "0";
      }
    }
  }
}
