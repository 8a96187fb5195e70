/**
 * One tick of one motion sequence: the state machine that advances through
 * the sequence's steps when the current reading matches the expected
 * position within the time window, gives up after a timeout or after the
 * grace period without a match, and on completing the last step counts a
 * repetition (mirrored to a file when exporting) and dispatches the bound
 * action, subject to a 500 ms cooldown.
 */
module SequenceTick {
  import opened Common
  import opened Models
  import opened Matching
  import opened RepFile

  /** `ACTION_COOLDOWN_MS`. */
  const ActionCooldownMs: real := 500.0

  /**
   * What every tick relies on: the step index points at an existing step
   * (or is 0 for a sequence without steps), and a sequence past its first
   * step knows when it last matched.
   */
  predicate ProgressInvariant(s: MotionSequence)
  {
    (s.currentPositionIndex == 0 || s.currentPositionIndex < |s.steps|)
    && (s.currentPositionIndex > 0 ==> s.lastMatchTime.Some?)
  }

  /** The configuration a tick never changes. */
  predicate SameConfiguration(s: MotionSequence, t: MotionSequence)
  {
    t.name == s.name && t.steps == s.steps && t.timeWindowMs == s.timeWindowMs
    && t.resetGracePeriodMs == s.resetGracePeriodMs && t.actionBinding == s.actionBinding
    && t.exportRepsToFile == s.exportRepsToFile && t.exportFilePath == s.exportFilePath
  }

  /** The first saved position with the given id, as an index, or -1. */
  function IndexOfPosition(positions: seq<SavedPosition>, id: string): (r: int)
    ensures -1 <= r < |positions|
    ensures r == -1 <==> forall i :: 0 <= i < |positions| ==> positions[i].id != id
    ensures 0 <= r ==> positions[r].id == id && forall i :: 0 <= i < r ==> positions[i].id != id
  {
    if |positions| == 0 then -1
    else
      var r := IndexOfPosition(positions[..|positions| - 1], id);
      if r != -1 then r
      else if positions[|positions| - 1].id == id then |positions| - 1
      else -1
  }

  /** The result of ticking one sequence: its new state and the files on disk. */
  datatype Tick = Tick(sequence: MotionSequence, files: FileSystem)

  /** Whether the cooldown since the last dispatched action has run out. */
  predicate CooldownOver(s: MotionSequence, now: real)
  {
    s.lastActionTriggerTime.None? || now - s.lastActionTriggerTime.value > ActionCooldownMs
  }

  /**
   * The completion bookkeeping once the last step matched: outside the
   * cooldown the repetition is counted (from the export file, written back,
   * when exporting) and the bound action dispatched, the trigger time being
   * recorded only when the dispatch succeeded; in every case the sequence
   * goes back to its first step and is flagged completed for this tick.
   */
  function Complete(s: MotionSequence, now: real, files: FileSystem, dispatch: string -> bool): Tick
  {
    var counted :=
      if !s.isCompletedThisFrame && CooldownOver(s, now) then
        var reps: nat := if s.exportRepsToFile && Truthy(s.exportFilePath)
                         then ReadRepsFromFile(files, s.exportFilePath) + 1 else 0;
        var files' := if s.exportRepsToFile && Truthy(s.exportFilePath)
                      then WriteRepsToFile(files, s.exportFilePath, reps, false) else files;
        var count := if s.exportRepsToFile && Truthy(s.exportFilePath) then reps else s.repetitionCount + 1;
        var trigger := if Truthy(s.actionBinding) && dispatch(s.actionBinding.value)
                       then Some(now) else s.lastActionTriggerTime;
        Tick(s.(repetitionCount := count, lastActionTriggerTime := trigger), files')
      else Tick(s, files);
    Tick(counted.sequence.(currentPositionIndex := 0, lastMatchTime := None, isCompletedThisFrame := true),
         counted.files)
  }

  /** Completing keeps the configuration, touches no file but the export file and records only successful dispatches. */
  lemma CompleteKeeps(s: MotionSequence, now: real, files: FileSystem, dispatch: string -> bool)
    ensures TickKeeps(s, now, files, dispatch, Complete(s, now, files, dispatch))
  {
  }

  /** Back to the first step with both timers cleared. */
  function Reset(s: MotionSequence): MotionSequence
  {
    s.(currentPositionIndex := 0, lastMatchTime := None, nonMatchStartTime := None)
  }

  /** The postconditions every tick of `s` meets, whatever the reading. */
  predicate TickKeeps(s: MotionSequence, now: real, files: FileSystem, dispatch: string -> bool, t: Tick)
  {
    ProgressInvariant(t.sequence)
    && SameConfiguration(s, t.sequence)
    && (forall p :: p in files && !(s.exportRepsToFile && Truthy(s.exportFilePath) && p == s.exportFilePath.value)
          ==> p in t.files && t.files[p] == files[p])
    && (forall p :: p in t.files ==> p in files || (Truthy(s.exportFilePath) && p == s.exportFilePath.value))
    && (t.sequence.lastActionTriggerTime != s.lastActionTriggerTime ==>
          t.sequence.lastActionTriggerTime == Some(now) && Truthy(s.actionBinding) && dispatch(s.actionBinding.value))
  }

  /**
   * One sequence's share of a controller tick, given the smoothed reading,
   * the clock in milliseconds, the files on disk and the action sink
   * (`dispatch(binding)` holds when dispatching raised no error).
   */
  function StepSequence(s: MotionSequence, positions: seq<SavedPosition>, gyro: Vec3, accel: Vec3,
                        now: real, files: FileSystem, dispatch: string -> bool): (t: Tick)
    requires ProgressInvariant(s)
    ensures ProgressInvariant(t.sequence)
    ensures SameConfiguration(s, t.sequence)
    ensures forall p :: p in files && !(s.exportRepsToFile && Truthy(s.exportFilePath) && p == s.exportFilePath.value)
              ==> p in t.files && t.files[p] == files[p]
    ensures forall p :: p in t.files ==> p in files || (Truthy(s.exportFilePath) && p == s.exportFilePath.value)
    ensures t.sequence.lastActionTriggerTime != s.lastActionTriggerTime ==>
              t.sequence.lastActionTriggerTime == Some(now) && Truthy(s.actionBinding) && dispatch(s.actionBinding.value)
  {
    if |s.steps| == 0 then Tick(s.(isCompletedThisFrame := false), files)
    else
      var target := IndexOfPosition(positions, s.steps[s.currentPositionIndex].positionId);
      StepOn(s, target != -1, target != -1 && Matches(positions[target], gyro, accel), now, files, dispatch)
  }

  /**
   * The tick of a sequence with steps once the expected position has been
   * looked up (`found`) and compared with the reading (`matched`).
   */
  function StepOn(s: MotionSequence, found: bool, matched: bool, now: real, files: FileSystem,
                  dispatch: string -> bool): (t: Tick)
    requires ProgressInvariant(s) && |s.steps| > 0
    requires matched ==> found
    ensures TickKeeps(s, now, files, dispatch, t)
  {
    var s0 := s.(isCompletedThisFrame := false);
    if !found then Tick(Reset(s0), files)
    else if matched then
      if s.currentPositionIndex == 0 || now - s.lastMatchTime.value <= s.timeWindowMs as real then
        var advanced := s0.(lastMatchTime := Some(now), nonMatchStartTime := None,
                            currentPositionIndex := s.currentPositionIndex + 1);
        if advanced.currentPositionIndex >= |s.steps| then
          CompleteKeeps(advanced, now, files, dispatch);
          Complete(advanced, now, files, dispatch)
        else Tick(advanced, files)
      else Tick(Reset(s0), files)
    else if s.currentPositionIndex > 0 then
      if s.nonMatchStartTime.None? then Tick(s0.(nonMatchStartTime := Some(now)), files)
      else if now - s.nonMatchStartTime.value > s.resetGracePeriodMs as real then Tick(Reset(s0), files)
      else Tick(s0, files)
    else Tick(s0, files)
  }

  // ---------------------------------------------------------------------
  // Properties of one tick

  /** A sequence without steps only has its completion flag cleared. */
  lemma EmptySequenceIsIdle(s: MotionSequence, positions: seq<SavedPosition>, gyro: Vec3, accel: Vec3,
                            now: real, files: FileSystem, dispatch: string -> bool)
    requires ProgressInvariant(s)
    requires |s.steps| == 0
    ensures StepSequence(s, positions, gyro, accel, now, files, dispatch)
            == Tick(s.(isCompletedThisFrame := false), files)
  {
  }

  /** Expecting a position that no longer exists sends the sequence back to its first step. */
  lemma MissingPositionResets(s: MotionSequence, positions: seq<SavedPosition>, gyro: Vec3, accel: Vec3,
                              now: real, files: FileSystem, dispatch: string -> bool)
    requires ProgressInvariant(s)
    requires |s.steps| > 0
    requires forall i :: 0 <= i < |positions| ==> positions[i].id != s.steps[s.currentPositionIndex].positionId
    ensures var t := StepSequence(s, positions, gyro, accel, now, files, dispatch);
            t.sequence == Reset(s).(isCompletedThisFrame := false) && t.files == files
  {
  }

  /** The position the sequence's current step expects, present in `positions`. */
  predicate ExpectedPositionMatches(s: MotionSequence, positions: seq<SavedPosition>, gyro: Vec3, accel: Vec3)
    requires ProgressInvariant(s)
  {
    |s.steps| > 0
    && var i := IndexOfPosition(positions, s.steps[s.currentPositionIndex].positionId);
    i != -1 && Matches(positions[i], gyro, accel)
  }

  predicate ExpectedPositionMisses(s: MotionSequence, positions: seq<SavedPosition>, gyro: Vec3, accel: Vec3)
    requires ProgressInvariant(s)
  {
    |s.steps| > 0
    && var i := IndexOfPosition(positions, s.steps[s.currentPositionIndex].positionId);
    i != -1 && !Matches(positions[i], gyro, accel)
  }

  /** Whether a match at `now` still counts as in time for the next step. */
  predicate InTime(s: MotionSequence, now: real)
    requires ProgressInvariant(s)
  {
    s.currentPositionIndex == 0 || now - s.lastMatchTime.value <= s.timeWindowMs as real
  }

  /** A timely match of a step that is not the last advances by one and restarts the timers. */
  lemma TimelyMatchAdvances(s: MotionSequence, positions: seq<SavedPosition>, gyro: Vec3, accel: Vec3,
                            now: real, files: FileSystem, dispatch: string -> bool)
    requires ProgressInvariant(s)
    requires ExpectedPositionMatches(s, positions, gyro, accel) && InTime(s, now)
    requires s.currentPositionIndex + 1 < |s.steps|
    ensures var t := StepSequence(s, positions, gyro, accel, now, files, dispatch);
            t.files == files
            && t.sequence == s.(currentPositionIndex := s.currentPositionIndex + 1, lastMatchTime := Some(now),
                                nonMatchStartTime := None, isCompletedThisFrame := false)
  {
  }

  /** A match that comes after the time window has run out sends the sequence back to its first step. */
  lemma LateMatchResets(s: MotionSequence, positions: seq<SavedPosition>, gyro: Vec3, accel: Vec3,
                        now: real, files: FileSystem, dispatch: string -> bool)
    requires ProgressInvariant(s)
    requires ExpectedPositionMatches(s, positions, gyro, accel) && !InTime(s, now)
    ensures var t := StepSequence(s, positions, gyro, accel, now, files, dispatch);
            t.files == files && t.sequence == Reset(s).(isCompletedThisFrame := false)
  {
  }

  /**
   * A timely match of the last step completes the sequence: it goes back to
   * its first step flagged as completed. Outside the cooldown the count goes
   * up by one (from the export file when exporting, and the file then holds
   * the new count) and the trigger time becomes `now` exactly when a bound
   * action was dispatched without error; inside the cooldown neither the
   * count, the trigger time nor the files change.
   */
  lemma TimelyLastMatchCompletes(s: MotionSequence, positions: seq<SavedPosition>, gyro: Vec3, accel: Vec3,
                                 now: real, files: FileSystem, dispatch: string -> bool)
    requires ProgressInvariant(s)
    requires ExpectedPositionMatches(s, positions, gyro, accel) && InTime(s, now)
    requires s.currentPositionIndex + 1 == |s.steps|
    ensures var t := StepSequence(s, positions, gyro, accel, now, files, dispatch);
            var exporting := s.exportRepsToFile && Truthy(s.exportFilePath);
            t.sequence.currentPositionIndex == 0 && t.sequence.lastMatchTime.None?
            && t.sequence.nonMatchStartTime.None? && t.sequence.isCompletedThisFrame
            && (CooldownOver(s, now) && exporting ==>
                  t.sequence.repetitionCount == ReadRepsFromFile(files, s.exportFilePath) + 1
                  && ReadRepsFromFile(t.files, s.exportFilePath) == t.sequence.repetitionCount)
            && (CooldownOver(s, now) && !exporting ==>
                  t.sequence.repetitionCount == s.repetitionCount + 1 && t.files == files)
            && (CooldownOver(s, now) ==>
                  (t.sequence.lastActionTriggerTime == Some(now)
                   <==> Truthy(s.actionBinding) && dispatch(s.actionBinding.value))
                  && (!(Truthy(s.actionBinding) && dispatch(s.actionBinding.value)) ==>
                        t.sequence.lastActionTriggerTime == s.lastActionTriggerTime))
            && (!CooldownOver(s, now) ==>
                  t.sequence.repetitionCount == s.repetitionCount
                  && t.sequence.lastActionTriggerTime == s.lastActionTriggerTime && t.files == files)
  {
  }

  /**
   * Without a bound action (or when its dispatch keeps failing) the trigger
   * time never gets set, so the cooldown never blocks: every completion counts.
   */
  lemma UnboundSequenceCountsEveryCompletion(s: MotionSequence, positions: seq<SavedPosition>, gyro: Vec3, accel: Vec3,
                                             now: real, files: FileSystem, dispatch: string -> bool)
    requires ProgressInvariant(s)
    requires s.lastActionTriggerTime.None?
    requires !(Truthy(s.actionBinding) && dispatch(s.actionBinding.value))
    ensures StepSequence(s, positions, gyro, accel, now, files, dispatch).sequence.lastActionTriggerTime.None?
    ensures ExpectedPositionMatches(s, positions, gyro, accel) && InTime(s, now)
            && s.currentPositionIndex + 1 == |s.steps| && !(s.exportRepsToFile && Truthy(s.exportFilePath)) ==>
            StepSequence(s, positions, gyro, accel, now, files, dispatch).sequence.repetitionCount == s.repetitionCount + 1
  {
  }

  /**
   * Missing the expected position past the first step: the first miss starts
   * the grace timer, a miss after more than the grace period sends the
   * sequence back to its first step, and any other miss changes nothing.
   */
  lemma MissStartsOrExpiresGrace(s: MotionSequence, positions: seq<SavedPosition>, gyro: Vec3, accel: Vec3,
                                 now: real, files: FileSystem, dispatch: string -> bool)
    requires ProgressInvariant(s)
    requires ExpectedPositionMisses(s, positions, gyro, accel)
    ensures var t := StepSequence(s, positions, gyro, accel, now, files, dispatch);
            var s0 := s.(isCompletedThisFrame := false);
            t.files == files
            && (s.currentPositionIndex == 0 ==> t.sequence == s0)
            && (s.currentPositionIndex > 0 && s.nonMatchStartTime.None? ==>
                  t.sequence == s0.(nonMatchStartTime := Some(now)))
            && (s.currentPositionIndex > 0 && s.nonMatchStartTime.Some?
                && now - s.nonMatchStartTime.value > s.resetGracePeriodMs as real ==>
                  t.sequence == Reset(s0))
            && (s.currentPositionIndex > 0 && s.nonMatchStartTime.Some?
                && now - s.nonMatchStartTime.value <= s.resetGracePeriodMs as real ==>
                  t.sequence == s0)
  {
  }

  /** The repetition count never goes down in a tick unless it is re-read from the export file. */
  lemma CountOnlyGrows(s: MotionSequence, positions: seq<SavedPosition>, gyro: Vec3, accel: Vec3,
                       now: real, files: FileSystem, dispatch: string -> bool)
    requires ProgressInvariant(s)
    requires !(s.exportRepsToFile && Truthy(s.exportFilePath))
    ensures var t := StepSequence(s, positions, gyro, accel, now, files, dispatch);
            s.repetitionCount <= t.sequence.repetitionCount <= s.repetitionCount + 1
            && t.files == files
  {
    if |s.steps| > 0 {
      var target := IndexOfPosition(positions, s.steps[s.currentPositionIndex].positionId);
      StepOnCountOnlyGrows(s, target != -1, target != -1 && Matches(positions[target], gyro, accel), now, files, dispatch);
    }
  }

  lemma StepOnCountOnlyGrows(s: MotionSequence, found: bool, matched: bool, now: real, files: FileSystem,
                             dispatch: string -> bool)
    requires ProgressInvariant(s) && |s.steps| > 0 && (matched ==> found)
    requires !(s.exportRepsToFile && Truthy(s.exportFilePath))
    ensures var t := StepOn(s, found, matched, now, files, dispatch);
            s.repetitionCount <= t.sequence.repetitionCount <= s.repetitionCount + 1
            && t.files == files
  {
    if matched && InTime(s, now) && s.currentPositionIndex + 1 >= |s.steps| {
      var advanced := s.(isCompletedThisFrame := false, lastMatchTime := Some(now), nonMatchStartTime := None,
                         currentPositionIndex := s.currentPositionIndex + 1);
      CompletionCountsOnce(advanced, now, files, dispatch);
    }
  }

  /** Completing without export adds at most one to the count and leaves the files alone. */
  lemma CompletionCountsOnce(s: MotionSequence, now: real, files: FileSystem, dispatch: string -> bool)
    requires !(s.exportRepsToFile && Truthy(s.exportFilePath))
    ensures var t := Complete(s, now, files, dispatch);
            s.repetitionCount <= t.sequence.repetitionCount <= s.repetitionCount + 1 && t.files == files
  {
  }

  // ---------------------------------------------------------------------
  // Scenarios

  /**
   * A two-step sequence with no action and no export: matching the first
   * position and then, within the time window, the second counts one
   * repetition and leaves the sequence ready to start over.
   */
  lemma TwoStepHappyPath(s: MotionSequence, positions: seq<SavedPosition>, g1: Vec3, a1: Vec3, t1: real,
                         g2: Vec3, a2: Vec3, t2: real, files: FileSystem, dispatch: string -> bool)
    requires |s.steps| == 2 && s.currentPositionIndex == 0
    requires s.actionBinding.None? && !s.exportRepsToFile
    requires ExpectedPositionMatches(s, positions, g1, a1)
    requires var i := IndexOfPosition(positions, s.steps[1].positionId);
             i != -1 && Matches(positions[i], g2, a2)
    requires t2 - t1 <= s.timeWindowMs as real
    requires CooldownOver(s, t2)
    ensures var first := StepSequence(s, positions, g1, a1, t1, files, dispatch);
            var second := StepSequence(first.sequence, positions, g2, a2, t2, first.files, dispatch);
            first.sequence.currentPositionIndex == 1
            && second.sequence.currentPositionIndex == 0
            && second.sequence.repetitionCount == s.repetitionCount + 1
            && second.sequence.isCompletedThisFrame
            && second.files == files
  {
    var first := StepSequence(s, positions, g1, a1, t1, files, dispatch);
    assert first.sequence.currentPositionIndex == 1 && first.sequence.lastMatchTime == Some(t1);
    assert first.sequence.lastActionTriggerTime == s.lastActionTriggerTime;
    assert ExpectedPositionMatches(first.sequence, positions, g2, a2);
  }

  /**
   * The same sequence when the second match comes too late: no repetition,
   * and the sequence is back at its first step.
   */
  lemma TwoStepTimeout(s: MotionSequence, positions: seq<SavedPosition>, g1: Vec3, a1: Vec3, t1: real,
                       g2: Vec3, a2: Vec3, t2: real, files: FileSystem, dispatch: string -> bool)
    requires |s.steps| == 2 && s.currentPositionIndex == 0
    requires ExpectedPositionMatches(s, positions, g1, a1)
    requires var i := IndexOfPosition(positions, s.steps[1].positionId);
             i != -1 && Matches(positions[i], g2, a2)
    requires t2 - t1 > s.timeWindowMs as real
    ensures var first := StepSequence(s, positions, g1, a1, t1, files, dispatch);
            var second := StepSequence(first.sequence, positions, g2, a2, t2, first.files, dispatch);
            second.sequence.currentPositionIndex == 0
            && second.sequence.repetitionCount == s.repetitionCount
            && !second.sequence.isCompletedThisFrame
  {
    var first := StepSequence(s, positions, g1, a1, t1, files, dispatch);
    assert first.sequence.currentPositionIndex == 1 && first.sequence.lastMatchTime == Some(t1);
    assert ExpectedPositionMatches(first.sequence, positions, g2, a2);
  }

  /**
   * Part-way through a sequence, misses that start at `t1` only reset it once
   * more than the grace period has passed: a miss at `t2` within the grace
   * period keeps the progress, a miss at `t3` beyond it drops it.
   */
  lemma GracePeriodScenario(s: MotionSequence, positions: seq<SavedPosition>, g: Vec3, a: Vec3,
                            t1: real, t2: real, t3: real, files: FileSystem, dispatch: string -> bool)
    requires ProgressInvariant(s)
    requires s.currentPositionIndex > 0 && s.nonMatchStartTime.None?
    requires ExpectedPositionMisses(s, positions, g, a)
    requires t2 - t1 <= s.resetGracePeriodMs as real < t3 - t1
    ensures var m1 := StepSequence(s, positions, g, a, t1, files, dispatch);
            var m2 := StepSequence(m1.sequence, positions, g, a, t2, m1.files, dispatch);
            var m3 := StepSequence(m2.sequence, positions, g, a, t3, m2.files, dispatch);
            m2.sequence.currentPositionIndex == s.currentPositionIndex
            && m3.sequence.currentPositionIndex == 0 && m3.sequence.nonMatchStartTime.None?
  {
    var m1 := StepSequence(s, positions, g, a, t1, files, dispatch);
    assert m1.sequence.nonMatchStartTime == Some(t1);
    assert ExpectedPositionMisses(m1.sequence, positions, g, a);
    var m2 := StepSequence(m1.sequence, positions, g, a, t2, m1.files, dispatch);
    assert m2.sequence.nonMatchStartTime == Some(t1);
    assert ExpectedPositionMisses(m2.sequence, positions, g, a);
  }
}
