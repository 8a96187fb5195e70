/**
 * The shared state of the controller stack that the controller loop, the
 * position manager, the motion-sequence manager and the configuration
 * import all update in place: the saved positions and motion sequences in
 * display order, the selections of the two editors, the highlighted
 * position, the padding given to new positions, and the files on disk that
 * repetition counts are exported to.
 */
module AppState {
  import opened Common
  import opened Models
  import opened SequenceTick
  import opened RepFile

  class App {
    var savedPositions: seq<SavedPosition>
    var savedMotionSequences: seq<MotionSequence>
    var selectedPositionIndex: int
    var selectedMotionSequenceIndex: int
    var currentHighlightedLabelIndex: int
    var initialRangePadding: real
    var files: FileSystem

    /**
     * Every motion sequence keeps the progress invariant the controller tick
     * relies on, and a selection is either -1 (none) or a list index, which
     * may be stale after the list shrinks.
     */
    ghost predicate Valid()
      reads this
    {
      (forall i :: 0 <= i < |savedMotionSequences| ==> ProgressInvariant(savedMotionSequences[i]))
      && selectedPositionIndex >= -1 && selectedMotionSequenceIndex >= -1
    }

    constructor (initialRangePadding: real, files: FileSystem)
      ensures Valid()
      ensures savedPositions == [] && savedMotionSequences == []
      ensures selectedPositionIndex == -1 && selectedMotionSequenceIndex == -1
      ensures currentHighlightedLabelIndex == -1
      ensures this.initialRangePadding == initialRangePadding && this.files == files
    {
      savedPositions := [];
      savedMotionSequences := [];
      selectedPositionIndex := -1;
      selectedMotionSequenceIndex := -1;
      currentHighlightedLabelIndex := -1;
      this.initialRangePadding := initialRangePadding;
      this.files := files;
    }
  }
}
