/**
 * The difficulty hit objects of osu!mania. The chart is an immutable sequence of notes,
 * and every reference between difficulty objects (the nullable `ManiaDifficultyHitObject`
 * fields and lists) is an optional index into that sequence.
 */
module ManiaObjects {
  import opened Wrappers

  datatype Note = Note(
    startTime: real,
    endTime: real,
    column: int,
    /** position of this object in the difficulty object list */
    index: nat,
    /** the base object is a `HoldNote`, which is what `isLN` tests (`ReleaseStrain.cs:66-71`) */
    isHoldNote: bool,
    /** `DeltaTime`: start time minus the previous object's start time, clock-rate adjusted */
    deltaTime: real,
    /** `Previous(0)` */
    previous: Option<nat>,
    /** `PrevInColumn(0)` */
    prevInColumn: Option<nat>,
    /** `CurrHitObjects`, one slot per column; given here, not computed */
    currHitObjects: seq<Option<nat>>,
    /** `PrevHitObjects`, one slot per column; given here, not computed */
    prevHitObjects: seq<Option<nat>>)

  type History = seq<Note>

  predicate RefOk(h: History, r: Option<nat>) {
    r.Some? ==> r.value < |h|
  }

  predicate RefsOk(h: History, rs: seq<Option<nat>>) {
    forall k :: 0 <= k < |rs| ==> RefOk(h, rs[k])
  }

  predicate NoteRefsOk(h: History, n: Note) {
    RefOk(h, n.previous) && RefOk(h, n.prevInColumn) && RefsOk(h, n.currHitObjects) && RefsOk(h, n.prevHitObjects)
  }

  /** Every reference of every note points into the history. */
  predicate WellFormed(h: History) {
    forall k :: 0 <= k < |h| ==> NoteRefsOk(h, h[k])
  }
}
