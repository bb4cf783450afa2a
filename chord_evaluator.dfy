/**
 * `ChordEvaluator`: the jack difficulty of the chord a note belongs to. The trill part of
 * the formula is present in the source but weighted by a literal zero.
 */
module ChordEvaluator {
  import opened Wrappers
  import opened Numerics
  import opened ManiaObjects

  const ChordScaleFactor: real := 0.03478260
  const GraceNoteTolerance: real := 0.0

  /** `(obj?.StartTime ?? double.PositiveInfinity) + tolerance` */
  function ShiftedStart(h: History, obj: Option<nat>, tolerance: real): Ext
    requires RefOk(h, obj)
  {
    match obj
    case None => PosInf
    case Some(k) => Finite(h[k].startTime + tolerance)
  }

  /**
   * `objs.ConvertAll(obj => (obj?.StartTime ?? +inf) + tolerance).Min()`, or `None` when
   * the list is empty and LINQ `Min` throws.
   */
  function MinShiftedStart(h: History, objs: seq<Option<nat>>, tolerance: real): (r: Option<Ext>)
    requires RefsOk(h, objs)
    ensures r.None? <==> objs == []
    ensures r.Some? ==> forall k :: 0 <= k < |objs| ==> ExtLe(r.value, ShiftedStart(h, objs[k], tolerance))
    ensures r.Some? ==> exists k :: 0 <= k < |objs| && r.value == ShiftedStart(h, objs[k], tolerance)
  {
    if objs == [] then None
    else
      var init := objs[..|objs| - 1];
      assert RefsOk(h, init);
      var last := ShiftedStart(h, objs[|objs| - 1], tolerance);
      match MinShiftedStart(h, init, tolerance)
      case None => Some(last)
      case Some(m) =>
        assert forall k :: 0 <= k < |init| ==> objs[k] == init[k];
        ExtLeIsTransitive();
        Some(ExtMin(m, last))
  }

  lemma ExtLeIsTransitive()
    ensures forall a: Ext, b: Ext, c: Ext :: ExtLe(a, b) && ExtLe(b, c) ==> ExtLe(a, c)
  {
  }

  /**
   * The chord delta: current start time minus the minimum over `PrevHitObjects`; a delta
   * that is not positive (which includes the -inf left by an all-null list) becomes +inf.
   */
  function ChordDelta(h: History, note: Note): (r: Option<Ext>)
    requires RefsOk(h, note.prevHitObjects)
    ensures r.None? <==> note.prevHitObjects == []
    ensures r.Some? ==> r.value == PosInf || (r.value.Finite? && r.value.v > 0.0)
  {
    match MinShiftedStart(h, note.prevHitObjects, GraceNoteTolerance)
    case None => None
    case Some(m) =>
      var delta := ExtSubtractFrom(note.startTime, m);
      Some(if ExtLe(delta, Finite(0.0)) then PosInf else delta)
  }

  /**
   * A finite chord delta is the time since the earliest of the previous notes, and the
   * delta is +inf exactly when no previous note starts before the current one.
   */
  lemma ChordDeltaIsTimeSinceEarliest(h: History, note: Note)
    requires RefsOk(h, note.prevHitObjects)
    ensures var prev := note.prevHitObjects;
      var r := ChordDelta(h, note);
      r.Some? && r.value.Finite? ==>
        (forall k :: 0 <= k < |prev| && prev[k].Some? ==> r.value.v >= note.startTime - h[prev[k].value].startTime) &&
        (exists k :: 0 <= k < |prev| && prev[k].Some? && r.value.v == note.startTime - h[prev[k].value].startTime)
    ensures var prev := note.prevHitObjects;
      var r := ChordDelta(h, note);
      r.Some? ==>
        (r.value == PosInf <==> forall k :: 0 <= k < |prev| && prev[k].Some? ==> h[prev[k].value].startTime >= note.startTime)
  {
    var prev := note.prevHitObjects;
    var r := ChordDelta(h, note);
    if r.Some? {
      var m := MinShiftedStart(h, prev, GraceNoteTolerance).value;
      forall k | 0 <= k < |prev|
        ensures ExtLe(m, ShiftedStart(h, prev[k], GraceNoteTolerance))
      {
      }
      var j :| 0 <= j < |prev| && m == ShiftedStart(h, prev[j], GraceNoteTolerance);
      if r.value == PosInf {
        // the subtracted minimum is +inf (every entry null) or at least the current start
        assert m == PosInf || (m.Finite? && m.v >= note.startTime);
        forall k | 0 <= k < |prev| && prev[k].Some?
          ensures h[prev[k].value].startTime >= note.startTime
        {
          assert ExtLe(m, ShiftedStart(h, prev[k], GraceNoteTolerance));
        }
      } else {
        assert m.Finite? && m.v < note.startTime;
        assert prev[j].Some? && h[prev[j].value].startTime < note.startTime;
      }
    }
  }

  /** With no earlier note in any column the delta is +inf, whatever the list's length. */
  lemma ChordDeltaWithoutPrevious(h: History, note: Note)
    requires RefsOk(h, note.prevHitObjects)
    requires note.prevHitObjects != []
    requires forall k :: 0 <= k < |note.prevHitObjects| ==> note.prevHitObjects[k].None?
    ensures ChordDelta(h, note) == Some(PosInf)
    ensures ChordBpm(PosInf) == 0.0
  {
    var m := MinShiftedStart(h, note.prevHitObjects, GraceNoteTolerance);
    var k :| 0 <= k < |note.prevHitObjects| && m.value == ShiftedStart(h, note.prevHitObjects[k], GraceNoteTolerance);
    assert m.value == PosInf;
  }

  /** `CurrHitObjects.Count(obj => obj is not null)` */
  function ChordSize(objs: seq<Option<nat>>): (r: nat)
    ensures r <= |objs|
  {
    if objs == [] then 0
    else ChordSize(objs[..|objs| - 1]) + (if objs[|objs| - 1].Some? then 1 else 0)
  }

  /** The notes of a chord that have a previous note in their own column. */
  function CountWithPrevInColumn(h: History, objs: seq<Option<nat>>): nat
    requires RefsOk(h, objs)
  {
    if objs == [] then 0
    else
      assert RefsOk(h, objs[..|objs| - 1]);
      var last := objs[|objs| - 1];
      CountWithPrevInColumn(h, objs[..|objs| - 1]) + (if last.Some? && h[last.value].prevInColumn.Some? then 1 else 0)
  }

  /** The note at `k` repeats its column within `deltaTime + tolerance` of its predecessor there. */
  predicate IsJack(h: History, k: nat, deltaTime: Ext, tolerance: real)
    requires WellFormed(h) && k < |h|
    ensures deltaTime == PosInf ==> (IsJack(h, k, deltaTime, tolerance) <==> h[k].prevInColumn.Some?)
    ensures deltaTime == NegInf ==> !IsJack(h, k, deltaTime, tolerance)
  {
    assert NoteRefsOk(h, h[k]);
    h[k].prevInColumn.Some? &&
    ExtLe(Finite(h[k].startTime - h[h[k].prevInColumn.value].startTime), ExtPlus(deltaTime, tolerance))
  }

  /** The jacks among `objs`; each of them has a previous note in its column. */
  function JackCount(h: History, objs: seq<Option<nat>>, deltaTime: Ext, tolerance: real): (r: nat)
    requires WellFormed(h) && RefsOk(h, objs)
    ensures r <= CountWithPrevInColumn(h, objs)
  {
    if objs == [] then 0
    else
      assert RefsOk(h, objs[..|objs| - 1]);
      var last := objs[|objs| - 1];
      JackCount(h, objs[..|objs| - 1], deltaTime, tolerance) + (if last.Some? && IsJack(h, last.value, deltaTime, tolerance) then 1 else 0)
  }

  /** `FindJackCountInChord`: the notes of the chord that are jacks. */
  function FindJackCountInChord(h: History, note: Note, deltaTime: Ext, tolerance: real): (r: nat)
    requires WellFormed(h) && RefsOk(h, note.currHitObjects)
    ensures r <= CountWithPrevInColumn(h, note.currHitObjects) <= ChordSize(note.currHitObjects)
  {
    JackCountBounds(h, note.currHitObjects, deltaTime, tolerance);
    JackCount(h, note.currHitObjects, deltaTime, tolerance)
  }

  /** Only notes with a previous note in their column are counted, so jacks never exceed the chord size. */
  lemma {:induction false} JackCountBounds(h: History, objs: seq<Option<nat>>, deltaTime: Ext, tolerance: real)
    requires WellFormed(h) && RefsOk(h, objs)
    ensures JackCount(h, objs, deltaTime, tolerance) <= CountWithPrevInColumn(h, objs) <= ChordSize(objs)
  {
    if objs != [] {
      assert RefsOk(h, objs[..|objs| - 1]);
      JackCountBounds(h, objs[..|objs| - 1], deltaTime, tolerance);
    }
  }

  lemma JackCountInChordBounds(h: History, note: Note, deltaTime: Ext, tolerance: real)
    requires WellFormed(h) && RefsOk(h, note.currHitObjects)
    ensures FindJackCountInChord(h, note, deltaTime, tolerance) <= CountWithPrevInColumn(h, note.currHitObjects)
    ensures FindJackCountInChord(h, note, deltaTime, tolerance) <= ChordSize(note.currHitObjects)
  {
    JackCountBounds(h, note.currHitObjects, deltaTime, tolerance);
  }

  /** A wider threshold `deltaTime + tolerance` never finds fewer jacks. */
  lemma {:induction false} JackCountMonotone(h: History, objs: seq<Option<nat>>, d1: Ext, t1: real, d2: Ext, t2: real)
    requires WellFormed(h) && RefsOk(h, objs)
    requires ExtLe(ExtPlus(d1, t1), ExtPlus(d2, t2))
    ensures JackCount(h, objs, d1, t1) <= JackCount(h, objs, d2, t2)
  {
    if objs != [] {
      assert RefsOk(h, objs[..|objs| - 1]);
      JackCountMonotone(h, objs[..|objs| - 1], d1, t1, d2, t2);
      ExtLeIsTransitive();
    }
  }

  /** `15000.0 / chordDelta`: the jack BPM in half notes. */
  function ChordBpm(chordDelta: Ext): (r: real)
    requires chordDelta == PosInf || (chordDelta.Finite? && chordDelta.v > 0.0)
    ensures r >= 0.0
    ensures r == 0.0 <==> chordDelta == PosInf
  {
    Div15000(chordDelta)
  }

  /**
   * `bpm * Math.Pow(bpm / 240, 0.16)`. `Math.Pow` of a negative base and a non-integer
   * exponent is NaN, and so is the product.
   */
  function ChordBpmScale(m: Transcendental, bpm: real): (r: Eval)
    ensures r.EmptySequence? == false
    ensures r.NotANumber? <==> bpm < 0.0
    ensures bpm == 0.0 ==> r == Score(0.0)
    ensures Plausible(m) && bpm >= 0.0 ==> r.Score? && r.value >= 0.0
  {
    if bpm < 0.0 then NotANumber else Score(bpm * m.pow(bpm / 240.0, 0.16))
  }

  /** `jackCount / (double)chordSize`; `None` for the NaN of 0 / 0. */
  function JackDensity(jackCount: nat, chordSize: nat): (r: Option<real>)
    requires jackCount <= chordSize
    ensures r.None? <==> chordSize == 0
    ensures r.Some? ==> 0.0 <= r.value <= 1.0
    ensures r.Some? ==> (r.value == 0.0 <==> jackCount == 0) && (r.value == 1.0 <==> jackCount == chordSize)
  {
    if chordSize == 0 then None else Some(jackCount as real / chordSize as real)
  }

  /** `ChordEvaluator.EvaluateDifficultyOf` for the note at index `i`. */
  function EvaluateDifficultyOf(h: History, i: nat, m: Transcendental): (r: Eval)
    requires WellFormed(h) && i < |h|
    ensures r.EmptySequence? <==> h[i].prevHitObjects == []
    ensures r.NotANumber? <==> h[i].prevHitObjects != [] && ChordSize(h[i].currHitObjects) == 0
    ensures Plausible(m) && r.Score? ==> r.value >= 0.0
  {
    var note := h[i];
    assert NoteRefsOk(h, note);
    match ChordDelta(h, note)
    case None => EmptySequence
    case Some(chordDelta) =>
      var chordSize := ChordSize(note.currHitObjects);
      var jackCount := FindJackCountInChord(h, note, chordDelta, GraceNoteTolerance);
      JackCountInChordBounds(h, note, chordDelta, GraceNoteTolerance);
      var chordBpm := ChordBpm(chordDelta);
      var scaledChordBpmFactor := ChordBpmScale(m, chordBpm).value;
      var scaledTrillBpmFactor := 0.1 * ChordBpmScale(m, chordBpm).value;
      match JackDensity(jackCount, chordSize)
      case None => NotANumber
      case Some(jackDensity) =>
        var jackVal := jackDensity * jackCount as real * scaledChordBpmFactor;
        var trillVal := 0.0 * (1.0 - jackDensity) * (chordSize - jackCount) as real * scaledTrillBpmFactor;
        NonNegativeProduct(jackDensity, jackCount as real, scaledChordBpmFactor, m, chordBpm);
        Score(ChordScaleFactor * (jackVal + trillVal))
  }

  lemma NonNegativeProduct(a: real, b: real, c: real, m: Transcendental, bpm: real)
    requires a >= 0.0 && b >= 0.0 && (Plausible(m) && bpm >= 0.0 ==> c >= 0.0) && bpm >= 0.0
    ensures Plausible(m) ==> ChordScaleFactor * (a * b * c) >= 0.0
  {
    if Plausible(m) {
      assert a * b >= 0.0;
      assert a * b * c >= 0.0;
    }
  }

  /** Because the trill term is multiplied by zero, the score is the jack term alone. */
  lemma ScoreIsJackTermOnly(h: History, i: nat, m: Transcendental)
    requires WellFormed(h) && i < |h|
    requires h[i].prevHitObjects != [] && ChordSize(h[i].currHitObjects) > 0
    ensures var note := h[i];
      var chordDelta := ChordDelta(h, note).value;
      var jackCount := FindJackCountInChord(h, note, chordDelta, GraceNoteTolerance);
      var chordSize := ChordSize(note.currHitObjects);
      EvaluateDifficultyOf(h, i, m) ==
        Score(ChordScaleFactor * ((jackCount as real / chordSize as real) * jackCount as real * ChordBpmScale(m, ChordBpm(chordDelta)).value))
  {
    var note := h[i];
    assert NoteRefsOk(h, note);
    var chordDelta := ChordDelta(h, note).value;
    var jackCount := FindJackCountInChord(h, note, chordDelta, GraceNoteTolerance);
    var chordSize := ChordSize(note.currHitObjects);
    JackCountInChordBounds(h, note, chordDelta, GraceNoteTolerance);
    var density := JackDensity(jackCount, chordSize).value;
    var scale := ChordBpmScale(m, ChordBpm(chordDelta)).value;
    var trill := 0.0 * (1.0 - density) * (chordSize - jackCount) as real * (0.1 * scale);
    assert trill == 0.0;
  }

  /** A chord without jacks scores zero. */
  lemma NoJacksScoresZero(h: History, i: nat, m: Transcendental)
    requires WellFormed(h) && i < |h|
    requires h[i].prevHitObjects != [] && ChordSize(h[i].currHitObjects) > 0
    requires NoteRefsOk(h, h[i]) && FindJackCountInChord(h, h[i], ChordDelta(h, h[i]).value, GraceNoteTolerance) == 0
    ensures EvaluateDifficultyOf(h, i, m) == Score(0.0)
  {
    ScoreIsJackTermOnly(h, i, m);
  }

  /** A note with no earlier note in any column scores zero: its chord BPM is zero. */
  lemma NoPreviousScoresZero(h: History, i: nat, m: Transcendental)
    requires WellFormed(h) && i < |h|
    requires h[i].prevHitObjects != [] && ChordSize(h[i].currHitObjects) > 0
    requires forall k :: 0 <= k < |h[i].prevHitObjects| ==> h[i].prevHitObjects[k].None?
    ensures EvaluateDifficultyOf(h, i, m) == Score(0.0)
  {
    assert NoteRefsOk(h, h[i]);
    ChordDeltaWithoutPrevious(h, h[i]);
    ScoreIsJackTermOnly(h, i, m);
  }
}
