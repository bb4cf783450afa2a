/**
 * `SpeedEvaluator`: the speed difficulty of a note, from the time since the earliest of
 * the previous notes and the length of the stream of chords leading up to it.
 */
module SpeedEvaluator {
  import opened Wrappers
  import opened Numerics
  import opened ManiaObjects
  import ChordEvaluator

  const SpeedFactor: real := 0.16
  const GraceNoteTolerance: real := 6.0

  /**
   * The note delta: current start time minus the minimum of `StartTime + 6` over
   * `PrevHitObjects`. Only a delta of exactly zero becomes +inf; negative deltas and the
   * -inf of an all-null list are kept.
   */
  function NoteDelta(h: History, note: Note): (r: Option<Ext>)
    requires RefsOk(h, note.prevHitObjects)
    ensures r.None? <==> note.prevHitObjects == []
    ensures r.Some? ==> r.value != Finite(0.0)
  {
    match ChordEvaluator.MinShiftedStart(h, note.prevHitObjects, GraceNoteTolerance)
    case None => None
    case Some(m) =>
      var delta := ExtSubtractFrom(note.startTime, m);
      Some(if delta == Finite(0.0) then PosInf else delta)
  }

  /**
   * A finite note delta is the time since the earliest previous note, less the 6 ms grace,
   * whatever its sign; +inf arises only when the earliest previous note starts exactly 6 ms
   * before, and -inf only from an all-null list.
   */
  lemma NoteDeltaCases(h: History, note: Note)
    requires RefsOk(h, note.prevHitObjects)
    ensures var prev := note.prevHitObjects;
      var r := NoteDelta(h, note);
      r.Some? && r.value.Finite? ==>
        (forall k :: 0 <= k < |prev| && prev[k].Some? ==> r.value.v >= note.startTime - (h[prev[k].value].startTime + 6.0)) &&
        (exists k :: 0 <= k < |prev| && prev[k].Some? && r.value.v == note.startTime - (h[prev[k].value].startTime + 6.0))
    ensures var prev := note.prevHitObjects;
      var r := NoteDelta(h, note);
      r.Some? && r.value == NegInf ==> forall k :: 0 <= k < |prev| ==> prev[k].None?
    ensures var prev := note.prevHitObjects;
      var r := NoteDelta(h, note);
      r.Some? && r.value == PosInf ==>
        (exists k :: 0 <= k < |prev| && prev[k].Some? && note.startTime == h[prev[k].value].startTime + 6.0) &&
        (forall k :: 0 <= k < |prev| && prev[k].Some? ==> h[prev[k].value].startTime + 6.0 >= note.startTime)
  {
    var prev := note.prevHitObjects;
    var r := NoteDelta(h, note);
    if r.Some? {
      var m := ChordEvaluator.MinShiftedStart(h, prev, GraceNoteTolerance).value;
      forall k | 0 <= k < |prev|
        ensures ExtLe(m, ChordEvaluator.ShiftedStart(h, prev[k], GraceNoteTolerance))
      {
      }
      var j :| 0 <= j < |prev| && m == ChordEvaluator.ShiftedStart(h, prev[j], GraceNoteTolerance);
      if r.value == NegInf {
        forall k | 0 <= k < |prev| ensures prev[k].None? {
          assert ExtLe(PosInf, ChordEvaluator.ShiftedStart(h, prev[k], GraceNoteTolerance));
        }
      }
    }
  }

  /** The last non-null entry of a list. */
  function LastPresent(objs: seq<Option<nat>>): (r: Option<nat>)
    ensures r.None? <==> forall k :: 0 <= k < |objs| ==> objs[k].None?
    ensures r.Some? ==> r in objs
  {
    if objs == [] then None
    else if objs[|objs| - 1].Some? then objs[|objs| - 1]
    else
      var prefix := objs[..|objs| - 1];
      assert forall k :: 0 <= k < |prefix| ==> prefix[k] == objs[k];
      LastPresent(prefix)
  }

  /** What `LastPresent` finds is followed by null entries only. */
  lemma {:induction false} LastPresentIsLast(objs: seq<Option<nat>>)
    ensures LastPresent(objs).Some? ==>
      exists k :: 0 <= k < |objs| && objs[k] == LastPresent(objs) && forall j :: k < j < |objs| ==> objs[j].None?
  {
    if objs != [] && objs[|objs| - 1].None? {
      var prefix := objs[..|objs| - 1];
      LastPresentIsLast(prefix);
      if LastPresent(prefix).Some? {
        var k :| 0 <= k < |prefix| && prefix[k] == LastPresent(prefix) && forall j :: k < j < |prefix| ==> prefix[j].None?;
        assert objs[k] == LastPresent(objs);
        assert forall j :: k < j < |objs| ==> objs[j].None? by {
          forall j | k < j < |objs|
            ensures objs[j].None?
          {
            if j < |prefix| {
              assert objs[j] == prefix[j];
            }
          }
        }
      }
    }
  }

  /** `GetPreviousChord`: the last non-null entry of `PrevHitObjects`, or null. */
  function GetPreviousChord(h: History, note: Note): (r: Option<nat>)
    requires RefsOk(h, note.prevHitObjects)
    ensures RefOk(h, r)
  {
    LastPresent(note.prevHitObjects)
  }

  /** The chord reached after `k` steps of `GetPreviousChord` from `first`. */
  function PreviousChordAt(h: History, first: Option<nat>, k: nat): (r: Option<nat>)
    requires WellFormed(h) && RefOk(h, first)
    ensures RefOk(h, r)
  {
    if k == 0 then first
    else
      match PreviousChordAt(h, first, k - 1)
      case None => None
      case Some(c) =>
        assert NoteRefsOk(h, h[c]);
        GetPreviousChord(h, h[c])
  }

  /** A chord continues the stream when it exists and holds at most one jack. */
  predicate ExtendsStream(h: History, chord: Option<nat>, noteDelta: Ext)
    requires WellFormed(h) && RefOk(h, chord)
  {
    chord.Some? &&
    (assert NoteRefsOk(h, h[chord.value]);
     ChordEvaluator.FindJackCountInChord(h, h[chord.value], noteDelta, GraceNoteTolerance) <= 1)
  }

  /**
   * `n` is where the stream walk stops: the first `n` chords continue the stream, and
   * either the walk reached `limit` or the next chord is null or has more than one jack.
   */
  ghost predicate IsStreamLength(h: History, first: Option<nat>, noteDelta: Ext, limit: nat, n: nat)
    requires WellFormed(h) && RefOk(h, first)
  {
    n <= limit &&
    (forall k :: 0 <= k < n ==> ExtendsStream(h, PreviousChordAt(h, first, k), noteDelta)) &&
    (n < limit ==> !ExtendsStream(h, PreviousChordAt(h, first, n), noteDelta))
  }

  /** The walk stops at one place only. */
  lemma StreamLengthUnique(h: History, first: Option<nat>, noteDelta: Ext, limit: nat, n1: nat, n2: nat)
    requires WellFormed(h) && RefOk(h, first)
    requires IsStreamLength(h, first, noteDelta, limit, n1) && IsStreamLength(h, first, noteDelta, limit, n2)
    ensures n1 == n2
  {
  }

  /** The `while` loop of `EvaluateDifficultyOf` that counts the notes of the current stream. */
  method CountStream(h: History, first: Option<nat>, noteDelta: Ext, limit: nat) returns (streamCount: nat)
    requires WellFormed(h) && RefOk(h, first)
    ensures IsStreamLength(h, first, noteDelta, limit, streamCount)
  {
    streamCount := 0;
    var prevChord := first;
    while streamCount < limit
      invariant streamCount <= limit
      invariant RefOk(h, prevChord) && prevChord == PreviousChordAt(h, first, streamCount)
      invariant forall k :: 0 <= k < streamCount ==> ExtendsStream(h, PreviousChordAt(h, first, k), noteDelta)
    {
      if prevChord.None? {
        break;
      }
      assert NoteRefsOk(h, h[prevChord.value]);
      if ChordEvaluator.FindJackCountInChord(h, h[prevChord.value], noteDelta, GraceNoteTolerance) > 1 {
        break;
      }
      assert ExtendsStream(h, PreviousChordAt(h, first, streamCount), noteDelta);
      assert PreviousChordAt(h, first, streamCount + 1) == GetPreviousChord(h, h[prevChord.value]);
      prevChord := GetPreviousChord(h, h[prevChord.value]);
      streamCount := streamCount + 1;
    }
  }

  /** `Math.Min(3000, n + n * n / 1000.0)` */
  function StreamStamina(streamCount: nat): (r: real)
    ensures 0.0 <= r <= 3000.0
    ensures var n := streamCount as real; n + n * n / 1000.0 <= 3000.0 ==> r == n + n * n / 1000.0
    ensures var n := streamCount as real; n + n * n / 1000.0 > 3000.0 ==> r == 3000.0
  {
    var n := streamCount as real;
    Min(3000.0, n + n * n / 1000.0)
  }

  /** `1 + Math.Pow(streamStamina, 0.12)` */
  function StaminaBonus(m: Transcendental, streamStamina: real): (r: real)
    ensures Plausible(m) && streamStamina >= 0.0 ==> r >= 1.0
  {
    1.0 + m.pow(streamStamina, 0.12)
  }

  /**
   * `bpm * Math.Pow(bpm / 380, 1.2)`. `Math.Pow` of a negative base and a non-integer
   * exponent is NaN, and so is the product.
   */
  function SpeedBpmScale(m: Transcendental, bpm: real): (r: Eval)
    ensures r.EmptySequence? == false
    ensures r.NotANumber? <==> bpm < 0.0
    ensures bpm == 0.0 ==> r == Score(0.0)
    ensures Plausible(m) && bpm >= 0.0 ==> r.Score? && r.value >= 0.0
  {
    if bpm < 0.0 then NotANumber else Score(bpm * m.pow(bpm / 380.0, 1.2))
  }

  /**
   * The speed score for a note delta and a stream length: NaN exactly when the note delta
   * is finite and negative, so that the speed BPM is negative.
   */
  function SpeedScore(m: Transcendental, noteDelta: Ext, streamCount: nat): (r: Eval)
    requires noteDelta != Finite(0.0)
    ensures r.EmptySequence? == false
    ensures r.NotANumber? <==> noteDelta.Finite? && noteDelta.v < 0.0
    ensures !noteDelta.Finite? ==> r == Score(0.0)
  {
    match SpeedBpmScale(m, Div15000(noteDelta))
    case Score(scale) => Score(SpeedFactor * scale * StaminaBonus(m, StreamStamina(streamCount)))
    case _ => NotANumber
  }

  /** With a positive note delta the score is at least the stamina-free part, and so non-negative. */
  lemma SpeedScoreBounds(m: Transcendental, noteDelta: Ext, streamCount: nat)
    requires Plausible(m) && noteDelta.Finite? && noteDelta.v > 0.0
    ensures SpeedScore(m, noteDelta, streamCount).Score?
    ensures SpeedScore(m, noteDelta, streamCount).value
      >= SpeedFactor * SpeedBpmScale(m, Div15000(noteDelta)).value >= 0.0
  {
    var scale := SpeedBpmScale(m, Div15000(noteDelta)).value;
    var bonus := StaminaBonus(m, StreamStamina(streamCount));
    assert scale >= 0.0 && bonus >= 1.0;
    assert SpeedFactor * scale * bonus >= SpeedFactor * scale * 1.0;
  }

  /** `SpeedEvaluator.EvaluateDifficultyOf` for the note at index `i`. */
  method EvaluateDifficultyOf(h: History, i: nat, m: Transcendental) returns (r: Eval)
    requires WellFormed(h) && i < |h|
    ensures r.EmptySequence? <==> h[i].prevHitObjects == []
    ensures r.NotANumber? <==> (assert NoteRefsOk(h, h[i]);
      var delta := NoteDelta(h, h[i]);
      delta.Some? && delta.value.Finite? && delta.value.v < 0.0)
    ensures !r.EmptySequence? ==> (assert NoteRefsOk(h, h[i]);
      var noteDelta := NoteDelta(h, h[i]).value;
      exists n :: IsStreamLength(h, GetPreviousChord(h, h[i]), noteDelta, h[i].index, n) && r == SpeedScore(m, noteDelta, n))
  {
    var current := h[i];
    assert NoteRefsOk(h, current);
    var delta := NoteDelta(h, current);
    if delta.None? {
      return EmptySequence;
    }
    var noteDelta := delta.value;
    var prevChord := GetPreviousChord(h, current);
    var streamCount := CountStream(h, prevChord, noteDelta, current.index);
    r := SpeedScore(m, noteDelta, streamCount);
  }

  /** A zero note delta (a chord with a note exactly 6 ms earlier) gives speed BPM 0 and so a zero score. */
  lemma ZeroDeltaScoresZero(h: History, note: Note, m: Transcendental, streamCount: nat)
    requires RefsOk(h, note.prevHitObjects)
    requires var min := ChordEvaluator.MinShiftedStart(h, note.prevHitObjects, GraceNoteTolerance);
      min.Some? && ExtSubtractFrom(note.startTime, min.value) == Finite(0.0)
    ensures NoteDelta(h, note) == Some(PosInf)
    ensures SpeedScore(m, PosInf, streamCount) == Score(0.0)
  {
  }
}
