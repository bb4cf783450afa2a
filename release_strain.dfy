/**
 * The osu!mania release skill: long-note bodies held in other columns while a note is
 * played make that note harder. Each column remembers the last note played in it; a step
 * scores the current note against those remembered notes and then stores it.
 */
module ReleaseStrainSkill {
  import opened Wrappers
  import opened Numerics
  import opened ManiaObjects

  const LnDecayBase: real := 0.24
  const OverallDecayBase: real := 0.30
  const NoodleBuff: real := 1.40
  const RollThreshold: real := 0.1
  const KeymodeScaling: real := 4.5

  /**
   * `getHand`: 0 for the left hand, 1 for the right hand, 0.5 for the middle column of an
   * odd key count. `Math.Ceiling(keymode / 2.0)` is `(keymode + 1) / 2` on naturals and
   * `column < keymode / 2.0` is `2 * column < keymode`.
   */
  function GetHand(keymode: nat, column: int): (r: real)
    ensures r == 0.0 || r == 0.5 || r == 1.0
    ensures r == 0.5 <==> keymode % 2 == 1 && column == (keymode + 1) / 2
    ensures r == 0.0 <==> !(keymode % 2 == 1 && column == (keymode + 1) / 2) && 2 * column < keymode
  {
    if column == (keymode + 1) / 2 && keymode % 2 == 1 then 0.5
    else if 2 * column < keymode then 0.0
    else 1.0
  }

  /** With an even key count every column belongs to a hand. */
  lemma EvenKeymodeHasNoMiddle(keymode: nat, column: int)
    requires keymode % 2 == 0
    ensures GetHand(keymode, column) != 0.5
  {
  }

  /**
   * The documented examples (4k 2nd column 0, 4k 3rd column 1, 9k 5th column 0.5, 9k 2nd
   * column 0, 9k 9th column 1) fit no single numbering of the columns. On columns counted
   * from 0 both 4k examples hold, but the 9k 5th column (index 4) is a left-hand column.
   * On columns counted from 1 all three 9k examples hold, but the 4k 2nd column is a
   * right-hand column.
   */
  lemma GetHandOnDocumentedColumns()
    ensures GetHand(4, 1) == 0.0 && GetHand(4, 2) == 1.0
    ensures GetHand(9, 4) == 0.0 && GetHand(9, 5) == 0.5
    ensures GetHand(9, 2) == 0.0 && GetHand(9, 9) == 1.0
    ensures GetHand(4, 2) != 0.0 && GetHand(4, 3) == 1.0
  {
  }

  /** `isLN`: the base object is a hold note. */
  predicate IsLN(n: Note) {
    n.isHoldNote
  }

  /**
   * The cached `note` is a long-note body still held while `obj` is played: it ends more
   * than 1 ms after `obj` starts, more than 1 ms before `obj` ends, and started more than
   * 1 ms before `obj`.
   */
  predicate Overlaps(note: Note, obj: Note)
    ensures Overlaps(note, obj) ==> IsLN(note) && note.startTime < obj.startTime < note.endTime < obj.endTime
  {
    IsLN(note)
    && DefinitelyBigger(note.endTime, obj.startTime, 1.0)
    && DefinitelyBigger(obj.endTime, note.endTime, 1.0)
    && DefinitelyBigger(obj.startTime, note.startTime, 1.0)
  }

  /** `noteHand == hand || noteHand == 0.5 || hand == 0.5` */
  predicate SameHand(keymode: nat, column: int, noteColumn: int) {
    var hand := GetHand(keymode, column);
    var noteHand := GetHand(keymode, noteColumn);
    noteHand == hand || noteHand == 0.5 || hand == 0.5
  }

  /** A cache entry that counts towards the same-hand totals for `obj`. */
  predicate Contributes(keymode: nat, note: Note, obj: Note) {
    Overlaps(note, obj) && SameHand(keymode, obj.column, note.column)
  }

  /** `concurrentNotes`: the non-null cache entries. */
  function ConcurrentNotes(cache: seq<Option<Note>>): (r: nat)
    ensures r <= |cache|
  {
    if |cache| == 0 then 0
    else ConcurrentNotes(cache[..|cache| - 1]) + (if cache[|cache| - 1].Some? then 1 else 0)
  }

  /** `concurrentNotesOnSameHand`: the entries that are held and on the same hand as `obj`. */
  function SameHandOverlaps(keymode: nat, cache: seq<Option<Note>>, obj: Note): nat {
    if |cache| == 0 then 0
    else
      var last := cache[|cache| - 1];
      SameHandOverlaps(keymode, cache[..|cache| - 1], obj)
        + (if last.Some? && Contributes(keymode, last.value, obj) then 1 else 0)
  }

  /** `totalDistance`: the column distances from `obj` to those entries. */
  function TotalDistance(keymode: nat, cache: seq<Option<Note>>, obj: Note): nat {
    if |cache| == 0 then 0
    else
      var last := cache[|cache| - 1];
      TotalDistance(keymode, cache[..|cache| - 1], obj)
        + (if last.Some? && Contributes(keymode, last.value, obj) then Abs(obj.column - last.value.column) else 0)
  }

  /** Every cached note sits in the slot of its own column. */
  predicate CachedAtOwnColumns(cache: seq<Option<Note>>) {
    forall c :: 0 <= c < |cache| && cache[c].Some? ==> cache[c].value.column == c
  }

  /** Same-hand overlaps are among the non-null entries. */
  lemma {:induction false} SameHandWithinConcurrent(keymode: nat, cache: seq<Option<Note>>, obj: Note)
    ensures SameHandOverlaps(keymode, cache, obj) <= ConcurrentNotes(cache)
  {
    if |cache| > 0 {
      SameHandWithinConcurrent(keymode, cache[..|cache| - 1], obj);
    }
  }

  /**
   * With every cached note at its own column and `obj` in range, each contributing entry
   * is at most `keymode - 1` columns away.
   */
  lemma {:induction false} TotalDistanceBound(keymode: nat, cache: seq<Option<Note>>, obj: Note)
    requires |cache| <= keymode && CachedAtOwnColumns(cache)
    requires 0 <= obj.column < keymode
    ensures TotalDistance(keymode, cache, obj) <= (keymode - 1) * SameHandOverlaps(keymode, cache, obj)
  {
    if |cache| > 0 {
      var prefix := cache[..|cache| - 1];
      assert CachedAtOwnColumns(prefix) by {
        forall c | 0 <= c < |prefix| && prefix[c].Some?
          ensures prefix[c].value.column == c
        {
          assert prefix[c] == cache[c];
        }
      }
      TotalDistanceBound(keymode, prefix, obj);
      var last := cache[|cache| - 1];
      var k1 := keymode - 1;
      var before := SameHandOverlaps(keymode, prefix, obj);
      if last.Some? && Contributes(keymode, last.value, obj) {
        assert last.value.column == |cache| - 1;
        assert Abs(obj.column - last.value.column) <= k1;
        assert k1 * (before + 1) == k1 * before + k1;
      }
    }
  }

  /** No same-hand overlap means no distance was added. */
  lemma {:induction false} NoOverlapNoDistance(keymode: nat, cache: seq<Option<Note>>, obj: Note)
    requires SameHandOverlaps(keymode, cache, obj) == 0
    ensures TotalDistance(keymode, cache, obj) == 0
  {
    if |cache| > 0 {
      NoOverlapNoDistance(keymode, cache[..|cache| - 1], obj);
    }
  }

  /** The counter bounds of `coolFunction` on a consistent cache. */
  lemma OverlapCounts(keymode: nat, cache: seq<Option<Note>>, obj: Note)
    requires |cache| == keymode && CachedAtOwnColumns(cache)
    requires 0 <= obj.column < keymode
    ensures SameHandOverlaps(keymode, cache, obj) <= ConcurrentNotes(cache) <= keymode
    ensures TotalDistance(keymode, cache, obj) <= (keymode - 1) * SameHandOverlaps(keymode, cache, obj)
  {
    SameHandWithinConcurrent(keymode, cache, obj);
    TotalDistanceBound(keymode, cache, obj);
  }

  /**
   * The value `coolFunction` returns from its three counters. When the rolled distance
   * `averageDistance - 0.1` is not positive its reciprocal is +infinity in IEEE arithmetic,
   * so `4.5 / (1 + 1 / 0)` is 0; that case is written out. The always-zero `bonus` is
   * dropped.
   */
  function CoolValue(totalDistance: nat, sameHand: nat, concurrent: nat): (r: real)
    ensures 0.0 <= r < KeymodeScaling
    ensures r == 0.0 <==> totalDistance as real / Max(1.0, sameHand as real) <= RollThreshold
  {
    var averageDistance := totalDistance as real / Max(1.0, sameHand as real);
    var rolled := Max(0.0, averageDistance - RollThreshold);
    var scaled := if rolled == 0.0 then 0.0 else KeymodeScaling / (1.0 + 1.0 / rolled);
    RolledScaleBelowCap(rolled);
    ShareOfConcurrent(Max(0.0, scaled), Max(1.0, concurrent as real));
    Max(0.0, scaled) / Max(1.0, concurrent as real)
  }

  /** `4.5 / (1 + 1 / x)` lies strictly between 0 and 4.5 for positive `x`. */
  lemma RolledScaleBelowCap(rolled: real)
    ensures rolled > 0.0 ==> 0.0 < KeymodeScaling / (1.0 + 1.0 / rolled) < KeymodeScaling
  {
    if rolled > 0.0 {
      var d := 1.0 + 1.0 / rolled;
      assert 1.0 / rolled > 0.0;
      assert d > 1.0;
      var q := KeymodeScaling / d;
      assert q * d == KeymodeScaling;
    }
  }

  /** Dividing by at least 1 keeps a non-negative value below its cap and zero only at zero. */
  lemma ShareOfConcurrent(x: real, c: real)
    requires 0.0 <= x < KeymodeScaling && c >= 1.0
    ensures 0.0 <= x / c <= x && (x / c == 0.0 <==> x == 0.0)
  {
    var q := x / c;
    assert q * c == x;
  }

  class ReleaseStrain {
    const keymode: nat
    const lnStrains: array<real>
    const lnBuffNoteCache: array<Option<Note>>
    var lnStrain: real
    var overallStrain: real

    predicate Valid()
      reads this, lnBuffNoteCache
    {
      lnStrains.Length == keymode && lnBuffNoteCache.Length == keymode
      && CachedAtOwnColumns(lnBuffNoteCache[..])
    }

    /** The strains never go negative while the decay factors are non-negative. */
    predicate NonNegative()
      reads this, lnStrains
    {
      lnStrain >= 0.0 && overallStrain >= 0.0
      && forall c :: 0 <= c < lnStrains.Length ==> lnStrains[c] >= 0.0
    }

    constructor (totalColumns: nat)
      ensures Valid() && NonNegative() && fresh(lnStrains) && fresh(lnBuffNoteCache)
      ensures keymode == totalColumns
      ensures lnStrains[..] == seq(totalColumns, _ => 0.0)
      ensures lnBuffNoteCache[..] == seq(totalColumns, _ => None)
      ensures lnStrain == 0.0 && overallStrain == 1.0
    {
      keymode := totalColumns;
      lnStrains := new real[totalColumns](_ => 0.0);
      lnBuffNoteCache := new Option<Note>[totalColumns](_ => None);
      lnStrain := 0.0;
      overallStrain := 1.0;
    }

    /** `coolFunction`: one pass over the cache, counting and scoring the held bodies. */
    method CoolFunction(obj: Note) returns (r: real)
      requires Valid()
      ensures r == CoolValue(TotalDistance(keymode, lnBuffNoteCache[..], obj),
                             SameHandOverlaps(keymode, lnBuffNoteCache[..], obj),
                             ConcurrentNotes(lnBuffNoteCache[..]))
    {
      var hand := GetHand(keymode, obj.column);
      var totalDistance: nat := 0;
      var concurrentNotesOnSameHand: nat := 0;
      var concurrentNotes: nat := 0;
      for i := 0 to lnBuffNoteCache.Length
        invariant totalDistance == TotalDistance(keymode, lnBuffNoteCache[..i], obj)
        invariant concurrentNotesOnSameHand == SameHandOverlaps(keymode, lnBuffNoteCache[..i], obj)
        invariant concurrentNotes == ConcurrentNotes(lnBuffNoteCache[..i])
      {
        assert lnBuffNoteCache[..i + 1][..i] == lnBuffNoteCache[..i];
        var entry := lnBuffNoteCache[i];
        if entry.None? {
          continue;
        }
        var note := entry.value;
        concurrentNotes := concurrentNotes + 1;
        if IsLN(note) && DefinitelyBigger(note.endTime, obj.startTime, 1.0)
           && DefinitelyBigger(obj.endTime, note.endTime, 1.0)
           && DefinitelyBigger(obj.startTime, note.startTime, 1.0)
        {
          var noteHand := GetHand(keymode, note.column);
          if noteHand == hand || noteHand == 0.5 || hand == 0.5 {
            concurrentNotesOnSameHand := concurrentNotesOnSameHand + 1;
            totalDistance := totalDistance + Abs(obj.column - note.column);
          }
        }
      }
      assert lnBuffNoteCache[..lnBuffNoteCache.Length] == lnBuffNoteCache[..];
      var averageDistance := totalDistance as real / Max(1.0, concurrentNotesOnSameHand as real);
      var rolled := Max(0.0, averageDistance - RollThreshold);
      var scaled := if rolled == 0.0 then 0.0 else KeymodeScaling / (1.0 + 1.0 / rolled);
      r := Max(0.0, scaled) / Max(1.0, concurrentNotes as real);
    }

    /**
     * `StrainValueOf` for `current`; `currentStrain` is the base class's `CurrentStrain`,
     * which this model does not compute.
     */
    method StrainValueOf(current: Note, m: Transcendental, currentStrain: real) returns (r: real)
      requires Valid() && 0 <= current.column < keymode
      modifies this, lnStrains, lnBuffNoteCache
      ensures Valid()
      ensures lnStrain == NoodleBuff * CoolValue(TotalDistance(keymode, old(lnBuffNoteCache[..]), current),
                                                 SameHandOverlaps(keymode, old(lnBuffNoteCache[..]), current),
                                                 ConcurrentNotes(old(lnBuffNoteCache[..])))
      ensures lnStrains[..] == old(lnStrains[..])[current.column :=
        ApplyDecay(m, lnStrain, current.deltaTime, LnDecayBase) + lnStrain]
      ensures lnBuffNoteCache[..] == old(lnBuffNoteCache[..])[current.column := Some(current)]
      ensures overallStrain == ApplyDecay(m, old(overallStrain), current.deltaTime, OverallDecayBase)
                               + (if IsLN(current) then lnStrain else 0.0)
      ensures r == lnStrain + overallStrain - currentStrain
      ensures Plausible(m) && old(NonNegative()) ==> NonNegative()
    {
      var column := current.column;
      var cool := CoolFunction(current);
      lnStrain := NoodleBuff * cool;

      lnStrains[column] := ApplyDecay(m, lnStrain, current.deltaTime, LnDecayBase);
      lnStrains[column] := lnStrains[column] + lnStrain;

      lnBuffNoteCache[column] := Some(current);

      overallStrain := ApplyDecay(m, overallStrain, current.deltaTime, OverallDecayBase);
      overallStrain := overallStrain + lnStrain * (if IsLN(current) then 1.0 else 0.0);

      r := lnStrain + overallStrain - currentStrain;

      if Plausible(m) && old(NonNegative()) {
        ApplyDecayNonNegative(m, lnStrain, current.deltaTime, LnDecayBase);
        ApplyDecayNonNegative(m, old(overallStrain), current.deltaTime, OverallDecayBase);
      }
    }

    /**
     * `CalculateInitialStrain`: the long-note strain decayed over the time since `Previous(0)`
     * started at `previousStartTime` (the overall strain does not take part).
     */
    function CalculateInitialStrain(m: Transcendental, offset: real, previousStartTime: real): (r: real)
      reads this
      ensures Plausible(m) && lnStrain >= 0.0 ==> r >= 0.0
    {
      ApplyDecayNonNegative(m, lnStrain, offset - previousStartTime, LnDecayBase);
      ApplyDecay(m, lnStrain, offset - previousStartTime, LnDecayBase)
    }
  }

  /** `lnStrain` stays below `1.4 * 4.5` and never goes negative. */
  lemma LnStrainBounds(totalDistance: nat, sameHand: nat, concurrent: nat)
    ensures 0.0 <= NoodleBuff * CoolValue(totalDistance, sameHand, concurrent) < NoodleBuff * KeymodeScaling
  {
  }
}
