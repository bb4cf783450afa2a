/**
 * The `Strain` skill of osu!mania: per-column decaying strains plus an overall strain,
 * updated note by note by `StrainValueOf`. The decay and shaping formulas go through the
 * uninterpreted `Transcendental` functions; what is proved is the bookkeeping around them.
 */
module StrainSkill {
  import opened Wrappers
  import opened Numerics
  import opened ManiaObjects

  const IndividualDecayBase: real := 0.125
  const OverallDecayBase: real := 0.30

  predicate StrictlyIncreasing(s: seq<real>) {
    forall i, j :: 0 <= i < j < |s| ==> s[i] < s[j]
  }

  /** Adds `x` to a strictly increasing sequence unless it is already there. */
  function Insert(s: seq<real>, x: real): (r: seq<real>)
    requires StrictlyIncreasing(s)
    ensures StrictlyIncreasing(r)
    ensures forall y :: y in r <==> y in s || y == x
  {
    if s == [] then [x]
    else if x < s[0] then [x] + s
    else if x == s[0] then s
    else
      var rest := Insert(s[1..], x);
      forall j | 0 <= j < |rest| ensures s[0] < rest[j] {
        assert rest[j] in rest;
        if rest[j] != x {
          var k :| 0 <= k < |s[1..]| && s[1..][k] == rest[j];
          assert s[k + 1] == rest[j];
        }
      }
      [s[0]] + rest
  }

  /** `new HashSet<double>(a).ToArray()` sorted by `Array.Sort`: the distinct values in increasing order. */
  function SortedDistinct(a: seq<real>): (s: seq<real>)
    ensures StrictlyIncreasing(s)
    ensures forall y :: y in s <==> y in a
  {
    if a == [] then []
    else
      var s := Insert(SortedDistinct(a[..|a| - 1]), a[|a| - 1]);
      assert a == a[..|a| - 1] + [a[|a| - 1]];
      s
  }

  /** `Array.IndexOf`: the first position holding `v`, or -1. */
  function IndexOf(s: seq<real>, v: real): (r: int)
    ensures r >= -1 && (r == -1 <==> v !in s)
    ensures 0 <= r ==> r < |s| && s[r] == v && v !in s[..r]
  {
    if s == [] then -1
    else if s[0] == v then 0
    else
      assert s == [s[0]] + s[1..];
      var k := IndexOf(s[1..], v);
      if k == -1 then -1
      else
        assert s[..k + 1] == [s[0]] + s[1..][..k];
        k + 1
  }

  /** The number of distinct values in `times` below `v`. */
  function CountDistinctBelow(times: seq<real>, v: real): nat {
    |set d | d in times && d < v|
  }

  lemma {:induction false} DistinctCount(s: seq<real>)
    requires StrictlyIncreasing(s)
    ensures |set d | d in s| == |s|
  {
    if s != [] {
      DistinctCount(s[1..]);
      assert (set d | d in s) == {s[0]} + (set d | d in s[1..]);
      assert s[0] !in (set d | d in s[1..]);
    }
  }

  /** In a strictly increasing sequence the position of a value is the number of values below it. */
  lemma PositionIsCountBelow(s: seq<real>, k: nat)
    requires StrictlyIncreasing(s) && k < |s|
    ensures k == CountDistinctBelow(s, s[k])
  {
    assert (set d | d in s && d < s[k]) == (set d | d in s[..k]);
    DistinctCount(s[..k]);
  }

  lemma CountBelowDependsOnValues(s1: seq<real>, s2: seq<real>, v: real)
    requires forall y :: y in s1 <==> y in s2
    ensures CountDistinctBelow(s1, v) == CountDistinctBelow(s2, v)
  {
    assert (set d | d in s1 && d < v) == (set d | d in s2 && d < v);
  }

  /** The rank priority of `StrainValueOf`: one more than the position of `startTimes[column]` among the sorted distinct start times. */
  function RankPriority(times: seq<real>, column: nat): (r: real)
    requires column < |times|
    ensures r >= 1.0
  {
    Max(1.0, 1.0 + IndexOf(SortedDistinct(times), times[column]) as real)
  }

  /** That position is the number of distinct start times below `startTimes[column]`. */
  lemma RankPriorityCountsBelow(times: seq<real>, column: nat)
    requires column < |times|
    ensures RankPriority(times, column) == 1.0 + CountDistinctBelow(times, times[column]) as real
  {
    var s := SortedDistinct(times);
    assert times[column] in s;
    var k := IndexOf(s, times[column]);
    PositionIsCountBelow(s, k);
    CountBelowDependsOnValues(s, times, s[k]);
  }

  /** The running maximum the `foreach` loop of `StrainValueOf` keeps, starting from -1. */
  function LargestBelow(s: seq<real>, t: real): real {
    if s == [] then -1.0
    else
      var p := LargestBelow(s[..|s| - 1], t);
      var d := s[|s| - 1];
      if d > p && d < t then d else p
  }

  /** The loop finds the largest value in (-1, t), or -1 when there is none. */
  lemma {:induction false} LargestBelowIsMaximum(s: seq<real>, t: real)
    ensures var r := LargestBelow(s, t);
      r >= -1.0 && (r == -1.0 || (r in s && r < t)) &&
      forall d :: d in s && -1.0 < d < t ==> d <= r
  {
    if s != [] {
      var init := s[..|s| - 1];
      LargestBelowIsMaximum(init, t);
      assert s == init + [s[|s| - 1]];
    }
  }

  /** Hence it depends only on which values occur, not on their order or repetition. */
  lemma LargestBelowDependsOnValues(s1: seq<real>, s2: seq<real>, t: real)
    requires forall y :: y in s1 <==> y in s2
    ensures LargestBelow(s1, t) == LargestBelow(s2, t)
  {
    LargestBelowIsMaximum(s1, t);
    LargestBelowIsMaximum(s2, t);
  }

  /** `prevStartTime` of `StrainValueOf`: the loop's result, capped at the note's start time. */
  function PrevStartTime(times: seq<real>, startTime: real): (r: real)
    ensures r <= startTime
  {
    var p := LargestBelow(times, startTime);
    if p < startTime then p else startTime
  }

  lemma PrevStartTimeIsLatestEarlier(times: seq<real>, startTime: real)
    ensures var r := PrevStartTime(times, startTime);
      (r == Min(-1.0, startTime) || (r in times && -1.0 < r < startTime)) &&
      forall d :: d in times && -1.0 < d < startTime ==> d <= r
  {
    LargestBelowIsMaximum(times, startTime);
  }

  /**
   * `prevStartTime` as `StrainValueOf` computes it: the `foreach` loop over the sorted
   * distinct copy of `startTimes`, then the cap. It agrees with the same search over the
   * array itself.
   */
  method FindPrevStartTime(startTimes: seq<real>, startTime: real) returns (prevStartTime: real)
    ensures prevStartTime == PrevStartTime(startTimes, startTime)
  {
    var startTimesCopy := SortedDistinct(startTimes);
    prevStartTime := -1.0;
    var k := 0;
    while k < |startTimesCopy|
      invariant 0 <= k <= |startTimesCopy|
      invariant prevStartTime == LargestBelow(startTimesCopy[..k], startTime)
    {
      var d := startTimesCopy[k];
      assert startTimesCopy[..k + 1][..k] == startTimesCopy[..k];
      if d > prevStartTime && d < startTime {
        prevStartTime := d;
      }
      k := k + 1;
    }
    assert startTimesCopy[..k] == startTimesCopy;
    LargestBelowDependsOnValues(startTimesCopy, startTimes, startTime);
    prevStartTime := if prevStartTime < startTime then prevStartTime else startTime;
  }

  /** `Math.Max(DeltaTime, StartTime - prevStartTime)` */
  function ChordDelta(deltaTime: real, startTime: real, prevStartTime: real): (r: real)
    requires prevStartTime <= startTime
    ensures r >= deltaTime && r >= startTime - prevStartTime && r >= 0.0
    ensures r == deltaTime || r == startTime - prevStartTime
  {
    Max(deltaTime, startTime - prevStartTime)
  }

  /** The rank priority reshaped by the note's delta time (the second assignment to `priority`). */
  function TimingPriority(m: Transcendental, priority: real, deltaTime: real): (r: real)
    ensures r >= 1.0
  {
    var shape := (2.0 * m.tanh((deltaTime - 40.0) / 12.0) + m.tanh((12.0 - deltaTime) / 6.0) + 1.0) / 2.0;
    Max(1.0, priority + (m.pow(shape + 1.0, 2.0) - 2.0) / 2.0)
  }

  /** The time over which a column's strain decays: `Math.Max(1, Math.Pow(chordDelta, 1 - log(priority + chordCount - 1) / 52))`. */
  function ColumnDecayTime(m: Transcendental, chordDelta: real, priority: real, chordCount: real): (r: real)
    ensures r >= 1.0
  {
    Max(1.0, m.pow(chordDelta, -(m.log(priority + chordCount - 1.0) / 52.0) + 1.0))
  }

  /** The factor applied to the overall strain before it decays. */
  function OverallStrainFactor(m: Transcendental, chordCount: real): (r: real)
    ensures r >= 0.1
  {
    Max((m.log(Max(1.0, 10.0 - chordCount)) / 100.0) + (1.0 / 1.0065), 0.1)
  }

  /** The per-note increase of the overall strain, between 1 and 1.5 by the range of tanh. */
  function KeyModeBonus(m: Transcendental, calcKeyMode: int): (r: real)
    ensures Plausible(m) ==> 1.0 <= r <= 1.5
  {
    ((1.5 - 1.0) * (m.tanh(4.0 - calcKeyMode as real) + 1.0) / 2.0) + 1.0
  }

  /** The column of `Previous(0)`, or the note's own column when there is none. */
  function PreviousColumn(current: Note, previous: Option<Note>): int {
    match previous
    case None => current.column
    case Some(p) => p.column
  }

  /** `calcKeyMode` after a note: the largest column span seen so far between consecutive notes, plus one. */
  function CalcKeyModeAfter(calcKeyMode: int, current: Note, previous: Option<Note>): (r: int)
    ensures r >= calcKeyMode && r >= 1 + Abs(current.column - PreviousColumn(current, previous))
    ensures r == calcKeyMode || r == 1 + Abs(current.column - PreviousColumn(current, previous))
  {
    var span := 1 + Abs(current.column - PreviousColumn(current, previous));
    if calcKeyMode >= span then calcKeyMode else span
  }

  /** `chordCount` after a note: restarted when the note is more than 30 ms after the previous one, then counted. */
  function ChordCountAfter(chordCount: real, deltaTime: real): (r: real)
    ensures deltaTime > 30.0 ==> r == 2.0
    ensures deltaTime <= 30.0 ==> r == chordCount + 1.0
  {
    (if deltaTime > 30.0 then 1.0 else chordCount) + 1.0
  }

  /** `individualStrains[column]` after the decay and the `calcKeyMode / chordCount` increase. */
  function ColumnStrainAfter(m: Transcendental, columnStrain: real, chordDelta: real, priority: real,
                             chordCount: real, calcKeyMode: int): (r: real)
    requires chordCount >= 1.0
    ensures Plausible(m) && columnStrain >= 0.0 ==> r >= calcKeyMode as real / chordCount
  {
    ApplyDecayNonNegative(m, columnStrain, ColumnDecayTime(m, chordDelta, priority, chordCount), IndividualDecayBase);
    ApplyDecay(m, columnStrain, ColumnDecayTime(m, chordDelta, priority, chordCount), IndividualDecayBase)
      + calcKeyMode as real / chordCount
  }

  /** `overallStrain` after the clamped decay and the key-mode increase. */
  function OverallStrainAfter(m: Transcendental, overallStrain: real, chordCount: real, deltaTime: real, calcKeyMode: int): (r: real)
    ensures r >= KeyModeBonus(m, calcKeyMode)
  {
    Max(0.0, ApplyDecay(m, overallStrain * OverallStrainFactor(m, chordCount), deltaTime, OverallDecayBase))
      + KeyModeBonus(m, calcKeyMode)
  }

  /** The state a `Strain` skill carries from one note to the next. */
  datatype StrainState = StrainState(
    startTimes: seq<real>,
    endTimes: seq<real>,
    individualStrains: seq<real>,
    individualStrain: real,
    overallStrain: real,
    chordCount: real,
    calcKeyMode: int)

  /** The per-column sequences have one entry per column, and the counters start at 1. */
  predicate Consistent(s: StrainState, keymode: nat) {
    |s.startTimes| == keymode && |s.endTimes| == keymode && |s.individualStrains| == keymode
    && s.chordCount >= 1.0 && s.calcKeyMode >= 1
  }

  /**
   * What one `StrainValueOf` call does to the state: the note's column gets a new strain,
   * start time and end time computed from the old start times; every other column is left
   * alone; the counters move on and the overall strain decays and grows.
   */
  function Next(s: StrainState, current: Note, previous: Option<Note>, m: Transcendental): (r: StrainState)
    requires Consistent(s, |s.startTimes|) && 0 <= current.column < |s.startTimes|
    ensures Consistent(r, |s.startTimes|)
    ensures r.startTimes == s.startTimes[current.column := current.startTime]
    ensures r.endTimes == s.endTimes[current.column := current.endTime]
    ensures forall c :: 0 <= c < |s.individualStrains| && c != current.column ==>
      r.individualStrains[c] == s.individualStrains[c]
    ensures r.calcKeyMode == CalcKeyModeAfter(s.calcKeyMode, current, previous)
    ensures r.chordCount == ChordCountAfter(s.chordCount, current.deltaTime) && r.chordCount >= 2.0
    ensures r.individualStrain >= r.individualStrains[current.column]
    ensures current.deltaTime > 1.0 ==> r.individualStrain == r.individualStrains[current.column]
    ensures current.deltaTime <= 1.0 ==> r.individualStrain == Max(s.individualStrain, r.individualStrains[current.column])
    ensures r.overallStrain >= KeyModeBonus(m, r.calcKeyMode)
  {
    var column := current.column;
    var calcKeyMode := CalcKeyModeAfter(s.calcKeyMode, current, previous);
    var prevStartTime := PrevStartTime(s.startTimes, current.startTime);
    var chordDelta := ChordDelta(current.deltaTime, current.startTime, prevStartTime);
    var chordCount := ChordCountAfter(s.chordCount, current.deltaTime);
    var priority := TimingPriority(m, RankPriority(s.startTimes, column), current.deltaTime);
    var columnStrain := ColumnStrainAfter(m, s.individualStrains[column], chordDelta, priority, chordCount, calcKeyMode);
    StrainState(
      s.startTimes[column := current.startTime],
      s.endTimes[column := current.endTime],
      s.individualStrains[column := columnStrain],
      if current.deltaTime <= 1.0 then Max(s.individualStrain, columnStrain) else columnStrain,
      OverallStrainAfter(m, s.overallStrain, chordCount, current.deltaTime, calcKeyMode),
      chordCount,
      calcKeyMode)
  }

  /**
   * The new column strain is the old one decayed over a time that depends on the gap to the
   * latest earlier start time in any column and on the rank of this column's previous start
   * time, plus `calcKeyMode / chordCount`.
   */
  lemma NextColumnStrain(s: StrainState, current: Note, previous: Option<Note>, m: Transcendental)
    requires Consistent(s, |s.startTimes|) && 0 <= current.column < |s.startTimes|
    ensures var r := Next(s, current, previous, m);
      var chordDelta := ChordDelta(current.deltaTime, current.startTime, PrevStartTime(s.startTimes, current.startTime));
      var priority := TimingPriority(m, 1.0 + CountDistinctBelow(s.startTimes, s.startTimes[current.column]) as real,
                                     current.deltaTime);
      r.individualStrains[current.column]
        == ApplyDecay(m, s.individualStrains[current.column],
                      ColumnDecayTime(m, chordDelta, priority, r.chordCount), IndividualDecayBase)
           + r.calcKeyMode as real / r.chordCount
  {
    RankPriorityCountsBelow(s.startTimes, current.column);
  }

  /** With plausible transcendental functions the overall strain grows by between 1 and 1.5 over its decayed value. */
  lemma NextOverallStrainRange(s: StrainState, current: Note, previous: Option<Note>, m: Transcendental)
    requires Consistent(s, |s.startTimes|) && 0 <= current.column < |s.startTimes|
    requires Plausible(m) && s.overallStrain >= 0.0
    ensures 1.0 <= Next(s, current, previous, m).overallStrain
  {
    assert 1.0 <= KeyModeBonus(m, Next(s, current, previous, m).calcKeyMode);
  }

  class Strain {
    const startTimes: array<real>
    const endTimes: array<real>
    const individualStrains: array<real>
    var individualStrain: real
    var overallStrain: real
    var chordCount: real
    var calcKeyMode: int
    var keymode: nat

    predicate Valid()
      reads this, startTimes, endTimes, individualStrains
    {
      startTimes != endTimes && startTimes != individualStrains && endTimes != individualStrains
      && Consistent(State(), keymode)
    }

    /** The skill's state as a value. */
    function State(): StrainState
      reads this, startTimes, endTimes, individualStrains
    {
      StrainState(startTimes[..], endTimes[..], individualStrains[..], individualStrain, overallStrain, chordCount, calcKeyMode)
    }

    constructor (totalColumns: nat)
      ensures Valid() && fresh(startTimes) && fresh(endTimes) && fresh(individualStrains)
      ensures keymode == totalColumns
      ensures State() == StrainState(seq(totalColumns, _ => 0.0), seq(totalColumns, _ => 0.0),
                                     seq(totalColumns, _ => 0.0), 0.0, 1.0, 1.0, 1)
    {
      startTimes := new real[totalColumns](_ => 0.0);
      endTimes := new real[totalColumns](_ => 0.0);
      individualStrains := new real[totalColumns](_ => 0.0);
      individualStrain := 0.0;
      overallStrain := 1.0;
      chordCount := 1.0;
      calcKeyMode := 1;
      keymode := totalColumns;
    }

    /**
     * `StrainValueOf` for `current`, whose `Previous(0)` is `previous`; `currentStrain` is the
     * base class's `CurrentStrain`, which this model does not compute.
     */
    method StrainValueOf(current: Note, previous: Option<Note>, m: Transcendental, currentStrain: real) returns (r: real)
      requires Valid() && 0 <= current.column < keymode
      modifies this, startTimes, endTimes, individualStrains
      ensures Valid() && keymode == old(keymode)
      ensures State() == Next(old(State()), current, previous, m)
      ensures r == individualStrain + overallStrain - currentStrain
    {
      ghost var s0 := State();
      ghost var n := Next(s0, current, previous, m);
      var column := current.column;
      var times := startTimes[..];
      var newCalcKeyMode := CalcKeyModeAfter(calcKeyMode, current, previous);

      var priority := RankPriority(times, column);
      var prevStartTime := FindPrevStartTime(times, current.startTime);
      var chordDelta := ChordDelta(current.deltaTime, current.startTime, prevStartTime);

      var newChordCount := chordCount;
      if current.deltaTime > 30.0 {
        newChordCount := 1.0;
      }
      newChordCount := newChordCount + 1.0;

      priority := TimingPriority(m, priority, current.deltaTime);

      var columnStrain := ColumnStrainAfter(m, individualStrains[column], chordDelta, priority, newChordCount, newCalcKeyMode);
      individualStrain := if current.deltaTime <= 1.0 then Max(individualStrain, columnStrain) else columnStrain;
      overallStrain := OverallStrainAfter(m, overallStrain, newChordCount, current.deltaTime, newCalcKeyMode);
      chordCount := newChordCount;
      calcKeyMode := newCalcKeyMode;

      StoreColumn(column, columnStrain, current.startTime, current.endTime);

      assert State() == n by {
        assert individualStrains[..] == n.individualStrains;
        assert startTimes[..] == n.startTimes;
        assert endTimes[..] == n.endTimes;
      }
      r := individualStrain + overallStrain - currentStrain;
    }

    /**
     * `CalculateInitialStrain`: the strain at `offset`, both strains decayed over the time since
     * `Previous(0)` started at `previousStartTime`.
     */
    function CalculateInitialStrain(m: Transcendental, offset: real, previousStartTime: real): (r: real)
      reads this
      ensures Plausible(m) && individualStrain >= 0.0 && overallStrain >= 0.0 ==> r >= 0.0
    {
      ApplyDecayNonNegative(m, individualStrain, offset - previousStartTime, IndividualDecayBase);
      ApplyDecayNonNegative(m, overallStrain, offset - previousStartTime, OverallDecayBase);
      ApplyDecay(m, individualStrain, offset - previousStartTime, IndividualDecayBase)
        + ApplyDecay(m, overallStrain, offset - previousStartTime, OverallDecayBase)
    }

    /** Writes one column's strain, start time and end time. */
    method StoreColumn(column: nat, strain: real, startTime: real, endTime: real)
      requires Valid() && column < keymode
      modifies startTimes, endTimes, individualStrains
      ensures Valid()
      ensures individualStrains[..] == old(individualStrains[..])[column := strain]
      ensures startTimes[..] == old(startTimes[..])[column := startTime]
      ensures endTimes[..] == old(endTimes[..])[column := endTime]
    {
      individualStrains[column] := strain;
      startTimes[column] := startTime;
      endTimes[column] := endTime;
    }
  }
}
