# osu!mania difficulty core, modelled in Dafny

This project models part of the osu!mania star-rating code in Dafny and proves properties of it:

- the timing windows (`DiffHitWindows`);
- the chord and speed evaluators;
- the `Strain` and `ReleaseStrain` skills.

It also models the heatmap skill of the Touhosu ruleset. Every difficulty object is a `Note` value in an immutable sequence (`ManiaObjects.History`). The nullable references between difficulty objects are optional indices into that sequence.

C# `double` is modelled as `real`. The infinities the evaluators produce are explicit (`Numerics.Ext`). Two failure outcomes also have their own values (`Numerics.Eval`):

- NaN, for `0.0 / 0.0` and for `Math.Pow` of a negative base in `ChordEvaluator.ChordBpmScale` and `SpeedEvaluator.SpeedBpmScale`;
- the exception LINQ `Min()` throws on an empty list.

`Math.Pow`, `Math.Tanh` and `Math.Log` are not interpreted. They are fields of a `Numerics.Transcendental` value, and the facts some properties need are collected in `Numerics.Plausible`:

- `pow(x, e) >= 0` when `x >= 0`;
- `-1 <= tanh(x) <= 1`.

The skills whose source changes state in place are classes:

- `StrainSkill.Strain`
- `ReleaseStrainSkill.ReleaseStrain`
- `Heatmap.HeatmapSkill`

Their per-column buffers are arrays, and their loops are `while`/`for` loops. Each loop is proved against a recursive specification function.

- **Strain.** One `StrainValueOf` call is specified by the pure transition `StrainSkill.Next`. The method ensures `State() == Next(old(State()), …)`. That is, it changes exactly the note's column of the three arrays, plus the four scalars.
- **ReleaseStrain.** `coolFunction` is specified by three counting functions over the cache.
- **Heatmap.** The ray march of `Process` is specified by `Heatmap.Deposit`, the amount the march adds to each cell. `Heatmap.DepositIsPerVisit` proves that this amount is `clockrate` times the number of visits.

Two properties of the code are easy to misread, so they are stated here:

- **Chord delta.** The chord evaluator subtracts the *minimum* start time over `PrevHitObjects`, that is, the earliest of them, and not the most recent one (`ChordEvaluator.cs:22`).
- **Speed score sign.** The speed evaluator replaces only a note delta of exactly zero (`SpeedEvaluator.cs:20-24`). A finite negative delta gives a negative speed BPM, and `Math.Pow` of a negative base with exponent 1.2 is NaN, so the score is NaN (`SpeedEvaluator.cs:56`). `SpeedEvaluator.EvaluateDifficultyOf` states that its result is NaN exactly in that case. `SpeedEvaluator.SpeedScoreBounds` proves the score non-negative for a positive delta.

The `getHand` documentation lists five examples that no single column numbering fits (`ReleaseStrain.cs:125-138`):

- Counted from 0, the two 4k examples hold. But index 4 of 9k, the documented 5th column, gets 0, and 0.5 goes to index 5.
- Counted from 1, the three 9k examples hold. But the 4k 2nd column gets 1, while the documentation says 0.
- The model follows the code. `ReleaseStrainSkill.GetHandOnDocumentedColumns` states both facts.

`Precision.DefinitelyBigger(a, b, d)` of osu!framework is taken to mean `a - d > b` (`Numerics.DefinitelyBigger`). The framework's source is not part of this model.

## Model

| member | source | states |
|---|---|---|
| DiffHitWindows.WindowMultiplier | osu.Game.Rulesets.Mania/Difficulty/Utils/DiffHitWindows.cs:30-35 | the multiplier is 1/1.4, 1 or 1.4, and always positive |
| DiffHitWindows.WindowMultiplierCases | osu.Game.Rulesets.Mania/Difficulty/Utils/DiffHitWindows.cs:64-69 | HardRock gives 1/1.4 even when Easy is also active; Easy alone gives 1.4; otherwise 1 |
| DiffHitWindows.LazerHitWindows | osu.Game.Rulesets.Mania/Difficulty/Utils/DiffHitWindows.cs:28-45 | for OD in [0, 10] and any mods, 0 < HMax < H300 < H200 < H100 < H50 |
| DiffHitWindows.LazerOrderedUnder | osu.Game.Rulesets.Mania/Difficulty/Utils/DiffHitWindows.cs:37-44 | the same strict order for every positive multiplier, in both HMax regimes |
| DiffHitWindows.LazerHMaxContinuousAtFive | osu.Game.Rulesets.Mania/Difficulty/Utils/DiffHitWindows.cs:37-40 | both HMax formulas give 19.4 times the multiplier at OD 5 |
| DiffHitWindows.ClassicParametersOf | osu.Game.Rulesets.Mania/Difficulty/Utils/DiffHitWindows.cs:49-62 | without conversion, OD is unchanged and both leniencies are 0; with conversion, OD becomes 10, and the leniencies are 13 and 10 exactly when the original OD is at most 4 |
| DiffHitWindows.Floored | osu.Game.Rulesets.Mania/Difficulty/Utils/DiffHitWindows.cs:71-75 | `Math.Floor` gives the integer r with r <= x < r + 1 |
| DiffHitWindows.ClassicHitWindows | osu.Game.Rulesets.Mania/Difficulty/Utils/DiffHitWindows.cs:47-76 | all five classic windows are whole numbers |
| DiffHitWindows.ClassicHMaxIgnoresOd | osu.Game.Rulesets.Mania/Difficulty/Utils/DiffHitWindows.cs:71 | the classic HMax is 11 under HardRock, 22 under Easy alone and 16 otherwise, whatever the OD |
| DiffHitWindows.ClassicOrdered | osu.Game.Rulesets.Mania/Difficulty/Utils/DiffHitWindows.cs:64-75 | for OD in [0, 10], converted or not, 0 < HMax <= H300 <= H200 <= H100 <= H50 |
| DiffHitWindows.Construct | osu.Game.Rulesets.Mania/Difficulty/Utils/DiffHitWindows.cs:20-26 | the windows are whole numbers whenever the classic mod is active, and positive and ordered for OD in [0, 10] |
| DiffHitWindows.ConstructorUsesPlainOd | osu.Game.Rulesets.Mania/Difficulty/Utils/DiffHitWindows.cs:22-25 | with the classic mod, the constructor uses the floored formulas with the OD unchanged and no leniency; without it, the lazer windows |
| DiffHitWindows.ConvertUsesOdTen | osu.Game.Rulesets.Mania/Difficulty/Utils/DiffHitWindows.cs:53-75 | a converted chart gets the OD-10 windows, with leniency 13/10 added to H300/H200 only when the OD is at most 4 |
| ChordEvaluator.MinShiftedStart | osu.Game.Rulesets.Mania/Difficulty/Evaluators/ChordEvaluator.cs:22 | the LINQ `Min` fails exactly on an empty list; otherwise it is at most every `(StartTime ?? +inf) + tolerance` and equal to one of them |
| ChordEvaluator.ChordDelta | osu.Game.Rulesets.Mania/Difficulty/Evaluators/ChordEvaluator.cs:22-23 | the delta is missing exactly when `PrevHitObjects` is empty; otherwise it is +inf or a positive number |
| ChordEvaluator.ChordDeltaIsTimeSinceEarliest | osu.Game.Rulesets.Mania/Difficulty/Evaluators/ChordEvaluator.cs:22-23 | a finite chord delta is at least the time since every previous note, and equals the time since one of them; the delta is +inf exactly when no previous note starts before the current one |
| ChordEvaluator.ChordDeltaWithoutPrevious | osu.Game.Rulesets.Mania/Difficulty/Evaluators/ChordEvaluator.cs:22-31 | when every `PrevHitObjects` entry is null, the delta is +inf and the chord BPM is 0 |
| ChordEvaluator.ChordSize | osu.Game.Rulesets.Mania/Difficulty/Evaluators/ChordEvaluator.cs:25 | the non-null count is at most the length of `CurrHitObjects` |
| ChordEvaluator.IsJack | osu.Game.Rulesets.Mania/Difficulty/Evaluators/ChordEvaluator.cs:48-50 | with an infinite threshold, a note is a jack exactly when it has a `PrevInColumn(0)`; with a threshold of -inf, no note is a jack |
| ChordEvaluator.JackCount | osu.Game.Rulesets.Mania/Difficulty/Evaluators/ChordEvaluator.cs:47-50 | every counted jack has a `PrevInColumn(0)`: the count is at most the number of such notes |
| ChordEvaluator.FindJackCountInChord | osu.Game.Rulesets.Mania/Difficulty/Evaluators/ChordEvaluator.cs:46-50 | the jacks of the chord are at most its notes with a `PrevInColumn(0)`, which are at most its non-null notes |
| ChordEvaluator.JackCountBounds | osu.Game.Rulesets.Mania/Difficulty/Evaluators/ChordEvaluator.cs:46-50 | jacks <= notes that have a `PrevInColumn(0)` <= non-null notes, for any threshold |
| ChordEvaluator.JackCountInChordBounds | osu.Game.Rulesets.Mania/Difficulty/Evaluators/ChordEvaluator.cs:46-50 | `FindJackCountInChord` never exceeds the chord size, and notes without a previous note in their column are never counted |
| ChordEvaluator.JackCountMonotone | osu.Game.Rulesets.Mania/Difficulty/Evaluators/ChordEvaluator.cs:50 | a larger `deltaTime + tolerance` never gives a smaller jack count |
| ChordEvaluator.ChordBpm | osu.Game.Rulesets.Mania/Difficulty/Evaluators/ChordEvaluator.cs:31 | the chord BPM is non-negative, and 0 exactly when the delta is +inf |
| ChordEvaluator.ChordBpmScale | osu.Game.Rulesets.Mania/Difficulty/Evaluators/ChordEvaluator.cs:51 | NaN exactly for a negative BPM (`Math.Pow` of a negative base); 0 at BPM 0; non-negative for non-negative BPM under plausible `pow` |
| ChordEvaluator.JackDensity | osu.Game.Rulesets.Mania/Difficulty/Evaluators/ChordEvaluator.cs:38 | NaN exactly for an empty chord; otherwise in [0, 1], 0 exactly without jacks and 1 exactly when every note is a jack |
| ChordEvaluator.EvaluateDifficultyOf | osu.Game.Rulesets.Mania/Difficulty/Evaluators/ChordEvaluator.cs:13-44 | throws exactly on an empty `PrevHitObjects`; NaN exactly on an empty chord otherwise; any score is non-negative under plausible `pow` |
| ChordEvaluator.ScoreIsJackTermOnly | osu.Game.Rulesets.Mania/Difficulty/Evaluators/ChordEvaluator.cs:40-43 | the zero-weighted trill term drops out: the score is 0.0347826 * jackDensity * jackCount * chordBpmScale(chordBpm) |
| ChordEvaluator.NoJacksScoresZero | osu.Game.Rulesets.Mania/Difficulty/Evaluators/ChordEvaluator.cs:40-43 | a chord without jacks scores 0 |
| ChordEvaluator.NoPreviousScoresZero | osu.Game.Rulesets.Mania/Difficulty/Evaluators/ChordEvaluator.cs:22-43 | a note with no earlier note in any column scores 0 |
| SpeedEvaluator.NoteDelta | osu.Game.Rulesets.Mania/Difficulty/Evaluators/SpeedEvaluator.cs:20-21 | missing exactly when `PrevHitObjects` is empty; never exactly 0 |
| SpeedEvaluator.NoteDeltaCases | osu.Game.Rulesets.Mania/Difficulty/Evaluators/SpeedEvaluator.cs:20-21 | a finite delta is the time since the earliest previous note less 6 ms, of either sign; -inf arises only when every entry is null; +inf only when the earliest previous note starts exactly 6 ms before, so that the raw delta is exactly 0 |
| SpeedEvaluator.LastPresent | osu.Game.Rulesets.Mania/Difficulty/Evaluators/SpeedEvaluator.cs:48-53 | null exactly when every entry is null; otherwise an entry of the list |
| SpeedEvaluator.LastPresentIsLast | osu.Game.Rulesets.Mania/Difficulty/Evaluators/SpeedEvaluator.cs:48-53 | the entry found is followed only by null entries |
| SpeedEvaluator.GetPreviousChord | osu.Game.Rulesets.Mania/Difficulty/Evaluators/SpeedEvaluator.cs:46-54 | the previous chord is null or a note of the chart |
| SpeedEvaluator.PreviousChordAt | osu.Game.Rulesets.Mania/Difficulty/Evaluators/SpeedEvaluator.cs:28-35 | every chord reached by repeated `GetPreviousChord` is null or a note of the chart |
| SpeedEvaluator.StreamLengthUnique | osu.Game.Rulesets.Mania/Difficulty/Evaluators/SpeedEvaluator.cs:31-37 | the stream walk has only one stopping point |
| SpeedEvaluator.CountStream | osu.Game.Rulesets.Mania/Difficulty/Evaluators/SpeedEvaluator.cs:31-37 | the loop terminates with 0 <= streamCount <= `Index`; every chord walked has at most one jack; the walk stops at the limit or at the first null chord or chord with more than one jack |
| SpeedEvaluator.StreamStamina | osu.Game.Rulesets.Mania/Difficulty/Evaluators/SpeedEvaluator.cs:39 | the stamina is in [0, 3000]; it equals n + n*n/1000 when that is at most 3000, and 3000 otherwise |
| SpeedEvaluator.StaminaBonus | osu.Game.Rulesets.Mania/Difficulty/Evaluators/SpeedEvaluator.cs:41 | the bonus is at least 1 for non-negative stamina under plausible `pow` |
| SpeedEvaluator.SpeedBpmScale | osu.Game.Rulesets.Mania/Difficulty/Evaluators/SpeedEvaluator.cs:56 | NaN exactly for a negative BPM; 0 at BPM 0; non-negative for non-negative BPM under plausible `pow` |
| SpeedEvaluator.SpeedScore | osu.Game.Rulesets.Mania/Difficulty/Evaluators/SpeedEvaluator.cs:24-43 | NaN exactly for a finite negative note delta; an infinite note delta gives speed BPM 0 and score 0 |
| SpeedEvaluator.SpeedScoreBounds | osu.Game.Rulesets.Mania/Difficulty/Evaluators/SpeedEvaluator.cs:41-43 | for a positive delta, the score is at least 0.16 * speedBpmScale and so non-negative |
| SpeedEvaluator.EvaluateDifficultyOf | osu.Game.Rulesets.Mania/Difficulty/Evaluators/SpeedEvaluator.cs:13-44 | throws exactly on an empty `PrevHitObjects`; NaN exactly when the note delta is finite and negative; otherwise the speed score of the note delta and of the unique stream length below `Index` |
| SpeedEvaluator.ZeroDeltaScoresZero | osu.Game.Rulesets.Mania/Difficulty/Evaluators/SpeedEvaluator.cs:20-24 | a delta of exactly 0 becomes +inf and scores 0 |
| StrainSkill.Insert | osu.Game.Rulesets.Mania/Difficulty/Skills/Strain.cs:55-56 | inserting into a strictly increasing list keeps it strictly increasing and adds exactly the new value |
| StrainSkill.SortedDistinct | osu.Game.Rulesets.Mania/Difficulty/Skills/Strain.cs:55-56 | the `HashSet` copy, sorted, is strictly increasing and holds exactly the values of `startTimes` |
| StrainSkill.IndexOf | osu.Game.Rulesets.Mania/Difficulty/Skills/Strain.cs:57 | `Array.IndexOf` is -1 exactly when the value is absent; otherwise the first position holding it |
| StrainSkill.RankPriority | osu.Game.Rulesets.Mania/Difficulty/Skills/Strain.cs:53-57 | the rank priority is at least 1 |
| StrainSkill.RankPriorityCountsBelow | osu.Game.Rulesets.Mania/Difficulty/Skills/Strain.cs:53-57 | the rank priority is 1 + the number of distinct recorded start times strictly below `startTimes[column]` |
| StrainSkill.LargestBelowIsMaximum | osu.Game.Rulesets.Mania/Difficulty/Skills/Strain.cs:59-64 | the `foreach` loop finds the largest value in (-1, startTime), or -1 when there is none |
| StrainSkill.LargestBelowDependsOnValues | osu.Game.Rulesets.Mania/Difficulty/Skills/Strain.cs:55-64 | the loop's result depends only on which start times occur, not on their order or repetition |
| StrainSkill.PrevStartTime | osu.Game.Rulesets.Mania/Difficulty/Skills/Strain.cs:59-66 | prevStartTime <= startTime |
| StrainSkill.PrevStartTimeIsLatestEarlier | osu.Game.Rulesets.Mania/Difficulty/Skills/Strain.cs:59-66 | prevStartTime is min(-1, startTime) or a recorded start time in (-1, startTime), and no recorded start time in (-1, startTime) exceeds it |
| StrainSkill.FindPrevStartTime | osu.Game.Rulesets.Mania/Difficulty/Skills/Strain.cs:55-66 | the loop over the sorted distinct copy, followed by the cap, computes `PrevStartTime` of the array itself |
| StrainSkill.ChordDelta | osu.Game.Rulesets.Mania/Difficulty/Skills/Strain.cs:68 | chordDelta >= `DeltaTime`, chordDelta >= startTime - prevStartTime and chordDelta >= 0, and it equals one of the two |
| StrainSkill.TimingPriority | osu.Game.Rulesets.Mania/Difficulty/Skills/Strain.cs:73 | the reshaped priority is at least 1 |
| StrainSkill.ColumnDecayTime | osu.Game.Rulesets.Mania/Difficulty/Skills/Strain.cs:76 | the column decay time is at least 1 |
| StrainSkill.OverallStrainFactor | osu.Game.Rulesets.Mania/Difficulty/Skills/Strain.cs:83 | the overall factor is at least 0.1 |
| StrainSkill.KeyModeBonus | osu.Game.Rulesets.Mania/Difficulty/Skills/Strain.cs:84 | the overall increment is between 1 and 1.5 under plausible `tanh` |
| StrainSkill.CalcKeyModeAfter | osu.Game.Rulesets.Mania/Difficulty/Skills/Strain.cs:51 | the new `calcKeyMode` is at least the old one and at least 1 + \|column - previous column\|, and equals one of the two |
| StrainSkill.ChordCountAfter | osu.Game.Rulesets.Mania/Difficulty/Skills/Strain.cs:70-71 | `chordCount` becomes 2 when `DeltaTime > 30`, and the old value + 1 otherwise |
| StrainSkill.ColumnStrainAfter | osu.Game.Rulesets.Mania/Difficulty/Skills/Strain.cs:76-77 | a non-negative column strain, once decayed and increased, is at least the increase `calcKeyMode / chordCount` under plausible `pow` |
| StrainSkill.OverallStrainAfter | osu.Game.Rulesets.Mania/Difficulty/Skills/Strain.cs:83-84 | the decayed overall strain is clamped at 0 before the increment, so the result is at least the increment |
| StrainSkill.Next | osu.Game.Rulesets.Mania/Difficulty/Skills/Strain.cs:44-92 | one step sets `startTimes[column]` and `endTimes[column]` to the note's times, leaves every other column of all three arrays alone, moves `calcKeyMode` and `chordCount` as above (with `chordCount` >= 2), sets `individualStrain` to the column strain or, when `DeltaTime <= 1`, to the max of the old value and the column strain, and keeps `overallStrain` at least the increment |
| StrainSkill.NextColumnStrain | osu.Game.Rulesets.Mania/Difficulty/Skills/Strain.cs:53-77 | the new column strain is the old one decayed over a time computed from the rank of the column's old start time and the previous distinct start time, plus `calcKeyMode / chordCount` with the updated counters |
| StrainSkill.NextOverallStrainRange | osu.Game.Rulesets.Mania/Difficulty/Skills/Strain.cs:83-84 | the new overall strain is at least 1 under plausible `tanh` |
| StrainSkill.Strain.constructor | osu.Game.Rulesets.Mania/Difficulty/Skills/Strain.cs:22-42 | three zeroed arrays of `totalColumns` entries; `overallStrain` 1, `chordCount` 1, `calcKeyMode` 1, `individualStrain` 0 |
| StrainSkill.Strain.StrainValueOf | osu.Game.Rulesets.Mania/Difficulty/Skills/Strain.cs:44-92 | the new state is `Next` of the old state, and the result is individualStrain + overallStrain - CurrentStrain |
| StrainSkill.Strain.CalculateInitialStrain | osu.Game.Rulesets.Mania/Difficulty/Skills/Strain.cs:94-99 | the initial strain is non-negative when both strains are non-negative and `pow` is plausible |
| ReleaseStrainSkill.GetHand | osu.Game.Rulesets.Mania/Difficulty/Skills/ReleaseStrain.cs:137-138 | `getHand` returns only 0, 0.5 or 1; 0.5 exactly for column ceil(keymode/2) with odd keymode; 0 exactly otherwise below keymode/2 |
| ReleaseStrainSkill.EvenKeymodeHasNoMiddle | osu.Game.Rulesets.Mania/Difficulty/Skills/ReleaseStrain.cs:138 | never 0.5 for an even key count |
| ReleaseStrainSkill.GetHandOnDocumentedColumns | osu.Game.Rulesets.Mania/Difficulty/Skills/ReleaseStrain.cs:125-138 | counted from 0, the 4k examples hold (1→0, 2→1) but 9k index 4 → 0 and index 5 → 0.5; counted from 1, the 9k examples hold (2→0, 5→0.5, 9→1) but 4k column 2 → 1, not 0 |
| ReleaseStrainSkill.Overlaps | osu.Game.Rulesets.Mania/Difficulty/Skills/ReleaseStrain.cs:101-103 | an overlapping cached note is a long note that started before `obj`, and that ends after `obj` starts and before `obj` ends |
| ReleaseStrainSkill.ConcurrentNotes | osu.Game.Rulesets.Mania/Difficulty/Skills/ReleaseStrain.cs:93-99 | the non-null cache entries are at most the cache length |
| ReleaseStrainSkill.SameHandWithinConcurrent | osu.Game.Rulesets.Mania/Difficulty/Skills/ReleaseStrain.cs:93-111 | concurrentNotesOnSameHand <= concurrentNotes |
| ReleaseStrainSkill.TotalDistanceBound | osu.Game.Rulesets.Mania/Difficulty/Skills/ReleaseStrain.cs:101-111 | totalDistance <= (keymode - 1) * concurrentNotesOnSameHand when every cached note sits at its own column |
| ReleaseStrainSkill.NoOverlapNoDistance | osu.Game.Rulesets.Mania/Difficulty/Skills/ReleaseStrain.cs:107-111 | no same-hand overlap means no distance |
| ReleaseStrainSkill.OverlapCounts | osu.Game.Rulesets.Mania/Difficulty/Skills/ReleaseStrain.cs:93-115 | concurrentNotesOnSameHand <= concurrentNotes <= keymode, and the distance bound, for the skill's cache |
| ReleaseStrainSkill.CoolValue | osu.Game.Rulesets.Mania/Difficulty/Skills/ReleaseStrain.cs:119-121 | 0 <= result < 4.5; 0 exactly when averageDistance <= 0.1 |
| ReleaseStrainSkill.RolledScaleBelowCap | osu.Game.Rulesets.Mania/Difficulty/Skills/ReleaseStrain.cs:121 | 4.5 / (1 + 1/x) lies strictly between 0 and 4.5 for positive x |
| ReleaseStrainSkill.LnStrainBounds | osu.Game.Rulesets.Mania/Difficulty/Skills/ReleaseStrain.cs:50 | 0 <= lnStrain < 1.4 * 4.5 |
| ReleaseStrainSkill.ReleaseStrain.constructor | osu.Game.Rulesets.Mania/Difficulty/Skills/ReleaseStrain.cs:35-43 | zeroed strains, an empty cache of `totalColumns` slots, `overallStrain` 1 |
| ReleaseStrainSkill.ReleaseStrain.CoolFunction | osu.Game.Rulesets.Mania/Difficulty/Skills/ReleaseStrain.cs:80-122 | the loop's counters are the non-null entries, the same-hand held long-note bodies (all three `DefinitelyBigger` conditions) and their column distances, and the result is `CoolValue` of them |
| ReleaseStrainSkill.ReleaseStrain.StrainValueOf | osu.Game.Rulesets.Mania/Difficulty/Skills/ReleaseStrain.cs:45-64 | lnStrain = 1.4 * coolFunction of the cache before the update; only `lnStrains[column]` and `lnBuffNoteCache[column]` change, the slot becoming the note; overallStrain is decayed and gains lnStrain only for a hold note; the strains stay non-negative |
| ReleaseStrainSkill.ReleaseStrain.CalculateInitialStrain | osu.Game.Rulesets.Mania/Difficulty/Skills/ReleaseStrain.cs:73-78 | the initial strain is non-negative when `lnStrain` is non-negative and `pow` is plausible |
| Numerics.ApplyDecay | osu.Game.Rulesets.Mania/Difficulty/Skills/Strain.cs:98-99 | a zero strain stays zero under decay; non-negativity is `Numerics.ApplyDecayNonNegative` |
| Numerics.ApplyDecayNonNegative | osu.Game.Rulesets.Mania/Difficulty/Skills/Strain.cs:98-99 | decaying a non-negative value by a non-negative base keeps it non-negative |
| Heatmap.CellCountIsGridSize | touhosu/osu.Game.Rulesets.Touhosu/Difficulty/Skills/HeatmapSkill.cs:41 | 117888 = 307 * 384 |
| Heatmap.StepUsesOne | touhosu/osu.Game.Rulesets.Touhosu/Difficulty/Skills/HeatmapSkill.cs:58-63 | each step of a moving march on the grid uses up one of finitely many steps left, so the loop terminates |
| Heatmap.Trace | touhosu/osu.Game.Rulesets.Touhosu/Difficulty/Skills/HeatmapSkill.cs:58-63 | every cell visited is inside [0, 307) x [0, 384); nothing is visited exactly when the start is off the grid |
| Heatmap.BelowHalf | touhosu/osu.Game.Rulesets.Touhosu/Difficulty/Skills/HeatmapSkill.cs:36 | for a positive `objectCount`, a cell is below half exactly when twice its sample is below the count; for a negative count, exactly when twice the sample is above it |
| Heatmap.RowSparse | touhosu/osu.Game.Rulesets.Touhosu/Difficulty/Skills/HeatmapSkill.cs:36-38 | at most one penalty per cell of a row |
| Heatmap.GridSparse | touhosu/osu.Game.Rulesets.Touhosu/Difficulty/Skills/HeatmapSkill.cs:31-38 | at most one penalty per cell of the grid |
| Heatmap.VisitsIsMultiplicity | touhosu/osu.Game.Rulesets.Touhosu/Difficulty/Skills/HeatmapSkill.cs:58-63 | the visit count of a cell is its multiplicity among the visited cells |
| Heatmap.DepositFollowsTrace | touhosu/osu.Game.Rulesets.Touhosu/Difficulty/Skills/HeatmapSkill.cs:58-63 | what the march adds to a cell is what its sequence of visited cells adds |
| Heatmap.AddedIsPerVisit | touhosu/osu.Game.Rulesets.Touhosu/Difficulty/Skills/HeatmapSkill.cs:60 | adding c per occurrence adds c times the number of occurrences |
| Heatmap.DepositIsPerVisit | touhosu/osu.Game.Rulesets.Touhosu/Difficulty/Skills/HeatmapSkill.cs:58-63 | the march adds exactly `clockrate` per visit to each cell |
| Heatmap.DepositNonNegative | touhosu/osu.Game.Rulesets.Touhosu/Difficulty/Skills/HeatmapSkill.cs:60 | a non-negative `clockrate` adds a non-negative amount |
| Heatmap.DepositOnlyOnGrid | touhosu/osu.Game.Rulesets.Touhosu/Difficulty/Skills/HeatmapSkill.cs:58-60 | nothing is added outside [0, 307) x [0, 384) |
| Heatmap.StepMoves | touhosu/osu.Game.Rulesets.Touhosu/Difficulty/Skills/HeatmapSkill.cs:55-62 | a non-zero direction at a positive speed gives a non-zero step |
| Heatmap.HeatmapSkill.constructor | touhosu/osu.Game.Rulesets.Touhosu/Difficulty/Skills/HeatmapSkill.cs:21-26 | a zeroed 307 x 384 grid with the given clock rate and object count |
| Heatmap.HeatmapSkill.DifficultyValue | touhosu/osu.Game.Rulesets.Touhosu/Difficulty/Skills/HeatmapSkill.cs:28-42 | the result is max(0, sum of all cells - 0.75 * number of cells with sample/objectCount < 0.5) / 117888, so it is >= 0; nothing is written |
| Heatmap.HeatmapSkill.March | touhosu/osu.Game.Rulesets.Touhosu/Difficulty/Skills/HeatmapSkill.cs:58-63 | every cell gains exactly what the march deposits on it |
| Heatmap.HeatmapSkill.Process | touhosu/osu.Game.Rulesets.Touhosu/Difficulty/Skills/HeatmapSkill.cs:44-65 | for an angled projectile at positive speed, every cell gains `clockrate` per visit of the march; the grid is unchanged for other objects, for speed <= 0 and for a start off the grid; with `clockrate` >= 0 the cells stay non-negative |

## Left out

- `HitProbability` and `HitProbabilityLn` (`DiffHitWindows.cs:78-95`): they evaluate the error function and the normal distribution through `SpecialFunctions`, which is not part of this model.
- `Math.Pow`, `Math.Tanh` and `Math.Log` have no values here. Every property is proved for any functions that satisfy `Numerics.Plausible`, so nothing is stated about the numeric values of the decay and shaping formulas.
- Floating-point rounding, overflow and underflow are not modelled: `double` is `real`. NaN and the infinities appear only where the code relies on them:
  - the chord jack density of an empty chord;
  - the ±inf sentinels of the note and chord deltas;
  - `Math.Pow` of the negative speed BPM of a negative note delta;
  - `1 / 0` inside `coolFunction`;
  - the division by a zero `objectCount` in `DifficultyValue`.
- DiffHitWindows.ClassicHitWindows: floors exact products of reals, while the program floors rounded doubles. So a product one ulp below a whole number comes out one millisecond larger here. With OD 4 under Easy, the program's H200 is `Math.Floor(85 * 1.4)`, which is 118 because the double product is 118.99999999999999; the model gives 119.
- `CurrentStrain` and the strain-section machinery of the `StrainDecaySkill` base class are not modelled. `CurrentStrain` is a parameter of both `StrainValueOf` methods.
- For both `CalculateInitialStrain` functions, the start time of `Previous(0)` is a parameter. The null reference when there is no previous object is not modelled.
- StrainSkill.Strain.CalculateInitialStrain: states only non-negativity, because the decay factor is not interpreted.
- ReleaseStrainSkill.ReleaseStrain.CalculateInitialStrain: states only non-negativity, because the decay factor is not interpreted.
- `StrainSkill.Strain.StrainValueOf` receives `Previous(0)` as an optional note, and `ReleaseStrainSkill.ReleaseStrain.StrainValueOf` receives the current note. Both require the note's column to be a valid index, because the source would throw `IndexOutOfRangeException` otherwise.
- The construction of `ManiaDifficultyHitObject` is not part of this model. It is where `DeltaTime`, `Previous(0)`, `PrevInColumn(0)`, `CurrHitObjects` and `PrevHitObjects` are computed; the model takes them as given fields of each `Note`.
- `Heatmap.HeatmapSkill.Process` receives the projectile's fields instead of a hit object:
  - whether it is an `AngeledProjectile`;
  - its position;
  - `(Math.Cos(angle), Math.Sin(angle))`;
  - its speed.
- `Heatmap.HeatmapSkill.Process` requires that direction to be non-zero. Cosine and sine never vanish together, and with a zero step the source's loop would not terminate.
- Because rounding is not modelled, the march here always ends for a non-zero step. With doubles, the loop of `HeatmapSkill.cs:58-63` also never ends when a positive speed gives a step that underflows to 0, or a step below half an ulp of the position, so that adding it leaves the position unchanged.
- The `(int)` casts of `Math.Floor` in `Process` are exact here. Positions that could overflow `int` never pass the grid guard.
- The other files of the repository are not modelled: the balancing constants, score submission, the rank chart, the Touhosu flashlight mod, projectile and difficulty-calculator glue. They hold UI, networking or framework glue, or constants that no modelled code reads.
