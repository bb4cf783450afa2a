/**
 * The timing windows of osu!mania's difficulty calculation (`DiffHitWindows`): five
 * thresholds, in milliseconds, from the overall difficulty (OD) and the active mods,
 * either with the current ("lazer") formulas or with the floored formulas of the
 * classic mod.
 */
module DiffHitWindows {

  /** The mods the windows depend on; every other mod is `OtherMod`. */
  datatype Mod = ManiaModClassic | ModHardRock | ModEasy | OtherMod

  datatype HitWindows = HitWindows(hMax: real, h300: real, h200: real, h100: real, h50: real)

  predicate IsInteger(x: real) {
    x.Floor as real == x
  }

  /** The windows grow from the strictest judgement to the most lenient one. */
  predicate Ordered(w: HitWindows) {
    w.hMax <= w.h300 <= w.h200 <= w.h100 <= w.h50
  }

  predicate AllIntegers(w: HitWindows) {
    IsInteger(w.hMax) && IsInteger(w.h300) && IsInteger(w.h200) && IsInteger(w.h100) && IsInteger(w.h50)
  }

  /** HardRock narrows every window by 1.4 and takes precedence over Easy, which widens them. */
  function WindowMultiplier(mods: seq<Mod>): (r: real)
    ensures r == 1.0 / 1.4 || r == 1.0 || r == 1.4
    ensures r > 0.0
  {
    if ModHardRock in mods then 1.0 / 1.4
    else if ModEasy in mods then 1.4
    else 1.0
  }

  lemma WindowMultiplierCases(mods: seq<Mod>)
    ensures ModHardRock in mods ==> WindowMultiplier(mods) == 1.0 / 1.4
    ensures ModHardRock !in mods && ModEasy in mods ==> WindowMultiplier(mods) == 1.4
    ensures ModHardRock !in mods && ModEasy !in mods ==> WindowMultiplier(mods) == 1.0
    ensures ModHardRock in mods && ModEasy in mods ==> WindowMultiplier(mods) < 1.0
  {
  }

  /** `getLazerHitWindows`: linear in OD, with two regimes for the perfect window split at OD 5. */
  function LazerHitWindows(mods: seq<Mod>, overallDifficulty: real): (w: HitWindows)
    ensures 0.0 <= overallDifficulty <= 10.0 ==>
      0.0 < w.hMax && w.hMax < w.h300 < w.h200 < w.h100 < w.h50
  {
    var m := WindowMultiplier(mods);
    var od := overallDifficulty;
    var hMax := if od < 5.0 then (22.4 - 0.6 * od) * m else (24.9 - 1.1 * od) * m;
    LazerOrderedUnder(od, m);
    HitWindows(hMax, (64.0 - 3.0 * od) * m, (97.0 - 3.0 * od) * m, (127.0 - 3.0 * od) * m, (151.0 - 3.0 * od) * m)
  }

  lemma LazerOrderedUnder(od: real, m: real)
    requires m > 0.0
    ensures 0.0 <= od <= 10.0 ==>
      var hMax := if od < 5.0 then (22.4 - 0.6 * od) * m else (24.9 - 1.1 * od) * m;
      0.0 < hMax && hMax < (64.0 - 3.0 * od) * m < (97.0 - 3.0 * od) * m < (127.0 - 3.0 * od) * m < (151.0 - 3.0 * od) * m
  {
    if 0.0 <= od <= 10.0 {
      if od < 5.0 {
        ProductKeepsOrder(22.4 - 0.6 * od, 64.0 - 3.0 * od, m);
      } else {
        ProductKeepsOrder(24.9 - 1.1 * od, 64.0 - 3.0 * od, m);
      }
      ProductKeepsOrder(64.0 - 3.0 * od, 97.0 - 3.0 * od, m);
      ProductKeepsOrder(97.0 - 3.0 * od, 127.0 - 3.0 * od, m);
      ProductKeepsOrder(127.0 - 3.0 * od, 151.0 - 3.0 * od, m);
    }
  }

  lemma ProductKeepsOrder(a: real, b: real, m: real)
    requires 0.0 < a < b && m > 0.0
    ensures 0.0 < a * m < b * m
  {
  }

  /** Both formulas for the perfect window give 19.4 ms (times the multiplier) at OD 5. */
  lemma LazerHMaxContinuousAtFive(mods: seq<Mod>)
    ensures (22.4 - 0.6 * 5.0) * WindowMultiplier(mods) == 19.4 * WindowMultiplier(mods)
    ensures LazerHitWindows(mods, 5.0).hMax == 19.4 * WindowMultiplier(mods)
  {
  }

  /**
   * The local reassignments at the top of `getClassicHitWindows`: the OD actually used and
   * the leniencies of the great and good windows, which only converted charts get.
   */
  datatype ClassicParameters = ClassicParameters(overallDifficulty: real, greatLeniency: real, goodLeniency: real)

  function ClassicParametersOf(overallDifficulty: real, isConvert: bool): (p: ClassicParameters)
    ensures !isConvert ==> p == ClassicParameters(overallDifficulty, 0.0, 0.0)
    ensures isConvert ==> p.overallDifficulty == 10.0
    ensures isConvert && overallDifficulty <= 4.0 ==> p.greatLeniency == 13.0 && p.goodLeniency == 10.0
    ensures isConvert && overallDifficulty > 4.0 ==> p.greatLeniency == 0.0 && p.goodLeniency == 0.0
  {
    if isConvert then
      if overallDifficulty <= 4.0 then ClassicParameters(10.0, 13.0, 10.0) else ClassicParameters(10.0, 0.0, 0.0)
    else ClassicParameters(overallDifficulty, 0.0, 0.0)
  }

  function Floored(x: real): (r: real)
    ensures IsInteger(r) && r <= x < r + 1.0
  {
    x.Floor as real
  }

  /** `getClassicHitWindows`: the stable formulas, each truncated to whole milliseconds. */
  function ClassicHitWindows(mods: seq<Mod>, overallDifficulty: real, isConvert: bool): (w: HitWindows)
    ensures AllIntegers(w)
  {
    var p := ClassicParametersOf(overallDifficulty, isConvert);
    var m := WindowMultiplier(mods);
    var od := p.overallDifficulty;
    HitWindows(
      Floored(16.0 * m),
      Floored((64.0 - 3.0 * od + p.greatLeniency) * m),
      Floored((97.0 - 3.0 * od + p.goodLeniency) * m),
      Floored((127.0 - 3.0 * od) * m),
      Floored((151.0 - 3.0 * od) * m))
  }

  /** The classic perfect window does not depend on OD: 16 ms, 11 ms under HardRock, 22 ms under Easy. */
  lemma ClassicHMaxIgnoresOd(mods: seq<Mod>, overallDifficulty: real, isConvert: bool)
    ensures ModHardRock in mods ==> ClassicHitWindows(mods, overallDifficulty, isConvert).hMax == 11.0
    ensures ModHardRock !in mods && ModEasy in mods ==> ClassicHitWindows(mods, overallDifficulty, isConvert).hMax == 22.0
    ensures ModHardRock !in mods && ModEasy !in mods ==> ClassicHitWindows(mods, overallDifficulty, isConvert).hMax == 16.0
  {
    if ModHardRock in mods {
      assert 11.0 <= 16.0 * (1.0 / 1.4) < 12.0;
    } else if ModEasy in mods {
      assert 22.0 <= 16.0 * 1.4 < 23.0;
    }
  }

  /** For OD in [0, 10] the floored windows stay positive and ordered, converted or not. */
  lemma ClassicOrdered(mods: seq<Mod>, overallDifficulty: real, isConvert: bool)
    ensures 0.0 <= overallDifficulty <= 10.0 ==>
      var w := ClassicHitWindows(mods, overallDifficulty, isConvert); 0.0 < w.hMax && Ordered(w)
  {
    if !(0.0 <= overallDifficulty <= 10.0) { return; }
    var p := ClassicParametersOf(overallDifficulty, isConvert);
    var m := WindowMultiplier(mods);
    var od := p.overallDifficulty;
    ClassicHMaxIgnoresOd(mods, overallDifficulty, isConvert);
    assert 16.0 <= 64.0 - 3.0 * od + p.greatLeniency;
    assert 64.0 - 3.0 * od + p.greatLeniency <= 97.0 - 3.0 * od + p.goodLeniency;
    assert 97.0 - 3.0 * od + p.goodLeniency <= 127.0 - 3.0 * od;
    ProductKeepsWeakOrder(16.0, 64.0 - 3.0 * od + p.greatLeniency, m);
    ProductKeepsWeakOrder(64.0 - 3.0 * od + p.greatLeniency, 97.0 - 3.0 * od + p.goodLeniency, m);
    ProductKeepsWeakOrder(97.0 - 3.0 * od + p.goodLeniency, 127.0 - 3.0 * od, m);
    ProductKeepsWeakOrder(127.0 - 3.0 * od, 151.0 - 3.0 * od, m);
  }

  lemma ProductKeepsWeakOrder(a: real, b: real, m: real)
    requires a <= b && m > 0.0
    ensures a * m <= b * m
  {
  }

  /** The `DiffHitWindows` constructor: the classic formulas exactly when the classic mod is active. */
  function Construct(mods: seq<Mod>, overallDifficulty: real): (w: HitWindows)
    ensures ManiaModClassic in mods ==> AllIntegers(w)
    ensures 0.0 <= overallDifficulty <= 10.0 ==> 0.0 < w.hMax && Ordered(w)
  {
    if ManiaModClassic in mods then
      ClassicOrdered(mods, overallDifficulty, false);
      ClassicHitWindows(mods, overallDifficulty, false)
    else LazerHitWindows(mods, overallDifficulty)
  }

  /**
   * The constructor never treats the chart as a convert: with the classic mod the OD is
   * used unchanged and neither leniency is added.
   */
  lemma ConstructorUsesPlainOd(mods: seq<Mod>, overallDifficulty: real)
    ensures ManiaModClassic in mods ==>
      var m := WindowMultiplier(mods);
      Construct(mods, overallDifficulty) ==
        HitWindows(Floored(16.0 * m), Floored((64.0 - 3.0 * overallDifficulty) * m), Floored((97.0 - 3.0 * overallDifficulty) * m),
                   Floored((127.0 - 3.0 * overallDifficulty) * m), Floored((151.0 - 3.0 * overallDifficulty) * m))
    ensures ManiaModClassic !in mods ==> Construct(mods, overallDifficulty) == LazerHitWindows(mods, overallDifficulty)
  {
  }

  /** A converted chart is judged as if its OD were 10, with leniency only below OD 4. */
  lemma ConvertUsesOdTen(mods: seq<Mod>, overallDifficulty: real)
    ensures var m := WindowMultiplier(mods);
      var great := if overallDifficulty <= 4.0 then 13.0 else 0.0;
      var good := if overallDifficulty <= 4.0 then 10.0 else 0.0;
      ClassicHitWindows(mods, overallDifficulty, true) ==
        HitWindows(Floored(16.0 * m), Floored((34.0 + great) * m), Floored((67.0 + good) * m), Floored(97.0 * m), Floored(121.0 * m))
  {
  }
}
