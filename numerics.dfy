/**
 * The numeric vocabulary shared by the difficulty model: C# `double` is modelled as
 * `real`, and the two infinities the evaluators rely on are made explicit.
 */
module Numerics {

  function Max(a: real, b: real): (r: real)
    ensures r >= a && r >= b && (r == a || r == b)
  {
    if a >= b then a else b
  }

  function Min(a: real, b: real): (r: real)
    ensures r <= a && r <= b && (r == a || r == b)
  {
    if a <= b then a else b
  }

  function Abs(n: int): (r: nat)
    ensures r == n || r == -n
  {
    if n < 0 then -n else n
  }

  /** A `double` that is finite or one of the two infinities (NaN is handled by `Eval`). */
  datatype Ext = NegInf | Finite(v: real) | PosInf

  /** The order of the extended reals. */
  predicate ExtLe(a: Ext, b: Ext) {
    match (a, b)
    case (NegInf, _) => true
    case (_, PosInf) => true
    case (Finite(x), Finite(y)) => x <= y
    case _ => false
  }

  function ExtMin(a: Ext, b: Ext): (r: Ext)
    ensures ExtLe(r, a) && ExtLe(r, b) && (r == a || r == b)
  {
    if ExtLe(a, b) then a else b
  }

  /** `e + t` for a finite `t`: infinities absorb it. */
  function ExtPlus(e: Ext, t: real): Ext {
    match e
    case Finite(x) => Finite(x + t)
    case _ => e
  }

  /** `s - e` for a finite `s`. */
  function ExtSubtractFrom(s: real, e: Ext): (r: Ext)
    ensures e == PosInf <==> r == NegInf
    ensures e == NegInf <==> r == PosInf
  {
    match e
    case NegInf => PosInf
    case Finite(x) => Finite(s - x)
    case PosInf => NegInf
  }

  /** `15000.0 / e`; dividing a finite number by an infinity gives (signed) zero. */
  function Div15000(e: Ext): (r: real)
    requires e != Finite(0.0)
    ensures e.Finite? && e.v > 0.0 ==> r > 0.0
    ensures e.Finite? && e.v < 0.0 ==> r < 0.0
    ensures !e.Finite? ==> r == 0.0
  {
    match e
    case Finite(x) => 15000.0 / x
    case _ => 0.0
  }

  /**
   * Outcome of an evaluator: a number, the NaN that `0.0 / 0.0` produces, or the
   * InvalidOperationException that LINQ `Min()` throws on an empty sequence.
   */
  datatype Eval = Score(value: real) | NotANumber | EmptySequence

  /**
   * The transcendental functions of `System.Math` the formulas call. They are left
   * uninterpreted: every statement about them holds for any `Transcendental` that is
   * `Plausible`, i.e. satisfies the few facts some properties need.
   */
  datatype Transcendental = Transcendental(pow: (real, real) -> real, tanh: real -> real, log: real -> real)

  ghost predicate Plausible(m: Transcendental) {
    (forall x: real, e: real :: 0.0 <= x ==> 0.0 <= m.pow(x, e)) &&
    (forall x: real :: -1.0 <= m.tanh(x) <= 1.0)
  }

  /** `Precision.DefinitelyBigger(a, b, acceptableDifference)` of osu!framework: `a - d > b`. */
  predicate DefinitelyBigger(a: real, b: real, acceptableDifference: real) {
    a - acceptableDifference > b
  }

  /** `value * Math.Pow(decayBase, deltaTime / 1000)`, the decay every strain skill uses. */
  function ApplyDecay(m: Transcendental, value: real, deltaTime: real, decayBase: real): (r: real)
    ensures value == 0.0 ==> r == 0.0
  {
    value * m.pow(decayBase, deltaTime / 1000.0)
  }

  /** Decaying a non-negative strain by a non-negative base keeps it non-negative. */
  lemma ApplyDecayNonNegative(m: Transcendental, value: real, deltaTime: real, decayBase: real)
    ensures Plausible(m) && value >= 0.0 && decayBase >= 0.0 ==> ApplyDecay(m, value, deltaTime, decayBase) >= 0.0
  {
    if Plausible(m) && value >= 0.0 && decayBase >= 0.0 {
      assert m.pow(decayBase, deltaTime / 1000.0) >= 0.0;
    }
  }
}
