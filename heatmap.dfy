/**
 * The Touhosu heatmap skill: every angled projectile marches across a 307 x 384 grid,
 * adding the clock rate to each cell it passes; the difficulty is the clamped grid total,
 * less 0.75 for each rarely-visited cell, averaged over the cells.
 */
module Heatmap {
  import opened Numerics

  const Width: nat := 307
  const Height: nat := 384
  /** `117888`, the number of cells */
  const CellCount: nat := 117888
  const SparsePenalty: real := 0.75

  lemma CellCountIsGridSize()
    ensures CellCount == Width * Height
  {
  }

  /** The `while` guard of `Process` without its `speed > 0` conjunct. */
  predicate InBounds(x: real, y: real) {
    0.0 <= x < Width as real && 0.0 <= y < Height as real
  }

  /**
   * How many more steps of `(dx, dy)` stay on the grid along the moving axis: a measure
   * for the ray march, not a value of the source.
   */
  function StepsLeft(x: real, y: real, dx: real, dy: real): int {
    if dx > 0.0 then ((Width as real - x) / dx).Floor
    else if dx < 0.0 then (x / -dx).Floor
    else if dy > 0.0 then ((Height as real - y) / dy).Floor
    else if dy < 0.0 then (y / -dy).Floor
    else 0
  }

  /** `floor(z - 1) == floor(z) - 1` */
  lemma FloorMinusOne(z: real)
    ensures (z - 1.0).Floor == z.Floor - 1
  {
  }

  /** One step of a moving ray that starts on the grid uses up one of its remaining steps. */
  lemma StepUsesOne(x: real, y: real, dx: real, dy: real)
    requires dx != 0.0 || dy != 0.0
    requires InBounds(x, y)
    ensures 0 <= StepsLeft(x, y, dx, dy)
    ensures StepsLeft(x + dx, y + dy, dx, dy) == StepsLeft(x, y, dx, dy) - 1
  {
    if dx > 0.0 {
      assert (Width as real - (x + dx)) / dx == (Width as real - x) / dx - 1.0;
      FloorMinusOne((Width as real - x) / dx);
    } else if dx < 0.0 {
      assert (x + dx) / -dx == x / -dx - 1.0;
      FloorMinusOne(x / -dx);
    } else if dy > 0.0 {
      assert (Height as real - (y + dy)) / dy == (Height as real - y) / dy - 1.0;
      FloorMinusOne((Height as real - y) / dy);
    } else {
      assert (y + dy) / -dy == y / -dy - 1.0;
      FloorMinusOne(y / -dy);
    }
  }

  /**
   * The cells `(floor x, floor y)` the ray march visits from `(x, y)` in steps of
   * `(dx, dy)`, in order, until it leaves the grid.
   */
  function Trace(x: real, y: real, dx: real, dy: real): (cells: seq<(int, int)>)
    requires dx != 0.0 || dy != 0.0
    ensures forall k :: 0 <= k < |cells| ==> 0 <= cells[k].0 < Width && 0 <= cells[k].1 < Height
    ensures |cells| == 0 <==> !InBounds(x, y)
    decreases StepsLeft(x, y, dx, dy)
  {
    if InBounds(x, y) then
      StepUsesOne(x, y, dx, dy);
      [(x.Floor, y.Floor)] + Trace(x + dx, y + dy, dx, dy)
    else []
  }

  /** `heatmapSamples[x, y] / objectCount < 0.5` with IEEE division by a zero count. */
  predicate BelowHalf(sample: real, objectCount: int)
    ensures objectCount > 0 ==> (BelowHalf(sample, objectCount) <==> 2.0 * sample < objectCount as real)
    ensures objectCount < 0 ==> (BelowHalf(sample, objectCount) <==> 2.0 * sample > objectCount as real)
  {
    if objectCount == 0 then sample < 0.0  // +inf, -inf or NaN; only -inf is below 0.5
    else
      QuotientBelowHalf(sample, objectCount as real);
      sample / objectCount as real < 0.5
  }

  lemma QuotientBelowHalf(s: real, c: real)
    requires c != 0.0
    ensures c > 0.0 ==> (s / c < 0.5 <==> 2.0 * s < c)
    ensures c < 0.0 ==> (s / c < 0.5 <==> 2.0 * s > c)
  {
    var q := s / c;
    assert q * c == s;
    if c > 0.0 {
      if q < 0.5 { assert q * c < 0.5 * c; } else { assert q * c >= 0.5 * c; }
    } else {
      if q < 0.5 { assert q * c > 0.5 * c; } else { assert q * c <= 0.5 * c; }
    }
  }

  /** The sum of the first `cols` cells of row `x`. */
  function RowSum(g: array2<real>, x: nat, cols: nat): real
    requires x < g.Length0 && cols <= g.Length1
    reads g
  {
    if cols == 0 then 0.0 else RowSum(g, x, cols - 1) + g[x, cols - 1]
  }

  /** The sum of the first `rows` whole rows. */
  function GridSum(g: array2<real>, rows: nat): real
    requires rows <= g.Length0
    reads g
  {
    if rows == 0 then 0.0 else GridSum(g, rows - 1) + RowSum(g, rows - 1, g.Length1)
  }

  /** The number of cells below half among the first `cols` cells of row `x`. */
  function RowSparse(g: array2<real>, objectCount: int, x: nat, cols: nat): (r: nat)
    requires x < g.Length0 && cols <= g.Length1
    reads g
    ensures r <= cols
  {
    if cols == 0 then 0
    else RowSparse(g, objectCount, x, cols - 1) + (if BelowHalf(g[x, cols - 1], objectCount) then 1 else 0)
  }

  /** The number of cells below half among the first `rows` whole rows. */
  function GridSparse(g: array2<real>, objectCount: int, rows: nat): (r: nat)
    requires rows <= g.Length0
    reads g
    ensures r <= rows * g.Length1
  {
    if rows == 0 then 0 else GridSparse(g, objectCount, rows - 1) + RowSparse(g, objectCount, rows - 1, g.Length1)
  }

  /**
   * What the ray march from `(x, y)` in steps of `(dx, dy)` adds to the cell `at` when each
   * visit adds `c`.
   */
  function Deposit(c: real, x: real, y: real, dx: real, dy: real, at: (int, int)): real
    requires dx != 0.0 || dy != 0.0
    decreases StepsLeft(x, y, dx, dy)
  {
    if InBounds(x, y) then
      StepUsesOne(x, y, dx, dy);
      (if (x.Floor, y.Floor) == at then c else 0.0) + Deposit(c, x + dx, y + dy, dx, dy, at)
    else 0.0
  }

  /** How often `cells` visits `at`. */
  function Visits(cells: seq<(int, int)>, at: (int, int)): nat {
    if |cells| == 0 then 0
    else (if cells[0] == at then 1 else 0) + Visits(cells[1..], at)
  }

  /** The visit count is the multiplicity of `at` among the visited cells. */
  lemma {:induction false} VisitsIsMultiplicity(cells: seq<(int, int)>, at: (int, int))
    ensures Visits(cells, at) == multiset(cells)[at]
  {
    if |cells| > 0 {
      assert cells == [cells[0]] + cells[1..];
      VisitsIsMultiplicity(cells[1..], at);
    }
  }

  /** What the visits in `cells` add to the cell `at`: `c` for each occurrence. */
  function Added(c: real, cells: seq<(int, int)>, at: (int, int)): real {
    if |cells| == 0 then 0.0
    else (if cells[0] == at then c else 0.0) + Added(c, cells[1..], at)
  }

  /** The march deposits exactly what its trace of cells adds. */
  lemma {:induction false} DepositFollowsTrace(c: real, x: real, y: real, dx: real, dy: real, at: (int, int))
    requires dx != 0.0 || dy != 0.0
    ensures Deposit(c, x, y, dx, dy, at) == Added(c, Trace(x, y, dx, dy), at)
    decreases StepsLeft(x, y, dx, dy)
  {
    if InBounds(x, y) {
      StepUsesOne(x, y, dx, dy);
      var rest := Trace(x + dx, y + dy, dx, dy);
      assert ([(x.Floor, y.Floor)] + rest)[1..] == rest;
      DepositFollowsTrace(c, x + dx, y + dy, dx, dy, at);
    }
  }

  lemma MultiplyOneMore(c: real, rest: real, total: real, hit: bool)
    requires total == (if hit then 1.0 else 0.0) + rest
    ensures c * total == (if hit then c else 0.0) + c * rest
  {
  }

  /** Adding `c` per occurrence adds `c` times the number of visits. */
  lemma {:induction false} AddedIsPerVisit(c: real, cells: seq<(int, int)>, at: (int, int))
    ensures Added(c, cells, at) == c * Visits(cells, at) as real
  {
    if |cells| > 0 {
      AddedIsPerVisit(c, cells[1..], at);
      MultiplyOneMore(c, Visits(cells[1..], at) as real, Visits(cells, at) as real, cells[0] == at);
    }
  }

  /** Each visit of the march adds `c`: the deposit is `c` times the visits in the trace. */
  lemma DepositIsPerVisit(c: real, x: real, y: real, dx: real, dy: real, at: (int, int))
    requires dx != 0.0 || dy != 0.0
    ensures Deposit(c, x, y, dx, dy, at) == c * Visits(Trace(x, y, dx, dy), at) as real
  {
    DepositFollowsTrace(c, x, y, dx, dy, at);
    AddedIsPerVisit(c, Trace(x, y, dx, dy), at);
  }

  /** Visits that each add a non-negative amount add a non-negative total. */
  lemma {:induction false} DepositNonNegative(c: real, x: real, y: real, dx: real, dy: real, at: (int, int))
    requires dx != 0.0 || dy != 0.0
    requires c >= 0.0
    ensures Deposit(c, x, y, dx, dy, at) >= 0.0
    decreases StepsLeft(x, y, dx, dy)
  {
    if InBounds(x, y) {
      StepUsesOne(x, y, dx, dy);
      DepositNonNegative(c, x + dx, y + dy, dx, dy, at);
    }
  }

  /** A cell outside the grid receives nothing. */
  lemma {:induction false} DepositOnlyOnGrid(c: real, x: real, y: real, dx: real, dy: real, at: (int, int))
    requires dx != 0.0 || dy != 0.0
    requires !(0 <= at.0 < Width && 0 <= at.1 < Height)
    ensures Deposit(c, x, y, dx, dy, at) == 0.0
    decreases StepsLeft(x, y, dx, dy)
  {
    if InBounds(x, y) {
      StepUsesOne(x, y, dx, dy);
      DepositOnlyOnGrid(c, x + dx, y + dy, dx, dy, at);
    }
  }

  /** A direction that is not zero, at a positive speed, moves the position. */
  lemma StepMoves(moveX: real, moveY: real, speed: real)
    requires moveX != 0.0 || moveY != 0.0
    requires speed > 0.0
    ensures moveX * speed != 0.0 || moveY * speed != 0.0
  {
  }

  class HeatmapSkill {
    const heatmapSamples: array2<real>
    const clockrate: real
    const objectCount: int

    predicate Valid()
      reads this
    {
      heatmapSamples.Length0 == Width && heatmapSamples.Length1 == Height
    }

    predicate NonNegative()
      reads this, heatmapSamples
    {
      forall i, j :: 0 <= i < heatmapSamples.Length0 && 0 <= j < heatmapSamples.Length1 ==> heatmapSamples[i, j] >= 0.0
    }

    constructor (clockrate': real, objectCount': int)
      ensures Valid() && NonNegative() && fresh(heatmapSamples)
      ensures clockrate == clockrate' && objectCount == objectCount'
      ensures forall i, j :: 0 <= i < Width && 0 <= j < Height ==> heatmapSamples[i, j] == 0.0
    {
      heatmapSamples := new real[Width, Height]((i, j) => 0.0);
      clockrate := clockrate';
      objectCount := objectCount';
    }

    /**
     * `DifficultyValue`: the grid total less 0.75 per sparse cell, clamped at 0 and divided
     * by the number of cells. Nothing is written.
     */
    method DifficultyValue() returns (r: real)
      requires Valid()
      ensures r == Max(0.0, GridSum(heatmapSamples, Width)
                            - SparsePenalty * GridSparse(heatmapSamples, objectCount, Width) as real) / CellCount as real
      ensures r >= 0.0
    {
      var avg := 0.0;
      for x := 0 to Width
        invariant avg == GridSum(heatmapSamples, x) - SparsePenalty * GridSparse(heatmapSamples, objectCount, x) as real
      {
        for y := 0 to Height
          invariant avg == GridSum(heatmapSamples, x) + RowSum(heatmapSamples, x, y)
                           - SparsePenalty * (GridSparse(heatmapSamples, objectCount, x)
                                              + RowSparse(heatmapSamples, objectCount, x, y)) as real
        {
          avg := avg + heatmapSamples[x, y];
          if BelowHalf(heatmapSamples[x, y], objectCount) {
            avg := avg - SparsePenalty;
          }
        }
      }
      r := Max(0.0, avg) / CellCount as real;
    }

    /**
     * The `while` loop of `Process` once the object is known to be a projectile with a
     * positive speed: from `(x, y)`, add `clockrate` to the cell under the position and
     * advance by `(stepX, stepY)` (`move_X * speed`, `move_Y * speed`) until off the grid.
     */
    method March(x0: real, y0: real, stepX: real, stepY: real)
      requires Valid()
      requires stepX != 0.0 || stepY != 0.0
      modifies heatmapSamples
      ensures forall i, j :: 0 <= i < Width && 0 <= j < Height ==>
        heatmapSamples[i, j] == old(heatmapSamples[i, j]) + Deposit(clockrate, x0, y0, stepX, stepY, (i, j))
    {
      var x := x0;
      var y := y0;
      while InBounds(x, y)
        invariant forall i, j :: 0 <= i < Width && 0 <= j < Height ==>
          heatmapSamples[i, j] + Deposit(clockrate, x, y, stepX, stepY, (i, j))
          == old(heatmapSamples[i, j]) + Deposit(clockrate, x0, y0, stepX, stepY, (i, j))
        decreases StepsLeft(x, y, stepX, stepY)
      {
        StepUsesOne(x, y, stepX, stepY);
        heatmapSamples[x.Floor, y.Floor] := heatmapSamples[x.Floor, y.Floor] + clockrate;
        x := x + stepX;
        y := y + stepY;
      }
    }

    /**
     * `Process` for one object, with the projectile's fields passed in: whether it is an
     * `AngeledProjectile`, its position, `(Math.Cos(angle), Math.Sin(angle))` and its speed
     * multiplier. Every cell of the march gains `clockrate` once per visit.
     */
    method Process(isAngeledProjectile: bool, posX: real, posY: real, moveX: real, moveY: real, speed: real)
      requires Valid()
      requires moveX != 0.0 || moveY != 0.0
      modifies heatmapSamples
      ensures isAngeledProjectile && speed > 0.0 ==>
        forall i, j :: 0 <= i < Width && 0 <= j < Height ==>
          heatmapSamples[i, j] == old(heatmapSamples[i, j])
            + Deposit(clockrate, posX, posY, moveX * speed, moveY * speed, (i, j))
      ensures !isAngeledProjectile || speed <= 0.0 || !InBounds(posX, posY) ==>
        forall i, j :: 0 <= i < Width && 0 <= j < Height ==> heatmapSamples[i, j] == old(heatmapSamples[i, j])
      ensures clockrate >= 0.0 && old(NonNegative()) ==> NonNegative()
    {
      if isAngeledProjectile && speed > 0.0 {
        var stepX := moveX * speed;
        var stepY := moveY * speed;
        StepMoves(moveX, moveY, speed);
        March(posX, posY, stepX, stepY);
        if !InBounds(posX, posY) {
          forall i, j | 0 <= i < Width && 0 <= j < Height
            ensures heatmapSamples[i, j] == old(heatmapSamples[i, j])
          {
            assert Deposit(clockrate, posX, posY, stepX, stepY, (i, j)) == 0.0;
          }
        }
        if clockrate >= 0.0 && old(NonNegative()) {
          forall i, j | 0 <= i < heatmapSamples.Length0 && 0 <= j < heatmapSamples.Length1
            ensures heatmapSamples[i, j] >= 0.0
          {
            DepositNonNegative(clockrate, posX, posY, stepX, stepY, (i, j));
          }
        }
      }
    }
  }
}
