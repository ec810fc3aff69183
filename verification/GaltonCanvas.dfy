/** Where the canvas draws an animated ball, and the bin under which it comes to rest. */
module GaltonCanvas {
  import opened Prelude
  import opened Products
  import opened GaltonEngine
  import opened GaltonPaths
  import opened GaltonSimulation

  const PI := TAU / 2.0

  /** The half-step a row contributes once `scaled` has run `scaled - row` of the way through it. */
  function HalfStep(right: bool, ran: real): real {
    if right then 0.5 * Clamp(ran, 0.0, 1.0) else -0.5 * Clamp(ran, 0.0, 1.0)
  }

  /** Sideways travel in gaps: every row's half-step, each in proportion to how far it has been run. */
  function Drift(path: nat, rows: nat, scaled: real): real {
    if rows == 0 then 0.0
    else Drift(path, rows - 1, scaled) + HalfStep(Bit(path, rows - 1), scaled - (rows - 1) as real)
  }

  /** Progress in rows. */
  function Scaled(progress: real, rows: nat): real {
    Times(Clamp(progress, 0.0, 1.0), rows as real)
  }

  /** The drawn x: the centre line plus the drift, in pixels. */
  function PositionX(path: nat, rows: nat, progress: real, centerX: real, gapX: real): real {
    centerX + Times(Drift(path, rows, Scaled(progress, rows)), gapX)
  }

  /** The x at which the histogram draws a bin. */
  function BinX(bin: nat, rows: nat, centerX: real, gapX: real): real {
    centerX + (bin as real - rows as real / 2.0) * gapX
  }

  lemma ScaledRange(progress: real, rows: nat)
    ensures 0.0 <= Scaled(progress, rows) <= rows as real
    ensures progress >= 1.0 ==> Scaled(progress, rows) == rows as real
  {
    hide Times;
    var c := Clamp(progress, 0.0, 1.0);
    Splits(1.0, c, 1.0 - c, rows as real);
    NonNegative(c, rows as real);
    NonNegative(1.0 - c, rows as real);
    Annihilates(rows as real);
  }

  lemma {:induction false} DriftOfRunRows(path: nat, rows: nat, scaled: real)
    requires scaled >= rows as real
    ensures Drift(path, rows, scaled) == BitCount(path, rows) as real - rows as real / 2.0
  {
    if rows > 0 { DriftOfRunRows(path, rows - 1, scaled); }
  }

  lemma {:induction false} DriftOfFutureRows(path: nat, now: nat, rows: nat, scaled: real)
    requires now <= rows && scaled <= now as real
    ensures Drift(path, rows, scaled) == Drift(path, now, scaled)
  {
    if now < rows { DriftOfFutureRows(path, now, rows - 1, scaled); }
  }

  /** Vertical travel, less the bounce, which is gone once the last row is run. */
  function PositionY(rows: nat, scaled: real, top: real, gapY: real, sin: real -> real): real {
    top + Times(scaled, gapY) -
    if scaled < rows as real then Bounce(scaled - scaled.Floor as real, gapY, sin) else 0.0
  }

  function Bounce(fraction: real, gapY: real, sin: real -> real): real {
    sin(fraction * PI) * gapY * 0.12
  }

  /** The rows already run, plus the part of the current one. */
  lemma DriftSplits(path: nat, rows: nat, scaled: real, completed: nat)
    requires completed <= rows && completed as real <= scaled <= rows as real
    requires completed < rows ==> scaled <= completed as real + 1.0
    ensures Drift(path, rows, scaled) ==
            BitCount(path, completed) as real - completed as real / 2.0 +
            if completed == rows then 0.0
            else if Bit(path, completed) then 0.5 * (scaled - completed as real) else -0.5 * (scaled - completed as real)
  {
    DriftOfRunRows(path, completed, scaled);
    if completed < rows { DriftOfFutureRows(path, completed + 1, rows, scaled); }
  }

  method ParticlePosition(path: nat, progress: real, rows: nat, centerX: real, gapX: real, top: real, gapY: real,
                          sin: real -> real)
    returns (x: real, y: real)
    ensures x == PositionX(path, rows, progress, centerX, gapX)
    ensures y == PositionY(rows, Scaled(progress, rows), top, gapY, sin)
  {
    hide Times, Bounce;
    var scaled := Clamp(progress, 0.0, 1.0) * rows as real;
    TimesIs(Clamp(progress, 0.0, 1.0), rows as real);
    ScaledRange(progress, rows);
    var completed: nat := Min(rows, scaled.Floor);
    var fraction := if scaled - completed as real <= 1.0 then scaled - completed as real else 1.0;
    var rights := 0;
    for row := 0 to completed
      invariant rights == BitCount(path, row)
    {
      if Bit(path, row) { rights := rights + 1; }
    }
    var run := rights as real - completed as real / 2.0;
    x := centerX + run * gapX;
    TimesIs(run, gapX);
    if completed < rows {
      var step := if Bit(path, completed) then 0.5 else -0.5;
      x := x + step * gapX * fraction;
      PartialStep(step, gapX, fraction);
      Splits(run + step * fraction, run, step * fraction, gapX);
    }
    DriftSplits(path, rows, scaled, completed);
    if scaled < rows as real {
      assert scaled.Floor < rows;
      assert fraction == scaled - scaled.Floor as real;
    }
    TimesIs(scaled, gapY);
    var bounce := if completed < rows then Bounce(fraction, gapY, sin) else 0.0;
    y := top + scaled * gapY - bounce;
  }

  lemma PartialStep(step: real, gapX: real, fraction: real)
    ensures step * gapX * fraction == Times(step * fraction, gapX)
  {
  }

  lemma EndsOverSetBits(path: nat, rows: nat, progress: real, centerX: real, gapX: real)
    requires progress >= 1.0
    ensures PositionX(path, rows, progress, centerX, gapX) == BinX(BitCount(path, rows), rows, centerX, gapX)
  {
    hide Times;
    ScaledRange(progress, rows);
    DriftOfRunRows(path, rows, Scaled(progress, rows));
    TimesIs(BitCount(path, rows) as real - rows as real / 2.0, gapX);
  }

  /** At progress 1 the drawn ball stands exactly over the bin that counts it. */
  lemma TraceEndsOverItsBin(config: Config, sin: real -> real, draws: nat -> real, start: nat, progress: real,
                            centerX: real, gapX: real)
    requires Legal(config) && progress >= 1.0
    ensures var ball := Trace(FieldOf(config, sin), draws, start, config.rows);
            PositionX(Encode(ball), config.rows, progress, centerX, gapX)
            == BinX(Rights(ball), config.rows, centerX, gapX)
  {
    hide RightProbability, Trace, PositionX, BinX, Encode;
    var ball := Trace(FieldOf(config, sin), draws, start, config.rows);
    SimulatedBall(config, sin, draws, start);
    EndsOverSetBits(Encode(ball), config.rows, progress, centerX, gapX);
  }

  function Abs(x: real): real { if x < 0.0 then -x else x }

  /** How much of the first `rows` rows has been run. */
  function Run(rows: nat, scaled: real): real {
    Clamp(scaled, 0.0, rows as real)
  }

  /** Half a gap per row at most: the drift cannot jump, at row boundaries or anywhere else. */
  lemma {:induction false} DriftIsLipschitz(path: nat, rows: nat, a: real, b: real)
    requires a <= b
    ensures Abs(Drift(path, rows, b) - Drift(path, rows, a)) <= (Run(rows, b) - Run(rows, a)) / 2.0
  {
    if rows > 0 { DriftIsLipschitz(path, rows - 1, a, b); }
  }

  lemma Monotone(a: real, b: real, c: real)
    requires 0.0 <= a <= b && c >= 0.0
    ensures Times(a, c) <= Times(b, c)
  {
    hide Times;
    Splits(b, a, b - a, c);
    NonNegative(b - a, c);
  }

  lemma ScaleAbs(d: real, bound: real, c: real)
    requires Abs(d) <= bound && c >= 0.0
    ensures Abs(Times(d, c)) <= Times(bound, c)
  {
    hide Times;
    Splits(bound, d, bound - d, c);
    NonNegative(bound - d, c);
    Splits(bound, -d, bound + d, c);
    NonNegative(bound + d, c);
    Splits(0.0, d, -d, c);
    Annihilates(c);
  }

  /** The drawn x is a continuous function of progress, with one Lipschitz bound for every path:
      half a gap per row run. */
  lemma PositionIsContinuous(path: nat, rows: nat, p: real, q: real, centerX: real, gapX: real)
    requires gapX >= 0.0 && p <= q
    ensures Abs(PositionX(path, rows, q, centerX, gapX) - PositionX(path, rows, p, centerX, gapX))
         <= Times(Times(q - p, rows as real) / 2.0, gapX)
  {
    hide Times;
    var a, b := Scaled(p, rows), Scaled(q, rows);
    ScaledRange(p, rows);
    ScaledRange(q, rows);
    var cp, cq := Clamp(p, 0.0, 1.0), Clamp(q, 0.0, 1.0);
    Splits(cq, cp, cq - cp, rows as real);
    NonNegative(cq - cp, rows as real);
    Monotone(cq - cp, q - p, rows as real);
    DriftIsLipschitz(path, rows, a, b);
    var d := Drift(path, rows, b) - Drift(path, rows, a);
    ScaleAbs(d, Times(q - p, rows as real) / 2.0, gapX);
    Splits(Drift(path, rows, b), Drift(path, rows, a), d, gapX);
  }
}
