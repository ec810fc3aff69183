/** The ball-by-ball simulation: each path packed into bits while its right turns are counted. */
module GaltonSimulation {
  import opened Prelude
  import opened GaltonEngine
  import opened GaltonPaths
  import opened GaltonMoments

  datatype Simulation = Simulation(
    config: Config, outcomes: seq<nat>, paths: seq<nat>, expected: seq<real>,
    expectedMean: real, expectedSigma: real)

  function Pow2(n: nat): (r: nat)
    ensures r >= 1
  {
    if n == 0 then 1 else 2 * Pow2(n - 1)
  }

  /** `(n >>> row) & 1`. */
  predicate Bit(n: nat, row: nat) {
    if row == 0 then n % 2 == 1 else Bit(n / 2, row - 1)
  }

  /** `n | (1 << row)`. */
  function SetBit(n: nat, row: nat): nat {
    if Bit(n, row) then n else n + Pow2(row)
  }

  function BitCount(n: nat, rows: nat): nat {
    if rows == 0 then 0 else BitCount(n, rows - 1) + if Bit(n, rows - 1) then 1 else 0
  }

  lemma {:induction false} HighBitIsClear(n: nat, row: nat)
    requires n < Pow2(row)
    ensures !Bit(n, row)
  {
    if row > 0 { HighBitIsClear(n / 2, row - 1); }
  }

  lemma {:induction false} AddingHighBit(n: nat, high: nat, row: nat)
    requires n < Pow2(high)
    ensures row < high ==> Bit(n + Pow2(high), row) == Bit(n, row)
    ensures Bit(n + Pow2(high), high)
  {
    if high > 0 {
      assert (n + Pow2(high)) / 2 == n / 2 + Pow2(high - 1);
      AddingHighBit(n / 2, high - 1, if row > 0 then row - 1 else 0);
    }
  }

  /** The packed form of a path: bit r is the turn taken at row r. */
  function Encode(path: Path): (n: nat)
    ensures n < Pow2(Length(path))
  {
    match path
    case Start => 0
    case Turn(before, right) => if right then Encode(before) + Pow2(Length(before)) else Encode(before)
  }

  predicate TurnAt(path: Path, row: nat)
    requires row < Length(path)
  {
    if row == Length(path.before) then path.right else TurnAt(path.before, row)
  }

  /** Reading the bits back gives the turns, so the packed form loses nothing. */
  lemma {:induction false} BitsAreTurns(path: Path, row: nat)
    requires row < Length(path)
    ensures Bit(Encode(path), row) == TurnAt(path, row)
  {
    var before := path.before;
    if path.right { AddingHighBit(Encode(before), Length(before), row); }
    if row < Length(before) {
      BitsAreTurns(before, row);
    } else if !path.right {
      HighBitIsClear(Encode(before), row);
    }
  }

  lemma {:induction false} SetBitsAreRights(path: Path, rows: nat)
    requires rows <= Length(path)
    ensures rows == Length(path) ==> BitCount(Encode(path), rows) == Rights(path)
    ensures path.Turn? && rows <= Length(path.before) ==>
            BitCount(Encode(path), rows) == BitCount(Encode(path.before), rows)
    decreases path, rows
  {
    if rows > 0 {
      BitsAreTurns(path, rows - 1);
      SetBitsAreRights(path, rows - 1);
      if rows == Length(path) {
        SetBitsAreRights(path.before, rows - 1);
      } else {
        BitsAreTurns(path.before, rows - 1);
      }
    }
  }

  /** What the draws from `start` on make one ball do. */
  function Trace(field: Field, draws: nat -> real, start: nat, rows: nat): (path: Path)
    ensures Length(path) == rows
  {
    if rows == 0 then Start
    else
      var before := Trace(field, draws, start, rows - 1);
      Turn(before, draws(start + rows - 1) < field(rows - 1, Rights(before)))
  }

  lemma NoTurns(field: Field, draws: nat -> real, start: nat)
    ensures var trace := Trace(field, draws, start, 0); Rights(trace) == 0 && Encode(trace) == 0
  {
  }

  lemma OneTurn(field: Field, draws: nat -> real, start: nat, row: nat)
    ensures var before, after := Trace(field, draws, start, row), Trace(field, draws, start, row + 1);
            if draws(start + row) < field(row, Rights(before)) then
              Rights(after) == Rights(before) + 1 && Encode(after) == SetBit(Encode(before), row)
            else
              Rights(after) == Rights(before) && Encode(after) == Encode(before)
  {
    HighBitIsClear(Encode(Trace(field, draws, start, row)), row);
  }

  /** One ball's inner loop; draw number `start + row` decides the turn at `row`. */
  method DropBall(field: Field, draws: nat -> real, start: nat, rows: nat) returns (rights: nat, path: nat)
    ensures rights == Rights(Trace(field, draws, start, rows))
    ensures path == Encode(Trace(field, draws, start, rows))
  {
    hide Bit, SetBit, Trace, Rights, Encode;
    NoTurns(field, draws, start);
    rights, path := 0, 0;
    for row := 0 to rows
      invariant rights == Rights(Trace(field, draws, start, row))
      invariant path == Encode(Trace(field, draws, start, row))
    {
      OneTurn(field, draws, start, row);
      if draws(start + row) < field(row, rights) {
        path := SetBit(path, row);
        rights := rights + 1;
      }
    }
  }

  /** The number of draws taken before a ball: every earlier ball takes one a row. */
  function DrawsBefore(ball: nat, rows: nat): nat {
    if ball == 0 then 0 else DrawsBefore(ball - 1, rows) + rows
  }

  /** A ball is what its own draws make it. */
  predicate Drops(field: Field, draws: nat -> real, rows: nat, ball: nat, outcome: nat, path: nat) {
    var trace := Trace(field, draws, DrawsBefore(ball, rows), rows);
    outcome == Rights(trace) && path == Encode(trace)
  }

  lemma NoDraws(rows: nat)
    ensures DrawsBefore(0, rows) == 0
  {
  }

  lemma DropsNow(field: Field, draws: nat -> real, rows: nat, ball: nat)
    ensures var trace := Trace(field, draws, DrawsBefore(ball, rows), rows);
            Drops(field, draws, rows, ball, Rights(trace), Encode(trace))
    ensures DrawsBefore(ball + 1, rows) == DrawsBefore(ball, rows) + rows
  {
  }

  method DropBalls(field: Field, draws: nat -> real, rows: nat, ballCount: nat)
    returns (outcomes: array<nat>, paths: array<nat>)
    ensures outcomes.Length == paths.Length == ballCount
    ensures forall ball :: 0 <= ball < ballCount ==> Drops(field, draws, rows, ball, outcomes[ball], paths[ball])
  {
    hide Drops, Trace, DrawsBefore, Rights, Encode;
    outcomes := new nat[ballCount](_ => 0);
    paths := new nat[ballCount](_ => 0);
    var drawn := 0;
    NoDraws(rows);
    for ball := 0 to ballCount
      invariant drawn == DrawsBefore(ball, rows)
      invariant forall b :: 0 <= b < ball ==> Drops(field, draws, rows, b, outcomes[b], paths[b])
    {
      var rights, path := DropBall(field, draws, drawn, rows);
      DropsNow(field, draws, rows, ball);
      paths[ball] := path;
      outcomes[ball] := rights;
      drawn := drawn + rows;
    }
  }

  method SimulateGalton(input: ConfigInput, sin: real -> real, sqrt: real -> real, draws: nat -> real)
    returns (sim: Simulation)
    ensures sim.config == Sanitize(input)
    ensures |sim.outcomes| == |sim.paths| == sim.config.ballCount
    ensures forall ball :: 0 <= ball < |sim.outcomes| ==>
              Drops(FieldOf(sim.config, sin), draws, sim.config.rows, ball, sim.outcomes[ball], sim.paths[ball])
    ensures sim.expected == Distribution(Coin(FieldOf(sim.config, sin)), sim.config.rows)
    ensures sim.expectedMean == Mean(sim.expected, 1.0)
    ensures sim.expectedSigma == sqrt(Variance(sim.expected, 1.0))
  {
    hide Drops, Distribution, Moment;
    var config := Sanitize(input);
    var outcomes, paths := DropBalls(FieldOf(config, sin), draws, config.rows, config.ballCount);
    SanitizeFixesExactlyTheLegal(config);
    var expected := ExpectedDistribution(AsInput(config), sin);
    var summary := SummarizeDistribution(expected[..], 1.0, sqrt);
    return Simulation(config, outcomes[..], paths[..], expected[..], summary.mean, summary.sigma);
  }

  lemma {:induction false} Pow2Grows(m: nat, n: nat)
    requires m <= n
    ensures Pow2(m) <= Pow2(n)
  {
    if m < n { Pow2Grows(m, n - 1); }
  }

  lemma TopPath()
    ensures Pow2(22) == 0x40_0000
  {
    assert Pow2(2) == 0x4;
    assert Pow2(4) == 0x10;
    assert Pow2(6) == 0x40;
    assert Pow2(8) == 0x100;
    assert Pow2(10) == 0x400;
    assert Pow2(12) == 0x1000;
    assert Pow2(14) == 0x4000;
    assert Pow2(16) == 0x1_0000;
    assert Pow2(18) == 0x4_0000;
    assert Pow2(20) == 0x10_0000;
  }

  /** Every ball of every legal board: its path fits the packed word, has as many set bits as its
      outcome, and its outcome is a legal bin of the byte-sized outcome array. */
  lemma SimulatedBall(config: Config, sin: real -> real, draws: nat -> real, start: nat)
    requires Legal(config)
    ensures var ball := Trace(FieldOf(config, sin), draws, start, config.rows);
            && Rights(ball) <= config.rows < 0x100
            && Encode(ball) < Pow2(config.rows) <= UINT32
            && BitCount(Encode(ball), config.rows) == Rights(ball)
            && (forall row :: 0 <= row < config.rows ==> Bit(Encode(ball), row) == TurnAt(ball, row))
  {
    hide RightProbability;
    var ball := Trace(FieldOf(config, sin), draws, start, config.rows);
    SetBitsAreRights(ball, config.rows);
    forall row | 0 <= row < config.rows ensures Bit(Encode(ball), row) == TurnAt(ball, row) {
      BitsAreTurns(ball, row);
    }
    Pow2Grows(config.rows, 22);
    TopPath();
  }
}
