/** The probability field of the Galton board and the row-by-row expected distribution. */
module GaltonEngine {
  import opened Prelude

  const MIN_ROWS := 6
  const MAX_ROWS := 22
  const MIN_BALLS := 1_000
  const MAX_BALLS := 50_000
  const UINT32 := 0x1_0000_0000

  /** The double nearest to two pi, which is what `Math.PI * 2` evaluates to. */
  const TAU := 6.28318530717958623199592693708837032318115234375

  datatype Equation = Constant | Linear | Wave | Attractor

  datatype Config = Config(
    equation: Equation, rows: nat, ballCount: nat, seed: nat,
    baseProbability: real, spatialDrift: real, rowDrift: real,
    waveAmplitude: real, frequency: real, phase: real, centerPull: real)

  /** A JavaScript number as it arrives: a finite value, or NaN or an infinity. */
  datatype Num = Finite(value: real) | NotFinite

  datatype ConfigInput = ConfigInput(
    equation: Equation, rows: Num, ballCount: Num, seed: Num,
    baseProbability: Num, spatialDrift: Num, rowDrift: Num,
    waveAmplitude: Num, frequency: Num, phase: Num, centerPull: Num)

  function Clamp(value: real, minimum: real, maximum: real): real {
    var raised := if value >= minimum then value else minimum;
    if raised <= maximum then raised else maximum
  }

  function FiniteOr(n: Num, fallback: real): real {
    match n
    case Finite(v) => v
    case NotFinite => fallback
  }

  /** `Math.round`: halves go up. */
  function Round(x: real): int {
    (x + 0.5).Floor
  }

  /** What the sanitiser guarantees and the engine relies on. */
  predicate Legal(c: Config) {
    && MIN_ROWS <= c.rows <= MAX_ROWS
    && MIN_BALLS <= c.ballCount <= MAX_BALLS
    && c.seed < UINT32
    && 0.1 <= c.baseProbability <= 0.9
    && -0.35 <= c.spatialDrift <= 0.35
    && -0.3 <= c.rowDrift <= 0.3
    && 0.0 <= c.waveAmplitude <= 0.3
    && 0.25 <= c.frequency <= 4.0
    && 0.0 <= c.phase <= TAU
    && 0.0 <= c.centerPull <= 0.4
  }

  lemma RoundInRange(x: real, lo: int, hi: int)
    requires lo as real <= x <= hi as real
    ensures lo <= Round(x) <= hi
  {
  }

  function Sanitize(input: ConfigInput): (c: Config)
    ensures Legal(c) && c.equation == input.equation
  {
    var rows := Clamp(FiniteOr(input.rows, 16.0), MIN_ROWS as real, MAX_ROWS as real);
    var balls := Clamp(FiniteOr(input.ballCount, MAX_BALLS as real), MIN_BALLS as real, MAX_BALLS as real);
    RoundInRange(rows, MIN_ROWS, MAX_ROWS);
    RoundInRange(balls, MIN_BALLS, MAX_BALLS);
    Config(
      input.equation, Round(rows), Round(balls),
      Round(FiniteOr(input.seed, 20_260_817.0)) % UINT32,
      Clamp(FiniteOr(input.baseProbability, 0.5), 0.1, 0.9),
      Clamp(FiniteOr(input.spatialDrift, 0.0), -0.35, 0.35),
      Clamp(FiniteOr(input.rowDrift, 0.0), -0.3, 0.3),
      Clamp(FiniteOr(input.waveAmplitude, 0.0), 0.0, 0.3),
      Clamp(FiniteOr(input.frequency, 1.0), 0.25, 4.0),
      Clamp(FiniteOr(input.phase, 0.0), 0.0, TAU),
      Clamp(FiniteOr(input.centerPull, 0.0), 0.0, 0.4))
  }

  /** A sanitised configuration handed back to the engine as plain numbers. */
  function AsInput(c: Config): ConfigInput {
    ConfigInput(
      c.equation, Finite(c.rows as real), Finite(c.ballCount as real), Finite(c.seed as real),
      Finite(c.baseProbability), Finite(c.spatialDrift), Finite(c.rowDrift),
      Finite(c.waveAmplitude), Finite(c.frequency), Finite(c.phase), Finite(c.centerPull))
  }

  /** The sanitiser's image is exactly the legal configurations, and it leaves those alone: the
      simulator sanitises, then the distribution it calls sanitises again, and both see one board. */
  lemma SanitizeFixesExactlyTheLegal(c: Config)
    ensures Sanitize(AsInput(c)) == c <==> Legal(c)
  {
    if Legal(c) {
      assert Round(c.rows as real) == c.rows;
      assert Round(c.ballCount as real) == c.ballCount;
      assert Round(c.seed as real) == c.seed;
    }
  }

  /** The chance of a right turn at a node, as a function of row and rights so far. */
  type Field = (nat, nat) -> real

  function NodePosition(row: nat, rights: nat): real {
    if row <= 0 then 0.0 else (rights * 2 - row) as real / row as real
  }

  /** How far down the board a row is, from 0 to 1. */
  function RowShare(c: Config, row: nat): real {
    if c.rows <= 1 then 0.0 else row as real / (c.rows - 1) as real
  }

  function Angle(c: Config, row: nat): real {
    TAU * c.frequency * RowShare(c, row) + c.phase
  }

  /** The equation's value at a node. */
  function Raw(c: Config, sin: real -> real, row: nat, rights: nat): real {
    var x := NodePosition(row, rights);
    var u := RowShare(c, row);
    var wave := c.waveAmplitude * sin(Angle(c, row));
    match c.equation
    case Constant => c.baseProbability
    case Linear => c.baseProbability + (c.spatialDrift * x + c.rowDrift * (u * 2.0 - 1.0))
    case Wave => c.baseProbability + (c.spatialDrift * x + wave)
    case Attractor => c.baseProbability + (-c.centerPull * x + wave)
  }

  function RightProbability(c: Config, sin: real -> real, row: nat, rights: nat): real {
    Clamp(Raw(c, sin, row, rights), 0.02, 0.98)
  }

  /** The chance of each turn at each node of a configured board. */
  type Turns = (nat, nat, bool) -> real

  /** The two turns at a node share its probability. */
  function Coin(field: Field): Turns {
    (row: nat, rights: nat, right: bool) => if right then field(row, rights) else 1.0 - field(row, rights)
  }

  function FieldOf(c: Config, sin: real -> real): Field {
    (row: nat, rights: nat) => RightProbability(c, sin, row, rights)
  }

  ghost predicate Fair(t: Turns) {
    forall row, rights ::
      && 0.0 <= t(row, rights, true)
      && 0.0 <= t(row, rights, false)
      && t(row, rights, true) + t(row, rights, false) == 1.0
  }

  /** Whatever the equation and whatever `sin` returns, every node is a genuine coin. */
  lemma EveryNodeIsACoin(c: Config, sin: real -> real)
    ensures Fair(Coin(FieldOf(c, sin)))
  {
    forall row: nat, rights: nat ensures 0.0 <= FieldOf(c, sin)(row, rights) <= 1.0 {
    }
  }

  /** The 0.02-0.98 clamp never moves a legal constant field. */
  lemma ConstantFieldUnclamped(c: Config, sin: real -> real, row: nat, rights: nat)
    requires Legal(c) && c.equation == Constant
    ensures FieldOf(c, sin)(row, rights) == c.baseProbability
  {
  }
}
