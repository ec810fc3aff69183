/** What each equation of the board says about its probability field, and what that does to the distribution. */
module GaltonFields {
  import opened Prelude
  import opened Products
  import opened GaltonEngine
  import opened GaltonPaths
  import opened GaltonMoments

  // ---------------------------------------------------------------- the sanitiser

  /** `v` is the point of the interval nearest to what was asked for. */
  ghost predicate NearestIn(v: real, asked: Num, default: real, lo: real, hi: real) {
    var x := match asked case Finite(y) => y case NotFinite => default;
    && (x < lo ==> v == lo)
    && (x > hi ==> v == hi)
    && (lo <= x <= hi ==> v == x)
  }

  /** `n` is the whole number nearest to `x`, the upper one of two. */
  ghost predicate Rounds(n: int, x: real) {
    n as real - 0.5 <= x < n as real + 0.5
  }

  /** Every field becomes the legal value nearest to the one asked for, or its default when that is no number. */
  lemma SanitizeIsNearest(input: ConfigInput)
    ensures var c := Sanitize(input);
            && (exists x :: NearestIn(x, input.rows, 16.0, 6.0, 22.0) && Rounds(c.rows, x))
            && (exists x :: NearestIn(x, input.ballCount, 50_000.0, 1_000.0, 50_000.0) && Rounds(c.ballCount, x))
            && NearestIn(c.baseProbability, input.baseProbability, 0.5, 0.1, 0.9)
            && NearestIn(c.spatialDrift, input.spatialDrift, 0.0, -0.35, 0.35)
            && NearestIn(c.rowDrift, input.rowDrift, 0.0, -0.3, 0.3)
            && NearestIn(c.waveAmplitude, input.waveAmplitude, 0.0, 0.0, 0.3)
            && NearestIn(c.frequency, input.frequency, 1.0, 0.25, 4.0)
            && NearestIn(c.phase, input.phase, 0.0, 0.0, TAU)
            && NearestIn(c.centerPull, input.centerPull, 0.0, 0.0, 0.4)
  {
    var rows := Clamp(FiniteOr(input.rows, 16.0), 6.0, 22.0);
    assert NearestIn(rows, input.rows, 16.0, 6.0, 22.0) && Rounds(Sanitize(input).rows, rows);
    var balls := Clamp(FiniteOr(input.ballCount, 50_000.0), 1_000.0, 50_000.0);
    assert NearestIn(balls, input.ballCount, 50_000.0, 1_000.0, 50_000.0) && Rounds(Sanitize(input).ballCount, balls);
  }

  /** The seed keeps the low 32 bits of the rounded number. */
  lemma SanitizedSeed(input: ConfigInput, n: int)
    requires Rounds(n, match input.seed case Finite(x) => x case NotFinite => 20_260_817.0)
    ensures 0 <= Sanitize(input).seed < 0x1_0000_0000 && (n - Sanitize(input).seed) % 0x1_0000_0000 == 0
  {
    var x := FiniteOr(input.seed, 20_260_817.0);
    assert Round(x) == n;
    assert Sanitize(input).seed == n % 0x1_0000_0000;
  }

  // ---------------------------------------------------------------- the field

  /** A node as the simulator meets it. */
  predicate Node(c: Config, row: nat, rights: nat) { row < c.rows && rights <= row }

  /** The clamp did not act. */
  predicate Interior(chance: real) { 0.02 < chance < 0.98 }

  /** What the middle of a row gets before the clamp. */
  function RowLevel(c: Config, sin: real -> real, row: nat): real
    requires c.rows >= 2
  {
    match c.equation
    case Constant => c.baseProbability
    case Linear => c.baseProbability - c.rowDrift + Times(c.rowDrift, 2.0 * RowShare(c, row))
    case _ => c.baseProbability + Times(c.waveAmplitude, sin(Angle(c, row)))
  }

  /** How much one full half-width to the right adds. */
  function Pull(c: Config): real {
    match c.equation
    case Constant => 0.0
    case Linear => c.spatialDrift
    case Wave => c.spatialDrift
    case Attractor => -c.centerPull
  }

  /** The two parts of the field, before the clamp. */
  lemma FieldParts(c: Config, sin: real -> real, row: nat, rights: nat)
    requires c.rows >= 2
    ensures Raw(c, sin, row, rights) == RowLevel(c, sin, row) + Times(Pull(c), NodePosition(row, rights))
    ensures RightProbability(c, sin, row, rights) == Clamp(Raw(c, sin, row, rights), 0.02, 0.98)
  {
    hide NodePosition, Clamp, RowShare, Angle;
    if c.equation == Linear { RampParts(c.rowDrift, RowShare(c, row)); }
  }

  lemma RampParts(drift: real, u: real)
    ensures drift * (u * 2.0 - 1.0) == Times(drift, 2.0 * u) - drift
  {
    Expands(drift, u * 2.0, 1.0);
  }

  lemma Expands(a: real, b: real, c: real)
    ensures a * (b - c) == a * b - a * c
  {
  }

  lemma MirroredPosition(row: nat, rights: nat)
    requires rights <= row
    ensures NodePosition(row, row - rights) == -NodePosition(row, rights)
    ensures 2 * rights == row ==> NodePosition(row, rights) == 0.0
  {
    if row > 0 {
      var a, b := (rights * 2 - row) as real, ((row - rights) * 2 - row) as real;
      assert b == -a;
    }
  }

  lemma PositionSteps(row: nat, r1: nat, r2: nat)
    requires 0 < row && r1 <= row && r2 <= row
    ensures NodePosition(row, r2) - NodePosition(row, r1) == 2.0 * (r2 as real - r1 as real) / row as real
    ensures r1 <= r2 ==> NodePosition(row, r1) <= NodePosition(row, r2)
  {
    var d := row as real;
    var a, b := (r1 * 2 - row) as real, (r2 * 2 - row) as real;
    assert b - a == 2.0 * (r2 as real - r1 as real);
    assert b / d - a / d == (b - a) / d;
    if r1 <= r2 { Quotients(a, b, d); }
  }

  lemma Quotients(a: real, b: real, d: real)
    requires a <= b && d > 0.0
    ensures a / d <= b / d
  {
  }

  /** Every node's chance stays between 2 and 98 percent. */
  lemma FieldStaysInRange(c: Config, sin: real -> real, row: nat, rights: nat)
    ensures 0.02 <= FieldOf(c, sin)(row, rights) <= 0.98
  {
  }

  /** Two nodes placed symmetrically average to the level of their row, as far as neither is clamped; so the
      middle node of a row has exactly that level. */
  lemma MirrorLaw(c: Config, sin: real -> real, row: nat, rights: nat)
    requires c.rows >= 2 && rights <= row
    requires Interior(FieldOf(c, sin)(row, rights)) && Interior(FieldOf(c, sin)(row, row - rights))
    ensures FieldOf(c, sin)(row, rights) + FieldOf(c, sin)(row, row - rights) == 2.0 * RowLevel(c, sin, row)
  {
    hide Raw, RightProbability, NodePosition, RowLevel, Times;
    FieldParts(c, sin, row, rights);
    FieldParts(c, sin, row, row - rights);
    MirroredPosition(row, rights);
    Opposite(Pull(c), NodePosition(row, rights));
  }

  lemma Opposite(k: real, x: real)
    ensures Times(k, -x) == -Times(k, x)
  {
  }

  lemma ShiftsBy(k: real, x: real, y: real)
    ensures Times(k, y) - Times(k, x) == k * (y - x)
    ensures x <= y && k >= 0.0 ==> Times(k, x) <= Times(k, y)
    ensures x <= y && k <= 0.0 ==> Times(k, x) >= Times(k, y)
  {
  }

  /** Along a row the chance changes by the equation's own slope, as far as neither node is clamped: drift to the
      right for linear and wave, pull to the centre for the attractor, nothing for the constant field. */
  lemma SlopeLaw(c: Config, sin: real -> real, row: nat, r1: nat, r2: nat)
    requires c.rows >= 2 && 0 < row && r1 <= row && r2 <= row
    requires Interior(FieldOf(c, sin)(row, r1)) && Interior(FieldOf(c, sin)(row, r2))
    ensures FieldOf(c, sin)(row, r2) - FieldOf(c, sin)(row, r1) ==
            (match c.equation
             case Constant => 0.0
             case Linear => c.spatialDrift
             case Wave => c.spatialDrift
             case Attractor => -c.centerPull) * (2.0 * (r2 as real - r1 as real) / row as real)
  {
    hide Raw, RightProbability, NodePosition, RowLevel, Times;
    FieldParts(c, sin, row, r1);
    FieldParts(c, sin, row, r2);
    PositionSteps(row, r1, r2);
    ShiftsBy(Pull(c), NodePosition(row, r1), NodePosition(row, r2));
  }

  /** Clamped or not: further right means a higher chance where drift is to the right, and a lower one where the
      attractor pulls back. */
  lemma RightwardOrder(c: Config, sin: real -> real, row: nat, r1: nat, r2: nat)
    requires c.rows >= 2 && r1 <= r2 <= row
    ensures (c.equation == Linear || c.equation == Wave) && c.spatialDrift >= 0.0 ==>
              FieldOf(c, sin)(row, r1) <= FieldOf(c, sin)(row, r2)
    ensures (c.equation == Linear || c.equation == Wave) && c.spatialDrift <= 0.0 ==>
              FieldOf(c, sin)(row, r1) >= FieldOf(c, sin)(row, r2)
    ensures c.equation == Attractor && c.centerPull >= 0.0 ==> FieldOf(c, sin)(row, r1) >= FieldOf(c, sin)(row, r2)
  {
    hide Raw, RightProbability, NodePosition, RowLevel, Times;
    FieldParts(c, sin, row, r1);
    FieldParts(c, sin, row, r2);
    if row > 0 { PositionSteps(row, r1, r2); }
    ShiftsBy(Pull(c), NodePosition(row, r1), NodePosition(row, r2));
  }

  /** The middle node of a row has exactly the row's level, clamped. */
  lemma MiddleOfTheRow(c: Config, sin: real -> real, rights: nat)
    requires c.rows >= 2
    ensures var level := RowLevel(c, sin, 2 * rights);
            FieldOf(c, sin)(2 * rights, rights) == if level < 0.02 then 0.02 else if level > 0.98 then 0.98 else level
  {
    hide Raw, RightProbability, NodePosition, Times, Pull, RowLevel;
    FieldParts(c, sin, 2 * rights, rights);
    MirroredPosition(2 * rights, rights);
    Annihilates(Pull(c));
  }

  /** The levels: base for the constant field, a straight ramp over the rows from base - rowDrift to
      base + rowDrift for the linear one, and the sine for the other two. */
  lemma RowLevelSpelled(c: Config, sin: real -> real, row: nat)
    requires c.rows >= 2
    ensures var last := (c.rows - 1) as real;
            RowLevel(c, sin, row) ==
              match c.equation
              case Constant => c.baseProbability
              case Linear => c.baseProbability + c.rowDrift * ((2.0 * row as real - last) / last)
              case _ => c.baseProbability + c.waveAmplitude * sin(TAU * c.frequency * (row as real / last) + c.phase)
  {
    if c.equation == Linear {
      hide Times;
      Ramp(c, row);
      TiltSpelled(c, row);
    } else {
      assert Angle(c, row) == TAU * c.frequency * (row as real / (c.rows - 1) as real) + c.phase;
      hide Angle;
      TimesIs(c.waveAmplitude, sin(Angle(c, row)));
    }
  }

  lemma TiltSpelled(c: Config, row: nat)
    requires c.rows >= 2
    ensures Tilt(c, row) == (2.0 * row as real - (c.rows - 1) as real) / (c.rows - 1) as real
  {
  }

  lemma Ramp(c: Config, row: nat)
    requires c.rows >= 2
    ensures Times(c.rowDrift, 2.0 * RowShare(c, row)) - c.rowDrift == c.rowDrift * Tilt(c, row)
  {
    var u := RowShare(c, row);
    TiltIs(c, row);
    RampParts(c.rowDrift, u);
    hide Tilt;
    assert Tilt(c, row) == u * 2.0 - 1.0;
  }

  /** From -1 in the first row to 1 in the last. */
  function Tilt(c: Config, row: nat): real
    requires c.rows >= 2
  {
    (2.0 * row as real - (c.rows - 1) as real) / (c.rows - 1) as real
  }

  lemma TiltIs(c: Config, row: nat)
    requires c.rows >= 2
    ensures Tilt(c, row) == 2.0 * RowShare(c, row) - 1.0
    ensures row < c.rows ==> -1.0 <= Tilt(c, row) <= 1.0
  {
    var last, x := (c.rows - 1) as real, row as real;
    Fractions(x, last);
    if row < c.rows {
      Quotients(-last, 2.0 * x - last, last);
      Quotients(2.0 * x - last, last, last);
    }
  }

  // ---------------------------------------------------------------- sums

  /** The sum of `f` over 0, 1, ..., m - 1. */
  function SumTo(f: nat -> real, m: nat): real {
    if m == 0 then 0.0 else SumTo(f, m - 1) + f(m - 1)
  }

  lemma {:induction false} SumAgrees(f: nat -> real, g: nat -> real, m: nat)
    requires forall k :: 0 <= k < m ==> f(k) == g(k)
    ensures SumTo(f, m) == SumTo(g, m)
  {
    if m > 0 { SumAgrees(f, g, m - 1); }
  }

  lemma {:induction false} SumFromFirst(f: nat -> real, m: nat)
    requires m > 0
    ensures SumTo(f, m) == f(0) + SumTo((k: nat) => f(k + 1), m - 1)
  {
    if m > 1 { SumFromFirst(f, m - 1); }
  }

  /** A sum read backwards. */
  lemma {:induction false} SumReverses(f: nat -> real, g: nat -> real, m: nat)
    requires forall k :: 0 <= k < m ==> g(k) == f(m - 1 - k)
    ensures SumTo(g, m) == SumTo(f, m)
  {
    if m > 0 {
      SumFromFirst(g, m);
      var next := (k: nat) => g(k + 1);
      forall k | 0 <= k < m - 1 ensures next(k) == f(m - 1 - 1 - k) {
        assert next(k) == g(k + 1);
      }
      SumReverses(f, next, m - 1);
    }
  }

  lemma {:induction false} MomentIsSum(f: nat -> real, d: seq<real>, g: nat -> real, m: nat)
    requires m <= |d| && forall k :: 0 <= k < m ==> g(k) == Times(d[k], f(k))
    ensures Moment(f, d, m) == SumTo(g, m)
  {
    hide Times;
    if m > 0 { MomentIsSum(f, d, g, m - 1); }
  }

  // ---------------------------------------------------------------- boards the same from both sides

  /** A right turn at a node is as likely as a left turn at its mirror image. */
  ghost predicate Mirrored(p: Turns, rows: nat) {
    forall row: nat, k: nat :: row < rows && k <= row ==> p(row, k, true) == p(row, row - k, false)
  }

  /** On such a board the path sums read the same from both ends. */
  lemma {:induction false} MirroredMass(p: Turns, rows: nat, k: int)
    requires Mirrored(p, rows) && 0 <= k <= rows
    ensures PathMass(p, rows, k) == PathMass(p, rows, rows - k)
  {
    hide PathMass, Times;
    if rows > 0 {
      var n := rows - 1;
      assert Mirrored(p, n);
      PathMassStep(p, n, k);
      PathMassStep(p, n, rows - k);
      if k <= n {
        MirroredMass(p, n, k);
        assert Stay(p, n, k) == Enter(p, n, rows - k) by { MirroredTurns(p, n, k); }
      } else {
        PathMassOutside(p, n, k);
        PathMassOutside(p, n, -1);
        Annihilates(Stay(p, n, k));
        Annihilates(Enter(p, n, rows - k));
      }
      if k >= 1 {
        MirroredMass(p, n, k - 1);
        assert Enter(p, n, k) == Stay(p, n, rows - k) by { MirroredTurns(p, n, rows - k); }
      } else {
        PathMassOutside(p, n, -1);
        PathMassOutside(p, n, rows);
        Annihilates(Enter(p, n, k));
        Annihilates(Stay(p, n, rows - k));
      }
    }
  }

  lemma MirroredTurns(p: Turns, n: nat, k: nat)
    requires Mirrored(p, n + 1) && k <= n
    ensures Stay(p, n, k) == Enter(p, n, n + 1 - k)
  {
    assert p(n, n - k, true) == p(n, n - (n - k), false);
  }

  ghost predicate Palindrome(d: seq<real>) {
    forall k :: 0 <= k < |d| ==> d[k] == d[|d| - 1 - k]
  }

  /** A palindrome of total mass one balances in its middle. */
  lemma PalindromeMean(d: seq<real>)
    requires d != [] && Palindrome(d) && Moment(One(), d, |d|) == 1.0
    ensures Mean(d, 1.0) == (|d| - 1) as real / 2.0
  {
    hide Times;
    var top := (|d| - 1) as real;
    var f := (k: nat) => if k < |d| then Times(d[k], k as real) else 0.0;
    var g := (k: nat) => if k < |d| then Times(d[k], top - k as real) else 0.0;
    var mass := (k: nat) => if k < |d| then Times(d[k], 1.0) else 0.0;
    MomentIsSum(Index(), d, f, |d|);
    MomentIsSum(One(), d, mass, |d|);
    forall k | 0 <= k < |d| ensures g(k) == f(|d| - 1 - k) {
      assert d[k] == d[|d| - 1 - k];
    }
    SumReverses(f, g, |d|);
    SumsTogether(f, g, mass, top, |d|, d);
    Annihilates(top);
  }

  lemma {:induction false} SumsTogether(f: nat -> real, g: nat -> real, mass: nat -> real, top: real, m: nat, d: seq<real>)
    requires m <= |d|
    requires forall k :: 0 <= k < m ==>
               f(k) == Times(d[k], k as real) && g(k) == Times(d[k], top - k as real) && mass(k) == Times(d[k], 1.0)
    ensures SumTo(f, m) + SumTo(g, m) == Times(SumTo(mass, m), top)
  {
    hide Times;
    if m == 0 {
      Annihilates(top);
    } else {
      SumsTogether(f, g, mass, top, m - 1, d);
      var k := (m - 1) as real;
      Splits(top, k, top - k, d[m - 1]);
      Annihilates(d[m - 1]);
      Splits(SumTo(mass, m), SumTo(mass, m - 1), mass(m - 1), top);
    }
  }

  /** Every row's level is one half: the linear field without row drift, and the others without a wave, at base 0.5. */
  ghost predicate Balanced(c: Config, sin: real -> real) {
    c.rows >= 2 && forall row: nat :: row < c.rows ==> RowLevel(c, sin, row) == 0.5
  }

  lemma HalfBoardsAreBalanced(c: Config, sin: real -> real)
    requires Legal(c) && c.baseProbability == 0.5
    requires c.equation == Linear ==> c.rowDrift == 0.0
    requires c.equation == Wave || c.equation == Attractor ==> c.waveAmplitude == 0.0
    ensures Balanced(c, sin)
  {
    forall row: nat | row < c.rows ensures RowLevel(c, sin, row) == 0.5 {
      Annihilates(2.0 * RowShare(c, row));
      Annihilates(sin(Angle(c, row)));
    }
  }

  /** A balanced board is mirrored node by node, clamped or not. */
  lemma BalancedIsMirrored(c: Config, sin: real -> real)
    requires Balanced(c, sin)
    ensures Mirrored(Coin(FieldOf(c, sin)), c.rows)
  {
    var p := Coin(FieldOf(c, sin));
    hide Raw, RightProbability, NodePosition, RowLevel, Times;
    forall row: nat, k: nat | row < c.rows && k <= row ensures p(row, k, true) == p(row, row - k, false) {
      FieldParts(c, sin, row, k);
      FieldParts(c, sin, row, row - k);
      MirroredPosition(row, k);
      Opposite(Pull(c), NodePosition(row, k));
    }
  }

  /** So its distribution is a palindrome with mean R/2, whatever the drift or pull across a row. */
  lemma BalancedBoard(c: Config, sin: real -> real)
    requires Legal(c) && Balanced(c, sin)
    ensures var d := Distribution(Coin(FieldOf(c, sin)), c.rows);
            Palindrome(d) && Mean(d, 1.0) == c.rows as real / 2.0
  {
    hide Balanced, PathMass, Moment, Fair;
    var p := Coin(FieldOf(c, sin));
    BalancedIsMirrored(c, sin);
    EveryNodeIsACoin(c, sin);
    TotalMassIsOne(p, c.rows);
    hide FieldOf, Coin, Mirrored;
    var d := Distribution(p, c.rows);
    forall k | 0 <= k < |d| ensures d[k] == d[|d| - 1 - k] { MirroredMass(p, c.rows, k); }
    hide Palindrome;
    PalindromeMean(d);
  }

  // ---------------------------------------------------------------- boards that depend on the row alone

  /** The chance of a right turn is `q(row)` wherever the ball is. */
  ghost predicate RowOnly(p: Turns, q: nat -> real, rows: nat) {
    forall row: nat, k: nat :: row < rows ==> p(row, k, true) == q(row) && p(row, k, false) == 1.0 - q(row)
  }

  /** Then the mean is the sum of the rows' chances. */
  lemma {:induction false} RowOnlyMean(p: Turns, q: nat -> real, rows: nat)
    requires Fair(p) && RowOnly(p, q, rows)
    ensures Moment(Index(), Distribution(p, rows), rows + 1) == SumTo(q, rows)
  {
    hide Times, PathMass, Moment;
    if rows == 0 {
      MomentAtTop(p, Index());
    } else {
      var n := rows - 1;
      RowOnlyMean(p, q, n);
      MomentStep(p, n, Index());
      TotalMassIsOne(p, n);
      var g := GaltonMoments.Pull(p, n, Index());
      forall k: nat ensures g(k) == Index()(k) + Times(One()(k), 0.0) + q(n) {
        Annihilates(1.0);
        assert p(n, k, true) == q(n);
        StepByOne(q(n), k as real, (k + 1) as real);
      }
      MomentCombines(g, Index(), One(), 0.0, q(n), Distribution(p, n), rows);
      Annihilates(1.0);
      Annihilates(q(n));
    }
  }

  /** Without spatial drift the linear field depends on the row alone. */
  lemma LinearWithoutSpatialDrift(c: Config, sin: real -> real, row: nat, r1: nat, r2: nat)
    requires Legal(c) && c.equation == Linear && c.spatialDrift == 0.0
    ensures FieldOf(c, sin)(row, r1) == FieldOf(c, sin)(row, r2)
  {
    hide Raw, RightProbability, RowLevel, NodePosition, Times;
    FieldParts(c, sin, row, r1);
    FieldParts(c, sin, row, r2);
    Annihilates(NodePosition(row, r1));
    Annihilates(NodePosition(row, r2));
  }

  lemma Fractions(x: real, last: real)
    requires last > 0.0
    ensures (2.0 * x - last) / last == 2.0 * (x / last) - 1.0
    ensures -last / last == -1.0 && last / last == 1.0
  {
    var a, b := (2.0 * x - last) / last, 2.0 * (x / last) - 1.0;
    Restores(2.0 * x - last, last);
    Restores(x, last);
    assert b * last == 2.0 * (x / last * last) - last;
    Cancels(a, b, last);
  }

  lemma Restores(x: real, d: real)
    requires d > 0.0
    ensures x / d * d == x
  {
  }

  lemma Cancels(a: real, b: real, d: real)
    requires a * d == b * d && d > 0.0
    ensures a == b
  {
  }

  /** The ramp summed over the first `m` of `rows` rows. */
  function Area(m: real, rows: real): real
    requires rows >= 2.0
  {
    m * (m - rows) / (rows - 1.0)
  }

  lemma {:induction false} TiltSum(c: Config, f: nat -> real, m: nat)
    requires c.rows >= 2 && forall row :: 0 <= row < m ==> f(row) == Tilt(c, row)
    ensures SumTo(f, m) == Area(m as real, c.rows as real)
  {
    if m == 0 {
      assert Area(0.0, c.rows as real) == 0.0;
    } else {
      TiltSum(c, f, m - 1);
      TiltStep(c, m - 1);
      hide Area, Tilt;
      assert m as real == (m - 1) as real + 1.0;
    }
  }

  lemma TiltStep(c: Config, row: nat)
    requires c.rows >= 2
    ensures Area(row as real, c.rows as real) + Tilt(c, row) == Area(row as real + 1.0, c.rows as real)
  {
    var k, rows := row as real, c.rows as real;
    var last := rows - 1.0;
    var a, b := k * (k - rows), 2.0 * k - last;
    assert (k + 1.0) * (k + 1.0 - rows) == a + b;
    assert (a + b) / last == a / last + b / last;
    assert (c.rows - 1) as real == last;
  }

  lemma {:induction false} SumCombines(f: nat -> real, q: nat -> real, base: real, drift: real, m: nat)
    requires forall row :: 0 <= row < m ==> q(row) == base + Times(drift, f(row))
    ensures SumTo(q, m) == Times(m as real, base) + Times(drift, SumTo(f, m))
  {
    hide Times;
    if m == 0 {
      Annihilates(base);
      Annihilates(drift);
    } else {
      SumCombines(f, q, base, drift, m - 1);
      Splits(m as real, (m - 1) as real, 1.0, base);
      Annihilates(base);
      Distributes(SumTo(f, m - 1), f(m - 1), drift);
    }
  }

  /** Unclamped, such a board has the mean of the constant one: R times the base, for the ramp's rows cancel. */
  lemma RampBoard(c: Config, sin: real -> real)
    requires Legal(c) && c.equation == Linear && c.spatialDrift == 0.0
    requires 0.02 <= c.baseProbability - c.rowDrift <= 0.98 && 0.02 <= c.baseProbability + c.rowDrift <= 0.98
    ensures Mean(Distribution(Coin(FieldOf(c, sin)), c.rows), 1.0) == c.rows as real * c.baseProbability
  {
    hide PathMass, Moment, RightProbability, Times, Distribution, FieldOf, Fair, RowOnly, Coin, SumTo;
    var p, field := Coin(FieldOf(c, sin)), FieldOf(c, sin);
    var q := (row: nat) => field(row, 0);
    EveryNodeIsACoin(c, sin);
    LinearIsRowOnly(c, sin, q);
    RowOnlyMean(p, q, c.rows);
    RampTotal(c, sin, q);
    TimesIs(c.rows as real, c.baseProbability);
    WholeMean(Distribution(p, c.rows));
  }

  lemma LinearIsRowOnly(c: Config, sin: real -> real, q: nat -> real)
    requires Legal(c) && c.equation == Linear && c.spatialDrift == 0.0
    requires forall row: nat :: q(row) == FieldOf(c, sin)(row, 0)
    ensures RowOnly(Coin(FieldOf(c, sin)), q, c.rows)
  {
    hide RightProbability, Legal;
    var p := Coin(FieldOf(c, sin));
    forall row: nat, k: nat | row < c.rows ensures p(row, k, true) == q(row) && p(row, k, false) == 1.0 - q(row) {
      LinearWithoutSpatialDrift(c, sin, row, k, 0);
    }
  }

  lemma RampTotal(c: Config, sin: real -> real, q: nat -> real)
    requires Legal(c) && c.equation == Linear && c.spatialDrift == 0.0
    requires 0.02 <= c.baseProbability - c.rowDrift <= 0.98 && 0.02 <= c.baseProbability + c.rowDrift <= 0.98
    requires forall row: nat :: q(row) == FieldOf(c, sin)(row, 0)
    ensures SumTo(q, c.rows) == Times(c.rows as real, c.baseProbability)
  {
    assert c.rows >= 2;
    hide Tilt, Times, FieldOf, SumTo, Legal;
    var tilt := (row: nat) => Tilt(c, row);
    forall row | 0 <= row < c.rows ensures q(row) == c.baseProbability + Times(c.rowDrift, tilt(row)) {
      RampIsUnclamped(c, sin, row);
    }
    SumCombines(tilt, q, c.baseProbability, c.rowDrift, c.rows);
    TiltTotal(c, tilt);
    Annihilates(c.rowDrift);
  }

  /** The ramp's rows cancel. */
  lemma TiltTotal(c: Config, f: nat -> real)
    requires c.rows >= 2 && forall row :: 0 <= row < c.rows ==> f(row) == Tilt(c, row)
    ensures SumTo(f, c.rows) == 0.0
  {
    hide Tilt, SumTo;
    TiltSum(c, f, c.rows);
    NoTilt(c.rows as real, c.rows as real - 1.0);
  }

  lemma WholeMean(d: seq<real>)
    ensures Mean(d, 1.0) == Moment(Index(), d, |d|)
  {
  }

  lemma NoTilt(m: real, last: real)
    requires last > 0.0
    ensures m * (m - m) / last == 0.0
  {
    assert m * (m - m) == 0.0;
  }

  lemma RampIsUnclamped(c: Config, sin: real -> real, row: nat)
    requires Legal(c) && c.equation == Linear && c.spatialDrift == 0.0 && row < c.rows
    requires 0.02 <= c.baseProbability - c.rowDrift <= 0.98 && 0.02 <= c.baseProbability + c.rowDrift <= 0.98
    ensures FieldOf(c, sin)(row, 0) == c.baseProbability + Times(c.rowDrift, Tilt(c, row))
  {
    hide Raw, NodePosition, Tilt, Times, RowShare;
    FieldParts(c, sin, row, 0);
    Annihilates(NodePosition(row, 0));
    Ramp(c, row);
    TiltIs(c, row);
    TimesIs(c.rowDrift, Tilt(c, row));
    WithinRange(c.baseProbability, c.rowDrift, Tilt(c, row));
  }

  lemma WithinRange(base: real, drift: real, t: real)
    requires -1.0 <= t <= 1.0 && 0.02 <= base - drift <= 0.98 && 0.02 <= base + drift <= 0.98
    ensures 0.02 <= base + Times(drift, t) <= 0.98
  {
    hide Times;
    Within(drift, t);
  }

  lemma Within(drift: real, t: real)
    requires -1.0 <= t <= 1.0
    ensures drift >= 0.0 ==> -drift <= Times(drift, t) <= drift
    ensures drift <= 0.0 ==> drift <= Times(drift, t) <= -drift
  {
  }
}
