/** Total mass, mean and variance of the expected distribution. */
module GaltonMoments {
  import opened Prelude
  import opened Products
  import opened GaltonEngine
  import opened GaltonPaths

  /** The sum of `s[k] * f(k)` over the first `m` bins. */
  function Moment(f: nat -> real, s: seq<real>, m: nat): real
    requires m <= |s|
  {
    if m == 0 then 0.0 else Moment(f, s, m - 1) + Times(s[m - 1], f(m - 1))
  }

  function One(): nat -> real { (k: nat) => 1.0 }

  function Index(): nat -> real { (k: nat) => k as real }

  function Deviation(center: real): nat -> real { (k: nat) => k as real - center }

  function Square(x: real): real { Times(x, x) }

  function SquaredDeviation(center: real): nat -> real { (k: nat) => Square(k as real - center) }

  function Mean(s: seq<real>, total: real): real
    requires total != 0.0
  {
    Moment(Index(), s, |s|) / total
  }

  function Variance(s: seq<real>, total: real): real
    requires total != 0.0
  {
    Moment(SquaredDeviation(Mean(s, total)), s, |s|) / total
  }

  datatype Summary = Summary(mean: real, sigma: real)

  /** The engine's two passes over the bins; `sqrt` is whatever the host's square root returns. */
  method SummarizeDistribution(values: seq<real>, total: real, sqrt: real -> real) returns (r: Summary)
    ensures total <= 0.0 ==> r == Summary(0.0, 0.0)
    ensures total > 0.0 ==> r == Summary(Mean(values, total), sqrt(Variance(values, total)))
  {
    if total <= 0.0 {
      return Summary(0.0, 0.0);
    }
    hide Times;
    var weighted := 0.0;
    for index := 0 to |values|
      invariant weighted == Moment(Index(), values, index)
    {
      TimesIs(values[index], index as real);
      weighted := weighted + index as real * values[index];
    }
    var mean := weighted / total;
    var variance := 0.0;
    for index := 0 to |values|
      invariant variance == Moment(SquaredDeviation(mean), values, index)
    {
      var deviation := index as real - mean;
      TimesIs(deviation, deviation);
      TimesIs(values[index], deviation * deviation);
      variance := variance + values[index] * (deviation * deviation);
    }
    return Summary(mean, sqrt(variance / total));
  }

  /** What a bin weight becomes when it is read one row earlier. */
  function PullAt(p: Turns, row: nat, f: nat -> real, k: nat): real {
    Times(p(row, k, false), f(k)) + Times(p(row, k, true), f(k + 1))
  }

  function Pull(p: Turns, row: nat, f: nat -> real): nat -> real {
    (k: nat) => PullAt(p, row, f, k)
  }

  lemma {:induction false} PartialMomentStep(p: Turns, row: nat, f: nat -> real, m: nat)
    requires m <= row + 1
    ensures Moment(f, Distribution(p, row + 1), m) +
            Times(Times(PathMass(p, row, m - 1), Enter(p, row, m)), f(m))
         == Moment(Pull(p, row, f), Distribution(p, row), m)
  {
    hide Times, PathMass;
    if m == 0 {
      Annihilates(PathMass(p, row, -1));
      Annihilates(f(0));
    } else {
      var k := m - 1;
      PartialMomentStep(p, row, f, k);
      var after, now := Distribution(p, row + 1), Distribution(p, row);
      var mass, inflow := PathMass(p, row, k), Times(PathMass(p, row, k - 1), Enter(p, row, k));
      var left, right := p(row, k, false), p(row, k, true);
      var pulled := Times(mass, PullAt(p, row, f, k));
      assert Moment(f, after, m) == Moment(f, after, k) + Times(PathMass(p, row + 1, k), f(k));
      assert Moment(Pull(p, row, f), now, m) == Moment(Pull(p, row, f), now, k) + pulled;
      assert pulled == Times(Times(mass, left), f(k)) + Times(Times(mass, right), f(m)) by {
        Associates(mass, left, f(k));
        Associates(mass, right, f(m));
        Splits(PullAt(p, row, f, k), Times(left, f(k)), Times(right, f(m)), mass);
      }
      assert Times(PathMass(p, row + 1, k), f(k)) == Times(Times(mass, left), f(k)) + Times(inflow, f(k)) by {
        PathMassStep(p, row, k);
        Splits(PathMass(p, row + 1, k), Times(mass, left), inflow, f(k));
      }
      hide Moment;
    }
  }

  /** One row forward for the masses is one row back for the weights. */
  lemma MomentStep(p: Turns, row: nat, f: nat -> real)
    ensures Moment(f, Distribution(p, row + 1), row + 2) == Moment(Pull(p, row, f), Distribution(p, row), row + 1)
  {
    hide Times, PathMass;
    PartialMomentStep(p, row, f, row + 1);
    PathMassStep(p, row, row + 1);
    PathMassOutside(p, row, row + 1);
    Annihilates(Stay(p, row, row + 1));
  }

  lemma {:induction false} MomentCombines(g: nat -> real, f: nat -> real, h: nat -> real, x: real, y: real, s: seq<real>, m: nat)
    requires m <= |s|
    requires forall k: nat :: g(k) == f(k) + Times(h(k), x) + y
    ensures Moment(g, s, m) == Moment(f, s, m) + Times(Moment(h, s, m), x) + Times(Moment(One(), s, m), y)
  {
    hide Times, PathMass;
    if m == 0 {
      Annihilates(x);
      Annihilates(y);
    } else {
      var k := m - 1;
      MomentCombines(g, f, h, x, y, s, k);
      assert g(k) == f(k) + Times(h(k), x) + y;
      Distributes(f(k) + Times(h(k), x), y, s[k]);
      Distributes(f(k), Times(h(k), x), s[k]);
      Associates(s[k], h(k), x);
      Distributes(Moment(h, s, k), Times(s[k], h(k)), x);
      Distributes(Moment(One(), s, k), Times(s[k], One()(k)), y);
      Annihilates(s[k]);
    }
  }

  lemma MomentAtTop(p: Turns, f: nat -> real)
    ensures Moment(f, Distribution(p, 0), 1) == f(0)
  {
    PathMassAtTop(p, 0);
    Annihilates(f(0));
    assert Moment(f, Distribution(p, 0), 1) == Moment(f, Distribution(p, 0), 0) + Times(Distribution(p, 0)[0], f(0));
  }

  /** No mass is lost or made, on any board whose nodes are coins. */
  lemma {:induction false} TotalMassIsOne(p: Turns, rows: nat)
    requires Fair(p)
    ensures Moment(One(), Distribution(p, rows), rows + 1) == 1.0
  {
    hide Times, PathMass;
    if rows == 0 {
      MomentAtTop(p, One());
    } else {
      TotalMassIsOne(p, rows - 1);
      MomentStep(p, rows - 1, One());
      var g := Pull(p, rows - 1, One());
      forall k: nat ensures g(k) == One()(k) + Times(One()(k), 0.0) + 0.0 {
        Annihilates(p(rows - 1, k, false));
        Annihilates(p(rows - 1, k, true));
        Annihilates(1.0);
        assert p(rows - 1, k, true) + p(rows - 1, k, false) == 1.0;
      }
      MomentCombines(g, One(), One(), 0.0, 0.0, Distribution(p, rows - 1), rows);
      Annihilates(1.0);
    }
  }

  ghost predicate IsProbability(d: seq<real>) {
    && (forall k :: 0 <= k < |d| ==> d[k] >= 0.0)
    && Moment(One(), d, |d|) == 1.0
  }

  lemma FairBoard(p: Turns, rows: nat)
    requires Fair(p)
    ensures IsProbability(Distribution(p, rows))
  {
    TotalMassIsOne(p, rows);
    hide Times, PathMass, Moment;
    forall k | 0 <= k <= rows ensures PathMass(p, rows, k) >= 0.0 { PathMassNonNegative(p, rows, k); }
  }

  /** Every entry is a probability and together they make one, for every equation and input. */
  lemma ExpectedDistributionIsProbability(input: ConfigInput, sin: real -> real)
    ensures var c := Sanitize(input); IsProbability(Distribution(Coin(FieldOf(c, sin)), c.rows))
  {
    hide IsProbability, Sanitize, Distribution, Fair;
    EveryNodeIsACoin(Sanitize(input), sin);
    FairBoard(Coin(FieldOf(Sanitize(input), sin)), Sanitize(input).rows);
  }

  ghost predicate ConstantCoin(p: Turns, chance: real) {
    forall row, rights :: p(row, rights, true) == chance && p(row, rights, false) == 1.0 - chance
  }

  function Choose(n: nat, k: int): nat {
    if k < 0 then 0
    else if n == 0 then if k == 0 then 1 else 0
    else Choose(n - 1, k - 1) + Choose(n - 1, k)
  }

  function Power(x: real, n: nat): real {
    if n == 0 then 1.0 else Times(x, Power(x, n - 1))
  }

  function BinomialTerm(chance: real, rows: nat, k: nat): real
    requires k <= rows
  {
    Times(Choose(rows, k) as real, Times(Power(chance, k), Power(1.0 - chance, rows - k)))
  }

  lemma {:induction false} ChooseOutside(n: nat, k: int)
    requires k > n
    ensures Choose(n, k) == 0
  {
    if n > 0 { ChooseOutside(n - 1, k - 1); ChooseOutside(n - 1, k); }
  }

  lemma BinomialFactor(c: real, x: real, a: real, b: real)
    ensures Times(Times(c, Times(a, b)), x) == Times(c, Times(a, Times(x, b)))
    ensures Times(Times(c, Times(a, b)), x) == Times(c, Times(Times(x, a), b))
  {
    hide Times, PathMass;
    Associates(c, Times(a, b), x);
    Associates(a, b, x);
    Commutes(b, x);
    Commutes(Times(a, b), x);
    Associates(x, a, b);
  }

  /** On a constant field the path sums are the binomial terms. */
  lemma {:induction false} ConstantFieldIsBinomial(p: Turns, chance: real, rows: nat, k: nat)
    requires ConstantCoin(p, chance) && k <= rows
    ensures PathMass(p, rows, k) == BinomialTerm(chance, rows, k)
  {
    hide Times, PathMass;
    if rows == 0 {
      PathMassAtTop(p, 0);
      Annihilates(1.0);
    } else {
      var n, miss := rows - 1, 1.0 - chance;
      PathMassStep(p, n, k);
      var both := Times(Power(chance, k), Power(miss, rows - k));
      if k <= n {
        ConstantFieldIsBinomial(p, chance, n, k);
        BinomialFactor(Choose(n, k) as real, miss, Power(chance, k), Power(miss, n - k));
        assert Times(PathMass(p, n, k), Stay(p, n, k)) == Times(Choose(n, k) as real, both);
      } else {
        PathMassOutside(p, n, k);
        ChooseOutside(n, k);
        Annihilates(Stay(p, n, k));
        Annihilates(both);
      }
      if k >= 1 {
        ConstantFieldIsBinomial(p, chance, n, k - 1);
        BinomialFactor(Choose(n, k - 1) as real, chance, Power(chance, k - 1), Power(miss, rows - k));
        assert Times(PathMass(p, n, k - 1), Enter(p, n, k)) == Times(Choose(n, k - 1) as real, both);
      } else {
        Annihilates(PathMass(p, n, k - 1));
        Annihilates(both);
      }
      Distributes(Choose(n, k - 1) as real, Choose(n, k) as real, both);
    }
  }

  lemma StepByOne(chance: real, d: real, next: real)
    requires next == d + 1.0
    ensures Times(1.0 - chance, d) + Times(chance, next) == d + chance
  {
  }

  lemma {:induction false} ConstantFieldMean(p: Turns, chance: real, rows: nat, center: real)
    requires Fair(p) && ConstantCoin(p, chance)
    ensures Moment(Deviation(center), Distribution(p, rows), rows + 1) == Times(rows as real, chance) - center
  {
    hide Times, PathMass, Moment;
    if rows == 0 {
      MomentAtTop(p, Deviation(center));
      Annihilates(chance);
    } else {
      var n := rows - 1;
      ConstantFieldMean(p, chance, n, center);
      MomentStep(p, n, Deviation(center));
      TotalMassIsOne(p, n);
      var g := Pull(p, n, Deviation(center));
      forall k: nat ensures g(k) == Deviation(center)(k) + Times(One()(k), 0.0) + chance {
        Annihilates(1.0);
        StepByOne(chance, k as real - center, (k + 1) as real - center);
      }
      MomentCombines(g, Deviation(center), One(), 0.0, chance, Distribution(p, n), rows);
      Annihilates(1.0);
      Annihilates(chance);
      Splits(rows as real, n as real, 1.0, chance);
    }
  }

  lemma SquareStep(chance: real, d: real, next: real)
    requires next == d + 1.0
    ensures Times(1.0 - chance, Square(d)) + Times(chance, Square(next))
         == Square(d) + Times(d, 2.0 * chance) + chance
  {
    assert next * next == d * d + 2.0 * d + 1.0;
  }

  /** `n` trials of a coin, about a centre: the variance of the count plus the squared offset of its mean. */
  function Spread(n: real, chance: real, center: real): real {
    Times(Times(n, chance), 1.0 - chance) + Square(Times(n, chance) - center)
  }

  lemma SpreadStep(n: real, chance: real, center: real)
    ensures Spread(n, chance, center) + Times(Times(n, chance) - center, 2.0 * chance) + chance
         == Spread(n + 1.0, chance, center)
  {
    var m := n * chance;
    assert (n + 1.0) * chance == m + chance;
    var d := m - center;
    assert (m + chance) * (1.0 - chance) == m * (1.0 - chance) + chance - chance * chance;
    assert (d + chance) * (d + chance) == d * d + d * (2.0 * chance) + chance * chance;
  }

  lemma {:induction false} ConstantFieldSpread(p: Turns, chance: real, rows: nat, center: real)
    requires Fair(p) && ConstantCoin(p, chance)
    ensures Moment(SquaredDeviation(center), Distribution(p, rows), rows + 1) == Spread(rows as real, chance, center)
  {
    hide Times, PathMass, Moment;
    if rows == 0 {
      MomentAtTop(p, SquaredDeviation(center));
      SpreadAtTop(chance, center);
    } else {
      hide Spread, Square;
      var n := rows - 1;
      ConstantFieldSpread(p, chance, n, center);
      ConstantFieldMean(p, chance, n, center);
      MomentStep(p, n, SquaredDeviation(center));
      TotalMassIsOne(p, n);
      var g := Pull(p, n, SquaredDeviation(center));
      forall k: nat
        ensures g(k) == SquaredDeviation(center)(k) + Times(Deviation(center)(k), 2.0 * chance) + chance
      {
        SquareStep(chance, k as real - center, (k + 1) as real - center);
      }
      MomentCombines(g, SquaredDeviation(center), Deviation(center), 2.0 * chance, chance, Distribution(p, n), rows);
      Annihilates(chance);
      SpreadStep(n as real, chance, center);
      assert rows as real == n as real + 1.0;
    }
  }

  lemma SpreadAtTop(chance: real, center: real)
    ensures Spread(0.0, chance, center) == Square(0.0 - center)
  {
  }

  ghost predicate IsBinomial(d: seq<real>, chance: real, rows: nat) {
    && |d| == rows + 1
    && (forall k :: 0 <= k <= rows ==> d[k] == BinomialTerm(chance, rows, k))
    && Mean(d, 1.0) == rows as real * chance
    && Variance(d, 1.0) == rows as real * chance * (1.0 - chance)
  }

  lemma ConstantCoinBoard(p: Turns, chance: real, rows: nat)
    requires Fair(p) && ConstantCoin(p, chance)
    ensures IsBinomial(Distribution(p, rows), chance, rows)
  {
    hide PathMass, Moment, BinomialTerm;
    var d := Distribution(p, rows);
    forall k | 0 <= k <= rows ensures d[k] == BinomialTerm(chance, rows, k) {
      ConstantFieldIsBinomial(p, chance, rows, k);
    }
    ConstantFieldMean(p, chance, rows, 0.0);
    MomentAgrees(Index(), Deviation(0.0), d, |d|);
    var mean := Mean(d, 1.0);
    assert mean == Times(rows as real, chance);
    ConstantFieldSpread(p, chance, rows, mean);
    assert Variance(d, 1.0) == Times(Times(rows as real, chance), 1.0 - chance) + Square(0.0);
  }

  /** The constant board end to end: binomial bins, mean R*p and variance R*p*(1-p). */
  lemma ConstantBoard(c: Config, sin: real -> real)
    requires Legal(c) && c.equation == Constant
    ensures IsBinomial(Distribution(Coin(FieldOf(c, sin)), c.rows), c.baseProbability, c.rows)
  {
    hide IsBinomial, Distribution;
    var p, chance := Coin(FieldOf(c, sin)), c.baseProbability;
    forall row: nat, rights: nat
      ensures p(row, rights, true) == chance && p(row, rights, false) == 1.0 - chance
    {
      ConstantFieldUnclamped(c, sin, row, rights);
    }
    EveryNodeIsACoin(c, sin);
    ConstantCoinBoard(p, chance, c.rows);
  }

  lemma {:induction false} MomentAgrees(f: nat -> real, g: nat -> real, s: seq<real>, m: nat)
    requires m <= |s| && forall k: nat :: f(k) == g(k)
    ensures Moment(f, s, m) == Moment(g, s, m)
  {
    if m > 0 { MomentAgrees(f, g, s, m - 1); }
  }
}
