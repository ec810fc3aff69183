/** The expected distribution as a sum over every left/right path, and the loop that computes it. */
module GaltonPaths {
  import opened Prelude
  import opened GaltonEngine
  import opened Products

  /** One ball's decisions, latest turn outermost. */
  datatype Path = Start | Turn(before: Path, right: bool)

  function Length(path: Path): nat {
    match path
    case Start => 0
    case Turn(before, _) => Length(before) + 1
  }

  function Rights(path: Path): (k: nat)
    ensures k <= Length(path)
  {
    match path
    case Start => 0
    case Turn(before, right) => Rights(before) + if right then 1 else 0
  }

  /** The product of the step probabilities along a path. */
  function Weight(p: Turns, path: Path): real {
    match path
    case Start => 1.0
    case Turn(before, right) =>
      Times(Weight(p, before), p(Length(before), Rights(before), right))
  }

  function After(f: Path -> real, right: bool): Path -> real {
    (path: Path) => f(Turn(path, right))
  }

  /** The sum of `f` over all 2^rows paths of the given length, one term a path. */
  function SumPaths(rows: nat, f: Path -> real): real {
    if rows == 0 then f(Start)
    else SumPaths(rows - 1, After(f, false)) + SumPaths(rows - 1, After(f, true))
  }

  function Indicator(path: Path): Path -> real {
    (other: Path) => if other == path then 1.0 else 0.0
  }

  lemma {:induction false} SumPathsScales(rows: nat, f: Path -> real, g: Path -> real, factor: real)
    requires forall path :: Length(path) == rows ==> f(path) == Times(g(path), factor)
    ensures SumPaths(rows, f) == Times(SumPaths(rows, g), factor)
  {
    hide Times;
    if rows > 0 {
      SumPathsScales(rows - 1, After(f, false), After(g, false), factor);
      SumPathsScales(rows - 1, After(f, true), After(g, true), factor);
      Distributes(SumPaths(rows - 1, After(g, false)), SumPaths(rows - 1, After(g, true)), factor);
    } else {
      assert f(Start) == Times(g(Start), factor);
    }
  }

  lemma {:induction false} SumPathsAgree(rows: nat, f: Path -> real, g: Path -> real)
    requires forall path :: Length(path) == rows ==> f(path) == g(path)
    ensures SumPaths(rows, f) == SumPaths(rows, g)
  {
    if rows > 0 {
      SumPathsAgree(rows - 1, After(f, false), After(g, false));
      SumPathsAgree(rows - 1, After(f, true), After(g, true));
    }
  }

  lemma {:induction false} SumPathsVanish(rows: nat, f: Path -> real)
    requires forall path :: Length(path) == rows ==> f(path) == 0.0
    ensures SumPaths(rows, f) == 0.0
  {
    if rows > 0 {
      SumPathsVanish(rows - 1, After(f, false));
      SumPathsVanish(rows - 1, After(f, true));
    }
  }

  /** `SumPaths` visits a path once when it has the right length, and otherwise never. */
  lemma {:induction false} EveryPathCountsOnce(rows: nat, path: Path)
    ensures SumPaths(rows, Indicator(path)) == if Length(path) == rows then 1.0 else 0.0
  {
    if rows > 0 {
      forall right: bool
        ensures SumPaths(rows - 1, After(Indicator(path), right)) ==
                if Length(path) == rows && path.right == right then 1.0 else 0.0
      {
        if path.Turn? && path.right == right {
          EveryPathCountsOnce(rows - 1, path.before);
          SumPathsAgree(rows - 1, After(Indicator(path), right), Indicator(path.before));
        } else {
          SumPathsVanish(rows - 1, After(Indicator(path), right));
        }
      }
    }
  }

  /** What one path contributes to bin `k`. */
  function Share(p: Turns, k: int): Path -> real {
    (path: Path) => if Rights(path) == k then Weight(p, path) else 0.0
  }

  /** The chance of landing in bin `k`: the exponential sum over all paths. */
  function PathMass(p: Turns, rows: nat, k: int): real {
    SumPaths(rows, Share(p, k))
  }

  /** The chance of staying in bin `k`, and of entering it from its left neighbour, at one row. */
  function Stay(p: Turns, row: nat, k: int): real {
    if k >= 0 then p(row, k, false) else 0.0
  }

  function Enter(p: Turns, row: nat, k: int): real {
    if k >= 1 then p(row, k - 1, true) else 0.0
  }

  lemma ShareAfter(p: Turns, k: int, path: Path)
    ensures After(Share(p, k), false)(path) == Times(Share(p, k)(path), Stay(p, Length(path), k))
    ensures After(Share(p, k), true)(path) == Times(Share(p, k - 1)(path), Enter(p, Length(path), k))
  {
    hide Times;
    Annihilates(Stay(p, Length(path), k));
    Annihilates(Enter(p, Length(path), k));
  }

  /** The exponential sum obeys the one-row recurrence the engine iterates. */
  lemma PathMassStep(p: Turns, rows: nat, k: int)
    ensures PathMass(p, rows + 1, k) ==
            Times(PathMass(p, rows, k), Stay(p, rows, k)) + Times(PathMass(p, rows, k - 1), Enter(p, rows, k))
  {
    hide Times;
    forall path | Length(path) == rows
      ensures After(Share(p, k), false)(path) == Times(Share(p, k)(path), Stay(p, rows, k))
      ensures After(Share(p, k), true)(path) == Times(Share(p, k - 1)(path), Enter(p, rows, k))
    {
      ShareAfter(p, k, path);
    }
    SumPathsScales(rows, After(Share(p, k), false), Share(p, k), Stay(p, rows, k));
    SumPathsScales(rows, After(Share(p, k), true), Share(p, k - 1), Enter(p, rows, k));
  }

  lemma PathMassAtTop(p: Turns, k: int)
    ensures PathMass(p, 0, k) == if k == 0 then 1.0 else 0.0
  {
  }

  lemma {:induction false} PathMassOutside(p: Turns, rows: nat, k: int)
    requires k < 0 || k > rows
    ensures PathMass(p, rows, k) == 0.0
  {
    hide Times;
    if rows > 0 {
      PathMassStep(p, rows - 1, k);
      PathMassOutside(p, rows - 1, k);
      PathMassOutside(p, rows - 1, k - 1);
      Annihilates(Stay(p, rows - 1, k));
      Annihilates(Enter(p, rows - 1, k));
    }
  }

  lemma {:induction false} PathMassNonNegative(p: Turns, rows: nat, k: int)
    requires Fair(p)
    ensures PathMass(p, rows, k) >= 0.0
  {
    hide Times;
    if rows > 0 {
      PathMassStep(p, rows - 1, k);
      PathMassNonNegative(p, rows - 1, k);
      PathMassNonNegative(p, rows - 1, k - 1);
      NonNegative(PathMass(p, rows - 1, k), Stay(p, rows - 1, k));
      NonNegative(PathMass(p, rows - 1, k - 1), Enter(p, rows - 1, k));
    }
  }

  /** The distribution as a sequence: bin k holds the path sum for k rights. */
  function Distribution(p: Turns, rows: nat): (d: seq<real>)
    ensures |d| == rows + 1
  {
    seq(rows + 1, k requires 0 <= k <= rows => PathMass(p, rows, k))
  }

  /** One pass over a row: every node's mass splits between its two children. */
  method SpreadRow(field: Field, row: nat, current: array<real>) returns (next: array<real>)
    requires current[..] == Distribution(Coin(field), row)
    ensures fresh(next) && next[..] == Distribution(Coin(field), row + 1)
  {
    hide Times;
    ghost var p := Coin(field);
    Annihilates(Enter(p, row, 0));
    PathMassOutside(p, row, -1);
    next := new real[row + 2](_ => 0.0);
    var rights := 0;
    while rights <= row
      invariant 0 <= rights <= row + 1
      invariant current[..] == Distribution(p, row)
      invariant forall k :: 0 <= k < rights ==> next[k] == PathMass(p, row + 1, k)
      invariant next[rights] == Times(PathMass(p, row, rights - 1), Enter(p, row, rights))
      invariant forall k :: rights < k <= row + 1 ==> next[k] == 0.0
    {
      var mass := current[rights];
      assert mass == current[..][rights] == PathMass(p, row, rights);
      var probability := field(row, rights);
      next[rights] := next[rights] + mass * (1.0 - probability);
      next[rights + 1] := next[rights + 1] + mass * probability;
      PathMassStep(p, row, rights);
      TimesIs(mass, 1.0 - probability);
      TimesIs(mass, probability);
      rights := rights + 1;
    }
    PathMassStep(p, row, row + 1);
    PathMassOutside(p, row, row + 1);
    Annihilates(Stay(p, row, row + 1));
  }

  lemma OneCertainBall(p: Turns)
    ensures Distribution(p, 0) == [1.0]
  {
  }

  /** The engine's loop: from one certain ball to the distribution over all bins. */
  method ExpectedDistribution(input: ConfigInput, sin: real -> real) returns (expected: array<real>)
    ensures fresh(expected)
    ensures var c := Sanitize(input); expected[..] == Distribution(Coin(FieldOf(c, sin)), c.rows)
  {
    hide Distribution, FieldOf, Sanitize, Coin;
    var c := Sanitize(input);
    var field := FieldOf(c, sin);
    OneCertainBall(Coin(field));
    var current := new real[1];
    current[0] := 1.0;
    assert current[..] == [1.0];
    var row := 0;
    while row < c.rows
      invariant 0 <= row <= c.rows
      invariant fresh(current) && current[..] == Distribution(Coin(field), row)
    {
      current := SpreadRow(field, row, current);
      row := row + 1;
    }
    return current;
  }
}
