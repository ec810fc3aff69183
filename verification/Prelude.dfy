/** Small shared vocabulary: optional values, outcomes, and facts about finite sequences. */
module Prelude {

  datatype Option<+T> = None | Some(value: T)

  datatype Result<+T, +E> = Success(value: T) | Failure(error: E)

  function Min(a: int, b: int): int { if a <= b then a else b }

  function Max(a: int, b: int): int { if a >= b then a else b }

  /** The last `n` elements, or all of them when there are fewer: JavaScript's `slice(-n)`. */
  function Suffix<T>(s: seq<T>, n: nat): seq<T> {
    if |s| <= n then s else s[|s| - n..]
  }

  /** The first `n` elements, or all of them when there are fewer: JavaScript's `slice(0, n)`. */
  function Prefix<T>(s: seq<T>, n: nat): seq<T> {
    if |s| <= n then s else s[..n]
  }

  ghost predicate Distinct<T>(s: seq<T>) {
    forall i, j :: 0 <= i < j < |s| ==> s[i] != s[j]
  }

  function Elements<T>(s: seq<T>): set<T> {
    set x | x in s
  }

  /** A duplicate-free sequence has as many elements as its set. */
  lemma {:induction false} DistinctCardinality<T>(s: seq<T>)
    ensures Distinct(s) <==> |Elements(s)| == |s|
    ensures |Elements(s)| <= |s|
  {
    if s != [] {
      var rest, last := s[..|s| - 1], s[|s| - 1];
      DistinctCardinality(rest);
      assert s == rest + [last];
      assert Elements(s) == Elements(rest) + {last};
      if last in rest {
        assert Elements(s) == Elements(rest);
      } else if Distinct(rest) {
        assert Distinct(s);
      }
    }
  }

  lemma SubsetCardinality<T>(a: set<T>, b: set<T>)
    requires a <= b
    ensures |a| <= |b|
  {
    assert b == a + (b - a);
  }

  /** Pigeonhole: distinct values drawn from a set are no more than the set holds. */
  lemma Pigeonhole<T>(s: seq<T>, pool: set<T>)
    requires Distinct(s)
    requires forall x :: x in s ==> x in pool
    ensures |s| <= |pool|
  {
    DistinctCardinality(s);
    SubsetCardinality(Elements(s), pool);
  }

  function Interval(lo: nat, hi: nat): set<nat>
    decreases hi - lo
  {
    if lo >= hi then {} else {lo} + Interval(lo + 1, hi)
  }

  lemma {:induction false} IntervalIsExact(lo: nat, hi: nat)
    requires lo <= hi
    ensures forall i: nat :: i in Interval(lo, hi) <==> lo <= i < hi
    ensures |Interval(lo, hi)| == hi - lo
    decreases hi - lo
  {
    if lo < hi {
      IntervalIsExact(lo + 1, hi);
    }
  }
}

/** Whole-number division, one fact a lemma. */
module Division {

  lemma Multiples(a: nat, b: nat, d: nat)
    ensures a <= b ==> a * d <= b * d
  {
  }

  lemma AtLeast(q: nat, extra: nat, d: nat)
    requires d > 0
    ensures (q * d + extra) / d >= q
  {
    var n := q * d + extra;
    var k := n / d;
    assert n < (k + 1) * d;
    Multiples(k + 1, q, d);
  }

  lemma Below(n: nat, q: nat, d: nat)
    requires d > 0 && n < d * q
    ensures n / d < q
  {
  }

  lemma Steps(x: nat, step: nat, d: nat)
    requires 0 < d <= step
    ensures (x + step) / d > x / d
  {
    var q, r := x / d, x % d;
    assert (q + 1) * d + (r + step - d) == x + step;
    AtLeast(q + 1, r + step - d, d);
  }

  lemma Grows(a: nat, b: nat, d: nat)
    requires d > 0 && a <= b
    ensures a / d <= b / d
  {
    var q, r := a / d, a % d;
    assert q * d + (r + (b - a)) == b;
    AtLeast(q, r + (b - a), d);
  }
}

/** Real products under a name, so that a proof can keep them folded and reason linearly. */
module Products {

  function Times(a: real, b: real): real { a * b }

  lemma TimesIs(a: real, b: real)
    ensures Times(a, b) == a * b
  {
  }

  lemma Distributes(a: real, b: real, c: real)
    ensures Times(a + b, c) == Times(a, c) + Times(b, c)
    ensures Times(c, a + b) == Times(c, a) + Times(c, b)
  {
  }

  lemma Splits(sum: real, a: real, b: real, c: real)
    requires sum == a + b
    ensures Times(sum, c) == Times(a, c) + Times(b, c)
    ensures Times(c, sum) == Times(c, a) + Times(c, b)
  {
  }

  lemma Associates(a: real, b: real, c: real)
    ensures Times(Times(a, b), c) == Times(a, Times(b, c))
  {
  }

  lemma Commutes(a: real, b: real)
    ensures Times(a, b) == Times(b, a)
  {
  }

  lemma Annihilates(a: real)
    ensures Times(0.0, a) == 0.0 && Times(a, 0.0) == 0.0
    ensures Times(1.0, a) == a && Times(a, 1.0) == a
  {
  }

  lemma NonNegative(a: real, b: real)
    requires a >= 0.0 && b >= 0.0
    ensures Times(a, b) >= 0.0
  {
  }
}

/** Text compared character by character, as JavaScript's `<` does; ISO dates and times sort this way. */
module TextOrder {

  /** At or before. */
  predicate NotAfter(a: string, b: string) {
    a == "" || (b != "" && (a[0] < b[0] || (a[0] == b[0] && NotAfter(a[1..], b[1..]))))
  }

  lemma {:induction false} NotAfterIsAntisymmetric(a: string, b: string)
    requires NotAfter(a, b) && NotAfter(b, a)
    ensures a == b
  {
    if a != "" {
      NotAfterIsAntisymmetric(a[1..], b[1..]);
      assert a == [a[0]] + a[1..] && b == [b[0]] + b[1..];
    }
  }

  lemma {:induction false} NotAfterIsTotal(a: string, b: string)
    ensures NotAfter(a, b) || NotAfter(b, a)
  {
    if a != "" && b != "" { NotAfterIsTotal(a[1..], b[1..]); }
  }

  lemma {:induction false} NotAfterIsTransitive(a: string, b: string, c: string)
    requires NotAfter(a, b) && NotAfter(b, c)
    ensures NotAfter(a, c)
  {
    if a != "" && a[0] == b[0] == c[0] { NotAfterIsTransitive(a[1..], b[1..], c[1..]); }
  }

  /** The first difference decides, and a prefix comes first. */
  lemma {:induction false} FirstDifferenceDecides(common: string, x: char, a: string, y: char, b: string)
    requires x < y
    ensures NotAfter(common + [x] + a, common + [y] + b) && !NotAfter(common + [y] + b, common + [x] + a)
    ensures NotAfter(common, common + [x] + a) && !NotAfter(common + [x] + a, common)
    decreases |common|
  {
    var lo, hi := common + [x] + a, common + [y] + b;
    if common != "" {
      FirstDifferenceDecides(common[1..], x, a, y, b);
      assert lo[1..] == common[1..] + [x] + a && hi[1..] == common[1..] + [y] + b;
    }
  }

  predicate Before(a: string, b: string) { !NotAfter(b, a) }
}
