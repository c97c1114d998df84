/** The similarity score of a pair: three components, each undefined on nothing to compare, and their weighted mean. */
module Similarity {
  import opened Identifiers
  import EditDistance

  const WEIGHT_LEV := 0.4
  const WEIGHT_STRUCT := 0.4
  const WEIGHT_REF := 0.2

  /** `_iri_tail`: what follows the last colon. */
  function IriTail(iri: string): (tail: string)
    ensures ':' !in tail
    ensures tail == iri || exists p: string :: iri == p + ":" + tail
  {
    if iri == [] then []
    else if iri[|iri| - 1] == ':' then
      assert iri == iri[..|iri| - 1] + ":" + [];
      []
    else
      var t := IriTail(iri[..|iri| - 1]);
      assert iri == iri[..|iri| - 1] + [iri[|iri| - 1]];
      assert forall p: string :: p + ":" + t + [iri[|iri| - 1]] == p + ":" + (t + [iri[|iri| - 1]]);
      t + [iri[|iri| - 1]]
  }

  function Longer(a: string, b: string): (n: nat)
    ensures n >= |a| && n >= |b| && (n == |a| || n == |b|)
  {
    if |a| < |b| then |b| else |a|
  }

  /** The share of `all` that is left over from `some`. */
  function Left(some: nat, all: nat): real
    requires all > 0
  {
    1.0 - some as real / all as real
  }

  /** The score two tails should get: the share of the longer one that need not be edited. */
  ghost function NameScore(a: string, b: string): real
    requires a != [] && b != []
  {
    Left(EditDistance.Distance(a, b), Longer(a, b))
  }

  /** The name score is a similarity: between 0 and 1, 1 exactly on equal names, the same both ways. */
  lemma NameScoreIsSimilarity(a: string, b: string)
    requires a != [] && b != []
    ensures 0.0 <= NameScore(a, b) <= 1.0
    ensures NameScore(a, b) == 1.0 <==> a == b
    ensures NameScore(a, b) == NameScore(b, a)
  {
    EditDistance.Bounds(a, b);
    EditDistance.ZeroIffEqual(a, b);
    EditDistance.Symmetric(a, b);
    Share(EditDistance.Distance(a, b), Longer(a, b));
  }

  lemma Share(n: nat, m: nat)
    requires n <= m && m > 0
    ensures 0.0 <= n as real / m as real <= 1.0
    ensures n as real / m as real == 0.0 <==> n == 0
    ensures n as real / m as real == 1.0 <==> n == m
  {
    var q := n as real / m as real;
    assert q * m as real == n as real;
  }

  /** `_score_levenshtein`. */
  method ScoreLevenshtein(source: string, target: string) returns (score: Option<real>)
    ensures score.None? <==> IriTail(source) == [] || IriTail(target) == []
    ensures score.Some? ==> score.value == NameScore(IriTail(source), IriTail(target))
  {
    var a, b := IriTail(source), IriTail(target);
    if a == [] || b == [] { return None; }
    if a == b {
      NameScoreIsSimilarity(a, b);
      return Some(1.0);
    }
    var distance := EditDistance.LevenshteinDistance(a, b);
    score := Some(Left(distance, Longer(a, b)));
  }

  /** `_jaccard`. */
  function Jaccard<T>(a: set<T>, b: set<T>): real {
    if a == {} && b == {} then 0.0
    else
      assert |a + b| > 0 by { assert a + b != {}; }
      |a * b| as real / |a + b| as real
  }

  lemma SubsetSmaller<T>(a: set<T>, b: set<T>)
    requires a <= b
    ensures |a| <= |b| && (|a| == |b| ==> a == b)
  {
    assert b == a + (b - a) && |b| == |a| + |b - a|;
  }

  /** The Jaccard index is a similarity on pairs that are not both empty: 1 exactly on equal sets, 0 on disjoint ones. */
  lemma JaccardIsSimilarity<T>(a: set<T>, b: set<T>)
    requires a != {} || b != {}
    ensures 0.0 <= Jaccard(a, b) <= 1.0 && Jaccard(a, b) == Jaccard(b, a)
    ensures Jaccard(a, b) == 1.0 <==> a == b
    ensures Jaccard(a, b) == 0.0 <==> a * b == {}
  {
    assert a + b != {};
    assert a + b == b + a && a * b == b * a;
    SubsetSmaller(a * b, a + b);
    Share(|a * b|, |a + b|);
    if |a * b| == |a + b| {
      assert a * b == a + b;
      assert a <= b && b <= a;
    }
    assert a == b ==> a * b == a + b;
    assert |a * b| == 0 <==> a * b == {};
  }

  lemma Sizes<T>(a: set<T>, b: set<T>)
    ensures |a + b| + |a * b| == |a| + |b| && |a * b| <= |a| && |a * b| <= |b|
  {
    assert a == (a - b) + (a * b) && b == (b - a) + (a * b) && a + b == a + (b - a);
  }

  /** The distance `1 - Jaccard` satisfies the triangle inequality: what is near the same thing is near each other. */
  lemma JaccardTriangle<T>(a: set<T>, b: set<T>, c: set<T>)
    requires a != {} || b != {}
    ensures 1.0 - Jaccard(a, b) <= (1.0 - Jaccard(a, c)) + (1.0 - Jaccard(c, b))
  {
    SomethingInUnion(a, b);
    Sizes(a, b);
    Share(|a * b|, |a + b|);
    if c == {} {
      assert a * c == {} && c * b == {};
    } else {
      SomethingInUnion(a, c);
      SomethingInUnion(c, b);
      Shared(a, b, c);
      FractionsAtMost(|a * c|, |a + c|, |c * b|, |c + b|, |a| + |b|, |a + b|, |c|);
      OneMore(|a| + |b|, |a * b|, |a + b|);
    }
  }

  lemma SomethingInUnion<T>(a: set<T>, b: set<T>)
    requires a != {} || b != {}
    ensures |a + b| > 0
  {
    assert a + b != {};
  }

  /** What two sets have of a third, weighed by the unions, against the two of them. */
  lemma Shared<T>(a: set<T>, b: set<T>, c: set<T>)
    ensures |a * c| * |c + b| + |c * b| * |a + c| <= |c| * (|a| + |b|)
    ensures |c| * |a + b| <= |a + c| * |c + b|
  {
    Sizes(a, c);
    Sizes(c, b);
    Weighed(|a|, |b|, |c|, |a * c|, |c * b|);
    SubsetSmaller(a + b, a + b + c);
    assert a + b + c == (a + c) + (b - c) && c + b == c + (b - c) && a + c == c + (a - c);
    Squared(|c|, |a - c|, |b - c|, |a + b|);
  }

  lemma Weighed(a: nat, b: nat, c: nat, x: nat, y: nat)
    requires x <= a && x <= c && y <= b && y <= c
    ensures x * (b + c - y) + y * (a + c - x) <= c * (a + b)
  {
    assert c * (a + b) - (x * (b + c - y) + y * (a + c - x)) == (b - y) * (c - x) + (a - x) * (c - y);
    NotNegative(b - y, c - x);
    NotNegative(a - x, c - y);
  }

  lemma NotNegative(x: nat, y: nat)
    ensures x * y >= 0
  {}

  lemma Squared(c: nat, x: nat, y: nat, u: nat)
    requires u <= c + x + y
    ensures c * u <= (c + x) * (c + y)
  {
    assert (c + x) * (c + y) == c * (c + x + y) + x * y;
    assert c * (c + x + y - u) >= 0;
    assert c * (c + x + y) == c * u + c * (c + x + y - u);
  }

  lemma FractionsAtMost(x: nat, m: nat, y: nat, n: nat, s: nat, u: nat, c: nat)
    requires m > 0 && n > 0 && u > 0 && c > 0
    requires x * n + y * m <= c * s && c * u <= m * n
    ensures x as real / m as real + y as real / n as real <= s as real / u as real
  {
    Casts(x, m, y, n, s, u, c);
    Fraction(x as real, m as real);
    Fraction(y as real, n as real);
    Fraction(s as real, u as real);
    SumAtMost(x as real / m as real, y as real / n as real, s as real / u as real, m as real, n as real, u as real, c as real);
  }

  lemma Fraction(x: real, m: real)
    requires m > 0.0 && x >= 0.0
    ensures x / m * m == x && x / m >= 0.0
  {
    var q := x / m;
    assert q * m == x;
    if q < 0.0 { TimesLess(q, 0.0, m); }
  }

  lemma Casts(x: nat, m: nat, y: nat, n: nat, s: nat, u: nat, c: nat)
    requires x * n + y * m <= c * s && c * u <= m * n
    ensures x as real * n as real + y as real * m as real <= c as real * s as real && c as real * u as real <= m as real * n as real
  {
    Cast(x, n);
    Cast(y, m);
    Cast(c, s);
    Cast(c, u);
    Cast(m, n);
  }

  lemma Cast(x: nat, y: nat)
    ensures (x * y) as real == x as real * y as real
  {}

  lemma SumAtMost(p: real, q: real, t: real, m: real, n: real, u: real, c: real)
    requires m > 0.0 && n > 0.0 && t >= 0.0
    requires (p * m) * n + (q * n) * m <= c * (t * u) && c * u <= m * n
    ensures p + q <= t
  {
    BothTimes(p, m, q, n);
    TimesBoth(c, t, u);
    AtLeastTimes(t, c * u, m * n);
    PositiveTimes(m, n);
    if t < p + q { TimesLess(t, p + q, m * n); }
  }

  lemma PositiveTimes(m: real, n: real)
    requires m > 0.0 && n > 0.0
    ensures m * n > 0.0
  {}

  lemma BothTimes(p: real, m: real, q: real, n: real)
    ensures (p + q) * (m * n) == (p * m) * n + (q * n) * m
  {}

  lemma TimesBoth(c: real, t: real, u: real)
    ensures c * (t * u) == t * (c * u)
  {}

  lemma AtLeastTimes(t: real, x: real, y: real)
    requires t >= 0.0 && x <= y
    ensures t * x <= t * y
  {}

  lemma OneMore(s: nat, z: nat, u: nat)
    requires u > 0 && s == u + z
    ensures s as real / u as real == 1.0 + z as real / u as real
  {
    SumOver(u as real, z as real);
  }

  lemma SumOver(u: real, z: real)
    requires u > 0.0
    ensures (u + z) / u == 1.0 + z / u
  {
    var q, t := (u + z) / u, z / u;
    assert q * u == u + z && t * u == z && (1.0 + t) * u == u + t * u;
    if q < 1.0 + t { TimesLess(q, 1.0 + t, u); }
    if 1.0 + t < q { TimesLess(1.0 + t, q, u); }
  }

  function Total(xs: seq<(real, real)>): real { if xs == [] then 0.0 else xs[0].0 + Total(xs[1..]) }

  function WeightedSum(xs: seq<(real, real)>): real {
    if xs == [] then 0.0 else xs[0].0 * xs[0].1 + WeightedSum(xs[1..])
  }

  /** A weighted sum lies between the total weight times the least and times the greatest of the scores. */
  lemma {:induction false} WeightedBetween(xs: seq<(real, real)>, low: real, high: real)
    requires forall x | x in xs :: x.0 > 0.0 && low <= x.1 <= high
    ensures low * Total(xs) <= WeightedSum(xs) <= high * Total(xs)
    ensures xs != [] ==> Total(xs) > 0.0
  {
    if xs != [] {
      var rest := xs[1..];
      AmongRest(xs, low, high);
      WeightedBetween(rest, low, high);
      OneMoreWeight(xs[0].0, xs[0].1, Total(rest), WeightedSum(rest), low, high);
      FirstAndRest(xs);
      PositiveTotal(xs);
    }
  }

  lemma AmongRest(xs: seq<(real, real)>, low: real, high: real)
    requires xs != [] && forall x | x in xs :: x.0 > 0.0 && low <= x.1 <= high
    ensures xs[0].0 > 0.0 && low <= xs[0].1 <= high
    ensures forall x | x in xs[1..] :: x.0 > 0.0 && low <= x.1 <= high
  {
    assert xs[0] in xs;
    assert forall x | x in xs[1..] :: x in xs;
  }

  lemma FirstAndRest(xs: seq<(real, real)>)
    requires xs != []
    ensures Total(xs) == xs[0].0 + Total(xs[1..]) && WeightedSum(xs) == xs[0].0 * xs[0].1 + WeightedSum(xs[1..])
  {}

  /** One weight `w` with score `x` more. */
  lemma OneMoreWeight(w: real, x: real, t: real, sum: real, low: real, high: real)
    requires w > 0.0 && low <= x <= high && low * t <= sum <= high * t
    ensures low * (w + t) <= w * x + sum <= high * (w + t)
  {
    Times(w, low, x);
    Times(w, x, high);
    Distributes(low, w, t);
    Distributes(high, w, t);
  }

  lemma Distributes(x: real, y: real, z: real)
    ensures x * (y + z) == y * x + x * z
  {}

  lemma Times(w: real, x: real, y: real)
    requires w > 0.0 && x <= y
    ensures w * x <= w * y
  {}

  function Component(weight: real, score: Option<real>): seq<(real, real)> {
    if score.Some? then [(weight, score.value)] else []
  }

  /** `_score_pair`: the mean of what is defined, its weights made to add up again; nothing defined is an error. */
  function ScorePair(lev: Option<real>, struct: Option<real>, refs: Option<real>): Option<real> {
    var xs := Component(WEIGHT_LEV, lev) + Component(WEIGHT_STRUCT, struct) + Component(WEIGHT_REF, refs);
    if xs == [] then None
    else
      WeightIsPositive(lev, struct, refs);
      Some(WeightedSum(xs) / Total(xs))
  }

  lemma WeightIsPositive(lev: Option<real>, struct: Option<real>, refs: Option<real>)
    ensures var xs := Component(WEIGHT_LEV, lev) + Component(WEIGHT_STRUCT, struct) + Component(WEIGHT_REF, refs);
      xs != [] ==> Total(xs) > 0.0
  {
    var xs := Component(WEIGHT_LEV, lev) + Component(WEIGHT_STRUCT, struct) + Component(WEIGHT_REF, refs);
    PositiveTotal(xs);
  }

  lemma {:induction false} PositiveTotal(xs: seq<(real, real)>)
    requires forall x | x in xs :: x.0 > 0.0
    ensures xs != [] ==> Total(xs) > 0.0
  {
    if xs != [] {
      assert xs == [xs[0]] + xs[1..];
      PositiveTotal(xs[1..]);
    }
  }

  predicate Within(score: Option<real>, low: real, high: real) { score.Some? ==> low <= score.value <= high }

  /** The score of a pair lies between the least and the greatest of its defined components, in particular in [0, 1]
      when they do; and it is defined exactly when one of them is. */
  lemma ScoreIsBetween(lev: Option<real>, struct: Option<real>, refs: Option<real>, low: real, high: real)
    requires Within(lev, low, high) && Within(struct, low, high) && Within(refs, low, high)
    ensures ScorePair(lev, struct, refs).Some? <==> lev.Some? || struct.Some? || refs.Some?
    ensures Within(ScorePair(lev, struct, refs), low, high)
  {
    var xs := Component(WEIGHT_LEV, lev) + Component(WEIGHT_STRUCT, struct) + Component(WEIGHT_REF, refs);
    if xs != [] {
      WeightedBetween(xs, low, high);
      Quotient(WeightedSum(xs), Total(xs), low, high);
    }
  }

  lemma TimesLess(x: real, y: real, w: real)
    requires w > 0.0 && x < y
    ensures x * w < y * w
  {}

  lemma Quotient(sum: real, total: real, low: real, high: real)
    requires total > 0.0 && low * total <= sum <= high * total
    ensures low <= sum / total <= high
  {
    var q := sum / total;
    assert q * total == sum;
    if q < low { TimesLess(q, low, total); }
    if high < q { TimesLess(high, q, total); }
  }

  function Weight(weight: real, score: Option<real>): real { if score.Some? then weight else 0.0 }
  function Part(weight: real, score: Option<real>): real { if score.Some? then weight * score.value else 0.0 }

  lemma ComponentSums(a: seq<(real, real)>, weight: real, score: Option<real>)
    ensures Total(Component(weight, score) + a) == Weight(weight, score) + Total(a)
    ensures WeightedSum(Component(weight, score) + a) == Part(weight, score) + WeightedSum(a)
  {
    var c := Component(weight, score);
    if c == [] {
      assert c + a == a;
    } else {
      assert (c + a)[0] == c[0] && (c + a)[1..] == a;
    }
  }

  /** Names weigh two fifths, structure two fifths and references one fifth; what is undefined drops out with its weight. */
  lemma ScoreIsTheWeightedMean(lev: Option<real>, struct: Option<real>, refs: Option<real>)
    requires lev.Some? || struct.Some? || refs.Some?
    ensures ScorePair(lev, struct, refs).Some?
    ensures ScorePair(lev, struct, refs).value * (Weight(0.4, lev) + Weight(0.4, struct) + Weight(0.2, refs)) ==
      Part(0.4, lev) + Part(0.4, struct) + Part(0.2, refs)
  {
    var c1, c2, c3 := Component(WEIGHT_LEV, lev), Component(WEIGHT_STRUCT, struct), Component(WEIGHT_REF, refs);
    ComponentSums(c2 + c3, WEIGHT_LEV, lev);
    ComponentSums(c3, WEIGHT_STRUCT, struct);
    ComponentSums([], WEIGHT_REF, refs);
    assert c3 + [] == c3 && c1 + (c2 + c3) == c1 + c2 + c3;
    WeightIsPositive(lev, struct, refs);
    QuotientBack(WeightedSum(c1 + c2 + c3), Total(c1 + c2 + c3));
  }

  lemma QuotientBack(sum: real, total: real)
    requires total > 0.0
    ensures sum / total * total == sum
  {}
}
