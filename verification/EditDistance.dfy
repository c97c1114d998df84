/** Levenshtein distance: the two-row table, the recursion it fills in, and what the numbers mean. */
module EditDistance {

  function Min(a: nat, b: nat): nat { if a < b then a else b }

  function Min3(a: nat, b: nat, c: nat): nat { Min(Min(a, b), c) }

  function Last(s: string): char requires s != [] { s[|s| - 1] }

  function Front(s: string): string requires s != [] { s[..|s| - 1] }

  function Differ(x: char, y: char): nat { if x == y then 0 else 1 }

  /** The distance, by the last characters. */
  function Distance(a: string, b: string): nat
    decreases |a| + |b|
  {
    if a == [] then |b|
    else if b == [] then |a|
    else Min3(
      Distance(a, Front(b)) + 1,
      Distance(Front(a), b) + 1,
      Distance(Front(a), Front(b)) + Differ(Last(a), Last(b)))
  }

  // ---- it is a metric ----

  lemma {:induction false} Symmetric(a: string, b: string)
    ensures Distance(a, b) == Distance(b, a)
    decreases |a| + |b|
  {
    if a != [] && b != [] {
      Symmetric(a, Front(b));
      Symmetric(Front(a), b);
      Symmetric(Front(a), Front(b));
    }
  }

  lemma {:induction false} Bounds(a: string, b: string)
    ensures |a| - |b| <= Distance(a, b) && |b| - |a| <= Distance(a, b)
    ensures Distance(a, b) <= if |a| < |b| then |b| else |a|
    decreases |a| + |b|
  {
    if a != [] && b != [] {
      Bounds(a, Front(b));
      Bounds(Front(a), b);
      Bounds(Front(a), Front(b));
    }
  }

  lemma {:induction false} ZeroIffEqual(a: string, b: string)
    ensures Distance(a, b) == 0 <==> a == b
    decreases |a| + |b|
  {
    if a != [] && b != [] {
      ZeroIffEqual(Front(a), Front(b));
      assert a == Front(a) + [Last(a)] && b == Front(b) + [Last(b)];
    }
  }

  lemma {:induction false} Triangle(a: string, b: string, c: string)
    ensures Distance(a, c) <= Distance(a, b) + Distance(b, c)
    decreases |a| + |b| + |c|
  {
    if a == [] || b == [] || c == [] {
      Bounds(a, b);
      Bounds(b, c);
      Bounds(a, c);
    } else {
      var a', b', c' := Front(a), Front(b), Front(c);
      if Distance(a, b) == Distance(a', b) + 1 {
        Triangle(a', b, c);
      } else if Distance(b, c) == Distance(b, c') + 1 {
        Triangle(a, b, c');
      } else if Distance(a, b) == Distance(a, b') + 1 && Distance(b, c) == Distance(b', c) + 1 {
        Triangle(a, b', c);
      } else if Distance(a, b) == Distance(a, b') + 1 {
        Triangle(a, b', c');
      } else if Distance(b, c) == Distance(b', c) + 1 {
        Triangle(a', b', c);
      } else {
        Triangle(a', b', c');
      }
    }
  }

  // ---- it is the fewest single edits ----

  /** One character inserted, deleted or replaced. */
  ghost predicate OneEdit(s: string, t: string) {
    exists p: string, u: string, v: string, q: string ::
      s == p + u + q && t == p + v + q && |u| <= 1 && |v| <= 1
  }

  /** `chain` leads from `a` to `b`, one edit at a time. */
  ghost predicate Edits(chain: seq<string>, a: string, b: string) {
    && chain != [] && chain[0] == a && chain[|chain| - 1] == b
    && forall i | 0 <= i < |chain| - 1 :: OneEdit(chain[i], chain[i + 1])
  }

  lemma {:induction false} CommonSuffix(s: string, t: string, q: string)
    ensures Distance(s + q, t + q) <= Distance(s, t)
    decreases |q|
  {
    if q == [] {
      assert s + q == s && t + q == t;
    } else {
      CommonSuffix(s, t, Front(q));
      assert Front(s + q) == s + Front(q) && Front(t + q) == t + Front(q);
    }
  }

  lemma OneEditIsNear(s: string, t: string)
    requires OneEdit(s, t)
    ensures Distance(s, t) <= 1
  {
    var p: string, u: string, v: string, q: string :|
      s == p + u + q && t == p + v + q && |u| <= 1 && |v| <= 1;
    CommonSuffix(p + u, p + v, q);
    NearTails(p, u, v);
  }

  lemma OneMore(p: string, c: char)
    ensures Distance(p, p + [c]) <= 1 && Distance(p + [c], p) <= 1
  {
    ZeroIffEqual(p, p);
    assert Front(p + [c]) == p;
    Symmetric(p, p + [c]);
  }

  lemma OneOther(p: string, c: char, d: char)
    ensures Distance(p + [c], p + [d]) <= 1
  {
    ZeroIffEqual(p, p);
    assert Front(p + [c]) == p && Front(p + [d]) == p;
  }

  lemma NearTails(p: string, u: string, v: string)
    requires |u| <= 1 && |v| <= 1
    ensures Distance(p + u, p + v) <= 1
  {
    assert p + [] == p;
    if u == v {
      ZeroIffEqual(p + u, p + v);
    } else if u == [] {
      assert v == [v[0]];
      OneMore(p, v[0]);
    } else if v == [] {
      assert u == [u[0]];
      OneMore(p, u[0]);
    } else {
      assert u == [u[0]] && v == [v[0]];
      OneOther(p, u[0], v[0]);
    }
  }

  /** No fewer edits will do. */
  lemma {:induction false} NoFewerEdits(chain: seq<string>, a: string, b: string)
    requires Edits(chain, a, b)
    ensures Distance(a, b) <= |chain| - 1
    decreases |chain|
  {
    if |chain| == 1 {
      ZeroIffEqual(a, b);
    } else {
      OneEditIsNear(chain[0], chain[1]);
      NoFewerEdits(chain[1..], chain[1], b);
      Triangle(a, chain[1], b);
    }
  }

  function Extended(chain: seq<string>, q: string): (r: seq<string>)
    ensures |r| == |chain| && forall i | 0 <= i < |r| :: r[i] == chain[i] + q
  {
    seq(|chain|, i requires 0 <= i < |chain| => chain[i] + q)
  }

  lemma OneEditExtends(s: string, t: string, q: string)
    requires OneEdit(s, t)
    ensures OneEdit(s + q, t + q)
  {
    var p: string, u: string, v: string, w: string :| s == p + u + w && t == p + v + w && |u| <= 1 && |v| <= 1;
    assert s + q == p + u + (w + q);
    assert t + q == p + v + (w + q);
  }

  lemma ExtendedEdits(chain: seq<string>, a: string, b: string, q: string)
    requires Edits(chain, a, b)
    ensures Edits(Extended(chain, q), a + q, b + q)
  {
    var r := Extended(chain, q);
    forall i | 0 <= i < |r| - 1 ensures OneEdit(r[i], r[i + 1]) { OneEditExtends(chain[i], chain[i + 1], q); }
  }

  lemma Before(s: string, chain: seq<string>, a: string, b: string)
    requires Edits(chain, a, b) && OneEdit(s, a)
    ensures Edits([s] + chain, s, b)
  {
    var r := [s] + chain;
    forall i | 0 <= i < |r| - 1 ensures OneEdit(r[i], r[i + 1]) {
      if i > 0 { assert r[i] == chain[i - 1] && r[i + 1] == chain[i]; }
    }
  }

  lemma After(chain: seq<string>, a: string, b: string, t: string)
    requires Edits(chain, a, b) && OneEdit(b, t)
    ensures Edits(chain + [t], a, t)
  {}

  lemma LastEdit(p: string, u: string, v: string)
    requires |u| <= 1 && |v| <= 1
    ensures OneEdit(p + u, p + v)
  {
    assert p + u == p + u + [] && p + v == p + v + [];
  }

  /** And that many are enough. */
  lemma {:induction false} EnoughEdits(a: string, b: string) returns (chain: seq<string>)
    ensures Edits(chain, a, b) && |chain| - 1 == Distance(a, b)
    decreases |a| + |b|
  {
    if a == [] && b == [] {
      chain := [a];
    } else if b == [] || (a != [] && Distance(a, b) == Distance(Front(a), b) + 1) {
      chain := EnoughEdits(Front(a), b);
      LastGoes(a);
      Before(a, chain, Front(a), b);
      chain := [a] + chain;
    } else if a == [] || Distance(a, b) == Distance(a, Front(b)) + 1 {
      chain := EnoughEdits(a, Front(b));
      LastGoes(b);
      After(chain, a, Front(b), b);
      chain := chain + [b];
    } else {
      chain := EnoughEdits(Front(a), Front(b));
      chain := LastChanges(chain, a, b);
    }
  }

  lemma LastGoes(a: string)
    requires a != []
    ensures OneEdit(a, Front(a)) && OneEdit(Front(a), a)
  {
    LastEdit(Front(a), [Last(a)], []);
    LastEdit(Front(a), [], [Last(a)]);
    assert a == Front(a) + [Last(a)] && Front(a) + [] == Front(a);
  }

  /** The fronts edited under the last character of the one, which is then changed to that of the other if it differs. */
  lemma LastChanges(chain: seq<string>, a: string, b: string) returns (r: seq<string>)
    requires a != [] && b != [] && Edits(chain, Front(a), Front(b))
    ensures Edits(r, a, b) && |r| == |chain| + Differ(Last(a), Last(b))
  {
    ExtendedEdits(chain, Front(a), Front(b), [Last(a)]);
    r := Extended(chain, [Last(a)]);
    assert a == Front(a) + [Last(a)] && b == Front(b) + [Last(b)];
    if Last(a) != Last(b) {
      LastEdit(Front(b), [Last(a)], [Last(b)]);
      After(r, a, Front(b) + [Last(a)], b);
      r := r + [b];
    }
  }

  // ---- the two rows ----

  /** The table the two rows run through. */
  ghost function Cell(a: string, b: string, i: nat, j: nat): nat
    requires i <= |a| && j <= |b|
  {
    Distance(a[..i], b[..j])
  }

  lemma CellStep(a: string, b: string, i: nat, j: nat)
    requires i < |a| && j < |b|
    ensures Cell(a, b, i + 1, j + 1) ==
      Min3(Cell(a, b, i + 1, j) + 1, Cell(a, b, i, j + 1) + 1, Cell(a, b, i, j) + Differ(a[i], b[j]))
  {
    assert Front(a[..i + 1]) == a[..i] && Front(b[..j + 1]) == b[..j];
  }

  lemma CellEdges(a: string, b: string, i: nat)
    requires i <= |a|
    ensures Cell(a, b, i, 0) == i && forall j: nat | j <= |b| :: Cell(a, b, 0, j) == j
  {
    if i > 0 { assert a[..i] != []; }
  }

  /** One row from the one above it, left to right, into the array used for the row before that. */
  method FillRow(a: string, b: string, i: nat, previous: array<nat>, current: array<nat>)
    requires i < |a| && previous != current && previous.Length == current.Length == |b| + 1
    requires forall j | 0 <= j <= |b| :: previous[j] == Cell(a, b, i, j)
    modifies current
    ensures forall j | 0 <= j <= |b| :: current[j] == Cell(a, b, i + 1, j)
  {
    CellEdges(a, b, i + 1);
    current[0] := i + 1;
    for j := 0 to |b|
      invariant forall k | 0 <= k <= j :: current[k] == Cell(a, b, i + 1, k)
    {
      CellStep(a, b, i, j);
      current[j + 1] := Min3(current[j] + 1, previous[j + 1] + 1, previous[j] + Differ(a[i], b[j]));
    }
  }

  /** `_levenshtein_distance`. */
  method LevenshteinDistance(a: string, b: string) returns (distance: nat)
    ensures distance == Distance(a, b)
  {
    if a == b {
      ZeroIffEqual(a, b);
      return 0;
    }
    if a == [] { return |b|; }
    if b == [] { return |a|; }
    var longer, shorter := a, b;
    if |a| < |b| {
      Symmetric(a, b);
      longer, shorter := b, a;
    }
    var previous := new nat[|shorter| + 1](j => j);
    var current := new nat[|shorter| + 1](j => 0);
    CellEdges(longer, shorter, 0);
    for i := 0 to |longer|
      invariant previous != current && previous.Length == current.Length == |shorter| + 1
      invariant fresh(previous) && fresh(current)
      invariant forall j | 0 <= j <= |shorter| :: previous[j] == Cell(longer, shorter, i, j)
    {
      FillRow(longer, shorter, i, previous, current);
      previous, current := current, previous;
    }
    assert longer[..|longer|] == longer && shorter[..|shorter|] == shorter;
    distance := previous[|shorter|];
  }
}
