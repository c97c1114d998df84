/** Run references: how a run's position, attempt and retry are written into a role and read back. */
module RunRefs {

  predicate IsDigit(c: char) { '0' <= c <= '9' }
  predicate AllDigits(s: string) { forall c | c in s :: IsDigit(c) }

  function Digit(n: nat): (c: char)
    requires n < 10
    ensures IsDigit(c)
  {
    '0' + n as char
  }

  /** A number in decimal. */
  function Decimal(n: nat): (s: string)
    ensures s != [] && AllDigits(s)
  {
    if n < 10 then [Digit(n)] else Decimal(n / 10) + [Digit(n % 10)]
  }

  function Parse(s: string): nat
    requires AllDigits(s)
  {
    if s == [] then 0
    else
      assert s[|s| - 1] in s;
      Parse(s[..|s| - 1]) * 10 + (s[|s| - 1] - '0') as nat
  }

  lemma {:induction false} ParseDecimal(n: nat)
    ensures Parse(Decimal(n)) == n
  {
    if n >= 10 {
      ParseDecimal(n / 10);
      assert Decimal(n)[..|Decimal(n)| - 1] == Decimal(n / 10);
    }
  }

  /** A position in a plan: leaves and map members, one inside the other. */
  datatype Segment = Leaf(index: nat) | Member(index: nat)

  function SegmentText(s: Segment): string { if s.Leaf? then Decimal(s.index) else "m" + Decimal(s.index) }

  /** A position's path, with `sep` between the segments. */
  function Path(position: seq<Segment>, sep: char): string {
    if position == [] then []
    else if |position| == 1 then SegmentText(position[0])
    else Path(position[..|position| - 1], sep) + [sep] + SegmentText(position[|position| - 1])
  }

  function Replace(s: string, from: char, to: char): (r: string)
    ensures |r| == |s| && forall i | 0 <= i < |s| :: r[i] == if s[i] == from then to else s[i]
  {
    seq(|s|, i requires 0 <= i < |s| => if s[i] == from then to else s[i])
  }

  /** One run: a milestone's, with its attempt; a member's has a retry too. */
  datatype Run = Run(position: seq<Segment>, attempt: nat, retry: int)

  const RUN_PREFIX := "pipelinerun:"
  const ROLE_PREFIX := "capacity:run:"

  /** The reference execution gives a run: a retry is a member's and is never negative. */
  function RunRef(request: string, run: Run): string {
    RUN_PREFIX + (request + ":" + Path(run.position, ':') + AttemptText(run.attempt, run.retry, ":"))
  }

  predicate StartsWith(s: string, prefix: string) { |prefix| <= |s| && s[..|prefix|] == prefix }

  /** `run_graph_role`. */
  function RunGraphRole(request: string, runRef: string): string {
    var run := if StartsWith(runRef, RUN_PREFIX) then runRef[|RUN_PREFIX|..] else runRef;
    ROLE_PREFIX + request + ":" + Replace(run, ':', '-')
  }

  /** How many digits a text ends in. */
  function TrailingDigits(s: string): (n: nat)
    ensures n <= |s| && AllDigits(s[|s| - n..]) && (n < |s| ==> !IsDigit(s[|s| - n - 1]))
  {
    if s == [] || !IsDigit(s[|s| - 1]) then 0
    else
      var n := TrailingDigits(s[..|s| - 1]);
      OneMoreDigit(s, n);
      n + 1
  }

  lemma OneMoreDigit(s: string, n: nat)
    requires s != [] && n < |s| && IsDigit(s[|s| - 1]) && AllDigits(s[..|s| - 1][|s| - 1 - n..])
    ensures AllDigits(s[|s| - n - 1..])
  {
    var front := s[..|s| - 1];
    assert s[|s| - n - 1..] == front[|front| - n..] + [s[|s| - 1]];
  }

  /** Strips `mark` and the digits after it off the end of a text, if it ends that way. */
  function StripNumber(s: string, mark: string): (string, int) {
    var n := TrailingDigits(s);
    var number: int := Parse(s[|s| - n..]);
    var head := s[..|s| - n];
    if n > 0 && |mark| <= |head| && head[|head| - |mark|..] == mark then (head[..|head| - |mark|], number)
    else (s, -1)
  }

  /** `_attempt_key`: the position a role is about, and how recent its attempt and retry are. */
  function AttemptKey(role: string): (string, (int, int)) {
    var retried := StripNumber(role, "-r");
    var attempted := StripNumber(retried.0, "-");
    (attempted.0, (attempted.1, retried.1))
  }

  lemma {:induction false} TrailingOf(head: string, digits: string)
    requires AllDigits(digits) && (head == [] || !IsDigit(head[|head| - 1]))
    ensures TrailingDigits(head + digits) == |digits|
    decreases |digits|
  {
    var s := head + digits;
    if digits == [] {
      assert s == head;
    } else {
      assert digits[|digits| - 1] in digits;
      assert s[..|s| - 1] == head + digits[..|digits| - 1];
      TrailingOf(head, digits[..|digits| - 1]);
    }
  }

  /** A number put after its mark is found again, whatever stands before. */
  lemma StripBack(p: string, mark: string, n: nat)
    requires mark != [] && !IsDigit(mark[|mark| - 1])
    ensures StripNumber(p + mark + Decimal(n), mark) == (p, n)
  {
    var s := p + mark + Decimal(n);
    TrailingOf(p + mark, Decimal(n));
    ParseDecimal(n);
    assert s[..|s| - |Decimal(n)|] == p + mark;
    assert s[|s| - |Decimal(n)|..] == Decimal(n);
    assert (p + mark)[|p|..] == mark && (p + mark)[..|p|] == p;
  }

  /** A text that ends in a dash and a number does not end in a retry. */
  lemma NoRetry(p: string, n: nat)
    ensures StripNumber(p + "-" + Decimal(n), "-r") == (p + "-" + Decimal(n), -1)
  {
    var s := p + "-" + Decimal(n);
    TrailingOf(p + "-", Decimal(n));
    var head := s[..|s| - |Decimal(n)|];
    assert head == p + "-";
    if |head| >= 2 {
      assert head[|head| - 2..][1] == '-';
      assert "-r"[1] == 'r';
    }
  }

  function RoleOf(request: string, run: Run): string { RunGraphRole(request, RunRef(request, run)) }

  /** The position a run's role is filed under. */
  function PositionKey(request: string, position: seq<Segment>): string {
    ROLE_PREFIX + request + ":" + Replace(request, ':', '-') + "-" + Path(position, '-')
  }

  lemma {:induction false} PathFolds(position: seq<Segment>)
    ensures Replace(Path(position, ':'), ':', '-') == Path(position, '-')
  {
    if |position| == 1 {
      SegmentHasNo(position[0]);
    } else if |position| > 1 {
      PathFolds(position[..|position| - 1]);
      SegmentHasNo(position[|position| - 1]);
    }
  }

  lemma SegmentHasNo(s: Segment)
    ensures ':' !in SegmentText(s) && '-' !in SegmentText(s) && SegmentText(s) != []
  {}

  lemma ReplaceAdds(a: string, b: string)
    ensures Replace(a + b, ':', '-') == Replace(a, ':', '-') + Replace(b, ':', '-')
  {}

  lemma ReplaceDigits(s: string)
    requires AllDigits(s)
    ensures Replace(s, ':', '-') == s
  {
    forall i | 0 <= i < |s| ensures Replace(s, ':', '-')[i] == s[i] { assert s[i] in s; }
  }

  function AttemptText(attempt: nat, retry: int, sep: string): string {
    sep + Decimal(attempt) + if retry < 0 then "" else sep + "r" + Decimal(retry)
  }

  lemma AttemptFolds(attempt: nat, retry: int)
    ensures Replace(AttemptText(attempt, retry, ":"), ':', '-') == AttemptText(attempt, retry, "-")
  {
    ReplaceDigits(Decimal(attempt));
    ReplaceAdds(":", Decimal(attempt));
    if retry >= 0 {
      ReplaceDigits(Decimal(retry));
      ReplaceAdds(":" + "r", Decimal(retry));
      ReplaceAdds(":" + Decimal(attempt), ":" + "r" + Decimal(retry));
    }
  }

  lemma BodyFolds(request: string, path: string, tail: string)
    ensures Replace(request + ":" + path + tail, ':', '-') == Replace(request, ':', '-') + "-" + Replace(path, ':', '-') + Replace(tail, ':', '-')
  {
    ReplaceAdds(request + ":" + path, tail);
    ReplaceAdds(request + ":", path);
    ReplaceAdds(request, ":");
  }

  lemma PrefixComesOff(prefix: string, rest: string)
    ensures StartsWith(prefix + rest, prefix) && (prefix + rest)[|prefix|..] == rest
  {}

  /** The role of a run, part by part. */
  lemma RoleParts(request: string, run: Run)
    ensures RoleOf(request, run) == PositionKey(request, run.position) + AttemptText(run.attempt, run.retry, "-")
  {
    var path, tail := Path(run.position, ':'), AttemptText(run.attempt, run.retry, ":");
    PrefixComesOff(RUN_PREFIX, request + ":" + path + tail);
    BodyFolds(request, path, tail);
    PathFolds(run.position);
    AttemptFolds(run.attempt, run.retry);
    RoleJoins(ROLE_PREFIX, request, Replace(request, ':', '-') + "-" + Path(run.position, '-'), AttemptText(run.attempt, run.retry, "-"));
  }

  /** How references and roles begin, so that the one is told from the other and from any other role. */
  lemma Prefixes(request: string, run: Run, runRef: string)
    ensures StartsWith(RunRef(request, run), "pipelinerun:") && StartsWith(RunGraphRole(request, runRef), "capacity:run:" + request + ":")
  {
    var rest := request + ":" + Path(run.position, ':') + AttemptText(run.attempt, run.retry, ":");
    assert RunRef(request, run)[..|RUN_PREFIX|] == RUN_PREFIX;
    var role := RunGraphRole(request, runRef);
    assert role[..|ROLE_PREFIX + request + ":"|] == ROLE_PREFIX + request + ":";
  }

  lemma RoleJoins(prefix: string, request: string, body: string, tail: string)
    ensures prefix + request + ":" + (body + tail) == prefix + request + ":" + body + tail
  {}

  /** The key of any text with an attempt, and for a member a retry, written after it. */
  lemma KeyOf(p: string, attempt: nat, retry: int)
    requires retry >= -1
    ensures AttemptKey(p + AttemptText(attempt, retry, "-")) == (p, (attempt, retry))
  {
    var s := p + AttemptText(attempt, retry, "-");
    if retry < 0 {
      assert s == p + "-" + Decimal(attempt);
      NoRetry(p, attempt);
    } else {
      assert "-" + "r" == "-r";
      assert s == p + "-" + Decimal(attempt) + "-r" + Decimal(retry);
      StripBack(p + "-" + Decimal(attempt), "-r", retry);
    }
    StripBack(p, "-", attempt);
  }

  /** What is printed is read back, at any nesting: position, attempt and retry. */
  lemma RoundTrip(request: string, run: Run)
    requires run.retry >= -1
    ensures AttemptKey(RoleOf(request, run)) == (PositionKey(request, run.position), (run.attempt, run.retry))
  {
    RoleParts(request, run);
    KeyOf(PositionKey(request, run.position), run.attempt, run.retry);
  }

  // ---- distinct runs have distinct roles ----

  lemma LastPiece(a: string, s: string, b: string, t: string)
    requires a + ['-'] + s == b + ['-'] + t && '-' !in s && '-' !in t
    ensures a == b && s == t
  {
    var u, v := a + ['-'] + s, b + ['-'] + t;
    assert u[|a|] == '-' && v[|b|] == '-';
    assert forall i | |a| < i < |u| :: u[i] == s[i - |a| - 1] && u[i] != '-';
    assert forall i | |b| < i < |v| :: v[i] == t[i - |b| - 1] && v[i] != '-';
    assert |a| == |b|;
    assert u[..|a|] == a && u[|a| + 1..] == s;
    assert v[..|b|] == b && v[|b| + 1..] == t;
  }

  lemma SegmentsDiffer(s: Segment, t: Segment)
    requires SegmentText(s) == SegmentText(t)
    ensures s == t
  {
    ParseDecimal(s.index);
    ParseDecimal(t.index);
    assert SegmentText(s)[0] == 'm' <==> s.Member? by { assert Decimal(s.index)[0] in Decimal(s.index); }
    assert SegmentText(t)[0] == 'm' <==> t.Member? by { assert Decimal(t.index)[0] in Decimal(t.index); }
    if s.Member? {
      assert SegmentText(s)[1..] == Decimal(s.index) && SegmentText(t)[1..] == Decimal(t.index);
    }
  }

  lemma DashMeansMore(p: seq<Segment>)
    requires p != []
    ensures '-' in Path(p, '-') <==> |p| > 1
  {
    SegmentHasNo(p[0]);
    if |p| > 1 {
      var front := Path(p[..|p| - 1], '-');
      assert Path(p, '-')[|front|] == '-';
    }
  }

  lemma {:induction false} PathsDiffer(p: seq<Segment>, q: seq<Segment>)
    requires p != [] && q != [] && Path(p, '-') == Path(q, '-')
    ensures p == q
    decreases |p|
  {
    DashMeansMore(p);
    DashMeansMore(q);
    if |p| == 1 {
      SegmentsDiffer(p[0], q[0]);
    } else {
      SegmentHasNo(p[|p| - 1]);
      SegmentHasNo(q[|q| - 1]);
      LastPiece(Path(p[..|p| - 1], '-'), SegmentText(p[|p| - 1]), Path(q[..|q| - 1], '-'), SegmentText(q[|q| - 1]));
      SegmentsDiffer(p[|p| - 1], q[|q| - 1]);
      PathsDiffer(p[..|p| - 1], q[..|q| - 1]);
      FrontAndLast(p, q);
    }
  }

  lemma FrontAndLast(p: seq<Segment>, q: seq<Segment>)
    requires p != [] && q != [] && p[..|p| - 1] == q[..|q| - 1] && p[|p| - 1] == q[|q| - 1]
    ensures p == q
  {
    assert p == p[..|p| - 1] + [p[|p| - 1]];
    assert q == q[..|q| - 1] + [q[|q| - 1]];
  }

  lemma SameTail(prefix: string, a: string, b: string)
    requires prefix + a == prefix + b
    ensures a == b
  {
    assert (prefix + a)[|prefix|..] == a && (prefix + b)[|prefix|..] == b;
  }

  /** Within one request, two runs with the same role are the same run. */
  lemma RolesAreDistinct(request: string, r: Run, s: Run)
    requires r.position != [] && s.position != [] && r.retry >= -1 && s.retry >= -1
    requires RoleOf(request, r) == RoleOf(request, s)
    ensures r == s
  {
    RoundTrip(request, r);
    RoundTrip(request, s);
    SameTail(ROLE_PREFIX + request + ":" + Replace(request, ':', '-') + "-", Path(r.position, '-'), Path(s.position, '-'));
    PathsDiffer(r.position, s.position);
  }

  // ---- the latest run of each position ----

  /** A stored run graph; one without a role has the empty one. */
  datatype Anchor = Anchor(id: int, role: string)

  predicate MoreRecent(a: (int, int), b: (int, int)) { a.0 > b.0 || (a.0 == b.0 && a.1 > b.1) }

  /** No later attempt, and of the same attempt no later retry. */
  predicate NoLater(a: (int, int), b: (int, int)) { a.0 <= b.0 && (a.0 == b.0 ==> a.1 <= b.1) }

  /** How a role is read: its position, and its attempt and retry. */
  type Reading = string -> (string, (int, int))

  ghost predicate HasPosition(key: Reading, anchors: seq<Anchor>, p: string) {
    exists a :: a in anchors && a.role != "" && key(a.role).0 == p
  }

  /** `a` is of position `p`, none of that position is more recent, and none before it as recent. */
  ghost predicate BestOf(key: Reading, a: Anchor, anchors: seq<Anchor>, p: string) {
    exists k :: 0 <= k < |anchors| && anchors[k] == a && BestAt(key, k, anchors, p)
  }

  ghost predicate BestAt(key: Reading, k: nat, anchors: seq<Anchor>, p: string)
    requires k < |anchors|
  {
    && OfPosition(key, anchors[k], p)
    && forall j | 0 <= j < |anchors| && OfPosition(key, anchors[j], p) ::
         NoLater(key(anchors[j].role).1, key(anchors[k].role).1) && (j < k ==> key(anchors[j].role).1 != key(anchors[k].role).1)
  }

  ghost predicate OfPosition(key: Reading, a: Anchor, p: string) { a.role != "" && key(a.role).0 == p }

  /** The anchors without a role, in their order. */
  function Roleless(anchors: seq<Anchor>): (r: seq<Anchor>)
    ensures forall a :: a in r <==> a in anchors && a.role == ""
  {
    if anchors == [] then []
    else
      var last := anchors[|anchors| - 1];
      assert anchors == anchors[..|anchors| - 1] + [last];
      Roleless(anchors[..|anchors| - 1]) + if last.role == "" then [last] else []
  }

  ghost predicate Latest(key: Reading, anchors: seq<Anchor>, kept: seq<Anchor>, best: map<string, Anchor>) {
    && kept == Roleless(anchors)
    && (forall p :: p in best <==> HasPosition(key, anchors, p))
    && (forall p | p in best :: BestOf(key, best[p], anchors, p))
  }

  /** `_latest_by_position`: of each position the most recent run, the first of equals, and no other; anchors without a role
      are all kept, in order. */
  method LatestByPosition(anchors: seq<Anchor>) returns (kept: seq<Anchor>, best: map<string, Anchor>)
    ensures Latest(AttemptKey, anchors, kept, best)
  {
    kept, best := [], map[];
    for k := 0 to |anchors|
      invariant Latest(AttemptKey, anchors[..k], kept, best)
    {
      var a := anchors[k];
      assert anchors[..k + 1] == anchors[..k] + [a];
      if a.role == "" {
        KeptMore(AttemptKey, anchors[..k], a, kept, best);
        kept := kept + [a];
      } else {
        BestMore(AttemptKey, anchors[..k], a, kept, best);
        var (position, recency) := AttemptKey(a.role);
        if position !in best || MoreRecent(recency, AttemptKey(best[position].role).1) { best := best[position := a]; }
      }
    }
    assert anchors[..|anchors|] == anchors;
  }

  lemma KeptMore(key: Reading, seen: seq<Anchor>, a: Anchor, kept: seq<Anchor>, best: map<string, Anchor>)
    requires Latest(key, seen, kept, best) && a.role == ""
    ensures Latest(key, seen + [a], kept + [a], best)
  {
    assert (seen + [a])[..|seen|] == seen;
    assert forall o :: o in seen + [a] <==> o in seen || o == a;
    forall p ensures HasPosition(key, seen + [a], p) <==> HasPosition(key, seen, p) {
      if HasPosition(key, seen, p) {
        var o :| o in seen && o.role != "" && key(o.role).0 == p;
        assert o in seen + [a];
      }
    }
    forall p | p in best ensures BestOf(key, best[p], seen + [a], p) { BestStays(key, best[p], seen, a, p); }
  }

  /** One more that is of another position, or no more recent, changes nothing. */
  lemma BestStays(key: Reading, b: Anchor, seen: seq<Anchor>, a: Anchor, p: string)
    requires BestOf(key, b, seen, p) && (OfPosition(key, a, p) ==> NoLater(key(a.role).1, key(b.role).1))
    ensures BestOf(key, b, seen + [a], p)
  {
    var k :| 0 <= k < |seen| && seen[k] == b && BestAt(key, k, seen, p);
    var more := seen + [a];
    assert forall j | 0 <= j < |seen| :: more[j] == seen[j];
    assert more[k] == b && BestAt(key, k, more, p);
  }

  /** One more recent than all before takes the position, and so does the first of a position. */
  lemma BestTakes(key: Reading, seen: seq<Anchor>, a: Anchor, p: string)
    requires OfPosition(key, a, p)
    requires forall o | o in seen && OfPosition(key, o, p) :: MoreRecent(key(a.role).1, key(o.role).1)
    ensures BestOf(key, a, seen + [a], p)
  {
    var more := seen + [a];
    forall j | 0 <= j < |seen| ensures more[j] == seen[j] && more[j] in seen {}
    assert more[|seen|] == a && BestAt(key, |seen|, more, p);
  }

  lemma BestIsLatest(key: Reading, b: Anchor, seen: seq<Anchor>, p: string)
    requires BestOf(key, b, seen, p)
    ensures forall o | o in seen && OfPosition(key, o, p) :: NoLater(key(o.role).1, key(b.role).1)
    ensures OfPosition(key, b, p)
  {
    forall o | o in seen && OfPosition(key, o, p) ensures NoLater(key(o.role).1, key(b.role).1) {
      var j :| 0 <= j < |seen| && seen[j] == o;
    }
  }

  lemma BestMore(key: Reading, seen: seq<Anchor>, a: Anchor, kept: seq<Anchor>, best: map<string, Anchor>)
    requires Latest(key, seen, kept, best) && a.role != ""
    ensures Latest(key, seen + [a], kept, if Takes(key, a, best) then best[key(a.role).0 := a] else best)
  {
    var best' := if Takes(key, a, best) then best[key(a.role).0 := a] else best;
    RoleMore(seen, a);
    OnePositionMore(key, seen, a);
    forall p ensures p in best' <==> HasPosition(key, seen + [a], p) {}
    forall p | p in best' ensures BestOf(key, best'[p], seen + [a], p) { BestOfMore(key, seen, a, kept, best, p); }
  }

  lemma RoleMore(seen: seq<Anchor>, a: Anchor)
    requires a.role != ""
    ensures Roleless(seen + [a]) == Roleless(seen)
  {
    assert (seen + [a])[..|seen|] == seen;
  }

  /** Its position is new, or it is more recent than what has it. */
  predicate Takes(key: Reading, a: Anchor, best: map<string, Anchor>) {
    key(a.role).0 !in best || MoreRecent(key(a.role).1, key(best[key(a.role).0].role).1)
  }

  lemma OnePositionMore(key: Reading, seen: seq<Anchor>, a: Anchor)
    requires a.role != ""
    ensures forall p :: HasPosition(key, seen + [a], p) <==> HasPosition(key, seen, p) || p == key(a.role).0
  {
    assert forall o :: o in seen + [a] <==> o in seen || o == a;
    forall p ensures HasPosition(key, seen + [a], p) <==> HasPosition(key, seen, p) || p == key(a.role).0 {
      if HasPosition(key, seen, p) {
        var o :| o in seen && o.role != "" && key(o.role).0 == p;
        assert o in seen + [a];
      }
      assert a in seen + [a];
    }
  }

  lemma BestOfMore(key: Reading, seen: seq<Anchor>, a: Anchor, kept: seq<Anchor>, best: map<string, Anchor>, p: string)
    requires Latest(key, seen, kept, best) && a.role != ""
    ensures p == key(a.role).0 && Takes(key, a, best) ==> BestOf(key, a, seen + [a], p)
    ensures p in best && !(p == key(a.role).0 && Takes(key, a, best)) ==> BestOf(key, best[p], seen + [a], p)
  {
    if p in best { BestIsLatest(key, best[p], seen, p); }
    if p == key(a.role).0 && Takes(key, a, best) {
      forall o | o in seen && OfPosition(key, o, p) ensures MoreRecent(key(a.role).1, key(o.role).1) { assert HasPosition(key, seen, p); }
      BestTakes(key, seen, a, p);
    } else if p in best {
      BestStays(key, best[p], seen, a, p);
    }
  }
}
