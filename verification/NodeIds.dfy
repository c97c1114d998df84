/** The ids of a run's grounding nodes, as the writer keeps them apart and as they are printed. */
module NodeIds {
  import opened Identifiers
  import opened RunRefs

  /** One per type and sequence number, and one of each of the last three per run or raw task. */
  datatype Id =
    | ValueId(datastate: Iri, seq_no: nat)
    | CapacityId(capacity: Iri, seq_no: nat)
    | RootId(datastate: Iri)
    | StopId
    | ManifestId

  const DATASTATE := "datastate:"
  const CAPACITY := "capacity:"

  /** A full IRI or a bare name, without its prefix. */
  function Bare(name: string, prefix: string): string {
    if StartsWith(name, prefix) then name[|prefix|..] else name
  }

  /** What stands after the type in an instance's id, up to its number. */
  function Scope(request: string, run: string): string { "#" + request + "." + run + "." }

  function InstanceId(prefix: string, name: string, scope: string, n: nat): string {
    prefix + Bare(name, prefix) + scope + Decimal(n)
  }

  /** The id builders, for one request and one run reference already made safe. */
  function Printed(request: string, run: string, id: Id): string {
    match id
    case ValueId(d, n) => InstanceId(DATASTATE, d.text, Scope(request, run), n)
    case CapacityId(c, n) => InstanceId(CAPACITY, c.text, Scope(request, run), n)
    case RootId(d) => DATASTATE + Bare(d.text, DATASTATE) + "#" + request + ".root"
    case StopId => "runstopped:" + request + "." + run
    case ManifestId => "runmanifest:" + request + "." + run
  }

  /** What names a writer's nodes: the request, and the run reference made safe. */
  datatype Naming = Naming(request: string, run: string)
  {
    function Of(id: Id): Iri { Iri(Printed(request, run, id)) }

    function All(ids: set<Id>): set<Iri> { set id | id in ids :: Of(id) }
  }

  /** The same type under its bare and its full name, or the same name. */
  predicate SameName(a: Iri, b: Iri, prefix: string) { Bare(a.text, prefix) == Bare(b.text, prefix) }

  /** Ids that differ at most in how the type is named. */
  predicate Alike(a: Id, b: Id) {
    match (a, b)
    case (ValueId(d, n), ValueId(e, m)) => n == m && SameName(d, e, DATASTATE)
    case (CapacityId(c, n), CapacityId(e, m)) => n == m && SameName(c, e, CAPACITY)
    case (RootId(d), RootId(e)) => SameName(d, e, DATASTATE)
    case _ => a == b
  }

  lemma SameTail(a: string, b: string, tail: string)
    ensures a + tail == b + tail <==> a == b
  {
    if a + tail == b + tail {
      assert (a + tail)[..|a|] == a && (b + tail)[..|b|] == b;
    }
  }

  lemma SameHead(head: string, a: string, b: string)
    ensures head + a == head + b <==> a == b
  {
    if head + a == head + b {
      assert (head + a)[|head|..] == a && (head + b)[|head|..] == b;
    }
  }

  /** Two texts that end in numbers after something that is no digit: the numbers are the same, and what stands before. */
  lemma SameNumbered(a: string, n: nat, b: string, m: nat)
    requires a != [] && !IsDigit(a[|a| - 1]) && b != [] && !IsDigit(b[|b| - 1])
    ensures a + Decimal(n) == b + Decimal(m) <==> a == b && n == m
  {
    if a + Decimal(n) == b + Decimal(m) {
      TrailingOf(a, Decimal(n));
      TrailingOf(b, Decimal(m));
      assert (a + Decimal(n))[|a|..] == Decimal(n) && (b + Decimal(m))[|b|..] == Decimal(m);
      assert (a + Decimal(n))[..|a|] == a && (b + Decimal(m))[..|b|] == b;
      ParseDecimal(n);
      ParseDecimal(m);
    }
  }

  lemma SameInstance(prefix: string, a: string, n: nat, b: string, m: nat, request: string, run: string)
    ensures InstanceId(prefix, a, Scope(request, run), n) == InstanceId(prefix, b, Scope(request, run), m) <==>
      n == m && Bare(a, prefix) == Bare(b, prefix)
  {
    var scope := Scope(request, run);
    assert scope[|scope| - 1] == '.';
    var x, y := prefix + Bare(a, prefix) + scope, prefix + Bare(b, prefix) + scope;
    assert x[|x| - 1] == '.' && y[|y| - 1] == '.';
    SameNumbered(x, n, y, m);
    SameTail(prefix + Bare(a, prefix), prefix + Bare(b, prefix), scope);
    SameHead(prefix, Bare(a, prefix), Bare(b, prefix));
  }

  lemma SameRoot(a: string, b: string, request: string)
    ensures Printed(request, [], RootId(Iri(a))) == Printed(request, [], RootId(Iri(b))) <==> Bare(a, DATASTATE) == Bare(b, DATASTATE)
  {
    var tail := "#" + request + ".root";
    assert DATASTATE + Bare(a, DATASTATE) + "#" + request + ".root" == DATASTATE + Bare(a, DATASTATE) + tail;
    assert DATASTATE + Bare(b, DATASTATE) + "#" + request + ".root" == DATASTATE + Bare(b, DATASTATE) + tail;
    SameTail(DATASTATE + Bare(a, DATASTATE), DATASTATE + Bare(b, DATASTATE), tail);
    SameHead(DATASTATE, Bare(a, DATASTATE), Bare(b, DATASTATE));
  }

  /** The first letter tells a value or root from a capacity and from the marks, the fourth tells the marks apart. */
  lemma FirstLetters(request: string, run: string, id: Id)
    ensures |Printed(request, run, id)| > 3
    ensures Printed(request, run, id)[0] == match id case ValueId(_, _) => 'd' case RootId(_) => 'd' case CapacityId(_, _) => 'c' case _ => 'r'
    ensures id.StopId? ==> Printed(request, run, id)[3] == 's'
    ensures id.ManifestId? ==> Printed(request, run, id)[3] == 'm'
  {}

  /** A value's id ends in a digit, a root's in a letter. */
  lemma LastLetters(request: string, run: string, id: Id)
    ensures id.ValueId? ==> IsDigit(Printed(request, run, id)[|Printed(request, run, id)| - 1])
    ensures id.RootId? ==> Printed(request, run, id)[|Printed(request, run, id)| - 1] == 't'
  {
    if id.ValueId? {
      var d := Decimal(id.seq_no);
      assert d[|d| - 1] in d;
    }
  }

  /** Two node ids of one run print the same exactly if they are alike: whatever the types, the request and the run are
      called, only a type named in two ways can make two nodes' ids one. */
  lemma PrintedAlike(request: string, run: string, a: Id, b: Id)
    ensures Printed(request, run, a) == Printed(request, run, b) <==> Alike(a, b)
  {
    FirstLetters(request, run, a);
    FirstLetters(request, run, b);
    LastLetters(request, run, a);
    LastLetters(request, run, b);
    match (a, b) {
      case (ValueId(d, n), ValueId(e, m)) => SameInstance(DATASTATE, d.text, n, e.text, m, request, run);
      case (CapacityId(c, n), CapacityId(e, m)) => SameInstance(CAPACITY, c.text, n, e.text, m, request, run);
      case (RootId(d), RootId(e)) => SameRoot(d.text, e.text, request);
      case _ =>
    }
  }

  lemma SplitAtLast(a: string, x: string, b: string, y: string, c: char)
    requires a + [c] + x == b + [c] + y && c !in x && c !in y
    ensures a == b && x == y
  {
    var s, t := a + [c] + x, b + [c] + y;
    assert s[|a|] == c && t[|b|] == c;
    assert s[..|a|] == a && t[..|b|] == b && s[|a| + 1..] == x && t[|b| + 1..] == y;
  }

  lemma SplitAtFirst(a: string, x: string, b: string, y: string, c: char)
    requires a + [c] + x == b + [c] + y && c !in a && c !in b
    ensures a == b && x == y
  {
    var s, t := a + [c] + x, b + [c] + y;
    assert s[|a|] == c && t[|b|] == c;
    assert s[..|a|] == a && t[..|b|] == b && s[|a| + 1..] == x && t[|b| + 1..] == y;
  }

  /** The type named by an id is written without the character that ends it in the printed form. */
  predicate PlainName(id: Id) {
    match id
    case ValueId(d, _) => '#' !in d.text
    case CapacityId(c, _) => '#' !in c.text
    case RootId(d) => '#' !in d.text
    case _ => true
  }

  lemma SameInstanceAcross(prefix: string, a: string, n: nat, b: string, m: nat, q: string, r: string, q': string, r': string)
    requires '#' !in prefix && '#' !in a && '#' !in b && '.' !in r && '.' !in r'
    requires InstanceId(prefix, a, Scope(q, r), n) == InstanceId(prefix, b, Scope(q', r'), m)
    ensures n == m && Bare(a, prefix) == Bare(b, prefix) && q == q' && r == r'
  {
    var x, y := prefix + Bare(a, prefix), prefix + Bare(b, prefix);
    DecimalHasNoDot(n);
    DecimalHasNoDot(m);
    assert InstanceId(prefix, a, Scope(q, r), n) == (x + ['#'] + q + ['.'] + r) + ['.'] + Decimal(n);
    assert InstanceId(prefix, b, Scope(q', r'), m) == (y + ['#'] + q' + ['.'] + r') + ['.'] + Decimal(m);
    SplitAtLast(x + ['#'] + q + ['.'] + r, Decimal(n), y + ['#'] + q' + ['.'] + r', Decimal(m), '.');
    SplitAtLast(x + ['#'] + q, r, y + ['#'] + q', r', '.');
    SplitAtFirst(x, q, y, q', '#');
    SameHead(prefix, Bare(a, prefix), Bare(b, prefix));
    ParseDecimal(n);
    ParseDecimal(m);
  }

  lemma DecimalHasNoDot(n: nat)
    ensures '.' !in Decimal(n)
  {
    assert forall c | c in Decimal(n) :: IsDigit(c);
  }

  lemma SameRootAcross(a: string, b: string, q: string, q': string)
    requires '#' !in a && '#' !in b && Printed(q, [], RootId(Iri(a))) == Printed(q', [], RootId(Iri(b)))
    ensures Bare(a, DATASTATE) == Bare(b, DATASTATE) && q == q'
  {
    var x, y := DATASTATE + Bare(a, DATASTATE), DATASTATE + Bare(b, DATASTATE);
    assert Printed(q, [], RootId(Iri(a))) == x + ['#'] + (q + ".root") && Printed(q', [], RootId(Iri(b))) == y + ['#'] + (q' + ".root");
    SplitAtFirst(x, q + ".root", y, q' + ".root", '#');
    SameTail(q, q', ".root");
    SameHead(DATASTATE, Bare(a, DATASTATE), Bare(b, DATASTATE));
  }

  lemma SameMarkAcross(head: string, q: string, r: string, q': string, r': string)
    requires '.' !in r && '.' !in r' && head + q + "." + r == head + q' + "." + r'
    ensures q == q' && r == r'
  {
    assert head + q + "." + r == (head + q) + ['.'] + r && head + q' + "." + r' == (head + q') + ['.'] + r';
    SplitAtLast(head + q, r, head + q', r', '.');
    SameHead(head, q, q');
  }

  /** Nodes of different requests or runs do not print the same, the raw task of one request apart, which all of its runs
      share: with the separators kept out of type names and run references, equal ids are one request's, one run's and, up
      to how the type is named, one node's. */
  lemma PrintedAcrossRuns(q: string, r: string, a: Id, q': string, r': string, b: Id)
    requires '.' !in r && '.' !in r' && PlainName(a) && PlainName(b)
    ensures Printed(q, r, a) == Printed(q', r', b) <==> Alike(a, b) && q == q' && (a.RootId? || r == r')
  {
    if Alike(a, b) && q == q' && (a.RootId? || r == r') {
      PrintedAlike(q, r, a, b);
    }
    if Printed(q, r, a) == Printed(q', r', b) {
      FirstLetters(q, r, a);
      FirstLetters(q', r', b);
      LastLetters(q, r, a);
      LastLetters(q', r', b);
      match (a, b) {
        case (ValueId(d, n), ValueId(e, m)) => SameInstanceAcross(DATASTATE, d.text, n, e.text, m, q, r, q', r');
        case (CapacityId(c, n), CapacityId(e, m)) => SameInstanceAcross(CAPACITY, c.text, n, e.text, m, q, r, q', r');
        case (RootId(d), RootId(e)) => SameRootAcross(d.text, e.text, q, q');
        case (StopId, StopId) => SameMarkAcross("runstopped:", q, r, q', r');
        case (ManifestId, ManifestId) => SameMarkAcross("runmanifest:", q, r, q', r');
        case _ =>
      }
    }
  }

  /** The same for what two writers call their nodes. */
  lemma NamesAcrossRuns(m: Naming, a: Id, n: Naming, b: Id)
    requires '.' !in m.run && '.' !in n.run && PlainName(a) && PlainName(b)
    ensures m.Of(a) == n.Of(b) <==> Alike(a, b) && m.request == n.request && (a.RootId? || m.run == n.run)
  {
    PrintedAcrossRuns(m.request, m.run, a, n.request, n.run, b);
  }

  /** Two names are one type's exactly if they are equal, or one is the other with the prefix before it. */
  lemma SameNameExactly(a: string, b: string, prefix: string)
    ensures Bare(a, prefix) == Bare(b, prefix) <==>
      a == b || (a == prefix + b && !StartsWith(b, prefix)) || (b == prefix + a && !StartsWith(a, prefix))
  {
    if StartsWith(a, prefix) { assert a == prefix + Bare(a, prefix); }
    if StartsWith(b, prefix) { assert b == prefix + Bare(b, prefix); }
    PrefixComesOff(prefix, a);
    PrefixComesOff(prefix, b);
  }

  /** No type under its bare name and its full one. */
  ghost predicate OneNameEach(names: set<Iri>, prefix: string) {
    forall a, b | a in names && b in names :: a.text == prefix + b.text ==> StartsWith(b.text, prefix)
  }

  /** The types named by some ids. */
  ghost predicate Names(ids: set<Id>, datastates: set<Iri>, capacities: set<Iri>) {
    forall id | id in ids ::
      match id
      case ValueId(d, _) => d in datastates
      case RootId(d) => d in datastates
      case CapacityId(c, _) => c in capacities
      case _ => true
  }

  /** A run that calls each type by one name gives its nodes different ids. */
  lemma OneNameIsEnough(request: string, run: string, ids: set<Id>, datastates: set<Iri>, capacities: set<Iri>)
    requires Names(ids, datastates, capacities) && OneNameEach(datastates, DATASTATE) && OneNameEach(capacities, CAPACITY)
    ensures forall a, b | a in ids && b in ids && Printed(request, run, a) == Printed(request, run, b) :: a == b
  {
    forall a, b | a in ids && b in ids && Printed(request, run, a) == Printed(request, run, b) ensures a == b {
      PrintedAlike(request, run, a, b);
      match (a, b) {
        case (ValueId(d, n), ValueId(e, m)) => SameNameExactly(d.text, e.text, DATASTATE);
        case (CapacityId(c, n), CapacityId(e, m)) => SameNameExactly(c.text, e.text, CAPACITY);
        case (RootId(d), RootId(e)) => SameNameExactly(d.text, e.text, DATASTATE);
        case _ =>
      }
    }
  }
}
