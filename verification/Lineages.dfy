/** The lineage of an Episode's values, and the walk that lists what leaned on the model. */
module Lineages {
  import opened Identifiers
  import opened Graphs
  import opened Folding
  import opened Episodes
  import opened CopyClasses

  /** What `_Lineage` holds once built: each value's own facts, the copy classes, and the marks by root. */
  datatype Lineage = Lineage(runs: Episode, own: map<Ref, Facts>, alias: map<Ref, Ref>, marks: map<Ref, set<Ref>>)

  ghost function EpisodeValues(runs: Episode): set<Ref> {
    set g, id | g in runs && id in runs[g].nodes && runs[g].IsValue(id) :: Ref(g, id)
  }

  ghost function CopyPairs(own: map<Ref, Facts>): set<(Ref, Ref)> {
    set r | r in own && own[r].copyOf.Some? :: (r, own[r].copyOf.value)
  }

  function MarksAt(marks: map<Ref, set<Ref>>, root: Ref): set<Ref> { if root in marks then marks[root] else {} }

  function Parents(own: map<Ref, Facts>): Graph<Ref> {
    map r | r in own :: set p | p in own[r].parents
  }

  ghost predicate FactsFit(runs: Episode, own: map<Ref, Facts>) {
    forall r | r in own :: IsEpisodeValue(runs, r) && own[r] == OwnFacts(runs, r.graph, r.instance)
  }

  ghost predicate MarksFit(own: map<Ref, Facts>, alias: map<Ref, Ref>, h: Height, marks: map<Ref, set<Ref>>, seen: set<Ref>)
    requires Forest(alias, h)
  {
    forall root, m :: m in MarksAt(marks, root) <==> m in seen && m in own && own[m].hows != {} && RootOf(alias, h, m) == root
  }

  ghost predicate IsBuilt(l: Lineage, h: Height) {
    && l.own.Keys == EpisodeValues(l.runs) && FactsFit(l.runs, l.own)
    && Forest(l.alias, h) && Joins(l.alias, h, CopyPairs(l.own))
    && MarksFit(l.own, l.alias, h, l.marks, l.own.Keys)
  }

  /** The same, kept folded. */
  ghost predicate Built(l: Lineage, h: Height) { forall key {:trigger Asked(key)} :: Asked(key) ==> IsBuilt(l, h) }

  /** `_Lineage.__init__`. */
  method Build(runs: Episode) returns (l: Lineage, ghost h: Height)
    ensures l.runs == runs && Built(l, h)
  {
    var own: map<Ref, Facts> := map[];
    var copies := new Copies();
    var todo := set g, id | g in runs && id in runs[g].nodes && runs[g].IsValue(id) :: Ref(g, id);
    while todo != {}
      invariant copies.Valid() && fresh(copies) && FactsFit(runs, own)
      invariant own.Keys + todo == EpisodeValues(runs) && own.Keys !! todo
      invariant copies.pairs == CopyPairs(own)
    {
      var r :| r in todo;
      todo := todo - {r};
      var facts := OwnFacts(runs, r.graph, r.instance);
      ghost var before := own;
      own := own[r := facts];
      if facts.copyOf.Some? { copies.Link(r, facts.copyOf.value); }
      OneMorePair(before, r, facts);
    }
    var marks := map[];
    marks := MarkRoots(own, copies);
    l, h := Lineage(runs, own, copies.alias, marks), copies.height;
  }

  lemma OneMorePair(own: map<Ref, Facts>, r: Ref, facts: Facts)
    requires r !in own
    ensures CopyPairs(own[r := facts]) == CopyPairs(own) + if facts.copyOf.Some? then {(r, facts.copyOf.value)} else {}
  {
    var more := CopyPairs(own) + if facts.copyOf.Some? then {(r, facts.copyOf.value)} else {};
    forall p | p in more ensures p in CopyPairs(own[r := facts]) {
      if p in CopyPairs(own) {
        assert p.0 in own && own[p.0].copyOf.Some? && p == (p.0, own[p.0].copyOf.value);
        assert own[r := facts][p.0] == own[p.0];
      } else {
        assert p == (r, own[r := facts][r].copyOf.value);
      }
    }
    forall p | p in CopyPairs(own[r := facts]) ensures p in more {
      assert p.0 == r || own[r := facts][p.0] == own[p.0];
    }
  }

  lemma OneMoreMark(own: map<Ref, Facts>, alias: map<Ref, Ref>, h: Height, marks: map<Ref, set<Ref>>, seen: set<Ref>, r: Ref)
    requires Forest(alias, h) && MarksFit(own, alias, h, marks, seen) && r in own
    ensures own[r].hows == {} ==> MarksFit(own, alias, h, marks, seen + {r})
    ensures var root := RootOf(alias, h, r);
      own[r].hows != {} ==> MarksFit(own, alias, h, marks[root := MarksAt(marks, root) + {r}], seen + {r})
  {
    var at := RootOf(alias, h, r);
    var more := marks[at := MarksAt(marks, at) + {r}];
    forall root, m
      ensures own[r].hows != {} ==>
        (m in MarksAt(more, root) <==> m in seen + {r} && m in own && own[m].hows != {} && RootOf(alias, h, m) == root)
    {
      assert m in MarksAt(more, root) <==> m in MarksAt(marks, root) || (root == at && m == r);
    }
  }

  /** A mark found on any copy of a value is the value's: each marked value is filed under its root. */
  method MarkRoots(own: map<Ref, Facts>, copies: Copies) returns (marks: map<Ref, set<Ref>>)
    requires copies.Valid()
    ensures MarksFit(own, copies.alias, copies.height, marks, own.Keys)
  {
    marks := map[];
    var todo := own.Keys;
    while todo != {}
      invariant todo <= own.Keys
      invariant MarksFit(own, copies.alias, copies.height, marks, own.Keys - todo)
    {
      var r :| r in todo;
      OneMoreMark(own, copies.alias, copies.height, marks, own.Keys - todo, r);
      assert own.Keys - todo + {r} == own.Keys - (todo - {r});
      todo := todo - {r};
      if own[r].hows != {} {
        var root := copies.Root(r);
        marks := marks[root := MarksAt(marks, root) + {r}];
      }
    }
  }

  /** The root of a value in a lineage already built. */
  method Root(l: Lineage, ghost h: Height, x: Ref) returns (r: Ref)
    requires Built(l, h)
    ensures Forest(l.alias, h) && r == RootOf(l.alias, h, x)
  {
    assert Asked(0);
    r := x;
    while r in l.alias && l.alias[r] != r
      invariant RootOf(l.alias, h, r) == RootOf(l.alias, h, x)
      decreases h.bound - h.Of(r)
    {
      r := l.alias[r];
    }
  }

  // ---- the walk ----

  /** The marked values that are copies of `v`. */
  ghost function MarksOf(l: Lineage, v: Ref): set<Ref> {
    set m | m in l.own && l.own[m].hows != {} && SameValue(CopyPairs(l.own), m, v)
  }

  /** The model values in the lineage of `r`: marks on any copy of anything it descends from. */
  ghost function ModelsOf(l: Lineage, r: Ref): set<Ref> {
    set m, v | v in l.own && m in MarksOf(l, v) && Reaches(Parents(l.own), r, v) :: m
  }

  ghost function GapsOf(l: Lineage, r: Ref): set<(Ref, Gap)> {
    set v, k | v in l.own && k in l.own[v].gaps && Reaches(Parents(l.own), r, v) :: (v, k)
  }

  datatype Leaning = Leaning(models: set<Ref>, gaps: set<(Ref, Gap)>)

  lemma RootMarks(l: Lineage, h: Height, v: Ref)
    requires Built(l, h)
    ensures Forest(l.alias, h) && MarksAt(l.marks, RootOf(l.alias, h, v)) == MarksOf(l, v)
  {
    assert Asked(0);
    forall m | m in l.own
      ensures m in MarksAt(l.marks, RootOf(l.alias, h, v)) <==> m in MarksOf(l, v)
    {
      RootsDecideSameValue(l.alias, h, CopyPairs(l.own), m, v);
    }
  }

  ghost predicate Once(stack: seq<Ref>) { forall i, j | 0 <= i < j < |stack| :: stack[i] != stack[j] }

  /** What has been taken up so far: everything seen and no longer on the stack has been looked at. */
  ghost predicate Gathered(l: Lineage, ref: Ref, seen: set<Ref>, stack: seq<Ref>, models: set<Ref>, gaps: set<(Ref, Gap)>) {
    && ref in seen && Once(stack) && (forall x | x in stack :: x in seen)
    && (forall x | x in seen :: Reaches(Parents(l.own), ref, x))
    && (forall x | x in seen && x !in stack :: Next(Parents(l.own), x) <= seen)
    && (forall m :: m in models <==> exists v :: v in seen && v !in stack && v in l.own && m in MarksOf(l, v))
    && (forall g :: g in gaps <==> g.0 in seen && g.0 !in stack && g.0 in l.own && g.1 in l.own[g.0].gaps)
  }

  /** The parents not yet seen go on the stack, each once. */
  method Push(parents: seq<Ref>, seen0: set<Ref>, stack0: seq<Ref>) returns (seen: set<Ref>, stack: seq<Ref>)
    requires Once(stack0) && forall x | x in stack0 :: x in seen0
    ensures Once(stack) && forall x | x in stack :: x in seen
    ensures seen == seen0 + set p | p in parents
    ensures forall x :: x in stack <==> x in stack0 || (x in parents && x !in seen0)
    ensures |stack| == |stack0| || seen > seen0
  {
    seen, stack := seen0, stack0;
    for k := 0 to |parents|
      invariant Once(stack) && forall x | x in stack :: x in seen
      invariant seen == seen0 + set p | p in parents[..k]
      invariant forall x :: x in stack <==> x in stack0 || (x in parents[..k] && x !in seen0)
      invariant |stack| == |stack0| || seen > seen0
    {
      TakeOneMore(parents, k);
      if parents[k] !in seen {
        seen := seen + {parents[k]};
        stack := stack + [parents[k]];
      }
    }
    assert parents[..|parents|] == parents;
  }

  /** One value looked at: its marks and gaps join what was gathered, its parents are seen. */
  lemma GatheredStep(l: Lineage, ref: Ref, seen: set<Ref>, rest: seq<Ref>, at: Ref, models: set<Ref>, gaps: set<(Ref, Gap)>,
                     seen': set<Ref>, stack': seq<Ref>)
    requires Gathered(l, ref, seen, rest + [at], models, gaps) && at !in rest && at in l.own
    requires Once(stack') && seen' == seen + set p | p in l.own[at].parents
    requires forall x :: x in stack' <==> x in rest || (x in l.own[at].parents && x !in seen)
    ensures Gathered(l, ref, seen', stack', models + MarksOf(l, at), gaps + set k | k in l.own[at].gaps :: (at, k))
  {
    var all := rest + [at];
    assert forall x :: x in all <==> x in rest || x == at;
    var parents := Parents(l.own);
    forall x | x in seen' ensures Reaches(parents, ref, x) {
      if x !in seen { ReachesStep(parents, ref, at, x); }
    }
    GoneThrough(l, seen, rest, at, seen', stack');
    forall x | x in seen' && x !in stack' ensures Next(parents, x) <= seen' {
      if x != at { assert Next(parents, x) <= seen; }
    }
    ModelsStep(l, seen, all, at, models, seen', stack');
    GapsStep(l, seen, all, at, gaps, seen', stack');
  }

  lemma GapsStep(l: Lineage, seen: set<Ref>, all: seq<Ref>, at: Ref, gaps: set<(Ref, Gap)>, seen': set<Ref>, stack': seq<Ref>)
    requires at in l.own && forall v :: v in seen' && v !in stack' <==> v == at || (v in seen && v !in all)
    requires forall g :: g in gaps <==> g.0 in seen && g.0 !in all && g.0 in l.own && g.1 in l.own[g.0].gaps
    ensures forall g :: g in gaps + (set k | k in l.own[at].gaps :: (at, k)) <==> g.0 in seen' && g.0 !in stack' && g.0 in l.own && g.1 in l.own[g.0].gaps
  {
    forall g ensures g in (set k | k in l.own[at].gaps :: (at, k)) <==> g.0 == at && g.1 in l.own[at].gaps {
      assert g == (g.0, g.1);
    }
  }

  /** What has been gone through is what had been, and `at`. */
  lemma GoneThrough(l: Lineage, seen: set<Ref>, rest: seq<Ref>, at: Ref, seen': set<Ref>, stack': seq<Ref>)
    requires at in l.own && at in seen && at !in rest && seen' == seen + set p | p in l.own[at].parents
    requires forall x :: x in stack' <==> x in rest || (x in l.own[at].parents && x !in seen)
    requires forall x | x in rest :: x in seen
    ensures forall v :: v in seen' && v !in stack' <==> v == at || (v in seen && v !in rest + [at])
  {
    assert forall x :: x in rest + [at] <==> x in rest || x == at;
  }

  /** The marked copies met, then, are those met before and those `at` has. */
  lemma ModelsStep(l: Lineage, seen: set<Ref>, all: seq<Ref>, at: Ref, models: set<Ref>, seen': set<Ref>, stack': seq<Ref>)
    requires at in l.own && forall v :: v in seen' && v !in stack' <==> v == at || (v in seen && v !in all)
    requires forall m :: m in models <==> exists v :: v in seen && v !in all && v in l.own && m in MarksOf(l, v)
    ensures forall m :: m in models + MarksOf(l, at) <==> exists v :: v in seen' && v !in stack' && v in l.own && m in MarksOf(l, v)
  {
    forall m | m in MarksOf(l, at) ensures exists v :: v in seen' && v !in stack' && v in l.own && m in MarksOf(l, v) {
      assert at in seen' && at !in stack';
    }
  }

  lemma OutsideStep(l: Lineage, ref: Ref, seen: set<Ref>, rest: seq<Ref>, at: Ref, models: set<Ref>, gaps: set<(Ref, Gap)>)
    requires Gathered(l, ref, seen, rest + [at], models, gaps) && at !in rest && at !in l.own
    ensures Gathered(l, ref, seen, rest, models, gaps)
  {
    var all := rest + [at];
    assert forall x :: x in all <==> x in rest || x == at;
    assert forall i, j | 0 <= i < j < |rest| :: rest[i] == all[i] && rest[j] == all[j];
  }

  lemma PopLast(stack: seq<Ref>)
    requires stack != [] && Once(stack)
    ensures var rest := stack[..|stack| - 1]; var at := stack[|stack| - 1];
      stack == rest + [at] && at !in rest && Once(rest)
  {}

  /** With the stack empty, what was gathered is what the lineage holds. */
  lemma GatheredAll(l: Lineage, ref: Ref, seen: set<Ref>, models: set<Ref>, gaps: set<(Ref, Gap)>)
    requires Gathered(l, ref, seen, [], models, gaps)
    ensures models == ModelsOf(l, ref) && gaps == GapsOf(l, ref)
  {
    assert ClosedUnder(Parents(l.own), seen);
    forall v ensures v in seen <==> Reaches(Parents(l.own), ref, v) {}
    forall g ensures g in gaps <==> g in GapsOf(l, ref) {
      if g in gaps { assert g == (g.0, g.1); }
    }
  }

  ghost function Listing(l: Lineage, ref: Ref): Option<Leaning> {
    if ModelsOf(l, ref) == {} && GapsOf(l, ref) == {} then None else Some(Leaning(ModelsOf(l, ref), GapsOf(l, ref)))
  }

  /** The marks filed under a value's root are those of its copies. */
  method MarksFor(l: Lineage, ghost h: Height, at: Ref) returns (marks: set<Ref>)
    requires Built(l, h)
    ensures marks == MarksOf(l, at)
  {
    var root := Root(l, h, at);
    RootMarks(l, h, at);
    marks := MarksAt(l.marks, root);
  }

  lemma ParentsInNodes(l: Lineage, at: Ref)
    requires at in l.own
    ensures (set p | p in l.own[at].parents) <= Nodes(Parents(l.own))
  {
    NextInNodes(Parents(l.own), at);
  }

  lemma StackSeen(l: Lineage, ref: Ref, seen: set<Ref>, rest: seq<Ref>, at: Ref, models: set<Ref>, gaps: set<(Ref, Gap)>)
    requires Gathered(l, ref, seen, rest + [at], models, gaps)
    ensures forall x | x in rest :: x in seen
  {
    assert forall x | x in rest :: x in rest + [at];
  }

  /** One turn of the loop, on the value just popped: its marks, its gaps, its parents. */
  method Look(
    l: Lineage, ghost ref: Ref, at: Ref, marks: set<Ref>, seen: set<Ref>, rest: seq<Ref>, models: set<Ref>, gaps: set<(Ref, Gap)>)
    returns (seen': set<Ref>, stack': seq<Ref>, models': set<Ref>, gaps': set<(Ref, Gap)>)
    requires at in l.own && at !in rest && Once(rest) && Gathered(l, ref, seen, rest + [at], models, gaps)
    requires marks == MarksOf(l, at)
    ensures Gathered(l, ref, seen', stack', models', gaps')
    ensures seen < seen' || (|stack'| == |rest| && seen' == seen)
    ensures seen' <= seen + Nodes(Parents(l.own))
  {
    StackSeen(l, ref, seen, rest, at, models, gaps);
    seen', stack' := Push(l.own[at].parents, seen, rest);
    GatheredStep(l, ref, seen, rest, at, models, gaps, seen', stack');
    models', gaps' := models + marks, gaps + set k | k in l.own[at].gaps :: (at, k);
    ParentsInNodes(l, at);
  }

  /** `leaned`: a value is listed exactly when something it descends from has a gap, or is a copy of something
      marked as the model's; and the entry names all of those and nothing else. */
  method Leaned(l: Lineage, ghost h: Height, ref: Ref) returns (entry: Option<Leaning>)
    requires Built(l, h) && ref in l.own
    ensures entry == Listing(l, ref)
  {
    var seen, stack := {ref}, [ref];
    var models: set<Ref>, gaps: set<(Ref, Gap)> := {}, {};
    ghost var all := Nodes(Parents(l.own)) + {ref};
    while stack != []
      invariant Gathered(l, ref, seen, stack, models, gaps) && seen <= all
      decreases all - seen, |stack|
    {
      PopLast(stack);
      var at := stack[|stack| - 1];
      stack := stack[..|stack| - 1];
      if at in l.own {
        var marks := MarksFor(l, h, at);
        seen, stack, models, gaps := Look(l, ref, at, marks, seen, stack, models, gaps);
      } else {
        OutsideStep(l, ref, seen, stack, at, models, gaps);
      }
    }
    GatheredAll(l, ref, seen, models, gaps);
    entry := if models == {} && gaps == {} then None else Some(Leaning(models, gaps));
  }

  /** `walk`: exactly the values with something to say of, each with all of it. */
  method Walk(l: Lineage, ghost h: Height) returns (listed: map<Ref, Leaning>)
    requires Built(l, h)
    ensures forall r :: r in listed <==> r in l.own && Listing(l, r).Some?
    ensures forall r | r in listed :: Listing(l, r) == Some(listed[r])
  {
    listed := map[];
    var todo := l.own.Keys;
    while todo != {}
      invariant todo <= l.own.Keys
      invariant forall r :: r in listed <==> r in l.own.Keys - todo && Listing(l, r).Some?
      invariant forall r | r in listed :: Listing(l, r) == Some(listed[r])
    {
      var r :| r in todo;
      todo := todo - {r};
      var entry := Leaned(l, h, r);
      if entry.Some? { listed := listed[r := entry.value]; }
    }
  }

  /** An unlisted value has no model in its lineage: a gap in anything it descends from, or a mark on any copy of
      such a value, gets it listed. */
  lemma UnlistedHasNoModel(l: Lineage, r: Ref, v: Ref, copy: Ref)
    requires v in l.own && Reaches(Parents(l.own), r, v) && copy in l.own && SameValue(CopyPairs(l.own), copy, v)
    ensures Listing(l, r).None? ==> l.own[v].gaps == {} && l.own[copy].hows == {}
  {
    forall k | k in l.own[v].gaps ensures (v, k) in GapsOf(l, r) {}
    if l.own[copy].hows != {} { assert copy in MarksOf(l, v) && copy in ModelsOf(l, r); }
  }
}
