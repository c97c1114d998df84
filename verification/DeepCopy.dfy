/** Python objects that refer to one another, and the deep copy of what hangs from a dict. */
module DeepCopies {
  import opened Identifiers
  import opened Folding

  /** What a key or an attribute holds: a value that cannot change, or an object. */
  datatype Slot = Atom(value: int) | Ref(o: Obj)

  type Fields = map<string, Slot>

  // Names of facts that are kept folded and unfold only where asked for; later modules go on counting.
  const KEPT := 1
  const COPIED := 2

  /** A node, an edge, a property bag, a set of members: anything that is held by reference and can change in place. */
  class Obj {
    var fields: Fields

    constructor ()
      ensures fields == map[]
    {
      fields := map[];
    }
  }

  /** What was copied to what. */
  type Memo = map<Obj, Obj>

  /** The contents of some objects at one moment. */
  type Picture = map<Obj, Fields>

  /** Every reference leads into `s`. */
  predicate Inside(f: Fields, s: set<Obj>) { forall k | k in f && f[k].Ref? :: f[k].o in s }

  /** Nothing in `s` refers to anything outside of it. */
  ghost predicate Closed(s: set<Obj>)
    reads s
  {
    forall o | o in s :: Inside(o.fields, s)
  }

  ghost function Shot(s: set<Obj>): Picture
    reads s
  {
    map o | o in s :: o.fields
  }

  /** The objects of `s`, which refer to nothing else, are as in the picture. */
  ghost predicate Kept(s: set<Obj>, p: Picture)
    reads s
  {
    forall key {:trigger Asked(key)} :: Asked(key) && key == KEPT ==> Closed(s) && p == Shot(s)
  }

  function Moved(slot: Slot, m: Memo): Slot
    requires slot.Ref? ==> slot.o in m
  {
    match slot
    case Atom(_) => slot
    case Ref(o) => Ref(m[o])
  }

  /** The same atoms, with every reference led over to its copy. */
  function Renamed(f: Fields, m: Memo): Fields
    requires Inside(f, m.Keys)
  {
    map k | k in f :: Moved(f[k], m)
  }

  ghost predicate Injective(m: Memo) { forall a, b | a in m && b in m && m[a] == m[b] :: a == b }

  /** `m` leads from one picture to another that has exactly its contents: as many objects, joined in the same way. */
  ghost predicate Mirrors(p: Picture, m: Memo, q: Picture) {
    && m.Keys <= p.Keys && m.Values <= q.Keys && Injective(m)
    && forall o | o in m :: Inside(p[o], m.Keys) && q[m[o]] == Renamed(p[o], m)
  }

  /** `b`, as `q` has it, is a copy of `a` as `p` has it. */
  ghost predicate Copied(p: Picture, a: Fields, m: Memo, q: Picture, b: Fields) {
    forall key {:trigger Asked(key)} :: Asked(key) && key == COPIED ==> Mirrors(p, m, q) && Inside(a, m.Keys) && b == Renamed(a, m)
  }

  /** A picture with more in it. */
  predicate Larger(p: Picture, more: Picture) { p.Keys <= more.Keys && forall o | o in p :: more[o] == p[o] }

  lemma CopiedInLarger(p: Picture, a: Fields, m: Memo, q: Picture, b: Fields, more: Picture)
    requires Copied(p, a, m, q, b) && Larger(q, more)
    ensures Copied(p, a, m, more, b)
  {
    assert Asked(COPIED);
  }

  lemma KeptBoth(s: set<Obj>, p: Picture, t: set<Obj>, q: Picture)
    requires Kept(s, p) && Kept(t, q)
    ensures Kept(s + t, p + q) && Larger(p, p + q) && Larger(q, p + q)
  {
    assert Asked(KEPT);
  }

  // ---- copying ----

  /** Everything that can be come at from `items`. */
  method Reach(items: Fields, ghost all: set<Obj>) returns (seen: set<Obj>)
    requires Inside(items, all) && Closed(all)
    ensures seen <= all && Inside(items, seen) && Closed(seen)
  {
    seen := RefsOf(items);
    var todo := seen;
    while todo != {}
      invariant todo <= seen <= all && Inside(items, seen)
      invariant forall o | o in seen - todo :: Inside(o.fields, seen)
      decreases all - seen, todo
    {
      var o :| o in todo;
      var more := RefsOf(o.fields) - seen;
      if more != {} { Fewer(all, seen, more); }
      seen, todo := seen + more, todo - {o} + more;
    }
  }

  lemma Fewer(all: set<Obj>, seen: set<Obj>, more: set<Obj>)
    requires seen <= all && more <= all && more !! seen && more != {}
    ensures all - (seen + more) < all - seen
  {
    var x :| x in more;
    assert x in all - seen && x !in all - (seen + more);
  }

  function RefsOf(f: Fields): (r: set<Obj>)
    ensures Inside(f, r) && forall o | o in r :: exists k :: k in f && f[k] == Ref(o)
  {
    set k | k in f && f[k].Ref? :: f[k].o
  }

  lemma ValuesGrow(m: Memo, o: Obj, copy: Obj)
    requires o !in m
    ensures m[o := copy].Values == m.Values + {copy}
  {
    var grown := m[o := copy];
    forall v | v in m.Values + {copy} ensures v in grown.Values {
      if v == copy {
        assert grown[o] == copy;
      } else {
        var x: Obj :| x in m && m[x] == v;
        assert grown[x] == v;
      }
    }
  }

  /** A new object for each, all different. */
  method Allocate(seen: set<Obj>) returns (m: Memo)
    ensures m.Keys == seen && Injective(m) && fresh(m.Values)
  {
    m := map[];
    var todo := seen;
    while todo != {}
      invariant todo <= seen && m.Keys == seen - todo && Injective(m) && fresh(m.Values)
      decreases todo
    {
      var o :| o in todo;
      var copy := new Obj();
      ValuesGrow(m, o, copy);
      todo, m := todo - {o}, m[o := copy];
    }
  }

  method Fill(m: Memo)
    requires Closed(m.Keys) && Injective(m) && m.Keys !! m.Values
    modifies m.Values
    ensures Mirrors(old(Shot(m.Keys)), m, Shot(m.Values))
  {
    var todo := m.Keys;
    while todo != {}
      invariant todo <= m.Keys
      invariant forall o | o in m.Keys - todo :: m[o].fields == Renamed(old(o.fields), m)
      decreases todo
    {
      var o :| o in todo;
      todo := todo - {o};
      m[o].fields := Renamed(o.fields, m);
    }
  }

  /** `copy.deepcopy` of a dict: new objects for all that hangs from it, one for each, and nothing else touched. */
  method DeepCopy(items: Fields, ghost all: set<Obj>, ghost p: Picture) returns (copy: Fields, m: Memo, ghost q: Picture)
    requires Inside(items, all) && Kept(all, p)
    ensures fresh(m.Values) && Kept(m.Values, q) && Copied(p, items, m, q, copy)
  {
    assert Asked(KEPT);
    var seen := Reach(items, all);
    m := Allocate(seen);
    Fill(m);
    copy, q := Renamed(items, m), Shot(m.Values);
    CopiesAreClosed(p, m, q);
  }

  lemma CopiesAreClosed(p: Picture, m: Memo, q: Picture)
    requires Mirrors(p, m, q)
    ensures forall c | c in m.Values :: Inside(q[c], m.Values)
  {
    forall c | c in m.Values ensures Inside(q[c], m.Values) {
      var o: Obj :| o in m && m[o] == c;
      assert q[c] == Renamed(p[o], m);
    }
  }

  // ---- what a copy keeps ----

  lemma CopyIsWithin(p: Picture, a: Fields, m: Memo, q: Picture, b: Fields)
    requires Copied(p, a, m, q, b)
    ensures Inside(b, m.Values) && a.Keys == b.Keys
  {
    assert Asked(COPIED);
  }

  function Then(m: Memo, n: Memo): Memo { map o | o in m && m[o] in n :: n[m[o]] }

  /** A copy of a copy is a copy of the first. */
  lemma CopiedTwice(p: Picture, a: Fields, m: Memo, q: Picture, b: Fields, n: Memo, r: Picture, c: Fields)
    requires Copied(p, a, m, q, b) && Copied(q, b, n, r, c)
    ensures Copied(p, a, Then(m, n), r, c) && Then(m, n).Values <= n.Values
  {
    assert Asked(COPIED);
    RenamedTwice(a, b, c, m, n);
    forall o | o in Then(m, n) ensures Inside(p[o], Then(m, n).Keys) && r[Then(m, n)[o]] == Renamed(p[o], Then(m, n)) {
      RenamedTwice(p[o], q[m[o]], r[n[m[o]]], m, n);
    }
    ThenIsInjective(m, n);
  }

  lemma RenamedTwice(a: Fields, b: Fields, c: Fields, m: Memo, n: Memo)
    requires Inside(a, m.Keys) && b == Renamed(a, m) && Inside(b, n.Keys) && c == Renamed(b, n)
    ensures Inside(a, Then(m, n).Keys) && c == Renamed(a, Then(m, n))
  {
    forall k | k in a && a[k].Ref? ensures a[k].o in Then(m, n).Keys {
      assert b[k] == Ref(m[a[k].o]);
    }
  }

  lemma ThenIsInjective(m: Memo, n: Memo)
    requires Injective(m) && Injective(n)
    ensures Injective(Then(m, n)) && Then(m, n).Values <= n.Values
  {}

  /** What a path of keys leads to. */
  function Follow(p: Picture, f: Fields, path: seq<string>): Option<Slot>
    requires path != []
    decreases path
  {
    if path[0] !in f then None
    else if |path| == 1 then Some(f[path[0]])
    else if f[path[0]].Ref? && f[path[0]].o in p then Follow(p, p[f[path[0]].o], path[1..])
    else None
  }

  /** The two paths lead to one object. */
  predicate Meet(p: Picture, f: Fields, path: seq<string>, g: Fields, other: seq<string>)
    requires path != [] && other != []
  {
    Follow(p, f, path).Some? && Follow(p, f, path).value.Ref? && Follow(p, f, path) == Follow(p, g, other)
  }

  /** One more key on a path is looked up in the object that the path leads to, if it leads to one. */
  lemma {:induction false} FollowsOn(p: Picture, f: Fields, path: seq<string>, k: string)
    requires path != []
    ensures Follow(p, f, [k]) == if k in f then Some(f[k]) else None
    ensures Follow(p, f, path + [k]) ==
      match Follow(p, f, path)
      case Some(Ref(o)) => if o in p && k in p[o] then Some(p[o][k]) else None
      case _ => None
    decreases path
  {
    assert (path + [k])[0] == path[0] && (path + [k])[1..] == path[1..] + [k];
    if path[0] in f && f[path[0]].Ref? && f[path[0]].o in p {
      if |path| == 1 {
        assert path[1..] + [k] == [k];
      } else {
        FollowsOn(p, p[f[path[0]].o], path[1..], k);
      }
    }
  }

  lemma MeetAtAnObject(p: Picture, f: Fields, path: seq<string>, g: Fields, other: seq<string>)
    requires path != [] && other != []
    ensures Meet(p, f, path, g, other) <==>
      match (Follow(p, f, path), Follow(p, g, other))
      case (Some(Ref(o)), Some(Ref(u))) => o == u
      case _ => false
  {}

  /** What a path leads to in the copy, from what it led to: the same atom or nothing, or the object's copy. */
  predicate LedOver(was: Option<Slot>, m: Memo, got: Option<Slot>) {
    if was.Some? && was.value.Ref? then was.value.o in m && got == Some(Ref(m[was.value.o])) && m[was.value.o] in m.Values
    else got == was
  }

  lemma {:induction false} FollowsAlike(p: Picture, a: Fields, m: Memo, q: Picture, b: Fields, path: seq<string>)
    requires Copied(p, a, m, q, b) && path != []
    ensures LedOver(Follow(p, a, path), m, Follow(q, b, path))
    decreases path
  {
    assert Asked(COPIED);
    if path[0] in a && |path| > 1 && a[path[0]].Ref? {
      var o := a[path[0]].o;
      assert b[path[0]] == Ref(m[o]) && m[o] in m.Values;
      FollowsAlike(p, p[o], m, q, q[m[o]], path[1..]);
    }
  }

  /** Two paths of one copy meet if they met before, and paths of two separate copies never do. */
  lemma MeetsAgain(was: Option<Slot>, m: Memo, got: Option<Slot>, was': Option<Slot>, m': Memo, got': Option<Slot>, same: bool)
    requires LedOver(was, m, got) && LedOver(was', m', got') && if same then m == m' && Injective(m) else m.Values !! m'.Values
    ensures got.Some? && got.value.Ref? && got == got' <==> same && was.Some? && was.value.Ref? && was == was'
  {}
}
