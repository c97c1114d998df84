/** Which values are copies of one another: a union-find over the alias map. */
module CopyClasses {
  import opened Identifiers
  import opened Episodes

  /** A height for every value, larger at each step along the aliases and never above the bound. */
  datatype Height = Height(rank: map<Ref, nat>, bound: nat)
  {
    ghost function Of(x: Ref): nat { if x in rank then rank[x] else 0 }
  }

  ghost predicate Forest(alias: map<Ref, Ref>, h: Height) {
    && (forall x :: h.Of(x) <= h.bound)
    && (forall x | x in alias :: h.Of(x) < h.Of(alias[x]))
  }

  /** The value a chain of aliases ends at. */
  ghost function RootOf(alias: map<Ref, Ref>, h: Height, x: Ref): (r: Ref)
    requires Forest(alias, h)
    ensures r !in alias && h.Of(x) <= h.Of(r)
    decreases h.bound - h.Of(x)
  {
    if x in alias then RootOf(alias, h, alias[x]) else x
  }

  /** `s` holds both or neither of every copy and its original. */
  ghost predicate Respects(pairs: set<(Ref, Ref)>, s: set<Ref>) {
    forall p | p in pairs :: p.0 in s <==> p.1 in s
  }

  /** The equivalence closure of the copy relation: no set that respects it tells the two apart. */
  ghost predicate SameValue(pairs: set<(Ref, Ref)>, x: Ref, y: Ref) {
    forall s: set<Ref> | Respects(pairs, s) :: x in s ==> y in s
  }

  /** Aliases stay within copies of one value, and every copy has its original's root. */
  ghost predicate Joins(alias: map<Ref, Ref>, h: Height, pairs: set<(Ref, Ref)>)
    requires Forest(alias, h)
  {
    && (forall s: set<Ref>, x | Respects(pairs, s) && x in alias :: x in s <==> alias[x] in s)
    && (forall p | p in pairs :: RootOf(alias, h, p.0) == RootOf(alias, h, p.1))
  }

  lemma {:induction false} RootIsSame(alias: map<Ref, Ref>, h: Height, pairs: set<(Ref, Ref)>, x: Ref, s: set<Ref>)
    requires Forest(alias, h) && Joins(alias, h, pairs) && Respects(pairs, s)
    ensures x in s <==> RootOf(alias, h, x) in s
    decreases h.bound - h.Of(x)
  {
    if x in alias { RootIsSame(alias, h, pairs, alias[x], s); }
  }

  /** Two values have the same root exactly when copying relates them. */
  lemma RootsDecideSameValue(alias: map<Ref, Ref>, h: Height, pairs: set<(Ref, Ref)>, x: Ref, y: Ref)
    requires Forest(alias, h) && Joins(alias, h, pairs)
    ensures RootOf(alias, h, x) == RootOf(alias, h, y) <==> SameValue(pairs, x, y)
  {
    if RootOf(alias, h, x) == RootOf(alias, h, y) {
      forall s: set<Ref> | Respects(pairs, s) ensures x in s ==> y in s {
        RootIsSame(alias, h, pairs, x, s);
        RootIsSame(alias, h, pairs, y, s);
      }
    }
    var known := {x} + (set p | p in pairs :: p.0) + (set p | p in pairs :: p.1);
    var same := set z | z in known && RootOf(alias, h, z) == RootOf(alias, h, x);
    assert Respects(pairs, same);
    assert SameValue(pairs, x, y) ==> y in same;
  }

  /** After the root `a` is aliased to another root `b`, what had root `a` has root `b`, nothing else moves. */
  lemma {:induction false} LinkedRoot(alias: map<Ref, Ref>, h: Height, a: Ref, b: Ref, h': Height, x: Ref)
    requires Forest(alias, h) && a !in alias && b !in alias && a != b && Forest(alias[a := b], h')
    ensures RootOf(alias[a := b], h', x) == if RootOf(alias, h, x) == a then b else RootOf(alias, h, x)
    decreases h.bound - h.Of(x)
  {
    if x in alias { LinkedRoot(alias, h, a, b, h', alias[x]); }
  }

  function Raised(h: Height, a: Ref, b: Ref): Height {
    var above := (if a in h.rank then h.rank[a] else 0) + 1;
    var now := if b in h.rank then h.rank[b] else 0;
    Height(h.rank[b := if now < above then above else now], h.bound + 1)
  }

  class Copies {
    var alias: map<Ref, Ref>
    ghost var height: Height
    ghost var pairs: set<(Ref, Ref)>

    constructor ()
      ensures Valid() && pairs == {} && fresh(this)
    {
      alias, height, pairs := map[], Height(map[], 0), {};
    }

    ghost predicate Valid()
      reads this
    {
      Forest(alias, height) && Joins(alias, height, pairs)
    }

    /** `root`: follows the aliases to their end, which there always is. */
    method Root(x: Ref) returns (r: Ref)
      requires Valid()
      ensures r == RootOf(alias, height, x)
    {
      r := x;
      while r in alias && alias[r] != r
        invariant RootOf(alias, height, r) == RootOf(alias, height, x)
        decreases height.bound - height.Of(r)
      {
        r := alias[r];
      }
    }

    /** A value found to be a copy: the two roots are joined unless they are one already. */
    method Link(x: Ref, original: Ref)
      requires Valid()
      modifies this
      ensures Valid() && pairs == old(pairs) + {(x, original)}
    {
      var a := Root(x);
      var b := Root(original);
      ghost var more := pairs + {(x, original)};
      if a != b {
        LinkKeeps(alias, height, pairs, x, original);
        alias, height := alias[a := b], Raised(height, a, b);
      } else {
        forall s: set<Ref> | Respects(more, s) ensures Respects(pairs, s) {
          assert forall p | p in pairs :: p in more;
        }
      }
      pairs := more;
    }
  }

  lemma LinkKeeps(alias: map<Ref, Ref>, h: Height, pairs: set<(Ref, Ref)>, x: Ref, original: Ref)
    requires Forest(alias, h) && Joins(alias, h, pairs)
    requires RootOf(alias, h, x) != RootOf(alias, h, original)
    ensures var a, b := RootOf(alias, h, x), RootOf(alias, h, original);
      && Forest(alias[a := b], Raised(h, a, b))
      && Joins(alias[a := b], Raised(h, a, b), pairs + {(x, original)})
  {
    var a, b := RootOf(alias, h, x), RootOf(alias, h, original);
    var alias', h', more := alias[a := b], Raised(h, a, b), pairs + {(x, original)};
    assert forall z :: z != b ==> h'.Of(z) == h.Of(z);
    assert h'.Of(b) >= h.Of(b) && h'.Of(b) > h.Of(a);
    assert Forest(alias', h');
    forall s: set<Ref>, z | Respects(more, s) && z in alias' ensures z in s <==> alias'[z] in s {
      assert (x, original) in more && Respects(pairs, s);
      RootIsSame(alias, h, pairs, x, s);
      RootIsSame(alias, h, pairs, original, s);
    }
    forall p | p in more ensures RootOf(alias', h', p.0) == RootOf(alias', h', p.1) {
      LinkedRoot(alias, h, a, b, h', p.0);
      LinkedRoot(alias, h, a, b, h', p.1);
    }
  }
}
