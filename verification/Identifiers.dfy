/** IRIs and the order in which the finders visit them. */
module Identifiers {

  /** The identifier of a capacity, of a DataState or of anything else that has one. */
  datatype Iri = Iri(text: string)

  datatype Option<+T> = None | Some(value: T)

  lemma TakeOneMore<T>(s: seq<T>, k: nat)
    requires k < |s|
    ensures s[..k + 1] == s[..k] + [s[k]]
    ensures s[..|s|] == s
  {}

  /** The order Python gives to strings: by the first code point that differs, a prefix first. */
  predicate TextLeq(a: string, b: string) {
    a == [] || (b != [] && (a[0] < b[0] || (a[0] == b[0] && TextLeq(a[1..], b[1..]))))
  }

  predicate Leq(a: Iri, b: Iri) { TextLeq(a.text, b.text) }

  lemma {:induction false} TextLeqTotal(a: string, b: string)
    ensures TextLeq(a, b) || TextLeq(b, a)
  {
    if a != [] && b != [] && a[0] == b[0] { TextLeqTotal(a[1..], b[1..]); }
  }

  lemma {:induction false} TextLeqTransitive(a: string, b: string, c: string)
    requires TextLeq(a, b) && TextLeq(b, c)
    ensures TextLeq(a, c)
  {
    if a != [] && b != [] && c != [] && a[0] == b[0] == c[0] { TextLeqTransitive(a[1..], b[1..], c[1..]); }
  }

  lemma {:induction false} TextLeqOneWay(a: string, b: string)
    requires TextLeq(a, b) && TextLeq(b, a)
    ensures a == b
  {
    if a != [] && b != [] {
      TextLeqOneWay(a[1..], b[1..]);
      assert a == [a[0]] + a[1..] && b == [b[0]] + b[1..];
    }
  }

  /** The first code point that differs decides, whatever comes after; a text comes before all that it begins. */
  lemma {:induction false} FirstDifferenceDecides(p: string, c: char, x: string, d: char, y: string)
    ensures c != d ==> (TextLeq(p + [c] + x, p + [d] + y) <==> c < d)
    ensures TextLeq(p, p + x) && (x != [] ==> !TextLeq(p + x, p))
  {
    if p == [] {
      assert p + [c] + x == [c] + x && p + [d] + y == [d] + y && p + x == x;
    } else {
      assert (p + [c] + x)[1..] == p[1..] + [c] + x && (p + [d] + y)[1..] == p[1..] + [d] + y && (p + x)[1..] == p[1..] + x;
      FirstDifferenceDecides(p[1..], c, x, d, y);
    }
  }

  ghost predicate Sorted(s: seq<Iri>) {
    forall i, j | 0 <= i < j < |s| :: Leq(s[i], s[j])
  }

  function Insert(x: Iri, s: seq<Iri>): (r: seq<Iri>)
    requires Sorted(s)
    ensures Sorted(r) && multiset(r) == multiset(s) + multiset{x}
    ensures forall y :: y in r <==> y == x || y in s
  {
    if s == [] || Leq(x, s[0]) then
      assert s != [] ==> forall j | 0 < j < |s| :: Leq(x, s[j]) by {
        forall j | 0 < j < |s| && Leq(x, s[0]) ensures Leq(x, s[j]) {
          TextLeqTransitive(x.text, s[0].text, s[j].text);
        }
      }
      [x] + s
    else
      var rest := Insert(x, s[1..]);
      TextLeqTotal(x.text, s[0].text);
      assert s == [s[0]] + s[1..];
      assert forall y | y in rest :: Leq(s[0], y);
      [s[0]] + rest
  }

  /** `sorted(…, key=node_id)`: the same nodes, repetitions kept, in IRI order. */
  function SortByIri(s: seq<Iri>): (r: seq<Iri>)
    ensures Sorted(r) && multiset(r) == multiset(s)
    ensures forall y :: y in r <==> y in s
  {
    if s == [] then []
    else
      assert s == [s[0]] + s[1..];
      Insert(s[0], SortByIri(s[1..]))
  }
}
