/** Step admission: which declared inputs keep a capacity from being taken. */
module Admission {
  import opened Identifiers

  /** `unavailable_inputs`: the declared inputs that are not on the path, in declaration order. */
  function UnavailableInputs(declared: seq<Iri>, available: set<Iri>): (r: seq<Iri>)
    ensures forall d :: d in r <==> d in declared && d !in available
    ensures r == [] <==> forall d | d in declared :: d in available
  {
    if declared == [] then []
    else
      assert declared == [declared[0]] + declared[1..];
      (if declared[0] in available then [] else [declared[0]]) + UnavailableInputs(declared[1..], available)
  }
}
