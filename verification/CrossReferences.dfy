/** Cross references and their inverse indexes. */
module CrossReferences {
  import opened Identifiers

  datatype Row = Row(source: Iri, targetMetagraph: Iri, target: Iri, content: int)

  /** A cross reference, its row read and changed through the object. */
  class XRef {
    var row: Row

    constructor (row: Row)
      ensures this.row == row
    {
      this.row := row;
    }
  }

  ghost function Rows(xrefs: map<Iri, XRef>): map<Iri, Row>
    reads xrefs.Values
  {
    map id | id in xrefs :: xrefs[id].row
  }

  // ---- the inverse indexes of the cross references ----

  function At<K(==)>(index: map<K, set<Iri>>, key: K): set<Iri> { if key in index then index[key] else {} }

  function WithEntry<K(==)>(index: map<K, set<Iri>>, key: K, id: Iri): map<K, set<Iri>> { index[key := At(index, key) + {id}] }

  /** Both indexes have exactly the cross references there are, each under its own source and target. */
  ghost predicate Inverse(xrefs: map<Iri, Row>, bySource: map<Iri, set<Iri>>, byTarget: map<(Iri, Iri), set<Iri>>) {
    && (forall s, id :: id in At(bySource, s) <==> id in xrefs && xrefs[id].source == s)
    && (forall m, t, id :: id in At(byTarget, (m, t)) <==> id in xrefs && xrefs[id].targetMetagraph == m && xrefs[id].target == t)
  }

  lemma EntryAdded<K>(index: map<K, set<Iri>>, key: K, id: Iri, k: K)
    ensures At(WithEntry(index, key, id), k) == At(index, k) + if k == key then {id} else {}
  {}

  lemma InverseMore(xrefs: map<Iri, Row>, bySource: map<Iri, set<Iri>>, byTarget: map<(Iri, Iri), set<Iri>>, id: Iri, x: Row)
    requires Inverse(xrefs, bySource, byTarget) && id !in xrefs
    ensures Inverse(xrefs[id := x], WithEntry(bySource, x.source, id), WithEntry(byTarget, (x.targetMetagraph, x.target), id))
  {
    var more := xrefs[id := x];
    forall s, i ensures i in At(WithEntry(bySource, x.source, id), s) <==> i in more && more[i].source == s {
      EntryAdded(bySource, x.source, id, s);
    }
    forall m, t, i
      ensures i in At(WithEntry(byTarget, (x.targetMetagraph, x.target), id), (m, t)) <==>
        i in more && more[i].targetMetagraph == m && more[i].target == t
    {
      EntryAdded(byTarget, (x.targetMetagraph, x.target), id, (m, t));
    }
  }

  /** The saved cross references copied one by one, and both indexes made from the copies. */
  method Reindex(saved: map<Iri, XRef>)
    returns (xrefs: map<Iri, XRef>, bySource: map<Iri, set<Iri>>, byTarget: map<(Iri, Iri), set<Iri>>)
    ensures fresh(xrefs.Values) && Rows(xrefs) == Rows(saved) && Inverse(Rows(saved), bySource, byTarget)
  {
    xrefs, bySource, byTarget := map[], map[], map[];
    var todo := saved.Keys;
    ghost var rows: map<Iri, Row> := map[];
    while todo != {}
      invariant todo <= saved.Keys && rows.Keys == xrefs.Keys == saved.Keys - todo
      invariant forall id | id in rows :: rows[id] == saved[id].row == xrefs[id].row && fresh(xrefs[id])
      invariant Inverse(rows, bySource, byTarget)
      decreases todo
    {
      var id :| id in todo;
      todo := todo - {id};
      var row := saved[id].row;
      var x := new XRef(row);
      InverseMore(rows, bySource, byTarget, id, row);
      xrefs, rows := xrefs[id := x], rows[id := row];
      bySource := WithEntry(bySource, row.source, id);
      byTarget := WithEntry(byTarget, (row.targetMetagraph, row.target), id);
    }
    assert rows == Rows(saved) == Rows(xrefs);
  }

  method CopyRows(xrefs: map<Iri, XRef>) returns (copies: map<Iri, XRef>)
    ensures fresh(copies.Values) && Rows(copies) == Rows(xrefs)
  {
    copies := map[];
    var todo := xrefs.Keys;
    while todo != {}
      invariant todo <= xrefs.Keys && copies.Keys == xrefs.Keys - todo
      invariant forall id | id in copies :: copies[id].row == xrefs[id].row && fresh(copies[id])
      decreases todo
    {
      var id :| id in todo;
      todo := todo - {id};
      var x := new XRef(xrefs[id].row);
      copies := copies[id := x];
    }
  }
}
