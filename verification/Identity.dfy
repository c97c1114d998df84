/** The registry of the ids in use in one metagraph. */
module Identities {
  import opened Identifiers

  /** Shared by everything in the metagraph: its graphs, their nodes, its instances. */
  class IdentityRegistry {
    var ids: set<Iri>

    constructor ()
      ensures ids == {}
    {
      ids := {};
    }

    /** `register`: an id in use is refused. */
    method Register(id: Iri) returns (ok: bool)
      modifies this
      ensures ok <==> id !in old(ids)
      ensures ids == old(ids) + {id}
    {
      ok := id !in ids;
      if ok { ids := ids + {id}; }
    }

    method Clear()
      modifies this
      ensures ids == {}
    {
      ids := {};
    }

    method Unregister(id: Iri)
      modifies this
      ensures ids == old(ids) - {id}
    {
      ids := ids - {id};
    }
  }
}
