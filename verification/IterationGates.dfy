/**
  The per-iteration gates of SnapshotOpInfo: data waits for the header, the tail waits for the data.

  A table maps an iteration id to its gate. The functions say what each helper does to the table;
  the class keeps the table as the source's `iteration_sync_states`.
 */
module IterationGates {

  /** `open` is the fulfilled header promise, `pending` the data batches not yet published. */
  datatype Gate = Gate(open: bool, pending: int)

  type Gates = map<nat, Gate>

  function Begun(g: Gates, id: nat): Gates {
    g[id := Gate(false, if id in g then g[id].pending else 0)]
  }

  function HeaderCompleted(g: Gates, id: nat): Gates {
    if id in g then g[id := g[id].(open := true)] else g
  }

  function DataAdded(g: Gates, id: nat): Gates {
    if id in g then g[id := g[id].(pending := g[id].pending + 1)] else g[id := Gate(false, 1)]
  }

  function DataRemoved(g: Gates, id: nat): Gates {
    if id in g then g[id := g[id].(pending := g[id].pending - 1)] else g
  }

  /** waitForHeaderGate returns: an id without a gate does not wait. */
  predicate HeaderPassed(g: Gates, id: nat) {
    id in g ==> g[id].open
  }

  /** waitDataDrained returns. */
  predicate Drained(g: Gates, id: nat) {
    id in g ==> g[id].pending == 0
  }

  class IterationGateTable {
    var gates: Gates

    constructor ()
      ensures gates == map[]
    {
      gates := map[];
    }

    method BeginHeaderGate(id: nat)
      modifies this
      ensures gates == Begun(old(gates), id)
      ensures id in gates && !gates[id].open && gates[id].pending == (if id in old(gates) then old(gates)[id].pending else 0)
      ensures gates - {id} == old(gates) - {id}
    {
      if id !in gates {
        gates := gates[id := Gate(false, 0)];
      }
      gates := gates[id := gates[id].(open := false)];
    }

    method CompleteHeaderGate(id: nat)
      modifies this
      ensures gates == HeaderCompleted(old(gates), id)
      ensures gates.Keys == old(gates).Keys && gates - {id} == old(gates) - {id} && HeaderPassed(gates, id)
    {
      if id in gates {
        gates := gates[id := gates[id].(open := true)];
      }
    }

    method DataScheduled(id: nat)
      modifies this
      ensures gates == DataAdded(old(gates), id)
      ensures id in gates && gates - {id} == old(gates) - {id}
      ensures if id in old(gates) then gates[id] == Gate(old(gates)[id].open, old(gates)[id].pending + 1) else gates[id] == Gate(false, 1)
    {
      if id !in gates {
        gates := gates[id := Gate(false, 0)];
      }
      gates := gates[id := gates[id].(pending := gates[id].pending + 1)];
    }

    method DataCompleted(id: nat)
      modifies this
      ensures gates == DataRemoved(old(gates), id)
      ensures gates.Keys == old(gates).Keys && gates - {id} == old(gates) - {id}
      ensures id in gates ==> gates[id] == Gate(old(gates)[id].open, old(gates)[id].pending - 1)
    {
      if id in gates {
        gates := gates[id := gates[id].(pending := gates[id].pending - 1)];
      }
    }

    /** The part of waitDataDrained that follows the wait. */
    method ForgetIteration(id: nat)
      requires Drained(gates, id)
      modifies this
      ensures gates == old(gates) - {id}
    {
      gates := gates - {id};
    }
  }
}
