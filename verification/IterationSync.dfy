/**
  SnapshotIterationSynchronizer: the per-snapshot iteration lock and its task counters.

  `NameSync` is what the synchronizer holds for one snapshot name; the functions on it say what one
  critical section does. The class below does the same on the source's four name-keyed tables.
 */
module IterationSync {
  import opened Types

  datatype IterationState = IterationState(active: int, tailProcessed: bool)

  /** An erased name reads as `Fresh()`: the tables default to 0, false and empty. */
  datatype NameSync = NameSync(current: nat, inProgress: bool, cv: bool, states: map<nat, IterationState>)

  function Fresh(): NameSync {
    NameSync(0, false, false, map[])
  }

  /** Reserve the next iteration. The caller has waited for `!inProgress`. */
  function Acquired(n: NameSync): NameSync {
    NameSync(n.current + 1, true, true, n.states[n.current + 1 := IterationState(0, false)])
  }

  function Started(n: NameSync, id: nat): NameSync {
    if id in n.states
    then n.(states := n.states[id := n.states[id].(active := n.states[id].active + 1)])
    else n
  }

  function Decremented(n: NameSync, id: nat): NameSync {
    if id in n.states
    then n.(states := n.states[id := n.states[id].(active := n.states[id].active - 1)])
    else n
  }

  /** Does the next count-down of the iteration reach zero? */
  predicate LastActive(n: NameSync, id: nat) {
    id in n.states && n.states[id].active == 1
  }

  predicate TailKnown(n: NameSync, id: nat) {
    id in n.states && n.states[id].tailProcessed
  }

  /** Must the task that finishes next release the lock, if nothing comes in between? */
  predicate MustRelease(n: NameSync, id: nat) {
    LastActive(n, id) && TailKnown(n, id)
  }

  function TailMarked(n: NameSync, id: nat): NameSync {
    if id in n.states then n.(states := n.states[id := n.states[id].(tailProcessed := true)]) else n
  }

  function Released(n: NameSync, id: nat): NameSync {
    if n.cv then n.(inProgress := false, states := n.states - {id}) else n
  }

  /** The lock, its counters and its condition variable, one entry per snapshot name. */
  class SnapshotIterationSynchronizer {
    var currentIteration: map<string, nat>
    var inProgress: map<string, bool>
    var cvs: set<string>
    var states: map<string, map<nat, IterationState>>

    constructor ()
      ensures forall name :: View(name) == Fresh()
    {
      currentIteration, inProgress, cvs, states := map[], map[], {}, map[];
    }

    /** What the tables hold for one name. */
    ghost function View(name: string): NameSync
      reads this
    {
      NameSync(
        if name in currentIteration then currentIteration[name] else 0,
        name in inProgress && inProgress[name],
        name in cvs,
        if name in states then states[name] else map[])
    }

    /** The wait predicate of acquireIteration. */
    predicate CanAcquire(name: string)
      reads this
      ensures CanAcquire(name) == !View(name).inProgress
    {
      !(name in inProgress && inProgress[name])
    }

    /** The critical section of acquireIteration, entered when its wait predicate holds. */
    method AcquireIteration(name: string) returns (id: nat)
      requires CanAcquire(name)
      modifies this
      ensures View(name) == Acquired(old(View(name)))
      ensures id == View(name).current
      ensures forall other | other != name :: View(other) == old(View(other))
    {
      cvs := cvs + {name};
      id := (if name in currentIteration then currentIteration[name] else 0) + 1;
      currentIteration := currentIteration[name := id];
      inProgress := inProgress[name := true];
      var byId := if name in states then states[name] else map[];
      states := states[name := byId[id := IterationState(0, false)]];
    }

    method StartTask(name: string, id: nat)
      modifies this`states
      ensures View(name) == Started(old(View(name)), id)
      ensures forall other | other != name :: View(other) == old(View(other))
    {
      if name in states && id in states[name] {
        var st := states[name][id];
        states := states[name := states[name][id := st.(active := st.active + 1)]];
      }
    }

    /** The first critical section of finishTask: count down and decide whether to release. */
    method FinishTask(name: string, id: nat) returns (release: bool)
      modifies this`states
      ensures View(name) == Decremented(old(View(name)), id)
      ensures release == MustRelease(old(View(name)), id)
      ensures forall other | other != name :: View(other) == old(View(other))
    {
      release := false;
      if name in states && id in states[name] {
        var byId := states[name];
        var st := byId[id].(active := byId[id].active - 1);
        states := states[name := byId[id := st]];
        release := st.active == 0 && st.tailProcessed;
      }
    }

    method MarkTailProcessed(name: string, id: nat)
      modifies this`states
      ensures View(name) == TailMarked(old(View(name)), id)
      ensures forall other | other != name :: View(other) == old(View(other))
    {
      if name in states && id in states[name] {
        states := states[name := states[name][id := states[name][id].(tailProcessed := true)]];
      }
    }

    /** The second critical section of finishTask. */
    method ReleaseLock(name: string, id: nat)
      modifies this`inProgress, this`states
      ensures View(name) == Released(old(View(name)), id)
      ensures forall other | other != name :: View(other) == old(View(other))
    {
      if name !in cvs {
        return;
      }
      inProgress := inProgress[name := false];
      if name in states {
        states := states[name := states[name] - {id}];
      }
    }

    method RemoveSnapshot(name: string)
      modifies this
      ensures View(name) == Fresh()
      ensures forall other | other != name :: View(other) == old(View(other))
    {
      currentIteration := currentIteration - {name};
      inProgress := inProgress - {name};
      cvs := cvs - {name};
      states := states - {name};
    }
  }
}
