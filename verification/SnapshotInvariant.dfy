/** What every reachable state of a snapshot operation satisfies, and that each step keeps it. */
module SnapshotInvariant {
  import opened Types
  import opened IterationSync
  import opened IterationGates
  import opened SnapshotProtocol

  // ---------------------------------------------------------------- vocabulary

  function LastIter(ts: seq<Task>): nat {
    if ts == [] then 0 else ts[|ts| - 1].sub.iter
  }

  /** Some tail task of iteration k has left section `phase` behind. */
  ghost predicate TailPast(ts: seq<Task>, k: nat, phase: nat) {
    exists j :: 0 <= j < |ts| && ts[j].sub.parts.tail && ts[j].sub.iter == k && ts[j].phase > phase
  }

  /** Some header task of iteration k has left section `phase` behind. */
  ghost predicate HeaderPast(ts: seq<Task>, k: nat, phase: nat) {
    exists j :: 0 <= j < |ts| && ts[j].sub.parts.header && ts[j].sub.iter == k && ts[j].phase > phase
  }

  /** The tasks of iteration k that startTask counted and finishTask has not. */
  ghost function ActiveSet(ts: seq<Task>, k: nat): set<int> {
    set j | 0 <= j < |ts| && ts[j].sub.iter == k && START < ts[j].phase <= FINISH
  }

  /** The tasks of iteration k whose data is still owed to the tail. */
  ghost function PendingSet(ts: seq<Task>, k: nat): set<int> {
    set j | 0 <= j < |ts| && ts[j].sub.iter == k && ts[j].sub.HasData() && ts[j].phase <= DATA_DONE
  }

  /** The last task has erased the synchronizer's entries. */
  predicate Removed(ts: seq<Task>) {
    ts != [] && ts[|ts| - 1].sub.last && ts[|ts| - 1].phase > REMOVE
  }

  // ---------------------------------------------------------------- the invariant

  /** Submissions are bracketed: a header opens iteration 1, and the next one follows exactly a tail. */
  ghost predicate Bracketed(ts: seq<Task>) {
    && (forall i :: 0 <= i < |ts| ==>
          && 1 <= ts[i].sub.iter
          && (i == 0 ==> ts[i].sub.parts.header && ts[i].sub.iter == 1)
          && (ts[i].sub.last ==> ts[i].sub.parts.tail && i == |ts| - 1)
          && (ts[i].sub.events != [] ==> ts[i].sub.parts.data))
    && (forall i, j :: 0 <= i < j < |ts| ==>
          && ts[i].sub.iter <= ts[j].sub.iter
          && (ts[i].sub.parts.tail || ts[j].sub.parts.header ==> ts[i].sub.iter < ts[j].sub.iter)
          && (j == i + 1 ==>
                && ts[j].sub.parts.header == ts[i].sub.parts.tail
                && ts[j].sub.iter == ts[i].sub.iter + if ts[j].sub.parts.header then 1 else 0))
  }

  ghost predicate TaskOk(t: Task) {
    && t.sent <= |t.sub.events|
    && (t.phase < PUBLISH_DATA ==> t.sent == 0)
    && (t.phase > PUBLISH_DATA ==> t.sent == |t.sub.events|)
  }

  /** The scheduler's own fields agree with what it has handed over. */
  ghost predicate SchedulerInv(o: Op) {
    var ts := o.tasks;
    && Bracketed(ts)
    && (forall j :: 0 <= j < |ts| ==> TaskOk(ts[j]))
    && (o.waiting.Some? ==>
          var w := o.waiting.value;
          && w.iter == 0
          && (w.events != [] ==> w.parts.data)
          && w.parts.header == (ts == [] || ts[|ts| - 1].sub.parts.tail)
          && w.last == !o.listed
          && (w.last ==> w.parts.tail)
          && (ts != [] ==> !ts[|ts| - 1].sub.last)
          && o.headerSent == !w.parts.tail)
    && (o.waiting.None? ==>
          && o.headerSent == (ts != [] && !ts[|ts| - 1].sub.parts.tail)
          && o.listed == (ts == [] || !ts[|ts| - 1].sub.last))
    && (!o.listed ==> !o.running)
    && (ts != [] && !ts[|ts| - 1].sub.last ==> o.active == LastIter(ts))
    && (ts == [] ==> o.active == 0)
    && (o.kind.Normal? ==> o.headerSent == false && forall j :: 0 <= j < |ts| ==> ts[j].sub.parts == Parts(true, true, true))
    && (o.kind.Normal? && o.waiting.Some? ==> o.waiting.value.parts == Parts(true, true, true))
  }

  /** The promise is set by the last task. */
  ghost predicate PromiseInv(o: Op) {
    var ts := o.tasks;
    o.promises == if ts != [] && ts[|ts| - 1].sub.last && ts[|ts| - 1].phase > PROMISE then 1 else 0
  }

  /** The iteration counter of the name, until the promise is set. */
  ghost predicate IdsInv(o: Op) {
    o.promises == 0 ==>
      if Removed(o.tasks) then o.sync == Fresh()
      else o.sync.current == LastIter(o.tasks) && o.sync.cv == (o.tasks != [])
  }

  /** The operation is in progress, and only its own tasks have changed its entry in the synchronizer. */
  ghost predicate Owns(o: Op) {
    o.promises == 0 && !o.disturbed
  }

  /** The tables of the synchronizer: exact counters for every iteration that is not released. */
  ghost predicate LockTable(ts: seq<Task>, n: NameSync) {
    && (Removed(ts) ==> n == Fresh())
    && (!Removed(ts) ==> n.current == LastIter(ts) && n.cv == (ts != []))
    && (n.inProgress ==> n.current in n.states)
    && (forall k: nat :: k in n.states ==> EntryOk(ts, k, n.states[k]))
  }

  /** The entry of an iteration: its active tasks, its tail, and a release on its way when both say so. */
  ghost predicate EntryOk(ts: seq<Task>, k: nat, st: IterationState) {
    && 1 <= k <= LastIter(ts)
    && st.active == |ActiveSet(ts, k)|
    && st.tailProcessed == TailPast(ts, k, MARK_TAIL)
    && (st.tailProcessed && st.active == 0 ==> Closing(ts, k))
  }

  /** All iterations but the latest have their tail processed. */
  ghost predicate TailsDone(ts: seq<Task>) {
    forall k :: 1 <= k < LastIter(ts) ==> TailPast(ts, k, MARK_TAIL)
  }

  /** The iteration lock as long as no start was rushed: one iteration at a time, one release per iteration, none missed. */
  ghost predicate LockInv(ts: seq<Task>, n: NameSync) {
    && (Removed(ts) ==> n == Fresh())
    && (!Removed(ts) ==> n.current == LastIter(ts) && n.cv == (ts != []))
    && n.states.Keys == (if n.inProgress then {n.current} else {})
    && (n.inProgress ==>
          && ts != []
          && n.states[n.current].active == |ActiveSet(ts, n.current)|
          && n.states[n.current].tailProcessed == TailPast(ts, n.current, MARK_TAIL)
          && (n.states[n.current].tailProcessed && n.states[n.current].active == 0 ==>
                exists j :: 0 <= j < |ts| && IsClosing(ts[j])))
    && (!n.inProgress && ts != [] ==> TailPast(ts, LastIter(ts), MARK_TAIL))
    && (forall j :: 0 <= j < |ts| && IsClosing(ts[j]) ==>
          && n.inProgress
          && ts[j].sub.iter == n.current
          && n.states[n.current].active == 0
          && (ts[j].phase == RELEASE ==> n.states[n.current].tailProcessed))
    && (forall i, j :: 0 <= i < j < |ts| ==> !IsClosing(ts[i]) || !IsClosing(ts[j]))
    && TailsDone(ts)
  }

  /** The gates: present from the header's scheduling to the tail's drain, with exact counts. */
  ghost predicate GateTable(ts: seq<Task>, g: Gates) {
    && (forall k: nat :: k in g <==> 1 <= k <= LastIter(ts) && !TailPast(ts, k, AWAIT_DRAIN))
    && (forall k: nat :: k in g ==>
          && g[k].pending == |PendingSet(ts, k)|
          && g[k].open == HeaderPast(ts, k, OPEN_GATE))
  }

  /** Data is never overtaken by its tail, nor does it overtake its header. */
  ghost predicate GateOrder(ts: seq<Task>) {
    && (forall j :: 0 <= j < |ts| && ts[j].sub.HasData() && ts[j].phase <= DATA_DONE ==>
          !TailPast(ts, ts[j].sub.iter, AWAIT_DRAIN))
    && (forall j :: 0 <= j < |ts| && ts[j].sub.HasData() && ts[j].phase > AWAIT_GATE ==>
          HeaderPast(ts, ts[j].sub.iter, OPEN_GATE))
  }

  ghost predicate GateInv(ts: seq<Task>, g: Gates) {
    GateTable(ts, g) && GateOrder(ts)
  }

  ghost predicate Inv(o: Op) {
    && SchedulerInv(o)
    && PromiseInv(o)
    && IdsInv(o)
    && GateInv(o.tasks, o.gates)
    && (Owns(o) ==> LockTable(o.tasks, o.sync))
    && (Owns(o) && !o.rushed ==> LockInv(o.tasks, o.sync))
    && (!o.disturbed && !o.rushed ==> TailsDone(o.tasks))
  }

  // ---------------------------------------------------------------- how a step changes the vocabulary

  /** ts' is ts with the task at j moved on. */
  ghost predicate Moved(ts: seq<Task>, ts': seq<Task>, j: nat) {
    && j < |ts| == |ts'|
    && ts'[j].sub == ts[j].sub
    && ts'[j].phase >= ts[j].phase
    && forall i :: 0 <= i < |ts| && i != j ==> ts'[i] == ts[i]
  }

  lemma MovedPast(ts: seq<Task>, ts': seq<Task>, j: nat)
    requires Moved(ts, ts', j)
    ensures forall k, p {:trigger TailPast(ts', k, p)} :: TailPast(ts', k, p) ==
              (TailPast(ts, k, p) || (ts[j].sub.parts.tail && ts[j].sub.iter == k && ts'[j].phase > p))
    ensures forall k, p {:trigger HeaderPast(ts', k, p)} :: HeaderPast(ts', k, p) ==
              (HeaderPast(ts, k, p) || (ts[j].sub.parts.header && ts[j].sub.iter == k && ts'[j].phase > p))
  {
    forall k, p
      ensures TailPast(ts', k, p) ==
              (TailPast(ts, k, p) || (ts[j].sub.parts.tail && ts[j].sub.iter == k && ts'[j].phase > p))
    {
      if TailPast(ts, k, p) {
        var i :| 0 <= i < |ts| && ts[i].sub.parts.tail && ts[i].sub.iter == k && ts[i].phase > p;
        assert ts'[i].sub.parts.tail && ts'[i].sub.iter == k && ts'[i].phase > p;
      }
    }
    forall k, p
      ensures HeaderPast(ts', k, p) ==
              (HeaderPast(ts, k, p) || (ts[j].sub.parts.header && ts[j].sub.iter == k && ts'[j].phase > p))
    {
      if HeaderPast(ts, k, p) {
        var i :| 0 <= i < |ts| && ts[i].sub.parts.header && ts[i].sub.iter == k && ts[i].phase > p;
        assert ts'[i].sub.parts.header && ts'[i].sub.iter == k && ts'[i].phase > p;
      }
    }
  }

  predicate IsActive(t: Task) {
    START < t.phase <= FINISH
  }

  predicate IsPending(t: Task) {
    t.sub.HasData() && t.phase <= DATA_DONE
  }

  lemma SizeWithout(s: set<int>, x: int)
    ensures |s - {x}| == |s| - if x in s then 1 else 0
  {
    if x !in s {
      assert s - {x} == s;
    }
  }

  lemma MovedActive(ts: seq<Task>, ts': seq<Task>, j: nat, k: nat)
    requires Moved(ts, ts', j)
    ensures |ActiveSet(ts', k)| == |ActiveSet(ts, k)| +
              if ts[j].sub.iter == k then (if IsActive(ts'[j]) then 1 else 0) - (if IsActive(ts[j]) then 1 else 0) else 0
  {
    assert ActiveSet(ts', k) - {j} == ActiveSet(ts, k) - {j};
    SizeWithout(ActiveSet(ts, k), j);
    SizeWithout(ActiveSet(ts', k), j);
  }

  lemma PendingElsewhere(ts: seq<Task>, ts': seq<Task>, j: nat, k: nat)
    requires Moved(ts, ts', j)
    ensures PendingSet(ts', k) - {j} == PendingSet(ts, k) - {j}
    ensures j in PendingSet(ts, k) <==> ts[j].sub.iter == k && IsPending(ts[j])
    ensures j in PendingSet(ts', k) <==> ts[j].sub.iter == k && IsPending(ts'[j])
  {
  }

  lemma MovedPending(ts: seq<Task>, ts': seq<Task>, j: nat, k: nat)
    requires Moved(ts, ts', j)
    ensures |PendingSet(ts', k)| == |PendingSet(ts, k)| +
              if ts[j].sub.iter == k then (if IsPending(ts'[j]) then 1 else 0) - (if IsPending(ts[j]) then 1 else 0) else 0
  {
    PendingElsewhere(ts, ts', j, k);
    SizeWithout(PendingSet(ts, k), j);
    SizeWithout(PendingSet(ts', k), j);
  }

  lemma AppendedPast(ts: seq<Task>, t: Task, k: nat, p: nat)
    requires t.phase == START
    ensures TailPast(ts + [t], k, p) == TailPast(ts, k, p)
    ensures HeaderPast(ts + [t], k, p) == HeaderPast(ts, k, p)
  {
    var ts' := ts + [t];
    if TailPast(ts, k, p) {
      var i :| 0 <= i < |ts| && ts[i].sub.parts.tail && ts[i].sub.iter == k && ts[i].phase > p;
      assert ts'[i] == ts[i];
    }
    if HeaderPast(ts, k, p) {
      var i :| 0 <= i < |ts| && ts[i].sub.parts.header && ts[i].sub.iter == k && ts[i].phase > p;
      assert ts'[i] == ts[i];
    }
  }

  lemma AppendedSets(ts: seq<Task>, t: Task, k: nat)
    requires t.phase == START
    ensures ActiveSet(ts + [t], k) == ActiveSet(ts, k)
    ensures |PendingSet(ts + [t], k)| == |PendingSet(ts, k)| + if t.sub.iter == k && t.sub.HasData() then 1 else 0
  {
    var ts' := ts + [t];
    assert PendingSet(ts', k) - {|ts|} == PendingSet(ts, k);
    SizeWithout(PendingSet(ts', k), |ts|);
  }

  // ---------------------------------------------------------------- collecting and admitting

  lemma CollectedInv(o: Op, windowExpired: bool, events: seq<MonitorEvent>)
    requires Inv(o) && o.listed && o.waiting.None?
    ensures Inv(Collected(o, windowExpired, events))
  {
  }

  lemma AppendedBracketed(ts: seq<Task>, t: Task)
    requires Bracketed(ts)
    requires ts != [] ==> !ts[|ts| - 1].sub.last
    requires t.sub.parts.header == (ts == [] || ts[|ts| - 1].sub.parts.tail)
    requires t.sub.iter == LastIter(ts) + if t.sub.parts.header then 1 else 0
    requires t.sub.last ==> t.sub.parts.tail
    requires t.sub.events != [] ==> t.sub.parts.data
    ensures Bracketed(ts + [t])
  {
  }

  lemma AdmittedScheduler(o: Op)
    requires SchedulerInv(o) && CanAdmit(o)
    requires o.waiting.value.parts.header ==> o.sync.current == LastIter(o.tasks)
    ensures SchedulerInv(Admitted(o))
  {
    var o' := Admitted(o);
    var t := o'.tasks[|o.tasks|];
    assert o'.tasks == o.tasks + [t];
    AppendedBracketed(o.tasks, t);
  }

  lemma AdmittedLock(ts: seq<Task>, t: Task, n: NameSync)
    requires LockInv(ts, n) && Bracketed(ts + [t]) && t.phase == START
    requires t.sub.parts.header ==> !n.inProgress
    requires ts != [] ==> !ts[|ts| - 1].sub.last
    ensures LockInv(ts + [t], if t.sub.parts.header then Acquired(n) else n)
  {
    var ts' := ts + [t];
    forall k: nat, p: nat {:trigger TailPast(ts', k, p)} ensures TailPast(ts', k, p) == TailPast(ts, k, p) {
      AppendedPast(ts, t, k, p);
    }
    AppendedSets(ts, t, n.current);
    AppendedSets(ts, t, n.current + 1);
    if ts != [] {
      assert ts'[|ts| - 1] == ts[|ts| - 1];
    }
  }

  lemma AdmittedLockTable(ts: seq<Task>, t: Task, n: NameSync)
    requires LockTable(ts, n) && Bracketed(ts + [t]) && t.phase == START
    requires t.sub.iter == LastIter(ts) + if t.sub.parts.header then 1 else 0
    requires ts != [] ==> !ts[|ts| - 1].sub.last
    ensures LockTable(ts + [t], if t.sub.parts.header then Acquired(n) else n)
  {
    var ts' := ts + [t];
    var n' := if t.sub.parts.header then Acquired(n) else n;
    AppendedOpen(ts, t, MARK_TAIL);
    forall k: nat | k in n'.states ensures EntryOk(ts', k, n'.states[k]) {
      AppendedPast(ts, t, k, MARK_TAIL);
      AppendedSets(ts, t, k);
      AppendedClosing(ts, t, k);
    }
  }

  lemma AppendedClosing(ts: seq<Task>, t: Task, k: nat)
    requires t.phase == START
    ensures Closing(ts + [t], k) == Closing(ts, k)
  {
    if Closing(ts, k) {
      var i :| 0 <= i < |ts| && IsClosing(ts[i]) && ts[i].sub.iter == k;
      assert (ts + [t])[i] == ts[i];
    }
  }

  /** The iteration a new task belongs to: no tail yet, and nothing at all when it brings the header. */
  lemma AppendedOpen(ts: seq<Task>, t: Task, p: nat)
    requires Bracketed(ts + [t])
    requires t.sub.iter == LastIter(ts) + if t.sub.parts.header then 1 else 0
    ensures !TailPast(ts, t.sub.iter, p)
    ensures t.sub.parts.header ==> !HeaderPast(ts, t.sub.iter, p) && PendingSet(ts, t.sub.iter) == {} && ActiveSet(ts, t.sub.iter) == {}
    ensures t.sub.iter >= 1
  {
    var ts' := ts + [t];
    forall j | 0 <= j < |ts| ensures ts[j].sub.iter < t.sub.iter || !(ts[j].sub.parts.tail || t.sub.parts.header) {
      assert ts'[j] == ts[j] && ts'[|ts|] == t;
    }
    assert ts'[|ts|] == t;
  }

  lemma AdmittedTable(ts: seq<Task>, t: Task, g: Gates)
    requires GateTable(ts, g) && Bracketed(ts + [t]) && t.phase == START
    requires t.sub.iter == LastIter(ts) + if t.sub.parts.header then 1 else 0
    ensures var begun := if t.sub.parts.header then Begun(g, t.sub.iter) else g;
            GateTable(ts + [t], if t.sub.HasData() then DataAdded(begun, t.sub.iter) else begun)
  {
    var ts' := ts + [t];
    var begun := if t.sub.parts.header then Begun(g, t.sub.iter) else g;
    var g' := if t.sub.HasData() then DataAdded(begun, t.sub.iter) else begun;
    AppendedOpen(ts, t, AWAIT_DRAIN);
    AppendedOpen(ts, t, OPEN_GATE);
    forall k: nat
      ensures k in g' <==> 1 <= k <= LastIter(ts') && !TailPast(ts', k, AWAIT_DRAIN)
      ensures k in g' ==> g'[k].pending == |PendingSet(ts', k)| && g'[k].open == HeaderPast(ts', k, OPEN_GATE)
    {
      AppendedPast(ts, t, k, AWAIT_DRAIN);
      AppendedPast(ts, t, k, OPEN_GATE);
      AppendedSets(ts, t, k);
    }
  }

  lemma AdmittedOrder(ts: seq<Task>, t: Task)
    requires GateOrder(ts) && Bracketed(ts + [t]) && t.phase == START
    requires t.sub.iter == LastIter(ts) + if t.sub.parts.header then 1 else 0
    ensures GateOrder(ts + [t])
  {
    var ts' := ts + [t];
    AppendedOpen(ts, t, AWAIT_DRAIN);
    forall j | 0 <= j < |ts'| && ts'[j].sub.HasData()
      ensures ts'[j].phase <= DATA_DONE ==> !TailPast(ts', ts'[j].sub.iter, AWAIT_DRAIN)
      ensures ts'[j].phase > AWAIT_GATE ==> HeaderPast(ts', ts'[j].sub.iter, OPEN_GATE)
    {
      AppendedPast(ts, t, ts'[j].sub.iter, AWAIT_DRAIN);
      AppendedPast(ts, t, ts'[j].sub.iter, OPEN_GATE);
      if j < |ts| {
        assert ts'[j] == ts[j];
      }
    }
  }

  // ---------------------------------------------------------------- steps of a task

  lemma AdvancedMoves(o: Op, j: nat)
    requires j < |o.tasks| && o.tasks[j].phase < DONE
    ensures Moved(o.tasks, Advanced(o, j), j)
    ensures LastIter(Advanced(o, j)) == LastIter(o.tasks)
  {
  }

  lemma SteppedScheduler(o: Op, o': Op, j: nat)
    requires SchedulerInv(o) && j < |o.tasks| && o.tasks[j].phase < DONE
    requires o'.tasks == Advanced(o, j)
    requires o' == o.(tasks := o'.tasks, sync := o'.sync, gates := o'.gates, counters := o'.counters,
                      taken := o'.taken, log := o'.log, promises := o'.promises, rushed := o'.rushed)
    ensures SchedulerInv(o')
  {
    AdvancedMoves(o, j);
    forall i | 0 <= i < |o.tasks| ensures TaskOk(o'.tasks[i]) && o'.tasks[i].sub == o.tasks[i].sub {
      assert TaskOk(o.tasks[i]);
    }
  }

  // The synchronizer's tables, whatever the other tasks do.

  lemma MovedClosing(ts: seq<Task>, ts': seq<Task>, j: nat, k: nat)
    requires Moved(ts, ts', j)
    ensures !IsClosing(ts[j]) || IsClosing(ts'[j]) || ts[j].sub.iter != k ==>
              Closing(ts', k) == (Closing(ts, k) || (ts[j].sub.iter == k && IsClosing(ts'[j])))
  {
    if Closing(ts, k) && (!IsClosing(ts[j]) || IsClosing(ts'[j]) || ts[j].sub.iter != k) {
      var i :| 0 <= i < |ts| && IsClosing(ts[i]) && ts[i].sub.iter == k;
      assert i != j ==> ts'[i] == ts[i];
    }
  }

  lemma EntryElsewhere(ts: seq<Task>, ts': seq<Task>, j: nat, k: nat, st: IterationState)
    requires Moved(ts, ts', j) && EntryOk(ts, k, st) && ts[j].sub.iter != k
    ensures EntryOk(ts', k, st)
  {
    MovedPast(ts, ts', j);
    MovedActive(ts, ts', j, k);
    MovedClosing(ts, ts', j, k);
  }

  /** What a section that is not a release does to the entry of its own iteration. */
  lemma EntryHere(ts: seq<Task>, ts': seq<Task>, j: nat, st: IterationState, st': IterationState)
    requires Moved(ts, ts', j) && EntryOk(ts, ts[j].sub.iter, st) && ts[j].phase != RELEASE && ts[j].phase < DONE
    requires st'.active - st.active == if ts[j].phase == START then 1 else if ts[j].phase == FINISH then -1 else 0
    requires st'.tailProcessed == (st.tailProcessed || (ts[j].phase == MARK_TAIL && ts[j].sub.parts.tail))
    requires if ts[j].phase == FINISH then ts'[j].phase == if st'.active == 0 then CHECK else DONE
             else if ts[j].phase == CHECK then ts'[j].phase == if st.tailProcessed then RELEASE else DONE
             else ts'[j].phase == ts[j].phase + 1 || (ts[j].phase == PUBLISH_DATA && ts'[j].phase == PUBLISH_DATA)
    ensures EntryOk(ts', ts[j].sub.iter, st')
  {
    var k := ts[j].sub.iter;
    MovedPast(ts, ts', j);
    MovedActive(ts, ts', j, k);
    MovedClosing(ts, ts', j, k);
    if ts[j].phase < FINISH {
      assert j in ActiveSet(ts', k);
    } else {
      assert ts[j].phase in {FINISH, CHECK};
    }
  }

  lemma TableEntry(o: Op, j: nat, k: nat)
    requires Bracketed(o.tasks) && LockTable(o.tasks, o.sync) && j < |o.tasks| && Enabled(o, j)
    requires k in SyncAfter(o.sync, o.tasks[j]).states
    ensures EntryOk(Advanced(o, j), k, SyncAfter(o.sync, o.tasks[j]).states[k])
  {
    var ts, ts', n' := o.tasks, Advanced(o, j), SyncAfter(o.sync, o.tasks[j]);
    AdvancedMoves(o, j);
    assert ts[j].sub.iter >= 1 && k in o.sync.states;
    if k != ts[j].sub.iter {
      EntryElsewhere(ts, ts', j, k, n'.states[k]);
    } else {
      assert ts[j].phase == RELEASE ==> !o.sync.cv;
      EntryHere(ts, ts', j, o.sync.states[k], n'.states[k]);
    }
  }

  lemma SteppedTableOfLock(o: Op, j: nat)
    requires Bracketed(o.tasks) && LockTable(o.tasks, o.sync) && j < |o.tasks| && Enabled(o, j)
    ensures LockTable(Advanced(o, j), SyncAfter(o.sync, o.tasks[j]))
  {
    AdvancedMoves(o, j);
    assert o.tasks[j].sub.iter >= 1;
    forall k: nat | k in SyncAfter(o.sync, o.tasks[j]).states
      ensures EntryOk(Advanced(o, j), k, SyncAfter(o.sync, o.tasks[j]).states[k])
    {
      TableEntry(o, j, k);
    }
  }

  // The lock: one lemma for each section that touches it.

  ghost predicate LockStep(ts: seq<Task>, ts': seq<Task>, j: nat, n: NameSync, phase: nat) {
    && LockInv(ts, n)
    && Bracketed(ts)
    && Moved(ts, ts', j)
    && ts[j].phase == phase
  }

  lemma LockStart(ts: seq<Task>, ts': seq<Task>, j: nat, n: NameSync)
    requires LockStep(ts, ts', j, n, START) && ts'[j].phase == START + 1
    requires !Closing(ts, ts[j].sub.iter)
    ensures LockInv(ts', Started(n, ts[j].sub.iter))
  {
    MovedPast(ts, ts', j);
    MovedActive(ts, ts', j, n.current);
  }

  lemma LockQuiet(ts: seq<Task>, ts': seq<Task>, j: nat, n: NameSync, phase: nat)
    requires LockStep(ts, ts', j, n, phase)
    requires START < phase < FINISH && ts'[j].phase in {phase, phase + 1}
    requires ts[j].sub.parts.tail ==> phase != MARK_TAIL && (ts[j].sub.last ==> phase != REMOVE)
    ensures LockInv(ts', n)
  {
    MovedPast(ts, ts', j);
    MovedActive(ts, ts', j, n.current);
  }

  lemma LockMark(ts: seq<Task>, ts': seq<Task>, j: nat, n: NameSync)
    requires LockStep(ts, ts', j, n, MARK_TAIL) && ts'[j].phase == MARK_TAIL + 1 && ts[j].sub.parts.tail
    ensures LockInv(ts', TailMarked(n, ts[j].sub.iter))
  {
    var k := ts[j].sub.iter;
    MovedPast(ts, ts', j);
    MovedActive(ts, ts', j, n.current);
    assert j in ActiveSet(ts', k);
    assert |ActiveSet(ts', k)| > 0;
    assert TailPast(ts', k, MARK_TAIL);
  }

  lemma LockRemove(ts: seq<Task>, ts': seq<Task>, j: nat, n: NameSync)
    requires LockStep(ts, ts', j, n, REMOVE) && ts'[j].phase == REMOVE + 1 && ts[j].sub.parts.tail && ts[j].sub.last
    ensures LockInv(ts', Fresh())
  {
    assert j in ActiveSet(ts, ts[j].sub.iter);
    MovedPast(ts, ts', j);
    MovedActive(ts, ts', j, n.current);
  }

  lemma LockFinish(ts: seq<Task>, ts': seq<Task>, j: nat, n: NameSync)
    requires LockStep(ts, ts', j, n, FINISH)
    requires ts'[j].phase == if LastActive(n, ts[j].sub.iter) then CHECK else DONE
    ensures LockInv(ts', Decremented(n, ts[j].sub.iter))
  {
    MovedPast(ts, ts', j);
    MovedActive(ts, ts', j, n.current);
  }

  lemma LockCheck(ts: seq<Task>, ts': seq<Task>, j: nat, n: NameSync)
    requires LockStep(ts, ts', j, n, CHECK)
    requires ts'[j].phase == if TailKnown(n, ts[j].sub.iter) then RELEASE else DONE
    ensures LockInv(ts', n)
  {
    MovedPast(ts, ts', j);
    MovedActive(ts, ts', j, n.current);
  }

  lemma LockRelease(ts: seq<Task>, ts': seq<Task>, j: nat, n: NameSync)
    requires LockStep(ts, ts', j, n, RELEASE) && ts'[j].phase == DONE
    ensures LockInv(ts', Released(n, ts[j].sub.iter))
  {
    MovedPast(ts, ts', j);
    MovedActive(ts, ts', j, n.current);
  }

  // The gates.

  ghost predicate GateStep(ts: seq<Task>, ts': seq<Task>, j: nat, g: Gates, phase: nat) {
    && GateTable(ts, g)
    && Moved(ts, ts', j)
    && ts[j].phase == phase
  }

  lemma GateQuiet(ts: seq<Task>, ts': seq<Task>, j: nat, g: Gates, phase: nat)
    requires GateStep(ts, ts', j, g, phase) && phase <= ts'[j].phase
    requires (phase <= DATA_DONE && phase != OPEN_GATE && ts'[j].phase <= phase + 1) || phase > AWAIT_DRAIN
             || (phase == OPEN_GATE && ts'[j].phase == phase + 1 && !ts[j].sub.parts.header)
             || (phase == AWAIT_DRAIN && ts'[j].phase == phase + 1 && !ts[j].sub.parts.tail)
    requires ts[j].sub.HasData() ==> phase != DATA_DONE
    ensures GateTable(ts', g)
  {
    MovedPast(ts, ts', j);
    forall k: nat ensures |PendingSet(ts', k)| == |PendingSet(ts, k)| {
      MovedPending(ts, ts', j, k);
    }
  }

  lemma GateOpen(ts: seq<Task>, ts': seq<Task>, j: nat, g: Gates)
    requires GateStep(ts, ts', j, g, OPEN_GATE) && ts'[j].phase == OPEN_GATE + 1 && ts[j].sub.parts.header
    ensures GateTable(ts', HeaderCompleted(g, ts[j].sub.iter))
  {
    MovedPast(ts, ts', j);
    forall k: nat ensures |PendingSet(ts', k)| == |PendingSet(ts, k)| {
      MovedPending(ts, ts', j, k);
    }
  }

  lemma GateDataDone(ts: seq<Task>, ts': seq<Task>, j: nat, g: Gates)
    requires GateStep(ts, ts', j, g, DATA_DONE) && ts'[j].phase == DATA_DONE + 1 && ts[j].sub.HasData()
    ensures GateTable(ts', DataRemoved(g, ts[j].sub.iter))
  {
    MovedPast(ts, ts', j);
    forall k: nat ensures |PendingSet(ts', k)| == |PendingSet(ts, k)| - if k == ts[j].sub.iter then 1 else 0 {
      MovedPending(ts, ts', j, k);
    }
  }

  lemma GateDrain(ts: seq<Task>, ts': seq<Task>, j: nat, g: Gates)
    requires GateStep(ts, ts', j, g, AWAIT_DRAIN) && ts'[j].phase == AWAIT_DRAIN + 1 && ts[j].sub.parts.tail
    ensures GateTable(ts', g - {ts[j].sub.iter})
  {
    var g' := g - {ts[j].sub.iter};
    MovedPast(ts, ts', j);
    forall k: nat
      ensures k in g' <==> 1 <= k <= LastIter(ts') && !TailPast(ts', k, AWAIT_DRAIN)
      ensures k in g' ==> g'[k].pending == |PendingSet(ts', k)| && g'[k].open == HeaderPast(ts', k, OPEN_GATE)
    {
      MovedPending(ts, ts', j, k);
    }
  }

  /** Once an iteration's count is zero, none of its data is left. */
  lemma NothingPending(ts: seq<Task>, k: nat)
    requires |PendingSet(ts, k)| == 0
    ensures forall i :: 0 <= i < |ts| && ts[i].sub.iter == k && ts[i].sub.HasData() ==> ts[i].phase > DATA_DONE
  {
    forall i | 0 <= i < |ts| && ts[i].sub.iter == k && ts[i].sub.HasData() ensures ts[i].phase > DATA_DONE {
      assert i !in PendingSet(ts, k);
    }
  }

  /** The two waits keep the order: a tail leaves AWAIT_DRAIN without pending data, data its gate after the header. */
  lemma OrderKept(ts: seq<Task>, ts': seq<Task>, j: nat)
    requires GateOrder(ts) && Moved(ts, ts', j)
    requires ts[j].sub.parts.tail && ts[j].phase <= AWAIT_DRAIN < ts'[j].phase ==>
               forall i :: 0 <= i < |ts| && i != j && ts[i].sub.iter == ts[j].sub.iter && ts[i].sub.HasData() ==> ts[i].phase > DATA_DONE
    requires ts[j].sub.HasData() && ts[j].phase <= AWAIT_GATE < ts'[j].phase ==> HeaderPast(ts, ts[j].sub.iter, OPEN_GATE)
    ensures GateOrder(ts')
  {
    MovedPast(ts, ts', j);
    forall i | 0 <= i < |ts'| && ts'[i].sub.HasData()
      ensures ts'[i].phase <= DATA_DONE ==> !TailPast(ts', ts'[i].sub.iter, AWAIT_DRAIN)
      ensures ts'[i].phase > AWAIT_GATE ==> HeaderPast(ts', ts'[i].sub.iter, OPEN_GATE)
    {
      assert ts'[i].sub == ts[i].sub;
      assert ts[i].phase <= DATA_DONE ==> !TailPast(ts, ts[i].sub.iter, AWAIT_DRAIN);
    }
  }

  lemma SteppedOrder(o: Op, j: nat)
    requires GateInv(o.tasks, o.gates) && Bracketed(o.tasks) && j < |o.tasks| && Enabled(o, j)
    ensures GateOrder(Advanced(o, j))
  {
    var ts, t := o.tasks, o.tasks[j];
    AdvancedMoves(o, j);
    var k := t.sub.iter;
    assert t.sub.iter >= 1 && k <= LastIter(ts);
    if t.phase == AWAIT_DRAIN && t.sub.parts.tail {
      if k in o.gates {
        NothingPending(ts, k);
      }
    }
    OrderKept(ts, Advanced(o, j), j);
  }

  // ---------------------------------------------------------------- the invariant holds for ever

  lemma SteppedLock(o: Op, j: nat)
    requires LockInv(o.tasks, o.sync) && Bracketed(o.tasks) && j < |o.tasks| && Enabled(o, j) && !Rushes(o, j)
    ensures LockInv(Advanced(o, j), SyncAfter(o.sync, o.tasks[j]))
  {
    var ts, ts', t, n := o.tasks, Advanced(o, j), o.tasks[j], o.sync;
    AdvancedMoves(o, j);
    assert t.sub.iter >= 1;
    if t.phase == START {
      LockStart(ts, ts', j, n);
    } else if t.phase == FINISH {
      LockFinish(ts, ts', j, n);
    } else if t.phase == CHECK {
      LockCheck(ts, ts', j, n);
    } else if t.phase == RELEASE {
      LockRelease(ts, ts', j, n);
    } else if t.phase == MARK_TAIL && t.sub.parts.tail {
      LockMark(ts, ts', j, n);
    } else if t.phase == REMOVE && t.sub.parts.tail && t.sub.last {
      LockRemove(ts, ts', j, n);
    } else {
      LockQuiet(ts, ts', j, n, t.phase);
    }
  }

  lemma SteppedTable(o: Op, j: nat)
    requires GateTable(o.tasks, o.gates) && j < |o.tasks| && o.tasks[j].sub.iter >= 1 && Enabled(o, j)
    ensures GateTable(Advanced(o, j), GatesAfter(o.gates, o.tasks[j]))
  {
    var ts, ts', t, g := o.tasks, Advanced(o, j), o.tasks[j], o.gates;
    AdvancedMoves(o, j);
    if t.phase == OPEN_GATE && t.sub.parts.header {
      GateOpen(ts, ts', j, g);
    } else if t.phase == DATA_DONE && t.sub.HasData() {
      GateDataDone(ts, ts', j, g);
    } else if t.phase == AWAIT_DRAIN && t.sub.parts.tail {
      GateDrain(ts, ts', j, g);
    } else {
      GateQuiet(ts, ts', j, g, t.phase);
    }
  }

  lemma SteppedGate(o: Op, j: nat)
    requires GateInv(o.tasks, o.gates) && Bracketed(o.tasks) && j < |o.tasks| && Enabled(o, j)
    ensures GateInv(Advanced(o, j), GatesAfter(o.gates, o.tasks[j]))
  {
    SteppedTable(o, j);
    SteppedOrder(o, j);
  }

  lemma SteppedPromise(o: Op, j: nat)
    requires SchedulerInv(o) && PromiseInv(o) && j < |o.tasks| && Enabled(o, j)
    ensures PromiseInv(Stepped(o, j))
    ensures o.promises == 1 ==> o.tasks[j].sub.last ==> o.tasks[j].phase > PROMISE
  {
    var ts := o.tasks;
    assert ts[j].sub.last ==> ts[j].sub.parts.tail && j == |ts| - 1;
    assert forall i :: 0 <= i < |ts| && i != j ==> Advanced(o, j)[i] == ts[i];
  }

  lemma SteppedIds(o: Op, j: nat)
    requires SchedulerInv(o) && PromiseInv(o) && IdsInv(o) && j < |o.tasks| && Enabled(o, j)
    ensures IdsInv(Stepped(o, j))
  {
    SteppedPromise(o, j);
    AdvancedMoves(o, j);
    var ts := o.tasks;
    assert ts[j].sub.last ==> ts[j].sub.parts.tail && j == |ts| - 1;
    assert forall i :: 0 <= i < |ts| && i != j ==> Advanced(o, j)[i] == ts[i];
  }

  lemma SteppedTails(ts: seq<Task>, ts': seq<Task>, j: nat)
    requires TailsDone(ts) && Moved(ts, ts', j) && LastIter(ts') == LastIter(ts)
    ensures TailsDone(ts')
  {
    MovedPast(ts, ts', j);
  }

  lemma SteppedLocks(o: Op, j: nat)
    requires Inv(o) && j < |o.tasks| && Enabled(o, j)
    ensures var o' := Stepped(o, j);
            && (Owns(o') ==> LockTable(o'.tasks, o'.sync))
            && (Owns(o') && !o'.rushed ==> LockInv(o'.tasks, o'.sync))
            && (!o'.disturbed && !o'.rushed ==> TailsDone(o'.tasks))
  {
    AdvancedMoves(o, j);
    if Owns(o) {
      SteppedTableOfLock(o, j);
      if !Stepped(o, j).rushed {
        SteppedLock(o, j);
      }
    }
    if !o.disturbed && !o.rushed {
      SteppedTails(o.tasks, Advanced(o, j), j);
    }
  }

  lemma SteppedInv(o: Op, j: nat)
    requires Inv(o) && j < |o.tasks| && Enabled(o, j)
    ensures Inv(Stepped(o, j))
  {
    SteppedScheduler(o, Stepped(o, j), j);
    SteppedPromise(o, j);
    SteppedIds(o, j);
    SteppedGate(o, j);
    SteppedLocks(o, j);
  }

  /** Nothing is collected any more, let alone submitted, once the promise is set. */
  lemma WaitingIsOpen(o: Op)
    requires SchedulerInv(o) && PromiseInv(o) && o.waiting.Some?
    ensures o.promises == 0 && !Removed(o.tasks)
  {
  }

  lemma AdmittedLocks(o: Op)
    requires Inv(o) && CanAdmit(o) && Bracketed(Admitted(o).tasks)
    ensures var o' := Admitted(o);
            && (Owns(o') ==> LockTable(o'.tasks, o'.sync))
            && (Owns(o') && !o'.rushed ==> LockInv(o'.tasks, o'.sync))
            && (!o'.disturbed && !o'.rushed ==> TailsDone(o'.tasks))
  {
    var t := Admitted(o).tasks[|o.tasks|];
    assert Admitted(o).tasks == o.tasks + [t];
    WaitingIsOpen(o);
    if Owns(o) {
      AdmittedLockTable(o.tasks, t, o.sync);
      if !o.rushed {
        AdmittedLock(o.tasks, t, o.sync);
      }
    }
  }

  lemma AdmittedGates(o: Op)
    requires SchedulerInv(o) && GateInv(o.tasks, o.gates) && CanAdmit(o) && o.sync.current == LastIter(o.tasks)
    requires Bracketed(Admitted(o).tasks)
    ensures GateInv(Admitted(o).tasks, Admitted(o).gates)
  {
    var t := Admitted(o).tasks[|o.tasks|];
    assert Admitted(o).tasks == o.tasks + [t];
    AdmittedTable(o.tasks, t, o.gates);
    AdmittedOrder(o.tasks, t);
  }

  lemma AdmittedInv(o: Op)
    requires Inv(o) && CanAdmit(o)
    ensures Inv(Admitted(o))
  {
    WaitingIsOpen(o);
    AdmittedScheduler(o);
    AdmittedLocks(o);
    AdmittedGates(o);
    var t := Admitted(o).tasks[|o.tasks|];
    assert Admitted(o).tasks == o.tasks + [t] && t.phase == START;
  }

  // ---------------------------------------------------------------- another operation of the same name

  /** What an operation sees when another, of the same name, has changed the tables they share. */
  lemma SeenInv(o: Op, n: NameSync, o': Op)
    requires Inv(o)
    requires o' == o.(sync := n, counters := o'.counters, disturbed := o'.disturbed, miscounted := o'.miscounted)
    requires o.promises == 0 ==> n.current == o.sync.current && n.cv == o.sync.cv && (o.sync == Fresh() ==> n == Fresh())
    requires o.disturbed ==> o'.disturbed
    requires o.promises == 0 && n != o.sync ==> o'.disturbed
    ensures Inv(o')
  {
  }

  /** A task of an operation whose promise is set leaves the iteration counter of the name alone, and an empty entry. */
  lemma LateStep(o: Op, j: nat)
    requires Inv(o) && o.promises == 1 && j < |o.tasks| && Enabled(o, j)
    ensures var n := SyncAfter(o.sync, o.tasks[j]);
            n.current == o.sync.current && n.cv == o.sync.cv && (o.sync == Fresh() ==> n == Fresh())
  {
    SteppedPromise(o, j);
  }
}
