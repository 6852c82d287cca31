/**
  A snapshot that is started again while tasks of its earlier run are still in the pool. Such a late
  task counts down in the tables of the new run, and can take away a count that is not its own.
 */
module SnapshotRestart {
  import opened Types
  import opened IterationSync
  import opened IterationGates
  import opened SnapshotProtocol
  import opened SnapshotInvariant
  import opened SnapshotOrder
  import opened SnapshotSerial
  import opened SnapshotEngine

  // ---------------------------------------------------------------- one worker

  /** The lock of a first iteration from which a late task has taken a count: it is not released any more. */
  ghost predicate StuckLock(o: Op) {
    && LastIter(o.tasks) == 1
    && o.sync == Stuck(|ActiveSet(o.tasks, 1)|, TailPast(o.tasks, 1, MARK_TAIL))
  }

  function Stuck(active: nat, tail: bool): NameSync {
    NameSync(1, true, true, map[1 := IterationState(active - 1, tail)])
  }

  ghost predicate NoneClosing(ts: seq<Task>) {
    forall k :: 0 <= k < |ts| ==> !IsClosing(ts[k])
  }

  /** What one worker makes of an operation that is disturbed, or is over. */
  ghost predicate LateOp(o: Op) {
    && (o.disturbed && o.promises == 0 && !Removed(o.tasks) ==> StuckLock(o))
    && (o.disturbed || o.promises == 1 ==> NoneClosing(o.tasks))
  }

  /** The tasks of later runs of a name come after those of earlier ones. */
  ghost predicate RunsInOrder(s: System) {
    forall p, q :: 0 <= p < q < |s.order| && SameName(s, s.order[p].op, s.order[q].op) ==> s.order[p].op <= s.order[q].op
  }

  ghost predicate SameName(s: System, i: nat, j: nat) {
    i < |s.ops| && j < |s.ops| && s.ops[i].name == s.ops[j].name
  }

  /** While the worker has a task of an earlier run, the new one is not disturbed yet. */
  ghost predicate NotYet(s: System)
    requires WellFormed(s)
  {
    forall w: nat, j: nat :: IsLate(s, w, j) ==> !s.ops[j].disturbed
  }

  /** Worker w has a task of an earlier run of the name of operation j. */
  ghost predicate IsLate(s: System, w: nat, j: nat)
    requires WellFormed(s)
  {
    && w < |s.workers| && s.workers[w].Some?
    && SameName(s, s.order[s.workers[w].value].op, j) && s.order[s.workers[w].value].op < j
  }

  ghost predicate LateInv(s: System)
    requires WellFormed(s)
  {
    && (forall i: nat :: i < |s.ops| ==> LateOp(s.ops[i]))
    && RunsInOrder(s)
    && NotYet(s)
  }

  /** What the section of a task in turn does to a stuck lock. */
  lemma StuckSection(t: Task, next: Phase, active: nat, tail: bool)
    requires t.sub.iter == 1 && t.phase < CHECK && active == (if IsActive(t) then 1 else 0)
    requires !(t.phase == REMOVE && t.sub.parts.tail && t.sub.last)
    requires if t.phase == FINISH then next == DONE else next in {t.phase, t.phase + 1} && (t.phase != PUBLISH_DATA ==> next == t.phase + 1)
    ensures SyncAfter(Stuck(active, tail), t)
         == Stuck(if IsActive(Task(t.sub, next, 0)) then 1 else 0, tail || (t.phase == MARK_TAIL && t.sub.parts.tail))
    ensures !LastActive(Stuck(active, tail), 1) || t.phase != FINISH
  {
  }

  /** Its count is not the last one, so finishTask ends with the count-down. */
  lemma StuckNext(o: Op, j: nat)
    requires j < |o.tasks| && Enabled(o, j) && o.tasks[j].sub.iter == 1 && NoneClosing(o.tasks)
    requires o.tasks[j].phase == FINISH ==> !LastActive(o.sync, 1)
    ensures var p, next := o.tasks[j].phase, Advanced(o, j)[j].phase;
            if p == FINISH then next == DONE else next in {p, p + 1} && (p != PUBLISH_DATA ==> next == p + 1)
    ensures NoneClosing(Advanced(o, j))
  {
  }

  lemma StuckStep(o: Op, j: nat)
    requires Bracketed(o.tasks) && InTurn(o.tasks, j) && Enabled(o, j) && StuckLock(o) && NoneClosing(o.tasks)
    requires !(o.tasks[j].phase == REMOVE && o.tasks[j].sub.parts.tail && o.tasks[j].sub.last)
    ensures StuckLock(Stepped(o, j)) && NoneClosing(Advanced(o, j))
  {
    var ts, ts', t := o.tasks, Advanced(o, j), o.tasks[j];
    AdvancedMoves(o, j);
    assert 1 <= t.sub.iter <= LastIter(ts);
    AloneActive(ts, j);
    StuckNext(o, j);
    StuckSection(t, ts'[j].phase, |ActiveSet(ts, 1)|, TailPast(ts, 1, MARK_TAIL));
    assert |ActiveSet(ts', 1)| == (if IsActive(ts'[j]) then 1 else 0) by {
      MovedActive(ts, ts', j, 1);
    }
    assert TailPast(ts', 1, MARK_TAIL) == (TailPast(ts, 1, MARK_TAIL) || (t.phase == MARK_TAIL && t.sub.parts.tail)) by {
      MovedPast(ts, ts', j);
      assert TailPast(ts', 1, MARK_TAIL) == (TailPast(ts, 1, MARK_TAIL) || (t.sub.parts.tail && t.sub.iter == 1 && ts'[j].phase > MARK_TAIL));
    }
  }

  /** A step of the operation in turn keeps its lock stuck, and none of its tasks gets to the second part of finishTask. */
  lemma LateOpStep(o: Op, j: nat)
    requires SchedulerInv(o) && PromiseInv(o) && IdsInv(o) && InTurn(o.tasks, j) && Enabled(o, j) && o.promises == 0
    requires o.disturbed && LateOp(o)
    ensures LateOp(Stepped(o, j))
  {
    var ts, t := o.tasks, o.tasks[j];
    assert t.sub.last ==> j == |ts| - 1 && t.sub.parts.tail;
    if Removed(ts) {
      assert o.sync == Fresh();
      RemovedStep(o, j);
    } else if t.phase == REMOVE && t.sub.last {
      RemoveStep(o, j);
    } else {
      StuckStep(o, j);
    }
  }

  lemma RemoveStep(o: Op, j: nat)
    requires j < |o.tasks| && Enabled(o, j) && j == |o.tasks| - 1 && o.tasks[j].phase == REMOVE && o.tasks[j].sub.last
    requires NoneClosing(o.tasks)
    ensures Removed(Advanced(o, j)) && NoneClosing(Advanced(o, j))
  {
  }

  /** The task in turn is the only one that may be active. */
  lemma AloneActive(ts: seq<Task>, j: nat)
    requires InTurn(ts, j)
    ensures |ActiveSet(ts, ts[j].sub.iter)| == if IsActive(ts[j]) then 1 else 0
  {
    assert ActiveSet(ts, ts[j].sub.iter) == if IsActive(ts[j]) then {j} else {};
  }

  lemma RemovedStep(o: Op, j: nat)
    requires j < |o.tasks| && Removed(o.tasks) && Enabled(o, j) && j == |o.tasks| - 1
    requires NoneClosing(o.tasks) && (o.tasks[j].phase == FINISH ==> !LastActive(o.sync, o.tasks[j].sub.iter))
    ensures Removed(Advanced(o, j)) && NoneClosing(Advanced(o, j))
  {
  }

  // ---------------------------------------------------------------- the invariant of one worker

  /** With one worker, whose queue position is the latest taken, no task of a later run of the name has started. */
  lemma NewRunWaits(s: System, j: nat)
    requires PoolInv(s) && RunsInOrder(s) && |s.workers| == 1 && IsLate(s, 0, j)
    ensures forall k :: 0 <= k < |s.ops[j].tasks| ==> s.ops[j].tasks[k].phase == START
  {
    var p := s.workers[0].value;
    forall k: nat | k < |s.ops[j].tasks| ensures s.ops[j].tasks[k].phase == START {
      assert TaskRef(j, k) in s.order;
      var q: nat :| q < |s.order| && s.order[q] == TaskRef(j, k);
      assert SameName(s, s.order[q].op, s.order[p].op);
      assert q >= s.popped;
      assert TaskAt(s, q) == s.ops[j].tasks[k];
    }
  }

  /** So it has at most its first iteration, as acquireIteration has left it. */
  lemma NewRunLock(o: Op)
    requires Inv(o) && !o.disturbed && !o.rushed && forall k :: 0 <= k < |o.tasks| ==> o.tasks[k].phase == START
    ensures o.promises == 0
    ensures o.sync == if o.tasks == [] then Fresh() else NameSync(1, true, true, map[1 := IterationState(0, false)])
    ensures o.tasks != [] ==> LastIter(o.tasks) == 1
    ensures ActiveSet(o.tasks, 1) == {} && !TailPast(o.tasks, 1, MARK_TAIL)
  {
    assert PromiseInv(o) && Owns(o) && LockInv(o.tasks, o.sync) && SchedulerInv(o);
    if o.tasks != [] {
      FirstIteration(o.tasks, o.sync);
    }
  }

  lemma FirstIteration(ts: seq<Task>, n: NameSync)
    requires LockInv(ts, n) && Bracketed(ts) && ts != [] && forall k :: 0 <= k < |ts| ==> ts[k].phase == START
    ensures n == NameSync(1, true, true, map[1 := IterationState(0, false)]) && LastIter(ts) == 1
  {
    assert !TailPast(ts, 1, MARK_TAIL) && !TailPast(ts, LastIter(ts), MARK_TAIL);
    assert LastIter(ts) == 1;
    assert n.inProgress && n.current == 1;
    assert ActiveSet(ts, 1) == {};
  }

  /** The task of an earlier run that one worker may have is about to count down: all else of it is behind. */
  lemma LateFinishes(s: System)
    requires PoolInv(s) && |s.workers| == 1 && s.workers[0].Some?
    requires var o := s.ops[s.order[s.workers[0].value].op]; SchedulerInv(o) && PromiseInv(o) && LateOp(o) && o.promises == 1
    ensures TaskAt(s, s.workers[0].value).phase == FINISH
  {
    OneWorkerInTurn(s);
  }

  /** The one worker has a task of an earlier run of the name of operation j. */
  ghost predicate LatePair(s: System, j: nat) {
    && PoolInv(s) && |s.workers| == 1 && IsLate(s, 0, j) && RunsInOrder(s)
    && Inv(s.ops[j]) && !s.ops[j].disturbed && !s.ops[j].rushed
    && var o := s.ops[s.order[s.workers[0].value].op];
    && SchedulerInv(o) && PromiseInv(o) && LateOp(o) && o.promises == 1 && o.sync == s.ops[j].sync
  }

  lemma IsLatePair(s: System, j: nat)
    requires SysInv(s) && LateInv(s) && |s.workers| == 1 && IsLate(s, 0, j)
    ensures LatePair(s, j)
  {
    var i := s.order[s.workers[0].value].op;
    assert NamesInv(s) && OpsInv(s) && ExactInv(s);
    assert FullInv(s.ops[i]) && Inv(s.ops[i]) && FullInv(s.ops[j]) && Inv(s.ops[j]);
    assert LateOp(s.ops[i]) && ExactOp(s.ops[j], 1) && s.ops[i].promises == 1;
  }

  /** What the step of a late task does to the name: it takes one from the first iteration of the new run, if there is one. */
  lemma LateStepOne(s: System, j: nat)
    requires LatePair(s, j)
    ensures var t, n := TaskAt(s, s.workers[0].value), s.ops[j].sync;
            && t.phase == FINISH && s.ops[j].promises == 0
            && !LastActive(n, t.sub.iter)
            && (if t.sub.iter == 1 && s.ops[j].tasks != [] then Decremented(n, t.sub.iter) == Stuck(0, false) && n != Stuck(0, false)
                else Decremented(n, t.sub.iter) == n)
  {
    LateFinishes(s);
    NewRunWaits(s, j);
    NewRunLock(s.ops[j]);
    CountedDown(s.ops[j].sync, TaskAt(s, s.workers[0].value).sub.iter, s.ops[j].tasks == []);
  }

  lemma CountedDown(n: NameSync, k: nat, begins: bool)
    requires n == if begins then Fresh() else NameSync(1, true, true, map[1 := IterationState(0, false)])
    ensures !LastActive(n, k)
    ensures if k == 1 && !begins then Decremented(n, k) == Stuck(0, false) && n != Stuck(0, false) else Decremented(n, k) == n
  {
  }

  lemma PromiseStep(o: Op, j: nat)
    requires InTurn(o.tasks, j) && Enabled(o, j) && o.promises == 0 && Stepped(o, j).promises == 1
    ensures NoneClosing(Advanced(o, j))
  {
  }

  /** The operation whose task runs. */
  lemma RunningAfterWork(s: System)
    requires SysInv(s) && LateInv(s) && |s.workers| == 1 && Possible(s, Work(0))
    ensures var r := s.order[s.workers[0].value]; LateOp(Stepped(s.ops[r.op], r.task))
  {
    var r := s.order[s.workers[0].value];
    var o := s.ops[r.op];
    assert FullInv(o) && Inv(o) && LateOp(o);
    OneWorkerInTurn(s);
    SteppedPromise(o, r.task);
    if o.promises == 1 {
      LateFinishes(s);
      LateNotLast(s);
    } else if o.disturbed {
      LateOpStep(o, r.task);
    } else if Stepped(o, r.task).promises == 1 {
      PromiseStep(o, r.task);
    }
  }

  /** A late count-down does not reach zero. */
  lemma LateNotLast(s: System)
    requires SysInv(s) && LateInv(s) && |s.workers| == 1 && Possible(s, Work(0))
    requires s.ops[s.order[s.workers[0].value].op].promises == 1
    ensures var r := s.order[s.workers[0].value]; !LastActive(s.ops[r.op].sync, s.ops[r.op].tasks[r.task].sub.iter)
  {
    var i := s.order[s.workers[0].value].op;
    assert NamesInv(s);
    if IsLatest(s.ops, i) {
      assert s.ops[i].sync == Fresh();
    } else {
      var j :| i < j < |s.ops| && s.ops[j].name == s.ops[i].name;
      assert IsLate(s, 0, j);
      IsLatePair(s, j);
      LateStepOne(s, j);
    }
  }

  /** Operation j of a later run, with that task's step. */
  lemma NewRunAfterWork(s: System, j: nat)
    requires LatePair(s, j) && Possible(s, Work(0))
    ensures LateOp(After(s, Work(0)).ops[j])
    ensures After(s, Work(0)).ops[j].disturbed <==> TaskAt(s, s.workers[0].value).sub.iter == 1 && s.ops[j].tasks != []
  {
    var r := s.order[s.workers[0].value];
    LateStepOne(s, j);
    NewRunWaits(s, j);
    NewRunLock(s.ops[j]);
    SeenLate(s.ops[j], Stepped(s.ops[r.op], r.task), TaskAt(s, s.workers[0].value).sub.iter);
  }

  lemma SeenLate(o: Op, other: Op, k: nat)
    requires !o.disturbed && o.promises == 0 && other.name == o.name && other.sync == Decremented(o.sync, k)
    requires forall m :: 0 <= m < |o.tasks| ==> o.tasks[m].phase == START
    requires ActiveSet(o.tasks, 1) == {} && !TailPast(o.tasks, 1, MARK_TAIL)
    requires if k == 1 && o.tasks != [] then LastIter(o.tasks) == 1 && other.sync == Stuck(0, false) != o.sync else other.sync == o.sync
    ensures LateOp(Seen(o, other)) && (Seen(o, other).disturbed <==> k == 1 && o.tasks != [])
  {
  }

  lemma LateOpAfterWork(s: System, m: nat)
    requires SysInv(s) && LateInv(s) && |s.workers| == 1 && Possible(s, Work(0)) && m < |s.ops|
    ensures LateOp(After(s, Work(0)).ops[m])
  {
    var i := s.order[s.workers[0].value].op;
    assert NamesInv(s) && LateOp(s.ops[m]);
    if m == i {
      RunningAfterWork(s);
    } else if m > i && s.ops[m].name == s.ops[i].name {
      assert IsLate(s, 0, m);
      IsLatePair(s, m);
      NewRunAfterWork(s, m);
    }
  }

  /** A late task is done with its count-down. */
  lemma LateIsDone(s: System, j: nat)
    requires LatePair(s, j) && Possible(s, Work(0))
    ensures After(s, Work(0)).workers[0].None?
  {
    LateStepOne(s, j);
  }

  lemma LateBefore(s: System, w: nat, j: nat)
    requires PoolInv(s) && |s.workers| == 1 && Possible(s, Work(0)) && WellFormed(After(s, Work(0)))
    ensures IsLate(After(s, Work(0)), w, j) ==> IsLate(s, 0, j) && After(s, Work(0)).workers[0].Some?
  {
  }

  lemma NotYetAfterWork(s: System)
    requires SysInv(s) && LateInv(s) && |s.workers| == 1 && Possible(s, Work(0))
    ensures WellFormed(After(s, Work(0))) && NotYet(After(s, Work(0)))
  {
    WorkChanges(s, 0);
    forall w: nat, j: nat ensures !IsLate(After(s, Work(0)), w, j) {
      LateBefore(s, w, j);
      if IsLate(s, 0, j) {
        IsLatePair(s, j);
        LateIsDone(s, j);
      }
    }
  }

  lemma LateAfterWork(s: System)
    requires SysInv(s) && LateInv(s) && |s.workers| == 1 && Possible(s, Work(0))
    ensures WellFormed(After(s, Work(0))) && LateInv(After(s, Work(0)))
  {
    var s' := After(s, Work(0));
    NotYetAfterWork(s);
    forall m: nat | m < |s'.ops| ensures LateOp(s'.ops[m]) {
      LateOpAfterWork(s, m);
    }
    SameNames(s, s');
  }

  /** The order of runs depends on the names only. */
  lemma SameNames(s: System, s': System)
    requires RunsInOrder(s) && s'.order == s.order && |s.ops| <= |s'.ops|
    requires forall m :: 0 <= m < |s.ops| ==> s'.ops[m].name == s.ops[m].name
    requires forall p :: 0 <= p < |s.order| ==> s.order[p].op < |s.ops|
    ensures RunsInOrder(s')
  {
    forall p, q | 0 <= p < q < |s.order| && SameName(s', s.order[p].op, s.order[q].op) ensures s.order[p].op <= s.order[q].op {
      assert SameName(s, s.order[p].op, s.order[q].op);
    }
  }

  lemma LateAfterAdmit(s: System)
    requires SysInv(s) && LateInv(s) && Possible(s, Admit)
    ensures WellFormed(After(s, Admit)) && LateInv(After(s, Admit))
  {
    var i := s.scheduler.value;
    assert SchedulerHolds(s) && NamesInv(s) && FullInv(s.ops[i]) && Inv(s.ops[i]) && LateOp(s.ops[i]);
    WaitingIsOpen(s.ops[i]);
    AdmittedLate(s.ops[i]);
    AdmittedRuns(s);
    AdmitTasks(s);
    AdmittedOthers(s);
  }

  lemma AdmittedOthers(s: System)
    requires WellFormed(s) && NamesInv(s) && LateInv(s) && Possible(s, Admit) && WellFormed(After(s, Admit))
    requires s.ops[s.scheduler.value].promises == 0 && LateOp(Admitted(s.ops[s.scheduler.value]))
    ensures var s' := After(s, Admit); (forall m: nat :: m < |s'.ops| ==> LateOp(s'.ops[m])) && NotYet(s')
  {
    var s' := After(s, Admit);
    forall m: nat | m < |s'.ops| ensures LateOp(s'.ops[m]) && (s'.ops[m].disturbed ==> s.ops[m].disturbed) {
      assert LateOp(s.ops[m]);
    }
    forall w: nat, j: nat | IsLate(s', w, j) ensures !s'.ops[j].disturbed {
      assert IsLate(s, w, j);
    }
  }

  lemma AdmittedLate(o: Op)
    requires SchedulerInv(o) && LateOp(o) && CanAdmit(o) && o.promises == 0 && !Removed(o.tasks)
    ensures LateOp(Admitted(o))
  {
    var t := Admitted(o).tasks[|o.tasks|];
    assert Admitted(o).tasks == o.tasks + [t] && t.phase == START;
    AppendedPast(o.tasks, t, 1, MARK_TAIL);
    AppendedSets(o.tasks, t, 1);
  }

  lemma AdmittedRuns(s: System)
    requires WellFormed(s) && NamesInv(s) && RunsInOrder(s) && Possible(s, Admit) && s.ops[s.scheduler.value].promises == 0
    ensures RunsInOrder(After(s, Admit))
  {
    var s' := After(s, Admit);
    forall p, q | 0 <= p < q < |s'.order| && SameName(s', s'.order[p].op, s'.order[q].op) ensures s'.order[p].op <= s'.order[q].op {
      assert SameName(s, s'.order[p].op, s'.order[q].op);
    }
  }

  lemma LateAfterPop(s: System)
    requires SysInv(s) && LateInv(s) && |s.workers| == 1 && Possible(s, Pop(0))
    ensures LateInv(After(s, Pop(0)))
  {
    var s' := After(s, Pop(0));
    forall w: nat, j: nat ensures !IsLate(s', w, j) {
      QueuedIsCurrent(s, j);
    }
    SameNames(s, s');
  }

  /** An operation with a task in the queue is in progress: its last task waits there as well. */
  lemma QueuedIsOpen(s: System)
    requires PoolInv(s) && s.popped < |s.order| && PromiseInv(s.ops[s.order[s.popped].op])
    ensures s.ops[s.order[s.popped].op].promises == 0
  {
    var r := s.order[s.popped];
    var ts := s.ops[r.op].tasks;
    assert TaskRef(r.op, |ts| - 1) in s.order;
    var q: nat :| q < |s.order| && s.order[q] == TaskRef(r.op, |ts| - 1);
    assert q >= s.popped;
    assert TaskAt(s, q) == ts[|ts| - 1] && TaskAt(s, q).phase == START;
  }

  lemma QueuedIsCurrent(s: System, j: nat)
    requires SysInv(s) && s.popped < |s.order|
    ensures !(SameName(s, s.order[s.popped].op, j) && s.order[s.popped].op < j)
  {
    var i := s.order[s.popped].op;
    assert NamesInv(s) && PoolInv(s) && FullInv(s.ops[i]) && Inv(s.ops[i]) && PromiseInv(s.ops[i]);
    QueuedIsOpen(s);
  }

  lemma LateAfterOther(s: System, a: Action)
    requires WellFormed(s) && LateInv(s) && Possible(s, a) && (a.Start? || a.Stop? || a.Collect?)
    requires a.Start? ==> TablesOf(s.ops, a.name).0 == Fresh()
    ensures WellFormed(After(s, a)) && LateInv(After(s, a))
  {
    var s' := After(s, a);
    forall m: nat | m < |s'.ops|
      ensures LateOp(s'.ops[m])
      ensures if m < |s.ops| then s'.ops[m].disturbed == s.ops[m].disturbed && s'.ops[m].name == s.ops[m].name else !s'.ops[m].disturbed
    {
      if m < |s.ops| {
        assert LateOp(s.ops[m]);
      }
    }
    SameNames(s, s');
    forall w: nat, j: nat | IsLate(s', w, j) ensures !s'.ops[j].disturbed {
      if j < |s.ops| {
        assert IsLate(s, w, j);
      }
    }
  }

  lemma LateAfterStart(s: System, kind: SnapshotKind, name: nat)
    requires SysInv(s) && LateInv(s) && Possible(s, Start(kind, name))
    ensures WellFormed(After(s, Start(kind, name))) && LateInv(After(s, Start(kind, name)))
  {
    assert NamesInv(s);
    StartsFresh(s, name);
    LateAfterOther(s, Start(kind, name));
  }

  lemma LateAfter(s: System, a: Action)
    requires SysInv(s) && LateInv(s) && |s.workers| == 1 && Possible(s, a)
    ensures SysInv(After(s, a)) && LateInv(After(s, a)) && |After(s, a).workers| == 1
  {
    SysAfter(s, a);
    WorkersKept(s, a);
    match a
    case Admit => LateAfterAdmit(s);
    case Pop(_) => LateAfterPop(s);
    case Work(_) => LateAfterWork(s);
    case Start(kind, name) => LateAfterStart(s, kind, name);
    case _ => LateAfterOther(s, a);
  }

  /** A state of a run with one worker. */
  ghost predicate OneWorker(s: System) {
    SysInv(s) && LateInv(s) && |s.workers| == 1
  }

  lemma LateNext(s: System, s': System)
    requires OneWorker(s) && Next(s, s')
    ensures OneWorker(s')
  {
    var a :| Possible(s, a) && s' == After(s, a);
    LateAfter(s, a);
  }

  lemma LateRun(run: seq<System>, t: nat)
    requires IsRun(1, run) && t < |run|
    ensures OneWorker(run[t])
  {
    RunInv(1, run, 0);
    forall s, s' | OneWorker(s) && Next(s, s') ensures OneWorker(s') {
      LateNext(s, s');
    }
    Always(1, run, 0, t, s => OneWorker(s));
  }

  // ---------------------------------------------------------------- what one worker can and cannot do

  /**
    With one worker, the step of a late task changes the entry of the new run exactly if it counts down
    iteration 1 and the first iteration of the new run has begun.
   */
  lemma LateFinishIff(run: seq<System>, t: nat, j: nat)
    requires IsRun(1, run) && t < |run| && WellFormed(run[t]) && IsLate(run[t], 0, j) && Possible(run[t], Work(0))
    ensures After(run[t], Work(0)).ops[j].disturbed <==>
              TaskAt(run[t], run[t].workers[0].value).sub.iter == 1 && run[t].ops[j].tasks != []
  {
    LateRun(run, t);
    IsLatePair(run[t], j);
    NewRunAfterWork(run[t], j);
  }

  /** And from then on no iteration of the name can be acquired. */
  lemma DisturbedIsBlocked(run: seq<System>, t: nat)
    requires IsRun(1, run) && t < |run| && run[t].scheduler.Some? && run[t].scheduler.value < |run[t].ops|
    requires var o := run[t].ops[run[t].scheduler.value]; o.disturbed && o.waiting.Some? && o.waiting.value.parts.header
    ensures WellFormed(run[t]) && !Possible(run[t], Admit)
  {
    LateRun(run, t);
    var o := run[t].ops[run[t].scheduler.value];
    assert FullInv(o) && Inv(o) && LateOp(o);
    WaitingIsOpen(o);
  }

  /** Operation j is not disturbed, and no task of an earlier run of the name that is left can disturb it. */
  ghost predicate IsSafe(s: System, j: nat) {
    && j < |s.ops| && !s.ops[j].disturbed
    && forall i, k :: 0 <= i < j && s.ops[i].name == s.ops[j].name && 0 <= k < |s.ops[i].tasks| ==>
         s.ops[i].tasks[k].phase == DONE || s.ops[i].tasks[k].sub.iter != 1
  }

  lemma SafeSpread(s: System, i: nat, o': Op, s': System, j: nat)
    requires NamesInv(s) && IsSafe(s, j) && i < |s.ops| && s'.ops == Spread(s.ops, i, o')
    requires o'.name == s.ops[i].name && o'.disturbed == s.ops[i].disturbed
    requires i < j && s.ops[i].name == s.ops[j].name ==> !Seen(s.ops[j], o').disturbed
    requires i < j ==> |o'.tasks| == |s.ops[i].tasks| && forall k :: 0 <= k < |o'.tasks| ==>
               o'.tasks[k].sub == s.ops[i].tasks[k].sub && (s.ops[i].tasks[k].phase == DONE ==> o'.tasks[k].phase == DONE)
    ensures IsSafe(s', j)
  {
    assert s'.ops[j].disturbed == false;
    forall m, k | 0 <= m < j && s'.ops[m].name == s'.ops[j].name && 0 <= k < |s'.ops[m].tasks|
      ensures s'.ops[m].tasks[k].phase == DONE || s'.ops[m].tasks[k].sub.iter != 1
    {
      assert s.ops[m].tasks[k].phase == DONE || s.ops[m].tasks[k].sub.iter != 1;
    }
  }

  lemma SafeFromLate(s: System, j: nat)
    requires LatePair(s, j) && IsSafe(s, j) && Possible(s, Work(0))
    ensures !After(s, Work(0)).ops[j].disturbed
  {
    LateStepOne(s, j);
    NewRunAfterWork(s, j);
  }

  lemma SafeWork(s: System, j: nat)
    requires WellFormed(s) && NamesInv(s) && |s.workers| == 1 && IsSafe(s, j) && Possible(s, Work(0))
    requires IsLate(s, 0, j) ==> !After(s, Work(0)).ops[j].disturbed
    ensures IsSafe(After(s, Work(0)), j)
  {
    var r := s.order[s.workers[0].value];
    AdvancedMoves(s.ops[r.op], r.task);
    assert r.op < j && s.ops[r.op].name == s.ops[j].name ==> IsLate(s, 0, j);
    SafeSpread(s, r.op, Stepped(s.ops[r.op], r.task), After(s, Work(0)), j);
  }

  lemma SafeAfterWork(s: System, j: nat)
    requires SysInv(s) && LateInv(s) && |s.workers| == 1 && IsSafe(s, j) && Possible(s, Work(0))
    ensures IsSafe(After(s, Work(0)), j)
  {
    if IsLate(s, 0, j) {
      IsLatePair(s, j);
      SafeFromLate(s, j);
    }
    SafeWork(s, j);
  }

  lemma SafeAfterPass(s: System, a: Action, j: nat)
    requires WellFormed(s) && IsSafe(s, j) && Possible(s, a) && !a.Work? && !a.Admit?
    ensures IsSafe(After(s, a), j)
  {
    SafeSame(s, After(s, a), j);
  }

  lemma SafeAfter(s: System, a: Action, j: nat)
    requires OneWorker(s) && IsSafe(s, j) && Possible(s, a)
    ensures IsSafe(After(s, a), j)
  {
    if a.Work? {
      SafeAfterWork(s, j);
    } else if a.Admit? {
      SafeAfterAdmit(s, j);
    } else {
      SafeAfterPass(s, a, j);
    }
  }

  lemma SafeSame(s: System, s': System, j: nat)
    requires IsSafe(s, j) && |s.ops| <= |s'.ops|
    requires forall i :: 0 <= i < |s.ops| ==>
               s'.ops[i].name == s.ops[i].name && s'.ops[i].tasks == s.ops[i].tasks && s'.ops[i].disturbed == s.ops[i].disturbed
    ensures IsSafe(s', j)
  {
  }

  lemma SafeAfterAdmit(s: System, j: nat)
    requires SysInv(s) && IsSafe(s, j) && Possible(s, Admit)
    ensures IsSafe(After(s, Admit), j)
  {
    var i := s.scheduler.value;
    assert SchedulerHolds(s) && FullInv(s.ops[i]) && Inv(s.ops[i]);
    WaitingIsOpen(s.ops[i]);
    AdmitIsLatest(s, i, Admitted(s.ops[i]), After(s, Admit), j);
  }

  lemma AdmitIsLatest(s: System, i: nat, o': Op, s': System, j: nat)
    requires NamesInv(s) && IsSafe(s, j) && i < |s.ops| && s.ops[i].promises == 0 && s'.ops == Spread(s.ops, i, o')
    requires o'.name == s.ops[i].name && o'.disturbed == s.ops[i].disturbed
    ensures IsSafe(s', j)
  {
    forall m, k | 0 <= m < j && s'.ops[m].name == s'.ops[j].name && 0 <= k < |s'.ops[m].tasks|
      ensures s'.ops[m].tasks[k].phase == DONE || s'.ops[m].tasks[k].sub.iter != 1
    {
      assert s.ops[m].name == s.ops[j].name && m != i && s'.ops[m].tasks == s.ops[m].tasks;
    }
  }

  lemma SafeNext(s: System, s': System, j: nat)
    requires OneWorker(s) && IsSafe(s, j) && Next(s, s')
    ensures OneWorker(s') && IsSafe(s', j)
  {
    LateNext(s, s');
    var a :| Possible(s, a) && s' == After(s, a);
    SafeAfter(s, a, j);
  }

  lemma StaysSafe(run: seq<System>, t: nat, u: nat, j: nat)
    requires IsRun(1, run) && t <= u < |run| && IsSafe(run[t], j)
    ensures IsSafe(run[u], j)
  {
    LateRun(run, t);
    forall s, s' | OneWorker(s) && IsSafe(s, j) && Next(s, s') ensures OneWorker(s') && IsSafe(s', j) {
      SafeNext(s, s', j);
    }
    Always(1, run, t, u, s => OneWorker(s) && IsSafe(s, j));
  }
}
