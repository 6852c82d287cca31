/**
  The engine cannot get stuck: the earliest unfinished task is never blocked for good, and however
  the workers are scheduled, a scheduler thread waiting in acquireIteration gets its iteration.
 */
module SnapshotProgress {
  import opened Types
  import opened IterationSync
  import opened IterationGates
  import opened SnapshotProtocol
  import opened SnapshotInvariant
  import opened SnapshotOrder
  import opened SnapshotEngine
  import opened SnapshotTheorems

  /** A step of the pool: it needs no command, no new event and no scheduler pass. */
  predicate IsPoolAction(a: Action) {
    a.Pop? || a.Work?
  }

  /** Nothing is left to do in the pool. */
  ghost predicate Quiescent(s: System)
    requires WellFormed(s)
  {
    s.popped == |s.order| && forall p: nat :: p < |s.order| ==> TaskAt(s, p).phase == DONE
  }

  // ---------------------------------------------------------------- the earliest unfinished task

  ghost predicate Earliest(s: System, p: nat)
    requires WellFormed(s)
  {
    p < |s.order| && TaskAt(s, p).phase != DONE && forall q: nat :: q < p ==> TaskAt(s, q).phase == DONE
  }

  lemma {:induction false} EarliestExists(s: System, p: nat) returns (e: nat)
    requires WellFormed(s) && p < |s.order| && TaskAt(s, p).phase != DONE
    ensures Earliest(s, e) && e <= p
    decreases p
  {
    if q: nat :| q < p && TaskAt(s, q).phase != DONE {
      e := EarliestExists(s, q);
    } else {
      e := p;
    }
  }

  /** Every earlier task of the same snapshot is done. */
  lemma EarlierDone(s: System, e: nat, j: nat)
    requires PoolInv(s) && Earliest(s, e) && j < s.order[e].task
    ensures s.ops[s.order[e].op].tasks[j].phase == DONE
  {
    var r := s.order[e];
    assert TaskRef(r.op, j) in s.order;
    var q: nat :| q < |s.order| && s.order[q] == TaskRef(r.op, j);
    assert TaskAt(s, q).phase == DONE;
  }

  /** Its header is out and its data is drained, so neither wait of the task blocks. */
  lemma GatesPass(o: Op, j: nat)
    requires SchedulerInv(o) && GateInv(o.tasks, o.gates) && j < |o.tasks|
    requires forall i :: 0 <= i < j ==> o.tasks[i].phase == DONE
    ensures o.tasks[j].phase == AWAIT_GATE ==> HeaderPassed(o.gates, o.tasks[j].sub.iter)
    ensures o.tasks[j].phase == AWAIT_DRAIN && o.tasks[j].sub.parts.tail ==> Drained(o.gates, o.tasks[j].sub.iter)
  {
    if o.tasks[j].phase == AWAIT_GATE {
      var h := HeaderOf(o.tasks, j);
      assert HeaderPast(o.tasks, o.tasks[j].sub.iter, OPEN_GATE);
    }
    if o.tasks[j].phase == AWAIT_DRAIN && o.tasks[j].sub.parts.tail {
      DrainedAtTail(o.tasks, j);
    }
  }

  lemma DrainedAtTail(ts: seq<Task>, j: nat)
    requires Bracketed(ts) && j < |ts| && ts[j].sub.parts.tail && ts[j].phase == AWAIT_DRAIN
    requires forall i :: 0 <= i < j ==> ts[i].phase == DONE
    ensures PendingSet(ts, ts[j].sub.iter) == {}
  {
    forall i | j < i < |ts| ensures ts[i].sub.iter != ts[j].sub.iter {
    }
  }

  /** The next section of this task waits for the mutex of the synchronizer, which another worker holds shared. */
  predicate WaitsForMutex(s: System, t: Task) {
    IsExclusive(t) && Reading(s)
  }

  /** A worker has the task at p and can take its next step. */
  ghost predicate HeldAndFree(s: System, p: nat)
    requires WellFormed(s)
  {
    exists w: nat :: w < |s.workers| && s.workers[w] == Some(p) && Possible(s, Work(w))
  }

  /**
    The earliest unfinished task is never blocked: its worker can take its next step, unless that waits
    for a mutex, and then another worker that holds it can; or, when it is the next in the pool's
    queue, all workers are free to take it.
   */
  lemma EarliestMoves(s: System, e: nat)
    requires SysInv(s) && |s.workers| >= 1 && Earliest(s, e)
    ensures e < s.popped ==> HeldAndFree(s, e) || (WaitsForMutex(s, TaskAt(s, e)) && exists v: nat :: Possible(s, Work(v)))
    ensures e >= s.popped ==> e == s.popped && forall w: nat :: w < |s.workers| ==> Possible(s, Pop(w))
  {
    if e < s.popped {
      var w := PoppedMoves(s, e);
      if Reading(s) {
        var v := ReaderMoves(s);
      }
    } else {
      QueuedMoves(s, e);
    }
  }

  /** A worker between the two accesses of finishTask waits for nothing. */
  lemma ReaderMoves(s: System) returns (w: nat)
    requires PoolInv(s) && Reading(s)
    ensures w < |s.workers| && Possible(s, Work(w))
  {
    var i, j :| 0 <= i < |s.ops| && 0 <= j < |s.ops[i].tasks| && s.ops[i].tasks[j].phase == CHECK;
    assert TaskRef(i, j) in s.order;
    var p: nat :| p < |s.order| && s.order[p] == TaskRef(i, j);
    assert TaskAt(s, p).phase == CHECK;
    w :| w < |s.workers| && s.workers[w] == Some(p);
  }

  lemma QueuedMoves(s: System, e: nat)
    requires PoolInv(s) && Earliest(s, e) && e >= s.popped
    ensures e == s.popped && forall w: nat :: w < |s.workers| ==> Possible(s, Pop(w))
  {
    assert s.popped < |s.order| && TaskAt(s, s.popped).phase == START;
    forall w: nat | w < |s.workers| ensures s.workers[w].None? {
    }
  }

  /** No gate keeps it from its next section. */
  lemma EarliestEnabled(s: System, e: nat)
    requires OpsInv(s) && PoolInv(s) && Earliest(s, e)
    ensures var r := s.order[e]; Enabled(s.ops[r.op], r.task)
  {
    var r := s.order[e];
    var o := s.ops[r.op];
    assert FullInv(o) && Inv(o) && SchedulerInv(o);
    forall j: nat | j < r.task ensures o.tasks[j].phase == DONE {
      EarlierDone(s, e, j);
    }
    GatesPass(o, r.task);
  }

  lemma PoppedMoves(s: System, e: nat) returns (w: nat)
    requires OpsInv(s) && PoolInv(s) && Earliest(s, e) && e < s.popped
    ensures w < |s.workers| && s.workers[w] == Some(e) && (Possible(s, Work(w)) || WaitsForMutex(s, TaskAt(s, e)))
  {
    w :| w < |s.workers| && s.workers[w] == Some(e);
    EarliestEnabled(s, e);
  }

  /** With at least one worker the pool can always move until everything submitted is done. */
  lemma NoDeadlock(n: nat, run: seq<System>, t: nat)
    requires n >= 1 && IsRun(n, run) && t < |run|
    ensures WellFormed(run[t])
    ensures Quiescent(run[t]) || exists a :: IsPoolAction(a) && Possible(run[t], a)
  {
    RunInv(n, run, t);
    var a := PoolMoves(run[t]);
  }

  lemma PoolMoves(s: System) returns (a: Action)
    requires SysInv(s) && |s.workers| >= 1
    ensures Quiescent(s) || (IsPoolAction(a) && Possible(s, a))
  {
    a := Admit;
    if !Quiescent(s) {
      var p: nat :| p < |s.order| && TaskAt(s, p).phase != DONE;
      var e := EarliestExists(s, p);
      EarliestMoves(s, e);
      if e < s.popped {
        var w: nat :| Possible(s, Work(w));
        a := Work(w);
      } else {
        a := Pop(0);
      }
    }
  }

  // ---------------------------------------------------------------- the measure

  function Remaining(t: Task): nat {
    DONE - t.phase + if t.sent <= |t.sub.events| then |t.sub.events| - t.sent else 0
  }

  function RemainingUpTo(s: System, p: nat): nat
    requires WellFormed(s) && p <= |s.order|
  {
    if p == 0 then 0 else RemainingUpTo(s, p - 1) + Remaining(TaskAt(s, p - 1))
  }

  /** How many steps the pool can still make. */
  function Measure(s: System): nat
    requires WellFormed(s)
  {
    |s.order| - s.popped + RemainingUpTo(s, |s.order|)
  }

  lemma {:induction false} RemainingChanges(s: System, s': System, p: nat, upTo: nat)
    requires WellFormed(s) && WellFormed(s') && s'.order == s.order && p < |s.order| && upTo <= |s.order|
    requires forall q: nat :: q < |s.order| && q != p ==> TaskAt(s', q) == TaskAt(s, q)
    ensures RemainingUpTo(s', upTo) == RemainingUpTo(s, upTo)
              + if p < upTo then Remaining(TaskAt(s', p)) - Remaining(TaskAt(s, p)) else 0
  {
    if upTo > 0 {
      RemainingChanges(s, s', p, upTo - 1);
    }
  }

  lemma {:induction false} RemainingSame(s: System, s': System, upTo: nat)
    requires WellFormed(s) && WellFormed(s') && s'.order == s.order && s'.ops == s.ops && upTo <= |s.order|
    ensures RemainingUpTo(s', upTo) == RemainingUpTo(s, upTo)
  {
    if upTo > 0 {
      RemainingSame(s, s', upTo - 1);
    }
  }

  lemma PoolStepDecreases(s: System, a: Action)
    requires SysInv(s) && IsPoolAction(a) && Possible(s, a)
    ensures WellFormed(After(s, a)) && Measure(After(s, a)) < Measure(s)
  {
    SysAfter(s, a);
    match a
    case Pop(_) => RemainingSame(s, After(s, a), |s.order|);
    case Work(w) =>
      var p := s.workers[w].value;
      WorkChanges(s, w);
      RemainingChanges(s, After(s, a), p, |s.order|);
      assert FullInv(s.ops[s.order[p].op]) && SchedulerInv(s.ops[s.order[p].op]);
      assert TaskOk(TaskAt(s, p));
      TaskShrinks(s.ops[s.order[p].op], s.order[p].task);
  }

  lemma TaskShrinks(o: Op, j: nat)
    requires j < |o.tasks| && Enabled(o, j) && TaskOk(o.tasks[j])
    ensures Remaining(Advanced(o, j)[j]) < Remaining(o.tasks[j])
  {
  }

  // ---------------------------------------------------------------- the wait of the scheduler thread ends

  lemma PoolStepKeeps(s: System, a: Action)
    requires SysInv(s) && IsPoolAction(a) && Possible(s, a)
    ensures var s' := After(s, a); SysInv(s') && |s'.workers| == |s.workers| && s'.scheduler == s.scheduler
  {
    SysAfter(s, a);
  }

  /** s' is reached from s by the given pool steps, in any order of workers. */
  ghost predicate Schedule(s: System, steps: seq<Action>, s': System)
    decreases |steps|
  {
    if steps == [] then s' == s
    else WellFormed(s) && IsPoolAction(steps[0]) && Possible(s, steps[0]) && Schedule(After(s, steps[0]), steps[1..], s')
  }

  lemma {:induction false} ScheduleEnds(s: System, steps: seq<Action>, s': System)
    requires SysInv(s) && Schedule(s, steps, s')
    ensures SysInv(s') && |s'.workers| == |s.workers| && s'.scheduler == s.scheduler
    ensures |steps| + Measure(s') <= Measure(s)
    decreases |steps|
  {
    if steps != [] {
      PoolStepKeeps(s, steps[0]);
      PoolStepDecreases(s, steps[0]);
      ScheduleEnds(After(s, steps[0]), steps[1..], s');
    }
  }

  /** When the pool is quiescent, the lock a new iteration waits for is free, unless an earlier run of the name has disturbed it. */
  lemma QuiescentIsFree(s: System)
    requires SysInv(s) && Quiescent(s) && s.scheduler.Some? && !s.ops[s.scheduler.value].disturbed
    ensures Possible(s, Admit)
  {
    var o := s.ops[s.scheduler.value];
    assert FullInv(o) && Inv(o) && SchedulerInv(o);
    forall i: nat, j: nat | i < |s.ops| && j < |s.ops[i].tasks| ensures s.ops[i].tasks[j].phase == DONE {
      QuietTask(s, i, j);
    }
    assert SchedulerHolds(s);
    WaitingIsOpen(o);
    DoneIsFree(o);
  }

  lemma DoneIsFree(o: Op)
    requires SchedulerInv(o) && LockTable(o.tasks, o.sync) && o.waiting.Some?
    requires forall j :: 0 <= j < |o.tasks| ==> o.tasks[j].phase == DONE
    ensures CanAdmit(o)
  {
    assert ActiveSet(o.tasks, o.sync.current) == {};
    assert o.sync.inProgress ==> EntryOk(o.tasks, o.sync.current, o.sync.states[o.sync.current]);
    assert o.tasks != [] && o.tasks[|o.tasks| - 1].sub.parts.tail ==> TailPast(o.tasks, LastIter(o.tasks), MARK_TAIL);
  }

  /** Pool steps, chosen in any way, run out after at most Measure steps. */
  lemma PoolStepsEnd(n: nat, run: seq<System>, t: nat, steps: seq<Action>, s': System)
    requires IsRun(n, run) && t < |run| && Schedule(run[t], steps, s')
    ensures WellFormed(run[t]) && |steps| <= Measure(run[t])
  {
    RunInv(n, run, t);
    ScheduleEnds(run[t], steps, s');
  }

  /**
    A waiting scheduler thread is released: when the pool has no step left, its wait is over, or a
    task of an earlier run of the name has changed the entry it waits for.
   */
  lemma SchedulerIsReleased(n: nat, run: seq<System>, t: nat, steps: seq<Action>, s': System)
    requires n >= 1 && IsRun(n, run) && t < |run| && run[t].scheduler.Some? && Schedule(run[t], steps, s')
    ensures WellFormed(s') && s'.scheduler == run[t].scheduler
    ensures || (exists a :: IsPoolAction(a) && Possible(s', a))
            || Possible(s', Admit)
            || s'.ops[run[t].scheduler.value].disturbed
  {
    RunInv(n, run, t);
    ScheduleEnds(run[t], steps, s');
    var a := PoolMoves(s');
    if Quiescent(s') && !s'.ops[s'.scheduler.value].disturbed {
      QuiescentIsFree(s');
    }
  }

  /** Once a stopped snapshot's last submission is in the pool and the pool has run dry, the stop was answered. */
  lemma StopIsAnswered(n: nat, run: seq<System>, t: nat, i: nat)
    requires IsRun(n, run) && t < |run| && i < |run[t].ops|
    requires WellFormed(run[t]) && Quiescent(run[t]) && !run[t].ops[i].listed && run[t].ops[i].waiting.None?
    ensures run[t].ops[i].promises == 1
  {
    RunInv(n, run, t);
    AnsweredWhenQuiet(run[t], i);
  }

  lemma AnsweredWhenQuiet(s: System, i: nat)
    requires SysInv(s) && Quiescent(s) && i < |s.ops| && !s.ops[i].listed && s.ops[i].waiting.None?
    ensures s.ops[i].promises == 1
  {
    var o := s.ops[i];
    assert FullInv(o) && SchedulerInv(o) && PromiseInv(o);
    QuietTask(s, i, |o.tasks| - 1);
  }

  lemma QuietTask(s: System, i: nat, j: nat)
    requires PoolInv(s) && Quiescent(s) && i < |s.ops| && j < |s.ops[i].tasks|
    ensures s.ops[i].tasks[j].phase == DONE
  {
    assert TaskRef(i, j) in s.order;
    var q: nat :| q < |s.order| && s.order[q] == TaskRef(i, j);
    assert TaskAt(s, q).phase == DONE;
  }

  // ---------------------------------------------------------------- the stop protocol can always get to its end

  /** No operation is disturbed, and no task of an earlier run of a name is left to disturb one. */
  ghost predicate Calm(s: System) {
    && (forall i :: 0 <= i < |s.ops| ==> !s.ops[i].disturbed)
    && (forall i, j, k :: 0 <= i < j < |s.ops| && s.ops[i].name == s.ops[j].name && 0 <= k < |s.ops[i].tasks| ==>
          s.ops[i].tasks[k].phase == DONE)
  }

  lemma CalmSpread(s: System, i: nat, o': Op, s': System)
    requires NamesInv(s) && Calm(s) && i < |s.ops| && s'.ops == Spread(s.ops, i, o')
    requires o'.name == s.ops[i].name && !o'.disturbed
    requires forall j :: i < j < |s.ops| ==> s.ops[j].name != s.ops[i].name
    ensures Calm(s')
  {
  }

  lemma CalmAfterWork(s: System, w: nat)
    requires SysInv(s) && Calm(s) && Possible(s, Work(w))
    ensures Calm(After(s, Work(w)))
  {
    var r := s.order[s.workers[w].value];
    assert s.ops[r.op].tasks[r.task].phase != DONE;
    CalmSpread(s, r.op, Stepped(s.ops[r.op], r.task), After(s, Work(w)));
  }

  lemma CalmAfterAdmit(s: System)
    requires SysInv(s) && Calm(s) && Possible(s, Admit)
    ensures Calm(After(s, Admit))
  {
    var i := s.scheduler.value;
    assert SchedulerHolds(s) && FullInv(s.ops[i]) && Inv(s.ops[i]);
    WaitingIsOpen(s.ops[i]);
    CalmSpread(s, i, Admitted(s.ops[i]), After(s, Admit));
  }

  lemma CalmAfterPass(s: System, a: Action)
    requires WellFormed(s) && Calm(s) && Possible(s, a) && (a.Stop? || a.Collect? || a.Pop?)
    ensures Calm(After(s, a))
  {
    CalmSame(s, After(s, a));
  }

  lemma CalmSame(s: System, s': System)
    requires Calm(s) && |s'.ops| == |s.ops|
    requires forall i :: 0 <= i < |s.ops| ==>
               s'.ops[i].name == s.ops[i].name && s'.ops[i].tasks == s.ops[i].tasks && s'.ops[i].disturbed == s.ops[i].disturbed
    ensures Calm(s')
  {
  }

  lemma CalmAfter(s: System, a: Action)
    requires SysInv(s) && Calm(s) && Possible(s, a) && !a.Start?
    ensures Calm(After(s, a))
  {
    match a
    case Work(w) => CalmAfterWork(s, w);
    case Admit => CalmAfterAdmit(s);
    case _ => CalmAfterPass(s, a);
  }

  /** s' is reached from s by the given actions, none of which starts a snapshot. */
  ghost predicate Path(s: System, actions: seq<Action>, s': System)
    decreases |actions|
  {
    if actions == [] then s' == s
    else WellFormed(s) && !actions[0].Start? && Possible(s, actions[0]) && Path(After(s, actions[0]), actions[1..], s')
  }

  /** How many of the actions are not steps of the pool. */
  function PassActions(actions: seq<Action>): nat {
    if actions == [] then 0 else (if IsPoolAction(actions[0]) then 0 else 1) + PassActions(actions[1..])
  }

  lemma PathFrom(s: System, a: Action, actions: seq<Action>, s': System)
    requires WellFormed(s) && !a.Start? && Possible(s, a) && Path(After(s, a), actions, s')
    ensures Path(s, [a] + actions, s') && PassActions([a] + actions) == PassActions(actions) + if IsPoolAction(a) then 0 else 1
  {
    assert ([a] + actions)[1..] == actions;
  }

  lemma PathJoins(s: System, a: Action, rest: seq<Action>, b: seq<Action>, s': System)
    requires WellFormed(s) && !a.Start? && Possible(s, a) && Path(After(s, a), rest + b, s')
    requires PassActions(rest + b) == PassActions(rest) + PassActions(b)
    ensures Path(s, [a] + rest + b, s') && PassActions([a] + rest + b) == PassActions([a] + rest) + PassActions(b)
  {
    PathFrom(s, a, rest + b, s');
    assert [a] + rest + b == [a] + (rest + b) && ([a] + rest)[1..] == rest;
  }

  lemma {:induction false} PathConcat(s: System, a: seq<Action>, s': System, b: seq<Action>, s'': System)
    requires Path(s, a, s') && Path(s', b, s'')
    ensures Path(s, a + b, s'') && PassActions(a + b) == PassActions(a) + PassActions(b)
    decreases |a|
  {
    if a == [] {
      assert a + b == b;
    } else {
      var first, rest := a[0], a[1..];
      assert a == [first] + rest;
      PathConcat(After(s, first), rest, s', b, s'');
      PathJoins(s, first, rest, b, s'');
    }
  }

  lemma {:induction false} PathKeeps(s: System, actions: seq<Action>, s': System)
    requires SysInv(s) && Calm(s) && Path(s, actions, s')
    ensures SysInv(s') && Calm(s') && |s'.workers| == |s.workers|
    decreases |actions|
  {
    if actions != [] {
      SysAfter(s, actions[0]);
      CalmAfter(s, actions[0]);
      WorkersKept(s, actions[0]);
      PathKeeps(After(s, actions[0]), actions[1..], s');
    }
  }

  /** What pool steps leave alone. */
  ghost predicate SamePass(s: System, s': System) {
    && s'.scheduler == s.scheduler && |s'.ops| == |s.ops|
    && forall i :: 0 <= i < |s.ops| ==>
         s'.ops[i].listed == s.ops[i].listed && s'.ops[i].running == s.ops[i].running && s'.ops[i].waiting == s.ops[i].waiting
  }

  lemma {:induction false} ScheduleIsPath(s: System, steps: seq<Action>, s': System)
    requires Schedule(s, steps, s')
    ensures Path(s, steps, s') && PassActions(steps) == 0 && SamePass(s, s')
    decreases |steps|
  {
    if steps != [] {
      ScheduleIsPath(After(s, steps[0]), steps[1..], s');
    }
  }

  /** The pool can run dry. */
  lemma {:induction false} Drain(s: System) returns (steps: seq<Action>, s': System)
    requires SysInv(s) && |s.workers| >= 1
    ensures Schedule(s, steps, s') && WellFormed(s') && Quiescent(s')
    decreases Measure(s)
  {
    var a := PoolMoves(s);
    if Quiescent(s) {
      steps, s' := [], s;
    } else {
      PoolStepKeeps(s, a);
      PoolStepDecreases(s, a);
      steps, s' := Drain(After(s, a));
      steps := [a] + steps;
    }
  }

  /** The scheduler thread hands over what it holds and the pool runs dry. */
  lemma HandOver(s: System, i: nat) returns (actions: seq<Action>, s': System)
    requires SysInv(s) && Calm(s) && |s.workers| >= 1 && i < |s.ops|
    ensures Path(s, actions, s') && PassActions(actions) <= 1 && WellFormed(s') && Quiescent(s') && s'.scheduler.None?
    ensures |s'.ops| == |s.ops| && s'.ops[i].listed == s.ops[i].listed && s'.ops[i].running == s.ops[i].running
  {
    var dry;
    actions, dry := DrainPath(s, i);
    if dry.scheduler.None? {
      s' := dry;
    } else {
      PathKeeps(s, actions, dry);
      QuiescentIsFree(dry);
      var more;
      more, s' := AdmitAndDrain(dry, i);
      PathConcat(s, actions, dry, more, s');
      actions := actions + more;
    }
  }

  lemma AdmitFrame(s: System, i: nat)
    requires WellFormed(s) && Possible(s, Admit) && i < |s.ops|
    ensures var s' := After(s, Admit);
            && s'.scheduler.None? && |s'.ops| == |s.ops|
            && s'.ops[i].listed == s.ops[i].listed && s'.ops[i].running == s.ops[i].running
  {
  }

  lemma DrainPath(s: System, i: nat) returns (steps: seq<Action>, s': System)
    requires SysInv(s) && Calm(s) && |s.workers| >= 1 && i < |s.ops|
    ensures Path(s, steps, s') && PassActions(steps) == 0 && WellFormed(s') && Quiescent(s') && s'.scheduler == s.scheduler
    ensures |s'.ops| == |s.ops| && s'.ops[i].listed == s.ops[i].listed && s'.ops[i].running == s.ops[i].running
  {
    steps, s' := Drain(s);
    ScheduleIsPath(s, steps, s');
  }

  lemma AdmitAndDrain(s: System, i: nat) returns (actions: seq<Action>, s': System)
    requires SysInv(s) && Calm(s) && |s.workers| >= 1 && i < |s.ops| && Possible(s, Admit)
    ensures Path(s, actions, s') && PassActions(actions) == 1 && WellFormed(s') && Quiescent(s') && s'.scheduler.None?
    ensures |s'.ops| == |s.ops| && s'.ops[i].listed == s.ops[i].listed && s'.ops[i].running == s.ops[i].running
  {
    var next := After(s, Admit);
    AdmitFrame(s, i);
    SysAfter(s, Admit);
    CalmAfter(s, Admit);
    WorkersKept(s, Admit);
    var steps;
    steps, s' := DrainPath(next, i);
    PathFrom(s, Admit, steps, s');
    actions := [Admit] + steps;
  }

  /**
    From any reachable calm state after a stop the promise can be set: by pool steps and at most three
    actions of the scheduler thread, one of them the pass over the stopped snapshot.
   */
  lemma StopCanBeAnswered(n: nat, run: seq<System>, t: nat, i: nat) returns (actions: seq<Action>, s': System)
    requires n >= 1 && IsRun(n, run) && t < |run| && Calm(run[t]) && i < |run[t].ops| && !run[t].ops[i].running
    ensures Path(run[t], actions, s') && PassActions(actions) <= 3
    ensures i < |s'.ops| && s'.ops[i].promises == 1
  {
    RunInv(n, run, t);
    actions, s' := HandOver(run[t], i);
    PathKeeps(run[t], actions, s');
    if s'.ops[i].listed {
      var more, last := LastPass(s', i);
      PathConcat(run[t], actions, s', more, last);
      actions, s' := actions + more, last;
    } else {
      Answered(s', i);
    }
  }

  lemma Answered(s: System, i: nat)
    requires SysInv(s) && Quiescent(s) && s.scheduler.None? && i < |s.ops| && !s.ops[i].listed
    ensures s.ops[i].promises == 1
  {
    assert SchedulerHolds(s);
    AnsweredWhenQuiet(s, i);
  }

  lemma LastPass(s: System, i: nat) returns (actions: seq<Action>, s': System)
    requires SysInv(s) && Calm(s) && |s.workers| >= 1 && s.scheduler.None? && i < |s.ops| && s.ops[i].listed && !s.ops[i].running
    ensures Path(s, actions, s') && PassActions(actions) <= 2
    ensures i < |s'.ops| && s'.ops[i].promises == 1
  {
    assert SchedulerHolds(s);
    var collected := After(s, Collect(i, false, []));
    SysAfter(s, Collect(i, false, []));
    CalmAfter(s, Collect(i, false, []));
    actions, s' := HandOver(collected, i);
    PathKeeps(collected, actions, s');
    Answered(s', i);
    PathFrom(s, Collect(i, false, []), actions, s');
    actions := [Collect(i, false, [])] + actions;
  }
}
