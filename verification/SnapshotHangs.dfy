/**
  Runs in which a snapshot is started again before the last task of its earlier run has counted down,
  and the scheduler thread ends up waiting for an iteration that is never released.
 */
module SnapshotHangs {
  import opened Types
  import opened IterationSync
  import opened IterationGates
  import opened SnapshotProtocol
  import opened SnapshotInvariant
  import opened SnapshotEngine
  import opened SnapshotRaces
  import opened SnapshotProgress
  import opened SnapshotRestart

  // ---------------------------------------------------------------- NORMAL iterations without events

  function Full(k: nat, last: bool): Submission {
    Submission(Parts(true, true, true), [], k, last)
  }

  function Held(k: nat, active: int, tail: bool): NameSync {
    NameSync(k, true, true, map[k := IterationState(active, tail)])
  }

  ghost predicate AllDone(ts: seq<Task>) {
    forall k :: 0 <= k < |ts| ==> ts[k].phase == DONE
  }

  /** All operations have one name, i is the latest and NORMAL, and the scheduler thread is free. */
  ghost predicate Common(s: System, i: nat) {
    && WellFormed(s) && i + 1 == |s.ops| && s.scheduler.None?
    && (forall m, k :: 0 <= m < i && 0 <= k < |s.ops[m].tasks| ==> s.ops[m].tasks[k].phase != CHECK)
    && OthersRetired(s.ops, i)
    && (forall m :: 0 <= m < |s.ops| ==>
          s.ops[m].name == 0 && s.ops[m].sync == s.ops[i].sync && s.ops[m].counters == s.ops[i].counters)
    && s.ops[i].kind.Normal? && s.ops[i].waiting.None? && !s.ops[i].headerSent
  }

  /** It has completed m iterations. */
  ghost predicate Idle(s: System, i: nat, m: nat, live: bool) {
    && Common(s, i) && s.popped == |s.order|
    && var o := s.ops[i];
    && o.listed && o.running == live && o.promises == 0
    && |o.tasks| == m && AllDone(o.tasks)
    && o.sync == NameSync(m, false, m > 0, map[]) && o.gates == map[]
  }

  /** Iteration m + 1 is under way: its task is in that section, and its entry has that count. */
  ghost predicate Underway(s: System, i: nat, m: nat, last: bool, phase: Phase, sync: NameSync) {
    && Common(s, i) && s.order != [] && s.order[|s.order| - 1] == TaskRef(i, m)
    && var o := s.ops[i];
    && o.listed == o.running == !last
    && |o.tasks| == m + 1 && o.tasks[m] == Task(Full(m + 1, last), phase, 0) && AllDone(o.tasks[..m])
    && o.sync == sync
    && (phase <= OPEN_GATE ==> o.gates == map[m + 1 := Gate(false, 0)]) && (phase > AWAIT_DRAIN ==> o.gates == map[])
    && o.promises == if last && phase > PROMISE then 1 else 0
  }

  lemma NotReading(s: System, i: nat, m: nat, last: bool, phase: Phase, sync: NameSync)
    requires Underway(s, i, m, last, phase, sync) && phase != CHECK
    ensures !Reading(s)
  {
    var ts := s.ops[i].tasks;
    forall k: nat | k < |ts| ensures ts[k].phase != CHECK {
      assert k < m ==> ts[..m][k] == ts[k];
    }
  }

  lemma IdleIsQuiet(s: System, i: nat, m: nat, live: bool)
    requires Idle(s, i, m, live)
    ensures !Reading(s)
  {
    assert AllDone(s.ops[i].tasks);
  }

  ghost predicate OnWorker(s: System, w: nat) {
    w < |s.workers| && s.popped == |s.order| && s.order != [] && s.workers[w] == Some(|s.order| - 1)
  }

  /** What stays the same when only operation i and worker w move. */
  ghost predicate Kept(s: System, s': System, i: nat, w: nat) {
    && |s'.ops| == |s.ops| && |s'.workers| == |s.workers| && s.order <= s'.order
    && (forall m :: 0 <= m < |s.ops| && m != i ==> s'.ops[m].tasks == s.ops[m].tasks && s'.ops[m].promises == s.ops[m].promises)
    && (forall v :: 0 <= v < |s.workers| && v != w ==> s'.workers[v] == s.workers[v])
  }

  /** The next iteration is collected. */
  ghost predicate Pending(s: System, s': System, i: nat, m: nat, live: bool) {
    && s'.scheduler == Some(i) && s'.order == s.order && s'.popped == s.popped && s'.workers == s.workers && |s'.ops| == |s.ops|
    && (forall k :: 0 <= k < |s.ops| && k != i ==> s'.ops[k] == s.ops[k])
    && i < |s.ops| && s'.ops[i] == s.ops[i].(waiting := Some(Full(0, !live)), listed := live)
  }

  lemma CollectNext(s: System, i: nat, m: nat, live: bool)
    requires Idle(s, i, m, live)
    ensures Possible(s, Collect(i, false, [])) && Pending(s, After(s, Collect(i, false, [])), i, m, live)
  {
  }

  lemma PendingIsQuiet(s: System, s': System, i: nat, m: nat, live: bool)
    requires Idle(s, i, m, live) && Pending(s, s', i, m, live)
    ensures WellFormed(s') && Possible(s', Admit)
  {
    IdleIsQuiet(s, i, m, live);
    assert forall k :: 0 <= k < |s.ops| ==> s'.ops[k].tasks == s.ops[k].tasks;
  }

  lemma AdmittedNext(o: Op, m: nat, live: bool)
    requires o.kind.Normal? && o.waiting == Some(Full(0, !live)) && o.sync == NameSync(m, false, m > 0, map[]) && o.gates == map[]
    requires |o.tasks| == m && !o.headerSent && o.listed == live
    ensures CanAdmit(o)
    ensures var o' := Admitted(o);
            && o'.tasks == o.tasks + [Task(Full(m + 1, !live), START, 0)] && o'.tasks[..m] == o.tasks
            && o'.sync == Held(m + 1, 0, false) && o'.gates == map[m + 1 := Gate(false, 0)] && o'.waiting.None?
  {
  }

  lemma AdmitNext(s: System, s': System, i: nat, m: nat, live: bool)
    requires Idle(s, i, m, live) && Pending(s, s', i, m, live) && WellFormed(s') && Possible(s', Admit)
    ensures var s'' := After(s', Admit);
            && Underway(s'', i, m, !live, START, Held(m + 1, 0, false)) && s''.popped + 1 == |s''.order|
            && s''.workers == s.workers && Kept(s, s'', i, 0)
  {
    var o' := Admitted(s'.ops[i]);
    AdmittedNext(s'.ops[i], m, live);
    AdmitTasks(s');
    SubmittedNext(s, After(s', Admit), i, m, live, o');
  }

  lemma SubmittedNext(s: System, s': System, i: nat, m: nat, live: bool, o': Op)
    requires Idle(s, i, m, live) && WellFormed(s') && s'.scheduler.None? && |s'.ops| == |s.ops|
    requires s'.order == s.order + [TaskRef(i, m)] && s'.popped == s.popped && s'.workers == s.workers
    requires s'.ops[i] == o' && forall k :: 0 <= k < i ==> s'.ops[k] == Seen(s.ops[k], o')
    requires o' == s.ops[i].(listed := live, tasks := o'.tasks, sync := o'.sync, gates := o'.gates, active := o'.active)
    requires o'.tasks == s.ops[i].tasks + [Task(Full(m + 1, !live), START, 0)] && o'.tasks[..m] == s.ops[i].tasks
    requires o'.sync == Held(m + 1, 0, false) && o'.gates == map[m + 1 := Gate(false, 0)]
    ensures Underway(s', i, m, !live, START, Held(m + 1, 0, false)) && Kept(s, s', i, 0)
  {
  }

  /** The scheduler thread collects and submits the next iteration. */
  lemma ToSubmitted(run: seq<System>, n: nat, i: nat, m: nat, live: bool) returns (run': seq<System>)
    requires IsRun(n, run) && Idle(run[|run| - 1], i, m, live)
    ensures IsRun(n, run') && run <= run'
    ensures var s, s' := run[|run| - 1], run'[|run'| - 1];
            && Underway(s', i, m, !live, START, Held(m + 1, 0, false)) && s'.popped + 1 == |s'.order|
            && s'.workers == s.workers && Kept(s, s', i, 0)
  {
    var s := run[|run| - 1];
    CollectNext(s, i, m, live);
    run' := Chained(run, n, Collect(i, false, []));
    PendingIsQuiet(s, run'[|run'| - 1], i, m, live);
    AdmitNext(s, run'[|run'| - 1], i, m, live);
    run' := Chained(run', n, Admit);
  }

  lemma ToFinish(run: seq<System>, n: nat, w: nat, i: nat, m: nat, last: bool, c: int) returns (run': seq<System>)
    requires IsRun(n, run)
    requires Underway(run[|run| - 1], i, m, last, START, Held(m + 1, c, false)) && OnWorker(run[|run| - 1], w)
    ensures IsRun(n, run') && run <= run'
    ensures var s, s' := run[|run| - 1], run'[|run'| - 1];
            && Underway(s', i, m, last, FINISH, if last then Fresh() else Held(m + 1, c + 1, true)) && OnWorker(s', w)
            && Kept(s, s', i, w) && s'.order == s.order
  {
    var s := run[|run| - 1];
    NotReading(s, i, m, last, START, Held(m + 1, c, false));
    run' := EmptyRuns(run, n, w, i, m, FINISH);
    var s' := run'[|run'| - 1];
    FinishState(s, i, m, last, c);
    assert s'.ops[i] == EmptyAt(s.ops[i], m, FINISH);
  }

  lemma FinishState(s: System, i: nat, m: nat, last: bool, c: int)
    requires Underway(s, i, m, last, START, Held(m + 1, c, false))
    ensures var o := EmptyAt(s.ops[i], m, FINISH);
            && o.sync == (if last then Fresh() else Held(m + 1, c + 1, true)) && o.gates == map[]
            && o.promises == (if last then 1 else 0) && o.tasks[..m] == s.ops[i].tasks[..m]
  {
    var o := s.ops[i];
    assert Started(o.sync, m + 1).states == map[m + 1 := IterationState(c + 1, false)];
  }

  /** A worker takes the task. */
  lemma ToTaken(run: seq<System>, n: nat, w: nat, i: nat, m: nat, last: bool, sync: NameSync) returns (run': seq<System>)
    requires IsRun(n, run) && Underway(run[|run| - 1], i, m, last, START, sync)
    requires run[|run| - 1].popped + 1 == |run[|run| - 1].order| && w < |run[|run| - 1].workers| && run[|run| - 1].workers[w].None?
    ensures IsRun(n, run') && run <= run'
    ensures var s, s' := run[|run| - 1], run'[|run'| - 1];
            && Underway(s', i, m, last, START, sync) && OnWorker(s', w) && Kept(s, s', i, w) && s'.order == s.order
  {
    run' := Chained(run, n, Pop(w));
  }

  /** One step of finishTask, and what it makes of the entry. */
  lemma StepUnderway(s: System, w: nat, i: nat, m: nat, last: bool, phase: Phase, sync: NameSync, next: Phase, sync': NameSync)
    requires Underway(s, i, m, last, phase, sync) && OnWorker(s, w) && FINISH <= phase < DONE
    requires next == NextPhase(s.ops[i], s.ops[i].tasks[m]) && sync' == SyncAfter(sync, s.ops[i].tasks[m])
    ensures Possible(s, Work(w))
    ensures var s' := After(s, Work(w));
            && Underway(s', i, m, last, next, sync') && Kept(s, s', i, w) && s'.order == s.order && s'.popped == s.popped
            && s'.workers[w] == if next == DONE then None else s.workers[w]
  {
    if phase != CHECK {
      NotReading(s, i, m, last, phase, sync);
    }
    var o' := Stepped(s.ops[i], m);
    assert o'.tasks[m] == Task(Full(m + 1, last), next, 0) && o'.tasks[..m] == s.ops[i].tasks[..m];
    var s' := After(s, Work(w));
    assert s'.ops[i] == o' && forall k :: 0 <= k < |s.ops| && k != i ==> s'.ops[k] == Seen(s.ops[k], o');
  }

  lemma StepFinish(run: seq<System>, n: nat, w: nat, i: nat, m: nat, last: bool, phase: Phase, sync: NameSync, next: Phase, sync': NameSync)
    returns (run': seq<System>)
    requires IsRun(n, run) && Underway(run[|run| - 1], i, m, last, phase, sync) && OnWorker(run[|run| - 1], w) && FINISH <= phase < DONE
    requires var o := run[|run| - 1].ops[i]; next == NextPhase(o, o.tasks[m]) && sync' == SyncAfter(sync, o.tasks[m])
    ensures IsRun(n, run') && run <= run'
    ensures var s, s' := run[|run| - 1], run'[|run'| - 1];
            && Underway(s', i, m, last, next, sync') && Kept(s, s', i, w) && s'.order == s.order && s'.popped == |s'.order|
            && s'.workers[w] == if next == DONE then None else s.workers[w]
  {
    StepUnderway(run[|run| - 1], w, i, m, last, phase, sync, next, sync');
    run' := Chained(run, n, Work(w));
  }

  /** In an undisturbed iteration the task releases the lock. */
  lemma ToReleased(run: seq<System>, n: nat, w: nat, i: nat, m: nat) returns (run': seq<System>)
    requires IsRun(n, run) && Underway(run[|run| - 1], i, m, false, FINISH, Held(m + 1, 1, true)) && OnWorker(run[|run| - 1], w)
    ensures IsRun(n, run') && run <= run'
    ensures var s, s' := run[|run| - 1], run'[|run'| - 1];
            && Underway(s', i, m, false, DONE, NameSync(m + 1, false, true, map[])) && Kept(s, s', i, w)
            && s'.popped == |s'.order| && s'.workers[w].None?
  {
    var k := m + 1;
    assert Decremented(Held(k, 1, true), k).states == Held(k, 0, true).states;
    run' := StepFinish(run, n, w, i, m, false, FINISH, Held(k, 1, true), CHECK, Held(k, 0, true));
    run' := StepFinish(run', n, w, i, m, false, CHECK, Held(k, 0, true), RELEASE, Held(k, 0, true));
    assert Released(Held(k, 0, true), k) == NameSync(k, false, true, map[]);
    run' := StepFinish(run', n, w, i, m, false, RELEASE, Held(k, 0, true), DONE, NameSync(k, false, true, map[]));
  }

  lemma DoneIsIdle(s: System, i: nat, m: nat)
    requires Underway(s, i, m, false, DONE, NameSync(m + 1, false, true, map[])) && s.popped == |s.order|
    ensures Idle(s, i, m + 1, true)
  {
    var ts := s.ops[i].tasks;
    assert ts == ts[..m] + [ts[m]];
  }

  /** One whole iteration. */
  lemma OneIteration(run: seq<System>, n: nat, i: nat, m: nat) returns (run': seq<System>)
    requires IsRun(n, run) && Idle(run[|run| - 1], i, m, true) && |run[|run| - 1].workers| > 0 && run[|run| - 1].workers[0].None?
    ensures IsRun(n, run') && run <= run'
    ensures var s, s' := run[|run| - 1], run'[|run'| - 1]; Idle(s', i, m + 1, true) && s'.workers == s.workers && Kept(s, s', i, 0)
  {
    var s := run[|run| - 1];
    run' := ToSubmitted(run, n, i, m, true);
    run' := ToTaken(run', n, 0, i, m, false, Held(m + 1, 0, false));
    run' := ToFinish(run', n, 0, i, m, false, 0);
    run' := ToReleased(run', n, 0, i, m);
    DoneIsIdle(run'[|run'| - 1], i, m);
    assert run'[|run'| - 1].workers == s.workers;
  }

  lemma {:induction false} Iterations(run: seq<System>, n: nat, i: nat, m: nat, more: nat) returns (run': seq<System>)
    requires IsRun(n, run) && Idle(run[|run| - 1], i, m, true) && |run[|run| - 1].workers| > 0 && run[|run| - 1].workers[0].None?
    ensures IsRun(n, run') && run <= run'
    ensures var s, s' := run[|run| - 1], run'[|run'| - 1]; Idle(s', i, m + more, true) && s'.workers == s.workers && Kept(s, s', i, 0)
  {
    if more == 0 {
      run' := run;
    } else {
      run' := Iterations(run, n, i, m, more - 1);
      run' := OneIteration(run', n, i, m + more - 1);
    }
  }

  // ---------------------------------------------------------------- a restart over the last task of iteration e

  /** The only busy worker has the last task, of iteration e, of operation 0, whose promise is set. */
  ghost predicate LateHeld(s: System, v: nat, p: nat, e: nat)
    requires e > 0
  {
    && v < |s.workers| && p < |s.order| && s.workers[v] == Some(p) && s.order[p] == TaskRef(0, e - 1)
    && (forall w :: 0 <= w < |s.workers| && w != v ==> s.workers[w].None?)
    && |s.ops| > 0 && s.ops[0].promises == 1 && s.ops[0].name == 0
    && |s.ops[0].tasks| == e && s.ops[0].tasks[e - 1] == Task(Full(e, true), FINISH, 0) && AllDone(s.ops[0].tasks[..e - 1])
  }

  lemma FirstStarts(n: nat) returns (run: seq<System>)
    requires n >= 1
    ensures IsRun(n, run) && Idle(run[|run| - 1], 0, 0, true)
    ensures run[|run| - 1].workers == seq(n, _ => None)
  {
    run := [Init(n)];
    run := Chained(run, n, Start(Normal, 0));
  }

  /** The first run goes through e - 1 iterations and is stopped. */
  lemma StoppedAt(n: nat, e: nat) returns (run: seq<System>)
    requires n >= 1 && e >= 1
    ensures IsRun(n, run) && Idle(run[|run| - 1], 0, e - 1, false) && run[|run| - 1].workers == seq(n, _ => None)
  {
    run := FirstStarts(n);
    run := Iterations(run, n, 0, 0, e - 1);
    run := Chained(run, n, Stop(0));
  }

  /** In its last iteration the task is about to count down. */
  lemma EarlierRun(n: nat, e: nat, v: nat) returns (run: seq<System>, p: nat)
    requires n >= 1 && e >= 1 && v < n
    ensures IsRun(n, run)
    ensures var s := run[|run| - 1];
            && Underway(s, 0, e - 1, true, FINISH, Fresh()) && s.popped == |s.order| && LateHeld(s, v, p, e)
  {
    run := StoppedAt(n, e);
    run := ToSubmitted(run, n, 0, e - 1, false);
    run := ToTaken(run, n, v, 0, e - 1, true, Held(e, 0, false));
    run := ToFinish(run, n, v, 0, e - 1, true, 0);
    p := |run[|run| - 1].order| - 1;
  }

  lemma Restarts(s: System, v: nat, p: nat, e: nat)
    requires e > 0 && Underway(s, 0, e - 1, true, FINISH, Fresh()) && s.popped == |s.order| && LateHeld(s, v, p, e)
    ensures Possible(s, Start(Normal, 0))
    ensures var s' := After(s, Start(Normal, 0));
            && Idle(s', 1, 0, true) && LateHeld(s', v, p, e) && |s'.ops| == 2 && s'.ops[0] == s.ops[0] && !s'.ops[1].disturbed
            && s'.workers == s.workers
  {
    var s' := After(s, Start(Normal, 0));
    assert s.ops[0].tasks == s.ops[0].tasks[..e - 1] + [s.ops[0].tasks[e - 1]];
    forall m, k | 0 <= m < 1 && 0 <= k < |s'.ops[m].tasks| ensures s'.ops[m].tasks[k].phase != CHECK {
      assert s'.ops[0] == s.ops[0];
    }
  }

  lemma LateKept(s: System, s': System, v: nat, p: nat, e: nat, w: nat)
    requires e > 0 && LateHeld(s, v, p, e) && Kept(s, s', 1, w) && |s.ops| == 2
    requires s'.workers == s.workers && s'.ops[0].name == 0
    ensures LateHeld(s', v, p, e)
  {
  }

  /** The late task counts down in the entry of the new iteration. */
  lemma LateStrikes(s: System, v: nat, p: nat, e: nat)
    requires e > 0 && |s.ops| == 2 && LateHeld(s, v, p, e)
    requires Underway(s, 1, e - 1, false, START, Held(e, 0, false)) && s.popped + 1 == |s.order|
    ensures Possible(s, Work(v))
    ensures var s' := After(s, Work(v));
            && |s'.ops| == 2 && Underway(s', 1, e - 1, false, START, Held(e, -1, false))
            && s'.popped == s.popped && s'.order == s.order && AllDone(s'.ops[0].tasks) && s'.ops[1].disturbed
            && |s'.workers| == |s.workers| && forall w :: 0 <= w < |s'.workers| ==> s'.workers[w].None?
  {
    var o, o' := s.ops[0], Stepped(s.ops[0], e - 1);
    assert o.sync == Held(e, 0, false);
    assert o'.sync.states == Held(e, -1, false).states && o'.tasks[e - 1].phase == DONE;
    forall k: nat | k < e ensures o'.tasks[k].phase == DONE {
      assert k < e - 1 ==> o'.tasks[k] == o.tasks[..e - 1][k];
    }
    var s' := After(s, Work(v));
    assert s'.ops[0] == o' && s'.ops[1] == Seen(s.ops[1], o');
  }

  /** The scheduler thread waits, and nothing can happen any more. */
  ghost predicate Hangs(s: System, j: nat) {
    WellFormed(s) && s.scheduler == Some(j) && forall a :: !Possible(s, a)
  }

  /** The task of the iteration has run, the lock is held, and the next iteration is collected. */
  lemma NextHangs(s: System, e: nat)
    requires e > 0 && |s.ops| == 2 && Underway(s, 1, e - 1, false, DONE, Held(e, -1, true)) && s.popped == |s.order|
    requires forall w :: 0 <= w < |s.workers| ==> s.workers[w].None?
    ensures Possible(s, Collect(1, false, [])) && Hangs(After(s, Collect(1, false, [])), 1)
  {
  }

  /** Operation j is a new run of its name, and the tasks left of earlier runs are all of iteration e. */
  ghost predicate RestartsOver(s: System, j: nat, e: nat) {
    && j < |s.ops| && s.ops[j].tasks == [] && !s.ops[j].disturbed
    && (exists i, k :: 0 <= i < j && s.ops[i].name == s.ops[j].name && 0 <= k < |s.ops[i].tasks| && s.ops[i].tasks[k].phase != DONE)
    && forall i, k :: 0 <= i < j && s.ops[i].name == s.ops[j].name && 0 <= k < |s.ops[i].tasks| ==>
         s.ops[i].tasks[k].phase == DONE || s.ops[i].tasks[k].sub.iter == e
  }

  lemma LateHeldRestarts(s: System, v: nat, p: nat, e: nat)
    requires e > 0 && Idle(s, 1, 0, true) && LateHeld(s, v, p, e) && |s.ops| == 2 && !s.ops[1].disturbed
    ensures RestartsOver(s, 1, e)
  {
    var ts := s.ops[0].tasks;
    assert ts[e - 1].phase != DONE;
    forall k: nat | k < |ts| ensures ts[k].phase == DONE || ts[k].sub.iter == e {
      assert k < e - 1 ==> ts[..e - 1][k] == ts[k];
    }
  }

  /** The new run reaches iteration e while the late task waits. */
  lemma ReachesIteration(run: seq<System>, n: nat, v: nat, p: nat, e: nat) returns (run': seq<System>)
    requires IsRun(n, run) && e > 0 && |run[|run| - 1].ops| == 2
    requires Idle(run[|run| - 1], 1, 0, true) && LateHeld(run[|run| - 1], v, p, e) && (v == 0 ==> e == 1)
    ensures IsRun(n, run') && run <= run'
    ensures var s := run'[|run'| - 1];
            && |s.ops| == 2 && s.popped + 1 == |s.order|
            && Underway(s, 1, e - 1, false, START, Held(e, 0, false)) && LateHeld(s, v, p, e)
  {
    var s := run[|run| - 1];
    run' := run;
    if v != 0 {
      run' := Iterations(run, n, 1, 0, e - 1);
      LateKept(s, run'[|run'| - 1], v, p, e, 0);
    }
    s := run'[|run'| - 1];
    run' := ToSubmitted(run', n, 1, e - 1, true);
    LateKept(s, run'[|run'| - 1], v, p, e, 0);
  }

  /** Its task runs with one count too few, and does not release the lock. */
  lemma StruckHangs(run: seq<System>, n: nat, e: nat) returns (run': seq<System>)
    requires IsRun(n, run) && e > 0
    requires var s := run[|run| - 1];
             && |s.ops| == 2 && Underway(s, 1, e - 1, false, START, Held(e, -1, false)) && s.popped + 1 == |s.order|
             && |s.workers| > 0 && forall w :: 0 <= w < |s.workers| ==> s.workers[w].None?
    ensures IsRun(n, run') && run <= run' && Hangs(run'[|run'| - 1], 1)
  {
    run' := ToTaken(run, n, 0, 1, e - 1, false, Held(e, -1, false));
    run' := ToFinish(run', n, 0, 1, e - 1, false, -1);
    assert Decremented(Held(e, 0, true), e).states == Held(e, -1, true).states;
    run' := StepFinish(run', n, 0, 1, e - 1, false, FINISH, Held(e, 0, true), DONE, Held(e, -1, true));
    NextHangs(run'[|run'| - 1], e);
    run' := Chained(run', n, Collect(1, false, []));
  }

  /** Between the two the late task strikes. */
  lemma AfterRestart(run: seq<System>, n: nat, v: nat, p: nat, e: nat) returns (run': seq<System>)
    requires IsRun(n, run) && e > 0 && |run[|run| - 1].ops| == 2
    requires Idle(run[|run| - 1], 1, 0, true) && LateHeld(run[|run| - 1], v, p, e) && (v == 0 ==> e == 1)
    ensures IsRun(n, run') && run <= run' && Hangs(run'[|run'| - 1], 1)
  {
    run' := ReachesIteration(run, n, v, p, e);
    LateStrikes(run'[|run'| - 1], v, p, e);
    run' := Chained(run', n, Work(v));
    run' := StruckHangs(run', n, e);
  }

  /** One worker hangs over iteration 1, two or more over any iteration. */
  lemma HangingRun(n: nat, e: nat) returns (run: seq<System>, t: nat)
    requires n >= 1 && e >= 1 && (n == 1 ==> e == 1)
    ensures IsRun(n, run) && t < |run| && RestartsOver(run[t], 1, e) && Hangs(run[|run| - 1], 1)
  {
    var v, p := if n == 1 then 0 else 1, 0;
    run, p := EarlierRun(n, e, v);
    Restarts(run[|run| - 1], v, p, e);
    run := Chained(run, n, Start(Normal, 0));
    t := |run| - 1;
    LateHeldRestarts(run[t], v, p, e);
    run := AfterRestart(run, n, v, p, e);
  }

  // ---------------------------------------------------------------- exactly when a restart is safe

  /** An operation that nothing disturbs does not hang. */
  lemma UndisturbedMoves(s: System, j: nat)
    requires SysInv(s) && |s.workers| >= 1 && j < |s.ops| && !s.ops[j].disturbed && s.scheduler == Some(j)
    ensures exists a :: Possible(s, a)
  {
    var a := PoolMoves(s);
    if Quiescent(s) {
      QuiescentIsFree(s);
    }
  }

  lemma SafeDoesNotHang(run: seq<System>, t: nat, u: nat, j: nat, e: nat)
    requires IsRun(1, run) && t <= u < |run| && RestartsOver(run[t], j, e) && e != 1
    ensures !Hangs(run[u], j)
  {
    StaysSafe(run, t, u, j);
    LateRun(run, u);
    if run[u].scheduler == Some(j) {
      UndisturbedMoves(run[u], j);
    }
  }

  /** However the run goes on, the new operation does not hang. */
  ghost predicate RestartIsSafe(n: nat, e: nat) {
    forall run: seq<System>, t: nat, u: nat, j: nat ::
      IsRun(n, run) && t <= u < |run| && RestartsOver(run[t], j, e) ==> !Hangs(run[u], j)
  }

  /**
    A snapshot may be started again over tasks of iteration e of its earlier run, whatever comes after,
    exactly if there is one worker and e is not 1: the count-down is harmless only as long as the new
    run has no iteration of that id.
   */
  lemma RestartIsSafeIff(n: nat, e: nat)
    requires n >= 1 && e >= 1
    ensures RestartIsSafe(n, e) <==> n == 1 && e != 1
  {
    if n == 1 && e != 1 {
      forall run: seq<System>, t: nat, u: nat, j: nat | IsRun(n, run) && t <= u < |run| && RestartsOver(run[t], j, e)
        ensures !Hangs(run[u], j)
      {
        SafeDoesNotHang(run, t, u, j, e);
      }
    } else {
      var run, t := HangingRun(n, e);
    }
  }
}
