/**
  Runs with two workers in which a TIMED_BUFFERED snapshot loses its order: a tail that overtakes its
  header, and a lock that is released twice because a task starts in the gap before the release.
 */
module SnapshotRaces {
  import opened Types
  import opened IterationSync
  import opened IterationGates
  import opened SnapshotProtocol
  import opened SnapshotEngine

  // ---------------------------------------------------------------- extending a run

  /** A run is extended by one action. */
  lemma Chained(run: seq<System>, n: nat, a: Action) returns (run': seq<System>)
    requires IsRun(n, run) && WellFormed(run[|run| - 1]) && Possible(run[|run| - 1], a)
    ensures IsRun(n, run') && run <= run' && run'[|run'| - 1] == After(run[|run| - 1], a) && |run'| == |run| + 1
  {
    run' := run + [After(run[|run| - 1], a)];
    assert Next(run[|run| - 1], run'[|run|]);
    forall i | 0 <= i < |run'| - 1 ensures Next(run'[i], run'[i + 1]) {
      if i < |run| - 1 {
        assert Next(run[i], run[i + 1]);
      }
    }
  }

  /** The other operations of the name have had their stop answered. */
  ghost predicate OthersRetired(ops: seq<Op>, i: nat)
    requires i < |ops|
  {
    forall m :: 0 <= m < |ops| && m != i && ops[m].name == ops[i].name ==> ops[m].promises == 1
  }

  /** Worker w runs task j of operation i, the latest of its name. */
  ghost predicate RunsTask(s: System, w: nat, i: nat, j: nat) {
    && WellFormed(s) && w < |s.workers| && s.workers[w].Some?
    && s.order[s.workers[w].value] == TaskRef(i, j)
    && OthersRetired(s.ops, i) && !Reading(s)
  }

  function WithOp(s: System, i: nat, o: Op): System
    requires i < |s.ops|
  {
    s.(ops := Spread(s.ops, i, o))
  }

  /** An operation whose tasks are the same, but for their phases, is worked on by the same workers. */
  lemma StillRuns(s: System, w: nat, i: nat, j: nat, o: Op)
    requires RunsTask(s, w, i, j) && |o.tasks| == |s.ops[i].tasks| && o.name == s.ops[i].name
    requires forall m :: 0 <= m < |o.tasks| ==> o.tasks[m].phase != CHECK
    ensures RunsTask(WithOp(s, i, o), w, i, j)
  {
    assert forall m :: 0 <= m < |s.ops| && m != i ==> WithOp(s, i, o).ops[m].tasks == s.ops[m].tasks;
  }

  /** What retired operations see is the latest change only. */
  lemma SpreadTwice(ops: seq<Op>, i: nat, o: Op, o': Op)
    requires i < |ops| && OthersRetired(ops, i) && o.name == o'.name == ops[i].name
    ensures Spread(Spread(ops, i, o), i, o') == Spread(ops, i, o')
  {
  }

  /** From a state that differs from s in operation i, worker w takes one step, and the task is not done yet. */
  lemma StepOn(run: seq<System>, n: nat, w: nat, i: nat, j: nat, s: System, o: Op, o': Op) returns (run': seq<System>)
    requires IsRun(n, run) && RunsTask(s, w, i, j) && run[|run| - 1] == WithOp(s, i, o)
    requires |o.tasks| == |s.ops[i].tasks| && o.name == s.ops[i].name && forall m :: 0 <= m < |o.tasks| ==> o.tasks[m].phase != CHECK
    requires Enabled(o, j) && o' == Stepped(o, j) && o'.tasks[j].phase != DONE
    ensures IsRun(n, run') && run <= run' && run'[|run'| - 1] == WithOp(s, i, o')
  {
    StillRuns(s, w, i, j, o);
    run' := Chained(run, n, Work(w));
    SpreadTwice(s.ops, i, o, o');
  }

  // ---------------------------------------------------------------- a task without events, section by section

  predicate IsEmpty(s: Submission) {
    s.events == [] && s.iter >= 1
  }

  function TailSync(n: NameSync, s: Submission, p: Phase): NameSync {
    if !s.parts.tail then n
    else if p > REMOVE && s.last then Fresh()
    else if p > MARK_TAIL then TailMarked(n, s.iter)
    else n
  }

  function EmptyLog(log: seq<Message>, s: Submission, p: Phase): seq<Message> {
    (if s.parts.header && p > PUBLISH_HEADER then log + [HeaderMsg(s.iter)] else log)
    + if s.parts.tail && p > PUBLISH_TAIL then [TailMsg(s.iter)] else []
  }

  function EmptyGates(g: Gates, s: Submission, p: Phase): Gates {
    var g' := if s.parts.header && p > OPEN_GATE then HeaderCompleted(g, s.iter) else g;
    if s.parts.tail && p > AWAIT_DRAIN then g' - {s.iter} else g'
  }

  function EmptyCounts(counters: map<nat, nat>, s: Submission, p: Phase): map<nat, nat> {
    if s.parts.tail && p > TAKE_COUNT then counters - {s.iter} else counters
  }

  function EmptyTaken(counters: map<nat, nat>, taken: map<nat, nat>, s: Submission, p: Phase): map<nat, nat> {
    if s.parts.tail && p > TAKE_COUNT then taken[s.iter := Count(counters, s.iter)] else taken
  }

  function EmptyPromises(promises: nat, s: Submission, p: Phase): nat {
    if s.parts.tail && s.last && p > PROMISE then promises + 1 else promises
  }

  /** Operation o, whose task j has no events and has not started, with that task in section p. */
  function EmptyAt(o: Op, j: nat, p: Phase): Op
    requires j < |o.tasks|
  {
    var s := o.tasks[j].sub;
    var k := s.iter;
    o.(tasks := o.tasks[j := Task(s, p, 0)],
       sync := TailSync(if p > START then Started(o.sync, k) else o.sync, s, p),
       gates := EmptyGates(o.gates, s, p),
       counters := EmptyCounts(o.counters, s, p),
       taken := EmptyTaken(o.counters, o.taken, s, p),
       log := EmptyLog(o.log, s, p),
       promises := EmptyPromises(o.promises, s, p),
       rushed := o.rushed || (p > START && Closing(o.tasks, k)))
  }

  lemma EmptyTasks(o: Op, j: nat, p: Phase)
    requires j < |o.tasks| && IsEmpty(o.tasks[j].sub) && o.tasks[j] == Task(o.tasks[j].sub, START, 0) && p < FINISH
    ensures Advanced(EmptyAt(o, j, p), j) == EmptyAt(o, j, p + 1).tasks
    ensures p == START ==> Rushes(EmptyAt(o, j, p), j) == Closing(o.tasks, o.tasks[j].sub.iter)
  {
    if p == START {
      assert o.tasks[j := o.tasks[j]] == o.tasks;
    }
  }

  lemma EmptyAdvances(o: Op, j: nat, p: Phase)
    requires j < |o.tasks| && IsEmpty(o.tasks[j].sub) && o.tasks[j] == Task(o.tasks[j].sub, START, 0) && p < FINISH
    requires o.tasks[j].sub.parts.tail ==> Drained(o.gates, o.tasks[j].sub.iter)
    ensures Enabled(EmptyAt(o, j, p), j) && Stepped(EmptyAt(o, j, p), j) == EmptyAt(o, j, p + 1)
  {
    var s := o.tasks[j].sub;
    EmptyEnabled(o, j, p);
    EmptyTasks(o, j, p);
    EmptySync(o.sync, s, p);
    EmptyCounters(o.counters, o.taken, s, p);
    EmptyQueue(o.log, o.gates, o.promises, s, p, j);
    SteppedIs(EmptyAt(o, j, p), j, EmptyAt(o, j, p + 1));
  }

  lemma EmptyEnabled(o: Op, j: nat, p: Phase)
    requires j < |o.tasks| && IsEmpty(o.tasks[j].sub) && p < FINISH
    requires o.tasks[j].sub.parts.tail ==> Drained(o.gates, o.tasks[j].sub.iter)
    ensures Enabled(EmptyAt(o, j, p), j) && EmptyAt(o, j, p).tasks[j] == Task(o.tasks[j].sub, p, 0)
  {
  }

  lemma EmptyCounters(counters: map<nat, nat>, taken: map<nat, nat>, s: Submission, p: Phase)
    requires IsEmpty(s) && p < FINISH
    ensures var t, c := Task(s, p, 0), EmptyCounts(counters, s, p);
            && EmptyCounts(counters, s, p + 1) == CountersAfter(c, t)
            && EmptyTaken(counters, taken, s, p + 1) == TakenAfter(EmptyTaken(counters, taken, s, p), c, t)
  {
  }

  lemma EmptyQueue(log: seq<Message>, g: Gates, promises: nat, s: Submission, p: Phase, j: nat)
    requires IsEmpty(s) && p < FINISH
    ensures LogAfter(EmptyLog(log, s, p), Task(s, p, 0), j) == EmptyLog(log, s, p + 1)
    ensures GatesAfter(EmptyGates(g, s, p), Task(s, p, 0)) == EmptyGates(g, s, p + 1)
    ensures PromisesAfter(EmptyPromises(promises, s, p), Task(s, p, 0)) == EmptyPromises(promises, s, p + 1)
  {
  }

  lemma SteppedIs(o: Op, j: nat, o': Op)
    requires j < |o.tasks| && Enabled(o, j)
    requires o'.tasks == Advanced(o, j) && o'.sync == SyncAfter(o.sync, o.tasks[j]) && o'.gates == GatesAfter(o.gates, o.tasks[j])
    requires o'.log == LogAfter(o.log, o.tasks[j], j) && o'.counters == CountersAfter(o.counters, o.tasks[j])
    requires o'.taken == TakenAfter(o.taken, o.counters, o.tasks[j])
    requires o'.promises == PromisesAfter(o.promises, o.tasks[j]) && o'.rushed == (o.rushed || Rushes(o, j))
    requires o' == o.(tasks := o'.tasks, sync := o'.sync, gates := o'.gates, log := o'.log, counters := o'.counters,
                      taken := o'.taken, promises := o'.promises, rushed := o'.rushed)
    ensures Stepped(o, j) == o'
  {
  }

  lemma EmptySync(n: NameSync, s: Submission, p: Phase)
    requires p < FINISH && s.iter >= 1
    ensures SyncAfter(TailSync(if p > START then Started(n, s.iter) else n, s, p), Task(s, p, 0))
         == TailSync(if p + 1 > START then Started(n, s.iter) else n, s, p + 1)
  {
  }

  /** Before its first step the operation is as it was. */
  lemma AtStart(s: System, i: nat, j: nat)
    requires i < |s.ops| && j < |s.ops[i].tasks| && s.ops[i].tasks[j] == Task(s.ops[i].tasks[j].sub, START, 0)
    requires forall m :: 0 <= m < |s.ops| && s.ops[m].name == s.ops[i].name ==>
               s.ops[m].sync == s.ops[i].sync && s.ops[m].counters == s.ops[i].counters
    ensures EmptyAt(s.ops[i], j, START) == s.ops[i] && WithOp(s, i, s.ops[i]) == s
  {
    assert s.ops[i].tasks[j := s.ops[i].tasks[j]] == s.ops[i].tasks;
    assert s.ops[i].log + [] == s.ops[i].log;
    assert Spread(s.ops, i, s.ops[i]) == s.ops;
  }

  /** A worker takes a task without events to section p. */
  lemma {:induction false} EmptyRuns(run: seq<System>, n: nat, w: nat, i: nat, j: nat, p: Phase) returns (run': seq<System>)
    requires IsRun(n, run) && RunsTask(run[|run| - 1], w, i, j) && p <= FINISH
    requires var o := run[|run| - 1].ops[i];
             && IsEmpty(o.tasks[j].sub) && o.tasks[j] == Task(o.tasks[j].sub, START, 0)
             && (o.tasks[j].sub.parts.tail ==> Drained(o.gates, o.tasks[j].sub.iter))
    requires var s := run[|run| - 1]; forall m :: 0 <= m < |s.ops| && s.ops[m].name == s.ops[i].name ==>
               s.ops[m].sync == s.ops[i].sync && s.ops[m].counters == s.ops[i].counters
    ensures IsRun(n, run') && run <= run'
    ensures var s := run[|run| - 1]; run'[|run'| - 1] == WithOp(s, i, EmptyAt(s.ops[i], j, p))
  {
    var s := run[|run| - 1];
    if p == START {
      run' := run;
      AtStart(s, i, j);
    } else {
      var before := EmptyRuns(run, n, w, i, j, p - 1);
      EmptyAdvances(s.ops[i], j, p - 1);
      run' := StepOn(before, n, w, i, j, s, EmptyAt(s.ops[i], j, p - 1), EmptyAt(s.ops[i], j, p));
    }
  }

  // ---------------------------------------------------------------- a tail before its header

  function Header(k: nat, p: Phase): Task {
    Task(Submission(Parts(true, false, false), [], k, false), p, 0)
  }

  function Tail(k: nat, p: Phase): Task {
    Task(Submission(Parts(false, false, true), [], k, false), p, 0)
  }

  function Workers(n: nat, a: Option<nat>, b: Option<nat>): seq<Option<nat>>
    requires n >= 2
  {
    [a, b] + seq(n - 2, _ => None)
  }

  /** One TIMED_BUFFERED operation whose submissions are all in the pool. */
  function Racing(n: nat, tasks: seq<Task>, sync: NameSync, gates: Gates, taken: map<nat, nat>, log: seq<Message>,
                  headerSent: bool, rushed: bool, popped: nat, a: Option<nat>, b: Option<nat>): System
    requires n >= 2
  {
    System([Op(0, TimedBuffered, true, true, headerSent, sync.current, None, tasks, sync, gates, map[], taken, log, 0, rushed, false, false)],
           seq(|tasks|, (j: nat) => TaskRef(0, j)), popped, Workers(n, a, b), None)
  }

  /** Iteration 1 is submitted: its header and its tail are on two workers. */
  function BothOnWorkers(n: nat): System
    requires n >= 2
  {
    Racing(n, [Header(1, START), Tail(1, START)], NameSync(1, true, true, map[1 := IterationState(0, false)]),
           map[1 := Gate(false, 0)], map[], [], false, false, 2, Some(0), Some(1))
  }

  /** Its header is submitted. */
  function HeaderSubmitted(n: nat): System
    requires n >= 2
  {
    Racing(n, [Header(1, START)], NameSync(1, true, true, map[1 := IterationState(0, false)]),
           map[1 := Gate(false, 0)], map[], [], true, false, 0, None, None)
  }

  lemma OneSubmission(n: nat) returns (run: seq<System>)
    requires n >= 2
    ensures IsRun(n, run) && run[|run| - 1] == HeaderSubmitted(n)
  {
    run := [Init(n)];
    run := Chained(run, n, Start(TimedBuffered, 0));
    run := Chained(run, n, Collect(0, false, []));
    run := Chained(run, n, Admit);
    assert run[|run| - 1].ops[0].tasks == [Header(1, START)];
    assert run[|run| - 1].ops == HeaderSubmitted(n).ops;
    assert run[|run| - 1].order == [TaskRef(0, 0)] && run[|run| - 1].workers == Workers(n, None, None);
  }

  lemma TwoSubmissions(n: nat) returns (run: seq<System>)
    requires n >= 2
    ensures IsRun(n, run)
    ensures run[|run| - 1] == BothOnWorkers(n).(popped := 0, workers := Workers(n, None, None))
  {
    run := OneSubmission(n);
    run := Chained(run, n, Collect(0, true, []));
    run := Chained(run, n, Admit);
    assert run[|run| - 1].order == [TaskRef(0, 0), TaskRef(0, 1)];
    assert run[|run| - 1].ops[0].tasks == [Header(1, START), Tail(1, START)];
    assert run[|run| - 1].ops == BothOnWorkers(n).ops;
  }

  lemma TwoTasks(n: nat) returns (run: seq<System>)
    requires n >= 2
    ensures IsRun(n, run) && run[|run| - 1] == BothOnWorkers(n)
  {
    run := TwoSubmissions(n);
    run := Chained(run, n, Pop(0));
    run := Chained(run, n, Pop(1));
    assert run[|run| - 1].workers == Workers(n, Some(0), Some(1));
  }

  /** The tail publishes before the header has started. */
  lemma TailFirst(n: nat) returns (run: seq<System>)
    requires n >= 2
    ensures IsRun(n, run)
    ensures var s := run[|run| - 1]; |s.ops| == 1 && s.ops[0].kind.TimedBuffered? && !s.ops[0].disturbed && s.ops[0].log == [TailMsg(1)]
  {
    run := TwoTasks(n);
    run := EmptyRuns(run, n, 1, 0, 1, MARK_TAIL);
  }

  // ---------------------------------------------------------------- a header after the answer to the stop

  function LastTail(k: nat, p: Phase): Task {
    Task(Submission(Parts(false, false, true), [], k, true), p, 0)
  }

  /** The snapshot was stopped before its first header ran: header and last tail are on two workers. */
  function StoppedEarly(n: nat): System
    requires n >= 2
  {
    var s := Racing(n, [Header(1, START), LastTail(1, START)], NameSync(1, true, true, map[1 := IterationState(0, false)]),
                    map[1 := Gate(false, 0)], map[], [], false, false, 2, Some(0), Some(1));
    s.(ops := [s.ops[0].(listed := false, running := false, active := 0)])
  }

  lemma SubmittedEarly(n: nat) returns (run: seq<System>)
    requires n >= 2
    ensures IsRun(n, run)
    ensures run[|run| - 1] == StoppedEarly(n).(popped := 0, workers := Workers(n, None, None))
  {
    run := OneSubmission(n);
    run := Chained(run, n, Stop(0));
    run := Chained(run, n, Collect(0, true, []));
    run := Chained(run, n, Admit);
    assert run[|run| - 1].ops[0].tasks == StoppedEarly(n).ops[0].tasks;
    assert run[|run| - 1].ops == StoppedEarly(n).ops;
    assert run[|run| - 1].order == [TaskRef(0, 0), TaskRef(0, 1)];
  }

  lemma ToStoppedEarly(n: nat) returns (run: seq<System>)
    requires n >= 2
    ensures IsRun(n, run) && run[|run| - 1] == StoppedEarly(n)
  {
    run := SubmittedEarly(n);
    run := Chained(run, n, Pop(0));
    run := Chained(run, n, Pop(1));
    assert run[|run| - 1].workers == Workers(n, Some(0), Some(1));
  }

  /** The last tail sets the promise, which answers the stop, and then the header is published. */
  lemma HeaderAfterStop(n: nat) returns (run: seq<System>, t: nat)
    requires n >= 2
    ensures IsRun(n, run) && t < |run|
    ensures var s, s' := run[t], run[|run| - 1];
            && |s.ops| == |s'.ops| == 1 && s.ops[0].kind.TimedBuffered? && !s.ops[0].disturbed && s.ops[0].promises == 1
            && s.ops[0].log == [TailMsg(1)] && s'.ops[0].log == [TailMsg(1), HeaderMsg(1)]
  {
    run := ToStoppedEarly(n);
    run := EmptyRuns(run, n, 1, 0, 1, FINISH);
    t := |run| - 1;
    var s := run[t];
    assert s.ops[0].tasks == [Header(1, START), LastTail(1, FINISH)];
    assert RunsTask(s, 0, 0, 0);
    run := EmptyRuns(run, n, 0, 0, 0, OPEN_GATE);
  }

  // ---------------------------------------------------------------- an iteration that starts before the tail of the last

  /** The tail of iteration 1 is about to release the lock, its header has not started. */
  function TailReleases(n: nat): System
    requires n >= 2
  {
    Racing(n, [Header(1, START), Tail(1, RELEASE)], NameSync(1, true, true, map[1 := IterationState(0, true)]),
           map[], map[1 := 0], [TailMsg(1)], false, false, 2, Some(0), Some(1))
  }

  /** It has just counted down to zero. */
  function TailChecks(n: nat): System
    requires n >= 2
  {
    Racing(n, [Header(1, START), Tail(1, CHECK)], NameSync(1, true, true, map[1 := IterationState(0, true)]),
           map[], map[1 := 0], [TailMsg(1)], false, false, 2, Some(0), Some(1))
  }

  lemma ToTailChecks(n: nat) returns (run: seq<System>)
    requires n >= 2
    ensures IsRun(n, run) && run[|run| - 1] == TailChecks(n)
  {
    run := TwoTasks(n);
    run := EmptyRuns(run, n, 1, 0, 1, FINISH);
    run := Chained(run, n, Work(1));
    var o := run[|run| - 1].ops[0];
    assert o.tasks == TailChecks(n).ops[0].tasks;
    assert o.sync.states == map[1 := IterationState(0, true)];
    assert o.gates == map[] && o.counters == map[] && o.taken == map[1 := 0] && o.log == [TailMsg(1)];
    assert run[|run| - 1].ops == TailChecks(n).ops;
  }

  lemma ToTailReleases(n: nat) returns (run: seq<System>)
    requires n >= 2
    ensures IsRun(n, run) && run[|run| - 1] == TailReleases(n)
  {
    run := ToTailChecks(n);
    run := Chained(run, n, Work(1));
    assert run[|run| - 1].ops[0].tasks == TailReleases(n).ops[0].tasks;
    assert run[|run| - 1].ops == TailReleases(n).ops;
  }

  /** The header starts in the gap, and is about to release the lock too. */
  function BothRelease(n: nat): System
    requires n >= 2
  {
    Racing(n, [Header(1, RELEASE), Tail(1, RELEASE)], NameSync(1, true, true, map[1 := IterationState(0, true)]),
           map[], map[1 := 0], [TailMsg(1), HeaderMsg(1)], false, true, 2, Some(0), Some(1))
  }

  lemma ToBothRelease(n: nat) returns (run: seq<System>)
    requires n >= 2
    ensures IsRun(n, run) && run[|run| - 1] == BothRelease(n)
  {
    run := ToTailReleases(n);
    assert run[|run| - 1].ops[0].tasks[1].phase == RELEASE;
    run := EmptyRuns(run, n, 0, 0, 0, FINISH);
    assert run[|run| - 1].ops[0].tasks == [Header(1, FINISH), Tail(1, RELEASE)];
    run := Chained(run, n, Work(0));
    assert run[|run| - 1].ops[0].tasks == [Header(1, CHECK), Tail(1, RELEASE)];
    run := Chained(run, n, Work(0));
    var o := run[|run| - 1].ops[0];
    assert o.tasks == BothRelease(n).ops[0].tasks;
    assert o.sync.states == map[1 := IterationState(0, true)];
    assert o.gates == map[] && o.log == [TailMsg(1), HeaderMsg(1)];
    assert run[|run| - 1].ops == BothRelease(n).ops;
  }

  /** The tail has released, iteration 2 holds the lock, and the header of iteration 1 is still to release. */
  function SecondStarts(n: nat): System
    requires n >= 2
  {
    Racing(n, [Header(1, RELEASE), Tail(1, DONE), Header(2, START)],
           NameSync(2, true, true, map[2 := IterationState(0, false)]), map[2 := Gate(false, 0)], map[1 := 0],
           [TailMsg(1), HeaderMsg(1)], true, true, 2, Some(0), None)
  }

  lemma ToSecondStarts(n: nat) returns (run: seq<System>)
    requires n >= 2
    ensures IsRun(n, run) && run[|run| - 1] == SecondStarts(n)
  {
    run := ToBothRelease(n);
    run := Chained(run, n, Work(1));
    assert run[|run| - 1].ops[0].sync == NameSync(1, false, true, map[]);
    assert run[|run| - 1].ops[0].tasks == [Header(1, RELEASE), Tail(1, DONE)];
    assert run[|run| - 1].workers == Workers(n, Some(0), None);
    run := Chained(run, n, Collect(0, false, []));
    run := Chained(run, n, Admit);
    assert run[|run| - 1].ops[0].tasks == SecondStarts(n).ops[0].tasks;
    assert run[|run| - 1].ops[0].gates == SecondStarts(n).ops[0].gates;
    assert run[|run| - 1].ops == SecondStarts(n).ops;
    assert run[|run| - 1].order == SecondStarts(n).order;
  }

  /** The second release frees the lock of iteration 2, so iteration 3 is submitted before 2 is over. */
  function ThirdStarts(n: nat): System
    requires n >= 2
  {
    Racing(n, [Header(1, DONE), Tail(1, DONE), Header(2, START), Tail(2, START), Header(3, START)],
           NameSync(3, true, true, map[2 := IterationState(0, false), 3 := IterationState(0, false)]),
           map[2 := Gate(false, 0), 3 := Gate(false, 0)], map[1 := 0],
           [TailMsg(1), HeaderMsg(1)], true, true, 2, None, None)
  }

  /** The second release has freed the lock that iteration 2 holds. */
  function Unlocked(n: nat): System
    requires n >= 2
  {
    Racing(n, [Header(1, DONE), Tail(1, DONE), Header(2, START)],
           NameSync(2, false, true, map[2 := IterationState(0, false)]), map[2 := Gate(false, 0)], map[1 := 0],
           [TailMsg(1), HeaderMsg(1)], true, true, 2, None, None)
  }

  lemma ToUnlocked(n: nat) returns (run: seq<System>)
    requires n >= 2
    ensures IsRun(n, run) && run[|run| - 1] == Unlocked(n)
  {
    run := ToSecondStarts(n);
    run := Chained(run, n, Work(0));
    assert run[|run| - 1].ops[0].sync.states == map[2 := IterationState(0, false)];
    assert run[|run| - 1].ops[0].tasks == Unlocked(n).ops[0].tasks;
    assert run[|run| - 1].ops == Unlocked(n).ops;
    assert run[|run| - 1].workers == Workers(n, None, None);
  }

  lemma ToThirdStarts(n: nat) returns (run: seq<System>)
    requires n >= 2
    ensures IsRun(n, run) && run[|run| - 1] == ThirdStarts(n)
  {
    run := ToUnlocked(n);
    run := Chained(run, n, Collect(0, true, []));
    run := Chained(run, n, Admit);
    assert run[|run| - 1].ops[0].tasks == [Header(1, DONE), Tail(1, DONE), Header(2, START), Tail(2, START)];
    run := Chained(run, n, Collect(0, false, []));
    run := Chained(run, n, Admit);
    assert run[|run| - 1].ops[0].tasks == ThirdStarts(n).ops[0].tasks;
    assert run[|run| - 1].ops[0].gates == ThirdStarts(n).ops[0].gates;
    assert run[|run| - 1].ops[0].sync.states == ThirdStarts(n).ops[0].sync.states;
    assert run[|run| - 1].ops == ThirdStarts(n).ops;
    assert run[|run| - 1].order == ThirdStarts(n).order;
  }

  /** The header of iteration 2 is published and is about to count down; its tail is still queued. */
  function SecondFinishes(n: nat): System
    requires n >= 2
  {
    Racing(n, [Header(1, DONE), Tail(1, DONE), Header(2, FINISH), Tail(2, START), Header(3, START)],
           NameSync(3, true, true, map[2 := IterationState(1, false), 3 := IterationState(0, false)]),
           map[2 := Gate(true, 0), 3 := Gate(false, 0)], map[1 := 0],
           [TailMsg(1), HeaderMsg(1), HeaderMsg(2)], true, true, 3, Some(2), None)
  }

  lemma ToSecondFinishes(n: nat) returns (run: seq<System>)
    requires n >= 2
    ensures IsRun(n, run) && run[|run| - 1] == SecondFinishes(n)
  {
    run := ToThirdStarts(n);
    run := Chained(run, n, Pop(0));
    run := EmptyRuns(run, n, 0, 0, 2, FINISH);
    var o := run[|run| - 1].ops[0];
    assert o.tasks == SecondFinishes(n).ops[0].tasks;
    assert o.sync.states == SecondFinishes(n).ops[0].sync.states;
    assert o.gates == SecondFinishes(n).ops[0].gates && o.log == SecondFinishes(n).ops[0].log;
    assert run[|run| - 1].ops == SecondFinishes(n).ops;
    assert run[|run| - 1].workers == Workers(n, Some(2), None);
  }

  /** It has counted down: no task of iteration 2 is active, and its tail has not started. */
  function SecondPublished(n: nat): System
    requires n >= 2
  {
    Racing(n, [Header(1, DONE), Tail(1, DONE), Header(2, DONE), Tail(2, START), Header(3, START)],
           NameSync(3, true, true, map[2 := IterationState(0, false), 3 := IterationState(0, false)]),
           map[2 := Gate(true, 0), 3 := Gate(false, 0)], map[1 := 0],
           [TailMsg(1), HeaderMsg(1), HeaderMsg(2)], true, true, 3, None, None)
  }

  lemma ToSecondPublished(n: nat) returns (run: seq<System>)
    requires n >= 2
    ensures IsRun(n, run) && run[|run| - 1] == SecondPublished(n)
  {
    run := ToSecondFinishes(n);
    run := Chained(run, n, Work(0));
    assert run[|run| - 1].ops[0].tasks[2].phase == CHECK;
    run := Chained(run, n, Work(0));
    var o := run[|run| - 1].ops[0];
    assert o.tasks == SecondPublished(n).ops[0].tasks;
    assert o.sync.states == SecondPublished(n).ops[0].sync.states;
    assert run[|run| - 1].ops == SecondPublished(n).ops;
    assert run[|run| - 1].workers == Workers(n, None, None);
  }

  /** The queue then has the header of iteration 3 without the tail of iteration 2. */
  lemma TailMissing(n: nat) returns (run: seq<System>)
    requires n >= 2
    ensures IsRun(n, run)
    ensures var s := run[|run| - 1];
            && |s.ops| == 1 && s.ops[0].kind.TimedBuffered? && !s.ops[0].disturbed && s.ops[0].rushed
            && s.ops[0].log == [TailMsg(1), HeaderMsg(1), HeaderMsg(2), HeaderMsg(3)]
  {
    run := ToSecondPublished(n);
    run := Chained(run, n, Pop(1));
    run := Chained(run, n, Pop(0));
    run := EmptyRuns(run, n, 0, 0, 4, OPEN_GATE);
  }
}
