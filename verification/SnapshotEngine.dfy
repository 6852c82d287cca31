/**
  The whole repeating-snapshot engine: any number of snapshots, one scheduler thread, commands, and
  a first-in first-out pool of N workers. A run is any sequence of their steps.
 */
module SnapshotEngine {
  import opened Types
  import opened IterationSync
  import opened IterationGates
  import opened SnapshotProtocol
  import opened SnapshotInvariant
  import opened SnapshotOrder
  import opened SnapshotSerial

  datatype TaskRef = TaskRef(op: nat, task: nat)

  /**
    `order`: every task handed to the pool, in submission order; the pool's queue is order[popped..].
    `workers`: the position in `order` each worker is busy with.
    `scheduler`: the operation whose submission the scheduler thread holds, possibly waiting in
    acquireIteration. It holds the lock on the running snapshots meanwhile.

    The synchronizer and the event counters are keyed by name: every operation of a name carries the
    same current entry of it.
   */
  datatype System = System(ops: seq<Op>, order: seq<TaskRef>, popped: nat, workers: seq<Option<nat>>, scheduler: Option<nat>)

  function Init(n: nat): System {
    System([], [], 0, seq(n, _ => None), None)
  }

  datatype Action =
    | Start(kind: SnapshotKind, name: nat)
    | Stop(op: nat)
    | Collect(op: nat, windowExpired: bool, events: seq<MonitorEvent>)
    | Admit
    | Pop(worker: nat)
    | Work(worker: nat)

  predicate WellFormed(s: System) {
    && s.popped <= |s.order|
    && (forall p :: 0 <= p < |s.order| ==> s.order[p].op < |s.ops| && s.order[p].task < |s.ops[s.order[p].op].tasks|)
    && (forall w :: 0 <= w < |s.workers| && s.workers[w].Some? ==> s.workers[w].value < s.popped)
    && (s.scheduler.Some? ==> s.scheduler.value < |s.ops|)
  }

  function TaskAt(s: System, p: nat): Task
    requires WellFormed(s) && p < |s.order|
  {
    s.ops[s.order[p].op].tasks[s.order[p].task]
  }

  /** Operation o once `other` has changed the tables of its name. */
  function Seen(o: Op, other: Op): Op {
    if o.name != other.name then o
    else o.(sync := other.sync,
            counters := other.counters,
            disturbed := o.disturbed || (o.promises == 0 && other.sync != o.sync),
            miscounted := o.miscounted || (o.promises == 0 && other.counters != o.counters))
  }

  /** Operation i becomes o', and the others of its name see what it did to the tables. */
  function Spread(ops: seq<Op>, i: nat, o': Op): seq<Op> {
    seq(|ops|, m requires 0 <= m < |ops| => if m == i then o' else Seen(ops[m], o'))
  }

  /** What the tables hold for a name. */
  function TablesOf(ops: seq<Op>, name: nat): (NameSync, map<nat, nat>) {
    if ops == [] then (Fresh(), map[])
    else
      var last := ops[|ops| - 1];
      if last.name == name then (last.sync, last.counters) else TablesOf(ops[..|ops| - 1], name)
  }

  /** Some task is between the two accesses of finishTask, and holds the mutex of the synchronizer shared. */
  predicate Reading(s: System) {
    exists i, j :: 0 <= i < |s.ops| && 0 <= j < |s.ops[i].tasks| && s.ops[i].tasks[j].phase == CHECK
  }

  /**
    The guard of each step. Commands and passes need the lock on the running snapshots. A snapshot is
    started again once its stop was answered, which may be before its last tasks are through.
   */
  predicate Possible(s: System, a: Action)
    requires WellFormed(s)
  {
    match a
    case Start(_, name) => s.scheduler.None? && forall i :: 0 <= i < |s.ops| && s.ops[i].name == name ==> s.ops[i].promises == 1
    case Stop(op) => s.scheduler.None? && op < |s.ops| && s.ops[op].listed
    case Collect(op, _, _) => s.scheduler.None? && op < |s.ops| && s.ops[op].listed && s.ops[op].waiting.None?
    case Admit =>
      && s.scheduler.Some? && CanAdmit(s.ops[s.scheduler.value])
      && (s.ops[s.scheduler.value].waiting.value.parts.header ==> !Reading(s))
    case Pop(w) => w < |s.workers| && s.workers[w].None? && s.popped < |s.order|
    case Work(w) =>
      && w < |s.workers| && s.workers[w].Some?
      && var r := s.order[s.workers[w].value];
      && Enabled(s.ops[r.op], r.task)
      && (IsExclusive(s.ops[r.op].tasks[r.task]) ==> !Reading(s))
  }

  function After(s: System, a: Action): System
    requires WellFormed(s) && Possible(s, a)
  {
    match a
    case Start(kind, name) =>
      var tables := TablesOf(s.ops, name);
      s.(ops := s.ops + [NewOp(kind, name, tables.0, tables.1)])
    case Stop(op) => s.(ops := s.ops[op := s.ops[op].(running := false)])
    case Collect(op, expired, events) => s.(ops := s.ops[op := Collected(s.ops[op], expired, events)], scheduler := Some(op))
    case Admit =>
      var op := s.scheduler.value;
      s.(ops := Spread(s.ops, op, Admitted(s.ops[op])),
         order := s.order + [TaskRef(op, |s.ops[op].tasks|)],
         scheduler := None)
    case Pop(w) => s.(workers := s.workers[w := Some(s.popped)], popped := s.popped + 1)
    case Work(w) =>
      var r := s.order[s.workers[w].value];
      var o' := Stepped(s.ops[r.op], r.task);
      s.(ops := Spread(s.ops, r.op, o'), workers := if o'.tasks[r.task].phase == DONE then s.workers[w := None] else s.workers)
  }

  // ---------------------------------------------------------------- the invariant

  /** Every task is in the pool exactly once, and the tasks of one snapshot are in order. */
  ghost predicate OrderInv(s: System) {
    && (forall p, q :: 0 <= p < q < |s.order| && s.order[p].op == s.order[q].op ==> s.order[p].task < s.order[q].task)
    && (forall i: nat, j: nat :: i < |s.ops| && j < |s.ops[i].tasks| ==> TaskRef(i, j) in s.order)
  }

  /** Queued tasks have not started; popped ones are done or on exactly one worker. */
  ghost predicate WorkerInv(s: System)
    requires WellFormed(s)
  {
    && (forall p: nat :: s.popped <= p < |s.order| ==> TaskAt(s, p).phase == START && TaskAt(s, p).sent == 0)
    && (forall p: nat :: p < s.popped ==> TaskAt(s, p).phase == DONE || Some(p) in s.workers)
    && (forall w :: 0 <= w < |s.workers| && s.workers[w].Some? ==> TaskAt(s, s.workers[w].value).phase != DONE)
    && (forall v, w :: 0 <= v < w < |s.workers| && s.workers[v].Some? ==> s.workers[v] != s.workers[w])
    && (|s.workers| == 1 && s.workers[0].Some? ==> s.workers[0].value == s.popped - 1)
  }

  ghost predicate PoolInv(s: System) {
    WellFormed(s) && OrderInv(s) && WorkerInv(s)
  }

  ghost predicate SchedulerHolds(s: System) {
    forall i: nat :: i < |s.ops| ==> (s.ops[i].waiting.Some? <==> s.scheduler == Some(i))
  }

  /** The tasks of the operation run one after another. */
  ghost predicate InSeries(o: Op, n: nat) {
    n == 1 || (o.kind.Normal? && !o.disturbed)
  }

  /** The exact contents of a snapshot's queue, where its tasks run one after another. */
  ghost predicate ExactOp(o: Op, n: nat) {
    && (o.kind.Normal? && !o.disturbed ==> NormalInv(o))
    && (InSeries(o, n) ==> !o.rushed && Serial(o.tasks) && BareLog(o.log) == Parted(o.tasks))
  }

  ghost predicate ExactInv(s: System) {
    forall i: nat :: i < |s.ops| ==> ExactOp(s.ops[i], |s.workers|)
  }

  ghost predicate OpsInv(s: System) {
    forall i: nat :: i < |s.ops| ==> FullInv(s.ops[i])
  }

  /** Of the operations of a name, which have one entry, only the latest can be in progress. */
  ghost predicate OneEntry(ops: seq<Op>) {
    forall i, j :: 0 <= i < j < |ops| && ops[i].name == ops[j].name ==>
      ops[i].promises == 1 && ops[i].sync == ops[j].sync && ops[i].counters == ops[j].counters
  }

  /** The entry of a name is empty when none is. */
  ghost predicate EntryEmpty(ops: seq<Op>) {
    forall i :: 0 <= i < |ops| && ops[i].promises == 1 && IsLatest(ops, i) ==> ops[i].sync == Fresh()
  }

  ghost predicate NamesInv(s: System) {
    OneEntry(s.ops) && EntryEmpty(s.ops)
  }

  ghost predicate IsLatest(ops: seq<Op>, i: nat)
    requires i < |ops|
  {
    forall j :: i < j < |ops| ==> ops[j].name != ops[i].name
  }

  ghost predicate SysInv(s: System) {
    OpsInv(s) && PoolInv(s) && SchedulerHolds(s) && NamesInv(s) && ExactInv(s)
  }

  // ---------------------------------------------------------------- each step keeps it

  lemma InitInv(n: nat)
    ensures SysInv(Init(n))
  {
  }

  lemma {:induction false} TablesAre(ops: seq<Op>, name: nat)
    ensures var t := TablesOf(ops, name);
            || (t == (Fresh(), map[]) && forall i :: 0 <= i < |ops| ==> ops[i].name != name)
            || exists i :: 0 <= i < |ops| && ops[i].name == name && IsLatest(ops, i) && t == (ops[i].sync, ops[i].counters)
  {
    if ops != [] {
      var n := |ops| - 1;
      if ops[n].name == name {
        assert IsLatest(ops, n);
      } else {
        TablesAre(ops[..n], name);
        if i :| 0 <= i < n && ops[..n][i].name == name && IsLatest(ops[..n], i) && TablesOf(ops[..n], name) == (ops[i].sync, ops[i].counters) {
          assert IsLatest(ops, i);
        }
      }
    }
  }

  /** A snapshot starts with an empty entry in the synchronizer. */
  lemma StartsFresh(s: System, name: nat)
    requires NamesInv(s) && forall i :: 0 <= i < |s.ops| && s.ops[i].name == name ==> s.ops[i].promises == 1
    ensures TablesOf(s.ops, name).0 == Fresh()
  {
    TablesAre(s.ops, name);
  }

  /** Operations other than i keep their part of the invariant when it changes the tables. */
  lemma OpsSpread(s: System, i: nat, o': Op)
    requires OpsInv(s) && NamesInv(s) && i < |s.ops| && FullInv(o') && o'.name == s.ops[i].name
    requires s.ops[i].promises == 1 ==>
               && o'.sync.current == s.ops[i].sync.current && o'.sync.cv == s.ops[i].sync.cv
               && (s.ops[i].sync == Fresh() ==> o'.sync == Fresh())
    ensures forall m :: 0 <= m < |s.ops| ==> FullInv(Spread(s.ops, i, o')[m])
  {
    forall m | 0 <= m < |s.ops| && m != i ensures FullInv(Seen(s.ops[m], o')) {
      if s.ops[m].name == o'.name {
        assert FullInv(s.ops[m]);
        SeenFull(s.ops[m], o'.sync, Seen(s.ops[m], o'));
      }
    }
  }

  lemma OpsAfterAdmit(s: System)
    requires WellFormed(s) && OpsInv(s) && NamesInv(s) && Possible(s, Admit)
    ensures OpsInv(After(s, Admit))
  {
    var o := s.ops[s.scheduler.value];
    assert FullInv(o) && Inv(o);
    WaitingIsOpen(o);
    AdmittedFull(o);
    OpsSpread(s, s.scheduler.value, Admitted(o));
  }

  lemma OpsAfterWork(s: System, w: nat)
    requires WellFormed(s) && OpsInv(s) && NamesInv(s) && Possible(s, Work(w))
    ensures OpsInv(After(s, Work(w)))
  {
    var r := s.order[s.workers[w].value];
    var o := s.ops[r.op];
    assert FullInv(o) && Inv(o);
    SteppedFull(o, r.task);
    if o.promises == 1 {
      LateStep(o, r.task);
    }
    OpsSpread(s, r.op, Stepped(o, r.task));
  }

  lemma OpsAfter(s: System, a: Action)
    requires WellFormed(s) && OpsInv(s) && NamesInv(s) && Possible(s, a)
    ensures OpsInv(After(s, a))
  {
    match a
    case Start(kind, name) =>
      StartsFresh(s, name);
      NewOpFull(kind, name, TablesOf(s.ops, name).1);
    case Stop(op) => StoppedFull(s.ops[op]);
    case Collect(op, expired, events) => CollectedFull(s.ops[op], expired, events);
    case Admit => OpsAfterAdmit(s);
    case Pop(_) =>
    case Work(w) => OpsAfterWork(s, w);
  }

  /** Whatever operation i does, all of its name have the same tables afterwards. */
  lemma NamesSpread(s: System, i: nat, o': Op, s': System)
    requires NamesInv(s) && i < |s.ops| && o'.name == s.ops[i].name && s.ops[i].promises in {0, 1} && o'.promises in {0, 1}
    requires s.ops[i].promises == 1 ==> o'.promises == 1 && (s.ops[i].sync == Fresh() ==> o'.sync == Fresh())
    requires s.ops[i].promises == 0 && o'.promises == 1 ==> o'.sync == Fresh()
    requires s'.ops == Spread(s.ops, i, o')
    ensures NamesInv(s')
  {
    EntrySpread(s.ops, i, o');
    forall m: nat | m < |s'.ops| && s'.ops[m].promises == 1 && IsLatest(s'.ops, m) ensures s'.ops[m].sync == Fresh() {
      SameLatest(s.ops, i, o', m);
      assert m < i ==> s'.ops[i].name == o'.name;
    }
  }

  lemma EntrySpread(ops: seq<Op>, i: nat, o': Op)
    requires OneEntry(ops) && i < |ops| && o'.name == ops[i].name && (ops[i].promises == 1 ==> o'.promises == 1)
    ensures OneEntry(Spread(ops, i, o'))
  {
  }

  lemma SameLatest(ops: seq<Op>, i: nat, o': Op, m: nat)
    requires i < |ops| && o'.name == ops[i].name && m < |ops| && IsLatest(Spread(ops, i, o'), m)
    ensures IsLatest(ops, m)
  {
    forall j | m < j < |ops| ensures ops[j].name != ops[m].name {
      assert Spread(ops, i, o')[j].name == ops[j].name;
    }
  }

  lemma NamesAfterStart(s: System, kind: SnapshotKind, name: nat)
    requires WellFormed(s) && NamesInv(s) && Possible(s, Start(kind, name))
    ensures NamesInv(After(s, Start(kind, name)))
  {
    var s' := After(s, Start(kind, name));
    TablesAre(s.ops, name);
    StartsFresh(s, name);
    forall i: nat | i < |s.ops| && IsLatest(s'.ops, i) ensures IsLatest(s.ops, i) {
      forall j | i < j < |s.ops| ensures s.ops[j].name != s.ops[i].name {
        assert s'.ops[j] == s.ops[j];
      }
    }
  }

  lemma NamesSame(s: System, s': System)
    requires NamesInv(s) && |s'.ops| == |s.ops|
    requires forall i :: 0 <= i < |s.ops| ==>
               && s'.ops[i].name == s.ops[i].name && s'.ops[i].promises == s.ops[i].promises
               && s'.ops[i].sync == s.ops[i].sync && s'.ops[i].counters == s.ops[i].counters
    ensures NamesInv(s')
  {
    forall i: nat | i < |s.ops| && IsLatest(s'.ops, i) ensures IsLatest(s.ops, i) {
      forall j | i < j < |s.ops| ensures s.ops[j].name != s.ops[i].name {
        assert s'.ops[j].name == s.ops[j].name;
      }
    }
  }

  /** What a step of a task means to the name of its operation. */
  lemma NameStep(o: Op, j: nat)
    requires Inv(o) && j < |o.tasks| && Enabled(o, j)
    ensures var o' := Stepped(o, j);
            && o'.name == o.name && o.promises in {0, 1} && o'.promises in {0, 1}
            && (o.promises == 1 ==> o'.promises == 1 && (o.sync == Fresh() ==> o'.sync == Fresh()))
            && (o.promises == 0 && o'.promises == 1 ==> o'.sync == Fresh())
  {
    SteppedPromise(o, j);
    PromisedOnce(o);
    PromisedOnce(Stepped(o, j));
    if o.promises == 1 {
      LateStep(o, j);
    }
  }

  lemma PromisedOnce(o: Op)
    requires PromiseInv(o)
    ensures o.promises in {0, 1}
  {
  }

  lemma NamesAfterWork(s: System, w: nat)
    requires WellFormed(s) && OpsInv(s) && NamesInv(s) && Possible(s, Work(w))
    ensures NamesInv(After(s, Work(w)))
  {
    var r := s.order[s.workers[w].value];
    assert FullInv(s.ops[r.op]) && Inv(s.ops[r.op]);
    NameStep(s.ops[r.op], r.task);
    NamesSpread(s, r.op, Stepped(s.ops[r.op], r.task), After(s, Work(w)));
  }

  lemma NamesAfterAdmit(s: System)
    requires WellFormed(s) && OpsInv(s) && NamesInv(s) && Possible(s, Admit)
    ensures NamesInv(After(s, Admit))
  {
    var o := s.ops[s.scheduler.value];
    assert FullInv(o) && Inv(o);
    WaitingIsOpen(o);
    NamesSpread(s, s.scheduler.value, Admitted(o), After(s, Admit));
  }

  lemma NamesAfterPass(s: System, a: Action)
    requires WellFormed(s) && NamesInv(s) && Possible(s, a) && (a.Stop? || a.Collect? || a.Pop?)
    ensures NamesInv(After(s, a))
  {
    NamesSame(s, After(s, a));
  }

  lemma NamesAfter(s: System, a: Action)
    requires WellFormed(s) && OpsInv(s) && NamesInv(s) && Possible(s, a)
    ensures NamesInv(After(s, a))
  {
    if a.Start? {
      NamesAfterStart(s, a.kind, a.name);
    } else if a.Admit? {
      NamesAfterAdmit(s);
    } else if a.Work? {
      NamesAfterWork(s, a.worker);
    } else {
      NamesAfterPass(s, a);
    }
  }

  lemma StoppedFull(o: Op)
    requires FullInv(o)
    ensures FullInv(o.(running := false))
  {
  }

  lemma OrderAfterAdmit(s: System)
    requires WellFormed(s) && OrderInv(s) && Possible(s, Admit)
    ensures OrderInv(After(s, Admit))
  {
    var s' := After(s, Admit);
    var op := s.scheduler.value;
    forall i: nat, j: nat | i < |s'.ops| && j < |s'.ops[i].tasks| ensures TaskRef(i, j) in s'.order {
      if i == op && j == |s.ops[op].tasks| {
        assert s'.order[|s.order|] == TaskRef(i, j);
      } else {
        assert TaskRef(i, j) in s.order;
      }
    }
  }

  lemma PoolAfterAdmit(s: System)
    requires PoolInv(s) && Possible(s, Admit)
    ensures PoolInv(After(s, Admit))
  {
    var s' := After(s, Admit);
    OrderAfterAdmit(s);
    AdmitTasks(s);
    forall p: nat | p < s'.popped ensures TaskAt(s', p).phase == DONE || Some(p) in s'.workers {
      assert TaskAt(s', p) == TaskAt(s, p);
    }
  }

  lemma AdmitTasks(s: System)
    requires WellFormed(s) && Possible(s, Admit)
    ensures var s' := After(s, Admit);
            && WellFormed(s') && |s'.order| == |s.order| + 1
            && (forall p: nat :: p < |s.order| ==> s'.order[p] == s.order[p] && TaskAt(s', p) == TaskAt(s, p))
            && TaskAt(s', |s.order|).phase == START && TaskAt(s', |s.order|).sent == 0
  {
  }

  lemma PoolAfterPop(s: System, w: nat)
    requires PoolInv(s) && Possible(s, Pop(w))
    ensures PoolInv(After(s, Pop(w)))
  {
    var s' := After(s, Pop(w));
    forall p: nat | p < |s.order| ensures TaskAt(s', p) == TaskAt(s, p) {
    }
    forall p: nat | p < s'.popped ensures TaskAt(s', p).phase == DONE || Some(p) in s'.workers {
      if p == s.popped {
        assert s'.workers[w] == Some(p);
      } else if TaskAt(s, p).phase != DONE {
        var v :| 0 <= v < |s.workers| && s.workers[v] == Some(p);
        assert s'.workers[v] == Some(p);
      }
    }
  }

  lemma WorkChanges(s: System, w: nat)
    requires PoolInv(s) && Possible(s, Work(w))
    ensures var s', p := After(s, Work(w)), s.workers[w].value;
            && WellFormed(s')
            && (forall q: nat :: q < |s.order| && q != p ==> TaskAt(s', q) == TaskAt(s, q))
            && TaskAt(s', p).sub == TaskAt(s, p).sub
            && TaskAt(s', p) == Advanced(s.ops[s.order[p].op], s.order[p].task)[s.order[p].task]
  {
    var s', p := After(s, Work(w)), s.workers[w].value;
    forall q: nat | q < |s.order| && q != p ensures s.order[q] != s.order[p] {
    }
  }

  lemma PoolAfterWork(s: System, w: nat)
    requires PoolInv(s) && Possible(s, Work(w))
    ensures PoolInv(After(s, Work(w)))
  {
    WorkChanges(s, w);
    PoolMovesOn(s, After(s, Work(w)), w);
  }

  /** Worker w has moved its task on, and is free if that is done. */
  lemma PoolMovesOn(s: System, s': System, w: nat)
    requires PoolInv(s) && WellFormed(s') && w < |s.workers| && s.workers[w].Some?
    requires s'.order == s.order && s'.popped == s.popped && |s'.ops| == |s.ops|
    requires forall i :: 0 <= i < |s.ops| ==> |s'.ops[i].tasks| == |s.ops[i].tasks|
    requires forall q: nat :: q < |s.order| && q != s.workers[w].value ==> TaskAt(s', q) == TaskAt(s, q)
    requires s'.workers == if TaskAt(s', s.workers[w].value).phase == DONE then s.workers[w := None] else s.workers
    ensures PoolInv(s')
  {
    var p := s.workers[w].value;
    forall q: nat | q < s'.popped ensures TaskAt(s', q).phase == DONE || Some(q) in s'.workers {
      if q == p {
        assert s'.workers != s.workers || s'.workers[w] == Some(p);
      } else if TaskAt(s, q).phase != DONE {
        var v :| 0 <= v < |s.workers| && s.workers[v] == Some(q);
        assert s'.workers[v] == Some(q);
      }
    }
  }

  lemma PoolAfterOther(s: System, a: Action)
    requires PoolInv(s) && Possible(s, a) && (a.Start? || a.Stop? || a.Collect?)
    ensures PoolInv(After(s, a))
  {
    var s' := After(s, a);
    forall i: nat | i < |s.ops| ensures s'.ops[i].tasks == s.ops[i].tasks {
    }
    forall p: nat | p < |s.order| ensures TaskAt(s', p) == TaskAt(s, p) {
    }
  }

  lemma PoolAfter(s: System, a: Action)
    requires PoolInv(s) && Possible(s, a)
    ensures PoolInv(After(s, a))
  {
    match a
    case Admit => PoolAfterAdmit(s);
    case Pop(w) => PoolAfterPop(s, w);
    case Work(w) => PoolAfterWork(s, w);
    case Start(_, _) => PoolAfterOther(s, a);
    case Stop(_) => PoolAfterOther(s, a);
    case Collect(_, _, _) => PoolAfterOther(s, a);
  }

  /** With one worker, the task it runs is the next one of its snapshot. */
  lemma OneWorkerInTurn(s: System)
    requires PoolInv(s) && |s.workers| == 1 && s.workers[0].Some?
    ensures var r := s.order[s.workers[0].value]; InTurn(s.ops[r.op].tasks, r.task)
  {
    var p := s.workers[0].value;
    var r := s.order[p];
    forall j: nat | j < |s.ops[r.op].tasks| && j != r.task
      ensures j < r.task ==> s.ops[r.op].tasks[j].phase == DONE
      ensures j > r.task ==> s.ops[r.op].tasks[j].phase == START && s.ops[r.op].tasks[j].sent == 0
    {
      assert TaskRef(r.op, j) in s.order;
      var q: nat :| q < |s.order| && s.order[q] == TaskRef(r.op, j);
      assert TaskAt(s, q) == s.ops[r.op].tasks[j];
    }
  }

  lemma AdmittedExact(o: Op, n: nat)
    requires SchedulerInv(o) && ExactOp(o, n) && CanAdmit(o)
    ensures ExactOp(Admitted(o), n)
  {
    var t := Admitted(o).tasks[|o.tasks|];
    assert Admitted(o).tasks == o.tasks + [t];
    AppendedParted(o.tasks, t);
    if o.kind.Normal? && !o.disturbed {
      AdmittedNormal(o);
    }
  }

  lemma WorkedExact(s: System, w: nat)
    requires OpsInv(s) && PoolInv(s) && ExactInv(s) && Possible(s, Work(w))
    ensures var r := s.order[s.workers[w].value]; ExactOp(Stepped(s.ops[r.op], r.task), |s.workers|)
  {
    var r := s.order[s.workers[w].value];
    var o := s.ops[r.op];
    assert FullInv(o) && ExactOp(o, |s.workers|);
    if |s.workers| == 1 {
      OneWorkerInTurn(s);
      StepExact(o, r.task, 1);
    } else if InSeries(o, |s.workers|) {
      SteppedNormal(o, r.task);
      StepExact(o, r.task, |s.workers|);
    }
  }

  lemma StepExact(o: Op, j: nat, n: nat)
    requires FullInv(o) && ExactOp(o, n) && j < |o.tasks| && Enabled(o, j) && InTurn(o.tasks, j) && InSeries(o, n)
    ensures ExactOp(Stepped(o, j), n)
  {
    assert SchedulerInv(o);
    SteppedSerial(o, j);
    InTurnIsCalm(o, j);
    if o.kind.Normal? && !o.disturbed {
      SteppedNormal(o, j);
    }
  }

  /** A task that runs in turn does not start in the gap of a finishTask. */
  lemma InTurnIsCalm(o: Op, j: nat)
    requires InTurn(o.tasks, j) && !o.rushed && Enabled(o, j)
    ensures !Stepped(o, j).rushed && Stepped(o, j).kind == o.kind
  {
  }

  /** The lock does not matter to the tasks of an operation whose promise is set. */
  lemma SeenNormal(o: Op, other: Op)
    requires SchedulerInv(o) && PromiseInv(o) && NormalInv(o) && !Seen(o, other).disturbed
    ensures NormalInv(Seen(o, other))
  {
  }

  lemma SeenExact(o: Op, other: Op, n: nat)
    requires SchedulerInv(o) && PromiseInv(o) && ExactOp(o, n)
    ensures ExactOp(Seen(o, other), n)
  {
    var o' := Seen(o, other);
    assert o'.tasks == o.tasks && o'.log == o.log && o'.kind == o.kind && o'.rushed == o.rushed && (o.disturbed ==> o'.disturbed);
    if o.kind.Normal? && !o'.disturbed {
      SeenNormal(o, other);
    }
  }

  lemma ExactSpread(s: System, i: nat, o': Op, s': System)
    requires OpsInv(s) && ExactInv(s) && i < |s.ops| && |s'.workers| == |s.workers| && s'.ops == Spread(s.ops, i, o')
    requires ExactOp(o', |s.workers|)
    ensures ExactInv(s')
  {
    forall m: nat | m < |s.ops| && m != i ensures ExactOp(s'.ops[m], |s.workers|) {
      assert FullInv(s.ops[m]) && Inv(s.ops[m]) && ExactOp(s.ops[m], |s.workers|);
      SeenExact(s.ops[m], o', |s.workers|);
    }
  }

  lemma ExactAfterPass(s: System, a: Action)
    requires WellFormed(s) && ExactInv(s) && Possible(s, a) && (a.Stop? || a.Collect?)
    ensures ExactInv(After(s, a))
  {
    var o, o' := s.ops[a.op], After(s, a).ops[a.op];
    assert o'.tasks == o.tasks && o'.log == o.log && o'.sync == o.sync && o'.kind == o.kind;
    assert o'.rushed == o.rushed && o'.disturbed == o.disturbed;
    assert ExactOp(o, |s.workers|);
    forall m: nat | m < |s.ops| ensures ExactOp(After(s, a).ops[m], |s.workers|) {
      assert ExactOp(s.ops[m], |s.workers|);
    }
  }

  lemma ExactAfterStart(s: System, kind: SnapshotKind, name: nat)
    requires WellFormed(s) && ExactInv(s) && Possible(s, Start(kind, name))
    ensures ExactInv(After(s, Start(kind, name)))
  {
    var s' := After(s, Start(kind, name));
    assert ExactOp(s'.ops[|s.ops|], |s.workers|);
  }

  lemma ExactAfterAdmit(s: System)
    requires OpsInv(s) && WellFormed(s) && ExactInv(s) && Possible(s, Admit)
    ensures ExactInv(After(s, Admit))
  {
    var o := s.ops[s.scheduler.value];
    assert ExactOp(o, |s.workers|) && FullInv(o) && SchedulerInv(o);
    AdmittedExact(o, |s.workers|);
    ExactSpread(s, s.scheduler.value, Admitted(o), After(s, Admit));
  }

  lemma ExactAfterWork(s: System, w: nat)
    requires OpsInv(s) && PoolInv(s) && ExactInv(s) && Possible(s, Work(w))
    ensures ExactInv(After(s, Work(w)))
  {
    var r := s.order[s.workers[w].value];
    WorkedExact(s, w);
    ExactSpread(s, r.op, Stepped(s.ops[r.op], r.task), After(s, Work(w)));
  }

  lemma ExactAfter(s: System, a: Action)
    requires OpsInv(s) && PoolInv(s) && ExactInv(s) && Possible(s, a)
    ensures ExactInv(After(s, a))
  {
    match a
    case Start(kind, name) => ExactAfterStart(s, kind, name);
    case Stop(_) => ExactAfterPass(s, a);
    case Collect(_, _, _) => ExactAfterPass(s, a);
    case Pop(_) =>
    case Admit => ExactAfterAdmit(s);
    case Work(w) => ExactAfterWork(s, w);
  }

  lemma SchedulerAfter(s: System, a: Action)
    requires WellFormed(s) && SchedulerHolds(s) && Possible(s, a)
    ensures SchedulerHolds(After(s, a))
  {
  }

  lemma SysAfter(s: System, a: Action)
    requires SysInv(s) && Possible(s, a)
    ensures SysInv(After(s, a))
  {
    OpsAfter(s, a);
    PoolAfter(s, a);
    NamesAfter(s, a);
    ExactAfter(s, a);
    SchedulerAfter(s, a);
  }

  // ---------------------------------------------------------------- runs

  ghost predicate Next(s: System, s': System) {
    WellFormed(s) && exists a :: Possible(s, a) && s' == After(s, a)
  }

  /** A run of the engine with n workers. */
  ghost predicate IsRun(n: nat, run: seq<System>) {
    && run != []
    && run[0] == Init(n)
    && forall i :: 0 <= i < |run| - 1 ==> Next(run[i], run[i + 1])
  }

  /** What every step keeps holds from any state of a run on. */
  lemma {:induction false} Always(n: nat, run: seq<System>, t: nat, u: nat, holds: System -> bool)
    requires IsRun(n, run) && t <= u < |run| && holds(run[t])
    requires forall s, s' {:trigger Next(s, s')} :: holds(s) && Next(s, s') ==> holds(s')
    ensures holds(run[u])
  {
    if t < u {
      Always(n, run, t, u - 1, holds);
      assert Next(run[u - 1], run[u - 1 + 1]);
    }
  }

  lemma NextKeeps(s: System, s': System)
    requires SysInv(s) && Next(s, s')
    ensures SysInv(s') && |s'.workers| == |s.workers|
  {
    var a :| Possible(s, a) && s' == After(s, a);
    SysAfter(s, a);
    WorkersKept(s, a);
  }

  lemma WorkersKept(s: System, a: Action)
    requires WellFormed(s) && Possible(s, a)
    ensures |After(s, a).workers| == |s.workers|
  {
  }

  lemma {:induction false} RunInv(n: nat, run: seq<System>, i: nat)
    requires IsRun(n, run) && i < |run|
    ensures SysInv(run[i]) && |run[i].workers| == n
  {
    if i == 0 {
      InitInv(n);
    } else {
      RunInv(n, run, i - 1);
      assert Next(run[i - 1], run[i - 1 + 1]);
      NextKeeps(run[i - 1], run[i]);
    }
  }
}
