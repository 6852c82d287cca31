/** The main results about the repeating-snapshot engine: statements about every state of every run. */
module SnapshotTheorems {
  import opened Types
  import opened IterationSync
  import opened IterationGates
  import opened SnapshotProtocol
  import opened SnapshotInvariant
  import opened SnapshotOrder
  import opened SnapshotSerial
  import opened SnapshotEngine
  import opened SnapshotRaces

  // ---------------------------------------------------------------- operations that nothing disturbs

  /** No other operation has the name of operation i. */
  ghost predicate IsAlone(s: System, i: nat) {
    i < |s.ops| && forall j :: 0 <= j < |s.ops| && j != i ==> s.ops[j].name != s.ops[i].name
  }

  ghost predicate AloneIsClean(s: System, i: nat) {
    IsAlone(s, i) ==> !s.ops[i].disturbed && !s.ops[i].miscounted
  }

  lemma AloneStep(s: System, s': System, i: nat)
    requires AloneIsClean(s, i) && Next(s, s')
    ensures AloneIsClean(s', i)
  {
    var a :| Possible(s, a) && s' == After(s, a);
    if IsAlone(s', i) {
      if a.Start? && i == |s.ops| {
        TablesAre(s.ops, a.name);
        assert forall j :: 0 <= j < |s.ops| ==> s'.ops[j] == s.ops[j];
      } else {
        AloneBefore(s, a, i);
      }
    }
  }

  lemma AloneBefore(s: System, a: Action, i: nat)
    requires WellFormed(s) && Possible(s, a) && IsAlone(After(s, a), i) && i < |s.ops|
    ensures IsAlone(s, i) && After(s, a).ops[i].disturbed == s.ops[i].disturbed && After(s, a).ops[i].miscounted == s.ops[i].miscounted
  {
    var s' := After(s, a);
    forall j | 0 <= j < |s.ops| ensures s'.ops[j].name == s.ops[j].name {
    }
  }

  /** In any run an operation whose name no other has is undisturbed, and its events are counted by nobody else. */
  lemma AloneIsUndisturbed(n: nat, run: seq<System>, t: nat, i: nat)
    requires IsRun(n, run) && t < |run| && IsAlone(run[t], i)
    ensures !run[t].ops[i].disturbed && !run[t].ops[i].miscounted
  {
    forall s, s' | AloneIsClean(s, i) && Next(s, s') ensures AloneIsClean(s', i) {
      AloneStep(s, s', i);
    }
    Always(n, run, 0, t, s => AloneIsClean(s, i));
  }

  // ---------------------------------------------------------------- order and completeness, any pool

  /** At the tail of iteration k, every submission of k is in the queue, event for event. */
  ghost predicate CompleteAt(o: Op, k: nat) {
    forall j: nat :: j < |o.tasks| && o.tasks[j].sub.iter == k ==> DataOf(o.log, j) == o.tasks[j].sub.events
  }

  /** Inside an iteration the order holds for any pool and any interleaving. */
  lemma OrderWithinIterations(n: nat, run: seq<System>, t: nat, i: nat)
    requires IsRun(n, run) && t < |run| && i < |run[t].ops|
    ensures OrderedWithin(run[t].ops[i].log)
  {
    RunInv(n, run, t);
    assert FullInv(run[t].ops[i]) && QueueInv(run[t].ops[i]);
  }

  /** Between iterations it holds as long as no start falls into the gap of a finishTask and no earlier run of the name interferes. */
  lemma OrderUnlessRushed(n: nat, run: seq<System>, t: nat, i: nat)
    requires IsRun(n, run) && t < |run| && i < |run[t].ops| && !run[t].ops[i].rushed && !run[t].ops[i].disturbed
    ensures Ordered(run[t].ops[i].log)
  {
    RunInv(n, run, t);
    assert FullInv(run[t].ops[i]) && QueueInv(run[t].ops[i]);
  }

  /** With one worker, or for an undisturbed NORMAL snapshot, no start does. */
  lemma NeverRushed(n: nat, run: seq<System>, t: nat, i: nat)
    requires IsRun(n, run) && t < |run| && i < |run[t].ops| && InSeries(run[t].ops[i], n)
    ensures !run[t].ops[i].rushed
  {
    RunInv(n, run, t);
    assert ExactOp(run[t].ops[i], n);
  }

  lemma CompleteAtTails(n: nat, run: seq<System>, t: nat, i: nat, k: nat)
    requires IsRun(n, run) && t < |run| && i < |run[t].ops| && TailMsg(k) in run[t].ops[i].log
    ensures CompleteAt(run[t].ops[i], k)
  {
    RunInv(n, run, t);
    assert FullInv(run[t].ops[i]) && QueueInv(run[t].ops[i]);
    TailCompletes(run[t].ops[i], k);
  }

  lemma TailCompletes(o: Op, k: nat)
    requires SchedulerInv(o) && GateInv(o.tasks, o.gates) && BracketsLogged(o.tasks, o.log) && EventsLogged(o.tasks, o.log)
    requires TailMsg(k) in o.log
    ensures CompleteAt(o, k)
  {
    var ts := o.tasks;
    assert forall i :: 0 <= i < |ts| ==> TaskOk(ts[i]) && (ts[i].sub.events != [] ==> ts[i].sub.parts.data);
    var i: nat :| i < |ts| && ts[i].sub.parts.tail && ts[i].sub.iter == k && ts[i].phase > PUBLISH_TAIL;
    CompleteAtTail(ts, o.gates, i);
    forall j: nat | j < |ts| && ts[j].sub.iter == k ensures DataOf(o.log, j) == ts[j].sub.events {
      assert TaskOk(ts[j]) && EventsOf(ts, o.log, j);
      assert ts[j].sub.events[..|ts[j].sub.events|] == ts[j].sub.events;
    }
  }

  // ---------------------------------------------------------------- the exact queue

  /** The queue reads header(1) data(1)* tail(1) header(2) ... up to some point. */
  ghost predicate ExactlyOrdered(log: seq<Message>) {
    exists batches :: BareLog(log) <= Ideal(batches)
  }

  lemma ExactQueue(n: nat, run: seq<System>, t: nat, i: nat)
    requires IsRun(n, run) && t < |run| && i < |run[t].ops| && InSeries(run[t].ops[i], n)
    ensures BareLog(run[t].ops[i].log) <= Ideal(Batches(run[t].ops[i].tasks))
  {
    RunInv(n, run, t);
    var o := run[t].ops[i];
    assert FullInv(o) && ExactOp(o, n);
    SerialIsExact(o);
  }

  lemma IdealStartsWithHeader(batches: seq<seq<MonitorEvent>>)
    ensures batches != [] ==> Ideal(batches) != [] && Ideal(batches)[0] == HeaderMsg(1)
  {
  }

  /** An operation of that kind whose lock no earlier run of its name has touched. */
  ghost predicate Undisturbed(n: nat, run: seq<System>, t: nat, i: nat, kind: SnapshotKind) {
    IsRun(n, run) && t < |run| && i < |run[t].ops| && run[t].ops[i].kind == kind && !run[t].ops[i].disturbed
  }

  ghost predicate AlwaysExact(n: nat, kind: SnapshotKind) {
    forall run: seq<System>, t: nat, i: nat :: Undisturbed(n, run, t, i, kind) ==> ExactlyOrdered(run[t].ops[i].log)
  }

  /** Exactly which engines keep the queue of a snapshot in exact order: one worker, or NORMAL snapshots. */
  lemma ExactQueueIff(n: nat, kind: SnapshotKind)
    requires n >= 1
    ensures AlwaysExact(n, kind) <==> n == 1 || kind.Normal?
  {
    if n == 1 || kind.Normal? {
      forall run: seq<System>, t: nat, i: nat | Undisturbed(n, run, t, i, kind)
        ensures ExactlyOrdered(run[t].ops[i].log)
      {
        ExactQueue(n, run, t, i);
      }
    } else {
      var run := TailFirst(n);
      var log := run[|run| - 1].ops[0].log;
      assert log == [TailMsg(1)];
      forall batches ensures !(BareLog(log) <= Ideal(batches)) {
        IdealStartsWithHeader(batches);
        assert BareLog(log)[0] == TailMsg(1);
      }
      assert Undisturbed(n, run, |run| - 1, 0, kind) && !ExactlyOrdered(run[|run| - 1].ops[0].log);
    }
  }

  ghost predicate AlwaysOrdered(n: nat, kind: SnapshotKind) {
    forall run: seq<System>, t: nat, i: nat :: Undisturbed(n, run, t, i, kind) ==> Ordered(run[t].ops[i].log)
  }

  /** Exactly which engines keep the order between iterations in every run. */
  lemma AlwaysOrderedIff(n: nat, kind: SnapshotKind)
    requires n >= 1
    ensures AlwaysOrdered(n, kind) <==> n == 1 || kind.Normal?
  {
    if n == 1 || kind.Normal? {
      forall run: seq<System>, t: nat, i: nat | Undisturbed(n, run, t, i, kind)
        ensures Ordered(run[t].ops[i].log)
      {
        NeverRushed(n, run, t, i);
        OrderUnlessRushed(n, run, t, i);
      }
    } else {
      var run := TailMissing(n);
      var o := run[|run| - 1].ops[0];
      assert o.log[3].iter == 3 && TailMsg(2) !in o.log[..3];
      assert Undisturbed(n, run, |run| - 1, 0, kind) && !Ordered(o.log);
    }
  }

  // ---------------------------------------------------------------- event counts

  /**
    The count a tail logs is the number of its iteration's data messages, and nothing is kept of the
    iteration, as long as no earlier run of the name has interfered. Once the promise is set and the
    name may be in use again, that still holds of what was logged, unless a start was rushed.
   */
  lemma CountsAtTail(n: nat, run: seq<System>, t: nat, i: nat, k: nat)
    requires IsRun(n, run) && t < |run| && i < |run[t].ops| && TailMsg(k) in run[t].ops[i].log
    ensures k !in run[t].ops[i].gates
    ensures Counts(run[t].ops[i]) ==> k !in run[t].ops[i].counters
    ensures Counts(run[t].ops[i]) || CountsKept(run[t].ops[i]) ==>
              k in run[t].ops[i].taken && run[t].ops[i].taken[k] == DataCount(run[t].ops[i].log, k)
  {
    RunInv(n, run, t);
    var o := run[t].ops[i];
    assert FullInv(o) && Inv(o);
    PastWeakens(o.tasks, k, PUBLISH_TAIL, TAKE_COUNT);
    PastWeakens(o.tasks, k, PUBLISH_TAIL, AWAIT_DRAIN);
    assert CountsMatch(o.tasks, o.log) && BracketsLogged(o.tasks, o.log) && GateTable(o.tasks, o.gates);
  }

  /** Every submission in the pool has an iteration id, and it is the id of the latest header before it. */
  lemma IdsResolved(n: nat, run: seq<System>, t: nat, i: nat, j: nat)
    requires IsRun(n, run) && t < |run| && i < |run[t].ops| && j < |run[t].ops[i].tasks|
    ensures var ts := run[t].ops[i].tasks;
            && ts[j].sub.iter >= 1
            && exists h: nat :: h <= j && ts[h].sub.parts.header && ts[h].sub.iter == ts[j].sub.iter
                 && forall m: nat :: h < m <= j ==> !ts[m].sub.parts.header
  {
    RunInv(n, run, t);
    assert FullInv(run[t].ops[i]) && SchedulerInv(run[t].ops[i]);
    var h := HeaderOf(run[t].ops[i].tasks, j);
  }

  lemma {:induction false} HeaderOf(ts: seq<Task>, j: nat) returns (h: nat)
    requires Bracketed(ts) && j < |ts|
    ensures h <= j && ts[h].sub.parts.header && ts[h].sub.iter == ts[j].sub.iter
    ensures forall m: nat :: h < m <= j ==> !ts[m].sub.parts.header
  {
    if ts[j].sub.parts.header {
      h := j;
    } else {
      assert j > 0;
      h := HeaderOf(ts, j - 1);
    }
  }

  // ---------------------------------------------------------------- stopping

  /** The pass after a stop collects a last submission with a tail, and takes the snapshot off the list. */
  lemma PassAfterStop(o: Op, windowExpired: bool, events: seq<MonitorEvent>)
    requires o.listed && o.waiting.None? && !o.running
    ensures var o' := Collected(o, windowExpired, events);
            !o'.listed && o'.waiting.value.last && o'.waiting.value.parts.tail && o'.waiting.value.events == events
  {
  }

  /** Everything collected so far, oldest first. */
  function Submissions(o: Op): seq<Submission> {
    seq(|o.tasks|, j requires 0 <= j < |o.tasks| => o.tasks[j].sub) + if o.waiting.Some? then [o.waiting.value] else []
  }

  /** The last submission, and only that, is marked last; it carries the tail. */
  ghost predicate EndsWithLast(subs: seq<Submission>) {
    && subs != [] && subs[|subs| - 1].last && subs[|subs| - 1].parts.tail
    && forall j :: 0 <= j < |subs| - 1 ==> !subs[j].last
  }

  lemma OffTheList(o: Op)
    requires SchedulerInv(o)
    ensures if o.listed then forall j :: 0 <= j < |Submissions(o)| ==> !Submissions(o)[j].last else EndsWithLast(Submissions(o))
  {
    var subs, n := Submissions(o), |o.tasks|;
    forall j: nat | j < n ensures subs[j] == o.tasks[j].sub && (subs[j].last ==> j == n - 1) {
    }
    if o.waiting.Some? {
      assert subs[n] == o.waiting.value && |subs| == n + 1;
    } else {
      assert |subs| == n;
    }
  }

  /** Between two states of a stopped operation one submission is collected if it went off the list, and otherwise none. */
  ghost predicate StoppedSince(o: Op, o': Op) {
    && !o'.running && (o'.listed ==> o.listed)
    && |Submissions(o')| == |Submissions(o)| + if o.listed && !o'.listed then 1 else 0
  }

  lemma StoppedPass(o: Op, o': Op)
    requires !o.running && !o'.running && o'.listed == o.listed
    requires |o'.tasks| + (if o'.waiting.Some? then 1 else 0) == |o.tasks| + if o.waiting.Some? then 1 else 0
    ensures StoppedSince(o, o')
  {
  }

  lemma StoppedStep(s: System, a: Action, i: nat)
    requires WellFormed(s) && SchedulerHolds(s) && Possible(s, a) && i < |s.ops| && !s.ops[i].running
    ensures i < |After(s, a).ops| && StoppedSince(s.ops[i], After(s, a).ops[i])
  {
    var o, o' := s.ops[i], After(s, a).ops[i];
    if a.Collect? && a.op == i {
      assert |Submissions(o')| == |Submissions(o)| + 1;
    } else {
      assert a.Admit? ==> (s.scheduler == Some(i) <==> o.waiting.Some?);
      assert o'.listed == o.listed && o'.running == o.running;
      StoppedPass(o, o');
    }
  }

  lemma StoppedNext(s: System, s': System, i: nat)
    requires SysInv(s) && Next(s, s') && i < |s.ops| && !s.ops[i].running
    ensures i < |s'.ops| && StoppedSince(s.ops[i], s'.ops[i])
  {
    var a :| Possible(s, a) && s' == After(s, a);
    StoppedStep(s, a, i);
  }

  lemma StoppedChain(o: Op, o': Op, o'': Op)
    requires StoppedSince(o, o') && StoppedSince(o', o'')
    ensures StoppedSince(o, o'')
  {
  }

  ghost predicate StoppedNow(o: Op, i: nat, s: System) {
    SysInv(s) && i < |s.ops| && StoppedSince(o, s.ops[i])
  }

  lemma StoppedRunStep(o: Op, i: nat, s: System, s': System)
    requires StoppedNow(o, i, s) && Next(s, s')
    ensures StoppedNow(o, i, s')
  {
    NextKeeps(s, s');
    StoppedNext(s, s', i);
    StoppedChain(o, s.ops[i], s'.ops[i]);
  }

  lemma StoppedRun(n: nat, run: seq<System>, t: nat, u: nat, i: nat)
    requires IsRun(n, run) && t <= u < |run| && i < |run[t].ops| && !run[t].ops[i].running
    ensures i < |run[u].ops| && StoppedSince(run[t].ops[i], run[u].ops[i])
  {
    RunInv(n, run, t);
    var o := run[t].ops[i];
    forall s, s' | StoppedNow(o, i, s) && Next(s, s') ensures StoppedNow(o, i, s') {
      StoppedRunStep(o, i, s, s');
    }
    Always(n, run, t, u, s => StoppedNow(o, i, s));
  }

  /**
    After a stop exactly one more submission is collected, by the pass that takes the snapshot off the
    list. It is the last, it carries the tail, and no other is marked last.
   */
  lemma StopIsLast(n: nat, run: seq<System>, t: nat, u: nat, i: nat)
    requires IsRun(n, run) && t <= u < |run| && i < |run[t].ops| && !run[t].ops[i].running
    ensures i < |run[u].ops| && StoppedSince(run[t].ops[i], run[u].ops[i])
    ensures if run[u].ops[i].listed then forall j :: 0 <= j < |Submissions(run[u].ops[i])| ==> !Submissions(run[u].ops[i])[j].last
            else EndsWithLast(Submissions(run[u].ops[i]))
  {
    StoppedRun(n, run, t, u, i);
    RunInv(n, run, u);
    var o := run[u].ops[i];
    assert FullInv(o) && SchedulerInv(o);
    OffTheList(o);
  }

  /** The last iteration is out: its tail, and the data of all its submissions. */
  ghost predicate LastIsOut(o: Op) {
    !o.listed && o.waiting.None? && TailMsg(LastIter(o.tasks)) in o.log && CompleteAt(o, LastIter(o.tasks))
  }

  /** Nothing but headers of iterations without data can still be published. */
  ghost predicate Closed(o: Op) {
    && !o.listed && o.waiting.None?
    && TailMsg(LastIter(o.tasks)) in o.log
    && forall j: nat :: j < |o.tasks| ==>
         && (o.tasks[j].sub.parts.tail ==> o.tasks[j].phase > PUBLISH_TAIL)
         && DataOf(o.log, j) == o.tasks[j].sub.events
  }

  /**
    The stop is answered at most once, after the last tail and the data before it; with the lock in
    order after all tails and all data; and then an exact queue is complete.
   */
  lemma StopAnswered(n: nat, run: seq<System>, t: nat, i: nat)
    requires IsRun(n, run) && t < |run| && i < |run[t].ops|
    ensures var o := run[t].ops[i];
            && o.promises <= 1
            && (o.promises == 1 ==> LastIsOut(o))
            && (o.promises == 1 && !o.rushed && !o.disturbed ==> Closed(o))
            && (o.promises == 1 && InSeries(o, n) ==> BareLog(o.log) == Ideal(Batches(o.tasks)))
  {
    RunInv(n, run, t);
    var o := run[t].ops[i];
    assert FullInv(o) && PromiseInv(o);
    if o.promises == 1 {
      LastOut(o);
      if !o.rushed && !o.disturbed {
        PromisedCloses(o);
      }
      if InSeries(o, n) {
        assert ExactOp(o, n);
        PromisedIsWhole(o);
      }
    }
  }

  lemma LastOut(o: Op)
    requires FullInv(o) && o.promises == 1
    ensures LastIsOut(o) && TailPast(o.tasks, LastIter(o.tasks), MARK_TAIL)
  {
    var ts := o.tasks;
    assert SchedulerInv(o) && PromiseInv(o) && QueueInv(o);
    assert ts[|ts| - 1].sub.parts.tail && ts[|ts| - 1].phase > PROMISE;
    PastWeakens(ts, LastIter(ts), MARK_TAIL, PUBLISH_TAIL);
    TailCompletes(o, LastIter(ts));
  }

  lemma PromisedCloses(o: Op)
    requires FullInv(o) && o.promises == 1 && !o.rushed && !o.disturbed
    ensures Closed(o)
  {
    LastOut(o);
    AllOut(o);
  }

  lemma AllOut(o: Op)
    requires SchedulerInv(o) && TailsDone(o.tasks) && GateInv(o.tasks, o.gates)
    requires BracketsLogged(o.tasks, o.log) && EventsLogged(o.tasks, o.log)
    requires LastIsOut(o) && TailPast(o.tasks, LastIter(o.tasks), MARK_TAIL)
    ensures Closed(o)
  {
    var ts := o.tasks;
    forall j: nat | j < |ts|
      ensures ts[j].sub.parts.tail ==> ts[j].phase > PUBLISH_TAIL
      ensures TailMsg(ts[j].sub.iter) in o.log
    {
      TailIsOut(o, j);
    }
    forall j: nat | j < |ts| ensures DataOf(o.log, j) == ts[j].sub.events {
      TailCompletes(o, ts[j].sub.iter);
    }
  }

  /** Once the last tail is out, every iteration's tail is. */
  lemma TailIsOut(o: Op, j: nat)
    requires Bracketed(o.tasks) && TailsDone(o.tasks) && BracketsLogged(o.tasks, o.log) && j < |o.tasks|
    requires TailPast(o.tasks, LastIter(o.tasks), MARK_TAIL)
    ensures TailMsg(o.tasks[j].sub.iter) in o.log
    ensures o.tasks[j].sub.parts.tail ==> o.tasks[j].phase > PUBLISH_TAIL
  {
    var ts, k := o.tasks, o.tasks[j].sub.iter;
    assert 1 <= k <= LastIter(ts);
    assert TailPast(ts, k, MARK_TAIL);
    PastWeakens(ts, k, MARK_TAIL, PUBLISH_TAIL);
    forall i: nat | i < |ts| && ts[i].sub.parts.tail && ts[i].sub.iter == k && ts[j].sub.parts.tail ensures i == j {
      OneBracket(ts, i, j);
    }
  }

  lemma PromisedIsWhole(o: Op)
    requires SchedulerInv(o) && PromiseInv(o) && o.promises == 1 && Serial(o.tasks) && BareLog(o.log) == Parted(o.tasks)
    ensures BareLog(o.log) == Ideal(Batches(o.tasks))
  {
    var ts := o.tasks;
    var n := |ts| - 1;
    assert TaskOk(ts[n]);
    LatePart(ts[n]);
    PartedIsPrefix(ts[..n]);
    WholeIsIdeal(ts);
  }

  lemma LatePart(t: Task)
    requires TaskOk(t) && t.phase > PUBLISH_TAIL
    ensures Part(t) == Part(Finished(t))
  {
    assert t.sub.events[..t.sent] == t.sub.events == t.sub.events[..|t.sub.events|];
  }

  /** A stopped snapshot with an exact queue. */
  ghost predicate Stopped(s: System, i: nat) {
    && WellFormed(s) && i < |s.ops| && SchedulerHolds(s)
    && s.ops[i].promises == 1 && PromiseInv(s.ops[i]) && Serial(s.ops[i].tasks) && s.ops[i].waiting.None?
  }

  lemma IsStopped(s: System, i: nat)
    requires SysInv(s) && i < |s.ops| && s.ops[i].promises == 1 && InSeries(s.ops[i], |s.workers|)
    ensures Stopped(s, i)
  {
    var o := s.ops[i];
    assert FullInv(o) && ExactOp(o, |s.workers|) && SchedulerInv(o);
  }

  /** The last task of a stopped snapshot has nothing left to publish. */
  lemma SilentTask(o: Op, j: nat)
    requires PromiseInv(o) && o.promises == 1 && Serial(o.tasks) && j < |o.tasks| && Enabled(o, j)
    ensures Stepped(o, j).log == o.log && Stepped(o, j).promises == 1
  {
    assert j == |o.tasks| - 1;
  }

  /** An operation whose promise is set, and what of it stays the same. */
  ghost predicate StillSilent(s: System, s': System, i: nat)
    requires i < |s.ops|
  {
    && i < |s'.ops| && s'.ops[i].promises == 1 && s'.ops[i].kind == s.ops[i].kind
    && s'.ops[i].disturbed == s.ops[i].disturbed && s'.ops[i].log == s.ops[i].log
  }

  lemma SilentStep(s: System, a: Action, i: nat)
    requires Stopped(s, i) && Possible(s, a)
    ensures StillSilent(s, After(s, a), i)
  {
    if a.Work? {
      var r := s.order[s.workers[a.worker].value];
      if r.op == i {
        SilentTask(s.ops[i], r.task);
      }
    } else if a.Admit? {
      assert s.scheduler.value != i;
    }
  }

  lemma SilentNext(s: System, s': System, i: nat)
    requires Stopped(s, i) && Next(s, s')
    ensures StillSilent(s, s', i)
  {
    var a :| Possible(s, a) && s' == After(s, a);
    SilentStep(s, a, i);
  }

  ghost predicate SilentNow(s0: System, n: nat, i: nat, s: System)
    requires i < |s0.ops|
  {
    SysInv(s) && |s.workers| == n && i < |s.ops| && InSeries(s.ops[i], n) && StillSilent(s0, s, i)
  }

  lemma SilentRunStep(s0: System, n: nat, i: nat, s: System, s': System)
    requires i < |s0.ops| && SilentNow(s0, n, i, s) && Next(s, s')
    ensures SilentNow(s0, n, i, s')
  {
    IsStopped(s, i);
    SilentNext(s, s', i);
    NextKeeps(s, s');
  }

  /** And then, with an exact queue, nothing is published for the snapshot any more. */
  lemma SilentAfterStop(n: nat, run: seq<System>, t: nat, u: nat, i: nat)
    requires IsRun(n, run) && t <= u < |run| && i < |run[t].ops|
    requires run[t].ops[i].promises == 1 && InSeries(run[t].ops[i], n)
    ensures StillSilent(run[t], run[u], i)
  {
    RunInv(n, run, t);
    var s0 := run[t];
    forall s, s' | SilentNow(s0, n, i, s) && Next(s, s') ensures SilentNow(s0, n, i, s') {
      SilentRunStep(s0, n, i, s, s');
    }
    Always(n, run, t, u, s => SilentNow(s0, n, i, s));
  }

  ghost predicate AlwaysSilent(n: nat, kind: SnapshotKind) {
    forall run: seq<System>, t: nat, u: nat, i: nat ::
      Undisturbed(n, run, t, i, kind) && t <= u < |run| && run[t].ops[i].promises == 1 ==> StillSilent(run[t], run[u], i)
  }

  /** Exactly which engines publish nothing after the answer to a stop. */
  lemma AlwaysSilentIff(n: nat, kind: SnapshotKind)
    requires n >= 1
    ensures AlwaysSilent(n, kind) <==> n == 1 || kind.Normal?
  {
    if n == 1 || kind.Normal? {
      forall run: seq<System>, t: nat, u: nat, i: nat
        | Undisturbed(n, run, t, i, kind) && t <= u < |run| && run[t].ops[i].promises == 1
        ensures StillSilent(run[t], run[u], i)
      {
        SilentAfterStop(n, run, t, u, i);
      }
    } else {
      var run, t := HeaderAfterStop(n);
      assert Undisturbed(n, run, t, 0, kind) && run[t].ops[0].promises == 1;
      assert |run[t].ops[0].log| == 1 && |run[|run| - 1].ops[0].log| == 2;
      assert !StillSilent(run[t], run[|run| - 1], 0);
    }
  }
}
