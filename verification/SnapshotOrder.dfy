/**
  What the queue of a snapshot may contain, however its tasks interleave: publication order,
  completeness of an iteration at its tail, the event counts, and the stop protocol.
 */
module SnapshotOrder {
  import opened Types
  import opened IterationSync
  import opened IterationGates
  import opened SnapshotProtocol
  import opened SnapshotInvariant

  // ---------------------------------------------------------------- statements about a queue

  /** What has to be in the queue before message m: the header of its data, the tail of the iteration before. */
  ghost predicate Founded(before: seq<Message>, m: Message) {
    && m.iter >= 1
    && (m.DataMsg? ==> HeaderMsg(m.iter) in before)
    && (m.iter >= 2 ==> TailMsg(m.iter - 1) in before)
  }

  /** Data follows the header of its iteration; no message of iteration k+1 precedes the tail of k. */
  ghost predicate Preceded(log: seq<Message>) {
    forall p :: 0 <= p < |log| ==> Founded(log[..p], log[p])
  }

  /** After a tail there is no data of its iteration, nor of an earlier one. */
  ghost predicate TailsClose(log: seq<Message>) {
    forall p, q :: 0 <= p < q < |log| && log[p].TailMsg? && log[q].DataMsg? ==> log[p].iter < log[q].iter
  }

  /** Headers and tails are never repeated. */
  ghost predicate NoRepeats(log: seq<Message>) {
    forall p, q :: 0 <= p < q < |log| && log[p] == log[q] ==> log[p].DataMsg?
  }

  ghost predicate Ordered(log: seq<Message>) {
    Preceded(log) && TailsClose(log) && NoRepeats(log)
  }

  /** The order inside each iteration: header, data, tail; nothing is said about other iterations. */
  ghost predicate OrderedWithin(log: seq<Message>) {
    && (forall p :: 0 <= p < |log| ==> log[p].iter >= 1 && (log[p].DataMsg? ==> HeaderMsg(log[p].iter) in log[..p]))
    && (forall p, q :: 0 <= p < q < |log| && log[p].TailMsg? && log[q].DataMsg? ==> log[p].iter != log[q].iter)
    && NoRepeats(log)
  }

  /** The events of submission j, in the order the queue has them. */
  function DataOf(log: seq<Message>, j: nat): seq<MonitorEvent> {
    if log == [] then []
    else
      var m := log[|log| - 1];
      DataOf(log[..|log| - 1], j) + if m.DataMsg? && m.sub == j then [m.event] else []
  }

  /** How many data messages of iteration k the queue has. */
  function DataCount(log: seq<Message>, k: nat): nat {
    if log == [] then 0
    else
      var m := log[|log| - 1];
      DataCount(log[..|log| - 1], k) + if m.DataMsg? && m.iter == k then 1 else 0
  }

  /** The events that tasks of iteration k beyond section `phase` have published. */
  function Sent(ts: seq<Task>, k: nat, phase: int): nat {
    if ts == [] then 0
    else
      var t := ts[|ts| - 1];
      Sent(ts[..|ts| - 1], k, phase) + if t.sub.iter == k && t.phase > phase then t.sent else 0
  }

  // ---------------------------------------------------------------- the invariants

  /** The headers and tails in the queue are those of the tasks that have published them. */
  ghost predicate BracketsLogged(ts: seq<Task>, log: seq<Message>) {
    && (forall k: nat :: HeaderMsg(k) in log <==> HeaderPast(ts, k, PUBLISH_HEADER))
    && (forall k: nat :: TailMsg(k) in log <==> TailPast(ts, k, PUBLISH_TAIL))
  }

  /** The data of submission j in the queue is what its task has published so far. */
  ghost predicate EventsOf(ts: seq<Task>, log: seq<Message>, j: nat) {
    if j < |ts| then ts[j].sent <= |ts[j].sub.events| && DataOf(log, j) == ts[j].sub.events[..ts[j].sent]
    else DataOf(log, j) == []
  }

  ghost predicate EventsLogged(ts: seq<Task>, log: seq<Message>) {
    forall j: nat :: EventsOf(ts, log, j)
  }

  ghost predicate CountsMatch(ts: seq<Task>, log: seq<Message>) {
    forall k: nat :: DataCount(log, k) == Sent(ts, k, -1)
  }

  /** The tail event counters, and what each tail has taken from them. */
  ghost predicate Tallied(ts: seq<Task>, counters: map<nat, nat>, taken: map<nat, nat>) {
    && (forall k: nat :: !TailPast(ts, k, TAKE_COUNT) ==> Count(counters, k) == Sent(ts, k, ADD_COUNT))
    && (forall k: nat :: TailPast(ts, k, TAKE_COUNT) ==> k !in counters && k in taken && taken[k] == Sent(ts, k, -1))
    && (forall k: nat :: k in taken ==> TailPast(ts, k, TAKE_COUNT))
  }

  /** What the tails have taken is what their iterations have in the queue. */
  ghost predicate TakenInv(ts: seq<Task>, taken: map<nat, nat>) {
    forall k: nat :: TailPast(ts, k, TAKE_COUNT) ==> k in taken && taken[k] == Sent(ts, k, -1)
  }

  // ---------------------------------------------------------------- one more message, one more step

  lemma DataOfAppend(log: seq<Message>, m: Message, j: nat)
    ensures DataOf(log + [m], j) == DataOf(log, j) + if m.DataMsg? && m.sub == j then [m.event] else []
  {
    assert (log + [m])[..|log|] == log;
  }

  lemma DataCountAppend(log: seq<Message>, m: Message, k: nat)
    ensures DataCount(log + [m], k) == DataCount(log, k) + if m.DataMsg? && m.iter == k then 1 else 0
  {
    assert (log + [m])[..|log|] == log;
  }

  lemma {:induction false} MovedSent(ts: seq<Task>, ts': seq<Task>, j: nat, k: nat, phase: int)
    requires Moved(ts, ts', j)
    ensures Sent(ts', k, phase) == Sent(ts, k, phase)
              - (if ts[j].sub.iter == k && ts[j].phase > phase then ts[j].sent else 0)
              + (if ts[j].sub.iter == k && ts'[j].phase > phase then ts'[j].sent else 0)
  {
    var n := |ts| - 1;
    if j == n {
      assert ts'[..n] == ts[..n];
    } else {
      assert Moved(ts[..n], ts'[..n], j);
      MovedSent(ts[..n], ts'[..n], j, k, phase);
    }
  }

  /** When every task of iteration k that has published anything is beyond `phase`, the bound is no restriction. */
  lemma {:induction false} SentAll(ts: seq<Task>, k: nat, phase: int)
    requires forall i :: 0 <= i < |ts| && ts[i].sub.iter == k && ts[i].sent > 0 ==> ts[i].phase > phase
    ensures phase >= -1 ==> Sent(ts, k, phase) == Sent(ts, k, -1)
  {
    if ts != [] {
      SentAll(ts[..|ts| - 1], k, phase);
    }
  }

  lemma AppendedSent(ts: seq<Task>, t: Task, k: nat, phase: int)
    requires t.sent == 0
    ensures Sent(ts + [t], k, phase) == Sent(ts, k, phase)
  {
    assert (ts + [t])[..|ts|] == ts;
  }

  /** The queue may be extended by m. */
  ghost predicate MayFollow(log: seq<Message>, m: Message) {
    && Founded(log, m)
    && (m.DataMsg? ==> forall k: nat :: TailMsg(k) in log ==> k < m.iter)
    && (!m.DataMsg? ==> m !in log)
  }

  lemma OrderedAppend(log: seq<Message>, m: Message)
    requires Ordered(log) && MayFollow(log, m)
    ensures Ordered(log + [m])
  {
    PrecededAppend(log, m);
    forall q | 0 <= q < |log| && log[q].TailMsg? && m.DataMsg? ensures log[q].iter < m.iter {
      assert TailMsg(log[q].iter) in log;
    }
  }

  lemma PrecededAppend(log: seq<Message>, m: Message)
    requires Preceded(log) && MayFollow(log, m)
    ensures Preceded(log + [m])
  {
    var log' := log + [m];
    forall p | 0 <= p < |log'| ensures Founded(log'[..p], log'[p]) {
      if p < |log| {
        assert log'[..p] == log[..p] && log'[p] == log[p];
      } else {
        assert log'[..p] == log && log'[p] == m;
      }
    }
  }

  /** What the order inside the iterations asks of the next message. */
  ghost predicate MayFollowWithin(log: seq<Message>, m: Message) {
    && m.iter >= 1
    && (m.DataMsg? ==> HeaderMsg(m.iter) in log && TailMsg(m.iter) !in log)
    && (!m.DataMsg? ==> m !in log)
  }

  lemma WithinAppend(log: seq<Message>, m: Message)
    requires OrderedWithin(log) && MayFollowWithin(log, m)
    ensures OrderedWithin(log + [m])
  {
    var log' := log + [m];
    forall p | 0 <= p < |log'| ensures log'[p].iter >= 1 && (log'[p].DataMsg? ==> HeaderMsg(log'[p].iter) in log'[..p]) {
      assert log'[..p] == log[..p];
      if p < |log| {
        assert log'[p] == log[p];
      } else {
        assert log[..p] == log;
      }
    }
    forall q | 0 <= q < |log| && log[q].TailMsg? && m.DataMsg? ensures log[q].iter != m.iter {
      assert log[q] in log;
    }
  }

  // ---------------------------------------------------------------- facts the steps need

  /** With the lock in order, a later iteration exists only once the earlier tail is out. */
  lemma EarlierTail(o: Op, j: nat)
    requires Bracketed(o.tasks) && TailsDone(o.tasks) && BracketsLogged(o.tasks, o.log) && j < |o.tasks|
    ensures o.tasks[j].sub.iter >= 2 ==> TailMsg(o.tasks[j].sub.iter - 1) in o.log
  {
    var ts := o.tasks;
    var k := ts[j].sub.iter;
    if k >= 2 {
      assert 1 <= k - 1 < LastIter(ts);
      PastWeakens(ts, k - 1, MARK_TAIL, PUBLISH_TAIL);
    }
  }

  lemma PastWeakens(ts: seq<Task>, k: nat, p: nat, q: nat)
    requires q <= p
    ensures TailPast(ts, k, p) ==> TailPast(ts, k, q)
    ensures HeaderPast(ts, k, p) ==> HeaderPast(ts, k, q)
  {
  }

  /** And while data of an iteration is owed, its tail and every later one are not out. */
  lemma OwedData(o: Op, j: nat, k: nat)
    requires Bracketed(o.tasks) && GateOrder(o.tasks) && TailsDone(o.tasks) && BracketsLogged(o.tasks, o.log) && j < |o.tasks|
    requires o.tasks[j].sub.HasData() && o.tasks[j].phase <= DATA_DONE
    requires TailMsg(k) in o.log
    ensures k < o.tasks[j].sub.iter
  {
    if k >= o.tasks[j].sub.iter {
      TailsBefore(o.tasks, k, o.tasks[j].sub.iter);
    }
  }

  /** Once a tail is out, the tails of its own and of all earlier iterations have drained their data. */
  lemma TailsBefore(ts: seq<Task>, k: nat, e: nat)
    requires TailsDone(ts) && Bracketed(ts) && TailPast(ts, k, PUBLISH_TAIL) && 1 <= e <= k
    ensures TailPast(ts, e, AWAIT_DRAIN)
  {
    PastWeakens(ts, k, PUBLISH_TAIL, AWAIT_DRAIN);
    if e < k {
      var i :| 0 <= i < |ts| && ts[i].sub.parts.tail && ts[i].sub.iter == k && ts[i].phase > PUBLISH_TAIL;
      assert ts[i].sub.iter <= LastIter(ts);
      PastWeakens(ts, e, MARK_TAIL, AWAIT_DRAIN);
    }
  }

  /** The tail task and the header task of an iteration are unique. */
  lemma OneBracket(ts: seq<Task>, i: nat, j: nat)
    requires Bracketed(ts) && i < |ts| && j < |ts| && ts[i].sub.iter == ts[j].sub.iter
    ensures ts[i].sub.parts.tail && ts[j].sub.parts.tail ==> i == j
    ensures ts[i].sub.parts.header && ts[j].sub.parts.header ==> i == j
  {
  }

  // ---------------------------------------------------------------- the queue

  /** What task j is about to publish may follow in its own iteration, whatever the lock does. */
  lemma PublishWithin(o: Op, j: nat)
    requires SchedulerInv(o) && GateInv(o.tasks, o.gates) && BracketsLogged(o.tasks, o.log) && j < |o.tasks| && o.tasks[j].phase < DONE
    ensures var log' := LogAfter(o.log, o.tasks[j], j); |log'| > |o.log| ==> MayFollowWithin(o.log, log'[|o.log|])
  {
    var ts, t := o.tasks, o.tasks[j];
    assert t.sub.iter >= 1;
    if t.phase == PUBLISH_HEADER && t.sub.parts.header {
      forall i: nat | i < |ts| && ts[i].sub.parts.header && ts[i].sub.iter == t.sub.iter ensures i == j {
        OneBracket(ts, i, j);
      }
    } else if t.phase == PUBLISH_DATA && t.sub.HasData() && t.sent < |t.sub.events| {
      PastWeakens(ts, t.sub.iter, OPEN_GATE, PUBLISH_HEADER);
      PastWeakens(ts, t.sub.iter, PUBLISH_TAIL, AWAIT_DRAIN);
    } else if t.phase == PUBLISH_TAIL && t.sub.parts.tail {
      forall i: nat | i < |ts| && ts[i].sub.parts.tail && ts[i].sub.iter == t.sub.iter ensures i == j {
        OneBracket(ts, i, j);
      }
    }
  }

  lemma SteppedWithin(o: Op, j: nat)
    requires SchedulerInv(o) && GateInv(o.tasks, o.gates) && BracketsLogged(o.tasks, o.log)
    requires OrderedWithin(o.log) && j < |o.tasks| && o.tasks[j].phase < DONE
    ensures OrderedWithin(LogAfter(o.log, o.tasks[j], j))
  {
    var log' := LogAfter(o.log, o.tasks[j], j);
    PublishWithin(o, j);
    if log' != o.log {
      WithinAppend(o.log, log'[|o.log|]);
    }
  }

  /** With the lock in order, it may follow everything in the queue. */
  lemma PublishMayFollow(o: Op, j: nat)
    requires Bracketed(o.tasks) && GateOrder(o.tasks) && TailsDone(o.tasks) && BracketsLogged(o.tasks, o.log)
    requires j < |o.tasks| && o.tasks[j].phase < DONE
    ensures var log' := LogAfter(o.log, o.tasks[j], j); |log'| > |o.log| ==> MayFollow(o.log, log'[|o.log|])
  {
    var ts, t := o.tasks, o.tasks[j];
    EarlierTail(o, j);
    assert t.sub.iter >= 1;
    if t.phase == PUBLISH_HEADER && t.sub.parts.header {
      forall i: nat | i < |ts| && ts[i].sub.parts.header && ts[i].sub.iter == t.sub.iter ensures i == j {
        OneBracket(ts, i, j);
      }
    } else if t.phase == PUBLISH_DATA && t.sub.HasData() && t.sent < |t.sub.events| {
      PastWeakens(ts, t.sub.iter, OPEN_GATE, PUBLISH_HEADER);
      forall k: nat | TailMsg(k) in o.log ensures k < t.sub.iter {
        OwedData(o, j, k);
      }
    } else if t.phase == PUBLISH_TAIL && t.sub.parts.tail {
      forall i: nat | i < |ts| && ts[i].sub.parts.tail && ts[i].sub.iter == t.sub.iter ensures i == j {
        OneBracket(ts, i, j);
      }
    }
  }

  lemma SteppedOrdered(o: Op, j: nat)
    requires Bracketed(o.tasks) && GateOrder(o.tasks) && TailsDone(o.tasks) && BracketsLogged(o.tasks, o.log) && Ordered(o.log)
    requires j < |o.tasks| && o.tasks[j].phase < DONE
    ensures Ordered(LogAfter(o.log, o.tasks[j], j))
  {
    var log' := LogAfter(o.log, o.tasks[j], j);
    PublishMayFollow(o, j);
    OrderedMore(o.log, log');
  }

  lemma OrderedMore(log: seq<Message>, log': seq<Message>)
    requires Ordered(log)
    requires log' != log ==> log <= log' && |log'| == |log| + 1 && MayFollow(log, log'[|log|])
    ensures Ordered(log')
  {
    if log' != log {
      OrderedAppend(log, log'[|log|]);
      assert log' == log + [log'[|log|]];
    }
  }

  lemma SteppedBrackets(o: Op, j: nat)
    requires Bracketed(o.tasks) && BracketsLogged(o.tasks, o.log) && j < |o.tasks| && Enabled(o, j)
    ensures BracketsLogged(Advanced(o, j), LogAfter(o.log, o.tasks[j], j))
  {
    AdvancedMoves(o, j);
    MovedPast(o.tasks, Advanced(o, j), j);
    assert o.tasks[j].sub.iter >= 1;
  }

  lemma SteppedEvents(o: Op, j: nat)
    requires EventsLogged(o.tasks, o.log) && j < |o.tasks| && Enabled(o, j)
    ensures EventsLogged(Advanced(o, j), LogAfter(o.log, o.tasks[j], j))
  {
    forall i: nat ensures EventsOf(Advanced(o, j), LogAfter(o.log, o.tasks[j], j), i) {
      SteppedEventsOf(o, j, i);
    }
  }

  lemma SteppedEventsOf(o: Op, j: nat, i: nat)
    requires j < |o.tasks| && Enabled(o, j) && EventsOf(o.tasks, o.log, i)
    ensures EventsOf(Advanced(o, j), LogAfter(o.log, o.tasks[j], j), i)
  {
    var t, log' := o.tasks[j], LogAfter(o.log, o.tasks[j], j);
    if log' != o.log {
      var m := log'[|o.log|];
      assert log' == o.log + [m];
      DataOfAppend(o.log, m, i);
      if i == j && m.DataMsg? {
        assert t.sub.events[..t.sent] + [t.sub.events[t.sent]] == t.sub.events[..t.sent + 1];
      }
    }
  }

  // ---------------------------------------------------------------- the event counts

  /** How one step changes the two sums of every iteration. */
  lemma SteppedSent(o: Op, j: nat, k: nat)
    requires j < |o.tasks| && Enabled(o, j) && TaskOk(o.tasks[j]) && o.tasks[j].sub.iter >= 1
    requires o.tasks[j].sub.events != [] ==> o.tasks[j].sub.parts.data
    ensures Sent(Advanced(o, j), k, -1) == Sent(o.tasks, k, -1) +
              if k == o.tasks[j].sub.iter then Advanced(o, j)[j].sent - o.tasks[j].sent else 0
    ensures Sent(Advanced(o, j), k, ADD_COUNT) == Sent(o.tasks, k, ADD_COUNT) +
              if k == o.tasks[j].sub.iter && o.tasks[j].phase == ADD_COUNT then o.tasks[j].sent else 0
  {
    AdvancedMoves(o, j);
    MovedSent(o.tasks, Advanced(o, j), j, k, -1);
    MovedSent(o.tasks, Advanced(o, j), j, k, ADD_COUNT);
  }

  lemma SteppedCounts(o: Op, j: nat)
    requires SchedulerInv(o) && CountsMatch(o.tasks, o.log) && j < |o.tasks| && Enabled(o, j)
    ensures CountsMatch(Advanced(o, j), LogAfter(o.log, o.tasks[j], j))
  {
    var log' := LogAfter(o.log, o.tasks[j], j);
    assert TaskOk(o.tasks[j]);
    forall k: nat ensures DataCount(log', k) == Sent(Advanced(o, j), k, -1) {
      SteppedSent(o, j, k);
      if log' != o.log {
        DataCountAppend(o.log, log'[|o.log|], k);
      }
    }
  }

  lemma SteppedTally(o: Op, j: nat)
    requires SchedulerInv(o) && GateInv(o.tasks, o.gates) && Tallied(o.tasks, o.counters, o.taken) && j < |o.tasks| && Enabled(o, j)
    ensures Tallied(Advanced(o, j), CountersAfter(o.counters, o.tasks[j]), TakenAfter(o.taken, o.counters, o.tasks[j]))
  {
    var t := o.tasks[j];
    assert TaskOk(t) && t.sub.iter >= 1 && (t.sub.events != [] ==> t.sub.parts.data);
    NotTaken(o, j);
    if t.phase == TAKE_COUNT && t.sub.parts.tail {
      TakenOnce(o, j);
    }
    TallyStep(o, j);
  }

  /** The tail of an iteration with data to come has not taken its count. */
  lemma NotTaken(o: Op, j: nat)
    requires GateInv(o.tasks, o.gates) && j < |o.tasks|
    ensures o.tasks[j].sub.HasData() && o.tasks[j].phase <= DATA_DONE ==> !TailPast(o.tasks, o.tasks[j].sub.iter, TAKE_COUNT)
  {
    PastWeakens(o.tasks, o.tasks[j].sub.iter, TAKE_COUNT, AWAIT_DRAIN);
  }

  /** The tail finds every event of its iteration counted, and is the first to take the count. */
  lemma TakenOnce(o: Op, j: nat)
    requires SchedulerInv(o) && GateInv(o.tasks, o.gates)
    requires j < |o.tasks| && o.tasks[j].phase == TAKE_COUNT && o.tasks[j].sub.parts.tail
    ensures !TailPast(o.tasks, o.tasks[j].sub.iter, TAKE_COUNT)
    ensures Sent(o.tasks, o.tasks[j].sub.iter, ADD_COUNT) == Sent(o.tasks, o.tasks[j].sub.iter, -1)
  {
    var ts, id := o.tasks, o.tasks[j].sub.iter;
    CompleteAtTail(ts, o.gates, j);
    SentAll(ts, id, ADD_COUNT);
    forall i: nat | i < |ts| && ts[i].sub.parts.tail && ts[i].sub.iter == id ensures i == j {
      OneBracket(ts, i, j);
    }
  }

  lemma TallyStep(o: Op, j: nat)
    requires Tallied(o.tasks, o.counters, o.taken) && j < |o.tasks| && Enabled(o, j)
    requires TaskOk(o.tasks[j]) && o.tasks[j].sub.iter >= 1 && (o.tasks[j].sub.events != [] ==> o.tasks[j].sub.parts.data)
    requires o.tasks[j].sub.HasData() && o.tasks[j].phase <= DATA_DONE ==> !TailPast(o.tasks, o.tasks[j].sub.iter, TAKE_COUNT)
    requires o.tasks[j].phase == TAKE_COUNT && o.tasks[j].sub.parts.tail ==>
               && !TailPast(o.tasks, o.tasks[j].sub.iter, TAKE_COUNT)
               && Sent(o.tasks, o.tasks[j].sub.iter, ADD_COUNT) == Sent(o.tasks, o.tasks[j].sub.iter, -1)
    ensures Tallied(Advanced(o, j), CountersAfter(o.counters, o.tasks[j]), TakenAfter(o.taken, o.counters, o.tasks[j]))
  {
    AdvancedMoves(o, j);
    MovedPast(o.tasks, Advanced(o, j), j);
    forall k: nat
      ensures Sent(Advanced(o, j), k, -1) == Sent(o.tasks, k, -1) +
                if k == o.tasks[j].sub.iter then Advanced(o, j)[j].sent - o.tasks[j].sent else 0
      ensures Sent(Advanced(o, j), k, ADD_COUNT) == Sent(o.tasks, k, ADD_COUNT) +
                if k == o.tasks[j].sub.iter && o.tasks[j].phase == ADD_COUNT then o.tasks[j].sent else 0
    {
      SteppedSent(o, j, k);
    }
  }

  /** A tail beyond its drain has all the data of its iteration behind it. */
  lemma CompleteAtTail(ts: seq<Task>, g: Gates, j: nat)
    requires GateInv(ts, g) && j < |ts| && ts[j].sub.parts.tail && ts[j].phase > AWAIT_DRAIN
    requires forall i :: 0 <= i < |ts| ==> TaskOk(ts[i]) && (ts[i].sub.events != [] ==> ts[i].sub.parts.data)
    ensures forall i :: 0 <= i < |ts| && ts[i].sub.iter == ts[j].sub.iter && ts[i].sub.events != [] ==>
              ts[i].phase > DATA_DONE && ts[i].sent == |ts[i].sub.events|
    ensures forall i :: 0 <= i < |ts| && ts[i].sub.iter == ts[j].sub.iter && ts[i].sent > 0 ==> ts[i].phase > ADD_COUNT
  {
    assert TailPast(ts, ts[j].sub.iter, AWAIT_DRAIN);
    forall i | 0 <= i < |ts| && ts[i].sub.iter == ts[j].sub.iter && ts[i].sub.events != []
      ensures ts[i].phase > DATA_DONE && ts[i].sent == |ts[i].sub.events|
    {
      assert TaskOk(ts[i]) && ts[i].sub.HasData();
    }
  }

  // ---------------------------------------------------------------- the invariants hold for ever

  /** The part of the invariant about what is in the queue. */
  ghost predicate QueueInv(o: Op) {
    && BracketsLogged(o.tasks, o.log)
    && EventsLogged(o.tasks, o.log)
    && OrderedWithin(o.log)
    && (!o.disturbed && !o.rushed ==> Ordered(o.log))
  }

  /** The counters of the name are this operation's own. */
  ghost predicate Counts(o: Op) {
    o.promises == 0 && !o.miscounted
  }

  /** All its tails have taken their counts from counters of its own. */
  ghost predicate CountsKept(o: Op) {
    !o.miscounted && !o.disturbed && !o.rushed
  }

  /** The part about how much is in the queue. */
  ghost predicate CountInv(o: Op) {
    && CountsMatch(o.tasks, o.log)
    && (Counts(o) ==> Tallied(o.tasks, o.counters, o.taken))
    && (CountsKept(o) ==> TakenInv(o.tasks, o.taken))
  }

  ghost predicate FullInv(o: Op) {
    Inv(o) && QueueInv(o) && CountInv(o)
  }

  lemma SteppedQueue(o: Op, j: nat)
    requires Inv(o) && QueueInv(o) && j < |o.tasks| && Enabled(o, j)
    ensures QueueInv(Stepped(o, j))
  {
    SteppedBrackets(o, j);
    SteppedEvents(o, j);
    SteppedWithin(o, j);
    if !o.disturbed && !o.rushed {
      SteppedOrdered(o, j);
    }
  }

  /** Once the promise is set and all tails are through, no task changes what was taken, or what it counts. */
  lemma KeptStep(o: Op, j: nat)
    requires SchedulerInv(o) && PromiseInv(o) && GateInv(o.tasks, o.gates) && TailsDone(o.tasks) && o.promises == 1
    requires TakenInv(o.tasks, o.taken) && j < |o.tasks| && Enabled(o, j)
    ensures TakenInv(Advanced(o, j), TakenAfter(o.taken, o.counters, o.tasks[j]))
  {
    var ts, t := o.tasks, o.tasks[j];
    assert TaskOk(t) && t.sub.iter >= 1 && (t.sub.events != [] ==> t.sub.parts.data);
    if t.sub.parts.tail {
      TailIsThrough(o, j);
    }
    NotTaken(o, j);
    AdvancedMoves(o, j);
    MovedPast(ts, Advanced(o, j), j);
    forall k: nat
      ensures Sent(Advanced(o, j), k, -1) == Sent(ts, k, -1) + if k == t.sub.iter then Advanced(o, j)[j].sent - t.sent else 0
    {
      SteppedSent(o, j, k);
    }
  }

  lemma TailIsThrough(o: Op, j: nat)
    requires SchedulerInv(o) && PromiseInv(o) && TailsDone(o.tasks) && o.promises == 1
    requires j < |o.tasks| && o.tasks[j].sub.parts.tail
    ensures o.tasks[j].phase > MARK_TAIL
  {
    var ts := o.tasks;
    if ts[j].sub.iter < LastIter(ts) {
      assert TailPast(ts, ts[j].sub.iter, MARK_TAIL);
      var i: nat :| i < |ts| && ts[i].sub.parts.tail && ts[i].sub.iter == ts[j].sub.iter && ts[i].phase > MARK_TAIL;
      OneBracket(ts, i, j);
    } else {
      OneBracket(ts, |ts| - 1, j);
    }
  }

  lemma SteppedCount(o: Op, j: nat)
    requires Inv(o) && CountInv(o) && j < |o.tasks| && Enabled(o, j)
    ensures CountInv(Stepped(o, j))
  {
    SteppedCounts(o, j);
    SteppedPromise(o, j);
    if Counts(o) {
      SteppedTally(o, j);
    } else if CountsKept(o) {
      KeptStep(o, j);
    }
  }

  lemma SteppedFull(o: Op, j: nat)
    requires FullInv(o) && j < |o.tasks| && Enabled(o, j)
    ensures FullInv(Stepped(o, j))
  {
    SteppedInv(o, j);
    SteppedQueue(o, j);
    SteppedCount(o, j);
  }

  lemma AdmittedQueue(ts: seq<Task>, t: Task, log: seq<Message>)
    requires BracketsLogged(ts, log) && EventsLogged(ts, log) && t.phase == START && t.sent == 0
    ensures BracketsLogged(ts + [t], log) && EventsLogged(ts + [t], log)
  {
    forall k: nat, p: nat
      ensures TailPast(ts + [t], k, p) == TailPast(ts, k, p) && HeaderPast(ts + [t], k, p) == HeaderPast(ts, k, p)
    {
      AppendedPast(ts, t, k, p);
    }
    forall j: nat ensures EventsOf(ts + [t], log, j) {
      assert EventsOf(ts, log, j);
    }
  }

  lemma AdmittedCount(ts: seq<Task>, t: Task, log: seq<Message>, counters: map<nat, nat>, taken: map<nat, nat>)
    requires t.phase == START && t.sent == 0
    ensures CountsMatch(ts, log) ==> CountsMatch(ts + [t], log)
    ensures Tallied(ts, counters, taken) ==> Tallied(ts + [t], counters, taken)
    ensures TakenInv(ts, taken) ==> TakenInv(ts + [t], taken)
  {
    forall k: nat, p: nat ensures TailPast(ts + [t], k, p) == TailPast(ts, k, p) {
      AppendedPast(ts, t, k, p);
    }
    forall k: nat, p: int ensures Sent(ts + [t], k, p) == Sent(ts, k, p) {
      AppendedSent(ts, t, k, p);
    }
  }

  lemma AdmittedFull(o: Op)
    requires FullInv(o) && CanAdmit(o)
    ensures FullInv(Admitted(o))
  {
    AdmittedInv(o);
    var t := Admitted(o).tasks[|o.tasks|];
    assert Admitted(o).tasks == o.tasks + [t];
    AdmittedQueue(o.tasks, t, o.log);
    AdmittedCount(o.tasks, t, o.log, o.counters, o.taken);
  }

  lemma NewOpFull(kind: SnapshotKind, name: nat, counters: map<nat, nat>)
    ensures FullInv(NewOp(kind, name, Fresh(), counters))
  {
  }

  /** The same for an operation that sees the tables of its name changed by another one. */
  lemma SeenFull(o: Op, n: NameSync, o': Op)
    requires FullInv(o)
    requires o' == o.(sync := n, counters := o'.counters, disturbed := o'.disturbed, miscounted := o'.miscounted)
    requires o.promises == 0 ==> n.current == o.sync.current && n.cv == o.sync.cv && (o.sync == Fresh() ==> n == Fresh())
    requires (o.disturbed ==> o'.disturbed) && (o.miscounted ==> o'.miscounted)
    requires o.promises == 0 && n != o.sync ==> o'.disturbed
    requires o.promises == 0 && o'.counters != o.counters ==> o'.miscounted
    ensures FullInv(o')
  {
    SeenInv(o, n, o');
  }

  lemma CollectedFull(o: Op, windowExpired: bool, events: seq<MonitorEvent>)
    requires FullInv(o) && o.listed && o.waiting.None?
    ensures FullInv(Collected(o, windowExpired, events))
  {
    CollectedInv(o, windowExpired, events);
  }
}
