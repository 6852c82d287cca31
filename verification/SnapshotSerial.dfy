/**
  When the tasks of a snapshot run one after another, its queue is exactly
  header(1) data(1)* tail(1) header(2) data(2)* tail(2) ..., cut off anywhere.
 */
module SnapshotSerial {
  import opened Types
  import opened IterationSync
  import opened IterationGates
  import opened SnapshotProtocol
  import opened SnapshotInvariant
  import opened SnapshotOrder

  // ---------------------------------------------------------------- the reference: what a client expects

  function DataSection(k: nat, events: seq<MonitorEvent>): seq<Message> {
    seq(|events|, i requires 0 <= i < |events| => DataMsg(k, 0, events[i]))
  }

  /** Iteration after iteration, each with its header, its events in order and its tail. */
  function Ideal(batches: seq<seq<MonitorEvent>>): seq<Message> {
    if batches == [] then []
    else
      var k := |batches|;
      Ideal(batches[..k - 1]) + [HeaderMsg(k)] + DataSection(k, batches[k - 1]) + [TailMsg(k)]
  }

  /** A message without the name of the submission that carried it. */
  function Bare(m: Message): Message {
    if m.DataMsg? then DataMsg(m.iter, 0, m.event) else m
  }

  function BareLog(log: seq<Message>): seq<Message> {
    seq(|log|, i requires 0 <= i < |log| => Bare(log[i]))
  }

  /** The events of every iteration so far, iteration by iteration. */
  function Batches(ts: seq<Task>): seq<seq<MonitorEvent>> {
    if ts == [] then []
    else
      var t := ts[|ts| - 1];
      var b := Batches(ts[..|ts| - 1]);
      if t.sub.parts.header || b == [] then b + [t.sub.events]
      else b[..|b| - 1] + [b[|b| - 1] + t.sub.events]
  }

  // ---------------------------------------------------------------- what one task, and all of them, have published

  /** The messages of task t up to where it is. */
  function Part(t: Task): seq<Message> {
    (if t.sub.parts.header && t.phase > PUBLISH_HEADER then [HeaderMsg(t.sub.iter)] else [])
    + DataSection(t.sub.iter, t.sub.events[..if t.sent <= |t.sub.events| then t.sent else 0])
    + (if t.sub.parts.tail && t.phase > PUBLISH_TAIL then [TailMsg(t.sub.iter)] else [])
  }

  function Parted(ts: seq<Task>): seq<Message> {
    if ts == [] then [] else Parted(ts[..|ts| - 1]) + Part(ts[|ts| - 1])
  }

  function Finished(t: Task): Task {
    Task(t.sub, DONE, |t.sub.events|)
  }

  /** The messages of all submissions, one submission after the other. */
  function Whole(ts: seq<Task>): seq<Message> {
    if ts == [] then [] else Whole(ts[..|ts| - 1]) + Part(Finished(ts[|ts| - 1]))
  }

  /** A task has started only when every earlier one of the snapshot is done. */
  ghost predicate Serial(ts: seq<Task>) {
    forall i, j :: 0 <= i < j < |ts| && ts[j].phase > START ==> ts[i].phase == DONE
  }

  /** Task j is the next to run when tasks run one after another. */
  ghost predicate InTurn(ts: seq<Task>, j: nat) {
    && j < |ts|
    && (forall i :: 0 <= i < j ==> ts[i].phase == DONE)
    && (forall i :: j < i < |ts| ==> ts[i].phase == START && ts[i].sent == 0)
  }

  // ---------------------------------------------------------------- the queue is what the tasks have published

  lemma PartStep(o: Op, j: nat)
    requires j < |o.tasks| && Enabled(o, j) && TaskOk(o.tasks[j]) && o.tasks[j].sub.iter >= 1
    requires o.tasks[j].sub.events != [] ==> o.tasks[j].sub.parts.data
    ensures Part(Advanced(o, j)[j]) == Part(o.tasks[j]) + BareLog(LogAfter(o.log, o.tasks[j], j))[|o.log|..]
  {
    var t := o.tasks[j];
    var t' := Advanced(o, j)[j];
    if t.phase == PUBLISH_DATA && t.sub.HasData() && t.sent < |t.sub.events| {
      assert DataSection(t.sub.iter, t.sub.events[..t.sent + 1])
          == DataSection(t.sub.iter, t.sub.events[..t.sent]) + [DataMsg(t.sub.iter, 0, t.sub.events[t.sent])];
    }
  }

  lemma {:induction false} PartedMoved(ts: seq<Task>, ts': seq<Task>, j: nat, more: seq<Message>)
    requires Moved(ts, ts', j)
    requires Part(ts'[j]) == Part(ts[j]) + more
    requires forall i :: j < i < |ts| ==> ts[i].phase == START && ts[i].sent == 0
    ensures Parted(ts') == Parted(ts) + more
  {
    var n := |ts| - 1;
    if j == n {
      assert ts'[..n] == ts[..n];
    } else {
      PartedMoved(ts[..n], ts'[..n], j, more);
      assert Part(ts[n]) == [];
    }
  }

  lemma SteppedParted(o: Op, j: nat)
    requires j < |o.tasks| && Enabled(o, j) && InTurn(o.tasks, j) && BareLog(o.log) == Parted(o.tasks)
    requires TaskOk(o.tasks[j]) && o.tasks[j].sub.iter >= 1 && (o.tasks[j].sub.events != [] ==> o.tasks[j].sub.parts.data)
    ensures BareLog(LogAfter(o.log, o.tasks[j], j)) == Parted(Advanced(o, j))
  {
    var log' := LogAfter(o.log, o.tasks[j], j);
    AdvancedMoves(o, j);
    PartStep(o, j);
    PartedMoved(o.tasks, Advanced(o, j), j, BareLog(log')[|o.log|..]);
    assert BareLog(log')[..|o.log|] == BareLog(o.log);
    assert BareLog(log') == BareLog(log')[..|o.log|] + BareLog(log')[|o.log|..];
  }

  lemma SteppedSerial(o: Op, j: nat)
    requires SchedulerInv(o) && j < |o.tasks| && Enabled(o, j) && InTurn(o.tasks, j) && BareLog(o.log) == Parted(o.tasks)
    ensures BareLog(Stepped(o, j).log) == Parted(Stepped(o, j).tasks)
    ensures Serial(Stepped(o, j).tasks)
  {
    assert TaskOk(o.tasks[j]);
    AdvancedMoves(o, j);
    SteppedParted(o, j);
  }

  lemma AppendedParted(ts: seq<Task>, t: Task)
    requires t.phase == START && t.sent == 0
    ensures Parted(ts + [t]) == Parted(ts)
  {
    assert (ts + [t])[..|ts|] == ts;
    assert Part(t) == [];
  }

  // ---------------------------------------------------------------- and that is a prefix of the reference

  lemma {:induction false} PartedIsPrefix(ts: seq<Task>)
    requires Serial(ts) && forall i :: 0 <= i < |ts| ==> TaskOk(ts[i])
    ensures Parted(ts) <= Whole(ts)
    ensures (forall i :: 0 <= i < |ts| ==> ts[i].phase == DONE) ==> Parted(ts) == Whole(ts)
  {
    if ts != [] {
      var n := |ts| - 1;
      var t := ts[n];
      PartedIsPrefix(ts[..n]);
      assert TaskOk(t);
      if t.phase == START {
        assert Part(t) == [];
      } else {
        assert forall i :: 0 <= i < n ==> ts[..n][i].phase == DONE;
        PartIsPrefix(t);
      }
    }
  }

  lemma PartIsPrefix(t: Task)
    requires TaskOk(t)
    ensures Part(t) <= Part(Finished(t))
    ensures t.phase == DONE ==> Part(t) == Part(Finished(t))
  {
    var s := t.sub;
    var h := if s.parts.header then [HeaderMsg(s.iter)] else [];
    assert DataSection(s.iter, s.events[..t.sent]) <= DataSection(s.iter, s.events);
    assert s.events[..|s.events|] == s.events;
    if t.phase <= PUBLISH_HEADER {
      assert Part(t) == [];
    } else if t.phase <= PUBLISH_TAIL {
      assert Part(t) == h + DataSection(s.iter, s.events[..t.sent]);
    } else {
      assert Part(t) == Part(Finished(t));
    }
  }

  /** What is missing from the reference: the tail of an iteration that is still open. */
  function Missing(ts: seq<Task>): seq<Message> {
    if ts == [] || ts[|ts| - 1].sub.parts.tail then [] else [TailMsg(LastIter(ts))]
  }

  lemma BracketedPrefix(ts: seq<Task>)
    requires Bracketed(ts) && ts != []
    ensures Bracketed(ts[..|ts| - 1])
    ensures ts[|ts| - 1].sub.parts.header == (Missing(ts[..|ts| - 1]) == [])
    ensures ts[|ts| - 1].sub.iter == LastIter(ts[..|ts| - 1]) + if ts[|ts| - 1].sub.parts.header then 1 else 0
  {
    var n := |ts| - 1;
    forall i, j | 0 <= i < j < n ensures ts[..n][i] == ts[i] && ts[..n][j] == ts[j] {
    }
    if n > 0 {
      assert ts[n - 1].sub.iter <= ts[n].sub.iter && ts[..n][n - 1] == ts[n - 1];
    }
  }

  /** One more submission: it opens an iteration or continues the last one. */
  lemma OneMoreSubmission(whole: seq<Message>, b: seq<seq<MonitorEvent>>, s: Submission)
    requires s.parts.header ==> whole == Ideal(b) && s.iter == |b| + 1
    requires !s.parts.header ==> b != [] && whole + [TailMsg(|b|)] == Ideal(b) && s.iter == |b|
    ensures var b' := if s.parts.header then b + [s.events] else b[..|b| - 1] + [b[|b| - 1] + s.events];
            whole + Part(Finished(Task(s, START, 0))) + (if s.parts.tail then [] else [TailMsg(s.iter)]) == Ideal(b')
  {
    assert s.events[..|s.events|] == s.events;
    var tail := [TailMsg(s.iter)];
    var data := DataSection(s.iter, s.events);
    if s.parts.header {
      IdealNewIteration(b, s.events);
      assert whole + ([HeaderMsg(s.iter)] + data + tail) == Ideal(b) + [HeaderMsg(s.iter)] + data + tail;
    } else {
      IdealSameIteration(b, s.events);
      assert Ideal(b)[..|Ideal(b)| - 1] == whole;
      assert whole + (data + tail) == whole + data + tail;
    }
    FinishedPart(s);
  }

  lemma FinishedPart(s: Submission)
    ensures Part(Finished(Task(s, START, 0))) ==
              (if s.parts.header then [HeaderMsg(s.iter)] else []) + DataSection(s.iter, s.events)
              + (if s.parts.tail then [TailMsg(s.iter)] else [])
  {
    assert s.events[..|s.events|] == s.events;
  }

  lemma {:induction false} WholeIsIdeal(ts: seq<Task>)
    requires Bracketed(ts)
    ensures |Batches(ts)| == LastIter(ts)
    ensures Whole(ts) + Missing(ts) == Ideal(Batches(ts))
  {
    if ts != [] {
      var n := |ts| - 1;
      BracketedPrefix(ts);
      WholeIsIdeal(ts[..n]);
      OneMoreSubmission(Whole(ts[..n]), Batches(ts[..n]), ts[n].sub);
    }
  }

  lemma IdealNewIteration(b: seq<seq<MonitorEvent>>, events: seq<MonitorEvent>)
    ensures Ideal(b + [events]) == Ideal(b) + [HeaderMsg(|b| + 1)] + DataSection(|b| + 1, events) + [TailMsg(|b| + 1)]
  {
    assert (b + [events])[..|b|] == b;
  }

  lemma IdealSameIteration(b: seq<seq<MonitorEvent>>, events: seq<MonitorEvent>)
    requires b != []
    ensures |Ideal(b)| > 0
    ensures Ideal(b[..|b| - 1] + [b[|b| - 1] + events])
              == Ideal(b)[..|Ideal(b)| - 1] + DataSection(|b|, events) + [TailMsg(|b|)]
  {
    var k := |b|;
    var init := b[..k - 1];
    assert b == init + [b[k - 1]];
    IdealNewIteration(init, b[k - 1]);
    IdealNewIteration(init, b[k - 1] + events);
    DataSectionConcat(k, b[k - 1], events);
    Spliced(Ideal(init) + [HeaderMsg(k)], DataSection(k, b[k - 1]), DataSection(k, events), TailMsg(k));
  }

  lemma DataSectionConcat(k: nat, a: seq<MonitorEvent>, b: seq<MonitorEvent>)
    ensures DataSection(k, a + b) == DataSection(k, a) + DataSection(k, b)
  {
  }

  lemma Spliced(h: seq<Message>, d: seq<Message>, e: seq<Message>, tail: Message)
    ensures var s := h + d + [tail]; h + (d + e) + [tail] == s[..|s| - 1] + e + [tail]
  {
    assert (h + d + [tail])[..|h + d|] == h + d;
    assert h + (d + e) == (h + d) + e;
  }

  /** The queue of a snapshot whose tasks have run one after another. */
  lemma SerialIsExact(o: Op)
    requires FullInv(o) && Serial(o.tasks) && BareLog(o.log) == Parted(o.tasks)
    ensures BareLog(o.log) <= Ideal(Batches(o.tasks))
  {
    assert SchedulerInv(o);
    PartedIsPrefix(o.tasks);
    WholeIsIdeal(o.tasks);
  }

  // ---------------------------------------------------------------- NORMAL snapshots are serial with any pool

  /** One task per iteration: earlier ones are done, and the lock is free only when the last one is. */
  ghost predicate NormalInv(o: Op) {
    var ts := o.tasks;
    && (forall j :: 0 <= j < |ts| - 1 ==> ts[j].phase == DONE)
    && (ts != [] && !o.sync.inProgress ==> ts[|ts| - 1].phase == DONE || ts[|ts| - 1].sub.last)
  }

  lemma SteppedNormal(o: Op, j: nat)
    requires FullInv(o) && !o.disturbed && !o.rushed && o.kind.Normal? && NormalInv(o) && j < |o.tasks| && Enabled(o, j)
    ensures NormalInv(Stepped(o, j))
    ensures InTurn(o.tasks, j)
  {
    assert SchedulerInv(o) && PromiseInv(o);
    if o.promises == 0 {
      assert Owns(o) && LockInv(o.tasks, o.sync);
      NormalStep(o, j);
    }
  }

  lemma NormalStep(o: Op, j: nat)
    requires Bracketed(o.tasks) && LockInv(o.tasks, o.sync) && NormalInv(o) && j < |o.tasks| && Enabled(o, j)
    requires o.tasks[j].sub.parts.tail
    ensures NormalInv(Stepped(o, j))
    ensures InTurn(o.tasks, j)
  {
    assert j == |o.tasks| - 1;
    assert o.tasks[j].sub.iter >= 1;
  }

  lemma AdmittedNormal(o: Op)
    requires NormalInv(o) && CanAdmit(o) && o.waiting.value.parts.header
    requires o.tasks != [] ==> !o.tasks[|o.tasks| - 1].sub.last
    ensures NormalInv(Admitted(o))
  {
  }
}
