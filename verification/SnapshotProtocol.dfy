/**
  One repeating snapshot as a state machine: the scheduler thread hands over submissions, and each
  submission becomes a pool task that runs the sections of SnapshotSubmissionTask::operator().

  A step is one access to state shared between threads. Tasks may interleave in any way here; how
  many run at once, and in which order they are taken from the pool, is the business of SnapshotEngine.
 */
module SnapshotProtocol {
  import opened Types
  import opened IterationSync
  import opened IterationGates

  // The sections of a task, in program order. A section the submission does not carry does nothing.
  type Phase = p: nat | p <= DONE

  const START := 0
  const PUBLISH_HEADER := 1
  const OPEN_GATE := 2
  const AWAIT_GATE := 3
  const PUBLISH_DATA := 4
  const ADD_COUNT := 5
  const DATA_DONE := 6
  const AWAIT_DRAIN := 7
  const TAKE_COUNT := 8
  const PUBLISH_TAIL := 9
  const MARK_TAIL := 10
  const REMOVE := 11
  const PROMISE := 12
  const FINISH := 13
  const CHECK := 14
  const RELEASE := 15
  const DONE := 16

  /** A submission in the pool: where its task is and how many of its events are published. */
  datatype Task = Task(sub: Submission, phase: Phase, sent: nat)

  /**
    A snapshot operation. `listed`: it is in `snapshot_running_`; `waiting`: collected, not yet handed
    to the pool; `active`: its `active_iteration_id_` (0 when absent); `taken`: the event count each
    tail has logged; `promises`: how often `removal_promise` was set.

    `sync` and `counters` are what the synchronizer and the tail event counters hold for `name`. A later
    operation of the same name works on the same tables.

    The rest is history. `rushed`: some task started after the tasks of its iteration had counted down
    to zero and before that finishTask was through. `disturbed`: while the operation was in progress,
    a task of an earlier one of that name changed its entry in the synchronizer; `miscounted`: or one
    of its event counters.
   */
  datatype Op = Op(
    name: nat,
    kind: SnapshotKind,
    listed: bool,
    running: bool,
    headerSent: bool,
    active: nat,
    waiting: Option<Submission>,
    tasks: seq<Task>,
    sync: NameSync,
    gates: Gates,
    counters: map<nat, nat>,
    taken: map<nat, nat>,
    log: seq<Message>,
    promises: nat,
    rushed: bool,
    disturbed: bool,
    miscounted: bool)

  /** A new operation finds what is left in the tables of its name. */
  function NewOp(kind: SnapshotKind, name: nat, sync: NameSync, counters: map<nat, nat>): Op {
    Op(name, kind, true, true, false, 0, None, [], sync, map[], counters, map[], [], 0, false, sync != Fresh(), AnyCount(counters))
  }

  predicate AnyCount(counters: map<nat, nat>) {
    exists k :: k in counters && counters[k] != 0
  }

  // ---------------------------------------------------------------- scheduler thread

  /** The parts getData reports for either kind of operation. */
  function CollectedParts(o: Op, windowExpired: bool, events: seq<MonitorEvent>): Parts {
    match o.kind
    case Normal => Parts(true, true, true)
    case TimedBuffered => TimedParts(o.headerSent, events != [], windowExpired, o.running)
  }

  /** A pass of the scheduler thread collects a submission; a stopped operation leaves the running list. */
  function Collected(o: Op, windowExpired: bool, events: seq<MonitorEvent>): Op
    requires o.listed && o.waiting.None?
  {
    var parts := CollectedParts(o, windowExpired, events);
    o.(waiting := Some(Submission(parts, events, 0, !o.running)),
       headerSent := o.kind.TimedBuffered? && !parts.tail,
       listed := o.running)
  }

  /** acquireIteration does not block (only a header asks for a new iteration). */
  predicate CanAdmit(o: Op) {
    o.waiting.Some? && (o.waiting.value.parts.header ==> !o.sync.inProgress)
  }

  /** Resolve the iteration id, set up the gates and hand the submission to the pool. */
  function Admitted(o: Op): Op
    requires CanAdmit(o)
  {
    var w := o.waiting.value;
    var sync := if w.parts.header then Acquired(o.sync) else o.sync;
    var id := if w.parts.header then sync.current else o.active;
    var begun := if w.parts.header then Begun(o.gates, id) else o.gates;
    o.(waiting := None,
       sync := sync,
       active := if w.last then 0 else id,
       gates := if w.HasData() then DataAdded(begun, id) else begun,
       tasks := o.tasks + [Task(w.(iter := id), START, 0)])
  }

  // ---------------------------------------------------------------- pool tasks

  function Count(counters: map<nat, nat>, id: nat): nat {
    if id in counters then counters[id] else 0
  }

  /** May task j take its next step? Two sections wait: data for the header, the tail for the data. */
  predicate Enabled(o: Op, j: nat)
    requires j < |o.tasks|
  {
    var t := o.tasks[j];
    && t.phase < DONE
    && (t.phase == AWAIT_GATE && t.sub.HasData() ==> HeaderPassed(o.gates, t.sub.iter))
    && (t.phase == AWAIT_DRAIN && t.sub.parts.tail ==> Drained(o.gates, t.sub.iter))
  }

  /** Task t has counted its iteration down to zero and is not through with finishTask. */
  predicate IsClosing(t: Task) {
    CHECK <= t.phase <= RELEASE
  }

  predicate Closing(ts: seq<Task>, k: nat) {
    exists i :: 0 <= i < |ts| && IsClosing(ts[i]) && ts[i].sub.iter == k
  }

  /** The next step of task j is a start between a count-down of its iteration to zero and the end of that finishTask. */
  predicate Rushes(o: Op, j: nat)
    requires j < |o.tasks|
  {
    o.tasks[j].phase == START && Closing(o.tasks, o.tasks[j].sub.iter)
  }

  /** The phase task t is in after its next step. */
  function NextPhase(o: Op, t: Task): Phase
    requires t.phase < DONE
  {
    if t.phase == START && t.sub.iter == 0 then DONE  // the guard of a submission without iteration id
    else if t.phase == PUBLISH_DATA && t.sub.HasData() && t.sent < |t.sub.events| then PUBLISH_DATA
    else if t.phase == FINISH && !LastActive(o.sync, t.sub.iter) then DONE
    else if t.phase == CHECK && !TailKnown(o.sync, t.sub.iter) then DONE
    else t.phase + 1
  }

  /**
    Sections that take the mutex of the synchronizer exclusively. finishTask counts down and looks at
    the tail mark under one shared lock, so none of these falls between FINISH and CHECK of any task.
   */
  predicate IsExclusive(t: Task) {
    t.phase == RELEASE || (t.phase == REMOVE && t.sub.parts.tail && t.sub.last)
  }

  /** Task j advances: its phase and the number of events it has published. */
  function Advanced(o: Op, j: nat): seq<Task>
    requires j < |o.tasks| && o.tasks[j].phase < DONE
  {
    var t := o.tasks[j];
    var next := NextPhase(o, t);
    o.tasks[j := Task(t.sub, next, if t.phase == PUBLISH_DATA && next == PUBLISH_DATA then t.sent + 1 else t.sent)]
  }

  // What the section a task is in does to each part of the shared state.

  function SyncAfter(n: NameSync, t: Task): NameSync {
    if t.phase == START && t.sub.iter != 0 then Started(n, t.sub.iter)
    else if t.phase == MARK_TAIL && t.sub.parts.tail then TailMarked(n, t.sub.iter)
    else if t.phase == REMOVE && t.sub.parts.tail && t.sub.last then Fresh()
    else if t.phase == FINISH then Decremented(n, t.sub.iter)
    else if t.phase == RELEASE then Released(n, t.sub.iter)
    else n
  }

  function GatesAfter(g: Gates, t: Task): Gates {
    if t.phase == OPEN_GATE && t.sub.parts.header then HeaderCompleted(g, t.sub.iter)
    else if t.phase == DATA_DONE && t.sub.HasData() then DataRemoved(g, t.sub.iter)
    else if t.phase == AWAIT_DRAIN && t.sub.parts.tail then g - {t.sub.iter}
    else g
  }

  /** The messages pushed to the queue, oldest first. */
  function LogAfter(log: seq<Message>, t: Task, j: nat): seq<Message> {
    if t.phase == PUBLISH_HEADER && t.sub.parts.header then log + [HeaderMsg(t.sub.iter)]
    else if t.phase == PUBLISH_DATA && t.sub.HasData() && t.sent < |t.sub.events|
    then log + [DataMsg(t.sub.iter, j, t.sub.events[t.sent])]
    else if t.phase == PUBLISH_TAIL && t.sub.parts.tail then log + [TailMsg(t.sub.iter)]
    else log
  }

  function CountersAfter(counters: map<nat, nat>, t: Task): map<nat, nat> {
    if t.phase == ADD_COUNT && t.sub.HasData() && t.sent != 0
    then counters[t.sub.iter := Count(counters, t.sub.iter) + t.sent]
    else if t.phase == TAKE_COUNT && t.sub.parts.tail then counters - {t.sub.iter}
    else counters
  }

  function TakenAfter(taken: map<nat, nat>, counters: map<nat, nat>, t: Task): map<nat, nat> {
    if t.phase == TAKE_COUNT && t.sub.parts.tail then taken[t.sub.iter := Count(counters, t.sub.iter)] else taken
  }

  function PromisesAfter(promises: nat, t: Task): nat {
    if t.phase == PROMISE && t.sub.parts.tail && t.sub.last then promises + 1 else promises
  }

  /** One step of task j. */
  function Stepped(o: Op, j: nat): Op
    requires j < |o.tasks| && Enabled(o, j)
  {
    var t := o.tasks[j];
    o.(tasks := Advanced(o, j),
       sync := SyncAfter(o.sync, t),
       gates := GatesAfter(o.gates, t),
       log := LogAfter(o.log, t, j),
       counters := CountersAfter(o.counters, t),
       taken := TakenAfter(o.taken, o.counters, t),
       promises := PromisesAfter(o.promises, t),
       rushed := o.rushed || Rushes(o, j))
  }
}
