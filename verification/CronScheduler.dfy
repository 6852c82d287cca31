/**
  The cron scheduler: threads that pick due tasks, callers that add tasks, and callers that remove
  them by name while they may be running. A step is one stretch of code under `tasks_queue_mtx`, the
  run of a handler, or one notification.
 */
module CronScheduler {
  import opened Types

  const RESCHEDULE_TIMEOUT := 60

  datatype Task = Task(name: string, next: int, deleted: bool, completed: bool)
  {
    predicate CanBeExecuted(now: int) {
      next <= now && !deleted
    }
  }

  /** How a handler ends: normally, wanting to run again at once or at the next cron time, or by an exception. */
  datatype Outcome =
    | Normally(runAsap: bool, cronNext: int, completed: bool)
    | Exception(now: int, completed: bool)

  function Executed(t: Task, o: Outcome): Task {
    match o
    case Normally(runAsap, cronNext, c) => t.(next := if runAsap then 0 else cronNext, completed := c)
    case Exception(now, c) => t.(next := now + RESCHEDULE_TIMEOUT, completed := c)
  }

  /** Where a scheduler thread is: looking for a task, holding one before or after its handler ran, or about to notify. */
  datatype Thread = Looking | Picked(id: nat) | Done(id: nat) | Telling

  /** A call of removeTaskByName: trying, asleep on `cv_remove_item`, or returned. */
  datatype Remover = Trying(name: string) | Waiting(name: string) | Returned(name: string, erased: bool)

  /**
    Tasks are objects, known here by a number. `running` is `running_task_vector`. `completed`,
    `removed` and `entered` are history: where tasks went, and whose handlers were entered.
   */
  datatype State = State(
    tasks: map<nat, Task>,
    queue: seq<nat>,
    running: seq<Option<nat>>,
    toRemove: set<string>,
    threads: seq<Thread>,
    removers: seq<Remover>,
    completed: seq<nat>,
    removed: seq<nat>,
    entered: seq<nat>)

  function Init(threads: nat): State {
    State(map[], [], seq(threads, _ => None), {}, seq(threads, _ => Looking), [], [], [], [])
  }

  predicate IsNamed(tasks: map<nat, Task>, id: nat, name: string) {
    id in tasks && tasks[id].name == name
  }

  /** What erase_if leaves in the queue, and what it takes out. */
  function Kept(queue: seq<nat>, tasks: map<nat, Task>, name: string): seq<nat> {
    if queue == [] then []
    else if IsNamed(tasks, queue[0], name) then Kept(queue[1..], tasks, name)
    else [queue[0]] + Kept(queue[1..], tasks, name)
  }

  function Taken(queue: seq<nat>, tasks: map<nat, Task>, name: string): seq<nat> {
    if queue == [] then []
    else if IsNamed(tasks, queue[0], name) then [queue[0]] + Taken(queue[1..], tasks, name)
    else Taken(queue[1..], tasks, name)
  }

  predicate RunsNamed(s: State, name: string) {
    exists th :: 0 <= th < |s.running| && s.running[th].Some? && IsNamed(s.tasks, s.running[th].value, name)
  }

  /** Is queue entry i the first one that is due? */
  predicate FirstDue(s: State, now: int, i: nat) {
    && i < |s.queue| && s.queue[i] in s.tasks && s.tasks[s.queue[i]].CanBeExecuted(now)
    && forall k :: 0 <= k < i && s.queue[k] in s.tasks ==> !s.tasks[s.queue[k]].CanBeExecuted(now)
  }

  // ---------------------------------------------------------------- steps

  datatype Action =
    | Add(id: nat, name: string, next: int)
    | Pick(th: nat, now: int, i: nat)      // queue entry i, the first that is due
    | Execute(th: nat, outcome: Outcome)   // the handler, outside the lock
    | Finish(th: nat)
    | Tell(th: nat)                        // notify_all
    | Call(name: string)                   // removeTaskByName is called ...
    | Try(r: nat)                          // ... and goes once round its loop, woken or not

  predicate Possible(s: State, a: Action) {
    match a
    case Add(id, _, _) => id !in s.tasks
    case Pick(th, now, i) => th < |s.threads| == |s.running| && s.threads[th].Looking? && FirstDue(s, now, i)
    case Execute(th, _) => th < |s.threads| && s.threads[th].Picked? && s.threads[th].id in s.tasks
    case Finish(th) => th < |s.threads| == |s.running| && s.threads[th].Done? && s.threads[th].id in s.tasks
    case Tell(th) => th < |s.threads| && s.threads[th].Telling?
    case Call(_) => true
    case Try(r) => r < |s.removers| && !s.removers[r].Returned?
  }

  function Finished(s: State, th: nat): State
    requires Possible(s, Finish(th))
  {
    var id := s.threads[th].id;
    var t := s.tasks[id];
    var freed := s.(running := s.running[th := None], threads := s.threads[th := Telling]);
    if t.completed then freed.(completed := s.completed + [id])
    else freed.(tasks := if t.name in s.toRemove then s.tasks[id := t.(deleted := true)] else s.tasks,
                queue := s.queue + [id])
  }

  /** One round of the loop of removeTaskByName. */
  function Tried(s: State, r: nat): State
    requires Possible(s, Try(r))
  {
    var name := s.removers[r].name;
    var taken := Taken(s.queue, s.tasks, name);
    if taken != [] then
      s.(queue := Kept(s.queue, s.tasks, name), removed := s.removed + taken, toRemove := s.toRemove - {name},
         removers := s.removers[r := Returned(name, true)])
    else if RunsNamed(s, name) then
      s.(toRemove := s.toRemove + {name}, removers := s.removers[r := Waiting(name)])
    else s.(removers := s.removers[r := Returned(name, false)])
  }

  function Woken(r: Remover): Remover {
    if r.Waiting? then Trying(r.name) else r
  }

  function After(s: State, a: Action): State
    requires Possible(s, a)
  {
    match a
    case Add(id, name, next) => s.(tasks := s.tasks[id := Task(name, next, false, false)], queue := [id] + s.queue)
    case Pick(th, _, i) =>
      s.(running := s.running[th := Some(s.queue[i])], threads := s.threads[th := Picked(s.queue[i])],
         queue := s.queue[..i] + s.queue[i + 1..])
    case Execute(th, o) =>
      var id := s.threads[th].id;
      s.(tasks := s.tasks[id := Executed(s.tasks[id], o)], threads := s.threads[th := Done(id)], entered := s.entered + [id])
    case Finish(th) => Finished(s, th)
    case Tell(th) =>
      s.(threads := s.threads[th := Looking],
         removers := seq(|s.removers|, r requires 0 <= r < |s.removers| => Woken(s.removers[r])))
    case Call(name) => s.(removers := s.removers + [Trying(name)])
    case Try(r) => Tried(s, r)
  }

  // ---------------------------------------------------------------- what every step keeps

  function Times(ids: seq<nat>, id: nat): nat {
    if ids == [] then 0 else (if ids[0] == id then 1 else 0) + Times(ids[1..], id)
  }

  /** How many threads hold the task. */
  function Holders(running: seq<Option<nat>>, id: nat): nat {
    if running == [] then 0 else (if running[0] == Some(id) then 1 else 0) + Holders(running[1..], id)
  }

  lemma {:induction false} TimesConcat(a: seq<nat>, b: seq<nat>, id: nat)
    ensures Times(a + b, id) == Times(a, id) + Times(b, id)
  {
    if a == [] {
      assert a + b == b;
    } else {
      TimesConcat(a[1..], b, id);
      assert (a + b)[1..] == a[1..] + b;
    }
  }

  lemma TimesWithout(ids: seq<nat>, i: nat, id: nat)
    requires i < |ids|
    ensures Times(ids[..i] + ids[i + 1..], id) == Times(ids, id) - (if ids[i] == id then 1 else 0)
  {
    TimesConcat(ids[..i], ids[i + 1..], id);
    TimesConcat(ids[..i], ids[i..], id);
    assert ids == ids[..i] + ids[i..] && ids[i..][1..] == ids[i + 1..];
  }

  lemma {:induction false} HoldersAfterUpdate(running: seq<Option<nat>>, th: nat, x: Option<nat>, id: nat)
    requires th < |running|
    ensures Holders(running[th := x], id) ==
            Holders(running, id) - (if running[th] == Some(id) then 1 else 0) + (if x == Some(id) then 1 else 0)
  {
    if th == 0 {
      assert running[th := x][1..] == running[1..];
    } else {
      HoldersAfterUpdate(running[1..], th - 1, x, id);
      assert running[th := x][1..] == running[1..][th - 1 := x];
    }
  }

  /** In how many places the task is. */
  function Places(s: State, id: nat): nat {
    Times(s.queue, id) + Holders(s.running, id) + Times(s.completed, id) + Times(s.removed, id)
  }

  /** Every task is queued, held by one thread, completed or removed: in one of these places, and once. */
  ghost predicate OnePlace(s: State) {
    forall id: nat :: Places(s, id) == if id in s.tasks then 1 else 0
  }

  /** The running vector is what the threads hold. */
  ghost predicate ThreadsMatch(s: State) {
    && |s.running| == |s.threads|
    && forall th :: 0 <= th < |s.threads| ==>
         s.running[th] == if s.threads[th].Picked? || s.threads[th].Done? then Some(s.threads[th].id) else None
  }

  /** A waiting remover is waiting for a thread that runs such a task or is about to notify. */
  ghost predicate WaitersServed(s: State) {
    forall r :: 0 <= r < |s.removers| && s.removers[r].Waiting? ==>
      RunsNamed(s, s.removers[r].name) || Telling in s.threads
  }

  ghost predicate Inv(s: State) {
    OnePlace(s) && ThreadsMatch(s) && WaitersServed(s)
  }

  lemma {:induction false} NothingHeld(running: seq<Option<nat>>, id: nat)
    requires forall th :: 0 <= th < |running| ==> running[th] == None
    ensures Holders(running, id) == 0
  {
    if running != [] {
      NothingHeld(running[1..], id);
    }
  }

  lemma InitInv(threads: nat)
    ensures Inv(Init(threads))
  {
    forall id: nat ensures Places(Init(threads), id) == 0 {
      NothingHeld(Init(threads).running, id);
    }
  }

  lemma {:induction false} Split(queue: seq<nat>, tasks: map<nat, Task>, name: string, id: nat)
    ensures Times(queue, id) == Times(Kept(queue, tasks, name), id) + Times(Taken(queue, tasks, name), id)
    ensures id in Kept(queue, tasks, name) <==> id in queue && !IsNamed(tasks, id, name)
    ensures id in Taken(queue, tasks, name) <==> id in queue && IsNamed(tasks, id, name)
  {
    if queue != [] {
      Split(queue[1..], tasks, name, id);
    }
  }

  lemma PlacesPick(s: State, a: Action, id: nat)
    requires ThreadsMatch(s) && a.Pick? && Possible(s, a)
    ensures Places(After(s, a), id) == Places(s, id)
  {
    TimesWithout(s.queue, a.i, id);
    HoldersAfterUpdate(s.running, a.th, Some(s.queue[a.i]), id);
  }

  lemma PlacesFinish(s: State, th: nat, id: nat)
    requires ThreadsMatch(s) && Possible(s, Finish(th))
    ensures Places(Finished(s, th), id) == Places(s, id)
  {
    HoldersAfterUpdate(s.running, th, None, id);
    TimesConcat(s.queue, [s.threads[th].id], id);
    TimesConcat(s.completed, [s.threads[th].id], id);
  }

  lemma PlacesTry(s: State, r: nat, id: nat)
    requires Possible(s, Try(r))
    ensures Places(Tried(s, r), id) == Places(s, id)
  {
    Split(s.queue, s.tasks, s.removers[r].name, id);
    TimesConcat(s.removed, Taken(s.queue, s.tasks, s.removers[r].name), id);
  }

  lemma PlacesAfter(s: State, a: Action, id: nat)
    requires ThreadsMatch(s) && Possible(s, a)
    ensures Places(After(s, a), id) == Places(s, id) + if a.Add? && a.id == id then 1 else 0
  {
    match a
    case Add(added, _, _) => TimesConcat([added], s.queue, id);
    case Pick(_, _, _) => PlacesPick(s, a, id);
    case Finish(th) => PlacesFinish(s, th, id);
    case Try(r) => PlacesTry(s, r, id);
    case _ =>
  }

  lemma OnePlaceAfter(s: State, a: Action)
    requires OnePlace(s) && ThreadsMatch(s) && Possible(s, a)
    ensures OnePlace(After(s, a))
  {
    forall id: nat ensures Places(After(s, a), id) == if id in After(s, a).tasks then 1 else 0 {
      PlacesAfter(s, a, id);
      assert Places(s, id) == if id in s.tasks then 1 else 0;
    }
  }

  lemma StillRuns(s: State, s': State, name: string, th: nat)
    requires |s'.running| == |s.running| && RunsNamed(s, name)
    requires th < |s.running| && forall k :: 0 <= k < |s.running| && k != th ==> s'.running[k] == s.running[k]
    requires s.running[th].Some? ==> s'.running[th] == s.running[th]
    requires forall id, n :: IsNamed(s.tasks, id, n) ==> IsNamed(s'.tasks, id, n)
    ensures RunsNamed(s', name)
  {
    var k :| 0 <= k < |s.running| && s.running[k].Some? && IsNamed(s.tasks, s.running[k].value, name);
    assert s'.running[k] == s.running[k];
  }

  lemma WaitersAfter(s: State, a: Action)
    requires ThreadsMatch(s) && WaitersServed(s) && Possible(s, a)
    ensures WaitersServed(After(s, a))
  {
    var s' := After(s, a);
    forall r | 0 <= r < |s'.removers| && s'.removers[r].Waiting?
      ensures RunsNamed(s', s'.removers[r].name) || Telling in s'.threads
    {
      var name := s'.removers[r].name;
      if a.Finish? {
        assert s'.threads[a.th] == Telling;
      } else if a.Pick? || a.Execute? {
        ServedStays(s, s', name, a.th);
      } else {
        assert s'.running == s.running;
      }
    }
  }

  lemma ServedStays(s: State, s': State, name: string, th: nat)
    requires ThreadsMatch(s) && (RunsNamed(s, name) || Telling in s.threads)
    requires |s'.running| == |s.running| && |s'.threads| == |s.threads| && th < |s.running|
    requires forall k :: 0 <= k < |s.running| && k != th ==> s'.running[k] == s.running[k] && s'.threads[k] == s.threads[k]
    requires s.running[th].Some? ==> s'.running[th] == s.running[th]
    requires s.threads[th] != Telling
    requires forall id, n :: IsNamed(s.tasks, id, n) ==> IsNamed(s'.tasks, id, n)
    ensures RunsNamed(s', name) || Telling in s'.threads
  {
    if RunsNamed(s, name) {
      StillRuns(s, s', name, th);
    } else {
      var k: nat :| k < |s.threads| && s.threads[k] == Telling;
      assert s'.threads[k] == Telling;
    }
  }

  lemma MatchAfter(s: State, a: Action)
    requires ThreadsMatch(s) && Possible(s, a)
    ensures ThreadsMatch(After(s, a))
  {
  }

  lemma InvAfter(s: State, a: Action)
    requires Inv(s) && Possible(s, a)
    ensures Inv(After(s, a))
  {
    MatchAfter(s, a);
    OnePlaceAfter(s, a);
    WaitersAfter(s, a);
  }

  ghost predicate Next(s: State, s': State) {
    exists a :: Possible(s, a) && s' == After(s, a)
  }

  ghost predicate IsRun(threads: nat, run: seq<State>) {
    run != [] && run[0] == Init(threads) && forall i :: 0 < i < |run| ==> Next(run[i - 1], run[i])
  }

  lemma NextKeeps(s: State, s': State)
    requires Inv(s) && Next(s, s')
    ensures Inv(s')
  {
    var a :| Possible(s, a) && s' == After(s, a);
    InvAfter(s, a);
  }

  lemma {:induction false} RunInv(threads: nat, run: seq<State>, i: nat)
    requires IsRun(threads, run) && i < |run|
    ensures Inv(run[i])
  {
    if i == 0 {
      InitInv(threads);
    } else {
      RunInv(threads, run, i - 1);
      NextKeeps(run[i - 1], run[i]);
    }
  }

  // ---------------------------------------------------------------- removal

  predicate QueuedNamed(s: State, name: string) {
    exists i :: 0 <= i < |s.queue| && IsNamed(s.tasks, s.queue[i], name)
  }

  /** Some task of that name can still be entered: it is queued, or a thread holds it. */
  ghost predicate LiveNamed(s: State, name: string) {
    QueuedNamed(s, name) || RunsNamed(s, name)
  }

  lemma {:induction false} TakenNamed(queue: seq<nat>, tasks: map<nat, Task>, name: string)
    ensures forall id :: id in Kept(queue, tasks, name) <==> id in queue && !IsNamed(tasks, id, name)
    ensures Taken(queue, tasks, name) != [] <==> exists i :: 0 <= i < |queue| && IsNamed(tasks, queue[i], name)
  {
    forall id: nat ensures id in Kept(queue, tasks, name) <==> id in queue && !IsNamed(tasks, id, name) {
      Split(queue, tasks, name, id);
    }
    if Taken(queue, tasks, name) != [] {
      Split(queue, tasks, name, Taken(queue, tasks, name)[0]);
    }
    if i :| 0 <= i < |queue| && IsNamed(tasks, queue[i], name) {
      Split(queue, tasks, name, queue[i]);
    }
  }

  /**
    When removeTaskByName returns, no task of that name is queued, and its result says whether one
    was. A thread runs such a task exactly if one was queued and another running at the same time.
    The name stays in `task_name_to_remove` exactly if nothing was erased and it was there.
   */
  lemma RemoveReturns(s: State, r: nat)
    requires Possible(s, Try(r)) && Tried(s, r).removers[r].Returned?
    ensures var s', name := Tried(s, r), s.removers[r].name;
            && s'.removers[r] == Returned(name, QueuedNamed(s, name))
            && !QueuedNamed(s', name)
            && (RunsNamed(s', name) <==> QueuedNamed(s, name) && RunsNamed(s, name))
            && (name in s'.toRemove <==> !QueuedNamed(s, name) && name in s.toRemove)
  {
    var s', name := Tried(s, r), s.removers[r].name;
    TakenNamed(s.queue, s.tasks, name);
    assert s'.running == s.running && s'.tasks == s.tasks;
    assert forall i :: 0 <= i < |s'.queue| ==> s'.queue[i] in s'.queue;
  }

  /** A step that adds nothing of that name makes no task of that name live, and enters none. */
  lemma StaysDead(s: State, a: Action, name: string)
    requires ThreadsMatch(s) && Possible(s, a) && !LiveNamed(s, name)
    requires forall id :: IsNamed(After(s, a).tasks, id, name) ==> id in s.tasks
    ensures var s' := After(s, a);
            && !LiveNamed(s', name)
            && s.entered <= s'.entered
            && (forall e :: |s.entered| <= e < |s'.entered| ==> !IsNamed(s'.tasks, s'.entered[e], name))
  {
    var s' := After(s, a);
    NamesKept(s, a);
    QueueStaysDead(s, a, name);
    forall th | 0 <= th < |s'.running| && s'.running[th].Some? ensures !IsNamed(s'.tasks, s'.running[th].value, name) {
      if s'.running[th] == s.running[th] {
        assert !IsNamed(s.tasks, s.running[th].value, name);
      }
    }
    if a.Execute? {
      assert s.running[a.th] == Some(s.threads[a.th].id);
    }
  }

  lemma NamesKept(s: State, a: Action)
    requires Possible(s, a)
    ensures s.tasks.Keys <= After(s, a).tasks.Keys
    ensures forall id :: id in s.tasks ==> After(s, a).tasks[id].name == s.tasks[id].name
    ensures forall id :: id in s.tasks && s.tasks[id].deleted ==> After(s, a).tasks[id].deleted
  {
  }

  lemma QueueStaysDead(s: State, a: Action, name: string)
    requires ThreadsMatch(s) && Possible(s, a) && !LiveNamed(s, name)
    requires forall id :: IsNamed(After(s, a).tasks, id, name) ==> id in s.tasks
    ensures !QueuedNamed(After(s, a), name)
  {
    var s' := After(s, a);
    NamesKept(s, a);
    forall i | 0 <= i < |s'.queue| ensures !IsNamed(s'.tasks, s'.queue[i], name) {
      var id := s'.queue[i];
      if id in s.queue {
        var k :| 0 <= k < |s.queue| && s.queue[k] == id;
        assert !IsNamed(s.tasks, s.queue[k], name);
      } else {
        match a
        case Finish(th) => assert s.running[th] == Some(id);
        case Try(r) => TakenNamed(s.queue, s.tasks, s.removers[r].name);
        case _ =>
      }
    }
  }

  /** No task of that name was added after s. */
  ghost predicate NoneAdded(s: State, s': State, name: string) {
    forall id :: IsNamed(s'.tasks, id, name) ==> id in s.tasks
  }

  ghost predicate DeadSince(s: State, s': State, name: string) {
    && !LiveNamed(s', name)
    && s.entered <= s'.entered
    && s.tasks.Keys <= s'.tasks.Keys
    && (forall id :: id in s.tasks ==> s'.tasks[id].name == s.tasks[id].name)
    && (forall e :: |s.entered| <= e < |s'.entered| ==> !IsNamed(s'.tasks, s'.entered[e], name))
  }

  lemma DeadNext(s: State, s': State, s'': State, name: string)
    requires Inv(s') && Next(s', s'') && DeadSince(s, s', name) && NoneAdded(s, s'', name)
    ensures DeadSince(s, s'', name)
  {
    var a :| Possible(s', a) && s'' == After(s', a);
    NamesKept(s', a);
    StaysDead(s', a, name);
    forall e | |s.entered| <= e < |s''.entered| ensures !IsNamed(s''.tasks, s''.entered[e], name) {
      if e < |s'.entered| {
        EnteredKnown(s', s'', s'.entered[e], name);
      }
    }
  }

  lemma EnteredKnown(s: State, s': State, id: nat, name: string)
    requires !IsNamed(s.tasks, id, name)
    requires forall i :: IsNamed(s'.tasks, i, name) ==> i in s.tasks
    requires forall i :: i in s.tasks ==> i in s'.tasks && s'.tasks[i].name == s.tasks[i].name
    ensures !IsNamed(s'.tasks, id, name)
  {
  }

  lemma NoneAddedBefore(s: State, s': State, s'': State, name: string)
    requires Next(s', s'') && NoneAdded(s, s'', name)
    ensures NoneAdded(s, s', name)
  {
    var a :| Possible(s', a) && s'' == After(s', a);
    NamesKept(s', a);
    forall id | IsNamed(s'.tasks, id, name) ensures id in s.tasks {
      assert IsNamed(s''.tasks, id, name);
    }
  }

  lemma DeadAtOnce(s: State, name: string)
    requires !LiveNamed(s, name)
    ensures DeadSince(s, s, name)
  {
  }

  /** The step of DeadUntil, as one claim about three states. */
  ghost predicate DeadIfNoneAdded(s: State, s': State, name: string) {
    NoneAdded(s, s', name) ==> DeadSince(s, s', name)
  }

  lemma DeadStep(s: State, s': State, s'': State, name: string)
    requires Inv(s') && Next(s', s'') && DeadIfNoneAdded(s, s', name)
    ensures DeadIfNoneAdded(s, s'', name)
  {
    if NoneAdded(s, s'', name) {
      NoneAddedBefore(s, s', s'', name);
      DeadNext(s, s', s'', name);
    }
  }

  lemma StepAt(threads: nat, run: seq<State>, j: nat)
    requires IsRun(threads, run) && 0 < j < |run|
    ensures Inv(run[j - 1]) && Next(run[j - 1], run[j])
  {
    RunInv(threads, run, j - 1);
  }

  lemma {:induction false} DeadUntil(threads: nat, run: seq<State>, i: nat, j: nat, name: string)
    requires IsRun(threads, run) && i <= j < |run| && !LiveNamed(run[i], name)
    ensures DeadIfNoneAdded(run[i], run[j], name)
    decreases j
  {
    if i == j {
      DeadAtOnce(run[i], name);
    } else {
      DeadUntil(threads, run, i, j - 1, name);
      StepAt(threads, run, j);
      DeadStep(run[i], run[j - 1], run[j], name);
    }
  }

  /**
    Safe removal, in any run and under any interleaving: once removeTaskByName has returned for a
    name that was not queued and running at the same time, no task of that name is queued or running
    and none of their handlers is entered again, until one of that name is added again.
   */
  lemma SafeRemoval(threads: nat, run: seq<State>, i: nat, j: nat, r: nat)
    requires IsRun(threads, run) && i + 1 <= j < |run| && Possible(run[i], Try(r)) && run[i + 1] == Tried(run[i], r)
    requires run[i + 1].removers[r].Returned?
    requires var name := run[i].removers[r].name;
             && !(QueuedNamed(run[i], name) && RunsNamed(run[i], name))
             && NoneAdded(run[i + 1], run[j], name)
    ensures DeadSince(run[i + 1], run[j], run[i].removers[r].name)
  {
    RemoveReturns(run[i], r);
    DeadUntil(threads, run, i + 1, j, run[i].removers[r].name);
  }

  /** A remover sleeps only while some thread has a task in hand or is about to notify. */
  lemma RemoversAreAnswered(threads: nat, run: seq<State>, i: nat, r: nat)
    requires IsRun(threads, run) && i < |run| && r < |run[i].removers|
    requires forall th :: 0 <= th < |run[i].threads| ==> run[i].threads[th].Looking?
    ensures !run[i].removers[r].Waiting?
  {
    RunInv(threads, run, i);
  }

  /** In any run every task is in exactly one place. */
  lemma TasksInOnePlace(threads: nat, run: seq<State>, i: nat, id: nat)
    requires IsRun(threads, run) && i < |run|
    ensures Places(run[i], id) == if id in run[i].tasks then 1 else 0
  {
    RunInv(threads, run, i);
  }

  // ---------------------------------------------------------------- names left behind

  /** The step is the next round of removal r. */
  ghost predicate IsTry(s: State, s': State, r: nat) {
    Possible(s, Try(r)) && s' == Tried(s, r)
  }

  /** In this step a removal of the name goes to wait. */
  ghost predicate GoesToWait(s: State, s': State, name: string) {
    exists r: nat :: IsTry(s, s', r) && s'.removers[r] == Waiting(name)
  }

  /** In this step a removal of the name erases a task. */
  ghost predicate Erases(s: State, s': State, name: string) {
    exists r: nat :: IsTry(s, s', r) && s'.removers[r] == Returned(name, true)
  }

  lemma MarkStep(s: State, s': State, name: string)
    requires Next(s, s')
    ensures name in s'.toRemove <==> GoesToWait(s, s', name) || (name in s.toRemove && !Erases(s, s', name))
  {
    forall r: nat | IsTry(s, s', r)
      ensures name in s'.toRemove <==> s'.removers[r] == Waiting(name) || (name in s.toRemove && s'.removers[r] != Returned(name, true))
    {
      TryMarks(s, r, name);
    }
    if forall r: nat :: !IsTry(s, s', r) {
      NoTryKeepsMarks(s, s');
    }
  }

  lemma NoTryKeepsMarks(s: State, s': State)
    requires Next(s, s') && forall r: nat :: !IsTry(s, s', r)
    ensures s'.toRemove == s.toRemove
  {
    var a :| Possible(s, a) && s' == After(s, a);
    assert a.Try? ==> IsTry(s, s', a.r);
    if !a.Try? {
      OtherKeepsMarks(s, a);
    }
  }

  lemma OtherKeepsMarks(s: State, a: Action)
    requires Possible(s, a) && !a.Try?
    ensures After(s, a).toRemove == s.toRemove
  {
  }

  lemma TryMarks(s: State, r: nat, name: string)
    requires Possible(s, Try(r))
    ensures var s' := Tried(s, r);
            name in s'.toRemove <==> s'.removers[r] == Waiting(name) || (name in s.toRemove && s'.removers[r] != Returned(name, true))
  {
  }

  ghost predicate WaitsAt(run: seq<State>, i: nat, name: string) {
    i + 1 < |run| && GoesToWait(run[i], run[i + 1], name)
  }

  ghost predicate ErasesAt(run: seq<State>, i: nat, name: string) {
    i + 1 < |run| && Erases(run[i], run[i + 1], name)
  }

  /** By state j of the run some removal of the name has gone to wait, and none has erased a task since. */
  ghost predicate WaitedSinceErased(run: seq<State>, j: nat, name: string) {
    exists i: nat :: i < j && WaitsAt(run, i, name) && forall k: nat :: i < k < j ==> !ErasesAt(run, k, name)
  }

  lemma WaitedStep(run: seq<State>, j: nat, name: string)
    requires j > 0
    ensures WaitedSinceErased(run, j, name) <==>
              WaitsAt(run, j - 1, name) || (WaitedSinceErased(run, j - 1, name) && !ErasesAt(run, j - 1, name))
  {
    if WaitedSinceErased(run, j - 1, name) && !ErasesAt(run, j - 1, name) {
      var i: nat :| i < j - 1 && WaitsAt(run, i, name) && forall k: nat :: i < k < j - 1 ==> !ErasesAt(run, k, name);
      assert i < j && forall k: nat :: i < k < j ==> !ErasesAt(run, k, name);
    }
  }

  /**
    In any run a name is marked for removal exactly if some removal of it has gone to wait and none
    has erased a task of that name since: a removal that waits and then finds nothing leaves the mark.
   */
  lemma {:induction false} MarkedIff(threads: nat, run: seq<State>, j: nat, name: string)
    requires IsRun(threads, run) && j < |run|
    ensures name in run[j].toRemove <==> WaitedSinceErased(run, j, name)
  {
    if j > 0 {
      MarkedIff(threads, run, j - 1, name);
      MarkStep(run[j - 1], run[j], name);
      WaitedStep(run, j, name);
    }
  }

  /** A flagged task is not in a thread's hands, so it is not entered. */
  ghost predicate FlaggedIdle(s: State) {
    forall th :: 0 <= th < |s.running| && s.running[th].Some? && s.running[th].value in s.tasks ==>
      !s.tasks[s.running[th].value].deleted
  }

  lemma FlaggedAfter(s: State, a: Action)
    requires Inv(s) && FlaggedIdle(s) && Possible(s, a)
    ensures FlaggedIdle(After(s, a))
  {
    var s' := After(s, a);
    forall k | 0 <= k < |s'.running| && s'.running[k].Some? && s'.running[k].value in s'.tasks
      ensures !s'.tasks[s'.running[k].value].deleted
    {
      var id := s'.running[k].value;
      if a.Finish? && id == s.threads[a.th].id {
        HeldOnce(s, k, a.th, id);
      }
    }
  }

  lemma HeldOnce(s: State, k: nat, th: nat, id: nat)
    requires OnePlace(s) && k < |s.running| && th < |s.running| && s.running[k] == s.running[th] == Some(id)
    ensures k == th
  {
    HoldersAfterUpdate(s.running, th, None, id);
    HoldersAfterUpdate(s.running[th := None], k, None, id);
    assert Places(s, id) <= 1;
  }

  /** If the task was flagged it still is, and it has not been entered since. */
  ghost predicate FlagHolds(s: State, s': State, id: nat) {
    id in s.tasks && s.tasks[id].deleted ==>
      id in s'.tasks && s'.tasks[id].deleted && Times(s'.entered, id) == Times(s.entered, id)
  }

  lemma FlaggedNext(s: State, s': State, id: nat)
    requires Inv(s) && FlaggedIdle(s) && Next(s, s')
    ensures FlaggedIdle(s') && FlagHolds(s, s', id)
  {
    var a :| Possible(s, a) && s' == After(s, a);
    FlaggedAfter(s, a);
    NamesKept(s, a);
    if a.Execute? {
      assert s.running[a.th] == Some(s.threads[a.th].id);
      TimesConcat(s.entered, [s.threads[a.th].id], id);
    }
  }

  ghost predicate InvAndIdle(s: State) {
    Inv(s) && FlaggedIdle(s)
  }

  lemma FlaggedStep(s: State, s': State, id: nat)
    requires InvAndIdle(s) && Next(s, s')
    ensures InvAndIdle(s') && FlagHolds(s, s', id)
  {
    NextKeeps(s, s');
    FlaggedNext(s, s', id);
  }

  lemma {:induction false} FlaggedRun(threads: nat, run: seq<State>, i: nat)
    requires IsRun(threads, run) && i < |run|
    ensures InvAndIdle(run[i])
  {
    if i == 0 {
      InitInv(threads);
    } else {
      FlaggedRun(threads, run, i - 1);
      FlaggedStep(run[i - 1], run[i], 0);
    }
  }

  /** What every step keeps holds from any state of a run on. */
  lemma {:induction false} Always(threads: nat, run: seq<State>, i: nat, j: nat, holds: State -> bool)
    requires IsRun(threads, run) && i <= j < |run| && holds(run[i])
    requires forall s, s' {:trigger Next(s, s')} :: holds(s) && Next(s, s') ==> holds(s')
    ensures holds(run[j])
    decreases j
  {
    if i < j {
      Always(threads, run, i, j - 1, holds);
      assert Next(run[j - 1], run[j]);
    }
  }

  lemma FlagHoldsUntil(threads: nat, run: seq<State>, i: nat, j: nat, id: nat)
    requires IsRun(threads, run) && i <= j < |run|
    ensures FlagHolds(run[i], run[j], id)
  {
    FlaggedRun(threads, run, i);
    var first := run[i];
    forall s, s' | InvAndIdle(s) && FlagHolds(first, s, id) && Next(s, s')
      ensures InvAndIdle(s') && FlagHolds(first, s', id)
    {
      FlaggedStep(s, s', id);
      FlagHoldsOn(first, s, s', id);
    }
    Always(threads, run, i, j, s => InvAndIdle(s) && FlagHolds(first, s, id));
  }

  lemma FlagHoldsOn(s: State, s': State, s'': State, id: nat)
    requires FlagHolds(s, s', id) && FlagHolds(s', s'', id)
    ensures FlagHolds(s, s'', id)
  {
  }

  /** In any run, a task once flagged for removal is never entered again. */
  lemma FlaggedNeverRuns(threads: nat, run: seq<State>, i: nat, j: nat, id: nat)
    requires IsRun(threads, run) && i <= j < |run| && id in run[i].tasks && run[i].tasks[id].deleted
    ensures id in run[j].tasks && run[j].tasks[id].deleted && Times(run[j].entered, id) == Times(run[i].entered, id)
  {
    FlagHoldsUntil(threads, run, i, j, id);
  }

  /**
    In any run a task that comes back from its handler unfinished is flagged, so that it never runs
    again, exactly if a removal of its name has gone to wait and none has erased a task since.
   */
  lemma RunsAgainIff(threads: nat, run: seq<State>, j: nat, th: nat)
    requires IsRun(threads, run) && j + 1 < |run| && Possible(run[j], Finish(th)) && run[j + 1] == Finished(run[j], th)
    requires !run[j].tasks[run[j].threads[th].id].completed
    ensures var id := run[j].threads[th].id;
            && id in run[j + 1].queue && id in run[j + 1].tasks
            && (run[j + 1].tasks[id].deleted <==> WaitedSinceErased(run, j, run[j].tasks[id].name))
  {
    FlaggedRun(threads, run, j);
    MarkedIff(threads, run, j, run[j].tasks[run[j].threads[th].id].name);
    assert run[j].running[th] == Some(run[j].threads[th].id);
  }

  lemma Extend(threads: nat, run: seq<State>, a: Action) returns (run': seq<State>)
    requires IsRun(threads, run) && Possible(run[|run| - 1], a)
    ensures IsRun(threads, run') && |run'| > 0 && run'[|run'| - 1] == After(run[|run| - 1], a)
  {
    var last := run[|run| - 1];
    run' := run + [After(last, a)];
    assert Next(last, After(last, a));
    forall i | 0 < i < |run'| ensures Next(run'[i - 1], run'[i]) {
      if i < |run| {
        assert run'[i - 1] == run[i - 1] && run'[i] == run[i];
      }
    }
  }

  /** A remover waits for a running task, which is about to come back. */
  lemma RemoverWaits() returns (run: seq<State>)
    ensures IsRun(1, run)
    ensures run[|run| - 1] == State(map[0 := Task("x", 0, false, false)], [], [Some(0)], {"x"}, [Picked(0)], [Waiting("x")], [], [], [])
  {
    run := [Init(1)];
    run := Extend(1, run, Add(0, "x", 0));
    run := Extend(1, run, Pick(0, 0, 0));
    run := Extend(1, run, Call("x"));
    var s := run[|run| - 1];
    assert s.queue == [] && s.running == [Some(0)] && s.threads == [Picked(0)];
    assert RunsNamed(s, "x") by { assert IsNamed(s.tasks, s.running[0].value, "x"); }
    run := Extend(1, run, Try(0));
    assert run[|run| - 1].removers == [Waiting("x")];
  }

  /** A run in which a remover waits for a task that completes: the name stays marked. */
  lemma NameLeftBehind() returns (run: seq<State>)
    ensures IsRun(1, run)
    ensures var s := run[|run| - 1];
            s == State(map[0 := Task("x", 0, false, true)], [], [None], {"x"}, [Looking], [Returned("x", false)], [0], [], [0])
  {
    run := RemoverWaits();
    run := Extend(1, run, Execute(0, Normally(true, 0, true)));
    run := Extend(1, run, Finish(0));
    run := Extend(1, run, Tell(0));
    var s := run[|run| - 1];
    assert s.queue == [] && s.removers == [Trying("x")] && s.running == [None];
    run := Extend(1, run, Try(0));
    s := run[|run| - 1];
    assert s.threads == [Looking] && s.removers == [Returned("x", false)];
  }

  /**
    The name a completed task leaves behind hits the next task of that name: added after the removal
    returned, it runs once and is then flagged for a removal nobody asked for.
   */
  lemma StaleNameStopsNewTask() returns (run: seq<State>)
    ensures IsRun(1, run)
    ensures var s := run[|run| - 1];
            && s.queue == [1] && 1 in s.tasks && s.tasks[1].deleted && s.entered == [0, 1]
            && s.removers == [Returned("x", false)]
  {
    run := NameLeftBehind();
    run := Extend(1, run, Add(1, "x", 0));
    run := Extend(1, run, Pick(0, 0, 0));
    run := Extend(1, run, Execute(0, Normally(true, 0, false)));
    run := Extend(1, run, Finish(0));
  }

  // ---------------------------------------------------------------- the scheduler object

  /** The members that `tasks_queue_mtx` guards, the task objects, and where threads and callers are. */
  class Scheduler {
    var tasks: map<nat, Task>
    var queue: seq<nat>
    var running: seq<Option<nat>>
    var toRemove: set<string>
    var threads: seq<Thread>
    var removers: seq<Remover>
    var completed: seq<nat>
    var removed: seq<nat>
    var entered: seq<nat>

    constructor (threadNumber: nat)
      ensures View() == Init(threadNumber) && Valid()
    {
      tasks, queue, toRemove, removers := map[], [], {}, [];
      running := seq(threadNumber, _ => None);
      threads := seq(threadNumber, _ => Looking);
      completed, removed, entered := [], [], [];
      new;
      InitInv(threadNumber);
    }

    ghost predicate Valid()
      reads this
    {
      InvAndIdle(View())
    }

    ghost function View(): State
      reads this
    {
      State(tasks, queue, running, toRemove, threads, removers, completed, removed, entered)
    }

    method AddTask(id: nat, name: string, next: int)
      requires Valid() && id !in tasks
      modifies this`tasks, this`queue
      ensures Valid() && View() == After(old(View()), Add(id, name, next))
      ensures queue == [id] + old(queue) && tasks == old(tasks)[id := Task(name, next, false, false)]
    {
      KeepsBoth(View(), Add(id, name, next));
      tasks := tasks[id := Task(name, next, false, false)];
      queue := [id] + queue;
    }

    /** std::erase_if: both what stays and what goes keep their order. */
    method EraseNamed(name: string) returns (taken: seq<nat>)
      modifies this`queue
      ensures queue == Kept(old(queue), tasks, name) && taken == Taken(old(queue), tasks, name)
    {
      taken := [];
      var kept: seq<nat> := [];
      for i := 0 to |queue|
        invariant queue == old(queue)
        invariant kept + Kept(queue[i..], tasks, name) == Kept(queue, tasks, name)
        invariant taken + Taken(queue[i..], tasks, name) == Taken(queue, tasks, name)
      {
        assert queue[i..][0] == queue[i] && queue[i..][1..] == queue[i + 1..];
        ghost var k, t := kept, taken;
        if IsNamed(tasks, queue[i], name) {
          taken := taken + [queue[i]];
          assert t + Taken(queue[i..], tasks, name) == taken + Taken(queue[i + 1..], tasks, name);
        } else {
          kept := kept + [queue[i]];
          assert k + Kept(queue[i..], tasks, name) == kept + Kept(queue[i + 1..], tasks, name);
        }
      }
      assert queue[|queue|..] == [];
      queue := kept;
    }

    /** std::find_if over the running vector. */
    method FindRunning(name: string) returns (found: bool)
      ensures found == RunsNamed(View(), name)
    {
      for th := 0 to |running|
        invariant forall k :: 0 <= k < th && running[k].Some? ==> !IsNamed(tasks, running[k].value, name)
      {
        if running[th].Some? && IsNamed(tasks, running[th].value, name) {
          return true;
        }
      }
      return false;
    }

    /** One round of the loop of removeTaskByName, from the lock or a wake-up to its return or its wait. */
    method RemoveRound(r: nat)
      requires Valid() && r < |removers| && !removers[r].Returned?
      modifies this
      ensures Valid() && View() == Tried(old(View()), r)
      ensures removers[r].Returned? ==>
                !QueuedNamed(View(), old(removers)[r].name) && removers[r].erased == QueuedNamed(old(View()), old(removers)[r].name)
    {
      KeepsBoth(View(), Try(r));
      if Tried(View(), r).removers[r].Returned? {
        RemoveReturns(View(), r);
      }
      var name := removers[r].name;
      var taken := EraseNamed(name);
      if taken == [] {
        assert queue == old(queue) by { TakesNone(old(queue), tasks, name); }
        var found := FindRunning(name);
        if found {
          toRemove := toRemove + {name};
          removers := removers[r := Waiting(name)];
        } else {
          removers := removers[r := Returned(name, false)];
        }
      } else {
        toRemove := toRemove - {name};
        removed := removed + taken;
        removers := removers[r := Returned(name, true)];
      }
    }

    /** The scan of scheduleTask: take the first queued task that is due, if there is one. */
    method PickTask(th: nat, now: int) returns (picked: Option<nat>)
      requires Valid() && th < |threads| && threads[th].Looking?
      modifies this`queue, this`running, this`threads
      ensures Valid()
      ensures picked.Some? ==> FirstDue(old(View()), now, picked.value)
                               && View() == After(old(View()), Pick(th, now, picked.value))
      ensures picked.None? ==> View() == old(View()) && forall i :: 0 <= i < |queue| ==>
                                 queue[i] in tasks && !tasks[queue[i]].CanBeExecuted(now)
    {
      QueueKnown(View());
      for i := 0 to |queue|
        invariant forall k :: 0 <= k < i ==> !tasks[queue[k]].CanBeExecuted(now)
      {
        if tasks[queue[i]].CanBeExecuted(now) {
          KeepsBoth(View(), Pick(th, now, i));
          running := running[th := Some(queue[i])];
          threads := threads[th := Picked(queue[i])];
          queue := queue[..i] + queue[i + 1..];
          return Some(i);
        }
      }
      return None;
    }

    /** What scheduleTask does with a task whose handler has returned. */
    method FinishTask(th: nat)
      requires Valid() && th < |threads| && threads[th].Done?
      modifies this
      ensures Valid() && old(Possible(View(), Finish(th))) && View() == Finished(old(View()), th)
    {
      HeldKnown(View(), th);
      KeepsBoth(View(), Finish(th));
      var id := threads[th].id;
      if tasks[id].completed {
        completed := completed + [id];
      } else {
        if tasks[id].name in toRemove {
          tasks := tasks[id := tasks[id].(deleted := true)];
        }
        queue := queue + [id];
      }
      running := running[th := None];
      threads := threads[th := Telling];
    }
  }

  lemma KeepsBoth(s: State, a: Action)
    requires InvAndIdle(s) && Possible(s, a)
    ensures InvAndIdle(After(s, a))
  {
    InvAfter(s, a);
    FlaggedAfter(s, a);
  }

  lemma QueueKnown(s: State)
    requires OnePlace(s)
    ensures forall i :: 0 <= i < |s.queue| ==> s.queue[i] in s.tasks
  {
    forall i | 0 <= i < |s.queue| ensures s.queue[i] in s.tasks {
      TimesIn(s.queue, s.queue[i]);
      assert Places(s, s.queue[i]) > 0;
    }
  }

  lemma HeldKnown(s: State, th: nat)
    requires OnePlace(s) && ThreadsMatch(s) && th < |s.threads| && s.threads[th].Done?
    ensures s.threads[th].id in s.tasks
  {
    HoldersAfterUpdate(s.running, th, None, s.threads[th].id);
    assert Places(s, s.threads[th].id) > 0;
  }

  lemma {:induction false} TimesIn(ids: seq<nat>, id: nat)
    ensures Times(ids, id) > 0 <==> id in ids
  {
    if ids != [] {
      TimesIn(ids[1..], id);
    }
  }

  lemma {:induction false} TakesNone(queue: seq<nat>, tasks: map<nat, Task>, name: string)
    requires Taken(queue, tasks, name) == []
    ensures Kept(queue, tasks, name) == queue
  {
    if queue != [] {
      TakesNone(queue[1..], tasks, name);
    }
  }
}
