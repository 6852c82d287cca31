/**
  When the cron scheduler runs its tasks: the time a task waits for is the one its last run, or its
  addition, has given it, and of the tasks that are due the one that has waited longest goes first.
 */
module CronTimes {
  import opened Types
  import opened CronScheduler

  /** The run takes those actions, one a step. */
  ghost predicate Takes(run: seq<State>, actions: seq<Action>) {
    && |run| == |actions| + 1
    && forall t :: 0 <= t < |actions| ==> Possible(run[t], actions[t]) && run[t + 1] == After(run[t], actions[t])
  }

  // ---------------------------------------------------------------- due times

  /** The time from which a task wants to run after that end of its handler, in seconds. */
  function WantsAt(o: Outcome): int {
    match o
    case Normally(true, _, _) => 0
    case Normally(false, cronNext, _) => cronNext
    case Exception(thrownAt, _) => thrownAt + 60  // a minute
  }

  /** Does the action set that task's time, and to what? It is added, or its handler ends on the thread that holds it. */
  ghost predicate SetsTime(s: State, a: Action, id: nat, time: int) {
    || (a.Add? && a.id == id && time == a.next)
    || (a.Execute? && a.th < |s.threads| && s.threads[a.th] == Picked(id) && time == WantsAt(a.outcome))
  }

  /** Action k was the last before t that set the task's time. */
  ghost predicate LastSet(run: seq<State>, actions: seq<Action>, k: nat, t: nat, id: nat, time: int)
    requires Takes(run, actions) && t <= |actions|
  {
    && k < t && SetsTime(run[k], actions[k], id, time)
    && forall m: nat, other: int :: k < m < t ==> !SetsTime(run[m], actions[m], id, other)
  }

  lemma TimeStep(s: State, a: Action, id: nat)
    requires Possible(s, a) && (id in s.tasks || id in After(s, a).tasks)
    ensures id in After(s, a).tasks
    ensures (exists time :: SetsTime(s, a, id, time)) || (id in s.tasks && After(s, a).tasks[id].next == s.tasks[id].next)
    ensures forall time :: SetsTime(s, a, id, time) ==> After(s, a).tasks[id].next == time
  {
    if a.Add? && a.id == id {
      assert SetsTime(s, a, id, a.next);
    } else if a.Execute? && s.threads[a.th] == Picked(id) {
      assert SetsTime(s, a, id, WantsAt(a.outcome));
    }
  }

  /** In any run the time of a task is the one that was set last. */
  lemma {:induction false} TimeIs(run: seq<State>, actions: seq<Action>, t: nat, id: nat) returns (k: nat)
    requires Takes(run, actions) && t <= |actions| && run[0].tasks == map[] && id in run[t].tasks
    ensures LastSet(run, actions, k, t, id, run[t].tasks[id].next)
  {
    var s, a := run[t - 1], actions[t - 1];
    TimeStep(s, a, id);
    if exists time :: SetsTime(s, a, id, time) {
      k := t - 1;
    } else {
      k := TimeIs(run, actions, t - 1, id);
    }
  }

  /** The task is not flagged, and the time that was set last for it has come. */
  ghost predicate IsReady(run: seq<State>, actions: seq<Action>, t: nat, id: nat, now: int)
    requires Takes(run, actions) && t <= |actions|
  {
    && id in run[t].tasks && !run[t].tasks[id].deleted
    && exists k: nat, time: int :: LastSet(run, actions, k, t, id, time) && time <= now
  }

  lemma ReadyIff(run: seq<State>, actions: seq<Action>, t: nat, id: nat, now: int)
    requires Takes(run, actions) && t <= |actions| && run[0].tasks == map[] && id in run[t].tasks
    ensures IsReady(run, actions, t, id, now) <==> run[t].tasks[id].CanBeExecuted(now)
  {
    var k := TimeIs(run, actions, t, id);
    forall j: nat, time: int | LastSet(run, actions, j, t, id, time) ensures time == run[t].tasks[id].next {
      OneLast(run, actions, t, id, j, k, time);
    }
  }

  lemma OneLast(run: seq<State>, actions: seq<Action>, t: nat, id: nat, j: nat, k: nat, time: int)
    requires Takes(run, actions) && t <= |actions| && id in run[t].tasks
    requires LastSet(run, actions, j, t, id, time) && LastSet(run, actions, k, t, id, run[t].tasks[id].next)
    ensures time == run[t].tasks[id].next
  {
    assert j == k;
  }

  /**
    In any run a thread that looks for work at time `now` can take queue entry i exactly if the time
    set last for that task has come, and has not come for any entry before it; flagged tasks are
    passed over. So no task is entered before its cron time, unless it has asked to run at once, or
    within a minute after its handler has thrown.
   */
  lemma PickedIff(threads: nat, run: seq<State>, actions: seq<Action>, t: nat, th: nat, now: int, i: nat)
    requires IsRun(threads, run) && Takes(run, actions) && t <= |actions|
    requires th < |run[t].threads| && run[t].threads[th].Looking? && i < |run[t].queue|
    ensures Possible(run[t], Pick(th, now, i)) <==>
              && IsReady(run, actions, t, run[t].queue[i], now)
              && forall k :: 0 <= k < i ==> !IsReady(run, actions, t, run[t].queue[k], now)
  {
    RunInv(threads, run, t);
    QueueKnown(run[t]);
    forall k | 0 <= k < |run[t].queue|
      ensures IsReady(run, actions, t, run[t].queue[k], now) <==> run[t].tasks[run[t].queue[k]].CanBeExecuted(now)
    {
      ReadyIff(run, actions, t, run[t].queue[k], now);
    }
  }

  // ---------------------------------------------------------------- completion

  /** Action k was the run of a handler on thread th, and the thread has run none since. */
  ghost predicate LastRun(run: seq<State>, actions: seq<Action>, k: nat, t: nat, th: nat)
    requires Takes(run, actions) && t <= |actions|
  {
    && k < t && actions[k].Execute? && actions[k].th == th
    && forall m: nat :: k < m < t && actions[m].Execute? ==> actions[m].th != th
  }

  /** A step other than the run of its handler leaves a task in a thread's hands as it is. */
  lemma HeldStays(s: State, a: Action, th: nat)
    requires Inv(s) && Possible(s, a) && !(a.Execute? && a.th == th)
    requires th < |After(s, a).threads| && After(s, a).threads[th].Done?
    ensures th < |s.threads| && s.threads[th] == After(s, a).threads[th]
    ensures var id := s.threads[th].id; id in s.tasks && id in After(s, a).tasks && After(s, a).tasks[id].completed == s.tasks[id].completed
  {
    HeldKnown(s, th);
    if a.Execute? && s.threads[a.th].id == s.threads[th].id {
      assert s.running[a.th] == Some(s.threads[th].id) && s.running[th] == Some(s.threads[th].id);
      HeldOnce(s, a.th, th, s.threads[th].id);
    }
  }

  lemma {:induction false} HandlerRan(threads: nat, run: seq<State>, actions: seq<Action>, t: nat, th: nat) returns (k: nat)
    requires IsRun(threads, run) && Takes(run, actions) && t <= |actions| && th < |run[t].threads| && run[t].threads[th].Done?
    ensures LastRun(run, actions, k, t, th)
    ensures var id := run[t].threads[th].id;
            run[k].threads[th] == Picked(id) && id in run[t].tasks && run[t].tasks[id].completed == actions[k].outcome.completed
  {
    StepOf(threads, run, actions, t - 1);
    HandlerStep(run[t - 1], actions[t - 1], run[t], th);
    if actions[t - 1].Execute? && actions[t - 1].th == th {
      k := t - 1;
    } else {
      k := HandlerRan(threads, run, actions, t - 1, th);
    }
  }

  lemma HandlerStep(s: State, a: Action, s': State, th: nat)
    requires Inv(s) && Possible(s, a) && s' == After(s, a) && th < |s'.threads| && s'.threads[th].Done?
    ensures th < |s.threads|
    ensures var id := s'.threads[th].id;
            && id in s'.tasks
            && if a.Execute? && a.th == th then s.threads[th] == Picked(id) && s'.tasks[id].completed == a.outcome.completed
               else s.threads[th] == s'.threads[th] && id in s.tasks && s'.tasks[id].completed == s.tasks[id].completed
  {
    if !(a.Execute? && a.th == th) {
      HeldStays(s, a, th);
    }
  }

  lemma StepOf(threads: nat, run: seq<State>, actions: seq<Action>, m: nat)
    requires IsRun(threads, run) && Takes(run, actions) && m < |actions|
    ensures Inv(run[m]) && Possible(run[m], actions[m]) && run[m + 1] == After(run[m], actions[m])
  {
    RunInv(threads, run, m);
  }

  /**
    In any run a task that comes back is over exactly if its handler has said so, also when it has
    thrown; otherwise it is queued again.
   */
  lemma CompletedIff(threads: nat, run: seq<State>, actions: seq<Action>, t: nat, th: nat) returns (k: nat)
    requires IsRun(threads, run) && Takes(run, actions) && t < |actions| && actions[t] == Finish(th)
    ensures LastRun(run, actions, k, t, th) && th < |run[t].threads| && run[t].threads[th].Done?
    ensures var id := run[t].threads[th].id;
            if actions[k].outcome.completed then run[t + 1].completed == run[t].completed + [id] && run[t + 1].queue == run[t].queue
            else run[t + 1].queue == run[t].queue + [id] && run[t + 1].completed == run[t].completed
  {
    StepOf(threads, run, actions, t);
    k := HandlerRan(threads, run, actions, t, th);
  }

  // ---------------------------------------------------------------- nobody is overtaken

  /** Wherever y is in the queue, x is before it. */
  ghost predicate Ahead(queue: seq<nat>, x: nat, y: nat) {
    forall j :: 0 <= j < |queue| && queue[j] == y ==> exists i :: 0 <= i < j && queue[i] == x
  }

  lemma {:induction false} KeptAhead(queue: seq<nat>, tasks: map<nat, Task>, name: string, x: nat, y: nat)
    requires Ahead(queue, x, y) && !IsNamed(tasks, x, name)
    ensures Ahead(Kept(queue, tasks, name), x, y)
  {
    if queue != [] {
      if queue[0] == x {
        FrontAhead(queue, tasks, name, x, y);
      } else {
        TailAhead(queue, x, y);
        KeptAhead(queue[1..], tasks, name, x, y);
        if !IsNamed(tasks, queue[0], name) {
          MoreAhead(queue[0], Kept(queue[1..], tasks, name), x, y);
        }
      }
    }
  }

  lemma FrontAhead(queue: seq<nat>, tasks: map<nat, Task>, name: string, x: nat, y: nat)
    requires queue != [] && queue[0] == x && Ahead(queue, x, y) && !IsNamed(tasks, x, name)
    ensures Ahead(Kept(queue, tasks, name), x, y)
  {
    var kept := Kept(queue, tasks, name);
    assert kept[0] == x;
    assert x != y;
  }

  lemma TailAhead(queue: seq<nat>, x: nat, y: nat)
    requires queue != [] && queue[0] != x && Ahead(queue, x, y)
    ensures queue[0] != y && Ahead(queue[1..], x, y)
  {
    forall j | 0 <= j < |queue[1..]| && queue[1..][j] == y ensures exists i :: 0 <= i < j && queue[1..][i] == x {
      assert queue[j + 1] == y;
      var i :| 0 <= i < j + 1 && queue[i] == x;
      assert queue[1..][i - 1] == x;
    }
  }

  lemma MoreAhead(first: nat, rest: seq<nat>, x: nat, y: nat)
    requires Ahead(rest, x, y) && first != y
    ensures Ahead([first] + rest, x, y)
  {
    var queue := [first] + rest;
    forall j | 0 <= j < |queue| && queue[j] == y ensures exists i :: 0 <= i < j && queue[i] == x {
      var i :| 0 <= i < j - 1 && rest[i] == x;
      assert queue[i + 1] == x;
    }
  }

  lemma LaterAhead(queue: seq<nat>, last: nat, x: nat, y: nat)
    requires Ahead(queue, x, y) && x in queue
    ensures Ahead(queue + [last], x, y)
  {
    forall j | 0 <= j < |queue + [last]| && (queue + [last])[j] == y ensures exists i :: 0 <= i < j && (queue + [last])[i] == x {
      if j < |queue| {
        var i :| 0 <= i < j && queue[i] == x;
        assert (queue + [last])[i] == x;
      } else {
        var i :| 0 <= i < |queue| && queue[i] == x;
        assert (queue + [last])[i] == x;
      }
    }
  }

  lemma PickedAhead(queue: seq<nat>, p: nat, x: nat, y: nat)
    requires p < |queue| && Ahead(queue, x, y) && queue[p] != x
    ensures Ahead(queue[..p] + queue[p + 1..], x, y)
  {
    var left := queue[..p] + queue[p + 1..];
    forall j | 0 <= j < |left| && left[j] == y ensures exists i :: 0 <= i < j && left[i] == x {
      var at := if j < p then j else j + 1;
      assert queue[at] == y;
      var i :| 0 <= i < at && queue[i] == x;
      assert left[if i < p then i else i - 1] == x;
    }
  }

  /** Task x is queued, and nothing keeps a thread that looks at it from taking it. */
  predicate Waits(s: State, x: nat, now: int) {
    x in s.queue && x in s.tasks && s.tasks[x].CanBeExecuted(now)
  }

  /** Task x is in the queue before the step and after it, and the step does not take it. */
  predicate StaysOver(s: State, a: Action, s': State, x: nat) {
    Possible(s, a) && s' == After(s, a) && x in s.queue && x in s'.queue && (a.Pick? ==> s.queue[a.i] != x)
  }

  ghost predicate AheadNow(s: State, x: nat, y: nat) {
    Inv(s) && y in s.tasks && Ahead(s.queue, x, y)
  }

  /** Such a step leaves x ahead of y. */
  lemma AheadStep(s: State, a: Action, s': State, x: nat, y: nat)
    requires AheadNow(s, x, y) && StaysOver(s, a, s', x)
    ensures AheadNow(s', x, y)
  {
    InvAfter(s, a);
    NamesKept(s, a);
    if a.Try? {
      TryAhead(s, a.r, x, y);
    } else {
      OtherAhead(s, a, x, y);
    }
  }

  lemma TryAhead(s: State, r: nat, x: nat, y: nat)
    requires Possible(s, Try(r)) && Ahead(s.queue, x, y) && x in s.queue && x in Tried(s, r).queue
    ensures Ahead(Tried(s, r).queue, x, y)
  {
    var name := s.removers[r].name;
    if Taken(s.queue, s.tasks, name) != [] {
      Split(s.queue, s.tasks, name, x);
      KeptAhead(s.queue, s.tasks, name, x, y);
    }
  }

  lemma OtherAhead(s: State, a: Action, x: nat, y: nat)
    requires Possible(s, a) && !a.Try? && Ahead(s.queue, x, y) && x in s.queue && y in s.tasks
    requires a.Pick? ==> s.queue[a.i] != x
    ensures Ahead(After(s, a).queue, x, y)
  {
    match a
    case Add(id, _, _) => MoreAhead(id, s.queue, x, y);
    case Pick(_, now, i) => PickedAhead(s.queue, i, x, y);
    case Finish(th) => LaterAhead(s.queue, s.threads[th].id, x, y);
    case _ =>
  }

  /** From state t to state u of the run task x stays in the queue. */
  ghost predicate StaysQueued(run: seq<State>, actions: seq<Action>, t: nat, u: nat, x: nat)
    requires u <= |actions| && u < |run|
  {
    forall m: nat :: t <= m < u ==> StaysOver(run[m], actions[m], run[m + 1], x)
  }

  lemma {:induction false} AheadUntil(run: seq<State>, actions: seq<Action>, t: nat, u: nat, x: nat, y: nat)
    requires t <= u <= |actions| && u < |run| && StaysQueued(run, actions, t, u, x) && AheadNow(run[t], x, y)
    ensures AheadNow(run[u], x, y)
    decreases u
  {
    if t < u {
      AheadUntil(run, actions, t, u - 1, x, y);
      AheadStep(run[u - 1], actions[u - 1], run[u], x, y);
    }
  }

  /**
    A task that comes back from its handler in step t is not taken again before a task that is queued
    by then and waits for a thread, in any run: due tasks take turns.
   */
  lemma TakeTurns(threads: nat, run: seq<State>, actions: seq<Action>, t: nat, u: nat, x: nat)
    requires IsRun(threads, run) && Takes(run, actions) && t < u < |actions|
    requires actions[t].Finish? && x in run[t].queue && StaysQueued(run, actions, t + 1, u, x)
    requires actions[u].Pick? && Waits(run[u], x, actions[u].now)
    ensures run[u].queue[actions[u].i] != run[t].threads[actions[t].th].id
  {
    var y := run[t].threads[actions[t].th].id;
    RunInv(threads, run, t);
    RunInv(threads, run, t + 1);
    HeldIsNotQueued(run[t], actions[t].th);
    assert Ahead(run[t].queue, x, y);
    LaterAhead(run[t].queue, y, x, y);
    AheadUntil(run, actions, t + 1, u, x, y);
    AheadPicked(run[u], actions[u], x, y);
  }

  lemma AheadPicked(s: State, a: Action, x: nat, y: nat)
    requires Possible(s, a) && a.Pick? && Ahead(s.queue, x, y) && Waits(s, x, a.now)
    ensures s.queue[a.i] != y
  {
  }

  lemma HeldIsNotQueued(s: State, th: nat)
    requires Inv(s) && Possible(s, Finish(th))
    ensures s.threads[th].id !in s.queue
  {
    var id := s.threads[th].id;
    HoldersAfterUpdate(s.running, th, None, id);
    if id in s.queue {
      TimesIn(s.queue, id);
    }
    assert Places(s, id) <= 1;
  }
}
