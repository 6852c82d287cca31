/**
  The thread pool without pause and priorities (BS::light_thread_pool) as a state machine. A step is
  one stretch of code that holds `tasks_mutex`, or one notification sent after the mutex is released.
 */
module ThreadPool {

  /** A submitted function; what it does is opaque. It may submit others. */
  type Job = int

  /**
    Where a worker is: in its init function, in job number `job` (counted in starting order), asleep
    on `task_available_cv`, or woken by a notification and about to take the mutex again.
   */
  datatype Worker = Starting | Running(job: nat) | Asleep | Woken

  /** The thread that calls wait(): elsewhere, asleep on `tasks_done_cv`, or notified. */
  datatype Waiter = Away | Sleeping | Notified

  /**
    `notices` counts the jobs pushed whose notify_one is still to come. `submitted`, `started` and
    `done` are history: what was ever pushed and popped, and which started jobs have returned.
   */
  datatype Pool = Pool(
    tasks: seq<Job>,
    tasksRunning: int,
    waiting: bool,
    workers: seq<Worker>,
    waiter: Waiter,
    notices: nat,
    submitted: seq<Job>,
    started: seq<Job>,
    done: set<nat>)

  /** create_threads: every thread counts as running until it first looks for work. */
  function Created(threads: nat): Pool {
    Pool([], threads, false, seq(threads, _ => Starting), Away, 0, [], [], {})
  }

  /** detach_task, up to the end of its scope. */
  function Pushed(p: Pool, t: Job): Pool {
    p.(tasks := p.tasks + [t], notices := p.notices + 1, submitted := p.submitted + [t])
  }

  predicate IsBusy(w: Worker) {
    w.Starting? || w.Running?
  }

  /** The rest of a worker's turn: take the oldest job, or fall asleep when there is none. */
  function Turn(p: Pool, w: nat): Pool
    requires w < |p.workers|
  {
    if p.tasks == [] then p.(workers := p.workers[w := Asleep])
    else p.(tasks := p.tasks[1..], tasksRunning := p.tasksRunning + 1,
            workers := p.workers[w := Running(|p.started|)], started := p.started + [p.tasks[0]])
  }

  /** The worker counts itself out and tells the waiter when that was the last one. */
  function CountedOut(p: Pool, w: nat): Pool
    requires w < |p.workers|
  {
    var running := p.tasksRunning - 1;
    p.(tasksRunning := running,
       waiter := if p.waiting && running == 0 && p.tasks == [] && p.waiter.Sleeping? then Notified else p.waiter,
       done := if p.workers[w].Running? then p.done + {p.workers[w].job} else p.done)
  }

  /** wait() checks its condition: return, or sleep on. */
  function Checked(p: Pool): Pool {
    if p.tasksRunning == 0 && p.tasks == [] then p.(waiting := false, waiter := Away)
    else p.(waiting := true, waiter := Sleeping)
  }

  datatype Action =
    | Submit(t: Job)            // any thread, a running job included
    | Notify(w: nat)            // notify_one wakes one sleeping worker ...
    | NotifyNobody              // ... or nobody, when none sleeps
    | Return(w: nat)            // a job or the init function returns and the worker looks for work
    | Wake(w: nat)              // a woken worker looks for work, woken by a notification or not
    | CallWait
    | WakeWaiter                // by a notification or not

  predicate Possible(p: Pool, a: Action) {
    match a
    case Submit(_) => true
    case Notify(w) => p.notices > 0 && w < |p.workers| && p.workers[w].Asleep?
    case NotifyNobody => p.notices > 0 && Asleep !in p.workers
    case Return(w) => w < |p.workers| && IsBusy(p.workers[w])
    case Wake(w) => w < |p.workers| && (p.workers[w].Asleep? || p.workers[w].Woken?)
    case CallWait => p.waiter.Away?
    case WakeWaiter => !p.waiter.Away?
  }

  function After(p: Pool, a: Action): Pool
    requires Possible(p, a)
  {
    match a
    case Submit(t) => Pushed(p, t)
    case Notify(w) => p.(notices := p.notices - 1, workers := p.workers[w := Woken])
    case NotifyNobody => p.(notices := p.notices - 1)
    case Return(w) => Turn(CountedOut(p, w), w)
    case Wake(w) => Turn(p, w)
    case CallWait => Checked(p)
    case WakeWaiter => Checked(p)
  }

  // ---------------------------------------------------------------- what every step keeps

  function Busy(ws: seq<Worker>): nat {
    if ws == [] then 0 else Busy(ws[..|ws| - 1]) + if IsBusy(ws[|ws| - 1]) then 1 else 0
  }

  function WokenUp(ws: seq<Worker>): nat {
    if ws == [] then 0 else WokenUp(ws[..|ws| - 1]) + if ws[|ws| - 1].Woken? then 1 else 0
  }

  lemma {:induction false} CountsAfterUpdate(ws: seq<Worker>, w: nat, x: Worker)
    requires w < |ws|
    ensures var ws' := ws[w := x];
            && Busy(ws') == Busy(ws) - (if IsBusy(ws[w]) then 1 else 0) + (if IsBusy(x) then 1 else 0)
            && WokenUp(ws') == WokenUp(ws) - (if ws[w].Woken? then 1 else 0) + (if x.Woken? then 1 else 0)
  {
    var ws' := ws[w := x];
    var n := |ws| - 1;
    if w == n {
      assert ws'[..n] == ws[..n];
    } else {
      CountsAfterUpdate(ws[..n], w, x);
      assert ws'[..n] == ws[..n][w := x];
    }
  }

  /** The number of running tasks is the number of workers starting up or running a job. */
  ghost predicate RunningCount(p: Pool) {
    p.tasksRunning == Busy(p.workers)
  }

  /** Jobs start in the order they were submitted, each once. */
  ghost predicate Fifo(p: Pool) {
    p.started + p.tasks == p.submitted
  }

  /** Every started job is done or runs on exactly one worker. */
  ghost predicate Placed(p: Pool) {
    && (forall w :: 0 <= w < |p.workers| && p.workers[w].Running? ==> p.workers[w].job < |p.started| && p.workers[w].job !in p.done)
    && (forall v, w :: 0 <= v < w < |p.workers| && p.workers[v].Running? && p.workers[w].Running? ==>
          p.workers[v].job != p.workers[w].job)
    && (forall i :: i in p.done ==> i < |p.started|)
    && (forall i: nat :: i < |p.started| ==> i in p.done || Running(i) in p.workers)
  }

  /** As long as a worker sleeps, every queued job has a wake-up of its own on the way. */
  ghost predicate NoLostNotice(p: Pool) {
    Asleep in p.workers ==> |p.tasks| <= p.notices + WokenUp(p.workers)
  }

  /** wait() never sleeps through the moment its condition becomes true. */
  ghost predicate WaiterInv(p: Pool) {
    && (p.waiting <==> !p.waiter.Away?)
    && (p.waiter.Sleeping? ==> p.tasksRunning > 0 || p.tasks != [])
  }

  ghost predicate Inv(p: Pool) {
    RunningCount(p) && Fifo(p) && Placed(p) && NoLostNotice(p) && WaiterInv(p)
  }

  lemma {:induction false} AllStarting(n: nat)
    ensures Busy(seq(n, _ => Starting)) == n
  {
    if n > 0 {
      AllStarting(n - 1);
      assert seq(n, _ => Starting)[..n - 1] == seq(n - 1, _ => Starting);
    }
  }

  lemma CreatedInv(threads: nat)
    ensures Inv(Created(threads))
  {
    AllStarting(threads);
  }

  lemma CountsAfter(p: Pool, a: Action)
    requires RunningCount(p) && NoLostNotice(p) && Possible(p, a)
    ensures RunningCount(After(p, a)) && NoLostNotice(After(p, a))
  {
    match a
    case Notify(w) => CountsAfterUpdate(p.workers, w, Woken);
    case Return(w) =>
      CountsAfterUpdate(p.workers, w, Asleep);
      CountsAfterUpdate(p.workers, w, Running(|p.started|));
    case Wake(w) =>
      CountsAfterUpdate(p.workers, w, Asleep);
      CountsAfterUpdate(p.workers, w, Running(|p.started|));
    case _ =>
  }

  lemma FifoAfter(p: Pool, a: Action)
    requires Fifo(p) && Possible(p, a)
    ensures Fifo(After(p, a))
  {
    if p.tasks != [] {
      assert p.started + p.tasks == (p.started + [p.tasks[0]]) + p.tasks[1..];
    }
  }

  lemma TurnPlaced(p: Pool, w: nat)
    requires Placed(p) && w < |p.workers| && !p.workers[w].Running?
    ensures Placed(Turn(p, w))
  {
    var p' := Turn(p, w);
    forall i: nat | i < |p'.started| && i !in p'.done ensures Running(i) in p'.workers {
      if i < |p.started| {
        var v: nat :| v < |p.workers| && p.workers[v] == Running(i);
        assert p'.workers[v] == Running(i);
      } else {
        assert p'.workers[w] == Running(i);
      }
    }
  }

  lemma ReturnPlaced(p: Pool, w: nat)
    requires Placed(p) && w < |p.workers| && p.workers[w].Running?
    ensures Placed(CountedOut(p, w).(workers := p.workers[w := Asleep]))
  {
    var p' := CountedOut(p, w).(workers := p.workers[w := Asleep]);
    forall i: nat | i < |p'.started| && i !in p'.done ensures Running(i) in p'.workers {
      var v: nat :| v < |p.workers| && p.workers[v] == Running(i);
      assert p'.workers[v] == Running(i);
    }
  }

  lemma PlacedAfterReturn(p: Pool, w: nat)
    requires Placed(p) && Possible(p, Return(w))
    ensures Placed(After(p, Return(w)))
  {
    var q := CountedOut(p, w);
    if p.workers[w].Running? {
      ReturnPlaced(p, w);
      TurnPlaced(q.(workers := p.workers[w := Asleep]), w);
      assert Turn(q, w).workers == Turn(q.(workers := p.workers[w := Asleep]), w).workers;
    } else {
      TurnPlaced(q, w);
    }
  }

  lemma PlacedAfterNotify(p: Pool, w: nat)
    requires Placed(p) && Possible(p, Notify(w))
    ensures Placed(After(p, Notify(w)))
  {
    var p' := After(p, Notify(w));
    forall i: nat | i < |p.started| && i !in p.done ensures Running(i) in p'.workers {
      var v: nat :| v < |p.workers| && p.workers[v] == Running(i);
      assert p'.workers[v] == Running(i);
    }
  }

  lemma PlacedAfter(p: Pool, a: Action)
    requires Placed(p) && Possible(p, a)
    ensures Placed(After(p, a))
  {
    match a
    case Return(w) => PlacedAfterReturn(p, w);
    case Wake(w) => TurnPlaced(p, w);
    case Notify(w) => PlacedAfterNotify(p, w);
    case _ =>
  }

  lemma WaiterAfter(p: Pool, a: Action)
    requires RunningCount(p) && WaiterInv(p) && Possible(p, a)
    ensures WaiterInv(After(p, a))
  {
    if a.Return? {
      CountsAfterUpdate(p.workers, a.w, Asleep);
    }
  }

  lemma InvAfter(p: Pool, a: Action)
    requires Inv(p) && Possible(p, a)
    ensures Inv(After(p, a))
  {
    CountsAfter(p, a);
    FifoAfter(p, a);
    PlacedAfter(p, a);
    WaiterAfter(p, a);
  }

  // ---------------------------------------------------------------- runs

  ghost predicate Next(p: Pool, p': Pool) {
    exists a :: Possible(p, a) && p' == After(p, a)
  }

  ghost predicate IsRun(threads: nat, run: seq<Pool>) {
    run != [] && run[0] == Created(threads) && forall i :: 0 < i < |run| ==> Next(run[i - 1], run[i])
  }

  lemma NextKeeps(p: Pool, p': Pool)
    requires Inv(p) && Next(p, p')
    ensures Inv(p') && |p'.workers| == |p.workers|
  {
    var a :| Possible(p, a) && p' == After(p, a);
    InvAfter(p, a);
  }

  lemma {:induction false} RunInv(threads: nat, run: seq<Pool>, i: nat)
    requires IsRun(threads, run) && i < |run|
    ensures Inv(run[i]) && |run[i].workers| == threads
  {
    if i == 0 {
      CreatedInv(threads);
    } else {
      RunInv(threads, run, i - 1);
      NextKeeps(run[i - 1], run[i]);
    }
  }

  /** The jobs that the actions submit, in order. */
  function JobsOf(actions: seq<Action>): seq<Job> {
    if actions == [] then []
    else JobsOf(actions[..|actions| - 1]) + if actions[|actions| - 1].Submit? then [actions[|actions| - 1].t] else []
  }

  /** The run takes those actions, one a step. */
  ghost predicate Takes(run: seq<Pool>, actions: seq<Action>) {
    && |run| == |actions| + 1
    && forall i :: 0 <= i < |actions| ==> Possible(run[i], actions[i]) && run[i + 1] == After(run[i], actions[i])
  }

  /** How many notifications they send to workers. */
  function Notices(actions: seq<Action>): nat {
    if actions == [] then 0
    else
      var a := actions[|actions| - 1];
      Notices(actions[..|actions| - 1]) + if a.Notify? || a.NotifyNobody? then 1 else 0
  }

  /**
    In any run the pool has in its queue, or has started, exactly the jobs submitted so far, in that
    order, and each of them is followed by one notification.
   */
  lemma {:induction false} NoJobLost(threads: nat, run: seq<Pool>, actions: seq<Action>, i: nat)
    requires IsRun(threads, run) && Takes(run, actions) && i <= |actions|
    ensures run[i].started + run[i].tasks == JobsOf(actions[..i]) == run[i].submitted
    ensures Notices(actions[..i]) + run[i].notices == |JobsOf(actions[..i])|
  {
    if i > 0 {
      NoJobLost(threads, run, actions, i - 1);
      assert run[i - 1 + 1] == After(run[i - 1], actions[i - 1]);
      assert actions[..i][..i - 1] == actions[..i - 1];
    }
    RunInv(threads, run, i);
  }

  /** All that was submitted has run, and nothing runs any more. */
  ghost predicate AllDone(p: Pool) {
    && p.tasks == [] && p.started == p.submitted
    && (forall i: nat :: i in p.done <==> i < |p.submitted|)
    && forall w :: 0 <= w < |p.workers| ==> !IsBusy(p.workers[w])
  }

  lemma {:induction false} NoneBusy(ws: seq<Worker>, w: nat)
    requires w < |ws| && Busy(ws) == 0
    ensures !IsBusy(ws[w])
  {
    if w < |ws| - 1 {
      NoneBusy(ws[..|ws| - 1], w);
    }
  }

  lemma IdleIsDone(p: Pool)
    requires Inv(p) && p.tasksRunning == 0 && p.tasks == []
    ensures AllDone(p)
  {
    forall w | 0 <= w < |p.workers| ensures !IsBusy(p.workers[w]) {
      NoneBusy(p.workers, w);
    }
    assert p.started + [] == p.started;
  }

  /**
    In any run, when wait() returns (its caller leaves it, at once or after sleeping) every job
    submitted so far has run to its end, those submitted by other jobs included.
   */
  lemma WaitReturnsWhenAllDone(threads: nat, run: seq<Pool>, i: nat, a: Action)
    requires IsRun(threads, run) && i < |run| && a in {CallWait, WakeWaiter} && Possible(run[i], a)
    requires After(run[i], a).waiter.Away?
    ensures AllDone(run[i]) && AllDone(After(run[i], a))
  {
    RunInv(threads, run, i);
    IdleIsDone(run[i]);
  }

  /** In any run, jobs have started in submission order and each that started runs once or is done. */
  lemma StartedInOrder(threads: nat, run: seq<Pool>, i: nat, j: nat)
    requires IsRun(threads, run) && i < |run| && j < |run[i].started|
    ensures j < |run[i].submitted| && run[i].started[j] == run[i].submitted[j]
    ensures j in run[i].done <==> Running(j) !in run[i].workers
    ensures var ws := run[i].workers;
            forall v, w :: 0 <= v < |ws| && 0 <= w < |ws| && ws[v] == Running(j) && ws[w] == Running(j) ==> v == w
  {
    RunInv(threads, run, i);
    assert run[i].submitted[j] == (run[i].started + run[i].tasks)[j];
  }

  // ---------------------------------------------------------------- progress

  /** The steps the pool takes by itself: no new jobs, and nobody wakes without a notification. */
  predicate IsOwn(p: Pool, a: Action) {
    match a
    case Notify(_) => true
    case NotifyNobody => true
    case Return(_) => true
    case Wake(w) => w < |p.workers| && p.workers[w].Woken?
    case WakeWaiter => p.waiter.Notified?
    case _ => false
  }

  ghost predicate Quiet(p: Pool) {
    forall a :: IsOwn(p, a) ==> !Possible(p, a)
  }

  function Measure(p: Pool): nat {
    3 * |p.tasks| + 2 * p.notices + WokenUp(p.workers) + 2 * Busy(p.workers)
    + (if p.waiter.Notified? then 1 else 0)
  }

  /** The pool's own steps come to an end. */
  lemma OwnStepDecreases(p: Pool, a: Action)
    requires Inv(p) && Possible(p, a) && IsOwn(p, a)
    ensures Measure(After(p, a)) < Measure(p)
  {
    match a
    case Notify(w) => CountsAfterUpdate(p.workers, w, Woken);
    case Return(w) =>
      CountsAfterUpdate(p.workers, w, Asleep);
      CountsAfterUpdate(p.workers, w, Running(|p.started|));
    case Wake(w) =>
      CountsAfterUpdate(p.workers, w, Asleep);
      CountsAfterUpdate(p.workers, w, Running(|p.started|));
    case _ =>
  }

  lemma {:induction false} QuietSleeps(ws: seq<Worker>)
    requires forall w :: 0 <= w < |ws| ==> ws[w].Asleep?
    ensures WokenUp(ws) == 0 && Busy(ws) == 0
  {
    if ws != [] {
      QuietSleeps(ws[..|ws| - 1]);
    }
  }

  /**
    No wake-up is lost: when the pool can do nothing by itself any more, all submitted jobs are done
    and no caller of wait() is left asleep.
   */
  lemma QuietIsDone(threads: nat, run: seq<Pool>, i: nat)
    requires threads > 0 && IsRun(threads, run) && i < |run| && Quiet(run[i])
    ensures AllDone(run[i]) && run[i].waiter.Away?
  {
    var p := run[i];
    RunInv(threads, run, i);
    forall w | 0 <= w < |p.workers| ensures p.workers[w].Asleep? {
      assert IsOwn(p, Return(w)) ==> !Possible(p, Return(w));
      assert IsOwn(p, Wake(w)) ==> !Possible(p, Wake(w));
    }
    assert p.workers[0] == Asleep;
    assert !Possible(p, Notify(0)) && !(IsOwn(p, WakeWaiter) && Possible(p, WakeWaiter));
    QuietSleeps(p.workers);
    IdleIsDone(p);
  }

  // ---------------------------------------------------------------- the pool object

  /** The members the mutex guards, where each thread is, and the history of jobs. */
  class ThreadPool {
    var tasks: seq<Job>
    var tasksRunning: int
    var waiting: bool
    var workers: seq<Worker>
    var waiter: Waiter
    var notices: nat
    var submitted: seq<Job>
    var started: seq<Job>
    var done: set<nat>

    constructor (threads: nat)
      ensures View() == Created(threads) && Valid()
    {
      tasks, waiting, waiter, notices := [], false, Away, 0;
      workers := seq(threads, _ => Starting);
      tasksRunning := threads;
      submitted, started, done := [], [], {};
      new;
      CreatedInv(threads);
    }

    ghost predicate Valid()
      reads this
    {
      Inv(View())
    }

    ghost function View(): Pool
      reads this
    {
      Pool(tasks, tasksRunning, waiting, workers, waiter, notices, submitted, started, done)
    }

    /** A worker that sleeps is left with a wake-up for every queued job, the new one included. */
    method DetachTask(t: Job)
      requires Valid()
      modifies this
      ensures Valid() && View() == Pushed(old(View()), t)
    {
      InvAfter(View(), Submit(t));
      tasks := tasks + [t];
      notices := notices + 1;
      submitted := submitted + [t];
    }

    method PopTask() returns (t: Job)
      requires tasks != []
      modifies this`tasks, this`started
      ensures t == old(tasks)[0] && tasks == old(tasks)[1..] && started == old(started) + [t]
    {
      t := tasks[0];
      tasks := tasks[1..];
      started := started + [t];
    }

    /** From the wait of the worker loop to the unlock before the job, or to the worker's sleep. */
    method TakeOrSleep(w: nat)
      requires w < |workers|
      modifies this
      ensures View() == Turn(old(View()), w)
    {
      if tasks == [] {
        workers := workers[w := Asleep];
      } else {
        workers := workers[w := Running(|started|)];
        var t := PopTask();
        tasksRunning := tasksRunning + 1;
      }
    }

    /** The top of the worker loop. */
    method LookForWork(w: nat)
      requires Valid() && w < |workers| && IsBusy(workers[w])
      modifies this
      ensures Valid() && View() == After(old(View()), Return(w))
    {
      InvAfter(View(), Return(w));
      if workers[w].Running? {
        done := done + {workers[w].job};
      }
      tasksRunning := tasksRunning - 1;
      if waiting && tasksRunning == 0 && tasks == [] && waiter.Sleeping? {
        waiter := Notified;
      }
      TakeOrSleep(w);
    }

    /** A sleeping worker gets the mutex back. */
    method WakeUp(w: nat)
      requires Valid() && w < |workers| && (workers[w].Asleep? || workers[w].Woken?)
      modifies this
      ensures Valid() && View() == After(old(View()), Wake(w))
    {
      InvAfter(View(), Wake(w));
      TakeOrSleep(w);
    }

    /** wait(), from the lock or from a wake-up to its return or its sleep: when it returns, all jobs are done. */
    method CheckDone() returns (returned: bool)
      requires Valid()
      modifies this
      ensures Valid() && View() == Checked(old(View()))
      ensures returned <==> tasksRunning == 0 && tasks == []
      ensures returned ==> AllDone(View())
    {
      InvAfter(View(), if waiter.Away? then CallWait else WakeWaiter);
      if tasksRunning == 0 && tasks == [] {
        IdleIsDone(View());
      }
      waiting := true;
      returned := tasksRunning == 0 && tasks == [];
      waiter := if returned then Away else Sleeping;
      if returned {
        waiting := false;
      }
    }
  }
}
