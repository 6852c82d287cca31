/**
  From the monitor callback to the queue: the events a client of a timed snapshot receives, in an
  exact queue, are the first of the events that were pushed.
 */
module SnapshotDelivery {
  import opened Types
  import opened SnapshotProtocol
  import opened SnapshotInvariant
  import opened SnapshotOrder
  import opened SnapshotSerial
  import opened SnapshotEngine
  import opened SnapshotTheorems
  import TimeWindowBuffer
  import BackTimedBuffer
  import History = BackTimedHistory

  /** The events of the data messages, in queue order. */
  function Published(log: seq<Message>): seq<MonitorEvent> {
    if log == [] then []
    else Published(log[..|log| - 1]) + if log[|log| - 1].DataMsg? then [log[|log| - 1].event] else []
  }

  lemma {:induction false} PublishedConcat(a: seq<Message>, b: seq<Message>)
    ensures Published(a + b) == Published(a) + Published(b)
  {
    if b == [] {
      assert a + b == a;
    } else {
      assert (a + b)[..|a + b| - 1] == a + b[..|b| - 1];
      PublishedConcat(a, b[..|b| - 1]);
    }
  }

  lemma {:induction false} PublishedBare(log: seq<Message>)
    ensures Published(BareLog(log)) == Published(log)
  {
    if log != [] {
      assert BareLog(log)[..|log| - 1] == BareLog(log[..|log| - 1]);
      PublishedBare(log[..|log| - 1]);
    }
  }

  lemma {:induction false} PublishedSection(k: nat, events: seq<MonitorEvent>)
    ensures Published(DataSection(k, events)) == events
  {
    if events != [] {
      var n := |events| - 1;
      assert DataSection(k, events)[..n] == DataSection(k, events[..n]);
      PublishedSection(k, events[..n]);
      assert events == events[..n] + [events[n]];
    }
  }

  lemma {:induction false} PublishedIdeal(batches: seq<seq<MonitorEvent>>)
    ensures Published(Ideal(batches)) == History.Flat(batches)
  {
    if batches != [] {
      var k := |batches|;
      var before := Ideal(batches[..k - 1]) + [HeaderMsg(k)];
      PublishedIdeal(batches[..k - 1]);
      PublishedConcat(Ideal(batches[..k - 1]), [HeaderMsg(k)]);
      PublishedConcat(before, DataSection(k, batches[k - 1]));
      PublishedSection(k, batches[k - 1]);
      PublishedConcat(before + DataSection(k, batches[k - 1]), [TailMsg(k)]);
      assert [HeaderMsg(k)][..0] == [] && [TailMsg(k)][..0] == [];
    }
  }

  lemma PublishedPrefix(a: seq<Message>, b: seq<Message>)
    requires a <= b
    ensures Published(a) <= Published(b)
  {
    assert b == a + b[|a|..];
    PublishedConcat(a, b[|a|..]);
  }

  /** The events of the submissions, one submission after the other. */
  function Submitted(ts: seq<Task>): seq<seq<MonitorEvent>> {
    seq(|ts|, j requires 0 <= j < |ts| => ts[j].sub.events)
  }

  lemma {:induction false} BatchesAreSubmitted(ts: seq<Task>)
    requires Bracketed(ts)
    ensures History.Flat(Batches(ts)) == History.Flat(Submitted(ts))
  {
    if ts != [] {
      var n := |ts| - 1;
      BracketedPrefix(ts);
      BatchesAreSubmitted(ts[..n]);
      OneMoreSubmitted(ts);
      OneMoreBatch(Batches(ts[..n]), ts[n].sub.events);
    }
  }

  lemma OneMoreSubmitted(ts: seq<Task>)
    requires ts != []
    ensures Submitted(ts)[..|ts| - 1] == Submitted(ts[..|ts| - 1])
    ensures History.Flat(Submitted(ts)) == History.Flat(Submitted(ts[..|ts| - 1])) + ts[|ts| - 1].sub.events
  {
    assert Submitted(ts)[..|ts| - 1] == Submitted(ts[..|ts| - 1]);
  }

  lemma OneMoreBatch(b: seq<seq<MonitorEvent>>, events: seq<MonitorEvent>)
    ensures History.Flat(b + [events]) == History.Flat(b) + events
    ensures b != [] ==> History.Flat(b[..|b| - 1] + [b[|b| - 1] + events]) == History.Flat(b) + events
  {
    assert (b + [events])[..|b|] == b;
    if b != [] {
      assert (b[..|b| - 1] + [b[|b| - 1] + events])[..|b| - 1] == b[..|b| - 1];
    }
  }

  lemma {:induction false} FlatPrefix(a: seq<seq<MonitorEvent>>, b: seq<seq<MonitorEvent>>)
    requires a <= b
    ensures History.Flat(a) <= History.Flat(b)
  {
    if a == b {
    } else {
      FlatPrefix(a, b[..|b| - 1]);
    }
  }

  lemma ExactPublishes(s: System, i: nat)
    requires SysInv(s) && i < |s.ops| && InSeries(s.ops[i], |s.workers|)
    ensures Published(s.ops[i].log) <= History.Flat(Submitted(s.ops[i].tasks))
    ensures s.ops[i].promises == 1 ==> Published(s.ops[i].log) == History.Flat(Submitted(s.ops[i].tasks))
  {
    var o := s.ops[i];
    assert FullInv(o) && Inv(o) && SchedulerInv(o) && ExactOp(o, |s.workers|);
    SerialIsExact(o);
    PublishedBare(o.log);
    PublishedPrefix(BareLog(o.log), Ideal(Batches(o.tasks)));
    PublishedIdeal(Batches(o.tasks));
    BatchesAreSubmitted(o.tasks);
    if o.promises == 1 {
      PromisedIsWhole(o);
    }
  }

  /** An exact queue publishes the first events of its submissions, and all of them once the stop is answered. */
  lemma ExactDelivery(n: nat, run: seq<System>, t: nat, i: nat)
    requires IsRun(n, run) && t < |run| && i < |run[t].ops| && InSeries(run[t].ops[i], n)
    ensures Published(run[t].ops[i].log) <= History.Flat(Submitted(run[t].ops[i].tasks))
    ensures run[t].ops[i].promises == 1 ==> Published(run[t].ops[i].log) == History.Flat(Submitted(run[t].ops[i].tasks))
  {
    RunInv(n, run, t);
    ExactPublishes(run[t], i);
  }

  // ---------------------------------------------------------------- what passes collect

  /** All the events collected so far, submission by submission. */
  function Taken(o: Op): seq<seq<MonitorEvent>> {
    Submitted(o.tasks) + if o.waiting.Some? then [o.waiting.value.events] else []
  }

  /**
    A pass, over an operation of any kind that runs or has been stopped, collects one submission more:
    the events it was given, with all parts for a NORMAL operation.
   */
  lemma PassCollects(o: Op, windowExpired: bool, events: seq<MonitorEvent>)
    requires o.listed && o.waiting.None?
    ensures var o' := Collected(o, windowExpired, events);
            && Taken(o') == Taken(o) + [events]
            && o'.waiting.value.last == !o.running
            && o'.waiting.value.parts ==
               if o.kind.Normal? then Parts(true, true, true)
               else Parts(!o.headerSent, events != [], windowExpired || !o.running)
  {
  }

  /** The run takes those actions, one a step. */
  ghost predicate Takes(run: seq<System>, actions: seq<Action>) {
    && |run| == |actions| + 1
    && forall t :: 0 <= t < |actions| ==> TakesStep(run[t], actions[t], run[t + 1])
  }

  ghost predicate TakesStep(s: System, a: Action, s': System) {
    WellFormed(s) && Possible(s, a) && s' == After(s, a)
  }

  lemma {:induction false} ActionsExist(n: nat, run: seq<System>) returns (actions: seq<Action>)
    requires IsRun(n, run)
    ensures Takes(run, actions)
  {
    if |run| == 1 {
      actions := [];
    } else {
      var before := run[..|run| - 1];
      forall i | 0 <= i < |before| - 1 ensures Next(before[i], before[i + 1]) {
        assert Next(run[i], run[i + 1]);
      }
      actions := ActionsExist(n, before);
      assert Next(run[|before| - 1], run[|before| - 1 + 1]);
      var a :| Possible(run[|before| - 1], a) && run[|before|] == After(run[|before| - 1], a);
      actions := actions + [a];
      forall t | 0 <= t < |actions| ensures TakesStep(run[t], actions[t], run[t + 1]) {
        assert t < |actions| - 1 ==> TakesStep(before[t], actions[t], before[t + 1]);
      }
    }
  }

  /** The events of the passes over operation i, one list a pass. */
  function PassesOver(actions: seq<Action>, i: nat): seq<seq<MonitorEvent>> {
    if actions == [] then []
    else PassesOver(actions[..|actions| - 1], i) + OnePass(actions[|actions| - 1], i)
  }

  function OnePass(a: Action, i: nat): seq<seq<MonitorEvent>> {
    if a.Collect? && a.op == i then [a.events] else []
  }

  /** What operation i has collected, and nothing before it is started. */
  function TakenBy(s: System, i: nat): seq<seq<MonitorEvent>> {
    if i < |s.ops| then Taken(s.ops[i]) else []
  }

  lemma TakenStep(s: System, a: Action, i: nat)
    requires WellFormed(s) && SchedulerHolds(s) && Possible(s, a)
    ensures TakenBy(After(s, a), i) == TakenBy(s, i) + OnePass(a, i)
  {
    if i < |s.ops| {
      var o, o' := s.ops[i], After(s, a).ops[i];
      if a.Collect? && a.op == i {
        PassCollects(o, a.windowExpired, a.events);
      } else if a.Admit? && s.scheduler == Some(i) {
        assert Submitted(o'.tasks) == Taken(o);
      } else if a.Work? {
        WorkTakes(s, a.worker, i);
      } else {
        assert o'.tasks == o.tasks && o'.waiting == o.waiting;
      }
    }
  }

  lemma WorkTakes(s: System, w: nat, i: nat)
    requires WellFormed(s) && Possible(s, Work(w)) && i < |s.ops|
    ensures Taken(After(s, Work(w)).ops[i]) == Taken(s.ops[i])
  {
    var o, o' := s.ops[i], After(s, Work(w)).ops[i];
    var r := s.order[s.workers[w].value];
    assert r.op != i ==> o'.tasks == o.tasks;
    assert Submitted(o'.tasks) == Submitted(o.tasks);
  }

  lemma TakenNext(n: nat, run: seq<System>, actions: seq<Action>, t: nat, i: nat)
    requires IsRun(n, run) && Takes(run, actions) && t < |actions|
    ensures TakenBy(run[t + 1], i) == TakenBy(run[t], i) + OnePass(actions[t], i)
  {
    RunInv(n, run, t);
    assert TakesStep(run[t], actions[t], run[t + 1]);
    TakenStep(run[t], actions[t], i);
  }

  /**
    In any run the submissions of an operation are what the passes over it have collected: every pass
    gives one, with its events, and nothing is added, lost or reordered on the way to the pool.
   */
  lemma {:induction false} SubmissionsArePasses(n: nat, run: seq<System>, actions: seq<Action>, t: nat, i: nat)
    requires IsRun(n, run) && Takes(run, actions) && t <= |actions|
    ensures TakenBy(run[t], i) == PassesOver(actions[..t], i)
  {
    if t > 0 {
      SubmissionsArePasses(n, run, actions, t - 1, i);
      TakenNext(n, run, actions, t - 1, i);
      assert actions[..t][..t - 1] == actions[..t - 1];
    }
  }

  /** What is in the pool is the first of what was collected, and all of it once the promise is set. */
  lemma SubmittedIsTaken(o: Op)
    requires SchedulerInv(o) && PromiseInv(o)
    ensures Submitted(o.tasks) <= Taken(o) && (o.promises == 1 ==> Submitted(o.tasks) == Taken(o))
  {
    if o.waiting.Some? {
      WaitingIsOpen(o);
    }
  }

  /** So an exact queue publishes the first events of its passes, and all of them once the stop is answered. */
  lemma PassesDelivered(n: nat, run: seq<System>, actions: seq<Action>, t: nat, i: nat)
    requires IsRun(n, run) && Takes(run, actions) && t <= |actions| && i < |run[t].ops| && InSeries(run[t].ops[i], n)
    ensures var log, passes := run[t].ops[i].log, PassesOver(actions[..t], i);
            && Published(log) <= History.Flat(passes)
            && (run[t].ops[i].promises == 1 ==> Published(log) == History.Flat(passes))
  {
    SubmissionsArePasses(n, run, actions, t, i);
    ExactDelivery(n, run, t, i);
    PoolGetsPasses(n, run, t, i);
    FlatPrefix(Submitted(run[t].ops[i].tasks), PassesOver(actions[..t], i));
  }

  lemma PoolGetsPasses(n: nat, run: seq<System>, t: nat, i: nat)
    requires IsRun(n, run) && t < |run| && i < |run[t].ops|
    ensures var o := run[t].ops[i]; Submitted(o.tasks) <= Taken(o) && (o.promises == 1 ==> Submitted(o.tasks) == Taken(o))
  {
    RunInv(n, run, t);
    assert FullInv(run[t].ops[i]) && Inv(run[t].ops[i]);
    SubmittedIsTaken(run[t].ops[i]);
  }

  // ---------------------------------------------------------------- the engine together with the buffers of one operation

  /**
    A step of the buffers of operation i alone, a step of the engine alone, or both: a stop, or a pass
    that ends a window and collects what its getData hands over.
   */
  datatype Move = Buffer(act: History.Act) | Engine(action: Action) | Both(action: Action, act: History.Act)

  predicate IsOfBoth(a: Action, i: nat) {
    (a.Stop? && a.op == i) || (a.Collect? && a.op == i)
  }

  /** The pass at that time, as the engine sees it. */
  function PassOf(h: History.History, i: nat, now: int): Action {
    var v := BackTimedBuffer.Polled(h.v, now);
    Collect(i, v.windowExpired, TimeWindowBuffer.Events(v.processing))
  }

  ghost predicate Allowed(s: System, h: History.History, i: nat, m: Move) {
    match m
    case Buffer(act) =>
      History.Possible(h, act) && !act.Stop? && (act.Poll? ==> !BackTimedBuffer.Expires(h.v, act.now))
    case Engine(a) => WellFormed(s) && Possible(s, a) && !IsOfBoth(a, i)
    case Both(a, act) =>
      && WellFormed(s) && Possible(s, a) && History.Possible(h, act)
      && ((a == Stop(i) && act.Stop?) || (act.Poll? && BackTimedBuffer.Expires(h.v, act.now) && a == PassOf(h, i, act.now)))
  }

  function EngineAfter(s: System, m: Move): System
    requires !m.Buffer? ==> WellFormed(s) && Possible(s, m.action)
  {
    if m.Buffer? then s else After(s, m.action)
  }

  function HistoryAfter(h: History.History, m: Move): History.History {
    if m.Engine? then h else History.Play(h, m.act)
  }

  /** The engine and the history of operation i go through the moves side by side. */
  ghost predicate SideBySide(s: System, h: History.History, i: nat, moves: seq<Move>, s': System, h': History.History)
    decreases |moves|
  {
    if moves == [] then s' == s && h' == h
    else
      && Allowed(s, h, i, moves[0])
      && SideBySide(EngineAfter(s, moves[0]), HistoryAfter(h, moves[0]), i, moves[1..], s', h')
  }

  /** What the buffers have seen of the moves. */
  function ActsOf(moves: seq<Move>): seq<History.Act> {
    if moves == [] then []
    else (if moves[0].Engine? then [] else [moves[0].act]) + ActsOf(moves[1..])
  }

  lemma {:induction false} ActsPlay(s: System, h: History.History, i: nat, moves: seq<Move>, s': System, h': History.History)
    requires SideBySide(s, h, i, moves, s', h')
    ensures History.Plays(h, ActsOf(moves), h')
    decreases |moves|
  {
    if moves != [] {
      ActsPlay(EngineAfter(s, moves[0]), HistoryAfter(h, moves[0]), i, moves[1..], s', h');
      if moves[0].Engine? {
        assert ActsOf(moves) == ActsOf(moves[1..]);
      } else {
        assert ActsOf(moves)[0] == moves[0].act && ActsOf(moves)[1..] == ActsOf(moves[1..]);
      }
    }
  }

  /** The operation has collected the batches of its buffers, and both agree on what decides the parts of the next. */
  ghost predicate InStep(s: System, h: History.History, i: nat) {
    && i < |s.ops| && s.ops[i].kind.TimedBuffered?
    && s.ops[i].headerSent == h.v.headerSent && s.ops[i].running == h.v.running
    && Taken(s.ops[i]) == h.batches
  }

  lemma EngineKeeps(s: System, h: History.History, i: nat, a: Action)
    requires WellFormed(s) && SchedulerHolds(s) && InStep(s, h, i) && Possible(s, a) && !IsOfBoth(a, i)
    ensures InStep(After(s, a), h, i)
  {
    TakenStep(s, a, i);
  }

  /** A pass collects the batch the buffers deliver, with the parts that getData reports. */
  lemma PassKeeps(s: System, h: History.History, i: nat, now: int, at: int)
    requires WellFormed(s) && SchedulerHolds(s) && InStep(s, h, i)
    requires BackTimedBuffer.Expires(h.v, now) && Possible(s, PassOf(h, i, now))
    ensures InStep(After(s, PassOf(h, i, now)), History.Play(h, History.Poll(now, at)), i)
    ensures After(s, PassOf(h, i, now)).ops[i].waiting.value.parts == BackTimedBuffer.FetchedParts(BackTimedBuffer.Polled(h.v, now))
  {
    var v := BackTimedBuffer.Polled(h.v, now);
    assert TimeWindowBuffer.Events(v.processing) == [] <==> v.processing == [];
  }

  lemma MoveKeepsStep(s: System, h: History.History, i: nat, m: Move)
    requires WellFormed(s) && SchedulerHolds(s) && InStep(s, h, i) && Allowed(s, h, i, m)
    ensures InStep(EngineAfter(s, m), HistoryAfter(h, m), i)
  {
    match m
    case Buffer(_) =>
    case Engine(a) => EngineKeeps(s, h, i, a);
    case Both(a, act) => if act.Poll? { PassKeeps(s, h, i, act.now, act.at); }
  }

  lemma MoveKeeps(s: System, h: History.History, i: nat, m: Move)
    requires SysInv(s) && InStep(s, h, i) && Allowed(s, h, i, m)
    ensures SysInv(EngineAfter(s, m)) && |EngineAfter(s, m).workers| == |s.workers|
    ensures InStep(EngineAfter(s, m), HistoryAfter(h, m), i)
  {
    MoveKeepsStep(s, h, i, m);
    if !m.Buffer? {
      SysAfter(s, m.action);
      WorkersKept(s, m.action);
    }
  }

  lemma {:induction false} StaysInStep(s: System, h: History.History, i: nat, moves: seq<Move>, s': System, h': History.History)
    requires SysInv(s) && InStep(s, h, i) && SideBySide(s, h, i, moves, s', h')
    ensures SysInv(s') && |s'.workers| == |s.workers| && InStep(s', h', i)
    decreases |moves|
  {
    if moves != [] {
      MoveKeeps(s, h, i, moves[0]);
      StaysInStep(EngineAfter(s, moves[0]), HistoryAfter(h, moves[0]), i, moves[1..], s', h');
    }
  }

  /** A timed operation that has just been started. */
  predicate IsNew(o: Op) {
    o.kind.TimedBuffered? && o.tasks == [] && o.waiting.None? && o.running && !o.headerSent
  }

  /**
    A timed snapshot polled often enough, with one worker, from its start in any run of the engine: the
    data messages in its queue are the first of all events pushed into its buffers. Nothing is lost,
    repeated or reordered on the way. Once the stop is answered they are all that was collected.
   */
  lemma TimedDelivery(run: seq<System>, i: nat, windowMs: int, subPushMs: int, pvs: set<string>, t0: int,
                      moves: seq<Move>, s: System, h: History.History, gap: int)
    requires IsRun(1, run) && i < |run[|run| - 1].ops| && IsNew(run[|run| - 1].ops[i])
    requires SideBySide(run[|run| - 1], History.Created(false, windowMs, subPushMs, pvs, t0), i, moves, s, h)
    requires windowMs > 0
    requires BackTimedBuffer.FastExpire(windowMs, subPushMs) * BackTimedBuffer.NS_PER_MS + gap <= windowMs * BackTimedBuffer.NS_PER_MS
    requires History.Frequent(History.Created(false, windowMs, subPushMs, pvs, t0), ActsOf(moves), gap)
    ensures i < |s.ops| && Published(s.ops[i].log) <= TimeWindowBuffer.Events(h.pushed)
    ensures s.ops[i].promises == 1 ==> Published(s.ops[i].log) == History.Flat(h.batches)
  {
    var h0 := History.Created(false, windowMs, subPushMs, pvs, t0);
    RunInv(1, run, |run| - 1);
    StartsInStep(run[|run| - 1], h0, i);
    StaysInStep(run[|run| - 1], h0, i, moves, s, h);
    ActsPlay(run[|run| - 1], h0, i, moves, s, h);
    History.LosslessWhenFrequent(windowMs, subPushMs, pvs, t0, ActsOf(moves), h, gap);
    DeliveredSoFar(s, h, i);
  }

  lemma StartsInStep(s: System, h: History.History, i: nat)
    requires i < |s.ops| && IsNew(s.ops[i]) && h.batches == [] && !h.v.headerSent && h.v.running
    ensures InStep(s, h, i)
  {
    assert Submitted([]) == [];
  }

  lemma DeliveredSoFar(s: System, h: History.History, i: nat)
    requires SysInv(s) && |s.workers| == 1 && InStep(s, h, i)
    requires History.Accounted(h) == TimeWindowBuffer.Events(h.pushed)
    ensures Published(s.ops[i].log) <= TimeWindowBuffer.Events(h.pushed)
    ensures s.ops[i].promises == 1 ==> Published(s.ops[i].log) == History.Flat(h.batches)
  {
    assert OpsInv(s) && FullInv(s.ops[i]) && Inv(s.ops[i]);
    ExactPublishes(s, i);
    SubmittedIsTaken(s.ops[i]);
    FlatPrefix(Submitted(s.ops[i].tasks), h.batches);
  }
}
