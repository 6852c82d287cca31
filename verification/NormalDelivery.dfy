/**
  From the monitor callback to the queue of a NORMAL snapshot: every iteration publishes, between its
  header and its tail, the latest event of each PV at the time of its pass.
 */
module NormalDelivery {
  import opened Types
  import opened SnapshotProtocol
  import opened SnapshotInvariant
  import opened SnapshotOrder
  import opened SnapshotSerial
  import opened SnapshotEngine
  import opened SnapshotTheorems
  import opened SnapshotDelivery
  import RepeatingSnapshot

  /**
    The cells of operation i, and their history: the events accepted since init, what each pass got
    out of them, and how many events had been accepted by then.
   */
  datatype Cells = Cells(pvs: set<string>, accepted: seq<MonitorEvent>, reports: seq<seq<MonitorEvent>>, at: seq<nat>)

  /** An event arrives, a pass collects what getData hands over, or the engine takes another step. */
  datatype CellMove = Arrives(e: MonitorEvent) | Passes(action: Action) | Otherwise(action: Action)

  predicate IsPass(a: Action, i: nat) {
    a.Collect? && a.op == i
  }

  ghost predicate CellAllowed(s: System, c: Cells, i: nat, m: CellMove) {
    match m
    case Arrives(_) => true
    case Passes(a) =>
      WellFormed(s) && Possible(s, a) && IsPass(a, i) && RepeatingSnapshot.IsReport(c.accepted, c.pvs, a.events)
    case Otherwise(a) => WellFormed(s) && Possible(s, a) && !IsPass(a, i)
  }

  function SystemAfter(s: System, m: CellMove): System
    requires !m.Arrives? ==> WellFormed(s) && Possible(s, m.action)
  {
    if m.Arrives? then s else After(s, m.action)
  }

  function CellsAfter(c: Cells, m: CellMove): Cells
    requires m.Passes? ==> m.action.Collect?
  {
    match m
    case Arrives(e) => if e.pv in c.pvs then c.(accepted := c.accepted + [e]) else c
    case Passes(a) => c.(reports := c.reports + [a.events], at := c.at + [|c.accepted|])
    case Otherwise(_) => c
  }

  ghost predicate Together(s: System, c: Cells, i: nat, moves: seq<CellMove>, s': System, c': Cells)
    decreases |moves|
  {
    if moves == [] then s' == s && c' == c
    else CellAllowed(s, c, i, moves[0]) && Together(SystemAfter(s, moves[0]), CellsAfter(c, moves[0]), i, moves[1..], s', c')
  }

  /** Every report has the latest events of its time, in terms of all that was accepted. */
  ghost predicate ReportsHold(c: Cells) {
    && |c.at| == |c.reports|
    && forall k :: 0 <= k < |c.at| ==>
         c.at[k] <= |c.accepted| && RepeatingSnapshot.IsReport(c.accepted[..c.at[k]], c.pvs, c.reports[k])
  }

  lemma ReportsKept(s: System, c: Cells, i: nat, m: CellMove)
    requires ReportsHold(c) && CellAllowed(s, c, i, m)
    ensures ReportsHold(CellsAfter(c, m)) && CellsAfter(c, m).pvs == c.pvs
  {
    var c' := CellsAfter(c, m);
    forall k | 0 <= k < |c'.at|
      ensures c'.at[k] <= |c'.accepted| && RepeatingSnapshot.IsReport(c'.accepted[..c'.at[k]], c'.pvs, c'.reports[k])
    {
      if k < |c.at| {
        assert c'.accepted[..c.at[k]] == c.accepted[..c.at[k]];
      } else {
        assert c'.accepted[..|c.accepted|] == c.accepted;
      }
    }
  }

  ghost predicate CellInv(s: System, c: Cells, i: nat) {
    SysInv(s) && i < |s.ops| && s.ops[i].kind.Normal? && Taken(s.ops[i]) == c.reports && ReportsHold(c)
  }

  lemma KindKept(s: System, a: Action, i: nat)
    requires WellFormed(s) && Possible(s, a) && i < |s.ops|
    ensures i < |After(s, a).ops| && After(s, a).ops[i].kind == s.ops[i].kind
  {
  }

  lemma CellStep(s: System, c: Cells, i: nat, m: CellMove)
    requires CellInv(s, c, i) && CellAllowed(s, c, i, m)
    ensures CellInv(SystemAfter(s, m), CellsAfter(c, m), i) && CellsAfter(c, m).pvs == c.pvs
    ensures |SystemAfter(s, m).workers| == |s.workers|
  {
    ReportsKept(s, c, i, m);
    CellsMatch(s, c, i, m);
    if !m.Arrives? {
      SysAfter(s, m.action);
      WorkersKept(s, m.action);
    }
  }

  /** The reports are what the passes collect. */
  lemma CellsMatch(s: System, c: Cells, i: nat, m: CellMove)
    requires CellAllowed(s, c, i, m) && SchedulerHolds(s) && i < |s.ops| && Taken(s.ops[i]) == c.reports
    ensures var s' := SystemAfter(s, m);
            i < |s'.ops| && s'.ops[i].kind == s.ops[i].kind && Taken(s'.ops[i]) == CellsAfter(c, m).reports
  {
    if !m.Arrives? {
      KindKept(s, m.action, i);
      TakenStep(s, m.action, i);
    }
  }

  lemma {:induction false} CellsKept(s: System, c: Cells, i: nat, moves: seq<CellMove>, s': System, c': Cells)
    requires CellInv(s, c, i) && Together(s, c, i, moves, s', c')
    ensures CellInv(s', c', i) && c'.pvs == c.pvs && |s'.workers| == |s.workers|
    decreases |moves|
  {
    if moves != [] {
      CellStep(s, c, i, moves[0]);
      CellsKept(SystemAfter(s, moves[0]), CellsAfter(c, moves[0]), i, moves[1..], s', c');
    }
  }

  /** Every submission of a NORMAL operation is an iteration of its own. */
  lemma {:induction false} WholeBatches(ts: seq<Task>)
    requires forall j :: 0 <= j < |ts| ==> ts[j].sub.parts.header
    ensures Batches(ts) == Submitted(ts)
  {
    if ts != [] {
      WholeBatches(ts[..|ts| - 1]);
      OneMoreSubmitted(ts);
      assert Submitted(ts) == Submitted(ts)[..|ts| - 1] + [ts[|ts| - 1].sub.events];
    }
  }

  lemma {:induction false} IdealPrefix(a: seq<seq<MonitorEvent>>, b: seq<seq<MonitorEvent>>)
    requires a <= b
    ensures Ideal(a) <= Ideal(b)
  {
    if a != b {
      IdealPrefix(a, b[..|b| - 1]);
    }
  }

  lemma QueueOfReports(s: System, c: Cells, i: nat)
    requires CellInv(s, c, i) && InSeries(s.ops[i], |s.workers|)
    ensures BareLog(s.ops[i].log) <= Ideal(c.reports)
    ensures s.ops[i].promises == 1 ==> BareLog(s.ops[i].log) == Ideal(c.reports)
  {
    var o := s.ops[i];
    assert OpsInv(s) && FullInv(o) && Inv(o) && SchedulerInv(o) && ExactOp(o, |s.workers|);
    SerialIsExact(o);
    WholeBatches(o.tasks);
    SubmittedIsTaken(o);
    IdealPrefix(Submitted(o.tasks), c.reports);
    if o.promises == 1 {
      PromisedIsWhole(o);
    }
  }

  /**
    A NORMAL snapshot, from its start in any run of the engine, whatever events arrive and when: its
    queue is header(1) report(1) tail(1) header(2) ... cut off somewhere, and whole once the stop is
    answered, where report k has, for each PV with an event by the time of pass k, the latest one, and
    nothing else. This needs one worker, or that no earlier run of the name disturbs it.
   */
  lemma LatestDelivered(n: nat, run: seq<System>, i: nat, pvs: set<string>, moves: seq<CellMove>, s: System, c: Cells)
    requires IsRun(n, run) && i < |run[|run| - 1].ops|
    requires var o := run[|run| - 1].ops[i]; o.kind.Normal? && o.tasks == [] && o.waiting.None?
    requires Together(run[|run| - 1], Cells(pvs, [], [], []), i, moves, s, c)
    ensures i < |s.ops| && ReportsHold(c) && c.pvs == pvs
    ensures InSeries(s.ops[i], n) ==> BareLog(s.ops[i].log) <= Ideal(c.reports)
    ensures InSeries(s.ops[i], n) && s.ops[i].promises == 1 ==> BareLog(s.ops[i].log) == Ideal(c.reports)
  {
    RunInv(n, run, |run| - 1);
    assert Taken(run[|run| - 1].ops[i]) == [];
    CellsKept(run[|run| - 1], Cells(pvs, [], [], []), i, moves, s, c);
    if InSeries(s.ops[i], n) {
      QueueOfReports(s, c, i);
    }
  }
}
