/**
  The life of stored monitors: all of them are started again at boot, batch by batch, and one without
  subscribers is stopped once it has been idle for longer than the purge timeout.
 */
module MonitorLifecycle {
  import opened Types
  import opened MonitorStore
  import opened MonitorHistory

  // ---------------------------------------------------------------- startup

  function StartEvent(r: Row): Event {
    Event(Start, r.pv, r.dest)
  }

  /** The handler of scanForRestart: start the monitor, leave the row alone. */
  function Restart(r: Row, n: nat): Verdict {
    Verdict([StartEvent(r)], Untouched, false)
  }

  function Starts(ps: seq<Row>): seq<Event> {
    seq(|ps|, i requires 0 <= i < |ps| => StartEvent(ps[i]))
  }

  /** The broadcasts have grown by a start of the PV and destination of each row, in order. */
  ghost predicate IsStarted(before: seq<Event>, ps: seq<Row>, after: seq<Event>) {
    && |after| == |before| + |ps| && after[..|before|] == before
    && forall i :: 0 <= i < |ps| ==>
         var e := after[|before| + i];
         e.action == Start && e.pv == ps[i].pv && e.dest == ps[i].dest
  }

  lemma {:induction false} RestartBroadcasts(ps: seq<Row>, n: nat)
    ensures Broadcast(ps, n, Restart) == Starts(ps)
    decreases |ps|
  {
    if ps != [] {
      RestartBroadcasts(ps[1..], n + 1);
      assert Starts(ps) == [StartEvent(ps[0])] + Starts(ps[1..]);
    }
  }

  lemma {:induction false} RestartKeepsConfig(c: set<Setting>, ps: seq<Row>, n: nat)
    ensures ConfigAfter(c, ps, n, Restart) == c
    decreases |ps|
  {
    if ps != [] {
      RestartKeepsConfig(c, ps[1..], n + 1);
    }
  }

  /** The same rows in the same places, some of them newly marked as processed. */
  ghost predicate OnlyMarked(rows: seq<Row>, rows': seq<Row>) {
    |rows'| == |rows| && forall i :: 0 <= i < |rows| ==> rows'[i] in {rows[i], rows[i].(processed := true)}
  }

  lemma {:induction false} RestartMarksOne(rows: seq<Row>, p: Row, n: nat)
    ensures OnlyMarked(rows, VisitedOne(rows, p, Restart(p, n)))
  {
    if rows != [] {
      RestartMarksOne(rows[1..], p, n);
      assert forall i :: 0 < i < |rows| ==> rows[i] == rows[1..][i - 1];
    }
  }

  lemma {:induction false} RestartMarks(rows: seq<Row>, ps: seq<Row>, n: nat)
    ensures OnlyMarked(rows, VisitedAll(rows, ps, n, Restart))
    decreases |ps|
  {
    if ps != [] {
      RestartMarksOne(rows, ps[0], n);
      RestartMarks(VisitedOne(rows, ps[0], Restart(ps[0], n)), ps[1..], n + 1);
    }
  }

  lemma {:induction false} SameNames(rows: seq<Row>, rows': seq<Row>)
    requires |rows'| == |rows| && forall i :: 0 <= i < |rows| ==> rows'[i].pv == rows[i].pv
    ensures Names(rows') == Names(rows)
  {
    if rows != [] {
      SameNames(rows[..|rows| - 1], rows'[..|rows| - 1]);
    }
  }

  lemma PendingGains(r: Row, rows: seq<Row>, name: string)
    ensures Pending([r] + rows, name) == (if r.pv == name && !r.processed then [r] else []) + Pending(rows, name)
  {
    assert ([r] + rows)[1..] == rows;
  }

  lemma MoreInFront(more: seq<Row>, a: seq<Row>, b: seq<Row>)
    ensures multiset((more + a) + b) == multiset(more) + (multiset(a) + multiset(b))
  {
  }

  /** One more row in front is one more row in the backlog, if it is pending and its name is asked for. */
  lemma {:induction false} BacklogGains(r: Row, rows: seq<Row>, names: seq<string>)
    requires Distinct(names)
    ensures multiset(Backlog([r] + rows, names)) ==
            multiset(Backlog(rows, names)) + if !r.processed && r.pv in names then multiset{r} else multiset{}
  {
    if names != [] {
      PendingGains(r, rows, names[0]);
      BacklogGains(r, rows, names[1..]);
      assert r.pv == names[0] ==> r.pv !in names[1..];
      MoreInFront(if r.pv == names[0] && !r.processed then [r] else [], Pending(rows, names[0]), Backlog([r] + rows, names[1..]));
    }
  }

  /** The backlog of unprocessed rows is a permutation of them: every row once. */
  lemma {:induction false} BacklogIsAll(rows: seq<Row>, names: seq<string>)
    requires Distinct(names) && forall i :: 0 <= i < |rows| ==> !rows[i].processed && rows[i].pv in names
    ensures multiset(Backlog(rows, names)) == multiset(rows)
  {
    if rows == [] {
      NoBacklog(names);
    } else {
      BacklogIsAll(rows[1..], names);
      BacklogGains(rows[0], rows[1..], names);
      assert rows == [rows[0]] + rows[1..];
    }
  }

  /** When no row is processed, what startup starts is a permutation of the stored rows. */
  lemma EveryRowOnce(rows: seq<Row>)
    requires forall i :: 0 <= i < |rows| ==> !rows[i].processed
    ensures multiset(Backlog(rows, Names(rows))) == multiset(rows)
    ensures |Backlog(rows, Names(rows))| == |rows|
  {
    NamesAreThose(rows);
    BacklogIsAll(rows, Names(rows));
    assert |Backlog(rows, Names(rows))| == |multiset(rows)|;
  }

  lemma {:induction false} NoBacklog(names: seq<string>)
    ensures Backlog([], names) == []
  {
    if names != [] {
      NoBacklog(names[1..]);
    }
  }

  lemma CeilingIs(n: nat, k: nat, s: nat)
    requires 0 < k && n <= s * k < n + k
    ensures s == (n + k - 1) / k
  {
    var q := (n + k - 1) / k;
    assert q * k <= n + k - 1 < q * k + k;
    if s < q {
      Spread(s, q, k);
    } else if s > q {
      Spread(q, s, k);
    }
  }

  lemma Spread(a: nat, b: nat, k: nat)
    requires a < b
    ensures a * k + k <= b * k
  {
    assert b * k == a * k + k + (b - a - 1) * k;
  }

  /** After s scans with batches of k: nothing short of the batches, and no scan in vain. */
  ghost predicate ScansDone(s: nat, k: nat, started: nat, n: nat) {
    started <= n && if started < n then started == s * k else n <= s * k < n + k
  }

  lemma OneMoreScan(s: nat, k: nat, started: nat, n: nat)
    requires 0 < k && ScansDone(s, k, started, n) && started < n
    ensures ScansDone(s + 1, k, if n - started <= k then n else started + k, n)
  {
    assert (s + 1) * k == s * k + k;
  }

  /** Where startup stands after s scans. */
  ghost predicate Progress(rows0: seq<Row>, rows: seq<Row>, started: seq<Row>, s: nat, k: nat) {
    && OnlyMarked(rows0, rows)
    && Backlog(rows0, Names(rows0)) == started + Backlog(rows, Names(rows))
    && ScansDone(s, k, |started|, |Backlog(rows0, Names(rows0))|)
  }

  lemma ProgressNext(rows0: seq<Row>, rows: seq<Row>, rows': seq<Row>, started: seq<Row>, visited: seq<Row>, s: nat, k: nat)
    requires 0 < k && Progress(rows0, rows, started, s, k) && OnlyMarked(rows, rows')
    requires Backlog(rows, Names(rows)) == visited + Backlog(rows', Names(rows'))
    requires |visited| == if |Backlog(rows, Names(rows))| <= k then |Backlog(rows, Names(rows))| else k
    requires Backlog(rows, Names(rows)) != []
    ensures Progress(rows0, rows', started + visited, s + 1, k)
  {
    OneMoreScan(s, k, |started|, |Backlog(rows0, Names(rows0))|);
    Reassociate(started, visited, Backlog(rows', Names(rows')));
    MarkedTwice(rows0, rows, rows');
  }

  lemma MarkedTwice(rows0: seq<Row>, rows: seq<Row>, rows': seq<Row>)
    requires OnlyMarked(rows0, rows) && OnlyMarked(rows, rows')
    ensures OnlyMarked(rows0, rows')
  {
  }

  lemma StartupEnds(rows0: seq<Row>, rows: seq<Row>, started: seq<Row>, s: nat, k: nat)
    requires 0 < k && Progress(rows0, rows, started, s, k) && Backlog(rows, Names(rows)) == []
    ensures started == Backlog(rows0, Names(rows0)) && s == (|started| + k - 1) / k
  {
    assert started + [] == started;
    CeilingIs(|started|, k, s);
  }

  // ---------------------------------------------------------------- purge

  /** The loop of scanForMonitorToStop over the groups: is any left after filtering? */
  method AnyEffective(groups: seq<Group>) returns (any: bool)
    ensures any <==> HasSubscriber(groups)
    ensures any <==> exists i :: 0 <= i < |groups| && !groups[i].excluded && groups[i].subscribers >= 1
  {
    var filteredOut := 0;
    for i := 0 to |groups|
      invariant 0 <= filteredOut <= i
      invariant filteredOut == i <==> forall j :: 0 <= j < i ==> !Effective(groups[j])
    {
      if groups[i].excluded {
        filteredOut := filteredOut + 1;
      } else if groups[i].subscribers == 0 {
        filteredOut := filteredOut + 1;
      }
    }
    any := |groups| - filteredOut != 0;
  }

  /** The n-th visit of a scan meets what `observe` says. */
  function PurgeHandler(observe: (Row, nat) -> Observation, timeout: int): Handler {
    (r: Row, n: nat) => Purge(r, observe(r, n), timeout)
  }

  // ---------------------------------------------------------------- the worker

  class MonitorChecker {
    const defaultTimeout: int
    const configuration: NodeConfiguration
    var expirationTimeout: int

    constructor (timeout: int, configuration: NodeConfiguration)
      ensures defaultTimeout == expirationTimeout == timeout && this.configuration == configuration
    {
      defaultTimeout, expirationTimeout, this.configuration := timeout, timeout, configuration;
    }

    /** A negative timeout changes nothing: the default is assigned to the parameter. */
    method SetPurgeTimeout(timeout: int)
      modifies this
      ensures expirationTimeout == if timeout < 0 then old(expirationTimeout) else timeout
    {
      var parameter := timeout;
      if parameter < 0 {
        parameter := defaultTimeout;
      } else {
        expirationTimeout := parameter;
      }
    }

    /** storeMonitorData for one description: whether it was stored or not, the start is broadcast. */
    method StoreMonitorData(pv: string, dest: string, ser: nat)
      requires configuration.Valid()
      modifies configuration
      ensures configuration.Valid()
      ensures configuration.rows ==
              RequestedRows(old(configuration.rows), old(configuration.config), old(configuration.nextId), pv, dest, ser)
      ensures configuration.config == old(configuration.config) + {Setting(pv, dest, ser)}
      ensures configuration.broadcast == old(configuration.broadcast) + [Event(Start, pv, dest)]
    {
      var _ := configuration.AddChannelMonitor(pv, dest, ser);
      configuration.Announce(Event(Start, pv, dest));
    }

    method ScanForRestart(k: nat) returns (processed: nat, visited: seq<Row>)
      requires configuration.Valid()
      modifies configuration`config, configuration`rows, configuration`broadcast
      ensures configuration.Valid()
      ensures Names(configuration.rows) == Names(old(configuration.rows))
      ensures var backlog := Backlog(old(configuration.rows), Names(old(configuration.rows)));
              && visited == (if |backlog| <= k then backlog else backlog[..k])
              && backlog == visited + Backlog(configuration.rows, Names(configuration.rows))
      ensures processed == |visited| + Unfinished(configuration.rows, Names(configuration.rows))
      ensures OnlyMarked(old(configuration.rows), configuration.rows) && configuration.config == old(configuration.config)
      ensures configuration.broadcast == old(configuration.broadcast) + Starts(visited)
    {
      ghost var rows0, config0 := configuration.rows, configuration.config;
      processed, visited := configuration.IterateForAction(k, Restart);
      RestartMarks(rows0, visited, 0);
      RestartBroadcasts(visited, 0);
      RestartKeepsConfig(config0, visited, 0);
      SameNames(rows0, configuration.rows);
    }

    method ScanForMonitorToStop(k: nat, observe: (Row, nat) -> Observation) returns (processed: nat, visited: seq<Row>)
      requires configuration.Valid()
      modifies configuration`config, configuration`rows, configuration`broadcast
      ensures configuration.Valid()
      ensures var backlog := Backlog(old(configuration.rows), Names(old(configuration.rows)));
              && visited == (if |backlog| <= k then backlog else backlog[..k])
              && backlog == visited + Backlog(configuration.rows, Names(old(configuration.rows)))
      ensures processed == |visited| + Unfinished(configuration.rows, Names(old(configuration.rows)))
      ensures processed == 0 <==> Backlog(old(configuration.rows), Names(old(configuration.rows))) == []
      ensures var h := PurgeHandler(observe, expirationTimeout);
              && configuration.rows == VisitedAll(old(configuration.rows), visited, 0, h)
              && configuration.config == ConfigAfter(old(configuration.config), visited, 0, h)
              && configuration.broadcast == old(configuration.broadcast) + Broadcast(visited, 0, h)
    {
      ghost var names := Names(configuration.rows);
      processed, visited := configuration.IterateForAction(k, PurgeHandler(observe, expirationTimeout));
      NothingPending(configuration.rows, names);
    }
  }

  const NO_DESTINATION := -1
  const STARTING_UP := -2
  const NO_SERIALIZER := -3

  class MonitorCommandWorker {
    const checker: MonitorChecker
    var startingUp: bool

    constructor (checker: MonitorChecker)
      ensures this.checker == checker && startingUp
    {
      this.checker, startingUp := checker, true;
    }

    /** The startup task: one batch; it completes when the batch was empty. */
    method HandleRestartTask(k: nat) returns (completed: bool, visited: seq<Row>)
      requires 0 < k && checker.configuration.Valid()
      modifies this, checker.configuration`config, checker.configuration`rows, checker.configuration`broadcast
      ensures var c := checker.configuration;
              && c.Valid() && Names(c.rows) == Names(old(c.rows))
              && var backlog := Backlog(old(c.rows), Names(old(c.rows)));
              && visited == (if |backlog| <= k then backlog else backlog[..k])
              && backlog == visited + Backlog(c.rows, Names(c.rows))
              && OnlyMarked(old(c.rows), c.rows)
              && c.broadcast == old(c.broadcast) + Starts(visited)
              && (completed <==> backlog == []) && startingUp == !completed
    {
      var processed;
      processed, visited := checker.ScanForRestart(k);
      NothingPending(checker.configuration.rows, Names(checker.configuration.rows));
      startingUp := processed != 0;
      completed := !startingUp;
    }

    /** A run of the startup task, seen from the whole startup. */
    method StartupScan(k: nat, scans: nat, ghost rows0: seq<Row>, ghost started: seq<Row>) returns (completed: bool, visited: seq<Row>)
      requires 0 < k && checker.configuration.Valid() && Progress(rows0, checker.configuration.rows, started, scans, k)
      modifies this, checker.configuration`config, checker.configuration`rows, checker.configuration`broadcast
      ensures var c := checker.configuration;
              && c.Valid() && c.broadcast == old(c.broadcast) + Starts(visited)
              && Progress(rows0, c.rows, started + visited, if completed then scans else scans + 1, k)
              && (completed ==> Backlog(c.rows, Names(c.rows)) == [])
              && (!completed ==> |Backlog(c.rows, Names(c.rows))| < |Backlog(old(c.rows), Names(old(c.rows)))|)
      ensures startingUp == !completed
    {
      ghost var rows := checker.configuration.rows;
      completed, visited := HandleRestartTask(k);
      if completed {
        assert started + visited == started;
      } else {
        ProgressNext(rows0, rows, checker.configuration.rows, started, visited, scans, k);
      }
    }

    /** The scheduler runs the startup task until it completes. */
    method RunStartupTask(k: nat) returns (scans: nat, ghost started: seq<Row>)
      requires 0 < k && checker.configuration.Valid()
      modifies this, checker.configuration`config, checker.configuration`rows, checker.configuration`broadcast
      ensures !startingUp && checker.configuration.Valid()
      ensures checker.configuration.broadcast == old(checker.configuration.broadcast) + Starts(started)
      ensures 0 < scans && Progress(old(checker.configuration.rows), checker.configuration.rows, started, scans - 1, k)
      ensures Backlog(checker.configuration.rows, Names(checker.configuration.rows)) == []
    {
      ghost var rows0, broadcast0 := checker.configuration.rows, checker.configuration.broadcast;
      started := [];
      scans := 0;
      var completed := false;
      while !completed
        invariant checker.configuration.Valid()
        invariant (completed ==> scans > 0) && Progress(rows0, checker.configuration.rows, started, if completed then scans - 1 else scans, k)
        invariant checker.configuration.broadcast == broadcast0 + Starts(started)
        invariant completed ==> !startingUp && Backlog(checker.configuration.rows, Names(checker.configuration.rows)) == []
        decreases |Backlog(checker.configuration.rows, Names(checker.configuration.rows))|, !completed
      {
        var visited;
        completed, visited := StartupScan(k, scans, rows0, started);
        StartsConcat(broadcast0, started, visited);
        started := started + visited;
        scans := scans + 1;
      }
    }

    /**
      Startup. With n rows to start and batches of k that takes ceil(n / k) + 1 scans, and the rows of
      the backlog are started in order, each once.
     */
    method Startup(k: nat) returns (scans: nat)
      requires 0 < k && checker.configuration.Valid()
      modifies this, checker.configuration`config, checker.configuration`rows, checker.configuration`broadcast
      ensures !startingUp
      ensures var c := checker.configuration;
              var backlog := Backlog(old(c.rows), Names(old(c.rows)));
              && c.Valid() && OnlyMarked(old(c.rows), c.rows)
              && Backlog(c.rows, Names(c.rows)) == []
              && c.broadcast == old(c.broadcast) + Starts(backlog)
              && scans == (|backlog| + k - 1) / k + 1
      ensures var backlog := Backlog(old(checker.configuration.rows), Names(old(checker.configuration.rows)));
              IsStarted(old(checker.configuration.broadcast), backlog, checker.configuration.broadcast)
    {
      ghost var rows0, started := checker.configuration.rows, [];
      scans, started := RunStartupTask(k);
      StartupEnds(rows0, checker.configuration.rows, started, scans - 1, k);
    }

    /**
      processCommand for a single monitor. A command is refused, and changes nothing, while the worker
      starts up, without a serializer, and without a destination; otherwise the request reaches the
      store and the monitor is started, also when the store keeps nothing of it.
     */
    method ProcessMonitor(pv: string, dest: string, ser: nat, serializable: bool) returns (reply: int)
      requires checker.configuration.Valid()
      modifies checker.configuration
      ensures var c := checker.configuration;
              if startingUp || !serializable || dest == "" then
                && reply == (if startingUp then STARTING_UP else if !serializable then NO_SERIALIZER else NO_DESTINATION)
                && c.rows == old(c.rows) && c.config == old(c.config) && c.broadcast == old(c.broadcast)
              else
                && reply == 0 && c.Valid()
                && c.config == old(c.config) + {Setting(pv, dest, ser)}
                && c.rows == RequestedRows(old(c.rows), old(c.config), old(c.nextId), pv, dest, ser)
                && c.broadcast == old(c.broadcast) + [Event(Start, pv, dest)]
    {
      if startingUp {
        return STARTING_UP;
      }
      if !serializable {
        return NO_SERIALIZER;
      }
      if dest == "" {
        return NO_DESTINATION;
      }
      checker.StoreMonitorData(pv, dest, ser);
      return 0;
    }
  }

  lemma StartsConcat(before: seq<Event>, a: seq<Row>, b: seq<Row>)
    ensures (before + Starts(a)) + Starts(b) == before + Starts(a + b)
  {
    assert Starts(a + b) == Starts(a) + Starts(b);
  }
}
