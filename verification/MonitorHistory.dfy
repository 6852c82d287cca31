/**
  What becomes of a monitor over time: it is requested, and the purge scan visits it. A visit reads the
  row, decides about the row it has read, and then stamps and marks by row id. Commands run on another
  pool, so requests fall between these sections too.
 */
module MonitorHistory {
  import opened Types
  import opened MonitorStore

  // ---------------------------------------------------------------- the decision

  /** A consumer group of the destination queue: is its name filtered out, and how many subscribers has it? */
  datatype Group = Group(excluded: bool, subscribers: nat)

  /**
    What a visit of the purge scan meets: the queue's groups unless the request throws, the clock at
    the timeout test and at the stamping, and whether removing the monitor throws.
   */
  datatype Observation = Observation(groups: Option<seq<Group>>, now: nat, stampNow: nat, removalFails: bool)

  predicate Effective(g: Group) {
    !g.excluded && g.subscribers > 0
  }

  predicate HasSubscriber(groups: seq<Group>) {
    exists i :: 0 <= i < |groups| && Effective(groups[i])
  }

  predicate Expired(startPurge: int, now: nat, timeout: int) {
    startPurge != NO_PURGE && now - startPurge > timeout
  }

  /** The handler of scanForMonitorToStop. */
  function Purge(r: Row, o: Observation, timeout: int): Verdict {
    if o.groups.None? then Verdict([], Untouched, false)
    else if HasSubscriber(o.groups.value) then Verdict([], Reset, false)
    else if r.startPurge == NO_PURGE then Verdict([], Set(o.stampNow), false)
    else if Expired(r.startPurge, o.now, timeout) then Verdict([Event(Stop, r.pv, r.dest)], Untouched, !o.removalFails)
    else Verdict([], Untouched, false)
  }

  // ---------------------------------------------------------------- one monitor

  /** The row a visit has in hand, and the section it is at. */
  datatype Hand = ToDecide(row: Row) | ToStamp(row: Row, stamp: Stamp) | ToMark(row: Row)

  /**
    A monitor is a PV and a destination. Its row, if it is stored, the serializations configured for
    it, and the visit of the purge scan that is under way.
   */
  datatype Monitor = Monitor(row: Option<Row>, configured: set<nat>, hand: Option<Hand>)

  /**
    The sections of a visit: the row is read, the handler decides under the timeout then in force, its
    flag is carried out, the row is marked. Or a request, with the row it stores if there is none; or
    the end of a round of the scan, which takes all marks back.
   */
  datatype Step = Read | Decide(o: Observation, timeout: int) | PutStamp | Mark | Requested(row: Row) | RoundEnd

  function OnRow(row: Option<Row>, id: nat, s: Stamp): Option<Row> {
    if row.Some? && row.value.id == id then Some(Stamped(row.value, s)) else row
  }

  function MarkRow(row: Option<Row>, id: nat): Option<Row> {
    if row.Some? && row.value.id == id then Some(row.value.(processed := true)) else row
  }

  /** What addChannelMonitor makes of the row. */
  function RequestRow(m: Monitor, row: Row): Option<Row> {
    if row.ser in m.configured then m.row
    else if m.row.None? then Some(row.(processed := false, startPurge := NO_PURGE))
    else Some(m.row.value.(counter := m.row.value.counter + 1, startPurge := NO_PURGE))
  }

  function MonitorAfter(m: Monitor, s: Step): Monitor {
    match s
    case Read => if m.hand.None? && m.row.Some? then m.(hand := Some(ToDecide(m.row.value))) else m
    case Decide(o, timeout) =>
      if m.hand.Some? && m.hand.value.ToDecide? then
        var r := m.hand.value.row;
        var v := Purge(r, o, timeout);
        Monitor(if v.remove then None else m.row, if v.remove then m.configured - {r.ser} else m.configured, Some(ToStamp(r, v.stamp)))
      else m
    case PutStamp =>
      if m.hand.Some? && m.hand.value.ToStamp? then
        var h := m.hand.value;
        m.(row := OnRow(m.row, h.row.id, h.stamp), hand := Some(ToMark(h.row)))
      else m
    case Mark =>
      if m.hand.Some? && m.hand.value.ToMark? then m.(row := MarkRow(m.row, m.hand.value.row.id), hand := None) else m
    case Requested(row) => m.(row := RequestRow(m, row), configured := m.configured + {row.ser})
    case RoundEnd => if m.row.None? then m else m.(row := Some(m.row.value.(processed := false)))
  }

  /** The monitor after the first i steps of its history, which starts with nothing stored or configured. */
  function At(steps: seq<Step>, i: nat): Monitor
    requires i <= |steps|
  {
    if i == 0 then Monitor(None, {}, None) else MonitorAfter(At(steps, i - 1), steps[i - 1])
  }

  /** A row in hand that is not decided about is stored, perhaps with a newer content. */
  lemma {:induction false} HandIsStored(steps: seq<Step>, i: nat)
    requires i <= |steps|
    ensures var m := At(steps, i);
            m.hand.Some? && m.hand.value.ToDecide? ==>
              m.row.Some? && m.row.value.id == m.hand.value.row.id && m.row.value.ser == m.hand.value.row.ser
  {
    if i > 0 {
      HandIsStored(steps, i - 1);
    }
  }

  // ---------------------------------------------------------------- when a visit stops a monitor

  /** Step i is a request in a serialization that is not configured. */
  predicate IsNewRequest(steps: seq<Step>, i: nat) {
    i < |steps| && steps[i].Requested? && steps[i].row.ser !in At(steps, i).configured
  }

  /** Step i carries out that flag on the stored row. */
  predicate PutsStamp(steps: seq<Step>, i: nat, s: Stamp) {
    && i < |steps| && steps[i].PutStamp?
    && var m := At(steps, i);
    && m.hand.Some? && m.hand.value.ToStamp? && m.hand.value.stamp == s
    && m.row.Some? && m.row.value.id == m.hand.value.row.id
  }

  /** Step i takes a stamp back: a request in a new serialization, or the end of a visit that resets it. */
  predicate TakesBack(steps: seq<Step>, i: nat) {
    IsNewRequest(steps, i) || PutsStamp(steps, i, Reset)
  }

  predicate Sets(steps: seq<Step>, i: nat) {
    i < |steps| && At(steps, i).hand.Some? && At(steps, i).hand.value.ToStamp? && At(steps, i).hand.value.stamp.Set?
    && PutsStamp(steps, i, At(steps, i).hand.value.stamp)
  }

  /** The clock of that stamp. */
  function ClockOf(steps: seq<Step>, i: nat): int
    requires Sets(steps, i)
  {
    At(steps, i).hand.value.stamp.now
  }

  /** Step j has stamped the row, and nothing has taken the stamp back between j and i. */
  ghost predicate StampedSince(steps: seq<Step>, j: nat, i: nat)
    requires i <= |steps|
  {
    j < i && Sets(steps, j) && forall m: nat :: j < m < i ==> !TakesBack(steps, m)
  }

  /** The purge timestamp is the clock of the last stamp that nothing has taken back. */
  ghost predicate StampMeans(steps: seq<Step>, i: nat)
    requires i <= |steps| && At(steps, i).row.Some?
  {
    var p := At(steps, i).row.value.startPurge;
    && (p != NO_PURGE ==> exists j: nat :: StampedSince(steps, j, i) && p == ClockOf(steps, j))
    && (forall j: nat :: StampedSince(steps, j, i) ==> p == ClockOf(steps, j))
  }

  /** The visit under way, while it may still stamp, has read a row that nobody has stamped since it is idle. */
  ghost predicate HandMeans(steps: seq<Step>, i: nat)
    requires i <= |steps|
  {
    var hand := At(steps, i).hand;
    && (hand.Some? && hand.value.ToStamp? && hand.value.stamp.Set? ==> hand.value.row.startPurge == NO_PURGE && hand.value.stamp.now >= 0)
    && (hand.Some? && !hand.value.ToMark? && (hand.value.ToStamp? ==> hand.value.stamp.Set?) && hand.value.row.startPurge == NO_PURGE ==>
          forall j: nat :: !StampedSince(steps, j, i))
  }

  ghost predicate Means(steps: seq<Step>, i: nat)
    requires i <= |steps|
  {
    (At(steps, i).row.Some? ==> StampMeans(steps, i)) && HandMeans(steps, i)
  }

  lemma StampedStep(steps: seq<Step>, j: nat, i: nat)
    requires 0 < i <= |steps|
    ensures StampedSince(steps, j, i) <==>
              if j == i - 1 then Sets(steps, j) else StampedSince(steps, j, i - 1) && !TakesBack(steps, i - 1)
  {
  }

  /** After a step that takes it back there is no stamp. */
  lemma InterestClears(steps: seq<Step>, i: nat)
    requires 0 < i <= |steps| && TakesBack(steps, i - 1) && HandMeans(steps, i - 1)
    ensures Means(steps, i)
  {
    forall j: nat ensures !StampedSince(steps, j, i) {
      StampedStep(steps, j, i);
    }
  }

  /** A stamp is put on a row that had none. */
  lemma StampStarts(steps: seq<Step>, i: nat)
    requires 0 < i <= |steps| && Sets(steps, i - 1) && HandMeans(steps, i - 1)
    ensures Means(steps, i)
  {
    assert StampedSince(steps, i - 1, i);
    forall j: nat | StampedSince(steps, j, i) ensures j == i - 1 {
      StampedStep(steps, j, i);
    }
  }

  /** Any other step leaves the stamp alone, or removes the row. */
  lemma StampStays(steps: seq<Step>, i: nat)
    requires 0 < i <= |steps| && !TakesBack(steps, i - 1) && !Sets(steps, i - 1) && Means(steps, i - 1)
    ensures Means(steps, i)
  {
    var m, m' := At(steps, i - 1), At(steps, i);
    assert m'.row.Some? ==> m.row.Some? && m'.row.value.startPurge == m.row.value.startPurge;
    forall j: nat ensures StampedSince(steps, j, i) <==> StampedSince(steps, j, i - 1) {
      StampedStep(steps, j, i);
    }
    if m.row.Some? && m.row.value.startPurge != NO_PURGE {
      var j: nat :| StampedSince(steps, j, i - 1) && m.row.value.startPurge == ClockOf(steps, j);
      assert StampedSince(steps, j, i);
    }
    ClocksCount(steps, i - 1);
  }

  /** A clock is never the mark of a row without a stamp. */
  lemma ClocksCount(steps: seq<Step>, i: nat)
    requires i <= |steps| && (At(steps, i).row.Some? ==> StampMeans(steps, i))
    ensures At(steps, i).row.Some? && At(steps, i).row.value.startPurge == NO_PURGE ==> forall j: nat :: !StampedSince(steps, j, i)
  {
    forall j: nat | StampedSince(steps, j, i) ensures ClockOf(steps, j) != NO_PURGE {
      SetsClock(steps, j);
    }
  }

  lemma {:induction false} StampIsClock(steps: seq<Step>, i: nat)
    requires i <= |steps|
    ensures var hand := At(steps, i).hand; hand.Some? && hand.value.ToStamp? && hand.value.stamp.Set? ==> hand.value.stamp.now >= 0
  {
    if i > 0 {
      StampIsClock(steps, i - 1);
    }
  }

  lemma SetsClock(steps: seq<Step>, j: nat)
    requires Sets(steps, j)
    ensures ClockOf(steps, j) >= 0
  {
    StampIsClock(steps, j);
  }

  lemma {:induction false} StampKept(steps: seq<Step>, i: nat)
    requires i <= |steps|
    ensures Means(steps, i)
  {
    if i > 0 {
      StampKept(steps, i - 1);
      if TakesBack(steps, i - 1) {
        InterestClears(steps, i);
      } else if Sets(steps, i - 1) {
        StampStarts(steps, i);
      } else {
        StampStays(steps, i);
      }
    }
  }

  /** Step r read the row that the visit has in hand at step i. */
  ghost predicate ReadAt(steps: seq<Step>, r: nat, i: nat)
    requires i <= |steps|
  {
    && r < i && steps[r].Read? && At(steps, r).hand.None? && At(steps, r).row.Some?
    && forall m: nat :: r < m <= i ==> At(steps, m).hand == Some(ToDecide(At(steps, r).row.value))
  }

  predicate Deciding(steps: seq<Step>, i: nat) {
    i < |steps| && steps[i].Decide? && At(steps, i).hand.Some? && At(steps, i).hand.value.ToDecide?
  }

  lemma {:induction false} ReadExists(steps: seq<Step>, i: nat) returns (r: nat)
    requires i <= |steps| && At(steps, i).hand.Some? && At(steps, i).hand.value.ToDecide?
    ensures ReadAt(steps, r, i)
  {
    if At(steps, i - 1).hand.None? {
      r := i - 1;
    } else {
      r := ReadExists(steps, i - 1);
    }
  }

  // What a visit meets, in terms of the consumer groups of the queue.

  predicate FoundIdle(s: Step) {
    s.Decide? && s.o.groups.Some? && forall g :: g in s.o.groups.value ==> g.excluded || g.subscribers == 0
  }

  predicate FoundSubscriber(s: Step) {
    s.Decide? && s.o.groups.Some? && exists g :: g in s.o.groups.value && !g.excluded && g.subscribers >= 1
  }

  lemma GroupsDecide(groups: seq<Group>)
    ensures HasSubscriber(groups) <==> exists g :: g in groups && !g.excluded && g.subscribers >= 1
  {
    if g :| g in groups && !g.excluded && g.subscribers >= 1 {
      var i :| 0 <= i < |groups| && groups[i] == g;
      assert Effective(groups[i]);
    }
  }

  /** The timestamp is reset exactly for a subscriber, and set exactly on an idle monitor that has none. */
  lemma StampFollows(r: Row, o: Observation, timeout: int)
    ensures var v, s := Purge(r, o, timeout), Decide(o, timeout);
            && (v.stamp == Reset <==> FoundSubscriber(s))
            && (v.stamp.Set? <==> FoundIdle(s) && r.startPurge == NO_PURGE)
            && (v.stamp.Set? ==> v.stamp.now == o.stampNow)
  {
    if o.groups.Some? {
      GroupsDecide(o.groups.value);
    }
  }

  /** One group that is not excluded and has a subscriber keeps the monitor, and takes its timestamp back. */
  lemma SubscriberKeeps(r: Row, o: Observation, timeout: int, g: Group)
    requires o.groups.Some? && g in o.groups.value && !g.excluded && g.subscribers >= 1
    ensures Purge(r, o, timeout) == Verdict([], Reset, false)
  {
    GroupsDecide(o.groups.value);
  }

  /** Step d decided on the stamp that the visit has in hand at step j. */
  ghost predicate DecidedAt(steps: seq<Step>, d: nat, j: nat)
    requires j <= |steps|
  {
    && d < j && Deciding(steps, d)
    && forall m: nat :: d < m <= j ==> At(steps, m).hand.Some? && At(steps, m).hand.value.ToStamp?
  }

  lemma {:induction false} DecisionExists(steps: seq<Step>, j: nat) returns (d: nat)
    requires j <= |steps| && At(steps, j).hand.Some? && At(steps, j).hand.value.ToStamp?
    ensures DecidedAt(steps, d, j)
  {
    if At(steps, j - 1).hand.Some? && At(steps, j - 1).hand.value.ToStamp? {
      d := DecisionExists(steps, j - 1);
    } else {
      d := j - 1;
    }
  }

  lemma OneDecision(steps: seq<Step>, d: nat, d': nat, j: nat)
    requires j <= |steps| && DecidedAt(steps, d, j) && DecidedAt(steps, d', j)
    ensures d == d'
  {
  }

  /** The stamp in hand is the one that was decided on. */
  lemma {:induction false} StampInHand(steps: seq<Step>, d: nat, j: nat)
    requires j <= |steps| && DecidedAt(steps, d, j)
    ensures var r := At(steps, d).hand.value.row; At(steps, j).hand == Some(ToStamp(r, Purge(r, steps[d].o, steps[d].timeout).stamp))
    decreases j
  {
    if d + 1 < j {
      assert DecidedAt(steps, d, j - 1);
      StampInHand(steps, d, j - 1);
    }
  }

  /** Step j ends the visit that decided in step d, and finds the row still stored. */
  ghost predicate EndsVisit(steps: seq<Step>, d: nat, j: nat) {
    && j < |steps| && steps[j].PutStamp? && DecidedAt(steps, d, j)
    && At(steps, j).row.Some? && At(steps, j).row.value.id == At(steps, d).hand.value.row.id
  }

  /** Step m speaks for the monitor: a request in a new serialization, or the end of a visit that has found a subscriber. */
  ghost predicate SpeaksFor(steps: seq<Step>, m: nat) {
    IsNewRequest(steps, m) || exists d: nat :: EndsVisit(steps, d, m) && FoundSubscriber(steps[d])
  }

  /** A visit that has found the monitor idle, and its row without a timestamp, ends in step j. */
  ghost predicate IdleVisit(steps: seq<Step>, d: nat, j: nat) {
    EndsVisit(steps, d, j) && FoundIdle(steps[d]) && At(steps, d).hand.value.row.startPurge == NO_PURGE
  }

  lemma VisitPuts(steps: seq<Step>, d: nat, j: nat)
    requires EndsVisit(steps, d, j)
    ensures PutsStamp(steps, j, Reset) <==> FoundSubscriber(steps[d])
    ensures Sets(steps, j) <==> IdleVisit(steps, d, j)
    ensures Sets(steps, j) ==> ClockOf(steps, j) == steps[d].o.stampNow
  {
    StampInHand(steps, d, j);
    StampFollows(At(steps, d).hand.value.row, steps[d].o, steps[d].timeout);
    assert steps[d] == Decide(steps[d].o, steps[d].timeout);
  }

  lemma PutsEndsVisit(steps: seq<Step>, j: nat, s: Stamp) returns (d: nat)
    requires PutsStamp(steps, j, s)
    ensures EndsVisit(steps, d, j)
  {
    d := DecisionExists(steps, j);
    StampInHand(steps, d, j);
  }

  lemma SpeaksIff(steps: seq<Step>, m: nat)
    ensures SpeaksFor(steps, m) <==> TakesBack(steps, m)
  {
    if PutsStamp(steps, m, Reset) {
      var d := PutsEndsVisit(steps, m, Reset);
      VisitPuts(steps, d, m);
    }
    if d: nat :| EndsVisit(steps, d, m) && FoundSubscriber(steps[d]) {
      VisitPuts(steps, d, m);
    }
  }

  /** Since the visit that decided in d and ended in j the monitor is idle: nothing speaks for it in the steps from `from` up to i. */
  ghost predicate IdleSince(steps: seq<Step>, d: nat, j: nat, from: nat, i: nat) {
    j < i && IdleVisit(steps, d, j) && forall m: nat :: from < m < i ==> !SpeaksFor(steps, m)
  }

  lemma IdleIsStamped(steps: seq<Step>, d: nat, j: nat, i: nat)
    requires i <= |steps|
    ensures IdleSince(steps, d, j, j, i) ==> StampedSince(steps, j, i) && ClockOf(steps, j) == steps[d].o.stampNow
  {
    if IdleSince(steps, d, j, j, i) {
      VisitPuts(steps, d, j);
      forall m: nat | j < m < i ensures !TakesBack(steps, m) {
        SpeaksIff(steps, m);
      }
    }
  }

  lemma StampedIsIdle(steps: seq<Step>, j: nat, i: nat) returns (d: nat)
    requires i <= |steps| && StampedSince(steps, j, i)
    ensures IdleSince(steps, d, j, j, i) && ClockOf(steps, j) == steps[d].o.stampNow
  {
    d := PutsEndsVisit(steps, j, At(steps, j).hand.value.stamp);
    VisitPuts(steps, d, j);
    forall m: nat | j < m < i ensures !SpeaksFor(steps, m) {
      SpeaksIff(steps, m);
    }
  }

  /**
    What a purge timestamp means: a stored monitor has one exactly if it was found idle and nothing has
    spoken for it since, and it is the clock of that visit.
   */
  lemma StampIs(steps: seq<Step>, i: nat)
    requires i <= |steps| && At(steps, i).row.Some?
    ensures var p := At(steps, i).row.value.startPurge;
            && (p != NO_PURGE <==> exists d: nat, j: nat :: IdleSince(steps, d, j, j, i))
            && forall d: nat, j: nat :: IdleSince(steps, d, j, j, i) ==> p == steps[d].o.stampNow
  {
    StampKept(steps, i);
    ClocksCount(steps, i);
    var p := At(steps, i).row.value.startPurge;
    if p != NO_PURGE {
      var j: nat :| StampedSince(steps, j, i) && p == ClockOf(steps, j);
      var d := StampedIsIdle(steps, j, i);
    }
    forall d: nat, j: nat | IdleSince(steps, d, j, j, i) ensures p == steps[d].o.stampNow && p != NO_PURGE {
      IdleIsStamped(steps, d, j, i);
    }
  }

  // When a visit stops the monitor.

  predicate Stops(steps: seq<Step>, i: nat) {
    && Deciding(steps, i)
    && var r := At(steps, i).hand.value.row;
    Event(Stop, r.pv, r.dest) in Purge(r, steps[i].o, steps[i].timeout).events
  }

  /** A decision broadcasts that stop or nothing, and takes the row exactly with it, unless removing fails. */
  lemma DecisionDoes(steps: seq<Step>, i: nat)
    requires Deciding(steps, i)
    ensures var r := At(steps, i).hand.value.row;
            Purge(r, steps[i].o, steps[i].timeout).events == if Stops(steps, i) then [Event(Stop, r.pv, r.dest)] else []
    ensures At(steps, i + 1).row == if Stops(steps, i) && !steps[i].o.removalFails then None else At(steps, i).row
  {
  }

  /** Idle up to step `until`, since a visit that lies further back than the timeout in force in step i. */
  ghost predicate IdleLongEnough(steps: seq<Step>, until: nat, i: nat)
    requires until <= i < |steps| && steps[i].Decide?
  {
    exists d: nat, j: nat :: IdleSince(steps, d, j, j, until) && steps[i].o.now - steps[d].o.stampNow > steps[i].timeout
  }

  /**
    Purge safety and liveness over whole histories: a visit stops the monitor exactly if it finds no
    subscriber, and the monitor had been idle for longer than the timeout when the visit read its row.
   */
  lemma StopIff(steps: seq<Step>, r: nat, i: nat)
    requires Deciding(steps, i) && ReadAt(steps, r, i)
    ensures Stops(steps, i) <==> FoundIdle(steps[i]) && IdleLongEnough(steps, r, i)
  {
    var row := At(steps, r).row.value;
    assert At(steps, i).hand == Some(ToDecide(row));
    StampIs(steps, r);
    if steps[i].o.groups.Some? {
      GroupsDecide(steps[i].o.groups.value);
    }
  }

  /** A request in a new serialization has come in since the row was read. */
  ghost predicate RequestedSince(steps: seq<Step>, r: nat, i: nat) {
    exists m: nat :: r < m < i && IsNewRequest(steps, m)
  }

  /** While the visit has the row in hand only a request can speak for the monitor. */
  lemma IdleWhileInHand(steps: seq<Step>, r: nat, i: nat, d: nat, j: nat)
    requires i <= |steps| && ReadAt(steps, r, i)
    ensures IdleSince(steps, d, j, j, i) <==> IdleSince(steps, d, j, j, r) && !RequestedSince(steps, r, i)
  {
    forall m: nat | r <= m < i ensures !Sets(steps, m) && (TakesBack(steps, m) <==> IsNewRequest(steps, m)) {
    }
    forall m: nat ensures SpeaksFor(steps, m) <==> TakesBack(steps, m) {
      SpeaksIff(steps, m);
    }
    if IdleSince(steps, d, j, j, i) {
      VisitPuts(steps, d, j);
      assert j < r;
    }
  }

  /** The stamp that is read in step r was put over a request that came in after it was decided on. */
  ghost predicate StampedOver(steps: seq<Step>, r: nat)
    requires r <= |steps|
  {
    exists d: nat, j: nat :: IdleSince(steps, d, j, j, r) && RequestedSince(steps, d, j)
  }

  lemma IdleWhileStamping(steps: seq<Step>, d: nat, j: nat, i: nat)
    requires i <= |steps| && j < i && IdleVisit(steps, d, j)
    ensures IdleSince(steps, d, j, d, i) <==> IdleSince(steps, d, j, j, i) && !RequestedSince(steps, d, j)
  {
    VisitPuts(steps, d, j);
    forall m: nat | d < m <= j ensures SpeaksFor(steps, m) <==> IsNewRequest(steps, m) && m < j {
      SpeaksIff(steps, m);
      assert m < j ==> At(steps, m + 1).hand.value.ToStamp?;
    }
    if IdleSince(steps, d, j, j, i) && !RequestedSince(steps, d, j) {
      forall m: nat | d < m < i ensures !SpeaksFor(steps, m) {
      }
    }
  }

  /** A monitor is idle since one stamp only. */
  lemma OneStamp(steps: seq<Step>, j: nat, j': nat, i: nat)
    requires i <= |steps| && StampedSince(steps, j, i) && StampedSince(steps, j', i)
    ensures j == j'
  {
    var first, second := if j < j' then j else j', if j < j' then j' else j;
    StampKept(steps, second);
    if first < second {
      assert StampedSince(steps, first, second);
    }
  }

  /** When step i decides, the monitor has been found idle longer ago than the timeout, and is idle since that was decided. */
  ghost predicate IsDue(steps: seq<Step>, i: nat)
    requires i < |steps| && steps[i].Decide?
  {
    exists d: nat, j: nat :: IdleSince(steps, d, j, d, i) && steps[i].o.now - steps[d].o.stampNow > steps[i].timeout
  }

  lemma DueIff(steps: seq<Step>, r: nat, i: nat)
    requires i < |steps| && steps[i].Decide? && ReadAt(steps, r, i)
    ensures IsDue(steps, i) <==> IdleLongEnough(steps, r, i) && !RequestedSince(steps, r, i) && !StampedOver(steps, r)
  {
    if IsDue(steps, i) {
      var d: nat, j: nat :| IdleSince(steps, d, j, d, i) && steps[i].o.now - steps[d].o.stampNow > steps[i].timeout;
      IdleWhileStamping(steps, d, j, i);
      IdleWhileInHand(steps, r, i, d, j);
      if d': nat, j': nat :| IdleSince(steps, d', j', j', r) && RequestedSince(steps, d', j') {
        IdleIsStamped(steps, d, j, r);
        IdleIsStamped(steps, d', j', r);
        OneStamp(steps, j, j', r);
        OneDecision(steps, d, d', j);
      }
    }
    if IdleLongEnough(steps, r, i) && !RequestedSince(steps, r, i) && !StampedOver(steps, r) {
      var d: nat, j: nat :| IdleSince(steps, d, j, j, r) && steps[i].o.now - steps[d].o.stampNow > steps[i].timeout;
      IdleWhileInHand(steps, r, i, d, j);
      IdleWhileStamping(steps, d, j, i);
    }
  }

  /**
    The purge does what it should, and stops exactly the monitors that are due when it decides, unless
    a request in a new serialization falls into one of two gaps, and the monitor is stopped in spite of
    it: between the read and the decision of this visit, or between the decision and the stamping of
    the visit that put the stamp.
   */
  lemma StopIsDueIff(steps: seq<Step>, r: nat, i: nat)
    requires Deciding(steps, i) && ReadAt(steps, r, i)
    ensures (Stops(steps, i) <==> FoundIdle(steps[i]) && IsDue(steps, i)) <==>
            !(Stops(steps, i) && (RequestedSince(steps, r, i) || StampedOver(steps, r)))
  {
    StopIff(steps, r, i);
    DueIff(steps, r, i);
  }

  // ---------------------------------------------------------------- histories that end badly

  /** A decision that finds no subscriber, under a timeout of 10. */
  function Idle(now: nat): Step {
    Decide(Observation(Some([]), now, now, false), 10)
  }

  function FreshRow(row: Row): Row {
    row.(processed := false, startPurge := NO_PURGE)
  }

  /** Requested, and then visited for the first time with no subscriber at time 0. */
  function Visited(row: Row): seq<Step> {
    [Requested(row), Read, Idle(0), PutStamp, Mark]
  }

  lemma {:induction false} AtPrefix(a: seq<Step>, b: seq<Step>, i: nat)
    requires i <= |a|
    ensures At(a + b, i) == At(a, i)
  {
    if i > 0 {
      AtPrefix(a, b, i - 1);
    }
  }

  lemma VisitedIs(row: Row)
    ensures At(Visited(row), 5) == Monitor(Some(row.(processed := true, startPurge := 0)), {row.ser}, None)
  {
    var s := Visited(row);
    assert At(s, 0) == Monitor(None, {}, None);
    assert At(s, 1) == Monitor(Some(FreshRow(row)), {row.ser}, None);
    assert At(s, 2) == At(s, 1).(hand := Some(ToDecide(FreshRow(row))));
    assert At(s, 3) == At(s, 1).(hand := Some(ToStamp(FreshRow(row), Set(0))));
    assert At(s, 4) == Monitor(Some(row.(processed := false, startPurge := 0)), {row.ser}, Some(ToMark(FreshRow(row))));
  }

  /** A request in a new serialization, between the read and the decision, is stored and lost at once. */
  lemma RequestLost(first: Row, second: Row) returns (steps: seq<Step>)
    requires first.ser != second.ser
    ensures steps == Visited(first) + [Read, Requested(second), Idle(11)]
    ensures ReadAt(steps, 5, 7) && IsNewRequest(steps, 6) && Stops(steps, 7) && At(steps, 8).row.None?
  {
    var more := [Read, Requested(second), Idle(11)];
    steps := Visited(first) + more;
    VisitedIs(first);
    AtPrefix(Visited(first), more, 5);
    var row := first.(processed := true, startPurge := 0);
    assert steps[5] == Read && steps[6] == Requested(second) && steps[7] == Idle(11);
    assert At(steps, 6) == Monitor(Some(row), {first.ser}, Some(ToDecide(row)));
    assert At(steps, 7).hand == Some(ToDecide(row)) && At(steps, 7).row.Some?;
  }

  /** One between the decision and the stamping is stamped over. */
  lemma RequestStampedOver(first: Row, second: Row) returns (steps: seq<Step>)
    requires first.ser != second.ser
    ensures steps == [Requested(first), Read, Idle(0), Requested(second), PutStamp, Mark, Read, Idle(11)]
    ensures IsNewRequest(steps, 3) && ReadAt(steps, 6, 7) && StampedOver(steps, 6) && !RequestedSince(steps, 6, 7) && Stops(steps, 7)
  {
    steps := [Requested(first), Read, Idle(0), Requested(second), PutStamp, Mark, Read, Idle(11)];
    var row := FreshRow(first);
    var counted := row.(counter := row.counter + 1);
    assert At(steps, 0) == Monitor(None, {}, None);
    assert At(steps, 1) == Monitor(Some(row), {first.ser}, None);
    assert At(steps, 2).hand == Some(ToDecide(row));
    assert At(steps, 3) == Monitor(Some(row), {first.ser}, Some(ToStamp(row, Set(0))));
    assert At(steps, 4) == Monitor(Some(counted), {first.ser, second.ser}, Some(ToStamp(row, Set(0))));
    assert At(steps, 5).row == Some(counted.(startPurge := 0));
    assert At(steps, 6) == Monitor(Some(counted.(startPurge := 0, processed := true)), {first.ser, second.ser}, None);
    assert At(steps, 7).hand == Some(ToDecide(At(steps, 6).row.value));
    assert IsNewRequest(steps, 3) && PutsStamp(steps, 4, Set(0)) && Sets(steps, 4);
    assert EndsVisit(steps, 2, 4) && IdleVisit(steps, 2, 4);
    SpeaksIff(steps, 5);
    assert IdleSince(steps, 2, 4, 4, 6) && RequestedSince(steps, 2, 4);
  }

  /** A request repeated between two idle visits does not keep the monitor alive. */
  lemma RepeatedRequestIgnored(row: Row) returns (steps: seq<Step>)
    ensures steps == Visited(row) + [Requested(row), Read, Idle(11)]
    ensures Stops(steps, 7)
  {
    var more := [Requested(row), Read, Idle(11)];
    steps := Visited(row) + more;
    VisitedIs(row);
    AtPrefix(Visited(row), more, 5);
    assert steps[5] == Requested(row) && steps[6] == Read && steps[7] == Idle(11);
    assert At(steps, 6) == At(steps, 5);
    assert At(steps, 7).hand == Some(ToDecide(row.(processed := true, startPurge := 0)));
  }

  // ---------------------------------------------------------------- configured and not stored

  /** Step j purges the row of another serialization than `ser`, which stays configured. */
  predicate PurgedOther(steps: seq<Step>, j: nat, ser: nat) {
    && j < |steps|
    && At(steps, j).row.Some? && At(steps, j + 1).row.None?
    && ser in At(steps, j).configured && At(steps, j).row.value.ser != ser
  }

  ghost predicate PurgedSince(steps: seq<Step>, i: nat, ser: nat) {
    exists j: nat :: j < i && PurgedOther(steps, j, ser) && forall m: nat :: j < m < i ==> !IsNewRequest(steps, m)
  }

  lemma PurgedStep(steps: seq<Step>, i: nat, ser: nat)
    requires i > 0
    ensures PurgedSince(steps, i, ser) <==>
              PurgedOther(steps, i - 1, ser) || (PurgedSince(steps, i - 1, ser) && !IsNewRequest(steps, i - 1))
  {
    if PurgedSince(steps, i - 1, ser) && !IsNewRequest(steps, i - 1) {
      var j: nat :| j < i - 1 && PurgedOther(steps, j, ser) && forall m: nat :: j < m < i - 1 ==> !IsNewRequest(steps, m);
      assert j < i && forall m: nat :: j < m < i ==> !IsNewRequest(steps, m);
    }
  }

  /**
    A serialization is configured for a monitor that is not stored, so that requests in it start the
    monitor without storing it, exactly if a purge took the row of another serialization and no
    request in a new one has come since.
   */
  lemma {:induction false} NotStoredIff(steps: seq<Step>, i: nat, ser: nat)
    requires i <= |steps|
    ensures At(steps, i).row.None? && ser in At(steps, i).configured <==> PurgedSince(steps, i, ser)
  {
    if i > 0 {
      NotStoredIff(steps, i - 1, ser);
      PurgedStep(steps, i, ser);
      HandIsStored(steps, i - 1);
    }
  }

  /** A monitor requested in two serializations and purged is not stored by a new request in the second one. */
  lemma RequestNotStored(first: Row, second: Row) returns (steps: seq<Step>)
    requires first.ser != second.ser
    ensures steps == [Requested(second)] + Visited(first) + [Read, Idle(11), PutStamp, Mark, Requested(first)]
    ensures Stops(steps, 7) && At(steps, 11).row == None
  {
    steps := [Requested(second)] + Visited(first) + [Read, Idle(11), PutStamp, Mark, Requested(first)];
    assert At(steps, 0) == Monitor(None, {}, None);
    assert At(steps, 1) == Monitor(Some(FreshRow(second)), {second.ser}, None);
    var row := FreshRow(second).(counter := second.counter + 1);
    assert At(steps, 2) == Monitor(Some(row), {first.ser, second.ser}, None);
    assert steps[3] == Idle(0) && steps[4] == PutStamp && steps[5] == Mark && steps[6] == Read && steps[7] == Idle(11);
    assert At(steps, 4) == Monitor(Some(row), {first.ser, second.ser}, Some(ToStamp(row, Set(0))));
    assert At(steps, 5) == Monitor(Some(row.(startPurge := 0)), {first.ser, second.ser}, Some(ToMark(row)));
    assert At(steps, 6) == Monitor(Some(row.(processed := true, startPurge := 0)), {first.ser, second.ser}, None);
    assert At(steps, 7).hand == Some(ToDecide(row.(processed := true, startPurge := 0)));
    assert At(steps, 8).row == None && first.ser in At(steps, 8).configured;
    assert At(steps, 10).row == None && first.ser in At(steps, 10).configured;
  }

  // ---------------------------------------------------------------- the store goes through the histories of all monitors

  /** The tables, and the visit of the purge scan that is under way. */
  datatype Store = Store(rows: seq<Row>, config: set<Setting>, nextId: nat, hand: Option<Hand>)

  /** What happens to the store: a request, or a section of a visit; `Next` reads the next row of a name. */
  datatype Deed =
    | Request(pv: string, dest: string, ser: nat)
    | Next(name: string)
    | Decision(o: Observation, timeout: int)
    | Stamping
    | Marking
    | EndOfRound

  function Unprocessed(rows: seq<Row>): seq<Row> {
    seq(|rows|, i requires 0 <= i < |rows| => rows[i].(processed := false))
  }

  function StoreAfter(s: Store, d: Deed): Store {
    match d
    case Request(pv, dest, ser) =>
      var x := Setting(pv, dest, ser);
      s.(rows := RequestedRows(s.rows, s.config, s.nextId, pv, dest, ser),
         config := s.config + {x},
         nextId := if x !in s.config && RowOf(s.rows, pv, dest).None? then s.nextId + 1 else s.nextId)
    case Next(name) =>
      if s.hand.None? && Pending(s.rows, name) != [] then s.(hand := Some(ToDecide(Pending(s.rows, name)[0]))) else s
    case Decision(o, timeout) =>
      if s.hand.Some? && s.hand.value.ToDecide? then
        var r := s.hand.value.row;
        var v := Purge(r, o, timeout);
        s.(rows := if v.remove then WithoutPair(s.rows, r.pv, r.dest) else s.rows,
           config := if v.remove then s.config - {SettingOf(r)} else s.config,
           hand := Some(ToStamp(r, v.stamp)))
      else s
    case Stamping =>
      if s.hand.Some? && s.hand.value.ToStamp? then
        var h := s.hand.value;
        s.(rows := StampedAt(s.rows, h.row.id, h.stamp), hand := Some(ToMark(h.row)))
      else s
    case Marking =>
      if s.hand.Some? && s.hand.value.ToMark? then s.(rows := MarkedAt(s.rows, s.hand.value.row.id), hand := None) else s
    case EndOfRound => s.(rows := Unprocessed(s.rows))
  }

  function StoreAt(deeds: seq<Deed>): Store {
    if deeds == [] then Store([], {}, 0, None) else StoreAfter(StoreAt(deeds[..|deeds| - 1]), deeds[|deeds| - 1])
  }

  /** The hand of a monitor, when the visit under way is one of it. */
  function HandOf(hand: Option<Hand>, pv: string, dest: string): Option<Hand> {
    if hand.Some? && SamePair(hand.value.row, pv, dest) then hand else None
  }

  function MonitorOf(s: Store, pv: string, dest: string): Monitor {
    Monitor(RowOf(s.rows, pv, dest), set x | x in s.config && x.pv == pv && x.dest == dest :: x.ser, HandOf(s.hand, pv, dest))
  }

  /** What a deed means to one monitor, if it concerns it. */
  function StepOf(s: Store, d: Deed, pv: string, dest: string): Option<Step> {
    match d
    case Request(p, q, ser) => if p == pv && q == dest then Some(Requested(NewRow(s.nextId, p, q, ser))) else None
    case Next(name) =>
      if s.hand.None? && Pending(s.rows, name) != [] && SamePair(Pending(s.rows, name)[0], pv, dest) then Some(Read) else None
    case Decision(o, timeout) => if HandOf(s.hand, pv, dest).Some? then Some(Decide(o, timeout)) else None
    case Stamping => if HandOf(s.hand, pv, dest).Some? then Some(PutStamp) else None
    case Marking => if HandOf(s.hand, pv, dest).Some? then Some(Mark) else None
    case EndOfRound => Some(RoundEnd)
  }

  /** The history of one monitor. */
  function StepsOf(deeds: seq<Deed>, pv: string, dest: string): seq<Step> {
    if deeds == [] then []
    else
      var n := |deeds| - 1;
      var step := StepOf(StoreAt(deeds[..n]), deeds[n], pv, dest);
      StepsOf(deeds[..n], pv, dest) + if step.Some? then [step.value] else []
  }

  /** Row ids are new, pairs unique, and the id of the row in hand is that of no other pair. */
  ghost predicate StoreInv(s: Store) {
    && Unique(s.rows)
    && (forall i :: 0 <= i < |s.rows| ==> s.rows[i].id < s.nextId)
    && (s.hand.Some? ==> s.hand.value.row.id < s.nextId && forall i :: 0 <= i < |s.rows| && s.rows[i].id == s.hand.value.row.id ==>
          SamePair(s.rows[i], s.hand.value.row.pv, s.hand.value.row.dest))
  }

  // What each deed does to the row of a pair, and to the serializations configured for it.

  lemma {:induction false} InsertedRowOf(rows: seq<Row>, id: nat, pv: string, dest: string, ser: nat, pv': string, dest': string)
    ensures var before, after := RowOf(rows, pv', dest'), RowOf(Inserted(rows, id, pv, dest, ser), pv', dest');
            if pv' != pv || dest' != dest then after == before
            else if before.None? then after == Some(NewRow(id, pv, dest, ser))
            else after == Some(before.value.(counter := before.value.counter + 1, startPurge := NO_PURGE))
  {
    if rows != [] {
      InsertedRowOf(rows[1..], id, pv, dest, ser, pv', dest');
    }
  }

  lemma {:induction false} WithoutRowOf(rows: seq<Row>, pv: string, dest: string, pv': string, dest': string)
    ensures RowOf(WithoutPair(rows, pv, dest), pv', dest') == if pv' == pv && dest' == dest then None else RowOf(rows, pv', dest')
  {
    if rows != [] {
      WithoutRowOf(rows[1..], pv, dest, pv', dest');
    }
  }

  lemma {:induction false} SectionsRowOf(rows: seq<Row>, id: nat, s: Stamp, pv: string, dest: string)
    ensures RowOf(StampedAt(rows, id, s), pv, dest) == OnRow(RowOf(rows, pv, dest), id, s)
    ensures RowOf(MarkedAt(rows, id), pv, dest) == MarkRow(RowOf(rows, pv, dest), id)
    ensures RowOf(Unprocessed(rows), pv, dest) ==
            if RowOf(rows, pv, dest).Some? then Some(RowOf(rows, pv, dest).value.(processed := false)) else None
  {
    if rows != [] {
      SectionsRowOf(rows[1..], id, s, pv, dest);
      assert StampedAt(rows, id, s)[1..] == StampedAt(rows[1..], id, s);
      assert MarkedAt(rows, id)[1..] == MarkedAt(rows[1..], id);
      assert Unprocessed(rows)[1..] == Unprocessed(rows[1..]);
    }
  }

  lemma {:induction false} RowOfIs(rows: seq<Row>, pv: string, dest: string)
    ensures var r := RowOf(rows, pv, dest); r.Some? ==> r.value in rows && SamePair(r.value, pv, dest)
  {
    if rows != [] {
      RowOfIs(rows[1..], pv, dest);
    }
  }

  lemma {:induction false} StoredRow(rows: seq<Row>, r: Row)
    requires Unique(rows) && r in rows
    ensures RowOf(rows, r.pv, r.dest) == Some(r)
  {
    if rows[0] != r {
      var i :| 0 <= i < |rows| && rows[i] == r;
      assert rows[1..][i - 1] == r;
      StoredRow(rows[1..], r);
    }
  }

  /** The configured serializations of a pair, with one more setting or one less. */
  lemma ConfiguredAfter(s: Store, config': set<Setting>, x: Setting, pv: string, dest: string)
    requires config' == s.config + {x} || config' == s.config - {x}
    ensures var before, after := MonitorOf(s, pv, dest).configured, MonitorOf(s.(config := config'), pv, dest).configured;
            if x.pv != pv || x.dest != dest then after == before
            else after == if x in config' then before + {x.ser} else before - {x.ser}
    ensures x.pv == pv && x.dest == dest ==> (x in s.config <==> x.ser in MonitorOf(s, pv, dest).configured)
  {
    var before, after := MonitorOf(s, pv, dest).configured, MonitorOf(s.(config := config'), pv, dest).configured;
    forall ser: nat
      ensures ser in before <==> Setting(pv, dest, ser) in s.config
      ensures ser in after <==> Setting(pv, dest, ser) in config'
    {
      assert Setting(pv, dest, ser).ser == ser;
    }
    assert x.pv == pv && x.dest == dest ==> x == Setting(pv, dest, x.ser);
  }

  /** A request takes the history of its monitor one step on, and no other. */
  lemma RequestIsStep(s: Store, p: string, q: string, ser: nat, pv: string, dest: string)
    ensures var m, m' := MonitorOf(s, pv, dest), MonitorOf(StoreAfter(s, Request(p, q, ser)), pv, dest);
            m' == if pv == p && dest == q then MonitorAfter(m, Requested(NewRow(s.nextId, p, q, ser))) else m
  {
    InsertedRowOf(s.rows, s.nextId, p, q, ser, pv, dest);
    ConfiguredAfter(s, s.config + {Setting(p, q, ser)}, Setting(p, q, ser), pv, dest);
  }

  /** Reading the next row begins a visit of its monitor, and of no other. */
  lemma NextIsStep(s: Store, name: string, pv: string, dest: string)
    requires StoreInv(s)
    ensures var m, m', step := MonitorOf(s, pv, dest), MonitorOf(StoreAfter(s, Next(name)), pv, dest), StepOf(s, Next(name), pv, dest);
            m' == if step.Some? then MonitorAfter(m, Read) else m
  {
    if s.hand.None? && Pending(s.rows, name) != [] {
      var r := Pending(s.rows, name)[0];
      PendingAre(s.rows, name);
      assert r in Pending(s.rows, name);
      StoredRow(s.rows, r);
    }
  }

  lemma DecisionIsStep(s: Store, o: Observation, timeout: int, pv: string, dest: string)
    ensures var m, m' := MonitorOf(s, pv, dest), MonitorOf(StoreAfter(s, Decision(o, timeout)), pv, dest);
            var step := StepOf(s, Decision(o, timeout), pv, dest);
            m' == if step.Some? then MonitorAfter(m, Decide(o, timeout)) else m
  {
    if s.hand.Some? && s.hand.value.ToDecide? {
      var r := s.hand.value.row;
      WithoutRowOf(s.rows, r.pv, r.dest, pv, dest);
      ConfiguredAfter(s, s.config - {SettingOf(r)}, SettingOf(r), pv, dest);
    }
  }

  lemma SectionIsStep(s: Store, d: Deed, pv: string, dest: string)
    requires StoreInv(s) && (d.Stamping? || d.Marking? || d.EndOfRound?)
    ensures var m, m', step := MonitorOf(s, pv, dest), MonitorOf(StoreAfter(s, d), pv, dest), StepOf(s, d, pv, dest);
            m' == if step.Some? then MonitorAfter(m, step.value) else m
  {
    RowOfIs(s.rows, pv, dest);
    if s.hand.Some? {
      SectionsRowOf(s.rows, s.hand.value.row.id, if s.hand.value.ToStamp? then s.hand.value.stamp else Untouched, pv, dest);
    } else {
      SectionsRowOf(s.rows, 0, Untouched, pv, dest);
    }
  }

  lemma DeedIsStep(s: Store, d: Deed, pv: string, dest: string)
    requires StoreInv(s)
    ensures var m, m', step := MonitorOf(s, pv, dest), MonitorOf(StoreAfter(s, d), pv, dest), StepOf(s, d, pv, dest);
            m' == if step.Some? then MonitorAfter(m, step.value) else m
  {
    match d
    case Request(p, q, ser) => RequestIsStep(s, p, q, ser, pv, dest);
    case Next(name) => NextIsStep(s, name, pv, dest);
    case Decision(o, timeout) => DecisionIsStep(s, o, timeout, pv, dest);
    case _ => SectionIsStep(s, d, pv, dest);
  }

  // The store keeps its invariant.

  /** Every row of rows' has the id and the pair of a row of rows, and none twice. */
  ghost predicate Fewer(rows: seq<Row>, rows': seq<Row>) {
    && (Unique(rows) ==> Unique(rows'))
    && forall j :: 0 <= j < |rows'| ==> IsFrom(rows, rows'[j])
  }

  ghost predicate IsFrom(rows: seq<Row>, r: Row) {
    exists i :: 0 <= i < |rows| && SameRow(rows[i], r)
  }

  predicate SameRow(r: Row, r': Row) {
    r.id == r'.id && r.pv == r'.pv && r.dest == r'.dest
  }

  lemma FewerKeeps(s: Store, rows': seq<Row>)
    requires StoreInv(s) && Fewer(s.rows, rows')
    ensures StoreInv(s.(rows := rows'))
  {
    forall j | 0 <= j < |rows'|
      ensures rows'[j].id < s.nextId
      ensures s.hand.Some? && rows'[j].id == s.hand.value.row.id ==> SamePair(rows'[j], s.hand.value.row.pv, s.hand.value.row.dest)
    {
      assert IsFrom(s.rows, rows'[j]);
    }
  }

  lemma {:induction false} WithoutFewer(rows: seq<Row>, pv: string, dest: string)
    ensures Fewer(rows, WithoutPair(rows, pv, dest))
  {
    if rows != [] {
      WithoutFewer(rows[1..], pv, dest);
      var rest, rows' := WithoutPair(rows[1..], pv, dest), WithoutPair(rows, pv, dest);
      forall j | 0 <= j < |rows'| ensures IsFrom(rows, rows'[j]) {
        if rows' != rest && j == 0 {
          assert SameRow(rows[0], rows'[0]);
        } else {
          var k := if rows' == rest then j else j - 1;
          assert IsFrom(rows[1..], rest[k]);
          var i :| 0 <= i < |rows[1..]| && SameRow(rows[1..][i], rest[k]);
          assert SameRow(rows[i + 1], rows'[j]);
        }
      }
      WithoutUnique(rows, pv, dest);
    }
  }

  lemma WithoutUnique(rows: seq<Row>, pv: string, dest: string)
    requires rows != [] && Fewer(rows[1..], WithoutPair(rows[1..], pv, dest))
    ensures Unique(rows) ==> Unique(WithoutPair(rows, pv, dest))
  {
    if Unique(rows) {
      var rest := WithoutPair(rows[1..], pv, dest);
      forall j | 0 <= j < |rest| ensures rest[j].id != rows[0].id && !SamePair(rows[0], rest[j].pv, rest[j].dest) {
        assert IsFrom(rows[1..], rest[j]);
        var i :| 0 <= i < |rows[1..]| && SameRow(rows[1..][i], rest[j]);
        assert rows[1..][i] == rows[i + 1];
      }
    }
  }

  /** Rows that keep their ids and pairs. */
  lemma SameRowsFewer(rows: seq<Row>, rows': seq<Row>)
    requires |rows'| == |rows| && forall i :: 0 <= i < |rows| ==> SameRow(rows[i], rows'[i])
    ensures Fewer(rows, rows')
  {
    forall j | 0 <= j < |rows'| ensures IsFrom(rows, rows'[j]) {
      assert SameRow(rows[j], rows'[j]);
    }
  }

  lemma AppendKeeps(s: Store, r: Row)
    requires StoreInv(s) && r.id == s.nextId && forall i :: 0 <= i < |s.rows| ==> !SamePair(s.rows[i], r.pv, r.dest)
    ensures StoreInv(s.(rows := s.rows + [r], nextId := s.nextId + 1))
  {
  }

  lemma FirstOf(rows: seq<Row>, pv: string, dest: string, i: nat)
    requires Unique(rows) && i < |rows| && SamePair(rows[i], pv, dest)
    ensures forall j :: 0 <= j < i ==> !SamePair(rows[j], pv, dest)
  {
  }

  lemma InsertKeeps(s: Store, pv: string, dest: string, ser: nat)
    requires StoreInv(s)
    ensures StoreInv(StoreAfter(s, Request(pv, dest, ser)))
  {
    if Setting(pv, dest, ser) !in s.config {
      var rows' := Inserted(s.rows, s.nextId, pv, dest, ser);
      if i: nat :| i < |s.rows| && SamePair(s.rows[i], pv, dest) {
        FirstOf(s.rows, pv, dest, i);
        InsertedAt(s.rows, s.nextId, pv, dest, ser, i);
        SameRowsFewer(s.rows, rows');
        FewerKeeps(s, rows');
      } else {
        InsertedLast(s.rows, s.nextId, pv, dest, ser);
        AppendKeeps(s, NewRow(s.nextId, pv, dest, ser));
      }
    }
  }

  lemma StoreKeeps(s: Store, d: Deed)
    requires StoreInv(s)
    ensures StoreInv(StoreAfter(s, d))
  {
    match d
    case Request(pv, dest, ser) => InsertKeeps(s, pv, dest, ser);
    case Next(name) => NextKeeps(s, name);
    case Decision(o, timeout) =>
      if s.hand.Some? && s.hand.value.ToDecide? {
        var r := s.hand.value.row;
        WithoutFewer(s.rows, r.pv, r.dest);
        FewerKeeps(s, WithoutPair(s.rows, r.pv, r.dest));
      }
    case Stamping =>
      if s.hand.Some? && s.hand.value.ToStamp? {
        SameRowsFewer(s.rows, StampedAt(s.rows, s.hand.value.row.id, s.hand.value.stamp));
        FewerKeeps(s, StampedAt(s.rows, s.hand.value.row.id, s.hand.value.stamp));
      }
    case Marking =>
      if s.hand.Some? && s.hand.value.ToMark? {
        SameRowsFewer(s.rows, MarkedAt(s.rows, s.hand.value.row.id));
        FewerKeeps(s, MarkedAt(s.rows, s.hand.value.row.id));
      }
    case EndOfRound =>
      SameRowsFewer(s.rows, Unprocessed(s.rows));
      FewerKeeps(s, Unprocessed(s.rows));
  }

  lemma NextKeeps(s: Store, name: string)
    requires StoreInv(s)
    ensures StoreInv(StoreAfter(s, Next(name)))
  {
    if s.hand.None? && Pending(s.rows, name) != [] {
      PendingAre(s.rows, name);
      assert Pending(s.rows, name)[0] in Pending(s.rows, name);
    }
  }

  lemma {:induction false} StoreRuns(deeds: seq<Deed>)
    ensures StoreInv(StoreAt(deeds))
  {
    if deeds != [] {
      StoreRuns(deeds[..|deeds| - 1]);
      StoreKeeps(StoreAt(deeds[..|deeds| - 1]), deeds[|deeds| - 1]);
    }
  }

  /**
    Whatever requests, sections of visits and ends of rounds come in what order: what the store says of a
    monitor is what its own history makes of it. So the results about histories are about the store.
   */
  lemma {:induction false} StoreIsHistory(deeds: seq<Deed>, pv: string, dest: string)
    ensures MonitorOf(StoreAt(deeds), pv, dest) == At(StepsOf(deeds, pv, dest), |StepsOf(deeds, pv, dest)|)
  {
    if deeds != [] {
      var n := |deeds| - 1;
      StoreIsHistory(deeds[..n], pv, dest);
      StoreRuns(deeds[..n]);
      DeedIsStep(StoreAt(deeds[..n]), deeds[n], pv, dest);
      HistoryGrows(StepsOf(deeds[..n], pv, dest), StepOf(StoreAt(deeds[..n]), deeds[n], pv, dest));
    }
  }

  lemma HistoryGrows(steps: seq<Step>, step: Option<Step>)
    ensures var steps' := steps + if step.Some? then [step.value] else [];
            At(steps', |steps'|) == if step.Some? then MonitorAfter(At(steps, |steps|), step.value) else At(steps, |steps|)
  {
    if step.Some? {
      AtPrefix(steps, [step.value], |steps|);
    } else {
      assert steps + [] == steps;
    }
  }
}
