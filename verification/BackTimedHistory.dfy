/** Whole histories of a back-timed operation: what becomes of every event, and which PVs are reported silent. */
module BackTimedHistory {
  import opened Types
  import opened TimeWindowBuffer
  import opened BackTimedBuffer

  /**
    An event arrives; a pass of the scheduler thread, whose clock was read at `now` and whose buffers
    change places at `at`; a stop or a trigger command.
   */
  datatype Act = Add(e: MonitorEvent, at: int) | Poll(now: int, at: int) | Stop | Trigger

  datatype Note = Heard(pv: string) | WindowEnd

  /**
    An operation with the record of its history: all events pushed, the periods between two swaps, the
    batches delivered, with the parts they came with and the clock of the pass, when PVs were heard and
    full windows ended, and the latest report of silent PVs.
   */
  datatype History = History(
    v: Timed,
    pushed: seq<Entry<MonitorEvent>>,
    periods: seq<seq<Entry<MonitorEvent>>>,
    current: seq<Entry<MonitorEvent>>,
    batches: seq<seq<MonitorEvent>>,
    parts: seq<Parts>,
    times: seq<int>,
    notes: seq<Note>,
    report: Option<set<string>>,
    clock: int,
    lastPoll: int,
    lastPollAt: int)

  function Created(triggered: bool, windowMs: int, subPushMs: int, pvs: set<string>, t0: int): History {
    History(
      Timed(triggered, false, true, t0, windowMs, FastExpire(windowMs, subPushMs), [], [], t0, false, false, pvs, pvs, None),
      [], [], [], [], [], [], [], None, t0, t0, t0)
  }

  /** Clock readings never go back; a pass reads the clock after the previous pass is over. */
  predicate Possible(h: History, a: Act) {
    match a
    case Add(_, at) => h.clock <= at
    case Poll(now, at) => h.lastPollAt <= now <= at && h.clock <= at
    case Stop => true
    case Trigger => true
  }

  function Play(h: History, a: Act): History {
    match a
    case Add(e, at) =>
      h.(v := Added(h.v, e, at), pushed := h.pushed + [Entry(at, e)], current := h.current + [Entry(at, e)],
         notes := h.notes + [Heard(e.pv)], clock := at)
    case Poll(now, at) =>
      var v1 := Polled(h.v, now);
      var h1 := h.(v := v1, clock := at, lastPoll := now, lastPollAt := at);
      if !Expires(h.v, now) then h1
      else
        var v2 := Fetched(v1);
        h1.(v := v2.(pending := None), batches := h.batches + [Events(v1.processing)],
            parts := h.parts + [FetchedParts(v1)], times := h.times + [now],
            periods := h.periods + [h.current], current := [],
            notes := if !h.v.triggered && FullExpiry(h.v, now) then h.notes + [WindowEnd] else h.notes,
            report := Some(SilentPvs(v2)))
    case Stop => h.(v := h.v.(running := false))
    case Trigger => h.(v := h.v.(requested := true))
  }

  /** h' is reached from h by the given acts. */
  ghost predicate Plays(h: History, acts: seq<Act>, h': History)
    decreases |acts|
  {
    if acts == [] then h' == h else Possible(h, acts[0]) && Plays(Play(h, acts[0]), acts[1..], h')
  }

  // ---------------------------------------------------------------- batches

  function Latest(c: seq<Entry<MonitorEvent>>, window: int): seq<Entry<MonitorEvent>> {
    Within(c, LastTime(c), window)
  }

  /** The time between the first and the last event. */
  function Span(c: seq<Entry<MonitorEvent>>): int {
    if c == [] then 0 else c[|c| - 1].timestamp - c[0].timestamp
  }

  function Flat<T>(s: seq<seq<T>>): seq<T> {
    if s == [] then [] else Flat(s[..|s| - 1]) + s[|s| - 1]
  }

  /** Every batch is what its period keeps of its window, and the acquiring buffer likewise. */
  ghost predicate BatchInv(h: History) {
    && h.v.windowMs >= 0
    && h.v.processing == []
    && h.pushed == Flat(h.periods) + h.current
    && Batched(h.periods, h.batches, h.v.WindowNs())
    && InTimeOrder(h.current)
    && h.v.acquiring == Latest(h.current, h.v.WindowNs())
    && (h.current != [] ==> h.current[|h.current| - 1].timestamp <= h.clock)
  }

  lemma BatchAdd(h: History, e: MonitorEvent, at: int)
    requires BatchInv(h) && Possible(h, Add(e, at))
    ensures BatchInv(Play(h, Add(e, at)))
  {
    AddKeepsOrder(h.current, Entry(at, e));
    PushKeepsTheWindow(h.current, Entry(at, e), h.v.WindowNs());
    assert Flat(h.periods) + (h.current + [Entry(at, e)]) == Flat(h.periods) + h.current + [Entry(at, e)];
  }

  lemma BatchPoll(h: History, now: int, at: int)
    requires BatchInv(h) && Possible(h, Poll(now, at))
    ensures BatchInv(Play(h, Poll(now, at)))
  {
    if Expires(h.v, now) {
      OneMorePeriod(h.periods, h.current, h.batches, h.v.WindowNs());
    }
  }

  /** Every batch is what the window keeps of its period. */
  ghost predicate Batched(periods: seq<seq<Entry<MonitorEvent>>>, batches: seq<seq<MonitorEvent>>, window: int) {
    && |batches| == |periods|
    && forall k :: 0 <= k < |periods| ==>
         InTimeOrder(periods[k]) && batches[k] == Events(Latest(periods[k], window))
  }

  lemma OneMorePeriod(periods: seq<seq<Entry<MonitorEvent>>>, current: seq<Entry<MonitorEvent>>,
                      batches: seq<seq<MonitorEvent>>, window: int)
    requires Batched(periods, batches, window) && InTimeOrder(current)
    ensures Batched(periods + [current], batches + [Events(Latest(current, window))], window)
    ensures Flat(periods + [current]) == Flat(periods) + current
  {
    var periods', batches' := periods + [current], batches + [Events(Latest(current, window))];
    assert periods'[..|periods|] == periods;
    forall k | 0 <= k < |periods'| ensures InTimeOrder(periods'[k]) && batches'[k] == Events(Latest(periods'[k], window)) {
      assert k < |periods| ==> periods'[k] == periods[k] && batches'[k] == batches[k];
    }
  }

  lemma BatchStep(h: History, a: Act)
    requires BatchInv(h) && Possible(h, a)
    ensures BatchInv(Play(h, a)) && Play(h, a).v.windowMs == h.v.windowMs
  {
    match a
    case Add(e, at) => BatchAdd(h, e, at);
    case Poll(now, at) => BatchPoll(h, now, at);
    case Stop =>
    case Trigger =>
  }

  lemma AddKeepsOrder(c: seq<Entry<MonitorEvent>>, e: Entry<MonitorEvent>)
    requires InTimeOrder(c) && (c != [] ==> c[|c| - 1].timestamp <= e.timestamp)
    ensures InTimeOrder(c + [e])
  {
    forall i | 0 <= i < |c| ensures c[i].timestamp <= e.timestamp {
      assert i < |c| - 1 ==> c[i].timestamp <= c[|c| - 1].timestamp;
    }
  }

  lemma {:induction false} BatchesOf(h: History, acts: seq<Act>, h': History)
    requires BatchInv(h) && Plays(h, acts, h')
    ensures BatchInv(h') && h'.v.windowMs == h.v.windowMs
    decreases |acts|
  {
    if acts != [] {
      BatchStep(h, acts[0]);
      BatchesOf(Play(h, acts[0]), acts[1..], h');
    }
  }

  /** What Within keeps of entries in time order is a suffix, and it is everything exactly when they fit. */
  lemma {:induction false} LatestIsSuffix(c: seq<Entry<MonitorEvent>>, window: int)
    requires InTimeOrder(c) && window >= 0
    ensures |Latest(c, window)| <= |c| && Latest(c, window) == c[|c| - |Latest(c, window)|..]
    ensures |Latest(c, window)| == |c| <==> Span(c) <= window
  {
    SuffixAt(c, LastTime(c), window);
    if c != [] && Span(c) <= window {
      forall i | 0 <= i < |c| ensures LastTime(c) - c[i].timestamp <= window {
        assert i > 0 ==> c[0].timestamp <= c[i].timestamp;
      }
      AllWithin(c, LastTime(c), window);
    }
  }

  lemma {:induction false} SuffixAt(c: seq<Entry<MonitorEvent>>, now: int, window: int)
    requires InTimeOrder(c)
    ensures |Within(c, now, window)| <= |c| && Within(c, now, window) == c[|c| - |Within(c, now, window)|..]
    ensures |Within(c, now, window)| == |c| && c != [] ==> now - c[0].timestamp <= window
  {
    if c != [] {
      SuffixAt(c[1..], now, window);
      if now - c[0].timestamp <= window {
        forall i | 0 <= i < |c| ensures now - c[i].timestamp <= window {
          assert i > 0 ==> c[0].timestamp <= c[i].timestamp;
        }
        AllWithin(c, now, window);
      } else {
        assert Within(c, now, window) == Within(c[1..], now, window);
      }
    }
  }

  // ---------------------------------------------------------------- nothing twice, nothing out of order, nothing lost

  /** The events delivered so far and those still waiting, in order. */
  function Accounted(h: History): seq<MonitorEvent> {
    Flat(h.batches) + Events(h.v.acquiring)
  }

  ghost predicate SpansFit(h: History) {
    && Span(h.current) <= h.v.WindowNs()
    && forall k :: 0 <= k < |h.periods| ==> Span(h.periods[k]) <= h.v.WindowNs()
  }

  lemma BatchesAreSuffixes(h: History)
    requires BatchInv(h)
    ensures forall k :: 0 <= k < |h.periods| ==> IsSuffix(h.batches[k], Events(h.periods[k]))
    ensures IsSuffix(Events(h.v.acquiring), Events(h.current))
  {
    forall k | 0 <= k < |h.periods| ensures IsSuffix(h.batches[k], Events(h.periods[k])) {
      LatestIsSuffix(h.periods[k], h.v.WindowNs());
    }
    LatestIsSuffix(h.current, h.v.WindowNs());
  }

  /**
    Every event is delivered at most once and in push order: a batch is a suffix of what was pushed
    between two swaps. Nothing is lost exactly when no period is longer than the window.
   */
  lemma Conservation(triggered: bool, windowMs: int, subPushMs: int, pvs: set<string>, t0: int, acts: seq<Act>, h: History)
    requires windowMs >= 0 && Plays(Created(triggered, windowMs, subPushMs, pvs, t0), acts, h)
    ensures h.pushed == Flat(h.periods) + h.current
    ensures |h.batches| == |h.periods|
    ensures forall k :: 0 <= k < |h.periods| ==> IsSuffix(h.batches[k], Events(h.periods[k]))
    ensures IsSuffix(Events(h.v.acquiring), Events(h.current))
    ensures Accounted(h) == Events(h.pushed) <==> SpansFit(h)
  {
    BatchesOf(Created(triggered, windowMs, subPushMs, pvs, t0), acts, h);
    BatchesAreSuffixes(h);
    LosslessIff(h);
  }

  ghost predicate IsSuffix<T>(a: seq<T>, b: seq<T>) {
    |a| <= |b| && a == b[|b| - |a|..]
  }

  lemma EventsConcat(a: seq<Entry<MonitorEvent>>, b: seq<Entry<MonitorEvent>>)
    ensures Events(a + b) == Events(a) + Events(b)
  {
  }

  /** Lengths decide: nothing is missing exactly when every part is as long as what was pushed. */
  lemma {:induction false} FlatLengths(batches: seq<seq<MonitorEvent>>, periods: seq<seq<Entry<MonitorEvent>>>)
    requires |batches| == |periods|
    requires forall k :: 0 <= k < |periods| ==> IsSuffix(batches[k], Events(periods[k]))
    ensures |Flat(batches)| <= |Flat(periods)|
    ensures |Flat(batches)| == |Flat(periods)| <==> forall k :: 0 <= k < |periods| ==> |batches[k]| == |periods[k]|
    ensures |Flat(batches)| == |Flat(periods)| ==> Flat(batches) == Events(Flat(periods))
  {
    if periods != [] {
      var n := |periods| - 1;
      FlatLengths(batches[..n], periods[..n]);
      EventsConcat(Flat(periods[..n]), periods[n]);
      assert IsSuffix(batches[n], Events(periods[n]));
      FlatEnds(batches, periods);
    }
  }

  lemma FlatEnds(batches: seq<seq<MonitorEvent>>, periods: seq<seq<Entry<MonitorEvent>>>)
    requires |batches| == |periods| > 0
    ensures var n := |periods| - 1;
            (forall k :: 0 <= k < |periods| ==> |batches[k]| == |periods[k]|)
            <==> (|batches[n]| == |periods[n]| && forall k :: 0 <= k < n ==> |batches[..n][k]| == |periods[..n][k]|)
  {
    var n := |periods| - 1;
    if forall k :: 0 <= k < n ==> |batches[..n][k]| == |periods[..n][k]| {
      forall k | 0 <= k < n ensures |batches[k]| == |periods[k]| {
        assert |batches[..n][k]| == |periods[..n][k]|;
      }
    }
  }

  lemma LosslessIff(h: History)
    requires BatchInv(h)
    ensures Accounted(h) == Events(h.pushed) <==> SpansFit(h)
  {
    var w := h.v.WindowNs();
    forall k | 0 <= k < |h.periods|
      ensures IsSuffix(h.batches[k], Events(h.periods[k])) && (|h.batches[k]| == |h.periods[k]| <==> Span(h.periods[k]) <= w)
    {
      LatestIsSuffix(h.periods[k], w);
    }
    LatestIsSuffix(h.current, w);
    FlatLengths(h.batches, h.periods);
    EventsConcat(Flat(h.periods), h.current);
    assert |h.v.acquiring| == |h.current| <==> Span(h.current) <= w;
    assert |Accounted(h)| == |Flat(h.batches)| + |h.v.acquiring|;
  }

  // ---------------------------------------------------------------- when passes come often enough

  /** No more than gap passes between reading the clock in one pass and anything up to the next. */
  ghost predicate Frequent(h: History, acts: seq<Act>, gap: int)
    decreases |acts|
  {
    acts != [] ==>
      && (acts[0].Add? || acts[0].Poll? ==> acts[0].at - h.lastPoll <= gap)
      && Frequent(Play(h, acts[0]), acts[1..], gap)
  }

  /** Since the last swap at most a sub-window and a gap have passed, and all current events are newer. */
  ghost predicate PaceInv(h: History, gap: int) {
    && !h.v.triggered
    && h.v.lastForced <= h.lastPoll <= h.lastPollAt <= h.clock
    && (h.v.lastForced == h.lastPoll || h.lastPoll - h.v.lastForced < h.v.fastMs * NS_PER_MS)
    && (forall i :: 0 <= i < |h.current| ==> h.v.lastForced <= h.current[i].timestamp)
    && Span(h.current) <= h.v.WindowNs()
    && h.v.fastMs >= 0
    && h.v.fastMs * NS_PER_MS + gap <= h.v.WindowNs()
    && forall k :: 0 <= k < |h.periods| ==> Span(h.periods[k]) <= h.v.WindowNs()
  }

  lemma PaceStep(h: History, a: Act, gap: int)
    requires BatchInv(h) && PaceInv(h, gap) && Possible(h, a)
    requires a.Add? || a.Poll? ==> a.at - h.lastPoll <= gap
    ensures PaceInv(Play(h, a), gap)
  {
    var h' := Play(h, a);
    match a
    case Add(e, at) =>
      assert h'.current[0] == if h.current == [] then Entry(at, e) else h.current[0];
    case Poll(now, at) =>
      if Expires(h.v, now) {
        forall k | 0 <= k < |h'.periods| ensures Span(h'.periods[k]) <= h.v.WindowNs() {
          assert k < |h.periods| ==> h'.periods[k] == h.periods[k];
        }
      }
    case _ =>
  }

  lemma {:induction false} PaceKeeps(h: History, acts: seq<Act>, h': History, gap: int)
    requires BatchInv(h) && PaceInv(h, gap) && Plays(h, acts, h') && Frequent(h, acts, gap)
    ensures BatchInv(h') && PaceInv(h', gap)
    decreases |acts|
  {
    if acts != [] {
      BatchStep(h, acts[0]);
      PaceStep(h, acts[0], gap);
      PaceKeeps(Play(h, acts[0]), acts[1..], h', gap);
    }
  }

  /** A timed operation polled often enough loses nothing. */
  lemma LosslessWhenFrequent(windowMs: int, subPushMs: int, pvs: set<string>, t0: int, acts: seq<Act>, h: History, gap: int)
    requires windowMs > 0
    requires FastExpire(windowMs, subPushMs) * NS_PER_MS + gap <= windowMs * NS_PER_MS
    requires Plays(Created(false, windowMs, subPushMs, pvs, t0), acts, h)
    requires Frequent(Created(false, windowMs, subPushMs, pvs, t0), acts, gap)
    ensures Accounted(h) == Events(h.pushed)
  {
    FastExpireInWindow(windowMs, subPushMs);
    PaceKeeps(Created(false, windowMs, subPushMs, pvs, t0), acts, h, gap);
    LosslessIff(h);
  }

  // ---------------------------------------------------------------- silent PVs

  /** The PV has been heard since the last full window ended (or since the start). */
  ghost predicate HeardLately(notes: seq<Note>, pv: string) {
    exists i :: 0 <= i < |notes| && notes[i] == Heard(pv) && WindowEnd !in notes[i..]
  }

  ghost predicate SilentInv(h: History) {
    && h.v.pending.None?
    && forall pv :: pv in h.v.silent <==> pv in h.v.allPvs && !HeardLately(h.notes, pv)
  }

  lemma NoteHeard(notes: seq<Note>, name: string, pv: string)
    ensures HeardLately(notes + [Heard(name)], pv) <==> HeardLately(notes, pv) || pv == name
  {
    var notes' := notes + [Heard(name)];
    if HeardLately(notes, pv) {
      var i :| 0 <= i < |notes| && notes[i] == Heard(pv) && WindowEnd !in notes[i..];
      assert notes'[i..] == notes[i..] + [Heard(name)];
      assert notes'[i] == Heard(pv);
    }
    if pv == name {
      assert notes'[|notes|] == Heard(pv) && notes'[|notes|..] == [Heard(pv)];
    }
    if HeardLately(notes', pv) && pv != name {
      var i :| 0 <= i < |notes'| && notes'[i] == Heard(pv) && WindowEnd !in notes'[i..];
      assert i < |notes| && notes'[i..] == notes[i..] + [Heard(name)];
      assert notes[i] == Heard(pv);
    }
  }

  lemma NoteEnd(notes: seq<Note>, pv: string)
    ensures !HeardLately(notes + [WindowEnd], pv)
  {
    var notes' := notes + [WindowEnd];
    forall i | 0 <= i < |notes'| && notes'[i] == Heard(pv) ensures WindowEnd in notes'[i..] {
      assert notes'[i..][|notes| - i] == WindowEnd;
    }
  }

  lemma SilentStep(h: History, a: Act)
    requires SilentInv(h)
    ensures SilentInv(Play(h, a)) && Play(h, a).v.allPvs == h.v.allPvs
  {
    match a
    case Add(e, at) => SilentAdd(h, e, at);
    case Poll(now, at) => SilentPass(h, now, at);
    case _ =>
  }

  lemma SilentAdd(h: History, e: MonitorEvent, at: int)
    requires SilentInv(h)
    ensures SilentInv(Play(h, Add(e, at))) && Play(h, Add(e, at)).v.allPvs == h.v.allPvs
  {
    forall pv ensures HeardLately(h.notes + [Heard(e.pv)], pv) <==> HeardLately(h.notes, pv) || pv == e.pv {
      NoteHeard(h.notes, e.pv, pv);
    }
  }

  lemma SilentPass(h: History, now: int, at: int)
    requires SilentInv(h)
    ensures SilentInv(Play(h, Poll(now, at))) && Play(h, Poll(now, at)).v.allPvs == h.v.allPvs
  {
    forall pv ensures !HeardLately(h.notes + [WindowEnd], pv) {
      NoteEnd(h.notes, pv);
    }
  }

  lemma {:induction false} SilentKeeps(h: History, acts: seq<Act>, h': History)
    requires SilentInv(h) && Plays(h, acts, h')
    ensures SilentInv(h') && h'.v.allPvs == h.v.allPvs
    decreases |acts|
  {
    if acts != [] {
      SilentStep(h, acts[0]);
      SilentKeeps(Play(h, acts[0]), acts[1..], h');
    }
  }

  /**
    The list a pass reports is exactly the PVs given to init that have not been heard since the last
    full window ended before this pass; in triggered mode no window ends, so it is since init.
   */
  lemma SilentReport(triggered: bool, windowMs: int, subPushMs: int, pvs: set<string>, t0: int,
                     acts: seq<Act>, h: History, now: int, at: int)
    requires Plays(Created(triggered, windowMs, subPushMs, pvs, t0), acts, h) && Expires(h.v, now)
    ensures Play(h, Poll(now, at)).report.Some?
    ensures forall pv :: pv in Play(h, Poll(now, at)).report.value <==> pv in pvs && !HeardLately(h.notes, pv)
    ensures triggered ==> WindowEnd !in h.notes
  {
    SilentKeeps(Created(triggered, windowMs, subPushMs, pvs, t0), acts, h);
    if triggered {
      NoWindowEnds(Created(triggered, windowMs, subPushMs, pvs, t0), acts, h);
    }
  }

  lemma {:induction false} NoWindowEnds(h: History, acts: seq<Act>, h': History)
    requires Plays(h, acts, h') && h.v.triggered && WindowEnd !in h.notes
    ensures WindowEnd !in h'.notes
    decreases |acts|
  {
    if acts != [] {
      NoWindowEnds(Play(h, acts[0]), acts[1..], h');
    }
  }

  // ---------------------------------------------------------------- when passes collect, and what

  /** The clock of the last batch with a tail, which ends a window, or the start. */
  function LastEnd(parts: seq<Parts>, times: seq<int>, t0: int): int
    requires |parts| == |times|
  {
    if parts == [] then t0
    else if parts[|parts| - 1].tail then times[|times| - 1]
    else LastEnd(parts[..|parts| - 1], times[..|times| - 1], t0)
  }

  /** The clock of the last batch, or the start. */
  function LastBatch(times: seq<int>, t0: int): int {
    if times == [] then t0 else times[|times| - 1]
  }

  /** A trigger has come since the last pass. */
  ghost predicate TriggerPending(acts: seq<Act>) {
    exists i :: 0 <= i < |acts| && acts[i].Trigger? && forall j :: i < j < |acts| ==> !acts[j].Poll?
  }

  ghost predicate NoPoll(acts: seq<Act>) {
    forall i :: 0 <= i < |acts| ==> !acts[i].Poll?
  }

  lemma PendingFrom(acts: seq<Act>)
    requires acts != []
    ensures TriggerPending(acts) <==> TriggerPending(acts[1..]) || (acts[0].Trigger? && NoPoll(acts[1..]))
    ensures NoPoll(acts) <==> !acts[0].Poll? && NoPoll(acts[1..])
  {
    var rest := acts[1..];
    assert forall i :: 0 <= i < |rest| ==> rest[i] == acts[i + 1];
    if TriggerPending(rest) {
      var i :| 0 <= i < |rest| && rest[i].Trigger? && forall j :: i < j < |rest| ==> !rest[j].Poll?;
      assert acts[i + 1].Trigger? && forall j :: i + 1 < j < |acts| ==> !acts[j].Poll? by {
        forall j | i + 1 < j < |acts| ensures !acts[j].Poll? {
          assert rest[j - 1] == acts[j];
        }
      }
    }
    if TriggerPending(acts) {
      var i :| 0 <= i < |acts| && acts[i].Trigger? && forall j :: i < j < |acts| ==> !acts[j].Poll?;
      if i > 0 {
        assert rest[i - 1].Trigger? && forall j :: i - 1 < j < |rest| ==> !rest[j].Poll?;
      }
    }
    if NoPoll(rest) {
      forall i | 0 < i < |acts| ensures !acts[i].Poll? {
        assert rest[i - 1] == acts[i];
      }
    }
  }

  /** The operation runs until it is stopped, and a trigger is pending until the next pass. */
  lemma {:induction false} FlagsAre(h: History, acts: seq<Act>, h': History)
    requires Plays(h, acts, h')
    ensures h'.v.running <==> h.v.running && Stop !in acts
    ensures h'.v.triggered == h.v.triggered
    ensures h.v.triggered ==> (h'.v.requested <==> TriggerPending(acts) || (h.v.requested && NoPoll(acts)))
    decreases |acts|
  {
    if acts != [] {
      FlagsAre(Play(h, acts[0]), acts[1..], h');
      PendingFrom(acts);
      assert Stop in acts <==> acts[0] == Stop || Stop in acts[1..];
    }
  }

  /** The window began with the last tail, the sub-window with the last batch, and a header is due after a tail. */
  ghost predicate TimesInv(h: History, t0: int, windowMs: int, fastMs: int) {
    && |h.parts| == |h.times| == |h.batches|
    && h.v.windowMs == windowMs && h.v.fastMs == fastMs
    && (h.v.headerSent <==> h.parts != [] && !h.parts[|h.parts| - 1].tail)
    && (!h.v.triggered && h.v.running ==> h.v.begin == LastEnd(h.parts, h.times, t0) && h.v.lastForced == LastBatch(h.times, t0))
  }

  lemma TimesPass(h: History, now: int, at: int, t0: int, windowMs: int, fastMs: int)
    requires TimesInv(h, t0, windowMs, fastMs) && Expires(h.v, now)
    ensures TimesInv(Play(h, Poll(now, at)), t0, windowMs, fastMs)
  {
    BatchTimes(h, now, at, t0);
    var h' := Play(h, Poll(now, at));
    assert h'.parts[|h'.parts| - 1] == FetchedParts(Polled(h.v, now)) && LastBatch(h'.times, t0) == now;
  }

  /** Nothing else changes what matters here. */
  lemma TimesOther(h: History, a: Act)
    requires a.Poll? ==> !Expires(h.v, a.now)
    ensures var h' := Play(h, a);
            && h'.parts == h.parts && h'.times == h.times && |h'.batches| == |h.batches|
            && h'.v.headerSent == h.v.headerSent && h'.v.begin == h.v.begin && h'.v.lastForced == h.v.lastForced
            && (h'.v.running ==> h.v.running) && h'.v.triggered == h.v.triggered
            && h'.v.windowMs == h.v.windowMs && h'.v.fastMs == h.v.fastMs
  {
  }

  lemma TimesStep(h: History, a: Act, t0: int, windowMs: int, fastMs: int)
    requires TimesInv(h, t0, windowMs, fastMs)
    ensures TimesInv(Play(h, a), t0, windowMs, fastMs)
  {
    if a.Poll? && Expires(h.v, a.now) {
      TimesPass(h, a.now, a.at, t0, windowMs, fastMs);
    } else {
      TimesOther(h, a);
    }
  }

  lemma BatchTimes(h: History, now: int, at: int, t0: int)
    requires |h.parts| == |h.times| && Expires(h.v, now)
    ensures var h', parts := Play(h, Poll(now, at)), FetchedParts(Polled(h.v, now));
            && h'.parts == h.parts + [parts] && h'.times == h.times + [now] && |h'.batches| == |h.batches| + 1
            && h'.v.headerSent == !parts.tail && parts.tail == FullExpiry(h.v, now)
            && LastEnd(h'.parts, h'.times, t0) == (if parts.tail then now else LastEnd(h.parts, h.times, t0))
            && h'.v.running == h.v.running && h'.v.triggered == h.v.triggered
            && h'.v.windowMs == h.v.windowMs && h'.v.fastMs == h.v.fastMs
            && (!h.v.triggered ==> h'.v.lastForced == now)
            && (!h.v.triggered && h.v.running ==> h'.v.begin == if parts.tail then now else h.v.begin)
  {
    var h', parts := Play(h, Poll(now, at)), FetchedParts(Polled(h.v, now));
    assert h'.parts == h.parts + [parts] && h'.times == h.times + [now];
    assert h'.parts[..|h.parts|] == h.parts && h'.times[..|h.times|] == h.times;
  }

  lemma {:induction false} TimesKeep(h: History, acts: seq<Act>, h': History, t0: int, windowMs: int, fastMs: int)
    requires TimesInv(h, t0, windowMs, fastMs) && Plays(h, acts, h')
    ensures TimesInv(h', t0, windowMs, fastMs)
    decreases |acts|
  {
    if acts != [] {
      TimesStep(h, acts[0], t0, windowMs, fastMs);
      TimesKeep(Play(h, acts[0]), acts[1..], h', t0, windowMs, fastMs);
    }
  }

  /** The pass collects a batch, with those parts; or nothing. */
  ghost predicate Collects(h: History, h': History, now: int, parts: Parts) {
    && h'.times == h.times + [now] && h'.parts == h.parts + [parts] && |h'.batches| == |h.batches| + 1
    && h'.batches[..|h.batches|] == h.batches
  }

  ghost predicate CollectsNothing(h: History, h': History) {
    h'.times == h.times && h'.parts == h.parts && h'.batches == h.batches
  }

  /** A batch has a header exactly if it is the first or follows a tail, and a data part exactly if it has events. */
  ghost predicate PartsFit(h: History, h': History, parts: Parts)
    requires h'.batches != []
  {
    && (parts.header <==> h.parts == [] || h.parts[|h.parts| - 1].tail)
    && (parts.data <==> h'.batches[|h'.batches| - 1] != [])
  }

  lemma PollCollects(h: History, now: int, at: int)
    ensures var h' := Play(h, Poll(now, at));
            if Expires(h.v, now) then
              exists parts :: Collects(h, h', now, parts) && (parts.tail <==> FullExpiry(h.v, now)) && (parts.header <==> !h.v.headerSent)
                && (parts.data <==> h'.batches[|h'.batches| - 1] != [])
            else CollectsNothing(h, h')
  {
    var h' := Play(h, Poll(now, at));
    if Expires(h.v, now) {
      var parts := FetchedParts(Polled(h.v, now));
      assert h'.parts == h.parts + [parts];
      assert Events(Polled(h.v, now).processing) == [] <==> Polled(h.v, now).processing == [];
      assert Collects(h, h', now, parts);
    }
  }

  /** The sub-window: what the command asks for, or one second, but not longer than the window. */
  function SubWindowMs(windowMs: int, subPushMs: int): int {
    var wanted := if subPushMs > 0 then subPushMs else 1000;
    if wanted < windowMs then wanted else windowMs
  }

  lemma SubWindow(windowMs: int, subPushMs: int, d: int)
    requires windowMs > 0
    ensures FastExpire(windowMs, subPushMs) == SubWindowMs(windowMs, subPushMs) > 0
    ensures Millis(d) >= FastExpire(windowMs, subPushMs) <==> d >= SubWindowMs(windowMs, subPushMs) * NS_PER_MS
  {
    var f := SubWindowMs(windowMs, subPushMs);
    if d >= 0 {
      assert d == Millis(d) * NS_PER_MS + d % NS_PER_MS;
    }
  }

  /** Does the next pass of a running operation collect, and does it end the window? In terms of what was collected before. */
  ghost predicate WindowEnds(h: History, acts: seq<Act>, windowMs: int, t0: int, now: int)
    requires |h.parts| == |h.times|
  {
    if h.v.triggered then TriggerPending(acts) else now - LastEnd(h.parts, h.times, t0) > windowMs * NS_PER_MS
  }

  ghost predicate SubWindowEnds(h: History, windowMs: int, subPushMs: int, t0: int, now: int) {
    !h.v.triggered && now - LastBatch(h.times, t0) >= SubWindowMs(windowMs, subPushMs) * NS_PER_MS
  }

  /**
    What every pass does, in any history. After a stop it collects a batch with a tail. Before, it ends
    a window, and collects a batch with a tail, exactly if a trigger has come since the last pass or, in
    timed mode, if more than the window has passed since the last tail or the start; in timed mode it
    collects a batch without a tail exactly if, otherwise, a sub-window has passed since the last batch.
   */
  lemma PassIff(triggered: bool, windowMs: int, subPushMs: int, pvs: set<string>, t0: int, acts: seq<Act>, h: History, now: int, at: int)
    requires windowMs > 0 && Plays(Created(triggered, windowMs, subPushMs, pvs, t0), acts, h)
    ensures |h.parts| == |h.times| && h.v.triggered == triggered
    ensures var h' := Play(h, Poll(now, at));
            var ends := Stop in acts || WindowEnds(h, acts, windowMs, t0, now);
            if ends || SubWindowEnds(h, windowMs, subPushMs, t0, now) then
              exists parts :: Collects(h, h', now, parts) && (parts.tail <==> ends) && PartsFit(h, h', parts)
            else CollectsNothing(h, h')
  {
    var h0 := Created(triggered, windowMs, subPushMs, pvs, t0);
    FlagsAre(h0, acts, h);
    TimesKeep(h0, acts, h, t0, windowMs, FastExpire(windowMs, subPushMs));
    SubWindow(windowMs, subPushMs, now - LastBatch(h.times, t0));
    PollCollects(h, now, at);
    assert FullExpiry(h.v, now) <==> Stop in acts || WindowEnds(h, acts, windowMs, t0, now);
    if Expires(h.v, now) {
      var h' := Play(h, Poll(now, at));
      var parts :| Collects(h, h', now, parts) && (parts.tail <==> FullExpiry(h.v, now)) && (parts.header <==> !h.v.headerSent)
        && (parts.data <==> h'.batches[|h'.batches| - 1] != []);
      assert PartsFit(h, h', parts);
    }
  }

  /** Every tail comes more than the window after the tail before it, or the start. */
  ghost predicate TailsApart(parts: seq<Parts>, times: seq<int>, t0: int, windowMs: int)
    requires |parts| == |times|
  {
    forall k :: 0 <= k < |parts| && parts[k].tail ==> times[k] - LastEnd(parts[..k], times[..k], t0) > windowMs * NS_PER_MS
  }

  lemma TailsStep(h: History, a: Act, t0: int, windowMs: int, fastMs: int)
    requires TimesInv(h, t0, windowMs, fastMs) && !h.v.triggered && h.v.running && TailsApart(h.parts, h.times, t0, windowMs)
    ensures var h' := Play(h, a); |h'.parts| == |h'.times| && TailsApart(h'.parts, h'.times, t0, windowMs)
  {
    if a.Poll? && Expires(h.v, a.now) {
      BatchTimes(h, a.now, a.at, t0);
      var h' := Play(h, a);
      forall k | 0 <= k < |h'.parts| && h'.parts[k].tail
        ensures h'.times[k] - LastEnd(h'.parts[..k], h'.times[..k], t0) > windowMs * NS_PER_MS
      {
        assert h'.parts[..k] == h.parts[..k] && h'.times[..k] == h.times[..k];
        assert h.parts[..|h.parts|] == h.parts && h.times[..|h.times|] == h.times;
      }
    } else {
      TimesOther(h, a);
    }
  }

  /** A timed operation, as long as it runs. */
  ghost predicate ApartInv(h: History, t0: int, windowMs: int, fastMs: int) {
    && TimesInv(h, t0, windowMs, fastMs) && !h.v.triggered
    && (h.v.running ==> TailsApart(h.parts, h.times, t0, windowMs))
  }

  lemma ApartStep(h: History, a: Act, t0: int, windowMs: int, fastMs: int)
    requires ApartInv(h, t0, windowMs, fastMs)
    ensures ApartInv(Play(h, a), t0, windowMs, fastMs)
  {
    TimesStep(h, a, t0, windowMs, fastMs);
    NeverRestarts(h, a);
    if h.v.running {
      TailsStep(h, a, t0, windowMs, fastMs);
    }
  }

  lemma NeverRestarts(h: History, a: Act)
    ensures (Play(h, a).v.running ==> h.v.running) && Play(h, a).v.triggered == h.v.triggered
  {
  }

  lemma {:induction false} TailsKeep(h: History, acts: seq<Act>, h': History, t0: int, windowMs: int, fastMs: int)
    requires ApartInv(h, t0, windowMs, fastMs) && Plays(h, acts, h')
    ensures ApartInv(h', t0, windowMs, fastMs)
    decreases |acts|
  {
    if acts != [] {
      ApartStep(h, acts[0], t0, windowMs, fastMs);
      TailsKeep(Play(h, acts[0]), acts[1..], h', t0, windowMs, fastMs);
    }
  }

  /** In any history of a running timed operation the window is renewed: its tails lie more than the window apart. */
  lemma WindowsApart(windowMs: int, subPushMs: int, pvs: set<string>, t0: int, acts: seq<Act>, h: History)
    requires Plays(Created(false, windowMs, subPushMs, pvs, t0), acts, h) && Stop !in acts
    ensures |h.parts| == |h.times| && TailsApart(h.parts, h.times, t0, windowMs)
  {
    FlagsAre(Created(false, windowMs, subPushMs, pvs, t0), acts, h);
    TailsKeep(Created(false, windowMs, subPushMs, pvs, t0), acts, h, t0, windowMs, FastExpire(windowMs, subPushMs));
  }
}
