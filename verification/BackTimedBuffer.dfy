/**
  BackTimedBufferedSnapshotOpInfo: two time-window buffers that change places, so that events keep
  arriving while a batch is collected. Times are in nanoseconds of the steady clock.
 */
module BackTimedBuffer {
  import opened Types
  import opened TimeWindowBuffer

  const NS_PER_MS := 1_000_000
  const FAST_EXPIRE_TIME_MSEC := 1000
  const RESERVE := 1024
  const GROW := 2

  // ---------------------------------------------------------------- specification on values

  /** The fields that matter; `pending` is the list of silent PVs kept for the next query, if any. */
  datatype Timed = Timed(
    triggered: bool,
    requested: bool,
    running: bool,
    begin: int,
    windowMs: int,
    fastMs: int,
    acquiring: seq<Entry<MonitorEvent>>,
    processing: seq<Entry<MonitorEvent>>,
    lastForced: int,
    headerSent: bool,
    windowExpired: bool,
    allPvs: set<string>,
    silent: set<string>,
    pending: Option<set<string>>)
  {
    function WindowNs(): int {
      windowMs * NS_PER_MS
    }
  }

  /** The sub-window chosen by the constructor. */
  function FastExpire(windowMs: int, subPushMs: int): int {
    if subPushMs > 0 then
      if subPushMs < windowMs then subPushMs else if windowMs > 0 then windowMs else subPushMs
    else if windowMs > FAST_EXPIRE_TIME_MSEC then FAST_EXPIRE_TIME_MSEC
    else windowMs
  }

  lemma FastExpireInWindow(windowMs: int, subPushMs: int)
    requires windowMs > 0
    ensures 0 < FastExpire(windowMs, subPushMs) <= windowMs
    ensures 0 < subPushMs < windowMs ==> FastExpire(windowMs, subPushMs) == subPushMs
  {
  }

  /** duration_cast to milliseconds truncates toward zero. */
  function Millis(d: int): int {
    if d >= 0 then d / NS_PER_MS else -(-d / NS_PER_MS)
  }

  /** SnapshotOpInfo::isTimeout over WorkerAsyncOperation::isTimeout: does the full window end now? */
  predicate FullExpiry(v: Timed, now: int) {
    !v.running || if v.triggered then v.requested else now - v.begin > v.WindowNs()
  }

  function AfterFullCheck(v: Timed, now: int): Timed {
    if !v.running || v.triggered then v.(requested := false)
    else if now - v.begin > v.WindowNs() then v.(begin := now)
    else v
  }

  /** Does a pass at `now` collect a batch? */
  predicate Expires(v: Timed, now: int) {
    FullExpiry(v, now) || (!v.triggered && Millis(now - v.lastForced) >= v.fastMs)
  }

  function Swapped(v: Timed): Timed {
    v.(acquiring := v.processing, processing := v.acquiring)
  }

  /** isTimeout. */
  function Polled(v: Timed, now: int): Timed {
    var full := FullExpiry(v, now);
    var v1 := AfterFullCheck(v, now).(windowExpired := full);
    if !Expires(v, now) then v1
    else if v.triggered then Swapped(v1)
    else Swapped(v1.(lastForced := now,
                     pending := if full then Some(v.silent) else None,
                     silent := if full then v.allPvs else v.silent))
  }

  function Added(v: Timed, e: MonitorEvent, now: int): Timed {
    v.(acquiring := Pushed(v.acquiring, Entry(now, e), v.WindowNs()), silent := v.silent - {e.pv})
  }

  /** The parts getData reports. */
  function FetchedParts(v: Timed): Parts {
    TimedParts(v.headerSent, v.processing != [], v.windowExpired, v.running)
  }

  function Fetched(v: Timed): Timed {
    v.(processing := [], headerSent := !FetchedParts(v).tail)
  }

  /** What getPVsWithoutEvents answers. */
  function SilentPvs(v: Timed): set<string> {
    if v.pending.Some? then v.pending.value else v.silent
  }

  /** What getData hands over of a buffer: the events, each with its fields filtered if a field list is given. */
  function Delivered(filter: Option<MonitorEvent -> MonitorEvent>, c: seq<Entry<MonitorEvent>>): seq<MonitorEvent> {
    match filter
    case None => Events(c)
    case Some(keep) => seq(|c|, i requires 0 <= i < |c| => keep(c[i].event))
  }

  function Keeping(keep: MonitorEvent -> MonitorEvent): MonitorEvent -> Option<MonitorEvent> {
    (e: MonitorEvent) => Some(keep(e))
  }

  /** The filter of the fields drops no event. */
  lemma {:induction false} FilterKeepsAll(keep: MonitorEvent -> MonitorEvent, c: seq<Entry<MonitorEvent>>)
    ensures Mapped(c, Keeping(keep)) == Delivered(Some(keep), c)
  {
    if c != [] {
      var n := |c| - 1;
      FilterKeepsAll(keep, c[..n]);
      assert Delivered(Some(keep), c) == Delivered(Some(keep), c[..n]) + [keep(c[n].event)];
    }
  }

  // ---------------------------------------------------------------- the operation

  class BackTimedBufferedSnapshotOpInfo {
    const isTriggered: bool
    const windowMs: int
    const fastExpireMs: int
    /** filterPVField with the command's field list, when that is not empty. */
    const filter: Option<MonitorEvent -> MonitorEvent>
    var requestToTrigger: bool
    var isRunning: bool
    var begin: int
    var acquiringBuffer: TimeWindowEventBuffer<MonitorEvent>
    var processingBuffer: TimeWindowEventBuffer<MonitorEvent>
    var lastForcedExpire: int
    var headerSent: bool
    var winTimeExpired: bool
    var allPvs: set<string>
    var pvsNoEvents: set<string>
    var pendingPvs: set<string>
    var pendingReady: bool

    ghost predicate Valid()
      reads this, acquiringBuffer, processingBuffer
    {
      && acquiringBuffer != processingBuffer
      && acquiringBuffer.buffer != processingBuffer.buffer
      && acquiringBuffer.Valid() && processingBuffer.Valid()
      && acquiringBuffer.window == processingBuffer.window == windowMs * NS_PER_MS
    }

    ghost function Repr(): set<object>
      reads this, acquiringBuffer, processingBuffer
    {
      {this, acquiringBuffer, acquiringBuffer.buffer, processingBuffer, processingBuffer.buffer}
    }

    ghost function View(): Timed
      requires Valid()
      reads this, acquiringBuffer, acquiringBuffer.buffer, processingBuffer, processingBuffer.buffer
    {
      Timed(isTriggered, requestToTrigger, isRunning, begin, windowMs, fastExpireMs,
            acquiringBuffer.Contents(), processingBuffer.Contents(), lastForcedExpire, headerSent, winTimeExpired,
            allPvs, pvsNoEvents, if pendingReady then Some(pendingPvs) else None)
    }

    constructor (windowMs: int, subPushMs: int, triggered: bool, filter: Option<MonitorEvent -> MonitorEvent>, now: int)
      ensures this.filter == filter
      ensures Valid() && fresh(Repr())
      ensures View() == Timed(triggered, false, true, now, windowMs, FastExpire(windowMs, subPushMs), [], [], now,
                              false, false, {}, {}, None)
    {
      this.windowMs, isTriggered, this.filter := windowMs, triggered, filter;
      requestToTrigger, isRunning, begin := false, true, now;
      acquiringBuffer := new TimeWindowEventBuffer(windowMs * NS_PER_MS, RESERVE, GROW);
      processingBuffer := new TimeWindowEventBuffer(windowMs * NS_PER_MS, RESERVE, GROW);
      lastForcedExpire, headerSent, winTimeExpired := now, false, false;
      allPvs, pvsNoEvents, pendingPvs, pendingReady := {}, {}, {}, false;
      if subPushMs > 0 {
        if subPushMs < windowMs {
          fastExpireMs := subPushMs;
        } else {
          fastExpireMs := if windowMs > 0 then windowMs else subPushMs;
        }
      } else if windowMs > FAST_EXPIRE_TIME_MSEC {
        fastExpireMs := FAST_EXPIRE_TIME_MSEC;
      } else {
        fastExpireMs := windowMs;
      }
    }

    method InitPvs(names: seq<string>) returns (ok: bool)
      requires Valid()
      modifies this`allPvs, this`pvsNoEvents, this`pendingPvs, this`pendingReady
      ensures Valid() && ok
      ensures var all := set n | n in names; View() == old(View()).(allPvs := all, silent := all, pending := None)
    {
      allPvs := {};
      for i := 0 to |names|
        invariant allPvs == set n | n in names[..i]
      {
        allPvs := allPvs + {names[i]};
      }
      assert names[..|names|] == names;
      pvsNoEvents := allPvs;
      pendingPvs, pendingReady := {}, false;
      ok := true;
    }

    /** SnapshotOpInfo::isTimeout. */
    method SnapshotTimeout(now: int) returns (timeout: bool)
      requires Valid()
      modifies this`requestToTrigger, this`begin
      ensures Valid() && timeout == FullExpiry(old(View()), now)
      ensures View() == AfterFullCheck(old(View()), now)
    {
      if !isRunning {
        requestToTrigger := false;
        return true;
      }
      if isTriggered {
        timeout := requestToTrigger;
        requestToTrigger := false;
        return;
      }
      timeout := now - begin > windowMs * NS_PER_MS;
      if timeout {
        begin := now;
      }
    }

    method SwapBuffers()
      requires Valid()
      modifies this`acquiringBuffer, this`processingBuffer
      ensures Valid() && Repr() == old(Repr())
      ensures View() == Swapped(old(View()))
    {
      acquiringBuffer, processingBuffer := processingBuffer, acquiringBuffer;
    }

    /** The part of isTimeout that ends a full window or a sub-window in timed mode. */
    method EndWindow(now: int, expired: bool)
      requires Valid()
      modifies this`lastForcedExpire, this`pendingPvs, this`pendingReady, this`pvsNoEvents,
               this`acquiringBuffer, this`processingBuffer
      ensures Valid() && Repr() == old(Repr())
      ensures var v := old(View());
              View() == Swapped(v.(lastForced := now,
                                   pending := if expired then Some(v.silent) else None,
                                   silent := if expired then v.allPvs else v.silent))
    {
      KeepSilent(now, expired);
      SwapBuffers();
    }

    /** What EndWindow does besides the swap: the silent PVs of a full window are kept for the next query. */
    method KeepSilent(now: int, expired: bool)
      requires Valid()
      modifies this`lastForcedExpire, this`pendingPvs, this`pendingReady, this`pvsNoEvents
      ensures Valid()
      ensures var v := old(View());
              View() == v.(lastForced := now,
                           pending := if expired then Some(v.silent) else None,
                           silent := if expired then v.allPvs else v.silent)
    {
      lastForcedExpire := now;
      if expired {
        pendingPvs, pendingReady := pvsNoEvents, true;
        OnWindowTimeout();
      } else {
        pendingPvs, pendingReady := {}, false;
      }
    }

    method IsTimeout(now: int) returns (timeout: bool)
      requires Valid()
      modifies this
      ensures Valid() && Repr() == old(Repr())
      ensures timeout == Expires(old(View()), now)
      ensures View() == Polled(old(View()), now)
    {
      timeout := false;
      winTimeExpired := false;
      if isTriggered {
        timeout := SnapshotTimeout(now);
        winTimeExpired := timeout;
        if timeout {
          SwapBuffers();
        }
      } else {
        var expired := SnapshotTimeout(now);
        var forceFastExpire := !expired && Millis(now - lastForcedExpire) >= fastExpireMs;
        winTimeExpired := expired;
        if expired || forceFastExpire {
          timeout := true;
          EndWindow(now, expired);
        }
      }
    }

    method OnWindowTimeout()
      modifies this`pvsNoEvents
      ensures pvsNoEvents == allPvs
    {
      pvsNoEvents := allPvs;
    }

    method AddData(e: MonitorEvent, now: int)
      requires Valid()
      modifies this`pvsNoEvents, acquiringBuffer, acquiringBuffer.buffer
      ensures Valid() && fresh(Repr() - old(Repr()))
      ensures View() == Added(old(View()), e, now)
    {
      var _ := acquiringBuffer.Push(e, now);
      pvsNoEvents := pvsNoEvents - {e.pv};
    }

    /** The part of getData that reads the processing buffer. */
    method FetchBatch() returns (events: seq<MonitorEvent>)
      requires Valid()
      ensures events == Delivered(filter, View().processing)
    {
      if filter.Some? {
        FilterKeepsAll(filter.value, processingBuffer.Contents());
        events := processingBuffer.FetchMapped(Keeping(filter.value));
      } else {
        events := processingBuffer.FetchWindow();
      }
    }

    method GetData() returns (parts: Parts, events: seq<MonitorEvent>)
      requires Valid()
      modifies this`headerSent, processingBuffer
      ensures Valid() && fresh(Repr() - old(Repr()))
      ensures parts == FetchedParts(old(View())) && events == Delivered(filter, old(View()).processing)
      ensures View() == Fetched(old(View()))
    {
      parts := Parts(false, false, false);
      if !headerSent {
        parts := parts.(header := true);
        headerSent := true;
      }
      events := FetchBatch();
      if events != [] {
        parts := parts.(data := true);
      }
      processingBuffer.Reset();
      if winTimeExpired || !isRunning {
        parts := parts.(tail := true);
        headerSent := false;
      }
    }

    method GetPVsWithoutEvents() returns (res: set<string>)
      requires Valid()
      modifies this`pendingPvs, this`pendingReady
      ensures Valid() && res == SilentPvs(old(View()))
      ensures View() == old(View()).(pending := None)
    {
      if pendingReady {
        res := pendingPvs;
        pendingPvs, pendingReady := {}, false;
      } else {
        res := pvsNoEvents;
      }
    }
  }
}
