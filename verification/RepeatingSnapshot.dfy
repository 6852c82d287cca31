/** SnapshotRepeatingOpInfo: a NORMAL snapshot hands over the latest event of every PV, once per iteration. */
module RepeatingSnapshot {
  import opened Types

  /** The last event of a PV in a history of events. */
  function Latest(history: seq<MonitorEvent>, pv: string): Option<MonitorEvent> {
    if history == [] then None
    else if history[|history| - 1].pv == pv then Some(history[|history| - 1])
    else Latest(history[..|history| - 1], pv)
  }

  /** No later event of the history is of the same PV. */
  ghost predicate IsLast(history: seq<MonitorEvent>, i: nat)
    requires i < |history|
  {
    forall j :: i < j < |history| ==> history[j].pv != history[i].pv
  }

  /** The events are the last of their PVs in the history, for all the PVs of a snapshot that have one, each PV once. */
  ghost predicate IsReport(history: seq<MonitorEvent>, pvs: set<string>, events: seq<MonitorEvent>) {
    && (forall i: nat :: i < |history| && history[i].pv in pvs && IsLast(history, i) ==> history[i] in events)
    && (forall e :: e in events ==> e.pv in pvs && exists i: nat :: i < |history| && history[i] == e && IsLast(history, i))
    && (forall i, j :: 0 <= i < j < |events| ==> events[i].pv != events[j].pv)
  }

  class SnapshotRepeatingOpInfo {
    var elements: map<string, Option<MonitorEvent>>
    var takingData: bool
    /** The events accepted since init, for the contracts. */
    ghost var history: seq<MonitorEvent>

    ghost predicate Valid()
      reads this
    {
      forall pv :: pv in elements ==> elements[pv] == Latest(history, pv)
    }

    constructor ()
      ensures Valid() && elements == map[] && takingData
    {
      elements, takingData, history := map[], true, [];
    }

    /** init, before the first event: an empty cell for every PV. */
    method InitPvs(names: seq<string>)
      requires Valid() && history == []
      modifies this`elements
      ensures Valid()
      ensures forall pv :: pv in elements <==> pv in old(elements) || pv in names
    {
      for i := 0 to |names|
        invariant Valid()
        invariant forall pv :: pv in elements <==> pv in old(elements) || pv in names[..i]
      {
        elements := elements[names[i] := None];
      }
      assert names[..|names|] == names;
    }

    /** An event counts unless a collection is under way or its PV is not one of the snapshot's. */
    method AddData(e: MonitorEvent)
      requires Valid()
      modifies this`elements, this`history
      ensures Valid() && elements.Keys == old(elements.Keys)
      ensures history == if takingData && e.pv in elements then old(history) + [e] else old(history)
    {
      if !takingData {
        return;
      }
      if e.pv in elements {
        elements := elements[e.pv := Some(e)];
        ghost var before := history;
        history := history + [e];
        assert history[..|history| - 1] == before;
      }
    }

    /** The cells are visited in no particular order. */
    method GetData() returns (parts: Parts, events: seq<MonitorEvent>)
      requires Valid()
      modifies this`takingData
      ensures Valid() && takingData && parts == Parts(true, true, true)
      ensures IsReport(history, elements.Keys, events)
    {
      takingData := false;
      events := [];
      var left := elements.Keys;
      forall pv ensures Latest(history, pv).Some? ==> Latest(history, pv).value.pv == pv {
        LatestIsOfPv(history, pv);
      }
      while left != {}
        invariant left <= elements.Keys
        invariant forall i :: 0 <= i < |events| ==> events[i].pv in elements.Keys - left && Latest(history, events[i].pv) == Some(events[i])
        invariant forall pv :: pv in elements.Keys - left && Latest(history, pv).Some? ==> Latest(history, pv).value in events
        invariant forall i, j :: 0 <= i < j < |events| ==> events[i].pv != events[j].pv
        decreases left
      {
        var pv :| pv in left;
        if elements[pv].Some? {
          events := events + [elements[pv].value];
        }
        left := left - {pv};
      }
      takingData := true;
      LatestReported(history, elements.Keys, events);
      parts := Parts(true, true, true);
    }
  }

  lemma {:induction false} LatestIsOfPv(history: seq<MonitorEvent>, pv: string)
    ensures Latest(history, pv).Some? ==> Latest(history, pv).value.pv == pv
  {
    if history != [] {
      LatestIsOfPv(history[..|history| - 1], pv);
    }
  }

  /** An event stays the latest of its PV, and is handed over again, until another of that PV is accepted. */
  lemma {:induction false} StaysLatest(history: seq<MonitorEvent>, more: seq<MonitorEvent>, pv: string)
    ensures Latest(history + more, pv) == if Latest(more, pv).Some? then Latest(more, pv) else Latest(history, pv)
  {
    if more == [] {
      assert history + more == history;
    } else {
      assert (history + more)[..|history + more| - 1] == history + more[..|more| - 1];
      StaysLatest(history, more[..|more| - 1], pv);
    }
  }

  /** What Latest gives is the last event of its PV, and it gives one if there is any. */
  lemma {:induction false} LatestIs(history: seq<MonitorEvent>, pv: string) returns (i: nat)
    ensures Latest(history, pv).Some? ==> i < |history| && history[i] == Latest(history, pv).value && history[i].pv == pv && IsLast(history, i)
    ensures Latest(history, pv).None? ==> forall j :: 0 <= j < |history| ==> history[j].pv != pv
  {
    i := 0;
    if history != [] {
      var n := |history| - 1;
      if history[n].pv == pv {
        i := n;
      } else {
        i := LatestIs(history[..n], pv);
        assert forall j :: 0 <= j < n ==> history[..n][j] == history[j];
      }
    }
  }

  lemma LastIsLatest(history: seq<MonitorEvent>, i: nat)
    requires i < |history| && IsLast(history, i)
    ensures Latest(history, history[i].pv) == Some(history[i])
  {
    var k := LatestIs(history, history[i].pv);
  }

  lemma LatestReported(history: seq<MonitorEvent>, pvs: set<string>, events: seq<MonitorEvent>)
    requires forall i :: 0 <= i < |events| ==> events[i].pv in pvs && Latest(history, events[i].pv) == Some(events[i])
    requires forall pv :: pv in pvs && Latest(history, pv).Some? ==> Latest(history, pv).value in events
    requires forall i, j :: 0 <= i < j < |events| ==> events[i].pv != events[j].pv
    ensures IsReport(history, pvs, events)
  {
    forall i: nat | i < |history| && history[i].pv in pvs && IsLast(history, i) ensures history[i] in events {
      LastIsLatest(history, i);
    }
    forall e | e in events ensures e.pv in pvs && exists i: nat :: i < |history| && history[i] == e && IsLast(history, i) {
      var k := LatestIs(history, e.pv);
    }
  }
}
