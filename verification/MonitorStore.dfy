/**
  The stored monitors and the batched iteration over them that both periodic scans use.

  The row store answers queries in insertion order. A handler is given to the iteration as a
  function from a row and the number of rows visited before it to what the handler does.
 */
module MonitorStore {
  import opened Types

  const NO_PURGE := -1

  /** `ser` is the serialization of the request that stored the row. */
  datatype Row = Row(id: nat, pv: string, dest: string, ser: nat, processed: bool, startPurge: int, counter: nat)

  /** An entry of the configuration map: what was asked for, in which serialization. */
  datatype Setting = Setting(pv: string, dest: string, ser: nat)

  datatype Action = Start | Stop

  datatype Event = Event(action: Action, pv: string, dest: string)

  /** What a handler asks for the row's purge timestamp: the three values of its flag. */
  datatype Stamp = Untouched | Set(now: int) | Reset

  /** `events` are broadcast; `remove` deletes the row from the store. */
  datatype Verdict = Verdict(events: seq<Event>, stamp: Stamp, remove: bool)

  type Handler = (Row, nat) -> Verdict

  predicate SamePair(r: Row, pv: string, dest: string) {
    r.pv == pv && r.dest == dest
  }

  /** Row ids are distinct, and a PV is stored at most once for a destination. */
  ghost predicate Unique(rows: seq<Row>) {
    forall i, j :: 0 <= i < j < |rows| ==> rows[i].id != rows[j].id && !SamePair(rows[i], rows[j].pv, rows[j].dest)
  }

  // ---------------------------------------------------------------- queries

  /** The rows of a name that are still to be processed. */
  function Pending(rows: seq<Row>, name: string): seq<Row> {
    if rows == [] then []
    else if rows[0].pv == name && !rows[0].processed then [rows[0]] + Pending(rows[1..], name)
    else Pending(rows[1..], name)
  }

  /** All rows still to be processed, name after name. */
  function Backlog(rows: seq<Row>, names: seq<string>): seq<Row> {
    if names == [] then [] else Pending(rows, names[0]) + Backlog(rows, names[1..])
  }

  /** How many of the names have rows to be processed. */
  function Unfinished(rows: seq<Row>, names: seq<string>): nat {
    if names == [] then 0 else (if Pending(rows, names[0]) != [] then 1 else 0) + Unfinished(rows, names[1..])
  }

  /** select distinct: every name once, in the order of their first rows. */
  function Names(rows: seq<Row>): seq<string> {
    if rows == [] then []
    else
      var rest := Names(rows[..|rows| - 1]);
      if rows[|rows| - 1].pv in rest then rest else rest + [rows[|rows| - 1].pv]
  }

  ghost predicate Distinct(names: seq<string>) {
    forall i, j :: 0 <= i < j < |names| ==> names[i] != names[j]
  }

  lemma {:induction false} NamesAreThose(rows: seq<Row>)
    ensures Distinct(Names(rows)) && forall n :: n in Names(rows) <==> exists i :: 0 <= i < |rows| && rows[i].pv == n
  {
    if rows != [] {
      var init := rows[..|rows| - 1];
      NamesAreThose(init);
      assert rows == init + [rows[|rows| - 1]];
      forall n ensures n in Names(rows) <==> exists i :: 0 <= i < |rows| && rows[i].pv == n {
        if n in Names(init) {
          var i :| 0 <= i < |init| && init[i].pv == n;
          assert rows[i].pv == n;
        }
        if i :| 0 <= i < |rows| && rows[i].pv == n {
          assert i < |init| ==> init[i].pv == n;
        }
      }
    }
  }

  /** The row of a pair, if it is stored. */
  function RowOf(rows: seq<Row>, pv: string, dest: string): Option<Row> {
    if rows == [] then None
    else if SamePair(rows[0], pv, dest) then Some(rows[0])
    else RowOf(rows[1..], pv, dest)
  }

  // ---------------------------------------------------------------- what a request does to the rows

  function NewRow(id: nat, pv: string, dest: string, ser: nat): Row {
    Row(id, pv, dest, ser, false, NO_PURGE, 0)
  }

  /** The rows after an insertion: the row of the pair is counted and unstamped, or a new one comes last. */
  function Inserted(rows: seq<Row>, nextId: nat, pv: string, dest: string, ser: nat): seq<Row> {
    if rows == [] then [NewRow(nextId, pv, dest, ser)]
    else if SamePair(rows[0], pv, dest) then
      [rows[0].(counter := rows[0].counter + 1, startPurge := NO_PURGE)] + rows[1..]
    else [rows[0]] + Inserted(rows[1..], nextId, pv, dest, ser)
  }

  /** The rows after a request: a setting that is configured does not reach them. */
  function RequestedRows(rows: seq<Row>, config: set<Setting>, nextId: nat, pv: string, dest: string, ser: nat): seq<Row> {
    if Setting(pv, dest, ser) in config then rows else Inserted(rows, nextId, pv, dest, ser)
  }

  lemma {:induction false} InsertedAt(rows: seq<Row>, nextId: nat, pv: string, dest: string, ser: nat, i: nat)
    requires i < |rows| && SamePair(rows[i], pv, dest) && forall j :: 0 <= j < i ==> !SamePair(rows[j], pv, dest)
    ensures Inserted(rows, nextId, pv, dest, ser) == rows[i := rows[i].(counter := rows[i].counter + 1, startPurge := NO_PURGE)]
    ensures RowOf(rows, pv, dest) == Some(rows[i])
  {
    if i > 0 {
      assert rows[1..][i - 1] == rows[i];
      InsertedAt(rows[1..], nextId, pv, dest, ser, i - 1);
    }
  }

  lemma {:induction false} InsertedLast(rows: seq<Row>, nextId: nat, pv: string, dest: string, ser: nat)
    requires forall j :: 0 <= j < |rows| ==> !SamePair(rows[j], pv, dest)
    ensures Inserted(rows, nextId, pv, dest, ser) == rows + [NewRow(nextId, pv, dest, ser)]
    ensures RowOf(rows, pv, dest) == None
  {
    if rows != [] {
      InsertedLast(rows[1..], nextId, pv, dest, ser);
    }
  }

  // ---------------------------------------------------------------- what a visit does to the rows

  function Stamped(r: Row, s: Stamp): Row {
    match s
    case Untouched => r
    case Set(now) => r.(startPurge := now)
    case Reset => r.(startPurge := NO_PURGE)
  }

  /** The rows after row p was visited with that verdict. */
  function VisitedOne(rows: seq<Row>, p: Row, v: Verdict): seq<Row> {
    if rows == [] then []
    else if v.remove && SamePair(rows[0], p.pv, p.dest) then VisitedOne(rows[1..], p, v)
    else if rows[0].id == p.id then [Stamped(rows[0], v.stamp).(processed := true)] + VisitedOne(rows[1..], p, v)
    else [rows[0]] + VisitedOne(rows[1..], p, v)
  }

  // The same in the three sections of a visit: what the handler removes, its flag, and the processed mark.

  function WithoutPair(rows: seq<Row>, pv: string, dest: string): seq<Row> {
    if rows == [] then []
    else if SamePair(rows[0], pv, dest) then WithoutPair(rows[1..], pv, dest)
    else [rows[0]] + WithoutPair(rows[1..], pv, dest)
  }

  function StampedAt(rows: seq<Row>, id: nat, s: Stamp): seq<Row> {
    seq(|rows|, i requires 0 <= i < |rows| => if rows[i].id == id then Stamped(rows[i], s) else rows[i])
  }

  function MarkedAt(rows: seq<Row>, id: nat): seq<Row> {
    seq(|rows|, i requires 0 <= i < |rows| => if rows[i].id == id then rows[i].(processed := true) else rows[i])
  }

  /** A visit with nothing in between. */
  lemma {:induction false} VisitIsItsSections(rows: seq<Row>, p: Row, v: Verdict)
    ensures VisitedOne(rows, p, v) == MarkedAt(StampedAt(if v.remove then WithoutPair(rows, p.pv, p.dest) else rows, p.id, v.stamp), p.id)
  {
    if rows != [] {
      VisitIsItsSections(rows[1..], p, v);
      var rest := if v.remove then WithoutPair(rows[1..], p.pv, p.dest) else rows[1..];
      if !(v.remove && SamePair(rows[0], p.pv, p.dest)) {
        SectionsOfOne(rows[0], rest, p.id, v.stamp);
        assert !v.remove ==> rows == [rows[0]] + rest;
      }
    }
  }

  lemma SectionsOfOne(r: Row, rest: seq<Row>, id: nat, s: Stamp)
    ensures MarkedAt(StampedAt([r] + rest, id, s), id)
         == [if r.id == id then Stamped(r, s).(processed := true) else r] + MarkedAt(StampedAt(rest, id, s), id)
  {
  }

  function SettingOf(r: Row): Setting {
    Setting(r.pv, r.dest, r.ser)
  }

  /** The configuration after the same visits: a removed row takes its own setting along. */
  function ConfigAfter(c: set<Setting>, ps: seq<Row>, n: nat, h: Handler): set<Setting>
    decreases |ps|
  {
    if ps == [] then c
    else ConfigAfter(if h(ps[0], n).remove then c - {SettingOf(ps[0])} else c, ps[1..], n + 1, h)
  }

  lemma {:induction false} ConfigCompose(c: set<Setting>, ps: seq<Row>, qs: seq<Row>, n: nat, h: Handler)
    ensures ConfigAfter(c, ps + qs, n, h) == ConfigAfter(ConfigAfter(c, ps, n, h), qs, n + |ps|, h)
    decreases |ps|
  {
    if ps == [] {
      assert ps + qs == qs;
    } else {
      assert (ps + qs)[1..] == ps[1..] + qs;
      ConfigCompose(if h(ps[0], n).remove then c - {SettingOf(ps[0])} else c, ps[1..], qs, n + 1, h);
    }
  }

  /** The rows after a list of visits, the first of which is number `n`. */
  function VisitedAll(rows: seq<Row>, ps: seq<Row>, n: nat, h: Handler): seq<Row>
    decreases |ps|
  {
    if ps == [] then rows else VisitedAll(VisitedOne(rows, ps[0], h(ps[0], n)), ps[1..], n + 1, h)
  }

  function Broadcast(ps: seq<Row>, n: nat, h: Handler): seq<Event> {
    if ps == [] then [] else h(ps[0], n).events + Broadcast(ps[1..], n + 1, h)
  }

  lemma {:induction false} VisitsCompose(rows: seq<Row>, ps: seq<Row>, qs: seq<Row>, n: nat, h: Handler)
    ensures VisitedAll(rows, ps + qs, n, h) == VisitedAll(VisitedAll(rows, ps, n, h), qs, n + |ps|, h)
    ensures Broadcast(ps + qs, n, h) == Broadcast(ps, n, h) + Broadcast(qs, n + |ps|, h)
    decreases |ps|
  {
    if ps == [] {
      assert ps + qs == qs;
    } else {
      assert (ps + qs)[1..] == ps[1..] + qs;
      VisitsCompose(VisitedOne(rows, ps[0], h(ps[0], n)), ps[1..], qs, n + 1, h);
    }
  }

  lemma OneMoreVisit(rows: seq<Row>, ps: seq<Row>, p: Row, n: nat, h: Handler)
    ensures VisitedAll(rows, ps + [p], n, h) == VisitedOne(VisitedAll(rows, ps, n, h), p, h(p, n + |ps|))
    ensures Broadcast(ps + [p], n, h) == Broadcast(ps, n, h) + h(p, n + |ps|).events
  {
    VisitsCompose(rows, ps, [p], n, h);
    assert [p][1..] == [];
  }

  /** Every row of the result is a row of the original, perhaps with another mark or stamp. */
  lemma {:induction false} VisitedFrom(rows: seq<Row>, p: Row, v: Verdict, j: nat)
    requires j < |VisitedOne(rows, p, v)|
    ensures exists i :: 0 <= i < |rows| && var r' := VisitedOne(rows, p, v)[j];
                        r'.id == rows[i].id && r'.pv == rows[i].pv && r'.dest == rows[i].dest
  {
    var r' := VisitedOne(rows, p, v)[j];
    var tail := VisitedOne(rows[1..], p, v);
    var dropped := v.remove && SamePair(rows[0], p.pv, p.dest);
    if !dropped && j == 0 {
      assert r'.id == rows[0].id;
    } else {
      var k := if dropped then j else j - 1;
      VisitedFrom(rows[1..], p, v, k);
      var i :| 0 <= i < |rows[1..]| && tail[k].id == rows[1..][i].id && tail[k].pv == rows[1..][i].pv && tail[k].dest == rows[1..][i].dest;
      assert rows[1..][i] == rows[i + 1];
    }
  }

  lemma {:induction false} VisitKeepsUnique(rows: seq<Row>, p: Row, v: Verdict)
    requires Unique(rows)
    ensures Unique(VisitedOne(rows, p, v))
  {
    if rows != [] {
      VisitKeepsUnique(rows[1..], p, v);
      var tail := VisitedOne(rows[1..], p, v);
      forall j: nat | j < |tail| ensures tail[j].id != rows[0].id && !SamePair(rows[0], tail[j].pv, tail[j].dest) {
        VisitedFrom(rows[1..], p, v, j);
      }
    }
  }

  lemma {:induction false} PendingAre(rows: seq<Row>, name: string)
    ensures forall r :: r in Pending(rows, name) <==> r in rows && r.pv == name && !r.processed
  {
    if rows != [] {
      PendingAre(rows[1..], name);
    }
  }

  /** Other rows than p stay as they are. */
  lemma {:induction false} VisitElsewhere(rows: seq<Row>, p: Row, v: Verdict)
    requires forall i :: 0 <= i < |rows| ==> rows[i].id != p.id && !SamePair(rows[i], p.pv, p.dest)
    ensures VisitedOne(rows, p, v) == rows
  {
    if rows != [] {
      VisitElsewhere(rows[1..], p, v);
    }
  }

  /** A visit takes the row off the backlog of its name, and leaves other names alone. */
  lemma {:induction false} VisitPending(rows: seq<Row>, p: Row, v: Verdict, name: string)
    requires Unique(rows) && Pending(rows, p.pv) != [] && Pending(rows, p.pv)[0] == p
    ensures Pending(VisitedOne(rows, p, v), name) == if name == p.pv then Pending(rows, name)[1..] else Pending(rows, name)
  {
    PendingAre(rows, p.pv);
    if rows[0] == p {
      forall i | 0 <= i < |rows[1..]| ensures rows[1..][i].id != p.id && !SamePair(rows[1..][i], p.pv, p.dest) {
        assert rows[1..][i] == rows[i + 1];
      }
      VisitElsewhere(rows[1..], p, v);
    } else {
      assert p in rows[1..];
      var i :| 0 <= i < |rows[1..]| && rows[1..][i] == p;
      assert rows[i + 1] == p;
      VisitPending(rows[1..], p, v, name);
    }
  }

  lemma {:induction false} SameBacklog(rows: seq<Row>, rows': seq<Row>, names: seq<string>)
    requires forall n :: n in names ==> Pending(rows', n) == Pending(rows, n)
    ensures Backlog(rows', names) == Backlog(rows, names) && Unfinished(rows', names) == Unfinished(rows, names)
  {
    if names != [] {
      SameBacklog(rows, rows', names[1..]);
    }
  }

  lemma {:induction false} BacklogSplits(rows: seq<Row>, a: seq<string>, b: seq<string>)
    ensures Backlog(rows, a + b) == Backlog(rows, a) + Backlog(rows, b)
    ensures Unfinished(rows, a + b) == Unfinished(rows, a) + Unfinished(rows, b)
  {
    if a == [] {
      assert a + b == b;
    } else {
      assert (a + b)[1..] == a[1..] + b;
      BacklogSplits(rows, a[1..], b);
    }
  }

  lemma {:induction false} NothingPending(rows: seq<Row>, names: seq<string>)
    ensures Backlog(rows, names) == [] <==> Unfinished(rows, names) == 0
  {
    if names != [] {
      NothingPending(rows, names[1..]);
    }
  }

  lemma BacklogAround(rows: seq<Row>, names: seq<string>, a: nat)
    requires a < |names|
    ensures Backlog(rows, names) == Backlog(rows, names[..a]) + (Pending(rows, names[a]) + Backlog(rows, names[a + 1..]))
    ensures Unfinished(rows, names[..a + 1]) == Unfinished(rows, names[..a]) + if Pending(rows, names[a]) != [] then 1 else 0
  {
    assert names == names[..a] + names[a..] && names[a..][1..] == names[a + 1..];
    assert names[..a + 1] == names[..a] + [names[a]] && [names[a]][1..] == [];
    BacklogSplits(rows, names[..a], names[a..]);
    BacklogSplits(rows, names[..a], [names[a]]);
  }

  // ---------------------------------------------------------------- progress of an iteration

  /** The rows in `visited`, the first pending ones of a name, were visited as numbers n, n + 1, ... */
  ghost predicate Consumed(rows: seq<Row>, rows': seq<Row>, name: string, visited: seq<Row>, n: nat, h: Handler) {
    && |visited| <= |Pending(rows, name)|
    && visited == Pending(rows, name)[..|visited|]
    && Pending(rows', name) == Pending(rows, name)[|visited|..]
    && (forall other :: other != name ==> Pending(rows', other) == Pending(rows, other))
    && rows' == VisitedAll(rows, visited, n, h)
  }

  lemma ConsumeOne(rows: seq<Row>, rows': seq<Row>, name: string, visited: seq<Row>, n: nat, h: Handler)
    requires Unique(rows') && Consumed(rows, rows', name, visited, n, h) && Pending(rows', name) != []
    ensures var p := Pending(rows', name)[0];
            var v := h(p, n + |visited|);
            && Consumed(rows, VisitedOne(rows', p, v), name, visited + [p], n, h)
            && Broadcast(visited + [p], n, h) == Broadcast(visited, n, h) + v.events
  {
    var p := Pending(rows', name)[0];
    var v := h(p, n + |visited|);
    PendingAre(rows', name);
    assert p in Pending(rows', name);
    forall other ensures Pending(VisitedOne(rows', p, v), other)
                         == if other == name then Pending(rows', other)[1..] else Pending(rows', other) {
      VisitPending(rows', p, v, other);
    }
    OneMoreVisit(rows, visited, p, n, h);
  }

  /** After the loops over the first a names. */
  ghost predicate Reached(rows: seq<Row>, rows': seq<Row>, names: seq<string>, a: nat, visited: seq<Row>, k: nat, h: Handler)
    requires a <= |names|
  {
    && |visited| <= k
    && (Unfinished(rows', names[..a]) > 0 ==> |visited| == k)
    && Backlog(rows, names) == visited + Backlog(rows', names)
    && rows' == VisitedAll(rows, visited, 0, h)
  }

  /** One more name: its first m rows were visited, all of them unless that fills the batch. */
  lemma ReachedNext(rows: seq<Row>, rows': seq<Row>, rows'': seq<Row>, names: seq<string>, a: nat,
                    visited: seq<Row>, more: seq<Row>, k: nat, h: Handler)
    requires a < |names| && Distinct(names) && Reached(rows, rows', names, a, visited, k, h)
    requires Consumed(rows', rows'', names[a], more, |visited|, h)
    requires |more| <= k - |visited| && (Pending(rows'', names[a]) != [] ==> |more| == k - |visited|)
    ensures Reached(rows, rows'', names, a + 1, visited + more, k, h)
    ensures Unfinished(rows'', names[..a + 1]) ==
            Unfinished(rows', names[..a]) + if Pending(rows'', names[a]) != [] then 1 else 0
    ensures Broadcast(visited + more, 0, h) == Broadcast(visited, 0, h) + Broadcast(more, |visited|, h)
  {
    VisitsCompose(rows, visited, more, 0, h);
    SameBefore(rows', rows'', names, a);
    BacklogAround(rows'', names, a);
    PendingSplit(Pending(rows', names[a]), more, Pending(rows'', names[a]));
    BacklogConsumed(rows', rows'', names, a, more);
    Reassociate(visited, more, Backlog(rows'', names));
  }

  lemma PendingSplit(pending: seq<Row>, more: seq<Row>, rest: seq<Row>)
    requires |more| <= |pending| && more == pending[..|more|] && rest == pending[|more|..]
    ensures pending == more + rest
  {
  }

  lemma Reassociate(a: seq<Row>, b: seq<Row>, c: seq<Row>)
    ensures a + (b + c) == (a + b) + c
  {
  }

  lemma SameBefore(rows: seq<Row>, rows': seq<Row>, names: seq<string>, a: nat)
    requires a < |names| && Distinct(names)
    requires forall other :: other != names[a] ==> Pending(rows', other) == Pending(rows, other)
    ensures Unfinished(rows', names[..a]) == Unfinished(rows, names[..a])
  {
    SameBacklog(rows, rows', names[..a]);
  }

  lemma BacklogConsumed(rows: seq<Row>, rows': seq<Row>, names: seq<string>, a: nat, more: seq<Row>)
    requires a < |names| && Distinct(names)
    requires Pending(rows, names[a]) == more + Pending(rows', names[a])
    requires forall other :: other != names[a] ==> Pending(rows', other) == Pending(rows, other)
    requires more != [] ==> Unfinished(rows, names[..a]) == 0
    ensures Backlog(rows, names) == more + Backlog(rows', names)
  {
    var before, later := names[..a], names[a + 1..];
    SameBacklog(rows, rows', before);
    SameBacklog(rows, rows', later);
    BacklogAround(rows, names, a);
    BacklogAround(rows', names, a);
    NothingPending(rows, before);
    TakeFromMiddle(Backlog(rows, before), more, Pending(rows', names[a]), Backlog(rows, later));
  }

  lemma TakeFromMiddle(before: seq<Row>, more: seq<Row>, rest: seq<Row>, later: seq<Row>)
    requires more != [] ==> before == []
    ensures before + ((more + rest) + later) == more + (before + (rest + later))
  {
    if more == [] {
      assert more + rest == rest;
      assert more + (before + (rest + later)) == before + (rest + later);
    } else {
      assert before + (rest + later) == rest + later;
      assert before + ((more + rest) + later) == (more + rest) + later;
    }
  }

  // ---------------------------------------------------------------- the iteration

  /** The rows with the marks of those names taken back. */
  function Unmarked(rows: seq<Row>, names: seq<string>): seq<Row> {
    seq(|rows|, i requires 0 <= i < |rows| => if rows[i].pv in names then rows[i].(processed := false) else rows[i])
  }

  lemma UnmarkedMore(rows: seq<Row>, names: seq<string>, a: nat)
    requires a < |names|
    ensures Unmarked(rows, names[..a + 1]) == Unmarked(Unmarked(rows, names[..a]), [names[a]])
  {
    assert names[..a + 1] == names[..a] + [names[a]];
  }

  class NodeConfiguration {
    var config: set<Setting>
    var rows: seq<Row>
    var nextId: nat
    var broadcast: seq<Event>

    constructor ()
      ensures config == {} && rows == [] && broadcast == [] && Valid()
    {
      config, rows, nextId, broadcast := {}, [], 0, [];
    }

    ghost predicate Valid()
      reads this
    {
      Unique(rows) && forall i :: 0 <= i < |rows| ==> rows[i].id < nextId
    }

    /**
      ChannelRepository::insert: a new row for a new pair of PV and destination, otherwise one more
      request of the stored row, which takes its purge timestamp back.
     */
    method Insert(pv: string, dest: string, ser: nat) returns (isNew: bool)
      requires Valid()
      modifies this`rows, this`nextId
      ensures Valid()
      ensures isNew <==> RowOf(old(rows), pv, dest).None?
      ensures rows == Inserted(old(rows), old(nextId), pv, dest, ser)
      ensures nextId == if isNew then old(nextId) + 1 else old(nextId)
    {
      for i := 0 to |rows|
        invariant rows == old(rows) && nextId == old(nextId)
        invariant forall j :: 0 <= j < i ==> !SamePair(rows[j], pv, dest)
      {
        if SamePair(rows[i], pv, dest) {
          InsertedAt(rows, nextId, pv, dest, ser, i);
          rows := rows[i := rows[i].(counter := rows[i].counter + 1, startPurge := NO_PURGE)];
          return false;
        }
      }
      InsertedLast(rows, nextId, pv, dest, ser);
      rows := rows + [NewRow(nextId, pv, dest, ser)];
      nextId := nextId + 1;
      return true;
    }

    /** addChannelMonitor for one description: a setting that is configured already does not reach the rows. */
    method AddChannelMonitor(pv: string, dest: string, ser: nat) returns (stored: bool)
      requires Valid()
      modifies this`config, this`rows, this`nextId
      ensures Valid() && config == old(config) + {Setting(pv, dest, ser)}
      ensures rows == RequestedRows(old(rows), old(config), old(nextId), pv, dest, ser)
      ensures stored <==> Setting(pv, dest, ser) !in old(config) && RowOf(old(rows), pv, dest).None?
      ensures nextId == if stored then old(nextId) + 1 else old(nextId)
    {
      if Setting(pv, dest, ser) in config {
        stored := false;
      } else {
        config := config + {Setting(pv, dest, ser)};
        stored := Insert(pv, dest, ser);
      }
    }

    /** The handlers registered with the checker hear of an event. */
    method Announce(e: Event)
      modifies this`broadcast
      ensures broadcast == old(broadcast) + [e]
    {
      broadcast := broadcast + [e];
    }

    /** resetAllChannelMonitorCheck: name by name, until no row is marked. */
    method ResetAll()
      requires Valid()
      modifies this`rows
      ensures Valid()
      ensures rows == seq(|old(rows)|, i requires 0 <= i < |old(rows)| => old(rows)[i].(processed := false))
    {
      var names := DistinctNames();
      NamesAreThose(rows);
      for a := 0 to |names|
        invariant rows == Unmarked(old(rows), names[..a])
      {
        UnmarkedMore(old(rows), names, a);
        rows := Unmarked(rows, [names[a]]);
      }
      assert names[..|names|] == names;
    }

    /** getNextChannelMonitorToProcess: the first pending row of the name. */
    method NextToProcess(name: string) returns (found: Option<Row>)
      ensures found == if Pending(rows, name) == [] then None else Some(Pending(rows, name)[0])
    {
      for i := 0 to |rows|
        invariant Pending(rows, name) == Pending(rows[i..], name)
      {
        assert rows[i..][0] == rows[i] && rows[i..][1..] == rows[i + 1..];
        if rows[i].pv == name && !rows[i].processed {
          return Some(rows[i]);
        }
      }
      return None;
    }

    method DistinctNames() returns (names: seq<string>)
      ensures names == Names(rows)
    {
      names := [];
      for i := 0 to |rows|
        invariant names == Names(rows[..i])
      {
        assert rows[..i + 1][..i] == rows[..i];
        if rows[i].pv !in names {
          names := names + [rows[i].pv];
        }
      }
      assert rows[..|rows|] == rows;
    }

    /** removeChannelMonitor for one row: from the rows by its pair, from the configuration by its serialization. */
    method RemoveChannelMonitor(p: Row)
      modifies this`config, this`rows
      ensures rows == WithoutPair(old(rows), p.pv, p.dest) && config == old(config) - {SettingOf(p)}
    {
      var after: seq<Row> := [];
      for i := 0 to |rows|
        invariant rows == old(rows)
        invariant after + WithoutPair(rows[i..], p.pv, p.dest) == WithoutPair(rows, p.pv, p.dest)
      {
        assert rows[i..][0] == rows[i] && rows[i..][1..] == rows[i + 1..];
        if !SamePair(rows[i], p.pv, p.dest) {
          after := after + [rows[i]];
        }
      }
      assert rows[|rows|..] == [] && after + [] == after;
      rows := after;
      config := config - {SettingOf(p)};
    }

    /** resetStartPurgeTimeStamp and setStartPurgeTimeStamp, or neither. */
    method SetStamp(id: nat, s: Stamp)
      modifies this`rows
      ensures rows == StampedAt(old(rows), id, s)
    {
      for i := 0 to |rows|
        invariant |rows| == |old(rows)|
        invariant forall j :: 0 <= j < |rows| ==>
                    rows[j] == if j < i && old(rows)[j].id == id then Stamped(old(rows)[j], s) else old(rows)[j]
      {
        if rows[i].id == id {
          rows := rows[i := Stamped(rows[i], s)];
        }
      }
    }

    /** setProcessStateChannel. */
    method SetProcessed(id: nat)
      modifies this`rows
      ensures rows == MarkedAt(old(rows), id)
    {
      for i := 0 to |rows|
        invariant |rows| == |old(rows)|
        invariant forall j :: 0 <= j < |rows| ==>
                    rows[j] == if j < i && old(rows)[j].id == id then old(rows)[j].(processed := true) else old(rows)[j]
      {
        if rows[i].id == id {
          rows := rows[i := rows[i].(processed := true)];
        }
      }
    }

    /** The handler's own changes, its flag, and the processed mark of the row. */
    method Visit(p: Row, v: Verdict)
      modifies this`config, this`rows, this`broadcast
      ensures rows == VisitedOne(old(rows), p, v)
      ensures config == if v.remove then old(config) - {SettingOf(p)} else old(config)
      ensures broadcast == old(broadcast) + v.events
    {
      VisitIsItsSections(rows, p, v);
      broadcast := broadcast + v.events;
      if v.remove {
        RemoveChannelMonitor(p);
      }
      SetStamp(p.id, v.stamp);
      SetProcessed(p.id);
    }

    /** Visit the first pending row of a name; the loop started from `rows0`, `config0` and `broadcast0`. */
    method VisitNext(name: string, p: Row, visited: seq<Row>, n: nat, h: Handler,
                     ghost rows0: seq<Row>, ghost config0: set<Setting>, ghost broadcast0: seq<Event>)
      requires Valid() && Consumed(rows0, rows, name, visited, n, h) && Pending(rows, name) != [] && p == Pending(rows, name)[0]
      requires config == ConfigAfter(config0, visited, n, h) && broadcast == broadcast0 + Broadcast(visited, n, h)
      modifies this`config, this`rows, this`broadcast
      ensures Valid() && Consumed(rows0, rows, name, visited + [p], n, h)
      ensures config == ConfigAfter(config0, visited + [p], n, h)
      ensures broadcast == broadcast0 + Broadcast(visited + [p], n, h)
    {
      var v := h(p, n + |visited|);
      assert [p][1..] == [];
      ConfigCompose(config0, visited, [p], n, h);
      ConsumeOne(rows0, rows, name, visited, n, h);
      VisitKeepsUnique(rows, p, v);
      VisitBounds(rows, p, v, nextId);
      Visit(p, v);
    }

    /** The inner loop for one name, after `n` rows were visited. The limit ends this loop only. */
    method IterateName(name: string, k: nat, before: nat, n: nat, h: Handler) returns (processed: nat, visited: seq<Row>)
      requires Valid() && (if before <= k then n == before else n == k)
      modifies this`config, this`rows, this`broadcast
      ensures Valid() && Consumed(old(rows), rows, name, visited, n, h)
      ensures n + |visited| <= k && (Pending(rows, name) != [] ==> n + |visited| == k)
      ensures processed == before + |visited| + if Pending(rows, name) != [] then 1 else 0
      ensures broadcast == old(broadcast) + Broadcast(visited, n, h)
      ensures config == ConfigAfter(old(config), visited, n, h)
    {
      processed, visited := before, [];
      var found := NextToProcess(name);
      while found.Some?
        invariant Valid() && Consumed(old(rows), rows, name, visited, n, h)
        invariant found == if Pending(rows, name) == [] then None else Some(Pending(rows, name)[0])
        invariant n + |visited| <= k && processed == before + |visited| && (before > k ==> visited == [])
        invariant broadcast == old(broadcast) + Broadcast(visited, n, h)
        invariant config == ConfigAfter(old(config), visited, n, h)
        decreases |Pending(rows, name)|
      {
        processed := processed + 1;
        if processed > k {
          break;
        }
        VisitNext(name, found.value, visited, n, h, old(rows), old(config), old(broadcast));
        visited := visited + [found.value];
        found := NextToProcess(name);
      }
    }

    /** The outer loop. */
    method IterateNames(names: seq<string>, k: nat, h: Handler) returns (processed: nat, visited: seq<Row>)
      requires Valid() && Distinct(names)
      modifies this`config, this`rows, this`broadcast
      ensures Valid() && Reached(old(rows), rows, names, |names|, visited, k, h)
      ensures processed == |visited| + Unfinished(rows, names)
      ensures broadcast == old(broadcast) + Broadcast(visited, 0, h)
      ensures config == ConfigAfter(old(config), visited, 0, h)
    {
      processed, visited := 0, [];
      for a := 0 to |names|
        invariant Valid() && Reached(old(rows), rows, names, a, visited, k, h)
        invariant processed == |visited| + Unfinished(rows, names[..a])
        invariant broadcast == old(broadcast) + Broadcast(visited, 0, h)
        invariant config == ConfigAfter(old(config), visited, 0, h)
      {
        ghost var rows0 := rows;
        var more;
        processed, more := IterateName(names[a], k, processed, |visited|, h);
        ConfigCompose(old(config), visited, more, 0, h);
        ReachedNext(old(rows), rows0, rows, names, a, visited, more, k, h);
        visited := visited + more;
      }
      assert names[..|names|] == names;
    }

    /**
      iterateAllChannelMonitorForAction: visits the first k rows of the backlog, in order. Every name
      left with pending rows is counted once more in the result.
     */
    method IterateForAction(k: nat, h: Handler) returns (processed: nat, visited: seq<Row>)
      requires Valid()
      modifies this`config, this`rows, this`broadcast
      ensures Valid()
      ensures var backlog := Backlog(old(rows), Names(old(rows)));
              && visited == (if |backlog| <= k then backlog else backlog[..k])
              && backlog == visited + Backlog(rows, Names(old(rows)))
      ensures processed == |visited| + Unfinished(rows, Names(old(rows)))
      ensures rows == VisitedAll(old(rows), visited, 0, h)
      ensures broadcast == old(broadcast) + Broadcast(visited, 0, h)
      ensures config == ConfigAfter(old(config), visited, 0, h)
    {
      var names := DistinctNames();
      NamesAreThose(rows);
      processed, visited := IterateNames(names, k, h);
      BatchIsPrefix(old(rows), rows, names, visited, k, h);
    }
  }

  lemma BatchIsPrefix(rows: seq<Row>, rows': seq<Row>, names: seq<string>, visited: seq<Row>, k: nat, h: Handler)
    requires Reached(rows, rows', names, |names|, visited, k, h)
    ensures var backlog := Backlog(rows, names); visited == (if |backlog| <= k then backlog else backlog[..k])
    ensures names[..|names|] == names
  {
    assert names[..|names|] == names;
    NothingPending(rows', names);
  }

  lemma VisitBounds(rows: seq<Row>, p: Row, v: Verdict, bound: nat)
    requires forall i :: 0 <= i < |rows| ==> rows[i].id < bound
    ensures var rows' := VisitedOne(rows, p, v); forall i :: 0 <= i < |rows'| ==> rows'[i].id < bound
  {
    var rows' := VisitedOne(rows, p, v);
    forall i: nat | i < |rows'| ensures rows'[i].id < bound {
      VisitedFrom(rows, p, v, i);
    }
  }
}
