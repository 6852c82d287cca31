/**
  Reference counts of monitored channels. The monitor worker claims a channel once per destination
  topic, the snapshot manager once per URI of a running snapshot; the EPICS service manager keeps a
  count and one poll task per channel. A step is one call of addChannel or removeChannel together
  with the bookkeeping it belongs to, or a part of a run of a poll task.

  A poll task that finds its count at zero erases its entry in a step of its own, so claims may come
  in between. How a URI is taken apart is a parameter: `sanitize` gives the PV name, or nothing for a
  URI that does not parse.
 */
module ChannelCounts {
  import opened Types

  type Sanitizer = string -> Option<string>

  /** An entry of `channel_map`: its count, and which task object it is. */
  datatype Channel = Channel(keepAlive: int, task: nat)

  /** A poll task in the pool. */
  datatype Poll = Poll(pv: string, task: nat)

  /** `leaving` are the poll tasks that have found their count at zero and are about to erase their entry. */
  datatype Channels = Channels(
    entries: map<string, Channel>,
    queued: seq<Poll>,
    running: seq<Poll>,
    leaving: seq<Poll>,
    nextTask: nat)

  /** addChannel for a URI that parses. */
  function Added(c: Channels, pv: string): Channels {
    if pv in c.entries then
      c.(entries := c.entries[pv := c.entries[pv].(keepAlive := c.entries[pv].keepAlive + 1)])
    else
      c.(entries := c.entries[pv := Channel(1, c.nextTask)], queued := c.queued + [Poll(pv, c.nextTask)], nextTask := c.nextTask + 1)
  }

  /** removeChannel: the count does not go below 0. */
  function Removed(c: Channels, pv: string): Channels {
    if pv in c.entries then
      var previous := c.entries[pv].keepAlive;
      c.(entries := c.entries[pv := c.entries[pv].(keepAlive := if previous <= 1 then 0 else previous - 1)])
    else c
  }

  function Without<T>(s: seq<T>, i: nat): seq<T>
    requires i < |s|
  {
    s[..i] + s[i + 1..]
  }

  /** A poll task starts with the check of the count. */
  function PollStarted(c: Channels, i: nat): Channels
    requires i < |c.queued|
  {
    var p := c.queued[i];
    var left := c.(queued := Without(c.queued, i));
    if p.pv in c.entries && c.entries[p.pv].keepAlive == 0 then left.(leaving := c.leaving + [p])
    else left.(running := c.running + [p])
  }

  /** It ends by erasing the entry, if that is still its own; the count is not looked at again ... */
  function PollLeft(c: Channels, i: nat): Channels
    requires i < |c.leaving|
  {
    var p := c.leaving[i];
    var left := c.(leaving := Without(c.leaving, i));
    if p.pv in c.entries && c.entries[p.pv].task == p.task then left.(entries := c.entries - {p.pv}) else left
  }

  /** ... or it polls and queues itself again. */
  function PollEnded(c: Channels, i: nat): Channels
    requires i < |c.running|
  {
    c.(running := Without(c.running, i), queued := c.queued + [c.running[i]])
  }

  // ---------------------------------------------------------------- the two claimants

  /**
    `topics`: for each PV name the destinations that were asked for (`channel_topics_map`).
    `snapshots`: for each snapshot the URIs it holds (all of its list between start and stop).
   */
  datatype State = State(channels: Channels, topics: map<string, seq<string>>, snapshots: seq<seq<string>>)

  function Init(): State {
    State(Channels(map[], [], [], [], 0), map[], [])
  }

  function Destinations(topics: map<string, seq<string>>, pv: string): seq<string> {
    if pv in topics then topics[pv] else []
  }

  function IndexIn(dests: seq<string>, dest: string): Option<nat> {
    if dests == [] then None
    else if dests[0] == dest then Some(0)
    else match IndexIn(dests[1..], dest)
         case None => None
         case Some(i) => Some(i + 1)
  }

  datatype Action =
    | MonitorStart(uri: string, dest: string)
    | MonitorStop(uri: string, dest: string)
    | NewSnapshot
    | Hold(k: nat, uri: string)       // startSnapshot, one URI of its list
    | Release(k: nat, i: nat)         // the final pass over a stopped snapshot, one URI
    | StartPoll(i: nat)
    | Leave(i: nat)
    | EndPoll(i: nat)

  predicate Possible(s: State, a: Action, sanitize: Sanitizer) {
    match a
    case Hold(k, uri) => k < |s.snapshots| && sanitize(uri).Some?  // startSnapshot checks every URI first
    case Release(k, i) => k < |s.snapshots| && i < |s.snapshots[k]| && sanitize(s.snapshots[k][i]).Some?
    case StartPoll(i) => i < |s.channels.queued|
    case Leave(i) => i < |s.channels.leaving|
    case EndPoll(i) => i < |s.channels.running|
    case _ => true
  }

  function MonitorStarted(s: State, pv: string, dest: string): State {
    var dests := Destinations(s.topics, pv);
    if dest in dests then s
    else s.(topics := s.topics[pv := dests + [dest]], channels := Added(s.channels, pv))
  }

  function MonitorStopped(s: State, pv: string, dest: string): State {
    var dests := Destinations(s.topics, pv);
    match IndexIn(dests, dest)
    case None => s.(topics := s.topics[pv := dests])  // the lookup leaves an empty entry behind
    case Some(i) =>
      if i < |dests| then
        var left := Without(dests, i);
        s.(topics := if left == [] then s.topics - {pv} else s.topics[pv := left], channels := Removed(s.channels, pv))
      else s
  }

  function After(s: State, a: Action, sanitize: Sanitizer): State
    requires Possible(s, a, sanitize)
  {
    match a
    case MonitorStart(uri, dest) => if sanitize(uri).Some? then MonitorStarted(s, sanitize(uri).value, dest) else s
    case MonitorStop(uri, dest) => if sanitize(uri).Some? then MonitorStopped(s, sanitize(uri).value, dest) else s
    case NewSnapshot => s.(snapshots := s.snapshots + [[]])
    case Hold(k, uri) =>
      s.(snapshots := s.snapshots[k := s.snapshots[k] + [uri]], channels := Added(s.channels, sanitize(uri).value))
    case Release(k, i) =>
      s.(snapshots := s.snapshots[k := Without(s.snapshots[k], i)],
         channels := Removed(s.channels, sanitize(s.snapshots[k][i]).value))
    case StartPoll(i) => s.(channels := PollStarted(s.channels, i))
    case Leave(i) => s.(channels := PollLeft(s.channels, i))
    case EndPoll(i) => s.(channels := PollEnded(s.channels, i))
  }

  // ---------------------------------------------------------------- agreement

  /** How many of the URIs stand for that PV name. */
  function Naming(uris: seq<string>, pv: string, sanitize: Sanitizer): nat {
    if uris == [] then 0 else (if sanitize(uris[0]) == Some(pv) then 1 else 0) + Naming(uris[1..], pv, sanitize)
  }

  function Holding(snapshots: seq<seq<string>>, pv: string, sanitize: Sanitizer): nat {
    if snapshots == [] then 0 else Naming(snapshots[0], pv, sanitize) + Holding(snapshots[1..], pv, sanitize)
  }

  /** The claims on a PV name: its destinations, and the snapshot URIs that stand for it. */
  function Claims(s: State, pv: string, sanitize: Sanitizer): nat {
    |Destinations(s.topics, pv)| + Holding(s.snapshots, pv, sanitize)
  }

  function KeepAlive(c: Channels, pv: string): int {
    if pv in c.entries then c.entries[pv].keepAlive else 0
  }

  function PollsOf(ps: seq<Poll>, pv: string): nat {
    if ps == [] then 0 else (if ps[0].pv == pv then 1 else 0) + PollsOf(ps[1..], pv)
  }

  predicate Agrees(s: State, pv: string, sanitize: Sanitizer) {
    KeepAlive(s.channels, pv) == Claims(s, pv, sanitize)
  }

  /** The poll tasks of a name, wherever they are. */
  function AllPolls(c: Channels, pv: string): nat {
    PollsOf(c.queued, pv) + PollsOf(c.running, pv) + PollsOf(c.leaving, pv)
  }

  /** A channel has exactly one poll task; other names have none. */
  ghost predicate OnePoll(c: Channels) {
    forall pv: string :: AllPolls(c, pv) == if pv in c.entries then 1 else 0
  }

  predicate IsOwn(c: Channels, p: Poll) {
    p.pv in c.entries ==> c.entries[p.pv].task == p.task
  }

  /** Poll tasks belong to the present entries. */
  ghost predicate OwnPolls(c: Channels) {
    && (forall i :: 0 <= i < |c.queued| ==> IsOwn(c, c.queued[i]))
    && (forall i :: 0 <= i < |c.running| ==> IsOwn(c, c.running[i]))
    && (forall i :: 0 <= i < |c.leaving| ==> IsOwn(c, c.leaving[i]))
  }

  ghost predicate DistinctTopics(topics: map<string, seq<string>>) {
    forall pv :: pv in topics ==> NoDuplicates(topics[pv])
  }

  ghost predicate NoDuplicates(ds: seq<string>) {
    forall i, j :: 0 <= i < j < |ds| ==> ds[i] != ds[j]
  }

  ghost predicate Inv(s: State) {
    OnePoll(s.channels) && OwnPolls(s.channels) && DistinctTopics(s.topics)
  }

  lemma {:induction false} NamingConcat(a: seq<string>, b: seq<string>, pv: string, sanitize: Sanitizer)
    ensures Naming(a + b, pv, sanitize) == Naming(a, pv, sanitize) + Naming(b, pv, sanitize)
  {
    if a == [] {
      assert a + b == b;
    } else {
      NamingConcat(a[1..], b, pv, sanitize);
      assert (a + b)[1..] == a[1..] + b;
    }
  }

  lemma NamingWithout(uris: seq<string>, i: nat, pv: string, sanitize: Sanitizer)
    requires i < |uris|
    ensures Naming(Without(uris, i), pv, sanitize) == Naming(uris, pv, sanitize) - if sanitize(uris[i]) == Some(pv) then 1 else 0
  {
    NamingConcat(uris[..i], uris[i + 1..], pv, sanitize);
    NamingConcat(uris[..i], uris[i..], pv, sanitize);
    assert uris == uris[..i] + uris[i..] && uris[i..][1..] == uris[i + 1..];
  }

  lemma {:induction false} HoldingUpdate(ss: seq<seq<string>>, k: nat, uris: seq<string>, pv: string, sanitize: Sanitizer)
    requires k < |ss|
    ensures Holding(ss[k := uris], pv, sanitize) == Holding(ss, pv, sanitize) - Naming(ss[k], pv, sanitize) + Naming(uris, pv, sanitize)
  {
    if k == 0 {
      assert ss[k := uris][1..] == ss[1..];
    } else {
      HoldingUpdate(ss[1..], k - 1, uris, pv, sanitize);
      assert ss[k := uris][1..] == ss[1..][k - 1 := uris];
    }
  }

  lemma {:induction false} HoldingNew(ss: seq<seq<string>>, pv: string, sanitize: Sanitizer)
    ensures Holding(ss + [[]], pv, sanitize) == Holding(ss, pv, sanitize)
  {
    if ss != [] {
      HoldingNew(ss[1..], pv, sanitize);
      assert (ss + [[]])[1..] == ss[1..] + [[]];
    }
  }

  lemma {:induction false} PollsConcat(a: seq<Poll>, b: seq<Poll>, pv: string)
    ensures PollsOf(a + b, pv) == PollsOf(a, pv) + PollsOf(b, pv)
  {
    if a == [] {
      assert a + b == b;
    } else {
      PollsConcat(a[1..], b, pv);
      assert (a + b)[1..] == a[1..] + b;
    }
  }

  lemma PollsWithout(ps: seq<Poll>, i: nat, pv: string)
    requires i < |ps|
    ensures PollsOf(Without(ps, i), pv) == PollsOf(ps, pv) - if ps[i].pv == pv then 1 else 0
  {
    PollsConcat(ps[..i], ps[i + 1..], pv);
    PollsConcat(ps[..i], ps[i..], pv);
    assert ps == ps[..i] + ps[i..] && ps[i..][1..] == ps[i + 1..];
  }

  lemma {:induction false} IndexInIs(dests: seq<string>, dest: string)
    ensures match IndexIn(dests, dest)
            case None => dest !in dests
            case Some(i) => i < |dests| && dests[i] == dest
  {
    if dests != [] {
      IndexInIs(dests[1..], dest);
    }
  }

  /** Adding raises the count of that name by one, whether the channel existed or not. */
  lemma AddedKeeps(c: Channels, pv: string, other: string)
    ensures KeepAlive(Added(c, pv), other) == KeepAlive(c, other) + if other == pv then 1 else 0
  {
  }

  /** Removing lowers it by one: with a claim on the name the clamp at 0 is never needed. */
  lemma RemovedKeeps(c: Channels, pv: string, other: string)
    ensures other != pv ==> KeepAlive(Removed(c, pv), other) == KeepAlive(c, other)
    ensures KeepAlive(c, pv) > 0 ==> KeepAlive(Removed(c, pv), pv) == KeepAlive(c, pv) - 1
  {
  }

  lemma MonitorAgrees(s: State, pv: string, dest: string, other: string, sanitize: Sanitizer)
    requires Agrees(s, other, sanitize)
    ensures Agrees(MonitorStarted(s, pv, dest), other, sanitize)
    ensures Agrees(MonitorStopped(s, pv, dest), other, sanitize)
  {
    IndexInIs(Destinations(s.topics, pv), dest);
    AddedKeeps(s.channels, pv, other);
    RemovedKeeps(s.channels, pv, other);
  }

  lemma HoldAgrees(s: State, k: nat, uri: string, other: string, sanitize: Sanitizer)
    requires Agrees(s, other, sanitize) && Possible(s, Hold(k, uri), sanitize)
    ensures Agrees(After(s, Hold(k, uri), sanitize), other, sanitize)
  {
    AddedKeeps(s.channels, sanitize(uri).value, other);
    NamingConcat(s.snapshots[k], [uri], other, sanitize);
    HoldingUpdate(s.snapshots, k, s.snapshots[k] + [uri], other, sanitize);
  }

  lemma {:induction false} HeldIsPositive(ss: seq<seq<string>>, k: nat, i: nat, pv: string, sanitize: Sanitizer)
    requires k < |ss| && i < |ss[k]| && sanitize(ss[k][i]) == Some(pv)
    ensures Holding(ss, pv, sanitize) > 0
  {
    if k == 0 {
      NamingWithout(ss[0], i, pv, sanitize);
    } else {
      HeldIsPositive(ss[1..], k - 1, i, pv, sanitize);
    }
  }

  lemma ReleaseAgrees(s: State, k: nat, i: nat, other: string, sanitize: Sanitizer)
    requires Agrees(s, other, sanitize) && Possible(s, Release(k, i), sanitize)
    ensures Agrees(After(s, Release(k, i), sanitize), other, sanitize)
  {
    var pv := sanitize(s.snapshots[k][i]).value;
    HeldIsPositive(s.snapshots, k, i, pv, sanitize);
    RemovedKeeps(s.channels, pv, other);
    NamingWithout(s.snapshots[k], i, other, sanitize);
    HoldingUpdate(s.snapshots, k, Without(s.snapshots[k], i), other, sanitize);
  }

  /** The step erases the entry of a name that somebody claims. */
  predicate ErasesClaimed(s: State, a: Action, pv: string, sanitize: Sanitizer) {
    a.Leave? && a.i < |s.channels.leaving| && s.channels.leaving[a.i].pv == pv && Claims(s, pv, sanitize) > 0
  }

  /** Agreement survives a step exactly if it does not erase a claimed entry. */
  lemma AgreesAfter(s: State, a: Action, pv: string, sanitize: Sanitizer)
    requires Inv(s) && Agrees(s, pv, sanitize) && Possible(s, a, sanitize)
    ensures Agrees(After(s, a, sanitize), pv, sanitize) <==> !ErasesClaimed(s, a, pv, sanitize)
  {
    match a
    case MonitorStart(uri, dest) =>
      if sanitize(uri).Some? { MonitorAgrees(s, sanitize(uri).value, dest, pv, sanitize); }
    case MonitorStop(uri, dest) =>
      if sanitize(uri).Some? { MonitorAgrees(s, sanitize(uri).value, dest, pv, sanitize); }
    case NewSnapshot => HoldingNew(s.snapshots, pv, sanitize);
    case Hold(k, uri) => HoldAgrees(s, k, uri, pv, sanitize);
    case Release(k, i) => ReleaseAgrees(s, k, i, pv, sanitize);
    case StartPoll(i) =>
    case Leave(i) => LeaveErases(s.channels, i);
    case EndPoll(_) =>
  }

  /** A leaving task finds its own entry, and erases it. */
  lemma LeaveErases(c: Channels, i: nat)
    requires PollsOk(c) && i < |c.leaving|
    ensures c.leaving[i].pv in c.entries && PollLeft(c, i).entries == c.entries - {c.leaving[i].pv}
  {
    var p := c.leaving[i];
    PollsWithout(c.leaving, i, p.pv);
    assert AllPolls(c, p.pv) == if p.pv in c.entries then 1 else 0;
    assert IsOwn(c, p);
  }

  ghost predicate PollsOk(c: Channels) {
    OnePoll(c) && OwnPolls(c)
  }

  lemma {:induction false} NoPolls(ps: seq<Poll>, pv: string)
    requires PollsOf(ps, pv) == 0
    ensures forall i :: 0 <= i < |ps| ==> ps[i].pv != pv
  {
    if ps != [] {
      NoPolls(ps[1..], pv);
    }
  }

  lemma AddedPolls(c: Channels, pv: string)
    requires PollsOk(c)
    ensures PollsOk(Added(c, pv))
  {
    var c' := Added(c, pv);
    forall other: string ensures AllPolls(c', other) == if other in c'.entries then 1 else 0 {
      assert AllPolls(c, other) == if other in c.entries then 1 else 0;
      PollsConcat(c.queued, [Poll(pv, c.nextTask)], other);
    }
    if pv !in c.entries {
      assert AllPolls(c, pv) == 0;
      NoPolls(c.queued, pv);
      NoPolls(c.running, pv);
      NoPolls(c.leaving, pv);
    }
  }

  lemma RemovedPolls(c: Channels, pv: string)
    requires PollsOk(c)
    ensures PollsOk(Removed(c, pv))
  {
    var c' := Removed(c, pv);
    assert c'.entries.Keys == c.entries.Keys;
    forall other: string ensures AllPolls(c', other) == if other in c'.entries then 1 else 0 {
      assert AllPolls(c, other) == if other in c.entries then 1 else 0;
    }
  }

  lemma StartedPolls(c: Channels, i: nat)
    requires PollsOk(c) && i < |c.queued|
    ensures PollsOk(PollStarted(c, i))
  {
    var c', p := PollStarted(c, i), c.queued[i];
    assert IsOwn(c, p);
    forall other: string ensures AllPolls(c', other) == if other in c'.entries then 1 else 0 {
      assert AllPolls(c, other) == if other in c.entries then 1 else 0;
      PollsWithout(c.queued, i, other);
      PollsConcat(c.running, [p], other);
      PollsConcat(c.leaving, [p], other);
    }
  }

  lemma LeftPolls(c: Channels, i: nat)
    requires PollsOk(c) && i < |c.leaving|
    ensures PollsOk(PollLeft(c, i))
  {
    var c' := PollLeft(c, i);
    LeaveErases(c, i);
    forall other: string ensures AllPolls(c', other) == if other in c'.entries then 1 else 0 {
      assert AllPolls(c, other) == if other in c.entries then 1 else 0;
      PollsWithout(c.leaving, i, other);
    }
  }

  lemma EndedPolls(c: Channels, i: nat)
    requires PollsOk(c) && i < |c.running|
    ensures PollsOk(PollEnded(c, i))
  {
    var c' := PollEnded(c, i);
    forall other: string ensures AllPolls(c', other) == if other in c'.entries then 1 else 0 {
      assert AllPolls(c, other) == if other in c.entries then 1 else 0;
      PollsWithout(c.running, i, other);
      PollsConcat(c.queued, [c.running[i]], other);
    }
  }

  lemma PollsAfter(s: State, a: Action, sanitize: Sanitizer)
    requires PollsOk(s.channels) && Possible(s, a, sanitize)
    ensures PollsOk(After(s, a, sanitize).channels)
  {
    match a
    case MonitorStart(uri, _) => if sanitize(uri).Some? { AddedPolls(s.channels, sanitize(uri).value); }
    case MonitorStop(uri, _) => if sanitize(uri).Some? { RemovedPolls(s.channels, sanitize(uri).value); }
    case Hold(_, uri) => AddedPolls(s.channels, sanitize(uri).value);
    case Release(k, i) => RemovedPolls(s.channels, sanitize(s.snapshots[k][i]).value);
    case StartPoll(i) => StartedPolls(s.channels, i);
    case Leave(i) => LeftPolls(s.channels, i);
    case EndPoll(i) => EndedPolls(s.channels, i);
    case _ =>
  }

  lemma TopicsAfter(s: State, a: Action, sanitize: Sanitizer)
    requires DistinctTopics(s.topics) && Possible(s, a, sanitize)
    ensures DistinctTopics(After(s, a, sanitize).topics)
  {
  }

  lemma InvAfter(s: State, a: Action, sanitize: Sanitizer)
    requires Inv(s) && Possible(s, a, sanitize)
    ensures Inv(After(s, a, sanitize))
  {
    PollsAfter(s, a, sanitize);
    TopicsAfter(s, a, sanitize);
  }

  // ---------------------------------------------------------------- runs

  /** The state after a list of actions, each possible when its turn comes. */
  ghost predicate Leads(s: State, actions: seq<Action>, s': State, sanitize: Sanitizer)
    decreases |actions|
  {
    if actions == [] then s' == s
    else Possible(s, actions[0], sanitize) && Leads(After(s, actions[0], sanitize), actions[1..], s', sanitize)
  }

  lemma {:induction false} InvLeads(s: State, actions: seq<Action>, s': State, sanitize: Sanitizer)
    requires Inv(s) && Leads(s, actions, s', sanitize)
    ensures Inv(s')
    decreases |actions|
  {
    if actions != [] {
      InvAfter(s, actions[0], sanitize);
      InvLeads(After(s, actions[0], sanitize), actions[1..], s', sanitize);
    }
  }

  /** The count of the name agrees in every state the actions pass through. */
  ghost predicate AlwaysAgrees(s: State, actions: seq<Action>, pv: string, sanitize: Sanitizer)
    decreases |actions|
  {
    && Agrees(s, pv, sanitize)
    && (actions != [] && Possible(s, actions[0], sanitize) ==> AlwaysAgrees(After(s, actions[0], sanitize), actions[1..], pv, sanitize))
  }

  /** None of the actions erases the entry of the name while somebody claims it. */
  ghost predicate NeverErasesClaimed(s: State, actions: seq<Action>, pv: string, sanitize: Sanitizer)
    decreases |actions|
  {
    actions != [] && Possible(s, actions[0], sanitize) ==>
      && !ErasesClaimed(s, actions[0], pv, sanitize)
      && NeverErasesClaimed(After(s, actions[0], sanitize), actions[1..], pv, sanitize)
  }

  lemma {:induction false} AgreementFrom(s: State, actions: seq<Action>, s': State, pv: string, sanitize: Sanitizer)
    requires Inv(s) && Agrees(s, pv, sanitize) && Leads(s, actions, s', sanitize)
    ensures AlwaysAgrees(s, actions, pv, sanitize) <==> NeverErasesClaimed(s, actions, pv, sanitize)
    ensures AlwaysAgrees(s, actions, pv, sanitize) ==> Agrees(s', pv, sanitize)
    decreases |actions|
  {
    if actions != [] {
      var next := After(s, actions[0], sanitize);
      InvAfter(s, actions[0], sanitize);
      AgreesAfter(s, actions[0], pv, sanitize);
      if Agrees(next, pv, sanitize) {
        AgreementFrom(next, actions[1..], s', pv, sanitize);
      }
    }
  }

  /**
    For any interleaving of monitor events, snapshot starts and stops and poll tasks: the count of a
    PV name agrees with its claims all the way exactly if no poll task erases the entry of the name
    while it is claimed.
   */
  lemma AgreementIff(actions: seq<Action>, s: State, sanitize: Sanitizer, pv: string)
    requires Leads(Init(), actions, s, sanitize)
    ensures AlwaysAgrees(Init(), actions, pv, sanitize) <==> NeverErasesClaimed(Init(), actions, pv, sanitize)
  {
    AgreementFrom(Init(), actions, s, pv, sanitize);
  }

  /**
    Then the count is the number of distinct destinations plus the number of snapshot URIs that stand
    for the name. A channel with a count is in the map, and in any run a name has exactly one poll
    task if it is in the map and none otherwise.
   */
  lemma ReferenceCountsAgree(actions: seq<Action>, s: State, sanitize: Sanitizer, pv: string)
    requires Leads(Init(), actions, s, sanitize)
    ensures NeverErasesClaimed(Init(), actions, pv, sanitize) ==>
              KeepAlive(s.channels, pv) == |Destinations(s.topics, pv)| + Holding(s.snapshots, pv, sanitize)
    ensures NoDuplicates(Destinations(s.topics, pv))
    ensures KeepAlive(s.channels, pv) > 0 ==> pv in s.channels.entries
    ensures AllPolls(s.channels, pv) == if pv in s.channels.entries then 1 else 0
  {
    AgreementFrom(Init(), actions, s, pv, sanitize);
    InvLeads(Init(), actions, s, sanitize);
  }

  // ---------------------------------------------------------------- between the check and the erasure

  /** The action claims that name. */
  predicate ClaimsName(a: Action, pv: string, sanitize: Sanitizer) {
    (a.MonitorStart? || a.Hold?) && sanitize(a.uri) == Some(pv)
  }

  lemma ClaimsAfter(s: State, a: Action, pv: string, sanitize: Sanitizer)
    requires Possible(s, a, sanitize) && !ClaimsName(a, pv, sanitize)
    ensures Claims(After(s, a, sanitize), pv, sanitize) <= Claims(s, pv, sanitize)
  {
    match a
    case MonitorStop(uri, dest) =>
      if sanitize(uri).Some? { IndexInIs(Destinations(s.topics, sanitize(uri).value), dest); }
    case NewSnapshot => HoldingNew(s.snapshots, pv, sanitize);
    case Hold(k, uri) =>
      NamingConcat(s.snapshots[k], [uri], pv, sanitize);
      HoldingUpdate(s.snapshots, k, s.snapshots[k] + [uri], pv, sanitize);
    case Release(k, i) =>
      NamingWithout(s.snapshots[k], i, pv, sanitize);
      HoldingUpdate(s.snapshots, k, Without(s.snapshots[k], i), pv, sanitize);
    case _ =>
  }

  /** The action claims the name while a poll task of it has checked the count and not erased yet. */
  predicate ClaimsInWindow(s: State, a: Action, pv: string, sanitize: Sanitizer) {
    ClaimsName(a, pv, sanitize) && PollsOf(s.channels.leaving, pv) > 0
  }

  /** No claim of the name falls between the check of one of its poll tasks and the erasure that follows. */
  ghost predicate QuietWindows(s: State, actions: seq<Action>, pv: string, sanitize: Sanitizer)
    decreases |actions|
  {
    actions != [] && Possible(s, actions[0], sanitize) ==>
      && !ClaimsInWindow(s, actions[0], pv, sanitize)
      && QuietWindows(After(s, actions[0], sanitize), actions[1..], pv, sanitize)
  }

  /** A name whose poll task is leaving has no claim. */
  predicate LeavesUnclaimed(s: State, pv: string, sanitize: Sanitizer) {
    PollsOf(s.channels.leaving, pv) > 0 ==> Claims(s, pv, sanitize) == 0
  }

  lemma QuietAfter(s: State, a: Action, pv: string, sanitize: Sanitizer)
    requires Possible(s, a, sanitize) && Agrees(s, pv, sanitize) && LeavesUnclaimed(s, pv, sanitize)
    requires !ClaimsInWindow(s, a, pv, sanitize)
    ensures !ErasesClaimed(s, a, pv, sanitize) && LeavesUnclaimed(After(s, a, sanitize), pv, sanitize)
  {
    if !ClaimsName(a, pv, sanitize) {
      ClaimsAfter(s, a, pv, sanitize);
    }
    if a.Leave? {
      PollsWithout(s.channels.leaving, a.i, pv);
    } else if a.StartPoll? {
      PollsConcat(s.channels.leaving, [s.channels.queued[a.i]], pv);
    }
  }

  lemma {:induction false} QuietFrom(s: State, actions: seq<Action>, s': State, pv: string, sanitize: Sanitizer)
    requires Inv(s) && Agrees(s, pv, sanitize) && LeavesUnclaimed(s, pv, sanitize)
    requires Leads(s, actions, s', sanitize) && QuietWindows(s, actions, pv, sanitize)
    ensures NeverErasesClaimed(s, actions, pv, sanitize)
    decreases |actions|
  {
    if actions != [] {
      QuietAfter(s, actions[0], pv, sanitize);
      InvAfter(s, actions[0], sanitize);
      AgreesAfter(s, actions[0], pv, sanitize);
      QuietFrom(After(s, actions[0], sanitize), actions[1..], s', pv, sanitize);
    }
  }

  /**
    A run in which no claim of the name falls between a check and the erasure that follows agrees all
    the way. The converse fails only by claims that are given up again before the erasure.
   */
  lemma QuietWindowsAgree(actions: seq<Action>, s: State, sanitize: Sanitizer, pv: string)
    requires Leads(Init(), actions, s, sanitize) && QuietWindows(Init(), actions, pv, sanitize)
    ensures AlwaysAgrees(Init(), actions, pv, sanitize)
  {
    QuietFrom(Init(), actions, s, pv, sanitize);
    AgreementIff(actions, s, sanitize, pv);
  }

  /**
    With the count in order, a poll task that starts is going to leave exactly if nobody claims its
    channel. Left alone it then erases the entry, and otherwise it polls and the entry stays.
   */
  lemma AbandonedIsErased(s: State, i: nat, sanitize: Sanitizer)
    requires Inv(s) && Possible(s, StartPoll(i), sanitize) && Agrees(s, s.channels.queued[i].pv, sanitize)
    ensures var p, c, c' := s.channels.queued[i], s.channels, After(s, StartPoll(i), sanitize).channels;
            if Claims(s, p.pv, sanitize) == 0
            then c'.leaving == c.leaving + [p] && PollLeft(c', |c.leaving|).entries == c.entries - {p.pv}
            else c'.leaving == c.leaving && c'.running == c.running + [p] && c'.entries == c.entries && p.pv in c.entries
  {
    var p, c := s.channels.queued[i], s.channels;
    PollsWithout(c.queued, i, p.pv);
    assert AllPolls(c, p.pv) == if p.pv in c.entries then 1 else 0;
    StartedPolls(c, i);
    if Claims(s, p.pv, sanitize) == 0 {
      LeaveErases(PollStarted(c, i), |c.leaving|);
    }
  }

  /** One destination that gives up a channel and takes it again between the check and the erasure. */
  function LosingRun(uri: string, dest: string): seq<Action> {
    [MonitorStart(uri, dest), MonitorStop(uri, dest), StartPoll(0), MonitorStart(uri, dest), Leave(0)]
  }

  /** The state after the check: the entry has no claim, and its poll task is leaving. */
  lemma CheckedAndLeaving(uri: string, dest: string, s': State, sanitize: Sanitizer)
    requires sanitize(uri).Some?
    ensures var pv := sanitize(uri).value;
            Leads(State(Channels(map[pv := Channel(0, 0)], [], [], [Poll(pv, 0)], 1), map[], []), LosingRun(uri, dest)[3..], s', sanitize)
            ==> Leads(Init(), LosingRun(uri, dest), s', sanitize)
  {
    var pv := sanitize(uri).value;
    var run := LosingRun(uri, dest);
    var s1 := After(Init(), run[0], sanitize);
    var s2 := After(s1, run[1], sanitize);
    assert s1.topics == map[pv := [dest]] && s1.channels.queued == [Poll(pv, 0)];
    assert s2.topics == map[] && s2.channels.entries == map[pv := Channel(0, 0)] && s2.channels.queued == [Poll(pv, 0)];
    var s3 := After(s2, run[2], sanitize);
    assert s3.channels == Channels(map[pv := Channel(0, 0)], [], [], [Poll(pv, 0)], 1);
    LeadsBy(Init(), run, s1, s', sanitize);
    LeadsBy(s1, run[1..], s2, s', sanitize);
    assert run[1..][1..] == run[2..] && run[2..][1..] == run[3..];
    LeadsBy(s2, run[2..], s3, s', sanitize);
  }

  /** It is left with a claim and no channel: no entry, no count, no poll task. */
  lemma ChannelLost(uri: string, dest: string, sanitize: Sanitizer) returns (s: State)
    requires sanitize(uri).Some?
    ensures var pv := sanitize(uri).value;
            && Leads(Init(), LosingRun(uri, dest), s, sanitize)
            && Claims(s, pv, sanitize) == 1 && pv !in s.channels.entries && AllPolls(s.channels, pv) == 0
  {
    var pv := sanitize(uri).value;
    var rest := LosingRun(uri, dest)[3..];
    var s3 := State(Channels(map[pv := Channel(0, 0)], [], [], [Poll(pv, 0)], 1), map[], []);
    assert rest == [MonitorStart(uri, dest), Leave(0)] && [] + [dest] == [dest];
    var s4 := After(s3, rest[0], sanitize);
    assert s4.topics == map[pv := [dest]] && s4.channels == Channels(map[pv := Channel(1, 0)], [], [], [Poll(pv, 0)], 1);
    s := After(s4, rest[1], sanitize);
    assert s.channels == Channels(map[], [], [], [], 1);
    LeadsBy(s3, rest, s4, s, sanitize);
    LeadsBy(s4, rest[1..], s, s, sanitize);
    CheckedAndLeaving(uri, dest, s, sanitize);
  }

  /** The first of some actions. */
  lemma LeadsBy(s: State, actions: seq<Action>, next: State, s': State, sanitize: Sanitizer)
    requires actions != [] && Possible(s, actions[0], sanitize) && next == After(s, actions[0], sanitize)
    ensures Leads(s, actions, s', sanitize) <==> Leads(next, actions[1..], s', sanitize)
  {
  }

  // ---------------------------------------------------------------- the objects

  class EpicsServiceManager {
    const sanitize: Sanitizer
    var entries: map<string, Channel>
    var queued: seq<Poll>
    var running: seq<Poll>
    var leaving: seq<Poll>
    var nextTask: nat

    constructor (sanitize: Sanitizer)
      ensures this.sanitize == sanitize && View() == Init().channels
    {
      this.sanitize := sanitize;
      entries, queued, running, leaving, nextTask := map[], [], [], [], 0;
    }

    ghost function View(): Channels
      reads this
    {
      Channels(entries, queued, running, leaving, nextTask)
    }

    method AddChannel(uri: string)
      modifies this
      ensures View() == if sanitize(uri).Some? then Added(old(View()), sanitize(uri).value) else old(View())
    {
      var sanitized := sanitize(uri);
      if sanitized.None? {
        return;
      }
      var pv := sanitized.value;
      if pv in entries {
        entries := entries[pv := entries[pv].(keepAlive := entries[pv].keepAlive + 1)];
        return;
      }
      entries := entries[pv := Channel(1, nextTask)];
      queued := queued + [Poll(pv, nextTask)];
      nextTask := nextTask + 1;
    }

    method RemoveChannel(uri: string)
      modifies this
      ensures View() == if sanitize(uri).Some? then Removed(old(View()), sanitize(uri).value) else old(View())
    {
      var sanitized := sanitize(uri);
      if sanitized.None? {
        return;
      }
      var pv := sanitized.value;
      if pv in entries {
        var previous := entries[pv].keepAlive;
        entries := entries[pv := entries[pv].(keepAlive := previous - 1)];
        if previous <= 1 {
          entries := entries[pv := entries[pv].(keepAlive := 0)];
        }
      }
    }

    /** task(), up to its poll or to the erasure. */
    method StartTask(i: nat) returns (leaves: bool)
      requires i < |queued|
      modifies this
      ensures View() == PollStarted(old(View()), i)
      ensures leaves <==> leaving == old(leaving) + [old(queued)[i]]
    {
      var p := queued[i];
      queued := Without(queued, i);
      leaves := p.pv in entries && entries[p.pv].keepAlive == 0;
      if leaves {
        leaving := leaving + [p];
      } else {
        running := running + [p];
      }
    }

    /** cleanupAndErase, the part under the lock of the map. */
    method CleanupAndErase(i: nat)
      requires i < |leaving|
      modifies this
      ensures View() == PollLeft(old(View()), i)
    {
      var p := leaving[i];
      leaving := Without(leaving, i);
      if p.pv in entries && entries[p.pv].task == p.task {
        entries := entries - {p.pv};
      }
    }
  }

  /** An entry of `pv_snapshot_map_`: events of the PV go to that snapshot. */
  datatype Route = Route(pv: string, snapshot: nat)

  function Routes(rs: seq<Route>, r: Route): nat {
    if rs == [] then 0 else (if rs[0] == r then 1 else 0) + Routes(rs[1..], r)
  }

  lemma {:induction false} RoutesConcat(a: seq<Route>, b: seq<Route>, r: Route)
    ensures Routes(a + b, r) == Routes(a, r) + Routes(b, r)
  {
    if a == [] {
      assert a + b == b;
    } else {
      RoutesConcat(a[1..], b, r);
      assert (a + b)[1..] == a[1..] + b;
    }
  }

  lemma RoutesWithout(rs: seq<Route>, i: nat, r: Route)
    requires i < |rs|
    ensures Routes(Without(rs, i), r) == Routes(rs, r) - if rs[i] == r then 1 else 0
  {
    RoutesConcat(rs[..i], rs[i + 1..], r);
    RoutesConcat(rs[..i], rs[i..], r);
    assert rs == rs[..i] + rs[i..] && rs[i..][1..] == rs[i + 1..];
  }

  lemma {:induction false} RouteIn(rs: seq<Route>, r: Route)
    ensures Routes(rs, r) > 0 <==> r in rs
  {
    if rs != [] {
      RouteIn(rs[1..], r);
    }
  }

  /** The monitor worker and the snapshot manager, as users of the EPICS service manager. */
  class ChannelUsers {
    const manager: EpicsServiceManager
    var topics: map<string, seq<string>>
    var snapshots: seq<seq<string>>
    var routes: seq<Route>

    constructor (manager: EpicsServiceManager)
      ensures this.manager == manager && topics == map[] && snapshots == [] && RoutesMatch()
    {
      this.manager := manager;
      topics, snapshots, routes := map[], [], [];
    }

    ghost function View(): State
      reads this, manager
    {
      State(manager.View(), topics, snapshots)
    }

    /** A snapshot is routed to once for every URI it holds of that PV. */
    ghost predicate RoutesMatch()
      reads this
    {
      forall r: Route :: Routes(routes, r) ==
                         if r.snapshot < |snapshots| then Naming(snapshots[r.snapshot], r.pv, manager.sanitize) else 0
    }

    method FindDestination(pv: string, dest: string) returns (found: Option<nat>)
      ensures found == IndexIn(Destinations(topics, pv), dest)
    {
      var dests := if pv in topics then topics[pv] else [];
      for i := 0 to |dests|
        invariant IndexIn(dests, dest) == (match IndexIn(dests[i..], dest) case None => None case Some(j) => Some(i + j))
      {
        assert dests[i..][0] == dests[i] && dests[i..][1..] == dests[i + 1..];
        if dests[i] == dest {
          return Some(i);
        }
      }
      return None;
    }

    /** handleMonitorCheckEvents. */
    method HandleMonitorEvent(start: bool, uri: string, dest: string)
      requires RoutesMatch()
      modifies this`topics, manager
      ensures RoutesMatch()
      ensures View() == After(old(View()), if start then MonitorStart(uri, dest) else MonitorStop(uri, dest), manager.sanitize)
    {
      var sanitized := manager.sanitize(uri);
      if sanitized.None? {
        return;
      }
      var pv := sanitized.value;
      ghost var before := Destinations(topics, pv);
      var found := FindDestination(pv, dest);
      IndexInIs(before, dest);
      if pv !in topics {
        topics := topics[pv := []];
      }
      if start {
        if found.None? {
          topics := topics[pv := topics[pv] + [dest]];
          manager.AddChannel(uri);
        }
      } else if found.Some? {
        topics := topics[pv := Without(topics[pv], found.value)];
        manager.RemoveChannel(uri);
        if topics[pv] == [] {
          topics := topics - {pv};
        }
      }
    }

    /** The part of startSnapshot after its checks: register the snapshot, then monitor every URI. */
    method StartSnapshot(uris: seq<string>) returns (ok: bool)
      requires RoutesMatch()
      modifies this`snapshots, this`routes, manager
      ensures RoutesMatch()
      ensures ok <==> forall i :: 0 <= i < |uris| ==> manager.sanitize(uris[i]).Some?
      ensures ok ==> View() == HeldAll(old(View()).(snapshots := old(snapshots) + [[]]), |old(snapshots)|, uris, manager.sanitize)
      ensures ok ==> snapshots == old(snapshots) + [uris]
      ensures !ok ==> View() == old(View())
    {
      ok := AllParse(uris);
      if ok {
        snapshots := snapshots + [[]];
        ghost var registered := View();
        HoldEach(uris);
        HeldAllHolds(registered, |old(snapshots)|, uris, manager.sanitize);
        assert registered.snapshots == old(snapshots) + [[]] && [] + uris == uris;
        assert View().snapshots == old(snapshots) + [uris];
      }
    }

    /** The loop of startSnapshot that sanitizes every URI. */
    method AllParse(uris: seq<string>) returns (ok: bool)
      ensures ok <==> forall i :: 0 <= i < |uris| ==> manager.sanitize(uris[i]).Some?
    {
      for i := 0 to |uris|
        invariant forall j :: 0 <= j < i ==> manager.sanitize(uris[j]).Some?
      {
        if manager.sanitize(uris[i]).None? {
          return false;
        }
      }
      return true;
    }

    /** The loops that associate and monitor the PVs of the snapshot just entered. */
    method HoldEach(uris: seq<string>)
      requires RoutesMatch() && snapshots != [] && forall i :: 0 <= i < |uris| ==> manager.sanitize(uris[i]).Some?
      modifies this`snapshots, this`routes, manager
      ensures RoutesMatch()
      ensures View() == HeldAll(old(View()), |old(snapshots)| - 1, uris, manager.sanitize)
    {
      ghost var first, k := View(), |snapshots| - 1;
      for i := 0 to |uris|
        invariant RoutesMatch() && View() == HeldAll(first, k, uris[..i], manager.sanitize)
      {
        HoldOne(uris[i]);
        assert uris[..i + 1] == uris[..i] + [uris[i]];
        HeldAllMore(first, k, uris[..i], uris[i], manager.sanitize);
      }
      assert uris[..|uris|] == uris;
    }

    method HoldOne(uri: string)
      requires RoutesMatch() && snapshots != [] && manager.sanitize(uri).Some?
      modifies this`snapshots, this`routes, manager
      ensures RoutesMatch()
      ensures View() == After(old(View()), Hold(|old(snapshots)| - 1, uri), manager.sanitize)
    {
      var k := |snapshots| - 1;
      ghost var snapshots0, routes0 := snapshots, routes;
      var added := Route(manager.sanitize(uri).value, k);
      routes := routes + [added];
      snapshots := snapshots[k := snapshots[k] + [uri]];
      manager.AddChannel(uri);
      forall r: Route ensures Routes(routes, r) ==
                              if r.snapshot < |snapshots| then Naming(snapshots[r.snapshot], r.pv, manager.sanitize) else 0 {
        RoutesConcat(routes0, [added], r);
        NamingConcat(snapshots0[k], [uri], r.pv, manager.sanitize);
        assert Routes(routes0, r) ==
               if r.snapshot < |snapshots0| then Naming(snapshots0[r.snapshot], r.pv, manager.sanitize) else 0;
      }
    }

    /** One round of the removal loop of the final pass: drop one route of the URI's PV, and the monitor. */
    method ReleaseOne(k: nat)
      requires RoutesMatch() && k < |snapshots| && snapshots[k] != [] && manager.sanitize(snapshots[k][0]).Some?
      modifies this`snapshots, this`routes, manager
      ensures RoutesMatch()
      ensures View() == After(old(View()), Release(k, 0), manager.sanitize)
    {
      var uri := snapshots[k][0];
      var gone := Route(manager.sanitize(uri).value, k);
      ghost var snapshots0, routes0 := snapshots, routes;
      NamingWithout(snapshots[k], 0, gone.pv, manager.sanitize);
      RouteIn(routes, gone);
      var at := FindRoute(gone);
      routes := Without(routes, at);
      snapshots := snapshots[k := Without(snapshots[k], 0)];
      manager.RemoveChannel(uri);
      forall r: Route ensures Routes(routes, r) ==
                              if r.snapshot < |snapshots| then Naming(snapshots[r.snapshot], r.pv, manager.sanitize) else 0 {
        RoutesWithout(routes0, at, r);
        NamingWithout(snapshots0[k], 0, r.pv, manager.sanitize);
        assert Routes(routes0, r) ==
               if r.snapshot < |snapshots0| then Naming(snapshots0[r.snapshot], r.pv, manager.sanitize) else 0;
      }
    }

    method FindRoute(r: Route) returns (at: nat)
      requires r in routes
      ensures at < |routes| && routes[at] == r
    {
      at := 0;
      while routes[at] != r
        invariant at < |routes| && r in routes[at..]
        decreases |routes| - at
      {
        assert routes[at..] == [routes[at]] + routes[at + 1..];
        at := at + 1;
      }
    }

    /** The final pass over a stopped snapshot: afterwards no PV is routed to it. */
    method StopSnapshot(k: nat)
      requires RoutesMatch() && k < |snapshots|
      requires forall i :: 0 <= i < |snapshots[k]| ==> manager.sanitize(snapshots[k][i]).Some?
      modifies this`snapshots, this`routes, manager
      ensures RoutesMatch() && snapshots == old(snapshots)[k := []]
      ensures forall r :: r in routes ==> r.snapshot != k
      ensures Leads(old(View()), seq(|old(snapshots)[k]|, _ => Release(k, 0)), View(), manager.sanitize)
    {
      ghost var before := View();
      ghost var uris := snapshots[k];
      ghost var n: nat := 0;
      LeadsNowhere(before, k, manager.sanitize);
      while snapshots[k] != []
        invariant RoutesMatch() && n <= |uris| && snapshots == before.snapshots[k := uris[n..]]
        invariant Leads(before, seq(n, _ => Release(k, 0)), View(), manager.sanitize)
        decreases |uris| - n
      {
        assert snapshots[k][0] == uris[n] && Without(uris[n..], 0) == uris[n + 1..];
        ghost var s := View();
        ReleaseOne(k);
        LeadsFurther(before, seq(n, _ => Release(k, 0)), s, Release(k, 0), manager.sanitize);
        assert seq(n, _ => Release(k, 0)) + [Release(k, 0)] == seq(n + 1, _ => Release(k, 0));
        n := n + 1;
      }
      forall r | r in routes ensures r.snapshot != k {
        RouteIn(routes, r);
        assert Routes(routes, r) == if r.snapshot < |snapshots| then Naming(snapshots[r.snapshot], r.pv, manager.sanitize) else 0;
      }
    }
  }

  lemma LeadsNowhere(s: State, k: nat, sanitize: Sanitizer)
    ensures Leads(s, seq(0, _ => Release(k, 0)), s, sanitize)
  {
  }

  lemma {:induction false} LeadsFurther(s: State, actions: seq<Action>, s': State, a: Action, sanitize: Sanitizer)
    requires Leads(s, actions, s', sanitize) && Possible(s', a, sanitize)
    ensures Leads(s, actions + [a], After(s', a, sanitize), sanitize)
    decreases |actions|
  {
    if actions == [] {
      assert actions + [a] == [a] && [a][1..] == [];
    } else {
      assert (actions + [a])[1..] == actions[1..] + [a];
      LeadsFurther(After(s, actions[0], sanitize), actions[1..], s', a, sanitize);
    }
  }

  /** A snapshot takes hold of its URIs one after another. */
  function HeldAll(s: State, k: nat, uris: seq<string>, sanitize: Sanitizer): (s': State)
    requires k < |s.snapshots| && forall i :: 0 <= i < |uris| ==> sanitize(uris[i]).Some?
    ensures |s'.snapshots| == |s.snapshots|
    decreases |uris|
  {
    if uris == [] then s else HeldAll(After(s, Hold(k, uris[0]), sanitize), k, uris[1..], sanitize)
  }

  /** It then holds exactly those, and nothing is taken from another snapshot. */
  lemma {:induction false} HeldAllHolds(s: State, k: nat, uris: seq<string>, sanitize: Sanitizer)
    requires k < |s.snapshots| && forall i :: 0 <= i < |uris| ==> sanitize(uris[i]).Some?
    ensures HeldAll(s, k, uris, sanitize).snapshots == s.snapshots[k := s.snapshots[k] + uris]
    decreases |uris|
  {
    if uris == [] {
      assert s.snapshots[k] + uris == s.snapshots[k];
    } else {
      HeldAllHolds(After(s, Hold(k, uris[0]), sanitize), k, uris[1..], sanitize);
      assert s.snapshots[k] + uris == s.snapshots[k] + [uris[0]] + uris[1..];
    }
  }

  lemma {:induction false} HeldAllMore(s: State, k: nat, uris: seq<string>, uri: string, sanitize: Sanitizer)
    requires k < |s.snapshots| && sanitize(uri).Some? && forall i :: 0 <= i < |uris| ==> sanitize(uris[i]).Some?
    ensures HeldAll(s, k, uris + [uri], sanitize) == After(HeldAll(s, k, uris, sanitize), Hold(k, uri), sanitize)
    decreases |uris|
  {
    if uris == [] {
      assert uris + [uri] == [uri] && [uri][1..] == [];
    } else {
      assert (uris + [uri])[1..] == uris[1..] + [uri];
      HeldAllMore(After(s, Hold(k, uris[0]), sanitize), k, uris[1..], uri, sanitize);
    }
  }
}
