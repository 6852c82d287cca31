/**
  Who is served by a monitored channel: the destinations of a PV are those whose last command was a
  start, whatever else the monitor worker, the snapshots and the poll tasks have done in between.
 */
module ChannelDestinations {
  import opened Types
  import opened ChannelCounts

  /** The list without that destination, in its order. */
  function Except(dests: seq<string>, dest: string): seq<string> {
    if dests == [] then []
    else (if dests[0] == dest then [] else [dests[0]]) + Except(dests[1..], dest)
  }

  lemma {:induction false} ExceptIs(dests: seq<string>, dest: string)
    ensures forall d :: d in Except(dests, dest) <==> d in dests && d != dest
    ensures dest !in dests ==> Except(dests, dest) == dests
  {
    if dests != [] {
      ExceptIs(dests[1..], dest);
    }
  }

  lemma {:induction false} WithoutIsExcept(dests: seq<string>, i: nat)
    requires NoDuplicates(dests) && i < |dests|
    ensures Without(dests, i) == Except(dests, dests[i])
  {
    if i == 0 {
      ExceptIs(dests[1..], dests[0]);
    } else {
      WithoutIsExcept(dests[1..], i - 1);
      assert Without(dests, i) == [dests[0]] + Without(dests[1..], i - 1);
    }
  }

  /** A stop gives up the destination it names: all others stay, in their order, and so do other PVs. */
  lemma StopGivesUp(s: State, uri: string, dest: string, sanitize: Sanitizer, pv: string)
    requires DistinctTopics(s.topics)
    ensures var s' := After(s, MonitorStop(uri, dest), sanitize);
            Destinations(s'.topics, pv) ==
            if sanitize(uri) == Some(pv) then Except(Destinations(s.topics, pv), dest) else Destinations(s.topics, pv)
  {
    var dests := Destinations(s.topics, pv);
    IndexInIs(dests, dest);
    ExceptIs(dests, dest);
    if IndexIn(dests, dest).Some? {
      WithoutIsExcept(dests, IndexIn(dests, dest).value);
    }
  }

  /** A start adds the destination it names at the end, unless it is there. */
  lemma StartAdds(s: State, uri: string, dest: string, sanitize: Sanitizer, pv: string)
    ensures var s', dests := After(s, MonitorStart(uri, dest), sanitize), Destinations(s.topics, pv);
            Destinations(s'.topics, pv) == dests + if sanitize(uri) == Some(pv) && dest !in dests then [dest] else []
  {
  }

  /** The command starts, or stops, that destination of that PV. */
  predicate Starts(a: Action, pv: string, dest: string, sanitize: Sanitizer) {
    a.MonitorStart? && sanitize(a.uri) == Some(pv) && a.dest == dest
  }

  predicate Stops(a: Action, pv: string, dest: string, sanitize: Sanitizer) {
    a.MonitorStop? && sanitize(a.uri) == Some(pv) && a.dest == dest
  }

  ghost predicate NeverStopped(actions: seq<Action>, from: nat, pv: string, dest: string, sanitize: Sanitizer) {
    forall m: nat :: from <= m < |actions| ==> !Stops(actions[m], pv, dest, sanitize)
  }

  /** Some command has started the destination, and none has stopped it since. */
  ghost predicate LastStarted(actions: seq<Action>, pv: string, dest: string, sanitize: Sanitizer) {
    exists k: nat :: k < |actions| && Starts(actions[k], pv, dest, sanitize) && NeverStopped(actions, k, pv, dest, sanitize)
  }

  lemma LaterNeverStopped(actions: seq<Action>, from: nat, pv: string, dest: string, sanitize: Sanitizer)
    requires 0 < from <= |actions|
    ensures NeverStopped(actions, from, pv, dest, sanitize) <==> NeverStopped(actions[1..], from - 1, pv, dest, sanitize)
  {
    if NeverStopped(actions, from, pv, dest, sanitize) {
      forall m: nat | from - 1 <= m < |actions| - 1 ensures !Stops(actions[1..][m], pv, dest, sanitize) {
        assert actions[1..][m] == actions[m + 1];
      }
    }
    if NeverStopped(actions[1..], from - 1, pv, dest, sanitize) {
      forall m: nat | from <= m < |actions| ensures !Stops(actions[m], pv, dest, sanitize) {
        assert actions[1..][m - 1] == actions[m];
      }
    }
  }

  lemma LastStartedStep(actions: seq<Action>, pv: string, dest: string, sanitize: Sanitizer)
    requires actions != []
    ensures LastStarted(actions, pv, dest, sanitize) <==>
              || LastStarted(actions[1..], pv, dest, sanitize)
              || (Starts(actions[0], pv, dest, sanitize) && NeverStopped(actions[1..], 0, pv, dest, sanitize))
    ensures NeverStopped(actions, 0, pv, dest, sanitize) <==>
              !Stops(actions[0], pv, dest, sanitize) && NeverStopped(actions[1..], 0, pv, dest, sanitize)
  {
    forall k: nat | 0 < k <= |actions|
      ensures NeverStopped(actions, k, pv, dest, sanitize) <==> NeverStopped(actions[1..], k - 1, pv, dest, sanitize)
    {
      LaterNeverStopped(actions, k, pv, dest, sanitize);
    }
    if LastStarted(actions[1..], pv, dest, sanitize) {
      var k: nat :| k < |actions[1..]| && Starts(actions[1..][k], pv, dest, sanitize) && NeverStopped(actions[1..], k, pv, dest, sanitize);
      assert Starts(actions[k + 1], pv, dest, sanitize) && NeverStopped(actions, k + 1, pv, dest, sanitize);
    }
    if LastStarted(actions, pv, dest, sanitize) {
      var k: nat :| k < |actions| && Starts(actions[k], pv, dest, sanitize) && NeverStopped(actions, k, pv, dest, sanitize);
      if k > 0 {
        assert Starts(actions[1..][k - 1], pv, dest, sanitize);
      }
    }
    if Starts(actions[0], pv, dest, sanitize) && NeverStopped(actions[1..], 0, pv, dest, sanitize) {
      assert NeverStopped(actions, 1, pv, dest, sanitize) && NeverStopped(actions, 0, pv, dest, sanitize);
    }
    if NeverStopped(actions, 0, pv, dest, sanitize) {
      assert NeverStopped(actions, 1, pv, dest, sanitize);
    }
  }

  /** One command or step, seen from one destination of one PV. */
  lemma ServedStep(s: State, a: Action, sanitize: Sanitizer, pv: string, dest: string)
    requires DistinctTopics(s.topics) && Possible(s, a, sanitize)
    ensures dest in Destinations(After(s, a, sanitize).topics, pv) <==>
              Starts(a, pv, dest, sanitize) || (dest in Destinations(s.topics, pv) && !Stops(a, pv, dest, sanitize))
  {
    match a
    case MonitorStart(uri, d) => StartAdds(s, uri, d, sanitize, pv);
    case MonitorStop(uri, d) =>
      StopGivesUp(s, uri, d, sanitize, pv);
      ExceptIs(Destinations(s.topics, pv), d);
    case _ =>
  }

  lemma {:induction false} ServedFrom(s: State, actions: seq<Action>, s': State, sanitize: Sanitizer, pv: string, dest: string)
    requires DistinctTopics(s.topics) && Leads(s, actions, s', sanitize)
    ensures dest in Destinations(s'.topics, pv) <==>
              || LastStarted(actions, pv, dest, sanitize)
              || (dest in Destinations(s.topics, pv) && NeverStopped(actions, 0, pv, dest, sanitize))
    decreases |actions|
  {
    if actions != [] {
      TopicsAfter(s, actions[0], sanitize);
      ServedStep(s, actions[0], sanitize, pv, dest);
      ServedFrom(After(s, actions[0], sanitize), actions[1..], s', sanitize, pv, dest);
      LastStartedStep(actions, pv, dest, sanitize);
    }
  }

  /**
    In any run a destination is served with a PV exactly if some command has started it and none has
    stopped it since; and it is listed once.
   */
  lemma ServedIff(actions: seq<Action>, s: State, sanitize: Sanitizer, pv: string, dest: string)
    requires Leads(Init(), actions, s, sanitize)
    ensures dest in Destinations(s.topics, pv) <==> LastStarted(actions, pv, dest, sanitize)
    ensures NoDuplicates(Destinations(s.topics, pv))
  {
    ServedFrom(Init(), actions, s, sanitize, pv, dest);
    InvLeads(Init(), actions, s, sanitize);
  }
}
