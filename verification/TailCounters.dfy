/**
  The process-wide event counters that a tail logs: one table for all snapshots and iterations,
  keyed by a string. Keys of different iterations never collide, so the table behaves as one
  counter per snapshot and iteration.
 */
module TailCounters {
  import opened Types

  /** std::to_string of an unsigned number. */
  function Decimal(n: nat): (s: string)
    ensures s != [] && '#' !in s
  {
    var digit := ["0123456789"[n % 10]];
    if n < 10 then digit else Decimal(n / 10) + digit
  }

  function TailKey(name: string, iteration: nat): string {
    name + "#" + Decimal(iteration)
  }

  lemma {:induction false} DecimalInjective(a: nat, b: nat)
    requires Decimal(a) == Decimal(b)
    ensures a == b
  {
    LastDigit(a);
    LastDigit(b);
    if a >= 10 && b >= 10 {
      DecimalInjective(a / 10, b / 10);
    }
  }

  lemma LastDigit(n: nat)
    ensures var s := Decimal(n); s[|s| - 1] == "0123456789"[n % 10] && s[..|s| - 1] == (if n < 10 then "" else Decimal(n / 10))
  {
  }

  /** In a key, the '#' after the name is the last one. */
  lemma NoLaterHash(x: string, u: string)
    requires '#' !in u
    ensures var s := x + "#" + u; s[|x|] == '#' && forall i :: |x| < i < |s| ==> s[i] != '#'
  {
    var s := x + "#" + u;
    forall i | |x| < i < |s| ensures s[i] != '#' {
      assert s[i] == u[i - |x| - 1];
    }
  }

  lemma LastHash(x: string, y: string, u: string, v: string)
    requires x + "#" + u == y + "#" + v && '#' !in u && '#' !in v
    ensures x == y && u == v
  {
    NoLaterHash(x, u);
    NoLaterHash(y, v);
    var s, t := x + "#" + u, y + "#" + v;
    assert |x| == |y|;
    assert s[..|x|] == x && t[..|y|] == y && s[|x| + 1..] == u && t[|y| + 1..] == v;
  }

  lemma KeysNeverCollide(name: string, iteration: nat, name': string, iteration': nat)
    ensures TailKey(name, iteration) == TailKey(name', iteration') <==> name == name' && iteration == iteration'
  {
    if TailKey(name, iteration) == TailKey(name', iteration') {
      LastHash(name, name', Decimal(iteration), Decimal(iteration'));
      DecimalInjective(iteration, iteration');
    }
  }

  class TailEventCounters {
    var counters: map<string, nat>

    constructor ()
      ensures counters == map[]
    {
      counters := map[];
    }

    ghost function Entry(name: string, iteration: nat): Option<nat>
      reads this
    {
      if TailKey(name, iteration) in counters then Some(counters[TailKey(name, iteration)]) else None
    }

    /** add_events_for_iteration: nothing else changes, and a zero count leaves no entry. */
    method AddEvents(name: string, iteration: nat, count: nat)
      modifies this
      ensures Entry(name, iteration) ==
              if count == 0 then old(Entry(name, iteration))
              else Some(count + if old(Entry(name, iteration)).Some? then old(Entry(name, iteration)).value else 0)
      ensures forall n, i | n != name || i != iteration :: Entry(n, i) == old(Entry(n, i))
    {
      if count == 0 {
        return;
      }
      var key := TailKey(name, iteration);
      counters := counters[key := (if key in counters then counters[key] else 0) + count];
      forall n, i | n != name || i != iteration ensures Entry(n, i) == old(Entry(n, i)) {
        KeysNeverCollide(n, i, name, iteration);
      }
    }

    /** take_events_for_iteration: reads the counter and removes it. */
    method TakeEvents(name: string, iteration: nat) returns (count: nat)
      modifies this
      ensures count == if old(Entry(name, iteration)).Some? then old(Entry(name, iteration)).value else 0
      ensures Entry(name, iteration) == None
      ensures forall n, i | n != name || i != iteration :: Entry(n, i) == old(Entry(n, i))
    {
      var key := TailKey(name, iteration);
      if key !in counters {
        return 0;
      }
      count := counters[key];
      counters := counters - {key};
      forall n, i | n != name || i != iteration ensures Entry(n, i) == old(Entry(n, i)) {
        KeysNeverCollide(n, i, name, iteration);
      }
    }
  }
}
