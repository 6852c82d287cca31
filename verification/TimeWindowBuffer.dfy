/** TimeWindowEventBuffer: a growing ring buffer that keeps the events of a time window. */
module TimeWindowBuffer {
  import opened Types

  datatype Entry<T> = Entry(timestamp: int, event: T)

  // ---------------------------------------------------------------- specification on sequences

  /** Drop entries from the front while they are older than the window. */
  function Pruned<T>(c: seq<Entry<T>>, now: int, window: int): seq<Entry<T>> {
    if c != [] && now - c[0].timestamp > window then Pruned(c[1..], now, window) else c
  }

  function Pushed<T>(c: seq<Entry<T>>, e: Entry<T>, window: int): seq<Entry<T>> {
    Pruned(c, e.timestamp, window) + [e]
  }

  function Events<T>(c: seq<Entry<T>>): seq<T> {
    seq(|c|, i requires 0 <= i < |c| => c[i].event)
  }

  /** The values f keeps, in order. */
  function Mapped<T, U>(c: seq<Entry<T>>, f: T -> Option<U>): seq<U> {
    if c == [] then []
    else
      var u := f(c[|c| - 1].event);
      Mapped(c[..|c| - 1], f) + if u.Some? then [u.value] else []
  }

  /** Every event gives its value, if f keeps it, in its place. */
  lemma {:induction false} MappedInPlace<T, U>(a: seq<Entry<T>>, e: Entry<T>, b: seq<Entry<T>>, f: T -> Option<U>)
    ensures Mapped(a + [e] + b, f) == Mapped(a, f) + (match f(e.event) case None => [] case Some(u) => [u]) + Mapped(b, f)
  {
    if b == [] {
      assert a + [e] + b == a + [e] && (a + [e])[..|a|] == a;
    } else {
      var n := |b| - 1;
      assert (a + [e] + b)[..|a| + 1 + n] == a + [e] + b[..n];
      MappedInPlace(a, e, b[..n], f);
    }
  }

  /** The entries that are at most `window` older than `now`. */
  function Within<T>(c: seq<Entry<T>>, now: int, window: int): seq<Entry<T>> {
    if c == [] then []
    else (if now - c[0].timestamp <= window then [c[0]] else []) + Within(c[1..], now, window)
  }

  ghost predicate InTimeOrder<T>(c: seq<Entry<T>>) {
    forall i, j :: 0 <= i < j < |c| ==> c[i].timestamp <= c[j].timestamp
  }

  // ---------------------------------------------------------------- the ring

  /** Position i steps after `head` in a ring of n cells. */
  function Wrapped(head: nat, i: nat, n: nat): (p: nat)
    requires head < n && i <= n
    ensures p < n
  {
    if head + i < n then head + i else head + i - n
  }

  lemma ModIsWrap(x: nat, n: nat)
    requires 0 < n && x < 2 * n
    ensures x % n == if x < n then x else x - n
  {
    if x >= n {
      assert x == n + (x - n);
    }
  }

  class TimeWindowEventBuffer<T(0)> {
    var buffer: array<Entry<T>>
    var head: nat   // the oldest entry
    var tail: nat   // the next free cell
    var count: nat
    const window: int
    const maxSize: nat
    const growFactor: nat

    constructor (window: int, reserve: nat, grow: nat)
      requires reserve >= 1 && grow >= 2
      ensures Valid() && fresh(buffer) && Contents() == [] && this.window == window
      ensures maxSize == reserve
    {
      buffer := new Entry<T>[reserve];
      head, tail, count := 0, 0, 0;
      this.window := window;
      maxSize, growFactor := reserve, grow;
    }

    ghost predicate Valid()
      reads this
    {
      && maxSize >= 1 && growFactor >= 2
      && head < buffer.Length && count <= buffer.Length
      && tail == Wrapped(head, count, buffer.Length)
    }

    ghost function Contents(): (c: seq<Entry<T>>)
      requires Valid()
      reads this, buffer
      ensures |c| == count
    {
      seq(count, i requires 0 <= i < count && Valid() reads this, buffer => buffer[Wrapped(head, i, buffer.Length)])
    }

    method Push(value: T, timestamp: int) returns (ok: bool)
      requires Valid()
      modifies this, buffer
      ensures Valid() && ok
      ensures buffer == old(buffer) || fresh(buffer)
      ensures Contents() == Pushed(old(Contents()), Entry(timestamp, value), window)
    {
      PruneOldIfNeeded(timestamp);
      if count == buffer.Length {
        ExpandBuffer();
      }
      Store(Entry(timestamp, value));
      ok := true;
    }

    /** Write at the tail; a full buffer would lose its oldest entry, but this one has just been grown. */
    method Store(e: Entry<T>)
      requires Valid() && count < buffer.Length
      modifies this`tail, this`count, buffer
      ensures Valid() && Contents() == old(Contents()) + [e]
    {
      ghost var kept := Contents();
      ModIsWrap(tail + 1, buffer.Length);
      buffer[tail] := e;
      tail := (tail + 1) % buffer.Length;
      if count < buffer.Length {
        count := count + 1;
      } else {
        assert false;
      }
      assert Contents() == kept + [e];
    }

    method PruneOldIfNeeded(now: int)
      requires Valid()
      modifies this`head, this`count
      ensures Valid()
      ensures Contents() == Pruned(old(Contents()), now, window)
    {
      ghost var all := Contents();
      while count > 0 && now - buffer[head].timestamp > window
        invariant Valid()
        invariant Pruned(Contents(), now, window) == Pruned(all, now, window)
      {
        ghost var before := Contents();
        assert buffer[head] == before[0];
        ModIsWrap(head + 1, buffer.Length);
        head := (head + 1) % buffer.Length;
        count := count - 1;
        assert Contents() == before[1..];
      }
      assert count > 0 ==> Contents()[0] == buffer[head];
    }

    method ExpandBuffer()
      requires Valid()
      modifies this`buffer, this`head, this`tail
      ensures Valid() && fresh(buffer) && buffer.Length > old(buffer.Length)
      ensures Contents() == old(Contents())
    {
      ghost var before := Contents();
      var newSize := if buffer.Length == 0 then maxSize else buffer.Length * growFactor;
      Grows(buffer.Length, growFactor);
      var newBuffer := new Entry<T>[newSize];
      var i := 0;
      while i < count
        invariant 0 <= i <= count
        invariant Valid() && Contents() == before && buffer == old(buffer) && newSize == newBuffer.Length
        invariant newBuffer[..i] == before[..i]
      {
        ModIsWrap(head + i, buffer.Length);
        newBuffer[i] := buffer[(head + i) % buffer.Length];
        assert newBuffer[i] == before[i];
        i := i + 1;
      }
      assert newBuffer[..count] == before;
      buffer := newBuffer;
      head := 0;
      tail := count;
      assert Contents() == newBuffer[..count];
    }

    method FetchWindow() returns (out: seq<T>)
      requires Valid()
      ensures out == Events(Contents())
    {
      out := [];
      var i, idx := 0, head;
      while i < count
        invariant 0 <= i <= count && idx == Wrapped(head, i, buffer.Length)
        invariant out == Events(Contents()[..i])
      {
        ModIsWrap(idx + 1, buffer.Length);
        out := out + [buffer[idx].event];
        i, idx := i + 1, (idx + 1) % buffer.Length;
      }
    }

    /** fetchWindow with a filter: keep what f turns into a value. */
    method FetchMapped<U>(f: T -> Option<U>) returns (out: seq<U>)
      requires Valid()
      ensures out == Mapped(Contents(), f)
    {
      out := [];
      var i, idx := 0, head;
      while i < count
        invariant 0 <= i <= count && idx == Wrapped(head, i, buffer.Length)
        invariant out == Mapped(Contents()[..i], f)
      {
        ModIsWrap(idx + 1, buffer.Length);
        assert Contents()[..i + 1][..i] == Contents()[..i];
        var u := f(buffer[idx].event);
        if u.Some? {
          out := out + [u.value];
        }
        i, idx := i + 1, (idx + 1) % buffer.Length;
      }
      assert Contents()[..count] == Contents();
    }

    method Reset()
      requires Valid()
      modifies this`buffer, this`head, this`tail, this`count
      ensures Valid() && fresh(buffer) && Contents() == []
    {
      buffer := new Entry<T>[maxSize];
      head, tail, count := 0, 0, 0;
    }
  }

  lemma Grows(n: nat, factor: nat)
    requires n >= 1 && factor >= 2
    ensures n * factor > n
  {
  }

  // ---------------------------------------------------------------- whole histories

  datatype Use<T> = Push(entry: Entry<T>) | Fetch | Reset

  /** What a buffer contains after a history, by the contracts of its methods. */
  function After<T>(uses: seq<Use<T>>, window: int): seq<Entry<T>> {
    if uses == [] then []
    else
      var before := After(uses[..|uses| - 1], window);
      match uses[|uses| - 1]
      case Push(e) => Pushed(before, e, window)
      case Fetch => before
      case Reset => []
  }

  /** Everything pushed since the last reset. */
  function SinceReset<T>(uses: seq<Use<T>>): seq<Entry<T>> {
    if uses == [] then []
    else
      var before := SinceReset(uses[..|uses| - 1]);
      match uses[|uses| - 1]
      case Push(e) => before + [e]
      case Fetch => before
      case Reset => []
  }

  function LastTime<T>(c: seq<Entry<T>>): int {
    if c == [] then 0 else c[|c| - 1].timestamp
  }

  lemma {:induction false} PrunedIsWithin<T>(c: seq<Entry<T>>, now: int, window: int)
    requires InTimeOrder(c)
    ensures Pruned(c, now, window) == Within(c, now, window)
  {
    if c != [] {
      PrunedIsWithin(c[1..], now, window);
      if now - c[0].timestamp <= window {
        AllWithin(c, now, window);
      }
    }
  }

  lemma {:induction false} AllWithin<T>(c: seq<Entry<T>>, now: int, window: int)
    requires forall i :: 0 <= i < |c| ==> now - c[i].timestamp <= window
    ensures Within(c, now, window) == c
  {
    if c != [] {
      AllWithin(c[1..], now, window);
    }
  }

  lemma {:induction false} WithinAppend<T>(c: seq<Entry<T>>, e: Entry<T>, now: int, window: int)
    ensures Within(c + [e], now, window) == Within(c, now, window) + if now - e.timestamp <= window then [e] else []
  {
    if c != [] {
      assert (c + [e])[1..] == c[1..] + [e];
      WithinAppend(c[1..], e, now, window);
    }
  }

  lemma {:induction false} WithinTwice<T>(c: seq<Entry<T>>, now: int, later: int, window: int)
    requires now <= later
    ensures Within(Within(c, now, window), later, window) == Within(c, later, window)
  {
    if c != [] {
      WithinTwice(c[1..], now, later, window);
      if now - c[0].timestamp <= window {
        assert ([c[0]] + Within(c[1..], now, window))[1..] == Within(c[1..], now, window);
      } else {
        assert Within(c, now, window) == Within(c[1..], now, window);
        assert Within(c, later, window) == Within(c[1..], later, window);
      }
    }
  }

  lemma {:induction false} WithinInOrder<T>(c: seq<Entry<T>>, now: int, window: int)
    requires InTimeOrder(c)
    ensures InTimeOrder(Within(c, now, window))
    ensures forall e :: e in Within(c, now, window) ==> e in c
  {
    if c != [] {
      WithinInOrder(c[1..], now, window);
      var rest := Within(c[1..], now, window);
      forall i | 0 <= i < |rest| ensures c[0].timestamp <= rest[i].timestamp {
        assert rest[i] in c[1..];
        var j :| 0 <= j < |c[1..]| && c[1..][j] == rest[i];
        assert c[j + 1] == rest[i];
      }
    }
  }

  /**
    Through any mix of pushes in time order, fetches, growth and resets, the buffer holds exactly what
    was pushed since the last reset and is within the window of the last push.
   */
  lemma {:induction false} KeepsTheWindow<T>(uses: seq<Use<T>>, window: int)
    requires window >= 0 && InTimeOrder(SinceReset(uses))
    ensures After(uses, window) == Within(SinceReset(uses), LastTime(SinceReset(uses)), window)
  {
    if uses != [] {
      var n := |uses| - 1;
      var u := uses[n];
      var before := SinceReset(uses[..n]);
      if !u.Reset? {
        assert u.Push? ==> forall i :: 0 <= i < |before| ==> before[i] == SinceReset(uses)[i];
        KeepsTheWindow(uses[..n], window);
        if u.Push? {
          PushKeepsTheWindow(before, u.entry, window);
        }
      }
    }
  }

  lemma PushKeepsTheWindow<T>(before: seq<Entry<T>>, e: Entry<T>, window: int)
    requires window >= 0 && InTimeOrder(before + [e])
    ensures Pushed(Within(before, LastTime(before), window), e, window) == Within(before + [e], e.timestamp, window)
  {
    var now, later := LastTime(before), e.timestamp;
    assert forall i :: 0 <= i < |before| ==> (before + [e])[i] == before[i];
    assert InTimeOrder(before);
    WithinInOrder(before, now, window);
    PrunedIsWithin(Within(before, now, window), later, window);
    if before != [] {
      assert (before + [e])[|before| - 1].timestamp <= (before + [e])[|before|].timestamp;
      WithinTwice(before, now, later, window);
    }
    WithinAppend(before, e, later, window);
  }
}
