/** The bounded DNS history: a ring of entries against the plain list of what was added. */
module DnsHistory {

  /** The last n elements, newest first. */
  function Newest<T>(history: seq<T>, n: nat): seq<T>
    requires n <= |history|
  {
    seq(n, i requires 0 <= i < n => history[|history| - 1 - i])
  }

  function Min(a: nat, b: nat): nat {
    if a < b then a else b
  }

  lemma SmallMod(x: nat, n: nat)
    requires 0 < n && x < 2 * n
    ensures x % n == if x < n then x else x - n
  {
  }

  /** Read from the next slot on, and round, a full ring is the end of the history;
      before it is full, the slots up to the next one are all of it. */
  ghost predicate IsRing<T>(entries: seq<T>, next: nat, full: bool, history: seq<T>)
    requires next <= |entries|
  {
    if full then |entries| <= |history| && entries[next..] + entries[..next] == history[|history| - |entries|..]
    else entries[..next] == history
  }

  lemma RingAdd<T>(entries: seq<T>, next: nat, full: bool, history: seq<T>, q: T)
    requires next < |entries| && IsRing(entries, next, full, history)
    ensures var after := if next + 1 == |entries| then 0 else next + 1;
            IsRing(entries[next := q], after, full || after == 0, history + [q])
  {
    if full {
      RingAddFull(entries, next, history, q);
    } else {
      var written := entries[next := q];
      assert written[..next + 1] == entries[..next] + [q];
      if next + 1 == |entries| {
        assert written[0..] + written[..0] == written == written[..next + 1];
      }
    }
  }

  /** A full ring loses its oldest entry, the one in the next slot. */
  lemma RingAddFull<T>(entries: seq<T>, next: nat, history: seq<T>, q: T)
    requires next < |entries| && IsRing(entries, next, true, history)
    ensures IsRing(entries[next := q], if next + 1 == |entries| then 0 else next + 1, true, history + [q])
  {
    var written := entries[next := q];
    var kept := history[|history| - |entries|..];
    assert written == entries[..next] + [q] + entries[next + 1..];
    assert kept[1..] == entries[next + 1..] + entries[..next];
    assert (history + [q])[|history| + 1 - |entries|..] == kept[1..] + [q];
    if next + 1 == |entries| {
      assert written[0..] + written[..0] == written == entries[..next] + [q];
    } else {
      assert written[next + 1..] == entries[next + 1..];
      assert written[..next + 1] == entries[..next] + [q];
    }
  }

  class Log<Query> {
    const zero: Query
    const entries: array<Query>
    var next: nat
    var full: bool

    /** Everything added since the start or the last Clear. */
    ghost var history: seq<Query>

    ghost predicate Valid()
      reads this, entries
    {
      (next < entries.Length || entries.Length == next == 0) && (full ==> entries.Length > 0)
      && IsRing(entries[..], next, full, history)
    }

    constructor (capacity: nat, zero: Query)
      ensures Valid() && fresh(entries) && entries.Length == capacity && history == []
    {
      this.zero := zero;
      entries := new Query[capacity](_ => zero);
      next, full, history := 0, false, [];
    }

    method Add(q: Query)
      requires Valid() && entries.Length > 0
      modifies this, entries
      ensures Valid() && history == old(history) + [q]
    {
      SmallMod(next + 1, entries.Length);
      RingAdd(entries[..], next, full, history, q);
      entries[next] := q;
      next := (next + 1) % entries.Length;
      if next == 0 {
        full := true;
      }
      history := history + [q];
    }

    /** What the source promises: the newest queries first, as many as are held. */
    method Snapshot() returns (out: seq<Query>)
      requires Valid()
      ensures out == Newest(history, Min(|history|, entries.Length))
    {
      var n := if full then entries.Length else next;
      assert n == Min(|history|, entries.Length);
      out := [];
      var i := 1;
      while i <= n
        invariant 1 <= i <= n + 1
        invariant out == Newest(history, i - 1)
      {
        SmallMod(next - i + entries.Length, entries.Length);
        var at := (next - i + entries.Length) % entries.Length;
        assert entries[at] == history[|history| - i] by {
          if full {
            var ring := entries[next..] + entries[..next];
            assert ring[entries.Length - i] == history[|history| - i];
          }
        }
        out := out + [entries[at]];
        i := i + 1;
      }
    }

    method Clear()
      requires Valid()
      modifies this, entries
      ensures Valid() && history == []
      ensures forall i :: 0 <= i < entries.Length ==> entries[i] == zero
    {
      forall i | 0 <= i < entries.Length {
        entries[i] := zero;
      }
      next, full, history := 0, false, [];
    }
  }

  // ----- Runs of additions and clears

  datatype Op<Query> = Add(q: Query) | Clear

  /** What a run of operations leaves in the history. */
  ghost function After<Query>(ops: seq<Op<Query>>): seq<Query> {
    if ops == [] then [] else
    var last := ops[|ops| - 1];
    if last.Clear? then [] else After(ops[..|ops| - 1]) + [last.q]
  }

  /** For every run of operations on a log of any capacity above zero, the snapshot
      is the reverse of the last additions since the last Clear. */
  method SnapshotAfter<Query>(capacity: nat, zero: Query, ops: seq<Op<Query>>) returns (out: seq<Query>)
    requires capacity > 0
    ensures out == Newest(After(ops), Min(|After(ops)|, capacity))
  {
    var log := new Log(capacity, zero);
    for i := 0 to |ops|
      invariant log.Valid() && fresh(log) && fresh(log.entries) && log.entries.Length == capacity
      invariant log.history == After(ops[..i])
    {
      assert ops[..i + 1][..i] == ops[..i];
      match ops[i]
      case Add(q) => log.Add(q);
      case Clear => log.Clear();
    }
    assert ops[..|ops|] == ops;
    out := log.Snapshot();
  }

  /** The snapshot as a bounded list of its own: an addition goes to its front and
      pushes the oldest entry out, so nothing older ever comes back. */
  lemma NewestPushes<Query>(history: seq<Query>, q: Query, capacity: nat)
    requires capacity > 0
    ensures var before := Newest(history, Min(|history|, capacity));
            var after := Newest(history + [q], Min(|history| + 1, capacity));
            after == [q] + before[..Min(|before|, capacity - 1)]
  {
  }
}
