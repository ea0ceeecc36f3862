/** The in-memory call log: a ring of the latest entries, and the cache of results. */
module CallLedgers {
  import opened Ordering
  import opened CanonicalJson

  /** The fields of the log, as a value. */
  datatype Ring<E> = Ring(entries: seq<E>, next: nat, count: nat)

  function Capacity(max: int): nat {
    if max < 0 then -max else max
  }

  ghost predicate Shaped<E>(max: int, r: Ring<E>) {
    && |r.entries| <= Capacity(max) && (if max == 0 then r.next == 0 else r.next < Capacity(max))
    && (|r.entries| < Capacity(max) ==> r.next == if max > 0 then 0 else |r.entries|)
  }

  /** A negative limit is never reached, but its remainders still go round; with 0 the slot is not a number, so nothing is
      kept. */
  function Push<E>(max: int, r: Ring<E>, e: E): (s: Ring<E>)
    requires Shaped(max, r)
    ensures Shaped(max, s)
  {
    if |r.entries| < max then Ring(r.entries + [e], r.next, r.count + 1)
    else if max == 0 then r.(count := r.count + 1)
    else
      SlotStep(r.next, Capacity(max));
      Ring(Stored(r.entries, r.next % Capacity(max), e), (r.next + 1) % Capacity(max), r.count + 1)
  }

  lemma SlotStep(slot: nat, size: nat)
    requires slot < size
    ensures slot % size == slot && (slot + 1) % size == if slot + 1 == size then 0 else slot + 1
  {
  }

  /** Assigning to the slot just past the end makes the array longer. */
  function Stored<E>(entries: seq<E>, slot: nat, e: E): seq<E>
    requires slot <= |entries|
  {
    if slot < |entries| then entries[slot := e] else entries + [e]
  }

  function Pushed<E>(max: int, es: seq<E>): (r: Ring<E>)
    ensures Shaped(max, r)
  {
    if es == [] then Ring([], 0, 0) else Push(max, Pushed(max, es[..|es| - 1]), es[|es| - 1])
  }

  function Latest<E>(es: seq<E>, max: nat): seq<E> {
    if |es| <= max then es else es[|es| - max..]
  }

  function Rotated<E>(s: seq<E>, k: nat): seq<E>
    requires k <= |s|
  {
    s[k..] + s[..k]
  }

  /** The slot that is written next: with a positive limit the first one until the ring is full; then round and round. */
  function Slot(n: nat, max: int): (slot: nat)
    ensures max != 0 ==> slot < Capacity(max)
  {
    if max == 0 || n < max then 0 else n % Capacity(max)
  }

  lemma SmallMultiple(d: int, max: int)
    requires 0 < max && -max < d * max < max
    ensures d == 0
  {
    assert d >= 1 ==> (d - 1) * max >= 0;
    assert d <= -1 ==> (-1 - d) * max >= 0;
  }

  lemma SlotUnique(n: nat, max: nat, q: nat, r: nat)
    requires r < max && n == q * max + r
    ensures n % max == r
  {
    assert n == (n / max) * max + n % max;
    assert (n / max - q) * max == (n / max) * max - q * max;
    SmallMultiple(n / max - q, max);
  }

  lemma NextSlot(n: nat, max: int)
    requires max != 0 && Capacity(max) <= n
    ensures var c := Capacity(max);
      && Slot(n, max) % c == Slot(n, max)
      && Slot(n + 1, max) == (if Slot(n, max) + 1 < c then Slot(n, max) + 1 else 0)
      && (Slot(n, max) + 1) % c == Slot(n + 1, max)
  {
    var c := Capacity(max);
    var q, r := n / c, n % c;
    assert n == q * c + r;
    SlotUnique(r, c, 0, r);
    if r + 1 < c {
      SlotUnique(n + 1, c, q, r + 1);
      SlotUnique(r + 1, c, 0, r + 1);
    } else {
      assert n + 1 == (q + 1) * c + 0 by {
        assert (q + 1) * c == q * c + c;
      }
      SlotUnique(n + 1, c, q + 1, 0);
      SlotUnique(r + 1, c, 1, 0);
    }
  }

  /** The ring read from its next slot on is the latest entries, oldest first, and nothing is miscounted. */
  ghost predicate Holds<E>(max: int, r: Ring<E>, es: seq<E>)
    requires Shaped(max, r)
  {
    && r.next == Slot(|es|, max)
    && |r.entries| == (if |es| < Capacity(max) then |es| else Capacity(max))
    && r.next <= |r.entries|
    && Rotated(r.entries, r.next) == Latest(es, Capacity(max))
    && r.count == |es|
  }

  lemma Filling<E>(max: int, r: Ring<E>, es: seq<E>, e: E)
    requires 0 < max && Shaped(max, r) && Holds(max, r, es) && |es| < max
    ensures Holds(max, Push(max, r, e), es + [e])
  {
    if |es| + 1 == max {
      SlotUnique(|es| + 1, max, 1, 0);
    }
    assert Slot(|es + [e]|, max) == 0;
  }

  lemma FillingRound<E>(max: int, r: Ring<E>, es: seq<E>, e: E)
    requires max < 0 && Shaped(max, r) && Holds(max, r, es) && |es| < Capacity(max)
    ensures Holds(max, Push(max, r, e), es + [e])
  {
    var c, n := Capacity(max), |es|;
    SlotUnique(n, c, 0, n);
    assert r.entries == es;
    assert Push(max, r, e).entries == es + [e];
    if n + 1 == c {
      SlotUnique(n + 1, c, 1, 0);
      assert Rotated(es + [e], 0) == es + [e];
    } else {
      SlotUnique(n + 1, c, 0, n + 1);
      assert Rotated(es + [e], n + 1) == es + [e];
    }
  }

  /** Overwriting the oldest entry and stepping on drops it from the front and adds the new one at the end. */
  lemma Turning<E>(max: int, r: Ring<E>, es: seq<E>, e: E)
    requires max != 0 && Shaped(max, r) && Holds(max, r, es) && |es| >= Capacity(max)
    ensures Holds(max, Push(max, r, e), es + [e])
  {
    var c := Capacity(max);
    NextSlot(|es|, max);
    assert Push(max, r, e) == Ring(r.entries[r.next := e], Slot(|es| + 1, max), r.count + 1);
    assert Latest(es, c)[1..] + [e] == Latest(es + [e], c);
    Overwritten(r.entries, r.next, e);
  }

  lemma Overwritten<E>(entries: seq<E>, next: nat, e: E)
    requires next < |entries|
    ensures Rotated(entries[next := e], if next + 1 < |entries| then next + 1 else 0)
         == Rotated(entries, next)[1..] + [e]
  {
    var after := entries[next := e];
    assert Rotated(entries, next)[1..] == entries[next + 1..] + entries[..next];
    assert after[next + 1..] == entries[next + 1..];
    assert after[..next + 1] == entries[..next] + [e];
  }

  lemma Keeping<E>(max: int, r: Ring<E>, es: seq<E>, e: E)
    requires Shaped(max, r) && Holds(max, r, es)
    ensures Holds(max, Push(max, r, e), es + [e])
  {
    if max != 0 && |es| >= Capacity(max) {
      Turning(max, r, es, e);
    } else if max < 0 {
      FillingRound(max, r, es, e);
    } else if max > 0 {
      Filling(max, r, es, e);
    }
  }

  /** For any limit: a negative one works like its absolute value, and with 0 nothing is kept. */
  lemma {:induction false} RingHoldsLatest<E>(max: int, es: seq<E>)
    ensures Holds(max, Pushed(max, es), es)
  {
    if es != [] {
      var before, e := es[..|es| - 1], es[|es| - 1];
      RingHoldsLatest(max, before);
      assert es == before + [e];
      Keeping(max, Pushed(max, before), before, e);
    }
  }

  /** What readLog returns is in call order exactly until the ring wraps, and again at every full turn. */
  lemma SnapshotInOrder<E>(max: int, es: seq<E>)
    requires NoDuplicates(es)
    ensures Pushed(max, es).entries == Latest(es, Capacity(max))
       <==> max == 0 || |es| < Capacity(max) || |es| % Capacity(max) == 0
  {
    RingHoldsLatest(max, es);
    var r := Pushed(max, es);
    if max != 0 && |es| < Capacity(max) {
      SlotUnique(|es|, Capacity(max), 0, |es|);
    } else if max != 0 && r.next != 0 {
      var offset := |es| - Capacity(max);
      assert Rotated(r.entries, r.next)[0] == r.entries[r.next];
      assert Latest(es, Capacity(max))[0] == es[offset] && Latest(es, Capacity(max))[r.next] == es[offset + r.next];
    } else {
      assert Rotated(r.entries, 0) == r.entries;
    }
  }

  class CallLedger<E, C> {
    const maxEntries: int
    var entries: seq<E>
    var nextIndex: nat
    var count: nat
    var resultCache: map<Text, C>
    /** Everything appended since the last reset. */
    ghost var history: seq<E>

    ghost predicate Valid()
      reads this
    {
      Ring(entries, nextIndex, count) == Pushed(maxEntries, history)
    }

    constructor (maxEntries: int)
      ensures Valid() && this.maxEntries == maxEntries && history == [] && resultCache == map[]
    {
      this.maxEntries := maxEntries;
      entries, nextIndex, count := [], 0, 0;
      resultCache := map[];
      history := [];
    }

    method Append(entry: E)
      requires Valid()
      modifies this`entries, this`nextIndex, this`count, this`history
      ensures Valid() && history == old(history) + [entry]
      ensures count == old(count) + 1
    {
      if |entries| < maxEntries {
        entries := entries + [entry];
      } else if maxEntries != 0 {
        var idx := nextIndex % Capacity(maxEntries);
        entries := if idx < |entries| then entries[idx := entry] else entries + [entry];
        nextIndex := (nextIndex + 1) % Capacity(maxEntries);
      }
      count := count + 1;
      history := history + [entry];
      assert history[..|history| - 1] == old(history);
    }

    /** The entries as they lie in the ring: turned by the next slot, they are the latest ones in order. */
    method Snapshot() returns (log: seq<E>)
      requires Valid()
      ensures nextIndex <= |log| && Rotated(log, nextIndex) == Latest(history, Capacity(maxEntries))
    {
      RingHoldsLatest(maxEntries, history);
      log := entries;
    }

    method ReadCache(key: Text) returns (cached: Option<C>)
      ensures cached == if key in resultCache then Some(resultCache[key]) else None
    {
      cached := if key in resultCache then Some(resultCache[key]) else None;
    }

    method WriteCache(key: Text, value: C)
      modifies this`resultCache
      ensures resultCache == old(resultCache)[key := value]
    {
      resultCache := resultCache[key := value];
    }

    method Reset()
      requires Valid()
      modifies this
      ensures Valid() && history == [] && resultCache == map[]
    {
      entries, nextIndex, count := [], 0, 0;
      resultCache := map[];
      history := [];
    }

    method Size() returns (held: nat, max: int, cached: nat, totalAppends: nat)
      requires Valid()
      ensures totalAppends == |history| && max == maxEntries && cached == |resultCache|
      ensures held == if |history| < Capacity(maxEntries) then |history| else Capacity(maxEntries)
    {
      RingHoldsLatest(maxEntries, history);
      held, max, cached, totalAppends := |entries|, maxEntries, |resultCache|, count;
    }
  }
}
