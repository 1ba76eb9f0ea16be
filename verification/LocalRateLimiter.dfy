/** The bounded fixed-window counter that stands in for Redis during an outage. */
module LocalRateLimiter {
  import opened Common
  import opened ExpiryHeap

  datatype Policy = Policy(action: string, limit: nat, windowSeconds: nat, failClosed: bool)

  /** The counter of one key's current window and the instant the window ends. */
  datatype Entry = Entry(count: nat, expiry: real)

  type Table = map<string, Entry>

  /** What `consume` answers: the charged count and the seconds to wait, at least one. */
  datatype Outcome = Outcome(count: nat, ttl: int)

  /** The windows still open at `now`. */
  function Purge(t: Table, now: real): Table
  {
    map k | k in t && t[k].expiry > now :: t[k]
  }

  /** The (expiry, key) pairs the heap must hold for the dictionary `t`. */
  function IndexOf(t: Table): set<Item>
  {
    set k | k in t :: Item(t[k].expiry, k)
  }

  lemma IndexSize(t: Table)
    ensures |IndexOf(t)| == |t|
  {
    InjectiveImageSize(t.Keys, k => if k in t then Item(t[k].expiry, k) else Item(0.0, k), IndexOf(t));
  }

  /** The earliest end among the open windows. */
  ghost function EarliestExpiry(t: Table): (e: real)
    requires t != map[]
    ensures exists k :: k in t && t[k].expiry == e
    ensures forall k :: k in t ==> e <= t[k].expiry
  {
    EarliestExists(t);
    var k :| k in t && forall j :: j in t ==> t[k].expiry <= t[j].expiry;
    t[k].expiry
  }

  lemma {:induction false} EarliestKey(t: Table, ks: set<string>) returns (best: string)
    requires ks <= t.Keys && ks != {}
    ensures best in ks && forall j :: j in ks ==> t[best].expiry <= t[j].expiry
    decreases |ks|
  {
    best :| best in ks;
    var others := ks - {best};
    if others != {} {
      var m := EarliestKey(t, others);
      if t[m].expiry < t[best].expiry {
        best := m;
      }
    }
  }

  lemma EarliestExists(t: Table)
    requires t != map[]
    ensures exists k :: k in t && forall j :: j in t ==> t[k].expiry <= t[j].expiry
  {
    var best := EarliestKey(t, t.Keys);
  }

  function Wait(seconds: real): int { Max(1, Ceil(seconds)) }

  /** True when a call for `key` finds every slot taken by other open windows. */
  predicate Refused(t: Table, cap: nat, now: real, key: string)
  {
    var live := Purge(t, now);
    key !in live && |live| >= cap
  }

  /** The window a call falls into: the open one of its key, or a new one. */
  function WindowOf(t: Table, now: real, key: string, p: Policy): Entry
  {
    var live := Purge(t, now);
    if key in live then live[key] else Entry(0, now + p.windowSeconds as real)
  }

  /** The count a call is charged: one more, clamped just over the limit. */
  function Counted(t: Table, cap: nat, now: real, key: string, p: Policy): nat
  {
    if Refused(t, cap, now, key) then p.limit + 1 else Min(WindowOf(t, now, key, p).count + 1, p.limit + 1)
  }

  /** The table after a call: purged, and charged unless a new key finds it full. */
  function Charged(t: Table, cap: nat, now: real, key: string, p: Policy): Table
  {
    var live := Purge(t, now);
    if Refused(t, cap, now, key) then live
    else live[key := Entry(Counted(t, cap, now, key, p), WindowOf(t, now, key, p).expiry)]
  }

  /** When the caller may retry: at the end of its window, or when the first slot frees. */
  ghost function WaitFor(t: Table, cap: nat, now: real, key: string, p: Policy): int
    requires cap > 0
  {
    Wait((if Refused(t, cap, now, key) then EarliestExpiry(Purge(t, now)) else WindowOf(t, now, key, p).expiry) - now)
  }

  /** One call against the table. */
  ghost function Charge(t: Table, cap: nat, now: real, key: string, p: Policy): (Table, Outcome)
    requires cap > 0
  {
    (Charged(t, cap, now, key, p), Outcome(Counted(t, cap, now, key, p), WaitFor(t, cap, now, key, p)))
  }

  class LocalRateLimiter {
    const maxEntries: nat
    var entries: Table
    var expirations: seq<Item>

    /** The heap lists every open window exactly once with its expiry, and nothing else, so the
        delete in the purge loop never misses and the size bound is shared. */
    ghost predicate Valid()
      reads this
    {
      && IsHeap(expirations)
      && multiset(expirations) == multiset(IndexOf(entries))
      && |entries| <= maxEntries
    }

    constructor (maxEntries: nat)
      ensures Valid() && entries == map[] && this.maxEntries == maxEntries
    {
      this.maxEntries := maxEntries;
      entries := map[];
      expirations := [];
    }

    method PurgeExpired(now: real)
      requires Valid()
      modifies this
      ensures Valid() && entries == Purge(old(entries), now)
    {
      while |expirations| > 0 && expirations[0].expiry <= now
        invariant Valid()
        invariant entries.Keys <= old(entries).Keys
        invariant forall k :: k in entries ==> entries[k] == old(entries)[k]
        invariant forall k :: k in old(entries) && k !in entries ==> old(entries)[k].expiry <= now
        decreases |expirations|
      {
        var least, rest := Pop(expirations);
        ghost var before := entries;
        HeadIsIndexed(entries, expirations);
        assert least.key in entries;
        expirations := rest;
        entries := entries - {least.key};
        DropFromIndex(before, least.key);
      }
      forall k | k in entries
        ensures entries[k].expiry > now
      {
        IndexedInHeap(entries, expirations, k);
        var i :| 0 <= i < |expirations| && expirations[i] == Item(entries[k].expiry, k);
        RootIsLeast(expirations, i);
      }
      assert entries == Purge(old(entries), now);
    }

    method Consume(key: string, policy: Policy, now: real) returns (result: Outcome)
      requires Valid() && maxEntries > 0
      modifies this
      ensures Valid()
      ensures (entries, result) == Charge(old(entries), maxEntries, now, key, policy)
    {
      ghost var before := entries;
      PurgeExpired(now);
      ghost var live := entries;
      if key !in entries {
        if |entries| >= maxEntries {
          HeapSizeIsTableSize(entries, expirations);
          HeadIsEarliest(entries, expirations);
          result := Outcome(policy.limit + 1, Wait(expirations[0].expiry - now));
          return;
        }
        var expiry := now + policy.windowSeconds as real;
        entries := entries[key := Entry(0, expiry)];
        AddToIndex(live, key, Entry(0, expiry));
        expirations := Push(expirations, Item(expiry, key));
      }
      var count := Min(entries[key].count + 1, policy.limit + 1);
      var expiry := entries[key].expiry;
      assert !Refused(before, maxEntries, now, key) && WindowOf(before, now, key, policy) == entries[key];
      RecountKeepsIndex(entries, key, count);
      entries := entries[key := Entry(count, expiry)];
      result := Outcome(count, Wait(expiry - now));
      assert entries == live[key := Entry(count, expiry)];
    }
  }

  lemma HeadIsIndexed(t: Table, h: seq<Item>)
    requires multiset(h) == multiset(IndexOf(t)) && |h| > 0
    ensures h[0].key in t && t[h[0].key].expiry == h[0].expiry
  {
    assert h[0] in multiset(h);
  }

  lemma IndexedInHeap(t: Table, h: seq<Item>, k: string)
    requires multiset(h) == multiset(IndexOf(t)) && k in t
    ensures Item(t[k].expiry, k) in h
  {
    assert Item(t[k].expiry, k) in multiset(h);
  }

  lemma DropFromIndex(t: Table, k: string)
    requires k in t
    ensures multiset(IndexOf(t - {k})) == multiset(IndexOf(t)) - multiset{Item(t[k].expiry, k)}
  {
    var it, small := Item(t[k].expiry, k), IndexOf(t - {k});
    forall x | x in small ensures x in IndexOf(t) && x != it {
      assert x.key in t - {k};
    }
    forall x | x in IndexOf(t) && x != it ensures x in small {
      assert x.key in t - {k} && (t - {k})[x.key] == t[x.key];
    }
    assert small == IndexOf(t) - {it};
    assert it in IndexOf(t);
  }

  lemma AddToIndex(t: Table, k: string, e: Entry)
    requires k !in t
    ensures multiset(IndexOf(t[k := e])) == multiset(IndexOf(t)) + multiset{Item(e.expiry, k)}
  {
    var t' := t[k := e];
    assert t' - {k} == t;
    DropFromIndex(t', k);
    assert Item(e.expiry, k) in IndexOf(t');
  }

  lemma RecountKeepsIndex(t: Table, k: string, count: nat)
    requires k in t
    ensures IndexOf(t[k := Entry(count, t[k].expiry)]) == IndexOf(t)
  {
    var t' := t[k := Entry(count, t[k].expiry)];
    forall x ensures x in IndexOf(t') <==> x in IndexOf(t) {
      if x in IndexOf(t) { assert x.key in t' && t'[x.key].expiry == x.expiry; }
      if x in IndexOf(t') { assert x.key in t && t[x.key].expiry == x.expiry; }
    }
  }

  lemma HeapSizeIsTableSize(t: Table, h: seq<Item>)
    requires multiset(h) == multiset(IndexOf(t))
    ensures |h| == |t|
  {
    IndexSize(t);
    assert |multiset(h)| == |h|;
  }

  lemma HeadIsEarliest(t: Table, h: seq<Item>)
    requires IsHeap(h) && multiset(h) == multiset(IndexOf(t)) && |h| > 0 && t != map[]
    ensures h[0].expiry == EarliestExpiry(t)
  {
    HeadIsIndexed(t, h);
    var k :| k in t && t[k].expiry == EarliestExpiry(t);
    IndexedInHeap(t, h, k);
    var i :| 0 <= i < |h| && h[i] == Item(t[k].expiry, k);
    RootIsLeast(h, i);
  }

  /** In every valid state the heap and the dictionary list the same keys with the same
      expiries, each key once, and both stay within the bound. */
  lemma HeapAndTableAgree(limiter: LocalRateLimiter)
    requires limiter.Valid()
    ensures |limiter.expirations| == |limiter.entries| <= limiter.maxEntries
    ensures forall i :: 0 <= i < |limiter.expirations| ==>
      var it := limiter.expirations[i]; it.key in limiter.entries && limiter.entries[it.key].expiry == it.expiry
    ensures forall k :: k in limiter.entries ==> Item(limiter.entries[k].expiry, k) in limiter.expirations
    ensures forall i, j :: 0 <= i < j < |limiter.expirations| ==>
            limiter.expirations[i].key != limiter.expirations[j].key
  {
    var t, h := limiter.entries, limiter.expirations;
    HeapSizeIsTableSize(t, h);
    forall i | 0 <= i < |h|
      ensures h[i].key in t && t[h[i].key].expiry == h[i].expiry
    {
      assert h[i] in multiset(h);
    }
    forall k | k in t
      ensures Item(t[k].expiry, k) in h
    {
      IndexedInHeap(t, h, k);
    }
    forall i, j | 0 <= i < j < |h|
      ensures h[i].key != h[j].key
    {
      if h[i].key == h[j].key {
        TwiceInSequence(h, i, j);
        assert false;
      }
    }
  }

  lemma TwiceInSequence(h: seq<Item>, i: nat, j: nat)
    requires i < j < |h| && h[i] == h[j]
    ensures multiset(h)[h[i]] >= 2
  {
    assert h == h[..i] + [h[i]] + h[i + 1..j] + [h[j]] + h[j + 1..];
  }
}
