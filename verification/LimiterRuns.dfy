/** What the bounded limiter guarantees over whole runs of calls. */
module LimiterRuns {
  import opened Common
  import opened LocalRateLimiter

  datatype Call = Call(now: real, key: string, policy: Policy)

  function Front(cs: seq<Call>): seq<Call>
    requires cs != []
  {
    cs[..|cs| - 1]
  }

  function Last(cs: seq<Call>): Call
    requires cs != []
  {
    cs[|cs| - 1]
  }

  /** The table after a run that starts empty. */
  ghost function After(cs: seq<Call>, cap: nat): Table
    requires cap > 0
  {
    if cs == [] then map[]
    else var c := Last(cs); Charged(After(Front(cs), cap), cap, c.now, c.key, c.policy)
  }

  /** The answer to the last call of a run. */
  ghost function Answer(cs: seq<Call>, cap: nat): Outcome
    requires cap > 0 && cs != []
  {
    var c := Last(cs);
    Charge(After(Front(cs), cap), cap, c.now, c.key, c.policy).1
  }

  ghost predicate LastAdmitted(cs: seq<Call>, cap: nat)
    requires cap > 0 && cs != []
  {
    var c := Last(cs);
    Counted(After(Front(cs), cap), cap, c.now, c.key, c.policy) <= c.policy.limit
  }

  ghost predicate Monotone(cs: seq<Call>)
  {
    forall i, j :: 0 <= i < j < |cs| ==> cs[i].now <= cs[j].now
  }

  ghost predicate PolicyOf(cs: seq<Call>, k: string, p: Policy)
  {
    forall i :: 0 <= i < |cs| && cs[i].key == k ==> cs[i].policy == p
  }

  /** How many calls of `k` made in `[a, b)` were admitted. */
  ghost function Admits(cs: seq<Call>, cap: nat, k: string, a: real, b: real): nat
    requires cap > 0
  {
    if cs == [] then 0
    else
      Admits(Front(cs), cap, k, a, b) +
      if Last(cs).key == k && a <= Last(cs).now < b && LastAdmitted(cs, cap) then 1 else 0
  }

  // ---------------------------------------------------------------------------------------
  // Size, and windows that are never cut short
  // ---------------------------------------------------------------------------------------

  lemma PurgeShrinks(t: Table, now: real)
    ensures |Purge(t, now)| <= |t|
    ensures forall k :: k in t && k !in Purge(t, now) ==> |Purge(t, now)| < |t|
  {
    var live := Purge(t, now);
    assert live.Keys <= t.Keys;
    SubsetSize(live.Keys, t.Keys);
    forall k | k in t && k !in live
      ensures |live| < |t|
    {
      assert live.Keys <= t.Keys - {k};
      SubsetSize(live.Keys, t.Keys - {k});
    }
  }

  lemma {:induction false} SubsetSize<T>(a: set<T>, b: set<T>)
    requires a <= b
    ensures |a| <= |b|
    decreases |b|
  {
    if b != {} {
      var x :| x in b;
      SubsetSize(a - {x}, b - {x});
    }
  }

  lemma {:induction false} SizeStaysBounded(cs: seq<Call>, cap: nat)
    requires cap > 0
    ensures |After(cs, cap)| <= cap
  {
    if cs != [] {
      SizeStaysBounded(Front(cs), cap);
      PurgeShrinks(After(Front(cs), cap), Last(cs).now);
    }
  }

  /** No open window is evicted, shortened or prolonged, whatever other keys do. */
  lemma {:induction false} OpenWindowSurvives(cs: seq<Call>, more: seq<Call>, cap: nat, k: string)
    requires cap > 0 && k in After(cs, cap)
    requires forall i :: 0 <= i < |more| ==> more[i].now < After(cs, cap)[k].expiry
    ensures k in After(cs + more, cap)
    ensures After(cs + more, cap)[k].expiry == After(cs, cap)[k].expiry
    decreases |more|
  {
    if more == [] {
      assert cs + more == cs;
    } else {
      OpenWindowSurvives(cs, Front(more), cap, k);
      assert Front(cs + more) == cs + Front(more);
    }
  }

  // ---------------------------------------------------------------------------------------
  // The rate bound
  // ---------------------------------------------------------------------------------------

  ghost predicate Steady(cs: seq<Call>, k: string, p: Policy)
  {
    Monotone(cs) && PolicyOf(cs, k, p) && p.windowSeconds > 0
  }

  lemma SteadyFront(cs: seq<Call>, k: string, p: Policy)
    requires cs != [] && Steady(cs, k, p)
    ensures Steady(Front(cs), k, p)
  {
  }

  /** A window opens no later than the latest call. */
  lemma {:induction false} OpensByLastCall(cs: seq<Call>, cap: nat, k: string, p: Policy)
    requires cap > 0 && cs != [] && Steady(cs, k, p) && k in After(cs, cap)
    ensures After(cs, cap)[k].expiry - p.windowSeconds as real <= Last(cs).now < After(cs, cap)[k].expiry
  {
    SteadyFront(cs, k, p);
    if k in Purge(After(Front(cs), cap), Last(cs).now) {
      OpensByLastCall(Front(cs), cap, k, p);
    }
  }

  /** Once `k` has no window open at `t`, none of its admitted calls lie at or after `t`. */
  lemma {:induction false} NothingAfterClose(cs: seq<Call>, cap: nat, k: string, p: Policy, t: real, b: real)
    requires cap > 0 && Steady(cs, k, p)
    requires k !in Purge(After(cs, cap), t)
    requires cs != [] ==> Last(cs).now <= t
    ensures Admits(cs, cap, k, t, b) == 0
  {
    if cs != [] {
      SteadyFront(cs, k, p);
      NothingAfterClose(Front(cs), cap, k, p, t, b);
    }
  }

  /** The opening call of a window is admitted unless the limit is zero. */
  function Opener(p: Policy, start: real, a: real): nat
  {
    if a > start && p.limit > 0 then 1 else 0
  }

  /** Calls admitted since `a`, inside the window now open, plus the opening call when `a`
      lies past it, never exceed the counter or the limit. */
  lemma {:induction false} CurrentWindow(cs: seq<Call>, cap: nat, k: string, p: Policy, a: real, b: real)
    requires cap > 0 && Steady(cs, k, p) && k in After(cs, cap)
    requires a >= After(cs, cap)[k].expiry - p.windowSeconds as real
    ensures var e := After(cs, cap)[k];
            Admits(cs, cap, k, a, b) + Opener(p, e.expiry - p.windowSeconds as real, a) <= Min(e.count, p.limit)
  {
    SteadyFront(cs, k, p);
    var c := Last(cs);
    var live := Purge(After(Front(cs), cap), c.now);
    if k in live {
      CurrentWindow(Front(cs), cap, k, p, a, b);
    } else {
      NothingAfterClose(Front(cs), cap, k, p, c.now, b);
      AdmitsShrink(Front(cs), cap, k, c.now, a, b);
    }
  }

  lemma {:induction false} AdmitsShrink(cs: seq<Call>, cap: nat, k: string, a: real, a': real, b: real)
    requires cap > 0 && a <= a'
    ensures Admits(cs, cap, k, a', b) <= Admits(cs, cap, k, a, b)
  {
    if cs != [] {
      AdmitsShrink(Front(cs), cap, k, a, a', b);
    }
  }

  lemma {:induction false} AdmitsSplit(cs: seq<Call>, cap: nat, k: string, a: real, m: real, b: real)
    requires cap > 0 && a <= m <= b
    ensures Admits(cs, cap, k, a, b) == Admits(cs, cap, k, a, m) + Admits(cs, cap, k, m, b)
  {
    if cs != [] {
      AdmitsSplit(Front(cs), cap, k, a, m, b);
    }
  }

  /** With no window of `k` open at `t`, less than one window length back from `t` there is only
      one closed window, and its opening call is already out of reach. */
  lemma {:induction false} ClosedWindow(cs: seq<Call>, cap: nat, k: string, p: Policy, t: real, a: real, b: real)
    requires cap > 0 && Steady(cs, k, p) && p.limit > 0
    requires k !in Purge(After(cs, cap), t)
    requires cs != [] ==> Last(cs).now <= t
    requires a > t - p.windowSeconds as real
    ensures Admits(cs, cap, k, a, b) <= p.limit - 1
  {
    if cs != [] {
      SteadyFront(cs, k, p);
      if k in After(cs, cap) {
        CurrentWindow(cs, cap, k, p, a, b);
      } else {
        ClosedWindow(Front(cs), cap, k, p, t, a, b);
      }
    }
  }

  lemma {:induction false} PreviousWindow(cs: seq<Call>, cap: nat, k: string, p: Policy, a: real)
    requires cap > 0 && Steady(cs, k, p) && p.limit > 0 && k in After(cs, cap)
    requires a > After(cs, cap)[k].expiry - 2.0 * p.windowSeconds as real
    ensures Admits(cs, cap, k, a, After(cs, cap)[k].expiry - p.windowSeconds as real) <= p.limit - 1
  {
    SteadyFront(cs, k, p);
    OpensByLastCall(cs, cap, k, p);
    var c := Last(cs);
    if k in Purge(After(Front(cs), cap), c.now) {
      PreviousWindow(Front(cs), cap, k, p, a);
    } else {
      ClosedWindow(Front(cs), cap, k, p, c.now, a, c.now);
    }
  }

  lemma {:induction false} ZeroLimitAdmitsNothing(cs: seq<Call>, cap: nat, k: string, p: Policy, a: real, b: real)
    requires cap > 0 && PolicyOf(cs, k, p) && p.limit == 0
    ensures Admits(cs, cap, k, a, b) == 0
  {
    if cs != [] {
      ZeroLimitAdmitsNothing(Front(cs), cap, k, p, a, b);
    }
  }

  /** Any half-open interval of one window length holds fewer than twice the limit of admitted
      calls, whatever the other keys do and also while the table is full. */
  lemma {:induction false} RateBound(cs: seq<Call>, cap: nat, k: string, p: Policy, t: real)
    requires cap > 0 && Steady(cs, k, p)
    ensures Admits(cs, cap, k, t, t + p.windowSeconds as real) <= Max(0, 2 * p.limit - 1)
  {
    var w := p.windowSeconds as real;
    if p.limit == 0 {
      ZeroLimitAdmitsNothing(cs, cap, k, p, t, t + w);
    } else if cs != [] {
      SteadyFront(cs, k, p);
      RateBound(Front(cs), cap, k, p, t);
      if Last(cs).key == k && t <= Last(cs).now < t + w && LastAdmitted(cs, cap) {
        AdmittedIsOpen(cs, cap, k);
        RateBoundInWindow(cs, cap, k, p, t);
      }
    }
  }

  lemma AdmittedIsOpen(cs: seq<Call>, cap: nat, k: string)
    requires cap > 0 && cs != [] && Last(cs).key == k && LastAdmitted(cs, cap)
    ensures k in After(cs, cap)
  {
  }

  /** With a window open that the interval touches, its calls lie in that window and the one before. */
  lemma RateBoundInWindow(cs: seq<Call>, cap: nat, k: string, p: Policy, t: real)
    requires cap > 0 && cs != [] && Steady(cs, k, p) && p.limit > 0 && k in After(cs, cap)
    requires t <= Last(cs).now < t + p.windowSeconds as real
    ensures Admits(cs, cap, k, t, t + p.windowSeconds as real) <= 2 * p.limit - 1
  {
    var w := p.windowSeconds as real;
    var start := After(cs, cap)[k].expiry - w;
    OpensByLastCall(cs, cap, k, p);
    if t >= start {
      CurrentWindow(cs, cap, k, p, t, t + w);
    } else {
      AdmitsSplit(cs, cap, k, t, start, t + w);
      PreviousWindow(cs, cap, k, p, t);
      CurrentWindow(cs, cap, k, p, start, t + w);
    }
  }

  /** A run of one policy of `c`'s key, none of its calls later than `c`. */
  ghost predicate UpTo(cs: seq<Call>, c: Call)
  {
    Steady(cs, c.key, c.policy) && forall i :: 0 <= i < |cs| ==> cs[i].now <= c.now
  }

  lemma UpToSnoc(cs: seq<Call>, c: Call)
    requires UpTo(cs, c)
    ensures UpTo(cs + [c], c)
  {
    forall i | 0 <= i < |cs + [c]| ensures (cs + [c])[i] == if i < |cs| then cs[i] else c {}
  }

  lemma AdmitsSnoc(cs: seq<Call>, cap: nat, c: Call, a: real, b: real)
    requires cap > 0 && LastAdmitted(cs + [c], cap)
    ensures Admits(cs + [c], cap, c.key, a, b) == Admits(cs, cap, c.key, a, b) + if a <= c.now < b then 1 else 0
  {
    assert Front(cs + [c]) == cs;
  }

  /** A call inside an open window with room is counted and admitted. */
  lemma OneMoreInside(cs: seq<Call>, cap: nat, c: Call, e: Entry)
    requires cap > 0 && After(cs, cap) == map[c.key := e] && c.now < e.expiry && e.count < c.policy.limit
    ensures After(cs + [c], cap) == map[c.key := Entry(e.count + 1, e.expiry)] && LastAdmitted(cs + [c], cap)
  {
    assert Front(cs + [c]) == cs;
    assert Purge(map[c.key := e], c.now) == map[c.key := e];
  }

  /** A call when no window is open opens one and is admitted. */
  lemma OneMoreOpens(cs: seq<Call>, cap: nat, c: Call)
    requires cap > 0 && Purge(After(cs, cap), c.now) == map[] && c.policy.limit > 0
    ensures After(cs + [c], cap) == map[c.key := Entry(1, c.now + c.policy.windowSeconds as real)]
    ensures LastAdmitted(cs + [c], cap)
  {
    assert Front(cs + [c]) == cs;
  }

  /** `n` calls at once inside a window with room for them. */
  lemma {:induction false} Fill(cs: seq<Call>, cap: nat, c: Call, n: nat, e: Entry, a: real, b: real)
    returns (run: seq<Call>)
    requires cap > 0 && UpTo(cs, c)
    requires After(cs, cap) == map[c.key := e] && c.now < e.expiry && e.count + n <= c.policy.limit
    ensures UpTo(run, c) && After(run, cap) == map[c.key := Entry(e.count + n, e.expiry)]
    ensures Admits(run, cap, c.key, a, b) == Admits(cs, cap, c.key, a, b) + if a <= c.now < b then n else 0
    decreases n
  {
    run := cs;
    if n > 0 {
      var front := Fill(cs, cap, c, n - 1, e, a, b);
      OneMoreInside(front, cap, c, Entry(e.count + n - 1, e.expiry));
      AdmitsSnoc(front, cap, c, a, b);
      UpToSnoc(front, c);
      run := front + [c];
    }
  }

  /** A window opened by `c` and used up at `d`. */
  lemma Burst(cs: seq<Call>, cap: nat, c: Call, d: Call, a: real, b: real) returns (run: seq<Call>)
    requires cap > 0 && UpTo(cs, c) && Purge(After(cs, cap), c.now) == map[] && c.policy.limit > 0
    requires c.key == d.key && c.policy == d.policy && c.now <= d.now < c.now + c.policy.windowSeconds as real
    ensures UpTo(run, d) && After(run, cap) ==
            map[c.key := Entry(c.policy.limit, c.now + c.policy.windowSeconds as real)]
    ensures Admits(run, cap, c.key, a, b) ==
            Admits(cs, cap, c.key, a,
                   b) + (if a <= c.now < b then 1 else 0) + (if a <= d.now < b then c.policy.limit - 1 else 0)
  {
    OneMoreOpens(cs, cap, c);
    AdmitsSnoc(cs, cap, c, a, b);
    UpToSnoc(cs, c);
    run := Fill(cs + [c], cap, d, c.policy.limit - 1, Entry(1, c.now + c.policy.windowSeconds as real), a, b);
  }

  lemma OneClosed(k: string, e: Entry)
    ensures Purge(map[k := e], e.expiry) == map[]
  {
  }

  /** The bound cannot be lowered, for any policy: one call opens a window, the rest of its limit comes
      half a window later and the limit of the next window at its very start; the last two groups fit
      in one window length. */
  lemma RateBoundIsReached(cap: nat, k: string, p: Policy) returns (cs: seq<Call>, t: real)
    requires cap > 0 && p.limit > 0 && p.windowSeconds > 0
    ensures Steady(cs, k, p) && Admits(cs, cap, k, t, t + p.windowSeconds as real) == 2 * p.limit - 1
  {
    var w := p.windowSeconds as real;
    t := w / 2.0;
    assert Purge(After([], cap), 0.0) == map[];
    var first := Burst([], cap, Call(0.0, k, p), Call(t, k, p), t, t + w);
    OneClosed(k, Entry(p.limit, w));
    cs := Burst(first, cap, Call(w, k, p), Call(w, k, p), t, t + w);
  }

  /** The call at the end of `cs` opens a new window for its key. */
  ghost predicate OpensWindow(cs: seq<Call>, cap: nat)
    requires cap > 0
  {
    && cs != []
    && var t := After(Front(cs), cap); var c := Last(cs);
       c.key !in Purge(t, c.now) && !Refused(t, cap, c.now, c.key)
  }

  /** Up to its end the window just alone is the current one. */
  lemma StillOpen(cs: seq<Call>, more: seq<Call>, cap: nat, k: string, p: Policy)
    requires cap > 0 && OpensWindow(cs, cap) && Last(cs).key == k && Steady(cs + more, k, p) && more != []
    requires Last(more).now < Last(cs).now + p.windowSeconds as real
    ensures k in After(cs + more, cap) && After(cs + more, cap)[k].expiry == Last(cs).now + p.windowSeconds as real
  {
    var run := cs + more;
    assert run[|cs| - 1] == Last(cs);
    forall i | 0 <= i < |more| ensures more[i].now < After(cs, cap)[k].expiry {
      assert more[i] == run[|cs| + i] && Last(more) == run[|run| - 1];
    }
    OpenWindowSurvives(cs, more, cap, k);
  }

  /** Each window admits at most `limit` calls. */
  lemma {:induction false} WindowBound(cs: seq<Call>, more: seq<Call>, cap: nat, k: string, p: Policy)
    requires cap > 0 && OpensWindow(cs, cap) && Last(cs).key == k && Steady(cs + more, k, p)
    ensures var start := Last(cs).now;
            Admits(cs + more, cap, k, start, start + p.windowSeconds as real) <= p.limit
    decreases |more|
  {
    var start := Last(cs).now;
    var end := start + p.windowSeconds as real;
    var run := cs + more;
    assert run[|cs| - 1] == Last(cs);
    if more == [] {
      assert run == cs;
      CurrentWindow(cs, cap, k, p, start, end);
    } else {
      assert Front(run) == cs + Front(more);
      SteadyFront(run, k, p);
      if Last(run).now < end {
        StillOpen(cs, more, cap, k, p);
        CurrentWindow(run, cap, k, p, start, end);
      } else {
        WindowBound(cs, Front(more), cap, k, p);
      }
    }
  }

  // ---------------------------------------------------------------------------------------
  // What a refused caller is told
  // ---------------------------------------------------------------------------------------

  /** A window that is not called again keeps its expiry until it is purged, and none appears. */
  lemma {:induction false} UntouchedKey(cs: seq<Call>, more: seq<Call>, cap: nat, k: string)
    requires cap > 0 && forall i :: 0 <= i < |more| ==> more[i].key != k
    ensures k in After(cs + more, cap) ==> k in After(cs, cap) && After(cs + more, cap)[k] == After(cs, cap)[k]
    decreases |more|
  {
    if more == [] {
      assert cs + more == cs;
    } else {
      UntouchedKey(cs, Front(more), cap, k);
      assert Front(cs + more) == cs + Front(more);
    }
  }

  /** A key refused with `ttl` that calls again at least `ttl` later opens a fresh window,
      unless the table is full at that moment; with no calls in between it is not full. */
  lemma RetryAfterIsHonest(cs: seq<Call>, more: seq<Call>, cap: nat, again: Call)
    requires cap > 0 && cs != [] && !LastAdmitted(cs, cap)
    requires again.key == Last(cs).key
    requires forall i :: 0 <= i < |more| ==> more[i].key != again.key
    requires again.now >= Last(cs).now + Answer(cs, cap).ttl as real
    ensures Refused(After(cs + more, cap), cap, again.now, again.key) || OpensWindow(cs + more + [again], cap)
    ensures !Refused(After(cs + more, cap), cap, again.now, again.key) ==>
              Answer(cs + more + [again], cap) == Outcome(1, Wait(again.policy.windowSeconds as real))
    ensures more == [] ==> OpensWindow(cs + more + [again], cap)
  {
    var k, before, t := again.key, After(cs, cap), After(cs + more, cap);
    var run := cs + more + [again];
    assert Front(run) == cs + more;
    UntouchedKey(cs, more, cap, k);
    assert k !in Purge(t, again.now);
    if more == [] {
      assert cs + more == cs;
      SizeStaysBounded(cs, cap);
      PurgeShrinks(before, again.now);
      if !Refused(After(Front(cs), cap), cap, Last(cs).now, k) {
        assert k in before && k !in Purge(before, again.now);
      } else {
        var first :| first in before && before[first].expiry == EarliestExpiry(before);
        assert first !in Purge(before, again.now);
      }
    }
  }

  /** ... and no shorter wait would do: at any time before the last of the announced seconds the key is refused
      again, be its own window still open or every slot still taken. */
  lemma RetryAfterIsLeast(cs: seq<Call>, cap: nat, again: Call)
    requires cap > 0 && cs != [] && !LastAdmitted(cs, cap)
    requires again.key == Last(cs).key && again.policy == Last(cs).policy
    requires Last(cs).now <= again.now <= Last(cs).now + (Answer(cs, cap).ttl - 1) as real
    ensures !LastAdmitted(cs + [again], cap)
  {
    var c := Last(cs);
    var before, after := After(Front(cs), cap), After(cs, cap);
    assert Front(cs + [again]) == cs;
    if Refused(before, cap, c.now, c.key) {
      assert forall k :: k in after ==> after[k].expiry >= EarliestExpiry(Purge(before, c.now));
      assert Purge(after, again.now) == after;
    } else {
      assert after[c.key].count == c.policy.limit + 1;
    }
  }

  // ---------------------------------------------------------------------------------------
  // Refinement: the naive unbounded, unclamped counter
  // ---------------------------------------------------------------------------------------

  /** Per-key window counters that are never purged, never clamped and never refused. */
  function NaiveCharge(t: Table, c: Call): Table
  {
    var open := if c.key in t && t[c.key].expiry > c.now then t[c.key]
                else Entry(0, c.now + c.policy.windowSeconds as real);
    t[c.key := Entry(open.count + 1, open.expiry)]
  }

  function Naive(cs: seq<Call>): Table
  {
    if cs == [] then map[] else NaiveCharge(Naive(Front(cs)), Last(cs))
  }

  predicate NaiveAdmits(cs: seq<Call>)
    requires cs != []
  {
    NaiveCharge(Naive(Front(cs)), Last(cs))[Last(cs).key].count <= Last(cs).policy.limit
  }

  ghost predicate NeverFull(cs: seq<Call>, cap: nat)
    requires cap > 0
  {
    forall i :: 0 <= i < |cs| ==> !FindsFull(cs[..i], cap, cs[i])
  }

  /** The call would find every slot taken after the run. */
  ghost predicate FindsFull(cs: seq<Call>, cap: nat, c: Call)
    requires cap > 0
  {
    Refused(After(cs, cap), cap, c.now, c.key)
  }

  /** Every call of a key carries that key's policy. */
  ghost predicate Follows(cs: seq<Call>, pol: string -> Policy)
  {
    forall i :: 0 <= i < |cs| ==> cs[i].policy == pol(cs[i].key)
  }

  lemma NeverFullFront(cs: seq<Call>, cap: nat)
    requires cap > 0 && cs != [] && NeverFull(cs, cap)
    ensures NeverFull(Front(cs), cap)
    ensures !FindsFull(Front(cs), cap, Last(cs))
  {
    forall i | 0 <= i < |Front(cs)| ensures !FindsFull(Front(cs)[..i], cap, Front(cs)[i]) {
      assert Front(cs)[..i] == cs[..i];
    }
    assert cs[..|cs| - 1] == Front(cs);
  }

  /** The bounded table is the naive one with closed windows dropped and counters clamped. */
  ghost predicate Clamps(bounded: Table, naive: Table, pol: string -> Policy, now: real)
  {
    forall k :: ClampsAt(bounded, naive, pol, now, k)
  }

  ghost predicate ClampsAt(bounded: Table, naive: Table, pol: string -> Policy, now: real, k: string)
  {
    && (k in bounded ==> k in naive && bounded[k] == Entry(Min(naive[k].count, pol(k).limit + 1), naive[k].expiry))
    && (k in naive && k !in bounded ==> naive[k].expiry <= now)
  }

  lemma ClampsLater(bounded: Table, naive: Table, pol: string -> Policy, a: real, now: real)
    requires Clamps(bounded, naive, pol, a) && a <= now
    ensures Clamps(bounded, naive, pol, now)
  {
    forall k ensures ClampsAt(bounded, naive, pol, now, k) {
      assert ClampsAt(bounded, naive, pol, a, k);
    }
  }

  lemma {:induction false} ClampsHolds(cs: seq<Call>, cap: nat, pol: string -> Policy, now: real)
    requires cap > 0 && Monotone(cs) && Follows(cs, pol) && NeverFull(cs, cap)
    requires cs != [] ==> Last(cs).now <= now
    ensures Clamps(After(cs, cap), Naive(cs), pol, now)
  {
    if cs != [] {
      NeverFullFront(cs, cap);
      ClampsHolds(Front(cs), cap, pol, Last(cs).now);
      var t, n, c := After(Front(cs), cap), Naive(Front(cs)), Last(cs);
      ClampsStep(t, n, cap, pol, c);
      ClampsLater(Charged(t, cap, c.now, c.key, c.policy), NaiveCharge(n, c), pol, c.now, now);
    }
  }

  lemma ClampsStep(t: Table, n: Table, cap: nat, pol: string -> Policy, c: Call)
    requires cap > 0 && c.policy == pol(c.key)
    requires Clamps(t, n, pol, c.now)
    requires !Refused(t, cap, c.now, c.key)
    ensures Clamps(Charged(t, cap, c.now, c.key, c.policy), NaiveCharge(n, c), pol, c.now)
    ensures Counted(t, cap, c.now, c.key, c.policy) == Min(NaiveCharge(n, c)[c.key].count, c.policy.limit + 1)
  {
    assert ClampsAt(t, n, pol, c.now, c.key);
    assert WindowOf(t, c.now, c.key, c.policy).expiry == NaiveCharge(n, c)[c.key].expiry;
    forall k | k != c.key ensures ClampsAt(Charged(t, cap, c.now, c.key, c.policy), NaiveCharge(n, c), pol, c.now, k) {
      assert ClampsAt(t, n, pol, c.now, k);
    }
  }

  /** With a clock that never runs back, one policy per key and a free slot for every new key,
      purging, clamping and bounding change no decision: the bounded limiter admits exactly the
      calls the naive counter admits. */
  lemma {:induction false} BoundedRefinesNaive(cs: seq<Call>, cap: nat, pol: string -> Policy, n: nat)
    requires cap > 0 && Monotone(cs) && Follows(cs, pol) && NeverFull(cs, cap)
    requires 0 < n <= |cs|
    ensures LastAdmitted(cs[..n], cap) <==> NaiveAdmits(cs[..n])
    decreases |cs|
  {
    NeverFullFront(cs, cap);
    if n == |cs| {
      assert cs[..n] == cs;
      ClampsHolds(Front(cs), cap, pol, Last(cs).now);
      ClampsStep(After(Front(cs), cap), Naive(Front(cs)), cap, pol, Last(cs));
    } else {
      assert Front(cs)[..n] == cs[..n];
      BoundedRefinesNaive(Front(cs), cap, pol, n);
    }
  }

  function KeysOf(cs: seq<Call>): set<string>
  {
    set i | 0 <= i < |cs| :: cs[i].key
  }

  lemma {:induction false} TableKeysAreCalled(cs: seq<Call>, cap: nat)
    requires cap > 0
    ensures After(cs, cap).Keys <= KeysOf(cs)
  {
    if cs != [] {
      TableKeysAreCalled(Front(cs), cap);
      assert KeysOf(Front(cs)) <= KeysOf(cs) by {
        forall k | k in KeysOf(Front(cs)) ensures k in KeysOf(cs) {
          var i :| 0 <= i < |Front(cs)| && Front(cs)[i].key == k;
          assert cs[i].key == k;
        }
      }
      assert cs[|cs| - 1].key in KeysOf(cs);
    }
  }

  /** A run over no more distinct keys than slots never finds the table full. */
  lemma FewKeysNeverFull(cs: seq<Call>, cap: nat)
    requires cap > 0 && |KeysOf(cs)| <= cap
    ensures NeverFull(cs, cap)
  {
    forall i | 0 <= i < |cs|
      ensures !FindsFull(cs[..i], cap, cs[i])
    {
      var t := After(cs[..i], cap);
      var live := Purge(t, cs[i].now);
      if cs[i].key !in live {
        TableKeysAreCalled(cs[..i], cap);
        assert live.Keys <= KeysOf(cs) - {cs[i].key} by {
          forall k | k in live ensures k in KeysOf(cs) {
            var j :| 0 <= j < |cs[..i]| && cs[..i][j].key == k;
            assert cs[j].key == k;
          }
        }
        assert cs[i].key in KeysOf(cs);
        SubsetSize(live.Keys, KeysOf(cs) - {cs[i].key});
      }
    }
  }
}
