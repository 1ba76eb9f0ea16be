/** Provider events may arrive in any order and more than once: what the final state depends on. */
module WebhookConvergence {
  import opened Common
  import opened CommerceModel
  import opened CommerceInvariants

  /** One arrival of an event, with the server time and the row order the database happens to use. */
  datatype Delivery = Delivery(event: Event, now: Time, hint: Id)

  function Deliver(db: Db, ds: seq<Delivery>): Db
  {
    if ds == [] then db
    else var d := ds[|ds| - 1]; Webhook(Deliver(db, ds[..|ds| - 1]), d.event, d.now, d.hint).0
  }

  /** A supported event of provider `p` that identifies subscription `s` and no other. */
  ghost predicate Targets(db: Db, p: Provider, s: Id, e: Event)
  {
    e.provider == Some(p) && e.kind.Some? && s in db.subscriptions && Candidates(db, p, e) == {s}
  }

  ghost predicate AllTarget(db: Db, p: Provider, s: Id, ds: seq<Delivery>)
  {
    s in db.subscriptions && forall i :: 0 <= i < |ds| ==> Targets(db, p, s, ds[i].event)
  }

  function Events(ds: seq<Delivery>): seq<Event>
  {
    seq(|ds|, i requires 0 <= i < |ds| => ds[i].event)
  }

  predicate Confusable(d: Event, e: Event)
  {
    d.id == e.id || d.effective == e.effective
  }

  /** An event id stands for one event, and distinct events have distinct effective dates. */
  ghost predicate Identified(es: seq<Event>)
  {
    forall d, e :: d in es && e in es && Confusable(d, e) ==> d == e
  }

  /** Events that set the status of the subscription and of its entitlements. */
  predicate Decisive(k: EventKind)
  {
    k in {Renewal, Expiration, GracePeriod, Refund}
  }

  /** The subscription status an event sets; a cancellation sets none. */
  function SubVerdict(k: EventKind): SubStatus
    requires k != Cancellation
  {
    match k
    case Retry => BillingRetry
    case Renewal => Active
    case Expiration => Expired
    case GracePeriod => InGrace
    case Refund => Revoked
  }

  function EntVerdict(k: EventKind): EntStatus
    requires Decisive(k)
  {
    match k
    case Renewal => EntActive
    case Expiration => EntExpired
    case GracePeriod => EntGrace
    case Refund => EntRevoked
  }

  /** The state event `e` leaves when nothing later than it is applied. */
  ghost predicate DecidedBy(db: Db, s: Id, e: Event)
    requires s in db.subscriptions && e.kind.Some? && Decisive(e.kind.value)
  {
    var sub := db.subscriptions[s];
    && sub.status == SubVerdict(e.kind.value) && sub.updatedAt == Some(e.effective)
    && (forall i :: i in LinkedTo(db, s) ==> db.entitlements[i].status == EntVerdict(e.kind.value))
    && (e.kind == Some(Renewal) && e.expiration.Some? ==>
          sub.periodEnd == e.expiration.value &&
          forall i :: i in LinkedTo(db, s) ==> db.entitlements[i].expiresAt == e.expiration)
  }

  // ---------------------------------------------------------------------------------------
  // The inbox: which events count, and which one counted last
  // ---------------------------------------------------------------------------------------

  /** Recorded event ids, the date of the last update, and the event applied last. */
  datatype Inbox = Inbox(seen: set<string>, updated: Option<Time>, applied: Option<Event>)

  function Receive(x: Inbox, e: Event): Inbox
  {
    if e.id in x.seen then x
    else if x.updated.Some? && e.effective < x.updated.value then x.(seen := x.seen + {e.id})
    else Inbox(x.seen + {e.id}, Some(e.effective), Some(e))
  }

  function ReceiveAll(x: Inbox, es: seq<Event>): Inbox
  {
    if es == [] then x else Receive(ReceiveAll(x, es[..|es| - 1]), es[|es| - 1])
  }

  predicate Fresh(x: Inbox, e: Event) { e.id !in x.seen }

  predicate Overtaken(x: Inbox, e: Event) { x.updated.Some? && e.effective < x.updated.value }

  /** `last` is a fresh event that no fresh event is later than, and it is not out of date. */
  ghost predicate IsLatest(x: Inbox, es: seq<Event>, last: Event)
  {
    && last in es && Fresh(x, last) && !Overtaken(x, last)
    && forall e :: e in es && Fresh(x, e) ==> e.effective <= last.effective
  }

  /** The latest fresh event is the one applied last, whatever the order and the repeats. */
  lemma {:induction false} LatestIsApplied(x: Inbox, es: seq<Event>, last: Event, n: nat)
    requires Identified(es) && IsLatest(x, es, last) && n <= |es|
    ensures var y := ReceiveAll(x, es[..n]);
            && y.seen == x.seen + (set e | e in es[..n] :: e.id)
            && (if last in es[..n] then y.applied == Some(last) &&
                y.updated == Some(last.effective) else !Overtaken(y, last))
    decreases n
  {
    if n > 0 {
      var m, e := n - 1, es[n - 1];
      assert es[..n][..m] == es[..m] && es[..n] == es[..m] + [e];
      LatestIsApplied(x, es, last, m);
      var y := ReceiveAll(x, es[..m]);
      if e.id in y.seen && e.id !in x.seen {
        var d :| d in es[..m] && d.id == e.id;
        assert Confusable(d, e) && d in es;
      }
      if e != last && e.id !in x.seen {
        assert Confusable(e, last) ==> e == last;
      }
    }
  }

  /** When every fresh event is out of date, none is applied. */
  lemma {:induction false} NoneApplied(x: Inbox, es: seq<Event>)
    requires forall e :: e in es && Fresh(x, e) ==> Overtaken(x, e)
    ensures var y := ReceiveAll(x, es); y.applied == x.applied && y.updated == x.updated && x.seen <= y.seen
  {
    if es != [] {
      var m := |es| - 1;
      assert es == es[..m] + [es[m]];
      NoneApplied(x, es[..m]);
      assert Fresh(x, es[m]) ==> Overtaken(x, es[m]);
    }
  }

  lemma {:induction false} LatestExists(x: Inbox, es: seq<Event>) returns (last: Option<Event>)
    ensures last.None? ==> forall e :: e in es && Fresh(x, e) ==> Overtaken(x, e)
    ensures last.Some? ==> IsLatest(x, es, last.value)
  {
    last := None;
    if es != [] {
      var m := |es| - 1;
      last := LatestExists(x, es[..m]);
      assert es == es[..m] + [es[m]];
      if Fresh(x, es[m]) && !Overtaken(x, es[m]) && (last.None? || es[m].effective > last.value.effective) {
        last := Some(es[m]);
      }
    }
  }

  // ---------------------------------------------------------------------------------------
  // The tables follow the inbox
  // ---------------------------------------------------------------------------------------

  function InboxOf(db: Db, p: Provider, s: Id): Inbox
    requires s in db.subscriptions
  {
    Inbox(set k | k in db.events && k.0 == p :: k.1, db.subscriptions[s].updatedAt, None)
  }

  /** `db` is what `start` became when `x` was received. */
  ghost predicate Tracks(start: Db, p: Provider, s: Id, db: Db, x: Inbox)
  {
    && SameShape(start, db) && s in start.subscriptions
    && (forall id :: (p, id) in db.events <==> id in x.seen)
    && db.subscriptions[s].updatedAt == x.updated
    && (x.applied.None? ==> db.subscriptions[s] == start.subscriptions[s] && db.entitlements == start.entitlements)
    && (x.applied.Some? ==>
          x.applied.value.kind.Some? && (Decisive(x.applied.value.kind.value) ==> DecidedBy(db, s, x.applied.value)))
  }

  lemma TargetsStay(a: Db, b: Db, p: Provider, s: Id, e: Event)
    requires SameShape(a, b) && Targets(a, p, s, e)
    ensures Targets(b, p, s, e)
  {
    assert Candidates(a, p, e) == Candidates(b, p, e);
  }

  /** A targeted event is seen before, out of order, or applied. */
  lemma Outcomes(db: Db, p: Provider, s: Id, d: Delivery)
    requires Targets(db, p, s, d.event)
    ensures var e := d.event; var after := Webhook(db, e, d.now, d.hint).0;
            after == if (p, e.id) in db.events then db
                     else if Stale(db.subscriptions[s], e) then Recorded(db, p, e, Ignored)
                     else Recorded(ApplyToSubscription(db, s, e.kind.value, e, d.now), p, e, Processed)
  {
    assert First({s}) == Some(s) && |{s}| == 1;
  }

  lemma AppliedLinks(db: Db, s: Id, kind: EventKind, e: Event, now: Time)
    requires s in db.subscriptions
    ensures var after := ApplyToSubscription(db, s, kind, e, now);
            LinkedTo(after, s) == LinkedTo(db, s) &&
            forall i :: i in LinkedTo(after, s) ==>
              after.entitlements[i] == Changed(db.entitlements[i],
                                               ChangeFor(kind, SubAfter(db.subscriptions[s], kind, e, now).periodEnd,
                                                         now))
  {
    ApplyShape(db, s, kind, e, now);
    ShapeFixesLinks(db, ApplyToSubscription(db, s, kind, e, now), s);
  }

  lemma AppliedDecides(db: Db, s: Id, kind: EventKind, e: Event, now: Time)
    requires s in db.subscriptions && e.kind == Some(kind)
    ensures var after := ApplyToSubscription(db, s, kind, e, now);
            after.subscriptions[s].updatedAt == Some(e.effective) && (Decisive(kind) ==> DecidedBy(after, s, e))
  {
    AppliedLinks(db, s, kind, e, now);
  }

  lemma DecidedApart(db: Db, s: Id, e: Event, events: map<(Provider, string), EventStatus>)
    requires s in db.subscriptions && e.kind.Some? && Decisive(e.kind.value)
    ensures DecidedBy(db.(events := events), s, e) == DecidedBy(db, s, e)
  {
    assert LinkedTo(db, s) == LinkedTo(db.(events := events), s);
  }

  lemma TracksStep(start: Db, p: Provider, s: Id, db: Db, x: Inbox, d: Delivery)
    requires Tracks(start, p, s, db, x) && Targets(start, p, s, d.event)
    ensures Tracks(start, p, s, Webhook(db, d.event, d.now, d.hint).0, Receive(x, d.event))
  {
    var e := d.event;
    TargetsStay(start, db, p, s, e);
    Outcomes(db, p, s, d);
    if (p, e.id) !in db.events {
      if Stale(db.subscriptions[s], e) {
        var after := Recorded(db, p, e, Ignored);
        if x.applied.Some? && Decisive(x.applied.value.kind.value) { DecidedApart(db, s, x.applied.value, after.events);
              }
        TracksRecorded(start, p, s, db, x, e, after);
      } else {
        var kind := e.kind.value;
        var mid := ApplyToSubscription(db, s, kind, e, d.now);
        AppliedDecides(db, s, kind, e, d.now);
        ApplyShape(db, s, kind, e, d.now);
        SameShapeTrans(start, db, mid);
        TracksApplied(start, p, s, db, x, e, mid);
      }
    }
  }

  lemma TracksRecorded(start: Db, p: Provider, s: Id, db: Db, x: Inbox, e: Event, after: Db)
    requires Tracks(start, p, s, db, x) && after == Recorded(db, p, e, Ignored)
    requires x.applied.Some? && Decisive(x.applied.value.kind.value) ==> DecidedBy(after, s, x.applied.value)
    ensures Tracks(start, p, s, after, x.(seen := x.seen + {e.id}))
  {
  }

  lemma TracksApplied(start: Db, p: Provider, s: Id, db: Db, x: Inbox, e: Event, mid: Db)
    requires Tracks(start, p, s, db, x) && SameShape(start, mid) && mid.events == db.events && e.kind.Some?
    requires mid.subscriptions[s].updatedAt == Some(e.effective) && (Decisive(e.kind.value) ==> DecidedBy(mid, s, e))
    ensures Tracks(start, p, s, Recorded(mid, p, e, Processed), Inbox(x.seen + {e.id}, Some(e.effective), Some(e)))
  {
    var after := Recorded(mid, p, e, Processed);
    if Decisive(e.kind.value) { DecidedApart(mid, s, e, after.events); }
  }

  lemma SameShapeTrans(a: Db, b: Db, c: Db)
    requires SameShape(a, b) && SameShape(b, c)
    ensures SameShape(a, c)
  {
  }

  lemma {:induction false} DeliveriesTrack(db: Db, p: Provider, s: Id, ds: seq<Delivery>)
    requires AllTarget(db, p, s, ds)
    ensures Tracks(db, p, s, Deliver(db, ds), ReceiveAll(InboxOf(db, p, s), Events(ds)))
  {
    if ds == [] {
      TracksStart(db, p, s);
    } else {
      var m := |ds| - 1;
      DeliveriesTrack(db, p, s, ds[..m]);
      assert Events(ds)[..m] == Events(ds[..m]);
      TracksStep(db, p, s, Deliver(db, ds[..m]), ReceiveAll(InboxOf(db, p, s), Events(ds[..m])), ds[m]);
    }
  }

  lemma TracksStart(db: Db, p: Provider, s: Id)
    requires s in db.subscriptions
    ensures Tracks(db, p, s, db, InboxOf(db, p, s))
  {
    forall id ensures (p, id) in db.events <==> id in InboxOf(db, p, s).seen {
      if (p, id) in db.events { assert (p, id).1 in InboxOf(db, p, s).seen; }
    }
  }

  // ---------------------------------------------------------------------------------------
  // Convergence
  // ---------------------------------------------------------------------------------------

  /** The latest fresh event decides: whatever the order, the repeats and the delivery times, the
      subscription, its entitlements and the date of the last update are those of that event. */
  lemma LatestDecides(db: Db, p: Provider, s: Id, ds: seq<Delivery>, last: Event)
    requires AllTarget(db, p, s, ds) && Identified(Events(ds)) && IsLatest(InboxOf(db, p, s), Events(ds), last)
    ensures var after := Deliver(db, ds);
            && s in after.subscriptions && after.subscriptions[s].updatedAt == Some(last.effective)
            && last.kind.Some? && (Decisive(last.kind.value) ==> DecidedBy(after, s, last))
  {
    var es := Events(ds);
    DeliveriesTrack(db, p, s, ds);
    LatestIsApplied(InboxOf(db, p, s), es, last, |es|);
    assert es[..|es|] == es;
  }

  /** When every fresh event is older than the recorded state, nothing changes. */
  lemma StaleChangesNothing(db: Db, p: Provider, s: Id, ds: seq<Delivery>)
    requires AllTarget(db, p, s, ds)
    requires var x := InboxOf(db, p, s); forall e :: e in Events(ds) && Fresh(x, e) ==> Overtaken(x, e)
    ensures var after := Deliver(db, ds);
            s in after.subscriptions && after.subscriptions[s] == db.subscriptions[s] &&
                after.entitlements == db.entitlements
  {
    DeliveriesTrack(db, p, s, ds);
    NoneApplied(InboxOf(db, p, s), Events(ds));
  }

  ghost predicate SameEvents(a: seq<Delivery>, b: seq<Delivery>)
  {
    forall e :: e in Events(a) <==> e in Events(b)
  }

  /** What the two ends of a race must agree on. */
  ghost predicate Agree(x: Db, y: Db, s: Id)
  {
    && s in x.subscriptions && s in y.subscriptions
    && x.subscriptions[s].status == y.subscriptions[s].status
    && x.subscriptions[s].updatedAt == y.subscriptions[s].updatedAt
    && LinkedTo(x, s) == LinkedTo(y, s)
    && forall i :: i in LinkedTo(x, s) ==> x.entitlements[i].status == y.entitlements[i].status
  }

  lemma DecidedAgree(x: Db, y: Db, s: Id, e: Event)
    requires s in x.subscriptions && s in y.subscriptions && LinkedTo(x, s) == LinkedTo(y, s)
    requires e.kind.Some? && Decisive(e.kind.value) && DecidedBy(x, s, e) && DecidedBy(y, s, e)
    ensures Agree(x, y, s)
  {
  }

  /** Convergence: two delivery sequences with the same set of events, duplicates allowed, end with
      the same subscription status, the same date of last update and the same status of every linked
      entitlement, provided the latest fresh event, when it is applied at all, is decisive. */
  lemma DeliveriesConverge(db: Db, p: Provider, s: Id, a: seq<Delivery>, b: seq<Delivery>)
    requires AllTarget(db, p, s, a) && AllTarget(db, p, s, b) && SameEvents(a, b) && Identified(Events(a))
    requires forall last :: IsLatest(InboxOf(db, p, s), Events(a), last) && last.kind.Some? ==>
             Decisive(last.kind.value)
    ensures Agree(Deliver(db, a), Deliver(db, b), s)
  {
    var x := InboxOf(db, p, s);
    LinksStay(db, p, s, a);
    LinksStay(db, p, s, b);
    var last := LatestExists(x, Events(a));
    if last.Some? {
      assert IsLatest(x, Events(b), last.value);
      LatestDecides(db, p, s, a, last.value);
      LatestDecides(db, p, s, b, last.value);
      DecidedAgree(Deliver(db, a), Deliver(db, b), s, last.value);
    } else {
      StaleChangesNothing(db, p, s, a);
      StaleChangesNothing(db, p, s, b);
    }
  }

  lemma LinksStay(db: Db, p: Provider, s: Id, ds: seq<Delivery>)
    requires AllTarget(db, p, s, ds)
    ensures LinkedTo(Deliver(db, ds), s) == LinkedTo(db, s)
  {
    DeliveriesTrack(db, p, s, ds);
    ShapeFixesLinks(db, Deliver(db, ds), s);
  }
}
