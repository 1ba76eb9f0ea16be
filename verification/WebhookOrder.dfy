/** Exactly when the order in which provider events arrive shows in the end, and in what. */
module WebhookOrder {
  import opened Common
  import opened CommerceModel
  import opened CommerceInvariants
  import opened WebhookConvergence

  // ---------------------------------------------------------------------------------------
  // What deliveries do to one subscription, apart from the tables
  // ---------------------------------------------------------------------------------------

  /** A subscription's status and period end, and the statuses of its entitlements. */
  datatype View = View(status: SubStatus, end: Time, ents: map<Id, EntStatus>)

  function ViewOf(db: Db, s: Id): View
    requires s in db.subscriptions
  {
    View(db.subscriptions[s].status, db.subscriptions[s].periodEnd, map i | i in LinkedTo(db, s) ::
         db.entitlements[i].status)
  }

  function EndOf(e: Event, now: Time): Time
  {
    if e.expiration.Some? then e.expiration.value else now + 30 * DAY
  }

  /** The view once an event is applied. */
  function Shown(v: View, k: EventKind, e: Event, now: Time): View
  {
    View(if k == Cancellation then v.status else SubVerdict(k),
         if k == Renewal then EndOf(e, now) else v.end,
         if Decisive(k) then map i | i in v.ents :: EntVerdict(k) else v.ents)
  }

  /** Neither recorded nor out of date. */
  predicate Contends(x: Inbox, e: Event) { Fresh(x, e) && !Overtaken(x, e) }

  function Glance(x: Inbox, v: View, d: Delivery): View
  {
    if Contends(x, d.event) && d.event.kind.Some? then Shown(v, d.event.kind.value, d.event, d.now) else v
  }

  function ViewAfter(x: Inbox, v: View, ds: seq<Delivery>): View
  {
    if ds == [] then v
    else
      var n := |ds| - 1;
      Glance(ReceiveAll(x, Events(ds[..n])), ViewAfter(x, v, ds[..n]), ds[n])
  }

  lemma ChangedStatus(ent: Entitlement, k: EventKind, end: Time, now: Time)
    ensures Changed(ent, ChangeFor(k, end, now)).status == if Decisive(k) then EntVerdict(k) else ent.status
  {
  }

  lemma AppliedView(db: Db, s: Id, k: EventKind, e: Event, now: Time)
    requires s in db.subscriptions
    ensures ViewOf(ApplyToSubscription(db, s, k, e, now), s) == Shown(ViewOf(db, s), k, e, now)
  {
    var after, end := ApplyToSubscription(db, s, k, e, now), SubAfter(db.subscriptions[s], k, e, now).periodEnd;
    AppliedLinks(db, s, k, e, now);
    forall i | i in LinkedTo(db, s)
      ensures after.entitlements[i].status == if Decisive(k) then EntVerdict(k) else db.entitlements[i].status
    {
      ChangedStatus(db.entitlements[i], k, end, now);
    }
    assert ViewOf(after, s).ents == Shown(ViewOf(db, s), k, e, now).ents;
  }

  lemma RecordedView(db: Db, p: Provider, s: Id, e: Event, status: EventStatus)
    requires s in db.subscriptions
    ensures ViewOf(Recorded(db, p, e, status), s) == ViewOf(db, s)
  {
    assert LinkedTo(Recorded(db, p, e, status), s) == LinkedTo(db, s);
  }

  lemma WebhookView(start: Db, db: Db, p: Provider, s: Id, x: Inbox, d: Delivery)
    requires Tracks(start, p, s, db, x) && Targets(start, p, s, d.event)
    ensures var after := Webhook(db, d.event, d.now, d.hint).0;
            s in after.subscriptions && ViewOf(after, s) == Glance(x, ViewOf(db, s), d)
  {
    var e := d.event;
    TargetsStay(start, db, p, s, e);
    Outcomes(db, p, s, d);
    if (p, e.id) !in db.events {
      if Stale(db.subscriptions[s], e) {
        RecordedView(db, p, s, e, Ignored);
      } else {
        AppliedView(db, s, e.kind.value, e, d.now);
        RecordedView(ApplyToSubscription(db, s, e.kind.value, e, d.now), p, s, e, Processed);
      }
    }
  }

  /** The tables show what the view says. */
  lemma {:induction false} DeliveredView(db: Db, p: Provider, s: Id, ds: seq<Delivery>)
    requires AllTarget(db, p, s, ds)
    ensures s in Deliver(db, ds).subscriptions
    ensures ViewOf(Deliver(db, ds), s) == ViewAfter(InboxOf(db, p, s), ViewOf(db, s), ds)
  {
    if ds != [] {
      var n := |ds| - 1;
      DeliveredView(db, p, s, ds[..n]);
      DeliveriesTrack(db, p, s, ds[..n]);
      WebhookView(db, Deliver(db, ds[..n]), p, s, ReceiveAll(InboxOf(db, p, s), Events(ds[..n])), ds[n]);
    }
  }

  // ---------------------------------------------------------------------------------------
  // Sequences of deliveries
  // ---------------------------------------------------------------------------------------

  lemma EventsOf(a: seq<Delivery>, b: seq<Delivery>)
    ensures Events(a + b) == Events(a) + Events(b)
  {
  }

  lemma {:induction false} ReceiveConcat(x: Inbox, a: seq<Event>, b: seq<Event>)
    ensures ReceiveAll(x, a + b) == ReceiveAll(ReceiveAll(x, a), b)
    decreases |b|
  {
    if b == [] {
      assert a + b == a;
    } else {
      var n := |b| - 1;
      assert (a + b)[..|a + b| - 1] == a + b[..n];
      ReceiveConcat(x, a, b[..n]);
    }
  }

  lemma {:induction false} ViewConcat(x: Inbox, v: View, a: seq<Delivery>, b: seq<Delivery>)
    ensures ViewAfter(x, v, a + b) == ViewAfter(ReceiveAll(x, Events(a)), ViewAfter(x, v, a), b)
    decreases |b|
  {
    if b == [] {
      assert a + b == a;
    } else {
      var n := |b| - 1;
      assert (a + b)[..|a + b| - 1] == a + b[..n];
      ViewConcat(x, v, a, b[..n]);
      EventsOf(a, b[..n]);
      ReceiveConcat(x, Events(a), Events(b[..n]));
    }
  }

  /** Records are never dropped and the date never runs back. */
  lemma {:induction false} InboxGrows(x: Inbox, es: seq<Event>)
    ensures var y := ReceiveAll(x, es);
            x.seen <= y.seen && (x.updated.Some? ==> y.updated.Some? && x.updated.value <= y.updated.value)
  {
    if es != [] {
      InboxGrows(x, es[..|es| - 1]);
    }
  }

  /** When nothing contends, the view stays. */
  lemma {:induction false} Quiet(x: Inbox, v: View, ds: seq<Delivery>)
    requires forall e :: e in Events(ds) ==> !Contends(x, e)
    ensures ViewAfter(x, v, ds) == v
  {
    if ds != [] {
      var n := |ds| - 1;
      assert ds == ds[..n] + [ds[n]];
      EventsOf(ds[..n], [ds[n]]);
      Quiet(x, v, ds[..n]);
      InboxGrows(x, Events(ds[..n]));
      assert Events(ds)[n] == ds[n].event && !Contends(x, ds[n].event);
    }
  }

  /** An event other than the latest that can be applied when it arrives early enough. */
  predicate Rival(x: Inbox, es: seq<Event>, last: Event, e: Event)
  {
    e in es && Contends(x, e) && e != last
  }

  /** Once the latest event is received, no event of the set contends. */
  lemma LatestSilences(x: Inbox, es: seq<Event>, last: Event, y: Inbox)
    requires Identified(es) && IsLatest(x, es, last)
    requires x.seen <= y.seen && last.id in y.seen && y.updated == Some(last.effective)
    ensures forall e :: e in es ==> !Contends(y, e)
  {
    forall e | e in es ensures !Contends(y, e) {
      if Fresh(y, e) && e.effective == last.effective { assert Confusable(e, last); }
    }
  }

  // ---------------------------------------------------------------------------------------
  // Two revealing orders
  // ---------------------------------------------------------------------------------------

  /** The latest event first: nothing else is applied. */
  lemma LastFirst(x: Inbox, v: View, a: seq<Delivery>, last: Delivery)
    requires Identified(Events(a)) && IsLatest(x, Events(a), last.event) && last.event.kind.Some?
    ensures ViewAfter(x, v, [last] + a) == Shown(v, last.event.kind.value, last.event, last.now)
  {
    assert Events([last]) == [last.event] && [last][..0] == [];
    var y := Receive(x, last.event);
    assert ReceiveAll(x, Events([last])) == y by { assert [last.event][..0] == []; }
    assert ViewAfter(x, v, [last]) == Glance(x, v, last) by { assert ReceiveAll(x, Events([last][..0])) == x; }
    LatestSilences(x, Events(a), last.event, y);
    ViewConcat(x, v, [last], a);
    Quiet(y, ViewAfter(x, v, [last]), a);
  }

  /** A rival, then the latest event: these two are applied and nothing else. */
  lemma RivalFirst(x: Inbox, v: View, a: seq<Delivery>, e: Delivery, last: Delivery)
    requires Identified(Events(a)) && IsLatest(x, Events(a), last.event) && Rival(x, Events(a), last.event, e.event)
    requires e.event.kind.Some? && last.event.kind.Some?
    ensures ViewAfter(x, v, [e] + ([last] + a)) ==
            Shown(Shown(v, e.event.kind.value, e.event, e.now), last.event.kind.value, last.event, last.now)
  {
    var y := Receive(x, e.event);
    assert Events([e]) == [e.event] && [e.event][..0] == [] && [e][..0] == [];
    assert ReceiveAll(x, Events([e])) == y;
    assert ViewAfter(x, v, [e]) == Glance(x, v, e) by { assert ReceiveAll(x, Events([e][..0])) == x; }
    assert Confusable(e.event, last.event) ==> e.event == last.event;
    assert IsLatest(y, Events(a), last.event);
    ViewConcat(x, v, [e], [last] + a);
    LastFirst(y, ViewAfter(x, v, [e]), a, last);
  }

  // ---------------------------------------------------------------------------------------
  // Statuses
  // ---------------------------------------------------------------------------------------

  /** Under a latest event of kind `last`, an event of kind `k` leaves no trace: what it sets is
      already so, or is set again by the latest. */
  predicate Inert(v: View, last: EventKind, k: EventKind)
  {
    && (Decisive(k) ==> forall i :: i in v.ents ==> v.ents[i] == EntVerdict(k))
    && (last == Cancellation && k != Cancellation ==> v.status == SubVerdict(k))
  }

  /** The latest event is decisive, or the rival is inert under it. */
  predicate Harmless(v: View, last: Event, e: Event)
  {
    last.kind.Some? && e.kind.Some? && (Decisive(last.kind.value) || Inert(v, last.kind.value, e.kind.value))
  }

  /** Every rival of the latest event is harmless. */
  ghost predicate Settled(x: Inbox, v: View, es: seq<Event>)
  {
    forall last, e :: IsLatest(x, es, last) && Rival(x, es, last, e) ==> Harmless(v, last, e)
  }

  predicate SameStatuses(v: View, w: View) { v.status == w.status && v.ents == w.ents }

  /** What an inert event leaves alone. */
  predicate Unmoved(v: View, w: View, last: EventKind)
  {
    w.ents == v.ents && (last == Cancellation ==> w.status == v.status)
  }

  lemma InertShows(v: View, w: View, last: EventKind, k: EventKind, e: Event, now: Time)
    requires Unmoved(v, w, last) && Inert(v, last, k)
    ensures Unmoved(v, Shown(w, k, e, now), last)
  {
    assert Shown(w, k, e, now).ents == v.ents;
  }

  lemma {:induction false} InertLeavesNoTrace(x: Inbox, v: View, ds: seq<Delivery>, last: Event)
    requires last.kind.Some? && !Decisive(last.kind.value)
    requires forall e :: e in Events(ds) && Contends(x, e) && e != last ==> Harmless(v, last, e)
    ensures Unmoved(v, ViewAfter(x, v, ds), last.kind.value)
  {
    if ds != [] {
      var n, d := |ds| - 1, ds[|ds| - 1];
      assert ds == ds[..n] + [d];
      EventsOf(ds[..n], [d]);
      assert Events(ds)[n] == d.event && d.event in Events(ds);
      InertLeavesNoTrace(x, v, ds[..n], last);
      InboxGrows(x, Events(ds[..n]));
      if Contends(ReceiveAll(x, Events(ds[..n])), d.event) && d.event.kind.Some? {
        assert Contends(x, d.event);
        InertShows(v, ViewAfter(x, v, ds[..n]), last.kind.value, d.event.kind.value, d.event, d.now);
      }
    }
  }

  /** What the event applied last sets is what the view shows. */
  predicate Shows(v: View, e: Event)
  {
    && e.kind.Some?
    && (e.kind.value != Cancellation ==> v.status == SubVerdict(e.kind.value))
    && (e.kind.value == Renewal && e.expiration.Some? ==> v.end == e.expiration.value)
  }

  lemma {:induction false} AppliedShows(x: Inbox, v: View, ds: seq<Delivery>)
    requires x.applied.None? && forall e :: e in Events(ds) ==> e.kind.Some?
    ensures var y := ReceiveAll(x, Events(ds)); y.applied.Some? ==> Shows(ViewAfter(x, v, ds), y.applied.value)
  {
    if ds != [] {
      var n := |ds| - 1;
      assert ds == ds[..n] + [ds[n]];
      EventsOf(ds[..n], [ds[n]]);
      assert Events(ds)[..n] == Events(ds[..n]) && Events(ds)[n] == ds[n].event;
      AppliedShows(x, v, ds[..n]);
    }
  }

  lemma LastIsShown(x: Inbox, v: View, ds: seq<Delivery>, last: Event)
    requires x.applied.None? && forall e :: e in Events(ds) ==> e.kind.Some?
    requires Identified(Events(ds)) && IsLatest(x, Events(ds), last)
    ensures Shows(ViewAfter(x, v, ds), last)
  {
    var es := Events(ds);
    AppliedShows(x, v, ds);
    LatestIsApplied(x, es, last, |es|);
    assert es[..|es|] == es;
  }

  /** Deliveries name the same events, so the same one is the latest and has the same rivals. */
  lemma SameRivals(db: Db, p: Provider, s: Id, a: seq<Delivery>, b: seq<Delivery>)
    requires AllTarget(db, p, s, a) && SameEvents(a, b)
    ensures AllTarget(db, p, s, b) && (Identified(Events(a)) ==> Identified(Events(b)))
    ensures forall e :: e in Events(a) ==> e.kind.Some?
    ensures forall x, last :: IsLatest(x, Events(a), last) ==> IsLatest(x, Events(b), last)
  {
    forall i | 0 <= i < |b| ensures Targets(db, p, s, b[i].event) {
      assert Events(b)[i] in Events(a);
      var j :| 0 <= j < |a| && Events(a)[j] == b[i].event;
      assert Targets(db, p, s, a[j].event);
    }
    forall e | e in Events(a) ensures e.kind.Some? {
      var j :| 0 <= j < |a| && Events(a)[j] == e;
      assert Targets(db, p, s, a[j].event);
    }
  }

  lemma DeliveryOf(a: seq<Delivery>, e: Event) returns (d: Delivery)
    requires e in Events(a)
    ensures d in a && d.event == e
  {
    var i :| 0 <= i < |a| && Events(a)[i] == e;
    d := a[i];
  }

  /** More deliveries of events already there. */
  lemma Prepended(a: seq<Delivery>, d: Delivery, b: seq<Delivery>)
    requires d.event in Events(a) && SameEvents(a, b)
    ensures SameEvents(a, [d] + b)
  {
    EventsOf([d], b);
    assert Events([d]) == [d.event];
  }

  /** The tables agree when the views do; the date of the last update always agrees. */
  lemma AgreeByView(db: Db, p: Provider, s: Id, a: seq<Delivery>, b: seq<Delivery>)
    requires AllTarget(db, p, s, a) && Identified(Events(a)) && SameEvents(a, b)
    ensures s in Deliver(db, a).subscriptions && s in Deliver(db, b).subscriptions
    ensures Agree(Deliver(db, a), Deliver(db, b), s) <==>
            SameStatuses(ViewOf(Deliver(db, a), s), ViewOf(Deliver(db, b), s))
  {
    SameRivals(db, p, s, a, b);
    SameDate(db, p, s, a, b);
    LinksStay(db, p, s, a);
    LinksStay(db, p, s, b);
    var x, y := ViewOf(Deliver(db, a), s), ViewOf(Deliver(db, b), s);
    assert x.ents == y.ents <==>
           forall i :: i in LinkedTo(db, s) ==>
               Deliver(db, a).entitlements[i].status == Deliver(db, b).entitlements[i].status by {
      forall i | i in LinkedTo(db, s)
        ensures x.ents[i] == Deliver(db, a).entitlements[i].status &&
                y.ents[i] == Deliver(db, b).entitlements[i].status {}
    }
  }

  lemma SameDate(db: Db, p: Provider, s: Id, a: seq<Delivery>, b: seq<Delivery>)
    requires AllTarget(db, p, s, a) && AllTarget(db, p, s, b) && SameEvents(a, b) && Identified(Events(a))
    ensures s in Deliver(db, a).subscriptions && s in Deliver(db, b).subscriptions
    ensures Deliver(db, a).subscriptions[s].updatedAt == Deliver(db, b).subscriptions[s].updatedAt
  {
    var x := InboxOf(db, p, s);
    SameRivals(db, p, s, a, b);
    var last := LatestExists(x, Events(a));
    if last.Some? {
      LatestDecides(db, p, s, a, last.value);
      LatestDecides(db, p, s, b, last.value);
    } else {
      StaleChangesNothing(db, p, s, a);
      StaleChangesNothing(db, p, s, b);
    }
  }

  /** Under a billing retry or a cancellation as the latest event, inert rivals cannot make a difference. */
  lemma InertConverge(x: Inbox, v: View, a: seq<Delivery>, b: seq<Delivery>, last: Event)
    requires x.applied.None? && SameEvents(a, b) && Identified(Events(a)) && Identified(Events(b))
    requires (forall e :: e in Events(a) ==> e.kind.Some?) && IsLatest(x, Events(a), last) &&
             IsLatest(x, Events(b), last)
    requires last.kind.Some? && !Decisive(last.kind.value)
    requires forall e :: Rival(x, Events(a), last, e) ==> Harmless(v, last, e)
    ensures SameStatuses(ViewAfter(x, v, a), ViewAfter(x, v, b))
  {
    LastIsShown(x, v, a, last);
    LastIsShown(x, v, b, last);
    forall e | e in Events(a) && Contends(x, e) && e != last ensures Harmless(v, last, e) {
      assert Rival(x, Events(a), last, e);
    }
    InertLeavesNoTrace(x, v, a, last);
    InertLeavesNoTrace(x, v, b, last);
  }

  lemma SettledConverge(db: Db, p: Provider, s: Id, a: seq<Delivery>, b: seq<Delivery>)
    requires AllTarget(db, p, s, a) && Identified(Events(a)) && SameEvents(a, b)
    requires Settled(InboxOf(db, p, s), ViewOf(db, s), Events(a))
    ensures Agree(Deliver(db, a), Deliver(db, b), s)
  {
    var x, v := InboxOf(db, p, s), ViewOf(db, s);
    SameRivals(db, p, s, a, b);
    var last := LatestExists(x, Events(a));
    if last.Some? && !Decisive(last.value.kind.value) {
      InertConverge(x, v, a, b, last.value);
      DeliveredView(db, p, s, a);
      DeliveredView(db, p, s, b);
      AgreeByView(db, p, s, a, b);
    } else {
      forall l | IsLatest(x, Events(a), l) && l.kind.Some? ensures Decisive(l.kind.value) {
        OneLatest(x, Events(a), l, last);
      }
      DeliveriesConverge(db, p, s, a, b);
    }
  }

  lemma OneLatest(x: Inbox, es: seq<Event>, l: Event, last: Option<Event>)
    requires Identified(es) && IsLatest(x, es, l)
    requires last.None? ==> forall e :: e in es && Fresh(x, e) ==> Overtaken(x, e)
    requires last.Some? ==> IsLatest(x, es, last.value)
    ensures last == Some(l)
  {
    if last.Some? { assert Confusable(l, last.value); }
  }

  /** A rival that is not harmless makes two orders disagree: the latest event at the front, and the
      rival before it. */
  lemma OtherKindsDoNotConverge(db: Db, p: Provider, s: Id, a: seq<Delivery>, last: Event, e: Event)
    returns (b: seq<Delivery>, c: seq<Delivery>)
    requires AllTarget(db, p, s, a) && Identified(Events(a))
    requires var x := InboxOf(db, p, s); IsLatest(x, Events(a), last) && Rival(x, Events(a), last, e)
    requires !Harmless(ViewOf(db, s), last, e)
    ensures SameEvents(a, b) && SameEvents(a, c) && !Agree(Deliver(db, b), Deliver(db, c), s)
  {
    var x, v := InboxOf(db, p, s), ViewOf(db, s);
    var dl := DeliveryOf(a, last);
    var de := DeliveryOf(a, e);
    b, c := [dl] + a, [de] + ([dl] + a);
    Prepended(a, dl, a);
    Prepended(a, de, b);
    SameRivals(db, p, s, a, b);
    SameRivals(db, p, s, a, c);
    LastFirst(x, v, a, dl);
    RivalFirst(x, v, a, de, dl);
    DeliveredView(db, p, s, b);
    DeliveredView(db, p, s, c);
    AgreeByView(db, p, s, b, c);
    HarmShows(v, last.kind.value, e.kind.value, last, e, dl.now, de.now);
  }

  lemma HarmShows(v: View, last: EventKind, k: EventKind, l: Event, e: Event, now: Time, before: Time)
    requires !Decisive(last) && !Inert(v, last, k)
    ensures !SameStatuses(Shown(v, last, l, now), Shown(Shown(v, k, e, before), last, l, now))
  {
    if Decisive(k) && !forall i :: i in v.ents ==> v.ents[i] == EntVerdict(k) {
      var i :| i in v.ents && v.ents[i] != EntVerdict(k);
      assert Shown(v, k, e, before).ents[i] == EntVerdict(k);
    }
  }

  /** Exactly when the statuses do not depend on order, repeats and delivery times: every rival of the
      latest fresh event is harmless. A renewal, expiration, grace period or refund as the latest event
      makes all of them so; under a billing retry or a cancellation only inert ones are. */
  lemma StatusesConvergeExactlyWhen(db: Db, p: Provider, s: Id, a: seq<Delivery>)
    requires AllTarget(db, p, s, a) && Identified(Events(a))
    ensures (forall b :: SameEvents(a, b) ==> Agree(Deliver(db, a), Deliver(db, b), s)) <==>
            Settled(InboxOf(db, p, s), ViewOf(db, s), Events(a))
  {
    var x, v := InboxOf(db, p, s), ViewOf(db, s);
    if Settled(x, v, Events(a)) {
      forall b | SameEvents(a, b) ensures Agree(Deliver(db, a), Deliver(db, b), s) {
        SettledConverge(db, p, s, a, b);
      }
    }
    if forall b :: SameEvents(a, b) ==> Agree(Deliver(db, a), Deliver(db, b), s) {
      forall last, e | IsLatest(x, Events(a), last) && Rival(x, Events(a), last, e) ensures Harmless(v, last, e) {
        if !Harmless(v, last, e) {
          var b, c := OtherKindsDoNotConverge(db, p, s, a, last, e);
          AgreeMeets(Deliver(db, a), Deliver(db, b), Deliver(db, c), s);
        }
      }
    }
  }

  lemma AgreeMeets(x: Db, y: Db, z: Db, s: Id)
    requires Agree(x, y, s) && Agree(x, z, s)
    ensures Agree(y, z, s)
  {
  }

  // ---------------------------------------------------------------------------------------
  // The period end
  // ---------------------------------------------------------------------------------------

  ghost predicate AgreeOnEnd(x: Db, y: Db, s: Id)
  {
    s in x.subscriptions && s in y.subscriptions && x.subscriptions[s].periodEnd == y.subscriptions[s].periodEnd
  }

  /** A renewal that does not move the recorded end. */
  predicate KeepsEnd(v: View, e: Event)
  {
    e.kind == Some(Renewal) ==> e.expiration == Some(v.end)
  }

  /** The latest event is a renewal with its own end, or no renewal and no rival moves the end. */
  ghost predicate EndSettled(x: Inbox, v: View, es: seq<Event>)
  {
    forall last :: IsLatest(x, es, last) ==> EndDecided(x, v, es, last)
  }

  ghost predicate EndDecided(x: Inbox, v: View, es: seq<Event>, last: Event)
  {
    if last.kind == Some(Renewal) then last.expiration.Some? else forall e :: Rival(x, es, last, e) ==> KeepsEnd(v, e)
  }

  lemma {:induction false} EndUnmoved(x: Inbox, v: View, ds: seq<Delivery>)
    requires forall e :: e in Events(ds) && Contends(x, e) ==> KeepsEnd(v, e)
    ensures ViewAfter(x, v, ds).end == v.end
  {
    if ds != [] {
      var n := |ds| - 1;
      assert ds == ds[..n] + [ds[n]];
      EventsOf(ds[..n], [ds[n]]);
      assert Events(ds)[n] == ds[n].event && ds[n].event in Events(ds);
      EndUnmoved(x, v, ds[..n]);
      InboxGrows(x, Events(ds[..n]));
      assert Contends(ReceiveAll(x, Events(ds[..n])), ds[n].event) ==> Contends(x, ds[n].event);
    }
  }

  lemma EndConverges(db: Db, p: Provider, s: Id, a: seq<Delivery>, b: seq<Delivery>)
    requires AllTarget(db, p, s, a) && Identified(Events(a)) && SameEvents(a, b)
    requires EndSettled(InboxOf(db, p, s), ViewOf(db, s), Events(a))
    ensures AgreeOnEnd(Deliver(db, a), Deliver(db, b), s)
  {
    var x, v := InboxOf(db, p, s), ViewOf(db, s);
    SameRivals(db, p, s, a, b);
    DeliveredView(db, p, s, a);
    DeliveredView(db, p, s, b);
    var last := LatestExists(x, Events(a));
    if last.Some? && last.value.kind == Some(Renewal) {
      LastIsShown(x, v, a, last.value);
      LastIsShown(x, v, b, last.value);
    } else {
      forall e | e in Events(a) && Contends(x, e) ensures KeepsEnd(v, e) {
        assert last.Some? && e != last.value ==> Rival(x, Events(a), last.value, e);
      }
      EndUnmoved(x, v, a);
      EndUnmoved(x, v, b);
    }
  }

  /** Two deliveries of a renewal without an end of its own, at different times. */
  lemma EndFollowsTheClock(db: Db, p: Provider, s: Id, a: seq<Delivery>, last: Event)
    returns (b: seq<Delivery>, c: seq<Delivery>)
    requires AllTarget(db, p, s, a) && Identified(Events(a)) && IsLatest(InboxOf(db, p, s), Events(a), last)
    requires last.kind == Some(Renewal) && last.expiration.None?
    ensures SameEvents(a, b) && SameEvents(a, c) && !AgreeOnEnd(Deliver(db, b), Deliver(db, c), s)
  {
    var x, v := InboxOf(db, p, s), ViewOf(db, s);
    var d, e := Delivery(last, 0, 0), Delivery(last, 1, 0);
    b, c := [d] + a, [e] + a;
    Prepended(a, d, a);
    Prepended(a, e, a);
    SameRivals(db, p, s, a, b);
    SameRivals(db, p, s, a, c);
    LastFirst(x, v, a, d);
    LastFirst(x, v, a, e);
    DeliveredView(db, p, s, b);
    DeliveredView(db, p, s, c);
  }

  /** The latest event at the front drops a renewal that, before it, moves the end. */
  lemma PeriodEndDependsOnOrder(db: Db, p: Provider, s: Id, a: seq<Delivery>, last: Event, e: Event)
    returns (b: seq<Delivery>, c: seq<Delivery>)
    requires AllTarget(db, p, s, a) && Identified(Events(a))
    requires var x := InboxOf(db, p, s); IsLatest(x, Events(a), last) && Rival(x, Events(a), last, e)
    requires last.kind != Some(Renewal) && !KeepsEnd(ViewOf(db, s), e)
    ensures SameEvents(a, b) && SameEvents(a, c) && !AgreeOnEnd(Deliver(db, b), Deliver(db, c), s)
  {
    var x, v := InboxOf(db, p, s), ViewOf(db, s);
    var dl := DeliveryOf(a, last);
    var de := Delivery(e, v.end, 0);
    b, c := [dl] + a, [de] + ([dl] + a);
    Prepended(a, dl, a);
    Prepended(a, de, b);
    SameRivals(db, p, s, a, b);
    SameRivals(db, p, s, a, c);
    LastFirst(x, v, a, dl);
    RivalFirst(x, v, a, de, dl);
    DeliveredView(db, p, s, b);
    DeliveredView(db, p, s, c);
  }

  /** Exactly when the period end does not depend on order, repeats and delivery times. */
  lemma PeriodEndConvergesExactlyWhen(db: Db, p: Provider, s: Id, a: seq<Delivery>)
    requires AllTarget(db, p, s, a) && Identified(Events(a))
    ensures (forall b :: SameEvents(a, b) ==> AgreeOnEnd(Deliver(db, a), Deliver(db, b), s)) <==>
            EndSettled(InboxOf(db, p, s), ViewOf(db, s), Events(a))
  {
    var x, v := InboxOf(db, p, s), ViewOf(db, s);
    if EndSettled(x, v, Events(a)) {
      forall b | SameEvents(a, b) ensures AgreeOnEnd(Deliver(db, a), Deliver(db, b), s) {
        EndConverges(db, p, s, a, b);
      }
    }
    if forall b :: SameEvents(a, b) ==> AgreeOnEnd(Deliver(db, a), Deliver(db, b), s) {
      forall last | IsLatest(x, Events(a), last) ensures EndDecided(x, v, Events(a), last) {
        if last.kind == Some(Renewal) {
          if last.expiration.None? { var b, c := EndFollowsTheClock(db, p, s, a, last); }
        } else {
          forall e | Rival(x, Events(a), last, e) ensures KeepsEnd(v, e) {
            if !KeepsEnd(v, e) { var b, c := PeriodEndDependsOnOrder(db, p, s, a, last, e); }
          }
        }
      }
    }
  }
}
