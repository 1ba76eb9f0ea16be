/** What every reachable state of the commerce tables satisfies. */
module CommerceInvariants {
  import opened Common
  import opened CommerceModel

  // ---------------------------------------------------------------------------------------
  // Ownership: one transaction, one purchase or subscription, its entitlements
  // ---------------------------------------------------------------------------------------

  ghost predicate Below(db: Db)
  {
    && (forall t :: t in db.transactions ==> t < db.next)
    && (forall p :: p in db.purchases ==> p < db.next)
    && (forall s :: s in db.subscriptions ==> s < db.next)
    && (forall e :: e in db.entitlements ==> e < db.next)
  }

  predicate SameExternal(t: Transaction, u: Transaction)
  {
    t.provider == u.provider && t.externalId == u.externalId
  }

  /** No two rows for one external transaction. */
  ghost predicate OneRowEach(db: Db)
  {
    forall t, u :: t in db.transactions && u in db.transactions ==>
      (SameExternal(db.transactions[t], db.transactions[u]) ==> t == u)
  }

  function SubscriptionsBy(db: Db, t: Id): set<Id>
    requires t in db.transactions
  {
    SubscriptionsOf(db, db.transactions[t].learner, db.transactions[t].provider, db.transactions[t].externalId)
  }

  ghost predicate Backs(db: Db, t: Id, s: Id)
  {
    && t in db.transactions && s in db.subscriptions && db.transactions[t].success
    && s in SubscriptionsBy(db, t)
  }

  /** A successful transaction owns exactly one purchase or subscription, a failed one neither, and
      every purchase and subscription has its transaction. */
  ghost predicate Owned(db: Db)
  {
    && (forall t :: t in db.transactions ==>
          |PurchasesOf(db, t)| + |SubscriptionsBy(db, t)| == if db.transactions[t].success then 1 else 0)
    && (forall p :: p in db.purchases ==>
          db.purchases[p].transaction in db.transactions &&
          db.transactions[db.purchases[p].transaction].learner == db.purchases[p].learner)
    && (forall s :: s in db.subscriptions ==> db.subscriptions[s].latest == db.subscriptions[s].original)
    && (forall s :: s in db.subscriptions ==> exists t :: Backs(db, t, s))
  }

  /** The courses a purchase pays for; a course product may name none, which grants no single course. */
  function Offered(c: Catalog, p: Purchase): set<Option<string>>
  {
    if p.product !in c.products then {}
    else if p.kind == CoursePurchase then {c.products[p.product].course}
    else set i | 0 <= i < |c.products[p.product].courses| :: Some(c.products[p.product].courses[i])
  }

  function Resources(db: Db, p: Id): set<Option<string>>
  {
    set e | e in BoughtBy(db, p) :: db.entitlements[e].resource
  }

  ghost predicate WellLinked(db: Db, e: Entitlement)
  {
    match (e.purchase, e.subscription)
    case (None, None) => e.source == AdminGrant
    case (Some(p), None) =>
      p in db.purchases && db.purchases[p].learner == e.learner && e.source in {Purchased, Bundled} &&
          e.resourceType == Some(CourseType)
    case (None, Some(s)) =>
      s in db.subscriptions && db.subscriptions[s].learner == e.learner && e.source in {Subscribed, Trial}
      && e.resourceType.None? && e.resource.None?
    case (Some(_), Some(_)) => false
  }

  ghost predicate AllWellLinked(db: Db)
  {
    forall e :: e in db.entitlements ==> WellLinked(db, db.entitlements[e])
  }

  /** One entitlement per subscription and per distinct course of a purchase. */
  ghost predicate OneEach(c: Catalog, db: Db)
  {
    && (forall s :: s in db.subscriptions ==> |LinkedTo(db, s)| == 1)
    && (forall p :: p in db.purchases ==>
          |BoughtBy(db, p)| == |Offered(c, db.purchases[p])| && Resources(db, p) == Offered(c, db.purchases[p]))
  }

  function RedemptionsOf(db: Db, k: string): set<(string, string)>
  {
    set r | r in db.redemptions && r.0 == k
  }

  /** A coupon counts exactly its redemptions and never passes its cap. */
  ghost predicate Counted(db: Db)
  {
    && (forall r :: r in db.redemptions ==> r.0 in db.coupons)
    && (forall k :: k in db.coupons ==>
          && db.coupons[k].count == |RedemptionsOf(db, k)|
          && (db.coupons[k].cap.Some? ==> db.coupons[k].count <= db.coupons[k].cap.value))
  }

  // ---------------------------------------------------------------------------------------
  // Coupling of the statuses
  // ---------------------------------------------------------------------------------------

  /** Billing retry leaves the entitlement as it was. */
  predicate InStep(s: Subscription, e: Entitlement)
  {
    && (s.status in {Active, Trialing} ==> e.status == EntActive)
    && (s.status == InGrace ==> e.status == EntGrace)
    && (s.status == Expired ==> e.status == EntExpired)
    && (s.status == Revoked ==> e.status == EntRevoked)
    && s.status != Cancelled && s.status != Paused
    && (e.status == EntActive ==> e.expiresAt == Some(s.periodEnd))
  }

  /** The subscription of an entitlement, when it has one. */
  ghost predicate OfSubscription(db: Db, e: Id, s: Id)
  {
    e in db.entitlements && s in db.subscriptions && db.entitlements[e].subscription == Some(s)
  }

  ghost predicate OfPurchase(db: Db, e: Id, p: Id)
  {
    e in db.entitlements && p in db.purchases && db.entitlements[e].purchase == Some(p)
  }

  ghost predicate Coupled(db: Db)
  {
    forall e, s :: OfSubscription(db, e, s) ==> InStep(db.subscriptions[s], db.entitlements[e])
  }

  predicate PaidOrRefunded(p: Purchase, e: Entitlement)
  {
    && (p.status == Completed ==> e.status == EntActive && e.expiresAt.None?)
    && (p.status == Refunded ==> e.status == EntRevoked)
  }

  ghost predicate RefundsRevoke(db: Db)
  {
    forall e, p :: OfPurchase(db, e, p) ==> PaidOrRefunded(db.purchases[p], db.entitlements[e])
  }

  ghost predicate Structure(c: Catalog, db: Db)
  {
    Below(db) && OneRowEach(db) && Owned(db) && AllWellLinked(db) && OneEach(c, db) && Counted(db)
  }

  // ---------------------------------------------------------------------------------------
  // Requests that only change statuses and dates
  // ---------------------------------------------------------------------------------------

  predicate SameSub(a: Subscription, b: Subscription)
  {
    a.learner == b.learner && a.provider == b.provider && a.original == b.original && a.latest == b.latest
  }

  predicate SameEnt(a: Entitlement, b: Entitlement)
  {
    a.learner == b.learner && a.source == b.source && a.resourceType == b.resourceType && a.resource == b.resource
    && a.purchase == b.purchase && a.subscription == b.subscription
  }

  predicate SamePurchase(a: Purchase, b: Purchase)
  {
    a.(status := b.status) == b
  }

  /** `a` and `b` hold the same rows, linked the same way. */
  ghost predicate SameShape(a: Db, b: Db)
  {
    && a.transactions == b.transactions && a.next == b.next && a.coupons == b.coupons && a.redemptions == b.redemptions
    && a.purchases.Keys == b.purchases.Keys && a.subscriptions.Keys == b.subscriptions.Keys &&
       a.entitlements.Keys == b.entitlements.Keys
    && (forall p :: p in a.purchases ==> SamePurchase(a.purchases[p], b.purchases[p]))
    && (forall s :: s in a.subscriptions ==> SameSub(a.subscriptions[s], b.subscriptions[s]))
    && (forall e :: e in a.entitlements ==> SameEnt(a.entitlements[e], b.entitlements[e]))
  }

  lemma ShapeFixesLinks(a: Db, b: Db, i: Id)
    requires SameShape(a, b)
    ensures LinkedTo(a, i) == LinkedTo(b, i) && BoughtBy(a, i) == BoughtBy(b, i) && Resources(a, i) == Resources(b, i)
    ensures PurchasesOf(a, i) == PurchasesOf(b, i)
  {
    assert LinkedTo(a, i) == LinkedTo(b, i);
    assert BoughtBy(a, i) == BoughtBy(b, i);
    assert PurchasesOf(a, i) == PurchasesOf(b, i);
  }

  lemma ShapeFixesBacking(a: Db, b: Db, t: Id)
    requires SameShape(a, b) && t in a.transactions
    ensures SubscriptionsBy(a, t) == SubscriptionsBy(b, t)
  {
  }

  lemma ShapeKeepsOwned(a: Db, b: Db)
    requires Owned(a) && SameShape(a, b)
    ensures Owned(b)
  {
    forall t | t in b.transactions
      ensures |PurchasesOf(b, t)| + |SubscriptionsBy(b, t)| == if b.transactions[t].success then 1 else 0
    {
      ShapeFixesLinks(a, b, t);
      ShapeFixesBacking(a, b, t);
    }
    forall s | s in b.subscriptions ensures exists t :: Backs(b, t, s) {
      var t :| Backs(a, t, s);
      ShapeFixesBacking(a, b, t);
      assert Backs(b, t, s);
    }
  }

  lemma ShapeKeepsOneEach(c: Catalog, a: Db, b: Db)
    requires OneEach(c, a) && SameShape(a, b)
    ensures OneEach(c, b)
  {
    forall s | s in b.subscriptions ensures |LinkedTo(b, s)| == 1 {
      ShapeFixesLinks(a, b, s);
    }
    forall p | p in b.purchases
      ensures |BoughtBy(b, p)| == |Offered(c, b.purchases[p])| && Resources(b, p) == Offered(c, b.purchases[p])
    {
      ShapeFixesLinks(a, b, p);
      assert SamePurchase(a.purchases[p], b.purchases[p]);
    }
  }

  lemma ShapeKeepsWellLinked(a: Db, b: Db)
    requires AllWellLinked(a) && SameShape(a, b)
    ensures AllWellLinked(b)
  {
    forall e | e in b.entitlements ensures WellLinked(b, b.entitlements[e]) {
      assert WellLinked(a, a.entitlements[e]) && SameEnt(a.entitlements[e], b.entitlements[e]);
    }
  }

  lemma ShapeKeepsCounted(a: Db, b: Db)
    requires Counted(a) && SameShape(a, b)
    ensures Counted(b)
  {
    forall k ensures RedemptionsOf(a, k) == RedemptionsOf(b, k) {}
  }

  lemma ShapeKeepsStructure(c: Catalog, a: Db, b: Db)
    requires Structure(c, a) && SameShape(a, b)
    ensures Structure(c, b)
  {
    ShapeKeepsOwned(a, b);
    ShapeKeepsOneEach(c, a, b);
    ShapeKeepsWellLinked(a, b);
    ShapeKeepsCounted(a, b);
  }

  lemma ChangesKeepShape(ents: map<Id, Entitlement>, ids: set<Id>, c: Change)
    ensures ChangeAll(ents, ids, c).Keys == ents.Keys
    ensures forall e :: e in ents ==> SameEnt(ents[e], ChangeAll(ents, ids, c)[e])
  {
  }

  lemma ApplyShape(db: Db, s: Id, kind: EventKind, e: Event, now: Time)
    requires s in db.subscriptions
    ensures SameShape(db, ApplyToSubscription(db, s, kind, e, now))
  {
    var sub := SubAfter(db.subscriptions[s], kind, e, now);
    assert SameSub(db.subscriptions[s], sub);
    ChangesKeepShape(db.entitlements, LinkedTo(db, s), ChangeFor(kind, sub.periodEnd, now));
  }

  lemma ApplyCoupled(db: Db, s: Id, kind: EventKind, e: Event, now: Time)
    requires Coupled(db) && s in db.subscriptions
    ensures Coupled(ApplyToSubscription(db, s, kind, e, now))
  {
    var after := ApplyToSubscription(db, s, kind, e, now);
    forall i, r | OfSubscription(after, i, r)
      ensures InStep(after.subscriptions[r], after.entitlements[i])
    {
      assert OfSubscription(db, i, r);
      assert InStep(db.subscriptions[r], db.entitlements[i]);
    }
  }

  lemma ApplyRefunds(db: Db, s: Id, kind: EventKind, e: Event, now: Time)
    requires RefundsRevoke(db) && AllWellLinked(db) && s in db.subscriptions
    ensures RefundsRevoke(ApplyToSubscription(db, s, kind, e, now))
  {
    var after := ApplyToSubscription(db, s, kind, e, now);
    forall i, p | OfPurchase(after, i, p)
      ensures PaidOrRefunded(after.purchases[p], after.entitlements[i])
    {
      assert OfPurchase(db, i, p);
      assert WellLinked(db, db.entitlements[i]);
    }
  }

  lemma RefundShape(db: Db, p: Id, now: Time)
    requires p in db.purchases
    ensures SameShape(db, ApplyRefund(db, p, now))
  {
  }

  lemma RefundCoupled(db: Db, p: Id, now: Time)
    requires Coupled(db) && AllWellLinked(db) && p in db.purchases
    ensures Coupled(ApplyRefund(db, p, now))
  {
    var after := ApplyRefund(db, p, now);
    forall i, r | OfSubscription(after, i, r)
      ensures InStep(after.subscriptions[r], after.entitlements[i])
    {
      assert OfSubscription(db, i, r);
      assert WellLinked(db, db.entitlements[i]);
    }
  }

  lemma RefundRefunds(db: Db, p: Id, now: Time)
    requires RefundsRevoke(db) && p in db.purchases
    ensures RefundsRevoke(ApplyRefund(db, p, now))
  {
    var after := ApplyRefund(db, p, now);
    forall i, r | OfPurchase(after, i, r)
      ensures PaidOrRefunded(after.purchases[r], after.entitlements[i])
    {
      assert OfPurchase(db, i, r);
    }
  }

  /** What a webhook does to the tables besides recording the event. */
  datatype Effect = Nothing | OnSubscription(id: Id, kind: EventKind) | OnPurchase(id: Id)

  function Effective(db: Db, f: Effect, e: Event, now: Time): Db
    requires f.OnSubscription? ==> f.id in db.subscriptions
    requires f.OnPurchase? ==> f.id in db.purchases
  {
    match f
    case Nothing => db
    case OnSubscription(s, kind) => ApplyToSubscription(db, s, kind, e, now)
    case OnPurchase(p) => ApplyRefund(db, p, now)
  }

  lemma WebhookEffect(db: Db, e: Event, now: Time, hint: Id)
    returns (f: Effect, events: map<(Provider, string), EventStatus>)
    ensures f.OnSubscription? ==>
            f.id in db.subscriptions && e.provider.Some? && f.id in Candidates(db, e.provider.value, e)
    ensures f.OnPurchase? ==>
            f.id in db.purchases && e.provider.Some? && f.id in PurchaseMatches(db, e.provider.value, e)
    ensures Webhook(db, e, now, hint).0 == Effective(db, f, e, now).(events := events)
  {
    f, events := Nothing, Webhook(db, e, now, hint).0.events;
    if e.provider.Some? && e.kind.Some? && (e.provider.value, e.id) !in db.events {
      var p, kind := e.provider.value, e.kind.value;
      var subs := Candidates(db, p, e);
      if |subs| <= 1 {
        if First(subs).Some? {
          var s := First(subs).value;
          if !Stale(db.subscriptions[s], e) { f := OnSubscription(s, kind); }
        } else if Pick(PurchaseMatches(db, p, e), hint).Some? && kind == Refund {
          f := OnPurchase(Pick(PurchaseMatches(db, p, e), hint).value);
        }
      }
    }
  }

  lemma WebhookShape(db: Db, e: Event, now: Time, hint: Id)
    ensures SameShape(db, Webhook(db, e, now, hint).0)
  {
    var f, events := WebhookEffect(db, e, now, hint);
    if f.OnSubscription? { ApplyShape(db, f.id, f.kind, e, now); }
    if f.OnPurchase? { RefundShape(db, f.id, now); }
  }

  lemma WebhookCouples(db: Db, e: Event, now: Time, hint: Id)
    requires Coupled(db) && RefundsRevoke(db) && AllWellLinked(db)
    ensures Coupled(Webhook(db, e, now, hint).0) && RefundsRevoke(Webhook(db, e, now, hint).0)
  {
    var f, events := WebhookEffect(db, e, now, hint);
    match f {
      case Nothing =>
      case OnSubscription(s, kind) => ApplyCoupled(db, s, kind, e, now); ApplyRefunds(db, s, kind, e, now);
      case OnPurchase(p) => RefundCoupled(db, p, now); RefundRefunds(db, p, now);
    }
    EventsApart(Effective(db, f, e, now), events);
  }

  /** The event log is not a commerce row. */
  lemma EventsApart(db: Db, events: map<(Provider, string), EventStatus>)
    ensures Coupled(db.(events := events)) == Coupled(db) && RefundsRevoke(db.(events := events)) == RefundsRevoke(db)
  {
  }

  lemma ReconcileShape(db: Db, now: Time)
    ensures SameShape(db, Reconcile(db, now))
  {
  }

  lemma ReconcileCouples(db: Db, now: Time)
    requires Coupled(db) && RefundsRevoke(db) && AllWellLinked(db)
    ensures Coupled(Reconcile(db, now)) && RefundsRevoke(Reconcile(db, now))
  {
    var after := Reconcile(db, now);
    forall i, s | OfSubscription(after, i, s)
      ensures InStep(after.subscriptions[s], after.entitlements[i])
    {
      assert OfSubscription(db, i, s);
    }
    forall i, p | OfPurchase(after, i, p)
      ensures PaidOrRefunded(after.purchases[p], after.entitlements[i])
    {
      assert OfPurchase(db, i, p);
      assert WellLinked(db, db.entitlements[i]);
    }
  }

  function CancelledAtEnd(db: Db, s: Id): Db
    requires s in db.subscriptions
  {
    db.(subscriptions := db.subscriptions[s := db.subscriptions[s].(cancelAtEnd := true)])
  }

  lemma CancelShape(db: Db, s: Id)
    requires s in db.subscriptions
    ensures SameShape(db, CancelledAtEnd(db, s))
  {
  }

  lemma CancelCouples(db: Db, s: Id)
    requires Coupled(db) && RefundsRevoke(db) && s in db.subscriptions
    ensures Coupled(CancelledAtEnd(db, s)) && RefundsRevoke(CancelledAtEnd(db, s))
  {
    var after := CancelledAtEnd(db, s);
    forall i, r | OfSubscription(after, i, r)
      ensures InStep(after.subscriptions[r], after.entitlements[i])
    {
      assert OfSubscription(db, i, r);
    }
  }

  lemma OnlyOne(s: set<Id>, a: Id, b: Id)
    requires |s| == 1 && a in s && b in s
    ensures a == b
  {
    assert |s - {a}| == 0;
  }

  lemma MovePlanShape(db: Db, s: Id, plan: string, end: Time)
    requires s in db.subscriptions
    ensures SameShape(db, MovePlan(db, s, plan, end))
  {
  }

  lemma MovePlanCoupled(c: Catalog, db: Db, s: Id, plan: string, end: Time)
    requires Coupled(db) && OneEach(c, db) && s in db.subscriptions
    ensures Coupled(MovePlan(db, s, plan, end))
  {
    var after := MovePlan(db, s, plan, end);
    forall i, r | OfSubscription(after, i, r)
      ensures InStep(after.subscriptions[r], after.entitlements[i])
    {
      assert OfSubscription(db, i, r);
      if r == s && db.entitlements[i].status == EntActive {
        assert i in ActiveLinks(db, s);
        OnlyOne(LinkedTo(db, s), i, First(ActiveLinks(db, s)).value);
      }
    }
  }

  lemma MovePlanRefunds(db: Db, s: Id, plan: string, end: Time)
    requires RefundsRevoke(db) && AllWellLinked(db) && s in db.subscriptions
    ensures RefundsRevoke(MovePlan(db, s, plan, end))
  {
    var after := MovePlan(db, s, plan, end);
    forall i, p | OfPurchase(after, i, p)
      ensures PaidOrRefunded(after.purchases[p], after.entitlements[i])
    {
      assert OfPurchase(db, i, p);
      assert WellLinked(db, db.entitlements[i]);
    }
  }

  /** Editing a manual grant in place. */
  function Edited(db: Db, i: Id, ent: Entitlement): Db
  {
    db.(entitlements := db.entitlements[i := ent])
  }

  lemma EditShape(db: Db, i: Id, ent: Entitlement)
    requires i in db.entitlements && SameEnt(db.entitlements[i], ent)
    ensures SameShape(db, Edited(db, i, ent))
  {
  }

  lemma EditCouples(db: Db, i: Id, ent: Entitlement)
    requires Coupled(db) && RefundsRevoke(db) && AllWellLinked(db)
    requires i in db.entitlements && db.entitlements[i].source == AdminGrant && SameEnt(db.entitlements[i], ent)
    ensures Coupled(Edited(db, i, ent)) && RefundsRevoke(Edited(db, i, ent))
  {
    var after := Edited(db, i, ent);
    assert WellLinked(db, db.entitlements[i]);
    forall j, s | OfSubscription(after, j, s)
      ensures InStep(after.subscriptions[s], after.entitlements[j])
    {
      assert OfSubscription(db, j, s);
    }
    forall j, p | OfPurchase(after, j, p)
      ensures PaidOrRefunded(after.purchases[p], after.entitlements[j])
    {
      assert OfPurchase(db, j, p);
    }
  }

  // ---------------------------------------------------------------------------------------
  // Requests that add rows
  // ---------------------------------------------------------------------------------------

  /** `b` is `a` plus rows with fresh ids. */
  ghost predicate Grows(a: Db, b: Db)
  {
    && a.next <= b.next
    && (forall t :: t in a.transactions ==> t in b.transactions && b.transactions[t] == a.transactions[t])
    && (forall p :: p in a.purchases ==> p in b.purchases && b.purchases[p] == a.purchases[p])
    && (forall s :: s in a.subscriptions ==> s in b.subscriptions && b.subscriptions[s] == a.subscriptions[s])
    && (forall e :: e in a.entitlements ==> e in b.entitlements && b.entitlements[e] == a.entitlements[e])
    && (forall t :: t in b.transactions && t !in a.transactions ==> a.next <= t < b.next)
    && (forall p :: p in b.purchases && p !in a.purchases ==>
        a.next <= p < b.next && a.next <= b.purchases[p].transaction)
    && (forall s :: s in b.subscriptions && s !in a.subscriptions ==> a.next <= s < b.next)
    && (forall e :: e in b.entitlements && e !in a.entitlements ==>
          && a.next <= e < b.next
          && (b.entitlements[e].purchase.Some? ==> a.next <= b.entitlements[e].purchase.value)
          && (b.entitlements[e].subscription.Some? ==> a.next <= b.entitlements[e].subscription.value))
  }

  lemma GrowthKeepsLinks(a: Db, b: Db, i: Id)
    requires Below(a) && Grows(a, b) && i < a.next
    ensures LinkedTo(a, i) == LinkedTo(b, i) && BoughtBy(a, i) == BoughtBy(b, i) && Resources(a, i) == Resources(b, i)
    ensures PurchasesOf(a, i) == PurchasesOf(b, i)
  {
    assert LinkedTo(a, i) == LinkedTo(b, i);
    assert BoughtBy(a, i) == BoughtBy(b, i);
    assert PurchasesOf(a, i) == PurchasesOf(b, i);
  }

  /** New subscriptions belong to other transactions. */
  ghost predicate NewSubsElsewhere(a: Db, b: Db, p: Provider, ext: string)
  {
    && (forall t :: t in a.transactions ==> a.transactions[t].provider != p || a.transactions[t].externalId != ext)
    && (forall s :: s in b.subscriptions && s !in a.subscriptions ==>
          b.subscriptions[s].provider == p && b.subscriptions[s].original == ext && b.subscriptions[s].latest == ext)
  }

  lemma GrowthKeepsBacking(a: Db, b: Db, p: Provider, ext: string, t: Id)
    requires Grows(a, b) && NewSubsElsewhere(a, b, p, ext) && t in a.transactions
    ensures SubscriptionsBy(a, t) == SubscriptionsBy(b, t)
  {
  }

  /** Old rows keep what Owned says of them. */
  lemma GrowthKeepsOwned(a: Db, b: Db, p: Provider, ext: string)
    requires Below(a) && Owned(a) && Grows(a, b) && NewSubsElsewhere(a, b, p, ext)
    ensures forall t :: t in a.transactions ==>
              |PurchasesOf(b, t)| + |SubscriptionsBy(b, t)| == if b.transactions[t].success then 1 else 0
    ensures forall s :: s in a.subscriptions ==> exists t :: Backs(b, t, s)
  {
    forall t | t in a.transactions
      ensures |PurchasesOf(b, t)| + |SubscriptionsBy(b, t)| == if b.transactions[t].success then 1 else 0
    {
      GrowthKeepsLinks(a, b, t);
      GrowthKeepsBacking(a, b, p, ext, t);
    }
    forall s | s in a.subscriptions ensures exists t :: Backs(b, t, s) {
      var t :| Backs(a, t, s);
      GrowthKeepsBacking(a, b, p, ext, t);
      assert Backs(b, t, s);
    }
  }

  lemma GrowthKeepsWellLinked(a: Db, b: Db)
    requires AllWellLinked(a) && Grows(a, b)
    ensures forall e :: e in a.entitlements ==> WellLinked(b, b.entitlements[e])
  {
    forall e | e in a.entitlements ensures WellLinked(b, b.entitlements[e]) {
      assert WellLinked(a, a.entitlements[e]);
    }
  }

  lemma GrowthKeepsOneEach(c: Catalog, a: Db, b: Db)
    requires Below(a) && OneEach(c, a) && Grows(a, b)
    ensures forall s :: s in a.subscriptions ==> |LinkedTo(b, s)| == 1
    ensures forall p :: p in a.purchases ==>
              |BoughtBy(b, p)| == |Offered(c, b.purchases[p])| && Resources(b, p) == Offered(c, b.purchases[p])
  {
    forall s | s in a.subscriptions ensures |LinkedTo(b, s)| == 1 {
      GrowthKeepsLinks(a, b, s);
    }
    forall p | p in a.purchases
      ensures |BoughtBy(b, p)| == |Offered(c, b.purchases[p])| && Resources(b, p) == Offered(c, b.purchases[p])
    {
      GrowthKeepsLinks(a, b, p);
    }
  }

  lemma GrowthKeepsCouplings(a: Db, b: Db)
    requires Grows(a, b) && AllWellLinked(a) && Coupled(a) && RefundsRevoke(a)
    ensures forall e, s :: e in a.entitlements && OfSubscription(b, e, s) ==>
            InStep(b.subscriptions[s], b.entitlements[e])
    ensures forall e, p :: e in a.entitlements && OfPurchase(b, e, p) ==>
            PaidOrRefunded(b.purchases[p], b.entitlements[e])
  {
    forall e, s | e in a.entitlements && OfSubscription(b, e, s) ensures InStep(b.subscriptions[s], b.entitlements[e]) {
      assert WellLinked(a, a.entitlements[e]);
      assert OfSubscription(a, e, s);
    }
    forall e, p | e in a.entitlements && OfPurchase(b, e, p) ensures PaidOrRefunded(b.purchases[p], b.entitlements[e]) {
      assert WellLinked(a, a.entitlements[e]);
      assert OfPurchase(a, e, p);
    }
  }

  lemma BackerIsKnown(db: Db, learner: string, p: Provider, ext: string, s: Id)
    requires Owned(db) && s in SubscriptionsOf(db, learner, p, ext)
    ensures TransactionsOf(db, p, ext) != {}
  {
    var t :| Backs(db, t, s);
    assert t in TransactionsOf(db, p, ext);
  }

  /** No subscription of this provider starts from an external transaction without a row. */
  lemma UnknownBacksNothing(db: Db, learner: string, p: Provider, ext: string)
    requires Owned(db) && TransactionsOf(db, p, ext) == {}
    ensures SubscriptionsOf(db, learner, p, ext) == {}
  {
    if SubscriptionsOf(db, learner, p, ext) != {} {
      var s :| s in SubscriptionsOf(db, learner, p, ext);
      BackerIsKnown(db, learner, p, ext, s);
    }
  }

  lemma UnknownElsewhere(db: Db, p: Provider, ext: string)
    requires TransactionsOf(db, p, ext) == {}
    ensures forall t :: t in db.transactions ==>
            db.transactions[t].provider != p || db.transactions[t].externalId != ext
  {
    forall t | t in db.transactions ensures db.transactions[t].provider != p || db.transactions[t].externalId != ext {
      assert t !in TransactionsOf(db, p, ext);
    }
  }

  lemma CountedApart(a: Db, b: Db)
    requires Counted(a) && a.coupons == b.coupons && a.redemptions == b.redemptions
    ensures Counted(b)
  {
    forall k ensures RedemptionsOf(a, k) == RedemptionsOf(b, k) {}
  }

  /** The structure holds of the rows `b` adds to `a`. */
  ghost predicate NewOwned(a: Db, b: Db)
  {
    && (forall t :: t in b.transactions && t !in a.transactions ==>
          |PurchasesOf(b, t)| + |SubscriptionsBy(b, t)| == if b.transactions[t].success then 1 else 0)
    && (forall p :: p in b.purchases && p !in a.purchases ==>
          && b.purchases[p].transaction in b.transactions
          && b.transactions[b.purchases[p].transaction].learner == b.purchases[p].learner)
    && (forall s :: s in b.subscriptions && s !in a.subscriptions ==>
        b.subscriptions[s].latest == b.subscriptions[s].original)
    && (forall s :: s in b.subscriptions && s !in a.subscriptions ==> exists t :: Backs(b, t, s))
  }

  ghost predicate NewLinks(c: Catalog, a: Db, b: Db)
  {
    && (forall p :: p in b.purchases && p !in a.purchases ==>
          |BoughtBy(b, p)| == |Offered(c, b.purchases[p])| && Resources(b, p) == Offered(c, b.purchases[p]))
    && (forall s :: s in b.subscriptions && s !in a.subscriptions ==> |LinkedTo(b, s)| == 1)
    && (forall e :: e in b.entitlements && e !in a.entitlements ==> WellLinked(b, b.entitlements[e]))
  }

  lemma GrownOwned(a: Db, b: Db, p: Provider, ext: string)
    requires Below(a) && Owned(a) && Grows(a, b) && NewSubsElsewhere(a, b, p, ext) && NewOwned(a, b)
    ensures Owned(b)
  {
    GrowthKeepsOwned(a, b, p, ext);
  }

  lemma GrownOneEach(c: Catalog, a: Db, b: Db)
    requires Below(a) && OneEach(c, a) && Grows(a, b) && NewLinks(c, a, b)
    ensures OneEach(c, b)
  {
    GrowthKeepsOneEach(c, a, b);
  }

  lemma GrownWellLinked(c: Catalog, a: Db, b: Db)
    requires AllWellLinked(a) && Grows(a, b) && NewLinks(c, a, b)
    ensures AllWellLinked(b)
  {
    GrowthKeepsWellLinked(a, b);
  }

  lemma GrownBelow(a: Db, b: Db)
    requires Below(a) && Grows(a, b)
    ensures Below(b)
  {
  }

  /** Adding one transaction for an external id without a row keeps rows unique. */
  lemma OneMoreRow(a: Db, b: Db, t: Transaction)
    requires OneRowEach(a) && TransactionsOf(a, t.provider, t.externalId) == {}
    requires b.transactions == a.transactions[a.next := t]
    ensures OneRowEach(b)
  {
    UnknownElsewhere(a, t.provider, t.externalId);
  }

  lemma GrownStructure(c: Catalog, a: Db, b: Db, t: Transaction)
    requires Structure(c, a) && Grows(a, b) && NewSubsElsewhere(a, b, t.provider, t.externalId)
    requires NewOwned(a, b) && NewLinks(c, a, b)
    requires TransactionsOf(a, t.provider, t.externalId) == {} && b.transactions == a.transactions[a.next := t]
    requires a.coupons == b.coupons && a.redemptions == b.redemptions
    ensures Structure(c, b)
  {
    GrownOwned(a, b, t.provider, t.externalId);
    GrownOneEach(c, a, b);
    GrownWellLinked(c, a, b);
    GrownBelow(a, b);
    OneMoreRow(a, b, t);
    CountedApart(a, b);
  }

  // A rejected verification leaves one failed transaction row.

  function Failed(db: Db, q: VerifyRequest, p: Provider): Db
  {
    db.(transactions := db.transactions[db.next := Transaction(q.caller, p, q.externalId, false)], next := db.next + 1)
  }

  lemma FailedRows(c: Catalog, db: Db, q: VerifyRequest, p: Provider)
    requires Below(db) && Owned(db) && TransactionsOf(db, p, q.externalId) == {}
    ensures NewOwned(db, Failed(db, q, p)) && NewLinks(c, db, Failed(db, q, p))
  {
    var after := Failed(db, q, p);
    UnknownBacksNothing(db, q.caller, p, q.externalId);
    assert PurchasesOf(after, db.next) == {} && SubscriptionsBy(after, db.next) == {};
  }

  lemma FailedKeeps(c: Catalog, db: Db, q: VerifyRequest, p: Provider)
    requires Structure(c, db) && TransactionsOf(db, p, q.externalId) == {}
    ensures Structure(c, Failed(db, q, p))
  {
    UnknownElsewhere(db, p, q.externalId);
    FailedRows(c, db, q, p);
    GrownStructure(c, db, Failed(db, q, p), Transaction(q.caller, p, q.externalId, false));
  }

  lemma FailedCouples(db: Db, q: VerifyRequest, p: Provider)
    requires Coupled(db) && RefundsRevoke(db)
    ensures Coupled(Failed(db, q, p)) && RefundsRevoke(Failed(db, q, p))
  {
    var after := Failed(db, q, p);
    forall e, s | OfSubscription(after, e, s) ensures InStep(after.subscriptions[s], after.entitlements[e]) {
      assert OfSubscription(db, e, s);
    }
    forall e, r | OfPurchase(after, e, r) ensures PaidOrRefunded(after.purchases[r], after.entitlements[e]) {
      assert OfPurchase(db, e, r);
    }
  }

  // Redeeming a coupon.

  lemma OneMoreRedemption(db: Db, after: Db, k: string, learner: string, j: string)
    requires after.redemptions == db.redemptions + {(k, learner)} && (k, learner) !in db.redemptions
    ensures |RedemptionsOf(after, j)| == |RedemptionsOf(db, j)| + if j == k then 1 else 0
  {
    if j == k {
      assert RedemptionsOf(after, k) == RedemptionsOf(db, k) + {(k, learner)};
    } else {
      assert RedemptionsOf(after, j) == RedemptionsOf(db, j);
    }
  }

  lemma RedeemCounts(db: Db, coupon: Option<string>, learner: string, product: string, now: Time)
    requires Counted(db) && Redeem(db, coupon, learner, product, now).Ok?
    ensures var after := Redeem(db, coupon, learner, product, now).value;
            Counted(after) && after == db.(coupons := after.coupons, redemptions := after.redemptions)
  {
    var after := Redeem(db, coupon, learner, product, now).value;
    if after != db {
      var k := coupon.value;
      forall j | j in after.coupons ensures after.coupons[j].count == |RedemptionsOf(after, j)| {
        OneMoreRedemption(db, after, k, learner, j);
      }
    }
  }

  /** Ownership only looks at transactions, purchases and subscriptions. */
  lemma OwnedApart(a: Db, b: Db)
    requires Owned(a) && a.transactions == b.transactions && a.purchases == b.purchases &&
             a.subscriptions == b.subscriptions
    ensures Owned(b)
  {
    forall t | t in b.transactions
      ensures |PurchasesOf(b, t)| + |SubscriptionsBy(b, t)| == if b.transactions[t].success then 1 else 0
    {
      assert PurchasesOf(a, t) == PurchasesOf(b, t) && SubscriptionsBy(a, t) == SubscriptionsBy(b, t);
    }
    forall s | s in b.subscriptions ensures exists t :: Backs(b, t, s) {
      var t :| Backs(a, t, s);
      assert SubscriptionsBy(a, t) == SubscriptionsBy(b, t);
      assert Backs(b, t, s);
    }
  }

  /** Links only look at entitlements and purchases. */
  lemma LinksApart(c: Catalog, a: Db, b: Db)
    requires OneEach(c, a) && a.entitlements == b.entitlements && a.purchases == b.purchases &&
             a.subscriptions == b.subscriptions
    ensures OneEach(c, b)
  {
    forall i ensures LinkedTo(a, i) == LinkedTo(b, i) && BoughtBy(a, i) == BoughtBy(b, i) {}
    forall p ensures Resources(a, p) == Resources(b, p) {
      assert BoughtBy(a, p) == BoughtBy(b, p);
    }
  }

  /** Coupons and redemptions are apart from the rest of the structure. */
  lemma CouponsApart(c: Catalog, a: Db, b: Db)
    requires Structure(c, a) && b == a.(coupons := b.coupons, redemptions := b.redemptions) && Counted(b)
    ensures Structure(c, b)
  {
    OwnedApart(a, b);
    LinksApart(c, a, b);
    forall e | e in b.entitlements ensures WellLinked(b, b.entitlements[e]) {
      assert WellLinked(a, a.entitlements[e]);
    }
  }

  /** Links lead to existing rows. */
  lemma OldLinks(db: Db)
    requires Below(db) && AllWellLinked(db)
    ensures forall e :: e in db.entitlements && db.entitlements[e].purchase.Some? ==>
            db.entitlements[e].purchase.value < db.next
    ensures forall e :: e in db.entitlements && db.entitlements[e].subscription.Some? ==>
            db.entitlements[e].subscription.value < db.next
  {
    forall e | e in db.entitlements
      ensures db.entitlements[e].purchase.Some? ==> db.entitlements[e].purchase.value < db.next
      ensures db.entitlements[e].subscription.Some? ==> db.entitlements[e].subscription.value < db.next
    {
      assert WellLinked(db, db.entitlements[e]);
    }
  }

  // A verified plan.

  function WithRow(db: Db, q: VerifyRequest, p: Provider): Db
  {
    db.(transactions := db.transactions[db.next := Transaction(q.caller, p, q.externalId, true)])
  }

  lemma SubscribeGrows(db: Db, q: VerifyRequest, p: Provider, id: string, plan: Plan, v: Verification, now: Time)
    requires v.Verified? && Below(db) && TransactionsOf(db, p, q.externalId) == {}
    ensures var after := Subscribe(WithRow(db, q, p), q, p, id, plan, v, now).0;
            Grows(db, after) && NewSubsElsewhere(db, after, p, q.externalId)
  {
    UnknownElsewhere(db, p, q.externalId);
  }

  lemma SubscribeOwns(db: Db, q: VerifyRequest, p: Provider, id: string, plan: Plan, v: Verification, now: Time)
    requires v.Verified? && Below(db) && Owned(db) && TransactionsOf(db, p, q.externalId) == {}
    ensures var after := Subscribe(WithRow(db, q, p), q, p, id, plan, v, now).0;
            && PurchasesOf(after, db.next) == {} && SubscriptionsBy(after, db.next) == {db.next + 1}
            && Backs(after, db.next, db.next + 1)
  {
    var after := Subscribe(WithRow(db, q, p), q, p, id, plan, v, now).0;
    UnknownBacksNothing(db, q.caller, p, q.externalId);
    NewSubscription(db, after, q.caller, p, q.externalId);
    assert PurchasesOf(after, db.next) == {};
  }

  /** The only subscription of a transaction nobody knew is the one just added. */
  lemma NewSubscription(db: Db, after: Db, learner: string, p: Provider, ext: string)
    requires SubscriptionsOf(db, learner, p, ext) == {} && db.next + 1 !in db.subscriptions &&
             db.next + 1 in after.subscriptions
    requires after.subscriptions == db.subscriptions[db.next + 1 := after.subscriptions[db.next + 1]]
    requires var s := after.subscriptions[db.next + 1]; s.learner == learner && s.provider == p && s.original == ext
    ensures SubscriptionsOf(after, learner, p, ext) == {db.next + 1}
  {
    forall r | r in SubscriptionsOf(after, learner, p, ext) ensures r == db.next + 1 {
      assert r !in SubscriptionsOf(db, learner, p, ext);
    }
  }

  lemma SubscribeLinks(db: Db, q: VerifyRequest, p: Provider, id: string, plan: Plan, v: Verification, now: Time)
    requires v.Verified? && Below(db) && AllWellLinked(db)
    ensures LinkedTo(Subscribe(WithRow(db, q, p), q, p, id, plan, v, now).0, db.next + 1) == {db.next + 2}
  {
    OldLinks(db);
  }

  /** The only new transaction, subscription and entitlement of a started plan. */
  lemma SubscribeAdds(db: Db, q: VerifyRequest, p: Provider, id: string, plan: Plan, v: Verification, now: Time)
    requires v.Verified?
    ensures var after := Subscribe(WithRow(db, q, p), q, p, id, plan, v, now).0;
            && (forall t :: t in after.transactions && t !in db.transactions ==>
                t == db.next && after.transactions[t].success)
            && after.purchases == db.purchases
            && (forall s :: s in after.subscriptions && s !in db.subscriptions ==> s == db.next + 1)
            && (forall e :: e in after.entitlements && e !in db.entitlements ==> e == db.next + 2)
            && WellLinked(after, after.entitlements[db.next + 2])
            && after.subscriptions[db.next + 1].latest == after.subscriptions[db.next + 1].original
  {
  }

  lemma SubscribeNewOwned(db: Db, q: VerifyRequest, p: Provider, id: string, plan: Plan, v: Verification, now: Time)
    requires v.Verified? && Below(db) && Owned(db) && TransactionsOf(db, p, q.externalId) == {}
    ensures NewOwned(db, Subscribe(WithRow(db, q, p), q, p, id, plan, v, now).0)
  {
    SubscribeAdds(db, q, p, id, plan, v, now);
    SubscribeOwns(db, q, p, id, plan, v, now);
  }

  lemma SubscribeNewLinks(c: Catalog, db: Db, q: VerifyRequest, p: Provider, id: string, plan: Plan, v: Verification,
                          now: Time)
    requires v.Verified? && Below(db) && AllWellLinked(db)
    ensures NewLinks(c, db, Subscribe(WithRow(db, q, p), q, p, id, plan, v, now).0)
  {
    SubscribeAdds(db, q, p, id, plan, v, now);
    SubscribeLinks(db, q, p, id, plan, v, now);
  }

  lemma SubscribeKeeps(c: Catalog, db: Db, q: VerifyRequest, p: Provider, id: string, plan: Plan, v: Verification,
                       now: Time)
    requires v.Verified? && Structure(c, db) && TransactionsOf(db, p, q.externalId) == {}
    ensures Structure(c, Subscribe(WithRow(db, q, p), q, p, id, plan, v, now).0)
  {
    var after := Subscribe(WithRow(db, q, p), q, p, id, plan, v, now).0;
    SubscribeGrows(db, q, p, id, plan, v, now);
    SubscribeNewOwned(db, q, p, id, plan, v, now);
    SubscribeNewLinks(c, db, q, p, id, plan, v, now);
    GrownStructure(c, db, after, Transaction(q.caller, p, q.externalId, true));
  }

  lemma SubscribeCouples(db: Db, q: VerifyRequest, p: Provider, id: string, plan: Plan, v: Verification, now: Time)
    requires v.Verified? && Below(db) && Coupled(db) && RefundsRevoke(db) && AllWellLinked(db)
    requires TransactionsOf(db, p, q.externalId) == {}
    ensures var after := Subscribe(WithRow(db, q, p), q, p, id, plan, v, now).0;
            Coupled(after) && RefundsRevoke(after)
  {
    var after := Subscribe(WithRow(db, q, p), q, p, id, plan, v, now).0;
    SubscribeGrows(db, q, p, id, plan, v, now);
    GrowthKeepsCouplings(db, after);
  }

  // A verified course or bundle.

  lemma {:induction false} DistinctKeeps(ids: seq<string>)
    ensures NoRepeats(Distinct(ids)) && Elements(Distinct(ids)) == Elements(ids)
  {
    if ids != [] {
      var m := |ids| - 1;
      DistinctKeeps(ids[..m]);
      assert Elements(ids) == Elements(ids[..m]) + {ids[m]};
      var front := Distinct(ids[..m]);
      if ids[m] in front {
        assert ids[m] in Elements(front);
      } else {
        assert Elements(front + [ids[m]]) == Elements(front) + {ids[m]};
      }
    }
  }

  lemma {:induction false} WrappedMembers(ids: seq<string>)
    ensures |Wrapped(ids)| == |ids|
    ensures forall i :: 0 <= i < |ids| ==> Wrapped(ids)[i] == Some(ids[i])
  {
    if ids != [] {
      WrappedMembers(ids[..|ids| - 1]);
    }
  }

  /** Wrapping keeps repeats apart and members together. */
  lemma WrappedKeeps(ids: seq<string>)
    ensures NoRepeats(ids) ==> NoRepeats(Wrapped(ids))
    ensures forall r :: r in Elements(Wrapped(ids)) <==> r.Some? && r.value in Elements(ids)
  {
    WrappedMembers(ids);
    forall r ensures r in Elements(Wrapped(ids)) <==> r.Some? && r.value in Elements(ids) {
      if r in Elements(Wrapped(ids)) {
        var i :| 0 <= i < |ids| && Wrapped(ids)[i] == r;
        assert ids[i] in Elements(ids);
      }
      if r.Some? && r.value in Elements(ids) {
        var i :| 0 <= i < |ids| && ids[i] == r.value;
        assert Wrapped(ids)[i] == r;
      }
    }
  }

  lemma OfferedMembers(c: Catalog, p: Purchase)
    requires p.product in c.products && p.kind == BundlePurchase
    ensures forall r :: r in Offered(c, p) <==> r.Some? && r.value in Elements(c.products[p.product].courses)
  {
    var all := c.products[p.product].courses;
    forall r ensures r in Offered(c, p) <==> r.Some? && r.value in Elements(all) {
      if r.Some? && r.value in Elements(all) {
        var i :| 0 <= i < |all| && all[i] == r.value;
        assert Some(all[i]) == r;
      }
    }
  }

  /** The courses granted by a product: no repeats, and as a set what the product offers. */
  lemma BundleCourses(c: Catalog, p: Purchase)
    requires p.product in c.products && p.kind == BundlePurchase && c.products[p.product].courses != []
    ensures var courses := Wrapped(Distinct(c.products[p.product].courses));
            NoRepeats(courses) && Elements(courses) == Offered(c, p)
  {
    var all := c.products[p.product].courses;
    DistinctKeeps(all);
    WrappedKeeps(Distinct(all));
    OfferedMembers(c, p);
  }

  /** The entitlement rows a purchase adds. */
  lemma BuyAdds(db: Db, q: VerifyRequest, p: Provider, id: string, kind: PurchaseKind, courses: seq<Option<string>>,
                now: Time)
    returns (rows: map<Id, Entitlement>)
    ensures var (after, answer) := Buy(WithRow(db, q, p), q, id, kind, courses, now);
            after.entitlements == db.entitlements + rows && answer.Granted? && answer.entitlements == rows.Keys
    ensures RowsFor(rows, q.caller, if kind == CoursePurchase then Purchased else Bundled, courses, db.next + 1, now,
                    db.next + 2)
  {
    var source := if kind == CoursePurchase then Purchased else Bundled;
    rows := GrantEach(q.caller, source, courses, db.next + 1, now, db.next + 2);
    GrantedRows(q.caller, source, courses, db.next + 1, now, db.next + 2);
  }

  lemma BuyGrows(db: Db, q: VerifyRequest, p: Provider, id: string, kind: PurchaseKind, courses: seq<Option<string>>,
                 now: Time)
    requires Below(db) && TransactionsOf(db, p, q.externalId) == {}
    ensures var after := Buy(WithRow(db, q, p), q, id, kind, courses, now).0;
            Grows(db, after) && NewSubsElsewhere(db, after, p, q.externalId)
  {
    UnknownElsewhere(db, p, q.externalId);
    var rows := BuyAdds(db, q, p, id, kind, courses, now);
  }

  lemma BoughtAre(db: Db, q: VerifyRequest, p: Provider, id: string, kind: PurchaseKind, courses: seq<Option<string>>,
                  now: Time)
    requires Below(db) && AllWellLinked(db)
    ensures var after := Buy(WithRow(db, q, p), q, id, kind, courses, now).0;
            var bought := BoughtBy(after, db.next + 1);
            && (forall i :: i in bought <==> db.next + 2 <= i < db.next + 2 + |courses|)
            && (forall i :: i in bought ==> after.entitlements[i].resource == courses[i - db.next - 2])
  {
    OldLinks(db);
    var rows := BuyAdds(db, q, p, id, kind, courses, now);
  }

  lemma BoughtCourses(db: Db, b: Id, first: Id, courses: seq<Option<string>>)
    requires NoRepeats(courses)
    requires forall i :: i in BoughtBy(db, b) <==> first <= i < first + |courses|
    requires forall i :: i in BoughtBy(db, b) ==> db.entitlements[i].resource == courses[i - first]
    ensures |BoughtBy(db, b)| == |Elements(courses)| && Resources(db, b) == Elements(courses)
  {
    forall r | r in Elements(courses) ensures r in Resources(db, b) {
      var i :| 0 <= i < |courses| && courses[i] == r;
      assert first + i in BoughtBy(db, b);
    }
    assert Resources(db, b) == Elements(courses);
    RangeSize(BoughtBy(db, b), first, |courses|);
    RepeatsShrink(courses);
  }

  lemma {:induction false} RangeSize(s: set<Id>, first: Id, n: nat)
    requires forall i :: i in s <==> first <= i < first + n
    ensures |s| == n
  {
    if n == 0 {
      assert s == {};
    } else {
      RangeSize(s - {first + n - 1}, first, n - 1);
    }
  }

  lemma BuyHolds(db: Db, q: VerifyRequest, p: Provider, id: string, kind: PurchaseKind, courses: seq<Option<string>>,
                 now: Time)
    requires Below(db) && Owned(db) && TransactionsOf(db, p, q.externalId) == {}
    ensures var after := Buy(WithRow(db, q, p), q, id, kind, courses, now).0;
            PurchasesOf(after, db.next) == {db.next + 1} && SubscriptionsBy(after, db.next) == {}
  {
    var after := Buy(WithRow(db, q, p), q, id, kind, courses, now).0;
    UnknownBacksNothing(db, q.caller, p, q.externalId);
    forall r | r in PurchasesOf(after, db.next) ensures r == db.next + 1 {}
    assert PurchasesOf(after, db.next) == {db.next + 1};
    assert SubscriptionsBy(after, db.next) == SubscriptionsOf(db, q.caller, p, q.externalId);
  }

  lemma BuyOwns(db: Db, q: VerifyRequest, p: Provider, id: string, kind: PurchaseKind, courses: seq<Option<string>>,
                now: Time)
    requires Below(db) && Owned(db) && TransactionsOf(db, p, q.externalId) == {}
    ensures NewOwned(db, Buy(WithRow(db, q, p), q, id, kind, courses, now).0)
  {
    BuyHolds(db, q, p, id, kind, courses, now);
  }

  lemma BuyOneEach(c: Catalog, db: Db, q: VerifyRequest, p: Provider, id: string, kind: PurchaseKind,
                   courses: seq<Option<string>>, now: Time)
    requires Below(db) && AllWellLinked(db)
    requires NoRepeats(courses) && Elements(courses) == Offered(c, Purchase(q.caller, id, kind, db.next, Completed))
    ensures var after, b := Buy(WithRow(db, q, p), q, id, kind, courses, now).0, db.next + 1;
            |BoughtBy(after, b)| == |Offered(c, after.purchases[b])| &&
                Resources(after, b) == Offered(c, after.purchases[b])
  {
    var after := Buy(WithRow(db, q, p), q, id, kind, courses, now).0;
    assert after.purchases[db.next + 1] == Purchase(q.caller, id, kind, db.next, Completed);
    BoughtAre(db, q, p, id, kind, courses, now);
    BoughtCourses(after, db.next + 1, db.next + 2, courses);
  }

  lemma BuyLinks(c: Catalog, db: Db, q: VerifyRequest, p: Provider, id: string, kind: PurchaseKind,
                 courses: seq<Option<string>>, now: Time)
    requires Below(db) && AllWellLinked(db)
    requires NoRepeats(courses) && Elements(courses) == Offered(c, Purchase(q.caller, id, kind, db.next, Completed))
    ensures NewLinks(c, db, Buy(WithRow(db, q, p), q, id, kind, courses, now).0)
  {
    var after := Buy(WithRow(db, q, p), q, id, kind, courses, now).0;
    BuyOneEach(c, db, q, p, id, kind, courses, now);
    GrantedWellLinked(db, q, p, id, kind, courses, now);
    assert after.subscriptions == db.subscriptions && after.purchases.Keys == db.purchases.Keys + {db.next + 1};
  }

  lemma GrantedWellLinked(db: Db, q: VerifyRequest, p: Provider, id: string, kind: PurchaseKind,
                          courses: seq<Option<string>>, now: Time)
    ensures var after := Buy(WithRow(db, q, p), q, id, kind, courses, now).0;
            forall e :: e in after.entitlements && e !in db.entitlements ==> WellLinked(after, after.entitlements[e])
  {
    var rows := BuyAdds(db, q, p, id, kind, courses, now);
  }

  lemma BuyKeeps(c: Catalog, db: Db, q: VerifyRequest, p: Provider, id: string, kind: PurchaseKind,
                 courses: seq<Option<string>>, now: Time)
    requires Structure(c, db) && TransactionsOf(db, p, q.externalId) == {}
    requires NoRepeats(courses) && Elements(courses) == Offered(c, Purchase(q.caller, id, kind, db.next, Completed))
    ensures Structure(c, Buy(WithRow(db, q, p), q, id, kind, courses, now).0)
  {
    var after := Buy(WithRow(db, q, p), q, id, kind, courses, now).0;
    BuyGrows(db, q, p, id, kind, courses, now);
    BuyOwns(db, q, p, id, kind, courses, now);
    BuyLinks(c, db, q, p, id, kind, courses, now);
    GrownStructure(c, db, after, Transaction(q.caller, p, q.externalId, true));
  }

  lemma BuyCouples(db: Db, q: VerifyRequest, p: Provider, id: string, kind: PurchaseKind, courses: seq<Option<string>>,
                   now: Time)
    requires Below(db) && Coupled(db) && RefundsRevoke(db) && AllWellLinked(db)
    requires TransactionsOf(db, p, q.externalId) == {}
    ensures var after := Buy(WithRow(db, q, p), q, id, kind, courses, now).0;
            Coupled(after) && RefundsRevoke(after)
  {
    var after := Buy(WithRow(db, q, p), q, id, kind, courses, now).0;
    BuyGrows(db, q, p, id, kind, courses, now);
    var rows := BuyAdds(db, q, p, id, kind, courses, now);
    GrowthKeepsCouplings(db, after);
  }
}
