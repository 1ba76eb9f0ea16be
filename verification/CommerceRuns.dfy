/** Safety of the commerce tables over every run of requests, and replays that change nothing. */
module CommerceRuns {
  import opened Common
  import opened CommerceModel
  import opened CommerceInvariants

  // ---------------------------------------------------------------------------------------
  // Every request keeps the invariants
  // ---------------------------------------------------------------------------------------

  lemma FulfilKeeps(c: Catalog, db: Db, q: VerifyRequest, p: Provider, store: string, o: Offer, v: Verification,
                    now: Time)
    requires v.Verified? && Structure(c, db) && TransactionsOf(db, p, q.externalId) == {}
    requires Resolve(c, p, store) == Some(o) && Fulfil(c, db, q, p, o, v, now).Ok?
    ensures Structure(c, Fulfil(c, db, q, p, o, v, now).value.0)
  {
    match o {
      case PlanOffer(id, plan) =>
        SubscribeKeeps(c, db, q, p, id, plan, v, now);
      case CourseOffer(id, product) =>
        assert Elements([product.course]) == {product.course};
        BuyKeeps(c, db, q, p, id, CoursePurchase, [product.course], now);
      case BundleOffer(id, product) =>
        BundleCourses(c, Purchase(q.caller, id, BundlePurchase, db.next, Completed));
        BuyKeeps(c, db, q, p, id, BundlePurchase, Wrapped(Distinct(product.courses)), now);
    }
  }

  lemma FulfilCouples(c: Catalog, db: Db, q: VerifyRequest, p: Provider, o: Offer, v: Verification, now: Time)
    requires v.Verified? && Below(db) && Coupled(db) && RefundsRevoke(db) && AllWellLinked(db)
    requires TransactionsOf(db, p, q.externalId) == {} && Fulfil(c, db, q, p, o, v, now).Ok?
    ensures var after := Fulfil(c, db, q, p, o, v, now).value.0; Coupled(after) && RefundsRevoke(after)
  {
    match o {
      case PlanOffer(id, plan) => SubscribeCouples(db, q, p, id, plan, v, now);
      case CourseOffer(id, product) => BuyCouples(db, q, p, id, CoursePurchase, [product.course], now);
      case BundleOffer(id, product) =>
          BuyCouples(db, q, p, id, BundlePurchase, Wrapped(Distinct(product.courses)), now);
    }
  }

  /** The part of a verification that writes: the tables with the coupon redeemed, the request's
      provider and the offer it resolved to. */
  ghost predicate Fulfils(c: Catalog, db: Db, q: VerifyRequest, v: Verification, now: Time, r: Db, o: Offer)
  {
    && q.learner == q.caller && q.provider.Some? && v.Verified?
    && TransactionsOf(db, q.provider.value, q.externalId) == {}
    && Resolve(c, q.provider.value, v.product) == Some(o) && (if o.PlanOffer? then o.plan.active else o.product.active)
    && Redeem(db, q.coupon, q.caller, o.id, now) == Ok(r)
    && Fulfil(c, r, q, q.provider.value, o, v, now).Ok?
    && Verify(c, db, q, v, now) == Fulfil(c, r, q, q.provider.value, o, v, now).value
  }

  /** A verification changes nothing, or leaves a failed row, or fulfils an offer. */
  lemma VerifyCases(c: Catalog, db: Db, q: VerifyRequest, v: Verification, now: Time) returns (r: Db, o: Offer)
    ensures Verify(c, db, q, v, now).0 == db
         || (q.provider.Some? && TransactionsOf(db, q.provider.value, q.externalId) == {}
             && Verify(c, db, q, v, now).0 == Failed(db, q, q.provider.value))
         || Fulfils(c, db, q, v, now, r, o)
  {
    r, o := db, PlanOffer("", Plan(false, false));
    if q.learner == q.caller && q.provider.Some? && v.Verified? &&
        First(TransactionsOf(db, q.provider.value, q.externalId)).None? {
      var offer := Resolve(c, q.provider.value, v.product);
      if offer.Some? && IsActive(offer.value) {
        o := offer.value;
        var redeemed := Redeem(db, q.coupon, q.caller, o.id, now);
        if redeemed.Ok? { r := redeemed.value; }
      }
    }
  }

  lemma RedeemedKeeps(c: Catalog, db: Db, q: VerifyRequest, product: string, now: Time, r: Db)
    requires Structure(c, db) && Redeem(db, q.coupon, q.caller, product, now) == Ok(r)
    ensures Structure(c, r)
  {
    RedeemCounts(db, q.coupon, q.caller, product, now);
    CouponsApart(c, db, r);
  }

  lemma RedeemedCouples(db: Db, q: VerifyRequest, product: string, now: Time, r: Db)
    requires Redeem(db, q.coupon, q.caller, product, now) == Ok(r)
    ensures Coupled(r) == Coupled(db) && RefundsRevoke(r) == RefundsRevoke(db) && AllWellLinked(r) == AllWellLinked(db)
    ensures Below(r) == Below(db)
    ensures forall p, ext :: TransactionsOf(r, p, ext) == TransactionsOf(db, p, ext)
  {
    forall p, ext ensures TransactionsOf(r, p, ext) == TransactionsOf(db, p, ext) {}
    TablesApart(db, r);
  }

  lemma TablesApart(a: Db, b: Db)
    requires b == a.(coupons := b.coupons, redemptions := b.redemptions)
    ensures Coupled(b) == Coupled(a) && RefundsRevoke(b) == RefundsRevoke(a)
    ensures AllWellLinked(b) == AllWellLinked(a)
  {
    forall e, s ensures OfSubscription(a, e, s) <==> OfSubscription(b, e, s) {}
    forall e, p ensures OfPurchase(a, e, p) <==> OfPurchase(b, e, p) {}
    forall e | e in a.entitlements ensures WellLinked(a, a.entitlements[e]) == WellLinked(b, b.entitlements[e]) {}
  }

  lemma VerifyKeeps(c: Catalog, db: Db, q: VerifyRequest, v: Verification, now: Time)
    requires Structure(c, db)
    ensures Structure(c, Verify(c, db, q, v, now).0)
  {
    var r, o := VerifyCases(c, db, q, v, now);
    if Fulfils(c, db, q, v, now, r, o) {
      RedeemedKeeps(c, db, q, o.id, now, r);
      assert TransactionsOf(r, q.provider.value, q.externalId) == TransactionsOf(db, q.provider.value, q.externalId);
      FulfilKeeps(c, r, q, q.provider.value, v.product, o, v, now);
    } else if Verify(c, db, q, v, now).0 != db {
      FailedKeeps(c, db, q, q.provider.value);
    }
  }

  lemma VerifyCouples(c: Catalog, db: Db, q: VerifyRequest, v: Verification, now: Time)
    requires Below(db) && AllWellLinked(db) && Coupled(db) && RefundsRevoke(db)
    ensures Coupled(Verify(c, db, q, v, now).0) && RefundsRevoke(Verify(c, db, q, v, now).0)
  {
    var r, o := VerifyCases(c, db, q, v, now);
    if Fulfils(c, db, q, v, now, r, o) {
      RedeemedCouples(db, q, o.id, now, r);
      FulfilCouples(c, r, q, q.provider.value, o, v, now);
    } else if Verify(c, db, q, v, now).0 != db {
      FailedCouples(db, q, q.provider.value);
    }
  }

  function WithGrant(db: Db, ent: Entitlement): Db
  {
    db.(entitlements := db.entitlements[db.next := ent], next := db.next + 1)
  }

  lemma GrantGrows(db: Db, ent: Entitlement)
    requires Below(db) && ent.purchase.None? && ent.subscription.None?
    ensures Grows(db, WithGrant(db, ent))
  {
  }

  lemma GrantKeeps(c: Catalog, db: Db, ent: Entitlement)
    requires Structure(c, db) && ent.source == AdminGrant && ent.purchase.None? && ent.subscription.None?
    ensures Structure(c, WithGrant(db, ent))
  {
    var after := WithGrant(db, ent);
    GrantGrows(db, ent);
    assert NewLinks(c, db, after);
    GrownOneEach(c, db, after);
    GrownWellLinked(c, db, after);
    OwnedApart(db, after);
    CountedApart(db, after);
    GrownBelow(db, after);
    assert OneRowEach(after);
  }

  lemma GrantCouples(db: Db, ent: Entitlement)
    requires Below(db) && AllWellLinked(db) && Coupled(db) && RefundsRevoke(db) && ent.purchase.None? &&
             ent.subscription.None?
    ensures Coupled(WithGrant(db, ent)) && RefundsRevoke(WithGrant(db, ent))
  {
    GrantGrows(db, ent);
    GrowthKeepsCouplings(db, WithGrant(db, ent));
  }

  /** What an in-place request turns the tables into. */
  lemma InPlace(c: Catalog, db: Db, op: Op) returns (i: Id, ent: Entitlement)
    requires op.DoCancel? || op.DoChangePlan? || op.DoExtend? || op.DoRevoke?
    ensures Step(c, db, op) == db
         || (op.DoCancel? && op.sub in db.subscriptions && Step(c, db, op) == CancelledAtEnd(db, op.sub))
         || (op.DoChangePlan? && op.sub in db.subscriptions && op.plan in c.plans
             && Step(c, db, op) == MovePlan(db, op.sub, op.plan, PeriodEnd(c.plans[op.plan].annual, op.now)))
         || (i in db.entitlements && db.entitlements[i].source == AdminGrant && SameEnt(db.entitlements[i], ent)
             && Step(c, db, op) == Edited(db, i, ent))
  {
    i, ent := 0, Perpetual("", Purchased, None, 0, 0);
    match op
    case DoCancel(learner, s, dev) =>
    case DoChangePlan(learner, s, plan, now, dev) =>
    case DoExtend(e, version, expires, now) =>
      i := e;
      if e in db.entitlements {
        ent := db.entitlements[e].(expiresAt := expires, version := db.entitlements[e].version + 1);
      }
    case DoRevoke(e, version, now) =>
      i := e;
      if e in db.entitlements {
        ent := db.entitlements[e].(status := EntRevoked, revokedAt := Some(now),
                                   version := db.entitlements[e].version + 1);
      }
  }

  lemma SameShapeRefl(db: Db)
    ensures SameShape(db, db)
  {
  }

  lemma InPlaceShape(c: Catalog, db: Db, op: Op)
    requires op.DoCancel? || op.DoChangePlan? || op.DoExtend? || op.DoRevoke?
    ensures SameShape(db, Step(c, db, op))
  {
    var i, ent := InPlace(c, db, op);
    SameShapeRefl(db);
    if op.DoCancel? && op.sub in db.subscriptions { CancelShape(db, op.sub); }
    if op.DoChangePlan? && op.sub in db.subscriptions && op.plan in c.plans {
      MovePlanShape(db, op.sub, op.plan, PeriodEnd(c.plans[op.plan].annual, op.now));
    }
    if i in db.entitlements && SameEnt(db.entitlements[i], ent) { EditShape(db, i, ent); }
  }

  lemma InPlaceCouples(c: Catalog, db: Db, op: Op)
    requires op.DoCancel? || op.DoChangePlan? || op.DoExtend? || op.DoRevoke?
    requires AllWellLinked(db) && OneEach(c, db) && Coupled(db) && RefundsRevoke(db)
    ensures Coupled(Step(c, db, op)) && RefundsRevoke(Step(c, db, op))
  {
    var i, ent := InPlace(c, db, op);
    if op.DoCancel? && op.sub in db.subscriptions { CancelCouples(db, op.sub); }
    if op.DoChangePlan? && op.sub in db.subscriptions && op.plan in c.plans {
      var end := PeriodEnd(c.plans[op.plan].annual, op.now);
      MovePlanCoupled(c, db, op.sub, op.plan, end);
      MovePlanRefunds(db, op.sub, op.plan, end);
    }
    if i in db.entitlements && db.entitlements[i].source == AdminGrant && SameEnt(db.entitlements[i], ent) {
      EditCouples(db, i, ent);
    }
  }

  /** A request other than a verification or a grant keeps the shape of the tables. */
  lemma StepShape(c: Catalog, db: Db, op: Op)
    requires !op.DoVerify? && !op.DoGrant?
    ensures SameShape(db, Step(c, db, op))
  {
    match op
    case DoWebhook(e, now, hint) => WebhookShape(db, e, now, hint);
    case DoReconcile(now) => ReconcileShape(db, now);
    case _ => InPlaceShape(c, db, op);
  }

  /** A manual grant is refused or adds one unlinked entitlement. */
  lemma GrantStep(c: Catalog, db: Db, op: Op) returns (ent: Entitlement)
    requires op.DoGrant?
    ensures ent.source == AdminGrant && ent.purchase.None? && ent.subscription.None?
    ensures Step(c, db, op) == db || Step(c, db, op) == WithGrant(db, ent)
  {
    ent := Entitlement(op.learner, AdminGrant, EntActive, op.kind, op.resource, op.now, op.expires, None, None, None,
                       1);
  }

  lemma StepKeeps(c: Catalog, db: Db, op: Op)
    requires Structure(c, db)
    ensures Structure(c, Step(c, db, op))
  {
    if op.DoVerify? {
      VerifyKeeps(c, db, op.request, op.verification, op.now);
    } else if op.DoGrant? {
      var ent := GrantStep(c, db, op);
      GrantKeeps(c, db, ent);
    } else {
      StepShape(c, db, op);
      ShapeKeepsStructure(c, db, Step(c, db, op));
    }
  }

  lemma StepCouples(c: Catalog, db: Db, op: Op)
    requires Below(db) && AllWellLinked(db) && OneEach(c, db) && Coupled(db) && RefundsRevoke(db)
    ensures Coupled(Step(c, db, op)) && RefundsRevoke(Step(c, db, op))
  {
    match op
    case DoVerify(q, v, now) => VerifyCouples(c, db, q, v, now);
    case DoWebhook(e, now, hint) => WebhookCouples(db, e, now, hint);
    case DoReconcile(now) => ReconcileCouples(db, now);
    case DoGrant(_, _, _, _, _, _) =>
      var ent := GrantStep(c, db, op);
      GrantCouples(db, ent);
    case _ => InPlaceCouples(c, db, op);
  }

  /** Every plan subscribed to and every product bought is for sale. */
  ghost predicate AllOnSale(c: Catalog, db: Db)
  {
    && (forall s :: s in db.subscriptions ==>
        db.subscriptions[s].plan in c.plans && c.plans[db.subscriptions[s].plan].active)
    && (forall b :: b in db.purchases ==>
        db.purchases[b].product in c.products && c.products[db.purchases[b].product].active)
  }

  lemma FulfilSells(c: Catalog, db: Db, q: VerifyRequest, p: Provider, store: string, o: Offer, v: Verification,
                    now: Time)
    requires v.Verified? && AllOnSale(c, db) && Resolve(c, p, store) == Some(o) && Fulfil(c, db, q, p, o, v, now).Ok?
    requires if o.PlanOffer? then o.plan.active else o.product.active
    ensures AllOnSale(c, Fulfil(c, db, q, p, o, v, now).value.0)
  {
  }

  lemma VerifySells(c: Catalog, db: Db, q: VerifyRequest, v: Verification, now: Time)
    requires AllOnSale(c, db)
    ensures AllOnSale(c, Verify(c, db, q, v, now).0)
  {
    var r, o := VerifyCases(c, db, q, v, now);
    if Fulfils(c, db, q, v, now, r, o) {
      RedeemSpares(db, q, o.id, now, r);
      FulfilSells(c, r, q, q.provider.value, v.product, o, v, now);
    }
  }

  lemma RedeemSpares(db: Db, q: VerifyRequest, product: string, now: Time, r: Db)
    requires Redeem(db, q.coupon, q.caller, product, now) == Ok(r)
    ensures r.purchases == db.purchases && r.subscriptions == db.subscriptions && r.entitlements == db.entitlements
  {
  }

  lemma WebhookSells(c: Catalog, db: Db, e: Event, now: Time, hint: Id)
    requires AllOnSale(c, db)
    ensures AllOnSale(c, Webhook(db, e, now, hint).0)
  {
    var f, events := WebhookEffect(db, e, now, hint);
  }

  lemma ReconcileSells(c: Catalog, db: Db, now: Time)
    requires AllOnSale(c, db)
    ensures AllOnSale(c, Reconcile(db, now))
  {
  }

  lemma ManagementSells(c: Catalog, db: Db, op: Op)
    requires AllOnSale(c, db) && (op.DoCancel? || op.DoChangePlan?)
    ensures AllOnSale(c, Step(c, db, op))
  {
  }

  lemma ManualEditsSell(c: Catalog, db: Db, op: Op)
    requires AllOnSale(c, db) && (op.DoGrant? || op.DoExtend? || op.DoRevoke?)
    ensures AllOnSale(c, Step(c, db, op))
  {
  }

  lemma StepSells(c: Catalog, db: Db, op: Op)
    requires AllOnSale(c, db)
    ensures AllOnSale(c, Step(c, db, op))
  {
    match op
    case DoVerify(q, v, now) => VerifySells(c, db, q, v, now);
    case DoWebhook(e, now, hint) => WebhookSells(c, db, e, now, hint);
    case DoReconcile(now) => ReconcileSells(c, db, now);
    case DoCancel(_, _, _) => ManagementSells(c, db, op);
    case DoChangePlan(_, _, _, _, _) => ManagementSells(c, db, op);
    case _ => ManualEditsSell(c, db, op);
  }

  lemma InitialHolds(c: Catalog, db: Db)
    requires Initial(db)
    ensures Structure(c, db) && Coupled(db) && RefundsRevoke(db)
  {
    forall k | k in db.coupons ensures db.coupons[k].count == |RedemptionsOf(db, k)| {
      assert RedemptionsOf(db, k) == {};
    }
  }

  /** In every state reachable by any run of requests, in any order: each external transaction has
      at most one row and a successful one exactly one purchase or subscription; entitlements
      number one per subscription and one per distinct course of a purchase; coupons count their
      redemptions within their cap; only active plans and products are sold;
          entitlement statuses follow the subscription, an active one
      expires exactly at the period end, and a refunded purchase keeps no live entitlement. */
  lemma {:induction false} EveryRunIsSafe(c: Catalog, start: Db, ops: seq<Op>)
    requires Initial(start)
    ensures Structure(c, Run(c, start, ops))
    ensures Coupled(Run(c, start, ops)) && RefundsRevoke(Run(c, start, ops)) && AllOnSale(c, Run(c, start, ops))
  {
    if ops == [] {
      InitialHolds(c, start);
    } else {
      var before := Run(c, start, ops[..|ops| - 1]);
      EveryRunIsSafe(c, start, ops[..|ops| - 1]);
      StepKeeps(c, before, ops[|ops| - 1]);
      StepCouples(c, before, ops[|ops| - 1]);
      StepSells(c, before, ops[|ops| - 1]);
    }
  }

  /** The same, read off for one transaction. */
  lemma ExactlyOnce(c: Catalog, start: Db, ops: seq<Op>, t: Id)
    requires Initial(start) && t in Run(c, start, ops).transactions
    ensures var db := Run(c, start, ops); var tx := db.transactions[t];
            && TransactionsOf(db, tx.provider, tx.externalId) == {t}
            && (!tx.success ==> PurchasesOf(db, t) == {} && SubscriptionsBy(db, t) == {})
            && (tx.success ==>
                  || (exists p :: PurchasesOf(db, t) == {p} && SubscriptionsBy(db, t) == {}
                        && |BoughtBy(db, p)| == |Offered(c, db.purchases[p])| &&
                           Resources(db, p) == Offered(c, db.purchases[p]))
                  || (exists s :: SubscriptionsBy(db, t) == {s} && PurchasesOf(db, t) == {} && |LinkedTo(db, s)| == 1))
  {
    EveryRunIsSafe(c, start, ops);
    var db := Run(c, start, ops);
    var tx := db.transactions[t];
    forall u | u in TransactionsOf(db, tx.provider, tx.externalId) ensures u == t {
      assert SameExternal(db.transactions[u], tx);
    }
    assert t in TransactionsOf(db, tx.provider, tx.externalId);
    if tx.success {
      if PurchasesOf(db, t) != {} {
        var p :| p in PurchasesOf(db, t);
        SingletonOf(PurchasesOf(db, t), p);
      } else {
        assert |SubscriptionsBy(db, t)| == 1;
        var s :| s in SubscriptionsBy(db, t);
        SingletonOf(SubscriptionsBy(db, t), s);
      }
    }
  }

  lemma SingletonOf(s: set<Id>, x: Id)
    requires x in s && |s| <= 1
    ensures s == {x}
  {
    forall y | y in s ensures y == x {
      OnlyOne(s, x, y);
    }
  }

  // ---------------------------------------------------------------------------------------
  // Replays
  // ---------------------------------------------------------------------------------------

  lemma ShapeKeepsReplay(a: Db, b: Db, t: Id, caller: string)
    requires SameShape(a, b) && t in a.transactions
    ensures Replay(a, t, caller) == Replay(b, t, caller)
  {
    ShapeFixesLinks(a, b, t);
    var tx := a.transactions[t];
    assert SubscriptionsOf(a, caller, tx.provider, tx.externalId) ==
           SubscriptionsOf(b, caller, tx.provider, tx.externalId);
    forall e | e in a.entitlements ensures SameEnt(a.entitlements[e], b.entitlements[e]) {}
  }

  /** New rows never enter the holdings of an older transaction. */
  lemma GrowthKeepsReplay(a: Db, b: Db, t: Id, caller: string)
    requires Below(a) && Grows(a, b) && t in a.transactions
    requires SubscriptionsBy(a, t) == SubscriptionsBy(b, t)
    ensures Replay(a, t, caller) == Replay(b, t, caller)
  {
    GrowthKeepsLinks(a, b, t);
  }

  lemma StepKeepsReplay(c: Catalog, db: Db, op: Op, t: Id, caller: string)
    requires Structure(c, db) && t in db.transactions
    ensures t in Step(c, db, op).transactions && Replay(Step(c, db, op), t, caller) == Replay(db, t, caller)
  {
    if op.DoVerify? {
      VerifyKeepsReplay(c, db, op.request, op.verification, op.now, t, caller);
    } else if op.DoGrant? {
      var ent := GrantStep(c, db, op);
      GrantGrows(db, ent);
      assert SubscriptionsBy(db, t) == SubscriptionsBy(WithGrant(db, ent), t);
      GrowthKeepsReplay(db, WithGrant(db, ent), t, caller);
    } else {
      StepShape(c, db, op);
      ShapeKeepsReplay(db, Step(c, db, op), t, caller);
    }
  }

  lemma CouponsKeepReplay(a: Db, b: Db, t: Id, caller: string)
    requires b == a.(coupons := b.coupons, redemptions := b.redemptions) && t in a.transactions
    ensures Replay(a, t, caller) == Replay(b, t, caller)
  {
    var tx := a.transactions[t];
    assert PurchasesOf(a, t) == PurchasesOf(b, t);
    assert SubscriptionsOf(a, caller, tx.provider, tx.externalId) ==
           SubscriptionsOf(b, caller, tx.provider, tx.externalId);
  }

  lemma FulfilGrows(c: Catalog, db: Db, q: VerifyRequest, p: Provider, o: Offer, v: Verification, now: Time)
    requires v.Verified? && Below(db) && TransactionsOf(db, p, q.externalId) == {} && Fulfil(c, db, q, p, o, v, now).Ok?
    ensures var after := Fulfil(c, db, q, p, o, v, now).value.0;
            Grows(db, after) && NewSubsElsewhere(db, after, p, q.externalId)
  {
    match o {
      case PlanOffer(id, plan) => SubscribeGrows(db, q, p, id, plan, v, now);
      case CourseOffer(id, product) => BuyGrows(db, q, p, id, CoursePurchase, [product.course], now);
      case BundleOffer(id, product) => BuyGrows(db, q, p, id, BundlePurchase, Wrapped(Distinct(product.courses)), now);
    }
  }

  lemma FailedGrows(db: Db, q: VerifyRequest, p: Provider)
    requires Below(db) && TransactionsOf(db, p, q.externalId) == {}
    ensures Grows(db, Failed(db, q, p)) && NewSubsElsewhere(db, Failed(db, q, p), p, q.externalId)
  {
    UnknownElsewhere(db, p, q.externalId);
  }

  lemma VerifyKeepsReplay(c: Catalog, db: Db, q: VerifyRequest, v: Verification, now: Time, t: Id, caller: string)
    requires Below(db) && t in db.transactions
    ensures var after := Verify(c, db, q, v, now).0;
            t in after.transactions && Replay(after, t, caller) == Replay(db, t, caller)
  {
    var r, o := VerifyCases(c, db, q, v, now);
    var after := Verify(c, db, q, v, now).0;
    if Fulfils(c, db, q, v, now, r, o) {
      var p := q.provider.value;
      RedeemedCouples(db, q, o.id, now, r);
      CouponsKeepReplay(db, r, t, caller);
      FulfilGrows(c, r, q, p, o, v, now);
      GrowthKeepsBacking(r, after, p, q.externalId, t);
      GrowthKeepsReplay(r, after, t, caller);
    } else if after != db {
      var p := q.provider.value;
      FailedGrows(db, q, p);
      GrowthKeepsBacking(db, after, p, q.externalId, t);
      GrowthKeepsReplay(db, after, t, caller);
    }
  }

  lemma {:induction false} RunKeepsReplay(c: Catalog, db: Db, ops: seq<Op>, t: Id, caller: string)
    requires Structure(c, db) && t in db.transactions
    ensures Structure(c, Run(c, db, ops)) && t in Run(c, db, ops).transactions
    ensures Replay(Run(c, db, ops), t, caller) == Replay(db, t, caller)
  {
    if ops != [] {
      var before := Run(c, db, ops[..|ops| - 1]);
      RunKeepsReplay(c, db, ops[..|ops| - 1], t, caller);
      StepKeeps(c, before, ops[|ops| - 1]);
      StepKeepsReplay(c, before, ops[|ops| - 1], t, caller);
    }
  }

  /** What a new grant answers is what its transaction's record answers from then on. */
  lemma SubscribeAnswers(db: Db, q: VerifyRequest, p: Provider, id: string, plan: Plan, v: Verification, now: Time)
    requires v.Verified? && Below(db) && Owned(db) && AllWellLinked(db) && TransactionsOf(db, p, q.externalId) == {}
    ensures var (after, answer) := Subscribe(WithRow(db, q, p), q, p, id, plan, v, now);
            db.next in after.transactions && answer == Replay(after, db.next, q.caller)
  {
    var (after, answer) := Subscribe(WithRow(db, q, p), q, p, id, plan, v, now);
    SubscribeOwns(db, q, p, id, plan, v, now);
    SubscribeLinks(db, q, p, id, plan, v, now);
    var held := Replay(after, db.next, q.caller);
    assert held.subscription == Some(db.next + 1) && held.purchase == None;
    assert held.entitlements == LinkedTo(after, db.next + 1);
  }

  lemma PurchaseHolding(db: Db, t: Id, b: Id, caller: string)
    requires t in db.transactions && db.transactions[t].success && db.transactions[t].learner == caller
    requires PurchasesOf(db, t) == {b} && SubscriptionsBy(db, t) == {}
    requires forall e :: e in BoughtBy(db, b) ==> db.entitlements[e].learner == caller
    ensures Replay(db, t, caller) == Granted(Some(b), None, BoughtBy(db, b))
  {
    assert First({b}) == Some(b);
    var held := Replay(db, t, caller);
    assert held.entitlements == BoughtBy(db, b);
  }

  lemma BuyGrants(db: Db, q: VerifyRequest, p: Provider, id: string, kind: PurchaseKind, courses: seq<Option<string>>,
                  now: Time)
    requires Below(db) && AllWellLinked(db)
    ensures var (after, answer) := Buy(WithRow(db, q, p), q, id, kind, courses, now);
            && answer == Granted(Some(db.next + 1), None, BoughtBy(after, db.next + 1))
            && forall e :: e in BoughtBy(after, db.next + 1) ==> after.entitlements[e].learner == q.caller
  {
    var (after, answer) := Buy(WithRow(db, q, p), q, id, kind, courses, now);
    BoughtAre(db, q, p, id, kind, courses, now);
    var rows := BuyAdds(db, q, p, id, kind, courses, now);
    assert answer.entitlements == BoughtBy(after, db.next + 1);
  }

  lemma BuyAnswers(db: Db, q: VerifyRequest, p: Provider, id: string, kind: PurchaseKind, courses: seq<Option<string>>,
                   now: Time)
    requires Below(db) && Owned(db) && AllWellLinked(db) && TransactionsOf(db, p, q.externalId) == {}
    ensures var (after, answer) := Buy(WithRow(db, q, p), q, id, kind, courses, now);
            db.next in after.transactions && answer == Replay(after, db.next, q.caller)
  {
    BuyHolds(db, q, p, id, kind, courses, now);
    BuyGrants(db, q, p, id, kind, courses, now);
    PurchaseHolding(Buy(WithRow(db, q, p), q, id, kind, courses, now).0, db.next, db.next + 1, q.caller);
  }

  lemma FulfilAnswers(c: Catalog, db: Db, q: VerifyRequest, p: Provider, o: Offer, v: Verification, now: Time)
    requires v.Verified? && Below(db) && Owned(db) && AllWellLinked(db) && TransactionsOf(db, p, q.externalId) == {}
    requires Fulfil(c, db, q, p, o, v, now).Ok?
    ensures var (after, answer) := Fulfil(c, db, q, p, o, v, now).value;
            db.next in after.transactions &&
                after.transactions[db.next] == Transaction(q.caller, p, q.externalId, true) &&
            answer == Replay(after, db.next, q.caller)
  {
    match o {
      case PlanOffer(id, plan) => SubscribeAnswers(db, q, p, id, plan, v, now);
      case CourseOffer(id, product) => BuyAnswers(db, q, p, id, CoursePurchase, [product.course], now);
      case BundleOffer(id, product) =>
          BuyAnswers(db, q, p, id, BundlePurchase, Wrapped(Distinct(product.courses)), now);
    }
  }

  lemma FreshAnswer(c: Catalog, db: Db, q: VerifyRequest, v: Verification, now: Time, r: Db, o: Offer)
    requires Structure(c, db) && Fulfils(c, db, q, v, now, r, o)
    ensures var (after, answer) := Verify(c, db, q, v, now);
            && r.next in after.transactions
            && after.transactions[r.next] == Transaction(q.caller, q.provider.value, q.externalId, true)
            && answer == Replay(after, r.next, q.caller)
  {
    RedeemedKeeps(c, db, q, o.id, now, r);
    RedeemedCouples(db, q, o.id, now, r);
    FulfilAnswers(c, r, q, q.provider.value, o, v, now);
  }

  lemma GrantedCases(c: Catalog, db: Db, q: VerifyRequest, v: Verification, now: Time) returns (r: Db, o: Offer)
    requires Verify(c, db, q, v, now).1.Granted?
    ensures q.provider.Some? && q.learner == q.caller
    ensures First(TransactionsOf(db, q.provider.value, q.externalId)).None? ==> Fulfils(c, db, q, v, now, r, o)
    ensures First(TransactionsOf(db, q.provider.value, q.externalId)).Some? ==>
              Verify(c, db, q, v, now) ==
                  (db, Replay(db, First(TransactionsOf(db, q.provider.value, q.externalId)).value, q.caller))
  {
    r, o := VerifyCases(c, db, q, v, now);
  }

  /** Answers that settle a transaction: it is granted, or its verification failed. */
  predicate Settles(answer: VerifyResponse) { answer.Granted? || answer.NotVerified? }

  lemma RejectedCases(c: Catalog, db: Db, q: VerifyRequest, v: Verification, now: Time)
    requires Verify(c, db, q, v, now).1.NotVerified?
    ensures q.provider.Some? && q.learner == q.caller
    ensures var found := First(TransactionsOf(db, q.provider.value, q.externalId));
            Verify(c, db, q, v, now) ==
            if found.Some? then (db, Replay(db, found.value, q.caller))
              else (Failed(db, q, q.provider.value), NotVerified)
  {
  }

  /** After an answer that settles it the transaction is on record, and its record gives the same
      answer. */
  lemma AnswerIsOnRecord(c: Catalog, db: Db, q: VerifyRequest, v: Verification, now: Time) returns (t: Id)
    requires Structure(c, db) && Settles(Verify(c, db, q, v, now).1)
    ensures var (after, answer) := Verify(c, db, q, v, now);
            && q.provider.Some? && q.learner == q.caller && t in after.transactions
            && after.transactions[t].provider == q.provider.value && after.transactions[t].externalId == q.externalId
            && answer == Replay(after, t, q.caller)
  {
    if Verify(c, db, q, v, now).1.NotVerified? {
      RejectedCases(c, db, q, v, now);
      var found := First(TransactionsOf(db, q.provider.value, q.externalId));
      t := if found.Some? then found.value else db.next;
    } else {
      t := GrantIsOnRecord(c, db, q, v, now);
    }
  }

  lemma GrantIsOnRecord(c: Catalog, db: Db, q: VerifyRequest, v: Verification, now: Time) returns (t: Id)
    requires Structure(c, db) && Verify(c, db, q, v, now).1.Granted?
    ensures var (after, answer) := Verify(c, db, q, v, now);
            && q.provider.Some? && q.learner == q.caller && t in after.transactions
            && after.transactions[t].provider == q.provider.value && after.transactions[t].externalId == q.externalId
            && answer == Replay(after, t, q.caller)
  {
    var r, o := GrantedCases(c, db, q, v, now);
    var found := First(TransactionsOf(db, q.provider.value, q.externalId));
    if found.Some? {
      t := found.value;
    } else {
      FreshAnswer(c, db, q, v, now, r, o);
      t := r.next;
    }
  }

  lemma RecordAnswers(c: Catalog, db: Db, t: Id, q: VerifyRequest, v: Verification, now: Time)
    requires OneRowEach(db) && t in db.transactions && q.learner == q.caller
    requires q.provider == Some(db.transactions[t].provider) && q.externalId == db.transactions[t].externalId
    ensures Verify(c, db, q, v, now) == (db, Replay(db, t, q.caller))
  {
    var found := First(TransactionsOf(db, q.provider.value, q.externalId));
    assert t in TransactionsOf(db, q.provider.value, q.externalId);
    assert SameExternal(db.transactions[found.value], db.transactions[t]);
  }

  /** A replay changes nothing and returns the same answer, the same ids or the same failure, whatever
      requests came in between and whatever the provider says this time; any other learner is refused
      and changes nothing. */
  lemma ReplayChangesNothing(c: Catalog, db: Db, q: VerifyRequest, v: Verification, now: Time, ops: seq<Op>,
                             again: VerifyRequest, v2: Verification, now2: Time)
    requires Structure(c, db) && Settles(Verify(c, db, q, v, now).1)
    requires again.provider == q.provider && again.externalId == q.externalId && again.learner == again.caller
    ensures var (after, answer) := Verify(c, db, q, v, now);
            var later := Run(c, after, ops);
            Verify(c, later, again, v2, now2) ==
                (later, if again.caller == q.caller then answer else Failure(OwnershipConflict))
  {
    var (after, answer) := Verify(c, db, q, v, now);
    var t := AnswerIsOnRecord(c, db, q, v, now);
    VerifyKeeps(c, db, q, v, now);
    RunKeepsReplay(c, after, ops, t, q.caller);
    RunKeepsReplay(c, after, ops, t, again.caller);
    RunKeepsRow(c, after, ops, t);
    RecordAnswers(c, Run(c, after, ops), t, again, v2, now2);
  }

  /** In every reachable state an administrator's request leaves every entitlement of a purchase or a
      subscription as it is: only grants of administrators are added, extended or revoked. */
  lemma ManualEditsSparePaidRows(c: Catalog, start: Db, ops: seq<Op>, op: Op, e: Id)
    requires Initial(start) && (op.DoGrant? || op.DoExtend? || op.DoRevoke?) && e in Run(c, start, ops).entitlements
    requires var ent := Run(c, start, ops).entitlements[e]; ent.purchase.Some? || ent.subscription.Some?
    ensures var db := Run(c, start, ops); var after := Step(c, db, op);
            e in after.entitlements && after.entitlements[e] == db.entitlements[e]
  {
    EveryRunIsSafe(c, start, ops);
    EditsSparePaidRows(c, Run(c, start, ops), op, e);
  }

  lemma EditsSparePaidRows(c: Catalog, db: Db, op: Op, e: Id)
    requires Below(db) && AllWellLinked(db) && (op.DoGrant? || op.DoExtend? || op.DoRevoke?) && e in db.entitlements
    requires db.entitlements[e].purchase.Some? || db.entitlements[e].subscription.Some?
    ensures var after := Step(c, db, op); e in after.entitlements && after.entitlements[e] == db.entitlements[e]
  {
    assert WellLinked(db, db.entitlements[e]);
  }

  lemma VerifyKeepsRow(c: Catalog, db: Db, q: VerifyRequest, v: Verification, now: Time, t: Id)
    requires Below(db) && t in db.transactions
    ensures t in Verify(c, db, q, v, now).0.transactions &&
            Verify(c, db, q, v, now).0.transactions[t] == db.transactions[t]
  {
    var r, o := VerifyCases(c, db, q, v, now);
    if Fulfils(c, db, q, v, now, r, o) {
      RedeemedCouples(db, q, o.id, now, r);
      FulfilGrows(c, r, q, q.provider.value, o, v, now);
    }
  }

  lemma StepKeepsRow(c: Catalog, db: Db, op: Op, t: Id)
    requires Structure(c, db) && t in db.transactions
    ensures t in Step(c, db, op).transactions && Step(c, db, op).transactions[t] == db.transactions[t]
  {
    if op.DoVerify? {
      VerifyKeepsRow(c, db, op.request, op.verification, op.now, t);
    } else if op.DoGrant? {
      var ent := GrantStep(c, db, op);
    } else {
      StepShape(c, db, op);
    }
  }

  lemma {:induction false} RunKeepsRow(c: Catalog, db: Db, ops: seq<Op>, t: Id)
    requires Structure(c, db) && t in db.transactions
    ensures Structure(c, Run(c, db, ops))
    ensures t in Run(c, db, ops).transactions && Run(c, db, ops).transactions[t] == db.transactions[t]
  {
    if ops != [] {
      var before := Run(c, db, ops[..|ops| - 1]);
      RunKeepsRow(c, db, ops[..|ops| - 1], t);
      StepKeeps(c, before, ops[|ops| - 1]);
      StepKeepsRow(c, before, ops[|ops| - 1], t);
    }
  }
}
