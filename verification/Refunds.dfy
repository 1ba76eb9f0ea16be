/** Which provider events refund a purchase, told from the fields of the event and of the rows. */
module Refunds {
  import opened Common
  import opened CommerceModel
  import opened CommerceInvariants
  import opened CommerceRuns

  /** The event carries the subscription's first or latest transaction, from the same provider. */
  predicate NamesSubscription(e: Event, sub: Subscription)
  {
    && e.provider == Some(sub.provider)
    && (|| (sub.original != "" && (e.transaction == sub.original || e.original == Some(sub.original)))
        || (sub.latest != "" && (e.transaction == sub.latest || e.original == Some(sub.latest))))
  }

  /** The event carries the transaction that paid for purchase `b`, from the same provider. */
  predicate NamesPurchase(db: Db, e: Event, b: Id)
  {
    && b in db.purchases && db.purchases[b].transaction in db.transactions
    && var tx := db.transactions[db.purchases[b].transaction];
       e.provider == Some(tx.provider) && (e.transaction == tx.externalId || e.original == Some(tx.externalId))
  }

  /** A refund or revocation that is not on record and belongs to no subscription. */
  ghost predicate IsPurchaseRefund(db: Db, e: Event)
  {
    && e.provider.Some? && e.kind == Some(Refund) && (e.provider.value, e.id) !in db.events
    && forall s :: s in db.subscriptions ==> !NamesSubscription(e, db.subscriptions[s])
  }

  /** Of several purchases the event names, the database answers with one: the row it happens to meet
      first, `hint`, or else the oldest. */
  ghost predicate ComesFirst(db: Db, e: Event, hint: Id, b: Id)
  {
    b == hint || (!NamesPurchase(db, e, hint) && forall other :: NamesPurchase(db, e, other) ==> b <= other)
  }

  ghost predicate RefundsPurchase(db: Db, op: Op, b: Id)
  {
    && op.DoWebhook? && IsPurchaseRefund(db, op.event)
    && NamesPurchase(db, op.event, b) && ComesFirst(db, op.event, op.hint, b)
  }

  function RefundedIf(b: Purchase, refunds: bool): Purchase
  {
    if refunds then b.(status := Refunded) else b
  }

  function RevokedIf(ent: Entitlement, revokes: bool, now: Time): Entitlement
  {
    if revokes then ent.(status := EntRevoked, revokedAt := Some(now)) else ent
  }

  lemma NamedSubscriptions(db: Db, p: Provider, e: Event)
    requires e.provider == Some(p)
    ensures Candidates(db, p, e) == {} <==>
            forall s :: s in db.subscriptions ==> !NamesSubscription(e, db.subscriptions[s])
  {
    forall s | s in db.subscriptions
      ensures s in Candidates(db, p, e) <==> NamesSubscription(e, db.subscriptions[s]) {}
  }

  lemma NamedPurchases(db: Db, p: Provider, e: Event, hint: Id, b: Id)
    requires e.provider == Some(p)
    ensures forall x :: x in PurchaseMatches(db, p, e) <==> NamesPurchase(db, e, x)
    ensures Pick(PurchaseMatches(db, p, e), hint) == Some(b) <==> NamesPurchase(db, e, b) && ComesFirst(db, e, hint, b)
  {
    var named := PurchaseMatches(db, p, e);
    forall x ensures x in named <==> NamesPurchase(db, e, x) {}
    if hint !in named { OldestFirst(named, b); }
  }

  lemma OldestFirst(s: set<Id>, b: Id)
    ensures First(s) == Some(b) <==> b in s && forall x :: x in s ==> b <= x
  {
  }

  /** What a webhook does to purchase `b` and its entitlements. */
  lemma WebhookOnPurchase(db: Db, op: Op, b: Id)
    requires op.DoWebhook? && b in db.purchases && AllWellLinked(db)
    ensures var after := Webhook(db, op.event, op.now, op.hint).0;
            && b in after.purchases
            && after.purchases[b] == RefundedIf(db.purchases[b], RefundsPurchase(db, op, b))
            && forall i :: OfPurchase(db, i, b) ==>
                 i in after.entitlements &&
                 after.entitlements[i] == RevokedIf(db.entitlements[i], RefundsPurchase(db, op, b), op.now)
  {
    var e := op.event;
    forall i | OfPurchase(db, i, b) ensures db.entitlements[i].subscription.None? {
      assert WellLinked(db, db.entitlements[i]);
    }
    if e.provider.Some? {
      NamedSubscriptions(db, e.provider.value, e);
      NamedPurchases(db, e.provider.value, e, op.hint, b);
      WebhookCases(db, op, b);
    }
  }

  /** The same in terms of the lookups. */
  lemma WebhookCases(db: Db, op: Op, b: Id)
    requires op.DoWebhook? && op.event.provider.Some? && b in db.purchases
    requires forall i :: OfPurchase(db, i, b) ==> db.entitlements[i].subscription.None?
    ensures var e, p := op.event, op.event.provider.value; var after := Webhook(db, e, op.now, op.hint).0;
            var refunds := e.kind == Some(Refund) && (p, e.id) !in db.events && Candidates(db, p, e) == {} &&
                           Pick(PurchaseMatches(db, p, e), op.hint) == Some(b);
            && b in after.purchases
            && after.purchases[b] == RefundedIf(db.purchases[b], refunds)
            && forall i :: OfPurchase(db, i, b) ==>
                 i in after.entitlements && after.entitlements[i] == RevokedIf(db.entitlements[i], refunds, op.now)
  {
    var e, p := op.event, op.event.provider.value;
    if e.kind.Some? && (p, e.id) !in db.events && |Candidates(db, p, e)| <= 1 {
      if Candidates(db, p, e) != {} {
        var status := WebhookOnOne(db, e, op.now, op.hint);
        SubscriptionSparesPurchase(db, First(Candidates(db, p, e)).value, e, op.now, b);
      } else {
        var status := WebhookOnNone(db, e, op.now, op.hint);
        if Pick(PurchaseMatches(db, p, e), op.hint).Some? {
          RefundOfOne(db, Pick(PurchaseMatches(db, p, e), op.hint).value, op.now, b);
        }
      }
    }
  }

  lemma WebhookOnOne(db: Db, e: Event, now: Time, hint: Id) returns (status: EventStatus)
    requires e.provider.Some? && e.kind.Some? && (e.provider.value, e.id) !in db.events
    requires var subs := Candidates(db, e.provider.value, e); subs != {} && |subs| <= 1
    ensures var s := First(Candidates(db, e.provider.value, e)).value;
            var rows := if Stale(db.subscriptions[s], e) then db
                        else ApplyToSubscription(db, s, e.kind.value, e, now);
            Webhook(db, e, now, hint).0 == Recorded(rows, e.provider.value, e, status)
  {
    status := if Stale(db.subscriptions[First(Candidates(db, e.provider.value, e)).value], e) then Ignored
              else Processed;
  }

  lemma WebhookOnNone(db: Db, e: Event, now: Time, hint: Id) returns (status: EventStatus)
    requires e.provider.Some? && e.kind.Some? && (e.provider.value, e.id) !in db.events
    requires Candidates(db, e.provider.value, e) == {}
    ensures var picked := Pick(PurchaseMatches(db, e.provider.value, e), hint);
            var rows := if picked.Some? && e.kind.value == Refund then ApplyRefund(db, picked.value, now) else db;
            Webhook(db, e, now, hint).0 == Recorded(rows, e.provider.value, e, status)
  {
    status := if Pick(PurchaseMatches(db, e.provider.value, e), hint).Some? && e.kind.value == Refund then Processed
              else Ignored;
  }

  lemma SubscriptionSparesPurchase(db: Db, s: Id, e: Event, now: Time, b: Id)
    requires e.kind.Some? && s in db.subscriptions
    requires forall i :: OfPurchase(db, i, b) ==> db.entitlements[i].subscription.None?
    ensures var after := ApplyToSubscription(db, s, e.kind.value, e, now);
            && after.purchases == db.purchases
            && forall i :: OfPurchase(db, i, b) ==>
               i in after.entitlements && after.entitlements[i] == db.entitlements[i]
  {
    assert forall i :: OfPurchase(db, i, b) ==> i !in LinkedTo(db, s);
  }

  lemma RefundOfOne(db: Db, paid: Id, now: Time, b: Id)
    requires paid in db.purchases && b in db.purchases
    ensures var after := ApplyRefund(db, paid, now);
            && b in after.purchases && after.purchases[b] == RefundedIf(db.purchases[b], paid == b)
            && forall i :: OfPurchase(db, i, b) ==>
                 i in after.entitlements && after.entitlements[i] == RevokedIf(db.entitlements[i], paid == b, now)
  {
    assert forall i :: OfPurchase(db, i, b) ==> (i in BoughtBy(db, paid) <==> paid == b);
  }

  /** A verification adds rows and changes none. */
  lemma VerifySparesRows(c: Catalog, db: Db, q: VerifyRequest, v: Verification, now: Time)
    requires Below(db)
    ensures var after := Verify(c, db, q, v, now).0;
            && (forall b :: b in db.purchases ==> b in after.purchases && after.purchases[b] == db.purchases[b])
            && (forall i :: i in db.entitlements ==>
                i in after.entitlements && after.entitlements[i] == db.entitlements[i])
  {
    var r, o := VerifyCases(c, db, q, v, now);
    if Fulfils(c, db, q, v, now, r, o) {
      RedeemedCouples(db, q, o.id, now, r);
      RedeemSpares(db, q, o.id, now, r);
      FulfilGrows(c, r, q, q.provider.value, o, v, now);
    }
  }

  lemma InPlaceSparesPurchases(c: Catalog, db: Db, op: Op, b: Id)
    requires AllWellLinked(db) && b in db.purchases
    requires op.DoCancel? || op.DoChangePlan? || op.DoExtend? || op.DoRevoke?
    ensures var after := Step(c, db, op);
            && after.purchases == db.purchases
            && forall i :: OfPurchase(db, i, b) ==>
               i in after.entitlements && after.entitlements[i] == db.entitlements[i]
  {
    var i, ent := InPlace(c, db, op);
    forall j | OfPurchase(db, j, b)
      ensures db.entitlements[j].subscription.None? && db.entitlements[j].source != AdminGrant
    {
      assert WellLinked(db, db.entitlements[j]);
    }
  }

  lemma ReconcileSparesPurchases(db: Db, now: Time, b: Id)
    requires AllWellLinked(db)
    ensures var after := Reconcile(db, now);
            && after.purchases == db.purchases
            && forall i :: OfPurchase(db, i, b) ==>
               i in after.entitlements && after.entitlements[i] == db.entitlements[i]
  {
    forall j | OfPurchase(db, j, b) ensures db.entitlements[j].subscription.None? {
      assert WellLinked(db, db.entitlements[j]);
    }
  }

  /** Over every request: a purchase and its entitlements change exactly when the request is an event
      that refunds it. Then the purchase is refunded and every one of its entitlements revoked. */
  lemma OnlyRefundsTouchPurchases(c: Catalog, db: Db, op: Op, b: Id)
    requires Below(db) && AllWellLinked(db) && b in db.purchases
    ensures var after := Step(c, db, op);
            && b in after.purchases
            && after.purchases[b] == RefundedIf(db.purchases[b], RefundsPurchase(db, op, b))
            && (forall i :: OfPurchase(db, i, b) && !RefundsPurchase(db, op, b) ==>
                  i in after.entitlements && after.entitlements[i] == db.entitlements[i])
            && (forall i :: OfPurchase(db, i, b) && RefundsPurchase(db, op, b) ==>
                  i in after.entitlements && after.entitlements[i].status == EntRevoked &&
                      after.entitlements[i].revokedAt == Some(op.now))
  {
    match op {
      case DoVerify(q, v, now) => VerifySparesRows(c, db, q, v, now);
      case DoWebhook(_, _, _) => WebhookOnPurchase(db, op, b);
      case DoReconcile(now) => ReconcileSparesPurchases(db, now, b);
      case DoGrant(_, _, _, _, _, _) => var ent := GrantStep(c, db, op);
      case _ => InPlaceSparesPurchases(c, db, op, b);
    }
  }

  /** Request `n` of the run refunds purchase `b`, which exists by then. */
  ghost predicate RefundedAt(c: Catalog, start: Db, ops: seq<Op>, n: int, b: Id)
  {
    0 <= n < |ops| && b in Run(c, start, ops[..n]).purchases && RefundsPurchase(Run(c, start, ops[..n]), ops[n], b)
  }

  lemma FulfilCompletes(c: Catalog, db: Db, q: VerifyRequest, p: Provider, o: Offer, v: Verification, now: Time, b: Id)
    requires v.Verified? && Fulfil(c, db, q, p, o, v, now).Ok? && b !in db.purchases
    requires b in Fulfil(c, db, q, p, o, v, now).value.0.purchases
    ensures Fulfil(c, db, q, p, o, v, now).value.0.purchases[b].status == Completed
  {
  }

  lemma VerifyCompletes(c: Catalog, db: Db, q: VerifyRequest, v: Verification, now: Time, b: Id)
    requires b !in db.purchases && b in Verify(c, db, q, v, now).0.purchases
    ensures Verify(c, db, q, v, now).0.purchases[b].status == Completed
  {
    var r, o := VerifyCases(c, db, q, v, now);
    if Fulfils(c, db, q, v, now, r, o) {
      RedeemSpares(db, q, o.id, now, r);
      FulfilCompletes(c, r, q, q.provider.value, o, v, now, b);
    }
  }

  /** A new purchase starts out completed. */
  lemma NewPurchasesAreCompleted(c: Catalog, db: Db, op: Op, b: Id)
    requires Structure(c, db) && b !in db.purchases && b in Step(c, db, op).purchases
    ensures Step(c, db, op).purchases[b].status == Completed
  {
    if op.DoVerify? {
      VerifyCompletes(c, db, op.request, op.verification, op.now, b);
    } else if op.DoGrant? {
      var ent := GrantStep(c, db, op);
    } else {
      StepShape(c, db, op);
    }
  }

  /** In every reachable state a purchase is refunded exactly when some earlier request was a new refund
      or revocation that named its transaction and no subscription; otherwise it is still completed. */
  lemma {:induction false} RefundedExactlyWhen(c: Catalog, start: Db, ops: seq<Op>, b: Id)
    requires Initial(start) && b in Run(c, start, ops).purchases
    ensures Run(c, start, ops).purchases[b].status == Refunded <==> exists n :: RefundedAt(c, start, ops, n, b)
  {
    if ops != [] {
      var m := |ops| - 1;
      var head := ops[..m];
      var before := Run(c, start, head);
      EveryRunIsSafe(c, start, head);
      EarlierRefunds(c, start, ops, b);
      if b in before.purchases {
        RefundedExactlyWhen(c, start, head, b);
        OnlyRefundsTouchPurchases(c, before, ops[m], b);
      } else {
        NewPurchasesAreCompleted(c, before, ops[m], b);
        forall n ensures !RefundedAt(c, start, head, n, b) { AbsentBefore(c, start, head, n, b); }
      }
    }
  }

  /** The refunds of a run are those of its front and perhaps its last request. */
  lemma EarlierRefunds(c: Catalog, start: Db, ops: seq<Op>, b: Id)
    requires ops != []
    ensures var m := |ops| - 1;
            (exists n :: RefundedAt(c, start, ops, n, b)) <==>
            (exists n :: RefundedAt(c, start, ops[..m], n, b)) || RefundedAt(c, start, ops, m, b)
  {
    var m := |ops| - 1;
    forall n | 0 <= n < m ensures RefundedAt(c, start, ops, n, b) <==> RefundedAt(c, start, ops[..m], n, b) {
      assert ops[..m][..n] == ops[..n];
    }
    if n :| RefundedAt(c, start, ops[..m], n, b) { assert RefundedAt(c, start, ops, n, b); }
    if n :| RefundedAt(c, start, ops, n, b) { assert n < m ==> RefundedAt(c, start, ops[..m], n, b); }
  }

  lemma StepKeepsPurchase(c: Catalog, start: Db, ops: seq<Op>, b: Id)
    requires Initial(start) && ops != [] && b in Run(c, start, ops[..|ops| - 1]).purchases
    ensures b in Run(c, start, ops).purchases
  {
    var before := Run(c, start, ops[..|ops| - 1]);
    EveryRunIsSafe(c, start, ops[..|ops| - 1]);
    OnlyRefundsTouchPurchases(c, before, ops[|ops| - 1], b);
  }

  /** Purchases are never deleted. */
  lemma {:induction false} NeverDeleted(c: Catalog, start: Db, ops: seq<Op>, n: nat, b: Id)
    requires Initial(start) && n <= |ops| && b in Run(c, start, ops[..n]).purchases
    ensures b in Run(c, start, ops).purchases
    decreases |ops|
  {
    if n < |ops| {
      var head := ops[..|ops| - 1];
      assert head[..n] == ops[..n];
      NeverDeleted(c, start, head, n, b);
      StepKeepsPurchase(c, start, ops, b);
    } else {
      assert ops[..n] == ops;
    }
  }

  lemma AbsentBefore(c: Catalog, start: Db, ops: seq<Op>, n: int, b: Id)
    requires Initial(start) && b !in Run(c, start, ops).purchases
    ensures !RefundedAt(c, start, ops, n, b)
  {
    if RefundedAt(c, start, ops, n, b) { NeverDeleted(c, start, ops, n, b); }
  }
}
