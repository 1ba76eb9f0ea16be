/** The commerce requests as they run: rows are assigned in place, entitlements one at a time, and a
    refused request rolls its writes back. Each is proved to make exactly the step of the model. */
module CommerceStore {
  import opened Common
  import opened CommerceModel

  lemma OneMore(learner: string, source: Source, courses: seq<Option<string>>, course: Option<string>, purchase: Id,
                now: Time, first: Id)
    ensures GrantEach(learner, source, courses + [course], purchase, now, first) ==
            GrantEach(learner, source, courses, purchase, now,
                      first)[first + |courses| := Perpetual(learner, source, course, purchase, now)]
  {
    assert (courses + [course])[..|courses|] == courses;
  }

  lemma OnlyOne(learner: string, source: Source, course: Option<string>, purchase: Id, now: Time, first: Id)
    ensures GrantEach(learner, source, [course], purchase, now, first) ==
            map[first := Perpetual(learner, source, course, purchase, now)]
  {
    OneMore(learner, source, [], course, purchase, now, first);
    assert [] + [course] == [course];
  }

  /** A purchase writes its own row and the given entitlement rows. */
  lemma BuyWrites(db: Db, q: VerifyRequest, id: string, kind: PurchaseKind, courses: seq<Option<string>>, now: Time,
                  rows: map<Id, Entitlement>)
    requires rows == GrantEach(q.caller, if kind == CoursePurchase then Purchased else Bundled, courses, db.next + 1,
                               now, db.next + 2)
    ensures Buy(db, q, id, kind, courses, now) ==
            (db.(purchases := db.purchases[db.next + 1 := Purchase(q.caller, id, kind, db.next, Completed)],
                 entitlements := db.entitlements + rows, next := db.next + 2 + |courses|),
             Granted(Some(db.next + 1), None, rows.Keys))
  {
  }

  lemma MergeOne<V>(m: map<Id, V>, rows: map<Id, V>, e: Id, row: V)
    ensures (m + rows)[e := row] == m + rows[e := row]
  {
  }

  lemma OneMoreWrapped(ids: seq<string>, i: nat)
    requires i < |ids|
    ensures Wrapped(ids[..i + 1]) == Wrapped(ids[..i]) + [Some(ids[i])]
  {
    assert ids[..i + 1][..i] == ids[..i];
  }

  function BundleRows(learner: string, courses: seq<string>, purchase: Id, now: Time, first: Id): map<Id, Entitlement>
  {
    GrantEach(learner, Bundled, Wrapped(courses), purchase, now, first)
  }

  lemma NoRows(learner: string, courses: seq<string>, purchase: Id, now: Time, first: Id)
    ensures BundleRows(learner, courses[..0], purchase, now, first) == map[]
  {
    assert courses[..0] == [];
  }

  lemma OneMoreRow(learner: string, courses: seq<string>, i: nat, purchase: Id, now: Time, first: Id)
    requires i < |courses|
    ensures BundleRows(learner, courses[..i + 1], purchase, now, first) ==
            BundleRows(learner, courses[..i], purchase, now,
                       first)[first + i := Perpetual(learner, Bundled, Some(courses[i]), purchase, now)]
  {
    WrappedLength(courses[..i]);
    OneMoreWrapped(courses, i);
    OneMore(learner, Bundled, Wrapped(courses[..i]), Some(courses[i]), purchase, now, first);
  }

  lemma {:induction false} WrappedLength(ids: seq<string>)
    ensures |Wrapped(ids)| == |ids|
  {
    if ids != [] {
      WrappedLength(ids[..|ids| - 1]);
    }
  }

  class Store {
    const catalog: Catalog
    var transactions: map<Id, Transaction>
    var purchases: map<Id, Purchase>
    var subscriptions: map<Id, Subscription>
    var entitlements: map<Id, Entitlement>
    var coupons: map<string, Coupon>
    var redemptions: set<(string, string)>
    var events: map<(Provider, string), EventStatus>
    var next: Id

    constructor (c: Catalog, coupons: map<string, Coupon>)
      ensures catalog == c && State() == Db(map[], map[], map[], map[], coupons, {}, map[], 0)
    {
      catalog := c;
      transactions, purchases, subscriptions, entitlements := map[], map[], map[], map[];
      this.coupons, redemptions, events, next := coupons, {}, map[], 0;
    }

    function State(): Db
      reads this
    {
      Db(transactions, purchases, subscriptions, entitlements, coupons, redemptions, events, next)
    }

    method Rollback(saved: Db)
      modifies this
      ensures State() == saved
    {
      transactions, purchases, subscriptions, entitlements :=
        saved.transactions, saved.purchases, saved.subscriptions, saved.entitlements;
      coupons, redemptions, events, next := saved.coupons, saved.redemptions, saved.events, saved.next;
    }

    method NewId() returns (id: Id)
      modifies `next
      ensures id == old(next) && next == id + 1
    {
      id := next;
      next := next + 1;
    }

    // -------------------------------------------------------------------------------------
    // Transactions
    // -------------------------------------------------------------------------------------

    method VerifyTransaction(q: VerifyRequest, v: Verification, now: Time) returns (r: VerifyResponse)
      modifies this
      ensures (State(), r) == Verify(catalog, old(State()), q, v, now)
    {
      if q.learner != q.caller { return Failure(Forbidden); }
      if q.provider.None? { return Failure(UnsupportedProvider); }
      var p := q.provider.value;
      var existing := First(TransactionsOf(State(), p, q.externalId));
      if existing.Some? { return Replay(State(), existing.value, q.caller); }
      var saved := State();
      if v.Rejected? {
        var failed := NewId();
        transactions := transactions[failed := Transaction(q.caller, p, q.externalId, false)];
        return NotVerified;
      }
      var offer := Resolve(catalog, p, v.product);
      if offer.None? { return Failure(UnknownProduct); }
      if !IsActive(offer.value) { return Failure(InactiveProduct); }
      var redeemed := RedeemCoupon(q.coupon, q.caller, offer.value.id, now);
      if !redeemed { return Failure(CouponReused); }
      r := FulfilOffer(q, p, offer.value, v, now);
      if r.Failure? { Rollback(saved); }
    }

    method RedeemCoupon(code: Option<string>, learner: string, product: string, now: Time) returns (ok: bool)
      modifies `coupons, `redemptions
      ensures match Redeem(old(State()), code, learner, product, now)
              case Ok(after) => ok && State() == after
              case Err(e) => !ok && e == CouponReused && State() == old(State())
    {
      ok := true;
      if code.Some? && code.value in coupons && CouponValid(coupons[code.value], product, now) {
        if (code.value, learner) in redemptions { return false; }
        var c := coupons[code.value];
        coupons := coupons[code.value := c.(count := c.count + 1)];
        redemptions := redemptions + {(code.value, learner)};
      }
    }

    /** Writes before it refuses: the caller rolls back. */
    method FulfilOffer(q: VerifyRequest, p: Provider, o: Offer, v: Verification, now: Time) returns (r: VerifyResponse)
      requires v.Verified?
      modifies this
      ensures match Fulfil(catalog, old(State()), q, p, o, v, now)
              case Ok(done) => (State(), r) == done && r.Granted?
              case Err(code) => r == Failure(code)
    {
      transactions := transactions[next := Transaction(q.caller, p, q.externalId, true)];
      match o
      case PlanOffer(id, plan) =>
        r := StartSubscription(q, p, id, plan, v, now);
      case CourseOffer(id, product) =>
        r := BuyCourse(q, id, product.course, now);
      case BundleOffer(id, product) =>
        if product.courses == [] { return Failure(EmptyBundle); }
        if exists i :: 0 <= i < |product.courses| && product.courses[i] !in catalog.courses {
          return Failure(InvalidBundle);
        }
        r := BuyBundle(q, id, Distinct(product.courses), now);
    }

    method StartSubscription(q: VerifyRequest, p: Provider, id: string, plan: Plan, v: Verification, now: Time)
      returns (r: VerifyResponse)
      requires v.Verified?
      modifies `subscriptions, `entitlements, `next
      ensures (State(), r) == Subscribe(old(State()), q, p, id, plan, v, now)
    {
      var t := NewId();
      var end := if v.expiration.Some? then v.expiration.value else PeriodEnd(plan.annual, now);
      var s := NewId();
      subscriptions := subscriptions[s :=
        Subscription(q.caller, p, id, if v.trial then Trialing else Active, end, end, false, q.externalId, q.externalId,
                     None)];
      var e := NewId();
      entitlements := entitlements[e :=
        Entitlement(q.caller, if v.trial then Trial else Subscribed, EntActive, None, None, now, Some(end), None, None,
                    Some(s), 1)];
      r := Granted(None, Some(s), {e});
    }

    method BuyCourse(q: VerifyRequest, id: string, course: Option<string>, now: Time) returns (r: VerifyResponse)
      modifies `purchases, `entitlements, `next
      ensures (State(), r) == Buy(old(State()), q, id, CoursePurchase, [course], now)
    {
      var t := NewId();
      var b := NewId();
      purchases := purchases[b := Purchase(q.caller, id, CoursePurchase, t, Completed)];
      var e := NewId();
      var row := Perpetual(q.caller, Purchased, course, b, now);
      entitlements := entitlements[e := row];
      OnlyOne(q.caller, Purchased, course, b, now, e);
      assert entitlements == old(entitlements) + map[e := row] && {e} == map[e := row].Keys;
      r := Granted(Some(b), None, {e});
      BuyWrites(old(State()), q, id, CoursePurchase, [course], now, map[e := row]);
    }

    method BuyBundle(q: VerifyRequest, id: string, courses: seq<string>, now: Time) returns (r: VerifyResponse)
      modifies `purchases, `entitlements, `next
      ensures (State(), r) == Buy(old(State()), q, id, BundlePurchase, Wrapped(courses), now)
    {
      var t := NewId();
      var b := NewId();
      purchases := purchases[b := Purchase(q.caller, id, BundlePurchase, t, Completed)];
      var granted := GrantCourses(q.caller, courses, b, now);
      r := Granted(Some(b), None, granted);
    }

    method GrantCourse(learner: string, course: Option<string>, purchase: Id, now: Time) returns (e: Id)
      modifies `entitlements, `next
      ensures e == old(next) && next == e + 1 &&
              entitlements == old(entitlements)[e := Perpetual(learner, Bundled, course, purchase, now)]
    {
      e := NewId();
      entitlements := entitlements[e := Perpetual(learner, Bundled, course, purchase, now)];
    }

    /** One entitlement row per course of a bundle. */
    method GrantCourses(learner: string, courses: seq<string>, purchase: Id, now: Time) returns (granted: set<Id>)
      modifies `entitlements, `next
      ensures next == old(next) + |Wrapped(courses)|
      ensures entitlements == old(entitlements) + GrantEach(learner, Bundled, Wrapped(courses), purchase, now,
                                                            old(next))
      ensures granted == GrantEach(learner, Bundled, Wrapped(courses), purchase, now, old(next)).Keys
    {
      ghost var before, first := entitlements, next;
      ghost var rows: map<Id, Entitlement> := map[];
      granted := {};
      NoRows(learner, courses, purchase, now, first);
      for i := 0 to |courses|
        invariant next == first + i && granted == rows.Keys && entitlements == before + rows
        invariant rows == BundleRows(learner, courses[..i], purchase, now, first)
      {
        var e := GrantCourse(learner, Some(courses[i]), purchase, now);
        granted := granted + {e};
        OneMoreRow(learner, courses, i, purchase, now, first);
        MergeOne(before, rows, e, Perpetual(learner, Bundled, Some(courses[i]), purchase, now));
        rows := rows[e := Perpetual(learner, Bundled, Some(courses[i]), purchase, now)];
      }
      assert courses[..|courses|] == courses;
      WrappedLength(courses);
    }

    // -------------------------------------------------------------------------------------
    // Provider webhooks and reconciliation
    // -------------------------------------------------------------------------------------

    /** Change entitlements row by row. */
    method ChangeEach(ids: set<Id>, c: Change)
      requires ids <= entitlements.Keys
      modifies `entitlements
      ensures entitlements == ChangeAll(old(entitlements), ids, c)
    {
      var todo := ids;
      while todo != {}
        invariant todo <= ids && entitlements == ChangeAll(old(entitlements), ids - todo, c)
        decreases todo
      {
        var e :| e in todo;
        todo := todo - {e};
        entitlements := entitlements[e := Changed(entitlements[e], c)];
      }
    }

    method ProcessWebhook(e: Event, now: Time, hint: Id) returns (r: WebhookResponse)
      modifies this
      ensures (State(), r) == Webhook(old(State()), e, now, hint)
    {
      if e.provider.None? { return Refused(UnsupportedProvider); }
      if e.kind.None? { return Refused(UnsupportedEvent); }
      var p, kind := e.provider.value, e.kind.value;
      if (p, e.id) in events { return AlreadySeen; }
      var matches := Candidates(State(), p, e);
      if |matches| > 1 { return Refused(AmbiguousTransaction); }
      events := events[(p, e.id) := Processed];
      var found := First(matches);
      if found.Some? {
        var s := found.value;
        if subscriptions[s].updatedAt.Some? && e.effective < subscriptions[s].updatedAt.value {
          events := events[(p, e.id) := Ignored];
          assert events == old(events)[(p, e.id) := Ignored];
          return OutOfOrder;
        }
        UpdateSubscription(s, kind, e, now);
      } else {
        var purchase := Pick(PurchaseMatches(State(), p, e), hint);
        if purchase.Some? && kind == Refund {
          purchases := purchases[purchase.value := purchases[purchase.value].(status := Refunded)];
          ChangeEach(BoughtBy(State(), purchase.value), Revoke(now));
        } else {
          events := events[(p, e.id) := Ignored];
          assert events == old(events)[(p, e.id) := Ignored];
        }
      }
      r := Done;
    }

    method UpdateSubscription(s: Id, kind: EventKind, e: Event, now: Time)
      requires s in subscriptions
      modifies `subscriptions, `entitlements
      ensures State() == ApplyToSubscription(old(State()), s, kind, e, now)
    {
      var sub := subscriptions[s].(updatedAt := Some(e.effective));
      var links := LinkedTo(State(), s);
      match kind {
        case Renewal =>
          sub := sub.(status := Active, periodEnd := if e.expiration.Some? then e.expiration.value else now + 30 * DAY);
          sub := sub.(renewsAt := sub.periodEnd);
          ChangeEach(links, Renew(sub.periodEnd));
        case Expiration =>
          sub := sub.(status := Expired);
          ChangeEach(links, Lapse);
        case GracePeriod =>
          sub := sub.(status := InGrace);
          ChangeEach(links, Defer);
        case Retry =>
          sub := sub.(status := BillingRetry);
        case Cancellation =>
          sub := sub.(cancelAtEnd := true);
        case Refund =>
          sub := sub.(status := Revoked);
          ChangeEach(links, Revoke(now));
      }
      assert entitlements == ChangeAll(old(entitlements), links, ChangeFor(kind, sub.periodEnd, now));
      subscriptions := subscriptions[s := sub];
    }

    method ReconcileExpired(now: Time) returns (count: nat)
      modifies `subscriptions, `entitlements
      ensures State() == Reconcile(old(State()), now) && count == |Lapsing(old(State()), now)|
    {
      var links := LapsingLinks(State(), now);
      count := ExpireEach(Lapsing(State(), now));
      ChangeEach(links, Lapse);
    }

    method ExpireEach(lapsing: set<Id>) returns (count: nat)
      requires lapsing <= subscriptions.Keys
      modifies `subscriptions
      ensures subscriptions == ExpireAll(old(subscriptions), lapsing) && count == |lapsing|
    {
      var todo := lapsing;
      count := 0;
      while todo != {}
        invariant todo <= lapsing && count == |lapsing| - |todo|
        invariant subscriptions == ExpireAll(old(subscriptions), lapsing - todo)
        decreases todo
      {
        var s :| s in todo;
        todo := todo - {s};
        subscriptions := subscriptions[s := subscriptions[s].(status := Expired)];
        count := count + 1;
      }
    }

    // -------------------------------------------------------------------------------------
    // Requests of learners and administrators
    // -------------------------------------------------------------------------------------

    method CancelSubscription(learner: string, s: Id, development: bool) returns (refusal: Option<Code>)
      modifies `subscriptions
      ensures State() == Committed(old(State()), Cancel(old(State()), learner, s, development))
      ensures refusal.None? <==> Cancel(old(State()), learner, s, development).Ok?
    {
      refusal := Managed(State(), learner, s, development);
      if refusal.None? {
        subscriptions := subscriptions[s := subscriptions[s].(cancelAtEnd := true)];
      }
    }

    method ChangeSubscriptionPlan(learner: string, s: Id, plan: string, now: Time, development: bool)
      returns (refusal: Option<Code>)
      modifies `subscriptions, `entitlements
      ensures State() == Committed(old(State()), ChangePlan(catalog, old(State()), learner, s, plan, now, development))
      ensures refusal.None? <==> ChangePlan(catalog, old(State()), learner, s, plan, now, development).Ok?
    {
      refusal := Managed(State(), learner, s, development);
      if refusal.Some? { return; }
      if plan !in catalog.plans || !catalog.plans[plan].active { return Some(NotFound); }
      var end := PeriodEnd(catalog.plans[plan].annual, now);
      var active := First(ActiveLinks(State(), s));
      var sub := subscriptions[s].(plan := plan, periodEnd := end, renewsAt := end, cancelAtEnd := false);
      subscriptions := subscriptions[s := sub];
      if active.Some? {
        entitlements := entitlements[active.value := entitlements[active.value].(expiresAt := Some(end))];
      }
    }

    method GrantEntitlement(learner: string, known: bool, kind: Option<ResourceType>, resource: Option<string>,
                            expires: Option<Time>, now: Time) returns (refusal: Option<Code>)
      modifies `entitlements, `next
      ensures State() == Committed(old(State()), Grant(old(State()), learner, known, kind, resource, expires, now))
      ensures refusal.None? <==> Grant(old(State()), learner, known, kind, resource, expires, now).Ok?
    {
      if !known { return Some(NotFound); }
      if expires.Some? && expires.value <= now { return Some(InvalidExpiry); }
      var e := NewId();
      var item := Entitlement(learner, AdminGrant, EntActive, kind, resource, now, expires, None, None, None, 1);
      entitlements := entitlements[e := item];
      refusal := None;
    }

    method ExtendEntitlement(e: Id, version: nat, expires: Option<Time>, now: Time) returns (refusal: Option<Code>)
      modifies `entitlements
      ensures State() == Committed(old(State()), Extend(old(State()), e, version, expires, now))
      ensures refusal.None? <==> Extend(old(State()), e, version, expires, now).Ok?
    {
      if expires.None? || expires.value <= now { return Some(InvalidExpiry); }
      refusal := Editable(State(), e, version);
      if refusal.None? {
        var item := entitlements[e].(expiresAt := expires);
        entitlements := entitlements[e := item.(version := item.version + 1)];
      }
    }

    method RevokeEntitlement(e: Id, version: nat, now: Time) returns (refusal: Option<Code>)
      modifies `entitlements
      ensures State() == Committed(old(State()), RevokeGrant(old(State()), e, version, now))
      ensures refusal.None? <==> RevokeGrant(old(State()), e, version, now).Ok?
    {
      refusal := Editable(State(), e, version);
      if refusal.None? {
        var item := entitlements[e].(status := EntRevoked, revokedAt := Some(now));
        entitlements := entitlements[e := item.(version := item.version + 1)];
      }
    }
  }
}
