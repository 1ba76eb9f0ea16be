/** The commerce tables and the effect of each request on them. A request commits as one step or
    leaves every table as it was. */
module CommerceModel {
  import opened Common

  type Id = nat

  /** Seconds. */
  type Time = int

  const DAY := 86400

  datatype Provider = Apple | Google | Stripe | Mock

  datatype SubStatus = Active | Trialing | InGrace | BillingRetry | Cancelled | Paused | Expired | Revoked

  datatype EntStatus = EntActive | EntExpired | EntRevoked | EntPending | EntGrace

  datatype Source = FreeSource | Subscribed | Purchased | Bundled | Promotion | Trial | Scholarship | AdminGrant

  datatype ResourceType = CourseType | ModuleType | LessonType | AssessmentType | CertificateType | AttachmentType

  datatype PurchaseKind = CoursePurchase | BundlePurchase

  datatype PurchaseStatus = Completed | Refunded

  datatype EventStatus = Processed | Ignored

  // ---------------------------------------------------------------------------------------
  // Rows
  // ---------------------------------------------------------------------------------------

  datatype Transaction = Transaction(learner: string, provider: Provider, externalId: string, success: bool)

  datatype Purchase = Purchase(learner: string, product: string, kind: PurchaseKind, transaction: Id,
                               status: PurchaseStatus)

  datatype Subscription = Subscription(
    learner: string, provider: Provider, plan: string, status: SubStatus, periodEnd: Time, renewsAt: Time,
    cancelAtEnd: bool, original: string, latest: string, updatedAt: Option<Time>)

  datatype Entitlement = Entitlement(
    learner: string, source: Source, status: EntStatus, resourceType: Option<ResourceType>, resource: Option<string>,
    startsAt: Time, expiresAt: Option<Time>, revokedAt: Option<Time>,
    purchase: Option<Id>, subscription: Option<Id>, version: nat)

  datatype Coupon = Coupon(
    active: bool, validFrom: Time, validUntil: Option<Time>, cap: Option<nat>, count: nat, products: set<string>)

  /** Redemptions are (coupon code, learner) pairs; the pair is unique in the table. */
  datatype Db = Db(
    transactions: map<Id, Transaction>, purchases: map<Id, Purchase>, subscriptions: map<Id, Subscription>,
    entitlements: map<Id, Entitlement>, coupons: map<string, Coupon>, redemptions: set<(string, string)>,
    events: map<(Provider, string), EventStatus>, next: Id)

  datatype Plan = Plan(active: bool, annual: bool)

  datatype Product = Product(active: bool, course: Option<string>, courses: seq<string>)

  datatype Mapping = ToPlan(id: string) | ToCourse(id: string) | ToBundle(id: string) | ToOther

  /** What administrators configure; fixed while the requests below run. */
  datatype Catalog = Catalog(
    mappings: map<(Provider, string), Mapping>, plans: map<string, Plan>, products: map<string, Product>,
    courses: set<string>)

  // ---------------------------------------------------------------------------------------
  // Queries
  // ---------------------------------------------------------------------------------------

  lemma {:induction false} LeastExists(s: set<Id>) returns (least: Id)
    requires s != {}
    ensures least in s && forall j :: j in s ==> least <= j
    decreases |s|
  {
    least :| least in s;
    var rest := s - {least};
    if rest != {} {
      var m := LeastExists(rest);
      var x := least;
      if m < least { least := m; }
      assert forall j :: j in s ==> j == x || j in rest;
    } else {
      assert s == {least};
    }
  }

  /** The row a single-row query returns: the oldest of the matching ones. */
  function First(s: set<Id>): (r: Option<Id>)
    ensures r.None? <==> s == {}
    ensures r.Some? ==> r.value in s
  {
    if s == {} then None
    else
      assert exists i :: i in s && forall j :: j in s ==> i <= j by {
        var least := LeastExists(s);
      }
      var i :| i in s && forall j :: j in s ==> i <= j;
      Some(i)
  }

  function TransactionsOf(db: Db, p: Provider, ext: string): set<Id>
  {
    set t | t in db.transactions && db.transactions[t].provider == p && db.transactions[t].externalId == ext
  }

  function PurchasesOf(db: Db, t: Id): set<Id>
  {
    set p | p in db.purchases && db.purchases[p].transaction == t
  }

  /** The learner's subscriptions started or last renewed by an external transaction. */
  function SubscriptionsOf(db: Db, learner: string, p: Provider, ext: string): set<Id>
  {
    set s | s in db.subscriptions && db.subscriptions[s].learner == learner && db.subscriptions[s].provider == p &&
            (db.subscriptions[s].original == ext || db.subscriptions[s].latest == ext)
  }

  function LinkedTo(db: Db, s: Id): set<Id>
  {
    set e | e in db.entitlements && db.entitlements[e].subscription == Some(s)
  }

  function BoughtBy(db: Db, p: Id): set<Id>
  {
    set e | e in db.entitlements && db.entitlements[e].purchase == Some(p)
  }

  // ---------------------------------------------------------------------------------------
  // Verifying a transaction
  // ---------------------------------------------------------------------------------------

  datatype Code =
    | Forbidden | UnsupportedProvider | OwnershipConflict | UnknownProduct | InactiveProduct
    | EmptyBundle | InvalidBundle | CouponReused | UnsupportedEvent | AmbiguousTransaction
    | NotFound | OperationUnavailable | InvalidExpiry | ProviderOwned | StaleVersion

  datatype VerifyRequest = VerifyRequest(
    caller: string, learner: string, provider: Option<Provider>, externalId: string, coupon: Option<string>)

  /** What the payment provider says about a transaction. */
  datatype Verification = Rejected | Verified(product: string, expiration: Option<Time>, trial: bool)

  datatype VerifyResponse =
    | Failure(code: Code)
    | NotVerified
    | Granted(purchase: Option<Id>, subscription: Option<Id>, entitlements: set<Id>)

  datatype Offer = PlanOffer(id: string, plan: Plan) | CourseOffer(id: string, product: Product)
      | BundleOffer(id: string, product: Product)

  function Resolve(c: Catalog, p: Provider, store: string): Option<Offer>
  {
    if (p, store) !in c.mappings then None
    else
      match c.mappings[(p, store)]
      case ToPlan(id) => if id in c.plans then Some(PlanOffer(id, c.plans[id])) else None
      case ToCourse(id) => if id in c.products then Some(CourseOffer(id, c.products[id])) else None
      case ToBundle(id) => if id in c.products then Some(BundleOffer(id, c.products[id])) else None
      case ToOther => None
  }

  predicate IsActive(o: Offer)
  {
    if o.PlanOffer? then o.plan.active else o.product.active
  }

  /** The answer to a transaction already on record: nothing is written. */
  function Replay(db: Db, t: Id, caller: string): VerifyResponse
    requires t in db.transactions
  {
    var tx := db.transactions[t];
    if tx.learner != caller then Failure(OwnershipConflict)
    else if !tx.success then NotVerified
    else
      var purchase := First(PurchasesOf(db, t));
      var sub := First(SubscriptionsOf(db, caller, tx.provider, tx.externalId));
      Granted(purchase, sub, set e | e in db.entitlements && db.entitlements[e].learner == caller &&
        ((purchase.Some? && db.entitlements[e].purchase == purchase) ||
         (sub.Some? && db.entitlements[e].subscription == sub)))
  }

  predicate CouponValid(c: Coupon, product: string, now: Time)
  {
    && c.active && c.validFrom <= now
    && (c.validUntil.Some? ==> now < c.validUntil.value)
    && (c.cap.Some? ==> c.count < c.cap.value)
    && (c.products == {} || product in c.products)
  }

  /** A supplied, valid coupon is counted and recorded; an unusable one is ignored; a second use by
      one learner breaks the unique pair and fails the request. */
  function Redeem(db: Db, coupon: Option<string>, learner: string, product: string, now: Time): Result<Db, Code>
  {
    if coupon.None? || coupon.value !in db.coupons || !CouponValid(db.coupons[coupon.value], product, now) then Ok(db)
    else if (coupon.value, learner) in db.redemptions then Err(CouponReused)
    else
      var c := db.coupons[coupon.value];
      Ok(db.(coupons := db.coupons[coupon.value := c.(count := c.count + 1)],
             redemptions := db.redemptions + {(coupon.value, learner)}))
  }

  function PeriodEnd(annual: bool, now: Time): Time
  {
    now + (if annual then 365 else 30) * DAY
  }

  /** The list without repeats. */
  function Distinct(ids: seq<string>): seq<string>
  {
    if ids == [] then []
    else
      var front := Distinct(ids[..|ids| - 1]);
      if ids[|ids| - 1] in front then front else front + [ids[|ids| - 1]]
  }

  function Wrapped(ids: seq<string>): seq<Option<string>>
  {
    if ids == [] then [] else Wrapped(ids[..|ids| - 1]) + [Some(ids[|ids| - 1])]
  }

  function Perpetual(learner: string, source: Source, course: Option<string>, purchase: Id, now: Time): Entitlement
  {
    Entitlement(learner, source, EntActive, Some(CourseType), course, now, None, None, Some(purchase), None, 1)
  }

  /** One entitlement per course, with consecutive ids. */
  function GrantEach(learner: string, source: Source, courses: seq<Option<string>>, purchase: Id, now: Time,
                     first: Id): map<Id, Entitlement>
  {
    if courses == [] then map[]
    else
      var n := |courses| - 1;
      GrantEach(learner, source, courses[..n], purchase, now,
                first)[first + n := Perpetual(learner, source, courses[n], purchase, now)]
  }

  predicate RowsFor(m: map<Id, Entitlement>, learner: string, source: Source, courses: seq<Option<string>>,
                    purchase: Id, now: Time, first: Id)
  {
    && (forall i :: i in m ==>
        first <= i < first + |courses| && m[i] == Perpetual(learner, source, courses[i - first], purchase, now))
    && (forall i :: first <= i < first + |courses| ==> i in m)
  }

  lemma {:induction false} GrantedRows(learner: string, source: Source, courses: seq<Option<string>>, purchase: Id,
                                       now: Time, first: Id)
    ensures RowsFor(GrantEach(learner, source, courses, purchase, now, first), learner, source, courses, purchase, now,
                    first)
  {
    if courses != [] {
      var n := |courses| - 1;
      GrantedRows(learner, source, courses[..n], purchase, now, first);
    }
  }

  /** Record the transaction, the subscription or purchase, and its entitlements. */
  function Fulfil(c: Catalog, db: Db, q: VerifyRequest, p: Provider, o: Offer, v: Verification,
                  now: Time): Result<(Db, VerifyResponse), Code>
    requires v.Verified?
  {
    var t := db.next;
    var recorded := db.(transactions := db.transactions[t := Transaction(q.caller, p, q.externalId, true)]);
    match o
    case PlanOffer(id, plan) => Ok(Subscribe(recorded, q, p, id, plan, v, now))
    case CourseOffer(id, product) => Ok(Buy(recorded, q, id, CoursePurchase, [product.course], now))
    case BundleOffer(id, product) =>
      if product.courses == [] then Err(EmptyBundle)
      else if exists i :: 0 <= i < |product.courses| && product.courses[i] !in c.courses then Err(InvalidBundle)
      else Ok(Buy(recorded, q, id, BundlePurchase, Wrapped(Distinct(product.courses)), now))
  }

  function Subscribe(db: Db, q: VerifyRequest, p: Provider, id: string, plan: Plan, v: Verification,
                     now: Time): (Db, VerifyResponse)
    requires v.Verified?
  {
    var s, e := db.next + 1, db.next + 2;
    var end := if v.expiration.Some? then v.expiration.value else PeriodEnd(plan.annual, now);
    var sub := Subscription(q.caller, p, id, if v.trial then Trialing else Active, end, end, false, q.externalId,
                            q.externalId, None);
    var ent := Entitlement(q.caller, if v.trial then Trial else Subscribed, EntActive, None, None, now, Some(end), None,
                           None, Some(s), 1);
    (db.(subscriptions := db.subscriptions[s := sub], entitlements := db.entitlements[e := ent], next := db.next + 3),
     Granted(None, Some(s), {e}))
  }

  function Buy(db: Db, q: VerifyRequest, id: string, kind: PurchaseKind, courses: seq<Option<string>>,
               now: Time): (Db, VerifyResponse)
  {
    var p, first := db.next + 1, db.next + 2;
    var source := if kind == CoursePurchase then Purchased else Bundled;
    var granted := GrantEach(q.caller, source, courses, p, now, first);
    (db.(purchases := db.purchases[p := Purchase(q.caller, id, kind, db.next, Completed)],
         entitlements := db.entitlements + granted, next := first + |courses|),
     Granted(Some(p), None, granted.Keys))
  }

  function Verify(c: Catalog, db: Db, q: VerifyRequest, v: Verification, now: Time): (Db, VerifyResponse)
  {
    if q.learner != q.caller then (db, Failure(Forbidden))
    else if q.provider.None? then (db, Failure(UnsupportedProvider))
    else
      var p := q.provider.value;
      var found := First(TransactionsOf(db, p, q.externalId));
      if found.Some? then (db, Replay(db, found.value, q.caller))
      else if v.Rejected? then
        (db.(transactions := db.transactions[db.next := Transaction(q.caller, p, q.externalId, false)],
             next := db.next + 1), NotVerified)
      else
        match Resolve(c, p, v.product)
        case None => (db, Failure(UnknownProduct))
        case Some(o) =>
          if !IsActive(o) then (db, Failure(InactiveProduct))
          else
            match Redeem(db, q.coupon, q.caller, o.id, now)
            case Err(code) => (db, Failure(code))
            case Ok(redeemed) =>
              match Fulfil(c, redeemed, q, p, o, v, now)
              case Err(code) => (db, Failure(code))
              case Ok(done) => done
  }

  // ---------------------------------------------------------------------------------------
  // Provider webhooks
  // ---------------------------------------------------------------------------------------

  datatype EventKind = Renewal | Expiration | GracePeriod | Retry | Cancellation | Refund

  /** A verified provider event; an unsupported provider or event type is None. */
  datatype Event = Event(
    provider: Option<Provider>, id: string, kind: Option<EventKind>, transaction: string, original: Option<string>,
    effective: Time, expiration: Option<Time>)

  datatype WebhookResponse = Refused(code: Code) | AlreadySeen | OutOfOrder | Done

  /** The effect of an event on the entitlements of its subscription or purchase. */
  datatype Change = Keep | Renew(until: Time) | Lapse | Defer | Revoke(at: Time)

  function Changed(e: Entitlement, c: Change): Entitlement
  {
    match c
    case Keep => e
    case Renew(until) => e.(status := EntActive, expiresAt := Some(until))
    case Lapse => e.(status := EntExpired)
    case Defer => e.(status := EntGrace)
    case Revoke(at) => e.(status := EntRevoked, revokedAt := Some(at))
  }

  function ChangeAll(ents: map<Id, Entitlement>, ids: set<Id>, c: Change): map<Id, Entitlement>
  {
    map e | e in ents :: if e in ids then Changed(ents[e], c) else ents[e]
  }

  function TransactionIds(e: Event): set<string>
  {
    (if e.transaction == "" then {} else {e.transaction}) +
    (if e.original.None? || e.original.value == "" then {} else {e.original.value})
  }

  function Candidates(db: Db, p: Provider, e: Event): set<Id>
  {
    set s | s in db.subscriptions && db.subscriptions[s].provider == p &&
            (db.subscriptions[s].original in TransactionIds(e) || db.subscriptions[s].latest in TransactionIds(e))
  }

  /** The purchases an event may mean; with several, the database decides which row comes first. */
  function PurchaseMatches(db: Db, p: Provider, e: Event): set<Id>
  {
    set b | b in db.purchases && db.purchases[b].transaction in db.transactions &&
            db.transactions[db.purchases[b].transaction].provider == p &&
            (db.transactions[db.purchases[b].transaction].externalId == e.transaction ||
             Some(db.transactions[db.purchases[b].transaction].externalId) == e.original)
  }

  function Pick(s: set<Id>, hint: Id): (r: Option<Id>)
    ensures r.None? <==> s == {}
    ensures r.Some? ==> r.value in s
  {
    if hint in s then Some(hint) else First(s)
  }

  function SubAfter(sub: Subscription, kind: EventKind, e: Event, now: Time): Subscription
  {
    var seen := sub.(updatedAt := Some(e.effective));
    match kind
    case Renewal =>
      var end := if e.expiration.Some? then e.expiration.value else now + 30 * DAY;
      seen.(status := Active, periodEnd := end, renewsAt := end)
    case Expiration => seen.(status := Expired)
    case GracePeriod => seen.(status := InGrace)
    case Retry => seen.(status := BillingRetry)
    case Cancellation => seen.(cancelAtEnd := true)
    case Refund => seen.(status := Revoked)
  }

  function ChangeFor(kind: EventKind, end: Time, now: Time): Change
  {
    match kind
    case Renewal => Renew(end)
    case Expiration => Lapse
    case GracePeriod => Defer
    case Retry => Keep
    case Cancellation => Keep
    case Refund => Revoke(now)
  }

  function ApplyToSubscription(db: Db, s: Id, kind: EventKind, e: Event, now: Time): Db
    requires s in db.subscriptions
  {
    var sub := SubAfter(db.subscriptions[s], kind, e, now);
    db.(subscriptions := db.subscriptions[s := sub],
        entitlements := ChangeAll(db.entitlements, LinkedTo(db, s), ChangeFor(kind, sub.periodEnd, now)))
  }

  function ApplyRefund(db: Db, p: Id, now: Time): Db
    requires p in db.purchases
  {
    db.(purchases := db.purchases[p := db.purchases[p].(status := Refunded)],
        entitlements := ChangeAll(db.entitlements, BoughtBy(db, p), Revoke(now)))
  }

  predicate Stale(sub: Subscription, e: Event)
  {
    sub.updatedAt.Some? && e.effective < sub.updatedAt.value
  }

  function Recorded(db: Db, p: Provider, e: Event, status: EventStatus): Db
  {
    db.(events := db.events[(p, e.id) := status])
  }

  function Webhook(db: Db, e: Event, now: Time, hint: Id): (Db, WebhookResponse)
  {
    if e.provider.None? then (db, Refused(UnsupportedProvider))
    else if e.kind.None? then (db, Refused(UnsupportedEvent))
    else
      var p, kind := e.provider.value, e.kind.value;
      var subs := Candidates(db, p, e);
      if (p, e.id) in db.events then (db, AlreadySeen)
      else if |subs| > 1 then (db, Refused(AmbiguousTransaction))
      else
        match First(subs)
        case Some(s) =>
          if Stale(db.subscriptions[s], e) then (Recorded(db, p, e, Ignored), OutOfOrder)
          else (Recorded(ApplyToSubscription(db, s, kind, e, now), p, e, Processed), Done)
        case None =>
          match Pick(PurchaseMatches(db, p, e), hint)
          case Some(b) =>
            if kind == Refund then (Recorded(ApplyRefund(db, b, now), p, e, Processed), Done)
            else (Recorded(db, p, e, Ignored), Done)
          case None => (Recorded(db, p, e, Ignored), Done)
  }

  // ---------------------------------------------------------------------------------------
  // Reconciliation, plan change, cancellation, manual grants
  // ---------------------------------------------------------------------------------------

  predicate Lapses(sub: Subscription, now: Time)
  {
    sub.status in {Active, Trialing, InGrace, BillingRetry} && sub.periodEnd <= now
  }

  function Lapsing(db: Db, now: Time): set<Id>
  {
    set s | s in db.subscriptions && Lapses(db.subscriptions[s], now)
  }

  function LapsingLinks(db: Db, now: Time): set<Id>
  {
    set e | e in db.entitlements && db.entitlements[e].subscription.Some? &&
        db.entitlements[e].subscription.value in Lapsing(db, now)
  }

  function ExpireAll(subs: map<Id, Subscription>, ids: set<Id>): map<Id, Subscription>
  {
    map s | s in subs :: if s in ids then subs[s].(status := Expired) else subs[s]
  }

  function Reconcile(db: Db, now: Time): Db
  {
    db.(subscriptions := ExpireAll(db.subscriptions, Lapsing(db, now)),
        entitlements := ChangeAll(db.entitlements, LapsingLinks(db, now), Lapse))
  }

  /** Only the mock provider of a development or test deployment is managed here. */
  function Managed(db: Db, learner: string, s: Id, development: bool): Option<Code>
  {
    if s !in db.subscriptions then Some(NotFound)
    else if db.subscriptions[s].learner != learner then Some(Forbidden)
    else if db.subscriptions[s].provider != Mock || !development then Some(OperationUnavailable)
    else None
  }

  function Cancel(db: Db, learner: string, s: Id, development: bool): Result<Db, Code>
  {
    var refusal := Managed(db, learner, s, development);
    if refusal.Some? then Err(refusal.value)
    else Ok(db.(subscriptions := db.subscriptions[s := db.subscriptions[s].(cancelAtEnd := true)]))
  }

  function ActiveLinks(db: Db, s: Id): set<Id>
  {
    set e | e in LinkedTo(db, s) && db.entitlements[e].status == EntActive
  }

  /** The new plan and period, and the same end for the linked entitlement that is active. */
  function MovePlan(db: Db, s: Id, plan: string, end: Time): Db
    requires s in db.subscriptions
  {
    var sub := db.subscriptions[s].(plan := plan, periodEnd := end, renewsAt := end, cancelAtEnd := false);
    var active := First(ActiveLinks(db, s));
    db.(subscriptions := db.subscriptions[s := sub],
        entitlements := if active.None? then db.entitlements
                        else db.entitlements[active.value := db.entitlements[active.value].(expiresAt := Some(end))])
  }

  function ChangePlan(c: Catalog, db: Db, learner: string, s: Id, plan: string, now: Time,
                      development: bool): Result<Db, Code>
  {
    var refusal := Managed(db, learner, s, development);
    if refusal.Some? then Err(refusal.value)
    else if plan !in c.plans || !c.plans[plan].active then Err(NotFound)
    else Ok(MovePlan(db, s, plan, PeriodEnd(c.plans[plan].annual, now)))
  }

  function Grant(db: Db, learner: string, known: bool, kind: Option<ResourceType>, resource: Option<string>,
                 expires: Option<Time>, now: Time): Result<Db, Code>
  {
    if !known then Err(NotFound)
    else if expires.Some? && expires.value <= now then Err(InvalidExpiry)
    else
      var ent := Entitlement(learner, AdminGrant, EntActive, kind, resource, now, expires, None, None, None, 1);
      Ok(db.(entitlements := db.entitlements[db.next := ent], next := db.next + 1))
  }

  function Editable(db: Db, e: Id, version: nat): Option<Code>
  {
    if e !in db.entitlements then Some(NotFound)
    else if db.entitlements[e].source != AdminGrant then Some(ProviderOwned)
    else if db.entitlements[e].version != version then Some(StaleVersion)
    else None
  }

  function Extend(db: Db, e: Id, version: nat, expires: Option<Time>, now: Time): Result<Db, Code>
  {
    if expires.None? || expires.value <= now then Err(InvalidExpiry)
    else
      var refusal := Editable(db, e, version);
      if refusal.Some? then Err(refusal.value)
      else
        var ent := db.entitlements[e];
        Ok(db.(entitlements := db.entitlements[e := ent.(expiresAt := expires, version := ent.version + 1)]))
  }

  function RevokeGrant(db: Db, e: Id, version: nat, now: Time): Result<Db, Code>
  {
    var refusal := Editable(db, e, version);
    if refusal.Some? then Err(refusal.value)
    else
      var ent := db.entitlements[e];
      var revoked := ent.(status := EntRevoked, revokedAt := Some(now), version := ent.version + 1);
      Ok(db.(entitlements := db.entitlements[e := revoked]))
  }

  // ---------------------------------------------------------------------------------------
  // Runs
  // ---------------------------------------------------------------------------------------

  datatype Op =
    | DoVerify(request: VerifyRequest, verification: Verification, now: Time)
    | DoWebhook(event: Event, now: Time, hint: Id)
    | DoReconcile(now: Time)
    | DoCancel(learner: string, sub: Id, development: bool)
    | DoChangePlan(learner: string, sub: Id, plan: string, now: Time, development: bool)
    | DoGrant(learner: string, known: bool, kind: Option<ResourceType>, resource: Option<string>, expires: Option<Time>,
              now: Time)
    | DoExtend(ent: Id, version: nat, expires: Option<Time>, now: Time)
    | DoRevoke(ent: Id, version: nat, now: Time)

  /** A refused request commits nothing. */
  function Committed(db: Db, r: Result<Db, Code>): Db
  {
    match r
    case Ok(after) => after
    case Err(_) => db
  }

  function Step(c: Catalog, db: Db, op: Op): Db
  {
    match op
    case DoVerify(q, v, now) => Verify(c, db, q, v, now).0
    case DoWebhook(e, now, hint) => Webhook(db, e, now, hint).0
    case DoReconcile(now) => Reconcile(db, now)
    case DoCancel(learner, s, dev) => Committed(db, Cancel(db, learner, s, dev))
    case DoChangePlan(learner, s, plan, now, dev) => Committed(db, ChangePlan(c, db, learner, s, plan, now, dev))
    case DoGrant(learner, known, kind, resource, expires, now) =>
        Committed(db, Grant(db, learner, known, kind, resource, expires, now))
    case DoExtend(e, version, expires, now) => Committed(db, Extend(db, e, version, expires, now))
    case DoRevoke(e, version, now) => Committed(db, RevokeGrant(db, e, version, now))
  }

  function Run(c: Catalog, db: Db, ops: seq<Op>): Db
  {
    if ops == [] then db else Step(c, Run(c, db, ops[..|ops| - 1]), ops[|ops| - 1])
  }

  /** Empty tables, with coupons nobody has redeemed. */
  predicate Initial(db: Db)
  {
    && db.transactions == map[] && db.purchases == map[] && db.subscriptions == map[] && db.entitlements == map[]
    && db.redemptions == {} && forall k :: k in db.coupons ==> db.coupons[k].count == 0
  }
}
