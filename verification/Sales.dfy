/** When a verified transaction is granted and when it is refused, told from the fields of the request,
    the catalog and the coupon, and what a grant creates. */
module Sales {
  import opened Common
  import opened CommerceModel
  import opened CommerceInvariants
  import opened CommerceRuns

  predicate OnRecord(db: Db, p: Provider, ext: string)
  {
    exists t :: t in db.transactions && db.transactions[t].provider == p && db.transactions[t].externalId == ext
  }

  /** The learner speaks for itself, to a supported provider, about a transaction not yet on record. */
  predicate Heard(db: Db, q: VerifyRequest)
  {
    q.learner == q.caller && q.provider.Some? && !OnRecord(db, q.provider.value, q.externalId)
  }

  /** The provider's product is mapped to a plan or product that exists. */
  predicate Listed(c: Catalog, p: Provider, store: string)
  {
    (p, store) in c.mappings &&
    match c.mappings[(p, store)]
    case ToPlan(id) => id in c.plans
    case ToCourse(id) => id in c.products
    case ToBundle(id) => id in c.products
    case ToOther => false
  }

  predicate Withdrawn(c: Catalog, p: Provider, store: string)
    requires Listed(c, p, store)
  {
    var m := c.mappings[(p, store)];
    if m.ToPlan? then c.plans[m.id].active == false else c.products[m.id].active == false
  }

  /** The coupon exists, is switched on, runs at this time, is not used up and applies to the product. */
  predicate Usable(db: Db, code: string, product: string, now: Time)
  {
    code in db.coupons &&
    var k := db.coupons[code];
    k.active && !(k.validFrom > now) && (k.validUntil.None? || k.validUntil.value > now)
    && (k.cap.None? || k.count < k.cap.value) && (k.products == {} || product in k.products)
  }

  /** A usable coupon that this learner has redeemed before. */
  predicate SpentTwice(db: Db, q: VerifyRequest, product: string, now: Time)
  {
    q.coupon.Some? && Usable(db, q.coupon.value, product, now) && (q.coupon.value, q.caller) in db.redemptions
  }

  predicate IsBundle(c: Catalog, p: Provider, store: string)
    requires Listed(c, p, store)
  {
    c.mappings[(p, store)].ToBundle?
  }

  /** A positively verified product on sale. */
  predicate Offered(c: Catalog, db: Db, q: VerifyRequest, v: Verification)
  {
    Heard(db, q) && v.Verified? && Listed(c, q.provider.value, v.product) && !Withdrawn(c, q.provider.value, v.product)
  }

  /** The same with no coupon in the way. */
  predicate Payable(c: Catalog, db: Db, q: VerifyRequest, v: Verification, now: Time)
  {
    Offered(c, db, q, v) && !SpentTwice(db, q, c.mappings[(q.provider.value, v.product)].id, now)
  }

  /** Why a transaction that is not on record gets the answer it gets. */
  predicate Deserves(c: Catalog, db: Db, q: VerifyRequest, v: Verification, now: Time, answer: VerifyResponse)
  {
    match answer
    case Failure(Forbidden) => q.learner != q.caller
    case Failure(UnsupportedProvider) => q.learner == q.caller && q.provider.None?
    case NotVerified => Heard(db, q) && v.Rejected?
    case Failure(UnknownProduct) => Heard(db, q) && v.Verified? && !Listed(c, q.provider.value, v.product)
    case Failure(InactiveProduct) =>
      Heard(db, q) && v.Verified? && Listed(c, q.provider.value, v.product) && Withdrawn(c, q.provider.value, v.product)
    case Failure(CouponReused) =>
      Offered(c, db, q, v) && SpentTwice(db, q, c.mappings[(q.provider.value, v.product)].id, now)
    case Failure(EmptyBundle) =>
      Payable(c, db, q, v, now) && IsBundle(c, q.provider.value, v.product) && SoldCourses(c, q, v) == []
    case Failure(InvalidBundle) =>
      Payable(c, db, q, v, now) && IsBundle(c, q.provider.value, v.product) &&
      SoldCourses(c, q, v) != [] && !(forall k :: k in SoldCourses(c, q, v) ==> k in c.courses)
    case Granted(_, _, _) =>
      Payable(c, db, q, v, now) &&
      (IsBundle(c, q.provider.value, v.product) ==>
         SoldCourses(c, q, v) != [] && forall k :: k in SoldCourses(c, q, v) ==> k in c.courses)
    case Failure(_) => false
  }

  /** The courses of the bundle the provider's product is mapped to. */
  function SoldCourses(c: Catalog, q: VerifyRequest, v: Verification): seq<string>
    requires q.provider.Some? && v.Verified? && Listed(c, q.provider.value, v.product)
    requires IsBundle(c, q.provider.value, v.product)
  {
    c.products[c.mappings[(q.provider.value, v.product)].id].courses
  }

  lemma NotOnRecord(db: Db, p: Provider, ext: string)
    ensures OnRecord(db, p, ext) <==> TransactionsOf(db, p, ext) != {}
  {
    if t :| t in TransactionsOf(db, p, ext) { assert OnRecord(db, p, ext); }
    if OnRecord(db, p, ext) {
      var t :| t in db.transactions && db.transactions[t].provider == p && db.transactions[t].externalId == ext;
      assert t in TransactionsOf(db, p, ext);
    }
  }

  lemma UsableIsValid(db: Db, code: string, product: string, now: Time)
    ensures Usable(db, code, product, now) <==> code in db.coupons && CouponValid(db.coupons[code], product, now)
  {
  }

  lemma RedeemFails(db: Db, q: VerifyRequest, product: string, now: Time)
    ensures Redeem(db, q.coupon, q.caller, product, now).Err? <==> SpentTwice(db, q, product, now)
    ensures Redeem(db, q.coupon, q.caller, product, now).Err? ==>
              Redeem(db, q.coupon, q.caller, product, now).error == CouponReused
  {
    if q.coupon.Some? { UsableIsValid(db, q.coupon.value, product, now); }
  }

  /** Each answer to a transaction that is not on record is given only for its own reason. */
  lemma AnswerIsDeserved(c: Catalog, db: Db, q: VerifyRequest, v: Verification, now: Time)
    requires q.provider.Some? ==> !OnRecord(db, q.provider.value, q.externalId)
    ensures Deserves(c, db, q, v, now, Verify(c, db, q, v, now).1)
  {
    if q.provider.Some? { NotOnRecord(db, q.provider.value, q.externalId); }
    if Heard(db, q) && v.Verified? && Listed(c, q.provider.value, v.product) {
      var o := Resolve(c, q.provider.value, v.product).value;
      assert o.id == c.mappings[(q.provider.value, v.product)].id;
      RedeemFails(db, q, o.id, now);
      if o.BundleOffer? { MissingCourses(o.product.courses, c.courses); }
    }
  }

  lemma MissingCourses(ids: seq<string>, known: set<string>)
    ensures (exists i :: 0 <= i < |ids| && ids[i] !in known) <==> !(forall k :: k in ids ==> k in known)
  {
    if !(forall k :: k in ids ==> k in known) {
      var k :| k in ids && k !in known;
      var i :| 0 <= i < |ids| && ids[i] == k;
      assert ids[i] !in known;
    }
  }

  /** The answers, apart from what a grant lists. */
  predicate SameAnswer(a: VerifyResponse, b: VerifyResponse)
  {
    a == b || (a.Granted? && b.Granted?)
  }

  /** No two reasons hold together. */
  lemma OneReason(c: Catalog, db: Db, q: VerifyRequest, v: Verification, now: Time, a: VerifyResponse,
                  b: VerifyResponse)
    requires Deserves(c, db, q, v, now, a) && Deserves(c, db, q, v, now, b)
    ensures SameAnswer(a, b)
  {
  }

  /** Exactly when a transaction that is not on record is granted, and exactly when it is refused with
      each code. */
  lemma AnsweredExactlyWhen(c: Catalog, db: Db, q: VerifyRequest, v: Verification, now: Time, answer: VerifyResponse)
    requires q.provider.Some? ==> !OnRecord(db, q.provider.value, q.externalId)
    ensures SameAnswer(Verify(c, db, q, v, now).1, answer) <==> Deserves(c, db, q, v, now, answer)
  {
    AnswerIsDeserved(c, db, q, v, now);
    var given := Verify(c, db, q, v, now).1;
    if Deserves(c, db, q, v, now, answer) { OneReason(c, db, q, v, now, given, answer); }
  }

  // ---------------------------------------------------------------------------------------
  // What a grant creates
  // ---------------------------------------------------------------------------------------

  /** When a plan ends: when the provider says, or else 365 days from now for an annual plan and 30 for a
      monthly one. */
  function PlanEnd(plan: Plan, v: Verification, now: Time): Time
    requires v.Verified?
  {
    if v.expiration.Some? then v.expiration.value else now + (if plan.annual then 31536000 else 2592000)
  }

  /** Subscription `s` and entitlement `e` as a granted plan leaves them. */
  predicate PlanRows(after: Db, q: VerifyRequest, id: string, end: Time, trial: bool, now: Time, s: Id, e: Id)
  {
    && q.provider.Some? && s in after.subscriptions && e in after.entitlements
    && var sub, ent := after.subscriptions[s], after.entitlements[e];
       && sub.learner == ent.learner == q.caller && sub.provider == q.provider.value && sub.plan == id
       && sub.original == sub.latest == q.externalId && !sub.cancelAtEnd && sub.periodEnd == sub.renewsAt == end
       && sub.status == (if trial then Trialing else Active)
       && ent.subscription == Some(s) && ent.status == EntActive && ent.startsAt == now && ent.expiresAt == Some(end)
       && ent.resource.None? && ent.resourceType.None? && ent.source == (if trial then Trial else Subscribed)
  }

  lemma PlanFulfils(c: Catalog, db: Db, q: VerifyRequest, v: Verification, now: Time, id: string) returns (r: Db)
    requires q.provider.Some? && !OnRecord(db, q.provider.value, q.externalId) && Verify(c, db, q, v, now).1.Granted?
    requires v.Verified? && (q.provider.value, v.product) in c.mappings
    requires c.mappings[(q.provider.value, v.product)] == ToPlan(id)
    ensures id in c.plans
    ensures Verify(c, db, q, v, now) ==
            Subscribe(WithRow(r, q, q.provider.value), q, q.provider.value, id, c.plans[id], v, now)
  {
    NotOnRecord(db, q.provider.value, q.externalId);
    var o;
    r, o := GrantedCases(c, db, q, v, now);
  }

  lemma SubscribeRows(db: Db, q: VerifyRequest, p: Provider, id: string, plan: Plan, v: Verification, now: Time)
    requires v.Verified? && q.provider == Some(p)
    ensures var (after, answer) := Subscribe(WithRow(db, q, p), q, p, id, plan, v, now);
            answer == Granted(None, Some(db.next + 1), {db.next + 2}) &&
            PlanRows(after, q, id, PlanEnd(plan, v, now), v.trial, now, db.next + 1, db.next + 2)
  {
  }

  /** A granted plan: one subscription of the caller to the mapped plan, on trial exactly when the
      provider says so, and one entitlement to everything that ends with it. */
  lemma GrantedPlan(c: Catalog, db: Db, q: VerifyRequest, v: Verification, now: Time, id: string)
    returns (s: Id, e: Id)
    requires q.provider.Some? && !OnRecord(db, q.provider.value, q.externalId) && Verify(c, db, q, v, now).1.Granted?
    requires v.Verified? && (q.provider.value, v.product) in c.mappings
    requires c.mappings[(q.provider.value, v.product)] == ToPlan(id)
    ensures var (after, answer) := Verify(c, db, q, v, now);
            id in c.plans && answer == Granted(None, Some(s), {e}) &&
            PlanRows(after, q, id, PlanEnd(c.plans[id], v, now), v.trial, now, s, e)
  {
    var r := PlanFulfils(c, db, q, v, now, id);
    SubscribeRows(r, q, q.provider.value, id, c.plans[id], v, now);
    s, e := r.next + 1, r.next + 2;
  }

  /** The courses a product sells: its own, or the courses of the bundle without repeats. */
  ghost predicate CoursesSold(product: Product, bundle: bool, courses: seq<Option<string>>)
  {
    if bundle then
      (forall k :: Some(k) in courses <==> k in product.courses) && None !in courses && NoRepeats(courses)
    else courses == [product.course]
  }

  /** Purchase `b` of product `id` and its entitlements, one for each of `courses`. */
  ghost predicate ProductRows(after: Db, q: VerifyRequest, id: string, bundle: bool, courses: seq<Option<string>>,
                              now: Time,
                        b: Id)
  {
    && b in after.purchases
    && after.purchases[b].learner == q.caller && after.purchases[b].product == id
    && after.purchases[b].status == Completed && (after.purchases[b].kind == BundlePurchase <==> bundle)
    && (forall i :: i in BoughtBy(after, b) <==> b < i <= b + |courses|)
    && (forall i :: i in BoughtBy(after, b) ==> CourseRow(after.entitlements[i], q, courses[i - b - 1], bundle, now))
  }

  /** A perpetual entitlement of the caller to one course that starts now. */
  predicate CourseRow(ent: Entitlement, q: VerifyRequest, course: Option<string>, bundle: bool, now: Time)
  {
    && ent.learner == q.caller && ent.status == EntActive && ent.startsAt == now && ent.expiresAt.None?
    && ent.resourceType == Some(CourseType) && ent.resource == course
    && ent.source == (if bundle then Bundled else Purchased)
  }

  predicate MappedProduct(c: Catalog, q: VerifyRequest, v: Verification, id: string, bundle: bool)
  {
    && q.provider.Some? && v.Verified? && (q.provider.value, v.product) in c.mappings
    && c.mappings[(q.provider.value, v.product)] == if bundle then ToBundle(id) else ToCourse(id)
  }

  lemma ProductFulfils(c: Catalog, db: Db, q: VerifyRequest, v: Verification, now: Time, id: string, bundle: bool)
    returns (r: Db, courses: seq<Option<string>>)
    requires Structure(c, db) && MappedProduct(c, q, v, id, bundle)
    requires !OnRecord(db, q.provider.value, q.externalId) && Verify(c, db, q, v, now).1.Granted?
    ensures id in c.products && Structure(c, r)
    ensures courses == if bundle then Wrapped(Distinct(c.products[id].courses)) else [c.products[id].course]
    ensures Verify(c, db, q, v, now) ==
            Buy(WithRow(r, q, q.provider.value), q, id, if bundle then BundlePurchase else CoursePurchase, courses, now)
  {
    NotOnRecord(db, q.provider.value, q.externalId);
    var o;
    r, o := GrantedCases(c, db, q, v, now);
    RedeemedKeeps(c, db, q, o.id, now, r);
    courses := if bundle then Wrapped(Distinct(o.product.courses)) else [o.product.course];
  }

  lemma SoldAre(product: Product, bundle: bool)
    ensures CoursesSold(product, bundle, if bundle then Wrapped(Distinct(product.courses)) else [product.course])
  {
    if bundle {
      var courses := Wrapped(Distinct(product.courses));
      DistinctKeeps(product.courses);
      WrappedKeeps(Distinct(product.courses));
      forall k ensures Some(k) in courses <==> k in product.courses {
        assert Some(k) in courses <==> Some(k) in Elements(courses);
        assert k in product.courses <==> k in Elements(product.courses);
      }
      assert None in courses ==> None in Elements(courses);
    }
  }

  lemma BuyPurchase(db: Db, q: VerifyRequest, p: Provider, id: string, kind: PurchaseKind,
                    courses: seq<Option<string>>, now: Time)
    ensures var after := Buy(WithRow(db, q, p), q, id, kind, courses, now).0;
            db.next + 1 in after.purchases &&
            after.purchases[db.next + 1] == Purchase(q.caller, id, kind, db.next, Completed)
  {
  }

  lemma RowsAreCourses(rows: map<Id, Entitlement>, q: VerifyRequest, source: Source, courses: seq<Option<string>>,
                       b: Id, now: Time, i: Id)
    requires RowsFor(rows, q.caller, source, courses, b, now, b + 1) && b < i <= b + |courses|
    requires source == Purchased || source == Bundled
    ensures i in rows && CourseRow(rows[i], q, courses[i - b - 1], source == Bundled, now)
  {
  }

  lemma BuyEntitles(db: Db, q: VerifyRequest, p: Provider, id: string, kind: PurchaseKind,
                    courses: seq<Option<string>>, now: Time, after: Db)
    requires Below(db) && AllWellLinked(db) && after == Buy(WithRow(db, q, p), q, id, kind, courses, now).0
    ensures var bought := BoughtBy(after, db.next + 1);
            && (forall i :: i in bought <==> db.next + 1 < i <= db.next + 1 + |courses|)
            && (forall i :: i in bought ==>
                CourseRow(after.entitlements[i], q, courses[i - db.next - 2], kind == BundlePurchase, now))
  {
    BoughtAre(db, q, p, id, kind, courses, now);
    var rows := BuyAdds(db, q, p, id, kind, courses, now);
    var source := if kind == CoursePurchase then Purchased else Bundled;
    var bought := BoughtBy(after, db.next + 1);
    forall i | i in bought
      ensures CourseRow(after.entitlements[i], q, courses[i - db.next - 2], kind == BundlePurchase, now)
    {
      RowsAreCourses(rows, q, source, courses, db.next + 1, now, i);
    }
  }

  lemma BuyRows(db: Db, q: VerifyRequest, p: Provider, id: string, bundle: bool, kind: PurchaseKind,
                courses: seq<Option<string>>, now: Time, after: Db)
    requires Below(db) && AllWellLinked(db) && kind == if bundle then BundlePurchase else CoursePurchase
    requires after == Buy(WithRow(db, q, p), q, id, kind, courses, now).0
    ensures ProductRows(after, q, id, bundle, courses, now, db.next + 1)
  {
    BuyPurchase(db, q, p, id, kind, courses, now);
    BuyEntitles(db, q, p, id, kind, courses, now, after);
  }

  /** A granted course or bundle: one completed purchase of the mapped product by the caller, and for each
      course it sells one perpetual entitlement that starts now. */
  lemma GrantedProduct(c: Catalog, db: Db, q: VerifyRequest, v: Verification, now: Time, id: string, bundle: bool)
    returns (b: Id, courses: seq<Option<string>>)
    requires Structure(c, db) && MappedProduct(c, q, v, id, bundle)
    requires !OnRecord(db, q.provider.value, q.externalId) && Verify(c, db, q, v, now).1.Granted?
    ensures id in c.products && CoursesSold(c.products[id], bundle, courses)
    ensures var (after, answer) := Verify(c, db, q, v, now);
            answer == Granted(Some(b), None, BoughtBy(after, b)) &&
            ProductRows(after, q, id, bundle, courses, now, b)
  {
    var r;
    r, courses := ProductFulfils(c, db, q, v, now, id, bundle);
    var kind := if bundle then BundlePurchase else CoursePurchase;
    SoldAre(c.products[id], bundle);
    BuyRows(r, q, q.provider.value, id, bundle, kind, courses, now, Verify(c, db, q, v, now).0);
    BuyGrants(r, q, q.provider.value, id, kind, courses, now);
    b := r.next + 1;
  }

  // ---------------------------------------------------------------------------------------
  // What a grant takes off a coupon
  // ---------------------------------------------------------------------------------------

  /** One use of the coupon by the learner, and no other change to coupons and redemptions. */
  predicate UsedOnce(db: Db, after: Db, code: string, learner: string)
  {
    && code in db.coupons && (code, learner) !in db.redemptions
    && after.redemptions == db.redemptions + {(code, learner)}
    && after.coupons == db.coupons[code := db.coupons[code].(count := db.coupons[code].count + 1)]
  }

  predicate CouponsAlone(db: Db, after: Db)
  {
    after.redemptions == db.redemptions && after.coupons == db.coupons
  }

  lemma FulfilSparesCoupons(c: Catalog, db: Db, q: VerifyRequest, p: Provider, o: Offer, v: Verification, now: Time)
    requires v.Verified? && Fulfil(c, db, q, p, o, v, now).Ok?
    ensures CouponsAlone(db, Fulfil(c, db, q, p, o, v, now).value.0)
  {
  }

  /** A grant uses the coupon it was asked with exactly when that coupon is usable for the product; without a
      grant no coupon is used. */
  lemma CouponIsUsedExactlyWhen(c: Catalog, db: Db, q: VerifyRequest, v: Verification, now: Time)
    requires q.provider.Some? ==> !OnRecord(db, q.provider.value, q.externalId)
    ensures var (after, answer) := Verify(c, db, q, v, now);
            if answer.Granted? then
              && Offered(c, db, q, v)
              && if q.coupon.Some? &&
                    Usable(db, q.coupon.value, c.mappings[(q.provider.value, v.product)].id, now)
                 then UsedOnce(db, after, q.coupon.value, q.caller) else CouponsAlone(db, after)
            else CouponsAlone(db, after)
  {
    AnswerIsDeserved(c, db, q, v, now);
    if q.provider.Some? { NotOnRecord(db, q.provider.value, q.externalId); }
    if Verify(c, db, q, v, now).1.Granted? {
      var r, o := GrantedCases(c, db, q, v, now);
      FulfilSparesCoupons(c, r, q, q.provider.value, o, v, now);
      if q.coupon.Some? { UsableIsValid(db, q.coupon.value, o.id, now); }
    } else {
      NoGrantSparesCoupons(c, db, q, v, now);
    }
  }

  lemma NoGrantSparesCoupons(c: Catalog, db: Db, q: VerifyRequest, v: Verification, now: Time)
    requires !Verify(c, db, q, v, now).1.Granted?
    ensures CouponsAlone(db, Verify(c, db, q, v, now).0)
  {
    var r, o := VerifyCases(c, db, q, v, now);
    if Fulfils(c, db, q, v, now, r, o) { FulfilGrants(c, r, q, q.provider.value, o, v, now); }
  }

  lemma FulfilGrants(c: Catalog, db: Db, q: VerifyRequest, p: Provider, o: Offer, v: Verification, now: Time)
    requires v.Verified? && Fulfil(c, db, q, p, o, v, now).Ok?
    ensures Fulfil(c, db, q, p, o, v, now).value.1.Granted?
  {
  }
}
