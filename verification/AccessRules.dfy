/** Access told from the fields of the rows: exactly which grants open a resource, and for paid resources
    exactly which purchases, subscriptions and administrators' grants let a learner in. */
module AccessRules {
  import opened Common
  import opened CommerceModel
  import opened CommerceInvariants
  import opened CommerceRuns
  import opened Access

  // ---------------------------------------------------------------------------------------
  // Resources
  // ---------------------------------------------------------------------------------------

  /** The course a resource hangs on, for what can be opened at all: published courses and assessments, and
      modules, lessons and attachments whether or not their course is published. */
  predicate HangsOn(c: Content, kind: ResourceType, id: string, course: Option<string>)
    requires WellFormed(c)
  {
    match kind
    case CourseType => course == Some(id) && id in c.courses && c.courses[id].published
    case ModuleType => id in c.modules && course == Some(c.modules[id].course)
    case LessonType => id in c.lessons && course == Some(c.modules[c.lessons[id].parent].course)
    case AttachmentType => id in c.lessons && course == Some(c.modules[c.lessons[id].parent].course)
    case AssessmentType =>
      id in c.assessments && c.assessments[id].published && course == Some(c.assessments[id].course)
    case CertificateType => course.None?
  }

  lemma LocatedExactlyWhen(c: Content, kind: ResourceType, id: string, course: Option<string>)
    requires WellFormed(c)
    ensures HangsOn(c, kind, id, course) <==> Locate(c, kind, id).Some? && Locate(c, kind, id).value.course == course
    ensures kind == CertificateType ==> Locate(c, kind, id).Some? && Locate(c, kind, id).value.policy == Premium
  {
  }

  // ---------------------------------------------------------------------------------------
  // Grants
  // ---------------------------------------------------------------------------------------

  /** The grant is for everything, for this very resource or for its course, and for every type, courses or
      this type. */
  predicate IsFor(e: Entitlement, kind: ResourceType, id: string, course: Option<string>)
  {
    && (e.resource.None? || e.resource == Some(id) || (course.Some? && e.resource == course))
    && (e.resourceType.None? || e.resourceType == Some(kind) || e.resourceType == Some(CourseType))
  }

  /** The grant has started, has not ended and is neither expired, revoked nor pending. */
  predicate InForce(e: Entitlement, now: Time)
  {
    && !(e.startsAt > now) && !(e.expiresAt.Some? && e.expiresAt.value <= now)
    && e.status != EntExpired && e.status != EntRevoked && e.status != EntPending
  }

  lemma GrantOpensExactlyWhen(e: Entitlement, learner: string, kind: ResourceType, id: string, course: Option<string>,
                              now: Time)
    ensures Live(e, learner, now) && Covers(e, kind, id, course) <==>
            e.learner == learner && InForce(e, now) && IsFor(e, kind, id, course)
  {
  }

  /** A grant for one course opens that course and what hangs on it, and nothing else. */
  lemma OneCourseOpensOnlyIt(c: Content, ents: map<Id, Entitlement>, learner: string, kind: ResourceType, id: string,
                             now: Time, e: Id, course: string)
    requires WellFormed(c) && Locate(c, kind, id).Some? && Locate(c, kind, id).value.policy in {Premium, Inherit}
    requires e in ents && forall i :: i in ents && ents[i].learner == learner ==> i == e
    requires ents[e].resource == Some(course) && ents[e].resourceType == Some(CourseType)
    ensures Allows(c, ents, learner, kind, id, now) <==>
            ents[e].learner == learner && InForce(ents[e], now) && (id == course || HangsOn(c, kind, id, Some(course)))
  {
    var t := Locate(c, kind, id).value;
    LocatedExactlyWhen(c, kind, id, Some(course));
    GrantOpensExactlyWhen(ents[e], learner, kind, id, t.course, now);
  }

  /** An administrator's grant outranks a scholarship, that a purchase, and so on down to a trial and a free
      grant; no two sources are of one rank. */
  lemma SourcesInOrder(a: Source, b: Source)
    ensures Precedence(AdminGrant) > Precedence(Scholarship) > Precedence(Purchased) > Precedence(Bundled)
    ensures Precedence(Bundled) > Precedence(Subscribed) > Precedence(Promotion) > Precedence(Trial)
    ensures Precedence(Trial) > Precedence(FreeSource)
    ensures a != b ==> Precedence(a) != Precedence(b)
  {
  }

  /** Only a subscription shows as subscribed, only a single purchase as purchased and only a free grant as
      free; what else opens a resource is included. */
  lemma LevelBySource(s: Source)
    ensures LevelOf(s) == SubscribedLevel <==> s == Subscribed
    ensures LevelOf(s) == PurchasedLevel <==> s == Purchased
    ensures LevelOf(s) == FreeLevel <==> s == FreeSource
    ensures LevelOf(s) != PreviewLevel
  {
  }

  /** The refusal says that access has ended exactly when a grant of the learner for everything, this resource
      or its course has reached its end. */
  lemma EndedExactlyWhen(ents: map<Id, Entitlement>, learner: string, id: string, course: Option<string>, now: Time)
    ensures HasLapsed(ents, learner, id, course, now) <==>
            exists e :: e in ents && ents[e].learner == learner && ents[e].expiresAt.Some?
                        && !(ents[e].expiresAt.value > now)
                        && (ents[e].resource.None? || ents[e].resource == Some(id) || ents[e].resource == course)
  {
    if e :| e in ents && ents[e].learner == learner && ents[e].expiresAt.Some?
            && !(ents[e].expiresAt.value > now)
            && (ents[e].resource.None? || ents[e].resource == Some(id) || ents[e].resource == course) {
      assert Lapsed(ents[e], learner, id, course, now);
    }
    if e :| e in ents && Lapsed(ents[e], learner, id, course, now) {}
  }

  // ---------------------------------------------------------------------------------------
  // Who gets in, in every reachable state
  // ---------------------------------------------------------------------------------------

  /** The product sells this resource, its course, or, being a course product without a course, everything. */
  predicate Sells(cat: Catalog, b: Purchase, id: string, course: Option<string>)
  {
    b.product in cat.products &&
    var product := cat.products[b.product];
    match b.kind
    case CoursePurchase =>
      product.course.None? || product.course == Some(id) || (course.Some? && product.course == course)
    case BundlePurchase => id in product.courses || (course.Some? && course.value in product.courses)
  }

  /** A purchase of the learner that is not refunded and sells the resource, from its first second on. */
  predicate BoughtAccess(cat: Catalog, db: Db, learner: string, id: string, course: Option<string>, now: Time, b: Id)
  {
    && b in db.purchases && db.purchases[b].learner == learner && db.purchases[b].status == Completed
    && Sells(cat, db.purchases[b], id, course)
  }

  /** A subscription of the learner with its entitlement `e`: paid up to its period's end, in the provider's
      grace, or in billing retry with what the entitlement still has. */
  predicate SubscribedAccess(db: Db, learner: string, now: Time, s: Id, e: Id)
  {
    && s in db.subscriptions && e in db.entitlements && db.entitlements[e].subscription == Some(s)
    && db.subscriptions[s].learner == learner && db.entitlements[e].startsAt <= now
    && match db.subscriptions[s].status
       case Active => now < db.subscriptions[s].periodEnd
       case Trialing => now < db.subscriptions[s].periodEnd
       case InGrace => db.entitlements[e].expiresAt.Some? ==> now < db.entitlements[e].expiresAt.value
       case BillingRetry => InForce(db.entitlements[e], now)
       case _ => false
  }

  /** A grant of an administrator to the learner, in force and for the resource. */
  predicate GrantedAccess(db: Db, learner: string, kind: ResourceType, id: string, course: Option<string>, now: Time,
                          e: Id)
  {
    && e in db.entitlements && db.entitlements[e].learner == learner
    && db.entitlements[e].purchase.None? && db.entitlements[e].subscription.None?
    && InForce(db.entitlements[e], now) && IsFor(db.entitlements[e], kind, id, course)
  }

  /** One of the three reasons, named by the entitlement that carries it. */
  predicate PaidBy(cat: Catalog, db: Db, learner: string, kind: ResourceType, id: string, course: Option<string>,
                   now: Time, e: Id)
    requires e in db.entitlements
  {
    match (db.entitlements[e].purchase, db.entitlements[e].subscription)
    case (Some(b), _) =>
      && BoughtAccess(cat, db, learner, id, course, now, b) && db.entitlements[e].startsAt <= now
      && (db.entitlements[e].resource.None? || db.entitlements[e].resource == Some(id)
          || (course.Some? && db.entitlements[e].resource == course))
    case (None, Some(s)) => SubscribedAccess(db, learner, now, s, e)
    case (None, None) => GrantedAccess(db, learner, kind, id, course, now, e)
  }

  lemma SoldResource(cat: Catalog, db: Db, e: Id, b: Id)
    requires OneEach(cat, db) && OfPurchase(db, e, b)
    ensures db.purchases[b].product in cat.products
    ensures var product := cat.products[db.purchases[b].product];
            if db.purchases[b].kind == CoursePurchase then db.entitlements[e].resource == product.course
            else db.entitlements[e].resource.Some? && db.entitlements[e].resource.value in product.courses
  {
    assert e in BoughtBy(db, b);
    assert db.entitlements[e].resource in Resources(db, b);
    assert db.entitlements[e].resource in Offered(cat, db.purchases[b]);
  }

  lemma BoughtLetsIn(cat: Catalog, db: Db, learner: string, kind: ResourceType, id: string, course: Option<string>,
                     now: Time, e: Id, b: Id)
    requires OneEach(cat, db) && AllWellLinked(db) && RefundsRevoke(db) && OfPurchase(db, e, b)
    ensures db.entitlements[e].learner == learner && InForce(db.entitlements[e], now) &&
            IsFor(db.entitlements[e], kind, id, course) <==>
            PaidBy(cat, db, learner, kind, id, course, now, e)
  {
    SoldResource(cat, db, e, b);
    assert WellLinked(db, db.entitlements[e]) && PaidOrRefunded(db.purchases[b], db.entitlements[e]);
  }

  lemma SubscribedLetsIn(cat: Catalog, db: Db, learner: string, kind: ResourceType, id: string, course: Option<string>,
                         now: Time, e: Id, s: Id)
    requires AllWellLinked(db) && Coupled(db) && OfSubscription(db, e, s)
    ensures db.entitlements[e].learner == learner && InForce(db.entitlements[e], now) &&
            IsFor(db.entitlements[e], kind, id, course) <==>
            PaidBy(cat, db, learner, kind, id, course, now, e)
  {
    assert WellLinked(db, db.entitlements[e]) && InStep(db.subscriptions[s], db.entitlements[e]);
  }

  /** An entitlement lets its learner in exactly when what it hangs on does. */
  lemma LetsInExactlyWhen(cat: Catalog, db: Db, learner: string, kind: ResourceType, id: string,
                          course: Option<string>, now: Time, e: Id)
    requires OneEach(cat, db) && AllWellLinked(db) && Coupled(db) && RefundsRevoke(db) && e in db.entitlements
    ensures Live(db.entitlements[e], learner, now) && Covers(db.entitlements[e], kind, id, course) <==>
            PaidBy(cat, db, learner, kind, id, course, now, e)
  {
    var ent := db.entitlements[e];
    GrantOpensExactlyWhen(ent, learner, kind, id, course, now);
    assert WellLinked(db, ent);
    if ent.purchase.Some? {
      BoughtLetsIn(cat, db, learner, kind, id, course, now, e, ent.purchase.value);
    } else if ent.subscription.Some? {
      SubscribedLetsIn(cat, db, learner, kind, id, course, now, e, ent.subscription.value);
    }
  }

  lemma AnyLetsIn(cat: Catalog, db: Db, learner: string, kind: ResourceType, id: string, course: Option<string>,
                  now: Time)
    requires OneEach(cat, db) && AllWellLinked(db) && Coupled(db) && RefundsRevoke(db)
    ensures (exists e :: e in db.entitlements && Live(db.entitlements[e], learner, now) &&
                         Covers(db.entitlements[e], kind, id, course)) <==>
            (exists e :: e in db.entitlements && PaidBy(cat, db, learner, kind, id, course, now, e))
  {
    forall e | e in db.entitlements
      ensures Live(db.entitlements[e], learner, now) && Covers(db.entitlements[e], kind, id, course) <==>
              PaidBy(cat, db, learner, kind, id, course, now, e)
    {
      LetsInExactlyWhen(cat, db, learner, kind, id, course, now, e);
    }
  }

  /** Free, a preview, or paid for by one of the rows. */
  predicate OpenTo(cat: Catalog, db: Db, c: Content, learner: string, kind: ResourceType, id: string, now: Time)
    requires WellFormed(c)
  {
    match Locate(c, kind, id)
    case None => false
    case Some(t) =>
      && t.policy != Unavailable
      && (|| t.policy == Free || t.policy == Preview
          || exists e :: e in db.entitlements && PaidBy(cat, db, learner, kind, id, t.course, now, e))
  }

  lemma AllowedIn(cat: Catalog, db: Db, c: Content, learner: string, kind: ResourceType, id: string, now: Time)
    requires OneEach(cat, db) && AllWellLinked(db) && Coupled(db) && RefundsRevoke(db) && WellFormed(c)
    ensures Allows(c, db.entitlements, learner, kind, id, now) <==> OpenTo(cat, db, c, learner, kind, id, now)
  {
    if Locate(c, kind, id).Some? {
      AnyLetsIn(cat, db, learner, kind, id, Locate(c, kind, id).value.course, now);
    }
  }

  /** In every reachable state a learner may open a resource exactly when it is free or a preview, or the
      learner has a purchase that is not refunded and sells it, a subscription in good standing, or an
      administrator's grant for it. */
  lemma AllowedExactlyWhen(cat: Catalog, start: Db, ops: seq<Op>, c: Content, learner: string, kind: ResourceType,
                           id: string, now: Time)
    requires Initial(start) && WellFormed(c)
    ensures var db := Run(cat, start, ops);
            Allows(c, db.entitlements, learner, kind, id, now) <==> OpenTo(cat, db, c, learner, kind, id, now)
  {
    EveryRunIsSafe(cat, start, ops);
    AllowedIn(cat, Run(cat, start, ops), c, learner, kind, id, now);
  }
}
