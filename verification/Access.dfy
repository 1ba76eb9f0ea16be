/** Who may open what: the policy in force for a resource, the grants that cover it, and what the
    commerce lifecycle does to the answer. */
module Access {
  import opened Common
  import opened CommerceModel
  import opened CommerceInvariants
  import opened CommerceRuns

  // ---------------------------------------------------------------------------------------
  // Content and its policies
  // ---------------------------------------------------------------------------------------

  datatype Policy = Free | Premium | Preview | Inherit | Unavailable

  datatype Course = Course(policy: Policy, published: bool)

  datatype Module = Module(course: string, policy: Policy)

  datatype Lesson = Lesson(parent: string, policy: Policy, preview: bool)

  datatype Assessment = Assessment(course: string, published: bool)

  datatype Content = Content(
    courses: map<string, Course>, modules: map<string, Module>, lessons: map<string, Lesson>,
    assessments: map<string, Assessment>)

  /** Foreign keys. */
  predicate WellFormed(c: Content)
  {
    && (forall m :: m in c.modules ==> c.modules[m].course in c.courses)
    && (forall l :: l in c.lessons ==> c.lessons[l].parent in c.modules)
    && (forall a :: a in c.assessments ==> c.assessments[a].course in c.courses)
  }

  /** The policy in force and the course the resource belongs to; certificates have no course. */
  datatype Target = Target(policy: Policy, course: Option<string>)

  function Locate(c: Content, kind: ResourceType, id: string): Option<Target>
    requires WellFormed(c)
  {
    match kind
    case CourseType =>
      if id !in c.courses || !c.courses[id].published then None else Some(Target(c.courses[id].policy, Some(id)))
    case ModuleType =>
      if id !in c.modules then None
      else
        var m := c.modules[id];
        Some(Target(if m.policy != Inherit then m.policy else c.courses[m.course].policy, Some(m.course)))
    case LessonType => LocateLesson(c, id)
    case AttachmentType => LocateLesson(c, id)
    case AssessmentType =>
      if id !in c.assessments || !c.assessments[id].published then None
      else var k := c.assessments[id].course; Some(Target(c.courses[k].policy, Some(k)))
    case CertificateType => Some(Target(Premium, None))
  }

  function LocateLesson(c: Content, id: string): Option<Target>
    requires WellFormed(c)
  {
    if id !in c.lessons then None
    else
      var l := c.lessons[id];
      var m := c.modules[l.parent];
      var inherited := if m.policy != Inherit then m.policy else c.courses[m.course].policy;
      Some(Target(if l.preview then Preview else if l.policy != Inherit then l.policy else inherited, Some(m.course)))
  }

  /** The policies that apply to a resource, from the resource itself up to its course. */
  function Chain(c: Content, kind: ResourceType, id: string): (chain: seq<Policy>)
    requires WellFormed(c) && Locate(c, kind, id).Some? && kind != CertificateType
    ensures |chain| > 0
  {
    var course := Locate(c, kind, id).value.course.value;
    if kind in {CourseType, AssessmentType} then [c.courses[course].policy]
    else if kind == ModuleType then [c.modules[id].policy, c.courses[course].policy]
    else [c.lessons[id].policy, c.modules[c.lessons[id].parent].policy, c.courses[course].policy]
  }

  predicate IsPreview(c: Content, kind: ResourceType, id: string)
  {
    kind in {LessonType, AttachmentType} && id in c.lessons && c.lessons[id].preview
  }

  /** The nearest policy that is not inherited decides, unless the lesson is a preview; when the whole
      chain inherits, the policy is `Inherit`, which needs a grant like `Premium`. */
  lemma NearestPolicyDecides(c: Content, kind: ResourceType, id: string, k: nat)
    requires WellFormed(c) && Locate(c, kind, id).Some? && kind != CertificateType
    requires k < |Chain(c, kind, id)| && forall j :: 0 <= j < k ==> Chain(c, kind, id)[j] == Inherit
    requires Chain(c, kind, id)[k] != Inherit || k == |Chain(c, kind, id)| - 1
    ensures Locate(c, kind, id).value.policy == if IsPreview(c, kind, id) then Preview else Chain(c, kind, id)[k]
  {
    var chain := Chain(c, kind, id);
    if k == 1 { assert chain[0] == Inherit; }
    if k == 2 { assert chain[0] == Inherit && chain[1] == Inherit; }
  }

  // ---------------------------------------------------------------------------------------
  // Grants
  // ---------------------------------------------------------------------------------------

  predicate Live(e: Entitlement, learner: string, now: Time)
  {
    && e.learner == learner && e.status in {EntActive, EntGrace} && e.startsAt <= now
    && (e.expiresAt.Some? ==> e.expiresAt.value > now)
  }

  predicate Covers(e: Entitlement, kind: ResourceType, id: string, course: Option<string>)
  {
    && (e.resource.Some? ==> e.resource.value == id || e.resource == course)
    && (e.resourceType.Some? ==> e.resourceType.value in {kind, CourseType})
  }

  function Covering(ents: map<Id, Entitlement>, learner: string, kind: ResourceType, id: string, course: Option<string>,
                    now: Time): set<Id>
  {
    set e | e in ents && Live(ents[e], learner, now) && Covers(ents[e], kind, id, course)
  }

  function Precedence(s: Source): nat
  {
    match s
    case AdminGrant => 8
    case Scholarship => 7
    case Purchased => 6
    case Bundled => 5
    case Subscribed => 4
    case Promotion => 3
    case Trial => 2
    case FreeSource => 1
  }

  datatype Level = FreeLevel | PreviewLevel | SubscribedLevel | PurchasedLevel | IncludedLevel

  function LevelOf(s: Source): Level
  {
    match s
    case Subscribed => SubscribedLevel
    case Purchased => PurchasedLevel
    case FreeSource => FreeLevel
    case _ => IncludedLevel
  }

  datatype Decision =
    | Open(level: Level)
    | ByGrant(level: Level, source: Source, expiresAt: Option<Time>)
    | NotAvailable
    | Locked
    | GrantExpired

  predicate Permits(d: Decision) { d.Open? || d.ByGrant? }

  /** May the learner open the resource now? */
  predicate Allows(c: Content, ents: map<Id, Entitlement>, learner: string, kind: ResourceType, id: string, now: Time)
    requires WellFormed(c)
  {
    match Locate(c, kind, id)
    case None => false
    case Some(t) =>
      t.policy != Unavailable &&
      (t.policy in {Free, Preview} ||
       exists e :: e in ents && Live(ents[e], learner, now) && Covers(ents[e], kind, id, t.course))
  }

  /** A grant of the set that none outranks. */
  predicate IsBest(ents: map<Id, Entitlement>, grants: set<Id>, g: Id)
    requires grants <= ents.Keys
  {
    g in grants && forall e :: e in grants ==> Precedence(ents[e].source) <= Precedence(ents[g].source)
  }

  predicate Lapsed(e: Entitlement, learner: string, id: string, course: Option<string>, now: Time)
  {
    && e.learner == learner && e.expiresAt.Some? && e.expiresAt.value <= now
    && (e.resource.Some? ==> e.resource.value == id || e.resource == course)
  }

  predicate HasLapsed(ents: map<Id, Entitlement>, learner: string, id: string, course: Option<string>, now: Time)
  {
    exists e :: e in ents && Lapsed(ents[e], learner, id, course, now)
  }

  method ResolveAccess(c: Content, ents: map<Id, Entitlement>, learner: string, kind: ResourceType, id: string,
                       now: Time)
    returns (r: Option<Decision>)
    requires WellFormed(c)
    ensures r.None? <==> Locate(c, kind, id).None?
    ensures r.Some? ==> (Permits(r.value) <==> Allows(c, ents, learner, kind, id, now))
    ensures r.Some? && r.value.Open? ==>
            r.value.level == if Locate(c, kind, id).value.policy == Preview then PreviewLevel else FreeLevel
    ensures r.Some? && r.value.ByGrant? ==>
              Locate(c, kind, id).value.policy in {Premium, Inherit} &&
              exists g :: IsBest(ents, Covering(ents, learner, kind, id, Locate(c, kind, id).value.course, now), g) &&
                          r.value == ByGrant(LevelOf(ents[g].source), ents[g].source, ents[g].expiresAt)
    ensures r.Some? && !Permits(r.value) ==>
              r.value == if Locate(c, kind, id).value.policy == Unavailable then NotAvailable
                         else if HasLapsed(ents, learner, id, Locate(c, kind, id).value.course, now) then GrantExpired
                         else Locked
  {
    var target := Locate(c, kind, id);
    if target.None? { return None; }
    var policy, course := target.value.policy, target.value.course;
    if policy == Unavailable { return Some(NotAvailable); }
    if policy in {Free, Preview} { return Some(Open(if policy == Preview then PreviewLevel else FreeLevel)); }
    var grants := Covering(ents, learner, kind, id, course, now);
    if grants != {} {
      var best :| best in grants;
      var todo := grants - {best};
      while todo != {}
        invariant todo <= grants && IsBest(ents, grants - todo, best)
        decreases todo
      {
        var e :| e in todo;
        todo := todo - {e};
        if Precedence(ents[e].source) > Precedence(ents[best].source) { best := e; }
      }
      assert grants - todo == grants;
      return Some(ByGrant(LevelOf(ents[best].source), ents[best].source, ents[best].expiresAt));
    }
    assert forall e :: e in ents && Live(ents[e], learner, now) ==> Covers(ents[e], kind, id, course) ==> e in grants;
    if HasLapsed(ents, learner, id, course, now) { return Some(GrantExpired); }
    return Some(Locked);
  }

  /** Two rows that no precedence separates have the same source, so the reported source does not
      depend on the order of the rows. */
  lemma BestSourceIsUnique(ents: map<Id, Entitlement>, grants: set<Id>, g: Id, h: Id)
    requires grants <= ents.Keys && IsBest(ents, grants, g) && IsBest(ents, grants, h)
    ensures ents[g].source == ents[h].source
  {
    assert Precedence(ents[g].source) == Precedence(ents[h].source);
  }

  /** More rows never close anything and never lower the reported precedence. */
  lemma MoreGrantsNeverDeny(c: Content, a: map<Id, Entitlement>, b: map<Id, Entitlement>, learner: string,
                            kind: ResourceType, id: string, now: Time)
    requires WellFormed(c) && Allows(c, a, learner, kind, id, now)
    requires forall e :: e in a ==> e in b && b[e] == a[e]
    ensures Allows(c, b, learner, kind, id, now)
    ensures var course := Locate(c, kind, id).value.course;
            var x, y := Covering(a, learner, kind, id, course, now), Covering(b, learner, kind, id, course, now);
            forall g, h :: IsBest(a, x, g) && IsBest(b, y, h) ==> Precedence(a[g].source) <= Precedence(b[h].source)
  {
    var t := Locate(c, kind, id).value;
    if t.policy !in {Free, Preview} {
      var e :| e in a && Live(a[e], learner, now) && Covers(a[e], kind, id, t.course);
      assert e in b && Live(b[e], learner, now) && Covers(b[e], kind, id, t.course);
    }
  }

  // ---------------------------------------------------------------------------------------
  // Access after any commerce run
  // ---------------------------------------------------------------------------------------

  /** The purchase or subscription of a live grant is neither refunded, expired nor revoked. */
  ghost predicate InGoodStanding(db: Db, e: Entitlement)
  {
    && (e.purchase.Some? ==> e.purchase.value in db.purchases && db.purchases[e.purchase.value].status == Completed)
    && (e.subscription.Some? ==>
          e.subscription.value in db.subscriptions &&
          db.subscriptions[e.subscription.value].status in {Active, Trialing, InGrace, BillingRetry})
    && (e.purchase.None? && e.subscription.None? ==> e.source == AdminGrant)
  }

  lemma LiveIsInGoodStanding(db: Db, e: Id, learner: string, now: Time)
    requires AllWellLinked(db) && Coupled(db) && RefundsRevoke(db)
    requires e in db.entitlements && Live(db.entitlements[e], learner, now)
    ensures InGoodStanding(db, db.entitlements[e])
  {
    var ent := db.entitlements[e];
    assert WellLinked(db, ent);
    if ent.purchase.Some? {
      assert OfPurchase(db, e, ent.purchase.value);
    } else if ent.subscription.Some? {
      assert OfSubscription(db, e, ent.subscription.value);
    }
  }

  /** In every reachable state, whoever may open a resource that needs a grant owns one backed by a
      purchase not refunded, a subscription neither expired nor revoked, or an administrator. */
  lemma AccessIsPaidFor(cat: Catalog, start: Db, ops: seq<Op>, c: Content, learner: string, kind: ResourceType,
                        id: string, now: Time) returns (e: Id)
    requires Initial(start) && WellFormed(c)
    requires Allows(c, Run(cat, start, ops).entitlements, learner, kind, id, now) &&
             Locate(c, kind, id).value.policy !in {Free, Preview}
    ensures var db := Run(cat, start, ops);
            e in db.entitlements && db.entitlements[e].learner == learner && InGoodStanding(db, db.entitlements[e]) &&
            Covers(db.entitlements[e], kind, id, Locate(c, kind, id).value.course)
  {
    var db := Run(cat, start, ops);
    EveryRunIsSafe(cat, start, ops);
    e :| e in db.entitlements && Live(db.entitlements[e], learner, now) &&
        Covers(db.entitlements[e], kind, id, Locate(c, kind, id).value.course);
    LiveIsInGoodStanding(db, e, learner, now);
  }

  /** In every reachable state, a grant of an expired or revoked subscription or of a refunded purchase
      covers nothing. */
  lemma DeadGrantsNeverAllow(cat: Catalog, start: Db, ops: seq<Op>, e: Id, learner: string, kind: ResourceType,
                             id: string, course: Option<string>, now: Time)
    requires Initial(start) && e in Run(cat, start, ops).entitlements
    requires var db := Run(cat, start, ops);
             (exists s :: OfSubscription(db, e, s) && db.subscriptions[s].status in {Expired, Revoked}) ||
             (exists p :: OfPurchase(db, e, p) && db.purchases[p].status == Refunded)
    ensures e !in Covering(Run(cat, start, ops).entitlements, learner, kind, id, course, now)
  {
    var db := Run(cat, start, ops);
    EveryRunIsSafe(cat, start, ops);
    if Live(db.entitlements[e], learner, now) {
      LiveIsInGoodStanding(db, e, learner, now);
    }
  }

  /** In every reachable state, a purchase that is not refunded opens every available resource of each
      course it paid for, from the start of its entitlement and without end. */
  lemma PurchaseOpensItsCourses(cat: Catalog, start: Db, ops: seq<Op>, p: Id, course: string) returns (e: Id)
    requires Initial(start) && p in Run(cat, start, ops).purchases
    requires var db := Run(cat, start, ops);
             db.purchases[p].status == Completed && Some(course) in Offered(cat, db.purchases[p])
    ensures var db := Run(cat, start, ops);
            && e in BoughtBy(db, p) && db.entitlements[e].resource == Some(course)
            && forall c: Content, kind, id, now ::
                 WellFormed(c) && Locate(c, kind, id).Some? && Locate(c, kind, id).value.policy != Unavailable &&
                 Locate(c, kind, id).value.course == Some(course) && db.entitlements[e].startsAt <= now ==>
                 Allows(c, db.entitlements, db.purchases[p].learner, kind, id, now)
  {
    var db := Run(cat, start, ops);
    EveryRunIsSafe(cat, start, ops);
    assert Some(course) in Resources(db, p);
    e :| e in BoughtBy(db, p) && db.entitlements[e].resource == Some(course);
    assert OfPurchase(db, e, p) && WellLinked(db, db.entitlements[e]);
    assert PaidOrRefunded(db.purchases[p], db.entitlements[e]);
  }

  /** In every reachable state, an active or trialing subscription opens every available resource, from
      the start of its entitlement to the end of its period and, through that entitlement, no longer. */
  lemma SubscriptionOpensUntilPeriodEnd(cat: Catalog, start: Db, ops: seq<Op>, s: Id) returns (e: Id)
    requires Initial(start) && s in Run(cat, start, ops).subscriptions
    requires Run(cat, start, ops).subscriptions[s].status in {Active, Trialing}
    ensures var db := Run(cat, start, ops); var sub := db.subscriptions[s];
            && LinkedTo(db, s) == {e} && e in db.entitlements
            && (forall now :: Live(db.entitlements[e], sub.learner, now) <==>
                db.entitlements[e].startsAt <= now < sub.periodEnd)
            && forall c: Content, kind, id, now ::
                 WellFormed(c) && Locate(c, kind, id).Some? && Locate(c, kind, id).value.policy != Unavailable &&
                 db.entitlements[e].startsAt <= now < sub.periodEnd ==>
                 Allows(c, db.entitlements, sub.learner, kind, id, now)
  {
    EveryRunIsSafe(cat, start, ops);
    e := SubscriptionGrant(cat, Run(cat, start, ops), s);
  }

  lemma SubscriptionGrant(cat: Catalog, db: Db, s: Id) returns (e: Id)
    requires Structure(cat, db) && Coupled(db) && s in db.subscriptions &&
             db.subscriptions[s].status in {Active, Trialing}
    ensures LinkedTo(db, s) == {e} && e in db.entitlements
    ensures var ent := db.entitlements[e];
            ent.learner == db.subscriptions[s].learner && ent.status == EntActive &&
            ent.expiresAt == Some(db.subscriptions[s].periodEnd) &&
            ent.resource.None? && ent.resourceType.None?
  {
    e :| e in LinkedTo(db, s);
    SingletonOf(LinkedTo(db, s), e);
    assert OfSubscription(db, e, s) && WellLinked(db, db.entitlements[e]);
    assert InStep(db.subscriptions[s], db.entitlements[e]);
  }

  // ---------------------------------------------------------------------------------------
  // A webhook touches one subscription or one purchase
  // ---------------------------------------------------------------------------------------

  /** Entitlements of neither a subscription nor a purchase the event can mean. */
  predicate Bystander(db: Db, e: Event, ent: Entitlement)
  {
    e.provider.Some? ==>
      && (ent.subscription.Some? ==> ent.subscription.value !in Candidates(db, e.provider.value, e))
      && (ent.purchase.Some? ==> ent.purchase.value !in PurchaseMatches(db, e.provider.value, e))
  }

  lemma WebhookSparesBystanders(db: Db, e: Event, now: Time, hint: Id, i: Id)
    requires i in db.entitlements && Bystander(db, e, db.entitlements[i])
    ensures var after := Webhook(db, e, now, hint).0;
            i in after.entitlements && after.entitlements[i] == db.entitlements[i]
  {
    var f, events := WebhookEffect(db, e, now, hint);
    if f.OnSubscription? {
      assert i !in LinkedTo(db, f.id);
    } else if f.OnPurchase? {
      assert i !in BoughtBy(db, f.id);
    }
  }

  /** A webhook never takes away access that some other grant covers. */
  lemma WebhookSparesOtherAccess(db: Db, e: Event, at: Time, hint: Id, c: Content, learner: string, kind: ResourceType,
                                 id: string, i: Id, now: Time)
    requires WellFormed(c) && Locate(c, kind, id).Some? && Locate(c, kind, id).value.policy != Unavailable
    requires i in db.entitlements && Bystander(db, e, db.entitlements[i])
    requires Live(db.entitlements[i], learner, now) &&
             Covers(db.entitlements[i], kind, id, Locate(c, kind, id).value.course)
    ensures Allows(c, Webhook(db, e, at, hint).0.entitlements, learner, kind, id, now)
  {
    WebhookSparesBystanders(db, e, at, hint, i);
  }
}
