/** What reconciliation, the learner's own requests about a subscription and the administrators' grants do,
    told from the fields of the rows: when each is accepted and exactly what it changes. */
module Upkeep {
  import opened Common
  import opened CommerceModel

  // ---------------------------------------------------------------------------------------
  // Reconciliation
  // ---------------------------------------------------------------------------------------

  /** Statuses that reconciliation ends; a cancelled or paused subscription is left alone. */
  predicate Runs(sub: Subscription)
  {
    sub.status != Cancelled && sub.status != Paused && sub.status != Expired && sub.status != Revoked
  }

  predicate Due(sub: Subscription, now: Time)
  {
    Runs(sub) && !(sub.periodEnd > now)
  }

  /** The entitlement hangs on a subscription whose period is over. */
  predicate DueLink(db: Db, ent: Entitlement, now: Time)
  {
    ent.subscription.Some? && ent.subscription.value in db.subscriptions &&
    Due(db.subscriptions[ent.subscription.value], now)
  }

  /** Exactly the running subscriptions whose period is over expire, with their entitlements; every other row
      stays as it is. */
  lemma ReconciledExactly(db: Db, now: Time)
    ensures var after := Reconcile(db, now);
            && after == db.(subscriptions := after.subscriptions, entitlements := after.entitlements)
            && after.subscriptions.Keys == db.subscriptions.Keys && after.entitlements.Keys == db.entitlements.Keys
            && (forall s :: s in db.subscriptions ==>
                  after.subscriptions[s] ==
                  if Due(db.subscriptions[s], now) then db.subscriptions[s].(status := Expired)
                    else db.subscriptions[s])
            && (forall e :: e in db.entitlements ==>
                  after.entitlements[e] ==
                  if DueLink(db, db.entitlements[e], now) then db.entitlements[e].(status := EntExpired)
                  else db.entitlements[e])
  {
  }

  /** Afterwards no running subscription is past its period, and a second pass finds nothing to do. */
  lemma NothingOverdue(db: Db, now: Time)
    ensures var after := Reconcile(db, now);
            && (forall s :: s in after.subscriptions && Runs(after.subscriptions[s]) ==>
                  after.subscriptions[s].periodEnd > now)
            && Reconcile(after, now) == after
  {
    ReconciledExactly(db, now);
    var after := Reconcile(db, now);
    ReconciledExactly(after, now);
    assert Reconcile(after, now).subscriptions == after.subscriptions;
    assert Reconcile(after, now).entitlements == after.entitlements;
  }

  // ---------------------------------------------------------------------------------------
  // The learner's subscription
  // ---------------------------------------------------------------------------------------

  /** The learner may manage the subscription here: its own, of the mock provider, outside production. */
  predicate Manages(db: Db, learner: string, s: Id, development: bool)
  {
    && s in db.subscriptions && db.subscriptions[s].learner == learner && db.subscriptions[s].provider.Mock?
    && development
  }

  predicate ManageDeserves(db: Db, learner: string, s: Id, development: bool, code: Code)
  {
    match code
    case NotFound => s !in db.subscriptions
    case Forbidden => s in db.subscriptions && db.subscriptions[s].learner != learner
    case OperationUnavailable =>
      s in db.subscriptions && db.subscriptions[s].learner == learner &&
      !(db.subscriptions[s].provider.Mock? && development)
    case _ => false
  }

  /** Cancelling keeps the subscription and its period and only stops the renewal. */
  lemma CancelAnswer(db: Db, learner: string, s: Id, development: bool)
    ensures match Cancel(db, learner, s, development)
            case Err(code) => ManageDeserves(db, learner, s, development, code)
            case Ok(after) =>
              && Manages(db, learner, s, development) && s in after.subscriptions
              && after == db.(subscriptions := after.subscriptions)
              && after.subscriptions.Keys == db.subscriptions.Keys
              && (forall t :: t in db.subscriptions && t != s ==> after.subscriptions[t] == db.subscriptions[t])
              && after.subscriptions[s].cancelAtEnd
              && after.subscriptions[s].(cancelAtEnd := db.subscriptions[s].cancelAtEnd) == db.subscriptions[s]
  {
  }

  /** The period a plan change opens: 365 days for an annual plan, 30 for a monthly one. */
  predicate OpensPeriod(plan: Plan, now: Time, end: Time)
  {
    end - now == if plan.annual then 365 * 24 * 60 * 60 else 30 * 24 * 60 * 60
  }

  /** The subscription on its new plan, renewing again, with its new period. */
  predicate Moved(was: Subscription, sub: Subscription, plan: string, terms: Plan, now: Time)
  {
    && sub.plan == plan && !sub.cancelAtEnd && OpensPeriod(terms, now, sub.periodEnd) && sub.renewsAt == sub.periodEnd
    && was == sub.(plan := was.plan, cancelAtEnd := was.cancelAtEnd, periodEnd := was.periodEnd,
                   renewsAt := was.renewsAt)
  }

  /** A plan is changed exactly by who may manage the subscription, to a plan on sale; one active entitlement of
      the subscription, if there is one, moves its end with the period, and no other row changes. */
  lemma ChangePlanAnswer(c: Catalog, db: Db, learner: string, s: Id, plan: string, now: Time, development: bool)
    ensures match ChangePlan(c, db, learner, s, plan, now, development)
            case Err(code) =>
              ManageDeserves(db, learner, s, development, code) ||
              (code == NotFound && Manages(db, learner, s, development) && !(plan in c.plans && c.plans[plan].active))
            case Ok(after) =>
              && Manages(db, learner, s, development) && plan in c.plans && c.plans[plan].active
              && s in after.subscriptions &&
                 Moved(db.subscriptions[s], after.subscriptions[s], plan, c.plans[plan], now)
              && after == db.(subscriptions := db.subscriptions[s := after.subscriptions[s]],
                              entitlements := after.entitlements)
  {
  }

  predicate ActiveOf(db: Db, s: Id, e: Id)
  {
    e in db.entitlements && db.entitlements[e].subscription == Some(s) && db.entitlements[e].status == EntActive
  }

  lemma MovesEntitlement(db: Db, s: Id, plan: string, end: Time, e: Id)
    requires s in db.subscriptions && e in db.entitlements
    requires forall i, j :: ActiveOf(db, s, i) && ActiveOf(db, s, j) ==> i == j
    ensures var after := MovePlan(db, s, plan, end);
            && s in after.subscriptions && e in after.entitlements
            && after.entitlements[e] ==
               if ActiveOf(db, s, e) then db.entitlements[e].(expiresAt := Some(after.subscriptions[s].periodEnd))
               else db.entitlements[e]
  {
    forall i ensures i in ActiveLinks(db, s) <==> ActiveOf(db, s, i) {}
  }

  // ---------------------------------------------------------------------------------------
  // Administrators' grants
  // ---------------------------------------------------------------------------------------

  predicate InFuture(expires: Option<Time>, now: Time)
  {
    expires.Some? && expires.value > now
  }

  /** A grant needs a known learner and, if it ends at all, an end to come; it is live from now on, covers what
      was asked for and changes nothing else. */
  lemma GrantAnswer(db: Db, learner: string, known: bool, kind: Option<ResourceType>, resource: Option<string>,
                    expires: Option<Time>, now: Time)
    ensures match Grant(db, learner, known, kind, resource, expires, now)
            case Err(code) =>
              (code == NotFound && !known) ||
              (code == InvalidExpiry && known && expires.Some? && !InFuture(expires, now))
            case Ok(after) =>
              && known && (expires.Some? ==> InFuture(expires, now)) && db.next in after.entitlements
              && after == db.(entitlements := db.entitlements[db.next := after.entitlements[db.next]],
                              next := after.next)
              && after.next == db.next + 1
              && var ent := after.entitlements[db.next];
                 && ent.learner == learner && ent.resourceType == kind && ent.resource == resource
                 && ent.expiresAt == expires && ent.status == EntActive && ent.source == AdminGrant
                 && ent.startsAt == now && ent.revokedAt.None? && ent.purchase.None? && ent.subscription.None?
  {
  }

  /** An administrator edits only what administrators granted, and only the version it has read. */
  predicate Edits(db: Db, e: Id, version: nat)
  {
    e in db.entitlements && db.entitlements[e].source == AdminGrant && db.entitlements[e].version == version
  }

  predicate EditDeserves(db: Db, e: Id, version: nat, code: Code)
  {
    match code
    case NotFound => e !in db.entitlements
    case ProviderOwned => e in db.entitlements && db.entitlements[e].source != AdminGrant
    case StaleVersion =>
      e in db.entitlements && db.entitlements[e].source == AdminGrant && db.entitlements[e].version != version
    case _ => false
  }

  /** The rows with entitlement `e` replaced by its next version. */
  predicate OneEdit(db: Db, after: Db, e: Id)
  {
    && e in db.entitlements && e in after.entitlements
    && after == db.(entitlements := db.entitlements[e := after.entitlements[e]])
    && after.entitlements[e].version == db.entitlements[e].version + 1
  }

  lemma ExtendAnswer(db: Db, e: Id, version: nat, expires: Option<Time>, now: Time)
    ensures match Extend(db, e, version, expires, now)
            case Err(code) =>
              if InFuture(expires, now) then EditDeserves(db, e, version, code) else code == InvalidExpiry
            case Ok(after) =>
              && InFuture(expires, now) && Edits(db, e, version) && OneEdit(db, after, e)
              && var ent, was := after.entitlements[e], db.entitlements[e];
                 ent.expiresAt == expires && ent.(expiresAt := was.expiresAt, version := was.version) == was
  {
  }

  lemma RevokeAnswer(db: Db, e: Id, version: nat, now: Time)
    ensures match RevokeGrant(db, e, version, now)
            case Err(code) => EditDeserves(db, e, version, code)
            case Ok(after) =>
              && Edits(db, e, version) && OneEdit(db, after, e)
              && var ent, was := after.entitlements[e], db.entitlements[e];
                 ent.status == EntRevoked && ent.revokedAt == Some(now) &&
                 ent.(status := was.status, revokedAt := was.revokedAt, version := was.version) == was
  {
  }

  /** The request edits version `version` of entitlement `e`. */
  predicate IsEdit(op: Op, e: Id, version: nat)
  {
    (op.DoExtend? || op.DoRevoke?) && op.ent == e && op.version == version
  }

  /** Of two edits that read the same version only the first is accepted, whatever each of them asks for. */
  lemma SecondEditIsStale(c: Catalog, db: Db, e: Id, version: nat, first: Op, second: Op)
    requires IsEdit(first, e, version) && IsEdit(second, e, version) && Step(c, db, first) != db
    ensures Step(c, Step(c, db, first), second) == Step(c, db, first)
  {
  }
}
