/** What a provider's event about a subscription is answered and changes, told from the fields of the event
    and of the rows. */
module SubscriptionEvents {
  import opened Common
  import opened CommerceModel
  import opened CommerceInvariants
  import opened Refunds

  predicate Unheard(db: Db, e: Event)
  {
    e.provider.Some? && e.kind.Some? && (e.provider.value, e.id) !in db.events
  }

  predicate Names(db: Db, e: Event, s: Id)
  {
    s in db.subscriptions && NamesSubscription(e, db.subscriptions[s])
  }

  ghost predicate NamesOnly(db: Db, e: Event, s: Id)
  {
    Names(db, e, s) && forall other :: Names(db, e, other) ==> other == s
  }

  ghost predicate NamesNone(db: Db, e: Event)
  {
    forall s :: !Names(db, e, s)
  }

  ghost predicate NamesSeveral(db: Db, e: Event)
  {
    exists s, t :: s != t && Names(db, e, s) && Names(db, e, t)
  }

  /** The subscription has already been updated by a later event. */
  predicate OutOfDate(db: Db, e: Event, s: Id)
    requires s in db.subscriptions
  {
    db.subscriptions[s].updatedAt.Some? && db.subscriptions[s].updatedAt.value > e.effective
  }

  ghost predicate Deserves(db: Db, e: Event, answer: WebhookResponse)
  {
    match answer
    case Refused(UnsupportedProvider) => e.provider.None?
    case Refused(UnsupportedEvent) => e.provider.Some? && e.kind.None?
    case Refused(AmbiguousTransaction) => Unheard(db, e) && NamesSeveral(db, e)
    case Refused(_) => false
    case AlreadySeen => e.provider.Some? && e.kind.Some? && (e.provider.value, e.id) in db.events
    case OutOfOrder => Unheard(db, e) && exists s :: NamesOnly(db, e, s) && OutOfDate(db, e, s)
    case Done =>
      Unheard(db, e) && (NamesNone(db, e) || exists s :: NamesOnly(db, e, s) && !OutOfDate(db, e, s))
  }

  lemma CandidatesAreNamed(db: Db, p: Provider, e: Event)
    requires e.provider == Some(p)
    ensures forall s :: s in Candidates(db, p, e) <==> Names(db, e, s)
  {
    forall s ensures s in Candidates(db, p, e) <==> Names(db, e, s) {}
  }

  lemma SizeOfSet(s: set<Id>)
    ensures s == {} ==> |s| == 0
    ensures |s| == 1 ==> exists i :: s == {i}
    ensures |s| > 1 <==> exists i, j :: i != j && i in s && j in s
  {
    if i :| i in s {
      assert s == {i} + (s - {i});
      if j :| j in s - {i} { assert i != j && |s| == |s - {i, j}| + 2; } else { assert s == {i}; }
    }
  }

  /** How many subscriptions the event names. */
  lemma NamesByCount(db: Db, p: Provider, e: Event)
    requires e.provider == Some(p)
    ensures var n := Candidates(db, p, e);
            && (n == {} <==> NamesNone(db, e)) && (|n| > 1 <==> NamesSeveral(db, e))
            && forall s: Id :: n == {s} <==> NamesOnly(db, e, s)
  {
    var n := Candidates(db, p, e);
    CandidatesAreNamed(db, p, e);
    SizeOfSet(n);
    forall s: Id ensures n == {s} <==> NamesOnly(db, e, s) {
      if NamesOnly(db, e, s) { assert forall i :: i in n <==> i in {s}; }
      if n == {s} { assert s in n; }
    }
  }

  /** Each answer to an event is given exactly for its own reason. */
  lemma EventAnswer(db: Db, e: Event, now: Time, hint: Id)
    ensures Deserves(db, e, Webhook(db, e, now, hint).1)
  {
    if Unheard(db, e) {
      var named := Candidates(db, e.provider.value, e);
      NamesByCount(db, e.provider.value, e);
      if |named| == 1 {
        SizeOfSet(named);
        var s :| named == {s};
        assert First(named) == Some(s);
      }
    }
  }

  lemma OneReason(db: Db, e: Event, a: WebhookResponse, b: WebhookResponse)
    requires Deserves(db, e, a) && Deserves(db, e, b)
    ensures a == b
  {
  }

  lemma AnsweredExactlyWhen(db: Db, e: Event, now: Time, hint: Id, answer: WebhookResponse)
    ensures Webhook(db, e, now, hint).1 == answer <==> Deserves(db, e, answer)
  {
    EventAnswer(db, e, now, hint);
    if Deserves(db, e, answer) { OneReason(db, e, Webhook(db, e, now, hint).1, answer); }
  }

  // ---------------------------------------------------------------------------------------
  // Effects
  // ---------------------------------------------------------------------------------------

  /** The subscription row after an event of this kind. */
  predicate SubscriptionMoves(was: Subscription, sub: Subscription, e: Event, now: Time)
    requires e.kind.Some?
  {
    && sub.updatedAt == Some(e.effective) && SameSub(was, sub) && sub.plan == was.plan
    && sub.renewsAt == (if e.kind.value == Renewal then sub.periodEnd else was.renewsAt)
    && sub.periodEnd == (if e.kind.value != Renewal then was.periodEnd
                         else if e.expiration.Some? then e.expiration.value else now + 2592000)
    && sub.cancelAtEnd == (was.cancelAtEnd || e.kind.value == Cancellation)
    && match e.kind.value
       case Renewal => sub.status == Active
       case Expiration => sub.status == Expired
       case GracePeriod => sub.status == InGrace
       case Retry => sub.status == BillingRetry
       case Cancellation => sub.status == was.status
       case Refund => sub.status == Revoked
  }

  /** An entitlement of the subscription after the event; `end` is the period's end by then. */
  predicate EntitlementMoves(was: Entitlement, ent: Entitlement, e: Event, end: Time, now: Time)
    requires e.kind.Some?
  {
    && SameEnt(was, ent) && ent.startsAt == was.startsAt && ent.version == was.version
    && ent.expiresAt == (if e.kind.value == Renewal then Some(end) else was.expiresAt)
    && ent.revokedAt == (if e.kind.value == Refund then Some(now) else was.revokedAt)
    && match e.kind.value
       case Renewal => ent.status == EntActive
       case Expiration => ent.status == EntExpired
       case GracePeriod => ent.status == EntGrace
       case Refund => ent.status == EntRevoked
       case _ => ent.status == was.status
  }

  /** The one subscription that a new, timely event names moves by its kind, and so do its entitlements; no
      other row of the commerce tables changes and the event is on record as processed. */
  lemma EventMovesItsSubscription(db: Db, e: Event, now: Time, hint: Id, s: Id)
    requires Unheard(db, e) && NamesOnly(db, e, s) && !OutOfDate(db, e, s)
    ensures var after := Webhook(db, e, now, hint).0;
            && s in after.subscriptions && after.entitlements.Keys == db.entitlements.Keys
            && SubscriptionMoves(db.subscriptions[s], after.subscriptions[s], e, now)
            && (forall i :: i in db.entitlements && db.entitlements[i].subscription == Some(s) ==>
                  EntitlementMoves(db.entitlements[i], after.entitlements[i], e, after.subscriptions[s].periodEnd, now))
            && (forall i :: i in db.entitlements && db.entitlements[i].subscription != Some(s) ==>
                  after.entitlements[i] == db.entitlements[i])
            && after == db.(subscriptions := db.subscriptions[s := after.subscriptions[s]],
                            entitlements := after.entitlements,
                            events := db.events[(e.provider.value, e.id) := Processed])
  {
    NamesByCount(db, e.provider.value, e);
    assert First(Candidates(db, e.provider.value, e)) == Some(s);
    AppliedMoves(db, s, e, now);
  }

  lemma AppliedMoves(db: Db, s: Id, e: Event, now: Time)
    requires e.kind.Some? && s in db.subscriptions
    ensures var after := ApplyToSubscription(db, s, e.kind.value, e, now);
            && s in after.subscriptions && after.entitlements.Keys == db.entitlements.Keys
            && SubscriptionMoves(db.subscriptions[s], after.subscriptions[s], e, now)
            && (forall i :: i in db.entitlements && db.entitlements[i].subscription == Some(s) ==>
                  EntitlementMoves(db.entitlements[i], after.entitlements[i], e, after.subscriptions[s].periodEnd, now))
            && (forall i :: i in db.entitlements && db.entitlements[i].subscription != Some(s) ==>
                  after.entitlements[i] == db.entitlements[i])
            && after == db.(subscriptions := db.subscriptions[s := after.subscriptions[s]],
                            entitlements := after.entitlements)
  {
  }

  /** An event that is refused, seen before or out of date changes no row; only the out-of-date one is
      recorded, as ignored. */
  lemma OtherwiseNothingMoves(db: Db, e: Event, now: Time, hint: Id)
    requires !Webhook(db, e, now, hint).1.Done?
    ensures Webhook(db, e, now, hint).0 ==
            if Webhook(db, e, now, hint).1.OutOfOrder?
            then db.(events := db.events[(e.provider.value, e.id) := Ignored]) else db
  {
  }

  /** An event that names no subscription leaves all of them alone; it is on record as processed exactly when it
      is a refund that names a purchase, and as ignored otherwise. */
  lemma UnnamedEventsSpareSubscriptions(db: Db, e: Event, now: Time, hint: Id)
    requires Unheard(db, e) && NamesNone(db, e)
    ensures var after := Webhook(db, e, now, hint).0;
            var refunds := e.kind == Some(Refund) && exists b :: NamesPurchase(db, e, b);
            && after.subscriptions == db.subscriptions && after.transactions == db.transactions
            && after.events == db.events[(e.provider.value, e.id) := if refunds then Processed else Ignored]
            && (!refunds ==> after.purchases == db.purchases && after.entitlements == db.entitlements)
  {
    NamesByCount(db, e.provider.value, e);
    NamedPurchases(db, e.provider.value, e, hint, 0);
    var named := PurchaseMatches(db, e.provider.value, e);
    if b :| NamesPurchase(db, e, b) { assert b in named; }
    if b :| b in named { assert NamesPurchase(db, e, b); }
  }
}
