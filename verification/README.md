# Verified model of the learning platform's backend

A Dafny model of the stateful core of the backend under `backend/app`, with proofs about whole runs of
it. `dafny verify dfyconfig.toml` checks the project.

Where the original assigns fields and loops, the model is a class or a method that does the same and is
proved equal to a pure step function of the old state; the properties are then lemmas about runs of
those steps. Purely computing code is functions and lemmas.

- **Rate limiting** (`ExpiryHeap`, `LocalRateLimiter`, `LimiterRuns`, `RatePolicies`, `CircuitBreaker`,
  `Verdicts`): the bounded fixed-window counter with its dictionary and binary heap, and `enforce` as a
  protocol of steps between awaits under every interleaving of calls, answers, errors and cancellations,
  up to the verdict each call gets.
- **Commerce** (`CommerceModel`, `CommerceStore`, `CommerceInvariants`, `CommerceRuns`, `Sales`, `Refunds`,
  `SubscriptionEvents`, `Upkeep`, `WebhookConvergence`, `WebhookOrder`, `Access`, `AccessRules`):
  transactions, purchases, subscriptions, entitlements, coupons and provider events as one state machine
  with eight kinds of request; for each request its exact conditions and effects over the fields of the
  rows; and who may open what, in every reachable state.
- **Learning progress** (`Grading`, `Watch`, `LearnerModel`, `LearnerStore`, `LearnerRuns`,
  `LearnerOutcomes`, `LearnerAnswers`, `ProgressSync`): grading, watch credit, attempts and their idempotent
  submission, batched progress mutations, and the completion gate shared by three writers.
- **Keyset paging** (`Utf8`, `Base64`, `IsoTimestamp`, `Cursor`, `Paging`): the cursor as text, bytes and
  base64url without padding (RFC 4648, sections 3.2 and 5), and the client's walk over the pages.
- **Two-phase reorder** (`Reorder`): the unique position key at every intermediate write.

Some promises do not hold of the code as written; the model keeps the code and proves when they do hold:

- A Redis answer to a call that was in flight when an error struck ends the five-second cool-down early
  (`StaleAnswerEndsCoolDown`). Inside the five seconds a call goes to Redis if and only if the latest Redis
  outcome is an answer (`CoolDownEndsEarlyExactlyWhen`), and the first such answer belongs to a call that
  was in flight at the error (`EarlyAnswerIsAnOldCall`).
- Deliveries of the same provider events do not always converge: a billing retry or a cancellation is
  recorded as the newest provider state without setting the entitlements, so it drops an older event that
  arrives later. The statuses are independent of the order if and only if the latest fresh event is a
  renewal, expiration, grace period or refund, or every other fresh event is inert: what it would set is
  already so (`StatusesConvergeExactlyWhen`). The period end is independent of the order if and only if the
  latest fresh event is a renewal with an end of its own, or it is no renewal and every other fresh renewal
  carries the recorded end (`PeriodEndConvergesExactlyWhen`).
- An omitted question earns full marks when its grading key is missing (`MissingKeyPaysOut`); omitted
  questions earn nothing if and only if each has its key (`OmittedEarnNothing`).
- The largest reported position of a batch of progress mutations is not reached in every order
  (`OrderMattersOtherwise`); it is if and only if the duration known before, or that of a mutation reporting
  it, admits it (`PositionIsTopInEveryOrder`).
- The negative-offset reorder collides exactly when starting positions clash, which positive ones never do
  (`LooseWritesStayUnique`); rows the request omits stay parked at negative positions, and
  `NextReorderIsSafeExactlyWhen` says when that breaks the next reorder.
- A cursor is read back exactly when its id has 1 to 120 characters and no bar and its instant has a UTC
  calendar year (`CursorRoundTrip`).

## Model

| member | source | states |
|---|---|---|
| ExpiryHeap.Push | backend/app/rate_limit.py:96 | `heappush`: the heap order is kept and exactly the new item is added to the multiset of items |
| ExpiryHeap.Pop | backend/app/rate_limit.py:88 | `heappop`: the removed item is a least one, the rest is a heap of exactly the remaining items |
| ExpiryHeap.RootIsLeast | backend/app/rate_limit.py:87-92 | in a heap the root is at most every item, so testing the root finds every expired window and the earliest expiry |
| LocalRateLimiter.LocalRateLimiter.constructor | backend/app/rate_limit.py:77-82 | starts empty, with heap and dictionary in agreement |
| LocalRateLimiter.LocalRateLimiter.PurgeExpired | backend/app/rate_limit.py:87-89 | drops exactly the windows that have ended, never missing a delete, and keeps heap and dictionary in agreement |
| LocalRateLimiter.LocalRateLimiter.Consume | backend/app/rate_limit.py:84-100 | makes exactly the step of the specification: purge, refuse a new key when full, else open or charge a clamped window; heap, dictionary and size bound stay in agreement |
| LocalRateLimiter.HeapAndTableAgree | backend/app/rate_limit.py:77-100 | heap and dictionary hold the same keys with the same expiries, each key once, and no more than the capacity |
| LimiterRuns.SizeStaysBounded | backend/app/rate_limit.py:90-93 | the table never exceeds its capacity in any run |
| LimiterRuns.OpenWindowSurvives | backend/app/rate_limit.py:75-100 | no open window is evicted, shortened or prolonged by any calls of other keys |
| LimiterRuns.WindowBound | backend/app/rate_limit.py:97-100 | each window admits at most `limit` calls, also while the table is full |
| LimiterRuns.RateBound | backend/app/rate_limit.py:84-100 | any half-open interval of one window length holds at most 2 * limit - 1 admitted calls, in any run |
| LimiterRuns.RateBoundIsReached | backend/app/rate_limit.py:84-100 | for every policy and capacity some run attains that bound, so it cannot be lowered |
| LimiterRuns.RetryAfterIsHonest | backend/app/rate_limit.py:68-71 | a refused key that calls again at least the announced wait later opens a fresh window unless the table is full, and with no calls in between it is not full |
| LimiterRuns.RetryAfterIsLeast | backend/app/rate_limit.py:68-100 | a refused key that calls again before the last of the announced seconds is refused again, so no shorter wait would do |
| LimiterRuns.BoundedRefinesNaive | backend/app/rate_limit.py:84-100 | with a forward clock, one policy per key and a table that is never full, the bounded, purged, clamped counter admits exactly the calls an unbounded, unclamped one admits |
| LimiterRuns.FewKeysNeverFull | backend/app/rate_limit.py:90-93 | a run over no more keys than slots never finds the table full |
| RatePolicies.ActionFixesPolicy | backend/app/rate_limit.py:38-65 | two requests whose policies share an action have the same policy |
| RatePolicies.KeyFixesPolicy | backend/app/rate_limit.py:153-155 | two requests that share a counter key share the caller's digest and the whole policy |
| RatePolicies.OnlySearchFailsOpen | backend/app/rate_limit.py:38-65 | the policy of a request fails closed unless the request is a catalog search |
| RatePolicies.ShortPrefixIsAnAlias | backend/app/rate_limit.py:49-51 | a route under `/v1/` has the policy of the same route under `/api/v1/` |
| CircuitBreaker.DistributedRateLimiter.constructor | backend/app/rate_limit.py:104-111 | the breaker starts closed, with an empty local table of ten thousand slots |
| CircuitBreaker.DistributedRateLimiter.OnArrive | backend/app/rate_limit.py:152-157 | up to the first await a call charges the local window exactly when Redis is optional |
| CircuitBreaker.DistributedRateLimiter.OnDecide | backend/app/rate_limit.py:160-165 | the breaker sends the call to Redis, as a probe or not, or answers from the local window |
| CircuitBreaker.DistributedRateLimiter.OnAnswer | backend/app/rate_limit.py:166-172 | an answer clears the retry time, gives back the probe slot and judges the shared count |
| CircuitBreaker.DistributedRateLimiter.OnError | backend/app/rate_limit.py:174-191 | an error starts the cool-down and falls back to the local answer, or fails closed or open when Redis is required |
| CircuitBreaker.DistributedRateLimiter.OnCancel | backend/app/rate_limit.py:187-189 | a cancelled call gives back the probe slot |
| CircuitBreaker.AtMostOneProbe | backend/app/rate_limit.py:160-189 | under every interleaving `probing` is set exactly while one probing call is in flight, and there are never two |
| CircuitBreaker.RedisStartsExactlyWhen | backend/app/rate_limit.py:160-182 | a call goes to Redis if and only if the latest Redis outcome is no error, or an error at least five seconds old with no probe in flight |
| CircuitBreaker.CoolDownEndsEarlyExactlyWhen | backend/app/rate_limit.py:160-182 | within five seconds of an error a call goes to Redis if and only if the latest Redis outcome is an answer |
| CircuitBreaker.EarlyAnswerIsAnOldCall | backend/app/rate_limit.py:160-182 | the first answer after an error, inside its cool-down, belongs to another call that was in flight at the error |
| CircuitBreaker.StaleAnswerEndsCoolDown | backend/app/rate_limit.py:171-182 | the early end of the cool-down is real, for any two ordinary calls in flight |
| CircuitBreaker.EveryCallChargedOnce | backend/app/rate_limit.py:157-182 | every call charges the local window exactly once, and one decided locally gets the verdict of that charge |
| CircuitBreaker.LocalBudgetHolds | backend/app/rate_limit.py:157-191 | calls let through locally stay within 2 * limit - 1 per window length across any outages and recoveries |
| CircuitBreaker.LocalBudgetPerWindow | backend/app/rate_limit.py:157-191 | and within the limit in each local window |
| Verdicts.AnsweredVerdict | backend/app/rate_limit.py:166-191 | in every schedule a call that Redis answers ends admitted if and only if the answered count is at most its limit, else with a wait of max(1, ttl) |
| Verdicts.LetThroughByRedisExactlyWhen | backend/app/rate_limit.py:166-191 | a call is let through on Redis's word if and only if some step answered it with a count up to its limit |
| Verdicts.RedisBudget | backend/app/rate_limit.py:25-36 | of calls with distinct positive answered counts, as in one Redis window, at most `limit` are let through |
| Verdicts.LocalVerdict | backend/app/rate_limit.py:157-191 | a call decided locally is admitted if and only if the count charged to its arrival, after the calls before it, is within its limit, else told the wait of that charge |
| Verdicts.FailedVerdict | backend/app/rate_limit.py:174-186 | a call whose Redis call fails is decided by its local charge when Redis is optional, else refused exactly when its policy fails closed |
| Verdicts.PolicyDecidesOnlyFailures | backend/app/rate_limit.py:174-186 | only a failure while Redis is required leaves a verdict to the policy |
| Verdicts.OnlyCancelsCancel | backend/app/rate_limit.py:187-189 | only a cancelled call ends without a verdict |
| CommerceStore.Store.constructor | backend/app/models.py:818-943 | the tables start empty, with the given coupons |
| CommerceStore.Store.VerifyTransaction | backend/app/commerce_services.py:219-549 | verifying a transaction makes exactly the model's step: replay, failed record, refusals that roll everything back, or fulfilment |
| CommerceStore.Store.RedeemCoupon | backend/app/commerce_services.py:397-412 | a valid coupon is counted and recorded once per learner, an unusable one is ignored |
| CommerceStore.Store.FulfilOffer | backend/app/commerce_services.py:376-541 | records the transaction and fulfils a plan, course or bundle, with the refusals of empty and invalid bundles |
| CommerceStore.Store.StartSubscription | backend/app/commerce_services.py:415-458 | a plan creates one subscription and one entitlement that ends with its period |
| CommerceStore.Store.BuyCourse | backend/app/commerce_services.py:460-494 | a course creates one purchase and one perpetual entitlement |
| CommerceStore.Store.BuyBundle | backend/app/commerce_services.py:496-539 | a bundle creates one purchase and one perpetual entitlement per distinct course |
| CommerceStore.Store.GrantCourses | backend/app/commerce_services.py:521-539 | the loop adds exactly one entitlement row per course |
| CommerceStore.Store.ProcessWebhook | backend/app/commerce_services.py:714-911 | a provider event makes exactly the model's step: seen, ambiguous, out of order, applied to its subscription, refunding its purchase, or ignored |
| CommerceStore.Store.UpdateSubscription | backend/app/commerce_services.py:821-879 | each kind of event sets the subscription and, row by row, every linked entitlement |
| CommerceStore.Store.ChangeEach | backend/app/commerce_services.py:827-836 | the loop over entitlement rows changes exactly the given ones |
| CommerceStore.Store.ReconcileExpired | backend/app/api.py:1858-1893 | exactly the subscriptions past their period and their entitlements expire, and the count is their number |
| CommerceStore.Store.ChangeSubscriptionPlan | backend/app/commerce_services.py:661-711 | a plan change moves the period of the subscription and of its active entitlement together |
| CommerceRuns.EveryRunIsSafe | backend/app/commerce_services.py:219-911 | in every reachable state rows are owned and linked, coupons count their redemptions, only active plans and products are sold, subscription and entitlement statuses agree, an active linked entitlement ends at the period end, and refunded purchases have revoked entitlements |
| CommerceRuns.ExactlyOnce | backend/app/commerce_services.py:249-539 | in every reachable state a transaction id has one row, at most one purchase or subscription, and one entitlement per plan, course or distinct course of a bundle |
| CommerceRuns.ReplayChangesNothing | backend/app/commerce_services.py:249-308 | a granted or rejected transaction is settled: whatever happens in between and whatever the provider says later, a replay by the owner changes nothing and gets the same ids or the same failure, and anyone else is refused |
| CommerceRuns.ManualEditsSparePaidRows | backend/app/cms_operations.py:410-520 | in every reachable state an administrator's grant, extension or revocation leaves every entitlement of a purchase or subscription as it is |
| CommerceRuns.StepCouples | backend/app/commerce_services.py:422-879 | every request keeps the statuses and dates of subscriptions, purchases and entitlements in step |
| CommerceRuns.StepKeeps | backend/app/commerce_services.py:219-911 | every request keeps ownership, links, uniqueness and coupon counts |
| Sales.AnsweredExactlyWhen | backend/app/commerce_services.py:219-413 | a transaction not on record is granted, and refused with each code, exactly under a condition on the fields of request, catalog and coupon; the conditions exclude each other |
| Sales.AnswerIsDeserved | backend/app/commerce_services.py:313-413 | each answer to such a transaction meets its own condition |
| Sales.GrantedPlan | backend/app/commerce_services.py:415-458 | a granted plan is one subscription and one entitlement to everything, with the caller, plan, status, trial flag and end that request, provider and plan determine |
| Sales.GrantedProduct | backend/app/commerce_services.py:460-541 | a granted course or bundle is one completed purchase and exactly one perpetual entitlement for each course the catalog lists, without repeats |
| Sales.CouponIsUsedExactlyWhen | backend/app/commerce_services.py:188-216 | a grant uses its coupon once for the caller if and only if the coupon is usable for the product; without a grant no coupon changes |
| Refunds.OnlyRefundsTouchPurchases | backend/app/commerce_services.py:882-908 | over every request a purchase and its entitlements change if and only if the request is a new refund event that names the purchase's transaction and no subscription; then it is refunded and all its entitlements are revoked |
| Refunds.RefundedExactlyWhen | backend/app/commerce_services.py:882-908 | in every reachable state a purchase is refunded if and only if such an event came after it |
| SubscriptionEvents.AnsweredExactlyWhen | backend/app/commerce_services.py:730-819 | each answer to a provider event is given if and only if its condition on the event's fields, the record and the named subscriptions holds |
| SubscriptionEvents.EventMovesItsSubscription | backend/app/commerce_services.py:813-911 | a new, timely event that names one subscription sets status, period, renewal flag and entitlements by its kind, and nothing else |
| SubscriptionEvents.UnnamedEventsSpareSubscriptions | backend/app/commerce_services.py:882-911 | an event that names no subscription changes none, and is recorded as processed if and only if it is a refund that names a purchase |
| Upkeep.ReconciledExactly | backend/app/api.py:1858-1893 | exactly the running subscriptions at or past their period end expire, with their entitlements; every other row stays |
| Upkeep.NothingOverdue | backend/app/api.py:1858-1893 | afterwards every running subscription ends in the future and a second pass changes nothing |
| Upkeep.CancelAnswer | backend/app/commerce_services.py:635-658 | a cancellation is accepted exactly for the owner's mock subscription outside production, and only stops the renewal |
| Upkeep.ChangePlanAnswer | backend/app/commerce_services.py:661-711 | a plan change is accepted exactly for the owner's mock subscription outside production and an active plan; the new period has 365 or 30 days |
| Upkeep.MovesEntitlement | backend/app/commerce_services.py:695-708 | with one active entitlement, exactly that one moves its end with the period |
| Upkeep.GrantAnswer | backend/app/cms_operations.py:410-428 | a grant is refused exactly for an unknown learner or a past end, else adds one live row of what was asked for |
| Upkeep.ExtendAnswer | backend/app/cms_operations.py:450-470 | an extension needs a future end, an administrator's grant and the version read, and moves only the end |
| Upkeep.RevokeAnswer | backend/app/cms_operations.py:490-510 | a revocation needs an administrator's grant and the version read, and only revokes |
| CommerceInvariants.RedeemCounts | backend/app/commerce_services.py:188-216 | a coupon's count stays the number of its redemptions and within its cap |
| CommerceInvariants.ApplyCoupled | backend/app/commerce_services.py:821-879 | applying any event keeps subscription and entitlement statuses in step |
| CommerceInvariants.ReconcileCouples | backend/app/api.py:1858-1888 | reconciliation keeps subscriptions and entitlements in step |
| WebhookConvergence.LatestDecides | backend/app/commerce_services.py:813-879 | whatever the order and repeats, the latest fresh renewal, expiration, grace or refund decides the statuses and the date of last update |
| WebhookConvergence.DeliveriesConverge | backend/app/commerce_services.py:761-879 | two delivery sequences with the same events, the latest fresh one a renewal, expiration, grace period or refund, end with the same subscription status, linked entitlement statuses and date of last update |
| WebhookOrder.StatusesConvergeExactlyWhen | backend/app/commerce_services.py:813-879 | the statuses and the date of last update are the same after every sequence of the same events if and only if the latest fresh event is decisive or every rival is inert under it |
| WebhookOrder.OtherKindsDoNotConverge | backend/app/commerce_services.py:813-879 | whenever a rival of the latest event is neither decided over nor inert, two orders of the same events are given that disagree |
| WebhookOrder.PeriodEndConvergesExactlyWhen | backend/app/commerce_services.py:813-836 | the period end is the same after every sequence of the same events if and only if the latest fresh event is a renewal with its own end, or no renewal and every rival renewal carries the recorded end |
| WebhookOrder.PeriodEndDependsOnOrder | backend/app/commerce_services.py:813-836 | whenever a rival renewal would move the recorded end, two orders of the same events are given that disagree on it |
| WebhookOrder.DeliveredView | backend/app/commerce_services.py:761-879 | statuses and period end after any deliveries are those of a fold over the events that are neither recorded nor out of date when they arrive |
| WebhookConvergence.StaleChangesNothing | backend/app/commerce_services.py:813-819 | events older than the recorded state change no commerce row |
| Access.ResolveAccess | backend/app/services.py:121-226 | access is allowed exactly when the policy is free or preview, or some live grant covers the available resource; the reported grant is one none outranks; refusals say why |
| Access.NearestPolicyDecides | backend/app/services.py:124-160 | the policy in force is the nearest one that is not inherited, with the preview flag first |
| Access.MoreGrantsNeverDeny | backend/app/services.py:177-205 | adding grants never denies what was allowed and never lowers the reported precedence |
| Access.AccessIsPaidFor | backend/app/services.py:177-205 | in every reachable state access to a paid resource rests on a purchase not refunded, a subscription neither expired nor revoked, or an administrator |
| Access.DeadGrantsNeverAllow | backend/app/commerce_services.py:833-905 | in every reachable state a grant of an expired or revoked subscription or a refunded purchase covers nothing |
| Access.PurchaseOpensItsCourses | backend/app/commerce_services.py:460-539 | in every reachable state a purchase not refunded opens every available resource of each course it paid for, without end |
| Access.SubscriptionOpensUntilPeriodEnd | backend/app/commerce_services.py:415-458 | in every reachable state an active or trialing subscription opens every available resource until exactly its period end |
| Access.WebhookSparesOtherAccess | backend/app/commerce_services.py:813-905 | a webhook never takes away access covered by a grant of another subscription or purchase |
| AccessRules.AllowedExactlyWhen | backend/app/services.py:121-205 | in every reachable state a resource opens if and only if it is free or a preview, or the learner has a purchase not refunded whose product sells it, a subscription in good standing, or an administrator's grant for it |
| AccessRules.LetsInExactlyWhen | backend/app/services.py:177-194 | an entitlement lets its learner in if and only if the purchase, subscription or grant it hangs on does |
| AccessRules.OneCourseOpensOnlyIt | backend/app/services.py:190-194 | a learner whose only grant is for one course opens, while it is in force, exactly that course and what hangs on it |
| AccessRules.LocatedExactlyWhen | backend/app/services.py:124-160 | which resources exist for access, and the course each hangs on |
| AccessRules.EndedExactlyWhen | backend/app/services.py:206-226 | a refusal reports ended access if and only if some own grant for everything, this resource or its course has ended |
| AccessRules.SourcesInOrder | backend/app/services.py:109-118 | sources rank from administrator's grant down to free, no two alike |
| Grading.AcceptedExactlyWhen | backend/app/services.py:350-362 | a submission is accepted if and only if no two answers are to one question and each answers a question of the assessment in its type |
| Grading.MarkedExactlyWhen | backend/app/services.py:359-379 | an answered question earns its points if and only if the answer is right: the key's choice or value, or the same set of options; a text never is |
| Grading.Grade | backend/app/services.py:350-392 | a submission is refused exactly for duplicate or foreign questions or a type mismatch, and otherwise scored question by question |
| Grading.EarnedWithinMaximum | backend/app/services.py:359-379 | the earned score is at most the maximum, and equal exactly when every answer is correct |
| Grading.PercentageInRange | backend/app/services.py:401 | the percentage lies between 0 and 100, and is 100 exactly when all questions are correct |
| Grading.OrderOfAnswersIrrelevant | backend/app/services.py:356-358 | the order of the answers changes neither acceptance nor any mark |
| Grading.OmittedEarnNothing | backend/app/services.py:363-379 | omitted questions earn nothing if and only if each of them has its grading key |
| Grading.MissingKeyPaysOut | backend/app/services.py:363-369 | a single-choice question without a key pays full marks to an empty submission |
| Watch.WatchRow.constructor | backend/app/media_workflow.py:184-192 | a new row has no credit |
| Watch.WatchRow.Report | backend/app/media_workflow.py:218-231 | a report is accepted exactly within the allowance, and a rejected one changes nothing |
| Watch.CreditIsEarned | backend/app/media_workflow.py:205-231 | over any run position <= furthest <= duration, and furthest is at most twice the server time and 60 times the accepted saves; the tolerance never accumulates |
| Watch.CompletionTakesTime | backend/app/media_workflow.py:223-230 | completion needs at least 0.475 of the duration in server time |
| Watch.CompletionIsPermanent | backend/app/media_workflow.py:229-230 | completion and the furthest point never revert |
| Watch.FairPlayerIsCredited | backend/app/media_workflow.py:218-231 | a player within the rules is never rejected, is credited its largest position and completes exactly at 95 percent |
| LearnerStore.Store.constructor | backend/app/models.py:425-657 | a learner starts without rows |
| LearnerStore.Store.RequiredQuizzesPassed | backend/app/academic.py:474-542 | the check by sets, counts and loops decides exactly the gate: quizzes passed, every video item has its asset and is watched, legacy videos watched |
| LearnerStore.VideosMatchItems | backend/app/academic.py:496-522 | comparing the two counts decides exactly whether every published video item has its asset |
| LearnerStore.Store.SyncProgress | backend/app/api.py:468-572 | a batch is applied in order or not at all, and every mutation of an accepted one is acknowledged |
| LearnerStore.Store.ApplyOne | backend/app/api.py:511-570 | one mutation is refused, silently repeated, or merged into its row and recorded |
| LearnerStore.Store.NewAttempt | backend/app/services.py:289-331 | an attempt gets the next number within the limit |
| LearnerStore.Store.Resume | backend/app/api.py:1372-1379 | resuming at or after the deadline expires an attempt in progress |
| LearnerStore.Store.SubmitAttempt | backend/app/api.py:1393-1450 | a submission makes exactly the model's step: key checks, replay from the record, refusals that roll back, an expiry that commits its record, or grading |
| LearnerStore.Store.FinishAttempt | backend/app/services.py:401-490 | a graded attempt is submitted with its payload and, when passed, completes the lessons it unlocks |
| LearnerStore.Store.CompleteLinked | backend/app/services.py:424-490 | exactly the linked, quiz-only lessons behind an open gate are completed |
| LearnerStore.Store.ReadWatch | backend/app/media_workflow.py:154-211 | reading the progress creates or re-opens the row of an available video |
| LearnerStore.Store.ReportWatch | backend/app/media_workflow.py:234-273 | a report credits the row and completes the lesson behind an open gate with nothing else to study; a rejected one creates no row |
| ProgressSync.AcceptedExactlyWhen | backend/app/api.py:511-548 | a batch is accepted exactly when no mutation is refused and no id stands for two requests |
| ProgressSync.ReplayIsSilent | backend/app/api.py:538-545 | replaying an accepted batch changes nothing |
| ProgressSync.BatchesSplit | backend/app/api.py:511-572 | a batch in two parts leads to the same outcome and state as in one |
| ProgressSync.RevisionCountsFreshIds | backend/app/api.py:546-570 | a lesson's revision grows by its number of distinct fresh mutation ids |
| ProgressSync.OrderIrrelevantWhenSane | backend/app/api.py:559-565 | when positions lie within their durations, order and repeats change neither acceptance nor the final state |
| ProgressSync.FoldDuration | backend/app/api.py:559-564 | the final duration is the largest ever reported, and one completion completes |
| ProgressSync.SanePosition | backend/app/api.py:560-562 | when positions lie within their durations, the final position is the largest reported |
| ProgressSync.PositionIsTopInEveryOrder | backend/app/api.py:559-562 | the largest reported position is reached in every order if and only if a known duration, or that of a mutation reporting it, admits it |
| ProgressSync.OrderMattersOtherwise | backend/app/api.py:559-562 | two mutations whose order changes the position reached |
| LearnerRuns.CompletedLessonsPassTheGate | backend/app/academic.py:474-542 | in every reachable state a completed lesson satisfies the gate, whichever writer completed it, and its position lies within its duration |
| LearnerRuns.CompletionNeverReverts | backend/app/api.py:559-565 | across all three writers completion never reverts and a changed row has a higher revision |
| LearnerRuns.AttemptsAreNumbered | backend/app/services.py:302-331 | in every reachable state attempts are numbered exactly 1 to n, each once, within the limit |
| LearnerRuns.FinishedAttemptsAreFinal | backend/app/services.py:341-349 | an attempt reaches one terminal status and is graded at most once |
| LearnerRuns.AnswerIsTheResult | backend/app/api.py:1408-1450 | a successful answer is the recorded result of the attempt |
| LearnerRuns.EverySuccessfulAnswerIsTheSame | backend/app/api.py:1408-1450 | any two successful submit responses of one attempt are the same payload, whatever the keys, bodies and retries |
| LearnerRuns.RunKeeps | backend/app/api.py:512-565 | every run keeps the gate, ranges, numbering and results, and only lets rows grow: attempts finish once, videos stay watched, changed progress has a higher revision and keeps its completion |
| LearnerRuns.GateStays | backend/app/academic.py:474-542 | an open gate stays open, since passed attempts and watched videos are permanent |
| LearnerRuns.CompletionTakesServerTime | backend/app/media_workflow.py:218-271 | whichever writer completed a lesson with a published video, at least 0.475 of the video's duration has passed on the server |
| LearnerRuns.BatchReplaysLater | backend/app/api.py:511-548 | an accepted batch can be replayed at any later point of a run without effect |
| LearnerOutcomes.PassedExactlyWhen | backend/app/services.py:318-402 | in every reachable state a submitted attempt has passed if and only if 100 times its earned points reach the passing percentage of the maximum (for an empty quiz, a percentage of 0); marks add up, and it was submitted by the deadline, the time limit after its start |
| LearnerOutcomes.CompletedLessonsReachTheShare | backend/app/academic.py:474-542 | a completed lesson with a published quiz has a submitted attempt that reached the passing share |
| LearnerOutcomes.CompletedLessonsAreWatched | backend/app/academic.py:496-542 | a completed lesson with a published video has its own asset watched to 95 percent |
| LearnerOutcomes.CompletedLegacyLessonsAreWatched | backend/app/academic.py:474-495 | a completed video lesson without items has its own video watched |
| LearnerOutcomes.ResumedExpiresExactlyWhen | backend/app/api.py:1372-1379 | resuming expires the attempt if and only if it is in progress and its deadline has come, and changes nothing else |
| LearnerAnswers.AnsweredExactlyWhen | backend/app/api.py:1393-1450 | a submission succeeds, and is refused with each code, exactly under a condition on key, record, attempt, deadline and answers |
| LearnerAnswers.GateOpensExactlyWhen | backend/app/academic.py:474-542 | the gate is open if and only if each published quiz has a passed attempt, each published video is watched, and a lesson without items has its own video watched |
| LearnerAnswers.MutationAnswer | backend/app/api.py:512-565 | a mutation is refused, repeated or merged exactly under conditions on course, kind, gate and record, and a merge determines the row |
| LearnerAnswers.StartAnswer | backend/app/services.py:289-331 | an attempt starts exactly when its quiz is published, access is given and an attempt is left |
| LearnerAnswers.PassCompletesExactly | backend/app/services.py:424-490 | a graded submission completes a lesson if and only if it passed, the lesson refers to the quiz and everything published in it is a passed quiz |
| LearnerAnswers.WatchAnswer | backend/app/media_workflow.py:154-183 | when a video can be watched, which refusal it gets otherwise, and its duration |
| LearnerAnswers.ReportAnswer | backend/app/media_workflow.py:205-231 | a report is refused as a forward seek exactly when it runs more than two seconds beyond twice the counted server time, at most half a minute of it |
| LearnerAnswers.ReadAnswer | backend/app/media_workflow.py:205-211 | reading the progress keeps what was credited and starts a new count of server time |
| LearnerAnswers.ReportCredits | backend/app/media_workflow.py:223-231 | an accepted report credits the largest position within the report, the video and the counted server time; the video completes exactly from 95 percent on |
| LearnerAnswers.ReportCompletesExactly | backend/app/media_workflow.py:234-273 | a credited report completes the lesson if and only if the video is complete, the gate is open and no note or resource is published |
| Utf8.RoundTrip | backend/app/services.py:68-73 | decoding the UTF-8 bytes of a text gives the text back |
| Base64.RoundTrip | backend/app/services.py:68-73 | the lenient base64url decoder gives back every byte sequence from its encoding |
| Base64.PaddingRestored | backend/app/services.py:68-73 | the `-len % 4` rule restores exactly the padding that was stripped, for every length |
| IsoTimestamp.RoundTrip | backend/app/services.py:68-75 | every valid aware timestamp is read back from its own text |
| IsoTimestamp.EveryDayCounts | backend/app/services.py:68-75 | the day number rises by one from each calendar day to the next |
| IsoTimestamp.InstantsFollowTheCalendar | backend/app/services.py:68-75 | timestamps of one offset compare as date and time of day, and the offset counts off |
| Cursor.CursorsAreUrlSafe | backend/app/services.py:67-70 | a cursor consists of letters, digits, `-` and `_` only |
| Cursor.RatingRoundTrip | backend/app/services.py:83-92 | every rating in hundredths is read back from its text |
| Cursor.CursorRoundTrip | backend/app/services.py:67-99 | a cursor gives back its instant or rating and its id if and only if a stated, checkable condition on id and instant holds |
| Paging.AfterIsSuffix | backend/app/api.py:168-173 | the rows the cursor's WHERE clause keeps, in order, are exactly those listed after the cursor's row |
| Paging.PagingEnumerates | backend/app/api.py:168-191 | following the cursors ends, and the pages together are the whole table, each row once, later times or higher ratings first and equal ones by descending id, every page full but the last |
| Paging.CursorKeeps | backend/app/api.py:168-180 | the rows a cursor keeps are exactly those with a smaller key, or the same key and a smaller id |
| Common.StrLessExactlyWhen | backend/app/api.py:171-180 | one id is before another exactly when it ends, or has the smaller character, where they first differ |
| Paging.EveryWalkEnumerates | backend/app/api.py:1513-1529 | every walk along the cursors yields exactly the sorted table |
| Paging.CursorsPage | backend/app/api.py:1798-1814 | rows with distinct ids and keys a cursor can carry can be paged over |
| Reorder.PositionTable.ReorderContent | backend/app/academic.py:565-582 | a list that is no permutation is refused, otherwise every row gets its rank |
| Reorder.PositionTable.Park | backend/app/academic.py:574-577 | the first phase moves every row to consecutive places from the offset |
| Reorder.PositionTable.Rank | backend/app/academic.py:578-580 | the second phase gives every row its requested rank |
| Reorder.PositionTable.ReorderLoosely | backend/app/api.py:3208-3216 | the negative-offset variant ranks the listed rows and leaves the others parked |
| Reorder.PhaseCriterion | backend/app/academic.py:574-580 | a phase keeps the key unique under every write order exactly when its ends are unique and no row moves onto another's place |
| Reorder.ContentWritesStayUnique | backend/app/academic.py:572-580 | at every intermediate write positions are unique and positive |
| Reorder.ContentEndsRanked | backend/app/academic.py:578-580 | the final positions are exactly 1 to n in the requested order |
| Reorder.LooseWritesStayUnique | backend/app/api.py:3208-3216 | the negative-offset variant keeps the key unique at every write exactly when the starting positions do not clash |
| Reorder.PositiveNeverClash | backend/app/api.py:3208-3211 | distinct positive positions never clash |
| Reorder.LooseEndsRanked | backend/app/api.py:3213-3216 | the final positions are the requested ranks, all positive, exactly when the request lists every row once |
| Reorder.NextReorderIsSafeExactlyWhen | backend/app/api.py:3208-3216 | after a request that omits rows the next reorder keeps the key unique at every write if and only if no omitted position p meets a listed rank p or p + 1000 or another omitted position p + 1000 |
| Reorder.OmissionBreaksTheNextReorder | backend/app/api.py:3208-3216 | an omitted row can make the next reorder collide |

## Left out

- Provider verification, receipts and webhook signatures are inputs: a verified result or a parsed event; an event's type is given as one of its six kinds.
- Generated ids are a counter; prices, metadata, error messages, audit log entries and order numbers are not modelled.
- A single-row query with several matching rows returns the oldest, except the purchase lookup of a webhook, where any row may come first.
- The catalog, the lesson content and the grading keys do not change while requests run.
- A coupon code arrives already stripped and upper-cased, and an empty one as no code; the order of bundle entitlement ids is that of the courses' first mention, not alphabetical.
- Restoring purchases is not modelled: it is a loop of verifications followed by a query.
- Transactions, advisory locks and row locks are taken as given: each request is one atomic step. `IDEMPOTENCY_IN_PROGRESS`, which needs two concurrent inserts of one key, is not reachable then.
- Access to a video or an assessment and the active enrolment are inputs of the learner's requests.
- Request-schema limits (100 mutations, 500 answers) are not modelled; they only exclude inputs.
- `fingerprint` is equality of the request, so hash collisions are excluded.
- Seconds and percentages are reals; rounding of the stored percentage to three decimals is not modelled.
- The Lua script is one step whose answer is any count and time to live; throttled logging of degraded operations is not modelled.
- LocalRateLimiter.LocalRateLimiter.Consume: requires a positive capacity, because with capacity zero the original raises IndexError on an empty heap.
- CircuitBreaker.RedisStartsExactlyWhen: clock readings are non-negative and never run back, as a monotonic clock gives them.
- LimiterRuns.BoundedRefinesNaive: assumes the table never full, because the bounded limiter refuses new keys when it is; `FewKeysNeverFull` gives a condition a caller can check.
- Verdicts.RedisBudget: takes the answered counts of one window as distinct and positive, which `INCR` gives; the expiry of the Redis key is not modelled.
- Upkeep.MovesEntitlement: for a subscription with at most one active entitlement, as `CommerceRuns.EveryRunIsSafe` gives in every reachable state.
- IsoTimestamp.RoundTrip: the parser reads the shape `isoformat` writes; other spellings that `fromisoformat` accepts are not modelled.
- Cursor.RatingRoundTrip: ratings of three digits with two decimals, the column's range; other spellings that `float` accepts are not modelled.
- Paging.PagingEnumerates: the table does not change during the walk, sort keys are not null, and ids compare by code point.
- WebhookOrder.StatusesConvergeExactlyWhen: the events identify one existing subscription, an event id stands for one event and effective dates are distinct; deliveries may happen at any server times.
- Listings, serializers, search, notifications, certificates, downloads, publishing checks and settings: nothing beyond reading a few branches.
