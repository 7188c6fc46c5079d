# rho-stripe, modelled and proved in Dafny

rho-stripe is a billing layer over Stripe. This project models the parts of it
that keep state or take part in a protocol, and proves what they promise for all
inputs, all runs and all interleavings:

- **Credit ledger** (`CreditLedger`, `CreditRepo`, `CreditHistory`,
  `CreditOptimality`, `CreditRedelivery`, `CreditDeliveries`): grants with expiries,
  deduction by earliest expiry, deduplication, the expiry sweep, revocation, and the
  two webhook handlers that turn paid sessions and invoices into grants.
- **Catalog reconciler** (`CatalogSpec`, `CatalogAccount`, `CatalogDiff`,
  `CatalogPlan`, `CatalogApply`, `CatalogConvergence`): the planner `Diff`, the
  executor `Apply`, and a model of the Stripe account behind the backend interface.
- **Webhook protocol** (`WebhookDedup`, `WebhookDurableQueue`,
  `WebhookMemoryQueue`): the claim store, the Postgres queue and the in-memory
  queue as step machines in which any step of any party may come next.
- **Invoice numbers** (`InvoiceNumbers`), **idempotency encodings**
  (`IdempotencyKeys`), **plan limits** (`PlanLimits`), **usage metering**
  (`UsageMetering`) and the **subscription mirror** (`SubscriptionMirror`).

`Text.dfy` and `Runs.dfy` hold what several modules share: joins and cuts of keys,
decimal numerals, sorted key enumerations, wrapping int64 arithmetic, and runs of a
step machine.

Objects that the code updates in place are classes; each method is tied to a
function or relation on values, and the theorems are about those values. A mutex
makes each repository call atomic, so concurrent callers are a sequence of calls.
Protocols are step machines: a run is any sequence of steps, and a step that is not
possible changes nothing. Calls of the webhook protocols to their store and table, of
a draft to the number ledger, of the two grant handlers to the credit store and of
Apply to Stripe may report an error after or without having taken effect.
Contracts speak of the fields, event kinds, statuses and outcomes themselves wherever a
decision of the code is at stake, and no proof uses automatic induction.

The main results:

- Earliest-expiry deduction is optimal over whole runs
  (`CreditOptimality.EarliestExpiryIsOptimal`); revocations must be excluded
  (`RevocationBreaksOptimality`).
- Every grant is conserved (`CreditHistory.Conservation`), every request id is
  charged once (`OneAcceptance`), the sweep cannot be observed (`ExpiryInvisible`),
  and payments are credited once under any interleaving of deliveries
  (`CreditDeliveries.SessionCreditedOnce`, `InvoiceCreditedOnce`).
- Two rounds of Diff and Apply reach the declared catalog from any sound account in
  any namespace (`CatalogConvergence.TwoRoundsConverge`), every prefix of Apply is safe
  (`EveryPrefixIsSafe`) and can be restarted from (`RestartConverges`).
- One dispatch at a time and none after success (`WebhookDedup`), no accepted event
  lost (`WebhookDurableQueue`), drain on shutdown (`WebhookMemoryQueue`).

Where the code does not keep a promise unconditionally, the condition is proved
together with the runs or inputs that break it:

- whenever a delivery stalls for a TTL between claim and dispatch it can dispatch again
  (`WebhookDedup.StalledDeliveryDispatchesAgain`), and a delivery inside dispatch is
  joined there by the next one exactly when its claim has expired
  (`SlowDispatchIsJoinedIff`);
- a sweep keeps one worker per event exactly when no busy worker's claim is older than
  StuckAfter (`WebhookDurableQueue.SweepIsExclusiveIff`, `ExclusiveIffPrompt`);
  otherwise two workers run one event and a newly inserted row can be dropped
  (`LateSweepRunsTwice`, `LateReleaseRunsTwice`, `LateCompleteDropsNewRow`);
- a later Shutdown returns nil however much is left to do
  (`WebhookMemoryQueue.LaterShutdownReturnsAtOnce`), although the comment at
  webhooks/async.go:152-153 calls it idempotent and waiting;
- Next overwrites the record of a resolved number exactly when its draw hits it
  (`InvoiceNumbers.CollidesIff`, `ResolvedForGood`), which happens wherever two prefixes
  share a number (`SharedNumberIsReissued`); and a number whose draw took effect without
  an answer, or whose draft died, is reported to nobody (`DraftsAreAccountedFor`);
- a description the spec blanks out is never removed, so Diff never becomes empty
  (`CatalogConvergence.TwoRoundsConverge`); in a namespace with an underscore an
  undeclared product, and an undeclared price such as the orphan of a half-applied
  replacement, is archived only by coincidence of keys
  (`CatalogPlan.UnderscoreHidesProducts`, `CatalogConvergence.OrphanIsArchivedIff`);
- redelivering a deletion without an end time moves EndedAt, and the memory and
  Postgres rules differ on events of the same second
  (`SubscriptionMirror.RedeliveredDeletionMovesEnd`, `TiesDiverge`);
- a negative limit reads as unlimited (`PlanLimits.NegativeLimitIsUnlimited`), and adds
  that leave int64 can turn the cap negative (`WrappingAddsTurnNegative`, with the exact
  conditions in `CapOfSubscriptions` and `MoreSubscriptionsNeverLess`);
- a subject that extends another by a bar lends it its request ids
  (`CreditHistory.ClashAnswersAsRepeat`), and so do two meters
  (`UsageMetering.ClashDropsUsage`);
- two sessions that share a payment intent, for instance the empty one, are credited
  as one (`CreditRedelivery.SharedIntentIsCreditedOnce`).

## Model

| member | source | states |
|---|---|---|
| `CreditLedger.BalanceMeaning` | credits/repo.go:341-361 | a balance is the usable credit, the number of grants of the bucket with credit and not past their expiry, and the first instant some of it can lapse |
| `CreditLedger.DrawEffect` | credits/repo.go:217-232 | any draw lowers the bucket by exactly the amount, raises no later balance and leaves other buckets alone |
| `CreditLedger.GreedyDichotomy` | credits/repo.go:183-211 | for every later instant an earliest-expiry draw takes nothing still valid then, or has used up everything that lapses before |
| `CreditLedger.DeductInOrder` | credits/repo.go:183-211 | in the fields of the grants: what is drawn from was usable, and nothing is left of a usable grant that expires sooner, expires where this one does not, or has the same expiry and was granted before |
| `CreditLedger.GrantAddsCredit` | credits/repo.go:122-138 | a new grant adds its amount to its own bucket until its validity of so many times 24 hours runs out, and nothing elsewhere |
| `CreditLedger.GrantWithoutRef` | credits/repo.go:112-141 | a grant without a source ref is always booked and never deduplicated |
| `CreditLedger.SweepMeaning` | credits/repo.go:265-274 | the sweep leaves no credit on an expired grant and touches no other |
| `CreditLedger.RevokeMeaning` | credits/repo.go:307-320 | a revocation leaves no credit on the grant and touches no other |
| `CreditLedger.AddGrantSound` | credits/repo.go:108-143 | a grant keeps ids unique and 0 <= remaining <= initial |
| `CreditLedger.ServedSound` | credits/repo.go:217-237 | a served request keeps every row's identity and only lowers remaining amounts |
| `CreditLedger.SweepSound` | credits/repo.go:260-276 | the sweep keeps the ledger sound |
| `CreditLedger.RevokeSound` | credits/repo.go:304-322 | a revocation keeps the ledger sound |
| `CreditRepo.BuildPool` | credits/repo.go:164-182 | the pool is exactly the unexpired grants of the bucket with credit, and its sum is the bucket's usable credit |
| `CreditRepo.SortPool` | credits/repo.go:183-192 | the pool reordered so that none comes before a strictly earlier grant; ties are left open |
| `CreditRepo.PlanSteps` | credits/repo.go:194-214 | drains whole grants in order until covered and reports exactly the part that cannot be covered; a negative amount goes to the first grant |
| `CreditRepo.PlanIsGreedy` | credits/repo.go:194-231 | applying a plan touches no grant while a strictly earlier one keeps credit, and takes exactly the amount |
| `CreditRepo.RowsAreReceipts` | credits/repo.go:217-231 | the rows written account for the draw grant by grant and for the request in total |
| `CreditRepo.ApplySteps` | credits/repo.go:216-232 | the apply loop lowers each planned grant once and writes one row per step |
| `CreditRepo.DrawGreedily` | credits/repo.go:156-232 | pool, sort, plan and apply together succeed exactly when the usable credit covers the amount; a negative amount raises a first grant |
| `CreditRepo.MemoryRepo.constructor` | credits/repo.go:68-84 | an empty, sound ledger |
| `CreditRepo.MemoryRepo.AddGrant` | credits/repo.go:108-143 | returns the grant stored under the dedup key, or stores a new one with the values given and its expiry; with a positive amount the ledger stays sound |
| `CreditRepo.MemoryRepo.BalanceLocked` | credits/repo.go:341-361 | one pass computes the balance |
| `CreditRepo.MemoryRepo.TryDeduct` | credits/repo.go:145-238 | repeats, serves in the order of expiry and grant time, or refuses without a change, and answers with the new balance; for non-positive amounts, which its callers exclude, what it does instead |
| `CreditRepo.MemoryRepo.RunExpiry` | credits/repo.go:260-276 | zeroes exactly the expired grants and reports their number and credit |
| `CreditRepo.ExpiredCreditAdds` | credits/repo.go:263-275 | the reported credit does not depend on the order in which subjects are visited |
| `CreditRepo.SweepReports` | credits/repo.go:265-272 | the reported credit is what the sweep takes from the grants, the reported number that of grants past their expiry with credit left |
| `CreditRepo.MemoryRepo.RevokeGrant` | credits/repo.go:304-322 | zeroes and annotates the grant with the id; an unknown id changes nothing |
| `CreditHistory.RunSound` | credits/repo.go:108-322 | every reachable ledger is sound |
| `CreditHistory.DeductExact` | credits/repo.go:145-238 | a new request succeeds iff the balance covers it, then the balance drops by exactly the amount; otherwise nothing changes; no other bucket or subject notices |
| `CreditHistory.Conservation` | credits/repo.go:108-322 | initial = remaining + recorded deductions + expired + revoked, for every grant of every reachable ledger |
| `CreditHistory.OneAcceptance` | credits/repo.go:149-154 | at most one acceptance per (subject, request id), and the rows under it sum to the accepted amount or to 0 |
| `CreditHistory.RequestKeysClash` | credits/repo.go:149-150 | two subjects can share the key of non-empty request ids iff one extends the other by a bar |
| `CreditHistory.ClashAnswersAsRepeat` | credits/repo.go:149-154 | and then a run exists in which the first request of a subject without credit is answered as a repeat |
| `CreditHistory.TakeFromIsDeducted` | credits/repo.go:194-237 | drawing the whole amount from a usable grant with none earlier is what TryDeduct does |
| `CreditHistory.StepAlike` | credits/repo.go:165-171 | from ledgers that differ only in dead credit the same call gives the same answer and again such ledgers |
| `CreditHistory.ExpiryInvisible` | credits/repo.go:260-276 | every run can be replayed with the sweep added or left out, with the same answers and balances at all later times |
| `CreditOptimality.DrawKeepsAhead` | credits/repo.go:183-192 | if ours holds at least as much credit for every later instant, it still does after both serve the same request |
| `CreditOptimality.EarliestExpiryIsOptimal` | credits/repo.go:156-232 | over any run without revocations, if any allocator serves every request then earliest expiry does, and is never behind for any future instant |
| `CreditOptimality.RevocationBreaksOptimality` | credits/repo.go:304-322 | in a run of two grants, a request, a revocation and the request again, a rival serves both requests and earliest expiry refuses the second |
| `CreditRedelivery.ApplyGrantsFromSession` | credits/grant_handler.go:21-86 | for the two session kinds the calls that take effect are the units of all pending grants, in order, up to the store failure; nil iff all got through; other kinds and sessions without grants do nothing, grants without a subject are an error |
| `CreditRedelivery.GrantUnits` | credits/grant_handler.go:60-83 | the inner loop: as many grant calls as the quantity, one if it is not positive |
| `CreditRedelivery.SessionBlock` | credits/grant_handler.go:54-71 | the calls of a pending grant: quantity many, numbered from 0, with its bucket, amount, validity and ref |
| `CreditRedelivery.SessionCallCount` | credits/grant_handler.go:54-83 | a session asks for the sum of its quantities |
| `CreditRedelivery.SplitNamespacedKey` | credits/recurring_handler.go:138-150 | finds the product and price of a namespaced key, and fails only for keys of no such form |
| `CreditRedelivery.ApplyRecurringGrantsFromInvoice` | credits/recurring_handler.go:22-97 | for the two paid kinds of a subscription invoice with a subject the calls that take effect are one grant per line whose product has a recurring grant, up to the store failure; nil iff all got through; otherwise none |
| `CreditRedelivery.LineGrants` | credits/recurring_handler.go:58-70 | a line leads to a grant iff its key is namespace, product with a recurring grant and price joined by dots |
| `CreditRedelivery.InvoiceCallsAre` | credits/recurring_handler.go:75-87 | and what the call asks for: bucket, amount, validity, ref and subject |
| `CreditRedelivery.DeliverExtends` | credits/grant_handler.go:54-83 | a delivery, complete or cut short, extends the run of the ledger |
| `CreditRedelivery.OneGrantPerRef` | credits/repo.go:112-141 | in every run a (subject, bucket, ref) has exactly one grant, of the amount first asked |
| `CreditRedelivery.RowsWereAsked` | credits/repo.go:108-143 | every grant of every reachable ledger is the booking of some grant call, with its subject, bucket, amount, validity and ref |
| `CreditRedelivery.GrantKeyUnique` | credits/repo.go:375-380 | a dedup key names one (subject, bucket, ref) when subject and bucket avoid the bar |
| `CreditRedelivery.SessionRefUnique` | credits/grant_handler.go:66-66 | a session ref determines payment intent, grant index and unit |
| `CreditRedelivery.InvoiceRefUnique` | credits/recurring_handler.go:81-81 | an invoice ref determines invoice and product |
| `CreditRedelivery.SessionRefIsNotInvoiceRef` | credits/grant_handler.go:66-66 | sessions and invoices do not share refs |
| `CreditRedelivery.SharedIntentIsCreditedOnce` | credits/grant_handler.go:66-66 | two sessions ask under the same keys iff they share the payment intent, and are then credited once |
| `CreditDeliveries.InputsAre` | credits/grant_handler.go:28-52 | which events of either kind lead to calls, and which sessions are refused |
| `CreditDeliveries.HandlerIsDelivery` | credits/grant_handler.go:21-86 | a handler execution on its own, cut short or not, is a delivery of the interleaved history |
| `CreditDeliveries.AnsweredIsAsked` | credits/grant_handler.go:72-75 | a delivery that returned nil has had all its calls answered by the store |
| `CreditDeliveries.SessionAlwaysAsks` | credits/grant_handler.go:60-71 | if the payment intent is this session's alone, every call under its refs asks for what it owes |
| `CreditDeliveries.InvoiceAlwaysAsks` | credits/recurring_handler.go:75-87 | likewise for an invoice id |
| `CreditDeliveries.SessionNothingElse` | credits/grant_handler.go:60-71 | at every point a grant under a ref of the session is one of the units it owes, as it owes it |
| `CreditDeliveries.InvoiceNothingElse` | credits/recurring_handler.go:53-87 | at every point a grant under a ref of the invoice is that of a product on its lines |
| `CreditDeliveries.SessionCreditedOnce` | credits/grant_handler.go:54-83 | under any interleaving of deliveries, failures and other calls, once some delivery of either kind returned nil each pending grant is credited quantity times amount (amount, if the quantity is not positive), one grant per unit, and no other grant of any subject or bucket carries a ref of the session |
| `CreditDeliveries.InvoiceCreditedOnce` | credits/recurring_handler.go:22-93 | announced as paid, as payment succeeded or both, an invoice some delivery of which returned nil has exactly one grant per product with a recurring grant, and no other grant carries a ref of it |
| `CatalogSpec.ValidatePrice` | catalog/spec.go:240-296 | collects no field error exactly for the allowed kinds with a non-negative amount, a currency and an interval where one belongs, and returns the price with its defaults |
| `CatalogSpec.PatternsAccept` | catalog/types.go:284-300 | what the patterns for namespaces, keys and currencies accept, by alphabet and length |
| `CatalogSpec.ValidateProduct` | catalog/spec.go:155-238 | collects no field error exactly for a product with name, tax category and valid prices under valid keys, in any map order |
| `CatalogSpec.NewSpec` | catalog/spec.go:24-123 | collects no field error exactly for a valid namespace and valid products under valid keys, and returns the normalised spec exactly then |
| `CatalogSpec.NewSpecWellFormed` | catalog/spec.go:155-296 | an accepted spec is normalised and still valid |
| `CatalogSpec.NewSpecIdempotent` | catalog/spec.go:24-123 | validation keeps all keys and changes nothing the second time |
| `CatalogSpec.PriceKeyInjective` | catalog/spec.go:127-129 | (namespace, product, price) to lookup key is injective |
| `CatalogSpec.ProductIdInjective` | catalog/spec.go:146-148 | product keys have distinct Stripe ids |
| `CatalogSpec.LookupKeyRoundTrip` | catalog/diff.go:365-381 | lookupKeyInSpec inverts the key function on declared prices and finds nothing else |
| `CatalogSpec.SuffixIsKey` | catalog/diff.go:344-361 | the namespace-blind suffix is the product key iff the namespace has no underscore |
| `CatalogSpec.NoSuffix` | catalog/diff.go:344-361 | and empty for an id without a further underscore |
| `CatalogAccount.ExecSound` | catalog/backend.go:9-51 | every accepted call keeps lookup keys unique and prices on existing products |
| `CatalogAccount.OldPrice` | catalog/backend.go:102-107 | an existing price can only lose its key to a transfer or be deactivated |
| `CatalogAccount.UpdateSkipsEmpty` | catalog/backend.go:14-17 | an update changes only what it is given |
| `CatalogAccount.CreatedPrice` | catalog/backend.go:102-107 | a created price is there, active, under its key |
| `CatalogAccount.ProductTouched` | catalog/backend.go:14-17 | a product that one call names ends with that call's effect |
| `CatalogAccount.ProductUntouched` | catalog/backend.go:14-17 | a product no call names keeps its record or its absence |
| `CatalogDiff.IndexCurrent` | catalog/diff.go:126-136 | the two index maps of the listing |
| `CatalogDiff.WalkProduct` | catalog/diff.go:139-234 | the create, update, unarchive and price items of one declared product |
| `CatalogDiff.PricesInOrder` | catalog/diff.go:185-233 | the create and replace items of its prices |
| `CatalogDiff.SuffixKeys` | catalog/diff.go:325-342 | the sorted product keys of the listing |
| `CatalogDiff.WalkExisting` | catalog/diff.go:237-278 | the archive items of one listed product |
| `CatalogDiff.Diff` | catalog/diff.go:123-281 | the whole plan, a function of spec and listing |
| `CatalogPlan.ByKeyIsHolder` | catalog/diff.go:126-136 | the key index finds the one price that holds a key |
| `CatalogPlan.DiffIsPlan` | catalog/diff.go:123-281 | in every namespace Diff plans exactly the operations that separate account and spec, each once, except the archiving of what belongs to products it does not visit |
| `CatalogPlan.ReplacedIff` | catalog/diff.go:399-425 | a replacement of a held key is planned iff the holder is inactive or differs in amount, currency, kind or, for recurring prices, interval or interval count |
| `CatalogPlan.UpdatedIff` | catalog/diff.go:447-449 | an update of an active declared product is planned iff name or description differs |
| `CatalogPlan.ArchivedIffVisited` | catalog/diff.go:236-278 | the walk over the suffixes meets the product of a wanted archive item iff some id in the account has that suffix |
| `CatalogPlan.VisitedIsSuffix` | catalog/diff.go:325-342 | said about the listing: the key of a visited product is one of the collected suffixes |
| `CatalogPlan.PlainNamespaceVisitsAll` | catalog/diff.go:344-361 | without an underscore in the namespace every product is visited |
| `CatalogPlan.UnderscoreVisits` | catalog/diff.go:325-361 | in a namespace head_tail product k is visited iff the account also has a product j with k = tail_j |
| `CatalogPlan.UnderscoreHidesProducts` | catalog/diff.go:325-361 | so in such a namespace an undeclared active product k, or an undeclared active price on any product k, gets its archive item iff that holds |
| `CatalogApply.Backend.Do` | catalog/backend.go:9-25 | a backend call is refused without effect, succeeds, or fails with or without effect |
| `CatalogApply.ApplyPhase` | catalog/sync.go:25-104 | one phase sends its calls in order and stops at the first failure |
| `CatalogApply.Apply` | catalog/sync.go:25-93 | the calls that take effect are a prefix of the plan's, all of them unless the backend fails or refuses |
| `CatalogApply.CallOrigin` | catalog/sync.go:25-104 | a call is sent for an item of the plan, and every item sends its calls |
| `CatalogApply.CallOwner` | catalog/sync.go:25-93 | no two planned items share a call |
| `CatalogConvergence.ReplacementFirst` | catalog/sync.go:55-67 | a replaced price is deactivated only after its replacement exists |
| `CatalogConvergence.NextAccepted` | catalog/sync.go:10-18 | every call of a plan is one Stripe accepts at the point where it is made |
| `CatalogConvergence.PrefixSound` | catalog/sync.go:21-24 | after any number of calls lookup keys are unique and prices hang on products |
| `CatalogConvergence.KeyKept` | catalog/sync.go:55-67 | a declared key loses its price only to the declared replacement |
| `CatalogConvergence.EveryPrefixIsSafe` | catalog/sync.go:21-24 | after any number of calls nothing declared was deactivated without an active replacement and every declared key that resolved still does |
| `CatalogConvergence.OneRound` | catalog/diff.go:123-281 | in every namespace one complete round leaves every declared product active and every declared key on an active price of the declared amount, currency, kind and interval; of the undeclared active products and prices exactly those stay, untouched, whose product Diff does not visit |
| `CatalogConvergence.RoundCreatesAsDeclared` | catalog/diff.go:142-157 | a product the round creates has the declared texts, tax code and stamped metadata |
| `CatalogConvergence.RoundPricesAsDeclared` | catalog/diff.go:185-233 | a price the round creates hangs on the declared product under the declared key with the declared values |
| `CatalogConvergence.RoundRetiresProduct` | catalog/diff.go:249-259 | an undeclared active product is archived iff visited |
| `CatalogConvergence.RoundRetiresPrice` | catalog/diff.go:261-277 | an undeclared active price is archived iff its product is visited, and no round makes a new one |
| `CatalogConvergence.PlainNamespaceIsClean` | catalog/diff.go:236-278 | in a namespace without an underscore nothing undeclared stays active |
| `CatalogConvergence.OnlyUpdatesRemain` | catalog/diff.go:158-182 | where everything declared is in sync only product texts and archivings can still be wanted |
| `CatalogConvergence.TwoRoundsConverge` | catalog/diff.go:112-123 | in every namespace two rounds reach the declared catalog, the second plan holds texts and what the first did not visit, undeclared things stay active exactly where neither account nor spec makes Diff visit them, and a third plan is empty iff the spec blanks out no description |
| `CatalogConvergence.RestartConverges` | catalog/sync.go:55-79 | syncing from any half-applied state reaches the declared catalog just the same |
| `CatalogConvergence.OrphanIsArchivedIff` | catalog/sync.go:55-67 | a replaced price whose deactivation was lost stays active after the next round iff its product is not visited |
| `CatalogConvergence.Sync` | cli/cli.go:166-201 | a sync run stops early only because the backend fails, is safe wherever it stops, and when complete has everything declared in sync and has archived what it visits |
| `WebhookDedup.StepKeepsInv` | webhooks/handler.go:514-548 | every step keeps: an unexpired claim owns the store entry, unreleased claims lie a TTL apart |
| `WebhookDedup.OneDispatchAtATime` | webhooks/handler.go:526-548 | at most one delivery whose claim is in time is inside dispatch, in every interleaving |
| `WebhookDedup.SlowDispatchIsJoinedIff` | webhooks/handler.go:526-634 | while a delivery is inside dispatch the next one gets in beside it iff the claim of the first has expired |
| `WebhookDedup.NoDispatchAfterSuccess` | webhooks/handler.go:629-698 | once a dispatch succeeded no delivery in time starts another before claim and mark expire |
| `WebhookDedup.SuccessesAreApart` | webhooks/handler.go:684-692 | successful deliveries claimed the event a TTL apart, the later one a TTL after the mark |
| `WebhookDedup.DuplicateIsReplayed` | webhooks/handler.go:514-524 | while a mark is alive a further delivery is answered without a claim |
| `WebhookDedup.RetryAfterTtl` | webhooks/handler.go:526-548 | nothing blocks an event for longer than a TTL |
| `WebhookDedup.RetryAfterUnlock` | webhooks/handler.go:669-673 | after a failed dispatch and its unlock the next delivery can dispatch at once |
| `WebhookDedup.MarksHaveReasons` | webhooks/handler.go:551-698 | in every run an event is marked only after a skip, a success, or a failure that was given up, and unlocked only after a failure to be retried |
| `WebhookDedup.FailedDispatchIsRetried` | webhooks/handler.go:634-684 | from every run with a delivery inside dispatch, its failure and unlock let the next delivery dispatch at once |
| `WebhookDedup.SettledDispatchIsMarked` | webhooks/handler.go:652-692 | success, or a failure that is given up, is marked and answers the next delivery for a TTL |
| `WebhookDedup.SkippedIsMarked` | webhooks/handler.go:551-563 | an event of another namespace is marked without a dispatch |
| `WebhookDedup.FailedGetEnds` | webhooks/handler.go:514-519 | a failed look-up ends the delivery without a claim |
| `WebhookDedup.LostLockBlocksIff` | webhooks/handler.go:526-532 | a claim whose answer is lost blocks the next delivery for a TTL iff it was applied |
| `WebhookDedup.LostMarkIsFoundIff` | webhooks/handler.go:686-692 | a mark whose answer is lost is found by the next delivery iff it was applied |
| `WebhookDedup.LostUnlockFreesIff` | webhooks/handler.go:669-673 | an unlock whose answer is lost frees the event iff it was applied |
| `WebhookDedup.LostOwnershipIsHarmless` | webhooks/handler.go:669-692 | without the lock neither mark nor unlock touches the store |
| `WebhookDedup.AnsweredStays` | webhooks/handler.go:509-698 | an answered delivery stays answered, any other may crash and leaves the store as it is |
| `WebhookDedup.StalledDeliveryDispatchesAgain` | webhooks/handler.go:526-634 | in every run with a claimed delivery, a stall of a TTL lets it dispatch an event another one has marked processed |
| `WebhookDurableQueue.AcceptedIsKeptOrFinished` | repos/postgres/webhook_queue.go:209-289 | an accepted event absent from the table was answered with nil or a permanent failure |
| `WebhookDurableQueue.AcceptedIsAnswered` | repos/postgres/webhook_queue.go:116-127 | in steps alone: an event whose insert was answered and whose row is gone was returned by its worker with nil or a permanent failure |
| `WebhookDurableQueue.RecordsAre` | repos/postgres/webhook_queue.go:209-236 | accepted are exactly the answered inserts, finished exactly the returns with nil or a permanent failure |
| `WebhookDurableQueue.OutcomeDecidesRow` | repos/postgres/webhook_queue.go:209-236 | success and permanent failure delete the row and cannot release it, a retryable error releases it and cannot delete it |
| `WebhookDurableQueue.LostAnswers` | repos/postgres/webhook_queue.go:116-127 | what an insert or a claim whose answer is lost leaves in the table |
| `WebhookDurableQueue.BusyStaysBusy` | repos/postgres/webhook_queue.go:196-236 | a busy worker takes no other row, and only its own steps move it |
| `WebhookDurableQueue.DeletedStaysDeleted` | repos/postgres/webhook_queue.go:292-302 | only an insert adds a row; a late release never resurrects one |
| `WebhookDurableQueue.OneWorkerPerEvent` | repos/postgres/webhook_queue.go:241-277 | while no sweep meets a busy worker, no two workers run one event |
| `WebhookDurableQueue.SweepIsExclusiveIff` | repos/postgres/webhook_queue.go:320-327 | a sweep keeps exclusion iff no busy worker's claim is older than StuckAfter |
| `WebhookDurableQueue.ExclusiveIffPrompt` | repos/postgres/webhook_queue.go:241-337 | exclusion holds at every point of a run iff the run is prompt |
| `WebhookDurableQueue.LateSweepRunsTwice` | repos/postgres/webhook_queue.go:320-327 | from every exclusive state with a late worker a sweep and a claim, by another worker that crashes and starts over, leave two workers busy on one event |
| `WebhookDurableQueue.RowStaysUntilAnswered` | repos/postgres/webhook_queue.go:116-127 | under the same condition a row stays until a dispatch after its insert answered it |
| `WebhookDurableQueue.LateReleaseRunsTwice` | repos/postgres/webhook_queue.go:292-302 | and a late release lets two workers in time run one event |
| `WebhookDurableQueue.LateCompleteDropsNewRow` | repos/postgres/webhook_queue.go:281-289 | from every exclusive state with a late worker a row inserted after its dispatch returned can be dropped undispatched |
| `WebhookDurableQueue.RunIsDrainable` | repos/postgres/webhook_queue.go:306-337 | from every reachable state the table can be emptied |
| `WebhookMemoryQueue.StepKeepsInv` | webhooks/async.go:131-177 | mutual exclusion, closing, flow and exit invariants hold after every step |
| `WebhookMemoryQueue.NeverPanics` | webhooks/async.go:131-164 | no interleaving sends on the closed channel or closes it twice |
| `WebhookMemoryQueue.ExactlyOnce` | webhooks/async.go:97-112 | an item whose Enqueue returned nil is waiting, with one worker, or finished, and only one of these |
| `WebhookMemoryQueue.CallsAreExplained` | webhooks/async.go:131-177 | in every run each call goes through lock, look, send or close, and unlock in order; an Enqueue fails only because the queue is closed or its context ended |
| `WebhookMemoryQueue.WriterIsAlone` | webhooks/async.go:135-164 | while a Shutdown is between lock and unlock no Enqueue and no other Shutdown is |
| `WebhookMemoryQueue.NeverOverfull` | webhooks/async.go:80-80 | the channel never holds more than its capacity |
| `WebhookMemoryQueue.NothingSentAfterClose` | webhooks/async.go:137-141 | once the flag is closed nothing more is sent |
| `WebhookMemoryQueue.OpenQueueAccepts` | webhooks/async.go:131-150 | an open queue with room takes the item and answers nil |
| `WebhookMemoryQueue.FullQueueWaits` | webhooks/async.go:142-149 | a full one waits until the context ends |
| `WebhookMemoryQueue.ClosedQueueRefuses` | webhooks/async.go:137-141 | a closed one turns the item away |
| `WebhookMemoryQueue.ShutdownGivesUp` | webhooks/async.go:166-177 | a Shutdown whose context ends returns an error; it returns nil iff all workers have exited |
| `WebhookMemoryQueue.WouldPanic` | webhooks/async.go:143-162 | what never happens: a send on the closed channel or a second close panics |
| `WebhookMemoryQueue.FirstShutdownDrains` | webhooks/async.go:154-177 | when the first Shutdown returns nil everything sent has been dispatched |
| `WebhookMemoryQueue.MovesAreProgress` | webhooks/async.go:97-112 | once the channel is closed every worker can move and every move leaves less work |
| `WebhookMemoryQueue.WorkersExit` | webhooks/async.go:97-112 | so all workers exit by their own moves |
| `WebhookMemoryQueue.ShutdownReturns` | webhooks/async.go:166-177 | and the Shutdown that waits for them returns nil |
| `WebhookMemoryQueue.FirstShutdownCloses` | webhooks/async.go:154-164 | the first Shutdown closes flag and channel with all work still there |
| `WebhookMemoryQueue.LaterShutdownReturnsAtOnce` | webhooks/async.go:154-160 | in every run with the flag closed a further Shutdown can return nil with channel, workers and dispatched items unchanged |
| `InvoiceNumbers.SameNumber` | invoices/number_repo.go:109-109 | two (prefix, counter) pairs share a number iff equal or one counter outgrew the padding into the longer prefix |
| `InvoiceNumbers.ClashNeedsDigit` | invoices/number_repo.go:109-109 | a clash needs a counter of a million and a prefix ending in a digit |
| `InvoiceNumbers.MemoryNumberRepo.Next` | invoices/number_repo.go:105-112 | advances the prefix counter and puts its number on record as issued |
| `InvoiceNumbers.MemoryNumberRepo.MarkUsed` | invoices/number_repo.go:114-133 | resolves an issued number, repeats quietly, refuses everything else |
| `InvoiceNumbers.MemoryNumberRepo.MarkVoided` | invoices/number_repo.go:135-151 | resolves an issued number, repeats quietly, refuses a used one |
| `InvoiceNumbers.MarkUsedExact` | invoices/number_repo.go:114-133 | MarkUsed answers nil iff the number ends up used under this Stripe id, and otherwise changes nothing and says whether the number is unknown or resolved |
| `InvoiceNumbers.MarkVoidedExact` | invoices/number_repo.go:135-151 | MarkVoided answers nil iff the number ends up voided, and otherwise says whether it is unknown or used; the first reason stays |
| `InvoiceNumbers.DraftResolves` | invoices/operations.go:146-182 | a fresh number is resolved as Stripe answered when the mark took effect, and the orphan report names it with Stripe's id |
| `InvoiceNumbers.DrawNumber` | invoices/operations.go:134-142 | the draw: a number, or an error after or without effect |
| `InvoiceNumbers.ResolveNumber` | invoices/operations.go:146-181 | the mark Stripe's answer demands, with a report exactly when the ledger does not answer nil |
| `InvoiceNumbers.CreateDraft` | invoices/operations.go:118-182 | with nobody else at the ledger: rejects missing customers, lines, amounts and currencies; draws unless a number is given; used on success, voided on a Stripe error, reported when the ledger is down, and silent when the draw fails |
| `InvoiceNumbers.DraftIsItsSteps` | invoices/operations.go:134-182 | CreateDraft is the steps of the interleaved office with nothing in between |
| `InvoiceNumbers.ForeignResolutionIsReported` | invoices/operations.go:166-181 | a number someone else resolved first keeps its record, and is reported iff the ledger is down or the record contradicts Stripe's answer |
| `InvoiceNumbers.LostNumbers` | invoices/operations.go:134-182 | a draw that took effect without an answer, or a draft that died, leaves its number issued and unreported |
| `InvoiceNumbers.RunIsGapless` | invoices/number_repo.go:105-112 | after any run each prefix has exactly the numbers of its counters on record |
| `InvoiceNumbers.CounterCountsDraws` | invoices/number_repo.go:105-112 | the k-th draw from a prefix gets counter k |
| `InvoiceNumbers.SafeIsDistinct` | invoices/number_repo.go:109-109 | under safe prefixes all numbers on record are distinct |
| `InvoiceNumbers.CollidesIff` | invoices/number_repo.go:105-112 | a draw hits a number on record iff a drawn counter of some prefix clashes with the next of this one |
| `InvoiceNumbers.ResolvedChangesIff` | invoices/number_repo.go:105-151 | a resolved number changes under a step iff the step draws it |
| `InvoiceNumbers.ResolvedForGood` | invoices/number_repo.go:114-151 | used and voided numbers and their Stripe ids stay through a run iff no draw of the run hits them |
| `InvoiceNumbers.DraftsAreAccountedFor` | invoices/operations.go:134-200 | in every interleaving without a collision a drafted number stays issued and unreported iff its draft did not settle it and nobody outside resolved it |
| `InvoiceNumbers.SafeRunIsClean` | invoices/number_repo.go:105-112 | safe prefixes at the end of a run mean no draw of it collided |
| `InvoiceNumbers.SharedNumberIsReissued` | invoices/number_repo.go:105-112 | wherever two prefixes share a number a run uses it under the one and reissues it under the other |
| `InvoiceNumbers.SharedNumberExists` | invoices/number_repo.go:109-109 | such prefixes exist |
| `IdempotencyKeys.WriteLenPrefixed` | stripeapi/idempotency.go:128-133 | writes eight bytes that read, highest first, as the length, and then the string |
| `IdempotencyKeys.DecodeEncode` | stripeapi/idempotency.go:104-133 | decoding a list's encoding gives back the list |
| `IdempotencyKeys.EncodeDecode` | stripeapi/idempotency.go:104-133 | only encodings decode |
| `IdempotencyKeys.DeriveKey` | stripeapi/idempotency.go:112-119 | the key is the operation and the digest of the encoding of operation and inputs |
| `IdempotencyKeys.DerivedBytesDetermine` | stripeapi/idempotency.go:112-119 | the hashed bytes determine operation and input list |
| `IdempotencyKeys.KeysCollideOnlyInDigest` | stripeapi/idempotency.go:98-119 | keys agree iff operation and inputs agree, or the digest itself collides |
| `IdempotencyKeys.ContentHash` | stripeapi/idempotency.go:184-197 | the digest depends on operation and map only, not on iteration order |
| `IdempotencyKeys.ContentBytesDetermine` | stripeapi/idempotency.go:172-197 | the hashed bytes determine operation and field map |
| `IdempotencyKeys.CanonicalMap` | stripeapi/idempotency.go:139-158 | renders the entries by sorted key |
| `IdempotencyKeys.CanonicalInjective` | stripeapi/idempotency.go:139-158 | injective on maps whose keys avoid '=' and NUL and whose values avoid NUL |
| `IdempotencyKeys.CanonicalClash` | stripeapi/idempotency.go:139-158 | a NUL in a value makes one field read as two |
| `IdempotencyKeys.CanonicalClashAtEquals` | stripeapi/idempotency.go:139-158 | an '=' in a key makes two maps of one field read the same |
| `SubscriptionMirror.ParseSubscription` | subscriptions/mirror.go:156-177 | items with id, quantity and a key from the catalog, the price or its Stripe id, and the period of the first item that has one |
| `SubscriptionMirror.MemoryRepo.Upsert` | subscriptions/repo.go:43-56 | replaces unless the stored watermark is later |
| `SubscriptionMirror.ApplyEventToMirror` | subscriptions/mirror.go:32-77 | for the five lifecycle events the row in its fields, unless a later watermark is stored; other events change nothing, a bad payload is an error |
| `SubscriptionMirror.RowIsFor` | subscriptions/mirror.go:63-76 | the row of an event, field by field; a deletion is canceled and has an end |
| `SubscriptionMirror.RowIsDecided` | subscriptions/repo.go:43-56 | the stored row is the last (strict rule: first) arrival with the maximal watermark |
| `SubscriptionMirror.RowsAgree` | subscriptions/mirror.go:66-75 | handling time shows in UpdatedAt only, iff the event is no deletion without an end time |
| `SubscriptionMirror.MirrorsConverge` | repos/postgres/subscription_repo.go:70-70 | with distinct watermarks every order and repetition, under either rule, ends in the same row |
| `SubscriptionMirror.DeletionIsFinal` | subscriptions/mirror.go:63-72 | if the latest event is a deletion the row is canceled and has an end, whatever the order |
| `SubscriptionMirror.TiesDiverge` | repos/postgres/subscription_repo.go:70-70 | events of the same second are kept differently by the two rules |
| `SubscriptionMirror.RedeliveredDeletionMovesEnd` | subscriptions/mirror.go:66-72 | redelivering a deletion without an end time moves the end |
| `PlanLimits.ParsesNumerals` | plans/plans.go:338-341 | signed and unsigned numerals are read exactly while they fit int64, strings without a digit not at all |
| `PlanLimits.BaseDeclaration` | plans/plans.go:315-348 | limit.X = n declares a base of n, unlimited a base of MaxInt64 |
| `PlanLimits.AddDeclaration` | plans/plans.go:320-344 | limit.X.add = n declares an addition of n; unlimited additions are ignored |
| `PlanLimits.FeatureDeclaration` | plans/plans.go:310-314 | feature.X switches a feature on unless the value is empty, false or 0 |
| `PlanLimits.OtherEntriesAreIgnored` | plans/plans.go:308-341 | other keys, empty names and values that are no numerals declare nothing |
| `PlanLimits.MergeEntry` | plans/plans.go:308-349 | one metadata entry: feature, base limit, add-on or nothing |
| `PlanLimits.MergeMetadata` | plans/plans.go:302-351 | the snapshot does not depend on the order in which the map is iterated |
| `PlanLimits.SnapshotFor` | plans/plans.go:135-183 | one contribution per item of each active, trialing or past due subscription |
| `PlanLimits.StatusDecides` | plans/plans.go:150-181 | a further subscription contributes its items iff it is active, trialing or past due |
| `PlanLimits.ItemDeclares` | plans/plans.go:160-181 | an item contributes the metadata of the product its key names, with or without the namespace |
| `PlanLimits.PlainItem` | plans/plans.go:353-368 | a key without a dot contributes nothing |
| `PlanLimits.OrderIrrelevant` | plans/plans.go:302-351 | any permutation of the declarations gives the same snapshot |
| `PlanLimits.ItemOrderIrrelevant` | plans/plans.go:150-181 | only which items the access-granting subscriptions have matters, not their order or grouping |
| `PlanLimits.SubscriptionOrderIrrelevant` | plans/plans.go:150-181 | the order of subscriptions does not matter |
| `PlanLimits.SnapshotMeaning` | plans/plans.go:302-351 | each limit carries the MAX of its bases and the (wrapped) SUM of its adds |
| `PlanLimits.IntLimitSaturates` | plans/plans.go:255-270 | the cap is base plus adds, saturated, iff the base is not negative |
| `PlanLimits.NegativeLimitIsUnlimited` | plans/plans.go:255-270 | a negative base without adds reads as unlimited |
| `PlanLimits.LimitMeaning` | plans/plans.go:242-270 | for non-negative declarations the cap is MAX(base) + SUM(adds), saturated, iff the adds sum within int64, the base is unlimited or the wrapped sum saturates too |
| `PlanLimits.CapOfSubscriptions` | plans/plans.go:150-181 | the same iff for the snapshot of a subject's subscriptions |
| `PlanLimits.WrappingAddsTurnNegative` | plans/plans.go:344-344 | two adds that leave int64 make the cap negative |
| `PlanLimits.MoreSubscriptionsNeverLess` | plans/plans.go:150-181 | a further subscription removes no feature, leaves limits declared, and lowers a cap iff the adds do not add up and what they wrap to is below the old cap |
| `PlanLimits.MoreIsNotLess` | plans/plans.go:242-270 | the same for further declarations |
| `PlanLimits.NegativeLimitIsLowered` | plans/plans.go:255-270 | a negative limit reads as unlimited until another plan declares any limit |
| `PlanLimits.SplitPriceKey` | plans/plans.go:361-368 | splits at the first dot |
| `PlanLimits.KeyReadersAgree` | plans/plans.go:353-368 | all four readers of a lookup key recover the same product and price |
| `UsageMetering.RequestKeysApart` | metering/repo.go:50-50 | request keys are injective when subject and metric avoid the bar |
| `UsageMetering.RequestKeysClash` | metering/repo.go:50-50 | two meters can share the key of non-empty request ids iff their joins are equal or one extends the other by a bar |
| `UsageMetering.ClashDropsUsage` | metering/repo.go:47-62 | and then the first event of the one is dropped as a repeat, and its usage with it |
| `UsageMetering.MemoryRepo.RecordUsage` | metering/repo.go:47-62 | appends the stamped row unless the request id is known, and remembers non-empty request ids |
| `UsageMetering.RecordCounts` | metering/repo.go:47-62 | recording adds the quantity to exactly the windows that contain the event; a known request id adds nothing, an event without one always counts |
| `UsageMetering.MemoryRepo.AggregateByPeriod` | metering/repo.go:64-84 | each subject with usage once, in order, with exactly its query total |
| `UsageMetering.MemoryRepo.QueryByPeriod` | metering/repo.go:86-100 | the int64 total of the subject's rows in the window |
| `UsageMetering.MemoryRepo.PruneOlderThan` | metering/repo.go:102-116 | compacts in place to the rows at or after the cutoff and counts the others |
| `UsageMetering.WindowsAddUp` | metering/repo.go:86-100 | totals of adjacent windows add up |
| `UsageMetering.WrappedWindowsAddUp` | metering/repo.go:86-100 | also in wrapping int64 arithmetic |
| `UsageMetering.PruneKeepsQueries` | metering/repo.go:102-116 | pruning keeps every query whose window starts at or after the cutoff |
| `UsageMetering.KeptRows` | metering/repo.go:102-116 | pruning drops the rows before the cutoff and no others |
| `UsageMetering.RepeatChangesNothing` | metering/repo.go:47-62 | repeating a request changes nothing, also after prunes |
| `UsageMetering.RequestsCountOnce` | metering/repo.go:47-62 | in every run a request id has at most one row |

## Left out

- Balances, deductions and counters of the credit ledger and of invoice numbers are unbounded integers; int64 overflow is modelled in plan limits and metering only.
- Grant expiry adds days of 24 hours; the calendar arithmetic of AddDate across time zone changes is not modelled.
- Random grant and deduction ids are a counter; metadata maps are values, so sharing a map between rows is not modelled.
- The clock is read once per ledger call and never goes back between calls of a run.
- AllBalances, History, ListBySubject, FindGrantsBySourceRef and the refund path of the credit package: projections of the same rows.
- CreditRedelivery.ApplyGrantsFromSession: starts from a decoded session and works on ledger values rather than on the repository object; logging is left out.
- CreditDeliveries.InvoiceCreditedOnce: the catalog and the subject of an invoice are the same for all its deliveries.
- Meters, coupons, tax fields, price metadata and the DRIFT reports of the catalog; credit-grant and recurring-grant validation in NewSpec.
- CatalogSpec.NewSpec: the messages of field errors are not modelled, only which fields have one.
- CatalogDiff.Diff: ids shorter than "prod_" make the code panic and are excluded.
- The claim store's contract is an assumption: TryLock is atomic and refuses live entries, Set and Unlock act only with the current token.
- WebhookDedup.StepKeepsInv: deliveries of one event id without the asynchronous hand-off; attempt counts, the event log and HTTP answers are not modelled.
- At-most-once dispatch of asynchronous retries: the code does not promise it.
- WebhookDurableQueue.AcceptedIsKeptOrFinished: a claim may take any queued row, so the oldest-first order of dequeue is not stated.
- The durable queue's Shutdown and poll timing; MaxAttempts, which the worker does not read.
- WebhookMemoryQueue.StepKeepsInv: a waiting writer does not hold back new readers, which only allows more interleavings.
- An orphan counts as reported when the hook is called; invoices/operations.go:188-191 skips it when none is registered.
- InvoiceNumbers.DraftsAreAccountedFor: runs without a collision; CollidesIff and SharedNumberIsReissued say when there is one and what it does.
- sha256 is an arbitrary function; CanonicalStrings and CanonicalInt64 are single library calls.
- SubscriptionMirror.MirrorsConverge: the price resolver is the same for all deliveries; metadata and dunning fields are not carried.
- Plan keys, trial and period fields of a snapshot, and CreditsRemaining.
- PlanLimits.MoreSubscriptionsNeverLess: declared values are not negative; NegativeLimitIsLowered shows what a negative limit does.
- The Postgres credit, usage and invoice-number repositories, whose schema is not part of this model.
- Stripe client wrappers, CLI, connector wiring, observability, signature checks and HTTP handling.
