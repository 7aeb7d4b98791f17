# Verified model of the Walnut billing core

This project models, in Dafny, the parts of the billing service that keep money,
access and limits consistent, and proves what they promise over every run.

**The credit wallet.** Four views of the same credits are moved together: accounts,
source buckets, reservations with their bucket shares, and an append-only ledger.
`Credits`, `WalletSpec` give the records and the operations as functions of the state;
every operation comes down to *rows* that move one account and write one ledger entry
(`WalletRows`). `WalletBalance` states how the views agree, `WalletInvariant` that every
run keeps it, `BucketAudit` that no bucket holds more than was granted, `LedgerReplay`
and `LedgerTotals` that the ledger alone rebuilds accounts, open reservations and the
figures on its entries, `WalletKeys` what idempotency keys promise, `WalletDecisions`
exactly when operations succeed, `Receipts` what they answer, first and again,
`PlanOrder` in which order buckets are used up, `WalletStamps` the times on the ledger,
`WalletRuns` and `LateRelease` what replays and releases do, `WalletExpiry` that
batched, cached expiry is one-at-a-time expiry, `WalletBatches` exactly when batches
drain, `Refund` that a refund takes what was predicted, and `RefundFinality` exactly
when it is final. `LooseCredits` adds grants booked without a bucket. `BucketOrder` and
`Allocations` hold the sort and the greedy allocation. `Wallet.CreditStore` is the
service itself, with its in-memory account copies, loops and rollback.

**Delivery of paid orders.** `Commerce`, `DeliveryKeys` and `FulfillmentSpec` model
orders, delivery rules, entitlement grants and executions, with failures allowed at
every rule, at every record and at the commit. `Delivery` proves one delivery per rule
and all rules or none, `Retries` that failures leave no trace that matters,
`PromptDelivery` and `DeliveryOutcome` exactly when a delivery goes through,
`DeliveredTerms` what the buyer then has and until when, `DeliveryRecords` what is left
on record, `PaidTime` and `PaidRuns` that renewed time adds up. `Payments` models what
one payment event does (order status, compensation of refunds, renewals, grace periods),
`PaymentInbox` the webhook inbox and the steps of the whole system, `InboxSafety`,
`CommerceWallet`, `CommerceRuns`, `CommerceResults`, `RefundEvents` and `Renewals` its
safety over every run, `InboxOutcomes` and `EventVerdicts` what a delivered event leads
to, `OrderEvents` and `OrderTerms` what any event does to any order, `RenewalTerms` and
`GraceTerms` what a renewal pays and what a failed one gives, `RefundTerms` what access
a refund ends, `LatePayments` and `RefundedRun` what can become of a refunded order.
`Fulfillment.FulfillmentService` and `PaymentEvents.PaymentEventService` are the
services as they run.

**Limits.** `RateLimit` is the token bucket over real numbers, `RateFairness` what a
caller is owed by it, `AddressLimit` the map of buckets by client address that forgets
idle ones, `AddressFairness` that addresses do not share, `Forgetting` exactly when
forgetting cannot be noticed, `AddressWindows` what an address can get through in any
window with and without it, `LoginChallenge` the sliding-window limit on login
challenges and the life of one challenge, `LoginDecisions` who gets one and who gets in.

**Cloud manifests.** `CloudKeys` is how texts are cleaned and joined to object keys,
`CloudResources` the normal form of a resource list, `CloudReading` how a resource is
read and which lists are accepted, `CloudSpec` sync sessions, manifests and the object
index, `CloudDecisions` exactly when a sync is authorized and a manifest committed,
`CloudIndex` their agreement and the quota, `CloudCollisions` exactly when projects get
in each other's way, `CloudStorage.CloudStorageService` the service. What does not
depend on how resources are read and keyed is proved for any way of doing so;
`CloudSpec.Service` is the service's own.

`Totals` holds sums over maps, `Wrappers` the result types.

## What the model assumes

- Amounts, sizes and times are mathematical integers; token-bucket levels and times
  are reals. An operation reads the clock once.
- Texts arrive trimmed, except those of a cloud resource, which are trimmed, sanitized
  and defaulted as the service does (`CloudResources.Read`). Where the service compares
  prefixes it builds itself, texts are compared as they are.
- A generated bucket id is the number behind its fixed-width hexadecimal text, so
  comparing the numbers is comparing the texts; other generated ids are positions.
  A repeated bucket id is a failed insert, and the unit of work is rolled back.
- Ledger keys the service derives (`reserve:`, `expire:`, `refund:clawback:`) are
  constructors of their own: callers' keys are taken not to start with those
  prefixes. Keys of deliveries are texts; order numbers contain no colon, and what
  else happens beside deliveries uses keys that do not start with `fulfillment:`.
  Checkout keys do not start with `subscription_renewal:`.
- Bucket storage is configured. Grants made before it was are a model of their own
  (`LooseCredits`), in which they may precede and follow all other operations.
- The user table, the product catalog and the configuration do not change.
- Steps are sequential. A unit of work that fails leaves the stores as they were.
- Times of billing periods are whole seconds, and the number of a derived renewal
  order is a function of its key; two keys with one number are a failed insert.

Where the code and a natural reading of it part, the model follows the code:

- An expiry sweep can be told the time. If it is told a later time than the true one,
  a reservation released before the true expiry makes a swept bucket active again, and
  its next sweep violates the uniqueness of the expiry key. As long as the bucket is
  due, the account's reservations are refused, and so is every expiry batch that lists
  the bucket, for every user: if it is the first to expire, every batch. No expiry ever
  moves it; a clawback of its grant empties it and ends the trouble.
  `WalletDecisions.ReserveDecided` and `WalletBatches.BatchesDecided` state the exact
  conditions, `WalletClock.CoveredAndRefused` and `WalletClock.BatchesBlocked` are runs
  that end there, and `WalletDecisions.ReserveDecidedMonotone` and
  `WalletBatches.MonotoneBatchesDrain` show that a clock that never goes back rules it
  out.
- A refund of a grant booked without a bucket is drawn from the balance alone. It keeps
  the balance at or above the buckets exactly if the grant is still loose as a whole or
  no bucket of the user holds anything (`LooseCredits.RefundDecided`); after
  `LooseCredits.LooseAndOverdrawn` a bucket holds four credits over a balance of two.
- A refunded order is not closed. A payment that passes the amount and currency checks
  takes it back to paid, a cancellation to cancelled, its first payment reported as a
  renewal to paid (unless the delivery fails and the mark is undone with it), a payment
  of its cycle to paid, a failure of its cycle to failed if there is grace to give, and
  nothing else moves it (`LatePayments.RefundedLeft`, `LatePayments.RefundedUntilReopened`).
  What follows depends on what had been delivered. An order refunded before anything was
  delivered is delivered in full by the next such payment that finds nothing in the way
  (`LatePayments.RefundedDelivered`): `RefundedRun.RefundedThenDelivered` builds the run in
  which the first delivery breaks, the order is refunded, and the same payment, reported
  again, leaves it fulfilled with its grants active; `RefundedRun.OneGrantAfterRefund` is
  one with a single rule. An order with anything delivered is never delivered again,
  whatever its status becomes: nothing new appears under its delivery keys
  (`LatePayments.NeverDeliveredAgain`), and access that its refund ended stays ended
  (`CommerceResults.EndedForGood`). A failed renewal may still give a refunded renewal
  order its grace period.
- A clawback takes what is left in a grant's bucket; credits held by a pending
  reservation are not there to take. A later release puts them back, and clawing back
  again does nothing. A refund is final exactly if no pending reservation holds credits
  of a bucket that has not expired (`RefundFinality.RefundFinal`).
- Forgetting an address bucket after ten idle minutes is unnoticeable exactly if the
  bucket refills within ten minutes or never holds a whole token
  (`Forgetting.ForgettingDecided`). Otherwise each forgetting gives away what the bucket
  lacked, which `AddressWindows.AddressWindowBound` adds to the bound of a window.
- An upsert of a cloud object keeps the project that first used its key, so a
  project's index equals its manifest exactly if none of the keys belongs to another
  project (`CloudIndex.IndexIsManifest`). Keys are made of cleaned texts, while projects
  are told apart by the texts themselves: one user's projects "a b" and "a-b" share
  keys, and the second is left without its objects (`CloudCollisions.SpaceAndHyphen`).
  Every index stays right in every run over a set of projects exactly if no two of them
  clean alike (`CloudCollisions.IndexDecided`).
- Marking a sync session expired happens inside the unit of work that the expiry then
  rolls back, so the mark does not stay.

## Model

| member | source | states |
|---|---|---|
| Allocations.Allocate | internal/service/credit_bucket.go:116-159 | filtering, sorting and the greedy loop together give the specified allocation, of nothing for no amount |
| Allocations.KeepAvailable | internal/service/credit_bucket.go:120-126 | the filter keeps exactly the available buckets |
| Allocations.TakeInOrder | internal/service/credit_bucket.go:145-158 | the loop with its running remainder takes from each bucket in turn until the amount is met or the buckets are spent |
| Allocations.AllocationIgnoresListingOrder | internal/service/credit_bucket.go:116-159 | two listings of the same buckets in any order give the same allocation |
| Allocations.AllocationIsOptimal | internal/service/credit_bucket.go:116-159 | at every horizon the allocation takes the smaller of the amount and what expires by then, and no feasible allocation takes more |
| Allocations.GreedyFillsHorizon | internal/service/credit_bucket.go:145-158 | of buckets in consumption order, those expiring by a horizon are drained before any later one is touched |
| PlanOrder.DrainedInOrder | internal/service/credit_bucket.go:127-158 | a bucket is drawn from only once every available one that expires sooner, or with it but is older, or as old but of smaller id, is drained |
| PlanOrder.PlanDrainsInOrder | internal/service/credit_bucket.go:168-215 | the same of a reservation's plan |
| BucketOrder.SortedUnique | internal/service/credit_bucket.go:127-143 | the comparator is strict and total on distinct ids: a set of buckets has one sorted listing |
| WalletListing.ListingMembers | internal/service/credit_bucket.go:263-269 | a query returns exactly the matching buckets, each once, in consumption order |
| WalletListing.PlanTotals | internal/service/credit_bucket.go:178-195 | a reservation's plan spends the smaller of the amount and what is available, in positive parts, from the user's own available buckets |
| WalletListing.SweepLeavesNoneDue | internal/service/credit_bucket.go:295-321 | after an account's sweep none of its buckets is due |
| WalletRows.OperationIsRows | internal/service/credit.go:155-367 | every operation that goes through is a sequence of single-account rows, each legal when posted |
| WalletInvariant.GrantKeeps | internal/service/credit.go:183-245 | a grant and its new bucket keep all four views in agreement |
| WalletInvariant.ExpireKeeps | internal/service/credit_bucket.go:323-358 | expiring a bucket keeps the views in agreement |
| WalletInvariant.HoldKeeps | internal/service/credit.go:285-339 | holding a planned reservation keeps the views in agreement |
| WalletDecisions.HoldSucceeds | internal/service/credit_bucket.go:172-216 | once an account is swept, holding a plan for an amount that is spendable goes through: none of the guards on the way can fire |
| WalletInvariant.SettleKeeps | internal/service/credit.go:448-526 | committing or releasing keeps the views in agreement, expired shares included |
| WalletInvariant.ClawbackKeeps | internal/service/payment_adjustment.go:235-310 | a clawback of a bucketed entry keeps the views in agreement |
| WalletInvariant.PlanCoversAmount | internal/service/credit_bucket.go:172-195 | in an agreeing state a balance that covers the amount means the buckets do |
| WalletInvariant.BalanceCoversBucket | internal/service/credit_bucket.go:323-339 | a bucket never holds more than its account's balance, so the caps in expiry and clawback do not bite |
| WalletInvariant.OperationKeepsBalance | internal/service/credit.go:155-367 | every operation keeps the agreement, failed ones by rollback |
| WalletInvariant.EveryRunBalances | internal/service/credit.go:155-367 | over every run: balance is the sum of bucket remainders, reserved equals both the buckets' and the pending reservations' sums, each bucket's grant is fully accounted for, inactive buckets are empty, nothing is negative |
| BucketAudit.HoldsAtMostGranted | internal/service/credit_bucket.go:13-40 | over every run what a bucket has left and held is at most what was granted into it |
| BucketAudit.SpentAreMarked | internal/service/credit_bucket.go:195-256 | over every run a bucket of which nothing is left or held is marked depleted or expired |
| LedgerReplay.BalanceAfterIsPrefixSum | internal/service/credit.go:729-753 | over every run each entry's balance is the sum of its user's amounts up to it |
| LedgerTotals.ReservedAfterIsOpenTotal | internal/service/credit.go:729-753 | over every run each entry's reserved figure is the sum of its user's reservations opened up to it and not finalized up to it, as the ledger tells |
| LedgerTotals.LastEntryIsAccount | internal/service/credit.go:729-753 | over every run a user's stored account is what the user's last entry says, and nothing without one |
| LedgerReplay.EveryRunReplays | internal/service/credit.go:729-753 | over every run the ledger alone rebuilds all accounts and every entry's stamps, and each reservation is finalized at most once |
| WalletStamps.OperationStamps | internal/service/credit.go:729-753 | every operation only adds to the ledger, and what it adds carries its time |
| WalletKeys.RunKeepsKeys | internal/service/credit.go:729-753 | ledger and reservation keys stay unique and backed by their records, whatever the clock does |
| WalletKeys.EveryMonotoneRunSound | internal/service/credit_bucket.go:323-366 | under a clock that never goes back a bucket once swept stays expired for good, so no expiry key is ever written twice |
| WalletDecisions.SweepDecided | internal/service/credit_bucket.go:295-321 | a sweep fails exactly if a due bucket's expiry is already on the ledger |
| WalletDecisions.ReserveDecided | internal/service/credit.go:247-342 | a new valid reservation succeeds exactly if the available buckets cover it and no bucket due again was swept before; otherwise the error is determined |
| WalletDecisions.ReserveDecidedMonotone | internal/service/credit.go:247-342 | with a clock that never goes back, covering the amount is all it takes |
| WalletDecisions.FinalizeDecided | internal/service/credit.go:419-528 | under a new key a commit or release succeeds exactly if the reservation is pending and, for a commit, not past its own expiry: no other guard can fire |
| Receipts.ReserveNames | internal/service/credit.go:247-342 | a reservation's receipt names the reservation made under the request's key and its owner; a new one is pending and as requested, with its entry on the ledger, and a repeated request changes nothing |
| Receipts.ReservedAgain | internal/service/credit.go:267-276 | asked again under the key, after any run and by whomever, the wallet answers with the same reservation and its owner |
| Receipts.ReserveRefused | internal/service/credit.go:247-264 | what each unfit request is told |
| Receipts.GrantNames | internal/service/credit.go:183-245 | a grant's receipt names the entry under its key; a new one raises the balance by the amount and opens one bucket of the kind and with the expiry that the input calls for |
| Receipts.GrantDecided | internal/service/credit.go:155-181 | when an administrator's grant goes through, and how it is refused otherwise |
| Receipts.GrantedAgain | internal/service/credit.go:183-203 | a grant delivered again after any run is answered with the same entry |
| Receipts.FinalizeNames | internal/service/credit.go:419-528 | a finalization's receipt names the entry under its key and that entry's reservation; a new one is the reservation asked for, closed as asked |
| Receipts.EveryFinalizeNames | internal/service/credit.go:430-443 | the same after any run, and every repetition under the key gets the same answer |
| Receipts.FinalizeRefused | internal/service/credit.go:419-469 | why a finalization is refused |
| Receipts.TakeBackDecided | internal/service/payment_adjustment.go:235-310 | what becomes of one grant in a refund: taken back before, nothing to take back, somebody else's, or taken back now with its entry |
| WalletClock.CoveredAndRefused | internal/service/credit.go:352-367 | a concrete run with a sweep told a later time, after which a covered reservation is refused |
| WalletRuns.ReplaysDoNothing | internal/service/credit.go:183-203 | dropping from a run every request whose key was used before changes nothing in its final state |
| WalletRuns.DeliveredOnce | internal/service/credit.go:183-203 | a request that went through changes nothing when it is delivered again, after whatever else has happened |
| WalletRuns.ReleaseUndoesReserve | internal/service/credit.go:470-487 | releasing a reservation restores balance, reserved and every bucket as after the sweep, except for exactly the shares of buckets expired meanwhile |
| WalletRuns.HoldThenSettle | internal/service/credit_bucket.go:225-256 | bucket by bucket, a release undoes a hold except where the bucket has expired |
| LateRelease.ReleaseAfterAnyRun | internal/service/credit.go:448-526 | a reservation still pending after any other operations can be released, and gives back what its plan took then, except from buckets expired by now |
| WalletExpiry.BatchLeavesRest | internal/service/credit_bucket.go:258-293 | a limited batch leaves exactly the rest of the listing due, unchanged |
| WalletExpiry.BatchThenRest | internal/service/credit_bucket.go:258-293 | a limited batch and a full sweep at the same moment end where the full sweep alone does, ledger included |
| WalletBatches.BatchDecided | internal/service/credit_bucket.go:258-293 | a limited batch goes through exactly if no bucket it lists has an expiry on the ledger already; else it fails on that key |
| WalletBatches.BatchesDecided | internal/service/credit_bucket.go:258-293 | enough limited batches at one moment drain all that is due and end where one full sweep does, exactly if no due bucket was swept before |
| WalletBatches.SoundBatch | internal/service/credit.go:352-367 | under a clock that has not gone back every batch goes through and leaves the wallet as sound as it was |
| WalletBatches.MonotoneBatchesDrain | internal/service/credit_bucket.go:258-293 | after any run under a clock that never goes back, enough limited batches drain all that is due and equal one full sweep |
| WalletBatches.StaleFirst | internal/service/credit_bucket.go:258-293 | a bucket due again that is the first to expire fails every batch, of whatever size |
| WalletBatches.StaleForGood | internal/service/credit.go:352-367 | no sequence of expiries ever moves a bucket that was swept before |
| WalletBatches.ClawbackFrees | internal/service/payment_adjustment.go:235-310 | taking back its grant empties such a bucket, so it is not due any more |
| WalletClock.BatchesBlocked | internal/service/credit.go:352-367 | a concrete run after which no expiry batch of any size reaches another user's due credits |
| WalletExpiry.BatchReportsDrop | internal/service/credit_bucket.go:258-293 | the amount a batch reports is the drop in all balances |
| Refund.PredictionIsEffect | internal/service/payment_adjustment.go:153-310 | what the usage snapshot calls available is what the clawback takes, and used plus taken is granted |
| Refund.ClawbackOnlyOnce | internal/service/payment_adjustment.go:239-243 | a repeated clawback changes nothing and reports the same amount |
| Refund.RunKeepsApart | internal/service/credit.go:207-244 | over every run different grants have different buckets |
| Refund.RefundAsPredicted | internal/service/payment_adjustment.go:153-310 | after any run a refund of grants not yet clawed back takes what was predicted, once |
| Refund.SnapshotIsSums | internal/service/payment_adjustment.go:153-205 | the usage snapshot is the sum of what was granted and of what is left in the buckets: the balance never caps it |
| Refund.RefundGoesThrough | internal/service/payment_adjustment.go:235-310 | a refund of bucketed grants of the order's user goes through, whatever of it was taken back before |
| RefundFinality.ClawbackEmpties | internal/service/payment_adjustment.go:235-310 | taking back whole grants leaves nothing in their buckets and moves nothing but what is left and the balance |
| RefundFinality.GoneUnlessHeld | internal/service/credit.go:470-487 | empty buckets stay empty, whatever is done from then on, exactly if no pending reservation holds credits of one not past its expiry |
| RefundFinality.RefundFinal | internal/service/payment_adjustment.go:235-310 | after any run a refund empties the order's buckets, for good exactly if at the refund no pending reservation holds credits of one not past its expiry |
| LooseCredits.RefundDecided | internal/service/payment_adjustment.go:259-295 | a clawback keeps every balance at or above the user's buckets exactly if the grant had a bucket, or is still loose as a whole, or no bucket of the user holds anything |
| LooseCredits.EveryLifeBacked | internal/service/credit.go:205-244 | over every run, with grants booked before and after bucket storage was configured, balances stay at or above the buckets as long as each refund meets that condition |
| LooseCredits.LooseAndOverdrawn | internal/service/payment_adjustment.go:259-295 | a concrete run after which refunding a grant without a bucket leaves a bucket holding more than the balance |
| Wallet.CreditStore.Record | internal/service/credit.go:729-753 | appends the entry with the account's figures, or fails on a used key |
| Wallet.CreditStore.ExpireBucket | internal/service/credit_bucket.go:323-358 | on the caller's copies, does what expiry on fresh records does and returns the new account |
| Wallet.CreditStore.ExpireForAccount | internal/service/credit_bucket.go:295-321 | the sweep that carries one account in memory equals expiring each due bucket on fresh records |
| Wallet.CreditStore.ExpireListed | internal/service/credit_bucket.go:258-293 | the batch with its cache of accounts by owner equals expiring each listed bucket on fresh records, and reports the amount |
| Wallet.CreditStore.ExpireBuckets | internal/service/credit.go:352-367 | the batch in its unit of work, reporting the drop in all balances |
| Wallet.CreditStore.GrantCredits | internal/service/credit.go:183-245 | returns the earlier receipt for a used key, else books the grant and opens its bucket |
| Wallet.CreditStore.Grant | internal/service/credit.go:155-181 | checks, grants in a unit of work, keeps the views in agreement |
| Wallet.CreditStore.HoldBuckets | internal/service/credit_bucket.go:195-214 | moves each share from remaining to reserved, or fails |
| Wallet.CreditStore.HoldInTransaction | internal/service/credit.go:290-339 | allocates, holds and records a reservation |
| Wallet.CreditStore.ReserveInTransaction | internal/service/credit.go:281-339 | sweeps, then holds, inside the unit of work |
| Wallet.CreditStore.Reserve | internal/service/credit.go:247-342 | the whole reservation, replays and rollback included, answering with the reservation made under the request's key, and keeping the views in agreement |
| Wallet.CreditStore.SettleBuckets | internal/service/credit_bucket.go:225-256 | frees each share and restores it on release unless its bucket expired |
| Wallet.CreditStore.SettleInTransaction | internal/service/credit.go:448-526 | finalizes a pending reservation inside the unit of work |
| Wallet.CreditStore.Finalize | internal/service/credit.go:419-528 | commit and release, replays and rollback included |
| Wallet.CreditStore.UsageSnapshot | internal/service/payment_adjustment.go:153-205 | the loop with remaining balances by account computes the specified prediction |
| Wallet.CreditStore.ClawbackFulfilled | internal/service/payment_adjustment.go:235-310 | takes back one grant, or reports an earlier clawback |
| Wallet.CreditStore.ApplyClawbacks | internal/service/payment_adjustment.go:123-149 | the loop's total and final state |
| Wallet.CreditStore.RefundOrder | internal/service/payment_adjustment.go:312-346 | the clawbacks in one unit of work |
| RateLimit.TokenBucket.Allow | internal/api/middleware/ratelimit.go:31-48 | refills, caps and takes a token exactly if a whole one is there, and otherwise leaves all the refill in the bucket |
| RateLimit.TokensConserved | internal/api/middleware/ratelimit.go:31-48 | tokens left plus calls allowed never exceed the start plus the refill over the time passed |
| RateLimit.WindowBound | internal/api/middleware/ratelimit.go:31-48 | in any window of any run the calls allowed are at most the capacity plus the rate times the window |
| RateLimit.SpacedRequestsAllowed | internal/api/middleware/ratelimit.go:31-48 | calls spaced by at least the time of one token are all allowed if the capacity is at least one |
| RateFairness.TokensAccounted | internal/api/middleware/ratelimit.go:31-48 | tokens left, calls allowed and what flowed in while the bucket was full make up exactly the start plus the refill |
| RateFairness.BurstAllowed | internal/api/middleware/ratelimit.go:31-48 | of calls at one moment as many are allowed as there are whole tokens |
| RateFairness.DenialUnobservable | internal/api/middleware/ratelimit.go:35-47 | without a denied call all others get the answers they got, and the next call finds the same level |
| RateFairness.AllowedAgain | internal/api/middleware/ratelimit.go:35-47 | a call is allowed once one token's time has passed since the last allowed one, however many were denied in between |
| AddressLimit.AddressLimiter.GetBucket | internal/api/middleware/ratelimit.go:81-91 | returns the address's bucket, creating a full one if there is none |
| AddressLimit.AddressLimiter.RateLimit | internal/api/middleware/ratelimit.go:107-121 | answers as that address's bucket does and touches no other |
| AddressLimit.AddressLimiter.Cleanup | internal/api/middleware/ratelimit.go:93-104 | removes exactly the buckets idle for more than ten minutes |
| AddressFairness.AnsweredAlone | internal/api/middleware/ratelimit.go:107-121 | whoever else asks in between, an address gets the answers it would get alone |
| AddressFairness.AnsweredByBucket | internal/api/middleware/ratelimit.go:81-91 | between cleanups they are the answers of its one bucket, a full one if it had none |
| AddressFairness.LivelyByBucket | internal/api/middleware/ratelimit.go:93-104 | and over cleanups too, as long as none comes more than ten minutes after its last request |
| Forgetting.AnswersAgree | internal/api/middleware/ratelimit.go:81-104 | if a bucket refills within the idle time, cleanup anywhere in a run changes no answer |
| Forgetting.Noticed | internal/api/middleware/ratelimit.go:81-104 | a probe that fares differently on a full bucket than on the idle one makes forgetting observable |
| Forgetting.SlowRateNoticed | internal/api/middleware/ratelimit.go:81-104 | a slower refill lets some run notice that a bucket was forgotten |
| Forgetting.ForgettingDecided | internal/api/middleware/ratelimit.go:81-104 | forgetting is unobservable exactly if the capacity is below one token or is refilled within ten minutes |
| AddressWindows.AddressConserves | internal/api/middleware/ratelimit.go:81-121 | over any stretch of a run, other addresses and cleanups included, what an address was granted and has left is at most what it had, the refill over the time passed and what forgetting its bucket gave away |
| AddressWindows.AddressWindowBound | internal/api/middleware/ratelimit.go:81-121 | in any window of any run an address is granted at most the capacity, the rate times the window and what forgetting gave away within it |
| AddressWindows.AddressWindowNumbers | internal/api/middleware/ratelimit.go:93-104 | and that is at most, for every ten minutes of the window, what a bucket idle so long still lacks: nothing if it refills meanwhile |
| LoginChallenge.WindowLimit | internal/service/access_login_challenge.go:391-434 | in every time window of the policy's length at most the permitted number of challenges is created for one email, and likewise for one address, over every run |
| LoginChallenge.ChallengeUse | internal/service/access_login_challenge.go:320-461 | a challenge is accepted at most once and records at most the permitted number of failed tries, fewer if it was accepted |
| LoginDecisions.VerifyDecided | internal/service/access_login_challenge.go:320-374 | an attempt is accepted exactly if it brings the token and the device of a pending challenge that has not expired, counted as failed exactly if it is all that but the match, and what either leaves |
| LoginDecisions.VerifyRefused | internal/service/access_login_challenge.go:330-352 | what any other attempt is told, and that it moves nothing but the mark of an expired challenge |
| LoginDecisions.AcceptedAsCreated | internal/service/access_login_challenge.go:237-374 | over runs whoever is accepted brings the token and device of the creation that made the challenge and was delivered, before its lifetime is over and its tries are used up |
| LoginDecisions.CreateDecided | internal/service/access_login_challenge.go:237-305 | under a new key a challenge is stored exactly if e-mail and device are given, the channel can deliver and both limits leave room, handed out exactly if it was delivered, and just as asked for |
| LoginDecisions.CreatedAgain | internal/service/access_login_challenge.go:257-318 | asked again under a key after any run, the service stores nothing and hands out the challenge made under it as long as it can be answered |
| LoginChallenge.ChallengeService.EnforceCreateRateLimit | internal/service/access_login_challenge.go:391-434 | refuses exactly if a positive limit is reached in the window that ends now |
| LoginChallenge.ChallengeService.Create | internal/service/access_login_challenge.go:237-305 | replays, limits, stores and expires on failed delivery as specified |
| LoginChallenge.ChallengeService.RecordFailedAttempt | internal/service/access_login_challenge.go:436-461 | counts the try and expires the challenge at the limit |
| LoginChallenge.ChallengeService.Verify | internal/service/access_login_challenge.go:320-374 | accepts a pending, unexpired challenge from its device with its token, once |
| DeliveryKeys.ExecutionKeyUnique | internal/service/fulfillment.go:680-682 | execution keys tell orders and rules apart |
| DeliveryKeys.EntitlementKeyUnique | internal/service/fulfillment.go:684-686 | grant keys tell orders and rules apart |
| DeliveryKeys.CreditsKeyUnique | internal/service/fulfillment.go:684-686 | credit keys tell orders and rules apart |
| Delivery.RuleMakes | internal/service/fulfillment.go:233-287 | a rule applied for the first time makes its grant or ledger entry anew; an earlier one under its key cannot exist |
| Delivery.RuleKeeps | internal/service/fulfillment.go:233-287 | applying a rule keeps every applied record backed by what it delivered and nothing delivered off the record |
| Delivery.FulfillKeeps | internal/service/fulfillment.go:161-339 | whatever goes wrong in a call, deliveries made stay; it ends with the order fulfilled and every rule applied, or with nothing moved but records of failure |
| Delivery.DeliveredOnceOnly | internal/service/fulfillment.go:239-242 | an order with any rule applied is never delivered again, fulfilled or not |
| Retries.FulfillAlike | internal/service/fulfillment.go:181-231 | records of failures do not influence a later attempt |
| Retries.RetriedAsIfNew | internal/service/fulfillment.go:161-339 | after any number of failed attempts a call ends as it would have without them: same outcome, orders, grants, credits and applied records |
| PromptDelivery.DeliveryDecided | internal/service/fulfillment.go:181-231 | the first delivery of a paid order succeeds exactly if buyer and rules exist, every rule can be carried out and nothing breaks |
| PromptDelivery.PaidEventDelivers | internal/service/payment_fulfillment_processor.go:47-89 | a payment event that passes the amount and currency checks fulfils an open checkout order at once |
| DeliveryOutcome.PaidOutcome | internal/service/fulfillment.go:181-231 | a call for a paid order ends fulfilled with every rule applied exactly if buyer and rules exist, each rule is applied already or can be carried out in its turn, and the commit goes through; otherwise nothing but records of failure has moved |
| DeliveryOutcome.CallDecided | internal/service/fulfillment.go:161-210 | an order that is not paid, not proper or not known is told so and nothing moves; a fulfilled one is left as it is; a paid one succeeds exactly if its delivery goes through |
| DeliveredTerms.EntitlementTerms | internal/service/fulfillment.go:378-399 | an entitlement rule applied for the first time makes one grant, active from then on for good if the rule sets no end, and else until the rule's span after the beginning of the period |
| DeliveredTerms.CreditsTerms | internal/service/fulfillment.go:407-435 | a credit rule applied for the first time books its amount into one new bucket of the kind that rule and order call for, that lasts for the rule's span after the payment if it is a subscription's and for good otherwise |
| DeliveredTerms.EveryRunKeepsTerms | internal/service/fulfillment.go:481-507 | over every run each grant under an order's key stems from a rule of the order's SKU and, until it is ended, has an end exactly if the rule sets one |
| DeliveredTerms.UnchangedWhileActive | internal/service/payment_adjustment.go:207-233 | over every run a grant that is active is still as it was made |
| DeliveryRecords.FailureRecorded | internal/service/fulfillment.go:319-339 | a failed attempt leaves one record at most: of the first rule that is not applied and cannot be carried out, if it is valid and could be recorded |
| DeliveryRecords.RecordTimes | internal/service/fulfillment.go:362-368 | every call leaves each record with the time it was first made |
| PaidTime.AnchorDecided | internal/service/fulfillment.go:545-584 | a new period starts at the end of paid time still running, else at the latest grace start before the payment, else at the payment |
| PaidTime.AnchorIgnoresListingOrder | internal/service/fulfillment.go:558-576 | the anchor loop's result does not depend on the order of the grants |
| PaidTime.DeliveryExtends | internal/service/fulfillment.go:378-399 | a first delivery while paid time runs extends it by the length of the SKU |
| PaidTime.PaidTimeStacks | internal/service/fulfillment.go:481-584 | over any calls made while paid time runs, repeats and failures among them, its end moves by the sum of the lengths first delivered |
| PaidRuns.EventMoves | internal/service/payment_fulfillment_processor.go:47-89 | an event moves the end of the time a user paid for by the length it delivers for the first time, and by nothing if it delivers something else, repeats, fails, gives or ends grace or refunds another order |
| PaidRuns.PaidTimeOverRuns | internal/service/fulfillment.go:481-584 | over every run of the system in which each delivery comes while the time still runs and no refund revokes it, its end moves by the sum of the lengths first delivered |
| Fulfillment.FulfillmentService.Anchor | internal/service/fulfillment.go:545-584 | the loop with its two running maxima computes the specified anchor |
| Fulfillment.FulfillmentService.CreateGrant | internal/service/entitlement.go:267-350 | returns the grant under a used key if owner and entitlement match, else checks and creates it |
| Fulfillment.FulfillmentService.ExecuteEntitlement | internal/service/fulfillment.go:378-399 | grants the entitlement from now, until the rule's span after the anchor, or for good if the rule sets no end |
| Fulfillment.FulfillmentService.ExecuteCredits | internal/service/fulfillment.go:407-435 | grants the rule's credits into the bucket the order calls for |
| Fulfillment.FulfillmentService.Save | internal/service/fulfillment.go:362-368 | writes a record, keeping when it was first written |
| Fulfillment.FulfillmentService.ApplyRule | internal/service/fulfillment.go:233-287 | skips an applied rule, else executes and records it |
| Fulfillment.FulfillmentService.ApplyRules | internal/service/fulfillment.go:211-219 | the loop over the rules stops at the first failure and returns the records so far |
| Fulfillment.FulfillmentService.FulfillInside | internal/service/fulfillment.go:181-231 | one attempt inside its unit of work |
| Fulfillment.FulfillmentService.PersistFailed | internal/service/fulfillment.go:319-339 | the loop stores the failed records only |
| Fulfillment.FulfillmentService.FulfillOrder | internal/service/fulfillment.go:161-172 | attempt, rollback and failure record together, keeping every delivery |
| InboxSafety.EveryRunKeepsInbox | internal/service/payment_event.go:94-241 | over every run there is one row per provider event and its attempts are exactly its processor calls |
| InboxSafety.FinishedForGood | internal/service/payment_event.go:183-189 | a processed or ignored event is never touched or processed again, whatever arrives or is requested |
| InboxSafety.HeldUntilReprocessed | internal/service/payment_event.go:112-124 | a row under review or stuck in processing moves only when an operator reprocesses it |
| InboxOutcomes.NewDelivered | internal/service/payment_event.go:94-146 | a new event is stored, and processed once unless the store fails or no processor knows its kind |
| InboxOutcomes.AgainDelivered | internal/service/payment_event.go:112-124 | one delivered before is processed again, in its own row, exactly if it was not yet or broke |
| InboxOutcomes.RequestDecided | internal/service/payment_event.go:148-160 | an operator's request processes any row but a finished one |
| InboxOutcomes.RowTells | internal/service/payment_event.go:183-256 | over every run each row's status says how the last call for its event ended, or that it was not made or its end not written |
| EventVerdicts.PaymentVerdict | internal/service/payment_fulfillment_processor.go:47-89 | a payment is done exactly if its order is known, it passes its checks, and the delivery works or the order is no checkout; otherwise it breaks |
| EventVerdicts.OtherVerdict | internal/service/payment_fulfillment_processor.go:64-76 | a cancellation, refund or dispute of a known order ends as the policy decided, and an event of any other kind breaks |
| EventVerdicts.InitialVerdict | internal/service/subscription_renewal.go:102-114 | a first payment reported as a renewal is done exactly if the delivery works |
| EventVerdicts.RenewalVerdict | internal/service/subscription_renewal.go:96-153 | any other renewal event is done exactly if its cycle's order is found or made and the delivery works, the grace can be given or the subscription ends; for orders that are no renewals there is nothing to do |
| CommerceWallet.FulfillReaches | internal/service/fulfillment.go:407-435 | after a delivery the wallet is the end of a run of wallet operations, so all wallet results apply |
| CommerceWallet.CompensateReaches | internal/service/payment_adjustment.go:123-149 | the same for a refund's loop, which besides leaves orders, executions and all grants' keys and owners alone |
| CommerceRuns.BesideKeeps | internal/service/payment_order_processor.go:23-70 | a step that writes nothing under a delivery key keeps the delivery invariant |
| CommerceRuns.AdjustSafe | internal/service/payment_adjustment.go:79-151 | a refund, under any policy decision, keeps the system safe |
| CommerceRuns.ResolveSafe | internal/service/subscription_renewal.go:155-194 | deriving a renewal order keeps the system safe, its keys unique |
| CommerceRuns.RenewalSafe | internal/service/subscription_renewal.go:96-153 | every renewal event keeps the system safe and what was delivered in place |
| CommerceRuns.ProcessSafe | internal/service/payment_fulfillment_processor.go:47-89 | every processor call keeps the system safe and what was delivered in place |
| CommerceRuns.EveryRunSafe | internal/service/payment_fulfillment_processor.go:47-89 | over every run of webhooks, reprocessing, failures, refunds, renewals, checkouts and wallet use: deliveries on record and whole, order keys unique, inbox sound, wallet in agreement and rebuilt by its ledger |
| CommerceResults.DeliveredOnce | internal/service/fulfillment.go:233-287 | a rule of an order has exactly one grant or ledger entry if it is applied and none otherwise |
| CommerceResults.EveryRunDeliversOnce | internal/service/payment_fulfillment_processor.go:80-88 | over every run a fulfilled order has delivered each rule once, and an order has delivered all of its rules or none |
| CommerceResults.RefundAfterAnyRun | internal/service/payment_adjustment.go:79-310 | over every run a refund of a delivered order takes exactly what its usage snapshot predicted, once, in whatever order its executions are listed |
| CommerceResults.RefundFinalAfterAnyRun | internal/service/payment_adjustment.go:79-310 | the same for a delivered order after any run of the whole system |
| CommerceResults.CompensateWallet | internal/service/payment_adjustment.go:123-149 | the refund loop does to the wallet what its clawbacks alone do |
| CommerceResults.RefundEndsAccess | internal/service/payment_adjustment.go:207-233 | after a refund that revokes, no entitlement delivered for the order is active |
| CommerceResults.EndedForGood | internal/service/payment_order_processor.go:40-46 | access so ended never returns, over every later run, late payment events included |
| RefundEvents.SnapshotIgnoresOrder | internal/service/payment_adjustment.go:153-205 | the usage snapshot is the same in whatever order the executions are listed |
| RefundEvents.AdjustDecided | internal/service/payment_adjustment.go:79-151 | after any run what becomes of a refund is decided by the order, the policy and the environment alone: the compensation itself never fails |
| RefundEvents.RefundEventDecided | internal/service/payment_fulfillment_processor.go:61-73 | the same for a refund or dispute event as it arrives |
| RefundEvents.RefundEventTakes | internal/service/payment_adjustment.go:79-151 | a refund event with a clawback marks the order refunded, lowers the balance by exactly what the snapshot calls available, and with a revocation ends all access of the order |
| RefundTerms.RefundRevokes | internal/service/payment_adjustment.go:207-233 | a compensation that revokes ends every entitlement delivered for the order now, if it would run on, and one that does not none; no other grant is touched |
| CommerceResults.LatePaymentDeliversNothing | internal/service/payment_fulfillment_processor.go:74-88 | a payment event for an order with anything delivered changes no grant, credit or execution; for one with nothing delivered see `LatePayments.RefundedDelivered` |
| OrderEvents.GraceDecided | internal/service/subscription_renewal.go:258-303 | giving grace goes through exactly if each grant is there already for this user or can be made |
| OrderEvents.EventDecided | internal/service/payment_fulfillment_processor.go:47-89 | for every order and every event: the status it is left in and whether it was delivered on the way, from the stores, the event and the environment alone |
| OrderTerms.PurchasesStay | internal/service/payment_order_processor.go:36-69 | over every run what an order is for never changes, nor when it was first paid and first delivered |
| OrderTerms.PaymentRecorded | internal/service/payment_order_processor.go:40-49 | a payment of an open order records by whom, under which number and when it was first paid and delivered |
| OrderTerms.CyclePaymentRecorded | internal/service/subscription_renewal.go:196-211 | the same for a payment of a renewal order, paid as of its period's start |
| OrderTerms.InitialPaymentRecorded | internal/service/subscription_renewal.go:227-242 | the same for a checkout's first payment reported as a renewal, unless its mark is undone |
| OrderTerms.ChecksDecided | internal/service/payment_order_processor.go:23-39 | a payment passes its checks exactly if amounts that both name are the same, and currencies, whatever their case |
| LatePayments.RefundedLeft | internal/service/payment_order_processor.go:36-66 | exactly which events take an order out of being refunded |
| LatePayments.RefundedUntilReopened | internal/service/payment_order_processor.go:36-66 | over every run an order is refunded at every point exactly if no event processed on the way reopens it |
| LatePayments.RefundedWhenLeftAlone | internal/service/subscription_renewal.go:196-242 | it is if no payment, cancellation or failed renewal about it is in the inbox or comes in |
| LatePayments.RefundedDelivered | internal/service/payment_fulfillment_processor.go:74-88 | an order refunded before anything was delivered is delivered, each rule once, and fulfilled exactly by an event that pays it and finds nothing in the way; after any other nothing is delivered |
| LatePayments.RefundedThenPaid | internal/service/payment_order_processor.go:36-49 | a paid event leaves a refunded checkout refunded if a check fails, fulfilled if the delivery goes through and paid if not, and delivers what was not delivered exactly then |
| LatePayments.RefundedThenRenewed | internal/service/subscription_renewal.go:102-114 | the same for its first payment reported as a renewal, with the mark undone where the unit of work fails |
| LatePayments.UndeliveredUntilPaid | internal/service/payment_fulfillment_processor.go:74-88 | over every run an order with nothing delivered ends so exactly if no event processed on the way delivers it |
| LatePayments.NeverDeliveredAgain | internal/service/fulfillment.go:239-242 | over every run an order with any rule applied, refunded or not, gets no further grant or ledger entry under a delivery key |
| RefundedRun.RefundedThenDelivered | internal/service/payment_event.go:112-124 | for every catalog, checkout and cause of a failed first delivery, the run of payment, refund and the same payment again is allowed and ends with the refunded order delivered, every grant active |
| RefundedRun.OneGrantAfterRefund | internal/service/payment_event.go:112-124 | a concrete such run with one rule |
| Renewals.SameCycleSameOrder | internal/service/subscription_renewal.go:155-194 | every later event of a cycle finds the order first derived for it, whatever happened in between |
| Renewals.PaymentJoinsFailure | internal/service/subscription_renewal.go:426-439 | a failed renewal and the payment that makes up for it meet in one order, whatever happened in between |
| Renewals.ProcessKeepsSettled | internal/service/subscription_renewal.go:196-225 | no event but a refund or dispute of the order itself takes it out of paid or fulfilled |
| Renewals.SettledUntilTakenBack | internal/service/subscription_renewal.go:196-225 | over every run without such an event a paid or fulfilled order stays so |
| OrderTerms.OneOrderPerCycle | internal/service/subscription_renewal.go:417-439 | after any run a later renewal event of a checkout is about the order of an earlier one exactly if their periods meet at one instant, or neither has a period and both came in in one month |
| OrderTerms.DerivedTerms | internal/service/subscription_renewal.go:168-193 | the order derived for a cycle: same buyer and SKU, and what the event or else the checkout says |
| RenewalTerms.PaymentGoesTo | internal/service/subscription_renewal.go:441-475 | a renewal payment pays the checkout itself exactly if it comes within two minutes of the checkout's own payment or that is still open; otherwise the checkout stays as it is |
| RenewalTerms.RenewalDelivered | internal/service/subscription_renewal.go:115-135 | the payment that is a cycle's first event makes the cycle's order and delivers it, each rule once, exactly if nothing stands in the way |
| GraceTerms.FailedGivesGrace | internal/service/subscription_renewal.go:258-303 | a failed renewal that goes through gives each entitlement with grace one grant, from the end of the period for the configured number of whole days, or three, and changes no other |
| GraceTerms.ExpiredEndsGrace | internal/service/subscription_renewal.go:305-360 | an expired subscription ends exactly the grace of the order's user that had begun and is over, where grace is swept |
| PaymentEvents.PaymentEventService.UpdateOrder | internal/service/payment_order_processor.go:23-70 | the order's new status field by field, or the mismatch error with nothing written |
| PaymentEvents.PaymentEventService.RevokeGrant | internal/service/payment_adjustment.go:207-233 | revokes a grant once and ends it now if it would run on |
| PaymentEvents.PaymentEventService.CompensateAll | internal/service/payment_adjustment.go:123-149 | the loop over applied executions revokes and claws back as the decision says |
| PaymentEvents.PaymentEventService.ApplyAdjustment | internal/service/payment_adjustment.go:79-151 | decision, compensation and rollback, with the verdict for the inbox |
| PaymentEvents.PaymentEventService.ResolveOrder | internal/service/subscription_renewal.go:155-194 | finds the cycle's renewal order or creates it |
| PaymentEvents.PaymentEventService.UpdateRenewal | internal/service/subscription_renewal.go:196-225 | the renewal order's new status |
| PaymentEvents.PaymentEventService.EnsureGraceGrants | internal/service/subscription_renewal.go:258-303 | the loop gives each entitlement its grace grant, once per order |
| PaymentEvents.PaymentEventService.SweepGrace | internal/service/subscription_renewal.go:339-357 | the inner loop expires exactly the grace grants of one entitlement that are over |
| PaymentEvents.PaymentEventService.ExpireGraceGrants | internal/service/subscription_renewal.go:305-360 | the loop over the entitlements |
| PaymentEvents.PaymentEventService.ApplyInitialPayment | internal/service/subscription_renewal.go:102-114 | marks and fulfils a checkout whose first payment is reported as a renewal |
| PaymentEvents.PaymentEventService.ApplyRenewalEvent | internal/service/subscription_renewal.go:81-153 | one renewal event, rolled back where the service uses a unit of work |
| PaymentEvents.PaymentEventService.ProcessPaymentEvent | internal/service/payment_fulfillment_processor.go:47-89 | order update, then adjustment, fulfillment or renewal |
| PaymentEvents.PaymentEventService.ProcessRow | internal/service/payment_event.go:183-256 | one row processed, with writes that may fail before or after the call |
| PaymentEvents.PaymentEventService.ReceiveWebhook | internal/service/payment_event.go:94-146 | a delivery stored or recognized and processed, keeping the whole system safe |
| PaymentEvents.PaymentEventService.Process | internal/service/payment_event.go:148-160 | an operator's request, keeping the whole system safe |
| CloudKeys.SegmentsStay | internal/service/cloud_storage.go:1154-1166 | cleaning leaves a text alone exactly if it is a path segment: safe characters, no hyphen, dot or underscore at either end, between 1 and 128 long |
| CloudKeys.KeysDecided | internal/service/cloud_storage.go:976-985 | two object keys are equal exactly if user, project, kind, hash and file name all clean alike |
| CloudResources.BeforeIsOrder | internal/service/cloud_storage.go:967-972 | the comparator orders resources strictly and totally by kind and id |
| CloudResources.CollectEnters | internal/service/cloud_storage.go:947-974 | the normal form lists each resource once, as last given, in order |
| CloudResources.EntersOnce | internal/service/cloud_storage.go:963-972 | there is only one such list, so the walk over the map does not matter |
| CloudResources.NormalizeResources | internal/service/cloud_storage.go:947-974 | map and sort give the normal form, or a refusal of empty or unacceptable input |
| CloudReading.AcceptedDecided | internal/service/cloud_storage.go:947-961 | a list is accepted exactly if it is not empty and every resource has an id and a hash beyond white space and no negative size |
| CloudReading.TextsRead | internal/service/cloud_storage.go:953-957 | id, hash and content type are what is between the white space at both ends, and a blank content type is the default |
| CloudReading.KindRead | internal/service/cloud_storage.go:954-954 | a kind that is a path segment stays, and none is the default |
| CloudReading.NameRead | internal/service/cloud_storage.go:957-957 | a file name that is a path segment stays, and without one the last element of the id serves |
| CloudIndex.UpsertsApply | internal/repository/gorm_repo/cloud_storage.go:138-145 | after the upserts the manifest's keys are active under whoever had them before, all else is unchanged |
| CloudIndex.LastWins | internal/service/cloud_storage.go:760-786 | of resources with one key the last is stored |
| CloudIndex.IndexIsManifest | internal/service/cloud_storage.go:759-796 | a project's active keys after a commit are the manifest's exactly if none belongs to another project |
| CloudIndex.CommitWithinQuota | internal/service/cloud_storage.go:702-815 | after a commit the user's active bytes are at most the projection, which is within the quota, and equal to it for distinct keys of the project's own |
| CloudIndex.CommittedAtMostOnce | internal/service/cloud_storage.go:1014-1044 | over every run a session has one manifest if it is marked committed and none otherwise |
| CloudDecisions.AuthorizeDecided | internal/service/cloud_storage.go:396-476 | a sync is authorized exactly if the list is acceptable, the user active and entitled, a project named and the list fits the quota; its session is for that list and project, for a quarter of an hour |
| CloudDecisions.AuthorizeRefused | internal/service/cloud_storage.go:824-868 | what any other request is told |
| CloudDecisions.CommitDecided | internal/service/cloud_storage.go:702-758 | under a new key a commit goes through exactly if the session is the asker's own, open, not expired and authorized for this very list, its project the asker's, and the list fits the quota |
| CloudDecisions.CommitLeaves | internal/service/cloud_storage.go:759-815 | what it leaves: one manifest of that list, the session marked, the project's name and last manifest, the manifest's keys active and the project's others replaced, and nothing else moved |
| CloudDecisions.CommitRefused | internal/service/cloud_storage.go:1014-1044 | why a commit is refused |
| CloudDecisions.CommitReplayed | internal/service/cloud_storage.go:496-511 | under a used key the manifest made under it is answered, to its own user and session only |
| CloudDecisions.EveryManifestAuthorized | internal/service/cloud_storage.go:1040-1042 | over every run each manifest was committed by the user authorized for it, within a quarter of an hour, and lists exactly the keys of the list that was authorized |
| CloudCollisions.IndexedFromStart | internal/service/cloud_storage.go:702-815 | over every run that asks only for projects no two of which clean alike, every project's index is what its last manifest lists |
| CloudCollisions.AlikeCollide | internal/service/cloud_storage.go:759-786 | for any two projects that clean alike a run ends with the second one's objects under the first |
| CloudCollisions.IndexDecided | internal/service/cloud_storage.go:702-815 | the indexes of a set of projects are right after every run exactly if no two of them clean alike |
| CloudCollisions.SegmentsIndexed | internal/service/cloud_storage.go:1156-1166 | ids that are path segments as they are never collide |
| CloudCollisions.SpaceAndHyphen | internal/service/cloud_storage.go:976-985 | one user's projects "a b" and "a-b" collide |
| CloudStorage.CloudStorageService.ProjectedUsage | internal/service/cloud_storage.go:885-899 | the sums of stored and requested bytes give the specified projection |
| CloudStorage.CloudStorageService.EnsureOwnProject | internal/service/cloud_storage.go:908-945 | finds and renames the user's project or creates it |
| CloudStorage.CloudStorageService.CheckAccess | internal/service/cloud_storage.go:824-868 | lets through exactly an active user entitled to some storage, and says why not otherwise |
| CloudStorage.CloudStorageService.AuthorizeSync | internal/service/cloud_storage.go:396-476 | opens a session for an active, entitled user and a list within quota, leaving the project even when it refuses |
| CloudStorage.CloudStorageService.UpsertObject | internal/repository/gorm_repo/cloud_storage.go:138-145 | inserts a row or updates it without changing its owner or project |
| CloudStorage.CloudStorageService.StoreResources | internal/service/cloud_storage.go:759-786 | the loop of upserts, noting the keys to keep |
| CloudStorage.CloudStorageService.RetireObjects | internal/service/cloud_storage.go:787-796 | the loop marks exactly the rows not kept as replaced |
| CloudStorage.CloudStorageService.CommitInTransaction | internal/service/cloud_storage.go:702-815 | a commit from its session check to its last write, of the very list the session was authorized for |
| CloudStorage.CloudStorageService.CommitManifest | internal/service/cloud_storage.go:478-517 | replays by key, commits in a unit of work, keeps the stores sound |

## Left out

- HTTP handlers, configuration, metrics, audit and logging: plumbing around the core.
- Payment adapters, object storage signing, JSON, hashing and signatures: calls into code outside the service; a hash stands for what it is a hash of.
- Concurrent transactions and what a unit of work opened inside another can see: steps are sequential, and the inner one sees the outer one's writes.
- Database failures in the wallet's own methods: a failed write there is a rollback like any refusal; delivery and the inbox do model failing writes.
- Machine integer width: amounts, sizes and attempts do not overflow.
- The wallet's usage metadata, listings of transactions and usage records, and the bucket's own idempotency index: they carry no balance.
- Allocation strategies other than the default one: the strategy is an interface, the default is modelled.
- Calendar months and years as durations of rules: a rule's length is a span of time, so sums are exact.
- Wallet.CreditStore.ListBuckets: the database returns buckets in an order of its own; the method sorts as it inserts, because the order is shown not to matter.
- PaymentEvents.PaymentEventService.ApplyAdjustment: the execution query may answer in any order, and reading or risk-flag failures are one flag.
- The refund policy's own decision and its window: any decision is allowed, so every policy is covered.
- The grants a fulfilled order's execution listing returns, and the affected grants a renewal returns: they are read models.
- Grants created without a key, registrations, snapshots and device limits: no delivery goes that way.
- Changing, cancelling or resuming subscriptions, catalog reconciliation, administrators' read models, migrations: they add only easy members.
- A checkout that writes its session after the payment event arrived: it is a concurrent overwrite of the order.
- Deleting cloud objects, download targets and plan-aware quota decisions: the quota is a parameter, and only commits change the index.
- The width of the object key column: a key longer than 512 characters is stored as it is.
- Repositories, gateways or processors that are not configured: each of them is taken to be there.
- Registering the session after an accepted login challenge and the delivery of its message: their outcome is a parameter.
