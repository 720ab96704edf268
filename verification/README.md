# ForgeCustomer in Dafny

ForgeCustomer keeps the commercial truth of a product family: who used how much, which subscription
grants which licence, which device may run it, which release is offered to whom. This project models
its transactions and proves what every run of them keeps.

`dafny verify dfyconfig.toml` checks everything.

## How the model is built

Tables are sequences or maps of rows; a row's uuid is its position. Each repository has two forms: a
function from tables to tables and an answer (the reference), and a class whose fields are the tables
and whose methods read, test and update them in the order of the source, proved equal to the function.
The properties are lemmas about the functions over arbitrary sequences of operations; the `Outcomes`
modules say, in the rows alone, when each transaction gives each answer and what it then leaves stored. A class with
invariants keeps a `Valid()` that carries them from method to method, and a `Serve` method drives any
sequence of operations through each class and ends in the reference's run. Clock readings, random ids, plan catalogues,
limits and network answers are inputs of the steps that use them.

| files | part of the system |
|---|---|
| `UsageRules`, `UsageLedger`, `UsageInvariants`, `UsageStore`, `UsageRuns`, `UsageOutcomes`, `UsageExpiry`, `UsageThresholds` | the usage ledger: reservations, commits, releases, expiry, adjustments, quota decisions, threshold notices |
| `LicenseTables`, `LicenseRuns`, `LicenseOutcomes`, `LicenseStore` | licences, installations, activations, revocations, offline leases |
| `Commerce`, `CommerceRuns`, `CommerceConvergence`, `CommerceLicenses`, `CommerceOutcomes`, `CommerceStore` | Stripe webhooks, the subscription projection, Stripe links, licence sync, operator resync |
| `Privacy`, `PrivacyRuns`, `PrivacyOutcomes`, `PrivacyStore` | account deletion |
| `RateLimiter`, `JwksCache` | the request limiter and the signing-key cache |
| `Versions`, `Releases`, `ReleaseRuns`, `ReleaseOutcomes`, `ReleaseStore` | versions, releases, campaigns, the update check, tickets and receipts |
| `Entitlements`, `Overrides` | entitlement evaluation, how its layers are filled, operator overrides |
| `Redaction`, `Outbox` | payload redaction and the outbox worker |

The ledger's stored totals row is a fast index over two slow tables. `UsageLedger` has no totals at
all, every amount is recomputed from rows; `UsageStore` keeps the totals with the source's clamped
decrements. `Serve` runs any schedule through the stored form and ends with the reference's rows and
totals equal to them. A request's unlocked replay check and its locked body are separate steps there,
so every interleaving of concurrent requests is a schedule.

## What turned out different from expectation

- Webhook convergence fails across customers. The upsert's update branch never writes the owner
  (`api/src/repositories/commerce.rs:779-837`), so two orders of the same events end alike if and only
  if their first deliveries name the same customer (`ConvergesIffOwnersAgree`, `OwnerDependsOnOrder`).
- `docs/USAGE.md` says thresholds are generated exactly on crossing. Only commits queue them: when an
  adjustment crosses a mark its notice is missing, or left standing (`AdjustmentCanPassAMark`,
  `AdjustmentCanLeaveANotice`). The notices fit the usage if and only if the adjustments balance at every mark
  (`ExactIffAdjustmentsBalance`).
- The watermark can fall: an event without a creation time is never stale and erases it, and a resync
  stamps the operator's clock unconditionally. Nothing else lowers it (`StepLowersWatermark`,
  `WatermarkClimbsIffNothingLowers`, `WatermarkCanFall`).
- Committing an overdue hold keeps the expiry and then answers with an error (`ReservationCommitMeans`,
  `OverdueCommitExpires`).
- The update check reads its candidates and writes its ticket in two statements, so a ticket can follow
  a block of its release if its lookup came first (`TicketAfterBlock`, `TicketCanFollowBlock`).
- An explicit licence id is matched by owner only, so an installation can be activated on a licence for
  another product, and is exactly when the caller names one (`CrossesProductsIffNamed`,
  `NamedLicenseCanCrossProducts`).
- A deleted customer can hold an active licence again, by an operator's issue or by a subscription that
  a webhook or resync syncs, and in no other way (`DeletedHoldsAgainIffRegranted`,
  `DeletedCanHoldAgain`).
- The linked licence does not converge with its row: a cancellation delivered before the activation
  leaves none, the other order an expired one. What it ends as is the row's status history, folded
  (`LinkedIsFolded`, `LicensesConvergeIffBothGranted`, `LicenseDependsOnOrder`).
- A sync on a plan version that is not on record leaves the licence alone, so it breaks agreement unless
  the licence fits anyway (`StepKeepsAgreement`, `UnknownPlanBreaksAgreement`). The foreign key on the
  subscription's plan version is what rules such a write out.

## Model

| member | source | states |
|---|---|---|
| `UsageRuns.Serve` | api/src/repositories/usage.rs:279-658 | For every schedule of arriving, racing, abandoned and finished requests, releases, sweep batches and adjustments, run through the stored tables: `used` is the sum of the key's events and `reserved` the sum of its pending holds, for every key, and the rows are those of the reference ledger that keeps no totals |
| `UsageRuns.Perform` | api/src/repositories/usage.rs:372-401 | One step of any schedule on the stored rows, replay checks outside the lock included, moves them as the reference ledger moves and keeps the totals in step |
| `UsageStore.UsageRepository.FoldTotals` | api/src/repositories/usage.rs:602-621 | `greatest(0, reserved - x)` never clamps: where the rows moved by these amounts the totals follow exactly |
| `UsageStore.UsageRepository.LockTotals` | api/src/repositories/usage.rs:102-134 | A missing totals row is created as zero and nothing else changes |
| `UsageStore.UsageRepository.ExpireRows` | api/src/repositories/usage.rs:136-165 | Exactly the overdue holds of one key expire, and the sum returned is what the key's pending amount lost |
| `UsageStore.UsageRepository.ExpireStale` | api/src/repositories/usage.rs:136-180 | Lazy expiry ends the key's overdue holds and keeps the totals equal to the rows |
| `UsageStore.UsageRepository.LockAndExpire` | api/src/repositories/usage.rs:297-324 | Under the lock the row read is the true used and reserved amount after lazy expiry |
| `UsageStore.UsageRepository.Reserve` | api/src/repositories/usage.rs:279-405 | A reservation request on the stored rows equals the reference transaction and keeps the totals true |
| `UsageStore.UsageRepository.ReserveUnderLock` | api/src/repositories/usage.rs:297-404 | The locked body does so whatever ran since the replay check |
| `UsageStore.UsageRepository.PlaceHold` | api/src/repositories/usage.rs:353-401 | The new hold is counted in `reserved` and nowhere else |
| `UsageStore.UsageRepository.Commit` | api/src/repositories/usage.rs:432-658 | Either commit mode on the stored rows equals the reference transaction and keeps the totals true |
| `UsageStore.UsageRepository.CommitReservation` | api/src/repositories/usage.rs:451-494 | Committing a hold: unknown, terminal, overdue (which expires it and still errors) and pending holds |
| `UsageStore.UsageRepository.CommitDirectly` | api/src/repositories/usage.rs:495-556 | Direct usage: lazy expiry, decision, and the failure notice a denial leaves |
| `UsageStore.UsageRepository.SettleCommit` | api/src/repositories/usage.rs:559-658 | The event is inserted once per idempotency key; a lost race returns the original |
| `UsageStore.UsageRepository.RecordEvent` | api/src/repositories/usage.rs:559-622 | Event, converted hold and totals move together |
| `UsageStore.UsageRepository.QueueCrossed` | api/src/repositories/usage.rs:623-650 | Crossed thresholds are queued in order, each delivery key once |
| `UsageStore.UsageRepository.Release` | api/src/repositories/usage.rs:662-709 | Releasing gives a pending hold back and leaves terminal ones alone |
| `UsageStore.UsageRepository.EndHold` | api/src/repositories/usage.rs:470-492 | Ending one pending hold gives back exactly its amount |
| `UsageStore.UsageRepository.Sweep` | api/src/repositories/usage.rs:755-794 | A sweep batch expires the rows it picked and nothing else |
| `UsageStore.UsageRepository.GiveBackAll` | api/src/repositories/usage.rs:775-792 | The sweeper's row-by-row decrements together equal the expired rows |
| `UsageStore.UsageRepository.GiveBack` | api/src/repositories/usage.rs:780-790 | Each decrement takes off exactly one expired hold |
| `UsageStore.UsageRepository.Adjust` | api/src/repositories/admin.rs:748-870 | An adjustment, of either sign, adds one event and its amount, or replays |
| `UsageRules.Decide` | api/src/domain/usage.rs:22-56 | Allowed exactly for a non-negative amount that fits under the limit, or without a limit |
| `UsageRules.DecisionMeans` | api/src/domain/usage.rs:22-56 | Each reason exactly in its case, and the reported remainder is the most that would be granted |
| `UsageRules.CrossedThresholds` | api/src/domain/usage.rs:97-114 | Exactly the configured percentages whose mark lies between the totals before and after, under a positive limit |
| `UsageOutcomes.ReserveAnswers` | api/src/repositories/usage.rs:297-404 | A reservation is denied exactly when it does not fit after lazy expiry, and replayed exactly when it does and its key has a hold; exactly the key's pending holds past their time have expired |
| `UsageOutcomes.ReserveMeans` | api/src/repositories/usage.rs:297-404 | What each of these answers carries: the hold as asked for, under the limit; the caller's own row; or the reason, the limit, the amounts found and what was left |
| `UsageOutcomes.ReservationCommitMeans` | api/src/repositories/usage.rs:451-494 | Committing a hold: not found exactly for a row that is not the caller's, not committable exactly for one no longer pending or past its time, replayed exactly for a used key; else one event charges the hold's own key and amount; every other row is untouched |
| `UsageOutcomes.OverdueCommitExpires` | api/src/repositories/usage.rs:451-494 | A concrete overdue hold: committing it fails and leaves it expired |
| `UsageOutcomes.DirectCommitAnswers` | api/src/repositories/usage.rs:495-556 | Direct usage is denied exactly when it does not fit after lazy expiry, and replayed exactly when it does and its key has an event |
| `UsageOutcomes.DirectCommitMeans` | api/src/repositories/usage.rs:495-556 | What each of these answers carries: the one new event, under the limit; the original event; or the reason, the amounts found and the failure notice |
| `UsageOutcomes.CommitNotifies` | api/src/repositories/usage.rs:602-658 | A recorded commit of either mode queues exactly the percentages of the limit usage has just reached; a replay or an error queues nothing |
| `UsageOutcomes.ReleaseMeans` | api/src/repositories/usage.rs:661-746 | A hold is given back exactly when it is the caller's and pending: its row ends released, its key has its amount less reserved, and nothing else moves; a terminal one is answered with its own status |
| `UsageOutcomes.AdjustMeans` | api/src/repositories/admin.rs:748-870 | An adjustment adds exactly one event with its sign to the key it names, or replays; refused exactly for an unknown customer or else meter |
| `UsageOutcomes.HoldsEndAsAnswered` | api/src/repositories/usage.rs:661-794 | Over any run a hold ends released exactly when a release was answered so, and expired only if a step saw a clock past its time |
| `UsageInvariants.HoldIsCovered` | api/src/repositories/usage.rs:136-180 | A pending hold is always part of its key's reserved sum, so the clamp has something to take from |
| `UsageInvariants.EndingHoldsKeepsWellFormed` | api/src/repositories/usage.rs:136-180 | Ending any set of pending holds keeps every ledger invariant |
| `UsageInvariants.ReserveKeepsWellFormed` | api/src/repositories/usage.rs:297-404 | A locked reserve keeps every ledger invariant |
| `UsageInvariants.CommitKeepsWellFormed` | api/src/repositories/usage.rs:451-658 | A locked commit, of either mode, keeps every ledger invariant |
| `UsageInvariants.SettleKeepsWellFormed` | api/src/repositories/usage.rs:559-622 | Recording an event keeps idempotency keys unique and events matched to reservations |
| `UsageInvariants.AdjustKeepsWellFormed` | api/src/repositories/admin.rs:783-838 | Adjustments share the event keys and keep every ledger invariant |
| `UsageRuns.EveryRunIsWellFormed` | api/src/repositories/usage.rs:279-794 | In every reachable state keys are unique per customer, holds and commits are non-negative, events match the reservations they name and each notice is queued once |
| `UsageRuns.CommittedIffOneEvent` | api/src/repositories/usage.rs:559-604 | A reservation is committed exactly when one event names it, and that event charges its key and amount |
| `UsageRuns.LaterCommitsReplay` | api/src/repositories/usage.rs:435-449 | Once a key has an event no later commit with it adds another, even when its replay check ran before |
| `UsageRuns.LaterAdjustmentsReplay` | api/src/repositories/admin.rs:783-838 | Nor does a later adjustment: it returns the original, whichever operation wrote it |
| `UsageRuns.LaterReservesReplay` | api/src/repositories/usage.rs:282-303 | Nor does a later reserve with a used key place a second hold |
| `UsageRuns.ReservationCommitKeepsLoad` | api/src/repositories/usage.rs:512-556 | Converting a hold leaves used plus reserved as it was; failed commits never raise it |
| `UsageRuns.DecidedLoad` | api/src/repositories/usage.rs:325-401 | A granted decision ends at or under its limit, a denied one never raises any key |
| `UsageRuns.QuotaBound` | api/src/domain/usage.rs:22-56 | Over whole runs with changing limits used plus reserved is at most the largest limit presented plus the positive adjustments |
| `UsageThresholds.ThresholdQueuedAtMostOnce` | api/src/repositories/licensing.rs:996-1016 | With adjustments mixed in each percentage is still queued at most once per key |
| `UsageThresholds.AdjustmentCanPassAMark` | api/src/repositories/admin.rs:783-870 | A concrete adjustment carries usage past a mark; after it, and after the commit that follows, no notice is queued |
| `UsageThresholds.AdjustmentCanLeaveANotice` | api/src/repositories/admin.rs:783-870 | A concrete commit queues the 80 percent notice; an adjustment back below the mark leaves it standing |
| `UsageThresholds.QueuedIffCommitCrossed` | api/src/repositories/usage.rs:623-650 | In every run, adjustments included, a threshold is queued exactly when some commit crossed its mark |
| `UsageThresholds.ExactIffAdjustmentsBalance` | api/src/domain/usage.rs:97-114 | The thresholds queued are those the usage has reached if and only if the adjustments balance at every configured mark: down at least as often as up where usage is past it, up at least as often as down where it is not |
| `UsageThresholds.AdjustmentKeepsExactness` | api/src/repositories/admin.rs:783-870 | One applied adjustment keeps exact notices exact if and only if it crosses no configured mark, in either direction |
| `UsageThresholds.AlwaysExactIffNoAdjustmentCrosses` | api/src/repositories/admin.rs:783-870 | The notices are exact at every point of a run if and only if no adjustment ever crossed a configured mark |
| `UsageThresholds.ThresholdsTelescope` | api/src/domain/usage.rs:97-114 | Without adjustments of the key they are exact however usage is split into commits, and zero percent never fires |
| `UsageExpiry.ExpiryIsConfluent` | api/src/repositories/usage.rs:755-794 | Batches row by row, lazy expiry per key, or any mix at one instant end in the same rows |
| `UsageExpiry.ExpiryReachesSameTotals` | api/src/repositories/usage.rs:136-180 | and so in the same stored totals |
| `UsageExpiry.BatchShrinks` | api/src/repositories/usage.rs:755-775 | A batch removes exactly its rows from the overdue ones, and a short batch leaves none |
| `UsageExpiry.SweepsDrain` | api/src/repositories/usage.rs:755-794 | Enough sweeps leave no overdue hold |
| `LicenseStore.LicenseRepository.SyncLicenseForSubscription` | api/src/repositories/licensing.rs:793-952 | The sync transaction equals its reference: issue, reactivate, suspend, expire or leave |
| `LicenseStore.LicenseRepository.RegisterInstallation` | api/src/repositories/licensing.rs:150-340 | Registration upserts device and installation, reactivates, and refuses another product |
| `LicenseStore.LicenseRepository.ActivateInstallation` | api/src/repositories/licensing.rs:349-543 | Activation equals its reference, every refusal included |
| `LicenseStore.LicenseRepository.CountActive` | api/src/repositories/licensing.rs:446-452 | The loop counts the active activations of one licence |
| `LicenseStore.LicenseRepository.DeactivateInstallation` | api/src/repositories/licensing.rs:570-641 | Deactivation releases every activation of the installation |
| `LicenseStore.LicenseRepository.Revoke` | api/src/repositories/admin.rs:506-583 | Unknown exactly for an id without a row; otherwise the licence ends revoked and on record, newly so exactly when it was not, and every other licence is as it was |
| `LicenseStore.LicenseRepository.IssueOfflineLease` | api/src/repositories/entitlements.rs:540-676 | An issued lease names an active installation of the caller, active on an active licence of theirs with no revocation on record |
| `LicenseStore.LicenseRepository.FreezeCustomer` | api/src/repositories/privacy.rs:418-465 | Deletion revokes licences, devices and installations of one customer |
| `LicenseStore.Serve` | api/src/repositories/licensing.rs:150-952 | Any sequence of licensing transactions through the stored tables ends where the reference says, with all six invariants |
| `LicenseTables.SelectLicense` | api/src/repositories/licensing.rs:391-407 | The most recently issued active, unexpired licence for the product, or none |
| `LicenseRuns.EveryRunIsSound` | api/src/repositories/licensing.rs:150-952 | In every reachable state: one customer per activation, one active activation per pair, none on a deactivated installation, revoked exactly when recorded, one licence per subscription, expiry exactly on expired linked licences |
| `LicenseRuns.SyncKeepsSound` | api/src/repositories/licensing.rs:793-952 | A sync keeps all of these |
| `LicenseRuns.ActivateAppends` | api/src/repositories/licensing.rs:349-543 | A granted activation is one new row on an active licence and installation of one customer, below the limit; any other answer changes nothing |
| `LicenseRuns.ActivationMeans` | api/src/repositories/licensing.rs:349-543 | What a granted activation tells its caller, and why a refused one met the limit |
| `LicenseRuns.CrossesProductsIffNamed` | api/src/repositories/licensing.rs:378-407 | An activation crosses products exactly when the caller named a licence of another product |
| `LicenseRuns.NamedLicenseCanCrossProducts` | api/src/repositories/licensing.rs:378-390 | A concrete run in which that happens |
| `LicenseRuns.StepCount` | api/src/domain/license.rs:10-12 | A licence's active count grows only by one activation, from below the limit in force |
| `LicenseRuns.DeviceLimitHolds` | api/src/repositories/licensing.rs:441-490 | so it never exceeds the largest limit in force at any of its activations |
| `LicenseRuns.RunsContinue` | api/src/repositories/admin.rs:506-583 | Any continuation keeps identities, revocations and leases and grants nothing on a revoked licence |
| `LicenseRuns.RevocationIsPermanent` | api/src/repositories/admin.rs:506-583 | After a revocation no run reactivates, activates or leases that licence |
| `LicenseRuns.StepRegrants` | api/src/domain/license.rs:65-91 | A customer without an active licence gets one exactly by an operator issue, or a sync of a cloud-granting subscription on a known plan version whose linked licence is missing or not revoked |
| `LicenseRuns.HoldsAgainIffRegranted` | api/src/domain/license.rs:65-91 | and over any run holds one at some point if and only if such a step ran |
| `LicenseRuns.LeaseFailsClosed` | api/src/repositories/entitlements.rs:576-615 | A lease is issued only on an active, unexpired, unrevoked licence active on that installation, with the device not revoked |
| `LicenseOutcomes.FirstSyncMeans` | api/src/repositories/licensing.rs:846-861 | A first sync issues a licence exactly when cloud is granted: the plan's product and device limit, active from now, without an end |
| `LicenseOutcomes.LaterSyncMeans` | api/src/repositories/licensing.rs:876-952 | A later sync reactivates under granting statuses, dropping the end and renewing the device limit; suspends and expires otherwise, keeping the limit and any end there was; a revoked licence and every other row stay |
| `LicenseOutcomes.IssuedIsSelected` | api/src/repositories/admin.rs:423-504 | An issued licence is the one the customer's next activation for the product takes until it ends, with the limit asked for |
| `LicenseOutcomes.EveryRunNamesOnce` | api/src/repositories/licensing.rs:150-340 | In every run an installation key and a device fingerprint name one row per customer |
| `LicenseOutcomes.RegisterMeans` | api/src/repositories/licensing.rs:150-340 | Registration ends with the one installation of its key active, new or reactivated as answered; refused exactly for an unknown or another product |
| `LicenseOutcomes.RegisterLinksDevice` | api/src/repositories/licensing.rs:150-340 | and links it to the one device of its fingerprint, which is never un-revoked; without one it keeps its device |
| `LicenseOutcomes.ActivationGates` | api/src/repositories/licensing.rs:349-407 | Each refusal before a licence is looked at, exactly in its case |
| `LicenseOutcomes.ActivationDecides` | api/src/repositories/licensing.rs:408-543 | And each answer after: not active, ended, denied by a revocation, already active, at the limit, or granted, exactly in its case |
| `LicenseOutcomes.ActivationRepeats` | api/src/repositories/licensing.rs:349-543 | Asked again, a granted activation is answered as it is and takes no second slot |
| `LicenseOutcomes.DeactivationMeans` | api/src/repositories/licensing.rs:570-641 | The installation and every activation on it end inactive, each licence gets back exactly the slots it held, and nothing else moves; refused exactly for an installation that is not the caller's or is inactive already |
| `LicenseOutcomes.LeaseDecides` | api/src/repositories/entitlements.rs:540-676 | Each answer of a lease request, exactly in its case |
| `CommerceStore.CommerceRepository.ProcessWebhookEvent` | api/src/repositories/commerce.rs:174-218 | Processing a webhook equals its reference: duplicates, ignored and receipt-only events included, failures roll back |
| `CommerceStore.CommerceRepository.ApplySubscriptionChange` | api/src/repositories/commerce.rs:442-527 | Applying a subscription event: staleness, resolution, upsert, link, licence sync |
| `CommerceStore.CommerceRepository.ApplyInvoiceChange` | api/src/repositories/commerce.rs:565-663 | Applying an invoice event: a paid invoice never revives a canceled subscription |
| `CommerceStore.CommerceRepository.UpsertSubscription` | api/src/repositories/commerce.rs:779-837 | The upsert writes everything but the owning customer on update |
| `CommerceStore.CommerceRepository.ApplyAdminResync` | api/src/repositories/commerce.rs:1072-1202 | An operator resync overwrites the row and stamps the operator's clock |
| `CommerceStore.Serve` | api/src/repositories/commerce.rs:174-1202 | Any schedule of webhooks, receipts, checkouts, resyncs and licensing transactions through the stored tables ends where the reference says: licences sound, events applied once, linked licences with their owners |
| `CommerceRuns.LinksAreForGood` | api/src/repositories/commerce.rs:756-777 | Whoever first claims a Stripe customer, by checkout or webhook, keeps it in every run |
| `CommerceRuns.LicensingTrace` | api/src/repositories/commerce.rs:531-563 | Between any two points of a run the licensing tables move by exactly the licensing transactions its steps carry out, in order |
| `CommerceRuns.EveryRunIsSoundlyLicensed` | api/src/repositories/commerce.rs:531-563 | so every licensing invariant holds after any webhooks, resyncs, revocations and deletions |
| `CommerceRuns.SyncFits` | api/src/domain/license.rs:65-91 | After a sync the linked licence fits the subscription's status, one exists if cloud is granted, and other licences are untouched |
| `CommerceRuns.EveryRunAgreesOn` | api/src/repositories/commerce.rs:442-663 | In every run whose writes of one subscription are on plan versions that exist at the write, licence and subscription agree: active only under active, trialing or past due; suspended or expired never under a cloud-granting status; a cloud-granting subscription has a linked licence |
| `CommerceRuns.AgreesIffNothingToSync` | api/src/domain/license.rs:65-91 | The two agree on a subscription if and only if a sync of its row would have nothing to do |
| `CommerceRuns.StepKeepsAgreement` | api/src/repositories/commerce.rs:442-663 | A step keeps them agreeing if and only if its catalogue has the plan version of the row it writes, or the linked licence already fits that row, or it writes none |
| `CommerceRuns.AgreesIffInStep` | api/src/repositories/commerce.rs:442-663 | so from any point where they agree they go on agreeing at every point of the run if and only if each step is of that kind |
| `CommerceRuns.UnknownPlanBreaksAgreement` | api/src/repositories/licensing.rs:812-822 | A concrete write on an unknown plan version after which an active subscription has no licence |
| `CommerceLicenses.LinkedIsFolded` | api/src/repositories/licensing.rs:793-952 | In such a run the linked licence, unless revoked, is what the history of the row's status folds to under the sync rules: none, active, suspended or expired |
| `CommerceLicenses.LinkedIffEverGranted` | api/src/repositories/licensing.rs:793-952 | A licence is linked if and only if the row granted cloud at some point |
| `CommerceLicenses.FinalLicense` | api/src/domain/license.rs:65-91 | A row that ends canceled leaves an expired licence, one that ends granting cloud an active one, if it ever granted; otherwise there is none |
| `CommerceLicenses.LicensesConvergeIffBothGranted` | api/src/repositories/commerce.rs:442-663 | Two runs that end with the row active, trialing or canceled alike leave the same licence if and only if both granted cloud at some point or neither did |
| `CommerceLicenses.LicenseDependsOnOrder` | api/src/repositories/commerce.rs:442-527 | An activation and a cancellation whose two orders leave the same row, and an expired licence or none |
| `CommerceRuns.LinkedLicenseIsUnique` | api/src/repositories/licensing.rs:793-952 | At most one licence is linked to a subscription, expired exactly when it carries an expiry |
| `CommerceOutcomes.SubscriptionEventMeans` | api/src/repositories/commerce.rs:442-527 | The stored row takes the metadata's plan, else that of the row before, else the price's active version, and likewise for the customer; each refusal comes exactly when none is there; a late event is only recorded as skipped; the Stripe customer is linked, and the licence synced with the stored row |
| `CommerceOutcomes.InvoiceEventMeans` | api/src/repositories/commerce.rs:565-663 | A failed payment makes the row past due, a paid one active unless canceled; the licence is synced exactly when the status moved |
| `CommerceOutcomes.ResyncMeans` | api/src/repositories/commerce.rs:1072-1202 | A resync stores the same of the fetched truth under the operator's clock, is refused exactly for an unknown subscription, and says whether anything visible changed |
| `CommerceOutcomes.WebhookMeans` | api/src/repositories/commerce.rs:174-218 | An event is applied exactly when its id is new or only recorded; every answer is the receipt then on record, and what cannot be applied leaves nothing behind |
| `CommerceConvergence.AppliedExactlyOnce` | api/src/repositories/commerce.rs:174-218 | An event id is processed exactly when one application of it, and only one, is on record |
| `CommerceConvergence.RecordingFirst` | api/src/repositories/commerce.rs:254-304 | Recording an event before processing it makes no difference if and only if processing it would succeed; otherwise the receipt stays open for another try |
| `CommerceConvergence.StepLowersWatermark` | api/src/repositories/commerce.rs:974-979 | A step lowers or loses a watermark exactly when an event without a creation time gets through to the row, or a resync runs with a clock behind it |
| `CommerceConvergence.WatermarkClimbsIffNothingLowers` | api/src/repositories/commerce.rs:779-860 | Along a run the watermark never falls if and only if no such step is in it |
| `CommerceConvergence.WatermarkCanFall` | api/src/repositories/commerce.rs:1072-1202 | Concrete steps of both kinds |
| `CommerceConvergence.EndsWithNewest` | api/src/repositories/commerce.rs:442-527 | For timestamped events with explicit metadata every arrival order, with any repetitions, ends with the newest event's row under the first delivery's owner |
| `CommerceConvergence.ConvergesIffOwnersAgree` | api/src/repositories/commerce.rs:779-837 | Two orders of the same events end with the same row if and only if their first deliveries name the same customer |
| `CommerceConvergence.OwnerDependsOnOrder` | api/src/repositories/commerce.rs:779-837 | Concrete events whose two orders end differently |
| `Privacy.FindOpen` | api/src/repositories/privacy.rs:58-80 | The open request of a customer, if there is one |
| `PrivacyStore.PrivacyRepository.Request` | api/src/repositories/privacy.rs:58-119 | Answers the customer's one open request, new or as it was, and touches no other |
| `PrivacyStore.PrivacyRepository.Cancel` | api/src/repositories/privacy.rs:182-225 | Leaves no open request; not found exactly without one, refused exactly while one is processing |
| `PrivacyStore.PrivacyRepository.Advance` | api/src/repositories/privacy.rs:250-301 | One forward transition of one request; into processing only when the window recorded on entering cooling off is over |
| `PrivacyStore.PrivacyRepository.Reject` | api/src/repositories/privacy.rs:304-337 | Leaves the customer no open request, or changes nothing |
| `PrivacyStore.PrivacyRepository.Execute` | api/src/repositories/privacy.rs:342-533 | Leaves the customer nothing usable and touches nobody else, or changes nothing |
| `PrivacyStore.Serve` | api/src/repositories/privacy.rs:58-533 | Any schedule of the workflow, of commerce and of overrides through the stored tables ends where the reference says, with every invariant of all of them |
| `PrivacyRuns.EveryRunIsOrderly` | api/src/domain/deletion.rs:13-35 | One open request per customer, and each request's status is where its recorded transitions lead |
| `PrivacyRuns.CompletedWentThroughCoolingOff` | api/src/repositories/privacy.rs:250-337 | A completed request was verified, cooled off for the configured window, processed and executed, in that order |
| `PrivacyRuns.TerminalRequestsNeverMove` | api/src/domain/deletion.rs:13-35 | Completed, rejected and canceled requests never move again |
| `PrivacyRuns.ExecutionFreezes` | api/src/repositories/privacy.rs:400-470 | Execution leaves the customer no personal detail, active licence, installation, activation, override or open subscription and every device revoked; every row of every other customer is equal |
| `PrivacyRuns.DeletionIsFinal` | api/src/repositories/privacy.rs:418-465 | Whatever follows, a deleted customer's licences stay revoked and get no activation or lease |
| `PrivacyRuns.TablesTrace` | api/src/repositories/privacy.rs:342-533 | Between any two points of a run of the whole account the licensing tables move by exactly the licensing transactions its steps carry out, an executed deletion being one freeze |
| `PrivacyRuns.StepGrantsAgain` | api/src/repositories/licensing.rs:793-952 | A customer without an active licence gets one exactly by an operator issue, or by a webhook or resync that syncs a subscription of theirs granting cloud on a plan version on record whose linked licence is missing or not revoked |
| `PrivacyRuns.DeletedHoldsAgainIffRegranted` | api/src/repositories/privacy.rs:418-441 | In every run that goes on from an executed deletion the customer holds an active licence again at some point if and only if a step after it was such a grant |
| `PrivacyRuns.DeletedCanHoldAgain` | api/src/repositories/privacy.rs:342-533 | A concrete deletion, cooling off included, followed by an operator issue and, in another run, by a subscription event, each leaving an active licence |
| `PrivacyOutcomes.RequestMeans` | api/src/repositories/privacy.rs:58-119 | Asking opens a request exactly when none is open, and answers the open one otherwise |
| `PrivacyOutcomes.AdvanceMeans` | api/src/repositories/privacy.rs:250-301 | A request moves one stage on exactly while it is requested, verified, or cooling off with its window over; each other case has its own refusal |
| `PrivacyOutcomes.StopsMean` | api/src/repositories/privacy.rs:182-337 | A customer can withdraw and an operator reject a request exactly until processing begins |
| `PrivacyOutcomes.ExecutionDecides` | api/src/repositories/privacy.rs:342-533 | A deletion is carried out exactly for a processing request of a customer with a profile and no subscription short of canceled; each refusal exactly in its case |
| `RateLimiter.RateLimiter.Check` | api/src/middleware/rate_limit.rs:56-90 | The in-place check equals its step function, sweep and early refusal included |
| `RateLimiter.Serve` | api/src/middleware/rate_limit.rs:56-90 | Any calls through the table in place are decided as the run says, and as by the never-swept counter while nobody is refused for fullness |
| `RateLimiter.RetryAfter` | api/src/middleware/rate_limit.rs:57-58 | The advised wait is 1 to 60 seconds and ends where the next window begins |
| `RateLimiter.DecidesByTrueCount` | api/src/middleware/rate_limit.rs:66-90 | For non-decreasing time a call is allowed exactly when the never-swept count is below its limit and the table does not refuse it; the table never exceeds its cap |
| `RateLimiter.FullOnlyWhenCrowded` | api/src/middleware/rate_limit.rs:74-76 | A new client is refused for fullness only after 100,000 distinct clients called in that window |
| `RateLimiter.RefinesReference` | api/src/middleware/rate_limit.rs:56-90 | While nobody is refused for fullness the decisions are those of a never-swept counter per client and window |
| `RateLimiter.UncrowdedIsNeverFull` | api/src/middleware/rate_limit.rs:56-90 | which is always so with at most 100,000 clients a window |
| `RateLimiter.AtMostLimitPerWindow` | api/src/middleware/rate_limit.rs:83-89 | Under limits of at most n a client is allowed at most n times in a window |
| `JwksCache.ParseKeys` | api/src/auth/customer.rs:164-205 | The loop accepts exactly the sets of at most 32 keys with distinct key ids and convertible usable keys |
| `JwksCache.KeysAreUsable` | api/src/auth/customer.rs:164-205 | The parsed keys are the usable ES256 ones, no key id twice |
| `JwksCache.AcceptedKeys` | api/src/auth/customer.rs:164-205 | The keys of an accepted set in the terms of its entries: P-256, ES256, for signatures, free to verify, with an id of at most 128 characters |
| `JwksCache.CustomerJwtValidator.Validate` | api/src/auth/customer.rs:72-117 | One validation: cache hit, cooldown, refresh, and every answer |
| `JwksCache.Serve` | api/src/auth/customer.rs:72-117 | Any requests through the cache in place end where the run says, each answered from the cache it met |
| `JwksCache.AttemptsAreSpaced` | api/src/auth/customer.rs:96-107 | Refreshes are at least a minute apart, whatever key ids arrive and whether they fail |
| `JwksCache.AttemptsAreFew` | api/src/auth/customer.rs:96-107 | so any stretch of time sees at most one a minute plus one |
| `JwksCache.CacheIsLastRefresh` | api/src/auth/customer.rs:107-110 | The cache is what the latest successful refresh brought |
| `JwksCache.VerifiesWithRecentKeysOnly` | api/src/auth/customer.rs:88-117 | A token is checked only with a key of its own id from the latest refresh, under ten minutes old |
| `JwksCache.FailedRefreshKeepsKeys` | api/src/auth/customer.rs:106-108 | A failed refresh costs only the cooldown; fresh keys go on serving |
| `JwksCache.AnswerMeans` | api/src/auth/customer.rs:72-117 | A known key of a cache under ten minutes old answers at once; otherwise nothing is fetched within a minute of the last attempt, and after it one fetch goes out and decides |
| `JwksCache.OtherTokensMean` | api/src/auth/customer.rs:72-87 | Oversized or unreadable tokens and unknown algorithms are invalid, the legacy one is handed on, and none touches the cache |
| `Versions.ParseVersion` | api/src/domain/updates.rs:154-165 | The parsing loop equals its specification |
| `Versions.RoundTrip` | api/src/domain/updates.rs:154-165 | Every list of 64-bit numbers can be written as a version and read back, whatever suffix follows |
| `Versions.ReadsIffWritten` | api/src/domain/updates.rs:154-165 | A text reads as these numbers if and only if it is the numbers in decimal with dots between them, blank space around and a pre-release or build suffix behind |
| `Versions.CompareParts` | api/src/domain/updates.rs:167-178 | The scan with early return equals the comparison function |
| `Versions.CompareMeans` | api/src/domain/updates.rs:167-178 | Comparison is lexicographic order on parts padded with zeros, in all three answers |
| `Versions.MissingPartIsZero` | api/src/domain/updates.rs:167-178 | A part that is missing counts as zero |
| `Versions.BelowIsTransitive` | api/src/domain/updates.rs:167-178 | The order is transitive, with equal spellings interchangeable |
| `Versions.CompareSwaps` | api/src/domain/updates.rs:167-178 | The order is total and swapping the sides swaps the answer |
| `Versions.GreaterIsNotAtLeast` | api/src/domain/updates.rs:140-152 | On versions that parse, greater is exactly not at-least the other way; otherwise both answer no |
| `Versions.NeverReturns` | api/src/domain/updates.rs:140-145 | A chain of offered versions never returns to one before, under any spelling |
| `Releases.ChooseOffer` | api/src/routes/mod.rs:1039-1097 | The candidate loop picks the first candidate that no gate turns away, or none |
| `Releases.FirstPassing` | api/src/routes/mod.rs:1039-1097 | The choice passes every gate; without a choice nothing passes |
| `ReleaseOutcomes.OfferMeans` | api/src/routes/mod.rs:1015-1097 | What a check offers, in the rows: an active campaign of a published release open to the installation, newer than the client's version, which is at or above both minimums, another build, signed, and in a bucket the campaign reached |
| `ReleaseOutcomes.NothingIsPassedOver` | api/src/routes/mod.rs:1015-1097 | and conversely anything so open and suiting is offered, unless one that ranks before it is, or twenty open campaigns rank before it |
| `ReleaseStore.ReleaseRepository.Create` | api/src/repositories/admin.rs:1107-1201 | Answers the one release of this product, version and build, in the channel asked for |
| `ReleaseStore.ReleaseRepository.Register` | api/src/repositories/admin.rs:1262-1382 | Answers the one artifact in this slot, with this very content, in a release that is neither draft nor immutable |
| `ReleaseStore.ReleaseRepository.Validate` | api/src/repositories/admin.rs:1397-1449 | A validated release owns an artifact; no other row moves |
| `ReleaseStore.ReleaseRepository.Publish` | api/src/repositories/admin.rs:1451-1495 | Succeeds exactly for validated or published releases; a published one owns an artifact and keeps its first publication time; no other row moves |
| `ReleaseStore.ReleaseRepository.Block` | api/src/repositories/admin.rs:1497-1542 | No active campaign targets a blocked release and no lookup finds it |
| `ReleaseStore.ReleaseRepository.Quarantine` | api/src/repositories/admin.rs:2028-2081 | No lookup finds a quarantined artifact and no campaign of its release is active |
| `ReleaseStore.ReleaseRepository.NewCampaign` | api/src/repositories/admin.rs:1603-1700 | Answers the one campaign of this product and slug: a draft no lookup finds, or whatever it was before |
| `ReleaseStore.ReleaseRepository.Move` | api/src/repositories/admin.rs:1702-1763 | An active campaign targets a published release, a revoked one stays revoked, no other row moves |
| `ReleaseStore.ReleaseRepository.Rollout` | api/src/repositories/admin.rs:1822-1869 | Succeeds exactly for campaigns not revoked; a raise keeps every client it allowed; no other row moves |
| `ReleaseStore.ReleaseRepository.Check` | api/src/repositories/updates.rs:32-103 | The choice is the first passing row of the lookup, and an offer for a release that was published |
| `ReleaseStore.ReleaseRepository.Issue` | api/src/repositories/updates.rs:108-136 | The offer's one ticket, good for an hour, with the token it had; no other ticket moves |
| `ReleaseStore.ReleaseRepository.Receive` | api/src/repositories/updates.rs:251-317 | The event is stored once, on a live ticket of this installation, for a release that was published |
| `ReleaseOutcomes.CreateMeans` | api/src/repositories/admin.rs:1107-1201 | Creation is refused exactly for an unknown product or a build known in another channel; a new release is a draft with the minimums asked for |
| `ReleaseOutcomes.RegisterMeans` | api/src/repositories/admin.rs:1262-1382 | Each refusal of an artifact exactly in its case; the first artifact moves its release out of the draft |
| `ReleaseOutcomes.ValidateAndBlockMean` | api/src/repositories/admin.rs:1397-1542 | A release is validated exactly while open with an artifact that is not quarantined, or already there; blocked exactly unless retired |
| `ReleaseOutcomes.PublishMeans` | api/src/repositories/admin.rs:1451-1495 | Publication is now the first time, or again with the time it had; each refusal exactly in its case |
| `ReleaseOutcomes.QuarantineMeans` | api/src/repositories/admin.rs:2028-2081 | Quarantine and block pause exactly the active campaigns of the release |
| `ReleaseOutcomes.NewCampaignMeans` | api/src/repositories/admin.rs:1603-1700 | A campaign is created or found exactly for a release of its product neither blocked nor retired; a new one is a draft for nobody with the channel, ring and start asked for |
| `ReleaseOutcomes.MoveMeans` | api/src/repositories/admin.rs:1702-1763 | A campaign moves anywhere but out of revoked, and to active only while its release is published |
| `ReleaseOutcomes.TicketMeans` | api/src/repositories/updates.rs:108-136 | A ticket is good for an hour; its offer, issued again, extends it under the same token |
| `ReleaseOutcomes.ReceiveMeans` | api/src/repositories/updates.rs:251-317 | Each refusal of an event exactly in its case; else it is stored unless it was |
| `ReleaseStore.Serve` | api/src/repositories/admin.rs:1107-2081 | Any schedule of operations, checks and tickets through the stored tables ends where the reference says, sound, with the offers still pending |
| `ReleaseRuns.EveryRunIsSound` | api/src/repositories/admin.rs:1107-1869 | In every run active campaigns target published releases, validated and published releases own an artifact, keys are unique, and tickets and receipts are for releases that were published |
| `ReleaseRuns.RunsFollow` | api/src/repositories/admin.rs:1262-1542 | Blocked releases, revoked campaigns and quarantined artifacts stay so; published contents never change; tickets keep their tokens |
| `ReleaseRuns.LookupIsComplete` | api/src/repositories/updates.rs:32-84 | The lookup returns matching campaigns in order, emergency first, then newest; a matching one is left out only behind twenty that rank before it |
| `ReleaseRuns.LookupFailsClosed` | api/src/repositories/updates.rs:63-82 | No lookup offers a blocked release, an inactive campaign or a quarantined artifact |
| `ReleaseRuns.TicketAfterBlock` | api/src/repositories/updates.rs:113-136 | After a block a ticket for the release can still be written exactly when a lookup had chosen it and its ticket was not yet issued |
| `ReleaseRuns.TicketCanFollowBlock` | api/src/routes/mod.rs:1079-1085 | A run from empty tables in which that happens |
| `ReleaseRuns.RaisingKeepsOffers` | api/src/domain/updates.rs:122-138 | Raising a campaign's percentage never drops an installation |
| `ReleaseRuns.RolloutShare` | api/src/domain/updates.rs:105-138 | A rollout of p percent takes exactly p hundred of the ten thousand buckets |
| `ReleaseRuns.InstallsOnlyClimb` | api/src/routes/mod.rs:1050-1052 | A client that installs what it is offered is never offered a version it ran before |
| `Entitlements.Evaluate` | api/src/domain/entitlement.rs:75-113 | The nested loops and both gates compute the overlay specification |
| `Entitlements.Insert` | api/src/domain/entitlement.rs:87-90 | The inner loop lays one layer over the rest |
| `Entitlements.DenyCloud` | api/src/domain/entitlement.rs:93-107 | A gate loop sets every cloud key false and nothing else |
| `Entitlements.HighestLayerWins` | api/src/domain/entitlement.rs:75-113 | The highest layer defining a key wins, over exactly the union of keys; cloud keys are false when unsubscribed, suspended or revoked |
| `Entitlements.TighteningNeverGrants` | api/src/domain/entitlement.rs:92-107 | Tightening the flags never grants anything and never changes another key |
| `Entitlements.MergeGrants` | api/src/repositories/entitlements.rs:91-109 | The merging loop equals its specification for features and quotas |
| `Entitlements.LastGrantWins` | api/src/repositories/entitlements.rs:77-109 | The last row that gives a key wins; a key no row gives keeps its value |
| `Entitlements.CurrentSubscriptionMeans` | api/src/repositories/entitlements.rs:175-202 | A cloud-granting subscription is never hidden behind another, and canceled ones never count |
| `Entitlements.CurrentIsNewest` | api/src/repositories/entitlements.rs:175-202 | The current subscription is the one of its kind with the latest event, the later created of equals, and one without an event after all others |
| `Entitlements.GateMeans` | api/src/repositories/entitlements.rs:297-357 | The cloud gate and the revocation denial in terms of subscription and licence rows |
| `Entitlements.CloudNeedsSubscription` | api/src/repositories/entitlements.rs:253-357 | Whatever plans, grants, promotions, overrides and policy say, a cloud key is on only with an active or trialing subscription and no revocation denial |
| `Entitlements.FeatureComesFrom` | api/src/repositories/entitlements.rs:253-415 | From rows to result a feature is the last override, else the last promotion, else the last licence grant, else what policy and current plan give, else policy and included plan; a cloud key is false behind a shut gate |
| `Entitlements.QuotaComesFrom` | api/src/repositories/entitlements.rs:253-415 | A quota is the last override, else the last promotion, else what the plans give; licences grant none and no gate takes one away |
| `Entitlements.RowValue` | api/src/repositories/entitlements.rs:77-90 | A row's switch counts before its number, and that before its text |
| `Entitlements.CloudKeys` | api/src/domain/entitlement.rs:49-53 | The gated keys are those with one of the three endings |
| `Overrides.OverrideRepository.Set` | api/src/repositories/admin.rs:608-681 | After a set the new row is the key's only override, after a clear it has none; one row is cleared exactly when there was one |
| `Overrides.OverrideRepository.Drop` | api/src/repositories/privacy.rs:467-472 | The loop of a deletion switches off the overrides of the customer and keeps the rest |
| `Overrides.EveryRunHasOneActivePerKey` | api/src/repositories/admin.rs:633-681 | At most one active override per customer, product and key |
| `Overrides.NoOverrideIsHidden` | api/src/repositories/admin.rs:610-611 | Evaluation sees exactly one winner: a feature's override value is that of an active unexpired row and no such row is hidden |
| `Overrides.SetDecidesFeature` | api/src/repositories/admin.rs:633-675 | After a set the override layer holds the new value, after a clear nothing |
| `Overrides.SetDecidesQuota` | api/src/repositories/admin.rs:633-675 | A number set on a quota stands until it expires; once cleared, expired or set to anything else the quota is what it was without overrides |
| `Overrides.SetTouchesNothingElse` | api/src/repositories/admin.rs:633-675 | and every other active override stays |
| `Overrides.OverrideReachesEvaluation` | api/src/repositories/entitlements.rs:253-415 | An override is what evaluation answers, unless the key is a cloud one behind a shut gate |
| `Overrides.DeletionDropsOverrides` | api/src/repositories/privacy.rs:467-472 | Account deletion leaves no override to evaluate |
| `Redaction.Sanitize` | api/src/domain/redaction.rs:26-41 | The recursion with its insert loop equals its specification |
| `Redaction.SanitizedIsClean` | api/src/domain/redaction.rs:26-52 | No prohibited key is left at any depth |
| `Redaction.UnchangedIffClean` | api/src/domain/redaction.rs:26-52 | A payload is unchanged exactly when it held no prohibited key |
| `Redaction.SanitizeIsIdempotent` | api/src/domain/redaction.rs:26-41 | One pass is enough |
| `Redaction.SanitizeKeepsTheRest` | api/src/domain/redaction.rs:26-41 | Every path without a prohibited key leads to the redacted form of what it led to, every other one nowhere |
| `Outbox.DueIsOldestFirst` | api/src/workers/outbox.rs:35-42 | No due row is passed over for a newer one |
| `Outbox.TickMeans` | api/src/workers/outbox.rs:35-80 | A tried row ends delivered exactly when there is a sink and it accepts; otherwise the attempt counts, the twelfth is the last and the next one waits; a row not tried stays |
| `Outbox.SentMeans` | api/src/integrations/dataforge.rs:38-43 | A payload with a prohibited key is never sent |
| `Outbox.OutboxWorker.Write` | api/src/repositories/licensing.rs:996-1016 | A sanitized row, once per delivery key |
| `Outbox.OutboxWorker.Tick` | api/src/workers/outbox.rs:34-82 | The worker's loop over due rows equals its specification |
| `Outbox.Serve` | api/src/workers/outbox.rs:34-82 | Any writes and ticks through the stored rows end where the run says, clean, unique and paced |
| `Outbox.WaitDoublesToTheCap` | api/src/workers/outbox.rs:13-17 | The first wait is a second and each next one doubles until it stays at an hour |
| `Outbox.EveryRunIsPaced` | api/src/workers/outbox.rs:34-82 | In every run each row was tried as often as it says, waiting as scheduled; it is given up at the twelfth failure; stored payloads are clean |
| `Outbox.NeverRefusedAsProhibited` | api/src/integrations/dataforge.rs:38-43 | With a configured sink no stored row is refused as prohibited |
| `Outbox.GivenUpAfterAllWaits` | api/src/workers/outbox.rs:20-21 | At most twelve tries; a row given up failed twelve times, the last at least 4094 seconds after the first |
| `Outbox.FinalRowsNeverMove` | api/src/workers/outbox.rs:35-80 | In every continuation of a run delivered and given-up rows are never touched again, and a pending row keeps its event, key and payload |

## Left out

- Row-level isolation outside the usage ledger: every other transaction is one atomic step, except the update check, whose lookup and ticket are two. Some of these reads take no lock, so a resume racing a block is not covered.
- Binary floating point: amounts are exact reals, where the source casts numeric columns to float8.
- Unsigned overflow in the rate limiter near the end of 64-bit time, and its poisoned-lock path.
- SQL, connection pools, HTTP handlers, headers, response bodies, artifact URLs and field validators.
- Checkout sessions: a completed checkout appears as the Stripe link it leaves, not as an event with a receipt.
- The subscription and licence notices of the outbox: the usage ledger's are modelled, these are not.
- Billing portal, Stripe and DataForge clients, webhook JSON extraction and signature checks.
- Cryptography: HMAC rollout digests are an arbitrary function per installation, signature checks an answer that names the key used, key material a number.
- The blank-rollout-secret errors of the update check, which the route rules out before its lookup.
- Publishing commercial policies: device limits, plan catalogues and quota limits are step inputs.
- Quota-decision history, audit rows (except one per applied event and one per deletion transition) and correlation ids.
- Fleets, fleet holds and their policies: an update request carries what its fleet rows say.
- Customer suspension and restoration, product and customer listing, posture, heartbeats, snapshots.
- The `<meter>.used` entries that entitlement loading adds to the quota map, and reset cadences.
- `retired` releases: no operation sets the status; its branches are modelled and it is shown to be final.
- Foreign keys: the database rolls back a write on an unknown customer or plan version (`supabase/migrations/0003_commerce.sql:32-35`), where the model lets it through; for plan versions `WritesKnown` says what the key ensures, and `StepKeepsAgreement` what it would otherwise cost.
- Outbox.EveryRunIsPaced: one worker and no crash between a delivery and its update; a second worker could try a row twice at once.
- JwksCache.CustomerJwtValidator.Validate: key id lengths are counted in characters, which are bytes for the ASCII ids in use; a call canceled during its fetch counts as a failed one.
- Versions.ParseVersion: a version is a sequence of Unicode characters; byte encoding is not modelled.
