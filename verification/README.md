# Billing, wallets and scheduling of manager-key-pro

A Dafny model of the parts of manager-key-pro that move money and quota, with proofs of what
they keep over every run: the hold / settle / release billing machine, the wallet and its
ledger with all its callers, package purchases, referral rewards, the weighted round-robin
account picker, the requests-per-minute limiter and the login lockout.

## How the model is built

- `Billing` and `Wallets` say what each database function does to the tables, as functions from
  the tables before to the tables after. `Referral` and `Purchase` do the same for rewards and
  packages, and `Protocol` for one step of the running system: the three plugin hooks, recovery
  at boot, eleven admin and portal actions. `RunAll` is any sequence of such steps with any
  clock readings.
- `Database` and `Handlers` are the functions of the source in their own imperative form: one
  object holds the tables, each method changes them statement by statement, and each is proved
  to leave exactly the tables of its specification. `Scheduler.Picker`, `RateLimit.Bucket` and
  `Login.Account` do the same for the other stateful components.
- The theorems are about the specifications. `Outcomes` says what every kind of step leaves in the
  tables, in the terms of their rows and without the specification functions. `Accounting` and `Charging` hold the laws of single
  calls, on two quantities: the quota a key has *spent* (`QuotaBook`: used less open holds) and
  the credit a user has *available* (`Available`: balance plus open holds). `Safety`, `Runs`,
  `RequestCounting`, `Metered`, `Credit`, `FailedRequests`, `Conservation`, `Lifecycle`, `Floors`,
  `Windows`, `WindowRuns` and `Recharges` lift them to whole runs.
- Users, keys and reservations are keyed by id; the rows of the other tables are in insertion order. The
  schema's CHECK, UNIQUE, foreign key and cascade rules are written where a statement meets
  them; `Sound` collects those that a state must satisfy.
- The clock, request ids, random ids and prices are parameters. So is the row `Settle` selects:
  `ORDER BY created_at` leaves ties open, so the laws hold for every open row of the key, and
  `Settle` is shown to select an oldest one.
- References in the ledger are a datatype: those the program builds (`hold:`, `settle:`,
  `release:`, `usage_`, `order:`, `:ref`) are kept apart from a caller's own text.

## Where the code does not do what one would expect

Each is kept as the code has it, and proved with the exact condition. `Reachability` shows most of
them failing at states that a run from the empty database reaches.

- A hold replaces the row of the same request id. It conserves quota and credit exactly when the
  id names no open reservation with something on hold (`HoldConservesIff`). The program's comment
  at `internal/billing/charge.go:10-11` relies on one `intercept_before` per client request, which
  is what `Admissible` asks of a run.
- `Settle` selects by key and age, not by request id. A usage record is certain to settle its own
  reservation exactly when every other open one of the key is younger (`SettlesOwnIff`). The
  aggregate laws hold whichever is selected.
- A usage record need not tell what the wallet paid. A request held on the wallet is recorded at its
  full cost even when the wallet cannot pay the rest, or when the row that was settled is another
  request's; and another request may settle a wallet hold and be recorded as paid from quota.
  `RecordShowsDebitIff` gives the exact condition for whichever row is settled, and
  `OverlapMisleads` is a run that fails it.
- A record can be paid twice: when a settled quota hold is too small and the key cannot cover the rest,
  the hold stays consumed and an overflowing wallet pays the full cost as well. `PaidTwiceIff` says
  exactly when quota is taken and the wallet pays the full cost, `TokensPaidTwice` is an instance.
- A period reset sets `quota_used` to zero under open holds. A window then spends at most the
  quota plus those holds (`WindowSpendBounded`); every run stays within the quota exactly when
  nothing was on hold across the reset (`WindowWithinQuotaIff`), and a state in which something
  was is reachable from the empty database (`HoldAcrossResetReachable`).
- After a reset or a switch under an open hold its release may meet the non-negativity CHECK; the
  refund is then lost while the row still becomes released (`ReleaseRefundsIff`).
- An admin renewal may add a negative quota; keys stay within their quota exactly when the result
  covers what is used (`RenewalWithinQuotaIff`).
- Deleting a key cascades to its reservations, and wallet credit on hold is lost with them
  (`DeleteKeepsCreditIff`).
- Renewing a key that never expires with a dated package gives it an end
  (`RenewalExtends`, `UndatedKeyGetsDated`).
- A purchase that fails after the debit keeps the price. Debits and orders stay in step exactly
  when no purchase of a positive price does (`BuyConservesIff`, `OrdersMatchDebitsIff`); the comment at
  `internal/issue/issue.go:66-67` calls the sequence transaction-safe.
- After an RPM limit is lowered the `Retry-After` hint can be too short (`RetryAfterSound`,
  `LoweredLimitRetriesTooSoon`).

## Model

| member | source | states |
|---|---|---|
| RequestCounting.BilledCountAppend | internal/billing/charge.go:92-108 | a billed record adds one client request unless that request already has a billed record on the key |
| RequestCounting.ChargeCounted | internal/billing/charge.go:92-202 | a charge keeps used == open holds + billed client requests, whichever open hold of the key it closes |
| RequestCounting.ReleaseCounted | internal/billing/hold.go:164-198 | a release keeps that equation |
| RequestCounting.HoldCounted | internal/billing/hold.go:48-107 | a fresh hold keeps that equation, on this or any other key |
| Runs.RequestsCountedOnce | internal/billing/charge.go:92-108 | over every run of all fifteen steps, used on a lifetime request key without overflow is its open holds plus the distinct requests billed |
| Runs.NewKeyCounted | internal/store/keys_repo.go:121-158 | a newly created request key satisfies that equation |
| Metered.UsedIsHeldPlusUnits | internal/billing/hold.go:114-160 | on a key that does not overflow, over every run that stays in its window: used is the open holds plus, for each usage record, its units if the key could pay all beyond the settled hold and otherwise that hold, whichever rows were settled; every open hold stays covered, so no refund is rejected |
| Metered.NewKeyUsedIsHeldPlusUnits | internal/store/keys_repo.go:121-158 | the same from the issue of the key on, with nothing spent before |
| Metered.LifetimeIsMetered | internal/billing/period.go:32-34 | a lifetime key never leaves its window, so for it the law holds at any clock readings |
| Metered.StepQuotaOnly | internal/billing/hold.go:66-99 | every step keeps all open holds of such a key on its own quota, unless it deletes the key or opens it to overflow |
| Runs.UsedIsHeldPlusSpent | internal/billing/hold.go:114-160 | the law for every key, overflowing ones included: over every run within a window, used less open holds grows by what each charge takes of the key's quota |
| Runs.StepBook | internal/billing/charge.go:163-202 | one step of that law, for every step of the system |
| Runs.SpendIsUnitsOrHold | internal/billing/charge.go:87-201 | what a charge takes of the key's quota when it settles a quota hold: its micro-credit, its tokens, or one for a request not billed yet, if the key can pay all beyond the hold; otherwise the hold |
| Accounting.HoldLaw | internal/billing/hold.go:48-107 | a hold changes nobody's spend and nobody's available credit, except by a row of the same id that it displaces |
| Accounting.HoldTakes | internal/billing/hold.go:20-107 | what a hold takes and records: from the key the wanted amount or what is left, from the wallet of a spent key that may overflow the estimate, else nothing; the row shows exactly what was taken |
| Outcomes.InterceptOutcome | internal/plugin/hooks.go:204-206 | the same for the hook: nothing for an unknown key or no request id, and always on the key's owner |
| Accounting.HoldConservesIff | internal/billing/hold.go:101-106 | a placed hold conserves quota and credit of everybody if and only if its id names no open positive reservation |
| Accounting.CloseLaw | internal/billing/hold.go:125-158 | closing a reservation turns hold minus refund into spend, in the source the hold came from; a refund the CHECK turns down stays spent |
| Accounting.CloseSound | internal/store/schema.sql:96-101 | closing keeps the schema, the funding of open holds and every quota bound |
| Charging.SnapshotExact | internal/billing/charge.go:171 | when something is still owed after Settle, key and wallet are as they were, so testing the earlier snapshot is exact |
| Charging.ChargeLaw | internal/billing/charge.go:113-207 | one charge, for every key and every user at once: spend grows by what hold and key cover, available credit falls by what hold and wallet cover, nobody else is touched |
| Charging.ChargeSound | internal/billing/charge.go:52-207 | a charge keeps the schema, the funding of open holds and used <= amount on every key |
| Charging.ReleaseLaw | internal/billing/hold.go:164-198 | a release changes nobody's available credit, and no spend while no reset came in between |
| Outcomes.CompleteOutcome | internal/plugin/hooks.go:266-267 | a completion that succeeded changes nothing; any other closes the request's own positive open reservation, returns it to where it was taken from, and changes nothing else |
| Charging.ReleaseRefundsIff | internal/store/schema.sql:100 | a released quota hold comes back if and only if that much is still counted as used; otherwise the key gets nothing back |
| Charging.NothingRejected | internal/billing/hold.go:149 | while a key's spend is not negative, none of its refunds meets the non-negativity CHECK |
| Charging.ReleaseAllLaw | internal/billing/hold.go:218-220 | the same over the whole recovery loop, repeated or interleaved ids included |
| Charging.ReleaseStaleRows | internal/billing/hold.go:202-223 | a row is released exactly when open, positive and older than the cutoff; no older positive hold stays open and every other row is untouched |
| Outcomes.BootOutcome | internal/billing/hold.go:202-223 | at boot a reservation is released if and only if it is open, positive and older than the age given |
| Safety.QuotaNeverExceeded | internal/billing/charge.go:171 | used <= amount on every key over every run whose renewals cover what is used |
| Safety.RenewalWithinQuotaIff | internal/plugin/management.go:522-535 | an admin renewal keeps every key within its quota if and only if the new amount covers what is used |
| Safety.StepTables | internal/plugin/mgmt_extra.go:55-68 | every step keeps the schema, and every open hold stays funded by the key's present owner, since a transfer is refused while one is open |
| Safety.StepBooks | internal/store/users_repo.go:137-174 | every step keeps the books: ledger agreement, telegram ids once, no referral cycle, rewards booked, orders paid |
| Safety.EveryRunIsSafe | internal/store/users_repo.go:137-174 | all of that over every run |
| Safety.EmptyIsSafe | internal/store/schema.sql:14-34 | and it holds of the empty database |
| Wallets.MoveBalanced | internal/store/users_repo.go:137-174 | a movement keeps each balance the sum of its deltas and each balance_after the running sum |
| Wallets.LedgerAgrees | internal/store/users_repo.go:137-174 | the same over any interleaving of statements that write users or the ledger, and no telegram id is credited twice |
| Wallets.NeverBelowLowestFloor | internal/store/users_repo.go:148-154 | over any such interleaving a balance never falls below its start and the lowest floor ever in force |
| Wallets.ReplayChangesNothing | internal/store/schema.sql:147-148 | after a transaction was credited, any later statement with its id is refused as a duplicate and changes nothing |
| Wallets.CanSpendIsExact | internal/store/users_repo.go:57-62 | a debit is accepted exactly when CanSpend said so |
| Wallets.MoveOutcome | internal/store/users_repo.go:137-174 | every outcome of a movement: unknown user, a debit below zero or below minus a postpaid limit, a repeated transaction, or exactly one balance and one ledger row |
| Wallets.StoredIff | internal/store/helpers.go:24-29 | a reference is kept if and only if some character of it is not white space; any visible ASCII character keeps it, spaces, tabs and line ends alone do not |
| Floors.NobodyBelowLowestFloor | internal/plugin/mgmt_extra.go:165-189 | the floor over runs of the whole system, with wallet modes and limits changing on the way |
| Floors.ReplayLeavesEverything | internal/portal/portal_extra.go:424-427 | a transaction delivered again, by webhook or admin, to any user after any run, leaves every table as it is |
| Outcomes.VisibleCreditedOnce | internal/portal/portal_extra.go:424-427 | the same for every transaction id with a visible character, never delivered before: credited once, and once only |
| Outcomes.BlankCreditedAgain | internal/store/helpers.go:24-29 | an id of spaces, tabs and line ends is no reference: delivered twice it is credited twice |
| Outcomes.WebhookOutcome | internal/portal/portal_extra.go:404-429 | a webhook recharge is credited if and only if it is positive, for a known user and no repetition, with exactly this ledger row; otherwise nothing changes |
| Credit.StepAvailable | internal/billing/hold.go:80-96 | one step: available credit falls by what a record costs and is otherwise unchanged |
| Credit.AvailableFallsByCost | internal/billing/hold.go:134-145 | over every run of hooks and recovery, balance plus open holds falls by the cost of the usage records and by nothing else |
| Conservation.CreditConserved | internal/store/users_repo.go:137-174 | over every run of the whole system available credit grows by the recharges, rewards, purchases and adjustments in the ledger and falls by usage and by holds lost with a deleted key |
| Conservation.StepWrites | internal/store/users_repo.go:157-160 | every step appends ledger rows of its own kind only, in reference, reason, channel and direction, and changes none |
| Credit.FailedRequestIsFree | internal/plugin/hooks.go:266-267 | hold, any number of attempts without tokens, and a completion that did not succeed restore every key and every balance |
| FailedRequests.FailedRequestIsFreeAmid | internal/plugin/hooks.go:266-267 | the same with any run of the system in between that leaves the key, its owner and its open reservations alone; and nobody else's row is touched by the completion |
| FailedRequests.OthersLeaveAlone | internal/plugin/hooks.go:204-276 | the hooks of other owners' keys, and records without tokens, do leave them alone |
| Credit.SerialWalletRequest | internal/billing/charge.go:119-156 | a serial request held on the wallet, from hold to charge: its own row is settled, the owner's balance falls by its cost if the wallet covered that and otherwise by the hold, and the key's quota stays as the period refresh left it |
| Credit.RecordShowsDebitIff | internal/billing/charge.go:113-206 | whichever row is settled: the record shows the full cost or nothing, and tells what the wallet paid if and only if a wallet-held request settles a wallet hold that covers it or leaves a wallet that can pay the rest (or an empty hold and a wallet that can pay it all), and any other request takes nothing from a settled wallet hold |
| Outcomes.UsageOutcome | internal/billing/charge.go:54-206 | the row every usage event appends: none for an unknown key; without tokens an unbilled one of no cost and no source, and no other change; otherwise the payer, billed if there is one, at full cost or none |
| Credit.PaidTwiceIff | internal/billing/charge.go:163-202 | a record takes quota for good and costs the wallet its full cost as well if and only if it settles a quota hold that is too small while too little quota is left and the wallet takes the overflow, or another request's wallet hold of just the cost while the key pays the rest |
| Reachability.OverlapMisleads | internal/billing/charge.go:119-156 | a run from the empty database to two overlapping requests, where the record of one shows a cost the wallet did not pay |
| Reachability.TokensPaidTwice | internal/billing/charge.go:177-195 | a reachable charge of five tokens that keeps two tokens of quota and takes the cost of all five from the wallet |
| Reachability.OverlapSettlesAnother | internal/billing/hold.go:117-120 | in that run a charge of the second request may settle the first one's reservation |
| Reachability.DeletionLosesCredit | internal/store/schema.sql:168-180 | in that run deleting the key loses credit on hold |
| Reachability.SwitchLosesRefund | internal/plugin/management.go:576-578 | a reachable release after a quota switch that gives nothing back |
| Reachability.RenewalOverQuota | internal/plugin/management.go:522-535 | a reachable renewal that leaves a key over its quota |
| Reachability.HoldAgainLosesHold | internal/billing/hold.go:101-106 | a reachable second hold of an open request id that loses the first one's hold |
| Reachability.PurchaseLosesPrice | internal/issue/issue.go:87-142 | a reachable purchase that keeps the price and leaves neither key nor order |
| Reachability.ReachableIsSafe | internal/store/users_repo.go:137-174 | every reachable state satisfies the schema, the funding of open holds and the books |
| Credit.SettlesOwnIff | internal/billing/hold.go:117-120 | a record surely settles its own reservation if and only if every other open one of the key is younger |
| Credit.DeleteKeepsCreditIff | internal/store/schema.sql:168-180 | deleting a key keeps everybody's available credit if and only if no wallet credit is on hold for it, or an order names it |
| Outcomes.DeleteOutcome | internal/plugin/management.go:493-502 | a deletion removes the key and exactly its reservations, unless an order names the key |
| Lifecycle.FinalisedAtMostOnce | internal/billing/hold.go:155-195 | over every run a reservation is finalised at most once, and its ledger rows add up to minus the hold while open, nothing once released, between minus the hold and nothing once settled |
| Lifecycle.EveryReservationAccounted | internal/billing/hold.go:155-195 | the same from the empty database, with nothing assumed of the state: the ledger rows of every reservation fit its status at every moment |
| Lifecycle.StepFlows | internal/billing/hold.go:134-145 | every step keeps the ledger rows of every reservation fitting its status |
| Lifecycle.StepSurvives | internal/billing/hold.go:117-120 | no step but a deletion of its key drops a reservation or reopens a closed one |
| Windows.WindowAfterEnsure | internal/billing/period.go:10-51 | afterwards now is inside the window; a reset opens one of exactly the configured length, not before the last one ended, with nothing used |
| WindowRuns.RunWindowsInTurn | internal/billing/period.go:41-49 | over every run of the system, scope switches included, each window a key is given has the length set for it then and starts no earlier than the previous one ended |
| WindowRuns.StepWindow | internal/billing/period.go:31-51 | no step changes a key's window except by opening one now when the period is due |
| Windows.ResetThenStep | internal/billing/hold.go:56-58 | a hook that finds a period due does what it would do right after the reset, so a window's run starts at the reset |
| Windows.WindowSpendBounded | internal/store/keys_repo.go:219-227 | the quota spent in a window is at most the quota plus the holds carried into it; at most the quota if none was |
| WindowRuns.WindowWithinQuotaIff | internal/store/keys_repo.go:219-227 | after a reset a metered key's spend stays within its quota in every run if and only if none of its quota was on hold across the reset |
| WindowRuns.HoldAcrossResetReachable | internal/store/keys_repo.go:219-227 | a run from the empty database to a reset with quota on hold, after which a window overspends |
| Purchase.BuyConserves | internal/issue/issue.go:69-147 | a purchase that is debited and then fails leaves its price without an order; any other keeps debits and orders in step, for every user |
| Purchase.BuyConservesIff | internal/issue/issue.go:87-146 | debits and orders stay in step if and only if the purchase is not debited, is free, or no later step fails |
| Conservation.OrdersMatchDebitsIff | internal/issue/issue.go:87-146 | over every run from the empty database a user's purchase debits equal his orders if and only if none of his purchases failed after debiting a price |
| Conservation.DebitsAreOrdersPlusLost | internal/issue/issue.go:69-147 | over every run debits exceed orders by exactly what failed purchases debited |
| Purchase.BuyOutcome | internal/issue/issue.go:69-91 | it succeeds exactly when nothing objects, the wallet covers the price and no later step fails; a refusal changes nothing; the key is the buyer's |
| Purchase.BuyRefusals | internal/issue/issue.go:70-85 | which refusal is given exactly when, and that none changes anything |
| Purchase.FaultsLeave | internal/issue/issue.go:87-146 | a fault in the key step leaves only the debit, one in the order step all but the order |
| Purchase.NewKeyAsSold | internal/issue/issue.go:87-146 | a bought key has the package's quota unused, windows of the package's hours, its owner and its expiry; only that key and the buyer's balance change |
| Purchase.RenewalExtends | internal/issue/issue.go:108-128 | a renewal debits the price, adds the package quota, keeps what was used and expires the package's days after the old expiry or now, whichever is later, or never; it never shortens the key's life if and only if the key is dated or the package has no time limit; its order names that key |
| Purchase.UndatedKeyGetsDated | internal/issue/issue.go:93-115 | a key that never expires is given an end |
| Referral.PayeesAreAncestors | internal/referral/referral.go:36-50 | on any graph, cycles included: the walk visits consecutive ancestors, nobody twice, and stops early only at the chain's end or at someone seen |
| Referral.PercentPayeesAre | internal/referral/referral.go:31-51 | the payee of tier i is the i-th ancestor, all distinct, never the recharger |
| Referral.PercentWalkGrants | internal/referral/referral.go:31-51 | the walk, reading the table it is changing, grants one reward per payee computed from the graph at the start |
| Referral.PercentRechargePays | internal/referral/referral.go:31-51 | each payee's balance grows by its tier's share rounded down, nobody else's changes, and the total stays within the positive percentages of the amount |
| Referral.RewardsBounded | internal/referral/referral.go:44 | all tiers together never pay more than the positive percentages of the amount, rounded down |
| Referral.SharePerUpline | internal/referral/referral.go:43-48 | each visited upline earns its own tier's share and nobody else anything |
| Recharges.FixedRewardIff | internal/referral/referral.go:56-92 | after any run: a recharge earns the upline the fixed reward if and only if it is positive, no fixed earning of this upline from this user exists, and the user's own accepted recharges, this one included, reach the threshold; then one earning of the fixed amount, credited |
| Recharges.TotalIsRecharges | internal/referral/referral.go:57-62 | the total that is compared is the sum of the user's accepted recharges over the run, by admins and webhook, and of nothing else |
| Recharges.StepTotal | internal/referral/referral.go:57-62 | an accepted recharge raises the recharged user's total by its amount; no other step changes any total |
| Recharges.PercentRewards | internal/referral/referral.go:31-51 | after any run: the earnings of a percent recharge are exactly the nearest ancestors' tier percentages, rounded down, with tier and base; other reasons, or no mode, earn nobody anything |
| Referral.FixedPaidIff | internal/referral/referral.go:56-92 | the same at any state, with the total read from the ledger |
| Referral.GrantBooked | internal/referral/referral.go:74-92 | a grant keeps each user's bonus credits equal to his earnings, and fixed rewards unique per pair |
| Referral.SignUpAcyclic | internal/portal/portal_extra.go:440-451 | a sign-up keeps the graph of uplines acyclic |
| Outcomes.NewUserOutcome | internal/portal/portal_extra.go:440-451 | a sign-up adds an empty prepaid account whose upline is the existing user the code names, unless id or code is taken |
| Referral.GuardedWalkIsPlainWalk | internal/referral/referral.go:39-41 | on an acyclic graph the guarded walk is the first n uplines: the cycle guard never fires |
| Scheduler.CollectEligible | internal/scheduler/scheduler.go:167-188 | the loops compute the list that EligibleIs describes |
| Scheduler.EligibleIs | internal/scheduler/scheduler.go:167-188 | the list is exactly the candidates that some enabled binding matches, in the order offered, each with the share of the first such binding, or one if that is not positive |
| Scheduler.Picker.HandlePick | internal/scheduler/scheduler.go:153-218 | each outcome of a pick, the cursor that moves, and that the account chosen is the one on whose stretch the cursor lands; the fall-through is unreachable; so a run of picks is a run of the calls that FairAnswers is about |
| Scheduler.LandsOnce | internal/scheduler/scheduler.go:209-216 | no cursor lands on two accounts |
| Scheduler.FullRound | internal/scheduler/scheduler.go:204-217 | any T consecutive picks, from any cursor, choose account i exactly share times, where T is the total of the shares |
| Scheduler.FairShare | internal/scheduler/scheduler.go:204-217 | any n picks choose it between floor(n/T) and ceil(n/T) times its share |
| Scheduler.FairOverRuns | internal/scheduler/scheduler.go:198-217 | the same over any run with picks of other keys in between |
| Scheduler.FairAnswers | internal/scheduler/scheduler.go:153-218 | fairness of the responses themselves: over any run of calls of any keys, n calls of a key with unchanged eligible accounts are answered with an account between floor(n/T) and ceil(n/T) times its share |
| Scheduler.FairBindings | internal/scheduler/scheduler.go:153-218 | the same in the bindings' own shares: the candidate gets between floor(n/T) and ceil(n/T) times the share of its first admitting binding, where T is the sum of these shares |
| Scheduler.KeysAreIndependent | internal/scheduler/scheduler.go:200-201 | a key's choices depend on its own picks only |
| RateLimit.Bucket.Prune | internal/policy/policy.go:122-128 | compaction in place yields the order-preserving filter of the list |
| RateLimit.Bucket.CheckRPM | internal/policy/policy.go:114-142 | the decision, hint and list that the specification gives for the earlier list |
| RateLimit.PrunedIsRecent | internal/policy/policy.go:122-141 | the pruned list is the recent part of all admissions ever made |
| RateLimit.PrunedSorted | internal/policy/policy.go:122-141 | and it is in order |
| RateLimit.AdmitsIff | internal/policy/policy.go:129-141 | a call is admitted if and only if fewer than its limit of all admissions lie in the closed minute up to now |
| RateLimit.NoMinuteExceedsLimit | internal/policy/policy.go:112-113 | no closed minute, wherever it starts, holds more admissions than the limit |
| RateLimit.RetryAfterRange | internal/policy/policy.go:131-134 | the hint is between 1 and 61 seconds |
| RateLimit.RetryAfterSound | internal/policy/policy.go:130-138 | waiting the hint suffices when exactly the limit is in the window; in general if and only if the limit-th latest admission has left by then |
| RateLimit.RetryAfterLeast | internal/policy/policy.go:130-138 | the hint is no longer than needed: a second earlier the call would still be refused |
| RateLimit.LoweredLimitRetriesTooSoon | internal/policy/policy.go:130-138 | a limit lowered below what is in the window makes the hint too short |
| Login.Account.RecordFailedLogin | internal/store/users_repo.go:198-221 | the counter and lock it leaves, and the lock it reports |
| Login.Account.HandleLogin | internal/portal/server.go:197-217 | the outcome and the lock state of one attempt |
| Login.AttemptOutcome | internal/portal/server.go:197-217 | every outcome of a password attempt and of a telegram login, and what it leaves of counter and lock |
| Login.CounterInRange | internal/store/users_repo.go:207-211 | over every run the counter stays in [0, lockAfter - 1] |
| Login.LockoutBound | internal/portal/server.go:197-211 | in any half-open window of length lockFor without a successful login at most lockAfter wrong passwords are evaluated |
| Login.LocksAtLimit | internal/store/users_repo.go:207-211 | the bound is met: as many wrong passwords as are left lock the account for lockFor |
| Database.DB.AdjustBalance | internal/store/users_repo.go:137-174 | balance and ledger row together or nothing, with the error reported; refines the movement of Wallets |
| Database.DB.ConsumeQuota | internal/store/keys_repo.go:207-215 | quota_used moves by the delta unless the CHECK turns it down |
| Database.DB.EnsurePeriod | internal/billing/period.go:31-51 | resets a due period, and the in-memory key equals the row |
| Database.DB.Hold | internal/billing/hold.go:48-107 | leaves the tables on which HoldLaw is proved |
| Database.DB.QueryOldestOpen | internal/billing/hold.go:117-120 | the row selected is an oldest open one of the key, or there is none |
| Database.DB.Settle | internal/billing/hold.go:114-160 | settles an oldest open row and reports the extra, or changes nothing and reports the whole spend |
| Database.DB.Release | internal/billing/hold.go:164-198 | leaves the tables on which ReleaseLaw is proved |
| Database.DB.ReleaseStale | internal/billing/hold.go:202-223 | leaves the tables on which ReleaseStaleRows is proved |
| Database.DB.Charge | internal/billing/charge.go:52-207 | leaves the tables on which ChargeLaw is proved, with an oldest open row settled, and returns the cost its record shows |
| Handlers.GrantReward | internal/referral/referral.go:74-92 | refines the grant of Referral |
| Handlers.PayPercent | internal/referral/referral.go:31-51 | the loop over tiers refines the walk of Referral |
| Handlers.PayReferrals | internal/referral/referral.go:14-28 | refines the recharge of Referral in all three modes |
| Handlers.BuyPackageFor | internal/issue/issue.go:69-147 | refines the purchase on which BuyConserves is proved, result included |
| Handlers.HandleInterceptBefore | internal/plugin/hooks.go:204-206 | the hook is the protocol's intercept step |
| Handlers.HandleUsage | internal/plugin/hooks.go:232-250 | the hook is an admissible usage step: the row it settles is an oldest open one |
| Handlers.HandleComplete | internal/plugin/hooks.go:252-276 | the hook is the protocol's completion step |
| Handlers.RechargeByAdmin | internal/plugin/management.go:718-753 | is the protocol's recharge step, rewards included |
| Handlers.WriteColumns | internal/plugin/mgmt_extra.go:165-189 | the loop over changed columns writes mode and limit, in whatever order the map yields them |
| Handlers.UpdateUser | internal/plugin/mgmt_extra.go:151-192 | is the protocol's wallet settings step |
| Outcomes.SetWalletOutcome | internal/plugin/mgmt_extra.go:165-189 | the settings that are given are set, and nothing else |
| Handlers.TransferKey | internal/plugin/mgmt_extra.go:55-68 | is the protocol's transfer step, refused while a reservation of the key is open |
| Outcomes.TransferOutcome | internal/plugin/mgmt_extra.go:55-68 | the owner changes, and nothing else, if and only if key and target exist and no reservation of the key is open |
| Handlers.RenewKeyByAdmin | internal/plugin/management.go:510-544 | is the protocol's renewal step |
| Outcomes.RenewKeyOutcome | internal/plugin/management.go:522-535 | the quota, status and date an admin renewal leaves, and that a negative quota is refused |
| Handlers.SwitchKeyQuota | internal/plugin/management.go:547-589 | is the protocol's switch step, which zeroes what was used |
| Outcomes.SwitchOutcome | internal/plugin/management.go:560-580 | a switch takes over what is given, keeps the rest, and counts nothing as used |
| Handlers.SignUpWithTelegram | internal/portal/portal_extra.go:48-66 | is the protocol's sign-up step: account first, then an upline that already exists |
| Handlers.HandleWebhookRecharge | internal/portal/portal_extra.go:404-429 | is the protocol's webhook step, and a replay is reported as a duplicate |

## Left out

- Concurrency inside a step: each hook and each handler is one atomic step, as the quota equations need; the wallet laws of `Wallets` hold for any interleaving of single statements. Sign-up (create, then attach) and login (read, then count) are one step each too.
- Database failures other than those of a purchase after its debit, and rollback beyond `AdjustBalance`.
- Prices: `ComputeCost`, `LoadPrice` and the credit branch of `HoldAmount` are floating point over settings; `priced` is any integer and `estimate` any non-negative one.
- 64-bit and 32-bit overflow: integers are unbounded, and TotalTokens is not negative.
- RateLimit.Bucket.CheckRPM: one bucket of one key; the map from keys to buckets and the mutex are not modelled.
- Login.Account.HandleLogin: one account; looking the user up by name and the session are not modelled.
- Scheduler.Picker.HandlePick: the cursor is unbounded and the key lookup by hash is a parameter; `candidateMatches` is an arbitrary predicate.
- Runs.RequestsCountedOnce: asks that a usage record of the key is for a request held on it, and that the key is not deleted, switched or opened to overflow on the way.
- Metered.UsedIsHeldPlusUnits: asks the same, and that no period reset of the key falls into the run; what a reset under a hold does is `WindowWithinQuotaIff` and `ReleaseRefundsIff`.
- Scheduler.FairAnswers: asks that the key's eligible accounts have different ids.
- Handlers.TransferKey: the other columns of a key update (name, models, providers, addresses, RPM, log mode) are not modelled; the overflow switch is a step of its own.
- Handlers.UpdateUser: username, role and status are not modelled, nor are invalid enum values that a CHECK turns down.
- Handlers.SignUpWithTelegram: the telegram id and the retry under another username are not modelled; the referral code arrives as the user it names.
- Handlers.HandleInterceptBefore: the checks before the hold (key status, user status, allowlists, quota, RPM) only decide whether the step happens; the step here may happen at any time.
- Key columns that decide no amount (name, hash, cipher, models, package) and the key_quota_history table.
- Binding rewrites (`SetBindings`), settings storage, logs, backup, sessions, HTTP, JSON and the C interface: plumbing that would add easy members only.
- AES-GCM, SHA-256, argon2, random ids and the Telegram signature: library cryptography; ids are fresh by assumption.
