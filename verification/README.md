# Nature-backed bond protocol: a verified model

This project models the Soroban contracts of a nature-backed bond protocol and the base58 codecs its
services use to name evidence, and proves what they promise for every input and over every run.

* **BondIssuer** keeps the supply ledger: subscriptions, transfers, redemptions, holder lists.
* **CouponEngine** turns a verified oracle report into credits, splits them pro rata over holders in
  resumable batches with two floor divisions, and lets credits be claimed, swept or deducted.
* **CreditRetirement** deducts credits from the engine and records certificates with a vintage year.
* **DEXRouter** is an escrowed order book that settles against BondIssuer and quotes market-sized fills.
* **Governance** is an M-of-N vote with a timelock, an expiry and a self-modifying execution allowlist, with
  entries in two storage tiers.
* **ProjectRegistry** keeps one active project per metadata hash and a timelocked admin role.
* **base58btc** encoder and decoder, CIDv0 names of SHA-256 digests, and the 32-byte argument decoder.

## How the model is built

Each contract has a `Storage` datatype holding its ledger entries (keys that carry a bond id are grouped per
bond) and one *transition* function per entry point, which returns the new storage and result or the
contract's error. The `…Contract` modules hold the contract objects: classes whose methods update storage
step by step, with the loops the contracts have, and whose `ensures` say that the call *settles* as its
transition says (`Host.Settles`): on success the new storage is committed, on any error every write is undone.
Invariants, run theorems and refinements are then proved about the transitions. The `…Rules` modules say of each
call, in plain reads of the ledger, exactly when it is accepted and exactly what it leaves, and trace what the
ledgers hold back to the calls that put it there.

| module | subject |
|---|---|
| `Host`, `Shared` | machine integers, atomic calls, nonces, sums over storage maps; shared types |
| `Issuer`, `IssuerRules`, `IssuerContract` | the supply ledger, its calls one by one, its contract object |
| `Coupon`, `CouponBatches`, `CouponPeriods`, `CouponLedger`, `CouponRules`, `CouponContract` | the coupon engine: one batch, whole periods, the books over time, its other calls, the contract object |
| `Retirement`, `Calendar`, `RetirementContract` | the retirement ledger, the vintage year, the contract object |
| `Protocol`, `Interleaving`, `Completeness`, `Rounding`, `Certificates` | issuer, engine and retirement running together: conservation, periods interleaved with other calls, completeness of the holder list, rounding, certificates |
| `Dex`, `Quote`, `Market`, `MarketQuote`, `DexRules`, `DexContract` | the order book, the quote, runs of exchange and issuer together, its calls one by one, the contract object |
| `Governance`, `GovernanceRuns`, `GovernanceRules`, `GovernanceContract` | proposals and the two storage tiers, safety over runs, calls and histories, the contract object |
| `Registry`, `RegistryRules`, `RegistryContract` | the project registry |
| `Radix`, `Base58`, `ContentId` | change of base, the two codecs, CIDv0 names |

Modelling choices:

* Integers are unbounded and every checked operation tests its i128, u64 or u32 range explicitly. An overflow of
  an unchecked `+` or `*` is the error `Trap`, which undoes the call; the workspace manifest sets no
  overflow-check profile, so a release build could wrap there instead.
* `Trap` also stands for a nested call that panics, such as reading an unknown bond or report.
* `require_auth` is taken as "the caller is who it says". Nobody can sign for the governance contract itself, so
  a governance call that names that address as caller has no effect.
* Ledger time is an argument of each call. No theorem needs it to be monotone, except where it says so.
* The oracle is a map from report ids to reports with non-negative figures, which
  contracts/oracle-consumer/src/lib.rs:384-391 enforces when a report is submitted. The map is an argument of
  each call, so a report's status may change between calls.
* Two places where the code and its comments differ; the model follows the code. The comment on `suspend_project`
  (contracts/project-registry/src/lib.rs:217-218) speaks of reinstating a project, but no call does, and
  `Registry.RunEvolves` proves that a suspended project never changes again. `ProposalStatus::Expired` is
  described as the terminal state of a stale proposal (contracts/governance/src/lib.rs:719-723), but it is
  never stored, as `GovernanceRuns.RunKeepsInv` states.

The straight-line methods of the contract objects that only commit their transition are not in the table below:
`CouponContract.CouponEngine.RegisterBond`, `CouponContract.CouponEngine.RegisterDeductCaller`,
`CouponContract.CouponEngine.ClaimCredits`, `CouponContract.CouponEngine.SweepUndistributed`,
`CouponContract.CouponEngine.DeductCredits`, `DexContract.DEXRouter.ListBondTokens`,
`DexContract.DEXRouter.CancelListing`, `DexContract.DEXRouter.DepositQuote`,
`DexContract.DEXRouter.WithdrawQuote`.

Some facts the proofs bring out:

* `HolderList` may name an address twice; completeness of a period is proved with the duplicates in place.
* The base58 round trips hold exactly when the input has a non-zero byte (a character other than `1`): an
  all-zero input gains one digit on each trip.
* A queued governance proposal whose timelock ends at or after its expiry can never be executed, and it can no
  longer be cancelled (`GovernanceRuns.StuckForGood`). A deployment whose timelock is at least the proposals' life
  of 2592000 seconds never executes anything (`GovernanceRuns.LongTimelocksNeverExecute`).
* Nothing ties one report to one period: the period index is the caller's, so the same report can fund several
  periods of a bond. Conservation and rounding are stated per period, whatever report it uses.
* `get_best_price` compares and adds prices without looking at `quote_asset`: over orders in different assets the
  optimum of `MarketQuote.BestPriceIsOptimal` is over mixed units.

## Model

| member | source | states |
|---|---|---|
| `Protocol.EveryRunConserves` | contracts/coupon-engine/src/lib.rs:513-618 | In every state reachable by any interleaving of issuer, distribute, claim, sweep, deduct and retire calls, per bond: accrued + dust pool + claimed + deducted = credits of settled periods (earned + undistributed) + credits handed out in open ones; combined accrual = carbon + biodiversity for every holder, the off-type side is zero on single-type bonds, and the dust pool equals its two per-type pools |
| `Protocol.NeverOutOfStep` | contracts/coupon-engine/src/lib.rs:719-773 | In every reachable state a claim succeeds exactly when its nonce is right, and a sweep never returns AccountingMismatch |
| `Protocol.RetirementsAccountForDeductions` | contracts/credit-retirement/src/lib.rs:296-391 | With the retirement contract as sole deduct caller, over every run: credits a holder received on a bond = accrued + claimed + RetiredPerBond, which is the sum of the holder's own records, and the index list is the ordered filter of the record table |
| `Protocol.StepKeepsInv` | contracts/coupon-engine/src/lib.rs:234-640 | Every call of the three contracts keeps the supply, book and retirement invariants together |
| `Completeness.HolderListCompletesAPeriod` | contracts/coupon-engine/src/lib.rs:289-316 | After a period was opened in any state meeting the invariant, and after any further calls of the three contracts, issuer calls included: a batch of pairs true to the balances at the opening never ends in AccountingMismatch unless it is final and a holder is still missing; while the period is open the batch is accepted if and only if it is authorised, names the same report, leaves nobody out if final, and stays within the machine limits |
| `Completeness.EveryRunCompletesPeriods` | contracts/coupon-engine/src/lib.rs:531-534 | From deployment, with any calls before the opening and any calls between the batches: none of the qualifying batches ends in AccountingMismatch, and once the period is settled every address has gained, from the period's calls, exactly its pro-rata share of the opening report for its balance at the opening |
| `Completeness.PairsCoverBalances` | contracts/bond-issuer/src/lib.rs:49-59 | First positive balances over the holder list, repeats ignored, are exactly the positive balances, and they add up to total_subscribed |
| `Completeness.HolderListCutSettles` | contracts/coupon-engine/src/lib.rs:409-426 | When the calls for a period carry, in order, a cut of the issuer's HolderList with balances, duplicates included, with any other calls between them, the final one never ends in AccountingMismatch and, while the period is open, settles it if and only if it is authorised, names the same report and stays within the machine limits |
| `Completeness.FirstBatchOfTruePairs` | contracts/coupon-engine/src/lib.rs:318-401 | The same exact condition for the batch that opens the period |
| `Completeness.SettledInFull` | contracts/coupon-engine/src/lib.rs:531-564 | Once settled, whatever came between: the processed tokens are the subscribed total of the snapshot, and every address gained exactly once, in plain arithmetic, floor(floor(T·10000000 / S) · balance / 10000000) of the carbon and of the biodiversity credits the report is worth |
| `Completeness.BatchIff` | contracts/coupon-engine/src/lib.rs:234-640 | In every state meeting the invariant: exactly when a distribute call is accepted, and that a batch bringing no more tokens than are left (all of them if final) never ends in AccountingMismatch |
| `Completeness.BatchLeaves` | contracts/coupon-engine/src/lib.rs:629-646 | An accepted batch returns where the period now stands, uses the admin's nonce and touches no other bond |
| `Completeness.TruePairsPay` | contracts/bond-issuer/src/lib.rs:271-293 | True pairs, in any order and with repeats, pay at most the subscribed total, and exactly it if and only if no holder is missing |
| `Interleaving.PeriodUnderway` | contracts/coupon-engine/src/lib.rs:289-529 | From its first accepted batch on, whatever other calls come between, a period's batch state, snapshot, flags and record are determined by the map from holder to first positive balance over its accepted batches, and its calls raised each accrued balance by exactly what is due for that map |
| `Interleaving.EveryPeriodIsAccountedFor` | contracts/coupon-engine/src/lib.rs:289-618 | The same for every open or settled period of every reachable state, with the totals it was opened with computed from its report |
| `Interleaving.OtherCalls` | contracts/coupon-engine/src/lib.rs:694-810 | Every call that is not a batch of the period leaves its batch state, snapshot, flags and record alone |
| `CouponPeriods.AnyBatching` | contracts/coupon-engine/src/lib.rs:289-401 | Any cut of the holders into batches, fed back to back, settles a fresh period if and only if the whole list affords it, and leaves exactly the ledgers, pools and PeriodInfo that the map from holder to first positive balance determines |
| `CouponPeriods.BatchingIsIrrelevant` | contracts/coupon-engine/src/lib.rs:409-511 | Two ways of feeding a period that agree on each holder's first positive balance succeed together and end with the same result and the same readings |
| `CouponPeriods.FreshIsTheSetOfPairs` | contracts/coupon-engine/src/lib.rs:409-421 | When each holder is listed with one balance, what is paid depends only on the set of positive pairs, not on order or repetition |
| `CouponPeriods.RunBatchEffect` | contracts/coupon-engine/src/lib.rs:404-529 | One batch, fresh or resumed: exactly when it succeeds and exactly what it leaves |
| `CouponPeriods.RunBatchNoMismatch` | contracts/coupon-engine/src/lib.rs:425-427 | A batch within the tokens left, and complete if final, never returns AccountingMismatch |
| `CouponPeriods.DustIsNonNegative` | contracts/coupon-engine/src/lib.rs:549-564 | Credits never run ahead of the totals; dust is non-negative per type and adds up |
| `CouponPeriods.OpenBatchIsOk` | contracts/coupon-engine/src/lib.rs:318-399 | A report with non-negative figures opens a period with what the report is worth per type, at rates that never hand out more than those totals |
| `CouponPeriods.TotalsAreWorth` | contracts/coupon-engine/src/lib.rs:1122-1132 | The totals of a period from its report in plain arithmetic: carbon / 1000 on Carbon, BlueCarbon and Basket, (1000000·habitat + 100000·species + 1000000·units) / 1000000 on Biodiversity and Basket, capped only where the sum leaves i128; a report without metrics is refused exactly on those two types |
| `CouponPeriods.OpeningRule` | contracts/coupon-engine/src/lib.rs:318-399 | A period opens exactly with a known, verified report on the bond's project, the metrics its type needs, and totals whose fixed-point product fits; and the totals, report and snapshot it opens with |
| `Interleaving.OpenedWorth` | contracts/coupon-engine/src/lib.rs:318-401 | In every state meeting the invariant, the batch that opens a period opens it with what its report is worth to the issuer's own type of the bond, against the issuer's subscribed total |
| `CouponBatches.PayAllEffect` | contracts/coupon-engine/src/lib.rs:409-511 | A successful batch pays exactly its fresh holders, each once, for its first positive balance, and its accumulators are the sums of what they were due |
| `CouponBatches.PayAllSucceeds` | contracts/coupon-engine/src/lib.rs:421-447 | A batch succeeds if and only if its fresh holders do not exceed the tokens left and every balance has room; within the tokens left it fails only with Overflow, beyond them only with Overflow or AccountingMismatch, and never with a trap |
| `CouponBatches.TotalsWithinRounding` | contracts/coupon-engine/src/lib.rs:468-470 | Over any set of holders each share loses less than one credit, from both sides |
| `CouponBatches.TwoStageFloor` | contracts/coupon-engine/src/lib.rs:363-377 | Two floor divisions: paid never exceeds the total T, and FP·(T − paid) ≤ (S − 1) + n·(FP − 1) |
| `CouponBatches.PayAllNeverTraps` | contracts/coupon-engine/src/lib.rs:421-430 | If the totals times FP fitted when the rates were computed, no list of holders and balances whatever, oversized balances included, makes a per-holder product overflow: the processed-balance check stops it first |
| `CouponLedger.LoopNeverTraps` | contracts/coupon-engine/src/lib.rs:409-470 | On every sound book a trap never comes from the holder loop, and where else one can come from |
| `Rounding.SettledPeriodRounding` | contracts/coupon-engine/src/lib.rs:547-564 | From its first accepted batch, whatever calls come between: a settled period has, per credit type, 0 ≤ D ≤ T and FP·(T − D) ≤ (S − 1) + n·(FP − 1), and records exactly D and T − D |
| `Rounding.EverySettledPeriodIsBounded` | contracts/coupon-engine/src/lib.rs:547-564 | The same for every settled period of every reachable state; and its earned + undistributed is what its own report, as the opening batch found it, is worth to the bond's type |
| `Rounding.SettlementFillsPools` | contracts/coupon-engine/src/lib.rs:547-607 | The final batch records the period with its report's window, what was paid and what was not, and adds exactly the shortfall of each type, never negative, to its pool |
| `Rounding.FreshRates` | contracts/coupon-engine/src/lib.rs:344-377 | A fresh period pays each side at the floor of its own total per subscribed token |
| `Rounding.DustAddsUpIff` | contracts/coupon-engine/src/lib.rs:581-607 | For any totals, negative ones included, and any holder map: settling keeps the dust pools in step if and only if no negative total meets a positive one that the floor shares leave partly unpaid |
| `Rounding.NegativeReportBlocksSweeps` | contracts/coupon-engine/src/lib.rs:581-607 | Why reports must be non-negative: a concrete report with a negative carbon figure settles a period whose pools no longer add up, and every later sweep returns AccountingMismatch |
| `CouponLedger.DistributeKeepsGood` | contracts/coupon-engine/src/lib.rs:513-618 | One distribute call keeps the book sound and conserves credits, with exactly the new dues received |
| `CouponLedger.ClaimKeepsGood` | contracts/coupon-engine/src/lib.rs:694-810 | A claim always succeeds on a good book, returns the whole accrued balance and keeps conservation |
| `CouponLedger.SweepKeepsGood` | contracts/coupon-engine/src/lib.rs:899-983 | A sweep credits both pools in full to one address, empties them, and can only fail by overflow |
| `CouponLedger.DeductKeepsGood` | contracts/coupon-engine/src/lib.rs:1008-1055 | A deduction takes exactly the amount from the combined and per-type balance and keeps conservation |
| `CouponLedger.RegisterKeepsGood` | contracts/coupon-engine/src/lib.rs:169-231 | Registering a bond, or registering it again, disturbs no credits |
| `CouponLedger.ResumeNoMismatch` | contracts/coupon-engine/src/lib.rs:289-316 | A resumed batch always finds its balance snapshot |
| `CouponRules.RegisterRule` | contracts/coupon-engine/src/lib.rs:169-231 | Exactly when the admin may register a bond, and that only its project and type are set |
| `CouponRules.DeductCallerRule` | contracts/coupon-engine/src/lib.rs:985-1006 | Only the admin names the deduct caller |
| `CouponRules.ClaimRule` | contracts/coupon-engine/src/lib.rs:694-810 | A claim is accepted exactly on the right nonce, returns the whole accrued balance, zeroes the caller's three balances and moves nothing else |
| `CouponRules.SweepRule` | contracts/coupon-engine/src/lib.rs:899-983 | A sweep is accepted exactly from the admin while the destination's balance has room; both pools go to it in full, and nothing else moves |
| `CouponRules.DeductRule` | contracts/coupon-engine/src/lib.rs:1008-1055 | A deduction is accepted exactly from the registered caller, of a positive amount within the side its type is kept on; exactly that side and the combined balance fall |
| `CouponRules.BatchRefusals` | contracts/coupon-engine/src/lib.rs:251-345 | Which error refuses a batch before anybody is paid, in the order of the checks |
| `CouponContract.AccrueCredits` | contracts/coupon-engine/src/lib.rs:1134-1161 | The per-type and combined entries rise together, or the call overflows |
| `CouponContract.PayHolder` | contracts/coupon-engine/src/lib.rs:421-509 | The three per-type branches compute the one payment the specification defines |
| `CouponContract.PayHolders` | contracts/coupon-engine/src/lib.rs:409-511 | The holder loop with its running accumulators computes the specified batch, including which error it stops with |
| `CouponContract.FinalisePeriod` | contracts/coupon-engine/src/lib.rs:531-618 | Closing a period refines the settlement specification |
| `CouponContract.DistributeHolders` | contracts/coupon-engine/src/lib.rs:289-640 | Open or resume, pay, accumulate, close: equals the batch specification on the bond's book |
| `CouponContract.CouponEngine.DistributeCoupon` | contracts/coupon-engine/src/lib.rs:234-640 | The whole call, with its holder loop, commits the specified book and result or leaves storage as it was |
| `Issuer.EveryRunIsBacked` | contracts/bond-issuer/src/lib.rs:263-293 | Over every run: balances are non-negative and sum to total_subscribed ≤ total_supply, every positive balance is in HolderList whose length is HolderCount, bond ids are dense |
| `Issuer.RunEvolves` | contracts/bond-issuer/src/lib.rs:354-380 | Along every run: configs are frozen, maturity is final, nonces only rise, and once time is past a bond's maturity date none of its balances ever rises |
| `Issuer.TransferMoves` | contracts/bond-issuer/src/lib.rs:312-388 | A transfer debits the sender, credits the receiver, touches nobody else and leaves both totals alone |
| `IssuerRules.TotalsFallOnlyAfterMaturity` | contracts/bond-issuer/src/lib.rs:390-458 | Over every run: whenever a bond's total_subscribed falls, a holder is redeeming, by exactly that amount, and earlier the admin matured the bond at a time not before its maturity date |
| `IssuerRules.RedeemRule` | contracts/bond-issuer/src/lib.rs:390-458 | A redemption is accepted if and only if the nonce is right, the amount positive, the bond Matured and the balance covers it; that balance and the total fall by the amount and nothing else changes |
| `IssuerRules.SubscribeRule` | contracts/bond-issuer/src/lib.rs:224-303 | Exactly when a subscription is accepted; the balance and the total rise by the amount, the holder joins the list if its balance was zero, nothing else changes |
| `IssuerRules.TransferRule` | contracts/bond-issuer/src/lib.rs:312-388 | Exactly when a transfer is accepted and exactly what it leaves, list included |
| `IssuerRules.IssueRule` | contracts/bond-issuer/src/lib.rs:132-222 | Exactly when a bond is issued, and that it has the given configuration, the next id and nothing subscribed |
| `IssuerRules.MatureRule` | contracts/bond-issuer/src/lib.rs:604-660 | Exactly when the admin matures a bond; only its status changes |
| `IssuerRules.Refusals` | contracts/bond-issuer/src/lib.rs:263-275 | Which error refuses a subscription, transfer or redemption, in the order of the checks |
| `IssuerContract.BondIssuer.IssueBond` | contracts/bond-issuer/src/lib.rs:132-222 | The call, with its coupon schedule loop, settles as specified and keeps the supply invariant, freezes configs, maturity, holder-list prefixes and nonce order |
| `IssuerContract.BondIssuer.Subscribe` | contracts/bond-issuer/src/lib.rs:224-303 | Settles as specified and keeps the supply invariant, freezes configs, maturity, holder-list prefixes and nonce order |
| `IssuerContract.BondIssuer.Transfer` | contracts/bond-issuer/src/lib.rs:312-388 | Settles as specified, moves exactly the amount between the two balances and nothing else, and keeps the supply invariant, freezes configs, maturity, holder-list prefixes and nonce order |
| `IssuerContract.BondIssuer.Redeem` | contracts/bond-issuer/src/lib.rs:390-458 | Settles as specified and keeps the supply invariant, freezes configs, maturity, holder-list prefixes and nonce order |
| `IssuerContract.BondIssuer.MatureBond` | contracts/bond-issuer/src/lib.rs:604-660 | Settles as specified and keeps the supply invariant, freezes configs, maturity, holder-list prefixes and nonce order |
| `IssuerContract.BondIssuer.GetHolderListRange` | contracts/bond-issuer/src/lib.rs:509-530 | Returns exactly the page of the holder list, empty past its end |
| `IssuerContract.PagesCover` | contracts/bond-issuer/src/lib.rs:509-530 | Reading page after page yields the whole holder list, each entry once and in order |
| `Calendar.YearIsUnique` | contracts/credit-retirement/src/lib.rs:153-172 | For every year that fits in u32: the result is y if and only if January 1 of y is at or before the day and the next January 1 is after it, under the 4/100/400 leap rule of section 3.2.1 of ISO 8601:2004 |
| `Calendar.WideYearCorrect` | contracts/credit-retirement/src/lib.rs:153-172 | Before the cast to u32 the year is right for every timestamp |
| `Calendar.YearIsMonotone` | contracts/credit-retirement/src/lib.rs:153-172 | Later timestamps never fall in earlier years |
| `Retirement.AppendKeepsInv` | contracts/credit-retirement/src/lib.rs:336-391 | Record ids are exactly 1..count and never overwritten; both index lists are ordered filters of the record table; both totals are sums of its amounts |
| `Retirement.RetireEffect` | contracts/credit-retirement/src/lib.rs:245-403 | A retirement appends one record, overwrites none, and deducts the same amount in the engine; the record says what was asked and when, carries the settled period's report and window, and its vintage is the Gregorian year of the day that window ends |
| `Certificates.EveryCertificateIsTrue` | contracts/credit-retirement/src/lib.rs:345-373 | Along every run, every certificate was issued by an accepted retirement call, says what that call asked for and when, and agrees with the issuer's bond and the engine's settled period as they now stand: project, type, report, window and Gregorian vintage year |
| `Certificates.RetireRule` | contracts/credit-retirement/src/lib.rs:257-335 | In every state meeting the invariant a retirement is accepted exactly from a holder of the bond, for its own project, a type it pays, a settled period and enough credits of that type, while the totals have room |
| `Certificates.RetireRefusals` | contracts/credit-retirement/src/lib.rs:257-335 | Which error refuses a retirement, in the order of the checks |
| `RetirementContract.CreditRetirement.RetireCredits` | contracts/credit-retirement/src/lib.rs:245-403 | The call settles as its transition says on both contracts, with the nested deduction undone when a later step fails |
| `RetirementContract.CreditRetirement.GetBondCertificates` | contracts/credit-retirement/src/lib.rs:428-442 | Reading through the index returns exactly what a scan of the whole record table finds, in order |
| `Market.EveryRunSettles` | contracts/dex-router/src/lib.rs:286-424 | Over every run of exchange and issuer: no quote balance is negative, balances per asset sum to deposits − withdrawals, ids are 1..OrderCount; per order, measured on the balances of both contracts: tokens the seller lost = tokens the buyers gained, listed = sold + remaining (0 once Filled), and quote the buyers lost = quote the seller gained = price × tokens |
| `DexRules.EveryOrderIsAsListed` | contracts/dex-router/src/lib.rs:158-241 | In every reachable market each order has the seller, bond, price, asset, creation and expiry of the listing call that created it; buyers paid, and the seller earned, that call's price × tokens sold; sold + remaining is the amount listed |
| `DexRules.ListRule` | contracts/dex-router/src/lib.rs:158-241 | Exactly when a listing is accepted; the new order is what was asked, the indexes gain its id, nothing else changes |
| `DexRules.CancelRule` | contracts/dex-router/src/lib.rs:243-284 | Exactly its seller cancels a live order; only its status changes |
| `DexRules.PurchaseRule` | contracts/dex-router/src/lib.rs:286-424 | A purchase is accepted if and only if the order can be taken at that price and time, the buyer can pay, and the issuer lets the tokens move; what it leaves of the order |
| `DexRules.PurchaseRefusals` | contracts/dex-router/src/lib.rs:310-352 | Which error refuses a purchase, in the order of the checks |
| `DexRules.MoveStep` | contracts/dex-router/src/lib.rs:243-409 | An order changes only by its seller's cancellation, a buyer's fill or the admin's expiry, each exactly as specified |
| `DexRules.DepositRule` | contracts/dex-router/src/lib.rs:426-455 | Exactly when a deposit is accepted; one account moves |
| `DexRules.WithdrawRule` | contracts/dex-router/src/lib.rs:457-488 | Exactly when a withdrawal is accepted; one account moves |
| `DexRules.CleanRule` | contracts/dex-router/src/lib.rs:636-721 | Cleaning is the admin's; it expires exactly the live orders of the range whose expiry has come, and returns their number |
| `Market.PurchaseSettles` | contracts/dex-router/src/lib.rs:310-409 | A purchase moves amount × price from buyer to seller and the same quantity of bond tokens from seller to buyer in the issuer, touches nobody else, and keeps both sums |
| `Market.RunKeepsInv` | contracts/dex-router/src/lib.rs:185-233 | Every run keeps BondOrders and SellerOrders equal to the increasing id lists of matching orders, and the escrow figures of every order in step |
| `MarketQuote.IndexedQuote` | contracts/dex-router/src/lib.rs:539-566 | The indexed quote equals the quote computed by scanning every order |
| `MarketQuote.BestPriceIsOptimal` | contracts/dex-router/src/lib.rs:529-634 | Over every allocation of min(amount, on offer) units across exactly the orders of the bond that are live, not used up and not expired, the quoted total is the minimum for Buy and the maximum for Sell and some allocation attains it; the average is total / units; slippage is the shortfall against the best price in basis points, never negative, at most 10000 for Sell |
| `MarketQuote.QuoteRule` | contracts/dex-router/src/lib.rs:529-634 | A quote is refused for an amount that is not positive, otherwise only by overflow, and it is given whenever the units at the highest price on offer, in basis points, fit in i128 |
| `MarketQuote.EveryRunQuotesBest` | contracts/dex-router/src/lib.rs:529-634 | The same in every market reachable from deployment |
| `MarketQuote.ScanIsComplete` | contracts/dex-router/src/lib.rs:552-566 | No eligible order is missed |
| `Quote.RankSorts` | contracts/dex-router/src/lib.rs:551-589 | The sorted list is a price-then-id ordered permutation of the eligible orders |
| `Quote.GreedyIsBest` | contracts/dex-router/src/lib.rs:595-613 | No allocation of the same units beats greedy filling of a ranked list |
| `Quote.QuoteIsUnbeaten` | contracts/dex-router/src/lib.rs:595-633 | No allocation over the eligible orders beats the quoted total |
| `Quote.QuoteIsAttained` | contracts/dex-router/src/lib.rs:595-633 | An allocation attains the quoted total |
| `Quote.SlippageBounds` | contracts/dex-router/src/lib.rs:615-633 | Slippage is never negative and at most 10000 bps for Sell |
| `Dex.CleaningComposes` | contracts/dex-router/src/lib.rs:694-721 | Cleaning [a, b] then [b+1, c] at one time is cleaning [a, c], and the counts add up |
| `Dex.CleaningTwice` | contracts/dex-router/src/lib.rs:694-721 | A repeated cleaning changes nothing and counts 0 |
| `DexContract.SortEligible` | contracts/dex-router/src/lib.rs:551-589 | The in-place insertion sort computes the ranked list |
| `DexContract.Fill` | contracts/dex-router/src/lib.rs:595-613 | The fill loop computes the greedy fill, with its overflow errors |
| `DexContract.ExpireRange` | contracts/dex-router/src/lib.rs:694-721 | The cleaning loop marks exactly the stale orders of the range and counts them |
| `DexContract.DEXRouter.GetBestPrice` | contracts/dex-router/src/lib.rs:529-634 | The imperative quote equals the specified quote |
| `DexContract.DEXRouter.ExecutePurchase` | contracts/dex-router/src/lib.rs:286-424 | The call settles as its transition says on both contract objects |
| `DexContract.DEXRouter.CleanExpiredOrders` | contracts/dex-router/src/lib.rs:636-662 | The call, with the cleaning loop over all ids, settles as specified; an empty book cleans nothing |
| `DexContract.DEXRouter.CleanExpiredOrdersRange` | contracts/dex-router/src/lib.rs:664-692 | The call, with the cleaning loop over a valid range, settles as specified |
| `GovernanceRuns.EveryRunIsSafe` | contracts/governance/src/lib.rs:468-783 | In every state a deployed contract reaches: vote counts, statuses and times satisfy the invariant of the next row; proposals are Executed exactly when they are in the execution log; the allowlist is the deduplicated constructor list or that of the latest executed self-proposal |
| `GovernanceRuns.RunKeepsInv` | contracts/governance/src/lib.rs:566-665 | From any mix of storage tiers: counts equal the numbers of signers recorded with each choice; Pending has both below threshold; Queued and Executed have exactly threshold approvals and fewer vetoes; Executed has executed_at within [queued_at + timelock, expires_at); the list has at most 64 distinct pairs. Proposals only move forward, terminal ones never change, and no vote is ever altered. When queued_at was set is stated by GovernanceRules.EveryProposalHasItsHistory |
| `GovernanceRuns.EveryRunIsLogged` | contracts/governance/src/lib.rs:703-798 | Along every run each id is executed at most once and only from Queued, each call to another contract had its pair on the list in force at that moment, and the list in force is always the latest executed self-proposal's |
| `GovernanceRules.ExecutionsWait` | contracts/governance/src/lib.rs:606-613 | In every run of a deployed contract, every execution event was preceded by the event that created the proposal and by the approval that reached the threshold and queued it; the execution came at least the deployment's timelock after that vote, and before 2592000 seconds after the creation |
| `GovernanceRules.EveryProposalHasItsHistory` | contracts/governance/src/lib.rs:501-613 | Every proposal is what its proposer asked for; every Queued or Executed one has queued_at equal to the time of the approval that reached the threshold, and every Executed one its execution event |
| `GovernanceRules.CallOn` | contracts/governance/src/lib.rs:501-783 | One call creates a proposal as asked, leaves it, casts one signer's vote, cancels it for a signer, or executes it, each spelled out on its fields and times |
| `GovernanceRules.ProposeRule` | contracts/governance/src/lib.rs:501-564 | Exactly when a proposal is accepted: a signer, its next nonce, and a listed call or a new list |
| `GovernanceRules.VoteRule` | contracts/governance/src/lib.rs:566-673 | A vote is accepted exactly from a signer who has not voted, on a Pending proposal that has not expired |
| `GovernanceRules.CancelRule` | contracts/governance/src/lib.rs:675-701 | A cancellation is accepted exactly from a signer, of a Pending proposal |
| `GovernanceRules.ExecuteRule` | contracts/governance/src/lib.rs:703-783 | Exactly when an execution is accepted |
| `GovernanceRules.ExecuteRefusals` | contracts/governance/src/lib.rs:715-761 | Which error refuses an execution, in the order of the checks |
| `GovernanceRules.NonceCheck` | contracts/governance/src/lib.rs:176-221 | The accepted nonce is the persistent one, else the legacy one, else zero for an address that never transacted; an archived nonce has no acceptable value; an accepted call uses up exactly its caller's nonce |
| `GovernanceRules.AdministrationRule` | contracts/governance/src/lib.rs:808-846 | Only a signer migrates storage; nobody but the contract itself replaces the list |
| `GovernanceRules.DeploymentRule` | contracts/governance/src/lib.rs:468-499 | Exactly which deployments succeed, and the state they start in |
| `GovernanceRuns.CountsAreSigners` | contracts/governance/src/lib.rs:579-613 | Approvals and vetoes count distinct members of the signer list, and nobody is counted on both sides |
| `GovernanceRuns.ExecutionWindow` | contracts/governance/src/lib.rs:715-770 | A queued proposal, whatever its target, can be executed at some time if and only if its timelock ends before its expiry and it can be dispatched: a listed pair, or decodable arguments with the contract's own nonce |
| `GovernanceRuns.StuckForGood` | contracts/governance/src/lib.rs:688-732 | A queued proposal whose timelock does not end before its expiry is unchanged after every run: never executed, never cancelled |
| `GovernanceRuns.LongTimelocksNeverExecute` | contracts/governance/src/lib.rs:501-564 | A contract deployed with a timelock of at least 2592000 seconds never executes a proposal, so its allowlist never changes, as long as ledger time does not run backwards |
| `GovernanceRuns.StepMoves` | contracts/governance/src/lib.rs:246-309 | Read through the two tiers, every call is one of five moves on a single-tier state: nothing, a new proposal, one vote, one cancellation, one execution |
| `Governance.MigrationPreservesMeaning` | contracts/governance/src/lib.rs:843-887 | For any mix of legacy and persistent entries: every read is the same before and after, the result counts exactly the ids copied, every readable id up to the legacy count is then persistent, and a second call copies nothing |
| `Governance.Dedup` | contracts/governance/src/lib.rs:340-361 | The stored list has no duplicates, the submitted membership and no more entries |
| `GovernanceContract.HasDuplicate` | contracts/governance/src/lib.rs:480-487 | The nested loops find a duplicate signer exactly when there is one |
| `GovernanceContract.ContainsCall` | contracts/governance/src/lib.rs:365-372 | The scan answers membership of the pair |
| `GovernanceContract.DedupeCalls` | contracts/governance/src/lib.rs:340-361 | The decoding and deduplicating loop computes the specified list, and refuses malformed or oversized input |
| `GovernanceContract.CopyProposals` | contracts/governance/src/lib.rs:864-879 | The migration loop copies and counts exactly the legacy-only ids up to the legacy count |
| `GovernanceContract.Deploy` | contracts/governance/src/lib.rs:468-499 | Deployment succeeds exactly when the constructor's assertions hold |
| `GovernanceContract.GovernanceInstance.Propose` | contracts/governance/src/lib.rs:501-564 | Settles as specified and, called by anyone but the contract itself, keeps the vote, timelock, expiry and allowlist invariant and everything about proposals and votes that must not change |
| `GovernanceContract.GovernanceInstance.VoteApprove` | contracts/governance/src/lib.rs:566-621 | Settles as specified and, called by anyone but the contract itself, keeps the vote, timelock, expiry and allowlist invariant and everything about proposals and votes that must not change |
| `GovernanceContract.GovernanceInstance.VoteVeto` | contracts/governance/src/lib.rs:623-673 | Settles as specified and, called by anyone but the contract itself, keeps the vote, timelock, expiry and allowlist invariant and everything about proposals and votes that must not change |
| `GovernanceContract.GovernanceInstance.Cancel` | contracts/governance/src/lib.rs:675-701 | Settles as specified and, called by anyone but the contract itself, keeps the vote, timelock, expiry and allowlist invariant and everything about proposals and votes that must not change |
| `GovernanceContract.GovernanceInstance.DispatchSelf` | contracts/governance/src/lib.rs:433-450 | Self-calls are decoded and applied as specified, or refused with the specified error |
| `GovernanceContract.GovernanceInstance.Execute` | contracts/governance/src/lib.rs:703-783 | Settles as specified, with the self-dispatch and allowlist loops, and keeps the vote, timelock, expiry and allowlist invariant and everything about proposals and votes that must not change |
| `GovernanceContract.GovernanceInstance.SetAllowedCalls` | contracts/governance/src/lib.rs:808-816 | Settles as specified and, called by anyone but the contract itself, keeps the vote, timelock, expiry and allowlist invariant and everything about proposals and votes that must not change |
| `GovernanceContract.GovernanceInstance.MigrateStorage` | contracts/governance/src/lib.rs:843-887 | Settles as specified, with the copying loop, and keeps the vote, timelock, expiry and allowlist invariant and everything about proposals and votes that must not change |
| `Registry.EveryRunHasUniqueHashes` | contracts/project-registry/src/lib.rs:133-152 | In every reachable state a metadata hash has at most one Pending or Approved project, looking the hash up finds it, and a hash is refused exactly while it has one; ids are dense and owner lists are ordered filters |
| `Registry.RunEvolves` | contracts/project-registry/src/lib.rs:219-293 | Along every run identities are frozen and a project that has left Pending and Approved never changes again |
| `RegistryRules.EveryProjectHasItsHistory` | contracts/project-registry/src/lib.rs:164-425 | In every reachable state each project is what its owner registered, and a status other than Pending was given by a call of the admin in office, or of the oracle consumer for a revocation |
| `RegistryRules.RegisterRule` | contracts/project-registry/src/lib.rs:164-215 | Exactly when a registration is accepted, and the project, hash entry and owner list it leaves |
| `RegistryRules.StatusRules` | contracts/project-registry/src/lib.rs:219-425 | Exactly who approves, rejects, suspends and revokes, from which status to which, with nothing else changed |
| `RegistryRules.RoleRules` | contracts/project-registry/src/lib.rs:335-623 | Exactly when the oracle is named and a transfer is proposed, cancelled and accepted, with the 172800 second wait |
| `Registry.AdminHandover` | contracts/project-registry/src/lib.rs:511-623 | Whenever the admin changes, the new admin accepted for itself and had been proposed at least 172800 seconds earlier by the admin in office, who stayed in office in between |
| `Registry.StepMoves` | contracts/project-registry/src/lib.rs:164-425 | Every call leaves the tables alone, registers one project under the next id, or makes one of the four allowed status moves; only propose, cancel and accept touch the admin role |
| `RegistryContract.ProjectRegistry.RegisterProject` | contracts/project-registry/src/lib.rs:164-215 | Settles as specified, with the zero-hash loop, adds at most one project under the next id, and keeps the hash index, owner lists and dense ids |
| `RegistryContract.ProjectRegistry.ApproveProject` | contracts/project-registry/src/lib.rs:363-393 | Settles as specified, makes only its one status move, leaves the admin role alone, and keeps the hash index, owner lists and dense ids |
| `RegistryContract.ProjectRegistry.RejectProject` | contracts/project-registry/src/lib.rs:395-425 | Settles as specified, makes only its one status move, leaves the admin role alone, and keeps the hash index, owner lists and dense ids |
| `RegistryContract.ProjectRegistry.SuspendProject` | contracts/project-registry/src/lib.rs:219-254 | Settles as specified, makes only its one status move, leaves the admin role alone, and keeps the hash index, owner lists and dense ids |
| `RegistryContract.ProjectRegistry.RevokeProject` | contracts/project-registry/src/lib.rs:259-294 | Settles as specified, makes only its one status move, leaves the admin role alone, and keeps the hash index, owner lists and dense ids |
| `RegistryContract.ProjectRegistry.SetOracleConsumer` | contracts/project-registry/src/lib.rs:335-361 | Settles as specified, moves the admin role only as its calls allow, and keeps the hash index, owner lists and dense ids |
| `RegistryContract.ProjectRegistry.ProposeAdminTransfer` | contracts/project-registry/src/lib.rs:511-545 | Settles as specified, moves the admin role only as its calls allow, and keeps the hash index, owner lists and dense ids |
| `RegistryContract.ProjectRegistry.CancelAdminTransfer` | contracts/project-registry/src/lib.rs:551-577 | Settles as specified, moves the admin role only as its calls allow, and keeps the hash index, owner lists and dense ids |
| `RegistryContract.ProjectRegistry.AcceptAdminTransfer` | contracts/project-registry/src/lib.rs:585-623 | Settles as specified, moves the admin role only as its calls allow, and keeps the hash index, owner lists and dense ids |
| `Base58.DecodeEncode` | ipfs/evidence.ts:110-131 | decode(encode(b)) = b if and only if b has a non-zero byte (sections 3 and 4 of draft-msporny-base58) |
| `Base58.EncodeDecode` | api/src/stellar/bytes32.ts:40-74 | encode(decode(s)) = s if and only if the alphabet string s has a character other than 1 |
| `Base58.AlphabetIsClass` | api/src/stellar/bytes32.ts:7-15 | The alphabet and the regular-expression class are the same characters, each with one index |
| `Base58.PushByte` | ipfs/evidence.ts:112-123 | One pass of the encoder's inner loops multiplies by 256 and adds the byte in base 58, with no 32-bit overflow |
| `Base58.PushGlyph` | api/src/stellar/bytes32.ts:50-59 | One pass of the decoder's inner loops multiplies by 58 and adds the value in base 256 |
| `Base58.EncodeBase58btc` | ipfs/evidence.ts:110-131 | The loops compute the change of base with leading zeros kept |
| `Base58.DecodeBase58btc` | api/src/stellar/bytes32.ts:40-74 | The loops compute the inverse change of base, or refuse a character outside the alphabet |
| `Radix.StepIsArithmetic` | ipfs/evidence.ts:112-123 | On canonical digits the accumulator step is n ↦ p·n + x |
| `Radix.RebaseBackIff` | ipfs/evidence.ts:110-131 | Changing base there and back is the identity if and only if some digit is non-zero |
| `Radix.RebaseValue` | ipfs/evidence.ts:110-131 | Changing base keeps the number, and the leading zeros of an input that is not all zeros |
| `Base58.CodecsKeepTheNumber` | api/src/stellar/bytes32.ts:40-74 | The text read in base 58 and the bytes read in base 256 are the same number, in both codecs |
| `ContentId.DigestsHaveCids` | ipfs/evidence.ts:134-137 | For every 32-byte digest the encoding of 0x12 0x20 ++ digest is 46 characters starting Qm |
| `ContentId.IpfsCidV0FromBytes` | ipfs/evidence.ts:134-137 | For any SHA-256 function the name has CIDv0 shape and decodes to the multihash of the payload |
| `ContentId.CidsAreInjective` | ipfs/evidence.ts:134-137 | Two digests have the same CIDv0 if and only if they are equal |
| `ContentId.CidRoundTrip` | api/src/stellar/bytes32.ts:97-107 | decodeBytes32 accepts the CIDv0 of any digest, inside any white space, and returns exactly that digest |
| `ContentId.CidAccepted` | api/src/stellar/bytes32.ts:97-107 | CIDv0-shaped text is accepted with digest d if and only if it is the CIDv0 of d |
| `ContentId.HexAccepted` | api/src/stellar/bytes32.ts:88-95 | Text without CIDv0 shape is accepted with digest d if and only if, trimmed and without a 0x or 0X prefix, its lower-case form is the hex of d |
| `ContentId.CidShapeDecodes` | api/src/stellar/bytes32.ts:97-105 | Every CIDv0-shaped text decodes to 34 bytes starting 0x12 |
| `ContentId.RefusalReports` | api/src/stellar/bytes32.ts:105-113 | A refused text is reported trimmed, with decoded length 34 for CIDv0 shape (its second byte is not 0x20), half the digits for hex, none otherwise |
| `ContentId.RawRule` | api/src/stellar/bytes32.ts:77-86 | Raw bytes are accepted exactly when there are 32 of them, as themselves; otherwise their number is reported |
| `ContentId.NormalizedCidsCompare` | ipfs/evidence.ts:81-88 | A returned CIDv0 normalises to a locally computed one if and only if it decodes to the same digest |

## Left out

- TTL bumps, archival and events: they change no logical state. Archival is only visible as governance's NonceArchived error, which the model keeps.
- Authentication and signatures: the caller is taken as given.
- The oracle-consumer contract: report submission, verification and challenges are not modelled beyond the non-negativity of stored figures.
- The project registry's answer to `register_bond` is an argument; the registry is modelled on its own.
- Initialisation checks (NotInitialized, unset contract addresses) of issuer, engine, exchange and retirement: their constructors always set these entries.
- The legacy instance-storage tier of retirement records and of the issuer's holder counts.
- Registry keys: a project is keyed by its id; the injective 32-byte encoding of the id is not modelled.
- Read-only getters, other than holder pages, certificates and the quote; `list_projects`, `get_period_info_range` and `get_bond_ids_range` page like `get_holder_list_range`.
- `get_retired_by_type`: its key is never written.
- `cidV1ToCidV0` and `decodeBase32Lower`: no claim is made about CIDv1; `ContentId.NormalizeCidV0` takes the conversion's result as an argument.
- SHA-256 is an abstract function to 32 bytes; canonical JSON is not modelled.
- `BondIssuer`, `CouponEngine` and the other contract objects keep storage as one value that a method replaces on success; aliasing between storage entries cannot arise and is not modelled.
- NestJS services, caches, RPC polling, IPFS upload, the Angular client, oracle adapters and scripts.
