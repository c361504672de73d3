# Accounting and recovery core

A Dafny model of the deterministic core of the trading runtime: what it keeps in memory, what it journals, and what it
rebuilds after a crash. Amounts are exact integers (six decimals in a checked 128-bit range), ordered maps are maps
iterated in ascending key order, and every source method that changes an object in place is a class method proved equal
to a function on the value that object denotes. The theorems are about those functions, over every input, every run and
every crash point.

The parts, with the modules that hold them:

- **Live account ledger.** `AccountLedger` folds journaled user events into memory, `AccountIngest` adds the venue's own
  trades, `AccountReconciled` and `AccountHoldings` decide when a snapshot reflects the pending trades, `AccountGate`
  is the gate in front of live orders. `AccountRecovery` rebuilds the account from the journal by the other algorithm the
  source uses; `AccountMirror` and `AccountRuns` prove that the two agree after every run; `AccountSession` is the event
  handler, the periodic audit and the startup. `AccountMeaning` says what these do in terms of the events, and
  `AccountReplayed` which journals recover, and to what, in terms of their records.
- **Paper engine.** `PaperCore` (functions), `PaperMachine` (the mutable engine), `PaperMath`, `PaperInvariant`,
  `PaperPlans`, `PaperOrders`, `PaperMatching`, `PaperTrades`, `PaperHeadroom` (free cash, and when a fill is refused),
  `PaperAllocation`, `PaperReprints`, `PaperFlatten`, `PaperFlattenProofs`, `PaperFlattenExact`, `PaperLots` (positions as
  replays of the fills), `PaperRuns`, and `PaperFailures`, the runs that reach what the engine does not promise.
  `PaperMeaning` says what book updates and prints fill in terms of prices and sizes, `PaperFlattenMeaning` when a flatten
  succeeds, and `PaperLedger` accounts for cash, fees and profit by the fills. `PaperCommit` and `PaperDurability` journal
  the transitions and recover them.
- **Journal.** `Journal`: a hash-chained log with a checkpoint, rollback and compaction, and every disk a crash can leave.
- **Order attempts.** `WriteAhead` (payload and Base16), `CrashRecovery` (startup reconciliation), `SubmitProtocol` (the
  write-ahead protocol as steps with crashes between them).
- **Order book.** `Book`, `MarketEvents`, `BookProofs` (against a plain price-to-size map), `MarketMeaning` (what each event
  writes, and when it is accepted, in terms of the event and the book), `MarketBatch`.
- **Small exact pieces.** `FixedPoint`, `Decimal`, `FeeBounds`, `RateLimit`. `Prelude`, `Ordered` and `Sums` are shared.

Parameters of the model: the record hash is any function of a record's other fields; the paper-transition encoding is any
pair with decode after encode the identity; which byte strings are UTF-8 is a predicate; new client order ids are fresh
names; the outcome of each file operation is an input; writes are whole lines. An intent that reaches the paper engine has
`0 < limit_price < 1` and `size > 0`, which the risk checks establish (`src/risk.rs:157-165`).

## What the code does that its promises do not say

- With fees, an average price can exceed one and `validate_state` then rejects a state the engine itself produced
  (`PaperFailures.FeesCanBreakValidation`). Exactly when, is `PaperRuns.RunValidates`: when replaying the fills gives some
  asset an average above one; a guard on each buy that avoids it is `PaperRuns.GuardedRunValidates`. Without fees it never
  happens.
- Reserved cash can exceed cash after a partial buy fill, so that `available_cash_usdc` errs
  (`PaperFailures.PartialFillOverdrawsReserve`). Exactly when, is `PaperHeadroom.FillKeepsCover`: when the free cash before
  the fill does not cover what splitting the reservation costs, at most 3 raw units, 1 without fees; both bounds are
  attained (`PaperMath.DriftIsTight`).
- A fill can then be refused with `paper_cash_changed_before_fill`, and with it the whole book update or trade print, an
  error that leaves the market handler (`PaperFailures.OverdrawnFillRefused`). Exactly when, short of overflow, are
  `PaperHeadroom.BuyFillDecided`, `PaperHeadroom.BookDecided` and `PaperHeadroom.PrintDecided`; never while reservations
  are within cash.
- A delta may empty one side of a book and leave it tradeable (`BookProofs.TradeableWithOneSide`); a snapshot may not.
  Exactly when a side survives, is `BookProofs.DeltaSides`.
- A trade print repeated with its own timestamp can fill again (`PaperFailures.RepeatedPrintFillsAgain`): exactly orders
  that the first one passed over when its share ran out (`PaperReprints.RepeatPrint`).
- An append commits a record with an empty client order id, process id, configuration hash or binary hash, and the log
  then no longer verifies (`Journal.EmptyClientIdBreaksLog`; exactly when, in `Journal.CommitVerifiesIffComplete`).
- `retry_after_ms` answers 0 although no later 64-bit instant would be admitted when the oldest time plus the window passes
  64 bits (`RateLimit.RetryAfterOverflows`; exactly when, in `RateLimit.RetryAfterIsLeastWait`).
- A second minus is accepted on a whole part, and the fraction then counts against it: `--1.5` parses, as 0.5. The result
  is the number after the two signs exactly when its fraction is zero (`Decimal.DoubleMinus`).
- Printing and parsing a fixed-point value fails for the 128-bit minimum and for nothing else (`Decimal.PrintParse`).
- Ingesting the same trade snapshot twice can find more the second time when a trade names two orders
  (`AccountIngest.TwoIdsNeedTwoIngests`; exactly when, in `AccountIngest.IngestFixpoint`).
- A pending trade that later fails stays pending in memory but not in the recovered account
  (`AccountRuns.FailedTradeDiverges`); memory is latched, and recovery errs or latches.
- The branch of `submit_live_intent` that commits a reconciliation is never taken (`AccountGate.AdmitIntent`).

## Model

| member | source | states |
|---|---|---|
| AccountLedger.StatusOrder | src/engine.rs:2051-2068 | the order of the statuses, with unknown ones above failed, whatever the case of the letters |
| AccountLedger.LatestStatus | src/engine.rs:2051-2076 | the status kept of two never ranks below either, is active exactly when both are, and keeping the same one again changes nothing |
| AccountLedger.StatusMeaning | src/engine.rs:2044-2068 | class and rank of a status by its letters: matched, retrying, mined and confirmed are active, failed is failed, anything else unknown |
| AccountLedger.AccountJournal.Append | src/journal.rs:344-418 | an append that fails poisons the journal, and its record is gone or, where the rollback fails too, stays behind; a poisoned journal refuses |
| AccountLedger.LiveAccount.EnsurePending | src/engine.rs:1829-1838 | opens a reconciliation with the last snapshot as baseline, once |
| AccountLedger.LiveAccount.RecordTradeEvent | src/engine.rs:1756-1822 | a trade revision in place: conflict and failed status latch, a reconciled trade is not pended again |
| AccountLedger.LiveAccount.RecordPendingAccountEvent | src/engine.rs:1736-1827 | the whole account after one user event, and its outcome |
| AccountMeaning.OrderEventMeaning | src/engine.rs:1736-1754 | an order event is journaled exactly when its status is matched in any letter case or its matched size is positive; then its id is unresolved unless its trades are known, and nothing else moves; otherwise nothing at all |
| AccountMeaning.ConflictMeaning | src/engine.rs:1765-1774 | a revision with other terms than the ledger's is journaled, latches and is refused, and changes nothing else |
| AccountMeaning.TradeEventMeaning | src/engine.rs:1756-1822 | any other revision: the ledger takes its terms and the later of the two statuses, its order ids become known and owned, and it latches exactly when its status is not active |
| AccountMeaning.PendingMeaning | src/engine.rs:1793-1822 | an active revision of a trade not yet reconciled is pending with its terms, its order ids authoritative and no longer unresolved |
| AccountLedger.LiveAccount.IngestAuthoritativeRemoteTrades | src/engine.rs:1899-1919 | account, journal and count after an ingest: each selected trade is journaled before it is recorded, a conflict stops it, and so does a failed append, with exactly the events before it recorded |
| AccountLedger.LiveAccount.MarkTrades | src/engine.rs:2102-2106 | marks exactly the listed trades reconciled |
| AccountLedger.LiveAccount.CommitAccountReconciliation | src/engine.rs:2078-2109 | commits exactly when there are trades, all in the ledger, and the append works; otherwise memory does not move |
| AccountIngest.EventsToIngestMembers | src/engine.rs:1854-1876 | the events of an ingest are exactly the remote trades that touch a watched order and tell something new |
| AccountMeaning.NewsMeaning | src/engine.rs:1854-1876 | a remote trade is news exactly when the ledger lacks it, holds other terms, or would change its status by taking it |
| AccountMeaning.IngestedMeaning | src/engine.rs:1840-1876 | ingested are exactly the venue's trades that name an owned or unresolved order and are news, with the venue's terms |
| AccountIngest.WatchedAfterIngest | src/engine.rs:1899-1919 | an ingest widens the watched order ids by exactly the ids of the selected trades |
| AccountIngest.StillNews | src/engine.rs:1854-1876 | after an accepted ingest a trade is still news exactly when it was news and touched no watched order |
| AccountIngest.IngestFixpoint | src/engine.rs:1899-1919 | a second ingest of the same snapshot journals and changes nothing exactly when no unseen trade becomes watched only through the first |
| AccountIngest.OneIdPerTradeCloses | src/execution.rs:715-824 | with one order id per trade, as the adapter normalises them, that condition always holds |
| AccountIngest.TwoIdsNeedTwoIngests | src/engine.rs:1854-1876 | a snapshot whose trade names two orders for which it fails |
| AccountIngest.RankNeverFalls | src/engine.rs:2059-2076 | over any accepted run, in any order, no earlier status and no revision outranks the stored one |
| AccountIngest.StatusWasSeen | src/engine.rs:2059-2076 | the stored status is one that was seen, so its rank is the highest seen |
| AccountReconciled.AuthoritativePendingTradeProof | src/engine.rs:1921-1952 | the loop over pending trades computes the proof or its first error |
| AccountReconciled.IdentityMeaning | src/engine.rs:1930-1938 | a remote trade is the pending one exactly when asset, side, price, size and order ids agree |
| AccountReconciled.FeeBandSound | src/engine.rs:1921-1952 | the proof covers exactly the pending trades the venue confirms, and its band encloses their exact rational fees within 0.00002 per trade |
| AccountHoldings.AccountPositionSizes | src/engine.rs:4312-4331 | the loop over position rows computes the normalised sizes or its first error |
| AccountHoldings.PositionSizesMeaning | src/engine.rs:4312-4331 | sizes exist exactly when no row is negative and no total overflows, and are the non-zero totals per asset |
| AccountHoldings.TradeMoves | src/engine.rs:4256-4273 | the loop over pending trades accumulates position and cash deltas with checked arithmetic |
| AccountHoldings.TradeMovesMeaning | src/engine.rs:4256-4273 | the deltas are the signed sizes per asset and the signed, rounded-up notionals of all pending trades |
| AccountHoldings.ExpectedPositions | src/engine.rs:4274-4286 | adds the deltas to the baseline, stopping at the first asset that would go negative |
| AccountHoldings.PendingAccountReconciled | src/engine.rs:4248-4310 | the method equals its specification function on every branch, errors included |
| AccountHoldings.HoldingsMeaning | src/engine.rs:4256-4289 | the position comparison succeeds exactly when every asset holds baseline plus pending trades and no row is negative |
| AccountHoldings.ReconciledMeaning | src/engine.rs:4248-4310 | whenever the test completes, it says yes exactly when trades exist, no order is unresolved, all trades are proved, holdings match and cash lies in the fee band |
| AccountHoldings.EmptyProofNeverReconciles | src/engine.rs:2515-2532 | with the empty proof the test never says yes |
| AccountGate.ReconciledIsConfirmed | src/engine.rs:3211-3231 | a yes against the venue's trades means every pending trade is confirmed there and no asset is off |
| AccountGate.ReconciledCashIsExact | src/engine.rs:4291-4309 | and cash is within 0.00002 per trade of the exact fee arithmetic |
| AccountGate.ReconciledComplete | src/engine.rs:4248-4310 | with totals that leave room in 128 bits the test never errs, so it decides the condition |
| AccountGate.AdmitIntent | src/engine.rs:2515-2544 | an intent is admitted exactly when nothing is pending; otherwise account and journal stay as they are |
| AccountRecovery.ReplayRecords | src/engine.rs:3415-3508 | the first pass over the records, errors included |
| AccountRecovery.ReplayErrorStays | src/engine.rs:3422-3508 | a record that cannot be replayed decides the outcome of every longer journal |
| AccountRecovery.MergedTradeBaselines | src/engine.rs:3523-3536 | collects exactly the pending trades and merges their baselines |
| AccountRecovery.MergedOrderBaselines | src/engine.rs:3537-3547 | merges the baselines of the unresolved orders |
| AccountRecovery.RecoverAccountLedger | src/engine.rs:3415-3565 | the whole recovery equals its specification function |
| AccountRecovery.RecoveredBaselineAgrees | src/engine.rs:3523-3589 | for any journal, a recovered baseline agrees with the one collected for every pending trade and unresolved order |
| AccountReplayed.FirstPass | src/engine.rs:3422-3507 | a journal replays exactly when every record is readable and revisions of one trade differ only in status, and the pass collects just what the records say, whatever their order |
| AccountReplayed.EssenceMeaning | src/engine.rs:3583-3589 | two baselines agree exactly when they are equal but for times, equity, counts and marks |
| AccountReplayed.RecoverMeaning | src/engine.rs:3415-3589 | exactly which journals recover: replayable, nothing settled that was never journaled, one baseline under everything that pends; and to what: the ledger of the records, pending the trades journaled, never settled and never failing, unresolved the reported orders no trade names, latched exactly when some revision is not active |
| AccountMirror.BaselineRecovered | src/engine.rs:3523-3559 | baseline merging gives back the one baseline of the open reconciliation |
| AccountMirror.RecoverRebuilds | src/engine.rs:3415-3565 | recovery of a mirrored journal gives the ledger, the known ids, and the pending trades, orders and baseline in memory |
| AccountMirror.TradePends | src/engine.rs:1793-1826 | a revision of a reconciled trade pends nothing; any other pends exactly that trade |
| AccountMirror.EventKeepsMirror | src/engine.rs:4105-4119 | journaling an event and then recording it keeps journal and memory in agreement, unless the event trips the latch |
| AccountMirror.CommitKeepsMirror | src/engine.rs:2078-2109 | so does a commit with no unresolved order |
| AccountMirror.LifecycleKeepsMirror | src/engine.rs:4120-4166 | so do the lifecycle records of tracked orders |
| AccountRuns.TripKills | src/engine.rs:1772-1788 | an event that trips the latch leaves a journal whose recovery errs or latches |
| AccountRuns.DeadExtends | src/engine.rs:3453-3460 | and so does every journal that extends it |
| AccountRuns.IngestKeepsSound | src/engine.rs:1899-1919 | an ingest of any snapshot keeps: latched with a refused journal, or mirrored |
| AccountRuns.CommitKeepsSound | src/engine.rs:3211-3231 | so does a commit after a completed reconciliation test |
| AccountRuns.RestartKeepsSound | src/engine.rs:413-478 | a restart brings back the same ledger, known ids and pending state, and happens only with a mirrored journal |
| AccountRuns.RunKeepsSound | src/engine.rs:1736-2109 | every run of events, ingests, commits, other records, restarts and interruptions inside a step keeps it |
| AccountRuns.RunRecovers | src/engine.rs:3415-3565 | after every run, while not latched, recovery equals the state in memory and does not latch |
| AccountRuns.RunLatch | src/engine.rs:1772-1788 | without other causes the account is latched exactly when recovery refuses its journal |
| AccountRuns.CrashBeforeRecording | src/engine.rs:4105-4119 | a crash between journaling an event and recording it recovers the state after the event |
| AccountRuns.CrashBeforeCommitting | src/engine.rs:2101-2107 | a crash between journaling a commit and applying it recovers the state after the commit |
| AccountRuns.InterruptionApplies | src/engine.rs:1899-1919 | a crash, or a failed append that stays in the log, at any point of an event, an ingest or a commit: the restart has the account of that step with its journaled part applied, or is refused for good |
| AccountRuns.RecoveredLatch | src/engine.rs:3517-3522 | a successful recovery latches exactly when some journaled trade event was failed or unknown |
| AccountRuns.FailedTradeDiverges | src/engine.rs:1783-1812 | the latched runs on which memory and recovery differ: a pending trade that fails |
| AccountSession.HandleUserEvent | src/engine.rs:1635-1638 | journal first, then record; when an append fails memory has not moved, and a prefix of the event's records is in the log |
| AccountSession.CommitWhenReconciled | src/engine.rs:3226-3231 | snapshot and ledger move only after a yes, the ledger only with the journaled commit; when that append fails the snapshot alone has moved |
| AccountSession.AuditAccount | src/engine.rs:3090-3249 | one audit equals ingest, then latch, observe or commit, or stops at a failed append inside the ingest or the commit |
| AccountMeaning.AuditObserves | src/engine.rs:3186-3210 | an audit that finds nothing to reconcile takes the snapshot exactly when the ingest latched nothing |
| AccountMeaning.AuditReconciles | src/engine.rs:3211-3249 | otherwise, with room in 128 bits: without a fee proof it latches; when the snapshot reflects the pending trades it commits them all and takes the snapshot; when not it changes nothing more |
| AccountSession.AppendStartupAuthoritativeTrades | src/engine.rs:1878-1897 | the loop journals every selected trade with one baseline and returns their ids; on a failure a prefix of them, and the journal is poisoned |
| AccountSession.StartupMatchesIngest | src/engine.rs:1878-1897 | journaling the venue's trades at startup and recovering again gives the account a live ingest would, and refuses exactly when it would latch |
| PaperMath.ReserveDrift | src/paper.rs:917-920 | splitting a buy reservation costs at most 3 raw units, 1 without fees, and never less than nothing |
| PaperMath.DriftIsTight | src/paper.rs:954-959 | both bounds are attained |
| PaperMath.BuyValue | src/paper.rs:684-717 | a buy's rounding loses between zero and 3 units of value plus the new size |
| PaperMath.SellValue | src/paper.rs:719-748 | a sell's rounding loses less than one unit of value |
| PaperMachine.PaperEngine.AvailableCashUsdc | src/paper.rs:750-767 | the checked sum over open buys, taken from cash |
| PaperMachine.PaperEngine.AvailablePositionOf | src/paper.rs:769-793 | the checked sum over open sells of an asset, taken from the position |
| PaperMachine.PaperEngine.SubmitOrder | src/paper.rs:170-226 | the engine after a submission, or unchanged with the reason |
| PaperMachine.PaperEngine.Cancel | src/paper.rs:360-373 | closes one open order |
| PaperMachine.PaperEngine.CancelAll | src/paper.rs:375-386 | closes every open order and lists them in key order |
| PaperMachine.PaperEngine.CancelExpired | src/paper.rs:388-401 | closes the open orders that have expired |
| PaperMachine.PaperEngine.CancelAsset | src/paper.rs:403-416 | closes the open orders of one asset |
| PaperMachine.PaperEngine.PruneTerminalOrders | src/paper.rs:418-422 | keeps exactly the open orders |
| PaperMachine.PaperEngine.Buy | src/paper.rs:684-717 | cash, fees, position and average after a buy |
| PaperMachine.PaperEngine.Sell | src/paper.rs:719-748 | cash, profit, fees and position after a sell |
| PaperMachine.PaperEngine.FillAtPrice | src/paper.rs:614-682 | the engine and the fill after one fill |
| PaperMachine.PaperEngine.ProcessBookWithCancellations | src/paper.rs:233-291 | a whole book update in place |
| PaperMachine.PaperEngine.ProcessTradePrint | src/paper.rs:293-358 | a whole trade print in place |
| PaperMachine.PaperEngine.FlattenAll | src/paper.rs:424-596 | all or nothing: on an error the engine is unchanged |
| PaperInvariant.FillKeepsInv | src/paper.rs:614-682 | one fill keeps the invariant, moves its own order by exactly the quantity, and loses at most the stated value |
| PaperInvariant.OpenSellDeliverable | src/paper.rs:719-748 | an open sell never exceeds its position |
| PaperOrders.SubmitKeepsInv | src/paper.rs:170-226 | an accepted order is covered by free cash or free position, and starts unfilled, unstamped and with its submission time |
| PaperOrders.BuyAccepted | src/paper.rs:170-226 | short of overflow a buy is accepted exactly when it is new, unexpired and covered by cash less the exact reservations, in overdrawn states never |
| PaperOrders.SellAccepted | src/paper.rs:170-226 | a sell exactly when it is new, unexpired and covered by the position less the open sells |
| PaperOrders.AvailableCashMeaning | src/paper.rs:750-767 | free cash is cash less the exact reservations, refused exactly when they exceed it |
| PaperOrders.AvailablePositionMeaning | src/paper.rs:769-793 | free position is the position less the open sells, refused exactly when they exceed it |
| PaperOrders.CancelWhereMeaning | src/paper.rs:375-416 | exactly the orders a filter picks are closed, and nothing else changes |
| PaperMeaning.CancelsMeaning | src/paper.rs:375-416 | closed and listed are exactly the resting orders, those that have expired, or those of the asset; nothing else changes |
| PaperMeaning.CancelOneMeaning | src/paper.rs:360-422 | a single cancellation closes a resting order and no other; pruning keeps exactly the resting orders, as they are |
| PaperOrders.CancelKeepsInv | src/paper.rs:360-416 | cancelling keeps the invariant |
| PaperOrders.PruneKeepsInv | src/paper.rs:418-422 | so does pruning |
| PaperMatching.ParticipationIsFloor | src/paper.rs:950-952 | the participating amount is the floor of the share |
| PaperMatching.ProcessBookSound | src/paper.rs:233-291 | only open, unexpired, crossing orders fill, at their limit and within what remained; all fills of a side stay within the share of the opposite top |
| PaperMatching.ProcessBookOrders | src/paper.rs:233-291 | how every order comes out: filled plus remaining is kept, expired ones are closed and listed |
| PaperMeaning.BookFillCrosses | src/paper.rs:942-948 | a buy filled by a book update has a listed ask at or below its limit, a sell a listed bid at or above |
| PaperMeaning.BookServes | src/paper.rs:233-291 | an order is filled exactly when it is open, live, unstamped, on the book's asset, has a listed level at its limit or better, and its side's share of the best level is not used up by smaller ids; by just that amount, at its limit |
| PaperMeaning.BookOrders | src/paper.rs:233-291 | status, stamp and sizes of every order after a book update |
| PaperMatching.RepeatFillsNothing | src/paper.rs:233-291 | repeating a book version fills nothing, and changes nothing at the same time |
| PaperMatching.SameVersion | src/paper.rs:233-291 | two books count as one version exactly when exchange timestamp and hash agree |
| PaperAllocation.BookAllocation | src/paper.rs:233-291 | a book update fills each order by exactly what its side's share leaves after the fillable orders with smaller ids |
| PaperAllocation.BookExhausts | src/paper.rs:233-291 | the fills of a side are its share or, where that is less, all its orders ask for |
| PaperTrades.ProcessTradeSound | src/paper.rs:293-358 | only orders traded through fill; all fills of one print stay within floor(size * bps / 10000) |
| PaperMeaning.PrintServes | src/paper.rs:293-358 | an order is filled exactly when it is open, live, on the asset and the side the aggressor hits, submitted and last printed before the print, traded through, and smaller ids leave it a share; by just that amount, at its limit |
| PaperMeaning.PrintOrders | src/paper.rs:318-356 | status, sizes and stamp of every order after a print |
| PaperMeaning.PrintIgnored | src/paper.rs:300-315 | a print outside the price range is refused; one without a positive size or a known aggressor changes nothing |
| PaperHeadroom.FillHeadroom | src/paper.rs:614-717 | a buy fill at its limit takes from free cash exactly what splitting its reservation costs |
| PaperHeadroom.FillKeepsCover | src/paper.rs:750-767 | reservations stay within cash after it exactly when the free cash before covers that, which is between nothing and the stated drift |
| PaperHeadroom.BuyFillDecided | src/paper.rs:684-698 | short of overflow a buy fill succeeds exactly when cash covers its cost, and is refused otherwise |
| PaperHeadroom.SellFillSucceeds | src/paper.rs:719-748 | short of overflow a sell fill always succeeds |
| PaperHeadroom.PlansDecided | src/paper.rs:233-291 | planned fills succeed exactly when each buy finds its cost in what the fills before it leave |
| PaperHeadroom.BookDecided | src/paper.rs:233-291 | so a book update succeeds or is refused as a whole |
| PaperHeadroom.CoverAffords | src/paper.rs:917-920 | reservations within cash pay for any fills that plan each order once |
| PaperHeadroom.CoveredBookSucceeds | src/paper.rs:233-291 | no book update is refused for lack of cash while reservations are within cash |
| PaperHeadroom.PrintDecided | src/paper.rs:293-358 | a print that fills sells succeeds, and one that fills buys exactly when cash covers all their costs |
| PaperHeadroom.CoveredPrintSucceeds | src/paper.rs:293-358 | no print is refused for lack of cash while reservations are within cash |
| PaperReprints.RepeatPrint | src/paper.rs:293-358 | a print repeated with its timestamp fills something exactly when the first one passed over an eligible order with its share used up |
| PaperAllocation.TradeAllocation | src/paper.rs:293-358 | a print fills each order by exactly what the share of its size leaves after the eligible orders with smaller ids |
| PaperFlattenProofs.PlansHold | src/paper.rs:614-682 | any execution moves each position by exactly what its fills bought and sold |
| PaperFlattenProofs.PlanAssetSound | src/paper.rs:462-596 | the clips planned for an asset fit the position, the band and the participating share of each level |
| PaperFlattenProofs.FlattenSound | src/paper.rs:424-596 | no open order is left, positions fall by exactly what was sold, each sale is inside the band and share, and per asset nothing or at least the minimum is sold |
| PaperFlattenProofs.LevelSoldOnce | src/paper.rs:462-596 | each bid level is sold into at most once |
| PaperFlattenExact.ClipsExact | src/paper.rs:510-533 | at every price, what is clipped there or better is the participating liquidity there, up to the position |
| PaperFlattenExact.FlattenExact | src/paper.rs:424-596 | a flatten sells exactly that of every held asset, or nothing of it when all it could sell is below the minimum order size |
| PaperFlattenMeaning.FlattenNeedsBooks | src/paper.rs:462-530 | a flatten that succeeds had a tradeable, verified, fresh book with an acceptable bid for every held asset |
| PaperFlattenMeaning.FlattenDecided | src/paper.rs:462-596 | and short of overflow it succeeds exactly then |
| PaperFlattenMeaning.FlattenFillMeaning | src/paper.rs:532-596 | every sale of it is at a listed bid, no lower than the least price allowed below the best |
| PaperRuns.RunKeepsInv | src/paper.rs:170-596 | every run of submissions, updates, prints, cancels, flattens and prunes keeps the invariant |
| PaperLots.FillLot | src/paper.rs:684-748 | a fill moves size, average and realized profit of its asset as the replay says, and no other asset's |
| PaperLots.FillWithinOne | src/paper.rs:684-717 | a fill keeps an average within one exactly when it meets the guard, which a sell always does |
| PaperLots.GuardedExactly | src/paper.rs:684-748 | all fills of a list meet it exactly when the average is within one after each of them |
| PaperLots.FlattenLot | src/paper.rs:424-596 | a flatten leaves each position as the replay of its sales |
| PaperRuns.RunLots | src/paper.rs:170-596 | over every run size, average and realized profit of every asset are the replay of its fills |
| PaperRuns.RunMoves | src/paper.rs:170-596 | over every run positions move by exactly the net fills |
| PaperLedger.FillAccounts | src/paper.rs:614-748 | what one fill does to cash, fees, profit and its order's fees, and how notional and fee are priced |
| PaperLedger.PlansPay | src/paper.rs:614-682 | every order pays exactly the fees of its own fills |
| PaperLedger.RunAccounts | src/paper.rs:170-596 | over every run cash and fees move by exactly what the fills say, and every profit is booked on a position |
| PaperLedger.ReachableAccounts | src/paper.rs:84-596 | from a new engine: cash is the start plus what the fills paid in, fees are theirs, and realized profit is what the positions realized |
| PaperRuns.WholeFillsStayCovered | src/paper.rs:750-767 | a run without a partial buy fill leaves reservations within cash |
| PaperRuns.ReachableSound | src/paper.rs:84-596 | in every reachable state rounding has created no value, reservations exceed cash by at most the drift of the partial buy fills, and open sells are covered |
| PaperRuns.FeeFreeValidates | src/paper.rs:122-158 | without fees no average exceeds the highest price paid and validation accepts every reachable state |
| PaperRuns.BuyValidates | src/paper.rs:122-158 | with fees, validation accepts the state after one buy exactly when the accumulated cost per unit stays under one raw unit above one |
| PaperRuns.RunValidates | src/paper.rs:122-158 | validation accepts what a run leaves, pruned or not, exactly when no average that its fills replay to exceeds one |
| PaperRuns.GuardedRunValidates | src/paper.rs:122-158 | with fees, every state a run reaches from a valid one validates if every buy fill meets the guard |
| PaperFailures.FeesCanBreakValidation | src/paper.rs:684-717 | a submission and a print after which validation fails |
| PaperFailures.PartialFillOverdrawsReserve | src/paper.rs:750-767 | a submission and a print after which reservations exceed cash |
| PaperFailures.OverdrawnFillRefused | src/paper.rs:684-698 | the next print is then refused |
| PaperFailures.RepeatedPrintFillsAgain | src/paper.rs:293-358 | a run in which the same print fills twice |
| PaperCommit.RecoverPaperEngine | src/engine.rs:3369-3406 | the last transition of a dedicated journal, refused on another configuration or an invalid state |
| PaperCommit.RecoverMeaning | src/engine.rs:3369-3406 | a recovery yields an engine exactly when all records are transitions and the last holds it with schema 1, these settings and a valid state, field by field; without records, a new engine |
| PaperCommit.CommitPaperTransition | src/engine.rs:3334-3367 | engine and journal after a commit, and every disk a crash in it can leave |
| PaperCommit.AppendStores | src/engine.rs:3302-3332 | a disk left by the append holds the engine before or after it |
| PaperCommit.CompactStores | src/journal.rs:468-538 | no crash during the compaction loses or changes the committed engine |
| PaperCommit.CommitOutcome | src/engine.rs:3334-3367 | Ok means durable; an error keeps the engine in memory, and a rollback keeps the disk |
| PaperCommit.CommitStored | src/engine.rs:3302-3367 | after a commit that succeeds the last line holds the whole transition, after the old lines, or alone once a compaction due from 512 records or the byte limit goes through |
| PaperCommit.CommitCrashSafe | src/engine.rs:3334-3367 | at every crash point the disk opens and holds the engine before or after |
| PaperDurability.StagedIsSane | src/engine.rs:3334-3345 | what is committed is an engine the matching rules can produce |
| PaperDurability.CrashRecovers | src/engine.rs:3369-3406 | reopening at any crash point gives the engine before the interrupted commit or the one after |
| PaperDurability.RunKeepsSound | src/engine.rs:3302-3406 | over every run of commits, failures, compactions, crashes and restarts the disk stays recoverable |
| PaperDurability.SessionRecovers | src/engine.rs:3369-3406 | from an empty journal, recovery always succeeds and gives the engine in memory while the journal is not poisoned |
| Journal.VerifyReader | src/journal.rs:579-620 | the loop computes the verification or its first error |
| Journal.VerifyMeaning | src/journal.rs:579-620 | accepted are exactly the logs of sound lines, numbered from zero and linked by their hashes, whose checkpoint names one of their prefixes |
| Journal.Journal.constructor | src/journal.rs:218-245 | an opened journal takes its position from the verified disk |
| Journal.Journal.WriteCheckpoint | src/journal.rs:650-681 | replaces the checkpoint atomically or not at all |
| Journal.Journal.RollbackUncommitted | src/journal.rs:428-442 | truncates to the old length where it can and always poisons |
| Journal.Journal.AppendEvent | src/journal.rs:344-418 | state, result and every crash disk of an append |
| Journal.Journal.CompactPaperHistory | src/journal.rs:468-538 | state, result and every crash disk of a compaction, checkpoint first |
| Journal.Journal.RecordsLocked | src/journal.rs:251-272 | the records exactly when the disk verifies |
| Journal.AppendCrashSafe | src/journal.rs:344-442 | every crash disk of an append verifies, and an unpoisoned journal stays in step with its disk |
| Journal.AppendMeaning | src/journal.rs:344-418 | an append commits exactly when nothing before the checkpoint fails, and then the new last line holds the entry, its place in the chain and its time |
| Journal.CommitVerifiesIffComplete | src/journal.rs:132-154 | a committed append leaves a verifying log exactly when the required fields are not empty |
| Journal.EmptyClientIdBreaksLog | src/journal.rs:132-154 | a committed append after which the log does not verify |
| Journal.FailedAppend | src/journal.rs:420-442 | a failed append poisons, and a successful truncation restores the disk |
| Journal.CompactCrashSafe | src/journal.rs:468-538 | every crash disk of a compaction verifies |
| Journal.CompactMeaning | src/journal.rs:468-538 | a compaction goes through exactly when every step up to the rename does, a missing checkpoint being no failure, and leaves the one new record; otherwise log and position stay |
| Journal.RenameBeforeRemove | src/journal.rs:507-516 | with the old checkpoint still there the compacted log would be accepted only in two corner cases |
| Journal.RunKeepsInv | src/journal.rs:344-538 | no run of appends, compactions, failures and crashes leaves a disk that cannot be reopened |
| WriteAhead.HexBytes | src/execution.rs:1337-1345 | the loop writes two lower-case digits per byte |
| WriteAhead.UnhexHex | src/reconcile.rs:232-239 | decoding undoes encoding for every byte string |
| WriteAhead.UnhexDefined | src/reconcile.rs:248-257 | decoding accepts exactly the digit strings, in either case |
| WriteAhead.HexUnhex | src/reconcile.rs:232-239 | encoding what was decoded gives the digits in lower case |
| WriteAhead.PayloadRoundTrip | src/reconcile.rs:221-246 | the asset read from a payload is the one written, whatever the other fields hold; only an empty id is refused |
| CrashRecovery.GroupAttempts | src/reconcile.rs:259-270 | the loop groups the records by client order id |
| CrashRecovery.GroupMeaning | src/reconcile.rs:259-270 | an attempt is every record of its id from the first write-ahead record on |
| CrashRecovery.UnlockMeaning | src/reconcile.rs:85-168 | unlocking means all state loaded, every attempt without a rejection, fill or cancellation known to the venue, every open order named by such an attempt |
| CrashRecovery.ReportCounts | src/reconcile.rs:57-168 | the report counts the records and the attempts without a rejection, fill or cancellation |
| CrashRecovery.RecoverOpenOrderMappings | src/reconcile.rs:178-219 | the loop over attempts computes the mapping or its first error |
| CrashRecovery.MappingsDefined | src/reconcile.rs:187-209 | it fails exactly when a pending attempt that names an open order has an unreadable first record |
| CrashRecovery.OwnedIsMapped | src/reconcile.rs:178-219 | the latest open id of every pending attempt is a key |
| CrashRecovery.MappedIsOwned | src/reconcile.rs:178-219 | every key is the latest open id of a pending attempt |
| CrashRecovery.UnlockedMappingsCover | src/reconcile.rs:85-219 | after an unlock the keys are the venue's open orders when each pending attempt has one open id, and only then if attempts share none |
| CrashRecovery.RecoveredFromWriteAhead | src/reconcile.rs:187-217 | time and asset of a recovered order come from its attempt's write-ahead record |
| CrashRecovery.RecoveredAssetIsWritten | src/reconcile.rs:204-246 | that asset is the one written ahead |
| CrashRecovery.UnresolvedMeansPending | src/reconcile.rs:57-75 | listed for a status lookup are exactly the attempts without a rejection, fill or cancellation that name an exchange id |
| CrashRecovery.UnresolvedCarries | src/reconcile.rs:57-83 | a listed attempt carries the names in its first record and the last exchange id given to it |
| CrashRecovery.TerminalRecordSettles | src/engine.rs:3954-3982 | appending a rejection, a fill or a cancellation takes its attempt off the list and out of flight, and changes no other |
| SubmitProtocol.RunKeepsInv | src/execution.rs:1104-1245 | every run of submissions, results, lifecycle records and restarts keeps the protocol's invariant |
| SubmitProtocol.VenueOrdersWrittenAhead | src/execution.rs:1118-1175 | no order reaches the venue without a journaled write-ahead record |
| SubmitProtocol.LifeRuns | src/execution.rs:1104-1245 | in any state a new order can be written ahead, placed, acknowledged and closed, and what that journals and tracks |
| SubmitProtocol.UnansweredBlocks | src/reconcile.rs:122-133 | a client order without a recorded answer keeps a restart locked, whatever the venue reports |
| SubmitProtocol.OpenKeepsUnlock | src/reconcile.rs:85-168 | an acknowledged order that is open at the venue does not change whether a restart unlocks |
| SubmitProtocol.ClosedKeepsUnlock | src/reconcile.rs:85-168 | nor does an order that was filled or cancelled, whatever the venue reports |
| SubmitProtocol.UnlockedRestartCovers | src/engine.rs:380-387 | when a restart unlocks, the tracked orders are exactly the venue's open orders, each under its own client order id |
| Book.UpsertLevel | src/book.rs:12-22 | inserts, overwrites or deletes one price in place |
| Book.UpsertMap | src/book.rs:12-22 | which is one update of the price-to-size map |
| Book.ListingUnique | src/book.rs:5-10 | a map has one strictly sorted listing in each direction |
| MarketEvents.OrderBook.SortAndRefreshTop | src/book.rs:5-10 | sorts both sides and takes the heads |
| MarketEvents.OrderBook.ApplyLevelChange | src/book.rs:24-30 | changes one level and refreshes |
| MarketEvents.OrderBook.InvalidateOnError | src/market_ws.rs:605-610 | an error stops trading |
| MarketEvents.OrderBook.ApplyMarketEvent | src/market_ws.rs:414-603 | the book after any event, and the outcome |
| MarketEvents.ValidateSnapshotLevels | src/market_ws.rs:628-654 | the loops over both sides find the first error |
| MarketEvents.ValidateDeltaLevels | src/market_ws.rs:656-681 | the loop over changes finds the first error |
| BookProofs.SnapshotAccepted | src/market_ws.rs:628-681 | accepted are exactly snapshots with bounded, valid, distinct levels and every bid below every ask |
| BookProofs.EventRefines | src/market_ws.rs:414-603 | list book and map book accept the same events with the same outcome and contents |
| BookProofs.RunRefines | src/market_ws.rs:414-603 | over every feed |
| BookProofs.ListsAreListings | src/book.rs:5-30 | after every feed the lists are the one descending and the one ascending listing of the replayed maps, and what trading requires holds |
| BookProofs.SnapshotOrderIrrelevant | src/market_ws.rs:421-451 | the order in which a snapshot lists its levels does not matter |
| BookProofs.RunMonotone | src/market_ws.rs:414-603 | the exchange timestamp never falls, and trading resumes only through a snapshot |
| BookProofs.DeltaSides | src/market_ws.rs:452-514 | an accepted delta keeps a side exactly when some price of it keeps a size once the last change at each price is taken |
| MarketMeaning.DeltaAccepted | src/market_ws.rs:451-514 | a delta that names the asset is accepted exactly when the book is tradeable and verified, the delta in time, its last change hashed, its changes valid, and what they leave consistent |
| MarketMeaning.DeltaWrites | src/market_ws.rs:451-514 | after it the size at every side and price is that of the last change of the asset there, the old one where there is none; the hash is that of the last change of the asset |
| MarketMeaning.DeltaElsewhere | src/market_ws.rs:457-464 | a delta that names the asset nowhere changes nothing |
| MarketMeaning.ChangedTops | src/market_ws.rs:492-514 | the best prices the changes leave, and when they cross |
| MarketMeaning.SnapshotMeaning | src/market_ws.rs:420-450 | a snapshot is accepted exactly when it is in time, hashed, and its sides are valid and do not cross; it then replaces the book |
| MarketMeaning.TickMeaning | src/market_ws.rs:515-537 | a tick-size change is accepted exactly when it is in time, positive and starts from the book's; trading then stops |
| MarketMeaning.TopMeaning | src/market_ws.rs:538-561 | a top of book older than the book is ignored; any other must be from the past, aligned and the book's own, or trading stops |
| MarketMeaning.LastTradeMeaning | src/market_ws.rs:562-590 | a last trade older than the book or not newer than the one known is ignored; any other must be valid, or trading stops |
| MarketMeaning.ElsewhereMeaning | src/market_ws.rs:591-601 | an event that names another asset changes nothing; a resolution stops trading |
| BookProofs.TradeableWithOneSide | src/market_ws.rs:452-514 | a feed after which a tradeable book has no bid |
| MarketBatch.MarketDesk.HandleEvent | src/engine.rs:1044-1147 | books and repair sets after one event of a batch |
| MarketBatch.MarketDesk.HandleBatch | src/engine.rs:990-1287 | books, repair set and reply of a whole batch |
| MarketBatch.EffectMeaning | src/engine.rs:1044-1147 | one event changes only the books it names, and counts as a breakage when such a book refuses it or a tick-size change stops trading, as a repair when a snapshot makes it tradeable with a hash |
| MarketBatch.AcknowledgedIsOutstanding | src/engine.rs:1279-1283 | the reply is exactly the configured assets that some event broke with no later one clearing them: refused by the book, or a tick-size change that stopped trading; cleared by a snapshot that made the book tradeable or a resolution; they stay under repair |
| MarketBatch.RefusalBreaks | src/engine.rs:1044-1147 | a refused event always counts as a breakage and stops trading |
| FeeBounds.FeeEnvelope | src/engine.rs:1954-2042 | the bounds enclose the exact rational fee, are multiples of 0.00001 and at most 0.00002 apart |
| FeeBounds.FeeBoundsDefined | src/engine.rs:1954-1994 | bounds exist only for a positive size, a price strictly between 0 and 1 and a rate of 0 to 10 000 basis points, and always for those while the size times the largest rate fits |
| FixedPoint.MulTruncates | src/fixed.rs:24-30 | the scaled product rounded toward zero, whatever the signs, defined exactly when the unscaled product is in range |
| FixedPoint.MulCeil | src/fixed.rs:35-49 | ceiling of the scaled product |
| FixedPoint.FloorToDecimals | src/fixed.rs:111-121 | the largest coarser value not above the input |
| Decimal.Fmt | src/fixed.rs:220-233 | the printing loop |
| Decimal.FromStr | src/fixed.rs:127-174 | the parsing loops |
| Decimal.ParseLiteral | src/fixed.rs:124-175 | every decimal literal with at most six fractional digits parses to its exact value, signed or not, or overflows |
| Decimal.ParseAccepts | src/fixed.rs:124-175 | accepted are exactly literals that fit, after white space, one minus and, on a non-empty whole part, one more sign |
| Decimal.ReadsParses | src/fixed.rs:124-175 | and their value: the fraction is added to the signed whole part, and the first minus negates the sum |
| Decimal.DoubleMinus | src/fixed.rs:133-146 | a second minus is accepted on every whole part in range, the fraction then counts against it, and the result is the number after the signs exactly when the fraction is zero |
| Decimal.PrintParse | src/fixed.rs:124-233 | parsing what was printed gives the value back, for every value but the minimum |
| Decimal.PrintInjective | src/fixed.rs:219-233 | distinct values print differently |
| Decimal.PrintIsCanonical | src/fixed.rs:219-233 | at most six fractional digits and no trailing zero |
| RateLimit.SlidingWindowRateLimiter.TryAcquire | src/rate_limit.rs:23-30 | queue and answer after a request |
| RateLimit.SlidingWindowRateLimiter.RetryAfterMs | src/rate_limit.rs:32-42 | queue and answer after a retry query |
| RateLimit.SlidingWindowRateLimiter.EvictExpired | src/rate_limit.rs:44-52 | the loop drops exactly the expired head |
| RateLimit.WindowBound | src/rate_limit.rs:23-52 | with a clock that never goes back, no window holds more than the limit |
| RateLimit.AdmitsIffRoom | src/rate_limit.rs:23-30 | a request is accepted exactly when fewer than the limit of all those accepted before are less than a window old |
| RateLimit.QueueWithinLimit | src/rate_limit.rs:23-52 | the queue never outgrows the limit, whatever the clock does |
| RateLimit.RetryAfterOverflows | src/rate_limit.rs:32-42 | an accepted time after which the answer is 0 and nothing later is admitted |
| RateLimit.RetryAfterIsLeastWait | src/rate_limit.rs:32-42 | after a refusal the answer is the least wait that is admitted, exactly when the sum fits in 64 bits |

## Left out

- WebSocket and REST sessions, tasks, channels, time-outs and reconnect back-off: remote snapshots, events and clock values are arbitrary inputs.
- File locking, permissions, directory syncs, BLAKE3 and serde: a disk of whole lines with a checkpoint, any hash function, an encode/decode pair. Torn lines are not modelled.
- The order-check chain, compliance, readiness and heartbeat gates, behaviour and wallet-copy policies, GUI, dashboard, configuration and discovery: outcomes settled by reading one branch.
- Negative-risk markets and live order signing.
- Texts of log and error messages, event logging, latency figures, and those fields of orders, fills and snapshots that no decision reads.
- The paper methods that return an error may leave the source's engine partly changed; callers work on a clone and drop it, so the model keeps no such state.
- Errors of paper cancellations inside a market batch, which abort the batch before its reply.
- AccountLedger.AccountJournal.Append: the account's journal is its decoded records; the crash points inside one append are those of `Journal`.
- FixedPoint.FloorToDecimals: the source's last multiplication is unchecked; where it would leave the range the model errs instead.
- SubmitProtocol.RunKeepsInv: takes from the venue adapter that an id it reports belongs to that order.
- AccountRuns.RunRecovers: leaves out `authoritative_order_ids`, which recovery replaces by all known order ids, and the owned order ids, which come from other records.
- PaperHeadroom.BookDecided: leaves out where 128-bit arithmetic overflows; its room condition bounds cash, profit, fees and sizes far below that.
