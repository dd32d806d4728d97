# Verification model of the probe centre

A Dafny model of the stateful core of the server: points ledger, shop and
donation rewards; node presence, uptime and maintenance; the WebSocket request
protocol and the speed-test pipe; sample aggregation and rate limiting. Time is
counted in integer nanoseconds, points are mathematical integers, strings are
sequences of bytes.

`dafny verify dfyconfig.toml` checks everything.

## How it is built

Each source file becomes one or more modules. What a transaction, a step or a
request does to the tables is written as a function on plain values; the
classes carry it out statement by statement on their own fields, with loops,
guarded updates and rollback, and are proved equal to it. The theorems are
about those functions over all runs. Where goroutines or requests overlap, the
steps between two lock sections, channel operations or transactions are the
events of a run, in any order.

| files | part of the server |
|---|---|
| Options, Arith, Text | shared helpers |
| Keys, Points, PointOps, Checkin | points_core.go, points_routes.go: ledger, idempotency keys, check-in, sign-up, probe cost |
| Shop, ShopProofs, ShopStore, OrderRace, OrderFacts, Conservation, Redeem | shop_core.go, points_routes.go: orders, stock, cards, refunds, product edits, redeem codes and their races |
| Presence, Notices | presence.go and the OTA timeout: online flag, event log, grace timer, notices |
| Calendar, Measure, Uptime, UptimeProofs, History, OnlineTime, DownCounts | uptime.go: reconstruction of outages and the arithmetic on them |
| Maintenance, Credit, Donations, Settlement, DonationRuns, DonationFacts | maintenance.go, donate.go: windows, sampled credit, reviews, daily settlement |
| Waiters, Peers, Frames, Pipe, SpeedGate | ws.go, speedtest.go: request correlation, connection replacement, frames, download pipe, admission |
| Sla, SlaSpec, RateLimiter | sla_eval.go, util.go: judging and aggregating samples, rate limiting |

## Where the code does not do what one would expect

These are proved, each with the exact condition or a concrete run:

- A product whose price is 0 can never be ordered and a check-in worth 0 points
  always fails, because a change of 0 is refused (`ShopProofs.AcceptedIffPriced`,
  `Checkin.AnnouncedIsPaid`).
- An Idempotency-Key whose stored form exceeds 128 bytes blocks a repeat but
  is answered with a conflict instead of the first result (`PointOps.KeyBooksOnce`).
- An outage shorter than the grace delay is reported after all when an OTA
  timeout of the same node falls into it (`Notices.SilentUnlessOtaTimeout`).
- An outage that began under maintenance is reported when an OTA update sent to
  the node then runs out of time, and its end is never announced
  (`Notices.MaintenanceSwallowsRecovery`).
- An outage that begins and ends at the very instant the window ends is counted
  by the window and by none of its days (`DownCounts.DaysCountOutages`,
  `DownCounts.AnOutageNoDayCounts`).
- Editing a product writes back every column that was read before, so an order
  placed in between loses its stock and sold updates
  (`Conservation.SaveConserves`, `Conservation.StaleSaveBreaksConservation`).
- Editing a donation checks its status and then writes `pending` unguarded, so an
  approval in between leaves a pooled donation pending
  (`DonationRuns.ApprovedIffPooled`, `DonationRuns.EditOvertakesApproval`).
- A chunk the node sends after its result can end up in the download
  (`Pipe.BodyIsExact`, `Pipe.EitherWay`).
- The eviction loop can mark a node offline that has just reconnected
  (`Peers.FlagAgreesUnlessMarked`, `Peers.EvictionHidesAConnectedNode`).
- A speed-test result without data and with status 200 is relayed as 502, as
  written in the code (`Pipe.NoTailLoss`).

## Model

| member | source | states |
|---|---|---|
| `Keys.KeysInjective` | points_core.go:169-175 | A stored key determines the operation it was built for: the seven key families (sign-up, check-in, donation bonus, donation day, refund, API grant, API deduct) are pairwise disjoint and each is injective. |
| `Keys.TruncationKeepsFamily` | points_core.go:206-209 | Cutting a key to its 128-byte column never moves it into another family. |
| `Keys.InternalKeysFit` | points_core.go:206-209 | Every key the server builds itself fits the column, so only keys from the Idempotency-Key header can be cut. |
| `Keys.KeyTexts` | points_core.go:272-273 | The text of each key with one part, as it is stored. |
| `Keys.DayKeyTexts` | points_core.go:343-344 | The text of the two keys that carry a day. |
| `Points.Ledger.ApplyPoints` | points_core.go:162-217 | The verdict and the tables of every branch, including what a refused change has already written: nothing, the user's empty account, or the moved account without its row. A duplicate leaves the tables unwritten exactly when the full key is stored, so callers that swallow it commit no unbooked change. |
| `Points.Ledger.ChangePoints` | points_core.go:219-228 | One change in its own transaction: applied as a whole or nothing changes. |
| `Points.CommitKeepsInv` | points_core.go:162-228 | Every operation keeps the ledger invariant; a refused one returns the bank unchanged. |
| `Points.LedgerOverRuns` | points_core.go:162-228 | Every sequence of operations keeps the ledger invariant. |
| `Points.LedgerFromEmpty` | points_core.go:162-228 | After any sequence of operations from an empty database each balance is non-negative and equals both the sum of the user's deltas and earned minus spent, each BalanceAfter is the prefix sum at its row, and no key is booked twice. |
| `Points.LedgerOnlyGrows` | points_core.go:203-215 | Ledger rows are never changed or removed. |
| `Points.TotalsFromEmpty` | points_core.go:180-192 | In every run from an empty database total_earned is the sum of the user's positive changes, total_spent minus the sum of the negative ones, and neither ever goes down. |
| `Points.ChangeGoesThrough` | points_core.go:162-217 | The complete condition under which a change goes through (a user, an amount, an unused key, a balance that stays non-negative), and then the row it writes and that only this user's balance moves, by the amount. |
| `PointOps.BookedKeyBlocks` | points_core.go:169-216 | A booked key blocks every later operation under it, whatever happened in between; the booked row is found again exactly when the key fits its column. |
| `PointOps.KeyBooksOnce` | points_routes.go:721-736 | A second API call under the same Idempotency-Key never moves points; it is answered with the first call's row if and only if the stored form of the key has at most 128 bytes, otherwise with a conflict or a refusal. |
| `PointOps.ApiChange` | points_routes.go:701-742 | Reply and tables of a grant or deduct call in all branches, including replay and conflict. |
| `PointOps.ApiMovesPoints` | points_routes.go:699-746 | Grant adds the amount and deduct takes it, with a row of the matching kind and no effect on other users; with its key unused a grant always goes through and a deduct fails if and only if the balance is below the amount; amounts outside 1 to 10^9 are refused. |
| `PointOps.HeaderKeyIs` | points_routes.go:720-723 | The stored form of an Idempotency-Key. |
| `PointOps.SignupPaysOnce` | points_core.go:267-276 | However often a user is registered, the bonus is paid once. |
| `PointOps.SignupPays` | points_core.go:267-276 | While no bonus is booked under the user's key, granting it adds exactly the bonus, in a row of its kind. |
| `PointOps.ChargeProbeCost` | points_core.go:356-372 | What is taken, whether the probe may run, and that administrators and the static token pay nothing. |
| `PointOps.ProbeRoundTrip` | points_core.go:356-382 | Charging takes the cost, giving back leaves every balance as it was, with the two rows of their kinds. |
| `Checkin.LastOf` | points_core.go:299-300 | The user's row with the latest day, none exactly when the user has none. |
| `Checkin.Checkins.DoCheckin` | points_core.go:313-351 | Row and points are written together or not at all, in every branch. |
| `Checkin.CheckinKeepsEntries` | points_core.go:322-338 | A new row extends the maximal run of days that ends there, and earlier rows keep theirs. |
| `Checkin.CheckinKeepsKeys` | points_core.go:340-344 | A check-in key is booked only together with its row. |
| `Checkin.StreaksOverRuns` | points_core.go:313-351 | In every run under a clock that does not go back a user has at most one row per day and each streak is the length of the maximal run of check-in days ending there. |
| `Checkin.AnnouncedIsPaid` | points_core.go:294-351 | The points announced to a user who has not checked in are paid at that moment if and only if they are positive; an announcement of 0 ends in an error and leaves no row. |
| `Checkin.PointsGrowWithStreak` | points_core.go:282-291 | The first day pays the base, every further day of the streak the bonus more until the cap; a cap of 0 means none. |
| `Checkin.AnnouncedIsState` | points_core.go:293-311 | The page says whether the user has checked in today and the length of the run of days that ends today or yesterday. |
| `Checkin.PaidIff` | points_core.go:313-351 | The complete condition under which a check-in is paid. |
| `ShopProofs.PlaceKeepsInv` | shop_core.go:252-344 | placeOrder keeps the shop invariant (ledger, counters, limits, order numbers, charges, cards), whether it commits or is refused. |
| `ShopProofs.FinishKeepsInv` | shop_core.go:348-391 | So does finishOrder when the status has changed since it read the order. |
| `ShopProofs.RefundGoesThrough` | shop_core.go:380-384 | The refund of an open order is never a duplicate and never refused. |
| `ShopProofs.SoldCovers` | shop_core.go:379 | The guard sold >= quantity never blocks for an open order as long as the sold counters are in order. |
| `ShopProofs.TakeOwned` | shop_core.go:293-308 | Taking q cards gives the order exactly the first q unused cards of the product in id order and touches no other order's cards. |
| `ShopStore.Store.AssignCard` | shop_core.go:300-307 | The guarded update of one card and whether it hit a row. |
| `ShopStore.Store.AllocateCards` | shop_core.go:291-311 | The allocation loop falls short exactly when fewer than q unused cards exist; otherwise it assigns the first q of them and collects their contents in id order. |
| `ShopStore.Store.PlaceOrder` | shop_core.go:252-331 | The whole transaction, statement by statement with rollback, equals the all-or-nothing outcome, with the error of every branch. |
| `ShopStore.Store.FinishOrder` | shop_core.go:348-391 | The same for finishing an order, including a refund swallowed as duplicate. |
| `ShopStore.RefundDuplicate` | shop_core.go:380-384 | A refund refused as a duplicate was noticed before any write. |
| `ShopProofs.AcceptedIffPriced` | shop_core.go:277-328 | A request that meets every other requirement (product on sale, within the limit, in stock, number unused, balance sufficient) is accepted if and only if the price is positive; at price 0 the charge of 0 is refused and everything is rolled back. |
| `OrderFacts.AcceptedIff` | shop_core.go:252-331 | The complete condition under which an order is accepted, in the fields of request, product, orders, cards and balance. |
| `OrderFacts.RefusalIsTrue` | shop_core.go:252-331 | A refused order is told a reason that applies. |
| `OrderFacts.AcceptedOrderIs` | shop_core.go:276-331 | What an accepted order holds: its terms from the request and the product row, processing for webhook, pending for manual, delivered with the first unused cards for cdk; it is appended, and stock and sold move by its quantity. |
| `OrderFacts.LiveQtyCounts` | shop_core.go:269-275 | What counts against a user's limit: that user's orders of that product that have neither failed nor been cancelled. |
| `OrderFacts.ContentReadsBack` | shop_core.go:312 | The delivered text determines the cards: one a line, in order. |
| `OrderFacts.FinishesIfOpen` | shop_core.go:348-373 | Finishing goes through exactly for an open order, otherwise nothing changes. |
| `OrderFacts.FinishSetsOutcome` | shop_core.go:356-373 | A delivery stores its content, a failure or cancellation leaves the content alone; nothing else of the order and no other order changes. |
| `OrderFacts.FinishGivesBack` | shop_core.go:374-385 | A failed or cancelled order gives its total back and restocks its product. |
| `OrderFacts.DispatchAfterPlacing` | shop_core.go:334-336 | A dispatch right after placing posts a webhook order to its delivery interface and leaves every other kind alone. |
| `OrderFacts.HookDecides` | shop_core.go:479-508 | If nobody comes in between, content answered by the delivery interface is delivered, an error or a rejection fails the order and gives the points back, and "pending" leaves it processing. |
| `OrderFacts.CallbackDelivers` | points_routes.go:811-835 | A delivery callback delivers an open order and leaves a closed one as it is. |
| `OrderFacts.RequestDecides` | points_routes.go:636-669 | An administrator's delivery or cancellation, or a reported failure, does to an open order what it asks for. |
| `OrderFacts.EditSetsPrice` | points_routes.go:506-527 | An uninterrupted edit changes price and switch and nothing else. |
| `OrderFacts.ProductIsAdded` | points_routes.go:478-503 | A new product comes as entered, with nothing sold; negative price, limit or stock below -1 is refused. |
| `OrderFacts.ImportedCardIsLast` | points_routes.go:443-456 | An imported card joins the unused ones of its product, behind them. |
| `OrderFacts.DroppedCardIsGone` | points_routes.go:625-634 | A card is deleted exactly if it is unused; all others stay. |
| `OrderRace.RunKeepsInv` | shop_core.go:348-402 | Any interleaving of orders, dispatches, retries, callbacks, admin actions, product edits (read, then save of every column) and point operations keeps the invariant, and nothing settled at any moment changes later. |
| `OrderRace.StepKeepsCallers` | shop_core.go:479-508 | What each dispatcher, callback or admin has read or won stays true while the others move. |
| `OrderRace.StepKeepsHistory` | shop_core.go:371-373 | The guarded update lets at most one transition of an order through. |
| `OrderRace.OneTerminalTransition` | shop_core.go:348-402 | Two callers that both closed an order are the same caller, and the order shows that caller's outcome: delivered with exactly its content, or failed or cancelled with none. |
| `OrderRace.ClosedForGood` | shop_core.go:354-373 | A closed order keeps its status and content through every continuation of the run. |
| `OrderRace.ChargedOnceRefundedOnce` | shop_core.go:325-384 | In every run an order has exactly one charge of its total, and one refund of its total exactly when it failed or was cancelled. |
| `OrderRace.LimitsOverRuns` | shop_core.go:269-275 | In every run, stale saves included, nobody's live quantity of a product exceeds its limit and a product keeps its kind and limit. |
| `Conservation.SaveConserves` | points_routes.go:506-527 | Saving an edited product conserves stock and sold count if and only if the copy read before still has the stored stock and sold count. |
| `Conservation.ShopConservation` | shop_core.go:269-379 | In every run in which no save of a product is stale, sold is the quantity of the live orders and limited stock plus live quantity is constant. |
| `Conservation.OrderDuringEditIsForgotten` | points_routes.go:513-527 | In any shop, saving a product after an order was placed during its edit leaves sold short by exactly that order's quantity and puts its stock back. |
| `Conservation.StaleSaveBreaksConservation` | points_routes.go:513-527 | A run from an empty shop in which that happens. |
| `OrderRace.CardAllocation` | shop_core.go:291-312 | In every run a delivered cdk order owns exactly its quantity of cards, its content is theirs in id order, and an owned card never changes again. |
| `OrderRace.BankOverShopRuns` | shop_core.go:325-384 | The ledger invariant holds in every reachable shop. |
| `Redeem.Codes.RedeemCode` | shop_core.go:142-191 | Reply and tables of one call; a refusal after the first write is rolled back. |
| `Redeem.CodesPayOnce` | shop_core.go:163-186 | With the checks and the writing part of calls interleaving freely, a code is used at most max_uses times and once per user, used_count is the number of its uses, and the ledger has one row of its points for each. |
| `Redeem.RedeemsIf` | shop_core.go:142-191 | The complete condition under which an uninterrupted call redeems a code, and that the user then gets the code's points and one use is counted; otherwise nothing changes. |
| `Redeem.RefusalIsTrue` | shop_core.go:142-172 | A refused call is told a reason that applies. |
| `Redeem.SwitchedIs` | points_routes.go:282-296 | The switch turns a code on or off and changes nothing else. |
| `Redeem.FindCodeFinds` | shop_core.go:144-148 | A code is found by its text whenever there is one. |
| `Redeem.IssuedIs` | points_routes.go:315-361 | A new code carries the points, uses and expiry asked for, at least one use, and has not been used. |
| `Presence.Tracker.RecordNodeOnline` | presence.go:48-102 | Table, event log, flags, timer and recovery notice after a node came online. |
| `Notices.RecoveryFollowsDown` | presence.go:64-101 | In every run from an empty node table a recovery notice follows the down notice of the same outage. |
| `Notices.RecoveryIff` | presence.go:48-101 | In every run, a node coming back online is announced in that very step if and only if its outage was reported, its grace timer is no longer pending and neither an OTA update nor maintenance exempts it. |
| `Notices.DownIff` | presence.go:125-137 | The exact condition for a down notice: the timer of a lasting outage came due, or an OTA task of an offline node ran out of time. |
| `Notices.OutageIsAnnounced` | presence.go:104-140 | One outage from beginning to end: announced at both ends once the timer fired 20 seconds in or later, at neither end before that, under maintenance or during an OTA update. |
| `Notices.OtaOutageIsAnnounced` | ota.go:176-190 | An outage during an OTA update is announced if and only if the update is older than 15 minutes when the reconciler looks, and then its end is too. |
| `Notices.EndedUpdateExemptsNothing` | ota.go:62-96 | An OTA update exempts its node while it is in flight and no longer once it has ended. |
| `Notices.MaintenanceSwallowsRecovery` | presence.go:54-63 | A run in which an outage that began under maintenance is reported by an OTA timeout and its end is not announced. |
| `Notices.SilentUnlessOtaTimeout` | presence.go:104-140 | An outage that ends while its grace timer is pending is never mentioned, if and only if no OTA timeout reported the node during that outage. |
| `Notices.ShortOutageIsSilent` | presence.go:54-63 | If no timer is more than 820 seconds late and OTA tasks are stored within a minute of their dispatch, such an outage is always silent. |
| `Notices.StalledTimerIsNotSilent` | ota.go:182-188 | Without that assumption it can fail: for any node, a run in which a stalled timer lets the OTA timeout report first. |
| `Calendar.DayOf` | uptime.go:177-178 | The local day in which an instant lies. |
| `Uptime.UptimeForNode` | uptime.go:88-122 | The loop over the events computes the intervals and the start of existence of the recursive definition. |
| `Uptime.BuildUptimeStats` | uptime.go:145-173 | Counting start, seconds, clamped offline seconds and down count in every branch. |
| `Uptime.DayBuckets` | uptime.go:175-191 | The loop over the days yields the non-empty parts of the window on each day. |
| `Uptime.FillUptimeDaily` | uptime.go:193-207 | Every bucket in place gets its offline seconds and down count from all intervals. |
| `Uptime.NodeOnlineSeconds` | uptime.go:209-221 | Online seconds of a known node, 0 for an unknown one. |
| `UptimeProofs.ByTimeSorts` | uptime.go:76-78 | The loaded events are in time order. |
| `UptimeProofs.ByTimeKeeps` | uptime.go:76-78 | Ordering them loses and invents none. |
| `UptimeProofs.IntervalsAreChain` | uptime.go:88-122 | For any log at all, the rebuilt intervals are sorted, disjoint and inside the window. |
| `UptimeProofs.OutagesFollowExistence` | uptime.go:92-106 | No outage begins before the node exists, and a node that does not exist has none. |
| `UptimeProofs.SecondsAgainstTrue` | uptime.go:124-136 | The sum of the truncated overlaps is at most the true covered time and short of it by less than a second per interval. |
| `UptimeProofs.ClampIsIdle` | uptime.go:163-168 | The clamp of offline seconds to the window never changes the value. |
| `UptimeProofs.ReportedSeconds` | uptime.go:145-173 | For any log, online plus offline is the window's whole seconds, both are non-negative, and offline is within a second per outage below the reconstructed time. |
| `UptimeProofs.CountingFrom` | uptime.go:145-162 | For any log, counting starts at the latest of window start, first-seen time and start of existence; an offline node of which the log knows nothing is not counted. |
| `UptimeProofs.BucketsTile` | uptime.go:175-191 | The buckets cover the window without gap or overlap, each within its own day. |
| `UptimeProofs.DailyDown` | uptime.go:195-199 | The days together count the outages that begin in the window. |
| `UptimeProofs.DailySums` | uptime.go:193-207 | At whole-second timestamps the days' seconds and offline seconds add up to the window's. |
| `UptimeProofs.Daily` | uptime.go:256-257 | The page's daily list is the filled buckets of the counted window. |
| `UptimeProofs.DaysAddUp` | uptime.go:249-258 | All of it for a node's page and any log; the days' down counts equal the window's if and only if every rebuilt outage begins inside the counted window before its end. |
| `DownCounts.DaysCountOutages` | uptime.go:195-199 | In every run, the days' down counts add up to the window's if and only if the log has no offline event of the node at exactly the window's end that is followed by an online event at that instant. |
| `DownCounts.AnOutageNoDayCounts` | uptime.go:195-199 | A run and a window of ten seconds in which that happens: one outage in the window, none on its day. |
| `History.RebuildCovers` | uptime.go:100-121 | An instant is in a rebuilt interval exactly when the events up to it leave the state offline. |
| `History.WindowFold` | uptime.go:56-84 | Last prior event plus the window's events give the state after the last event before each instant. |
| `History.LogIsHistory` | uptime.go:56-122 | Both together, for every log whose ids follow time and in which nobody goes offline first. |
| `History.RunKeepsInv` | presence.go:91-111 | Every run writes such a log, in which moreover only online nodes go offline, and its last event for a node agrees with the node's online flag. |
| `History.FaithfulHistory` | uptime.go:56-122 | For every run with a clock that does not go back and every window, the rebuilt intervals contain exactly the instants at which the node was known and its online flag was off. |
| `History.WindowCut` | uptime.go:146-151 | Moving the counting start to first-seen or first online cuts no outage off. |
| `History.HonestSeconds` | uptime.go:145-173 | Reported offline seconds against the real time the flag was off in the window: never more, less by under a second per outage. |
| `OnlineTime.HonestOnline` | uptime.go:209-221 | The online seconds of a node in any window of any run are the time its online flag was on, short of it by less than a second and over it by less than a second per outage. |
| `OnlineTime.CountedSeconds` | uptime.go:145-162 | The counted seconds of a window are those since the node was first seen. |
| `Maintenance.DailyWindowIsAnArc` | maintenance.go:32-45 | A daily window covers the arc of the clock from its start forward to its end, across midnight or not; equal ends mean never. |
| `Maintenance.FixedWindow` | maintenance.go:44 | A window with fixed ends holds its start and not its end. |
| `Maintenance.ClockShows` | maintenance.go:30 | The clock shows whole minutes since local midnight. |
| `Maintenance.OffsetIsLatest` | maintenance.go:34-38 | Local time uses the offset of the latest change so far. |
| `Maintenance.ScopeIsMaintenance` | maintenance.go:51-58 | Loading the rows by scope loses no window that concerns the node. |
| `Maintenance.MaintenanceHit` | maintenance.go:47-60 | True exactly when a global or own window covers the instant. |
| `Credit.MaintenanceCredit` | donate.go:301-336 | The sampling loop credits 300 seconds for each fifth minute at which the node is under maintenance and rebuilt as offline. |
| `Credit.ErrorSoFar` | donate.go:315-335 | Within one stretch of downtime the sampling error is the change of the time to the next look. |
| `Credit.SampledCreditBound` | donate.go:315-335 | The credit differs from the exact time by less than five minutes per maximal stretch, and is 0 when there is none. |
| `Credit.CreditOfARun` | donate.go:301-336 | The same against the time the nodes table really had the node offline under maintenance. |
| `Donations.Need` | donate.go:258-261 | The required seconds always lie between 1 and a whole day. |
| `DonationFacts.NeedIs` | donate.go:258-261 | The required hours in whole seconds, the whole day for anything not between a second and a day. |
| `DonationFacts.DueIff` | donate.go:249-276 | The complete condition under which a donation has earned a day, with the rate of its kind of network from the configuration. |
| `DonationFacts.DaysBookRewards` | donate.go:272-288 | Whatever days are settled, every new ledger row is a reward booked for a donation's owner, at the home rate for a home connection and at the data-centre rate otherwise. |
| `DonationFacts.ApprovalIs` | donate.go:177-208 | When a review goes through, what the pool then lists, and that the one-time bonus of its kind of network is paid unless it was before. |
| `DonationFacts.TakenOffIs` | donate.go:226-235 | Taking a donation off removes exactly its pool entries. |
| `DonationFacts.DropDisables` | nodepool.go:418-433 | Removing a node's definition disables the approved donation it came from and no other. |
| `DonationFacts.EditIs` | donate.go:447-475 | An uninterrupted edit gives a pending or rejected application its new kind of network and makes it pending; any other one stays. |
| `DonationFacts.FirstBonus` | donate.go:447-475 | A run from application over an edit to approval: the owner has the bonus of the kind of network the edit gave. |
| `Donations.Program.Settle` | donate.go:249-299 | The loop over the donations with one transaction each, and the number of payments is the number of new ledger rows. |
| `Donations.Program.CatchUp` | donate.go:339-343 | At start-up the last three days are settled in order. |
| `Donations.Program.ApproveDonation` | donate.go:177-208 | Pool entry, bonus and review together or not at all; a duplicate bonus is not an error. |
| `Donations.BonusDuplicate` | donate.go:199-201 | A bonus refused as a duplicate was noticed before any write. |
| `Settlement.SettleOneOutcome` | donate.go:277-288 | A donation and day is paid if it is due and not booked before, and then the payment cannot fail. |
| `Settlement.DaysMatch` | donate.go:249-299 | Closed form: any list of days pays exactly the new (donation, day) pairs, once each, in counters, keys and balances. |
| `Settlement.OnlyTheSetOfDaysMatters` | donate.go:249-299 | Settling two lists of the same days, in any order and with repeats, gives the same donation rows and balances. |
| `Settlement.RewardsOfDays` | donate.go:285-287 | reward_days grows by the number of new days and daily_earned by that number times the configured rate of the donation's kind of network. |
| `Settlement.OnlineTimeIsHonest` | donate.go:273 | The time compared with the required hours is the counted part of the day (none if the counting starts later) less unplanned downtime, within a second for the day, one per outage and five minutes per maintained stretch. |
| `DonationRuns.PayDayKeepsInv` | donate.go:277-288 | One payment keeps counters and ledger in agreement. |
| `DonationRuns.ApproveKeepsInv` | donate.go:183-208 | So does a review, and the pool lists the donation. |
| `DonationRuns.OffPoolKeepsInv` | donate.go:226-235 | And taking a donation off. |
| `DonationRuns.DropKeepsInv` | nodepool.go:418-433 | And the operator's removal of a node definition. |
| `DonationRuns.CountersOverRuns` | donate.go:177-299 | In every run from an empty database, edits with an unguarded write included, reward_days and daily_earned are the number and sum of the donation's donate_day rows, all paid to its owner, and the bonus was booked at most once and is bonus_paid. |
| `DonationRuns.ApprovedIffPooled` | donate.go:447-475 | In every run a donation is approved exactly while the node pool lists it, if and only if its approval has not been overtaken by an edit that was checked before and written after it. |
| `DonationRuns.EditOvertakesApproval` | donate.go:455-475 | A run in which that happens: the donation is pending again while its node stays in the pool. |
| `RateLimiter.Limiter.Allow` | util.go:159-173 | Under a clock that does not go back a call is let through if and only if it is among the first max calls of its window, counted over everything the limiter has been asked; without a limit always. |
| `RateLimiter.Limiter.Cleanup` | util.go:146-153 | Exactly the buckets older than two minutes are removed. |
| `RateLimiter.SweepingIsUnobservable` | util.go:144-155 | Cleanups at arbitrary moments change no answer. |
| `RateLimiter.WindowGrants` | util.go:166-172 | A bucket window grants exactly the smaller of its calls and the limit. |
| `RateLimiter.MinuteGrants` | util.go:166-172 | Any half-open 60 seconds grant at most twice the limit minus one. |
| `RateLimiter.MinuteBoundIsReached` | util.go:166-172 | That bound is reached for every positive limit, within two seconds. |
| `RateLimiter.NoLimit` | util.go:160-162 | A limit of 0 or less lets everything through and keeps no buckets. |
| `Sla.NeverUpAndInvalid` | sla_eval.go:50-130 | No evaluator yields both up and invalid. |
| `Sla.StricterTask` | sla_eval.go:116-163 | A task stricter in requiring all stacks, both protocols or an unexpired certificate never judges a sample up that the laxer one does not. |
| `Sla.InvalidIgnoresCriteria` | sla_eval.go:14-18 | Judging the same rows by other criteria changes up and down but never how many samples are valid. |
| `SlaSpec.EvalMeetsSpec` | sla_eval.go:50-163 | The evaluators decide exactly a declarative criterion of up, invalid and slow, for every task and sample. |
| `SlaSpec.NodeFigures` | sla_eval.go:308-327 | A node's figures are the numbers of its samples that are up, down, invalid, and valid and slow. |
| `SlaSpec.TotalsLatency` | sla_eval.go:420-424 | The summed latency is that of the up samples alone. |
| `SlaSpec.RoundIsNearest` | sla_eval.go:451 | A round is named by the nearest second. |
| `Sla.ValidIsUpPlusDown` | sla_eval.go:413-426 | In every aggregate valid is up plus down and each row is one sample. |
| `Sla.ComputeTaskSla` | sla_eval.go:298-332 | One aggregate per node that has rows, each the fold of that node's rows, and their totals equal the totals of all rows. |
| `Sla.LatestIsNewest` | sla_eval.go:328-331 | The latest sample shown is the newest valid one, the later row among equals. |
| `Sla.CollectRounds` | sla_eval.go:447-459 | One tally per second in which rows fall, holding exactly those rows. |
| `Sla.MergeRounds` | sla_eval.go:471-480 | Adding up adjacent rounds tallies exactly the rows between the first round and the next point. |
| `Sla.RowsToRoundSeries` | sla_eval.go:446-484 | At most 1500 strictly ordered points, each merging the same number of rounds; each tallies the rows up to the next point and together they total all rows, the same totals as the per-node report. |
| `Frames.FrameRoundTrip` | speedtest.go:95-101 | A frame is read back as sent if and only if its id has 1 to 255 bytes. |
| `Frames.FrameLayout` | speedtest.go:95-101 | One length byte, the id, the payload. |
| `Frames.RefusedIff` | speedtest.go:60-76 | A message is refused exactly if it is too short for a length byte and more, has an empty id or a cut one. |
| `Frames.ParseRoundTrip` | speedtest.go:60-76 | An accepted message is the frame of its parts. |
| `Frames.UploadFrames` | speedtest.go:307-333 | The receiver of an upload collects exactly the request body and sees its end once, at the end. |
| `Pipe.NoTailLoss` | speedtest.go:252-279 | In every interleaving without cancellation the body is all non-empty chunks that preceded the result, in order, then some prefix of those sent after it; without any the result is relayed, a success as 502. |
| `Pipe.BodyIsExact` | speedtest.go:259-270 | The body is exactly the preceding chunks in all interleavings if and only if the node sends no non-empty chunk after the result. |
| `Pipe.EitherWay` | speedtest.go:259-270 | For every such message sequence both endings exist: one with the exact body and one with the first later chunk added to it. |
| `Pipe.LeakyRun` | speedtest.go:260-270 | Otherwise a run in which the first later chunk gets into the body. |
| `Pipe.NeverStuck` | speedtest.go:80-92 | Reader and handler never block each other while the response is open. |
| `Pipe.QueueIsBounded` | speedtest.go:80-92 | The queue never holds more than 16 chunks, and the reader waits exactly when it is full. |
| `Pipe.StepsAreFinite` | speedtest.go:252-286 | Every step uses up work, so every run without cancellation ends. |
| `Pipe.NothingInvented` | speedtest.go:59-93 | Under arbitrary cancellation the body is still made of the node's chunks in order, with some left out. |
| `Pipe.Download.WriteRest` | speedtest.go:259-278 | After the result everything still queued is written, then the response ends or the result is relayed. |
| `SpeedGate.SpeedTestsAreLimited` | speedtest.go:174-194 | Never two tests on a node, never more than four in all, and returning a token never blocks. |
| `SpeedGate.Admission` | speedtest.go:174-194 | If nobody comes in between, a busy node is refused with 429, a fifth test with 503 and without a trace, everybody else runs, and afterwards node and token are free again. |
| `Waiters.IdsAreUnique` | util.go:107-112 | Request ids of one process differ whatever their prefix letter and second. |
| `Waiters.IdFitsFrame` | speedtest.go:187 | A speed test's request id fits the length byte of a frame. |
| `Waiters.WaiterCorrelation` | ws.go:306-406 | In every interleaving a channel gets at most one message, a read loop never blocks on delivering, a requester only gets the first reply found under its own id, and no map entry outlives its request. |
| `Waiters.RequestWaits` | ws.go:372-386 | A request that is registered and sent waits under its own key, the letter, the stamp, a dash and the number; one that could not be sent leaves no entry. |
| `Waiters.RequestIsAnswered` | ws.go:306-405 | A waiting request whose reply arrives, read by whichever loop, ends with that reply and without an entry. |
| `Waiters.RequestTimesOut` | ws.go:402-405 | One that waits in vain ends empty and without an entry. |
| `Waiters.DeliverKeepsInv` | ws.go:319-321 | The channel a looked-up reply goes into is empty. |
| `Waiters.Server.BeginRequest` | ws.go:372-373 | The new request's id differs from every earlier one; the invariant is kept. |
| `Waiters.Server.RegisterWaiter` | ws.go:374-376 | The new entry displaces nobody's, and the request's own id is the only key that leads to it. |
| `Waiters.Server.Leave` | ws.go:377-381 | Afterwards no entry leads to the request, and every other request keeps its entry. |
| `Waiters.Server.OnReply` | ws.go:306-321 | If somebody waits for the id, that request's empty channel gets the reply, its entry goes and nothing else changes; otherwise nothing does. |
| `Peers.ReplacedAreClosed` | ws.go:290-297 | In every run a registered connection that is open is its node's current one; a node never has two. |
| `Peers.SuccessorSurvives` | ws.go:224-239 | An entry of peers goes away only through its own closed connection and changes only by a registration. |
| `Peers.ConnectionLife` | ws.go:224-304 | A connection that nobody interferes with: connected and shown online after registration, neither after it has died and been reported; other nodes are untouched. |
| `Peers.FlagAgreesUnlessMarked` | ws.go:451-477 | In every run, once nothing is outstanding, a node is shown online exactly when it is connected, if and only if the last write of its flag agreed with the connection map at that moment. |
| `Peers.FlagsFollowPeers` | ws.go:224-239 | In particular it is so if every write of the run agreed. |
| `Peers.EvictionHidesAConnectedNode` | ws.go:467-476 | The eviction loop does not check this: a run after which a connected node is shown offline. |
| `Peers.Hub.OnRegister` | ws.go:290-297 | The newcomer becomes the node's current and only open connection; other nodes keep theirs. |
| `Peers.Hub.OnDisconnect` | ws.go:224-238 | Only the current connection is removed and reported. |
| `Peers.Hub.Evict` | ws.go:467-475 | One eviction run without interruption. |

## Left out

- HTTP routing, JSON binding, error texts, CSV export, the web front end, mail and notice transport: no rule of their own.
- HMAC, bcrypt, JWT and random strings: order numbers and ids are given, request ids are built as the code builds them.
- Remarks, operator names, product names and other free texts: carried along by the code, no rule depends on them.
- Trimming and upper-casing of codes, header keys and order numbers: they arrive normalised. Delivery texts are tested for blankness as the code does, with the ASCII spaces only.
- `last_settled`: depends on the order of settlement by design.
- Availability ratios, averages and percentiles: floating point; the integer counters and seconds they are computed from are modelled. The required hours of a donation day are a real number.
- 64-bit overflow of points and quantities: integers are unbounded here.
- SQL isolation levels beyond the separate steps of finishing an order and redeeming a code: all other transactions run one after the other. In particular two concurrent orders of one user are not interleaved, and a review, a disabling or a withdrawal of a donation acts on the row it has read (an applicant's edit does not).
- Gaps in automatically assigned ids and the collation of string columns: ids are positions, keys compare byte by byte.
- Deleting users, products or redeem codes, editing a product's delivery kind, stock or limit, renaming a node definition: they rebase the conserved quantities. A product edit of the model changes price and switch and saves all other columns as they were read.
- Deleting a node's snapshot row: presence rows are only created and updated here.
- Restart of the process (`markAllNodesOffline`, the start-up exemption) and retention deletes of events: excluded from the runs of `History` and `Notices`.
- HTTP-polled nodes and the version checks that end an OTA task: an OTA task ends by an event.
- Daylight-saving rules: the calendar and the time zone are given as tables of midnights and offset changes; Go's time package is not part of this model.
- Presence steps are atomic: the interleavings inside recordNodeOnline and recordNodeOffline of one node are not modelled; those around the connection map are (`Peers`).
- The stall timer of a download is a cancellation event that may happen at any moment; its eight seconds are not counted.
- The node's side of an upload is modelled by the frame format alone.
- `Sla.ComputeTaskSla`: the rows arrive ordered by node, so the final sort of the node names is not repeated; latency lists are not collected.
- `donationSettleLoop`: the nightly timer is an event with an arbitrary day; only the start-up catch-up is a loop here.
- Per-user donation limit, node name syntax and key rotation: they only refuse or replace values no rule here depends on.
