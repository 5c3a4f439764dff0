# FTG exchange, settlement, treasury and supply: a verified model

This project models the keepers of the FTG chain that hold value and proves what their users rely on.

* **Exchange** (`x/exchange`). Wallets with balances and locks, limit and market orders, two price-sorted
  books, an append-only trade log and a table of daily volumes. `ExchangeState` states every operation as a
  transition over one `State` value; `ExchangeKeeper` is the keeper itself, a class whose methods update their
  fields step by step and are proved equal to those transitions, the loop that deletes from the book it walks
  included. `Matching` is the greedy matcher on one side of a book, with a closed form for what it fills.
  `ExchangeRuns` holds the theorems about all runs from the empty exchange: any sequence of wallet creations,
  deposits, withdrawals, verification decisions, placements, cancellations and restarts. `ExchangeHistory` traces
  wallets, standings, suspensions and cancellations back to the events, and `ExchangeReasons` says what each refusal
  means: made up for, the same request goes through or meets a later check.
* **Order book snapshot** (`GetOrderBook`), in `OrderBookDepth`.
* **Treasury commitments** (`x/treasury`), in `Treasury`, `TreasuryHistory` and `TreasuryKeeper`, over a small bank.
* **Settlement escrows, deposits and withdrawals** (`x/settlement`), in `Settlement`, `SettlementHistory` and
  `SettlementKeeper`.
* **Energy minting and burning** (`x/energymint`, `x/burn`), in `EnergySupply`, `EnergyHistory` and
  `EnergySupplyKeeper`, over one shared bank.

The `History` modules state what is allowed from the events alone (who was last permitted, what was last set, what was
asked for before) and prove that after any history an operation goes through exactly when it is allowed, what it then
moves, and where every stored record comes from.

`Sums` and `Amounts` hold the finite sums and the rounding laws everything else uses. Division truncates toward
zero, as the source's 64-bit operator does (`Amounts.Quo`). Time enters as a parameter: a day and a height on the
exchange, seconds elsewhere.

A wallet or an order is a value in a map under its sequence number, where the source holds a pointer. Storing
the changed value under the same key is the source's update through the pointer: the books hold only ids, so
an order changed by a fill is seen changed by everyone.

What is assumed of a pair (`Env.Sound`): two different denominations, a positive minimum order size, and fees
between 0 and 10,000 basis points. The default pair meets this (`ExchangeRuns.DefaultIsLimited`).

## Where the code does less than one would expect

The model follows the code. Each of these has a run or an input that shows it, and a law that says exactly when it
happens.

* A market buy locks funds at the price it names, which may be 0, and then pays market prices: a run ends with a
  negative lock, a negative balance and a daily volume beyond the limit (`ExchangeExamples.MarketBuyUncovered`).
  In every run a quote lock is exactly what the wallet's buys took and did not give back, less what its purchases
  cost, so it covers the active buys if and only if the purchases cost no more than the buys gave up for them
  (`ExchangeRuns.RunLockCover`). For a single placement a caller can work out from the book what it does to the lock,
  the balances and the day's volume, and so whether they stay covered and within the limit
  (`ExchangePlacements.PlacementSlack`, `PlacementBalance`, `PlacementWithinTier`).
* A buyer's fee is not covered by the lock: a fully funded limit buy ends with its free quote at exactly minus its
  fee (`ExchangeExamples.FeeUncovered`). A buy leaves its wallet no negative free quote if and only if the wallet could
  pay, beside the lock, the fees of the fills it meets in the book (`ExchangePlacements.PlacementFreeQuote`);
  `PlacementFree` gives the same for every wallet, makers included, who pay fees too. In every run the free quote never
  falls further below zero than the fees charged to the buyer (`ExchangeRuns.RunSolvent`, `RunFreeQuote`).
* What price improvement and rounding leave locked is never released: a limit buy filled at half its price ends with
  the other half locked and no order active (`ExchangeExamples.ImprovementStranded`), and for a wallet without market
  buys no later event of any run lowers it (`ExchangeRuns.RunKeepsSlack`).
* A market order with units left stays active without being on a book, and a restart puts it on one: a run with exact
  and uncrossed books ends, after a restart, with books that are neither (`ExchangeExamples.RestartUncovered`).
  Rebuilt books are the live ones exactly when every active order was listed (`ExchangeBooks.RebuildRestores`), list
  exactly the active limit orders exactly when no market order is active (`RebuildExact`), and are uncrossed exactly
  when the active orders of the two sides do not meet (`RebuildUncrossed`).
* `RefundEscrow` overwrites the status before it tests it, so refunding a pending or funded escrow leaves the
  count of active escrows too high. The count is right exactly on histories without such a refund
  (`Settlement.ActiveIsExact`, `Settlement.RefundLeavesCounter`).
* The documentation says that each MWh mints exactly 100 FTG (README.md of the repository, line 42). The code
  truncates to whole uftg; the amount is exact just for energy that is a whole number of uftg, and short by
  less than one uftg otherwise (`EnergySupply.TokensInexact`, `TokensBacked`). A minimum set below zero lets in
  certificates of negative energy (`NegativeEnergy`); `Backed` bounds the supply after any history, with that energy
  added back, and says when there is none.
* Where the minting and the committed wallet are one, committing coins and sending them to liquidity eat into what
  covers the commitments: histories end with a funded commitment that cannot be delivered
  (`Treasury.OneWalletUncovered`, `OneWalletDrains`). Cover survives a commitment or a liquidity transfer exactly when
  the wallet held that much beyond the funded commitments (`CommitCovered`, `LiquidityCovered`), and `RunCover` gives
  what it holds beyond them in every run of any configuration.

## Model

| member | source | states |
|---|---|---|
| ExchangeRuns.RunKeepsAccounts | x/exchange/keeper/keeper.go:235-503 | In every state of every run: quantities and statuses agree, both books are sorted and list active orders once, base locks equal what active sells have left, quote locks equal what buys took and did not give back less what purchases cost, filled quantities and daily volumes are what the log says, and every trade is valid |
| ExchangeRuns.RunConserves | x/exchange/keeper/keeper.go:194-232 | In every run and denomination, all balances plus, for the quote, all maker and taker fees equal deposits less withdrawals |
| ExchangeRuns.RunSolvent | x/exchange/keeper/keeper.go:224-285 | With non-negative deposits and prices, every wallet's free quote is at least minus the fees charged to it as a buyer, and 0 <= base lock <= base balance |
| ExchangeRuns.RunQuoteFloor | x/exchange/keeper/keeper.go:271-285 | For every wallet of a run with non-negative amounts: the cover of its active buys is never negative, the quote lock reaches it if and only if purchases cost no more than the buys gave up, which holds without market buys, and the balance is short of the lock by at most the buyer fees |
| ExchangeRuns.RunLockCover | x/exchange/keeper/keeper.go:271-476 | In runs of any events, every quote lock is the lock taken by the wallet's buys and not released, less the value of its purchases, and covers its active buys if and only if those cost no more than the buys gave up for them |
| ExchangeRuns.RunBalances | x/exchange/keeper/keeper.go:194-443 | In every run each wallet's balance in each denomination is what its owner moved in and out plus what its trades moved: units, value and its own fee |
| ExchangeRuns.RunFreeQuote | x/exchange/keeper/keeper.go:224-443 | In every run each wallet's free quote equals what its owner moved, plus sale proceeds less fees, less buyer fees, less the locks its buys took and did not give back |
| ExchangeRuns.RunKeepsSlack | x/exchange/keeper/keeper.go:271-476 | In every run, what the lock of a wallet without market buys holds beyond the cover of its active buys never falls |
| ExchangeRuns.RunBooks | x/exchange/keeper/keeper.go:309-322 | In runs that never restart with an active market order, each book lists exactly the active limit orders of its side, and no bid and ask of different wallets meet |
| ExchangeRuns.RunKeepsTerminal | x/exchange/keeper/keeper.go:394-409 | From the moment an order is filled or cancelled it never changes, and no later trade of the run names it |
| ExchangeRuns.RunFitsInt64 | x/exchange/keeper/keeper.go:364-366 | Every product settling a trade forms fits in 64 bits if the wallet that placed the maker order had a daily limit, whoever took it |
| ExchangeRuns.RunPlaced | x/exchange/keeper/keeper.go:287-304 | Every order of a run was placed by one of its events and still has the wallet, side, type, price and quantity it was placed with |
| ExchangeRuns.RunAmounts | x/exchange/keeper/keeper.go:364-366 | In every run the value of a trade is price times units over a million and each fee that product times the rate over ten thousand million, truncated toward zero |
| ExchangeHistory.RunSuspended | x/exchange/keeper/keeper.go:198-246 | From the decision that suspends a wallet until one reactivates it no order of it appears, and its balance in every denomination moves by the trades logged in between alone: nothing is paid in or out |
| ExchangeHistory.RunPays | x/exchange/keeper/keeper.go:194-232 | At any moment of a run a deposit goes through if and only if an event made the wallet and the last decision on it left it active; a withdrawal, if besides that what was moved in and traded, beyond the lock, reaches it; otherwise the answer names the first of these that fails |
| ExchangeHistory.RunPlacedByVerified | x/exchange/keeper/keeper.go:239-248 | Every order of a run was placed by a wallet that the last decision before had left active and with a tier |
| ExchangeHistory.RunStanding | x/exchange/keeper/keeper.go:637-675 | In every run a wallet's tier and standing are what the last decision on it said, or no tier and active |
| ExchangeHistory.RunOpened | x/exchange/keeper/keeper.go:137-163 | Every wallet of a run was made, empty, for its user by an event that asked for it while registration was open and the user had no active wallet |
| ExchangeHistory.RunCreates | x/exchange/keeper/keeper.go:137-145 | At any moment of a run a user gets a wallet if and only if registration is open and every wallet made for the user before was last left suspended; otherwise the answer says which |
| ExchangeHistory.RunOneActive | x/exchange/keeper/keeper.go:141-145 | In runs that reactivate no suspended wallet, which nothing in the source does, no user has two active wallets |
| ExchangeHistory.HolderRefused | x/exchange/keeper/keeper.go:141-145 | A user who is refused a wallet for holding one gets it once that one is suspended |
| ExchangeHistory.RunCancelled | x/exchange/keeper/keeper.go:454-481 | An order of a run is cancelled if and only if its own wallet asked for that while it was active |
| ExchangeRuns.DefaultIsLimited | x/exchange/keeper/keeper.go:75-104 | The default pair and tier limits meet what the run theorems assume |
| ExchangeWellFormed.NextWellFormed | x/exchange/keeper/keeper.go:235-503 | Every operation keeps orders, statuses, links and both books in order |
| ExchangeInvariants.NextKeepsAccounts | x/exchange/keeper/keeper.go:420-483 | Every operation keeps locks, covers, filled quantities, the log and the volumes in agreement |
| ExchangeInvariants.NextHoldings | x/exchange/keeper/keeper.go:194-232 | Every operation changes what the exchange holds by exactly what a deposit or withdrawal moved |
| ExchangeBalances.NextBrought | x/exchange/keeper/keeper.go:194-443 | Every operation changes what a wallet holds that no trade brought it by exactly what its owner moved |
| ExchangeInvariants.LimitBuyersNeverOverpay | x/exchange/keeper/keeper.go:341-353 | A wallet whose buys are all limit orders never traded above its own price |
| ExchangeInvariants.CancelKeepsLocks | x/exchange/keeper/keeper.go:471-476 | Cancelling releases just what the order still needs: base and quote locks stay exact and quote locks keep covering |
| ExchangeSolvency.NextKeepsSolvent | x/exchange/keeper/keeper.go:212-285 | Every operation with non-negative amounts keeps all wallets solvent up to their buyer fees |
| ExchangeExamples.MarketBuyUncovered | x/exchange/keeper/keeper.go:259-278 | A run whose market buy at price 0 ends with a negative lock, a negative balance and a volume past the Basic limit |
| ExchangeExamples.FeeUncovered | x/exchange/keeper/keeper.go:273-278 | A run whose fully funded limit buy ends with nothing locked and its free quote at exactly minus its fee |
| ExchangeExamples.ImprovementStranded | x/exchange/keeper/keeper.go:430-436 | A run whose limit buy, filled at half its price, ends with the other half of its lock held and no order active |
| ExchangeExamples.RestartUncovered | x/exchange/keeper/keeper.go:106-130 | A run with exact, uncrossed books that a restart leaves listing a market order and crossed |
| ExchangePlacements.PlacementSlack | x/exchange/keeper/keeper.go:271-443 | What a wallet's lock holds beyond its cover grows by a buy's own cover of the filled part less the cost of the fills it meets, so the lock covers afterwards if and only if that is not below zero; other wallets' does not change; a sell takes nothing and leaves at most one unit a fill |
| ExchangePlacements.PlacementBalance | x/exchange/keeper/keeper.go:364-443 | A placement moves its wallet's balances by exactly the units, cost and taker fees of the fills it meets in the book |
| ExchangePlacements.PlacementFree | x/exchange/keeper/keeper.go:271-443 | A placement changes what any wallet has free, in each denomination, by its lock and by the shares of the fills it meets: units or value to either side less that side's fee |
| ExchangePlacements.PlacementFreeQuote | x/exchange/keeper/keeper.go:271-443 | A buy leaves its wallet no negative free quote if and only if it had the lock and the taker fees of the fills it meets free before; a sell, if and only if what it had free and the cost of its fills cover the fees |
| ExchangePlacements.PlacementTrades | x/exchange/keeper/keeper.go:368-385 | The trades a placement reports record the fills it meets in the book, in order, with fees, numbers, day and height, and are what the log grows by |
| ExchangePlacements.PlacementWithinTier | x/exchange/keeper/keeper.go:715-752 | After a placement of any kind the taker's user is within its tier's limit if and only if the old volume plus the value of the fills, once for each side the user stands on, is; and always after a limit buy of a user with a limit that fills with other users |
| ExchangePlacements.PlacementVolume | x/exchange/keeper/keeper.go:423-446 | A placement of any kind adds to each user's day the value of its fills, once for each side the user stands on, and changes no other day |
| ExchangePlacements.PlacementOrders | x/exchange/keeper/keeper.go:389-408 | A placement fills its order by what the fills take and sets its status, and takes from each other order exactly what they name |
| ExchangePlacements.PlacementOwner | x/exchange/keeper/keeper.go:420-447 | A placement changes no wallet's owner, tier or standing |
| ExchangeRoundTrip.PlaceThenCancel | x/exchange/keeper/keeper.go:450-483 | An order placed without a trade can be cancelled, which restores every balance, every lock, the log and the orders on both books |
| ExchangeOutcomes.PlacedExactlyWhen | x/exchange/keeper/keeper.go:239-285 | An order is placed if and only if its wallet, the pair, its terms, the daily limit and the free funds allow it; otherwise nothing changes and no volume differs |
| ExchangeOutcomes.CancelledExactlyWhen | x/exchange/keeper/keeper.go:454-481 | A cancellation goes through if and only if the order is active and the caller's; it then leaves both books and only its status changes; otherwise nothing changes |
| ExchangeOutcomes.DepositThenWithdraw | x/exchange/keeper/keeper.go:194-232 | What was deposited can be withdrawn again if and only if the free balance was not negative before, and that restores every balance and lock |
| ExchangeReasons.RefusalRepaired | x/exchange/keeper/keeper.go:239-285 | Once the reason an order is refused for is made up for (wallet reactivated, tier raised, trading or pair turned on, pair, quantity or price corrected, missing funds deposited), the order is placed or refused at a later check |
| ExchangeReasons.NoWallet | x/exchange/keeper/keeper.go:239-242 | An order is refused for want of a wallet if and only if there is none |
| ExchangeReasons.LimitRefused | x/exchange/keeper/keeper.go:715-740 | An order is refused for the daily limit only where there is one and the day's volume with the order's value exceeds it; raised to the tier without a limit it is placed or lacks only funds |
| ExchangeReasons.TierRefused | x/exchange/keeper/keeper.go:246-248 | An order is refused for its tier only where that is none or has no limit to trade within, and no deposit and no other day changes the answer |
| ExchangeReasons.FundsRefused | x/exchange/keeper/keeper.go:271-285 | An order refused for want of funds is placed after a deposit if and only if that makes up the missing ones |
| ExchangeReasons.WithdrawalRepaired | x/exchange/keeper/keeper.go:216-228 | A withdrawal refused for want of funds goes through after a deposit if and only if that makes them up; one refused to a suspended wallet lacks at most funds once it is reactivated |
| ExchangeReasons.CancelAnswer | x/exchange/keeper/keeper.go:454-467 | A cancellation is refused for an order that does not exist, to anyone but its wallet, as filled if and only if its trades add up to its quantity, and as cancelled only where they do not; cancelling twice is told so |
| ExchangeBooks.NextKeepsUncrossed | x/exchange/keeper/keeper.go:309-322 | From any well-formed uncrossed state, every operation but a restart with an active market order leaves the books uncrossed |
| ExchangeBooks.NextKeepsBooks | x/exchange/keeper/keeper.go:309-322 | The same operations list limit orders only |
| ExchangeBooks.RestingMeetsNobody | x/exchange/keeper/keeper.go:341-358 | An order with units left after matching leaves no order of another wallet within its limit opposite |
| ExchangeBooks.PlaceJoined | x/exchange/keeper/keeper.go:306-322 | A placement adds its order at most to its own side, only thins the opposite one, changes no order's terms and revives no order |
| ExchangeBooks.RebuildRestores | x/exchange/keeper/keeper.go:106-130 | Rebuilding the books gives back the live ones, up to the arrangement inside a price level, if and only if every active order was listed |
| ExchangeBooks.AllListedIsNoMarket | x/exchange/keeper/keeper.go:309-322 | Without an active market order every active order is listed; where only limit orders are listed, the converse holds |
| ExchangeBooks.RebuildExact | x/exchange/keeper/keeper.go:110-118 | Rebuilt books list exactly the active limit orders if and only if no market order is active |
| ExchangeBooks.RebuildUncrossed | x/exchange/keeper/keeper.go:110-129 | Rebuilt books are uncrossed if and only if the active orders of the two sides, unlisted market orders included, do not meet |
| ExchangeMoney.SettleMoves | x/exchange/keeper/keeper.go:420-443 | Settling moves units and value between buyer and seller, takes each side's fee from it, releases their locks and touches no other wallet or denomination |
| ExchangeLocks.FillKeepsQuoteLocks | x/exchange/keeper/keeper.go:430-443 | A fill keeps every quote lock equal to what buys took and did not give back less what purchases cost |
| ExchangeLocks.CoverExactly | x/exchange/keeper/keeper.go:273-476 | Where locks obey that equation, a lock covers the active buys if and only if purchases cost no more than the buys gave up, and the difference is what stays locked beyond the cover |
| ExchangePlacements.FillSlack | x/exchange/keeper/keeper.go:430-443 | A fill changes what a wallet's lock holds beyond its cover by what its buying order's cover falls less the value paid, and no other wallet's |
| ExchangePlacements.FillFree | x/exchange/keeper/keeper.go:425-443 | A fill changes what a wallet has free by its share: a buyer the units less its fee, a seller the value less its fee, anyone else nothing |
| ExchangePlacements.NextKeepsSlack | x/exchange/keeper/keeper.go:271-476 | No operation lowers what the lock of a wallet without market buys holds beyond the cover of its active buys |
| ExchangeMoney.FillKeepsBaseLocks | x/exchange/keeper/keeper.go:425-443 | A fill keeps every base lock equal to what the wallet's active sells have left |
| ExchangeMoney.FillKeepsHoldings | x/exchange/keeper/keeper.go:425-443 | A fill loses nothing of any denomination beyond the two fees |
| ExchangeMoney.FillKeepsSolvent | x/exchange/keeper/keeper.go:364-443 | A fill without negative prices keeps every wallet's free quote at least minus all its buyer fees so far, and its free base non-negative |
| ExchangeLedger.FillKeepsFilled | x/exchange/keeper/keeper.go:389-392 | Each order's filled quantity stays the sum of the logged trades naming it |
| ExchangeLedger.FillKeepsValid | x/exchange/keeper/keeper.go:368-385 | Each logged trade stays one between two wallets' opposite orders, at the maker's price, within the taker's limit, with the pair's fees |
| ExchangeLedger.FillKeepsVolume | x/exchange/keeper/keeper.go:445-446 | The volume table stays what the log says each user traded each day, once for each side it stands on |
| ExchangeTrades.TakerBound | x/exchange/keeper/keeper.go:341-387 | A limit buy pays at most its lock less the cover of what is left and at most the fee on its own terms; a limit sell gets at least its own price's value less one unit for each fill after the first |
| ExchangeTrades.DayVolumes | x/exchange/keeper/keeper.go:742-752 | A day's recorded volumes over all users are twice the value of the day's trades |
| ExchangeTrades.MatchTrades | x/exchange/keeper/keeper.go:368-385 | The trades of a match are the greedy matcher's fills, in order, with their fees, numbers, day and height |
| ExchangeTrades.NextKeepsTerminal | x/exchange/keeper/keeper.go:450-466 | No operation changes a filled or cancelled order or trades with it |
| Matching.PlanClosedForm | x/exchange/keeper/keeper.go:338-411 | The matcher fills each order of the book with exactly what is due to it: the need left by all eligible orders ahead of it, capped by what it has |
| Matching.PlanTotal | x/exchange/keeper/keeper.go:339-363 | The taker gets all it needs or all there is within its limit from other wallets |
| Matching.PlanSound | x/exchange/keeper/keeper.go:342-363 | Every fill is with another wallet's order of the book within the limit, at its price, for a positive quantity it has, and never more in all than needed |
| Matching.PlanInOrder | x/exchange/keeper/keeper.go:338-411 | Fills never improve in price, name different makers, and each but the last uses its maker up |
| Matching.PricePriority | x/exchange/keeper/keeper.go:338-411 | An order trades only after every eligible order at a better price is used up |
| Matching.RestMembers | x/exchange/keeper/keeper.go:394-400 | What is left of the book is sorted and holds exactly the orders not used up |
| Matching.LeftoverBlocked | x/exchange/keeper/keeper.go:341-358 | A taker left wanting leaves only its own wallet's orders and orders beyond its limit |
| Amounts.FillFitsLock | x/exchange/keeper/keeper.go:273-423 | floor(p f / 10^6) + floor(P (R - f) / 10^6) <= floor(P R / 10^6) for p <= P and f <= R |
| Amounts.FeeWithinValue | x/exchange/keeper/keeper.go:365-366 | With at most 10,000 basis points a fee is non-negative and within the trade's value |
| ExchangeFills.FillsOrders | x/exchange/keeper/keeper.go:389-400 | Several fills take from each order exactly what they name and touch nothing else of the orders and books |
| ExchangeWellFormed.MatchEffect | x/exchange/keeper/keeper.go:328-418 | A match fills the taker and sets its status, takes from each maker what was filled from it, and stores the opposite book without the orders used up |
| ExchangeKeeper.Keeper.constructor | x/exchange/keeper/keeper.go:43-73 | A new keeper is the empty exchange, in order when its pair is |
| ExchangeKeeper.Keeper.CreateWallet | x/exchange/keeper/keeper.go:133-166 | Adds an empty wallet unless registration is closed or the user has an active wallet |
| ExchangeKeeper.Keeper.SetStanding | x/exchange/keeper/keeper.go:668-676 | A verification decision changes one wallet's tier and standing and keeps the keeper valid |
| ExchangeKeeper.Keeper.DepositToWallet | x/exchange/keeper/keeper.go:194-209 | Credits an active wallet, or reports why not and changes nothing |
| ExchangeKeeper.Keeper.WithdrawFromWallet | x/exchange/keeper/keeper.go:212-232 | Debits an active wallet by no more than its free balance, or reports why not and changes nothing |
| ExchangeKeeper.Keeper.PlaceOrder | x/exchange/keeper/keeper.go:235-326 | Does exactly a placement of the transition system, rejections included, and keeps the keeper valid: orders, books, locks, log and volumes stay in agreement |
| ExchangeKeeper.Keeper.MatchOrder | x/exchange/keeper/keeper.go:328-418 | The whole state afterwards is the greedy matcher's: its fills, its remainders, its surviving book, its trades returned in order |
| ExchangeKeeper.Keeper.Walk | x/exchange/keeper/keeper.go:338-402 | The loop that deletes from the book it walks ends where the recursive matcher does |
| ExchangeKeeper.Keeper.Fill | x/exchange/keeper/keeper.go:360-401 | One loop body logs one trade, settles it and updates both orders |
| ExchangeKeeper.Keeper.SettleTrade | x/exchange/keeper/keeper.go:420-447 | Both wallets and both users' volumes end as one settlement leaves them |
| ExchangeKeeper.Keeper.CancelOrder | x/exchange/keeper/keeper.go:450-483 | Cancels an active order of the calling wallet, or reports why not and changes nothing |
| ExchangeKeeper.Keeper.RemoveFromBook | x/exchange/keeper/keeper.go:485-503 | The order leaves its side of the book, all others keep their places |
| ExchangeKeeper.Keeper.RebuildOrderBooks | x/exchange/keeper/keeper.go:106-130 | Each book becomes a sorted list of all active orders of its side, each once, whatever order the map yields them in |
| ExchangeKeeper.Keeper.CheckDailyLimit | x/exchange/keeper/keeper.go:715-740 | Rejects exactly what would pass the tier's limit, leaving at most a zero entry behind |
| ExchangeKeeper.Keeper.UpdateDailyLimit | x/exchange/keeper/keeper.go:742-752 | Adds to one user's volume of one day |
| ExchangeKeeper.Keeper.GetOrderBook | x/exchange/keeper/keeper.go:506-567 | Both sides are depth snapshots of their books, and the last price is that of the last trade |
| OrderBook.SortByPrice | x/exchange/keeper/keeper.go:312-321 | The result is some price-sorted arrangement of the same orders, none lost or repeated |
| OrderBook.SortsAgreeOnPrices | x/exchange/keeper/keeper.go:120-129 | Two sorted arrangements of the same orders show the same price at every place |
| OrderBookDepth.SideDepth | x/exchange/keeper/keeper.go:516-560 | Levels are in strict price order, each is the quantity and count of all orders at its price, and only prices worse than a full list are cut |
| OrderBookDepth.DepthFollowsBook | x/exchange/keeper/keeper.go:532-550 | The first level is at the price of the order that trades next, and an order that trades before another is never shown behind it |
| OrderBookDepth.DepthUnique | x/exchange/keeper/keeper.go:516-560 | A book has one snapshot for a depth, whatever order the level map yields |
| OrderBookDepth.DepthAddsUp | x/exchange/keeper/keeper.go:516-530 | An uncut snapshot adds up to all units and all orders of its side |
| OrderBookDepth.CutIsDepth | x/exchange/keeper/keeper.go:552-559 | Cutting keeps exactly the best levels |
| Treasury.RunCover | x/treasury/keeper.go:71-251 | In every run, whatever the wallets, the committed wallet holds exactly the funded commitments plus what came in for no commitment, which with two wallets is never negative |
| Treasury.RunConsistent | x/treasury/keeper.go:71-251 | In every run commitments are in order, no address is overdrawn, and with two wallets the committed one covers the funded commitments |
| Treasury.DeliverSucceeds | x/treasury/keeper.go:163-210 | Where commitments are covered, a delivery succeeds if and only if the owner asks for a funded commitment |
| Treasury.CancelSucceeds | x/treasury/keeper.go:213-251 | Where commitments are covered, a cancellation succeeds if and only if the owner asks for a funded commitment |
| Treasury.PaidAtMostOnce | x/treasury/keeper.go:163-251 | In every run a commitment was paid out once if it is delivered or cancelled and never otherwise |
| Treasury.DeliverPays | x/treasury/keeper.go:182-193 | A delivery takes the committed amount from the committed wallet, gives it to the destination and touches no other balance or commitment |
| Treasury.CommitThenCancel | x/treasury/keeper.go:71-251 | In every run, cancelling a commitment just made succeeds and restores every balance |
| Treasury.CommitmentValue | x/treasury/keeper.go:97-106 | A commitment's value is price times tokens, rounded toward zero |
| Treasury.CommitCovered | x/treasury/keeper.go:83-106 | After a commitment the funded ones are covered if and only if they were, with the amount to spare where minting and committed wallets are one |
| Treasury.LiquidityCovered | x/treasury/keeper.go:139-148 | The same for a transfer to liquidity, less the amount where it comes from the committed wallet and plus it where it goes there |
| Treasury.OneWalletDrains | x/treasury/keeper.go:139-148 | With one wallet, a history of a commitment and a liquidity transfer ends with a funded commitment whose delivery fails |
| Treasury.OneWalletUncovered | x/treasury/keeper.go:83-92 | With one wallet for minting and commitments, a history ends with a funded commitment whose delivery fails |
| Treasury.StepConserves | x/treasury/keeper.go:71-251 | No treasury operation creates or destroys coins |
| TreasuryHistory.OnlyTheOwner | x/treasury/keeper.go:71-251 | A history without everybody else's treasury operations ends in the same state: only the owner's leave a trace |
| TreasuryHistory.StepMoves | x/treasury/keeper.go:71-251 | An operation goes through if and only if the owner asks for coins the minting wallet has or for a funded commitment the committed wallet can pay; it moves that amount from one wallet to the other and changes no other balance |
| TreasuryHistory.RunBalance | x/treasury/keeper.go:71-251 | In every run an address holds what the allowed events brought it less what they took |
| TreasuryHistory.CommitmentOrigin | x/treasury/keeper.go:99-109 | Every commitment was made by a request of the owner for coins the minting wallet had, and keeps that request's buyer, amount, price and time |
| TreasuryHistory.PayoutOrigin | x/treasury/keeper.go:163-251 | Every delivered commitment was delivered by a request of the owner, to the destination and at the time it records, and every cancelled one cancelled by one |
| TreasuryHistory.SpendingRefused | x/treasury/keeper.go:77-87 | A commitment or liquidity transfer is refused as unauthorized if and only if the sender is not the owner; for want of coins, which minting the missing ones makes up for; or for a negative amount, which no minting does |
| TreasuryHistory.PayoutRefused | x/treasury/keeper.go:168-239 | A delivery or cancellation is refused to others than the owner, for a commitment never made, for one paid out already, or for want of coins, which happens only where minting and committed wallets are one |
| TreasuryKeeper.Keeper.TransferMintingToCommitted | x/treasury/keeper.go:71-126 | Moves the coins and stores a funded commitment under a new id, or reports why not and changes nothing; keeps the commitments covered |
| TreasuryKeeper.Keeper.TransferMintingToLiquidity | x/treasury/keeper.go:130-160 | Moves the coins, or reports why not and changes nothing; keeps the commitments covered |
| TreasuryKeeper.Keeper.DeliverCommitment | x/treasury/keeper.go:163-210 | Pays a commitment out and marks it, with two wallets if and only if the owner asks for a funded one, and keeps the others covered |
| TreasuryKeeper.Keeper.CancelCommitmentOp | x/treasury/keeper.go:213-251 | Hands a commitment back and marks it, with two wallets if and only if the owner asks for a funded one, and keeps the others covered |
| TreasuryKeeper.Keeper.GenerateCommitmentID | x/treasury/keeper.go:284-294 | Ids count up from one |
| Settlement.RunLedger | x/settlement/keeper/keeper.go:101-303 | After any history, records and completed escrows correspond one to one, every running total is the sum it stands for, and no withdrawal fee reaches its amount |
| Settlement.StepConsistent | x/settlement/keeper/keeper.go:65-325 | Every operation keeps records, totals, times and the active counter consistent, from any state in which they are |
| Settlement.TerminalForever | x/settlement/keeper/keeper.go:229-325 | A completed or refunded escrow never changes again |
| Settlement.RunActive | x/settlement/keeper/keeper.go:208-322 | The active counter is escrows made less settlements and expiries, and exceeds the open escrows by the open ones refunded |
| Settlement.ActiveIsExact | x/settlement/keeper/keeper.go:319-322 | The counter is right if and only if no pending or funded escrow was refunded |
| Settlement.RefundLeavesCounter | x/settlement/keeper/keeper.go:319-322 | One escrow made and refunded leaves the counter at one with none open |
| Settlement.SettlementFeeBelowAmount | x/settlement/keeper/keeper.go:206-206 | A settlement fee is below its amount if and only if the rate is below 100% |
| Settlement.RecordedPrice | x/settlement/keeper/keeper.go:275-279 | The recorded price is the largest whole price the payment covers |
| Settlement.RunInTime | x/settlement/keeper/keeper.go:208-255 | After any history each escrow expires the configured time after it was made, and funded and completed ones were funded by then |
| Settlement.ExpiredExactlyWhen | x/settlement/keeper/keeper.go:242-247 | An escrow fails if and only if someone tries to fund it while pending and past its time |
| SettlementHistory.RunFees | x/settlement/keeper/keeper.go:183-186 | In every history the fees collected grow on a processed withdrawal by the flat fee and the rate's truncated share of the amount, on a settlement by the rate's truncated share, and on no other event |
| SettlementHistory.RunAllowed | x/settlement/keeper/keeper.go:65-325 | After any history an operation goes through if and only if its amount is within bounds and exceeds its fee in raw numbers, its method is on, and what it names is there in the right status and in time; a late one is told so once; any other changes nothing |
| SettlementHistory.MethodSwitches | x/settlement/keeper/keeper.go:448-462 | Each switch turns one payment method on or off and no other, and a method without a switch is never on |
| SettlementHistory.Refused | x/settlement/keeper/keeper.go:69-312 | What is named was never made; an amount is on the wrong side of a bound, which going further does not help and the bound does; a disabled method is not helped by any amount; a wrong status is not helped by time |
| SettlementHistory.DepositOrigin | x/settlement/keeper/keeper.go:79-89 | Every deposit was asked for by an allowed event and keeps its wallet, user, amount, method and time |
| SettlementHistory.DepositAnswered | x/settlement/keeper/keeper.go:110-124 | A deposit that is not pending was confirmed in time by an event whose reference and time it keeps, or expired by one past its time |
| SettlementHistory.WithdrawalOrigin | x/settlement/keeper/keeper.go:143-158 | Every withdrawal was asked for by an event whose amount exceeded its fee, and keeps what that event asked for |
| SettlementHistory.WithdrawalProcessed | x/settlement/keeper/keeper.go:175-181 | A completed withdrawal was processed at the time it records |
| SettlementHistory.EscrowOrigin | x/settlement/keeper/keeper.go:199-220 | Every escrow was asked for within the limits and keeps its trade, buyer, seller, amount, method and time; its fee is the rate's share of the amount, truncated |
| SettlementHistory.EscrowFunded | x/settlement/keeper/keeper.go:242-252 | A funded or completed escrow was funded in time by an event whose reference and time it keeps |
| SettlementHistory.EscrowRefunded | x/settlement/keeper/keeper.go:310-322 | A refunded escrow was refunded by an event and not completed before |
| SettlementHistory.RecordOrigin | x/settlement/keeper/keeper.go:275-296 | Every record was written by an execution of its escrow and keeps that event's units, height and time; its price is the truncated price of a million units |
| SettlementKeeper.Keeper.CreateDepositIntent | x/settlement/keeper/keeper.go:65-98 | Stores a pending deposit under a new id, or reports why not |
| SettlementKeeper.Keeper.ConfirmDeposit | x/settlement/keeper/keeper.go:101-127 | Confirms a pending deposit in time with its reference and time and counts it, marks a late one expired, or reports why not; the ledger stays consistent |
| SettlementKeeper.Keeper.CreateWithdrawalRequest | x/settlement/keeper/keeper.go:134-163 | Stores a request whose amount exceeds its fee, or reports why not |
| SettlementKeeper.Keeper.ProcessWithdrawal | x/settlement/keeper/keeper.go:166-188 | Completes a pending request once with its time and counts its amount and fee; the ledger stays consistent |
| SettlementKeeper.Keeper.CreateEscrow | x/settlement/keeper/keeper.go:195-226 | Stores a pending escrow within the limits under a new id and counts it as active |
| SettlementKeeper.Keeper.FundEscrow | x/settlement/keeper/keeper.go:229-255 | Funds a pending escrow in time, fails a late one, or reports why not |
| SettlementKeeper.Keeper.ExecuteSettlement | x/settlement/keeper/keeper.go:258-303 | Completes a funded escrow, records it and counts its amount and fee; records and completed escrows stay one to one |
| SettlementKeeper.Keeper.RefundEscrow | x/settlement/keeper/keeper.go:306-325 | Marks any escrow but a completed one refunded; the branch lowering the counter is never taken |
| EnergySupply.RunLedgers | x/burn/keeper/keeper.go:84-117 | After any history the bank supply is minted less burned, no account is overdrawn, and every minting and burning total is the sum over the stored records, burns by source included |
| EnergySupply.Backed | x/energymint/keeper/keeper.go:91-122 | After any history, with energy below zero added back, minted uftg and the supply stand for at most the energy backed and fall short by less than one uftg a certificate; there is nothing to add back if and only if no certificate carries negative energy, as while no minimum is set below zero |
| EnergySupply.NegativeEnergy | x/energymint/keeper/keeper.go:79-94 | With a minimum below zero a certificate of negative energy is accepted and leaves the energy backed below zero |
| EnergySupply.TokensBacked | x/energymint/keeper/keeper.go:91-94 | A mint is backed if and only if its energy is not negative, and exact if and only if the energy is a whole number of uftg |
| EnergySupply.TokensInexact | x/energymint/keeper/keeper.go:91-94 | One MWh and the smallest fraction more mint what one MWh does |
| EnergySupply.MintCredits | x/energymint/keeper/keeper.go:91-110 | The tokens go to the destination, or to the sender when none is named, and to nobody else |
| EnergySupply.MintThenBurn | x/burn/keeper/keeper.go:84-117 | The recipient of a mint can burn its tokens if and only if they reach the minimum, which restores every balance and the supply and counts them as burned |
| EnergySupply.RecordsForever | x/energymint/keeper/keeper.go:112-118 | Registered certificates and stored burns never change, whatever happens later |
| EnergySupply.MintsAtMostOnce | x/energymint/keeper/keeper.go:86-89 | An external certificate has minted once if it is registered and never otherwise |
| EnergyHistory.RunAllowed | x/energymint/keeper/keeper.go:64-98 | After any history a mint goes through if and only if the sender's last permission lets it mint, provenance, hash and energy meet the parameters last set, and the certificate has not minted; a burn, if and only if its source, merchant permission, amount and funds allow; otherwise nothing changes |
| EnergyHistory.RunPermissions | x/energymint/keeper/keeper.go:152-168 | Who may mint, who may burn for merchants and the parameters are what the last events on them said |
| EnergyHistory.CertificateOrigin | x/energymint/keeper/keeper.go:112-118 | Every registered certificate came from an allowed mint and keeps that event's sender as owner, its energy, hash and provenance, and that energy's tokens |
| EnergyHistory.BurnOrigin | x/burn/keeper/keeper.go:106-114 | Every stored burn came from an allowed event and keeps its sender, amount, source and revenue |
| EnergyHistory.RunBalance | x/energymint/keeper/keeper.go:96-110 | After any history an address holds the tokens allowed mints and transfers brought it less what it burned and sent |
| EnergyHistory.RunTotals | x/energymint/keeper/keeper.go:120-122 | The totals grow by the tokens and energy of an allowed mint and the amount of an allowed burn, and on no other event |
| EnergyHistory.MintRefused | x/energymint/keeper/keeper.go:64-89 | Once the reason a mint is refused for is made up for, it goes through or is refused at a later check; a certificate that has minted never mints again |
| EnergyHistory.BurnRefused | x/burn/keeper/keeper.go:70-97 | Once the reason a burn is refused for is made up for, it goes through or is refused at a later check |
| EnergySupplyKeeper.Keeper.MintFromCertificate | x/energymint/keeper/keeper.go:50-149 | Mints to the destination, or the sender if there is none, and registers a new certificate, or reports why not and changes nothing; the supply and all totals stay in agreement |
| EnergySupplyKeeper.Keeper.IsAcceptedProvenance | x/energymint/keeper/keeper.go:277-284 | The search finds the kind if and only if it is listed |
| EnergySupplyKeeper.Keeper.BurnTokens | x/burn/keeper/keeper.go:57-140 | Burns from the sender, who is not overdrawn, stores the event and updates the statistics, or reports why not and changes nothing; the supply and all totals stay in agreement |
| EnergySupplyKeeper.Keeper.UpdateBurnStats | x/burn/keeper/keeper.go:200-218 | The bucket of the source grows by the amount and no other does, so the buckets make up as much of the total as before, and revenue grows for merchant burns only |

## Left out

- ExchangeRuns.RunBooks: stated for runs without a restart that finds an active market order, because rebuilding puts such an order on a book (ExchangeBooks.RebuildExact and RebuildUncrossed say exactly when, ExchangeExamples.RestartUncovered shows it).
- ExchangeRuns.RunFitsInt64: covers the products formed while matching and settling; sums of balances and the product checked on entry are unbounded integers here, as are all other amounts.
- OrderBook.SortByPrice: an insertion sort stands for the library sort; callers use only that its result is some sorted arrangement, so nothing is claimed about the order inside a price level.
- More than one trading pair: one pair is modelled, and any other pair id is rejected as unknown.
- Aliasing: wallets and orders are values under their ids instead of shared pointers, and the source's id strings are their sequence numbers.
- Strings for sides, order types and statuses are datatypes; in the source an unknown side acts as a sell and an unknown type as a market order.
- Identity verification applications and screening: a verification decision is an event that sets a wallet's tier and standing to anything, reactivation included, which the source never does.
- Persistence, file paths, mutexes, events and logging: every exported method is one atomic step, and a reload is the rebuilding of the books from the stored orders.
- Wall-clock time: the day, the height and the time are parameters of each operation.
- Order expiry, price ticks, size increments and the credit of fees to a collector: the code has fields for them and no behaviour.
- Recent trades, user orders, statistics and the other queries: they only filter or count.
- Settlement statuses for executing and disputed escrows, which no operation sets; the addresses generated for deposits.
- Bank, key-value store and decimal types of the Cosmos SDK: balance maps, finite maps and integers scaled by 10^18; the module account that coins pass through on their way in and out is not kept.
- Transfers out of the committed wallet that bypass the treasury: the treasury's bank lets others move any coins but those.
- Merchant data of a burn other than its energy revenue, and the flag enabling merchant burns, which the code never turns off.
- x/provenance, x/kyc, the daemon under cmd/ftgd and its HTTP handlers: record stores, table lookups and plumbing.
