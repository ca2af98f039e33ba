# Portfolio position engine and PnL analytics, in Dafny

This project models the position engine and the portfolio summary of a
portfolio tracker. A user records BUY and SELL transactions for assets. The
engine keeps one position per held asset, with a quantity, a weighted average
buy price and the capital invested. It writes the realized PnL of each SELL
onto the transaction. Deleting a transaction rebuilds its asset's position by
replaying the asset's remaining transactions in date order. The summary folds
positions and transactions into totals, and into PnL over trailing windows of
7, 30 and 365 days and over all time.

Modules:

- `Models` (models.dfy): transactions as submitted and as stored, positions,
  and the stored row's total amount `quantity * price + fee`.
- `PositionEngine` (engine.dfy):
  - `Apply`, the single step that updates a position after one transaction.
  - `Replay`, its left fold over a history.
- `DateOrder` (date_order.dfy): the replay order of one asset's transactions,
  ascending by date.
- `Ledger` (ledger.dfy): one user's store as a value. It holds the positions
  keyed by asset id, the ledger of transactions and the next id. The
  functions `ApplyAt`, `Create`, `Partial`, `Recompute` and `Delete` are its
  transitions. This module also holds the replay-equivalence theorem.
- `PortfolioStore` (store.dfy): the class `Portfolio`. Its fields are updated
  in place, and each method is proved to reach exactly the state of the
  matching `Ledger` function. `RecalculatePosition` carries a loop invariant:
  after `k` iterations the store equals `Partial(b, a, k)`, the replay of the
  first `k` transactions in date order.
- `Analytics` (analytics.dfy): the portfolio summary and its period windows.

Modelling choices:

- Amounts are exact `real`s.
- Dates and `now` are integer timestamps in seconds, and a day is
  86400 seconds.
- `now` is a parameter of the summary.
- A store holds one user's data.
- The position key is the asset id. The position's own user and asset
  columns are therefore not repeated inside `Position`.
- The two queries that feed the summary are modelled as their results: a
  list of positions and a list of transactions.

The model keeps these behaviours of the code:

- A BUY that opens a position sets the average buy price to the BUY's unit
  price, while the invested capital is the BUY's total amount, fee included.
  `PositionEngine.Apply` states the opened position field by field.
- A fee on that opening BUY therefore breaks
  `total_invested == quantity * average_buy_price`
  (`PositionEngine.FreshBuyBalancedIffNoFee`). A later BUY restores it,
  because it recomputes the average from the invested capital: `PositionEngine.Apply`
  ensures that a BUY into any held position ends balanced, whatever the
  position was before.
- The summary has four period entries: 7 days, 30 days, 365 days and all.
- The label of the 365-day window is `"365d"`, as the f-string
  `f"{days}d"` produces. The schema's comment lists `"1y"` instead.
- A SELL of an asset with no position changes nothing. Its `realized_pnl`
  keeps whatever value it had: 0.0 when it is created, and its earlier value
  when it is replayed.
- The store's query leaves the order of transactions with the same date
  open. The model fixes a stable order: equal dates replay in the order they
  were inserted.

## Model

| member | source | states |
|---|---|---|
| Models.NewTransaction | backend/app/crud.py:93-107 | the stored row has the submitted asset, type, quantity, price, fee and date, total amount quantity * price + fee (at least quantity * price and positive), and realized PnL 0.0 |
| PositionEngine.Apply | backend/app/crud.py:147-186 | BUY on a held position: quantity and invested grow by the BUY's quantity and total amount, and invested == quantity * average afterwards; BUY with no position: a position opens with the BUY's quantity, average = the BUY's unit price, invested = its total amount, and the four price fields at 0.0; SELL on a held position: realized PnL = (price - average) * quantity, the average is kept, invested drops by average * quantity, and the position is removed exactly when the quantity sold is at least the quantity held; SELL with no position: nothing changes; the result's quantity (when a position remains) is always positive; the externally supplied price fields survive |
| PositionEngine.FreshBuyBalancedIffNoFee | backend/app/crud.py:162-169 | a position opened by a BUY satisfies invested == quantity * average exactly when that BUY paid no fee |
| PositionEngine.SellKeepsBalanced | backend/app/crud.py:172-184 | a SELL keeps invested == quantity * average on what remains |
| PositionEngine.ApplyIgnoresStamp | backend/app/crud.py:147-186 | the new position does not depend on the realized PnL already on the transaction, and neither does the stamp a SELL on a held position writes |
| PositionEngine.ApplyStampIsFixpoint | backend/app/crud.py:172-176 | applying a step again to the transaction it already stamped gives the same outcome |
| PositionEngine.Replay | backend/app/crud.py:209-211 | the fold keeps a held position's quantity positive, leaves each transaction recording the same fact, and keeps the history's length |
| PositionEngine.ReplaySnoc | backend/app/crud.py:210-211 | replaying one more transaction is one more engine step |
| PositionEngine.ReplayKeepsBalanced | backend/app/crud.py:153-184 | replaying well-formed transactions, from no position or a balanced one, where no BUY that opens a position paid a fee, ends with no position or a balanced one |
| PositionEngine.ReplayIgnoresStamps | backend/app/crud.py:209-211 | the replayed position depends only on the transactions' recorded facts, not on their stored realized PnL |
| DateOrder.Matching | backend/app/crud.py:199-205 | exactly the ledger entries of the asset, each once, in ledger order |
| DateOrder.SortByDate | backend/app/crud.py:206 | the sort is a permutation of its input |
| DateOrder.SortIsStablySorted | backend/app/crud.py:206 | sorting a ledger-ordered selection orders it by (date, ledger position) |
| DateOrder.SortOfSortedIsIdentity | backend/app/crud.py:206 | on a ledger already in date order the sort changes nothing |
| DateOrder.Order | backend/app/crud.py:199-207 | the replay order lists every transaction of the asset exactly once, ascending by date, ties in insertion order |
| DateOrder.OrderOfSortedLedger | backend/app/crud.py:199-207 | on a ledger in date order the replay order is the ledger order |
| Ledger.EmptyBook | backend/app/models.py:41-80 | a new user's store has no positions or transactions and satisfies the store invariant |
| Ledger.ApplyAt | backend/app/crud.py:147-186 | the step on a stored transaction keeps the store invariant, changes only its asset's position and only that transaction's realized PnL, as the engine step says |
| Ledger.Create | backend/app/crud.py:88-116 | creating appends the row under the next id with total amount quantity * price + fee, then applies it; other assets' positions do not change |
| Ledger.SellOfUnheldAsset | backend/app/crud.py:172-173 | a SELL of an asset with no position changes no position and leaves realized PnL 0.0 |
| Ledger.Partial | backend/app/crud.py:188-211 | after the first k transactions in date order, the asset's position and their stamps are the replay of those k; everything else is unchanged |
| Ledger.PartialStart | backend/app/crud.py:193-196 | before the loop, recomputation has only dropped the asset's position |
| Ledger.PartialStep | backend/app/crud.py:210-211 | each loop iteration is one engine step on the next transaction in date order |
| Ledger.RecomputeIsFullPartial | backend/app/crud.py:209-211 | recomputation is the loop run over every transaction of the asset |
| Ledger.Recompute | backend/app/crud.py:188-211 | recomputation keeps the store invariant, changes no other asset's position, changes no other asset's transactions, and changes only the realized PnL of the asset's transactions |
| Ledger.RecomputeReplaysDateOrder | backend/app/crud.py:188-211 | the asset's position is the left fold of the engine step over its transactions sorted by date, from no position; each of those transactions carries what its step wrote |
| Ledger.RecomputeBalancedWithoutFees | backend/app/crud.py:188-211 | when no BUY that opens a position during the date-ordered replay paid a fee, the recomputed position satisfies invested == quantity * average |
| Ledger.FindTransaction | backend/app/crud.py:79-86 | the result is the first entry with that id and owner; none is returned exactly when there is no such entry |
| Ledger.Delete | backend/app/crud.py:118-126 | deletion succeeds exactly when a transaction with that id and owner exists; on a miss nothing changes; on a hit that transaction is removed and its asset is recomputed; the store invariant holds |
| Ledger.DeleteRemovesOnlyThatTransaction | backend/app/crud.py:118-126 | after a deletion no transaction with that id remains, and the positions of other assets are unchanged |
| Ledger.Live | backend/app/crud.py:88-116 | creating transactions one by one keeps the store invariant and extends the ledger by one row per input, in order, under consecutive ids, each recording that input's asset, type, quantity, price, fee, date and total amount |
| Ledger.CreateSettlesOwnAsset | backend/app/crud.py:88-116 | creating a transaction keeps its asset settled: if its position and stamps were the replay of its entries before, they are afterwards, the new entry last |
| Ledger.CreateKeepsOtherSettled | backend/app/crud.py:88-116 | creating a transaction leaves every other asset's entries and position, and so its settledness, untouched |
| Ledger.CreateKeepsSettled | backend/app/crud.py:88-116 | live creation keeps every asset's position and stamps equal to the replay of its ledger entries |
| Ledger.SettledRecomputeIsIdentity | backend/app/crud.py:188-211 | on a settled store in date order, recomputation changes nothing |
| Ledger.LiveIsSettled | backend/app/crud.py:88-116 | every store built live from an empty one is settled |
| Ledger.RecomputeAgreesWithLive | backend/app/crud.py:188-211 | when transactions are created in date order, recomputing any asset reproduces the live state exactly: the same positions and the same realized PnL on every transaction |
| PortfolioStore.Portfolio.constructor | backend/app/models.py:41-80 | a new store is the empty store |
| PortfolioStore.Portfolio.UpdatePositionAfterTransaction | backend/app/crud.py:147-186 | the in-place update of the position and of the transaction's realized PnL reaches exactly the state ApplyAt describes |
| PortfolioStore.Portfolio.CreateTransaction | backend/app/crud.py:88-116 | insertion plus position update reaches exactly the state Create describes and returns the stored row |
| PortfolioStore.Portfolio.RecalculatePosition | backend/app/crud.py:188-211 | dropping the position and running the loop over the transactions in date order reaches exactly Recompute's state |
| PortfolioStore.Portfolio.DeleteTransaction | backend/app/crud.py:118-126 | returns and reaches exactly what Delete describes |
| Analytics.SumOfPermutation | backend/app/crud.py:221-224 | a total does not depend on the order of the rows it sums |
| Analytics.Percentage | backend/app/crud.py:227 | the percentage times a positive base is the PnL times 100, it has the PnL's sign, and it is 0 when the base is not positive |
| Analytics.Window | backend/app/crud.py:233-234 | a transaction is in the window exactly when it is in the list and dated at or after the window's start |
| Analytics.WindowStart | backend/app/crud.py:233 | a window's start is never after now, and is before now when the window has at least one day |
| Analytics.WindowsNest | backend/app/crud.py:233-234 | narrowing a window to a later start gives the window from that start |
| Analytics.FullWindow | backend/app/crud.py:233-234 | a window that starts no later than every transaction keeps them all |
| Analytics.BoughtGrowsWithWindow | backend/app/crud.py:237 | when no total amount is negative, a window that starts earlier has at least as much BUY capital |
| Analytics.NatToStringRoundTrip | backend/app/crud.py:241 | reading the decimal digits of the day count back gives the day count |
| Analytics.PeriodLabel | backend/app/crud.py:241 | the label is the day count's decimal digits followed by "d" |
| Analytics.PeriodPnl | backend/app/crud.py:232-246 | a period's total is its SELL realized PnL plus the portfolio's unrealized PnL; its percentage is against the period's BUY capital, and 0 when that capital is not positive |
| Analytics.Summary | backend/app/crud.py:214-264 | total PnL = realized over SELLs + unrealized over positions; the percentage is against total invested, and 0 when that is not positive; the counts are the list lengths; the all-time entry carries the overall totals; every window reuses the same unrealized PnL |
| Analytics.EmptySummary | backend/app/crud.py:221-264 | with no positions and no transactions every total, count, PnL and percentage is 0, in every window and in the all-time entry |
| Analytics.SummaryLabels | backend/app/crud.py:241-257 | the windows are labelled "7d", "30d" and "365d" |
| Analytics.SummaryIgnoresOrder | backend/app/crud.py:218-219 | the summary is the same for any order in which the queries return positions and transactions |
| Analytics.PeriodIgnoresOrder | backend/app/crud.py:232-246 | a period's PnL is the same for any order of the transactions |
| Analytics.PeriodsNest | backend/app/crud.py:255-257 | the 7-day window is the 30-day window narrowed to 7 days, the 30-day window is the 365-day window narrowed to 30 days, and each window's transactions are among the next wider one's |
| Analytics.PeriodBoughtGrows | backend/app/crud.py:232-257 | BUY capital grows from 7 to 30 to 365 days and to all time |
| Analytics.RecentHistoryWindowIsAll | backend/app/crud.py:232-263 | when every transaction is within the window, the window's realized PnL is the realized PnL of all SELLs and its total is that plus the portfolio's unrealized PnL, as for all time |

## Left out

- Authentication, password hashing, users and assets: library calls and plain queries; a store is one user's data keyed by asset id.
- Session mechanics (add, commit, refresh, delete) and concurrency: each operation is one atomic transition of the store.
- The HTTP layer, its routing and its 404 mapping: I/O.
- Transaction `notes` and `created_at`, and a position's `last_updated`: recorded but never used by the engine or the summary.
- Floating-point rounding: amounts are exact reals.
- The default fee of 0.0 that the request schema supplies when a client omits the fee (backend/app/schemas.py:54): the model's input always carries a fee.
- The summary's clock: `now` is a parameter.
- The transaction query's skip, limit and descending order: the limit of 10000 is taken as all transactions, and `Analytics.SummaryIgnoresOrder` shows that order does not affect the summary.
- `current_price`, `current_value`, `unrealized_pnl` and `unrealized_pnl_percentage` on Position: nothing in the engine computes them. The engine copies them on every update. A position opened or re-opened by a BUY starts them at their column defaults, 0.0.
- Same-date replay order: the query leaves it open, and the model fixes a stable order.
- The oversell case is modelled as the code has it: no guard, and a SELL of at least the held quantity removes the position.
- Analytics.Summary takes positions as the list the position query returns, not the store's map. The model does not state that this list holds each stored position once.
- The summary returns integer 0 for a guarded percentage; the model returns 0.0.
