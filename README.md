# Xian monthly competition leaderboard scorer, in Dafny

This project models the scoring core of the activity dashboard's `main.js`. The dashboard scores
wallet addresses for a May 1 → June 1 (UTC) competition. It reads a list of already-fetched chain
transactions and puts each successful one into one of three cases:

- an XNS name mint (`con_name_service_final.mint_name`) earns its sender a fixed 5 points;
- a bridge mint (`con_usdc.mint`) earns its destination address `kwargs.to` one point per 10 USDC,
  at most 50;
- any other transaction earns points only through its `Swap` events on pair `"1"` of `con_pairs`.
  Each such event earns its signer one point per 10 USDC-equivalent swapped, with nothing below
  10 USDC and at most 50. One unit of the native currency counts as 0.01 USDC.

The points go into a per-address table. The scorer then sorts the table by points, highest first.

Modules, following the parts of `main.js`:

- `Points` (points.dfy): the scoring constants, `toUsdcFromCurrency`, `pointsForBridge` and
  `pointsForSwap`.
- `Records` (records.dfy): the decoded transaction and event records. An amount field is absent
  (read as `"0"`), a number, or unreadable (NaN, written `None` once parsed). NaN fails every `> 0`
  test.
- `Classifier` (classifier.dfy): the `FIXED_ACTIONS` table and its `contract|function` key. It
  also holds the credits, i.e. (address, points) contributions, that one transaction yields. It
  follows the early returns of `buildLeaderboard`: failure, then fixed action, then bridge mint,
  then events.
- `Aggregator` (aggregator.dfy): the score table as a fold of the credits (`Leaderboard`, the
  specification). It also holds the imperative pass `BuildLeaderboard` with its per-transaction
  step `ScoreTx` and inner event loop `ScanEvents`. Each is proved equal to the fold. Lemmas state
  what each kind of transaction does to the table.
- `Ranker` (ranker.dfy): `sortScores`, modelled as `Object.entries` (`Entries`) followed by a sort
  on points (`SortByPoints`). The result is proved to list every entry exactly once, with points
  non-increasing.
- `DateRange` (daterange.dfy): `getMayJuneRange` with the year as a parameter. It returns the two
  time values in milliseconds, computed as ECMAScript's `Date.UTC` does (DayFromYear, InLeapYear,
  MakeDay, and years 0–99 read as 1900 + year).
- `Scenario` (scenario.dfy): a worked run on three transactions, and a dust swap.

Notes on what `main.js` does:

- The ranking is not strictly descending. Equal scores keep whatever order the sort leaves them
  in, so the model promises only non-increasing points.
- A failed transaction, a fixed action and a bridge mint never have their events scanned. The
  fixed-action and bridge branches `return` before the event loop.
- There is no net-flow accounting, time decay, bonus window or deduplication set, which earlier
  revisions of the dashboard had.
- An unreadable or non-positive amount earns nothing and is skipped, so the address does not
  become a key. A positive amount that earns 0 points (a bridge below 10 USDC, a swap worth
  between 0 and 10 USDC) does make the address a key, with 0 points.
- `pointsForBridge` has no lower clamp. It is only called with amounts above zero, so its result
  lies in [0, 50].

## Model

| member | source | states |
|---|---|---|
| `Points.ToUsdcFromCurrency` | main.js:41-43 | the USDC value is one hundredth of the currency amount, and is positive exactly when the amount is |
| `Points.PointsForBridge` | main.js:45-47 | the result is at most 50, non-negative for a non-negative amount, exactly 50 from 500 USDC up, and below that the floor of amount/10 (pts·10 ≤ amount < (pts+1)·10) |
| `Points.PointsForBridgeMonotone` | main.js:45-47 | bridging more never earns fewer points |
| `Points.PointsForSwap` | main.js:49-52 | 0 below 10 USDC; from 10 USDC up, in [1, 50]; 50 from 500 USDC up; in between, the floor of usdcEq/10 |
| `Points.PointsForSwapMonotone` | main.js:49-52 | swapping more never earns fewer points |
| `Classifier.FixedKeyMatches` | main.js:99-100 | the key `contract + "\|" + fn` is in `FIXED_ACTIONS` exactly when contract is `con_name_service_final` and fn is `mint_name` |
| `Classifier.FixedPoints` | main.js:34-36 | a (contract, function) pair has fixed points exactly for the XNS name mint, and they are 5 |
| `Classifier.SwapUsdcEq` | main.js:123-126 | the USDC equivalent is a number exactly when neither amount is unreadable, and then it is amount0In + amount1In / 100, a missing amount counting as 0 |
| `Classifier.MissingAmountIsZero` | main.js:123-124 | a missing `amount0In` or `amount1In` gives the same USDC equivalent as an explicit 0 |
| `Classifier.EventCredit` | main.js:117-130 | an event yields a credit exactly when it is a `Swap` of `con_pairs` on pair "1" with a positive USDC equivalent; the credit goes to the signer, is `pointsForSwap(usdcEq)` and lies in [0, 50] |
| `Classifier.EventCreditsShape` | main.js:116-131 | at most one credit per event, each in [0, 50], each to the signer of some pair-1 swap event of the list |
| `Classifier.BridgeCredit` | main.js:106-111 | a bridge mint yields a credit exactly when the parsed amount is > 0 and `to` is truthy; it goes to `to` and is `pointsForBridge(amount)`, in [0, 50] |
| `Classifier.TxCreditsShape` | main.js:93-131 | a failed transaction yields no credit; every credit is in [0, 50] and goes to the sender, the `to` address or the signer of a pair-1 swap event |
| `Classifier.AllCreditsBounded` | main.js:93-132 | every credit of the whole pass lies in [0, 50] |
| `Aggregator.AddPoints` | main.js:101 | `scores[addr] = (scores[addr] \|\| 0) + pts`: `addr` becomes a key holding its old points plus `pts`, and every other entry is unchanged |
| `Aggregator.TallyAt` | main.js:91-132 | after folding credits, an address is a key iff it was one or some credit names it, and it holds its old points plus the sum of its credits |
| `Aggregator.LeaderboardTotals` | main.js:90-132 | each address's final score is the sum of its contributions over all transactions and events; the keys are exactly the addresses that received a contribution, 0-point ones included |
| `Aggregator.LeaderboardNonNegative` | main.js:90-132 | no address ends with a negative score |
| `Aggregator.LeaderboardAppend` | main.js:93-132 | processing one more transaction folds exactly that transaction's credits into the table |
| `Aggregator.FailedTxIgnored` | main.js:94 | a failed transaction leaves the table unchanged, whatever it contains |
| `Aggregator.FixedActionCredit` | main.js:99-103 | a successful XNS name mint adds exactly 5 to its sender and nothing else |
| `Aggregator.BridgeMintCredit` | main.js:106-113 | a successful `con_usdc.mint` adds `pointsForBridge(amount)` to `to` (not to the sender) when amount > 0 and `to` is truthy, and otherwise changes nothing |
| `Aggregator.SwapEventsCredit` | main.js:115-131 | any other successful transaction changes the table only through its events' credits |
| `Aggregator.EventStep` | main.js:116-131 | one more event adds `pointsForSwap(usdcEq)` to its signer when it is a pair-1 swap with usdcEq > 0, and otherwise leaves the table as it was |
| `Aggregator.EventsIgnoredUnlessScanned` | main.js:94-113 | a failed transaction, a fixed action or a bridge mint gives the same table whatever its events |
| `Aggregator.LeaderboardGrows` | main.js:93-132 | scores only grow during the pass: a key of an earlier table stays a key later, with at least as many points |
| `Aggregator.LeaderboardSwapNeighbours` | main.js:93-132 | swapping two neighbouring transactions does not change the final table |
| `Aggregator.TallyOne` | main.js:101 | folding a single credit adds its points to its address |
| `Aggregator.ScoreEvent` | main.js:117-130 | the event callback, with its early return, adds `pointsForSwap(usdcEq)` to the signer exactly when the event is a pair-1 swap with usdcEq > 0, and otherwise leaves the table unchanged |
| `Aggregator.ScanEvents` | main.js:116-131 | the inner event loop leaves the table equal to the fold of the events' credits over it |
| `Aggregator.ScoreTx` | main.js:93-131 | the per-transaction step, with its early returns, leaves the table equal to the fold of that transaction's credits over it |
| `Aggregator.BuildLeaderboard` | main.js:90-133 | the pass over all transactions returns exactly `Leaderboard(txs)`, the fold of all credits |
| `Ranker.Entries` | main.js:141 | `Object.entries` lists every (address, points) entry of the table exactly once |
| `Ranker.Insert` | main.js:141 | inserting into a points-non-increasing list keeps it non-increasing, and every entry of the result is the new one or an old one |
| `Ranker.InsertPermutes` | main.js:141 | inserting adds exactly the new entry: the result is the old entries plus it, as a multiset |
| `Ranker.SortByPoints` | main.js:141 | the sorted list has points non-increasing and is a permutation (same multiset) of its input |
| `Ranker.SortKeepsDistinct` | main.js:141 | sorting entries with distinct addresses keeps them distinct |
| `Ranker.SortScores` | main.js:140-142 | the result lists every entry of the table exactly once, in order of non-increasing points |
| `Ranker.RankingPointsUnique` | main.js:140-142 | any two rankings of one table have the same points at every position: only ties can be ordered differently |
| `DateRange.MayJuneRange` | main.js:16-22 | the window starts at a midnight and is exactly 31 days long |
| `DateRange.DayFromYearStep` | main.js:19-20 | the day number of January 1 advances by 366 days after a leap year and by 365 otherwise |
| `DateRange.MayIsThirtyOneDays` | main.js:19-20 | in every year, June 1 is 31 days after May 1 |
| `DateRange.MayJuneRangeNextYear` | main.js:16-22 | next year's window starts 365 days later, or 366 when next year is a leap year |
| `DateRange.TwoDigitYears` | main.js:19-20 | a year from 0 to 99 gives the window of 1900 + year, as `Date.UTC` does |
| `DateRange.MayJuneRange2025` | main.js:19-20 | the 2025 window is 1746057600000 to 1748736000000 ms (2025-05-01 and 2025-06-01, 00:00 UTC) |
| `Scenario.ScenarioTable` | main.js:90-132 | a bridge of 100 USDC to A, a 25 USDC swap by B and a failed transaction naming C give the table {A: 10, B: 2}; C never appears |
| `Scenario.ScenarioRanking` | main.js:140-142 | the only ranking of {A: 10, B: 2} is [(A, 10), (B, 2)] |
| `Scenario.DustSwapAddsKey` | main.js:127-130 | a pair-1 swap worth 5 USDC (500 native currency) makes a new signer a key with 0 points |

## Left out

- The HTTPS redirect through `window.location` (main.js:9-11) is browser plumbing.
- The GraphQL query text, the `fetch` to the node and its promise chain (main.js:57-85) are network
  I/O. `buildLeaderboard`'s input is modelled as the already-decoded sequence of records.
- `renderTable` and `showError` (main.js:144-162) are DOM and console output. `BuildLeaderboard`
  returns the table instead of rendering it.
- Reading the clock (`new Date().getUTCFullYear()`) is left out: the year is a parameter of
  `MayJuneRange`. The `toISOString` text and ECMAScript's TimeClip range check are also left out,
  so the window is a pair of integers.
- Floating point is left out. Amounts are exact reals, so `* 0.01` does not round and there is no
  `Infinity`.
- `parseFloat`'s reading of text is left out. Each field arrives already classified as absent, a
  number, or unreadable.
- JavaScript's dynamic values are left out. Addresses and names are strings. A missing `signer`
  (which the code would store under the key "undefined") and a non-string `to` are not modelled.
- The code keeps scores in a plain object, so an address equal to an `Object.prototype` property
  name such as `constructor` would misbehave there. The model uses a `map`, where it does not.
- The order of `Object.entries` and the order the host sort gives equal scores are not fixed.
  `Entries` picks keys in any order, and `SortScores` promises only a permutation with
  non-increasing points.
