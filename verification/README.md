# Verified model of the A2A GPU marketplace ledger and deposit watcher

This project models, in Dafny, the core of a small Go service in which
"agents" fund an on-platform credit balance by sending chain value to the
owner's receiving wallet, and spend that balance renting GPU offers from
providers, with one percent of every price withheld as a fee. The SQL tables
are plain in-memory values:

- `agents`: a `map<string, int>` from wallet to balance (module `Ledger`);
- `providers`: a `seq<Offer>` in insertion order (module `Catalog`);
- `a2a_jobs`: an append-only `seq<Job>` (module `Transfers`);
- the watcher's in-memory `lastBlock` cursor (module `Watcher`).

Every handler is a pure function over these values. `Transfers.Rent` models
the rent handler. `Watcher.Cycle` is one polling cycle of the watcher, and
`Watcher.Poll` is the same cycle written as the source's loops. `Reports`
holds the read-side queries. `Platform.Step` runs the whole service as a
sequential state machine over the four tables.

What is proved:

- fee arithmetic is exact and splits a price into two non-negative parts;
- a rejected rent changes nothing;
- a successful rent debits the renter the price and credits the
  client-supplied wallet the net;
- a successful rent appends exactly one job and removes exactly the fee from
  the sum of all balances;
- balances stay non-negative;
- a block scan credits each sender exactly the qualifying value they sent;
- within one process lifetime the cursor never moves back, and a restart
  resets it to 0, so the last ten blocks are scanned and credited again;
- the sum of balances plus the recorded fees changes only by credited deposits.

The model follows `main.go`, including these behaviours:

- Deposits are not deduplicated by transaction hash. A transaction listed
  twice is credited twice (`Watcher.DuplicateCreditedTwice`), and a block
  scanned before and after a restart is credited twice
  (`Platform.RestartRecredits`).
- The cursor is not persisted. It is 0 at start-up, and a zero cursor is reset
  to ten blocks behind the head. A restart therefore rescans the last ten
  blocks, crediting them again. If more than ten blocks passed since the
  cursor was last advanced, the blocks between the old cursor and head − 10
  are never scanned, and their deposits are never credited
  (`Platform.BootThenCycleRescans` fixes the credit at exactly blocks
  head−9..head).
- There is no "unknown provider" error. An unknown `provider_id` reads as price
  0, because the ignored Scan error leaves the variable at zero, so the rent
  goes through as a free transfer (`Transfers.UnknownProviderIsFree`). The price
  lookup does not look at the offer's status.
- A zero renter balance is its own rejection ("INSUFFICIENT CREDITS"), checked
  before the price comparison.
- The payee is the wallet the client supplies, not the offer's wallet.
- The fee is credited to no account, although the owner wallet is labelled as
  the fee destination. `Transfers.RentConservation` states the loss exactly.
- The fee is `price / 100` computed with `big.Int.Div`. That is Euclidean
  division, so it coincides with Dafny's `/` for every integer, negative ones
  included.

When renter and payee are the same wallet, the debit and the credit hit the
same row, and that wallet loses only the fee. `Rent`'s contract states this
case separately.

## Model

| member | source | states |
|---|---|---|
| Ledger.Balance | main.go:234-239 | a wallet with a row reads its balance; an unknown wallet reads as 0 |
| Ledger.Credit | main.go:145-147 | the upsert creates the row if absent, adds exactly the amount to that wallet, and leaves every other wallet unchanged |
| Ledger.Debit | main.go:211-212 | the conditional update subtracts the amount from an existing row only; an absent wallet gets no row; other wallets are unchanged |
| Ledger.TotalCredit | main.go:145-147 | an upsert-credit raises the sum of all balances by exactly its amount |
| Ledger.TotalDebit | main.go:211-212 | a debit of an existing row lowers the sum of all balances by exactly its amount; otherwise the sum is unchanged |
| Ledger.CreditKeepsNonNegative | main.go:145-147 | crediting a non-negative amount keeps every balance non-negative |
| Ledger.CreditTwiceAddsTwice | main.go:145-147 | no idempotency: the same credit applied twice adds twice its amount |
| Catalog.Seed | main.go:116-129 | the three offers are inserted only into an empty table; a non-empty table is unchanged |
| Catalog.SeedIdempotent | main.go:118-120 | a second seeding run changes nothing |
| Catalog.SeedKeepsPricesNonNegative | main.go:120-128 | after seeding all prices are non-negative; freshly seeded offers are online with positive prices |
| Catalog.Find | main.go:193 | returns the index of the first row with the node id, or nothing exactly when no row has it |
| Catalog.PriceOf | main.go:191-193 | the price is the first matching row's price; with no matching row it is 0; it is non-negative when all listed prices are |
| Catalog.OnlineOffers | main.go:159 | an offer is listed exactly when it is in the table with status "ONLINE" |
| Catalog.OnlineOffersAppend | main.go:159-171 | the listing of concatenated tables is the concatenation of their listings, so table order is kept |
| Catalog.OnlineOffersAllOnline | main.go:159 | a table whose every row is "ONLINE" is listed whole and in order |
| Catalog.SeedAllOnline | main.go:122-127 | all three seeded offers appear in the listing, in order |
| Transfers.Fee | main.go:200-202 | the fee is the Euclidean quotient by 100 (100·fee ≤ price < 100·fee + 100); for price ≥ 0 it lies in 0..price |
| Transfers.Net | main.go:214-215 | the provider's net is the price less the fee; for price ≥ 0 it lies in 0..price |
| Transfers.FeeSplit | main.go:200-215 | for price ≥ 0, fee and net are non-negative, at most the price, and add up to it; the net is at least 99 times the fee |
| Transfers.FeeExample | main.go:200-215 | a price of 1,000,000 gives fee 10,000 and net 990,000 |
| Transfers.Rent | main.go:176-228 | rejects with "credits" exactly when the renter's balance is 0; rejects in total exactly when the balance is 0 or below the price; a rejection leaves the ledger and job log unchanged; a success appends exactly the job (renter, payee, fee, price); for distinct wallets the renter loses the price and the payee gains price − fee; for one wallet it loses only the fee; the payee row is created if absent; every other wallet is unchanged |
| Transfers.RentConservation | main.go:209-228 | a successful rent lowers the sum of balances by exactly the fee, because no wallet receives it; balances plus logged fees are unchanged by any rent |
| Transfers.RentKeepsNonNegative | main.go:186-218 | with non-negative balances and prices, every balance after a rent is non-negative |
| Transfers.UnknownProviderIsFree | main.go:191-198 | an unknown provider id with a funded renter gives a successful zero-price, zero-fee rent that changes no balance |
| Transfers.UnknownRenterRejected | main.go:186-189 | a renter with no row is refused with "INSUFFICIENT CREDITS", and the ledger and log are unchanged |
| Transfers.SumFees | main.go:248 | the fee sum of an empty log is 0 (the COALESCE); with non-negative fees it is non-negative and at least every single fee |
| Transfers.SumFeesAppend | main.go:248 | appending a job adds its fee to the fee sum |
| Transfers.SumFeesExample | main.go:248 | fees 1, 2 and 3 sum to 6 |
| Watcher.ScanBlock | main.go:141-150 | the wallets of the scanned ledger are the old ones plus the qualifying senders; each wallet gains exactly the qualifying value it sent |
| Watcher.ScanIgnoresNonDeposits | main.go:142 | scanning a block equals scanning only its qualifying transactions (non-nil To equal to the owner wallet, value > 0) |
| Watcher.ScanBlockTotal | main.go:141-150 | a block scan raises the sum of balances by exactly the block's qualifying value |
| Watcher.ScanBlockKeepsNonNegative | main.go:141-150 | a block scan keeps every balance non-negative |
| Watcher.DuplicateCreditedTwice | main.go:141-149 | a qualifying transaction listed twice is credited twice |
| Watcher.SingleTxFilter | main.go:142-148 | one transaction changes the ledger if and only if its To is non-nil and equals the owner wallet and its value is positive |
| Watcher.ScanTransactions | main.go:141-150 | the transaction loop yields the block scan: each wallet gains exactly its qualifying value |
| Watcher.ScanBlocks | main.go:139-152 | scanning blocks lo..hi in ascending order leaves exactly the old rows plus the range's qualifying senders, and adds each wallet's qualifying value over the range |
| Watcher.ScanBlocksTotal | main.go:139-152 | scanning a range raises the sum of balances by exactly the range's qualifying value |
| Watcher.ScanBlocksKeepsNonNegative | main.go:139-152 | scanning a range keeps every balance non-negative |
| Watcher.StartCursor | main.go:137 | a zero cursor becomes head − 10, which is behind the head; any other cursor is kept |
| Watcher.Cycle | main.go:131-152 | a nil header changes nothing; otherwise the cursor ends at max(start, head), at or above the head, and never below the old cursor; the rows are exactly the old rows plus the qualifying senders of blocks start+1..head; each wallet gains exactly its qualifying value from blocks start+1..head |
| Watcher.CaughtUpIsIdle | main.go:139 | a non-zero cursor at or past the head makes the cycle a no-op |
| Watcher.RestartRescansLastTen | main.go:132-139 | starting from cursor 0, a cycle moves the cursor to the head and credits blocks head−9..head |
| Watcher.ScanRange | main.go:139-152 | the block loop yields exactly the ascending scan of blocks start+1..current, and `lastBlock` ends at max(start, current) |
| Watcher.Poll | main.go:133-153 | the source's loop body computes exactly one cycle; the cursor ends at or above the head and does not move back |
| Reports.GetOverview | main.go:243-255 | the agent count is the number of ledger rows; the node count is at most the table size; it is 0 when no offer is online and the full table size when every offer is; the revenue is the sum of the logged fees, 0 for an empty log |
| Reports.OverviewRevenueExample | main.go:248 | after transfers with fees 1, 2 and 3 the overview reports revenue 6 |
| Reports.RentRaisesRevenue | main.go:248 | a successful rent raises the reported revenue by exactly its fee |
| Reports.Newest | main.go:258 | gives min(n, length) jobs; entry i is the i-th newest job |
| Reports.Recent | main.go:257-271 | gives min(20, length) jobs, newest first |
| Reports.RecentIsReversedTail | main.go:258 | every listed job comes from the last min(20, length) rows; a log of at most 20 rows is listed whole |
| Reports.RentHeadsRecent | main.go:221-222 | the job a successful rent appends is first in the recent list |
| Platform.Step | main.go:49-71 | a process start seeds the catalog and resets the watcher's cursor to 0, leaving ledger and log alone; a rent sets ledger and log to the rent's result and touches nothing else; a cycle sets ledger and cursor to the cycle's result and touches nothing else; the log only grows at its end, by at most one row; rents and cycles never move the cursor back; no wallet row disappears |
| Platform.InitialValid | main.go:82-113 | empty tables and a zero cursor satisfy the invariants |
| Platform.StepKeepsValid | main.go:116-228 | every event keeps balances and prices non-negative and the cursor at or above 0 |
| Platform.StepConservation | main.go:131-228 | over any event, balances plus logged fees grow by exactly the deposits that event credits |
| Platform.RunKeepsValid | main.go:49-71 | the invariants hold after any sequence of events from a valid state |
| Platform.RunMonotone | main.go:49-71 | over any run the job log is append-only and no wallet row disappears; over a run without a process start the cursor never moves back |
| Platform.RestartRecredits | main.go:51-54 | from a zero cursor, a cycle, a restart and a cycle at the same head credit blocks head−9..head twice, since the cursor is not persisted (main.go:132) |
| Platform.BootThenCycleRescans | main.go:51-54 | whatever the cursor was, a process start followed by a cycle at the head credits blocks head−9..head again and leaves the cursor at the head |

## Left out

- The database and chain plumbing is left out. Postgres connection and schema DDL (`main.go:33-40`, `82-113`) are not modelled. The tables are values.
- The Ethereum client is left out. The chain head (None for a nil header) and the block contents (a total function from height to transactions) are parameters.
- The nil-block panic (`main.go:141`) is left out, because a block can always be read in the model.
- HTTP routing, the POST method check, JSON decoding and encoding, and the frontend page are left out. They are I/O and UI only.
- `adminAuth` credential gating is left out. It is HTTP-level access control, not ledger logic.
- Concurrency is left out. The watcher goroutine and the check-then-act window between the balance read and the debit are not modelled. Every rent is one sequential step, and no atomicity under concurrent callers is claimed.
- Time is left out: `time.Sleep` polling, row timestamps and their formatting.
- The `activity_log` table and its message strings are left out. They are written but never read.
- The `banned` column and the SERIAL ids are left out. Neither is read by the modelled logic. The job log's order stands in for `ORDER BY id`.
- Integer widths are left out. `int64`/`BIGINT`/`big.Int` overflow is not modelled, and all amounts are mathematical integers.
- Query row order is a modelling choice. The price lookup and the provider listing have no `ORDER BY`, and the model takes table insertion order, so the first matching row wins.
- Errors the source ignores are not modelled beyond the zero-value reads of balance and price.
- Reports.GetOverview: the contract pins the node count exactly only when no offer or every offer is online. In general it is the length of `Catalog.OnlineOffers`, whose contract fixes which offers it holds.
