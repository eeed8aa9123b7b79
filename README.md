# Confidential-asset exchange demo: coin reservation, settlement and invoices

This project models the core of a demonstration system of small actors on a
sidechain ledger that supports confidential (blinded) assets:

- **The shared helper** (`src/rpc/helper.go`). It holds a reservation table
  (the "lock list") that maps a coin (`txid`, `vout`) to the instant its
  reservation ends. It also holds two coin selectors:
  - `SearchUnspent` gathers coins, largest first, until they exceed a request;
  - `SearchMinimalUnspent` picks one small coin.
- **The exchanger** (`src/charlie/main.go`). It quotes a fixed rate, funds
  the requested side of a swap from its own coins, builds the argument list
  of the transaction template, and releases the spent coins once a
  submitted transaction has been broadcast.
- **The trader** (`src/alice/main.go`). It asks the exchanger for quotations,
  stores them, and settles a chosen offer:
  - it selects its own coins;
  - it builds the transaction arguments, blinded or not;
  - it submits the signed transaction.
- **The merchant** (`src/dave/main.go`). It takes orders for catalogue items
  and hands out a `px:invoice?…` URI. A polling pass then marks each
  pending order paid or timed out.
- **The paying page** (`src/alice/html/alice/alice.js`). It reads an invoice
  URI back into name, address, price and asset, and decides for each
  exchange offer whether the wallet can afford it.

## Modelling choices

The modules follow the source:

| Module | Source it models |
|---|---|
| `Coins` | unspent outputs, their order and sums |
| `Locks` | the reservation table |
| `Selectors` | the shared selectors |
| `Exchanger` | charlie |
| `Trader` | alice's server |
| `Merchant` | dave |
| `FormEncoding` | Go's form encoding and ECMAScript's `decodeURIComponent` |
| `Wallet` | alice's page |

**How the source's effects become inputs:**

- Every call to the ledger, the exchanger or an external program becomes a
  parameter: `listunspent`, `getnewaddress`, `validateaddress`,
  `getreceivedbyaddress`, the HTTP calls and the transaction builder. Each
  such parameter carries the call's outcome, `None` when the call failed.
- Each operation reads the clock once, as the parameter `now`. The
  merchant's polling pass reads it once per order, as `clock(i)`.

**Where the model departs from a literal reading:**

- **Lock keys.** A coin's lock key is the pair `CoinKey(txid, vout)` rather
  than the text `txid:vout`. The text is injective because a decimal number
  holds no `:`.
- **Sorting.** Go's `sort.Sort` is not stable. The model uses one insertion
  sort, and its lemmas rely only on the result being sorted and a
  permutation.
- **The exchanger's rate.** The rate is a float in the source; here it is a
  positive rational. The cost truncates toward zero, as the source's
  float-to-`int64` conversion does.
- **Prices and amounts** are whole numbers.
- **Where the code's behaviour is easy to misread, the model follows the
  code:**
  - A reservation made at `T` with duration `D` can be taken again only
    strictly after `T + D`.
  - The exchanger's submit handler releases the spent coins only after a
    successful broadcast; every failure leaves the table untouched.
  - The minimal selector returns the last candidate that passed its filters,
    not the smallest one. Every candidate it passes stays reserved.
  - The exchanger answers `getexchangerate` and `getexchangeofferwb`, which
    the trader calls, with no handler of its own. Those answers are inputs
    of the trader's operations.
  - The trader's shared reservation table never has its duration set
    (`SetUtxoLockDuration` is never called), so in the source it is zero.
    The model keeps the duration a parameter `d`.

## Model

| member | source | states |
|---|---|---|
| Coins.KeysOfAppend | src/rpc/helper.go:95-99 | appending a coin to a list adds exactly that coin's key to the list's keys, the step by which the unlock loop frees a list one coin at a time |
| Coins.Insert | src/rpc/helper.go:34-42 | inserting a coin into a list sorted by `Less` keeps it sorted and adds exactly that coin to its multiset |
| Coins.Sort | src/rpc/helper.go:147 | sorting by `Less` (ascending or reversed) gives a sorted permutation of the listed coins |
| Coins.GetAmount | src/rpc/helper.go:44-52 | the loop returns the sum of the coins' amounts (the same loop as `getAmount` at src/charlie/main.go:421-429 and src/alice/main.go:563-571) |
| Coins.GetCommitments | src/rpc/helper.go:129-136 | the buffer holds the asset commitment of every coin, in order, and is the commitment list the rest of the model uses |
| Locks.LockTable.constructor | src/charlie/main.go:126-127 | a new table is empty and carries the given reservation duration |
| Locks.LockTable.SetDuration | src/rpc/helper.go:22-24 | the duration becomes the given one and no reservation changes |
| Locks.LockTable.Lock | src/rpc/helper.go:58-77 | a lock succeeds exactly when the coin has no reservation or its reservation ended strictly before now; on success it is reserved until now + duration, otherwise nothing changes |
| Locks.LockTable.Unlock | src/rpc/helper.go:79-84 | the coin's entry is removed and every other entry stays |
| Locks.LockTable.Sweep | src/rpc/helper.go:86-93 | exactly the entries whose reservation ends at or after now remain |
| Locks.LockTable.UnlockUnspentList | src/rpc/helper.go:95-99 | the table loses exactly the keys of the listed coins |
| Locks.ReservationLifetime | src/rpc/helper.go:58-93 | a reservation made at t is refused by `Lock` at every instant up to t + d and is kept by `Sweep` until then; after that, both forget it |
| Locks.SweepPreservesFreedom | src/rpc/helper.go:86-93 | sweeping changes no `Lock` answer at the same instant |
| Selectors.SearchUnspent | src/rpc/helper.go:138-176 | the method returns the selection, and leaves the table, that the selection function gives for the table before the call |
| Selectors.Fund | src/rpc/helper.go:149-167 | the funding loop leaves the running total, the coins taken and the lock table that the funding recursion gives from an empty selection |
| Selectors.FundFromPrefix | src/rpc/helper.go:149-167 | the coins the loop takes extend the ones taken so far |
| Selectors.FundFromTotal | src/rpc/helper.go:149-167 | the running total is the sum of the coins taken |
| Selectors.FundFromTaken | src/rpc/helper.go:149-167 | every coin taken passes the blinding and spendability filters, was free, is now reserved until now + d, and is taken once |
| Selectors.FundFromLocks | src/rpc/helper.go:149-167 | the table after the loop is the one before it with the key of every coin taken reserved until now + d |
| Selectors.FundFromExhaustive | src/rpc/helper.go:149-167 | when the loop runs out of coins without exceeding the request, every eligible coin that was free has been taken |
| Selectors.FundFromSorted | src/rpc/helper.go:147-167 | the coins taken keep the descending order and come from the candidates |
| Selectors.SearchUnspentTaken | src/rpc/helper.go:138-176 | on a successful `listunspent`, the selection succeeds exactly when the coins taken sum to strictly more than the request; each coin taken is eligible and was free, and none is taken twice |
| Selectors.SearchUnspentFunds | src/rpc/helper.go:147-175 | a successful selection is in descending order, comes from the candidates, and all its coins but the last sum to at most the request |
| Selectors.SearchUnspentReserves | src/rpc/helper.go:162-175 | on success, the coins taken are reserved until now + d, and every other entry is as before |
| Selectors.SearchUnspentReleases | src/rpc/helper.go:149-173 | when there are not enough funds, the table is the one before the call without the keys of the coins taken, and no eligible candidate that was free was left untaken |
| Selectors.LastPassing | src/rpc/helper.go:195-211 | the first loop of the minimal selector remembers a valid candidate index, and never an earlier one than it had |
| Selectors.SearchMinimalUnspent | src/rpc/helper.go:178-246 | the method returns the selection, and leaves the table, that the minimal-selection function gives for the table before the call |
| Selectors.LockPassing | src/rpc/helper.go:195-211 | the first loop locks the candidates the recursion locks and reports the index of the last passing candidate, or none |
| Selectors.TakeTies | src/rpc/helper.go:223-242 | the tie loop returns the coin, and leaves the table, that the tie recursion gives from the candidate after `start` |
| Selectors.LastPassingGrows | src/rpc/helper.go:195-211 | the first loop removes no entry, a refused key stays refused, and a loop that takes nothing changes nothing |
| Selectors.LastPassingPick | src/rpc/helper.go:195-211 | the last candidate the loop takes passed the filters, was free, and is reserved until now + d |
| Selectors.LastPassingReserves | src/rpc/helper.go:195-211 | every eligible candidate that was free is reserved until now + d after the loop, and live reservations keep their expiry |
| Selectors.LastPassingBlocked | src/rpc/helper.go:195-211 | in the table the loop ends with, no candidate after the remembered one could still be locked (which is why the tie loop then changes nothing) |
| Selectors.LastPassingLast | src/rpc/helper.go:195-211 | when no two candidates share a key, every candidate after the remembered one was ineligible or reserved in the table the loop started from, and a loop that takes nothing found no eligible free candidate |
| Selectors.LastPassingChanges | src/rpc/helper.go:195-211 | every entry the loop adds or changes was free, belongs to an eligible candidate, and is reserved until now + d |
| Selectors.TieScanIdle | src/rpc/helper.go:223-242 | when no later candidate can be locked, the tie loop keeps the chosen coin and changes nothing |
| Selectors.SearchMinimalUnspentSucceeds | src/rpc/helper.go:187-215 | the minimal selector succeeds exactly when some candidate is eligible and free; when it fails it returns no coin and leaves the table unchanged |
| Selectors.SearchMinimalUnspentPicksLast | src/rpc/helper.go:195-246 | on success it returns exactly one coin, the one the first loop remembered: it passed the filters, was free before the call and is now reserved until now + d, and the tie loop changes nothing |
| Selectors.SearchMinimalUnspentIsLast | src/rpc/helper.go:187-246 | when `listunspent` reports each output once, the coin returned is the last candidate in ascending order that was eligible and free before the call: every later one was ineligible or reserved, so no eligible free coin is larger by `Less` |
| Selectors.SearchMinimalUnspentReserves | src/rpc/helper.go:195-246 | on success, every eligible candidate that was free stays reserved, including those not returned; no entry is removed |
| Selectors.SearchMinimalKeepsLive | src/rpc/helper.go:178-246 | a reservation that has not ended keeps its expiry, whatever `listunspent` answered |
| Selectors.MinimalTakesLastNotSmallest | src/rpc/helper.go:192-211 | with free coins of amounts 1 and 5, the selector returns the coin of 5 and the coin of 1 stays reserved |
| Exchanger.CostTruncates | src/charlie/main.go:342-379 | the cost is the requested amount over the rate, truncated toward zero |
| Exchanger.LookupRate | src/charlie/main.go:342-379 | the lookup fails for a missing offered asset, for a missing requested asset, and for a cost outside [min, max]; otherwise it answers the fee, the offered asset and the cost |
| Exchanger.DefaultQuote | src/charlie/main.go:132 | with the default table, 1000 MELON cost 2000 AKISKY with fee 15, and 10 MELON are below the minimum |
| Exchanger.SearchUnspent | src/charlie/main.go:381-415 | the method returns the selection, and leaves the table, that the exchanger's selection function gives for the table before the call |
| Exchanger.ExFund | src/charlie/main.go:393-406 | the exchanger's funding loop leaves the total, the coins taken and the lock table that its funding recursion gives |
| Exchanger.ExFundFromPrefix | src/charlie/main.go:381-415 | the coins the loop takes extend the ones taken so far |
| Exchanger.ExFundFromTotal | src/charlie/main.go:381-415 | the running total is the sum of the coins taken |
| Exchanger.ExFundFromTaken | src/charlie/main.go:381-415 | every coin taken is spendable or solvable, was free, is reserved until now + d, and is taken once |
| Exchanger.ExFundFromGrows | src/charlie/main.go:381-415 | the loop removes no entry and keeps every live reservation; every entry it adds or changes was free, belongs to a candidate, and is reserved until now + d |
| Exchanger.ExFundFromReached | src/charlie/main.go:381-415 | a run that ends at or under the request has reached every candidate: each one that was free is now reserved until now + d |
| Exchanger.ExFundFromSorted | src/charlie/main.go:381-415 | the coins taken keep the descending order and come from the candidates |
| Exchanger.ExSearchTaken | src/charlie/main.go:381-415 | the selection succeeds exactly when the coins taken sum to strictly more than the request; each coin is spendable or solvable and was free, and none is taken twice |
| Exchanger.ExSearchFunds | src/charlie/main.go:381-415 | a successful selection is descending, comes from the candidates, and all its coins but the last sum to at most the request |
| Exchanger.ExSearchLocks | src/charlie/main.go:381-415 | only the taken coins' entries are removed, and only on failure; a free coin that is neither spendable nor solvable stays reserved even on failure (the lock comes before the test) |
| Exchanger.InputsWithAmount | src/charlie/main.go:243-284 | one input directive per coin, in order, carrying the coin's amount |
| Exchanger.AppendInputsWithAmount | src/charlie/main.go:243-284 | the loop appends exactly those input directives |
| Exchanger.CreateTransactionTemplate | src/charlie/main.go:243-273 | the argument list fails exactly when an address call it needs fails; otherwise it is the option, `-create`, the inputs, an output of the cost in the offered asset, and a change output in the requested asset only when the coins exceed the request |
| Exchanger.TemplateChange | src/charlie/main.go:243-273 | a successful argument list ends with an output: with coins beyond the request, the change in the requested asset, whose amount plus the request equals what the list's inputs carry; otherwise the payment of `cost` in the offered asset |
| Exchanger.TrimNewlines | src/charlie/main.go:282 | the transaction is a prefix of the builder's output that does not end in a newline, and only newlines were cut |
| Exchanger.InputTotalIsSum | src/charlie/main.go:421-429 | the total of the inputs is the sum of the coins' amounts |
| Exchanger.Submit | src/charlie/main.go:286-340 | submission succeeds exactly when decoding, signing and broadcasting all succeed; only then are the inputs' reservations removed; each failure is reported and leaves the table untouched |
| Exchanger.DoOffer | src/charlie/main.go:174-284 | a missing offer or a refused rate changes nothing; otherwise the table is what the selection leaves; a failed selection, address call or builder run is reported with the selected coins still reserved; a successful reply is the quotation carrying the builder's trimmed output for the template arguments of the selected coins and cost |
| Trader.ChooseKnownAssets | src/alice/main.go:149-156 | the balance keeps exactly the assets that have an asset id, with their amounts |
| Trader.GetQuotation | src/alice/main.go:535-557 | a found reference points at a stored offer carrying the id; none is found exactly when no stored offer carries it |
| Trader.IsConfidential | src/alice/main.go:585-602 | a failed or invalid validation is an error; otherwise the address is confidential exactly when it differs from its unconfidential form |
| Trader.Inputs | src/alice/main.go:235-274 | one `in=txid:vout` directive per coin, in order |
| Trader.AppendInputs | src/alice/main.go:235-274 | the loop appends exactly those directives |
| Trader.AppendTransactionInfo | src/alice/main.go:235-274 | building fails exactly when change is due and no change address is at hand; otherwise it gives the option, the template, the inputs, change only when positive, the send output and the fee output |
| Trader.AppendTransactionInfoWB | src/alice/main.go:276-334 | the blinded builder fails exactly when a needed change or loopback address is missing; otherwise it gives the funding then loopback inputs, change and loopback outputs only when positive, the send output, and no fee output |
| Trader.NoBlindingChecksDriftFirst | src/alice/main.go:484-496 | a failed or drifted offer stops the unblinded send before any coin is selected, and leaves table and quotations as they were |
| Trader.NoBlindingStages | src/alice/main.go:469-533 | the unblinded send, stage by stage, given its coin selection |
| Trader.NoBlindingHoldsCoinsOnLateFailure | src/alice/main.go:500-517 | when building or signing fails after selection, the selected coins stay reserved until now + d and the quotation stays stored |
| Trader.NoBlindingSettles | src/alice/main.go:519-530 | once submitted, whatever the exchanger answers, the quotation is deleted and the table is the one before the call without the spent coins' entries |
| Trader.NoBlindingFinishSettles | src/alice/main.go:519-530 | removing the spent coins after a selection that only added their entries gives back the table before the selection |
| Trader.BlindingStages | src/alice/main.go:384-467 | the blinded send, stage by stage, given its two selections |
| Trader.BlindingFinishSettles | src/alice/main.go:410-466 | after both selections, an abort keeps quotation and table; a settlement deletes the quotation and frees the coins spent |
| Trader.BlindingHoldsCoinsOnFailure | src/alice/main.go:399-451 | every abort after the funding selection leaves the funding coins reserved until now + d, and after the loopback selection the loopback coin too; no abort deletes the quotation |
| Trader.BlindingMergesExchangerFirst | src/alice/main.go:410-432 | the commitments handed to blinding are the exchanger's, then the funding coins', then the loopback coin's |
| Trader.BlindingFinishMerges | src/alice/main.go:410-432 | the same, from the two selections on |
| Trader.BlindingSettlementKeepsLoopbackCandidates | src/alice/main.go:404-464 | after a settlement, every free, eligible loopback candidate that was not spent stays reserved until now + d |
| Trader.Trader.constructor | src/alice/main.go:89-96 | the trader starts with no quotation and an empty table |
| Trader.Trader.DoOffer | src/alice/main.go:158-233 | a failed balance query is an error and stores nothing; otherwise every known asset other than the requested one whose rate lookup succeeds gets an offer; the quotation is stored only when there is one, and the response is what is stored |
| Trader.Trader.DoSendWithNoBlinding | src/alice/main.go:469-533 | nothing changes when no stored offer carries the id; otherwise outcome, quotations and table are those of the unblinded send function |
| Trader.Trader.SendNoBlinding | src/alice/main.go:480-533 | once the quotation is found, the outcome, quotations and table are those the unblinded send function gives for the state before the call |
| Trader.Trader.DoSendWithBlinding | src/alice/main.go:384-467 | the same for the blinded send function, which also gives the commitments handed to blinding |
| Trader.Trader.SendBlinding | src/alice/main.go:395-467 | once the quotation is found, the outcome, quotations, table and commitments are those the blinded send function gives for the state before the call |
| Trader.Trader.DoSend | src/alice/main.go:336-382 | an address that cannot be validated stops the send with nothing changed; a confidential address takes the blinded path, any other the unblinded one |
| FormEncoding.Utf8 | src/dave/main.go:121-131 | a character's UTF-8 encoding is one to four bytes |
| FormEncoding.Octet | src/alice/html/alice/alice.js:122 | two hex digits after `%` read as one byte |
| FormEncoding.Continuation | src/alice/html/alice/alice.js:122 | the continuation bytes of a UTF-8 sequence are read only when each is escaped and in range |
| FormEncoding.DecodeStep | src/alice/html/alice/alice.js:122 | each decoding step consumes at least one character and never more than are left |
| FormEncoding.EscapeBytesAlphabet | src/dave/main.go:121-131 | escaped bytes are unreserved characters, `+` or `%` with uppercase hex digits |
| FormEncoding.QueryEscapeAlphabet | src/dave/main.go:121-131 | an escaped value holds no `?`, `&` or `=` |
| FormEncoding.QueryEscapePlain | src/dave/main.go:121-131 | text of unreserved characters escapes to itself |
| FormEncoding.ReplacePlusAppend | src/alice/html/alice/alice.js:122 | replacing `+` works piece by piece |
| FormEncoding.ReplacePlusWithoutPlus | src/alice/html/alice/alice.js:122 | text without `+` is unchanged |
| FormEncoding.HexRoundTrip | src/alice/html/alice/alice.js:122 | reading back an uppercase hex digit gives its value |
| FormEncoding.PercentRoundTrip | src/alice/html/alice/alice.js:122 | a `%XX` escape reads back as its byte |
| FormEncoding.EscapeHighBytes | src/dave/main.go:121-131 | bytes from 0x80 on are always percent-escaped |
| FormEncoding.AsciiCharDecodes | src/alice/html/alice/alice.js:122 | an escaped ASCII character decodes to itself |
| FormEncoding.TwoByteCharDecodes | src/alice/html/alice/alice.js:122 | an escaped two-byte character decodes to itself |
| FormEncoding.ThreeByteCharDecodes | src/alice/html/alice/alice.js:122 | an escaped three-byte character decodes to itself |
| FormEncoding.FourByteCharDecodes | src/alice/html/alice/alice.js:122 | an escaped four-byte character decodes to itself |
| FormEncoding.EscapeCharDecodes | src/alice/html/alice/alice.js:122 | every escaped character decodes to itself, followed by whatever comes next |
| FormEncoding.QueryEscapeRoundTrip | src/alice/html/alice/alice.js:122 | decoding, with `+` read as a space, undoes the merchant's escaping for every text |
| Merchant.Step | src/dave/main.go:79-100 | only a pending order moves: it times out once its deadline is not after now; otherwise it is paid exactly when the ledger answered at least its price, and a failed query or short payment leaves it as it was; only status and modification time change, set to now |
| Merchant.SettledOrdersStay | src/dave/main.go:79-81 | paid and timed-out orders are never touched again |
| Merchant.DeadlineSettles | src/dave/main.go:83-88 | after any pass at or past its deadline, an order is paid or timed out |
| Merchant.DecimalRoundTrip | src/dave/main.go:128 | the decimal numeral of a price reads back as the price |
| Merchant.PriceText | src/dave/main.go:128 | the price text is never empty and, below one million, is the price's numeral |
| Merchant.InvoiceUriEncodes | src/dave/main.go:121-131 | the invoice URI is `px:invoice?` followed by the form encoding of the fields set in the order name, addr, price, asset (so addr, asset, name, price once sorted) |
| Merchant.EncodeInvoiceFields | src/dave/main.go:121-131 | encoding the four fields sorts them and joins them with `&` |
| Merchant.SortFourFields | src/dave/main.go:121-131 | sorting by key puts the fields set in the order name, addr, price, asset into the order addr, asset, name, price |
| Merchant.Shop.constructor | src/dave/main.go:51-53 | a shop starts with its catalogue and no order |
| Merchant.Shop.Poll | src/dave/main.go:79-100 | the pass keeps the book's length and order, turns each order into its polling step at the instant read for it, and keeps the book consistent |
| Merchant.Shop.OrderHandler | src/dave/main.go:104-148 | an unknown item is not found and a failed address call is an error, neither adding an order; otherwise one pending order due the item's timeout after now is appended and its invoice URI returned |
| Merchant.Shop.FindItem | src/dave/main.go:113-114 | the scan over the catalogue finds the requested item exactly when the catalogue holds it |
| Merchant.Shop.Append | src/dave/main.go:134-135 | the new order is appended to the end of the book and the book stays consistent |
| Wallet.Split | src/alice/html/alice/alice.js:114 | splitting gives at least one piece and no piece holds the separator |
| Wallet.SplitJoin | src/alice/html/alice/alice.js:114 | joining the pieces with the separator gives the text back |
| Wallet.SplitWhole | src/alice/html/alice/alice.js:118 | text without the separator is one piece |
| Wallet.SplitAt | src/alice/html/alice/alice.js:114 | the first piece ends at the first separator |
| Wallet.PayInfo | src/alice/html/alice/alice.js:111-137 | a URI whose scheme is not `px:invoice` is rejected with empty pay information; an accepted URI has all four fields non-empty; a rejection empties the pay information |
| Wallet.FillLastPieceWins | src/alice/html/alice/alice.js:119-124 | a later piece for a key replaces an earlier one, and a piece that does not split into two parts changes nothing |
| Wallet.FillKeys | src/alice/html/alice/alice.js:119-124 | without a throw, the keys read are those held before and those of the pieces that split into two parts |
| Wallet.PayPage.constructor | src/alice/html/alice/alice.js:111-137 | the page starts with empty pay information |
| Wallet.PayPage.GetPayInfo | src/alice/html/alice/alice.js:111-137 | the handler's outcome and pay information are those of the pay-information function |
| Wallet.InvoiceRoundTrip | src/dave/main.go:121-131 | the page reads a merchant's invoice back as exactly its name, address, price text and asset, unless the name, address or asset is empty, when it is rejected |
| Wallet.ReadInvoice | src/alice/html/alice/alice.js:111-137 | the same for any non-empty price text |
| Wallet.Row | src/alice/html/alice/alice.js:163-176 | the total is cost plus fee, the remainder is the balance less that total, and the offer is payable exactly when cost plus fee does not exceed the balance |
| Wallet.SetExchangeRate | src/alice/html/alice/alice.js:160-182 | no offer draws nothing; every row drawn belongs to an offered asset the wallet holds; the handler throws exactly when some offered asset is missing from the wallet, and otherwise draws a row for every offered asset |

## Left out

- Floating point: rates are rationals, and prices and amounts are whole numbers.
- Merchant.PriceText: states the value of the text only below one million. The model covers only whole-number prices, and Go's shortest float formatting of a price that is not whole is not modelled.
- Selectors.SearchMinimalUnspentIsLast: is stated for a `listunspent` answer that reports each output once. With a repeated output, a later copy is refused by the lock the earlier copy just took, although it was free before the call.
- 64-bit overflow of amounts, costs and instants. Integers are unbounded.
- Concurrency between the HTTP handlers and the periodic sweep. Each operation runs alone.
- Quotation and offer ids, JSON and HTTP encoding, request-parameter and request-body parsing. The operations start from the decoded values.
- The external transaction builder, blinding and signing are not run. The trader's build, blind, sign and submit outcomes are inputs; the exchanger's builder is a parameter mapping an argument list to its output, or to nothing when the command fails.
- The order in which Go ranges over a map. `GetQuotation` and the order handler pick any matching entry; the page's rows are a map.
- Go text that is not valid UTF-8. The model escapes Unicode text.
- The special handling of a `__proto__` key in a JavaScript object.
- The merchant's `listhandler`, the page's DOM updates, alerts and the exchange-rate request.
- The actors `bob` and `fred` and the configuration loader. They are not part of this model.
