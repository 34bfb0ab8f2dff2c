# The retail core of the tenant store

A Dafny model of the transactional core of a multi-tenant retail back end (Go) and of the till that drives it
(TypeScript): products and stock, checkout and void, stock counts, purchase orders and goods receipts, the
double-entry ledger, idempotent request handling, and exact Rupiah amounts.

One tenant's schema is a value, `Tables.Store`; a database hands out transactions that work on their own copy and
publish it at commit (`Database`). Each operation of the source is a method on that database, with a contract that
says what it leaves in the store and which check refuses it. What commits is also an event (`Events`), and a run is
a sequence of events. `Service.Serve` ties the two: whatever a method does is at most one event, so everything
proved of runs holds of the methods. Preconditions of the methods beyond what request binding and column types
guarantee are parts of the invariant of runs, and `Service` meets them from it.

What is proved, from the bottom up:

- **Money**: overflow detection, splitting, printing and parsing over all 64-bit amounts.
- **Stock and ledger**: balances are the sums of their movements; journals balance; reversal chains and account
  balances; the trial balance; the inventory account moves by exactly the value of the stock moved.
- **Runs**: every sale owns one set of movements and one entry, a void undoes exactly its sale, journals add up to
  the daily figures, purchase orders keep their standing, a received order is owed for exactly, and an
  order can be received to the end exactly when it lists each product once.
- **Interleavings**: the supply-chain and catalogue transactions, lock by lock, always amount to a serial run, never
  deadlock, and never strand an open order on a product that is switched off.
- **Idempotency**: under crashes, lost caches, expired leases and failed updates a checkout key has one sale, and
  every successful answer names it.
- **The till**: end to end with that protocol, a new key is sent only when every earlier one is settled for certain.

Each operation's answer is also said directly in the rows it reads and the figures of its request, without the
functions its method is specified by: when a cart sells and what it leaves (`SaleTerms`), what a receipt takes from its
request (`ReceiptTerms`), which entries a trial balance counts (`BalanceTerms`), what the idempotency layer answers and
how a key survives a crash (`Leases`), who waits for whom (`LockTerms`), a whole sale at the till (`TillTerms`), and
which texts are money (`MoneyTerms`).

Where the code does not do what one would expect, the model follows the code and a lemma says exactly when it does:
multiplication misses one overflow (`Money.MulMissesOneOverflow`), a negative amount cannot be decoded from its own
print (`MoneyText.PrintThenDecode`), a stock card whose start lies beyond its end closes on the wrong balance
(`StockCard.ClosingIsBalanceAtEnd`), and an order that lists a product twice is issued but can never be received
(`Receivability.CompletableIffDistinct`). The function comments call the two-tier lease in Redis an in-flight guard; the code writes
that lease and never reads it, so exclusion rests on the durable row alone.

Sales, orders, receipts and entries are identified by their position in insertion order, products by the place of
their UUID in string order, accounts by code. Files follow the source's components; `dfyconfig.toml` lists them all.

## Model

| member | source | states |
|---|---|---|
| `Money.Money.Add` | backend/pkg/money/money.go:161-173 | exact sum of two amounts of one currency, or an overflow error exactly when it leaves int64 |
| `Money.Money.Sub` | backend/pkg/money/money.go:176-188 | exact difference, or an overflow error exactly when it leaves int64 |
| `Money.MulIsExactOrOverflow` | backend/pkg/money/money.go:191-202 | wrap-then-divide gives the exact product or the overflow error for every pair if and only if the pair is not (MinInt64, -1) |
| `Money.MulMissesOneOverflow` | backend/pkg/money/money.go:191-202 | the pair it misses: MinInt64 times -1 comes back as MinInt64 without an error |
| `Money.ValidateIDR` | backend/pkg/money/money.go:76-91 | accepts exactly the whole amounts from zero to the cap |
| `Money.Split` | backend/pkg/money/money.go:216-240 | fills n parts that add up to the amount, differ by at most one unit, with the shares that take the extra unit first, for either sign |
| `Money.SharesConserve` | backend/pkg/money/money.go:216-240 | the first n shares are n quotients plus what they took of the remainder |
| `MoneyText.Format` | backend/pkg/money/money.go:243-265 | the left-to-right dotting loop prints sign, currency and digits grouped in threes from the right |
| `MoneyText.LeftIsRight` | backend/pkg/money/money.go:251-259 | counting dots from the left puts them where grouping from the right does |
| `MoneyText.Decoded.UnmarshalString` | backend/pkg/money/money.go:295-309 | succeeds exactly when the cleaned text is a 64-bit integer, and otherwise leaves the receiver alone |
| `MoneyText.PrintThenDecode` | backend/pkg/money/money.go:243-309 | printing then decoding returns the amount exactly when it is not negative; a negative print is refused, MinInt64 included |
| `MoneyText.ParseIdr` | frontend/src/lib/money.ts:35-73 | a whole number within the cap passes as it is and no other number does; a text is what it reads as |
| `MoneyText.ParseText` | frontend/src/lib/money.ts:43-73 | the rewriting steps compute what the text means; the checks after the pattern can no longer fail, except the cap |
| `MoneyText.PrintThenParse` | frontend/src/lib/money.ts:31-73 | printing then parsing returns every amount within the tender cap, negative ones where allowed, and no other amount parses |
| `MoneyTerms.PlacesCount` | backend/pkg/money/money.go:303-308 | digits mean what decimal notation says: those in front of n others count for 10 to the n |
| `MoneyTerms.DigitsAreWorth` | backend/pkg/money/money.go:243-265 | an amount is printed in the digits that are worth it, behind its sign |
| `MoneyTerms.DigitsDecode` | backend/pkg/money/money.go:295-309 | bare digits decode to their worth, behind a plus too, behind a minus to its opposite, wherever int64 holds it |
| `MoneyTerms.RupiahReads` | frontend/src/lib/money.ts:41-72 | every accepted form reads as the same amount: bare or dotted, with or without a currency prefix, with zero decimals, behind a minus sign; up to two billion |
| `MoneyTerms.OthersAreRefused` | frontend/src/lib/money.ts:51-52 | nothing, a word, cents and a group of the wrong size are refused |
| `Inventory.ValidateMovementParams` | backend/internal/inventory/repository.go:235-262 | accepts exactly the movements whose sign fits their type; an OPENING may be zero, an IN at least one, an OUT at most minus one, an ADJUSTMENT anything but zero |
| `Inventory.LockInventoryForUpdate` | backend/internal/inventory/repository.go:31-47 | reads the balance, or reports an unknown product |
| `Inventory.PostMovementTx` | backend/internal/inventory/repository.go:50-144 | balance and movement change together, or nothing changes and the error says which check failed |
| `Inventory.PostingKeepsReconciled` | backend/internal/inventory/repository.go:50-144 | posting keeps every balance equal to the sum of its movements, never negative, with distinct sources |
| `Inventory.ReconciledBalanceAddsUp` | backend/internal/inventory/repository.go:197-232 | opening plus subsequent movements is the quantity on hand |
| `Inventory.ReconciledBalanceMoves` | backend/internal/inventory/repository.go:197-232 | one more movement moves the opening sum if it is an OPENING and the other sum if it is not, and the balance by its delta |
| `Ledger.ValidateBalance` | backend/internal/ledger/service.go:96-155 | accepts exactly two or more one-sided lines with equal totals within int64, and names the failing check otherwise |
| `Ledger.SumSides` | backend/internal/ledger/service.go:113-139 | the line loop: both totals, or the first bad line or overflow |
| `Ledger.CreateEntryWithLines` | backend/internal/ledger/repository.go:67-99 | appends the entry unless an account is unknown or the original already has a reversal |
| `Ledger.PostPOSSaleJournal` | backend/internal/ledger/service.go:267-321 | posts the four sale lines exactly when the accounts are active and total and cost are positive |
| `Ledger.PostPOSVoidReversalJournal` | backend/internal/ledger/service.go:324-378 | posts the mirrored four lines under the same condition |
| `Ledger.PostGoodsReceiptJournal` | backend/internal/ledger/service.go:381-419 | posts inventory against payables exactly when both accounts are active and the value is positive |
| `Ledger.PostInventoryAdjustmentJournal` | backend/internal/ledger/service.go:422-490 | values the difference at unit cost and posts it, or posts nothing when it is worth nothing |
| `Ledger.CreateManualEntry` | backend/internal/ledger/handler.go:110-155 | only manual adjustments that balance on known accounts are posted; anything else changes nothing |
| `Ledger.ReverseManualEntry` | backend/internal/ledger/service.go:206-263 | succeeds exactly on an existing POSTED entry, appends its mirror image and links the two |
| `Ledger.MarkEntryReversed` | backend/internal/ledger/repository.go:206-220 | the guarded update changes only a POSTED row |
| `Ledger.PostingKeepsSound` | backend/internal/ledger/service.go:158-203 | a new entry keeps every reversal link sound |
| `Ledger.ReversingKeepsSound` | backend/internal/ledger/service.go:206-263 | a reversal keeps every link sound: each entry reversed at most once, by its own mirror image |
| `Ledger.AcceptableExactlyWhen` | backend/internal/ledger/service.go:96-155 | acceptable lines are two or more, each a positive debit or a positive credit, with equal totals within int64 |
| `Ledger.ReversalLeaves` | backend/internal/ledger/service.go:206-263 | a reversal marks and links the original and appends each of its lines with the sides exchanged, and touches nothing else |
| `Balances.ReversedOnce` | backend/internal/ledger/service.go:206-263 | no two entries share a reversal: chains are disjoint |
| `Balances.OnlyTheLastIsPosted` | backend/internal/ledger/service.go:206-263 | chains run forward in time and exactly their last entry is POSTED |
| `Balances.ChainNetByParity` | backend/internal/ledger/service.go:206-263 | a chain nets to its first entry when it holds an even number of reversals, and to nothing otherwise |
| `Balances.BalanceIsEvenRoots` | backend/internal/ledger/repository.go:159-220 | every account balance is the sum of the root entries that were reversed an even number of times |
| `Balances.CountedOnce` | backend/internal/ledger/repository.go:223-271 | adding per-account totals over distinct accounts counts each of their lines once |
| `Balances.GetTrialBalanceRows` | backend/internal/ledger/repository.go:223-271 | one row per active account in code order, with its debits, credits and normal-side balance as of the date |
| `Balances.AddRows` | backend/internal/ledger/service.go:60-85 | both totals, failing exactly when one leaves int64 |
| `Balances.GetTrialBalance` | backend/internal/ledger/service.go:51-93 | reports balance exactly when switched-off accounts net to zero, and exactly then assets and expenses equal the other side |
| `Balances.TrialBalanceGap` | backend/internal/ledger/service.go:51-93 | debits and credits differ by exactly what sits on switched-off accounts |
| `Balances.SidesDifferLikeTotals` | backend/internal/ledger/repository.go:245-265 | the two sides of the accounting equation differ by what the totals differ |
| `Balances.AllActiveMeansBalanced` | backend/internal/ledger/service.go:51-155 | with every account active, every sound ledger balances on every date |
| `BalanceTerms.RowsCountUpToTheDay` | backend/internal/ledger/repository.go:223-271 | each active account has one row, in code order: the debits and credits of the entries dated up to and including the day, and the balance on the side its kind grows on |
| `BalanceTerms.EntryMovesRows` | backend/internal/ledger/repository.go:223-245 | one more entry moves a row by its own lines exactly when it is dated up to and including the day |
| `BalanceTerms.RowNetIsBalance` | backend/internal/ledger/repository.go:223-271 | when no entry is dated later, debits less credits are the account balance the reversal chains speak of |
| `BalanceTerms.GapCountsUpToTheDay` | backend/internal/ledger/service.go:51-93 | the gap is what entries up to and including the day put on accounts that are not active |
| `Checkout.AggregateSkus` | backend/internal/pos/service.go:85-93 | the quantity per SKU over all cart lines, wrapped like a Go int |
| `Checkout.PriceLines` | backend/internal/pos/service.go:104-156 | priced lines with exact subtotal and cost, or the first fault met by the loop |
| `Checkout.PriceSale` | backend/internal/pos/service.go:158-200 | the discount asked for comes off, up to the whole subtotal; the total is capped and settled; or the first check that fails |
| `Checkout.ValidatePaymentSettlement` | backend/internal/pos/service.go:298-330 | a cash sale settles exactly with a tender from the total to two billion; a tender on any other payment is refused |
| `Checkout.Quote` | backend/internal/pos/service.go:85-180 | a priced cart: subtotal, clamped discount, total, cost, tender and change at their exact values within the caps, or the first failing check |
| `Checkout.PostLineMovements` | backend/internal/pos/service.go:221-242 | posts one movement per line; a sale fails exactly when some product is asked for beyond its stock |
| `Checkout.UnitsWithinSubtotal` | backend/internal/pos/service.go:121-132 | every unit costs something, so a cart asks for at most as many units of a SKU as its subtotal |
| `Checkout.PricedCartIsInStock` | backend/internal/pos/service.go:109-180 | once a cart is priced, its aggregated stock check counted exactly: no SKU is asked for beyond its stock, however often it is repeated |
| `Checkout.PricedCartNeverRunsShort` | backend/internal/pos/service.go:221-242 | the per-line posting loop of a priced cart never fails for stock, for any cart |
| `Checkout.WrappedQuantitiesAreStoppedByPrice` | backend/internal/pos/service.go:109-132 | two lines of 2^62 units pass the aggregated check by wrapping, and pricing refuses the cart |
| `Checkout.SoldIsRequested` | backend/internal/pos/service.go:221-242 | the lines of a product sell exactly what the cart asks of its SKU, repeated lines included |
| `Checkout.GetTransactionByIdempotencyKey` | backend/internal/pos/repository.go:193-248 | finds the sale committed under a key, if there is one |
| `Checkout.CreateTransaction` | backend/internal/pos/repository.go:251-296 | inserts the sale unless the key is taken |
| `Checkout.SellCart` | backend/internal/pos/service.go:85-251 | a fresh cart sells whole, or is refused by the first failing check |
| `Checkout.Checkout` | backend/internal/pos/service.go:37-296 | a used key yields its sale again and changes nothing; otherwise the sale commits whole, with the discount asked for up to the subtotal, or the first failing check is reported and nothing changes |
| `Checkout.SaleAmounts` | backend/internal/pos/service.go:158-200 | discount, total, tender and change of a sale in plain figures |
| `Checkout.SaleLines` | backend/internal/pos/service.go:104-156 | the lines are the asked products at the prices on record, in the order asked |
| `Checkout.SaleLeaves` | backend/internal/pos/service.go:182-251 | a sale leaves its row, an OUT movement per line, every balance down by what was sold, and the entry on 1010 or 1020, 4010, 5010 and 1030; nothing else moves |
| `SaleTerms.SellsExactlyWhen` | backend/internal/pos/service.go:37-296 | a fresh cart sells if and only if every SKU is on sale and in stock for all its units, the discount is at most a billion, the total one to a billion, the cost positive, the payment settles, the key is new and four accounts are active |
| `SaleTerms.FirstBadLineAnswers` | backend/internal/pos/service.go:104-156 | the first line that does not pass decides the answer: not on sale, short in stock, or a sum beyond int64 |
| `SaleTerms.PassingCartAnswers` | backend/internal/pos/service.go:158-251 | when every line passes: discount, cap, payment, key and journal answer, in this order |
| `Voids.RecomputeCogs` | backend/internal/pos/service.go:391-404 | the recorded cost of the lines, exact within int64 |
| `Voids.VoidTransaction` | backend/internal/pos/service.go:335-442 | a sale is voided exactly when it is COMPLETED and its four accounts (1010 or 1020, 4010, 5010, 1030) are active; a second void is refused; a refusal changes nothing |
| `Voids.VoidLeaves` | backend/internal/pos/service.go:372-442 | a void leaves the row VOIDED, an IN movement per line, every balance up by what was sold, and the entry with the sides exchanged; nothing else moves |
| `Voids.VoidEntryCancels` | backend/internal/ledger/service.go:324-378 | the void journal is the sale journal with the sign turned, on every account |
| `Voids.VoidUndoesSale` | backend/internal/pos/service.go:372-416 | whatever happened in between, the void takes back exactly what the sale did to every stock quantity and every balance |
| `StockCounts.PostAdjustmentMovement` | backend/internal/pos/repository.go:1343-1388 | the change against the locked balance (up for ADD, down for SUBTRACT, the difference for SET), posted unless it is zero; a stale SET or a negative result changes nothing |
| `StockCounts.AdjustStock` | backend/internal/pos/service.go:519-592 | ADD leaves the old balance plus the quantity, SUBTRACT the old balance less it, SET exactly it, and no other balance moves; SUBTRACT is negative exactly when the quantity exceeds the balance; a stale SET is refused; a refusal changes nothing |
| `StockCounts.AdjustmentLeaves` | backend/internal/pos/repository.go:1343-1388 | the balance aimed at, an audit row, and for a difference one movement and one entry at cost between 1030 and 5020; nothing else moves |
| `StockCounts.AdjustmentAnswers` | backend/internal/pos/service.go:519-592 | which refusal an adjustment gets, check by check |
| `Compliance.EvaluateCompliance` | backend/internal/supplychain/compliance.go:42-79 | accepts exactly a fitting certificate in force; anything else blocks in strict mode and warns otherwise |
| `Compliance.CheckCompliance` | backend/internal/supplychain/compliance.go:81-116 | the gate under its locks, with the reason it blocks; a foreign certificate is refused in warning mode too |
| `Compliance.StrictMeansVouched` | backend/internal/supplychain/compliance.go:42-116 | in strict mode whatever passes has an active supplier and its own certificate, of a required type and in force |
| `Compliance.GateAnswers` | backend/internal/supplychain/compliance.go:42-116 | the gate row by row: which supplier and certificate rows pass, warn or block, and for what reason; the last day counts as valid |
| `Compliance.BlankText` | backend/internal/supplychain/compliance.go:56-64 | a scope or reason is blank exactly when it is white space |
| `PurchaseOrders.PriceItems` | backend/internal/supplychain/service.go:133-170 | lines in bounds with an exact total within the cap, or the first item at fault |
| `PurchaseOrders.LockActiveProductsForPurchaseOrder` | backend/internal/supplychain/repository.go:43-59 | succeeds exactly when every product is active |
| `PurchaseOrders.CreatePurchaseOrder` | backend/internal/supplychain/service.go:109-207 | issues the order exactly when items, compliance and products allow it, and names the first failing check |
| `PurchaseOrders.ReceivedIsLookup` | backend/internal/supplychain/repository.go:191-217 | the grouped query is the sum over all receipts of the order, missing products reading as zero |
| `PurchaseOrders.TotalAccepted` | backend/internal/supplychain/repository.go:813-816 | the accumulator is positive exactly when some product was accepted |
| `PurchaseOrders.CancelPurchaseOrder` | backend/internal/supplychain/repository.go:792-849 | writes CANCELLED exactly on an issued order with nothing accepted; a cancelled order stays so and the call succeeds again |
| `PurchaseOrders.ItemsPassExactlyWhen` | backend/internal/supplychain/service.go:133-170 | items pass if and only if each is 1 to 99999 units at 0 to a billion and they cost at most a billion together |
| `PurchaseOrders.FirstBadItemAnswers` | backend/internal/supplychain/service.go:133-170 | the first item that does not pass decides between the quantity and the amount error |
| `PurchaseOrders.OrderSaysWhatWasAsked` | backend/internal/supplychain/service.go:172-207 | the order as issued: the items line by line at the costs asked, for what they cost together |
| `PurchaseOrders.AcceptsSomeExactlyWhen` | backend/internal/supplychain/repository.go:803-820 | something was accepted if and only if a line of a receipt of the order accepted goods |
| `Receipts.IndexOrder` | backend/internal/supplychain/service.go:319-325 | indexes the order by product, or reports a product listed twice |
| `Receipts.ResolveItem` | backend/internal/supplychain/service.go:344-390 | one line read from either request form: delivered is accepted plus rejected, with the outcome they imply |
| `Receipts.ReconcileItems` | backend/internal/supplychain/service.go:327-425 | the item loop: every line fits what the order still expects, valued exactly, or the first fault |
| `Receipts.ValueWithinOrder` | backend/internal/supplychain/service.go:397-411 | a receipt is never worth more than its order, so valuation cannot overflow |
| `Receipts.ReconcileReceiptItems` | backend/internal/supplychain/service.go:314-446 | lines in product order, one per product, their value, and whether they fill the order; or the first fault |
| `GoodsReceipts.PostReceiptMovements` | backend/internal/supplychain/repository.go:348-403 | one IN movement per line with accepted goods; nothing can refuse them |
| `GoodsReceipts.UpdatePurchaseOrderStatus` | backend/internal/supplychain/repository.go:319-332 | only an open order changes status |
| `GoodsReceipts.AdvanceOrder` | backend/internal/supplychain/service.go:285-296 | received when full, partially received once something was accepted, otherwise unchanged |
| `GoodsReceipts.AdmitReceipt` | backend/internal/supplychain/service.go:215-248 | replay of a key on its own order, conflict on another, or an order that cannot be received |
| `GoodsReceipts.CreateGoodsReceipt` | backend/internal/supplychain/service.go:211-312 | a used key yields its receipt again; otherwise the receipt commits whole, or the first failing check is named and nothing changes: an order not ISSUED or PARTIALLY_RECEIVED, compliance, the items, or switched-off accounts when accepted goods cost something |
| `ReceiptTerms.InspectedFiguresAreKept` | backend/internal/supplychain/service.go:344-390 | with delivered, accepted and rejected given, the committed line carries exactly these figures and the outcome they show |
| `ReceiptTerms.ItemAnswers` | backend/internal/supplychain/service.go:327-395 | which answer one item gets, check by check, in the figures of either form |
| `ReceiptTerms.AcceptedExactlyWhen` | backend/internal/supplychain/service.go:314-425 | a request is accepted if and only if it has items, the order lists each product once, no item repeats one, and each adds up, gives a reason for what it rejects and stays within what is outstanding |
| `ReceiptTerms.InspectedRequestIsAccepted` | frontend/src/features/supply-chain/components/receiving-modal.tsx:147-153 | the form the receiving dialog sends is accepted whenever it adds up and fits |
| `ReceiptTerms.AcceptedGoesOnStock` | backend/internal/supplychain/repository.go:348-403 | every requested product goes up by exactly its accepted figure and no other product moves |
| `ReceiptTerms.InspectedGoesOnStock` | backend/internal/supplychain/service.go:344-390 | in the inspected form that is the accepted figure of the request, and the line keeps all three |
| `ReceiptTerms.ReceiptLeaves` | backend/internal/supplychain/service.go:250-312 | the row, the status (RECEIVED, PARTIALLY_RECEIVED or as it was) and the entry on 1030 and 2010 for accepted goods at order cost |
| `ReceiptTerms.ReceiptMoves` | backend/internal/supplychain/repository.go:348-403 | one IN movement for each line that accepts goods, and none besides |
| `Catalogue.CreateProduct` | backend/internal/pos/repository.go:1035-1125 | row, SKU, barcode, balance and opening movement together, or the first failing check and no change; a zero price never gets in |
| `Catalogue.UpdateProduct` | backend/internal/pos/repository.go:1164-1247 | prices, barcode, threshold and flag together, or the first failing check and no change; switching off is refused while an open order expects the product, and leaving the flag out switches it on |
| `Catalogue.DeleteProduct` | backend/internal/pos/repository.go:1289-1314 | switches the product off unless an open order expects it |
| `Catalogue.UpdateSupplier` | backend/internal/supplychain/repository.go:502-559 | writes the active flag asked for, or leaves the row as it is; unknown suppliers are refused |
| `Catalogue.RevokeCertificate` | backend/internal/supplychain/repository.go:619-646 | marks the certificate revoked and leaves its dates |
| `Catalogue.NewProductHasItsStock` | backend/internal/pos/repository.go:1035-1125 | a new product has the form, a reorder point of ten unless given, and exactly its initial stock, opened by one movement when there is any |
| `Catalogue.UpdateWritesTheForm` | backend/internal/pos/repository.go:1164-1247 | an update writes prices, barcode and flag; a zero threshold keeps the old one; the SKU stays |
| `Catalogue.OutstandingExactlyWhen` | backend/internal/pos/repository.go:1317-1340 | an open order expects the product if and only if it is ISSUED or PARTIALLY_RECEIVED with a line that asks for more than was accepted |
| `Events.ApplyPosts` | backend/internal/inventory/repository.go:50-144 | stock only changes by posting movements and the ledger only by posting entries or by one reversal |
| `Integrity.EventExtends` | backend/internal/inventory/repository.go:50-144 | every event posts well-signed movements from new documents and never takes a balance below zero |
| `Integrity.KeepsReconciled` | backend/internal/inventory/repository.go:50-144 | every event keeps every balance equal to the sum of its movements and not negative |
| `Integrity.KeepsJournaled` | backend/internal/ledger/service.go:96-155 | every event keeps the ledger sound and its accounts known |
| `Integrity.KeepsIntact` | backend/internal/pos/service.go:37-442 | every event keeps keys, stock, journals, sales, orders and receipts sound |
| `SalesBooks.KeepsSaleBooked` | backend/internal/pos/service.go:203-251 | every sale keeps exactly its own OUT movements and one sale entry, and exactly if voided its IN movements and one void entry |
| `SalesBooks.KeepsNet` | backend/internal/ledger/service.go:267-378 | sale and void journals keep netting to the completed sales on every account |
| `SalesBooks.KeepsBooked` | backend/internal/pos/service.go:37-442 | every event keeps keys unique, sales booked and journals matched |
| `DailySummary.JournalsMatchSales` | backend/internal/ledger/service.go:267-378 | revenue, cost, cash and bank journals net to the totals, costs, cash totals and other totals of COMPLETED sales |
| `DailySummary.GetDailySummary` | backend/internal/pos/repository.go:679-761 | every field of the report: counts, gross, discounts, net, cost, profit and each payment row |
| `DailySummary.SummaryAddsUp` | backend/internal/pos/repository.go:690-757 | net is gross less discounts, payment rows add up to net and to the completed orders, every order is completed or voided |
| `DailySummary.OneMoreSale` | backend/internal/pos/repository.go:679-761 | one more sale moves each field by its own figures exactly when day and cashier match, by its status and payment method |
| `DailySummary.RowPresentExactlyWhen` | backend/internal/pos/repository.go:722-757 | a payment method has a row if and only if a completed sale of the report used it |
| `DailySummary.AccountsShowCompletedSales` | backend/internal/ledger/service.go:267-378 | what sales and voids posted on 4010, 5010, 1010 and 1020 is what the COMPLETED sales come to |
| `DailySummary.DaysAddUp` | backend/internal/pos/repository.go:690-721 | adding any daily figure over all days counts every completed sale once |
| `DailySummary.SummariesMatchLedger` | backend/internal/pos/repository.go:679-761 | the daily summaries over all days are what the journals net to: net sales on revenue, cost of goods, cash rows on cash, card and QRIS rows on the bank |
| `InventoryValue.InventoryFollowsStock` | backend/internal/ledger/service.go:267-490 | selling, voiding, receiving and correcting move the inventory account by exactly the value at recorded cost of the stock they move |
| `InventoryValue.AdjustmentOnInventory` | backend/internal/ledger/service.go:422-490 | a correction moves inventory by its worth, up or down, against shrinkage |
| `OrderBooks.StandingMoves` | backend/internal/supplychain/service.go:285-296 | quantities that fit move an open order to exactly the status they put it in |
| `OrderBooks.KeepsOrderSafe` | backend/internal/supplychain/service.go:227-296 | acceptance stays between zero and ordered, and the status says exactly where the order stands |
| `OrderBooks.ClosedOrdersStay` | backend/internal/supplychain/repository.go:319-332 | no event changes a received or cancelled order or what it received |
| `OrderBooks.KeepsOpenOrdersActive` | backend/internal/pos/repository.go:1317-1340 | no event leaves an open order waiting for a product that is switched off |
| `OrderBooks.KeepsReceiptBooked` | backend/internal/supplychain/repository.go:335-403 | every receipt keeps exactly its accepted goods as movements and its value as journal credit |
| `OrderBooks.KeepsFiled` | backend/internal/supplychain/service.go:109-446 | every event keeps receipt keys unique, receipts booked, orders in standing and open orders active |
| `Payables.ReceiptsAddUp` | backend/internal/supplychain/service.go:397-411 | valuing receipt by receipt is valuing the received quantities at the order costs |
| `Payables.ReceivedForItsTotal` | backend/internal/supplychain/service.go:285-303 | a RECEIVED order was received for exactly its total, any other for at most that |
| `Payables.ReceivedOrderIsPayable` | backend/internal/ledger/service.go:381-419 | the goods-receipt journals credit payables with exactly the total of a RECEIVED order, never more, and nothing for a cancelled one |
| `Payables.OwedByNumber` | backend/internal/ledger/service.go:381-419 | on account 2010: the total of a RECEIVED order, nothing for an ISSUED or CANCELLED one, at most the total in between |
| `Payables.ReceiptOwedByNumber` | backend/internal/ledger/service.go:381-419 | the journal of one receipt credits 2010 with what its accepted goods cost at the prices of the order |
| `Payables.GetGoodsReceiptDetail` | backend/internal/supplychain/repository.go:897-956 | the recomputed valuation of a receipt is what its journal credited to payables |
| `Receivability.OpenOrderIsReceivable` | backend/internal/supplychain/service.go:211-303 | an open order that lists each product once, passes the gate and finds its accounts active is completed by a receipt of everything outstanding, under any unused key |
| `Receivability.RestCanBeAsked` | backend/internal/supplychain/service.go:314-446 | the request for everything outstanding, each line in the older or the inspected form, is not at fault |
| `Receivability.DuplicatesAreIssued` | backend/internal/supplychain/service.go:133-207 | nothing stops an order that lists a product twice from being issued |
| `Receivability.DuplicatesAreNeverReceived` | backend/internal/supplychain/service.go:319-325 | no run ever gives such an order a receipt; it stays issued or is cancelled |
| `Receivability.CompletableIffDistinct` | backend/internal/supplychain/service.go:211-325 | an open order that may be received now can be completed by some run if and only if it lists each product once |
| `Runs.RunsKeepConsistent` | backend/internal/pos/service.go:37-592 | every run of events keeps the store consistent |
| `Runs.EveryRunReconciles` | backend/internal/pos/repository.go:679-761 | after any run from an empty catalogue: stock reconciles, journals match sales, received orders are owed for exactly, no open order is stranded, and the books balance |
| `Runs.ClosedForever` | backend/internal/supplychain/repository.go:319-332 | a received or cancelled order stays exactly as it is through every run |
| `Runs.SalesOnlyVoid` | backend/internal/pos/repository.go:662-676 | a sale is never rewritten: only its status moves, from COMPLETED to VOIDED and never back |
| `Runs.VoidableOnce` | backend/internal/pos/service.go:335-442 | a completed sale can be voided exactly while its accounts are active, and never twice in any run |
| `Service.Serve` | backend/internal/pos/service.go:37-592 | whatever command executes, at most one event of the run happens and the store stays consistent |
| `Service.ServeCheckout` | backend/internal/pos/service.go:37-296 | a checkout is a sale event or nothing |
| `Service.ServeReceipt` | backend/internal/supplychain/service.go:211-312 | a goods receipt is a receipt event or nothing, with every precondition met by the invariants |
| `Locks.PlansClimb` | backend/internal/supplychain/compliance.go:82-113 | every supply-chain and catalogue transaction takes its locks in one global order |
| `Locks.WaitingLooksUp` | backend/internal/supplychain/compliance.go:82-83 | whoever is waited for asks for something higher, or for nothing more |
| `Locks.SomeoneAdvances` | backend/internal/supplychain/service.go:432-436 | while transactions are unfinished some one of them can go on |
| `Interleaving.ClaimStays` | backend/internal/supplychain/repository.go:140-160 | what a transaction read under a lock stays true until an event writes the rows behind that lock |
| `Interleaving.CompleteMayCommit` | backend/internal/supplychain/service.go:211-312 | a transaction holding all its locks commits one event that is allowed now, from what it read, writing only rows it holds exclusively |
| `Interleaving.StockIsMoved` | backend/internal/inventory/repository.go:65-100 | balances written from what was read under the row locks are the committed balances plus the accepted goods |
| `Interleaving.OutstandingNeedsOrder` | backend/internal/pos/repository.go:1317-1340 | a product without outstanding orders gets one only from an order that locks its row |
| `Interleaving.DoKeepsSafe` | backend/internal/supplychain/service.go:109-312 | every interleaved step keeps locks exclusive, reads valid and the store consistent |
| `Interleaving.InterleavingsAreSerial` | backend/internal/supplychain/service.go:109-312 | however transactions interleave, the store is the one a serial run of their commits leaves |
| `Interleaving.NoOrderIsStranded` | backend/internal/supplychain/repository.go:43-59 | under every interleaving of order creation, receipts and deactivation no open order waits for a product switched off |
| `Interleaving.ReplayNeverCollides` | backend/internal/supplychain/service.go:227-244 | a receipt that has locked its order never meets a receipt of that order under its own key it did not see |
| `Interleaving.SecondCancellationWaits` | backend/internal/supplychain/repository.go:792-802 | the locks do block: of two cancellations of one order the second waits for the first |
| `Interleaving.NeverDeadlocked` | backend/internal/supplychain/compliance.go:82-113 | in every reachable state with an unfinished transaction some transaction can take its next lock or finish |
| `LockTerms.PlansAre` | backend/internal/supplychain/service.go:109-312 | the rows each kind of transaction locks, and no others |
| `LockTerms.WaitsExactlyWhen` | backend/internal/supplychain/compliance.go:82-113 | one transaction waits for another if and only if it asks for a row the other holds, unless both only share it |
| `LockTerms.UndisturbedJobCommits` | backend/internal/supplychain/service.go:109-312 | a transaction whose checks hold, with nobody in its way, takes its locks and commits exactly what its request asks for |
| `Idempotency.CacheStepSafe` | backend/pkg/idempotency/middleware.go:112-140 | the cache tier replays, rejects a different fingerprint or falls through, and keeps every invariant |
| `Idempotency.SelectStepSafe` | backend/pkg/idempotency/middleware.go:159-235 | reading the durable row keeps every invariant, whatever it decides; Leases.RowAnswers says what it decides |
| `Idempotency.RenewStepSafe` | backend/pkg/idempotency/middleware.go:225-231 | an expired lease is renewed, never into its first one |
| `Idempotency.InsertStepSafe` | backend/pkg/idempotency/middleware.go:236-259 | the first insert takes the slot; a second is told it is in use |
| `Idempotency.RecordStepSafe` | backend/pkg/idempotency/middleware.go:274-313 | recording a result keeps fingerprints and genuine responses, also when the update fails |
| `Idempotency.DoIsSafe` | backend/pkg/idempotency/middleware.go:112-313 | every step, crash, lost cache and failed update keeps every invariant and takes nothing back |
| `Idempotency.OneSalePerKey` | backend/internal/pos/service.go:54-83 | over every interleaving, with crashes and database faults before and after the commit, all successful answers to a checkout key carry one sale and its amounts, with one set of movements and one entry |
| `Idempotency.CommitFaultSafe` | backend/internal/pos/service.go:253-258 | a sale that lands although its request is told of a failure keeps every invariant |
| `Idempotency.RetryFindsTheSale` | backend/internal/pos/service.go:54-83 | the next request that runs under the key of a committed sale answers with that sale and commits nothing |
| `Idempotency.FingerprintIsForever` | backend/pkg/idempotency/middleware.go:171-181 | the stored fingerprint of a slot never changes |
| `Idempotency.ReplaysAreGenuine` | backend/pkg/idempotency/middleware.go:112-140 | a replayed answer was given by a successful run of a request with the same fingerprint on the same slot |
| `Idempotency.FirstLeaseExcludes` | backend/pkg/idempotency/middleware.go:214-259 | until its first lease ends or a result is recorded, only the request that inserted the row is in the handler |
| `Idempotency.InsertAdmitsOne` | backend/pkg/idempotency/middleware.go:236-259 | whoever inserts the row enters the handler, alone |
| `Leases.CacheAnswers` | backend/pkg/idempotency/middleware.go:112-140 | the reply of the cache tier, read off the entry |
| `Leases.RowAnswers` | backend/pkg/idempotency/middleware.go:159-231 | the decision of the durable row, read off fingerprint, status and lease end; a lease that ends now has ended |
| `Leases.InsertAnswers` | backend/pkg/idempotency/middleware.go:236-259 | a free slot is taken under a lease of thirty seconds |
| `Leases.RenewAnswers` | backend/pkg/idempotency/middleware.go:225-231 | a renewal moves only the end of the lease, thirty seconds ahead, and admits the request |
| `Leases.LookupAnswers` | backend/internal/pos/service.go:54-83 | the handler answers with the sale under the key, or goes on to sell |
| `Leases.RecordAnswers` | backend/pkg/idempotency/middleware.go:274-313 | what row and cache keep of a success and of a failure |
| `Leases.ExpiredLeaseIsRenewed` | backend/pkg/idempotency/middleware.go:214-231 | past the lease the same request is admitted with a new lease |
| `Leases.RunningLeaseRefuses` | backend/pkg/idempotency/middleware.go:214-223 | before the lease ends it is told that the key is in use |
| `Leases.CrashedKeyIsUsableAgain` | backend/pkg/idempotency/middleware.go:214-231 | after a crash and the end of the lease, the same request sent again is admitted |
| `Leases.FreeSlotAdmits` | backend/pkg/idempotency/middleware.go:112-259 | a new request on a free slot is admitted |
| `Leases.AdmittedCartSells` | backend/internal/pos/service.go:37-296 | an admitted checkout that sells answers 201 with its sale |
| `Middleware.Layer.constructor` | backend/pkg/idempotency/middleware.go:43-48 | starts with an empty cache and an empty table |
| `Middleware.Layer.Enter` | backend/pkg/idempotency/middleware.go:112-259 | the reply, the row and the cache in each case: a cached or completed answer replayed, another fingerprint refused, a running lease refused, an expired one renewed for thirty seconds and admitted, a failed row admitted, a free slot taken; exactly as the interleaved steps do |
| `Middleware.Layer.Leave` | backend/pkg/idempotency/middleware.go:274-313 | a success completes the row and fills the cache, a failure marks the row for a retry, a failed update leaves it; exactly the interleaved completion steps |
| `Middleware.SettledRequestsAnswerAlike` | backend/pkg/idempotency/middleware.go:112-313 | after a request has left, the same request is replayed from cache or row, a failed one is let through again, another fingerprint is refused |
| `CheckoutController.Controller.constructor` | frontend/src/features/pos/checkout-controller.ts:50-51 | starts idle with nothing sent |
| `CheckoutController.Controller.StartReview` | frontend/src/features/pos/checkout-controller.ts:63-68 | accepted exactly from idle with a total from zero to the cap, and then reviews that total as the cash |
| `CheckoutController.Controller.SetCashTendered` | frontend/src/features/pos/checkout-controller.ts:69-72 | only while reviewing |
| `CheckoutController.Controller.CloseReview` | frontend/src/features/pos/checkout-controller.ts:73-77 | only from a review or a rejection |
| `CheckoutController.Controller.FinishCompleted` | frontend/src/features/pos/checkout-controller.ts:78-84 | only from a completed sale, which clears the cart and keeps the receipt |
| `CheckoutController.Controller.SubmitCheckout` | frontend/src/features/pos/checkout-controller.ts:85-112 | sends exactly from a review with a fitting cart, cash from the total (included) to the tender cap, and a fresh key; otherwise only sets the message of the first check that fails |
| `CheckoutController.Controller.Settle` | frontend/src/features/pos/checkout-controller.ts:113-125 | completes exactly on a valid receipt, allows a new review exactly on a documented rejection, and otherwise stays unknown |
| `SingleCall.OnlyItsCallSells` | backend/internal/pos/service.go:54-83 | only a checkout request that carries a key sells under it |
| `SingleCall.TruthfulStays` | backend/pkg/idempotency/middleware.go:112-313 | through every step of the protocol the outcome of a request alone under its key stays true: none or a refusal means no sale, a success is its own sale |
| `SingleCall.ReplyIsOwnOutcome` | backend/pkg/idempotency/middleware.go:112-140 | every answer such a request gets, replayed or not, is its own outcome or one of the two conflicts |
| `Cashier.CashReceiptsAreValid` | frontend/src/features/pos/checkout-controller.ts:33-47 | every committed cash sale answers with a receipt the controller accepts |
| `Cashier.DefiniteRefusals` | backend/internal/pos/handler.go:219-259 | of the refusals of the endpoint exactly four are rejections the till treats as definite |
| `Cashier.ReachedAnswerIsTrue` | backend/internal/pos/handler.go:219-275 | a definite rejection that arrives means no sale under the key, and a receipt that arrives shows the sale |
| `Cashier.DoSafe` | frontend/src/features/pos/checkout-controller.ts:85-126 | every click, send, answer, fault and every step of the protocol for anybody keeps the till safe |
| `Cashier.NewKeyOnlyWhenCertain` | frontend/src/features/pos/checkout-controller.ts:85-126 | joined with the whole idempotency protocol: a new key can be sent only when every earlier key has its validated receipt or is certainly uncommitted |
| `Cashier.CompletedMeansOneSale` | frontend/src/features/pos/checkout-controller.ts:113-117 | a completed send has exactly one sale under its key, with one set of movements and one entry, and its receipt shows it |
| `Cashier.CertainForever` | frontend/src/features/pos/checkout-controller.ts:113-125 | what is certain about a send stays certain whatever happens later |
| `Cashier.OneSendInFlight` | frontend/src/features/pos/checkout-controller.ts:85-87 | at most one send is unanswered |
| `Cashier.UnknownIsAbsorbing` | frontend/src/features/pos/checkout-controller.ts:119-125 | an unknown result is final and nothing more is sent |
| `Cashier.UndisturbedSalesComplete` | frontend/src/features/pos/checkout-controller.ts:113-117 | when nothing interferes a committed checkout completes |
| `Handler.RepliesToldApart` | backend/internal/pos/handler.go:219-275 | the status and code of every refusal of the checkout endpoint, and of its success |
| `CheckoutController.DefiniteAnswers` | frontend/src/features/pos/checkout-controller.ts:23-31 | exactly six answers are definite rejections |
| `CheckoutController.ReceiptTests` | frontend/src/features/pos/checkout-controller.ts:33-47 | exactly which receipts are valid, figure by figure |
| `TillTerms.Clicks` | frontend/src/features/pos/checkout-controller.ts:63-84 | what each click does, and that it does nothing at any other time |
| `TillTerms.ReviewsCanBeSent` | frontend/src/features/pos/checkout-controller.ts:85-112 | a review with 1 to 99999 units a line, a total up to a billion, cash from the total to two billion and a new key can be sent |
| `TillTerms.SendingAndArriving` | frontend/src/features/pos/checkout-controller.ts:100-113 | a send goes out once under its key and reaches the checkout route as it was sent |
| `TillTerms.BeingTold` | frontend/src/features/pos/checkout-controller.ts:113-125 | what each kind of answer does to the till |
| `TillTerms.UndisturbedSaleCompletes` | frontend/src/features/pos/checkout-controller.ts:85-126 | from the review through the whole protocol and back: a cart that sells completes and shows its receipt |
| `StockCard.ChronologicalSorts` | backend/internal/pos/repository.go:1536-1544 | sorting the window loses no row and puts them in time order |
| `StockCard.RunningBalances` | backend/internal/pos/repository.go:1552-1591 | item k carries the opening balance plus the first k + 1 deltas |
| `StockCard.SlicePage` | backend/internal/pos/repository.go:1595-1603 | the page, or the slice fault exactly when offset plus limit leaves a Go int |
| `StockCard.GetStockCard` | backend/internal/pos/repository.go:1477-1624 | opening, running and closing balances of the window, and one page of it |
| `StockCard.ClosingIsBalanceAtEnd` | backend/internal/pos/repository.go:1502-1593 | the closing balance is the balance at the end date for every stock if and only if the start is at most one moment after the end |
| `StockCard.WindowsChain` | backend/internal/pos/repository.go:1502-1513 | the window that starts right after another ends opens with its closing balance |
| `StockCard.OpenEndClosesOnHand` | backend/internal/pos/repository.go:1502-1593 | without an end date the card closes with the stock on hand |
| `StockCard.PagesCoverWindow` | backend/internal/pos/repository.go:1595-1603 | pages of one size concatenate to the whole window |
| `StockCard.OneMoreMovement` | backend/internal/pos/repository.go:1502-1593 | one more movement moves the opening balance, is a row, or does neither, by its product and its date against start and end, both included |
| `StockCard.MomentsKeepTheirOrder` | backend/internal/pos/repository.go:1536-1544 | rows of one moment stay in insertion order |
| `StockCard.PageHolds` | backend/internal/pos/repository.go:1595-1603 | a page starts at its offset and holds as many items as its limit or as there are |

## Left out

- Floating point: on the server amounts arrive as whole numbers; the rejection of fractions and of NaN is not modelled, nor `MulFloat`, `FromFloat` and tax arithmetic. Nor is the 1e-6 tolerance, by which a price just above zero would be stored as zero.
- Money.Money.Add: currency codes are compared as given; trimming and upper-casing of codes is not modelled.
- Numeric column limits: a balance beyond the 32-bit stock column or an amount beyond NUMERIC(15,2) is a database fault, and such a transaction simply does not commit.
- StockCounts.AdjustStock: states its result for balances within the 32-bit stock column, which is what the database can hold; the product's cost is read in the same transaction, where the source reads it on another connection just before.
- StockCard.GetStockCard: movements of one transaction share a timestamp and the query leaves their order open; the model keeps insertion order. Limits and offsets are those the handler passes on.
- Checkout.Checkout: customer name, notes, payment reference, product names and the cashier's UUID check are not modelled; SKUs are taken as given. Generated numbers never collide.
- Voids.VoidTransaction: reads the lines in insertion order, where the query gives none; no result depends on it.
- Ledger.CreateManualEntry: entry numbers, descriptions and line memos are not modelled.
- Balances.GetTrialBalance: dates are day numbers; a malformed date string is not modelled.
- Compliance.CheckCompliance: the configuration document is taken as the strict flag and the list of required types; supplier and certificate creation are inserts without a property of their own.
- PurchaseOrders.CreatePurchaseOrder: malformed UUIDs and order numbers are not modelled; a unit cost of zero, which request binding turns away, is admitted here.
- Catalogue.UpdateProduct: names, descriptions, categories, tags and the warehouse location are not modelled; nor are the length limits of request binding.
- GoodsReceipts.CreateGoodsReceipt: notes, inspection audit fields and the stored compliance document are not modelled beyond the outcome; lines receive their movement after the rows of the whole receipt are inserted.
- Interleaving.NeverDeadlocked: covers order creation, receipts, cancellation, product, supplier and certificate updates; checkout and void do not take their locks in sorted order, so they appear only as whole transactions that respect row locks.
- Interleaving.InterleavingsAreSerial: a product update in flight keeps its barcode, so it never waits on the barcode index; the one index a receipt can wait on, its key, is a lock of the machine; index and foreign-key locks already implied by stronger ones are not listed again. One row is locked once, where order creation asks again for a product listed twice.
- Idempotency.OneSalePerKey: the handler's transaction is its lookup followed by one atomic commit, a fault, or both; the request fingerprint is an abstract value compared for equality; key length and body size limits are not modelled. The protocol is a state machine over its steps; `Middleware.Layer` is the source's code for one undisturbed request.
- Idempotency.DoIsSafe: the Redis in-flight lease is written but never read by the code and has no effect here; lifetimes of cache entries are an arbitrary loss at any time.
- Cashier.NewKeyOnlyWhenCertain: each send reaches the server at most once, `createKey` yields keys never used before, and nobody else sends them. Nothing between till and server makes up a definite rejection of a request it passed on, or a valid receipt; it may refuse a request, spoil an answer or lose it.
- CheckoutController.Controller.SubmitCheckout: split at its await into sending and `Settle`; listeners, freezing of the request and message texts are not modelled.
- DailySummary.GetDailySummary: the queries are sums over the sales of one day and cashier; the default date is not modelled.
- JSON, SQL text, HTTP headers, logging, retries of the connection pool and authentication.
- Catalogue reads, categories, QRIS configuration, low-stock lists, traceability reports, entitlements, dashboards and migrations: reads or single-row updates without a hard property.
- The older single-tier idempotency helper in `backend/pkg/redis`, superseded by the durable one.
