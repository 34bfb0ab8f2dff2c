/** The rows of one tenant's schema. A sale, order, receipt or journal entry is identified by its position in
    insertion order; a product by the place of its UUID in string order; an account by its code. */
module Tables {
  import opened Wrappers
  import opened Int64

  // ---------- catalogue and stock ----------

  datatype Product = Product(sku: string, barcode: Option<string>, unitPrice: int64, costPrice: int64, isActive: bool, reorderAt: nat)

  datatype MovementType = OPENING | IN | OUT | ADJUSTMENT | UNKNOWN_TYPE

  datatype DocType = PRODUCT_CREATE | POS_SALE | POS_VOID | GOODS_RECEIPT | MANUAL_ADJUSTMENT | REVERSAL

  datatype Source = Source(doc: DocType, id: nat, line: Option<nat>)

  datatype Movement = Movement(product: nat, delta: int, kind: MovementType, source: Source, occurredAt: int)

  datatype Stock = Stock(onHand: map<nat, int>, movements: seq<Movement>)

  /** One row of the adjustment audit log; `journal` is the entry it posted, if any. */
  datatype Adjustment = Adjustment(product: nat, delta: int, previous: int, counted: int, journal: Option<nat>)

  // ---------- sales ----------

  datatype PaymentMethod = CASH | SIMULATED_CARD | QRIS

  datatype SaleStatus = PENDING | COMPLETED | VOIDED

  datatype SaleLine = SaleLine(product: nat, sku: string, quantity: int64, unitPrice: int64, costPrice: int64, subtotal: int)

  datatype Sale = Sale(key: string, cashier: nat, lines: seq<SaleLine>, subtotal: int, discount: int, total: int,
                       payment: PaymentMethod, status: SaleStatus, tendered: int, change: int, day: int)

  // ---------- general ledger ----------

  datatype AccountType = ASSET | LIABILITY | EQUITY | REVENUE | EXPENSE

  datatype Account = Account(kind: AccountType, isActive: bool)

  datatype Line = Line(account: nat, debit: int, credit: int)

  datatype EntryStatus = POSTED | REVERSED

  datatype Entry = Entry(doc: DocType, docId: Option<nat>, date: int, status: EntryStatus, reversedBy: Option<nat>, lines: seq<Line>)

  // ---------- supply chain ----------

  datatype Supplier = Supplier(isActive: bool)

  datatype Certificate = Certificate(supplier: nat, certType: string, scope: string, validFrom: int, expiry: int, revoked: bool)

  datatype CompliancePolicy = CompliancePolicy(strict: bool, required: seq<string>)

  datatype ComplianceOutcome = ACCEPTED | WARNING

  datatype OrderStatus = DRAFT | ISSUED | PARTIALLY_RECEIVED | RECEIVED | CANCELLED

  datatype OrderLine = OrderLine(product: nat, quantity: int, unitCost: int64, subtotal: int)

  datatype Order = Order(supplier: nat, cert: Option<nat>, total: int, status: OrderStatus, lines: seq<OrderLine>,
                         decision: ComplianceOutcome)

  datatype QcOutcome = PASS | REJECT | PARTIAL_ACCEPT

  datatype ReceiptLine = ReceiptLine(product: nat, delivered: int, accepted: int, rejected: int, outcome: QcOutcome)

  datatype Receipt = Receipt(key: string, order: nat, lines: seq<ReceiptLine>, decision: ComplianceOutcome)

  // ---------- the schema ----------

  /** `skus` is the unique index on products.sku. */
  datatype Store = Store(products: map<nat, Product>, skus: map<string, nat>, stock: Stock, adjustments: seq<Adjustment>,
                         sales: seq<Sale>, accounts: map<nat, Account>, entries: seq<Entry>,
                         suppliers: map<nat, Supplier>, certificates: map<nat, Certificate>, policy: CompliancePolicy,
                         orders: seq<Order>, receipts: seq<Receipt>)
}

/** The database a service works on. A transaction edits its own copy of the rows; only Commit publishes it,
    so a transaction that is dropped has no effect. */
module Database {
  import opened Tables

  class Tx {
    var store: Store

    constructor (s: Store)
      ensures store == s
    {
      store := s;
    }
  }

  class Database {
    var store: Store

    constructor (s: Store)
      ensures store == s
    {
      store := s;
    }

    method Begin() returns (tx: Tx)
      ensures fresh(tx) && tx.store == store
    {
      tx := new Tx(store);
    }

    method Commit(tx: Tx)
      modifies this
      ensures store == tx.store
    {
      store := tx.store;
    }
  }
}
