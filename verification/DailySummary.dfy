/** The end-of-day figures and the ledger they must agree with (backend/internal/pos/repository.go, GetDailySummary). */
module DailySummary {
  import opened Wrappers
  import opened Tables
  import opened Sums
  import opened Checkout
  import opened SalesBooks
  import opened Balances
  import Ledger

  // ---------- figures over completed sales ----------

  /** Which sales a figure is about: completed ones that the filter keeps. */
  function Completed(keep: Sale -> bool, f: Sale -> int): Sale -> int {
    (sale: Sale) => if sale.status == COMPLETED && keep(sale) then f(sale) else 0
  }

  function Any(): Sale -> bool { (sale: Sale) => true }

  function PaidIn(cash: bool): Sale -> bool { (sale: Sale) => (sale.payment == CASH) == cash }

  function TotalOf(): Sale -> int { (sale: Sale) => sale.total }

  function CogsOf(): Sale -> int { (sale: Sale) => Cogs(sale) }

  function One(): Sale -> int { (sale: Sale) => 1 }

  lemma {:induction false} SaleEntryOn(total: int, cogs: int, payment: PaymentMethod)
    ensures var e := Ledger.SaleEntry(0, total, cogs, payment, 0);
            && EntryNet(Ledger.SALES_REVENUE)(e) == -total
            && EntryNet(Ledger.COGS)(e) == cogs
            && EntryNet(Ledger.CASH_ON_HAND)(e) == (if payment == CASH then total else 0)
            && EntryNet(Ledger.BANK)(e) == (if payment != CASH then total else 0)
  {
    var l := Ledger.SaleEntry(0, total, cogs, payment, 0).lines;
    SumOfFour(l[0], l[1], l[2], l[3], NetOn(Ledger.SALES_REVENUE));
    SumOfFour(l[0], l[1], l[2], l[3], NetOn(Ledger.COGS));
    SumOfFour(l[0], l[1], l[2], l[3], NetOn(Ledger.CASH_ON_HAND));
    SumOfFour(l[0], l[1], l[2], l[3], NetOn(Ledger.BANK));
  }

  function Negated(f: Sale -> int): Sale -> int { (sale: Sale) => -f(sale) }

  lemma {:induction false} SumNegated(sales: seq<Sale>, f: Sale -> int)
    ensures Sum(sales, Negated(f)) == -Sum(sales, f)
  {
    if |sales| > 0 {
      SumNegated(sales[..|sales| - 1], f);
    }
  }

  /** The sale and void journals net to exactly the completed sales: revenue to their totals, cost of goods to their
      recorded costs, cash to the cash totals, bank to the rest. */
  lemma {:induction false} JournalsMatchSales(s: Store)
    requires Booked(s)
    ensures Sum(s.entries, SalesNet(Ledger.SALES_REVENUE)) == -Sum(s.sales, Completed(Any(), TotalOf()))
    ensures Sum(s.entries, SalesNet(Ledger.COGS)) == Sum(s.sales, Completed(Any(), CogsOf()))
    ensures Sum(s.entries, SalesNet(Ledger.CASH_ON_HAND)) == Sum(s.sales, Completed(PaidIn(true), TotalOf()))
    ensures Sum(s.entries, SalesNet(Ledger.BANK)) == Sum(s.sales, Completed(PaidIn(false), TotalOf()))
  {
    forall sale | sale in s.sales
      ensures BookedNet(Ledger.SALES_REVENUE)(sale) == Negated(Completed(Any(), TotalOf()))(sale)
      ensures BookedNet(Ledger.COGS)(sale) == Completed(Any(), CogsOf())(sale)
      ensures BookedNet(Ledger.CASH_ON_HAND)(sale) == Completed(PaidIn(true), TotalOf())(sale)
      ensures BookedNet(Ledger.BANK)(sale) == Completed(PaidIn(false), TotalOf())(sale)
    {
      SaleEntryOn(sale.total, Cogs(sale), sale.payment);
    }
    SumCongruent(s.sales, BookedNet(Ledger.SALES_REVENUE), Negated(Completed(Any(), TotalOf())));
    SumNegated(s.sales, Completed(Any(), TotalOf()));
    SumCongruent(s.sales, BookedNet(Ledger.COGS), Completed(Any(), CogsOf()));
    SumCongruent(s.sales, BookedNet(Ledger.CASH_ON_HAND), Completed(PaidIn(true), TotalOf()));
    SumCongruent(s.sales, BookedNet(Ledger.BANK), Completed(PaidIn(false), TotalOf()));
  }

  // ---------- the report of one day ----------

  /** The WHERE clause: one day, and one cashier if asked. */
  function On(day: int, cashier: Option<nat>): Sale -> bool {
    (sale: Sale) => sale.day == day && (cashier == None || cashier == Some(sale.cashier))
  }

  function OnPaidBy(day: int, cashier: Option<nat>, payment: PaymentMethod): Sale -> bool {
    (sale: Sale) => On(day, cashier)(sale) && sale.payment == payment
  }

  function SubtotalOf(): Sale -> int { (sale: Sale) => sale.subtotal }

  function DiscountOf(): Sale -> int { (sale: Sale) => sale.discount }

  function Counted(keep: Sale -> bool, status: SaleStatus): Sale -> int {
    (sale: Sale) => if keep(sale) && sale.status == status then 1 else 0
  }

  function Kept(keep: Sale -> bool): Sale -> int {
    (sale: Sale) => if keep(sale) then 1 else 0
  }

  datatype PaymentSummary = PaymentSummary(count: int, amount: int)

  datatype Summary = Summary(orders: int, completed: int, voided: int, grossSales: int, discounts: int, netSales: int,
                             totalCogs: int, grossProfit: int, breakdown: map<PaymentMethod, PaymentSummary>)

  function PaymentRow(s: Store, day: int, cashier: Option<nat>, m: PaymentMethod): PaymentSummary {
    PaymentSummary(Sum(s.sales, Completed(OnPaidBy(day, cashier, m), One())), Sum(s.sales, Completed(OnPaidBy(day, cashier, m), TotalOf())))
  }

  /** GROUP BY payment method: a method without completed sales has no row. */
  function PaymentRowsOf(s: Store, day: int, cashier: Option<nat>): map<PaymentMethod, PaymentSummary> {
    map m: PaymentMethod | m in {CASH, SIMULATED_CARD, QRIS} && PaymentRow(s, day, cashier, m).count != 0 :: PaymentRow(s, day, cashier, m)
  }

  /** The three queries, field by field. */
  function SummaryOf(s: Store, day: int, cashier: Option<nat>): Summary {
    var keep := On(day, cashier);
    var net, cogs := Sum(s.sales, Completed(keep, TotalOf())), Sum(s.sales, Completed(keep, CogsOf()));
    Summary(Sum(s.sales, Kept(keep)), Sum(s.sales, Counted(keep, COMPLETED)), Sum(s.sales, Counted(keep, VOIDED)),
            Sum(s.sales, Completed(keep, SubtotalOf())), Sum(s.sales, Completed(keep, DiscountOf())), net, cogs, net - cogs,
            PaymentRowsOf(s, day, cashier))
  }

  /** Fills the breakdown row by row. */
  method PaymentRows(s: Store, day: int, cashier: Option<nat>) returns (rows: map<PaymentMethod, PaymentSummary>)
    ensures rows == PaymentRowsOf(s, day, cashier)
  {
    rows := map[];
    var methods := [CASH, SIMULATED_CARD, QRIS];
    for i := 0 to |methods|
      invariant forall m :: m in rows <==> m in methods[..i] && PaymentRow(s, day, cashier, m).count != 0
      invariant forall m <- rows :: rows[m] == PaymentRow(s, day, cashier, m)
    {
      var row := PaymentRow(s, day, cashier, methods[i]);
      if row.count != 0 {
        rows := rows[methods[i] := row];
      }
    }
    assert forall m :: m in methods <==> m in {CASH, SIMULATED_CARD, QRIS};
    assert methods[..|methods|] == methods;
  }

  function AmountIn(rows: map<PaymentMethod, PaymentSummary>, m: PaymentMethod): int {
    if m in rows then rows[m].amount else 0
  }

  function CountIn(rows: map<PaymentMethod, PaymentSummary>, m: PaymentMethod): int {
    if m in rows then rows[m].count else 0
  }

  /** A missing row is a row of zeros. */
  lemma {:induction false} RowsRead(s: Store, day: int, cashier: Option<nat>, m: PaymentMethod)
    ensures var rows := PaymentRowsOf(s, day, cashier);
            PaymentSummary(CountIn(rows, m), AmountIn(rows, m)) == PaymentRow(s, day, cashier, m)
  {
    NoneMeansZero(s.sales, OnPaidBy(day, cashier, m));
    assert m.CASH? || m.SIMULATED_CARD? || m.QRIS?;
  }

  /** Net sales are gross sales less discounts, the payment rows add up to the net sales and to the completed orders, and
      every order is completed or voided. */
  lemma {:induction false} SummaryAddsUp(s: Store, day: int, cashier: Option<nat>)
    requires forall sale <- s.sales :: sale.total == sale.subtotal - sale.discount && sale.status in {COMPLETED, VOIDED}
    ensures var r := SummaryOf(s, day, cashier);
            && r.netSales == r.grossSales - r.discounts && r.completed + r.voided == r.orders
            && AmountIn(r.breakdown, CASH) + AmountIn(r.breakdown, SIMULATED_CARD) + AmountIn(r.breakdown, QRIS) == r.netSales
            && CountIn(r.breakdown, CASH) + CountIn(r.breakdown, SIMULATED_CARD) + CountIn(r.breakdown, QRIS) == r.completed
  {
    NetIsGrossLessDiscounts(s.sales, On(day, cashier));
    EverySaleCounted(s.sales, On(day, cashier));
    RowsRead(s, day, cashier, CASH);
    RowsRead(s, day, cashier, SIMULATED_CARD);
    RowsRead(s, day, cashier, QRIS);
    MethodsAddUp(s.sales, day, cashier, TotalOf());
    MethodsAddUp(s.sales, day, cashier, One());
    SumCongruent(s.sales, Completed(On(day, cashier), One()), Counted(On(day, cashier), COMPLETED));
  }

  /** The report of one day, field by field, with the sums that tie its fields together. */
  method GetDailySummary(s: Store, day: int, cashier: Option<nat>) returns (r: Summary)
    requires forall sale <- s.sales :: sale.total == sale.subtotal - sale.discount && sale.status in {COMPLETED, VOIDED}
    ensures r.orders == Sum(s.sales, Kept(On(day, cashier)))
    ensures r.completed == Sum(s.sales, Counted(On(day, cashier), COMPLETED)) && r.voided == Sum(s.sales, Counted(On(day, cashier), VOIDED))
    ensures r.grossSales == Sum(s.sales, Completed(On(day, cashier), SubtotalOf()))
    ensures r.discounts == Sum(s.sales, Completed(On(day, cashier), DiscountOf()))
    ensures r.netSales == Sum(s.sales, Completed(On(day, cashier), TotalOf())) == r.grossSales - r.discounts
    ensures r.totalCogs == Sum(s.sales, Completed(On(day, cashier), CogsOf())) && r.grossProfit == r.netSales - r.totalCogs
    ensures forall m :: PaymentSummary(CountIn(r.breakdown, m), AmountIn(r.breakdown, m)) == PaymentRow(s, day, cashier, m)
    ensures AmountIn(r.breakdown, CASH) + AmountIn(r.breakdown, SIMULATED_CARD) + AmountIn(r.breakdown, QRIS) == r.netSales
    ensures r.completed + r.voided == r.orders && r == SummaryOf(s, day, cashier)
  {
    var keep := On(day, cashier);
    var gross, discounts := Sum(s.sales, Completed(keep, SubtotalOf())), Sum(s.sales, Completed(keep, DiscountOf()));
    var net, cogs := Sum(s.sales, Completed(keep, TotalOf())), Sum(s.sales, Completed(keep, CogsOf()));
    var rows := PaymentRows(s, day, cashier);
    r := Summary(Sum(s.sales, Kept(keep)), Sum(s.sales, Counted(keep, COMPLETED)), Sum(s.sales, Counted(keep, VOIDED)),
                 gross, discounts, net, cogs, net - cogs, rows);
    SummaryAddsUp(s, day, cashier);
    forall m
      ensures PaymentSummary(CountIn(rows, m), AmountIn(rows, m)) == PaymentRow(s, day, cashier, m)
    {
      RowsRead(s, day, cashier, m);
    }
  }

  lemma {:induction false} NetIsGrossLessDiscounts(sales: seq<Sale>, keep: Sale -> bool)
    requires forall sale <- sales :: sale.total == sale.subtotal - sale.discount
    ensures Sum(sales, Completed(keep, TotalOf())) == Sum(sales, Completed(keep, SubtotalOf())) - Sum(sales, Completed(keep, DiscountOf()))
  {
    if |sales| > 0 {
      assert sales[|sales| - 1] in sales;
      NetIsGrossLessDiscounts(sales[..|sales| - 1], keep);
    }
  }

  lemma {:induction false} EverySaleCounted(sales: seq<Sale>, keep: Sale -> bool)
    requires forall sale <- sales :: sale.status in {COMPLETED, VOIDED}
    ensures Sum(sales, Counted(keep, COMPLETED)) + Sum(sales, Counted(keep, VOIDED)) == Sum(sales, Kept(keep))
  {
    if |sales| > 0 {
      assert sales[|sales| - 1] in sales;
      EverySaleCounted(sales[..|sales| - 1], keep);
    }
  }

  lemma {:induction false} NoneMeansZero(sales: seq<Sale>, keep: Sale -> bool)
    ensures Sum(sales, Completed(keep, One())) >= 0
    ensures Sum(sales, Completed(keep, One())) == 0 ==> Sum(sales, Completed(keep, TotalOf())) == 0
  {
    if |sales| > 0 {
      NoneMeansZero(sales[..|sales| - 1], keep);
    }
  }

  lemma {:induction false} MethodsAddUp(sales: seq<Sale>, day: int, cashier: Option<nat>, f: Sale -> int)
    ensures Sum(sales, Completed(OnPaidBy(day, cashier, CASH), f)) + Sum(sales, Completed(OnPaidBy(day, cashier, SIMULATED_CARD), f))
            + Sum(sales, Completed(OnPaidBy(day, cashier, QRIS), f)) == Sum(sales, Completed(On(day, cashier), f))
  {
    if |sales| > 0 {
      MethodsAddUp(sales[..|sales| - 1], day, cashier, f);
      var m := sales[|sales| - 1].payment;
      assert m.CASH? || m.SIMULATED_CARD? || m.QRIS?;
    }
  }

  // ---------- all days together ----------

  /** The sales that keep keeps, of one day. */
  function OnDay(day: int, keep: Sale -> bool): Sale -> bool {
    (sale: Sale) => sale.day == day && keep(sale)
  }

  /** A figure of one sale, counted on its own day. */
  function DayTable(keep: Sale -> bool, f: Sale -> int): (int, Sale) -> int {
    (day: int, sale: Sale) => Completed(OnDay(day, keep), f)(sale)
  }

  function DayFigure(s: Store, keep: Sale -> bool, f: Sale -> int): int -> int {
    (day: int) => Sum(s.sales, Completed(OnDay(day, keep), f))
  }

  /** Every day on which anything was sold, each once. */
  ghost predicate AllDays(s: Store, days: seq<int>) {
    (forall i, j :: 0 <= i < j < |days| ==> days[i] != days[j]) && forall sale <- s.sales :: sale.day in days
  }

  /** Adding a daily figure over all days counts every completed sale once. */
  lemma {:induction false} DaysAddUp(s: Store, days: seq<int>, keep: Sale -> bool, f: Sale -> int)
    requires AllDays(s, days)
    ensures Sum(days, DayFigure(s, keep, f)) == Sum(s.sales, Completed(keep, f))
  {
    var w := DayTable(keep, f);
    forall day | day in days
      ensures DayFigure(s, keep, f)(day) == RowSum<int, Sale>(s.sales, w)(day)
    {
      SumCongruent(s.sales, Completed(OnDay(day, keep), f), Fix<int, Sale>(w, day));
    }
    SumCongruent(days, DayFigure(s, keep, f), RowSum<int, Sale>(s.sales, w));
    SumSwap<int, Sale>(days, s.sales, w);
    forall sale | sale in s.sales
      ensures ColumnSum<int, Sale>(days, w)(sale) == Completed(keep, f)(sale)
    {
      var k :| 0 <= k < |days| && days[k] == sale.day;
      SumOneHit(days, k, FixSecond<int, Sale>(w, sale));
    }
    SumCongruent(s.sales, ColumnSum<int, Sale>(days, w), Completed(keep, f));
  }

  // ---------- the reports of all days ----------

  function NetOfDay(s: Store): int -> int {
    (day: int) => SummaryOf(s, day, None).netSales
  }

  function CogsOfDay(s: Store): int -> int {
    (day: int) => SummaryOf(s, day, None).totalCogs
  }

  function PaidOnDay(s: Store, cash: bool): int -> int {
    (day: int) =>
      var rows := SummaryOf(s, day, None).breakdown;
      if cash then AmountIn(rows, CASH) else AmountIn(rows, SIMULATED_CARD) + AmountIn(rows, QRIS)
  }

  lemma {:induction false} DayReports(s: Store, day: int)
    ensures NetOfDay(s)(day) == DayFigure(s, Any(), TotalOf())(day) && CogsOfDay(s)(day) == DayFigure(s, Any(), CogsOf())(day)
    ensures PaidOnDay(s, true)(day) == DayFigure(s, PaidIn(true), TotalOf())(day)
    ensures PaidOnDay(s, false)(day) == DayFigure(s, PaidIn(false), TotalOf())(day)
  {
    SumCongruent(s.sales, Completed(On(day, None), TotalOf()), Completed(OnDay(day, Any()), TotalOf()));
    SumCongruent(s.sales, Completed(On(day, None), CogsOf()), Completed(OnDay(day, Any()), CogsOf()));
    RowsRead(s, day, None, CASH);
    RowsRead(s, day, None, SIMULATED_CARD);
    RowsRead(s, day, None, QRIS);
    SumCongruent(s.sales, Completed(OnPaidBy(day, None, CASH), TotalOf()), Completed(OnDay(day, PaidIn(true)), TotalOf()));
    CardAndQrisAreTheRest(s.sales, day);
  }

  lemma {:induction false} CardAndQrisAreTheRest(sales: seq<Sale>, day: int)
    ensures Sum(sales, Completed(OnPaidBy(day, None, SIMULATED_CARD), TotalOf())) + Sum(sales, Completed(OnPaidBy(day, None, QRIS), TotalOf()))
            == Sum(sales, Completed(OnDay(day, PaidIn(false)), TotalOf()))
  {
    if |sales| > 0 {
      CardAndQrisAreTheRest(sales[..|sales| - 1], day);
      var last := sales[|sales| - 1];
      assert last.payment.CASH? || last.payment.SIMULATED_CARD? || last.payment.QRIS?;
      assert OnDay(day, PaidIn(false))(last) <==> last.day == day && last.payment != CASH;
      assert On(day, None)(last) <==> last.day == day;
      assert forall m :: OnPaidBy(day, None, m)(last) <==> last.day == day && last.payment == m;
    }
  }

  /** The daily summaries, over all days, are what the sale and void journals net to: net sales on revenue, cost of goods,
      the cash rows on cash, the card and QRIS rows on the bank. */
  lemma {:induction false} SummariesMatchLedger(s: Store, days: seq<int>)
    requires Booked(s) && AllDays(s, days)
    ensures Sum(days, NetOfDay(s)) == -Sum(s.entries, SalesNet(Ledger.SALES_REVENUE))
    ensures Sum(days, CogsOfDay(s)) == Sum(s.entries, SalesNet(Ledger.COGS))
    ensures Sum(days, PaidOnDay(s, true)) == Sum(s.entries, SalesNet(Ledger.CASH_ON_HAND))
    ensures Sum(days, PaidOnDay(s, false)) == Sum(s.entries, SalesNet(Ledger.BANK))
  {
    JournalsMatchSales(s);
    forall day | day in days
      ensures NetOfDay(s)(day) == DayFigure(s, Any(), TotalOf())(day) && CogsOfDay(s)(day) == DayFigure(s, Any(), CogsOf())(day)
      ensures PaidOnDay(s, true)(day) == DayFigure(s, PaidIn(true), TotalOf())(day)
      ensures PaidOnDay(s, false)(day) == DayFigure(s, PaidIn(false), TotalOf())(day)
    {
      DayReports(s, day);
    }
    SumCongruent(days, NetOfDay(s), DayFigure(s, Any(), TotalOf()));
    SumCongruent(days, CogsOfDay(s), DayFigure(s, Any(), CogsOf()));
    SumCongruent(days, PaidOnDay(s, true), DayFigure(s, PaidIn(true), TotalOf()));
    SumCongruent(days, PaidOnDay(s, false), DayFigure(s, PaidIn(false), TotalOf()));
    DaysAddUp(s, days, Any(), TotalOf());
    DaysAddUp(s, days, Any(), CogsOf());
    DaysAddUp(s, days, PaidIn(true), TotalOf());
    DaysAddUp(s, days, PaidIn(false), TotalOf());
  }

  // ---------- the report in plain figures ----------

  /** The sale belongs in the report: its day, and its cashier if one was asked for. */
  predicate InReport(sale: Sale, day: int, cashier: Option<nat>) {
    sale.day == day && (cashier.Some? ==> sale.cashier == cashier.value)
  }

  /** One more sale moves each field by its own figures when it belongs in the report, and otherwise moves nothing: an order
      more; if completed, its amounts and one row of its payment method; if voided, only the count of voided orders. */
  lemma {:induction false} OneMoreSale(s: Store, sale: Sale, day: int, cashier: Option<nat>)
    ensures var was, now := SummaryOf(s, day, cashier), SummaryOf(s.(sales := s.sales + [sale]), day, cashier);
            var done := InReport(sale, day, cashier) && sale.status == COMPLETED;
            var cogs := Sum(sale.lines, (l: SaleLine) => l.costPrice * l.quantity);
            && now.orders == was.orders + (if InReport(sale, day, cashier) then 1 else 0)
            && now.completed == was.completed + (if done then 1 else 0)
            && now.voided == was.voided + (if InReport(sale, day, cashier) && sale.status == VOIDED then 1 else 0)
            && now.grossSales == was.grossSales + (if done then sale.subtotal else 0)
            && now.discounts == was.discounts + (if done then sale.discount else 0)
            && now.netSales == was.netSales + (if done then sale.total else 0)
            && now.totalCogs == was.totalCogs + (if done then cogs else 0)
            && now.grossProfit == was.grossProfit + (if done then sale.total - cogs else 0)
    ensures forall m :: var was, now := SummaryOf(s, day, cashier).breakdown, SummaryOf(s.(sales := s.sales + [sale]), day, cashier).breakdown;
                        var done := InReport(sale, day, cashier) && sale.status == COMPLETED && sale.payment == m;
                        && CountIn(now, m) == CountIn(was, m) + (if done then 1 else 0)
                        && AmountIn(now, m) == AmountIn(was, m) + (if done then sale.total else 0)
  {
    var keep := On(day, cashier);
    SumAppend(s.sales, sale, Kept(keep));
    SumAppend(s.sales, sale, Counted(keep, COMPLETED));
    SumAppend(s.sales, sale, Counted(keep, VOIDED));
    SumAppend(s.sales, sale, Completed(keep, SubtotalOf()));
    SumAppend(s.sales, sale, Completed(keep, DiscountOf()));
    SumAppend(s.sales, sale, Completed(keep, TotalOf()));
    SumAppend(s.sales, sale, Completed(keep, CogsOf()));
    SumCongruent(sale.lines, LineCost(), (l: SaleLine) => l.costPrice * l.quantity);
    forall m
      ensures var was, now := SummaryOf(s, day, cashier).breakdown, SummaryOf(s.(sales := s.sales + [sale]), day, cashier).breakdown;
              var done := InReport(sale, day, cashier) && sale.status == COMPLETED && sale.payment == m;
              && CountIn(now, m) == CountIn(was, m) + (if done then 1 else 0)
              && AmountIn(now, m) == AmountIn(was, m) + (if done then sale.total else 0)
    {
      OneMoreInRow(s, sale, day, cashier, m);
    }
  }

  lemma {:induction false} OneMoreInRow(s: Store, sale: Sale, day: int, cashier: Option<nat>, m: PaymentMethod)
    ensures var was, now := SummaryOf(s, day, cashier).breakdown, SummaryOf(s.(sales := s.sales + [sale]), day, cashier).breakdown;
            var done := InReport(sale, day, cashier) && sale.status == COMPLETED && sale.payment == m;
            && CountIn(now, m) == CountIn(was, m) + (if done then 1 else 0)
            && AmountIn(now, m) == AmountIn(was, m) + (if done then sale.total else 0)
  {
    RowsRead(s, day, cashier, m);
    RowsRead(s.(sales := s.sales + [sale]), day, cashier, m);
    SumAppend(s.sales, sale, Completed(OnPaidBy(day, cashier, m), One()));
    SumAppend(s.sales, sale, Completed(OnPaidBy(day, cashier, m), TotalOf()));
  }

  /** Without sales there is nothing to report, and a payment method has a row exactly when a completed sale used it. */
  lemma {:induction false} EmptyReport(s: Store, day: int, cashier: Option<nat>)
    requires s.sales == []
    ensures SummaryOf(s, day, cashier) == Summary(0, 0, 0, 0, 0, 0, 0, 0, map[])
  {
  }

  lemma {:induction false} RowPresentExactlyWhen(s: Store, day: int, cashier: Option<nat>, m: PaymentMethod)
    ensures m in SummaryOf(s, day, cashier).breakdown <==>
              exists sale <- s.sales :: InReport(sale, day, cashier) && sale.status == COMPLETED && sale.payment == m
  {
    var f := Completed(OnPaidBy(day, cashier, m), One());
    assert m.CASH? || m.SIMULATED_CARD? || m.QRIS?;
    if forall sale <- s.sales :: f(sale) == 0 {
      SumZero(s.sales, f);
    } else {
      var k :| 0 <= k < |s.sales| && f(s.sales[k]) != 0;
      SumTerm(s.sales, k, f);
    }
  }

  // ---------- the ledger by account number ----------

  /** Debit less credit of an entry on an account, if a sale or a void posted it. */
  function PostedBySales(code: nat): Entry -> int {
    (e: Entry) => if e.doc in {POS_SALE, POS_VOID} then Sum(e.lines, (l: Line) => if l.account == code then l.debit - l.credit else 0) else 0
  }

  lemma {:induction false} PostedBySalesIsNet(entries: seq<Entry>, code: nat)
    ensures Sum(entries, PostedBySales(code)) == Sum(entries, SalesNet(code))
  {
    forall e | e in entries
      ensures PostedBySales(code)(e) == SalesNet(code)(e)
    {
      SumCongruent(e.lines, NetOn(code), (l: Line) => if l.account == code then l.debit - l.credit else 0);
      assert EntryNet(code)(e) == Sum(e.lines, NetOn(code));
    }
    SumCongruent(entries, PostedBySales(code), SalesNet(code));
  }

  /** What sales and voids posted on 4010, 5010, 1010 and 1020 is exactly what the COMPLETED sales come to. */
  lemma {:induction false} AccountsShowCompletedSales(s: Store)
    requires Booked(s)
    ensures Sum(s.entries, PostedBySales(4010)) == -Sum(s.sales, (sale: Sale) => if sale.status == COMPLETED then sale.total else 0)
    ensures Sum(s.entries, PostedBySales(5010))
            == Sum(s.sales, (sale: Sale) => if sale.status == COMPLETED then Sum(sale.lines, (l: SaleLine) => l.costPrice * l.quantity) else 0)
    ensures Sum(s.entries, PostedBySales(1010)) == Sum(s.sales, (sale: Sale) => if sale.status == COMPLETED && sale.payment == CASH then sale.total else 0)
    ensures Sum(s.entries, PostedBySales(1020)) == Sum(s.sales, (sale: Sale) => if sale.status == COMPLETED && sale.payment != CASH then sale.total else 0)
  {
    JournalsMatchSales(s);
    PostedBySalesIsNet(s.entries, 4010);
    PostedBySalesIsNet(s.entries, 5010);
    PostedBySalesIsNet(s.entries, 1010);
    PostedBySalesIsNet(s.entries, 1020);
    SumCongruent(s.sales, Completed(Any(), TotalOf()), (sale: Sale) => if sale.status == COMPLETED then sale.total else 0);
    forall sale | sale in s.sales
      ensures Cogs(sale) == Sum(sale.lines, (l: SaleLine) => l.costPrice * l.quantity)
    {
      SumCongruent(sale.lines, LineCost(), (l: SaleLine) => l.costPrice * l.quantity);
    }
    SumCongruent(s.sales, Completed(Any(), CogsOf()),
                 (sale: Sale) => if sale.status == COMPLETED then Sum(sale.lines, (l: SaleLine) => l.costPrice * l.quantity) else 0);
    SumCongruent(s.sales, Completed(PaidIn(true), TotalOf()), (sale: Sale) => if sale.status == COMPLETED && sale.payment == CASH then sale.total else 0);
    SumCongruent(s.sales, Completed(PaidIn(false), TotalOf()), (sale: Sale) => if sale.status == COMPLETED && sale.payment != CASH then sale.total else 0);
  }
}
