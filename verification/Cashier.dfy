/** One till, end to end: the controller's sends, the idempotency protocol that serves them together with everybody else's
    requests, and answers that come late, never or spoilt. Each send reaches the server at most once. */
module Cashier {
  import opened Wrappers
  import opened Tables
  import opened Sums
  import opened Events
  import opened SalesBooks
  import opened CheckoutController
  import opened SingleCall
  import Checkout
  import Handler
  import Idempotency
  import Money
  import MoneyText
  import Runs

  const LIMITS: Limits := Limits(Money.MAX_TRANSACTION_AMOUNT, Money.MAX_TENDER_AMOUNT, Money.MAX_LINE_ITEM_QUANTITY)

  // ---------- the receipt of a committed sale ----------

  function ItemOf(l: SaleLine): ReceiptItem {
    ReceiptItem(l.sku, l.quantity, l.unitPrice, l.subtotal)
  }

  /** The answer to a committed sale. The transaction id and number are generated, so never empty. */
  function ReceiptOf(id: nat, sale: Sale): CheckoutResponse {
    CheckoutResponse(sale.status, "ID-" + MoneyText.Digits(id), "TXN-" + MoneyText.Digits(id), true, sale.subtotal, 0, sale.discount,
                     sale.total, sale.tendered, sale.change,
                     seq(|sale.lines|, i requires 0 <= i < |sale.lines| => ItemOf(sale.lines[i])))
  }

  lemma {:induction false} LineWithinSum(s: Store, items: seq<Checkout.CartItem>, lines: seq<SaleLine>, i: nat)
    requires Checkout.Linked(s) && Checkout.LinesFor(s, items, lines) && i < |lines| && forall item <- items :: item.quantity > 0
    ensures 0 < lines[i].quantity <= lines[i].subtotal <= Sum(lines, Checkout.LineAmount())
    ensures 0 <= lines[i].unitPrice <= Money.MAX_TRANSACTION_AMOUNT
  {
    Checkout.PricesNonNegative(s, items);
    forall l | l in lines
      ensures Checkout.LineAmount()(l) >= 0
    {
      var k :| 0 <= k < |lines| && lines[k] == l;
      assert items[k] in items && Checkout.PriceIn(s)(items[k]) >= 0;
    }
    SumTerm(lines, i, Checkout.LineAmount());
    assert items[i] in items && Checkout.LineAmount()(lines[i]) == lines[i].subtotal;
    Money.LeftFactorGrows(lines[i].unitPrice, lines[i].quantity);
  }

  /** Every committed cash sale answers with a receipt the controller accepts. */
  lemma {:induction false} CashReceiptsAreValid(s: Store, cashier: nat, key: string, req: Checkout.Request, sale: Sale, at: int, id: nat)
    requires Checkout.Linked(s) && Enabled(s, Sell(cashier, key, req, sale, at)) && req.payment == CASH
    ensures IsReceipt(Some(ReceiptOf(id, sale)))
  {
    var r := ReceiptOf(id, sale);
    assert Checkout.QuoteFault(s, req).None?;
    assert 0 <= req.discount <= Money.MAX_TRANSACTION_AMOUNT;
    Checkout.PricesNonNegative(s, req.items);
    SumNonNegative(req.items, Checkout.PriceIn(s));
    forall item | item in r.items
      ensures IsSafeInteger(item.quantity) && item.quantity > 0 && Amount(item.unitPrice) && Amount(item.subtotal)
    {
      var i :| 0 <= i < |r.items| && r.items[i] == item;
      LineWithinSum(s, req.items, sale.lines, i);
    }
  }

  // ---------- what the till is told ----------

  function ToResponse(o: Handler.Outcome): Response {
    match o
    case Success(_, body) => Success(if body.SaleBody? then Some(ReceiptOf(body.id, body.sale)) else None)
    case Failure(status, code) => Failure(status, code)
  }

  function ReplyToResponse(r: Idempotency.Reply): Response {
    match r
    case Handled(o) => ToResponse(o)
    case Replayed(o) => ToResponse(o)
    case Rejected(code) => Failure(409, code)
  }

  /** Of the endpoint's refusals, exactly four are documented to the till as definite. */
  lemma DefiniteRefusals(e: Checkout.CheckoutError)
    ensures IsDefiniteRejection(ToResponse(Handler.ErrorReply(e)))
            <==> e in {Checkout.InsufficientCashTendered, Checkout.CashTenderedNotAllowed, Checkout.InsufficientStock, Checkout.ProductNotFound}
  {
  }

  predicate Conclusive(r: Response) {
    IsDefiniteRejection(r) || (r.Success? && IsReceipt(r.data))
  }

  // ---------- the system ----------

  /** Waiting on the way, turned away before the protocol, or call `call` of it. */
  datatype Fate = Waiting | TurnedAway(reply: Response) | Reached(call: nat)

  /** One send; `seen` is what the controller was told, once it was told. */
  datatype Send = Send(key: string, command: Checkout.Request, fate: Fate, seen: Option<Option<Response>>)

  datatype System = System(ctl: State, sends: seq<Send>, server: Idempotency.System)

  datatype Action =
    | Press(click: Click)
    | Submit(items: seq<CartLine>, total: int, key: string, command: Checkout.Request)
    | TurnAway(who: nat, reply: Response)                        // binding, authentication, a proxy: nothing ran
    | Reach(who: nat, hash: string, cashier: nat, at: int)       // the send arrives at the idempotency layer
    | Serve(step: Idempotency.Action)                            // any step of the protocol, for this till or for others
    | Return(who: nat)                                           // the server's answer arrives
    | Interfere(who: nat, spoilt: Option<Response>)              // a timeout, or an inconclusive answer from elsewhere

  predicate Awaited(st: System, i: nat) {
    i < |st.sends| && st.sends[i].seen.None?
  }

  predicate Pending(st: System, i: nat) {
    i < |st.sends| && st.sends[i].fate == Waiting
  }

  /** What the server has answered to a send so far. */
  function AnswerTo(server: Idempotency.System, send: Send): Option<Response> {
    match send.fate
    case Waiting => None
    case TurnedAway(reply) => Some(reply)
    case Reached(c) =>
      if c < |server.calls| && server.calls[c].reply.Some? then Some(ReplyToResponse(server.calls[c].reply.value)) else None
  }

  function Arrival(send: Send, hash: string, cashier: nat, at: int): Idempotency.Action {
    Idempotency.Arrive(Idempotency.Slot(send.key, Idempotency.CheckoutRoute), hash, cashier, send.command, at)
  }

  ghost predicate Can(st: System, a: Action) {
    match a
    case Press(_) => true
    case Submit(items, total, key, command) =>
      // createKey yields a key never used before
      && MaySend(st.ctl, items, total, Some(key), LIMITS) && CommandFor(items, st.ctl.cashTendered, command)
      && !Checkout.KeyUsed(st.server.store.sales, key) && NoCall(st.server.calls, key) && forall send <- st.sends :: send.key != key
    case TurnAway(i, reply) => Pending(st, i) && !(reply.Success? && IsReceipt(reply.data))
    case Reach(i, hash, cashier, at) => Pending(st, i) && Idempotency.Can(st.server, Arrival(st.sends[i], hash, cashier, at))
    case Serve(step) => Idempotency.Can(st.server, step) && forall send <- st.sends :: !ArrivesWith(step, send.key)
    case Return(i) => Awaited(st, i) && AnswerTo(st.server, st.sends[i]).Some?
    case Interfere(i, spoilt) => Awaited(st, i) && (spoilt.Some? ==> !Conclusive(spoilt.value))
  }

  function Marked(st: System, i: nat, fate: Fate): System
    requires i < |st.sends|
  {
    st.(sends := st.sends[i := st.sends[i].(fate := fate)])
  }

  function Told(st: System, i: nat, result: Option<Response>): System
    requires i < |st.sends|
  {
    st.(ctl := Settled(st.ctl, result), sends := st.sends[i := st.sends[i].(seen := Some(result))])
  }

  ghost function Do(st: System, a: Action): System
    requires Can(st, a)
  {
    match a
    case Press(click) => st.(ctl := Clicked(st.ctl, click, LIMITS))
    case Submit(_, _, key, command) => st.(ctl := Sending(st.ctl, command, key), sends := st.sends + [Send(key, command, Waiting, None)])
    case TurnAway(i, reply) => Marked(st, i, TurnedAway(reply))
    case Reach(i, hash, cashier, at) =>
      Marked(st, i, Reached(|st.server.calls|)).(server := Idempotency.Do(st.server, Arrival(st.sends[i], hash, cashier, at)))
    case Serve(step) => st.(server := Idempotency.Do(st.server, step))
    case Return(i) => Told(st, i, AnswerTo(st.server, st.sends[i]))
    case Interfere(i, spoilt) => Told(st, i, spoilt)
  }

  // ---------- the invariant ----------

  /** The receipt shows the amounts of the sale. */
  ghost predicate Shows(r: CheckoutResponse, sale: Sale) {
    && r.subtotal == sale.subtotal && r.discount == sale.discount && r.total == sale.total
    && r.tendered == sale.tendered && r.change == sale.change && |r.items| == |sale.lines|
    && forall i :: 0 <= i < |r.items| ==> r.items[i] == ItemOf(sale.lines[i])
  }

  ghost predicate CommittedAs(s: Store, key: string, r: CheckoutResponse) {
    exists id :: 0 <= id < |s.sales| && s.sales[id].key == key && Shows(r, s.sales[id])
  }

  ghost predicate CommandSound(command: Checkout.Request) {
    command.payment == CASH && |command.items| > 0 && forall item <- command.items :: 1 <= item.quantity
  }

  /** Where a send stands at the server: nothing there knows its key, or exactly its own call does, truthfully. */
  ghost predicate Placed(server: Idempotency.System, send: Send) {
    match send.fate
    case Waiting => NoCall(server.calls, send.key) && !Checkout.KeyUsed(server.store.sales, send.key)
    case TurnedAway(reply) =>
      NoCall(server.calls, send.key) && !Checkout.KeyUsed(server.store.sales, send.key) && !(reply.Success? && IsReceipt(reply.data))
    case Reached(c) =>
      && OnlyCall(server.calls, c, send.key) && Truthful(server.store, server.calls[c])
      && server.calls[c].cart == send.command
  }

  ghost predicate SendTrue(server: Idempotency.System, send: Send) {
    && send.key != "" && CommandSound(send.command) && Placed(server, send)
    && (send.seen.Some? && send.seen.value.Some? && Conclusive(send.seen.value.value) ==> AnswerTo(server, send) == send.seen.value)
  }

  /** The controller has the server's own answer: a validated receipt that shows the committed sale, or a rejection with no
      sale under the key. */
  ghost predicate Certain(server: Idempotency.System, send: Send) {
    && send.seen.Some? && send.seen.value.Some? && AnswerTo(server, send) == send.seen.value
    && var r := send.seen.value.value;
       (IsDefiniteRejection(r) && !Checkout.KeyUsed(server.store.sales, send.key))
       || (r.Success? && IsReceipt(r.data) && CommittedAs(server.store, send.key, r.data.value))
  }

  predicate ToldConclusively(send: Send) {
    send.seen.Some? && send.seen.value.Some? && Conclusive(send.seen.value.value)
  }

  ghost predicate KeysDistinct(sends: seq<Send>) {
    forall i, j :: 0 <= i < j < |sends| ==> sends[i].key != sends[j].key
  }

  /** At most the last send is unanswered, exactly while submitting; and unless the result is unknown every answered one
      was answered conclusively. */
  ghost predicate Orderly(ctl: State, sends: seq<Send>) {
    && (forall i :: 0 <= i < |sends| && sends[i].seen.None? ==> i == |sends| - 1 && ctl.step == Submitting)
    && (ctl.step == Submitting ==> |sends| > 0 && sends[|sends| - 1].seen.None?)
    && (ctl.step != UnknownError ==> forall i :: 0 <= i < |sends| && sends[i].seen.Some? ==> ToldConclusively(sends[i]))
  }

  ghost predicate Safe(st: System) {
    && Idempotency.Safe(st.server) && KeysDistinct(st.sends) && Orderly(st.ctl, st.sends)
    && forall i :: 0 <= i < |st.sends| ==> SendTrue(st.server, st.sends[i])
  }

  // ---------- a conclusive answer is true ----------

  /** A sale that was fresh when it was made is a receipt the controller accepts. */
  lemma {:induction false} FreshSaleIsReceipt(c: Idempotency.Call, body: Handler.Body)
    requires FreshSale(c, body) && c.cart.payment == CASH
    ensures IsReceipt(Some(ReceiptOf(body.id, body.sale)))
  {
    var s: Store :| Checkout.Linked(s) && Enabled(s, Idempotency.SellOf(c, body.sale));
    CashReceiptsAreValid(s, c.cashier, c.slot.key, c.cart, body.sale, c.at, body.id);
  }

  lemma {:induction false} SuccessIsCommitted(server: Idempotency.System, c: nat, key: string, status: int, body: Handler.Body)
    requires Idempotency.Tidy(server) && OnlyCall(server.calls, c, key) && server.calls[c].outcome == Some(Handler.Success(status, body))
    ensures body.SaleBody? && CommittedAs(server.store, key, ReceiptOf(body.id, body.sale))
  {
    assert Idempotency.CallFits(server, c, server.calls[c]);
    assert Shows(ReceiptOf(body.id, body.sale), body.sale);
    assert Idempotency.Standing(server.store.sales[body.id]) == Idempotency.Standing(body.sale);
    assert Shows(ReceiptOf(body.id, body.sale), server.store.sales[body.id]);
  }

  /** A rejection the till takes as definite was given before any sale, and a receipt shows the sale under the key. */
  lemma {:induction false} ReachedAnswerIsTrue(server: Idempotency.System, send: Send, r: Response)
    requires Idempotency.Tidy(server) && Placed(server, send) && send.fate.Reached? && AnswerTo(server, send) == Some(r)
    ensures IsDefiniteRejection(r) ==> !Checkout.KeyUsed(server.store.sales, send.key)
    ensures r.Success? && r.data.Some? ==> CommittedAs(server.store, send.key, r.data.value)
  {
    var c := send.fate.call;
    ReplyIsOwnOutcome(server, c, send.key);
    if r.Success? && r.data.Some? {
      var o := server.calls[c].outcome.value;
      SuccessIsCommitted(server, c, send.key, o.status, o.body);
    }
  }

  lemma {:induction false} ConclusiveIsCertain(server: Idempotency.System, send: Send)
    requires Idempotency.Tidy(server) && SendTrue(server, send) && ToldConclusively(send)
    ensures Certain(server, send)
  {
    if send.fate.Reached? { ReachedAnswerIsTrue(server, send, send.seen.value.value); }
  }

  // ---------- every step of the server keeps every send true ----------

  lemma {:induction false} AnswerStays(server: Idempotency.System, step: Idempotency.Action, send: Send)
    requires Idempotency.Tidy(server) && Idempotency.Can(server, step) && AnswerTo(server, send).Some?
    ensures AnswerTo(Idempotency.Do(server, step), send) == AnswerTo(server, send)
  {
    Idempotency.DoIsTidy(server, step);
    SameAnswer(server, Idempotency.Do(server, step), send);
  }

  lemma SameAnswer(a: Idempotency.System, b: Idempotency.System, send: Send)
    requires Idempotency.CallsPersist(a.calls, b.calls) && AnswerTo(a, send).Some?
    ensures AnswerTo(b, send) == AnswerTo(a, send)
  {
  }

  lemma {:induction false} PlacedStays(server: Idempotency.System, step: Idempotency.Action, send: Send)
    requires Idempotency.Safe(server) && Idempotency.Can(server, step) && !ArrivesWith(step, send.key) && Placed(server, send)
    ensures Placed(Idempotency.Do(server, step), send)
  {
    match send.fate
    case Reached(c) =>
      OnlyCallStays(server, step, c, send.key);
      TruthfulStays(server, step, c, send.key);
      Idempotency.DoIsTidy(server, step);
    case _ => UnusedStays(server, step, send.key);
  }

  lemma {:induction false} SendStaysTrue(server: Idempotency.System, step: Idempotency.Action, send: Send)
    requires Idempotency.Safe(server) && Idempotency.Can(server, step) && !ArrivesWith(step, send.key) && SendTrue(server, send)
    ensures SendTrue(Idempotency.Do(server, step), send)
  {
    PlacedStays(server, step, send);
    if AnswerTo(server, send).Some? { AnswerStays(server, step, send); }
  }

  // ---------- every step of the till ----------

  lemma {:induction false} ServeKeepsSafe(st: System, step: Idempotency.Action)
    requires Safe(st) && Can(st, Serve(step))
    ensures Safe(Do(st, Serve(step)))
  {
    Idempotency.DoIsSafe(st.server, step);
    forall i | 0 <= i < |st.sends|
      ensures SendTrue(Idempotency.Do(st.server, step), st.sends[i])
    {
      assert st.sends[i] in st.sends;
      SendStaysTrue(st.server, step, st.sends[i]);
    }
  }

  /** The send that arrives becomes the only call under its key. */
  lemma {:induction false} ReachedIsTrue(st: System, i: nat, hash: string, cashier: nat, at: int)
    requires Pending(st, i) && SendTrue(st.server, st.sends[i]) && Idempotency.Can(st.server, Arrival(st.sends[i], hash, cashier, at))
    requires st.sends[i].seen.Some? ==> !ToldConclusively(st.sends[i])
    ensures SendTrue(Idempotency.Do(st.server, Arrival(st.sends[i], hash, cashier, at)), st.sends[i].(fate := Reached(|st.server.calls|)))
  {
  }

  lemma {:induction false} ReachKeepsSafe(st: System, i: nat, hash: string, cashier: nat, at: int)
    requires Safe(st) && Can(st, Reach(i, hash, cashier, at))
    ensures Safe(Do(st, Reach(i, hash, cashier, at)))
  {
    var step := Arrival(st.sends[i], hash, cashier, at);
    Idempotency.DoIsSafe(st.server, step);
    forall j | 0 <= j < |st.sends|
      ensures SendTrue(Idempotency.Do(st.server, step), Do(st, Reach(i, hash, cashier, at)).sends[j])
    {
      if j == i {
        ReachedIsTrue(st, i, hash, cashier, at);
      } else {
        SendStaysTrue(st.server, step, st.sends[j]);
      }
    }
    FateKeepsOrder(st.ctl, st.sends, i, Reached(|st.server.calls|));
  }

  lemma FateKeepsOrder(ctl: State, sends: seq<Send>, i: nat, fate: Fate)
    requires i < |sends| && KeysDistinct(sends) && Orderly(ctl, sends)
    ensures var after := sends[i := sends[i].(fate := fate)]; KeysDistinct(after) && Orderly(ctl, after)
  {
    var after := sends[i := sends[i].(fate := fate)];
    assert forall j :: 0 <= j < |sends| ==> after[j].key == sends[j].key && after[j].seen == sends[j].seen;
  }

  lemma {:induction false} TurnAwayKeepsSafe(st: System, i: nat, reply: Response)
    requires Safe(st) && Can(st, TurnAway(i, reply))
    ensures Safe(Do(st, TurnAway(i, reply)))
  {
    FateKeepsOrder(st.ctl, st.sends, i, TurnedAway(reply));
    assert SendTrue(st.server, st.sends[i]);
  }

  lemma {:induction false} ToldKeepsOrder(ctl: State, sends: seq<Send>, i: nat, result: Option<Response>)
    requires i < |sends| && sends[i].seen.None? && KeysDistinct(sends) && Orderly(ctl, sends)
    ensures var after := sends[i := sends[i].(seen := Some(result))];
            KeysDistinct(after) && Orderly(Settled(ctl, result), after)
  {
    var after := sends[i := sends[i].(seen := Some(result))];
    assert forall j :: 0 <= j < |sends| ==> after[j].key == sends[j].key && (j != i ==> after[j] == sends[j]);
  }

  lemma {:induction false} ToldKeepsSafe(st: System, i: nat, result: Option<Response>)
    requires Safe(st) && Awaited(st, i)
    requires result.Some? && Conclusive(result.value) ==> AnswerTo(st.server, st.sends[i]) == result
    ensures Safe(Told(st, i, result))
  {
    ToldKeepsOrder(st.ctl, st.sends, i, result);
    assert SendTrue(st.server, st.sends[i]);
    assert SendTrue(st.server, st.sends[i].(seen := Some(result)));
  }

  lemma {:induction false} SubmitKeepsSafe(st: System, items: seq<CartLine>, total: int, key: string, command: Checkout.Request)
    requires Safe(st) && Can(st, Submit(items, total, key, command))
    ensures Safe(Do(st, Submit(items, total, key, command)))
  {
    var last := Send(key, command, Waiting, None);
    forall item | item in command.items
      ensures 1 <= item.quantity
    {
      var k :| 0 <= k < |command.items| && command.items[k] == item;
      assert items[k] in items;
    }
    assert SendTrue(st.server, last);
    assert forall j :: 0 <= j < |st.sends| ==> st.sends[j] in st.sends;
  }

  lemma {:induction false} PressKeepsSafe(st: System, click: Click)
    requires Safe(st)
    ensures Safe(Do(st, Press(click)))
  {
  }

  lemma {:induction false} DoSafe(st: System, a: Action)
    requires Safe(st) && Can(st, a)
    ensures Safe(Do(st, a))
  {
    if a.Press? {
      PressKeepsSafe(st, a.click);
    } else if a.Submit? {
      SubmitKeepsSafe(st, a.items, a.total, a.key, a.command);
    } else if a.TurnAway? {
      TurnAwayKeepsSafe(st, a.who, a.reply);
    } else if a.Reach? {
      ReachKeepsSafe(st, a.who, a.hash, a.cashier, a.at);
    } else if a.Serve? {
      ServeKeepsSafe(st, a.step);
    } else if a.Return? {
      ToldKeepsSafe(st, a.who, AnswerTo(st.server, st.sends[a.who]));
    } else {
      ToldKeepsSafe(st, a.who, a.spoilt);
    }
  }

  // ---------- every session ----------

  ghost predicate CanAll(st: System, acts: seq<Action>)
    decreases |acts|
  {
    |acts| == 0 || (Can(st, acts[0]) && CanAll(Do(st, acts[0]), acts[1..]))
  }

  ghost function DoAll(st: System, acts: seq<Action>): System
    requires CanAll(st, acts)
    decreases |acts|
  {
    if |acts| == 0 then st else DoAll(Do(st, acts[0]), acts[1..])
  }

  function Start(now: int, s: Store): System {
    System(State(Idle, 0, "", None, None, None), [], Idempotency.Start(now, s))
  }

  lemma {:induction false} SessionsAreSafe(st: System, acts: seq<Action>)
    requires Safe(st) && CanAll(st, acts)
    ensures Safe(DoAll(st, acts))
    decreases |acts|
  {
    if |acts| > 0 {
      DoSafe(st, acts[0]);
      SessionsAreSafe(Do(st, acts[0]), acts[1..]);
    }
  }

  lemma {:induction false} SettledMeansCertain(st: System, i: nat)
    requires Safe(st) && st.ctl.step != Submitting && st.ctl.step != UnknownError && i < |st.sends|
    ensures !Awaited(st, i) && !Pending(st, i) && Certain(st.server, st.sends[i])
  {
    assert SendTrue(st.server, st.sends[i]);
    ConclusiveIsCertain(st.server, st.sends[i]);
  }

  /** Whenever a new key can be sent, every earlier key is either completed with a receipt that shows the committed sale,
      or certainly not committed: answered by a rejection, with no sale under it. And nothing is in flight. This holds of
      every interleaving of the till with the whole idempotency protocol and everybody else's requests. */
  lemma {:induction false} NewKeyOnlyWhenCertain(now: int, s: Store, acts: seq<Action>, items: seq<CartLine>, total: int, key: Option<string>, i: nat)
    requires Runs.Consistent(s) && CanAll(Start(now, s), acts)
    requires MaySend(DoAll(Start(now, s), acts).ctl, items, total, key, LIMITS) && i < |DoAll(Start(now, s), acts).sends|
    ensures var st := DoAll(Start(now, s), acts); !Awaited(st, i) && !Pending(st, i) && Certain(st.server, st.sends[i])
  {
    SessionsAreSafe(Start(now, s), acts);
    SettledMeansCertain(DoAll(Start(now, s), acts), i);
  }

  /** A completed send has one sale under its key, with one set of movements and one entry, and its receipt shows it. */
  lemma {:induction false} CompletedMeansOneSale(now: int, s: Store, acts: seq<Action>, i: nat)
    requires Runs.Consistent(s) && CanAll(Start(now, s), acts) && i < |DoAll(Start(now, s), acts).sends|
    requires var send := DoAll(Start(now, s), acts).sends[i]; ToldConclusively(send) && send.seen.value.value.Success?
    ensures var (t, send) := (DoAll(Start(now, s), acts).server.store, DoAll(Start(now, s), acts).sends[i]);
            exists id :: 0 <= id < |t.sales| && t.sales[id].key == send.key && Shows(send.seen.value.value.data.value, t.sales[id])
                         && SaleBooked(t, id) && forall k :: 0 <= k < |t.sales| && t.sales[k].key == send.key ==> k == id
  {
    SessionsAreSafe(Start(now, s), acts);
    var st := DoAll(Start(now, s), acts);
    assert SendTrue(st.server, st.sends[i]);
    ConclusiveIsCertain(st.server, st.sends[i]);
    var (t, send) := (st.server.store, st.sends[i]);
    var id :| 0 <= id < |t.sales| && t.sales[id].key == send.key && Shows(send.seen.value.value.data.value, t.sales[id]);
    assert KeysUnique(t) && SaleBooked(t, id);
  }

  lemma {:induction false} ToldStays(st: System, a: Action, i: nat)
    requires Can(st, a) && i < |st.sends| && st.sends[i].seen.Some?
    ensures i < |Do(st, a).sends| && Do(st, a).sends[i].seen == st.sends[i].seen && Do(st, a).sends[i].key == st.sends[i].key
  {
  }

  /** What is certain about a send stays certain, whatever the till, the network and the rest of the store do later. */
  lemma {:induction false} CertainForever(st: System, acts: seq<Action>, i: nat)
    requires Safe(st) && CanAll(st, acts) && i < |st.sends| && Certain(st.server, st.sends[i])
    ensures i < |DoAll(st, acts).sends| && DoAll(st, acts).sends[i].key == st.sends[i].key && Certain(DoAll(st, acts).server, DoAll(st, acts).sends[i])
    decreases |acts|
  {
    if |acts| > 0 {
      ToldStays(st, acts[0], i);
      DoSafe(st, acts[0]);
      var t := Do(st, acts[0]);
      assert SendTrue(t.server, t.sends[i]);
      ConclusiveIsCertain(t.server, t.sends[i]);
      CertainForever(t, acts[1..], i);
    }
  }

  /** At most one send is unanswered towards the controller. */
  lemma {:induction false} OneSendInFlight(now: int, s: Store, acts: seq<Action>, i: nat, j: nat)
    requires Runs.Consistent(s) && CanAll(Start(now, s), acts)
    requires Awaited(DoAll(Start(now, s), acts), i) && Awaited(DoAll(Start(now, s), acts), j)
    ensures i == j && DoAll(Start(now, s), acts).ctl.step == Submitting
  {
    SessionsAreSafe(Start(now, s), acts);
  }

  lemma {:induction false} UnknownStays(st: System, a: Action)
    requires Orderly(st.ctl, st.sends) && Can(st, a) && st.ctl.step == UnknownError
    ensures var t := Do(st, a);
            t.ctl.step == UnknownError && |t.sends| == |st.sends| && forall i :: 0 <= i < |st.sends| ==> t.sends[i].key == st.sends[i].key
  {
  }

  /** An unknown result is final: whatever happens next, the till stays there and sends nothing more. */
  lemma {:induction false} UnknownIsAbsorbing(st: System, acts: seq<Action>)
    requires Safe(st) && CanAll(st, acts) && st.ctl.step == UnknownError
    ensures DoAll(st, acts).ctl.step == UnknownError
    ensures |DoAll(st, acts).sends| == |st.sends| && forall i :: 0 <= i < |st.sends| ==> DoAll(st, acts).sends[i].key == st.sends[i].key
    decreases |acts|
  {
    if |acts| > 0 {
      DoSafe(st, acts[0]);
      UnknownStays(st, acts[0]);
      UnknownIsAbsorbing(Do(st, acts[0]), acts[1..]);
    }
  }

  lemma {:induction false} HandledSuccessIsReceipt(server: Idempotency.System, send: Send, outcome: Handler.Outcome)
    requires Placed(server, send) && CommandSound(send.command) && send.fate.Reached? && outcome.Success?
    requires server.calls[send.fate.call].outcome == Some(outcome) && server.calls[send.fate.call].reply == Some(Idempotency.Handled(outcome))
    ensures AnswerTo(server, send).Some? && AnswerTo(server, send).value.Success? && IsReceipt(AnswerTo(server, send).value.data)
  {
    FreshSaleIsReceipt(server.calls[send.fate.call], outcome.body);
  }

  /** When nothing interferes, a committed checkout completes: the server's own answer is always accepted. */
  lemma {:induction false} UndisturbedSalesComplete(st: System, i: nat, outcome: Handler.Outcome)
    requires Orderly(st.ctl, st.sends) && Awaited(st, i) && SendTrue(st.server, st.sends[i]) && st.sends[i].fate.Reached? && outcome.Success?
    requires var c := st.server.calls[st.sends[i].fate.call]; c.outcome == Some(outcome) && c.reply == Some(Idempotency.Handled(outcome))
    ensures Can(st, Return(i)) && Do(st, Return(i)).ctl.step == Completed
  {
    HandledSuccessIsReceipt(st.server, st.sends[i], outcome);
  }
}
