/** A whole sale at the till, step by step: what each side sees, and that an undisturbed sale always completes. */
module TillTerms {
  import opened Wrappers
  import opened Tables
  import opened Events
  import opened CheckoutController
  import opened Cashier
  import Checkout
  import Handler
  import Idempotency
  import Leases
  import MoneyText

  // ---------- what the till is shown ----------

  /** The receipt shows the sale figure by figure and line by line. */
  lemma {:induction false} ReceiptShowsSale(id: nat, sale: Sale)
    ensures var r := ReceiptOf(id, sale);
            && (r.status, r.subtotal, r.tax, r.discount, r.total, r.tendered, r.change, r.dated)
               == (sale.status, sale.subtotal, 0, sale.discount, sale.total, sale.tendered, sale.change, true)
            && |r.items| == |sale.lines|
            && forall i :: 0 <= i < |sale.lines| ==>
                 r.items[i] == ReceiptItem(sale.lines[i].sku, sale.lines[i].quantity, sale.lines[i].unitPrice, sale.lines[i].subtotal)
  {
  }

  /** The till gets the server's answer, whether it comes from the handler or from the cache or row; a conflict comes as 409. */
  lemma {:induction false} AnswersReachTheTill(id: nat, sale: Sale, status: int, code: string)
    ensures forall o :: ReplyToResponse(Idempotency.Replayed(o)) == ReplyToResponse(Idempotency.Handled(o))
    ensures ReplyToResponse(Idempotency.Handled(Handler.Success(status, Handler.SaleBody(id, sale)))) == Success(Some(ReceiptOf(id, sale)))
    ensures ReplyToResponse(Idempotency.Handled(Handler.Failure(status, code))) == Failure(status, code)
    ensures ReplyToResponse(Idempotency.Rejected(code)) == Failure(409, code)
  {
  }

  // ---------- the steps of the till ----------

  /** The clicks: a review opens from idle with a total up to a billion as the cash, cash is entered while reviewing, a review or a
      rejection closes, a completed sale is finished; a click at any other time does nothing. */
  lemma {:induction false} Clicks(st: System, total: int, cash: int)
    ensures var t := Do(st, Press(StartingReview(total)));
            && t == st.(ctl := t.ctl)
            && t.ctl == if st.ctl.step == Idle && 0 <= total <= 1_000_000_000 then State(Review, total, "", None, None, None) else st.ctl
    ensures var t := Do(st, Press(EnteringCash(cash)));
            t == st.(ctl := if st.ctl.step == Review then st.ctl.(cashTendered := cash, error := None) else st.ctl)
    ensures var t := Do(st, Press(ClosingReview));
            t == st.(ctl := if st.ctl.step in {Review, Rejected} then st.ctl.(step := Idle, error := None) else st.ctl)
    ensures var t := Do(st, Press(FinishingSale));
            t == st.(ctl := if st.ctl.step == Completed then st.ctl.(step := Idle, cashTendered := 0, key := "", error := None) else st.ctl)
  {
  }

  /** A review can be sent whenever the cart has lines of 1 to 99999 units, the total is at most a billion, the cash covers it and is
      at most two billion, and the key is new. */
  lemma {:induction false} ReviewsCanBeSent(st: System, items: seq<CartLine>, total: int, key: string, command: Checkout.Request)
    requires st.ctl.step == Review && items != [] && forall item <- items :: item.sku != "" && 1 <= item.quantity <= 99_999
    requires 0 <= total <= 1_000_000_000 && total <= st.ctl.cashTendered <= 2_000_000_000
    requires key != "" && (forall send <- st.sends :: send.key != key) && (forall c <- st.server.calls :: c.slot.key != key)
    requires forall sale <- st.server.store.sales :: sale.key != key
    requires (command.payment, command.discount, command.tendered) == (CASH, 0, Some(st.ctl.cashTendered)) && |command.items| == |items|
    requires forall i :: 0 <= i < |items| ==> command.items[i].sku == items[i].sku && command.items[i].quantity == items[i].quantity
    ensures Can(st, Submit(items, total, key, command))
  {
  }

  /** Sending puts the cart on the way under its new key; it reaches the server as it was sent, as a request to the checkout route. */
  lemma {:induction false} SendingAndArriving(st: System, items: seq<CartLine>, total: int, key: string, command: Checkout.Request, hash: string, cashier: nat, at: int)
    requires Can(st, Submit(items, total, key, command))
    ensures var i, c, t := |st.sends|, |st.server.calls|, Do(st, Submit(items, total, key, command));
            && t == st.(ctl := st.ctl.(step := Submitting, key := key, command := Some(command), error := None),
                        sends := st.sends + [Send(key, command, Waiting, None)])
            && (key != "" && Checkout.Bound(command) ==>
                  && Can(t, Reach(i, hash, cashier, at))
                  && var u := Do(t, Reach(i, hash, cashier, at));
                     && u.ctl == t.ctl && u.sends == st.sends + [Send(key, command, Reached(c), None)]
                     && u.server == st.server.(calls := st.server.calls + [Idempotency.Call(Idempotency.Slot(key, Idempotency.CheckoutRoute),
                                                                          hash, cashier, command, at, Idempotency.Arrived, None, None)]))
  {
    var t := Do(st, Submit(items, total, key, command));
    if key != "" && Checkout.Bound(command) {
      var u := Do(t, Reach(|st.sends|, hash, cashier, at));
      assert u.sends == st.sends + [Send(key, command, Reached(|st.server.calls|), None)];
    }
  }

  /** What the till is told settles it: a receipt completes, a definite rejection rejects, and a lost or spoilt answer leaves the
      result unknown. */
  lemma {:induction false} BeingTold(st: System, i: nat, spoilt: Option<Response>)
    requires i < |st.sends| && st.sends[i].seen.None?
    ensures Can(st, Interfere(i, None))
    ensures (spoilt.Some? ==> !IsDefiniteRejection(spoilt.value) && !(spoilt.value.Success? && IsReceipt(spoilt.value.data))) ==>
              && Can(st, Interfere(i, spoilt)) && Do(st, Interfere(i, spoilt)).ctl.step == UnknownError
              && Do(st, Interfere(i, spoilt)).sends == st.sends[i := st.sends[i].(seen := Some(spoilt))]
    ensures AnswerTo(st.server, st.sends[i]).Some? ==>
              var r, t := AnswerTo(st.server, st.sends[i]).value, Do(st, Return(i));
              && Can(st, Return(i)) && t.server == st.server && t.sends == st.sends[i := st.sends[i].(seen := Some(Some(r)))]
              && (r.Success? && IsReceipt(r.data) ==> t.ctl.step == Completed && t.ctl.receipt == r.data)
              && (IsDefiniteRejection(r) ==> t.ctl.step == Rejected && t.ctl.receipt == st.ctl.receipt)
              && (!IsDefiniteRejection(r) && !(r.Success? && IsReceipt(r.data)) ==> t.ctl.step == UnknownError)
  {
  }

  // ---------- serving a send ----------

  function Serving(acts: seq<Idempotency.Action>): seq<Action> {
    seq(|acts|, i requires 0 <= i < |acts| => Serve(acts[i]))
  }

  /** Steps of the protocol move only the server. */
  lemma {:induction false} ServingMovesServer(st: System, acts: seq<Idempotency.Action>)
    requires Idempotency.CanAll(st.server, acts) && forall i :: 0 <= i < |acts| ==> !acts[i].Arrive?
    ensures CanAll(st, Serving(acts)) && DoAll(st, Serving(acts)) == st.(server := Idempotency.DoAll(st.server, acts))
    decreases |acts|
  {
    if |acts| > 0 {
      var t := st.(server := Idempotency.Do(st.server, acts[0]));
      ServingMovesServer(t, acts[1..]);
      assert Serving(acts)[1..] == Serving(acts[1..]) && Serving(acts)[0] == Serve(acts[0]);
      assert Can(st, Serve(acts[0])) && Do(st, Serve(acts[0])) == t;
    }
  }

  /** The steps of an undisturbed first request. */
  function Undisturbed(c: nat, sale: Sale): seq<Idempotency.Action> {
    [Idempotency.LookInCache(c, false), Idempotency.Select(c), Idempotency.Insert(c)]
    + ([Idempotency.FindSale(c), Idempotency.RunHandler(c, sale, Handler.Failure(500, ""))]
       + [Idempotency.Record(c, true), Idempotency.FillCache(c, true)])
  }

  lemma {:induction false} ServerParts(st: Idempotency.System, a: seq<Idempotency.Action>, b: seq<Idempotency.Action>)
    requires Idempotency.CanAll(st, a) && Idempotency.CanAll(Idempotency.DoAll(st, a), b)
    ensures Idempotency.CanAll(st, a + b) && Idempotency.DoAll(st, a + b) == Idempotency.DoAll(Idempotency.DoAll(st, a), b)
    decreases |a|
  {
    if |a| == 0 {
      assert a + b == b;
    } else {
      ServerParts(Idempotency.Do(st, a[0]), a[1..], b);
      assert (a + b)[1..] == a[1..] + b;
    }
  }

  /** A request that has arrived on a free slot, with a cart that sells, is answered with its sale. */
  lemma {:induction false} ServerSells(st: Idempotency.System, c: nat, sale: Sale)
    requires Idempotency.At(st, c, Idempotency.Arrived) && st.calls[c].slot !in st.rows && st.calls[c].slot.route == Idempotency.CheckoutRoute
    requires forall x <- st.store.sales :: x.key != st.calls[c].slot.key
    requires var call := st.calls[c]; Enabled(st.store, Sell(call.cashier, call.slot.key, call.cart, sale, call.at))
    ensures var (call, answer) := (st.calls[c], Handler.Success(201, Handler.SaleBody(|st.store.sales|, sale)));
            && Idempotency.CanAll(st, Undisturbed(c, sale))
            && var t := Idempotency.DoAll(st, Undisturbed(c, sale));
               && |t.calls| == |st.calls| && t.calls[c].reply == Some(Idempotency.Handled(answer)) && t.calls[c].outcome == Some(answer)
               && t.store == Apply(st.store, Sell(call.cashier, call.slot.key, call.cart, sale, call.at))
  {
    Leases.FreeSlotAdmits(st, c);
    var one := [Idempotency.LookInCache(c, false), Idempotency.Select(c), Idempotency.Insert(c)];
    var a := Idempotency.DoAll(st, one);
    Leases.AdmittedCartSells(a, c, sale);
    var two := [Idempotency.FindSale(c), Idempotency.RunHandler(c, sale, Handler.Failure(500, ""))];
    var b := Idempotency.DoAll(a, two);
    Leases.SuccessIsKept(b, c);
    var three := [Idempotency.Record(c, true), Idempotency.FillCache(c, true)];
    ServerParts(a, two, three);
    ServerParts(st, one, two + three);
  }

  // ---------- the whole sale ----------

  /** Serving a send that has just arrived. */
  lemma {:induction false} ServedAlone(st: System, call: Idempotency.Call, before: seq<Idempotency.Call>, sale: Sale)
    requires st.server.calls == before + [call] && call.stage == Idempotency.Arrived && call.slot !in st.server.rows
    requires call.slot.route == Idempotency.CheckoutRoute && forall x <- st.server.store.sales :: x.key != call.slot.key
    requires Enabled(st.server.store, Sell(call.cashier, call.slot.key, call.cart, sale, call.at))
    ensures var acts := Serving(Undisturbed(|before|, sale));
            && CanAll(st, acts) && DoAll(st, acts) == st.(server := DoAll(st, acts).server)
            && var t := DoAll(st, acts).server;
               && |t.calls| == |before| + 1
               && t.calls[|before|].reply == Some(Idempotency.Handled(Handler.Success(201, Handler.SaleBody(|st.server.store.sales|, sale))))
               && t.store == Apply(st.server.store, Sell(call.cashier, call.slot.key, call.cart, sale, call.at))
  {
    ServerSells(st.server, |before|, sale);
    ServingMovesServer(st, Undisturbed(|before|, sale));
  }

  /** The till after its send has been served without interference. */
  lemma {:induction false} SentAndServed(st: System, items: seq<CartLine>, total: int, key: string, command: Checkout.Request,
                                         hash: string, cashier: nat, at: int, sale: Sale)
    requires Can(st, Submit(items, total, key, command)) && key != "" && Checkout.Bound(command)
    requires Idempotency.Slot(key, Idempotency.CheckoutRoute) !in st.server.rows
    requires (forall x <- st.server.store.sales :: x.key != key) && Enabled(st.server.store, Sell(cashier, key, command, sale, at))
    ensures var sent := Do(st, Submit(items, total, key, command));
            && Can(sent, Reach(|st.sends|, hash, cashier, at))
            && var arrived := Do(sent, Reach(|st.sends|, hash, cashier, at));
               && CanAll(arrived, Serving(Undisturbed(|st.server.calls|, sale)))
               && var served := DoAll(arrived, Serving(Undisturbed(|st.server.calls|, sale)));
                  && served.ctl == st.ctl.(step := Submitting, key := key, command := Some(command), error := None)
                  && served.sends == st.sends + [Send(key, command, Reached(|st.server.calls|), None)]
                  && served.server.store == Apply(st.server.store, Sell(cashier, key, command, sale, at))
                  && AnswerTo(served.server, served.sends[|st.sends|]) == Some(Success(Some(ReceiptOf(|st.server.store.sales|, sale))))
  {
    SendingAndArriving(st, items, total, key, command, hash, cashier, at);
    var arrived := Do(Do(st, Submit(items, total, key, command)), Reach(|st.sends|, hash, cashier, at));
    var slot := Idempotency.Slot(key, Idempotency.CheckoutRoute);
    ServedAlone(arrived, Idempotency.Call(slot, hash, cashier, command, at, Idempotency.Arrived, None, None), st.server.calls, sale);
  }

  /** A reviewed cart that sells, sent under a new key and not interfered with, completes: the sale is committed, and the till
      shows its receipt. */
  lemma {:induction false} UndisturbedSaleCompletes(st: System, items: seq<CartLine>, total: int, key: string, command: Checkout.Request,
                                                    hash: string, cashier: nat, at: int, sale: Sale)
    requires Checkout.Linked(st.server.store) && Can(st, Submit(items, total, key, command)) && Checkout.Bound(command)
    requires Idempotency.Slot(key, Idempotency.CheckoutRoute) !in st.server.rows
    requires (forall x <- st.server.store.sales :: x.key != key) && Enabled(st.server.store, Sell(cashier, key, command, sale, at))
    ensures key != ""
    ensures var i, sent := |st.sends|, Do(st, Submit(items, total, key, command));
            && Can(sent, Reach(i, hash, cashier, at))
            && var arrived := Do(sent, Reach(i, hash, cashier, at));
               && CanAll(arrived, Serving(Undisturbed(|st.server.calls|, sale)))
               && var served := DoAll(arrived, Serving(Undisturbed(|st.server.calls|, sale)));
                  && Can(served, Return(i))
                  && var done := Do(served, Return(i));
                     && done.ctl.step == Completed && done.ctl.receipt == Some(ReceiptOf(|st.server.store.sales|, sale))
                     && done.server.store == Apply(st.server.store, Sell(cashier, key, command, sale, at))
  {
    SentAndServed(st, items, total, key, command, hash, cashier, at, sale);
    CashReceiptsAreValid(st.server.store, cashier, key, command, sale, at, |st.server.store.sales|);
    var served := DoAll(Do(Do(st, Submit(items, total, key, command)), Reach(|st.sends|, hash, cashier, at)),
                        Serving(Undisturbed(|st.server.calls|, sale)));
    BeingTold(served, |st.sends|, None);
  }
}
