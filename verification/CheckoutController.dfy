/** The cashier's checkout controller (frontend/src/features/pos/checkout-controller.ts): one class whose methods replace
    its state, and the receipt and rejection tests it relies on. `submitCheckout` is split at its await. */
module CheckoutController {
  import opened Wrappers
  import opened Int64
  import opened Tables
  import Checkout

  const MAX_SAFE: int := 0x1F_FFFF_FFFF_FFFF

  predicate IsSafeInteger(x: int) {
    -MAX_SAFE <= x <= MAX_SAFE
  }

  // ---------- what comes back ----------

  datatype ReceiptItem = ReceiptItem(sku: string, quantity: int, unitPrice: int, subtotal: int)

  datatype CheckoutResponse = CheckoutResponse(status: SaleStatus, transactionId: string, transactionNumber: string, dated: bool, subtotal: int, tax: int,
                             discount: int, total: int, tendered: int, change: int, items: seq<ReceiptItem>)

  /** A parsed answer; a thrown send is modelled by its absence. */
  datatype Response = Success(data: Option<CheckoutResponse>) | Failure(status: int, code: string)

  predicate IsDefiniteRejection(r: Response) {
    r.Failure? &&
    ((r.status == 400 && r.code in {"VALIDATION_ERROR", "INSUFFICIENT_CASH_TENDERED", "INVALID_CASH_TENDERED", "MISSING_IDEMPOTENCY_KEY"})
     || (r.status == 409 && r.code == "INSUFFICIENT_STOCK")
     || (r.status == 404 && r.code == "PRODUCT_NOT_FOUND"))
  }

  predicate Amount(x: int) {
    IsSafeInteger(x) && x >= 0
  }

  predicate IsReceipt(r: Option<CheckoutResponse>) {
    r.Some? && var x := r.value;
    && x.status == COMPLETED && x.transactionId != "" && x.transactionNumber != "" && x.dated
    && Amount(x.subtotal) && Amount(x.tax) && Amount(x.discount) && Amount(x.total) && Amount(x.tendered) && Amount(x.change)
    && x.tendered - x.total == x.change
    && |x.items| > 0 && forall item <- x.items :: IsSafeInteger(item.quantity) && item.quantity > 0 && Amount(item.unitPrice) && Amount(item.subtotal)
  }

  // ---------- the controller ----------

  datatype Step = Idle | Review | Submitting | Completed | Rejected | UnknownError

  datatype Message = CheckCart | CheckAmount | NoIdentity | WasRejected | ResultUnknown(auth: bool)

  datatype State = State(step: Step, cashTendered: int, key: string, receipt: Option<CheckoutResponse>, error: Option<Message>,
                         command: Option<Checkout.Request>)

  datatype Limits = Limits(maxTotal: int, maxTender: int, maxQuantity: int)

  datatype CartLine = CartLine(sku: string, quantity: int)

  predicate CartFits(items: seq<CartLine>, limits: Limits) {
    |items| > 0 && forall item <- items :: item.sku != "" && IsSafeInteger(item.quantity) && 1 <= item.quantity <= limits.maxQuantity
  }

  predicate CashFits(cash: int, total: int, limits: Limits) {
    IsSafeInteger(total) && 0 <= total <= limits.maxTotal && IsSafeInteger(cash) && total <= cash <= limits.maxTender
  }

  /** What a review may send: a cart and cash within the limits, under a key that could be made. */
  predicate MaySend(s: State, items: seq<CartLine>, total: int, key: Option<string>, limits: Limits) {
    s.step == Review && CartFits(items, limits) && CashFits(s.cashTendered, total, limits) && key.Some? && key.value != ""
  }

  /** A whole number a browser holds exactly, within bounds. */
  predicate SafeWithin(x: int, low: int, high: int) {
    -9_007_199_254_740_991 <= x <= 9_007_199_254_740_991 && low <= x <= high
  }

  ghost predicate CommandFor(items: seq<CartLine>, cash: int, command: Checkout.Request) {
    && command.payment == CASH && command.discount == 0 && command.tendered == Some(cash)
    && |command.items| == |items|
    && forall i :: 0 <= i < |items| ==> command.items[i].sku == items[i].sku && command.items[i].quantity == items[i].quantity
  }

  /** Why a review does not send, in the order of the checks. */
  function RefusalToSend(s: State, items: seq<CartLine>, total: int, limits: Limits): Message {
    if !CartFits(items, limits) then CheckCart
    else if !CashFits(s.cashTendered, total, limits) then CheckAmount
    else NoIdentity
  }

  /** Where an answer takes a waiting controller. */
  function Settled(s: State, result: Option<Response>): State {
    if result.Some? && result.value.Success? && IsReceipt(result.value.data) then s.(step := Completed, receipt := result.value.data)
    else if result.Some? && IsDefiniteRejection(result.value) then s.(step := Rejected, error := Some(WasRejected))
    else s.(step := UnknownError,
            error := Some(ResultUnknown(result.Some? && result.value.Failure? && (result.value.status == 401 || result.value.status == 403))))
  }

  datatype Click = StartingReview(total: int) | EnteringCash(amount: int) | ClosingReview | FinishingSale

  predicate Accepts(s: State, click: Click, limits: Limits) {
    match click
    case StartingReview(total) => s.step == Idle && IsSafeInteger(total) && 0 <= total <= limits.maxTotal
    case EnteringCash(_) => s.step == Review
    case ClosingReview => s.step == Review || s.step == Rejected
    case FinishingSale => s.step == Completed
  }

  /** Where a click takes the controller; a click it does not accept changes nothing. */
  function Clicked(s: State, click: Click, limits: Limits): State {
    if !Accepts(s, click, limits) then s
    else match click
         case StartingReview(total) => State(Review, total, "", None, None, None)
         case EnteringCash(amount) => s.(cashTendered := amount, error := None)
         case ClosingReview => s.(step := Idle, error := None)
         case FinishingSale => s.(step := Idle, cashTendered := 0, key := "", error := None)
  }

  function Sending(s: State, command: Checkout.Request, key: string): State {
    s.(step := Submitting, key := key, command := Some(command), error := None)
  }

  class Controller {
    var state: State
    const limits: Limits

    constructor (limits: Limits)
      ensures state == State(Idle, 0, "", None, None, None) && this.limits == limits
    {
      this.limits := limits;
      state := State(Idle, 0, "", None, None, None);
    }

    method StartReview(total: int) returns (ok: bool)
      modifies this
      ensures ok <==> Accepts(old(state), StartingReview(total), limits)
      ensures state == Clicked(old(state), StartingReview(total), limits)
      ensures ok <==> old(state.step) == Idle && 0 <= total <= limits.maxTotal && total <= 9_007_199_254_740_991
      ensures state == if ok then State(Review, total, "", None, None, None) else old(state)
    {
      if state.step != Idle { return false; }
      if !IsSafeInteger(total) || total < 0 || total > limits.maxTotal { return false; }
      state := state.(step := Review, cashTendered := total, key := "", receipt := None, error := None, command := None);
      return true;
    }

    method SetCashTendered(amount: int)
      modifies this
      ensures state == Clicked(old(state), EnteringCash(amount), limits)
      ensures state == if old(state.step) == Review then old(state).(cashTendered := amount, error := None) else old(state)
    {
      if state.step != Review { return; }
      state := state.(cashTendered := amount, error := None);
    }

    method CloseReview() returns (ok: bool)
      modifies this
      ensures ok <==> Accepts(old(state), ClosingReview, limits)
      ensures state == Clicked(old(state), ClosingReview, limits)
      ensures ok <==> old(state.step) in {Review, Rejected}
      ensures state == if ok then old(state).(step := Idle, error := None) else old(state)
    {
      if state.step != Review && state.step != Rejected { return false; }
      state := state.(step := Idle, error := None);
      return true;
    }

    /** Leaves a completed sale; the caller clears the paid cart exactly when this succeeds. */
    method FinishCompleted() returns (clearCart: bool)
      modifies this
      ensures clearCart <==> Accepts(old(state), FinishingSale, limits)
      ensures state == Clicked(old(state), FinishingSale, limits)
      ensures clearCart <==> old(state.step) == Completed
      ensures state == if clearCart then old(state).(step := Idle, cashTendered := 0, key := "", error := None) else old(state)
    {
      if state.step != Completed { return false; }
      state := state.(step := Idle, cashTendered := 0, key := "", error := None);
      return true;
    }

    /** Up to the await: what is sent, if anything. A second call before the answer sends nothing. */
    method SubmitCheckout(items: seq<CartLine>, total: int, newKey: Option<string>) returns (sent: Option<(Checkout.Request, string)>)
      requires limits.maxQuantity <= MAX64
      modifies this
      ensures sent.Some? <==> MaySend(old(state), items, total, newKey, limits)
      ensures sent.Some? ==>
                && CommandFor(items, old(state.cashTendered), sent.value.0) && Some(sent.value.1) == newKey
                && state == Sending(old(state), sent.value.0, sent.value.1)
      ensures sent.None? ==>
                state == if old(state.step) == Review then old(state).(error := Some(RefusalToSend(old(state), items, total, limits))) else old(state)
      ensures sent.Some? <==>
                && old(state.step) == Review
                && items != [] && (forall item <- items :: item.sku != "" && SafeWithin(item.quantity, 1, limits.maxQuantity))
                && SafeWithin(total, 0, limits.maxTotal) && SafeWithin(old(state.cashTendered), total, limits.maxTender)
                && newKey != None && newKey != Some("")
      ensures sent.Some? ==>
                && newKey == Some(sent.value.1)
                && state == old(state).(step := Submitting, key := sent.value.1, command := Some(sent.value.0), error := None)
                && (sent.value.0.payment, sent.value.0.discount, sent.value.0.tendered) == (CASH, 0, Some(old(state.cashTendered)))
      ensures sent.None? && old(state.step) == Review ==>
                state == old(state).(error := Some(
                           if items == [] || exists item <- items :: item.sku == "" || !SafeWithin(item.quantity, 1, limits.maxQuantity) then CheckCart
                           else if !SafeWithin(total, 0, limits.maxTotal) || !SafeWithin(old(state.cashTendered), total, limits.maxTender) then CheckAmount
                           else NoIdentity))
    {
      if state.step != Review { return None; }
      if |items| == 0 || exists item <- items :: item.sku == "" || !IsSafeInteger(item.quantity) || item.quantity < 1 || item.quantity > limits.maxQuantity {
        state := state.(error := Some(CheckCart));
        return None;
      }
      if !IsSafeInteger(total) || total < 0 || total > limits.maxTotal ||
         !IsSafeInteger(state.cashTendered) || state.cashTendered < total || state.cashTendered > limits.maxTender {
        state := state.(error := Some(CheckAmount));
        return None;
      }
      if newKey.None? || newKey.value == "" {
        state := state.(error := Some(NoIdentity));
        return None;
      }
      var body := CopyItems(items);
      var command := Checkout.Request(body, CASH, 0, Some(state.cashTendered));
      state := state.(step := Submitting, key := newKey.value, command := Some(command), error := None);
      return Some((command, newKey.value));
    }

    method CopyItems(items: seq<CartLine>) returns (body: seq<Checkout.CartItem>)
      requires forall item <- items :: 1 <= item.quantity <= MAX64
      ensures |body| == |items| && forall i :: 0 <= i < |items| ==> body[i].sku == items[i].sku && body[i].quantity == items[i].quantity
    {
      body := [];
      for i := 0 to |items|
        invariant |body| == i && forall k :: 0 <= k < i ==> body[k].sku == items[k].sku && body[k].quantity == items[k].quantity
      {
        assert items[i] in items;
        body := body + [Checkout.CartItem(items[i].sku, items[i].quantity)];
      }
    }

    /** After the await: only a valid receipt completes, only a documented rejection allows a new review. */
    method Settle(result: Option<Response>)
      requires state.step == Submitting
      modifies this
      ensures state == Settled(old(state), result)
      ensures state.step == Completed <==> result.Some? && result.value.Success? && IsReceipt(result.value.data)
      ensures state.step == Rejected <==> result.Some? && IsDefiniteRejection(result.value)
      ensures state.step == Completed ==> state == old(state).(step := Completed, receipt := result.value.data)
      ensures state.step == Rejected ==> state == old(state).(step := Rejected, error := Some(WasRejected))
      ensures state.step !in {Completed, Rejected} ==>
                state == old(state).(step := UnknownError,
                                     error := Some(ResultUnknown(result.Some? && result.value.Failure? && result.value.status in {401, 403})))
    {
      if result.Some? {
        if result.value.Success? && IsReceipt(result.value.data) {
          state := state.(step := Completed, receipt := result.value.data);
        } else if result.value.Failure? && IsDefiniteRejection(result.value) {
          state := state.(step := Rejected, error := Some(WasRejected));
        } else {
          var auth := result.value.Failure? && (result.value.status == 401 || result.value.status == 403);
          state := state.(step := UnknownError, error := Some(ResultUnknown(auth)));
        }
      } else {
        state := state.(step := UnknownError, error := Some(ResultUnknown(false)));
      }
    }
  }

  // ---------- the tests in plain terms ----------

  /** The six answers that mean the sale certainly did not happen, and no other. */
  lemma DefiniteAnswers(r: Response)
    ensures IsDefiniteRejection(r) <==>
              r in {Failure(400, "VALIDATION_ERROR"), Failure(400, "INSUFFICIENT_CASH_TENDERED"), Failure(400, "INVALID_CASH_TENDERED"),
                    Failure(400, "MISSING_IDEMPOTENCY_KEY"), Failure(409, "INSUFFICIENT_STOCK"), Failure(404, "PRODUCT_NOT_FOUND")}
  {
  }

  predicate Whole(x: int) {
    0 <= x <= 9_007_199_254_740_991
  }

  /** A receipt names a completed transaction with a date, its cash adds up, it has lines, and every figure is a whole number
      from zero to 2^53 - 1; a spoilt figure anywhere is refused. */
  lemma ReceiptTests(x: CheckoutResponse)
    ensures !IsReceipt(None)
    ensures IsReceipt(Some(x)) <==>
              && x.status == COMPLETED && x.transactionId != "" && x.transactionNumber != "" && x.dated && x.items != []
              && x.total + x.change == x.tendered
              && Whole(x.subtotal) && Whole(x.tax) && Whole(x.discount) && Whole(x.total) && Whole(x.tendered) && Whole(x.change)
              && forall item <- x.items :: item.quantity != 0 && Whole(item.quantity) && Whole(item.unitPrice) && Whole(item.subtotal)
  {
  }
}
