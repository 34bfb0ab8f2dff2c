/** How the checkout endpoint reports its result (backend/internal/pos/handler.go). */
module Handler {
  import opened Tables
  import opened Checkout

  datatype Body = SaleBody(id: nat, sale: Sale) | OtherBody(text: string)

  /** What the endpoint answers: a 2xx status with a body, or an error status with a code. */
  datatype Outcome = Success(status: int, body: Body) | Failure(status: int, code: string)

  function ErrorReply(e: CheckoutError): Outcome {
    match e
    case InvalidMonetaryAmount => Failure(400, "INVALID_MONETARY_AMOUNT")
    case TransactionLimitExceeded => Failure(400, "INVALID_MONETARY_AMOUNT")
    case InsufficientCashTendered => Failure(400, "INSUFFICIENT_CASH_TENDERED")
    case CashTenderedNotAllowed => Failure(400, "INVALID_CASH_TENDERED")
    case InsufficientStock => Failure(409, "INSUFFICIENT_STOCK")
    case ProductNotFound => Failure(404, "PRODUCT_NOT_FOUND")
    case KeyTaken => Failure(500, "CHECKOUT_FAILED")
    case JournalFailed => Failure(500, "CHECKOUT_FAILED")
  }

  function SaleReply(id: nat, sale: Sale): Outcome {
    Success(201, SaleBody(id, sale))
  }

  /** The replies a client can tell apart: each status and code, and the refusals behind it. A successful checkout is 201. */
  lemma RepliesToldApart(e: CheckoutError, id: nat, sale: Sale)
    ensures e == InsufficientStock <==> ErrorReply(e) == Failure(409, "INSUFFICIENT_STOCK")
    ensures e == ProductNotFound <==> ErrorReply(e) == Failure(404, "PRODUCT_NOT_FOUND")
    ensures e == InsufficientCashTendered <==> ErrorReply(e) == Failure(400, "INSUFFICIENT_CASH_TENDERED")
    ensures e == CashTenderedNotAllowed <==> ErrorReply(e) == Failure(400, "INVALID_CASH_TENDERED")
    ensures e in {InvalidMonetaryAmount, TransactionLimitExceeded} <==> ErrorReply(e) == Failure(400, "INVALID_MONETARY_AMOUNT")
    ensures e in {KeyTaken, JournalFailed} <==> ErrorReply(e) == Failure(500, "CHECKOUT_FAILED")
    ensures SaleReply(id, sale) == Success(201, SaleBody(id, sale))
  {
  }
}
