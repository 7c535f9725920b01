/** The receivables and payables service: each request's checks in order, then one ledger posting. */
module SubledgerServices {
  import opened Base
  import opened Ledger
  import opened LedgerServices
  import opened Allocation
  import opened Subledger
  import opened SubledgerRuns

  class ReceivablesPayablesService {
    const ledger: LedgerService

    constructor (ledger: LedgerService)
      ensures this.ledger == ledger
    {
      this.ledger := ledger;
    }

    method RecordSale(b: BusinessId, req: InvoiceRequest) returns (r: Result<TxId, Refusal>)
      modifies ledger
      ensures match RecordInvoice(old(ledger.Tables()), b, Receivable, req)
        case Ok(done) => r == Ok(done.1) && ledger.Tables() == done.0
        case Err(e) => r == Err(e) && ledger.Tables() == old(ledger.Tables())
    {
      r := Record(b, Receivable, req);
    }

    method RecordPurchase(b: BusinessId, req: InvoiceRequest) returns (r: Result<TxId, Refusal>)
      modifies ledger
      ensures match RecordInvoice(old(ledger.Tables()), b, Payable, req)
        case Ok(done) => r == Ok(done.1) && ledger.Tables() == done.0
        case Err(e) => r == Err(e) && ledger.Tables() == old(ledger.Tables())
    {
      r := Record(b, Payable, req);
    }

    method Record(b: BusinessId, k: Book, req: InvoiceRequest) returns (r: Result<TxId, Refusal>)
      modifies ledger
      ensures match RecordInvoice(old(ledger.Tables()), b, k, req)
        case Ok(done) => r == Ok(done.1) && ledger.Tables() == done.0
        case Err(e) => r == Err(e) && ledger.Tables() == old(ledger.Tables())
    {
      if !IsContactOf(ledger.Tables(), b, req.contact) {
        return Err(ContactNotFound);
      }
      if !MayBeInvoiced(ledger.contacts[req.contact], k) {
        return Err(WrongContactType);
      }
      var control := ControlAccount(ledger.accounts, b, k);
      if control.None? {
        return Err(NoControlAccount);
      }
      var other := OtherAccount(ledger.Tables(), b, k, req);
      if other.Err? {
        return Err(other.error);
      }
      var posted := ledger.Post(b, InvoicePosting(k, control.value, other.value, req));
      return Wrap(posted);
    }

    method ReceivePayment(b: BusinessId, req: PaymentRequest, today: int) returns (r: Result<TxId, Refusal>)
      requires req.book.Receivable?
      modifies ledger
      ensures var db := old(ledger.Tables());
        if CheckPayment(db, b, req, today).Some? then r ==
          Err(CheckPayment(db, b, req, today).value) && ledger.Tables() == db
        else match PostPayment(db, b, req)
          case Ok(done) => r == Ok(done.1) && ledger.Tables() == done.0
          case Err(e) => r == Err(e) && ledger.Tables() == db
    {
      r := Settle(b, req, today);
    }

    method PayPayment(b: BusinessId, req: PaymentRequest, today: int) returns (r: Result<TxId, Refusal>)
      requires req.book.Payable?
      modifies ledger
      ensures var db := old(ledger.Tables());
        if CheckPayment(db, b, req, today).Some? then r ==
          Err(CheckPayment(db, b, req, today).value) && ledger.Tables() == db
        else match PostPayment(db, b, req)
          case Ok(done) => r == Ok(done.1) && ledger.Tables() == done.0
          case Err(e) => r == Err(e) && ledger.Tables() == db
    {
      r := Settle(b, req, today);
    }

    method Settle(b: BusinessId, req: PaymentRequest, today: int) returns (r: Result<TxId, Refusal>)
      modifies ledger
      ensures var db := old(ledger.Tables());
        if CheckPayment(db, b, req, today).Some? then r ==
          Err(CheckPayment(db, b, req, today).value) && ledger.Tables() == db
        else match PostPayment(db, b, req)
          case Ok(done) => r == Ok(done.1) && ledger.Tables() == done.0
          case Err(e) => r == Err(e) && ledger.Tables() == db
    {
      var problem := Validate(b, req, today);
      if problem.Some? {
        return Err(problem.value);
      }
      var control := ControlAccount(ledger.accounts, b, req.book);
      var posted := ledger.Post(b, PaymentPosting(control.value, req));
      return Wrap(posted);
    }

    /** Computes the contact's allocation afresh and holds the amount against it. */
    method Validate(b: BusinessId, req: PaymentRequest, today: int) returns (problem: Option<Refusal>)
      ensures problem == CheckPayment(ledger.Tables(), b, req, today)
      ensures problem.None? ==> ControlAccount(ledger.accounts, b, req.book).Some?
    {
      if !IsContactOf(ledger.Tables(), b, req.contact) {
        return Some(ContactNotFound);
      }
      if ControlAccount(ledger.accounts, b, req.book).None? {
        return Some(NoControlAccount);
      }
      problem := CheckMoneyAccount(ledger.accounts, b, req.money);
      if problem.Some? {
        return;
      }
      var breakdown := GetDirection(ledger.Tables(), b, req.contact, req.book, today);
      var reason := ValidatePayment(breakdown, req.amount, req.target);
      problem := if reason.Some? then Some(Payment(reason.value)) else None;
    }
  }
}
