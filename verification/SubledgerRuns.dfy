/** Recording sales, purchases and payments, and what every run of them keeps.

    A payment is checked and posted under its contact's lock, in two steps; other contacts' payments,
    sales, purchases, voids and unrelated postings may come in between.
 */
module SubledgerRuns {
  import opened Base
  import opened Ledger
  import opened LedgerRuns
  import opened Allocation
  import opened Subledger

  datatype Refusal =
    | ContactNotFound | WrongContactType | NoControlAccount | NoMoneyAccount | BadMoneyAccount | BadAccountType
    | Payment(reason: PaymentError) | Posting(error: Error)

  /** `category` is the income or expense account after the default has been filled in. */
  datatype InvoiceRequest = InvoiceRequest(
    contact: ContactId, amount: int, date: int, dueDate: Option<int>, category: Option<AccountId>,
      money: Option<AccountId>
  )

  datatype PaymentRequest = PaymentRequest(
    contact: ContactId, book: Book, amount: int, date: int, money: AccountId, target: Option<TxId>
  )

  predicate IsContactOf(db: Db, b: BusinessId, c: ContactId) {
    c < |db.contacts| && db.contacts[c].business == b
  }

  predicate MayBeInvoiced(contact: Contact, k: Book) {
    contact.kind.Both? || contact.kind == if k.Receivable? then Customer else Supplier
  }

  function CheckMoneyAccount(accounts: seq<Account>, b: BusinessId, a: AccountId): Option<Refusal> {
    if IsMoneyAccount(accounts, b, a) then None else Some(BadMoneyAccount)
  }

  function CategoryType(k: Book): AccountType {
    if k.Receivable? then Income else Expense
  }

  /** The account on the other side: for a loan the money account, otherwise income or expense. */
  function OtherAccount(db: Db, b: BusinessId, k: Book, req: InvoiceRequest): Result<AccountId, Refusal>
    requires IsContactOf(db, b, req.contact)
  {
    if db.contacts[req.contact].isLoan then
      if req.money.None? then Err(NoMoneyAccount)
      else
        var problem := CheckMoneyAccount(db.accounts, b, req.money.value);
        if problem.Some? then Err(problem.value) else Ok(req.money.value)
    else if req.category.None? || req.category.value >= |db.accounts| then Err(BadAccountType)
    else if db.accounts[req.category.value].business != b then Err(BadAccountType)
    else if db.accounts[req.category.value].accountType != CategoryType(k) then Err(BadAccountType)
    else Ok(req.category.value)
  }

  function InvoiceEntries(k: Book, control: AccountId, other: AccountId, amount: int): seq<Entry> {
    if k.Receivable? then [Entry(control, Debit, amount, None), Entry(other, Credit, amount, None)]
    else [Entry(other, Debit, amount, None), Entry(control, Credit, amount, None)]
  }

  function InvoicePosting(k: Book, control: AccountId, other: AccountId, req: InvoiceRequest): PostRequest {
    PostRequest(InvoiceType(k), req.date, Some(req.contact), req.dueDate, None, None,
      InvoiceEntries(k, control, other, req.amount), false)
  }

  function PaymentEntries(k: Book, control: AccountId, money: AccountId, amount: int): seq<Entry> {
    if k.Receivable? then [Entry(money, Debit, amount, None), Entry(control, Credit, amount, None)]
    else [Entry(control, Debit, amount, None), Entry(money, Credit, amount, None)]
  }

  function PaymentPosting(control: AccountId, req: PaymentRequest): PostRequest {
    PostRequest(PaymentTx, req.date, Some(req.contact), None, req.target, None,
      PaymentEntries(req.book, control, req.money, req.amount), false)
  }

  function Wrap<T>(r: Result<T, Error>): Result<T, Refusal> {
    match r case Ok(x) => Ok(x) case Err(e) => Err(Posting(e))
  }

  /** A credit sale or loan given (Receivable), a credit purchase or loan taken (Payable). */
  function RecordInvoice(db: Db, b: BusinessId, k: Book, req: InvoiceRequest): Result<(Db, TxId), Refusal> {
    if !IsContactOf(db, b, req.contact) then Err(ContactNotFound)
    else if !MayBeInvoiced(db.contacts[req.contact], k) then Err(WrongContactType)
    else
      var control := ControlAccount(db.accounts, b, k);
      if control.None? then Err(NoControlAccount)
      else
        var other := OtherAccount(db, b, k, req);
        if other.Err? then Err(other.error)
          else Wrap(PostStep(db, b, InvoicePosting(k, control.value, other.value, req)))
  }

  /** Everything checked before a payment is posted. */
  function CheckPayment(db: Db, b: BusinessId, req: PaymentRequest, today: int): Option<Refusal> {
    if !IsContactOf(db, b, req.contact) then Some(ContactNotFound)
    else if ControlAccount(db.accounts, b, req.book).None? then Some(NoControlAccount)
    else if CheckMoneyAccount(db.accounts, b, req.money).Some? then CheckMoneyAccount(db.accounts, b, req.money)
    else
      var problem := ValidatePayment(DirectionOf(db, b, req.contact, req.book, today), req.amount, req.target);
      if problem.Some? then Some(Payment(problem.value)) else None
  }

  function PostPayment(db: Db, b: BusinessId, req: PaymentRequest): Result<(Db, TxId), Refusal> {
    var control := ControlAccount(db.accounts, b, req.book);
    if control.None? then Err(NoControlAccount) else Wrap(PostStep(db, b, PaymentPosting(control.value, req)))
  }

  // ----- runs

  /** `checked` holds the payments between their check and their posting: one per locked contact. */
  datatype State = State(db: Db, checked: map<ContactId, PaymentRequest>)

  datatype Step =
    | Invoice(k: Book, invoice: InvoiceRequest)
    | Check(payment: PaymentRequest, today: int)
    | PostChecked(c: ContactId)
    | Abandon(c: ContactId)
    | VoidAny(business: BusinessId, id: TxId, today: int)
    | OtherPosting(business: BusinessId, req: PostRequest)

  /** Any posting, of any workspace, that stays off this workspace's two control accounts. */
  predicate OffControl(db: Db, b: BusinessId, entries: seq<Entry>) {
    forall a | a in Touched(entries) ::
      ControlAccount(db.accounts, b, Receivable) != Some(a) && ControlAccount(db.accounts, b, Payable) != Some(a)
  }

  function Moved<T>(s: State, r: Result<(Db, TxId), T>): State {
    if r.Ok? then s.(db := r.value.0) else s
  }

  function Advance(s: State, b: BusinessId, step: Step): State {
    match step
    case Invoice(k, req) => Moved(s, RecordInvoice(s.db, b, k, req))
    case Check(req, today) =>
      // amounts are validated to be positive before the service is called
      if req.contact in s.checked || req.amount <= 0 || CheckPayment(s.db, b, req, today).Some? then s
      else s.(checked := s.checked[req.contact := req])
    case PostChecked(c) =>
      if c in s.checked then Moved(s, PostPayment(s.db, b, s.checked[c])).(checked := s.checked - {c}) else s
    case Abandon(c) => s.(checked := s.checked - {c})
    case VoidAny(business, id, today) => Moved(s, VoidStep(s.db, business, id, today))
    case OtherPosting(business, req) => if OffControl(s.db, b, req.entries) then Moved(s, PostStep(s.db, business, req))
      else s
  }

  function RunSteps(s: State, b: BusinessId, steps: seq<Step>): State {
    if steps == [] then s else Advance(RunSteps(s, b, steps[..|steps| - 1]), b, steps[|steps| - 1])
  }

  // ----- the shape of what lands on the control accounts

  /** On each control account a posting moves exactly what its type says: invoices add to it and payments
      take from it, by the amount the queries read; anything on one names a contact. */
  ghost predicate Shaped(t: Tx, b: BusinessId, ar: AccountId, ap: AccountId) {
    var onAr, onAp := AmountOnAccount(t.entries, ar), AmountOnAccount(t.entries, ap);
    && Net(t.entries, ar) == (if t.txType.SaleTx? then onAr else if t.txType.PaymentTx? then -onAr else 0)
    && Net(t.entries, ap) == (if t.txType.PurchaseTx? then -onAp else if t.txType.PaymentTx? then onAp else 0)
    && (ar in Touched(t.entries) || ap in Touched(t.entries) ==> t.business == b && t.contact.Some?)
  }

  ghost predicate BooksInv(db: Db, b: BusinessId, ar: AccountId, ap: AccountId) {
    && LedgerInv(db)
    && ControlAccount(db.accounts, b, Receivable) == Some(ar)
    && ControlAccount(db.accounts, b, Payable) == Some(ap)
    && forall i :: 0 <= i < |db.txs| && db.txs[i].reversalOf.None? ==> Shaped(db.txs[i], b, ar, ap)
  }

  lemma TwoEntries(x: Entry, y: Entry, a: AccountId)
    ensures Net([x, y], a) == EntryNet(a)(x) + EntryNet(a)(y)
    ensures AmountOnAccount([x, y], a) == if x.account == a then x.amount else if y.account == a then y.amount else 0
    ensures Touched([x, y]) == {x.account, y.account}
  {
    var es := [x, y];
    assert es == [x] + [y] && [x] == [] + [x];
    SumSnoc([x], y, EntryNet(a));
    SumSnoc([], x, EntryNet(a));
    assert es[1..] == [y] && [y][1..] == [];
    assert AmountOnAccount([y], a) == if y.account == a then y.amount else 0;
    assert es[0] in es && es[1] in es;
  }

  lemma OtherIsOffControl(db: Db, b: BusinessId, k: Book, req: InvoiceRequest, j: Book)
    requires IsContactOf(db, b, req.contact) && OtherAccount(db, b, k, req).Ok?
    ensures ControlAccount(db.accounts, b, j) != Some(OtherAccount(db, b, k, req).value)
  {
  }

  lemma MoneyIsOffControl(db: Db, b: BusinessId, a: AccountId, j: Book)
    requires CheckMoneyAccount(db.accounts, b, a).None?
    ensures ControlAccount(db.accounts, b, j) != Some(a)
  {
  }

  lemma InvoiceIsShaped(b: BusinessId, k: Book, req: InvoiceRequest, ar: AccountId, ap: AccountId, other: AccountId)
    requires ar != ap && other != ar && other != ap
    ensures Shaped(Posted(b, InvoicePosting(k, if k.Receivable? then ar else ap, other, req)), b, ar, ap)
  {
    var es := InvoiceEntries(k, if k.Receivable? then ar else ap, other, req.amount);
    TwoEntries(es[0], es[1], ar);
    TwoEntries(es[0], es[1], ap);
    assert es == [es[0], es[1]];
  }

  lemma PaymentIsShaped(b: BusinessId, req: PaymentRequest, ar: AccountId, ap: AccountId)
    requires ar != ap && req.money != ar && req.money != ap
    ensures Shaped(Posted(b, PaymentPosting(if req.book.Receivable? then ar else ap, req)), b, ar, ap)
  {
    var es := PaymentEntries(req.book, if req.book.Receivable? then ar else ap, req.money, req.amount);
    TwoEntries(es[0], es[1], ar);
    TwoEntries(es[0], es[1], ap);
    assert es == [es[0], es[1]];
  }

  lemma OffControlIsShaped(business: BusinessId, req: PostRequest, b: BusinessId, ar: AccountId, ap: AccountId)
    requires ar !in Touched(req.entries) && ap !in Touched(req.entries)
    requires forall e | e in req.entries :: e.amount > 0
    ensures Shaped(Posted(business, req), b, ar, ap)
  {
    NetZeroOffPosting(req.entries, ar);
    NetZeroOffPosting(req.entries, ap);
    AmountNonNegative(req.entries, ar);
    AmountNonNegative(req.entries, ap);
  }

  lemma {:induction false} ControlAccountSame(accounts: seq<Account>, accounts': seq<Account>, b: BusinessId, k: Book)
    requires |accounts'| == |accounts|
    requires forall a :: 0 <= a < |accounts| ==> accounts'[a].(current := accounts[a].current) == accounts[a]
    ensures ControlAccount(accounts', b, k) == ControlAccount(accounts, b, k)
  {
    if accounts != [] {
      var n := |accounts| - 1;
      ControlAccountSame(accounts[..n], accounts'[..n], b, k);
      assert accounts'[n].(current := accounts[n].current) == accounts[n];
    }
  }

  lemma AccountsApart(db: Db, b: BusinessId, ar: AccountId, ap: AccountId)
    requires ControlAccount(db.accounts, b, Receivable) == Some(ar)
      && ControlAccount(db.accounts, b, Payable) == Some(ap)
    ensures ar != ap && ar < |db.accounts| && ap < |db.accounts|
  {
  }

  /** Rows already posted stay in shape: nothing but their status ever changes. */
  lemma OldRowsStayShaped(db: Db, db': Db, b: BusinessId, ar: AccountId, ap: AccountId, i: nat)
    requires Extends(db, db') && i < |db.txs| && Shaped(db.txs[i], b, ar, ap)
    ensures Shaped(db'.txs[i], b, ar, ap)
  {
    assert db'.txs[i].(voided := db.txs[i].voided) == db.txs[i];
  }

  lemma ControlsSame(db: Db, db': Db, b: BusinessId)
    requires Extends(db, db')
    ensures ControlAccount(db'.accounts, b, Receivable) == ControlAccount(db.accounts, b, Receivable)
    ensures ControlAccount(db'.accounts, b, Payable) == ControlAccount(db.accounts, b, Payable)
  {
    ControlAccountSame(db.accounts, db'.accounts, b, Receivable);
    ControlAccountSame(db.accounts, db'.accounts, b, Payable);
  }

  /** Any ledger step keeps the books in shape if what it appends is in shape or a reversal. */
  lemma StepKeepsBooks(db: Db, b: BusinessId, ar: AccountId, ap: AccountId, c: Command)
    requires BooksInv(db, b, ar, ap)
    requires AppendsShaped(db, b, ar, ap, c)
    ensures BooksInv(LedgerRuns.Next(db, c), b, ar, ap)
  {
    var db' := LedgerRuns.Next(db, c);
    NextKeepsInv(db, c);
    NextExtends(db, c);
    ControlsSame(db, db', b);
    forall i | 0 <= i < |db'.txs| && db'.txs[i].reversalOf.None?
      ensures Shaped(db'.txs[i], b, ar, ap)
    {
      RowIsShaped(db, b, ar, ap, c, i);
    }
  }

  lemma RowIsShaped(db: Db, b: BusinessId, ar: AccountId, ap: AccountId, c: Command, i: nat)
    requires AppendsShaped(db, b, ar, ap, c) && Extends(db, LedgerRuns.Next(db, c))
    requires forall j :: 0 <= j < |db.txs| && db.txs[j].reversalOf.None? ==> Shaped(db.txs[j], b, ar, ap)
    requires i < |LedgerRuns.Next(db, c).txs| && LedgerRuns.Next(db, c).txs[i].reversalOf.None?
    ensures Shaped(LedgerRuns.Next(db, c).txs[i], b, ar, ap)
  {
    var db' := LedgerRuns.Next(db, c);
    if i < |db.txs| {
      assert db'.txs[i].(voided := db.txs[i].voided) == db.txs[i];
      OldRowsStayShaped(db, db', b, ar, ap, i);
    } else {
      AppendedRow(db, c);
    }
  }

  ghost predicate AppendsShaped(db: Db, b: BusinessId, ar: AccountId, ap: AccountId, c: Command) {
    c.Post? && CheckPost(db, c.b, c.req).None? ==> Shaped(Posted(c.b, c.req), b, ar, ap)
  }

  /** What a step appends, if anything. */
  lemma AppendedRow(db: Db, c: Command)
    ensures var db' := LedgerRuns.Next(db, c);
      |db'.txs| > |db.txs| ==>
        && |db'.txs| == |db.txs| + 1
        && (c.Post? ==> CheckPost(db, c.b, c.req).None? && db'.txs[|db.txs|] == Posted(c.b, c.req))
        && (c.Void? ==> c.id < |db.txs| && db'.txs[|db.txs|] == Reversal(db.txs[c.id], c.id, c.today))
  {
  }

  /** The ledger request behind a step, when the step is not refused. */
  ghost function Request(s: State, b: BusinessId, step: Step): Option<Command> {
    match step
    case Invoice(k, req) =>
      if RecordInvoice(s.db, b, k, req).Err? then None
      else Some(Post(b,
        InvoicePosting(k, ControlAccount(s.db.accounts, b, k).value, OtherAccount(s.db, b, k, req).value, req)))
    case PostChecked(c) =>
      if c !in s.checked || ControlAccount(s.db.accounts, b, s.checked[c].book).None? then None
      else Some(Post(b, PaymentPosting(ControlAccount(s.db.accounts, b, s.checked[c].book).value, s.checked[c])))
    case VoidAny(business, id, today) => Some(Void(business, id, today))
    case OtherPosting(business, req) => if OffControl(s.db, b, req.entries) then Some(Post(business, req)) else None
    case Check(_, _) => None
    case Abandon(_) => None
  }

  lemma StepIsRequest(s: State, b: BusinessId, step: Step)
    ensures Advance(s, b, step).db == if Request(s, b, step).Some? then LedgerRuns.Next(s.db, Request(s, b, step).value)
      else s.db
  {
  }

  /** Checked payments stay postable: their contact, money account and target are still what they were. */
  ghost predicate CheckedFit(s: State, b: BusinessId) {
    forall c | c in s.checked ::
      var req := s.checked[c];
      && req.contact == c && IsContactOf(s.db, b, c)
      && req.amount > 0 && CheckMoneyAccount(s.db.accounts, b, req.money).None?
      && TargetKnown(s.db, b, req)
  }

  ghost predicate TargetKnown(db: Db, b: BusinessId, req: PaymentRequest) {
    req.target.Some? ==>
      req.target.value < |db.txs| && db.txs[req.target.value].business == b
        && db.txs[req.target.value].contact == Some(req.contact)
  }

  lemma RecordedInvoiceIsShaped(db: Db, b: BusinessId, k: Book, req: InvoiceRequest, ar: AccountId, ap: AccountId)
    requires ControlAccount(db.accounts, b, Receivable) == Some(ar)
      && ControlAccount(db.accounts, b, Payable) == Some(ap)
    requires RecordInvoice(db, b, k, req).Ok?
    ensures AppendsShaped(db, b, ar, ap,
      Post(b, InvoicePosting(k, ControlAccount(db.accounts, b, k).value, OtherAccount(db, b, k, req).value, req)))
  {
    AccountsApart(db, b, ar, ap);
    OtherIsOffControl(db, b, k, req, Receivable);
    OtherIsOffControl(db, b, k, req, Payable);
    InvoiceIsShaped(b, k, req, ar, ap, OtherAccount(db, b, k, req).value);
  }

  lemma OtherPostingIsShaped(db: Db, b: BusinessId, business: BusinessId, req: PostRequest, ar: AccountId,
      ap: AccountId)
    requires ControlAccount(db.accounts, b, Receivable) == Some(ar)
      && ControlAccount(db.accounts, b, Payable) == Some(ap)
    requires OffControl(db, b, req.entries)
    ensures AppendsShaped(db, b, ar, ap, Post(business, req))
  {
    if CheckPost(db, business, req).None? {
      OffControlIsShaped(business, req, b, ar, ap);
    }
  }

  lemma CheckedPaymentIsShaped(db: Db, b: BusinessId, req: PaymentRequest, ar: AccountId, ap: AccountId)
    requires ControlAccount(db.accounts, b, Receivable) == Some(ar)
      && ControlAccount(db.accounts, b, Payable) == Some(ap)
    requires CheckMoneyAccount(db.accounts, b, req.money).None? && req.amount > 0
    ensures AppendsShaped(db, b, ar, ap, Post(b, PaymentPosting(ControlAccount(db.accounts, b, req.book).value, req)))
  {
    AccountsApart(db, b, ar, ap);
    MoneyIsOffControl(db, b, req.money, Receivable);
    MoneyIsOffControl(db, b, req.money, Payable);
    PaymentIsShaped(b, req, ar, ap);
  }

  lemma RequestIsShaped(s: State, b: BusinessId, ar: AccountId, ap: AccountId, step: Step)
    requires BooksInv(s.db, b, ar, ap) && CheckedFit(s, b)
    ensures Request(s, b, step).Some? ==> AppendsShaped(s.db, b, ar, ap, Request(s, b, step).value)
  {
    AccountsApart(s.db, b, ar, ap);
    if Request(s, b, step).Some? {
      match step
      case Invoice(k, req) =>
        RecordedInvoiceIsShaped(s.db, b, k, req, ar, ap);
      case PostChecked(c) => CheckedPaymentIsShaped(s.db, b, s.checked[c], ar, ap);
      case OtherPosting(business, req) => OtherPostingIsShaped(s.db, b, business, req, ar, ap);
      case VoidAny(_, _, _) =>
      case Check(_, _) =>
      case Abandon(_) =>
    }
  }

  lemma StepKeepsShape(s: State, b: BusinessId, ar: AccountId, ap: AccountId, step: Step)
    requires BooksInv(s.db, b, ar, ap) && CheckedFit(s, b)
    ensures BooksInv(Advance(s, b, step).db, b, ar, ap) && CheckedFit(Advance(s, b, step), b)
    ensures Extends(s.db, Advance(s, b, step).db)
  {
    AdvanceKeepsBooks(s, b, ar, ap, step);
    if step.Check? && Advance(s, b, step) != s {
      CheckedTargetExists(s.db, b, step.payment, step.today);
    }
    CheckedStayFit(s, s.(db := Advance(s, b, step).db), b);
  }

  lemma AdvanceKeepsBooks(s: State, b: BusinessId, ar: AccountId, ap: AccountId, step: Step)
    requires BooksInv(s.db, b, ar, ap) && CheckedFit(s, b)
    ensures BooksInv(Advance(s, b, step).db, b, ar, ap) && Extends(s.db, Advance(s, b, step).db)
  {
    StepIsRequest(s, b, step);
    RequestIsShaped(s, b, ar, ap, step);
    var r := Request(s, b, step);
    if r.Some? {
      StepKeepsBooks(s.db, b, ar, ap, r.value);
      NextExtends(s.db, r.value);
    }
  }

  lemma CheckedStayFit(s: State, s': State, b: BusinessId)
    requires CheckedFit(s, b) && Extends(s.db, s'.db) && s'.checked == s.checked
    ensures CheckedFit(s', b)
  {
    forall c | c in s.checked
      ensures CheckMoneyAccount(s'.db.accounts, b, s.checked[c].money).None? && TargetKnown(s'.db, b, s.checked[c])
    {
      var req := s.checked[c];
      assert s'.db.accounts[req.money].(current := s.db.accounts[req.money].current) == s.db.accounts[req.money];
      if req.target.Some? {
        assert s'.db.txs[req.target.value].(voided := s.db.txs[req.target.value].voided) == s.db.txs[req.target.value];
      }
    }
  }

  lemma CheckedTargetExists(db: Db, b: BusinessId, req: PaymentRequest, today: int)
    requires CheckPayment(db, b, req, today).None?
    ensures TargetKnown(db, b, req)
  {
    if req.target.Some? {
      var a := ControlAccount(db.accounts, b, req.book).value;
      var rows := DirectionOf(db, b, req.contact, req.book, today).rows;
      var row := FindRow(rows, req.target.value).value;
      var n :| 0 <= n < |rows| && rows[n] == row;
      ListedIsInvoice(db.txs, b, req.contact, req.book, a, Invoices(db.txs, b, req.contact, req.book, a)[n]);
    }
  }

  // ----- accepted requests go through

  /** A payment that passed its check is posted, whatever other requests came in between. */
  lemma CheckedPaymentPosts(s: State, b: BusinessId, c: ContactId)
    requires CheckedFit(s, b) && c in s.checked && ControlAccount(s.db.accounts, b, s.checked[c].book).Some?
    ensures var req := s.checked[c];
      PostPayment(s.db, b, req) ==
        Ok((ApplyPost(s.db, b, PaymentPosting(ControlAccount(s.db.accounts, b, req.book).value, req)), |s.db.txs|))
  {
    PaymentPosts(s.db, b, s.checked[c]);
  }

  lemma PaymentPosts(db: Db, b: BusinessId, req: PaymentRequest)
    requires ControlAccount(db.accounts, b, req.book).Some?
    requires IsContactOf(db, b, req.contact) && req.amount > 0 && CheckMoneyAccount(db.accounts, b, req.money).None?
      && TargetKnown(db, b, req)
    ensures var posting := PaymentPosting(ControlAccount(db.accounts, b, req.book).value, req);
      PostPayment(db, b, req) == Ok((ApplyPost(db, b, posting), |db.txs|))
  {
    TwoSidedPosts(db, b, PaymentPosting(ControlAccount(db.accounts, b, req.book).value, req));
  }

  /** An acceptable invoice is posted as well. */
  lemma AcceptableInvoicePosts(db: Db, b: BusinessId, k: Book, req: InvoiceRequest)
    requires req.amount > 0 && IsContactOf(db, b, req.contact) && MayBeInvoiced(db.contacts[req.contact], k)
    requires ControlAccount(db.accounts, b, k).Some? && OtherAccount(db, b, k, req).Ok?
    ensures RecordInvoice(db, b, k, req) ==
      Ok((ApplyPost(db, b,
        InvoicePosting(k, ControlAccount(db.accounts, b, k).value, OtherAccount(db, b, k, req).value, req)), |db.txs|))
  {
    TwoSidedPosts(db, b,
      InvoicePosting(k, ControlAccount(db.accounts, b, k).value, OtherAccount(db, b, k, req).value, req));
  }

  // ----- what a caller sees

  lemma ControlExistsIff(accounts: seq<Account>, b: BusinessId, k: Book)
    ensures ControlAccount(accounts, b, k).Some? <==>
      exists account | account in accounts ::
        account.business == b && account.isSystem
          && account.subtype == Some(if k == Receivable then "receivable" else "payable")
          && account.accountType == if k == Receivable then Asset else Liability
  {
  }

  /** A cash, bank or mobile-money account of the workspace. */
  predicate HoldsMoney(accounts: seq<Account>, b: BusinessId, a: AccountId) {
    a < |accounts| && accounts[a].business == b && accounts[a].accountType == Asset
      && accounts[a].subtype in {Some("cash"), Some("bank"), Some("mfs")}
  }

  /** The account on the other side of an invoice: money for a loan, else a category of the right type. */
  predicate HasOtherSide(db: Db, b: BusinessId, k: Book, req: InvoiceRequest)
    requires req.contact < |db.contacts|
  {
    if db.contacts[req.contact].isLoan then req.money.Some? && HoldsMoney(db.accounts, b, req.money.value)
    else
      && req.category.Some? && req.category.value < |db.accounts| && db.accounts[req.category.value].business == b
      && db.accounts[req.category.value].accountType == if k == Receivable then Income else Expense
  }

  lemma OtherSideIff(db: Db, b: BusinessId, k: Book, req: InvoiceRequest)
    requires IsContactOf(db, b, req.contact)
    ensures OtherAccount(db, b, k, req).Ok? <==> HasOtherSide(db, b, k, req)
    ensures OtherAccount(db, b, k, req).Ok? ==>
      Some(OtherAccount(db, b, k, req).value) == if db.contacts[req.contact].isLoan then req.money else req.category
  {
  }

  /** A sale on credit is taken from a customer, a purchase from a supplier, each also from a contact that is
      both; it needs the control account, the other side and a positive amount, and nothing more. */
  lemma InvoiceAcceptedIff(db: Db, b: BusinessId, k: Book, req: InvoiceRequest)
    ensures RecordInvoice(db, b, k, req).Ok? <==>
      && req.amount > 0
      && req.contact < |db.contacts| && db.contacts[req.contact].business == b
      && (db.contacts[req.contact].kind == Both
          || db.contacts[req.contact].kind == if k == Receivable then Customer else Supplier)
      && ControlAccount(db.accounts, b, k).Some?
      && HasOtherSide(db, b, k, req)
  {
    if IsContactOf(db, b, req.contact) && MayBeInvoiced(db.contacts[req.contact], k) {
      OtherSideIff(db, b, k, req);
      if ControlAccount(db.accounts, b, k).Some? && OtherAccount(db, b, k, req).Ok? {
        if req.amount > 0 {
          AcceptableInvoicePosts(db, b, k, req);
        } else {
          EmptyInvoiceRefused(db, b, k, req);
        }
      }
    }
  }

  lemma EmptyInvoiceRefused(db: Db, b: BusinessId, k: Book, req: InvoiceRequest)
    requires req.amount <= 0 && IsContactOf(db, b, req.contact)
    requires ControlAccount(db.accounts, b, k).Some? && OtherAccount(db, b, k, req).Ok?
    ensures RecordInvoice(db, b, k, req).Err?
  {
    var es := InvoiceEntries(k, ControlAccount(db.accounts, b, k).value, OtherAccount(db, b, k, req).value, req.amount);
    assert es[0] in es && es[0].amount <= 0;
  }

  /** What an invoice leaves in the books: one posting of its type, day, due day and contact, the receivable
      debited against the other side, or the other side debited against the payable. */
  lemma InvoiceRecords(db: Db, b: BusinessId, k: Book, req: InvoiceRequest)
    requires RecordInvoice(db, b, k, req).Ok?
    ensures var (db', id) := RecordInvoice(db, b, k, req).value;
      && id == |db.txs| && |db'.txs| == id + 1 && db'.txs[..id] == db.txs && ControlAccount(db.accounts, b, k).Some?
      && var t, control := db'.txs[id], ControlAccount(db.accounts, b, k).value;
      && req.contact < |db.contacts|
      && t.business == b && t.txType == (if k == Receivable then SaleTx else PurchaseTx)
      && t.date == req.date && t.dueDate == req.dueDate && t.contact == Some(req.contact)
      && !t.voided && t.reversalOf == None && t.appliedTo == None && t.key == None && !t.owned
      && var other := if db.contacts[req.contact].isLoan then req.money else req.category;
      && other.Some?
      && t.entries == if k == Receivable
           then [Entry(control, Debit, req.amount, None), Entry(other.value, Credit, req.amount, None)]
           else [Entry(other.value, Debit, req.amount, None), Entry(control, Credit, req.amount, None)]
  {
    InvoiceAcceptedIff(db, b, k, req);
    OtherSideIff(db, b, k, req);
    AcceptableInvoicePosts(db, b, k, req);
  }

  /** Everything invoiced and owed at the start less everything paid. */
  function AllOwed(db: Db, b: BusinessId, c: ContactId, k: Book, a: AccountId): int
    requires c < |db.contacts|
  {
    SumBy(db.txs, InvoicedBy(b, c, k, a)) - SumBy(db.txs, PaidBy(b, c, a))
      + Max(0, if k == Receivable then db.contacts[c].opening else -db.contacts[c].opening)
  }

  /** A payment passes its check exactly when the contact, the control account and the money account are the
      workspace's own and it fits: under what the invoice it names still owes, or, naming none, under
      everything invoiced and owed at the start less everything paid. */
  lemma PaymentAcceptedIff(db: Db, b: BusinessId, req: PaymentRequest, today: int)
    ensures CheckPayment(db, b, req, today).None? <==>
      && req.contact < |db.contacts| && db.contacts[req.contact].business == b
      && ControlAccount(db.accounts, b, req.book).Some?
      && HoldsMoney(db.accounts, b, req.money)
      && var d, a := DirectionOf(db, b, req.contact, req.book, today), ControlAccount(db.accounts, b, req.book).value;
        if req.target.Some? then (exists row | row in d.rows ::
          row.id == req.target.value && req.amount <= row.remaining)
        else req.amount <= AllOwed(db, b, req.contact, req.book, a)
  {
    if IsContactOf(db, b, req.contact) && ControlAccount(db.accounts, b, req.book).Some? {
      var a := ControlAccount(db.accounts, b, req.book).value;
      InvoicedTotal(db.txs, b, req.contact, req.book, a);
      PaidTotal(db.txs, b, req.contact, a);
      InvoiceIdsDistinct(db.txs, b, req.contact, req.book, a);
      AcceptedIff(OpeningOwed(db.contacts[req.contact], req.book), Invoices(db.txs, b, req.contact, req.book, a),
        Payments(db.txs, b, req.contact, a), today, req.amount, req.target);
    }
  }

  /** What a checked payment leaves in the books: money in against the receivable, or money out against the
      payable, for the contact and naming the invoice the request named. */
  lemma PaymentRecords(db: Db, b: BusinessId, req: PaymentRequest)
    requires PostPayment(db, b, req).Ok?
    ensures var (db', id) := PostPayment(db, b, req).value;
      && id == |db.txs| && |db'.txs| == id + 1 && db'.txs[..id] == db.txs
        && ControlAccount(db.accounts, b, req.book).Some?
      && var t, control := db'.txs[id], ControlAccount(db.accounts, b, req.book).value;
      && t.business == b && t.txType == PaymentTx && t.date == req.date && t.contact == Some(req.contact)
      && t.appliedTo == req.target && !t.voided && t.reversalOf == None && t.dueDate == None && t.key == None
        && !t.owned
      && t.entries == if req.book == Receivable
           then [Entry(req.money, Debit, req.amount, None), Entry(control, Credit, req.amount, None)]
           else [Entry(control, Debit, req.amount, None), Entry(req.money, Credit, req.amount, None)]
  {
  }

  /** Which refusal a payment is answered with: the checks come in this order. */
  lemma PaymentRefusals(db: Db, b: BusinessId, req: PaymentRequest, today: int)
    ensures var r := CheckPayment(db, b, req, today);
      && (r == Some(ContactNotFound) <==> !(req.contact < |db.contacts| && db.contacts[req.contact].business == b))
      && (r == Some(NoControlAccount) <==> r != Some(ContactNotFound) && ControlAccount(db.accounts, b, req.book).None?)
      && (r == Some(BadMoneyAccount) <==>
        r != Some(ContactNotFound) && r != Some(NoControlAccount) && !HoldsMoney(db.accounts, b, req.money))
  {
  }

  /** Or, with those in order, whether the payment fits. */
  lemma MisfitRefusals(db: Db, b: BusinessId, req: PaymentRequest, today: int)
    requires IsContactOf(db, b, req.contact) && ControlAccount(db.accounts, b, req.book).Some?
    requires HoldsMoney(db.accounts, b, req.money)
    ensures var rows, r := DirectionOf(db, b, req.contact, req.book, today).rows, CheckPayment(db, b, req, today);
      && (r == Some(Payment(NotOutstanding)) <==>
        req.target != None && forall row | row in rows :: row.id != req.target.value)
      && (r == Some(Payment(ExceedsInvoice)) <==>
        && req.target != None && (exists row | row in rows :: row.id == req.target.value)
        && forall row | row in rows && row.id == req.target.value :: req.amount > row.remaining)
      && (r == Some(Payment(ExceedsOutstanding)) <==> req.target == None && r != None)
  {
    PaymentAcceptedIff(db, b, req, today);
  }

  /** Which refusal an invoice is answered with. */
  lemma InvoiceRefusals(db: Db, b: BusinessId, k: Book, req: InvoiceRequest)
    ensures var r := RecordInvoice(db, b, k, req);
      && (r == Err(ContactNotFound) <==> !(req.contact < |db.contacts| && db.contacts[req.contact].business == b))
      && (req.contact < |db.contacts| && db.contacts[req.contact].business == b ==>
        var contact := db.contacts[req.contact];
        && (r == Err(WrongContactType) <==>
          contact.kind != Both && contact.kind != if k == Receivable then Customer else Supplier)
        && (r != Err(WrongContactType) ==>
          && (r == Err(NoControlAccount) <==> ControlAccount(db.accounts, b, k).None?)
          && (r == Err(NoMoneyAccount) ==> contact.isLoan && req.money == None)
          && (r == Err(BadMoneyAccount) ==>
            contact.isLoan && req.money != None && !HoldsMoney(db.accounts, b, req.money.value))
          && (r == Err(BadAccountType) ==> !contact.isLoan && !HasOtherSide(db, b, k, req))))
  {
    if IsContactOf(db, b, req.contact) {
      OtherSideIff(db, b, k, req);
    }
  }
}
