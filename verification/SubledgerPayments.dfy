/** What payment acceptance keeps over whole runs: no live invoice is ever paid beyond its amount by the
    payments that name it, and what a contact has paid stays within what they were invoiced and owed.
 */
module SubledgerPayments {
  import opened Base
  import opened Ledger
  import opened LedgerRuns
  import opened Allocation
  import opened Subledger
  import opened SubledgerRuns
  import opened SubledgerAgreement

  // ----- the two bounds, counting payments that are checked but not yet posted

  function PendingOn(s: State, c: ContactId, k: Book, id: TxId): int {
    if c in s.checked && s.checked[c].book == k && s.checked[c].target == Some(id) then s.checked[c].amount else 0
  }

  function PendingIn(s: State, c: ContactId, k: Book): int {
    if c in s.checked && s.checked[c].book == k then s.checked[c].amount else 0
  }

  function TargetedAt(txs: seq<Tx>, b: BusinessId, c: ContactId, a: AccountId, id: TxId): int {
    SumBy(txs, PaidToBy(b, c, a, id))
  }

  /** One live invoice is not promised more than its amount. */
  ghost predicate TargetFits(s: State, b: BusinessId, ar: AccountId, ap: AccountId, c: ContactId, k: Book, i: TxId) {
    i < |s.db.txs| && IsInvoiceOf(s.db.txs[i], b, c, k) ==>
      TargetedAt(s.db.txs, b, c, Control(k, ar, ap), i) + PendingOn(s, c, k, i) <= AmountOnAccount(s.db.txs[i].entries,
        Control(k, ar, ap))
  }

  ghost predicate TargetsFit(s: State, b: BusinessId, ar: AccountId, ap: AccountId) {
    forall c, k, i :: TargetFits(s, b, ar, ap, c, k, i)
  }

  function InvoicedIn(txs: seq<Tx>, b: BusinessId, c: ContactId, k: Book, a: AccountId): int {
    SumBy(txs, InvoicedBy(b, c, k, a))
  }

  function PaidIn(txs: seq<Tx>, b: BusinessId, c: ContactId, a: AccountId): int {
    SumBy(txs, PaidBy(b, c, a))
  }

  ghost predicate TotalFits(s: State, b: BusinessId, ar: AccountId, ap: AccountId, c: ContactId, k: Book) {
    c < |s.db.contacts| ==>
      var a := Control(k, ar, ap);
      PaidIn(s.db.txs, b, c, a) + PendingIn(s, c, k) <= InvoicedIn(s.db.txs, b, c, k,
        a) + OpeningOwed(s.db.contacts[c], k)
  }

  ghost predicate TotalsFit(s: State, b: BusinessId, ar: AccountId, ap: AccountId) {
    forall c, k :: TotalFits(s, b, ar, ap, c, k)
  }

  ghost predicate PaymentsInv(s: State, b: BusinessId, ar: AccountId, ap: AccountId) {
    BooksInv(s.db, b, ar, ap) && CheckedFit(s, b) && TargetsFit(s, b, ar, ap)
  }

  // ----- a posting is appended

  /** A posting never names itself or a later one, so a new invoice starts with nothing paid to it. */
  lemma NothingPaidAhead(db: Db, b: BusinessId, c: ContactId, a: AccountId, id: TxId)
    requires AllSound(db) && id >= |db.txs|
    ensures TargetedAt(db.txs, b, c, a, id) == 0
  {
    SumZero(db.txs, PaidToBy(b, c, a, id));
  }

  /** What appending `t` does to one bound: the payment it makes was already promised. */
  ghost predicate Promised(s: State, s': State, t: Tx, b: BusinessId, ar: AccountId, ap: AccountId) {
    && (forall c, k, i :: PaidToBy(b, c, Control(k, ar, ap), i)(t) + PendingOn(s', c, k, i) <= PendingOn(s, c, k, i))
    && (forall c, k :: PaidBy(b, c, Control(k, ar, ap))(t) + PendingIn(s', c, k) <= PendingIn(s, c, k))
  }

  lemma AppendKeepsTargets(s: State, s': State, t: Tx, b: BusinessId, ar: AccountId, ap: AccountId)
    requires PaymentsInv(s, b, ar, ap) && BooksInv(s'.db, b, ar, ap)
    requires s'.db.txs == s.db.txs + [t] && Promised(s, s', t, b, ar, ap)
    requires forall c | c in s'.checked :: c in s.checked && s'.checked[c] == s.checked[c]
    ensures TargetsFit(s', b, ar, ap)
  {
    forall c, k, i: TxId
      ensures TargetFits(s', b, ar, ap, c, k, i)
    {
      var a := Control(k, ar, ap);
      SumSnoc(s.db.txs, t, PaidToBy(b, c, a, i));
      if i < |s.db.txs| {
        assert TargetFits(s, b, ar, ap, c, k, i);
      } else if i == |s.db.txs| {
        NothingPaidAhead(s.db, b, c, a, i);
        assert Sound(s'.db, s'.db.txs[i]);
        AmountNonNegative(t.entries, a);
        assert s'.db.txs[i].appliedTo != Some(i);
      }
    }
  }

  lemma AppendKeepsTotals(s: State, s': State, t: Tx, b: BusinessId, ar: AccountId, ap: AccountId)
    requires TotalsFit(s, b, ar, ap) && BooksInv(s'.db, b, ar, ap)
    requires s'.db.txs == s.db.txs + [t] && s'.db.contacts == s.db.contacts && Promised(s, s', t, b, ar, ap)
    ensures TotalsFit(s', b, ar, ap)
  {
    forall c, k
      ensures TotalFits(s', b, ar, ap, c, k)
    {
      var a := Control(k, ar, ap);
      assert TotalFits(s, b, ar, ap, c, k);
      SumSnoc(s.db.txs, t, PaidBy(b, c, a));
      SumSnoc(s.db.txs, t, InvoicedBy(b, c, k, a));
      assert s'.db.txs[|s.db.txs|] == t && Sound(s'.db, t);
      AmountNonNegative(t.entries, a);
    }
  }

  /** Postings that are no payment on a control account keep every promise. */
  lemma NoPaymentIsPromised(s: State, s': State, t: Tx, b: BusinessId, ar: AccountId, ap: AccountId)
    requires s'.checked == s.checked
    requires t.txType.PaymentTx? ==> ar !in Touched(t.entries) && ap !in Touched(t.entries)
    ensures Promised(s, s', t, b, ar, ap)
  {
  }

  lemma CheckedPaymentIsPromised(s: State, s': State, c: ContactId, b: BusinessId, ar: AccountId, ap: AccountId)
    requires CheckedFit(s, b) && c in s.checked && ar != ap && s.checked[c].money != ar && s.checked[c].money != ap
    requires s'.checked == s.checked - {c}
    ensures Promised(s, s', Posted(b, PaymentPosting(Control(s.checked[c].book, ar, ap), s.checked[c])), b, ar, ap)
  {
    var req := s.checked[c];
    var es := PaymentEntries(req.book, Control(req.book, ar, ap), req.money, req.amount);
    TwoEntries(es[0], es[1], ar);
    TwoEntries(es[0], es[1], ap);
    assert es == [es[0], es[1]];
  }

  // ----- a posting is voided

  /** How a void changes a sum over live rows: the voided row's term goes, the reversal has none. */
  lemma LiveSumAfterVoid(txs: seq<Tx>, id: TxId, today: int, f: Tx -> int)
    requires id < |txs|
    requires f(txs[id].(voided := true)) == 0 && f(Reversal(txs[id], id, today)) == 0
    ensures SumBy(VoidedRows(txs, id, today), f) == SumBy(txs, f) - f(txs[id])
  {
    SumUpdate(txs, id, txs[id].(voided := true), f);
    SumSnoc(txs[id := txs[id].(voided := true)], Reversal(txs[id], id, today), f);
  }

  lemma VoidKeepsTargets(s: State, s': State, b: BusinessId, ar: AccountId, ap: AccountId, id: TxId, today: int)
    requires PaymentsInv(s, b, ar, ap) && id < |s.db.txs|
    requires s'.db.txs == VoidedRows(s.db.txs, id, today) && s'.checked == s.checked
    ensures TargetsFit(s', b, ar, ap)
  {
    forall c, k, i: TxId
      ensures TargetFits(s', b, ar, ap, c, k, i)
    {
      VoidKeepsTarget(s, s', b, ar, ap, id, today, c, k, i);
    }
  }

  lemma VoidKeepsTarget(s: State, s': State, b: BusinessId, ar: AccountId, ap: AccountId, id: TxId, today: int,
      c: ContactId, k: Book, i: TxId)
    requires PaymentsInv(s, b, ar, ap) && id < |s.db.txs|
    requires s'.db.txs == VoidedRows(s.db.txs, id, today) && s'.checked == s.checked
    ensures TargetFits(s', b, ar, ap, c, k, i)
  {
    var a := Control(k, ar, ap);
    assert TargetFits(s, b, ar, ap, c, k, i);
    LiveSumAfterVoid(s.db.txs, id, today, PaidToBy(b, c, a, i));
    assert Sound(s.db, s.db.txs[id]);
    AmountNonNegative(s.db.txs[id].entries, a);
  }

  /** A void takes away what its posting had added to the contact's figures. */
  lemma TotalsAfterVoid(s: State, s': State, b: BusinessId, c: ContactId, k: Book, a: AccountId, id: TxId, today: int)
    requires id < |s.db.txs| && s'.db.txs == VoidedRows(s.db.txs, id, today)
    ensures PaidIn(s'.db.txs, b, c, a) == PaidIn(s.db.txs, b, c, a) - PaidBy(b, c, a)(s.db.txs[id])
    ensures InvoicedIn(s'.db.txs, b, c, k, a) == InvoicedIn(s.db.txs, b, c, k, a) - InvoicedBy(b, c, k, a)(s.db.txs[id])
  {
    LiveSumAfterVoid(s.db.txs, id, today, PaidBy(b, c, a));
    LiveSumAfterVoid(s.db.txs, id, today, InvoicedBy(b, c, k, a));
  }

  /** What the contact still owes in the book, as the figures shown before the step have it. */
  function Outstanding(db: Db, b: BusinessId, c: ContactId, k: Book, today: int): int
    requires c < |db.contacts|
  {
    DirectionOf(db, b, c, k, today).remaining + DirectionOf(db, b, c, k, today).openingRemaining
  }

  lemma OutstandingIs(db: Db, b: BusinessId, ar: AccountId, ap: AccountId, c: ContactId, k: Book, today: int)
    requires BooksInv(db, b, ar, ap) && c < |db.contacts|
    ensures var a := Control(k, ar, ap);
      Outstanding(db, b, c, k, today) ==
        InvoicedIn(db.txs, b, c, k, a) + OpeningOwed(db.contacts[c], k) - PaidIn(db.txs, b, c, a)
  {
    InvoicedTotal(db.txs, b, c, k, Control(k, ar, ap));
    PaidTotal(db.txs, b, c, Control(k, ar, ap));
  }

  /** Voiding a live invoice keeps the contact's total within bounds exactly when the invoice's amount,
      with any payment being posted, is no more than the outstanding figure shown before the void. */
  lemma InvoiceVoidKeepsTotalIff(s: State, b: BusinessId, ar: AccountId, ap: AccountId, id: TxId, c: ContactId,
      k: Book, today: int)
    requires BooksInv(s.db, b, ar, ap) && c < |s.db.contacts|
    requires id < |s.db.txs| && IsInvoiceOf(s.db.txs[id], b, c, k)
    ensures TotalFits(State(ApplyVoid(s.db, id, today), s.checked), b, ar, ap, c, k)
      <==> AmountOnAccount(s.db.txs[id].entries, Control(k, ar, ap)) + PendingIn(s, c, k) <= Outstanding(s.db, b, c, k,
        today)
  {
    OutstandingIs(s.db, b, ar, ap, c, k, today);
    TotalsAfterVoid(s, State(ApplyVoid(s.db, id, today), s.checked), b, c, k, Control(k, ar, ap), id, today);
  }

  // ----- a payment is accepted

  /** A check that passes has passed `ValidatePayment` on the contact's allocation. */
  lemma CheckIsValidation(db: Db, b: BusinessId, req: PaymentRequest, today: int)
    requires CheckPayment(db, b, req, today).None?
    ensures IsContactOf(db, b, req.contact) && ControlAccount(db.accounts, b, req.book).Some?
    ensures ValidatePayment(DirectionOf(db, b, req.contact, req.book, today), req.amount, req.target).None?
  {
  }

  lemma DirectionIsBreakdown(db: Db, b: BusinessId, c: ContactId, k: Book, today: int, a: AccountId, owed: int,
      invoices: seq<Invoice>, payments: seq<Pay>)
    requires c < |db.contacts| && ControlAccount(db.accounts, b, k) == Some(a) && owed == OpeningOwed(db.contacts[c], k)
    requires invoices == Invoices(db.txs, b, c, k, a) && payments == Payments(db.txs, b, c, a)
    ensures DirectionOf(db, b, c, k, today) == Breakdown(owed, invoices, payments, today)
  {
  }

  lemma RowsAreSound(db: Db, b: BusinessId, c: ContactId, k: Book, a: AccountId)
    requires AllSound(db)
    ensures DistinctIds(Invoices(db.txs, b, c, k, a))
    ensures forall p | p in Payments(db.txs, b, c, a) :: p.amount >= 0
  {
    InvoiceIdsDistinct(db.txs, b, c, k, a);
    assert db.txs[..|db.txs|] == db.txs;
    PaymentsNonNegative(db, |db.txs|, b, c, a);
  }

  lemma AcceptedFits(s: State, b: BusinessId, ar: AccountId, ap: AccountId, req: PaymentRequest, today: int,
      invoices: seq<Invoice>, payments: seq<Pay>)
    requires PaymentsInv(s, b, ar, ap) && req.amount > 0
    requires CheckPayment(s.db, b, req, today).None?
    requires invoices == Invoices(s.db.txs, b, req.contact, req.book, Control(req.book, ar, ap))
    requires payments == Payments(s.db.txs, b, req.contact, Control(req.book, ar, ap))
    ensures NoneOverApplied(invoices, payments + [Pay(req.amount, req.target)])
    ensures SumBy(payments, PaymentAmount()) + req.amount <= SumBy(invoices,
      OriginalOf()) + OpeningOwed(s.db.contacts[req.contact], req.book)
  {
    CheckIsValidation(s.db, b, req, today);
    var owed := OpeningOwed(s.db.contacts[req.contact], req.book);
    DirectionIsBreakdown(s.db, b, req.contact, req.book, today, Control(req.book, ar, ap), owed, invoices, payments);
    RowsAreSound(s.db, b, req.contact, req.book, Control(req.book, ar, ap));
    NoneOverAppliedFromTargets(s, b, ar, ap, req.contact, req.book);
    AcceptedPaymentFits(owed, invoices, payments, today, req.amount, req.target);
  }

  /** An accepted payment is promised without breaking either bound. */
  lemma AcceptedKeepsTargets(s: State, b: BusinessId, ar: AccountId, ap: AccountId, req: PaymentRequest, today: int)
    requires PaymentsInv(s, b, ar, ap) && req.contact !in s.checked && req.amount > 0
    requires CheckPayment(s.db, b, req, today).None?
    ensures TargetsFit(s.(checked := s.checked[req.contact := req]), b, ar, ap)
  {
    var s' := s.(checked := s.checked[req.contact := req]);
    var a0 := Control(req.book, ar, ap);
    var invoices, payments := Invoices(s.db.txs, b, req.contact, req.book, a0), Payments(s.db.txs, b, req.contact, a0);
    AcceptedFits(s, b, ar, ap, req, today, invoices, payments);
    forall c, k, i: TxId
      ensures TargetFits(s', b, ar, ap, c, k, i)
    {
      assert TargetFits(s, b, ar, ap, c, k, i);
      if c == req.contact && k == req.book && i < |s.db.txs| && IsInvoiceOf(s.db.txs[i], b, c, k) {
        AcceptedTargetFits(s, b, ar, ap, req, i, invoices, payments);
      }
    }
  }

  lemma AcceptedTargetFits(s: State, b: BusinessId, ar: AccountId, ap: AccountId, req: PaymentRequest, i: TxId,
      invoices: seq<Invoice>, payments: seq<Pay>)
    requires i < |s.db.txs| && IsInvoiceOf(s.db.txs[i], b, req.contact, req.book)
    requires invoices == Invoices(s.db.txs, b, req.contact, req.book, Control(req.book, ar, ap))
    requires payments == Payments(s.db.txs, b, req.contact, Control(req.book, ar, ap))
    requires NoneOverApplied(invoices, payments + [Pay(req.amount, req.target)])
    ensures TargetFits(s.(checked := s.checked[req.contact := req]), b, ar, ap, req.contact, req.book, i)
  {
    var a := Control(req.book, ar, ap);
    InvoiceListed(s.db.txs, b, req.contact, req.book, a, i);
    TargetedTotal(s.db.txs, b, req.contact, a, i);
    SumSnoc(payments, Pay(req.amount, req.target), PaidTo(i));
    var row := ListedRow(s.db.txs[i], i, a).invoice;
    assert row in invoices;
    assert Targeted(payments + [Pay(req.amount, req.target)], row.id) <= row.original;
  }

  lemma AcceptedKeepsTotals(s: State, b: BusinessId, ar: AccountId, ap: AccountId, req: PaymentRequest, today: int)
    requires PaymentsInv(s, b, ar, ap) && TotalsFit(s, b, ar, ap) && req.contact !in s.checked && req.amount > 0
    requires CheckPayment(s.db, b, req, today).None?
    ensures TotalsFit(s.(checked := s.checked[req.contact := req]), b, ar, ap)
  {
    var s' := s.(checked := s.checked[req.contact := req]);
    var c0, k0, a0 := req.contact, req.book, Control(req.book, ar, ap);
    AcceptedFits(s, b, ar, ap, req, today, Invoices(s.db.txs, b, c0, k0, a0), Payments(s.db.txs, b, c0, a0));
    InvoicedTotal(s.db.txs, b, c0, k0, a0);
    PaidTotal(s.db.txs, b, c0, a0);
    forall c, k
      ensures TotalFits(s', b, ar, ap, c, k)
    {
      assert TotalFits(s, b, ar, ap, c, k);
    }
  }

  lemma NoneOverAppliedFromTargets(s: State, b: BusinessId, ar: AccountId, ap: AccountId, c: ContactId, k: Book)
    requires TargetsFit(s, b, ar, ap) && forall x | x in s.checked :: s.checked[x].amount > 0
    ensures NoneOverApplied(Invoices(s.db.txs, b, c, k, Control(k, ar, ap)),
      Payments(s.db.txs, b, c, Control(k, ar, ap)))
  {
    var a := Control(k, ar, ap);
    forall i | i in Invoices(s.db.txs, b, c, k, a)
      ensures Targeted(Payments(s.db.txs, b, c, a), i.id) <= i.original
    {
      ListedIsInvoice(s.db.txs, b, c, k, a, i);
      TargetedTotal(s.db.txs, b, c, a, i.id);
      assert TargetFits(s, b, ar, ap, c, k, i.id);
    }
  }

  // ----- every step, every run

  lemma DroppedPromiseKeeps(s: State, b: BusinessId, ar: AccountId, ap: AccountId, c: ContactId)
    requires PaymentsInv(s, b, ar, ap)
    ensures TargetsFit(s.(checked := s.checked - {c}), b, ar, ap)
    ensures TotalsFit(s, b, ar, ap) ==> TotalsFit(s.(checked := s.checked - {c}), b, ar, ap)
  {
    var s' := s.(checked := s.checked - {c});
    forall d, k, i: TxId
      ensures TargetFits(s', b, ar, ap, d, k, i)
    {
      assert TargetFits(s, b, ar, ap, d, k, i);
    }
    if TotalsFit(s, b, ar, ap) {
      forall d, k
        ensures TotalFits(s', b, ar, ap, d, k)
      {
        assert TotalFits(s, b, ar, ap, d, k);
      }
    }
  }

  /** What a posting step appends, and that the promise it redeems was made. */
  ghost predicate AppendsPromised(s: State, s': State, b: BusinessId, ar: AccountId, ap: AccountId) {
    var n := |s.db.txs|;
    |s'.db.txs| > n ==> s'.db.txs == s.db.txs + [s'.db.txs[n]] && Promised(s, s', s'.db.txs[n], b, ar, ap)
  }

  /** A posting request appends one row to the tables or none. */
  lemma PostAppends(db: Db, c: Command)
    requires c.Post?
    ensures var txs' := LedgerRuns.Next(db, c).txs;
      txs' == db.txs || (CheckPost(db, c.b, c.req).None? && txs' == db.txs + [Posted(c.b, c.req)])
  {
  }

  lemma PostingStep(s: State, b: BusinessId, ar: AccountId, ap: AccountId, step: Step)
    requires PaymentsInv(s, b, ar, ap) && !step.VoidAny?
    ensures AppendsPromised(s, Advance(s, b, step), b, ar, ap)
  {
    AccountsApart(s.db, b, ar, ap);
    StepIsRequest(s, b, step);
    var r, s' := Request(s, b, step), Advance(s, b, step);
    if r.Some? {
      PostAppends(s.db, r.value);
      var t := Posted(r.value.b, r.value.req);
      if s'.db.txs == s.db.txs + [t] {
        RequestIsPromised(s, s', b, ar, ap, step);
        assert s'.db.txs[|s.db.txs|] == t;
      }
    }
  }

  lemma OffBothControls(db: Db, b: BusinessId, money: AccountId)
    requires CheckMoneyAccount(db.accounts, b, money).None?
    ensures ControlAccount(db.accounts, b, Receivable) != Some(money)
      && ControlAccount(db.accounts, b, Payable) != Some(money)
  {
    MoneyIsOffControl(db, b, money, Receivable);
    MoneyIsOffControl(db, b, money, Payable);
  }

  lemma RequestIsPromised(s: State, s': State, b: BusinessId, ar: AccountId, ap: AccountId, step: Step)
    requires BooksInv(s.db, b, ar, ap) && CheckedFit(s, b) && ar != ap && !step.VoidAny?
    requires s'.checked == if step.PostChecked? then s.checked - {step.c} else s.checked
    ensures var r := Request(s, b, step);
      r.Some? ==> Promised(s, s', Posted(r.value.b, r.value.req), b, ar, ap)
  {
    var r := Request(s, b, step);
    if r.Some? {
      if step.PostChecked? {
        RedeemedIsPromised(s, s', b, ar, ap, step.c);
      } else {
        NoPaymentIsPromised(s, s', Posted(r.value.b, r.value.req), b, ar, ap);
      }
    }
  }

  lemma RedeemedIsPromised(s: State, s': State, b: BusinessId, ar: AccountId, ap: AccountId, c: ContactId)
    requires BooksInv(s.db, b, ar, ap) && CheckedFit(s, b) && ar != ap && c in s.checked
    requires s'.checked == s.checked - {c}
    ensures Promised(s, s', Posted(b, PaymentPosting(Control(s.checked[c].book, ar, ap), s.checked[c])), b, ar, ap)
  {
    OffBothControls(s.db, b, s.checked[c].money);
    CheckedPaymentIsPromised(s, s', c, b, ar, ap);
  }

  /** A step that posts nothing leaves the tables alone. */
  lemma QuietStep(s: State, b: BusinessId, step: Step)
    requires |Advance(s, b, step).db.txs| == |s.db.txs|
    ensures Advance(s, b, step).db == s.db
  {
  }

  lemma StepKeepsTargets(s: State, b: BusinessId, ar: AccountId, ap: AccountId, step: Step)
    requires PaymentsInv(s, b, ar, ap)
    ensures PaymentsInv(Advance(s, b, step), b, ar, ap)
  {
    StepKeepsShape(s, b, ar, ap, step);
    var s' := Advance(s, b, step);
    if |s'.db.txs| == |s.db.txs| {
      QuietStep(s, b, step);
      if s' != s {
        match step
        case Check(req, today) => AcceptedKeepsTargets(s, b, ar, ap, req, today);
        case PostChecked(c) => DroppedPromiseKeeps(s, b, ar, ap, c);
        case Abandon(c) => DroppedPromiseKeeps(s, b, ar, ap, c);
      }
    } else if step.VoidAny? {
      VoidKeepsTargets(s, s', b, ar, ap, step.id, step.today);
    } else {
      PostingStep(s, b, ar, ap, step);
      AppendKeepsTargets(s, s', s'.db.txs[|s.db.txs|], b, ar, ap);
    }
  }

  /** A void of a live invoice, if that is what the step is, takes away no more than is outstanding. */
  ghost predicate VoidsWithinOutstanding(s: State, b: BusinessId, ar: AccountId, ap: AccountId, step: Step) {
    step.VoidAny? && step.id < |s.db.txs| ==>
      forall c: ContactId, k :: c < |s.db.contacts| && IsInvoiceOf(s.db.txs[step.id], b, c, k) ==>
        AmountOnAccount(s.db.txs[step.id].entries, Control(k, ar, ap)) + PendingIn(s, c, k) <= Outstanding(s.db, b, c,
          k, step.today)
  }

  lemma VoidKeepsTotal(s: State, b: BusinessId, ar: AccountId, ap: AccountId, id: TxId, c: ContactId, k: Book,
      today: int)
    requires BooksInv(s.db, b, ar, ap) && TotalFits(s, b, ar, ap, c, k) && id < |s.db.txs|
    requires c < |s.db.contacts| && IsInvoiceOf(s.db.txs[id], b, c, k) ==>
      AmountOnAccount(s.db.txs[id].entries, Control(k, ar, ap)) + PendingIn(s, c, k) <= Outstanding(s.db, b, c, k,
        today)
    ensures TotalFits(State(ApplyVoid(s.db, id, today), s.checked), b, ar, ap, c, k)
  {
    if c < |s.db.contacts| {
      if IsInvoiceOf(s.db.txs[id], b, c, k) {
        InvoiceVoidKeepsTotalIff(s, b, ar, ap, id, c, k, today);
      } else {
        var a := Control(k, ar, ap);
        assert Sound(s.db, s.db.txs[id]);
        AmountNonNegative(s.db.txs[id].entries, a);
        TotalsAfterVoid(s, State(ApplyVoid(s.db, id, today), s.checked), b, c, k, a, id, today);
      }
    }
  }

  lemma VoidKeepsTotals(s: State, b: BusinessId, ar: AccountId, ap: AccountId, id: TxId, today: int)
    requires PaymentsInv(s, b, ar, ap) && TotalsFit(s, b, ar, ap) && id < |s.db.txs|
    requires VoidsWithinOutstanding(s, b, ar, ap, VoidAny(b, id, today))
    ensures TotalsFit(State(ApplyVoid(s.db, id, today), s.checked), b, ar, ap)
  {
    forall c, k
      ensures TotalFits(State(ApplyVoid(s.db, id, today), s.checked), b, ar, ap, c, k)
    {
      VoidKeepsTotal(s, b, ar, ap, id, c, k, today);
    }
  }

  lemma QuietKeepsTotals(s: State, b: BusinessId, ar: AccountId, ap: AccountId, step: Step)
    requires PaymentsInv(s, b, ar, ap) && TotalsFit(s, b, ar, ap) && Advance(s, b, step).db == s.db
    ensures TotalsFit(Advance(s, b, step), b, ar, ap)
  {
    if Advance(s, b, step) != s {
      match step
      case Check(req, today) => AcceptedKeepsTotals(s, b, ar, ap, req, today);
      case PostChecked(c) => DroppedPromiseKeeps(s, b, ar, ap, c);
      case Abandon(c) => DroppedPromiseKeeps(s, b, ar, ap, c);
    }
  }

  lemma StepKeepsTotals(s: State, b: BusinessId, ar: AccountId, ap: AccountId, step: Step)
    requires PaymentsInv(s, b, ar, ap) && TotalsFit(s, b, ar, ap) && VoidsWithinOutstanding(s, b, ar, ap, step)
    ensures TotalsFit(Advance(s, b, step), b, ar, ap)
  {
    StepKeepsShape(s, b, ar, ap, step);
    var s' := Advance(s, b, step);
    if |s'.db.txs| == |s.db.txs| {
      QuietStep(s, b, step);
      QuietKeepsTotals(s, b, ar, ap, step);
    } else if step.VoidAny? {
      assert s' == State(ApplyVoid(s.db, step.id, step.today), s.checked);
      VoidKeepsTotals(s, b, ar, ap, step.id, step.today);
    } else {
      PostingStep(s, b, ar, ap, step);
      AppendKeepsTotals(s, s', s'.db.txs[|s.db.txs|], b, ar, ap);
    }
  }

  /** Books just opened, no payment being posted. */
  ghost predicate Fresh(s: State, b: BusinessId, ar: AccountId, ap: AccountId) {
    && JustOpened(s.db) && s.checked == map[]
    && ControlAccount(s.db.accounts, b, Receivable) == Some(ar) && ControlAccount(s.db.accounts, b, Payable) == Some(ap)
  }

  lemma FreshIsSound(s: State, b: BusinessId, ar: AccountId, ap: AccountId)
    requires Fresh(s, b, ar, ap)
    ensures PaymentsInv(s, b, ar, ap) && TotalsFit(s, b, ar, ap)
  {
  }

  /** Over every run, voids included and invoices dated as one likes: on each live invoice the payments
      naming it, posted or promised, stay within its amount. */
  lemma {:induction false} RunKeepsTargets(s: State, b: BusinessId, ar: AccountId, ap: AccountId, steps: seq<Step>)
    requires Fresh(s, b, ar, ap)
    ensures PaymentsInv(RunSteps(s, b, steps), b, ar, ap)
  {
    FreshIsSound(s, b, ar, ap);
    if steps != [] {
      RunKeepsTargets(s, b, ar, ap, steps[..|steps| - 1]);
      StepKeepsTargets(RunSteps(s, b, steps[..|steps| - 1]), b, ar, ap, steps[|steps| - 1]);
    }
  }

  ghost predicate NoOverdrawnVoids(s: State, b: BusinessId, ar: AccountId, ap: AccountId, steps: seq<Step>) {
    forall i :: 0 <= i < |steps| ==> VoidsWithinOutstanding(RunSteps(s, b, steps[..i]), b, ar, ap, steps[i])
  }

  /** Over every run without invoice voids, or with voids of invoices not yet paid for: no contact's
      payments exceed what they were invoiced and owed when they were added. */
  lemma {:induction false} RunKeepsTotals(s: State, b: BusinessId, ar: AccountId, ap: AccountId, steps: seq<Step>)
    requires Fresh(s, b, ar, ap) && NoOverdrawnVoids(s, b, ar, ap, steps)
    ensures TotalsFit(RunSteps(s, b, steps), b, ar, ap)
  {
    FreshIsSound(s, b, ar, ap);
    if steps != [] {
      var n := |steps| - 1;
      assert forall i :: 0 <= i < n ==> steps[..n][..i] == steps[..i];
      RunKeepsTotals(s, b, ar, ap, steps[..n]);
      RunKeepsTargets(s, b, ar, ap, steps[..n]);
      StepKeepsTotals(RunSteps(s, b, steps[..n]), b, ar, ap, steps[n]);
    }
  }

  // ----- a paid invoice can be voided

  const EXAMPLE_ACCOUNTS: seq<Account> := [
    Account(0, Asset, Some("receivable"), true, false, 0, 0),
    Account(0, Liability, Some("payable"), true, false, 0, 0),
    Account(0, Asset, Some("cash"), false, false, 0, 0)
  ]

  const EXAMPLE_LOAN := InvoiceRequest(0, 100, 1, None, None, Some(2))
  const EXAMPLE_PAYMENT := PaymentRequest(0, Receivable, 100, 2, 2, None)
  const EXAMPLE_REPAYMENT := PaymentPosting(0, EXAMPLE_PAYMENT)

  /** One contact, kept as a loan, on books just opened. */
  const EXAMPLE_BOOKS := State(Db(EXAMPLE_ACCOUNTS, [Contact(0, Both, true, 0)], []), map[])

  /** Lend 100 and collect 100. */
  const EXAMPLE_STEPS := [Step.Invoice(Receivable, EXAMPLE_LOAN), Check(EXAMPLE_PAYMENT, 2), PostChecked(0)]

  ghost predicate ExampleBooks(db: Db) {
    && BooksInv(db, 0, 0, 1) && db.contacts == [Contact(0, Both, true, 0)]
    && |db.accounts| == 3 && forall a :: 0 <= a < 3 ==> db.accounts[a].(current := 0) == EXAMPLE_ACCOUNTS[a]
  }

  lemma ExampleOpens()
    ensures Fresh(EXAMPLE_BOOKS, 0, 0, 1) && ExampleBooks(EXAMPLE_BOOKS.db)
  {
    assert IsControl(EXAMPLE_ACCOUNTS[0], 0, Receivable) && IsControl(EXAMPLE_ACCOUNTS[1], 0, Payable);
    assert !IsControl(EXAMPLE_ACCOUNTS[0], 0, Payable);
  }

  /** One two-sided posting over the example's accounts is accepted and leaves the books in shape. */
  lemma ExamplePosts(db: Db, req: PostRequest)
    requires ExampleBooks(db) && Shaped(Posted(0, req), 0, 0, 1)
    requires |req.entries| == 2 && req.entries[0].side != req.entries[1].side
      && req.entries[0].amount == req.entries[1].amount > 0
    requires forall e | e in req.entries :: e.account < 3
    requires req.key.None? && req.contact == Some(0) && req.appliedTo.None?
    ensures PostStep(db, 0, req) == Ok((ApplyPost(db, 0, req), |db.txs|))
    ensures ExampleBooks(ApplyPost(db, 0, req)) && ApplyPost(db, 0, req).txs == db.txs + [Posted(0, req)]
  {
    TwoSidedPosts(db, 0, req);
    StepKeepsBooks(db, 0, 0, 1, Post(0, req));
    assert LedgerRuns.Next(db, Post(0, req)) == ApplyPost(db, 0, req);
  }

  lemma ExampleLoanPosts()
    ensures RecordInvoice(EXAMPLE_BOOKS.db, 0, Receivable, EXAMPLE_LOAN) ==
      Wrap(PostStep(EXAMPLE_BOOKS.db, 0, InvoicePosting(Receivable, 0, 2, EXAMPLE_LOAN)))
  {
    ExampleOpens();
    assert |"cash"| == 4;
    assert CheckMoneyAccount(EXAMPLE_ACCOUNTS, 0, 2).None?;
  }

  lemma ExampleLent(s: State)
    requires s == Advance(EXAMPLE_BOOKS, 0, Step.Invoice(Receivable, EXAMPLE_LOAN))
    ensures ExampleBooks(s.db) && s.checked == map[]
    ensures s.db.txs == [] + [Posted(0, InvoicePosting(Receivable, 0, 2, EXAMPLE_LOAN))]
  {
    ExampleOpens();
    InvoiceIsShaped(0, Receivable, EXAMPLE_LOAN, 0, 1, 2);
    ExamplePosts(EXAMPLE_BOOKS.db, InvoicePosting(Receivable, 0, 2, EXAMPLE_LOAN));
    ExampleLoanPosts();
  }

  lemma ExampleChecked(s: State)
    requires ExampleBooks(s.db) && s.checked == map[]
    requires s.db.txs == [] + [Posted(0, InvoicePosting(Receivable, 0, 2, EXAMPLE_LOAN))]
    ensures Advance(s, 0, Check(EXAMPLE_PAYMENT, 2)) == State(s.db, map[0 := EXAMPLE_PAYMENT])
  {
    ExampleLentTotals(s.db.txs, s.db.txs[0]);
    OutstandingIs(s.db, 0, 0, 1, 0, Receivable, 2);
    assert s.db.accounts[2].(current := 0) == EXAMPLE_ACCOUNTS[2];
  }

  lemma ExampleCollected(s: State)
    requires ExampleBooks(s.db) && s.checked == map[0 := EXAMPLE_PAYMENT]
    ensures var s' := Advance(s, 0, PostChecked(0));
      ExampleBooks(s'.db) && s'.checked == map[] && s'.db.txs == s.db.txs + [Posted(0, EXAMPLE_REPAYMENT)]
  {
    PaymentIsShaped(0, EXAMPLE_PAYMENT, 0, 1);
    ExamplePosts(s.db, EXAMPLE_REPAYMENT);
  }

  lemma ThreeSteps(s: State, x: Step, y: Step, z: Step)
    ensures RunSteps(s, 0, [x, y, z]) == Advance(Advance(Advance(s, 0, x), 0, y), 0, z)
  {
    assert [] + [x] == [x] && [x] + [y] == [x, y] && [x, y] + [z] == [x, y, z];
    RunSnoc(s, [], x);
    RunSnoc(s, [x], y);
    RunSnoc(s, [x, y], z);
  }

  /** The books after lending 100 and collecting 100. */
  lemma ExampleRepaid()
    ensures LentAndRepaid(RunSteps(EXAMPLE_BOOKS, 0, EXAMPLE_STEPS))
  {
    ThreeSteps(EXAMPLE_BOOKS, EXAMPLE_STEPS[0], EXAMPLE_STEPS[1], EXAMPLE_STEPS[2]);
    var s := Advance(EXAMPLE_BOOKS, 0, EXAMPLE_STEPS[0]);
    ExampleLent(s);
    ExampleChecked(s);
    ExampleCollected(State(s.db, map[0 := EXAMPLE_PAYMENT]));
  }

  lemma ExampleVoidable(db: Db, loan: Tx)
    requires |db.accounts| == 3 && (forall a :: 0 <= a < 3 ==> db.accounts[a].(current := 0) == EXAMPLE_ACCOUNTS[a])
    requires loan == Posted(0, InvoicePosting(Receivable, 0, 2, EXAMPLE_LOAN)) && 0 < |db.txs| && db.txs[0] == loan
    ensures CheckVoid(db, 0, 0).None?
  {
    assert |"receivable"| == 10 && |"cash"| == 4 && |REFERRAL_BONUS_INCOME_SUBTYPE| == 14;
    assert loan.entries == [loan.entries[0], loan.entries[1]];
  }

  ghost predicate LentAndRepaid(s: State) {
    && ExampleBooks(s.db) && s.checked == map[]
    && s.db.txs == [] + [Posted(0, InvoicePosting(Receivable, 0, 2, EXAMPLE_LOAN))] + [Posted(0, EXAMPLE_REPAYMENT)]
  }

  lemma ExampleFits(s: State)
    requires LentAndRepaid(s)
    ensures TotalFits(s, 0, 0, 1, 0, Receivable) && Outstanding(s.db, 0, 0, Receivable, 3) == 0
    ensures AmountOnAccount(s.db.txs[0].entries, 0) == 100
  {
    ExampleTotals(s.db.txs, s.db.txs[0], s.db.txs[1]);
    OutstandingIs(s.db, 0, 0, 1, 0, Receivable, 3);
  }

  lemma ExampleVoid(s: State)
    requires LentAndRepaid(s)
    ensures !TotalFits(State(ApplyVoid(s.db, 0, 3), s.checked), 0, 0, 1, 0, Receivable)
  {
    ExampleFits(s);
    InvoiceVoidKeepsTotalIff(s, 0, 0, 1, 0, 0, Receivable, 3);
  }

  lemma AcceptedVoid(s: State, id: TxId, today: int)
    requires CheckVoid(s.db, 0, id).None?
    ensures Advance(s, 0, VoidAny(0, id, today)) == State(ApplyVoid(s.db, id, today), s.checked)
  {
  }

  /** From books just opened: lend 100, collect 100, void the loan. The void is accepted, the bound holds
      just before it and fails just after it. */
  lemma PaidInvoiceCanBeVoided()
    ensures Fresh(EXAMPLE_BOOKS, 0, 0, 1)
    ensures TotalFits(RunSteps(EXAMPLE_BOOKS, 0, EXAMPLE_STEPS), 0, 0, 1, 0, Receivable)
    ensures CheckVoid(RunSteps(EXAMPLE_BOOKS, 0, EXAMPLE_STEPS).db, 0, 0).None?
    ensures !TotalFits(RunSteps(EXAMPLE_BOOKS, 0, EXAMPLE_STEPS + [VoidAny(0, 0, 3)]), 0, 0, 1, 0, Receivable)
  {
    ExampleOpens();
    ExampleRepaid();
    var s := RunSteps(EXAMPLE_BOOKS, 0, EXAMPLE_STEPS);
    ExampleFits(s);
    ExampleVoidable(s.db, s.db.txs[0]);
    AcceptedVoid(s, 0, 3);
    ExampleVoid(s);
    RunSnoc(EXAMPLE_BOOKS, EXAMPLE_STEPS, VoidAny(0, 0, 3));
  }

  lemma RunSnoc(s: State, steps: seq<Step>, step: Step)
    ensures RunSteps(s, 0, steps + [step]) == Advance(RunSteps(s, 0, steps), 0, step)
  {
    assert (steps + [step])[..|steps|] == steps;
  }

  lemma ExampleLentTotals(txs: seq<Tx>, loan: Tx)
    requires loan == Posted(0, InvoicePosting(Receivable, 0, 2, EXAMPLE_LOAN)) && txs == [] + [loan]
    ensures InvoicedIn(txs, 0, 0, Receivable, 0) == 100 && PaidIn(txs, 0, 0, 0) == 0
  {
    TwoEntries(loan.entries[0], loan.entries[1], 0);
    assert loan.entries == [loan.entries[0], loan.entries[1]];
    SumSnoc([], loan, InvoicedBy(0, 0, Receivable, 0));
    SumSnoc([], loan, PaidBy(0, 0, 0));
  }

  lemma ExampleTotals(txs: seq<Tx>, loan: Tx, repayment: Tx)
    requires loan == Posted(0, InvoicePosting(Receivable, 0, 2, EXAMPLE_LOAN))
      && repayment == Posted(0, EXAMPLE_REPAYMENT)
    requires txs == [] + [loan] + [repayment]
    ensures InvoicedIn(txs, 0, 0, Receivable, 0) == 100 && PaidIn(txs, 0, 0, 0) == 100
    ensures AmountOnAccount(loan.entries, 0) == 100
  {
    TwoEntries(loan.entries[0], loan.entries[1], 0);
    TwoEntries(repayment.entries[0], repayment.entries[1], 0);
    assert loan.entries == [loan.entries[0], loan.entries[1]]
      && repayment.entries == [repayment.entries[0], repayment.entries[1]];
    assert txs == [loan] + [repayment] && [loan] == [] + [loan];
    SumSnoc([loan], repayment, InvoicedBy(0, 0, Receivable, 0));
    SumSnoc([], loan, InvoicedBy(0, 0, Receivable, 0));
    SumSnoc([loan], repayment, PaidBy(0, 0, 0));
    SumSnoc([], loan, PaidBy(0, 0, 0));
  }
}
