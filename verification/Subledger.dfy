/** Receivables and payables: one contact's invoices and payments, read off the ledger. */
module Subledger {
  import opened Base
  import opened Ledger
  import opened LedgerRuns
  import opened Sorting
  import opened Allocation

  /** Which side of a contact's account: what they owe us, or what we owe them. */
  datatype Book = Receivable | Payable

  function InvoiceType(k: Book): TxType {
    if k.Receivable? then SaleTx else PurchaseTx
  }

  function ControlSubtype(k: Book): string {
    if k.Receivable? then "receivable" else "payable"
  }

  function ControlType(k: Book): AccountType {
    if k.Receivable? then Asset else Liability
  }

  predicate IsControl(account: Account, b: BusinessId, k: Book) {
    account.business == b && account.subtype == Some(ControlSubtype(k)) && account.accountType == ControlType(k)
      && account.isSystem
  }

  /** The oldest system account of the book's subtype and type: Accounts Receivable or Payable. */
  function ControlAccount(accounts: seq<Account>, b: BusinessId, k: Book): (r: Option<AccountId>)
    ensures r.Some? ==> r.value < |accounts| && IsControl(accounts[r.value], b, k)
    ensures r.Some? ==> forall a :: 0 <= a < r.value ==> !IsControl(accounts[a], b, k)
    ensures r.None? ==> forall a :: 0 <= a < |accounts| ==> !IsControl(accounts[a], b, k)
  {
    if accounts == [] then None
    else
      var n := |accounts| - 1;
      var earlier := ControlAccount(accounts[..n], b, k);
      assert forall a :: 0 <= a < n ==> accounts[..n][a] == accounts[a];
      if earlier.Some? then earlier else if IsControl(accounts[n], b, k) then Some(n) else None
  }

  /** Pawna (positive) is owed on the receivable side, Dena (negative) on the payable side. */
  function OpeningOwed(contact: Contact, k: Book): (owed: int)
    ensures owed >= 0
  {
    Max(0, if k.Receivable? then contact.opening else -contact.opening)
  }

  // ----- the two queries

  /** The amount of the first entry on an account, 0 when there is none. */
  function AmountOnAccount(entries: seq<Entry>, a: AccountId): int {
    if entries == [] then 0 else if entries[0].account == a then entries[0].amount else AmountOnAccount(entries[1..], a)
  }

  predicate IsInvoiceOf(t: Tx, b: BusinessId, c: ContactId, k: Book) {
    t.business == b && t.contact == Some(c) && t.txType == InvoiceType(k) && IsLive(t)
  }

  predicate IsPaymentOf(t: Tx, b: BusinessId, c: ContactId, a: AccountId) {
    t.business == b && t.contact == Some(c) && t.txType.PaymentTx? && IsLive(t) && a in Touched(t.entries)
  }

  datatype DatedInvoice = DatedInvoice(date: int, invoice: Invoice)

  function InvoiceDate(): DatedInvoice -> int {
    (d: DatedInvoice) => d.date
  }

  function ListedRow(t: Tx, id: TxId, a: AccountId): DatedInvoice {
    DatedInvoice(t.date, Invoice(id, AmountOnAccount(t.entries, a), t.dueDate))
  }

  function InvoiceRows(txs: seq<Tx>, b: BusinessId, c: ContactId, k: Book, a: AccountId): seq<DatedInvoice> {
    if txs == [] then []
    else
      var n := |txs| - 1;
      var earlier := InvoiceRows(txs[..n], b, c, k, a);
      if IsInvoiceOf(txs[n], b, c, k) then earlier + [ListedRow(txs[n], n, a)] else earlier
  }

  function Undated(rows: seq<DatedInvoice>): (r: seq<Invoice>)
    ensures |r| == |rows| && forall i :: 0 <= i < |r| ==> r[i] == rows[i].invoice
  {
    seq(|rows|, i requires 0 <= i < |rows| => rows[i].invoice)
  }

  /** The contact's live invoices, oldest first. */
  function Invoices(txs: seq<Tx>, b: BusinessId, c: ContactId, k: Book, a: AccountId): seq<Invoice> {
    Undated(SortByDate(InvoiceRows(txs, b, c, k, a), InvoiceDate()))
  }

  /** The contact's live payments on the book's account. */
  function Payments(txs: seq<Tx>, b: BusinessId, c: ContactId, a: AccountId): seq<Pay> {
    if txs == [] then []
    else
      var t := txs[|txs| - 1];
      var earlier := Payments(txs[..|txs| - 1], b, c, a);
      if IsPaymentOf(t, b, c, a) then earlier + [Pay(AmountOnAccount(t.entries, a), t.appliedTo)] else earlier
  }

  /** One contact's figures in one book; without the book's account there is only the opening balance. */
  function DirectionOf(db: Db, b: BusinessId, c: ContactId, k: Book, today: int): Direction
    requires c < |db.contacts|
  {
    var owed := OpeningOwed(db.contacts[c], k);
    var account := ControlAccount(db.accounts, b, k);
    if account.None? then Direction(0, 0, 0, owed, owed, 0, [])
    else Breakdown(owed, Invoices(db.txs, b, c, k, account.value), Payments(db.txs, b, c, account.value), today)
  }

  method GetDirection(db: Db, b: BusinessId, c: ContactId, k: Book, today: int) returns (r: Direction)
    requires c < |db.contacts|
    ensures r == DirectionOf(db, b, c, k, today)
  {
    var owed := OpeningOwed(db.contacts[c], k);
    var account := ControlAccount(db.accounts, b, k);
    if account.None? {
      return Direction(0, 0, 0, owed, owed, 0, []);
    }
    InvoiceIdsDistinct(db.txs, b, c, k, account.value);
    r := ComputeDirection(owed, Invoices(db.txs, b, c, k, account.value), Payments(db.txs, b, c, account.value), today);
  }

  // ----- rows and their sums

  ghost predicate IsRowOf(txs: seq<Tx>, i: Invoice, b: BusinessId, c: ContactId, k: Book, a: AccountId) {
    i.id < |txs| && IsInvoiceOf(txs[i.id], b, c, k) && i.original == AmountOnAccount(txs[i.id].entries, a)
      && i.dueDate == txs[i.id].dueDate
  }

  lemma {:induction false} InvoiceRowIds(txs: seq<Tx>, b: BusinessId, c: ContactId, k: Book, a: AccountId)
    ensures forall i :: 0 <= i < |InvoiceRows(txs, b, c, k, a)| ==>
      IsRowOf(txs, InvoiceRows(txs, b, c, k, a)[i].invoice, b, c, k, a)
    ensures IdsDiffer(InvoiceRows(txs, b, c, k, a))
  {
    if txs != [] {
      var n := |txs| - 1;
      InvoiceRowIds(txs[..n], b, c, k, a);
      var earlier := InvoiceRows(txs[..n], b, c, k, a);
      forall i | 0 <= i < |earlier|
        ensures IsRowOf(txs, earlier[i].invoice, b, c, k, a) && earlier[i].invoice.id < n
      {
        assert IsRowOf(txs[..n], earlier[i].invoice, b, c, k, a);
      }
    }
  }

  lemma {:induction false} InvoiceIsListed(txs: seq<Tx>, b: BusinessId, c: ContactId, k: Book, a: AccountId, id: TxId)
    requires id < |txs| && IsInvoiceOf(txs[id], b, c, k)
    ensures ListedRow(txs[id], id, a) in InvoiceRows(txs, b, c, k, a)
  {
    if id < |txs| - 1 {
      InvoiceIsListed(txs[..|txs| - 1], b, c, k, a, id);
    }
  }

  ghost predicate IdsDiffer(rows: seq<DatedInvoice>) {
    forall i, j :: 0 <= i < j < |rows| ==> rows[i].invoice.id != rows[j].invoice.id
  }

  lemma {:induction false} InsertKeepsIdsApart(rows: seq<DatedInvoice>, x: DatedInvoice)
    requires IdsDiffer(rows) && forall r | r in rows :: r.invoice.id != x.invoice.id
    ensures IdsDiffer(Insert(rows, x, InvoiceDate()))
  {
    if rows != [] && InvoiceDate()(rows[|rows| - 1]) > InvoiceDate()(x) {
      var n := |rows| - 1;
      InsertKeepsIdsApart(rows[..n], x);
      InsertKeepsRows(rows[..n], x, InvoiceDate());
      var front := Insert(rows[..n], x, InvoiceDate());
      forall i | 0 <= i < n + 1
        ensures |front| == n + 1 && front[i].invoice.id != rows[n].invoice.id
      {
        assert |multiset(front)| == n + 1;
        assert front[i] in multiset(front);
      }
    }
  }

  lemma {:induction false} SortKeepsIdsApart(rows: seq<DatedInvoice>)
    requires IdsDiffer(rows)
    ensures IdsDiffer(SortByDate(rows, InvoiceDate()))
  {
    if rows != [] {
      var front, x := rows[..|rows| - 1], rows[|rows| - 1];
      SortKeepsIdsApart(front);
      SortKeepsRows(front, InvoiceDate());
      forall r | r in SortByDate(front, InvoiceDate())
        ensures r.invoice.id != x.invoice.id
      {
        assert r in multiset(front);
      }
      InsertKeepsIdsApart(SortByDate(front, InvoiceDate()), x);
    }
  }

  lemma InvoiceIdsDistinct(txs: seq<Tx>, b: BusinessId, c: ContactId, k: Book, a: AccountId)
    ensures DistinctIds(Invoices(txs, b, c, k, a))
  {
    InvoiceRowIds(txs, b, c, k, a);
    SortKeepsIdsApart(InvoiceRows(txs, b, c, k, a));
  }

  /** Every listed invoice is a live one of the contact, with its amount on the book's account. */
  lemma ListedIsInvoice(txs: seq<Tx>, b: BusinessId, c: ContactId, k: Book, a: AccountId, i: Invoice)
    requires i in Invoices(txs, b, c, k, a)
    ensures IsRowOf(txs, i, b, c, k, a)
  {
    var rows := InvoiceRows(txs, b, c, k, a);
    InvoiceRowIds(txs, b, c, k, a);
    SortKeepsRows(rows, InvoiceDate());
    var sorted := SortByDate(rows, InvoiceDate());
    var n :| 0 <= n < |sorted| && sorted[n].invoice == i;
    assert sorted[n] in multiset(rows);
  }

  /** And every live one is listed. */
  lemma InvoiceListed(txs: seq<Tx>, b: BusinessId, c: ContactId, k: Book, a: AccountId, id: TxId)
    requires id < |txs| && IsInvoiceOf(txs[id], b, c, k)
    ensures ListedRow(txs[id], id, a).invoice in Invoices(txs, b, c, k, a)
  {
    var rows := InvoiceRows(txs, b, c, k, a);
    InvoiceIsListed(txs, b, c, k, a, id);
    SortKeepsRows(rows, InvoiceDate());
    var sorted := SortByDate(rows, InvoiceDate());
    assert ListedRow(txs[id], id, a) in multiset(sorted);
    var n :| 0 <= n < |sorted| && sorted[n] == ListedRow(txs[id], id, a);
    assert Undated(sorted)[n] == sorted[n].invoice;
  }

  function InvoicedBy(b: BusinessId, c: ContactId, k: Book, a: AccountId): Tx -> int {
    (t: Tx) => if IsInvoiceOf(t, b, c, k) then AmountOnAccount(t.entries, a) else 0
  }

  function PaidBy(b: BusinessId, c: ContactId, a: AccountId): Tx -> int {
    (t: Tx) => if IsPaymentOf(t, b, c, a) then AmountOnAccount(t.entries, a) else 0
  }

  function PaidToBy(b: BusinessId, c: ContactId, a: AccountId, id: TxId): Tx -> int {
    (t: Tx) => if IsPaymentOf(t, b, c, a) && t.appliedTo == Some(id) then AmountOnAccount(t.entries, a) else 0
  }

  function DatedOriginal(): DatedInvoice -> int {
    (d: DatedInvoice) => d.invoice.original
  }

  lemma {:induction false} UndatedSum(rows: seq<DatedInvoice>)
    ensures SumBy(Undated(rows), OriginalOf()) == SumBy(rows, DatedOriginal())
  {
    if rows != [] {
      assert Undated(rows)[..|rows| - 1] == Undated(rows[..|rows| - 1]);
      UndatedSum(rows[..|rows| - 1]);
    }
  }

  lemma {:induction false} InvoiceRowsSum(txs: seq<Tx>, b: BusinessId, c: ContactId, k: Book, a: AccountId)
    ensures SumBy(InvoiceRows(txs, b, c, k, a), DatedOriginal()) == SumBy(txs, InvoicedBy(b, c, k, a))
  {
    if txs != [] {
      var n := |txs| - 1;
      InvoiceRowsSum(txs[..n], b, c, k, a);
      if IsInvoiceOf(txs[n], b, c, k) {
        SumSnoc(InvoiceRows(txs[..n], b, c, k, a), ListedRow(txs[n], n, a), DatedOriginal());
      }
    }
  }

  /** The total invoiced does not depend on the order invoices are listed in. */
  lemma InvoicedTotal(txs: seq<Tx>, b: BusinessId, c: ContactId, k: Book, a: AccountId)
    ensures SumBy(Invoices(txs, b, c, k, a), OriginalOf()) == SumBy(txs, InvoicedBy(b, c, k, a))
  {
    var rows := InvoiceRows(txs, b, c, k, a);
    UndatedSum(SortByDate(rows, InvoiceDate()));
    SortKeepsRows(rows, InvoiceDate());
    SumPermutation(SortByDate(rows, InvoiceDate()), rows, DatedOriginal());
    InvoiceRowsSum(txs, b, c, k, a);
  }

  lemma {:induction false} PaidTotal(txs: seq<Tx>, b: BusinessId, c: ContactId, a: AccountId)
    ensures SumBy(Payments(txs, b, c, a), PaymentAmount()) == SumBy(txs, PaidBy(b, c, a))
  {
    if txs != [] {
      var t := txs[|txs| - 1];
      PaidTotal(txs[..|txs| - 1], b, c, a);
      if IsPaymentOf(t, b, c, a) {
        SumSnoc(Payments(txs[..|txs| - 1], b, c, a), Pay(AmountOnAccount(t.entries, a), t.appliedTo), PaymentAmount());
      }
    }
  }

  lemma {:induction false} TargetedTotal(txs: seq<Tx>, b: BusinessId, c: ContactId, a: AccountId, id: TxId)
    ensures Targeted(Payments(txs, b, c, a), id) == SumBy(txs, PaidToBy(b, c, a, id))
  {
    if txs != [] {
      var t := txs[|txs| - 1];
      TargetedTotal(txs[..|txs| - 1], b, c, a, id);
      if IsPaymentOf(t, b, c, a) {
        SumSnoc(Payments(txs[..|txs| - 1], b, c, a), Pay(AmountOnAccount(t.entries, a), t.appliedTo), PaidTo(id));
      }
    }
  }

  lemma {:induction false} AmountNonNegative(entries: seq<Entry>, a: AccountId)
    requires forall e | e in entries :: e.amount > 0
    ensures AmountOnAccount(entries, a) >= 0
    ensures a !in Touched(entries) ==> AmountOnAccount(entries, a) == 0
  {
    if entries != [] {
      assert entries == [entries[0]] + entries[1..];
      assert entries[0].account in Touched(entries);
      assert Touched(entries[1..]) <= Touched(entries);
      AmountNonNegative(entries[1..], a);
    }
  }

  lemma {:induction false} PaymentsNonNegative(db: Db, n: nat, b: BusinessId, c: ContactId, a: AccountId)
    requires AllSound(db) && n <= |db.txs|
    ensures forall p | p in Payments(db.txs[..n], b, c, a) :: p.amount >= 0
  {
    if n > 0 {
      assert db.txs[..n][..n - 1] == db.txs[..n - 1];
      PaymentsNonNegative(db, n - 1, b, c, a);
      assert Sound(db, db.txs[n - 1]);
      AmountNonNegative(db.txs[n - 1].entries, a);
    }
  }

  // ----- oldest first, by the postings' own dates

  /** Posting `i` is older: dated earlier, or of the same day and created earlier. */
  predicate Older(txs: seq<Tx>, i: TxId, j: TxId)
    requires i < |txs| && j < |txs|
  {
    txs[i].date < txs[j].date || (txs[i].date == txs[j].date && i < j)
  }

  function InvoiceId(): DatedInvoice -> int {
    (d: DatedInvoice) => d.invoice.id
  }

  ghost predicate IsListedRow(txs: seq<Tx>, d: DatedInvoice, a: AccountId) {
    d.invoice.id < |txs| && d == ListedRow(txs[d.invoice.id], d.invoice.id, a)
  }

  ghost predicate IdsAscend(rows: seq<DatedInvoice>) {
    forall i, j :: 0 <= i < j < |rows| ==> rows[i].invoice.id < rows[j].invoice.id
  }

  lemma {:induction false} InvoiceRowsDated(txs: seq<Tx>, b: BusinessId, c: ContactId, k: Book, a: AccountId)
    ensures forall d | d in InvoiceRows(txs, b, c, k, a) :: IsListedRow(txs, d, a)
    ensures IdsAscend(InvoiceRows(txs, b, c, k, a))
  {
    if txs != [] {
      var n := |txs| - 1;
      InvoiceRowsDated(txs[..n], b, c, k, a);
      var earlier := InvoiceRows(txs[..n], b, c, k, a);
      forall d | d in earlier
        ensures IsListedRow(txs, d, a) && d.invoice.id < n
      {
        assert IsListedRow(txs[..n], d, a);
      }
      forall i | 0 <= i < |earlier|
        ensures earlier[i].invoice.id < n
      {
        assert earlier[i] in earlier;
      }
    }
  }

  lemma SortedByAge(rows: seq<DatedInvoice>, sorted: seq<DatedInvoice>, i: nat, j: nat)
    requires sorted == SortByDate(rows, InvoiceDate()) && i < j < |sorted| && IdsDiffer(sorted)
    requires IdsAscend(rows)
    ensures sorted[i] in rows && sorted[j] in rows
    ensures sorted[i].date < sorted[j].date
      || (sorted[i].date == sorted[j].date && sorted[i].invoice.id < sorted[j].invoice.id)
  {
    forall i, j | 0 <= i < j < |rows|
      ensures InvoiceId()(rows[i]) <= InvoiceId()(rows[j])
    {
    }
    SortIsStable(rows, InvoiceDate(), InvoiceId());
    SortKeepsRows(rows, InvoiceDate());
    assert sorted[i] in multiset(sorted) && sorted[j] in multiset(sorted);
    assert InvoiceDate()(sorted[i]) <= InvoiceDate()(sorted[j]);
  }

  lemma InvoicesByAge(txs: seq<Tx>, b: BusinessId, c: ContactId, k: Book, a: AccountId, i: nat, j: nat)
    requires i < j < |Invoices(txs, b, c, k, a)|
    ensures var listed := Invoices(txs, b, c, k, a);
      listed[i].id < |txs| && listed[j].id < |txs| && Older(txs, listed[i].id, listed[j].id)
  {
    var rows := InvoiceRows(txs, b, c, k, a);
    var sorted := SortByDate(rows, InvoiceDate());
    InvoiceRowsDated(txs, b, c, k, a);
    InvoiceRowIds(txs, b, c, k, a);
    SortKeepsIdsApart(rows);
    SortedByAge(rows, sorted, i, j);
    assert IsListedRow(txs, sorted[i], a) && IsListedRow(txs, sorted[j], a);
  }

  lemma DirectionRows(db: Db, b: BusinessId, c: ContactId, k: Book, today: int, i: nat)
      returns (a: AccountId, paid: int)
    requires c < |db.contacts| && i < |DirectionOf(db, b, c, k, today).rows|
    ensures ControlAccount(db.accounts, b, k) == Some(a) && i < |Invoices(db.txs, b, c, k, a)|
    ensures DirectionOf(db, b, c, k, today).rows[i] == RowFor(Invoices(db.txs, b, c, k, a)[i], paid, today)
  {
    a := ControlAccount(db.accounts, b, k).value;
    var invoices, payments := Invoices(db.txs, b, c, k, a), Payments(db.txs, b, c, a);
    paid := PaidOn(InvoicePool(OpeningOwed(db.contacts[c], k), invoices, payments), invoices, payments, i);
  }

  /** Each row is one live invoice of the contact, a sale they owe for or a purchase we owe for, at its amount
      on the book's account and with its own due date; it is overdue while something is owed past that date. */
  lemma RowIsInvoice(db: Db, b: BusinessId, c: ContactId, k: Book, today: int, i: nat)
    requires c < |db.contacts| && i < |DirectionOf(db, b, c, k, today).rows|
    ensures var row := DirectionOf(db, b, c, k, today).rows[i];
      && row.id < |db.txs| && ControlAccount(db.accounts, b, k).Some?
      && var t := db.txs[row.id];
      && t.business == b && t.contact == Some(c) && t.txType == (if k == Receivable then SaleTx else PurchaseTx)
      && !t.voided && t.reversalOf == None
      && row.original == AmountOnAccount(t.entries, ControlAccount(db.accounts, b, k).value)
      && row.dueDate == t.dueDate
      && row.remaining == Max(0, row.original - row.paid)
      && (row.isOverdue <==> t.dueDate.Some? && t.dueDate.value < today && row.remaining > 0)
  {
    var a, paid := DirectionRows(db, b, c, k, today, i);
    ListedIsInvoice(db.txs, b, c, k, a, Invoices(db.txs, b, c, k, a)[i]);
  }

  /** What an invoice has got beyond the live payments that name it. */
  function Untargeted(db: Db, b: BusinessId, c: ContactId, k: Book, today: int, i: nat): int
    requires c < |db.contacts| && i < |DirectionOf(db, b, c, k, today).rows|
  {
    var row, account := DirectionOf(db, b, c, k, today).rows[i], ControlAccount(db.accounts, b, k);
    if account.None? then 0 else row.paid - SumBy(db.txs, PaidToBy(b, c, account.value, row.id))
  }

  /** The rows come oldest first by the postings' own dates. Money that names no invoice reaches one only if
      nothing of the opening balance is left and every older invoice owes nothing. */
  lemma OlderSettledFirst(db: Db, b: BusinessId, c: ContactId, k: Book, today: int, i: nat, j: nat)
    requires c < |db.contacts| && i < j < |DirectionOf(db, b, c, k, today).rows|
    ensures var d := DirectionOf(db, b, c, k, today);
      && d.rows[i].id < |db.txs| && d.rows[j].id < |db.txs| && Older(db.txs, d.rows[i].id, d.rows[j].id)
      && Untargeted(db, b, c, k, today, j) >= 0
      && (Untargeted(db, b, c, k, today, j) > 0 ==> d.rows[i].remaining == 0 && d.openingRemaining == 0)
  {
    var a := ControlAccount(db.accounts, b, k).value;
    var invoices, payments := Invoices(db.txs, b, c, k, a), Payments(db.txs, b, c, a);
    InvoicesByAge(db.txs, b, c, k, a, i, j);
    TargetedTotal(db.txs, b, c, a, invoices[j].id);
    EarlierTakesFirst(InvoicePool(OpeningOwed(db.contacts[c], k), invoices, payments), invoices, payments, i, j);
  }

  /** The opening balance of the contact, on the side of its sign. */
  lemma OpeningBySide(db: Db, b: BusinessId, c: ContactId, today: int)
    requires c < |db.contacts|
    ensures DirectionOf(db, b, c, Receivable, today).openingOwed == Max(0, db.contacts[c].opening)
    ensures DirectionOf(db, b, c, Payable, today).openingOwed == Max(0, -db.contacts[c].opening)
    ensures forall k: Book :: ControlAccount(db.accounts, b, k).None? ==>
      var d := DirectionOf(db, b, c, k, today);
      && d.openingRemaining == d.openingOwed && d.rows == []
      && d.totalInvoiced == 0 && d.totalPaid == 0 && d.remaining == 0 && d.balance == 0
  {
  }
}
