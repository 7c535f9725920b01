/** Three computations of what contacts owe, over the same postings: the control accounts' balances, the
    contacts' own figures, and the running statement. They agree.
 */
module SubledgerAgreement {
  import opened Base
  import opened Sorting
  import opened Ledger
  import opened LedgerRuns
  import opened TrialBalances
  import opened LedgerPaging
  import opened Subledger
  import opened SubledgerRuns

  // ----- control accounts and contacts

  /** A contact's live movement on one control account. */
  function PerContact(b: BusinessId, a: AccountId): (ContactId, Tx) -> int {
    (c: ContactId, t: Tx) => if IsLive(t) && t.business == b && t.contact == Some(c) then Net(t.entries, a) else 0
  }

  function Sign(k: Book): int {
    if k.Receivable? then 1 else -1
  }

  function Control(k: Book, ar: AccountId, ap: AccountId): AccountId {
    if k.Receivable? then ar else ap
  }

  /** One posting counts in a contact's book for exactly what it moved on the book's account. */
  lemma PostingCounts(db: Db, b: BusinessId, ar: AccountId, ap: AccountId, k: Book, c: ContactId, i: nat)
    requires BooksInv(db, b, ar, ap) && i < |db.txs|
    ensures var a, t := Control(k, ar, ap), db.txs[i];
      InvoicedBy(b, c, k, a)(t) + -1 * PaidBy(b, c, a)(t) == Sign(k) * PerContact(b, a)(c, t)
  {
    var t, a := db.txs[i], Control(k, ar, ap);
    if IsLive(t) {
      assert Shaped(t, b, ar, ap);
      assert Sound(db, t);
      AmountNonNegative(t.entries, a);
    }
  }

  /** A contact's balance in a book is their live movement on its control account. */
  lemma ContactBalance(db: Db, b: BusinessId, ar: AccountId, ap: AccountId, k: Book, c: ContactId, today: int)
    requires BooksInv(db, b, ar, ap) && c < |db.contacts|
    ensures DirectionOf(db, b, c, k, today).balance ==
      Sign(k) * SumBy(db.txs, At<ContactId, Tx>(c, PerContact(b, Control(k, ar, ap))))
  {
    var a := Control(k, ar, ap);
    var mine := At<ContactId, Tx>(c, PerContact(b, a));
    InvoicedTotal(db.txs, b, c, k, a);
    PaidTotal(db.txs, b, c, a);
    forall i | 0 <= i < |db.txs|
      ensures InvoicedBy(b, c, k, a)(db.txs[i]) == PaidBy(b, c, a)(db.txs[i]) + Sign(k) * mine(db.txs[i])
    {
      PostingCounts(db, b, ar, ap, k, c, i);
    }
    SumLinear(db.txs, PaidBy(b, c, a), mine, InvoicedBy(b, c, k, a), Sign(k));
  }

  /** Every live posting on a control account belongs to one contact of the workspace. */
  lemma PostingHasContact(db: Db, b: BusinessId, ar: AccountId, ap: AccountId, k: Book, i: nat)
    requires BooksInv(db, b, ar, ap) && i < |db.txs|
    ensures SumBy(Range(|db.contacts|), Column<ContactId, Tx>(db.txs[i], PerContact(b, Control(k, ar, ap)))) ==
      LiveOnly(TxNet(Control(k, ar, ap)))(db.txs[i])
  {
    var t, a := db.txs[i], Control(k, ar, ap);
    var f := Column<ContactId, Tx>(t, PerContact(b, a));
    assert Sound(db, t);
    if IsLive(t) && a in Touched(t.entries) {
      assert Shaped(t, b, ar, ap);
      SumSingle<ContactId>(Range(|db.contacts|), f, t.contact.value);
    } else {
      if IsLive(t) {
        NetZeroOffPosting(t.entries, a);
      }
      SumZero<ContactId>(Range(|db.contacts|), f);
    }
  }

  function BookBalance(db: Db, b: BusinessId, k: Book, today: int): ContactId -> int {
    (c: ContactId) => if IsContactOf(db, b, c) then DirectionOf(db, b, c, k, today).balance else 0
  }

  lemma ContactsOfOthers(db: Db, b: BusinessId, a: AccountId, c: ContactId)
    requires AllSound(db) && c < |db.contacts| && db.contacts[c].business != b
    ensures SumBy(db.txs, At<ContactId, Tx>(c, PerContact(b, a))) == 0
  {
    forall i | 0 <= i < |db.txs|
      ensures At<ContactId, Tx>(c, PerContact(b, a))(db.txs[i]) == 0
    {
      assert Sound(db, db.txs[i]);
    }
    SumZero(db.txs, At<ContactId, Tx>(c, PerContact(b, a)));
  }

  /** Live movement of a control account, contact by contact. */
  lemma ControlMovement(db: Db, b: BusinessId, ar: AccountId, ap: AccountId, k: Book, today: int)
    requires BooksInv(db, b, ar, ap)
    ensures SumBy(Range(|db.contacts|), BookBalance(db, b, k, today)) ==
      Sign(k) * SumBy(db.txs, LiveOnly(TxNet(Control(k, ar, ap))))
  {
    var a, n := Control(k, ar, ap), |db.contacts|;
    var f := PerContact(b, a);
    SumSwap<ContactId, Tx>(Range(n), db.txs, f);
    forall i | 0 <= i < |db.txs|
      ensures ColumnSum<ContactId, Tx>(Range(n), f)(db.txs[i]) == LiveOnly(TxNet(a))(db.txs[i])
    {
      PostingHasContact(db, b, ar, ap, k, i);
    }
    SumCong(db.txs, ColumnSum<ContactId, Tx>(Range(n), f), LiveOnly(TxNet(a)));
    forall c | 0 <= c < n
      ensures BookBalance(db, b, k, today)(Range(n)[c]) == Sign(k) * RowSum<ContactId, Tx>(db.txs, f)(Range(n)[c])
    {
      if db.contacts[c].business == b {
        ContactBalance(db, b, ar, ap, k, c, today);
      } else {
        ContactsOfOthers(db, b, a, c);
      }
    }
    SumScale<ContactId>(Range(n), RowSum<ContactId, Tx>(db.txs, f), BookBalance(db, b, k, today), Sign(k));
  }

  /** The control accounts agree with the contacts: what Accounts Receivable has moved since it was opened
      is what all contacts owe, and the same for Accounts Payable. */
  lemma ControlAccountsAgree(db: Db, b: BusinessId, ar: AccountId, ap: AccountId, today: int)
    requires BooksInv(db, b, ar, ap)
    ensures db.accounts[ar].current - db.accounts[ar].opening ==
      SumBy(Range(|db.contacts|), BookBalance(db, b, Receivable, today))
    ensures db.accounts[ap].current - db.accounts[ap].opening ==
      SumBy(Range(|db.contacts|), BookBalance(db, b, Payable, today))
  {
    ControlMovement(db, b, ar, ap, Receivable, today);
    ControlMovement(db, b, ar, ap, Payable, today);
    BalanceIsLiveBalance(db, ar);
    BalanceIsLiveBalance(db, ap);
  }

  /** Opening balance plus receivables minus payables: positive when the contact owes us. */
  function CurrentBalance(db: Db, b: BusinessId, c: ContactId, today: int): int
    requires c < |db.contacts|
  {
    db.contacts[c].opening + DirectionOf(db, b, c, Receivable, today).balance - DirectionOf(db, b, c, Payable,
      today).balance
  }

  // ----- the statement

  function RowIfIn(e: Entry, p: AccountId -> bool, tx: TxId, date: int): seq<EntryRow> {
    if p(e.account) then [EntryRow(tx, date, e.side, e.amount)] else []
  }

  function EntriesIn(entries: seq<Entry>, p: AccountId -> bool, tx: TxId, date: int): seq<EntryRow> {
    if entries == [] then []
      else EntriesIn(entries[..|entries| - 1], p, tx, date) + RowIfIn(entries[|entries| - 1], p, tx, date)
  }

  /** Every entry a contact has on the given accounts, voided postings and reversals included. */
  function StatementRows(txs: seq<Tx>, c: ContactId, p: AccountId -> bool): seq<EntryRow> {
    if txs == [] then []
    else
      var n := |txs| - 1;
      var earlier := StatementRows(txs[..n], c, p);
      if txs[n].contact == Some(c) then earlier + EntriesIn(txs[n].entries, p, n, txs[n].date) else earlier
  }

  function Controls(accounts: seq<Account>, b: BusinessId): AccountId -> bool {
    (a: AccountId) => ControlAccount(accounts, b, Receivable) == Some(a) || ControlAccount(accounts, b, Payable) ==
      Some(a)
  }

  /** One rule for both accounts: a debit moves the balance up, a credit down. */
  function Delta(): EntryRow -> int {
    RowDelta(true)
  }

  datatype Statement = Statement(opening: int, broughtForward: int, lines: seq<LedgerLine>, closing: int)

  method GetLoanStatement(db: Db, b: BusinessId, c: ContactId, from: Option<int>, to: Option<int>)
      returns (r: Option<Statement>)
    ensures r.Some? <==> IsContactOf(db, b, c)
    ensures r.Some? ==>
      IsStatement(r.value, db.contacts[c].opening, StatementRows(db.txs, c, Controls(db.accounts, b)), from, to)
  {
    if !IsContactOf(db, b, c) {
      return None;
    }
    var rows := StatementRows(db.txs, c, Controls(db.accounts, b));
    var balanceBroughtForward := db.contacts[c].opening;
    var prior := Prior(rows, from);
    for k := 0 to |prior|
      invariant balanceBroughtForward == db.contacts[c].opening + SumBy(prior[..k], Delta())
    {
      SumTake(prior, k, Delta());
      balanceBroughtForward := balanceBroughtForward + if prior[k].side.Debit? then prior[k].amount
        else -prior[k].amount;
    }
    assert prior[..|prior|] == prior;
    var shown := Displayed(rows, from, to);
    var lines := RunningLines(true, balanceBroughtForward, shown);
    assert shown[..|shown|] == shown;
    var closing := if |lines| > 0 then lines[|lines| - 1].running else balanceBroughtForward;
    return Some(Statement(db.contacts[c].opening, balanceBroughtForward, lines, closing));
  }

  /** A statement brings forward everything dated before the range and runs through the range in order. */
  ghost predicate IsStatement(s: Statement, opening: int, rows: seq<EntryRow>, from: Option<int>, to: Option<int>) {
    var shown := Displayed(rows, from, to);
    && s.opening == opening
    && s.broughtForward == opening + SumBy(Prior(rows, from), Delta())
    && |s.lines| == |shown|
    && (forall i :: 0 <= i < |shown| ==>
      s.lines[i] == LedgerLine(shown[i], s.broughtForward + SumBy(shown[..i + 1], Delta())))
    && s.closing == s.broughtForward + SumBy(shown, Delta())
  }

  function StatementNet(c: ContactId, p: AccountId -> bool): Tx -> int {
    (t: Tx) => if t.contact == Some(c) then SumBy(t.entries, EntryWithin(p)) else 0
  }

  lemma {:induction false} EntriesInSum(entries: seq<Entry>, p: AccountId -> bool, tx: TxId, date: int)
    ensures SumBy(EntriesIn(entries, p, tx, date), Delta()) == SumBy(entries, EntryWithin(p))
  {
    if entries != [] {
      var front, e := entries[..|entries| - 1], entries[|entries| - 1];
      EntriesInSum(front, p, tx, date);
      SumConcat(EntriesIn(front, p, tx, date), RowIfIn(e, p, tx, date), Delta());
      assert SumBy(RowIfIn(e, p, tx, date), Delta()) == EntryWithin(p)(e);
    }
  }

  lemma {:induction false} StatementRowsSum(txs: seq<Tx>, c: ContactId, p: AccountId -> bool)
    ensures SumBy(StatementRows(txs, c, p), Delta()) == SumBy(txs, StatementNet(c, p))
  {
    if txs != [] {
      var n := |txs| - 1;
      StatementRowsSum(txs[..n], c, p);
      if txs[n].contact == Some(c) {
        EntriesInSum(txs[n].entries, p, n, txs[n].date);
        SumConcat(StatementRows(txs[..n], c, p), EntriesIn(txs[n].entries, p, n, txs[n].date), Delta());
      }
    }
  }

  lemma FlippedWithin(entries: seq<Entry>, p: AccountId -> bool)
    ensures SumBy(Flipped(entries), EntryWithin(p)) == -SumBy(entries, EntryWithin(p))
  {
    forall e: Entry
      ensures EntryWithin(p)(FlipEntry(e)) == -EntryWithin(p)(e)
    {
      var flipped := FlipEntry(e);
      assert flipped.account == e.account && Signed(flipped) == -Signed(e);
      assert EntryWithin(p)(flipped) == if p(flipped.account) then Signed(flipped) else 0;
    }
    SumFlipped(entries, EntryWithin(p));
  }

  lemma StatementNetCancels(c: ContactId, p: AccountId -> bool)
    ensures Cancelling(StatementNet(c, p))
  {
    forall r: Tx, t: Tx | MirrorOf(r, t)
      ensures StatementNet(c, p)(r) == -StatementNet(c, p)(t)
    {
      FlippedWithin(t.entries, p);
    }
  }

  /** Without a last day, a statement closes at the opening balance plus every one of its rows. */
  lemma OpenStatementSum(s: Statement, opening: int, rows: seq<EntryRow>, from: Option<int>)
    requires IsStatement(s, opening, rows, from, None)
    ensures s.closing == opening + SumBy(rows, Delta())
  {
    var h := History(rows);
    var lo := PriorIsPrefix(rows, from);
    DisplayedIsStretch(rows, from, None);
    SumPermutation(Prior(rows, from), h[..lo], Delta());
    assert Displayed(rows, from, None) == h[lo..];
    HistorySum(rows, lo);
  }

  lemma HistorySum(rows: seq<EntryRow>, lo: nat)
    requires lo <= |History(rows)|
    ensures SumBy(History(rows)[..lo], Delta()) + SumBy(History(rows)[lo..], Delta()) == SumBy(rows, Delta())
  {
    var h := History(rows);
    assert h == h[..lo] + h[lo..];
    SumConcat(h[..lo], h[lo..], Delta());
    SortKeepsRows(rows, DateOf());
    SumPermutation(h, rows, Delta());
  }

  lemma WithinControls(entries: seq<Entry>, p: AccountId -> bool, ar: AccountId, ap: AccountId)
    requires ar != ap && forall a :: p(a) <==> a == ar || a == ap
    ensures SumBy(entries, EntryWithin(p)) == Net(entries, ar) + Net(entries, ap)
  {
    SumLinear(entries, EntryNet(ar), EntryNet(ap), EntryWithin(p), 1);
  }

  lemma LiveStatementIsContact(db: Db, b: BusinessId, ar: AccountId, ap: AccountId, c: ContactId)
    requires BooksInv(db, b, ar, ap) && IsContactOf(db, b, c)
    ensures SumBy(db.txs, LiveOnly(StatementNet(c, Controls(db.accounts, b)))) ==
      SumBy(db.txs, At<ContactId, Tx>(c, PerContact(b, ar))) + SumBy(db.txs, At<ContactId, Tx>(c, PerContact(b, ap)))
  {
    var p := Controls(db.accounts, b);
    assert forall a :: p(a) <==> a == ar || a == ap;
    var onAr, onAp := At<ContactId, Tx>(c, PerContact(b, ar)), At<ContactId, Tx>(c, PerContact(b, ap));
    AccountsApart(db, b, ar, ap);
    forall i | 0 <= i < |db.txs|
      ensures LiveOnly(StatementNet(c, p))(db.txs[i]) == onAr(db.txs[i]) + 1 * onAp(db.txs[i])
    {
      assert Sound(db, db.txs[i]);
      WithinControls(db.txs[i].entries, p, ar, ap);
    }
    SumLinear(db.txs, onAr, onAp, LiveOnly(StatementNet(c, p)), 1);
  }

  /** The statement, which runs over every entry with one sign rule, closes at the balance the contact's
      typed, live invoices and payments give, from whatever day it starts. */
  lemma StatementClosesAtBalance(db: Db, b: BusinessId, ar: AccountId, ap: AccountId, c: ContactId, from: Option<int>,
      s: Statement, today: int)
    requires BooksInv(db, b, ar, ap) && IsContactOf(db, b, c)
    requires IsStatement(s, db.contacts[c].opening, StatementRows(db.txs, c, Controls(db.accounts, b)), from, None)
    ensures s.closing == CurrentBalance(db, b, c, today)
  {
    var p := Controls(db.accounts, b);
    OpenStatementSum(s, db.contacts[c].opening, StatementRows(db.txs, c, p), from);
    StatementRowsSum(db.txs, c, p);
    StatementNetCancels(c, p);
    VoidsCancel(db.txs, StatementNet(c, p));
    LiveStatementIsContact(db, b, ar, ap, c);
    ContactBalance(db, b, ar, ap, Receivable, c, today);
    ContactBalance(db, b, ar, ap, Payable, c, today);
  }

  // ----- which entries a statement shows, by the postings' own dates

  function IsEntryIn(p: AccountId -> bool, side: Side, amount: int): Entry -> int {
    (e: Entry) => if p(e.account) && e.side == side && e.amount == amount then 1 else 0
  }

  lemma {:induction false} EntriesInCount(entries: seq<Entry>, p: AccountId -> bool, tx: TxId, date: int, r: EntryRow)
    ensures multiset(EntriesIn(entries, p, tx, date))[r] ==
      if r.tx == tx && r.date == date then SumBy(entries, IsEntryIn(p, r.side, r.amount)) else 0
  {
    if entries != [] {
      EntriesInCount(entries[..|entries| - 1], p, tx, date, r);
    }
  }

  /** How often posting `r.tx`, if it is the contact's and of the row's date, has an entry like row `r` on one
      of the accounts. */
  function OnContactPosting(txs: seq<Tx>, c: ContactId, p: AccountId -> bool, r: EntryRow): int {
    if r.tx < |txs| && txs[r.tx].contact == Some(c) && txs[r.tx].date == r.date
    then SumBy(txs[r.tx].entries, IsEntryIn(p, r.side, r.amount)) else 0
  }

  lemma {:induction false} StatementRowsCount(txs: seq<Tx>, c: ContactId, p: AccountId -> bool, r: EntryRow)
    ensures multiset(StatementRows(txs, c, p))[r] == OnContactPosting(txs, c, p, r)
  {
    if txs != [] {
      var n := |txs| - 1;
      StatementRowsCount(txs[..n], c, p, r);
      EntriesInCount(txs[n].entries, p, n, txs[n].date, r);
    }
  }

  /** The rows a statement's lines show. */
  function ShownRows(lines: seq<LedgerLine>): (rows: seq<EntryRow>)
    ensures |rows| == |lines| && forall i :: 0 <= i < |rows| ==> rows[i] == lines[i].row
  {
    seq(|lines|, i requires 0 <= i < |lines| => lines[i].row)
  }

  /** A statement shows each entry of the contact on the two control accounts as often as its posting has it
      when that is dated in the range, first and last day included, and not at all otherwise. */
  lemma StatementShowsIff(db: Db, b: BusinessId, c: ContactId, from: Option<int>, to: Option<int>, s: Statement,
      r: EntryRow)
    requires c < |db.contacts|
    requires IsStatement(s, db.contacts[c].opening, StatementRows(db.txs, c, Controls(db.accounts, b)), from, to)
    ensures multiset(ShownRows(s.lines))[r] ==
      if DayIn(r.date, from, to) then OnContactPosting(db.txs, c, Controls(db.accounts, b), r) else 0
  {
    var rows := StatementRows(db.txs, c, Controls(db.accounts, b));
    assert ShownRows(s.lines) == Displayed(rows, from, to);
    StatementRowsCount(db.txs, c, Controls(db.accounts, b), r);
    FilterCounts(rows, Within(from, to), r);
    SortKeepsRows(Filter(rows, Within(from, to)), DateOf());
  }

  /** The contact's signed entries on the accounts, of postings some test lets through. */
  function ContactNetWhere(c: ContactId, p: AccountId -> bool, test: int -> bool): Tx -> int {
    (t: Tx) => if t.contact == Some(c) && test(t.date) then SumBy(t.entries, EntryWithin(p)) else 0
  }

  lemma {:induction false} EntriesInDated(entries: seq<Entry>, p: AccountId -> bool, tx: TxId, date: int,
      test: int -> bool)
    ensures Filter(EntriesIn(entries, p, tx, date), Passing(test)) ==
      if test(date) then EntriesIn(entries, p, tx, date) else []
  {
    var rows := EntriesIn(entries, p, tx, date);
    forall i | 0 <= i < |rows|
      ensures rows[i].date == date
    {
      EntriesInCount(entries, p, tx, date, rows[i]);
      assert multiset(rows)[rows[i]] > 0;
    }
    if test(date) {
      FilterAll(rows, Passing(test));
    } else {
      FilterNone(rows, Passing(test));
    }
  }

  lemma {:induction false} StatementWhereSum(txs: seq<Tx>, c: ContactId, p: AccountId -> bool, test: int -> bool)
    ensures SumBy(Filter(StatementRows(txs, c, p), Passing(test)), Delta()) ==
      SumBy(txs, ContactNetWhere(c, p, test))
  {
    if txs != [] {
      var n := |txs| - 1;
      StatementWhereSum(txs[..n], c, p, test);
      if txs[n].contact == Some(c) {
        var front, last := StatementRows(txs[..n], c, p), EntriesIn(txs[n].entries, p, n, txs[n].date);
        FilterConcat(front, last, Passing(test));
        EntriesInDated(txs[n].entries, p, n, txs[n].date, test);
        EntriesInSum(txs[n].entries, p, n, txs[n].date);
        SumConcat(Filter(front, Passing(test)), Filter(last, Passing(test)), Delta());
      }
    }
  }

  /** A statement brings forward the contact's opening balance and everything dated before the first day, and
      closes at that plus everything dated up to the last day: debits on the two control accounts less
      credits. */
  lemma StatementClosesAt(db: Db, b: BusinessId, c: ContactId, from: Option<int>, to: Option<int>, s: Statement)
    requires c < |db.contacts|
    requires IsStatement(s, db.contacts[c].opening, StatementRows(db.txs, c, Controls(db.accounts, b)), from, to)
    ensures var p := Controls(db.accounts, b);
      && s.broughtForward == db.contacts[c].opening + SumBy(db.txs, ContactNetWhere(c, p, BroughtIn(from)))
      && s.closing == db.contacts[c].opening + SumBy(db.txs, ContactNetWhere(c, p, Counted(from, to)))
  {
    var p := Controls(db.accounts, b);
    PriorAndDisplayed(StatementRows(db.txs, c, p), from, to, Delta());
    StatementWhereSum(db.txs, c, p, BroughtIn(from));
    StatementWhereSum(db.txs, c, p, Counted(from, to));
  }

  lemma {:induction false} StatementRowsInOrder(txs: seq<Tx>, c: ContactId, p: AccountId -> bool)
    ensures forall r | r in StatementRows(txs, c, p) :: r.tx < |txs|
    ensures forall i, j :: 0 <= i < j < |StatementRows(txs, c, p)| ==>
      TxOf()(StatementRows(txs, c, p)[i]) <= TxOf()(StatementRows(txs, c, p)[j])
  {
    if txs != [] {
      var n := |txs| - 1;
      StatementRowsInOrder(txs[..n], c, p);
      var front, last := StatementRows(txs[..n], c, p), EntriesIn(txs[n].entries, p, n, txs[n].date);
      forall r | r in last
        ensures r.tx == n
      {
        EntriesInCount(txs[n].entries, p, n, txs[n].date, r);
        assert multiset(last)[r] > 0;
      }
      forall i | 0 <= i < |front|
        ensures TxOf()(front[i]) < n
      {
        assert front[i] in front;
      }
      forall i | 0 <= i < |last|
        ensures TxOf()(last[i]) == n
      {
        assert last[i] in last;
      }
    }
  }

  lemma {:induction false} FilterKeepsRank(xs: seq<EntryRow>, q: EntryRow -> bool)
    requires forall i, j :: 0 <= i < j < |xs| ==> TxOf()(xs[i]) <= TxOf()(xs[j])
    ensures forall i, j :: 0 <= i < j < |Filter(xs, q)| ==> TxOf()(Filter(xs, q)[i]) <= TxOf()(Filter(xs, q)[j])
  {
    if xs != [] {
      var n := |xs| - 1;
      FilterKeepsRank(xs[..n], q);
      var front := Filter(xs[..n], q);
      forall i | 0 <= i < |front|
        ensures TxOf()(front[i]) <= TxOf()(xs[n])
      {
        FilterMember(xs[..n], q, front[i]);
        var k :| 0 <= k < n && xs[k] == front[i];
      }
    }
  }

  /** The lines come by the day, and within one day in the order the postings were made. */
  lemma StatementInOrder(db: Db, b: BusinessId, c: ContactId, from: Option<int>, to: Option<int>, s: Statement)
    requires c < |db.contacts|
    requires IsStatement(s, db.contacts[c].opening, StatementRows(db.txs, c, Controls(db.accounts, b)), from, to)
    ensures OrderedWithin(ShownRows(s.lines), DateOf(), TxOf())
  {
    var rows := StatementRows(db.txs, c, Controls(db.accounts, b));
    assert ShownRows(s.lines) == Displayed(rows, from, to);
    StatementRowsInOrder(db.txs, c, Controls(db.accounts, b));
    FilterKeepsRank(rows, Within(from, to));
    SortIsStable(Filter(rows, Within(from, to)), DateOf(), TxOf());
  }
}
