/** The loan dashboard and the aging report, and what their totals are totals of. */
module SubledgerReports {
  import opened Base
  import opened Sorting
  import opened Ledger
  import opened Allocation
  import opened Subledger
  import opened SubledgerRuns
  import opened SubledgerAgreement
  import opened SubledgerPayments

  // ----- loan dashboard

  datatype DashboardRow = DashboardRow(contact: ContactId, opening: int, totalReceive: int, totalPayment: int,
      current: int)

  datatype Dashboard = Dashboard(totalDena: int, totalPawna: int, totalPaid: int, totalReceived: int, netBalance: int,
      rows: seq<DashboardRow>)

  function ContactCurrent(db: Db, b: BusinessId, today: int): ContactId -> int {
    (c: ContactId) => if IsContactOf(db, b, c) then CurrentBalance(db, b, c, today) else 0
  }

  function OpeningOf(db: Db, b: BusinessId): ContactId -> int {
    (c: ContactId) => if IsContactOf(db, b, c) then db.contacts[c].opening else 0
  }

  lemma DirectionNonNegative(db: Db, b: BusinessId, c: ContactId, k: Book, today: int)
    requires AllSound(db) && c < |db.contacts|
    ensures DirectionOf(db, b, c, k, today).totalInvoiced >= 0 && DirectionOf(db, b, c, k, today).totalPaid >= 0
    ensures DirectionOf(db, b, c, k, today).balance ==
      DirectionOf(db, b, c, k, today).totalInvoiced - DirectionOf(db, b, c, k, today).totalPaid
  {
    var account := ControlAccount(db.accounts, b, k);
    if account.Some? {
      var a := account.value;
      InvoicedTotal(db.txs, b, c, k, a);
      PaidTotal(db.txs, b, c, a);
      forall i | 0 <= i < |db.txs|
        ensures InvoicedBy(b, c, k, a)(db.txs[i]) >= 0 && PaidBy(b, c, a)(db.txs[i]) >= 0
      {
        assert Sound(db, db.txs[i]);
        AmountNonNegative(db.txs[i].entries, a);
      }
      SumNonNegative(db.txs, InvoicedBy(b, c, k, a));
      SumNonNegative(db.txs, PaidBy(b, c, a));
    }
  }

  /** Money that went out to a contact: lent to them or repaid to them. */
  function PaidOut(db: Db, b: BusinessId, today: int): ContactId -> int {
    (c: ContactId) =>
      if IsContactOf(db, b, c) then DirectionOf(db, b, c, Receivable, today).totalInvoiced + DirectionOf(db, b, c,
        Payable, today).totalPaid else 0
  }

  /** Money that came in from a contact: borrowed from them or collected from them. */
  function TakenIn(db: Db, b: BusinessId, today: int): ContactId -> int {
    (c: ContactId) =>
      if IsContactOf(db, b, c) then DirectionOf(db, b, c, Payable, today).totalInvoiced + DirectionOf(db, b, c,
        Receivable, today).totalPaid else 0
  }

  /** What a contact owes, if they do. */
  function Pawna(db: Db, b: BusinessId, today: int): ContactId -> int {
    (c: ContactId) => if IsContactOf(db, b, c) then Max(0, CurrentBalance(db, b, c, today)) else 0
  }

  /** What is owed to a contact, if it is. */
  function Dena(db: Db, b: BusinessId, today: int): ContactId -> int {
    (c: ContactId) => if IsContactOf(db, b, c) then Max(0, -CurrentBalance(db, b, c, today)) else 0
  }

  predicate HasFigures(db: Db, b: BusinessId, c: ContactId, today: int) {
    IsContactOf(db, b,
      c) && (db.contacts[c].opening != 0 || PaidOut(db, b, today)(c) != 0 || TakenIn(db, b, today)(c) != 0)
  }

  function WithFigures(db: Db, b: BusinessId, today: int): ContactId -> bool {
    (c: ContactId) => HasFigures(db, b, c, today)
  }

  /** The contacts among the first `n` that the dashboard lists. */
  function Listed(db: Db, b: BusinessId, today: int, n: nat): seq<ContactId> {
    Filter<ContactId>(Range(n), WithFigures(db, b, today))
  }

  /** A row's figures are its contact's, and money in and out explain the current balance. */
  ghost predicate IsDashboardRow(db: Db, b: BusinessId, row: DashboardRow, today: int) {
    && IsContactOf(db, b, row.contact)
    && row.opening == db.contacts[row.contact].opening
    && row.totalPayment == PaidOut(db, b, today)(row.contact)
    && row.totalReceive == TakenIn(db, b, today)(row.contact)
    && row.current == CurrentBalance(db, b, row.contact, today)
    && row.current == row.opening + row.totalPayment - row.totalReceive
  }

  ghost predicate RowsAre(db: Db, b: BusinessId, rows: seq<DashboardRow>, contacts: seq<ContactId>, today: int) {
    && |rows| == |contacts|
    && (forall i :: 0 <= i < |rows| ==> rows[i].contact == contacts[i] && IsDashboardRow(db, b, rows[i], today))
  }

  /** A contact's current balance is what went out to them less what came in; so without figures it is 0. */
  lemma FiguresExplain(db: Db, b: BusinessId, c: ContactId, today: int)
    requires AllSound(db) && IsContactOf(db, b, c)
    ensures CurrentBalance(db, b, c, today) ==
      db.contacts[c].opening + PaidOut(db, b, today)(c) - TakenIn(db, b, today)(c)
    ensures !HasFigures(db, b, c, today) ==> CurrentBalance(db, b, c, today) == 0
  {
    DirectionNonNegative(db, b, c, Receivable, today);
    DirectionNonNegative(db, b, c, Payable, today);
  }

  /** The totals over the first `c` contacts. */
  ghost predicate TotalsAre(db: Db, b: BusinessId, today: int, c: nat, dena: int, pawna: int, paid: int,
      received: int) {
    && dena == SumBy<ContactId>(Range(c), Dena(db, b, today))
    && pawna == SumBy<ContactId>(Range(c), Pawna(db, b, today))
    && paid == SumBy<ContactId>(Range(c), PaidOut(db, b, today))
    && received == SumBy<ContactId>(Range(c), TakenIn(db, b, today))
  }

  lemma TotalsOneMore(db: Db, b: BusinessId, today: int, c: nat, dena: int, pawna: int, paid: int, received: int)
    requires TotalsAre(db, b, today, c, dena, pawna, paid, received)
    ensures TotalsAre(db, b, today, c + 1, dena + Dena(db, b, today)(c), pawna + Pawna(db, b, today)(c),
              paid + PaidOut(db, b, today)(c), received + TakenIn(db, b, today)(c))
  {
    RangeSnoc(c);
    SumSnoc<ContactId>(Range(c), c, Dena(db, b, today));
    SumSnoc<ContactId>(Range(c), c, Pawna(db, b, today));
    SumSnoc<ContactId>(Range(c), c, PaidOut(db, b, today));
    SumSnoc<ContactId>(Range(c), c, TakenIn(db, b, today));
  }

  lemma ListedOneMore(db: Db, b: BusinessId, today: int, c: nat)
    ensures Listed(db, b, today, c + 1) == Listed(db, b, today, c) + if HasFigures(db, b, c, today) then [c] else []
  {
    RangeSnoc(c);
    FilterSnoc<ContactId>(Range(c), c, WithFigures(db, b, today));
  }

  /** The net is kept as two totals by sign. */
  lemma NetSplits(db: Db, b: BusinessId, today: int, n: nat)
    ensures SumBy<ContactId>(Range(n), Pawna(db, b, today)) - SumBy<ContactId>(Range(n), Dena(db, b, today)) ==
      SumBy<ContactId>(Range(n), ContactCurrent(db, b, today))
  {
    SumLinear<ContactId>(Range(n), Pawna(db, b, today), Dena(db, b, today), ContactCurrent(db, b, today), -1);
  }

  /** The dashboard of the first `c` contacts. */
  ghost predicate Gathered(db: Db, b: BusinessId, today: int, c: nat, r: Dashboard) {
    && TotalsAre(db, b, today, c, r.totalDena, r.totalPawna, r.totalPaid, r.totalReceived)
    && RowsAre(db, b, r.rows, Listed(db, b, today, c), today)
  }

  function WithRow(r: Dashboard, row: DashboardRow): Dashboard {
    if row.opening == 0 && row.totalPayment == 0 && row.totalReceive == 0 then r
    else Dashboard(r.totalDena + Max(0, -row.current), r.totalPawna + Max(0, row.current),
      r.totalPaid + row.totalPayment,
                   r.totalReceived + row.totalReceive, r.netBalance + row.current, r.rows + [row])
  }

  lemma NoneGathered(db: Db, b: BusinessId, today: int)
    ensures Gathered(db, b, today, 0, Dashboard(0, 0, 0, 0, 0, []))
  {
  }

  lemma ForeignGathered(db: Db, b: BusinessId, today: int, c: nat, r: Dashboard)
    requires Gathered(db, b, today, c, r) && !IsContactOf(db, b, c)
    ensures Gathered(db, b, today, c + 1, r)
  {
    TotalsOneMore(db, b, today, c, r.totalDena, r.totalPawna, r.totalPaid, r.totalReceived);
    ListedOneMore(db, b, today, c);
  }

  lemma FiguresOf(db: Db, b: BusinessId, row: DashboardRow, today: int)
    requires IsDashboardRow(db, b, row, today)
    ensures Dena(db, b, today)(row.contact) == Max(0, -row.current)
      && Pawna(db, b, today)(row.contact) == Max(0, row.current)
    ensures PaidOut(db, b, today)(row.contact) == row.totalPayment
      && TakenIn(db, b, today)(row.contact) == row.totalReceive
    ensures HasFigures(db, b, row.contact, today) <==>
      row.opening != 0 || row.totalPayment != 0 || row.totalReceive != 0
    ensures !HasFigures(db, b, row.contact, today) ==> row.current == 0
  {
  }

  lemma OneMoreGathered(db: Db, b: BusinessId, today: int, r: Dashboard, row: DashboardRow)
    requires Gathered(db, b, today, row.contact, r) && IsDashboardRow(db, b, row, today)
    ensures Gathered(db, b, today, row.contact + 1, WithRow(r, row))
  {
    FiguresOf(db, b, row, today);
    TotalsOneMore(db, b, today, row.contact, r.totalDena, r.totalPawna, r.totalPaid, r.totalReceived);
    ListedOneMore(db, b, today, row.contact);
    RowsOneMore(db, b, r.rows, Listed(db, b, today, row.contact), row, today);
  }

  lemma RowsOneMore(db: Db, b: BusinessId, rows: seq<DashboardRow>, contacts: seq<ContactId>, row: DashboardRow,
      today: int)
    requires RowsAre(db, b, rows, contacts, today) && IsDashboardRow(db, b, row, today)
    ensures RowsAre(db, b, rows + [row], contacts + [row.contact], today)
  {
  }

  /** One contact's two directions and what they come to. */
  method ReadFigures(db: Db, b: BusinessId, c: ContactId, today: int) returns (row: DashboardRow)
    requires AllSound(db) && IsContactOf(db, b, c)
    ensures row.contact == c && IsDashboardRow(db, b, row, today)
  {
    var receivable := GetDirection(db, b, c, Receivable, today);
    var payable := GetDirection(db, b, c, Payable, today);
    FiguresExplain(db, b, c, today);
    var opening := db.contacts[c].opening;
    row := DashboardRow(c, opening, payable.totalInvoiced + receivable.totalPaid,
      receivable.totalInvoiced + payable.totalPaid,
      opening + receivable.balance - payable.balance);
  }

  /** A contact with a figure joins the totals, its balance on the side of its sign, and gets a row. */
  method AddContact(db: Db, b: BusinessId, c: ContactId, today: int, r: Dashboard) returns (r': Dashboard)
    requires AllSound(db) && c < |db.contacts| && Gathered(db, b, today, c, r)
    ensures Gathered(db, b, today, c + 1, r')
  {
    if db.contacts[c].business != b {
      ForeignGathered(db, b, today, c, r);
      return r;
    }
    var row := ReadFigures(db, b, c, today);
    OneMoreGathered(db, b, today, r, row);
    if row.opening == 0 && row.totalPayment == 0 && row.totalReceive == 0 {
      return r;
    }
    var totalDena, totalPawna := r.totalDena, r.totalPawna;
    if row.current > 0 {
      totalPawna := totalPawna + row.current;
    }
    if row.current < 0 {
      totalDena := totalDena + Abs(row.current);
    }
    r' := Dashboard(totalDena, totalPawna, r.totalPaid + row.totalPayment, r.totalReceived + row.totalReceive,
      r.netBalance + row.current, r.rows + [row]);
    assert r' == WithRow(r, row);
  }

  /** Every figure sums over all the workspace's contacts; listed, in order, are exactly those with a figure
      other than zero. */
  method GetLoanDashboard(db: Db, b: BusinessId, today: int) returns (r: Dashboard)
    requires AllSound(db)
    ensures TotalsAre(db, b, today, |db.contacts|, r.totalDena, r.totalPawna, r.totalPaid, r.totalReceived)
    ensures r.netBalance == SumBy<ContactId>(Range(|db.contacts|), ContactCurrent(db, b, today))
    ensures RowsAre(db, b, r.rows, Listed(db, b, today, |db.contacts|), today)
  {
    r := Dashboard(0, 0, 0, 0, 0, []);
    NoneGathered(db, b, today);
    for c := 0 to |db.contacts|
      invariant Gathered(db, b, today, c, r)
    {
      r := AddContact(db, b, c, today, r);
    }
    NetSplits(db, b, today, |db.contacts|);
    r := r.(netBalance := r.totalPawna - r.totalDena);
  }

  /** The listed contacts are the workspace's own with a figure, each once, in the order of the table. */
  lemma {:induction false} ListedIff(db: Db, b: BusinessId, today: int, n: nat)
    ensures forall c: ContactId :: c in Listed(db, b, today, n) <==> c < n && HasFigures(db, b, c, today)
    ensures forall i, j :: 0 <= i < j < |Listed(db, b, today, n)| ==>
      Listed(db, b, today, n)[i] < Listed(db, b, today, n)[j]
  {
    if n > 0 {
      ListedIff(db, b, today, n - 1);
      ListedOneMore(db, b, today, n - 1);
      var before := Listed(db, b, today, n - 1);
      forall i | 0 <= i < |before|
        ensures before[i] < n - 1
      {
        assert before[i] in before;
      }
    }
  }

  /** The dashboard's net is the contacts' openings plus what the control accounts have moved. */
  lemma DashboardAgreesWithControls(db: Db, b: BusinessId, ar: AccountId, ap: AccountId, today: int)
    requires BooksInv(db, b, ar, ap)
    ensures SumBy(Range(|db.contacts|), ContactCurrent(db, b, today)) ==
      SumBy(Range(|db.contacts|), OpeningOf(db, b))
      + (db.accounts[ar].current - db.accounts[ar].opening)
      - (db.accounts[ap].current - db.accounts[ap].opening)
  {
    var n := Range(|db.contacts|);
    ControlAccountsAgree(db, b, ar, ap, today);
    var owing := OwingOf(db, b, today);
    SumLinear<ContactId>(n, OpeningOf(db, b), BookBalance(db, b, Receivable, today), owing, 1);
    SumLinear<ContactId>(n, owing, BookBalance(db, b, Payable, today), ContactCurrent(db, b, today), -1);
  }

  function OwingOf(db: Db, b: BusinessId, today: int): ContactId -> int {
    (c: ContactId) => if IsContactOf(db, b, c) then db.contacts[c].opening + DirectionOf(db, b, c, Receivable,
      today).balance else 0
  }

  // ----- aging

  datatype Bucket = Current | Days1To30 | Days31To60 | Over60

  datatype Buckets = Buckets(current: int, days1To30: int, days31To60: int, over60: int) {
    function Add(bucket: Bucket, amount: int): Buckets {
      match bucket
      case Current => this.(current := current + amount)
      case Days1To30 => this.(days1To30 := days1To30 + amount)
      case Days31To60 => this.(days31To60 := days31To60 + amount)
      case Over60 => this.(over60 := over60 + amount)
    }

    function Plus(other: Buckets): Buckets {
      Buckets(current + other.current, days1To30 + other.days1To30, days31To60 + other.days31To60,
        over60 + other.over60)
    }

    function Total(): int {
      current + days1To30 + days31To60 + over60
    }
  }

  const EMPTY := Buckets(0, 0, 0, 0)

  function BucketFor(dueDate: Option<int>, today: int): Bucket {
    if dueDate.None? || dueDate.value >= today then Current
    else
      var daysOverdue := today - dueDate.value;
      if daysOverdue <= 30 then Days1To30 else if daysOverdue <= 60 then Days31To60 else Over60
  }

  datatype AgingRow = AgingRow(contact: ContactId, buckets: Buckets, total: int, totalInvoiced: int, totalPaid: int)

  datatype AgingReport = AgingReport(buckets: Buckets, rows: seq<AgingRow>)

  predicate InAging(contact: Contact, b: BusinessId, k: Book) {
    contact.business == b && MayBeInvoiced(contact, k)
  }

  function InBucket(bucket: Bucket, today: int): InvoiceRow -> int {
    (r: InvoiceRow) => if BucketFor(r.dueDate, today) == bucket then r.remaining else 0
  }

  /** The unpaid amounts by age, each bucket a sum of its own. */
  function Aged(rows: seq<InvoiceRow>, today: int): Buckets {
    Buckets(SumBy(rows, InBucket(Current, today)), SumBy(rows, InBucket(Days1To30, today)),
            SumBy(rows, InBucket(Days31To60, today)), SumBy(rows, InBucket(Over60, today)))
  }

  lemma AgedTake(rows: seq<InvoiceRow>, i: nat, today: int)
    requires i < |rows|
    ensures Aged(rows[..i + 1], today) ==
      Aged(rows[..i], today).Add(BucketFor(rows[i].dueDate, today), rows[i].remaining)
  {
    SumTake(rows, i, InBucket(Current, today));
    SumTake(rows, i, InBucket(Days1To30, today));
    SumTake(rows, i, InBucket(Days31To60, today));
    SumTake(rows, i, InBucket(Over60, today));
  }

  /** Every unpaid amount is in exactly one bucket. */
  lemma {:induction false} AgedTotal(rows: seq<InvoiceRow>, today: int)
    ensures Aged(rows, today).Total() == SumBy(rows, RemainingColumn())
  {
    if rows != [] {
      var n := |rows| - 1;
      AgedTotal(rows[..n], today);
      AgedTake(rows, n, today);
      assert rows[..n + 1] == rows;
    }
  }

  /** Spreads one contact's unpaid invoices over the buckets, into the row and into the report. */
  method Spread(rows: seq<InvoiceRow>, today: int, report: Buckets) returns (row: Buckets, report': Buckets)
    requires forall i :: 0 <= i < |rows| ==> rows[i].remaining >= 0
    ensures row == Aged(rows, today)
    ensures report' == report.Plus(row)
  {
    row, report' := EMPTY, report;
    for i := 0 to |rows|
      invariant row == Aged(rows[..i], today)
      invariant report' == report.Plus(row)
    {
      AgedTake(rows, i, today);
      var remaining := rows[i].remaining;
      if remaining > 0 {
        var bucket := BucketFor(rows[i].dueDate, today);
        row := row.Add(bucket, remaining);
        report' := report'.Add(bucket, remaining);
      }
    }
    assert rows[..|rows|] == rows;
  }

  /** One row: the contact's unpaid amounts by age, the direction's own `remaining` as its total. */
  function AgingRowOf(db: Db, b: BusinessId, k: Book, c: ContactId, today: int): AgingRow
    requires c < |db.contacts|
  {
    var d := DirectionOf(db, b, c, k, today);
    AgingRow(c, Aged(d.rows, today), d.remaining, d.totalInvoiced, d.totalPaid)
  }

  predicate StillOwes(db: Db, b: BusinessId, k: Book, c: ContactId, today: int)
    requires c < |db.contacts|
  {
    InAging(db.contacts[c], b, k) && DirectionOf(db, b, c, k, today).remaining > 0
  }

  /** The rows of the contacts that still owe something, in table order. */
  function AgingRows(db: Db, b: BusinessId, k: Book, today: int, n: nat): seq<AgingRow>
    requires n <= |db.contacts|
  {
    if n == 0 then []
    else
      var earlier := AgingRows(db, b, k, today, n - 1);
      if StillOwes(db, b, k, n - 1, today) then earlier + [AgingRowOf(db, b, k, n - 1, today)] else earlier
  }

  function SumOfRows(rows: seq<AgingRow>): Buckets {
    if rows == [] then EMPTY else SumOfRows(rows[..|rows| - 1]).Plus(rows[|rows| - 1].buckets)
  }

  lemma RemainingNonNegative(db: Db, b: BusinessId, c: ContactId, k: Book, today: int)
    requires c < |db.contacts|
    ensures var rows := DirectionOf(db, b, c, k, today).rows; forall i :: 0 <= i < |rows| ==> rows[i].remaining >= 0
  {
  }

  method AgeContact(db: Db, b: BusinessId, k: Book, c: ContactId, today: int, report: Buckets)
      returns (row: Option<AgingRow>, report': Buckets)
    requires c < |db.contacts| && InAging(db.contacts[c], b, k)
    ensures row == if StillOwes(db, b, k, c, today) then Some(AgingRowOf(db, b, k, c, today)) else None
    ensures report' == if row.Some? then report.Plus(row.value.buckets) else report
  {
    var breakdown := GetDirection(db, b, c, k, today);
    if breakdown.remaining <= 0 {
      return None, report;
    }
    RemainingNonNegative(db, b, c, k, today);
    var rowBuckets, widened := Spread(breakdown.rows, today, report);
    return Some(AgingRow(c, rowBuckets, breakdown.remaining, breakdown.totalInvoiced, breakdown.totalPaid)), widened;
  }

  /** Lists exactly the contacts that still owe something; the report's buckets are the sums of the rows'. */
  method GetAging(db: Db, b: BusinessId, k: Book, today: int) returns (r: AgingReport)
    ensures r.rows == AgingRows(db, b, k, today, |db.contacts|)
    ensures r.buckets == SumOfRows(r.rows)
  {
    var buckets := EMPTY;
    var rows: seq<AgingRow> := [];
    for c := 0 to |db.contacts|
      invariant rows == AgingRows(db, b, k, today, c)
      invariant buckets == SumOfRows(rows)
    {
      if InAging(db.contacts[c], b, k) {
        var row, buckets' := AgeContact(db, b, k, c, today, buckets);
        if row.Some? {
          assert (rows + [row.value])[..|rows|] == rows;
          rows := rows + [row.value];
        }
        buckets := buckets';
      }
    }
    r := AgingReport(buckets, rows);
  }

  /** In every state a run can reach, an aging row's four buckets add up to the total it shows. */
  lemma AgingRowAddsUp(s: State, b: BusinessId, ar: AccountId, ap: AccountId, k: Book, c: ContactId, today: int)
    requires PaymentsInv(s, b, ar, ap) && c < |s.db.contacts| && StillOwes(s.db, b, k, c, today)
    ensures AgingRowOf(s.db, b, k, c, today).buckets.Total() == AgingRowOf(s.db, b, k, c, today).total
  {
    var a := Control(k, ar, ap);
    var invoices, payments := Invoices(s.db.txs, b, c, k, a), Payments(s.db.txs, b, c, a);
    RowsAreSound(s.db, b, c, k, a);
    NoneOverAppliedFromTargets(s, b, ar, ap, c, k);
    DirectionIsBreakdown(s.db, b, c, k, today, a, OpeningOwed(s.db.contacts[c], k), invoices, payments);
    RowsAddUpIff(OpeningOwed(s.db.contacts[c], k), invoices, payments, today);
    AgedTotal(DirectionOf(s.db, b, c, k, today).rows, today);
  }

  function TotalColumn(): AgingRow -> int {
    (r: AgingRow) => r.total
  }

  lemma {:induction false} RowsAddUp(rows: seq<AgingRow>)
    requires forall i :: 0 <= i < |rows| ==> AddsUp(rows[i])
    ensures SumOfRows(rows).Total() == SumBy(rows, TotalColumn())
  {
    if rows != [] {
      RowsAddUp(rows[..|rows| - 1]);
    }
  }

  predicate AddsUp(row: AgingRow) {
    row.buckets.Total() == row.total
  }

  /** Whose row the `i`th one is. */
  lemma {:induction false} RowOwner(db: Db, b: BusinessId, k: Book, today: int, n: nat, i: nat) returns (c: ContactId)
    requires n <= |db.contacts| && i < |AgingRows(db, b, k, today, n)|
    ensures c < n && StillOwes(db, b, k, c, today) && AgingRows(db, b, k, today, n)[i] == AgingRowOf(db, b, k, c, today)
  {
    if i < |AgingRows(db, b, k, today, n - 1)| {
      c := RowOwner(db, b, k, today, n - 1, i);
    } else {
      c := n - 1;
    }
  }

  /** So the report's four buckets together are the sum of the rows' totals. */
  lemma AgingReportAddsUp(s: State, b: BusinessId, ar: AccountId, ap: AccountId, k: Book, today: int,
      rows: seq<AgingRow>)
    requires PaymentsInv(s, b, ar, ap) && rows == AgingRows(s.db, b, k, today, |s.db.contacts|)
    ensures SumOfRows(rows).Total() == SumBy(rows, TotalColumn())
  {
    forall i | 0 <= i < |rows|
      ensures AddsUp(rows[i])
    {
      var c := RowOwner(s.db, b, k, today, |s.db.contacts|, i);
      AgingRowAddsUp(s, b, ar, ap, k, c, today);
    }
    RowsAddUp(rows);
  }

  // ----- over whole runs

  /** Whatever sequence of sales, purchases, payments, voids and unrelated postings a workspace has gone
      through: control accounts, contacts, dashboard and statements all say the same. */
  lemma RunsAgree(s: State, b: BusinessId, ar: AccountId, ap: AccountId, steps: seq<Step>, today: int)
    requires Fresh(s, b, ar, ap)
    ensures var db := RunSteps(s, b, steps).db;
      && ar < |db.accounts| && ap < |db.accounts|
      && db.accounts[ar].current - db.accounts[ar].opening ==
        SumBy(Range(|db.contacts|), BookBalance(db, b, Receivable, today))
      && db.accounts[ap].current - db.accounts[ap].opening ==
        SumBy(Range(|db.contacts|), BookBalance(db, b, Payable, today))
      && SumBy(Range(|db.contacts|), ContactCurrent(db, b, today)) == SumBy(Range(|db.contacts|), OpeningOf(db, b))
           + (db.accounts[ar].current - db.accounts[ar].opening) - (db.accounts[ap].current - db.accounts[ap].opening)
      && forall c: ContactId, from, statement | IsContactOf(db, b, c) &&
           IsStatement(statement, db.contacts[c].opening, StatementRows(db.txs, c, Controls(db.accounts, b)), from,
             None) ::
             statement.closing == CurrentBalance(db, b, c, today)
  {
    var db := RunSteps(s, b, steps).db;
    RunKeepsTargets(s, b, ar, ap, steps);
    ControlAccountsAgree(db, b, ar, ap, today);
    DashboardAgreesWithControls(db, b, ar, ap, today);
    forall c: ContactId, from, statement | IsContactOf(db, b, c) &&
      IsStatement(statement, db.contacts[c].opening, StatementRows(db.txs, c, Controls(db.accounts, b)), from, None)
      ensures statement.closing == CurrentBalance(db, b, c, today)
    {
      StatementClosesAtBalance(db, b, ar, ap, c, from, statement, today);
    }
  }

  // ----- aging, test by test

  /** Current until the due day is past, then one to thirty days, thirty-one to sixty, and more. */
  lemma BucketByDays(dueDate: Option<int>, today: int)
    ensures BucketFor(dueDate, today) == Current <==> dueDate == None || today <= dueDate.value
    ensures BucketFor(dueDate, today) == Days1To30 <==> dueDate != None && 1 <= today - dueDate.value <= 30
    ensures BucketFor(dueDate, today) == Days31To60 <==> dueDate != None && 31 <= today - dueDate.value <= 60
    ensures BucketFor(dueDate, today) == Over60 <==> dueDate != None && 61 <= today - dueDate.value
  {
  }

  function DueBetween(today: int, least: int, most: int): InvoiceRow -> int {
    (r: InvoiceRow) =>
      if r.dueDate != None && least <= today - r.dueDate.value <= most then r.remaining else 0
  }

  function NotDue(today: int): InvoiceRow -> int {
    (r: InvoiceRow) => if r.dueDate == None || today <= r.dueDate.value then r.remaining else 0
  }

  function LongDue(today: int): InvoiceRow -> int {
    (r: InvoiceRow) => if r.dueDate != None && 61 <= today - r.dueDate.value then r.remaining else 0
  }

  /** A row's four figures are the contact's unpaid amounts by the days they are past due; its total is what
      the direction says remains. */
  lemma AgingRowFigures(db: Db, b: BusinessId, k: Book, c: ContactId, today: int)
    requires c < |db.contacts|
    ensures var row, d := AgingRowOf(db, b, k, c, today), DirectionOf(db, b, c, k, today);
      && row.contact == c && row.total == d.remaining && row.totalInvoiced == d.totalInvoiced
        && row.totalPaid == d.totalPaid
      && row.buckets.current == SumBy(d.rows, NotDue(today))
      && row.buckets.days1To30 == SumBy(d.rows, DueBetween(today, 1, 30))
      && row.buckets.days31To60 == SumBy(d.rows, DueBetween(today, 31, 60))
      && row.buckets.over60 == SumBy(d.rows, LongDue(today))
  {
    var rows := DirectionOf(db, b, c, k, today).rows;
    SumCong(rows, InBucket(Current, today), NotDue(today));
    SumCong(rows, InBucket(Days1To30, today), DueBetween(today, 1, 30));
    SumCong(rows, InBucket(Days31To60, today), DueBetween(today, 31, 60));
    SumCong(rows, InBucket(Over60, today), LongDue(today));
  }

  ghost predicate HasAgingRow(rows: seq<AgingRow>, c: ContactId) {
    exists i :: 0 <= i < |rows| && rows[i].contact == c
  }

  ghost predicate RowsAscend(rows: seq<AgingRow>, n: nat) {
    && (forall i :: 0 <= i < |rows| ==> rows[i].contact < n)
    && (forall i, j :: 0 <= i < j < |rows| ==> rows[i].contact < rows[j].contact)
  }

  /** Rows come in table order, so no contact has two. */
  lemma {:induction false} AgingRowsAscend(db: Db, b: BusinessId, k: Book, today: int, n: nat)
    requires n <= |db.contacts|
    ensures RowsAscend(AgingRows(db, b, k, today, n), n)
  {
    if n > 0 {
      AgingRowsAscend(db, b, k, today, n - 1);
    }
  }

  predicate OwesOn(db: Db, b: BusinessId, k: Book, c: ContactId, today: int)
    requires c < |db.contacts|
  {
    && db.contacts[c].business == b
    && (db.contacts[c].kind == Both || db.contacts[c].kind == if k == Receivable then Customer else Supplier)
    && DirectionOf(db, b, c, k, today).remaining > 0
  }

  /** A contact has a row exactly when it is the workspace's, of the kind the book invoices, and still owes
      something. */
  lemma {:induction false} AgingListsIff(db: Db, b: BusinessId, k: Book, today: int, n: nat, c: ContactId)
    requires n <= |db.contacts| && c < |db.contacts|
    ensures HasAgingRow(AgingRows(db, b, k, today, n), c) <==> c < n && OwesOn(db, b, k, c, today)
  {
    if n > 0 {
      var earlier, rows := AgingRows(db, b, k, today, n - 1), AgingRows(db, b, k, today, n);
      AgingListsIff(db, b, k, today, n - 1, c);
      assert StillOwes(db, b, k, n - 1, today) <==> OwesOn(db, b, k, n - 1, today);
      if HasAgingRow(earlier, c) {
        var i :| 0 <= i < |earlier| && earlier[i].contact == c;
        assert rows[i].contact == c;
      }
      if StillOwes(db, b, k, n - 1, today) {
        assert rows[|earlier|].contact == n - 1;
      }
    }
  }
}
