/** The monthly table's rows, columns and grand total, and when they agree with the category breakdown. */
module MonthlyAgreement {
  import opened Base
  import opened Sorting
  import opened Ledger
  import opened LedgerRuns
  import opened Months
  import opened MonthlyReports

  datatype ReportError = BadRange

  function NameRow(grouped: seq<seq<Group>>, name: string): ReportRow {
    ReportRow(name, Amounts(grouped, name), SumBy(Amounts(grouped, name), Itself()))
  }

  function RowsOf(grouped: seq<seq<Group>>, names: seq<string>): (rows: seq<ReportRow>)
    ensures |rows| == |names|
  {
    seq(|names|, i requires 0 <= i < |names| => NameRow(grouped, names[i]))
  }

  function LargestTotalFirst(): ReportRow -> int {
    (r: ReportRow) => -r.total
  }

  function RowTotal(): ReportRow -> int {
    (r: ReportRow) => r.total
  }

  function AmountAt(m: nat): ReportRow -> int {
    (r: ReportRow) => if m < |r.amounts| then r.amounts[m] else 0
  }

  function ColumnTotals(rows: seq<ReportRow>, months: nat): (totals: seq<int>)
    ensures |totals| == months
  {
    seq(months, m requires 0 <= m < months => SumBy(rows, AmountAt(m)))
  }

  function ReportOf(grouped: seq<seq<Group>>, names: seq<string>): Report {
    var rows := SortByDate(RowsOf(grouped, names), LargestTotalFirst());
    var totals := ColumnTotals(rows, |grouped|);
    Report(rows, totals, SumBy(totals, Itself()))
  }

  /** The names of some month, the empty one left out, each once. */
  ghost predicate IsNames(grouped: seq<seq<Group>>, names: seq<string>) {
    && (forall i, j :: 0 <= i < j < |names| ==> names[i] != names[j])
    && (forall name :: name in names <==> name != "" && exists k :: 0 <= k < |grouped| && HasGroup(grouped[k], name))
  }

  method BuildRows(grouped: seq<seq<Group>>, byName: map<string, seq<int>>, names: seq<string>)
      returns (rows: seq<ReportRow>)
    requires IsTable(grouped, byName, names)
    ensures rows == RowsOf(grouped, names)
  {
    rows := [];
    ghost var all := RowsOf(grouped, names);
    for i := 0 to |names|
      invariant rows == all[..i]
    {
      assert names[i] in names;
      var amounts := byName[names[i]];
      assert all[i] == NameRow(grouped, names[i]);
      rows := rows + [ReportRow(names[i], amounts, SumBy(amounts, Itself()))];
    }
  }

  method BuildTotals(rows: seq<ReportRow>, months: nat) returns (totals: seq<int>)
    ensures totals == ColumnTotals(rows, months)
  {
    totals := [];
    ghost var all := ColumnTotals(rows, months);
    for m := 0 to months
      invariant totals == all[..m]
    {
      assert all[m] == SumBy(rows, AmountAt(m));
      totals := totals + [SumBy(rows, AmountAt(m))];
    }
  }

  ghost predicate MonthQueries(txs: seq<Tx>, s: Scope, bs: seq<Bucket>, grouped: seq<seq<Group>>) {
    |grouped| == |bs| && forall m :: 0 <= m < |bs| ==>
      IsGrouping(Entries(txs, Between(s, bs[m].start, bs[m].end)), grouped[m])
  }

  /** `grouped` is what the query of each month's bucket returned. */
  method GetMonthlyBreakdown(txs: seq<Tx>, s: Scope, from: nat, to: nat, grouped: seq<seq<Group>>)
    returns (names: seq<string>, report: Result<Report, ReportError>)
    requires MonthQueries(txs, s, MonthBuckets(from, to), grouped)
    ensures report.Err? <==> MonthBuckets(from, to) == []
    ensures report.Ok? ==> IsNames(grouped, names) && report.value == ReportOf(grouped, names)
    ensures Reportable(from, to) ==>
      report.Ok? && report.value.total == SumBy(Entries(txs, Between(s, from, to + 1)), Kept(NonEmpty()))
  {
    names := [];
    var buckets := MonthBucketsBetween(from, to);
    RangeIsPartitioned(from, to);
    if |buckets| == 0 {
      return names, Err(BadRange);
    }
    var byName;
    byName, names := FillTable(grouped);
    var rows := BuildRows(grouped, byName, names);
    rows := SortByDate(rows, LargestTotalFirst());
    var totals := BuildTotals(rows, |buckets|);
    RangeTotal(txs, s, from, to, grouped, names);
    return names, Ok(Report(rows, totals, SumBy(totals, Itself())));
  }

  lemma RangeTotal(txs: seq<Tx>, s: Scope, from: nat, to: nat, grouped: seq<seq<Group>>, names: seq<string>)
    requires MonthQueries(txs, s, MonthBuckets(from, to), grouped) && IsNames(grouped, names)
    ensures Reportable(from, to) ==>
      ReportOf(grouped, names).total == SumBy(Entries(txs, Between(s, from, to + 1)), Kept(NonEmpty()))
  {
    if Reportable(from, to) {
      RangeIsPartitioned(from, to);
      MonthlyTotal(Civil(), txs, s, MonthBuckets(from, to), grouped, names, from, to + 1);
    }
  }

  lemma RangeIsPartitioned(from: nat, to: nat)
    ensures Reportable(from, to) <==> Partitions(Civil(), MonthBuckets(from, to), from, to + 1)
  {
    CivilAscends();
    PartitionIff(Civil(), from, to);
  }

  // ----- column totals

  function NameIn(groups: seq<Group>): string -> int {
    (name: string) => NameAmount(groups, name)
  }

  function NameTable(): (string, Group) -> int {
    (name: string, g: Group) => if g.name == name then g.amount else 0
  }

  lemma GroupNamedOnce(names: seq<string>, g: Group)
    requires forall i, j :: 0 <= i < j < |names| ==> names[i] != names[j]
    requires g.name in names <==> g.name != ""
    ensures SumBy(names, Column(g, NameTable())) == KeptGroup(NonEmpty())(g)
  {
    if g.name in names {
      var k :| 0 <= k < |names| && names[k] == g.name;
      SumSingle(names, Column(g, NameTable()), k);
    } else {
      forall i | 0 <= i < |names|
        ensures Column(g, NameTable())(names[i]) == 0
      {
        assert names[i] in names;
      }
      SumZero(names, Column(g, NameTable()));
    }
  }

  lemma NamesCover(names: seq<string>, groups: seq<Group>)
    requires forall i, j :: 0 <= i < j < |names| ==> names[i] != names[j]
    requires forall k :: 0 <= k < |groups| ==> (groups[k].name in names <==> groups[k].name != "")
    ensures SumBy(names, NameIn(groups)) == SumBy(groups, KeptGroup(NonEmpty()))
  {
    SumSwap(names, groups, NameTable());
    forall i | 0 <= i < |names|
      ensures RowSum(groups, NameTable())(names[i]) == NameIn(groups)(names[i])
    {
      SumCong(groups, At(names[i], NameTable()), AmountFor(names[i]));
    }
    SumCong(names, RowSum(groups, NameTable()), NameIn(groups));
    forall k | 0 <= k < |groups|
      ensures ColumnSum(names, NameTable())(groups[k]) == KeptGroup(NonEmpty())(groups[k])
    {
      GroupNamedOnce(names, groups[k]);
    }
    SumCong(groups, ColumnSum(names, NameTable()), KeptGroup(NonEmpty()));
  }

  /** A month's column adds up to that month's groups with a name. */
  lemma ColumnTotal(grouped: seq<seq<Group>>, names: seq<string>, m: nat)
    requires IsNames(grouped, names) && m < |grouped|
    ensures ReportOf(grouped, names).totals[m] == SumBy(grouped[m], KeptGroup(NonEmpty()))
  {
    var rows := RowsOf(grouped, names);
    SortKeepsRows(rows, LargestTotalFirst());
    SumPermutation(SortByDate(rows, LargestTotalFirst()), rows, AmountAt(m));
    SumPairwise(rows, names, AmountAt(m), NameIn(grouped[m]));
    forall k | 0 <= k < |grouped[m]|
      ensures grouped[m][k].name in names <==> grouped[m][k].name != ""
    {
      assert HasGroup(grouped[m], grouped[m][k].name);
    }
    NamesCover(names, grouped[m]);
  }

  // ----- row totals

  function Cell(): (ReportRow, nat) -> int {
    (r: ReportRow, m: nat) => if m < |r.amounts| then r.amounts[m] else 0
  }

  lemma RowTotalSpreads(grouped: seq<seq<Group>>, name: string)
    ensures RowSum<ReportRow, nat>(Range(|grouped|), Cell())(NameRow(grouped, name)) == NameRow(grouped, name).total
  {
    var r := NameRow(grouped, name);
    SumPairwise<int, nat>(r.amounts, Range(|grouped|), Itself(), At<ReportRow, nat>(r, Cell()));
  }

  lemma ColumnSpreads(rows: seq<ReportRow>, m: nat)
    ensures ColumnSum<ReportRow, nat>(rows, Cell())(m) == SumBy(rows, AmountAt(m))
  {
    SumCong(rows, Column<ReportRow, nat>(m, Cell()), AmountAt(m));
  }

  /** The grand total is the same down the rows and across the columns. */
  lemma RowsAndColumnsAgree(grouped: seq<seq<Group>>, names: seq<string>)
    ensures SumBy(ReportOf(grouped, names).rows, RowTotal()) == ReportOf(grouped, names).total
    ensures forall r :: r in ReportOf(grouped, names).rows ==> r.total == SumBy(r.amounts, Itself())
  {
    var report := ReportOf(grouped, names);
    var rows := RowsOf(grouped, names);
    var months := Range(|grouped|);
    SortKeepsRows(rows, LargestTotalFirst());
    forall i | 0 <= i < |report.rows|
      ensures report.rows[i].total == SumBy(report.rows[i].amounts, Itself())
      ensures RowSum<ReportRow, nat>(months, Cell())(report.rows[i]) == report.rows[i].total
    {
      assert report.rows[i] in multiset(rows);
      var k :| 0 <= k < |rows| && rows[k] == report.rows[i];
      RowTotalSpreads(grouped, names[k]);
    }
    SumCong(report.rows, RowSum<ReportRow, nat>(months, Cell()), RowTotal());
    SumSwap<ReportRow, nat>(report.rows, months, Cell());
    forall m | 0 <= m < |months|
      ensures ColumnSum<ReportRow, nat>(report.rows, Cell())(months[m]) == Itself()(report.totals[m])
    {
      ColumnSpreads(report.rows, m);
    }
    SumPairwise<nat, int>(months, report.totals, ColumnSum<ReportRow, nat>(report.rows, Cell()), Itself());
  }

  // ----- months together are the range

  function Part(s: Scope, f: Entry -> int): Tx -> int {
    (t: Tx) => if InScope(s, t) then SumBy(t.entries, f) else 0
  }

  lemma {:induction false} ScopeSum(txs: seq<Tx>, s: Scope, f: Entry -> int)
    ensures SumBy(Entries(txs, s), f) == SumBy(txs, Part(s, f))
  {
    if txs != [] {
      var front, t := txs[..|txs| - 1], txs[|txs| - 1];
      ScopeSum(front, s, f);
      SumConcat(Entries(front, s), t.entries, f);
    }
  }

  function Between(s: Scope, start: int, end: int): Scope {
    s.(start := start, end := end)
  }

  /** Two adjacent stretches hold what the whole stretch holds. */
  lemma StretchesAdd(txs: seq<Tx>, s: Scope, x: int, y: int, z: int, f: Entry -> int)
    requires x <= y <= z
    ensures SumBy(Entries(txs, Between(s, x, z)), f) ==
      SumBy(Entries(txs, Between(s, x, y)), f) + SumBy(Entries(txs, Between(s, y, z)), f)
  {
    ScopeSum(txs, Between(s, x, z), f);
    ScopeSum(txs, Between(s, x, y), f);
    ScopeSum(txs, Between(s, y, z), f);
    SumLinear(txs, Part(Between(s, x, y), f), Part(Between(s, y, z), f), Part(Between(s, x, z), f), 1);
  }

  function InBucket(txs: seq<Tx>, s: Scope, f: Entry -> int): Bucket -> int {
    (b: Bucket) => SumBy(Entries(txs, Between(s, b.start, b.end)), f)
  }

  lemma {:induction false} BucketsAddUp(cal: nat -> nat, txs: seq<Tx>, s: Scope, bs: seq<Bucket>, from: nat, end: nat,
      f: Entry -> int, n: nat)
    requires Partitions(cal, bs, from, end) && 0 < n <= |bs|
    ensures SumBy(bs[..n], InBucket(txs, s, f)) == SumBy(Entries(txs, Between(s, from, bs[n - 1].end)), f)
    ensures from <= bs[n - 1].end
  {
    SumTake(bs, n - 1, InBucket(txs, s, f));
    assert WithinMonth(cal, bs[n - 1]);
    if n > 1 {
      BucketsAddUp(cal, txs, s, bs, from, end, f, n - 1);
      assert Follows(bs[n - 2], bs[n - 1]);
      StretchesAdd(txs, s, from, bs[n - 1].start, bs[n - 1].end, f);
    } else {
      assert bs[..0] == [];
    }
  }

  /** The table's grand total is every entry in the range whose category has a name, once. */
  lemma MonthlyTotal(cal: nat -> nat, txs: seq<Tx>, s: Scope, bs: seq<Bucket>, grouped: seq<seq<Group>>,
      names: seq<string>, from: nat, end: nat)
    requires Partitions(cal, bs, from, end) && MonthQueries(txs, s, bs, grouped) && IsNames(grouped, names)
    ensures ReportOf(grouped, names).total == SumBy(Entries(txs, Between(s, from, end)), Kept(NonEmpty()))
  {
    var totals := ReportOf(grouped, names).totals;
    forall m | 0 <= m < |bs|
      ensures Itself()(totals[m]) == InBucket(txs, s, Kept(NonEmpty()))(bs[m])
    {
      ColumnTotal(grouped, names, m);
      GroupsAddUp(Entries(txs, Between(s, bs[m].start, bs[m].end)), grouped[m], NonEmpty());
    }
    SumPairwise(totals, bs, Itself(), InBucket(txs, s, Kept(NonEmpty())));
    BucketsAddUp(cal, txs, s, bs, from, end, Kept(NonEmpty()), |bs|);
    assert bs[..|bs|] == bs;
  }

  /** Without a wallet filter the table's total and the breakdown's total for the same range agree exactly
      when the entries under the empty category name, which only the breakdown counts, add up to nothing. */
  lemma MonthlyMatchesBreakdownIff(cal: nat -> nat, txs: seq<Tx>, s: Scope, bs: seq<Bucket>, grouped: seq<seq<Group>>,
      names: seq<string>,
      groups: seq<Group>, from: nat, end: nat)
    requires Partitions(cal, bs, from, end) && MonthQueries(txs, s, bs, grouped) && IsNames(grouped, names)
    requires s.wallet.None? && IsGrouping(Entries(txs, Between(s, from, end)), groups)
    ensures ReportOf(grouped, names).total == CategoryBreakdown(groups).0 <==>
      SumBy(Entries(txs, Between(s, from, end)), Kept(Nameless())) == 0
  {
    var es := Entries(txs, Between(s, from, end));
    MonthlyTotal(cal, txs, s, bs, grouped, names, from, end);
    BreakdownIsTrueTotal(es, groups);
    SumLinear(es, Kept(NonEmpty()), Kept(Nameless()), Kept(AnyName()), 1);
  }

  /** On a sound ledger, whose amounts are positive: exactly when no entry in range has the empty name. */
  lemma MatchesIffAllNamed(es: seq<Entry>)
    requires forall i :: 0 <= i < |es| ==> es[i].amount > 0
    ensures SumBy(es, Kept(Nameless())) == 0 <==> !HasCategory(es, "")
  {
    if HasCategory(es, "") {
      var k :| 0 <= k < |es| && es[k].category == Some("");
      SumBoundsTerm(es, Kept(Nameless()), k);
    } else {
      forall i | 0 <= i < |es|
        ensures Kept(Nameless())(es[i]) == 0
      {
        assert es[i].category == Some("") ==> HasCategory(es, "");
      }
      SumZero(es, Kept(Nameless()));
    }
  }

  lemma {:induction false} LedgerAmountsPositive(db: Db, txs: seq<Tx>, s: Scope)
    requires forall i :: 0 <= i < |txs| ==> Sound(db, txs[i])
    ensures forall i :: 0 <= i < |Entries(txs, s)| ==> Entries(txs, s)[i].amount > 0
  {
    if txs != [] {
      LedgerAmountsPositive(db, txs[..|txs| - 1], s);
      var t := txs[|txs| - 1];
      forall i | 0 <= i < |t.entries|
        ensures t.entries[i].amount > 0
      {
        assert t.entries[i] in t.entries;
      }
    }
  }

  /** From a range of days to the two reports: on sound books, for every range that is accepted and starts
      in the year 100 or later, and whatever order the queries return their groups in, the monthly table and
      the breakdown show the same total exactly when no entry in the range is filed under the empty name. */
  lemma RangeTotalsAgreeIff(db: Db, s: Scope, from: nat, to: nat, grouped: seq<seq<Group>>, names: seq<string>,
      groups: seq<Group>)
    requires AllSound(db) && s.wallet.None? && Reportable(from, to)
    requires MonthQueries(db.txs, s, MonthBuckets(from, to), grouped) && IsNames(grouped, names)
    requires IsGrouping(Entries(db.txs, Between(s, from, to + 1)), groups)
    ensures ReportOf(grouped, names).total == CategoryBreakdown(groups).0 <==>
      !HasCategory(Entries(db.txs, Between(s, from, to + 1)), "")
  {
    RangeIsPartitioned(from, to);
    MonthlyMatchesBreakdownIff(Civil(), db.txs, s, MonthBuckets(from, to), grouped, names, groups, from, to + 1);
    LedgerAmountsPositive(db, db.txs, Between(s, from, to + 1));
    MatchesIffAllNamed(Entries(db.txs, Between(s, from, to + 1)));
  }

  // ----- an entry under the empty name

  const OPENED_BOOKS := Db([Account(0, Expense, None, false, false, 0, 0),
    Account(0, Asset, Some("cash"), false, false, 0, 0)], [], [])

  /** 5 spent under the empty category name. */
  function Spending(day: int): PostRequest {
    PostRequest(ExpenseTx, day, None, None, None, None, [Entry(0, Debit, 5, Some("")), Entry(1, Credit, 5, None)],
      false)
  }

  lemma SpendingPosts(day: int)
    ensures JustOpened(OPENED_BOOKS)
    ensures AllSound(Run(OPENED_BOOKS, [Post(0, Spending(day))]))
    ensures Run(OPENED_BOOKS, [Post(0, Spending(day))]).txs == [] + [Posted(0, Spending(day))]
  {
    TwoSidedPosts(OPENED_BOOKS, 0, Spending(day));
    RunKeepsInv(OPENED_BOOKS, [Post(0, Spending(day))]);
    assert [Post(0, Spending(day))][..0] == [];
  }

  /** On books just opened, spend 5 under the empty name on the first day of any range: the two reports over
      that range disagree. */
  lemma EmptyNameSplitsReports(from: nat, to: nat, grouped: seq<seq<Group>>, names: seq<string>, groups: seq<Group>)
    requires Reportable(from, to)
    requires var txs, s := Run(OPENED_BOOKS, [Post(0, Spending(from))]).txs, Scope(0, ExpenseTx, from, to + 1, None);
      && MonthQueries(txs, s, MonthBuckets(from, to), grouped) && IsNames(grouped, names)
      && IsGrouping(Entries(txs, Between(s, from, to + 1)), groups)
    ensures JustOpened(OPENED_BOOKS)
    ensures ReportOf(grouped, names).total != CategoryBreakdown(groups).0
  {
    var s := Scope(0, ExpenseTx, from, to + 1, None);
    SpendingPosts(from);
    var db := Run(OPENED_BOOKS, [Post(0, Spending(from))]);
    EntriesSnoc([], db.txs[0], s);
    assert Entries(db.txs, s)[0].category == Some("");
    RangeTotalsAgreeIff(db, s, from, to, grouped, names, groups);
  }

  lemma EntriesSnoc(txs: seq<Tx>, t: Tx, s: Scope)
    ensures Entries(txs + [t], s) == Entries(txs, s) + if InScope(s, t) then t.entries else []
  {
    assert (txs + [t])[..|txs|] == txs;
  }

  // ----- what the figures count, test by test

  function NamedAmount(name: string): Entry -> int {
    (e: Entry) => if e.category == Some(name) then e.amount else 0
  }

  function CategoryAmount(): Entry -> int {
    (e: Entry) => if e.category != None && e.category != Some("") then e.amount else 0
  }

  function AnyAmount(): Entry -> int {
    (e: Entry) => if e.category != None then e.amount else 0
  }

  /** Some figure of a workspace's live postings of one type, dated from one day up to another that is not
      included, and touching the wallet if one is asked for. */
  function InReport(b: BusinessId, txType: TxType, first: int, end: int, wallet: Option<AccountId>,
      f: Entry -> int): Tx -> int {
    (t: Tx) =>
      if t.business == b && t.txType == txType && !t.voided && t.reversalOf == None && first <= t.date && t.date < end
        && (wallet == None || exists e | e in t.entries :: e.account == wallet.value)
      then SumBy(t.entries, f) else 0
  }

  lemma ReportSum(txs: seq<Tx>, s: Scope, f: Entry -> int)
    ensures SumBy(Entries(txs, s), f) == SumBy(txs, InReport(s.b, s.txType, s.start, s.end, s.wallet, f))
  {
    ScopeSum(txs, s, f);
    forall i | 0 <= i < |txs|
      ensures Part(s, f)(txs[i]) == InReport(s.b, s.txType, s.start, s.end, s.wallet, f)(txs[i])
    {
    }
    SumCong(txs, Part(s, f), InReport(s.b, s.txType, s.start, s.end, s.wallet, f));
  }

  /** The breakdown's total, from the postings: every categorised entry in range. Its list holds the largest
      categories, largest first, ten of them at most and all of them if there are no more. */
  lemma BreakdownFigures(txs: seq<Tx>, s: Scope, groups: seq<Group>)
    requires IsGrouping(Entries(txs, s), groups)
    ensures var (total, top) := CategoryBreakdown(groups);
      && total == SumBy(txs, InReport(s.b, s.txType, s.start, s.end, s.wallet, AnyAmount()))
      && |top| == Min(10, |groups|)
      && (forall i, j :: 0 <= i < j < |top| ==> top[i].amount >= top[j].amount)
      && (forall i :: 0 <= i < |top| ==>
        top[i].amount == SumBy(txs, InReport(s.b, s.txType, s.start, s.end, s.wallet, NamedAmount(top[i].name))))
  {
    var es, top := Entries(txs, s), CategoryBreakdown(groups).1;
    var sorted := SortByDate(groups, LargestFirst());
    BreakdownIsTrueTotal(es, groups);
    SumCong(es, Kept(AnyName()), AnyAmount());
    ReportSum(txs, s, AnyAmount());
    SortOrders(groups, LargestFirst());
    SortKeepsRows(groups, LargestFirst());
    assert |multiset(sorted)| == |multiset(groups)|;
    forall i, j | 0 <= i < j < |top|
      ensures top[i].amount >= top[j].amount
    {
      assert LargestFirst()(sorted[i]) <= LargestFirst()(sorted[j]);
    }
    forall i | 0 <= i < |top|
      ensures top[i].amount == SumBy(txs, InReport(s.b, s.txType, s.start, s.end, s.wallet, NamedAmount(top[i].name)))
    {
      assert sorted[i] in multiset(groups);
      SumCong(es, OfCategory(top[i].name), NamedAmount(top[i].name));
      ReportSum(txs, s, NamedAmount(top[i].name));
    }
  }

  /** The table has one row for each name, largest total first. */
  lemma RowsDescend(grouped: seq<seq<Group>>, names: seq<string>)
    ensures var rows := ReportOf(grouped, names).rows;
      && multiset(rows) == multiset(RowsOf(grouped, names))
      && forall i, j :: 0 <= i < j < |rows| ==> rows[i].total >= rows[j].total
  {
    var rows := ReportOf(grouped, names).rows;
    SortOrders(RowsOf(grouped, names), LargestTotalFirst());
    SortKeepsRows(RowsOf(grouped, names), LargestTotalFirst());
    forall i, j | 0 <= i < j < |rows|
      ensures rows[i].total >= rows[j].total
    {
      assert LargestTotalFirst()(rows[i]) <= LargestTotalFirst()(rows[j]);
    }
  }

  /** A row's amount in a month is what the postings of that month's bucket have under its name. */
  lemma TableFigures(txs: seq<Tx>, s: Scope, bs: seq<Bucket>, grouped: seq<seq<Group>>, names: seq<string>, i: nat)
    requires MonthQueries(txs, s, bs, grouped) && i < |ReportOf(grouped, names).rows|
    ensures ReportOf(grouped, names).rows[i].name in names
      && IsCategoryRow(txs, s, bs, ReportOf(grouped, names).rows[i])
  {
    var all, row := RowsOf(grouped, names), ReportOf(grouped, names).rows[i];
    SortKeepsRows(all, LargestTotalFirst());
    assert row in multiset(all);
    var k :| 0 <= k < |all| && all[k] == row;
    assert row == NameRow(grouped, names[k]);
    RowIsCategory(txs, s, bs, grouped, names[k]);
  }

  ghost predicate IsCategoryRow(txs: seq<Tx>, s: Scope, bs: seq<Bucket>, row: ReportRow) {
    && |row.amounts| == |bs|
    && forall m :: 0 <= m < |bs| ==>
      row.amounts[m] == SumBy(txs, InReport(s.b, s.txType, bs[m].start, bs[m].end, s.wallet, NamedAmount(row.name)))
  }

  lemma RowIsCategory(txs: seq<Tx>, s: Scope, bs: seq<Bucket>, grouped: seq<seq<Group>>, name: string)
    requires MonthQueries(txs, s, bs, grouped)
    ensures IsCategoryRow(txs, s, bs, NameRow(grouped, name))
  {
    forall m | 0 <= m < |bs|
      ensures NameRow(grouped, name).amounts[m] ==
        SumBy(txs, InReport(s.b, s.txType, bs[m].start, bs[m].end, s.wallet, NamedAmount(name)))
    {
      var scope := Between(s, bs[m].start, bs[m].end);
      CellIs(Entries(txs, scope), grouped[m], name);
      SumCong(Entries(txs, scope), OfCategory(name), NamedAmount(name));
      ReportSum(txs, scope, NamedAmount(name));
    }
  }

  lemma CellIs(es: seq<Entry>, groups: seq<Group>, name: string)
    requires IsGrouping(es, groups)
    ensures NameAmount(groups, name) == SumBy(es, OfCategory(name))
  {
    if HasGroup(groups, name) {
      var k :| 0 <= k < |groups| && groups[k].name == name;
      SumSingle(groups, AmountFor(name), k);
    } else {
      SumZero(groups, AmountFor(name));
      forall i | 0 <= i < |es|
        ensures OfCategory(name)(es[i]) == 0
      {
        assert es[i].category == Some(name) ==> HasCategory(es, name);
      }
      SumZero(es, OfCategory(name));
    }
  }

  /** The table's grand total, from the postings: every entry with a category name dated from the first day
      to the last. */
  lemma TableTotal(txs: seq<Tx>, s: Scope, from: nat, to: nat, grouped: seq<seq<Group>>, names: seq<string>)
    requires Reportable(from, to) && MonthQueries(txs, s, MonthBuckets(from, to), grouped) && IsNames(grouped, names)
    ensures ReportOf(grouped, names).total ==
      SumBy(txs, InReport(s.b, s.txType, from, to + 1, s.wallet, CategoryAmount()))
  {
    var scope := Between(s, from, to + 1);
    RangeTotal(txs, s, from, to, grouped, names);
    SumCong(Entries(txs, scope), Kept(NonEmpty()), CategoryAmount());
    ReportSum(txs, scope, CategoryAmount());
  }
}
