/** The paged account ledger: a page's running balances are the account's true history. */
module LedgerPaging {
  import opened Base
  import opened Ledger
  import opened Sorting

  datatype EntryRow = EntryRow(tx: TxId, date: int, side: Side, amount: int)

  datatype LedgerLine = LedgerLine(row: EntryRow, running: int)

  datatype LedgerPage = LedgerPage(broughtForward: int, lines: seq<LedgerLine>, closing: int, total: nat)

  function RowIfOn(e: Entry, a: AccountId, tx: TxId, date: int): seq<EntryRow> {
    if e.account == a then [EntryRow(tx, date, e.side, e.amount)] else []
  }

  function EntriesOn(entries: seq<Entry>, a: AccountId, tx: TxId, date: int): seq<EntryRow> {
    if entries == [] then []
    else EntriesOn(entries[..|entries| - 1], a, tx, date) + RowIfOn(entries[|entries| - 1], a, tx, date)
  }

  /** Every entry on an account, in creation order. */
  function AccountRows(txs: seq<Tx>, a: AccountId): seq<EntryRow> {
    if txs == [] then []
    else AccountRows(txs[..|txs| - 1], a) + EntriesOn(txs[|txs| - 1].entries, a, |txs| - 1, txs[|txs| - 1].date)
  }

  function DateOf(): EntryRow -> int {
    (r: EntryRow) => r.date
  }

  /** The account's whole history, oldest first. */
  function History(rows: seq<EntryRow>): seq<EntryRow> {
    SortByDate(rows, DateOf())
  }

  function RowDelta(debitPositive: bool): EntryRow -> int {
    (r: EntryRow) => if r.side.Debit? == debitPositive then r.amount else -r.amount
  }

  /** The balance after the first `k` entries of the history. */
  function BalanceAfter(account: Account, rows: seq<EntryRow>, k: nat): int
    requires k <= |History(rows)|
  {
    account.opening + SumBy(History(rows)[..k], RowDelta(IsDebitPositive(account.accountType)))
  }

  function Before(day: int): EntryRow -> bool {
    (r: EntryRow) => r.date < day
  }

  function Within(from: Option<int>, to: Option<int>): EntryRow -> bool {
    (r: EntryRow) => (from.Some? ==> from.value <= r.date) && (to.Some? ==> r.date <= to.value)
  }

  function Prior(rows: seq<EntryRow>, from: Option<int>): seq<EntryRow> {
    if from.Some? then Filter(rows, Before(from.value)) else []
  }

  function Displayed(rows: seq<EntryRow>, from: Option<int>, to: Option<int>): seq<EntryRow> {
    SortByDate(Filter(rows, Within(from, to)), DateOf())
  }

  /** Rows `(page - 1) * limit` up to `page * limit`, as far as there are any. */
  function PageOf<T>(xs: seq<T>, page: nat, limit: nat): seq<T>
    requires page >= 1
  {
    PageBounds(page, limit);
    xs[Min((page - 1) * limit, |xs|)..Min(page * limit, |xs|)]
  }

  // ----- the query's rows are one stretch of the history

  /** In an ordered history the entries dated before a day come first. */
  lemma {:induction false} EarlierFirst(s: seq<EntryRow>, p: EntryRow -> bool)
    requires forall i, j :: 0 <= i < j < |s| && p(s[j]) ==> p(s[i])
    ensures var k := |Filter(s, p)|;
      k <= |s| && Filter(s, p) == s[..k] && (forall i :: k <= i < |s| ==> !p(s[i])) && (forall i :: 0 <= i < k ==>
        p(s[i]))
  {
    if s != [] {
      var front, x := s[..|s| - 1], s[|s| - 1];
      assert s == front + [x];
      EarlierFirst(front, p);
      FilterSnoc(front, x, p);
      if p(x) {
        FilterAll(front, p);
      }
    }
  }

  function UpTo(day: int): EntryRow -> bool {
    (r: EntryRow) => r.date <= day
  }

  /** In an ordered history the entries of a date range are one stretch. */
  lemma RangeIsStretch(s: seq<EntryRow>, from: Option<int>, to: Option<int>, lo: nat)
    requires Ordered(s, DateOf()) && lo <= |s|
    requires forall i :: 0 <= i < lo ==> from.Some? && s[i].date < from.value
    requires forall i :: lo <= i < |s| ==> from.Some? ==> s[i].date >= from.value
    ensures var n := |Filter(s, Within(from, to))|; lo + n <= |s| && Filter(s, Within(from, to)) == s[lo..lo + n]
    ensures to.None? ==> lo + |Filter(s, Within(from, to))| == |s|
  {
    var p := Within(from, to);
    var hi := |s|;
    if to.Some? {
      assert forall i, j :: 0 <= i < j < |s| ==> DateOf()(s[i]) <= DateOf()(s[j]);
      EarlierFirst(s, UpTo(to.value));
      hi := |Filter(s, UpTo(to.value))|;
    }
    if lo <= hi {
      ThreeParts(s, lo, hi, p);
    } else {
      FilterNone(s, p);
    }
  }

  lemma {:induction false} ThreeParts(s: seq<EntryRow>, lo: nat, hi: nat, p: EntryRow -> bool)
    requires lo <= hi <= |s|
    requires forall i :: 0 <= i < |s| ==> (p(s[i]) <==> lo <= i < hi)
    ensures Filter(s, p) == s[lo..hi]
  {
    if s != [] {
      var n := |s| - 1;
      var front := s[..n];
      if lo < hi == |s| {
        ThreeParts(front, lo, n, p);
        SliceToEnd(s, lo);
      } else {
        ThreeParts(front, Min(lo, n), Min(hi, n), p);
        assert s[lo..hi] == front[Min(lo, n)..Min(hi, n)];
      }
    }
  }

  lemma SliceToEnd<T>(s: seq<T>, lo: nat)
    requires lo < |s|
    ensures s[lo..|s|] == s[..|s| - 1][lo..|s| - 1] + [s[|s| - 1]]
  {
  }

  /** The displayed entries are one stretch of the history, starting right after the prior ones. */
  lemma DisplayedIsStretch(rows: seq<EntryRow>, from: Option<int>, to: Option<int>)
    ensures var lo, n := |Prior(rows, from)|, |Displayed(rows, from, to)|;
      lo + n <= |History(rows)| && Displayed(rows, from, to) == History(rows)[lo..lo + n]
    ensures to.None? ==> |Prior(rows, from)| + |Displayed(rows, from, to)| == |History(rows)|
  {
    SortOrders(rows, DateOf());
    DisplayedIsFiltered(rows, from, to);
    var lo := PriorIsPrefix(rows, from);
    RangeIsStretch(History(rows), from, to, lo);
  }

  lemma DisplayedIsFiltered(rows: seq<EntryRow>, from: Option<int>, to: Option<int>)
    ensures Displayed(rows, from, to) == Filter(History(rows), Within(from, to))
  {
    FilterSort(rows, DateOf(), Within(from, to));
  }

  lemma PriorIsPrefix(rows: seq<EntryRow>, from: Option<int>) returns (lo: nat)
    ensures lo == |Prior(rows, from)| && lo <= |History(rows)|
    ensures multiset(Prior(rows, from)) == multiset(History(rows)[..lo])
    ensures forall i :: 0 <= i < lo ==> from.Some? && History(rows)[i].date < from.value
    ensures forall i :: lo <= i < |History(rows)| ==> from.Some? ==> History(rows)[i].date >= from.value
  {
    var s := History(rows);
    lo := |Prior(rows, from)|;
    if from.Some? {
      var p := Before(from.value);
      SortOrders(rows, DateOf());
      EarlierFirst(s, p);
      FilterSort(rows, DateOf(), p);
      SortKeepsRows(Filter(rows, p), DateOf());
      SameSize(Prior(rows, from), Filter(s, p));
    }
  }

  lemma SameSize<T>(xs: seq<T>, ys: seq<T>)
    requires multiset(xs) == multiset(ys)
    ensures |xs| == |ys|
  {
    assert |multiset(xs)| == |xs| && |multiset(ys)| == |ys|;
  }

  // ----- the statement

  /** Entries `first` up to `last` of the history, each with the balance the whole account had after it. */
  ghost function HistoryLines(account: Account, rows: seq<EntryRow>, first: nat, last: nat): seq<LedgerLine>
    requires first <= last <= |History(rows)|
  {
    seq(last - first,
      k requires 0 <= k < last - first => LedgerLine(History(rows)[first + k],
      BalanceAfter(account, rows, first + k + 1)))
  }

  /** What a page must show, read off the history. */
  ghost function PageSpec(account: Account, rows: seq<EntryRow>, from: Option<int>, to: Option<int>, page: nat,
      limit: nat): LedgerPage
    requires page >= 1
  {
    DisplayedIsStretch(rows, from, to);
    PageBounds(page, limit);
    var total := |Displayed(rows, from, to)|;
    StretchSpec(account, rows, |Prior(rows, from)|, Min((page - 1) * limit, total), Min(page * limit, total), total)
  }

  ghost function StretchSpec(account: Account, rows: seq<EntryRow>, lo: nat, first: nat, last: nat,
      total: nat): LedgerPage
    requires first <= last <= total && lo + total <= |History(rows)|
  {
    LedgerPage(
      BalanceAfter(account, rows, lo),
      HistoryLines(account, rows, lo + first, lo + last),
      BalanceAfter(account, rows, if first == last then lo else lo + last),
      total
    )
  }

  method GetLedger(db: Db, b: BusinessId, a: AccountId, from: Option<int>, to: Option<int>, page: nat, limit: nat)
    returns (r: Result<LedgerPage, Error>)
    requires page >= 1 && limit >= 1
    ensures r == if a < |db.accounts| && db.accounts[a].business == b
      then Ok(PageSpec(db.accounts[a], AccountRows(db.txs, a), from, to, page, limit)) else Err(AccountNotFound)
  {
    if a >= |db.accounts| || db.accounts[a].business != b {
      return Err(AccountNotFound);
    }
    var shown := BuildPage(db.accounts[a], AccountRows(db.txs, a), from, to, page, limit);
    r := Ok(shown);
  }

  method BuildPage(account: Account, rows: seq<EntryRow>, from: Option<int>, to: Option<int>, page: nat, limit: nat)
    returns (r: LedgerPage)
    requires page >= 1 && limit >= 1
    ensures r == PageSpec(account, rows, from, to, page, limit)
  {
    var broughtForward := BringForward(account, rows, from);
    var shown := Displayed(rows, from, to);
    DisplayedIsStretch(rows, from, to);
    PageBounds(page, limit);
    r := CutPage(account, rows, |Prior(rows, from)|, broughtForward, shown, Min((page - 1) * limit, |shown|),
      Min(page * limit, |shown|));
  }

  method CutPage(account: Account, rows: seq<EntryRow>, ghost lo: nat, broughtForward: int, shown: seq<EntryRow>,
      first: nat, last: nat)
    returns (r: LedgerPage)
    requires first <= last <= |shown| && lo + |shown| <= |History(rows)| && shown == History(rows)[lo..lo + |shown|]
    requires broughtForward == BalanceAfter(account, rows, lo)
    ensures r == StretchSpec(account, rows, lo, first, last, |shown|)
  {
    assert shown[..last] == History(rows)[lo..lo + last];
    var all := LinesUpToPageEnd(account, rows, lo, broughtForward, shown[..last]);
    LinesDrop(account, rows, lo, first, last);
    var lines := all[first..];
    var closing := if lines == [] then broughtForward else lines[|lines| - 1].running;
    r := LedgerPage(broughtForward, lines, closing, |shown|);
  }

  method LinesUpToPageEnd(account: Account, rows: seq<EntryRow>, ghost lo: nat, broughtForward: int,
      stretch: seq<EntryRow>)
    returns (all: seq<LedgerLine>)
    requires lo + |stretch| <= |History(rows)| && stretch == History(rows)[lo..lo + |stretch|]
    requires broughtForward == BalanceAfter(account, rows, lo)
    ensures all == HistoryLines(account, rows, lo, lo + |stretch|)
  {
    all := RunningLines(IsDebitPositive(account.accountType), broughtForward, stretch);
    LinesAreHistory(account, rows, lo, stretch, all);
  }

  lemma LinesDrop(account: Account, rows: seq<EntryRow>, lo: nat, first: nat, last: nat)
    requires first <= last && lo + last <= |History(rows)|
    ensures HistoryLines(account, rows, lo, lo + last)[first..] == HistoryLines(account, rows, lo + first, lo + last)
  {
    var all, cut := HistoryLines(account, rows, lo, lo + last), HistoryLines(account, rows, lo + first, lo + last);
    forall k | 0 <= k < last - first
      ensures all[first..][k] == cut[k]
    {
      assert lo + (first + k) == lo + first + k;
    }
  }

  lemma LinesAreHistory(account: Account, rows: seq<EntryRow>, lo: nat, stretch: seq<EntryRow>, all: seq<LedgerLine>)
    requires lo + |stretch| <= |History(rows)| && stretch == History(rows)[lo..lo + |stretch|] && |all| == |stretch|
    requires var start, f := BalanceAfter(account, rows, lo), RowDelta(IsDebitPositive(account.accountType));
      forall i :: 0 <= i < |all| ==> all[i] == LedgerLine(stretch[i], start + SumBy(stretch[..i + 1], f))
    ensures all == HistoryLines(account, rows, lo, lo + |stretch|)
  {
    forall i | 0 <= i < |all|
      ensures all[i] == LedgerLine(History(rows)[lo + i], BalanceAfter(account, rows, lo + i + 1))
    {
      StretchSum(History(rows), lo, i + 1, stretch, RowDelta(IsDebitPositive(account.accountType)));
    }
  }

  /** Advances the running balance over the entries, in order. */
  method RunningLines(debitPositive: bool, start: int, rows: seq<EntryRow>) returns (lines: seq<LedgerLine>)
    ensures |lines| == |rows|
    ensures forall i :: 0 <= i < |rows| ==>
      lines[i] == LedgerLine(rows[i], start + SumBy(rows[..i + 1], RowDelta(debitPositive)))
  {
    lines := [];
    var running := start;
    for k := 0 to |rows|
      invariant |lines| == k
      invariant running == start + SumBy(rows[..k], RowDelta(debitPositive))
      invariant forall i :: 0 <= i < k ==>
        lines[i] == LedgerLine(rows[i], start + SumBy(rows[..i + 1], RowDelta(debitPositive)))
    {
      SumTake(rows, k, RowDelta(debitPositive));
      var amount := rows[k].amount;
      var delta := if rows[k].side.Debit? then (if debitPositive then amount else -amount)
        else (if debitPositive then -amount else amount);
      running := running + delta;
      lines := lines + [LedgerLine(rows[k], running)];
    }
  }

  lemma StretchSum(s: seq<EntryRow>, lo: nat, n: nat, stretch: seq<EntryRow>, f: EntryRow -> int)
    requires n <= |stretch| && lo + |stretch| <= |s| && stretch == s[lo..lo + |stretch|]
    ensures SumBy(s[..lo + n], f) == SumBy(s[..lo], f) + SumBy(stretch[..n], f)
  {
    assert s[..lo + n] == s[..lo] + stretch[..n];
    SumConcat(s[..lo], stretch[..n], f);
  }

  lemma PageBounds(page: nat, limit: nat)
    requires page >= 1
    ensures 0 <= (page - 1) * limit <= page * limit
    ensures (page - 1) * limit + limit == page * limit
  {
    assert page * limit == (page - 1) * limit + limit;
  }

  method BringForward(account: Account, rows: seq<EntryRow>, from: Option<int>) returns (balance: int)
    ensures |Prior(rows, from)| <= |History(rows)|
    ensures balance == BalanceAfter(account, rows, |Prior(rows, from)|)
  {
    var debitPositive := IsDebitPositive(account.accountType);
    balance := account.opening;
    var prior := Prior(rows, from);
    for k := 0 to |prior|
      invariant balance == account.opening + SumBy(prior[..k], RowDelta(debitPositive))
    {
      SumTake(prior, k, RowDelta(debitPositive));
      var amount := prior[k].amount;
      balance := balance + if prior[k].side.Debit? then (if debitPositive then amount else -amount)
        else (if debitPositive then -amount else amount);
    }
    assert prior[..|prior|] == prior;
    ghost var lo := PriorIsPrefix(rows, from);
    SumPermutation(prior, History(rows)[..lo], RowDelta(debitPositive));
  }

  // ----- pages cover the ledger, and the last one closes at the account's balance

  function PagesUpTo<T>(xs: seq<T>, pages: nat, limit: nat): seq<T> {
    if pages == 0 then [] else PagesUpTo(xs, pages - 1, limit) + PageOf(xs, pages, limit)
  }

  /** Read one after the other, the pages are the whole filtered ledger, each entry once and in order. */
  lemma {:induction false} PagesConcatenate<T>(xs: seq<T>, pages: nat, limit: nat)
    ensures PagesUpTo(xs, pages, limit) == xs[..Min(pages * limit, |xs|)]
    ensures pages * limit >= |xs| ==> PagesUpTo(xs, pages, limit) == xs
  {
    if pages > 0 {
      PagesConcatenate(xs, pages - 1, limit);
      PageBounds(pages, limit);
      var i, j := Min((pages - 1) * limit, |xs|), Min(pages * limit, |xs|);
      assert xs[..i] + xs[i..j] == xs[..j];
    }
  }

  lemma {:induction false} EntriesOnSum(entries: seq<Entry>, a: AccountId, tx: TxId, date: int, debitPositive: bool)
    ensures SumBy(EntriesOn(entries, a, tx, date), RowDelta(debitPositive)) == if debitPositive then Net(entries, a)
      else -Net(entries, a)
  {
    if entries != [] {
      var front, e := entries[..|entries| - 1], entries[|entries| - 1];
      EntriesOnSum(front, a, tx, date, debitPositive);
      SumConcat(EntriesOn(front, a, tx, date), RowIfOn(e, a, tx, date), RowDelta(debitPositive));
      RowIfOnSum(e, a, tx, date, debitPositive);
    }
  }

  lemma RowIfOnSum(e: Entry, a: AccountId, tx: TxId, date: int, debitPositive: bool)
    ensures SumBy(RowIfOn(e, a, tx, date), RowDelta(debitPositive)) == if debitPositive then EntryNet(a)(e)
      else -EntryNet(a)(e)
  {
  }

  lemma {:induction false} RowsSum(txs: seq<Tx>, a: AccountId, debitPositive: bool)
    ensures SumBy(AccountRows(txs, a), RowDelta(debitPositive)) == if debitPositive then AccountNet(txs, a)
      else -AccountNet(txs, a)
  {
    if txs != [] {
      var front, t := txs[..|txs| - 1], txs[|txs| - 1];
      RowsSum(front, a, debitPositive);
      EntriesOnSum(t.entries, a, |front|, t.date, debitPositive);
      SumConcat(AccountRows(front, a), EntriesOn(t.entries, a, |front|, t.date), RowDelta(debitPositive));
    }
  }

  /** The end of the history is what recalculating the balance from scratch computes. */
  lemma HistoryEndsAtBalance(account: Account, a: AccountId, txs: seq<Tx>)
    ensures BalanceAfter(account, AccountRows(txs, a), |History(AccountRows(txs, a))|) == BalanceOf(account, a, txs)
  {
    var rows := AccountRows(txs, a);
    RowsSum(txs, a, IsDebitPositive(account.accountType));
    SortKeepsRows(rows, DateOf());
    SumPermutation(History(rows), rows, RowDelta(IsDebitPositive(account.accountType)));
    assert History(rows)[..|History(rows)|] == History(rows);
  }

  /** With no last day, the page that holds the last entry closes at the account's cached balance,
      whatever the first day and the page size. */
  lemma LastPageClosesAtBalance(db: Db, a: AccountId, from: Option<int>, page: nat, limit: nat)
    requires page >= 1 && limit >= 1
    requires LedgerInv(db) && a < |db.accounts|
    requires var n := |Displayed(AccountRows(db.txs, a), from, None)|; (page - 1) * limit < n <= page * limit || n == 0
    ensures PageSpec(db.accounts[a], AccountRows(db.txs, a), from, None, page, limit).closing == db.accounts[a].current
  {
    HistoryEndsAtBalance(db.accounts[a], a, db.txs);
    LastPageClosesAtEnd(db.accounts[a], AccountRows(db.txs, a), from, page, limit);
  }

  lemma LastPageClosesAtEnd(account: Account, rows: seq<EntryRow>, from: Option<int>, page: nat, limit: nat)
    requires page >= 1 && limit >= 1
    requires var n := |Displayed(rows, from, None)|; (page - 1) * limit < n <= page * limit || n == 0
    ensures PageSpec(account, rows, from, None, page, limit).closing == BalanceAfter(account, rows, |History(rows)|)
  {
    DisplayedIsStretch(rows, from, None);
    PageBounds(page, limit);
  }

  /** A page's entries are the requested page of the filtered ledger. */
  lemma PageShowsItsRows(account: Account, rows: seq<EntryRow>, from: Option<int>, to: Option<int>, page: nat,
      limit: nat)
    requires page >= 1
    ensures var lines, shown := PageSpec(account, rows, from, to, page, limit).lines,
      PageOf(Displayed(rows, from, to), page, limit);
      |lines| == |shown| && forall k :: 0 <= k < |shown| ==> lines[k].row == shown[k]
  {
    DisplayedIsStretch(rows, from, to);
    PageBounds(page, limit);
    var shown, total := Displayed(rows, from, to), |Displayed(rows, from, to)|;
    StretchShowsItsRows(account, rows, |Prior(rows, from)|, shown, Min((page - 1) * limit, total),
      Min(page * limit, total));
  }

  lemma StretchShowsItsRows(account: Account, rows: seq<EntryRow>, lo: nat, shown: seq<EntryRow>, first: nat, last: nat)
    requires first <= last <= |shown| && lo + |shown| <= |History(rows)| && shown == History(rows)[lo..lo + |shown|]
    ensures var lines := HistoryLines(account, rows, lo + first, lo + last);
      |lines| == last - first && forall k :: 0 <= k < last - first ==> lines[k].row == shown[first..last][k]
  {
  }

  // ----- which entries a page shows, by the postings' own dates

  /** A day is in range when it is not before the first nor after the last day, where they are given. */
  predicate DayIn(day: int, from: Option<int>, to: Option<int>) {
    (from == None || from.value <= day) && (to == None || day <= to.value)
  }

  function IsEntry(a: AccountId, side: Side, amount: int): Entry -> int {
    (e: Entry) => if e.account == a && e.side == side && e.amount == amount then 1 else 0
  }

  lemma {:induction false} FilterCounts<T>(xs: seq<T>, p: T -> bool, x: T)
    ensures multiset(Filter(xs, p))[x] == if p(x) then multiset(xs)[x] else 0
  {
    if xs != [] {
      assert xs == xs[..|xs| - 1] + [xs[|xs| - 1]];
      FilterCounts(xs[..|xs| - 1], p, x);
    }
  }

  lemma {:induction false} EntriesOnCount(entries: seq<Entry>, a: AccountId, tx: TxId, date: int, r: EntryRow)
    ensures multiset(EntriesOn(entries, a, tx, date))[r] ==
      if r.tx == tx && r.date == date then SumBy(entries, IsEntry(a, r.side, r.amount)) else 0
  {
    if entries != [] {
      EntriesOnCount(entries[..|entries| - 1], a, tx, date, r);
    }
  }

  /** How often posting `r.tx` has an entry like row `r` on the account, if the row carries its date. */
  function OnPosting(txs: seq<Tx>, a: AccountId, r: EntryRow): int {
    if r.tx < |txs| && txs[r.tx].date == r.date then SumBy(txs[r.tx].entries, IsEntry(a, r.side, r.amount)) else 0
  }

  lemma {:induction false} AccountRowsCount(txs: seq<Tx>, a: AccountId, r: EntryRow)
    ensures multiset(AccountRows(txs, a))[r] == OnPosting(txs, a, r)
  {
    if txs != [] {
      var n := |txs| - 1;
      AccountRowsCount(txs[..n], a, r);
      EntriesOnCount(txs[n].entries, a, n, txs[n].date, r);
    }
  }

  /** A date range shows each entry of the account exactly as often as its posting has it when the posting is
      dated in the range, the first and last day included, and not at all otherwise. */
  lemma DisplayedIff(txs: seq<Tx>, a: AccountId, from: Option<int>, to: Option<int>, r: EntryRow)
    ensures multiset(Displayed(AccountRows(txs, a), from, to))[r] ==
      if DayIn(r.date, from, to) then OnPosting(txs, a, r) else 0
  {
    var rows := AccountRows(txs, a);
    AccountRowsCount(txs, a, r);
    FilterCounts(rows, Within(from, to), r);
    SortKeepsRows(Filter(rows, Within(from, to)), DateOf());
  }

  function TxOf(): EntryRow -> int {
    (r: EntryRow) => r.tx
  }

  lemma {:induction false} AccountRowsInOrder(txs: seq<Tx>, a: AccountId)
    ensures forall r | r in AccountRows(txs, a) :: r.tx < |txs|
    ensures forall i, j :: 0 <= i < j < |AccountRows(txs, a)| ==>
      TxOf()(AccountRows(txs, a)[i]) <= TxOf()(AccountRows(txs, a)[j])
  {
    if txs != [] {
      var n := |txs| - 1;
      AccountRowsInOrder(txs[..n], a);
      var front, last := AccountRows(txs[..n], a), EntriesOn(txs[n].entries, a, n, txs[n].date);
      forall r | r in last
        ensures r.tx == n
      {
        EntriesOnCount(txs[n].entries, a, n, txs[n].date, r);
        assert multiset(last)[r] > 0;
      }
      forall i | 0 <= i < |front|
        ensures TxOf()(front[i]) < n
      {
        assert front[i] in front;
      }
      forall i | 0 <= i < |last|
        ensures TxOf()(last[i]) == n
      {
        assert last[i] in last;
      }
    }
  }

  /** Oldest first: by the day, and within one day in the order the postings were made. */
  lemma HistoryInOrder(txs: seq<Tx>, a: AccountId)
    ensures OrderedWithin(History(AccountRows(txs, a)), DateOf(), TxOf())
  {
    AccountRowsInOrder(txs, a);
    SortIsStable(AccountRows(txs, a), DateOf(), TxOf());
  }

  /** The signed entries on an account of postings some test lets through. */
  function NetWhere(a: AccountId, test: int -> bool): Tx -> int {
    (t: Tx) => if test(t.date) then Net(t.entries, a) else 0
  }

  /** Shown up to the last day, or brought forward because dated before the first. */
  function Counted(from: Option<int>, to: Option<int>): int -> bool {
    (day: int) => to == None || day <= to.value || (from.Some? && day < from.value)
  }

  function BroughtIn(from: Option<int>): int -> bool {
    (day: int) => from.Some? && day < from.value
  }

  function Passing(test: int -> bool): EntryRow -> bool {
    (r: EntryRow) => test(r.date)
  }

  lemma {:induction false} EntriesOnDated(entries: seq<Entry>, a: AccountId, tx: TxId, date: int, test: int -> bool)
    ensures Filter(EntriesOn(entries, a, tx, date), Passing(test)) == if test(date) then EntriesOn(entries, a, tx, date)
      else []
  {
    var rows := EntriesOn(entries, a, tx, date);
    forall i | 0 <= i < |rows|
      ensures rows[i].date == date
    {
      EntriesOnCount(entries, a, tx, date, rows[i]);
      assert multiset(rows)[rows[i]] > 0;
    }
    if test(date) {
      FilterAll(rows, Passing(test));
    } else {
      FilterNone(rows, Passing(test));
    }
  }

  lemma {:induction false} FilteredRowsSum(txs: seq<Tx>, a: AccountId, test: int -> bool, debitPositive: bool)
    ensures SumBy(Filter(AccountRows(txs, a), Passing(test)), RowDelta(debitPositive)) ==
      if debitPositive then SumBy(txs, NetWhere(a, test)) else -SumBy(txs, NetWhere(a, test))
  {
    if txs != [] {
      var n := |txs| - 1;
      var front, last := AccountRows(txs[..n], a), EntriesOn(txs[n].entries, a, n, txs[n].date);
      FilteredRowsSum(txs[..n], a, test, debitPositive);
      FilterConcat(front, last, Passing(test));
      EntriesOnDated(txs[n].entries, a, n, txs[n].date, test);
      EntriesOnSum(txs[n].entries, a, n, txs[n].date, debitPositive);
      SumConcat(Filter(front, Passing(test)), Filter(last, Passing(test)), RowDelta(debitPositive));
    }
  }

  /** Prior and displayed rows together are the rows the closing figure counts. */
  lemma PriorAndDisplayed(rows: seq<EntryRow>, from: Option<int>, to: Option<int>, f: EntryRow -> int)
    ensures SumBy(Prior(rows, from), f) + SumBy(Displayed(rows, from, to), f) ==
      SumBy(Filter(rows, Passing(Counted(from, to))), f)
    ensures SumBy(Prior(rows, from), f) == SumBy(Filter(rows, Passing(BroughtIn(from))), f)
  {
    var within, brought, counted := Within(from, to), Passing(BroughtIn(from)), Passing(Counted(from, to));
    SortKeepsRows(Filter(rows, within), DateOf());
    SumPermutation(Displayed(rows, from, to), Filter(rows, within), f);
    SumFilter(rows, within, f);
    SumFilter(rows, brought, f);
    SumFilter(rows, counted, f);
    SumLinear(rows, If(brought, f), If(within, f), If(counted, f), 1);
    if from.Some? {
      SumFilter(rows, Before(from.value), f);
      SumCong(rows, If(Before(from.value), f), If(brought, f));
    } else {
      FilterNone(rows, brought);
    }
  }

  /** Opening balance plus the entries of postings a test lets through, signed by the account's type. */
  function BalanceWhere(account: Account, a: AccountId, txs: seq<Tx>, test: int -> bool): int {
    match account.accountType
    case Asset => account.opening + SumBy(txs, NetWhere(a, test))
    case Expense => account.opening + SumBy(txs, NetWhere(a, test))
    case _ => account.opening - SumBy(txs, NetWhere(a, test))
  }

  /** A page brings forward the opening balance and everything dated before the first day. The page that
      holds the last entry closes at that plus everything dated up to the last day. */
  lemma PageClosesAt(db: Db, a: AccountId, from: Option<int>, to: Option<int>, page: nat, limit: nat)
    requires page >= 1 && limit >= 1 && a < |db.accounts|
    requires var n := |Displayed(AccountRows(db.txs, a), from, to)|; (page - 1) * limit < n <= page * limit || n == 0
    ensures var shown := PageSpec(db.accounts[a], AccountRows(db.txs, a), from, to, page, limit);
      && shown.broughtForward == BalanceWhere(db.accounts[a], a, db.txs, BroughtIn(from))
      && shown.closing == BalanceWhere(db.accounts[a], a, db.txs, Counted(from, to))
      && shown.total == |Displayed(AccountRows(db.txs, a), from, to)|
  {
    var rows, positive := AccountRows(db.txs, a), IsDebitPositive(db.accounts[a].accountType);
    PriorAndDisplayed(rows, from, to, RowDelta(positive));
    FilteredRowsSum(db.txs, a, BroughtIn(from), positive);
    FilteredRowsSum(db.txs, a, Counted(from, to), positive);
    StretchBalances(db.accounts[a], rows, from, to);
    LastPageEndsStretch(db.accounts[a], rows, from, to, page, limit);
  }

  lemma StretchBalances(account: Account, rows: seq<EntryRow>, from: Option<int>, to: Option<int>)
    ensures var f, lo, n := RowDelta(IsDebitPositive(account.accountType)), |Prior(rows, from)|,
      |Displayed(rows, from, to)|;
      && lo + n <= |History(rows)|
      && BalanceAfter(account, rows, lo) == account.opening + SumBy(Prior(rows, from), f)
      && BalanceAfter(account, rows, lo + n) ==
        account.opening + SumBy(Prior(rows, from), f) + SumBy(Displayed(rows, from, to), f)
  {
    var f := RowDelta(IsDebitPositive(account.accountType));
    var lo := PriorIsPrefix(rows, from);
    DisplayedIsStretch(rows, from, to);
    SumPermutation(Prior(rows, from), History(rows)[..lo], f);
    var shown := Displayed(rows, from, to);
    StretchSum(History(rows), lo, |shown|, shown, f);
    assert shown[..|shown|] == shown;
  }

  lemma LastPageEndsStretch(account: Account, rows: seq<EntryRow>, from: Option<int>, to: Option<int>, page: nat,
      limit: nat)
    requires page >= 1 && limit >= 1
    requires var n := |Displayed(rows, from, to)|; (page - 1) * limit < n <= page * limit || n == 0
    ensures var lo, n, shown := |Prior(rows, from)|, |Displayed(rows, from, to)|,
      PageSpec(account, rows, from, to, page, limit);
      && lo + n <= |History(rows)|
      && shown.broughtForward == BalanceAfter(account, rows, lo) && shown.closing == BalanceAfter(account, rows, lo + n)
      && shown.total == n
  {
    DisplayedIsStretch(rows, from, to);
    PageBounds(page, limit);
  }

  /** Lines that show a displayed ledger from its entry `first` on: each balance is what was brought forward plus
      the displayed entries up to and including its own, and the page closes at its last line. */
  ghost predicate LinesRun(shown: LedgerPage, all: seq<EntryRow>, first: nat, f: EntryRow -> int) {
    && first + |shown.lines| <= |all|
    && (forall k :: 0 <= k < |shown.lines| ==> LineRuns(shown, all, first, f, k))
    && shown.closing == (if shown.lines == [] then shown.broughtForward else shown.lines[|shown.lines| - 1].running)
  }

  ghost predicate LineRuns(shown: LedgerPage, all: seq<EntryRow>, first: nat, f: EntryRow -> int, k: nat)
    requires k < |shown.lines| && first + |shown.lines| <= |all|
  {
    shown.lines[k] == LedgerLine(all[first + k], shown.broughtForward + SumBy(all[..first + k + 1], f))
  }

  lemma LineAt(account: Account, rows: seq<EntryRow>, lo: nat, n: nat, all: seq<EntryRow>)
    requires n < |all| && lo + |all| <= |History(rows)| && all == History(rows)[lo..lo + |all|]
    ensures History(rows)[lo + n] == all[n]
    ensures BalanceAfter(account, rows, lo + n + 1) ==
      BalanceAfter(account, rows, lo) + SumBy(all[..n + 1], RowDelta(IsDebitPositive(account.accountType)))
  {
    StretchSum(History(rows), lo, n + 1, all, RowDelta(IsDebitPositive(account.accountType)));
    assert lo + n + 1 == lo + (n + 1);
  }

  lemma StretchLinesRun(account: Account, rows: seq<EntryRow>, lo: nat, first: nat, last: nat, all: seq<EntryRow>)
    requires first <= last <= |all| && lo + |all| <= |History(rows)| && all == History(rows)[lo..lo + |all|]
    ensures LinesRun(StretchSpec(account, rows, lo, first, last, |all|), all, first,
      RowDelta(IsDebitPositive(account.accountType)))
  {
    var shown, f := StretchSpec(account, rows, lo, first, last, |all|), RowDelta(IsDebitPositive(account.accountType));
    forall k | 0 <= k < |shown.lines|
      ensures LineRuns(shown, all, first, f, k)
    {
      LineAt(account, rows, lo, first + k, all);
      assert lo + first + k == lo + (first + k);
    }
  }

  function PageStart(page: nat, limit: nat, total: nat): nat
    requires page >= 1
  {
    PageBounds(page, limit);
    Min((page - 1) * limit, total)
  }

  /** On every page, from the first to one past the last. */
  lemma PageLinesRun(account: Account, rows: seq<EntryRow>, from: Option<int>, to: Option<int>, page: nat, limit: nat)
    requires page >= 1
    ensures LinesRun(PageSpec(account, rows, from, to, page, limit), Displayed(rows, from, to),
      PageStart(page, limit, |Displayed(rows, from, to)|), RowDelta(IsDebitPositive(account.accountType)))
  {
    var all := Displayed(rows, from, to);
    DisplayedIsStretch(rows, from, to);
    PageBounds(page, limit);
    StretchLinesRun(account, rows, |Prior(rows, from)|, PageStart(page, limit, |all|), Min(page * limit, |all|), all);
  }
}
