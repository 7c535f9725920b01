/** The account summary and the wallet overview: figures computed from live postings only, which must
    add up to a cached balance that counts every posting. */
module LedgerViews {
  import opened Base
  import opened Sorting
  import opened Ledger
  import opened LedgerRuns

  // ----- account summary

  datatype Summary = Summary(currentBalance: int, totalIn: int, totalOut: int, adjustment: int)

  predicate InRange(date: int, from: Option<int>, to: Option<int>) {
    (from.Some? ==> from.value <= date) && (to.Some? ==> date <= to.value)
  }

  /** Live entries of one side on an account, transfers or everything else, within a date range. */
  function LiveOn(a: AccountId, side: Side, transfers: bool, from: Option<int>, to: Option<int>): Tx -> int {
    (t: Tx) =>
      if IsLive(t) && t.txType.TransferTx? == transfers && InRange(t.date, from, to)
      then SumBy(t.entries, EntryOn(a, side)) else 0
  }

  function GetAccountSummary(db: Db, b: BusinessId, a: AccountId, from: Option<int>,
      to: Option<int>): Result<Summary, Error> {
    if a >= |db.accounts| || db.accounts[a].business != b then Err(AccountNotFound)
    else
      var account := db.accounts[a];
      var debitTotal := SumBy(db.txs, LiveOn(a, Debit, false, from, to));
      var creditTotal := SumBy(db.txs, LiveOn(a, Credit, false, from, to));
      var transferDebits := SumBy(db.txs, LiveOn(a, Debit, true, from, to));
      var transferCredits := SumBy(db.txs, LiveOn(a, Credit, true, from, to));
      if IsDebitPositive(account.accountType)
      then Ok(Summary(account.current, debitTotal, creditTotal, transferDebits - transferCredits))
      else Ok(Summary(account.current, creditTotal, debitTotal, transferCredits - transferDebits))
  }

  function NetOfKind(a: AccountId, transfers: bool): Tx -> int {
    (t: Tx) => if IsLive(t) && t.txType.TransferTx? == transfers then Net(t.entries, a) else 0
  }

  lemma LiveNetByKind(txs: seq<Tx>, a: AccountId)
    ensures SumBy(txs, LiveOnly(TxNet(a))) == SumBy(txs, NetOfKind(a, false)) + SumBy(txs, NetOfKind(a, true))
  {
    SumLinear(txs, NetOfKind(a, false), NetOfKind(a, true), LiveOnly(TxNet(a)), 1);
  }

  lemma KindNetIsDebitsMinusCredits(txs: seq<Tx>, a: AccountId, transfers: bool)
    ensures SumBy(txs, NetOfKind(a, transfers)) ==
      SumBy(txs, LiveOn(a, Debit, transfers, None, None)) - SumBy(txs, LiveOn(a, Credit, transfers, None, None))
  {
    var d, c := LiveOn(a, Debit, transfers, None, None), LiveOn(a, Credit, transfers, None, None);
    forall i | 0 <= i < |txs|
      ensures NetOfKind(a, transfers)(txs[i]) == d(txs[i]) + -1 * c(txs[i])
    {
      SumLinear(txs[i].entries, EntryOn(a, Debit), EntryOn(a, Credit), EntryNet(a), -1);
    }
    SumLinear(txs, d, c, NetOfKind(a, transfers), -1);
  }

  /** Without dates, the summary's own figures explain the balance it shows: what came in, what went
      out and what was moved, although voided pairs are counted in the balance only. */
  lemma SummaryExplainsBalance(db: Db, b: BusinessId, a: AccountId)
    requires LedgerInv(db)
    requires a < |db.accounts| && db.accounts[a].business == b
    ensures var s := GetAccountSummary(db, b, a, None, None);
      s.Ok? && s.value.currentBalance ==
        db.accounts[a].opening + s.value.totalIn - s.value.totalOut + s.value.adjustment
  {
    BalanceIsLiveBalance(db, a);
    LiveNetByKind(db.txs, a);
    KindNetIsDebitsMinusCredits(db.txs, a, false);
    KindNetIsDebitsMinusCredits(db.txs, a, true);
  }

  // ----- wallet overview

  datatype WalletRow = WalletRow(
    account: AccountId, opening: int, totalIn: int, totalOut: int, savings: int, adjustment: int, current: int
  )

  datatype Overview = Overview(totalBalance: int, inactiveAmount: int, availableBalance: int, rows: seq<WalletRow>)

  function WalletsOf(accounts: seq<Account>, b: BusinessId, k: nat): (r: seq<AccountId>)
    requires k <= |accounts|
    ensures forall i :: 0 <= i < |r| ==> r[i] < k && IsMoneyAccount(accounts, b, r[i])
    ensures forall a :: 0 <= a < k && IsMoneyAccount(accounts, b, a) ==> a in r
  {
    if k == 0 then [] else WalletsOf(accounts, b, k - 1) + if IsMoneyAccount(accounts, b, k - 1) then [k - 1] else []
  }

  /** A transfer counts as saving for account `a` when another of its entries is on a savings wallet. */
  predicate FundsSavings(accounts: seq<Account>, t: Tx, a: AccountId) {
    exists e | e in t.entries ::
      e.account != a && e.account < |accounts| && accounts[e.account].subtype == Some(SAVINGS_SUBTYPE)
  }

  predicate IsLiveTransfer(t: Tx) {
    IsLive(t) && t.txType.TransferTx?
  }

  function SavingsOf(accounts: seq<Account>, a: AccountId): Tx -> int {
    (t: Tx) => if IsLiveTransfer(t) && FundsSavings(accounts, t, a) then -Net(t.entries, a) else 0
  }

  function AdjustmentOf(accounts: seq<Account>, a: AccountId): Tx -> int {
    (t: Tx) => if IsLiveTransfer(t) && !FundsSavings(accounts, t, a) then Net(t.entries, a) else 0
  }

  function Amount(m: map<AccountId, int>, a: AccountId): int {
    if a in m then m[a] else 0
  }

  /** The two transfer columns, filled entry by entry. */
  method SplitTransfers(db: Db, wallets: seq<AccountId>)
      returns (savings: map<AccountId, int>, adjustment: map<AccountId, int>)
    ensures forall a :: a in wallets ==> Amount(savings, a) == SumBy(db.txs, SavingsOf(db.accounts, a))
    ensures forall a :: a in wallets ==> Amount(adjustment, a) == SumBy(db.txs, AdjustmentOf(db.accounts, a))
  {
    savings, adjustment := map[], map[];
    for i := 0 to |db.txs|
      invariant forall a :: a in wallets ==> Amount(savings, a) == SumBy(db.txs[..i], SavingsOf(db.accounts, a))
      invariant forall a :: a in wallets ==> Amount(adjustment, a) == SumBy(db.txs[..i], AdjustmentOf(db.accounts, a))
    {
      var t := db.txs[i];
      forall a | a in wallets
        ensures SumBy(db.txs[..i + 1], SavingsOf(db.accounts, a)) ==
          SumBy(db.txs[..i], SavingsOf(db.accounts, a)) + SavingsOf(db.accounts, a)(t)
        ensures SumBy(db.txs[..i + 1], AdjustmentOf(db.accounts, a)) ==
          SumBy(db.txs[..i], AdjustmentOf(db.accounts, a)) + AdjustmentOf(db.accounts, a)(t)
      {
        SumTake(db.txs, i, SavingsOf(db.accounts, a));
        SumTake(db.txs, i, AdjustmentOf(db.accounts, a));
      }
      if IsLiveTransfer(t) {
        savings, adjustment := SplitTransfer(db.accounts, t, wallets, savings, adjustment);
      }
    }
    assert db.txs[..|db.txs|] == db.txs;
  }

  method SplitTransfer(accounts: seq<Account>, t: Tx, wallets: seq<AccountId>, savings: map<AccountId, int>,
      adjustment: map<AccountId, int>)
    returns (savings': map<AccountId, int>, adjustment': map<AccountId, int>)
    requires IsLiveTransfer(t)
    ensures forall a :: a in wallets ==> Amount(savings', a) == Amount(savings, a) + SavingsOf(accounts, a)(t)
    ensures forall a :: a in wallets ==> Amount(adjustment', a) == Amount(adjustment, a) + AdjustmentOf(accounts, a)(t)
  {
    savings', adjustment' := savings, adjustment;
    for j := 0 to |t.entries|
      invariant forall a :: a in wallets && FundsSavings(accounts, t, a) ==>
        Amount(savings', a) == Amount(savings, a) - Net(t.entries[..j], a)
      invariant forall a :: a in wallets && FundsSavings(accounts, t, a) ==>
        Amount(adjustment', a) == Amount(adjustment, a)
      invariant forall a :: a in wallets && !FundsSavings(accounts, t, a) ==>
        Amount(adjustment', a) == Amount(adjustment, a) + Net(t.entries[..j], a)
      invariant forall a :: a in wallets && !FundsSavings(accounts, t, a) ==> Amount(savings', a) == Amount(savings, a)
    {
      var e := t.entries[j];
      forall a | a in wallets
        ensures Net(t.entries[..j + 1], a) == Net(t.entries[..j], a) + EntryNet(a)(e)
      {
        SumTake(t.entries, j, EntryNet(a));
      }
      if e.account in wallets {
        if FundsSavings(accounts, t, e.account) {
          var sentOut := if e.side.Credit? then e.amount else -e.amount;
          savings' := savings'[e.account := Amount(savings', e.account) + sentOut];
        } else {
          var signed := if e.side.Debit? then e.amount else -e.amount;
          adjustment' := adjustment'[e.account := Amount(adjustment', e.account) + signed];
        }
      }
    }
    assert t.entries[..|t.entries|] == t.entries;
  }

  function WalletRowOf(db: Db, a: AccountId): WalletRow
    requires a < |db.accounts|
  {
    WalletRow(
      a,
      db.accounts[a].opening,
      SumBy(db.txs, LiveOn(a, Debit, false, None, None)),
      SumBy(db.txs, LiveOn(a, Credit, false, None, None)),
      SumBy(db.txs, SavingsOf(db.accounts, a)),
      SumBy(db.txs, AdjustmentOf(db.accounts, a)),
      db.accounts[a].current
    )
  }

  function CurrentOf(accounts: seq<Account>): AccountId -> int {
    (a: AccountId) => if a < |accounts| then accounts[a].current else 0
  }

  function ArchivedOf(accounts: seq<Account>): AccountId -> int {
    (a: AccountId) => if a < |accounts| && accounts[a].archived then accounts[a].current else 0
  }

  method GetWalletsOverview(db: Db, b: BusinessId) returns (r: Overview)
    ensures var wallets := WalletsOf(db.accounts, b, |db.accounts|);
      && |r.rows| == |wallets|
      && (forall k :: 0 <= k < |wallets| ==> r.rows[k] == WalletRowOf(db, wallets[k]))
      && r.totalBalance == SumBy(wallets, CurrentOf(db.accounts))
      && r.inactiveAmount == SumBy(wallets, ArchivedOf(db.accounts))
      && r.availableBalance == r.totalBalance - r.inactiveAmount
  {
    var wallets := WalletsOf(db.accounts, b, |db.accounts|);
    var savings, adjustment := SplitTransfers(db, wallets);
    var rows: seq<WalletRow> := [];
    var totalBalance, inactiveAmount := 0, 0;
    for k := 0 to |wallets|
      invariant |rows| == k
      invariant forall i :: 0 <= i < k ==> rows[i] == WalletRowOf(db, wallets[i])
      invariant totalBalance == SumBy(wallets[..k], CurrentOf(db.accounts))
      invariant inactiveAmount == SumBy(wallets[..k], ArchivedOf(db.accounts))
    {
      var a := wallets[k];
      assert a in wallets;
      SumTake(wallets, k, CurrentOf(db.accounts));
      SumTake(wallets, k, ArchivedOf(db.accounts));
      var account := db.accounts[a];
      totalBalance := totalBalance + account.current;
      if account.archived {
        inactiveAmount := inactiveAmount + account.current;
      }
      var totalIn := SumBy(db.txs, LiveOn(a, Debit, false, None, None));
      var totalOut := SumBy(db.txs, LiveOn(a, Credit, false, None, None));
      rows := rows + [WalletRow(a, account.opening, totalIn, totalOut, Amount(savings, a), Amount(adjustment, a),
        account.current)];
    }
    assert wallets[..|wallets|] == wallets;
    r := Overview(totalBalance, inactiveAmount, totalBalance - inactiveAmount, rows);
  }

  /** Every wallet row explains its balance: opening, in, out, what went to savings, what was moved. */
  lemma WalletRowExplainsBalance(db: Db, b: BusinessId, a: AccountId)
    requires LedgerInv(db)
    requires IsMoneyAccount(db.accounts, b, a)
    ensures var row := WalletRowOf(db, a);
      row.current == row.opening + row.totalIn - row.totalOut - row.savings + row.adjustment
  {
    BalanceIsLiveBalance(db, a);
    LiveNetByKind(db.txs, a);
    KindNetIsDebitsMinusCredits(db.txs, a, false);
    SumLinear(db.txs, AdjustmentOf(db.accounts, a), SavingsOf(db.accounts, a), NetOfKind(a, true), -1);
  }

  // ----- what the figures count, test by test

  /** One side's entries on an account of live postings that are, or are not, transfers, dated from the first
      day to the last where they are given. */
  function Counts(a: AccountId, side: Side, transfers: bool, from: Option<int>, to: Option<int>): Tx -> int {
    (t: Tx) =>
      if !t.voided && t.reversalOf == None && (t.txType == TransferTx) == transfers
        && (from == None || from.value <= t.date) && (to == None || t.date <= to.value)
      then SumBy(t.entries, EntryOn(a, side)) else 0
  }

  /** The side that raises an account of this type. */
  function RaisingSide(t: AccountType): Side {
    match t
    case Asset => Debit
    case Expense => Debit
    case Liability => Credit
    case Equity => Credit
    case Income => Credit
  }

  function OtherSide(side: Side): Side {
    match side case Debit => Credit case Credit => Debit
  }

  lemma CountsAre(txs: seq<Tx>, a: AccountId, side: Side, transfers: bool, from: Option<int>, to: Option<int>)
    ensures SumBy(txs, LiveOn(a, side, transfers, from, to)) == SumBy(txs, Counts(a, side, transfers, from, to))
  {
    SumCong(txs, LiveOn(a, side, transfers, from, to), Counts(a, side, transfers, from, to));
  }

  /** In is what raised the account other than by transfers, out what lowered it, and the adjustment is what
      transfers raised less what they lowered, all over the days asked for; the balance is the cached one. */
  lemma SummaryFigures(db: Db, b: BusinessId, a: AccountId, from: Option<int>, to: Option<int>)
    ensures GetAccountSummary(db, b, a, from, to).Ok? <==> a < |db.accounts| && db.accounts[a].business == b
    ensures GetAccountSummary(db, b, a, from, to).Err? ==> GetAccountSummary(db, b, a, from, to) == Err(AccountNotFound)
    ensures a < |db.accounts| && db.accounts[a].business == b ==>
      var s, up := GetAccountSummary(db, b, a, from, to).value, RaisingSide(db.accounts[a].accountType);
      && s.currentBalance == db.accounts[a].current
      && s.totalIn == SumBy(db.txs, Counts(a, up, false, from, to))
      && s.totalOut == SumBy(db.txs, Counts(a, OtherSide(up), false, from, to))
      && s.adjustment ==
        SumBy(db.txs, Counts(a, up, true, from, to)) - SumBy(db.txs, Counts(a, OtherSide(up), true, from, to))
  {
    CountsAre(db.txs, a, Debit, false, from, to);
    CountsAre(db.txs, a, Credit, false, from, to);
    CountsAre(db.txs, a, Debit, true, from, to);
    CountsAre(db.txs, a, Credit, true, from, to);
  }

  /** A live transfer's debits less credits on an account, for transfers with, or without, an entry on some
      other account that is a savings one. */
  function Transferred(accounts: seq<Account>, a: AccountId, toSavings: bool): Tx -> int {
    (t: Tx) =>
      if !t.voided && t.reversalOf == None && t.txType == TransferTx
        && (exists e | e in t.entries ::
          e.account != a && e.account < |accounts| && accounts[e.account].subtype == Some("savings")) == toSavings
      then Net(t.entries, a) else 0
  }

  /** A wallet row: opening and cached balance, what came in and went out other than by transfers, what
      transfers sent to savings, and what the other transfers moved in. */
  lemma WalletFigures(db: Db, a: AccountId)
    requires a < |db.accounts|
    ensures var row := WalletRowOf(db, a);
      && row.account == a && row.opening == db.accounts[a].opening && row.current == db.accounts[a].current
      && row.totalIn == SumBy(db.txs, Counts(a, Debit, false, None, None))
      && row.totalOut == SumBy(db.txs, Counts(a, Credit, false, None, None))
      && row.savings == -SumBy(db.txs, Transferred(db.accounts, a, true))
      && row.adjustment == SumBy(db.txs, Transferred(db.accounts, a, false))
  {
    CountsAre(db.txs, a, Debit, false, None, None);
    CountsAre(db.txs, a, Credit, false, None, None);
    SumScale(db.txs, Transferred(db.accounts, a, true), SavingsOf(db.accounts, a), -1);
    SumCong(db.txs, AdjustmentOf(db.accounts, a), Transferred(db.accounts, a, false));
  }

  /** The wallets are the workspace's cash, bank and mobile-money asset accounts, each once, in table order. */
  lemma {:induction false} WalletsIff(accounts: seq<Account>, b: BusinessId, k: nat)
    requires k <= |accounts|
    ensures forall a: AccountId :: a in WalletsOf(accounts, b, k) <==>
      && a < k && accounts[a].business == b && accounts[a].accountType == Asset
      && accounts[a].subtype in {Some("cash"), Some("bank"), Some("mfs")}
    ensures forall i, j :: 0 <= i < j < |WalletsOf(accounts, b, k)| ==>
      WalletsOf(accounts, b, k)[i] < WalletsOf(accounts, b, k)[j]
  {
    if k > 0 {
      WalletsIff(accounts, b, k - 1);
    }
  }

  /** The workspace's cash, bank and mobile-money balances, archived accounts' only if asked for. */
  function MoneyHeld(accounts: seq<Account>, b: BusinessId, archivedOnly: bool): AccountId -> int {
    (a: AccountId) =>
      if a < |accounts| && accounts[a].business == b && accounts[a].accountType == Asset
        && accounts[a].subtype in {Some("cash"), Some("bank"), Some("mfs")} && (archivedOnly ==> accounts[a].archived)
      then accounts[a].current else 0
  }

  function OfMoney(accounts: seq<Account>, b: BusinessId): AccountId -> bool {
    (a: AccountId) => IsMoneyAccount(accounts, b, a)
  }

  lemma OneMoreFiltered(before: seq<AccountId>, k: nat, keep: bool, p: AccountId -> bool)
    requires before == Filter<AccountId>(Range(k), p) && keep == p(k)
    ensures before + (if keep then [k] else []) == Filter<AccountId>(Range(k + 1), p)
  {
    RangeSnoc(k);
    FilterSnoc<AccountId>(Range(k), k, p);
  }

  lemma {:induction false} WalletsAreFiltered(accounts: seq<Account>, b: BusinessId, k: nat)
    requires k <= |accounts|
    ensures WalletsOf(accounts, b, k) == Filter<AccountId>(Range(k), OfMoney(accounts, b))
  {
    if k > 0 {
      WalletsAreFiltered(accounts, b, k - 1);
      OneMoreFiltered(WalletsOf(accounts, b, k - 1), k - 1, IsMoneyAccount(accounts, b, k - 1), OfMoney(accounts, b));
    }
  }

  lemma MoneyTotal(accounts: seq<Account>, b: BusinessId, f: AccountId -> int, archivedOnly: bool)
    requires f == if archivedOnly then ArchivedOf(accounts) else CurrentOf(accounts)
    ensures SumBy<AccountId>(WalletsOf(accounts, b, |accounts|), f) ==
      SumBy<AccountId>(Range(|accounts|), MoneyHeld(accounts, b, archivedOnly))
  {
    var all, money := Range(|accounts|), OfMoney(accounts, b);
    WalletsAreFiltered(accounts, b, |accounts|);
    SumFilter<AccountId>(all, money, f);
    SumCong<AccountId>(all, If<AccountId>(money, f), MoneyHeld(accounts, b, archivedOnly));
  }

  /** The three totals: all the workspace's money, what of it is on archived accounts, and the rest. */
  lemma OverviewTotals(accounts: seq<Account>, b: BusinessId)
    ensures var wallets, all := WalletsOf(accounts, b, |accounts|), Range(|accounts|);
      && SumBy<AccountId>(wallets, CurrentOf(accounts)) == SumBy<AccountId>(all, MoneyHeld(accounts, b, false))
      && SumBy<AccountId>(wallets, ArchivedOf(accounts)) == SumBy<AccountId>(all, MoneyHeld(accounts, b, true))
  {
    MoneyTotal(accounts, b, CurrentOf(accounts), false);
    MoneyTotal(accounts, b, ArchivedOf(accounts), true);
  }
}
