/** The trial balance, and why its two totals agree. */
module TrialBalances {
  import opened Base
  import opened Ledger
  import opened LedgerRuns

  // ----- one posting's effect on a group of accounts

  function EntryWithin(p: AccountId -> bool): Entry -> int {
    (e: Entry) => if p(e.account) then Signed(e) else 0
  }

  /** Debits minus credits of one posting on a group of accounts. */
  function TxWithin(p: AccountId -> bool): Tx -> int {
    (t: Tx) => SumBy(t.entries, EntryWithin(p))
  }

  function GroupedEntry(p: AccountId -> bool): (AccountId, Entry) -> int {
    (a: AccountId, e: Entry) => if p(a) && e.account == a then Signed(e) else 0
  }

  function GroupedTx(p: AccountId -> bool): (AccountId, Tx) -> int {
    (a: AccountId, t: Tx) => if p(a) then Net(t.entries, a) else 0
  }

  function GroupedNet(p: AccountId -> bool, txs: seq<Tx>): AccountId -> int {
    (a: AccountId) => if p(a) then AccountNet(txs, a) else 0
  }

  lemma EntrySpreads(n: nat, p: AccountId -> bool, e: Entry)
    requires e.account < n
    ensures SumBy(Range(n), Column<AccountId, Entry>(e, GroupedEntry(p))) == EntryWithin(p)(e)
  {
    var f := Column<AccountId, Entry>(e, GroupedEntry(p));
    forall i | 0 <= i < n && i != e.account
      ensures f(Range(n)[i]) == 0
    {
      assert f(i) == GroupedEntry(p)(i, e);
    }
    SumSingle<AccountId>(Range(n), f, e.account);
    assert Range(n)[e.account] == e.account;
  }

  /** A posting spreads over accounts: account by account or entry by entry, the sum is the same. */
  lemma PostingSpreads(n: nat, p: AccountId -> bool, t: Tx)
    requires forall e | e in t.entries :: e.account < n
    ensures ColumnSum<AccountId, Tx>(Range(n), GroupedTx(p))(t) == TxWithin(p)(t)
  {
    var g := GroupedEntry(p);
    SumSwap<AccountId, Entry>(Range(n), t.entries, g);
    forall i | 0 <= i < |t.entries|
      ensures ColumnSum<AccountId, Entry>(Range(n), g)(t.entries[i]) == EntryWithin(p)(t.entries[i])
    {
      assert t.entries[i] in t.entries;
      EntrySpreads(n, p, t.entries[i]);
    }
    SumCong(t.entries, ColumnSum<AccountId, Entry>(Range(n), g), EntryWithin(p));
    forall i | 0 <= i < n
      ensures RowSum<AccountId, Entry>(t.entries, g)(Range(n)[i]) == GroupedTx(p)(Range(n)[i], t)
    {
      if p(i) {
        SumCong(t.entries, At<AccountId, Entry>(i, g), EntryNet(i));
      } else {
        SumZero(t.entries, At<AccountId, Entry>(i, g));
      }
    }
    SumCong<AccountId>(Range(n), RowSum<AccountId, Entry>(t.entries, g), Column<AccountId, Tx>(t, GroupedTx(p)));
  }

  /** Over a whole ledger: the net movement of a group of accounts, account by account, is the net
      movement of the postings, posting by posting. */
  lemma LedgerSpreads(n: nat, p: AccountId -> bool, txs: seq<Tx>)
    requires forall i :: 0 <= i < |txs| ==> forall e | e in txs[i].entries :: e.account < n
    ensures SumBy(Range(n), GroupedNet(p, txs)) == SumBy(txs, TxWithin(p))
  {
    var g := GroupedTx(p);
    SumSwap<AccountId, Tx>(Range(n), txs, g);
    forall i | 0 <= i < |txs|
      ensures ColumnSum<AccountId, Tx>(Range(n), g)(txs[i]) == TxWithin(p)(txs[i])
    {
      PostingSpreads(n, p, txs[i]);
    }
    SumCong(txs, ColumnSum<AccountId, Tx>(Range(n), g), TxWithin(p));
    forall i | 0 <= i < n
      ensures RowSum<AccountId, Tx>(txs, g)(Range(n)[i]) == GroupedNet(p, txs)(Range(n)[i])
    {
      if p(i) {
        SumCong(txs, At<AccountId, Tx>(i, g), TxNet(i));
      } else {
        SumZero(txs, At<AccountId, Tx>(i, g));
      }
    }
    SumCong<AccountId>(Range(n), RowSum<AccountId, Tx>(txs, g), GroupedNet(p, txs));
  }

  // ----- the report

  datatype TrialRow = TrialRow(account: AccountId, debit: int, credit: int)

  datatype TrialBalance = TrialBalance(rows: seq<TrialRow>, totalDebit: int, totalCredit: int, isBalanced: bool)

  function SideOf(account: Account, amount: int): int {
    if IsDebitPositive(account.accountType) then amount else -amount
  }

  function SignedCurrent(accounts: seq<Account>, b: BusinessId): AccountId -> int {
    (a: AccountId) => if a < |accounts| && accounts[a].business == b then SideOf(accounts[a], accounts[a].current)
      else 0
  }

  function SignedOpening(accounts: seq<Account>, b: BusinessId): AccountId -> int {
    (a: AccountId) => if a < |accounts| && accounts[a].business == b then SideOf(accounts[a], accounts[a].opening)
      else 0
  }

  /** The signed sum of a workspace's opening balances: debit-side minus credit-side. */
  function OpeningGap(db: Db, b: BusinessId): int {
    SumBy(Range(|db.accounts|), SignedOpening(db.accounts, b))
  }

  /** A row never shows a negative figure and fills at most one column; the columns' difference is the
      balance on its type's side. */
  predicate ShowsBalance(row: TrialRow, account: Account) {
    && row.debit >= 0 && row.credit >= 0
    && (row.debit == 0 || row.credit == 0)
    && row.debit - row.credit == SideOf(account, account.current)
  }

  ghost predicate Lists(db: Db, b: BusinessId, row: TrialRow) {
    row.account < |db.accounts| && db.accounts[row.account].business == b && ShowsBalance(row, db.accounts[row.account])
  }

  ghost function ListedAccounts(rows: seq<TrialRow>): seq<AccountId> {
    seq(|rows|, i requires 0 <= i < |rows| => rows[i].account)
  }

  /** The workspace's accounts in table order: what the query returns. */
  function AccountsOf(accounts: seq<Account>, b: BusinessId, k: nat): seq<AccountId>
    requires k <= |accounts|
  {
    if k == 0 then [] else AccountsOf(accounts, b, k - 1) + if accounts[k - 1].business == b then [k - 1] else []
  }

  function RowFor(k: AccountId, account: Account): (row: TrialRow)
    ensures row.account == k && ShowsBalance(row, account)
  {
    if IsDebitPositive(account.accountType) then
      if account.current >= 0 then TrialRow(k, account.current, 0) else TrialRow(k, 0, Abs(account.current))
    else
      if account.current >= 0 then TrialRow(k, 0, account.current) else TrialRow(k, Abs(account.current), 0)
  }

  function DebitColumn(): TrialRow -> int {
    (row: TrialRow) => row.debit
  }

  function CreditColumn(): TrialRow -> int {
    (row: TrialRow) => row.credit
  }

  /** Which column a balance is shown in, type by type; an overdrawn one flips into the other column. */
  lemma ColumnByType(row: TrialRow, account: Account)
    requires ShowsBalance(row, account)
    ensures match account.accountType
      case Asset => row.debit == Max(0, account.current) && row.credit == Max(0, -account.current)
      case Expense => row.debit == Max(0, account.current) && row.credit == Max(0, -account.current)
      case Liability => row.credit == Max(0, account.current) && row.debit == Max(0, -account.current)
      case Equity => row.credit == Max(0, account.current) && row.debit == Max(0, -account.current)
      case Income => row.credit == Max(0, account.current) && row.debit == Max(0, -account.current)
  {
  }

  /** The listed accounts are the workspace's own, each once, in table order. */
  lemma {:induction false} AccountsIff(accounts: seq<Account>, b: BusinessId, k: nat)
    requires k <= |accounts|
    ensures forall a: AccountId :: a in AccountsOf(accounts, b, k) <==> a < k && accounts[a].business == b
    ensures forall i, j :: 0 <= i < j < |AccountsOf(accounts, b, k)| ==>
      AccountsOf(accounts, b, k)[i] < AccountsOf(accounts, b, k)[j]
  {
    if k > 0 {
      AccountsIff(accounts, b, k - 1);
      var before := AccountsOf(accounts, b, k - 1);
      forall i | 0 <= i < |before|
        ensures before[i] < k - 1
      {
        assert before[i] in before;
      }
    }
  }

  function OfBusiness(accounts: seq<Account>, b: BusinessId): AccountId -> bool {
    (a: AccountId) => a < |accounts| && accounts[a].business == b
  }

  /** A balanced posting moves nothing between a workspace's debit and credit side. */
  lemma PostingsAreNeutral(db: Db, b: BusinessId)
    requires AllSound(db)
    ensures SumBy(db.txs, TxWithin(OfBusiness(db.accounts, b))) == 0
  {
    var p := OfBusiness(db.accounts, b);
    forall i | 0 <= i < |db.txs|
      ensures TxWithin(p)(db.txs[i]) == 0
    {
      var t := db.txs[i];
      assert Sound(db, t);
      if t.business == b {
        BalancedMeansSignedZero(t.entries);
        SumCong(t.entries, EntryWithin(p), SignedAmount());
      } else {
        SumZero(t.entries, EntryWithin(p));
      }
    }
    SumZero(db.txs, TxWithin(p));
  }

  /** The two totals differ by the signed opening balances and by nothing else. */
  lemma TrialGapIsOpeningGap(db: Db, b: BusinessId)
    requires LedgerInv(db)
    ensures SumBy(Range(|db.accounts|), SignedCurrent(db.accounts, b)) == OpeningGap(db, b)
  {
    var n := |db.accounts|;
    var p := OfBusiness(db.accounts, b);
    forall i | 0 <= i < n
      ensures SignedCurrent(db.accounts, b)(Range(n)[i]) ==
        SignedOpening(db.accounts, b)(Range(n)[i]) + 1 * GroupedNet(p, db.txs)(Range(n)[i])
    {
    }
    SumLinear(Range(n), SignedOpening(db.accounts, b), GroupedNet(p, db.txs), SignedCurrent(db.accounts, b), 1);
    assert forall i :: 0 <= i < |db.txs| ==> Sound(db, db.txs[i]);
    LedgerSpreads(n, p, db.txs);
    PostingsAreNeutral(db, b);
  }

  /** Lists every account of the workspace once, splits each balance into its column and totals both. */
  method GetTrialBalance(db: Db, b: BusinessId) returns (r: TrialBalance)
    ensures r.totalDebit == SumBy(r.rows, DebitColumn()) && r.totalCredit == SumBy(r.rows, CreditColumn())
    ensures r.totalDebit - r.totalCredit == SumBy(Range(|db.accounts|), SignedCurrent(db.accounts, b))
    ensures r.isBalanced <==> r.totalDebit == r.totalCredit
    ensures LedgerInv(db) ==> (r.isBalanced <==> OpeningGap(db, b) == 0)
    ensures r.totalDebit >= 0 && r.totalCredit >= 0
    ensures forall i :: 0 <= i < |r.rows| ==> Lists(db, b, r.rows[i])
    ensures ListedAccounts(r.rows) == AccountsOf(db.accounts, b, |db.accounts|)
  {
    var rows: seq<TrialRow> := [];
    var totalDebit, totalCredit := 0, 0;
    for k := 0 to |db.accounts|
      invariant totalDebit >= 0 && totalCredit >= 0
      invariant totalDebit == SumBy(rows, DebitColumn()) && totalCredit == SumBy(rows, CreditColumn())
      invariant totalDebit - totalCredit == SumBy(Range(k), SignedCurrent(db.accounts, b))
      invariant forall i :: 0 <= i < |rows| ==> Lists(db, b, rows[i])
      invariant ListedAccounts(rows) == AccountsOf(db.accounts, b, k)
    {
      RangeSnoc(k);
      var account := db.accounts[k];
      if account.business == b {
        var row := RowFor(k, account);
        totalDebit := totalDebit + row.debit;
        totalCredit := totalCredit + row.credit;
        SumSnoc(rows, row, DebitColumn());
        SumSnoc(rows, row, CreditColumn());
        assert ListedAccounts(rows + [row]) == ListedAccounts(rows) + [k];
        rows := rows + [row];
      }
    }
    r := TrialBalance(rows, totalDebit, totalCredit, totalDebit == totalCredit);
    if LedgerInv(db) {
      TrialGapIsOpeningGap(db, b);
    }
  }

  /** No run of postings and voids moves the gap: a workspace's trial balance balances after any
      history exactly when its accounts' signed opening balances add up to zero. */
  lemma RunKeepsTrialGap(db: Db, cs: seq<Command>, b: BusinessId)
    requires LedgerInv(db)
    ensures var after := Run(db, cs);
      SumBy(Range(|after.accounts|), SignedCurrent(after.accounts, b)) == OpeningGap(db, b)
  {
    var after := Run(db, cs);
    RunKeepsInv(db, cs);
    TrialGapIsOpeningGap(after, b);
    RunExtends(db, cs);
    forall i | 0 <= i < |db.accounts|
      ensures SignedOpening(after.accounts, b)(Range(|db.accounts|)[i]) ==
        SignedOpening(db.accounts, b)(Range(|db.accounts|)[i])
    {
      assert after.accounts[i].(current := db.accounts[i].current) == db.accounts[i];
    }
    SumCong(Range(|db.accounts|), SignedOpening(after.accounts, b), SignedOpening(db.accounts, b));
  }
}
