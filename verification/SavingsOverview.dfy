/** The savings wallets' overview: where the money physically sits, next to what the goals say is saved. */
module SavingsOverviews {
  import opened Base
  import opened Sorting
  import opened Ledger
  import opened LedgerRuns
  import opened LedgerViews
  import opened Savings

  datatype SavingsRow = SavingsRow(account: AccountId, archived: bool, opening: int, totalIn: int, totalOut: int,
      current: int)

  datatype AccountOverview = AccountOverview(totalBalance: int, inactiveAmount: int, availableBalance: int,
      rows: seq<SavingsRow>)

  /** Savings wallets of the workspace; the hidden pooled one only while it still holds something. */
  function IsShown(accounts: seq<Account>, b: BusinessId): AccountId -> bool {
    (a: AccountId) => IsWalletOf(accounts, b, a) && (!accounts[a].isSystem || accounts[a].current != 0)
  }

  function Shown(accounts: seq<Account>, b: BusinessId): seq<AccountId> {
    Filter<AccountId>(Range(|accounts|), IsShown(accounts, b))
  }

  /** Live entries of one side on an account. */
  function LiveSide(a: AccountId, side: Side): Tx -> int {
    (t: Tx) => if IsLive(t) then SumBy(t.entries, EntryOn(a, side)) else 0
  }

  function SavingsRowOf(db: Db, a: AccountId): SavingsRow
    requires a < |db.accounts|
  {
    var account := db.accounts[a];
    SavingsRow(a, account.archived, account.opening, SumBy(db.txs, LiveSide(a, Debit)),
      SumBy(db.txs, LiveSide(a, Credit)), account.current)
  }

  lemma ShownIsWallet(accounts: seq<Account>, b: BusinessId, k: nat)
    requires k < |Shown(accounts, b)|
    ensures IsWalletOf(accounts, b, Shown(accounts, b)[k])
  {
    FilterMember<AccountId>(Range(|accounts|), IsShown(accounts, b), Shown(accounts, b)[k]);
  }

  method GetAccountOverview(db: Db, b: BusinessId) returns (r: AccountOverview)
    ensures var wallets := Shown(db.accounts, b);
      && |r.rows| == |wallets|
      && (forall k :: 0 <= k < |wallets| ==> wallets[k] < |db.accounts| && r.rows[k] == SavingsRowOf(db, wallets[k]))
      && r.totalBalance == SumBy<AccountId>(wallets, CurrentOf(db.accounts))
      && r.inactiveAmount == SumBy<AccountId>(wallets, ArchivedOf(db.accounts))
      && r.availableBalance == r.totalBalance - r.inactiveAmount
  {
    var wallets: seq<AccountId> := Shown(db.accounts, b);
    var rows: seq<SavingsRow> := [];
    var totalBalance, inactiveAmount := 0, 0;
    for k := 0 to |wallets|
      invariant |rows| == k
      invariant forall i :: 0 <= i < k ==> wallets[i] < |db.accounts| && rows[i] == SavingsRowOf(db, wallets[i])
      invariant totalBalance == SumBy<AccountId>(wallets[..k], CurrentOf(db.accounts))
      invariant inactiveAmount == SumBy<AccountId>(wallets[..k], ArchivedOf(db.accounts))
    {
      ShownIsWallet(db.accounts, b, k);
      SumTake<AccountId>(wallets, k, CurrentOf(db.accounts));
      SumTake<AccountId>(wallets, k, ArchivedOf(db.accounts));
      var account := db.accounts[wallets[k]];
      totalBalance := totalBalance + account.current;
      if account.archived {
        inactiveAmount := inactiveAmount + account.current;
      }
      rows := rows + [SavingsRowOf(db, wallets[k])];
    }
    assert wallets[..|wallets|] == wallets;
    r := AccountOverview(totalBalance, inactiveAmount, totalBalance - inactiveAmount, rows);
  }

  /** Each row explains its balance, although voided pairs count in the balance only. */
  lemma SavingsRowExplainsBalance(db: Db, b: BusinessId, a: AccountId)
    requires LedgerInv(db) && IsWalletOf(db.accounts, b, a)
    ensures var row := SavingsRowOf(db, a); row.current == row.opening + row.totalIn - row.totalOut
  {
    BalanceIsLiveBalance(db, a);
    forall i | 0 <= i < |db.txs|
      ensures LiveOnly(TxNet(a))(db.txs[i]) == LiveSide(a, Debit)(db.txs[i]) + -1 * LiveSide(a, Credit)(db.txs[i])
    {
      SumLinear(db.txs[i].entries, EntryOn(a, Debit), EntryOn(a, Credit), EntryNet(a), -1);
    }
    SumLinear(db.txs, LiveSide(a, Debit), LiveSide(a, Credit), LiveOnly(TxNet(a)), -1);
  }

  function WalletOpening(accounts: seq<Account>, b: BusinessId): AccountId -> int {
    (a: AccountId) => if a < |accounts| && IsWalletOf(accounts, b, a) then accounts[a].opening else 0
  }

  /** The page's total is the wallets' opening balances plus everything the goals show as saved, although it
      leaves out the hidden wallet when that is empty. */
  lemma OverviewMatchesGoals(s: Savings, b: BusinessId)
    requires SavingsInv(s)
    ensures SumBy<AccountId>(Shown(s.db.accounts, b), CurrentOf(s.db.accounts)) ==
      SumBy<AccountId>(Range(|s.db.accounts|), WalletOpening(s.db.accounts, b)) + SumBy<GoalId>(Range(|s.goals|),
        GoalSaved(s, b))
  {
    var accounts := s.db.accounts;
    var all := Range(|accounts|);
    SumFilter<AccountId>(all, IsShown(accounts, b), CurrentOf(accounts));
    SumLinear<AccountId>(all, WalletOpening(accounts, b), WalletMoved(accounts, b),
      If<AccountId>(IsShown(accounts, b), CurrentOf(accounts)), 1);
    SavingsTieToWallets(s, b);
  }

  /** Listed, each once and in table order, are the workspace's savings wallets, the system's own only while it
      holds something; a row has the wallet's balances and what live postings put in and took out. */
  lemma ShownIff(accounts: seq<Account>, b: BusinessId, a: AccountId)
    ensures a in Shown(accounts, b) <==>
      && a < |accounts| && accounts[a].business == b && accounts[a].accountType == Asset
      && accounts[a].subtype == Some("savings") && (accounts[a].isSystem ==> accounts[a].current != 0)
  {
    FilterMember<AccountId>(Range(|accounts|), IsShown(accounts, b), a);
    if a < |accounts| {
      assert Range(|accounts|)[a] == a;
    }
  }

  function PutInto(a: AccountId, side: Side): Tx -> int {
    (t: Tx) => if !t.voided && t.reversalOf == None then SumBy(t.entries, EntryOn(a, side)) else 0
  }

  lemma SavingsFigures(db: Db, a: AccountId)
    requires a < |db.accounts|
    ensures var row := SavingsRowOf(db, a);
      && row.account == a && row.archived == db.accounts[a].archived && row.opening == db.accounts[a].opening
      && row.current == db.accounts[a].current
      && row.totalIn == SumBy(db.txs, PutInto(a, Debit)) && row.totalOut == SumBy(db.txs, PutInto(a, Credit))
  {
    SumCong(db.txs, LiveSide(a, Debit), PutInto(a, Debit));
    SumCong(db.txs, LiveSide(a, Credit), PutInto(a, Credit));
  }

  function SavingsHeld(accounts: seq<Account>, b: BusinessId, archivedOnly: bool): AccountId -> int {
    (a: AccountId) =>
      if a < |accounts| && accounts[a].business == b && accounts[a].accountType == Asset
        && accounts[a].subtype == Some("savings") && (archivedOnly ==> accounts[a].archived)
      then accounts[a].current else 0
  }

  /** The totals: all that the workspace's savings wallets hold, and what of it is on archived ones. */
  lemma SavingsTotals(accounts: seq<Account>, b: BusinessId)
    ensures var wallets, all := Shown(accounts, b), Range(|accounts|);
      && SumBy<AccountId>(wallets, CurrentOf(accounts)) == SumBy<AccountId>(all, SavingsHeld(accounts, b, false))
      && SumBy<AccountId>(wallets, ArchivedOf(accounts)) == SumBy<AccountId>(all, SavingsHeld(accounts, b, true))
  {
    var all := Range(|accounts|);
    SumFilter<AccountId>(all, IsShown(accounts, b), CurrentOf(accounts));
    SumFilter<AccountId>(all, IsShown(accounts, b), ArchivedOf(accounts));
    SumCong<AccountId>(all, If<AccountId>(IsShown(accounts, b), CurrentOf(accounts)), SavingsHeld(accounts, b, false));
    SumCong<AccountId>(all, If<AccountId>(IsShown(accounts, b), ArchivedOf(accounts)), SavingsHeld(accounts, b, true));
  }
}
