/** The ledger's writes as the service performs them: statement by statement on the tables. */
module LedgerServices {
  import opened Base
  import opened Ledger

  datatype Discrepancy = Discrepancy(account: AccountId, cached: int, recalculated: int)

  ghost function IdSet(ids: seq<AccountId>): set<AccountId> {
    set a | a in ids
  }

  lemma IdSetSnoc(ids: seq<AccountId>, k: nat)
    requires k < |ids|
    ensures IdSet(ids[..k + 1]) == IdSet(ids[..k]) + {ids[k]}
  {
    assert ids[..k + 1] == ids[..k] + [ids[k]];
  }

  lemma RecacheOneMore(accounts: seq<Account>, txs: seq<Tx>, done: set<AccountId>, a: AccountId)
    requires a < |accounts|
    ensures var was := Recached(accounts, txs, done);
      Recached(accounts, txs, done + {a}) == was[a := was[a].(current := BalanceOf(was[a], a, txs))]
  {
    var was := Recached(accounts, txs, done);
    assert was[a].(current := BalanceOf(was[a], a, txs)) == accounts[a].(current := BalanceOf(accounts[a], a, txs));
  }

  ghost function InBusiness(accounts: seq<Account>, b: BusinessId, k: nat): set<AccountId>
    requires k <= |accounts|
  {
    set a: nat | a < k && accounts[a].business == b
  }

  /** A discrepancy names an account of the workspace whose cached balance differs from what its entries give,
      and both figures. */
  ghost predicate Reports(accounts: seq<Account>, txs: seq<Tx>, b: BusinessId, d: Discrepancy)
    requires d.account < |accounts|
  {
    && accounts[d.account].business == b
    && d.cached == accounts[d.account].current
    && d.recalculated == BalanceOf(accounts[d.account], d.account, txs)
    && d.cached != d.recalculated
  }

  /** Reported are the discrepancies of the first `k` accounts, and nothing else. */
  ghost predicate ReportsUpTo(accounts: seq<Account>, txs: seq<Tx>, b: BusinessId, k: nat, found: seq<Discrepancy>)
    requires k <= |accounts|
  {
    forall d :: d in found <==> d.account < k && Reports(accounts, txs, b, d)
  }

  lemma InBusinessOneMore(accounts: seq<Account>, b: BusinessId, k: nat)
    requires k < |accounts|
    ensures InBusiness(accounts, b, k + 1) == InBusiness(accounts, b, k) + if accounts[k].business == b then {k} else {}
  {
  }

  lemma ReportsOneMore(accounts: seq<Account>, txs: seq<Tx>, b: BusinessId, k: nat, found: seq<Discrepancy>)
    requires k < |accounts| && ReportsUpTo(accounts, txs, b, k, found)
    ensures var cached, recalculated := accounts[k].current, BalanceOf(accounts[k], k, txs);
      ReportsUpTo(accounts, txs, b, k + 1,
        if accounts[k].business == b && cached != recalculated then found + [Discrepancy(k, cached, recalculated)]
          else found)
  {
  }

  lemma CoherentReportsNothing(accounts: seq<Account>, contacts: seq<Contact>, txs: seq<Tx>, b: BusinessId,
      found: seq<Discrepancy>)
    requires ReportsUpTo(accounts, txs, b, |accounts|, found)
    ensures Cached(Db(accounts, contacts, txs)) ==>
      found == [] && Recached(accounts, txs, InBusiness(accounts, b, |accounts|)) == accounts
  {
    if found != [] {
      assert found[0] in found;
    }
  }

  class LedgerService {
    var accounts: seq<Account>
    var contacts: seq<Contact>
    var txs: seq<Tx>

    constructor (db: Db)
      ensures Tables() == db
    {
      accounts, contacts, txs := db.accounts, db.contacts, db.txs;
    }

    function Tables(): Db
      reads this
    {
      Db(accounts, contacts, txs)
    }

    /** Rebuilds one cached balance from its two aggregates and writes it back. */
    method RecalculateBalance(id: AccountId) returns (r: Result<int, Error>)
      modifies this`accounts
      ensures id >= |old(accounts)| ==> r == Err(AccountNotFound) && accounts == old(accounts)
      ensures id < |old(accounts)| ==>
        && r == Ok(BalanceOf(old(accounts)[id], id, txs))
        && accounts == old(accounts)[id := old(accounts)[id].(current := BalanceOf(old(accounts)[id], id, txs))]
    {
      if id >= |accounts| {
        return Err(AccountNotFound);
      }
      var account := accounts[id];
      var debitTotal := Aggregate(txs, id, Debit);
      var creditTotal := Aggregate(txs, id, Credit);
      NetIsDebitsMinusCredits(txs, id);
      var balance := if IsDebitPositive(account.accountType)
        then account.opening + debitTotal - creditTotal
        else account.opening + creditTotal - debitTotal;
      accounts := accounts[id := account.(current := balance)];
      return Ok(balance);
    }

    method RecalculateAll(ids: seq<AccountId>)
      requires forall a | a in ids :: a < |accounts|
      modifies this`accounts
      ensures accounts == Recached(old(accounts), txs, IdSet(ids))
    {
      ghost var before := accounts;
      for k := 0 to |ids|
        invariant accounts == Recached(before, txs, IdSet(ids[..k]))
      {
        IdSetSnoc(ids, k);
        assert ids[k] in ids;
        RecalculateOneMore(before, IdSet(ids[..k]), ids[k]);
      }
      assert ids[..|ids|] == ids;
    }

    method RecalculateOneMore(ghost before: seq<Account>, ghost done: set<AccountId>, id: AccountId)
      requires id < |before| && accounts == Recached(before, txs, done)
      modifies this`accounts
      ensures accounts == Recached(before, txs, done + {id})
    {
      var _ := RecalculateBalance(id);
      RecacheOneMore(before, txs, done, id);
    }

    method Post(b: BusinessId, req: PostRequest) returns (r: Result<TxId, Error>)
      modifies this
      ensures match PostStep(old(Tables()), b, req)
        case Ok(done) => r == Ok(done.1) && Tables() == done.0
        case Err(e) => r == Err(e) && Tables() == old(Tables())
    {
      if req.key.Some? {
        var existing := FindKey(txs, req.key.value);
        if existing.Some? {
          if txs[existing.value].business != b {
            return Err(KeyUsedElsewhere);
          }
          return Ok(existing.value);
        }
      }
      var ids := DistinctAccounts(req.entries);
      var problem := Validate(b, req, ids);
      if problem.Some? {
        return Err(problem.value);
      }
      assert AccountProblem(accounts, Touched(req.entries), b).None?;
      assert forall a | a in ids :: a in IdSet(ids);
      assert forall a | a in ids :: a in Touched(req.entries);
      r := Ok(|txs|);
      txs := txs + [Posted(b, req)];
      RecalculateAll(ids);
    }

    /** Every check between the idempotency lookup and the first write. */
    method Validate(b: BusinessId, req: PostRequest, ids: seq<AccountId>) returns (problem: Option<Error>)
      requires IdSet(ids) == Touched(req.entries)
      ensures problem == CheckPost(Tables(), b, req)
    {
      problem := ValidateEntryShape(req.entries);
      if problem.Some? {
        return;
      }
      problem := RequireAccountsBelongToBusiness(ids, b);
      if problem.Some? {
        return;
      }
      if !ContactLinked(Tables(), b, req.contact) {
        return Some(UnknownContact);
      }
      if !TargetLinked(Tables(), b, req) {
        return Some(BadTarget);
      }
      var debitTotal, creditTotal := SumEntries(req.entries);
      problem := if debitTotal != creditTotal then Some(Unbalanced) else None;
    }

    method Void(b: BusinessId, id: TxId, today: int) returns (r: Result<TxId, Error>)
      requires AllSound(Tables())
      modifies this
      ensures match VoidStep(old(Tables()), b, id, today)
        case Ok(done) => r == Ok(done.1) && Tables() == done.0
        case Err(e) => r == Err(e) && Tables() == old(Tables())
    {
      var problem := ValidateVoid(b, id);
      if problem.Some? {
        return Err(problem.value);
      }
      var original := txs[id];
      var ids := DistinctAccounts(original.entries);
      assert forall a | a in ids :: a < |accounts| by {
        assert Sound(Tables(), original);
        assert forall a | a in ids :: a in IdSet(ids);
      }
      txs := txs[id := original.(voided := true)];
      r := Ok(|txs|);
      txs := txs + [Reversal(original, id, today)];
      RecalculateAll(ids);
    }

    method ValidateVoid(b: BusinessId, id: TxId) returns (problem: Option<Error>)
      ensures problem == CheckVoid(Tables(), b, id)
    {
      if id >= |txs| || txs[id].business != b {
        return Some(TxNotFound);
      }
      if txs[id].reversalOf.Some? {
        return Some(IsReversal);
      }
      if txs[id].voided {
        return Some(AlreadyVoided);
      }
      problem := if OwnedByAFeature(Tables(), txs[id]) then Some(OwnedByFeature) else None;
    }

    /** Recalculates a workspace's accounts and reports exactly those whose cached balance was wrong:
        afterwards all are right, and coherent caches are reported clean and left alone. */
    method Reconcile(b: BusinessId) returns (found: seq<Discrepancy>)
      modifies this`accounts
      ensures accounts == Recached(old(accounts), txs, InBusiness(old(accounts), b, |old(accounts)|))
      ensures ReportsUpTo(old(accounts), txs, b, |old(accounts)|, found)
      ensures |accounts| == |old(accounts)|
      ensures forall a :: 0 <= a < |accounts| ==>
        accounts[a] == if old(accounts)[a].business == b
          then old(accounts)[a].(current := BalanceOf(old(accounts)[a], a, txs)) else old(accounts)[a]
      ensures Cached(old(Tables())) ==> found == [] && accounts == old(accounts)
    {
      found := [];
      ghost var before := accounts;
      for k := 0 to |accounts|
        invariant accounts == Recached(before, txs, InBusiness(before, b, k))
        invariant ReportsUpTo(before, txs, b, k, found)
      {
        InBusinessOneMore(before, b, k);
        ReportsOneMore(before, txs, b, k, found);
        if accounts[k].business == b {
          var cached := accounts[k].current;
          var recalculated := RecalculateBalance(k);
          if cached != recalculated.value {
            found := found + [Discrepancy(k, cached, recalculated.value)];
          }
          RecacheOneMore(before, txs, InBusiness(before, b, k), k);
        }
      }
      CoherentReportsNothing(before, contacts, txs, b, found);
    }

    method RequireAccountsBelongToBusiness(ids: seq<AccountId>, b: BusinessId) returns (problem: Option<Error>)
      ensures problem == AccountProblem(accounts, IdSet(ids), b)
    {
      if exists a | a in ids :: a >= |accounts| {
        assert exists a | a in ids :: a in IdSet(ids) && a >= |accounts|;
        return Some(UnknownAccount);
      }
      forall i | 0 <= i < |ids|
        ensures ids[i] in IdSet(ids) && ids[i] < |accounts|
      {
        assert ids[i] in ids;
      }
      for k := 0 to |ids|
        invariant forall i :: 0 <= i < k ==> accounts[ids[i]].business == b
      {
        if accounts[ids[k]].business != b {
          return Some(ForeignAccount);
        }
      }
      return None;
    }
  }

  method ValidateEntryShape(entries: seq<Entry>) returns (problem: Option<Error>)
    ensures |entries| < 2 ==> problem == Some(TooFewEntries)
    ensures |entries| >= 2 && (exists e | e in entries :: e.amount <= 0) ==> problem == Some(NonPositiveAmount)
    ensures |entries| >= 2 && (forall e | e in entries :: e.amount > 0) ==> problem == None
  {
    if |entries| < 2 {
      return Some(TooFewEntries);
    }
    for k := 0 to |entries|
      invariant forall i :: 0 <= i < k ==> entries[i].amount > 0
    {
      if !(entries[k].amount > 0) {
        return Some(NonPositiveAmount);
      }
    }
    return None;
  }

  /** The two totals that must agree, each being exactly its side's sum. */
  method SumEntries(entries: seq<Entry>) returns (debitTotal: int, creditTotal: int)
    ensures debitTotal == SumBy(entries, AmountOn(Debit))
    ensures creditTotal == SumBy(entries, AmountOn(Credit))
  {
    debitTotal, creditTotal := 0, 0;
    for k := 0 to |entries|
      invariant debitTotal == SumBy(entries[..k], AmountOn(Debit))
      invariant creditTotal == SumBy(entries[..k], AmountOn(Credit))
    {
      SumTake(entries, k, AmountOn(Debit));
      SumTake(entries, k, AmountOn(Credit));
      if entries[k].side.Debit? {
        debitTotal := debitTotal + entries[k].amount;
      } else {
        creditTotal := creditTotal + entries[k].amount;
      }
    }
    assert entries[..|entries|] == entries;
  }

  /** Each account once, in order of first appearance. */
  method DistinctAccounts(entries: seq<Entry>) returns (ids: seq<AccountId>)
    ensures IdSet(ids) == Touched(entries)
    ensures forall i, j :: 0 <= i < j < |ids| ==> ids[i] != ids[j]
  {
    ids := [];
    for k := 0 to |entries|
      invariant IdSet(ids) == Touched(entries[..k])
      invariant forall i, j :: 0 <= i < j < |ids| ==> ids[i] != ids[j]
    {
      assert entries[..k + 1] == entries[..k] + [entries[k]];
      assert Touched(entries[..k + 1]) == Touched(entries[..k]) + {entries[k].account};
      if entries[k].account !in ids {
        assert IdSet(ids + [entries[k].account]) == IdSet(ids) + {entries[k].account};
        ids := ids + [entries[k].account];
      } else {
        assert entries[k].account in IdSet(ids);
      }
    }
    assert entries[..|entries|] == entries;
  }
}
