/** Savings goals: each goal's own log of money in and out, kept equal to real savings wallets. */
module Savings {
  import opened Base
  import opened Ledger
  import opened LedgerRuns
  import opened TrialBalances

  type GoalId = nat

  datatype GoalStatus = Active | Paused | Completed | Withdrawn

  datatype Goal = Goal(business: BusinessId, target: int, status: GoalStatus)

  datatype EntryKind = Contribution | TransferOut | TransferIn | Withdrawal

  datatype GoalEntry = GoalEntry(goal: GoalId, kind: EntryKind, amount: int, date: int, tx: Option<TxId>)

  datatype Savings = Savings(db: Db, goals: seq<Goal>, log: seq<GoalEntry>)

  datatype SavingsError =
    | GoalNotFound | SameGoal | GoalWithdrawn | NothingSaved | NotEnoughSaved | NotEnoughInWallet
    | NotMoneyAccount | NotSavingsWallet | NotExpenseAccount | BadAmount | Refused(error: Error)

  datatype Request =
    | Contribute(goal: GoalId, money: AccountId, wallet: AccountId, amount: int, date: int)
    | Move(from: GoalId, to: GoalId, amount: int, date: int)
    | CashOut(goal: GoalId, wallet: AccountId, expense: AccountId, date: int)

  // ----- reading

  function Signed(e: GoalEntry): int {
    if e.kind.TransferOut? || e.kind.Withdrawal? then -e.amount else e.amount
  }

  function EffectOn(g: GoalId): GoalEntry -> int {
    (e: GoalEntry) => if e.goal == g then Signed(e) else 0
  }

  /** What a goal has saved: money in minus money out. */
  function CurrentAmount(log: seq<GoalEntry>, g: GoalId): int {
    SumBy(log, EffectOn(g))
  }

  function OfKind(g: GoalId, kind: EntryKind): GoalEntry -> int {
    (e: GoalEntry) => if e.goal == g && e.kind == kind then e.amount else 0
  }

  function KindAt(i: nat): EntryKind {
    if i == 0 then Contribution else if i == 1 then TransferOut else if i == 2 then TransferIn else Withdrawal
  }

  function Rank(kind: EntryKind): nat {
    match kind case Contribution => 0 case TransferOut => 1 case TransferIn => 2 case Withdrawal => 3
  }

  /** The effect of the first `n` kinds only. */
  function EffectOfKinds(g: GoalId, n: nat): GoalEntry -> int {
    (e: GoalEntry) => if e.goal == g && Rank(e.kind) < n then Signed(e) else 0
  }

  /** The query groups a goal's entries by kind; the loop adds or subtracts each group. */
  method ComputeCurrentAmount(log: seq<GoalEntry>, g: GoalId) returns (total: int)
    ensures total == CurrentAmount(log, g)
  {
    total := 0;
    SumZero(log, EffectOfKinds(g, 0));
    for i := 0 to 4
      invariant total == SumBy(log, EffectOfKinds(g, i))
    {
      var amount := SumBy(log, OfKind(g, KindAt(i)));
      var out := KindAt(i).TransferOut? || KindAt(i).Withdrawal?;
      SumLinear(log, EffectOfKinds(g, i), OfKind(g, KindAt(i)), EffectOfKinds(g, i + 1), if out then -1 else 1);
      total := if out then total - amount else total + amount;
    }
    SumCong(log, EffectOfKinds(g, 4), EffectOn(g));
  }

  predicate HasGoal(s: Savings, b: BusinessId, g: GoalId) {
    g < |s.goals| && s.goals[g].business == b
  }

  predicate IsSavingsWallet(accounts: seq<Account>, a: AccountId) {
    a < |accounts| && accounts[a].accountType.Asset? && accounts[a].subtype == Some(SAVINGS_SUBTYPE)
  }

  predicate IsWalletOf(accounts: seq<Account>, b: BusinessId, a: AccountId) {
    IsSavingsWallet(accounts, a) && accounts[a].business == b
  }

  predicate IsExpenseOf(accounts: seq<Account>, b: BusinessId, a: AccountId) {
    a < |accounts| && accounts[a].business == b && accounts[a].accountType.Expense?
  }

  // ----- the three requests

  function ContributionPosting(r: Request): PostRequest
    requires r.Contribute?
  {
    PostRequest(TransferTx, r.date, None, None, None, None,
      [Entry(r.wallet, Debit, r.amount, None), Entry(r.money, Credit, r.amount, None)], true)
  }

  function CashOutPosting(r: Request, amount: int): PostRequest
    requires r.CashOut?
  {
    PostRequest(ExpenseTx, r.date, None, None, None, None,
      [Entry(r.expense, Debit, amount, None), Entry(r.wallet, Credit, amount, None)], true)
  }

  /** The checks a request makes under its goals' locks; `saved` is the amount it reads. */
  function Check(s: Savings, b: BusinessId, r: Request): Option<SavingsError> {
    match r
    case Contribute(g, money, wallet, amount, date) =>
      if !HasGoal(s, b, g) then Some(GoalNotFound)
      else if !IsMoneyAccount(s.db.accounts, b, money) then Some(NotMoneyAccount)
      else if !IsWalletOf(s.db.accounts, b, wallet) then Some(NotSavingsWallet)
      else if s.goals[g].status.Withdrawn? then Some(GoalWithdrawn)
      else if amount <= 0 then Some(BadAmount)
      else None
    case Move(from, to, amount, date) =>
      if from == to then Some(SameGoal)
      else if !HasGoal(s, b, from) || !HasGoal(s, b, to) then Some(GoalNotFound)
      else if s.goals[to].status.Withdrawn? then Some(GoalWithdrawn)
      else if amount <= 0 then Some(BadAmount)
      else if CurrentAmount(s.log, from) < amount then Some(NotEnoughSaved)
      else None
    case CashOut(g, wallet, expense, date) =>
      if !HasGoal(s, b, g) then Some(GoalNotFound)
      else if s.goals[g].status.Withdrawn? then Some(GoalWithdrawn)
      else if CurrentAmount(s.log, g) <= 0 then Some(NothingSaved)
      else if !IsWalletOf(s.db.accounts, b, wallet) then Some(NotSavingsWallet)
      else if s.db.accounts[wallet].current < CurrentAmount(s.log, g) then Some(NotEnoughInWallet)
      else if !IsExpenseOf(s.db.accounts, b, expense) then Some(NotExpenseAccount)
      else None
  }

  /** The amount a request reads while checking and writes afterwards. */
  function AmountRead(s: Savings, r: Request): int {
    match r
    case Contribute(_, _, _, amount, _) => amount
    case Move(_, _, amount, _) => amount
    case CashOut(g, _, _, _) => CurrentAmount(s.log, g)
  }

  /** What a checked request writes, in one database transaction. */
  function Write(s: Savings, b: BusinessId, r: Request, amount: int): Result<Savings, SavingsError> {
    match r
    case Contribute(g, money, wallet, _, date) =>
      (match PostStep(s.db, b, ContributionPosting(r))
       case Err(e) => Err(Refused(e))
       case Ok((db, tx)) => Ok(Savings(db, s.goals, s.log + [GoalEntry(g, Contribution, amount, date, Some(tx))])))
    case Move(from, to, _, date) =>
      Ok(s.(log := s.log + [GoalEntry(from, TransferOut, amount, date, None)] + [GoalEntry(to, TransferIn, amount,
        date, None)]))
    case CashOut(g, wallet, expense, date) =>
      if g >= |s.goals| then Err(GoalNotFound)
      else
        (match PostStep(s.db, b, CashOutPosting(r, amount))
         case Err(e) => Err(Refused(e))
         case Ok((db, tx)) =>
           Ok(Savings(db, s.goals[g := s.goals[g].(status := Withdrawn)],
             s.log + [GoalEntry(g, Withdrawal, amount, date, Some(tx))])))
  }

  /** One whole request, run alone. */
  function Perform(s: Savings, b: BusinessId, r: Request): Result<Savings, SavingsError> {
    var problem := Check(s, b, r);
    if problem.Some? then Err(problem.value) else Write(s, b, r, AmountRead(s, r))
  }

  // ----- other things that happen to goals and books

  datatype Event =
    | Ask(b: BusinessId, r: Request)
    | NewGoal(b: BusinessId, target: int)
    | SetTarget(g: GoalId, target: int)
    | SetStatus(g: GoalId, status: GoalStatus)
    | MarkCompleted(g: GoalId)
    | VoidAny(b: BusinessId, id: TxId, today: int)
    | OtherPosting(b: BusinessId, req: PostRequest)

  /** A ledger posting of any kind that stays off savings wallets. */
  predicate OffWallets(accounts: seq<Account>, entries: seq<Entry>) {
    forall a | a in Touched(entries) :: !IsSavingsWallet(accounts, a)
  }

  function WithStatus(s: Savings, g: GoalId, status: GoalStatus): Savings
    requires g < |s.goals|
  {
    s.(goals := s.goals[g := s.goals[g].(status := status)])
  }

  function Happen(s: Savings, e: Event): Savings {
    match e
    case Ask(b, r) => (match Perform(s, b, r) case Ok(s') => s' case Err(_) => s)
    case NewGoal(b, target) => s.(goals := s.goals + [Goal(b, target, Active)])
    case SetTarget(g, target) => if g < |s.goals| then s.(goals := s.goals[g := s.goals[g].(target := target)]) else s
    // the status endpoint accepts every status but WITHDRAWN
    case SetStatus(g, status) => if g < |s.goals| && !status.Withdrawn? then WithStatus(s, g, status) else s
    case MarkCompleted(g) =>
      if g < |s.goals| && (s.goals[g].status.Active? || s.goals[g].status.Paused?) then WithStatus(s, g, Completed)
        else s
    case VoidAny(b, id, today) => (match VoidStep(s.db, b, id, today) case Ok((db, _)) => s.(db := db) case Err(_) => s)
    case OtherPosting(b, req) =>
      if !OffWallets(s.db.accounts, req.entries) then s
      else (match PostStep(s.db, b, req) case Ok((db, _)) => s.(db := db) case Err(_) => s)
  }

  function RunEvents(s: Savings, es: seq<Event>): Savings {
    if es == [] then s else Happen(RunEvents(s, es[..|es| - 1]), es[|es| - 1])
  }

  // ----- what every event keeps

  function Wallets(accounts: seq<Account>, b: BusinessId): AccountId -> bool {
    (a: AccountId) => IsWalletOf(accounts, b, a)
  }

  /** How far a workspace's savings wallet has moved from its opening balance. */
  function WalletMoved(accounts: seq<Account>, b: BusinessId): AccountId -> int {
    (a: AccountId) => if a < |accounts| && IsWalletOf(accounts, b, a) then accounts[a].current - accounts[a].opening
      else 0
  }

  function GoalSaved(s: Savings, b: BusinessId): GoalId -> int {
    (g: GoalId) => if HasGoal(s, b, g) then CurrentAmount(s.log, g) else 0
  }

  /** One log entry's effect on the workspace's savings. */
  function EffectIn(goals: seq<Goal>, b: BusinessId): GoalEntry -> int {
    (e: GoalEntry) => if e.goal < |goals| && goals[e.goal].business == b then Signed(e) else 0
  }

  ghost predicate LogSound(s: Savings) {
    forall i :: 0 <= i < |s.log| ==>
      && s.log[i].goal < |s.goals| && s.log[i].amount > 0
      && (s.log[i].tx.Some? ==> s.log[i].tx.value < |s.db.txs| && s.db.txs[s.log[i].tx.value].owned)
  }

  /** Only postings a goal keeps a record of touch savings wallets. */
  ghost predicate WalletsGuarded(db: Db) {
    forall i :: 0 <= i < |db.txs| && !db.txs[i].owned ==> OffWallets(db.accounts, db.txs[i].entries)
  }

  /** The ledger's movement on the workspace's wallets is the log's movement on its goals. */
  ghost predicate Tied(s: Savings, b: BusinessId) {
    SumBy(s.db.txs, TxWithin(Wallets(s.db.accounts, b))) == SumBy(s.log, EffectIn(s.goals, b))
  }

  ghost predicate SavingsInv(s: Savings) {
    && LedgerInv(s.db)
    && LogSound(s)
    && WalletsGuarded(s.db)
    && (forall b :: Tied(s, b))
    && (forall g :: CurrentAmount(s.log, g) >= 0)
  }

  // ----- log lemmas

  lemma AmountSnoc(log: seq<GoalEntry>, e: GoalEntry, g: GoalId)
    ensures CurrentAmount(log + [e], g) == CurrentAmount(log, g) + EffectOn(g)(e)
  {
    SumSnoc(log, e, EffectOn(g));
  }

  function EntryOnGoal(goals: seq<Goal>, b: BusinessId): (GoalId, GoalEntry) -> int {
    (g: GoalId, e: GoalEntry) => if e.goal == g && g < |goals| && goals[g].business == b then Signed(e) else 0
  }

  /** Goal by goal or entry by entry, a workspace's savings are the same. */
  lemma GoalsAddUp(s: Savings, b: BusinessId)
    requires LogSound(s)
    ensures SumBy(Range(|s.goals|), GoalSaved(s, b)) == SumBy(s.log, EffectIn(s.goals, b))
  {
    var n, f := |s.goals|, EntryOnGoal(s.goals, b);
    SumSwap<GoalId, GoalEntry>(Range(n), s.log, f);
    forall i | 0 <= i < |s.log|
      ensures ColumnSum<GoalId, GoalEntry>(Range(n), f)(s.log[i]) == EffectIn(s.goals, b)(s.log[i])
    {
      SumSingle<GoalId>(Range(n), Column<GoalId, GoalEntry>(s.log[i], f), s.log[i].goal);
    }
    SumCong(s.log, ColumnSum<GoalId, GoalEntry>(Range(n), f), EffectIn(s.goals, b));
    forall g | 0 <= g < n
      ensures RowSum<GoalId, GoalEntry>(s.log, f)(Range(n)[g]) == GoalSaved(s, b)(Range(n)[g])
    {
      if s.goals[g].business == b {
        SumCong(s.log, At<GoalId, GoalEntry>(g, f), EffectOn(g));
      } else {
        SumZero(s.log, At<GoalId, GoalEntry>(g, f));
      }
    }
    SumCong<GoalId>(Range(n), RowSum<GoalId, GoalEntry>(s.log, f), GoalSaved(s, b));
  }

  /** The savings a workspace's goals show are exactly what its savings wallets hold beyond their opening
      balances. */
  lemma SavingsTieToWallets(s: Savings, b: BusinessId)
    requires SavingsInv(s)
    ensures SumBy(Range(|s.db.accounts|), WalletMoved(s.db.accounts, b)) == SumBy(Range(|s.goals|), GoalSaved(s, b))
  {
    var n, p := |s.db.accounts|, Wallets(s.db.accounts, b);
    GoalsAddUp(s, b);
    assert Tied(s, b);
    assert forall i :: 0 <= i < |s.db.txs| ==> Sound(s.db, s.db.txs[i]);
    LedgerSpreads(n, p, s.db.txs);
    forall a | 0 <= a < n
      ensures WalletMoved(s.db.accounts, b)(Range(n)[a]) == GroupedNet(p, s.db.txs)(Range(n)[a])
    {
    }
    SumCong<AccountId>(Range(n), WalletMoved(s.db.accounts, b), GroupedNet(p, s.db.txs));
  }

  // ----- every event keeps it

  lemma WithinSame(txs: seq<Tx>, p: AccountId -> bool, q: AccountId -> bool)
    requires forall a :: p(a) == q(a)
    ensures SumBy(txs, TxWithin(p)) == SumBy(txs, TxWithin(q))
  {
    forall i | 0 <= i < |txs|
      ensures TxWithin(p)(txs[i]) == TxWithin(q)(txs[i])
    {
      var entries := txs[i].entries;
      forall j | 0 <= j < |entries|
        ensures EntryWithin(p)(entries[j]) == EntryWithin(q)(entries[j])
      {
        assert p(entries[j].account) == q(entries[j].account);
      }
      SumCong(entries, EntryWithin(p), EntryWithin(q));
    }
    SumCong(txs, TxWithin(p), TxWithin(q));
  }

  lemma OffWalletsMovesNothing(accounts: seq<Account>, b: BusinessId, entries: seq<Entry>)
    requires OffWallets(accounts, entries)
    ensures SumBy(entries, EntryWithin(Wallets(accounts, b))) == 0
  {
    forall i | 0 <= i < |entries|
      ensures EntryWithin(Wallets(accounts, b))(entries[i]) == 0
    {
      assert entries[i].account in Touched(entries);
    }
    SumZero(entries, EntryWithin(Wallets(accounts, b)));
  }

  /** What appending one ledger row means for the books' side of the tie. */
  lemma AppendedRowMoves(db: Db, db': Db, t: Tx, b: BusinessId)
    requires Extends(db, db') && db'.txs == db.txs + [t]
    ensures SumBy(db'.txs, TxWithin(Wallets(db'.accounts, b))) ==
      SumBy(db.txs, TxWithin(Wallets(db.accounts, b))) + SumBy(t.entries, EntryWithin(Wallets(db.accounts, b)))
  {
    WithinSame(db'.txs, Wallets(db'.accounts, b), Wallets(db.accounts, b));
    SumSnoc(db.txs, t, TxWithin(Wallets(db.accounts, b)));
  }

  /** A ledger step that stays off wallets changes neither side. */
  lemma QuietPostKeeps(s: Savings, b: BusinessId, req: PostRequest)
    requires SavingsInv(s) && OffWallets(s.db.accounts, req.entries)
    requires CheckPost(s.db, b, req).None? && PostStep(s.db, b, req) == Ok((ApplyPost(s.db, b, req), |s.db.txs|))
    ensures SavingsInv(s.(db := ApplyPost(s.db, b, req)))
  {
    var db', t := ApplyPost(s.db, b, req), Posted(b, req);
    PostKeepsInv(s.db, b, req);
    NextExtends(s.db, Post(b, req));
    forall w
      ensures Tied(s.(db := db'), w)
    {
      assert Tied(s, w);
      AppendedRowMoves(s.db, db', t, w);
      OffWalletsMovesNothing(s.db.accounts, w, req.entries);
    }
  }

  lemma VoidKeepsGuard(db: Db, id: TxId, today: int)
    requires WalletsGuarded(db) && id < |db.txs| && !db.txs[id].owned && Extends(db, ApplyVoid(db, id, today))
    ensures WalletsGuarded(ApplyVoid(db, id, today))
  {
    var db' := ApplyVoid(db, id, today);
    forall i | 0 <= i < |db'.txs| && !db'.txs[i].owned
      ensures OffWallets(db'.accounts, db'.txs[i].entries)
    {
    }
  }

  lemma VoidMovesNothing(db: Db, id: TxId, today: int, w: BusinessId)
    requires id < |db.txs| && OffWallets(db.accounts, db.txs[id].entries) && Extends(db, ApplyVoid(db, id, today))
    ensures SumBy(ApplyVoid(db, id, today).txs, TxWithin(Wallets(ApplyVoid(db, id, today).accounts, w))) ==
      SumBy(db.txs, TxWithin(Wallets(db.accounts, w)))
  {
    var db', p := ApplyVoid(db, id, today), Wallets(db.accounts, w);
    var r, marked := Reversal(db.txs[id], id, today), db.txs[id := db.txs[id].(voided := true)];
    WithinSame(db'.txs, Wallets(db'.accounts, w), p);
    SumSnoc(marked, r, TxWithin(p));
    SumUpdate(db.txs, id, db.txs[id].(voided := true), TxWithin(p));
    OffWalletsMovesNothing(db.accounts, w, r.entries);
  }

  lemma LogSurvives(s: Savings, db': Db)
    requires LogSound(s) && Extends(s.db, db')
    ensures LogSound(s.(db := db'))
  {
    forall i | 0 <= i < |s.log| && s.log[i].tx.Some?
      ensures db'.txs[s.log[i].tx.value].owned
    {
      var tx := s.log[i].tx.value;
      assert db'.txs[tx].(voided := s.db.txs[tx].voided) == s.db.txs[tx];
    }
  }

  /** A void is refused for postings a goal owns; any other posting is off the wallets. */
  lemma VoidKeeps(s: Savings, b: BusinessId, id: TxId, today: int)
    requires SavingsInv(s) && CheckVoid(s.db, b, id).None?
    ensures SavingsInv(s.(db := ApplyVoid(s.db, id, today)))
  {
    ApplyVoidKeepsInv(s.db, id, today);
    ApplyVoidExtends(s.db, id, today);
    VoidKeepsGuard(s.db, id, today);
    LogSurvives(s, ApplyVoid(s.db, id, today));
    forall w
      ensures Tied(s.(db := ApplyVoid(s.db, id, today)), w)
    {
      assert Tied(s, w);
      VoidMovesNothing(s.db, id, today, w);
    }
  }

  lemma TwoEntriesWithin(x: Entry, y: Entry, p: AccountId -> bool)
    ensures SumBy([x, y], EntryWithin(p)) == EntryWithin(p)(x) + EntryWithin(p)(y)
  {
    assert [x, y] == [x] + [y] && [x] == [] + [x];
    SumSnoc([x], y, EntryWithin(p));
    SumSnoc([], x, EntryWithin(p));
  }

  ghost predicate SameBusinesses(goals: seq<Goal>, goals': seq<Goal>) {
    |goals'| >= |goals| && forall g :: 0 <= g < |goals| ==> goals'[g].business == goals[g].business
  }

  lemma EffectSame(log: seq<GoalEntry>, goals: seq<Goal>, goals': seq<Goal>, w: BusinessId)
    requires SameBusinesses(goals, goals') && forall i :: 0 <= i < |log| ==> log[i].goal < |goals|
    ensures SumBy(log, EffectIn(goals', w)) == SumBy(log, EffectIn(goals, w))
  {
    SumCong(log, EffectIn(goals', w), EffectIn(goals, w));
  }

  lemma OwnedPostKeepsTie(s: Savings, db': Db, t: Tx, e: GoalEntry, goals: seq<Goal>, w: BusinessId)
    requires Tied(s, w) && LogSound(s) && Extends(s.db, db') && db'.txs == s.db.txs + [t]
    requires SameBusinesses(s.goals, goals) && e.goal < |s.goals|
    requires SumBy(t.entries, EntryWithin(Wallets(s.db.accounts, w))) == EffectIn(s.goals, w)(e)
    ensures Tied(Savings(db', goals, s.log + [e]), w)
  {
    AppendedRowMoves(s.db, db', t, w);
    SumSnoc(s.log, e, EffectIn(goals, w));
    EffectSame(s.log, s.goals, goals, w);
  }

  /** A posting the goal owns, and the log entry that goes with it, move both sides by the same amount. */
  lemma OwnedPostKeeps(s: Savings, b: BusinessId, req: PostRequest, e: GoalEntry, goals: seq<Goal>)
    requires SavingsInv(s) && req.owned
    requires PostStep(s.db, b, req) == Ok((ApplyPost(s.db, b, req), |s.db.txs|)) && CheckPost(s.db, b, req).None?
    requires SameBusinesses(s.goals, goals)
    requires e.goal < |s.goals| && e.amount > 0 && e.tx == Some(|s.db.txs|)
    requires CurrentAmount(s.log, e.goal) + Signed(e) >= 0
    requires forall w :: SumBy(req.entries, EntryWithin(Wallets(s.db.accounts, w))) == EffectIn(s.goals, w)(e)
    ensures SavingsInv(Savings(ApplyPost(s.db, b, req), goals, s.log + [e]))
  {
    var db', t := ApplyPost(s.db, b, req), Posted(b, req);
    PostKeepsInv(s.db, b, req);
    NextExtends(s.db, Post(b, req));
    assert LedgerRuns.Next(s.db, Post(b, req)) == db';
    forall w
      ensures Tied(Savings(db', goals, s.log + [e]), w)
    {
      assert SumBy(req.entries, EntryWithin(Wallets(s.db.accounts, w))) == EffectIn(s.goals, w)(e);
      OwnedPostKeepsTie(s, db', t, e, goals, w);
    }
    forall g
      ensures CurrentAmount(s.log + [e], g) >= 0
    {
      AmountSnoc(s.log, e, g);
    }
  }

  lemma ContributeKeeps(s: Savings, b: BusinessId, r: Request)
    requires SavingsInv(s) && r.Contribute? && Perform(s, b, r).Ok?
    ensures SavingsInv(Perform(s, b, r).value)
  {
    var req := ContributionPosting(r);
    var e := GoalEntry(r.goal, Contribution, r.amount, r.date, Some(|s.db.txs|));
    forall w
      ensures SumBy(req.entries, EntryWithin(Wallets(s.db.accounts, w))) == EffectIn(s.goals, w)(e)
    {
      TwoEntriesWithin(req.entries[0], req.entries[1], Wallets(s.db.accounts, w));
      assert req.entries == [req.entries[0], req.entries[1]];
    }
    OwnedPostKeeps(s, b, req, e, s.goals);
  }

  lemma CashOutMoves(s: Savings, b: BusinessId, r: Request, w: BusinessId)
    requires r.CashOut? && Check(s, b, r).None?
    ensures var amount := CurrentAmount(s.log, r.goal);
      SumBy(CashOutPosting(r, amount).entries, EntryWithin(Wallets(s.db.accounts, w))) ==
      EffectIn(s.goals, w)(GoalEntry(r.goal, Withdrawal, amount, r.date, Some(|s.db.txs|)))
  {
    var entries := CashOutPosting(r, CurrentAmount(s.log, r.goal)).entries;
    TwoEntriesWithin(entries[0], entries[1], Wallets(s.db.accounts, w));
    assert entries == [entries[0], entries[1]];
  }

  lemma CashOutKeeps(s: Savings, b: BusinessId, r: Request)
    requires SavingsInv(s) && r.CashOut? && Perform(s, b, r).Ok?
    ensures SavingsInv(Perform(s, b, r).value)
  {
    var amount := CurrentAmount(s.log, r.goal);
    var req := CashOutPosting(r, amount);
    var e := GoalEntry(r.goal, Withdrawal, amount, r.date, Some(|s.db.txs|));
    forall w
      ensures SumBy(req.entries, EntryWithin(Wallets(s.db.accounts, w))) == EffectIn(s.goals, w)(e)
    {
      CashOutMoves(s, b, r, w);
    }
    OwnedPostKeeps(s, b, req, e, s.goals[r.goal := s.goals[r.goal].(status := Withdrawn)]);
  }

  lemma MoveKeeps(s: Savings, b: BusinessId, r: Request)
    requires SavingsInv(s) && r.Move? && Perform(s, b, r).Ok?
    ensures SavingsInv(Perform(s, b, r).value)
  {
    var out, in_ := GoalEntry(r.from, TransferOut, r.amount, r.date, None),
      GoalEntry(r.to, TransferIn, r.amount, r.date, None);
    var s' := Perform(s, b, r).value;
    assert s' == s.(log := s.log + [out] + [in_]);
    forall w
      ensures Tied(s', w)
    {
      assert Tied(s, w);
    }
    forall g
      ensures CurrentAmount(s'.log, g) >= 0
    {
      AmountSnoc(s.log, out, g);
      AmountSnoc(s.log + [out], in_, g);
    }
  }

  /** Status and target are not money. */
  lemma RelabelKeeps(s: Savings, goals: seq<Goal>)
    requires SavingsInv(s) && SameBusinesses(s.goals, goals)
    ensures SavingsInv(s.(goals := goals))
  {
    forall w
      ensures Tied(s.(goals := goals), w)
    {
      assert Tied(s, w);
      EffectSame(s.log, s.goals, goals, w);
    }
  }

  lemma HappenKeeps(s: Savings, e: Event)
    requires SavingsInv(s)
    ensures SavingsInv(Happen(s, e))
  {
    match e
    case Ask(b, r) =>
      if Perform(s, b, r).Ok? {
        match r
        case Contribute(_, _, _, _, _) => ContributeKeeps(s, b, r);
        case Move(_, _, _, _) => MoveKeeps(s, b, r);
        case CashOut(_, _, _, _) => CashOutKeeps(s, b, r);
      }
    case NewGoal(b, target) => RelabelKeeps(s, s.goals + [Goal(b, target, Active)]);
    case SetTarget(g, target) => RelabelKeeps(s, Happen(s, e).goals);
    case SetStatus(g, status) => RelabelKeeps(s, Happen(s, e).goals);
    case MarkCompleted(g) => RelabelKeeps(s, Happen(s, e).goals);
    case VoidAny(b, id, today) =>
      if VoidStep(s.db, b, id, today).Ok? {
        VoidKeeps(s, b, id, today);
      }
    case OtherPosting(b, req) =>
      if OffWallets(s.db.accounts, req.entries) && PostStep(s.db, b, req).Ok? && PostStep(s.db, b,
        req).value.0 != s.db {
        QuietPostKeeps(s, b, req);
      }
  }

  /** Over every run of contributions, transfers, withdrawals, voids, unrelated postings and changes of
      status or target: goals and wallets stay tied, and no goal's amount goes below zero. */
  lemma {:induction false} RunKeepsSavings(s: Savings, es: seq<Event>)
    requires JustOpened(s.db) && s.log == []
    ensures SavingsInv(RunEvents(s, es))
  {
    if es != [] {
      RunKeepsSavings(s, es[..|es| - 1]);
      HappenKeeps(RunEvents(s, es[..|es| - 1]), es[|es| - 1]);
    }
  }

  // ----- every posting on a wallet has its log entry

  ghost predicate Logged(log: seq<GoalEntry>, i: TxId) {
    exists j :: 0 <= j < |log| && log[j].tx == Some(i)
  }

  /** A posting with an entry on a savings wallet, of any workspace, is one a goal's log entry names. */
  ghost predicate WalletsLogged(s: Savings) {
    forall i :: 0 <= i < |s.db.txs| && !OffWallets(s.db.accounts, s.db.txs[i].entries) ==> Logged(s.log, i)
  }

  lemma LoggedStays(log: seq<GoalEntry>, more: seq<GoalEntry>, i: TxId)
    requires Logged(log, i)
    ensures Logged(log + more, i)
  {
    var j :| 0 <= j < |log| && log[j].tx == Some(i);
    assert (log + more)[j].tx == Some(i);
  }

  /** The tables grow by rows that are off wallets, and the log only grows. */
  lemma QuietKeepsLogged(s: Savings, s': Savings, more: seq<GoalEntry>)
    requires WalletsLogged(s) && Extends(s.db, s'.db) && s'.log == s.log + more
    requires forall i :: |s.db.txs| <= i < |s'.db.txs| ==>
      OffWallets(s.db.accounts, s'.db.txs[i].entries) || Logged(s'.log, i)
    ensures WalletsLogged(s')
  {
    forall i | 0 <= i < |s'.db.txs| && !OffWallets(s'.db.accounts, s'.db.txs[i].entries)
      ensures Logged(s'.log, i)
    {
      if i < |s.db.txs| {
        assert s'.db.txs[i].(voided := s.db.txs[i].voided) == s.db.txs[i];
        LoggedStays(s.log, more, i);
      }
    }
  }

  lemma PerformKeepsLogged(s: Savings, b: BusinessId, r: Request)
    requires SavingsInv(s) && WalletsLogged(s) && Perform(s, b, r).Ok?
    ensures WalletsLogged(Perform(s, b, r).value)
  {
    var s' := Perform(s, b, r).value;
    match r
    case Move(from, to, amount, date) =>
      var more := [GoalEntry(from, TransferOut, amount, date, None)] + [GoalEntry(to, TransferIn, amount, date, None)];
      assert s'.log == s.log + more;
      QuietKeepsLogged(s, s', more);
    case Contribute(_, _, _, _, _) => OwnedKeepsLogged(s, s', b, ContributionPosting(r));
    case CashOut(_, _, _, _) => OwnedKeepsLogged(s, s', b, CashOutPosting(r, AmountRead(s, r)));
  }

  lemma OwnedKeepsLogged(s: Savings, s': Savings, b: BusinessId, req: PostRequest)
    requires WalletsLogged(s) && req.key.None? && PostStep(s.db, b, req) == Ok((s'.db, |s.db.txs|))
      && s'.db.txs == s.db.txs + [Posted(b, req)]
    requires |s'.log| == |s.log| + 1 && s'.log[..|s.log|] == s.log && s'.log[|s.log|].tx == Some(|s.db.txs|)
    ensures WalletsLogged(s')
  {
    NextExtends(s.db, Post(b, req));
    assert Logged(s'.log, |s.db.txs|);
    assert s'.log == s.log + [s'.log[|s.log|]];
    QuietKeepsLogged(s, s', [s'.log[|s.log|]]);
  }

  lemma ReversalOffWallets(s: Savings, b: BusinessId, id: TxId, today: int)
    requires SavingsInv(s) && CheckVoid(s.db, b, id).None?
    ensures OffWallets(s.db.accounts, Reversal(s.db.txs[id], id, today).entries)
  {
    assert OffWallets(s.db.accounts, s.db.txs[id].entries);
  }

  lemma VoidKeepsLogged(s: Savings, b: BusinessId, id: TxId, today: int)
    requires SavingsInv(s) && WalletsLogged(s) && CheckVoid(s.db, b, id).None?
    ensures WalletsLogged(s.(db := ApplyVoid(s.db, id, today)))
  {
    ApplyVoidExtends(s.db, id, today);
    ReversalOffWallets(s, b, id, today);
    var db' := ApplyVoid(s.db, id, today);
    assert |db'.txs| == |s.db.txs| + 1 && db'.txs[|s.db.txs|] == Reversal(s.db.txs[id], id, today);
    QuietKeepsLogged(s, s.(db := db'), []);
  }

  lemma QuietPostKeepsLogged(s: Savings, b: BusinessId, req: PostRequest)
    requires SavingsInv(s) && WalletsLogged(s) && OffWallets(s.db.accounts, req.entries) && PostStep(s.db, b, req).Ok?
    ensures WalletsLogged(s.(db := PostStep(s.db, b, req).value.0))
  {
    NextExtends(s.db, Post(b, req));
    QuietKeepsLogged(s, s.(db := PostStep(s.db, b, req).value.0), []);
  }

  lemma HappenKeepsLogged(s: Savings, e: Event)
    requires SavingsInv(s) && WalletsLogged(s)
    ensures WalletsLogged(Happen(s, e))
  {
    match e
    case Ask(b, r) =>
      if Perform(s, b, r).Ok? {
        PerformKeepsLogged(s, b, r);
      }
    case VoidAny(b, id, today) =>
      if CheckVoid(s.db, b, id).None? {
        VoidKeepsLogged(s, b, id, today);
      }
    case OtherPosting(b, req) =>
      if OffWallets(s.db.accounts, req.entries) && PostStep(s.db, b, req).Ok? {
        QuietPostKeepsLogged(s, b, req);
      }
    case _ =>
  }

  /** Over every run, each posting that touches a savings wallet is named by a goal's log entry; the void
      that looks for such an entry therefore refuses all of them. */
  lemma {:induction false} RunKeepsLogged(s: Savings, es: seq<Event>)
    requires JustOpened(s.db) && s.log == []
    ensures var s' := RunEvents(s, es);
      && WalletsLogged(s')
      && forall b, id :: 0 <= id < |s'.db.txs| && !OffWallets(s'.db.accounts, s'.db.txs[id].entries) ==>
        CheckVoid(s'.db, b, id).Some?
  {
    RunKeepsSavings(s, es);
    if es != [] {
      RunKeepsLogged(s, es[..|es| - 1]);
      RunKeepsSavings(s, es[..|es| - 1]);
      HappenKeepsLogged(RunEvents(s, es[..|es| - 1]), es[|es| - 1]);
    }
  }

  // ----- a wallet's subtype is edited

  function OnlyAt(a: AccountId, amount: int): AccountId -> int {
    (x: AccountId) => if x == a then amount else 0
  }

  lemma RetypedMoves(was: seq<Account>, now: seq<Account>, b: BusinessId, a: AccountId)
    requires a < |was| && was[a].business == b && was[a].accountType.Asset? && a < |now|
      && now == was[a := was[a].(subtype := now[a].subtype)]
    ensures SumBy<AccountId>(Range(|now|), WalletMoved(now, b)) == SumBy<AccountId>(Range(|was|), WalletMoved(was, b))
      + (if IsSavingsWallet(now, a) then was[a].current - was[a].opening else 0)
      - (if IsSavingsWallet(was, a) then was[a].current - was[a].opening else 0)
  {
    var moved := was[a].current - was[a].opening;
    var c := (if IsSavingsWallet(now, a) then 1 else 0) - (if IsSavingsWallet(was, a) then 1 else 0);
    SumLinear<AccountId>(Range(|was|), WalletMoved(was, b), OnlyAt(a, moved), WalletMoved(now, b), c);
    SumSingle<AccountId>(Range(|was|), OnlyAt(a, moved), a);
  }

  /** An account update may turn an asset account into a savings wallet or back. The tie then survives
      exactly when that account has not moved from its opening balance. */
  lemma RetypedWalletIff(s: Savings, b: BusinessId, a: AccountId, now: seq<Account>)
    requires SavingsInv(s) && a < |s.db.accounts| && s.db.accounts[a].business == b
      && s.db.accounts[a].accountType.Asset?
    requires a < |now| && now == s.db.accounts[a := s.db.accounts[a].(subtype := now[a].subtype)]
    ensures SumBy<AccountId>(Range(|now|), WalletMoved(now, b)) == SumBy<GoalId>(Range(|s.goals|), GoalSaved(s, b)) <==>
      (IsSavingsWallet(now, a) <==> IsSavingsWallet(s.db.accounts, a)) || now[a].current == now[a].opening
  {
    SavingsTieToWallets(s, b);
    RetypedMoves(s.db.accounts, now, b, a);
  }

  // ----- what a caller sees, goal by goal

  /** What an accepted request does to each goal's amount: a contribution adds to its own goal, a transfer
      takes from one and gives to the other, a withdrawal empties its own, and no other goal notices. */
  lemma EachGoal(s: Savings, b: BusinessId, r: Request, g: GoalId)
    requires Perform(s, b, r).Ok?
    ensures var before, after := CurrentAmount(s.log, g), CurrentAmount(Perform(s, b, r).value.log, g);
      match r
      case Contribute(goal, _, _, amount, _) => after == before + if g == goal then amount else 0
      case Move(from, to, amount, _) =>
        from != to && after == if g == from then before - amount else if g == to then before + amount else before
      case CashOut(goal, _, _, _) => after == if g == goal then 0 else before
  {
    match r
    case Contribute(goal, money, wallet, amount, date) =>
      AmountSnoc(s.log,
        GoalEntry(goal, Contribution, amount, date, Some(PostStep(s.db, b, ContributionPosting(r)).value.1)), g);
    case Move(from, to, amount, date) =>
      var out := GoalEntry(from, TransferOut, amount, date, None);
      AmountSnoc(s.log, out, g);
      AmountSnoc(s.log + [out], GoalEntry(to, TransferIn, amount, date, None), g);
    case CashOut(goal, wallet, expense, date) =>
      var amount := CurrentAmount(s.log, goal);
      AmountSnoc(s.log,
        GoalEntry(goal, Withdrawal, amount, date, Some(PostStep(s.db, b, CashOutPosting(r, amount)).value.1)), g);
  }

  /** Only a withdrawal changes a goal's row: its own, to withdrawn. */
  lemma EachGoalRow(s: Savings, b: BusinessId, r: Request, g: GoalId)
    requires Perform(s, b, r).Ok? && g < |s.goals|
    ensures |Perform(s, b, r).value.goals| == |s.goals|
    ensures Perform(s, b, r).value.goals[g] ==
      if r.CashOut? && r.goal == g then s.goals[g].(status := Withdrawn) else s.goals[g]
  {
  }

  /** The posting behind a request: from the money account into the wallet, or out of the wallet into an
      expense for all the goal had, on the request's day and kept by the goal; a transfer posts nothing. */
  lemma RequestPosts(s: Savings, b: BusinessId, r: Request)
    requires Perform(s, b, r).Ok?
    ensures var s' := Perform(s, b, r).value;
      if r.Move? then s'.db == s.db
      else
        && |s'.db.txs| == |s.db.txs| + 1 && s'.db.txs[..|s.db.txs|] == s.db.txs
        && |s'.log| == |s.log| + 1 && s'.log[|s.log|].tx == Some(|s.db.txs|) && s'.log[|s.log|].date == r.date
        && var t := s'.db.txs[|s.db.txs|];
        && t.business == b && t.date == r.date && t.owned && !t.voided && t.reversalOf == None
        && t.txType == (if r.Contribute? then TransferTx else ExpenseTx)
        && t.entries == if r.Contribute?
             then [Entry(r.wallet, Debit, r.amount, None), Entry(r.money, Credit, r.amount, None)]
             else [Entry(r.expense, Debit, CurrentAmount(s.log, r.goal), None),
                   Entry(r.wallet, Credit, CurrentAmount(s.log, r.goal), None)]
  {
  }

  /** A goal of the workspace money may still be put into. */
  predicate TakesMoney(s: Savings, b: BusinessId, g: GoalId) {
    g < |s.goals| && s.goals[g].business == b && s.goals[g].status != Withdrawn
  }

  predicate IsAsset(accounts: seq<Account>, b: BusinessId, a: AccountId, subtypes: set<string>) {
    a < |accounts| && accounts[a].business == b && accounts[a].accountType == Asset
      && accounts[a].subtype.Some? && accounts[a].subtype.value in subtypes
  }

  /** Exactly which requests are accepted. */
  lemma AcceptedIff(s: Savings, b: BusinessId, r: Request)
    ensures Perform(s, b, r).Ok? <==> match r
      case Contribute(goal, money, wallet, amount, _) =>
        && TakesMoney(s, b, goal) && amount > 0
        && IsAsset(s.db.accounts, b, money, {"cash", "bank", "mfs"}) && IsAsset(s.db.accounts, b, wallet, {"savings"})
      case Move(from, to, amount, _) =>
        && from != to && from < |s.goals| && s.goals[from].business == b && TakesMoney(s, b, to)
        && 0 < amount <= CurrentAmount(s.log, from)
      case CashOut(goal, wallet, expense, _) =>
        && TakesMoney(s, b, goal) && CurrentAmount(s.log, goal) > 0
        && IsAsset(s.db.accounts, b, wallet, {"savings"})
        && s.db.accounts[wallet].current >= CurrentAmount(s.log, goal)
        && expense < |s.db.accounts| && s.db.accounts[expense].business == b
          && s.db.accounts[expense].accountType == Expense
  {
    if Check(s, b, r).None? && !r.Move? {
      var req := if r.Contribute? then ContributionPosting(r) else CashOutPosting(r, AmountRead(s, r));
      TwoSidedPosts(s.db, b, req);
    }
  }

  /** How any event moves a goal's status: a withdrawal closes its goal, the status endpoint sets what it is
      given unless that is withdrawn, and the marker completes a goal that is active or paused. */
  lemma EachStatus(s: Savings, e: Event, g: GoalId)
    requires g < |s.goals|
    ensures g < |Happen(s, e).goals|
    ensures Happen(s, e).goals[g].status == match e
      case Ask(b, r) => if r.CashOut? && r.goal == g && Perform(s, b, r).Ok? then Withdrawn else s.goals[g].status
      case SetStatus(goal, status) => if goal == g && status != Withdrawn then status else s.goals[g].status
      case MarkCompleted(goal) =>
        if goal == g && (s.goals[g].status == Active || s.goals[g].status == Paused) then Completed
          else s.goals[g].status
      case _ => s.goals[g].status
    ensures Happen(s, e).goals[g].business == s.goals[g].business
    ensures Happen(s, e).goals[g].target == if e.SetTarget? && e.g == g then e.target else s.goals[g].target
  {
  }

  /** Which refusal is answered where money is missing or the goal is closed, once the accounts are in order. */
  lemma MoneyRefusals(s: Savings, b: BusinessId, r: Request)
    ensures match r
      case Contribute(goal, money, wallet, _, _) =>
        IsAsset(s.db.accounts, b, money, {"cash", "bank", "mfs"}) && IsAsset(s.db.accounts, b, wallet, {"savings"})
          && HasGoal(s, b, goal) ==>
        (Check(s, b, r) == Some(GoalWithdrawn) <==> s.goals[goal].status == Withdrawn)
      case Move(from, to, amount, _) =>
        && (Check(s, b, r) == Some(SameGoal) <==> from == to)
        && (Check(s, b, r) == Some(GoalWithdrawn) <==>
          from != to && HasGoal(s, b, from) && HasGoal(s, b, to) && s.goals[to].status == Withdrawn)
        && (Check(s, b, r) == Some(NotEnoughSaved) <==>
          from != to && HasGoal(s, b, from) && TakesMoney(s, b, to) && amount > 0
            && CurrentAmount(s.log, from) < amount)
      case CashOut(goal, wallet, _, _) =>
        && (Check(s, b, r) == Some(GoalWithdrawn) <==> HasGoal(s, b, goal) && s.goals[goal].status == Withdrawn)
        && (Check(s, b, r) == Some(NothingSaved) <==> TakesMoney(s, b, goal) && CurrentAmount(s.log, goal) <= 0)
        && (Check(s, b, r) == Some(NotEnoughInWallet) <==>
          && TakesMoney(s, b, goal) && CurrentAmount(s.log, goal) > 0 && IsAsset(s.db.accounts, b, wallet, {"savings"})
          && s.db.accounts[wallet].current < CurrentAmount(s.log, goal))
  {
  }
}
