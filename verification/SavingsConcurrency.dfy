/** Savings requests side by side: locks, checks and writes of several requests interleave, and the
    completion marker runs outside the locks on figures it read earlier.
 */
module SavingsConcurrency {
  import opened Base
  import opened Ledger
  import opened LedgerRuns
  import opened Savings

  datatype Key = GoalKey(g: GoalId) | WalletKey(a: AccountId)

  /** The keys a request locks, in the order their strings sort. */
  function Keys(r: Request): seq<Key> {
    match r
    case Contribute(g, _, _, _, _) => [GoalKey(g)]
    case Move(from, to, _, _) => if from <= to then [GoalKey(from), GoalKey(to)] else [GoalKey(to), GoalKey(from)]
    case CashOut(g, wallet, _, _) => [WalletKey(wallet), GoalKey(g)]
  }

  /** `amount` is what the request read when it passed its checks. */
  datatype Session = Session(b: BusinessId, r: Request, held: nat, checked: bool, amount: int)

  /** A completion marker past its first look: the goal row it read is stale by now. */
  datatype Marker = Marker(goal: GoalId, target: int, amount: Option<int>)

  datatype State = State(s: Savings, sessions: map<nat, Session>, markers: map<nat, Marker>)

  datatype Action =
    | Begin(p: nat, b: BusinessId, r: Request)
    | Lock(p: nat)
    | CheckLocked(p: nat)
    | Commit(p: nat)
    | Abort(p: nat)
    | ReadGoal(m: nat, g: GoalId)
    | ReadAmount(m: nat)
    | MarkIfStillOpen(m: nat)
    | Outside(e: Event)

  predicate Holds(t: Session, k: Key)
    requires t.held <= |Keys(t.r)|
  {
    k in Keys(t.r)[..t.held]
  }

  predicate LockedByOther(st: State, p: nat, k: Key) {
    exists q | q in st.sessions :: q != p && st.sessions[q].held <= |Keys(st.sessions[q].r)| && Holds(st.sessions[q], k)
  }

  function With(st: State, p: nat, t: Session): State {
    st.(sessions := st.sessions[p := t])
  }

  function Ended(st: State, p: nat): State {
    st.(sessions := st.sessions - {p})
  }

  function DoLock(st: State, p: nat, t: Session): State {
    if t.held < |Keys(t.r)| && !LockedByOther(st, p, Keys(t.r)[t.held]) then With(st, p, t.(held := t.held + 1)) else st
  }

  function DoCheck(st: State, p: nat, t: Session): State {
    if t.held != |Keys(t.r)| || t.checked then st
    else if Check(st.s, t.b, t.r).Some? then Ended(st, p)
    else With(st, p, t.(checked := true, amount := AmountRead(st.s, t.r)))
  }

  /** Writes what was decided at the check, with the amount read then. */
  function DoCommit(st: State, p: nat, t: Session): State {
    if !t.checked then st
    else match Write(st.s, t.b, t.r, t.amount)
      case Ok(s) => Ended(st.(s := s), p)
      case Err(_) => Ended(st, p)
  }

  function DoReadGoal(st: State, m: nat, g: GoalId): State {
    if g < |st.s.goals| && (st.s.goals[g].status.Active? || st.s.goals[g].status.Paused?)
    then st.(markers := st.markers[m := Marker(g, st.s.goals[g].target, None)])
    else st
  }

  /** The guarded update: it takes effect only if the goal is, at that moment, still ACTIVE or PAUSED. */
  function DoMark(st: State, m: nat): State
    requires m in st.markers
  {
    var k := st.markers[m];
    var gone := st.(markers := st.markers - {m});
    if k.amount.Some? && k.amount.value >= k.target then gone.(s := Happen(st.s, MarkCompleted(k.goal))) else gone
  }

  function Do(st: State, act: Action): State {
    match act
    case Begin(p, b, r) => if p in st.sessions then st else With(st, p, Session(b, r, 0, false, 0))
    case Lock(p) => if p in st.sessions then DoLock(st, p, st.sessions[p]) else st
    case CheckLocked(p) => if p in st.sessions then DoCheck(st, p, st.sessions[p]) else st
    case Commit(p) => if p in st.sessions then DoCommit(st, p, st.sessions[p]) else st
    case Abort(p) => Ended(st, p)
    case ReadGoal(m, g) => DoReadGoal(st, m, g)
    case ReadAmount(m) =>
      if m in st.markers then st.(markers := st.markers[m := st.markers[m].(amount := Some(CurrentAmount(st.s.log,
        st.markers[m].goal)))]) else st
    case MarkIfStillOpen(m) => if m in st.markers then DoMark(st, m) else st
    case Outside(e) => if e.Ask? || e.MarkCompleted? then st else st.(s := Happen(st.s, e))
  }

  function Interleave(st: State, acts: seq<Action>): State {
    if acts == [] then st else Do(Interleave(st, acts[..|acts| - 1]), acts[|acts| - 1])
  }

  // ----- the history of effective actions

  /** What an action does to the tables, if it does anything: a commit that is not turned away performs its
      own request, a marker that read a full goal completes that goal, and the rest is the event given. */
  function EventOf(st: State, act: Action): seq<Event> {
    match act
    case Commit(p) =>
      if p in st.sessions && st.sessions[p].checked then
        var t := st.sessions[p];
        if Write(st.s, t.b, t.r, t.amount).Ok? then [Ask(t.b, t.r)] else []
      else []
    case MarkIfStillOpen(m) =>
      if m in st.markers && st.markers[m].amount.Some? && st.markers[m].amount.value >= st.markers[m].target
      then [MarkCompleted(st.markers[m].goal)] else []
    case Outside(e) => if e.Ask? || e.MarkCompleted? then [] else [e]
    case _ => []
  }

  /** The effective actions of an interleaving as whole events, in the order they take effect. */
  function Events(st: State, acts: seq<Action>): seq<Event> {
    if acts == [] then []
    else
      var n := |acts| - 1;
      Events(st, acts[..n]) + EventOf(Interleave(st, acts[..n]), acts[n])
  }

  // ----- what every action keeps

  ghost predicate Apart(t: Session, u: Session)
    requires t.held <= |Keys(t.r)| && u.held <= |Keys(u.r)|
  {
    forall k :: Holds(t, k) ==> !Holds(u, k)
  }

  /** A checked request would still pass the same checks and read the same amount. */
  ghost predicate Fits(s: Savings, t: Session) {
    && t.held <= |Keys(t.r)|
    && (t.checked ==> t.held == |Keys(t.r)| && Check(s, t.b, t.r).None? && t.amount == AmountRead(s, t.r))
  }

  ghost predicate Inv(st: State) {
    && SavingsInv(st.s)
    && (forall p | p in st.sessions :: Fits(st.s, st.sessions[p]))
    && (forall p, q | p in st.sessions && q in st.sessions && p != q :: Apart(st.sessions[p], st.sessions[q]))
  }

  predicate Concerns(r: Request, g: GoalId) {
    GoalKey(g) in Keys(r)
  }

  /** A change to the tables that a request holding its locks does not notice. */
  ghost predicate Unnoticed(s: Savings, s': Savings, r: Request) {
    && SameBusinesses(s.goals, s'.goals)
    && (forall g: GoalId :: Concerns(r, g) ==> CurrentAmount(s'.log, g) == CurrentAmount(s.log, g))
    && (forall g: GoalId :: Concerns(r, g) && g < |s.goals| && s'.goals[g].status.Withdrawn? ==>
      s.goals[g].status.Withdrawn?)
    && Extends(s.db, s'.db)
    && (r.CashOut? && r.wallet < |s.db.accounts| ==>
      s'.db.accounts[r.wallet].current >= s.db.accounts[r.wallet].current)
  }

  lemma CheckSurvives(s: Savings, s': Savings, b: BusinessId, r: Request)
    requires Check(s, b, r).None? && Unnoticed(s, s', r)
    ensures Check(s', b, r).None? && AmountRead(s', r) == AmountRead(s, r)
  {
    match r
    case Contribute(g, _, _, _, _) => assert Concerns(r, g);
    case Move(from, to, _, _) => assert Concerns(r, from) && Concerns(r, to);
    case CashOut(g, _, _, _) => assert Concerns(r, g);
  }

  // ----- commits

  /** With its checks still good, writing is performing the whole request now. */
  lemma CommitIsPerform(st: State, p: nat)
    requires Inv(st) && p in st.sessions && st.sessions[p].checked
    ensures var t := st.sessions[p]; Do(st, Commit(p)).s == Happen(st.s, Ask(t.b, t.r))
  {
  }

  lemma TwoSidedAccepted(db: Db, b: BusinessId, req: PostRequest)
    requires PostStep(db, b, req).Ok? && req.key.None?
    ensures PostStep(db, b, req).value.0 == ApplyPost(db, b, req) && Extends(db, ApplyPost(db, b, req))
  {
    NextExtends(db, Post(b, req));
  }

  /** A savings posting never lowers a wallet other than the one it pays out of. */
  lemma WalletNotLowered(db: Db, b: BusinessId, x: Entry, y: Entry, req: PostRequest, w: AccountId)
    requires Cached(db) && req.entries == [x, y] && x.amount >= 0 && w < |db.accounts|
      && IsSavingsWallet(db.accounts, w)
    requires y.account != w && x.side.Debit?
    ensures ApplyPost(db, b, req).accounts[w].current >= db.accounts[w].current
  {
    var txs := db.txs + [Posted(b, req)];
    SumSnoc(db.txs, Posted(b, req), TxNet(w));
    assert req.entries == [x] + [y] && [x] == [] + [x];
    SumSnoc([x], y, EntryNet(w));
    SumSnoc([], x, EntryNet(w));
  }

  lemma ContributeUnnoticed(s: Savings, b: BusinessId, r0: Request, r: Request)
    requires SavingsInv(s) && r0.Contribute? && Perform(s, b, r0).Ok?
    requires GoalKey(r0.goal) !in Keys(r)
    requires r.CashOut? ==> IsSavingsWallet(s.db.accounts, r.wallet)
    ensures Unnoticed(s, Perform(s, b, r0).value, r)
  {
    var req := ContributionPosting(r0);
    TwoSidedAccepted(s.db, b, req);
    if r.CashOut? {
      WalletNotLowered(s.db, b, req.entries[0], req.entries[1], req, r.wallet);
    }
    var e := GoalEntry(r0.goal, Contribution, r0.amount, r0.date, Some(|s.db.txs|));
    assert Perform(s, b, r0).value == Savings(ApplyPost(s.db, b, req), s.goals, s.log + [e]);
    OtherAmountsSame(s.log, e, r);
  }

  /** A log row of a goal the request does not lock. */
  lemma OtherAmountsSame(log: seq<GoalEntry>, e: GoalEntry, r: Request)
    requires GoalKey(e.goal) !in Keys(r)
    ensures forall g: GoalId :: Concerns(r, g) ==> g != e.goal && CurrentAmount(log + [e], g) == CurrentAmount(log, g)
  {
    forall g: GoalId | Concerns(r, g)
      ensures g != e.goal && CurrentAmount(log + [e], g) == CurrentAmount(log, g)
    {
      AmountSnoc(log, e, g);
    }
  }

  lemma MoveUnnoticed(s: Savings, b: BusinessId, r0: Request, r: Request)
    requires SavingsInv(s) && r0.Move? && Perform(s, b, r0).Ok?
    requires GoalKey(r0.from) !in Keys(r) && GoalKey(r0.to) !in Keys(r)
    ensures Unnoticed(s, Perform(s, b, r0).value, r)
  {
    var out := GoalEntry(r0.from, TransferOut, r0.amount, r0.date, None);
    var back := GoalEntry(r0.to, TransferIn, r0.amount, r0.date, None);
    assert Perform(s, b, r0).value == s.(log := s.log + [out] + [back]);
    OtherAmountsSame(s.log, out, r);
    OtherAmountsSame(s.log + [out], back, r);
  }

  lemma CashOutUnnoticed(s: Savings, b: BusinessId, r0: Request, r: Request)
    requires SavingsInv(s) && r0.CashOut? && Perform(s, b, r0).Ok?
    requires GoalKey(r0.goal) !in Keys(r) && WalletKey(r0.wallet) !in Keys(r)
    requires r.CashOut? ==> IsSavingsWallet(s.db.accounts, r.wallet)
    ensures Unnoticed(s, Perform(s, b, r0).value, r)
  {
    var amount := CurrentAmount(s.log, r0.goal);
    var req := CashOutPosting(r0, amount);
    TwoSidedAccepted(s.db, b, req);
    if r.CashOut? {
      assert WalletKey(r.wallet) in Keys(r);
      WalletNotLowered(s.db, b, req.entries[0], req.entries[1], req, r.wallet);
    }
    var e := GoalEntry(r0.goal, Withdrawal, amount, r0.date, Some(|s.db.txs|));
    var goals := s.goals[r0.goal := s.goals[r0.goal].(status := Withdrawn)];
    assert Perform(s, b, r0).value == Savings(ApplyPost(s.db, b, req), goals, s.log + [e]);
    OtherAmountsSame(s.log, e, r);
  }

  lemma PerformUnnoticed(s: Savings, b: BusinessId, r0: Request, r: Request)
    requires SavingsInv(s) && Perform(s, b, r0).Ok?
    requires forall k | k in Keys(r0) :: k !in Keys(r)
    requires r.CashOut? ==> IsSavingsWallet(s.db.accounts, r.wallet)
    ensures Unnoticed(s, Perform(s, b, r0).value, r)
  {
    match r0
    case Contribute(g0, _, _, _, _) =>
      assert GoalKey(g0) in Keys(r0);
      ContributeUnnoticed(s, b, r0, r);
    case Move(from, to, _, _) =>
      assert GoalKey(from) in Keys(r0) && GoalKey(to) in Keys(r0);
      MoveUnnoticed(s, b, r0, r);
    case CashOut(g0, wallet, _, _) =>
      assert GoalKey(g0) in Keys(r0) && WalletKey(wallet) in Keys(r0);
      CashOutUnnoticed(s, b, r0, r);
  }

  lemma VoidUnnoticed(s: Savings, b: BusinessId, id: TxId, today: int, r: Request)
    requires SavingsInv(s) && VoidStep(s.db, b, id, today).Ok?
    requires r.CashOut? ==> IsSavingsWallet(s.db.accounts, r.wallet)
    ensures Unnoticed(s, s.(db := ApplyVoid(s.db, id, today)), r)
  {
    ApplyVoidExtends(s.db, id, today);
    if r.CashOut? {
      assert r.wallet !in Touched(s.db.txs[id].entries);
    }
  }

  lemma OtherPostingUnnoticed(s: Savings, b: BusinessId, req: PostRequest, r: Request)
    requires SavingsInv(s) && PostStep(s.db, b, req).Ok? && OffWallets(s.db.accounts, req.entries)
    requires r.CashOut? ==> IsSavingsWallet(s.db.accounts, r.wallet)
    ensures Unnoticed(s, s.(db := PostStep(s.db, b, req).value.0), r)
  {
    NextExtends(s.db, Post(b, req));
    if r.CashOut? {
      assert r.wallet !in Touched(req.entries);
    }
  }

  /** Nothing that happens outside the locks is noticed either. */
  lemma OutsideUnnoticed(s: Savings, e: Event, r: Request)
    requires SavingsInv(s) && !e.Ask?
    requires r.CashOut? ==> IsSavingsWallet(s.db.accounts, r.wallet)
    ensures Unnoticed(s, Happen(s, e), r)
  {
    match e
    case VoidAny(b, id, today) =>
      if VoidStep(s.db, b, id, today).Ok? {
        VoidUnnoticed(s, b, id, today, r);
      }
    case OtherPosting(b, req) =>
      if OffWallets(s.db.accounts, req.entries) && PostStep(s.db, b, req).Ok? {
        OtherPostingUnnoticed(s, b, req, r);
      }
    case NewGoal(_, _) => RelabelUnnoticed(s, Happen(s, e).goals, r);
    case SetTarget(_, _) => RelabelUnnoticed(s, Happen(s, e).goals, r);
    case SetStatus(_, _) => RelabelUnnoticed(s, Happen(s, e).goals, r);
    case MarkCompleted(_) => RelabelUnnoticed(s, Happen(s, e).goals, r);
  }

  lemma RelabelUnnoticed(s: Savings, goals: seq<Goal>, r: Request)
    requires SameBusinesses(s.goals, goals)
    requires forall g :: 0 <= g < |s.goals| && goals[g].status.Withdrawn? ==> s.goals[g].status.Withdrawn?
    ensures Unnoticed(s, s.(goals := goals), r)
  {
  }

  lemma HeldKeysApart(t: Session, u: Session)
    requires t.held == |Keys(t.r)| && u.held == |Keys(u.r)| && Apart(t, u)
    ensures forall k | k in Keys(t.r) :: k !in Keys(u.r)
  {
    assert Keys(t.r)[..t.held] == Keys(t.r) && Keys(u.r)[..u.held] == Keys(u.r);
    forall k | k in Keys(t.r)
      ensures k !in Keys(u.r)
    {
      assert Holds(t, k);
      assert !Holds(u, k);
    }
  }

  lemma FitsSurvives(s: Savings, s': Savings, t: Session)
    requires Fits(s, t) && (t.checked ==> Unnoticed(s, s', t.r))
    ensures Fits(s', t)
  {
    if t.checked {
      CheckSurvives(s, s', t.b, t.r);
    }
  }

  lemma CommitKeeps(st: State, p: nat)
    requires Inv(st)
    ensures Inv(Do(st, Commit(p)))
  {
    if p in st.sessions && st.sessions[p].checked {
      var t := st.sessions[p];
      var s' := Do(st, Commit(p)).s;
      CommitIsPerform(st, p);
      HappenKeeps(st.s, Ask(t.b, t.r));
      forall q | q in st.sessions && q != p
        ensures Fits(s', st.sessions[q])
      {
        var u := st.sessions[q];
        if u.checked {
          assert Apart(t, u);
          HeldKeysApart(t, u);
          if Perform(st.s, t.b, t.r).Ok? {
            PerformUnnoticed(st.s, t.b, t.r, u.r);
          }
        }
        FitsSurvives(st.s, s', u);
      }
    }
  }

  lemma EventKeeps(st: State, e: Event)
    requires Inv(st) && !e.Ask?
    ensures Inv(st.(s := Happen(st.s, e)))
  {
    HappenKeeps(st.s, e);
    forall q | q in st.sessions
      ensures Fits(Happen(st.s, e), st.sessions[q])
    {
      var u := st.sessions[q];
      if u.checked {
        OutsideUnnoticed(st.s, e, u.r);
      }
      FitsSurvives(st.s, Happen(st.s, e), u);
    }
  }

  lemma LockKeeps(st: State, p: nat)
    requires Inv(st)
    ensures Inv(Do(st, Lock(p)))
  {
    if p in st.sessions {
      var t := st.sessions[p];
      if t.held < |Keys(t.r)| && !LockedByOther(st, p, Keys(t.r)[t.held]) {
        var t' := t.(held := t.held + 1);
        assert Keys(t.r)[..t.held + 1] == Keys(t.r)[..t.held] + [Keys(t.r)[t.held]];
        forall q | q in st.sessions && q != p
          ensures Apart(t', st.sessions[q]) && Apart(st.sessions[q], t')
        {
          assert Apart(t, st.sessions[q]) && Apart(st.sessions[q], t);
        }
      }
    }
  }

  lemma RunOne(s: Savings, e: Event)
    ensures RunEvents(s, [e]) == Happen(s, e)
  {
    assert [e][..0] == [];
  }

  lemma CommitIsEvent(st: State, p: nat)
    requires Inv(st)
    ensures Inv(Do(st, Commit(p))) && Do(st, Commit(p)).s == RunEvents(st.s, EventOf(st, Commit(p)))
  {
    CommitKeeps(st, p);
    if p in st.sessions && st.sessions[p].checked {
      CommitIsPerform(st, p);
      RunOne(st.s, Ask(st.sessions[p].b, st.sessions[p].r));
    }
  }

  /** Any action keeps the invariant, and the tables move by its own whole event or stay as they were:
      requests never act on stale checks or amounts. */
  lemma ActionIsEvent(st: State, act: Action)
    requires Inv(st)
    ensures Inv(Do(st, act)) && Do(st, act).s == RunEvents(st.s, EventOf(st, act))
  {
    match act
    case Begin(p, b, r) =>
    case Lock(p) => LockKeeps(st, p);
    case CheckLocked(p) =>
    case Commit(p) => CommitIsEvent(st, p);
    case Abort(p) =>
    case ReadGoal(m, g) =>
    case ReadAmount(m) =>
    case MarkIfStillOpen(m) =>
      if m in st.markers {
        EventKeeps(st, MarkCompleted(st.markers[m].goal));
        RunOne(st.s, MarkCompleted(st.markers[m].goal));
      }
    case Outside(e) =>
      if !e.Ask? && !e.MarkCompleted? {
        EventKeeps(st, e);
        RunOne(st.s, e);
      }
  }

  /** Serializability: any interleaving leaves the tables as its effective actions would, each performed
      whole and one after the other. */
  lemma {:induction false} InterleavingIsSerial(st: State, acts: seq<Action>)
    requires Inv(st)
    ensures Inv(Interleave(st, acts)) && Interleave(st, acts).s == RunEvents(st.s, Events(st, acts))
  {
    if acts != [] {
      var n := |acts| - 1;
      InterleavingIsSerial(st, acts[..n]);
      var st1 := Interleave(st, acts[..n]);
      ActionIsEvent(st1, acts[n]);
      RunConcat(st.s, Events(st, acts[..n]), EventOf(st1, acts[n]));
    }
  }

  lemma {:induction false} RunConcat(s: Savings, es: seq<Event>, more: seq<Event>)
    ensures RunEvents(s, es + more) == RunEvents(RunEvents(s, es), more)
  {
    if more == [] {
      assert es + more == es;
    } else {
      var n := |more| - 1;
      assert (es + more)[..|es + more| - 1] == es + more[..n];
      RunConcat(s, es, more[..n]);
    }
  }

  ghost predicate Began(acts: seq<Action>, p: nat, b: BusinessId, r: Request) {
    Begin(p, b, r) in acts
  }

  lemma {:induction false} SessionsWereBegun(st: State, acts: seq<Action>, p: nat)
    requires st.sessions == map[] && p in Interleave(st, acts).sessions
    ensures var t := Interleave(st, acts).sessions[p]; Began(acts, p, t.b, t.r)
  {
    if acts != [] {
      var n := |acts| - 1;
      var st1 := Interleave(st, acts[..n]);
      RequestStays(st1, acts[n], p);
      if p in st1.sessions {
        SessionsWereBegun(st, acts[..n], p);
        var i :| 0 <= i < n && acts[i] == Begin(p, st1.sessions[p].b, st1.sessions[p].r);
        assert acts[i] in acts;
      }
    }
  }

  lemma AskIsOfASession(st: State, act: Action, e: Event)
    requires e in EventOf(st, act) && e.Ask?
    ensures act.Commit? && act.p in st.sessions && e == Ask(st.sessions[act.p].b, st.sessions[act.p].r)
  {
  }

  /** Only requests that were begun are ever performed. */
  lemma {:induction false} AskedWasBegun(st: State, acts: seq<Action>, e: Event)
    requires st.sessions == map[] && e in Events(st, acts) && e.Ask?
    ensures exists p :: Began(acts, p, e.b, e.r)
  {
    var n := |acts| - 1;
    var st1 := Interleave(st, acts[..n]);
    if e in Events(st, acts[..n]) {
      AskedWasBegun(st, acts[..n], e);
      var p :| Began(acts[..n], p, e.b, e.r);
      BeganEarlier(acts, n, p, e.b, e.r);
    } else {
      AskIsOfASession(st1, acts[n], e);
      SessionsWereBegun(st, acts[..n], acts[n].p);
      BeganEarlier(acts, n, acts[n].p, e.b, e.r);
    }
  }

  lemma BeganEarlier(acts: seq<Action>, n: nat, p: nat, b: BusinessId, r: Request)
    requires n <= |acts| && Began(acts[..n], p, b, r)
    ensures Began(acts, p, b, r)
  {
  }

  lemma RequestStays(st: State, act: Action, p: nat)
    requires p in Do(st, act).sessions
    ensures var t := Do(st, act).sessions[p];
      if p in st.sessions then t.b == st.sessions[p].b && t.r == st.sessions[p].r else act == Begin(p, t.b, t.r)
  {
  }

  // ----- withdrawn is final

  function IsPayout(g: GoalId): GoalEntry -> int {
    (e: GoalEntry) => if e.goal == g && e.kind.Withdrawal? then 1 else 0
  }

  function Payouts(log: seq<GoalEntry>, g: GoalId): int {
    SumBy(log, IsPayout(g))
  }

  /** A withdrawn goal holds nothing and was paid out once; any other goal was never paid out. */
  ghost predicate PaidOnce(s: Savings, g: GoalId) {
    if g < |s.goals| && s.goals[g].status.Withdrawn? then CurrentAmount(s.log, g) == 0 && Payouts(s.log, g) == 1
    else Payouts(s.log, g) == 0
  }

  /** The one event that takes a goal back out of WITHDRAWN. */
  predicate Reopens(s: Savings, e: Event, g: GoalId) {
    e.SetStatus? && e.g == g && !e.status.Withdrawn? && g < |s.goals| && s.goals[g].status.Withdrawn?
  }

  /** A withdrawn goal leaves that status exactly when the status endpoint is called on it. */
  lemma WithdrawnLeftIff(s: Savings, e: Event, g: GoalId)
    requires g < |s.goals| && s.goals[g].status.Withdrawn?
    ensures !(g < |Happen(s, e).goals| && Happen(s, e).goals[g].status.Withdrawn?) <==> Reopens(s, e, g)
  {
  }

  lemma PerformKeepsPaidOnce(s: Savings, b: BusinessId, r: Request, g: GoalId)
    requires SavingsInv(s) && PaidOnce(s, g) && Perform(s, b, r).Ok?
    ensures PaidOnce(Perform(s, b, r).value, g)
  {
    match r
    case Contribute(g0, _, _, amount, date) =>
      PayoutsSnoc(s.log,
        GoalEntry(g0, Contribution, amount, date, Some(PostStep(s.db, b, ContributionPosting(r)).value.1)), g);
    case Move(from, to, amount, date) =>
      var out := GoalEntry(from, TransferOut, amount, date, None);
      PayoutsSnoc(s.log, out, g);
      PayoutsSnoc(s.log + [out], GoalEntry(to, TransferIn, amount, date, None), g);
    case CashOut(g0, _, _, date) =>
      var amount := CurrentAmount(s.log, g0);
      PayoutsSnoc(s.log,
        GoalEntry(g0, Withdrawal, amount, date, Some(PostStep(s.db, b, CashOutPosting(r, amount)).value.1)), g);
  }

  lemma HappenKeepsPaidOnce(s: Savings, e: Event, g: GoalId)
    requires SavingsInv(s) && PaidOnce(s, g) && !Reopens(s, e, g)
    ensures PaidOnce(Happen(s, e), g)
  {
    if e.Ask? && Perform(s, e.b, e.r).Ok? {
      PerformKeepsPaidOnce(s, e.b, e.r, g);
    }
  }

  lemma PayoutsSnoc(log: seq<GoalEntry>, e: GoalEntry, g: GoalId)
    ensures Payouts(log + [e], g) == Payouts(log, g) + IsPayout(g)(e)
    ensures CurrentAmount(log + [e], g) == CurrentAmount(log, g) + EffectOn(g)(e)
  {
    SumSnoc(log, e, IsPayout(g));
    AmountSnoc(log, e, g);
  }

  /** The status endpoint is never called on the goal while it is withdrawn. */
  ghost predicate NeverReopened(st: State, acts: seq<Action>, g: GoalId) {
    forall i :: 0 <= i < |acts| && acts[i].Outside? ==> !Reopens(Interleave(st, acts[..i]).s, acts[i].e, g)
  }

  ghost predicate IsWithdrawn(s: Savings, g: GoalId) {
    g < |s.goals| && s.goals[g].status.Withdrawn?
  }

  /** Withdrawn is final in every interleaving in which nobody reopens the goal: a withdrawn goal stays
      withdrawn and empty, and a goal is paid out at most once, stale completion markers or not. */
  lemma {:induction false} WithdrawnIsFinal(st: State, acts: seq<Action>, g: GoalId)
    requires Inv(st) && PaidOnce(st.s, g) && NeverReopened(st, acts, g)
    ensures PaidOnce(Interleave(st, acts).s, g)
    ensures IsWithdrawn(st.s, g) ==> IsWithdrawn(Interleave(st, acts).s, g)
  {
    if acts != [] {
      var n := |acts| - 1;
      assert forall i :: 0 <= i < n ==> acts[..n][..i] == acts[..i];
      WithdrawnIsFinal(st, acts[..n], g);
      InterleavingIsSerial(st, acts[..n]);
      var st1 := Interleave(st, acts[..n]);
      ActionIsEvent(st1, acts[n]);
      if EventOf(st1, acts[n]) != [] {
        var e := EventOf(st1, acts[n])[0];
        RunOne(st1.s, e);
        HappenKeepsPaidOnce(st1.s, e, g);
        if IsWithdrawn(st1.s, g) {
          WithdrawnLeftIff(st1.s, e, g);
        }
      }
    }
  }

  /** The condition is needed: one call of the status endpoint reopens any withdrawn goal, and money can be
      added to it again. */
  lemma ReopenedTakesMoney(st: State, g: GoalId, b: BusinessId, money: AccountId, wallet: AccountId, amount: int,
      date: int)
    requires IsWithdrawn(st.s, g) && HasGoal(st.s, b, g) && amount > 0
    requires IsMoneyAccount(st.s.db.accounts, b, money) && IsWalletOf(st.s.db.accounts, b, wallet)
    ensures Check(st.s, b, Contribute(g, money, wallet, amount, date)) == Some(GoalWithdrawn)
    ensures Check(Do(st, Outside(SetStatus(g, Active))).s, b, Contribute(g, money, wallet, amount, date)) == None
  {
  }

  // ----- a request nobody interferes with goes through

  lemma OneMore(st: State, acts: seq<Action>, act: Action)
    ensures Interleave(st, acts + [act]) == Do(Interleave(st, acts), act)
    ensures Events(st, acts + [act]) == Events(st, acts) + EventOf(Interleave(st, acts), act)
  {
    assert (acts + [act])[..|acts|] == acts;
  }

  function LocksOf(r: Request, n: nat): seq<Action> {
    if n == 0 then [] else LocksOf(r, n - 1) + [Lock(0)]
  }

  lemma LockAlone(s: Savings, b: BusinessId, r: Request, n: nat)
    requires n < |Keys(r)|
    ensures Do(State(s, map[0 := Session(b, r, n, false, 0)], map[]), Lock(0)) ==
      State(s, map[0 := Session(b, r, n + 1, false, 0)], map[])
  {
    assert !LockedByOther(State(s, map[0 := Session(b, r, n, false, 0)], map[]), 0, Keys(r)[n]);
  }

  lemma {:induction false} AloneLocks(s: Savings, b: BusinessId, r: Request, n: nat)
    requires n <= |Keys(r)|
    ensures var acts := [Begin(0, b, r)] + LocksOf(r, n);
      Interleave(State(s, map[], map[]), acts) == State(s, map[0 := Session(b, r, n, false, 0)], map[])
      && Events(State(s, map[], map[]), acts) == []
  {
    var start := State(s, map[], map[]);
    if n == 0 {
      OneMore(start, [], Begin(0, b, r));
      assert [] + [Begin(0, b, r)] == [Begin(0, b, r)] + LocksOf(r, 0);
    } else {
      AloneLocks(s, b, r, n - 1);
      LockAlone(s, b, r, n - 1);
      OneMore(start, [Begin(0, b, r)] + LocksOf(r, n - 1), Lock(0));
      assert ([Begin(0, b, r)] + LocksOf(r, n - 1)) + [Lock(0)] == [Begin(0, b, r)] + LocksOf(r, n);
    }
  }

  lemma CheckAlone(s: Savings, b: BusinessId, r: Request)
    requires Check(s, b, r).None?
    ensures Do(State(s, map[0 := Session(b, r, |Keys(r)|, false, 0)], map[]), CheckLocked(0)) ==
      State(s, map[0 := Session(b, r, |Keys(r)|, true, AmountRead(s, r))], map[])
  {
  }

  lemma CommitAlone(s: Savings, b: BusinessId, r: Request)
    requires Perform(s, b, r).Ok?
    ensures var st := State(s, map[0 := Session(b, r, |Keys(r)|, true, AmountRead(s, r))], map[]);
      EventOf(st, Commit(0)) == [Ask(b, r)] && Do(st, Commit(0)) == State(Perform(s, b, r).value, map[], map[])
  {
    assert map[0 := Session(b, r, |Keys(r)|, true, AmountRead(s, r))] - {0} == map[];
  }

  /** Locking, checking and committing one after the other performs the request. */
  lemma AloneIsPerformed(s: Savings, b: BusinessId, r: Request)
    requires Perform(s, b, r).Ok?
    ensures var start, acts := State(s, map[], map[]),
      [Begin(0, b, r)] + LocksOf(r, |Keys(r)|) + [CheckLocked(0)] + [Commit(0)];
      && Events(start, acts) == [Ask(b, r)]
      && Interleave(start, acts) == State(Perform(s, b, r).value, map[], map[])
  {
    var start, locks := State(s, map[], map[]), [Begin(0, b, r)] + LocksOf(r, |Keys(r)|);
    AloneLocks(s, b, r, |Keys(r)|);
    CheckAlone(s, b, r);
    CommitAlone(s, b, r);
    OneMore(start, locks, CheckLocked(0));
    OneMore(start, locks + [CheckLocked(0)], Commit(0));
  }

  // ----- the order locks are taken in

  /** Wallets' keys sort before goals', and either by id. */
  predicate SortsBefore(k: Key, l: Key) {
    match (k, l)
    case (WalletKey(a), WalletKey(b)) => a < b
    case (WalletKey(_), GoalKey(_)) => true
    case (GoalKey(_), WalletKey(_)) => false
    case (GoalKey(g), GoalKey(h)) => g < h
  }

  /** Every request locks all it is about, each key once, in that one order. */
  lemma KeysInOrder(r: Request)
    requires r.Move? ==> r.from != r.to
    ensures forall i, j :: 0 <= i < j < |Keys(r)| ==> SortsBefore(Keys(r)[i], Keys(r)[j])
    ensures forall k :: k in Keys(r) <==> match r
      case Contribute(goal, _, _, _, _) => k == GoalKey(goal)
      case Move(from, to, _, _) => k == GoalKey(from) || k == GoalKey(to)
      case CashOut(goal, wallet, _, _) => k == GoalKey(goal) || k == WalletKey(wallet)
  {
  }

  // ----- the completion marker

  /** A marker starts on a goal that is active or paused, and on no other. */
  lemma MarkerStartsIff(st: State, m: nat, g: GoalId)
    requires m !in st.markers
    ensures m in Do(st, ReadGoal(m, g)).markers <==>
      g < |st.s.goals| && (st.s.goals[g].status == Active || st.s.goals[g].status == Paused)
    ensures Do(st, ReadGoal(m, g)).s == st.s
  {
  }

  /** Left alone it completes a goal that has reached its target, and no other. */
  lemma AloneIsMarked(s: Savings, g: GoalId)
    requires g < |s.goals| && (s.goals[g].status == Active || s.goals[g].status == Paused)
    ensures var start, acts := State(s, map[], map[]), [] + [ReadGoal(0, g)] + [ReadAmount(0)] + [MarkIfStillOpen(0)];
      && Interleave(start, acts).markers == map[]
      && Interleave(start, acts).s ==
        if CurrentAmount(s.log, g) >= s.goals[g].target then s.(goals := s.goals[g := s.goals[g].(status := Completed)])
          else s
  {
    var start := State(s, map[], map[]);
    OneMore(start, [], ReadGoal(0, g));
    OneMore(start, [] + [ReadGoal(0, g)], ReadAmount(0));
    OneMore(start, [] + [ReadGoal(0, g)] + [ReadAmount(0)], MarkIfStillOpen(0));
    MarkAlone(s, g);
  }

  lemma MarkAlone(s: Savings, g: GoalId)
    requires g < |s.goals| && (s.goals[g].status == Active || s.goals[g].status == Paused)
    ensures var read := Do(Do(State(s, map[], map[]), ReadGoal(0, g)), ReadAmount(0));
      && read == State(s, map[], map[0 := Marker(g, s.goals[g].target, Some(CurrentAmount(s.log, g)))])
      && Do(read, MarkIfStillOpen(0)) == State(
           if CurrentAmount(s.log,
             g) >= s.goals[g].target then s.(goals := s.goals[g := s.goals[g].(status := Completed)]) else s,
           map[], map[])
  {
    assert map[0 := Marker(g, s.goals[g].target, Some(CurrentAmount(s.log, g)))] - {0} == map[];
  }

  /** A key is locked at once unless some other request holds it. */
  lemma LocksUnlessHeld(st: State, p: nat)
    requires p in st.sessions && st.sessions[p].held < |Keys(st.sessions[p].r)|
    requires forall q | q in st.sessions :: st.sessions[q].held <= |Keys(st.sessions[q].r)|
    ensures var me := st.sessions[p];
      Do(st, Lock(p)) ==
        if exists q | q in st.sessions ::
          q != p && Keys(me.r)[me.held] in Keys(st.sessions[q].r)[..st.sessions[q].held] then st
        else st.(sessions := st.sessions[p := me.(held := me.held + 1)])
  {
  }
}
