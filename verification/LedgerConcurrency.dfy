/** Postings, voids and reconciles running side by side, one database statement at a time.

    A session reads what has been committed plus its own uncommitted rows (read committed); the
    account rows it locks stay locked until it commits or rolls back. The main result is that every
    interleaving commits what some sequence of whole requests would have committed, so everything
    proved about runs of the ledger holds of every committed state.
 */
module LedgerConcurrency {
  import opened Base
  import opened Ledger
  import opened LedgerRuns

  type SessionId = nat

  datatype Work =
    | Posting(b: BusinessId, req: PostRequest)
    | Voiding(b: BusinessId, id: TxId, today: int)
    | Reconciling(account: AccountId)

  /** `plan[..held]` are the account rows locked so far. The rest is uncommitted or only read. */
  datatype Session = Session(
    work: Work,
    plan: seq<AccountId>,
    held: nat,
    original: Option<Tx>,
    claimed: bool,
    row: Option<Tx>,
    cached: Option<int>,
    debits: map<AccountId, int>,
    credits: map<AccountId, int>,
    balances: map<AccountId, int>
  )

  datatype State = State(db: Db, sessions: map<SessionId, Session>, discrepancies: nat)

  datatype Action =
    | Begin(p: SessionId, work: Work)
    | Lock(p: SessionId)
    | Claim(p: SessionId)
    | Insert(p: SessionId)
    | ReadCached(p: SessionId)
    | ReadDebits(p: SessionId, a: AccountId)
    | ReadCredits(p: SessionId, a: AccountId)
    | WriteBalance(p: SessionId, a: AccountId)
    | Commit(p: SessionId)
    | Abort(p: SessionId)

  /** A set of ids below `n` in ascending order: the order rows are locked in. */
  function Ascending(ids: set<nat>, n: nat): (r: seq<nat>)
    ensures forall a :: a in r <==> a in ids && a < n
    ensures forall i :: 0 <= i < |r| ==> r[i] < n
    ensures forall i, j :: 0 <= i < j < |r| ==> r[i] < r[j]
  {
    if n == 0 then [] else Ascending(ids, n - 1) + if n - 1 in ids then [n - 1] else []
  }

  // ----- one statement

  /** What a session sees: the committed postings and its own. */
  function View(db: Db, s: Session): seq<Tx> {
    if s.row.Some? then db.txs + [s.row.value] else db.txs
  }

  predicate Holds(s: Session, a: AccountId)
    requires s.held <= |s.plan|
  {
    a in s.plan[..s.held]
  }

  predicate LockedByOther(s: State, p: SessionId, a: AccountId) {
    exists q | q in s.sessions :: q != p && s.sessions[q].held <= |s.sessions[q].plan| && Holds(s.sessions[q], a)
  }

  predicate KeyPending(s: State, p: SessionId, key: Option<string>) {
    key.Some? && exists q | q in s.sessions :: q != p && s.sessions[q].row.Some? && s.sessions[q].row.value.key == key
  }

  predicate AllLocked(s: Session) {
    s.held == |s.plan|
  }

  /** Balances are recomputed once the posting is in, or for a reconcile as soon as the row is locked. */
  predicate MayRecompute(s: Session, a: AccountId) {
    AllLocked(s) && a in s.plan && (s.row.Some? || s.work.Reconciling?)
  }

  predicate ReadyToCommit(s: Session) {
    && (s.work.Reconciling? ==> s.cached.Some?)
    && (!s.work.Reconciling? ==> s.row.Some?)
    && (forall a | a in s.plan :: a in s.balances)
  }

  function Opened(work: Work, plan: seq<AccountId>, original: Option<Tx>): Session {
    Session(work, plan, 0, original, false, None, None, map[], map[], map[])
  }

  /** The request's checks against the committed tables; a refused request opens no session. */
  function StartSession(db: Db, work: Work): Option<Session> {
    match work
    case Posting(b, req) =>
      if (req.key.Some? && FindKey(db.txs, req.key.value).Some?) || CheckPost(db, b, req).Some? then None
      else Some(Opened(work, Ascending(Touched(req.entries), |db.accounts|), None))
    case Voiding(b, id, today) =>
      if CheckVoid(db, b, id).Some? then None
      else Some(Opened(work, Ascending(Touched(db.txs[id].entries), |db.accounts|), Some(db.txs[id])))
    case Reconciling(a) =>
      if a >= |db.accounts| then None else Some(Opened(work, [a], None))
  }

  function WithBalances(accounts: seq<Account>, balances: map<AccountId, int>): (r: seq<Account>)
    ensures |r| == |accounts|
    ensures forall a :: 0 <= a < |r| ==> r[a] == if a in balances then accounts[a].(current := balances[a])
      else accounts[a]
  {
    seq(|accounts|, a requires 0 <= a < |accounts| => if a in balances then accounts[a].(current := balances[a])
      else accounts[a])
  }

  /** Everything the session wrote, made visible at once. */
  function Committed(db: Db, s: Session): Db {
    var marked :=
      if s.claimed && s.work.Voiding? && s.work.id < |db.txs|
      then db.txs[s.work.id := db.txs[s.work.id].(voided := true)]
      else db.txs;
    Db(WithBalances(db.accounts, s.balances), db.contacts, if s.row.Some? then marked + [s.row.value] else marked)
  }

  function Balance(account: Account, debits: int, credits: int): int {
    if IsDebitPositive(account.accountType) then account.opening + debits - credits
      else account.opening + credits - debits
  }

  function DoBegin(s: State, p: SessionId, work: Work): State {
    var started := StartSession(s.db, work);
    if p in s.sessions || started.None? then s else s.(sessions := s.sessions[p := started.value])
  }

  function With(s: State, p: SessionId, me: Session): State {
    s.(sessions := s.sessions[p := me])
  }

  function Ended(s: State, p: SessionId): State {
    s.(sessions := s.sessions - {p})
  }

  function DoClaim(s: State, p: SessionId, me: Session): State {
    if !(me.work.Voiding? && AllLocked(me) && !me.claimed && me.work.id < |s.db.txs|) then s
    else if s.db.txs[me.work.id].voided then Ended(s, p)
    else With(s, p, me.(claimed := true))
  }

  /** The unique index on the idempotency key: wait for an uncommitted duplicate, fail on a committed one. */
  function DoInsert(s: State, p: SessionId, me: Session): State {
    if !AllLocked(me) || me.row.Some? then s
    else match me.work
      case Posting(b, req) =>
        if KeyPending(s, p, req.key) then s
        else if req.key.Some? && FindKey(s.db.txs, req.key.value).Some? then Ended(s, p)
        else With(s, p, me.(row := Some(Posted(b, req))))
      case Voiding(b, id, today) =>
        if me.claimed && me.original.Some? then With(s, p, me.(row := Some(Reversal(me.original.value, id, today))))
          else s
      case Reconciling(_) => s
  }

  function DoReadCached(s: State, p: SessionId, me: Session): State {
    if me.work.Reconciling? && AllLocked(me) && me.balances == map[] && me.work.account < |s.db.accounts|
    then With(s, p, me.(cached := Some(s.db.accounts[me.work.account].current)))
    else s
  }

  function DoWriteBalance(s: State, p: SessionId, me: Session, a: AccountId): State {
    if a in me.debits && a in me.credits && a < |s.db.accounts|
    then With(s, p, me.(balances := me.balances[a := Balance(s.db.accounts[a], me.debits[a], me.credits[a])]))
    else s
  }

  function DoCommit(s: State, p: SessionId, me: Session): State {
    if !ReadyToCommit(me) then s
    else
      var wrong := me.work.Reconciling? && me.work.account in me.balances
        && me.cached != Some(me.balances[me.work.account]);
      State(Committed(s.db, me), s.sessions - {p}, s.discrepancies + if wrong then 1 else 0)
  }

  /** One statement of one session. A statement that must wait, or is out of turn, changes nothing. */
  function Do(s: State, act: Action): State {
    if act.Begin? then DoBegin(s, act.p, act.work)
    else if act.p !in s.sessions then s
    else
      var p, me := act.p, s.sessions[act.p];
      match act
      case Lock(_) =>
        if me.held < |me.plan| && !LockedByOther(s, p, me.plan[me.held]) then With(s, p, me.(held := me.held + 1))
          else s
      case Claim(_) => DoClaim(s, p, me)
      case Insert(_) => DoInsert(s, p, me)
      case ReadCached(_) => DoReadCached(s, p, me)
      case ReadDebits(_, a) =>
        if MayRecompute(me, a) then With(s, p, me.(debits := me.debits[a := Aggregate(View(s.db, me), a, Debit)]))
          else s
      case ReadCredits(_, a) =>
        if MayRecompute(me, a) then With(s, p, me.(credits := me.credits[a := Aggregate(View(s.db, me), a, Credit)]))
          else s
      case WriteBalance(_, a) => DoWriteBalance(s, p, me, a)
      case Commit(_) => DoCommit(s, p, me)
      case Abort(_) => Ended(s, p)
  }

  function Interleave(s: State, acts: seq<Action>): State {
    if acts == [] then s else Do(Interleave(s, acts[..|acts| - 1]), acts[|acts| - 1])
  }

  // ----- the history of commits

  /** The whole request of a session, as the ledger runs it on its own. */
  ghost function AsCommand(work: Work): Command
    requires !work.Reconciling?
  {
    match work
    case Posting(b, req) => Post(b, req)
    case Voiding(b, id, today) => Void(b, id, today)
  }

  ghost predicate CommitsRequest(s: State, act: Action) {
    act.Commit? && act.p in s.sessions && ReadyToCommit(s.sessions[act.p]) && !s.sessions[act.p].work.Reconciling?
  }

  /** The request a statement commits, if it commits one; a reconcile asks the ledger for nothing. */
  ghost function CommitOf(s: State, act: Action): seq<Command> {
    if CommitsRequest(s, act) then [AsCommand(s.sessions[act.p].work)] else []
  }

  /** The requests of the sessions that commit, in the order they commit. */
  ghost function Commits(s: State, acts: seq<Action>): seq<Command> {
    if acts == [] then []
    else
      var n := |acts| - 1;
      Commits(s, acts[..n]) + CommitOf(Interleave(s, acts[..n]), acts[n])
  }

  // ----- what every statement keeps

  ghost function PlanSet(s: Session): set<AccountId> {
    set a | a in s.plan
  }

  /** The session's request is still acceptable, and what it has written is what the request asks for. */
  ghost predicate WorkFits(db: Db, s: Session) {
    match s.work
    case Posting(b, req) =>
      && CheckPost(db, b, req).None?
      && PlanSet(s) == Touched(req.entries)
      && (s.row.Some? ==> s.row.value == Posted(b, req))
      && !s.claimed
    case Voiding(b, id, today) =>
      && id < |db.txs|
      && db.txs[id].business == b && db.txs[id].reversalOf.None? && !OwnedByAFeature(db, db.txs[id])
      && s.original.Some? && s.original.value.(voided := db.txs[id].voided) == db.txs[id]
      && PlanSet(s) == Touched(db.txs[id].entries)
      && (s.claimed ==> !db.txs[id].voided)
      && (s.row.Some? ==> s.claimed && s.row.value == Reversal(db.txs[id], id, today))
    case Reconciling(a) =>
      && s.plan == [a] && a < |db.accounts|
      && s.row.None? && !s.claimed
      && (s.cached.Some? ==> s.cached.value == db.accounts[a].current)
  }

  ghost predicate Untouched(s: Session) {
    s.row.None? && !s.claimed && s.cached.None? && s.debits == map[] && s.credits == map[] && s.balances == map[]
  }

  /** What was read is still what a fresh read would give, for every account the session has locked. */
  ghost predicate ReadsFit(db: Db, s: Session) {
    && (forall a | a in s.debits :: a in s.plan && s.debits[a] == Aggregate(View(db, s), a, Debit))
    && (forall a | a in s.credits :: a in s.plan && s.credits[a] == Aggregate(View(db, s), a, Credit))
    && (forall a | a in s.balances ::
      a in s.plan && a < |db.accounts| && s.balances[a] == BalanceOf(db.accounts[a], a, View(db, s)))
  }

  ghost predicate Fits(db: Db, s: Session) {
    && s.held <= |s.plan|
    && WorkFits(db, s)
    && ReadsFit(db, s)
    && (!AllLocked(s) ==> Untouched(s))
    && (s.row.None? && !s.work.Reconciling? ==> s.debits == map[] && s.credits == map[] && s.balances == map[])
  }

  ghost predicate Apart(s: Session, t: Session)
    requires s.held <= |s.plan| && t.held <= |t.plan|
  {
    forall a :: Holds(s, a) ==> !Holds(t, a)
  }

  ghost predicate KeysApart(s: Session, t: Session) {
    s.row.Some? && t.row.Some? && s.row.value.key.Some? ==> s.row.value.key != t.row.value.key
  }

  ghost predicate KeyIsNew(db: Db, s: Session) {
    s.row.Some? && s.row.value.key.Some? ==> forall i :: 0 <= i < |db.txs| ==> db.txs[i].key != s.row.value.key
  }

  ghost predicate Inv(s: State) {
    && LedgerInv(s.db)
    && (forall p | p in s.sessions :: Fits(s.db, s.sessions[p]) && KeyIsNew(s.db, s.sessions[p]))
    && (forall p, q | p in s.sessions && q in s.sessions && p != q ::
      Apart(s.sessions[p], s.sessions[q]) && KeysApart(s.sessions[p], s.sessions[q]))
    && s.discrepancies == 0
  }

  // ----- a commit is one whole request

  lemma AggregateOff(txs: seq<Tx>, t: Tx, a: AccountId, side: Side)
    requires a !in Touched(t.entries)
    ensures Aggregate(txs + [t], a, side) == Aggregate(txs, a, side)
  {
    SumSnoc(txs, t, TxOn(a, side));
    forall i | 0 <= i < |t.entries|
      ensures EntryOn(a, side)(t.entries[i]) == 0
    {
      assert t.entries[i] in t.entries;
    }
    SumZero(t.entries, EntryOn(a, side));
  }

  lemma AggregateIgnoresStatus(txs: seq<Tx>, id: TxId, a: AccountId, side: Side)
    requires id < |txs|
    ensures Aggregate(txs[id := txs[id].(voided := true)], a, side) == Aggregate(txs, a, side)
  {
    SumUpdate(txs, id, txs[id].(voided := true), TxOn(a, side));
  }

  /** A posting session commits exactly what `PostStep` does to the tables as they are at that moment. */
  lemma PostingCommits(db: Db, s: Session)
    requires Fits(db, s) && KeyIsNew(db, s) && ReadyToCommit(s) && s.work.Posting?
    ensures PostStep(db, s.work.b, s.work.req) == Ok((Committed(db, s), |db.txs|))
  {
    var req := s.work.req;
    var txs := db.txs + [Posted(s.work.b, req)];
    assert forall a | a in Touched(req.entries) :: a in PlanSet(s) && a in s.plan;
    assert forall a | a in s.balances :: a in PlanSet(s);
    assert WithBalances(db.accounts, s.balances) == Recached(db.accounts, txs, Touched(req.entries));
  }

  lemma ReversalNet(db: Db, s: Session, a: AccountId)
    requires WorkFits(db, s) && s.work.Voiding? && s.row.Some?
    ensures AccountNet(VoidedRows(db.txs, s.work.id, s.work.today), a) == AccountNet(View(db, s), a)
  {
    var id := s.work.id;
    VoidingMarksNothing(db.txs, id, a);
    SumSnoc(db.txs[id := db.txs[id].(voided := true)], s.row.value, TxNet(a));
    SumSnoc(db.txs, s.row.value, TxNet(a));
  }

  lemma VoidingCommits(db: Db, s: Session)
    requires Fits(db, s) && ReadyToCommit(s) && s.work.Voiding?
    ensures VoidStep(db, s.work.b, s.work.id, s.work.today) == Ok((Committed(db, s), |db.txs|))
  {
    var id := s.work.id;
    var recached := Recached(db.accounts, VoidedRows(db.txs, id, s.work.today), Touched(db.txs[id].entries));
    var written := WithBalances(db.accounts, s.balances);
    forall a | 0 <= a < |db.accounts|
      ensures written[a] == recached[a]
    {
      ReversalNet(db, s, a);
      assert a in PlanSet(s) <==> a in s.plan;
    }
    assert written == recached;
  }

  lemma ReconcilingCommits(db: Db, s: Session)
    requires Fits(db, s) && ReadyToCommit(s) && s.work.Reconciling? && Cached(db)
    ensures Committed(db, s) == db
    ensures s.work.account in s.balances && s.cached == Some(s.balances[s.work.account])
  {
    assert s.work.account in s.plan;
    assert WithBalances(db.accounts, s.balances) == db.accounts;
  }

  // ----- a commit does not disturb the other sessions

  lemma CheckPostSurvives(db: Db, db': Db, b: BusinessId, req: PostRequest)
    requires CheckPost(db, b, req).None? && Extends(db, db')
    ensures CheckPost(db', b, req).None?
  {
    forall a | a in Touched(req.entries)
      ensures a < |db'.accounts| && db'.accounts[a].business == b
    {
      assert db'.accounts[a].(current := db.accounts[a].current) == db.accounts[a];
    }
    if req.appliedTo.Some? {
      var i := req.appliedTo.value;
      assert db'.txs[i].(voided := db.txs[i].voided) == db.txs[i];
    }
  }

  lemma OwnershipSurvives(db: Db, db': Db, id: TxId)
    requires id < |db.txs| && Extends(db, db') && !OwnedByAFeature(db, db.txs[id])
    requires forall e | e in db.txs[id].entries :: e.account < |db.accounts|
    ensures !OwnedByAFeature(db', db'.txs[id])
  {
    assert db'.txs[id].(voided := db.txs[id].voided) == db.txs[id];
    forall e | e in db'.txs[id].entries && e.account < |db'.accounts|
      ensures db'.accounts[e.account].subtype != Some(REFERRAL_BONUS_INCOME_SUBTYPE)
    {
      assert db'.accounts[e.account].(current := db.accounts[e.account].current) == db.accounts[e.account];
    }
  }

  /** What another session's commit looks like to `t`: history grew, but not on an account `t` holds. */
  ghost predicate Harmless(db: Db, db': Db, t: Session) {
    && Extends(db, db')
    && (AllLocked(t) ==> forall a | a in t.plan && a < |db.accounts| ::
          && db'.accounts[a] == db.accounts[a]
          && Aggregate(db'.txs, a, Debit) == Aggregate(db.txs, a, Debit)
          && Aggregate(db'.txs, a, Credit) == Aggregate(db.txs, a, Credit))
    && (AllLocked(t) && t.work.Voiding? && t.work.id < |db.txs| && t.work.id < |db'.txs| ==>
      db'.txs[t.work.id] == db.txs[t.work.id])
  }

  lemma WorkSurvives(db: Db, db': Db, t: Session)
    requires AllSound(db) && Fits(db, t) && Harmless(db, db', t)
    ensures WorkFits(db', t)
  {
    match t.work
    case Posting(b, req) => CheckPostSurvives(db, db', b, req);
    case Voiding(b, id, today) =>
      assert Sound(db, db.txs[id]);
      assert db'.txs[id].(voided := db.txs[id].voided) == db.txs[id];
      OwnershipSurvives(db, db', id);
    case Reconciling(a) =>
      assert a in t.plan;
  }

  lemma AggregateOfView(db: Db, t: Session, a: AccountId, side: Side)
    ensures Aggregate(View(db, t), a, side) ==
      Aggregate(db.txs, a, side) + if t.row.Some? then TxOn(a, side)(t.row.value) else 0
  {
    if t.row.Some? {
      SumSnoc(db.txs, t.row.value, TxOn(a, side));
    }
  }

  lemma ReadsSurvive(db: Db, db': Db, t: Session)
    requires Fits(db, t) && Harmless(db, db', t)
    requires forall a | a in t.plan :: a < |db.accounts|
    ensures ReadsFit(db', t)
  {
    if AllLocked(t) {
      forall a | a in t.plan
        ensures Aggregate(View(db', t), a, Debit) == Aggregate(View(db, t), a, Debit)
        ensures Aggregate(View(db', t), a, Credit) == Aggregate(View(db, t), a, Credit)
        ensures BalanceOf(db'.accounts[a], a, View(db', t)) == BalanceOf(db.accounts[a], a, View(db, t))
      {
        AggregateOfView(db, t, a, Debit);
        AggregateOfView(db', t, a, Debit);
        AggregateOfView(db, t, a, Credit);
        AggregateOfView(db', t, a, Credit);
        NetIsDebitsMinusCredits(View(db, t), a);
        NetIsDebitsMinusCredits(View(db', t), a);
      }
    }
  }

  lemma PlanInTable(db: Db, s: Session)
    requires AllSound(db) && WorkFits(db, s)
    ensures forall a | a in s.plan :: a < |db.accounts|
  {
    assert forall a | a in s.plan :: a in PlanSet(s);
    if s.work.Voiding? {
      assert Sound(db, db.txs[s.work.id]);
    }
  }

  lemma SessionSurvives(db: Db, db': Db, t: Session)
    requires AllSound(db) && Fits(db, t) && Harmless(db, db', t)
    ensures Fits(db', t)
  {
    PlanInTable(db, t);
    WorkSurvives(db, db', t);
    ReadsSurvive(db, db', t);
  }

  lemma CommittedExtends(db: Db, s: Session)
    requires LedgerInv(db) && Fits(db, s) && KeyIsNew(db, s) && ReadyToCommit(s)
    ensures Extends(db, Committed(db, s))
  {
    match s.work
    case Posting(b, req) =>
      PostingCommits(db, s);
      NextExtends(db, Post(b, req));
    case Voiding(b, id, today) =>
      VoidingCommits(db, s);
      NextExtends(db, Void(b, id, today));
    case Reconciling(a) => ReconcilingCommits(db, s);
  }

  /** The accounts a committing session changes are all locked by it. */
  lemma CommitIsHarmless(db: Db, s: Session, t: Session)
    requires LedgerInv(db) && Fits(db, s) && Fits(db, t) && KeyIsNew(db, s) && ReadyToCommit(s) && Apart(s, t)
    ensures Harmless(db, Committed(db, s), t)
  {
    CommittedExtends(db, s);
    match s.work
    case Posting(b, req) => PostingHarmless(db, s, t);
    case Voiding(b, id, today) => VoidingHarmless(db, s, t);
    case Reconciling(a) => ReconcilingCommits(db, s);
  }

  lemma HeldApart(s: Session, t: Session, a: AccountId)
    requires s.held <= |s.plan| && t.held <= |t.plan| && Apart(s, t) && AllLocked(s) && AllLocked(t)
    requires a in t.plan
    ensures a !in s.plan && a !in PlanSet(s)
  {
    assert t.plan[..t.held] == t.plan && s.plan[..s.held] == s.plan;
    assert Holds(t, a);
    assert !Holds(s, a);
  }

  lemma PostingHarmless(db: Db, s: Session, t: Session)
    requires LedgerInv(db) && Fits(db, s) && Fits(db, t) && ReadyToCommit(s) && Apart(s, t) && s.work.Posting?
    requires Extends(db, Committed(db, s))
    ensures Harmless(db, Committed(db, s), t)
  {
    if AllLocked(t) {
      forall a | a in t.plan && a < |db.accounts|
        ensures Committed(db, s).accounts[a] == db.accounts[a]
        ensures Aggregate(Committed(db, s).txs, a, Debit) == Aggregate(db.txs, a, Debit)
        ensures Aggregate(Committed(db, s).txs, a, Credit) == Aggregate(db.txs, a, Credit)
      {
        HeldApart(s, t, a);
        AggregateOff(db.txs, s.row.value, a, Debit);
        AggregateOff(db.txs, s.row.value, a, Credit);
      }
    }
  }

  lemma VoidingHarmlessOn(db: Db, s: Session, t: Session, a: AccountId)
    requires Fits(db, s) && Fits(db, t) && ReadyToCommit(s) && Apart(s, t) && s.work.Voiding?
    requires AllLocked(t) && a in t.plan && a < |db.accounts|
    ensures Committed(db, s).accounts[a] == db.accounts[a]
    ensures Aggregate(Committed(db, s).txs, a, Debit) == Aggregate(db.txs, a, Debit)
    ensures Aggregate(Committed(db, s).txs, a, Credit) == Aggregate(db.txs, a, Credit)
  {
    var id := s.work.id;
    var marked := db.txs[id := db.txs[id].(voided := true)];
    HeldApart(s, t, a);
    AggregateIgnoresStatus(db.txs, id, a, Debit);
    AggregateIgnoresStatus(db.txs, id, a, Credit);
    AggregateOff(marked, s.row.value, a, Debit);
    AggregateOff(marked, s.row.value, a, Credit);
  }

  lemma VoidingHarmless(db: Db, s: Session, t: Session)
    requires LedgerInv(db) && Fits(db, s) && Fits(db, t) && ReadyToCommit(s) && Apart(s, t) && s.work.Voiding?
    requires Extends(db, Committed(db, s))
    ensures Harmless(db, Committed(db, s), t)
  {
    if AllLocked(t) {
      forall a | a in t.plan && a < |db.accounts|
        ensures Committed(db, s).accounts[a] == db.accounts[a]
        ensures Aggregate(Committed(db, s).txs, a, Debit) == Aggregate(db.txs, a, Debit)
        ensures Aggregate(Committed(db, s).txs, a, Credit) == Aggregate(db.txs, a, Credit)
      {
        VoidingHarmlessOn(db, s, t, a);
      }
      if t.work.Voiding? && t.work.id == s.work.id {
        VoidsOfOnePostingCollide(db, s, t);
      }
    }
  }

  /** Two voids of one posting want the same rows, so they are never both past their locks. */
  lemma VoidsOfOnePostingCollide(db: Db, s: Session, t: Session)
    requires LedgerInv(db) && Fits(db, s) && Fits(db, t) && s.work.Voiding? && t.work.Voiding? && s.work.id == t.work.id
    requires AllLocked(s) && AllLocked(t)
    ensures !Apart(s, t)
  {
    var t0 := db.txs[s.work.id];
    assert Sound(db, t0);
    var a := t0.entries[0].account;
    assert t0.entries[0] in t0.entries;
    assert a in PlanSet(s) && a in PlanSet(t);
    assert s.plan[..s.held] == s.plan && t.plan[..t.held] == t.plan;
    assert Holds(s, a) && Holds(t, a);
  }

  // ----- every statement keeps the invariant

  lemma BeginKeeps(s: State, p: SessionId, work: Work)
    requires Inv(s)
    ensures Inv(Do(s, Begin(p, work))) && Do(s, Begin(p, work)).db == s.db
  {
    var started := StartSession(s.db, work);
    if p !in s.sessions && started.Some? {
      StartFits(s.db, work);
      JoinKeeps(s, p, started.value);
    }
  }

  lemma JoinKeeps(s: State, p: SessionId, me: Session)
    requires Inv(s) && p !in s.sessions
    requires Fits(s.db, me) && me.held == 0 && me.row.None?
    ensures Inv(With(s, p, me))
  {
    assert forall a :: !Holds(me, a);
  }

  lemma StartFits(db: Db, work: Work)
    requires AllSound(db)
    ensures StartSession(db, work).Some? ==>
      Fits(db, StartSession(db, work).value) && StartSession(db, work).value.held == 0
  {
    var started := StartSession(db, work);
    if started.Some? {
      var s := started.value;
      match work
      case Posting(b, req) => assert PlanSet(s) == Touched(req.entries);
      case Voiding(b, id, today) =>
        assert Sound(db, db.txs[id]);
        assert PlanSet(s) == Touched(db.txs[id].entries);
      case Reconciling(a) =>
    }
  }

  /** A statement that rewrites only its own session. */
  lemma OwnStepKeeps(s: State, p: SessionId, me: Session)
    requires Inv(s) && p in s.sessions
    requires Fits(s.db, me) && KeyIsNew(s.db, me)
    requires forall q | q in s.sessions && q != p :: Apart(me, s.sessions[q]) && Apart(s.sessions[q], me)
    requires forall q | q in s.sessions && q != p :: KeysApart(me, s.sessions[q]) && KeysApart(s.sessions[q], me)
    ensures Inv(With(s, p, me))
  {
  }

  /** A statement that neither locks a row nor inserts one. */
  lemma QuietStepKeeps(s: State, p: SessionId, me: Session)
    requires Inv(s) && p in s.sessions
    requires Fits(s.db, me)
    requires var was := s.sessions[p]; me.plan == was.plan && me.held == was.held && me.row == was.row
    ensures Inv(With(s, p, me))
  {
    var was := s.sessions[p];
    forall q | q in s.sessions && q != p
      ensures Apart(me, s.sessions[q]) && Apart(s.sessions[q], me)
      ensures KeysApart(me, s.sessions[q]) && KeysApart(s.sessions[q], me)
    {
      SameLocksApart(was, me, s.sessions[q]);
    }
    OwnStepKeeps(s, p, me);
  }

  lemma SameLocksApart(was: Session, me: Session, t: Session)
    requires was.held <= |was.plan| && t.held <= |t.plan| && Apart(was, t) && Apart(t, was)
    requires me.plan == was.plan && me.held == was.held
    ensures Apart(me, t) && Apart(t, me)
  {
    forall a | Holds(me, a)
      ensures !Holds(t, a)
    {
      assert Holds(was, a);
    }
    forall a | Holds(t, a)
      ensures !Holds(me, a)
    {
      assert !Holds(was, a);
    }
  }

  lemma LockKeeps(s: State, p: SessionId)
    requires Inv(s)
    ensures Inv(Do(s, Lock(p))) && Do(s, Lock(p)).db == s.db
  {
    if p in s.sessions {
      var me := s.sessions[p];
      if me.held < |me.plan| && !LockedByOther(s, p, me.plan[me.held]) {
        var me' := me.(held := me.held + 1);
        assert me.plan[..me.held + 1] == me.plan[..me.held] + [me.plan[me.held]];
        forall q | q in s.sessions && q != p
          ensures Apart(me', s.sessions[q]) && Apart(s.sessions[q], me')
        {
          assert Apart(me, s.sessions[q]) && Apart(s.sessions[q], me);
        }
        OwnStepKeeps(s, p, me');
      }
    }
  }

  lemma RemoveKeeps(s: State, p: SessionId)
    requires Inv(s)
    ensures Inv(Ended(s, p))
  {
  }

  lemma ClaimFits(db: Db, me: Session)
    requires Fits(db, me) && me.work.Voiding? && AllLocked(me) && !db.txs[me.work.id].voided
    ensures Fits(db, me.(claimed := true))
  {
  }

  lemma ClaimKeeps(s: State, p: SessionId)
    requires Inv(s)
    ensures Inv(Do(s, Claim(p))) && Do(s, Claim(p)).db == s.db
  {
    if p in s.sessions {
      var me := s.sessions[p];
      RemoveKeeps(s, p);
      assert Fits(s.db, me);
      if me.work.Voiding? && AllLocked(me) && !me.claimed && !s.db.txs[me.work.id].voided {
        ClaimFits(s.db, me);
        QuietStepKeeps(s, p, me.(claimed := true));
      }
    }
  }

  /** Inserting the posting: the locks stay, the idempotency key is new to every session and row. */
  lemma InsertedKeeps(s: State, p: SessionId, row: Tx)
    requires Inv(s) && p in s.sessions
    requires Fits(s.db, s.sessions[p].(row := Some(row)))
    requires !KeyPending(s, p, row.key)
    requires row.key.Some? ==> FindKey(s.db.txs, row.key.value).None?
    ensures Inv(With(s, p, s.sessions[p].(row := Some(row))))
  {
    var was := s.sessions[p];
    var me := was.(row := Some(row));
    forall q | q in s.sessions && q != p
      ensures Apart(me, s.sessions[q]) && Apart(s.sessions[q], me)
      ensures KeysApart(me, s.sessions[q]) && KeysApart(s.sessions[q], me)
    {
      SameLocksApart(was, me, s.sessions[q]);
    }
    OwnStepKeeps(s, p, me);
  }

  lemma InsertFits(db: Db, me: Session, row: Tx)
    requires Fits(db, me) && AllLocked(me) && me.row.None?
    requires match me.work
      case Posting(b, req) => row == Posted(b, req)
      case Voiding(b, id, today) => me.claimed && row == Reversal(me.original.value, id, today)
      case Reconciling(_) => false
    ensures Fits(db, me.(row := Some(row)))
  {
  }

  lemma InsertKeeps(s: State, p: SessionId)
    requires Inv(s)
    ensures Inv(Do(s, Insert(p))) && Do(s, Insert(p)).db == s.db
  {
    if p in s.sessions {
      var me := s.sessions[p];
      RemoveKeeps(s, p);
      assert Fits(s.db, me);
      if AllLocked(me) && me.row.None? {
        match me.work
        case Posting(b, req) =>
          if !KeyPending(s, p, req.key) && !(req.key.Some? && FindKey(s.db.txs, req.key.value).Some?) {
            InsertFits(s.db, me, Posted(b, req));
            InsertedKeeps(s, p, Posted(b, req));
          }
        case Voiding(b, id, today) =>
          if me.claimed {
            InsertFits(s.db, me, Reversal(me.original.value, id, today));
            InsertedKeeps(s, p, Reversal(me.original.value, id, today));
          }
        case Reconciling(_) =>
      }
    }
  }

  lemma ReadDebitsFits(db: Db, me: Session, a: AccountId)
    requires Fits(db, me) && MayRecompute(me, a)
    ensures Fits(db, me.(debits := me.debits[a := Aggregate(View(db, me), a, Debit)]))
  {
  }

  lemma ReadCreditsFits(db: Db, me: Session, a: AccountId)
    requires Fits(db, me) && MayRecompute(me, a)
    ensures Fits(db, me.(credits := me.credits[a := Aggregate(View(db, me), a, Credit)]))
  {
  }

  lemma ReadDebitsKeeps(s: State, p: SessionId, a: AccountId)
    requires Inv(s)
    ensures Inv(Do(s, ReadDebits(p, a))) && Do(s, ReadDebits(p, a)).db == s.db
  {
    if p in s.sessions && MayRecompute(s.sessions[p], a) {
      var me := s.sessions[p];
      ReadDebitsFits(s.db, me, a);
      QuietStepKeeps(s, p, me.(debits := me.debits[a := Aggregate(View(s.db, me), a, Debit)]));
    }
  }

  lemma ReadCreditsKeeps(s: State, p: SessionId, a: AccountId)
    requires Inv(s)
    ensures Inv(Do(s, ReadCredits(p, a))) && Do(s, ReadCredits(p, a)).db == s.db
  {
    if p in s.sessions && MayRecompute(s.sessions[p], a) {
      var me := s.sessions[p];
      ReadCreditsFits(s.db, me, a);
      QuietStepKeeps(s, p, me.(credits := me.credits[a := Aggregate(View(s.db, me), a, Credit)]));
    }
  }

  lemma ReadCachedKeeps(s: State, p: SessionId)
    requires Inv(s)
    ensures Inv(Do(s, ReadCached(p))) && Do(s, ReadCached(p)).db == s.db
  {
    if p in s.sessions {
      var me := s.sessions[p];
      assert Fits(s.db, me);
      if me.work.Reconciling? && AllLocked(me) && me.balances == map[] {
        QuietStepKeeps(s, p, me.(cached := Some(s.db.accounts[me.work.account].current)));
      }
    }
  }

  lemma WriteFits(db: Db, me: Session, a: AccountId)
    requires Fits(db, me) && a in me.debits && a in me.credits && a < |db.accounts|
    ensures Fits(db, me.(balances := me.balances[a := Balance(db.accounts[a], me.debits[a], me.credits[a])]))
  {
    NetIsDebitsMinusCredits(View(db, me), a);
  }

  lemma WriteDoes(s: State, p: SessionId, a: AccountId)
    ensures Do(s, WriteBalance(p, a)) == if p in s.sessions then DoWriteBalance(s, p, s.sessions[p], a) else s
    ensures Do(s, WriteBalance(p, a)).db == s.db
  {
  }

  lemma WriteKeeps(s: State, p: SessionId, a: AccountId)
    requires Inv(s)
    ensures Inv(Do(s, WriteBalance(p, a))) && Do(s, WriteBalance(p, a)).db == s.db
  {
    WriteDoes(s, p, a);
    if p in s.sessions {
      var me := s.sessions[p];
      if a in me.debits && a in me.credits && a < |s.db.accounts| {
        WriteOne(s, p, a);
      } else {
        assert DoWriteBalance(s, p, me, a) == s;
      }
    }
  }

  lemma WriteOne(s: State, p: SessionId, a: AccountId)
    requires Inv(s) && p in s.sessions
    requires var me := s.sessions[p]; a in me.debits && a in me.credits && a < |s.db.accounts|
    ensures Inv(DoWriteBalance(s, p, s.sessions[p], a))
  {
    var me := s.sessions[p];
    WriteFits(s.db, me, a);
    QuietStepKeeps(s, p, me.(balances := me.balances[a := Balance(s.db.accounts[a], me.debits[a], me.credits[a])]));
  }

  lemma CommitIsRequest(db: Db, s: Session)
    requires LedgerInv(db) && Fits(db, s) && KeyIsNew(db, s) && ReadyToCommit(s)
    ensures if s.work.Reconciling? then Committed(db, s) == db && s.cached == Some(s.balances[s.work.account])
            else Committed(db, s) == Next(db, AsCommand(s.work))
    ensures LedgerInv(Committed(db, s))
  {
    match s.work
    case Posting(b, req) =>
      PostingCommits(db, s);
      NextKeepsInv(db, Post(b, req));
    case Voiding(b, id, today) =>
      VoidingCommits(db, s);
      NextKeepsInv(db, Void(b, id, today));
    case Reconciling(a) => ReconcilingCommits(db, s);
  }

  lemma OtherSurvivesCommit(db: Db, me: Session, t: Session)
    requires LedgerInv(db) && Fits(db, me) && Fits(db, t) && KeyIsNew(db, me) && KeyIsNew(db, t)
    requires Apart(me, t) && KeysApart(me, t) && KeysApart(t, me) && ReadyToCommit(me)
    ensures Fits(Committed(db, me), t) && KeyIsNew(Committed(db, me), t)
  {
    CommitIsHarmless(db, me, t);
    SessionSurvives(db, Committed(db, me), t);
    KeyStaysNew(db, me, t);
  }

  lemma RestKeeps(s: State, p: SessionId, db': Db)
    requires Inv(s) && LedgerInv(db')
    requires forall q | q in s.sessions && q != p :: Fits(db', s.sessions[q]) && KeyIsNew(db', s.sessions[q])
    ensures Inv(State(db', s.sessions - {p}, 0))
  {
  }

  lemma CommitKeeps(s: State, p: SessionId)
    requires Inv(s) && p in s.sessions && ReadyToCommit(s.sessions[p])
    ensures Inv(DoCommit(s, p, s.sessions[p]))
  {
    var me := s.sessions[p];
    CommitIsRequest(s.db, me);
    forall q | q in s.sessions && q != p
      ensures Fits(Committed(s.db, me), s.sessions[q]) && KeyIsNew(Committed(s.db, me), s.sessions[q])
    {
      OtherSurvivesCommit(s.db, me, s.sessions[q]);
    }
    RestKeeps(s, p, Committed(s.db, me));
  }

  lemma RunOne(db: Db, c: Command)
    ensures Run(db, [c]) == Next(db, c)
  {
    assert [c][..0] == [];
  }

  lemma CommitMoves(db: Db, me: Session)
    requires LedgerInv(db) && Fits(db, me) && KeyIsNew(db, me) && ReadyToCommit(me)
    ensures Committed(db, me) == Run(db, if me.work.Reconciling? then [] else [AsCommand(me.work)])
  {
    CommitIsRequest(db, me);
    if !me.work.Reconciling? {
      RunOne(db, AsCommand(me.work));
    }
  }

  lemma CommitDoes(s: State, p: SessionId)
    ensures Do(s, Commit(p)) == if p in s.sessions then DoCommit(s, p, s.sessions[p]) else s
  {
  }

  lemma CommitMovesTables(s: State, p: SessionId, me: Session)
    requires p in s.sessions && s.sessions[p] == me
    requires ReadyToCommit(me) ==>
      Committed(s.db, me) == Run(s.db, if me.work.Reconciling? then [] else [AsCommand(me.work)])
    ensures DoCommit(s, p, me).db == Run(s.db, CommitOf(s, Commit(p)))
  {
  }

  lemma CommitIsSerial(s: State, p: SessionId)
    requires Inv(s)
    ensures Inv(Do(s, Commit(p))) && Do(s, Commit(p)).db == Run(s.db, CommitOf(s, Commit(p)))
  {
    CommitDoes(s, p);
    if p in s.sessions {
      if ReadyToCommit(s.sessions[p]) {
        CommitKeeps(s, p);
        CommitMoves(s.db, s.sessions[p]);
      }
      CommitMovesTables(s, p, s.sessions[p]);
    }
  }

  lemma KeyStaysNew(db: Db, s: Session, t: Session)
    requires Fits(db, s) && KeyIsNew(db, t) && KeysApart(s, t) && KeysApart(t, s)
    ensures KeyIsNew(Committed(db, s), t)
  {
  }

  /** Any statement: the invariant survives, and the committed tables move by the committing session's own
      whole request or stay as they were. */
  lemma StepIsSerial(s: State, act: Action)
    requires Inv(s)
    ensures Inv(Do(s, act)) && Do(s, act).db == Run(s.db, CommitOf(s, act))
  {
    match act
    case Begin(p, work) => BeginKeeps(s, p, work);
    case Lock(p) => LockKeeps(s, p);
    case Claim(p) => ClaimKeeps(s, p);
    case Insert(p) => InsertKeeps(s, p);
    case ReadCached(p) => ReadCachedKeeps(s, p);
    case ReadDebits(p, a) => ReadDebitsKeeps(s, p, a);
    case ReadCredits(p, a) => ReadCreditsKeeps(s, p, a);
    case WriteBalance(p, a) => WriteKeeps(s, p, a);
    case Commit(p) => CommitIsSerial(s, p);
    case Abort(p) => RemoveKeeps(s, p);
  }

  /** Serializability: whatever the interleaving, the committed tables are those of the committed requests
      run whole, one after the other, in the order of their commits. */
  lemma {:induction false} InterleavingIsSerial(s: State, acts: seq<Action>)
    requires Inv(s)
    ensures Inv(Interleave(s, acts))
    ensures Interleave(s, acts).db == Run(s.db, Commits(s, acts))
  {
    if acts != [] {
      var n := |acts| - 1;
      InterleavingIsSerial(s, acts[..n]);
      var s1 := Interleave(s, acts[..n]);
      StepIsSerial(s1, acts[n]);
      RunConcat(s.db, Commits(s, acts[..n]), CommitOf(s1, acts[n]));
    }
  }

  lemma {:induction false} RunConcat(db: Db, cs: seq<Command>, more: seq<Command>)
    ensures Run(db, cs + more) == Run(Run(db, cs), more)
  {
    if more == [] {
      assert cs + more == cs;
    } else {
      var n := |more| - 1;
      assert (cs + more)[..|cs + more| - 1] == cs + more[..n];
      RunConcat(db, cs, more[..n]);
    }
  }

  ghost predicate Began(acts: seq<Action>, p: SessionId, work: Work) {
    Begin(p, work) in acts
  }

  /** A session does what it was begun with, so no command is committed that nobody asked for. */
  lemma {:induction false} CommitsWereBegun(s: State, acts: seq<Action>)
    requires s.sessions == map[]
    ensures forall p | p in Interleave(s, acts).sessions :: Began(acts, p, Interleave(s, acts).sessions[p].work)
    ensures forall c | c in Commits(s, acts) ::
      exists p, work | Began(acts, p, work) :: !work.Reconciling? && c == AsCommand(work)
  {
    if acts != [] {
      var n := |acts| - 1;
      CommitsWereBegun(s, acts[..n]);
      var s1 := Interleave(s, acts[..n]);
      assert acts == acts[..n] + [acts[n]];
      assert forall p, work | Began(acts[..n], p, work) :: Began(acts, p, work);
      WorkStays(s1, acts[n]);
    }
  }

  lemma WorkStays(s: State, act: Action)
    ensures forall p | p in Do(s, act).sessions ::
      if p in s.sessions then Do(s, act).sessions[p].work == s.sessions[p].work
      else act == Begin(p, Do(s, act).sessions[p].work)
  {
  }

  /** In every committed state each cached balance is its account's opening balance plus or minus all
      its committed entries, and no reconcile ever reports a discrepancy. */
  lemma CachesStayCoherent(db: Db, acts: seq<Action>, a: AccountId)
    requires JustOpened(db) && a < |db.accounts|
    ensures var s := Interleave(State(db, map[], 0), acts);
      && a < |s.db.accounts|
      && s.db.accounts[a].opening == db.accounts[a].opening
      && s.db.accounts[a].current == BalanceOf(db.accounts[a], a, s.db.txs)
      && s.discrepancies == 0
  {
    var cs := Commits(State(db, map[], 0), acts);
    InterleavingIsSerial(State(db, map[], 0), acts);
    RunExtends(db, cs);
    var db' := Run(db, cs);
    assert db'.accounts[a].(current := db.accounts[a].current) == db.accounts[a];
  }

  // ----- a request nobody interferes with goes through

  lemma OneMore(s: State, acts: seq<Action>, act: Action)
    ensures Interleave(s, acts + [act]) == Do(Interleave(s, acts), act)
    ensures Commits(s, acts + [act]) == Commits(s, acts) + CommitOf(Interleave(s, acts), act)
  {
    assert (acts + [act])[..|acts|] == acts;
  }

  /** After `acts` session 0 is the only one, as `me`, and nothing is committed yet. */
  ghost predicate AloneAt(db: Db, acts: seq<Action>, me: Session) {
    && Interleave(State(db, map[], 0), acts) == State(db, map[0 := me], 0)
    && Commits(State(db, map[], 0), acts) == []
  }

  lemma AloneMoves(db: Db, acts: seq<Action>, act: Action, me: Session, me': Session)
    requires AloneAt(db, acts, me) && Do(State(db, map[0 := me], 0), act) == State(db, map[0 := me'], 0)
    requires !act.Commit?
    ensures AloneAt(db, acts + [act], me')
  {
    OneMore(State(db, map[], 0), acts, act);
  }

  lemma AloneLocks(db: Db, work: Work) returns (acts: seq<Action>)
    requires StartSession(db, work).Some?
    ensures var me := StartSession(db, work).value; AloneAt(db, acts, me.(held := |me.plan|))
  {
    var me := StartSession(db, work).value;
    acts := [] + [Begin(0, work)];
    OneMore(State(db, map[], 0), [], Begin(0, work));
    for n := 0 to |me.plan|
      invariant AloneAt(db, acts, me.(held := n))
    {
      var now := me.(held := n);
      assert !LockedByOther(State(db, map[0 := now], 0), 0, me.plan[n]);
      AloneMoves(db, acts, Lock(0), now, me.(held := n + 1));
      acts := acts + [Lock(0)];
    }
  }

  /** With the row in, or for a reconcile with the cached balance read, every planned balance is rebuilt. */
  lemma AloneRecomputes(db: Db, before: seq<Action>, me: Session) returns (acts: seq<Action>, me': Session)
    requires AloneAt(db, before, me) && AllLocked(me) && (me.row.Some? || me.work.Reconciling?)
    requires forall a | a in me.plan :: a < |db.accounts|
    ensures AloneAt(db, acts, me') && me'.work == me.work && me'.row == me.row && me'.cached == me.cached
    ensures me'.plan == me.plan && forall a | a in me.plan :: a in me'.balances
  {
    acts, me' := before, me;
    for n := 0 to |me.plan|
      invariant AloneAt(db, acts, me') && AllLocked(me')
      invariant me'.work == me.work && me'.row == me.row && me'.cached == me.cached && me'.plan == me.plan
      invariant forall i :: 0 <= i < n ==> me.plan[i] in me'.balances
    {
      var a := me.plan[n];
      acts, me' := AloneRebuilds(db, acts, me', a);
    }
  }

  lemma DebitsAlone(db: Db, me: Session, a: AccountId)
    requires MayRecompute(me, a)
    ensures var now := me.(debits := me.debits[a := Aggregate(View(db, me), a, Debit)]);
      Do(State(db, map[0 := me], 0), ReadDebits(0, a)) == State(db, map[0 := now], 0)
  {
  }

  lemma CreditsAlone(db: Db, me: Session, a: AccountId)
    requires MayRecompute(me, a)
    ensures var now := me.(credits := me.credits[a := Aggregate(View(db, me), a, Credit)]);
      Do(State(db, map[0 := me], 0), ReadCredits(0, a)) == State(db, map[0 := now], 0)
  {
  }

  lemma BalanceAlone(db: Db, me: Session, a: AccountId)
    requires a in me.debits && a in me.credits && a < |db.accounts|
    ensures var now := me.(balances := me.balances[a := Balance(db.accounts[a], me.debits[a], me.credits[a])]);
      Do(State(db, map[0 := me], 0), WriteBalance(0, a)) == State(db, map[0 := now], 0)
  {
  }

  lemma AloneRebuilds(db: Db, before: seq<Action>, me: Session, a: AccountId) returns (acts: seq<Action>, me': Session)
    requires AloneAt(db, before, me) && MayRecompute(me, a) && a < |db.accounts|
    ensures AloneAt(db, acts, me') && AllLocked(me')
    ensures me'.work == me.work && me'.row == me.row && me'.cached == me.cached && me'.plan == me.plan
    ensures a in me'.balances && forall x | x in me.balances :: x in me'.balances
  {
    var d := me.(debits := me.debits[a := Aggregate(View(db, me), a, Debit)]);
    DebitsAlone(db, me, a);
    AloneMoves(db, before, ReadDebits(0, a), me, d);
    var c := d.(credits := d.credits[a := Aggregate(View(db, d), a, Credit)]);
    CreditsAlone(db, d, a);
    AloneMoves(db, before + [ReadDebits(0, a)], ReadCredits(0, a), d, c);
    me' := c.(balances := c.balances[a := Balance(db.accounts[a], c.debits[a], c.credits[a])]);
    BalanceAlone(db, c, a);
    AloneMoves(db, before + [ReadDebits(0, a)] + [ReadCredits(0, a)], WriteBalance(0, a), c, me');
    acts := before + [ReadDebits(0, a)] + [ReadCredits(0, a)] + [WriteBalance(0, a)];
  }

  /** The session's own write before the balances: the posting, the claim and the reversal, or none. */
  lemma AloneWrites(db: Db, before: seq<Action>, me: Session) returns (acts: seq<Action>, me': Session)
    requires StartSession(db, me.work).Some? && me == StartSession(db, me.work).value.(held := |me.plan|)
    requires AloneAt(db, before, me)
    ensures AloneAt(db, acts, me') && AllLocked(me') && me'.work == me.work && me'.plan == me.plan
    ensures if me.work.Reconciling? then me'.cached.Some? else me'.row.Some?
  {
    match me.work
    case Posting(b, req) =>
      me' := me.(row := Some(Posted(b, req)));
      assert !KeyPending(State(db, map[0 := me], 0), 0, req.key);
      AloneMoves(db, before, Insert(0), me, me');
      acts := before + [Insert(0)];
    case Voiding(b, id, today) =>
      var claimed := me.(claimed := true);
      AloneMoves(db, before, Claim(0), me, claimed);
      me' := claimed.(row := Some(Reversal(me.original.value, id, today)));
      AloneMoves(db, before + [Claim(0)], Insert(0), claimed, me');
      acts := before + [Claim(0)] + [Insert(0)];
    case Reconciling(a) =>
      me' := me.(cached := Some(db.accounts[a].current));
      AloneMoves(db, before, ReadCached(0), me, me');
      acts := before + [ReadCached(0)];
  }

  /** Every request that passes its checks can be carried through: statement after statement, its own
      session commits it. */
  lemma AloneCommits(db: Db, work: Work) returns (acts: seq<Action>)
    requires StartSession(db, work).Some?
    ensures Commits(State(db, map[], 0), acts) == if work.Reconciling? then [] else [AsCommand(work)]
    ensures Interleave(State(db, map[], 0), acts).sessions == map[]
  {
    var start := StartSession(db, work).value;
    PlannedExist(db, work);
    var locked := AloneLocks(db, work);
    var written, me := AloneWrites(db, locked, start.(held := |start.plan|));
    var ready, done := AloneRecomputes(db, written, me);
    OneMore(State(db, map[], 0), ready, Commit(0));
    CommitAlone(db, done);
    acts := ready + [Commit(0)];
  }

  lemma CommitAlone(db: Db, me: Session)
    requires ReadyToCommit(me)
    ensures CommitOf(State(db, map[0 := me], 0), Commit(0)) == if me.work.Reconciling? then [] else [AsCommand(me.work)]
    ensures Do(State(db, map[0 := me], 0), Commit(0)).sessions == map[]
  {
    assert map[0 := me] - {0} == map[];
  }

  lemma PlannedExist(db: Db, work: Work)
    requires StartSession(db, work).Some?
    ensures StartSession(db, work).value.work == work
    ensures forall a | a in StartSession(db, work).value.plan :: a < |db.accounts|
  {
  }

  /** A session opens exactly when its request would be accepted there and then, and is no replay. */
  lemma StartsIff(db: Db, work: Work)
    ensures StartSession(db, work).Some? <==> match work
      case Posting(b, req) => KeyUnused(db.txs, req) && PostStep(db, b, req).Ok?
      case Voiding(b, id, today) => VoidStep(db, b, id, today).Ok?
      case Reconciling(a) => a < |db.accounts|
    ensures StartSession(db, work).Some? ==> StartSession(db, work).value.work == work
  {
    if work.Posting? && work.req.key.Some? {
      var found := FindKey(db.txs, work.req.key.value);
      assert found.Some? ==> db.txs[found.value].key == work.req.key;
      assert found.None? ==> forall i :: 0 <= i < |db.txs| ==> db.txs[i] in db.txs;
    }
  }

  // ----- what a session waits for

  /** A row is locked at once unless some other session holds it. */
  lemma LocksUnlessHeld(s: State, p: SessionId)
    requires p in s.sessions && s.sessions[p].held < |s.sessions[p].plan|
    requires forall q | q in s.sessions :: s.sessions[q].held <= |s.sessions[q].plan|
    ensures var me := s.sessions[p];
      Do(s, Lock(p)) ==
        if exists q | q in s.sessions :: q != p && me.plan[me.held] in s.sessions[q].plan[..s.sessions[q].held] then s
        else s.(sessions := s.sessions[p := me.(held := me.held + 1)])
  {
  }

  /** A posting with all its rows locked goes in at once unless another session has one with the same key
      uncommitted; if the key has been committed meanwhile, the session ends. */
  lemma InsertsUnlessPending(s: State, p: SessionId, b: BusinessId, req: PostRequest)
    requires p in s.sessions && s.sessions[p].work == Posting(b, req) && AllLocked(s.sessions[p])
      && s.sessions[p].row.None?
    ensures Do(s, Insert(p)) ==
      if req.key != None && exists q | q in s.sessions ::
        q != p && s.sessions[q].row.Some? && s.sessions[q].row.value.key == req.key then s
      else if !KeyUnused(s.db.txs, req) then s.(sessions := s.sessions - {p})
      else s.(sessions := s.sessions[p := s.sessions[p].(row := Some(Posted(b, req)))])
  {
    if req.key.Some? {
      var found := FindKey(s.db.txs, req.key.value);
      assert found.Some? ==> s.db.txs[found.value].key == req.key;
      assert found.None? ==> forall i :: 0 <= i < |s.db.txs| ==> s.db.txs[i] in s.db.txs;
    }
  }
}
