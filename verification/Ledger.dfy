/** The double-entry ledger: its tables, and what posting and voiding do to them.

    Rows live in sequences and a row's id is its index, so "created after" is "greater id".
    `PostStep` and `VoidStep` are the ledger's two writes as functions on the tables; the class
    `LedgerService` performs them statement by statement and is proved equal to them.
 */
module Ledger {
  import opened Base

  type BusinessId = nat
  type AccountId = nat
  type ContactId = nat
  type TxId = nat

  datatype AccountType = Asset | Liability | Equity | Income | Expense

  datatype Side = Debit | Credit

  datatype TxType = IncomeTx | ExpenseTx | TransferTx | JournalTx | SaleTx | PurchaseTx | PaymentTx

  const REFERRAL_BONUS_INCOME_SUBTYPE := "referral-bonus"
  const SAVINGS_SUBTYPE := "savings"
  const MONEY_ACCOUNT_SUBTYPES: seq<string> := ["cash", "bank", "mfs"]

  /** Money is an integer number of paisa throughout. */
  datatype Account = Account(
    business: BusinessId,
    accountType: AccountType,
    subtype: Option<string>,
    isSystem: bool,
    archived: bool,
    opening: int,
    current: int
  )

  datatype Entry = Entry(account: AccountId, side: Side, amount: int, category: Option<string>)

  /** `owned` says that a savings entry or an asset, committed with the posting, refers to it. */
  datatype Tx = Tx(
    business: BusinessId,
    txType: TxType,
    date: int,
    contact: Option<ContactId>,
    dueDate: Option<int>,
    appliedTo: Option<TxId>,
    key: Option<string>,
    entries: seq<Entry>,
    voided: bool,
    reversalOf: Option<TxId>,
    owned: bool
  )

  datatype ContactType = Customer | Supplier | Both | Relative | Other

  /** `opening` is positive when the contact owes the business, negative the other way round. */
  datatype Contact = Contact(business: BusinessId, kind: ContactType, isLoan: bool, opening: int)

  datatype Db = Db(accounts: seq<Account>, contacts: seq<Contact>, txs: seq<Tx>)

  datatype PostRequest = PostRequest(
    txType: TxType,
    date: int,
    contact: Option<ContactId>,
    dueDate: Option<int>,
    appliedTo: Option<TxId>,
    key: Option<string>,
    entries: seq<Entry>,
    owned: bool
  )

  datatype Error =
    | KeyUsedElsewhere | TooFewEntries | NonPositiveAmount | UnknownAccount | ForeignAccount
    | UnknownContact | BadTarget | Unbalanced
    | TxNotFound | IsReversal | AlreadyVoided | OwnedByFeature | AccountNotFound

  /** A cash, bank or mobile-money account of the workspace. */
  predicate IsMoneyAccount(accounts: seq<Account>, b: BusinessId, a: AccountId) {
    && a < |accounts| && accounts[a].business == b && accounts[a].accountType.Asset?
    && accounts[a].subtype.Some? && accounts[a].subtype.value in MONEY_ACCOUNT_SUBTYPES
  }

  // ----- amounts and balances

  /** For ASSET and EXPENSE accounts a debit increases the balance; for the rest a credit does. */
  predicate IsDebitPositive(t: AccountType) {
    t.Asset? || t.Expense?
  }

  function Signed(e: Entry): int {
    if e.side.Debit? then e.amount else -e.amount
  }

  function SignedAmount(): Entry -> int {
    (e: Entry) => Signed(e)
  }

  function EntryNet(a: AccountId): Entry -> int {
    (e: Entry) => if e.account == a then Signed(e) else 0
  }

  function EntryOn(a: AccountId, side: Side): Entry -> int {
    (e: Entry) => if e.account == a && e.side == side then e.amount else 0
  }

  function AmountOn(side: Side): Entry -> int {
    (e: Entry) => if e.side == side then e.amount else 0
  }

  /** Debits minus credits of one posting on one account. */
  function Net(entries: seq<Entry>, a: AccountId): int {
    SumBy(entries, EntryNet(a))
  }

  function TxNet(a: AccountId): Tx -> int {
    (t: Tx) => Net(t.entries, a)
  }

  function TxOn(a: AccountId, side: Side): Tx -> int {
    (t: Tx) => SumBy(t.entries, EntryOn(a, side))
  }

  /** The database aggregate: every entry of one side on an account, whatever its posting's status. */
  function Aggregate(txs: seq<Tx>, a: AccountId, side: Side): int {
    SumBy(txs, TxOn(a, side))
  }

  function AccountNet(txs: seq<Tx>, a: AccountId): int {
    SumBy(txs, TxNet(a))
  }

  /** Opening balance plus every entry, signed by the account's type. */
  function BalanceOf(account: Account, a: AccountId, txs: seq<Tx>): int {
    if IsDebitPositive(account.accountType) then account.opening + AccountNet(txs, a)
    else account.opening - AccountNet(txs, a)
  }

  lemma NetIsDebitsMinusCredits(txs: seq<Tx>, a: AccountId)
    ensures AccountNet(txs, a) == Aggregate(txs, a, Debit) - Aggregate(txs, a, Credit)
  {
    forall i | 0 <= i < |txs|
      ensures TxNet(a)(txs[i]) == TxOn(a, Debit)(txs[i]) + -1 * TxOn(a, Credit)(txs[i])
    {
      SumLinear(txs[i].entries, EntryOn(a, Debit), EntryOn(a, Credit), EntryNet(a), -1);
    }
    SumLinear(txs, TxOn(a, Debit), TxOn(a, Credit), TxNet(a), -1);
  }

  lemma NetZeroOffPosting(entries: seq<Entry>, a: AccountId)
    requires a !in Touched(entries)
    ensures Net(entries, a) == 0
  {
    forall i | 0 <= i < |entries|
      ensures EntryNet(a)(entries[i]) == 0
    {
      assert entries[i] in entries;
    }
    SumZero(entries, EntryNet(a));
  }

  // ----- posting

  predicate Balanced(entries: seq<Entry>) {
    SumBy(entries, AmountOn(Debit)) == SumBy(entries, AmountOn(Credit))
  }

  lemma BalancedMeansSignedZero(entries: seq<Entry>)
    ensures Balanced(entries) <==> SumBy(entries, SignedAmount()) == 0
  {
    SumLinear(entries, AmountOn(Debit), AmountOn(Credit), SignedAmount(), -1);
  }

  function Touched(entries: seq<Entry>): set<AccountId> {
    set e | e in entries :: e.account
  }

  function FindKey(txs: seq<Tx>, key: string): (r: Option<TxId>)
    ensures r.None? ==> forall t | t in txs :: t.key != Some(key)
    ensures r.Some? ==> r.value < |txs| && txs[r.value].key == Some(key)
  {
    if txs == [] then None
    else if txs[|txs| - 1].key == Some(key) then Some(|txs| - 1)
    else FindKey(txs[..|txs| - 1], key)
  }

  function AccountProblem(accounts: seq<Account>, ids: set<AccountId>, b: BusinessId): (problem: Option<Error>)
    ensures problem.None? <==> forall a | a in ids :: a < |accounts| && accounts[a].business == b
  {
    if exists a | a in ids :: a >= |accounts| then Some(UnknownAccount)
    else if exists a | a in ids :: accounts[a].business != b then Some(ForeignAccount)
    else None
  }

  predicate ContactLinked(db: Db, b: BusinessId, contact: Option<ContactId>) {
    contact.Some? ==> contact.value < |db.contacts| && db.contacts[contact.value].business == b
  }

  predicate TargetLinked(db: Db, b: BusinessId, req: PostRequest) {
    req.appliedTo.Some? ==>
      && req.appliedTo.value < |db.txs|
      && db.txs[req.appliedTo.value].business == b
      && (req.contact.Some? ==> db.txs[req.appliedTo.value].contact == req.contact)
  }

  /** The checks a posting passes through, in order; the first that fails answers. */
  function CheckPost(db: Db, b: BusinessId, req: PostRequest): Option<Error> {
    if |req.entries| < 2 then Some(TooFewEntries)
    else if exists e | e in req.entries :: e.amount <= 0 then Some(NonPositiveAmount)
    else if AccountProblem(db.accounts, Touched(req.entries), b).Some?
    then AccountProblem(db.accounts, Touched(req.entries), b)
    else if !ContactLinked(db, b, req.contact) then Some(UnknownContact)
    else if !TargetLinked(db, b, req) then Some(BadTarget)
    else if !Balanced(req.entries) then Some(Unbalanced)
    else None
  }

  function Posted(b: BusinessId, req: PostRequest): Tx {
    Tx(b, req.txType, req.date, req.contact, req.dueDate, req.appliedTo, req.key, req.entries,
       false, None, req.owned)
  }

  /** The touched accounts' cached balances rebuilt from scratch; no other row changes. */
  function Recached(accounts: seq<Account>, txs: seq<Tx>, touched: set<AccountId>): (r: seq<Account>)
    ensures |r| == |accounts|
    ensures forall a :: 0 <= a < |r| ==>
      r[a] == if a in touched then accounts[a].(current := BalanceOf(accounts[a], a, txs)) else accounts[a]
  {
    seq(|accounts|, a requires 0 <= a < |accounts| =>
      if a in touched then accounts[a].(current := BalanceOf(accounts[a], a, txs)) else accounts[a])
  }

  function ApplyPost(db: Db, b: BusinessId, req: PostRequest): Db {
    var txs := db.txs + [Posted(b, req)];
    Db(Recached(db.accounts, txs, Touched(req.entries)), db.contacts, txs)
  }

  /** A posting: an idempotency key seen before answers with the earlier posting and writes nothing. */
  function PostStep(db: Db, b: BusinessId, req: PostRequest): Result<(Db, TxId), Error> {
    var earlier := if req.key.Some? then FindKey(db.txs, req.key.value) else None;
    if earlier.Some? then
      if db.txs[earlier.value].business != b then Err(KeyUsedElsewhere) else Ok((db, earlier.value))
    else
      var problem := CheckPost(db, b, req);
      if problem.Some? then Err(problem.value) else Ok((ApplyPost(db, b, req), |db.txs|))
  }

  // ----- voiding

  function Flip(side: Side): Side {
    if side.Debit? then Credit else Debit
  }

  function FlipEntry(e: Entry): Entry {
    e.(side := Flip(e.side))
  }

  function Flipped(entries: seq<Entry>): (r: seq<Entry>)
    ensures |r| == |entries|
    ensures forall i :: 0 <= i < |r| ==> r[i] == FlipEntry(entries[i])
  {
    seq(|entries|, i requires 0 <= i < |entries| => FlipEntry(entries[i]))
  }

  function Reversal(t: Tx, id: TxId, today: int): Tx {
    Tx(t.business, t.txType, today, t.contact, None, None, None, Flipped(t.entries), false, Some(id), false)
  }

  predicate OwnedByAFeature(db: Db, t: Tx) {
    t.owned || exists e | e in t.entries ::
      e.account < |db.accounts| && db.accounts[e.account].subtype == Some(REFERRAL_BONUS_INCOME_SUBTYPE)
  }

  function CheckVoid(db: Db, b: BusinessId, id: TxId): Option<Error> {
    if id >= |db.txs| || db.txs[id].business != b then Some(TxNotFound)
    else if db.txs[id].reversalOf.Some? then Some(IsReversal)
    else if db.txs[id].voided then Some(AlreadyVoided)
    else if OwnedByAFeature(db, db.txs[id]) then Some(OwnedByFeature)
    else None
  }

  function VoidedRows(txs: seq<Tx>, id: TxId, today: int): seq<Tx>
    requires id < |txs|
  {
    txs[id := txs[id].(voided := true)] + [Reversal(txs[id], id, today)]
  }

  function ApplyVoid(db: Db, id: TxId, today: int): Db
    requires id < |db.txs|
  {
    var txs := VoidedRows(db.txs, id, today);
    Db(Recached(db.accounts, txs, Touched(db.txs[id].entries)), db.contacts, txs)
  }

  function VoidStep(db: Db, b: BusinessId, id: TxId, today: int): Result<(Db, TxId), Error> {
    var problem := CheckVoid(db, b, id);
    if problem.Some? then Err(problem.value) else Ok((ApplyVoid(db, id, today), |db.txs|))
  }

  // ----- what every step keeps

  /** The cached balance of every account is its opening balance plus or minus all its entries. */
  ghost predicate Cached(db: Db) {
    forall a :: 0 <= a < |db.accounts| ==> db.accounts[a].current == BalanceOf(db.accounts[a], a, db.txs)
  }

  /** One posting: at least two positive entries, on its business's accounts, debits equal credits. */
  ghost predicate Sound(db: Db, t: Tx) {
    && |t.entries| >= 2
    && (forall e | e in t.entries ::
      e.amount > 0 && e.account < |db.accounts| && db.accounts[e.account].business == t.business)
    && Balanced(t.entries)
    && ContactLinked(db, t.business, t.contact)
  }

  ghost predicate RowsSound(db: Db, txs: seq<Tx>) {
    && (forall i :: 0 <= i < |txs| ==> Sound(db, txs[i]))
    && (forall i :: 0 <= i < |txs| && txs[i].appliedTo.Some? ==> txs[i].appliedTo.value < i)
  }

  ghost predicate AllSound(db: Db) {
    RowsSound(db, db.txs)
  }

  ghost predicate MirrorOf(r: Tx, t: Tx) {
    && r.business == t.business
    && r.txType == t.txType
    && r.contact == t.contact
    && r.entries == Flipped(t.entries)
  }

  /** Posting `j` is the reversal of posting `i`. */
  ghost predicate Reverses(txs: seq<Tx>, j: nat, i: nat)
    requires j < |txs|
  {
    txs[j].reversalOf == Some(i)
  }

  /** Each voided posting has exactly one reversal, its mirror; no reversal is itself voided. */
  ghost predicate VoidsPaired(txs: seq<Tx>) {
    && (forall j, i :: 0 <= j < |txs| && 0 <= i && Reverses(txs, j, i) ==>
          i < j && txs[i].voided && txs[i].reversalOf.None? && MirrorOf(txs[j], txs[i]) && !txs[j].voided)
    && (forall j, k, i :: 0 <= j < |txs| && 0 <= k < |txs| && 0 <= i && Reverses(txs, j, i) && Reverses(txs, k, i) ==>
      j == k)
    && (forall i :: 0 <= i < |txs| && txs[i].voided ==> exists j :: 0 <= j < |txs| && Reverses(txs, j, i))
  }

  ghost predicate KeysUnique(txs: seq<Tx>) {
    forall i, j :: 0 <= i < j < |txs| && txs[i].key.Some? ==> txs[i].key != txs[j].key
  }

  ghost predicate LedgerInv(db: Db) {
    Cached(db) && AllSound(db) && VoidsPaired(db.txs) && KeysUnique(db.txs)
  }

  lemma NetOfFlipped(entries: seq<Entry>, a: AccountId)
    ensures Net(Flipped(entries), a) == -Net(entries, a)
  {
    SumFlipped(entries, EntryNet(a));
  }

  /** Any sum that changes sign with an entry's side changes sign with the whole posting. */
  lemma {:induction false} SumFlipped(entries: seq<Entry>, f: Entry -> int)
    requires forall e :: f(FlipEntry(e)) == -f(e)
    ensures SumBy(Flipped(entries), f) == -SumBy(entries, f)
  {
    if entries != [] {
      var n := |entries| - 1;
      assert Flipped(entries)[..n] == Flipped(entries[..n]);
      SumFlipped(entries[..n], f);
      assert Flipped(entries)[n] == FlipEntry(entries[n]);
    }
  }

  /** Rows whose entries are the same add up the same, whatever their status. */
  lemma VoidingMarksNothing(txs: seq<Tx>, id: TxId, a: AccountId)
    requires id < |txs|
    ensures AccountNet(txs[id := txs[id].(voided := true)], a) == AccountNet(txs, a)
  {
    SumUpdate(txs, id, txs[id].(voided := true), TxNet(a));
  }

  lemma PostKeepsCached(db: Db, b: BusinessId, req: PostRequest)
    requires Cached(db)
    ensures Cached(ApplyPost(db, b, req))
  {
    var txs := db.txs + [Posted(b, req)];
    forall a | 0 <= a < |db.accounts| && a !in Touched(req.entries)
      ensures AccountNet(txs, a) == AccountNet(db.txs, a)
    {
      SumSnoc(db.txs, Posted(b, req), TxNet(a));
      NetZeroOffPosting(req.entries, a);
    }
  }

  lemma VoidRestores(txs: seq<Tx>, id: TxId, today: int, a: AccountId)
    requires id < |txs|
    ensures AccountNet(VoidedRows(txs, id, today), a) == AccountNet(txs, a) - Net(txs[id].entries, a)
  {
    var marked := txs[id := txs[id].(voided := true)];
    VoidingMarksNothing(txs, id, a);
    SumSnoc(marked, Reversal(txs[id], id, today), TxNet(a));
    NetOfFlipped(txs[id].entries, a);
  }

  lemma VoidKeepsCached(db: Db, id: TxId, today: int)
    requires Cached(db) && id < |db.txs|
    ensures Cached(ApplyVoid(db, id, today))
  {
    var txs := VoidedRows(db.txs, id, today);
    forall a | 0 <= a < |db.accounts| && a !in Touched(db.txs[id].entries)
      ensures AccountNet(txs, a) == AccountNet(db.txs, a)
    {
      VoidRestores(db.txs, id, today, a);
      NetZeroOffPosting(db.txs[id].entries, a);
    }
  }

  /** Soundness of a row looks at account data that recaching leaves alone. */
  lemma SoundSurvivesRecaching(db: Db, txs: seq<Tx>, touched: set<AccountId>)
    requires RowsSound(db, txs)
    ensures AllSound(Db(Recached(db.accounts, txs, touched), db.contacts, txs))
  {
    var db' := Db(Recached(db.accounts, txs, touched), db.contacts, txs);
    forall i | 0 <= i < |txs|
      ensures Sound(db', txs[i])
    {
      assert Sound(db, txs[i]);
    }
  }

  lemma PostKeepsSound(db: Db, b: BusinessId, req: PostRequest)
    requires AllSound(db) && CheckPost(db, b, req).None?
    ensures AllSound(ApplyPost(db, b, req))
  {
    assert forall e | e in req.entries :: e.account in Touched(req.entries);
    assert Sound(db, Posted(b, req));
    SoundSurvivesRecaching(db, db.txs + [Posted(b, req)], Touched(req.entries));
  }

  lemma FlippedStaysSound(db: Db, t: Tx, id: TxId, today: int)
    requires Sound(db, t)
    ensures Sound(db, Reversal(t, id, today))
  {
    var r := Reversal(t, id, today);
    forall e | e in r.entries
      ensures e.amount > 0 && e.account < |db.accounts| && db.accounts[e.account].business == t.business
    {
      var i :| 0 <= i < |r.entries| && r.entries[i] == e;
      assert t.entries[i] in t.entries;
    }
    BalancedMeansSignedZero(t.entries);
    SumFlipped(t.entries, SignedAmount());
    BalancedMeansSignedZero(r.entries);
  }

  lemma VoidKeepsSound(db: Db, id: TxId, today: int)
    requires AllSound(db) && id < |db.txs|
    ensures AllSound(ApplyVoid(db, id, today))
  {
    FlippedStaysSound(db, db.txs[id], id, today);
    assert Sound(db, db.txs[id].(voided := true));
    SoundSurvivesRecaching(db, VoidedRows(db.txs, id, today), Touched(db.txs[id].entries));
  }

  lemma AppendKeepsPairs(txs: seq<Tx>, t: Tx)
    requires VoidsPaired(txs) && t.reversalOf.None? && !t.voided
    ensures VoidsPaired(txs + [t])
  {
    var txs' := txs + [t];
    forall j, i | 0 <= j < |txs'| && 0 <= i && Reverses(txs', j, i)
      ensures j < |txs| && Reverses(txs, j, i)
    {
    }
    forall i | 0 <= i < |txs'| && txs'[i].voided
      ensures exists j :: 0 <= j < |txs'| && Reverses(txs', j, i)
    {
      var j :| 0 <= j < |txs| && Reverses(txs, j, i);
      assert Reverses(txs', j, i);
    }
  }

  lemma VoidKeepsPairs(txs: seq<Tx>, id: TxId, today: int)
    requires VoidsPaired(txs) && id < |txs| && !txs[id].voided && txs[id].reversalOf.None?
    ensures VoidsPaired(VoidedRows(txs, id, today))
  {
    var txs' := VoidedRows(txs, id, today);
    var n := |txs|;
    forall j, i | 0 <= j < |txs'| && 0 <= i && Reverses(txs', j, i)
      ensures if j == n then i == id else Reverses(txs, j, i) && i != id && i < j
    {
      if j < n {
        assert Reverses(txs, j, i);
      }
    }
    forall i | 0 <= i < |txs'| && txs'[i].voided
      ensures exists j :: 0 <= j < |txs'| && Reverses(txs', j, i)
    {
      if i == id {
        assert Reverses(txs', n, i);
      } else {
        var j :| 0 <= j < n && Reverses(txs, j, i);
        assert Reverses(txs', j, i);
      }
    }
  }

  lemma PostKeepsInv(db: Db, b: BusinessId, req: PostRequest)
    requires LedgerInv(db)
    ensures PostStep(db, b, req).Ok? ==> LedgerInv(PostStep(db, b, req).value.0)
  {
    if PostStep(db, b, req).Ok? && PostStep(db, b, req).value.0 != db {
      PostKeepsCached(db, b, req);
      PostKeepsSound(db, b, req);
      AppendKeepsPairs(db.txs, Posted(b, req));
    }
  }

  lemma ApplyVoidKeepsInv(db: Db, id: TxId, today: int)
    requires LedgerInv(db) && id < |db.txs| && !db.txs[id].voided && db.txs[id].reversalOf.None?
    ensures LedgerInv(ApplyVoid(db, id, today))
  {
    VoidKeepsCached(db, id, today);
    VoidKeepsSound(db, id, today);
    VoidKeepsPairs(db.txs, id, today);
  }

  lemma VoidKeepsInv(db: Db, b: BusinessId, id: TxId, today: int)
    requires LedgerInv(db)
    ensures VoidStep(db, b, id, today).Ok? ==> LedgerInv(VoidStep(db, b, id, today).value.0)
  {
    if CheckVoid(db, b, id).None? {
      ApplyVoidKeepsInv(db, id, today);
    }
  }

  // ----- two-sided postings

  lemma EqualSidesBalance(x: Entry, y: Entry)
    requires x.side != y.side && x.amount == y.amount
    ensures Balanced([x, y])
  {
    var es := [x, y];
    assert es == [x] + [y] && [x] == [] + [x];
    SumSnoc([x], y, SignedAmount());
    SumSnoc([], x, SignedAmount());
    BalancedMeansSignedZero(es);
  }

  /** A posting of one amount from one of the workspace's accounts to another passes every ledger check. */
  lemma TwoSidedPosts(db: Db, b: BusinessId, req: PostRequest)
    requires |req.entries| == 2 && req.entries[0].side != req.entries[1].side
      && req.entries[0].amount == req.entries[1].amount > 0
    requires forall e | e in req.entries :: e.account < |db.accounts| && db.accounts[e.account].business == b
    requires req.key.None? && ContactLinked(db, b, req.contact) && TargetLinked(db, b, req)
    ensures PostStep(db, b, req) == Ok((ApplyPost(db, b, req), |db.txs|))
  {
    EqualSidesBalance(req.entries[0], req.entries[1]);
    assert req.entries == [req.entries[0], req.entries[1]];
  }

  // ----- what a caller sees

  /** The sign rule, type by type. */
  lemma BalanceByType(account: Account, a: AccountId, txs: seq<Tx>)
    ensures BalanceOf(account, a, txs) == match account.accountType
      case Asset => account.opening + Aggregate(txs, a, Debit) - Aggregate(txs, a, Credit)
      case Expense => account.opening + Aggregate(txs, a, Debit) - Aggregate(txs, a, Credit)
      case Liability => account.opening + Aggregate(txs, a, Credit) - Aggregate(txs, a, Debit)
      case Equity => account.opening + Aggregate(txs, a, Credit) - Aggregate(txs, a, Debit)
      case Income => account.opening + Aggregate(txs, a, Credit) - Aggregate(txs, a, Debit)
  {
    NetIsDebitsMinusCredits(txs, a);
  }

  /** The key of a request is on no posting yet. */
  ghost predicate KeyUnused(txs: seq<Tx>, req: PostRequest) {
    req.key.Some? ==> forall i :: 0 <= i < |txs| ==> txs[i].key != req.key
  }

  /** With a new key, or none, a posting is accepted exactly when it has at least two entries of positive
      amounts on the workspace's own accounts, a contact and a target of the workspace, the target the
      contact's, and debits that equal credits. */
  lemma PostAcceptedIff(db: Db, b: BusinessId, req: PostRequest)
    requires KeyUnused(db.txs, req)
    ensures PostStep(db, b, req).Ok? <==>
      && |req.entries| >= 2
      && (forall e | e in req.entries ::
        e.amount > 0 && e.account < |db.accounts| && db.accounts[e.account].business == b)
      && (req.contact.Some? ==> req.contact.value < |db.contacts| && db.contacts[req.contact.value].business == b)
      && (req.appliedTo.Some? ==>
        && req.appliedTo.value < |db.txs| && db.txs[req.appliedTo.value].business == b
        && (req.contact.Some? ==> db.txs[req.appliedTo.value].contact == req.contact))
      && SumBy(req.entries, SignedAmount()) == 0
  {
    BalancedMeansSignedZero(req.entries);
    assert forall e | e in req.entries :: e.account in Touched(req.entries);
  }

  /** An accepted posting is one new row that says what the request said, on cached balances that are right. */
  lemma PostRecords(db: Db, b: BusinessId, req: PostRequest)
    requires Cached(db) && KeyUnused(db.txs, req) && PostStep(db, b, req).Ok?
    ensures var (db', id) := PostStep(db, b, req).value;
      && id == |db.txs|
      && db'.txs == db.txs + [Tx(b, req.txType, req.date, req.contact, req.dueDate, req.appliedTo, req.key, req.entries,
           false, None, req.owned)]
      && db'.contacts == db.contacts && |db'.accounts| == |db.accounts|
      && Cached(db')
      && forall a :: 0 <= a < |db.accounts| ==>
           db'.accounts[a] == db.accounts[a].(current := BalanceOf(db.accounts[a], a, db'.txs))
  {
    PostKeepsCached(db, b, req);
  }

  /** A key seen before answers for good: the workspace it belongs to gets the posting it named the first
      time and nothing is written; any other workspace is refused. */
  lemma KeyAnswers(db: Db, b: BusinessId, req: PostRequest, i: nat)
    requires KeysUnique(db.txs) && req.key.Some? && i < |db.txs| && db.txs[i].key == req.key
    ensures PostStep(db, b, req) == if db.txs[i].business == b then Ok((db, i)) else Err(KeyUsedElsewhere)
  {
    assert db.txs[i] in db.txs;
    assert FindKey(db.txs, req.key.value).Some?;
  }

  /** A posting can be voided exactly when it is the workspace's own, neither a reversal nor voided before,
      kept by no feature, and no entry of it is on a referral income account. */
  lemma VoidAcceptedIff(db: Db, b: BusinessId, id: TxId, today: int)
    ensures VoidStep(db, b, id, today).Ok? <==>
      && id < |db.txs| && db.txs[id].business == b
      && db.txs[id].reversalOf.None? && !db.txs[id].voided && !db.txs[id].owned
      && forall e | e in db.txs[id].entries && e.account < |db.accounts| ::
           db.accounts[e.account].subtype != Some(REFERRAL_BONUS_INCOME_SUBTYPE)
  {
  }

  /** An accepted void marks the posting and appends its mirror, dated today and naming it. */
  lemma VoidRecords(db: Db, b: BusinessId, id: TxId, today: int)
    requires Cached(db) && VoidStep(db, b, id, today).Ok?
    ensures var (db', reversal) := VoidStep(db, b, id, today).value;
      && reversal == |db.txs| && |db'.txs| == |db.txs| + 1
      && (forall i :: 0 <= i < |db.txs| ==>
        db'.txs[i] == if i == id then db.txs[id].(voided := true) else db.txs[i])
      && var r, t := db'.txs[reversal], db.txs[id];
      && r.business == b && r.txType == t.txType && r.date == today && r.contact == t.contact
      && r.dueDate == None && r.appliedTo == None && r.key == None && !r.voided && !r.owned && r.reversalOf == Some(id)
      && |r.entries| == |t.entries|
      && (forall i :: 0 <= i < |t.entries| ==>
        r.entries[i] == t.entries[i].(side := if t.entries[i].side == Debit then Credit else Debit))
      && db'.contacts == db.contacts && Cached(db')
      && forall a :: 0 <= a < |db.accounts| ==> db'.accounts[a].(current := 0) == db.accounts[a].(current := 0)
  {
    VoidKeepsCached(db, id, today);
  }

  /** Which refusal a posting with an unused key is answered with: the checks come in this order. */
  lemma PostRefusals(db: Db, b: BusinessId, req: PostRequest)
    requires KeyUnused(db.txs, req)
    ensures var r := PostStep(db, b, req);
      && (r == Err(TooFewEntries) <==> |req.entries| < 2)
      && (r == Err(NonPositiveAmount) <==> |req.entries| >= 2 && exists e | e in req.entries :: e.amount <= 0)
      && (r == Err(UnknownAccount) <==> AllPositive(req) && exists e | e in req.entries :: e.account >= |db.accounts|)
      && (r == Err(ForeignAccount) <==>
        && AllPositive(req) && (forall e | e in req.entries :: e.account < |db.accounts|)
        && exists e | e in req.entries :: db.accounts[e.account].business != b)
      && (r == Err(UnknownContact) <==>
        AllPositive(req) && OnAccountsOf(db, b, req) && !ContactLinked(db, b, req.contact))
      && (r == Err(BadTarget) <==>
        AllPositive(req) && OnAccountsOf(db, b, req) && ContactLinked(db, b, req.contact) && !TargetLinked(db, b, req))
      && (r == Err(Unbalanced) <==>
        && AllPositive(req) && OnAccountsOf(db, b, req) && ContactLinked(db, b, req.contact) && TargetLinked(db, b, req)
        && SumBy(req.entries, SignedAmount()) != 0)
  {
    BalancedMeansSignedZero(req.entries);
    assert forall e | e in req.entries :: e.account in Touched(req.entries);
  }

  predicate AllPositive(req: PostRequest) {
    |req.entries| >= 2 && forall e | e in req.entries :: e.amount > 0
  }

  predicate OnAccountsOf(db: Db, b: BusinessId, req: PostRequest) {
    forall e | e in req.entries :: e.account < |db.accounts| && db.accounts[e.account].business == b
  }

  /** Which refusal a void is answered with. */
  lemma VoidRefusals(db: Db, b: BusinessId, id: TxId)
    ensures CheckVoid(db, b, id) == Some(TxNotFound) <==> id >= |db.txs| || db.txs[id].business != b
    ensures id < |db.txs| && db.txs[id].business == b ==>
      && (CheckVoid(db, b, id) == Some(IsReversal) <==> db.txs[id].reversalOf != None)
      && (CheckVoid(db, b, id) == Some(AlreadyVoided) <==> db.txs[id].reversalOf == None && db.txs[id].voided)
  {
  }
}
