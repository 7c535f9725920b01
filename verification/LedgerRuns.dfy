/** Whole runs of the ledger: any sequence of posting and voiding requests, refused or accepted. */
module LedgerRuns {
  import opened Base
  import opened Ledger

  datatype Command = Post(b: BusinessId, req: PostRequest) | Void(b: BusinessId, id: TxId, today: int)

  /** A refused request rolls back, so it leaves the tables as they were. */
  function Next(db: Db, c: Command): Db {
    var r := match c
      case Post(b, req) => PostStep(db, b, req)
      case Void(b, id, today) => VoidStep(db, b, id, today);
    if r.Ok? then r.value.0 else db
  }

  function Run(db: Db, cs: seq<Command>): Db {
    if cs == [] then db else Next(Run(db, cs[..|cs| - 1]), cs[|cs| - 1])
  }

  /** Books just opened: accounts with their opening balances and nothing posted yet. */
  ghost predicate JustOpened(db: Db) {
    db.txs == [] && forall a :: 0 <= a < |db.accounts| ==> db.accounts[a].current == db.accounts[a].opening
  }

  lemma NextKeepsInv(db: Db, c: Command)
    requires LedgerInv(db)
    ensures LedgerInv(Next(db, c))
  {
    match c
    case Post(b, req) => PostKeepsInv(db, b, req);
    case Void(b, id, today) => VoidKeepsInv(db, b, id, today);
  }

  /** Over every run: balances cached exactly, postings balanced, voids paired with one mirror each. */
  lemma {:induction false} RunKeepsInv(db: Db, cs: seq<Command>)
    requires LedgerInv(db)
    ensures LedgerInv(Run(db, cs))
  {
    if cs != [] {
      RunKeepsInv(db, cs[..|cs| - 1]);
      NextKeepsInv(Run(db, cs[..|cs| - 1]), cs[|cs| - 1]);
    }
  }

  // ----- append only

  /** What no step ever changes: account and contact data, and every posted row except its status. */
  ghost predicate Extends(db: Db, db': Db) {
    && db'.contacts == db.contacts
    && |db'.accounts| == |db.accounts|
    && (forall a :: 0 <= a < |db.accounts| ==> db'.accounts[a].(current := db.accounts[a].current) == db.accounts[a])
    && |db'.txs| >= |db.txs|
    && (forall i :: 0 <= i < |db.txs| ==> db'.txs[i].(voided := db.txs[i].voided) == db.txs[i])
    && (forall i :: 0 <= i < |db.txs| && db.txs[i].voided ==> db'.txs[i].voided)
  }

  lemma NextExtends(db: Db, c: Command)
    ensures Extends(db, Next(db, c))
  {
  }

  lemma ApplyVoidExtends(db: Db, id: TxId, today: int)
    requires id < |db.txs|
    ensures Extends(db, ApplyVoid(db, id, today))
  {
  }

  /** History is append-only: a row is never deleted or edited, and a voided row stays voided. */
  lemma {:induction false} RunExtends(db: Db, cs: seq<Command>)
    ensures Extends(db, Run(db, cs))
  {
    if cs != [] {
      var before := Run(db, cs[..|cs| - 1]);
      RunExtends(db, cs[..|cs| - 1]);
      NextExtends(before, cs[|cs| - 1]);
    }
  }

  // ----- voided pairs cancel

  /** What every report counts: neither voided nor the reversal of a void. */
  predicate IsLive(t: Tx) {
    !t.voided && t.reversalOf.None?
  }

  function LiveOnly(f: Tx -> int): Tx -> int {
    (t: Tx) => if IsLive(t) then f(t) else 0
  }

  /** A figure a mirrored reversal cancels: it changes sign with the entries and ignores the status. */
  ghost predicate Cancelling(f: Tx -> int) {
    && (forall r: Tx, t: Tx :: MirrorOf(r, t) ==> f(r) == -f(t))
    && (forall t: Tx, v: bool :: f(t.(voided := v)) == f(t))
  }

  /** Where every void is paired with its mirror, counting every posting gives what counting the live
      ones gives. The proof undoes the last void. */
  lemma {:induction false} VoidsCancel(txs: seq<Tx>, f: Tx -> int)
    requires VoidsPaired(txs) && Cancelling(f)
    ensures SumBy(txs, f) == SumBy(txs, LiveOnly(f))
    decreases |txs|
  {
    if txs != [] {
      var n := |txs| - 1;
      var last := txs[n];
      if last.reversalOf.Some? {
        var i := last.reversalOf.value;
        assert Reverses(txs, n, i);
        var before := txs[..n][i := txs[i].(voided := false)];
        UndoLastVoid(txs);
        VoidsCancel(before, f);
        SumUpdate(txs[..n], i, txs[i].(voided := false), f);
        SumUpdate(txs[..n], i, txs[i].(voided := false), LiveOnly(f));
      } else {
        DropLastPosting(txs);
        VoidsCancel(txs[..n], f);
      }
    }
  }

  lemma UndoLastVoid(txs: seq<Tx>)
    requires VoidsPaired(txs) && txs != [] && txs[|txs| - 1].reversalOf.Some?
    ensures var i := txs[|txs| - 1].reversalOf.value;
      i < |txs| - 1 && VoidsPaired(txs[..|txs| - 1][i := txs[i].(voided := false)])
  {
    var n := |txs| - 1;
    var i := txs[n].reversalOf.value;
    assert Reverses(txs, n, i);
    var before := txs[..n][i := txs[i].(voided := false)];
    forall j, k | 0 <= j < n && 0 <= k && Reverses(before, j, k)
      ensures Reverses(txs, j, k) && k != i && k < j
    {
      assert Reverses(txs, j, k);
    }
    forall k | 0 <= k < n && before[k].voided
      ensures exists j :: 0 <= j < n && Reverses(before, j, k)
    {
      var j :| 0 <= j < |txs| && Reverses(txs, j, k);
      assert Reverses(before, j, k);
    }
  }

  lemma DropLastPosting(txs: seq<Tx>)
    requires VoidsPaired(txs) && txs != [] && txs[|txs| - 1].reversalOf.None?
    ensures VoidsPaired(txs[..|txs| - 1]) && !txs[|txs| - 1].voided
  {
    var n := |txs| - 1;
    if txs[n].voided {
      assert false;
    }
    forall j, k | 0 <= j < n && 0 <= k && Reverses(txs[..n], j, k)
      ensures Reverses(txs, j, k)
    {
    }
    forall k | 0 <= k < n && txs[k].voided
      ensures exists j :: 0 <= j < n && Reverses(txs[..n], j, k)
    {
      var j :| 0 <= j < |txs| && Reverses(txs, j, k);
      assert Reverses(txs[..n], j, k);
    }
  }

  lemma TxNetCancels(a: AccountId)
    ensures Cancelling(TxNet(a))
  {
    forall r: Tx, t: Tx | MirrorOf(r, t)
      ensures TxNet(a)(r) == -TxNet(a)(t)
    {
      NetOfFlipped(t.entries, a);
    }
  }

  /** The cached balance, which sums voided and reversal entries too, is the live entries' balance. */
  lemma BalanceIsLiveBalance(db: Db, a: AccountId)
    requires LedgerInv(db) && a < |db.accounts|
    ensures db.accounts[a].current ==
      if IsDebitPositive(db.accounts[a].accountType) then db.accounts[a].opening + SumBy(db.txs, LiveOnly(TxNet(a)))
      else db.accounts[a].opening - SumBy(db.txs, LiveOnly(TxNet(a)))
  {
    TxNetCancels(a);
    VoidsCancel(db.txs, TxNet(a));
  }

  /** Voiding undoes a posting: every account row, cached balance included, is what it was before. */
  lemma VoidUndoesPost(db: Db, b: BusinessId, req: PostRequest, today: int)
    requires Cached(db)
    ensures ApplyVoid(ApplyPost(db, b, req), |db.txs|, today).accounts == db.accounts
  {
    var posted := ApplyPost(db, b, req);
    var voided := ApplyVoid(posted, |db.txs|, today);
    forall a | 0 <= a < |db.accounts|
      ensures voided.accounts[a] == db.accounts[a]
    {
      if a in Touched(req.entries) {
        SumSnoc(db.txs, Posted(b, req), TxNet(a));
        VoidRestores(posted.txs, |db.txs|, today, a);
      }
    }
    assert voided.accounts == db.accounts;
  }

  // ----- idempotency keys

  /** Once a request with a key has been accepted, repeating the key at any later time, with whatever else
      in the request, answers with that posting in its workspace, is refused in any other, and changes
      nothing. */
  lemma RetryAnswers(db: Db, b: BusinessId, req: PostRequest, cs: seq<Command>, b': BusinessId, again: PostRequest)
    requires LedgerInv(db) && req.key.Some? && PostStep(db, b, req).Ok? && again.key == req.key
    ensures var id := PostStep(db, b, req).value.1; var later := Run(Next(db, Post(b, req)), cs);
      && PostStep(later, b', again) == (if b' == b then Ok((later, id)) else Err(KeyUsedElsewhere))
      && Next(later, Post(b', again)) == later
  {
    var posted, id := Next(db, Post(b, req)), PostStep(db, b, req).value.1;
    NextKeepsInv(db, Post(b, req));
    KeyStays(db, b, req);
    RunKeepsInv(posted, cs);
    RunExtends(posted, cs);
    var later := Run(posted, cs);
    assert later.txs[id].(voided := posted.txs[id].voided) == posted.txs[id];
    KeyAnswers(later, b', again, id);
  }

  lemma KeyStays(db: Db, b: BusinessId, req: PostRequest)
    requires req.key.Some? && PostStep(db, b, req).Ok?
    ensures var (db', id) := PostStep(db, b, req).value;
      id < |db'.txs| && db'.txs[id].key == req.key && db'.txs[id].business == b
  {
  }
}
