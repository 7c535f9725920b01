/** How payments settle what one contact owes in one direction.

    Nothing is stored: every read applies targeted payments to their invoices, then general payments to
    the opening balance, then what is left to the invoices oldest first. `ComputeDirection` does this
    step by step; `Breakdown` says the same without any order of steps, and the lemmas are about it.
 */
module Allocation {
  import opened Base

  /** One live invoice of the contact, in the order the query returns them: oldest first. */
  datatype Invoice = Invoice(id: nat, original: int, dueDate: Option<int>)

  /** One live payment on the direction's account; `target` is the posting it names, if any. */
  datatype Pay = Pay(amount: int, target: Option<nat>)

  datatype InvoiceRow = InvoiceRow(id: nat, original: int, paid: int, remaining: int, dueDate: Option<int>,
      isOverdue: bool)

  datatype Direction = Direction(
    totalInvoiced: int,
    totalPaid: int,
    remaining: int,
    openingOwed: int,
    openingRemaining: int,
    balance: int,
    rows: seq<InvoiceRow>
  )

  // ----- the allocation, without steps

  function OriginalOf(): Invoice -> int {
    (i: Invoice) => i.original
  }

  function PaymentAmount(): Pay -> int {
    (p: Pay) => p.amount
  }

  predicate IsInvoice(invoices: seq<Invoice>, id: nat) {
    exists i | i in invoices :: i.id == id
  }

  function PaidTo(id: nat): Pay -> int {
    (p: Pay) => if p.target == Some(id) then p.amount else 0
  }

  /** General money: payments naming nothing, or a posting that is not among the live invoices. */
  function PaidGenerally(invoices: seq<Invoice>): Pay -> int {
    (p: Pay) => if p.target.Some? && IsInvoice(invoices, p.target.value) then 0 else p.amount
  }

  function Targeted(payments: seq<Pay>, id: nat): int {
    SumBy(payments, PaidTo(id))
  }

  function GeneralPool(invoices: seq<Invoice>, payments: seq<Pay>): int {
    SumBy(payments, PaidGenerally(invoices))
  }

  /** What an invoice still owes after the payments that name it. */
  function Open(payments: seq<Pay>): Invoice -> int {
    (i: Invoice) => Max(0, i.original - Targeted(payments, i.id))
  }

  function OpeningPaid(openingOwed: int, invoices: seq<Invoice>, payments: seq<Pay>): int {
    Min(GeneralPool(invoices, payments), openingOwed)
  }

  /** The general money left for invoices once the opening balance has had its share. */
  function InvoicePool(openingOwed: int, invoices: seq<Invoice>, payments: seq<Pay>): int {
    GeneralPool(invoices, payments) - OpeningPaid(openingOwed, invoices, payments)
  }

  /** The closed form of the oldest-first loop: invoice `k` takes what it owes, as far as the pool
      reaches past everything owed before it. */
  function Take(pool: int, invoices: seq<Invoice>, payments: seq<Pay>, k: nat): int
    requires k < |invoices|
  {
    Min(Open(payments)(invoices[k]), Max(0, pool - SumBy(invoices[..k], Open(payments))))
  }

  function PaidOn(pool: int, invoices: seq<Invoice>, payments: seq<Pay>, k: nat): int
    requires k < |invoices|
  {
    Targeted(payments, invoices[k].id) + Take(pool, invoices, payments, k)
  }

  function RowFor(invoice: Invoice, paid: int, today: int): InvoiceRow {
    var remaining := Max(0, invoice.original - paid);
    InvoiceRow(invoice.id, invoice.original, paid, remaining, invoice.dueDate,
               invoice.dueDate.Some? && invoice.dueDate.value < today && remaining > 0)
  }

  function Rows(pool: int, invoices: seq<Invoice>, payments: seq<Pay>, today: int): (rows: seq<InvoiceRow>)
    ensures |rows| == |invoices|
    ensures forall k :: 0 <= k < |rows| ==> rows[k] == RowFor(invoices[k], PaidOn(pool, invoices, payments, k), today)
  {
    seq(|invoices|, k requires 0 <= k < |invoices| => RowFor(invoices[k], PaidOn(pool, invoices, payments, k), today))
  }

  function Breakdown(openingOwed: int, invoices: seq<Invoice>, payments: seq<Pay>, today: int): Direction {
    var totalInvoiced, totalPaid := SumBy(invoices, OriginalOf()), SumBy(payments, PaymentAmount());
    var openingPaid := OpeningPaid(openingOwed, invoices, payments);
    Direction(
      totalInvoiced,
      totalPaid,
      totalInvoiced - (totalPaid - openingPaid),
      openingOwed,
      openingOwed - openingPaid,
      totalInvoiced - totalPaid,
      Rows(InvoicePool(openingOwed, invoices, payments), invoices, payments, today)
    )
  }

  ghost predicate DistinctIds(invoices: seq<Invoice>) {
    forall i, j :: 0 <= i < j < |invoices| ==> invoices[i].id != invoices[j].id
  }

  // ----- the loops

  method ComputeDirection(openingOwed: int, invoices: seq<Invoice>, payments: seq<Pay>, today: int)
      returns (r: Direction)
    requires DistinctIds(invoices)
    ensures r == Breakdown(openingOwed, invoices, payments, today)
  {
    var amountPaid, openingPaid := ApplyPayments(openingOwed, invoices, payments);
    var rows, totalInvoiced := BuildRows(invoices, amountPaid, today);
    var totalPaid := TotalPaid(payments);
    r := Direction(totalInvoiced, totalPaid, totalInvoiced - (totalPaid - openingPaid), openingOwed,
      openingOwed - openingPaid, totalInvoiced - totalPaid, rows);
  }

  /** Targeted payments first, then the opening balance, then the oldest invoices. */
  method ApplyPayments(openingOwed: int, invoices: seq<Invoice>, payments: seq<Pay>)
      returns (amountPaid: map<nat, int>, openingPaid: int)
    requires DistinctIds(invoices)
    ensures openingPaid == OpeningPaid(openingOwed, invoices, payments)
    ensures forall k :: 0 <= k < |invoices| ==>
      invoices[k].id in amountPaid
        && amountPaid[invoices[k].id] == PaidOn(InvoicePool(openingOwed, invoices, payments), invoices, payments, k)
  {
    var generalPool;
    amountPaid, generalPool := ApplyTargets(invoices, payments);
    openingPaid := Min(generalPool, openingOwed);
    generalPool := generalPool - openingPaid;
    amountPaid := ApplyOldestFirst(invoices, payments, amountPaid, generalPool);
  }

  method BuildRows(invoices: seq<Invoice>, amountPaid: map<nat, int>, today: int)
      returns (rows: seq<InvoiceRow>, totalInvoiced: int)
    requires forall k :: 0 <= k < |invoices| ==> invoices[k].id in amountPaid
    ensures |rows| == |invoices|
    ensures forall k :: 0 <= k < |invoices| ==> rows[k] == RowFor(invoices[k], amountPaid[invoices[k].id], today)
    ensures totalInvoiced == SumBy(invoices, OriginalOf())
  {
    rows, totalInvoiced := [], 0;
    for k := 0 to |invoices|
      invariant |rows| == k
      invariant forall i :: 0 <= i < k ==> rows[i] == RowFor(invoices[i], amountPaid[invoices[i].id], today)
      invariant totalInvoiced == SumBy(invoices[..k], OriginalOf())
    {
      SumTake(invoices, k, OriginalOf());
      rows := rows + [RowFor(invoices[k], amountPaid[invoices[k].id], today)];
      totalInvoiced := totalInvoiced + invoices[k].original;
    }
    assert invoices[..|invoices|] == invoices;
  }

  method TotalPaid(payments: seq<Pay>) returns (total: int)
    ensures total == SumBy(payments, PaymentAmount())
  {
    total := 0;
    for k := 0 to |payments|
      invariant total == SumBy(payments[..k], PaymentAmount())
    {
      SumTake(payments, k, PaymentAmount());
      total := total + payments[k].amount;
    }
    assert payments[..|payments|] == payments;
  }

  /** Payments that name a live invoice go to it; the rest is pooled. */
  method ApplyTargets(invoices: seq<Invoice>, payments: seq<Pay>) returns (amountPaid: map<nat, int>, generalPool: int)
    ensures forall i :: 0 <= i < |invoices| ==>
      invoices[i].id in amountPaid && amountPaid[invoices[i].id] == Targeted(payments, invoices[i].id)
    ensures generalPool == GeneralPool(invoices, payments)
  {
    amountPaid := map i | i in invoices :: i.id := 0;
    generalPool := 0;
    for k := 0 to |payments|
      invariant forall id :: id in amountPaid <==> IsInvoice(invoices, id)
      invariant forall id :: id in amountPaid ==> amountPaid[id] == Targeted(payments[..k], id)
      invariant generalPool == GeneralPool(invoices, payments[..k])
    {
      var p := payments[k];
      SumTake(payments, k, PaidGenerally(invoices));
      forall id: nat
        ensures Targeted(payments[..k + 1], id) == Targeted(payments[..k], id) + PaidTo(id)(p)
      {
        SumTake(payments, k, PaidTo(id));
      }
      if p.target.Some? && p.target.value in amountPaid {
        amountPaid := amountPaid[p.target.value := amountPaid[p.target.value] + p.amount];
      } else {
        generalPool := generalPool + p.amount;
      }
    }
    assert payments[..|payments|] == payments;
    forall i | 0 <= i < |invoices|
      ensures invoices[i].id in amountPaid
    {
      assert invoices[i] in invoices;
    }
  }

  /** What is left of the pool when the loop reaches invoice `k`. */
  function PoolAt(pool: int, invoices: seq<Invoice>, payments: seq<Pay>, k: nat): int
    requires k <= |invoices|
  {
    if pool <= 0 then pool else Max(0, pool - SumBy(invoices[..k], Open(payments)))
  }

  /** The loop over the invoices, oldest first, until the pool is used up. */
  method ApplyOldestFirst(invoices: seq<Invoice>, payments: seq<Pay>, targeted: map<nat, int>, pool: int)
      returns (amountPaid: map<nat, int>)
    requires DistinctIds(invoices)
    requires forall i :: 0 <= i < |invoices| ==>
      invoices[i].id in targeted && targeted[invoices[i].id] == Targeted(payments, invoices[i].id)
    ensures forall k :: 0 <= k < |invoices| ==>
      invoices[k].id in amountPaid && amountPaid[invoices[k].id] == PaidOn(pool, invoices, payments, k)
  {
    amountPaid := targeted;
    var generalPool := pool;
    OpenPrefixGrows(invoices, payments, 0, 0);
    var k := 0;
    while k < |invoices|
      invariant 0 <= k <= |invoices|
      invariant generalPool == PoolAt(pool, invoices, payments, k)
      invariant forall i :: 0 <= i < |invoices| ==> invoices[i].id in amountPaid
      invariant forall i :: 0 <= i < k ==> amountPaid[invoices[i].id] == PaidOn(pool, invoices, payments, i)
      invariant forall i :: k <= i < |invoices| ==> amountPaid[invoices[i].id] == Targeted(payments, invoices[i].id)
    {
      if generalPool <= 0 {
        break;
      }
      TakeStep(pool, invoices, payments, k);
      var remaining := invoices[k].original - amountPaid[invoices[k].id];
      if remaining > 0 {
        var take := Min(remaining, generalPool);
        amountPaid := amountPaid[invoices[k].id := amountPaid[invoices[k].id] + take];
        generalPool := generalPool - take;
      }
      k := k + 1;
    }
    forall i | k <= i < |invoices|
      ensures Take(pool, invoices, payments, i) == 0
    {
      OpenPrefixGrows(invoices, payments, k, i);
    }
  }

  /** One round of the loop is one term of the closed form. */
  lemma TakeStep(pool: int, invoices: seq<Invoice>, payments: seq<Pay>, k: nat)
    requires k < |invoices| && PoolAt(pool, invoices, payments, k) > 0
    ensures var owed, left := invoices[k].original - Targeted(payments, invoices[k].id),
      PoolAt(pool, invoices, payments, k);
      && Take(pool, invoices, payments, k) == (if owed > 0 then Min(owed, left) else 0)
      && PoolAt(pool, invoices, payments, k + 1) == left - Take(pool, invoices, payments, k)
  {
    SumTake(invoices, k, Open(payments));
  }

  lemma OpenPrefixGrows(invoices: seq<Invoice>, payments: seq<Pay>, k: nat, i: nat)
    requires k <= i <= |invoices|
    ensures 0 <= SumBy(invoices[..k], Open(payments)) <= SumBy(invoices[..i], Open(payments))
  {
    assert invoices[..i] == invoices[..k] + invoices[k..i];
    SumConcat(invoices[..k], invoices[k..i], Open(payments));
    SumNonNegative(invoices[..k], Open(payments));
    SumNonNegative(invoices[k..i], Open(payments));
  }

  // ----- what the allocation guarantees

  function TakeAt(pool: int, invoices: seq<Invoice>, payments: seq<Pay>): nat -> int {
    (k: nat) => if k < |invoices| then Take(pool, invoices, payments, k) else 0
  }

  /** The first `k` invoices together take the pool, or everything they owe if that is less. */
  lemma {:induction false} PrefixTakes(pool: int, invoices: seq<Invoice>, payments: seq<Pay>, k: nat)
    requires k <= |invoices| && pool >= 0
    ensures SumBy(Range(k), TakeAt(pool, invoices, payments)) == Min(pool, SumBy(invoices[..k], Open(payments)))
  {
    if k > 0 {
      PrefixTakes(pool, invoices, payments, k - 1);
      RangeSnoc(k - 1);
      SumTake(invoices, k - 1, Open(payments));
      OpenPrefixGrows(invoices, payments, k - 1, k);
    } else {
      OpenPrefixGrows(invoices, payments, 0, 0);
    }
  }

  /** An invoice that takes anything from the pool leaves none before it unsettled. */
  lemma EarlierTakesFirst(pool: int, invoices: seq<Invoice>, payments: seq<Pay>, i: nat, j: nat)
    requires i < j < |invoices|
    ensures Take(pool, invoices, payments, j) >= 0
    ensures Take(pool, invoices, payments, j) > 0 ==>
      pool > 0 && PaidOn(pool, invoices, payments, i) >= invoices[i].original
  {
    OpenPrefixGrows(invoices, payments, i + 1, j);
    SumTake(invoices, i, Open(payments));
    OpenPrefixGrows(invoices, payments, 0, i);
  }

  /** Any other way of spending the pool: no invoice gets more than it owes, nor all of them more than
      there is. */
  ghost predicate IsSpending(pool: int, invoices: seq<Invoice>, payments: seq<Pay>, y: nat -> int) {
    && (forall k :: 0 <= k < |invoices| ==> 0 <= y(k) <= Open(payments)(invoices[k]))
    && SumBy(Range(|invoices|), y) <= pool
  }

  lemma OldestFirstIsSpending(pool: int, invoices: seq<Invoice>, payments: seq<Pay>)
    requires pool >= 0
    ensures IsSpending(pool, invoices, payments, TakeAt(pool, invoices, payments))
  {
    PrefixTakes(pool, invoices, payments, |invoices|);
  }

  lemma {:induction false} SpentOnPrefix(pool: int, invoices: seq<Invoice>, payments: seq<Pay>, y: nat -> int, k: nat)
    requires IsSpending(pool, invoices, payments, y) && k <= |invoices|
    ensures SumBy(Range(k), y) <= SumBy(invoices[..k], Open(payments))
  {
    if k > 0 {
      SpentOnPrefix(pool, invoices, payments, y, k - 1);
      RangeSnoc(k - 1);
      SumTake(invoices, k - 1, Open(payments));
    }
  }

  /** Oldest first means: however far down the list one looks, no other spending of the same pool has
      settled more of it. */
  lemma OldestFirstIsBest(pool: int, invoices: seq<Invoice>, payments: seq<Pay>, y: nat -> int, k: nat)
    requires pool >= 0 && IsSpending(pool, invoices, payments, y) && k <= |invoices|
    ensures SumBy(Range(k), y) <= SumBy(Range(k), TakeAt(pool, invoices, payments))
  {
    PrefixTakes(pool, invoices, payments, k);
    SpentOnPrefix(pool, invoices, payments, y, k);
    var rest: seq<nat> := seq(|invoices| - k, i => i + k);
    assert Range(|invoices|) == Range(k) + rest;
    SumConcat<nat>(Range(k), rest, y);
    SumNonNegative<nat>(rest, y);
  }

  /** The query returns payments in no particular order, and none is needed. */
  lemma PaymentOrderIrrelevant(openingOwed: int, invoices: seq<Invoice>, payments: seq<Pay>, shuffled: seq<Pay>,
      today: int)
    requires multiset(payments) == multiset(shuffled)
    ensures Breakdown(openingOwed, invoices, payments, today) == Breakdown(openingOwed, invoices, shuffled, today)
  {
    SumPermutation(payments, shuffled, PaymentAmount());
    SumPermutation(payments, shuffled, PaidGenerally(invoices));
    var pool := InvoicePool(openingOwed, invoices, payments);
    forall k | 0 <= k < |invoices|
      ensures PaidOn(pool, invoices, payments, k) == PaidOn(pool, invoices, shuffled, k)
    {
      forall i | 0 <= i < |invoices|
        ensures Open(payments)(invoices[i]) == Open(shuffled)(invoices[i])
      {
        SumPermutation(payments, shuffled, PaidTo(invoices[i].id));
      }
      SumCong(invoices[..k], Open(payments), Open(shuffled));
      SumPermutation(payments, shuffled, PaidTo(invoices[k].id));
    }
    assert Rows(pool, invoices, payments, today) == Rows(pool, invoices, shuffled, today);
  }

  // ----- conservation

  function TargetedOn(payments: seq<Pay>): Invoice -> int {
    (i: Invoice) => Targeted(payments, i.id)
  }

  function PaidColumn(): InvoiceRow -> int {
    (r: InvoiceRow) => r.paid
  }

  function RemainingColumn(): InvoiceRow -> int {
    (r: InvoiceRow) => r.remaining
  }

  /** What is left of the pool when the loop ends. */
  function Leftover(pool: int, invoices: seq<Invoice>, payments: seq<Pay>): int {
    pool - SumBy(Range(|invoices|), TakeAt(pool, invoices, payments))
  }

  /** Each payment lands on exactly one invoice or in the pool. */
  lemma {:induction false} PaymentsSplit(invoices: seq<Invoice>, payments: seq<Pay>)
    requires DistinctIds(invoices)
    ensures SumBy(payments, PaymentAmount()) == SumBy(invoices, TargetedOn(payments)) + GeneralPool(invoices, payments)
  {
    if payments == [] {
      SumZero(invoices, TargetedOn(payments));
    } else {
      var front, p := payments[..|payments| - 1], payments[|payments| - 1];
      PaymentsSplit(invoices, front);
      var mine := OnePayment(p);
      SumLinear(invoices, TargetedOn(front), mine, TargetedOn(payments), 1);
      if p.target.Some? && IsInvoice(invoices, p.target.value) {
        var k :| 0 <= k < |invoices| && invoices[k].id == p.target.value;
        SumSingle(invoices, mine, k);
      } else {
        SumZero(invoices, mine);
      }
    }
  }

  function OnePayment(p: Pay): Invoice -> int {
    (i: Invoice) => PaidTo(i.id)(p)
  }

  lemma {:induction false} PaidColumnSum(pool: int, invoices: seq<Invoice>, payments: seq<Pay>, today: int, k: nat)
    requires k <= |invoices|
    ensures SumBy(Rows(pool, invoices, payments, today)[..k], PaidColumn()) ==
      SumBy(invoices[..k], TargetedOn(payments)) + SumBy(Range(k), TakeAt(pool, invoices, payments))
  {
    if k > 0 {
      PaidColumnSum(pool, invoices, payments, today, k - 1);
      SumTake(Rows(pool, invoices, payments, today), k - 1, PaidColumn());
      SumTake(invoices, k - 1, TargetedOn(payments));
      RangeSnoc(k - 1);
    }
  }

  /** Money is conserved: everything paid is on the opening balance, on an invoice, or left over. */
  lemma AllocationConserves(openingOwed: int, invoices: seq<Invoice>, payments: seq<Pay>, today: int)
    requires DistinctIds(invoices)
    ensures var d, pool := Breakdown(openingOwed, invoices, payments, today),
      InvoicePool(openingOwed, invoices, payments);
      d.totalPaid == (d.openingOwed - d.openingRemaining) + SumBy(d.rows, PaidColumn()) + Leftover(pool, invoices,
        payments)
  {
    var pool := InvoicePool(openingOwed, invoices, payments);
    PaymentsSplit(invoices, payments);
    PaidColumnSum(pool, invoices, payments, today, |invoices|);
    assert invoices[..|invoices|] == invoices;
    assert Rows(pool, invoices, payments, today)[..|invoices|] == Rows(pool, invoices, payments, today);
  }

  /** How far targeted payments exceed an invoice. */
  function Excess(payments: seq<Pay>): Invoice -> int {
    (i: Invoice) => Max(0, Targeted(payments, i.id) - i.original)
  }

  ghost predicate NoneOverApplied(invoices: seq<Invoice>, payments: seq<Pay>) {
    forall i | i in invoices :: Targeted(payments, i.id) <= i.original
  }

  lemma {:induction false} RemainingColumnSum(pool: int, invoices: seq<Invoice>, payments: seq<Pay>, today: int, k: nat)
    requires k <= |invoices|
    ensures SumBy(Rows(pool, invoices, payments, today)[..k], RemainingColumn()) ==
      SumBy(invoices[..k], Open(payments)) - SumBy(Range(k), TakeAt(pool, invoices, payments))
  {
    if k > 0 {
      RemainingColumnSum(pool, invoices, payments, today, k - 1);
      SumTake(Rows(pool, invoices, payments, today), k - 1, RemainingColumn());
      SumTake(invoices, k - 1, Open(payments));
      RangeSnoc(k - 1);
      SumSnoc<nat>(Range(k - 1), k - 1, TakeAt(pool, invoices, payments));
      RowRemaining(pool, invoices, payments, today, k - 1);
    }
  }

  lemma RowRemaining(pool: int, invoices: seq<Invoice>, payments: seq<Pay>, today: int, k: nat)
    requires k < |invoices|
    ensures RemainingColumn()(Rows(pool, invoices, payments, today)[k]) ==
      Open(payments)(invoices[k]) - TakeAt(pool, invoices, payments)(k)
  {
  }

  /** The figures behind the aging report: what the rows still owe is the direction's `remaining`, plus
      general money that found nothing to settle, plus targeted money beyond its invoice. */
  lemma RemainingExplained(openingOwed: int, invoices: seq<Invoice>, payments: seq<Pay>, today: int)
    requires DistinctIds(invoices) && openingOwed >= 0
    ensures var d, pool := Breakdown(openingOwed, invoices, payments, today),
      InvoicePool(openingOwed, invoices, payments);
      SumBy(d.rows, RemainingColumn()) ==
        d.remaining + Leftover(pool, invoices, payments) + SumBy(invoices, Excess(payments))
  {
    var pool := InvoicePool(openingOwed, invoices, payments);
    PaymentsSplit(invoices, payments);
    RemainingColumnSum(pool, invoices, payments, today, |invoices|);
    assert invoices[..|invoices|] == invoices;
    assert Rows(pool, invoices, payments, today)[..|invoices|] == Rows(pool, invoices, payments, today);
    SumLinear(invoices, OriginalOf(), TargetedOn(payments), Gap(payments), -1);
    SumLinear(invoices, Gap(payments), Excess(payments), Open(payments), 1);
  }

  function Gap(payments: seq<Pay>): Invoice -> int {
    (i: Invoice) => i.original - Targeted(payments, i.id)
  }

  /** The pool that reaches the invoices is never negative, and money is left over only when every
      invoice is settled. */
  lemma LeftoverMeansSettled(openingOwed: int, invoices: seq<Invoice>, payments: seq<Pay>, today: int)
    requires forall p | p in payments :: p.amount >= 0
    ensures var pool := InvoicePool(openingOwed, invoices, payments);
      && pool >= 0 && Leftover(pool, invoices, payments) >= 0
      && (Leftover(pool, invoices, payments) > 0 ==>
        forall r | r in Breakdown(openingOwed, invoices, payments, today).rows :: r.remaining == 0)
  {
    var pool := InvoicePool(openingOwed, invoices, payments);
    SumNonNegative(payments, PaidGenerally(invoices));
    PrefixTakes(pool, invoices, payments, |invoices|);
    assert invoices[..|invoices|] == invoices;
    if Leftover(pool, invoices, payments) > 0 {
      forall k | 0 <= k < |invoices|
        ensures Rows(pool, invoices, payments, today)[k].remaining == 0
      {
        SettledRow(pool, invoices, payments, today, k);
      }
    }
  }

  /** A pool that reaches past every invoice settles each of them. */
  lemma SettledRow(pool: int, invoices: seq<Invoice>, payments: seq<Pay>, today: int, k: nat)
    requires k < |invoices| && pool >= SumBy(invoices, Open(payments))
    ensures Rows(pool, invoices, payments, today)[k].remaining == 0
  {
    OpenPrefixGrows(invoices, payments, k + 1, |invoices|);
    assert invoices[..|invoices|] == invoices;
    SumTake(invoices, k, Open(payments));
  }

  /** When the rows' remaining amounts add up to the direction's own `remaining` (or to nothing, when it
      is overpaid): exactly when no invoice is over-applied, or else every invoice is fully paid. */
  lemma RowsAddUpIff(openingOwed: int, invoices: seq<Invoice>, payments: seq<Pay>, today: int)
    requires DistinctIds(invoices) && openingOwed >= 0
    requires forall p | p in payments :: p.amount >= 0
    ensures var d := Breakdown(openingOwed, invoices, payments, today);
      SumBy(d.rows, RemainingColumn()) == Max(0, d.remaining)
      <==> NoneOverApplied(invoices, payments) || (forall r | r in d.rows :: r.remaining == 0)
  {
    var d := Breakdown(openingOwed, invoices, payments, today);
    RemainingExplained(openingOwed, invoices, payments, today);
    LeftoverMeansSettled(openingOwed, invoices, payments, today);
    ExcessIsOverApplication(invoices, payments);
    RemainingIsZeroSum(d.rows);
  }

  lemma ExcessIsOverApplication(invoices: seq<Invoice>, payments: seq<Pay>)
    ensures SumBy(invoices, Excess(payments)) >= 0
    ensures SumBy(invoices, Excess(payments)) == 0 <==> NoneOverApplied(invoices, payments)
  {
    SumNonNegative(invoices, Excess(payments));
    if NoneOverApplied(invoices, payments) {
      SumZero(invoices, Excess(payments));
    } else {
      var k :| 0 <= k < |invoices| && Targeted(payments, invoices[k].id) > invoices[k].original;
      SumBoundsTerm(invoices, Excess(payments), k);
    }
  }

  lemma RemainingIsZeroSum(rows: seq<InvoiceRow>)
    requires forall k :: 0 <= k < |rows| ==> rows[k].remaining >= 0
    ensures SumBy(rows, RemainingColumn()) >= 0
    ensures SumBy(rows, RemainingColumn()) == 0 <==> forall r | r in rows :: r.remaining == 0
  {
    SumNonNegative(rows, RemainingColumn());
    if forall r | r in rows :: r.remaining == 0 {
      SumZero(rows, RemainingColumn());
    } else {
      var k :| 0 <= k < |rows| && rows[k].remaining != 0;
      SumBoundsTerm(rows, RemainingColumn(), k);
    }
  }

  // ----- accepting a payment

  datatype PaymentError = NotOutstanding | ExceedsInvoice | ExceedsOutstanding

  function FindRow(rows: seq<InvoiceRow>, id: nat): (r: Option<InvoiceRow>)
    ensures r.Some? ==> r.value in rows && r.value.id == id
    ensures r.None? ==> forall x | x in rows :: x.id != id
  {
    if rows == [] then None else if rows[0].id == id then Some(rows[0]) else FindRow(rows[1..], id)
  }

  function ValidatePayment(d: Direction, amount: int, target: Option<nat>): Option<PaymentError> {
    var outstanding := d.remaining + d.openingRemaining;
    if target.Some? then
      var row := FindRow(d.rows, target.value);
      if row.None? then Some(NotOutstanding) else if amount > row.value.remaining then Some(ExceedsInvoice) else None
    else if amount > outstanding then Some(ExceedsOutstanding) else None
  }

  /** An accepted payment leaves every invoice within its amount, and the contact within what they were
      invoiced and owed at the start, if no invoice was over-applied before it. */
  lemma AcceptedPaymentFits(openingOwed: int, invoices: seq<Invoice>, payments: seq<Pay>, today: int, amount: int,
      target: Option<nat>)
    requires DistinctIds(invoices) && openingOwed >= 0 && amount > 0
    requires forall p | p in payments :: p.amount >= 0
    requires NoneOverApplied(invoices, payments)
    requires ValidatePayment(Breakdown(openingOwed, invoices, payments, today), amount, target).None?
    ensures NoneOverApplied(invoices, payments + [Pay(amount, target)])
    ensures SumBy(payments, PaymentAmount()) + amount <= SumBy(invoices, OriginalOf()) + openingOwed
  {
    forall i | i in invoices
      ensures Targeted(payments + [Pay(amount, target)], i.id) <= i.original
    {
      SumSnoc(payments, Pay(amount, target), PaidTo(i.id));
      if target == Some(i.id) {
        TargetStillOwes(openingOwed, invoices, payments, today, i);
      }
    }
    if target.Some? {
      RowWithinOutstanding(openingOwed, invoices, payments, today, target.value);
    }
  }

  /** No listed invoice owes more than the contact as a whole still does. */
  lemma RowWithinOutstanding(openingOwed: int, invoices: seq<Invoice>, payments: seq<Pay>, today: int, id: nat)
    requires DistinctIds(invoices) && openingOwed >= 0 && NoneOverApplied(invoices, payments)
    requires forall p | p in payments :: p.amount >= 0
    ensures var row := FindRow(Breakdown(openingOwed, invoices, payments, today).rows, id);
      row.Some? && row.value.remaining > 0 ==>
        row.value.remaining <= SumBy(invoices, OriginalOf()) + openingOwed - SumBy(payments, PaymentAmount())
  {
    var d := Breakdown(openingOwed, invoices, payments, today);
    if FindRow(d.rows, id).Some? {
      RemainingExplained(openingOwed, invoices, payments, today);
      LeftoverMeansSettled(openingOwed, invoices, payments, today);
      ExcessIsOverApplication(invoices, payments);
      var k :| 0 <= k < |d.rows| && d.rows[k] == FindRow(d.rows, id).value;
      SumBoundsTerm(d.rows, RemainingColumn(), k);
    }
  }

  lemma TargetStillOwes(openingOwed: int, invoices: seq<Invoice>, payments: seq<Pay>, today: int, i: Invoice)
    requires DistinctIds(invoices) && i in invoices
    ensures var row := FindRow(Breakdown(openingOwed, invoices, payments, today).rows, i.id);
      row.Some? && row.value.remaining <= Max(0, i.original - Targeted(payments, i.id))
  {
    var k :| 0 <= k < |invoices| && invoices[k] == i;
    var pool := InvoicePool(openingOwed, invoices, payments);
    RowIsFound(pool, invoices, payments, today, k);
    PaidAtLeastTargeted(pool, invoices, payments, k);
    assert Breakdown(openingOwed, invoices, payments, today).rows == Rows(pool, invoices, payments, today);
  }

  lemma PaidAtLeastTargeted(pool: int, invoices: seq<Invoice>, payments: seq<Pay>, k: nat)
    requires k < |invoices|
    ensures PaidOn(pool, invoices, payments, k) >= Targeted(payments, invoices[k].id)
  {
  }

  lemma RowIsFound(pool: int, invoices: seq<Invoice>, payments: seq<Pay>, today: int, k: nat)
    requires DistinctIds(invoices) && k < |invoices|
    ensures FindRow(Rows(pool, invoices, payments, today), invoices[k].id) ==
      Some(RowFor(invoices[k], PaidOn(pool, invoices, payments, k), today))
  {
    var rows := Rows(pool, invoices, payments, today);
    forall i, j | 0 <= i < |rows| && 0 <= j < |rows| && rows[i].id == rows[j].id
      ensures i == j
    {
      assert rows[i].id == invoices[i].id && rows[j].id == invoices[j].id;
    }
    FoundIsOnly(rows, k);
  }

  lemma FoundIsOnly(rows: seq<InvoiceRow>, k: nat)
    requires k < |rows| && forall i, j :: 0 <= i < |rows| && 0 <= j < |rows| && rows[i].id == rows[j].id ==> i == j
    ensures FindRow(rows, rows[k].id) == Some(rows[k])
  {
    assert rows[k] in rows;
    var row := FindRow(rows, rows[k].id).value;
    var j :| 0 <= j < |rows| && rows[j] == row;
  }

  /** A payment is accepted exactly when it names a listed invoice that still owes as much, or names none and
      is no more than everything invoiced and owed at the start, less everything paid. */
  lemma AcceptedIff(openingOwed: int, invoices: seq<Invoice>, payments: seq<Pay>, today: int, amount: int,
      target: Option<nat>)
    requires DistinctIds(invoices)
    ensures var d := Breakdown(openingOwed, invoices, payments, today);
      ValidatePayment(d, amount, target).None? <==>
        if target.Some? then exists row | row in d.rows :: row.id == target.value && amount <= row.remaining
        else amount <= SumBy(invoices, OriginalOf()) + openingOwed - SumBy(payments, PaymentAmount())
  {
    var d := Breakdown(openingOwed, invoices, payments, today);
    if target.Some? {
      forall row | row in d.rows && row.id == target.value
        ensures FindRow(d.rows, target.value) == Some(row)
      {
        var k :| 0 <= k < |d.rows| && d.rows[k] == row;
        RowIsFound(InvoicePool(openingOwed, invoices, payments), invoices, payments, today, k);
      }
    }
  }
}
