/** Group settlements: a period's expenses split equally among the active members, to the last paisa. */
module Settlement {
  import opened Base
  import opened Sorting
  import Ledger

  type BusinessId = Ledger.BusinessId
  type MemberId = nat

  /** Members are kept in the order they joined. */
  datatype Member = Member(id: MemberId, business: BusinessId, active: bool)

  /** A negative amount is money returned to the member. */
  datatype Contribution = Contribution(business: BusinessId, member: MemberId, date: int, amount: int)

  datatype Expense = Expense(business: BusinessId, date: int, amount: int, paidBy: Option<MemberId>)

  datatype Row = Row(member: MemberId, deposited: int, returned: int, contributed: int, share: int, balance: int)

  datatype Settlement = Settlement(
    business: BusinessId,
    from: int,
    to: int,
    total: int,
    memberCount: nat,
    perMemberShare: int,
    rows: seq<Row>
  )

  // ----- the period's rows

  function ContributedIn(b: BusinessId, from: int, to: int): Contribution -> bool {
    (c: Contribution) => c.business == b && from <= c.date <= to
  }

  function ExpenseIn(b: BusinessId, from: int, to: int): Expense -> int {
    (e: Expense) => if e.business == b && from <= e.date <= to then e.amount else 0
  }

  function IsActive(b: BusinessId): Member -> bool {
    (m: Member) => m.business == b && m.active
  }

  /** Archived since, but with money in or out during the period. */
  function IsFormer(b: BusinessId, cs: seq<Contribution>): Member -> bool {
    (m: Member) => m.business == b && !m.active && m.id in Contributors(cs)
  }

  function Contributors(cs: seq<Contribution>): set<MemberId> {
    set c | c in cs :: c.member
  }

  function DepositOf(m: MemberId): Contribution -> int {
    (c: Contribution) => if c.member == m && c.amount >= 0 then c.amount else 0
  }

  function ReturnOf(m: MemberId): Contribution -> int {
    (c: Contribution) => if c.member == m && c.amount < 0 then Abs(c.amount) else 0
  }

  function NetOf(m: MemberId): Contribution -> int {
    (c: Contribution) => if c.member == m then c.amount else 0
  }

  function Amount(): Contribution -> int {
    (c: Contribution) => c.amount
  }

  datatype Totals = Totals(deposited: int, returned: int)

  function TotalsFor(cs: seq<Contribution>, m: MemberId): Totals {
    Totals(SumBy(cs, DepositOf(m)), SumBy(cs, ReturnOf(m)))
  }

  // ----- the split

  /** The whole-paisa share of everybody but the last: rounded down, for negative totals too. */
  function BaseShare(total: int, count: nat): int
    requires count > 0
  {
    total / count
  }

  function Remainder(total: int, count: nat): int
    requires count > 0
  {
    total - BaseShare(total, count) * count
  }

  /** The last active member also takes what rounding left over; people past the active ones share nothing. */
  function ShareAt(total: int, count: nat): nat -> int
    requires count > 0
  {
    (i: nat) =>
      if i >= count then 0
      else if i == count - 1 then BaseShare(total, count) + Remainder(total, count)
      else BaseShare(total, count)
  }

  function RowFor(m: MemberId, totals: Totals, share: int): Row {
    var contributed := totals.deposited - totals.returned;
    Row(m, totals.deposited, totals.returned, contributed, share, contributed - share)
  }

  function People(members: seq<Member>, b: BusinessId, cs: seq<Contribution>): seq<Member> {
    Filter(members, IsActive(b)) + Filter(members, IsFormer(b, cs))
  }

  function Rows(people: seq<Member>, cs: seq<Contribution>, total: int, count: nat): (rows: seq<Row>)
    requires count > 0
    ensures |rows| == |people|
  {
    seq(|people|, i requires 0 <= i < |people| => RowFor(people[i].id, TotalsFor(cs, people[i].id),
      ShareAt(total, count)(i)))
  }

  /** The settlement that three reads of the tables lead to. */
  function Split(b: BusinessId, from: int, to: int, members: seq<Member>, cs: seq<Contribution>,
      total: int): Settlement {
    var count := |Filter(members, IsActive(b))|;
    if count == 0 then Settlement(b, from, to, total, 0, 0, [])
    else Settlement(b, from, to, total, count, BaseShare(total, count), Rows(People(members, b, cs), cs, total, count))
  }

  method TotalsByMember(cs: seq<Contribution>) returns (totals: map<MemberId, Totals>)
    ensures totals.Keys == Contributors(cs)
    ensures forall m :: m in totals ==> totals[m] == TotalsFor(cs, m)
  {
    totals := map[];
    for i := 0 to |cs|
      invariant totals.Keys == Contributors(cs[..i])
      invariant forall m :: m in totals ==> totals[m] == TotalsFor(cs[..i], m)
    {
      var c := cs[i];
      var t := if c.member in totals then totals[c.member] else Totals(0, 0);
      t := if c.amount < 0 then t.(returned := t.returned + Abs(c.amount)) else t.(deposited := t.deposited + c.amount);
      NoTotals(cs[..i], c.member);
      assert cs[..i + 1] == cs[..i] + [c];
      forall m: MemberId | m in Contributors(cs[..i + 1])
        ensures TotalsFor(cs[..i + 1], m) == if m == c.member then t else TotalsFor(cs[..i], m)
      {
      }
      totals := totals[c.member := t];
    }
    assert cs[..|cs|] == cs;
  }

  lemma NoTotals(cs: seq<Contribution>, m: MemberId)
    ensures m !in Contributors(cs) ==> TotalsFor(cs, m) == Totals(0, 0)
  {
    if m !in Contributors(cs) {
      SumZero(cs, DepositOf(m));
      SumZero(cs, ReturnOf(m));
    }
  }

  method ComputeSettlement(b: BusinessId, from: int, to: int, members: seq<Member>, contributions: seq<Contribution>,
      expenses: seq<Expense>)
    returns (result: Settlement)
    ensures result ==
      Split(b, from, to, members, Filter(contributions, ContributedIn(b, from, to)),
      SumBy(expenses, ExpenseIn(b, from, to)))
  {
    var total := SumBy(expenses, ExpenseIn(b, from, to));
    var cs := Filter(contributions, ContributedIn(b, from, to));
    var active := Filter(members, IsActive(b));
    var former := Filter(members, IsFormer(b, cs));
    var totals := TotalsByMember(cs);
    var count := |active|;
    if count == 0 {
      return Settlement(b, from, to, total, 0, 0, []);
    }
    var base := total / count;
    var remainder := total - base * count;
    assert base == BaseShare(total, count) && remainder == Remainder(total, count);
    var people := active + former;
    ghost var all := Rows(people, cs, total, count);
    var rows := [];
    for i := 0 to |people|
      invariant rows == all[..i]
    {
      var m := people[i].id;
      var t := if m in totals then totals[m] else Totals(0, 0);
      NoTotals(cs, m);
      var share := if i >= count then 0 else if i == count - 1 then base + remainder else base;
      assert t == TotalsFor(cs, m) && share == ShareAt(total, count)(i);
      assert all[i] == RowFor(m, t, share);
      rows := rows + [RowFor(m, t, share)];
    }
    return Settlement(b, from, to, total, count, base, rows);
  }

  // ----- what the split keeps

  function ShareOf(): Row -> int {
    (r: Row) => r.share
  }

  function BalanceOf(): Row -> int {
    (r: Row) => r.balance
  }

  function NetContribution(): Row -> int {
    (r: Row) => r.contributed
  }

  lemma RemainderIs(total: int, count: nat)
    requires count > 0
    ensures Remainder(total, count) == total % count && 0 <= Remainder(total, count) < count
    ensures total == BaseShare(total, count) * count + Remainder(total, count)
  {
    assert total == (total / count) * count + total % count;
  }

  lemma SumRangeSnoc(n: nat, f: nat -> int)
    ensures SumBy(Range(n + 1), f) == SumBy(Range(n), f) + f(n)
  {
    RangeSnoc(n);
    SumSnoc<nat>(Range(n), n, f);
  }

  lemma {:induction false} EqualTerms(n: nat, f: nat -> int, x: int)
    requires forall i: nat | i < n :: f(i) == x
    ensures SumBy(Range(n), f) == x * n
  {
    if n > 0 {
      EqualTerms(n - 1, f, x);
      SumRangeSnoc(n - 1, f);
      assert x * (n - 1) + x == x * n;
    }
  }

  /** Shares add up to the total exactly, however many people past the active ones are listed. */
  lemma {:induction false} SharesAddUp(total: int, count: nat, n: nat)
    requires 0 < count <= n
    ensures SumBy(Range(n), ShareAt(total, count)) == total
  {
    SumRangeSnoc(n - 1, ShareAt(total, count));
    if n == count {
      EqualTerms(count - 1, ShareAt(total, count), BaseShare(total, count));
      RemainderIs(total, count);
      assert BaseShare(total, count) * (count - 1) + BaseShare(total, count) == BaseShare(total, count) * count;
    } else {
      SharesAddUp(total, count, n - 1);
    }
  }

  /** Nobody pays more than a paisa's rounding apart: all but the last pay the same, and the last pays
      less than one paisa per member more. */
  lemma FairSplit(total: int, count: nat, i: nat)
    requires i < count
    ensures BaseShare(total, count) <= ShareAt(total, count)(i) < BaseShare(total, count) + count
    ensures i < count - 1 ==> ShareAt(total, count)(i) == BaseShare(total, count)
    ensures ShareAt(total, count)(count - 1) == BaseShare(total, count) <==> total % count == 0
  {
    RemainderIs(total, count);
  }

  /** A settlement with members pays for exactly its expenses, and its balances say how much more was
      contributed than spent. */
  ghost predicate AddsUp(s: Settlement) {
    && SumBy(s.rows, ShareOf()) == s.total
    && SumBy(s.rows, BalanceOf()) == SumBy(s.rows, NetContribution()) - s.total
  }

  lemma SplitAddsUp(b: BusinessId, from: int, to: int, members: seq<Member>, cs: seq<Contribution>, total: int)
    requires Split(b, from, to, members, cs, total).memberCount > 0
    ensures AddsUp(Split(b, from, to, members, cs, total))
  {
    var s := Split(b, from, to, members, cs, total);
    SharesAddUp(total, s.memberCount, |s.rows|);
    SumPairwise<Row, nat>(s.rows, Range(|s.rows|), ShareOf(), ShareAt(total, s.memberCount));
    SumLinear(s.rows, NetContribution(), ShareOf(), BalanceOf(), -1);
  }

  // ----- nobody's money is missing from the rows

  ghost predicate DistinctIds(members: seq<Member>) {
    forall i, j :: 0 <= i < j < |members| ==> members[i].id != members[j].id
  }

  predicate HasMember(members: seq<Member>, b: BusinessId, id: MemberId) {
    exists i :: 0 <= i < |members| && members[i].id == id && members[i].business == b
  }

  function MemberNet(cs: seq<Contribution>): Member -> int {
    (m: Member) => SumBy(cs, NetOf(m.id))
  }

  function NetTable(): (Member, Contribution) -> int {
    (m: Member, c: Contribution) => if c.member == m.id then c.amount else 0
  }

  lemma MemberNetIsTotals(cs: seq<Contribution>, m: MemberId)
    ensures SumBy(cs, NetOf(m)) == TotalsFor(cs, m).deposited - TotalsFor(cs, m).returned
    ensures m !in Contributors(cs) ==> SumBy(cs, NetOf(m)) == 0
  {
    SumLinear(cs, DepositOf(m), ReturnOf(m), NetOf(m), -1);
    NoTotals(cs, m);
  }

  ghost predicate Linked(members: seq<Member>, b: BusinessId, cs: seq<Contribution>) {
    forall i :: 0 <= i < |cs| ==> HasMember(members, b, cs[i].member)
  }

  /** Member by member or row by row, the same money. */
  lemma ContributionsSpread(members: seq<Member>, b: BusinessId, cs: seq<Contribution>)
    requires DistinctIds(members) && Linked(members, b, cs)
    ensures SumBy(members, MemberNet(cs)) == SumBy(cs, Amount())
  {
    SumSwap(members, cs, NetTable());
    forall i | 0 <= i < |members|
      ensures RowSum(cs, NetTable())(members[i]) == MemberNet(cs)(members[i])
    {
      SumCong(cs, At(members[i], NetTable()), NetOf(members[i].id));
    }
    SumCong(members, RowSum(cs, NetTable()), MemberNet(cs));
    forall i | 0 <= i < |cs|
      ensures ColumnSum(members, NetTable())(cs[i]) == Amount()(cs[i])
    {
      assert HasMember(members, b, cs[i].member);
      var k :| 0 <= k < |members| && members[k].id == cs[i].member;
      SumSingle(members, Column(cs[i], NetTable()), k);
    }
    SumCong(cs, ColumnSum(members, NetTable()), Amount());
  }

  /** A member who is not listed put nothing in. */
  lemma UnlistedNetZero(members: seq<Member>, b: BusinessId, cs: seq<Contribution>, k: nat)
    requires DistinctIds(members) && Linked(members, b, cs) && k < |members|
    ensures If(IsActive(b), MemberNet(cs))(members[k]) + If(IsFormer(b, cs), MemberNet(cs))(members[k]) ==
      MemberNet(cs)(members[k])
  {
    var m := members[k];
    if m.id in Contributors(cs) {
      var i :| 0 <= i < |cs| && cs[i].member == m.id;
      assert HasMember(members, b, cs[i].member);
    } else {
      MemberNetIsTotals(cs, m.id);
    }
  }

  lemma RowsContributions(members: seq<Member>, b: BusinessId, cs: seq<Contribution>, total: int, count: nat)
    requires count > 0 && DistinctIds(members) && Linked(members, b, cs)
    ensures SumBy(Rows(People(members, b, cs), cs, total, count), NetContribution()) == SumBy(cs, Amount())
  {
    var people := People(members, b, cs);
    var rows := Rows(people, cs, total, count);
    forall i | 0 <= i < |rows|
      ensures NetContribution()(rows[i]) == MemberNet(cs)(people[i])
    {
      assert rows[i] == RowFor(people[i].id, TotalsFor(cs, people[i].id), ShareAt(total, count)(i));
      MemberNetIsTotals(cs, people[i].id);
    }
    SumPairwise(rows, people, NetContribution(), MemberNet(cs));
    SumConcat(Filter(members, IsActive(b)), Filter(members, IsFormer(b, cs)), MemberNet(cs));
    SumFilter(members, IsActive(b), MemberNet(cs));
    SumFilter(members, IsFormer(b, cs), MemberNet(cs));
    forall k | 0 <= k < |members|
      ensures MemberNet(cs)(members[k]) ==
        If(IsActive(b), MemberNet(cs))(members[k]) + 1 * If(IsFormer(b, cs), MemberNet(cs))(members[k])
    {
      UnlistedNetZero(members, b, cs, k);
    }
    SumLinear(members, If(IsActive(b), MemberNet(cs)), If(IsFormer(b, cs), MemberNet(cs)), MemberNet(cs), 1);
    ContributionsSpread(members, b, cs);
  }

  /** The balances of a settlement, former contributors included, add up to what the group put in during the
      period minus what it spent. */
  lemma BalancesAddUp(b: BusinessId, from: int, to: int, members: seq<Member>, cs: seq<Contribution>, total: int)
    requires Split(b, from, to, members, cs, total).memberCount > 0
    requires DistinctIds(members) && Linked(members, b, cs)
    ensures SumBy(Split(b, from, to, members, cs, total).rows, BalanceOf()) == SumBy(cs, Amount()) - total
  {
    SplitAddsUp(b, from, to, members, cs, total);
    RowsContributions(members, b, cs, total, |Filter(members, IsActive(b))|);
  }
}
