/** A group's tables over time: members come and go, rows are edited, periods are closed. */
module SettlementRuns {
  import opened Base
  import opened Sorting
  import opened Settlement

  datatype Group = Group(members: seq<Member>, contributions: seq<Contribution>, expenses: seq<Expense>,
      settlements: seq<Settlement>)

  datatype CloseError = EndsBeforeStart | Overlaps | NoActiveMembers

  /** Absent fields of an edit keep what the row has. */
  datatype Step =
    | AddMember(b: BusinessId, id: MemberId)
    | SetStatus(b: BusinessId, id: MemberId, active: bool)
    | DeleteMember(b: BusinessId, id: MemberId)
    | AddContribution(b: BusinessId, id: MemberId, day: int, paisa: int)
    | ChangeContribution(b: BusinessId, row: nat, who: Option<MemberId>, date: Option<int>, amount: Option<int>)
    | RemoveContribution(b: BusinessId, row: nat)
    | AddExpense(b: BusinessId, day: int, paisa: int, who: Option<MemberId>)
    | ChangeExpense(b: BusinessId, row: nat, date: Option<int>, amount: Option<int>, payer: Option<Option<MemberId>>)
    | RemoveExpense(b: BusinessId, row: nat)
    | Close(b: BusinessId, from: int, to: int)

  // ----- closing a period

  predicate Overlap(s: Settlement, b: BusinessId, from: int, to: int) {
    s.business == b && s.from <= to && s.to >= from
  }

  predicate AnyOverlap(ss: seq<Settlement>, b: BusinessId, from: int, to: int) {
    exists i :: 0 <= i < |ss| && Overlap(ss[i], b, from, to)
  }

  function SettlementFor(g: Group, b: BusinessId, from: int, to: int): Settlement {
    Split(b, from, to, g.members, Filter(g.contributions, ContributedIn(b, from, to)),
      SumBy(g.expenses, ExpenseIn(b, from, to)))
  }

  function CloseStep(g: Group, b: BusinessId, from: int, to: int): Result<Group, CloseError> {
    if to < from then Err(EndsBeforeStart)
    else if AnyOverlap(g.settlements, b, from, to) then Err(Overlaps)
    else if SettlementFor(g, b, from, to).memberCount == 0 then Err(NoActiveMembers)
    else Ok(g.(settlements := g.settlements + [SettlementFor(g, b, from, to)]))
  }

  class GroupExpensesService {
    var members: seq<Member>
    var contributions: seq<Contribution>
    var expenses: seq<Expense>
    var settlements: seq<Settlement>

    constructor (g: Group)
      ensures Tables() == g
    {
      members, contributions, expenses, settlements := g.members, g.contributions, g.expenses, g.settlements;
    }

    function Tables(): Group
      reads this
    {
      Group(members, contributions, expenses, settlements)
    }

    method CloseSettlement(b: BusinessId, from: int, to: int) returns (problem: Option<CloseError>)
      modifies this`settlements
      ensures match CloseStep(old(Tables()), b, from, to)
        case Ok(g) => problem == None && Tables() == g
        case Err(e) => problem == Some(e) && Tables() == old(Tables())
    {
      if to < from {
        return Some(EndsBeforeStart);
      }
      if exists i :: 0 <= i < |settlements| && Overlap(settlements[i], b, from, to) {
        return Some(Overlaps);
      }
      var result := ComputeSettlement(b, from, to, members, contributions, expenses);
      if result.memberCount == 0 {
        return Some(NoActiveMembers);
      }
      settlements := settlements + [result];
      return None;
    }
  }

  // ----- every step

  /** Where the member stands, if there is one with this id in this workspace. */
  function FindMember(members: seq<Member>, b: BusinessId, id: MemberId): (k: Option<nat>)
    ensures k.None? <==> !HasMember(members, b, id)
    ensures k.Some? ==> k.value < |members| && members[k.value].id == id && members[k.value].business == b
  {
    if members == [] then None
    else
      var n := |members| - 1;
      if members[n].id == id && members[n].business == b then assert HasMember(members, b, id); Some(n)
      else
        var k := FindMember(members[..n], b, id);
        assert k.Some? ==> HasMember(members, b, id);
        k
  }

  function Without<T>(xs: seq<T>, k: nat): seq<T>
    requires k < |xs|
  {
    xs[..k] + xs[k + 1..]
  }

  function Given<T>(o: Option<T>, otherwise: T): T {
    if o.Some? then o.value else otherwise
  }

  predicate Unused(g: Group, id: MemberId) {
    && (forall i :: 0 <= i < |g.contributions| ==> g.contributions[i].member != id)
    && (forall i :: 0 <= i < |g.expenses| ==> g.expenses[i].paidBy != Some(id))
    && (forall i, j :: 0 <= i < |g.settlements| && 0 <= j < |g.settlements[i].rows| ==>
      g.settlements[i].rows[j].member != id)
  }

  predicate KnownPayer(g: Group, b: BusinessId, who: Option<MemberId>) {
    who.Some? ==> HasMember(g.members, b, who.value)
  }

  /** A refused step leaves the tables as they are. */
  function Next(g: Group, step: Step): Group {
    match step
    case AddMember(b, id) =>
      if exists i :: 0 <= i < |g.members| && g.members[i].id == id then g
        else g.(members := g.members + [Member(id, b, true)])
    case SetStatus(b, id, active) =>
      var k := FindMember(g.members, b, id);
      if k.None? then g else g.(members := g.members[k.value := g.members[k.value].(active := active)])
    case DeleteMember(b, id) =>
      var k := FindMember(g.members, b, id);
      if k.None? then g
      else if Unused(g, id) then g.(members := Without(g.members, k.value))
      else g.(members := g.members[k.value := g.members[k.value].(active := false)])
    case AddContribution(b, id, day, paisa) =>
      if !HasMember(g.members, b, id) then g
      else g.(contributions := g.contributions + [Contribution(b, id, day, paisa)])
    case ChangeContribution(b, row, who, date, amount) =>
      if row >= |g.contributions| || g.contributions[row].business != b || !KnownPayer(g, b, who) then g
      else
        var c := g.contributions[row];
        g.(contributions := g.contributions[row := Contribution(b, Given(who, c.member), Given(date, c.date),
          Given(amount, c.amount))])
    case RemoveContribution(b, row) =>
      if row >= |g.contributions| || g.contributions[row].business != b then g
      else g.(contributions := Without(g.contributions, row))
    case AddExpense(b, day, paisa, who) =>
      if !KnownPayer(g, b, who) then g
      else g.(expenses := g.expenses + [Expense(b, day, paisa, who)])
    case ChangeExpense(b, row, date, amount, payer) =>
      if row >= |g.expenses| || g.expenses[row].business != b || !KnownPayer(g, b, Given(payer, None)) then g
      else
        var e := g.expenses[row];
        g.(expenses := g.expenses[row := Expense(b, Given(date, e.date), Given(amount, e.amount),
          Given(payer, e.paidBy))])
    case RemoveExpense(b, row) =>
      if row >= |g.expenses| || g.expenses[row].business != b then g
      else g.(expenses := Without(g.expenses, row))
    case Close(b, from, to) =>
      (match CloseStep(g, b, from, to) case Ok(g') => g' case Err(_) => g)
  }

  function RunSteps(g: Group, steps: seq<Step>): Group {
    if steps == [] then g else Next(RunSteps(g, steps[..|steps| - 1]), steps[|steps| - 1])
  }

  // ----- what every step keeps

  /** No two closed periods of one workspace share a day. */
  ghost predicate ClosedApart(ss: seq<Settlement>) {
    && (forall i :: 0 <= i < |ss| ==> ss[i].from <= ss[i].to)
    && (forall i, j :: 0 <= i < j < |ss| ==> !Overlap(ss[i], ss[j].business, ss[j].from, ss[j].to))
  }

  ghost predicate Snapshots(ss: seq<Settlement>) {
    forall i :: 0 <= i < |ss| ==> ss[i].memberCount > 0 && AddsUp(ss[i])
  }

  ghost predicate ContributionsLinked(g: Group) {
    forall i :: 0 <= i < |g.contributions| ==>
      HasMember(g.members, g.contributions[i].business, g.contributions[i].member)
  }

  ghost predicate GroupInv(g: Group) {
    && DistinctIds(g.members)
    && ContributionsLinked(g)
    && ClosedApart(g.settlements)
    && Snapshots(g.settlements)
  }

  predicate IsClosed(ss: seq<Settlement>, b: BusinessId, day: int) {
    exists i :: 0 <= i < |ss| && Covers(ss[i], b, day)
  }

  predicate Covers(s: Settlement, b: BusinessId, day: int) {
    s.business == b && s.from <= day <= s.to
  }

  /** A day is settled in one closed period at most. */
  lemma DayClosedOnce(g: Group, b: BusinessId, day: int, i: nat, j: nat)
    requires GroupInv(g) && i < |g.settlements| && j < |g.settlements|
    requires Covers(g.settlements[i], b, day) && Covers(g.settlements[j], b, day)
    ensures i == j
  {
    var s, t := g.settlements[i], g.settlements[j];
    assert Overlap(s, t.business, t.from, t.to) && Overlap(t, s.business, s.from, s.to);
  }

  lemma CloseKeeps(g: Group, b: BusinessId, from: int, to: int)
    requires GroupInv(g) && CloseStep(g, b, from, to).Ok?
    ensures GroupInv(CloseStep(g, b, from, to).value)
  {
    SplitAddsUp(b, from, to, g.members, Filter(g.contributions, ContributedIn(b, from, to)),
      SumBy(g.expenses, ExpenseIn(b, from, to)));
  }

  lemma StillThere(members: seq<Member>, members': seq<Member>, k: nat, j: nat)
    requires k < |members| && j < |members'| && members'[j].id == members[k].id
      && members'[j].business == members[k].business
    ensures HasMember(members', members[k].business, members[k].id)
  {
  }

  lemma MemberStepKeeps(g: Group, step: Step)
    requires GroupInv(g) && (step.AddMember? || step.SetStatus? || step.DeleteMember?)
    ensures GroupInv(Next(g, step))
  {
    var g' := Next(g, step);
    forall k | 0 <= k < |g.members| && !Unused(g, g.members[k].id)
      ensures HasMember(g'.members, g.members[k].business, g.members[k].id)
    {
      var j := if |g'.members| < |g.members| && k > FindMember(g.members, step.b, step.id).value then k - 1 else k;
      StillThere(g.members, g'.members, k, j);
    }
  }

  lemma StepKeepsGroup(g: Group, step: Step)
    requires GroupInv(g)
    ensures GroupInv(Next(g, step))
  {
    match step
    case AddMember(_, _) => MemberStepKeeps(g, step);
    case SetStatus(_, _, _) => MemberStepKeeps(g, step);
    case DeleteMember(_, _) => MemberStepKeeps(g, step);
    case Close(b, from, to) =>
      if CloseStep(g, b, from, to).Ok? {
        CloseKeeps(g, b, from, to);
      }
    case _ =>
  }

  /** Over every run of edits and closes, closed periods stay disjoint, closed rows add up, and no
      contribution loses its member. */
  lemma {:induction false} RunKeepsGroup(g: Group, steps: seq<Step>)
    requires GroupInv(g)
    ensures GroupInv(RunSteps(g, steps))
  {
    if steps != [] {
      RunKeepsGroup(g, steps[..|steps| - 1]);
      StepKeepsGroup(RunSteps(g, steps[..|steps| - 1]), steps[|steps| - 1]);
    }
  }

  /** In any reachable state, what a settlement shows as owed and owing is the group's money: net
      contributions of the period minus its expenses. */
  lemma SettlementBalances(g: Group, b: BusinessId, from: int, to: int)
    requires GroupInv(g) && SettlementFor(g, b, from, to).memberCount > 0
    ensures SumBy(SettlementFor(g, b, from, to).rows, BalanceOf()) ==
      SumBy(Filter(g.contributions, ContributedIn(b, from, to)), Amount()) - SumBy(g.expenses, ExpenseIn(b, from, to))
  {
    var cs := Filter(g.contributions, ContributedIn(b, from, to));
    forall i | 0 <= i < |cs|
      ensures HasMember(g.members, b, cs[i].member)
    {
      FilterMember(g.contributions, ContributedIn(b, from, to), cs[i]);
      var k :| 0 <= k < |g.contributions| && g.contributions[k] == cs[i];
      assert HasMember(g.members, g.contributions[k].business, g.contributions[k].member);
    }
    BalancesAddUp(b, from, to, g.members, cs, SumBy(g.expenses, ExpenseIn(b, from, to)));
  }

  // ----- expenses settled exactly once

  function TotalIn(b: BusinessId): Settlement -> int {
    (s: Settlement) => if s.business == b then s.total else 0
  }

  function OnClosedDay(ss: seq<Settlement>, b: BusinessId): Expense -> int {
    (e: Expense) => if e.business == b && IsClosed(ss, b, e.date) then e.amount else 0
  }

  /** What the closed settlements charged, beyond the expenses now dated in closed periods. */
  function Drift(g: Group, b: BusinessId): int {
    SumBy(g.settlements, TotalIn(b)) - SumBy(g.expenses, OnClosedDay(g.settlements, b))
  }

  /** How much an edit adds to the expenses dated in closed periods. */
  function ClosedEffect(g: Group, step: Step, b: BusinessId): int {
    var on := OnClosedDay(g.settlements, b);
    match step
    case AddExpense(w, day, paisa, who) => if KnownPayer(g, w, who) then on(Expense(w, day, paisa, who)) else 0
    case ChangeExpense(_, row, _, _,
      _) => if row < |g.expenses| then on(Next(g, step).expenses[row]) - on(g.expenses[row]) else 0
    case RemoveExpense(w, row) => if row < |g.expenses| && g.expenses[row].business == w then -on(g.expenses[row])
      else 0
    case _ => 0
  }

  lemma IsClosedSnoc(ss: seq<Settlement>, s: Settlement, b: BusinessId, day: int)
    ensures IsClosed(ss + [s], b, day) <==> IsClosed(ss, b, day) || Covers(s, b, day)
  {
    if IsClosed(ss, b, day) {
      var i :| 0 <= i < |ss| && Covers(ss[i], b, day);
      assert Covers((ss + [s])[i], b, day);
    }
    if Covers(s, b, day) {
      assert Covers((ss + [s])[|ss|], b, day);
    }
  }

  lemma CloseDrift(g: Group, w: BusinessId, from: int, to: int, b: BusinessId)
    requires GroupInv(g) && CloseStep(g, w, from, to).Ok?
    ensures Drift(CloseStep(g, w, from, to).value, b) == Drift(g, b)
  {
    var s := SettlementFor(g, w, from, to);
    var ss := g.settlements;
    SumSnoc(ss, s, TotalIn(b));
    var c := if b == w then 1 else 0;
    forall k | 0 <= k < |g.expenses|
      ensures OnClosedDay(ss + [s], b)(g.expenses[k]) ==
        OnClosedDay(ss, b)(g.expenses[k]) + c * ExpenseIn(w, from, to)(g.expenses[k])
    {
      var day := g.expenses[k].date;
      IsClosedSnoc(ss, s, b, day);
    }
    SumLinear(g.expenses, OnClosedDay(ss, b), ExpenseIn(w, from, to), OnClosedDay(ss + [s], b), c);
  }

  /** Closing settles each expense of the period once; only edits to expenses on closed days move the
      closed totals and the expenses apart, and by exactly the amount edited. */
  lemma StepDrift(g: Group, step: Step, b: BusinessId)
    requires GroupInv(g)
    ensures Drift(Next(g, step), b) == Drift(g, b) - ClosedEffect(g, step, b)
  {
    var on := OnClosedDay(g.settlements, b);
    match step
    case AddExpense(w, day, paisa, who) => SumSnoc(g.expenses, Expense(w, day, paisa, who), on);
    case ChangeExpense(w, row, _, _, _) =>
      if row < |g.expenses| && Next(g, step) != g {
        SumUpdate(g.expenses, row, Next(g, step).expenses[row], on);
      }
    case RemoveExpense(w, row) =>
      if row < |g.expenses| {
        SumRemove(g.expenses, row, on);
      }
    case Close(w, from, to) =>
      if CloseStep(g, w, from, to).Ok? {
        CloseDrift(g, w, from, to, b);
      }
    case _ =>
  }

  function Effects(g: Group, steps: seq<Step>, b: BusinessId): int {
    if steps == [] then 0
    else Effects(g, steps[..|steps| - 1], b) + ClosedEffect(RunSteps(g, steps[..|steps| - 1]), steps[|steps| - 1], b)
  }

  /** Over a whole run the closed totals keep agreeing with the expenses dated in closed periods exactly when
      the edits made on days already closed cancel out. */
  lemma {:induction false} RunDrift(g: Group, steps: seq<Step>, b: BusinessId)
    requires GroupInv(g)
    ensures Drift(RunSteps(g, steps), b) == Drift(g, b) - Effects(g, steps, b)
    ensures Drift(g, b) == 0 ==> (Drift(RunSteps(g, steps), b) == 0 <==> Effects(g, steps, b) == 0)
  {
    if steps != [] {
      RunDrift(g, steps[..|steps| - 1], b);
      RunKeepsGroup(g, steps[..|steps| - 1]);
      StepDrift(RunSteps(g, steps[..|steps| - 1]), steps[|steps| - 1], b);
    }
  }

  // ----- what a settlement shows, read off the tables

  /** What a member put in, less what they took out, from the first day to the last, both included. */
  function PutIn(b: BusinessId, m: MemberId, from: int, to: int): Contribution -> int {
    (c: Contribution) => if c.business == b && c.member == m && from <= c.date && c.date <= to then c.amount else 0
  }

  function Deposits(b: BusinessId, m: MemberId, from: int, to: int): Contribution -> int {
    (c: Contribution) => if c.business == b && c.member == m && from <= c.date && c.date <= to then Max(0, c.amount)
      else 0
  }

  function Returns(b: BusinessId, m: MemberId, from: int, to: int): Contribution -> int {
    (c: Contribution) => if c.business == b && c.member == m && from <= c.date && c.date <= to then Max(0, -c.amount)
      else 0
  }

  function Spent(b: BusinessId, from: int, to: int): Expense -> int {
    (e: Expense) => if e.business == b && from <= e.date && e.date <= to then e.amount else 0
  }

  function ActiveIn(b: BusinessId): Member -> int {
    (m: Member) => if m.business == b && m.active then 1 else 0
  }

  lemma {:induction false} CountActive(members: seq<Member>, b: BusinessId)
    ensures |Filter(members, IsActive(b))| == SumBy(members, ActiveIn(b))
  {
    if members != [] {
      CountActive(members[..|members| - 1], b);
    }
  }

  lemma PeriodSums(contributions: seq<Contribution>, b: BusinessId, m: MemberId, from: int, to: int)
    ensures var cs := Filter(contributions, ContributedIn(b, from, to));
      && SumBy(cs, DepositOf(m)) == SumBy(contributions, Deposits(b, m, from, to))
      && SumBy(cs, ReturnOf(m)) == SumBy(contributions, Returns(b, m, from, to))
  {
    var p := ContributedIn(b, from, to);
    SumFilter(contributions, p, DepositOf(m));
    SumFilter(contributions, p, ReturnOf(m));
    SumCong(contributions, If(p, DepositOf(m)), Deposits(b, m, from, to));
    SumCong(contributions, If(p, ReturnOf(m)), Returns(b, m, from, to));
  }

  lemma NetIsDepositsLessReturns(contributions: seq<Contribution>, b: BusinessId, m: MemberId, from: int, to: int)
    ensures SumBy(contributions, PutIn(b, m, from, to)) ==
      SumBy(contributions, Deposits(b, m, from, to)) - SumBy(contributions, Returns(b, m, from, to))
  {
    SumLinear(contributions, Deposits(b, m, from, to), Returns(b, m, from, to), PutIn(b, m, from, to), -1);
  }

  /** Total, head count and share are the tables' own: all the workspace spent in the period, its active
      members, and the total divided by them, rounded down. */
  lemma SettlementFigures(g: Group, b: BusinessId, from: int, to: int)
    ensures var s := SettlementFor(g, b, from, to);
      && s.business == b && s.from == from && s.to == to
      && s.total == SumBy(g.expenses, Spent(b, from, to))
      && s.memberCount == SumBy(g.members, ActiveIn(b))
      && (s.memberCount > 0 ==> s.perMemberShare == s.total / s.memberCount)
      && (s.memberCount == 0 ==> s.perMemberShare == 0 && s.rows == [])
  {
    CountActive(g.members, b);
    SumCong(g.expenses, ExpenseIn(b, from, to), Spent(b, from, to));
  }

  /** Every row is a member of the workspace with the deposits and returns they made in the period, first and
      last day included, and a balance of what they put in less their share. */
  lemma RowIsMembersMoney(g: Group, b: BusinessId, from: int, to: int, i: nat)
    requires i < |SettlementFor(g, b, from, to).rows|
    ensures var s := SettlementFor(g, b, from, to); var row := s.rows[i];
      && HasMember(g.members, b, row.member)
      && row.deposited == SumBy(g.contributions, Deposits(b, row.member, from, to))
      && row.returned == SumBy(g.contributions, Returns(b, row.member, from, to))
      && row.contributed == SumBy(g.contributions, PutIn(b, row.member, from, to))
      && row.share == (if i + 1 < s.memberCount then s.total / s.memberCount
                       else if i + 1 == s.memberCount then s.total / s.memberCount + s.total % s.memberCount else 0)
      && row.balance == row.contributed - row.share
  {
    var s := SettlementFor(g, b, from, to);
    var m := RowAt(g, b, from, to, i);
    PeriodSums(g.contributions, b, m, from, to);
    NetIsDepositsLessReturns(g.contributions, b, m, from, to);
    RemainderIs(s.total, s.memberCount);
  }

  lemma RowAt(g: Group, b: BusinessId, from: int, to: int, i: nat) returns (m: MemberId)
    requires i < |SettlementFor(g, b, from, to).rows|
    ensures HasMember(g.members, b, m)
    ensures var s, cs := SettlementFor(g, b, from, to), Filter(g.contributions, ContributedIn(b, from, to));
      && s.memberCount > 0 && |s.rows| == |People(g.members, b, cs)| && m == People(g.members, b, cs)[i].id
      && s.rows[i] == RowFor(m, TotalsFor(cs, m), ShareAt(s.total, s.memberCount)(i))
  {
    var cs := Filter(g.contributions, ContributedIn(b, from, to));
    m := People(g.members, b, cs)[i].id;
    PersonIsMember(g.members, b, cs, i);
  }

  lemma PersonIsMember(members: seq<Member>, b: BusinessId, cs: seq<Contribution>, i: nat)
    requires i < |People(members, b, cs)|
    ensures HasMember(members, b, People(members, b, cs)[i].id)
    ensures People(members, b, cs)[i].active <==> i < |Filter(members, IsActive(b))|
  {
    var m := People(members, b, cs)[i];
    FilterMember(members, IsActive(b), m);
    FilterMember(members, IsFormer(b, cs), m);
    if i < |Filter(members, IsActive(b))| {
      assert m in Filter(members, IsActive(b));
    } else {
      assert m in Filter(members, IsFormer(b, cs));
    }
  }

  predicate HasRow(s: Settlement, m: MemberId) {
    exists i :: 0 <= i < |s.rows| && s.rows[i].member == m
  }

  predicate TookPart(c: Contribution, b: BusinessId, m: MemberId, from: int, to: int) {
    c.business == b && c.member == m && from <= c.date <= to
  }

  /** A member has a row exactly when they are active or took part in the period. */
  lemma HasRowIff(g: Group, b: BusinessId, from: int, to: int, k: nat)
    requires DistinctIds(g.members) && k < |g.members| && g.members[k].business == b
    requires SettlementFor(g, b, from, to).memberCount > 0
    ensures HasRow(SettlementFor(g, b, from, to), g.members[k].id) <==>
      g.members[k].active || exists c | c in g.contributions :: TookPart(c, b, g.members[k].id, from, to)
  {
    var m, s := g.members[k], SettlementFor(g, b, from, to);
    var cs := Filter(g.contributions, ContributedIn(b, from, to));
    var people := People(g.members, b, cs);
    FilterMember(g.members, IsActive(b), m);
    FilterMember(g.members, IsFormer(b, cs), m);
    assert m in g.members;
    forall c
      ensures c in cs <==> c in g.contributions && ContributedIn(b, from, to)(c)
    {
      FilterMember(g.contributions, ContributedIn(b, from, to), c);
    }
    if HasRow(s, m.id) {
      var i :| 0 <= i < |s.rows| && s.rows[i].member == m.id;
      var id := RowAt(g, b, from, to, i);
      PersonIsThatMember(g.members, b, cs, i, k);
    }
    if m in people {
      var i :| 0 <= i < |people| && people[i] == m;
      var id := RowAt(g, b, from, to, i);
    }
    if c :| c in g.contributions && TookPart(c, b, m.id, from, to) {
      assert c in cs;
    }
  }

  lemma PersonIsThatMember(members: seq<Member>, b: BusinessId, cs: seq<Contribution>, i: nat, k: nat)
    requires DistinctIds(members) && i < |People(members, b, cs)| && k < |members|
    requires People(members, b, cs)[i].id == members[k].id
    ensures People(members, b, cs)[i] == members[k]
    ensures members[k] in Filter(members, IsActive(b)) || members[k] in Filter(members, IsFormer(b, cs))
  {
    var m := People(members, b, cs)[i];
    assert m in Filter(members, IsActive(b)) + Filter(members, IsFormer(b, cs));
    FilterMember(members, IsActive(b), m);
    FilterMember(members, IsFormer(b, cs), m);
    var j :| 0 <= j < |members| && members[j] == m;
  }

  /** The active members' rows come in the order they joined, so what rounding leaves over falls to the one who
      joined last. */
  lemma RowsInJoinOrder(g: Group, b: BusinessId, from: int, to: int, i: nat, j: nat) returns (k: nat, l: nat)
    requires i < j < SettlementFor(g, b, from, to).memberCount
    ensures var s := SettlementFor(g, b, from, to);
      && k < l < |g.members| && j < |s.rows|
      && g.members[k].id == s.rows[i].member && g.members[l].id == s.rows[j].member
      && g.members[k].active && g.members[l].active && g.members[k].business == b && g.members[l].business == b
  {
    var active := Filter(g.members, IsActive(b));
    k := KeptAt(g.members, IsActive(b), i);
    l := KeptAt(g.members, IsActive(b), j);
    if l <= k {
      FilterGrows(g.members, IsActive(b), l, k);
    }
    var x := RowAt(g, b, from, to, i);
    var y := RowAt(g, b, from, to, j);
    FilterMember(g.members, IsActive(b), active[i]);
    FilterMember(g.members, IsActive(b), active[j]);
  }

  function OnCoveredDay(s: Settlement, b: BusinessId): Contribution -> int {
    (c: Contribution) => if c.business == b && Covers(s, b, c.date) then c.amount else 0
  }

  /** Nobody's contribution is lost or counted twice: the rows together hold the workspace's contributions of
      the days the period covers. */
  lemma RowsHoldThePeriod(g: Group, b: BusinessId, from: int, to: int)
    requires GroupInv(g) && SettlementFor(g, b, from, to).memberCount > 0
    ensures var s := SettlementFor(g, b, from, to);
      SumBy(s.rows, NetContribution()) == SumBy(g.contributions, OnCoveredDay(s, b))
  {
    var s, p := SettlementFor(g, b, from, to), ContributedIn(b, from, to);
    SettlementBalances(g, b, from, to);
    SplitAddsUp(b, from, to, g.members, Filter(g.contributions, p), SumBy(g.expenses, ExpenseIn(b, from, to)));
    SumFilter(g.contributions, p, Amount());
    SumCong(g.contributions, If(p, Amount()), OnCoveredDay(s, b));
  }

  /** A period is closed exactly when it does not end before it starts, lies wholly before or after every
      closed one of the workspace, and there is an active member. */
  lemma CloseAcceptedIff(g: Group, b: BusinessId, from: int, to: int)
    ensures CloseStep(g, b, from, to).Ok? <==>
      && from <= to
      && (forall s | s in g.settlements && s.business == b :: to < s.from || s.to < from)
      && exists m | m in g.members :: m.business == b && m.active
    ensures CloseStep(g, b, from, to).Ok? ==>
      CloseStep(g, b, from, to).value == g.(settlements := g.settlements + [SettlementFor(g, b, from, to)])
  {
    var active := Filter(g.members, IsActive(b));
    forall m
      ensures m in active <==> m in g.members && m.business == b && m.active
    {
      FilterMember(g.members, IsActive(b), m);
    }
    if active != [] {
      assert active[0] in active;
    }
    assert AnyOverlap(g.settlements, b, from, to) <==>
      exists s | s in g.settlements :: Overlap(s, b, from, to);
  }

  /** Which refusal a close is answered with. */
  lemma CloseRefusals(g: Group, b: BusinessId, from: int, to: int)
    ensures var r := CloseStep(g, b, from, to);
      && (r == Err(EndsBeforeStart) <==> to < from)
      && (r == Err(Overlaps) <==>
        from <= to && exists s | s in g.settlements :: s.business == b && s.from <= to && from <= s.to)
      && (r == Err(NoActiveMembers) ==> forall m | m in g.members && m.business == b :: !m.active)
  {
    CloseAcceptedIff(g, b, from, to);
    assert AnyOverlap(g.settlements, b, from, to) <==>
      exists s | s in g.settlements :: Overlap(s, b, from, to);
    forall m
      ensures m in Filter(g.members, IsActive(b)) <==> m in g.members && m.business == b && m.active
    {
      FilterMember(g.members, IsActive(b), m);
    }
  }

  // ----- what an edit does

  function Within(amount: int, date: int, from: int, to: int): int {
    if from <= date && date <= to then amount else 0
  }

  /** What an edit does to a member's figure for a period: what was added, what changed in the fields that
      were sent, or what was removed, in the workspace the edit was made in. */
  function ContributionEffect(g: Group, step: Step, b: BusinessId, m: MemberId, from: int, to: int): int {
    match step
    case AddContribution(w, id, day, paisa) =>
      if HasMember(g.members, w, id) && w == b && id == m then Within(paisa, day, from, to) else 0
    case ChangeContribution(w, row, who, date, amount) =>
      if row >= |g.contributions| || g.contributions[row].business != w || w != b then 0
      else if who.Some? && !HasMember(g.members, w, who.value) then 0
      else
        var c := g.contributions[row];
        var now := if (if who.Some? then who.value else c.member) != m then 0
          else Within(if amount.Some? then amount.value else c.amount, if date.Some? then date.value
            else c.date, from, to);
        now - (if c.member != m then 0 else Within(c.amount, c.date, from, to))
    case RemoveContribution(w, row) =>
      if row >= |g.contributions| || g.contributions[row].business != w || w != b then 0
      else if g.contributions[row].member != m then 0
      else -Within(g.contributions[row].amount, g.contributions[row].date, from, to)
    case _ => 0
  }

  lemma ContributionChanged(g: Group, step: Step, b: BusinessId, m: MemberId, from: int, to: int)
    requires step.ChangeContribution?
    ensures var f := PutIn(b, m, from, to);
      SumBy(Next(g, step).contributions, f) == SumBy(g.contributions, f) + ContributionEffect(g, step, b, m, from, to)
  {
    var f := PutIn(b, m, from, to);
    if step.row < |g.contributions| && g.contributions[step.row].business == step.b && KnownPayer(g, step.b, step.who) {
      SumUpdate(g.contributions, step.row, Next(g, step).contributions[step.row], f);
    }
  }

  lemma ContributionRemoved(g: Group, step: Step, b: BusinessId, m: MemberId, from: int, to: int)
    requires step.RemoveContribution?
    ensures var f := PutIn(b, m, from, to);
      SumBy(Next(g, step).contributions, f) == SumBy(g.contributions, f) + ContributionEffect(g, step, b, m, from, to)
  {
    if step.row < |g.contributions| {
      SumRemove(g.contributions, step.row, PutIn(b, m, from, to));
    }
  }

  lemma ContributionEdits(g: Group, step: Step, b: BusinessId, m: MemberId, from: int, to: int)
    ensures var f := PutIn(b, m, from, to);
      SumBy(Next(g, step).contributions, f) == SumBy(g.contributions, f) + ContributionEffect(g, step, b, m, from, to)
  {
    match step
    case AddContribution(w, id, day, paisa) =>
      SumSnoc(g.contributions, Contribution(w, id, day, paisa), PutIn(b, m, from, to));
    case ChangeContribution(_, _, _, _, _) => ContributionChanged(g, step, b, m, from, to);
    case RemoveContribution(_, _) => ContributionRemoved(g, step, b, m, from, to);
    case _ =>
  }

  /** The same for what the workspace spent; an expense's payer must be a member if there is one. */
  function ExpenseEffect(g: Group, step: Step, b: BusinessId, from: int, to: int): int {
    match step
    case AddExpense(w, day, paisa, who) =>
      if (who.Some? ==> HasMember(g.members, w, who.value)) && w == b then Within(paisa, day, from, to) else 0
    case ChangeExpense(w, row, date, amount, payer) =>
      if row >= |g.expenses| || g.expenses[row].business != w || w != b then 0
      else if payer.Some? && payer.value.Some? && !HasMember(g.members, w, payer.value.value) then 0
      else
        var e := g.expenses[row];
        Within(if amount.Some? then amount.value else e.amount, if date.Some? then date.value else e.date, from, to)
        - Within(e.amount, e.date, from, to)
    case RemoveExpense(w, row) =>
      if row >= |g.expenses| || g.expenses[row].business != w || w != b then 0
      else -Within(g.expenses[row].amount, g.expenses[row].date, from, to)
    case _ => 0
  }

  lemma ExpenseChanged(g: Group, step: Step, b: BusinessId, from: int, to: int)
    requires step.ChangeExpense?
    ensures SumBy(Next(g, step).expenses, Spent(b, from, to)) ==
      SumBy(g.expenses, Spent(b, from, to)) + ExpenseEffect(g, step, b, from, to)
  {
    if step.row < |g.expenses| && g.expenses[step.row].business == step.b
      && KnownPayer(g, step.b, Given(step.payer, None))
    {
      SumUpdate(g.expenses, step.row, Next(g, step).expenses[step.row], Spent(b, from, to));
    }
  }

  lemma ExpenseRemoved(g: Group, step: Step, b: BusinessId, from: int, to: int)
    requires step.RemoveExpense?
    ensures SumBy(Next(g, step).expenses, Spent(b, from, to)) ==
      SumBy(g.expenses, Spent(b, from, to)) + ExpenseEffect(g, step, b, from, to)
  {
    if step.row < |g.expenses| {
      SumRemove(g.expenses, step.row, Spent(b, from, to));
    }
  }

  lemma ExpenseEdits(g: Group, step: Step, b: BusinessId, from: int, to: int)
    ensures SumBy(Next(g, step).expenses, Spent(b, from, to)) ==
      SumBy(g.expenses, Spent(b, from, to)) + ExpenseEffect(g, step, b, from, to)
  {
    match step
    case AddExpense(w, day, paisa, who) => SumSnoc(g.expenses, Expense(w, day, paisa, who), Spent(b, from, to));
    case ChangeExpense(_, _, _, _, _) => ExpenseChanged(g, step, b, from, to);
    case RemoveExpense(_, _) => ExpenseRemoved(g, step, b, from, to);
    case _ =>
  }

  /** Everybody an expense or a closed settlement names is still a member. */
  ghost predicate PeopleKnown(g: Group) {
    && (forall i :: 0 <= i < |g.expenses| ==> KnownPayer(g, g.expenses[i].business, g.expenses[i].paidBy))
    && (forall i, j :: 0 <= i < |g.settlements| && 0 <= j < |g.settlements[i].rows| ==>
      HasMember(g.members, g.settlements[i].business, g.settlements[i].rows[j].member))
  }

  lemma StepKeepsPeople(g: Group, step: Step)
    requires GroupInv(g) && PeopleKnown(g)
    ensures PeopleKnown(Next(g, step))
  {
    match step
    case AddMember(_, _) => MemberStepKeepsPeople(g, step);
    case SetStatus(_, _, _) => MemberStepKeepsPeople(g, step);
    case DeleteMember(_, _) => MemberStepKeepsPeople(g, step);
    case Close(b, from, to) =>
      if CloseStep(g, b, from, to).Ok? {
        forall j | 0 <= j < |SettlementFor(g, b, from, to).rows|
          ensures HasMember(g.members, b, SettlementFor(g, b, from, to).rows[j].member)
        {
          var m := RowAt(g, b, from, to, j);
        }
      }
    case _ =>
  }

  lemma MemberStepKeepsPeople(g: Group, step: Step)
    requires GroupInv(g) && PeopleKnown(g) && (step.AddMember? || step.SetStatus? || step.DeleteMember?)
    ensures PeopleKnown(Next(g, step))
  {
    var g' := Next(g, step);
    forall k | 0 <= k < |g.members| && !Unused(g, g.members[k].id)
      ensures HasMember(g'.members, g.members[k].business, g.members[k].id)
    {
      var j := if |g'.members| < |g.members| && k > FindMember(g.members, step.b, step.id).value then k - 1 else k;
      StillThere(g.members, g'.members, k, j);
    }
  }

  /** So over every run nobody who ever paid, put money in or was settled disappears. */
  lemma {:induction false} RunKeepsPeople(g: Group, steps: seq<Step>)
    requires GroupInv(g) && PeopleKnown(g)
    ensures PeopleKnown(RunSteps(g, steps))
  {
    if steps != [] {
      RunKeepsPeople(g, steps[..|steps| - 1]);
      RunKeepsGroup(g, steps[..|steps| - 1]);
      StepKeepsPeople(RunSteps(g, steps[..|steps| - 1]), steps[|steps| - 1]);
    }
  }

  /** Whether someone is a member of the workspace, and an active one. */
  ghost predicate Stands(g: Group, b: BusinessId, m: MemberId, active: bool) {
    exists i :: 0 <= i < |g.members| && g.members[i] == Member(m, b, active)
  }

  /** Members join active, are switched on and off, and are deleted only when nothing names them; somebody
      who is named is switched off instead. No other step, and no step on anybody else, changes who stands. */
  lemma MemberEdits(g: Group, step: Step, b: BusinessId, m: MemberId, active: bool)
    requires DistinctIds(g.members)
    ensures Stands(Next(g, step), b, m, active) <==> match step
      case AddMember(w, id) =>
        Stands(g, b, m, active) || (w == b && id == m && active && forall x | x in g.members :: x.id != id)
      case SetStatus(w, id, on) =>
        if w == b && id == m && HasMember(g.members, b, m) then active == on else Stands(g, b, m, active)
      case DeleteMember(w, id) =>
        if w == b && id == m && HasMember(g.members, b, m) then !active && !Unused(g, m) else Stands(g, b, m, active)
      case _ => Stands(g, b, m, active)
  {
    var g' := Next(g, step);
    match step
    case AddMember(w, id) =>
      if g' != g && Stands(g, b, m, active) {
        var i :| 0 <= i < |g.members| && g.members[i] == Member(m, b, active);
        assert g'.members[i] == Member(m, b, active);
      }
      if g' != g && w == b && id == m && active {
        assert g'.members[|g.members|] == Member(m, b, active);
      }
    case SetStatus(w, id, on) => SwitchedStands(g, g', w, id, on, b, m, active);
    case DeleteMember(w, id) =>
      if HasMember(g.members, w, id) && Unused(g, id) {
        DeletedStands(g, g', w, id, b, m, active);
      } else {
        SwitchedStands(g, g', w, id, false, b, m, active);
      }
    case _ =>
  }

  lemma SwitchedStands(g: Group, g': Group, w: BusinessId, id: MemberId, on: bool, b: BusinessId, m: MemberId,
      active: bool)
    requires DistinctIds(g.members)
    requires var k := FindMember(g.members, w, id);
      g'.members == if k.None? then g.members else g.members[k.value := g.members[k.value].(active := on)]
    ensures Stands(g', b, m, active) <==>
      if w == b && id == m && HasMember(g.members, b, m) then active == on else Stands(g, b, m, active)
  {
    var k := FindMember(g.members, w, id);
    if k.Some? {
      assert g'.members[k.value] == Member(id, w, on);
      forall i | 0 <= i < |g.members| && i != k.value
        ensures g'.members[i] == g.members[i] && g.members[i].id != id
      {
      }
    }
  }

  lemma DeletedStands(g: Group, g': Group, w: BusinessId, id: MemberId, b: BusinessId, m: MemberId, active: bool)
    requires DistinctIds(g.members) && FindMember(g.members, w, id).Some?
    requires g'.members == Without(g.members, FindMember(g.members, w, id).value)
    ensures Stands(g', b, m, active) <==> Stands(g, b, m, active) && !(w == b && id == m)
  {
    WithoutHas(g.members, FindMember(g.members, w, id).value, Member(m, b, active));
    if Stands(g, b, m, active) {
      var i :| 0 <= i < |g.members| && g.members[i] == Member(m, b, active);
      assert g.members[i] in g.members;
    }
    if Stands(g', b, m, active) {
      var i :| 0 <= i < |g'.members| && g'.members[i] == Member(m, b, active);
      assert g'.members[i] in g'.members;
    }
  }

  /** Deleting one row of distinct ids keeps exactly the others. */
  lemma WithoutHas(members: seq<Member>, k: nat, x: Member)
    requires DistinctIds(members) && k < |members|
    ensures x in Without(members, k) <==> x in members && x.id != members[k].id
  {
    if x in members && x.id != members[k].id {
      var i :| 0 <= i < |members| && members[i] == x;
      assert Without(members, k)[if i < k then i else i - 1] == x;
    }
    if x in Without(members, k) {
      var j :| 0 <= j < |Without(members, k)| && Without(members, k)[j] == x;
      assert members[if j < k then j else j + 1] == x;
    }
  }

  // ----- an expense edited after its period was closed

  const EMPTY_GROUP := Group([], [], [], [])

  /** One member joins, pays 100 on day 1, and days 0 to 2 are closed. */
  const CLOSED_PERIOD := [AddMember(0, 0), AddExpense(0, 1, 100, Some(0)), Close(0, 0, 2)]

  /** The same expense is then made 300. */
  const LATE_EDIT := ChangeExpense(0, 0, None, Some(300), None)

  lemma OneMoreStep(g: Group, steps: seq<Step>, step: Step)
    ensures RunSteps(g, steps + [step]) == Next(RunSteps(g, steps), step)
  {
    assert (steps + [step])[..|steps|] == steps;
  }

  lemma BeforeClosing()
    ensures RunSteps(EMPTY_GROUP, CLOSED_PERIOD[..2]) ==
      Group([Member(0, 0, true)], [], [Expense(0, 1, 100, Some(0))], [])
  {
    var joined := Next(EMPTY_GROUP, CLOSED_PERIOD[0]);
    assert joined.members == [Member(0, 0, true)];
    assert joined.members[0] == Member(0, 0, true);
    assert HasMember(joined.members, 0, 0);
    assert CLOSED_PERIOD[..2] == [] + [CLOSED_PERIOD[0]] + [CLOSED_PERIOD[1]];
    OneMoreStep(EMPTY_GROUP, [], CLOSED_PERIOD[0]);
    OneMoreStep(EMPTY_GROUP, [] + [CLOSED_PERIOD[0]], CLOSED_PERIOD[1]);
  }

  ghost predicate AboutToClose(g: Group) {
    g == Group([Member(0, 0, true)], [], [Expense(0, 1, 100, Some(0))], [])
  }

  lemma NothingClosedYet(g: Group)
    requires AboutToClose(g)
    ensures Drift(g, 0) == 0
  {
    SumZero(g.expenses, OnClosedDay([], 0));
  }

  lemma ClosesOnce(g: Group)
    requires AboutToClose(g)
    ensures CloseStep(g, 0, 0, 2).Ok?
  {
    FilterMember(g.members, IsActive(0), g.members[0]);
    assert !AnyOverlap(g.settlements, 0, 0, 2);
  }

  lemma AcceptedClose(g: Group, w: BusinessId, from: int, to: int)
    requires GroupInv(g) && CloseStep(g, w, from, to).Ok?
    ensures var g' := Next(g, Close(w, from, to));
      g'.expenses == g.expenses && g'.settlements == g.settlements + [SettlementFor(g, w, from, to)]
        && Drift(g', w) == Drift(g, w)
  {
    CloseDrift(g, w, from, to, w);
  }

  lemma EditsLate(g: Group, closed: Group)
    requires AboutToClose(g) && GroupInv(g) && CloseStep(g, 0, 0, 2).Ok? && closed == Next(g, Close(0, 0, 2))
    ensures Drift(Next(closed, LATE_EDIT), 0) == Drift(closed, 0) - 200
  {
    StepKeepsGroup(g, Close(0, 0, 2));
    AcceptedClose(g, 0, 0, 2);
    assert Covers(closed.settlements[0], 0, 1);
    StepDrift(closed, LATE_EDIT, 0);
  }

  lemma EditDriftsAfterClosing(g: Group)
    requires AboutToClose(g) && GroupInv(g)
    ensures var closed := Next(g, Close(0, 0, 2)); Drift(closed, 0) == 0 && Drift(Next(closed, LATE_EDIT), 0) == -200
  {
    NothingClosedYet(g);
    ClosesOnce(g);
    AcceptedClose(g, 0, 0, 2);
    EditsLate(g, Next(g, Close(0, 0, 2)));
  }

  lemma RunToClosed()
    ensures RunSteps(EMPTY_GROUP, CLOSED_PERIOD) == Next(RunSteps(EMPTY_GROUP, CLOSED_PERIOD[..2]), Close(0, 0, 2))
  {
    assert CLOSED_PERIOD[..2] + [CLOSED_PERIOD[2]] == CLOSED_PERIOD;
    OneMoreStep(EMPTY_GROUP, CLOSED_PERIOD[..2], CLOSED_PERIOD[2]);
  }

  /** From an empty group: closed totals and expenses agree after the closing and disagree after the edit. */
  lemma EditedAfterClosing()
    ensures GroupInv(EMPTY_GROUP)
    ensures Drift(RunSteps(EMPTY_GROUP, CLOSED_PERIOD), 0) == 0
    ensures Drift(RunSteps(EMPTY_GROUP, CLOSED_PERIOD + [LATE_EDIT]), 0) == -200
  {
    BeforeClosing();
    RunKeepsGroup(EMPTY_GROUP, CLOSED_PERIOD[..2]);
    EditDriftsAfterClosing(RunSteps(EMPTY_GROUP, CLOSED_PERIOD[..2]));
    RunToClosed();
    OneMoreStep(EMPTY_GROUP, CLOSED_PERIOD, LATE_EDIT);
  }
}
