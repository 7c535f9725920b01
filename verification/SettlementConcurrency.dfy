/** Two people closing at once: the closing's statements interleave with edits and with each other, and a
    lock per group keeps one period from being closed twice.
 */
module SettlementConcurrency {
  import opened Base
  import opened Sorting
  import opened Settlement
  import opened SettlementRuns

  /** How far a close has come; each of its reads may see a different moment of the tables. */
  datatype Stage =
    | Waiting
    | Locked
    | Checked
    | SawMembers(members: seq<Member>)
    | SawExpenses(members: seq<Member>, total: int)
    | Computed(result: Settlement)

  datatype Closing = Closing(b: BusinessId, from: int, to: int, stage: Stage)

  datatype State = State(g: Group, closings: map<nat, Closing>)

  datatype Action =
    | Begin(p: nat, b: BusinessId, from: int, to: int)
    | Advance(p: nat)
    | Abort(p: nat)
    | Edit(step: Step)

  predicate LockTaken(st: State, b: BusinessId) {
    exists q | q in st.closings :: st.closings[q].b == b && !st.closings[q].stage.Waiting?
  }

  function Moved(st: State, p: nat, c: Closing, stage: Stage): State {
    st.(closings := st.closings[p := c.(stage := stage)])
  }

  function Ended(st: State, p: nat): State {
    st.(closings := st.closings - {p})
  }

  /** The next statement of one closing; a refusal or the commit ends it and frees its lock. */
  function AdvanceOne(st: State, p: nat, c: Closing): State {
    match c.stage
    case Waiting => if LockTaken(st, c.b) then st else Moved(st, p, c, Locked)
    case Locked => if AnyOverlap(st.g.settlements, c.b, c.from, c.to) then Ended(st, p) else Moved(st, p, c, Checked)
    case Checked => Moved(st, p, c, SawMembers(st.g.members))
    case SawMembers(members) => Moved(st, p, c,
      SawExpenses(members, SumBy(st.g.expenses, ExpenseIn(c.b, c.from, c.to))))
    case SawExpenses(members, total) =>
      var result := Split(c.b, c.from, c.to, members, Filter(st.g.contributions, ContributedIn(c.b, c.from, c.to)),
        total);
      if result.memberCount == 0 then Ended(st, p) else Moved(st, p, c, Computed(result))
    case Computed(result) => Ended(st.(g := st.g.(settlements := st.g.settlements + [result])), p)
  }

  function Do(st: State, act: Action): State {
    match act
    case Begin(p, b, from, to) => if p in st.closings || to < from then st
      else st.(closings := st.closings[p := Closing(b, from, to, Waiting)])
    case Advance(p) => if p in st.closings then AdvanceOne(st, p, st.closings[p]) else st
    case Abort(p) => Ended(st, p)
    case Edit(step) => if step.Close? then st else st.(g := Next(st.g, step))
  }

  function Interleave(st: State, acts: seq<Action>): State {
    if acts == [] then st else Do(Interleave(st, acts[..|acts| - 1]), acts[|acts| - 1])
  }

  /** A closing past its check still has no overlapping settlement to fear. */
  ghost predicate Clear(g: Group, c: Closing) {
    && c.from <= c.to
    && (c.stage.Waiting? || c.stage.Locked? || !AnyOverlap(g.settlements, c.b, c.from, c.to))
    && (c.stage.Computed? ==> Ready(c))
  }

  ghost predicate Ready(c: Closing)
    requires c.stage.Computed?
  {
    var r := c.stage.result;
    r.business == c.b && r.from == c.from && r.to == c.to && r.memberCount > 0 && AddsUp(r)
  }

  ghost predicate OneLockEach(closings: map<nat, Closing>) {
    forall p, q | p in closings && q in closings && p != q && closings[p].b == closings[q].b ::
      closings[p].stage.Waiting? || closings[q].stage.Waiting?
  }

  ghost predicate Inv(st: State) {
    && GroupInv(st.g)
    && (forall p | p in st.closings :: Clear(st.g, st.closings[p]))
    && OneLockEach(st.closings)
  }

  lemma AdvanceKeeps(st: State, p: nat)
    requires Inv(st) && p in st.closings && !st.closings[p].stage.Computed?
    ensures Inv(AdvanceOne(st, p, st.closings[p]))
  {
    var c := st.closings[p];
    assert Clear(st.g, c);
    if c.stage.SawExpenses? {
      var cs := Filter(st.g.contributions, ContributedIn(c.b, c.from, c.to));
      if Split(c.b, c.from, c.to, c.stage.members, cs, c.stage.total).memberCount > 0 {
        SplitAddsUp(c.b, c.from, c.to, c.stage.members, cs, c.stage.total);
      }
    }
  }

  lemma ActionKeeps(st: State, act: Action)
    requires Inv(st)
    ensures Inv(Do(st, act))
  {
    match act
    case Advance(p) =>
      if p in st.closings {
        if st.closings[p].stage.Computed? {
        } else {
          AdvanceKeeps(st, p);
        }
      }
    case Edit(step) =>
      if !step.Close? {
        StepKeepsGroup(st.g, step);
        assert forall p | p in st.closings :: Clear(st.g, st.closings[p]);
      }
    case _ =>
  }

  /** In every interleaving of any number of closes and edits, closed periods stay disjoint and every
      closed settlement adds up, although its reads may straddle edits. */
  lemma {:induction false} InterleavingKeepsPeriodsApart(st: State, acts: seq<Action>)
    requires Inv(st)
    ensures Inv(Interleave(st, acts)) && ClosedApart(Interleave(st, acts).g.settlements)
  {
    if acts != [] {
      InterleavingKeepsPeriodsApart(st, acts[..|acts| - 1]);
      ActionKeeps(Interleave(st, acts[..|acts| - 1]), acts[|acts| - 1]);
    }
  }

  // ----- without the lock

  /** The same statements with nothing waiting for the lock. */
  function DoFreely(st: State, act: Action): State {
    if act.Advance? && act.p in st.closings && st.closings[act.p].stage.Waiting?
    then Moved(st, act.p, st.closings[act.p], Locked)
    else Do(st, act)
  }

  function InterleaveFreely(st: State, acts: seq<Action>): State {
    if acts == [] then st else DoFreely(InterleaveFreely(st, acts[..|acts| - 1]), acts[|acts| - 1])
  }

  /** Two people close the same period of the same group, taking turns statement by statement. */
  function Turns(b: BusinessId, from: int, to: int, n: nat): seq<Action> {
    if n == 0 then [Begin(0, b, from, to), Begin(1, b, from, to)]
      else Turns(b, from, to, n - 1) + [Advance(0), Advance(1)]
  }

  ghost predicate BothAt(st: State, g: Group, b: BusinessId, from: int, to: int, stage: Stage) {
    st == State(g, map[0 := Closing(b, from, to, stage), 1 := Closing(b, from, to, stage)])
  }

  lemma TwoMore(st: State, acts: seq<Action>, x: Action, y: Action)
    ensures InterleaveFreely(st, acts + [x, y]) == DoFreely(DoFreely(InterleaveFreely(st, acts), x), y)
  {
    var all := acts + [x, y];
    assert all[..|all| - 1] == acts + [x] && (acts + [x])[..|acts|] == acts;
  }

  lemma BothBegin(g: Group, b: BusinessId, from: int, to: int)
    requires from <= to
    ensures BothAt(InterleaveFreely(State(g, map[]), Turns(b, from, to, 0)), g, b, from, to, Waiting)
  {
    TwoMore(State(g, map[]), [], Begin(0, b, from, to), Begin(1, b, from, to));
    assert [] + [Begin(0, b, from, to), Begin(1, b, from, to)] == Turns(b, from, to, 0);
  }

  /** A turn of each moves both on by the same statement, which sees what the other one's sees. */
  lemma BothMove(st: State, g: Group, b: BusinessId, from: int, to: int, stage: Stage, next: Stage)
    requires BothAt(st, g, b, from, to, stage)
    requires match stage
      case Waiting => next == Locked
      case Locked => next == Checked && !AnyOverlap(g.settlements, b, from, to)
      case Checked => next == SawMembers(g.members)
      case SawMembers(members) => next == SawExpenses(members, SumBy(g.expenses, ExpenseIn(b, from, to)))
      case SawExpenses(members, total) =>
        var s := Split(b, from, to, members, Filter(g.contributions, ContributedIn(b, from, to)), total);
        s.memberCount > 0 && next == Computed(s)
      case Computed(_) => false
    ensures BothAt(DoFreely(DoFreely(st, Advance(0)), Advance(1)), g, b, from, to, next)
  {
  }

  lemma BothWrite(st: State, g: Group, b: BusinessId, from: int, to: int, s: Settlement)
    requires BothAt(st, g, b, from, to, Computed(s))
    ensures DoFreely(DoFreely(st, Advance(0)), Advance(1)).g.settlements == g.settlements + [s] + [s]
  {
  }

  lemma BothCompute(g: Group, b: BusinessId, from: int, to: int)
    requires CloseStep(g, b, from, to).Ok?
    ensures BothAt(InterleaveFreely(State(g, map[]), Turns(b, from, to, 5)), g, b, from, to,
      Computed(SettlementFor(g, b, from, to)))
  {
    var start := State(g, map[]);
    var stages := [Waiting, Locked, Checked, SawMembers(g.members),
      SawExpenses(g.members, SumBy(g.expenses, ExpenseIn(b, from, to))), Computed(SettlementFor(g, b, from, to))];
    BothBegin(g, b, from, to);
    for n := 0 to 5
      invariant BothAt(InterleaveFreely(start, Turns(b, from, to, n)), g, b, from, to, stages[n])
    {
      TwoMore(start, Turns(b, from, to, n), Advance(0), Advance(1));
      BothMove(InterleaveFreely(start, Turns(b, from, to, n)), g, b, from, to, stages[n], stages[n + 1]);
    }
  }

  /** The lock is needed. From any group and period that could be closed, two closings without it, taking
      turns, both pass the check before either writes, and the period ends up closed twice. */
  lemma WithoutTheLock(g: Group, b: BusinessId, from: int, to: int)
    requires GroupInv(g) && CloseStep(g, b, from, to).Ok?
    ensures !ClosedApart(InterleaveFreely(State(g, map[]), Turns(b, from, to, 6)).g.settlements)
  {
    BothCompute(g, b, from, to);
    TwoMore(State(g, map[]), Turns(b, from, to, 5), Advance(0), Advance(1));
    var s := SettlementFor(g, b, from, to);
    BothWrite(InterleaveFreely(State(g, map[]), Turns(b, from, to, 5)), g, b, from, to, s);
    var ss := g.settlements + [s] + [s];
    var n := |g.settlements|;
    assert Overlap(ss[n], ss[n + 1].business, ss[n + 1].from, ss[n + 1].to);
  }

  function Times(act: Action, n: nat): seq<Action> {
    if n == 0 then [] else Times(act, n - 1) + [act]
  }

  lemma OneMore(st: State, acts: seq<Action>, act: Action)
    ensures Interleave(st, acts + [act]) == Do(Interleave(st, acts), act)
  {
    assert (acts + [act])[..|acts|] == acts;
  }

  /** A closing that nobody interferes with closes the period, as the whole request does. */
  lemma AloneCloses(g: Group, b: BusinessId, from: int, to: int)
    requires CloseStep(g, b, from, to).Ok?
    ensures Interleave(State(g, map[]), [Begin(0, b, from, to)] + Times(Advance(0), 6)) ==
      State(CloseStep(g, b, from, to).value, map[])
  {
    var start, begin := State(g, map[]), [Begin(0, b, from, to)];
    var stages := [Waiting, Locked, Checked, SawMembers(g.members),
      SawExpenses(g.members, SumBy(g.expenses, ExpenseIn(b, from, to))), Computed(SettlementFor(g, b, from, to))];
    assert begin == [] + begin && begin + Times(Advance(0), 0) == begin;
    OneMore(start, [], Begin(0, b, from, to));
    for n := 0 to 5
      invariant Interleave(start, begin + Times(Advance(0), n)) == State(g, map[0 := Closing(b, from, to, stages[n])])
    {
      assert begin + Times(Advance(0), n + 1) == (begin + Times(Advance(0), n)) + [Advance(0)];
      OneMore(start, begin + Times(Advance(0), n), Advance(0));
      OneMoves(State(g, map[0 := Closing(b, from, to, stages[n])]), g, b, from, to, stages[n], stages[n + 1]);
    }
    assert begin + Times(Advance(0), 6) == (begin + Times(Advance(0), 5)) + [Advance(0)];
    OneMore(start, begin + Times(Advance(0), 5), Advance(0));
    WritesAlone(g, b, from, to);
  }

  lemma WritesAlone(g: Group, b: BusinessId, from: int, to: int)
    requires CloseStep(g, b, from, to).Ok?
    ensures Do(State(g, map[0 := Closing(b, from, to, Computed(SettlementFor(g, b, from, to)))]), Advance(0)) ==
      State(CloseStep(g, b, from, to).value, map[])
  {
    assert map[0 := Closing(b, from, to, Computed(SettlementFor(g, b, from, to)))] - {0} == map[];
  }

  lemma OneMoves(st: State, g: Group, b: BusinessId, from: int, to: int, stage: Stage, next: Stage)
    requires st == State(g, map[0 := Closing(b, from, to, stage)])
    requires match stage
      case Waiting => next == Locked
      case Locked => next == Checked && !AnyOverlap(g.settlements, b, from, to)
      case Checked => next == SawMembers(g.members)
      case SawMembers(members) => next == SawExpenses(members, SumBy(g.expenses, ExpenseIn(b, from, to)))
      case SawExpenses(members, total) =>
        var s := Split(b, from, to, members, Filter(g.contributions, ContributedIn(b, from, to)), total);
        s.memberCount > 0 && next == Computed(s)
      case Computed(_) => false
    ensures Do(st, Advance(0)) == State(g, map[0 := Closing(b, from, to, next)])
  {
  }

  /** A closing waits for its group's lock exactly while another closing of the group is past it. */
  lemma WaitsForOthersOnly(st: State, p: nat)
    requires p in st.closings && st.closings[p].stage == Waiting
    ensures Do(st, Advance(p)) ==
      if exists q | q in st.closings :: st.closings[q].b == st.closings[p].b && st.closings[q].stage != Waiting then st
      else st.(closings := st.closings[p := st.closings[p].(stage := Locked)])
  {
  }
}
