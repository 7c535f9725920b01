/** The chart of accounts: who sits under whom, and what creating, moving, archiving and removing keep. */
module Forest {
  import opened Base
  import opened Ledger

  datatype Node = Node(
    business: BusinessId,
    kind: AccountType,
    subtype: Option<string>,
    system: bool,
    archived: bool,
    parent: Option<AccountId>
  )

  /** `used` holds the accounts some posting has an entry on. */
  datatype Chart = Chart(nodes: map<AccountId, Node>, used: set<AccountId>)

  datatype ChartError =
    | NotFound | ReservedSubtype | SubtypeLocked | OwnParent | ParentNotFound | ParentOfOtherType
    | UnderOwnChild | InternalAccount | HasChildren | ParentArchived

  /** Absent fields of an update keep what the account has. */
  datatype Step =
    | Create(b: BusinessId, id: AccountId, kind: AccountType, subtype: Option<string>, parent: Option<AccountId>)
    | Update(b: BusinessId, id: AccountId, newSubtype: Option<Option<string>>, newParent: Option<Option<AccountId>>)
    | Archive(b: BusinessId, id: AccountId)
    | Unarchive(b: BusinessId, id: AccountId)
    | Remove(b: BusinessId, id: AccountId)
    | Use(id: AccountId)

  const FIXED_ASSETS_SUBTYPE := "fixed-assets"
  const RESERVED_SUBTYPES: seq<string> := ["receivable", "payable", FIXED_ASSETS_SUBTYPE, REFERRAL_BONUS_INCOME_SUBTYPE]

  predicate IsReserved(subtype: Option<string>) {
    subtype.Some? && subtype.value in RESERVED_SUBTYPES
  }

  predicate ReservedSystem(n: Node) {
    n.system && IsReserved(n.subtype)
  }

  predicate PooledSavings(n: Node) {
    n.system && n.kind.Asset? && n.subtype == Some(SAVINGS_SUBTYPE)
  }

  predicate Owns(nodes: map<AccountId, Node>, b: BusinessId, id: AccountId) {
    id in nodes && nodes[id].business == b
  }

  predicate HasChild(nodes: map<AccountId, Node>, id: AccountId) {
    exists x | x in nodes :: nodes[x].parent == Some(id)
  }

  predicate HasActiveChild(nodes: map<AccountId, Node>, id: AccountId) {
    exists x | x in nodes :: nodes[x].parent == Some(id) && !nodes[x].archived
  }

  // ----- walking up

  function ParentOf(nodes: map<AccountId, Node>, x: Option<AccountId>): Option<AccountId> {
    if x.Some? && x.value in nodes then nodes[x.value].parent else None
  }

  /** The account `n` levels up, if the walk gets that far. */
  function Up(nodes: map<AccountId, Node>, x: Option<AccountId>, n: nat): Option<AccountId> {
    if n == 0 then x else ParentOf(nodes, Up(nodes, x, n - 1))
  }

  /** `id` is `x` itself or one of its ancestors. */
  ghost predicate Above(nodes: map<AccountId, Node>, id: AccountId, x: AccountId) {
    exists n: nat :: Up(nodes, Some(x), n) == Some(id)
  }

  /** The walk up from `x` ends. */
  ghost predicate Ends(nodes: map<AccountId, Node>, x: AccountId) {
    exists n: nat :: Up(nodes, Some(x), n) == None
  }

  ghost predicate Acyclic(nodes: map<AccountId, Node>) {
    forall x | x in nodes :: Ends(nodes, x)
  }

  predicate ParentsExist(nodes: map<AccountId, Node>) {
    forall x | x in nodes :: nodes[x].parent.Some? ==> nodes[x].parent.value in nodes
  }

  /** Parents are of the same workspace and type. */
  predicate Alike(nodes: map<AccountId, Node>)
    requires ParentsExist(nodes)
  {
    forall x | x in nodes && nodes[x].parent.Some? :: SameKind(nodes[nodes[x].parent.value], nodes[x])
  }

  predicate SameKind(m: Node, n: Node) {
    m.business == n.business && m.kind == n.kind
  }

  lemma {:induction false} UpShift(nodes: map<AccountId, Node>, x: Option<AccountId>, n: nat)
    ensures Up(nodes, x, n + 1) == Up(nodes, ParentOf(nodes, x), n)
  {
    if n > 0 {
      UpShift(nodes, x, n - 1);
    }
  }

  lemma {:induction false} UpStaysNone(nodes: map<AccountId, Node>, x: Option<AccountId>, m: nat, n: nat)
    requires m <= n && Up(nodes, x, m) == None
    ensures Up(nodes, x, n) == None
  {
    if m < n {
      UpStaysNone(nodes, x, m, n - 1);
    }
  }

  lemma EndsAbove(nodes: map<AccountId, Node>, x: AccountId)
    requires x in nodes
    requires nodes[x].parent.Some? ==> Ends(nodes, nodes[x].parent.value)
    ensures Ends(nodes, x)
  {
    if nodes[x].parent.Some? {
      var n: nat :| Up(nodes, nodes[x].parent, n) == None;
      UpShift(nodes, Some(x), n);
    } else {
      assert Up(nodes, Some(x), 1) == ParentOf(nodes, Up(nodes, Some(x), 0));
    }
  }

  /** A walk that comes back to where it was goes round forever. */
  lemma {:induction false} LoopRepeats(nodes: map<AccountId, Node>, x: Option<AccountId>, i: nat, j: nat, n: nat)
      returns (k: nat)
    requires i < j && Up(nodes, x, i) == Up(nodes, x, j)
    ensures k < j && Up(nodes, x, n) == Up(nodes, x, k)
  {
    if n < j {
      k := n;
    } else {
      k := LoopRepeats(nodes, x, i, j, n - 1);
      if k + 1 < j {
        k := k + 1;
      } else {
        k := i;
      }
    }
  }

  /** `seen` is what the first `n` accounts of the walk from `p` are, and `id` is not among them. */
  ghost predicate Walked(nodes: map<AccountId, Node>, p: AccountId, seen: set<AccountId>, n: nat, id: AccountId) {
    && seen <= nodes.Keys
    && (forall k: nat :: k < n ==> Up(nodes, Some(p), k).Some? && Up(nodes, Some(p), k).value in seen)
    && (forall y | y in seen :: y != id && SeenWithin(nodes, p, n, y))
  }

  ghost predicate SeenWithin(nodes: map<AccountId, Node>, p: AccountId, n: nat, y: AccountId) {
    exists k: nat :: k < n && Up(nodes, Some(p), k) == Some(y)
  }

  lemma WalkedOneMore(nodes: map<AccountId, Node>, p: AccountId, seen: set<AccountId>, n: nat, id: AccountId)
    requires Walked(nodes, p, seen, n, id)
    requires var top := Up(nodes, Some(p), n); top.Some? && top.value in nodes && top.value != id
    ensures Walked(nodes, p, seen + {Up(nodes, Some(p), n).value}, n + 1, id)
  {
    forall y | y in seen
      ensures SeenWithin(nodes, p, n + 1, y)
    {
      assert SeenWithin(nodes, p, n, y);
      var k: nat :| k < n && Up(nodes, Some(p), k) == Some(y);
    }
    assert SeenWithin(nodes, p, n + 1, Up(nodes, Some(p), n).value);
  }

  lemma WalkedAll(nodes: map<AccountId, Node>, p: AccountId, seen: set<AccountId>, n: nat, id: AccountId)
    requires Walked(nodes, p, seen, n, id)
    requires var top := Up(nodes, Some(p), n); top.Some? ==> top.value in seen
    ensures !Above(nodes, id, p)
  {
    forall m: nat
      ensures Up(nodes, Some(p), m) != Some(id)
    {
      var top := Up(nodes, Some(p), n);
      if m >= n {
        if top.None? {
          UpStaysNone(nodes, Some(p), n, m);
        } else {
          assert SeenWithin(nodes, p, n, top.value);
          var i: nat :| i < n && Up(nodes, Some(p), i) == top;
          var k := LoopRepeats(nodes, Some(p), i, n, m);
        }
      }
    }
  }

  /** Walking up from the new parent, stopping at the top or at an account already seen: the measure is the
      number of accounts not seen. It refuses exactly when the account itself is above its new parent. */
  method RefuseParentCycle(nodes: map<AccountId, Node>, id: AccountId, parentId: AccountId) returns (refused: bool)
    requires ParentsExist(nodes) && parentId in nodes
    ensures refused <==> Above(nodes, id, parentId)
  {
    var seen := {};
    var current := Some(parentId);
    ghost var n: nat := 0;
    while current.Some? && current.value !in seen
      invariant current == Up(nodes, Some(parentId), n)
      invariant current.Some? ==> current.value in nodes
      invariant Walked(nodes, parentId, seen, n, id)
      decreases nodes.Keys - seen
    {
      if current.value == id {
        return true;
      }
      WalkedOneMore(nodes, parentId, seen, n, id);
      seen := seen + {current.value};
      current := nodes[current.value].parent;
      n := n + 1;
    }
    WalkedAll(nodes, parentId, seen, n, id);
    return false;
  }

  // ----- the steps

  function CheckParent(nodes: map<AccountId, Node>, b: BusinessId, parentId: AccountId,
      kind: AccountType): Option<ChartError> {
    if !Owns(nodes, b, parentId) then Some(ParentNotFound)
    else if nodes[parentId].kind != kind then Some(ParentOfOtherType)
    else None
  }

  function CheckCreate(nodes: map<AccountId, Node>, b: BusinessId, kind: AccountType, subtype: Option<string>,
      parent: Option<AccountId>): Option<ChartError> {
    if IsReserved(subtype) then Some(ReservedSubtype)
    else if parent.Some? then CheckParent(nodes, b, parent.value, kind)
    else None
  }

  predicate Retypes(n: Node, newSubtype: Option<Option<string>>) {
    newSubtype.Some? && newSubtype.value != n.subtype
  }

  predicate ParentIsArchived(nodes: map<AccountId, Node>, n: Node) {
    n.parent.Some? && n.parent.value in nodes && nodes[n.parent.value].archived
  }

  ghost function CheckUpdate(nodes: map<AccountId, Node>, b: BusinessId, id: AccountId,
      newSubtype: Option<Option<string>>, newParent: Option<Option<AccountId>>): Option<ChartError> {
    if !Owns(nodes, b, id) then Some(NotFound)
    else if Retypes(nodes[id], newSubtype) && ReservedSystem(nodes[id]) then Some(SubtypeLocked)
    else if Retypes(nodes[id], newSubtype) && IsReserved(newSubtype.value) then Some(ReservedSubtype)
    else if newParent.Some? && newParent.value.Some? then CheckMove(nodes, b, id, newParent.value.value)
    else None
  }

  ghost function CheckMove(nodes: map<AccountId, Node>, b: BusinessId, id: AccountId, p: AccountId): Option<ChartError>
    requires id in nodes
  {
    if p == id then Some(OwnParent)
    else if CheckParent(nodes, b, p, nodes[id].kind).Some? then CheckParent(nodes, b, p, nodes[id].kind)
    else if Above(nodes, id, p) then Some(UnderOwnChild)
    else None
  }

  function CheckArchive(nodes: map<AccountId, Node>, b: BusinessId, id: AccountId): Option<ChartError> {
    if !Owns(nodes, b, id) then Some(NotFound)
    else if PooledSavings(nodes[id]) || ReservedSystem(nodes[id]) then Some(InternalAccount)
    else if HasActiveChild(nodes, id) then Some(HasChildren)
    else None
  }

  function CheckUnarchive(nodes: map<AccountId, Node>, b: BusinessId, id: AccountId): Option<ChartError> {
    if !Owns(nodes, b, id) then Some(NotFound)
    else if nodes[id].archived && ParentIsArchived(nodes, nodes[id]) then Some(ParentArchived)
    else None
  }

  function CheckRemove(nodes: map<AccountId, Node>, b: BusinessId, id: AccountId): Option<ChartError> {
    if !Owns(nodes, b, id) then Some(NotFound)
    else if PooledSavings(nodes[id]) || ReservedSystem(nodes[id]) then Some(InternalAccount)
    else if HasChild(nodes, id) then Some(HasChildren)
    else None
  }

  function Updated(n: Node, newSubtype: Option<Option<string>>, newParent: Option<Option<AccountId>>): Node {
    var m := if newSubtype.Some? then n.(subtype := newSubtype.value) else n;
    if newParent.Some? then m.(parent := newParent.value) else m
  }

  ghost function Check(c: Chart, step: Step): Option<ChartError> {
    match step
    case Create(b, _, kind, subtype, parent) => CheckCreate(c.nodes, b, kind, subtype, parent)
    case Update(b, id, newSubtype, newParent) => CheckUpdate(c.nodes, b, id, newSubtype, newParent)
    case Archive(b, id) => CheckArchive(c.nodes, b, id)
    case Unarchive(b, id) => CheckUnarchive(c.nodes, b, id)
    case Remove(b, id) => CheckRemove(c.nodes, b, id)
    case Use(id) => if id in c.nodes then None else Some(NotFound)
  }

  /** What an accepted step does. A new account's id is one no account has. */
  ghost function Apply(c: Chart, step: Step): Chart
    requires Check(c, step).None?
  {
    match step
    case Create(b, id, kind, subtype, parent) =>
      if id in c.nodes then c else c.(nodes := c.nodes[id := Node(b, kind, subtype, false, false, parent)])
    case Update(b, id, newSubtype, newParent) => c.(nodes := c.nodes[id := Updated(c.nodes[id], newSubtype, newParent)])
    case Archive(b, id) => c.(nodes := c.nodes[id := c.nodes[id].(archived := true)])
    case Unarchive(b, id) => c.(nodes := c.nodes[id := c.nodes[id].(archived := false)])
    case Remove(b, id) =>
      if id in c.used then c.(nodes := c.nodes[id := c.nodes[id].(archived := true)])
      else c.(nodes := c.nodes - {id})
    case Use(id) => c.(used := c.used + {id})
  }

  ghost function Next(c: Chart, step: Step): Chart {
    if Check(c, step).Some? then c else Apply(c, step)
  }

  ghost function RunSteps(c: Chart, steps: seq<Step>): Chart {
    if steps == [] then c else Next(RunSteps(c, steps[..|steps| - 1]), steps[|steps| - 1])
  }

  // ----- what every step keeps

  ghost predicate ForestInv(c: Chart) {
    && ParentsExist(c.nodes)
    && Alike(c.nodes)
    && Acyclic(c.nodes)
    && (forall x | x in c.nodes && IsReserved(c.nodes[x].subtype) :: c.nodes[x].system)
  }

  /** Where the parent stayed the same the walk goes on as before, so it still ends. */
  lemma {:induction false} EndsStill(nodes: map<AccountId, Node>, nodes': map<AccountId, Node>, x: AccountId, n: nat)
    requires ParentsExist(nodes) && ParentsExist(nodes')
    requires forall y | y in nodes && y in nodes' :: nodes'[y].parent == nodes[y].parent || Ends(nodes', y)
    requires x in nodes && x in nodes' && Up(nodes, Some(x), n) == None
    ensures Ends(nodes', x)
    decreases n
  {
    if nodes'[x].parent == nodes[x].parent {
      if nodes[x].parent.Some? && n > 0 {
        UpShift(nodes, Some(x), n - 1);
        EndsStill(nodes, nodes', nodes[x].parent.value, n - 1);
      }
      EndsAbove(nodes', x);
    }
  }

  lemma AcyclicStill(nodes: map<AccountId, Node>, nodes': map<AccountId, Node>)
    requires Acyclic(nodes) && ParentsExist(nodes) && ParentsExist(nodes')
    requires forall y | y in nodes && y in nodes' :: nodes'[y].parent == nodes[y].parent || Ends(nodes', y)
    requires forall y | y in nodes' && y !in nodes :: nodes'[y].parent.Some? ==> nodes'[y].parent.value in nodes
    ensures Acyclic(nodes')
  {
    forall x | x in nodes' && x in nodes
      ensures Ends(nodes', x)
    {
      var n: nat :| Up(nodes, Some(x), n) == None;
      EndsStill(nodes, nodes', x, n);
    }
    forall x | x in nodes' && x !in nodes
      ensures Ends(nodes', x)
    {
      EndsAbove(nodes', x);
    }
  }

  /** Away from the moved account the walk up from its new parent is what it was. */
  lemma {:induction false} UpUnmoved(nodes: map<AccountId, Node>, nodes': map<AccountId, Node>, id: AccountId,
      p: AccountId, n: nat)
    requires !Above(nodes, id, p) && nodes'.Keys == nodes.Keys
    requires forall y | y in nodes && y != id :: nodes'[y].parent == nodes[y].parent
    ensures Up(nodes', Some(p), n) == Up(nodes, Some(p), n)
  {
    if n > 0 {
      UpUnmoved(nodes, nodes', id, p, n - 1);
      assert Up(nodes, Some(p), n - 1) != Some(id);
    }
  }

  lemma MoveKeepsAcyclic(nodes: map<AccountId, Node>, id: AccountId, n: Node)
    requires ParentsExist(nodes) && Acyclic(nodes) && id in nodes
    requires n.parent.Some? ==>
      n.parent.value in nodes && (n.parent == nodes[id].parent || !Above(nodes, id, n.parent.value))
    ensures Acyclic(nodes[id := n])
  {
    var nodes' := nodes[id := n];
    if n.parent.Some? && n.parent != nodes[id].parent {
      var p := n.parent.value;
      assert Ends(nodes, p);
      var k: nat :| Up(nodes, Some(p), k) == None;
      UpUnmoved(nodes, nodes', id, p, k);
    }
    if n.parent != nodes[id].parent {
      EndsAbove(nodes', id);
    }
    AcyclicStill(nodes, nodes');
  }

  lemma UpdateKeeps(c: Chart, step: Step)
    requires ForestInv(c) && step.Update? && Check(c, step).None?
    ensures ForestInv(Apply(c, step))
  {
    var n := Updated(c.nodes[step.id], step.newSubtype, step.newParent);
    MoveKeepsAcyclic(c.nodes, step.id, n);
  }

  lemma RemoveKeeps(c: Chart, step: Step)
    requires ForestInv(c) && step.Remove? && Check(c, step).None?
    ensures ForestInv(Apply(c, step))
  {
    AcyclicStill(c.nodes, Apply(c, step).nodes);
  }

  lemma StepKeepsForest(c: Chart, step: Step)
    requires ForestInv(c)
    ensures ForestInv(Next(c, step))
  {
    if Check(c, step).None? {
      match step
      case Create(_, _, _, _, _) => AcyclicStill(c.nodes, Apply(c, step).nodes);
      case Update(_, _, _, _) => UpdateKeeps(c, step);
      case Archive(_, _) => AcyclicStill(c.nodes, Apply(c, step).nodes);
      case Unarchive(_, _) => AcyclicStill(c.nodes, Apply(c, step).nodes);
      case Remove(_, _) => RemoveKeeps(c, step);
      case Use(_) =>
    }
  }

  /** Over every run the chart stays a forest: every walk up ends, parents are of the same workspace and
      type, and only system accounts carry a reserved subtype. */
  lemma {:induction false} RunKeepsForest(c: Chart, steps: seq<Step>)
    requires ForestInv(c)
    ensures ForestInv(RunSteps(c, steps))
  {
    if steps != [] {
      RunKeepsForest(c, steps[..|steps| - 1]);
      StepKeepsForest(RunSteps(c, steps[..|steps| - 1]), steps[|steps| - 1]);
    }
  }

  /** An account that is above itself never ends its walk. */
  lemma RoundAndRound(nodes: map<AccountId, Node>, id: AccountId, n: nat)
    requires Up(nodes, Some(id), n + 1) == Some(id)
    ensures !Ends(nodes, id)
  {
    forall m: nat
      ensures Up(nodes, Some(id), m) != None
    {
      var k := LoopRepeats(nodes, Some(id), 0, n + 1, m);
      if Up(nodes, Some(id), k) == None {
        UpStaysNone(nodes, Some(id), k, n + 1);
      }
    }
  }

  lemma LoopMade(nodes: map<AccountId, Node>, id: AccountId, p: AccountId)
    requires id in nodes && Above(nodes, id, p)
    ensures !Ends(nodes[id := nodes[id].(parent := Some(p))], id)
  {
    var nodes' := nodes[id := nodes[id].(parent := Some(p))];
    var n := FirstMeeting(nodes, id, p);
    SameUntil(nodes, nodes', id, p, n);
    UpShift(nodes', Some(id), n);
    RoundAndRound(nodes', id, n);
  }

  /** A move is refused for making a loop exactly when it would make one. */
  lemma MoveRefusedIff(nodes: map<AccountId, Node>, id: AccountId, p: AccountId)
    requires ParentsExist(nodes) && Acyclic(nodes) && id in nodes && p in nodes
    ensures Above(nodes, id, p) <==> !Acyclic(nodes[id := nodes[id].(parent := Some(p))])
  {
    if Above(nodes, id, p) {
      LoopMade(nodes, id, p);
    } else {
      MoveKeepsAcyclic(nodes, id, nodes[id].(parent := Some(p)));
    }
  }

  lemma FirstMeeting(nodes: map<AccountId, Node>, id: AccountId, p: AccountId) returns (n: nat)
    requires Above(nodes, id, p)
    ensures Up(nodes, Some(p), n) == Some(id)
    ensures forall k: nat :: k < n ==> Up(nodes, Some(p), k) != Some(id)
  {
    var top: nat :| Up(nodes, Some(p), top) == Some(id);
    n := 0;
    while Up(nodes, Some(p), n) != Some(id)
      invariant n <= top
      invariant forall k: nat :: k < n ==> Up(nodes, Some(p), k) != Some(id)
      decreases top - n
    {
      n := n + 1;
    }
  }

  lemma {:induction false} SameUntil(nodes: map<AccountId, Node>, nodes': map<AccountId, Node>, id: AccountId,
      p: AccountId, n: nat)
    requires nodes'.Keys == nodes.Keys
    requires forall y | y in nodes && y != id :: nodes'[y].parent == nodes[y].parent
    requires forall k: nat :: k < n ==> Up(nodes, Some(p), k) != Some(id)
    ensures Up(nodes', Some(p), n) == Up(nodes, Some(p), n)
  {
    if n > 0 {
      SameUntil(nodes, nodes', id, p, n - 1);
    }
  }

  // ----- archived parents

  /** No active account sits under an archived one. */
  ghost predicate ActiveUnderActive(nodes: map<AccountId, Node>)
    requires ParentsExist(nodes)
  {
    forall x | x in nodes && nodes[x].parent.Some? && !nodes[x].archived :: !nodes[nodes[x].parent.value].archived
  }

  /** The two ways in: creating under an archived parent, and moving an active account under one. */
  predicate PlacesUnderArchived(c: Chart, step: Step) {
    match step
    case Create(_, id, _, _, parent) => id !in c.nodes && parent.Some? && parent.value in c.nodes
      && c.nodes[parent.value].archived
    case Update(_, id, _, newParent) =>
      && id in c.nodes && !c.nodes[id].archived
      && newParent.Some? && newParent.value.Some?
      && newParent.value.value in c.nodes && c.nodes[newParent.value.value].archived
    case _ => false
  }

  /** Creating and moving do not look at the parent's status, so an accepted step keeps active accounts out
      from under archived ones exactly when it is not one of those two. */
  lemma ArchivedParentsIff(c: Chart, step: Step)
    requires ForestInv(c) && ActiveUnderActive(c.nodes) && Check(c, step).None?
    ensures ForestInv(Apply(c, step))
    ensures ActiveUnderActive(Apply(c, step).nodes) <==> !PlacesUnderArchived(c, step)
  {
    StepKeepsForest(c, step);
    var nodes' := Apply(c, step).nodes;
    if PlacesUnderArchived(c, step) {
      assert step.id in nodes' && nodes'[step.id].parent.Some? && !nodes'[step.id].archived;
    }
  }

  const EMPTY_CHART := Chart(map[], {})
  const ARCHIVED_TOP := Chart(map[0 := Node(0, Asset, None, false, true, None)], {})
  const TOP_THEN_ARCHIVE: seq<Step> := [Create(0, 0, Asset, None, None), Archive(0, 0)]

  lemma OneMoreStep(c: Chart, steps: seq<Step>, x: Step)
    ensures RunSteps(c, steps + [x]) == Next(RunSteps(c, steps), x)
  {
    assert (steps + [x])[..|steps|] == steps;
  }

  lemma ArchivedTopIsReached()
    ensures RunSteps(EMPTY_CHART, TOP_THEN_ARCHIVE) == ARCHIVED_TOP
  {
    var top, gone := Create(0, 0, Asset, None, None), Archive(0, 0);
    assert TOP_THEN_ARCHIVE == ([] + [top]) + [gone];
    OneMoreStep(EMPTY_CHART, [], top);
    OneMoreStep(EMPTY_CHART, [] + [top], gone);
    assert Next(EMPTY_CHART, top).nodes == map[0 := Node(0, Asset, None, false, false, None)];
    assert Next(Next(EMPTY_CHART, top), gone).nodes == ARCHIVED_TOP.nodes;
  }

  /** Both ways in are open: from an empty chart, an archived account gets a new child ... */
  lemma ChildUnderArchivedIsReached()
    ensures ForestInv(EMPTY_CHART) && ActiveUnderActive(EMPTY_CHART.nodes)
    ensures var c := RunSteps(EMPTY_CHART, TOP_THEN_ARCHIVE + [Create(0, 1, Asset, None, Some(0))]);
      ForestInv(c) && !ActiveUnderActive(c.nodes)
  {
    var child := Create(0, 1, Asset, None, Some(0));
    RunKeepsForest(EMPTY_CHART, TOP_THEN_ARCHIVE);
    ArchivedTopIsReached();
    OneMoreStep(EMPTY_CHART, TOP_THEN_ARCHIVE, child);
    assert PlacesUnderArchived(ARCHIVED_TOP, child);
    ArchivedParentsIff(ARCHIVED_TOP, child);
  }

  /** ... or an existing one. */
  lemma MoveUnderArchivedIsReached()
    ensures var c := RunSteps(EMPTY_CHART,
      TOP_THEN_ARCHIVE + [Create(0, 1, Asset, None, None)] + [Update(0, 1, None, Some(Some(0)))]);
      ForestInv(c) && !ActiveUnderActive(c.nodes)
  {
    var loose, move := Create(0, 1, Asset, None, None), Update(0, 1, None, Some(Some(0)));
    RunKeepsForest(EMPTY_CHART, TOP_THEN_ARCHIVE + [loose]);
    ArchivedTopIsReached();
    OneMoreStep(EMPTY_CHART, TOP_THEN_ARCHIVE, loose);
    OneMoreStep(EMPTY_CHART, TOP_THEN_ARCHIVE + [loose], move);
    var c := RunSteps(EMPTY_CHART, TOP_THEN_ARCHIVE + [loose]);
    assert c.nodes == ARCHIVED_TOP.nodes[1 := Node(0, Asset, None, false, false, None)];
    RootIsNotUnder(c.nodes, 0, 1);
    assert PlacesUnderArchived(c, move);
    ArchivedParentsIff(c, move);
  }

  lemma RootIsNotUnder(nodes: map<AccountId, Node>, x: AccountId, id: AccountId)
    requires x in nodes && nodes[x].parent.None? && id != x
    ensures !Above(nodes, id, x)
  {
    forall n: nat
      ensures Up(nodes, Some(x), n) != Some(id)
    {
      if n > 0 {
        UpStaysNone(nodes, Some(x), 1, n);
      }
    }
  }

  /** A reserved system account is never removed, archived, or given another subtype. */
  lemma ReservedStays(c: Chart, step: Step, x: AccountId)
    requires x in c.nodes && ReservedSystem(c.nodes[x])
    ensures x in Next(c, step).nodes && ReservedSystem(Next(c, step).nodes[x])
    ensures Next(c, step).nodes[x].subtype == c.nodes[x].subtype
    ensures !c.nodes[x].archived ==> !Next(c, step).nodes[x].archived
  {
  }

  // ----- the pooled savings account

  /** The pooled account is there, still the pooled one, and active. */
  predicate PoolGuarded(c: Chart, id: AccountId) {
    id in c.nodes && PooledSavings(c.nodes[id]) && !c.nodes[id].archived
  }

  /** An accepted update that gives the account another subtype. */
  ghost predicate Unpools(c: Chart, step: Step, id: AccountId) {
    && step.Update? && step.id == id && Check(c, step).None?
    && step.newSubtype.Some? && step.newSubtype.value != Some(SAVINGS_SUBTYPE)
  }

  ghost predicate Revives(c: Chart, step: Step, id: AccountId) {
    step.Unarchive? && step.id == id && Check(c, step).None? && c.nodes[id].archived
  }

  /** A step leaves the pooled account where and what it is exactly when it neither changes its subtype nor
      brings it back from the archive. */
  lemma PooledSavingsStaysIff(c: Chart, step: Step, id: AccountId)
    requires id in c.nodes && PooledSavings(c.nodes[id])
    ensures var c' := Next(c, step);
      id in c'.nodes && PooledSavings(c'.nodes[id]) && c'.nodes[id].archived == c.nodes[id].archived
      <==> !Unpools(c, step, id) && !Revives(c, step, id)
  {
  }

  ghost predicate UnpooledAt(c: Chart, steps: seq<Step>, id: AccountId, i: nat) {
    i < |steps| && Unpools(RunSteps(c, steps[..i]), steps[i], id)
  }

  /** While no update has changed its subtype, no run gets an active pooled account archived or removed. */
  lemma {:induction false} PoolStaysGuarded(c: Chart, steps: seq<Step>, id: AccountId)
    requires PoolGuarded(c, id)
    requires forall i: nat :: !UnpooledAt(c, steps, id, i)
    ensures PoolGuarded(RunSteps(c, steps), id)
  {
    if steps != [] {
      var n := |steps| - 1;
      forall i: nat
        ensures !UnpooledAt(c, steps[..n], id, i)
      {
        assert i < n ==> steps[..n][..i] == steps[..i];
        assert !UnpooledAt(c, steps, id, i);
      }
      PoolStaysGuarded(c, steps[..n], id);
      assert !UnpooledAt(c, steps, id, n);
      PooledSavingsStaysIff(RunSteps(c, steps[..n]), steps[n], id);
    }
  }

  /** Over every run, the pooled account stops being there, pooled and active at some point exactly when
      some step was an update of its subtype; so it is archived or removed only after one. */
  lemma PoolLostIff(c: Chart, steps: seq<Step>, id: AccountId)
    requires PoolGuarded(c, id)
    ensures (exists i: nat :: i <= |steps| && !PoolGuarded(RunSteps(c, steps[..i]), id)) <==>
      exists i: nat :: UnpooledAt(c, steps, id, i)
  {
    if i: nat :| UnpooledAt(c, steps, id, i) {
      assert steps[..i + 1][..i] == steps[..i];
      assert !PoolGuarded(RunSteps(c, steps[..i + 1]), id);
    }
    if i: nat :| i <= |steps| && !PoolGuarded(RunSteps(c, steps[..i]), id) {
      if forall j: nat :: !UnpooledAt(c, steps, id, j) {
        forall j: nat
          ensures !UnpooledAt(c, steps[..i], id, j)
        {
          assert j < i ==> steps[..i][..j] == steps[..j];
          assert !UnpooledAt(c, steps, id, j);
        }
        PoolStaysGuarded(c, steps[..i], id);
      }
    }
  }

  /** And an update of the subtype is always enough: the account can then be archived by anyone who may
      archive an account without active children. */
  lemma PooledSavingsCanBeArchived(c: Chart, b: BusinessId, id: AccountId)
    requires Owns(c.nodes, b, id) && PooledSavings(c.nodes[id]) && !HasActiveChild(c.nodes, id)
    ensures Check(c, Archive(b, id)) == Some(InternalAccount)
    ensures var unpool := Update(b, id, Some(None), None);
      var c' := RunSteps(c, [unpool, Archive(b, id)]);
      Unpools(c, unpool, id) && id in c'.nodes && c'.nodes[id].archived
  {
    var unpool, archive := Update(b, id, Some(None), None), Archive(b, id);
    assert [unpool, archive] == ([] + [unpool]) + [archive];
    OneMoreStep(c, [], unpool);
    OneMoreStep(c, [] + [unpool], archive);
    var c' := Next(c, unpool);
    assert c'.nodes[id] == c.nodes[id].(subtype := None);
    assert !HasActiveChild(c'.nodes, id);
  }

  // ----- what a caller sees

  predicate Reserved(subtype: Option<string>) {
    subtype in {Some("receivable"), Some("payable"), Some("fixed-assets"), Some("referral-bonus")}
  }

  /** An account the app itself posts through, or the pooled savings account. */
  predicate Internal(n: Node) {
    n.system && (Reserved(n.subtype) || (n.kind == Asset && n.subtype == Some("savings")))
  }

  predicate FitParent(nodes: map<AccountId, Node>, b: BusinessId, p: AccountId, kind: AccountType) {
    p in nodes && nodes[p].business == b && nodes[p].kind == kind
  }

  /** Exactly which steps are accepted. A parent must be of the workspace and of the same type; moving must not
      close a loop; a subtype may not be, or stop being, a reserved one; an internal account is neither
      archived nor removed, nor is one with active children archived or one with any child removed; an
      archived account comes back only under a parent that is not archived. */
  lemma AcceptedIff(c: Chart, step: Step)
    ensures Check(c, step).None? <==> match step
      case Create(b, id, kind, subtype, parent) =>
        !Reserved(subtype) && (parent != None ==> FitParent(c.nodes, b, parent.value, kind))
      case Update(b, id, newSubtype, newParent) =>
        && id in c.nodes && c.nodes[id].business == b
        && (newSubtype != None && newSubtype.value != c.nodes[id].subtype ==>
          !Reserved(newSubtype.value) && !(c.nodes[id].system && Reserved(c.nodes[id].subtype)))
        && (newParent != None && newParent.value != None ==>
          var p := newParent.value.value;
          FitParent(c.nodes, b, p, c.nodes[id].kind) && !Above(c.nodes, id, p))
      case Archive(b, id) =>
        && id in c.nodes && c.nodes[id].business == b && !Internal(c.nodes[id])
        && !exists x | x in c.nodes :: c.nodes[x].parent == Some(id) && !c.nodes[x].archived
      case Unarchive(b, id) =>
        && id in c.nodes && c.nodes[id].business == b
        && (c.nodes[id].archived && c.nodes[id].parent != None && c.nodes[id].parent.value in c.nodes ==>
          !c.nodes[c.nodes[id].parent.value].archived)
      case Remove(b, id) =>
        && id in c.nodes && c.nodes[id].business == b && !Internal(c.nodes[id])
        && !exists x | x in c.nodes :: c.nodes[x].parent == Some(id)
      case Use(id) => id in c.nodes
  {
    ReservedIff();
    if step.Update? && step.newParent.Some? && step.newParent.value == Some(step.id) {
      assert Up(c.nodes, Some(step.id), 0) == Some(step.id);
    }
  }

  lemma ReservedIff()
    ensures forall subtype: Option<string> :: IsReserved(subtype) <==> Reserved(subtype)
  {
    forall subtype: Option<string>
      ensures IsReserved(subtype) <==> Reserved(subtype)
    {
      assert RESERVED_SUBTYPES == ["receivable", "payable", "fixed-assets", "referral-bonus"];
    }
  }

  /** What an accepted step leaves of each account. A new one is active and not a system account; an update
      changes what was sent; removing erases an account nothing was posted on and archives any other. */
  lemma EachAccount(c: Chart, step: Step, x: AccountId)
    requires Check(c, step).None? && (step.Create? ==> step.id !in c.nodes)
    ensures var after := Next(c, step);
      if x != step.id then (x in after.nodes <==> x in c.nodes) && (x in c.nodes ==> after.nodes[x] == c.nodes[x])
      else match step
        case Create(b, id, kind, subtype, parent) => id in after.nodes
          && after.nodes[id].business == b && after.nodes[id].kind == kind && after.nodes[id].subtype == subtype
          && after.nodes[id].parent == parent && !after.nodes[id].system && !after.nodes[id].archived
        case Update(b, id, newSubtype, newParent) => id in after.nodes && id in c.nodes
          && after.nodes[id].(subtype := None, parent := None) == c.nodes[id].(subtype := None, parent := None)
          && after.nodes[id].subtype == (if newSubtype != None then newSubtype.value else c.nodes[id].subtype)
          && after.nodes[id].parent == (if newParent != None then newParent.value else c.nodes[id].parent)
        case Archive(_, id) => id in after.nodes && id in c.nodes && after.nodes[id] == c.nodes[id].(archived := true)
        case Unarchive(_, id) => id in after.nodes && id in c.nodes
          && after.nodes[id] == c.nodes[id].(archived := false)
        case Remove(_, id) => id in c.nodes && (id in after.nodes <==> id in c.used)
          && (id in after.nodes ==> after.nodes[id] == c.nodes[id].(archived := true))
        case Use(id) => id in after.nodes && id in c.nodes && after.nodes[id] == c.nodes[id]
  {
  }

  /** Only using an account marks it as used, and for good. */
  lemma EachUse(c: Chart, step: Step, x: AccountId)
    ensures x in Next(c, step).used <==> x in c.used || (step == Use(x) && x in c.nodes)
  {
  }

  predicate OwnedBy(c: Chart, b: BusinessId, id: AccountId) {
    id in c.nodes && c.nodes[id].business == b
  }

  /** The account a step asks to be put under, if it does. */
  function AskedParent(step: Step): Option<AccountId> {
    if step.Create? then step.parent
    else if step.Update? && step.newParent != None then step.newParent.value
    else None
  }

  /** What each refusal means. */
  lemma Refusals(c: Chart, step: Step)
    ensures Check(c, step) == Some(NotFound) <==>
      (if step.Create? then false else if step.Use? then step.id !in c.nodes else !OwnedBy(c, step.b, step.id))
    ensures Check(c, step) == Some(ReservedSubtype) ==>
      || (step.Create? && Reserved(step.subtype))
      || (step.Update? && step.newSubtype != None && Reserved(step.newSubtype.value))
    ensures Check(c, step) == Some(SubtypeLocked) ==>
      step.Update? && step.newSubtype != None && OwnedBy(c, step.b, step.id) && Internal(c.nodes[step.id])
    ensures Check(c, step) == Some(ParentNotFound) ==>
      AskedParent(step) != None && !OwnedBy(c, step.b, AskedParent(step).value)
    ensures Check(c, step) == Some(ParentOfOtherType) ==>
      AskedParent(step) != None && OwnedBy(c, step.b, AskedParent(step).value)
    ensures Check(c, step) == Some(OwnParent) ==> step.Update? && AskedParent(step) == Some(step.id)
    ensures Check(c, step) == Some(UnderOwnChild) ==>
      step.Update? && AskedParent(step) != None && Above(c.nodes, step.id, AskedParent(step).value)
    ensures Check(c, step) == Some(InternalAccount) <==>
      (step.Archive? || step.Remove?) && OwnedBy(c, step.b, step.id) && Internal(c.nodes[step.id])
    ensures Check(c, step) == Some(HasChildren) ==>
      (step.Archive? || step.Remove?) && exists x | x in c.nodes :: c.nodes[x].parent == Some(step.id)
    ensures Check(c, step) == Some(ParentArchived) ==>
      step.Unarchive? && OwnedBy(c, step.b, step.id) && c.nodes[step.id].parent != None
  {
    ReservedIff();
  }
}
