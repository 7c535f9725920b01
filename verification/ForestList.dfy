/** The nested chart listing: how often each account appears in it. */
module ForestList {
  import opened Base
  import opened Sorting
  import opened Ledger
  import opened Forest

  const TYPE_ORDER: seq<AccountType> := [Asset, Liability, Equity, Income, Expense]

  /** What the query returns: the workspace's accounts, each once, in some order. */
  ghost predicate IsListing(nodes: map<AccountId, Node>, b: BusinessId, accounts: seq<AccountId>) {
    && (forall i, j :: 0 <= i < j < |accounts| ==> accounts[i] != accounts[j])
    && (forall x :: x in accounts <==> Owns(nodes, b, x))
  }

  function IsChildOf(nodes: map<AccountId, Node>, y: AccountId): AccountId -> bool {
    (x: AccountId) => x in nodes && nodes[x].parent == Some(y)
  }

  function IsRoot(nodes: map<AccountId, Node>, accounts: seq<AccountId>): AccountId -> bool {
    (x: AccountId) => !(x in nodes && nodes[x].parent.Some? && nodes[x].parent.value in accounts)
  }

  function IsOfKind(nodes: map<AccountId, Node>, t: AccountType): AccountId -> bool {
    (x: AccountId) => x in nodes && nodes[x].kind == t
  }

  ghost predicate ListsChildren(nodes: map<AccountId, Node>, accounts: seq<AccountId>,
      children: map<AccountId, seq<AccountId>>) {
    && children.Keys == (set x | x in accounts)
    && forall y | y in children :: children[y] == Filter(accounts, IsChildOf(nodes, y))
  }

  ghost predicate FilledSoFar(nodes: map<AccountId, Node>, front: seq<AccountId>,
      children: map<AccountId, seq<AccountId>>) {
    forall y | y in children :: children[y] == Filter(front, IsChildOf(nodes, y))
  }

  ghost predicate NestedSoFar(nodes: map<AccountId, Node>, accounts: seq<AccountId>, front: seq<AccountId>,
      children: map<AccountId, seq<AccountId>>, roots: seq<AccountId>)
  {
    && children.Keys == (set x | x in accounts)
    && FilledSoFar(nodes, front, children)
    && roots == Filter(front, IsRoot(nodes, accounts))
  }

  /** Each account is pushed onto its parent's array, or becomes a root. */
  method Nest(nodes: map<AccountId, Node>, b: BusinessId, accounts: seq<AccountId>)
    returns (children: map<AccountId, seq<AccountId>>, roots: seq<AccountId>)
    requires IsListing(nodes, b, accounts)
    ensures ListsChildren(nodes, accounts, children)
    ensures roots == Filter(accounts, IsRoot(nodes, accounts))
  {
    children := map x | x in accounts :: [];
    roots := [];
    for i := 0 to |accounts|
      invariant NestedSoFar(nodes, accounts, accounts[..i], children, roots)
    {
      ListedIsThere(nodes, b, accounts, i);
      children, roots := NestNext(nodes, accounts, i, children, roots);
    }
    assert accounts[..|accounts|] == accounts;
  }

  lemma ListedIsThere(nodes: map<AccountId, Node>, b: BusinessId, accounts: seq<AccountId>, i: nat)
    requires IsListing(nodes, b, accounts) && i < |accounts|
    ensures accounts[i] in nodes
  {
    assert Owns(nodes, b, accounts[i]);
  }

  method NestNext(nodes: map<AccountId, Node>, accounts: seq<AccountId>, i: nat,
      children: map<AccountId, seq<AccountId>>, roots: seq<AccountId>)
    returns (children': map<AccountId, seq<AccountId>>, roots': seq<AccountId>)
    requires i < |accounts| && accounts[i] in nodes && NestedSoFar(nodes, accounts, accounts[..i], children, roots)
    ensures NestedSoFar(nodes, accounts, accounts[..i + 1], children', roots')
  {
    var x := accounts[i];
    assert accounts[..i + 1] == accounts[..i] + [x];
    children', roots' := children, roots;
    var parent := nodes[x].parent;
    if parent.Some? && parent.value in children {
      children' := children[parent.value := children[parent.value] + [x]];
    } else {
      roots' := roots + [x];
    }
  }

  ghost predicate GroupedByKind(nodes: map<AccountId, Node>, roots: seq<AccountId>, groups: seq<seq<AccountId>>) {
    |groups| == 5 && forall t :: 0 <= t < 5 ==> groups[t] == Filter(roots, IsOfKind(nodes, TYPE_ORDER[t]))
  }

  /** The listing: only roots at the top level, grouped by type in the standard order. */
  method List(nodes: map<AccountId, Node>, b: BusinessId, accounts: seq<AccountId>)
    returns (children: map<AccountId, seq<AccountId>>, groups: seq<seq<AccountId>>)
    requires IsListing(nodes, b, accounts)
    ensures ListsChildren(nodes, accounts, children)
    ensures GroupedByKind(nodes, Filter(accounts, IsRoot(nodes, accounts)), groups)
  {
    var roots;
    children, roots := Nest(nodes, b, accounts);
    groups := [];
    for t := 0 to |TYPE_ORDER|
      invariant |groups| == t
      invariant forall k :: 0 <= k < t ==> groups[k] == Filter(roots, IsOfKind(nodes, TYPE_ORDER[k]))
    {
      groups := groups + [Filter(roots, IsOfKind(nodes, TYPE_ORDER[t]))];
    }
  }

  // ----- counting appearances

  function One(x: AccountId): AccountId -> int {
    (y: AccountId) => if x == y then 1 else 0
  }

  /** How often `x` appears in `y`'s node when it is written out `n` levels deep. */
  function Shown(children: map<AccountId, seq<AccountId>>, x: AccountId, y: AccountId, n: nat): int
    decreases n, 0
  {
    One(x)(y) + if n == 0 || y !in children then 0 else SumBy(children[y], ShownIn(children, x, n - 1))
  }

  function ShownIn(children: map<AccountId, seq<AccountId>>, x: AccountId, n: nat): AccountId -> int
    decreases n, 1
  {
    (y: AccountId) => Shown(children, x, y, n)
  }

  /** How often `x` appears in the whole response. */
  function Appearances(children: map<AccountId, seq<AccountId>>, groups: seq<seq<AccountId>>, x: AccountId,
      n: nat): int {
    SumBy(groups, InGroup(ShownIn(children, x, n)))
  }

  function InGroup(f: AccountId -> int): seq<AccountId> -> int {
    (g: seq<AccountId>) => SumBy(g, f)
  }

  /** One account counts once among its parent's children and nowhere else. */
  lemma CountsOnce(accounts: seq<AccountId>, p: AccountId -> bool, x: AccountId)
    requires forall i, j :: 0 <= i < j < |accounts| ==> accounts[i] != accounts[j]
    requires x in accounts
    ensures SumBy(Filter(accounts, p), One(x)) == if p(x) then 1 else 0
  {
    SumFilter<AccountId>(accounts, p, One(x));
    var k :| 0 <= k < |accounts| && accounts[k] == x;
    SumSingle<AccountId>(accounts, If<AccountId>(p, One(x)), k);
  }

  /** Appearances that come through `x`'s parent, one level less deep. */
  function ViaParent(nodes: map<AccountId, Node>, children: map<AccountId, seq<AccountId>>, x: AccountId,
      n: nat): AccountId -> int {
    (y: AccountId) => if x in nodes && nodes[x].parent.Some? then Shown(children, nodes[x].parent.value, y, n) else 0
  }

  lemma SumViaParent(nodes: map<AccountId, Node>, children: map<AccountId, seq<AccountId>>, ys: seq<AccountId>,
      x: AccountId, n: nat)
    requires x in nodes
    ensures SumBy(ys, ViaParent(nodes, children, x, n)) ==
      if nodes[x].parent.Some? then SumBy(ys, ShownIn(children, nodes[x].parent.value, n)) else 0
  {
    if nodes[x].parent.Some? {
      SumCong<AccountId>(ys, ViaParent(nodes, children, x, n), ShownIn(children, nodes[x].parent.value, n));
    } else {
      SumZero<AccountId>(ys, ViaParent(nodes, children, x, n));
    }
  }

  lemma ShownAtZero(children: map<AccountId, seq<AccountId>>, ys: seq<AccountId>, x: AccountId)
    ensures SumBy(ys, ShownIn(children, x, 0)) == SumBy(ys, One(x))
  {
    SumCong<AccountId>(ys, ShownIn(children, x, 0), One(x));
  }

  ghost predicate ChildOnce(nodes: map<AccountId, Node>, kids: seq<AccountId>, x: AccountId, y: AccountId) {
    x in nodes && SumBy(kids, One(x)) == if nodes[x].parent == Some(y) then 1 else 0
  }

  ghost predicate KidsOnce(nodes: map<AccountId, Node>, accounts: seq<AccountId>,
      children: map<AccountId, seq<AccountId>>, y: AccountId) {
    && y in children
    && (forall i :: 0 <= i < |children[y]| ==> children[y][i] in accounts)
    && (forall x {:trigger ChildOnce(nodes, children[y], x, y)} :: x in accounts ==>
      ChildOnce(nodes, children[y], x, y))
  }

  /** Children arrays hold listed accounts, each in its parent's array once and in no other. */
  ghost predicate ChildrenOnce(nodes: map<AccountId, Node>, accounts: seq<AccountId>,
      children: map<AccountId, seq<AccountId>>) {
    forall y {:trigger KidsOnce(nodes, accounts, children, y)} :: y in accounts ==>
      KidsOnce(nodes, accounts, children, y)
  }

  lemma ChildrenAreOnce(nodes: map<AccountId, Node>, b: BusinessId, accounts: seq<AccountId>,
      children: map<AccountId, seq<AccountId>>)
    requires IsListing(nodes, b, accounts) && ListsChildren(nodes, accounts, children)
    ensures ChildrenOnce(nodes, accounts, children)
  {
    forall y | y in accounts
      ensures KidsOnce(nodes, accounts, children, y)
    {
      var kids := children[y];
      forall i | 0 <= i < |kids|
        ensures kids[i] in accounts
      {
        FilterMember(accounts, IsChildOf(nodes, y), kids[i]);
      }
      forall x | x in accounts
        ensures ChildOnce(nodes, kids, x, y)
      {
        assert Owns(nodes, b, x);
        CountsOnce(accounts, IsChildOf(nodes, y), x);
      }
    }
  }

  /** The last step of every path down to `x` is the one from its parent. */
  lemma {:induction false} ThroughItsParent(nodes: map<AccountId, Node>, accounts: seq<AccountId>,
      children: map<AccountId, seq<AccountId>>, x: AccountId, y: AccountId, n: nat)
    requires ChildrenOnce(nodes, accounts, children) && x in accounts && y in accounts
    ensures Shown(children, x, y, n + 1) == One(x)(y) + ViaParent(nodes, children, x, n)(y)
    decreases n
  {
    assert KidsOnce(nodes, accounts, children, y);
    var below := children[y];
    assert ChildOnce(nodes, below, x, y);
    if n == 0 {
      ShownAtZero(children, below, x);
    } else {
      forall i | 0 <= i < |below|
        ensures ShownIn(children, x, n)(below[i]) ==
          One(x)(below[i]) + 1 * ViaParent(nodes, children, x, n - 1)(below[i])
      {
        ThroughItsParent(nodes, accounts, children, x, below[i], n - 1);
      }
      SumLinear<AccountId>(below, One(x), ViaParent(nodes, children, x, n - 1), ShownIn(children, x, n), 1);
      SumViaParent(nodes, children, below, x, n - 1);
    }
  }

  lemma RootsThroughParent(nodes: map<AccountId, Node>, accounts: seq<AccountId>,
      children: map<AccountId, seq<AccountId>>, roots: seq<AccountId>, x: AccountId, n: nat)
    requires ChildrenOnce(nodes, accounts, children) && x in accounts && x in nodes
    requires forall i :: 0 <= i < |roots| ==> roots[i] in accounts
    ensures SumBy(roots, ShownIn(children, x, n + 1)) == SumBy(roots, One(x)) +
      if nodes[x].parent.Some? then SumBy(roots, ShownIn(children, nodes[x].parent.value, n)) else 0
  {
    forall i | 0 <= i < |roots|
      ensures ShownIn(children, x, n + 1)(roots[i]) == One(x)(roots[i]) + 1 * ViaParent(nodes, children, x, n)(roots[i])
    {
      ThroughItsParent(nodes, accounts, children, x, roots[i], n);
    }
    SumLinear<AccountId>(roots, One(x), ViaParent(nodes, children, x, n), ShownIn(children, x, n + 1), 1);
    SumViaParent(nodes, children, roots, x, n);
  }

  lemma RootsListed(nodes: map<AccountId, Node>, accounts: seq<AccountId>)
    ensures forall i :: 0 <= i < |Filter(accounts, IsRoot(nodes, accounts))| ==>
      Filter(accounts, IsRoot(nodes, accounts))[i] in accounts
  {
    var roots := Filter(accounts, IsRoot(nodes, accounts));
    forall i | 0 <= i < |roots|
      ensures roots[i] in accounts
    {
      FilterMember(accounts, IsRoot(nodes, accounts), roots[i]);
    }
  }

  /** The parent of a listed account is listed: it is of the same workspace. */
  ghost predicate ParentListed(nodes: map<AccountId, Node>, accounts: seq<AccountId>, x: AccountId) {
    x in nodes && (nodes[x].parent.Some? ==> nodes[x].parent.value in accounts)
  }

  ghost predicate ParentsListed(nodes: map<AccountId, Node>, accounts: seq<AccountId>) {
    forall x {:trigger ParentListed(nodes, accounts, x)} :: x in accounts ==> ParentListed(nodes, accounts, x)
  }

  ghost predicate RootOnce(nodes: map<AccountId, Node>, roots: seq<AccountId>, x: AccountId) {
    x in nodes && SumBy(roots, One(x)) == if nodes[x].parent.None? then 1 else 0
  }

  ghost predicate RootsOnce(nodes: map<AccountId, Node>, accounts: seq<AccountId>, roots: seq<AccountId>) {
    && (forall i :: 0 <= i < |roots| ==> roots[i] in accounts)
    && (forall x {:trigger RootOnce(nodes, roots, x)} :: x in accounts ==> RootOnce(nodes, roots, x))
  }

  lemma RootsAreOnce(nodes: map<AccountId, Node>, b: BusinessId, accounts: seq<AccountId>)
    requires IsListing(nodes, b, accounts) && ParentsListed(nodes, accounts)
    ensures RootsOnce(nodes, accounts, Filter(accounts, IsRoot(nodes, accounts)))
  {
    RootsListed(nodes, accounts);
    forall x | x in accounts
      ensures RootOnce(nodes, Filter(accounts, IsRoot(nodes, accounts)), x)
    {
      assert ParentListed(nodes, accounts, x);
      CountsOnce(accounts, IsRoot(nodes, accounts), x);
    }
  }

  /** From the roots, `x` is reached once if its walk up has ended within `n + 1` steps, and not at all
      otherwise. */
  lemma {:induction false} ReachedIff(nodes: map<AccountId, Node>, accounts: seq<AccountId>,
      children: map<AccountId, seq<AccountId>>, roots: seq<AccountId>, x: AccountId, n: nat)
    requires ChildrenOnce(nodes, accounts, children)
    requires ParentsListed(nodes, accounts) && RootsOnce(nodes, accounts, roots) && x in accounts
    ensures SumBy(roots, ShownIn(children, x, n)) == if Up(nodes, Some(x), n + 1) == None then 1 else 0
    decreases n
  {
    assert ParentListed(nodes, accounts, x);
    assert RootOnce(nodes, roots, x);
    UpShift(nodes, Some(x), n);
    if n == 0 {
      ShownAtZero(children, roots, x);
    } else {
      RootsThroughParent(nodes, accounts, children, roots, x, n - 1);
      if nodes[x].parent.Some? {
        ReachedIff(nodes, accounts, children, roots, nodes[x].parent.value, n - 1);
      } else {
        UpStaysNone(nodes, None, 0, n);
      }
    }
  }

  // ----- the type groups

  function KindTable(nodes: map<AccountId, Node>, f: AccountId -> int): (AccountType, AccountId) -> int {
    (t: AccountType, x: AccountId) => if IsOfKind(nodes, t)(x) then f(x) else 0
  }

  function KindIndex(t: AccountType): (k: nat)
    ensures k < 5 && TYPE_ORDER[k] == t
    ensures forall i :: 0 <= i < 5 && i != k ==> TYPE_ORDER[i] != t
  {
    match t case Asset => 0 case Liability => 1 case Equity => 2 case Income => 3 case Expense => 4
  }

  /** Every root is in the group of its type and in no other. */
  lemma GroupsCover(nodes: map<AccountId, Node>, roots: seq<AccountId>, groups: seq<seq<AccountId>>,
      f: AccountId -> int)
    requires forall i :: 0 <= i < |roots| ==> roots[i] in nodes
    requires GroupedByKind(nodes, roots, groups)
    ensures SumBy(groups, InGroup(f)) == SumBy(roots, f)
  {
    var table := KindTable(nodes, f);
    forall t | 0 <= t < 5
      ensures InGroup(f)(groups[t]) == RowSum<AccountType, AccountId>(roots, table)(TYPE_ORDER[t])
    {
      SumFilter<AccountId>(roots, IsOfKind(nodes, TYPE_ORDER[t]), f);
      SumCong<AccountId>(roots, If<AccountId>(IsOfKind(nodes, TYPE_ORDER[t]), f),
        At<AccountType, AccountId>(TYPE_ORDER[t], table));
    }
    SumPairwise(groups, TYPE_ORDER, InGroup(f), RowSum<AccountType, AccountId>(roots, table));
    SumSwap<AccountType, AccountId>(TYPE_ORDER, roots, table);
    forall i | 0 <= i < |roots|
      ensures ColumnSum<AccountType, AccountId>(TYPE_ORDER, table)(roots[i]) == f(roots[i])
    {
      SumSingle(TYPE_ORDER, Column<AccountType, AccountId>(roots[i], table), KindIndex(nodes[roots[i]].kind));
    }
    SumCong<AccountId>(roots, ColumnSum<AccountType, AccountId>(TYPE_ORDER, table), f);
  }

  // ----- a walk that ends, ends soon

  function FirstOnWalk(nodes: map<AccountId, Node>, x: AccountId, n: nat): set<AccountId> {
    set k | 0 <= k < n && Up(nodes, Some(x), k).Some? :: Up(nodes, Some(x), k).value
  }

  /** On a walk that ends no account comes twice. */
  lemma NoRepeat(nodes: map<AccountId, Node>, x: AccountId, i: nat, j: nat)
    requires Ends(nodes, x) && i < j && Up(nodes, Some(x), j).Some?
    ensures Up(nodes, Some(x), i) != Up(nodes, Some(x), j)
  {
    if Up(nodes, Some(x), i) == Up(nodes, Some(x), j) {
      var n: nat :| Up(nodes, Some(x), n) == None;
      var k := LoopRepeats(nodes, Some(x), i, j, n);
      UpStaysNone(nodes, Some(x), k, j);
    }
  }

  lemma {:induction false} WalkIsLong(nodes: map<AccountId, Node>, x: AccountId, n: nat)
    requires Ends(nodes, x) && ParentsExist(nodes) && x in nodes && (n > 0 ==> Up(nodes, Some(x), n - 1).Some?)
    ensures |FirstOnWalk(nodes, x, n)| == n && FirstOnWalk(nodes, x, n) <= nodes.Keys
  {
    if n > 0 {
      WalkIsLong(nodes, x, n - 1);
      var last := Up(nodes, Some(x), n - 1).value;
      forall k: nat | k < n - 1
        ensures Up(nodes, Some(x), k) != Some(last)
      {
        NoRepeat(nodes, x, k, n - 1);
      }
      assert FirstOnWalk(nodes, x, n) == FirstOnWalk(nodes, x, n - 1) + {last};
    }
  }

  lemma {:induction false} SubsetIsSmaller(a: set<AccountId>, b: set<AccountId>)
    requires a <= b
    ensures |a| <= |b|
  {
    if a != {} {
      var x :| x in a;
      SubsetIsSmaller(a - {x}, b - {x});
    }
  }

  lemma EndsWithin(nodes: map<AccountId, Node>, x: AccountId, n: nat)
    requires ParentsExist(nodes) && x in nodes && Ends(nodes, x) && n >= |nodes|
    ensures Up(nodes, Some(x), n) == None
  {
    assert |nodes.Keys| == |nodes|;
    if Up(nodes, Some(x), n).Some? {
      WalkIsLong(nodes, x, n + 1);
      SubsetIsSmaller(FirstOnWalk(nodes, x, n + 1), nodes.Keys);
    }
  }

  /** The listing shows an account exactly once if its walk up ends, and never otherwise; in a forest every
      account is shown exactly once, at its place under its parent. */
  lemma ShownOnceIff(nodes: map<AccountId, Node>, b: BusinessId, accounts: seq<AccountId>,
      children: map<AccountId, seq<AccountId>>, groups: seq<seq<AccountId>>, x: AccountId, n: nat)
    requires ParentsExist(nodes) && Alike(nodes)
    requires IsListing(nodes, b, accounts) && ListsChildren(nodes, accounts, children) && x in accounts
    requires GroupedByKind(nodes, Filter(accounts, IsRoot(nodes, accounts)), groups)
    requires n >= |nodes|
    ensures Appearances(children, groups, x, n) == if Ends(nodes, x) then 1 else 0
  {
    var roots := Filter(accounts, IsRoot(nodes, accounts));
    RootsListed(nodes, accounts);
    GroupsCover(nodes, roots, groups, ShownIn(children, x, n));
    RootsAreOnce(nodes, b, accounts);
    ChildrenAreOnce(nodes, b, accounts, children);
    ReachedIff(nodes, accounts, children, roots, x, n);
    if Ends(nodes, x) {
      EndsWithin(nodes, x, n + 1);
    }
  }

  // ----- where an account is listed

  /** An account is nested under the account that is its parent, and at the top level, under its own type, only
      when its parent is not in the listing. */
  lemma PlacedIff(nodes: map<AccountId, Node>, b: BusinessId, accounts: seq<AccountId>,
      children: map<AccountId, seq<AccountId>>, groups: seq<seq<AccountId>>, x: AccountId)
    requires IsListing(nodes, b, accounts) && ListsChildren(nodes, accounts, children) && x in accounts
    requires GroupedByKind(nodes, Filter(accounts, IsRoot(nodes, accounts)), groups)
    ensures x in nodes
    ensures forall y :: y in children <==> y in accounts
    ensures forall y | y in children :: x in children[y] <==> nodes[x].parent == Some(y)
    ensures forall t :: 0 <= t < 5 ==>
      (x in groups[t] <==>
        nodes[x].kind == [Asset, Liability, Equity, Income, Expense][t]
        && (nodes[x].parent == None || nodes[x].parent.value !in accounts))
  {
    assert Owns(nodes, b, x);
    forall y | y in children
      ensures x in children[y] <==> nodes[x].parent == Some(y)
    {
      FilterMember(accounts, IsChildOf(nodes, y), x);
    }
    var roots := Filter(accounts, IsRoot(nodes, accounts));
    FilterMember(accounts, IsRoot(nodes, accounts), x);
    forall t | 0 <= t < 5
      ensures x in groups[t] <==> x in roots && nodes[x].kind == TYPE_ORDER[t]
    {
      FilterMember(roots, IsOfKind(nodes, TYPE_ORDER[t]), x);
    }
  }
}
