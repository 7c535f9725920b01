/** The accounts service: the checks in the order it makes them, and the seeding of a new workspace. */
module AccountsServices {
  import opened Base
  import opened Sorting
  import opened Ledger
  import opened Forest

  type TemplateId = nat

  datatype WorkspaceType = Personal | Company

  datatype Template = Template(id: TemplateId, kind: AccountType, subtype: Option<string>, parent: Option<TemplateId>,
      active: bool, appliesTo: set<WorkspaceType>)

  /** Active templates of the workspace's type, money accounts left out. */
  function Seeds(w: WorkspaceType): Template -> bool {
    (t: Template) => w in t.appliesTo && t.active && (t.subtype.None? || t.subtype.value !in MONEY_ACCOUNT_SUBTYPES)
  }

  function FindTemplate(ts: seq<Template>, id: TemplateId): (k: Option<nat>)
    ensures k.Some? ==> k.value < |ts| && ts[k.value].id == id
    ensures k.None? ==> forall i :: 0 <= i < |ts| ==> ts[i].id != id
  {
    if ts == [] then None
    else if ts[|ts| - 1].id == id then Some(|ts| - 1)
    else FindTemplate(ts[..|ts| - 1], id)
  }

  /** The template's parent among the selected ones; a parent that is not selected leaves it top-level. */
  function ParentIndex(ts: seq<Template>, i: nat): (k: Option<nat>)
    requires i < |ts|
    ensures k.Some? ==> k.value < |ts|
  {
    if ts[i].parent.None? then None else FindTemplate(ts, ts[i].parent.value)
  }

  function SeededNode(b: BusinessId, ts: seq<Template>, ids: seq<AccountId>, i: nat): Node
    requires i < |ts| == |ids|
  {
    var k := ParentIndex(ts, i);
    Node(b, ts[i].kind, ts[i].subtype, true, false, if k.None? then None else Some(ids[k.value]))
  }

  ghost predicate FreshIds(nodes: map<AccountId, Node>, ids: seq<AccountId>) {
    && (forall i :: 0 <= i < |ids| ==> ids[i] !in nodes)
    && (forall i, j :: 0 <= i < j < |ids| ==> ids[i] != ids[j])
  }

  ghost predicate DistinctTemplates(ts: seq<Template>) {
    forall i, j :: 0 <= i < j < |ts| ==> ts[i].id != ts[j].id
  }

  /** The chart after seeding: what was there, and one system account per template under its parent's. */
  ghost predicate IsSeeded(nodes: map<AccountId, Node>, nodes': map<AccountId, Node>, b: BusinessId, ts: seq<Template>,
      ids: seq<AccountId>)
    requires |ids| == |ts|
  {
    && (forall x :: x in nodes' <==> x in nodes || x in ids)
    && (forall x | x in nodes && x !in ids :: nodes'[x] == nodes[x])
    && (forall i :: 0 <= i < |ids| ==> ids[i] in nodes' && nodes'[ids[i]] == SeededNode(b, ts, ids, i))
  }

  function Children(nodes: map<AccountId, Node>, id: AccountId): set<AccountId> {
    set x | x in nodes && nodes[x].parent == Some(id)
  }

  function ActiveChildren(nodes: map<AccountId, Node>, id: AccountId): set<AccountId> {
    set x | x in nodes && nodes[x].parent == Some(id) && !nodes[x].archived
  }

  lemma ChildIff(nodes: map<AccountId, Node>, id: AccountId)
    ensures |Children(nodes, id)| > 0 <==> HasChild(nodes, id)
  {
    if |Children(nodes, id)| > 0 {
      var x :| x in Children(nodes, id);
    }
    if HasChild(nodes, id) {
      var x :| x in nodes && nodes[x].parent == Some(id);
      assert x in Children(nodes, id);
    }
  }

  lemma ActiveChildIff(nodes: map<AccountId, Node>, id: AccountId)
    ensures |ActiveChildren(nodes, id)| > 0 <==> HasActiveChild(nodes, id)
  {
    if |ActiveChildren(nodes, id)| > 0 {
      var x :| x in ActiveChildren(nodes, id);
    }
    if HasActiveChild(nodes, id) {
      var x :| x in nodes && nodes[x].parent == Some(id) && !nodes[x].archived;
      assert x in ActiveChildren(nodes, id);
    }
  }

  class AccountsService {
    var nodes: map<AccountId, Node>
    var used: set<AccountId>

    constructor (c: Chart)
      ensures Tables() == c
    {
      nodes, used := c.nodes, c.used;
    }

    function Tables(): Chart
      reads this
    {
      Chart(nodes, used)
    }

    ghost predicate Does(before: Chart, step: Step, problem: Option<ChartError>)
      reads this
    {
      problem == Check(before, step) && Tables() == Next(before, step)
    }

    method Create(b: BusinessId, id: AccountId, kind: AccountType, subtype: Option<string>, parent: Option<AccountId>)
        returns (problem: Option<ChartError>)
      requires id !in nodes
      modifies this`nodes
      ensures Does(old(Tables()), Step.Create(b, id, kind, subtype, parent), problem)
    {
      if IsReserved(subtype) {
        return Some(ReservedSubtype);
      }
      if parent.Some? {
        var bad := CheckParent(nodes, b, parent.value, kind);
        if bad.Some? {
          return bad;
        }
      }
      nodes := nodes[id := Node(b, kind, subtype, false, false, parent)];
      return None;
    }

    method Update(b: BusinessId, id: AccountId, newSubtype: Option<Option<string>>,
        newParent: Option<Option<AccountId>>) returns (problem: Option<ChartError>)
      requires ParentsExist(nodes)
      modifies this`nodes
      ensures Does(old(Tables()), Step.Update(b, id, newSubtype, newParent), problem)
    {
      if !Owns(nodes, b, id) {
        return Some(NotFound);
      }
      var account := nodes[id];
      if newSubtype.Some? && newSubtype.value != account.subtype {
        if ReservedSystem(account) {
          return Some(SubtypeLocked);
        }
        if IsReserved(newSubtype.value) {
          return Some(ReservedSubtype);
        }
      }
      if newParent.Some? && newParent.value.Some? {
        var p := newParent.value.value;
        if p == id {
          return Some(OwnParent);
        }
        var bad := CheckParent(nodes, b, p, account.kind);
        if bad.Some? {
          return bad;
        }
        var refused := RefuseParentCycle(nodes, id, p);
        if refused {
          return Some(UnderOwnChild);
        }
      }
      nodes := nodes[id := Updated(account, newSubtype, newParent)];
      return None;
    }

    method Archive(b: BusinessId, id: AccountId) returns (problem: Option<ChartError>)
      modifies this`nodes
      ensures Does(old(Tables()), Step.Archive(b, id), problem)
    {
      if id !in nodes || nodes[id].business != b {
        return Some(NotFound);
      }
      var account := nodes[id];
      if account.system && account.kind.Asset? && account.subtype == Some(SAVINGS_SUBTYPE) {
        return Some(InternalAccount);
      }
      if ReservedSystem(account) {
        return Some(InternalAccount);
      }
      var activeChildCount := |ActiveChildren(nodes, id)|;
      ActiveChildIff(nodes, id);
      if activeChildCount > 0 {
        return Some(HasChildren);
      }
      if !account.archived {
        nodes := nodes[id := account.(archived := true)];
      }
      return None;
    }

    method Unarchive(b: BusinessId, id: AccountId) returns (problem: Option<ChartError>)
      modifies this`nodes
      ensures Does(old(Tables()), Step.Unarchive(b, id), problem)
    {
      if id !in nodes || nodes[id].business != b {
        return Some(NotFound);
      }
      var account := nodes[id];
      if !account.archived {
        return None;
      }
      if account.parent.Some? && account.parent.value in nodes {
        var parent := nodes[account.parent.value];
        if parent.archived {
          return Some(ParentArchived);
        }
      }
      nodes := nodes[id := account.(archived := false)];
      return None;
    }

    /** Erases an account nothing was ever posted on; archives one with history. */
    method RemoveOrArchive(b: BusinessId, id: AccountId) returns (problem: Option<ChartError>, deleted: bool)
      modifies this`nodes
      ensures Does(old(Tables()), Step.Remove(b, id), problem)
      ensures deleted <==> problem.None? && id !in nodes
    {
      if id !in nodes || nodes[id].business != b {
        return Some(NotFound), false;
      }
      var account := nodes[id];
      if account.system && account.kind.Asset? && account.subtype == Some(SAVINGS_SUBTYPE) {
        return Some(InternalAccount), false;
      }
      if ReservedSystem(account) {
        return Some(InternalAccount), false;
      }
      var childCount := |Children(nodes, id)|;
      ChildIff(nodes, id);
      if childCount > 0 {
        return Some(HasChildren), false;
      }
      if id !in used {
        nodes := nodes - {id};
        return None, true;
      }
      if !account.archived {
        nodes := nodes[id := account.(archived := true)];
      }
      return None, false;
    }

    /** First pass: every account, without its parent, and which account came of which template. */
    method CreateFlat(b: BusinessId, ts: seq<Template>, ids: seq<AccountId>)
        returns (accountOf: map<TemplateId, AccountId>)
      requires |ids| == |ts| && FreshIds(nodes, ids) && DistinctTemplates(ts)
      modifies this`nodes
      ensures FlatSoFar(old(nodes), nodes, b, ts, ids, |ts|) && MapsSoFar(accountOf, ts, ids, |ts|)
    {
      accountOf := map[];
      ghost var before := nodes;
      NothingYet(before, b, ts, ids);
      for i := 0 to |ts|
        invariant FlatSoFar(before, nodes, b, ts, ids, i)
        invariant MapsSoFar(accountOf, ts, ids, i)
      {
        FlatOneMore(before, nodes, b, ts, ids, i);
        MapsOneMore(accountOf, ts, ids, i);
        var node := Node(b, ts[i].kind, ts[i].subtype, true, false, None);
        assert node == SeededNode(b, ts, ids, i).(parent := None);
        nodes := nodes[ids[i] := node];
        accountOf := accountOf[ts[i].id := ids[i]];
      }
    }

    /** Second pass: the parents among the accounts just created. */
    method WireParents(ghost before: map<AccountId, Node>, b: BusinessId, ts: seq<Template>, ids: seq<AccountId>,
        accountOf: map<TemplateId, AccountId>)
      requires |ids| == |ts| && FreshIds(before, ids) && DistinctTemplates(ts)
      requires WiredSoFar(before, nodes, b, ts, ids, 0) && MapsSoFar(accountOf, ts, ids, |ts|)
      modifies this`nodes
      ensures WiredSoFar(before, nodes, b, ts, ids, |ts|)
    {
      for i := 0 to |ts|
        invariant WiredSoFar(before, nodes, b, ts, ids, i)
      {
        WiredOneMore(before, nodes, b, ts, ids, i);
        StaysTopLevel(before, nodes, b, ts, ids, i);
        LooksUp(accountOf, ts, ids, i);
        var own := ids[i];
        if ts[i].parent.Some? && ts[i].parent.value in accountOf {
          var node := nodes[own].(parent := Some(accountOf[ts[i].parent.value]));
          assert node == SeededNode(b, ts, ids, i);
          nodes := nodes[own := node];
        }
      }
    }

    method SeedDefaultAccounts(b: BusinessId, w: WorkspaceType, templates: seq<Template>, ids: seq<AccountId>)
      requires |ids| == |Filter(templates, Seeds(w))| && FreshIds(nodes, ids)
        && DistinctTemplates(Filter(templates, Seeds(w)))
      modifies this`nodes
      ensures IsSeeded(old(nodes), nodes, b, Filter(templates, Seeds(w)), ids)
    {
      var ts := Filter(templates, Seeds(w));
      var accountOf := CreateFlat(b, ts, ids);
      assert ids[..|ids|] == ids;
      WireParents(old(nodes), b, ts, ids, accountOf);
    }
  }

  lemma NothingYet(nodes: map<AccountId, Node>, b: BusinessId, ts: seq<Template>, ids: seq<AccountId>)
    requires |ids| == |ts|
    ensures FlatSoFar(nodes, nodes, b, ts, ids, 0) && MapsSoFar(map[], ts, ids, 0)
  {
    assert ids[..0] == [];
  }

  lemma MapsOneMore(accountOf: map<TemplateId, AccountId>, ts: seq<Template>, ids: seq<AccountId>, n: nat)
    requires n < |ts| == |ids| && DistinctTemplates(ts) && MapsSoFar(accountOf, ts, ids, n)
    ensures MapsSoFar(accountOf[ts[n].id := ids[n]], ts, ids, n + 1)
  {
  }

  ghost function Ids(ids: seq<AccountId>): set<AccountId> {
    set x | x in ids
  }

  ghost predicate FlatSoFar(before: map<AccountId, Node>, nodes: map<AccountId, Node>, b: BusinessId,
      ts: seq<Template>, ids: seq<AccountId>, n: nat)
    requires n <= |ts| == |ids|
  {
    && nodes.Keys == before.Keys + Ids(ids[..n])
    && (forall x | x in before :: x in nodes && nodes[x] == before[x])
    && (forall k :: 0 <= k < n ==> ids[k] in nodes && nodes[ids[k]] == SeededNode(b, ts, ids, k).(parent := None))
  }

  ghost predicate MapsSoFar(accountOf: map<TemplateId, AccountId>, ts: seq<Template>, ids: seq<AccountId>, n: nat)
    requires n <= |ts| == |ids|
  {
    && (forall k :: 0 <= k < n ==> ts[k].id in accountOf && accountOf[ts[k].id] == ids[k])
    && (forall t | t in accountOf :: exists k :: 0 <= k < n && ts[k].id == t)
  }

  ghost predicate WiredSoFar(before: map<AccountId, Node>, nodes: map<AccountId, Node>, b: BusinessId,
      ts: seq<Template>, ids: seq<AccountId>, n: nat)
    requires n <= |ts| == |ids|
  {
    && nodes.Keys == before.Keys + Ids(ids)
    && (forall x | x in before :: x in nodes && nodes[x] == before[x])
    && (forall k :: 0 <= k < |ids| ==> ids[k] in nodes && nodes[ids[k]] == if k < n then SeededNode(b, ts, ids, k)
      else SeededNode(b, ts, ids, k).(parent := None))
  }

  lemma FlatOneMore(before: map<AccountId, Node>, nodes: map<AccountId, Node>, b: BusinessId, ts: seq<Template>,
      ids: seq<AccountId>, n: nat)
    requires n < |ts| == |ids| && FreshIds(before, ids) && FlatSoFar(before, nodes, b, ts, ids, n)
    ensures FlatSoFar(before, nodes[ids[n] := SeededNode(b, ts, ids, n).(parent := None)], b, ts, ids, n + 1)
  {
    var node := SeededNode(b, ts, ids, n).(parent := None);
    IdsSoFar(ids, n);
    assert nodes[ids[n] := node].Keys == nodes.Keys + {ids[n]};
    forall k | 0 <= k < n
      ensures nodes[ids[n] := node][ids[k]] == nodes[ids[k]]
    {
    }
  }

  lemma IdsSoFar(ids: seq<AccountId>, n: nat)
    requires n < |ids|
    ensures Ids(ids[..n + 1]) == Ids(ids[..n]) + {ids[n]}
  {
    assert ids[..n + 1] == ids[..n] + [ids[n]];
  }

  lemma WiredOneMore(before: map<AccountId, Node>, nodes: map<AccountId, Node>, b: BusinessId, ts: seq<Template>,
      ids: seq<AccountId>, n: nat)
    requires n < |ts| == |ids| && FreshIds(before, ids) && WiredSoFar(before, nodes, b, ts, ids, n)
    ensures WiredSoFar(before, nodes[ids[n] := SeededNode(b, ts, ids, n)], b, ts, ids, n + 1)
  {
    forall k | 0 <= k < |ids| && k != n
      ensures ids[k] != ids[n]
    {
      assert k < n ==> ids[k] != ids[n];
      assert n < k ==> ids[n] != ids[k];
    }
    assert nodes[ids[n] := SeededNode(b, ts, ids, n)].Keys == nodes.Keys;
  }

  lemma StaysTopLevel(before: map<AccountId, Node>, nodes: map<AccountId, Node>, b: BusinessId, ts: seq<Template>,
      ids: seq<AccountId>, n: nat)
    requires n < |ts| == |ids| && WiredSoFar(before, nodes, b, ts, ids, n)
    ensures nodes[ids[n]] == SeededNode(b, ts, ids, n).(parent := None)
    ensures SeededNode(b, ts, ids, n).parent.None? ==> nodes[ids[n] := SeededNode(b, ts, ids, n)] == nodes
  {
  }

  /** The first pass's map finds a template's parent exactly when it is among the selected ones. */
  lemma LooksUp(accountOf: map<TemplateId, AccountId>, ts: seq<Template>, ids: seq<AccountId>, i: nat)
    requires i < |ts| == |ids| && DistinctTemplates(ts) && MapsSoFar(accountOf, ts, ids, |ts|)
    ensures ts[i].parent.Some? ==> (ts[i].parent.value in accountOf <==> ParentIndex(ts, i).Some?)
    ensures ParentIndex(ts, i).Some? ==>
      ts[i].parent.Some? && accountOf[ts[i].parent.value] == ids[ParentIndex(ts, i).value]
  {
  }

  // ----- what seeding keeps

  /** Templates nest one level deep: a parent has no parent of its own. */
  ghost predicate OneLevel(ts: seq<Template>) {
    forall i :: 0 <= i < |ts| && ParentIndex(ts, i).Some? ==> ts[ParentIndex(ts, i).value].parent.None?
  }

  ghost predicate TemplatesAlike(ts: seq<Template>) {
    forall i :: 0 <= i < |ts| && ParentIndex(ts, i).Some? ==> ts[ParentIndex(ts, i).value].kind == ts[i].kind
  }

  lemma SeededParentsExist(nodes: map<AccountId, Node>, nodes': map<AccountId, Node>, b: BusinessId, ts: seq<Template>,
      ids: seq<AccountId>)
    requires ParentsExist(nodes) && |ids| == |ts| && FreshIds(nodes, ids) && IsSeeded(nodes, nodes', b, ts, ids)
    ensures ParentsExist(nodes')
  {
    forall x | x in nodes' && nodes'[x].parent.Some?
      ensures nodes'[x].parent.value in nodes'
    {
      if x in ids {
        var i :| 0 <= i < |ids| && ids[i] == x;
        assert ids[ParentIndex(ts, i).value] in ids;
      }
    }
  }

  lemma SeededEnds(nodes': map<AccountId, Node>, b: BusinessId, ts: seq<Template>, ids: seq<AccountId>, i: nat)
    requires |ids| == |ts| && i < |ids| && OneLevel(ts)
    requires forall k :: 0 <= k < |ids| ==> ids[k] in nodes' && nodes'[ids[k]] == SeededNode(b, ts, ids, k)
    ensures Ends(nodes', ids[i])
  {
    var k := ParentIndex(ts, i);
    if k.Some? {
      assert ParentIndex(ts, k.value).None?;
      EndsAbove(nodes', ids[k.value]);
    }
    EndsAbove(nodes', ids[i]);
  }

  lemma SeededAcyclic(nodes: map<AccountId, Node>, nodes': map<AccountId, Node>, b: BusinessId, ts: seq<Template>,
      ids: seq<AccountId>)
    requires ParentsExist(nodes) && Acyclic(nodes) && |ids| == |ts| && FreshIds(nodes, ids) && OneLevel(ts)
    requires IsSeeded(nodes, nodes', b, ts, ids)
    ensures ParentsExist(nodes') && Acyclic(nodes')
  {
    SeededParentsExist(nodes, nodes', b, ts, ids);
    forall x | x in nodes'
      ensures Ends(nodes', x)
    {
      if x in ids {
        var i :| 0 <= i < |ids| && ids[i] == x;
        SeededEnds(nodes', b, ts, ids, i);
      } else {
        var n: nat :| Up(nodes, Some(x), n) == None;
        EndsStill(nodes, nodes', x, n);
      }
    }
  }

  lemma SeededReserved(c: Chart, nodes': map<AccountId, Node>, b: BusinessId, ts: seq<Template>, ids: seq<AccountId>)
    requires ForestInv(c) && |ids| == |ts| && FreshIds(c.nodes, ids) && IsSeeded(c.nodes, nodes', b, ts, ids)
    ensures forall x | x in nodes' && IsReserved(nodes'[x].subtype) :: nodes'[x].system
  {
    forall x | x in nodes' && IsReserved(nodes'[x].subtype)
      ensures nodes'[x].system
    {
      if x in ids {
        var i :| 0 <= i < |ids| && ids[i] == x;
      }
    }
  }

  lemma SeededAlikeNew(nodes': map<AccountId, Node>, b: BusinessId, ts: seq<Template>, ids: seq<AccountId>, i: nat)
    requires |ids| == |ts| && i < |ids| && TemplatesAlike(ts)
    requires forall k :: 0 <= k < |ids| ==> ids[k] in nodes' && nodes'[ids[k]] == SeededNode(b, ts, ids, k)
    ensures nodes'[ids[i]].parent.Some? ==>
      nodes'[ids[i]].parent.value in nodes' && SameKind(nodes'[nodes'[ids[i]].parent.value], nodes'[ids[i]])
  {
    var k := ParentIndex(ts, i);
    if k.Some? {
      assert nodes'[ids[k.value]] == SeededNode(b, ts, ids, k.value);
    }
  }

  lemma SeededAlikeOld(nodes: map<AccountId, Node>, nodes': map<AccountId, Node>, x: AccountId)
    requires ParentsExist(nodes) && Alike(nodes) && x in nodes
    requires forall y | y in nodes :: y in nodes' && nodes'[y] == nodes[y]
    ensures nodes'[x].parent.Some? ==>
      nodes'[x].parent.value in nodes' && SameKind(nodes'[nodes'[x].parent.value], nodes'[x])
  {
    if nodes[x].parent.Some? {
      assert SameKind(nodes[nodes[x].parent.value], nodes[x]);
    }
  }

  lemma SeededAlike(nodes: map<AccountId, Node>, nodes': map<AccountId, Node>, b: BusinessId, ts: seq<Template>,
      ids: seq<AccountId>)
    requires ParentsExist(nodes) && Alike(nodes) && |ids| == |ts| && FreshIds(nodes, ids)
      && IsSeeded(nodes, nodes', b, ts, ids)
    requires ParentsExist(nodes') && TemplatesAlike(ts)
    ensures Alike(nodes')
  {
    forall x | x in nodes' && nodes'[x].parent.Some?
      ensures SameKind(nodes'[nodes'[x].parent.value], nodes'[x])
    {
      if x in ids {
        var i :| 0 <= i < |ids| && ids[i] == x;
        SeededAlikeNew(nodes', b, ts, ids, i);
      } else {
        SeededAlikeOld(nodes, nodes', x);
      }
    }
  }

  lemma AlikeTemplates(nodes': map<AccountId, Node>, b: BusinessId, ts: seq<Template>, ids: seq<AccountId>)
    requires |ids| == |ts| && ParentsExist(nodes') && Alike(nodes')
    requires forall i :: 0 <= i < |ids| ==> ids[i] in nodes' && nodes'[ids[i]] == SeededNode(b, ts, ids, i)
    ensures TemplatesAlike(ts)
  {
    forall i | 0 <= i < |ts| && ParentIndex(ts, i).Some?
      ensures ts[ParentIndex(ts, i).value].kind == ts[i].kind
    {
      assert SameKind(nodes'[nodes'[ids[i]].parent.value], nodes'[ids[i]]);
    }
  }

  /** Seeding keeps the chart a forest, and parents of the same type as their children exactly when that
      holds of the selected templates. */
  lemma SeedKeepsForestIff(c: Chart, nodes': map<AccountId, Node>, b: BusinessId, ts: seq<Template>,
      ids: seq<AccountId>)
    requires ForestInv(c) && |ids| == |ts| && FreshIds(c.nodes, ids) && OneLevel(ts)
    requires IsSeeded(c.nodes, nodes', b, ts, ids)
    ensures Acyclic(nodes')
    ensures ForestInv(Chart(nodes', c.used)) <==> TemplatesAlike(ts)
  {
    SeededAcyclic(c.nodes, nodes', b, ts, ids);
    SeededReserved(c, nodes', b, ts, ids);
    if Alike(nodes') {
      AlikeTemplates(nodes', b, ts, ids);
    }
    if TemplatesAlike(ts) {
      SeededAlike(c.nodes, nodes', b, ts, ids);
    }
  }

  // ----- what seeding creates

  /** The templates copied are the active ones of the workspace's type, other than money accounts. */
  lemma SeedsIff(templates: seq<Template>, w: WorkspaceType, t: Template)
    ensures t in Filter(templates, Seeds(w)) <==>
      && t in templates && t.active && w in t.appliesTo
      && t.subtype !in {Some("cash"), Some("bank"), Some("mfs")}
  {
    FilterMember(templates, Seeds(w), t);
  }

  /** A copied template's account: the workspace's own, of the template's type and subtype, a system account,
      active, and under the account of the template's parent if that was copied too, else at the top. */
  lemma SeededAccount(nodes: map<AccountId, Node>, nodes': map<AccountId, Node>, b: BusinessId, ts: seq<Template>,
      ids: seq<AccountId>, i: nat)
    requires |ids| == |ts| && i < |ts| && DistinctTemplates(ts) && IsSeeded(nodes, nodes', b, ts, ids)
    ensures ids[i] in nodes'
    ensures var n := nodes'[ids[i]];
      && n.business == b && n.kind == ts[i].kind && n.subtype == ts[i].subtype && n.system && !n.archived
      && (forall k :: 0 <= k < |ts| && ts[i].parent == Some(ts[k].id) ==> n.parent == Some(ids[k]))
      && ((forall k :: 0 <= k < |ts| ==> ts[i].parent != Some(ts[k].id)) ==> n.parent == None)
  {
    var found := ParentIndex(ts, i);
    forall k | 0 <= k < |ts| && ts[i].parent == Some(ts[k].id)
      ensures found == Some(k)
    {
      assert found.Some? && (found.value < k || k < found.value || found.value == k);
    }
  }
}
