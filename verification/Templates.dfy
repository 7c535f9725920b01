/** The account templates an administrator edits, from which every new workspace's chart is seeded. */
module AccountTemplates {
  import opened Base
  import opened Ledger
  import opened Forest
  import opened AccountsServices

  type Catalogue = map<TemplateId, Template>

  datatype TemplateError =
    | TemplateNotFound | ReservedTemplate | LoadBearing | OwnTemplateParent | NoSuchParent | ParentNested
    | ParentTypeDiffers | HasSubAccounts

  /** Absent fields of an update keep what the template has. */
  datatype TemplateStep =
    | Add(t: Template)
    | Edit(id: TemplateId, kind: Option<AccountType>, subtype: Option<Option<string>>,
      parent: Option<Option<TemplateId>>,
           appliesTo: Option<set<WorkspaceType>>, active: Option<bool>)
    | Deactivate(id: TemplateId)

  predicate IsLoadBearing(t: Template) {
    IsReserved(t.subtype)
  }

  predicate HasSub(m: Catalogue, id: TemplateId) {
    exists x | x in m :: m[x].parent == Some(id)
  }

  function Subs(m: Catalogue, id: TemplateId): set<TemplateId> {
    set x | x in m && m[x].parent == Some(id)
  }

  lemma SubIff(m: Catalogue, id: TemplateId)
    ensures |Subs(m, id)| > 0 <==> HasSub(m, id)
  {
    if |Subs(m, id)| > 0 {
      var x :| x in Subs(m, id);
    }
    if HasSub(m, id) {
      var x :| x in m && m[x].parent == Some(id);
      assert x in Subs(m, id);
    }
  }

  function CheckTemplateParent(m: Catalogue, p: TemplateId, kind: AccountType): Option<TemplateError> {
    if p !in m then Some(NoSuchParent)
    else if m[p].parent.Some? then Some(ParentNested)
    else if m[p].kind != kind then Some(ParentTypeDiffers)
    else None
  }

  /** An update a load-bearing template refuses. */
  predicate ChangesShape(t: Template, e: TemplateStep)
    requires e.Edit?
  {
    || (e.kind.Some? && e.kind.value != t.kind)
    || (e.subtype.Some? && e.subtype.value != t.subtype)
    || e.active == Some(false)
    || (e.appliesTo.Some? && !(t.appliesTo <= e.appliesTo.value))
  }

  function CheckMoveTemplate(m: Catalogue, id: TemplateId, p: TemplateId, kind: AccountType): Option<TemplateError> {
    if p == id then Some(OwnTemplateParent)
    else if CheckTemplateParent(m, p, kind).Some? then CheckTemplateParent(m, p, kind)
    else if HasSub(m, id) then Some(HasSubAccounts)
    else None
  }

  function CheckEdit(m: Catalogue, e: TemplateStep): Option<TemplateError>
    requires e.Edit?
  {
    if e.id !in m then Some(TemplateNotFound)
    else
      var t := m[e.id];
      if IsLoadBearing(t) && ChangesShape(t, e) then Some(LoadBearing)
      else if !IsLoadBearing(t) && e.subtype.Some? && IsReserved(e.subtype.value) then Some(ReservedTemplate)
      else if e.parent.Some? && e.parent.value.Some? then CheckMoveTemplate(m, e.id, e.parent.value.value,
        Sent(e.kind, t.kind))
      else None
  }

  function CheckTemplate(m: Catalogue, step: TemplateStep): Option<TemplateError> {
    match step
    case Add(t) =>
      if IsReserved(t.subtype) then Some(ReservedTemplate)
      else if t.parent.Some? then CheckTemplateParent(m, t.parent.value, t.kind)
      else None
    case Edit(_, _, _, _, _, _) => CheckEdit(m, step)
    case Deactivate(id) => if id !in m then Some(TemplateNotFound) else if IsLoadBearing(m[id]) then Some(LoadBearing)
      else None
  }

  function Sent<T>(field: Option<T>, kept: T): T {
    if field.Some? then field.value else kept
  }

  function Edited(t: Template, e: TemplateStep): Template
    requires e.Edit?
  {
    Template(t.id, Sent(e.kind, t.kind), Sent(e.subtype, t.subtype), Sent(e.parent, t.parent),
      Sent(e.active, t.active), Sent(e.appliesTo, t.appliesTo))
  }

  /** A refused step changes nothing; a new template's id is one no template has. */
  function NextTemplates(m: Catalogue, step: TemplateStep): Catalogue {
    if CheckTemplate(m, step).Some? then m
    else match step
      case Add(t) => if t.id in m then m else m[t.id := t]
      case Edit(id, _, _, _, _, _) => m[id := Edited(m[id], step)]
      case Deactivate(id) => m[id := m[id].(active := false)]
  }

  function RunTemplates(m: Catalogue, steps: seq<TemplateStep>): Catalogue {
    if steps == [] then m else NextTemplates(RunTemplates(m, steps[..|steps| - 1]), steps[|steps| - 1])
  }

  /** The administrator's service, its checks in the order it makes them. */
  class AccountTemplatesService {
    var templates: Catalogue

    ghost predicate Does(before: Catalogue, step: TemplateStep, problem: Option<TemplateError>)
      reads this
    {
      problem == CheckTemplate(before, step) && templates == NextTemplates(before, step)
    }

    method RequireParent(parentId: TemplateId, kind: AccountType) returns (problem: Option<TemplateError>)
      ensures problem == CheckTemplateParent(templates, parentId, kind)
    {
      if parentId !in templates {
        return Some(NoSuchParent);
      }
      var parent := templates[parentId];
      if parent.parent.Some? {
        return Some(ParentNested);
      }
      return if parent.kind != kind then Some(ParentTypeDiffers) else None;
    }

    method Create(t: Template) returns (problem: Option<TemplateError>)
      requires t.id !in templates
      modifies this
      ensures Does(old(templates), Add(t), problem)
    {
      if IsReserved(t.subtype) {
        return Some(ReservedTemplate);
      }
      if t.parent.Some? {
        problem := RequireParent(t.parent.value, t.kind);
        if problem.Some? {
          return;
        }
      }
      templates := templates[t.id := t];
      return None;
    }

    method Update(e: TemplateStep) returns (problem: Option<TemplateError>)
      requires e.Edit?
      modifies this
      ensures Does(old(templates), e, problem)
    {
      if e.id !in templates {
        return Some(TemplateNotFound);
      }
      var existing := templates[e.id];
      if IsLoadBearing(existing) {
        if ChangesShape(existing, e) {
          return Some(LoadBearing);
        }
      } else if e.subtype.Some? && IsReserved(e.subtype.value) {
        return Some(ReservedTemplate);
      }
      if e.parent.Some? && e.parent.value.Some? {
        var parentId := e.parent.value.value;
        if parentId == e.id {
          return Some(OwnTemplateParent);
        }
        problem := RequireParent(parentId, if e.kind.Some? then e.kind.value else existing.kind);
        if problem.Some? {
          return;
        }
        var childCount := |Subs(templates, e.id)|;
        SubIff(templates, e.id);
        if childCount > 0 {
          return Some(HasSubAccounts);
        }
      }
      templates := templates[e.id := Edited(existing, e)];
      return None;
    }

    method Deactivate(id: TemplateId) returns (problem: Option<TemplateError>)
      modifies this
      ensures Does(old(templates), TemplateStep.Deactivate(id), problem)
    {
      if id !in templates {
        return Some(TemplateNotFound);
      }
      var existing := templates[id];
      if IsLoadBearing(existing) {
        return Some(LoadBearing);
      }
      templates := templates[id := existing.(active := false)];
      return None;
    }
  }

  // ----- what every step keeps

  /** A parent exists and has no parent of its own. */
  ghost predicate NestOneLevel(m: Catalogue) {
    && (forall x | x in m :: m[x].id == x)
    && (forall x | x in m && m[x].parent.Some? :: m[x].parent.value in m && m[m[x].parent.value].parent.None?)
  }

  ghost predicate TypesMatch(m: Catalogue)
    requires NestOneLevel(m)
  {
    forall x | x in m && m[x].parent.Some? :: m[m[x].parent.value].kind == m[x].kind
  }

  lemma StepKeepsOneLevel(m: Catalogue, step: TemplateStep)
    requires NestOneLevel(m)
    ensures NestOneLevel(NextTemplates(m, step))
  {
    var m' := NextTemplates(m, step);
    forall x | x in m' && m'[x].parent.Some?
      ensures m'[x].parent.value in m' && m'[m'[x].parent.value].parent.None?
    {
      if x in m && m'[x].parent == m[x].parent {
        assert m[x].parent.value in m;
      }
    }
  }

  /** An accepted update that changes the type of a template and leaves a parent or children behind. */
  predicate RetypesAlone(m: Catalogue, step: TemplateStep) {
    && step.Edit? && CheckTemplate(m, step).None?
    && step.kind.Some? && step.kind.value != m[step.id].kind
    && (HasSub(m, step.id) || (m[step.id].parent.Some? && step.parent.None?))
  }

  lemma RetypedAlone(m: Catalogue, step: TemplateStep)
    requires NestOneLevel(m) && TypesMatch(m) && RetypesAlone(m, step) && NestOneLevel(NextTemplates(m, step))
    ensures !TypesMatch(NextTemplates(m, step))
  {
    var id, m' := step.id, NextTemplates(m, step);
    if HasSub(m, id) {
      var x :| x in m && m[x].parent == Some(id);
      assert m'[x].parent == Some(id) && m'[x].kind == m[x].kind != m'[id].kind;
    } else {
      assert m'[id].parent == m[id].parent;
    }
  }

  lemma RetypedWithOthers(m: Catalogue, step: TemplateStep)
    requires NestOneLevel(m) && TypesMatch(m) && !RetypesAlone(m, step) && NestOneLevel(NextTemplates(m, step))
    ensures TypesMatch(NextTemplates(m, step))
  {
    var m' := NextTemplates(m, step);
    forall x | x in m' && m'[x].parent.Some?
      ensures m'[m'[x].parent.value].kind == m'[x].kind
    {
      if x in m && m'[x].parent == m[x].parent && step.Edit? && CheckTemplate(m, step).None? && m[x].parent ==
        Some(step.id) {
        assert HasSub(m, step.id);
      }
    }
  }

  /** Types stay matched exactly when the step is not such an update. */
  lemma StepKeepsTypesIff(m: Catalogue, step: TemplateStep)
    requires NestOneLevel(m) && TypesMatch(m)
    ensures NestOneLevel(NextTemplates(m, step))
    ensures TypesMatch(NextTemplates(m, step)) <==> !RetypesAlone(m, step)
  {
    StepKeepsOneLevel(m, step);
    if RetypesAlone(m, step) {
      RetypedAlone(m, step);
    } else {
      RetypedWithOthers(m, step);
    }
  }

  ghost predicate NoneRetypedAlone(steps: seq<TemplateStep>) {
    forall i :: 0 <= i < |steps| ==> !RetypesAlone(RunTemplates(map[], steps[..i]), steps[i])
  }

  lemma {:induction false} RunKeepsOneLevel(steps: seq<TemplateStep>)
    ensures NestOneLevel(RunTemplates(map[], steps))
    ensures NoneRetypedAlone(steps) ==> TypesMatch(RunTemplates(map[], steps))
  {
    if steps != [] {
      var n := |steps| - 1;
      assert forall i :: 0 <= i < n ==> steps[..n][..i] == steps[..i];
      RunKeepsOneLevel(steps[..n]);
      StepKeepsOneLevel(RunTemplates(map[], steps[..n]), steps[n]);
      if NoneRetypedAlone(steps) {
        assert NoneRetypedAlone(steps[..n]);
        StepKeepsTypesIff(RunTemplates(map[], steps[..n]), steps[n]);
      }
    }
  }

  // ----- seeding from them

  /** Some of the catalogue's templates, each once, in any order. */
  ghost predicate Selection(m: Catalogue, ts: seq<Template>) {
    && DistinctTemplates(ts)
    && (forall i :: 0 <= i < |ts| ==> ts[i].id in m && m[ts[i].id] == ts[i])
  }

  lemma SelectionNests(m: Catalogue, ts: seq<Template>)
    requires NestOneLevel(m) && Selection(m, ts)
    ensures OneLevel(ts)
    ensures TypesMatch(m) ==> TemplatesAlike(ts)
  {
    forall i | 0 <= i < |ts| && ParentIndex(ts, i).Some?
      ensures ts[ParentIndex(ts, i).value].parent.None?
      ensures TypesMatch(m) ==> ts[ParentIndex(ts, i).value].kind == ts[i].kind
    {
      assert m[ts[i].id] == ts[i];
      assert m[ts[ParentIndex(ts, i).value].id] == ts[ParentIndex(ts, i).value];
    }
  }

  /** Whatever the administrator did before, seeding a workspace leaves its chart without loops; with no
      template retyped on its own, the chart keeps its whole invariant. */
  lemma SeedingAfterRun(steps: seq<TemplateStep>, c: Chart, nodes': map<AccountId, Node>, b: BusinessId,
      ts: seq<Template>, ids: seq<AccountId>)
    requires Selection(RunTemplates(map[], steps), ts)
    requires ForestInv(c) && |ids| == |ts| && FreshIds(c.nodes, ids) && IsSeeded(c.nodes, nodes', b, ts, ids)
    ensures Acyclic(nodes')
    ensures NoneRetypedAlone(steps) ==> ForestInv(Chart(nodes', c.used))
  {
    RunKeepsOneLevel(steps);
    SelectionNests(RunTemplates(map[], steps), ts);
    SeedKeepsForestIff(c, nodes', b, ts, ids);
  }

  // ----- a template retyped on its own

  const CASH_BOX := Template(0, Asset, None, None, true, {Personal})
  const PETTY_CASH := Template(1, Asset, None, Some(0), true, {Personal})
  const RETYPED := CASH_BOX.(kind := Liability)
  const RETYPE := Edit(0, Some(Liability), None, None, None, None)

  lemma RetypedCatalogue()
    ensures RunTemplates(map[], [Add(CASH_BOX), Add(PETTY_CASH), RETYPE]) == map[0 := RETYPED, 1 := PETTY_CASH]
  {
    OneMoreTemplate([], Add(CASH_BOX));
    OneMoreTemplate([Add(CASH_BOX)], Add(PETTY_CASH));
    OneMoreTemplate([Add(CASH_BOX), Add(PETTY_CASH)], RETYPE);
    assert [] + [Add(CASH_BOX)] == [Add(CASH_BOX)]
      && [Add(CASH_BOX)] + [Add(PETTY_CASH)] == [Add(CASH_BOX), Add(PETTY_CASH)];
    assert [Add(CASH_BOX), Add(PETTY_CASH)] + [RETYPE] == [Add(CASH_BOX), Add(PETTY_CASH), RETYPE];
  }

  lemma OneMoreTemplate(steps: seq<TemplateStep>, step: TemplateStep)
    ensures RunTemplates(map[], steps + [step]) == NextTemplates(RunTemplates(map[], steps), step)
  {
    assert (steps + [step])[..|steps|] == steps;
  }

  /** Three accepted steps: a template, one under it, and the first one retyped. A workspace seeded from
      them, here into an empty chart, has an asset under a liability. */
  lemma RetypedTemplateIsSeeded(b: BusinessId, nodes': map<AccountId, Node>)
    requires IsSeeded(map[], nodes', b, [RETYPED, PETTY_CASH], [0, 1])
    ensures Selection(RunTemplates(map[], [Add(CASH_BOX), Add(PETTY_CASH), RETYPE]), [RETYPED, PETTY_CASH])
    ensures ForestInv(Chart(map[], {})) && !ForestInv(Chart(nodes', {}))
  {
    RetypedCatalogue();
    var ts := [RETYPED, PETTY_CASH];
    assert ts[..1] == [RETYPED];
    assert ParentIndex(ts, 1) == Some(0) && ts[1].kind != ts[0].kind;
    SelectionNestsRetyped(ts);
    SeedKeepsForestIff(Chart(map[], {}), nodes', b, ts, [0, 1]);
  }

  lemma SelectionNestsRetyped(ts: seq<Template>)
    requires ts == [RETYPED, PETTY_CASH]
    ensures OneLevel(ts)
  {
    forall i | 0 <= i < |ts| && ParentIndex(ts, i).Some?
      ensures ts[ParentIndex(ts, i).value].parent.None?
    {
      assert ts[ParentIndex(ts, i).value].id == ts[i].parent.value == 0;
    }
  }

  // ----- what a caller sees

  predicate FitTemplateParent(m: Catalogue, p: TemplateId, kind: AccountType) {
    p in m && m[p].parent == None && m[p].kind == kind
  }

  /** Exactly which steps are accepted. A reserved subtype is on no new template and given to none; the
      templates that carry one keep their type, subtype, activity and workspaces; a parent is a top-level
      template of the same type, and one with templates under it does not move under another. */
  lemma TemplateAcceptedIff(m: Catalogue, step: TemplateStep)
    ensures CheckTemplate(m, step).None? <==> match step
      case Add(t) => !Reserved(t.subtype) && (t.parent != None ==> FitTemplateParent(m, t.parent.value, t.kind))
      case Edit(id, kind, subtype, parent, appliesTo, active) =>
        && id in m
        && (if Reserved(m[id].subtype) then
              && (kind == None || kind.value == m[id].kind) && (subtype == None || subtype.value == m[id].subtype)
              && active != Some(false) && (appliesTo == None || forall w | w in m[id].appliesTo :: w in appliesTo.value)
            else subtype == None || !Reserved(subtype.value))
        && (parent != None && parent.value != None ==>
          var p := parent.value.value;
          && p != id && FitTemplateParent(m, p, if kind != None then kind.value else m[id].kind)
          && forall x | x in m :: m[x].parent != Some(id))
      case Deactivate(id) => id in m && !Reserved(m[id].subtype)
  {
    ReservedIff();
  }

  /** What an accepted step leaves of each template. */
  lemma EachTemplate(m: Catalogue, step: TemplateStep, x: TemplateId)
    requires CheckTemplate(m, step).None? && (step.Add? ==> step.t.id !in m)
    ensures var after, id := NextTemplates(m, step), if step.Add? then step.t.id else step.id;
      if x != id then (x in after <==> x in m) && (x in m ==> after[x] == m[x])
      else x in after && match step
        case Add(t) => after[x] == t
        case Edit(_, kind, subtype, parent, appliesTo, active) => x in m
          && after[x].id == m[x].id
          && after[x].kind == (if kind != None then kind.value else m[x].kind)
          && after[x].subtype == (if subtype != None then subtype.value else m[x].subtype)
          && after[x].parent == (if parent != None then parent.value else m[x].parent)
          && after[x].appliesTo == (if appliesTo != None then appliesTo.value else m[x].appliesTo)
          && after[x].active == (if active != None then active.value else m[x].active)
        case Deactivate(_) => x in m && after[x] == m[x].(active := false)
  {
  }

  /** Which refusal a step is answered with. */
  lemma TemplateRefusals(m: Catalogue, step: TemplateStep)
    ensures CheckTemplate(m, step) == Some(TemplateNotFound) <==> !step.Add? && step.id !in m
    ensures CheckTemplate(m, step) == Some(ReservedTemplate) ==>
      (step.Add? && Reserved(step.t.subtype)) || (step.Edit? && step.subtype != None && Reserved(step.subtype.value))
    ensures CheckTemplate(m, step) == Some(LoadBearing) ==> !step.Add? && step.id in m && Reserved(m[step.id].subtype)
    ensures CheckTemplate(m, step) == Some(OwnTemplateParent) ==> step.Edit? && step.parent == Some(Some(step.id))
    ensures CheckTemplate(m, step) == Some(HasSubAccounts) ==>
      step.Edit? && exists x | x in m :: m[x].parent == Some(step.id)
    ensures CheckTemplate(m, step) == Some(NoSuchParent) ==> AskedParent(step) != None && AskedParent(step).value !in m
    ensures CheckTemplate(m, step) == Some(ParentNested) ==>
      AskedParent(step) != None && AskedParent(step).value in m && m[AskedParent(step).value].parent != None
    ensures CheckTemplate(m, step) == Some(ParentTypeDiffers) ==>
      AskedParent(step) != None && AskedParent(step).value in m && m[AskedParent(step).value].parent == None
  {
    ReservedIff();
  }

  /** The parent a step asks for, if it does. */
  function AskedParent(step: TemplateStep): Option<TemplateId> {
    match step
    case Add(t) => t.parent
    case Edit(_, _, _, parent, _, _) => if parent != None then parent.value else None
    case Deactivate(_) => None
  }
}
