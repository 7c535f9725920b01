/** The monthly table and the category breakdown: two queries over the same categorised entries. */
module MonthlyReports {
  import opened Base
  import opened Sorting
  import opened Ledger

  /** Live postings of one type; `start` is inclusive and `end` exclusive. */
  datatype Scope = Scope(b: BusinessId, txType: TxType, start: int, end: int, wallet: Option<AccountId>)

  predicate InScope(s: Scope, t: Tx) {
    && t.business == s.b && !t.voided && t.reversalOf.None? && t.txType == s.txType
    && s.start <= t.date < s.end
    && (s.wallet.Some? ==> s.wallet.value in Touched(t.entries))
  }

  function Entries(txs: seq<Tx>, s: Scope): seq<Entry> {
    if txs == [] then []
    else
      var t := txs[|txs| - 1];
      if InScope(s, t) then Entries(txs[..|txs| - 1], s) + t.entries else Entries(txs[..|txs| - 1], s)
  }

  /** Entries of categories whose name is kept. An entry without a category is on the other side of its pair. */
  function Kept(keep: string -> bool): Entry -> int {
    (e: Entry) => if e.category.Some? && keep(e.category.value) then e.amount else 0
  }

  function AnyName(): string -> bool {
    (name: string) => true
  }

  function NonEmpty(): string -> bool {
    (name: string) => name != ""
  }

  function Nameless(): string -> bool {
    (name: string) => name == ""
  }

  function OfCategory(name: string): Entry -> int {
    (e: Entry) => if e.category == Some(name) then e.amount else 0
  }

  // ----- the grouping queries

  datatype Group = Group(name: string, amount: int)

  predicate HasCategory(es: seq<Entry>, name: string) {
    exists i :: 0 <= i < |es| && es[i].category == Some(name)
  }

  predicate HasGroup(groups: seq<Group>, name: string) {
    exists i :: 0 <= i < |groups| && groups[i].name == name
  }

  ghost predicate DistinctNames(groups: seq<Group>) {
    forall i, j :: 0 <= i < j < |groups| ==> groups[i].name != groups[j].name
  }

  /** What a group-by-category query may return for these entries, in whatever order. */
  ghost predicate IsGrouping(es: seq<Entry>, groups: seq<Group>) {
    && DistinctNames(groups)
    && (forall name :: HasGroup(groups, name) <==> HasCategory(es, name))
    && (forall i :: 0 <= i < |groups| ==> groups[i].amount == SumBy(es, OfCategory(groups[i].name)))
  }

  function KeptGroup(keep: string -> bool): Group -> int {
    (g: Group) => if keep(g.name) then g.amount else 0
  }

  function GroupTable(keep: string -> bool): (Group, Entry) -> int {
    (g: Group, e: Entry) => if keep(g.name) && e.category == Some(g.name) then e.amount else 0
  }

  /** Group by group or entry by entry, kept names add up to the same. */
  lemma GroupsAddUp(es: seq<Entry>, groups: seq<Group>, keep: string -> bool)
    requires IsGrouping(es, groups)
    ensures SumBy(groups, KeptGroup(keep)) == SumBy(es, Kept(keep))
  {
    var f := GroupTable(keep);
    SumSwap(groups, es, f);
    forall i | 0 <= i < |groups|
      ensures RowSum(es, f)(groups[i]) == KeptGroup(keep)(groups[i])
    {
      if keep(groups[i].name) {
        SumCong(es, At(groups[i], f), OfCategory(groups[i].name));
      } else {
        SumZero(es, At(groups[i], f));
      }
    }
    SumCong(groups, RowSum(es, f), KeptGroup(keep));
    forall k | 0 <= k < |es|
      ensures ColumnSum(groups, f)(es[k]) == Kept(keep)(es[k])
    {
      EntryGroupedOnce(es, groups, keep, k);
    }
    SumCong(es, ColumnSum(groups, f), Kept(keep));
  }

  lemma EntryGroupedOnce(es: seq<Entry>, groups: seq<Group>, keep: string -> bool, k: nat)
    requires IsGrouping(es, groups) && k < |es|
    ensures SumBy(groups, Column(es[k], GroupTable(keep))) == Kept(keep)(es[k])
  {
    var e := es[k];
    if e.category.Some? {
      assert HasCategory(es, e.category.value);
      assert HasGroup(groups, e.category.value);
      var i :| 0 <= i < |groups| && groups[i].name == e.category.value;
      SumSingle(groups, Column(e, GroupTable(keep)), i);
    } else {
      SumZero(groups, Column(e, GroupTable(keep)));
    }
  }

  // ----- the category breakdown

  const TOP := 10

  function GroupAmount(): Group -> int {
    (g: Group) => g.amount
  }

  function LargestFirst(): Group -> int {
    (g: Group) => -g.amount
  }

  /** The true total over every category, and the ten largest. */
  function CategoryBreakdown(groups: seq<Group>): (int, seq<Group>) {
    var sorted := SortByDate(groups, LargestFirst());
    (SumBy(sorted, GroupAmount()), if |sorted| <= TOP then sorted else sorted[..TOP])
  }

  lemma InPrefix<T>(xs: seq<T>, n: nat, j: nat)
    requires n <= |xs| && j < |xs|
    ensures j < n ==> xs[j] in xs[..n]
  {
    if j < n {
      assert xs[..n][j] == xs[j];
    }
  }

  /** The total counts every categorised entry in scope once, whatever order the query returns groups in,
      and no category left off the list is larger than one on it. */
  lemma BreakdownIsTrueTotal(es: seq<Entry>, groups: seq<Group>)
    requires IsGrouping(es, groups)
    ensures CategoryBreakdown(groups).0 == SumBy(es, Kept(AnyName()))
    ensures forall g, h :: g in CategoryBreakdown(groups).1 && h in groups && h !in CategoryBreakdown(groups).1 ==>
      h.amount <= g.amount
  {
    var sorted := SortByDate(groups, LargestFirst());
    SortKeepsRows(groups, LargestFirst());
    SortOrders(groups, LargestFirst());
    SumPermutation(sorted, groups, GroupAmount());
    SumCong(groups, GroupAmount(), KeptGroup(AnyName()));
    GroupsAddUp(es, groups, AnyName());
    var top := CategoryBreakdown(groups).1;
    forall g, h | g in top && h in groups && h !in top
      ensures h.amount <= g.amount
    {
      assert h in multiset(sorted);
      var i :| 0 <= i < |top| && top[i] == g;
      var j :| 0 <= j < |sorted| && sorted[j] == h;
      InPrefix(sorted, |top|, j);
      assert LargestFirst()(sorted[i]) <= LargestFirst()(sorted[j]);
    }
  }

  // ----- the monthly table

  function AmountFor(name: string): Group -> int {
    (g: Group) => if g.name == name then g.amount else 0
  }

  function NameAmount(groups: seq<Group>, name: string): int {
    SumBy(groups, AmountFor(name))
  }

  datatype ReportRow = ReportRow(name: string, amounts: seq<int>, total: int)

  datatype Report = Report(rows: seq<ReportRow>, totals: seq<int>, total: int)

  function Itself(): int -> int {
    (x: int) => x
  }

  /** One row's amounts after months before `m` are done and `m` has come as far as `done`. */
  function AmountsSoFar(grouped: seq<seq<Group>>, m: nat, done: nat, name: string): seq<int>
    requires m < |grouped| && done <= |grouped[m]|
  {
    seq(|grouped|, k requires 0 <= k < |grouped| =>
      if k < m then NameAmount(grouped[k], name) else if k == m then NameAmount(grouped[m][..done], name) else 0)
  }

  function Amounts(grouped: seq<seq<Group>>, name: string): seq<int> {
    seq(|grouped|, k requires 0 <= k < |grouped| => NameAmount(grouped[k], name))
  }

  ghost predicate SeenBefore(grouped: seq<seq<Group>>, m: nat, done: nat, name: string)
    requires m < |grouped| && done <= |grouped[m]|
  {
    name != "" && ((exists k :: 0 <= k < m && HasGroup(grouped[k], name)) || HasGroup(grouped[m][..done], name))
  }

  /** The amounts by name, with the names in the order they first came up. */
  ghost predicate FilledSoFar(grouped: seq<seq<Group>>, m: nat, done: nat, byName: map<string, seq<int>>,
      names: seq<string>)
    requires m < |grouped| && done <= |grouped[m]|
  {
    && (forall i, j :: 0 <= i < j < |names| ==> names[i] != names[j])
    && (forall name :: name in names <==> name in byName)
    && (forall name :: name in byName <==> SeenBefore(grouped, m, done, name))
    && (forall name | name in byName :: byName[name] == AmountsSoFar(grouped, m, done, name))
  }

  lemma NotSeenIsZero(groups: seq<Group>, name: string)
    ensures !HasGroup(groups, name) ==> NameAmount(groups, name) == 0
  {
    if !HasGroup(groups, name) {
      SumZero(groups, AmountFor(name));
    }
  }

  lemma UnseenAmountsZero(grouped: seq<seq<Group>>, m: nat, done: nat, name: string)
    requires m < |grouped| && done <= |grouped[m]| && name != "" && !SeenBefore(grouped, m, done, name)
    ensures AmountsSoFar(grouped, m, done, name) == seq(|grouped|, _ => 0)
  {
    forall k | 0 <= k < |grouped|
      ensures AmountsSoFar(grouped, m, done, name)[k] == 0
    {
      NotSeenIsZero(if k == m then grouped[m][..done] else grouped[k], name);
    }
  }

  lemma HasGroupSnoc(groups: seq<Group>, g: Group, name: string)
    ensures HasGroup(groups + [g], name) <==> HasGroup(groups, name) || g.name == name
  {
    if HasGroup(groups, name) {
      var i :| 0 <= i < |groups| && groups[i].name == name;
      assert (groups + [g])[i].name == name;
    }
    if g.name == name {
      assert (groups + [g])[|groups|].name == name;
    }
  }

  /** Writing a group's amount into its month is right because a query names each category once. */
  lemma WroteOne(grouped: seq<seq<Group>>, m: nat, j: nat, name: string)
    requires m < |grouped| && j < |grouped[m]| && DistinctNames(grouped[m])
    ensures var g := grouped[m][j];
      AmountsSoFar(grouped, m, j + 1, name) == if g.name == name then AmountsSoFar(grouped, m, j, name)[m := g.amount]
        else AmountsSoFar(grouped, m, j, name)
    ensures name != "" ==>
      (SeenBefore(grouped, m, j + 1, name) <==> SeenBefore(grouped, m, j, name) || grouped[m][j].name == name)
  {
    var g := grouped[m][j];
    assert grouped[m][..j + 1] == grouped[m][..j] + [g];
    SumSnoc(grouped[m][..j], g, AmountFor(name));
    HasGroupSnoc(grouped[m][..j], g, name);
    if g.name == name {
      NotSeenIsZero(grouped[m][..j], name);
    }
  }

  function BeforeMonth(grouped: seq<seq<Group>>, byName: map<string, seq<int>>, name: string): seq<int> {
    if name in byName then byName[name] else seq(|grouped|, _ => 0)
  }

  /** What writing group `g` of month `m` does to the table. */
  function Wrote(grouped: seq<seq<Group>>, byName: map<string, seq<int>>, m: nat, g: Group): map<string, seq<int>>
    requires m < |grouped| && forall name | name in byName :: |byName[name]| == |grouped|
  {
    if g.name == "" then byName else byName[g.name := BeforeMonth(grouped, byName, g.name)[m := g.amount]]
  }

  function NamesWith(byName: map<string, seq<int>>, names: seq<string>, name: string): seq<string> {
    if name == "" || name in byName then names else names + [name]
  }

  lemma NamesOneMore(grouped: seq<seq<Group>>, m: nat, j: nat, byName: map<string, seq<int>>, names: seq<string>)
    requires m < |grouped| && j < |grouped[m]| && FilledSoFar(grouped, m, j, byName, names)
    ensures var names' := NamesWith(byName, names, grouped[m][j].name);
      && (forall i, j :: 0 <= i < j < |names'| ==> names'[i] != names'[j])
      && (forall name :: name in names' <==> name in Wrote(grouped, byName, m, grouped[m][j]))
  {
    forall i | 0 <= i < |names|
      ensures names[i] in byName
    {
      assert names[i] in names;
    }
  }

  lemma SeenOneMore(grouped: seq<seq<Group>>, m: nat, j: nat, byName: map<string, seq<int>>, names: seq<string>,
      name: string)
    requires m < |grouped| && j < |grouped[m]| && DistinctNames(grouped[m]) && FilledSoFar(grouped, m, j, byName, names)
    ensures var byName' := Wrote(grouped, byName, m, grouped[m][j]);
      && (name in byName' <==> SeenBefore(grouped, m, j + 1, name))
      && (name in byName' ==> byName'[name] == AmountsSoFar(grouped, m, j + 1, name))
  {
    WroteOne(grouped, m, j, name);
    if name != "" && name !in byName {
      UnseenAmountsZero(grouped, m, j, name);
    }
  }

  lemma FilledOneMore(grouped: seq<seq<Group>>, m: nat, j: nat, byName: map<string, seq<int>>, names: seq<string>)
    requires m < |grouped| && j < |grouped[m]| && DistinctNames(grouped[m])
    requires FilledSoFar(grouped, m, j, byName, names)
    ensures FilledSoFar(grouped, m, j + 1, Wrote(grouped, byName, m, grouped[m][j]),
      NamesWith(byName, names, grouped[m][j].name))
  {
    NamesOneMore(grouped, m, j, byName, names);
    forall name
      ensures var byName' := Wrote(grouped, byName, m, grouped[m][j]);
        && (name in byName' <==> SeenBefore(grouped, m, j + 1, name))
        && (name in byName' ==> byName'[name] == AmountsSoFar(grouped, m, j + 1, name))
    {
      SeenOneMore(grouped, m, j, byName, names, name);
    }
  }

  lemma NextMonth(grouped: seq<seq<Group>>, m: nat, byName: map<string, seq<int>>, names: seq<string>)
    requires m + 1 < |grouped| && FilledSoFar(grouped, m, |grouped[m]|, byName, names)
    ensures FilledSoFar(grouped, m + 1, 0, byName, names)
  {
    assert grouped[m][..|grouped[m]|] == grouped[m];
    forall name
      ensures SeenBefore(grouped, m + 1, 0, name) <==> SeenBefore(grouped, m, |grouped[m]|, name)
      ensures AmountsSoFar(grouped, m + 1, 0, name) == AmountsSoFar(grouped, m, |grouped[m]|, name)
    {
      NotSeenIsZero(grouped[m + 1][..0], name);
    }
  }

  /** The names that occur in some month, the empty one left out, each with one amount per month. */
  ghost predicate IsTable(grouped: seq<seq<Group>>, byName: map<string, seq<int>>, names: seq<string>) {
    && (forall i, j :: 0 <= i < j < |names| ==> names[i] != names[j])
    && (forall name :: name in names <==> name in byName)
    && (forall name :: name in byName <==> name != "" && exists k :: 0 <= k < |grouped| && HasGroup(grouped[k], name))
    && (forall name | name in byName :: byName[name] == Amounts(grouped, name))
  }

  /** One month's groups written into their names' arrays. */
  method FillMonth(grouped: seq<seq<Group>>, m: nat, byName0: map<string, seq<int>>, names0: seq<string>)
    returns (byName: map<string, seq<int>>, names: seq<string>)
    requires m < |grouped| && DistinctNames(grouped[m]) && FilledSoFar(grouped, m, 0, byName0, names0)
    ensures FilledSoFar(grouped, m, |grouped[m]|, byName, names)
  {
    byName, names := byName0, names0;
    for j := 0 to |grouped[m]|
      invariant FilledSoFar(grouped, m, j, byName, names)
    {
      var g := grouped[m][j];
      FilledOneMore(grouped, m, j, byName, names);
      if g.name != "" {
        names := if g.name in byName then names else names + [g.name];
        var amounts := if g.name in byName then byName[g.name] else seq(|grouped|, _ => 0);
        byName := byName[g.name := amounts[m := g.amount]];
      }
    }
  }

  method FillTable(grouped: seq<seq<Group>>) returns (byName: map<string, seq<int>>, names: seq<string>)
    requires forall m :: 0 <= m < |grouped| ==> DistinctNames(grouped[m])
    ensures IsTable(grouped, byName, names)
  {
    byName, names := map[], [];
    if |grouped| == 0 {
      return;
    }
    assert FilledSoFar(grouped, 0, 0, byName, names);
    byName, names := FillMonth(grouped, 0, byName, names);
    for m := 1 to |grouped|
      invariant FilledSoFar(grouped, m - 1, |grouped[m - 1]|, byName, names)
    {
      NextMonth(grouped, m - 1, byName, names);
      byName, names := FillMonth(grouped, m, byName, names);
    }
    TableFilled(grouped, byName, names);
  }

  lemma TableFilled(grouped: seq<seq<Group>>, byName: map<string, seq<int>>, names: seq<string>)
    requires |grouped| > 0 && FilledSoFar(grouped, |grouped| - 1, |grouped[|grouped| - 1]|, byName, names)
    ensures IsTable(grouped, byName, names)
  {
    var m := |grouped| - 1;
    assert grouped[m][..|grouped[m]|] == grouped[m];
    forall name
      ensures SeenBefore(grouped, m, |grouped[m]|, name) <==>
        name != "" && exists k :: 0 <= k < |grouped| && HasGroup(grouped[k], name)
      ensures AmountsSoFar(grouped, m, |grouped[m]|, name) == Amounts(grouped, name)
    {
    }
  }
}
