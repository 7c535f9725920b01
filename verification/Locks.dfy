/** Locks taken in a fixed order: when waiting calls can never wait for each other in a cycle.

    A call takes an advisory lock for each of its keys, in sorted key order, and then row locks on the
    accounts it posts to, in id order; all are released when its database transaction ends. The
    advisory lock is on a hash of the key while the sorting is by the key itself, and that is where the
    exact condition lies: keys that share a hash must be neighbours in the sorted order.
 */
module Locks {
  import opened Base

  /** A key is represented by its place in the order strings are sorted in. */
  type Key = int

  datatype Resource = Advisory(hash: int) | Row(account: int)

  datatype Call = Call(keys: seq<Key>, accounts: seq<nat>)

  // ----- what one call locks, in order

  function InsertDistinct(xs: seq<int>, x: int): (r: seq<int>)
    requires Ascending(xs)
    ensures Ascending(r)
    ensures forall y :: y in r <==> y in xs || y == x
  {
    if xs == [] || xs[|xs| - 1] < x then xs + [x]
    else if xs[|xs| - 1] == x then xs
    else
      var last := xs[|xs| - 1];
      assert xs == xs[..|xs| - 1] + [last];
      var front := InsertDistinct(xs[..|xs| - 1], x);
      assert forall i :: 0 <= i < |front| ==> front[i] in front && front[i] < last;
      front + [last]
  }

  predicate Ascending(xs: seq<int>) {
    forall i, j :: 0 <= i < j < |xs| ==> xs[i] < xs[j]
  }

  /** The keys a call locks, in the order it locks them: sorted, each once. */
  function SortedDistinct(xs: seq<int>): (r: seq<int>)
    ensures Ascending(r)
    ensures forall y :: y in r <==> y in xs
  {
    if xs == [] then []
    else
      assert xs == xs[..|xs| - 1] + [xs[|xs| - 1]];
      InsertDistinct(SortedDistinct(xs[..|xs| - 1]), xs[|xs| - 1])
  }

  function AdvisoryLocks(h: Key -> int, keys: seq<Key>): (r: seq<Resource>)
    ensures |r| == |keys| && forall i :: 0 <= i < |r| ==> r[i] == Advisory(h(keys[i]))
  {
    seq(|keys|, i requires 0 <= i < |keys| => Advisory(h(keys[i])))
  }

  function RowLocks(ids: seq<int>): (r: seq<Resource>)
    ensures |r| == |ids| && forall i :: 0 <= i < |r| ==> r[i] == Row(ids[i])
  {
    seq(|ids|, i requires 0 <= i < |ids| => Row(ids[i]))
  }

  function Plan(h: Key -> int, c: Call): seq<Resource> {
    AdvisoryLocks(h, SortedDistinct(c.keys)) + RowLocks(SortedDistinct(c.accounts))
  }

  // ----- calls running side by side

  /** `at[p]` locks of call `p`'s plan are taken; a call that is done has released them all. */
  datatype State = State(at: seq<nat>, done: seq<bool>)

  datatype Move = Advance(p: nat) | GiveUp(p: nat)

  ghost predicate Shaped(plans: seq<seq<Resource>>, s: State) {
    && |s.at| == |s.done| == |plans|
    && forall p :: 0 <= p < |plans| ==> s.at[p] <= |plans[p]|
  }

  predicate Holds(plans: seq<seq<Resource>>, s: State, p: nat, r: Resource)
    requires |s.at| == |s.done| == |plans| && p < |plans| && s.at[p] <= |plans[p]|
  {
    !s.done[p] && r in plans[p][..s.at[p]]
  }

  /** A call can go on when it has all its locks, or nobody else holds the next one. */
  ghost predicate CanAdvance(plans: seq<seq<Resource>>, s: State, p: nat)
    requires Shaped(plans, s) && p < |plans|
  {
    && !s.done[p]
    && (s.at[p] < |plans[p]| ==> forall q :: 0 <= q < |plans| && q != p ==> !Holds(plans, s, q, plans[p][s.at[p]]))
  }

  ghost function Do(plans: seq<seq<Resource>>, s: State, m: Move): (s': State)
    requires Shaped(plans, s)
    ensures Shaped(plans, s')
  {
    if m.p >= |plans| then s
    else match m
      case GiveUp(p) => s.(done := s.done[p := true])
      case Advance(p) =>
        if !CanAdvance(plans, s, p) then s
        else if s.at[p] == |plans[p]| then s.(done := s.done[p := true])
        else s.(at := s.at[p := s.at[p] + 1])
  }

  function Start(n: nat): State {
    State(seq(n, _ => 0), seq(n, _ => false))
  }

  ghost function Run(plans: seq<seq<Resource>>, moves: seq<Move>): (s: State)
    ensures Shaped(plans, s)
  {
    if moves == [] then Start(|plans|) else Do(plans, Run(plans, moves[..|moves| - 1]), moves[|moves| - 1])
  }

  /** Some call is unfinished and none of the unfinished can go on. */
  ghost predicate Deadlocked(plans: seq<seq<Resource>>, s: State)
    requires Shaped(plans, s)
  {
    && (exists p :: 0 <= p < |plans| && !s.done[p])
    && (forall p :: 0 <= p < |plans| ==> !CanAdvance(plans, s, p))
  }

  // ----- locks are exclusive

  ghost predicate Exclusive(plans: seq<seq<Resource>>, s: State)
    requires Shaped(plans, s)
  {
    forall p, q, r :: 0 <= p < |plans| && 0 <= q < |plans| && p != q && Holds(plans, s, p, r) ==> !Holds(plans, s, q, r)
  }

  lemma DoKeepsExclusive(plans: seq<seq<Resource>>, s: State, m: Move)
    requires Shaped(plans, s) && Exclusive(plans, s)
    ensures Exclusive(plans, Do(plans, s, m))
  {
    var s' := Do(plans, s, m);
    forall p, q, r | 0 <= p < |plans| && 0 <= q < |plans| && p != q && Holds(plans, s', p, r)
      ensures !Holds(plans, s', q, r)
    {
      HeldBefore(plans, s, m, p, r);
      HeldBefore(plans, s, m, q, r);
    }
  }

  lemma HeldBefore(plans: seq<seq<Resource>>, s: State, m: Move, p: nat, r: Resource)
    requires Shaped(plans, s) && p < |plans|
    ensures Holds(plans, Do(plans, s, m), p, r) ==>
      Holds(plans, s, p, r) || (m == Advance(p) && CanAdvance(plans, s, p) && s.at[p] < |plans[p]| && r ==
        plans[p][s.at[p]])
    ensures m.p != p ==> (Holds(plans, Do(plans, s, m), p, r) <==> Holds(plans, s, p, r))
  {
    if s.at[p] < |plans[p]| {
      assert plans[p][..s.at[p] + 1] == plans[p][..s.at[p]] + [plans[p][s.at[p]]];
    }
  }

  lemma {:induction false} RunIsExclusive(plans: seq<seq<Resource>>, moves: seq<Move>)
    ensures Exclusive(plans, Run(plans, moves))
  {
    if moves != [] {
      RunIsExclusive(plans, moves[..|moves| - 1]);
      DoKeepsExclusive(plans, Run(plans, moves[..|moves| - 1]), moves[|moves| - 1]);
    }
  }

  // ----- a common order rules out cycles

  /** Every call takes its locks in the order of `rank`, which tells resources apart; ranks stay below `top`. */
  ghost predicate Ranked(plans: seq<seq<Resource>>, rank: Resource -> int, top: int) {
    && (forall p, i, j :: 0 <= p < |plans| && 0 <= i < j < |plans[p]| ==> rank(plans[p][i]) <= rank(plans[p][j]))
    && (forall p, i :: 0 <= p < |plans| && 0 <= i < |plans[p]| ==> rank(plans[p][i]) < top)
    && (forall p, i, q, j :: 0 <= p < |plans| && 0 <= i < |plans[p]| && 0 <= q < |plans| && 0 <= j < |plans[q]| ==>
          (rank(plans[p][i]) == rank(plans[q][j]) ==> plans[p][i] == plans[q][j]))
  }

  /** Whoever blocks a call wants something of a strictly higher rank, so a chain of waits ends. */
  lemma {:induction false} WaitsEnd(plans: seq<seq<Resource>>, rank: Resource -> int, top: int, s: State, p: nat)
    requires Shaped(plans, s) && Exclusive(plans, s) && Ranked(plans, rank, top)
    requires p < |plans| && !s.done[p]
    ensures !Deadlocked(plans, s)
    decreases top - if s.at[p] < |plans[p]| then rank(plans[p][s.at[p]]) else top
  {
    if !CanAdvance(plans, s, p) {
      var wanted := plans[p][s.at[p]];
      var q :| 0 <= q < |plans| && q != p && Holds(plans, s, q, wanted);
      if !CanAdvance(plans, s, q) {
        var i :| 0 <= i < s.at[q] && plans[q][i] == wanted;
        var next := plans[q][s.at[q]];
        assert rank(wanted) <= rank(next);
        if next == wanted {
          assert CanAdvance(plans, s, q);
        }
        WaitsEnd(plans, rank, top, s, q);
      }
    }
  }

  lemma RankedNeverDeadlocks(plans: seq<seq<Resource>>, rank: Resource -> int, top: int, moves: seq<Move>)
    requires Ranked(plans, rank, top)
    ensures !Deadlocked(plans, Run(plans, moves))
  {
    var s := Run(plans, moves);
    RunIsExclusive(plans, moves);
    if p :| 0 <= p < |plans| && !s.done[p] {
      WaitsEnd(plans, rank, top, s, p);
    }
  }

  // ----- the hash of the key

  /** Keys that share a hash are neighbours among the keys in play. A hash without collisions on them is
      the special case where every key is alone. */
  ghost predicate Convex(h: Key -> int, inPlay: set<Key>) {
    forall a, b, d | a in inPlay && b in inPlay && d in inPlay && a < b < d :: h(a) == h(d) ==> h(b) == h(a)
  }

  lemma InjectiveIsConvex(h: Key -> int, inPlay: set<Key>)
    requires forall a, b | a in inPlay && b in inPlay :: h(a) == h(b) ==> a == b
    ensures Convex(h, inPlay)
  {
  }

  ghost predicate KeysIn(calls: seq<Call>, inPlay: set<Key>) {
    forall p :: 0 <= p < |calls| ==> forall k | k in calls[p].keys :: k in inPlay
  }

  function Plans(h: Key -> int, calls: seq<Call>): (r: seq<seq<Resource>>)
    ensures |r| == |calls| && forall p :: 0 <= p < |r| ==> r[p] == Plan(h, calls[p])
  {
    seq(|calls|, p requires 0 <= p < |calls| => Plan(h, calls[p]))
  }

  /** The first key with a given hash, in an ascending list. */
  function FirstWith(h: Key -> int, keys: seq<Key>, hash: int): (k: Key)
    requires Ascending(keys)
    ensures (exists k' | k' in keys :: h(k') == hash) ==> k in keys && h(k) == hash
    ensures forall k' | k' in keys && h(k') == hash :: k <= k'
  {
    if keys == [] then 0 else if h(keys[0]) == hash then keys[0] else FirstWith(h, keys[1..], hash)
  }

  function AllKeys(calls: seq<Call>): (r: seq<Key>)
    ensures forall p :: 0 <= p < |calls| ==> forall k | k in calls[p].keys :: k in r
    ensures forall k | k in r :: exists p :: 0 <= p < |calls| && k in calls[p].keys
  {
    if calls == [] then []
    else
      assert calls == calls[..|calls| - 1] + [calls[|calls| - 1]];
      AllKeys(calls[..|calls| - 1]) + calls[|calls| - 1].keys
  }

  function AllAccounts(calls: seq<Call>): (r: seq<nat>)
    ensures forall p :: 0 <= p < |calls| ==> forall a | a in calls[p].accounts :: a in r
  {
    if calls == [] then []
    else
      assert calls == calls[..|calls| - 1] + [calls[|calls| - 1]];
      AllAccounts(calls[..|calls| - 1]) + calls[|calls| - 1].accounts
  }

  /** Above every listed number. */
  function Above(xs: seq<int>): (top: int)
    ensures top >= 0
    ensures forall x | x in xs :: x < top
  {
    if xs == [] then 0
    else
      assert xs == [xs[0]] + xs[1..];
      Max(xs[0] + 1, Above(xs[1..]))
  }

  /** A hash ranks as the first key that has it, and every account row after every key. */
  function RankOf(h: Key -> int, keys: seq<Key>): Resource -> int
    requires Ascending(keys)
  {
    (r: Resource) => match r
      case Advisory(hash) => FirstWith(h, keys, hash)
      case Row(a) => Above(keys) + a
  }

  lemma SortedKeysRankInOrder(h: Key -> int, keys: seq<Key>, k: Key, k': Key)
    requires Ascending(keys) && k in keys && k' in keys && k < k'
    requires Convex(h, set x | x in keys)
    ensures FirstWith(h, keys, h(k)) <= FirstWith(h, keys, h(k'))
  {
    assert FirstWith(h, keys, h(k')) < FirstWith(h, keys, h(k)) ==> h(k) == h(k');
  }

  /** What stands at one place of a plan: a key's lock, ranked below every row, or an account's row. */
  ghost predicate IsItem(h: Key -> int, c: Call, keys: seq<Key>, i: nat, r: Resource)
    requires Ascending(keys)
  {
    var sorted, rows := SortedDistinct(c.keys), SortedDistinct(c.accounts);
    if i < |sorted| then sorted[i] in keys && r ==
      Advisory(h(sorted[i])) && FirstWith(h, keys, h(sorted[i])) < Above(keys)
    else i - |sorted| < |rows| && r == Row(rows[i - |sorted|]) && rows[i - |sorted|] in c.accounts
  }

  lemma PlanItem(h: Key -> int, c: Call, keys: seq<Key>, i: nat)
    requires Ascending(keys) && i < |Plan(h, c)|
    requires forall k | k in c.keys :: k in keys
    ensures IsItem(h, c, keys, i, Plan(h, c)[i])
  {
    var sorted, rows := SortedDistinct(c.keys), SortedDistinct(c.accounts);
    assert Plan(h, c) == AdvisoryLocks(h, sorted) + RowLocks(rows);
    if i < |sorted| {
      assert sorted[i] in sorted;
      assert FirstWith(h, keys, h(sorted[i])) in keys;
    } else {
      assert rows[i - |sorted|] in rows;
    }
  }

  lemma PlanIsOrdered(h: Key -> int, c: Call, keys: seq<Key>, i: nat, j: nat)
    requires Ascending(keys) && Convex(h, set x | x in keys)
    requires forall k | k in c.keys :: k in keys
    requires i < j < |Plan(h, c)|
    ensures RankOf(h, keys)(Plan(h, c)[i]) <= RankOf(h, keys)(Plan(h, c)[j])
  {
    PlanItem(h, c, keys, i);
    PlanItem(h, c, keys, j);
    var sorted := SortedDistinct(c.keys);
    if j < |sorted| {
      SortedKeysRankInOrder(h, keys, sorted[i], sorted[j]);
    }
  }

  lemma PlansAreRanked(h: Key -> int, calls: seq<Call>, inPlay: set<Key>)
    requires KeysIn(calls, inPlay) && Convex(h, inPlay)
    ensures var keys := SortedDistinct(AllKeys(calls));
      Ranked(Plans(h, calls), RankOf(h, keys), Above(keys) + Above(AllAccounts(calls)))
  {
    var keys := SortedDistinct(AllKeys(calls));
    var plans, rank := Plans(h, calls), RankOf(h, keys);
    forall p, i, j | 0 <= p < |plans| && 0 <= i < j < |plans[p]|
      ensures rank(plans[p][i]) <= rank(plans[p][j])
    {
      PlanIsOrdered(h, calls[p], keys, i, j);
    }
    forall p, i | 0 <= p < |plans| && 0 <= i < |plans[p]|
      ensures rank(plans[p][i]) < Above(keys) + Above(AllAccounts(calls))
    {
      PlanItem(h, calls[p], keys, i);
    }
    forall p, i, q, j | 0 <= p < |plans| && 0 <= i < |plans[p]| && 0 <= q < |plans| && 0 <= j < |plans[q]|
      ensures rank(plans[p][i]) == rank(plans[q][j]) ==> plans[p][i] == plans[q][j]
    {
      PlanItem(h, calls[p], keys, i);
      PlanItem(h, calls[q], keys, j);
    }
  }

  /** Any number of calls, in any interleaving: as long as some call is unfinished, one can go on. */
  lemma NeverDeadlocks(h: Key -> int, calls: seq<Call>, inPlay: set<Key>, moves: seq<Move>)
    requires KeysIn(calls, inPlay) && Convex(h, inPlay)
    ensures !CanLockUp(h, calls, moves)
  {
    var keys := SortedDistinct(AllKeys(calls));
    PlansAreRanked(h, calls, inPlay);
    RankedNeverDeadlocks(Plans(h, calls), RankOf(h, keys), Above(keys) + Above(AllAccounts(calls)), moves);
  }

  /** Two calls that take the same two locks in opposite orders, one lock each. */
  lemma CrossedPlansDeadlock(plans: seq<seq<Resource>>, x: Resource, y: Resource)
    requires x != y && plans == [[x, y], [y, x]]
    ensures Deadlocked(plans, Run(plans, [Advance(0), Advance(1)]))
  {
    var moves := [Advance(0), Advance(1)];
    assert moves[..1] == [Advance(0)] && moves[..1][..0] == [];
    assert plans[0][..0] == [] && plans[1][..0] == [];
    var s0 := Run(plans, []);
    assert s0 == State([0, 0], [false, false]);
    assert CanAdvance(plans, s0, 0);
    var s1 := Do(plans, s0, Advance(0));
    assert s1 == State([1, 0], [false, false]);
    assert plans[0][..1] == [x] && plans[1][..1] == [y];
    assert CanAdvance(plans, s1, 1);
    var s2 := Do(plans, s1, Advance(1));
    assert s2 == State([1, 1], [false, false]);
    assert s2 == Run(plans, moves);
    CrossedStateIsStuck(plans, x, y);
  }

  lemma CrossedStateIsStuck(plans: seq<seq<Resource>>, x: Resource, y: Resource)
    requires x != y && plans == [[x, y], [y, x]]
    ensures Deadlocked(plans, State([1, 1], [false, false]))
  {
    var s := State([1, 1], [false, false]);
    assert plans[0][..1] == [x] && plans[1][..1] == [y];
    assert Holds(plans, s, 0, x) && Holds(plans, s, 1, y);
    assert plans[0][1] == y && plans[1][1] == x;
    assert !CanAdvance(plans, s, 0) && !CanAdvance(plans, s, 1);
    assert !s.done[0];
  }

  /** When two keys share a hash and a key sorted between them does not, two calls can lock each other
      out: sorting by the key does not sort the locks. */
  lemma NotConvexDeadlocks(h: Key -> int, inPlay: set<Key>) returns (calls: seq<Call>, moves: seq<Move>)
    requires !Convex(h, inPlay)
    ensures KeysIn(calls, inPlay) && CanLockUp(h, calls, moves)
  {
    var a, b, d :| a in inPlay && b in inPlay && d in inPlay && a < b < d && h(a) == h(d) && h(b) != h(a);
    calls := [Call([a, b], []), Call([b, d], [])];
    moves := [Advance(0), Advance(1)];
    TwoKeyPlan(h, a, b);
    TwoKeyPlan(h, b, d);
    assert Plans(h, calls) == [[Advisory(h(a)), Advisory(h(b))], [Advisory(h(b)), Advisory(h(a))]];
    CrossedPlansDeadlock(Plans(h, calls), Advisory(h(a)), Advisory(h(b)));
  }

  lemma TwoKeyPlan(h: Key -> int, a: Key, b: Key)
    requires a < b
    ensures Plan(h, Call([a, b], [])) == [Advisory(h(a)), Advisory(h(b))]
  {
    assert [a, b][..1] == [a] && [a][..0] == [];
    assert SortedDistinct([a]) == [a];
    assert SortedDistinct([a, b]) == [a, b];
  }

  ghost predicate CanLockUp(h: Key -> int, calls: seq<Call>, moves: seq<Move>) {
    Deadlocked(Plans(h, calls), Run(Plans(h, calls), moves))
  }

  /** Exactly when no calls over a set of keys, however interleaved, can lock each other out. */
  lemma DeadlockFreeIffConvex(h: Key -> int, inPlay: set<Key>)
    ensures Convex(h, inPlay) <==> forall calls, moves :: KeysIn(calls, inPlay) ==> !CanLockUp(h, calls, moves)
  {
    if Convex(h, inPlay) {
      forall calls, moves | KeysIn(calls, inPlay)
        ensures !CanLockUp(h, calls, moves)
      {
        NeverDeadlocks(h, calls, inPlay, moves);
      }
    } else {
      var calls, moves := NotConvexDeadlocks(h, inPlay);
    }
  }
}
