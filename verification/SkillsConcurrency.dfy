/** Several edits of one skill at once: each reads the row, derives the new one, and writes only if the row
    is still the one it read, up to three times.
 */
module SkillsConcurrency {
  import opened Base
  import opened Skills

  const TRIES := 3

  /** What an attempt read, at which version of the row, and when. `began` is the version at its start. */
  datatype Snapshot = Snapshot(track: Track, version: nat, now: int)

  datatype Editor = Editor(edit: Edit, began: nat, tries: nat, seen: Option<Snapshot>)

  /** The version stands for the row's time of last change. */
  datatype State = State(track: Track, version: nat, editors: map<nat, Editor>, conflicts: set<nat>)

  datatype Action =
    | Begin(p: nat, e: Edit)
    | Read(p: nat, now: int)
    | Write(p: nat)

  function Ended(st: State, p: nat): State {
    st.(editors := st.editors - {p})
  }

  /** Deriving may fail the request; otherwise the guarded write follows. */
  function DoRead(st: State, p: nat, d: Editor, now: int): State {
    if d.seen.Some? then st
    else if Applied(st.track, d.edit, now).Err? then Ended(st, p)
    else st.(editors := st.editors[p := d.(seen := Some(Snapshot(st.track, st.version, now)))])
  }

  function DoWrite(st: State, p: nat, d: Editor): State {
    if d.seen.None? then st
    else
      var s := d.seen.value;
      if s.version == st.version then Ended(st, p).(track := After(s.track, d.edit, s.now), version := st.version + 1)
      else if d.tries + 1 == TRIES then Ended(st, p).(conflicts := st.conflicts + {p})
      else st.(editors := st.editors[p := d.(tries := d.tries + 1, seen := None)])
  }

  function Do(st: State, act: Action): State {
    match act
    case Begin(p, e) => if p in st.editors || p in st.conflicts then st
      else st.(editors := st.editors[p := Editor(e, st.version, 0, None)])
    case Read(p, now) => if p in st.editors then DoRead(st, p, st.editors[p], now) else st
    case Write(p) => if p in st.editors then DoWrite(st, p, st.editors[p]) else st
  }

  function Interleave(st: State, acts: seq<Action>): State {
    if acts == [] then st else Do(Interleave(st, acts[..|acts| - 1]), acts[|acts| - 1])
  }

  /** A write goes through when the row is still the one its editor read. */
  predicate GoesThrough(st: State, act: Action) {
    act.Write? && act.p in st.editors && st.editors[act.p].seen.Some?
      && st.editors[act.p].seen.value.version == st.version
  }

  function WrittenNow(st: State, act: Action): seq<Request> {
    if GoesThrough(st, act) then [Request(st.editors[act.p].edit, st.editors[act.p].seen.value.now)] else []
  }

  /** The edits whose guarded writes went through, each at the time its editor read the row, in the order
      they were written. */
  function Written(st: State, acts: seq<Action>): seq<Request> {
    if acts == [] then []
    else
      var n := |acts| - 1;
      Written(st, acts[..n]) + WrittenNow(Interleave(st, acts[..n]), acts[n])
  }

  /** A snapshot of the current version is the current row, and every lost race is one version further. */
  ghost predicate Fresh(st: State, d: Editor) {
    && ValidEdit(d.edit)
    && d.tries < TRIES
    && d.began + d.tries <= st.version
    && (d.seen.Some? ==> d.began + d.tries <= d.seen.value.version <= st.version)
    && (d.seen.Some? && d.seen.value.version == st.version ==> d.seen.value.track == st.track)
  }

  ghost predicate Inv(st: State) {
    forall p | p in st.editors :: Fresh(st, st.editors[p])
  }

  ghost predicate AllValid(acts: seq<Action>) {
    forall i :: 0 <= i < |acts| && acts[i].Begin? ==> ValidEdit(acts[i].e)
  }

  lemma ActionKeeps(st: State, act: Action)
    requires Inv(st) && (act.Begin? ==> ValidEdit(act.e))
    ensures Inv(Do(st, act))
  {
    var st' := Do(st, act);
    forall q | q in st'.editors
      ensures Fresh(st', st'.editors[q])
    {
      if q in st.editors {
        assert Fresh(st, st.editors[q]);
      }
    }
  }

  /** The row changes only by a whole edit applied to the row as it stands. */
  lemma ChangeIsAnEdit(st: State, act: Action)
    requires Inv(st)
    ensures var rs := WrittenNow(st, act);
      Do(st, act).track == RunEdits(st.track, rs) && Do(st, act).version == st.version + |rs|
    ensures forall r | r in WrittenNow(st, act) :: ValidEdit(r.edit)
  {
    if act.Write? && act.p in st.editors {
      var d := st.editors[act.p];
      assert Fresh(st, d);
      if GoesThrough(st, act) {
        assert [Request(d.edit, d.seen.value.now)][..0] == [];
      }
    }
  }

  lemma {:induction false} RunConcat(t: Track, rs: seq<Request>, more: seq<Request>)
    ensures RunEdits(t, rs + more) == RunEdits(RunEdits(t, rs), more)
  {
    if more == [] {
      assert rs + more == rs;
    } else {
      var n := |more| - 1;
      assert (rs + more)[..|rs + more| - 1] == rs + more[..n];
      RunConcat(t, rs, more[..n]);
    }
  }

  /** No written edit is lost and none is applied to a row it did not see: any interleaving leaves the skill
      and its log as a serial run of exactly the edits written, one version each. */
  lemma {:induction false} InterleavingIsSerial(st: State, acts: seq<Action>)
    requires Inv(st) && AllValid(acts)
    ensures Inv(Interleave(st, acts))
    ensures Interleave(st, acts).track == RunEdits(st.track, Written(st, acts))
    ensures Interleave(st, acts).version == st.version + |Written(st, acts)|
    ensures forall r | r in Written(st, acts) :: ValidEdit(r.edit)
  {
    if acts != [] {
      var n := |acts| - 1;
      InterleavingIsSerial(st, acts[..n]);
      var st1 := Interleave(st, acts[..n]);
      ActionKeeps(st1, acts[n]);
      ChangeIsAnEdit(st1, acts[n]);
      RunConcat(st.track, Written(st, acts[..n]), WrittenNow(st1, acts[n]));
    }
  }

  ghost predicate Began(acts: seq<Action>, p: nat, e: Edit) {
    Begin(p, e) in acts
  }

  /** Every edit written was asked for. */
  lemma {:induction false} WrittenWasBegun(st: State, acts: seq<Action>)
    requires st.editors == map[]
    ensures forall p | p in Interleave(st, acts).editors :: Began(acts, p, Interleave(st, acts).editors[p].edit)
    ensures forall r | r in Written(st, acts) :: exists p :: Began(acts, p, r.edit)
  {
    if acts != [] {
      var n := |acts| - 1;
      WrittenWasBegun(st, acts[..n]);
      assert acts == acts[..n] + [acts[n]];
      assert forall p, e | Began(acts[..n], p, e) :: Began(acts, p, e);
    }
  }

  /** So the shelf and the activity log stay consistent in every interleaving. */
  lemma InterleavingKeepsTrack(st: State, acts: seq<Action>, initial: int)
    requires Inv(st) && AllValid(acts) && TrackInv(st.track, initial)
    ensures TrackInv(Interleave(st, acts).track, initial)
  {
    InterleavingIsSerial(st, acts);
    RunKeepsTrack(st.track, Written(st, acts), initial);
  }

  /** A request is turned away with a conflict only after three other edits were written since it began. */
  lemma ConflictMeansThreeOthers(st: State, p: nat)
    requires Inv(st) && p !in st.conflicts && p in Do(st, Write(p)).conflicts
    ensures p in st.editors && st.version >= st.editors[p].began + TRIES
  {
    assert Fresh(st, st.editors[p]);
  }

  /** An edit that nobody interferes with is written: one read, one write. */
  lemma AloneIsWritten(st: State, p: nat, e: Edit, now: int)
    requires p !in st.editors && p !in st.conflicts && Applied(st.track, e, now).Ok?
    ensures var acts := [Begin(p, e), Read(p, now), Write(p)];
      Written(st, acts) == [Request(e, now)] && Interleave(st, acts).track == Applied(st.track, e, now).value
  {
    var x, y, z := Begin(p, e), Read(p, now), Write(p);
    OneMoreWrite(st, [], x);
    OneMoreWrite(st, [] + [x], y);
    OneMoreWrite(st, [] + [x] + [y], z);
    assert [] + [x] + [y] + [z] == [x, y, z];
  }

  lemma OneMoreWrite(st: State, acts: seq<Action>, act: Action)
    ensures Interleave(st, acts + [act]) == Do(Interleave(st, acts), act)
    ensures Written(st, acts + [act]) == Written(st, acts) + WrittenNow(Interleave(st, acts), act)
  {
    assert (acts + [act])[..|acts|] == acts;
  }

  /** How an attempt to write ends: it goes through if the row is still at the version that was read; else the
      request reads again, unless this was its third try, which ends it in a conflict. */
  lemma WriteEnds(st: State, p: nat)
    requires Inv(st) && p in st.editors && st.editors[p].seen.Some?
    ensures var d, after := st.editors[p], Do(st, Write(p));
      if d.seen.value.version == st.version then
        p !in after.editors && after.conflicts == st.conflicts && after.version == st.version + 1
      else
        && after.track == st.track && after.version == st.version
        && (if d.tries + 1 < 3 then p in after.editors && after.conflicts == st.conflicts
              && after.editors[p] == Editor(d.edit, d.began, d.tries + 1, None)
            else p !in after.editors && after.conflicts == st.conflicts + {p})
  {
    assert Fresh(st, st.editors[p]);
  }
}
