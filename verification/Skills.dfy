/** Skills: a shelf item with a daily activity log that accounts for the progress the user reported. */
module Skills {
  import opened Base
  import opened Shelves

  const MAX_LESSONS := 2000
  const MAX_MINUTES := 60000

  datatype Unit = Lessons | Hours

  /** `logged` is the progress the activity log last accounted for. */
  datatype Skill = Skill(skillUnit: Unit, target: int, progress: int, logged: int, status: Status,
      startedAt: Option<int>, completedAt: Option<int>)

  datatype LogRow = LogRow(date: int, amount: int)

  /** One skill and its rows in the activity log. */
  datatype Track = Track(skill: Skill, log: seq<LogRow>)

  datatype Edit = Edit(target: Option<int>, progress: Option<int>, status: Option<Status>)

  datatype SkillError = TooManyLessons | TooManyMinutes | OffShelf(error: ShelfError)

  function CheckTarget(u: Unit, target: int): Option<SkillError> {
    if u.Lessons? && target > MAX_LESSONS then Some(TooManyLessons)
    else if u.Hours? && target > MAX_MINUTES then Some(TooManyMinutes)
    else None
  }

  function AsItem(s: Skill): Item {
    Item(s.status, s.progress, s.startedAt, s.completedAt)
  }

  function TargetOf(s: Skill, e: Edit): int {
    if e.target.Some? then e.target.value else s.target
  }

  function ChangeOf(s: Skill, e: Edit): Change {
    Change(e.status, e.progress, TargetOf(s, e))
  }

  datatype Built = Built(skill: Skill, delta: int, reported: bool)

  /** The new row, and how much activity to record: only progress the user reports is activity. */
  function BuildUpdate(s: Skill, e: Edit, now: int): Result<Built, SkillError> {
    var target := TargetOf(s, e);
    var bad := CheckTarget(s.skillUnit, target);
    if bad.Some? then Err(bad.value)
    else match SettleShelf(AsItem(s), ChangeOf(s, e), now)
      case Err(error) => Err(OffShelf(error))
      case Ok(Settled(item, reported)) =>
        var logged := if reported then item.progress else Min(s.logged, item.progress);
        var delta := if reported then item.progress - s.logged else 0;
        Ok(Built(Skill(s.skillUnit, target, item.progress, logged, item.status, item.startedAt, item.doneAt), delta,
          reported))
  }

  const DAY_MS := 86400000
  const DHAKA_OFFSET_MS := 21600000

  /** The Asia/Dhaka calendar day of an instant in milliseconds. */
  function DhakaDay(now: int): int {
    (now + DHAKA_OFFSET_MS) / DAY_MS
  }

  function FindDay(log: seq<LogRow>, date: int): (k: Option<nat>)
    ensures k.Some? ==> k.value < |log| && log[k.value].date == date
    ensures k.None? ==> forall i :: 0 <= i < |log| ==> log[i].date != date
  {
    if log == [] then None
    else if log[|log| - 1].date == date then Some(|log| - 1)
    else FindDay(log[..|log| - 1], date)
  }

  /** An increase goes onto the day's row, a decrease comes off it; a row at or below zero goes. */
  function Adjusted(log: seq<LogRow>, delta: int, date: int): seq<LogRow> {
    var k := FindDay(log, date);
    if delta == 0 then log
    else if delta > 0 then
      if k.Some? then log[k.value := LogRow(date, log[k.value].amount + delta)] else log + [LogRow(date, delta)]
    else if k.None? then log
    else if log[k.value].amount + delta <= 0 then log[..k.value] + log[k.value + 1..]
    else log[k.value := LogRow(date, log[k.value].amount + delta)]
  }

  function Applied(t: Track, e: Edit, now: int): Result<Track, SkillError> {
    match BuildUpdate(t.skill, e, now)
    case Err(error) => Err(error)
    case Ok(Built(skill, delta, _)) => Ok(Track(skill, Adjusted(t.log, delta, DhakaDay(now))))
  }

  /** A new skill's log starts out accounting for its initial progress. */
  function Created(u: Unit, target: int, progress: Option<int>, status: Option<Status>,
      now: int): Result<Track, SkillError> {
    var bad := CheckTarget(u, target);
    if bad.Some? then Err(bad.value)
    else match SettleShelf(NEW_ITEM, Change(status, progress, target), now)
      case Err(error) => Err(OffShelf(error))
      case Ok(Settled(item,
        _)) => Ok(Track(Skill(u, target, item.progress, item.progress, item.status, item.startedAt, item.doneAt), []))
  }

  class SkillsService {
    var skill: Skill
    var log: seq<LogRow>

    constructor (t: Track)
      ensures Row() == t
    {
      skill, log := t.skill, t.log;
    }

    function Row(): Track
      reads this
    {
      Track(skill, log)
    }

    method AdjustLog(delta: int, date: int)
      requires delta != 0
      modifies this`log
      ensures log == Adjusted(old(log), delta, date)
    {
      var k := FindDay(log, date);
      if delta > 0 {
        if k.Some? {
          log := log[k.value := LogRow(date, log[k.value].amount + delta)];
        } else {
          log := log + [LogRow(date, delta)];
        }
        return;
      }
      if k.None? {
        return;
      }
      var next := log[k.value].amount + delta;
      if next <= 0 {
        log := log[..k.value] + log[k.value + 1..];
      } else {
        log := log[k.value := LogRow(date, next)];
      }
    }

    method Update(e: Edit, now: int) returns (problem: Option<SkillError>)
      modifies this
      ensures match Applied(old(Row()), e, now)
        case Ok(t) => problem == None && Row() == t
        case Err(error) => problem == Some(error) && Row() == old(Row())
    {
      var built := BuildUpdate(skill, e, now);
      if built.Err? {
        return Some(built.error);
      }
      skill := built.value.skill;
      if built.value.delta != 0 {
        AdjustLog(built.value.delta, DhakaDay(now));
      }
      return None;
    }
  }

  // ----- what every edit keeps

  predicate ValidEdit(e: Edit) {
    && (e.target.Some? ==> e.target.value >= 1)
    && (e.progress.Some? ==> e.progress.value >= 0)
  }

  function Logged(): LogRow -> int {
    (r: LogRow) => r.amount
  }

  ghost predicate LogSound(log: seq<LogRow>) {
    && (forall i :: 0 <= i < |log| ==> log[i].amount > 0)
    && (forall i, j :: 0 <= i < j < |log| ==> log[i].date != log[j].date)
  }

  predicate SkillSound(s: Skill) {
    && s.target >= 1
    && OnItsShelf(AsItem(s), s.target)
    && 0 <= s.logged <= s.progress
  }

  /** What the log holds beyond the progress it accounts for; `initial` is the progress the skill was
      created with. */
  function Slack(t: Track, initial: int): int {
    SumBy(t.log, Logged()) + initial - t.skill.logged
  }

  ghost predicate TrackInv(t: Track, initial: int) {
    SkillSound(t.skill) && LogSound(t.log) && Slack(t, initial) >= 0
  }

  function DayAmount(log: seq<LogRow>, date: int): int {
    var k := FindDay(log, date);
    if k.Some? then log[k.value].amount else 0
  }

  /** The part of a decrease the day's row cannot give back. */
  function Uncovered(log: seq<LogRow>, delta: int, date: int): int {
    Max(0, -delta - DayAmount(log, date))
  }

  lemma RowChanged(log: seq<LogRow>, k: nat, amount: int)
    requires LogSound(log) && k < |log| && amount > 0
    ensures LogSound(log[k := LogRow(log[k].date, amount)])
    ensures SumBy(log[k := LogRow(log[k].date, amount)], Logged()) == SumBy(log, Logged()) - log[k].amount + amount
  {
    SumUpdate(log, k, LogRow(log[k].date, amount), Logged());
  }

  lemma RowGone(log: seq<LogRow>, k: nat)
    requires LogSound(log) && k < |log|
    ensures LogSound(log[..k] + log[k + 1..])
    ensures SumBy(log[..k] + log[k + 1..], Logged()) == SumBy(log, Logged()) - log[k].amount
  {
    SumRemove(log, k, Logged());
  }

  lemma AdjustKeepsLog(log: seq<LogRow>, delta: int, date: int)
    requires LogSound(log)
    ensures LogSound(Adjusted(log, delta, date))
    ensures SumBy(Adjusted(log, delta, date), Logged()) == SumBy(log, Logged()) + delta + Uncovered(log, delta, date)
  {
    var k := FindDay(log, date);
    if k.Some? {
      if log[k.value].amount + delta > 0 {
        RowChanged(log, k.value, log[k.value].amount + delta);
      } else {
        RowGone(log, k.value);
      }
    } else if delta > 0 {
      SumSnoc(log, LogRow(date, delta), Logged());
    }
  }

  lemma BuildKeepsSkill(s: Skill, e: Edit, now: int)
    requires SkillSound(s) && ValidEdit(e) && BuildUpdate(s, e, now).Ok?
    ensures SkillSound(BuildUpdate(s, e, now).value.skill)
  {
    SettlingKeepsShelf(AsItem(s), s.target, ChangeOf(s, e), now);
  }

  /** Exactly how an edit widens the gap between the log and the progress it accounts for: by a reported
      decrease that today's row cannot give back, or by a drop in progress nobody reported. */
  function Forgotten(t: Track, e: Edit, now: int): int
    requires BuildUpdate(t.skill, e, now).Ok?
  {
    var built := BuildUpdate(t.skill, e, now).value;
    if built.reported then Uncovered(t.log, built.delta, DhakaDay(now))
      else t.skill.logged - Min(t.skill.logged, built.skill.progress)
  }

  lemma EditSlack(t: Track, e: Edit, now: int, initial: int)
    requires TrackInv(t, initial) && ValidEdit(e) && Applied(t, e, now).Ok?
    ensures Slack(Applied(t, e, now).value, initial) == Slack(t, initial) + Forgotten(t, e, now)
    ensures Forgotten(t, e, now) >= 0
    ensures LogSound(Applied(t, e, now).value.log)
  {
    var built := BuildUpdate(t.skill, e, now).value;
    AdjustKeepsLog(t.log, built.delta, DhakaDay(now));
    BuildKeepsSkill(t.skill, e, now);
    if !built.reported {
      assert Adjusted(t.log, 0, DhakaDay(now)) == t.log;
    }
  }

  function After(t: Track, e: Edit, now: int): Track {
    match Applied(t, e, now) case Ok(t') => t' case Err(_) => t
  }

  datatype Request = Request(edit: Edit, now: int)

  function RunEdits(t: Track, rs: seq<Request>): Track {
    if rs == [] then t else After(RunEdits(t, rs[..|rs| - 1]), rs[|rs| - 1].edit, rs[|rs| - 1].now)
  }

  lemma EditKeepsTrack(t: Track, e: Edit, now: int, initial: int)
    requires TrackInv(t, initial) && ValidEdit(e)
    ensures TrackInv(After(t, e, now), initial)
  {
    if Applied(t, e, now).Ok? {
      EditSlack(t, e, now, initial);
      BuildKeepsSkill(t.skill, e, now);
    }
  }

  lemma CreatedTrack(u: Unit, target: int, progress: Option<int>, status: Option<Status>, now: int)
    requires target >= 1 && (progress.Some? ==> progress.value >= 0) && Created(u, target, progress, status, now).Ok?
    ensures var t := Created(u, target, progress, status, now).value;
      TrackInv(t, t.skill.progress) && Slack(t, t.skill.progress) == 0
  {
    SettlingKeepsShelf(NEW_ITEM, target, Change(status, progress, target), now);
  }

  /** From creation on, over every run of edits: the skill is on the shelf its progress says, the log never
      holds less than the reported progress it accounts for, and its rows are positive. */
  lemma {:induction false} RunKeepsTrack(t: Track, rs: seq<Request>, initial: int)
    requires TrackInv(t, initial) && forall i :: 0 <= i < |rs| ==> ValidEdit(rs[i].edit)
    ensures TrackInv(RunEdits(t, rs), initial)
  {
    if rs != [] {
      RunKeepsTrack(t, rs[..|rs| - 1], initial);
      EditKeepsTrack(RunEdits(t, rs[..|rs| - 1]), rs[|rs| - 1].edit, rs[|rs| - 1].now, initial);
    }
  }

  /** Sending an accepted edit again, at any later time, changes neither the skill nor its log, unless it is
      the one request that starts the item over. */
  lemma ReplayChangesNothingIff(t: Track, e: Edit, now: int, later: int, initial: int)
    requires TrackInv(t, initial) && ValidEdit(e) && Applied(t, e, now).Ok?
    ensures After(Applied(t, e, now).value, e, later) == Applied(t, e, now).value <==>
      !StartsOverOnReplay(AsItem(t.skill), ChangeOf(t.skill, e))
  {
    var t' := Applied(t, e, now).value;
    ReplayIff(AsItem(t.skill), t.skill.target, ChangeOf(t.skill, e), now, later);
    BuildKeepsSkill(t.skill, e, now);
    assert AsItem(t'.skill) == SettleShelf(AsItem(t.skill), ChangeOf(t.skill, e), now).value.item;
    assert ChangeOf(t'.skill, e) == ChangeOf(t.skill, e);
    if StartsOverOnReplay(AsItem(t.skill), ChangeOf(t.skill, e)) {
      assert After(t', e, later).skill.progress == 0;
    }
  }

  /** Undoing a misclicked "done": reporting the old progress again puts the skill back and logs nothing. */
  lemma MisclickedDoneCanBeUndone(t: Track, now: int, later: int, initial: int)
    requires TrackInv(t, initial) && t.skill.status.Doing? && t.skill.logged == t.skill.progress
    requires CheckTarget(t.skill.skillUnit, t.skill.target).None?
    ensures After(After(t, Edit(None, None, Some(Done)), now), Edit(None, Some(t.skill.progress), None), later) == t
  {
    var t1 := After(t, Edit(None, None, Some(Done)), now);
    assert t1.skill ==
      Skill(t.skill.skillUnit, t.skill.target, t.skill.target, t.skill.logged, Done, t.skill.startedAt,
      t1.skill.completedAt);
  }

  // ----- what an edit leaves, row by row

  /** Each day's amount moves on the day of the change only, and never below nothing. */
  lemma EachDay(log: seq<LogRow>, delta: int, date: int, day: int)
    requires LogSound(log)
    ensures DayAmount(Adjusted(log, delta, date), day) ==
      if day == date then Max(0, DayAmount(log, day) + delta) else DayAmount(log, day)
  {
    var after := Adjusted(log, delta, date);
    AdjustKeepsLog(log, delta, date);
    DayAmountIs(log, day);
    DayAmountIs(log, date);
    DayAmountIs(after, day);
    var k := FindDay(log, date);
    if k.Some? && log[k.value].amount + delta <= 0 {
      SumRemove(log, k.value, OnDay(day));
    } else if k.Some? {
      SumUpdate(log, k.value, LogRow(date, log[k.value].amount + delta), OnDay(day));
    } else {
      SumSnoc(log, LogRow(date, delta), OnDay(day));
    }
  }

  function OnDay(day: int): LogRow -> int {
    (r: LogRow) => if r.date == day then r.amount else 0
  }

  /** A day's amount, with one row a day, is the sum of its rows. */
  lemma DayAmountIs(log: seq<LogRow>, day: int)
    requires LogSound(log)
    ensures DayAmount(log, day) == SumBy(log, OnDay(day)) && DayAmount(log, day) >= 0
  {
    var k := FindDay(log, day);
    if k.Some? {
      forall i | 0 <= i < |log| && i != k.value
        ensures OnDay(day)(log[i]) == 0
      {
        assert log[i].date != log[k.value].date;
      }
      SumSingle(log, OnDay(day), k.value);
    } else {
      SumZero(log, OnDay(day));
    }
  }

  /** An edit is accepted exactly when the target, sent or kept, is at most 2000 lessons or 60000 minutes and
      the shelf accepts the change. */
  lemma EditAcceptedIff(t: Track, e: Edit, now: int)
    ensures Applied(t, e, now).Ok? <==>
      && var target := if e.target != None then e.target.value else t.skill.target;
      && target <= (if t.skill.skillUnit == Lessons then 2000 else 60000)
      && SettleShelf(Item(t.skill.status, t.skill.progress, t.skill.startedAt, t.skill.completedAt),
           Change(e.status, e.progress, target), now).Ok?
  {
  }

  /** What an accepted edit leaves: the unit as it was, the target sent or kept, the item the shelf decides,
      and in the log, on the Dhaka day of the change, what was reported beyond what had been logged. Progress
      nobody reported is logged by nobody, and what is logged never exceeds the progress. */
  lemma EditLeaves(t: Track, e: Edit, now: int, day: int)
    requires Applied(t, e, now).Ok? && LogSound(t.log)
    ensures var after := Applied(t, e, now).value;
      var target := if e.target != None then e.target.value else t.skill.target;
      var settled := SettleShelf(Item(t.skill.status, t.skill.progress, t.skill.startedAt, t.skill.completedAt),
        Change(e.status, e.progress, target), now).value;
      && after.skill.skillUnit == t.skill.skillUnit && after.skill.target == target
      && Item(after.skill.status, after.skill.progress, after.skill.startedAt, after.skill.completedAt) == settled.item
      && after.skill.logged == (if settled.reported || settled.item.progress < t.skill.logged then settled.item.progress
                                else t.skill.logged)
      && DayAmount(after.log, day) == (
           if settled.reported && 86400000 * day <= now + 21600000 < 86400000 * (day + 1)
           then Max(0, DayAmount(t.log, day) + settled.item.progress - t.skill.logged) else DayAmount(t.log, day))
  {
    var built := BuildUpdate(t.skill, e, now).value;
    EachDay(t.log, built.delta, DhakaDay(now), day);
    DayAmountIs(t.log, day);
  }

  /** A new skill is accepted and set up by the same rules, from not started, with nothing in its log. */
  lemma CreatedIs(u: Unit, target: int, progress: Option<int>, status: Option<Status>, now: int)
    ensures var settled := SettleShelf(Item(Todo, 0, None, None), Change(status, progress, target), now);
      && (Created(u, target, progress, status, now).Ok? <==>
        target <= (if u == Lessons then 2000 else 60000) && settled.Ok?)
      && (Created(u, target, progress, status, now).Ok? ==>
        var t := Created(u, target, progress, status, now).value;
        && t.log == [] && t.skill.skillUnit == u && t.skill.target == target && t.skill.logged == t.skill.progress
        && Item(t.skill.status, t.skill.progress, t.skill.startedAt, t.skill.completedAt) == settled.value.item)
  {
  }

  /** A target out of bounds is refused first, by its unit. */
  lemma TargetRefusals(t: Track, e: Edit, now: int)
    ensures var target := if e.target != None then e.target.value else t.skill.target;
      && (Applied(t, e, now) == Err(TooManyLessons) <==> t.skill.skillUnit == Lessons && target > 2000)
      && (Applied(t, e, now) == Err(TooManyMinutes) <==> t.skill.skillUnit == Hours && target > 60000)
  {
  }
}
