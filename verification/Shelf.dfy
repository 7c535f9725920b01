/** The three shelves an item moves between: not started, in progress, done. */
module Shelves {
  import opened Base

  datatype Status = Todo | Doing | Done

  datatype ShelfError = OverTotal | NotStarted

  /** Instants are numbers, later ones larger. */
  datatype Item = Item(status: Status, progress: int, startedAt: Option<int>, doneAt: Option<int>)

  /** Absent fields were not sent; the (possibly edited) total is always known. */
  datatype Change = Change(status: Option<Status>, progress: Option<int>, total: int)

  /** `reported` says whether the progress that was sent is what the item ended up with. */
  datatype Settled = Settled(item: Item, reported: bool)

  const NEW_ITEM := Item(Todo, 0, None, None)

  /** The progress an item ends up with unless it is moved to done or to not-started. */
  function KeptProgress(from: Item, change: Change): int {
    if change.progress.Some? then change.progress.value
    else if from.status.Done? then (if change.status.Some? then 0 else change.total)
    else from.progress
  }

  function StatusFor(from: Item, change: Change, progress: int): Status {
    if progress >= change.total then Done
    else if change.status.Some? || progress > 0 || from.status.Done? then Doing
    else from.status
  }

  function SettleShelf(from: Item, change: Change, now: int): Result<Settled, ShelfError> {
    if change.progress.Some? && change.progress.value > change.total then Err(OverTotal)
    else if change.status == Some(Done) then Ok(Settled(Dated(from, change, Done, change.total, now), false))
    else if change.status == Some(Todo) then
      if change.progress.Some? && change.progress.value > 0 then Err(NotStarted)
      else Ok(Settled(Dated(from, change, Todo, 0, now), false))
    else
      var progress := KeptProgress(from, change);
      if progress > change.total then Err(OverTotal)
      else Ok(Settled(Dated(from, change, StatusFor(from, change, progress), progress, now), change.progress.Some?))
  }

  /** Only starting a done item over resets its start date. */
  function Dated(from: Item, change: Change, status: Status, progress: int, now: int): Item {
    var restarted := change.status == Some(Doing) && from.status.Done? && progress == 0;
    Item(status, progress,
      if status.Todo? then None else if from.startedAt.None? || restarted then Some(now) else from.startedAt,
      if status.Done? then Some(if from.doneAt.Some? then from.doneAt.value else now) else None)
  }

  /** Done is all of the total and dated as done; not started has no start date and no progress. */
  predicate OnItsShelf(item: Item, total: int) {
    && 0 <= item.progress <= total
    && (item.status.Done? <==> item.progress == total)
    && (item.status.Done? <==> item.doneAt.Some?)
    && (item.status.Todo? <==> item.startedAt.None?)
    && (item.status.Todo? ==> item.progress == 0)
  }

  predicate Sent(change: Change) {
    change.total >= 1 && (change.progress.Some? ==> change.progress.value >= 0)
  }

  /** Whatever is sent, and however the total is edited along the way, an item stays consistent. */
  lemma SettlingKeepsShelf(from: Item, oldTotal: int, change: Change, now: int)
    requires oldTotal >= 1 && OnItsShelf(from, oldTotal) && Sent(change)
    requires SettleShelf(from, change, now).Ok?
    ensures OnItsShelf(SettleShelf(from, change, now).value.item, change.total)
    ensures change.status == Some(Done) ==> SettleShelf(from, change, now).value.item.status == Done
    ensures change.status == Some(Todo) ==> SettleShelf(from, change, now).value.item.status == Todo
    ensures SettleShelf(from, change, now).value.reported ==>
      Some(SettleShelf(from, change, now).value.item.progress) == change.progress
  {
  }

  lemma OneOfThree(s: Option<Status>)
    ensures s == None || s == Some(Todo) || s == Some(Doing) || s == Some(Done)
  {
    if s.Some? {
      match s.value
      case Todo =>
      case Doing =>
      case Done =>
    }
  }

  /** Refusals: more progress than the total, progress on a move to not-started, or a total lowered below
      recorded progress that nothing in the request replaces. */
  lemma RefusedIff(from: Item, oldTotal: int, change: Change, now: int)
    requires oldTotal >= 1 && OnItsShelf(from, oldTotal) && Sent(change)
    ensures SettleShelf(from, change, now).Err? <==>
      || (change.progress.Some? && change.progress.value > change.total)
      || (change.status == Some(Todo) && change.progress.Some? && change.progress.value > 0)
      || ((change.status.None? || change.status ==
        Some(Doing)) && change.progress.None? && !from.status.Done? && from.progress > change.total)
  {
    OneOfThree(change.status);
  }

  /** Leaving the done shelf keeps the original start date unless the request is the explicit start over;
      staying on it keeps the day it was done. */
  lemma DatesOfDone(from: Item, oldTotal: int, change: Change, now: int)
    requires oldTotal >= 1 && OnItsShelf(from, oldTotal) && Sent(change) && from.status.Done?
      && from.startedAt != Some(now)
    requires SettleShelf(from, change, now).Ok?
    ensures var item := SettleShelf(from, change, now).value.item;
      && (item.startedAt == Some(now) <==> change.status == Some(Doing) && item.progress == 0)
      && (item.startedAt == None <==> change.status == Some(Todo))
      && (item.status.Done? ==> item.doneAt == from.doneAt)
  {
    OneOfThree(change.status);
  }

  /** The request that does not give the same result twice: in-progress, without a progress, on an item not
      done whose recorded progress is all of the total. It makes the item done, and sent again starts it
      over. */
  predicate StartsOverOnReplay(from: Item, change: Change) {
    change.status == Some(Doing) && change.progress.None? && !from.status.Done? && from.progress == change.total
  }

  lemma ReplayIff(from: Item, oldTotal: int, change: Change, now: int, later: int)
    requires oldTotal >= 1 && OnItsShelf(from, oldTotal) && Sent(change)
    requires SettleShelf(from, change, now).Ok?
    ensures SettleShelf(SettleShelf(from, change, now).value.item, change, later) == SettleShelf(from, change,
      now) <==> !StartsOverOnReplay(from, change)
  {
    OneOfThree(change.status);
    OneOfThree(Some(from.status));
  }

  /** Progress 2 of 3 is reported on a new item; then a request says in-progress and lowers the total to 2.
      The item is done. Sent once more, the same request starts it over. */
  lemma ReplayStartsOver(now: int, later: int)
    ensures var read := SettleShelf(NEW_ITEM, Change(None, Some(2), 3), now);
      && read.Ok? && OnItsShelf(read.value.item, 3)
      && var lowered := Change(Some(Doing), None, 2);
         var once := SettleShelf(read.value.item, lowered, now);
      && once.Ok? && once.value.item.status == Done && once.value.item.progress == 2
      && var twice := SettleShelf(once.value.item, lowered, later);
      && twice.Ok? && twice.value.item.status == Doing && twice.value.item.progress == 0
  {
    SettlingKeepsShelf(NEW_ITEM, 3, Change(None, Some(2), 3), now);
  }

  /** Where an accepted change leaves the item, case by case. Moved to done it has all of the total; moved to
      not started it has nothing; with a progress it has that much; a done item follows its total, or starts
      over at nothing when moved to in progress; any other keeps what it has. */
  lemma Outcome(from: Item, oldTotal: int, change: Change, now: int)
    requires oldTotal >= 1 && OnItsShelf(from, oldTotal) && Sent(change) && SettleShelf(from, change, now).Ok?
    ensures var item := SettleShelf(from, change, now).value.item;
      && item.progress == (
           if change.status == Some(Done) then change.total
           else if change.status == Some(Todo) then 0
           else if change.progress != None then change.progress.value
           else if from.status == Done then if change.status == None then change.total else 0
           else from.progress)
      && item.status == (
           if change.status == Some(Todo) then Todo
           else if item.progress == change.total then Done
           else if change.status == Some(Doing) || item.progress > 0 || from.status == Done then Doing
           else from.status)
      && item.startedAt == (
           if item.status == Todo then None
           else if from.startedAt == None then Some(now)
           else if change.status == Some(Doing) && from.status == Done && item.progress == 0 then Some(now)
           else from.startedAt)
      && item.doneAt == (if item.status != Done then None else if from.doneAt == None then Some(now) else from.doneAt)
    ensures SettleShelf(from, change, now).value.reported <==>
      change.progress != None && (change.status == None || change.status == Some(Doing))
  {
    OneOfThree(change.status);
    OneOfThree(Some(from.status));
  }

  /** More progress than there is, reported or left over, is one refusal; progress on a move to not started is
      the other. */
  lemma Refusals(from: Item, change: Change, now: int)
    ensures SettleShelf(from, change, now) == Err(NotStarted) <==>
      change.status == Some(Todo) && change.progress != None && 0 < change.progress.value <= change.total
    ensures SettleShelf(from, change, now).Err? ==>
      SettleShelf(from, change, now) == Err(NotStarted) || SettleShelf(from, change, now) == Err(OverTotal)
  {
  }
}
