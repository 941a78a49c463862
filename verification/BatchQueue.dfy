/**
 The batch queue as a whole: the scheduler (backend/internal/runbatch/scheduler.go) at work on the tables,
 HTTP requests between any two of its steps, and crashes at any point.

 Every store transaction is one action. A write that fails changes nothing; the `wrote` of an action says
 whether it went through. What the tracker and the starter answer is open.
 */
module BatchQueue {
  import opened Counting
  import opened Wrappers
  import opened Strings
  import opened BatchTables
  import Execution

  // ----- answers of the bridge

  const TOO_MANY_RUNS :=
    "e\U{15F}zamanl\U{131} \U{E7}al\U{131}\U{15F}t\U{131}rma s\U{131}n\U{131}r\U{131} doldu"

  datatype RunRow = RunRow(status: Execution.RunStatus, error: string)

  datatype Verdict = StillGoing | OutOfSlots | Over(status: ItemStatus, error: string)

  datatype StartAnswer = Started(run: nat) | NotStarted(wrapsLimit: bool, error: string)

  /** The limit is recognised by the error itself or, once it has gone through a table, by its text. */
  predicate IsLimitError(wrapsLimit: bool, text: string) {
    wrapsLimit || exists i: nat | i < |text| :: OccursAt(text, TOO_MANY_RUNS, i)
  }

  /** `Outcome` as `harvest` uses it; `None` is a run that could not be read. */
  function Judge(row: Option<RunRow>): Verdict {
    if row.None? then StillGoing
    else
      match row.value.status
      case RunSucceeded => Over(ItemSucceeded, "")
      case RunFailed => if IsLimitError(false, row.value.error) then OutOfSlots else Over(ItemFailed, row.value.error)
      case RunCancelled => Over(ItemCancelled, row.value.error)
      case RunInterrupted => Over(ItemInterrupted, row.value.error)
      case _ => StillGoing
  }

  /** However the limit error is wrapped on its way through the table, the run counts as one that found no slot. */
  lemma WrappedLimitIsRecognised(before: string, after: string)
    ensures Judge(Some(RunRow(Execution.RunFailed, before + TOO_MANY_RUNS + after))) == OutOfSlots
  {
    var text := before + TOO_MANY_RUNS + after;
    assert |TOO_MANY_RUNS| > 0 && text[|before|..|before| + |TOO_MANY_RUNS|] == TOO_MANY_RUNS;
    assert OccursAt(text, TOO_MANY_RUNS, |before|);
  }

  /** And nothing else puts an item back: any other end of a run is written to the item as it is. */
  lemma OtherEndsAreWritten(row: RunRow)
    requires !Contains(row.error, TOO_MANY_RUNS) || !row.status.RunFailed?
    ensures Judge(Some(row)) != OutOfSlots
    ensures Judge(Some(row)) == StillGoing <==> row.status.RunPending? || row.status.RunRunning?
    ensures row.status.RunSucceeded? ==> Judge(Some(row)) == Over(ItemSucceeded, "")
    ensures row.status.RunFailed? ==> Judge(Some(row)) == Over(ItemFailed, row.error)
    ensures row.status.RunCancelled? ==> Judge(Some(row)) == Over(ItemCancelled, row.error)
    ensures row.status.RunInterrupted? ==> Judge(Some(row)) == Over(ItemInterrupted, row.error)
  {
  }

  // ----- states and actions

  /** Where the one scheduler goroutine stands; `running` is its local counter. */
  datatype Pc =
    | Down
    | Idle
    | Harvesting(todo: seq<(nat, Option<nat>)>, running: nat)
    | Launching(running: nat)
    | Picked(id: nat, running: nat)
    | Claimed(id: nat, running: nat)
    | Binding(id: nat, run: nat, running: nat)
    | PuttingBack(id: nat, running: nat)
    | Failing(id: nat, error: string, running: nat)

  /**
   `before`, `top` and `lost` are book-keeping about the current tick that no action looks at: the items that
   ran when it began, the largest limit it has read, the requeues of `harvest` that could not be written.
   */
  datatype Sys = Sys(db: Tables, pc: Pc, clock: nat, nextBatch: nat, nextItem: nat, before: nat, top: int, lost: nat)

  datatype Action =
    | AskCreate(workflow: nat, task: string, projects: seq<nat>, now: nat)
    | AskCancel(b: nat)
    | AskResume(b: nat)
    | AskDelete(b: nat)
    | Crash
    | Restart(wrote: bool)
    | BeginTick(order: seq<nat>)
    | Gather(row: Option<RunRow>, wrote: bool)
    | EndHarvest
    | StopLaunch(limit: int, active: int, readable: bool)
    | Pick(id: nat, limit: int, active: int)
    | ClaimItem(wrote: bool)
    | CallStart(answer: StartAnswer)
    | Bind(wrote: bool)
    | PutBack(wrote: bool)
    | RecordFailure(wrote: bool)

  function Running(s: Sys): set<nat> {
    WithStatus(s.db, ItemRunning)
  }

  const EMPTY := Sys(Tables(map[], map[]), Down, 0, 0, 0, 0, 0, 0)

  predicate Listing(ids: seq<nat>, all: set<nat>) {
    && (forall i, j | 0 <= i < j < |ids| :: ids[i] != ids[j])
    && (forall id | id in ids :: id in all)
    && (forall id | id in all :: id in ids)
  }

  predicate Full(s: Sys, limit: int, active: int)
    requires s.pc.Launching?
  {
    s.pc.running >= limit || active >= limit
  }

  predicate IsRequest(a: Action) {
    a.AskCreate? || a.AskCancel? || a.AskResume? || a.AskDelete?
  }

  ghost predicate Enabled(s: Sys, a: Action) {
    match a
    case AskCreate(_, _, _, now) => !s.pc.Down? && s.clock <= now
    case AskCancel(_) => !s.pc.Down?
    case AskResume(_) => !s.pc.Down?
    case AskDelete(_) => !s.pc.Down?
    case Crash => !s.pc.Down?
    case Restart(_) => s.pc.Down?
    case BeginTick(order) => s.pc.Idle? && Listing(order, Running(s))
    case Gather(_, _) => s.pc.Harvesting? && s.pc.todo != []
    case EndHarvest => s.pc.Harvesting? && s.pc.todo == []
    case StopLaunch(limit, active, readable) =>
      s.pc.Launching? && (Full(s, limit, active) || !readable || forall id :: !Eligible(s.db, id))
    case Pick(id, limit, active) => s.pc.Launching? && !Full(s, limit, active) && IsNext(s.db, id)
    case ClaimItem(_) => s.pc.Picked?
    case CallStart(_) => s.pc.Claimed?
    case Bind(_) => s.pc.Binding?
    case PutBack(_) => s.pc.PuttingBack?
    case RecordFailure(_) => s.pc.Failing?
  }

  /** A transaction that is refused or not written leaves the tables as they were. */
  function Written(db: Tables, r: Result<Tables, StoreError>): Tables {
    if r.Ok? then r.value else db
  }

  function WrittenCount(db: Tables, r: Result<(Tables, nat), StoreError>): Tables {
    if r.Ok? then r.value.0 else db
  }

  function ServeRequest(s: Sys, a: Action): Sys
    requires IsRequest(a)
  {
    match a
    case AskCreate(workflow, task, projects, now) =>
      var r := Create(s.db, s.nextBatch, s.nextItem, workflow, task, projects, now);
      s.(db := Written(s.db, r), clock := now, nextBatch := s.nextBatch + 1, nextItem := s.nextItem + |projects|)
    case AskCancel(b) => s.(db := WrittenCount(s.db, Cancel(s.db, b)))
    case AskResume(b) => s.(db := WrittenCount(s.db, Resume(s.db, b)))
    case AskDelete(b) => s.(db := Written(s.db, Delete(s.db, b)))
  }

  /** One round of the loop in `harvest`. */
  function GatherOne(s: Sys, row: Option<RunRow>, wrote: bool): Sys
    requires s.pc.Harvesting? && s.pc.todo != []
  {
    var id := s.pc.todo[0].0;
    var counted := s.(pc := Harvesting(s.pc.todo[1..], s.pc.running + 1));
    var passed := s.(pc := Harvesting(s.pc.todo[1..], s.pc.running));
    if s.pc.todo[0].1.None? then counted
    else
      match Judge(row)
      case StillGoing => counted
      case OutOfSlots =>
        var r := Requeue(s.db, id);
        if wrote && r.Ok? then passed.(db := r.value) else passed.(lost := s.lost + 1)
      case Over(status, error) =>
        var r := MarkFinished(s.db, id, status, error);
        if wrote && r.Ok? then passed.(db := r.value) else counted
  }

  function ListItems(s: Sys, order: seq<nat>): (todo: seq<(nat, Option<nat>)>)
    requires forall id | id in order :: id in s.db.items
    ensures |todo| == |order| && forall i | 0 <= i < |order| :: todo[i] == (order[i], s.db.items[order[i]].run)
  {
    seq(|order|, i requires 0 <= i < |order| => (order[i], s.db.items[order[i]].run))
  }

  function Apply(s: Sys, a: Action): Sys
    requires Enabled(s, a)
  {
    match a
    case AskCreate(_, _, _, _) => ServeRequest(s, a)
    case AskCancel(_) => ServeRequest(s, a)
    case AskResume(_) => ServeRequest(s, a)
    case AskDelete(_) => ServeRequest(s, a)
    case Crash => s.(pc := Down)
    case Restart(wrote) =>
      var db := if wrote then InterruptRunning(s.db).0 else s.db;
      s.(pc := Idle, db := db, before := |WithStatus(db, ItemRunning)|, top := 0, lost := 0)
    case BeginTick(order) =>
      s.(pc := Harvesting(ListItems(s, order), 0), before := |Running(s)|, top := 0, lost := 0)
    case Gather(row, wrote) => GatherOne(s, row, wrote)
    case EndHarvest => s.(pc := Launching(s.pc.running))
    case StopLaunch(limit, _, _) => s.(pc := Idle, top := Max(s.top, limit))
    case Pick(id, limit, _) => s.(pc := Picked(id, s.pc.running), top := Max(s.top, limit))
    case ClaimItem(wrote) =>
      var r := BatchTables.Claim(s.db, s.pc.id);
      if wrote && r.Ok? then s.(pc := Claimed(s.pc.id, s.pc.running), db := r.value) else s.(pc := Idle)
    case CallStart(answer) =>
      (match answer
       case Started(run) => s.(pc := Binding(s.pc.id, run, s.pc.running))
       case NotStarted(wraps, error) =>
         if IsLimitError(wraps, error) then s.(pc := PuttingBack(s.pc.id, s.pc.running))
         else s.(pc := Failing(s.pc.id, error, s.pc.running)))
    case Bind(wrote) =>
      var r := Attach(s.db, s.pc.id, s.pc.run);
      if wrote && r.Ok? then s.(pc := Launching(s.pc.running + 1), db := r.value)
      else s.(pc := Failing(s.pc.id, UNBOUND_TEXT, s.pc.running))
    case PutBack(wrote) =>
      s.(pc := Idle, db := if wrote then Written(s.db, Requeue(s.db, s.pc.id)) else s.db)
    case RecordFailure(wrote) =>
      s.(pc := Launching(s.pc.running + 1),
         db := if wrote then Written(s.db, MarkFinished(s.db, s.pc.id, ItemFailed, s.pc.error)) else s.db)
  }

  /** Stands for the message that names the run and the reason. */
  const UNBOUND_TEXT := "run started but not bound to its item"

  // ----- runs

  datatype History = History(states: seq<Sys>, acts: seq<Action>)

  ghost predicate IsHistory(h: History) {
    && |h.states| == |h.acts| + 1
    && h.states[0] == EMPTY
    && forall i | 0 <= i < |h.acts| :: Enabled(h.states[i], h.acts[i]) && h.states[i + 1] == Apply(h.states[i], h.acts[i])
  }

  // ----- the invariant

  ghost predicate Numbered(s: Sys) {
    && (forall id | id in s.db.items :: id < s.nextItem)
    && (forall b | b in s.db.batches :: b < s.nextBatch && s.db.batches[b].createdAt <= s.clock)
  }

  predicate Holds(s: Sys, id: nat) {
    id in s.db.items && s.db.items[id].status == ItemRunning
  }

  predicate HoldsClaim(pc: Pc) {
    pc.Claimed? || pc.Binding? || pc.PuttingBack? || pc.Failing?
  }

  /** The local counter never falls short of the running items, but for requeues that were not written. */
  ghost predicate Counted(s: Sys) {
    var n := |Running(s)|;
    match s.pc
    case Down => true
    case Idle => true
    case Harvesting(todo, running) =>
      && n == running + s.lost + |todo| && s.top == 0
      && (forall i, j | 0 <= i < j < |todo| :: todo[i].0 != todo[j].0)
      && (forall i | 0 <= i < |todo| :: Holds(s, todo[i].0))
    case Launching(running) => n <= running + s.lost
    case Picked(id, running) => n <= running + s.lost && running < s.top && id < s.nextItem
    case _ => HoldsClaim(s.pc) && Holds(s, s.pc.id) && n <= s.pc.running + 1 + s.lost && s.pc.running < s.top
  }

  predicate BatchCancelled(t: Tables, b: nat) {
    b in t.batches && t.batches[b].status == StatusCancelled
  }

  /** What has been picked and can still be claimed is not in a cancelled batch. */
  predicate PickIsLive(s: Sys) {
    s.pc.Picked? && s.pc.id in s.db.items && s.db.items[s.pc.id].status == ItemPending ==>
      !BatchCancelled(s.db, s.db.items[s.pc.id].batch)
  }

  ghost predicate Inv(s: Sys) {
    && Consistent(s.db) && Numbered(s) && Counted(s) && PickIsLive(s)
    && |Running(s)| <= Max(s.before, s.top + s.lost)
  }
}
