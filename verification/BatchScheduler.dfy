/**
 The scheduler as an object (backend/internal/runbatch/scheduler.go): its loops, its local counter and the
 order of its store calls. Between any two of them `ServeOthers` lets through any number of waiting requests.
 What the tracker, the starter, the settings and the database answer is arbitrary.

 `h` records what has happened. Every method keeps it a history of the queue, so what holds over all
 histories holds here; a crash can end it at any point.
 */
module BatchScheduler {
  import opened Counting
  import opened Wrappers
  import opened BatchTables
  import opened BatchQueue
  import opened BatchRuns
  import opened BatchRows
  import opened BatchStore

  datatype Request =
    | CreateRequest(workflow: nat, task: string, projects: seq<nat>, delay: nat)
    | CancelRequest(b: nat)
    | ResumeRequest(b: nat)
    | DeleteRequest(b: nat)

  /** What the harvest of an item makes of its row. */
  lemma GatheredRow(h: History, id: nat, row: Option<RunRow>, wrote: bool)
    requires IsHistory(h) && Last(h).pc.Harvesting? && Last(h).pc.todo != [] && Last(h).pc.todo[0].0 == id
    ensures Enabled(Last(h), Gather(row, wrote)) && id in Last(h).db.items
    ensures var t := Apply(Last(h), Gather(row, wrote));
      id in t.db.items && RowStep(Last(h), Gather(row, wrote), id, Last(h).db.items[id], t.db.items[id])
  {
    hide RowStep;
    LastKeepsInv(h);
    assert Holds(Last(h), id);
    GatherMovesRow(Last(h), Gather(row, wrote), id);
  }

  class Scheduler {
    const store: Store
    var requests: seq<Request>
    var clock: nat
    var nextBatch: nat
    var nextItem: nat
    ghost var h: History

    ghost function Now(): Sys
      requires h.states != []
      reads this
    {
      Last(h)
    }

    ghost predicate Valid()
      reads this, store
    {
      && h.states != [] && IsHistory(h) && Now().db == store.Rows()
      && Now().clock == clock && Now().nextBatch == nextBatch && Now().nextItem == nextItem
    }

    constructor (s: Store, waiting: seq<Request>)
      requires s.Rows() == EMPTY.db
      ensures Valid() && store == s && requests == waiting && Now().pc.Down?
    {
      store, requests := s, waiting;
      clock, nextBatch, nextItem := 0, 0, 0;
      h := History([EMPTY], []);
    }

    /** Records an action the store has just gone through. */
    ghost method Note(a: Action)
      requires h.states != [] && IsHistory(h) && Enabled(Now(), a)
      modifies this`h
      ensures h.states != [] && IsHistory(h) && Extends(old(h), h) && Now() == Apply(old(Now()), a)
      ensures h.acts == old(h.acts) + [a]
    {
      hide Enabled, Apply, IsHistory;
      PushIsHistory(h, a);
      h := Push(h, a, Apply(Now(), a));
    }

    method ServeOne(r: Request)
      requires Valid() && !Now().pc.Down?
      modifies this, store
      ensures Valid() && Extends(old(h), h) && requests == old(requests)
      ensures Now().pc == old(Now().pc)
    {
      hide IsHistory, BatchTables.Create, BatchTables.Cancel, BatchTables.Resume, BatchTables.Delete;
      match r {
        case CreateRequest(workflow, task, projects, delay) =>
          var _ := store.Create(nextBatch, nextItem, workflow, task, projects, clock + delay);
          Note(AskCreate(workflow, task, projects, clock + delay));
          clock, nextBatch, nextItem := clock + delay, nextBatch + 1, nextItem + |projects|;
        case CancelRequest(b) =>
          var _, _ := store.Cancel(b);
          Note(AskCancel(b));
        case ResumeRequest(b) =>
          var _, _ := store.Resume(b);
          Note(AskResume(b));
        case DeleteRequest(b) =>
          var _ := store.Delete(b);
          Note(AskDelete(b));
      }
    }

    /** Some of the waiting requests are served, possibly none. */
    method ServeOthers()
      requires Valid() && !Now().pc.Down?
      modifies this, store
      ensures Valid() && Extends(old(h), h) && Now().pc == old(Now().pc)
      ensures |requests| < |old(requests)| || (requests == old(requests) && Now() == old(Now()))
    {
      var more: bool := *;
      while more && requests != []
        invariant Valid() && Extends(old(h), h) && Now().pc == old(Now().pc)
        invariant |requests| < |old(requests)| || (requests == old(requests) && Now() == old(Now()))
        decreases |requests|
      {
        var r := requests[0];
        requests := requests[1..];
        ServeOne(r);
        more := *;
      }
    }

    /** `Reconcile`, on the way up. */
    method Reconcile()
      requires Valid() && Now().pc.Down?
      modifies this, store
      ensures Valid() && Extends(old(h), h) && Now().pc.Idle? && requests == old(requests)
    {
      hide IsHistory, BatchTables.InterruptRunning;
      var wrote: bool := *;
      var _, _ := store.InterruptRunning(wrote);
      Note(Restart(wrote));
    }

    /** One round of `harvest`, on the item as it was read at the start. */
    method GatherItem(id: nat, run: Option<nat>, running0: nat) returns (running: nat)
      requires Valid() && Now().pc.Harvesting? && Now().pc.todo != [] && Now().pc.todo[0] == (id, run)
      requires Now().pc.running == running0
      modifies this, store
      ensures Valid() && Extends(old(h), h)
      ensures Now().pc == Harvesting(old(Now().pc.todo[1..]), running)
      ensures |h.acts| == |old(h.acts)| + 1 && h.acts[|old(h.acts)|].Gather?
      ensures var before := old(Now());
        && id in before.db.items && id in Now().db.items
        && RowStep(before, h.acts[|old(h.acts)|], id, before.db.items[id], Now().db.items[id])
    {
      hide IsHistory, BatchTables.Requeue, BatchTables.MarkFinished, RowStep;
      running := running0;
      var row: Option<RunRow> := *;
      var wrote: bool := *;
      GatheredRow(h, id, row, wrote);
      if run.None? {
        Note(Gather(row, wrote));
        running := running + 1;
        return;
      }
      match Judge(row) {
        case StillGoing =>
          Note(Gather(row, wrote));
          running := running + 1;
        case OutOfSlots =>
          var _ := store.Requeue(id, wrote);
          Note(Gather(row, wrote));
        case Over(status, error) =>
          var err := store.MarkFinished(id, status, error, wrote);
          Note(Gather(row, wrote));
          if err.Some? {
            running := running + 1;
          }
      }
    }

    method ListRunning() returns (list: seq<(nat, Option<nat>)>)
      requires Valid() && Now().pc.Idle?
      modifies this`h
      ensures Valid() && Extends(old(h), h)
      ensures Now().pc == Harvesting(list, 0)
    {
      hide IsHistory;
      var order := store.RunningItems();
      Note(BeginTick(order));
      var rows := store.items;
      forall i | 0 <= i < |order| ensures order[i] in rows {
        assert order[i] in order;
      }
      list := seq(|order|, i requires 0 <= i < |order| => (order[i], rows[order[i]].run));
      assert list == Now().pc.todo;
    }

    method Harvest() returns (running: nat)
      requires Valid() && Now().pc.Idle?
      modifies this, store
      ensures Valid() && Extends(old(h), h)
      ensures Now().pc == Harvesting([], running)
    {
      hide IsHistory, Listing, Running, WithStatus;
      ServeOthers();
      var list := ListRunning();
      running := 0;
      for i := 0 to |list|
        invariant Valid() && Extends(old(h), h)
        invariant Now().pc == Harvesting(list[i..], running)
      {
        ServeOthers();
        assert list[i..][0] == list[i] && list[i..][1..] == list[i + 1..];
        running := GatherItem(list[i].0, list[i].1, running);
      }
    }

    /** `startItem`: whether the queue goes on. */
    method StartItem(id: nat) returns (goOn: bool)
      requires Valid() && Now().pc.Picked? && Now().pc.id == id
      modifies this, store
      ensures Valid() && Extends(old(h), h)
      ensures Now().pc == if goOn then Launching(old(Now().pc.running) + 1) else Idle
      ensures goOn ==>
        || |requests| < |old(requests)|
        || (requests == old(requests) && |PendingRows(Now().db)| < |PendingRows(old(Now().db))|)
    {
      hide IsHistory, BatchTables.Claim, PendingRows;
      var wrote: bool := *;
      var err := store.Claim(id, wrote);
      if err.None? {
        ClaimLowersPending(Now().db, id);
      }
      Note(ClaimItem(wrote));
      if err.Some? {
        return false;
      }
      ServeOthers();
      goOn := Attempt(id);
    }

    method Attempt(id: nat) returns (goOn: bool)
      requires Valid() && Now().pc.Claimed? && Now().pc.id == id
      modifies this, store
      ensures Valid() && Extends(old(h), h)
      ensures Now().pc == if goOn then Launching(old(Now().pc.running) + 1) else Idle
      ensures goOn ==>
        || |requests| < |old(requests)|
        || (requests == old(requests) && PendingRows(Now().db) == PendingRows(old(Now().db)))
    {
      hide IsHistory, BatchTables.Requeue, PendingRows;
      var answer: StartAnswer := *;
      Note(CallStart(answer));
      ServeOthers();
      match answer {
        case NotStarted(wraps, error) =>
          if IsLimitError(wraps, error) {
            var wrote: bool := *;
            var _ := store.Requeue(id, wrote);
            Note(PutBack(wrote));
            return false;
          }
          RecordAsFailed(id, error);
        case Started(run) =>
          BindRun(id, run);
      }
      goOn := true;
    }

    method BindRun(id: nat, run: nat)
      requires Valid() && Now().pc.Binding? && Now().pc.id == id && Now().pc.run == run
      modifies this, store
      ensures Valid() && Extends(old(h), h)
      ensures Now().pc == Launching(old(Now().pc.running) + 1)
      ensures
        || |requests| < |old(requests)|
        || (requests == old(requests) && PendingRows(Now().db) == PendingRows(old(Now().db)))
    {
      hide IsHistory, BatchTables.Attach, PendingRows, Inv, WithStatus;
      var wrote: bool := *;
      LastKeepsInv(h);
      BindLeavesPending(Now(), wrote);
      var err := store.Attach(id, run, wrote);
      Note(Bind(wrote));
      if err.Some? {
        ServeOthers();
        RecordAsFailed(id, UNBOUND_TEXT);
      }
    }

    method RecordAsFailed(id: nat, error: string)
      requires Valid() && Now().pc.Failing? && Now().pc.id == id && Now().pc.error == error
      modifies this, store
      ensures Valid() && Extends(old(h), h) && requests == old(requests)
      ensures Now().pc == Launching(old(Now().pc.running) + 1)
      ensures PendingRows(Now().db) == PendingRows(old(Now().db))
    {
      hide IsHistory, BatchTables.MarkFinished, PendingRows;
      var wrote: bool := *;
      LastKeepsInv(h);
      FailureLeavesPending(Now(), wrote);
      var _ := store.MarkFinished(id, ItemFailed, error, wrote);
      Note(RecordFailure(wrote));
    }

    /** The head of the loop in `launch`: the limit is asked for, and the next item if there is room. */
    method ChooseNext(running: nat) returns (next: Option<nat>)
      requires Valid() && Now().pc == Launching(running)
      modifies this`h
      ensures Valid() && Extends(old(h), h) && Now().db == old(Now().db)
      ensures Now().pc == if next.Some? then Picked(next.value, running) else Idle
    {
      hide IsHistory;
      var limit: int, active: int := *, *;
      if running >= limit || active >= limit {
        Note(StopLaunch(limit, active, true));
        return None;
      }
      var readable: bool := *;
      if !readable {
        Note(StopLaunch(limit, active, false));
        return None;
      }
      next := store.NextPending();
      assert Now().db == store.Rows();
      if next.None? {
        assert forall id :: !Eligible(Now().db, id);
        Note(StopLaunch(limit, active, true));
      } else {
        Note(Pick(next.value, limit, active));
      }
    }

    /** Ends because a round either serves a waiting request or leaves fewer items pending. */
    method Launch(running0: nat)
      requires Valid() && Now().pc == Launching(running0)
      modifies this, store
      ensures Valid() && Extends(old(h), h) && Now().pc.Idle?
    {
      hide IsHistory, PendingRows;
      var running: nat := running0;
      while true
        invariant Valid() && Extends(old(h), h) && Now().pc == Launching(running)
        decreases |requests|, |PendingRows(Now().db)|
      {
        ServeOthers();
        var next := ChooseNext(running);
        if next.None? {
          return;
        }
        ServeOthers();
        var goOn := StartItem(next.value);
        if !goOn {
          return;
        }
        running := running + 1;
      }
    }

    /** A tick, from idle to idle, keeps within the limits it has read. */
    method Tick()
      requires Valid() && Now().pc.Idle?
      modifies this, store
      ensures Valid() && Extends(old(h), h) && Now().pc.Idle?
      ensures |WithStatus(store.Rows(), ItemRunning)| <= Max(Now().before, Now().top + Now().lost)
      ensures Consistent(store.Rows())
    {
      hide IsHistory;
      var readable: bool := *;
      if readable {
        var running := Harvest();
        Note(EndHarvest);
        Launch(running);
      }
      LastKeepsInv(h);
      InvFacts(Now());
    }
  }
}
