/**
 The rows of the queue, one by one: what each step makes of an item's row, which run a row names, how an item came
 by its end, and what a resume brings back.
 */
module BatchRows {
  import opened Wrappers
  import opened Strings
  import opened BatchTables
  import opened BatchQueue
  import opened BatchRuns
  import Execution

  // ----- one row, one step

  /** The run ended with this status, and `harvest` writes this to the row of its item. */
  predicate WrittenEnd(row: RunRow, x: Item, y: Item) {
    match row.status
    case RunSucceeded => y == x.(status := ItemSucceeded, error := "")
    case RunFailed =>
      if IsLimitError(false, row.error) then y == x.(status := ItemPending, run := None, error := "")
      else y == x.(status := ItemFailed, error := row.error)
    case RunCancelled => y == x.(status := ItemCancelled, error := row.error)
    case RunInterrupted => y == x.(status := ItemInterrupted, error := row.error)
    case RunPending => y == x
    case RunRunning => y == x
  }

  /** The step is about this item. */
  predicate Concerns(s: Sys, a: Action, id: nat) {
    match a
    case Gather(_, _) => s.pc.Harvesting? && s.pc.todo != [] && s.pc.todo[0].0 == id && s.pc.todo[0].1.Some?
    case ClaimItem(_) => s.pc.Picked? && s.pc.id == id
    case Bind(_) => s.pc.Binding? && s.pc.id == id
    case PutBack(_) => s.pc.PuttingBack? && s.pc.id == id
    case RecordFailure(_) => s.pc.Failing? && s.pc.id == id
    case _ => false
  }

  /** What a written step that is about the item makes of its row. */
  predicate Moves(s: Sys, a: Action, x: Item, y: Item) {
    match a
    case Gather(row, wrote) => if wrote && row.Some? then WrittenEnd(row.value, x, y) else y == x
    case ClaimItem(wrote) =>
      y == if wrote && x.status == ItemPending then x.(status := ItemRunning, run := None, error := "") else x
    case Bind(wrote) => s.pc.Binding? && y == if wrote then x.(run := Some(s.pc.run)) else x
    case PutBack(wrote) => y == if wrote then x.(status := ItemPending, run := None, error := "") else x
    case RecordFailure(wrote) =>
      s.pc.Failing? && y == if wrote then x.(status := ItemFailed, error := s.pc.error) else x
    case _ => false
  }

  /** What becomes of a row in a step: `x` before, `y` after. */
  predicate RowStep(s: Sys, a: Action, id: nat, x: Item, y: Item) {
    match a
    case AskCancel(b) => y == if x.batch == b && x.status == ItemPending then x.(status := ItemCancelled) else x
    case AskResume(b) =>
      y == if x.batch == b && x.status == ItemInterrupted then x.(status := ItemPending, error := "") else x
    case Restart(wrote) =>
      y == if wrote && x.status == ItemRunning then x.(status := ItemInterrupted, error := INTERRUPTED_TEXT) else x
    case _ => if Concerns(s, a, id) then Moves(s, a, x, y) else y == x
  }

  lemma RequestMovesRow(s: Sys, a: Action, id: nat)
    requires Inv(s) && Enabled(s, a) && IsRequest(a) && id in s.db.items && id in Apply(s, a).db.items
    ensures RowStep(s, a, id, s.db.items[id], Apply(s, a).db.items[id])
  {
    hide Derived;
    assert s.db.items[id].batch in s.db.batches;
  }

  lemma GatherMovesRow(s: Sys, a: Action, id: nat)
    requires Inv(s) && Enabled(s, a) && a.Gather? && id in s.db.items
    ensures id in Apply(s, a).db.items && RowStep(s, a, id, s.db.items[id], Apply(s, a).db.items[id])
  {
    hide Derived, IsLimitError;
    assert Holds(s, s.pc.todo[0].0);
  }

  lemma OtherStepMovesRow(s: Sys, a: Action, id: nat)
    requires Inv(s) && Enabled(s, a) && !IsRequest(a) && !a.Gather? && id in s.db.items
    ensures id in Apply(s, a).db.items && RowStep(s, a, id, s.db.items[id], Apply(s, a).db.items[id])
  {
    hide Derived, IsLimitError;
  }

  /** Every step moves every row as `RowStep` says; a row goes only with its batch and comes only with one. */
  lemma RowsMove(s: Sys, a: Action, id: nat)
    requires Inv(s) && Enabled(s, a)
    ensures id in s.db.items && id in Apply(s, a).db.items ==>
      RowStep(s, a, id, s.db.items[id], Apply(s, a).db.items[id])
    ensures id in s.db.items && id !in Apply(s, a).db.items ==> a == AskDelete(s.db.items[id].batch)
  {
    if id in s.db.items && id !in Apply(s, a).db.items {
      RowsGoWithTheirBatch(s, a, id);
    }
    hide Inv, Apply, Enabled, RowStep;
    if id in s.db.items && id in Apply(s, a).db.items {
      if IsRequest(a) {
        RequestMovesRow(s, a, id);
      } else if a.Gather? {
        GatherMovesRow(s, a, id);
      } else {
        OtherStepMovesRow(s, a, id);
      }
    }
  }

  lemma RowsGoWithTheirBatch(s: Sys, a: Action, id: nat)
    requires Enabled(s, a) && id in s.db.items && id !in Apply(s, a).db.items
    ensures a == AskDelete(s.db.items[id].batch)
  {
    hide Derived, IsLimitError;
  }

  /** A new row is one of a new batch: its project at its position, pending, with neither run nor error. */
  lemma NewRows(s: Sys, a: Action, id: nat)
    requires Inv(s) && Enabled(s, a) && id !in s.db.items && id in Apply(s, a).db.items
    ensures a.AskCreate? && id >= s.nextItem && id - s.nextItem < |a.projects|
    ensures var k := id - s.nextItem;
      Apply(s, a).db.items[id] == Item(s.nextBatch, a.projects[k], k, ItemPending, None, "")
  {
    hide Derived, IsLimitError;
  }

  // ----- one batch, one step

  /** What is left of a batch after a step: it is cancelled by a cancel while it goes on, and taken up by a resume. */
  ghost predicate BatchStep(s: Sys, a: Action, b: nat, x: Batch, y: Batch) {
    && y.workflow == x.workflow && y.task == x.task && y.createdAt == x.createdAt
    && (y.status == StatusCancelled <==>
          || (x.status == StatusCancelled && !(a == AskResume(b) && SomeItem(s.db, b, ItemInterrupted)))
          || (a == AskCancel(b) && (x.status == StatusQueued || x.status == StatusRunning)))
  }

  /** What the scheduler's writes leave of a batch. */
  predicate Kept(x: Batch, y: Batch) {
    && y.workflow == x.workflow && y.task == x.task && y.createdAt == x.createdAt
    && (y.status == StatusCancelled <==> x.status == StatusCancelled)
  }

  lemma SetItemKeepsBatch(t: Tables, id: nat, item: Item, b: nat)
    requires id in t.items && item.batch == t.items[id].batch && b in t.batches
    ensures b in SetItem(t, id, item).batches && Kept(t.batches[b], SetItem(t, id, item).batches[b])
  {
  }

  lemma InterruptKeepsBatch(t: Tables, b: nat)
    requires b in t.batches
    ensures b in InterruptRunning(t).0.batches && Kept(t.batches[b], InterruptRunning(t).0.batches[b])
  {
  }

  lemma ItemWritesKeepBatch(t: Tables, id: nat, status: ItemStatus, error: string, b: nat)
    requires b in t.batches
    ensures var r := BatchTables.Claim(t, id); r.Ok? ==> b in r.value.batches && Kept(t.batches[b], r.value.batches[b])
    ensures var r := Requeue(t, id); r.Ok? ==> b in r.value.batches && Kept(t.batches[b], r.value.batches[b])
    ensures var r := MarkFinished(t, id, status, error);
      r.Ok? ==> b in r.value.batches && Kept(t.batches[b], r.value.batches[b])
    ensures forall run :: var r := Attach(t, id, run); r.Ok? ==> r.value.batches == t.batches
  {
    hide Kept, SetItem;
    if id in t.items {
      var item := t.items[id];
      SetItemKeepsBatch(t, id, item.(status := ItemRunning, run := None, error := ""), b);
      SetItemKeepsBatch(t, id, item.(status := ItemPending, run := None, error := ""), b);
      SetItemKeepsBatch(t, id, item.(status := status, error := error), b);
    }
  }

  lemma GatherKeepsBatch(s: Sys, a: Action, b: nat)
    requires Enabled(s, a) && a.Gather? && b in s.db.batches
    ensures b in Apply(s, a).db.batches && Kept(s.db.batches[b], Apply(s, a).db.batches[b])
  {
    hide Kept, Requeue, MarkFinished, Judge;
    KeptStays(s.db.batches[b]);
    var id := s.pc.todo[0].0;
    match Judge(a.row)
    case Over(status, error) => ItemWritesKeepBatch(s.db, id, status, error, b);
    case _ => ItemWritesKeepBatch(s.db, id, ItemFailed, "", b);
  }

  lemma KeptStays(x: Batch)
    ensures Kept(x, x)
  {
  }

  lemma OtherStepKeepsBatch(s: Sys, a: Action, b: nat)
    requires Enabled(s, a) && !IsRequest(a) && !a.Gather? && b in s.db.batches
    ensures b in Apply(s, a).db.batches && Kept(s.db.batches[b], Apply(s, a).db.batches[b])
  {
    hide Kept, BatchTables.Claim, Requeue, MarkFinished, Attach, InterruptRunning, IsLimitError, IsNext, WithStatus;
    KeptStays(s.db.batches[b]);
    if a.Restart? {
      InterruptKeepsBatch(s.db, b);
    } else if s.pc.Picked? || HoldsClaim(s.pc) {
      ItemWritesKeepBatch(s.db, s.pc.id, ItemFailed, if s.pc.Failing? then s.pc.error else "", b);
    }
  }

  lemma CancelMovesBatch(t: Tables, c: nat, b: nat)
    requires Cancel(t, c).Ok? && b in t.batches
    ensures b in Cancel(t, c).value.0.batches
    ensures var x, y := t.batches[b], Cancel(t, c).value.0.batches[b];
      if b == c && (x.status == StatusQueued || x.status == StatusRunning) then y == x.(status := StatusCancelled) else y == x
  {
  }

  lemma ResumeMovesBatch(t: Tables, c: nat, b: nat)
    requires Resume(t, c).Ok? && b in t.batches
    ensures b in Resume(t, c).value.0.batches
    ensures var x, y := t.batches[b], Resume(t, c).value.0.batches[b];
      && y.workflow == x.workflow && y.task == x.task && y.createdAt == x.createdAt
      && (y.status == StatusCancelled <==> x.status == StatusCancelled && !(b == c && SomeItem(t, b, ItemInterrupted)))
  {
    SomeMeaning(t, b, ItemInterrupted);
    hide SomeItem;
  }

  lemma RequestMovesBatch(s: Sys, a: Action, b: nat)
    requires Inv(s) && Enabled(s, a) && IsRequest(a) && b in s.db.batches && b in Apply(s, a).db.batches
    ensures BatchStep(s, a, b, s.db.batches[b], Apply(s, a).db.batches[b])
  {
    hide Cancel, Resume, SomeItem, Consistent, Counted;
    match a
    case AskCancel(c) =>
      if Cancel(s.db, c).Ok? {
        CancelMovesBatch(s.db, c, b);
      } else {
        NoBatchNoRequest(s.db, c);
      }
    case AskResume(c) =>
      if Resume(s.db, c).Ok? {
        ResumeMovesBatch(s.db, c, b);
      } else {
        NoBatchNoRequest(s.db, c);
      }
    case _ =>
  }

  lemma NoBatchNoRequest(t: Tables, c: nat)
    ensures Cancel(t, c).Err? <==> c !in t.batches
    ensures Resume(t, c).Err? <==> c !in t.batches
  {
  }

  lemma OtherStepMovesBatch(s: Sys, a: Action, b: nat)
    requires Inv(s) && Enabled(s, a) && !IsRequest(a) && b in s.db.batches
    ensures b in Apply(s, a).db.batches && BatchStep(s, a, b, s.db.batches[b], Apply(s, a).db.batches[b])
  {
    if a.Gather? {
      GatherKeepsBatch(s, a, b);
    } else {
      OtherStepKeepsBatch(s, a, b);
    }
    hide Inv, Apply, Enabled;
  }

  /** Every step moves every batch as `BatchStep` says; a batch goes only when it is deleted. */
  lemma BatchesMove(s: Sys, a: Action, b: nat)
    requires Inv(s) && Enabled(s, a)
    ensures b in s.db.batches && b in Apply(s, a).db.batches ==>
      BatchStep(s, a, b, s.db.batches[b], Apply(s, a).db.batches[b])
    ensures b in s.db.batches && b !in Apply(s, a).db.batches ==> a == AskDelete(b)
    ensures b !in s.db.batches && b in Apply(s, a).db.batches ==>
      a.AskCreate? && b == s.nextBatch && Apply(s, a).db.batches[b] == Batch(a.workflow, a.task, StatusQueued, a.now)
  {
    BatchesComeAndGo(s, a, b);
    hide Inv, Apply, Enabled, BatchStep;
    if b in s.db.batches && b in Apply(s, a).db.batches {
      if IsRequest(a) {
        RequestMovesBatch(s, a, b);
      } else {
        OtherStepMovesBatch(s, a, b);
      }
    }
  }

  lemma BatchesComeAndGo(s: Sys, a: Action, b: nat)
    requires Enabled(s, a)
    ensures b in s.db.batches && b !in Apply(s, a).db.batches ==> a == AskDelete(b)
    ensures b !in s.db.batches && b in Apply(s, a).db.batches ==>
      a.AskCreate? && b == s.nextBatch && Apply(s, a).db.batches[b] == Batch(a.workflow, a.task, StatusQueued, a.now)
  {
    hide IsLimitError, Derived;
  }

  // ----- resume

  predicate InterruptedIn(t: Tables, b: nat, id: nat) {
    id in t.items && t.items[id].batch == b && t.items[id].status == ItemInterrupted
  }

  /**
   A resume makes every interrupted item of the batch pending again, keeps its run and clears its error, and touches
   nothing else. It answers their number; with at least one the batch goes on, and the queue offers all of them.
   */
  lemma ResumeRevives(t: Tables, b: nat)
    requires Consistent(t)
    ensures Resume(t, b).Ok? <==> b in t.batches
    ensures b in t.batches ==>
      var (t', n) := Resume(t, b).value;
      && t'.items.Keys == t.items.Keys && t'.batches.Keys == t.batches.Keys
      && (forall id | id in t.items :: t'.items[id] ==
            if InterruptedIn(t, b, id) then t.items[id].(status := ItemPending, error := "") else t.items[id])
      && n == |set id | id in t.items && InterruptedIn(t, b, id)|
      && (n > 0 ==> t'.batches[b].status == StatusQueued || t'.batches[b].status == StatusRunning)
      && (forall id | InterruptedIn(t, b, id) :: Eligible(t', id))
      && (n == 0 ==> t' == t)
      && (forall c | c in t.batches && c != b :: t'.batches[c] == t.batches[c])
  {
    if b in t.batches {
      var (t', n) := Resume(t, b).value;
      assert InterruptedOf(t, b) == set id | id in t.items && InterruptedIn(t, b, id);
      ResumeConsistent(t, b);
      if n == 0 {
        ResumeOfNothing(t, b);
      } else {
        forall id | InterruptedIn(t, b, id) ensures Eligible(t', id) {
          assert id in InterruptedOf(t, b);
          PendingIsDerived(t', b, id);
        }
        var one :| one in InterruptedOf(t, b);
        assert InterruptedIn(t, b, one);
      }
    }
  }

  lemma PendingIsDerived(t: Tables, b: nat, id: nat)
    requires id in t.items && t.items[id].batch == b && t.items[id].status == ItemPending
    ensures Derived(t, b) == StatusQueued || Derived(t, b) == StatusRunning
  {
    assert id in ItemsOf(t, b) * WithStatus(t, ItemPending);
  }

  lemma ResumeOfNothing(t: Tables, b: nat)
    requires Consistent(t) && b in t.batches && InterruptedOf(t, b) == {}
    ensures Resume(t, b) == Ok((t, 0))
  {
    var t1 := Restamp(t, {}, ItemPending, false, "");
    assert t1.items == t.items && t1 == t;
    var t' := Resume(t, b).value.0;
    assert t'.batches == t.batches;
  }

  // ----- the other requests

  predicate ItemIn(t: Tables, b: nat, id: nat, status: ItemStatus) {
    id in t.items && t.items[id].batch == b && t.items[id].status == status
  }

  /** A cancel drops the pending items of the batch and answers their number; a batch that goes on is cancelled. */
  lemma CancelDrops(t: Tables, b: nat)
    ensures Cancel(t, b).Ok? <==> b in t.batches
    ensures b in t.batches ==>
      var (t', n) := Cancel(t, b).value;
      && t'.items.Keys == t.items.Keys && t'.batches.Keys == t.batches.Keys
      && (forall id | id in t.items :: t'.items[id] ==
            if ItemIn(t, b, id, ItemPending) then t.items[id].(status := ItemCancelled) else t.items[id])
      && n == |set id | id in t.items && ItemIn(t, b, id, ItemPending)|
      && (t.batches[b].status == StatusQueued || t.batches[b].status == StatusRunning ==>
            t'.batches[b] == t.batches[b].(status := StatusCancelled))
      && (t.batches[b].status == StatusDone || t.batches[b].status == StatusCancelled ==> t'.batches[b] == t.batches[b])
      && (forall c | c in t.batches && c != b :: t'.batches[c] == t.batches[c])
  {
    if b in t.batches {
      assert PendingOf(t, b) == set id | id in t.items && ItemIn(t, b, id, ItemPending);
    }
  }

  /** A batch can be deleted exactly when it is over and holds nothing live; it goes with its items, and nothing else. */
  lemma DeleteRemoves(t: Tables, b: nat)
    ensures Delete(t, b).Ok? <==>
      && b in t.batches && (t.batches[b].status == StatusDone || t.batches[b].status == StatusCancelled)
      && forall id | id in t.items && t.items[id].batch == b ::
           t.items[id].status != ItemPending && t.items[id].status != ItemRunning
    ensures Delete(t, b) == Err(ErrNotFound) <==> b !in t.batches
    ensures Delete(t, b).Ok? ==>
      && (forall c :: c in Delete(t, b).value.batches <==> c in t.batches && c != b)
      && (forall c | c in t.batches && c != b :: Delete(t, b).value.batches[c] == t.batches[c])
      && (forall id :: id in Delete(t, b).value.items <==> id in t.items && t.items[id].batch != b)
      && (forall id | id in t.items && t.items[id].batch != b :: Delete(t, b).value.items[id] == t.items[id])
  {
    if b in t.batches {
      var live := ItemsOf(t, b) * (WithStatus(t, ItemPending) + WithStatus(t, ItemRunning));
      forall id | id in t.items && t.items[id].batch == b
        ensures id in live <==> t.items[id].status == ItemPending || t.items[id].status == ItemRunning
      {
      }
      if id :| id in live {
        assert t.items[id].batch == b;
      }
    }
  }

  // ----- whose turn it is

  /** The next item is of the oldest batch that has one to offer, and the first of that batch by its place in the list. */
  lemma NextIsOldest(t: Tables, id: nat, other: nat)
    requires Consistent(t) && IsNext(t, id) && other in t.items && t.items[other].status == ItemPending
    requires t.batches[t.items[other].batch].status != StatusCancelled
    ensures id in t.items && t.items[id].status == ItemPending && t.batches[t.items[id].batch].status != StatusCancelled
    ensures t.batches[t.items[id].batch].createdAt <= t.batches[t.items[other].batch].createdAt
    ensures t.items[id].batch == t.items[other].batch ==> t.items[id].position <= t.items[other].position
  {
    EligibleMeaning(t, other);
    EligibleMeaning(t, id);
    hide Consistent;
  }

  // ----- the harvest

  /**
   What the harvest writes of a run that has ended: succeeded, failed, cancelled and interrupted arrive at the item
   as they are, with the run's message unless it succeeded. Only a run that found no slot goes back into the queue.
   */
  lemma HarvestWritesTheEnd(s: Sys, row: RunRow)
    requires Inv(s) && Enabled(s, Gather(Some(row), true)) && s.pc.todo[0].1.Some?
    ensures var id := s.pc.todo[0].0;
      && id in s.db.items && id in Apply(s, Gather(Some(row), true)).db.items
      && var x, y := s.db.items[id], Apply(s, Gather(Some(row), true)).db.items[id];
      && (row.status.RunSucceeded? ==> y.status == ItemSucceeded && y.error == "" && y.run == x.run)
      && (row.status.RunFailed? && !Contains(row.error, TOO_MANY_RUNS) ==>
            y.status == ItemFailed && y.error == row.error && y.run == x.run)
      && (row.status.RunFailed? && Contains(row.error, TOO_MANY_RUNS) ==>
            y.status == ItemPending && y.error == "" && y.run == None)
      && (row.status.RunCancelled? ==> y.status == ItemCancelled && y.error == row.error && y.run == x.run)
      && (row.status.RunInterrupted? ==> y.status == ItemInterrupted && y.error == row.error && y.run == x.run)
      && (row.status.RunPending? || row.status.RunRunning? ==> y == x)
      && y.batch == x.batch && y.project == x.project && y.position == x.position
  {
    var id := s.pc.todo[0].0;
    assert Holds(s, id);
    RowsMove(s, Gather(Some(row), true), id);
    LimitTextMeaning(row.error);
    RowsGo(s, Gather(Some(row), true), id);
    hide Inv, Apply, Enabled, IsLimitError, Contains;
  }

  lemma LimitTextMeaning(text: string)
    ensures IsLimitError(false, text) <==> Contains(text, TOO_MANY_RUNS)
  {
    if i: nat :| OccursAt(text, TOO_MANY_RUNS, i) {
      assert i < |text|;
    }
  }

  lemma RowsGo(s: Sys, a: Action, id: nat)
    requires Inv(s) && Enabled(s, a) && id in s.db.items && !a.AskDelete?
    ensures id in Apply(s, a).db.items
  {
    hide Inv, Apply, Enabled, RowStep;
    RowsMove(s, a, id);
  }

  // ----- the run a row names

  lemma {:induction false} BoundByStart(h: History, i: nat) returns (j: nat)
    requires IsHistory(h) && i < |h.states| && h.states[i].pc.Binding?
    ensures j < i && StartsAt(h, j, h.states[i].pc.id) && h.acts[j] == CallStart(Started(h.states[i].pc.run))
  {
    assert i > 0;
    assert Enabled(h.states[i - 1], h.acts[i - 1]) && h.states[i] == Apply(h.states[i - 1], h.acts[i - 1]);
    BindingComes(h.states[i - 1], h.acts[i - 1]);
    hide IsHistory, Apply, Enabled;
    if h.states[i - 1].pc.Binding? {
      j := BoundByStart(h, i - 1);
    } else {
      j := i - 1;
    }
  }

  lemma BindingComes(s: Sys, a: Action)
    requires Enabled(s, a) && Apply(s, a).pc.Binding?
    ensures s.pc == Apply(s, a).pc
      || (s.pc.Claimed? && a == CallStart(Started(Apply(s, a).pc.run)) && s.pc.id == Apply(s, a).pc.id)
  {
    hide Create, Cancel, Resume, Delete, SetItem;
  }

  /** The run in an item's row is one that was started for that item. */
  lemma {:induction false} RunIsTheStarted(h: History, i: nat, id: nat) returns (j: nat)
    requires IsHistory(h) && i < |h.states| && id in h.states[i].db.items && h.states[i].db.items[id].run.Some?
    ensures j < i && StartsAt(h, j, id) && h.acts[j] == CallStart(Started(h.states[i].db.items[id].run.value))
  {
    hide Inv, Apply, Enabled;
    NoRowsAtFirst(h);
    StepOf(h, i - 1);
    HistoryKeepsInv(h, i - 1);
    var s, a := h.states[i - 1], h.acts[i - 1];
    if id !in s.db.items {
      NewRows(s, a, id);
    } else {
      RowsMove(s, a, id);
    }
    if id in s.db.items && s.db.items[id].run == h.states[i].db.items[id].run {
      j := RunIsTheStarted(h, i - 1, id);
    } else {
      j := BoundByStart(h, i - 1);
    }
  }

  lemma NoRowsAtFirst(h: History)
    requires IsHistory(h)
    ensures h.states[0].db.items == map[] && |h.states| == |h.acts| + 1
  {
  }

  lemma StepOf(h: History, i: nat)
    requires IsHistory(h) && i < |h.acts|
    ensures i + 1 < |h.states| && Enabled(h.states[i], h.acts[i]) && h.states[i + 1] == Apply(h.states[i], h.acts[i])
  {
  }

  // ----- how an item ended

  predicate HasEnded(status: ItemStatus) {
    status != ItemPending && status != ItemRunning
  }

  /** The steps that are about an item find it running or waiting. */
  lemma EndedRowStays(s: Sys, a: Action, id: nat, y: Item)
    requires Inv(s) && Enabled(s, a) && id in s.db.items && HasEnded(s.db.items[id].status)
    requires RowStep(s, a, id, s.db.items[id], y) && y.status == s.db.items[id].status
    ensures y == s.db.items[id]
  {
    if a.Gather? {
      assert Holds(s, s.pc.todo[0].0);
    }
  }

  /** The step that gave an item the end it has. */
  lemma {:induction false} EndComesFrom(h: History, i: nat, id: nat) returns (k: nat)
    requires IsHistory(h) && i < |h.states| && id in h.states[i].db.items && HasEnded(h.states[i].db.items[id].status)
    ensures k < i <= |h.acts| && id in h.states[k].db.items
    ensures var x, y := h.states[k].db.items[id], h.states[i].db.items[id];
      && x.status != y.status && RowStep(h.states[k], h.acts[k], id, x, y)
  {
    hide Inv, Apply, Enabled, RowStep;
    NoRowsAtFirst(h);
    StepOf(h, i - 1);
    HistoryKeepsInv(h, i - 1);
    var s, a := h.states[i - 1], h.acts[i - 1];
    if id !in s.db.items {
      NewRows(s, a, id);
    } else {
      RowsMove(s, a, id);
      if s.db.items[id].status == h.states[i].db.items[id].status {
        EndedRowStays(s, a, id, h.states[i].db.items[id]);
        k := EndComesFrom(h, i - 1, id);
      } else {
        k := i - 1;
      }
    }
  }

  /** The harvest looks at the runs that the rows name. */
  ghost predicate TodoFits(s: Sys) {
    s.pc.Harvesting? ==> forall k | 0 <= k < |s.pc.todo| ::
      Holds(s, s.pc.todo[k].0) && s.pc.todo[k].1 == s.db.items[s.pc.todo[k].0].run
  }

  lemma RunningRowStays(s: Sys, a: Action, id: nat)
    requires Inv(s) && Enabled(s, a) && Holds(s, id) && !Concerns(s, a, id) && !a.Restart?
    ensures id in Apply(s, a).db.items && Apply(s, a).db.items[id] == s.db.items[id]
  {
    RowsMove(s, a, id);
    if a.AskDelete? {
      RequestsLeaveRunningAlone(s, a);
    } else {
      RowsGo(s, a, id);
    }
    hide Inv, Apply, Enabled;
  }

  lemma TodoComesFrom(s: Sys, a: Action)
    requires Inv(s) && Enabled(s, a) && Apply(s, a).pc.Harvesting? && !a.BeginTick?
    ensures s.pc.Harvesting? && !a.Restart?
    ensures Apply(s, a).pc.todo == if a.Gather? then s.pc.todo[1..] else s.pc.todo
    ensures a.Gather? ==> s.pc.todo != [] && forall k | 0 < k < |s.pc.todo| :: s.pc.todo[k].0 != s.pc.todo[0].0
    ensures forall id :: Concerns(s, a, id) ==> a.Gather? && id == s.pc.todo[0].0
  {
    hide Create, Cancel, Resume, Delete, SetItem, Consistent;
  }

  lemma TickReadsRuns(s: Sys, order: seq<nat>)
    requires Enabled(s, BeginTick(order))
    ensures TodoFits(Apply(s, BeginTick(order)))
  {
    forall k | 0 <= k < |order| ensures order[k] in Running(s) {
      assert order[k] in order;
    }
  }

  lemma StepKeepsTodo(s: Sys, a: Action)
    requires Inv(s) && Enabled(s, a) && TodoFits(s)
    ensures TodoFits(Apply(s, a))
  {
    hide Inv, Apply, Enabled;
    if a.BeginTick? {
      TickReadsRuns(s, a.order);
    } else if Apply(s, a).pc.Harvesting? {
      TodoComesFrom(s, a);
      var t := Apply(s, a);
      var d := if a.Gather? then 1 else 0;
      forall k | 0 <= k < |t.pc.todo|
        ensures Holds(t, t.pc.todo[k].0) && t.pc.todo[k].1 == t.db.items[t.pc.todo[k].0].run
      {
        assert t.pc.todo[k] == s.pc.todo[k + d];
        RunningRowStays(s, a, s.pc.todo[k + d].0);
      }
    }
  }

  lemma {:induction false} HistoryKeepsTodo(h: History, i: nat)
    requires IsHistory(h) && i < |h.states|
    ensures TodoFits(h.states[i])
  {
    hide Inv, Apply, Enabled, TodoFits;
    if i == 0 {
      NoTodoAtFirst(h);
    } else {
      NoRowsAtFirst(h);
      StepOf(h, i - 1);
      HistoryKeepsInv(h, i - 1);
      HistoryKeepsTodo(h, i - 1);
      StepKeepsTodo(h.states[i - 1], h.acts[i - 1]);
    }
  }

  lemma NoTodoAtFirst(h: History)
    requires IsHistory(h)
    ensures TodoFits(h.states[0])
  {
  }

  lemma SuccessIsGathered(s: Sys, a: Action, id: nat, x: Item, y: Item)
    requires RowStep(s, a, id, x, y) && x.status != y.status && y.status == ItemSucceeded
    ensures a.Gather? && a.wrote && a.row.Some? && a.row.value.status.RunSucceeded? && Concerns(s, a, id)
  {
    hide IsLimitError;
  }

  /** An item has succeeded only if a run that was started for it, the one its row named, has succeeded. */
  lemma SuccessIsOfAStartedRun(h: History, i: nat, id: nat) returns (j: nat, k: nat)
    requires IsHistory(h) && i < |h.states| && id in h.states[i].db.items
    requires h.states[i].db.items[id].status == ItemSucceeded
    ensures j < k < i <= |h.acts| && StartsAt(h, j, id)
    ensures h.acts[k].Gather? && h.acts[k].wrote && h.acts[k].row.Some? && h.acts[k].row.value.status.RunSucceeded?
    ensures h.states[k].pc.Harvesting? && h.states[k].pc.todo != [] && h.states[k].pc.todo[0].1.Some?
    ensures h.states[k].pc.todo[0].0 == id && h.acts[j] == CallStart(Started(h.states[k].pc.todo[0].1.value))
  {
    hide IsHistory, RowStep, HasEnded;
    SucceededHasEnded();
    k := EndComesFrom(h, i, id);
    SuccessIsGathered(h.states[k], h.acts[k], id, h.states[k].db.items[id], h.states[i].db.items[id]);
    HistoryKeepsTodo(h, k);
    j := RunIsTheStarted(h, k, id);
  }

  lemma SucceededHasEnded()
    ensures HasEnded(ItemSucceeded)
  {
  }

  // ----- failures

  /** The item's start was refused for another reason than the limit, or its run could not be bound to it. */
  ghost predicate StartFailed(h: History, j: nat, id: nat, error: string) {
    || (StartsAt(h, j, id) && h.acts[j] == CallStart(NotStarted(false, error)) && !Contains(error, TOO_MANY_RUNS))
    || BindingFailed(h, j, id, error)
  }

  ghost predicate BindingFailed(h: History, j: nat, id: nat, error: string) {
    && j < |h.acts| && j < |h.states| && h.acts[j].Bind? && h.states[j].pc.Binding? && h.states[j].pc.id == id
    && error == UNBOUND_TEXT
  }

  lemma FailingComes(s: Sys, a: Action)
    requires Enabled(s, a) && Apply(s, a).pc.Failing?
    ensures var pc := Apply(s, a).pc;
      || s.pc == pc
      || (s.pc.Claimed? && s.pc.id == pc.id && a == CallStart(NotStarted(false, pc.error)) && !IsLimitError(false, pc.error))
      || (s.pc.Binding? && s.pc.id == pc.id && a.Bind? && pc.error == UNBOUND_TEXT)
  {
    hide Create, Cancel, Resume, Delete, SetItem, IsNext;
  }

  lemma {:induction false} FailingComesFrom(h: History, i: nat) returns (j: nat)
    requires IsHistory(h) && i < |h.states| && h.states[i].pc.Failing?
    ensures j < i && StartFailed(h, j, h.states[i].pc.id, h.states[i].pc.error)
  {
    NoRowsAtFirst(h);
    StepOf(h, i - 1);
    FailingComes(h.states[i - 1], h.acts[i - 1]);
    LimitTextMeaning(h.states[i].pc.error);
    hide IsHistory, Apply, Enabled, IsLimitError, Contains;
    if h.states[i - 1].pc == h.states[i].pc {
      j := FailingComesFrom(h, i - 1);
    } else {
      j := i - 1;
    }
  }

  /** The harvest found that the run of the item had failed, and not for want of a slot. */
  ghost predicate RunFailedAt(h: History, k: nat, id: nat, error: string) {
    && k < |h.acts| && k < |h.states| && Concerns(h.states[k], h.acts[k], id)
    && h.acts[k] == Gather(Some(RunRow(Execution.RunFailed, error)), true) && !Contains(error, TOO_MANY_RUNS)
  }

  lemma FailureComesFrom(s: Sys, a: Action, id: nat, x: Item, y: Item)
    requires RowStep(s, a, id, x, y) && x.status != y.status && y.status == ItemFailed
    ensures Concerns(s, a, id)
    ensures (a == RecordFailure(true) && s.pc.Failing? && y.error == s.pc.error)
      || (a == Gather(Some(RunRow(Execution.RunFailed, y.error)), true) && !IsLimitError(false, y.error))
  {
  }

  /** A failed item carries the message of what failed: its start, the binding of its run, or the run itself. */
  lemma FailureIsReported(h: History, i: nat, id: nat) returns (k: nat)
    requires IsHistory(h) && i < |h.states| && id in h.states[i].db.items && h.states[i].db.items[id].status == ItemFailed
    ensures k < i
    ensures StartFailed(h, k, id, h.states[i].db.items[id].error) || RunFailedAt(h, k, id, h.states[i].db.items[id].error)
  {
    hide IsHistory, RowStep, IsLimitError, Contains, StartFailed;
    FailedHasEnded();
    var e := EndComesFrom(h, i, id);
    var error := h.states[i].db.items[id].error;
    FailureComesFrom(h.states[e], h.acts[e], id, h.states[e].db.items[id], h.states[i].db.items[id]);
    LimitTextMeaning(error);
    if h.acts[e].Gather? {
      k := e;
    } else {
      k := FailingComesFrom(h, e);
    }
  }

  lemma FailedHasEnded()
    ensures HasEnded(ItemFailed)
  {
  }
}
