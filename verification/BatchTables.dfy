/**
 The rows of the batch queue and what each store transaction does to them
 (backend/internal/runbatch/store.go). One transaction is one atomic change.
 */
module BatchTables {
  import opened Wrappers

  datatype ItemStatus = ItemPending | ItemRunning | ItemSucceeded | ItemFailed | ItemInterrupted | ItemCancelled

  datatype BatchStatus = StatusQueued | StatusRunning | StatusDone | StatusCancelled

  datatype Item = Item(batch: nat, project: nat, position: nat, status: ItemStatus, run: Option<nat>, error: string)

  datatype Batch = Batch(workflow: nat, task: string, status: BatchStatus, createdAt: nat)

  datatype StoreError = ErrNotFound | ErrNoProjects | ErrDuplicateProject | ErrRunning | ErrNotWritten

  datatype Tables = Tables(batches: map<nat, Batch>, items: map<nat, Item>)

  function ItemsOf(t: Tables, b: nat): set<nat> {
    set id | id in t.items && t.items[id].batch == b
  }

  function WithStatus(t: Tables, status: ItemStatus): set<nat> {
    set id | id in t.items && t.items[id].status == status
  }

  /** The status a batch gets from its items: running before queued before done. */
  function Derived(t: Tables, b: nat): (status: BatchStatus)
    ensures status != StatusCancelled
  {
    if ItemsOf(t, b) * WithStatus(t, ItemRunning) != {} then StatusRunning
    else if ItemsOf(t, b) * WithStatus(t, ItemPending) != {} then StatusQueued
    else StatusDone
  }

  predicate SomeItem(t: Tables, b: nat, status: ItemStatus) {
    exists id | id in t.items :: t.items[id].batch == b && t.items[id].status == status
  }

  /** Running if some item runs; else queued if some item is pending; else done. */
  lemma DerivedMeaning(t: Tables, b: nat)
    ensures Derived(t, b) == StatusRunning <==> SomeItem(t, b, ItemRunning)
    ensures Derived(t, b) == StatusQueued <==> !SomeItem(t, b, ItemRunning) && SomeItem(t, b, ItemPending)
    ensures Derived(t, b) == StatusDone <==> !SomeItem(t, b, ItemRunning) && !SomeItem(t, b, ItemPending)
  {
    SomeMeaning(t, b, ItemRunning);
    SomeMeaning(t, b, ItemPending);
  }

  lemma SomeMeaning(t: Tables, b: nat, status: ItemStatus)
    ensures SomeItem(t, b, status) <==> ItemsOf(t, b) * WithStatus(t, status) != {}
  {
    if SomeItem(t, b, status) {
      var id :| id in t.items && t.items[id].batch == b && t.items[id].status == status;
      assert id in ItemsOf(t, b) * WithStatus(t, status);
    }
    if ItemsOf(t, b) * WithStatus(t, status) != {} {
      var id :| id in ItemsOf(t, b) * WithStatus(t, status);
    }
  }

  /** `refreshStatus`: a cancelled batch is left alone unless it is being revived. */
  function Refresh(t: Tables, b: nat, revive: bool): Tables {
    if b in t.batches && (revive || t.batches[b].status != StatusCancelled) then
      t.(batches := t.batches[b := t.batches[b].(status := Derived(t, b))])
    else t
  }

  /** `withBatch`: an item is changed and its batch's status follows. */
  function SetItem(t: Tables, id: nat, item: Item): Tables
    requires id in t.items && item.batch == t.items[id].batch
  {
    Refresh(t.(items := t.items[id := item]), item.batch, false)
  }

  // ----- transactions

  predicate NoRepeats(projects: seq<nat>) {
    forall i, j | 0 <= i < j < |projects| :: projects[i] != projects[j]
  }

  function NewIds(first: nat, n: nat): (ids: set<nat>)
    ensures forall id: nat :: id in ids <==> first <= id < first + n
  {
    if n == 0 then {} else NewIds(first, n - 1) + {first + n - 1}
  }

  /** Item `k` of a new batch gets the id `firstItem + k` and the position `k`. */
  function Create(t: Tables, b: nat, firstItem: nat, workflow: nat, task: string, projects: seq<nat>, now: nat)
    : Result<Tables, StoreError>
  {
    if |projects| == 0 then Err(ErrNoProjects)
    else if !NoRepeats(projects) then Err(ErrDuplicateProject)
    else
      Ok(Tables(t.batches[b := Batch(workflow, task, StatusQueued, now)],
                t.items + map id | id in NewIds(firstItem, |projects|) ::
                  Item(b, projects[id - firstItem], id - firstItem, ItemPending, None, "")))
  }

  function Claim(t: Tables, id: nat): Result<Tables, StoreError> {
    if id !in t.items || t.items[id].status != ItemPending then Err(ErrNotFound)
    else Ok(SetItem(t, id, t.items[id].(status := ItemRunning, run := None, error := "")))
  }

  function Attach(t: Tables, id: nat, run: nat): Result<Tables, StoreError> {
    if id !in t.items || t.items[id].status != ItemRunning then Err(ErrNotFound)
    else Ok(t.(items := t.items[id := t.items[id].(run := Some(run))]))
  }

  function Requeue(t: Tables, id: nat): Result<Tables, StoreError> {
    if id !in t.items || t.items[id].status != ItemRunning then Err(ErrNotFound)
    else Ok(SetItem(t, id, t.items[id].(status := ItemPending, run := None, error := "")))
  }

  function MarkFinished(t: Tables, id: nat, status: ItemStatus, error: string): Result<Tables, StoreError> {
    if id !in t.items then Err(ErrNotFound)
    else Ok(SetItem(t, id, t.items[id].(status := status, error := error)))
  }

  /** Every item of `ids` gets the status `status` and the error text `error`. */
  function Restamp(t: Tables, ids: set<nat>, status: ItemStatus, keepError: bool, error: string): Tables {
    t.(items := map id | id in t.items ::
      if id in ids then t.items[id].(status := status, error := if keepError then t.items[id].error else error)
      else t.items[id])
  }

  function PendingOf(t: Tables, b: nat): set<nat> {
    ItemsOf(t, b) * WithStatus(t, ItemPending)
  }

  function InterruptedOf(t: Tables, b: nat): set<nat> {
    ItemsOf(t, b) * WithStatus(t, ItemInterrupted)
  }

  /** Pending items fall; running ones go on. A batch that is already over keeps its status. */
  function Cancel(t: Tables, b: nat): Result<(Tables, nat), StoreError> {
    if b !in t.batches then Err(ErrNotFound)
    else
      var dropped := PendingOf(t, b);
      var t1 := Restamp(t, dropped, ItemCancelled, true, "");
      var status := t.batches[b].status;
      var t2 := if status == StatusQueued || status == StatusRunning
                then t1.(batches := t1.batches[b := t1.batches[b].(status := StatusCancelled)]) else t1;
      Ok((t2, |dropped|))
  }

  /** Interrupted items queue up again; only then is a cancelled batch taken up once more. */
  function Resume(t: Tables, b: nat): Result<(Tables, nat), StoreError> {
    if b !in t.batches then Err(ErrNotFound)
    else
      var revived := InterruptedOf(t, b);
      Ok((Refresh(Restamp(t, revived, ItemPending, false, ""), b, revived != {}), |revived|))
  }

  const INTERRUPTED_TEXT := "Backend yeniden ba\U{15F}lad\U{131}\U{11F}\U{131}nda kesildi"

  function RefreshAll(t: Tables, bs: set<nat>): Tables {
    t.(batches := map b | b in t.batches ::
      if b in bs && t.batches[b].status != StatusCancelled then t.batches[b].(status := Derived(t, b)) else t.batches[b])
  }

  function BatchesOf(t: Tables, ids: set<nat>): set<nat> {
    set id | id in ids && id in t.items :: t.items[id].batch
  }

  function InterruptRunning(t: Tables): (Tables, nat) {
    var cut := WithStatus(t, ItemRunning);
    (RefreshAll(Restamp(t, cut, ItemInterrupted, false, INTERRUPTED_TEXT), BatchesOf(t, cut)), |cut|)
  }

  /** Refused while anything can still happen in the batch. */
  function Delete(t: Tables, b: nat): Result<Tables, StoreError> {
    if b !in t.batches then Err(ErrNotFound)
    else if t.batches[b].status == StatusQueued || t.batches[b].status == StatusRunning
      || ItemsOf(t, b) * (WithStatus(t, ItemPending) + WithStatus(t, ItemRunning)) != {} then Err(ErrRunning)
    else Ok(Tables(t.batches - {b}, t.items - ItemsOf(t, b)))
  }

  // ----- the order of the queue

  predicate Eligible(t: Tables, id: nat) {
    && id in t.items && t.items[id].status == ItemPending && t.items[id].batch in t.batches
    && (t.batches[t.items[id].batch].status == StatusQueued || t.batches[t.items[id].batch].status == StatusRunning)
  }

  /** Older batch first, then the position inside the batch. */
  predicate NoLater(t: Tables, a: nat, b: nat)
    requires a in t.items && b in t.items && t.items[a].batch in t.batches && t.items[b].batch in t.batches
  {
    var x, y := t.batches[t.items[a].batch].createdAt, t.batches[t.items[b].batch].createdAt;
    x < y || (x == y && t.items[a].position <= t.items[b].position)
  }

  /** What `NextPending` may answer; rows that tie in the order come in any order. */
  ghost predicate IsNext(t: Tables, id: nat) {
    Eligible(t, id) && forall other | Eligible(t, other) :: NoLater(t, id, other)
  }

  // ----- status follows the items

  /** Items belong to batches, and a batch that is not cancelled has the status its items give it. */
  ghost predicate Consistent(t: Tables) {
    && (forall id | id in t.items :: t.items[id].batch in t.batches)
    && (forall b | b in t.batches :: t.batches[b].status == StatusCancelled || t.batches[b].status == Derived(t, b))
  }

  lemma SetItemConsistent(t: Tables, id: nat, item: Item)
    requires Consistent(t) && id in t.items && item.batch == t.items[id].batch
    ensures Consistent(SetItem(t, id, item))
  {
    var t1 := t.(items := t.items[id := item]);
    var t2 := SetItem(t, id, item);
    forall b | b in t2.batches
      ensures t2.batches[b].status == StatusCancelled || t2.batches[b].status == Derived(t2, b)
    {
      SameItemsSameStatus(t1, t2, b);
      if b != item.batch {
        SameItemsSameStatus(t, t2, b);
      }
    }
  }

  /** The derived status looks at the items of the batch only. */
  lemma SameItemsSameStatus(t: Tables, t': Tables, b: nat)
    requires ItemsOf(t, b) == ItemsOf(t', b)
    requires forall id | id in ItemsOf(t, b) :: t.items[id].status == t'.items[id].status
    ensures Derived(t, b) == Derived(t', b)
  {
    assert ItemsOf(t, b) * WithStatus(t, ItemRunning) == ItemsOf(t', b) * WithStatus(t', ItemRunning);
    assert ItemsOf(t, b) * WithStatus(t, ItemPending) == ItemsOf(t', b) * WithStatus(t', ItemPending);
  }

  lemma CreateConsistent(t: Tables, b: nat, firstItem: nat, workflow: nat, task: string, projects: seq<nat>, now: nat)
    requires Consistent(t) && b !in t.batches && forall id | id in t.items :: id < firstItem
    requires Create(t, b, firstItem, workflow, task, projects, now).Ok?
    ensures Consistent(Create(t, b, firstItem, workflow, task, projects, now).value)
  {
    var t' := Create(t, b, firstItem, workflow, task, projects, now).value;
    forall c | c in t'.batches
      ensures t'.batches[c].status == StatusCancelled || t'.batches[c].status == Derived(t', c)
    {
      if c == b {
        assert firstItem in ItemsOf(t', b) * WithStatus(t', ItemPending);
        assert ItemsOf(t', b) * WithStatus(t', ItemRunning) == {};
      } else {
        assert ItemsOf(t', c) == ItemsOf(t, c);
        SameItemsSameStatus(t, t', c);
      }
    }
  }

  lemma CancelConsistent(t: Tables, b: nat)
    requires Consistent(t) && Cancel(t, b).Ok?
    ensures Consistent(Cancel(t, b).value.0)
  {
    var t' := Cancel(t, b).value.0;
    forall c | c in t'.batches
      ensures t'.batches[c].status == StatusCancelled || t'.batches[c].status == Derived(t', c)
    {
      if c != b {
        SameItemsSameStatus(t, t', c);
      } else if t.batches[b].status == StatusDone {
        SameItemsSameStatus(t, t', b);
      }
    }
  }

  lemma ResumeConsistent(t: Tables, b: nat)
    requires Consistent(t) && Resume(t, b).Ok?
    ensures Consistent(Resume(t, b).value.0)
  {
    var t1 := Restamp(t, InterruptedOf(t, b), ItemPending, false, "");
    var t' := Resume(t, b).value.0;
    forall c | c in t'.batches
      ensures t'.batches[c].status == StatusCancelled || t'.batches[c].status == Derived(t', c)
    {
      SameItemsSameStatus(t1, t', c);
      if c != b {
        SameItemsSameStatus(t, t', c);
      }
    }
  }

  lemma InterruptConsistent(t: Tables)
    requires Consistent(t)
    ensures Consistent(InterruptRunning(t).0)
    ensures WithStatus(InterruptRunning(t).0, ItemRunning) == {}
  {
    var cut := WithStatus(t, ItemRunning);
    var t1 := Restamp(t, cut, ItemInterrupted, false, INTERRUPTED_TEXT);
    var t' := InterruptRunning(t).0;
    forall c | c in t'.batches
      ensures t'.batches[c].status == StatusCancelled || t'.batches[c].status == Derived(t', c)
    {
      SameItemsSameStatus(t1, t', c);
      if c !in BatchesOf(t, cut) {
        assert forall id | id in ItemsOf(t, c) :: id !in cut;
        SameItemsSameStatus(t, t', c);
      }
    }
  }

  lemma DeleteConsistent(t: Tables, b: nat)
    requires Consistent(t) && Delete(t, b).Ok?
    ensures Consistent(Delete(t, b).value)
  {
    var t' := Delete(t, b).value;
    forall c | c in t'.batches
      ensures t'.batches[c].status == StatusCancelled || t'.batches[c].status == Derived(t', c)
    {
      assert ItemsOf(t', c) == ItemsOf(t, c);
      SameItemsSameStatus(t, t', c);
    }
  }

  /** In consistent tables the queue is the pending items of the batches that are not cancelled. */
  lemma EligibleMeaning(t: Tables, id: nat)
    requires Consistent(t) && id in t.items
    ensures Eligible(t, id)
      <==> t.items[id].status == ItemPending && t.batches[t.items[id].batch].status != StatusCancelled
  {
    if t.items[id].status == ItemPending {
      assert id in ItemsOf(t, t.items[id].batch) * WithStatus(t, ItemPending);
    }
  }
}
