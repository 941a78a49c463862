/**
 The queue's store as an object: each method is one transaction of backend/internal/runbatch/store.go on rows
 changed in place. A transaction that cannot be written (`wrote` is false) is rolled back.
 */
module BatchStore {
  import opened Wrappers
  import opened BatchTables
  import opened BatchQueue

  /** The outcome of a transaction on `before` that would leave `r`. */
  ghost predicate Committed(before: Tables, r: Result<Tables, StoreError>, wrote: bool,
                            err: Option<StoreError>, after: Tables) {
    && (err == None <==> wrote && r.Ok?)
    && (wrote && r.Err? ==> err == Some(r.error))
    && after == if err == None then Written(before, r) else before
  }

  ghost predicate CommittedCount(before: Tables, r: Result<(Tables, nat), StoreError>, err: Option<StoreError>,
                                 after: Tables, n: nat)
  {
    && (err == None <==> r.Ok?)
    && (r.Err? ==> err == Some(r.error))
    && after == WrittenCount(before, r)
    && (r.Ok? ==> n == r.value.1)
  }

  class Store {
    var batches: map<nat, Batch>
    var items: map<nat, Item>

    ghost function Rows(): Tables
      reads this
    {
      Tables(batches, items)
    }

    constructor ()
      ensures Rows() == EMPTY.db
    {
      batches, items := map[], map[];
    }

    method RefreshStatus(b: nat, revive: bool)
      modifies this`batches
      ensures Rows() == Refresh(old(Rows()), b, revive)
    {
      if b !in batches || (!revive && batches[b].status == StatusCancelled) {
        return;
      }
      var status := StatusDone;
      if id :| id in items && items[id].batch == b && items[id].status == ItemRunning {
        assert id in ItemsOf(Rows(), b) * WithStatus(Rows(), ItemRunning);
        status := StatusRunning;
      } else {
        assert ItemsOf(Rows(), b) * WithStatus(Rows(), ItemRunning) == {};
        if id :| id in items && items[id].batch == b && items[id].status == ItemPending {
          assert id in ItemsOf(Rows(), b) * WithStatus(Rows(), ItemPending);
          status := StatusQueued;
        } else {
          assert ItemsOf(Rows(), b) * WithStatus(Rows(), ItemPending) == {};
        }
      }
      batches := batches[b := batches[b].(status := status)];
    }

    method Create(b: nat, firstItem: nat, workflow: nat, task: string, projects: seq<nat>, now: nat)
      returns (err: Option<StoreError>)
      modifies this
      ensures Committed(old(Rows()), BatchTables.Create(old(Rows()), b, firstItem, workflow, task, projects, now),
                        true, err, Rows())
    {
      if |projects| == 0 {
        return Some(ErrNoProjects);
      }
      var added: map<nat, Item> := map[];
      ghost var rows := Rows();
      for i := 0 to |projects|
        invariant Rows() == rows
        invariant NoRepeats(projects[..i])
        invariant added == (map id | id in NewIds(firstItem, i) ::
          Item(b, projects[id - firstItem], id - firstItem, ItemPending, None, ""))
      {
        assert projects[..i + 1] == projects[..i] + [projects[i]];
        if projects[i] in projects[..i] {
          var j :| 0 <= j < i && projects[j] == projects[i];
          return Some(ErrDuplicateProject);
        }
        added := added[firstItem + i := Item(b, projects[i], i, ItemPending, None, "")];
      }
      assert projects[..|projects|] == projects;
      batches := batches[b := Batch(workflow, task, StatusQueued, now)];
      items := items + added;
      err := None;
    }

    method Claim(id: nat, wrote: bool) returns (err: Option<StoreError>)
      modifies this
      ensures Committed(old(Rows()), BatchTables.Claim(old(Rows()), id), wrote, err, Rows())
    {
      if !wrote {
        return Some(ErrNotWritten);
      }
      if id !in items || items[id].status != ItemPending {
        return Some(ErrNotFound);
      }
      items := items[id := items[id].(status := ItemRunning, run := None, error := "")];
      RefreshStatus(items[id].batch, false);
      err := None;
    }

    method Attach(id: nat, run: nat, wrote: bool) returns (err: Option<StoreError>)
      modifies this
      ensures Committed(old(Rows()), BatchTables.Attach(old(Rows()), id, run), wrote, err, Rows())
    {
      if !wrote {
        return Some(ErrNotWritten);
      }
      if id !in items || items[id].status != ItemRunning {
        return Some(ErrNotFound);
      }
      items := items[id := items[id].(run := Some(run))];
      err := None;
    }

    method Requeue(id: nat, wrote: bool) returns (err: Option<StoreError>)
      modifies this
      ensures Committed(old(Rows()), BatchTables.Requeue(old(Rows()), id), wrote, err, Rows())
    {
      if !wrote {
        return Some(ErrNotWritten);
      }
      if id !in items || items[id].status != ItemRunning {
        return Some(ErrNotFound);
      }
      items := items[id := items[id].(status := ItemPending, run := None, error := "")];
      RefreshStatus(items[id].batch, false);
      err := None;
    }

    method MarkFinished(id: nat, status: ItemStatus, error: string, wrote: bool) returns (err: Option<StoreError>)
      modifies this
      ensures Committed(old(Rows()), BatchTables.MarkFinished(old(Rows()), id, status, error), wrote, err, Rows())
    {
      if !wrote {
        return Some(ErrNotWritten);
      }
      if id !in items {
        return Some(ErrNotFound);
      }
      items := items[id := items[id].(status := status, error := error)];
      RefreshStatus(items[id].batch, false);
      err := None;
    }

    method Cancel(b: nat) returns (err: Option<StoreError>, n: nat)
      modifies this
      ensures CommittedCount(old(Rows()), BatchTables.Cancel(old(Rows()), b), err, Rows(), n)
    {
      if b !in batches {
        return Some(ErrNotFound), 0;
      }
      var status := batches[b].status;
      var dropped := set id | id in items && items[id].batch == b && items[id].status == ItemPending;
      assert dropped == PendingOf(Rows(), b);
      items := map id | id in items :: if id in dropped then items[id].(status := ItemCancelled) else items[id];
      if status == StatusQueued || status == StatusRunning {
        batches := batches[b := batches[b].(status := StatusCancelled)];
      }
      err, n := None, |dropped|;
    }

    method Resume(b: nat) returns (err: Option<StoreError>, n: nat)
      modifies this
      ensures CommittedCount(old(Rows()), BatchTables.Resume(old(Rows()), b), err, Rows(), n)
    {
      hide Refresh, Restamp;
      if b !in batches {
        return Some(ErrNotFound), 0;
      }
      var revived := set id | id in items && items[id].batch == b && items[id].status == ItemInterrupted;
      assert revived == InterruptedOf(Rows(), b);
      items := map id | id in items ::
        if id in revived then items[id].(status := ItemPending, error := "") else items[id];
      assert Rows() == Restamp(old(Rows()), revived, ItemPending, false, "") by {
        RestampMeaning(old(Rows()), revived, ItemPending, false, "");
      }
      RefreshStatus(b, |revived| > 0);
      err, n := None, |revived|;
    }

    method InterruptRunning(wrote: bool) returns (err: Option<StoreError>, n: nat)
      modifies this
      ensures err == None <==> wrote
      ensures wrote ==> (Rows(), n) == BatchTables.InterruptRunning(old(Rows()))
      ensures !wrote ==> Rows() == old(Rows())
    {
      hide Refresh, RefreshAll, Restamp, BatchesOf;
      if !wrote {
        return Some(ErrNotWritten), 0;
      }
      var cut := set id | id in items && items[id].status == ItemRunning;
      assert cut == WithStatus(Rows(), ItemRunning);
      var todo := set id | id in cut :: items[id].batch;
      BatchesOfMeaning(Rows(), cut);
      items := map id | id in items ::
        if id in cut then items[id].(status := ItemInterrupted, error := INTERRUPTED_TEXT) else items[id];
      RestampMeaning(old(Rows()), cut, ItemInterrupted, false, INTERRUPTED_TEXT);
      ghost var rows, all := Rows(), todo;
      assert rows == Restamp(old(Rows()), cut, ItemInterrupted, false, INTERRUPTED_TEXT);
      RefreshNone(rows);
      assert all - todo == {};
      while todo != {}
        invariant todo <= all && Rows() == RefreshAll(rows, all - todo)
        decreases |todo|
      {
        var b :| b in todo;
        RefreshOneMore(rows, all - todo, b);
        assert all - (todo - {b}) == (all - todo) + {b};
        RefreshStatus(b, false);
        todo := todo - {b};
      }
      assert all - todo == all;
      err, n := None, |cut|;
    }

    method Delete(b: nat) returns (err: Option<StoreError>)
      modifies this
      ensures Committed(old(Rows()), BatchTables.Delete(old(Rows()), b), true, err, Rows())
    {
      if b !in batches {
        return Some(ErrNotFound);
      }
      var live := set id | id in items && items[id].batch == b
        && (items[id].status == ItemPending || items[id].status == ItemRunning);
      assert live == ItemsOf(Rows(), b) * (WithStatus(Rows(), ItemPending) + WithStatus(Rows(), ItemRunning));
      if batches[b].status == StatusQueued || batches[b].status == StatusRunning || |live| > 0 {
        return Some(ErrRunning);
      }
      batches := batches - {b};
      items := items - set id | id in items && items[id].batch == b;
      err := None;
    }

    /** The rows in the order they are found; no result of `harvest` depends on it. */
    method RunningItems() returns (ids: seq<nat>)
      ensures Listing(ids, WithStatus(Rows(), ItemRunning))
    {
      ids := [];
      var left := set id | id in items && items[id].status == ItemRunning;
      while left != {}
        invariant left <= WithStatus(Rows(), ItemRunning)
        invariant Listing(ids, WithStatus(Rows(), ItemRunning) - left)
        decreases |left|
      {
        var id :| id in left;
        left := left - {id};
        ids := ids + [id];
      }
    }

    method NextPending() returns (next: Option<nat>)
      ensures next.Some? ==> IsNext(Rows(), next.value)
      ensures next.None? ==> forall id :: !Eligible(Rows(), id)
    {
      next := None;
      var left := items.Keys;
      while left != {}
        invariant left <= items.Keys
        invariant next.None? ==> forall id | id !in left :: !Eligible(Rows(), id)
        invariant next.Some? ==> Eligible(Rows(), next.value)
        invariant next.Some? ==> forall id | id !in left && Eligible(Rows(), id) :: NoLater(Rows(), next.value, id)
        decreases |left|
      {
        var id :| id in left;
        left := left - {id};
        if items[id].status == ItemPending && items[id].batch in batches {
          var b := batches[items[id].batch];
          if b.status == StatusQueued || b.status == StatusRunning {
            if next.None? {
              next := Some(id);
            } else {
              var best := batches[items[next.value].batch];
              if b.createdAt < best.createdAt
                || (b.createdAt == best.createdAt && items[id].position < items[next.value].position) {
                next := Some(id);
              }
            }
          }
        }
      }
    }
  }

  lemma RestampMeaning(t: Tables, ids: set<nat>, status: ItemStatus, keepError: bool, error: string)
    ensures Restamp(t, ids, status, keepError, error).batches == t.batches
    ensures Restamp(t, ids, status, keepError, error).items == map id | id in t.items ::
      if id in ids then t.items[id].(status := status, error := if keepError then t.items[id].error else error)
      else t.items[id]
  {
  }

  lemma BatchesOfMeaning(t: Tables, ids: set<nat>)
    requires ids <= t.items.Keys
    ensures BatchesOf(t, ids) == set id | id in ids :: t.items[id].batch
  {
  }

  lemma RefreshNone(t: Tables)
    ensures RefreshAll(t, {}) == t
  {
  }

  /** Refreshing batch after batch is refreshing them all: the status of one says nothing about another. */
  lemma RefreshOneMore(t: Tables, done: set<nat>, b: nat)
    ensures Refresh(RefreshAll(t, done), b, false) == RefreshAll(t, done + {b})
  {
    hide Derived;
    SameItemsSameStatus(t, RefreshAll(t, done), b);
  }
}
