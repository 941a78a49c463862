/**
 What holds over every history of the batch queue: any interleaving of scheduler steps with requests,
 failed writes, crashes and restarts.
 */
module BatchRuns {
  import opened Counting
  import opened Wrappers
  import opened BatchTables
  import opened BatchQueue

  // ----- every step keeps the invariant

  /** Status changes made by the scheduler leave batches, their stamps and their cancellations alone. */
  ghost predicate SameBatches(t: Tables, t': Tables) {
    && t'.batches.Keys == t.batches.Keys
    && forall b | b in t.batches ::
      t'.batches[b].createdAt == t.batches[b].createdAt
      && (t'.batches[b].status == StatusCancelled <==> t.batches[b].status == StatusCancelled)
  }

  lemma SetItemEffect(t: Tables, id: nat, item: Item)
    requires id in t.items && item.batch == t.items[id].batch
    ensures SetItem(t, id, item).items == t.items[id := item]
    ensures SameBatches(t, SetItem(t, id, item))
    ensures WithStatus(SetItem(t, id, item), ItemRunning)
      == if item.status == ItemRunning then WithStatus(t, ItemRunning) + {id} else WithStatus(t, ItemRunning) - {id}
  {
  }

  lemma SizeWithout(s: set<nat>, id: nat)
    requires id in s
    ensures |s - {id}| == |s| - 1
  {
  }

  lemma SizeWith(s: set<nat>, id: nat)
    ensures |s + {id}| <= |s| + 1
  {
    if id in s {
      assert s + {id} == s;
    }
  }

  /** Requests touch no running item. */
  lemma RequestsLeaveRunningAlone(s: Sys, a: Action)
    requires IsRequest(a) && Numbered(s)
    ensures ServeRequest(s, a).pc == s.pc && Running(ServeRequest(s, a)) == Running(s)
    ensures s.nextItem <= ServeRequest(s, a).nextItem && ServeRequest(s, a).before == s.before
    ensures ServeRequest(s, a).top == s.top && ServeRequest(s, a).lost == s.lost
    ensures forall id | Holds(s, id) :: Holds(ServeRequest(s, a), id) && ServeRequest(s, a).db.items[id] == s.db.items[id]
  {
    var s' := ServeRequest(s, a);
    forall id | Holds(s, id) ensures id in s'.db.items && s'.db.items[id] == s.db.items[id] {
      if a.AskDelete? && id in ItemsOf(s.db, a.b) {
        assert id in ItemsOf(s.db, a.b) * (WithStatus(s.db, ItemPending) + WithStatus(s.db, ItemRunning));
      }
    }
  }

  lemma RequestsKeepConsistent(s: Sys, a: Action)
    requires IsRequest(a) && Consistent(s.db) && Numbered(s)
    ensures Consistent(ServeRequest(s, a).db)
  {
    hide Consistent, Create, Cancel, Resume, Delete;
    match a
    case AskCreate(w, task, ps, now) =>
      if Create(s.db, s.nextBatch, s.nextItem, w, task, ps, now).Ok? {
        CreateConsistent(s.db, s.nextBatch, s.nextItem, w, task, ps, now);
      }
    case AskCancel(b) => if Cancel(s.db, b).Ok? { CancelConsistent(s.db, b); }
    case AskResume(b) => if Resume(s.db, b).Ok? { ResumeConsistent(s.db, b); }
    case AskDelete(b) => if Delete(s.db, b).Ok? { DeleteConsistent(s.db, b); }
  }

  lemma RequestsKeepNumbered(s: Sys, a: Action)
    requires IsRequest(a) && Numbered(s) && Enabled(s, a)
    ensures Numbered(ServeRequest(s, a))
  {
    hide Derived;
  }

  /** A request that leaves a pending item pending leaves its batch uncancelled. */
  lemma RequestsKeepPick(s: Sys, a: Action)
    requires IsRequest(a) && Consistent(s.db) && Numbered(s) && PickIsLive(s)
    requires Counted(s)
    ensures PickIsLive(ServeRequest(s, a))
  {
    hide Derived, Running;
    if s.pc.Picked? && s.pc.id in s.db.items {
      assert s.db.items[s.pc.id].batch < s.nextBatch;
    }
    hide Consistent, Numbered;
  }

  lemma RequestKeepsInv(s: Sys, a: Action)
    requires Inv(s) && Enabled(s, a) && IsRequest(a)
    ensures Inv(Apply(s, a))
  {
    hide Consistent, Numbered, Create, Cancel, Resume, Delete;
    RequestsLeaveRunningAlone(s, a);
    RequestsKeepConsistent(s, a);
    RequestsKeepNumbered(s, a);
    RequestsKeepPick(s, a);
  }

  lemma ClaimKeepsInv(s: Sys, a: Action)
    requires Inv(s) && Enabled(s, a) && a.ClaimItem?
    ensures Inv(Apply(s, a))
  {
    hide Consistent, SetItem;
    var id := s.pc.id;
    var r := BatchTables.Claim(s.db, id);
    if a.wrote && r.Ok? {
      var item := s.db.items[id].(status := ItemRunning, run := None, error := "");
      SetItemConsistent(s.db, id, item);
      SetItemEffect(s.db, id, item);
      SizeWith(Running(s), id);
    }
  }

  lemma SettleEffect(s: Sys, id: nat, item: Item)
    requires Inv(s) && Holds(s, id) && item.batch == s.db.items[id].batch && item.status != ItemRunning
    ensures var db' := SetItem(s.db, id, item);
      && Consistent(db') && SameBatches(s.db, db') && db'.items == s.db.items[id := item]
      && WithStatus(db', ItemRunning) == Running(s) - {id} && |WithStatus(db', ItemRunning)| == |Running(s)| - 1
  {
    SetItemConsistent(s.db, id, item);
    SetItemEffect(s.db, id, item);
    SizeWithout(Running(s), id);
  }

  /** One item less to look at: it is counted, or it runs no longer, or its requeue was lost. */
  lemma CountedStays(s: Sys, s': Sys)
    requires Inv(s) && s.pc.Harvesting? && s.pc.todo != []
    requires s'.pc.Harvesting? && s'.pc.todo == s.pc.todo[1..] && s'.top == s.top
    requires forall id | Holds(s, id) && id != s.pc.todo[0].0 :: Holds(s', id)
    requires |Running(s')| <= |Running(s)|
    requires |Running(s')| - s'.pc.running - s'.lost == |Running(s)| - s.pc.running - s.lost - 1
    ensures Counted(s')
  {
    forall i | 0 <= i < |s'.pc.todo| ensures Holds(s', s'.pc.todo[i].0) {
      assert Holds(s, s.pc.todo[i + 1].0);
    }
  }

  lemma GatherEffect(s: Sys, a: Action)
    requires Inv(s) && Enabled(s, a) && a.Gather?
    ensures var s' := Apply(s, a);
      && Consistent(s'.db) && Numbered(s') && s'.pc.Harvesting? && s'.pc.todo == s.pc.todo[1..]
      && (forall id | Holds(s, id) && id != s.pc.todo[0].0 :: Holds(s', id))
      && |Running(s')| <= |Running(s)| && s'.before == s.before && s'.top == s.top && s.lost <= s'.lost
      && |Running(s')| - s'.pc.running - s'.lost == |Running(s)| - s.pc.running - s.lost - 1
  {
    hide Consistent, SetItem, Judge;
    var id := s.pc.todo[0].0;
    assert Holds(s, id);
    SettleEffect(s, id, s.db.items[id].(status := ItemPending, run := None, error := ""));
    match Judge(a.row) {
      case Over(status, error) =>
        JudgedIsOver(a.row);
        SettleEffect(s, id, s.db.items[id].(status := status, error := error));
      case _ =>
    }
  }

  lemma GatherKeepsInv(s: Sys, a: Action)
    requires Inv(s) && Enabled(s, a) && a.Gather?
    ensures Inv(Apply(s, a))
  {
    hide Consistent, Numbered, Apply, Running, Counted;
    GatherEffect(s, a);
    CountedStays(s, Apply(s, a));
  }

  lemma JudgedIsOver(row: Option<RunRow>)
    requires Judge(row).Over?
    ensures Judge(row).status != ItemRunning && Judge(row).status != ItemPending
  {
  }

  lemma AnswerKeepsInv(s: Sys, a: Action)
    requires Inv(s) && Enabled(s, a) && (a.CallStart? || a.Bind?)
    ensures Inv(Apply(s, a))
  {
    hide Consistent, SetItem;
    if a.Bind? {
      AttachEffect(s, s.pc.id, s.pc.run);
    }
  }

  lemma PutBackKeepsInv(s: Sys, a: Action)
    requires Inv(s) && Enabled(s, a) && a.PutBack?
    ensures Inv(Apply(s, a))
  {
    hide Consistent, SetItem;
    SettleEffect(s, s.pc.id, s.db.items[s.pc.id].(status := ItemPending, run := None, error := ""));
  }

  lemma RecordFailureKeepsInv(s: Sys, a: Action)
    requires Inv(s) && Enabled(s, a) && a.RecordFailure?
    ensures Inv(Apply(s, a))
  {
    hide Consistent, SetItem;
    SettleEffect(s, s.pc.id, s.db.items[s.pc.id].(status := ItemFailed, error := s.pc.error));
  }

  lemma AttachEffect(s: Sys, id: nat, run: nat)
    requires Inv(s) && Holds(s, id)
    ensures var r := Attach(s.db, id, run);
      && r.Ok? && Consistent(r.value) && SameBatches(s.db, r.value)
      && r.value.items.Keys == s.db.items.Keys && r.value.items[id].status == ItemRunning
      && WithStatus(r.value, ItemRunning) == Running(s)
  {
    var t' := Attach(s.db, id, run).value;
    forall b | b in t'.batches
      ensures t'.batches[b].status == StatusCancelled || t'.batches[b].status == Derived(t', b)
    {
      SameItemsSameStatus(s.db, t', b);
    }
  }

  lemma PickKeepsInv(s: Sys, a: Action)
    requires Inv(s) && Enabled(s, a) && (a.Pick? || a.StopLaunch? || a.EndHarvest? || a.Crash?)
    ensures Inv(Apply(s, a))
  {
    if a.Pick? {
      EligibleMeaning(s.db, a.id);
    }
  }

  lemma TickKeepsInv(s: Sys, a: Action)
    requires Inv(s) && Enabled(s, a) && (a.BeginTick? || a.Restart?)
    ensures Inv(Apply(s, a))
  {
    hide Consistent, RefreshAll;
    match a {
      case BeginTick(order) =>
        ListingSize(order, Running(s));
        forall i | 0 <= i < |order| ensures Holds(s, order[i]) {
          assert order[i] in order;
        }
        assert Counted(Apply(s, a));
      case Restart(wrote) =>
        InterruptConsistent(s.db);
        InterruptEffect(s.db);
    }
  }

  lemma InterruptEffect(t: Tables)
    ensures var t' := InterruptRunning(t).0;
      && SameBatches(t, t') && t'.items.Keys == t.items.Keys
      && (forall id | id in t.items ::
           t'.items[id].batch == t.items[id].batch && t'.items[id].position == t.items[id].position)
      && (forall id | id in t.items ::
           t'.items[id].status == if t.items[id].status == ItemRunning then ItemInterrupted else t.items[id].status)
  {
  }

  lemma {:induction false} ListingSize(ids: seq<nat>, all: set<nat>)
    requires Listing(ids, all)
    ensures |ids| == |all|
  {
    if ids == [] {
      assert all == {};
    } else {
      var last := ids[|ids| - 1];
      assert forall id | id in all - {last} :: id in ids[..|ids| - 1];
      ListingSize(ids[..|ids| - 1], all - {last});
    }
  }

  lemma StepKeepsInv(s: Sys, a: Action)
    requires Inv(s) && Enabled(s, a)
    ensures Inv(Apply(s, a))
  {
    hide Inv, Apply;
    match a
    case AskCreate(_, _, _, _) => RequestKeepsInv(s, a);
    case AskCancel(_) => RequestKeepsInv(s, a);
    case AskResume(_) => RequestKeepsInv(s, a);
    case AskDelete(_) => RequestKeepsInv(s, a);
    case Gather(_, _) => GatherKeepsInv(s, a);
    case ClaimItem(_) => ClaimKeepsInv(s, a);
    case CallStart(_) => AnswerKeepsInv(s, a);
    case Bind(_) => AnswerKeepsInv(s, a);
    case PutBack(_) => PutBackKeepsInv(s, a);
    case RecordFailure(_) => RecordFailureKeepsInv(s, a);
    case BeginTick(_) => TickKeepsInv(s, a);
    case Restart(_) => TickKeepsInv(s, a);
    case _ => PickKeepsInv(s, a);
  }

  lemma {:induction false} HistoryKeepsInv(h: History, i: nat)
    requires IsHistory(h) && i < |h.states|
    ensures Inv(h.states[i])
  {
    if i == 0 {
      assert Running(EMPTY) == {};
    } else {
      HistoryKeepsInv(h, i - 1);
      assert Enabled(h.states[i - 1], h.acts[i - 1]);
      StepKeepsInv(h.states[i - 1], h.acts[i - 1]);
    }
  }

  // ----- histories that grow

  function Last(h: History): Sys
    requires h.states != []
  {
    h.states[|h.states| - 1]
  }

  ghost predicate Extends(h: History, h': History) {
    h.states <= h'.states && h.acts <= h'.acts
  }

  function Push(h: History, a: Action, s: Sys): History {
    History(h.states + [s], h.acts + [a])
  }

  lemma PushIsHistory(h: History, a: Action)
    requires IsHistory(h) && Enabled(Last(h), a)
    ensures IsHistory(Push(h, a, Apply(Last(h), a)))
  {
    hide Enabled, Apply;
  }

  lemma LastKeepsInv(h: History)
    requires IsHistory(h)
    ensures Inv(Last(h))
  {
    HistoryKeepsInv(h, |h.states| - 1);
  }

  // ----- what stays true between two points of a history

  /** What no step but an `opens` one can end holds until there is such a step. */
  lemma {:induction false} Persists(h: History, i: nat, j: nat, p: Sys -> bool, opens: (Sys, Action) -> bool)
    requires IsHistory(h) && i <= j < |h.states| && p(h.states[i])
    requires forall s, a | Inv(s) && Enabled(s, a) && p(s) && !opens(s, a) :: p(Apply(s, a))
    requires forall k | i <= k < j :: !opens(h.states[k], h.acts[k])
    ensures p(h.states[j])
  {
    hide Inv, Enabled, Apply;
    if i < j {
      Persists(h, i, j - 1, p, opens);
      HistoryKeepsInv(h, j - 1);
      assert !opens(h.states[j - 1], h.acts[j - 1]);
      assert Enabled(h.states[j - 1], h.acts[j - 1]);
    }
  }

  ghost predicate Happens(h: History, i: nat, j: nat, opens: (Sys, Action) -> bool) {
    exists k | i <= k < j <= |h.acts| && j < |h.states| :: opens(h.states[k], h.acts[k])
  }

  // ----- at most one start

  /** A written requeue of the item, or a resume that revives it. */
  predicate Reopens(s: Sys, a: Action, id: nat) {
    match a
    case Gather(row, wrote) =>
      && s.pc.Harvesting? && s.pc.todo != [] && s.pc.todo[0].0 == id && s.pc.todo[0].1.Some?
      && Judge(row).OutOfSlots? && wrote
    case PutBack(wrote) => s.pc.PuttingBack? && s.pc.id == id && wrote
    case AskResume(b) => b in s.db.batches && id in InterruptedOf(s.db, b)
    case _ => false
  }

  /** An existing or deleted item that nobody can claim. */
  predicate NotPending(s: Sys, id: nat) {
    id < s.nextItem && (id in s.db.items ==> s.db.items[id].status != ItemPending)
  }

  predicate Spent(s: Sys, id: nat) {
    NotPending(s, id) && !(s.pc.Claimed? && s.pc.id == id)
  }

  lemma NotPendingStays(s: Sys, a: Action, id: nat)
    requires Enabled(s, a) && NotPending(s, id) && !Reopens(s, a, id)
    ensures NotPending(Apply(s, a), id)
  {
    hide Derived;
  }

  lemma SpentStays(s: Sys, a: Action, id: nat)
    requires Enabled(s, a) && Spent(s, id) && !Reopens(s, a, id)
    ensures Spent(Apply(s, a), id)
  {
    hide Reopens;
    NotPendingStays(s, a, id);
  }

  ghost predicate StartsAt(h: History, i: nat, id: nat) {
    i < |h.acts| && i < |h.states| && h.acts[i].CallStart? && h.states[i].pc.Claimed? && h.states[i].pc.id == id
  }

  /** What is spent is not started before it is reopened. */
  lemma SpentWaits(h: History, i: nat, j: nat, id: nat)
    requires IsHistory(h) && i <= j && i < |h.states| && Spent(h.states[i], id) && StartsAt(h, j, id)
    ensures Happens(h, i, j, (s, a) => Reopens(s, a, id))
  {
    hide Inv, Reopens;
    if !Happens(h, i, j, (s, a) => Reopens(s, a, id)) {
      forall s, a | Inv(s) && Enabled(s, a) && Spent(s, id) && !Reopens(s, a, id) ensures Spent(Apply(s, a), id) {
        SpentStays(s, a, id);
      }
      Persists(h, i, j, s => Spent(s, id), (s, a) => Reopens(s, a, id));
    }
  }

  /** An item is handed to the starter at most once between two operations that reopen it. */
  lemma StartsAreSeparated(h: History, i: nat, j: nat, id: nat)
    requires IsHistory(h) && i < j && StartsAt(h, i, id) && StartsAt(h, j, id)
    ensures Happens(h, i + 1, j, (s, a) => Reopens(s, a, id))
  {
    hide Inv, Reopens;
    HistoryKeepsInv(h, i);
    StartSpends(h.states[i], h.acts[i]);
    SpentWaits(h, i + 1, j, id);
  }

  lemma StartSpends(s: Sys, a: Action)
    requires Inv(s) && Enabled(s, a) && a.CallStart?
    ensures Spent(Apply(s, a), s.pc.id)
  {
  }

  // ----- crashes

  predicate Interrupted(s: Sys, id: nat) {
    id in s.db.items && s.db.items[id].status == ItemInterrupted
  }

  /** Interrupted, or gone with its batch. */
  predicate Shelved(s: Sys, id: nat) {
    id < s.nextItem && (id in s.db.items ==> s.db.items[id].status == ItemInterrupted)
  }

  predicate Revives(s: Sys, a: Action, id: nat) {
    a.AskResume? && a.b in s.db.batches && id in InterruptedOf(s.db, a.b)
  }

  lemma ShelvedStays(s: Sys, a: Action, id: nat)
    requires Counted(s) && Enabled(s, a) && Shelved(s, id) && !Revives(s, a, id)
    ensures Shelved(Apply(s, a), id)
  {
    hide Derived;
    if a.Gather? {
      assert Holds(s, s.pc.todo[0].0);
    }
  }

  /** An interrupted item waits for a resume, whatever else happens. */
  lemma InterruptedWaits(h: History, i: nat, j: nat, id: nat)
    requires IsHistory(h) && i < j && i < |h.states| && Interrupted(h.states[i], id) && StartsAt(h, j, id)
    ensures Happens(h, i, j, (s, a) => Revives(s, a, id))
  {
    hide Inv, Revives;
    HistoryKeepsInv(h, i);
    InvFacts(h.states[i]);
    if !Happens(h, i, j, (s, a) => Revives(s, a, id)) {
      forall s, a | Inv(s) && Enabled(s, a) && Shelved(s, id) && !Revives(s, a, id) ensures Shelved(Apply(s, a), id) {
        InvFacts(s);
        ShelvedStays(s, a, id);
      }
      Persists(h, i, j, s => Shelved(s, id), (s, a) => Revives(s, a, id));
      HistoryKeepsInv(h, j);
      InvFacts(h.states[j]);
    }
  }

  /** What the invariant says, by name. */
  lemma InvFacts(s: Sys)
    requires Inv(s)
    ensures Consistent(s.db) && Numbered(s) && Counted(s)
    ensures |Running(s)| <= Max(s.before, s.top + s.lost)
    ensures HoldsClaim(s.pc) ==> Holds(s, s.pc.id)
  {
  }

  lemma CrashSpends(s: Sys, id: nat)
    requires Inv(s) && Enabled(s, Crash) && Holds(s, id)
    ensures Spent(Apply(s, Crash), id)
  {
  }

  /**
   Whatever was under way at a crash is started again only after an operation that reopens it, also where the
   restart could not note the interruption and the server went on. Once it was noted only a resume does.
   */
  lemma WorkCutByACrashWaits(h: History, i: nat, j: nat, id: nat)
    requires IsHistory(h) && i < j && StartsAt(h, j, id)
    requires h.acts[i] == Crash && Holds(h.states[i], id)
    ensures i + 2 <= j && h.acts[i + 1].Restart? && Happens(h, i + 1, j, (s, a) => Reopens(s, a, id))
    ensures h.acts[i + 1].wrote ==>
      Interrupted(h.states[i + 2], id) && Happens(h, i + 2, j, (s, a) => Revives(s, a, id))
  {
    hide Inv, Revives, RefreshAll, Reopens;
    assert Enabled(h.states[i], h.acts[i]) && h.states[i + 1] == Apply(h.states[i], h.acts[i]);
    assert Enabled(h.states[i + 1], h.acts[i + 1]) && h.states[i + 2] == Apply(h.states[i + 1], h.acts[i + 1]);
    HistoryKeepsInv(h, i);
    CrashSpends(h.states[i], id);
    SpentWaits(h, i + 1, j, id);
    if h.acts[i + 1].wrote {
      InterruptEffect(h.states[i + 1].db);
      assert Interrupted(h.states[i + 2], id);
      InterruptedWaits(h, i + 2, j, id);
    }
  }

  // ----- cancelled batches

  /** A batch leaves `cancelled` only by a resume that revives at least one of its items. */
  lemma OnlyResumeRevives(s: Sys, a: Action, b: nat)
    requires Numbered(s) && Enabled(s, a) && BatchCancelled(s.db, b)
    requires b in Apply(s, a).db.batches && !BatchCancelled(Apply(s, a).db, b)
    ensures a == AskResume(b) && InterruptedOf(s.db, b) != {}
  {
    hide Derived;
    if a.Restart? {
      InterruptEffect(s.db);
    }
  }

  predicate ClaimedIn(s: Sys, b: nat) {
    s.pc.Claimed? && s.pc.id in s.db.items && s.db.items[s.pc.id].batch == b
  }

  /** Cancelled or deleted, with no claim waiting for its start. */
  predicate Dormant(s: Sys, b: nat) {
    b < s.nextBatch && (b in s.db.batches ==> BatchCancelled(s.db, b)) && !ClaimedIn(s, b)
  }

  predicate TakesUp(s: Sys, a: Action, b: nat) {
    a == AskResume(b) && InterruptedOf(s.db, b) != {}
  }

  lemma DormantStays(s: Sys, a: Action, b: nat)
    requires Inv(s) && Enabled(s, a) && Dormant(s, b) && !TakesUp(s, a, b)
    ensures Dormant(Apply(s, a), b)
  {
    hide Inv, Apply, ClaimedIn, BatchCancelled, Consistent, Counted;
    InvFacts(s);
    ClaimedInStays(s, a, b);
    ClockGoesOn(s, a);
    if b in Apply(s, a).db.batches && b !in s.db.batches {
      BatchesAreNew(s, a, b);
    }
    if b in s.db.batches && b in Apply(s, a).db.batches && !BatchCancelled(Apply(s, a).db, b) {
      OnlyResumeRevives(s, a, b);
    }
  }

  lemma BatchesAreNew(s: Sys, a: Action, b: nat)
    requires Enabled(s, a) && b in Apply(s, a).db.batches && b !in s.db.batches
    ensures b >= s.nextBatch
  {
    hide Derived;
  }

  lemma ClaimedInStays(s: Sys, a: Action, b: nat)
    requires Inv(s) && Enabled(s, a) && !ClaimedIn(s, b) && b < s.nextBatch
    requires b in s.db.batches ==> BatchCancelled(s.db, b)
    ensures !ClaimedIn(Apply(s, a), b)
  {
    hide Derived, Create, Resume, Cancel, Delete, Requeue, MarkFinished, InterruptRunning;
    if IsRequest(a) {
      RequestsLeaveRunningAlone(s, a);
    }
  }

  /** From a cancel on, no item of the batch is started until a resume revives some, but for one already claimed. */
  lemma CancelledBatchStartsNothing(h: History, i: nat, j: nat, id: nat, b: nat)
    requires IsHistory(h) && i < |h.states| && i <= j && BatchCancelled(h.states[i].db, b) && !ClaimedIn(h.states[i], b)
    requires StartsAt(h, j, id) && id in h.states[j].db.items && h.states[j].db.items[id].batch == b
    ensures Happens(h, i, j, (s, a) => TakesUp(s, a, b))
  {
    hide Inv, TakesUp;
    HistoryKeepsInv(h, i);
    InvFacts(h.states[i]);
    if !Happens(h, i, j, (s, a) => TakesUp(s, a, b)) {
      forall s, a | Inv(s) && Enabled(s, a) && Dormant(s, b) && !TakesUp(s, a, b) ensures Dormant(Apply(s, a), b) {
        DormantStays(s, a, b);
      }
      Persists(h, i, j, s => Dormant(s, b), (s, a) => TakesUp(s, a, b));
    }
  }

  /** An item of the batch is started at `j`, and from `i` on nothing has taken the batch up. */
  ghost predicate StartsUnrevived(h: History, i: nat, j: nat, id: nat, b: nat) {
    && i <= j && StartsAt(h, j, id) && |h.states| > j
    && id in h.states[j].db.items && h.states[j].db.items[id].batch == b
    && !Happens(h, i, j, (s, a) => TakesUp(s, a, b))
  }

  /** The history goes on to a start of an item of the batch, and nothing takes the batch up before. */
  ghost predicate LeadsToStart(h: History, h': History, b: nat)
    requires h.states != []
  {
    && IsHistory(h') && Extends(h, h')
    && exists j, id :: StartsUnrevived(h', |h.acts|, j, id, b)
  }

  /** From a cancelled batch something can still be started, without a resume, exactly if an item of it is claimed. */
  lemma CancelledBatchStartsIffClaimed(h: History, b: nat)
    requires IsHistory(h) && BatchCancelled(Last(h).db, b)
    ensures (exists h' :: LeadsToStart(h, h', b)) <==> ClaimedIn(Last(h), b)
  {
    hide TakesUp;
    var n := |h.acts|;
    if ClaimedIn(Last(h), b) {
      var h' := OneMoreStep(h, CallStart(Started(0)));
      assert h'.states[n] == Last(h) && h'.acts[n] == CallStart(Started(0));
      assert StartsUnrevived(h', n, n, Last(h).pc.id, b);
      assert LeadsToStart(h, h', b);
    } else if h' :| LeadsToStart(h, h', b) {
      var j, id :| StartsUnrevived(h', n, j, id, b);
      assert h'.states[n] == Last(h);
      CancelledBatchStartsNothing(h', n, j, id, b);
    }
  }

  /** An item of a batch that is pending after the cancel was put back since. */
  lemma PendingAfterCancelWasReopened(h: History, i: nat, j: nat, id: nat)
    requires IsHistory(h) && i < j < |h.states| && h.acts[i].AskCancel? && id in h.states[i].db.items
    requires h.states[i].db.items[id].batch == h.acts[i].b
    requires id in h.states[j].db.items && h.states[j].db.items[id].status == ItemPending
    ensures Happens(h, i + 1, j, (s, a) => Reopens(s, a, id))
  {
    hide Inv, Reopens;
    HistoryKeepsInv(h, i);
    CancelDropsPending(h.states[i], h.acts[i], id);
    if !Happens(h, i + 1, j, (s, a) => Reopens(s, a, id)) {
      forall s, a | Inv(s) && Enabled(s, a) && NotPending(s, id) && !Reopens(s, a, id)
        ensures NotPending(Apply(s, a), id)
      {
        NotPendingStays(s, a, id);
      }
      Persists(h, i + 1, j, s => NotPending(s, id), (s, a) => Reopens(s, a, id));
    }
  }

  lemma CancelDropsPending(s: Sys, a: Action, id: nat)
    requires Inv(s) && Enabled(s, a) && a.AskCancel? && id in s.db.items && s.db.items[id].batch == a.b
    ensures NotPending(Apply(s, a), id)
  {
  }

  /** So a cancelled batch can come to hold a pending item: one whose start met the limit after the cancel. */
  lemma RequeueAfterCancelLeavesPending(s: Sys)
    requires Inv(s) && s.pc.PuttingBack? && BatchCancelled(s.db, s.db.items[s.pc.id].batch)
    ensures var s' := Apply(s, PutBack(true));
      && s'.db.items[s.pc.id].status == ItemPending && BatchCancelled(s'.db, s'.db.items[s.pc.id].batch)
      && !Eligible(s'.db, s.pc.id)
  {
  }

  lemma OneMoreStep(h: History, a: Action) returns (longer: History)
    requires IsHistory(h) && |h.states| == |h.acts| + 1 && Enabled(Last(h), a)
    ensures IsHistory(longer) && longer == Push(h, a, Apply(Last(h), a))
    ensures |longer.states| == |longer.acts| + 1 && Last(longer) == Apply(Last(h), a)
  {
    PushIsHistory(h, a);
    longer := Push(h, a, Apply(Last(h), a));
  }

  /** One batch with one item in the given statuses. */
  ghost predicate Single(s: Sys, item: ItemStatus, batch: BatchStatus) {
    && s.db.items.Keys == {0} && s.db.items[0].batch == 0 && s.db.items[0].status == item
    && s.db.batches.Keys == {0} && s.db.batches[0].status == batch
  }

  lemma FirstBatch() returns (h: History)
    ensures IsHistory(h) && |h.states| == |h.acts| + 1 && h.states[|h.acts|].pc == Idle
    ensures Single(h.states[|h.acts|], ItemPending, StatusQueued)
  {
    var empty := EMPTY;
    h := History([empty], []);
    assert InterruptRunning(empty.db).0 == empty.db;
    h := OneMoreStep(h, Restart(true));
    h := OneMoreStep(h, AskCreate(0, "", [0], 0));
  }

  lemma FirstPick() returns (h: History)
    ensures IsHistory(h) && |h.states| == |h.acts| + 1
    ensures h.states[|h.acts|].pc == Picked(0, 0) && Single(h.states[|h.acts|], ItemPending, StatusQueued)
  {
    hide IsHistory, Derived;
    h := FirstBatch();
    assert Running(h.states[|h.acts|]) == {};
    h := OneMoreStep(h, BeginTick([]));
    h := OneMoreStep(h, EndHarvest);
    var s := h.states[|h.acts|];
    assert Eligible(s.db, 0) && IsNext(s.db, 0);
    h := OneMoreStep(h, Pick(0, 1, 0));
  }

  lemma FirstClaim() returns (h: History)
    ensures IsHistory(h) && |h.states| == |h.acts| + 1
    ensures h.states[|h.acts|].pc == Claimed(0, 0) && Single(h.states[|h.acts|], ItemRunning, StatusRunning)
  {
    hide IsHistory;
    h := FirstPick();
    h := OneMoreStep(h, ClaimItem(true));
    var t := h.states[|h.acts|];
    assert 0 in ItemsOf(t.db, 0) * WithStatus(t.db, ItemRunning);
  }

  /** The history in which it comes to that: cancelled between the claim and a start that meets the limit. */
  lemma CancelledBatchCanHoldAPendingItem() returns (h: History)
    ensures IsHistory(h) && Single(h.states[|h.acts|], ItemPending, StatusCancelled)
  {
    hide IsHistory, Derived;
    h := FirstClaim();
    h := OneMoreStep(h, AskCancel(0));
    assert Single(h.states[|h.acts|], ItemRunning, StatusCancelled);
    h := OneMoreStep(h, CallStart(NotStarted(true, "")));
    h := OneMoreStep(h, PutBack(true));
  }

  // ----- the order of the claims

  datatype Place = Place(createdAt: nat, batch: nat, position: nat)

  function PlaceOf(t: Tables, id: nat): Place
    requires id in t.items && t.items[id].batch in t.batches
  {
    Place(t.batches[t.items[id].batch].createdAt, t.items[id].batch, t.items[id].position)
  }

  /** Older batches first, and inside a batch by position; batches of the same instant come in any order. */
  predicate InOrder(p: Place, q: Place) {
    p.createdAt < q.createdAt || (p.createdAt == q.createdAt && (p.batch == q.batch ==> p.position <= q.position))
  }

  ghost predicate NothingEarlier(s: Sys, p: Place) {
    && p.createdAt <= s.clock && p.batch < s.nextBatch
    && forall id | Eligible(s.db, id) :: InOrder(p, PlaceOf(s.db, id))
  }

  predicate ReopensAny(s: Sys, a: Action) {
    match a
    case Gather(row, wrote) => Judge(row).OutOfSlots? && wrote
    case PutBack(wrote) => wrote
    case AskResume(b) => b in s.db.batches && InterruptedOf(s.db, b) != {}
    case _ => false
  }

  /** What a step does to the rows that say where an item stands in the queue. */
  ghost predicate KeepsPlaces(s: Sys, s': Sys, a: Action, id: nat) {
    && (id in s.db.items && id in s'.db.items ==>
         s'.db.items[id].batch == s.db.items[id].batch && s'.db.items[id].position == s.db.items[id].position)
    && (forall b | b in s.db.batches && b in s'.db.batches :: s'.db.batches[b].createdAt == s.db.batches[b].createdAt)
    && (id !in s.db.items && id in s'.db.items ==>
         a.AskCreate? && s'.db.items[id].batch == s.nextBatch && s.nextBatch in s'.db.batches
         && s'.db.batches[s.nextBatch].createdAt == a.now)
  }

  lemma RequestsKeepPlaces(s: Sys, a: Action, id: nat)
    requires Numbered(s) && Enabled(s, a) && IsRequest(a)
    ensures KeepsPlaces(s, ServeRequest(s, a), a, id)
  {
    hide Derived;
  }

  lemma RowsKeepTheirPlace(s: Sys, a: Action, id: nat)
    requires Numbered(s) && Enabled(s, a)
    ensures KeepsPlaces(s, Apply(s, a), a, id)
  {
    hide Derived, ServeRequest, Numbered, InterruptRunning;
    if IsRequest(a) {
      RequestsKeepPlaces(s, a, id);
    } else if a.Restart? {
      InterruptEffect(s.db);
    }
  }

  lemma EligibleWasEligible(s: Sys, a: Action, id: nat)
    requires Inv(s) && Enabled(s, a) && !ReopensAny(s, a) && Eligible(Apply(s, a).db, id)
    ensures id in s.db.items ==> Eligible(s.db, id) && PlaceOf(Apply(s, a).db, id) == PlaceOf(s.db, id)
    ensures id !in s.db.items ==>
      PlaceOf(Apply(s, a).db, id).createdAt >= s.clock && PlaceOf(Apply(s, a).db, id).batch >= s.nextBatch
  {
    hide Inv, Apply, Derived;
    InvFacts(s);
    RowsKeepTheirPlace(s, a, id);
    if id in s.db.items {
      var b := s.db.items[id].batch;
      if BatchCancelled(s.db, b) {
        OnlyResumeRevives(s, a, b);
      }
      InvFacts(s);
      if NotPending(s, id) {
        NotPendingStays(s, a, id);
      }
      EligibleMeaning(s.db, id);
    }
  }

  lemma NothingEarlierStays(s: Sys, a: Action, p: Place)
    requires Inv(s) && Enabled(s, a) && NothingEarlier(s, p) && !ReopensAny(s, a)
    ensures NothingEarlier(Apply(s, a), p)
  {
    hide Inv, ReopensAny, Apply;
    ClockGoesOn(s, a);
    forall id | Eligible(Apply(s, a).db, id) ensures InOrder(p, PlaceOf(Apply(s, a).db, id)) {
      EligibleWasEligible(s, a, id);
    }
  }

  lemma ClockGoesOn(s: Sys, a: Action)
    requires Enabled(s, a)
    ensures s.clock <= Apply(s, a).clock && s.nextBatch <= Apply(s, a).nextBatch
  {
  }

  predicate ClaimSucceeds(s: Sys, a: Action) {
    a == ClaimItem(true) && s.pc.Picked? && s.pc.id in s.db.items && s.db.items[s.pc.id].status == ItemPending
    && s.db.items[s.pc.id].batch in s.db.batches
  }

  /** From the choice of an item on, until something is put back, every claim is of an item that comes after it. */
  lemma ClaimsFollowTheOrder(h: History, i: nat, j: nat)
    requires IsHistory(h) && i < j < |h.acts| && h.acts[i].Pick? && ClaimSucceeds(h.states[j], h.acts[j])
    requires forall k | i < k < j :: !ReopensAny(h.states[k], h.acts[k])
    ensures var first := h.acts[i].id;
      && first in h.states[i].db.items && h.states[i].db.items[first].batch in h.states[i].db.batches
      && InOrder(PlaceOf(h.states[i].db, first), PlaceOf(h.states[j].db, h.states[j].pc.id))
  {
    hide Inv, ReopensAny;
    HistoryKeepsInv(h, i);
    HistoryKeepsInv(h, j);
    var p := PlaceOf(h.states[i].db, h.acts[i].id);
    PickIsFirst(h.states[i], h.acts[i]);
    forall s, a | Inv(s) && Enabled(s, a) && NothingEarlier(s, p) && !ReopensAny(s, a)
      ensures NothingEarlier(Apply(s, a), p)
    {
      NothingEarlierStays(s, a, p);
    }
    Persists(h, i + 1, j, s => NothingEarlier(s, p), ReopensAny);
    ClaimedIsEligible(h.states[j], h.acts[j]);
  }

  lemma PickIsFirst(s: Sys, a: Action)
    requires Inv(s) && Enabled(s, a) && a.Pick?
    ensures NothingEarlier(Apply(s, a), PlaceOf(s.db, a.id))
  {
  }

  lemma ClaimedIsEligible(s: Sys, a: Action)
    requires Inv(s) && ClaimSucceeds(s, a)
    ensures Eligible(s.db, s.pc.id)
  {
    EligibleMeaning(s.db, s.pc.id);
  }

  // ----- what a round of the launch loop uses up

  function PendingRows(t: Tables): set<nat> {
    WithStatus(t, ItemPending)
  }

  lemma ClaimLowersPending(t: Tables, id: nat)
    requires BatchTables.Claim(t, id).Ok?
    ensures PendingRows(BatchTables.Claim(t, id).value) == PendingRows(t) - {id}
    ensures |PendingRows(BatchTables.Claim(t, id).value)| < |PendingRows(t)|
  {
    var t' := BatchTables.Claim(t, id).value;
    assert id in PendingRows(t);
    assert PendingRows(t') == PendingRows(t) - {id};
  }

  lemma BindLeavesPending(s: Sys, wrote: bool)
    requires Inv(s) && s.pc.Binding?
    ensures PendingRows(Apply(s, Bind(wrote)).db) == PendingRows(s.db)
  {
  }

  lemma FailureLeavesPending(s: Sys, wrote: bool)
    requires Inv(s) && s.pc.Failing?
    ensures PendingRows(Apply(s, RecordFailure(wrote)).db) == PendingRows(s.db)
  {
  }
}
