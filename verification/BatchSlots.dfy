/**
 How many items run at once (backend/internal/runbatch/scheduler.go:158-254): the tick keeps within the limits
 it reads, and exactly when every requeue of its harvest is written.
 */
module BatchSlots {
  import opened Counting
  import opened Wrappers
  import opened BatchTables
  import opened BatchQueue
  import opened BatchRuns
  import Execution

  // ----- the words of the statement

  predicate NewTick(a: Action) {
    a.BeginTick? || a.Restart?
  }

  /** A run that found no slot, whose item `harvest` tries to put back and cannot. */
  predicate LosesRequeue(s: Sys, a: Action) {
    && a.Gather? && s.pc.Harvesting? && s.pc.todo != [] && s.pc.todo[0].1.Some?
    && Judge(a.row).OutOfSlots? && !a.wrote
  }

  function LimitRead(a: Action): int {
    match a
    case StopLaunch(limit, _, _) => limit
    case Pick(_, limit, _) => limit
    case _ => 0
  }

  /** The largest limit read after action `i` and before `j`; 0 if there is none. */
  function TopLimit(h: History, i: nat, j: nat): int
    requires j <= |h.acts|
    decreases j
  {
    if j <= i + 1 then 0 else Max(TopLimit(h, i, j - 1), LimitRead(h.acts[j - 1]))
  }

  ghost predicate InTick(h: History, i: nat, j: nat) {
    && IsHistory(h) && i < j < |h.states| && h.acts[i].BeginTick?
    && forall k | i < k < j :: !NewTick(h.acts[k])
  }

  ghost predicate NothingLost(h: History, i: nat, j: nat)
    requires j <= |h.acts| && j < |h.states|
  {
    forall k | i < k < j :: !LosesRequeue(h.states[k], h.acts[k])
  }

  /** No more run than when the tick began, or than the largest limit it has read. */
  ghost predicate BoundKept(h: History, i: nat, j: nat)
    requires i < |h.states| && j <= |h.acts| && j < |h.states|
  {
    |Running(h.states[j])| <= Max(|Running(h.states[i])|, TopLimit(h, i, j))
  }

  // ----- the book-keeping of the tick

  lemma LedgerStep(s: Sys, a: Action)
    requires Inv(s) && Enabled(s, a) && !NewTick(a)
    ensures Apply(s, a).before == s.before
    ensures Apply(s, a).top == if a.StopLaunch? || a.Pick? then Max(s.top, LimitRead(a)) else s.top
    ensures Apply(s, a).lost == if LosesRequeue(s, a) then s.lost + 1 else s.lost
  {
    hide Consistent, SetItem, Create, Cancel, Resume, Delete;
    if a.Gather? {
      assert Holds(s, s.pc.todo[0].0);
    }
  }

  lemma {:induction false} LedgerMeaning(h: History, i: nat, j: nat)
    requires InTick(h, i, j)
    ensures h.states[j].before == |Running(h.states[i])| && h.states[j].top == TopLimit(h, i, j) >= 0
    ensures h.states[j].lost == 0 <==> NothingLost(h, i, j)
    decreases j
  {
    hide Inv, Running, Consistent;
    if j == i + 1 {
      assert h.states[i + 1] == Apply(h.states[i], h.acts[i]);
    } else {
      LedgerMeaning(h, i, j - 1);
      HistoryKeepsInv(h, j - 1);
      assert Enabled(h.states[j - 1], h.acts[j - 1]) && h.states[j] == Apply(h.states[j - 1], h.acts[j - 1]);
      LedgerStep(h.states[j - 1], h.acts[j - 1]);
    }
  }

  /** The counter of `harvest` is exact but for the requeues that were lost; in `launch` it may only be too high. */
  lemma CounterMeaning(s: Sys)
    requires Inv(s)
    ensures s.pc.Harvesting? ==> |Running(s)| == s.pc.running + s.lost + |s.pc.todo|
    ensures s.pc.Launching? ==> |Running(s)| <= s.pc.running + s.lost
    ensures |Running(s)| <= Max(s.before, s.top + s.lost)
  {
  }

  /** All through a tick that loses no requeue the bound is kept. */
  lemma TickKeepsTheLimit(h: History, i: nat, j: nat)
    requires InTick(h, i, j) && NothingLost(h, i, j)
    ensures BoundKept(h, i, j)
  {
    HistoryKeepsInv(h, j);
    LedgerMeaning(h, i, j);
    CounterMeaning(h.states[j]);
  }

  // ----- overfilling after a lost requeue

  function EligibleSet(t: Tables): set<nat> {
    set id | id in t.items && Eligible(t, id)
  }

  lemma {:induction false} NextOf(t: Tables, ids: set<nat>) returns (next: nat)
    requires ids != {} && forall id | id in ids :: Eligible(t, id)
    ensures next in ids && Eligible(t, next) && forall id | id in ids :: Eligible(t, id) && NoLater(t, next, id)
    decreases |ids|
  {
    var x :| x in ids;
    if ids == {x} {
      next := x;
    } else {
      var other := NextOf(t, ids - {x});
      assert Eligible(t, x) && forall id | id in ids :: id == x || id in ids - {x};
      next := if NoLater(t, x, other) then x else other;
    }
  }

  lemma ClaimTakesOne(t: Tables, id: nat)
    requires Consistent(t) && Eligible(t, id)
    ensures var r := BatchTables.Claim(t, id);
      && r.Ok? && EligibleSet(r.value) == EligibleSet(t) - {id}
      && WithStatus(r.value, ItemRunning) == WithStatus(t, ItemRunning) + {id} && id !in WithStatus(t, ItemRunning)
  {
    hide Consistent, SetItem;
    var item := t.items[id].(status := ItemRunning, run := None, error := "");
    SetItemConsistent(t, id, item);
    SetItemEffect(t, id, item);
    var t' := SetItem(t, id, item);
    forall x | x in t.items ensures x in EligibleSet(t') <==> x in EligibleSet(t) - {id} {
      EligibleMeaning(t, x);
      EligibleMeaning(t', x);
      BatchOf(t, x);
    }
  }

  lemma BatchOf(t: Tables, id: nat)
    requires Consistent(t) && id in t.items
    ensures t.items[id].batch in t.batches
  {
  }

  lemma AttachChangesNoOrder(s: Sys, id: nat, run: nat)
    requires Inv(s) && Holds(s, id)
    ensures var r := Attach(s.db, id, run); r.Ok? && EligibleSet(r.value) == EligibleSet(s.db)
  {
  }

  /** Room for one more item, and one to take it. */
  ghost predicate Room(h: History, running: nat, ready: nat) {
    && IsHistory(h) && |h.states| == |h.acts| + 1 && Last(h).pc == Launching(running) && |EligibleSet(Last(h).db)| >= ready
  }

  /** What a stretch of launching leaves behind. */
  ghost predicate Launched(h: History, h': History, k: nat, limit: int)
    requires h.states != []
  {
    && h'.states != [] && Extends(h, h') && |h'.acts| >= |h.acts| && |h'.states| == |h'.acts| + 1
    && (forall n | |h.acts| <= n < |h'.acts| :: !NewTick(h'.acts[n]))
    && |Running(Last(h'))| == |Running(Last(h))| + k
    && Last(h').top == (if k == 0 then Last(h).top else Max(Last(h).top, limit))
    && Last(h').before == Last(h).before
  }

  /** The next item is picked. */
  lemma PickNext(h: History, running: nat, limit: int) returns (h': History)
    requires IsHistory(h) && |h.states| == |h.acts| + 1 && Last(h).pc == Launching(running)
    requires EligibleSet(Last(h).db) != {} && running < limit
    ensures IsHistory(h') && |h'.states| == |h'.acts| + 1
    ensures Last(h').pc.Picked? && Last(h').pc.running == running && Last(h').pc.id in EligibleSet(Last(h).db)
    ensures h'.acts == h.acts + [Pick(Last(h').pc.id, limit, 0)] && Extends(h, h') && Last(h').db == Last(h).db
    ensures Last(h').top == Max(Last(h).top, limit) && Last(h').before == Last(h).before
  {
    EligibleIsThere(Last(h).db);
    var id := NextOf(Last(h).db, EligibleSet(Last(h).db));
    NextIsNext(Last(h).db, id);
    hide IsHistory, EligibleSet, IsNext;
    h' := OneMoreStep(h, Pick(id, limit, 0));
  }

  lemma EligibleIsThere(t: Tables)
    ensures forall id | id in EligibleSet(t) :: Eligible(t, id)
  {
  }

  /** What is picked and eligible is claimed. */
  lemma ClaimPicked(h: History) returns (h': History)
    requires IsHistory(h) && |h.states| == |h.acts| + 1 && Last(h).pc.Picked? && Last(h).pc.id in EligibleSet(Last(h).db)
    ensures IsHistory(h') && |h'.states| == |h'.acts| + 1 && Extends(h, h') && h'.acts == h.acts + [ClaimItem(true)]
    ensures Last(h').pc == Claimed(Last(h).pc.id, Last(h).pc.running)
    ensures EligibleSet(Last(h').db) == EligibleSet(Last(h).db) - {Last(h).pc.id}
    ensures |Running(Last(h'))| == |Running(Last(h))| + 1
    ensures Last(h').top == Last(h).top && Last(h').before == Last(h).before
  {
    LastKeepsInv(h);
    InvFacts(Last(h));
    EligibleIsThere(Last(h).db);
    hide IsHistory, EligibleSet, Eligible, Consistent, Inv, BatchTables.Claim, WithStatus;
    ClaimTakesOne(Last(h).db, Last(h).pc.id);
    h' := OneMoreStep(h, ClaimItem(true));
  }

  /** The next item is picked and claimed. */
  lemma ClaimNext(h: History, running: nat, ready: nat, limit: int) returns (h': History)
    requires Room(h, running, ready) && ready > 0 && running < limit
    ensures IsHistory(h') && |h'.states| == |h'.acts| + 1
    ensures Last(h').pc.Claimed? && Last(h').pc.running == running && |EligibleSet(Last(h').db)| >= ready - 1
    ensures Last(h').pc.id in EligibleSet(Last(h).db) && h'.acts == h.acts + [Pick(Last(h').pc.id, limit, 0), ClaimItem(true)]
    ensures EligibleSet(Last(h').db) == EligibleSet(Last(h).db) - {Last(h').pc.id}
    ensures Launched(h, h', 1, limit)
  {
    hide IsHistory, EligibleSet, WithStatus;
    var h1 := PickNext(h, running, limit);
    h' := ClaimPicked(h1);
    SizeWithout(EligibleSet(Last(h).db), Last(h1).pc.id);
  }

  /** And started, and bound to its run. */
  lemma StartClaimed(h: History, running: nat, ready: nat) returns (h': History)
    requires IsHistory(h) && |h.states| == |h.acts| + 1
    requires Last(h).pc.Claimed? && Last(h).pc.running == running && |EligibleSet(Last(h).db)| >= ready
    ensures Room(h', running + 1, ready) && Launched(h, h', 0, 0) && EligibleSet(Last(h').db) == EligibleSet(Last(h).db)
    ensures h'.acts == h.acts + [CallStart(Started(0)), Bind(true)] && StartsAt(h', |h.acts|, Last(h).pc.id)
  {
    hide IsHistory, EligibleSet, Consistent;
    var h1 := OneMoreStep(h, CallStart(Started(0)));
    var s := Last(h1);
    LastKeepsInv(h1);
    InvFacts(s);
    AttachChangesNoOrder(s, s.pc.id, 0);
    AttachEffect(s, s.pc.id, 0);
    hide Inv;
    h' := OneMoreStep(h1, Bind(true));
  }

  lemma LaunchOne(h: History, running: nat, ready: nat, limit: int) returns (h': History)
    requires Room(h, running, ready) && ready > 0 && running < limit
    ensures Room(h', running + 1, ready - 1) && Launched(h, h', 1, limit)
  {
    hide IsHistory, EligibleSet, Running;
    var h1 := ClaimNext(h, running, ready, limit);
    h' := StartClaimed(h1, running, ready - 1);
  }

  lemma NextIsNext(t: Tables, id: nat)
    requires id in EligibleSet(t) && forall x | x in EligibleSet(t) :: NoLater(t, id, x)
    ensures IsNext(t, id)
  {
    forall other | Eligible(t, other) ensures NoLater(t, id, other) {
      assert other in EligibleSet(t);
    }
  }

  lemma {:induction false} LaunchMany(h: History, running: nat, ready: nat, k: nat, limit: int) returns (h': History)
    requires Room(h, running, ready) && k <= ready && running + k <= limit
    ensures Room(h', running + k, ready - k) && Launched(h, h', k, limit)
    decreases k
  {
    hide Running, IsHistory, EligibleSet;
    if k == 0 {
      h' := h;
    } else {
      var h1 := LaunchOne(h, running, ready, limit);
      h' := LaunchMany(h1, running + 1, ready - 1, k - 1, limit);
    }
  }

  /** A new batch makes as many items ready as it has projects. */
  lemma CreateMakesReady(s: Sys, k: nat)
    requires Inv(s) && !s.pc.Down? && k > 0
    ensures var t := Apply(s, AskCreate(0, "", Projects(k), s.clock));
      && t.pc == s.pc && Running(t) == Running(s) && t.before == s.before && t.top == s.top
      && |EligibleSet(t.db)| >= k
  {
    hide Consistent, Derived;
    var a := AskCreate(0, "", Projects(k), s.clock);
    var t := Apply(s, a);
    RequestsLeaveRunningAlone(s, a);
    NewIdsSize(s.nextItem, k);
    SubsetSize(NewIds(s.nextItem, k), EligibleSet(t.db));
  }

  function Projects(k: nat): (projects: seq<nat>)
    ensures |projects| == k && NoRepeats(projects)
  {
    seq(k, n => n)
  }

  lemma {:induction false} NewIdsSize(first: nat, n: nat)
    ensures |NewIds(first, n)| == n
  {
    if n > 0 {
      NewIdsSize(first, n - 1);
    }
  }

  ghost predicate HarvestEnds(h: History, i: nat) {
    InTick(h, i, |h.acts|) && h.acts[|h.acts| - 1] == EndHarvest
  }

  lemma HarvestLeaves(h: History, i: nat)
    requires HarvestEnds(h, i)
    ensures |h.states| == |h.acts| + 1
    ensures var s := Last(h);
      && s.pc.Launching? && |Running(s)| == s.pc.running + s.lost && s.top == 0
      && s.before == |Running(h.states[i])| && (s.lost == 0 <==> NothingLost(h, i, |h.acts|))
  {
    hide WithStatus, Consistent, NothingLost;
    var n := |h.acts|;
    LedgerMeaning(h, i, n);
    HistoryKeepsInv(h, n - 1);
    CounterMeaning(h.states[n - 1]);
    assert Enabled(h.states[n - 1], h.acts[n - 1]) && h.states[n] == Apply(h.states[n - 1], h.acts[n - 1]);
  }

  /** Where the harvest has lost a requeue, the rest of the tick can be driven over the bound. */
  lemma Overfill(h: History, i: nat) returns (h': History)
    requires HarvestEnds(h, i) && !NothingLost(h, i, |h.acts|)
    ensures Extends(h, h') && InTick(h', i, |h'.acts|) && !BoundKept(h', i, |h'.acts|)
  {
    var s := Last(h);
    HarvestLeaves(h, i);
    LastKeepsInv(h);
    h' := LaunchOverflow(h, s.pc.running, s.before + 1);
    hide Running, Launched;
    LongerTick(h, h', i);
    LedgerMeaning(h', i, |h'.acts|);
  }

  lemma LaunchOverflow(h: History, r: nat, k: nat) returns (h': History)
    requires IsHistory(h) && |h.states| == |h.acts| + 1 && Inv(Last(h)) && Last(h).pc == Launching(r) && k > 0
    ensures IsHistory(h') && |h'.states| == |h'.acts| + 1 && Extends(h, h')
    ensures |h'.acts| >= |h.acts| && forall n | |h.acts| <= n < |h'.acts| :: !NewTick(h'.acts[n])
    ensures |Running(Last(h'))| == |Running(Last(h))| + k
    ensures Last(h').before == Last(h).before && Last(h').top == Max(Last(h).top, r + k)
  {
    hide IsHistory, Inv, Running, EligibleSet;
    CreateMakesReady(Last(h), k);
    var h1 := OneMoreStep(h, AskCreate(0, "", Projects(k), Last(h).clock));
    h' := LaunchMany(h1, r, k, k, r + k);
    forall n | |h.acts| <= n < |h'.acts| ensures !NewTick(h'.acts[n]) {
      assert n < |h1.acts| ==> h'.acts[n] == h1.acts[n];
    }
  }

  lemma LongerTick(h: History, h': History, i: nat)
    requires InTick(h, i, |h.acts|) && Extends(h, h') && IsHistory(h')
    requires forall n | |h.acts| <= n < |h'.acts| :: !NewTick(h'.acts[n])
    ensures InTick(h', i, |h'.acts|) && h'.states[i] == h.states[i]
  {
    forall k | i < k < |h'.acts| ensures !NewTick(h'.acts[k]) {
      if k < |h.acts| {
        assert h'.acts[k] == h.acts[k];
      }
    }
  }

  /** A harvest that is over does not begin again before the next tick. */
  lemma {:induction false} HarvestIsOver(h: History, n: nat, j: nat)
    requires IsHistory(h) && n <= j < |h.states| && !h.states[n].pc.Harvesting?
    requires forall k | n <= k < j :: !NewTick(h.acts[k])
    ensures !h.states[j].pc.Harvesting?
  {
    if n < j {
      HarvestIsOver(h, n, j - 1);
      assert Enabled(h.states[j - 1], h.acts[j - 1]) && h.states[j] == Apply(h.states[j - 1], h.acts[j - 1]);
    }
  }

  lemma NothingLostLater(h: History, h': History, i: nat)
    requires HarvestEnds(h, i) && NothingLost(h, i, |h.acts|) && Extends(h, h') && InTick(h', i, |h'.acts|)
    ensures NothingLost(h', i, |h'.acts|)
  {
    var n := |h.acts|;
    assert Enabled(h.states[n - 1], h.acts[n - 1]) && h.states[n] == Apply(h.states[n - 1], h.acts[n - 1]);
    forall k | i < k < |h'.acts| ensures !LosesRequeue(h'.states[k], h'.acts[k]) {
      if k < n {
        assert h'.states[k] == h.states[k] && h'.acts[k] == h.acts[k];
      } else {
        HarvestIsOver(h', n, k);
      }
    }
  }

  /**
   When a harvest is over it is decided whether the tick keeps within its limits: however it goes on, it does,
   if and only if no requeue was lost.
   */
  lemma HarvestDecidesTheBound(h: History, i: nat)
    requires HarvestEnds(h, i)
    ensures NothingLost(h, i, |h.acts|)
      <==> forall h' | Extends(h, h') && InTick(h', i, |h'.acts|) :: BoundKept(h', i, |h'.acts|)
  {
    hide Running, LosesRequeue;
    if NothingLost(h, i, |h.acts|) {
      forall h' | Extends(h, h') && InTick(h', i, |h'.acts|) ensures BoundKept(h', i, |h'.acts|) {
        NothingLostLater(h, h', i);
        TickKeepsTheLimit(h', i, |h'.acts|);
      }
    } else {
      var h' := Overfill(h, i);
    }
  }

  // ----- a history in which it happens

  lemma FirstBound() returns (h: History)
    ensures IsHistory(h) && |h.states| == |h.acts| + 1
    ensures Last(h).pc == Idle && Single(Last(h), ItemRunning, StatusRunning) && Last(h).db.items[0].run == Some(7)
  {
    hide IsHistory;
    h := FirstClaim();
    h := OneMoreStep(h, CallStart(Started(7)));
    h := OneMoreStep(h, Bind(true));
    h := OneMoreStep(h, StopLaunch(1, 0, true));
  }

  /** One item runs, its run found no slot and its requeue is not written: then three run under a limit of 2. */
  lemma BoundCanBeBroken() returns (h: History, i: nat)
    ensures InTick(h, i, |h.acts|) && !BoundKept(h, i, |h.acts|)
  {
    hide IsHistory, Single, BoundKept;
    var h0 := FirstBound();
    SingleRuns(Last(h0));
    i := |h0.acts|;
    var h1 := OneMoreStep(h0, BeginTick([0]));
    assert h1.acts[i] == BeginTick([0]);
    WrappedLimitIsRecognised("", "");
    assert "" + TOO_MANY_RUNS + "" == TOO_MANY_RUNS;
    var h2 := OneMoreStep(h1, Gather(Some(RunRow(Execution.RunFailed, TOO_MANY_RUNS)), false));
    assert LosesRequeue(h2.states[i + 1], h2.acts[i + 1]);
    var h3 := OneMoreStep(h2, EndHarvest);
    assert h3.acts[i] == BeginTick([0]) && h3.acts[i + 2] == EndHarvest;
    assert LosesRequeue(h3.states[i + 1], h3.acts[i + 1]);
    h := Overfill(h3, i);
  }

  lemma SingleRuns(s: Sys)
    requires Single(s, ItemRunning, StatusRunning)
    ensures 0 in s.db.items && Listing([0], Running(s))
  {
  }
}
