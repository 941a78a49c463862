/**
 The slots of the run manager (backend/internal/runs/manager.go): every stretch under the mutex and every
 store call of `begin` and `finish` is one action, and any number of jobs go through them at once.
 */
module RunSlots {
  import opened Counting
  import opened Wrappers

  /** Where one call of `Start` or `Execute` stands. */
  datatype Job =
    | Refused
    | Holding
    | Recorded(run: nat)
    | Listed(run: nat)
    | Leaving
    | Released

  /**
   `cancels` names the job each cancel function stops; run ids come from the database and are never reused.
   `top` is book-keeping: the largest limit read so far.
   */
  datatype Slots = Slots(active: int, cancels: map<nat, nat>, jobs: map<nat, Job>, nextRun: nat, top: int)

  datatype Action =
    | Acquire(job: nat, limit: int)
    | CreateRecord(job: nat, wrote: bool)
    | Enlist(job: nat)
    | Delist(job: nat)
    | Release(job: nat)

  const START := Slots(0, map[], map[], 0, 0)

  predicate At(s: Slots, job: nat, where: Job) {
    job in s.jobs && s.jobs[job] == where
  }

  predicate Enabled(s: Slots, a: Action) {
    match a
    case Acquire(j, _) => j !in s.jobs
    case CreateRecord(j, _) => j in s.jobs && s.jobs[j].Holding?
    case Enlist(j) => j in s.jobs && s.jobs[j].Recorded?
    case Delist(j) => j in s.jobs && s.jobs[j].Listed?
    case Release(j) => j in s.jobs && s.jobs[j].Leaving?
  }

  function Apply(s: Slots, a: Action): Slots
    requires Enabled(s, a)
  {
    match a
    case Acquire(j, limit) =>
      var t := s.(top := Max(s.top, limit));
      if s.active >= limit then t.(jobs := s.jobs[j := Refused])
      else t.(active := s.active + 1, jobs := s.jobs[j := Holding])
    case CreateRecord(j, wrote) =>
      if wrote then s.(jobs := s.jobs[j := Recorded(s.nextRun)], nextRun := s.nextRun + 1)
      else s.(jobs := s.jobs[j := Leaving])
    case Enlist(j) => s.(cancels := s.cancels[s.jobs[j].run := j], jobs := s.jobs[j := Listed(s.jobs[j].run)])
    case Delist(j) => s.(cancels := s.cancels - {s.jobs[j].run}, jobs := s.jobs[j := Leaving])
    case Release(j) => s.(active := s.active - 1, jobs := s.jobs[j := Released])
  }

  datatype History = History(states: seq<Slots>, acts: seq<Action>)

  ghost predicate IsHistory(h: History) {
    && |h.states| == |h.acts| + 1
    && h.states[0] == START
    && forall i | 0 <= i < |h.acts| :: Enabled(h.states[i], h.acts[i]) && h.states[i + 1] == Apply(h.states[i], h.acts[i])
  }

  // ----- the invariant

  predicate Holds(job: Job) {
    !job.Refused? && !job.Released?
  }

  function HoldersOf(jobs: map<nat, Job>): set<nat> {
    set j | j in jobs && Holds(jobs[j])
  }

  function Holders(s: Slots): set<nat> {
    HoldersOf(s.jobs)
  }

  lemma OthersStay(jobs: map<nat, Job>, j: nat, job: Job)
    ensures HoldersOf(jobs[j := job]) - {j} == HoldersOf(jobs) - {j}
    ensures j in HoldersOf(jobs[j := job]) <==> Holds(job)
    ensures j in HoldersOf(jobs) <==> j in jobs && Holds(jobs[j])
  {
  }

  lemma OneJobMoves(jobs: map<nat, Job>, j: nat, job: Job)
    ensures |HoldersOf(jobs[j := job])| == |HoldersOf(jobs)| - One(j in jobs && Holds(jobs[j])) + One(Holds(job))
  {
    hide HoldersOf, Holds;
    OthersStay(jobs, j, job);
    CountWithout(HoldersOf(jobs), j);
    CountWithout(HoldersOf(jobs[j := job]), j);
  }

  predicate HasRun(job: Job) {
    job.Recorded? || job.Listed?
  }

  /** A slot for every holder. */
  ghost predicate Counted(s: Slots) {
    s.active == |Holders(s)| <= Max(s.top, 0)
  }

  /** A cancel function for every listed run, and only for those. */
  ghost predicate Registered(s: Slots) {
    && (forall r | r in s.cancels :: At(s, s.cancels[r], Listed(r)))
    && (forall j | j in s.jobs && s.jobs[j].Listed? :: s.jobs[j].run in s.cancels && s.cancels[s.jobs[j].run] == j)
  }

  /** No run belongs to two jobs. */
  ghost predicate Distinct(s: Slots) {
    && (forall j | j in s.jobs && HasRun(s.jobs[j]) :: s.jobs[j].run < s.nextRun)
    && (forall j, k | j in s.jobs && k in s.jobs && HasRun(s.jobs[j]) && HasRun(s.jobs[k]) ::
          s.jobs[j].run == s.jobs[k].run ==> j == k)
  }

  ghost predicate Inv(s: Slots) {
    Counted(s) && Registered(s) && Distinct(s)
  }

  lemma StepKeepsCounted(s: Slots, a: Action)
    requires Counted(s) && Enabled(s, a)
    ensures Counted(Apply(s, a))
  {
    hide HoldersOf;
    match a
    case Acquire(j, limit) => OneJobMoves(s.jobs, j, if s.active >= limit then Refused else Holding);
    case CreateRecord(j, wrote) => OneJobMoves(s.jobs, j, if wrote then Recorded(s.nextRun) else Leaving);
    case Enlist(j) => OneJobMoves(s.jobs, j, Listed(s.jobs[j].run));
    case Delist(j) => OneJobMoves(s.jobs, j, Leaving);
    case Release(j) => OneJobMoves(s.jobs, j, Released);
  }

  lemma StepKeepsRegistered(s: Slots, a: Action)
    requires Registered(s) && Distinct(s) && Enabled(s, a)
    ensures Registered(Apply(s, a))
  {
    if a.Enlist? || a.Delist? {
      ListingKeepsRegistered(s, a);
    } else {
      hide Distinct;
      var t := Apply(s, a);
      assert t.cancels == s.cancels && !t.jobs[a.job].Listed?;
    }
  }

  lemma ListingKeepsRegistered(s: Slots, a: Action)
    requires Registered(s) && Distinct(s) && Enabled(s, a) && (a.Enlist? || a.Delist?)
    ensures Registered(Apply(s, a))
  {
    var t := Apply(s, a);
    var run := s.jobs[a.job].run;
    forall r | r in t.cancels && r != run ensures t.cancels[r] == s.cancels[r] && t.cancels[r] != a.job {
    }
  }

  lemma StepKeepsDistinct(s: Slots, a: Action)
    requires Distinct(s) && Enabled(s, a)
    ensures Distinct(Apply(s, a))
  {
  }

  lemma StepKeepsInv(s: Slots, a: Action)
    requires Inv(s) && Enabled(s, a)
    ensures Inv(Apply(s, a))
  {
    hide Counted, Registered, Distinct, Apply;
    StepKeepsCounted(s, a);
    StepKeepsRegistered(s, a);
    StepKeepsDistinct(s, a);
  }

  lemma {:induction false} HistoryKeepsInv(h: History, i: nat)
    requires IsHistory(h) && i < |h.states|
    ensures Inv(h.states[i])
  {
    if i == 0 {
      assert Holders(START) == {};
    } else {
      HistoryKeepsInv(h, i - 1);
      assert Enabled(h.states[i - 1], h.acts[i - 1]);
      StepKeepsInv(h.states[i - 1], h.acts[i - 1]);
    }
  }

  // ----- acquired and released

  /** The acquires among the first `n` actions that got a slot. */
  function Acquired(h: History, n: nat): nat
    requires n <= |h.acts| < |h.states|
  {
    if n == 0 then 0
    else
      Acquired(h, n - 1)
      + if h.acts[n - 1].Acquire? && h.states[n - 1].active < h.acts[n - 1].limit then 1 else 0
  }

  function ReleasedCount(h: History, n: nat): nat
    requires n <= |h.acts|
  {
    if n == 0 then 0 else ReleasedCount(h, n - 1) + if h.acts[n - 1].Release? then 1 else 0
  }

  /** The counter is what was acquired less what was released, and never below zero. */
  lemma {:induction false} ActiveIsTheBalance(h: History, n: nat)
    requires IsHistory(h) && n <= |h.acts|
    ensures h.states[n].active == Acquired(h, n) - ReleasedCount(h, n) >= 0
  {
    hide Inv;
    HistoryKeepsInv(h, n);
    InvCounts(h.states[n]);
    if n > 0 {
      ActiveIsTheBalance(h, n - 1);
      assert Enabled(h.states[n - 1], h.acts[n - 1]) && h.states[n] == Apply(h.states[n - 1], h.acts[n - 1]);
    }
  }

  lemma InvCounts(s: Slots)
    requires Inv(s)
    ensures s.active == |Holders(s)|
  {
  }

  /** No limit read is a bound that can be exceeded: with all of them at most `limit`, so is the counter. */
  lemma {:induction false} ActiveWithinLimits(h: History, n: nat, limit: nat)
    requires IsHistory(h) && n <= |h.acts|
    requires forall i | 0 <= i < n && h.acts[i].Acquire? :: h.acts[i].limit <= limit
    ensures h.states[n].active <= limit
  {
    if n > 0 {
      ActiveWithinLimits(h, n - 1, limit);
      assert Enabled(h.states[n - 1], h.acts[n - 1]) && h.states[n] == Apply(h.states[n - 1], h.acts[n - 1]);
    }
  }

  predicate Ended(s: Slots, job: nat) {
    job in s.jobs && !Holds(s.jobs[job])
  }

  lemma {:induction false} EndedStays(h: History, i: nat, j: nat, job: nat)
    requires IsHistory(h) && i <= j < |h.states| && Ended(h.states[i], job)
    ensures Ended(h.states[j], job)
  {
    if i < j {
      EndedStays(h, i, j - 1, job);
      assert Enabled(h.states[j - 1], h.acts[j - 1]) && h.states[j] == Apply(h.states[j - 1], h.acts[j - 1]);
    }
  }

  /** A slot is given back once: a job that has released or was refused does not release any more. */
  lemma ReleasedOnce(h: History, i: nat, j: nat, job: nat)
    requires IsHistory(h) && i <= j < |h.acts| && Ended(h.states[i], job)
    ensures h.acts[j] != Release(job)
  {
    EndedStays(h, i, j, job);
    assert Enabled(h.states[j], h.acts[j]);
  }

  /** Every run that can be cancelled holds a slot. */
  lemma CancellableHolds(h: History, i: nat, run: nat) returns (job: nat)
    requires IsHistory(h) && i < |h.states| && run in h.states[i].cancels
    ensures At(h.states[i], job, Listed(run)) && job in Holders(h.states[i])
    ensures h.states[i].active > 0
  {
    HistoryKeepsInv(h, i);
    job := h.states[i].cancels[run];
    assert job in Holders(h.states[i]);
  }

  // ----- the object

  /** The manager's two fields; the jobs are the goroutines that call it. */
  class Manager {
    var active: int
    var cancels: map<nat, nat>
    ghost var s: Slots

    ghost predicate Valid()
      reads this
    {
      Inv(s) && active == s.active && cancels == s.cancels
    }

    constructor ()
      ensures Valid() && s == START
    {
      active, cancels, s := 0, map[], START;
      assert Holders(START) == {};
    }

    method TryAcquire(limit: int, ghost job: nat) returns (ok: bool)
      requires Valid() && Enabled(s, Acquire(job, limit))
      modifies this
      ensures Valid() && s == Apply(old(s), Acquire(job, limit))
      ensures ok == At(s, job, Holding) && (ok ==> active <= limit)
    {
      StepKeepsInv(s, Acquire(job, limit));
      s := Apply(s, Acquire(job, limit));
      ok := active < limit;
      if ok {
        active := active + 1;
      }
    }

    method DoRelease(ghost job: nat)
      requires Valid() && Enabled(s, Release(job))
      modifies this
      ensures Valid() && s == Apply(old(s), Release(job))
    {
      StepKeepsInv(s, Release(job));
      s := Apply(s, Release(job));
      active := active - 1;
    }

    method DoEnlist(run: nat, job: nat)
      requires Valid() && At(s, job, Recorded(run))
      modifies this
      ensures Valid() && s == Apply(old(s), Enlist(job))
    {
      StepKeepsInv(s, Enlist(job));
      s := Apply(s, Enlist(job));
      cancels := cancels[run := job];
    }

    method DoDelist(run: nat, ghost job: nat)
      requires Valid() && At(s, job, Listed(run))
      modifies this
      ensures Valid() && s == Apply(old(s), Delist(job))
    {
      StepKeepsInv(s, Delist(job));
      s := Apply(s, Delist(job));
      cancels := cancels - {run};
    }

    /** The job whose cancel function is called; none stands for `ErrNotRunning`. */
    method Cancel(run: nat) returns (stopped: Option<nat>)
      requires Valid()
      ensures stopped.Some? ==> At(s, stopped.value, Listed(run))
      ensures stopped.None? ==> forall job :: !At(s, job, Listed(run))
    {
      stopped := if run in cancels then Some(cancels[run]) else None;
    }
  }
}
