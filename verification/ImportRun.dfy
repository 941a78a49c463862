/**
 Importing a selection of repositories side by side (backend/internal/httpapi/projectimport.go). One loop goes
 through the selection; every address that is new gets a goroutine, and a channel of capacity 8 lets at most
 8 of them work at once. `addresses` are the normalized addresses of the selection, in order.
 */
module ImportRun {
  import opened Counting

  const AT_ONCE := 8

  datatype Result = Created | Failed | Unknown

  /** Where one goroutine stands. */
  datatype Job =
    | Waiting
    | Inside
    | Judged(result: Result)
    | Left(result: Result)

  /** `Summary` in the source, with a count of results that are neither created nor failed. */
  datatype State = State(
    pos: nat,
    claimed: set<string>,
    jobs: map<nat, Job>,
    gate: int,
    created: nat,
    failed: nat,
    unknown: nat,
    skipped: nat)

  datatype Action =
    | Next
    | EnterGate(i: nat)
    | Report(i: nat, result: Result)
    | LeaveGate(i: nat)

  datatype Selection = Selection(addresses: seq<string>, known: set<string>)

  const START := State(0, {}, map[], 0, 0, 0, 0, 0)

  predicate Enabled(sel: Selection, s: State, a: Action) {
    match a
    case Next => s.pos < |sel.addresses|
    case EnterGate(i) => i in s.jobs && s.jobs[i].Waiting? && s.gate < AT_ONCE
    case Report(i, _) => i in s.jobs && s.jobs[i].Inside?
    case LeaveGate(i) => i in s.jobs && s.jobs[i].Judged?
  }

  function Tally(s: State, result: Result): State {
    match result
    case Created => s.(created := s.created + 1)
    case Failed => s.(failed := s.failed + 1)
    case Unknown => s.(unknown := s.unknown + 1)
  }

  function Apply(sel: Selection, s: State, a: Action): State
    requires Enabled(sel, s, a)
  {
    match a
    case Next =>
      var address := sel.addresses[s.pos];
      if address in sel.known || address in s.claimed then s.(skipped := s.skipped + 1, pos := s.pos + 1)
      else s.(claimed := s.claimed + {address}, jobs := s.jobs[s.pos := Waiting], pos := s.pos + 1)
    case EnterGate(i) => s.(jobs := s.jobs[i := Inside], gate := s.gate + 1)
    case Report(i, result) => Tally(s, result).(jobs := s.jobs[i := Judged(result)])
    case LeaveGate(i) => s.(jobs := s.jobs[i := Left(s.jobs[i].result)], gate := s.gate - 1)
  }

  /** The states of an import and the actions between them. */
  datatype History = History(states: seq<State>, acts: seq<Action>)

  ghost predicate IsRun(sel: Selection, h: History) {
    && |h.states| == |h.acts| + 1
    && h.states[0] == START
    && forall i | 0 <= i < |h.acts| ::
         Enabled(sel, h.states[i], h.acts[i]) && h.states[i + 1] == Apply(sel, h.states[i], h.acts[i])
  }

  lemma StepOf(sel: Selection, h: History, i: nat)
    requires IsRun(sel, h) && i < |h.acts|
    ensures |h.states| == |h.acts| + 1 && Enabled(sel, h.states[i], h.acts[i])
    ensures h.states[i + 1] == Apply(sel, h.states[i], h.acts[i])
  {
  }

  // ----- counting goroutines

  datatype Kind = InGate | Early | Open | Present | WithResult(result: Result)

  predicate Is(job: Job, kind: Kind) {
    match kind
    case InGate => job.Inside? || job.Judged?
    case Early => job.Waiting?
    case Open => job.Waiting? || job.Inside?
    case Present => !job.Left?
    case WithResult(r) => (job.Judged? || job.Left?) && job.result == r
  }

  function Those(jobs: map<nat, Job>, kind: Kind): set<nat> {
    set i | i in jobs && Is(jobs[i], kind)
  }

  lemma OthersStay(jobs: map<nat, Job>, i: nat, job: Job, kind: Kind)
    ensures Those(jobs[i := job], kind) - {i} == Those(jobs, kind) - {i}
    ensures i in Those(jobs[i := job], kind) <==> Is(job, kind)
    ensures i in Those(jobs, kind) <==> i in jobs && Is(jobs[i], kind)
  {
  }

  lemma OneJobMoves(jobs: map<nat, Job>, i: nat, job: Job, kind: Kind)
    ensures |Those(jobs[i := job], kind)| == |Those(jobs, kind)| - One(i in jobs && Is(jobs[i], kind)) + One(Is(job, kind))
  {
    hide Those, Is;
    OthersStay(jobs, i, job, kind);
    CountWithout(Those(jobs, kind), i);
    CountWithout(Those(jobs[i := job], kind), i);
  }

  predicate CountsMove(jobs: map<nat, Job>, i: nat, job: Job, kind: Kind) {
    |Those(jobs[i := job], kind)| == |Those(jobs, kind)| - One(i in jobs && Is(jobs[i], kind)) + One(Is(job, kind))
  }

  lemma AllKindsMove(jobs: map<nat, Job>, i: nat, job: Job)
    ensures CountsMove(jobs, i, job, InGate) && CountsMove(jobs, i, job, Open)
    ensures CountsMove(jobs, i, job, Early) && CountsMove(jobs, i, job, Present)
    ensures forall r :: CountsMove(jobs, i, job, WithResult(r))
  {
    hide Those, Is, One;
    forall kind ensures CountsMove(jobs, i, job, kind) {
      OneJobMoves(jobs, i, job, kind);
    }
  }

  // ----- the invariant

  /** The counters say what has become of the part of the selection that the loop has passed. */
  ghost predicate Counted(s: State) {
    && s.gate == |Those(s.jobs, InGate)| <= AT_ONCE
    && s.created == |Those(s.jobs, WithResult(Created))|
    && s.failed == |Those(s.jobs, WithResult(Failed))|
    && s.unknown == |Those(s.jobs, WithResult(Unknown))|
    && |s.jobs| + s.skipped == s.pos
    && |Those(s.jobs, Open)| + s.created + s.failed + s.unknown == |s.jobs|
  }

  /** One goroutine for each address that is new, and none for the others. */
  ghost predicate Claimed(sel: Selection, s: State) {
    && s.pos <= |sel.addresses|
    && (forall i | i in s.jobs :: i < s.pos && sel.addresses[i] in s.claimed && sel.addresses[i] !in sel.known)
    && (forall i, k | i in s.jobs && k in s.jobs && sel.addresses[i] == sel.addresses[k] :: i == k)
    && (forall i | 0 <= i < s.pos :: sel.addresses[i] in sel.known || sel.addresses[i] in s.claimed)
    && (forall address | address in s.claimed :: HasJob(sel, s, address))
  }

  ghost predicate HasJob(sel: Selection, s: State, address: string) {
    exists i :: i in s.jobs && i < |sel.addresses| && sel.addresses[i] == address
  }

  ghost predicate Inv(sel: Selection, s: State) {
    Counted(s) && Claimed(sel, s)
  }

  lemma NewJobCounts(jobs: map<nat, Job>, i: nat)
    requires i !in jobs
    ensures |Those(jobs[i := Waiting], InGate)| == |Those(jobs, InGate)|
    ensures |Those(jobs[i := Waiting], Open)| == |Those(jobs, Open)| + 1
    ensures forall r :: |Those(jobs[i := Waiting], WithResult(r))| == |Those(jobs, WithResult(r))|
  {
    hide Those;
    AllKindsMove(jobs, i, Waiting);
    forall r ensures |Those(jobs[i := Waiting], WithResult(r))| == |Those(jobs, WithResult(r))| {
      assert CountsMove(jobs, i, Waiting, WithResult(r));
    }
  }

  lemma NextKeepsCounted(sel: Selection, s: State)
    requires Inv(sel, s) && Enabled(sel, s, Next)
    ensures Counted(Apply(sel, s, Next))
  {
    hide Those;
    assert s.pos !in s.jobs;
    hide Claimed;
    NewJobCounts(s.jobs, s.pos);
  }

  lemma ReportKeepsCounted(sel: Selection, s: State, i: nat, result: Result)
    requires Counted(s) && Enabled(sel, s, Report(i, result))
    ensures Counted(Apply(sel, s, Report(i, result)))
  {
    hide Those;
    AllKindsMove(s.jobs, i, Judged(result));
    assert forall r :: CountsMove(s.jobs, i, Judged(result), WithResult(r));
  }

  lemma GateKeepsCounted(sel: Selection, s: State, a: Action)
    requires Counted(s) && Enabled(sel, s, a) && (a.EnterGate? || a.LeaveGate?)
    ensures Counted(Apply(sel, s, a))
  {
    hide Those;
    var job := if a.EnterGate? then Inside else Left(s.jobs[a.i].result);
    AllKindsMove(s.jobs, a.i, job);
    assert forall r :: CountsMove(s.jobs, a.i, job, WithResult(r));
  }

  lemma StepKeepsCounted(sel: Selection, s: State, a: Action)
    requires Inv(sel, s) && Enabled(sel, s, a)
    ensures Counted(Apply(sel, s, a))
  {
    hide Counted, Claimed, Apply;
    match a
    case Next => NextKeepsCounted(sel, s);
    case Report(i, result) => ReportKeepsCounted(sel, s, i, result);
    case _ => GateKeepsCounted(sel, s, a);
  }

  lemma NextKeepsClaimed(sel: Selection, s: State)
    requires Claimed(sel, s) && Enabled(sel, s, Next)
    ensures Claimed(sel, Apply(sel, s, Next))
  {
    hide HasJob;
    var t := Apply(sel, s, Next);
    forall address | HasJob(sel, s, address) ensures HasJob(sel, t, address) {
      JobStays(sel, s, t, address);
    }
    if s.pos in t.jobs {
      JobFound(sel, t, s.pos);
    }
  }

  lemma MoveKeepsClaimed(sel: Selection, s: State, a: Action)
    requires Claimed(sel, s) && Enabled(sel, s, a) && !a.Next?
    ensures Claimed(sel, Apply(sel, s, a))
  {
    hide HasJob;
    var t := Apply(sel, s, a);
    assert t.jobs.Keys == s.jobs.Keys;
    forall address | HasJob(sel, s, address) ensures HasJob(sel, t, address) {
      JobStays(sel, s, t, address);
    }
  }

  lemma JobStays(sel: Selection, s: State, t: State, address: string)
    requires HasJob(sel, s, address) && s.jobs.Keys <= t.jobs.Keys
    ensures HasJob(sel, t, address)
  {
    var i :| i in s.jobs && i < |sel.addresses| && sel.addresses[i] == address;
    assert i in t.jobs;
  }

  lemma JobFound(sel: Selection, s: State, i: nat)
    requires i in s.jobs && i < |sel.addresses|
    ensures HasJob(sel, s, sel.addresses[i])
  {
  }

  lemma {:induction false} RunKeepsInv(sel: Selection, h: History, i: nat)
    requires IsRun(sel, h) && i < |h.states|
    ensures Inv(sel, h.states[i])
  {
    if i == 0 {
      assert forall kind :: Those(START.jobs, kind) == {};
    } else {
      RunKeepsInv(sel, h, i - 1);
      StepOf(sel, h, i - 1);
      var a := h.acts[i - 1];
      StepKeepsCounted(sel, h.states[i - 1], a);
      if a.Next? {
        NextKeepsClaimed(sel, h.states[i - 1]);
      } else {
        MoveKeepsClaimed(sel, h.states[i - 1], a);
      }
    }
  }

  // ----- what the summary says

  /** `wg.Wait` has returned. */
  predicate Over(sel: Selection, s: State) {
    s.pos == |sel.addresses| && forall i | i in s.jobs :: s.jobs[i].Left?
  }

  /** Nothing gets lost: at the end every selected repository was created, failed or skipped. */
  lemma SummaryAddsUp(sel: Selection, h: History, i: nat)
    requires IsRun(sel, h) && i < |h.states| && Over(sel, h.states[i])
    ensures h.states[i].created + h.states[i].failed + h.states[i].unknown + h.states[i].skipped == |sel.addresses|
    ensures (forall j | j in h.states[i].jobs :: h.states[i].jobs[j].result != Unknown) ==> h.states[i].unknown == 0
  {
    RunKeepsInv(sel, h, i);
    assert Those(h.states[i].jobs, Open) == {};
    if forall j | j in h.states[i].jobs :: h.states[i].jobs[j].result != Unknown {
      assert Those(h.states[i].jobs, WithResult(Unknown)) == {};
    }
  }

  /** How many goroutines have come back with this result. */
  function Reports(h: History, i: nat, result: Result): nat
    requires i <= |h.acts|
  {
    if i == 0 then 0 else Reports(h, i - 1, result) + One(h.acts[i - 1].Report? && h.acts[i - 1].result == result)
  }

  /** The summary counts what the goroutines came back with, each result under its own name. */
  lemma {:induction false} SummaryCountsResults(sel: Selection, h: History, i: nat)
    requires IsRun(sel, h) && i < |h.states|
    ensures i <= |h.acts|
    ensures h.states[i].created == Reports(h, i, Created)
    ensures h.states[i].failed == Reports(h, i, Failed)
    ensures h.states[i].unknown == Reports(h, i, Unknown)
  {
    if i > 0 {
      StepOf(sel, h, i - 1);
      SummaryCountsResults(sel, h, i - 1);
    }
  }

  /** What is skipped is registered, or another place in the selection with the same address is worked on. */
  lemma SkippedMeaning(sel: Selection, h: History, i: nat, k: nat)
    requires IsRun(sel, h) && i < |h.states| && k < h.states[i].pos
    ensures k < |sel.addresses|
    ensures k !in h.states[i].jobs ==>
      sel.addresses[k] in sel.known || HasJob(sel, h.states[i], sel.addresses[k])
    ensures h.states[i].skipped == h.states[i].pos - |h.states[i].jobs|
  {
    RunKeepsInv(sel, h, i);
  }

  /** Has been handed to `isle`. */
  predicate Reached(s: State, i: nat) {
    i in s.jobs && !s.jobs[i].Waiting?
  }

  function AtWork(s: State): set<nat> {
    set j | j in s.jobs && s.jobs[j].Inside?
  }

  /** At any time: at most 8 at work, no address twice, none that is registered already. */
  lemma AddressesAreWorkedOnOnce(sel: Selection, h: History, i: nat)
    requires IsRun(sel, h) && i < |h.states|
    ensures |AtWork(h.states[i])| <= AT_ONCE
    ensures forall j: nat | Reached(h.states[i], j) :: j < |sel.addresses| && sel.addresses[j] !in sel.known
    ensures forall j: nat, k: nat | Reached(h.states[i], j) && Reached(h.states[i], k) && sel.addresses[j] == sel.addresses[k] ::
      j == k
  {
    RunKeepsInv(sel, h, i);
    SubsetSize(AtWork(h.states[i]), Those(h.states[i].jobs, InGate));
  }

  /** And at the end every selected address that was not registered has been worked on. */
  lemma NewAddressesAreReached(sel: Selection, h: History, i: nat, k: nat) returns (j: nat)
    requires IsRun(sel, h) && i < |h.states| && Over(sel, h.states[i])
    requires k < |sel.addresses| && sel.addresses[k] !in sel.known
    ensures Reached(h.states[i], j) && j < |sel.addresses| && sel.addresses[j] == sel.addresses[k]
  {
    RunKeepsInv(sel, h, i);
    assert HasJob(sel, h.states[i], sel.addresses[k]);
    j :| j in h.states[i].jobs && j < |sel.addresses| && sel.addresses[j] == sel.addresses[k];
  }

  /** Until it is over something can be done: a full gate always has somebody inside who can go on. */
  lemma ImportGoesOn(sel: Selection, s: State) returns (a: Action)
    requires Inv(sel, s) && !Over(sel, s)
    ensures Enabled(sel, s, a)
  {
    if s.pos < |sel.addresses| {
      a := Next;
    } else {
      var i :| i in s.jobs && !s.jobs[i].Left?;
      match s.jobs[i]
      case Inside => a := Report(i, Failed);
      case Judged(_) => a := LeaveGate(i);
      case Waiting =>
        if s.gate < AT_ONCE {
          a := EnterGate(i);
        } else {
          assert Those(s.jobs, InGate) != {};
          var j :| j in Those(s.jobs, InGate);
          a := if s.jobs[j].Inside? then Report(j, Failed) else LeaveGate(j);
        }
    }
  }

  // ----- the loop and its goroutines

  /** The stages the goroutines still have before them. */
  function WorkLeft(s: State): nat {
    |Those(s.jobs, Early)| + |Those(s.jobs, Open)| + |Those(s.jobs, Present)|
  }

  lemma MovesLowerWork(sel: Selection, s: State, a: Action)
    requires Enabled(sel, s, a) && !a.Next?
    ensures WorkLeft(Apply(sel, s, a)) < WorkLeft(s)
  {
    hide Those;
    match a
    case EnterGate(i) => AllKindsMove(s.jobs, i, Inside);
    case Report(i, result) => AllKindsMove(s.jobs, i, Judged(result));
    case LeaveGate(i) => AllKindsMove(s.jobs, i, Left(s.jobs[i].result));
  }

  lemma FullGateHasSomeone(sel: Selection, s: State) returns (i: nat)
    requires Inv(sel, s) && s.gate >= AT_ONCE
    ensures i in s.jobs && !s.jobs[i].Left? && !s.jobs[i].Waiting?
  {
    assert Those(s.jobs, InGate) != {};
    i :| i in Those(s.jobs, InGate);
  }

  class Importer {
    const sel: Selection
    var pos: nat
    var claimed: set<string>
    var jobs: map<nat, Job>
    var gate: int
    var created: nat
    var failed: nat
    var unknown: nat
    var skipped: nat
    ghost var record: History

    ghost function Now(): State
      reads this
    {
      State(pos, claimed, jobs, gate, created, failed, unknown, skipped)
    }

    ghost predicate Valid()
      reads this
    {
      |record.states| == |record.acts| + 1 && IsRun(sel, record) && record.states[|record.acts|] == Now()
    }

    constructor (selection: Selection)
      ensures Valid() && sel == selection && Now() == START
    {
      sel := selection;
      pos, claimed, jobs, gate := 0, {}, map[], 0;
      created, failed, unknown, skipped := 0, 0, 0, 0;
      record := History([START], []);
    }

    ghost method Note(a: Action)
      requires |record.states| == |record.acts| + 1 && IsRun(sel, record)
      requires Enabled(sel, record.states[|record.acts|], a)
      modifies this`record
      ensures |record.states| == |record.acts| + 1 && IsRun(sel, record)
      ensures record.acts == old(record.acts) + [a]
      ensures record.states[|record.acts|] == Apply(sel, old(record.states[|record.acts|]), a)
    {
      hide Enabled, Apply;
      record := History(record.states + [Apply(sel, record.states[|record.acts|], a)], record.acts + [a]);
    }

    /** One round of the loop over the selection. */
    method TakeNext()
      requires Valid() && pos < |sel.addresses|
      modifies this
      ensures Valid() && Now() == Apply(sel, old(Now()), Next)
    {
      hide IsRun;
      Note(Next);
      var address := sel.addresses[pos];
      if address in sel.known {
        skipped := skipped + 1;
      } else if address in claimed {
        skipped := skipped + 1;
      } else {
        claimed := claimed + {address};
        jobs := jobs[pos := Waiting];
      }
      pos := pos + 1;
    }

    /** The next statement of a goroutine. */
    method Advance(i: nat, result: Result)
      requires Valid() && i in jobs && !jobs[i].Left? && (jobs[i].Waiting? ==> gate < AT_ONCE)
      modifies this
      ensures Valid() && pos == old(pos) && WorkLeft(Now()) < old(WorkLeft(Now()))
    {
      hide IsRun, WorkLeft;
      var action :=
        match jobs[i] { case Waiting => EnterGate(i) case Inside => Report(i, result) case _ => LeaveGate(i) };
      MovesLowerWork(sel, Now(), action);
      Note(action);
      match jobs[i] {
        case Waiting =>
          gate := gate + 1;
          jobs := jobs[i := Inside];
        case Inside =>
          match result {
            case Created => created := created + 1;
            case Failed => failed := failed + 1;
            case Unknown => unknown := unknown + 1;
          }
          jobs := jobs[i := Judged(result)];
        case Judged(r) =>
          gate := gate - 1;
          jobs := jobs[i := Left(r)];
      }
    }

    /** Any goroutines go on for a while. */
    method Others(turns: seq<(nat, Result)>)
      requires Valid()
      modifies this
      ensures Valid() && pos == old(pos)
    {
      for k := 0 to |turns|
        invariant Valid() && pos == old(pos)
      {
        var (i, result) := turns[k];
        if i in jobs && !jobs[i].Left? && (jobs[i].Waiting? ==> gate < AT_ONCE) {
          Advance(i, result);
        }
      }
    }

    /** `importEt`: the loop, and then `wg.Wait` until every goroutine is through. */
    method Import(turns: seq<(nat, Result)>)
      requires Valid() && Now() == START
      modifies this
      ensures Valid() && Over(sel, Now())
      ensures created + failed + unknown + skipped == |sel.addresses|
      ensures created == Reports(record, |record.acts|, Created) && failed == Reports(record, |record.acts|, Failed)
    {
      hide IsRun, WorkLeft, Inv;
      while pos < |sel.addresses|
        invariant Valid() && pos <= |sel.addresses|
      {
        TakeNext();
        Others(turns);
      }
      var unfinished := set i | i in jobs && !jobs[i].Left?;
      while unfinished != {}
        invariant Valid() && pos == |sel.addresses|
        invariant unfinished == set i | i in jobs && !jobs[i].Left?
        decreases WorkLeft(Now())
      {
        var i :| i in unfinished;
        var result: Result := *;
        if jobs[i].Waiting? && gate >= AT_ONCE {
          RunKeepsInv(sel, record, |record.acts|);
          ghost var someone := FullGateHasSomeone(sel, Now());
          var inside := set k | k in unfinished && !jobs[k].Waiting?;
          assert someone in inside;
          i :| i in inside;
        }
        Advance(i, result);
        unfinished := set k | k in jobs && !jobs[k].Left?;
      }
      forall i | i in jobs ensures jobs[i].Left? {
        assert i in jobs && !jobs[i].Left? ==> i in unfinished;
      }
      SummaryAddsUp(sel, record, |record.acts|);
      SummaryCountsResults(sel, record, |record.acts|);
    }
  }
}
