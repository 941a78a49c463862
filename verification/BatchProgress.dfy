/**
 What the queue can still do: an item that it offers can be started without anybody's help, and so can every item
 that a resume has brought back. This is the other half of the theorems that say what is not started.
 */
module BatchProgress {
  import opened Wrappers
  import opened BatchTables
  import opened BatchQueue
  import opened BatchRuns
  import opened BatchSlots
  import opened BatchRows

  /** The history goes on to a start of the item, and no request comes in between. */
  ghost predicate LeadsTo(h: History, h': History, j: nat, id: nat)
    requires h.states != []
  {
    && IsHistory(h') && Extends(h, h') && |h.acts| <= j && StartsAt(h', j, id)
    && forall k | |h.acts| <= k < j :: !IsRequest(h'.acts[k])
  }

  ghost predicate CanStart(h: History, id: nat)
    requires h.states != []
  {
    exists h', j :: LeadsTo(h, h', j, id)
  }

  /** `h'` goes on where `h` ends, and what came in between was no request. */
  ghost predicate GoesOn(h: History, h': History) {
    && IsHistory(h) && IsHistory(h') && |h.states| == |h.acts| + 1 && |h'.states| == |h'.acts| + 1 && Extends(h, h')
    && forall k | |h.acts| <= k < |h'.acts| :: !IsRequest(h'.acts[k])
  }

  lemma GoesOnAndOn(h: History, h1: History, h2: History)
    requires GoesOn(h, h1) && GoesOn(h1, h2)
    ensures GoesOn(h, h2)
  {
    hide IsHistory;
    forall k | |h.acts| <= k < |h2.acts| ensures !IsRequest(h2.acts[k]) {
      assert k < |h1.acts| ==> h2.acts[k] == h1.acts[k];
    }
  }

  lemma OneStepOn(h: History, a: Action) returns (h': History)
    requires IsHistory(h) && |h.states| == |h.acts| + 1 && Enabled(Last(h), a) && !IsRequest(a)
    ensures GoesOn(h, h') && Last(h') == Apply(Last(h), a) && h'.acts == h.acts + [a]
  {
    hide IsHistory, Enabled, Apply;
    h' := OneMoreStep(h, a);
  }

  lemma LeadsOn(h: History, h1: History, h2: History, j: nat, id: nat)
    requires GoesOn(h, h1) && LeadsTo(h1, h2, j, id)
    ensures LeadsTo(h, h2, j, id)
  {
    hide IsHistory;
    forall k | |h.acts| <= k < j ensures !IsRequest(h2.acts[k]) {
      assert k < |h1.acts| ==> h2.acts[k] == h1.acts[k];
    }
  }

  // ----- launching

  /** With room enough the queue starts one item after the other, and so comes to this one. */
  lemma {:induction false} LaunchingComesTo(h: History, running: nat, id: nat) returns (h': History, j: nat)
    requires IsHistory(h) && |h.states| == |h.acts| + 1 && Last(h).pc == Launching(running)
    requires id in EligibleSet(Last(h).db)
    ensures LeadsTo(h, h', j, id)
    decreases |EligibleSet(Last(h).db)|
  {
    hide IsHistory, EligibleSet;
    var ready := |EligibleSet(Last(h).db)|;
    NonEmpty(EligibleSet(Last(h).db), id);
    var h1 := ClaimNext(h, running, ready, running + 1);
    var h2 := StartClaimed(h1, running, ready - 1);
    var next := Last(h1).pc.id;
    assert h1.acts == h.acts + [Pick(next, running + 1, 0), ClaimItem(true)];
    assert h2.acts == h1.acts + [CallStart(Started(0)), Bind(true)];
    GoesOnBy(h, h1);
    GoesOnBy(h1, h2);
    if next == id {
      StartIsReached(h1, h2, id);
      LeadsOn(h, h1, h2, |h1.acts|, id);
      h', j := h2, |h1.acts|;
    } else {
      GoesOnAndOn(h, h1, h2);
      SizeWithout(EligibleSet(Last(h).db), next);
      h', j := LaunchingComesTo(h2, running + 1, id);
      LeadsOn(h, h2, h', j, id);
    }
  }

  lemma NonEmpty(s: set<nat>, id: nat)
    requires id in s
    ensures |s| > 0
  {
  }

  lemma GoesOnBy(h: History, h': History)
    requires IsHistory(h) && IsHistory(h') && |h.states| == |h.acts| + 1 && |h'.states| == |h'.acts| + 1 && Extends(h, h')
    requires |h'.acts| == |h.acts| + 2 && !IsRequest(h'.acts[|h.acts|]) && !IsRequest(h'.acts[|h.acts| + 1])
    ensures GoesOn(h, h')
  {
    hide IsHistory;
  }

  lemma StartIsReached(h: History, h': History, id: nat)
    requires GoesOn(h, h') && StartsAt(h', |h.acts|, id)
    ensures LeadsTo(h, h', |h.acts|, id)
  {
    hide IsHistory;
  }

  // ----- a tick

  lemma {:induction false} AnyOrder(ids: set<nat>) returns (order: seq<nat>)
    ensures Listing(order, ids)
    decreases |ids|
  {
    if ids == {} {
      order := [];
    } else {
      var id :| id in ids;
      var rest := AnyOrder(ids - {id});
      order := [id] + rest;
      forall x | x in ids ensures x in order {
        assert x == id || x in rest;
      }
    }
  }

  /** A harvest in which every run still goes on changes nothing. */
  lemma {:induction false} HarvestPasses(h: History) returns (h': History)
    requires IsHistory(h) && |h.states| == |h.acts| + 1 && Last(h).pc.Harvesting?
    ensures GoesOn(h, h') && Last(h').pc.Launching? && Last(h').db == Last(h).db
    decreases |Last(h).pc.todo|
  {
    hide IsHistory, GoesOn;
    if Last(h).pc.todo == [] {
      h' := OneStepOn(h, EndHarvest);
    } else {
      var h1 := OneStepOn(h, Gather(None, false));
      GoesOnMeans(h, h1);
      h' := HarvestPasses(h1);
      GoesOnAndOn(h, h1, h');
    }
  }

  lemma GoesOnMeans(h: History, h': History)
    requires GoesOn(h, h')
    ensures IsHistory(h') && |h'.states| == |h'.acts| + 1
  {
  }

  /** From wherever the scheduler stands, after a crash if need be, it comes to launch on the same tables. */
  lemma ComesToLaunch(h: History) returns (h': History)
    requires IsHistory(h) && |h.states| == |h.acts| + 1
    ensures GoesOn(h, h') && Last(h').pc.Launching? && Last(h').db == Last(h).db
  {
    hide IsHistory, GoesOn;
    var h1 := ComesToIdle(h);
    GoesOnMeans(h, h1);
    var order := AnyOrder(Running(Last(h1)));
    var h2 := OneStepOn(h1, BeginTick(order));
    GoesOnMeans(h1, h2);
    h' := HarvestPasses(h2);
    GoesOnAndOn(h1, h2, h');
    GoesOnAndOn(h, h1, h');
  }

  lemma ComesToIdle(h: History) returns (h': History)
    requires IsHistory(h) && |h.states| == |h.acts| + 1
    ensures GoesOn(h, h') && Last(h').pc.Idle? && Last(h').db == Last(h).db
  {
    hide IsHistory;
    if Last(h).pc.Idle? {
      h' := h;
    } else if Last(h).pc.Down? {
      h' := OneStepOn(h, Restart(false));
    } else {
      var h1 := OneStepOn(h, Crash);
      h' := OneStepOn(h1, Restart(false));
      hide GoesOn;
      GoesOnAndOn(h, h1, h');
    }
  }

  /** What the queue offers can be started. */
  lemma EligibleCanStart(h: History, id: nat)
    requires IsHistory(h) && Eligible(Last(h).db, id)
    ensures CanStart(h, id)
  {
    HistoryHas(h);
    hide IsHistory;
    var h1 := ComesToLaunch(h);
    assert id in EligibleSet(Last(h1).db);
    hide EligibleSet, Eligible;
    var h', j := LaunchingComesTo(h1, Last(h1).pc.running, id);
    LeadsOn(h, h1, h', j, id);
  }

  lemma HistoryHas(h: History)
    requires IsHistory(h)
    ensures |h.states| == |h.acts| + 1
  {
  }

  /** An interrupted item can be started once its batch is resumed, with no further request. */
  lemma ResumedCanStart(h: History, id: nat) returns (h1: History)
    requires IsHistory(h) && Interrupted(Last(h), id) && !Last(h).pc.Down?
    ensures IsHistory(h1) && |h1.states| == |h1.acts| + 1 && Extends(h, h1)
    ensures h1.acts == h.acts + [AskResume(Last(h).db.items[id].batch)] && CanStart(h1, id)
  {
    HistoryHas(h);
    LastKeepsInv(h);
    InvFacts(Last(h));
    hide IsHistory, Inv, Consistent;
    var b := Last(h).db.items[id].batch;
    h1 := OneMoreStep(h, AskResume(b));
    BatchIsThere(Last(h).db, id);
    ResumeRevives(Last(h).db, b);
    assert InterruptedIn(Last(h).db, b, id);
    hide Resume, Eligible;
    EligibleCanStart(h1, id);
  }

  lemma BatchIsThere(t: Tables, id: nat)
    requires Consistent(t) && id in t.items
    ensures t.items[id].batch in t.batches
  {
  }
}
