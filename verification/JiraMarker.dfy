/**
 The marker that keeps a Jira issue from starting a workflow twice (backend/internal/jiratrigger/trigger.go and
 the table in backend/internal/workflow/trigger.go). Scans and webhooks run `Process` side by side; every
 statement on the table and every launch is one action, and a process can die between any two of them.
 */
module JiraMarker {
  import opened Wrappers

  /** An issue at one of its update times, for one workflow. */
  datatype Key = Key(workflow: nat, issue: string, updatedAt: string)

  /** Where one call of `Process` stands. */
  datatype Phase =
    | Entered(key: Key)
    | Marked(key: Key)
    | Launched(key: Key, run: nat)
    | Failed(key: Key)
    | Ended(started: bool)

  /** The table, the calls, and the successful launches so far in order. */
  datatype State = State(rows: map<Key, Option<nat>>, calls: map<nat, Phase>, launched: seq<Key>)

  datatype Action =
    | Enter(call: nat, key: Key)
    | Mark(call: nat, wrote: bool)
    | Launch(call: nat, run: Option<nat>)
    | Unmark(call: nat, wrote: bool)
    | Link(call: nat, wrote: bool)
    | Die(call: nat)
    | ClaimOwnUpdate(key: Key)

  const START := State(map[], map[], [])

  predicate Enabled(s: State, a: Action) {
    match a
    case Enter(c, _) => c !in s.calls
    case Mark(c, _) => c in s.calls && s.calls[c].Entered?
    case Launch(c, _) => c in s.calls && s.calls[c].Marked?
    case Unmark(c, _) => c in s.calls && s.calls[c].Failed?
    case Link(c, _) => c in s.calls && s.calls[c].Launched?
    case Die(c) => c in s.calls
    case ClaimOwnUpdate(_) => true
  }

  /** `INSERT … ON CONFLICT DO NOTHING`. */
  function Insert(rows: map<Key, Option<nat>>, key: Key): map<Key, Option<nat>> {
    if key in rows then rows else rows[key := None]
  }

  /** Only a row without a run is taken back. */
  function Remove(rows: map<Key, Option<nat>>, key: Key): map<Key, Option<nat>> {
    if key in rows && rows[key].None? then rows - {key} else rows
  }

  function Attach(rows: map<Key, Option<nat>>, key: Key, run: nat): map<Key, Option<nat>> {
    if key in rows then rows[key := Some(run)] else rows
  }

  function Apply(s: State, a: Action): State
    requires Enabled(s, a)
  {
    match a
    case Enter(c, key) => s.(calls := s.calls[c := Entered(key)])
    case Mark(c, wrote) =>
      var key := s.calls[c].key;
      if wrote && key !in s.rows then s.(rows := Insert(s.rows, key), calls := s.calls[c := Marked(key)])
      else s.(calls := s.calls[c := Ended(false)])
    case Launch(c, run) =>
      var key := s.calls[c].key;
      if run.Some? then s.(calls := s.calls[c := Launched(key, run.value)], launched := s.launched + [key])
      else s.(calls := s.calls[c := Failed(key)])
    case Unmark(c, wrote) =>
      s.(rows := if wrote then Remove(s.rows, s.calls[c].key) else s.rows, calls := s.calls[c := Ended(false)])
    case Link(c, wrote) =>
      s.(rows := if wrote then Attach(s.rows, s.calls[c].key, s.calls[c].run) else s.rows, calls := s.calls[c := Ended(true)])
    case Die(c) => s.(calls := s.calls[c := Ended(false)])
    case ClaimOwnUpdate(key) => s.(rows := Insert(s.rows, key))
  }

  datatype History = History(states: seq<State>, acts: seq<Action>)

  ghost predicate IsHistory(h: History) {
    && |h.states| == |h.acts| + 1
    && h.states[0] == START
    && forall i | 0 <= i < |h.acts| :: Enabled(h.states[i], h.acts[i]) && h.states[i + 1] == Apply(h.states[i], h.acts[i])
  }

  // ----- the invariant

  /** The call has the mark and may still launch, or has yet to take the mark back. */
  predicate Owns(s: State, c: nat, key: Key) {
    c in s.calls && (s.calls[c] == Marked(key) || s.calls[c] == Failed(key))
  }

  predicate Unused(s: State, key: Key) {
    key in s.rows && s.rows[key].None? && key !in s.launched
  }

  ghost predicate Inv(s: State) {
    && (forall c, key | Owns(s, c, key) :: Unused(s, key))
    && (forall c, d, key | Owns(s, c, key) && Owns(s, d, key) :: c == d)
    && (forall key | key in s.launched :: key in s.rows)
    && (forall i, j | 0 <= i < j < |s.launched| :: s.launched[i] != s.launched[j])
    && (forall c | c in s.calls && s.calls[c].Launched? :: s.calls[c].key in s.launched)
  }

  lemma StepKeepsInv(s: State, a: Action)
    requires Inv(s) && Enabled(s, a)
    ensures Inv(Apply(s, a))
  {
    if a.Launch? || a.Unmark? {
      assert Owns(s, a.call, s.calls[a.call].key);
    }
    var t := Apply(s, a);
    forall c, key | Owns(t, c, key)
      ensures Owns(s, c, key) || (a == Mark(c, true) && key !in s.rows && key in t.rows)
    {
    }
  }

  lemma {:induction false} HistoryKeepsInv(h: History, i: nat)
    requires IsHistory(h) && i < |h.states|
    ensures Inv(h.states[i])
  {
    if i > 0 {
      HistoryKeepsInv(h, i - 1);
      assert Enabled(h.states[i - 1], h.acts[i - 1]);
      StepKeepsInv(h.states[i - 1], h.acts[i - 1]);
    }
  }

  /** For one workflow, issue and update time at most one launch succeeds. */
  lemma LaunchesDiffer(h: History, i: nat, j: nat)
    requires IsHistory(h) && i < j < |h.acts|
    requires h.acts[i].Launch? && h.acts[i].run.Some? && h.acts[j].Launch? && h.acts[j].run.Some?
    ensures h.acts[i].call in h.states[i].calls && h.states[i].calls[h.acts[i].call].Marked?
    ensures h.acts[j].call in h.states[j].calls && h.states[j].calls[h.acts[j].call].Marked?
    ensures h.states[i].calls[h.acts[i].call].key != h.states[j].calls[h.acts[j].call].key
  {
    assert Enabled(h.states[i], h.acts[i]) && h.states[i + 1] == Apply(h.states[i], h.acts[i]);
    assert Enabled(h.states[j], h.acts[j]);
    var key := h.states[i].calls[h.acts[i].call].key;
    assert key in h.states[i + 1].launched;
    LaunchedStays(h, i + 1, j, key);
    HistoryKeepsInv(h, j);
    assert Owns(h.states[j], h.acts[j].call, h.states[j].calls[h.acts[j].call].key);
  }

  lemma {:induction false} LaunchedStays(h: History, i: nat, j: nat, key: Key)
    requires IsHistory(h) && i <= j < |h.states| && key in h.states[i].launched
    ensures key in h.states[j].launched
  {
    if i < j {
      LaunchedStays(h, i, j - 1, key);
      assert Enabled(h.states[j - 1], h.acts[j - 1]) && h.states[j] == Apply(h.states[j - 1], h.acts[j - 1]);
    }
  }

  // ----- failed launches

  /** A failed launch leaves the issue open for a later attempt exactly when the mark could be taken back. */
  lemma OpenAgainIffUnmarked(s: State, c: nat, key: Key, wrote: bool)
    requires Inv(s) && c in s.calls && s.calls[c] == Failed(key)
    ensures wrote <==> key !in Apply(s, Unmark(c, wrote)).rows
  {
    assert Owns(s, c, key);
  }

  /** A mark that nobody owns. */
  ghost predicate Settled(s: State, key: Key) {
    key in s.rows && forall c | c in s.calls :: !Owns(s, c, key)
  }

  lemma SettledStep(s: State, a: Action, key: Key)
    requires Settled(s, key) && Enabled(s, a)
    ensures Settled(Apply(s, a), key)
  {
    forall c | c in s.calls ensures !Owns(s, c, key) {
    }
  }

  lemma {:induction false} SettledStays(h: History, i: nat, j: nat, key: Key)
    requires IsHistory(h) && i <= j < |h.states| && Settled(h.states[i], key)
    ensures Settled(h.states[j], key)
  {
    if i < j {
      SettledStays(h, i, j - 1, key);
      assert Enabled(h.states[j - 1], h.acts[j - 1]);
      SettledStep(h.states[j - 1], h.acts[j - 1], key);
    }
  }

  /** So where the mark stays behind, after a launch, a lost unmark or a death, the key is never launched again. */
  lemma SettledKeysAreNotLaunched(h: History, i: nat, j: nat, key: Key)
    requires IsHistory(h) && i <= j < |h.acts| && Settled(h.states[i], key) && h.acts[j].Launch?
    ensures h.acts[j].call in h.states[j].calls && h.states[j].calls[h.acts[j].call] != Marked(key)
  {
    SettledStays(h, i, j, key);
    assert Enabled(h.states[j], h.acts[j]);
    assert !Owns(h.states[j], h.acts[j].call, key);
  }

  lemma LaunchSettles(s: State, a: Action)
    requires Inv(s) && Enabled(s, a) && a.Launch? && a.run.Some?
    ensures Settled(Apply(s, a), s.calls[a.call].key)
  {
    var key := s.calls[a.call].key;
    assert Owns(s, a.call, key);
    forall c | c in s.calls && c != a.call ensures !Owns(s, c, key) {
    }
  }

  // ----- which run a row names

  /** The call has launched, and the launch answered this run. */
  ghost predicate LaunchedAs(h: History, j: nat, key: Key, run: nat) {
    j < |h.acts| && j < |h.states| && h.acts[j].Launch? && h.acts[j].run == Some(run)
    && h.acts[j].call in h.states[j].calls && h.states[j].calls[h.acts[j].call] == Marked(key)
  }

  lemma {:induction false} LaunchedPhaseComesFrom(h: History, i: nat, c: nat) returns (j: nat)
    requires IsHistory(h) && i < |h.states| && c in h.states[i].calls && h.states[i].calls[c].Launched?
    ensures j < i && LaunchedAs(h, j, h.states[i].calls[c].key, h.states[i].calls[c].run)
  {
    assert Enabled(h.states[i - 1], h.acts[i - 1]) && h.states[i] == Apply(h.states[i - 1], h.acts[i - 1]);
    if c in h.states[i - 1].calls && h.states[i - 1].calls[c] == h.states[i].calls[c] {
      hide Apply, Enabled;
      j := LaunchedPhaseComesFrom(h, i - 1, c);
    } else {
      j := i - 1;
    }
  }

  lemma RowComesFrom(s: State, a: Action, key: Key)
    requires Enabled(s, a) && key in Apply(s, a).rows && Apply(s, a).rows[key].Some?
    ensures (key in s.rows && s.rows[key] == Apply(s, a).rows[key])
      || (a.Link? && s.calls[a.call] == Launched(key, Apply(s, a).rows[key].value))
  {
  }

  /** A row names no other run than the one the launch for its key has started. */
  lemma {:induction false} RowNamesTheLaunchedRun(h: History, i: nat, key: Key) returns (j: nat)
    requires IsHistory(h) && i < |h.states| && key in h.states[i].rows && h.states[i].rows[key].Some?
    ensures j < i && LaunchedAs(h, j, key, h.states[i].rows[key].value)
  {
    assert Enabled(h.states[i - 1], h.acts[i - 1]) && h.states[i] == Apply(h.states[i - 1], h.acts[i - 1]);
    var s, a := h.states[i - 1], h.acts[i - 1];
    RowComesFrom(s, a, key);
    hide Apply, Enabled, LaunchedAs;
    if key in s.rows && s.rows[key] == h.states[i].rows[key] {
      j := RowNamesTheLaunchedRun(h, i - 1, key);
    } else {
      j := LaunchedPhaseComesFrom(h, i - 1, a.call);
    }
  }

  /** And a link that is written makes the row name it. */
  lemma LinkNamesTheRun(h: History, i: nat)
    requires IsHistory(h) && i < |h.acts| && h.acts[i].Link? && h.acts[i].wrote
    ensures h.acts[i].call in h.states[i].calls && h.states[i].calls[h.acts[i].call].Launched?
    ensures var phase := h.states[i].calls[h.acts[i].call];
      phase.key in h.states[i + 1].rows && h.states[i + 1].rows[phase.key] == Some(phase.run)
  {
    HistoryKeepsInv(h, i);
    assert Enabled(h.states[i], h.acts[i]) && h.states[i + 1] == Apply(h.states[i], h.acts[i]);
  }

  // ----- the object

  /** The table and the calls in progress. */
  class Trigger {
    var rows: map<Key, Option<nat>>
    var calls: map<nat, Phase>
    ghost var launched: seq<Key>

    ghost function Now(): State
      reads this
    {
      State(rows, calls, launched)
    }

    constructor ()
      ensures Now() == START && Inv(Now())
    {
      rows, calls, launched := map[], map[], [];
    }

    method MarkProcessed(key: Key) returns (added: bool)
      modifies this`rows
      ensures added == (key !in old(rows)) && rows == Insert(old(rows), key)
    {
      added := key !in rows;
      if added {
        rows := rows[key := None];
      }
    }

    method UnmarkProcessed(key: Key)
      modifies this`rows
      ensures rows == Remove(old(rows), key)
    {
      if key in rows && rows[key].None? {
        rows := rows - {key};
      }
    }

    method LinkProcessed(key: Key, run: nat)
      modifies this`rows
      ensures rows == Attach(old(rows), key, run)
    {
      if key in rows {
        rows := rows[key := Some(run)];
      }
    }

    method DoMark(c: nat, wrote: bool) returns (added: bool)
      requires Enabled(Now(), Mark(c, wrote))
      modifies this
      ensures Now() == Apply(old(Now()), Mark(c, wrote))
      ensures added == calls[c].Marked?
    {
      var key := calls[c].key;
      added := false;
      if wrote {
        added := MarkProcessed(key);
      }
      calls := calls[c := if added then Marked(key) else Ended(false)];
    }

    method DoLaunch(c: nat, run: Option<nat>)
      requires Enabled(Now(), Launch(c, run))
      modifies this
      ensures Now() == Apply(old(Now()), Launch(c, run))
    {
      var key := calls[c].key;
      match run {
        case Some(r) =>
          calls := calls[c := Launched(key, r)];
          launched := launched + [key];
        case None =>
          calls := calls[c := Failed(key)];
      }
    }

    method DoUnmark(c: nat, wrote: bool)
      requires Enabled(Now(), Unmark(c, wrote))
      modifies this
      ensures Now() == Apply(old(Now()), Unmark(c, wrote))
    {
      if wrote {
        UnmarkProcessed(calls[c].key);
      }
      calls := calls[c := Ended(false)];
    }

    method DoLink(c: nat, wrote: bool)
      requires Enabled(Now(), Link(c, wrote))
      modifies this
      ensures Now() == Apply(old(Now()), Link(c, wrote))
    {
      if wrote {
        LinkProcessed(calls[c].key, calls[c].run);
      }
      calls := calls[c := Ended(true)];
    }

    method Perform(a: Action)
      requires Enabled(Now(), a)
      modifies this
      ensures Now() == Apply(old(Now()), a)
    {
      match a {
        case Enter(c, key) => calls := calls[c := Entered(key)];
        case Mark(c, wrote) => var _ := DoMark(c, wrote);
        case Launch(c, run) => DoLaunch(c, run);
        case Unmark(c, wrote) => DoUnmark(c, wrote);
        case Link(c, wrote) => DoLink(c, wrote);
        case Die(c) => calls := calls[c := Ended(false)];
        case ClaimOwnUpdate(key) => var _ := MarkProcessed(key);
      }
    }

    method CanPerform(a: Action) returns (ok: bool)
      ensures ok == Enabled(Now(), a)
    {
      ok := Enabled(State(rows, calls, []), a);
    }

    /** What other calls do meanwhile: whatever of the schedule is possible. */
    method Others(schedule: seq<Action>, me: nat)
      requires Inv(Now()) && me in calls
      modifies this
      ensures Inv(Now()) && me in calls && calls[me] == old(calls[me])
      ensures old(launched) <= launched
    {
      hide Inv, Enabled;
      for i := 0 to |schedule|
        invariant Inv(Now()) && me in calls && calls[me] == old(calls[me])
        invariant old(launched) <= launched
      {
        var a := schedule[i];
        var possible := CanPerform(a);
        if possible && (a.ClaimOwnUpdate? || a.call != me) {
          StepKeepsInv(Now(), a);
          Perform(a);
        }
      }
    }

    /** `Process`: true is a started workflow. Another call may come between any two of its statements. */
    method Process(me: nat, key: Key, between: seq<Action>, during: seq<Action>, after: seq<Action>)
      returns (started: bool)
      requires Inv(Now()) && me !in calls
      modifies this
      ensures Inv(Now()) && me in calls && calls[me] == Ended(started)
      ensures started ==> key in launched && key !in old(launched)
    {
      hide Inv;
      StepKeepsInv(Now(), Enter(me, key));
      calls := calls[me := Entered(key)];
      Others(between, me);
      var wrote: bool := *;
      StepKeepsInv(Now(), Mark(me, wrote));
      if key !in rows {
        MarkedIsNew(Now(), key);
      }
      var added := DoMark(me, wrote);
      if !added {
        return false;
      }
      Others(during, me);
      var run: Option<nat> := *;
      StepKeepsInv(Now(), Launch(me, run));
      DoLaunch(me, run);
      assert calls[me] == if run.Some? then Launched(key, run.value) else Failed(key);
      Others(after, me);
      wrote := *;
      match run {
        case None =>
          StepKeepsInv(Now(), Unmark(me, wrote));
          DoUnmark(me, wrote);
          started := false;
        case Some(_) =>
          StepKeepsInv(Now(), Link(me, wrote));
          DoLink(me, wrote);
          started := true;
      }
    }
  }

  lemma MarkedIsNew(s: State, key: Key)
    requires Inv(s) && key !in s.rows
    ensures key !in s.launched
  {
  }
}
