/**
 One SSE connection to one run (backend/internal/httpapi/sse.go): the run's single writer appends a row and
 then publishes it (backend/internal/runs/manager.go:309-341, backend/internal/runs/store.go:357-371), and the
 handler subscribes, reads the history and goes on with the live events. All of it in any order of steps.
 */
module EventStream {
  import opened Counting
  import opened EventBus

  datatype Writer = Ready | Publishing(e: Event) | Finished

  datatype Conn = Off | Asked(over: bool) | Listening(over: bool) | Live | Closed

  /** A line on the connection. The closing signal repeats the last number. */
  datatype Line = Line(number: nat, signal: bool)

  /**
   `rows` rows have been appended and the first `published` of them published. The fields from `heard` on are
   book-keeping that no action looks at: what had been published at `Listen`, how much history was read,
   whether the connection went live, the last number that can no longer be received, and whether a full
   buffer has dropped an event.
   */
  datatype State = State(
    rows: nat,
    published: nat,
    erased: bool,
    writer: Writer,
    conn: Conn,
    queue: seq<Event>,
    last: nat,
    sent: seq<Line>,
    heard: nat,
    read: nat,
    live: bool,
    base: nat,
    dropped: bool)

  datatype Action =
    | Append(terminal: bool, wrote: bool)
    | PublishEvent
    | Erase
    | Ask(over: bool)
    | Listen
    | ReadHistory(count: nat, ok: bool)
    | Receive
    | Leave

  const START := State(0, 0, false, Ready, Off, [], 0, [], 0, 0, false, 0, false)

  predicate Subscribed(s: State) {
    s.conn.Listening? || s.conn.Live?
  }

  /** A full buffer drops the event. */
  predicate Drops(s: State, a: Action) {
    a.PublishEvent? && Subscribed(s) && |s.queue| >= BUFFER_SIZE
  }

  function Visible(s: State): nat {
    if s.erased then 0 else s.rows
  }

  predicate Enabled(s: State, a: Action) {
    match a
    case Append(_, _) => s.writer.Ready? && !s.erased
    case PublishEvent => s.writer.Publishing?
    case Erase => !s.writer.Publishing? && !s.erased
    case Ask(_) => s.conn.Off?
    case Listen => s.conn.Asked?
    case ReadHistory(count, ok) => s.conn.Listening? && count <= Visible(s) && (ok ==> count == Visible(s))
    case Receive => s.conn.Live? && s.queue != []
    case Leave => !s.conn.Closed?
  }

  function HistoryLines(count: nat): (lines: seq<Line>)
    ensures |lines| == count && forall i | 0 <= i < count :: lines[i] == Line(i + 1, false)
  {
    seq(count, i requires 0 <= i < count => Line(i + 1, false))
  }

  /** Has the event been sent as part of the history? */
  predicate Repeats(e: Event, last: nat) {
    0 < e.number <= last
  }

  function Deliver(s: State, e: Event): State {
    if Repeats(e, s.last) then s
    else
      s.(last := if e.number > s.last then e.number else s.last,
         sent := s.sent + [Line(e.number, false)],
         conn := if e.terminal then Closed else s.conn)
  }

  function Apply(s: State, a: Action): State
    requires Enabled(s, a)
  {
    match a
    case Append(terminal, wrote) =>
      if wrote then s.(rows := s.rows + 1, writer := Publishing(Event(s.rows + 1, terminal)))
      else if terminal then s.(writer := Publishing(Event(0, true)))
      else s
    case PublishEvent =>
      var e := s.writer.e;
      var t := s.(writer := if e.terminal then Finished else Ready,
                  published := if e.number > 0 then e.number else s.published);
      if Subscribed(s) then t.(queue := Offer(s.queue, e), dropped := s.dropped || Drops(s, a)) else t
    case Erase => s.(erased := true, writer := Publishing(Event(0, true)))
    case Ask(over) => s.(conn := Asked(over))
    case Listen => s.(conn := Listening(s.conn.over), queue := [], heard := s.published, base := s.published)
    case ReadHistory(count, ok) =>
      var t := s.(sent := HistoryLines(count), last := count, read := count);
      if s.conn.over then t.(conn := Closed, sent := HistoryLines(count) + [Line(count, true)])
      else t.(conn := Live, live := true)
    case Receive =>
      var e := s.queue[0];
      Deliver(s.(queue := s.queue[1..], base := if e.number > 0 then e.number else s.base), e)
    case Leave => s.(conn := Closed)
  }

  datatype History = History(states: seq<State>, acts: seq<Action>)

  ghost predicate IsHistory(h: History) {
    && |h.states| == |h.acts| + 1
    && h.states[0] == START
    && forall i | 0 <= i < |h.acts| :: Enabled(h.states[i], h.acts[i]) && h.states[i + 1] == Apply(h.states[i], h.acts[i])
  }

  // ----- numbers never go back

  /** Each numbered event line is above all before it; a closing signal stands last and repeats the last number. */
  ghost predicate Rising(s: State) {
    && (forall i | 0 <= i < |s.sent| :: s.sent[i].number <= s.last)
    && (forall i | 0 <= i < |s.sent| && s.sent[i].signal ::
          i == |s.sent| - 1 && s.conn.Closed? && s.sent[i].number == s.last)
    && (forall i, j | 0 <= i < j < |s.sent| && !s.sent[j].signal && s.sent[j].number > 0 ::
          s.sent[i].number < s.sent[j].number)
    && (s.conn.Off? || s.conn.Asked? || s.conn.Listening? ==> s.sent == [] && s.last == 0)
  }

  lemma ReceiveKeepsRising(s: State)
    requires Rising(s) && Enabled(s, Receive)
    ensures Rising(Apply(s, Receive))
  {
    var t := Apply(s, Receive);
    assert forall i | 0 <= i < |s.sent| :: t.sent[i] == s.sent[i];
    hide Apply;
  }

  lemma HistoryKeepsRising(s: State, a: Action)
    requires Rising(s) && Enabled(s, a) && a.ReadHistory?
    ensures Rising(Apply(s, a))
  {
  }

  lemma StepKeepsRising(s: State, a: Action)
    requires Rising(s) && Enabled(s, a)
    ensures Rising(Apply(s, a))
  {
    if a.Receive? {
      ReceiveKeepsRising(s);
    } else if a.ReadHistory? {
      HistoryKeepsRising(s, a);
    } else {
      assert Apply(s, a).sent == s.sent && Apply(s, a).last == s.last;
    }
  }

  // ----- what is in the queue

  predicate WriterFits(s: State) {
    && s.published <= s.rows
    && (s.writer.Publishing? && s.writer.e.number > 0 ==> s.writer.e.number == s.rows == s.published + 1)
    && (s.writer.Publishing? && s.writer.e.number == 0 ==> s.writer.e.terminal)
    && (!s.writer.Publishing? || s.writer.e.number == 0 ==> s.published == s.rows)
    && (s.erased ==> !s.writer.Ready? && (s.writer.Publishing? ==> s.writer.e.number == 0))
  }

  /** The terminal event is out, or what is on its way has no row: no further number can be published. */
  predicate Spent(s: State) {
    s.writer.Finished? || (s.writer.Publishing? && s.writer.e.number == 0)
  }

  /** In every run: the numbers in the queue rise, and all are above those received. */
  ghost predicate QueueRises(s: State) {
    && s.heard <= s.base <= s.published
    && (forall i | 0 <= i < |s.queue| && s.queue[i].number > 0 :: s.base < s.queue[i].number <= s.published)
    && (forall i, j | 0 <= i < j < |s.queue| && s.queue[i].number > 0 && s.queue[j].number > 0 ::
          s.queue[i].number < s.queue[j].number)
  }

  /** Nothing dropped: the numbers from `base + 1` to `published`, and then only events without a row. */
  ghost predicate QueueFits(s: State) {
    && s.heard <= s.base <= s.published
    && |s.queue| >= s.published - s.base
    && (forall i | 0 <= i < s.published - s.base :: s.queue[i].number == s.base + 1 + i)
    && (forall i | s.published - s.base <= i < |s.queue| :: s.queue[i].number == 0 && s.queue[i].terminal)
    && (|s.queue| > s.published - s.base ==> Spent(s))
    && (forall i | 0 <= i < s.published - s.base && s.queue[i].terminal :: i == s.published - s.base - 1 && Spent(s))
  }

  /** The last number sent or read. */
  predicate LastFits(s: State) {
    && s.heard <= s.base
    && s.last == if s.base == s.heard then s.read else Max(s.read, s.base)
  }

  /**
   Nothing dropped: the history, and behind it the numbers after the larger of what was read and what had been
   published before; at the very end perhaps an event without a row.
   */
  ghost predicate LinesFit(s: State) {
    var m := Max(s.read, s.heard);
    && s.read <= |s.sent| && s.heard <= s.base
    && (forall i | 0 <= i < s.read :: s.sent[i] == Line(i + 1, false))
    && (forall i | s.read <= i < |s.sent| :: s.sent[i] == Line(m + 1 + i - s.read, false)
          || (s.sent[i] == Line(0, false) && i == |s.sent| - 1 && s.conn.Closed?))
    && (s.conn.Live? ==> |s.sent| == s.read + if s.base > m then s.base - m else 0)
  }

  ghost predicate Inv(s: State) {
    && Rising(s) && WriterFits(s) && s.read <= s.rows
    && (Subscribed(s) ==> QueueRises(s))
    && (s.live ==> s.conn.Live? || s.conn.Closed?)
    && (s.conn.Live? ==> s.live && LastFits(s))
    && (s.conn.Listening? ==> s.base == s.heard)
    && (!s.dropped && Subscribed(s) ==> QueueFits(s))
    && (!s.dropped && s.live ==> LinesFit(s))
  }

  lemma AppendKeepsInv(s: State, a: Action)
    requires Inv(s) && Enabled(s, a) && a.Append?
    ensures Inv(Apply(s, a))
  {
    StepKeepsRising(s, a);
    hide Rising;
  }

  lemma EraseKeepsInv(s: State)
    requires Inv(s) && Enabled(s, Erase)
    ensures Inv(Apply(s, Erase))
  {
    StepKeepsRising(s, Erase);
    hide Rising;
  }

  lemma PublishKeepsRise(s: State)
    requires Enabled(s, PublishEvent) && WriterFits(s) && Subscribed(s) && QueueRises(s)
    ensures QueueRises(Apply(s, PublishEvent))
  {
  }

  lemma PublishKeepsFit(s: State)
    requires Enabled(s, PublishEvent) && WriterFits(s) && Subscribed(s) && QueueFits(s) && !Drops(s, PublishEvent)
    ensures QueueFits(Apply(s, PublishEvent))
  {
  }

  lemma PublishKeepsInv(s: State)
    requires Inv(s) && Enabled(s, PublishEvent)
    ensures Inv(Apply(s, PublishEvent))
  {
    StepKeepsRising(s, PublishEvent);
    if Subscribed(s) {
      PublishKeepsRise(s);
      if !s.dropped && !Drops(s, PublishEvent) {
        PublishKeepsFit(s);
      }
    }
    hide Rising, QueueRises, QueueFits;
  }

  lemma ReceiveKeepsInv(s: State)
    requires Inv(s) && Enabled(s, Receive)
    ensures Inv(Apply(s, Receive))
  {
    ReceiveKeepsRising(s);
    hide Rising;
    if !s.dropped {
      ReceiveKeepsLines(s);
    }
  }

  lemma ReceiveKeepsQueue(s: State)
    requires Enabled(s, Receive) && QueueFits(s)
    ensures Subscribed(Apply(s, Receive)) ==> QueueFits(Apply(s, Receive))
    ensures var e := s.queue[0];
      if s.base < s.published then e.number == s.base + 1 else e.number == 0 && e.terminal
  {
  }

  lemma NewLine(s: State, line: Line)
    requires LinesFit(s) && s.conn.Live?
    ensures var m := Max(s.read, s.heard); var t := s.sent + [line];
      && (forall i | 0 <= i < s.read :: t[i] == Line(i + 1, false))
      && (forall i | s.read <= i < |s.sent| :: t[i] == Line(m + 1 + i - s.read, false))
  {
  }

  lemma ReceiveKeepsLines(s: State)
    requires Enabled(s, Receive) && WriterFits(s) && QueueFits(s) && LastFits(s) && LinesFit(s)
    ensures LinesFit(Apply(s, Receive))
    ensures Subscribed(Apply(s, Receive)) ==> QueueFits(Apply(s, Receive))
  {
    hide QueueFits, WriterFits;
    ReceiveKeepsQueue(s);
    NewLine(s, Line(s.queue[0].number, false));
  }

  lemma HistoryReadKeepsInv(s: State, a: Action)
    requires Inv(s) && Enabled(s, a) && a.ReadHistory?
    ensures Inv(Apply(s, a))
  {
    StepKeepsRising(s, a);
    hide Rising;
  }

  lemma RequestStepKeepsInv(s: State, a: Action)
    requires Inv(s) && Enabled(s, a) && (a.Ask? || a.Listen? || a.Leave?)
    ensures Inv(Apply(s, a))
  {
    StepKeepsRising(s, a);
    hide Rising;
  }

  lemma {:induction false} HistoryKeepsInv(h: History, i: nat)
    requires IsHistory(h) && i < |h.states|
    ensures Inv(h.states[i])
  {
    if i > 0 {
      HistoryKeepsInv(h, i - 1);
      var s, a := h.states[i - 1], h.acts[i - 1];
      assert Enabled(s, a) && h.states[i] == Apply(s, a);
      hide Inv, Apply, IsHistory;
      if a.Append? {
        AppendKeepsInv(s, a);
      } else if a.Erase? {
        EraseKeepsInv(s);
      } else if a.PublishEvent? {
        PublishKeepsInv(s);
      } else if a.Receive? {
        ReceiveKeepsInv(s);
      } else if a.ReadHistory? {
        HistoryReadKeepsInv(s, a);
      } else {
        RequestStepKeepsInv(s, a);
      }
    }
  }

  // ----- what a browser can rely on

  lemma StepOf(h: History, i: nat)
    requires IsHistory(h) && i < |h.acts|
    ensures Enabled(h.states[i], h.acts[i]) && h.states[i + 1] == Apply(h.states[i], h.acts[i])
  {
  }

  lemma HistoryHas(h: History)
    requires IsHistory(h)
    ensures |h.states| == |h.acts| + 1
  {
  }

  /** Whatever goes wrong, the numbers of the event lines strictly increase. */
  lemma NumbersIncrease(h: History, i: nat, j: nat, k: nat)
    requires IsHistory(h) && i < |h.states| && j < k < |h.states[i].sent|
    requires !h.states[i].sent[k].signal && h.states[i].sent[k].number > 0
    ensures !h.states[i].sent[j].signal && h.states[i].sent[j].number < h.states[i].sent[k].number
  {
    HistoryKeepsInv(h, i);
  }

  /** The connection listens at `l`, reads its history at `r` and goes on to the live events. */
  ghost predicate GoesLive(h: History, l: nat, r: nat) {
    && IsHistory(h) && l < r < |h.acts| && h.acts[l] == Listen
    && h.acts[r].ReadHistory? && h.states[r + 1].conn.Live?
  }

  lemma LiveParts(h: History, l: nat, r: nat)
    requires GoesLive(h, l, r)
    ensures IsHistory(h) && l < r < |h.acts| && h.acts[l] == Listen
    ensures h.acts[r].ReadHistory? && h.states[r + 1].conn.Live? && |h.states| == |h.acts| + 1
  {
  }

  /** No full buffer has dropped an event before state `j`. */
  ghost predicate NothingDropped(h: History, j: nat)
    requires j <= |h.acts| < |h.states|
  {
    forall k | 0 <= k < j :: !Drops(h.states[k], h.acts[k])
  }

  lemma {:induction false} DroppedMeaning(h: History, j: nat)
    requires IsHistory(h) && j <= |h.acts| && NothingDropped(h, j)
    ensures !h.states[j].dropped
  {
    if j > 0 {
      DroppedMeaning(h, j - 1);
      StepOf(h, j - 1);
    }
  }

  /** Once it listens, the book-keeping of the connection stands, and it does not begin again. */
  lemma StepKeepsHeard(s: State, a: Action)
    requires Enabled(s, a) && (Subscribed(s) || s.conn.Closed?)
    ensures Apply(s, a).heard == s.heard && (Subscribed(Apply(s, a)) || Apply(s, a).conn.Closed?)
    ensures s.live && (s.conn.Live? || s.conn.Closed?) ==>
      Apply(s, a).read == s.read && Apply(s, a).live && (Apply(s, a).conn.Live? || Apply(s, a).conn.Closed?)
  {
  }

  lemma {:induction false} HeardStays(h: History, l: nat, i: nat)
    requires IsHistory(h) && l < |h.acts| && h.acts[l] == Listen && l < i < |h.states|
    ensures h.states[i].heard == h.states[l].published
    ensures Subscribed(h.states[i]) || h.states[i].conn.Closed?
  {
    StepOf(h, i - 1);
    if i > l + 1 {
      hide Apply, Enabled;
      HeardStays(h, l, i - 1);
      StepKeepsHeard(h.states[i - 1], h.acts[i - 1]);
    }
  }

  lemma ReadSets(s: State, a: Action)
    requires Enabled(s, a) && a.ReadHistory? && Apply(s, a).conn.Live?
    ensures Apply(s, a).read == a.count && Apply(s, a).live
  {
  }

  lemma {:induction false} ReadStays(h: History, l: nat, r: nat, i: nat)
    requires GoesLive(h, l, r) && r < i < |h.states|
    ensures h.states[i].read == h.acts[r].count && h.states[i].live
    ensures h.states[i].conn.Live? || h.states[i].conn.Closed?
  {
    hide IsHistory, GoesLive, Apply, Enabled;
    LiveParts(h, l, r);
    StepOf(h, i - 1);
    if i == r + 1 {
      ReadSets(h.states[r], h.acts[r]);
    } else {
      ReadStays(h, l, r, i - 1);
      StepKeepsHeard(h.states[i - 1], h.acts[i - 1]);
    }
  }

  // ----- gaps

  /** The numbered event lines are 1, 2, … without a gap. */
  ghost predicate GapFree(s: State) {
    forall i | 0 <= i < |s.sent| && !s.sent[i].signal && s.sent[i].number > 0 :: s.sent[i].number == i + 1
  }

  ghost predicate NoNumberedFrom(s: State, count: nat) {
    forall i | count <= i < |s.sent| :: s.sent[i].number == 0
  }

  lemma LinesMeaning(s: State)
    requires LinesFit(s)
    ensures GapFree(s) <==> s.read >= s.heard || NoNumberedFrom(s, s.read)
  {
    var m := Max(s.read, s.heard);
    if s.read < s.heard && !NoNumberedFrom(s, s.read) {
      var i :| s.read <= i < |s.sent| && s.sent[i].number != 0;
      assert s.sent[i].number == m + 1 + i - s.read;
    }
  }

  /**
   Of a live connection that loses nothing to a full buffer: its lines are 1, 2, … without a gap if and only if
   the history it read reached up to what had been published when it began to listen, or nothing numbered has
   been sent since.
   */
  lemma GapFreeIff(h: History, l: nat, r: nat, i: nat)
    requires GoesLive(h, l, r) && r < i < |h.states| && NothingDropped(h, i)
    ensures GapFree(h.states[i])
      <==> h.acts[r].count >= h.states[l].published || NoNumberedFrom(h.states[i], h.acts[r].count)
  {
    hide GapFree, NoNumberedFrom, LinesFit;
    HistoryKeepsInv(h, i);
    DroppedMeaning(h, i);
    HeardStays(h, l, i);
    ReadStays(h, l, r, i);
    LinesMeaning(h.states[i]);
  }

  /** A history that is read whole, and not after a deletion, reaches that far. */
  lemma WholeHistoryReaches(h: History, l: nat, r: nat)
    requires GoesLive(h, l, r) && h.acts[r].ok && !h.states[r].erased
    ensures h.acts[r].count >= h.states[l].published
  {
    HistoryKeepsInv(h, r);
    HeardStays(h, l, r);
    StepOf(h, r);
  }

  /** And when all has been received, such a connection has sent every row. */
  lemma AllRowsAreSent(h: History, l: nat, r: nat, i: nat)
    requires GoesLive(h, l, r) && r < i < |h.states| && NothingDropped(h, i)
    requires h.acts[r].count >= h.states[l].published
    requires h.states[i].conn.Live? && h.states[i].queue == [] && !h.states[i].writer.Publishing?
    ensures h.states[i].last == h.states[i].rows == |h.states[i].sent|
  {
    HistoryKeepsInv(h, i);
    DroppedMeaning(h, i);
    HeardStays(h, l, i);
    ReadStays(h, l, r, i);
  }

  // ----- ends

  /** In every run: a terminal event ends the stream when it is received, unless its row was in the history. */
  lemma TerminalEndsIffNotInHistory(h: History, l: nat, r: nat, j: nat)
    requires GoesLive(h, l, r) && r < j < |h.acts| && h.acts[j] == Receive && h.states[j].queue != []
    requires h.states[j].queue[0].terminal
    ensures var n := h.states[j].queue[0].number;
      h.states[j + 1].conn.Closed? <==> n == 0 || n > h.acts[r].count
  {
    HistoryKeepsInv(h, j);
    ReadStays(h, l, r, j);
    StepOf(h, j);
  }

  /** A stream that ends so, and whose history reached far enough, has sent every row. */
  lemma TerminalEndsComplete(h: History, l: nat, r: nat, j: nat)
    requires GoesLive(h, l, r) && r < j < |h.acts| && h.acts[j] == Receive && h.states[j].queue != []
    requires h.states[j].queue[0].terminal && h.states[j + 1].conn.Closed? && NothingDropped(h, j)
    requires h.acts[r].count >= h.states[l].published
    ensures h.states[j + 1].last == h.states[j].rows
  {
    HistoryKeepsInv(h, j);
    DroppedMeaning(h, j);
    HeardStays(h, l, j);
    ReadStays(h, l, r, j);
    StepOf(h, j);
  }

  lemma QueueStep(s: State, a: Action, e: Event)
    requires Enabled(s, a)
    ensures e in Apply(s, a).queue ==> e in s.queue || (a == PublishEvent && s.writer.Publishing? && s.writer.e == e)
    ensures e in s.queue && e !in Apply(s, a).queue && (Subscribed(s) || s.conn.Closed?) ==>
      a == Receive && s.queue != [] && s.queue[0] == e
    ensures a == PublishEvent && Subscribed(s) && !Drops(s, a) ==> s.writer.e in Apply(s, a).queue
    ensures a == Listen ==> Apply(s, a).queue == []
  {
    if a == Receive {
      assert s.queue == [s.queue[0]] + s.queue[1..];
    }
  }

  /** What is in the queue has been published since the connection began to listen. */
  lemma {:induction false} QueuedWasPublished(h: History, l: nat, j: nat, e: Event) returns (p: nat)
    requires IsHistory(h) && l < |h.acts| && h.acts[l] == Listen && l < j < |h.states| && e in h.states[j].queue
    ensures l < p < j && h.acts[p] == PublishEvent && h.states[p].writer.Publishing? && h.states[p].writer.e == e
  {
    hide *;
    HistoryHas(h);
    StepOf(h, j - 1);
    QueueStep(h.states[j - 1], h.acts[j - 1], e);
    if j > l + 1 {
      if e in h.states[j - 1].queue {
        p := QueuedWasPublished(h, l, j - 1, e);
      } else {
        p := j - 1;
      }
    }
  }

  /** What is published without being dropped stays in the queue until it is received. */
  lemma {:induction false} PublishedIsReceived(h: History, l: nat, t: nat, i: nat) returns (j: nat)
    requires IsHistory(h) && l < t < |h.acts| && h.acts[l] == Listen && h.acts[t] == PublishEvent && t < i < |h.states|
    requires NothingDropped(h, i) && !h.states[t].conn.Closed? && h.states[t].writer.Publishing?
    requires h.states[t].writer.e !in h.states[i].queue
    ensures t < j < i && h.acts[j] == Receive && h.states[j].queue != [] && h.states[j].queue[0] == h.states[t].writer.e
  {
    hide IsHistory, Apply, Enabled;
    HistoryHas(h);
    var e := h.states[t].writer.e;
    StepOf(h, i - 1);
    HeardStays(h, l, t);
    QueueStep(h.states[i - 1], h.acts[i - 1], e);
    assert !Drops(h.states[t], h.acts[t]);
    if i > t + 1 {
      HeardStays(h, l, i - 1);
      if e in h.states[i - 1].queue {
        j := i - 1;
      } else {
        j := PublishedIsReceived(h, l, t, i - 1);
      }
    }
  }

  lemma {:induction false} ClosedStays(h: History, i: nat, j: nat)
    requires IsHistory(h) && i <= j < |h.states| && h.states[i].conn.Closed?
    ensures h.states[j].conn.Closed?
  {
    if i < j {
      ClosedStays(h, i, j - 1);
      StepOf(h, j - 1);
    }
  }

  /** After a terminal event only events without a row are published. */
  lemma {:induction false} TerminalIsLast(h: History, p: nat, t: nat)
    requires IsHistory(h) && p < t < |h.acts| && h.acts[p] == PublishEvent && h.acts[t] == PublishEvent
    requires h.states[p].writer.Publishing? && h.states[p].writer.e.terminal
    ensures h.states[t].writer.Publishing? && h.states[t].writer.e.number == 0
  {
    StepOf(h, p);
    StepOf(h, t);
    OverStays(h, p + 1, t);
  }

  /** Only what has no row can still come. */
  predicate Over(s: State) {
    s.writer.Finished? || (s.writer.Publishing? && s.writer.e == Event(0, true))
  }

  lemma StepKeepsOver(s: State, a: Action)
    requires Enabled(s, a) && Over(s)
    ensures Over(Apply(s, a))
  {
  }

  lemma {:induction false} OverStays(h: History, i: nat, j: nat)
    requires IsHistory(h) && i <= j < |h.states| && Over(h.states[i])
    ensures Over(h.states[j])
  {
    HistoryHas(h);
    hide IsHistory, Apply, Enabled, Over;
    if i < j {
      OverStays(h, i, j - 1);
      StepOf(h, j - 1);
      StepKeepsOver(h.states[j - 1], h.acts[j - 1]);
    }
  }

  /** The last terminal event is published at `t`, and what the connection has been offered it has received. */
  ghost predicate Drained(h: History, l: nat, r: nat, t: nat, i: nat) {
    && GoesLive(h, l, r) && r < i < |h.states| && t < i && NothingDropped(h, i)
    && h.acts[t] == PublishEvent && h.states[t].writer.Publishing? && h.states[t].writer.e.terminal
    && (forall k | t < k < i :: h.acts[k] != PublishEvent)
    && (forall k | 0 <= k < i :: h.acts[k] != Leave)
    && (h.states[i].conn.Live? ==> h.states[i].queue == [])
  }

  /** The terminal event came before the connection listened, or its row was in the history. */
  ghost predicate PassedOver(h: History, l: nat, r: nat, t: nat)
    requires l < |h.acts| && r < |h.acts| && t < |h.states| && h.acts[r].ReadHistory? && h.states[t].writer.Publishing?
  {
    t < l || 0 < h.states[t].writer.e.number <= h.acts[r].count
  }

  lemma OpenWasPassedOver(h: History, l: nat, r: nat, t: nat, i: nat)
    requires Drained(h, l, r, t, i) && h.states[i].conn.Live?
    ensures PassedOver(h, l, r, t)
  {
    if t > l {
      if h.states[t].conn.Closed? {
        ClosedStays(h, t, i);
      }
      var j := PublishedIsReceived(h, l, t, i);
      StepOf(h, j);
      BeforeLive(h, l, r, j);
      TerminalEndsIffNotInHistory(h, l, r, j);
      if h.states[j + 1].conn.Closed? {
        ClosedStays(h, j + 1, i);
      }
    }
  }

  /** Nothing is received before the history is read. */
  lemma {:induction false} BeforeLive(h: History, l: nat, r: nat, j: nat)
    requires GoesLive(h, l, r) && j < |h.acts| && h.acts[j] == Receive
    ensures r < j
  {
    StepOf(h, r);
    StepOf(h, j);
    if j <= r {
      LiveStays(h, j, r);
    }
  }

  lemma StaysLive(s: State, a: Action)
    requires Enabled(s, a) && (s.conn.Live? || s.conn.Closed?)
    ensures Apply(s, a).conn.Live? || Apply(s, a).conn.Closed?
    ensures s.conn.Live? && a != Leave && !Apply(s, a).conn.Live? ==> a == Receive && s.queue != [] && s.queue[0].terminal
  {
  }

  lemma {:induction false} LiveStays(h: History, j: nat, r: nat)
    requires IsHistory(h) && j <= r < |h.states| && h.states[j].conn.Live?
    ensures h.states[r].conn.Live? || h.states[r].conn.Closed?
  {
    hide *;
    HistoryHas(h);
    if j < r {
      LiveStays(h, j, r - 1);
      StepOf(h, r - 1);
      StaysLive(h.states[r - 1], h.acts[r - 1]);
    }
  }

  lemma {:induction false} PassedOverStaysOpen(h: History, l: nat, r: nat, t: nat, i: nat, m: nat)
    requires Drained(h, l, r, t, i) && PassedOver(h, l, r, t) && r < m <= i
    ensures h.states[m].conn.Live?
  {
    hide IsHistory, Apply, Enabled, NothingDropped;
    HistoryHas(h);
    StepOf(h, m - 1);
    if m > r + 1 {
      PassedOverStaysOpen(h, l, r, t, i, m - 1);
      assert h.acts[m - 1] != Leave;
      if !h.states[m].conn.Live? {
        StaysLive(h.states[m - 1], h.acts[m - 1]);
        TerminalEndsIffNotInHistory(h, l, r, m - 1);
        var p := QueuedWasPublished(h, l, m - 1, h.states[m - 1].queue[0]);
        EarlierTerminal(h, p, t);
      }
    }
  }

  lemma EarlierTerminal(h: History, p: nat, t: nat)
    requires IsHistory(h) && p < |h.acts| && t < |h.acts| && h.acts[p] == PublishEvent && h.acts[t] == PublishEvent
    requires h.states[p].writer.Publishing? && h.states[p].writer.e.terminal
    ensures p < t ==> h.states[t].writer.Publishing? && h.states[t].writer.e.number == 0
  {
    if p < t {
      TerminalIsLast(h, p, t);
    }
  }

  /**
   A live connection that loses nothing and is not left: when the run has published its terminal event and all
   has been received, the stream is still open if and only if that event was passed over.
   */
  lemma StaysOpenIff(h: History, l: nat, r: nat, t: nat, i: nat)
    requires Drained(h, l, r, t, i)
    ensures h.states[i].conn.Live? <==> PassedOver(h, l, r, t)
  {
    if h.states[i].conn.Live? {
      OpenWasPassedOver(h, l, r, t, i);
    }
    if PassedOver(h, l, r, t) {
      PassedOverStaysOpen(h, l, r, t, i, i);
    }
  }

  /** Nothing is coming any more, but the handler waits. */
  predicate Forgotten(s: State) {
    s.conn.Live? && s.queue == [] && s.writer.Finished?
  }

  /** From there only the browser or the deletion of the run can do anything. */
  lemma ForgottenWaits(s: State, a: Action)
    requires Forgotten(s)
    ensures Enabled(s, a) <==> a == Leave || (a == Erase && !s.erased)
  {
  }

  lemma OneMoreStep(h: History, a: Action) returns (longer: History)
    requires IsHistory(h) && |h.states| == |h.acts| + 1 && Enabled(h.states[|h.acts|], a)
    ensures IsHistory(longer) && |longer.states| == |longer.acts| + 1 && longer.acts == h.acts + [a]
    ensures longer.states == h.states + [Apply(h.states[|h.acts|], a)]
  {
    hide Enabled, Apply;
    var last := h.states[|h.acts|];
    longer := History(h.states + [Apply(last, a)], h.acts + [a]);
  }

  lemma FirstState()
    ensures IsHistory(History([START], []))
  {
  }

  /** It does come to that: the status is read, then the run ends, then the history is read. */
  lemma ForgottenIsReached() returns (h: History)
    ensures GoesLive(h, 1, 4) && |h.acts| == 6 && NothingDropped(h, 6) && Forgotten(h.states[6])
  {
    hide IsHistory;
    FirstState();
    var h1 := OneMoreStep(History([START], []), Ask(false));
    var h2 := OneMoreStep(h1, Listen);
    var h3 := OneMoreStep(h2, Append(true, true));
    var h4 := OneMoreStep(h3, PublishEvent);
    var h5 := OneMoreStep(h4, ReadHistory(1, true));
    h := OneMoreStep(h5, Receive);
    assert h.acts == [Ask(false), Listen, Append(true, true), PublishEvent, ReadHistory(1, true), Receive];
    assert h.states[3] == h4.states[3] && |h4.states[3].queue| == 0;
  }

  /**
   A gap does arise, though the read succeeds and nothing is dropped: what was published before the connection
   listened is gone with the deleted run, and what came later is sent.
   */
  lemma DeletedHistoryLeavesAGap() returns (h: History)
    ensures IsHistory(h) && |h.acts| == 9 && h.states[9].sent == [Line(2, false)] && !h.states[9].dropped
    ensures h.acts[7] == ReadHistory(0, true) && !GapFree(h.states[9])
  {
    hide IsHistory, Inv, QueueFits;
    FirstState();
    h := OneMoreStep(History([START], []), Append(false, true));
    h := OneMoreStep(h, PublishEvent);
    h := OneMoreStep(h, Ask(false));
    h := OneMoreStep(h, Listen);
    h := OneMoreStep(h, Append(true, true));
    h := OneMoreStep(h, PublishEvent);
    h := OneMoreStep(h, Erase);
    h := OneMoreStep(h, ReadHistory(0, true));
    h := OneMoreStep(h, Receive);
    assert h.states[9].sent[0] == Line(2, false);
  }

  // ----- runs that were over

  /** The status the handler acts on is the one that it read. */
  lemma {:induction false} StatusWasRead(h: History, i: nat) returns (j: nat)
    requires IsHistory(h) && i < |h.states| && (h.states[i].conn.Asked? || h.states[i].conn.Listening?)
    ensures j < i <= |h.acts| && h.acts[j] == Ask(h.states[i].conn.over)
  {
    HistoryHas(h);
    StepOf(h, i - 1);
    StatusComesFrom(h.states[i - 1], h.acts[i - 1]);
    hide IsHistory, Apply, Enabled;
    if h.acts[i - 1].Ask? {
      j := i - 1;
    } else {
      j := StatusWasRead(h, i - 1);
    }
  }

  lemma StatusComesFrom(s: State, a: Action)
    requires Enabled(s, a) && (Apply(s, a).conn.Asked? || Apply(s, a).conn.Listening?)
    ensures a == Ask(Apply(s, a).conn.over)
      || ((s.conn.Asked? || s.conn.Listening?) && s.conn.over == Apply(s, a).conn.over && !a.Ask?)
  {
  }

  lemma ClosedSendsNothing(s: State, a: Action)
    requires Enabled(s, a) && s.conn.Closed?
    ensures Apply(s, a).conn.Closed? && Apply(s, a).sent == s.sent
  {
  }

  /** The connection of a run that was over gets the history and the closing signal, and nothing else. */
  lemma {:induction false} FinishedRunIsSignalled(h: History, r: nat, i: nat)
    requires IsHistory(h) && r < |h.acts| && h.acts[r].ReadHistory? && r < i < |h.states|
    ensures h.states[r].conn.Listening?
    ensures h.states[r].conn.over ==>
      && h.states[i].conn.Closed?
      && h.states[i].sent == HistoryLines(h.acts[r].count) + [Line(h.acts[r].count, true)]
    ensures !h.states[r].conn.over ==> h.states[r + 1].conn.Live?
    decreases i
  {
    HistoryHas(h);
    StepOf(h, r);
    StepOf(h, i - 1);
    if i > r + 1 && h.states[r].conn.over {
      hide IsHistory, HistoryLines;
      FinishedRunIsSignalled(h, r, i - 1);
      ClosedSendsNothing(h.states[i - 1], h.acts[i - 1]);
    }
  }

  // ----- the handler

  /** What the live loop sends from the events it takes off the channel; `ended` is its return at a terminal event. */
  function Relay(last: nat, events: seq<Event>): (r: (seq<Line>, nat, bool))
    ensures r.1 >= last
    decreases |events|
  {
    if events == [] then ([], last, false)
    else
      var (lines, l, ended) := Relay(last, events[..|events| - 1]);
      var e := events[|events| - 1];
      if ended || Repeats(e, l) then (lines, l, ended)
      else (lines + [Line(e.number, false)], if e.number > l then e.number else l, e.terminal)
  }

  /** The events the connection has taken off the channel after state `r`. */
  function Received(h: History, r: nat, i: nat): seq<Event>
    requires i <= |h.acts| < |h.states|
    decreases i
  {
    if i <= r then []
    else if h.acts[i - 1] == Receive && h.states[i - 1].queue != [] then
      Received(h, r, i - 1) + [h.states[i - 1].queue[0]]
    else Received(h, r, i - 1)
  }

  lemma RelayOneMore(last: nat, events: seq<Event>, e: Event)
    ensures var x, y := Relay(last, events), Relay(last, events + [e]);
      if x.2 || Repeats(e, x.1) then y == x
      else y == (x.0 + [Line(e.number, false)], if e.number > x.1 then e.number else x.1, e.terminal)
  {
    var all := events + [e];
    assert all[..|all| - 1] == events && all[|all| - 1] == e;
  }

  /** The connection has sent the history and what `Relay` sends of the events. */
  ghost predicate HasRelayed(s: State, count: nat, events: seq<Event>) {
    var x := Relay(count, events);
    && s.sent == HistoryLines(count) + x.0 && s.last == x.1
    && (x.2 ==> s.conn.Closed?)
  }

  lemma HistoryIsRelayed(s: State, a: Action)
    requires Enabled(s, a) && a.ReadHistory? && Apply(s, a).conn.Live?
    ensures HasRelayed(Apply(s, a), a.count, [])
  {
    assert HistoryLines(a.count) + [] == HistoryLines(a.count);
  }

  lemma ReceivedIsRelayed(s: State, count: nat, events: seq<Event>)
    requires Enabled(s, Receive) && HasRelayed(s, count, events)
    ensures HasRelayed(Apply(s, Receive), count, events + [s.queue[0]])
  {
    var e, x := s.queue[0], Relay(count, events);
    RelayOneMore(count, events, e);
    assert (HistoryLines(count) + x.0) + [Line(e.number, false)] == HistoryLines(count) + (x.0 + [Line(e.number, false)]);
    hide Relay, HistoryLines;
  }

  lemma OthersRelayNothing(s: State, a: Action, count: nat, events: seq<Event>)
    requires Enabled(s, a) && a != Receive && (s.conn.Live? || s.conn.Closed?) && HasRelayed(s, count, events)
    ensures HasRelayed(Apply(s, a), count, events)
  {
    hide Relay, HistoryLines;
  }

  lemma ReceivedStep(h: History, r: nat, i: nat)
    requires IsHistory(h) && 0 < i <= |h.acts| < |h.states|
    ensures i <= r ==> Received(h, r, i) == []
    ensures i > r && h.acts[i - 1] != Receive ==> Received(h, r, i) == Received(h, r, i - 1)
    ensures i > r && h.acts[i - 1] == Receive ==>
      h.states[i - 1].queue != [] && Received(h, r, i) == Received(h, r, i - 1) + [h.states[i - 1].queue[0]]
  {
    StepOf(h, i - 1);
  }

  /** What `Relay` does to what a connection has received is what the connection has done, in every history. */
  lemma {:induction false} RunSendsTheRelay(h: History, l: nat, r: nat, i: nat)
    requires GoesLive(h, l, r) && r < i < |h.states|
    ensures i <= |h.acts| < |h.states|
    ensures HasRelayed(h.states[i], h.acts[r].count, Received(h, r + 1, i))
    decreases i
  {
    hide *;
    LiveParts(h, l, r);
    StepOf(h, i - 1);
    ReceivedStep(h, r + 1, i);
    var s, a := h.states[i - 1], h.acts[i - 1];
    if i == r + 1 {
      HistoryIsRelayed(s, a);
    } else {
      RunSendsTheRelay(h, l, r, i - 1);
      if a == Receive {
        ReceivedIsRelayed(s, h.acts[r].count, Received(h, r + 1, i - 1));
      } else {
        ReadStays(h, l, r, i - 1);
        OthersRelayNothing(s, a, h.acts[r].count, Received(h, r + 1, i - 1));
      }
    }
  }

  /**
   `runEvents`: the history in a loop, the closing signal of a finished run, else the live events in a loop. With
   what a connection of a history has received it sends what that connection has sent (`RunSendsTheRelay`).
   */
  method RunEvents(over: bool, history: seq<nat>, events: seq<Event>) returns (sent: seq<Line>, last: nat, ended: bool)
    requires forall i | 0 <= i < |history| :: history[i] == i + 1
    ensures over ==> sent == HistoryLines(|history|) + [Line(|history|, true)] && last == |history| && ended
    ensures !over ==> var live := Relay(|history|, events);
      sent == HistoryLines(|history|) + live.0 && last == live.1 && ended == live.2
  {
    sent, last, ended := [], 0, false;
    for i := 0 to |history|
      invariant sent == HistoryLines(i) && last == i
    {
      sent := sent + [Line(history[i], false)];
      last := history[i];
    }
    if over {
      sent := sent + [Line(last, true)];
      ended := true;
      return;
    }
    ghost var live: seq<Line> := [];
    for i := 0 to |events|
      invariant !ended && sent == HistoryLines(|history|) + live
      invariant Relay(|history|, events[..i]) == (live, last, false)
    {
      var e := events[i];
      assert events[..i + 1][..i] == events[..i];
      if e.number > 0 && e.number <= last {
        continue;
      }
      if e.number > last {
        last := e.number;
      }
      sent := sent + [Line(e.number, false)];
      live := live + [Line(e.number, false)];
      if e.terminal {
        RelayStops(|history|, events, i + 1);
        ended := true;
        return;
      }
    }
    assert events[..|events|] == events;
  }

  /** After a terminal event nothing more is sent. */
  lemma {:induction false} RelayStops(last: nat, events: seq<Event>, n: nat)
    requires n <= |events| && Relay(last, events[..n]).2
    ensures Relay(last, events) == Relay(last, events[..n])
    decreases |events|
  {
    if n == |events| {
      assert events[..n] == events;
    } else {
      var shorter := events[..|events| - 1];
      assert shorter[..n] == events[..n];
      RelayStops(last, shorter, n);
    }
  }
}
