/** The notifier over whole lives: subscriptions that die and are restarted, a process that crashes, batches cut
    off part way, and redelivery after the last committed ack (`Run` and `Subscription` in
    macos/notifier/main.swift, over the consumer of [`StreamConsumer`]). */
module NotifierRuns {
  import opened Wrappers
  import opened Notices
  import SC = StreamConsumer

  /** Seconds. */
  const MAX_BACKOFF: int := 30

  /** A row of the queue; the row at position `i` has seq `i + 1`. */
  datatype Row = Readable(action: Option<Action>) | Corrupt

  type Log = seq<Row>

  /** The messages among rows `lo` to `hi`. */
  function Messages(log: Log, lo: nat, hi: nat): seq<Message>
    requires lo <= hi <= |log|
    decreases hi
  {
    if lo == hi then []
    else Messages(log, lo, hi - 1) + if log[hi - 1].Readable? then [Message(hi, log[hi - 1].action)] else []
  }

  /** What is shown for `id` once the first `k` rows have each been applied once, in order, to an empty screen. */
  function ValueAt(log: Log, k: nat, id: Id): Option<Note>
    requires k <= |log|
  {
    var last := LastFor(Messages(log, 0, k), id);
    if last.Some? then After(last.value) else None
  }

  /** One subscription: its consumer, the rows it was handed (`start` to `delivered`), those of completed batches
      (to `done`) and of the batch on screen (to `flight`), which of that batch's actions have reached the screen,
      the acks it sent, and the end signals that have arrived. */
  datatype Run = Run(
    core: SC.Core, start: nat, done: nat, flight: nat, delivered: nat, shown: set<nat>, sent: set<nat>,
    exited: bool, eof: bool, errEof: bool, finishing: bool)

  /** An action the display's deadline overtook: its batch, of the rows up to `upTo`, was completed before it was handed
      over. */
  datatype Late = Late(action: Action, upTo: nat)

  /** `polls` and `starts` are the main queue's timers: a wait for a run's last batch, a delayed start. `scheduled`
      counts the starts this process scheduled, `delay` is the last one's. `late` actions may still land; `at` says
      after how many rows the action that last landed for an id leaves it. */
  datatype State = State(
    log: Log, committed: nat, screen: Screen, runs: seq<Run>, polls: multiset<nat>, starts: nat, scheduled: nat,
    backoff: int, delay: int, failures: nat, late: multiset<Late>, at: map<Id, nat>)

  datatype Signal = Exit | StdoutEof | StderrEof

  datatype Handed = NextRow | BurstEnd | Noise

  datatype Event =
    | Append(row: Row)
    | Launch(ok: bool)
    | Signalled(r: nat, signal: Signal, lasted: bool)
    | Poll(r: nat, lasted: bool)
    | Minute(r: nat)
    | Receive(r: nat, handed: Handed)
    | Show(r: nat, i: nat)
    | Complete(r: nat)
    | Deadline(r: nat)
    | Lands(late: Late)
    | Commit(r: nat, k: nat)
    | Crash

  predicate Busy(run: Run) {
    SC.Busy(run.core)
  }

  predicate AllSignals(run: Run) {
    run.exited && run.eof && run.errEof
  }

  // ---------------------------------------------------------------------------------------
  // The supervisor
  // ---------------------------------------------------------------------------------------

  /** With nothing of the run on screen, set the timer for the next start; else the one to look again. */
  function RestartWhenIdle(s: State, r: nat, lasted: bool): State
    requires r < |s.runs|
  {
    if Busy(s.runs[r]) then s.(polls := s.polls + multiset{r})
    else
      var delay := if lasted then 1 else s.backoff;
      s.(delay := delay, backoff := if 2 * delay < MAX_BACKOFF then 2 * delay else MAX_BACKOFF,
         failures := (if lasted then 0 else s.failures) + 1, starts := s.starts + 1, scheduled := s.scheduled + 1)
  }

  /** Called on each end signal; acts once, when all have arrived. */
  function Finish(s: State, r: nat, lasted: bool): State
    requires r < |s.runs|
  {
    var run := s.runs[r];
    if AllSignals(run) && !run.finishing
    then RestartWhenIdle(s.(runs := s.runs[r := run.(finishing := true)]), r, lasted)
    else s
  }

  function NewRun(committed: nat, launched: bool): Run {
    Run(SC.IDLE, committed, committed, committed, committed, {}, {}, !launched, !launched, !launched, false)
  }

  function WithSignal(run: Run, signal: Signal): Run {
    match signal
    case Exit => run.(exited := true)
    case StdoutEof => run.(eof := true)
    case StderrEof => run.(errEof := true)
  }

  // ---------------------------------------------------------------------------------------
  // The consumer inside a run
  // ---------------------------------------------------------------------------------------

  /** The consumer became `core`; a batch it started covers everything delivered. */
  function Moved(run: Run, core: SC.Core): Run {
    if run.core.showing.None? && core.showing.Some?
    then run.(core := core, flight := run.delivered, shown := {})
    else run.(core := core)
  }

  function RowEvent(log: Log, i: nat): SC.Event
    requires i < |log|
  {
    if log[i].Readable? then SC.MessageEvent(Message(i + 1, log[i].action)) else SC.Unreadable(Some(i + 1))
  }

  function Received(log: Log, run: Run, handed: Handed): Run
    requires handed.NextRow? ==> run.delivered < |log|
  {
    match handed
    case NextRow => Moved(run.(delivered := run.delivered + 1), SC.Handled(run.core, RowEvent(log, run.delivered)))
    case BurstEnd => Moved(run, SC.Handled(run.core, SC.CaughtUp))
    case Noise => Moved(run, SC.Handled(run.core, SC.Other))
  }

  /** The display finished the batch: its last row is acked, and a burst that ended meanwhile is started. */
  function Displayed(run: Run): Run
    requires Busy(run)
  {
    var core := SC.Completed(run.core);
    var next := run.(core := core, done := run.flight, sent := run.sent + {run.flight}, shown := {});
    if core.showing.Some? then next.(flight := run.delivered) else next
  }

  /** The actions of a batch that were not handed over. */
  function Unshown(batch: seq<Action>, shown: set<nat>, upTo: nat): multiset<Late> {
    if batch == [] then multiset{}
    else
      var last := |batch| - 1;
      Unshown(batch[..last], shown, upTo) + if last in shown then multiset{} else multiset{Late(batch[last], upTo)}
  }

  function Overtaken(run: Run): multiset<Late>
    requires Busy(run)
  {
    Unshown(run.core.showing.value.batch, run.shown, run.flight)
  }

  // ---------------------------------------------------------------------------------------
  // Steps
  // ---------------------------------------------------------------------------------------

  ghost predicate Init(s: State) {
    s == State([], 0, map[], [], multiset{}, 1, 0, 1, 1, 0, multiset{}, map[])
  }

  ghost predicate Step(s: State, ev: Event, s': State) {
    match ev
    case Append(row) => s' == s.(log := s.log + [row])
    case Launch(ok) =>
      && s.starts > 0
      && var t := s.(starts := s.starts - 1, runs := s.runs + [NewRun(s.committed, ok)]);
         s' == if ok then t else Finish(t, |s.runs|, false)
    case Signalled(r, signal, lasted) =>
      r < |s.runs| && s' == Finish(s.(runs := s.runs[r := WithSignal(s.runs[r], signal)]), r, lasted)
    case Poll(r, lasted) =>
      r in s.polls && r < |s.runs| && s' == RestartWhenIdle(s.(polls := s.polls - multiset{r}), r, lasted)
    case Minute(r) =>
      r < |s.runs| && !s.runs[r].exited && s.failures > 0 && s' == s.(failures := 0, backoff := 1)
    // Bytes queued before the EOF are handled before it.
    case Receive(r, handed) =>
      && r < |s.runs| && !s.runs[r].eof
      && (handed.NextRow? ==> s.runs[r].delivered < |s.log|)
      && s' == s.(runs := s.runs[r := Received(s.log, s.runs[r], handed)])
    // The display hands a batch's actions over in any order, and may be cut off between any two.
    case Show(r, i) =>
      && r < |s.runs| && Busy(s.runs[r]) && i < |s.runs[r].core.showing.value.batch|
      && s' == s.(screen := Apply(s.screen, s.runs[r].core.showing.value.batch[i]),
                  runs := s.runs[r := s.runs[r].(shown := s.runs[r].shown + {i})],
                  at := s.at[IdOf(s.runs[r].core.showing.value.batch[i]) := s.runs[r].flight])
    case Complete(r) =>
      && r < |s.runs| && Busy(s.runs[r])
      && (forall i: nat :: i < |s.runs[r].core.showing.value.batch| ==> i in s.runs[r].shown)
      && s' == s.(runs := s.runs[r := Displayed(s.runs[r])])
    // The notification centre did not answer in time: the batch is acked anyway, and the rest of it may follow.
    case Deadline(r) =>
      && r < |s.runs| && Busy(s.runs[r])
      && s' == s.(runs := s.runs[r := Displayed(s.runs[r])], late := s.late + Overtaken(s.runs[r]))
    case Lands(l) =>
      && l in s.late
      && s' == s.(screen := Apply(s.screen, l.action), late := s.late - multiset{l},
                  at := s.at[IdOf(l.action) := l.upTo])
    // The subscription commits an ack it was sent, or never does; a dead one does not.
    case Commit(r, k) =>
      && r < |s.runs| && !s.runs[r].exited && k in s.runs[r].sent
      && s' == s.(committed := if k > s.committed then k else s.committed)
    // The notifier itself dies and is started again.
    case Crash =>
      s' == s.(runs := [], polls := multiset{}, starts := 1, scheduled := 0, backoff := 1, delay := 1, failures := 0,
               late := multiset{})
  }

  // ---------------------------------------------------------------------------------------
  // The invariant
  // ---------------------------------------------------------------------------------------

  /** The consumer holds exactly the rows delivered and not yet displayed. */
  predicate ConsumerOk(log: Log, run: Run) {
    && run.start <= run.done <= run.flight <= run.delivered <= |log|
    && run.core.pending == Messages(log, run.flight, run.delivered)
    && run.core.pendingSeq == (if run.flight < run.delivered then Some(run.delivered) else None)
    && (run.core.showing.None? ==> run.flight == run.done)
    && (run.core.showing.Some? ==>
          && run.done < run.flight
          && run.core.showing.value == SC.Showing(FoldOf(Messages(log, run.done, run.flight)), run.flight))
    && (run.core.showing.Some? ==> forall i :: i in run.shown ==> i < |run.core.showing.value.batch|)
    && (forall k :: k in run.sent ==> k <= run.done)
  }

  /** A run that is over: all signals in, nothing on screen, so nothing left that could put anything there. */
  predicate Over(run: Run) {
    run.finishing && AllSignals(run) && !Busy(run)
  }

  /** One run at a time, and one timer at most, exactly when the last run has ended or none was started. */
  predicate OneAtATime(s: State) {
    && (forall r :: 0 <= r < |s.runs| - 1 ==> Over(s.runs[r]))
    && s.scheduled + 1 == |s.runs| + s.starts
    && (if s.runs == [] then s.polls == multiset{} && s.starts == 1
        else
          var last := s.runs[|s.runs| - 1];
          && (last.finishing <==> AllSignals(last))
          && (!last.finishing ==> s.polls == multiset{} && s.starts == 0)
          && (last.finishing ==>
                || (s.polls == multiset{|s.runs| - 1} && s.starts == 0)
                || (s.polls == multiset{} && s.starts == 1 && !Busy(last))))
  }

  /** Everything up to here has been on screen in the current run. */
  function Floor(s: State): nat {
    if s.runs == [] then s.committed else s.runs[|s.runs| - 1].done
  }

  function At(s: State, id: Id): nat {
    if id in s.at then s.at[id] else 0
  }

  /** Each id shows what the action that last landed for it leaves, which is what some prefix of the log leaves. */
  ghost predicate Traced(s: State, id: Id) {
    At(s, id) <= |s.log| && Shown(s.screen, id) == ValueAt(s.log, At(s, id), id)
  }

  predicate LateOk(log: Log, l: Late) {
    l.upTo <= |log| && After(l.action) == ValueAt(log, l.upTo, IdOf(l.action))
  }

  predicate BackoffOk(s: State) {
    1 <= s.backoff <= MAX_BACKOFF && 1 <= s.delay <= MAX_BACKOFF
  }

  ghost predicate Inv(s: State) {
    && OneAtATime(s)
    && BackoffOk(s)
    && (forall r :: 0 <= r < |s.runs| ==> ConsumerOk(s.log, s.runs[r]))
    && s.committed <= Floor(s) <= |s.log|
    && (forall id :: Traced(s, id))
    && (forall l :: l in s.late ==> LateOk(s.log, l))
  }

  // ---------------------------------------------------------------------------------------
  // Rows and messages
  // ---------------------------------------------------------------------------------------

  lemma {:induction false} MessagesConcat(log: Log, a: nat, b: nat, c: nat)
    requires a <= b <= c <= |log|
    ensures Messages(log, a, c) == Messages(log, a, b) + Messages(log, b, c)
  {
    if b < c {
      MessagesConcat(log, a, b, c - 1);
    }
  }

  lemma {:induction false} MessagesGrow(log: Log, row: Row, lo: nat, hi: nat)
    requires lo <= hi <= |log|
    ensures Messages(log + [row], lo, hi) == Messages(log, lo, hi)
  {
    if lo < hi {
      MessagesGrow(log, row, lo, hi - 1);
    }
  }

  /** Rows `done` to `flight` decide what an id shows at `flight`; an id they do not name shows what it did. */
  lemma BatchDecides(log: Log, done: nat, flight: nat, id: Id)
    requires done <= flight <= |log|
    ensures var last := LastFor(Messages(log, done, flight), id);
            && (last.Some? ==> ValueAt(log, flight, id) == After(last.value))
            && (last.None? ==> forall k: nat :: done <= k <= flight ==> ValueAt(log, k, id) == ValueAt(log, flight, id))
  {
    MessagesConcat(log, 0, done, flight);
    LastForConcat(Messages(log, 0, done), Messages(log, done, flight), id);
    if LastFor(Messages(log, done, flight), id).None? {
      forall k: nat | done <= k <= flight ensures ValueAt(log, k, id) == ValueAt(log, flight, id) {
        MessagesConcat(log, done, k, flight);
        MessagesConcat(log, 0, done, k);
        LastForConcat(Messages(log, done, k), Messages(log, k, flight), id);
        LastForConcat(Messages(log, 0, done), Messages(log, done, k), id);
      }
    }
  }

  // ---------------------------------------------------------------------------------------
  // Every step keeps it
  // ---------------------------------------------------------------------------------------

  lemma AppendKeeps(s: State, row: Row, s': State)
    requires Inv(s) && Step(s, Append(row), s')
    ensures Inv(s')
  {
    hide FoldOf;
    forall r | 0 <= r < |s.runs| ensures ConsumerOk(s'.log, s.runs[r]) {
      var run := s.runs[r];
      MessagesGrow(s.log, row, run.flight, run.delivered);
      MessagesGrow(s.log, row, run.done, run.flight);
    }
    forall id
      ensures Traced(s', id)
    {
      assert Traced(s, id);
      MessagesGrow(s.log, row, 0, At(s, id));
    }
    forall l | l in s'.late
      ensures LateOk(s'.log, l)
    {
      assert LateOk(s.log, l);
      MessagesGrow(s.log, row, 0, l.upTo);
    }
  }

  /** Nothing the screen rests on changed. */
  lemma SameScreen(s: State, s': State)
    requires forall id :: Traced(s, id)
    requires s'.log == s.log && s'.screen == s.screen && s'.at == s.at
    ensures forall id :: Traced(s', id)
  {
    forall id
      ensures Traced(s', id)
    {
      assert Traced(s, id);
    }
  }

  /** Supervising a run does not touch its consumer. */
  predicate SameConsumers(s: State, s': State) {
    && s'.log == s.log && s'.committed == s.committed && s'.screen == s.screen && |s'.runs| == |s.runs|
    && s'.late == s.late && s'.at == s.at
    && forall r :: 0 <= r < |s.runs| ==>
         s'.runs[r] == s.runs[r].(exited := s'.runs[r].exited, eof := s'.runs[r].eof, errEof := s'.runs[r].errEof,
                                  finishing := s'.runs[r].finishing)
  }

  lemma SameConsumersKeep(s: State, s': State)
    requires Inv(s) && SameConsumers(s, s') && OneAtATime(s') && BackoffOk(s')
    ensures Inv(s')
  {
    forall r | 0 <= r < |s'.runs| ensures ConsumerOk(s'.log, s'.runs[r]) {
      assert ConsumerOk(s.log, s.runs[r]);
    }
    SameScreen(s, s');
  }

  /** The newest run has not finished: no timer is set. */
  predicate Unfinished(s: State) {
    && s.runs != [] && !s.runs[|s.runs| - 1].finishing && s.polls == multiset{} && s.starts == 0
    && s.scheduled + 1 == |s.runs| && BackoffOk(s)
    && forall r :: 0 <= r < |s.runs| - 1 ==> Over(s.runs[r])
  }

  lemma FinishOneAtATime(s: State, lasted: bool)
    requires Unfinished(s)
    ensures OneAtATime(Finish(s, |s.runs| - 1, lasted)) && BackoffOk(Finish(s, |s.runs| - 1, lasted))
  {
  }

  /** A signal may find its run's restart already scheduled; it then schedules no second one. */
  lemma SignalOneAtATime(s: State, r: nat, signal: Signal, lasted: bool, s': State)
    requires OneAtATime(s) && BackoffOk(s) && Step(s, Signalled(r, signal, lasted), s')
    ensures OneAtATime(s') && BackoffOk(s')
  {
    if s.runs[r].finishing {
      assert WithSignal(s.runs[r], signal) == s.runs[r];
      assert s' == s;
    } else {
      hide Finish;
      var t := s.(runs := s.runs[r := WithSignal(s.runs[r], signal)]);
      assert r == |s.runs| - 1;
      assert forall q :: 0 <= q < |s.runs| - 1 ==> Over(s.runs[q]) && t.runs[q] == s.runs[q];
      FinishOneAtATime(t, lasted);
    }
  }

  lemma SignalSameConsumers(s: State, r: nat, signal: Signal, lasted: bool, s': State)
    requires Step(s, Signalled(r, signal, lasted), s')
    ensures SameConsumers(s, s')
  {
    hide Finish, SameConsumers;
    var t := s.(runs := s.runs[r := WithSignal(s.runs[r], signal)]);
    assert SameConsumers(s, t) by {
      WithSignalSame(s, r, signal, t);
    }
    FinishSame(t, r, lasted);
    SameConsumersTwice(s, t, s');
  }

  lemma WithSignalSame(s: State, r: nat, signal: Signal, t: State)
    requires r < |s.runs| && t == s.(runs := s.runs[r := WithSignal(s.runs[r], signal)])
    ensures SameConsumers(s, t)
  {
  }

  lemma FinishSame(s: State, r: nat, lasted: bool)
    requires r < |s.runs|
    ensures SameConsumers(s, Finish(s, r, lasted))
  {
  }

  lemma SameConsumersTwice(s: State, t: State, u: State)
    requires SameConsumers(s, t) && SameConsumers(t, u)
    ensures SameConsumers(s, u)
  {
  }

  lemma PollOneAtATime(s: State, r: nat, lasted: bool, s': State)
    requires OneAtATime(s) && BackoffOk(s) && Step(s, Poll(r, lasted), s')
    ensures OneAtATime(s') && BackoffOk(s') && SameConsumers(s, s')
  {
    assert r == |s.runs| - 1 && s.polls == multiset{r};
    assert s.polls - multiset{r} == multiset{};
  }

  lemma SuperviseKeeps(s: State, ev: Event, s': State)
    requires Inv(s) && Step(s, ev, s')
    requires ev.Signalled? || ev.Poll? || ev.Minute?
    ensures Inv(s')
  {
    match ev {
      case Signalled(r, signal, lasted) =>
        SignalOneAtATime(s, r, signal, lasted, s');
        SignalSameConsumers(s, r, signal, lasted, s');
      case Poll(r, lasted) => PollOneAtATime(s, r, lasted, s');
      case Minute(_) =>
    }
    SameConsumersKeep(s, s');
  }

  lemma NewRunOk(log: Log, committed: nat, launched: bool)
    requires committed <= |log|
    ensures ConsumerOk(log, NewRun(committed, launched))
  {
  }

  lemma LaunchKeeps(s: State, ok: bool, s': State)
    requires Inv(s) && Step(s, Launch(ok), s')
    ensures Inv(s')
  {
    hide ConsumerOk, Traced, LateOk;
    var t := s.(starts := s.starts - 1, runs := s.runs + [NewRun(s.committed, ok)]);
    NewRunOk(s.log, s.committed, ok);
    forall r | 0 <= r < |t.runs| ensures ConsumerOk(t.log, t.runs[r]) {
      assert r < |s.runs| ==> ConsumerOk(s.log, s.runs[r]);
    }
    forall r | 0 <= r < |t.runs| - 1 ensures Over(t.runs[r]) {
      assert r < |s.runs| - 1 ==> Over(s.runs[r]);
    }
    SameScreen(s, t);
    if ok {
      assert Inv(t);
    } else {
      FailedLaunch(t, s');
    }
  }

  lemma FailedLaunch(t: State, s': State)
    requires t.runs != [] && t.polls == multiset{} && t.starts == 0 && t.scheduled + 1 == |t.runs|
    requires forall r :: 0 <= r < |t.runs| - 1 ==> Over(t.runs[r])
    requires forall r :: 0 <= r < |t.runs| ==> ConsumerOk(t.log, t.runs[r])
    requires t.runs[|t.runs| - 1] == NewRun(t.committed, false) && BackoffOk(t)
    requires t.committed <= |t.log|
    requires forall id :: Traced(t, id)
    requires forall l :: l in t.late ==> LateOk(t.log, l)
    requires s' == Finish(t, |t.runs| - 1, false)
    ensures Inv(s')
  {
    forall r | 0 <= r < |s'.runs| ensures ConsumerOk(s'.log, s'.runs[r]) {
      assert ConsumerOk(t.log, t.runs[r]);
    }
    SameScreen(t, s');
  }

  /** The consumer's own step keeps its books. */
  lemma ReceivedOk(log: Log, run: Run, handed: Handed)
    requires ConsumerOk(log, run)
    requires handed.NextRow? ==> run.delivered < |log|
    ensures ConsumerOk(log, Received(log, run, handed))
  {
    hide FoldOf;
    match handed
    case NextRow => if log[run.delivered].Readable? { ReadableOk(log, run); } else { UnreadableOk(log, run); }
    case BurstEnd =>
    case Noise =>
  }

  lemma ReadableOk(log: Log, run: Run)
    requires ConsumerOk(log, run) && run.delivered < |log| && log[run.delivered].Readable?
    ensures ConsumerOk(log, Received(log, run, NextRow))
  {
    hide FoldOf;
  }

  lemma UnreadableOk(log: Log, run: Run)
    requires ConsumerOk(log, run) && run.delivered < |log| && !log[run.delivered].Readable?
    ensures ConsumerOk(log, Received(log, run, NextRow))
  {
    hide FoldOf;
    var before := Messages(log, run.flight, run.delivered);
    assert Messages(log, run.flight, run.delivered + 1) == before + [];
    assert before + [] == before;
  }

  lemma ReceiveKeeps(s: State, r: nat, handed: Handed, s': State)
    requires Inv(s) && Step(s, Receive(r, handed), s')
    ensures Inv(s')
  {
    hide ConsumerOk, Received, Traced, LateOk;
    assert r == |s.runs| - 1;
    assert ConsumerOk(s.log, s.runs[r]);
    ReceivedOk(s.log, s.runs[r], handed);
    forall q | 0 <= q < |s'.runs| ensures ConsumerOk(s'.log, s'.runs[q]) {
      assert q != r ==> ConsumerOk(s.log, s.runs[q]);
    }
    ReceivedBusy(s.log, s.runs[r], handed);
    SameScreen(s, s');
  }

  /** A consumer that is on screen stays so, with the same batch, whatever arrives. */
  lemma ReceivedBusy(log: Log, run: Run, handed: Handed)
    requires handed.NextRow? ==> run.delivered < |log|
    ensures var next := Received(log, run, handed);
            && next.done == run.done && next.finishing == run.finishing
            && next.exited == run.exited && next.eof == run.eof && next.errEof == run.errEof
            && (Busy(run) ==>
                  && Busy(next) && next.core.showing == run.core.showing
                  && next.shown == run.shown && next.flight == run.flight)
            && (!Busy(run) && Busy(next) ==> next.shown == {})
  {
  }

  lemma DistinctBatch(ms: seq<Message>, i: nat, j: nat)
    requires i < |FoldOf(ms)| && j < |FoldOf(ms)|
    requires IdOf(FoldOf(ms)[i]) == IdOf(FoldOf(ms)[j])
    ensures i == j
    ensures LastFor(ms, IdOf(FoldOf(ms)[i])) == Some(FoldOf(ms)[i])
  {
    assert IdOf(FoldOf(ms)[i]) == FirstIds(ms)[i] && IdOf(FoldOf(ms)[j]) == FirstIds(ms)[j];
  }

  /** An action of a batch leaves its id as the rows up to the batch's end do. */
  lemma BatchAction(log: Log, run: Run, i: nat)
    requires ConsumerOk(log, run) && Busy(run) && i < |run.core.showing.value.batch|
    ensures LateOk(log, Late(run.core.showing.value.batch[i], run.flight))
  {
    hide FoldOf, Messages, LastFor;
    var ms := Messages(log, run.done, run.flight);
    DistinctBatch(ms, i, i);
    BatchDecides(log, run.done, run.flight, IdOf(run.core.showing.value.batch[i]));
  }

  lemma ShowKeeps(s: State, r: nat, i: nat, s': State)
    requires Inv(s) && Step(s, Show(r, i), s')
    ensures Inv(s')
  {
    hide FoldOf, Messages, ValueAt;
    assert r == |s.runs| - 1;
    var run := s.runs[r];
    assert ConsumerOk(s.log, run);
    BatchAction(s.log, run, i);
    forall q | 0 <= q < |s'.runs| ensures ConsumerOk(s'.log, s'.runs[q]) {
      assert ConsumerOk(s.log, s.runs[q]);
    }
    LandingTraced(s, Late(run.core.showing.value.batch[i], run.flight), s');
  }

  /** Landing an action leaves its id traced to the rows it stands for. */
  lemma LandingTraced(s: State, l: Late, s': State)
    requires forall id :: Traced(s, id)
    requires LateOk(s.log, l) && s'.log == s.log
    requires s'.screen == Apply(s.screen, l.action) && s'.at == s.at[IdOf(l.action) := l.upTo]
    ensures forall id :: Traced(s', id)
  {
    hide ValueAt;
    forall id
      ensures Traced(s', id)
    {
      assert Traced(s, id);
      ApplyShows(s.screen, l.action, id);
    }
  }

  lemma LandsKeeps(s: State, l: Late, s': State)
    requires Inv(s) && Step(s, Lands(l), s')
    ensures Inv(s')
  {
    hide ConsumerOk, LateOk;
    LandingTraced(s, l, s');
    forall m | m in s'.late
      ensures LateOk(s'.log, m)
    {
      assert m in s.late;
    }
  }

  lemma DisplayedOk(log: Log, run: Run)
    requires ConsumerOk(log, run) && Busy(run)
    ensures ConsumerOk(log, Displayed(run))
    ensures Displayed(run).done == run.flight && Displayed(run).shown == {}
  {
    hide FoldOf;
    assert run.core.showing.value.upTo == run.flight;
    assert Messages(log, run.delivered, run.delivered) == [];
  }

  /** The batch leaves the screen, by its completion or by the deadline. */
  lemma DisplayedKeeps(s: State, r: nat, late: multiset<Late>, s': State)
    requires Inv(s) && r < |s.runs| && Busy(s.runs[r])
    requires s' == s.(runs := s.runs[r := Displayed(s.runs[r])], late := s.late + late)
    requires forall l :: l in late ==> LateOk(s.log, l)
    ensures Inv(s')
  {
    hide LateOk, Traced, Displayed, ConsumerOk, OneAtATime;
    LeavingOneAtATime(s, r, s');
    assert ConsumerOk(s.log, s.runs[r]);
    DisplayedOk(s.log, s.runs[r]);
    FlightInside(s.log, s.runs[r]);
    forall q | 0 <= q < |s'.runs| ensures ConsumerOk(s'.log, s'.runs[q]) {
      assert q != r ==> ConsumerOk(s.log, s.runs[q]);
    }
    SameScreen(s, s');
  }

  lemma FlightInside(log: Log, run: Run)
    requires ConsumerOk(log, run)
    ensures run.done <= run.flight <= |log|
  {
  }

  /** Only the newest run has a batch to take off the screen. */
  lemma LeavingOneAtATime(s: State, r: nat, s': State)
    requires OneAtATime(s) && r < |s.runs| && Busy(s.runs[r])
    requires s'.runs == s.runs[r := Displayed(s.runs[r])] && s'.polls == s.polls && s'.starts == s.starts
    requires s'.scheduled == s.scheduled
    ensures OneAtATime(s') && r == |s.runs| - 1
  {
    hide Displayed;
    DisplayedSignals(s.runs[r]);
  }

  lemma DisplayedSignals(run: Run)
    requires Busy(run)
    ensures var next := Displayed(run);
            && next.finishing == run.finishing && next.exited == run.exited && next.eof == run.eof
               && next.errEof == run.errEof
  {
  }

  lemma CompleteKeeps(s: State, r: nat, s': State)
    requires Inv(s) && Step(s, Complete(r), s')
    ensures Inv(s')
  {
    hide Inv, Displayed;
    assert s.late + multiset{} == s.late;
    DisplayedKeeps(s, r, multiset{}, s');
  }

  lemma {:induction false} UnshownHas(batch: seq<Action>, shown: set<nat>, upTo: nat, i: nat)
    requires i < |batch| && i !in shown
    ensures Late(batch[i], upTo) in Unshown(batch, shown, upTo)
  {
    var last := |batch| - 1;
    if i < last {
      UnshownHas(batch[..last], shown, upTo, i);
    }
  }

  lemma {:induction false} UnshownFrom(batch: seq<Action>, shown: set<nat>, upTo: nat, l: Late) returns (i: nat)
    requires l in Unshown(batch, shown, upTo)
    ensures i < |batch| && i !in shown && l == Late(batch[i], upTo)
  {
    i := |batch| - 1;
    if l in Unshown(batch[..i], shown, upTo) {
      i := UnshownFrom(batch[..i], shown, upTo, l);
    }
  }

  lemma DeadlineKeeps(s: State, r: nat, s': State)
    requires Inv(s) && Step(s, Deadline(r), s')
    ensures Inv(s')
  {
    hide LateOk, Displayed;
    assert r == |s.runs| - 1;
    var run := s.runs[r];
    assert ConsumerOk(s.log, run);
    forall l | l in Overtaken(run)
      ensures LateOk(s.log, l)
    {
      var i := UnshownFrom(run.core.showing.value.batch, run.shown, run.flight, l);
      BatchAction(s.log, run, i);
    }
    DisplayedKeeps(s, r, Overtaken(run), s');
  }

  lemma CommitKeeps(s: State, r: nat, k: nat, s': State)
    requires Inv(s) && Step(s, Commit(r, k), s')
    ensures Inv(s')
  {
    assert r == |s.runs| - 1;
    assert ConsumerOk(s.log, s.runs[r]);
    SameScreen(s, s');
  }

  lemma StepKeepsInv(s: State, ev: Event, s': State)
    requires Inv(s) && Step(s, ev, s')
    ensures Inv(s')
  {
    match ev
    case Append(row) => AppendKeeps(s, row, s');
    case Launch(ok) => LaunchKeeps(s, ok, s');
    case Signalled(_, _, _) => SuperviseKeeps(s, ev, s');
    case Poll(_, _) => SuperviseKeeps(s, ev, s');
    case Minute(_) => SuperviseKeeps(s, ev, s');
    case Receive(r, handed) => ReceiveKeeps(s, r, handed, s');
    case Show(r, i) => ShowKeeps(s, r, i, s');
    case Complete(r) => CompleteKeeps(s, r, s');
    case Deadline(r) => DeadlineKeeps(s, r, s');
    case Lands(l) => LandsKeeps(s, l, s');
    case Commit(r, k) => CommitKeeps(s, r, k, s');
    case Crash => SameScreen(s, s');
  }

  // ---------------------------------------------------------------------------------------
  // Whole runs
  // ---------------------------------------------------------------------------------------

  ghost predicate Lifetime(states: seq<State>, events: seq<Event>) {
    && |states| == |events| + 1
    && Init(states[0])
    && forall i :: 0 <= i < |events| ==> StepAt(states, events, i)
  }

  ghost predicate StepAt(states: seq<State>, events: seq<Event>, i: nat) {
    i < |events| && i + 1 < |states| && Step(states[i], events[i], states[i + 1])
  }

  lemma {:induction false} LifetimeKeepsInv(states: seq<State>, events: seq<Event>, n: nat)
    requires Lifetime(states, events) && n < |states|
    ensures Inv(states[n])
  {
    if n == 0 {
      EmptyScreenOk(states[0]);
    } else {
      LifetimeKeepsInv(states, events, n - 1);
      assert StepAt(states, events, n - 1);
      StepKeepsInv(states[n - 1], events[n - 1], states[n]);
    }
  }

  lemma EmptyScreenOk(s: State)
    requires Init(s)
    ensures Inv(s)
  {
    forall id
      ensures Traced(s, id)
    {
      assert Messages(s.log, 0, 0) == [];
    }
  }

  // ---------------------------------------------------------------------------------------
  // What is on screen
  // ---------------------------------------------------------------------------------------

  /** Some row of `lo` to `hi` has an action for `id`. */
  predicate News(log: Log, lo: nat, hi: nat, id: Id)
    requires hi <= |log|
  {
    lo < hi && LastFor(Messages(log, lo, hi), id).Some?
  }

  /** The batch on screen has handed over its action for `id`. */
  predicate OnScreen(run: Run, id: Id) {
    Busy(run) && exists i: nat :: i in run.shown && i < |run.core.showing.value.batch|
                                  && IdOf(run.core.showing.value.batch[i]) == id
  }

  /** The rows `id` should show by now: those of completed batches, and of the one on screen once its action is handed
      over. */
  function Due(s: State, id: Id): nat {
    if s.runs == [] then s.committed
    else
      var run := s.runs[|s.runs| - 1];
      if OnScreen(run, id) then run.flight else run.done
  }

  /** What last landed for `id` is not its newest action among the rows it should show. */
  ghost predicate Stale(s: State, id: Id)
    requires Inv(s)
  {
    DueInside(s, id);
    News(s.log, At(s, id), Due(s, id), id)
  }

  lemma DueInside(s: State, id: Id)
    requires Inv(s)
    ensures s.committed <= Floor(s) <= Due(s, id) <= |s.log|
  {
    if s.runs != [] {
      assert ConsumerOk(s.log, s.runs[|s.runs| - 1]);
    }
  }

  /** The deadline completes a batch whose action for `id` was not handed over. */
  predicate Skips(s: State, ev: Event, id: Id) {
    && ev.Deadline? && ev.r < |s.runs| && Busy(s.runs[ev.r])
    && exists i: nat :: i < |s.runs[ev.r].core.showing.value.batch| && i !in s.runs[ev.r].shown
                        && IdOf(s.runs[ev.r].core.showing.value.batch[i]) == id
  }

  predicate LandsFor(ev: Event, id: Id) {
    ev.Lands? && IdOf(ev.late.action) == id
  }

  /** A batch on screen hands over its action for `id`. */
  predicate Shows(s: State, ev: Event, id: Id) {
    && ev.Show? && ev.r < |s.runs| && Busy(s.runs[ev.r]) && ev.i < |s.runs[ev.r].core.showing.value.batch|
    && IdOf(s.runs[ev.r].core.showing.value.batch[ev.i]) == id
  }

  lemma NewsShrinks(log: Log, lo: nat, hi: nat, more: nat, id: Id)
    requires hi <= more <= |log| && News(log, lo, hi, id)
    ensures News(log, lo, more, id)
  {
    MessagesConcat(log, lo, hi, more);
    LastForConcat(Messages(log, lo, hi), Messages(log, hi, more), id);
  }

  /** Rows that say nothing of `id` make no news. */
  lemma NoNewsBetween(log: Log, lo: nat, hi: nat, more: nat, id: Id)
    requires hi <= more <= |log| && LastFor(Messages(log, hi, more), id).None? && News(log, lo, more, id)
    ensures News(log, lo, hi, id)
  {
    if lo < hi {
      MessagesConcat(log, lo, hi, more);
      LastForConcat(Messages(log, lo, hi), Messages(log, hi, more), id);
    } else {
      MessagesConcat(log, hi, lo, more);
      LastForConcat(Messages(log, hi, lo), Messages(log, lo, more), id);
    }
  }

  /** A batch has an action for each id its rows name. */
  lemma BatchNames(log: Log, run: Run, id: Id)
    requires ConsumerOk(log, run) && Busy(run)
    ensures LastFor(Messages(log, run.done, run.flight), id).Some? <==>
              exists i: nat :: i < |run.core.showing.value.batch| && IdOf(run.core.showing.value.batch[i]) == id
  {
    var ms := Messages(log, run.done, run.flight);
    if LastFor(ms, id).Some? {
      assert id in FirstIds(ms);
      var i :| 0 <= i < |FirstIds(ms)| && FirstIds(ms)[i] == id;
      assert IdOf(FoldOf(ms)[i]) == id;
    }
    if i: nat :| i < |FoldOf(ms)| && IdOf(FoldOf(ms)[i]) == id {
      DistinctBatch(ms, i, i);
    }
  }

  /** A batch leaving the screen makes no id stale whose action it handed over, or that it does not name. */
  lemma LeavingKeepsFresh(s: State, r: nat, s': State, id: Id)
    requires Inv(s) && Inv(s') && r < |s.runs| && Busy(s.runs[r]) && s'.log == s.log && s'.at == s.at
    requires s'.runs == s.runs[r := Displayed(s.runs[r])]
    requires forall i: nat :: i < |s.runs[r].core.showing.value.batch| && i !in s.runs[r].shown ==>
               IdOf(s.runs[r].core.showing.value.batch[i]) != id
    requires Stale(s', id)
    ensures Stale(s, id)
  {
    hide ConsumerOk, News;
    assert r == |s.runs| - 1;
    var run := s.runs[r];
    DisplayedOk(s.log, run);
    DueInside(s, id);
    if !OnScreen(run, id) {
      BatchNames(s.log, run, id);
      FlightInside(s.log, run);
      NoNewsBetween(s.log, At(s, id), run.done, run.flight, id);
    }
  }

  lemma SameDue(s: State, s': State, id: Id)
    requires Inv(s) && Inv(s') && s'.log == s.log && At(s', id) == At(s, id) && Due(s', id) <= Due(s, id)
    requires Stale(s', id)
    ensures Stale(s, id)
  {
    hide Inv, News;
    DueInside(s, id);
    NewsShrinks(s.log, At(s, id), Due(s', id), Due(s, id), id);
  }

  lemma ConsumerKeepsDue(s: State, ev: Event, s': State, id: Id)
    requires Inv(s) && Step(s, ev, s') && (ev.Receive? || ev.Commit? || ev.Crash?)
    ensures s'.log == s.log && At(s', id) == At(s, id) && Due(s', id) <= Due(s, id)
  {
    hide ConsumerOk, Received, Traced, LateOk;
    DueInside(s, id);
    if ev.Receive? {
      assert ev.r == |s.runs| - 1;
      ReceivedBusy(s.log, s.runs[ev.r], ev.handed);
    }
  }

  lemma SupervisorKeepsDue(s: State, ev: Event, s': State, id: Id)
    requires Inv(s) && Step(s, ev, s') && (ev.Launch? || ev.Signalled? || ev.Poll? || ev.Minute?)
    ensures s'.log == s.log && At(s', id) == At(s, id) && Due(s', id) <= Due(s, id)
  {
    hide ConsumerOk, Traced, LateOk, OnScreen;
    DueInside(s, id);
    match ev
    case Launch(ok) => LaunchDue(s, ok, s', id);
    case Signalled(r, signal, lasted) =>
      SignalSameConsumers(s, r, signal, lasted, s');
      SameConsumersDue(s, s', id);
    case Poll(r, lasted) =>
      PollOneAtATime(s, r, lasted, s');
      SameConsumersDue(s, s', id);
    case Minute(_) =>
      SameConsumersDue(s, s', id);
  }

  lemma LaunchDue(s: State, ok: bool, s': State, id: Id)
    requires Step(s, Launch(ok), s')
    ensures s'.log == s.log && s'.at == s.at && Due(s', id) == s.committed
  {
    var run := NewRun(s.committed, ok);
    assert !OnScreen(run, id) && !OnScreen(run.(finishing := true), id);
  }

  lemma SameConsumersDue(s: State, s': State, id: Id)
    requires SameConsumers(s, s')
    ensures Due(s', id) == Due(s, id)
  {
    if s.runs != [] {
      var r := |s.runs| - 1;
      assert OnScreen(s'.runs[r], id) <==> OnScreen(s.runs[r], id);
    }
  }

  lemma AppendKeepsFresh(s: State, row: Row, s': State, id: Id)
    requires Inv(s) && Inv(s') && Step(s, Append(row), s') && Stale(s', id)
    ensures Stale(s, id)
  {
    hide ConsumerOk, Traced, LateOk, LastFor;
    DueInside(s, id);
    if At(s, id) < Due(s, id) {
      MessagesGrow(s.log, row, At(s, id), Due(s, id));
    }
  }

  /** Showing an action freshens its id, and leaves every other as it was. */
  lemma ShowFreshens(s: State, ev: Event, s': State, id: Id)
    requires Inv(s) && Inv(s') && Step(s, ev, s') && ev.Show?
    ensures Shows(s, ev, id) ==> !Stale(s', id)
    ensures !Shows(s, ev, id) && Stale(s', id) ==> Stale(s, id)
  {
    hide ConsumerOk, News, Messages;
    assert ev.r == |s.runs| - 1;
    var run, next := s.runs[ev.r], s'.runs[ev.r];
    if Shows(s, ev, id) {
      assert ev.i in next.shown && IdOf(next.core.showing.value.batch[ev.i]) == id;
      assert OnScreen(next, id);
      assert ConsumerOk(s.log, run);
      FlightInside(s.log, run);
      NoNewsAt(s.log, run.flight, id);
      assert Due(s', id) == run.flight == At(s', id);
    } else {
      AnotherHanded(run, ev.i, id);
    }
  }

  lemma NoNewsAt(log: Log, k: nat, id: Id)
    requires k <= |log|
    ensures !News(log, k, k, id)
  {
  }

  lemma AnotherHanded(run: Run, i: nat, id: Id)
    requires Busy(run) && i < |run.core.showing.value.batch| && IdOf(run.core.showing.value.batch[i]) != id
    ensures OnScreen(run.(shown := run.shown + {i}), id) <==> OnScreen(run, id)
  {
  }

  /** An id becomes stale only when the deadline overtakes its action, or a late action of it lands. */
  lemma StaleOnlyBy(s: State, ev: Event, s': State, id: Id)
    requires Inv(s) && Inv(s') && Step(s, ev, s')
    ensures Stale(s', id) && !Stale(s, id) ==> Skips(s, ev, id) || LandsFor(ev, id)
  {
    hide Inv, News, Due, At;
    if Stale(s', id) {
      match ev
      case Append(row) => AppendKeepsFresh(s, row, s', id);
      case Show(_, _) => ShowFreshens(s, ev, s', id);
      case Complete(r) => CompleteKeepsFresh(s, r, s', id);
      case Deadline(r) => if !Skips(s, ev, id) { DeadlineKeepsFresh(s, r, s', id); }
      case Lands(l) => if !LandsFor(ev, id) { LandsKeepsFresh(s, l, s', id); }
      case Receive(_, _) => ConsumerKeepsDue(s, ev, s', id); SameDue(s, s', id);
      case Commit(_, _) => ConsumerKeepsDue(s, ev, s', id); SameDue(s, s', id);
      case Crash => ConsumerKeepsDue(s, ev, s', id); SameDue(s, s', id);
      case _ => SupervisorKeepsDue(s, ev, s', id); SameDue(s, s', id);
    }
  }

  lemma CompleteKeepsFresh(s: State, r: nat, s': State, id: Id)
    requires Inv(s) && Inv(s') && Step(s, Complete(r), s') && Stale(s', id)
    ensures Stale(s, id)
  {
    hide Inv, News, Due, Displayed;
    LeavingKeepsFresh(s, r, s', id);
  }

  lemma DeadlineKeepsFresh(s: State, r: nat, s': State, id: Id)
    requires Inv(s) && Inv(s') && Step(s, Deadline(r), s')
    ensures Stale(s', id) && !Skips(s, Deadline(r), id) ==> Stale(s, id)
  {
    hide Inv, News, Due, Displayed, Overtaken;
    if Stale(s', id) && !Skips(s, Deadline(r), id) {
      LeavingKeepsFresh(s, r, s', id);
    }
  }

  lemma LandsKeepsFresh(s: State, l: Late, s': State, id: Id)
    requires Inv(s) && Inv(s') && Step(s, Lands(l), s') && Stale(s', id) && IdOf(l.action) != id
    ensures Stale(s, id)
  {
    hide Inv, News;
    SameDue(s, s', id);
  }

  /** The deadline does leave stale every id it overtakes that had not been shown those rows before. */
  lemma OvertakenIsStale(s: State, r: nat, s': State, id: Id)
    requires Inv(s) && Inv(s') && Step(s, Deadline(r), s') && Skips(s, Deadline(r), id)
    requires At(s, id) <= s.runs[r].done
    ensures Stale(s', id)
  {
    hide ConsumerOk, Traced, LateOk, Overtaken;
    assert r == |s.runs| - 1;
    var run := s.runs[r];
    assert ConsumerOk(s.log, run);
    FlightInside(s.log, run);
    DisplayedOk(s.log, run);
    BatchNames(s.log, run, id);
    MessagesConcat(s.log, At(s, id), run.done, run.flight);
    LastForConcat(Messages(s.log, At(s, id), run.done), Messages(s.log, run.done, run.flight), id);
  }

  /** What made `id` stale, if anything: nothing of it has been shown since. */
  ghost predicate CauseAt(states: seq<State>, events: seq<Event>, i: nat, n: nat, id: Id) {
    && i < n <= |events| && n < |states|
    && (Skips(states[i], events[i], id) || LandsFor(events[i], id))
    && forall j :: i < j < n ==> !Shows(states[j], events[j], id)
  }

  lemma StartsFresh(s: State, id: Id)
    requires Init(s) && Inv(s)
    ensures !Stale(s, id)
  {
  }

  /** Over every lifetime: an id is stale only if, since it was last shown, the deadline overtook an action of it or a
      late one of it landed. */
  lemma {:induction false} StaleHasACause(states: seq<State>, events: seq<Event>, n: nat, id: Id)
    requires Lifetime(states, events) && n < |states| && Inv(states[n]) && Stale(states[n], id)
    ensures exists i: nat :: CauseAt(states, events, i, n, id)
  {
    hide Inv, News, Due, At, Step, Skips, Init;
    if n == 0 {
      StartsFresh(states[0], id);
    } else {
      LifetimeKeepsInv(states, events, n - 1);
      assert StepAt(states, events, n - 1);
      var s, ev := states[n - 1], events[n - 1];
      if Skips(s, ev, id) || LandsFor(ev, id) {
        assert CauseAt(states, events, n - 1, n, id);
      } else {
        if ev.Show? {
          ShowFreshens(s, ev, states[n], id);
        }
        if !Stale(s, id) {
          StaleOnlyBy(s, ev, states[n], id);
        }
        StaleHasACause(states, events, n - 1, id);
        var i: nat :| CauseAt(states, events, i, n - 1, id);
        assert CauseAt(states, events, i, n, id);
      }
    }
  }

  /** A late action is one the deadline overtook. */
  lemma {:induction false} LateWasOvertaken(states: seq<State>, events: seq<Event>, n: nat, l: Late)
    requires Lifetime(states, events) && n < |states| && l in states[n].late
    ensures exists i: nat :: i < n && Skips(states[i], events[i], IdOf(l.action))
  {
    if n > 0 {
      var s, ev := states[n - 1], events[n - 1];
      assert StepAt(states, events, n - 1);
      if l in s.late {
        LateWasOvertaken(states, events, n - 1, l);
      } else {
        NewlyLate(s, ev, states[n], l);
      }
    }
  }

  lemma NewlyLate(s: State, ev: Event, s': State, l: Late)
    requires Step(s, ev, s') && l in s'.late && l !in s.late
    ensures Skips(s, ev, IdOf(l.action))
  {
    hide Displayed, Received, RestartWhenIdle, Unshown;
    if ev.Deadline? {
      var run := s.runs[ev.r];
      var i := UnshownFrom(run.core.showing.value.batch, run.shown, run.flight, l);
    } else {
      KeepsLate(s, ev, s');
    }
  }

  lemma KeepsLate(s: State, ev: Event, s': State)
    requires Step(s, ev, s') && !ev.Deadline?
    ensures s'.late <= s.late
  {
    hide Displayed, Received;
  }

  predicate Drained(s: State) {
    s.runs != [] && s.runs[|s.runs| - 1].done == |s.log|
  }

  /** With the whole log displayed, an id shows what the whole log leaves exactly when it is not stale, or the rows it
      missed leave what it shows anyway. */
  lemma DrainedShowsExactly(s: State, id: Id)
    requires Inv(s) && Drained(s)
    ensures var newest := LastFor(Messages(s.log, 0, |s.log|), id);
            Shown(s.screen, id) == ValueAt(s.log, |s.log|, id) <==>
            !Stale(s, id) || (newest.Some? && After(newest.value) == ValueAt(s.log, At(s, id), id))
  {
    var k := At(s, id);
    assert Traced(s, id);
    DueInside(s, id);
    MessagesConcat(s.log, 0, k, |s.log|);
    LastForConcat(Messages(s.log, 0, k), Messages(s.log, k, |s.log|), id);
    assert Due(s, id) == |s.log|;
    assert k == |s.log| ==> Messages(s.log, k, |s.log|) == [];
  }

  /** Whatever crashed, was cut off, was redelivered or was never acked: once the current run has displayed the whole
      log, an id shows what its last message says, if since it was last shown no deadline overtook an action of it and
      no late one landed. */
  lemma IdShowsItsLastMessage(states: seq<State>, events: seq<Event>, n: nat, id: Id)
    requires Lifetime(states, events) && n < |states| && Drained(states[n])
    requires forall i: nat :: !CauseAt(states, events, i, n, id)
    ensures Shown(states[n].screen, id) == ValueAt(states[n].log, |states[n].log|, id)
  {
    LifetimeKeepsInv(states, events, n);
    if Stale(states[n], id) {
      StaleHasACause(states, events, n, id);
    }
    DrainedShowsExactly(states[n], id);
  }

  /** And if that is so of every id - as when every batch was handed over before its deadline - the screen is what
      applying every message once, in order, leaves. */
  lemma ScreenIsEveryMessageOnce(states: seq<State>, events: seq<Event>, n: nat)
    requires Lifetime(states, events) && n < |states| && Drained(states[n])
    requires forall id, i: nat :: !CauseAt(states, events, i, n, id)
    ensures states[n].screen == ApplyAll(map[], Effects(Messages(states[n].log, 0, |states[n].log|)))
  {
    var s := states[n];
    var full := ApplyAll(map[], Effects(Messages(s.log, 0, |s.log|)));
    forall id ensures Shown(s.screen, id) == Shown(full, id) {
      IdShowsItsLastMessage(states, events, n, id);
      LastActionDecides(map[], Messages(s.log, 0, |s.log|), id);
    }
    SameShown(s.screen, full);
  }

  /** No deadline overtaking anything, nothing is late and nothing is excused. */
  lemma NoDeadlineNoCause(states: seq<State>, events: seq<Event>, n: nat)
    requires Lifetime(states, events) && n < |states|
    requires forall i, id :: 0 <= i < n ==> !Skips(states[i], events[i], id)
    ensures forall id, i: nat :: !CauseAt(states, events, i, n, id)
  {
    forall id, i: nat
      ensures !CauseAt(states, events, i, n, id)
    {
      if i < n && LandsFor(events[i], id) {
        assert StepAt(states, events, i);
        LateWasOvertaken(states, events, i, events[i].late);
      }
    }
  }

  /** The current run has displayed the whole log exactly when nothing is undelivered, waiting or on screen. */
  lemma DrainedMeansDisplayed(states: seq<State>, events: seq<Event>, n: nat)
    requires Lifetime(states, events) && n < |states| && states[n].runs != []
    ensures var run := states[n].runs[|states[n].runs| - 1];
            run.done == |states[n].log| <==> run.delivered == |states[n].log| && run.core.pendingSeq.None? && !Busy(run)
  {
    LifetimeKeepsInv(states, events, n);
    assert ConsumerOk(states[n].log, states[n].runs[|states[n].runs| - 1]);
  }

  /** A run whose three end signals have all arrived, in whatever order, has exactly one restart to its name: the run
      that followed it, a start scheduled, or one wait for its last batch; before that it has none. No other run is
      ever active, and the delay stays between 1 and 30 seconds. */
  lemma OneRestartPerRun(states: seq<State>, events: seq<Event>, n: nat, r: nat)
    requires Lifetime(states, events) && n < |states| && r < |states[n].runs|
    ensures var s := states[n];
            var successors := if r < |s.runs| - 1 then 1 else s.starts + |s.polls|;
            && (AllSignals(s.runs[r]) ==> successors == 1)
            && (!AllSignals(s.runs[r]) ==> successors == 0 && r == |s.runs| - 1)
            && (r < |s.runs| - 1 || s.starts == 1 ==> Over(s.runs[r]))
            && s.scheduled + 1 == |s.runs| + s.starts
            && 1 <= s.delay <= MAX_BACKOFF
  {
    LifetimeKeepsInv(states, events, n);
  }

  /** One second, doubled for each failure in a row, never past the most. */
  function Doubled(n: nat): int {
    if n == 0 then 1 else if 2 * Doubled(n - 1) < 30 then 2 * Doubled(n - 1) else 30
  }

  predicate BackoffFollows(s: State) {
    && s.backoff == Doubled(s.failures)
    && (s.starts == 1 && s.scheduled > 0 ==> s.failures > 0 && s.delay == Doubled(s.failures - 1))
  }

  lemma FinishKeepsBackoff(s: State, r: nat, lasted: bool)
    requires r < |s.runs| && s.backoff == Doubled(s.failures) && s.starts == 0
    ensures BackoffFollows(Finish(s, r, lasted)) && BackoffFollows(RestartWhenIdle(s, r, lasted))
  {
  }

  lemma SupervisorKeepsBackoff(s: State, ev: Event, s': State)
    requires OneAtATime(s) && BackoffFollows(s) && Step(s, ev, s') && (ev.Launch? || ev.Signalled? || ev.Poll?)
    ensures BackoffFollows(s')
  {
    hide Finish, RestartWhenIdle, Doubled;
    match ev
    case Launch(ok) =>
      if !ok {
        FinishKeepsBackoff(s.(starts := s.starts - 1, runs := s.runs + [NewRun(s.committed, ok)]), |s.runs|, false);
      }
    case Signalled(r, signal, lasted) =>
      SignalKeepsBackoff(s, r, signal, lasted, s');
    case Poll(r, lasted) =>
      assert r == |s.runs| - 1 && s.polls != multiset{};
      FinishKeepsBackoff(s.(polls := s.polls - multiset{r}), r, lasted);
  }

  lemma SignalKeepsBackoff(s: State, r: nat, signal: Signal, lasted: bool, s': State)
    requires OneAtATime(s) && BackoffFollows(s) && Step(s, Signalled(r, signal, lasted), s')
    ensures BackoffFollows(s')
  {
    hide RestartWhenIdle, Doubled;
    var t := s.(runs := s.runs[r := WithSignal(s.runs[r], signal)]);
    if s.starts == 0 {
      FinishKeepsBackoff(t, r, lasted);
    } else {
      assert s.runs[r].finishing;
      assert t.runs[r].finishing;
    }
  }

  lemma MinuteKeepsBackoff(s: State, r: nat, s': State)
    requires OneAtATime(s) && BackoffFollows(s) && Step(s, Minute(r), s')
    ensures BackoffFollows(s')
  {
    assert r == |s.runs| - 1;
    assert !s.runs[r].exited;
  }

  lemma ConsumerKeepsBackoff(s: State, ev: Event, s': State)
    requires BackoffFollows(s) && Step(s, ev, s')
    requires !(ev.Launch? || ev.Signalled? || ev.Poll? || ev.Minute?)
    ensures BackoffFollows(s')
  {
    hide Received, Displayed, Overtaken, Doubled;
    if ev.Crash? {
      assert Doubled(0) == 1 by { OneAtFirst(); }
    }
  }

  lemma OneAtFirst()
    ensures Doubled(0) == 1
  {
  }

  lemma StepKeepsBackoff(s: State, ev: Event, s': State)
    requires Inv(s) && BackoffFollows(s) && Step(s, ev, s')
    ensures BackoffFollows(s')
  {
    hide Step, BackoffFollows;
    if ev.Launch? || ev.Signalled? || ev.Poll? {
      SupervisorKeepsBackoff(s, ev, s');
    } else if ev.Minute? {
      MinuteKeepsBackoff(s, ev.r, s');
    } else {
      ConsumerKeepsBackoff(s, ev, s');
    }
  }

  /** The delay before a start that a failure scheduled is one second for the first failure in a row and twice the one
      before for each further one, up to 30; a run that lasted, or has been up for a minute, starts the count again. */
  lemma {:induction false} DelayDoubles(states: seq<State>, events: seq<Event>, n: nat)
    requires Lifetime(states, events) && n < |states|
    ensures var s := states[n];
            && s.backoff == Doubled(s.failures)
            && (s.starts == 1 && s.scheduled > 0 ==> s.failures > 0 && s.delay == Doubled(s.failures - 1))
  {
    hide Inv, Step, Doubled;
    OneAtFirst();
    if n > 0 {
      DelayDoubles(states, events, n - 1);
      LifetimeKeepsInv(states, events, n - 1);
      assert StepAt(states, events, n - 1);
      StepKeepsBackoff(states[n - 1], events[n - 1], states[n]);
    }
  }

  /** What counts as a failure in a row: each restart is one, the first if the run that ended had lasted. */
  lemma RestartCounts(s: State, r: nat, lasted: bool)
    requires r < |s.runs| && !Busy(s.runs[r])
    ensures var t := RestartWhenIdle(s, r, lasted);
            t.starts == s.starts + 1 && t.failures == if lasted then 1 else s.failures + 1
  {
  }

  /** The consumer of a run that is over can take no step. */
  lemma OverConsumerIsStill(s: State, ev: Event, s': State, r: nat)
    requires Step(s, ev, s') && r < |s.runs| && Over(s.runs[r])
    requires ev.Append? || ev.Minute? || ev.Receive? || ev.Show? || ev.Complete? || ev.Deadline? || ev.Lands?
             || ev.Commit?
    ensures r < |s'.runs| && s'.runs[r] == s.runs[r]
  {
  }

  lemma OverIsNotRestarted(s: State, ev: Event, s': State, r: nat)
    requires Step(s, ev, s') && r < |s.runs| && Over(s.runs[r])
    requires ev.Launch? || ev.Signalled? || ev.Poll?
    ensures r < |s'.runs| && s'.runs[r] == s.runs[r]
  {
  }

  lemma StepKeepsOver(s: State, ev: Event, s': State, r: nat)
    requires Step(s, ev, s') && !ev.Crash?
    requires r < |s.runs| && Over(s.runs[r])
    ensures r < |s'.runs| && Over(s'.runs[r])
  {
    hide Step, Over;
    if ev.Launch? || ev.Signalled? || ev.Poll? {
      OverIsNotRestarted(s, ev, s', r);
    } else {
      OverConsumerIsStill(s, ev, s', r);
    }
  }

  /** A run that is over stays over: its consumer never puts anything on screen again. */
  lemma {:induction false} OverStaysOver(states: seq<State>, events: seq<Event>, i: nat, j: nat, r: nat)
    requires Lifetime(states, events) && i <= j < |states|
    requires r < |states[i].runs| && Over(states[i].runs[r])
    requires forall k :: i <= k < j ==> !events[k].Crash?
    ensures r < |states[j].runs| && Over(states[j].runs[r])
    decreases j
  {
    if i < j {
      OverStaysOver(states, events, i, j - 1, r);
      assert StepAt(states, events, j - 1);
      StepKeepsOver(states[j - 1], events[j - 1], states[j], r);
    }
  }

  /** Only the newest run's batch ever reaches the screen. */
  lemma OnlyNewestRunShows(states: seq<State>, events: seq<Event>, n: nat, r: nat, i: nat)
    requires Lifetime(states, events) && n < |events| && events[n] == Show(r, i)
    ensures r == |states[n].runs| - 1
  {
    LifetimeKeepsInv(states, events, n);
    assert StepAt(states, events, n);
  }

  // ---------------------------------------------------------------------------------------
  // Runs that show what the results rest on
  // ---------------------------------------------------------------------------------------

  const POSTED := Note("a", "t", "", "")
  const POSTS := Readable(Some(Post(POSTED)))
  const WITHDRAWS := Readable(Some(Withdraw("a")))

  /** A notifier about to start a subscription. */
  function Waiting(log: Log, committed: nat, screen: Screen, at: map<Id, nat>): State {
    State(log, committed, screen, [], multiset{}, 1, 0, 1, 1, 0, multiset{}, at)
  }

  /** A notifier with its first subscription. */
  function Following(
    log: Log, committed: nat, screen: Screen, run: Run, late: multiset<Late>, at: map<Id, nat>): State
  {
    State(log, committed, screen, [run], multiset{}, 0, 0, 1, 1, 0, late, at)
  }

  /** A subscription that has ended none of its streams. */
  function Open(core: SC.Core, start: nat, done: nat, flight: nat, delivered: nat, shown: set<nat>,
                sent: set<nat>): Run {
    Run(core, start, done, flight, delivered, shown, sent, false, false, false, false)
  }

  function OneShowing(action: Action, upTo: nat): SC.Core {
    SC.Core([], None, false, Some(SC.Showing([action], upTo)))
  }

  lemma FoldOne(k: int, a: Action)
    ensures FoldOf([Message(k, Some(a))]) == [a]
  {
    var ms := [Message(k, Some(a))];
    assert ms[..0] == [];
    assert FirstIds(ms) == [IdOf(a)];
  }

  lemma FoldSameId(j: int, a: Action, k: int, b: Action)
    requires IdOf(a) == IdOf(b)
    ensures FoldOf([Message(j, Some(a)), Message(k, Some(b))]) == [b]
  {
    var ms := [Message(j, Some(a)), Message(k, Some(b))];
    assert ms[..1] == [Message(j, Some(a))];
    assert ms[..1][..0] == [];
    assert FirstIds(ms[..1]) == [IdOf(a)];
    assert FirstIds(ms) == [IdOf(a)];
  }

  lemma Launches(log: Log, committed: nat, screen: Screen, at: map<Id, nat>)
    ensures Step(Waiting(log, committed, screen, at), Launch(true),
                 Following(log, committed, screen, NewRun(committed, true), multiset{}, at))
  {
  }

  lemma CrashesAway(s: State)
    requires |s.runs| <= 1
    ensures Step(s, Crash, Waiting(s.log, s.committed, s.screen, s.at))
  {
  }

  lemma AppendTakes(log: Log, committed: nat, screen: Screen, run: Run, late: multiset<Late>, at: map<Id, nat>,
                    row: Row)
    ensures Step(Following(log, committed, screen, run, late, at), Append(row),
                 Following(log + [row], committed, screen, run, late, at))
  {
  }

  lemma ReceiveTakes(
    log: Log, committed: nat, screen: Screen, run: Run, late: multiset<Late>, at: map<Id, nat>, handed: Handed,
    next: Run)
    requires !run.eof && (handed.NextRow? ==> run.delivered < |log|) && next == Received(log, run, handed)
    ensures Step(Following(log, committed, screen, run, late, at), Receive(0, handed),
                 Following(log, committed, screen, next, late, at))
  {
    hide Received;
    assert [run][0 := next] == [next];
  }

  lemma ShowTakes(
    log: Log, committed: nat, screen: Screen, run: Run, late: multiset<Late>, at: map<Id, nat>, a: Action)
    requires Busy(run) && run.core.showing.value.batch == [a]
    ensures Step(Following(log, committed, screen, run, late, at), Show(0, 0),
                 Following(log, committed, Apply(screen, a), run.(shown := run.shown + {0}), late,
                           at[IdOf(a) := run.flight]))
  {
    assert [run][0 := run.(shown := run.shown + {0})] == [run.(shown := run.shown + {0})];
  }

  lemma CompleteTakes(
    log: Log, committed: nat, screen: Screen, run: Run, late: multiset<Late>, at: map<Id, nat>, a: Action, next: Run)
    requires Busy(run) && run.core.showing.value.batch == [a] && 0 in run.shown && next == Displayed(run)
    ensures Step(Following(log, committed, screen, run, late, at), Complete(0),
                 Following(log, committed, screen, next, late, at))
  {
    hide Displayed;
    assert [run][0 := next] == [next];
  }

  lemma DeadlineTakes(
    log: Log, committed: nat, screen: Screen, run: Run, at: map<Id, nat>, a: Action, next: Run)
    requires Busy(run) && run.core.showing.value.batch == [a] && run.shown == {} && next == Displayed(run)
    ensures Step(Following(log, committed, screen, run, multiset{}, at), Deadline(0),
                 Following(log, committed, screen, next, multiset{Late(a, run.flight)}, at))
  {
    hide Displayed;
    assert [run][0 := next] == [next];
    assert [a][..0] == [];
    assert Unshown([], {}, run.flight) == multiset{};
    assert Overtaken(run) == multiset{Late(a, run.flight)};
  }

  lemma LandsTakes(log: Log, committed: nat, screen: Screen, run: Run, at: map<Id, nat>, l: Late)
    ensures Step(Following(log, committed, screen, run, multiset{l}, at), Lands(l),
                 Following(log, committed, Apply(screen, l.action), run, multiset{}, at[IdOf(l.action) := l.upTo]))
  {
    assert multiset{l} - multiset{l} == multiset{};
  }

  lemma TwoAppends()
    ensures Init(Waiting([], 0, map[], map[]))
    ensures Step(Waiting([], 0, map[], map[]), Append(POSTS), Waiting([POSTS], 0, map[], map[]))
    ensures Step(Waiting([POSTS], 0, map[], map[]), Append(WITHDRAWS), Waiting([POSTS, WITHDRAWS], 0, map[], map[]))
  {
  }

  const HELD_ONE := SC.Core([Message(1, Some(Post(POSTED)))], Some(1), false, None)
  const HELD_SECOND := SC.Core([Message(2, Some(Withdraw("a")))], Some(2), false, None)
  const HELD_BOTH := SC.Core([Message(1, Some(Post(POSTED))), Message(2, Some(Withdraw("a")))], Some(2), false, None)

  /** What the consumer makes of the rows of the runs below. */
  lemma Receiving(log: Log)
    requires |log| >= 1 && log[0] == POSTS
    ensures Received(log, NewRun(0, true), NextRow) == Open(HELD_ONE, 0, 0, 0, 1, {}, {})
    ensures Received(log, Open(HELD_ONE, 0, 0, 0, 1, {}, {}), BurstEnd)
            == Open(OneShowing(Post(POSTED), 1), 0, 0, 1, 1, {}, {})
    ensures Displayed(Open(OneShowing(Post(POSTED), 1), 0, 0, 1, 1, {}, {})) == Open(SC.IDLE, 0, 1, 1, 1, {}, {1})
    ensures Displayed(Open(OneShowing(Post(POSTED), 1), 0, 0, 1, 1, {0}, {})) == Open(SC.IDLE, 0, 1, 1, 1, {}, {1})
  {
    FoldOne(1, Post(POSTED));
  }

  lemma ReceivingMore(log: Log)
    requires log == [POSTS, WITHDRAWS]
    ensures Received(log, Open(SC.IDLE, 0, 1, 1, 1, {}, {1}), NextRow) == Open(HELD_SECOND, 0, 1, 1, 2, {}, {1})
    ensures Received(log, Open(HELD_SECOND, 0, 1, 1, 2, {}, {1}), BurstEnd)
            == Open(OneShowing(Withdraw("a"), 2), 0, 1, 2, 2, {}, {1})
    ensures Displayed(Open(OneShowing(Withdraw("a"), 2), 0, 1, 2, 2, {0}, {1})) == Open(SC.IDLE, 0, 2, 2, 2, {}, {1, 2})
  {
    FoldOne(2, Withdraw("a"));
    assert {1} + {2} == {1, 2};
  }

  lemma ReceivingBoth(log: Log)
    requires log == [POSTS, WITHDRAWS]
    ensures Received(log, Open(HELD_ONE, 0, 0, 0, 1, {}, {}), NextRow) == Open(HELD_BOTH, 0, 0, 0, 2, {}, {})
    ensures Received(log, Open(HELD_BOTH, 0, 0, 0, 2, {}, {}), BurstEnd)
            == Open(OneShowing(Withdraw("a"), 2), 0, 0, 2, 2, {}, {})
    ensures Displayed(Open(OneShowing(Withdraw("a"), 2), 0, 0, 2, 2, {0}, {})) == Open(SC.IDLE, 0, 2, 2, 2, {}, {2})
  {
    FoldSameId(1, Post(POSTED), 2, Withdraw("a"));
  }

  /** What every message applied once leaves of the rows below. */
  lemma FullScreens()
    ensures Shown(ApplyAll(map[], Effects(Messages([POSTS], 0, 1))), "a") == Some(POSTED)
    ensures Shown(ApplyAll(map[], Effects(Messages([POSTS, WITHDRAWS], 0, 2))), "a") == None
  {
    var one, two := Messages([POSTS], 0, 1), Messages([POSTS, WITHDRAWS], 0, 2);
    assert Messages([POSTS], 0, 0) == [];
    assert one[|one| - 1] == Message(1, Some(Post(POSTED)));
    assert two[|two| - 1] == Message(2, Some(Withdraw("a")));
    LastActionDecides(map[], one, "a");
    LastActionDecides(map[], two, "a");
  }

  predicate Wrong(s: State) {
    Drained(s) && s.screen != ApplyAll(map[], Effects(Messages(s.log, 0, |s.log|)))
  }

  const DEADLINE_EVENTS := [
    Append(POSTS), Launch(true), Receive(0, NextRow), Receive(0, BurstEnd), Deadline(0), Append(WITHDRAWS),
    Receive(0, NextRow),
    Receive(0, BurstEnd), Show(0, 0), Complete(0), Lands(Late(Post(POSTED), 1))]

  /** The deadline acks a notification that was not handed over: the log is displayed and the screen is empty. */
  lemma DeadlineAcksUnseen() returns (s: seq<State>)
    ensures |s| == 6 && Init(s[0]) && forall i :: 0 <= i < 5 ==> Step(s[i], DEADLINE_EVENTS[i], s[i + 1])
    ensures s[5] == Following([POSTS], 0, map[], Open(SC.IDLE, 0, 1, 1, 1, {}, {1}), multiset{Late(Post(POSTED), 1)},
                              map[])
    ensures Skips(s[4], DEADLINE_EVENTS[4], "a") && Wrong(s[5])
  {
    hide Step, Received, Displayed, Skips, Wrong, Init;
    var log := [POSTS];
    var r2, r3 := Open(HELD_ONE, 0, 0, 0, 1, {}, {}), Open(OneShowing(Post(POSTED), 1), 0, 0, 1, 1, {}, {});
    var r4 := Open(SC.IDLE, 0, 1, 1, 1, {}, {1});
    Receiving(log);
    TwoAppends();
    Launches(log, 0, map[], map[]);
    ReceiveTakes(log, 0, map[], NewRun(0, true), multiset{}, map[], NextRow, r2);
    ReceiveTakes(log, 0, map[], r2, multiset{}, map[], BurstEnd, r3);
    DeadlineTakes(log, 0, map[], r3, map[], Post(POSTED), r4);
    s := [Waiting([], 0, map[], map[]), Waiting(log, 0, map[], map[]),
          Following(log, 0, map[], NewRun(0, true), multiset{}, map[]), Following(log, 0, map[], r2, multiset{}, map[]),
          Following(log, 0, map[], r3, multiset{}, map[]),
          Following(log, 0, map[], r4, multiset{Late(Post(POSTED), 1)}, map[])];
    SkipsIt(s[4]);
    NotUp(s[5]);
  }

  lemma SkipsIt(s: State)
    requires |s.runs| == 1 && s.runs[0].core == OneShowing(Post(POSTED), 1) && s.runs[0].shown == {}
    ensures Skips(s, Deadline(0), "a")
  {
    assert IdOf(s.runs[0].core.showing.value.batch[0]) == "a";
  }

  lemma NotUp(s: State)
    requires s.log == [POSTS] && Drained(s) && s.screen == map[]
    ensures Wrong(s)
  {
    FullScreens();
    assert Shown(s.screen, "a") == None;
  }

  /** And its action, landing after the withdrawal that followed, leaves a withdrawn notification up. */
  lemma LateLandingOutlivesAWithdrawal() returns (states: seq<State>, events: seq<Event>)
    ensures Lifetime(states, events) && |events| == 11
    ensures Skips(states[4], events[4], "a") && Wrong(states[5])
    ensures LandsFor(events[10], "a") && Wrong(states[11])
  {
    hide Step, Received, Displayed;
    var first := DeadlineAcksUnseen();
    var second := WithdrawalThenLate();
    states, events := first + second, DEADLINE_EVENTS;
    forall i | 0 <= i < |events|
      ensures StepAt(states, events, i)
    {
      assert i > 5 ==> states[i] == second[i - 6];
      assert i > 4 ==> states[i + 1] == second[i - 5];
    }
  }

  lemma WithdrawalThenLate() returns (s: seq<State>)
    ensures |s| == 6
    ensures Step(Following([POSTS], 0, map[], Open(SC.IDLE, 0, 1, 1, 1, {}, {1}), multiset{Late(Post(POSTED), 1)},
                           map[]),
                 DEADLINE_EVENTS[5], s[0])
    ensures forall i :: 6 <= i < 11 ==> Step(s[i - 6], DEADLINE_EVENTS[i], s[i - 5])
    ensures Wrong(s[5])
  {
    hide Step, Received, Displayed, OneShowing, Wrong;
    var log, l := [POSTS, WITHDRAWS], Late(Post(POSTED), 1);
    var shown := ShownWithdrawal();
    var done := Open(SC.IDLE, 0, 2, 2, 2, {}, {1, 2});
    var at1, at2 := map["a" := 2], map["a" := 1];
    LandsTakes(log, 0, map[], done, at1, l);
    assert Apply(map[], l.action) == map["a" := POSTED] && at1["a" := 1] == at2;
    s := shown + [Following(log, 0, map["a" := POSTED], done, multiset{}, at2)];
    StillUp(s[5]);
  }

  /** The withdrawal, displayed in time. */
  lemma ShownWithdrawal() returns (s: seq<State>)
    ensures |s| == 5
    ensures Step(Following([POSTS], 0, map[], Open(SC.IDLE, 0, 1, 1, 1, {}, {1}), multiset{Late(Post(POSTED), 1)},
                           map[]),
                 DEADLINE_EVENTS[5], s[0])
    ensures forall i :: 6 <= i < 10 ==> Step(s[i - 6], DEADLINE_EVENTS[i], s[i - 5])
    ensures s[4] == Following([POSTS, WITHDRAWS], 0, map[], Open(SC.IDLE, 0, 2, 2, 2, {}, {1, 2}),
                              multiset{Late(Post(POSTED), 1)}, map["a" := 2])
  {
    hide Step, Received, Displayed, Following;
    var log := [POSTS, WITHDRAWS];
    var late := multiset{Late(Post(POSTED), 1)};
    var r0, r1 := Open(SC.IDLE, 0, 1, 1, 1, {}, {1}), Open(HELD_SECOND, 0, 1, 1, 2, {}, {1});
    var r2 := Open(OneShowing(Withdraw("a"), 2), 0, 1, 2, 2, {}, {1});
    var r3, r4 := r2.(shown := {0}), Open(SC.IDLE, 0, 2, 2, 2, {}, {1, 2});
    ReceivingMore(log);
    AppendTakes([POSTS], 0, map[], r0, late, map[], WITHDRAWS);
    assert [POSTS] + [WITHDRAWS] == log;
    ReceiveTakes(log, 0, map[], r0, late, map[], NextRow, r1);
    ReceiveTakes(log, 0, map[], r1, late, map[], BurstEnd, r2);
    ShowTakes(log, 0, map[], r2, late, map[], Withdraw("a"));
    assert Apply(map[], Withdraw("a")) == map[] && r2.shown + {0} == {0};
    CompleteTakes(log, 0, map[], r3, late, map["a" := 2], Withdraw("a"), r4);
    s := [Following(log, 0, map[], r0, late, map[]), Following(log, 0, map[], r1, late, map[]),
          Following(log, 0, map[], r2, late, map[]), Following(log, 0, map[], r3, late, map["a" := 2]),
          Following(log, 0, map[], r4, late, map["a" := 2])];
  }

  lemma StillUp(s: State)
    requires s.log == [POSTS, WITHDRAWS] && Drained(s) && s.screen == map["a" := POSTED]
    ensures Wrong(s)
  {
    FullScreens();
    assert Shown(s.screen, "a") == Some(POSTED);
  }

  const ACK_EVENTS := [
    Append(POSTS), Append(WITHDRAWS), Launch(true), Receive(0, NextRow), Receive(0, NextRow), Receive(0, BurstEnd),
    Show(0, 0),
    Complete(0), Crash, Launch(true), Receive(0, NextRow), Receive(0, BurstEnd), Show(0, 0), Complete(0)]

  lemma FirstLife() returns (s: seq<State>)
    ensures |s| == 9 && Init(s[0]) && forall i :: 0 <= i < 8 ==> Step(s[i], ACK_EVENTS[i], s[i + 1])
    ensures |s[8].runs| == 1 && 2 in s[8].runs[0].sent
    ensures Step(s[8], Crash, Waiting([POSTS, WITHDRAWS], 0, map[], map["a" := 2]))
  {
    hide Step, Received, Displayed;
    var log := [POSTS, WITHDRAWS];
    var r1, r2 := Open(HELD_ONE, 0, 0, 0, 1, {}, {}), Open(HELD_BOTH, 0, 0, 0, 2, {}, {});
    var r3 := Open(OneShowing(Withdraw("a"), 2), 0, 0, 2, 2, {}, {});
    var r4, r5 := r3.(shown := {0}), Open(SC.IDLE, 0, 2, 2, 2, {}, {2});
    TwoAppends();
    Receiving(log);
    ReceivingBoth(log);
    Launches(log, 0, map[], map[]);
    ReceiveTakes(log, 0, map[], NewRun(0, true), multiset{}, map[], NextRow, r1);
    ReceiveTakes(log, 0, map[], r1, multiset{}, map[], NextRow, r2);
    ReceiveTakes(log, 0, map[], r2, multiset{}, map[], BurstEnd, r3);
    ShowTakes(log, 0, map[], r3, multiset{}, map[], Withdraw("a"));
    assert Apply(map[], Withdraw("a")) == map[] && r3.shown + {0} == {0};
    CompleteTakes(log, 0, map[], r4, multiset{}, map["a" := 2], Withdraw("a"), r5);
    s := [Waiting([], 0, map[], map[]), Waiting([POSTS], 0, map[], map[]), Waiting(log, 0, map[], map[]),
          Following(log, 0, map[], NewRun(0, true), multiset{}, map[]), Following(log, 0, map[], r1, multiset{}, map[]),
          Following(log, 0, map[], r2, multiset{}, map[]), Following(log, 0, map[], r3, multiset{}, map[]),
          Following(log, 0, map[], r4, multiset{}, map["a" := 2]),
          Following(log, 0, map[], r5, multiset{}, map["a" := 2])];
    CrashesAway(s[8]);
  }

  lemma SecondLife() returns (s: seq<State>)
    ensures |s| == 6 && s[0] == Waiting([POSTS, WITHDRAWS], 0, map[], map["a" := 2])
    ensures forall i :: 0 <= i < 5 ==> Step(s[i], ACK_EVENTS[i + 9], s[i + 1])
    ensures s[5] == Following([POSTS, WITHDRAWS], 0, map["a" := POSTED], Open(SC.IDLE, 0, 1, 1, 1, {}, {1}), multiset{},
                              map["a" := 1])
  {
    hide Step, Received, Displayed;
    var log, at := [POSTS, WITHDRAWS], map["a" := 2];
    var r1, r2 := Open(HELD_ONE, 0, 0, 0, 1, {}, {}), Open(OneShowing(Post(POSTED), 1), 0, 0, 1, 1, {}, {});
    var r3, r4 := r2.(shown := {0}), Open(SC.IDLE, 0, 1, 1, 1, {}, {1});
    Receiving(log);
    Launches(log, 0, map[], at);
    ReceiveTakes(log, 0, map[], NewRun(0, true), multiset{}, at, NextRow, r1);
    ReceiveTakes(log, 0, map[], r1, multiset{}, at, BurstEnd, r2);
    ShowTakes(log, 0, map[], r2, multiset{}, at, Post(POSTED));
    assert Apply(map[], Post(POSTED)) == map["a" := POSTED] && r2.shown + {0} == {0} && at["a" := 1] == map["a" := 1];
    CompleteTakes(log, 0, map["a" := POSTED], r3, multiset{}, map["a" := 1], Post(POSTED), r4);
    s := [Waiting(log, 0, map[], at), Following(log, 0, map[], NewRun(0, true), multiset{}, at),
          Following(log, 0, map[], r1, multiset{}, at), Following(log, 0, map[], r2, multiset{}, at),
          Following(log, 0, map["a" := POSTED], r3, multiset{}, map["a" := 1]),
          Following(log, 0, map["a" := POSTED], r4, multiset{}, map["a" := 1])];
  }

  lemma TwoLives() returns (states: seq<State>)
    ensures Lifetime(states, ACK_EVENTS) && |ACK_EVENTS| == 14 && |states| == 15
    ensures |states[8].runs| == 1 && 2 in states[8].runs[0].sent
    ensures states[14] == Following([POSTS, WITHDRAWS], 0, map["a" := POSTED], Open(SC.IDLE, 0, 1, 1, 1, {}, {1}),
                                    multiset{},
                                    map["a" := 1])
  {
    hide Step, Received, Displayed, Init, Following, Waiting, Open;
    var first := FirstLife();
    var second := SecondLife();
    states := first + second;
    forall i | 0 <= i < 14
      ensures StepAt(states, ACK_EVENTS, i)
    {
      assert i < 8 ==> Step(first[i], ACK_EVENTS[i], first[i + 1]);
      assert i > 8 ==> Step(second[i - 9], ACK_EVENTS[i - 9 + 9], second[i - 9 + 1]);
    }
  }

  /** A subscription sent the ack of both rows and outlived a crash of the notifier. If it commits the ack only when the
      next run has put the first row back up, a further crash leaves the withdrawn notification up for good: the run
      after it starts past the withdrawal. So a subscription must not commit once its run is over. */
  lemma LateAckLosesAWithdrawal() returns (states: seq<State>, events: seq<Event>, s1: State, s2: State, s3: State)
    ensures Lifetime(states, events) && |events| == 14 && events[8] == Crash
    ensures |states[8].runs| == 1 && 2 in states[8].runs[0].sent
    ensures s1 == states[14].(committed := 2) && Step(s1, Crash, s2) && Step(s2, Launch(true), s3) && Wrong(s3)
  {
    hide Step, Lifetime;
    states := TwoLives();
    events := ACK_EVENTS;
    var log, screen := [POSTS, WITHDRAWS], map["a" := POSTED];
    s1 := states[14].(committed := 2);
    s2 := Waiting(log, 2, screen, map["a" := 1]);
    s3 := Following(log, 2, screen, NewRun(2, true), multiset{}, map["a" := 1]);
    CrashesAway(s1);
    Launches(log, 2, screen, map["a" := 1]);
    StillUp(s3);
  }
}
