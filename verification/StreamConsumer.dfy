/** The subscription's consumer: NDJSON events in, one folded batch at a time on screen, acks out
    (`Consumer` in macos/notifier/main.swift). */
module StreamConsumer {
  import opened Wrappers
  import opened Notices

  type Byte = bv8
  const NEWLINE: Byte := 0x0A

  /** An event line as it is read; a line that is no event, or a message without a seq, is `Other`. */
  datatype Event =
    | MessageEvent(message: Message)
    | Unreadable(seqno: Option<int>)
    | CaughtUp
    | Other

  /** The batch on screen, and the seq to ack once it has been displayed. */
  datatype Showing = Showing(batch: seq<Action>, upTo: int)

  /** The consumer's fields: `showing` is what `busy` and the display's completion closure hold. */
  datatype Core = Core(pending: seq<Message>, pendingSeq: Option<int>, caughtUp: bool, showing: Option<Showing>)

  const IDLE := Core([], None, false, None)

  predicate Busy(c: Core) {
    c.showing.Some?
  }

  function Later(was: Option<int>, seqno: int): int {
    if was.Some? && was.value > seqno then was.value else seqno
  }

  /** Start the next batch, if a burst has ended and none is on screen. */
  function Flushed(c: Core): Core {
    if c.caughtUp && c.showing.None? && c.pendingSeq.Some?
    then Core([], None, false, Some(Showing(FoldOf(c.pending), c.pendingSeq.value)))
    else c
  }

  function Handled(c: Core, e: Event): Core {
    match e
    case MessageEvent(m) => c.(pending := c.pending + [m], pendingSeq := Some(Later(c.pendingSeq, m.seqno)))
    case Unreadable(q) =>
      Flushed(c.(caughtUp := true, pendingSeq := if q.Some? then Some(Later(c.pendingSeq, q.value)) else c.pendingSeq))
    case CaughtUp => Flushed(c.(caughtUp := true))
    case Other => c
  }

  /** The display finished: the batch's seq is acked and a burst that ended meanwhile is started. */
  function Completed(c: Core): Core
    requires Busy(c)
  {
    Flushed(c.(showing := None))
  }

  // ---------------------------------------------------------------------------------------
  // Splitting bytes into lines
  // ---------------------------------------------------------------------------------------

  function FirstNewline(b: seq<Byte>): (i: nat)
    ensures i <= |b|
    ensures i < |b| ==> b[i] == NEWLINE
    ensures forall k :: 0 <= k < i ==> b[k] != NEWLINE
  {
    if b == [] || b[0] == NEWLINE then 0 else 1 + FirstNewline(b[1..])
  }

  /** The complete lines of `b`, and what is left after the last newline. */
  function Lines(b: seq<Byte>): seq<seq<Byte>>
    decreases |b|
  {
    var i := FirstNewline(b);
    if i == |b| then [] else [b[..i]] + Lines(b[i + 1..])
  }

  function Rest(b: seq<Byte>): seq<Byte>
    decreases |b|
  {
    var i := FirstNewline(b);
    if i == |b| then b else Rest(b[i + 1..])
  }

  lemma FirstNewlineIs(b: seq<Byte>, i: nat)
    requires i < |b| && b[i] == NEWLINE && forall k :: 0 <= k < i ==> b[k] != NEWLINE
    ensures FirstNewline(b) == i
  {
  }

  /** Bytes may be handed over in any pieces: the lines are those of the whole. */
  lemma {:induction false} SplittingIsHarmless(a: seq<Byte>, b: seq<Byte>)
    ensures Lines(a + b) == Lines(a) + Lines(Rest(a) + b)
    ensures Rest(a + b) == Rest(Rest(a) + b)
    decreases |a|
  {
    hide FirstNewline, Lines, Rest;
    FirstLine(a);
    RestOfFirst(a);
    var i := FirstNewline(a);
    if i < |a| {
      FirstNewlineIs(a + b, i);
      FirstLine(a + b);
      RestOfFirst(a + b);
      assert (a + b)[..i] == a[..i];
      assert (a + b)[i + 1..] == a[i + 1..] + b;
      SplittingIsHarmless(a[i + 1..], b);
    } else {
      assert [] + Lines(a + b) == Lines(a + b);
    }
  }

  /** A line's event, by the JSON reader `parse`. */
  function Events(parse: seq<Byte> -> Event, lines: seq<seq<Byte>>): seq<Event> {
    if lines == [] then [] else Events(parse, lines[..|lines| - 1]) + [parse(lines[|lines| - 1])]
  }

  /** The lines with their newlines put back. */
  function Unlines(lines: seq<seq<Byte>>): seq<Byte> {
    if lines == [] then [] else lines[0] + [NEWLINE] + Unlines(lines[1..])
  }

  /** Nothing is lost or made up: the lines, each with its newline, and the remainder are the bytes. */
  lemma {:induction false} LinesRebuild(b: seq<Byte>)
    ensures Unlines(Lines(b)) + Rest(b) == b
    decreases |b|
  {
    hide Lines, Rest, FirstNewline;
    FirstLine(b);
    RestOfFirst(b);
    var i := FirstNewline(b);
    if i < |b| {
      LinesRebuild(b[i + 1..]);
      OneMoreUnline(b[..i], Lines(b[i + 1..]));
      assert b == b[..i] + [NEWLINE] + b[i + 1..];
    }
  }

  lemma OneMoreUnline(line: seq<Byte>, more: seq<seq<Byte>>)
    ensures Unlines([line] + more) == line + [NEWLINE] + Unlines(more)
  {
    assert ([line] + more)[1..] == more;
  }

  /** And split at every newline: none is left in a line or in the remainder. */
  lemma {:induction false} NoNewlineLeft(b: seq<Byte>)
    ensures NEWLINE !in Rest(b)
    ensures forall line :: line in Lines(b) ==> NEWLINE !in line
    decreases |b|
  {
    hide Lines, Rest;
    FirstLine(b);
    RestOfFirst(b);
    var i := FirstNewline(b);
    if i < |b| {
      NoNewlineLeft(b[i + 1..]);
    }
  }

  /** One event a line, in order. */
  lemma {:induction false} EventOfEachLine(parse: seq<Byte> -> Event, lines: seq<seq<Byte>>)
    ensures |Events(parse, lines)| == |lines|
    ensures forall i :: 0 <= i < |lines| ==> Events(parse, lines)[i] == parse(lines[i])
  {
    if lines != [] {
      EventOfEachLine(parse, lines[..|lines| - 1]);
    }
  }

  lemma {:induction false} EventsConcat(parse: seq<Byte> -> Event, x: seq<seq<Byte>>, y: seq<seq<Byte>>)
    ensures Events(parse, x + y) == Events(parse, x) + Events(parse, y)
  {
    if y == [] {
      assert x + y == x;
    } else {
      assert (x + y)[..|x + y| - 1] == x + y[..|y| - 1];
      EventsConcat(parse, x, y[..|y| - 1]);
    }
  }

  lemma FirstLine(b: seq<Byte>)
    ensures var i := FirstNewline(b);
            Lines(b) == if i == |b| then [] else [b[..i]] + Lines(b[i + 1..])
  {
    hide FirstNewline;
  }

  lemma RestOfFirst(b: seq<Byte>)
    ensures var i := FirstNewline(b);
            Rest(b) == if i == |b| then b else Rest(b[i + 1..])
  {
    hide FirstNewline;
  }

  // ---------------------------------------------------------------------------------------
  // Any stream of events and completions
  // ---------------------------------------------------------------------------------------

  datatype Input = Arrive(event: Event) | Complete

  /** A consumer and its history: the messages received, those of completed batches and of the one on screen, the acks
      sent, the unacked seqs a burst's end has come for (`owed`) and those none has yet (`waiting`), and the newest seq
      handled. */
  datatype History = History(
    core: Core, received: seq<Message>, displayed: seq<Message>, inFlight: seq<Message>, acks: seq<int>,
    owed: set<int>, waiting: set<int>, newest: int)

  function SeqOf(e: Event): Option<int> {
    match e
    case MessageEvent(m) => Some(m.seqno)
    case Unreadable(q) => q
    case _ => None
  }

  ghost predicate Started(h: History) {
    h == History(IDLE, [], [], [], [], {}, {}, h.newest)
  }

  /** The messages on screen after a step that may have started a batch. */
  function OnScreen(before: Core, after: Core, was: seq<Message>): seq<Message> {
    if before.showing.None? && after.showing.Some? then before.pending else was
  }

  /** An event that ends a burst: what was received can be shown. */
  predicate IsEnd(e: Event) {
    e.CaughtUp? || e.Unreadable?
  }

  /** The unacked seqs once `e` has arrived. */
  function Unacked(h: History, e: Event): set<int> {
    if SeqOf(e).Some? then h.waiting + {SeqOf(e).value} else h.waiting
  }

  /** An event arrives. */
  function Arrived(h: History, e: Event): History {
    h.(core := Handled(h.core, e),
       received := if e.MessageEvent? then h.received + [e.message] else h.received,
       inFlight := OnScreen(h.core, Handled(h.core, e), h.inFlight),
       owed := if IsEnd(e) then h.owed + Unacked(h, e) else h.owed,
       waiting := if IsEnd(e) then {} else Unacked(h, e),
       newest := if SeqOf(e).Some? then SeqOf(e).value else h.newest)
  }

  /** The batch on screen completes, and is acked. */
  function Acked(h: History): History
    requires Busy(h.core)
  {
    var ack := h.core.showing.value.upTo;
    h.(core := Completed(h.core),
       displayed := h.displayed + h.inFlight,
       inFlight := if Busy(Completed(h.core)) then h.core.pending else [],
       acks := h.acks + [ack],
       owed := (set u | u in h.owed && u > ack),
       waiting := (set u | u in h.waiting && u > ack))
  }

  predicate InSequence(h: History, e: Event) {
    SeqOf(e).Some? ==> SeqOf(e).value > h.newest
  }

  /** One step. Seqs arrive in increasing order, as the queue hands them over. */
  ghost predicate Next(h: History, input: Input, h': History) {
    match input
    case Arrive(e) => InSequence(h, e) && h' == Arrived(h, e)
    case Complete => Busy(h.core) && h' == Acked(h)
  }

  predicate AllAbove(ms: seq<Message>, k: int) {
    forall m :: m in ms ==> m.seqno > k
  }

  predicate AllUpTo(ms: seq<Message>, k: int) {
    forall m :: m in ms ==> m.seqno <= k
  }

  ghost predicate Increasing(s: seq<int>) {
    forall i, j :: 0 <= i < j < |s| ==> s[i] < s[j]
  }

  ghost predicate Above(acks: seq<int>, k: int) {
    forall a :: a in acks ==> a < k
  }

  /** The seq past which everything is pending: the batch on screen's, else what has been acked. */
  ghost predicate Separates(h: History) {
    && (h.core.showing.Some? ==>
          var k := h.core.showing.value.upTo;
          && Above(h.acks, k) && k <= h.newest
          && AllUpTo(h.inFlight, k) && AllAbove(h.core.pending, k)
          && (h.core.pendingSeq.Some? ==> h.core.pendingSeq.value > k))
    && (h.core.pendingSeq.Some? ==>
          && AllUpTo(h.core.pending, h.core.pendingSeq.value) && Above(h.acks, h.core.pendingSeq.value)
          && h.core.pendingSeq.value == h.newest)
    && (h.core.pendingSeq.None? ==> h.core.pending == [])
    && Above(h.acks, h.newest + 1)
    && (forall a :: a in h.acks ==> AllAbove(h.core.pending, a))
  }

  /** What is owed is on screen, or behind the batch on screen with its end remembered; what is waiting is on screen or
      pending. */
  ghost predicate NeverIdleOwing(h: History) {
    && (forall u :: u in h.owed ==>
          && h.core.showing.Some?
          && (u <= h.core.showing.value.upTo
              || (h.core.caughtUp && h.core.pendingSeq.Some? && u <= h.core.pendingSeq.value)))
    && (forall u :: u in h.waiting ==>
          || (h.core.showing.Some? && u <= h.core.showing.value.upTo)
          || (h.core.pendingSeq.Some? && u <= h.core.pendingSeq.value))
  }

  ghost predicate StreamOk(h: History) {
    && h.received == h.displayed + h.inFlight + h.core.pending
    && (h.core.showing.None? ==> h.inFlight == [])
    && (h.core.showing.Some? ==> h.core.showing.value.batch == FoldOf(h.inFlight))
    && Increasing(h.acks)
    && Separates(h)
    && NeverIdleOwing(h)
  }

  lemma ArriveKeeps(h: History, e: Event, h': History)
    requires StreamOk(h) && Next(h, Arrive(e), h')
    ensures StreamOk(h')
  {
    if e.MessageEvent? {
      MessageKeeps(h, e, h');
    } else {
      OtherKeeps(h, e, h');
    }
  }

  lemma MessageKeeps(h: History, e: Event, h': History)
    requires StreamOk(h) && Next(h, Arrive(e), h') && e.MessageEvent?
    ensures StreamOk(h')
  {
    hide FoldOf;
    assert h'.received == h.displayed + h.inFlight + (h.core.pending + [e.message]);
  }

  lemma OtherKeeps(h: History, e: Event, h': History)
    requires StreamOk(h) && Next(h, Arrive(e), h') && !e.MessageEvent?
    ensures StreamOk(h')
  {
    hide FoldOf;
    assert h.displayed + h.inFlight + h.core.pending == h.displayed + (h.inFlight + h.core.pending);
    assert h.displayed + h.core.pending + [] == h.displayed + h.core.pending;
  }

  lemma CompleteKeeps(h: History, h': History)
    requires StreamOk(h) && Next(h, Complete, h')
    ensures StreamOk(h')
  {
    assert h'.received == h'.displayed + h'.inFlight + h'.core.pending;
    assert forall i :: 0 <= i < |h.acks| ==> h.acks[i] in h.acks;
  }

  ghost predicate StreamRun(hs: seq<History>, inputs: seq<Input>) {
    && |hs| == |inputs| + 1
    && Started(hs[0])
    && forall i :: 0 <= i < |inputs| ==> NextAt(hs, inputs, i)
  }

  ghost predicate NextAt(hs: seq<History>, inputs: seq<Input>, i: nat) {
    i < |inputs| && i + 1 < |hs| && Next(hs[i], inputs[i], hs[i + 1])
  }

  lemma {:induction false} StreamStaysOk(hs: seq<History>, inputs: seq<Input>, n: nat)
    requires StreamRun(hs, inputs) && n < |hs|
    ensures StreamOk(hs[n])
  {
    if n > 0 {
      StreamStaysOk(hs, inputs, n - 1);
      assert NextAt(hs, inputs, n - 1);
      match inputs[n - 1]
      case Arrive(e) => ArriveKeeps(hs[n - 1], e, hs[n]);
      case Complete => CompleteKeeps(hs[n - 1], hs[n]);
    }
  }

  /** Over every stream: the acks strictly increase, and when one is sent every message received with a seq up
      to it was in a batch whose display has completed. */
  lemma AckCoversDisplayed(hs: seq<History>, inputs: seq<Input>, i: nat)
    requires StreamRun(hs, inputs) && i < |inputs| && inputs[i] == Complete
    ensures |hs[i + 1].acks| == |hs[i].acks| + 1 && Increasing(hs[i + 1].acks)
    ensures var ack := hs[i + 1].acks[|hs[i].acks|];
            forall m :: m in hs[i + 1].received && m.seqno <= ack ==> m in hs[i + 1].displayed
  {
    StreamStaysOk(hs, inputs, i);
    StreamStaysOk(hs, inputs, i + 1);
    assert NextAt(hs, inputs, i);
  }

  /** Over every stream: once an end has come at or after an event with a seq, that seq is acked or a batch is on
      screen, so the completion that acks it, or starts its batch, is always still to come. */
  lemma EndedSeqNeverWedges(hs: seq<History>, inputs: seq<Input>, i: nat, j: nat, n: nat, k: int)
    requires StreamRun(hs, inputs) && i <= j < n < |hs|
    requires inputs[i].Arrive? && SeqOf(inputs[i].event) == Some(k)
    requires inputs[j].Arrive? && (inputs[j].event.CaughtUp? || inputs[j].event.Unreadable?)
    ensures Busy(hs[n].core) || exists a :: a in hs[n].acks && a >= k
  {
    OwedUntilAcked(hs, inputs, i, j, n, k);
    StreamStaysOk(hs, inputs, n);
  }

  lemma {:induction false} WaitsUntilAcked(hs: seq<History>, inputs: seq<Input>, i: nat, n: nat, k: int)
    requires StreamRun(hs, inputs) && i < n < |hs|
    requires inputs[i].Arrive? && SeqOf(inputs[i].event) == Some(k)
    ensures k in hs[n].waiting || k in hs[n].owed || exists a :: a in hs[n].acks && a >= k
    decreases n
  {
    assert NextAt(hs, inputs, n - 1);
    if n > i + 1 {
      WaitsUntilAcked(hs, inputs, i, n - 1, k);
      StepKeepsSeq(hs[n - 1], inputs[n - 1], hs[n], k);
    }
  }

  lemma {:induction false} OwedUntilAcked(hs: seq<History>, inputs: seq<Input>, i: nat, j: nat, n: nat, k: int)
    requires StreamRun(hs, inputs) && i <= j < n < |hs|
    requires inputs[i].Arrive? && SeqOf(inputs[i].event) == Some(k) && inputs[j].Arrive? && IsEnd(inputs[j].event)
    ensures k in hs[n].owed || exists a :: a in hs[n].acks && a >= k
    decreases n
  {
    assert NextAt(hs, inputs, n - 1);
    if n > j + 1 {
      OwedUntilAcked(hs, inputs, i, j, n - 1, k);
      StepKeepsSeq(hs[n - 1], inputs[n - 1], hs[n], k);
    } else if i < j {
      WaitsUntilAcked(hs, inputs, i, j, k);
      StepKeepsSeq(hs[j], inputs[j], hs[n], k);
    }
  }

  /** A seq stays owed, or waiting, until it is acked. */
  lemma StepKeepsSeq(h: History, input: Input, h': History, k: int)
    requires Next(h, input, h')
    ensures k in h.owed ==> k in h'.owed || exists a :: a in h'.acks && a >= k
    ensures k in h.waiting ==> k in h'.waiting || k in h'.owed || exists a :: a in h'.acks && a >= k
    ensures k in h.waiting && input.Arrive? && IsEnd(input.event) ==> k in h'.owed
    ensures (exists a :: a in h.acks && a >= k) ==> exists a :: a in h'.acks && a >= k
  {
    forall a | a in h.acks
      ensures a in h'.acks
    {
    }
    if input.Complete? {
      var ack := h.core.showing.value.upTo;
      assert h'.acks[|h.acks|] == ack && ack in h'.acks;
    }
  }

  /** Over every stream: from the moment an unreadable row is handled until it is acked, a batch is on screen. */
  lemma UnreadableRowNeverWedges(hs: seq<History>, inputs: seq<Input>, i: nat, n: nat, k: int)
    requires StreamRun(hs, inputs) && i < n < |hs| && inputs[i] == Arrive(Unreadable(Some(k)))
    ensures Busy(hs[n].core) || exists a :: a in hs[n].acks && a >= k
  {
    EndedSeqNeverWedges(hs, inputs, i, i, n, k);
  }

  /** Step `i` puts a batch on screen. */
  predicate StartsAt(hs: seq<History>, inputs: seq<Input>, i: nat)
    requires |hs| == |inputs| + 1 && i < |inputs|
  {
    Busy(hs[i + 1].core) && (inputs[i].Complete? || !Busy(hs[i].core))
  }

  /** A batch that starts is the fold of every message received and not yet displayed, and is acked up to the newest
      seq. */
  lemma BatchIsEverythingReceived(hs: seq<History>, inputs: seq<Input>, i: nat)
    requires StreamRun(hs, inputs) && i < |inputs| && StartsAt(hs, inputs, i)
    ensures var h := hs[i + 1];
            && h.displayed <= h.received
            && h.core.showing == Some(Showing(FoldOf(h.received[|h.displayed|..]), h.newest))
  {
    StreamStaysOk(hs, inputs, i);
    StreamStaysOk(hs, inputs, i + 1);
    assert NextAt(hs, inputs, i);
    var h := hs[i + 1];
    StartsClean(hs[i], inputs[i], h);
    assert h.received == h.displayed + h.inFlight;
    assert h.received[|h.displayed|..] == h.inFlight;
  }

  lemma StartsClean(h: History, input: Input, h': History)
    requires StreamOk(h) && Next(h, input, h') && Busy(h'.core) && (input.Complete? || !Busy(h.core))
    ensures h'.core.pending == [] && h'.core.showing.value.upTo == h'.newest
  {
    hide FoldOf;
  }

  /** When the batch on screen completes, the next starts at once if an end has come at or after a seq past its ack. */
  lemma CompletionStartsWhatIsOwed(hs: seq<History>, inputs: seq<Input>, i: nat, j: nat, n: nat, k: int)
    requires StreamRun(hs, inputs) && i <= j < n < |inputs| && inputs[n] == Complete
    requires inputs[i].Arrive? && SeqOf(inputs[i].event) == Some(k)
    requires inputs[j].Arrive? && (inputs[j].event.CaughtUp? || inputs[j].event.Unreadable?)
    requires Above(hs[n + 1].acks, k)
    ensures StartsAt(hs, inputs, n)
  {
    EndedSeqNeverWedges(hs, inputs, i, j, n + 1, k);
  }

  /** Step `j` brings an end, and no batch starts from then until step `n`. */
  predicate EndsBefore(hs: seq<History>, inputs: seq<Input>, j: nat, n: nat)
    requires |hs| == |inputs| + 1 && n <= |inputs|
  {
    && j < |inputs| && inputs[j].Arrive? && (inputs[j].event.CaughtUp? || inputs[j].event.Unreadable?)
    && forall m: nat :: j <= m < n ==> !StartsAt(hs, inputs, m)
  }

  /** And no batch starts early: only at or after an end that came since the last one started. */
  lemma StartsAfterAnEnd(hs: seq<History>, inputs: seq<Input>, i: nat)
    requires StreamRun(hs, inputs) && i < |inputs| && StartsAt(hs, inputs, i)
    ensures exists j: nat :: j <= i && EndsBefore(hs, inputs, j, i)
  {
    assert NextAt(hs, inputs, i);
    if inputs[i].Arrive? && IsEnd(inputs[i].event) {
      assert EndsBefore(hs, inputs, i, i);
    } else {
      CaughtUpByAnEnd(hs, inputs, i);
    }
  }

  lemma {:induction false} CaughtUpByAnEnd(hs: seq<History>, inputs: seq<Input>, n: nat)
    requires StreamRun(hs, inputs) && n < |hs| && hs[n].core.caughtUp
    ensures exists j: nat :: j < n && EndsBefore(hs, inputs, j, n)
  {
    if n > 0 {
      assert NextAt(hs, inputs, n - 1);
      StartForgetsEnd(hs[n - 1], inputs[n - 1], hs[n]);
      if inputs[n - 1].Arrive? && IsEnd(inputs[n - 1].event) {
        assert EndsBefore(hs, inputs, n - 1, n);
      } else {
        CaughtUpByAnEnd(hs, inputs, n - 1);
        var j: nat :| j < n - 1 && EndsBefore(hs, inputs, j, n - 1);
        assert EndsBefore(hs, inputs, j, n);
      }
    }
  }

  lemma StartForgetsEnd(h: History, input: Input, h': History)
    requires Next(h, input, h') && h'.core.caughtUp
    ensures !(Busy(h'.core) && (input.Complete? || !Busy(h.core)))
    ensures h.core.caughtUp || (input.Arrive? && IsEnd(input.event))
  {
  }

  /** A message that comes after the end, with nothing owed, waits: the source does not flush on a message, so an end
      that found nothing pending does not show it. */
  lemma EndBeforeTheMessageDoesNotFlush() returns (hs: seq<History>, inputs: seq<Input>)
    ensures StreamRun(hs, inputs) && inputs == [Arrive(CaughtUp), Arrive(MessageEvent(Message(1, None)))]
    ensures !Busy(hs[2].core) && hs[2].acks == [] && hs[2].waiting == {1}
  {
    inputs := [Arrive(CaughtUp), Arrive(MessageEvent(Message(1, None)))];
    var h1 := Arrived(NEW, CaughtUp);
    hs := [NEW, h1, Arrived(h1, MessageEvent(Message(1, None)))];
    assert NextAt(hs, inputs, 0) && NextAt(hs, inputs, 1);
    assert {} + {1} == {1};
  }

  // ---------------------------------------------------------------------------------------
  // Bytes in any pieces
  // ---------------------------------------------------------------------------------------

  const NEW := History(IDLE, [], [], [], [], {}, {}, 0)

  function ArrivedAll(h: History, es: seq<Event>): History {
    if es == [] then h else Arrived(ArrivedAll(h, es[..|es| - 1]), es[|es| - 1])
  }

  predicate AllInSequence(h: History, es: seq<Event>) {
    es == [] || (AllInSequence(h, es[..|es| - 1]) && InSequence(ArrivedAll(h, es[..|es| - 1]), es[|es| - 1]))
  }

  lemma {:induction false} ArrivedAllConcat(h: History, x: seq<Event>, y: seq<Event>)
    ensures ArrivedAll(h, x + y) == ArrivedAll(ArrivedAll(h, x), y)
    ensures AllInSequence(h, x + y) <==> AllInSequence(h, x) && AllInSequence(ArrivedAll(h, x), y)
  {
    hide Arrived, InSequence;
    if y == [] {
      assert x + y == x;
    } else {
      assert (x + y)[..|x + y| - 1] == x + y[..|y| - 1];
      ArrivedAllConcat(h, x, y[..|y| - 1]);
    }
  }

  lemma {:induction false} ArrivedAllOk(h: History, es: seq<Event>)
    requires StreamOk(h) && AllInSequence(h, es)
    ensures StreamOk(ArrivedAll(h, es))
  {
    hide StreamOk, Arrived, InSequence;
    if es != [] {
      var before, e := es[..|es| - 1], es[|es| - 1];
      ArrivedAllOk(h, before);
      ArriveKeeps(ArrivedAll(h, before), e, ArrivedAll(h, es));
    }
  }

  lemma OneMoreLine(h: History, parse: seq<Byte> -> Event, done: seq<seq<Byte>>, line: seq<Byte>)
    ensures ArrivedAll(h, Events(parse, done + [line])) == Arrived(ArrivedAll(h, Events(parse, done)), parse(line))
  {
    hide Arrived;
    assert (done + [line])[..|done|] == done;
    var es := Events(parse, done);
    assert (es + [parse(line)])[..|es|] == es;
  }

  lemma NoLines(h: History, parse: seq<Byte> -> Event)
    ensures ArrivedAll(h, Events(parse, [])) == h
  {
  }

  /** What the consumer is given: bytes off the stream, or word that the batch on screen was displayed. */
  datatype Feed = Chunk(data: seq<Byte>) | Finished

  /** The bytes kept for the next line, and the history so far. */
  datatype Fed = Fed(buffer: seq<Byte>, history: History)

  predicate MayFinish(f: Fed, feed: Feed) {
    feed.Finished? ==> Busy(f.history.core)
  }

  function FedOne(parse: seq<Byte> -> Event, f: Fed, feed: Feed): Fed
    requires MayFinish(f, feed)
  {
    match feed
    case Chunk(data) => Fed(Rest(f.buffer + data), ArrivedAll(f.history, Events(parse, Lines(f.buffer + data))))
    case Finished => Fed(f.buffer, Acked(f.history))
  }

  /** The display finishes only what is on screen, and the stream's seqs increase. */
  predicate Feasible(parse: seq<Byte> -> Event, f: Fed, feeds: seq<Feed>)
    decreases |feeds|
  {
    feeds == [] ||
    (&& MayFinish(f, feeds[0])
     && (feeds[0].Chunk? ==> AllInSequence(f.history, Events(parse, Lines(f.buffer + feeds[0].data))))
     && Feasible(parse, FedOne(parse, f, feeds[0]), feeds[1..]))
  }

  function FedAll(parse: seq<Byte> -> Event, f: Fed, feeds: seq<Feed>): Fed
    requires Feasible(parse, f, feeds)
    decreases |feeds|
  {
    if feeds == [] then f else FedAll(parse, FedOne(parse, f, feeds[0]), feeds[1..])
  }

  /** Two chunks are one: the same bytes leave the same behind. */
  lemma TwoChunksAreOne(parse: seq<Byte> -> Event, f: Fed, a: seq<Byte>, b: seq<Byte>)
    ensures FedOne(parse, FedOne(parse, f, Chunk(a)), Chunk(b)) == FedOne(parse, f, Chunk(a + b))
    ensures var next := FedOne(parse, f, Chunk(a));
            AllInSequence(f.history, Events(parse, Lines(f.buffer + (a + b)))) <==>
            && AllInSequence(f.history, Events(parse, Lines(f.buffer + a)))
            && AllInSequence(next.history, Events(parse, Lines(next.buffer + b)))
  {
    hide Lines, Rest, Events, ArrivedAll, AllInSequence;
    var kept := f.buffer;
    assert kept + (a + b) == (kept + a) + b;
    SplittingIsHarmless(kept + a, b);
    EventsConcat(parse, Lines(kept + a), Lines(Rest(kept + a) + b));
    ArrivedAllConcat(f.history, Events(parse, Lines(kept + a)), Events(parse, Lines(Rest(kept + a) + b)));
  }

  /** The feeds with every run of chunks joined into one: what does not depend on how the bytes were split. */
  function Joined(feeds: seq<Feed>): seq<Feed>
    decreases |feeds|
  {
    if |feeds| <= 1 then feeds
    else if feeds[0].Chunk? && feeds[1].Chunk? then Joined([Chunk(feeds[0].data + feeds[1].data)] + feeds[2..])
    else [feeds[0]] + Joined(feeds[1..])
  }

  /** However the bytes between completions are split into chunks, the consumer ends the same. */
  lemma {:induction false} AnySplitting(parse: seq<Byte> -> Event, f: Fed, feeds: seq<Feed>)
    ensures Feasible(parse, f, feeds) <==> Feasible(parse, f, Joined(feeds))
    ensures Feasible(parse, f, feeds) ==> FedAll(parse, f, feeds) == FedAll(parse, f, Joined(feeds))
    decreases |feeds|
  {
    hide FedOne, AllInSequence;
    if |feeds| > 1 {
      if feeds[0].Chunk? && feeds[1].Chunk? {
        var a, b, rest := feeds[0].data, feeds[1].data, feeds[2..];
        var joined := [Chunk(a + b)] + rest;
        TwoChunksAreOne(parse, f, a, b);
        assert joined[1..] == rest && feeds[1..][1..] == rest && feeds[1..][0] == Chunk(b);
        AnySplitting(parse, f, joined);
      } else {
        var joined := Joined(feeds);
        assert joined[0] == feeds[0] && joined[1..] == Joined(feeds[1..]);
        if MayFinish(f, feeds[0]) {
          AnySplitting(parse, FedOne(parse, f, feeds[0]), feeds[1..]);
        }
      }
    }
  }

  /** Two splittings of the same stream leave the same consumer. */
  lemma SameStreamSameState(parse: seq<Byte> -> Event, f: Fed, x: seq<Feed>, y: seq<Feed>)
    requires Joined(x) == Joined(y) && Feasible(parse, f, x)
    ensures Feasible(parse, f, y) && FedAll(parse, f, x) == FedAll(parse, f, y)
  {
    AnySplitting(parse, f, x);
    AnySplitting(parse, f, y);
  }

  lemma {:induction false} FeedsStayOk(parse: seq<Byte> -> Event, f: Fed, feeds: seq<Feed>)
    requires StreamOk(f.history) && Feasible(parse, f, feeds)
    ensures StreamOk(FedAll(parse, f, feeds).history)
    decreases |feeds|
  {
    hide StreamOk, AllInSequence;
    if feeds != [] {
      match feeds[0] {
        case Chunk(data) => ArrivedAllOk(f.history, Events(parse, Lines(f.buffer + data)));
        case Finished => CompleteKeeps(f.history, Acked(f.history));
      }
      FeedsStayOk(parse, FedOne(parse, f, feeds[0]), feeds[1..]);
    }
  }

  /** Whatever chunks and completions a new consumer has been given: a seq that an end has come for and that is not yet
      acked keeps it displaying; when the batch on screen completes its ack exceeds every earlier one, every message
      received with a seq up to it has been displayed, and, if a seq past it is owed, the next batch is everything else
      received. */
  lemma AnyFeedsAckInOrder(parse: seq<Byte> -> Event, feeds: seq<Feed>)
    requires Feasible(parse, Fed([], NEW), feeds)
    ensures var h := FedAll(parse, Fed([], NEW), feeds).history;
            && (h.owed != {} ==> Busy(h.core))
            && (Busy(h.core) ==>
                  var ack, next := h.core.showing.value.upTo, Acked(h);
                  && next.acks == h.acks + [ack] && Increasing(next.acks)
                  && (forall m :: m in h.received && m.seqno <= ack ==> m in next.displayed)
                  && ((exists u :: u in h.owed && u > ack) ==>
                        && next.displayed <= h.received
                        && next.core.showing == Some(Showing(FoldOf(h.received[|next.displayed|..]), h.newest))))
  {
    FeedsStayOk(parse, Fed([], NEW), feeds);
    var h := FedAll(parse, Fed([], NEW), feeds).history;
    if h.owed != {} {
      var u := SomeMember(h.owed);
    }
    if Busy(h.core) {
      AckedOk(h);
    }
  }

  lemma AckedOk(h: History)
    requires StreamOk(h) && Busy(h.core)
    ensures var ack, next := h.core.showing.value.upTo, Acked(h);
            && next.acks == h.acks + [ack] && Increasing(next.acks)
            && (forall m :: m in h.received && m.seqno <= ack ==> m in next.displayed)
            && ((exists u :: u in h.owed && u > ack) ==>
                  && next.displayed <= h.received
                  && next.core.showing == Some(Showing(FoldOf(h.received[|next.displayed|..]), h.newest)))
  {
    CompleteKeeps(h, Acked(h));
    var next := Acked(h);
    if u :| u in h.owed && u > h.core.showing.value.upTo {
      StartsClean(h, Complete, next);
      assert h.received == next.displayed + next.inFlight;
      assert h.received[|next.displayed|..] == next.inFlight;
    }
  }

  // ---------------------------------------------------------------------------------------
  // The consumer
  // ---------------------------------------------------------------------------------------

  class Consumer {
    const parse: seq<Byte> -> Event
    var buffer: seq<Byte>
    var pending: seq<Message>
    var pendingSeq: Option<int>
    var caughtUp: bool
    var busy: bool
    /** The completion closure the display holds while `busy`. */
    var onScreen: Showing
    /** The acks sent, in order. */
    var acks: seq<int>

    /** What the consumer has been through. */
    ghost var past: History

    ghost predicate Valid()
      reads this
    {
      past.core == Value() && past.acks == acks
    }

    ghost function Value(): Core
      reads this
    {
      Core(pending, pendingSeq, caughtUp, if busy then Some(onScreen) else None)
    }

    constructor (parse: seq<Byte> -> Event)
      ensures Valid() && this.parse == parse && buffer == [] && past == NEW
    {
      this.parse := parse;
      buffer, pending, pendingSeq, caughtUp, busy := [], [], None, false, false;
      onScreen, acks := Showing([], 0), [];
      past := NEW;
    }

    /** Bytes from the subscription's stdout: every complete line is handled, the rest is kept. */
    method Receive(data: seq<Byte>)
      requires Valid()
      modifies this
      ensures Valid() && Fed(buffer, past) == FedOne(parse, Fed(old(buffer), old(past)), Chunk(data))
    {
      hide ArrivedAll, Events, Lines, Rest, FirstNewline, Handled;
      buffer := buffer + data;
      ghost var all := buffer;
      ghost var done: seq<seq<Byte>> := [];
      NoLines(past, parse);
      var i := NewlineAt(buffer);
      while i < |buffer|
        invariant Valid() && i == FirstNewline(buffer)
        invariant done + Lines(buffer) == Lines(all) && Rest(buffer) == Rest(all)
        invariant past == ArrivedAll(old(past), Events(parse, done))
        decreases |buffer|
      {
        var line := buffer[..i];
        FirstLine(buffer);
        RestOfFirst(buffer);
        OneMoreLine(old(past), parse, done, line);
        assert done + Lines(buffer) == done + [line] + Lines(buffer[i + 1..]);
        buffer := buffer[i + 1..];
        done := done + [line];
        Handle(line);
        past := Arrived(past, parse(line));
        i := NewlineAt(buffer);
      }
      FirstLine(buffer);
      RestOfFirst(buffer);
      assert done + Lines(buffer) == done;
    }

    method NewlineAt(b: seq<Byte>) returns (i: nat)
      ensures i == FirstNewline(b)
    {
      i := 0;
      while i < |b| && b[i] != NEWLINE
        invariant i <= |b| && forall k :: 0 <= k < i ==> b[k] != NEWLINE
      {
        i := i + 1;
      }
      if i < |b| {
        FirstNewlineIs(b, i);
      }
    }

    method Handle(line: seq<Byte>)
      modifies `pending, `pendingSeq, `caughtUp, `busy, `onScreen
      ensures Value() == Handled(old(Value()), parse(line))
    {
      match parse(line)
      case MessageEvent(m) =>
        pending := pending + [m];
        pendingSeq := Some(Later(pendingSeq, m.seqno));
      case Unreadable(q) =>
        if q.Some? {
          pendingSeq := Some(Later(pendingSeq, q.value));
        }
        caughtUp := true;
        Flush();
      case CaughtUp =>
        caughtUp := true;
        Flush();
      case Other =>
    }

    method Flush()
      modifies `pending, `pendingSeq, `caughtUp, `busy, `onScreen
      ensures Value() == Flushed(old(Value()))
    {
      if caughtUp && !busy && pendingSeq.Some? {
        var batch := Fold(pending);
        onScreen := Showing(batch, pendingSeq.value);
        pending, pendingSeq, caughtUp, busy := [], None, false, true;
      }
    }

    /** The display calls back. */
    method Done()
      requires Valid() && busy
      modifies this
      ensures Valid() && Fed(buffer, past) == FedOne(parse, Fed(old(buffer), old(past)), Finished)
      ensures acks == old(acks) + [old(onScreen).upTo]
    {
      past := Acked(past);
      acks := acks + [onScreen.upTo];
      busy := false;
      Flush();
    }
  }
}
