/**
  What the callbacks of a call can look like, over all runs: Executing, at most
  one Retrieving, then one terminal state. The queue never fills, nothing gets
  stuck, and the handler leaves only behind a terminal state.
 */
module CallProtocol {
  import opened CallMachine

  function LastState(log: seq<CallState>): CallState {
    if log == [] then Unknown else log[|log| - 1]
  }

  function DeliverOne(log: seq<CallState>, e: CallState): seq<CallState> {
    if Terminal(LastState(log)) then log else log + [e]
  }

  /** The callbacks that a sequence of events leads to. */
  function Deliver(events: seq<CallState>): seq<CallState> {
    if events == [] then [] else DeliverOne(Deliver(events[..|events| - 1]), events[|events| - 1])
  }

  /** Executing, at most one Retrieving, at most one terminal state, and nothing more. */
  predicate ValidLog(log: seq<CallState>) {
    log == [] ||
    (log[0].Executing? &&
     var rest := if |log| > 1 && log[1].Retrieving? then log[2..] else log[1..];
     rest == [] || (|rest| == 1 && Terminal(rest[0])))
  }

  function OwnEvents(events: seq<CallState>): seq<CallState> {
    if events == [] then []
    else
      var e := events[|events| - 1];
      OwnEvents(events[..|events| - 1]) + (if e.Canceled? then [] else [e])
  }

  function Cancels(events: seq<CallState>): nat {
    if events == [] then 0
    else Cancels(events[..|events| - 1]) + (if events[|events| - 1].Canceled? then 1 else 0)
  }

  /** The executor has sent exactly what its position says. */
  predicate ExecutorSent(own: seq<CallState>, x: Executor) {
    match x
    case Emitting(Executing, _) => own == []
    case Emitting(Retrieving, _) => own == [Executing]
    case Emitting(ExecutingFailed, _) => own == [Executing]
    case Emitting(e, _) => own == [Executing, Retrieving] && Terminal(e) && !e.Canceled?
    case Running => own == [Executing]
    case Opening => own == [Executing]
    case Draining => own == [Executing, Retrieving]
    case Archiving => own == [Executing, Retrieving]
    case _ => OwnComplete(own)
  }

  predicate OwnComplete(own: seq<CallState>) {
    own == [Executing, ExecutingFailed] ||
    (|own| == 3 && own[..2] == [Executing, Retrieving] && Terminal(own[2]) && !own[2].Canceled?
     && !own[2].ExecutingFailed?)
  }

  predicate SendsOne(p: Canceller) {
    p.Entered? || p.Sending?
  }

  predicate OnceOk(g: Cancelling, sent: seq<CallState>) {
    && (forall i :: 0 <= i < |g.callers| && SendsOne(g.callers[i]) ==> g.once == HeldBy(i))
    && (g.once.HeldBy? ==> g.once.who < |g.callers| && SendsOne(g.callers[g.once.who]))
    && (!g.once.Used? ==> Cancels(sent) == 0)
    && Cancels(sent) <= 1
  }

  /** A canceller goes on only after it saw a running call. */
  predicate CancelsLate(g: Cancelling, sent: seq<CallState>) {
    && (sent != [] ==> sent[0].Executing?)
    && (forall i :: 0 <= i < |g.callers| && (SendsOne(g.callers[i]) || g.callers[i].Willing?) ==> sent != [])
  }

  /** The handler's state and callbacks follow from what it received. */
  predicate Handled(c: Call) {
    && c.sent == c.received + c.queue
    && match c.handler {
      case Processing(e, _) =>
        && c.received != [] && e == c.received[|c.received| - 1]
        && c.log == Deliver(c.received[..|c.received| - 1]) && c.state == LastState(c.log)
      case Notifying(e, _) =>
        && c.received != [] && e == c.received[|c.received| - 1] && c.state == e
        && c.log == Deliver(c.received[..|c.received| - 1]) && !Terminal(LastState(c.log))
      case _ => c.log == Deliver(c.received) && c.state == LastState(c.log)
    }
  }

  predicate Leaving(h: Handler) {
    h.Emptying? || h.Exited? || (h.Processing? && h.last) || (h.Notifying? && h.last)
  }

  predicate DoneOk(c: Call) {
    && (c.doneClosed <==> c.executor.Finished?)
    && (c.doneFlag <==> c.executor.Finished? || c.executor.ClosingDone?)
    && (Leaving(c.handler) ==> c.doneClosed)
    && (c.handler.Exited? ==> Terminal(LastState(c.log)))
  }

  predicate Inv(c: Call) {
    && ExecutorSent(OwnEvents(c.sent), c.executor)
    && OnceOk(c.cancelling, c.sent) && CancelsLate(c.cancelling, c.sent)
    && (!c.state.Unknown? ==> c.sent != [])
    && Handled(c) && DoneOk(c)
  }

  // ----- Sequences of events -----

  lemma SentGrows(events: seq<CallState>, e: CallState)
    ensures OwnEvents(events + [e]) == OwnEvents(events) + (if e.Canceled? then [] else [e])
    ensures Cancels(events + [e]) == Cancels(events) + (if e.Canceled? then 1 else 0)
    ensures Deliver(events + [e]) == DeliverOne(Deliver(events), e)
  {
    assert (events + [e])[..|events|] == events;
  }

  lemma {:induction false} SentSize(events: seq<CallState>)
    ensures |events| == |OwnEvents(events)| + Cancels(events)
  {
    if events != [] {
      SentSize(events[..|events| - 1]);
    }
  }

  lemma {:induction false} OwnAppend(a: seq<CallState>, b: seq<CallState>)
    ensures OwnEvents(a + b) == OwnEvents(a) + OwnEvents(b)
    ensures Cancels(a + b) == Cancels(a) + Cancels(b)
    decreases |b|
  {
    if b == [] {
      assert a + b == a;
    } else {
      var n := |b| - 1;
      assert a + b == (a + b[..n]) + [b[n]] && b == b[..n] + [b[n]];
      OwnAppend(a, b[..n]);
      SentGrows(a + b[..n], b[n]);
      SentGrows(b[..n], b[n]);
    }
  }

  /** What the executor can have sent at any time. */
  predicate OwnShape(own: seq<CallState>) {
    own <= [Executing, ExecutingFailed] || own <= [Executing, Retrieving] || OwnComplete(own)
  }

  lemma ExecutorShape(own: seq<CallState>, x: Executor)
    requires ExecutorSent(own, x)
    ensures OwnShape(own) && |own| <= 3
    ensures own == [] ==> x.Emitting? && x.event.Executing?
  {
  }

  lemma OwnShapePrefix(own: seq<CallState>, e: CallState)
    requires OwnShape(own + [e])
    ensures OwnShape(own) && !Terminal(LastState(own)) && !e.Canceled?
  {
    assert (own + [e])[..|own|] == own;
    assert (own + [e])[|own|] == e;
    if |own| == 2 && !(own + [e] <= [Executing, ExecutingFailed]) {
      assert own == (own + [e])[..2];
    }
  }

  /** One Canceled cuts the executor's events off, unless they had already ended. */
  lemma {:induction false} DeliverIs(events: seq<CallState>) returns (p: nat)
    requires OwnShape(OwnEvents(events)) && Cancels(events) <= 1
    requires events != [] ==> events[0].Executing?
    ensures Cancels(events) == 0 ==> Deliver(events) == OwnEvents(events)
    ensures Cancels(events) == 1 ==>
              && 1 <= p <= |OwnEvents(events)|
              && Deliver(events) == DeliverOne(OwnEvents(events)[..p], Canceled)
  {
    p := 0;
    if events != [] {
      var n := |events| - 1;
      var init, e := events[..n], events[n];
      assert events == init + [e];
      SentGrows(init, e);
      if e.Canceled? {
        assert OwnEvents(events) == OwnEvents(init);
        p := DeliverIs(init);
        p := |OwnEvents(init)|;
        HasFirst(init);
        assert OwnEvents(init)[..p] == OwnEvents(init);
      } else {
        OwnShapePrefix(OwnEvents(init), e);
        p := DeliverIs(init);
        if Cancels(init) == 1 {
          assert OwnEvents(events)[..p] == OwnEvents(init)[..p];
        }
      }
    }
  }

  lemma {:induction false} HasFirst(events: seq<CallState>)
    requires events != [] && events[0].Executing?
    ensures OwnEvents(events) != []
  {
    if |events| > 1 {
      HasFirst(events[..|events| - 1]);
    }
  }

  predicate Sendable(events: seq<CallState>) {
    OwnShape(OwnEvents(events)) && Cancels(events) <= 1 && (events != [] ==> events[0].Executing?)
  }

  lemma SendableInit(events: seq<CallState>, e: CallState)
    requires Sendable(events + [e])
    ensures Sendable(events)
  {
    hide OwnEvents, Cancels, OwnShape;
    SentGrows(events, e);
    if !e.Canceled? {
      OwnShapePrefix(OwnEvents(events), e);
    } else {
      assert OwnEvents(events) + [] == OwnEvents(events);
    }
    assert events != [] ==> (events + [e])[0] == events[0];
  }

  lemma {:induction false} SendablePrefix(a: seq<CallState>, b: seq<CallState>)
    requires Sendable(a + b)
    ensures Sendable(a)
    decreases |b|
  {
    hide Sendable;
    if b == [] {
      assert a + b == a;
    } else {
      var n := |b| - 1;
      assert a + b == (a + b[..n]) + [b[n]];
      SendableInit(a + b[..n], b[n]);
      SendablePrefix(a, b[..n]);
    }
  }

  lemma DeliveredIsValid(events: seq<CallState>)
    requires Sendable(events)
    ensures ValidLog(Deliver(events))
    ensures Cancels(events) == 1 || OwnComplete(OwnEvents(events)) ==> Terminal(LastState(Deliver(events)))
  {
    var p := DeliverIs(events);
    var own := OwnEvents(events);
    if Cancels(events) == 1 {
      CutIsValid(own, p);
    }
  }

  lemma CutIsValid(own: seq<CallState>, p: nat)
    requires OwnShape(own) && 1 <= p <= |own|
    ensures ValidLog(DeliverOne(own[..p], Canceled)) && Terminal(LastState(DeliverOne(own[..p], Canceled)))
  {
    assert own[..p][0] == own[0];
    assert p >= 2 ==> own[..p][1] == own[1];
    assert p >= 3 ==> own[..p][2] == own[2];
    assert |own| == 3 ==> own[0] == own[..2][0] && own[1] == own[..2][1];
  }

  // ----- Every step keeps the invariant -----

  lemma NothingSent()
    ensures OwnEvents([]) == [] && Cancels([]) == 0 && Deliver([]) == []
  {
  }

  /** At most four events are ever sent, so the queue always has room. */
  lemma QueueHasRoom(c: Call)
    requires Inv(c)
    ensures |c.queue| <= |c.sent| <= 4 < QUEUE_SIZE == 10
    ensures Sendable(c.sent)
  {
    hide Deliver, OwnEvents, Cancels, Terminal, OwnComplete, OwnShape;
    SentSize(c.sent);
    ExecutorShape(OwnEvents(c.sent), c.executor);
  }

  /** What the executor has sent after the event it is about to send. */
  lemma EmitCompletes(own: seq<CallState>, e: CallState, checked: bool)
    requires ExecutorSent(own, Emitting(e, checked))
    ensures ExecutorSent(own + [e], AfterEmit(e)) && !e.Canceled?
    ensures own == [] ==> e.Executing?
    ensures ExecutorSent(own, Emitting(e, true))
  {
    if own == [Executing, Retrieving] {
      assert (own + [e])[..2] == own;
    }
  }

  lemma ExecutorEmits(c: Call, ok: bool)
    requires Inv(c) && ExecutorMove(c, ok).Some? && c.executor.Emitting?
    ensures Inv(ExecutorMove(c, ok).value)
    ensures ExecutorMove(c, ok).value.sent == if c.executor.checked then c.sent + [c.executor.event] else c.sent
  {
    hide Deliver, OwnEvents, Cancels, Terminal, ExecutorSent, OwnShape;
    SentGrows(c.sent, c.executor.event);
    EmitCompletes(OwnEvents(c.sent), c.executor.event, c.executor.checked);
    QueueHasRoom(c);
    NothingSent();
  }

  /** The steps of the executor that send nothing. */
  lemma ExecutorWorks(c: Call, ok: bool)
    requires ExecutorMove(c, ok).Some? && !c.executor.Emitting? && ExecutorSent(OwnEvents(c.sent), c.executor)
    requires DoneOk(c)
    ensures var d := ExecutorMove(c, ok).value;
            && ExecutorSent(OwnEvents(c.sent), d.executor) && DoneOk(d)
            && d.sent == c.sent && d.queue == c.queue && d.received == c.received && d.log == c.log
            && d.state == c.state && d.handler == c.handler && d.cancelling == c.cancelling
  {
    hide OwnEvents;
  }

  lemma ExecutorKeeps(c: Call, ok: bool)
    requires Inv(c) && ExecutorMove(c, ok).Some?
    ensures Inv(ExecutorMove(c, ok).value)
  {
    hide Deliver, OwnEvents, Cancels, ExecutorMove, OnceOk, CancelsLate, DoneOk, ExecutorSent;
    if c.executor.Emitting? {
      ExecutorEmits(c, ok);
    } else {
      ExecutorWorks(c, ok);
    }
  }

  lemma HandlerTakes(c: Call, ok: bool)
    requires Handled(c) && HandlerMove(c, ok).Some? && c.handler.Processing?
    ensures Handled(HandlerMove(c, ok).value)
  {
    hide Deliver, Terminal, LastState, DeliverOne, Waiting;
    var e := c.handler.event;
    var init := c.received[..|c.received| - 1];
    assert init + [e] == c.received;
    SentGrows(init, e);
    DeliverOneIs(c.log, e);
    WaitingIs(c.handler.last);
  }

  lemma DeliverOneIs(log: seq<CallState>, e: CallState)
    ensures DeliverOne(log, e) == if Terminal(LastState(log)) then log else log + [e]
  {
    hide Terminal, LastState;
  }

  lemma WaitingIs(last: bool)
    ensures Waiting(last).Emptying? || Waiting(last).Listening?
  {
  }

  lemma LastOf(log: seq<CallState>, e: CallState)
    ensures LastState(log + [e]) == e
  {
  }

  lemma HandlerReports(c: Call, ok: bool)
    requires Handled(c) && HandlerMove(c, ok).Some? && c.handler.Notifying?
    ensures Handled(HandlerMove(c, ok).value)
  {
    hide Deliver, Terminal, LastState;
    var e := c.handler.event;
    LastOf(c.log, e);
    SentGrows(c.received[..|c.received| - 1], e);
    assert c.received[..|c.received| - 1] + [e] == c.received;
  }

  lemma HandlerProcesses(c: Call, ok: bool)
    requires Handled(c) && HandlerMove(c, ok).Some?
    ensures Handled(HandlerMove(c, ok).value)
  {
    hide Deliver, Terminal, Receive, LastState;
    if c.handler.Processing? {
      HandlerTakes(c, ok);
    } else if c.handler.Notifying? {
      HandlerReports(c, ok);
    } else if c.queue != [] {
      ReceivesOne(c, false);
      ReceivesOne(c, true);
    }
  }

  /** What a step of the handler leaves alone. */
  lemma HandlerFrame(c: Call, ok: bool)
    requires Inv(c) && HandlerMove(c, ok).Some?
    ensures var d := HandlerMove(c, ok).value;
            && d.sent == c.sent && d.executor == c.executor && d.cancelling == c.cancelling
            && d.doneClosed == c.doneClosed && d.doneFlag == c.doneFlag
            && (d.state == c.state || c.sent != [])
            && (Leaving(d.handler) ==> Leaving(c.handler) || c.doneClosed)
            && (d.handler.Exited? ==> c.handler.Emptying? && c.queue == [] && d.log == c.log)
  {
    hide OwnEvents, Cancels, ExecutorSent, Deliver, Terminal, OnceOk;
  }

  lemma HandlerKeeps(c: Call, ok: bool)
    requires Inv(c) && HandlerMove(c, ok).Some?
    ensures Inv(HandlerMove(c, ok).value)
  {
    hide OwnEvents, Cancels, ExecutorSent, Deliver, Terminal, HandlerMove, Handled, LastState;
    HandlerFrame(c, ok);
    HandlerProcesses(c, ok);
    if c.handler.Emptying? && c.queue == [] {
      LeavesAtEnd(c);
    }
  }

  lemma ReceivesOne(c: Call, last: bool)
    requires Handled(c) && (c.handler.Listening? || c.handler.Emptying?) && c.queue != []
    ensures Handled(Receive(c, last))
  {
    hide Deliver;
    var d := Receive(c, last);
    assert d.received[..|d.received| - 1] == c.received;
    assert c.queue == [c.queue[0]] + c.queue[1..];
  }

  lemma LeavesAtEnd(c: Call)
    requires Inv(c) && c.handler.Emptying? && c.queue == []
    ensures Terminal(LastState(c.log))
  {
    hide Deliver, OwnEvents, Cancels, Terminal;
    QueueHasRoom(c);
    assert c.received == c.sent;
    DeliveredIsValid(c.sent);
  }

  /** A canceller at most sends one Canceled, once, and only into a running call. */
  lemma CancellerFrame(c: Call, i: nat, ok: bool)
    requires Inv(c) && CancelMove(c.cancelling, c, i, ok).Some?
    ensures var (g, sends) := CancelMove(c.cancelling, c, i, ok).value;
            var sent := if sends then c.sent + [Canceled] else c.sent;
            OnceOk(g, sent) && CancelsLate(g, sent)
  {
    hide OwnEvents, Cancels, ExecutorSent, Handled, DoneOk, Deliver, LastState;
    SentGrows(c.sent, Canceled);
  }

  lemma CancellerKeeps(c: Call, i: nat, ok: bool)
    requires Inv(c) && Move(c, CancelStep(i, ok)).Some?
    ensures Inv(Move(c, CancelStep(i, ok)).value)
  {
    hide Deliver, OwnEvents, Cancels, ExecutorSent, LastState, OnceOk, CancelsLate, CancelMove;
    CancellerFrame(c, i, ok);
    SentGrows(c.sent, Canceled);
    assert c.received + (c.queue + [Canceled]) == c.sent + [Canceled];
    assert OwnEvents(c.sent) + [] == OwnEvents(c.sent);
  }

  lemma ReaderKeeps(c: Call, i: nat, ok: bool)
    requires Inv(c) && Move(c, ReaderStep(i, ok)).Some?
    ensures Inv(Move(c, ReaderStep(i, ok)).value)
  {
    hide Deliver, OwnEvents, Cancels, ExecutorSent, LastState, ReaderMove;
  }

  lemma MoveKeeps(c: Call, step: Step)
    requires Inv(c) && Move(c, step).Some?
    ensures Inv(Move(c, step).value)
  {
    hide Inv, ExecutorMove, HandlerMove, CancelMove, ReaderMove;
    match step
    case ExecutorStep(ok) => ExecutorKeeps(c, ok);
    case HandlerStep(ok) => HandlerKeeps(c, ok);
    case CancelStep(i, ok) => CancellerKeeps(c, i, ok);
    case ReaderStep(i, ok) => ReaderKeeps(c, i, ok);
  }

  lemma {:induction false} PlayKeeps(c: Call, run: seq<Step>)
    requires Inv(c) && Play(c, run).Some?
    ensures Inv(Play(c, run).value)
    decreases |run|
  {
    hide Inv, Move;
    if run != [] {
      MoveKeeps(c, run[0]);
      PlayKeeps(Move(c, run[0]).value, run[1..]);
    }
  }

  lemma NewCallOk(cancellers: nat, readers: nat)
    ensures Inv(NewCall(cancellers, readers))
  {
    NothingSent();
  }

  // ----- The callbacks of every run -----

  lemma LogIsDelivered(c: Call)
    requires Inv(c)
    ensures exists n :: 0 <= n <= |c.received| && c.log == Deliver(c.received[..n])
  {
    hide Deliver, OwnEvents, Cancels, ExecutorSent;
    var n := if c.handler.Processing? || c.handler.Notifying? then |c.received| - 1 else |c.received|;
    assert c.received[..|c.received|] == c.received;
    assert c.log == Deliver(c.received[..n]);
  }

  lemma LogIsValid(c: Call)
    requires Inv(c)
    ensures ValidLog(c.log)
  {
    hide Deliver, OwnEvents, Cancels, ExecutorSent, ValidLog, Sendable;
    LogIsDelivered(c);
    var n :| 0 <= n <= |c.received| && c.log == Deliver(c.received[..n]);
    QueueHasRoom(c);
    assert c.sent == c.received[..n] + (c.received[n..] + c.queue);
    SendablePrefix(c.received[..n], c.received[n..] + c.queue);
    DeliveredIsValid(c.received[..n]);
  }

  /**
    In every interleaving the callbacks are Executing, at most one Retrieving and
    at most one terminal state. When the handler has left there is exactly one
    terminal callback, and it is the state the call keeps.
   */
  lemma CallbacksInOrder(cancellers: nat, readers: nat, run: seq<Step>)
    requires Play(NewCall(cancellers, readers), run).Some?
    ensures var c := Play(NewCall(cancellers, readers), run).value;
            && ValidLog(c.log) && |c.sent| <= 4
            && (c.handler.Exited? ==> c.log != [] && Terminal(c.log[|c.log| - 1]) && c.state == c.log[|c.log| - 1])
  {
    hide Move, Deliver, OwnEvents, Cancels, ExecutorSent, ValidLog;
    NewCallOk(cancellers, readers);
    PlayKeeps(NewCall(cancellers, readers), run);
    var c := Play(NewCall(cancellers, readers), run).value;
    LogIsValid(c);
    QueueHasRoom(c);
  }

  /** A checked event of the executor is sent at once: it neither blocks nor is dropped. */
  lemma SendsNeverBlock(c: Call)
    requires Inv(c) && c.executor.Emitting?
    ensures !c.doneFlag
    ensures c.executor.checked ==>
              && ExecutorMove(c, true).Some? && ExecutorMove(c, true).value.queue == c.queue + [c.executor.event]
              && ExecutorMove(c, false).None?
  {
    hide Deliver, OwnEvents, Cancels, ExecutorSent, OwnShape;
    QueueHasRoom(c);
  }
}
