/**
  What a call reports when nobody cancels it: its outcome follows from how
  executing, retrieving and archiving went. And what the callers of GetResult are
  told.
 */
module CallOutcome {
  import opened CallMachine
  import opened CallProtocol
  import opened FillOnce

  // ----- The executor -----

  /** The outcome that a step decides: of executing, of retrieving, or of archiving. */
  function Outcome(c: Call, step: Step): seq<bool> {
    if step.ExecutorStep? && (c.executor.Running? || c.executor.Draining? || c.executor.Archiving?)
    then [step.ok] else []
  }

  function Outcomes(c: Call, run: seq<Step>): seq<bool>
    requires Play(c, run).Some?
    decreases |run|
  {
    if run == [] then [] else Outcome(c, run[0]) + Outcomes(Move(c, run[0]).value, run[1..])
  }

  /** The events of an executor whose stages went so. */
  function EventsOf(outcomes: seq<bool>): seq<CallState> {
    if outcomes == [false] then [Executing, ExecutingFailed]
    else if outcomes == [true, false] then [Executing, Retrieving, RetrievingFailed]
    else if outcomes == [true, true, false] then [Executing, Retrieving, ArchiveFailed]
    else if outcomes == [true, true, true] then [Executing, Retrieving, Archived]
    else []
  }

  /** The call keeps an error exactly when a stage failed. */
  predicate Told(own: seq<CallState>, err: bool, outcomes: seq<bool>) {
    own == EventsOf(outcomes) && own != [] && (err <==> false in outcomes)
  }

  predicate Follows(x: Executor, own: seq<CallState>, err: bool, outcomes: seq<bool>) {
    match x
    case Emitting(Executing, _) => outcomes == [] && !err
    case Running => outcomes == [] && !err
    case Opening => outcomes == [true] && !err
    case Emitting(Retrieving, _) => outcomes == [true] && !err
    case Draining => outcomes == [true] && !err
    case Archiving => outcomes == [true, true] && !err
    case Emitting(e, _) => Told(own + [e], err, outcomes)
    case _ => Told(own, err, outcomes)
  }

  lemma OutcomeStep(c: Call, step: Step, outcomes: seq<bool>)
    requires Inv(c) && Move(c, step).Some? && Follows(c.executor, OwnEvents(c.sent), c.err, outcomes)
    ensures var d := Move(c, step).value;
            Follows(d.executor, OwnEvents(d.sent), d.err, outcomes + Outcome(c, step))
  {
    hide Inv, ExecutorMove, HandlerMove, ReaderMove, CancelMove, OwnEvents, Follows;
    assert outcomes + [] == outcomes;
    match step
    case ExecutorStep(ok) =>
      if c.executor.Emitting? {
        ExecutorEmitted(c, ok, outcomes);
      } else {
        ExecutorDecides(c, ok, outcomes);
      }
    case HandlerStep(ok) => HandlerSilent(c, ok);
    case CancelStep(i, ok) =>
      SentGrows(c.sent, Canceled);
      assert OwnEvents(c.sent) + [] == OwnEvents(c.sent);
    case ReaderStep(i, ok) =>
  }

  lemma HandlerSilent(c: Call, ok: bool)
    requires HandlerMove(c, ok).Some?
    ensures var d := HandlerMove(c, ok).value; d.sent == c.sent && d.executor == c.executor && d.err == c.err
  {
  }

  lemma ExecutorEmitted(c: Call, ok: bool, outcomes: seq<bool>)
    requires Inv(c) && ExecutorMove(c, ok).Some? && c.executor.Emitting?
    requires Follows(c.executor, OwnEvents(c.sent), c.err, outcomes)
    ensures var d := ExecutorMove(c, ok).value; Follows(d.executor, OwnEvents(d.sent), d.err, outcomes)
  {
    hide Deliver, OwnEvents, Cancels, OnceOk, CancelsLate, Handled, EventsOf;
    QueueHasRoom(c);
    var e := c.executor.event;
    EmitCompletes(OwnEvents(c.sent), e, c.executor.checked);
    SentGrows(c.sent, e);
  }

  lemma ExecutorDecides(c: Call, ok: bool, outcomes: seq<bool>)
    requires Inv(c) && ExecutorMove(c, ok).Some? && !c.executor.Emitting?
    requires Follows(c.executor, OwnEvents(c.sent), c.err, outcomes)
    ensures var d := ExecutorMove(c, ok).value;
            Follows(d.executor, OwnEvents(d.sent), d.err, outcomes + Outcome(c, ExecutorStep(ok)))
  {
    hide Deliver, OwnEvents, Cancels, OnceOk, CancelsLate, Handled;
    assert outcomes + [] == outcomes;
  }

  lemma {:induction false} OutcomesFollow(c: Call, run: seq<Step>, outcomes: seq<bool>)
    requires Inv(c) && Play(c, run).Some? && Follows(c.executor, OwnEvents(c.sent), c.err, outcomes)
    ensures var d := Play(c, run).value;
            Inv(d) && Follows(d.executor, OwnEvents(d.sent), d.err, outcomes + Outcomes(c, run))
    decreases |run|
  {
    hide Inv, Move, OwnEvents, Follows;
    if run == [] {
      assert outcomes + [] == outcomes;
    } else {
      MoveKeeps(c, run[0]);
      OutcomeStep(c, run[0], outcomes);
      var d := Move(c, run[0]).value;
      OutcomesFollow(d, run[1..], outcomes + Outcome(c, run[0]));
      assert outcomes + Outcome(c, run[0]) + Outcomes(d, run[1..]) == outcomes + Outcomes(c, run);
    }
  }

  /**
    In every run in which the executor has finished, its events and the error it
    keeps are those of how its stages went; and unless somebody canceled, they are
    what was reported.
   */
  lemma OutcomeIsReported(cancellers: nat, readers: nat, run: seq<Step>)
    requires Play(NewCall(cancellers, readers), run).Some?
    ensures var start := NewCall(cancellers, readers);
            var c := Play(start, run).value; var outcomes := Outcomes(start, run);
            c.executor.Finished? ==>
              && OwnEvents(c.sent) == EventsOf(outcomes) && (c.err <==> false in outcomes)
              && (c.handler.Exited? && Cancels(c.sent) == 0 ==> c.log == EventsOf(outcomes))
  {
    hide Inv, OwnEvents, Cancels, EventsOf, Play;
    var start := NewCall(cancellers, readers);
    NewCallOk(cancellers, readers);
    NothingSent();
    OutcomesFollow(start, run, []);
    var c := Play(start, run).value;
    assert [] + Outcomes(start, run) == Outcomes(start, run);
    if c.handler.Exited? && Cancels(c.sent) == 0 {
      AllReported(c);
    }
  }

  lemma AllReported(c: Call)
    requires Inv(c) && c.handler.Exited? && Cancels(c.sent) == 0
    ensures c.log == OwnEvents(c.sent)
  {
    hide ExecutorSent, OnceOk, Deliver, OwnEvents, Cancels;
    QueueHasRoom(c);
    OwnAppend(c.received, c.queue);
    SendablePrefix(c.received, c.queue);
    var p := DeliverIs(c.received);
    NothingBehind(c);
  }

  /** Nothing is left in the queue when the last event has been reported. */
  lemma NothingBehind(c: Call)
    requires Inv(c) && c.handler.Exited? && Cancels(c.sent) == 0 && Deliver(c.received) == OwnEvents(c.received)
    requires OwnEvents(c.sent) == OwnEvents(c.received) + OwnEvents(c.queue)
    ensures OwnEvents(c.received) == OwnEvents(c.sent)
  {
    hide Handled, OnceOk, Cancels, OwnEvents, Deliver, CancelsLate;
    QueueHasRoom(c);
    var own, done := OwnEvents(c.sent), OwnEvents(c.received);
    assert c.executor.Finished? by { assert Leaving(c.handler); }
    HandledExited(c);
    assert Terminal(done[|done| - 1]) && done == own[..|done|];
    assert done[|done| - 1] == own[|done| - 1];
    assert |own| == 3 ==> own[..2][0] == own[0] && own[..2][1] == own[1];
  }

  lemma HandledExited(c: Call)
    requires Handled(c) && c.handler.Exited?
    ensures c.log == Deliver(c.received)
  {
    hide Deliver;
  }

  // ----- The readers -----

  /** The outcome that a step decides for reader i: of loading the archive, or of filling from it. */
  function Reading(c: Call, step: Step, i: nat): seq<bool> {
    if step.ReaderStep? && step.i == i && i < |c.store.readers| &&
       (c.store.readers[i].Loading? || c.store.readers[i].Draws?)
    then [step.ok] else []
  }

  function Readings(c: Call, run: seq<Step>, i: nat): seq<bool>
    requires Play(c, run).Some?
    decreases |run|
  {
    if run == [] then [] else Reading(c, run[0], i) + Readings(Move(c, run[0]).value, run[1..], i)
  }

  /** What a reader that began to load has found out at its place. */
  predicate Found(r: Reader, filled: bool, readings: seq<bool>) {
    match r
    case Loading => readings == []
    case Refilling => readings == [true]
    case Draws => readings == [true] && filled
    case Served => readings == [true, true] && filled
    case Refused => readings == [false] || readings == [true, false]
    case _ => false
  }

  lemma ReadingStep(c: Call, step: Step, i: nat, readings: seq<bool>)
    requires Move(c, step).Some? && i < |c.store.readers| && Found(c.store.readers[i], c.store.isFilled, readings)
    ensures var d := Move(c, step).value;
            i < |d.store.readers| && Found(d.store.readers[i], d.store.isFilled, readings + Reading(c, step, i))
  {
    hide ExecutorMove, HandlerMove, CancelMove;
    assert readings + [] == readings;
    match step
    case ExecutorStep(ok) => ExecutorReaders(c, ok);
    case HandlerStep(ok) => HandlerStill(c, ok);
    case CancelStep(k, ok) =>
    case ReaderStep(k, ok) =>
  }

  lemma ExecutorReaders(c: Call, ok: bool)
    requires ExecutorMove(c, ok).Some?
    ensures var d := ExecutorMove(c, ok).value;
            d.store.readers == c.store.readers && (c.store.isFilled ==> d.store.isFilled)
  {
  }

  lemma HandlerStill(c: Call, ok: bool)
    requires HandlerMove(c, ok).Some?
    ensures HandlerMove(c, ok).value.store == c.store
  {
  }

  /**
    A reader that began to load the archive is served exactly when loading and
    filling go well, and refused at the first of them that does not.
   */
  lemma {:induction false} LoaderIsTold(c: Call, run: seq<Step>, i: nat, readings: seq<bool>)
    requires Play(c, run).Some? && i < |c.store.readers| && Found(c.store.readers[i], c.store.isFilled, readings)
    ensures var d := Play(c, run).value;
            i < |d.store.readers| && Found(d.store.readers[i], d.store.isFilled, readings + Readings(c, run, i))
    decreases |run|
  {
    hide Move, Found;
    if run == [] {
      assert readings + [] == readings;
    } else {
      ReadingStep(c, run[0], i, readings);
      var d := Move(c, run[0]).value;
      LoaderIsTold(d, run[1..], i, readings + Reading(c, run[0], i));
      assert readings + Reading(c, run[0], i) + Readings(d, run[1..], i) == readings + Readings(c, run, i);
    }
  }

  predicate OnItsWay(r: Reader) {
    r.Calling? || r.Locked? || r.Served?
  }

  lemma ServedStep(c: Call, step: Step, i: nat)
    requires Move(c, step).Some? && i < |c.store.readers| && c.store.isFilled && OnItsWay(c.store.readers[i])
    ensures var d := Move(c, step).value;
            i < |d.store.readers| && d.store.isFilled && OnItsWay(d.store.readers[i])
  {
    hide ExecutorMove, HandlerMove, CancelMove;
    match step
    case ExecutorStep(ok) => ExecutorReaders(c, ok);
    case HandlerStep(ok) => HandlerStill(c, ok);
    case CancelStep(k, ok) =>
    case ReaderStep(k, ok) =>
  }

  lemma {:induction false} FilledServes(c: Call, run: seq<Step>, i: nat)
    requires Play(c, run).Some? && i < |c.store.readers| && c.store.isFilled && OnItsWay(c.store.readers[i])
    ensures var d := Play(c, run).value;
            i < |d.store.readers| && d.store.isFilled && OnItsWay(d.store.readers[i])
    decreases |run|
  {
    hide Move, OnItsWay;
    if run != [] {
      ServedStep(c, run[0], i);
      FilledServes(Move(c, run[0]).value, run[1..], i);
    }
  }

  /**
    A GetResult that starts after the call was seen retrieving, archived, or
    failed in either, is never refused: whenever it has an answer it is served.
   */
  lemma VisibleResultIsServed(cancellers: nat, readers: nat, before: seq<Step>, i: nat, after: seq<Step>)
    requires Play(NewCall(cancellers, readers), before).Some?
    requires var c := Play(NewCall(cancellers, readers), before).value;
             && c.state in {Retrieving, RetrievingFailed, Archived, ArchiveFailed}
             && i < |c.store.readers| && c.store.readers[i].Calling? && Play(c, after).Some?
    ensures var c := Play(NewCall(cancellers, readers), before).value;
            var d := Play(c, after).value;
            i < |d.store.readers| && !d.store.readers[i].Refused? && d.store.isFilled
  {
    hide Play;
    FilledWhenVisible(cancellers, readers, before);
    FilledServes(Play(NewCall(cancellers, readers), before).value, after, i);
  }
}
