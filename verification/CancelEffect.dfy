/** What canceling a call achieves: who may send Canceled, when it is sent, and when it is the last word. */
module CancelEffect {
  import opened CallMachine
  import opened CallProtocol
  import opened FillOnce
  import opened CallProgress
  import Progress = CallProgress
  import opened RefillExact

  predicate Runs(s: CallState) {
    s == Executing || s == Retrieving
  }

  /** The step in which canceller i finds the call running. */
  predicate Looks(c: Call, step: Step, i: nat) {
    && step.CancelStep? && step.i == i && i < |c.cancelling.callers|
    && c.cancelling.callers[i].NotDone? && Runs(c.state)
  }

  predicate Looked(c: Call, run: seq<Step>, i: nat)
    decreases |run|
  {
    run != [] && (Looks(c, run[0], i) || (Move(c, run[0]).Some? && Looked(Move(c, run[0]).value, run[1..], i)))
  }

  /** Canceled has been sent, once, or the call is done. */
  predicate Settled(c: Call) {
    Cancels(c.sent) == 1 || c.doneFlag
  }

  predicate OnceDone(c: Call) {
    c.cancelling.once.Used? ==> Settled(c)
  }

  ghost predicate Known(c: Call) {
    Inv(c) && OnceDone(c)
  }

  predicate Yet(p: Canceller) {
    p.Asked? || p.NotDone?
  }

  predicate Committed(p: Canceller) {
    p.Willing? || p.Entered? || p.Sending?
  }

  // ----- One step -----

  /** The executor's events are no cancellations, and nothing takes back what was settled. */
  lemma SettledStays(c: Call, step: Step)
    requires Inv(c) && Move(c, step).Some? && Settled(c)
    ensures Settled(Move(c, step).value)
  {
    hide Inv, Move, Cancels, OnceOk;
    MoveKeeps(c, step);
    SentAndFlag(c, step);
    OnlyOne(Move(c, step).value);
  }

  lemma OnlyOne(c: Call)
    requires Inv(c)
    ensures Cancels(c.sent) <= 1
  {
    hide Handled, DoneOk, OwnEvents, ExecutorSent, Deliver, CancelsLate;
  }

  /** How one step changes what was sent, the flag and the once. */
  lemma SentAndFlag(c: Call, step: Step)
    requires Inv(c) && Move(c, step).Some?
    ensures var d := Move(c, step).value;
            && Cancels(d.sent) >= Cancels(c.sent)
            && (!step.CancelStep? ==> Cancels(d.sent) == Cancels(c.sent) && d.cancelling == c.cancelling)
            && (c.doneFlag ==> d.doneFlag)
  {
    hide ExecutorMove, HandlerMove, CancelMove, ReaderMove, Inv, Cancels;
    match step
    case ExecutorStep(ok) => ExecutorSends(c, ok); ExecutorAlone(c, ok);
    case HandlerStep(ok) => HandlerFrame(c, ok);
    case CancelStep(i, ok) => SentGrows(c.sent, Canceled);
    case ReaderStep(i, ok) =>
  }

  lemma ExecutorSends(c: Call, ok: bool)
    requires Inv(c) && ExecutorMove(c, ok).Some?
    ensures var d := ExecutorMove(c, ok).value; Cancels(d.sent) == Cancels(c.sent) && (c.doneFlag ==> d.doneFlag)
  {
    hide Cancels, Deliver, OwnEvents, OnceOk, CancelsLate, Handled;
    if c.executor.Emitting? {
      EmitCompletes(OwnEvents(c.sent), c.executor.event, c.executor.checked);
      SentGrows(c.sent, c.executor.event);
    }
  }

  /** Where a step leaves a canceller. */
  lemma PlaceStep(c: Call, step: Step, i: nat)
    requires Known(c) && Move(c, step).Some? && i < |c.cancelling.callers|
    ensures var d := Move(c, step).value; var p := c.cancelling.callers[i];
            && |d.cancelling.callers| == |c.cancelling.callers|
            && var q := d.cancelling.callers[i];
               && (Looks(c, step, i) ==> q.Willing?)
               && (Yet(p) && !Looks(c, step, i) ==> Yet(q) || q.Left?)
               && (Committed(p) ==> Committed(q) || (q.Left? && Settled(d)))
               && (p.Left? ==> q.Left?)
    ensures OnceDone(Move(c, step).value)
  {
    hide Inv, Cancels, ExecutorMove, HandlerMove, ReaderMove;
    var d := Move(c, step).value;
    if step.CancelStep? {
      CancelPlace(c, step.i, step.ok, i);
    } else {
      SentAndFlag(c, step);
    }
  }

  lemma CancelPlace(c: Call, k: nat, ok: bool, i: nat)
    requires Known(c) && Move(c, CancelStep(k, ok)).Some? && i < |c.cancelling.callers|
    ensures var d := Move(c, CancelStep(k, ok)).value; var p := c.cancelling.callers[i];
            && |d.cancelling.callers| == |c.cancelling.callers|
            && var q := d.cancelling.callers[i];
               && (Looks(c, CancelStep(k, ok), i) ==> q.Willing?)
               && (Yet(p) && !Looks(c, CancelStep(k, ok), i) ==> Yet(q) || q.Left?)
               && (Committed(p) ==> Committed(q) || (q.Left? && Settled(d)))
               && (p.Left? ==> q.Left?)
               && OnceDone(d)
  {
    hide Cancels, Deliver, OwnEvents, ExecutorSent, Handled, CancelsLate, LastState;
    SentGrows(c.sent, Canceled);
  }

  // ----- Every run -----

  /** Only a canceller that found the call running goes on to cancel it. */
  lemma {:induction false} CommittedLooked(c: Call, run: seq<Step>, i: nat)
    requires Known(c) && Play(c, run).Some? && i < |c.cancelling.callers| && Yet(c.cancelling.callers[i])
    ensures var d := Play(c, run).value;
            && Known(d) && |d.cancelling.callers| == |c.cancelling.callers|
            && (Committed(d.cancelling.callers[i]) ==> Looked(c, run, i))
            && (d.cancelling.callers[i].Left? && Looked(c, run, i) ==> Settled(d))
    decreases |run|
  {
    hide Inv, OnceDone, Settled, Move, Looks, Yet, Committed;
    YetIsOther(c.cancelling.callers[i]);
    if run != [] {
      var d := Move(c, run[0]).value;
      MoveKeeps(c, run[0]);
      PlaceStep(c, run[0], i);
      YetIsOther(d.cancelling.callers[i]);
      if Yet(d.cancelling.callers[i]) {
        CommittedLooked(d, run[1..], i);
      } else if d.cancelling.callers[i].Left? {
        LeftStays(d, run[1..], i);
        NeverLooks(d, run[1..], i);
      } else {
        CommittedSettles(d, run[1..], i);
        YetIsOther(Play(c, run).value.cancelling.callers[i]);
      }
    }
  }

  lemma YetIsOther(p: Canceller)
    ensures Yet(p) ==> !Committed(p) && !p.Left? && !p.Willing?
    ensures Committed(p) ==> !p.Left?
    ensures Yet(p) || Committed(p) || p.Left?
    ensures p.Willing? ==> Committed(p)
  {
  }

  lemma {:induction false} LeftStays(c: Call, run: seq<Step>, i: nat)
    requires Known(c) && Play(c, run).Some? && i < |c.cancelling.callers| && c.cancelling.callers[i].Left?
    ensures var d := Play(c, run).value;
            && Known(d) && |d.cancelling.callers| == |c.cancelling.callers| && d.cancelling.callers[i].Left?
            && (Settled(c) ==> Settled(d))
    decreases |run|
  {
    hide Inv, OnceDone, Settled, Move, Looks;
    if run != [] {
      MoveKeeps(c, run[0]);
      PlaceStep(c, run[0], i);
      if Settled(c) {
        SettledStays(c, run[0]);
      }
      LeftStays(Move(c, run[0]).value, run[1..], i);
    }
  }

  lemma {:induction false} NeverLooks(c: Call, run: seq<Step>, i: nat)
    requires Known(c) && Play(c, run).Some? && i < |c.cancelling.callers| && !Yet(c.cancelling.callers[i])
    ensures !Looked(c, run, i)
    decreases |run|
  {
    hide Inv, OnceDone, Settled, Move;
    if run != [] {
      MoveKeeps(c, run[0]);
      PlaceStep(c, run[0], i);
      NeverLooks(Move(c, run[0]).value, run[1..], i);
    }
  }

  lemma {:induction false} CommittedSettles(c: Call, run: seq<Step>, i: nat)
    requires Known(c) && Play(c, run).Some? && i < |c.cancelling.callers| && Committed(c.cancelling.callers[i])
    ensures var d := Play(c, run).value;
            && Known(d) && |d.cancelling.callers| == |c.cancelling.callers|
            && (Committed(d.cancelling.callers[i]) || (d.cancelling.callers[i].Left? && Settled(d)))
    decreases |run|
  {
    hide Inv, OnceDone, Settled, Move, Committed;
    if run != [] {
      var d := Move(c, run[0]).value;
      MoveKeeps(c, run[0]);
      PlaceStep(c, run[0], i);
      if Committed(d.cancelling.callers[i]) {
        CommittedSettles(d, run[1..], i);
      } else {
        LeftStays(d, run[1..], i);
      }
    }
  }

  lemma NewCallKnown(cancellers: nat, readers: nat)
    ensures Known(NewCall(cancellers, readers))
  {
    hide Inv;
    NewCallOk(cancellers, readers);
  }

  /**
    In every run, a canceller that found the call executing or retrieving and has
    left leaves Canceled sent exactly once, or a call that is done.
   */
  lemma CancelTakesEffect(cancellers: nat, readers: nat, run: seq<Step>, i: nat)
    requires i < cancellers && Play(NewCall(cancellers, readers), run).Some?
    requires Looked(NewCall(cancellers, readers), run, i)
    ensures var c := Play(NewCall(cancellers, readers), run).value;
            |c.cancelling.callers| == cancellers &&
            (c.cancelling.callers[i].Left? ==> Cancels(c.sent) == 1 || c.doneFlag)
  {
    hide Known, Play, Looked;
    NewCallKnown(cancellers, readers);
    CommittedLooked(NewCall(cancellers, readers), run, i);
  }

  /** And nobody else cancels: a step that sends Canceled is one of a canceller that found the call running. */
  lemma OnlyLookersCancel(cancellers: nat, readers: nat, run: seq<Step>, step: Step)
    requires Play(NewCall(cancellers, readers), run).Some?
    requires Move(Play(NewCall(cancellers, readers), run).value, step).Some?
    requires var c := Play(NewCall(cancellers, readers), run).value;
             Cancels(Move(c, step).value.sent) > Cancels(c.sent)
    ensures step.CancelStep? && Looked(NewCall(cancellers, readers), run, step.i)
  {
    hide Inv, OnceDone, Play, Looked, Cancels, ExecutorMove, HandlerMove, ReaderMove;
    var start := NewCall(cancellers, readers);
    var c := Play(start, run).value;
    NewCallKnown(cancellers, readers);
    PlayKeeps(start, run);
    SentAndFlag(c, step);
    CallersStay(start, run);
    CommittedLooked(start, run, step.i);
  }

  lemma {:induction false} CallersStay(c: Call, run: seq<Step>)
    requires Play(c, run).Some?
    ensures |Play(c, run).value.cancelling.callers| == |c.cancelling.callers|
    decreases |run|
  {
    hide Move;
    if run != [] {
      CallersStep(c, run[0]);
      CallersStay(Move(c, run[0]).value, run[1..]);
    }
  }

  lemma CallersStep(c: Call, step: Step)
    requires Move(c, step).Some?
    ensures |Move(c, step).value.cancelling.callers| == |c.cancelling.callers|
  {
    hide HandlerMove, ReaderMove, ExecutorMove, CancelMove;
    match step
    case ExecutorStep(ok) => ExecutorAlone(c, ok);
    case HandlerStep(ok) => HandlerDescends(c, ok);
    case CancelStep(i, ok) => CancellerMoves(c.cancelling, c, i, ok);
    case ReaderStep(i, ok) =>
  }

  // ----- The last word -----

  /** Index of the first terminal event; the length when there is none. */
  function FirstTerminal(events: seq<CallState>): (n: nat)
    ensures n <= |events| && (n < |events| ==> Terminal(events[n]))
    ensures forall i :: 0 <= i < n ==> !Terminal(events[i])
  {
    if events == [] || Terminal(events[0]) then 0 else 1 + FirstTerminal(events[1..])
  }

  /** The events up to the first terminal one, which is the last to be reported. */
  function Reported(events: seq<CallState>): seq<CallState> {
    if FirstTerminal(events) < |events| then events[..FirstTerminal(events) + 1] else events
  }

  lemma {:induction false} DeliversReported(events: seq<CallState>)
    ensures Deliver(events) == Reported(events)
  {
    hide Terminal, FirstTerminal;
    if events == [] {
      assert Deliver([]) == [];
    } else {
      var n := |events| - 1;
      var init := events[..n];
      DeliversReported(init);
      assert events == init + [events[n]];
      FirstTerminalPush(init, events[n]);
      LastReported(init);
      if FirstTerminal(init) < n {
        assert events[..FirstTerminal(init) + 1] == init[..FirstTerminal(init) + 1];
      }
    }
  }

  lemma {:induction false} FirstTerminalPush(init: seq<CallState>, e: CallState)
    ensures FirstTerminal(init + [e]) ==
            if FirstTerminal(init) < |init| then FirstTerminal(init) else if Terminal(e) then |init| else |init| + 1
  {
    hide Terminal;
    if init == [] {
      assert init + [e] == [e] && [e][1..] == [];
    } else {
      assert (init + [e])[0] == init[0] && (init + [e])[1..] == init[1..] + [e];
      FirstTerminalPush(init[1..], e);
    }
  }

  lemma LastReported(events: seq<CallState>)
    ensures Terminal(LastState(Reported(events))) <==> FirstTerminal(events) < |events|
  {
    if FirstTerminal(events) == |events| && events != [] {
      assert !Terminal(events[|events| - 1]);
    }
  }

  /**
    In every run that the handler has left, the callbacks are the events that were
    sent, up to the first terminal one: so Canceled is the last callback exactly
    when it was sent before any other terminal event.
   */
  lemma FirstTerminalIsLast(cancellers: nat, readers: nat, run: seq<Step>)
    requires Play(NewCall(cancellers, readers), run).Some?
    ensures var c := Play(NewCall(cancellers, readers), run).value;
            c.handler.Exited? ==>
              var k := FirstTerminal(c.sent);
              k < |c.sent| && c.log == c.sent[..k + 1] && c.state == c.sent[k]
  {
    hide Inv, Play;
    NewCallOk(cancellers, readers);
    PlayKeeps(NewCall(cancellers, readers), run);
    ExitedReports(Play(NewCall(cancellers, readers), run).value);
  }

  lemma ExitedReports(c: Call)
    requires Inv(c)
    ensures c.handler.Exited? ==>
              var k := FirstTerminal(c.sent);
              k < |c.sent| && c.log == c.sent[..k + 1] && c.state == c.sent[k]
  {
    hide OwnEvents, Cancels, ExecutorSent, OnceOk, CancelsLate, Terminal, FirstTerminal;
    if c.handler.Exited? {
      DeliversReported(c.received);
      LastReported(c.received);
      FirstOfPrefix(c.received, c.queue);
      assert c.log == c.received[..FirstTerminal(c.received) + 1];
      assert c.sent[..FirstTerminal(c.received) + 1] == c.log;
    }
  }

  lemma FirstOfPrefix(a: seq<CallState>, b: seq<CallState>)
    requires FirstTerminal(a) < |a|
    ensures FirstTerminal(a + b) == FirstTerminal(a)
  {
    hide Terminal;
    var k, m := FirstTerminal(a), FirstTerminal(a + b);
    assert forall i :: 0 <= i < |a| ==> (a + b)[i] == a[i];
    assert Terminal((a + b)[k]);
  }

  // ----- A cancel that can go on -----

  /** The steps that take canceller i from its place to the send. */
  function CancelRun(p: Canceller, i: nat): seq<Step> {
    var s := CancelStep(i, true);
    match p
    case Asked => [s, s, s, s, s]
    case NotDone => [s, s, s, s]
    case Willing => [s, s, s]
    case Entered => [s, s]
    case Sending => [s]
    case Left => []
  }

  predicate CanCancel(c: Call, i: nat) {
    && i < |c.cancelling.callers| && !c.doneFlag
    && match c.cancelling.callers[i] {
      case Asked => Runs(c.state) && c.cancelling.once.Fresh?
      case NotDone => Runs(c.state) && c.cancelling.once.Fresh?
      case Willing => c.cancelling.once.Fresh?
      case Entered => c.cancelling.once == HeldBy(i)
      case Sending => c.cancelling.once == HeldBy(i)
      case Left => false
    }
  }

  lemma CancelGoesOn(c: Call, i: nat)
    requires Inv(c) && CanCancel(c, i)
    ensures i < |c.cancelling.callers| && Move(c, CancelStep(i, true)).Some?
    ensures var d := Move(c, CancelStep(i, true)).value; var p := c.cancelling.callers[i];
            && |CancelRun(p, i)| > 0 && CancelRun(p, i)[0] == CancelStep(i, true)
            && CancelRun(p, i)[1..] == CancelRun(d.cancelling.callers[i], i)
            && (if p.Sending? then d.sent == c.sent + [Canceled] && d.cancelling.callers[i].Left?
                else d.sent == c.sent && CanCancel(d, i))
  {
    hide Deliver, OwnEvents, Cancels, ExecutorSent, Handled, CancelsLate, LastState, OnceOk;
    QueueHasRoom(c);
  }

  /**
    From every state in which the once is fresh and the call is not done, a
    canceller of a call that is executing or retrieving gets Canceled sent by its
    own steps alone.
   */
  lemma {:induction false} CancelSends(c: Call, i: nat)
    requires Inv(c) && CanCancel(c, i) && i < |c.cancelling.callers|
    ensures var run := CancelRun(c.cancelling.callers[i], i);
            Play(c, run).Some? && Inv(Play(c, run).value) && Play(c, run).value.sent == c.sent + [Canceled]
    decreases CancellerRank(c.cancelling.callers[i])
  {
    hide Inv, Move, CanCancel, CancelRun;
    CancelGoesOn(c, i);
    SmallerRank(c, i);
    var s := CancelStep(i, true);
    MoveKeeps(c, s);
    var p, d := c.cancelling.callers[i], Move(c, s).value;
    if p.Sending? {
      NoRun(d.cancelling.callers[i], i);
      PlayNone(d);
    } else {
      CancelSends(d, i);
    }
  }

  lemma NoRun(p: Canceller, i: nat)
    ensures p.Left? ==> CancelRun(p, i) == []
  {
  }

  lemma SmallerRank(c: Call, i: nat)
    requires Move(c, CancelStep(i, true)).Some?
    ensures var d := Move(c, CancelStep(i, true)).value;
            && i < |c.cancelling.callers| == |d.cancelling.callers|
            && CancellerRank(d.cancelling.callers[i]) < CancellerRank(c.cancelling.callers[i])
  {
    hide CancelMove;
    CancellerMoves(c.cancelling, c, i, true);
  }

  /** Every live call can be finished. */
  lemma {:induction false} CanFinish(c: Call) returns (run: seq<Step>)
    requires LiveInv(c)
    ensures Play(c, run).Some? && LiveInv(Play(c, run).value) && Progress.Finished(Play(c, run).value)
    decreases Rank(c)
  {
    hide LiveInv, Move, Play, Rank, Progress.Finished;
    if Progress.Finished(c) {
      run := [];
      PlayNone(c);
    } else {
      NeverStuck(c);
      var step :| Move(c, step).Some?;
      LiveKeeps(c, step);
      MoveDescends(c, step);
      var rest := CanFinish(Move(c, step).value);
      PlayOne(c, step, rest);
      run := [step] + rest;
    }
  }

  lemma {:induction false} SentStays(c: Call, run: seq<Step>)
    requires Play(c, run).Some?
    ensures c.sent <= Play(c, run).value.sent
    decreases |run|
  {
    hide Move;
    if run != [] {
      SentStep(c, run[0]);
      SentStays(Move(c, run[0]).value, run[1..]);
    }
  }

  lemma SentStep(c: Call, step: Step)
    requires Move(c, step).Some?
    ensures c.sent <= Move(c, step).value.sent
  {
  }

  /**
    A canceller that asks while the call is executing or retrieving, before
    anybody else has canceled and before the call is done, can have it canceled:
    the run ends with Canceled as the last callback, unless another terminal
    event was sent before, which is then the last.
   */
  lemma CancelCanWin(cancellers: nat, readers: nat, before: seq<Step>, i: nat) returns (run: seq<Step>)
    requires Play(NewCall(cancellers, readers), before).Some?
    requires var c := Play(NewCall(cancellers, readers), before).value;
             && i < |c.cancelling.callers| && (c.cancelling.callers[i].Asked? || c.cancelling.callers[i].NotDone?)
             && (c.state == Executing || c.state == Retrieving) && c.cancelling.once.Fresh? && !c.doneFlag
    ensures var c := Play(NewCall(cancellers, readers), before).value;
            && Play(c, run).Some?
            && var d := Play(c, run).value;
               && c.sent + [Canceled] <= d.sent && Progress.Finished(d) && d.log != []
               && d.log[|d.log| - 1] ==
                  if FirstTerminal(c.sent) < |c.sent| then c.sent[FirstTerminal(c.sent)] else Canceled
  {
    hide Play, Progress.Finished, Inv, LiveInv, Terminal;
    var start := NewCall(cancellers, readers);
    var c := Play(start, before).value;
    NewCallLive(cancellers, readers);
    LivePlay(start, before);
    LiveHas(c);
    CancelSends(c, i);
    var first := CancelRun(c.cancelling.callers[i], i);
    var d := Play(c, first).value;
    LivePlay(c, first);
    var rest := CanFinish(d);
    var e := Play(d, rest).value;
    PlayAppend(c, first, rest);
    run := first + rest;
    SentStays(d, rest);
    LiveHas(e);
    FinishedExited(e);
    ExitedReports(e);
    CanceledFirst(c.sent, e.sent);
  }

  lemma LiveHas(c: Call)
    requires LiveInv(c)
    ensures Inv(c)
  {
    hide Inv;
  }

  lemma FinishedExited(c: Call)
    requires Progress.Finished(c)
    ensures c.handler.Exited?
  {
  }

  lemma CanceledFirst(sent: seq<CallState>, more: seq<CallState>)
    requires sent + [Canceled] <= more
    ensures FirstTerminal(more) < |more|
    ensures more[FirstTerminal(more)] ==
            if FirstTerminal(sent) < |sent| then sent[FirstTerminal(sent)] else Canceled
  {
    hide FirstTerminal;
    var rest := more[|sent| + 1..];
    assert more == (sent + [Canceled]) + rest;
    FirstTerminalPush(sent, Canceled);
    assert Terminal(Canceled);
    FirstOfPrefix(sent + [Canceled], rest);
  }

  lemma {:induction false} OthersKeepPlace(c: Call, run: seq<Step>, i: nat)
    requires Inv(c) && Play(c, run).Some? && i < |c.cancelling.callers|
    requires forall k :: 0 <= k < |run| ==> !(run[k].CancelStep? && run[k].i == i)
    ensures var d := Play(c, run).value;
            Inv(d) && i < |d.cancelling.callers| && d.cancelling.callers[i] == c.cancelling.callers[i]
    decreases |run|
  {
    hide Inv, Move;
    if run != [] {
      MoveKeeps(c, run[0]);
      OtherStep(c, run[0], i);
      OthersKeepPlace(Move(c, run[0]).value, run[1..], i);
    }
  }

  lemma OtherStep(c: Call, step: Step, i: nat)
    requires Inv(c) && Move(c, step).Some? && i < |c.cancelling.callers| && !(step.CancelStep? && step.i == i)
    ensures var d := Move(c, step).value;
            i < |d.cancelling.callers| && d.cancelling.callers[i] == c.cancelling.callers[i]
  {
    hide Inv, ExecutorMove, HandlerMove, ReaderMove, CancelMove, Cancels;
    if step.CancelStep? {
      CancellerMoves(c.cancelling, c, step.i, step.ok);
    } else {
      SentAndFlag(c, step);
    }
  }

  lemma EntersUnlessDone(c: Call, i: nat, ok: bool)
    requires Inv(c) && i < |c.cancelling.callers| && c.cancelling.callers[i].Entered? && !c.doneFlag
    requires Move(c, CancelStep(i, ok)).Some?
    ensures var d := Move(c, CancelStep(i, ok)).value;
            |d.cancelling.callers| == |c.cancelling.callers| && d.cancelling.callers[i].Sending?
  {
    hide Inv;
  }

  lemma SendTaken(c: Call, i: nat)
    requires Inv(c) && i < |c.cancelling.callers| && c.cancelling.callers[i].Sending?
    ensures Move(c, CancelStep(i, true)).Some? && Cancels(Move(c, CancelStep(i, true)).value.sent) == 1
  {
    hide Deliver, OwnEvents, Cancels, ExecutorSent, Handled, CancelsLate, LastState;
    QueueHasRoom(c);
    SentGrows(c.sent, Canceled);
  }

  lemma {:induction false} CancelStays(c: Call, run: seq<Step>)
    requires Inv(c) && Play(c, run).Some? && Cancels(c.sent) == 1
    ensures Cancels(Play(c, run).value.sent) == 1
    decreases |run|
  {
    hide Inv, Move, Cancels;
    if run != [] {
      MoveKeeps(c, run[0]);
      SentAndFlag(c, run[0]);
      OnlyOne(Move(c, run[0]).value);
      CancelStays(Move(c, run[0]).value, run[1..]);
    }
  }

  /**
    A canceller that is inside the once before the done flag is set, and whose
    select then takes the send, has Canceled sent exactly once, whatever the
    others do in between and afterwards.
   */
  lemma ServedCancelsOnce(cancellers: nat, readers: nat, before: seq<Step>, i: nat, ok: bool,
                          between: seq<Step>, after: seq<Step>)
    requires Play(NewCall(cancellers, readers), before).Some?
    requires var c := Play(NewCall(cancellers, readers), before).value;
             && i < |c.cancelling.callers| && c.cancelling.callers[i].Entered? && !c.doneFlag
             && Play(c, [CancelStep(i, ok)] + (between + ([CancelStep(i, true)] + after))).Some?
    requires forall k :: 0 <= k < |between| ==> !(between[k].CancelStep? && between[k].i == i)
    ensures var c := Play(NewCall(cancellers, readers), before).value;
            Cancels(Play(c, [CancelStep(i, ok)] + (between + ([CancelStep(i, true)] + after))).value.sent) == 1
  {
    hide Play, Inv, Move, Cancels;
    NewCallOk(cancellers, readers);
    PlayKeeps(NewCall(cancellers, readers), before);
    var c := Play(NewCall(cancellers, readers), before).value;
    var last := [CancelStep(i, true)] + after;
    PlayOne(c, CancelStep(i, ok), between + last);
    var d := Move(c, CancelStep(i, ok)).value;
    MoveKeeps(c, CancelStep(i, ok));
    EntersUnlessDone(c, i, ok);
    PlaySplits(d, between, last);
    PlayAppend(d, between, last);
    OthersKeepPlace(d, between, i);
    var e := Play(d, between).value;
    PlayOne(e, CancelStep(i, true), after);
    SendTaken(e, i);
    MoveKeeps(e, CancelStep(i, true));
    CancelStays(Move(e, CancelStep(i, true)).value, after);
  }

  lemma {:induction false} PlaySplits(c: Call, a: seq<Step>, b: seq<Step>)
    requires Play(c, a + b).Some?
    ensures Play(c, a).Some?
    decreases |a|
  {
    hide Move;
    if a != [] {
      assert (a + b)[0] == a[0] && (a + b)[1..] == a[1..] + b;
      PlaySplits(Move(c, a[0]).value, a[1..], b);
    }
  }

  // ----- A call that is done -----

  /** The call is done and nobody is in the middle of a send. */
  predicate Silent(c: Call) {
    c.doneFlag && (c.executor.ClosingDone? || c.executor.Finished?) &&
    forall i :: 0 <= i < |c.cancelling.callers| ==> !c.cancelling.callers[i].Sending?
  }

  lemma SilentStep(c: Call, step: Step)
    requires Silent(c) && Move(c, step).Some?
    ensures Silent(Move(c, step).value) && Move(c, step).value.sent == c.sent
  {
    hide ReaderMove;
  }

  lemma {:induction false} SilentRun(c: Call, run: seq<Step>)
    requires Silent(c) && Play(c, run).Some?
    ensures Play(c, run).value.sent == c.sent
    decreases |run|
  {
    hide Silent, Move;
    if run != [] {
      SilentStep(c, run[0]);
      SilentRun(Move(c, run[0]).value, run[1..]);
    }
  }

  /** Once the done flag is set, only a canceller already at its send can still send anything. */
  lemma DoneSilencesCancels(cancellers: nat, readers: nat, before: seq<Step>, after: seq<Step>)
    requires Play(NewCall(cancellers, readers), before).Some?
    requires var c := Play(NewCall(cancellers, readers), before).value;
             && c.doneFlag && Play(c, after).Some?
             && forall i :: 0 <= i < |c.cancelling.callers| ==> !c.cancelling.callers[i].Sending?
    ensures var c := Play(NewCall(cancellers, readers), before).value; Play(c, after).value.sent == c.sent
  {
    hide Play, Inv;
    NewCallOk(cancellers, readers);
    PlayKeeps(NewCall(cancellers, readers), before);
    var c := Play(NewCall(cancellers, readers), before).value;
    DoneIsOver(c);
    SilentRun(c, after);
  }

  lemma DoneIsOver(c: Call)
    requires Inv(c) && c.doneFlag
    ensures c.executor.ClosingDone? || c.executor.Finished?
  {
    hide OwnEvents, Cancels, ExecutorSent, Handled, Deliver;
  }
}
