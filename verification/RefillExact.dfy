/** Exactly when a live call that was filled once can be filled again. */
module RefillExact {
  import opened CallMachine
  import opened CallProtocol
  import opened FillOnce
  import opened CallProgress

  /** The callbacks that what was sent so far leads to. */
  function Outcome(c: Call): CallState {
    LastState(Deliver(c.sent))
  }

  /** The executor may still send Archived. */
  predicate Archives(x: Executor) {
    (x.Emitting? && (x.event.Retrieving? || x.event.Archived?)) || x.Draining? || x.Archiving?
  }

  /** The call is archived, or will be unless something fails or it is canceled. */
  predicate CanArchive(c: Call) {
    if Terminal(Outcome(c)) then Outcome(c).Archived? else Archives(c.executor)
  }

  lemma OutcomeGrows(c: Call, d: Call, e: CallState)
    requires d.sent == c.sent + [e]
    ensures Outcome(d) == if Terminal(Outcome(c)) then Outcome(c) else e
  {
    hide Deliver, Terminal;
    SentGrows(c.sent, e);
  }

  /** What is seen is sent: an archived call is one that can be archived. */
  lemma {:induction false} DeliverSticks(a: seq<CallState>, b: seq<CallState>)
    requires Terminal(LastState(Deliver(a)))
    ensures Deliver(a + b) == Deliver(a)
    decreases |b|
  {
    hide Deliver, Terminal, LastState;
    if b == [] {
      assert a + b == a;
    } else {
      var n := |b| - 1;
      assert a + b == (a + b[..n]) + [b[n]];
      DeliverSticks(a, b[..n]);
      SentGrows(a + b[..n], b[n]);
    }
  }

  lemma ArchivedCanArchive(c: Call)
    requires Inv(c) && c.state.Archived?
    ensures CanArchive(c)
  {
    hide Deliver, OwnEvents, Cancels, ExecutorSent, OnceOk, CancelsLate, DoneOk;
    var n := |c.received| - 1;
    if c.handler.Notifying? {
      SentGrows(c.received[..n], c.received[n]);
      assert c.received == c.received[..n] + [c.received[n]];
      assert Deliver(c.received) == c.log + [Archived];
      DeliverSticks(c.received, c.queue);
    } else if c.handler.Processing? {
      DeliverSticks(c.received[..n], [c.received[n]] + c.queue);
      assert c.received[..n] + ([c.received[n]] + c.queue) == c.sent;
    } else {
      DeliverSticks(c.received, c.queue);
    }
  }

  /** Once the executor can no longer archive, nothing brings it back. */
  lemma StaysHopeless(c: Call, step: Step)
    requires LiveInv(c) && c.store.isFilled && Move(c, step).Some? && !CanArchive(c)
    ensures !CanArchive(Move(c, step).value)
  {
    hide Deliver, Handled, DoneOk, OnceOk, CancelsLate, ExecutorSent, LiveFills, GetLockOk, Terminal,
         CancelMove, ReaderMove;
    var d := Move(c, step).value;
    match step
    case ExecutorStep(ok) => {
      FilledNotOpening(c);
      HopelessExecutor(c, ok);
    }
    case HandlerStep(ok) => HandlerStore(c, ok);
    case CancelStep(_, _) => {
      if d.sent != c.sent {
        OutcomeGrows(c, d, Canceled);
      }
      CanceledIsTerminal();
    }
    case ReaderStep(_, _) =>
  }

  lemma CanceledIsTerminal()
    ensures Terminal(Canceled) && Terminal(Archived) && !Terminal(Unknown)
  {
  }

  lemma HopelessExecutor(c: Call, ok: bool)
    requires Inv(c) && ExecutorMove(c, ok).Some? && !CanArchive(c) && !c.executor.Opening?
    ensures !CanArchive(ExecutorMove(c, ok).value)
  {
    hide Deliver, OwnEvents, Cancels, Handled, DoneOk, OnceOk, CancelsLate, LastState;
    var d := ExecutorMove(c, ok).value;
    if c.executor.Emitting? {
      ExecutorEmits(c, ok);
      if d.sent != c.sent {
        OutcomeGrows(c, d, c.executor.event);
      }
    } else {
      ExecutorWorks(c, ok);
    }
  }

  lemma HopelessStep(c: Call, step: Step)
    requires LiveInv(c) && c.store.isFilled && Move(c, step).Some? && !CanArchive(c)
    ensures var d := Move(c, step).value;
            LiveInv(d) && d.store.isFilled && !CanArchive(d) && d.store.fills == c.store.fills
  {
    hide Inv, ExecutorMove, HandlerMove, CancelMove, ReaderMove, Passed, Early, GetLockOk, CanArchive, OwnEvents;
    LiveKeeps(c, step);
    StaysHopeless(c, step);
    InvHas(c);
    if c.state.Archived? {
      ArchivedCanArchive(c);
    }
    match step
    case ExecutorStep(ok) => { ExecutorLocks(c, ok); FilledNotOpening(c); }
    case HandlerStep(ok) => HandlerStore(c, ok);
    case CancelStep(_, _) =>
    case ReaderStep(j, ok) => ReaderFills(c.store, c.state, j, ok);
  }

  lemma {:induction false} HopelessNoFill(c: Call, run: seq<Step>)
    requires LiveInv(c) && c.store.isFilled && !CanArchive(c) && Play(c, run).Some?
    ensures Play(c, run).value.store.fills == c.store.fills
    decreases |run|
  {
    hide LiveInv, Move, CanArchive;
    if run != [] {
      HopelessStep(c, run[0]);
      HopelessNoFill(Move(c, run[0]).value, run[1..]);
    }
  }

  /** The next step on the way to an archived call: the handler works off its queue, then the executor goes on. */
  function Onward(c: Call): Step {
    if c.handler.Exited? || (c.handler.Listening? && c.queue == []) then ExecutorStep(true) else HandlerStep(true)
  }

  /** With nothing left to deliver, the executor still has to send Archived. */
  lemma NothingLeft(c: Call)
    requires Inv(c) && CanArchive(c) && !c.state.Archived? && c.queue == []
    requires c.handler.Listening? || c.handler.Emptying? || c.handler.Exited?
    ensures !c.handler.Exited? && Archives(c.executor)
  {
    hide OwnEvents, Cancels, ExecutorSent, OnceOk, CancelsLate, Terminal;
    assert c.sent == c.received;
    CanceledIsTerminal();
  }

  lemma HandlerGoesOn(c: Call)
    requires Inv(c) && CanArchive(c) && !c.state.Archived? && Onward(c).HandlerStep?
    ensures HandlerMove(c, true).Some?
  {
    hide OwnEvents, Cancels, ExecutorSent, OnceOk, CancelsLate, Handled, DoneOk, CanArchive;
  }

  lemma ExecutorGoesOn(c: Call)
    requires LiveInv(c) && CanArchive(c) && Archives(c.executor)
    ensures ExecutorMove(c, true).Some?
    ensures var d := ExecutorMove(c, true).value;
            CanArchive(d) && d.store.readers == c.store.readers && d.store.fills == c.store.fills
  {
    hide Deliver, OwnEvents, Cancels, Handled, OnceOk, CancelsLate, LastState, LocksOk, LiveFills;
    QueueHasRoom(c);
    CanceledIsTerminal();
    var d := ExecutorMove(c, true).value;
    if c.executor.Emitting? && c.executor.checked {
      OutcomeGrows(c, d, c.executor.event);
    }
  }

  /** A call that can be archived comes to be archived in some run in which the readers stand still. */
  lemma {:induction false} ArchivingRun(c: Call) returns (run: seq<Step>)
    requires LiveInv(c) && CanArchive(c)
    ensures Play(c, run).Some?
    ensures var d := Play(c, run).value;
            LiveInv(d) && d.state.Archived? && d.store.readers == c.store.readers && d.store.fills == c.store.fills
    decreases Rank(c)
  {
    hide Play, CanArchive, Archives, Rank, ExecutorMove, HandlerMove, LocksOk, LiveFills, Inv;
    if c.state.Archived? {
      run := [];
      PlayNone(c);
    } else {
      var step := Onward(c);
      if step.HandlerStep? {
        HandlerGoesOn(c);
        HandlerStore(c, true);
        SameChance(c, HandlerMove(c, true).value);
      } else {
        ListeningOrExited(c);
        NothingLeft(c);
        ExecutorGoesOn(c);
      }
      LiveKeeps(c, step);
      MoveDescends(c, step);
      var d := Move(c, step).value;
      var rest := ArchivingRun(d);
      PlayOne(c, step, rest);
      run := [step] + rest;
    }
  }

  lemma SameChance(c: Call, d: Call)
    requires d.sent == c.sent && d.executor == c.executor
    ensures CanArchive(d) <==> CanArchive(c)
  {
    hide Deliver;
  }

  lemma ListeningOrExited(c: Call)
    requires Inv(c) && Onward(c).ExecutorStep? && CanArchive(c) && !c.state.Archived?
    ensures c.queue == [] && c.handler.Listening?
  {
    hide OwnEvents, Cancels, ExecutorSent, OnceOk, CancelsLate, Deliver, Terminal;
    if c.handler.Exited? {
      DeliverSticks(c.received, c.queue);
    }
  }

  /**
    In every run, a live call that has been filled once stays filled once in all
    continuations exactly when no GetResult is past its emptiness check, or the
    call can no longer come to be archived: it failed, or it was canceled first.
   */
  lemma RefillExactly(cancellers: nat, readers: nat, before: seq<Step>)
    requires Play(NewCall(cancellers, readers), before).Some?
    ensures var c := Play(NewCall(cancellers, readers), before).value;
            c.store.fills == [TheExecutor] ==>
              ((forall run :: Play(c, run).Some? ==> Play(c, run).value.store.fills == [TheExecutor]) <==>
               NoEarly(c.store) || !CanArchive(c))
  {
    hide LiveInv, Move, Play, NoEarly, CanArchive;
    NewCallLive(cancellers, readers);
    LivePlay(NewCall(cancellers, readers), before);
    var c := Play(NewCall(cancellers, readers), before).value;
    if c.store.fills == [TheExecutor] {
      RefillFromHere(c);
    }
  }

  lemma RefillFromHere(c: Call)
    requires LiveInv(c) && c.store.fills == [TheExecutor]
    ensures (forall run :: Play(c, run).Some? ==> Play(c, run).value.store.fills == [TheExecutor]) <==>
            NoEarly(c.store) || !CanArchive(c)
  {
    hide Inv, LiveFills, Move, Early, GetLockOk, Play, CanArchive;
    if NoEarly(c.store) || !CanArchive(c) {
      forall run | Play(c, run).Some? ensures Play(c, run).value.store.fills == [TheExecutor] {
        if NoEarly(c.store) {
          NoEarlyNoFill(c, run);
        } else {
          HopelessNoFill(c, run);
        }
      }
    } else {
      var run := ArchivingRun(c);
      var d := Play(c, run).value;
      RefillFrom(d);
      var more :| Play(d, more).Some? && Play(d, more).value.store.fills != [TheExecutor];
      PlayAppend(c, run, more);
    }
  }

  lemma {:induction false} PlayAppend(c: Call, a: seq<Step>, b: seq<Step>)
    requires Play(c, a).Some?
    ensures Play(c, a + b) == Play(Play(c, a).value, b)
    decreases |a|
  {
    hide Move;
    if a == [] {
      assert a + b == b;
    } else {
      assert (a + b)[0] == a[0] && (a + b)[1..] == a[1..] + b;
      PlayAppend(Move(c, a[0]).value, a[1..], b);
    }
  }
}
