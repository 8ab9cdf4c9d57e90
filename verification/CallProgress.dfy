/** Every run of a call ends, and it ends with everybody finished: nothing deadlocks. */
module CallProgress {
  import opened CallMachine
  import opened CallProtocol
  import opened FillOnce
  import opened Sums

  function ExecutorRank(x: Executor): nat {
    match x
    case Emitting(Executing, checked) => if checked then 11 else 12
    case Running => 10
    case Opening => 9
    case Emitting(Retrieving, checked) => if checked then 7 else 8
    case Draining => 6
    case Archiving => 5
    case Emitting(_, checked) => if checked then 3 else 4
    case SettingDone => 2
    case ClosingDone => 1
    case Finished => 0
  }

  function HandlerRank(h: Handler): nat {
    match h
    case Listening => 2
    case Emptying => 1
    case Processing(_, last) => if last then 3 else 4
    case Notifying(_, last) => if last then 2 else 3
    case Exited => 0
  }

  function CancellerRank(p: Canceller): nat {
    match p
    case Asked => 5
    case NotDone => 4
    case Willing => 3
    case Entered => 2
    case Sending => 1
    case Left => 0
  }

  function ReaderRank(p: Reader): nat {
    match p
    case Calling => 6
    case Locked => 5
    case SawEmpty => 4
    case Loading => 3
    case Refilling => 2
    case Draws => 1
    case _ => 0
  }

  function CancellerRanks(callers: seq<Canceller>): seq<nat> {
    seq(|callers|, i requires 0 <= i < |callers| => CancellerRank(callers[i]))
  }

  function ReaderRanks(readers: seq<Reader>): seq<nat> {
    seq(|readers|, i requires 0 <= i < |readers| => ReaderRank(readers[i]))
  }

  /** How many steps are left at most; an event costs the handler three steps. */
  function Rank(c: Call): nat {
    4 * ExecutorRank(c.executor) + HandlerRank(c.handler) + 3 * |c.queue|
    + 4 * Sum(CancellerRanks(c.cancelling.callers)) + Sum(ReaderRanks(c.store.readers))
  }

  lemma CancellerMoves(g: Cancelling, c: Call, i: nat, ok: bool)
    requires CancelMove(g, c, i, ok).Some?
    ensures var h := CancelMove(g, c, i, ok).value.0;
            && i < |g.callers| == |h.callers| && h.callers == g.callers[i := h.callers[i]]
            && CancellerRank(h.callers[i]) < CancellerRank(g.callers[i])
  {
  }

  lemma ReaderMoves(s: Store, state: CallState, i: nat, ok: bool)
    requires ReaderMove(s, state, i, ok).Some?
    ensures var t := ReaderMove(s, state, i, ok).value;
            && i < |s.readers| == |t.readers| && t.readers == s.readers[i := t.readers[i]]
            && ReaderRank(t.readers[i]) < ReaderRank(s.readers[i])
  {
  }

  lemma CancellersDescend(g: Cancelling, c: Call, i: nat, ok: bool)
    requires CancelMove(g, c, i, ok).Some?
    ensures Sum(CancellerRanks(CancelMove(g, c, i, ok).value.0.callers)) < Sum(CancellerRanks(g.callers))
  {
    hide CancelMove, CancellerRank, Sum;
    CancellerMoves(g, c, i, ok);
    var h := CancelMove(g, c, i, ok).value.0;
    assert CancellerRanks(h.callers) == CancellerRanks(g.callers)[i := CancellerRank(h.callers[i])];
    SumUpdate(CancellerRanks(g.callers), i, CancellerRank(h.callers[i]));
  }

  lemma ReadersDescend(s: Store, state: CallState, i: nat, ok: bool)
    requires ReaderMove(s, state, i, ok).Some?
    ensures Sum(ReaderRanks(ReaderMove(s, state, i, ok).value.readers)) < Sum(ReaderRanks(s.readers))
  {
    hide ReaderMove, ReaderRank, Sum;
    ReaderMoves(s, state, i, ok);
    var t := ReaderMove(s, state, i, ok).value;
    assert ReaderRanks(t.readers) == ReaderRanks(s.readers)[i := ReaderRank(t.readers[i])];
    SumUpdate(ReaderRanks(s.readers), i, ReaderRank(t.readers[i]));
  }

  lemma ExecutorDescends(c: Call, ok: bool)
    requires ExecutorMove(c, ok).Some?
    ensures var d := ExecutorMove(c, ok).value;
            4 * ExecutorRank(d.executor) + 3 * |d.queue| < 4 * ExecutorRank(c.executor) + 3 * |c.queue|
  {
  }

  lemma ExecutorAlone(c: Call, ok: bool)
    requires ExecutorMove(c, ok).Some?
    ensures var d := ExecutorMove(c, ok).value;
            d.handler == c.handler && d.cancelling == c.cancelling && d.store.readers == c.store.readers
  {
  }

  lemma HandlerDescends(c: Call, ok: bool)
    requires HandlerMove(c, ok).Some?
    ensures var d := HandlerMove(c, ok).value;
            && HandlerRank(d.handler) + 3 * |d.queue| < HandlerRank(c.handler) + 3 * |c.queue|
            && d.executor == c.executor && d.cancelling == c.cancelling && d.store == c.store
  {
  }

  lemma MoveDescends(c: Call, step: Step)
    requires Move(c, step).Some?
    ensures Rank(Move(c, step).value) < Rank(c)
  {
    hide ExecutorMove, HandlerMove, CancelMove, ReaderMove, ExecutorRank, HandlerRank, CancellerRanks, ReaderRanks, Sum;
    match step
    case ExecutorStep(ok) => { ExecutorDescends(c, ok); ExecutorAlone(c, ok); }
    case HandlerStep(ok) => HandlerDescends(c, ok);
    case CancelStep(i, ok) => CancellersDescend(c.cancelling, c, i, ok);
    case ReaderStep(i, ok) => ReadersDescend(c.store, c.state, i, ok);
  }

  /** No run is longer than the rank of its first state. */
  lemma {:induction false} RunsEnd(c: Call, run: seq<Step>)
    requires Play(c, run).Some?
    ensures |run| + Rank(Play(c, run).value) <= Rank(c)
    decreases |run|
  {
    hide Move, Rank;
    if run != [] {
      MoveDescends(c, run[0]);
      RunsEnd(Move(c, run[0]).value, run[1..]);
    }
  }

  // ----- No deadlock -----

  predicate AllLeft(callers: seq<Canceller>) {
    forall i :: 0 <= i < |callers| ==> callers[i].Left?
  }

  predicate AllAnswered(readers: seq<Reader>) {
    forall i :: 0 <= i < |readers| ==> readers[i].Served? || readers[i].Refused?
  }

  predicate Finished(c: Call) {
    c.executor.Finished? && c.handler.Exited? && AllLeft(c.cancelling.callers) && AllAnswered(c.store.readers)
  }

  lemma WriterCanMove(c: Call)
    requires LiveInv(c) && !c.store.writeMutex.Nobody?
    ensures exists step :: Move(c, step).Some?
  {
    hide OwnEvents, Deliver, Cancels, Handled, OnceOk, CancelsLate, ExecutorSent, DoneOk, LiveFills, GetLockOk;
    if c.store.writeMutex.TheReader? {
      assert Move(c, ReaderStep(c.store.writeMutex.who, true)).Some?;
    } else {
      ExecutorCanMove(c);
    }
  }

  lemma ExecutorCanMove(c: Call)
    requires LiveInv(c) && !c.executor.Finished? && (c.executor.Opening? ==> c.store.writeMutex.Nobody?)
    ensures Move(c, ExecutorStep(true)).Some?
  {
    hide OwnEvents, Deliver, Cancels, Handled, OnceOk, CancelsLate, ExecutorSent, LocksOk, LiveFills;
    QueueHasRoom(c);
  }

  lemma HandlerCanMove(c: Call)
    requires Inv(c) && c.executor.Finished? && !c.handler.Exited?
    ensures Move(c, HandlerStep(false)).Some? || Move(c, HandlerStep(true)).Some?
  {
    hide OwnEvents, Deliver, Cancels, Handled, OnceOk, CancelsLate, ExecutorSent;
  }

  lemma CancellerCanMove(c: Call, i: nat)
    requires Inv(c) && i < |c.cancelling.callers| && !c.cancelling.callers[i].Left?
    ensures exists step :: Move(c, step).Some?
  {
    hide OwnEvents, Deliver, Cancels, Handled, DoneOk, CancelsLate, ExecutorSent;
    QueueHasRoom(c);
    var g := c.cancelling;
    if g.callers[i].Willing? && g.once.HeldBy? {
      assert Move(c, CancelStep(g.once.who, true)).Some?;
    } else {
      assert Move(c, CancelStep(i, true)).Some?;
    }
  }

  lemma ReaderCanMove(c: Call, i: nat)
    requires LiveInv(c) && i < |c.store.readers| && !c.store.readers[i].Served? && !c.store.readers[i].Refused?
    ensures exists step :: Move(c, step).Some?
  {
    hide OwnEvents, Deliver, Cancels, Handled, OnceOk, CancelsLate, ExecutorSent, DoneOk, LiveFills;
    var s := c.store;
    if !s.writeMutex.Nobody? {
      WriterCanMove(c);
    } else if s.readers[i].Calling? && s.getResultMu.Some? {
      assert Move(c, ReaderStep(s.getResultMu.value, true)).Some?;
    } else {
      assert Move(c, ReaderStep(i, true)).Some?;
    }
  }

  /** Until everybody has finished, somebody can move. */
  lemma NeverStuck(c: Call)
    requires LiveInv(c) && !Finished(c)
    ensures exists step :: Move(c, step).Some?
  {
    hide Inv, LocksOk, LiveFills, Move;
    if !c.store.writeMutex.Nobody? {
      WriterCanMove(c);
    } else if !c.executor.Finished? {
      ExecutorCanMove(c);
    } else if !c.handler.Exited? {
      HandlerCanMove(c);
    } else if !AllLeft(c.cancelling.callers) {
      var i :| 0 <= i < |c.cancelling.callers| && !c.cancelling.callers[i].Left?;
      CancellerCanMove(c, i);
    } else {
      var i :| 0 <= i < |c.store.readers| && !(c.store.readers[i].Served? || c.store.readers[i].Refused?);
      ReaderCanMove(c, i);
    }
  }

  /**
    Every run of a new call stays below one bound. A run that cannot go on has
    everybody finished and exactly one terminal callback, the last one.
   */
  lemma EveryCallEnds(cancellers: nat, readers: nat, run: seq<Step>)
    requires Play(NewCall(cancellers, readers), run).Some?
    ensures |run| <= 50 + 20 * cancellers + 6 * readers
    ensures var c := Play(NewCall(cancellers, readers), run).value;
            (forall step :: Move(c, step).None?) ==>
              Finished(c) && ValidLog(c.log) && c.log != [] && Terminal(c.log[|c.log| - 1])
  {
    hide LiveInv, Inv, Move, Play, Finished, ValidLog, Terminal;
    var start := NewCall(cancellers, readers);
    NewCallLive(cancellers, readers);
    LivePlay(start, run);
    RunsEnd(start, run);
    FirstRank(cancellers, readers);
    CallbacksInOrder(cancellers, readers, run);
    var c := Play(start, run).value;
    if forall step :: Move(c, step).None? {
      FinishedHas(c);
    }
  }

  lemma FinishedHas(c: Call)
    requires LiveInv(c) && forall step :: Move(c, step).None?
    ensures Finished(c) && c.handler.Exited?
  {
    hide LiveInv, Move;
    if !Finished(c) {
      NeverStuck(c);
    }
  }

  lemma FirstRank(cancellers: nat, readers: nat)
    ensures Rank(NewCall(cancellers, readers)) == 50 + 20 * cancellers + 6 * readers
  {
    SumOfSame(cancellers, 5);
    SumOfSame(readers, 6);
    var c := NewCall(cancellers, readers);
    assert CancellerRanks(c.cancelling.callers) == seq(cancellers, _ => 5);
    assert ReaderRanks(c.store.readers) == seq(readers, _ => 6);
  }

}
