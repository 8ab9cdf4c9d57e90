/**
  How often the result of a call is filled.

  A restored call is filled at most once. A live call is filled by its executor,
  and it can be filled once more: by a GetResult that found the result empty
  before the executor filled it and then slept until the call was archived. The
  lemmas say exactly when, and give such a run.
 */
module FillOnce {
  import opened Text
  import opened CallMachine
  import opened CallProtocol

  predicate InLock(p: Reader) {
    !p.Calling? && !p.Served? && !p.Refused?
  }

  /** The reader found the result empty and has not yet filled it. */
  predicate Early(p: Reader) {
    p.SawEmpty? || p.Loading? || p.Refilling?
  }

  predicate Filling(x: Executor) {
    (x.Emitting? && x.event.Retrieving?) || x.Draining?
  }

  predicate GetLockOk(s: Store) {
    && (forall i :: 0 <= i < |s.readers| && InLock(s.readers[i]) ==> s.getResultMu == Some(i))
    && (s.getResultMu.Some? ==> s.getResultMu.value < |s.readers| && InLock(s.readers[s.getResultMu.value]))
  }

  predicate WriteLockOk(s: Store, x: Executor) {
    && (forall i :: 0 <= i < |s.readers| && s.readers[i].Draws? ==> s.writeMutex == TheReader(i))
    && (s.writeMutex.TheReader? ==> s.writeMutex.who < |s.readers| && s.readers[s.writeMutex.who].Draws?)
    && (s.writeMutex.TheExecutor? <==> Filling(x))
    && (s.isFilled <==> s.fills != [])
  }

  predicate LocksOk(s: Store, x: Executor) {
    GetLockOk(s) && WriteLockOk(s, x)
  }

  /** Nobody who is about to fill remains. */
  predicate NoEarly(s: Store) {
    forall i :: 0 <= i < |s.readers| ==> !Early(s.readers[i])
  }

  // ----- A live call -----

  /** The executor has passed its SetIter. */
  predicate Passed(own: seq<CallState>, x: Executor) {
    own == [Executing, Retrieving] || |own| == 3 || (x.Emitting? && x.event.Retrieving?)
  }

  predicate LiveFills(c: Call) {
    var s := c.store;
    && (s.fills == [] <==> !Passed(OwnEvents(c.sent), c.executor))
    && (s.fills != [] ==> s.fills[0].TheExecutor?)
    && |s.fills| <= 2
    && (|s.fills| == 2 ==> s.fills[1].TheReader? && NoEarly(s))
    && (forall i :: 0 <= i < |s.readers| && (s.readers[i].Loading? || s.readers[i].Refilling?) ==>
          s.isFilled && c.state.Archived?)
  }

  predicate StateSeen(c: Call) {
    c.state.Unknown? || c.state in c.sent
  }

  predicate LiveInv(c: Call) {
    Inv(c) && LocksOk(c.store, c.executor) && LiveFills(c)
  }

  lemma {:induction false} DeliveredFrom(events: seq<CallState>)
    ensures forall e :: e in Deliver(events) ==> e in events
  {
    if events != [] {
      var n := |events| - 1;
      DeliveredFrom(events[..n]);
      assert events == events[..n] + [events[n]];
    }
  }

  lemma {:induction false} OwnFrom(events: seq<CallState>, e: CallState)
    requires e in events && !e.Canceled?
    ensures e in OwnEvents(events)
  {
    var n := |events| - 1;
    assert events == events[..n] + [events[n]];
    if e in events[..n] {
      OwnFrom(events[..n], e);
    }
  }

  /** A state that can be seen was sent. */
  lemma StateWasSent(c: Call)
    requires Inv(c)
    ensures StateSeen(c)
  {
    hide Deliver, OwnEvents, Cancels, ExecutorSent, Terminal;
    var n := |c.received| - 1;
    DeliveredFrom(c.received);
    if c.received != [] {
      DeliveredFrom(c.received[..n]);
      assert c.received == c.received[..n] + [c.received[n]];
    }
    assert c.state.Unknown? || c.state in c.received;
  }

  /** Retrieving and everything after it is seen only once the result is filled. */
  lemma FilledWhenSeen(c: Call)
    requires LiveInv(c)
    requires c.state.Retrieving? || c.state.RetrievingFailed? || c.state.Archived? || c.state.ArchiveFailed?
    ensures c.store.isFilled && c.store.fills[0].TheExecutor?
  {
    hide Deliver, OwnEvents, Cancels, Terminal, Handled, DoneOk, OnceOk, CancelsLate;
    StateWasSent(c);
    OwnFrom(c.sent, c.state);
    assert c.state in OwnEvents(c.sent);
  }

  lemma ReaderGetLock(s: Store, state: CallState, i: nat, ok: bool)
    requires GetLockOk(s) && ReaderMove(s, state, i, ok).Some?
    ensures GetLockOk(ReaderMove(s, state, i, ok).value)
  {
  }

  /** What one step of a reader does to the write lock. */
  lemma ReaderWrites(s: Store, state: CallState, i: nat, ok: bool)
    requires ReaderMove(s, state, i, ok).Some?
    ensures var t := ReaderMove(s, state, i, ok).value;
            && |t.readers| == |s.readers| && i < |s.readers|
            && (forall j :: 0 <= j < |s.readers| && j != i ==> t.readers[j] == s.readers[j])
            && (if s.readers[i].Refilling? then
                  t.readers[i].Draws? && s.writeMutex.Nobody? && t.writeMutex == TheReader(i)
                  && t.isFilled && t.fills == s.fills + [TheReader(i)]
                else
                  && !t.readers[i].Draws? && t.isFilled == s.isFilled && t.fills == s.fills
                  && t.writeMutex == if s.readers[i].Draws? then Nobody else s.writeMutex)
  {
  }

  lemma ReaderWriteLock(s: Store, x: Executor, state: CallState, i: nat, ok: bool)
    requires WriteLockOk(s, x) && ReaderMove(s, state, i, ok).Some?
    ensures WriteLockOk(ReaderMove(s, state, i, ok).value, x)
  {
    hide Filling, ReaderMove;
    ReaderWrites(s, state, i, ok);
  }

  lemma ReaderLocks(s: Store, x: Executor, state: CallState, i: nat, ok: bool)
    requires LocksOk(s, x) && ReaderMove(s, state, i, ok).Some?
    ensures LocksOk(ReaderMove(s, state, i, ok).value, x)
  {
    hide GetLockOk, WriteLockOk, ReaderMove;
    ReaderGetLock(s, state, i, ok);
    ReaderWriteLock(s, x, state, i, ok);
  }

  /** What one step of a reader does to the fills. */
  lemma ReaderFills(s: Store, state: CallState, i: nat, ok: bool)
    requires ReaderMove(s, state, i, ok).Some?
    ensures var t := ReaderMove(s, state, i, ok).value;
            && |t.readers| == |s.readers| && i < |s.readers|
            && (forall j :: 0 <= j < |s.readers| && j != i ==> t.readers[j] == s.readers[j])
            && (t.fills == s.fills ||
                (s.readers[i].Refilling? && t.fills == s.fills + [TheReader(i)] && t.readers[i].Draws?))
            && (Early(t.readers[i]) ==> Early(s.readers[i]) || !s.isFilled)
            && (t.readers[i].Loading? ==> state.Archived?)
            && (t.readers[i].Refilling? ==> s.readers[i].Loading?)
  {
  }

  lemma ReaderKeepsFills(c: Call, i: nat, ok: bool)
    requires LiveInv(c) && Move(c, ReaderStep(i, ok)).Some?
    ensures LiveInv(Move(c, ReaderStep(i, ok)).value)
  {
    hide ReaderMove, OwnEvents, Inv, Passed, Early;
    ReaderKeeps(c, i, ok);
    ReaderLocks(c.store, c.executor, c.state, i, ok);
    ReaderFills(c.store, c.state, i, ok);
    var s, t := c.store, Move(c, ReaderStep(i, ok)).value.store;
    EarlyIs();
    if c.state.Archived? {
      FilledWhenSeen(c);
    }
    if t.fills != s.fills {
      OthersNotEarly(s, c.executor, i);
    }
  }

  lemma EarlyIs()
    ensures forall p: Reader :: Early(p) <==> p.SawEmpty? || p.Loading? || p.Refilling?
  {
  }

  lemma OthersNotEarly(s: Store, x: Executor, i: nat)
    requires LocksOk(s, x) && i < |s.readers| && InLock(s.readers[i])
    ensures forall j :: 0 <= j < |s.readers| && j != i ==> !Early(s.readers[j])
  {
  }

  /** What one step of the executor does to the store. */
  lemma ExecutorStore(c: Call, ok: bool)
    requires ExecutorMove(c, ok).Some? && ExecutorSent(OwnEvents(c.sent), c.executor)
    ensures var d := ExecutorMove(c, ok).value;
            && (c.executor.Opening? ==>
                  && c.store.writeMutex.Nobody? && d.executor == Emitting(Retrieving, false)
                  && d.store == Fill(c.store, TheExecutor))
            && (c.executor.Draining? ==> d.store == c.store.(writeMutex := Nobody) && !Filling(d.executor))
            && (!c.executor.Opening? && !c.executor.Draining? ==>
                  d.store == c.store && (Filling(d.executor) <==> Filling(c.executor)))
  {
    hide OwnEvents;
  }

  lemma ExecutorLocks(c: Call, ok: bool)
    requires LocksOk(c.store, c.executor) && ExecutorMove(c, ok).Some?
    requires ExecutorSent(OwnEvents(c.sent), c.executor)
    ensures var d := ExecutorMove(c, ok).value;
            && LocksOk(d.store, d.executor) && d.store.readers == c.store.readers
            && (if c.executor.Opening? then d.store.fills == c.store.fills + [TheExecutor]
                else d.store.fills == c.store.fills)
  {
    hide OwnEvents, InLock, ExecutorMove, ExecutorSent;
    ExecutorStore(c, ok);
  }

  lemma PassedSteps(c: Call, ok: bool)
    requires Inv(c) && ExecutorMove(c, ok).Some?
    ensures var d := ExecutorMove(c, ok).value;
            Passed(OwnEvents(d.sent), d.executor) <==> Passed(OwnEvents(c.sent), c.executor) || c.executor.Opening?
    ensures c.executor.Opening? ==> !Passed(OwnEvents(c.sent), c.executor)
  {
    hide OwnEvents, Deliver, Cancels, Handled, DoneOk, OnceOk, CancelsLate, OwnShape;
    if c.executor.Emitting? {
      ExecutorEmits(c, ok);
      SentGrows(c.sent, c.executor.event);
      EmitCompletes(OwnEvents(c.sent), c.executor.event, c.executor.checked);
    } else {
      ExecutorWorks(c, ok);
    }
  }

  lemma ExecutorKeepsFills(c: Call, ok: bool)
    requires LiveInv(c) && ExecutorMove(c, ok).Some?
    ensures LiveInv(ExecutorMove(c, ok).value)
  {
    hide ExecutorMove, OwnEvents, Inv, Passed, Early;
    ExecutorKeeps(c, ok);
    InvHas(c);
    ExecutorLocks(c, ok);
    ExecutorState(c, ok);
    PassedSteps(c, ok);
  }

  lemma ExecutorState(c: Call, ok: bool)
    requires ExecutorMove(c, ok).Some?
    ensures ExecutorMove(c, ok).value.state == c.state
  {
  }

  lemma InvHas(c: Call)
    requires Inv(c)
    ensures ExecutorSent(OwnEvents(c.sent), c.executor)
  {
  }

  lemma HandlerKeepsFills(c: Call, ok: bool)
    requires LiveInv(c) && HandlerMove(c, ok).Some?
    ensures LiveInv(HandlerMove(c, ok).value)
  {
    hide Inv, Passed, OwnEvents, HandlerMove, LocksOk, NoEarly;
    HandlerKeeps(c, ok);
    HandlerStore(c, ok);
  }

  lemma CancellerKeepsFills(c: Call, i: nat, ok: bool)
    requires LiveInv(c) && Move(c, CancelStep(i, ok)).Some?
    ensures LiveInv(Move(c, CancelStep(i, ok)).value)
  {
    hide Inv, Passed, OwnEvents, CancelMove, LocksOk, LiveFills;
    CancellerKeeps(c, i, ok);
    SentGrows(c.sent, Canceled);
    assert OwnEvents(c.sent) + [] == OwnEvents(c.sent);
    SameFills(c, Move(c, CancelStep(i, ok)).value);
  }

  lemma SameFills(c: Call, d: Call)
    requires d.store == c.store && d.executor == c.executor && d.state == c.state
    requires OwnEvents(d.sent) == OwnEvents(c.sent)
    ensures LiveFills(d) <==> LiveFills(c)
  {
    hide OwnEvents, Passed, NoEarly;
  }

  lemma HandlerStore(c: Call, ok: bool)
    requires HandlerMove(c, ok).Some?
    ensures var d := HandlerMove(c, ok).value; d.store == c.store && d.executor == c.executor && d.sent == c.sent
    ensures c.state.Archived? ==> HandlerMove(c, ok).value.state.Archived?
  {
  }

  lemma LiveKeeps(c: Call, step: Step)
    requires LiveInv(c) && Move(c, step).Some?
    ensures LiveInv(Move(c, step).value)
  {
    hide LiveInv, ExecutorMove, HandlerMove, CancelMove, ReaderMove;
    match step
    case ExecutorStep(ok) => ExecutorKeepsFills(c, ok);
    case ReaderStep(i, ok) => ReaderKeepsFills(c, i, ok);
    case HandlerStep(ok) => HandlerKeepsFills(c, ok);
    case CancelStep(i, ok) => CancellerKeepsFills(c, i, ok);
  }

  lemma {:induction false} LivePlay(c: Call, run: seq<Step>)
    requires LiveInv(c) && Play(c, run).Some?
    ensures LiveInv(Play(c, run).value)
    decreases |run|
  {
    hide LiveInv, Move;
    if run != [] {
      LiveKeeps(c, run[0]);
      LivePlay(Move(c, run[0]).value, run[1..]);
    }
  }

  lemma NewCallLive(cancellers: nat, readers: nat)
    ensures LiveInv(NewCall(cancellers, readers))
  {
    NewCallOk(cancellers, readers);
    NothingSent();
  }

  /** A live result is filled by the executor first, and refilled at most once. */
  lemma LiveCallFills(cancellers: nat, readers: nat, run: seq<Step>)
    requires Play(NewCall(cancellers, readers), run).Some?
    ensures var s := Play(NewCall(cancellers, readers), run).value.store;
            |s.fills| <= 2 && (s.fills != [] ==> s.fills[0].TheExecutor?)
  {
    hide Inv, LocksOk, Move;
    NewCallLive(cancellers, readers);
    LivePlay(NewCall(cancellers, readers), run);
  }

  /** In every run of a live call, whoever sees Retrieving or a state behind it finds the result filled. */
  lemma FilledWhenVisible(cancellers: nat, readers: nat, run: seq<Step>)
    requires Play(NewCall(cancellers, readers), run).Some?
    ensures var c := Play(NewCall(cancellers, readers), run).value;
            c.state.Retrieving? || c.state.RetrievingFailed? || c.state.Archived? || c.state.ArchiveFailed? ==>
              c.store.isFilled && c.store.fills != [] && c.store.fills[0].TheExecutor?
  {
    hide LiveInv, Move, Play;
    NewCallLive(cancellers, readers);
    LivePlay(NewCall(cancellers, readers), run);
    var c := Play(NewCall(cancellers, readers), run).value;
    if c.state.Retrieving? || c.state.RetrievingFailed? || c.state.Archived? || c.state.ArchiveFailed? {
      FilledWhenSeen(c);
      FilledHas(c);
    }
  }

  lemma FilledHas(c: Call)
    requires LiveInv(c) && c.store.isFilled
    ensures c.store.fills != []
  {
    hide Inv, LiveFills, GetLockOk;
  }

  /** Once the result is filled, a reader that is not already past its emptiness check never fills it. */
  lemma {:induction false} LateReaderNeverFills(c: Call, i: nat, run: seq<Step>)
    requires LiveInv(c) && Play(c, run).Some? && c.store.isFilled && i < |c.store.readers|
    requires !Early(c.store.readers[i])
    ensures TheReader(i) in Play(c, run).value.store.fills ==> TheReader(i) in c.store.fills
    decreases |run|
  {
    hide LiveInv, Move, Early;
    if run != [] {
      var d := Move(c, run[0]).value;
      LiveKeeps(c, run[0]);
      StaysLate(c, i, run[0]);
      LateReaderNeverFills(d, i, run[1..]);
    }
  }

  lemma StaysLate(c: Call, i: nat, step: Step)
    requires LiveInv(c) && Move(c, step).Some? && c.store.isFilled && i < |c.store.readers|
    requires !Early(c.store.readers[i])
    ensures var s := Move(c, step).value.store;
            && s.isFilled && i < |s.readers| && !Early(s.readers[i])
            && (TheReader(i) in s.fills ==> TheReader(i) in c.store.fills)
  {
    hide Inv, LiveFills, ExecutorMove, HandlerMove, CancelMove, ReaderMove, Passed;
    LiveKeeps(c, step);
    InvHas(c);
    match step
    case ExecutorStep(ok) => ExecutorLocks(c, ok);
    case HandlerStep(ok) => HandlerStore(c, ok);
    case CancelStep(_, _) =>
    case ReaderStep(j, ok) => ReaderFills(c.store, c.state, j, ok);
  }

  // ----- Exactly when an archived call is refilled -----

  lemma {:induction false} NoEarlyNoFill(c: Call, run: seq<Step>)
    requires LiveInv(c) && c.store.isFilled && NoEarly(c.store) && Play(c, run).Some?
    ensures Play(c, run).value.store.fills == c.store.fills
    decreases |run|
  {
    hide LiveInv, Move, NoEarly;
    if run != [] {
      NoEarlyStep(c, run[0]);
      NoEarlyNoFill(Move(c, run[0]).value, run[1..]);
    }
  }

  lemma NoEarlyStep(c: Call, step: Step)
    requires LiveInv(c) && c.store.isFilled && NoEarly(c.store) && Move(c, step).Some?
    ensures var d := Move(c, step).value;
            LiveInv(d) && d.store.isFilled && NoEarly(d.store) && d.store.fills == c.store.fills
  {
    hide Inv, LiveFills, ExecutorMove, HandlerMove, CancelMove, ReaderMove, Passed, Early;
    LiveKeeps(c, step);
    InvHas(c);
    EarlyIs();
    match step
    case ExecutorStep(ok) => { ExecutorLocks(c, ok); FilledNotOpening(c); }
    case HandlerStep(ok) => HandlerStore(c, ok);
    case CancelStep(_, _) =>
    case ReaderStep(j, ok) => ReaderFills(c.store, c.state, j, ok);
  }

  lemma FilledNotOpening(c: Call)
    requires LiveInv(c) && c.store.isFilled
    ensures !c.executor.Opening?
  {
    hide OwnEvents;
  }

  lemma RefillRun(c: Call, i: nat) returns (run: seq<Step>)
    requires LiveInv(c) && c.state.Archived? && i < |c.store.readers| && Early(c.store.readers[i])
    ensures Play(c, run).Some? && TheReader(i) in Play(c, run).value.store.fills
    decreases if c.store.readers[i].SawEmpty? then 2 else if c.store.readers[i].Loading? then 1 else 0
  {
    hide Inv, LiveFills, Play;
    var step := ReaderStep(i, true);
    LiveKeepsIfMoves(c, i);
    PlayOne(c, step, []);
    PlayNone(Move(c, step).value);
    if c.store.readers[i].Refilling? {
      run := [step];
      assert [step] + [] == run;
      assert c.store.fills + [TheReader(i)] == Move(c, step).value.store.fills;
    } else {
      var rest := RefillRun(Move(c, step).value, i);
      PlayOne(c, step, rest);
      run := [step] + rest;
    }
  }

  lemma PlayNone(c: Call)
    ensures Play(c, []) == Some(c)
  {
  }

  lemma PlayOne(c: Call, step: Step, rest: seq<Step>)
    ensures Play(c, [step] + rest) == if Move(c, step).Some? then Play(Move(c, step).value, rest) else None
  {
    hide Move;
    assert ([step] + rest)[1..] == rest;
  }

  lemma LiveKeepsIfMoves(c: Call, i: nat)
    requires LiveInv(c) && c.state.Archived? && i < |c.store.readers| && Early(c.store.readers[i])
    ensures Move(c, ReaderStep(i, true)).Some? && LiveInv(Move(c, ReaderStep(i, true)).value)
  {
    hide OwnEvents, Deliver, Cancels, Handled, OnceOk, CancelsLate;
    StateWasSent(c);
    OwnFrom(c.sent, Archived);
    assert Archived in OwnEvents(c.sent);
    LiveKeeps(c, ReaderStep(i, true));
  }

  /** An archived call stays filled once, in all continuations, exactly when no reader is early. */
  lemma RefillFrom(c: Call)
    requires LiveInv(c) && c.state.Archived? && c.store.fills == [TheExecutor]
    ensures NoEarly(c.store) <==>
            forall run :: Play(c, run).Some? ==> Play(c, run).value.store.fills == [TheExecutor]
  {
    hide Inv, LiveFills, Move, Early, GetLockOk, Play;
    if NoEarly(c.store) {
      forall run | Play(c, run).Some? ensures Play(c, run).value.store.fills == [TheExecutor] {
        NoEarlyNoFill(c, run);
      }
    } else {
      var i :| 0 <= i < |c.store.readers| && Early(c.store.readers[i]);
      var run := RefillRun(c, i);
      assert TheReader(i) !in [TheExecutor];
    }
  }

  // ----- A restored call -----

  predicate RestoredInv(c: Call) {
    && c.executor.Finished? && c.handler.Exited? && c.doneClosed
    && (forall i :: 0 <= i < |c.cancelling.callers| ==> c.cancelling.callers[i].Asked? || c.cancelling.callers[i].Left?)
    && LocksOk(c.store, c.executor)
    && |c.store.fills| <= 1 && (c.store.fills != [] ==> NoEarly(c.store) && c.state.Archived?)
    && (forall i :: 0 <= i < |c.store.readers| && (c.store.readers[i].Loading? || c.store.readers[i].Refilling?) ==>
          c.state.Archived?)
  }

  /** State, error and callbacks are the same. */
  predicate SameStory(c: Call, d: Call) {
    d.state == c.state && d.err == c.err && d.log == c.log && d.sent == c.sent
  }

  lemma RestoredKeeps(c: Call, step: Step)
    requires RestoredInv(c) && Move(c, step).Some?
    ensures RestoredInv(Move(c, step).value) && SameStory(c, Move(c, step).value)
  {
    hide GetLockOk, WriteLockOk, ReaderMove, Early;
    EarlyIs();
    if step.ReaderStep? {
      var s := c.store;
      ReaderLocks(s, c.executor, c.state, step.i, step.ok);
      ReaderFills(s, c.state, step.i, step.ok);
      RestoredLocks(s, c.executor);
      if s.readers[step.i].Refilling? {
        OthersNotEarly(s, c.executor, step.i);
      }
    }
  }

  lemma RestoredLocks(s: Store, x: Executor)
    requires LocksOk(s, x)
    ensures s.isFilled <==> s.fills != []
  {
  }

  lemma {:induction false} RestoredPlay(c: Call, run: seq<Step>)
    requires RestoredInv(c) && Play(c, run).Some?
    ensures RestoredInv(Play(c, run).value) && SameStory(c, Play(c, run).value)
    decreases |run|
  {
    hide RestoredInv, Move;
    if run != [] {
      RestoredKeeps(c, run[0]);
      RestoredPlay(Move(c, run[0]).value, run[1..]);
    }
  }

  /**
    A call restored from its history keeps what was saved, reports nothing, and is
    filled at most once, only when it was archived and its archive is there.
   */
  lemma RestoredFillsOnce(saved: CallState, archiveExists: bool, err: bool,
                          cancellers: nat, readers: nat, run: seq<Step>)
    requires Play(RestoredCall(saved, archiveExists, err, cancellers, readers), run).Some?
    ensures var c := Play(RestoredCall(saved, archiveExists, err, cancellers, readers), run).value;
            && |c.store.fills| <= 1 && (c.store.fills != [] ==> saved.Archived? && archiveExists)
            && c.state == (if saved.Archived? && !archiveExists then Unknown else saved)
            && c.err == err && c.log == [] && c.sent == []
  {
    hide Move, Play;
    RestoredPlay(RestoredCall(saved, archiveExists, err, cancellers, readers), run);
  }

  /** One successful step of reader i after another, from the lock to the answer. */
  function ReadingRun(i: nat): seq<Step> {
    var s := ReaderStep(i, true);
    [s] + ([s] + ([s] + ([s] + ([s] + ([s] + [])))))
  }

  /** And when it is there, whoever asks first is served from it. */
  lemma RestoredIsServed(err: bool, cancellers: nat, readers: nat, i: nat)
    requires i < readers
    ensures var end := Play(RestoredCall(Archived, true, err, cancellers, readers), ReadingRun(i));
            && end.Some? && |end.value.store.readers| == readers
            && end.value.store.readers[i].Served? && end.value.store.fills == [TheReader(i)]
  {
    hide Play;
    var c := RestoredCall(Archived, true, err, cancellers, readers);
    var s := c.store;
    assert s.readers[i].Calling?;
    var d1 := c.(store := ReaderAt(s, i, Locked).(getResultMu := Some(i)));
    var d2 := d1.(store := ReaderAt(d1.store, i, SawEmpty));
    var d3 := d2.(store := ReaderAt(d2.store, i, Loading));
    var d4 := d3.(store := ReaderAt(d3.store, i, Refilling));
    var d5 := d4.(store := Fill(ReaderAt(d4.store, i, Draws), TheReader(i)));
    var d6 := d5.(store := Leave(d5.store, i, Served).(writeMutex := Nobody));
    var step := ReaderStep(i, true);
    Reads(c, i, d1, [step] + ([step] + ([step] + ([step] + ([step] + [])))));
    Reads(d1, i, d2, [step] + ([step] + ([step] + ([step] + []))));
    Reads(d2, i, d3, [step] + ([step] + ([step] + [])));
    Reads(d3, i, d4, [step] + ([step] + []));
    Reads(d4, i, d5, [step] + []);
    Reads(d5, i, d6, []);
    PlayNone(d6);
  }

  lemma Reads(c: Call, i: nat, d: Call, rest: seq<Step>)
    requires ReaderMove(c.store, c.state, i, true) == Some(d.store) && d == c.(store := d.store)
    ensures Play(c, [ReaderStep(i, true)] + rest) == Play(d, rest)
  {
    hide ReaderMove;
    PlayOne(c, ReaderStep(i, true), rest);
  }

  // ----- A live call that is filled twice -----

  lemma PlayMore(c: Call, run: seq<Step>, d: Call, step: Step)
    requires Play(c, run) == Some(d)
    ensures Play(c, run + [step]) == Move(d, step)
    decreases |run|
  {
    hide Move;
    if run == [] {
      PlayOne(c, step, []);
      assert run + [step] == [step] + [];
      assert Move(c, step).Some? ==> Play(Move(c, step).value, []) == Move(c, step);
    } else {
      assert (run + [step])[1..] == run[1..] + [step];
      PlayMore(Move(c, run[0]).value, run[1..], d, step);
    }
  }

  /** Continues a run with one step that is possible. */
  lemma Then(c: Call, run: seq<Step>, d: Call, step: Step) returns (run': seq<Step>, d': Call)
    requires Play(c, run) == Some(d) && Move(d, step).Some?
    ensures Play(c, run') == Some(d') && d' == Move(d, step).value
  {
    hide Move, Play;
    PlayMore(c, run, d, step);
    run', d' := run + [step], Move(d, step).value;
  }

  /** The executor reads the done flag, sends its event, and the handler delivers it. */
  lemma EmitAndDeliver(c: Call, run: seq<Step>, d: Call) returns (run': seq<Step>, d': Call)
    requires Play(c, run) == Some(d) && d.executor.Emitting? && !d.executor.checked && !d.doneFlag
    requires d.queue == [] && d.handler.Listening? && !Terminal(d.state)
    ensures Play(c, run') == Some(d') && d'.state == d.executor.event && d'.queue == [] && d'.handler.Listening?
    ensures d'.executor == AfterEmit(d.executor.event) && d'.store == d.store && d'.doneFlag == d.doneFlag
  {
    hide Play;
    run', d' := Then(c, run, d, ExecutorStep(true));
    run', d' := Then(c, run', d', ExecutorStep(true));
    run', d' := Then(c, run', d', HandlerStep(true));
    run', d' := Then(c, run', d', HandlerStep(true));
    run', d' := Then(c, run', d', HandlerStep(true));
  }

  /** The executor runs the query, fills the result and archives it. */
  lemma RunToArchived(c: Call, run: seq<Step>, d: Call) returns (run': seq<Step>, d': Call)
    requires Play(c, run) == Some(d) && d.executor == Emitting(Executing, false) && !d.doneFlag
    requires d.queue == [] && d.handler.Listening? && d.state.Unknown? && d.store.writeMutex.Nobody?
    ensures Play(c, run') == Some(d') && d'.state.Archived?
    ensures d'.store == Fill(d.store, TheExecutor).(writeMutex := Nobody)
  {
    hide Play;
    run', d' := EmitAndDeliver(c, run, d);
    run', d' := Then(c, run', d', ExecutorStep(true));
    run', d' := Then(c, run', d', ExecutorStep(true));
    run', d' := EmitAndDeliver(c, run', d');
    run', d' := Then(c, run', d', ExecutorStep(true));
    run', d' := Then(c, run', d', ExecutorStep(true));
    run', d' := EmitAndDeliver(c, run', d');
  }

  /** A GetResult that looks before the fill and acts after the archive was written fills again. */
  lemma LiveCallFillsTwice() returns (run: seq<Step>)
    ensures Play(NewCall(0, 1), run).Some?
    ensures Play(NewCall(0, 1), run).value.store.fills == [TheExecutor, TheReader(0)]
  {
    hide Play;
    var c := NewCall(0, 1);
    PlayNone(c);
    var d;
    run, d := Then(c, [], c, ReaderStep(0, true));
    run, d := Then(c, run, d, ReaderStep(0, true));
    run, d := RunToArchived(c, run, d);
    run, d := Then(c, run, d, ReaderStep(0, true));
    run, d := Then(c, run, d, ReaderStep(0, true));
    run, d := Then(c, run, d, ReaderStep(0, true));
  }
}
