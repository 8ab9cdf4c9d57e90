/**
  The execution gate of an Oracle session: one mutex, taken when a statement
  starts and given back on many paths, one of them the close of a stream.

  Clients are statements, or the closing of the driver. A step is one atomic
  action of one client. Any number of closers may race for a stream: the first runs
  the callbacks, the others wait for it and then find the stream closed.
 */
module SessionGate {
  import opened Text

  datatype Job = PlSql | Exec | Query | CloseDriver

  /** What runs when a stream is closed, in the order of registration. */
  datatype Callback = CloseRows | Unlock | CancelContext

  const STREAM_CALLBACKS := [CloseRows, Unlock, CancelContext]

  datatype Place =
    | Waiting | Connecting | Executing | Unlocking | Returned
    | StreamOpen | StreamClosing(callbacks: seq<Callback>, closer: nat) | StreamClosed

  datatype Client = Client(job: Job, place: Place, rowsOpen: bool, acquired: nat, released: nat)

  /** `crashed` records an Unlock of a mutex that is not locked. */
  datatype Gate = Gate(locked: bool, sessConn: Option<nat>, nextConn: nat, crashed: bool, clients: seq<Client>)

  datatype Outcome = Fine | Fails | SessionFails

  /** `closer` is who calls Close, when the step is one of closing a stream. */
  datatype Step = Step(who: nat, outcome: Outcome, closer: nat)

  function Put(g: Gate, i: nat, c: Client): Gate
    requires i < |g.clients|
  {
    g.(clients := g.clients[i := c])
  }

  function Release(g: Gate, i: nat, c: Client): Gate
    requires i < |g.clients|
  {
    Put(g, i, c.(released := c.released + 1)).(locked := false, crashed := g.crashed || !g.locked)
  }

  function AfterStatement(c: Client, o: Outcome): Client {
    if c.job.Query? && o.Fine? then c.(place := StreamOpen, rowsOpen := true) else c.(place := Unlocking)
  }

  function Move(g: Gate, step: Step): Option<Gate> {
    var i := step.who;
    if i >= |g.clients| then None
    else
      var c := g.clients[i];
      match c.place {
        case Waiting =>
          if g.locked then None
          else
            var next := if c.job.CloseDriver? then Executing else Connecting;
            Some(Put(g, i, c.(place := next, acquired := c.acquired + 1)).(locked := true))
        case Connecting =>
          if !step.outcome.Fine? then Some(Put(g, i, c.(place := Unlocking)))
          else if g.sessConn.Some? then Some(Put(g, i, c.(place := Executing)))
          else Some(Put(g, i, c.(place := Executing)).(sessConn := Some(g.nextConn), nextConn := g.nextConn + 1))
        case Executing =>
          var h := Put(g, i, AfterStatement(c, step.outcome));
          Some(if c.job.CloseDriver? || step.outcome.SessionFails? then h.(sessConn := None) else h)
        case Unlocking => Some(Release(g, i, c.(place := Returned)))
        case Returned => None
        case StreamOpen => Some(Put(g, i, c.(place := StreamClosing(STREAM_CALLBACKS, step.closer))))
        case StreamClosed => Some(g)
        case StreamClosing(callbacks, closer) =>
          if step.closer != closer then None
          else if callbacks == [] then Some(Put(g, i, c.(place := StreamClosed)))
          else
            var d := c.(place := StreamClosing(callbacks[1..], closer));
            match callbacks[0] {
              case CloseRows => Some(Put(g, i, d.(rowsOpen := false)))
              case Unlock => Some(Release(g, i, d))
              case CancelContext => Some(Put(g, i, d))
            }
      }
  }

  function Play(g: Gate, run: seq<Step>): Option<Gate>
    decreases |run|
  {
    if run == [] then Some(g)
    else
      var h := Move(g, run[0]);
      if h.Some? then Play(h.value, run[1..]) else None
  }

  function NewGate(jobs: seq<Job>): Gate {
    Gate(false, None, 0, false,
         seq(|jobs|, i requires 0 <= i < |jobs| => Client(jobs[i], Waiting, false, 0, 0)))
  }

  /** The client runs a statement, is on its way out, or has a stream whose rows are not yet closed. */
  predicate Holds(p: Place) {
    p.Connecting? || p.Executing? || p.Unlocking? || p.StreamOpen? || (p.StreamClosing? && Unlock in p.callbacks)
  }

  predicate Through(p: Place) {
    p.Returned? || p.StreamClosed?
  }

  predicate ClientOk(c: Client) {
    && c.acquired == (if c.place.Waiting? then 0 else 1)
    && c.released == (if c.place.Waiting? || Holds(c.place) then 0 else 1)
    && (c.rowsOpen <==> c.place.StreamOpen? || (c.place.StreamClosing? && c.place.callbacks == STREAM_CALLBACKS))
    && (c.place.StreamClosing? ==>
          c.place.callbacks == [CloseRows, Unlock, CancelContext] || c.place.callbacks == [Unlock, CancelContext] ||
          c.place.callbacks == [CancelContext] || c.place.callbacks == [])
    && (c.job.CloseDriver? ==> !c.place.Connecting?)
  }

  predicate OneHolder(g: Gate) {
    forall i, j :: 0 <= i < |g.clients| && 0 <= j < |g.clients| ==>
      Holds(g.clients[i].place) && Holds(g.clients[j].place) ==> i == j
  }

  ghost predicate Held(g: Gate) {
    exists i :: 0 <= i < |g.clients| && Holds(g.clients[i].place)
  }

  /** While the rows of one client are open the gate is shut and nobody else is at work. */
  predicate OpenRowsExclude(g: Gate) {
    forall i :: 0 <= i < |g.clients| && g.clients[i].rowsOpen ==>
      g.locked && forall j :: 0 <= j < |g.clients| && j != i ==> !Holds(g.clients[j].place)
  }

  ghost predicate Inv(g: Gate) {
    && (forall i :: 0 <= i < |g.clients| ==> ClientOk(g.clients[i]))
    && OneHolder(g) && (g.locked <==> Held(g)) && !g.crashed
    && (forall i :: 0 <= i < |g.clients| && g.clients[i].place.Executing? && !g.clients[i].job.CloseDriver? ==>
          g.sessConn.Some?)
  }

  /** One step changes one client. */
  lemma OneClient(g: Gate, step: Step)
    requires Move(g, step).Some?
    ensures var h := Move(g, step).value; var i := step.who;
            i < |g.clients| == |h.clients| && h.clients == g.clients[i := h.clients[i]]
  {
  }

  lemma ClosingStays(g: Gate, step: Step)
    requires Move(g, step).Some? && ClientOk(g.clients[step.who])
    requires g.clients[step.who].place.StreamClosing?
    ensures ClientOk(Move(g, step).value.clients[step.who])
  {
    assert STREAM_CALLBACKS[1..] == [Unlock, CancelContext];
    assert [Unlock, CancelContext][1..] == [CancelContext];
    assert [CancelContext][1..] == [];
  }

  /** The counts and the rows follow the client's place. */
  lemma ClientStays(g: Gate, step: Step)
    requires Move(g, step).Some? && ClientOk(g.clients[step.who])
    ensures step.who < |Move(g, step).value.clients| && ClientOk(Move(g, step).value.clients[step.who])
  {
    if g.clients[step.who].place.StreamClosing? {
      ClosingStays(g, step);
    }
  }

  /** The mutex is taken by a waiting client and given back when its holder stops holding it. */
  lemma LockStep(g: Gate, step: Step)
    requires Move(g, step).Some? && ClientOk(g.clients[step.who])
    ensures var h := Move(g, step).value; var c, d := g.clients[step.who], h.clients[step.who];
            && (c.place.Waiting? ==> !g.locked && h.locked && Holds(d.place) && h.crashed == g.crashed)
            && (!c.place.Waiting? && Holds(d.place) ==> Holds(c.place))
            && (!c.place.Waiting? && (Holds(c.place) <==> Holds(d.place)) ==>
                 h.locked == g.locked && h.crashed == g.crashed)
            && (Holds(c.place) && !Holds(d.place) ==> !h.locked && h.crashed == (g.crashed || !g.locked))
  {
    hide ClientOk;
    var c := g.clients[step.who];
    if c.place.StreamClosing? && c.place.callbacks != [] {
      CallbackCases(c);
    }
  }

  lemma CallbackCases(c: Client)
    requires ClientOk(c) && c.place.StreamClosing? && c.place.callbacks != []
    ensures Unlock in c.place.callbacks <==> c.place.callbacks[0] != CancelContext
    ensures Unlock in c.place.callbacks[1..] <==> c.place.callbacks[0] == CloseRows
  {
  }

  /** The pinned connection changes only while the gate is held, and a new one is a new number. */
  lemma ConnectionStep(g: Gate, step: Step)
    requires Move(g, step).Some?
    ensures var h := Move(g, step).value; var c, d := g.clients[step.who], h.clients[step.who];
            && (h.sessConn != g.sessConn ==> Holds(c.place) && (h.sessConn.None? || h.sessConn == Some(g.nextConn)))
            && h.nextConn >= g.nextConn && d.job == c.job
            && (d.place.Executing? && !d.job.CloseDriver? ==> h.sessConn.Some?)
            && (h.sessConn.None? && g.sessConn.Some? ==> c.place.Executing?)
            && (d.place.Connecting? ==> !c.job.CloseDriver?)
  {
  }

  /** The session is given up: it failed under a statement, or the driver is closed. */
  predicate Drops(g: Gate, step: Step) {
    && step.who < |g.clients| && g.clients[step.who].place.Executing? && g.sessConn.Some?
    && (g.clients[step.who].job.CloseDriver? || step.outcome.SessionFails?)
  }

  function DropCount(g: Gate, run: seq<Step>): nat
    requires Play(g, run).Some?
    decreases |run|
  {
    if run == [] then 0
    else (if Drops(g, run[0]) then 1 else 0) + DropCount(Move(g, run[0]).value, run[1..])
  }

  lemma DropStep(g: Gate, step: Step)
    requires Move(g, step).Some?
    ensures var h := Move(g, step).value;
            && (Drops(g, step) ==> g.sessConn.Some? && h.sessConn.None? && h.nextConn == g.nextConn)
            && (!Drops(g, step) && g.sessConn.Some? ==> h.sessConn == g.sessConn && h.nextConn == g.nextConn)
            && (g.sessConn.None? ==> h.nextConn == g.nextConn + if h.sessConn.Some? then 1 else 0)
  {
  }

  lemma {:induction false} OpensCounted(g: Gate, run: seq<Step>)
    requires Play(g, run).Some?
    ensures var h := Play(g, run).value;
            h.nextConn + (if g.sessConn.Some? then 1 else 0) ==
            g.nextConn + DropCount(g, run) + (if h.sessConn.Some? then 1 else 0)
    decreases |run|
  {
    hide Move, Drops;
    if run != [] {
      DropStep(g, run[0]);
      OpensCounted(Move(g, run[0]).value, run[1..]);
    }
  }

  /** A connection stays pinned until it is dropped: so many are opened as were dropped, and the one in use. */
  lemma ConnectionStaysPinned(jobs: seq<Job>, run: seq<Step>)
    requires Play(NewGate(jobs), run).Some?
    ensures var g := Play(NewGate(jobs), run).value;
            g.nextConn == DropCount(NewGate(jobs), run) + if g.sessConn.Some? then 1 else 0
  {
    hide Play, DropCount;
    OpensCounted(NewGate(jobs), run);
  }

  lemma HolderIs(g: Gate, i: nat)
    requires OneHolder(g) && i < |g.clients| && Holds(g.clients[i].place)
    ensures Held(g) && forall j :: 0 <= j < |g.clients| && j != i ==> !Holds(g.clients[j].place)
  {
    hide Holds;
  }

  lemma HoldingKept(g: Gate, step: Step)
    requires Inv(g) && Move(g, step).Some?
    ensures var h := Move(g, step).value; OneHolder(h) && (h.locked <==> Held(h)) && !h.crashed
  {
    hide Move, ClientOk, Holds;
    OneClient(g, step);
    LockStep(g, step);
    WaitingHoldsNot(g.clients[step.who]);
    var h := Move(g, step).value;
    var i := step.who;
    if Holds(g.clients[i].place) {
      HolderIs(g, i);
    }
    assert Holds(h.clients[i].place) ==> Held(h);
    forall j | 0 <= j < |h.clients| && j != i ensures h.clients[j] == g.clients[j] {
    }
    if Held(h) {
      var k :| 0 <= k < |h.clients| && Holds(h.clients[k].place);
      assert k != i ==> Holds(g.clients[k].place);
    }
    if Held(g) {
      var k :| 0 <= k < |g.clients| && Holds(g.clients[k].place);
      assert k != i ==> Holds(h.clients[k].place);
    }
  }

  lemma WaitingHoldsNot(c: Client)
    ensures c.place.Waiting? ==> !Holds(c.place)
  {
  }

  lemma ConnectionKept(g: Gate, step: Step)
    requires Inv(g) && Move(g, step).Some?
    ensures var h := Move(g, step).value;
            forall i :: 0 <= i < |h.clients| && h.clients[i].place.Executing? && !h.clients[i].job.CloseDriver? ==>
              h.sessConn.Some?
  {
    hide Move, ClientOk, Held;
    OneClient(g, step);
    ConnectionStep(g, step);
    var h := Move(g, step).value;
    forall i | 0 <= i < |h.clients| && h.clients[i].place.Executing? && !h.clients[i].job.CloseDriver?
      ensures h.sessConn.Some?
    {
      if i != step.who {
        assert h.clients[i] == g.clients[i] && Holds(g.clients[i].place);
        HolderIs(g, i);
      }
    }
  }

  lemma MoveKeeps(g: Gate, step: Step)
    requires Inv(g) && Move(g, step).Some?
    ensures Inv(Move(g, step).value)
  {
    hide Move, ClientOk, Holds, Held, OneHolder;
    OneClient(g, step);
    ClientStays(g, step);
    HoldingKept(g, step);
    ConnectionKept(g, step);
  }

  lemma {:induction false} PlayKeeps(g: Gate, run: seq<Step>)
    requires Inv(g) && Play(g, run).Some?
    ensures Inv(Play(g, run).value)
    decreases |run|
  {
    hide Inv, Move;
    if run != [] {
      MoveKeeps(g, run[0]);
      PlayKeeps(Move(g, run[0]).value, run[1..]);
    }
  }

  lemma NewGateOk(jobs: seq<Job>)
    ensures Inv(NewGate(jobs))
  {
  }

  /**
    In every run the mutex is held exactly when one client runs a statement or
    has a stream with open rows. Nobody unlocks twice, everybody who is through
    has locked and unlocked once, and while rows are open no other client is at
    work.
   */
  lemma GateIsExact(jobs: seq<Job>, run: seq<Step>)
    requires Play(NewGate(jobs), run).Some?
    ensures var g := Play(NewGate(jobs), run).value;
            && !g.crashed && (g.locked <==> Held(g)) && OneHolder(g)
            && (forall i :: 0 <= i < |g.clients| && Through(g.clients[i].place) ==>
                  g.clients[i].acquired == 1 == g.clients[i].released && !g.clients[i].rowsOpen)
            && (forall i :: 0 <= i < |g.clients| ==> g.clients[i].released <= g.clients[i].acquired <= 1)
            && OpenRowsExclude(g)
  {
    hide Move, Play, Held;
    NewGateOk(jobs);
    PlayKeeps(NewGate(jobs), run);
    var g := Play(NewGate(jobs), run).value;
    forall i | 0 <= i < |g.clients|
      ensures g.clients[i].released <= g.clients[i].acquired <= 1
      ensures Through(g.clients[i].place) ==>
              g.clients[i].acquired == 1 == g.clients[i].released && !g.clients[i].rowsOpen
    {
      ClientCounts(g.clients[i]);
    }
    RowsExclude(g);
  }

  lemma RowsExclude(g: Gate)
    requires Inv(g)
    ensures OpenRowsExclude(g)
  {
    hide Holds, Held;
    forall i | 0 <= i < |g.clients| && g.clients[i].rowsOpen
      ensures g.locked && forall j :: 0 <= j < |g.clients| && j != i ==> !Holds(g.clients[j].place)
    {
      ClientCounts(g.clients[i]);
      HolderIs(g, i);
    }
  }

  lemma ClientCounts(c: Client)
    requires ClientOk(c)
    ensures c.released <= c.acquired <= 1 && (c.rowsOpen ==> Holds(c.place))
    ensures Through(c.place) ==> c.acquired == 1 == c.released && !c.rowsOpen
  {
  }

  /** Unless everybody is through, somebody who is not can move; and only an open stream can keep the gate shut. */
  lemma SomebodyMoves(g: Gate)
    requires Inv(g)
    requires exists i :: 0 <= i < |g.clients| && !Through(g.clients[i].place)
    ensures exists step :: Move(g, step).Some? && !Through(g.clients[step.who].place) &&
                           (g.clients[step.who].place.StreamOpen? ==> g.locked && g.clients[step.who].rowsOpen)
  {
    hide ClientOk;
    var i :| 0 <= i < |g.clients| && !Through(g.clients[i].place);
    var who := i;
    if g.clients[i].place.Waiting? && g.locked {
      who :| 0 <= who < |g.clients| && Holds(g.clients[who].place);
    }
    OpenHasRows(g.clients[who]);
    assert Holds(g.clients[who].place) ==> Held(g);
    var place := g.clients[who].place;
    assert Move(g, Step(who, Fine, if place.StreamClosing? then place.closer else 0)).Some?;
  }

  lemma OpenHasRows(c: Client)
    requires ClientOk(c)
    ensures c.place.StreamOpen? ==> c.rowsOpen
  {
  }

  // ----- The objects -----

  /** The gate of a driver as its statements see it. */
  class Driver {
    var locked: bool
    var sessConn: Option<nat>
    var connections: nat

    constructor ()
      ensures !locked && sessConn == None && connections == 0
    {
      locked, sessConn, connections := false, None, 0;
    }

    method Acquire()
      requires !locked
      modifies this`locked
      ensures locked
    {
      locked := true;
    }

    method Free()
      requires locked
      modifies this`locked
      ensures !locked
    {
      locked := false;
    }

    /** The pinned connection, opened when there is none. */
    method GetSessionConnLocked(opens: bool) returns (conn: Option<nat>)
      requires locked
      modifies this`sessConn, this`connections
      ensures conn == sessConn
      ensures old(sessConn).Some? ==> conn == old(sessConn) && connections == old(connections)
      ensures old(sessConn).None? ==> conn == if opens then Some(old(connections)) else None
      ensures old(sessConn).None? ==> connections == old(connections) + if opens then 1 else 0
    {
      if sessConn.None? && opens {
        sessConn := Some(connections);
        connections := connections + 1;
      }
      return sessConn;
    }

    method ResetSessionConnLocked()
      requires locked
      modifies this`sessConn
      ensures sessConn == None
    {
      sessConn := None;
    }

    /**
      Runs one statement. The gate stays locked exactly when a stream with open
      rows is returned, and such a stream gives it back when it is closed.
     */
    method QueryWithBinds(job: Job, opens: bool, outcome: Outcome) returns (stream: Option<ResultStream>)
      requires !locked && !job.CloseDriver?
      modifies this
      ensures locked <==> stream.Some? && job.Query?
      ensures stream.Some? <==> outcome.Fine? && (old(sessConn).Some? || opens)
      ensures stream.Some? ==> fresh(stream.value) && stream.value.Valid() && !stream.value.closed
      ensures stream.Some? ==> stream.value.driver == this && stream.value.ran == []
      ensures stream.Some? && job.Query? ==> stream.value.closes == STREAM_CALLBACKS
      ensures stream.Some? && job.Exec? ==> stream.value.closes == [CancelContext]
      ensures stream.Some? && job.PlSql? ==> stream.value.closes == []
      ensures sessConn ==
              if outcome.SessionFails? || (old(sessConn).None? && !opens) then None
              else if old(sessConn).Some? then old(sessConn)
              else Some(old(connections))
      ensures connections == old(connections) + if old(sessConn).None? && opens then 1 else 0
    {
      Acquire();
      var conn := GetSessionConnLocked(opens);
      if conn.None? {
        Free();
        return None;
      }
      if !outcome.Fine? {
        if outcome.SessionFails? {
          ResetSessionConnLocked();
        }
        Free();
        return None;
      }
      if !job.Query? {
        Free();
        var result := new ResultStream(this, []);
        if job.Exec? {
          result.AddCallback(CancelContext);
        }
        return Some(result);
      }
      var result := new ResultStream(this, [CloseRows]);
      result.AddCallback(Unlock);
      result.AddCallback(CancelContext);
      return Some(result);
    }

    method Close()
      requires !locked
      modifies this
      ensures !locked && sessConn == None
    {
      Acquire();
      ResetSessionConnLocked();
      Free();
    }
  }

  class ResultStream {
    const driver: Driver
    var closes: seq<Callback>
    var closed: bool
    var hasNext: bool
    var ran: seq<Callback>

    /** The gate is still due to be unlocked by this stream. */
    predicate Owes()
      reads this
    {
      !closed && Unlock in closes
    }

    ghost predicate Valid()
      reads this
    {
      && (forall i, j :: 0 <= i < j < |closes| && closes[i].Unlock? ==> !closes[j].Unlock?)
      && ran == (if closed then closes else []) && (closed ==> !hasNext)
    }

    constructor (driver: Driver, closes: seq<Callback>)
      requires Unlock !in closes
      ensures Valid() && this.driver == driver && this.closes == closes && !closed && hasNext && ran == []
    {
      this.driver, this.closes, closed, hasNext, ran := driver, closes, false, true, [];
    }

    method AddCallback(callback: Callback)
      requires Valid() && !closed && (callback.Unlock? ==> Unlock !in closes)
      modifies this`closes
      ensures Valid() && closes == old(closes) + [callback]
    {
      closes := closes + [callback];
    }

    /** Runs the callbacks in order, the first time only. */
    method Close()
      requires Valid() && (Owes() ==> driver.locked)
      modifies this, driver`locked
      ensures Valid() && closed && !hasNext && closes == old(closes) && ran == closes
      ensures driver.locked == (old(driver.locked) && !old(Owes()))
    {
      if !closed {
        for k := 0 to |closes|
          invariant !closed && closes == old(closes) && ran == closes[..k]
          invariant Valid() || k > 0
          invariant driver.locked == (old(driver.locked) && Unlock !in closes[..k])
        {
          assert closes[..k + 1] == closes[..k] + [closes[k]];
          if closes[k].Unlock? {
            driver.Free();
          }
          ran := ran + [closes[k]];
        }
        assert closes[..|closes|] == closes;
        closed := true;
      }
      hasNext := false;
    }

    /** The next row; a failure or the end closes the stream. */
    method Next(row: Option<nat>) returns (r: Option<nat>)
      requires Valid() && (Owes() ==> driver.locked)
      modifies this, driver`locked
      ensures Valid() && r == row && closes == old(closes)
      ensures row.None? ==> closed && driver.locked == (old(driver.locked) && !old(Owes()))
      ensures row.Some? ==> closed == old(closed) && driver.locked == old(driver.locked)
    {
      if row.None? {
        Close();
      }
      return row;
    }
  }
}
