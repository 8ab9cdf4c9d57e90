/** Every run of the session gate ends, once streams are closed, with everybody through. */
module GateProgress {
  import opened SessionGate
  import opened Sums

  function PlaceRank(p: Place): nat {
    match p
    case Waiting => 8
    case Connecting => 7
    case Executing => 6
    case StreamOpen => 5
    case StreamClosing(callbacks, _) => 1 + |callbacks|
    case Unlocking => 1
    case Returned => 0
    case StreamClosed => 0
  }

  function Ranks(clients: seq<Client>): seq<nat> {
    seq(|clients|, i requires 0 <= i < |clients| => PlaceRank(clients[i].place))
  }

  function Rank(g: Gate): nat {
    Sum(Ranks(g.clients))
  }

  /** Every step is one of a client that is not through; closing a closed stream again is not among them. */
  predicate Busy(g: Gate, run: seq<Step>)
    decreases |run|
  {
    run == [] ||
    (run[0].who < |g.clients| && !Through(g.clients[run[0].who].place) &&
     (Move(g, run[0]).Some? ==> Busy(Move(g, run[0]).value, run[1..])))
  }

  lemma PlaceDescends(g: Gate, step: Step)
    requires Move(g, step).Some? && !Through(g.clients[step.who].place)
    ensures step.who < |Move(g, step).value.clients|
    ensures PlaceRank(Move(g, step).value.clients[step.who].place) < PlaceRank(g.clients[step.who].place)
  {
  }

  lemma StepDescends(g: Gate, step: Step)
    requires Move(g, step).Some? && !Through(g.clients[step.who].place)
    ensures Rank(Move(g, step).value) < Rank(g)
  {
    hide Move, PlaceRank, Through, Sum;
    OneClient(g, step);
    PlaceDescends(g, step);
    var h := Move(g, step).value;
    var i := step.who;
    assert Ranks(h.clients) == Ranks(g.clients)[i := PlaceRank(h.clients[i].place)];
    SumUpdate(Ranks(g.clients), i, PlaceRank(h.clients[i].place));
  }

  lemma {:induction false} RunsEnd(g: Gate, run: seq<Step>)
    requires Play(g, run).Some? && Busy(g, run)
    ensures |run| + Rank(Play(g, run).value) <= Rank(g)
    decreases |run|
  {
    hide Move, Rank, Through;
    if run != [] {
      StepDescends(g, run[0]);
      RunsEnd(Move(g, run[0]).value, run[1..]);
    }
  }

  lemma FirstRank(jobs: seq<Job>)
    ensures Rank(NewGate(jobs)) == 8 * |jobs|
  {
    SumOfSame(|jobs|, 8);
    assert Ranks(NewGate(jobs).clients) == seq(|jobs|, _ => 8);
  }

  /** Nobody who is not through can take a step. */
  ghost predicate Stopped(g: Gate) {
    forall step :: Move(g, step).Some? ==> Through(g.clients[step.who].place)
  }

  lemma StoppedIsThrough(g: Gate)
    requires Inv(g) && Stopped(g)
    ensures forall i :: 0 <= i < |g.clients| ==> Through(g.clients[i].place)
    ensures !g.locked
  {
    hide Move, ClientOk;
    if exists i :: 0 <= i < |g.clients| && !Through(g.clients[i].place) {
      SomebodyMoves(g);
    }
    forall i | 0 <= i < |g.clients| ensures !Holds(g.clients[i].place) {
      ThroughHoldsNot(g.clients[i].place);
    }
  }

  lemma ThroughHoldsNot(p: Place)
    ensures Through(p) ==> !Holds(p)
  {
  }

  /**
    A run in which only clients that are not through take steps, the closing of
    open streams included, has at most eight steps for each client. When no such
    step is left, everybody is through, has locked and unlocked once, and the
    gate is free.
   */
  lemma EveryGateRunEnds(jobs: seq<Job>, run: seq<Step>)
    requires Play(NewGate(jobs), run).Some? && Busy(NewGate(jobs), run)
    ensures |run| <= 8 * |jobs|
    ensures var g := Play(NewGate(jobs), run).value;
            Stopped(g) ==>
              && !g.locked
              && forall i :: 0 <= i < |g.clients| ==>
                   Through(g.clients[i].place) && g.clients[i].acquired == 1 == g.clients[i].released
  {
    hide Move, Play, Busy, Rank, Stopped, Inv, Through, OneHolder, OpenRowsExclude, Held;
    NewGateOk(jobs);
    PlayKeeps(NewGate(jobs), run);
    RunsEnd(NewGate(jobs), run);
    FirstRank(jobs);
    GateIsExact(jobs, run);
    var g := Play(NewGate(jobs), run).value;
    if Stopped(g) {
      StoppedIsThrough(g);
    }
  }
}
