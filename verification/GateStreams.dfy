/** Which statements leave a stream behind, and with it keep the session gate. */
module GateStreams {
  import opened SessionGate

  predicate IsStream(p: Place) {
    p.StreamOpen? || p.StreamClosing? || p.StreamClosed?
  }

  predicate IsAhead(p: Place) {
    p.Waiting? || p.Connecting? || p.Executing?
  }

  /** The statement of client i is executed and does not fail. */
  predicate Executes(g: Gate, step: Step, i: nat) {
    step.who == i && i < |g.clients| && g.clients[i].place.Executing? && step.outcome.Fine?
  }

  predicate Executed(g: Gate, run: seq<Step>, i: nat)
    decreases |run|
  {
    run != [] && (Executes(g, run[0], i) || (Move(g, run[0]).Some? && Executed(Move(g, run[0]).value, run[1..], i)))
  }

  /** Where a step leaves a client: ahead, with a stream, or on its way out. */
  lemma PlaceStep(g: Gate, step: Step, i: nat)
    requires Move(g, step).Some? && i < |g.clients|
    ensures var h := Move(g, step).value;
            && |h.clients| == |g.clients| && h.clients[i].job == g.clients[i].job
            && var p, q := g.clients[i].place, h.clients[i].place;
               && (IsStream(p) ==> IsStream(q))
               && (!IsStream(p) && !IsAhead(p) ==> !IsStream(q) && !IsAhead(q))
               && (IsAhead(p) && Executes(g, step, i) ==>
                     !IsAhead(q) && (IsStream(q) <==> g.clients[i].job.Query?))
               && (IsAhead(p) && !Executes(g, step, i) ==> !IsStream(q))
  {
    hide Move, IsStream, IsAhead;
    OneClient(g, step);
    StreamsAreNotAhead(g.clients[i].place);
    if step.who == i {
      OwnStep(g, step);
    }
  }

  lemma OwnStep(g: Gate, step: Step)
    requires Move(g, step).Some?
    ensures step.who < |g.clients| == |Move(g, step).value.clients|
    ensures var i := step.who; var c, d := g.clients[i], Move(g, step).value.clients[i];
            && d.job == c.job && (IsStream(c.place) ==> IsStream(d.place))
            && (!IsStream(c.place) && !IsAhead(c.place) ==> !IsStream(d.place) && !IsAhead(d.place))
            && (c.place.Executing? ==>
                  !IsAhead(d.place) && (IsStream(d.place) <==> c.job.Query? && step.outcome.Fine?))
            && (IsAhead(c.place) && !c.place.Executing? ==> !IsStream(d.place))
  {
  }

  lemma NotAhead(g: Gate, step: Step, i: nat)
    requires i < |g.clients| && !IsAhead(g.clients[i].place)
    ensures !Executes(g, step, i)
  {
  }

  /** Once it is no longer ahead, a client keeps its kind and executes nothing. */
  lemma {:induction false} KindStays(g: Gate, run: seq<Step>, i: nat)
    requires Play(g, run).Some? && i < |g.clients| && !IsAhead(g.clients[i].place)
    ensures var h := Play(g, run).value;
            && |h.clients| == |g.clients| && !IsAhead(h.clients[i].place)
            && (IsStream(h.clients[i].place) <==> IsStream(g.clients[i].place)) && !Executed(g, run, i)
    decreases |run|
  {
    hide Move, IsStream, IsAhead, Executes;
    StreamsAreNotAhead(g.clients[i].place);
    if run != [] {
      NotAhead(g, run[0], i);
      PlaceStep(g, run[0], i);
      StreamsAreNotAhead(Move(g, run[0]).value.clients[i].place);
      KindStays(Move(g, run[0]).value, run[1..], i);
    }
  }

  lemma StreamsAreNotAhead(p: Place)
    ensures IsStream(p) ==> !IsAhead(p)
  {
  }

  lemma {:induction false} StreamsFollow(g: Gate, run: seq<Step>, i: nat)
    requires Play(g, run).Some? && i < |g.clients| && IsAhead(g.clients[i].place)
    ensures var h := Play(g, run).value;
            |h.clients| == |g.clients| &&
            (IsStream(h.clients[i].place) <==> g.clients[i].job.Query? && Executed(g, run, i))
    decreases |run|
  {
    hide Move, IsStream, IsAhead, Executes;
    StreamsAreNotAhead(g.clients[i].place);
    if run != [] {
      PlaceStep(g, run[0], i);
      var h := Move(g, run[0]).value;
      if IsAhead(h.clients[i].place) {
        StreamsFollow(h, run[1..], i);
      } else {
        KindStays(h, run[1..], i);
      }
    }
  }

  /**
    In every run a statement has a stream exactly when it is a query that was
    executed without failing; so nothing but such a query keeps the gate beyond
    its own return.
   */
  lemma StreamsAreQueries(jobs: seq<Job>, run: seq<Step>, i: nat)
    requires Play(NewGate(jobs), run).Some? && i < |jobs|
    ensures var g := Play(NewGate(jobs), run).value;
            && |g.clients| == |jobs|
            && (IsStream(g.clients[i].place) <==> jobs[i].Query? && Executed(NewGate(jobs), run, i))
  {
    hide Play, Executed;
    StreamsFollow(NewGate(jobs), run, i);
  }
}
