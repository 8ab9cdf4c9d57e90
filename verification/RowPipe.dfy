/**
  The channel pipe behind an iterator: a producer goroutine sends rows through a
  ten-slot channel, and a consumer asks HasNext before each Next. The same pipe
  serves NextYield and the reader of an archive.
 */
module RowPipe {
  import opened Text
  import opened ResultCache

  const RESULTS_SIZE := 10

  /** Yielding sends the next item or stops; then the four channels are closed in this order. */
  datatype Producer<T> =
    | Yielding(rest: seq<Item<T>>)
    | Signalling(rest: seq<Item<T>>)
    | ClosingDone | ClosingReady | ClosingResults | ClosingErrors | Gone

  /** HasRow: HasNext answered true and Next is still to be called. Over: it answered false. */
  datatype Consumer = Opening | Asking | HasRow | Over

  datatype Closed = Closed(done: bool, ready: bool, results: bool, errors: bool)

  /** The consumer with what its two functions share, what it was given, and whether Next ever failed. */
  datatype Sink<T> = Sink(at: Consumer, nextVal: Option<T>, nextErr: bool, consumed: seq<T>, errorSeen: bool)

  datatype Pipe<T> = Pipe(producer: Producer<T>, results: seq<T>, errorWaits: bool, closed: Closed, sink: Sink<T>)

  /** The consumer's select picks any case that is ready. */
  datatype Step = Produce | Open | FromResults | FromErrors | FromDone | Next

  function NewPipe<T>(items: seq<Item<T>>): Pipe<T> {
    Pipe(Yielding(items), [], false, Closed(false, false, false, false), Sink(Opening, None, false, [], false))
  }

  function ProducerMove<T>(p: Pipe<T>): Option<Pipe<T>> {
    match p.producer
    case Yielding(rest) =>
      if |rest| == 0 then Some(p.(producer := ClosingDone))
      else if rest[0].Bad? then Some(p.(errorWaits := true, producer := ClosingDone))
      else if |p.results| < RESULTS_SIZE then
        Some(p.(results := p.results + [rest[0].row], producer := Signalling(rest[1..])))
      else None
    case Signalling(rest) => Some(p.(closed := p.closed.(ready := true), producer := Yielding(rest)))
    case ClosingDone => Some(p.(closed := p.closed.(done := true), producer := ClosingReady))
    case ClosingReady => Some(p.(closed := p.closed.(ready := true), producer := ClosingResults))
    case ClosingResults => Some(p.(closed := p.closed.(results := true), producer := ClosingErrors))
    case ClosingErrors => Some(p.(closed := p.closed.(errors := true), producer := Gone))
    case Gone => None
  }

  function Move<T>(p: Pipe<T>, step: Step): Option<Pipe<T>> {
    var c := p.sink;
    match step
    case Produce => ProducerMove(p)
    case Open => if c.at.Opening? && p.closed.ready then Some(p.(sink := c.(at := Asking))) else None
    case FromResults =>
      if !c.at.Asking? then None
      else if |p.results| > 0 then
        Some(p.(results := p.results[1..], sink := c.(nextVal := Some(p.results[0]), at := HasRow)))
      else if p.closed.results then Some(p.(sink := c.(at := Over)))
      else None
    case FromErrors =>
      if !c.at.Asking? then None
      else if p.errorWaits then Some(p.(errorWaits := false, sink := c.(nextErr := true, at := Over)))
      else if p.closed.errors then Some(p)
      else None
    case FromDone =>
      if !c.at.Asking? || !p.closed.done then None
      else Some(if |p.results| < 1 then p.(sink := c.(at := Over)) else p)
    case Next =>
      if !c.at.HasRow? || c.nextVal.None? then None
      else
        Some(p.(sink :=
          c.(consumed := c.consumed + [c.nextVal.value], errorSeen := c.errorSeen || c.nextErr, at := Asking)))
  }

  function Play<T>(p: Pipe<T>, run: seq<Step>): Option<Pipe<T>>
    decreases |run|
  {
    if run == [] then Some(p)
    else
      var q := Move(p, run[0]);
      if q.Some? then Play(q.value, run[1..]) else None
  }

  function Unsent<T>(x: Producer<T>): seq<Item<T>> {
    match x
    case Yielding(rest) => rest
    case Signalling(rest) => rest
    case _ => []
  }

  function InHand<T>(p: Pipe<T>): seq<T> {
    if p.sink.at.HasRow? && p.sink.nextVal.Some? then [p.sink.nextVal.value] else []
  }

  predicate Producing<T>(x: Producer<T>) {
    x.Yielding? || x.Signalling?
  }

  /** Consumed, in hand, in the channel and unsent: together always the rows of the source. */
  ghost predicate Inv<T>(p: Pipe<T>, items: seq<Item<T>>) {
    && RowsKept(p, items)
    && (p.sink.at.HasRow? ==> p.sink.nextVal.Some?)
    && (p.closed.done <==> !Producing(p.producer) && !p.producer.ClosingDone?)
    && (p.closed.results <==> p.producer.ClosingErrors? || p.producer.Gone?)
    && (p.closed.errors <==> p.producer.Gone?)
    && (p.closed.results || p.producer.ClosingResults? ==> p.closed.ready)
    && (Producing(p.producer) ==> !p.errorWaits && !p.sink.nextErr)
    && (p.errorWaits || p.sink.nextErr ==> |GoodRows(items)| < |items|)
    && (|GoodRows(Unsent(p.producer))| < |Unsent(p.producer)| ==> |GoodRows(items)| < |items|)
    && (p.sink.nextErr ==> p.sink.at.Over?) && !p.sink.errorSeen
    && (p.sink.at.Over? && !p.sink.nextErr ==> p.results == [] && !Producing(p.producer))
    && (p.producer.Yielding? && p.results != [] ==> p.closed.ready)
  }

  lemma NextItem<T>(rest: seq<Item<T>>)
    ensures |rest| > 0 && rest[0].Good? ==> GoodRows(rest) == [rest[0].row] + GoodRows(rest[1..])
    ensures |rest| == 0 || rest[0].Bad? ==> GoodRows(rest) == []
  {
  }

  ghost predicate RowsKept<T>(p: Pipe<T>, items: seq<Item<T>>) {
    p.sink.consumed + InHand(p) + p.results + GoodRows(Unsent(p.producer)) == GoodRows(items)
  }

  lemma SendOne<T>(front: seq<T>, results: seq<T>, row: T, rest: seq<T>)
    ensures front + results + ([row] + rest) == front + (results + [row]) + rest
  {
  }

  lemma ReceiveOne<T>(front: seq<T>, results: seq<T>, rest: seq<T>)
    requires results != []
    ensures front + [] + results + rest == front + [results[0]] + results[1..] + rest
  {
    assert results == [results[0]] + results[1..];
  }

  lemma TakeOne<T>(front: seq<T>, row: T, results: seq<T>, rest: seq<T>)
    ensures front + [row] + results + rest == front + [row] + [] + results + rest
  {
    assert front + [row] + [] == front + [row];
  }

  /** The producer either sends the next row or leaves the rows alone. */
  lemma ProducerEffect<T>(p: Pipe<T>)
    requires ProducerMove(p).Some?
    ensures var q := ProducerMove(p).value; var rest, rest' := Unsent(p.producer), Unsent(q.producer);
            && q.sink == p.sink
            && (if |rest'| < |rest| && rest[0].Good? then q.results == p.results + [rest[0].row] && rest' == rest[1..]
                else q.results == p.results && GoodRows(rest') == GoodRows(rest))
  {
    hide GoodRows;
    NextItem(Unsent(p.producer));
    NextItem<T>([]);
  }

  lemma ProduceKeepsRows<T>(p: Pipe<T>, items: seq<Item<T>>)
    requires RowsKept(p, items) && ProducerMove(p).Some?
    ensures RowsKept(ProducerMove(p).value, items)
  {
    hide GoodRows, ProducerMove, Unsent;
    ProducerEffect(p);
    var rest := Unsent(p.producer);
    NextItem(rest);
    if |rest| > 0 && rest[0].Good? {
      SendOne(p.sink.consumed + InHand(p), p.results, rest[0].row, GoodRows(rest[1..]));
    }
  }

  lemma ConsumeKeepsRows<T>(p: Pipe<T>, step: Step, items: seq<Item<T>>)
    requires RowsKept(p, items) && Move(p, step).Some? && !step.Produce?
    requires p.sink.at.HasRow? ==> p.sink.nextVal.Some?
    ensures RowsKept(Move(p, step).value, items)
  {
    hide GoodRows, Unsent;
    var rest := GoodRows(Unsent(p.producer));
    if step.FromResults? && p.results != [] {
      ReceiveOne(p.sink.consumed, p.results, rest);
    } else if step.Next? {
      TakeOne(p.sink.consumed, p.sink.nextVal.value, p.results, rest);
    }
  }

  lemma MoveKeeps<T>(p: Pipe<T>, step: Step, items: seq<Item<T>>)
    requires Inv(p, items) && Move(p, step).Some?
    ensures Inv(Move(p, step).value, items)
  {
    hide GoodRows;
    NextItem(Unsent(p.producer));
    NextItem<T>([]);
    if step.Produce? {
      ProduceKeepsRows(p, items);
    } else {
      ConsumeKeepsRows(p, step, items);
    }
  }

  lemma {:induction false} PlayKeeps<T>(p: Pipe<T>, run: seq<Step>, items: seq<Item<T>>)
    requires Inv(p, items) && Play(p, run).Some?
    ensures Inv(Play(p, run).value, items)
    decreases |run|
  {
    hide Inv, Move;
    if run != [] {
      MoveKeeps(p, run[0], items);
      PlayKeeps(Move(p, run[0]).value, run[1..], items);
    }
  }

  lemma NewPipeOk<T>(items: seq<Item<T>>)
    ensures Inv(NewPipe(items), items)
  {
  }

  /**
    In every interleaving the consumer has been given a prefix of the rows in
    order. When it is told that there are no more, it has all of them, unless
    the source failed.
   */
  lemma ConsumerGetsPrefix<T>(items: seq<Item<T>>, run: seq<Step>)
    requires Play(NewPipe(items), run).Some?
    ensures var p := Play(NewPipe(items), run).value;
            && p.sink.consumed <= GoodRows(items)
            && (p.sink.at.Over? && !p.sink.nextErr ==> p.sink.consumed == GoodRows(items))
            && (p.sink.nextErr ==> |GoodRows(items)| < |items|)
  {
    hide GoodRows;
    NewPipeOk(items);
    PlayKeeps(NewPipe(items), run, items);
    NextItem<T>([]);
  }

  /** A source that does not fail is delivered whole. */
  lemma AllRowsArrive<T>(items: seq<Item<T>>, run: seq<Step>)
    requires |GoodRows(items)| == |items| && Play(NewPipe(items), run).Some?
    requires Play(NewPipe(items), run).value.sink.at.Over?
    ensures Play(NewPipe(items), run).value.sink.consumed == GoodRows(items)
  {
    ConsumerGetsPrefix(items, run);
  }

  /** A consumer that calls Next only after HasNext said yes is never told of an error. */
  lemma ErrorNeverSeen<T>(items: seq<Item<T>>, run: seq<Step>)
    requires Play(NewPipe(items), run).Some?
    ensures !Play(NewPipe(items), run).value.sink.errorSeen
  {
    hide GoodRows;
    NewPipeOk(items);
    PlayKeeps(NewPipe(items), run, items);
  }

  lemma PlayOne<T>(p: Pipe<T>, step: Step, rest: seq<Step>)
    ensures Play(p, [step] + rest) == (var q := Move(p, step); if q.Some? then Play(q.value, rest) else None)
  {
    hide Move;
    assert ([step] + rest)[1..] == rest;
  }

  /** One row waits in the channel, the consumer asks, and the source goes on to fail. */
  ghost predicate OneWaits<T>(p: Pipe<T>) {
    && p.producer.Yielding? && |p.results| == 1 && !p.errorWaits && p.sink.at.Asking?
    && |GoodRows(p.producer.rest)| < |p.producer.rest|
  }

  /** The consumer takes the waiting row and the producer sends the next one. */
  lemma PassOne<T>(p: Pipe<T>) returns (q: Pipe<T>)
    requires OneWaits(p) && p.producer.rest[0].Good?
    ensures OneWaits(q) && q.producer.rest == p.producer.rest[1..]
    ensures |q.sink.consumed| == |p.sink.consumed| + 1
    ensures forall run :: Play(p, [FromResults] + ([Next] + ([Produce] + ([Produce] + run)))) == Play(q, run)
  {
    hide Play, GoodRows;
    NextItem(p.producer.rest);
    var p1 := Move(p, FromResults).value;
    var p2 := Move(p1, Next).value;
    var p3 := Move(p2, Produce).value;
    q := Move(p3, Produce).value;
    forall run ensures Play(p, [FromResults] + ([Next] + ([Produce] + ([Produce] + run)))) == Play(q, run) {
      PlayOne(p, FromResults, [Next] + ([Produce] + ([Produce] + run)));
      PlayOne(p1, Next, [Produce] + ([Produce] + run));
      PlayOne(p2, Produce, [Produce] + run);
      PlayOne(p3, Produce, run);
    }
  }

  /** The select may prefer the error to the last row. */
  lemma FailNow<T>(p: Pipe<T>) returns (run: seq<Step>)
    requires OneWaits(p) && p.producer.rest[0].Bad?
    ensures Play(p, run).Some? && Play(p, run).value.sink.at.Over?
    ensures Play(p, run).value.sink.consumed == p.sink.consumed && GoodRows(p.producer.rest) == []
  {
    hide Play, GoodRows;
    NextItem(p.producer.rest);
    var p1 := Move(p, Produce).value;
    var p2 := Move(p1, FromErrors).value;
    run := [Produce] + ([FromErrors] + []);
    PlayOne(p, Produce, [FromErrors] + []);
    PlayOne(p1, FromErrors, []);
    PlayNothing(p2);
  }

  lemma {:induction false} DropLast<T>(p: Pipe<T>) returns (run: seq<Step>)
    requires OneWaits(p)
    ensures Play(p, run).Some? && Play(p, run).value.sink.at.Over?
    ensures |Play(p, run).value.sink.consumed| == |p.sink.consumed| + |GoodRows(p.producer.rest)|
    decreases |p.producer.rest|
  {
    hide Play, GoodRows, Move;
    if p.producer.rest[0].Bad? {
      run := FailNow(p);
    } else {
      NextItem(p.producer.rest);
      var q := PassOne(p);
      var rest := DropLast(q);
      run := [FromResults] + ([Next] + ([Produce] + ([Produce] + rest)));
    }
  }

  /** For every failing source with a good row there is a run that loses the last one. */
  lemma FailureDropsRows<T>(items: seq<Item<T>>) returns (run: seq<Step>)
    requires |GoodRows(items)| < |items| && GoodRows(items) != []
    ensures Play(NewPipe(items), run).Some? && Play(NewPipe(items), run).value.sink.at.Over?
    ensures |Play(NewPipe(items), run).value.sink.consumed| == |GoodRows(items)| - 1
  {
    hide Play, GoodRows;
    NextItem(items);
    var p := NewPipe(items);
    var p1 := Move(p, Produce).value;
    var p2 := Move(p1, Produce).value;
    var p3 := Move(p2, Open).value;
    var rest := DropLast(p3);
    run := [Produce] + ([Produce] + ([Open] + rest));
    PlayOne(p, Produce, [Produce] + ([Open] + rest));
    PlayOne(p1, Produce, [Open] + rest);
    PlayOne(p2, Open, rest);
  }

  lemma PlayNothing<T>(p: Pipe<T>)
    ensures Play(p, []) == Some(p)
  {
  }

  /** Every run delivers all good rows exactly when the source does not fail, or fails before its first row. */
  lemma DeliveredWholeExactly<T>(items: seq<Item<T>>)
    ensures (forall run :: Play(NewPipe(items), run).Some? && Play(NewPipe(items), run).value.sink.at.Over? ==>
               Play(NewPipe(items), run).value.sink.consumed == GoodRows(items)) <==>
            |GoodRows(items)| == |items| || GoodRows(items) == []
  {
    hide Play, GoodRows, NewPipe;
    if |GoodRows(items)| == |items| || GoodRows(items) == [] {
      forall run | Play(NewPipe(items), run).Some? && Play(NewPipe(items), run).value.sink.at.Over?
        ensures Play(NewPipe(items), run).value.sink.consumed == GoodRows(items)
      {
        ConsumerGetsPrefix(items, run);
      }
    } else {
      var run := FailureDropsRows(items);
    }
  }

  /** Takes the steps of a run; the result is what the consumer was given. */
  method Drain<T>(items: seq<Item<T>>, run: seq<Step>) returns (rows: seq<T>)
    requires Play(NewPipe(items), run).Some?
    ensures rows == Play(NewPipe(items), run).value.sink.consumed
    ensures rows <= GoodRows(items)
  {
    hide Move, GoodRows, NewPipe;
    var p := NewPipe(items);
    for k := 0 to |run|
      invariant Play(p, run[k..]) == Play(NewPipe(items), run)
    {
      assert run[k..][0] == run[k] && run[k..][1..] == run[k + 1..];
      p := Move(p, run[k]).value;
    }
    PlayNothing(p);
    assert run[|run|..] == [];
    ConsumerGetsPrefix(items, run);
    return p.sink.consumed;
  }

  /** At most ten rows wait in the channel. */
  lemma {:induction false} ChannelHoldsTen<T>(p: Pipe<T>, run: seq<Step>)
    requires Play(p, run).Some? && |p.results| <= RESULTS_SIZE
    ensures |Play(p, run).value.results| <= RESULTS_SIZE == 10
    decreases |run|
  {
    if run != [] {
      ChannelHoldsTen(Move(p, run[0]).value, run[1..]);
    }
  }

  // ----- The pipe never gets stuck -----

  function ProducerRank<T>(x: Producer<T>): nat {
    match x
    case Yielding(rest) => 4 * |rest| + 5
    case Signalling(rest) => 4 * |rest| + 6
    case ClosingDone => 4
    case ClosingReady => 3
    case ClosingResults => 2
    case ClosingErrors => 1
    case Gone => 0
  }

  /** Steps left, not counting those in which the consumer only looks again. */
  function Rank<T>(p: Pipe<T>): nat {
    4 * ProducerRank(p.producer) + 3 * |p.results|
    + match p.sink.at { case Opening => 2 case Asking => 1 case HasRow => 2 case Over => 0 }
  }

  /** Until the consumer is told that there are no more rows, some step makes progress. */
  lemma PipeAdvances<T>(p: Pipe<T>, items: seq<Item<T>>)
    requires Inv(p, items) && !p.sink.at.Over?
    ensures exists step :: Move(p, step).Some? && Rank(Move(p, step).value) < Rank(p)
  {
    hide GoodRows;
    if p.sink.at.HasRow? {
      assert Move(p, Next).Some?;
    } else if p.sink.at.Asking? && p.results != [] {
      assert Move(p, FromResults).Some?;
    } else if p.sink.at.Opening? && p.closed.ready {
      assert Move(p, Open).Some?;
    } else if p.producer.Gone? {
      assert Move(p, FromResults).Some?;
    } else {
      assert Move(p, Produce).Some?;
    }
  }
}
