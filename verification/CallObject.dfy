/** The fields of a live call that its goroutines update, and the code that updates them. */
module CallObject {
  import opened CallMachine
  import opened CallProtocol

  class LiveCall {
    var state: CallState
    var eventsCh: seq<CallState>
    var doneFlag: bool
    var doneClosed: bool
    var log: seq<CallState>
    ghost var received: seq<CallState>

    /** The callbacks are what the received events lead to. */
    ghost predicate Valid()
      reads this
    {
      log == Deliver(received) && state == LastState(log)
    }

    constructor ()
      ensures Valid() && eventsCh == [] && !doneFlag && !doneClosed && received == []
    {
      state, eventsCh, doneFlag, doneClosed, log, received := Unknown, [], false, false, [], [];
    }

    /**
      Queues an event unless the call is done. `meanwhile` says that the call is
      marked done between the check and the send, `done` which case the select
      picks when both are ready. It never blocks while the queue has room.
     */
    method EmitEvent(event: CallState, meanwhile: bool, done: bool) returns (sent: bool)
      requires Valid() && (|eventsCh| < QUEUE_SIZE || doneClosed || meanwhile || event.Retrieving?)
      modifies this`eventsCh, this`doneFlag, this`doneClosed
      ensures Valid()
      ensures doneFlag == (old(doneFlag) || meanwhile)
      ensures sent ==> !old(doneFlag) && |old(eventsCh)| < QUEUE_SIZE
      ensures !old(doneFlag) && |old(eventsCh)| < QUEUE_SIZE && (event.Retrieving? || (!old(doneClosed) && !meanwhile))
              ==> sent
      ensures !old(doneFlag) && |old(eventsCh)| < QUEUE_SIZE && !event.Retrieving? && (old(doneClosed) || meanwhile) ==>
                (sent <==> !done)
      ensures eventsCh == if sent then old(eventsCh) + [event] else old(eventsCh)
    {
      if doneFlag {
        return false;
      }
      if meanwhile {
        MarkDone();
      }
      if |eventsCh| >= QUEUE_SIZE || (!event.Retrieving? && doneClosed && done) {
        return false;
      }
      eventsCh := eventsCh + [event];
      return true;
    }

    /** Handles one event: ignored behind a terminal state, stored and reported otherwise. */
    method ProcessState(event: CallState)
      requires Valid()
      modifies this`state, this`log, this`received
      ensures Valid() && received == old(received) + [event]
      ensures log == DeliverOne(old(log), event)
    {
      SentGrows(received, event);
      received := received + [event];
      if state.ExecutingFailed? || state.RetrievingFailed? || state.Archived? || state.Canceled? ||
         state.ArchiveFailed? {
        return;
      }
      state := event;
      log := log + [event];
    }

    /** Empties the queue once the call is done. */
    method DrainEvents()
      requires Valid()
      modifies this`state, this`log, this`received, this`eventsCh
      ensures Valid() && eventsCh == [] && received == old(received) + old(eventsCh)
      ensures Sendable(received) ==> ValidLog(log)
      ensures Sendable(received) && OwnComplete(OwnEvents(received)) ==> Terminal(state)
    {
      hide Deliver, OwnEvents, Cancels, ValidLog, Sendable, OwnComplete;
      while eventsCh != []
        invariant Valid() && received + eventsCh == old(received) + old(eventsCh)
        decreases |eventsCh|
      {
        var event := eventsCh[0];
        assert eventsCh == [event] + eventsCh[1..];
        eventsCh := eventsCh[1..];
        ProcessState(event);
      }
      if Sendable(received) {
        DeliveredIsValid(received);
      }
    }

    method MarkDone()
      modifies this`doneFlag, this`doneClosed
      ensures doneFlag && doneClosed
    {
      doneFlag := true;
      doneClosed := true;
    }
  }
}
