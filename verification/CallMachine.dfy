/**
  A call and the goroutines that share it: the executor, the event handler, any
  number of cancellers and any number of GetResult callers. A step is one atomic
  action of one of them; a run is any list of steps that are all possible.
 */
module CallMachine {
  import opened Text

  datatype CallState =
    | Unknown | Executing | ExecutingFailed | Retrieving | RetrievingFailed
    | Archived | ArchiveFailed | Canceled

  const QUEUE_SIZE := 10

  predicate Terminal(s: CallState) {
    s.ExecutingFailed? || s.RetrievingFailed? || s.Archived? || s.ArchiveFailed? || s.Canceled?
  }

  /** Emitting covers emitEvent: first the done flag is read, then the event is sent. */
  datatype Executor =
    | Emitting(event: CallState, checked: bool)
    | Running | Opening | Draining | Archiving
    | SettingDone | ClosingDone | Finished

  datatype Handler =
    | Listening | Processing(event: CallState, last: bool) | Notifying(event: CallState, last: bool)
    | Emptying | Exited

  datatype Canceller = Asked | NotDone | Willing | Entered | Sending | Left

  datatype Reader = Calling | Locked | SawEmpty | Loading | Refilling | Draws | Served | Refused

  datatype Once = Fresh | HeldBy(who: nat) | Used

  datatype Owner = Nobody | TheExecutor | TheReader(who: nat)

  /** Who is inside Cancel, and who runs the body of cancelOnce. */
  datatype Cancelling = Cancelling(once: Once, callers: seq<Canceller>)

  /** The result with its locks, and who is inside GetResult; `fills` is the history of SetIter. */
  datatype Store = Store(
    readers: seq<Reader>,
    getResultMu: Option<nat>,
    writeMutex: Owner,
    isFilled: bool,
    fills: seq<Owner>)

  /**
    The histories are `sent` (every event that entered the queue), `received`
    (every event the handler took out) and `log` (every callback).
   */
  datatype Call = Call(
    state: CallState,
    err: bool,
    queue: seq<CallState>,
    doneFlag: bool,
    doneClosed: bool,
    executor: Executor,
    handler: Handler,
    cancelling: Cancelling,
    store: Store,
    sent: seq<CallState>,
    received: seq<CallState>,
    log: seq<CallState>)

  /** ok chooses between the outcomes of an operation that may fail, or of a select with two ready cases. */
  datatype Step =
    | ExecutorStep(ok: bool) | HandlerStep(ok: bool) | CancelStep(i: nat, ok: bool) | ReaderStep(i: nat, ok: bool)

  function Enqueue(c: Call, e: CallState): Call {
    c.(queue := c.queue + [e], sent := c.sent + [e])
  }

  function AfterEmit(e: CallState): Executor {
    if e.Executing? then Running else if e.Retrieving? then Draining else SettingDone
  }

  function Fail(c: Call, e: CallState): Call {
    c.(err := true, executor := Emitting(e, false))
  }

  function ExecutorMove(c: Call, ok: bool): Option<Call> {
    match c.executor
    case Emitting(e, false) =>
      Some(c.(executor := if c.doneFlag then AfterEmit(e) else Emitting(e, true)))
    case Emitting(e, true) =>
      if |c.queue| < QUEUE_SIZE && ok then Some(Enqueue(c, e).(executor := AfterEmit(e)))
      else if (e.Retrieving? && |c.queue| >= QUEUE_SIZE) || (!e.Retrieving? && c.doneClosed)
      then Some(c.(executor := AfterEmit(e)))
      else None
    case Running =>
      Some(if ok then c.(executor := Opening) else Fail(c, ExecutingFailed))
    case Opening =>
      if !c.store.writeMutex.Nobody? then None
      else Some(c.(store := Fill(c.store, TheExecutor), executor := Emitting(Retrieving, false)))
    case Draining =>
      var c := c.(store := c.store.(writeMutex := Nobody));
      Some(if ok then c.(executor := Archiving) else Fail(c, RetrievingFailed))
    case Archiving =>
      Some(if ok then c.(executor := Emitting(Archived, false)) else Fail(c, ArchiveFailed))
    case SettingDone => Some(c.(doneFlag := true, executor := ClosingDone))
    case ClosingDone => Some(c.(doneClosed := true, executor := Finished))
    case Finished => None
  }

  function Receive(c: Call, last: bool): Call
    requires c.queue != []
  {
    c.(queue := c.queue[1..], received := c.received + [c.queue[0]], handler := Processing(c.queue[0], last))
  }

  function Waiting(last: bool): Handler {
    if last then Emptying else Listening
  }

  function HandlerMove(c: Call, ok: bool): Option<Call> {
    match c.handler
    case Listening =>
      if c.queue != [] && ok then Some(Receive(c, false))
      else if c.doneClosed && !ok then Some(c.(handler := Emptying))
      else None
    case Emptying =>
      Some(if c.queue != [] then Receive(c, true) else c.(handler := Exited))
    case Processing(e, last) =>
      Some(if Terminal(c.state) then c.(handler := Waiting(last))
           else c.(state := e, handler := Notifying(e, last)))
    case Notifying(e, last) => Some(c.(log := c.log + [e], handler := Waiting(last)))
    case Exited => None
  }

  /** One step of a canceller, and whether it sends Canceled. */
  function CancelMove(g: Cancelling, c: Call, i: nat, ok: bool): Option<(Cancelling, bool)> {
    if i >= |g.callers| then None
    else match g.callers[i] {
      case Asked => Some((At(g, i, if c.doneClosed then Left else NotDone), false))
      case NotDone => Some((At(g, i, if c.state.Executing? || c.state.Retrieving? then Willing else Left), false))
      case Willing =>
        (match g.once
         case Fresh => Some((At(g, i, Entered).(once := HeldBy(i)), false))
         case HeldBy(_) => None
         case Used => Some((At(g, i, Left), false)))
      case Entered => Some((if c.doneFlag then At(g, i, Left).(once := Used) else At(g, i, Sending), false))
      case Sending =>
        if |c.queue| < QUEUE_SIZE && ok then Some((At(g, i, Left).(once := Used), true))
        else if c.doneClosed && !ok then Some((At(g, i, Left).(once := Used), false))
        else None
      case Left => None
    }
  }

  function At(g: Cancelling, i: nat, p: Canceller): Cancelling
    requires i < |g.callers|
  {
    g.(callers := g.callers[i := p])
  }

  function Fill(s: Store, owner: Owner): Store {
    s.(writeMutex := owner, isFilled := true, fills := s.fills + [owner])
  }

  function ReaderAt(s: Store, i: nat, p: Reader): Store
    requires i < |s.readers|
  {
    s.(readers := s.readers[i := p])
  }

  /** GetResult, from taking its lock to giving it back. */
  function ReaderMove(s: Store, state: CallState, i: nat, ok: bool): Option<Store> {
    if i >= |s.readers| then None
    else match s.readers[i] {
      case Calling => if s.getResultMu.None? then Some(ReaderAt(s, i, Locked).(getResultMu := Some(i))) else None
      case Locked => Some(if s.isFilled then Leave(s, i, Served) else ReaderAt(s, i, SawEmpty))
      case SawEmpty => Some(if state.Archived? then ReaderAt(s, i, Loading) else Leave(s, i, Refused))
      case Loading => Some(if ok then ReaderAt(s, i, Refilling) else Leave(s, i, Refused))
      case Refilling =>
        if !s.writeMutex.Nobody? then None else Some(Fill(ReaderAt(s, i, Draws), TheReader(i)))
      case Draws => Some(Leave(s, i, if ok then Served else Refused).(writeMutex := Nobody))
      case Served => None
      case Refused => None
    }
  }

  function Leave(s: Store, i: nat, p: Reader): Store
    requires i < |s.readers|
  {
    ReaderAt(s, i, p).(getResultMu := None)
  }

  function Move(c: Call, step: Step): Option<Call> {
    match step
    case ExecutorStep(ok) => ExecutorMove(c, ok)
    case HandlerStep(ok) => HandlerMove(c, ok)
    case CancelStep(i, ok) =>
      (match CancelMove(c.cancelling, c, i, ok)
       case None => None
       case Some((g, sends)) => Some((if sends then Enqueue(c, Canceled) else c).(cancelling := g)))
    case ReaderStep(i, ok) =>
      (match ReaderMove(c.store, c.state, i, ok)
       case None => None
       case Some(s) => Some(c.(store := s)))
  }

  function Play(c: Call, run: seq<Step>): Option<Call>
    decreases |run|
  {
    if run == [] then Some(c)
    else
      var next := Move(c, run[0]);
      if next.Some? then Play(next.value, run[1..]) else None
  }

  function NobodyYet(cancellers: nat): Cancelling {
    Cancelling(Fresh, seq(cancellers, _ => Asked))
  }

  function EmptyStore(readers: nat): Store {
    Store(seq(readers, _ => Calling), None, Nobody, false, [])
  }

  /** A new call, with its cancellers and readers about to ask. */
  function NewCall(cancellers: nat, readers: nat): Call {
    Call(Unknown, false, [], false, false, Emitting(Executing, false), Listening,
         NobodyYet(cancellers), EmptyStore(readers), [], [], [])
  }

  /** A call read back from the history file. */
  function RestoredCall(saved: CallState, archiveExists: bool, err: bool, cancellers: nat, readers: nat): Call {
    var state := if saved.Archived? && !archiveExists then Unknown else saved;
    Call(state, err, [], true, true, Finished, Exited, NobodyYet(cancellers), EmptyStore(readers), [], [], [])
  }
}
