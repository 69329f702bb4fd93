/** What both revisions of the service loop share: the three bypass filters,
    the STOP reference, routing a command to the driver, the faults an
    iteration can meet, and what one iteration observes. */
module ServiceCommon {
  import opened Base
  import opened JavaInt
  import opened Commands

  /** Where an iteration failed: nowhere, a transport error (CommPortException),
      an interrupted poll (InterruptedException), or any other exception. */
  datatype Fault = NoFault | CommPortFault | InterruptedFault | OtherFault
  {
    /** The faults the loop catches and answers by reconnecting. */
    predicate Recoverable()
    {
      CommPortFault? || InterruptedFault?
    }
  }

  /** A call into the driver: sendVectorCommand(x, y) or sendTractorCommand(left, right). */
  datatype DriverCall = SendVector(x: Int32, y: Int32) | SendTractor(left: Int32, right: Int32)

  /** What one loop iteration observes from its environment.
      `now`: the clock at the top of the iteration; `before`: a fault from the
      telemetry refresh or the poll itself; `polled`: the poll's result (None on
      timeout); `queueSize`: the queue size sampled after the poll; `send`: the
      outcome of the driver call, if one is made. */
  datatype Iteration = Iteration(now: int, before: Fault, polled: Option<Command>, queueSize: int, send: Fault)

  /** What one iteration did. */
  datatype Action =
    | Tick                                      // timeout while idle at STOP: nothing sent
    | PauseListener                             // idle long enough: listener paused, loop left
    | Bypass(command: Command)                  // dropped by a filter
    | Dispatch(command: Command, call: DriverCall) // sent and acknowledged
    | SendFailed(command: Command, call: DriverCall) // driver call failed with a caught fault
    | Disconnect                                // caught fault before any command was chosen
    | Crash                                     // an uncaught exception ended the loop

  /** The driver entry point a command goes to. */
  function Route(c: Command): (call: DriverCall)
    ensures call.SendVector? <==> c.Vector?
    ensures c.Vector? ==> call.x == c.x && call.y == c.y
    ensures c.Tractor? ==> call.left == c.left && call.right == c.right
  {
    match c
    case Vector(x, y, _) => SendVector(x, y)
    case Tractor(l, r, _) => SendTractor(l, r)
  }

  /** The STOP reference after a command has been taken: the STOP of the same kind. */
  function StopFor(c: Command): (stop: Command)
    ensures stop.Vector? == c.Vector?
    ensures Equals(stop, c) <==> Equals(c, TractorStop(0)) || Equals(c, VectorStop(0))
  {
    if c.Vector? then VectorStop(0) else TractorStop(0)
  }

  /** The STOP synthesised on a poll timeout: a tractor STOP carrying the last
      command's timestamp, so the staleness filter lets it through. */
  function TimeoutStop(last: Command): (c: Command)
    ensures c.Tractor? && Equals(c, TractorStop(0))
    ensures c.timeMillis == last.timeMillis
  {
    TractorStop(last.timeMillis)
  }

  /** CheckBypass1: older than the last command. */
  predicate Stale(c: Command, last: Command)
  {
    c.timeMillis < last.timeMillis
  }

  /** CheckBypass2: the same payload as the last command. */
  predicate Duplicate(c: Command, last: Command)
  {
    Equals(c, last)
  }

  /** CheckBypass3: the queue is longer than allowed. */
  predicate Backlogged(queueSize: int, maxQueueSize: int)
  {
    queueSize > maxQueueSize
  }

  /** Any of the three filters fires. */
  predicate Bypassed(c: Command, last: Command, queueSize: int, maxQueueSize: int)
  {
    Stale(c, last) || Duplicate(c, last) || Backlogged(queueSize, maxQueueSize)
  }

  /** `next` may follow `prev` as the next dispatched command: not older and not
      equal by payload. */
  predicate Follows(prev: Command, next: Command)
  {
    next.timeMillis >= prev.timeMillis && !Equals(next, prev)
  }

  /** Every command of `log` follows the one before it, the first one following `prev`. */
  predicate Chain(prev: Command, log: seq<Command>)
    decreases |log|
  {
    |log| == 0 || (Follows(prev, log[0]) && Chain(log[0], log[1..]))
  }

  /** A command that survives the filters follows the last command. */
  lemma AdmittedFollows(c: Command, last: Command, queueSize: int, maxQueueSize: int)
    ensures !Bypassed(c, last, queueSize, maxQueueSize) <==>
            Follows(last, c) && queueSize <= maxQueueSize
  {
  }

  /** A synthesised STOP passes the staleness filter, and passes the duplicate
      filter exactly when the last command was not a tractor STOP. */
  lemma TimeoutStopAdmission(last: Command)
    ensures !Stale(TimeoutStop(last), last)
    ensures Duplicate(TimeoutStop(last), last) <==> Equals(last, TractorStop(0))
  {
  }
}
