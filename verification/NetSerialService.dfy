/** The older service loop (package net.ant.rc.serial): a thread that keeps
    polling the queue until `stop` is called. Only dispatched commands become
    the last command, so the dispatched commands form a chain with
    non-decreasing timestamps and no two neighbours equal by payload. */
module NetSerialService {
  import opened Base
  import opened Commands
  import opened ServiceCommon

  /** MAX_QUEUE_SIZE: a longer queue makes the loop drop the polled command. */
  const MaxQueueSize: int := 20

  /** `hasDriver` records whether any reconnect ever succeeded (the driver
      reference is null until then). */
  datatype Service = Service(
    stopped: bool,
    errorDetected: bool,
    hasDriver: bool,
    stopRef: Command,
    lastCommand: Command)

  /** The constructor: both STOP reference and last command are TractorCommand.STOP(0),
      and one reconnect is attempted, whose success is `connected`. */
  function Construct(connected: bool): (s: Service)
    ensures !s.stopped
    ensures s.errorDetected <==> !connected
    ensures s.lastCommand == TractorStop(0) && s.stopRef == TractorStop(0)
  {
    Reconnect(Service(false, false, false, TractorStop(0), TractorStop(0)), connected)
  }

  /** `reConnect`: runs hardware detection; success clears the error flag and
      installs a driver, failure keeps (or sets) it. */
  function Reconnect(s: Service, ok: bool): (r: Service)
    ensures r.errorDetected <==> !ok
    ensures r.hasDriver <==> s.hasDriver || ok
    ensures r.lastCommand == s.lastCommand && r.stopRef == s.stopRef && r.stopped == s.stopped
  {
    if ok then s.(errorDetected := false, hasDriver := true) else s.(errorDetected := true)
  }

  /** `stop`: sets the stop flag, then disconnects the driver. The second
      component is false when there is no driver yet, where Java throws a
      null-reference exception after the flag is set. */
  function Stop(s: Service): (r: (Service, bool))
    ensures r.0.stopped
    ensures r.1 <==> s.hasDriver
    ensures r.0.lastCommand == s.lastCommand && r.0.errorDetected == s.errorDetected
  {
    (s.(stopped := true), s.hasDriver)
  }

  /** The body of one loop iteration, run once the error flag is clear. */
  function Iterate(s: Service, it: Iteration): (r: (Service, Action))
    requires !s.errorDetected
    ensures r.0.stopped == s.stopped && r.0.hasDriver == s.hasDriver
    // only a dispatched command changes the last command
    ensures !r.1.Dispatch? ==> r.0.lastCommand == s.lastCommand
    ensures r.1.Dispatch? ==>
              r.0.lastCommand == r.1.command && Follows(s.lastCommand, r.1.command) &&
              it.queueSize <= MaxQueueSize && r.1.call == Route(r.1.command)
    // the command an iteration works on: the polled one, or a STOP on timeout
    ensures (r.1.Dispatch? || r.1.Bypass? || r.1.SendFailed?) ==>
              it.before == NoFault &&
              r.1.command == (if it.polled.Some? then it.polled.value else TimeoutStop(s.lastCommand))
    ensures r.1.Tick? <==> it.before == NoFault && it.polled.None? && Equals(s.lastCommand, s.stopRef)
    ensures r.1.Tick? ==> r.0 == s
    // caught faults set the error flag, and nothing else does
    ensures r.0.errorDetected <==> r.1.Disconnect? || r.1.SendFailed?
    ensures r.1.Disconnect? <==> it.before.Recoverable()
    ensures !r.1.PauseListener?
  {
    if it.before != NoFault then
      if it.before.Recoverable() then (s.(errorDetected := true), Disconnect) else (s, Crash)
    else if it.polled.None? && Equals(s.lastCommand, s.stopRef) then
      (s, Tick)
    else
      var c := if it.polled.Some? then it.polled.value else TimeoutStop(s.lastCommand);
      var s1 := s.(stopRef := StopFor(c));
      if Bypassed(c, s.lastCommand, it.queueSize, MaxQueueSize) then (s1, Bypass(c))
      else if it.send == NoFault then (s1.(lastCommand := c), Dispatch(c, Route(c)))
      else if it.send.Recoverable() then (s1.(errorDetected := true), SendFailed(c, Route(c)))
      else (s1, Crash)
  }

  /** What can happen to the service: a loop iteration, a reconnect attempt
      of the inner `while (errorDetected)` loop, or a call of `stop`. */
  datatype Event = Step(it: Iteration) | ReconnectAttempt(ok: bool) | StopRequest

  /** Runs a schedule of events; events that cannot happen in the current state
      are skipped, and an uncaught exception ends the loop. The second component
      lists the dispatched commands in order. */
  function Run(s: Service, events: seq<Event>): (r: (Service, seq<Command>))
    decreases |events|
  {
    if |events| == 0 then (s, [])
    else
      var rest := events[1..];
      match events[0]
      case StopRequest => Run(Stop(s).0, rest)
      case ReconnectAttempt(ok) =>
        if s.errorDetected then Run(Reconnect(s, ok), rest) else Run(s, rest)
      case Step(it) =>
        if s.stopped || s.errorDetected then Run(s, rest)
        else
          var (s1, a) := Iterate(s, it);
          if a.Crash? then (s1, [])
          else
            var (s2, log) := Run(s1, rest);
            (s2, if a.Dispatch? then [a.command] + log else log)
  }

  /** Whatever the schedule, each dispatched command is no older than, and not
      equal by payload to, the one dispatched before it (or the initial last
      command). */
  lemma {:induction false} DispatchedCommandsChain(s: Service, events: seq<Event>)
    ensures Chain(s.lastCommand, Run(s, events).1)
    decreases |events|
  {
    if |events| > 0 {
      var rest := events[1..];
      match events[0]
      case StopRequest =>
        DispatchedCommandsChain(Stop(s).0, rest);
      case ReconnectAttempt(ok) =>
        if s.errorDetected {
          DispatchedCommandsChain(Reconnect(s, ok), rest);
        } else {
          DispatchedCommandsChain(s, rest);
        }
      case Step(it) =>
        if s.stopped || s.errorDetected {
          DispatchedCommandsChain(s, rest);
        } else {
          var (s1, a) := Iterate(s, it);
          if !a.Crash? {
            DispatchedCommandsChain(s1, rest);
          }
        }
    }
  }

  /** From a fresh service the first dispatch is never a tractor STOP and never
      carries a negative timestamp. */
  lemma FirstCommandFiltered(it: Iteration)
    requires it.polled.Some?
    requires Equals(it.polled.value, TractorStop(0)) || it.polled.value.timeMillis < 0
    ensures !Iterate(Construct(true), it).1.Dispatch?
  {
  }

  /** On timeout after a non-STOP command the loop sends a tractor STOP stamped
      with that command's time, provided the queue is not backlogged. */
  lemma TimeoutSendsStop(s: Service, it: Iteration)
    requires !s.errorDetected
    requires it.before == NoFault && it.polled.None? && it.send == NoFault
    requires !Equals(s.lastCommand, s.stopRef) && !Equals(s.lastCommand, TractorStop(0))
    requires it.queueSize <= MaxQueueSize
    ensures Iterate(s, it).1 == Dispatch(TractorStop(s.lastCommand.timeMillis), SendTractor(0, 0))
  {
  }
}
