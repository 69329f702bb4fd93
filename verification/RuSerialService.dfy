/** The newer service loop (package ru.ant.rc.serial): started on demand when
    data arrives, paused after an idle spell at STOP, stopped on request, and
    reconnecting after transport errors. Unlike the older loop it records every
    processed command, filtered or not, as the last command. */
module RuSerialService {
  import opened Base
  import opened Commands
  import opened ServiceCommon
  import CommandQueue

  /** The options read from configuration: SerialService.MaxQueueSize and
      SerialService.SleepTimeout. */
  datatype Config = Config(maxQueueSize: int, sleepTimeout: int)

  /** The service flags and the loop's memory of the last command.
      `lastCommandTime` is the loop-local clock reading of the last processed
      command (reset when the loop starts). */
  datatype Service = Service(
    stopped: bool,
    stopping: bool,
    disconnected: bool,
    listenerPaused: bool,
    stopRef: Command,
    lastCommand: Command,
    lastCommandTime: int)

  /** The singleton as constructed: stopped, not yet connected, last command
      and STOP reference both TractorCommand.STOP(0). */
  function Initial(): (s: Service)
    ensures s.stopped && !s.stopping && s.disconnected && !s.listenerPaused
    ensures s.lastCommand == TractorStop(0) && s.stopRef == TractorStop(0)
    ensures Status(s) == "stopped"
  {
    Service(true, false, true, false, TractorStop(0), TractorStop(0), 0)
  }

  /** The flags never claim to be stopped and stopping at once. */
  predicate Consistent(s: Service)
  {
    !(s.stopped && s.stopping)
  }

  /** getStatus: "stopped" wins over "stopping..", which wins over "running". */
  function Status(s: Service): (r: string)
    ensures r == "stopped" <==> s.stopped
    ensures r == "stopping.." <==> !s.stopped && s.stopping
    ensures r == "running" <==> !s.stopped && !s.stopping
  {
    if s.stopped then "stopped" else if s.stopping then "stopping.." else "running"
  }

  function SetStopped(s: Service): Service
  {
    s.(stopped := true, stopping := false)
  }

  function SetRunning(s: Service): Service
  {
    s.(stopped := false, stopping := false)
  }

  function SetStopping(s: Service): Service
  {
    s.(stopping := true)
  }

  /** `start`: ignored unless stopped and not stopping; otherwise clears both
      flags, resumes a paused serial listener and enters the loop, which resets
      its idle clock to `now`. The second component tells whether the loop was
      entered. */
  function Start(s: Service, now: int): (r: (Service, bool))
    ensures r.1 <==> s.stopped && !s.stopping
    ensures !r.1 ==> r.0 == s
    ensures r.1 ==> !r.0.stopped && !r.0.stopping && !r.0.listenerPaused && r.0.lastCommandTime == now
    ensures r.0.lastCommand == s.lastCommand && r.0.disconnected == s.disconnected
  {
    if !s.stopped || s.stopping then (s, false)
    else (SetRunning(s).(listenerPaused := false, lastCommandTime := now), true)
  }

  /** `stop`: ignored when already stopping or stopped; otherwise raises the
      stopping flag, which the loop notices at its next check. */
  function Stop(s: Service): (r: Service)
    ensures s.stopped || s.stopping ==> r == s
    ensures !s.stopped && !s.stopping ==> r == s.(stopping := true)
    ensures Status(r) != "running"
  {
    if s.stopping || s.stopped then s else SetStopping(s)
  }

  /** `reConnect`: hardware detection succeeded or not. */
  function Reconnect(s: Service, ok: bool): (r: Service)
    ensures r.disconnected <==> !ok
    ensures r == s.(disconnected := !ok)
  {
    s.(disconnected := !ok)
  }

  /** Leaving the loop because the stopping flag is up. */
  function ExitLoop(s: Service): (r: Service)
    ensures r.stopped && !r.stopping && Status(r) == "stopped"
  {
    SetStopped(s)
  }

  /** `destroy`: `stop`, which waits for a running loop to leave; then the
      driver is disconnected and the queue's listeners are dropped. A stop
      already in progress is not waited for. */
  function Destroy(s: Service, q: CommandQueue.Queue): (r: (Service, CommandQueue.Queue))
    ensures r.0.disconnected
    ensures !s.stopping ==> r.0.stopped && !r.0.stopping && Status(r.0) == "stopped"
    ensures s.stopping ==> r.0.stopped == s.stopped && r.0.stopping
    ensures r.0.lastCommand == s.lastCommand
    ensures r.1.items == q.items && r.1.listeners == []
  {
    var s1 := if !s.stopped && !s.stopping then ExitLoop(Stop(s)) else s;
    (s1.(disconnected := true), CommandQueue.RemoveAllListeners(q))
  }

  /** The body of one loop iteration as written: a timeout at STOP pauses once
      the idle window has passed; every command taken, filtered or dispatched,
      becomes the last command. */
  function Iterate(s: Service, cfg: Config, it: Iteration): (r: (Service, Action))
    requires !s.disconnected
    // idle handling on a poll timeout
    ensures r.1.Tick? || r.1.PauseListener? <==>
              it.before == NoFault && it.polled.None? && Equals(s.lastCommand, s.stopRef)
    ensures r.1.PauseListener? <==> (r.1.Tick? || r.1.PauseListener?) && it.now - s.lastCommandTime > cfg.sleepTimeout
    ensures r.1.PauseListener? ==> r.0.listenerPaused && r.0.stopped && !r.0.stopping
    ensures r.1.Tick? ==> r.0 == s
    // the command taken: the polled one, or a tractor STOP on timeout
    ensures (r.1.Dispatch? || r.1.Bypass? || r.1.SendFailed?) ==>
              it.before == NoFault &&
              r.1.command == (if it.polled.Some? then it.polled.value else TimeoutStop(s.lastCommand)) &&
              r.0.stopRef == StopFor(r.1.command)
    ensures r.1.Dispatch? <==>
              (r.1.Dispatch? || r.1.Bypass? || r.1.SendFailed?) && it.send == NoFault &&
              !Bypassed(r.1.command, s.lastCommand, it.queueSize, cfg.maxQueueSize)
    ensures r.1.Bypass? ==> Bypassed(r.1.command, s.lastCommand, it.queueSize, cfg.maxQueueSize)
    ensures r.1.Dispatch? ==> r.1.call == Route(r.1.command)
    // filtered and dispatched commands alike become the last command
    ensures r.1.Dispatch? || r.1.Bypass? ==> r.0.lastCommand == r.1.command && r.0.lastCommandTime == it.now
    ensures !(r.1.Dispatch? || r.1.Bypass?) ==> r.0.lastCommand == s.lastCommand
    // caught faults disconnect; any other exception stops the service
    ensures r.0.disconnected <==> r.1.Disconnect? || r.1.SendFailed?
    ensures r.1.Disconnect? <==> it.before.Recoverable()
    ensures r.1.Crash? ==> r.0.stopped && !r.0.stopping
  {
    if it.before != NoFault then
      if it.before.Recoverable() then (s.(disconnected := true), Disconnect)
      else (SetStopped(s), Crash)
    else if it.polled.None? && Equals(s.lastCommand, s.stopRef) then
      if it.now - s.lastCommandTime > cfg.sleepTimeout then
        (SetStopped(s.(listenerPaused := true)), PauseListener)
      else (s, Tick)
    else
      var c := if it.polled.Some? then it.polled.value else TimeoutStop(s.lastCommand);
      var s1 := s.(stopRef := StopFor(c));
      if Bypassed(c, s.lastCommand, it.queueSize, cfg.maxQueueSize) then
        (s1.(lastCommand := c, lastCommandTime := it.now), Bypass(c))
      else if it.send == NoFault then
        (s1.(lastCommand := c, lastCommandTime := it.now), Dispatch(c, Route(c)))
      else if it.send.Recoverable() then
        (s1.(disconnected := true), SendFailed(c, Route(c)))
      else (SetStopped(s1), Crash)
  }

  /** A stale command that is filtered still replaces the last command, so the
      last command's timestamp goes down. */
  lemma StaleBypassLowersTimestamp(s: Service, cfg: Config, it: Iteration)
    requires !s.disconnected
    requires it.before == NoFault && it.polled.Some?
    requires it.polled.value.timeMillis < s.lastCommand.timeMillis
    ensures var (s', a) := Iterate(s, cfg, it);
            a == Bypass(it.polled.value) && s'.lastCommand.timeMillis < s.lastCommand.timeMillis
  {
  }

  /** As written, two consecutive successful dispatches can carry the same payload:
      a tractor (5,5) is sent, a tractor (9,9) is dropped for backlog yet recorded
      as the last command, and the next tractor (5,5) passes the duplicate check. */
  lemma RecordedBypassAllowsRepeatedDispatch()
    ensures var cfg := Config(20, 1000);
            var s0 := Initial().(stopped := false, disconnected := false, lastCommandTime := 0);
            var (s1, a1) := Iterate(s0, cfg, Iteration(10, NoFault, Some(Tractor(5, 5, 100)), 0, NoFault));
            var (s2, a2) := Iterate(s1, cfg, Iteration(20, NoFault, Some(Tractor(9, 9, 200)), 21, NoFault));
            var (s3, a3) := Iterate(s2, cfg, Iteration(30, NoFault, Some(Tractor(5, 5, 300)), 20, NoFault));
            a1.Dispatch? && a2.Bypass? && a3.Dispatch? && Equals(a1.command, a3.command)
  {
  }

  /** The loop body with the filter bookkeeping the duplicate and staleness
      checks describe ("already sent", "older than last sent"): a filtered
      command refreshes the idle clock but is not recorded as the last command. */
  function IterateCorrected(s: Service, cfg: Config, it: Iteration): (r: (Service, Action))
    requires !s.disconnected
    ensures !r.1.Dispatch? ==> r.0.lastCommand == s.lastCommand
    ensures r.1.Dispatch? ==>
              r.0.lastCommand == r.1.command && Follows(s.lastCommand, r.1.command) &&
              it.queueSize <= cfg.maxQueueSize && r.1.call == Route(r.1.command)
    ensures r.1 == Iterate(s, cfg, it).1
  {
    var (s', a) := Iterate(s, cfg, it);
    if a.Bypass? then (s'.(lastCommand := s.lastCommand), a) else (s', a)
  }

  /** What can happen to the service: `start` (from the queue's data listener),
      `stop`, a reconnect attempt of the inner reconnect loop, or a loop iteration. */
  datatype Event = StartRequest(now: int) | StopRequest | ReconnectAttempt(ok: bool) | Step(it: Iteration)

  /** An event other than a loop iteration. Events that cannot happen in the
      current state change nothing; the loop leaves when it sees the stopping flag. */
  function Control(s: Service, e: Event): (r: Service)
    ensures Consistent(s) ==> Consistent(r)
    ensures r.lastCommand == s.lastCommand
  {
    match e
    case StartRequest(now) => Start(s, now).0
    case StopRequest => Stop(s)
    case ReconnectAttempt(ok) =>
      if !s.stopped && !s.stopping && s.disconnected then Reconnect(s, ok) else s
    case Step(_) =>
      if !s.stopped && s.stopping then ExitLoop(s) else s
  }

  /** Whether a loop iteration runs at all: the loop is inside its body. */
  predicate InBody(s: Service)
  {
    !s.stopped && !s.stopping && !s.disconnected
  }

  /** One event of the loop as written (lines 64-124): a filtered command and
      a dispatched one alike become the last command. */
  function Apply(s: Service, cfg: Config, e: Event): (r: (Service, Action))
    ensures Consistent(s) ==> Consistent(r.0)
    ensures r.1.Dispatch? || r.1.Bypass? ==> r.0.lastCommand == r.1.command
    ensures !(r.1.Dispatch? || r.1.Bypass?) ==> r.0.lastCommand == s.lastCommand
    ensures r.1.Dispatch? ==> Follows(s.lastCommand, r.1.command)
  {
    if e.Step? && InBody(s) then
      var r := Iterate(s, cfg, e.it);
      if r.1.Dispatch? then
        AdmittedFollows(r.1.command, s.lastCommand, e.it.queueSize, cfg.maxQueueSize);
        r
      else r
    else (Control(s, e), Tick)
  }

  /** Runs a schedule of events through the loop as written; the second
      component lists the dispatched commands. */
  function Run(s: Service, cfg: Config, events: seq<Event>): (r: (Service, seq<Command>))
    decreases |events|
  {
    if |events| == 0 then (s, [])
    else
      var (s1, a) := Apply(s, cfg, events[0]);
      var (s2, log) := Run(s1, cfg, events[1..]);
      (s2, if a.Dispatch? then [a.command] + log else log)
  }

  /** Whatever the schedule, the loop as written never leaves the service
      stopped and stopping at once. */
  lemma {:induction false} RunKeepsConsistent(s: Service, cfg: Config, events: seq<Event>)
    requires Consistent(s)
    ensures Consistent(Run(s, cfg, events).0)
    decreases |events|
  {
    if |events| > 0 {
      var (s1, a) := Apply(s, cfg, events[0]);
      RunKeepsConsistent(s1, cfg, events[1..]);
    }
  }

  /** The schedule of the repeated dispatch, from the service as constructed:
      start, connect, then tractor (5,5), a backlogged (9,9), and (5,5) again. */
  function RepeatSchedule(): (events: seq<Event>)
    ensures |events| == 5
  {
    [StartRequest(0), ReconnectAttempt(true),
     Step(Iteration(10, NoFault, Some(Tractor(5, 5, 100)), 0, NoFault)),
     Step(Iteration(20, NoFault, Some(Tractor(9, 9, 200)), 21, NoFault)),
     Step(Iteration(30, NoFault, Some(Tractor(5, 5, 300)), 20, NoFault))]
  }

  /** As written, a schedule dispatches the same payload twice in a row, so the
      dispatched commands do not form a chain. */
  lemma RunRepeatsDispatch()
    ensures Run(Initial(), Config(20, 1000), RepeatSchedule()).1 == [Tractor(5, 5, 100), Tractor(5, 5, 300)]
    ensures !Chain(Initial().lastCommand, Run(Initial(), Config(20, 1000), RepeatSchedule()).1)
  {
    var cfg := Config(20, 1000);
    var e := RepeatSchedule();
    var s1 := Apply(Initial(), cfg, e[0]).0;
    var s2 := Apply(s1, cfg, e[1]).0;
    assert InBody(s2) && s2.lastCommand == TractorStop(0);
    var (s3, a3) := Apply(s2, cfg, e[2]);
    assert a3 == Dispatch(Tractor(5, 5, 100), SendTractor(5, 5));
    var (s4, a4) := Apply(s3, cfg, e[3]);
    assert a4.Bypass? && s4.lastCommand == Tractor(9, 9, 200);
    var (s5, a5) := Apply(s4, cfg, e[4]);
    assert a5 == Dispatch(Tractor(5, 5, 300), SendTractor(5, 5));
    assert Run(s5, cfg, e[5..]).1 == [];
    assert Run(s4, cfg, e[4..]).1 == [Tractor(5, 5, 300)];
    assert Run(s3, cfg, e[3..]).1 == [Tractor(5, 5, 300)];
    assert Run(s2, cfg, e[2..]).1 == [Tractor(5, 5, 100), Tractor(5, 5, 300)];
    assert Run(s1, cfg, e[1..]).1 == [Tractor(5, 5, 100), Tractor(5, 5, 300)];
  }

  /** One event of the corrected loop: only a dispatched command becomes the
      last command. */
  function ApplyCorrected(s: Service, cfg: Config, e: Event): (r: (Service, Action))
    ensures Consistent(s) ==> Consistent(r.0)
    ensures !r.1.Dispatch? ==> r.0.lastCommand == s.lastCommand
    ensures r.1.Dispatch? ==> r.0.lastCommand == r.1.command && Follows(s.lastCommand, r.1.command)
  {
    if e.Step? && InBody(s) then IterateCorrected(s, cfg, e.it) else (Control(s, e), Tick)
  }

  /** Runs a schedule of events through the corrected loop. */
  function RunCorrected(s: Service, cfg: Config, events: seq<Event>): (r: (Service, seq<Command>))
    decreases |events|
  {
    if |events| == 0 then (s, [])
    else
      var (s1, a) := ApplyCorrected(s, cfg, events[0]);
      var (s2, log) := RunCorrected(s1, cfg, events[1..]);
      (s2, if a.Dispatch? then [a.command] + log else log)
  }

  /** With the corrected bookkeeping, whatever the schedule, each dispatched
      command is no older than, and differs by payload from, the one before. */
  lemma {:induction false} DispatchedCommandsChain(s: Service, cfg: Config, events: seq<Event>)
    ensures Chain(s.lastCommand, RunCorrected(s, cfg, events).1)
    decreases |events|
  {
    if |events| > 0 {
      var (s1, a) := ApplyCorrected(s, cfg, events[0]);
      DispatchedCommandsChain(s1, cfg, events[1..]);
    }
  }
}
