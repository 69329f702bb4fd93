/** The decisions of the hardware detector, shared by both revisions: try the
    port saved in the configuration, otherwise search every serial port in
    order for one that answers "version" like an Arduino, then ask it for its
    chassis type and build a driver only for a 2WD chassis. The port layer is an
    oracle: what opening each port does, and what each port answers. */
module HardwareDetection {
  import opened Base

  /** What asking the port layer for a port does. `Missing`: no such port
      (NoSuchPortException). `Refused`: not a serial port, or already owned
      (CommPortException before opening). `Silent`: opening failed and the
      error was only logged, leaving the connection closed. `Opens`: open. */
  datatype PortState = Missing | Refused | Silent | Opens

  /** The environment: the ports the system enumerates, in order; what opening
      each one does (unlisted ports are missing); the reply of each port to
      "version" and to "hardware", absent when it times out. */
  datatype Environment = Environment(
    ports: seq<string>,
    state: map<string, PortState>,
    version: map<string, string>,
    hardware: map<string, string>)

  /** Why detection failed: CommPortException, UnsupportedHardwareException, or
      a runtime exception (the firmware query on a port whose opening failed
      silently writes to a null stream). */
  datatype Failure = CommPortError(message: string) | UnsupportedHardware(message: string) | RuntimeFailure

  /** The end of detection: a 2WD driver on a port, or the exception that
      escapes the constructor. */
  datatype Result = Driver(port: string) | Failed(failure: Failure)

  /** The result, the port names probed in order (the saved one first, if any),
      and the port name to be saved as CommPortName, if any. */
  datatype Detection = Detection(result: Result, probed: seq<string>, saveAs: Option<string>)

  /** What the chassis reply says: a 2WD chassis, or the message of the
      UnsupportedHardwareException. */
  datatype Chassis = TwoWD | Unsupported(message: string)

  const NoArduinoAnywhere: string := "Unable to detect Arduino on any COM port"
  const AnswerTimeout: string := "Answer timeout expired"
  const NoHardwareCommand: string := "\"Hardware\" command is not supported by Firmware"

  function StateOf(env: Environment, port: string): (st: PortState)
    ensures port !in env.state ==> st == Missing
  {
    if port in env.state then env.state[port] else Missing
  }

  /** The firmware test: a reply exists and starts with "Arduino". */
  predicate FirmwareOk(reply: Option<string>)
  {
    reply.Some? && StartsWith(reply.value, "Arduino")
  }

  /** `checkFirmwareVersion` on an open port: nothing on success; otherwise the
      port is closed and a CommPortException names it. A timeout while asking
      counts as no reply. */
  function CheckFirmwareVersion(env: Environment, port: string): (r: Option<Failure>)
    ensures r.None? <==> port in env.version && StartsWith(env.version[port], "Arduino")
    ensures r.Some? ==> r.value == CommPortError("There is no Arduino on " + port)
  {
    if FirmwareOk(Lookup(env.version, port)) then None
    else Some(CommPortError("There is no Arduino on " + port))
  }

  /** A port that opens and passes the firmware test. */
  predicate Accepted(env: Environment, port: string)
  {
    StateOf(env, port) == Opens && CheckFirmwareVersion(env, port).None?
  }

  /** `detectCommPort`'s loop: the index of the first accepted port, or |ports|
      when there is none. Ports that do not open, or that fail the firmware
      test, are skipped; the loop stops at the first success. */
  function FirstAccepted(env: Environment, ports: seq<string>): (k: nat)
    ensures k <= |ports|
    ensures forall j :: 0 <= j < k ==> !Accepted(env, ports[j])
    ensures k < |ports| ==> Accepted(env, ports[k])
  {
    if |ports| == 0 then 0
    else if Accepted(env, ports[0]) then 0
    else 1 + FirstAccepted(env, ports[1..])
  }

  /** `detectChassisType`'s three-way rule on the reply to "hardware". */
  function ClassifyChassis(reply: string): (c: Chassis)
    ensures c.TwoWD? <==> StartsWith(reply, "Arduino2WD")
    ensures !c.TwoWD? && StartsWith(reply, "Arduino") ==>
              c.message == "Chassis of type " + reply + " is not supported by this driver version"
    ensures !StartsWith(reply, "Arduino") ==> c == Unsupported(NoHardwareCommand)
  {
    if StartsWith(reply, "Arduino2WD") then TwoWD
    else if StartsWith(reply, "Arduino") then
      Unsupported("Chassis of type " + reply + " is not supported by this driver version")
    else Unsupported(NoHardwareCommand)
  }

  /** Asking the open port for its chassis: a timeout escapes as a
      CommPortException; only a 2WD chassis gets a driver. */
  function DetectChassisType(env: Environment, port: string): (r: Result)
    ensures r.Driver? <==> port in env.hardware && StartsWith(env.hardware[port], "Arduino2WD")
    ensures r.Driver? ==> r.port == port
    ensures port !in env.hardware ==> r == Failed(CommPortError(AnswerTimeout))
    ensures port in env.hardware && !r.Driver? ==> r.failure.UnsupportedHardware?
  {
    match Lookup(env.hardware, port)
    case None => Failed(CommPortError(AnswerTimeout))
    case Some(reply) =>
      match ClassifyChassis(reply)
      case TwoWD => Driver(port)
      case Unsupported(message) => Failed(UnsupportedHardware(message))
  }

  /** The constructor sequence, given the saved port name (None when the
      configuration has none): the saved port is kept if it is accepted; a
      failure there is swallowed and the search runs; a saved port whose
      opening failed silently ends in a runtime exception. */
  function Detect(env: Environment, saved: Option<string>): (d: Detection)
    // a saved port that opens and answers like an Arduino is used as is
    ensures saved.Some? && Accepted(env, saved.value) ==>
              d == Detection(DetectChassisType(env, saved.value), [saved.value], None)
    // a silent open failure on the saved port is fatal
    ensures saved.Some? && StateOf(env, saved.value) == Silent ==>
              d == Detection(Failed(RuntimeFailure), [saved.value], None)
    // otherwise the first accepted port of the enumeration wins and is saved
    ensures (saved.None? || (!Accepted(env, saved.value) && StateOf(env, saved.value) != Silent)) ==>
              var k := FirstAccepted(env, env.ports);
              && d.probed == (if saved.Some? then [saved.value] else []) + env.ports[..if k < |env.ports| then k + 1 else k]
              && (k < |env.ports| ==> d.saveAs == Some(env.ports[k]) && d.result == DetectChassisType(env, env.ports[k]))
              && (k == |env.ports| ==> d.saveAs.None? && d.result == Failed(CommPortError(NoArduinoAnywhere)))
    // a driver is only ever built for an accepted port with a 2WD chassis
    ensures d.result.Driver? ==>
              Accepted(env, d.result.port) && d.result.port in env.hardware &&
              StartsWith(env.hardware[d.result.port], "Arduino2WD")
    ensures d.saveAs.Some? ==> Accepted(env, d.saveAs.value) && d.saveAs.value in env.ports
  {
    var probedSaved := if saved.Some? then [saved.value] else [];
    if saved.Some? && StateOf(env, saved.value) == Silent then
      Detection(Failed(RuntimeFailure), probedSaved, None)
    else if saved.Some? && Accepted(env, saved.value) then
      Detection(DetectChassisType(env, saved.value), probedSaved, None)
    else
      var k := FirstAccepted(env, env.ports);
      if k == |env.ports| then
        Detection(Failed(CommPortError(NoArduinoAnywhere)), probedSaved + env.ports, None)
      else
        Detection(DetectChassisType(env, env.ports[k]), probedSaved + env.ports[..k + 1], Some(env.ports[k]))
  }

  /** A 2WD reply also starts with "Arduino", so a reply without that prefix
      is never a 2WD chassis: the three chassis cases are nested prefixes. */
  lemma ChassisCasesNested(reply: string)
    ensures StartsWith(reply, "Arduino2WD") ==> StartsWith(reply, "Arduino")
    ensures !StartsWith(reply, "Arduino") ==> ClassifyChassis(reply) == Unsupported(NoHardwareCommand)
  {
    if StartsWith(reply, "Arduino2WD") {
      StartsWithPrefix(reply, "Arduino2WD", "Arduino");
    }
  }

  /** The search fails exactly when no saved port is usable and no enumerated
      port is accepted; a driver exists only if some port was accepted. */
  lemma DetectionFailsIffNothingAccepted(env: Environment, saved: Option<string>)
    requires saved.None? || StateOf(env, saved.value) != Silent
    ensures Detect(env, saved).result == Failed(CommPortError(NoArduinoAnywhere)) <==>
              (saved.None? || !Accepted(env, saved.value)) &&
              forall j :: 0 <= j < |env.ports| ==> !Accepted(env, env.ports[j])
  {
    var k := FirstAccepted(env, env.ports);
    if saved.Some? && Accepted(env, saved.value) {
      assert Detect(env, saved).result == DetectChassisType(env, saved.value);
    } else if k < |env.ports| {
      assert Accepted(env, env.ports[k]);
    }
  }

  /** Without a saved port name the search probes the enumerated ports in
      order, from the first one, and never a saved name. */
  lemma NoSavedNameSearchesFromFirstPort(env: Environment)
    ensures var d := Detect(env, None);
            |d.probed| <= |env.ports| && d.probed == env.ports[..|d.probed|]
  {
  }
}

/** The detector of package ru.ant.rc.serial: the saved port name is the
    CommPortName option of the configuration, and a detected port is written
    back into it, keeping the other options. */
module RuHardwareDetector {
  import opened Base
  import opened HardwareDetection

  const CommPortName: string := "CommPortName"

  /** The constructor: detection, and the configuration afterwards. */
  function Construct(env: Environment, config: map<string, string>): (r: (Detection, map<string, string>))
    ensures r.0 == Detect(env, Lookup(config, CommPortName))
    ensures r.0.saveAs.Some? ==> r.1 == config[CommPortName := r.0.saveAs.value]
    ensures r.0.saveAs.None? ==> r.1 == config
  {
    var d := Detect(env, Lookup(config, CommPortName));
    (d, if d.saveAs.Some? then config[CommPortName := d.saveAs.value] else config)
  }

  /** Saving a detected port changes only the CommPortName option. */
  lemma SavingKeepsOtherOptions(env: Environment, config: map<string, string>, key: string)
    requires key != CommPortName
    ensures var config' := Construct(env, config).1;
            (key in config' <==> key in config) && (key in config ==> config'[key] == config[key])
  {
  }

  /** A usable saved port is neither searched past nor re-saved. */
  lemma SavedPortIsKept(env: Environment, config: map<string, string>)
    requires CommPortName in config && Accepted(env, config[CommPortName])
    ensures var (d, config') := Construct(env, config);
            config' == config && d.probed == [config[CommPortName]] &&
            (d.result.Driver? ==> d.result.port == config[CommPortName])
  {
  }
}

/** The detector of package net.ant.rc.serial: the saved port name is the
    CommPortName property of serial.conf in the working directory (an unreadable
    file counts as empty), and a detected port replaces the whole file. */
module NetHardwareDetector {
  import opened Base
  import opened HardwareDetection

  const CommPortName: string := "CommPortName"

  /** The constructor: detection, and the contents of serial.conf afterwards. */
  function Construct(env: Environment, file: map<string, string>): (r: (Detection, map<string, string>))
    ensures r.0 == Detect(env, Lookup(file, CommPortName))
    ensures r.0.saveAs.Some? ==> r.1 == map[CommPortName := r.0.saveAs.value]
    ensures r.0.saveAs.None? ==> r.1 == file
  {
    var d := Detect(env, Lookup(file, CommPortName));
    (d, if d.saveAs.Some? then map[CommPortName := d.saveAs.value] else file)
  }

  /** After a successful search serial.conf holds exactly one property, and
      the next detection starts from the port it names. */
  lemma SavedFileHoldsOnlyThePort(env: Environment, file: map<string, string>)
    requires Construct(env, file).0.saveAs.Some?
    ensures var (d, file') := Construct(env, file);
            file'.Keys == {CommPortName} && Lookup(file', CommPortName) == d.saveAs
  {
  }

  /** Run again on the file it wrote, the detector goes straight to the saved
      port and reaches the same result without searching. */
  lemma SecondRunUsesSavedPort(env: Environment, file: map<string, string>)
    requires Construct(env, file).0.saveAs.Some?
    ensures var (d, file') := Construct(env, file);
            var (d', file'') := Construct(env, file');
            d'.result == d.result && d'.probed == [d.saveAs.value] && file'' == file'
  {
  }
}
