# SerialDriver in Dafny

A model of SerialDriver, a Java library that drives an Arduino robot over a
serial port. An application puts timestamped motion commands into a queue. A
service loop takes them in timestamp order and drops those that are stale,
repeated, or behind a long backlog. It hands the rest to a chassis driver,
which turns them into wheel speeds and writes the line `Digital:<left>,<right>`.
A line-oriented communicator sends each command and waits for the firmware's
answer. A hardware detector finds the port that answers like an Arduino and
checks that its chassis is a 2WD. Telemetry (battery voltage, temperature, and
the firmware's identity) is polled over the same channel.

The repository holds two revisions side by side, and both are modelled:

- the older package `net.ant.rc.serial`, with a thread-based service loop, the
  2WD driver, a sensor-polling driver base class and a battery gauge;
- the newer package `ru.ant.rc.serial`, with an on-demand service loop that
  pauses when idle, a line communicator, a configuration-based detector and a
  firmware state object.

Everything is written as pure functions over immutable values:

- A loop iteration is a step function. Its environment comes in as an explicit
  observation: the clock, the polled command, the queue size, and the faults
  raised.
- A run is a fold of such steps over a schedule of events.
- The serial port is an oracle. It says what opening each port does, what each
  port answers, and which bytes arrive between polls.
- Java's 32-bit `int` arithmetic is spelled out in `JavaInt`: wrap-around,
  division truncating toward zero, and `Math.abs(Integer.MIN_VALUE)`.
- `Integer.toString` and `Integer.parseInt` are spelled out in `Decimal`.

Modules, one concept each:

- `Base`: option values, map lookup, `startsWith`.
- `JavaInt`, `Decimal`: Java integers and their decimal text.
- `Commands`: vector and tractor commands, their order and equality.
- `CommandQueue`: the priority queue and its data listeners.
- `ServiceCommon`: the three bypass filters, the STOP reference and routing, shared by both loops.
- `NetSerialService`, `RuSerialService`: the two service loops. The newer loop is modelled as written (`Run`) and with the correction of the findings below (`RunCorrected`).
- `SerialCommunicator`: the line buffer, the bytes still unread in the stream, `readLineFromInput`, `checkMessage` and `sendCommand`.
- `HardwareDetection`, `RuHardwareDetector`, `NetHardwareDetector`: port detection and chassis check.
- `Arduino2WD`: vector and tractor translation and the wire text.
- `Exchange`: a sequence of firmware queries, stopping at the first failure.
- `BatteryGauge`, `SensorRefresh`: the older battery and sensor polling.
- `ArduinoState`: the newer firmware identity and refresh.

Where the two revisions share a type, the model defines it once. `Command` has
both the vector and the tractor variant, because the older service loop uses
`VectorCommand`, which only exists in the newer package.

## Model

| member | source | states |
|---|---|---|
| Commands.TractorStop | src/net/ant/rc/serial/TractorCommand.java:36-38 | STOP is a tractor command with both speeds zero and the given timestamp |
| Commands.VectorStop | src/main/java/ru/ant/rc/serial/VectorCommand.java:38-40 | STOP is a vector command with a zero shift and the given timestamp |
| Commands.CompareTo | src/net/ant/rc/serial/Command.java:26-36 | compareTo is 0, 1 or -1 exactly when this timestamp is equal to, later than or earlier than the other |
| Commands.CompareAntisymmetric | src/net/ant/rc/serial/Command.java:26-36 | swapping the operands of compareTo negates the result |
| Commands.CompareTransitive | src/net/ant/rc/serial/Command.java:26-36 | compareTo is a transitive preorder, in both its strict and its non-strict form |
| Commands.CompareIgnoresPayload | src/net/ant/rc/serial/Command.java:26-36 | the order depends on the timestamps only, not on kind or payload |
| Commands.EqualsIffSamePayload | src/net/ant/rc/serial/TractorCommand.java:44-48 | equals holds if and only if both commands are the same kind with the same two values |
| Commands.EqualsIgnoresTimestamp | src/main/java/ru/ant/rc/serial/VectorCommand.java:46-50 | restamping either command never changes the answer of equals |
| Commands.VariantsNeverEqual | src/net/ant/rc/serial/TractorCommand.java:45 | a vector command never equals a tractor command, in either direction |
| Commands.EqualsIsEquivalence | src/main/java/ru/ant/rc/serial/VectorCommand.java:46-50 | equals is reflexive, symmetric and transitive |
| Commands.StopsAreEqual | src/net/ant/rc/serial/TractorCommand.java:36-38 | all STOPs of one kind are equal whatever their timestamps; a tractor STOP never equals a vector STOP |
| CommandQueue.Put | src/main/java/ru/ant/rc/serial/CommandQueue.java:20-27 | put adds exactly the command to the queue contents and notifies every registered listener, in registration order |
| CommandQueue.Poll | src/main/java/ru/ant/rc/serial/CommandQueue.java:15-17 | poll returns nothing exactly when the queue is empty; otherwise it removes one pending command with the smallest timestamp, and the rest stay pending |
| CommandQueue.AddDataListener | src/main/java/ru/ant/rc/serial/CommandQueue.java:29-31 | registering appends the listener (duplicates kept) and leaves the commands alone |
| CommandQueue.RemoveAllListeners | src/main/java/ru/ant/rc/serial/CommandQueue.java:37-39 | every listener is forgotten and the pending commands are kept |
| CommandQueue.PollsInTimestampOrder | src/main/java/ru/ant/rc/serial/CommandQueue.java:15-17 | two polls in a row return commands in non-decreasing timestamp order |
| CommandQueue.ListenerNotifications | src/main/java/ru/ant/rc/serial/CommandQueue.java:20-31 | a listener registered twice is told twice per put; after removeAllListeners a put still inserts but tells nobody |
| CommandQueue.PutThenPoll | src/main/java/ru/ant/rc/serial/CommandQueue.java:15-23 | polling right after putting into an empty queue gives that command back |
| ServiceCommon.Route | src/main/java/ru/ant/rc/serial/SerialService.java:107-112 | a vector command goes to sendVectorCommand(x, y) and a tractor command to sendTractorCommand(left, right), with its own values |
| ServiceCommon.StopFor | src/main/java/ru/ant/rc/serial/SerialService.java:90-99 | the STOP reference becomes the STOP of the command's kind, so the command equals it exactly when it is itself a STOP |
| ServiceCommon.TimeoutStop | src/main/java/ru/ant/rc/serial/SerialService.java:83 | on a poll timeout the loop makes a tractor STOP that carries the last command's timestamp |
| ServiceCommon.AdmittedFollows | src/main/java/ru/ant/rc/serial/SerialService.java:165-193 | a command passes all three filters exactly when it is not older than the last command, not equal to it, and the queue is within its bound |
| ServiceCommon.TimeoutStopAdmission | src/main/java/ru/ant/rc/serial/SerialService.java:72-84 | the synthesised STOP is never stale, and it is a duplicate exactly when the last command was a tractor STOP |
| RuSerialService.Initial | src/main/java/ru/ant/rc/serial/SerialService.java:46-51 | the service starts stopped and disconnected, with a tractor STOP as both last command and STOP reference |
| RuSerialService.Status | src/main/java/ru/ant/rc/serial/SerialService.java:260-264 | the status is "stopped" if stopped, otherwise "stopping.." if stopping, otherwise "running", and each holds only in its own case |
| RuSerialService.Start | src/main/java/ru/ant/rc/serial/SerialService.java:145-151 | start enters the loop if and only if the service is stopped and not stopping; entering clears both flags, resumes the listener and resets the idle clock; otherwise nothing changes |
| RuSerialService.Stop | src/main/java/ru/ant/rc/serial/SerialService.java:218-220 | stop raises the stopping flag only for a running service, and afterwards the status is never "running" |
| RuSerialService.Reconnect | src/main/java/ru/ant/rc/serial/SerialService.java:198-213 | after a reconnect attempt the service is disconnected exactly when detection failed, and nothing else changes |
| RuSerialService.ExitLoop | src/main/java/ru/ant/rc/serial/SerialService.java:125-128 | leaving the loop leaves the service stopped and not stopping |
| RuSerialService.Destroy | src/main/java/ru/ant/rc/serial/SerialService.java:266-278 | destroy leaves the service disconnected, stopped unless a stop was already in progress, and the queue with its commands but no listeners |
| RuSerialService.Iterate | src/main/java/ru/ant/rc/serial/SerialService.java:63-124 | one iteration: a timeout at STOP ticks, or pauses the listener once the idle window has passed; otherwise the polled command (or a tractor STOP) is filtered or routed; filtered and dispatched commands alike become the last command; caught faults disconnect and other exceptions stop the service |
| RuSerialService.StaleBypassLowersTimestamp | src/main/java/ru/ant/rc/serial/SerialService.java:101-105 | a stale command is dropped and still replaces the last command, whose timestamp therefore goes down |
| RuSerialService.RecordedBypassAllowsRepeatedDispatch | src/main/java/ru/ant/rc/serial/SerialService.java:101-115 | as written, two consecutive dispatches can carry the same payload when a filtered command between them was recorded |
| RuSerialService.IterateCorrected | src/main/java/ru/ant/rc/serial/SerialService.java:165-183 | with only dispatched commands recorded, each dispatch follows the last one (not older, not equal) within the queue bound, and the action is the one the loop as written takes |
| RuSerialService.Control | src/main/java/ru/ant/rc/serial/SerialService.java:125-151 | start, stop, a reconnect attempt and leaving the loop on the stopping flag keep the flags consistent and never change the last command |
| RuSerialService.Apply | src/main/java/ru/ant/rc/serial/SerialService.java:64-124 | one event of the loop as written keeps the flags consistent; a filtered or dispatched command becomes the last command, nothing else changes it, and a dispatch is never older than or equal to the last command |
| RuSerialService.RunKeepsConsistent | src/main/java/ru/ant/rc/serial/SerialService.java:64-151 | no schedule run through the loop as written makes the service stopped and stopping at once |
| RuSerialService.RepeatSchedule | src/main/java/ru/ant/rc/serial/SerialService.java:64-115 | the schedule behind the repeated dispatch: start, connect, and three loop iterations |
| RuSerialService.RunRepeatsDispatch | src/main/java/ru/ant/rc/serial/SerialService.java:101-115 | as written, starting from the service as constructed, that schedule dispatches tractor (5,5) twice in a row, so the dispatched commands do not form a chain |
| RuSerialService.ApplyCorrected | src/main/java/ru/ant/rc/serial/SerialService.java:64-124 | corrected: one event keeps the flags consistent, only a dispatch changes the last command, and a dispatch follows the last command |
| RuSerialService.DispatchedCommandsChain | src/main/java/ru/ant/rc/serial/SerialService.java:101-115 | corrected: over any schedule of start, stop, reconnect and loop events, each dispatched command follows the one before it (the as-written loop fails this, see RunRepeatsDispatch) |
| NetSerialService.Construct | src/net/ant/rc/serial/SerialService.java:127-132 | a new service is not stopped, holds tractor STOPs as last command and reference, and has its error flag set exactly when the first reconnect failed |
| NetSerialService.Reconnect | src/net/ant/rc/serial/SerialService.java:138-153 | a reconnect clears the error flag and installs a driver on success and sets the flag on failure; the commands are untouched |
| NetSerialService.Stop | src/net/ant/rc/serial/SerialService.java:158-162 | stop sets the stop flag; the disconnect succeeds exactly when a driver exists |
| NetSerialService.Iterate | src/net/ant/rc/serial/SerialService.java:44-88 | one iteration: a timeout at STOP ticks; otherwise the polled command (or a tractor STOP) is filtered or routed; only a dispatched command becomes the last command, and it follows the previous one within the queue bound; caught faults set the error flag |
| NetSerialService.DispatchedCommandsChain | src/net/ant/rc/serial/SerialService.java:74-84 | over any schedule of loop steps, reconnects and stops, each dispatched command is no older than, and not equal to, the one before it |
| NetSerialService.FirstCommandFiltered | src/net/ant/rc/serial/SerialService.java:30-31 | from a fresh service, a tractor STOP or a command with a negative timestamp is never dispatched first |
| NetSerialService.TimeoutSendsStop | src/net/ant/rc/serial/SerialService.java:50-57 | a timeout after a non-STOP command, with the queue within its bound, dispatches a tractor STOP stamped with that command's time |
| SerialCommunicator.SignedByte | src/main/java/ru/ant/rc/serial/SerialCommunicator.java:60 | the (byte) cast keeps 0..127 and makes 128..255 and end-of-stream negative |
| SerialCommunicator.EmptyBuffer | src/main/java/ru/ant/rc/serial/SerialCommunicator.java:23-25 | the initial buffer is valid, empty and not complete |
| SerialCommunicator.FirstStop | src/main/java/ru/ant/rc/serial/SerialCommunicator.java:60-67 | reading stops at the first newline or negative signed byte; every value before it is an ASCII byte other than a newline |
| SerialCommunicator.ReadLineFromInput | src/main/java/ru/ant/rc/serial/SerialCommunicator.java:55-71 | reading keeps the buffer valid, consumes no more than arrived, and does nothing while a completed line is pending |
| SerialCommunicator.ReadLineFits | src/main/java/ru/ant/rc/serial/SerialCommunicator.java:60-66 | a line that fits is appended up to the stop byte, which is consumed; the line is complete exactly when the stop was a newline and something is buffered |
| SerialCommunicator.ReadLineOverflows | src/main/java/ru/ant/rc/serial/SerialCommunicator.java:64-66 | a line longer than the room left fills the 200-byte array, and the next byte raises the out-of-bounds error after advancing the count |
| SerialCommunicator.CheckMessage | src/main/java/ru/ant/rc/serial/SerialCommunicator.java:86-101 | a completed line is taken and the buffer reset; an incomplete one is left alone; a line past 200 bytes fails |
| SerialCommunicator.Frame | src/main/java/ru/ant/rc/serial/SerialCommunicator.java:103-110 | the message on the wire is the command followed by one newline |
| SerialCommunicator.Decode | src/main/java/ru/ant/rc/serial/SerialCommunicator.java:89 | the stored ASCII bytes become the same number of characters, code for code |
| SerialCommunicator.OpenChannel | src/main/java/ru/ant/rc/serial/SerialCommunicator.java:23-25 | a fresh channel has an empty, incomplete buffer and nothing unread |
| SerialCommunicator.Round | src/main/java/ru/ant/rc/serial/SerialCommunicator.java:55-101 | one listener run and one check: the stream is read in order and what stays unread is a suffix of it; a pending line is taken without reading; a line found is non-empty ASCII without newline |
| SerialCommunicator.RoundTakesLine | src/main/java/ru/ant/rc/serial/SerialCommunicator.java:55-101 | with nothing buffered, a whole line at the head of the stream is taken by one round and what follows it stays unread |
| SerialCommunicator.AwaitAnswer | src/main/java/ru/ant/rc/serial/SerialCommunicator.java:121-128 | the loop ends at the first check that finds something or is past the timeout, every earlier check having found nothing in time; the answer is the decoded line of that check, given only within the timeout; an over-long line fails before the clock is looked at; the channel left, with its unread bytes, is the one after exactly those checks |
| SerialCommunicator.SendCommand | src/main/java/ru/ant/rc/serial/SerialCommunicator.java:117-131 | sendCommand writes the framed command, and its answer is the first line any check finds after the write, decoded, within the timeout; that may be a line still pending from an earlier call |
| SerialCommunicator.LateReplyShiftsAnswers | src/main/java/ru/ant/rc/serial/SerialCommunicator.java:86-131 | a reply still pending from an earlier command is what the next sendCommand returns, its own reply stays unread, and the call after it returns that reply |
| SerialCommunicator.ReplyRoundTrip | src/main/java/ru/ant/rc/serial/SerialCommunicator.java:117-131 | a reply line arriving whole before the first check comes back exactly, and the channel is empty afterwards |
| SerialCommunicator.BackToBackReplies | src/main/java/ru/ant/rc/serial/SerialCommunicator.java:55-67 | two lines arriving together are answered one per call: the second stays unread after the first call and is the next call's answer |
| SerialCommunicator.PendingLineBlocksReading | src/main/java/ru/ant/rc/serial/SerialCommunicator.java:57 | while a completed line is pending, nothing is read |
| SerialCommunicator.EmptyLineSwallowed | src/main/java/ru/ant/rc/serial/SerialCommunicator.java:61-63 | a newline with nothing buffered completes nothing |
| HardwareDetection.CheckFirmwareVersion | src/main/java/ru/ant/rc/serial/SerialHardwareDetector.java:77-91 | the firmware check passes exactly when a version reply arrives and starts with "Arduino"; otherwise it fails with "There is no Arduino on " and the port name |
| HardwareDetection.FirstAccepted | src/main/java/ru/ant/rc/serial/SerialHardwareDetector.java:101-116 | the search stops at the first port that opens and passes the firmware check, having skipped every earlier one |
| HardwareDetection.ClassifyChassis | src/main/java/ru/ant/rc/serial/SerialHardwareDetector.java:125-140 | a reply is a 2WD chassis exactly when it starts with "Arduino2WD"; other "Arduino" replies name the unsupported chassis, and anything else says the command is unsupported |
| HardwareDetection.DetectChassisType | src/main/java/ru/ant/rc/serial/SerialHardwareDetector.java:125-137 | a driver is built exactly for a 2WD reply; a missing reply fails with the answer timeout; other replies fail as unsupported hardware |
| HardwareDetection.Detect | src/main/java/ru/ant/rc/serial/SerialHardwareDetector.java:41-58 | a usable saved port is kept without searching; a saved port whose opening failed silently ends in a runtime failure; otherwise the first accepted port is probed, saved and checked, or detection fails with "Unable to detect Arduino on any COM port"; a driver only ever exists for an accepted 2WD port |
| HardwareDetection.ChassisCasesNested | src/main/java/ru/ant/rc/serial/SerialHardwareDetector.java:128-136 | a 2WD reply also starts with "Arduino", so a reply without that prefix always gets the "command not supported" message |
| HardwareDetection.DetectionFailsIffNothingAccepted | src/main/java/ru/ant/rc/serial/SerialHardwareDetector.java:93-118 | detection fails with "Unable to detect Arduino on any COM port" if and only if neither the saved port nor any enumerated port is accepted |
| HardwareDetection.NoSavedNameSearchesFromFirstPort | src/main/java/ru/ant/rc/serial/SerialHardwareDetector.java:60-66 | without a saved port name, the probed ports are a prefix of the enumeration |
| RuHardwareDetector.Construct | src/main/java/ru/ant/rc/serial/SerialHardwareDetector.java:120-123 | detection starts from the CommPortName option, and a detected port is written back into that option |
| RuHardwareDetector.SavingKeepsOtherOptions | src/main/java/ru/ant/rc/serial/SerialHardwareDetector.java:120-123 | saving the detected port changes no other configuration option |
| RuHardwareDetector.SavedPortIsKept | src/main/java/ru/ant/rc/serial/SerialHardwareDetector.java:46-50 | a usable saved port is the only port probed, any driver is on it, and the configuration is unchanged |
| NetHardwareDetector.Construct | src/net/ant/rc/serial/SerialHardwareDetector.java:88-106 | detection starts from the CommPortName property of the saved file, and a detected port replaces the whole file |
| NetHardwareDetector.SavedFileHoldsOnlyThePort | src/net/ant/rc/serial/SerialHardwareDetector.java:151-164 | after a successful search the file holds exactly one property, CommPortName, naming the detected port |
| NetHardwareDetector.SecondRunUsesSavedPort | src/net/ant/rc/serial/SerialHardwareDetector.java:77-86 | a second run on the file the first one wrote goes straight to the saved port and reaches the same result |
| Decimal.ParseToDecimal | src/net/ant/rc/serial/arduino2wd/Arduino2WDSerialDriver.java:48-50 | Integer.parseInt reads back the decimal text of every int |
| Arduino2WD.DigitalCommand | src/net/ant/rc/serial/arduino2wd/Arduino2WDSerialDriver.java:48-50 | the wire text starts with "Digital:" and reads back as exactly the two wheel speeds |
| Arduino2WD.DigitalCommandRoundTrip | src/net/ant/rc/serial/arduino2wd/Arduino2WDSerialDriver.java:48-50 | the text "Digital:", left speed, comma, right speed parses back to exactly the two speeds, for every pair of ints |
| Arduino2WD.EachWheelCommand | src/net/ant/rc/serial/arduino2wd/Arduino2WDSerialDriver.java:43-46 | sendEachWheelCommand puts the wheel speeds on the wire unchanged |
| Arduino2WD.SignOf | src/net/ant/rc/serial/arduino2wd/Arduino2WDSerialDriver.java:35-36 | the sign is -1 exactly for negative values, and 1 otherwise (zero included) |
| Arduino2WD.TractorWheelSpeedAsWritten | src/net/ant/rc/serial/arduino2wd/Arduino2WDSerialDriver.java:35-38 | the speed computed in int arithmetic agrees with the intended one except at Integer.MIN_VALUE, where it can reach 21474836 |
| Arduino2WD.TractorMinValueOverflows | src/net/ant/rc/serial/arduino2wd/Arduino2WDSerialDriver.java:37 | with left = Integer.MIN_VALUE the code sends "Digital:21474836,0" where full reverse would be -255 |
| Arduino2WD.TractorCommandAsWritten | src/net/ant/rc/serial/arduino2wd/Arduino2WDSerialDriver.java:34-40 | the wire text as written equals the intended one whenever neither track is Integer.MIN_VALUE |
| Arduino2WD.TractorWheelSpeed | src/net/ant/rc/serial/arduino2wd/Arduino2WDSerialDriver.java:35-38 | corrected: a track speed lies in -255..255; it saturates with the input's sign from magnitude 100 on, scales by 255/100 (truncated) below it, and agrees in sign with the input |
| Arduino2WD.TractorWheels | src/net/ant/rc/serial/arduino2wd/Arduino2WDSerialDriver.java:39 | corrected: both wheel speeds are the negated track speeds, each within 255 in magnitude |
| Arduino2WD.TractorCommand | src/net/ant/rc/serial/arduino2wd/Arduino2WDSerialDriver.java:34-40 | corrected: the tractor wire text parses back to the negated track speeds |
| Arduino2WD.TractorSpeedOdd | src/net/ant/rc/serial/arduino2wd/Arduino2WDSerialDriver.java:37-38 | reversing a track reverses its speed |
| Arduino2WD.TractorSpeedMonotone | src/net/ant/rc/serial/arduino2wd/Arduino2WDSerialDriver.java:37-38 | a larger client value never gives a smaller track speed |
| Arduino2WD.TractorFullForward | src/net/ant/rc/serial/arduino2wd/Arduino2WDSerialDriver.java:34-40 | tractor (100, 100) sends "Digital:-255,-255" |
| Arduino2WD.TractorStopped | src/net/ant/rc/serial/arduino2wd/Arduino2WDSerialDriver.java:34-40 | tractor (0, 0) sends "Digital:0,0" |
| Arduino2WD.FloorSqrt | src/net/ant/rc/serial/arduino2wd/Arduino2WDSerialDriver.java:57 | the result is the integer square root rounded down |
| Arduino2WD.RoundSqrt | src/net/ant/rc/serial/arduino2wd/Arduino2WDSerialDriver.java:57 | the result is the integer nearest to the square root: (2c-1)² < 4n < (2c+1)² |
| Arduino2WD.RoundSqrtUnique | src/net/ant/rc/serial/arduino2wd/Arduino2WDSerialDriver.java:57 | only one integer satisfies the rounding condition, so the rounded root is determined |
| Arduino2WD.Magnitude | src/net/ant/rc/serial/arduino2wd/Arduino2WDSerialDriver.java:57-61 | the leading wheel's speed is 255 exactly when the rounded vector length is 100 or more, and below that is 255 times the rounded length divided by 100, truncated |
| Arduino2WD.Turn | src/net/ant/rc/serial/arduino2wd/Arduino2WDSerialDriver.java:66-68 | the other wheel's speed is 0 for a sideways vector and otherwise 255 divided by one more than \|x/y\| (x/y truncated toward zero), so at most 255 and exactly 255 when the vector is steeper than 45 degrees |
| Arduino2WD.Mix | src/net/ant/rc/serial/arduino2wd/Arduino2WDSerialDriver.java:63-87 | both speeds carry the sign of y and lie within 255; the leading wheel is the left one unless x is negative |
| Arduino2WD.VectorWheels | src/net/ant/rc/serial/arduino2wd/Arduino2WDSerialDriver.java:28-29 | y is negated before mixing, so pushing forward drives both wheels backward on the wire |
| Arduino2WD.VectorCommand | src/net/ant/rc/serial/arduino2wd/Arduino2WDSerialDriver.java:28-31 | the vector wire text parses back to the mixed wheel speeds |
| Arduino2WD.VectorMirror | src/net/ant/rc/serial/arduino2wd/Arduino2WDSerialDriver.java:79-87 | mirroring a non-zero x swaps the two wheels |
| Arduino2WD.FullDeflectionIsFullSpeed | src/net/ant/rc/serial/arduino2wd/Arduino2WDSerialDriver.java:61 | a vector of length 100 or more drives the leading wheel at full speed |
| Arduino2WD.VectorCentre | src/net/ant/rc/serial/arduino2wd/Arduino2WDSerialDriver.java:52-90 | vector (0, 0) sends "Digital:0,0" |
| Arduino2WD.VectorFullRight | src/net/ant/rc/serial/arduino2wd/Arduino2WDSerialDriver.java:52-90 | vector (100, 0) sends "Digital:255,0" |
| Arduino2WD.VectorFullLeft | src/net/ant/rc/serial/arduino2wd/Arduino2WDSerialDriver.java:52-90 | vector (-100, 0) sends "Digital:0,255" |
| Arduino2WD.VectorFullForward | src/net/ant/rc/serial/arduino2wd/Arduino2WDSerialDriver.java:52-90 | vector (0, 100) sends "Digital:-255,-255" |
| Exchange.Read | src/main/java/ru/ant/rc/serial/ArduinoState.java:44-57 | a reply is kept as text, parsed by Integer.parseInt, or parsed as a date; only an unparseable number fails |
| Exchange.Ask | src/main/java/ru/ant/rc/serial/ArduinoState.java:42-59 | the commands go out in plan order, none after a failure; a completed sequence stores one value per query, and a failed one stores one fewer than it sent |
| Exchange.AskReads | src/main/java/ru/ant/rc/serial/ArduinoState.java:42-59 | every stored value is its reply read as its query says |
| Exchange.AskReadsAt | src/main/java/ru/ant/rc/serial/ArduinoState.java:42-59 | the i-th stored value is the i-th reply read as the i-th query says |
| Exchange.AskFails | src/main/java/ru/ant/rc/serial/ArduinoState.java:44-46 | a timeout failure means the last reply sent for never came; a number failure means it came and does not parse |
| Exchange.AskCompletes | src/main/java/ru/ant/rc/serial/ArduinoState.java:42-59 | a sequence completes if and only if every reply arrives and reads |
| Exchange.AskNumbers | src/net/ant/rc/serial/SerialDriver.java:81-82 | for numeric queries each stored value is the parsed reply |
| BatteryGauge.NewBattery | src/net/ant/rc/serial/Battery.java:14-16 | a new battery reads 0 mV |
| BatteryGauge.SetVoltage | src/net/ant/rc/serial/Battery.java:21-23 | the stored voltage is the one set |
| BatteryGauge.CheckVoltageLevel | src/net/ant/rc/serial/Battery.java:28-30 | the level is 100·(v−9000)/2100 truncated toward zero while the product fits in an int, and lies in 0..100 between 9000 and 11100 mV |
| BatteryGauge.CheckVoltageLevelOf | src/net/ant/rc/serial/Battery.java:36-39 | the voltage is stored and the level reported is the one for that voltage |
| BatteryGauge.LevelCalibration | src/net/ant/rc/serial/Battery.java:28-30 | 9000 mV reads 0 and 11100 mV reads 100; the level is not clamped outside (8000 mV reads -47, 12000 mV reads 142) |
| BatteryGauge.LevelMonotone | src/net/ant/rc/serial/Battery.java:28-30 | a higher voltage never shows a lower level |
| SensorRefresh.Initial | src/net/ant/rc/serial/SerialDriver.java:19-21 | the sensors start at time 0 with voltage and temperature 0 |
| SensorRefresh.GetChipParameters | src/net/ant/rc/serial/SerialDriver.java:77-84 | past the period the slot is taken and "voltage" then "temperature" are asked; each value that parsed is stored and the others keep their old values; within the period nothing happens |
| SensorRefresh.RefreshesAreSpaced | src/net/ant/rc/serial/SerialDriver.java:78-80 | whatever the clock readings and replies, two polls that send are more than a period apart |
| SensorRefresh.FailedRefreshUsesSlot | src/net/ant/rc/serial/SerialDriver.java:79-81 | the slot is used up even when the voltage reply never comes |
| ArduinoState.Construct | src/main/java/ru/ant/rc/serial/ArduinoState.java:37-60 | the ten identity queries go out in order; an identity exists exactly when all succeed, and each field is its reply (numbers parsed, the compile date parsed or absent) |
| ArduinoState.IdentityReplies | src/main/java/ru/ant/rc/serial/ArduinoState.java:42-59 | when all identity queries succeed, every reply arrived and each stored value is that reply read as its kind |
| ArduinoState.BadDateStillConstructs | src/main/java/ru/ant/rc/serial/ArduinoState.java:50-58 | an unparseable compile date does not stop construction; the build date is then absent |
| ArduinoState.Initial | src/main/java/ru/ant/rc/serial/ArduinoState.java:19 | the refresh reference time starts at 0 |
| ArduinoState.Refresh | src/main/java/ru/ant/rc/serial/ArduinoState.java:62-70 | as written: past the period the four readings are asked and each one that parsed is stored, and the reference time never changes |
| ArduinoState.RefreshNeverRateLimited | src/main/java/ru/ant/rc/serial/ArduinoState.java:63-64 | as written, two calls a millisecond apart both query the firmware once the clock has passed the period |
| ArduinoState.RefreshCorrected | src/main/java/ru/ant/rc/serial/ArduinoState.java:62-70 | with the reference time advanced when the refresh fires, the queries are those of the code as written |
| ArduinoState.CorrectedRefreshesAreSpaced | src/main/java/ru/ant/rc/serial/ArduinoState.java:63-64 | with the corrected gate, any two refreshes are more than a period apart |

## Left out

- Threads, sleeps and blocking are left out; the model is sequential. The loop's `run` is a schedule of events (`Run`), and the clock is a value in each observation. `queueDataAvailable` is the `StartRequest` event, and the inner reconnect loop is a series of `ReconnectAttempt` events. In the net service the inner reconnect loop does not look at `serviceStopped`, so a stop during reconnection takes effect only once a reconnect succeeds; the model likewise keeps taking reconnect attempts after a stop and runs no further iteration. Whether the thread ever gets there (a port that never comes back) is not modelled.
- The ru `stop` busy-waits until the loop has left; that wait is modelled by `Destroy`, which assumes a running loop does leave. The driver's `pause` after the wait is not modelled.
- Logging, `System.out` output and the `valueForLog` strings are left out. They do not affect behaviour.
- The serial port is an oracle, not code. `SerialConnection` (opening, ports, streams) is not part of this model, and the ru and net connections are assumed to behave alike.
- Each round of the waiting loop runs the listener once, on everything the stream holds at that point; the serial event thread's own timing is not modelled.
- The ru `sendMessage` catches and logs an `IOException` from the port's output stream, so a failed write is not reported; the model's port never fails a write. The command text is turned into bytes with the platform charset; the model takes the text's characters as bytes, which agrees for ASCII text.
- Arduino2WD.TractorWheelSpeed: models the corrected speed; it differs from the source only at Integer.MIN_VALUE (first row of the findings), where `TractorWheelSpeedAsWritten` models the source.
- Arduino2WD.TractorWheels: uses the corrected speed, for the same reason.
- Arduino2WD.TractorCommand: uses the corrected speed, for the same reason; `TractorCommandAsWritten` is the source's text.
- Arduino2WD.Turn: computes \|x/y\| without the 32-bit wrap of `Math.abs`, which matters only for x = Integer.MIN_VALUE and y = -1, outside the joystick range.
- The `Config` classes of both packages are modelled as string maps. Their file formats, and their creation of defaults, are left out.
- `testWorkingPath` in the net detector writes and deletes a test file and has no effect on detection, so it is left out.
- `SimpleDateFormat("MMM dd yyyy HH:mm:ss")` is a function parameter (`parseDate`). Its date grammar is not modelled.
- The ru `Battery` class is left out because it is floating-point and takes its limits from configuration. The ru firmware state stores the voltage as a plain `int`.
- The net `SerialDriver` constructor calls `new Battery(config)`, but the net `Battery` has only a no-argument constructor. The model uses the no-argument one.
- Timestamps (`long`) are unbounded integers; `long` overflow in `now - lastTime` is not modelled.
- Among commands with equal timestamps, `CommandQueue.Poll` takes the earliest inserted. `PriorityBlockingQueue` leaves that order unspecified, and no property depends on it.
- Decimal.ParseInt: accepts ASCII digits only. `Integer.parseInt` also accepts other Unicode decimal digits, which never occur in firmware replies.
- Arduino2WD.Mix: requires |x|, |y| ≤ 46340. In that range the `double` computation of x² + y² is exact and `Math.round(Math.sqrt(...))` is the nearest integer. Larger joystick values are outside the 0..100 client range.
- Arduino2WD.VectorWheels and Arduino2WD.VectorCommand: carry the same joystick bound, for the same reason.
- BatteryGauge.CheckVoltageLevel: states the exact level only while |v − 9000| ≤ 21474836 mV, where `100 * (v - 9000)` does not wrap. Outside that range the model wraps as Java does, but no property is stated there.
- BatteryGauge.LevelMonotone: is proved only within the same range. The wrapped product is not monotone.
- Exceptions that escape `reConnect` in the ru loop (a runtime exception from a failed silent open) are not propagated; the model treats detection as success or failure only.
- `Arduino2WD.ParseDigital` and `Arduino2WD.IndexOf` are not in the source. They read the wire text the way the firmware does, so that the round-trip properties can be stated.

## Findings

| source | as written | input that shows it | evidently intended | confidence | as-written member | corrected member |
|---|---|---|---|---|---|---|
| src/net/ant/rc/serial/arduino2wd/Arduino2WDSerialDriver.java:37 | `Math.abs(left)` of Integer.MIN_VALUE stays negative, so the value takes the scaling branch and `left * 255` wraps | `sendTractorCommand(Integer.MIN_VALUE, 0)` sends "Digital:21474836,0" | saturate at full reverse: "Digital:255,0" | not executed | Arduino2WD.TractorMinValueOverflows | Arduino2WD.TractorWheelSpeed |
| src/main/java/ru/ant/rc/serial/SerialService.java:101-105 | a filtered command still becomes `lastCommand`, so the duplicate check compares with a command that was never sent | tractor (5,5) at t=100 sent; (9,9) at t=200 dropped for backlog; (5,5) at t=300 is sent again | the checks compare with the last command sent ("already sent", "older than last sent"): no two consecutive dispatches equal | not executed | RuSerialService.RunRepeatsDispatch | RuSerialService.DispatchedCommandsChain |
| src/main/java/ru/ant/rc/serial/ArduinoState.java:63-64 | `refreshLastTime` is compared but never assigned, so the gate is open on every call once the clock passes the period | two `refresh` calls at t and t+1 with t > period both query the firmware | at most one refresh per period, as the net driver's `getChipParameters` does | not executed | ArduinoState.RefreshNeverRateLimited | ArduinoState.CorrectedRefreshesAreSpaced |
