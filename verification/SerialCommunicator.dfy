/** The line-oriented request/response channel over the serial port. A listener
    fills a 200-byte line buffer from the input stream until a newline; the
    sender writes a command line and polls the buffer until a line is complete
    or the answer timeout has passed. Time is an explicit clock reading per poll. */
module SerialCommunicator {
  import opened Base

  const NewLine: int := 10
  const BufferSize: int := 200

  /** The values InputStream.read() can return: a byte 0..255, or -1 at end of stream. */
  type ReadValue = v: int | -1 <= v < 256

  /** A byte as stored in the buffer. */
  type Byte = b: int | 0 <= b < 256

  /** Java's `(byte)` cast of a read value: 128..255 become negative, -1 stays -1. */
  function SignedByte(v: ReadValue): (b: int)
    ensures -128 <= b < 128
    ensures b >= 0 <==> 0 <= v < 128
    ensures b >= 0 ==> b == v
  {
    if v >= 128 then v - 256 else v
  }

  /** The receive state. `data` holds the stored bytes (at most 200); `overrun`
      counts store attempts past the end of the array, each of which raised
      ArrayIndexOutOfBoundsException after advancing the count; `complete` is
      isReadComplete. The Java receivedCount is |data| + overrun. */
  datatype LineBuffer = LineBuffer(data: seq<Byte>, overrun: nat, complete: bool)
  {
    function Count(): nat
    {
      |data| + overrun
    }

    /** What every reachable buffer satisfies: only bytes 0..127 other than the
        newline are stored, the array bound is respected, and the count passes
        the bound only once the array is full. */
    predicate Valid()
    {
      && |data| <= BufferSize
      && (overrun > 0 ==> |data| == BufferSize)
      && (forall i :: 0 <= i < |data| ==> 0 <= data[i] < 128 && data[i] != NewLine)
      && (complete ==> Count() > 0)
    }
  }

  function EmptyBuffer(): (b: LineBuffer)
    ensures b.Valid() && b.Count() == 0 && !b.complete
  {
    LineBuffer([], 0, false)
  }

  /** The outcome of draining the input once: the new buffer, how many values
      were read from the stream, and whether the read ended with the
      out-of-bounds exception. */
  datatype ReadOutcome = ReadOutcome(buffer: LineBuffer, consumed: nat, overflowed: bool)

  /** Index of the first value that ends a read: a newline or a negative signed
      byte (end of stream or any byte >= 0x80); |input| when there is none. */
  function FirstStop(input: seq<ReadValue>): (k: nat)
    ensures k <= |input|
    ensures forall i :: 0 <= i < k ==> 0 <= input[i] < 128 && input[i] != NewLine
    ensures k < |input| ==> SignedByte(input[k]) < 0 || input[k] == NewLine
  {
    if |input| == 0 then 0
    else if SignedByte(input[0]) < 0 || input[0] == NewLine then 0
    else 1 + FirstStop(input[1..])
  }

  /** `readLineFromInput`: does nothing while a completed line is pending;
      otherwise appends bytes until a newline (which completes the line only if
      something is buffered) or a negative signed byte (dropped). `input` is
      what the stream delivers during the call. */
  function ReadLineFromInput(buf: LineBuffer, input: seq<ReadValue>): (r: ReadOutcome)
    requires buf.Valid()
    ensures r.buffer.Valid()
    ensures buf.complete ==> r == ReadOutcome(buf, 0, false)
    ensures r.consumed <= |input|
    decreases |input|
  {
    if buf.complete || |input| == 0 then ReadOutcome(buf, 0, false)
    else
      var v := input[0];
      if SignedByte(v) < 0 then ReadOutcome(buf, 1, false)
      else if v == NewLine then ReadOutcome(buf.(complete := buf.Count() > 0), 1, false)
      else if buf.Count() < BufferSize then
        var rest := ReadLineFromInput(buf.(data := buf.data + [v]), input[1..]);
        rest.(consumed := rest.consumed + 1)
      else ReadOutcome(buf.(overrun := buf.overrun + 1), 1, true)
  }

  /** A line that fits is appended whole: the bytes up to the first stop value
      are stored, the stop value is consumed, and the line is complete exactly
      when the stop was a newline and something is buffered. */
  lemma {:induction false} ReadLineFits(buf: LineBuffer, input: seq<ReadValue>)
    requires buf.Valid() && !buf.complete
    requires FirstStop(input) == 0 || buf.Count() + FirstStop(input) <= BufferSize
    ensures var r := ReadLineFromInput(buf, input);
            var k := FirstStop(input);
            && !r.overflowed
            && r.buffer.data == buf.data + input[..k]
            && r.buffer.overrun == buf.overrun
            && r.consumed == (if k < |input| then k + 1 else |input|)
            && (r.buffer.complete <==> k < |input| && input[k] == NewLine && r.buffer.Count() > 0)
    decreases |input|
  {
    if |input| > 0 && SignedByte(input[0]) >= 0 && input[0] != NewLine {
      var v := input[0];
      var k := FirstStop(input[1..]);
      assert FirstStop(input) == k + 1;
      ReadLineFits(buf.(data := buf.data + [v]), input[1..]);
      assert buf.data + [v] + input[1..][..k] == buf.data + input[..k + 1];
    }
  }

  /** A line longer than the room left fills the array, and the next byte
      raises the out-of-bounds error after advancing the count. */
  lemma {:induction false} ReadLineOverflows(buf: LineBuffer, input: seq<ReadValue>)
    requires buf.Valid() && !buf.complete
    requires FirstStop(input) > 0 && buf.Count() + FirstStop(input) > BufferSize
    ensures var r := ReadLineFromInput(buf, input);
            && r.overflowed && !r.buffer.complete && r.buffer.overrun == buf.overrun + 1
            && |r.buffer.data| == BufferSize
            && r.buffer.data == (buf.data + input[..FirstStop(input)])[..BufferSize]
    decreases |input|
  {
    var v := input[0];
    if buf.Count() < BufferSize {
      var k := FirstStop(input[1..]);
      assert FirstStop(input) == k + 1;
      var buf' := buf.(data := buf.data + [v]);
      assert buf'.Count() == buf.Count() + 1;
      if k == 0 {
        assert false;
      }
      ReadLineOverflows(buf', input[1..]);
      assert buf.data + [v] + input[1..][..k] == buf.data + input[..k + 1];
    } else {
      assert |buf.data| == BufferSize;
      assert (buf.data + input[..FirstStop(input)])[..BufferSize] == buf.data;
    }
  }

  /** What `checkMessage` finds. `LineTooLong` is the count passing the array
      length, where `new String(data, 0, count)` throws. */
  datatype CheckResult = NoLine | Line(bytes: seq<Byte>) | LineTooLong

  /** `checkMessage`: takes a completed line and resets the buffer; otherwise
      reports nothing and leaves the buffer alone. */
  function CheckMessage(buf: LineBuffer): (r: (CheckResult, LineBuffer))
    requires buf.Valid()
    ensures r.1.Valid()
    ensures !buf.complete ==> r == (NoLine, buf)
    ensures buf.complete && buf.overrun == 0 ==> r == (Line(buf.data), EmptyBuffer())
    ensures buf.complete && buf.overrun > 0 ==> r == (LineTooLong, buf)
    ensures r.0.Line? ==> 0 < |r.0.bytes| <= BufferSize && NewLine !in r.0.bytes
  {
    if !buf.complete then (NoLine, buf)
    else if buf.overrun > 0 then (LineTooLong, buf)
    else (Line(buf.data), EmptyBuffer())
  }

  /** `sendMessage`: the command text followed by one newline. */
  function Frame(command: string): (frame: string)
    ensures |frame| == |command| + 1 && frame[..|command|] == command && frame[|command|] == '\n'
  {
    command + "\n"
  }

  /** Decoding the stored bytes; all of them are ASCII, so each byte is one character. */
  function Decode(bytes: seq<Byte>): (s: string)
    requires forall i :: 0 <= i < |bytes| ==> bytes[i] < 128
    ensures |s| == |bytes|
    ensures forall i :: 0 <= i < |bytes| ==> s[i] as int == bytes[i]
  {
    seq(|bytes|, i requires 0 <= i < |bytes| => bytes[i] as char)
  }

  /** The receive side between checks: the line buffer, and the values the
      stream holds that the listener has not read yet (a read stops at the end
      of a line and leaves the rest in the stream). */
  datatype Channel = Channel(buffer: LineBuffer, unread: seq<ReadValue>)

  /** The channel of a freshly opened port. */
  function OpenChannel(): (ch: Channel)
    ensures ch.buffer.Valid() && ch.buffer.Count() == 0 && !ch.buffer.complete && ch.unread == []
  {
    Channel(EmptyBuffer(), [])
  }

  /** One round of the waiting loop: the listener runs on everything the
      stream holds, then `checkMessage` looks at the buffer. */
  function Round(ch: Channel, arrived: seq<ReadValue>): (r: (CheckResult, Channel))
    requires ch.buffer.Valid()
    ensures r.1.buffer.Valid()
    // the stream is read in order: what is left is a suffix of what was there
    ensures var input := ch.unread + arrived;
            |r.1.unread| <= |input| && r.1.unread == input[|input| - |r.1.unread|..]
    // a line already pending is taken without reading anything
    ensures ch.buffer.complete && ch.buffer.overrun == 0 ==>
              r == (Line(ch.buffer.data), Channel(EmptyBuffer(), ch.unread + arrived))
    ensures r.0.Line? ==> 0 < |r.0.bytes| <= BufferSize && NewLine !in r.0.bytes
    ensures r.0.Line? ==> forall i :: 0 <= i < |r.0.bytes| ==> r.0.bytes[i] < 128
  {
    var input := ch.unread + arrived;
    var o := ReadLineFromInput(ch.buffer, input);
    var (found, buf') := CheckMessage(o.buffer);
    (found, Channel(buf', input[o.consumed..]))
  }

  /** One round of the waiting loop: the bytes arriving meanwhile, then the
      clock reading taken right after `checkMessage`. */
  datatype Poll = Poll(arrived: seq<ReadValue>, clock: int)

  /** The channel after the first n rounds. */
  function ChannelAt(ch: Channel, polls: seq<Poll>, n: nat): (r: Channel)
    requires ch.buffer.Valid() && n <= |polls|
    ensures r.buffer.Valid()
    decreases n
  {
    if n == 0 then ch else ChannelAt(Round(ch, polls[0].arrived).1, polls[1..], n - 1)
  }

  /** What the check of round j finds. */
  function FoundAt(ch: Channel, polls: seq<Poll>, j: nat): (found: CheckResult)
    requires ch.buffer.Valid() && j < |polls|
    ensures found.Line? ==> 0 < |found.bytes| && NewLine !in found.bytes
    ensures found.Line? ==> forall i :: 0 <= i < |found.bytes| ==> found.bytes[i] < 128
  {
    Round(ChannelAt(ch, polls, j), polls[j].arrived).0
  }

  /** How a `sendCommand` ends: an answer, the "Answer timeout expired" error, a
      runtime exception from an over-long line, or still waiting when the polls
      run out. */
  datatype Answer = Answered(text: string) | TimedOut | LineFault | Waiting

  /** The end of the waiting loop: the answer, the channel left for the next
      call, and how many checks were made. */
  datatype Wait = Wait(answer: Answer, channel: Channel, checks: nat)

  /** The clock stayed within the timeout for the first n checks. */
  predicate InTime(polls: seq<Poll>, start: int, timeout: int, n: nat)
    requires n <= |polls|
  {
    forall j :: 0 <= j < n ==> polls[j].clock - start <= timeout
  }

  /** How the waiting loop, started at clock `start`, ends on these polls: at
      the first check that finds something or whose clock is past the timeout,
      every earlier check having found nothing in time. The answer is the line
      of that check, given only within the timeout; a check past the timeout
      raises the timeout error even if it has just taken a line, which is then
      lost; an over-long line fails before the clock is looked at. The channel
      left is the one after exactly those checks. */
  predicate LoopEnd(ch: Channel, start: int, timeout: int, polls: seq<Poll>, w: Wait)
    requires ch.buffer.Valid()
  {
    && w.checks <= |polls|
    && w.channel == ChannelAt(ch, polls, w.checks)
    && (forall j :: 0 <= j < w.checks - 1 ==> FoundAt(ch, polls, j).NoLine?)
    && (!w.answer.Waiting? ==> 0 < w.checks && InTime(polls, start, timeout, w.checks - 1))
    && (w.answer.Answered? ==>
          && InTime(polls, start, timeout, w.checks)
          && FoundAt(ch, polls, w.checks - 1).Line?
          && w.answer.text == Decode(FoundAt(ch, polls, w.checks - 1).bytes))
    && (w.answer.LineFault? ==> FoundAt(ch, polls, w.checks - 1).LineTooLong?)
    && (w.answer.TimedOut? ==>
          polls[w.checks - 1].clock - start > timeout && !FoundAt(ch, polls, w.checks - 1).LineTooLong?)
    && (w.answer.Waiting? ==>
          && w.checks == |polls| && InTime(polls, start, timeout, |polls|)
          && (forall j :: 0 <= j < |polls| ==> FoundAt(ch, polls, j).NoLine?))
  }

  /** The waiting loop of `sendCommand`: it polls until a check finds a line,
      an over-long line, or a clock past the timeout. */
  function AwaitAnswer(ch: Channel, start: int, timeout: int, polls: seq<Poll>): (r: Wait)
    requires ch.buffer.Valid()
    ensures LoopEnd(ch, start, timeout, polls, r)
    ensures r.answer.Answered? ==> NewLine as char !in r.answer.text && |r.answer.text| > 0
    decreases |polls|
  {
    if |polls| == 0 then Wait(Waiting, ch, 0)
    else
      var (found, ch') := Round(ch, polls[0].arrived);
      if found.LineTooLong? then Wait(LineFault, ch', 1)
      else if polls[0].clock - start > timeout then Wait(TimedOut, ch', 1)
      else if found.Line? then Wait(Answered(Decode(found.bytes)), ch', 1)
      else
        var r := AwaitAnswer(ch', start, timeout, polls[1..]);
        LoopEndStep(ch, start, timeout, polls, r);
        r.(checks := r.checks + 1)
  }

  /** A loop that goes past an empty, in-time first round ends as the loop on
      the remaining polls does, one check later. */
  lemma LoopEndStep(ch: Channel, start: int, timeout: int, polls: seq<Poll>, r: Wait)
    requires ch.buffer.Valid() && 0 < |polls|
    requires Round(ch, polls[0].arrived).0.NoLine? && polls[0].clock - start <= timeout
    requires LoopEnd(Round(ch, polls[0].arrived).1, start, timeout, polls[1..], r)
    ensures LoopEnd(ch, start, timeout, polls, r.(checks := r.checks + 1))
  {
    var ch' := Round(ch, polls[0].arrived).1;
    assert ChannelAt(ch, polls, r.checks + 1) == ChannelAt(ch', polls[1..], r.checks);
    InTimeShift(polls, start, timeout, r.checks);
    NoLineShift(ch, polls, if r.answer.Waiting? then |polls| else r.checks);
    if r.checks > 0 {
      InTimeShift(polls, start, timeout, r.checks - 1);
      FoundAtStep(ch, polls, r.checks - 1);
    }
  }

  /** When the first round finds nothing and the run after it finds nothing in
      its first n - 1 rounds, the whole run finds nothing in its first n. */
  lemma NoLineShift(ch: Channel, polls: seq<Poll>, n: nat)
    requires ch.buffer.Valid() && 0 < n <= |polls|
    requires Round(ch, polls[0].arrived).0.NoLine?
    requires forall j :: 0 <= j < n - 1 ==> FoundAt(Round(ch, polls[0].arrived).1, polls[1..], j).NoLine?
    ensures forall j :: 0 <= j < n ==> FoundAt(ch, polls, j).NoLine?
  {
    FoundAtShift(ch, polls);
    assert FoundAt(ch, polls, 0).NoLine?;
    forall j | 0 < j < n ensures FoundAt(ch, polls, j).NoLine? {
      assert FoundAt(ch, polls, (j - 1) + 1) == FoundAt(Round(ch, polls[0].arrived).1, polls[1..], j - 1);
    }
  }

  /** The first n + 1 checks are in time when the first is and the n after it are. */
  lemma InTimeShift(polls: seq<Poll>, start: int, timeout: int, n: nat)
    requires n < |polls|
    ensures InTime(polls, start, timeout, n + 1) <==>
              polls[0].clock - start <= timeout && InTime(polls[1..], start, timeout, n)
  {
    if polls[0].clock - start <= timeout && InTime(polls[1..], start, timeout, n) {
      forall j | 0 < j < n + 1 ensures polls[j].clock - start <= timeout {
        assert polls[j] == polls[1..][j - 1];
      }
    }
  }

  /** Round j + 1 of a run is round j of the run that starts after round 0. */
  lemma FoundAtStep(ch: Channel, polls: seq<Poll>, j: nat)
    requires ch.buffer.Valid() && j + 1 < |polls|
    ensures FoundAt(ch, polls, j + 1) == FoundAt(Round(ch, polls[0].arrived).1, polls[1..], j)
    ensures ChannelAt(ch, polls, j + 1) == ChannelAt(Round(ch, polls[0].arrived).1, polls[1..], j)
  {
    assert polls[j + 1] == polls[1..][j];
  }

  /** Round j + 1 of a run is round j of the run that starts after round 0. */
  lemma FoundAtShift(ch: Channel, polls: seq<Poll>)
    requires ch.buffer.Valid() && 0 < |polls|
    ensures forall j :: 0 <= j < |polls| - 1 ==>
              FoundAt(ch, polls, j + 1) == FoundAt(Round(ch, polls[0].arrived).1, polls[1..], j)
  {
    forall j | 0 <= j < |polls| - 1
      ensures FoundAt(ch, polls, j + 1) == FoundAt(Round(ch, polls[0].arrived).1, polls[1..], j)
    {
      assert polls[j + 1] == polls[1..][j];
    }
  }

  /** `sendCommand`: writes the framed command, then waits for the answer. The
      first component is what goes on the wire. */
  function SendCommand(ch: Channel, command: string, start: int, timeout: int, polls: seq<Poll>)
    : (r: (string, Wait))
    requires ch.buffer.Valid()
    ensures r.0 == Frame(command)
    ensures r.1.checks <= |polls| && r.1.channel == ChannelAt(ch, polls, r.1.checks)
    ensures r.1.answer.Answered? ==>
              && 0 < r.1.checks && InTime(polls, start, timeout, r.1.checks)
              && (forall j :: 0 <= j < r.1.checks - 1 ==> FoundAt(ch, polls, j).NoLine?)
              && FoundAt(ch, polls, r.1.checks - 1).Line?
              && r.1.answer.text == Decode(FoundAt(ch, polls, r.1.checks - 1).bytes)
    ensures r.1.answer.Answered? ==> '\n' !in r.1.answer.text
  {
    (Frame(command), AwaitAnswer(ch, start, timeout, polls))
  }

  /** A whole line at the head of the stream, with nothing buffered, is taken
      by one round, and whatever follows it stays unread. */
  lemma RoundTakesLine(unread: seq<ReadValue>, arrived: seq<ReadValue>, reply: seq<Byte>, rest: seq<ReadValue>)
    requires 0 < |reply| <= BufferSize
    requires forall i :: 0 <= i < |reply| ==> 0 <= reply[i] < 128 && reply[i] != NewLine
    requires unread + arrived == reply + [NewLine] + rest
    ensures Round(Channel(EmptyBuffer(), unread), arrived) == (Line(reply), Channel(EmptyBuffer(), rest))
  {
    var input := unread + arrived;
    FirstStopAt(input, |reply|);
    assert input[..|reply|] == reply;
    ReadLineFits(EmptyBuffer(), input);
    var o := ReadLineFromInput(EmptyBuffer(), input);
    assert o.buffer == LineBuffer(reply, 0, true) && o.consumed == |reply| + 1;
    assert CheckMessage(o.buffer) == (Line(reply), EmptyBuffer());
    assert input[|reply| + 1..] == rest;
  }

  /** A reply line that arrives whole before the first check, within the
      timeout, is returned exactly (without its newline), and nothing is left. */
  lemma ReplyRoundTrip(reply: seq<Byte>, start: int, timeout: int, clock: int)
    requires 0 < |reply| <= BufferSize
    requires forall i :: 0 <= i < |reply| ==> 0 <= reply[i] < 128 && reply[i] != NewLine
    requires clock - start <= timeout
    ensures var input: seq<ReadValue> := reply + [NewLine];
            AwaitAnswer(OpenChannel(), start, timeout, [Poll(input, clock)]) ==
              Wait(Answered(Decode(reply)), OpenChannel(), 1)
  {
    var input: seq<ReadValue> := reply + [NewLine];
    RoundTakesLine([], input, reply, []);
  }

  /** Two reply lines that arrive together are answered one per call: the
      first call returns the first line and leaves the second unread, and the
      next call returns the second without anything new arriving. */
  lemma BackToBackReplies()
    ensures var input: seq<ReadValue> := [79, 75, NewLine, 69, NewLine];
            var w1 := AwaitAnswer(OpenChannel(), 0, 1000, [Poll(input, 10)]);
            var w2 := AwaitAnswer(w1.channel, 0, 1000, [Poll([], 20)]);
            && w1 == Wait(Answered("OK"), Channel(EmptyBuffer(), [69, NewLine]), 1)
            && w2 == Wait(Answered("E"), OpenChannel(), 1)
  {
    var input: seq<ReadValue> := [79, 75, NewLine, 69, NewLine];
    RoundTakesLine([], input, [79, 75], [69, NewLine]);
    assert Decode([79, 75]) == "OK";
    RoundTakesLine([69, NewLine], [], [69], []);
    assert Decode([69]) == "E";
  }

  /** A late reply shifts the answers: when the reply to an earlier command
      is still pending, the next `sendCommand` returns that stale line and
      leaves its own reply unread, and the call after it gets that reply. */
  lemma LateReplyShiftsAnswers()
    ensures var pending := Channel(LineBuffer([65], 0, true), []);
            var reply: seq<ReadValue> := [52, 50, NewLine];
            var (frame1, w1) := SendCommand(pending, "voltage", 0, 1000, [Poll(reply, 10)]);
            var (frame2, w2) := SendCommand(w1.channel, "temperature", 2000, 1000, [Poll([], 2010)]);
            && w1 == Wait(Answered("A"), Channel(EmptyBuffer(), reply), 1)
            && w2 == Wait(Answered("42"), OpenChannel(), 1)
  {
    var reply: seq<ReadValue> := [52, 50, NewLine];
    assert Decode([65]) == "A";
    assert reply + [] == reply;
    RoundTakesLine(reply, [], [52, 50], []);
    assert Decode([52, 50]) == "42";
  }

  /** The stop index is the first position holding a stop value. */
  lemma FirstStopAt(input: seq<ReadValue>, k: nat)
    requires k < |input|
    requires forall i :: 0 <= i < k ==> 0 <= input[i] < 128 && input[i] != NewLine
    requires input[k] == NewLine
    ensures FirstStop(input) == k
  {
    var f := FirstStop(input);
    if f < k {
      assert false;
    }
  }

  /** A line completed while a previous one is still pending is not read at all. */
  lemma PendingLineBlocksReading(buf: LineBuffer, input: seq<ReadValue>)
    requires buf.Valid() && buf.complete
    ensures ReadLineFromInput(buf, input).buffer == buf
    ensures ReadLineFromInput(buf, input).consumed == 0
  {
  }

  /** An empty line is swallowed: a newline with nothing buffered completes nothing. */
  lemma EmptyLineSwallowed(rest: seq<ReadValue>)
    ensures var r := ReadLineFromInput(EmptyBuffer(), [NewLine as ReadValue] + rest);
            !r.buffer.complete && r.buffer.Count() == 0 && r.consumed == 1
  {
  }
}
