/** Query sequences: a list of firmware commands sent one after another over
    `sendCommand`, each reply kept as text, parsed as an `int`, or parsed as a
    date. The first failure ends the sequence, as the exception does in Java. */
module Exchange {
  import opened Base
  import opened JavaInt
  import opened Decimal

  /** How a reply is read: kept as text, Integer.parseInt, or the date format
      of the firmware's compile date (an unparseable date becomes null). */
  datatype Kind = TextReply | NumberReply | DateReply

  datatype Query = Query(command: string, kind: Kind)

  /** A reply as stored. A date is a point in time in milliseconds, or None. */
  datatype Value = Text(text: string) | Number(n: Int32) | Stamp(date: Option<int>)

  /** Why a sequence stopped early: a reply did not arrive in time
      ("Answer timeout expired"), or a numeric reply did not parse
      (NumberFormatException). */
  datatype Failure = Timeout | NotANumber(text: string)

  /** The commands sent, the values stored, and the failure, if any. */
  datatype Transcript = Transcript(sent: seq<string>, values: seq<Value>, failure: Option<Failure>)

  /** The value a reply gives under a kind, or None for a number that does not parse. */
  function Read(kind: Kind, reply: string, parseDate: string -> Option<int>): (v: Option<Value>)
    ensures v.None? <==> kind == NumberReply && ParseInt(reply).None?
    ensures v.Some? && kind == TextReply ==> v.value == Text(reply)
    ensures v.Some? && kind == NumberReply ==> v.value == Number(ParseInt(reply).value)
    ensures v.Some? && kind == DateReply ==> v.value == Stamp(parseDate(reply))
  {
    match kind
    case TextReply => Some(Text(reply))
    case NumberReply =>
      (match ParseInt(reply)
       case Some(n) => Some(Number(n))
       case None => None)
    case DateReply => Some(Stamp(parseDate(reply)))
  }

  /** The i-th reply that arrives; None when it does not arrive in time. */
  function Answer(answers: seq<Option<string>>, i: nat): Option<string>
  {
    if i < |answers| then answers[i] else None
  }

  /** Sends the queries of `plan` in order; `answers[i]` is what the i-th
      `sendCommand` returns. */
  function Ask(plan: seq<Query>, answers: seq<Option<string>>, parseDate: string -> Option<int>): (t: Transcript)
    // the commands go out in plan order, and none after a failure
    ensures |t.sent| <= |plan|
    ensures forall i :: 0 <= i < |t.sent| ==> t.sent[i] == plan[i].command
    ensures t.failure.None? ==> |t.sent| == |plan| && |t.values| == |plan|
    ensures t.failure.Some? ==> 0 < |t.sent| && |t.values| == |t.sent| - 1
    decreases |plan|
  {
    if |plan| == 0 then Transcript([], [], None)
    else if Answer(answers, 0).None? then Transcript([plan[0].command], [], Some(Timeout))
    else
      var reply := Answer(answers, 0).value;
      var v := Read(plan[0].kind, reply, parseDate);
      if v.None? then Transcript([plan[0].command], [], Some(NotANumber(reply)))
      else
        var rest := Ask(plan[1..], if |answers| > 0 then answers[1..] else [], parseDate);
        Transcript([plan[0].command] + rest.sent, [v.value] + rest.values, rest.failure)
  }

  /** Each stored value is its reply read as its query says. */
  lemma AskReads(plan: seq<Query>, answers: seq<Option<string>>, parseDate: string -> Option<int>)
    ensures var t := Ask(plan, answers, parseDate);
            forall i :: 0 <= i < |t.values| ==>
              Answer(answers, i).Some? && Read(plan[i].kind, Answer(answers, i).value, parseDate) == Some(t.values[i])
  {
    var t := Ask(plan, answers, parseDate);
    forall i | 0 <= i < |t.values|
      ensures Answer(answers, i).Some? && Read(plan[i].kind, Answer(answers, i).value, parseDate) == Some(t.values[i])
    {
      AskReadsAt(plan, answers, parseDate, i);
    }
  }

  /** The i-th stored value is the i-th reply, read as the i-th query says. */
  lemma {:induction false} AskReadsAt(plan: seq<Query>, answers: seq<Option<string>>, parseDate: string -> Option<int>, i: nat)
    requires i < |Ask(plan, answers, parseDate).values|
    ensures i < |plan| && Answer(answers, i).Some?
    ensures Read(plan[i].kind, Answer(answers, i).value, parseDate) == Some(Ask(plan, answers, parseDate).values[i])
    decreases |plan|
  {
    if i > 0 {
      var tail := if |answers| > 0 then answers[1..] else [];
      var rest := Ask(plan[1..], tail, parseDate);
      assert Ask(plan, answers, parseDate).values[i] == rest.values[i - 1];
      AskReadsAt(plan[1..], tail, parseDate, i - 1);
      assert plan[i] == plan[1..][i - 1];
      assert Answer(tail, i - 1) == Answer(answers, i);
    }
  }

  /** A failure is the last reply sent for missing, or unparseable as a number. */
  lemma {:induction false} AskFails(plan: seq<Query>, answers: seq<Option<string>>, parseDate: string -> Option<int>)
    ensures var t := Ask(plan, answers, parseDate);
            t.failure == Some(Timeout) ==> Answer(answers, |t.sent| - 1).None?
    ensures var t := Ask(plan, answers, parseDate);
            t.failure.Some? && t.failure.value.NotANumber? ==>
              Answer(answers, |t.sent| - 1) == Some(t.failure.value.text) &&
              plan[|t.sent| - 1].kind == NumberReply && ParseInt(t.failure.value.text).None?
    decreases |plan|
  {
    var t := Ask(plan, answers, parseDate);
    if |plan| > 0 && Answer(answers, 0).Some? && Read(plan[0].kind, Answer(answers, 0).value, parseDate).Some? {
      var tail := if |answers| > 0 then answers[1..] else [];
      var rest := Ask(plan[1..], tail, parseDate);
      AskFails(plan[1..], tail, parseDate);
      if t.failure.Some? {
        assert |t.sent| == |rest.sent| + 1;
        AnswerShift(answers, tail);
        assert Answer(tail, |rest.sent| - 1) == Answer(answers, |t.sent| - 1);
        assert plan[|t.sent| - 1] == plan[1..][|rest.sent| - 1];
      }
    }
  }

  /** Dropping the first reply shifts the others down by one. */
  lemma AnswerShift(answers: seq<Option<string>>, tail: seq<Option<string>>)
    requires tail == if |answers| > 0 then answers[1..] else []
    ensures forall i: nat :: Answer(tail, i) == Answer(answers, i + 1)
  {
  }

  /** The i-th value of a completed sequence is the i-th reply, read. */
  lemma ReplyAt(plan: seq<Query>, answers: seq<Option<string>>, parseDate: string -> Option<int>, i: nat)
    requires Ask(plan, answers, parseDate).failure.None? && i < |plan|
    ensures Answer(answers, i).Some?
    ensures Read(plan[i].kind, Answer(answers, i).value, parseDate) == Some(Ask(plan, answers, parseDate).values[i])
  {
    AskReadsAt(plan, answers, parseDate, i);
  }

  /** A text query of a completed sequence stores its reply. */
  lemma TextAt(plan: seq<Query>, answers: seq<Option<string>>, parseDate: string -> Option<int>, i: nat)
    requires Ask(plan, answers, parseDate).failure.None? && i < |plan| && plan[i].kind == TextReply
    ensures Answer(answers, i).Some? && Ask(plan, answers, parseDate).values[i] == Text(Answer(answers, i).value)
  {
    ReplyAt(plan, answers, parseDate, i);
  }

  /** A numeric query of a completed sequence stores its parsed reply. */
  lemma NumberAt(plan: seq<Query>, answers: seq<Option<string>>, parseDate: string -> Option<int>, i: nat)
    requires Ask(plan, answers, parseDate).failure.None? && i < |plan| && plan[i].kind == NumberReply
    ensures Answer(answers, i).Some? && Ask(plan, answers, parseDate).values[i].Number?
    ensures ParseInt(Answer(answers, i).value) == Some(Ask(plan, answers, parseDate).values[i].n as int)
  {
    ReplyAt(plan, answers, parseDate, i);
  }

  /** A date query of a completed sequence stores its reply's date, or None. */
  lemma DateAt(plan: seq<Query>, answers: seq<Option<string>>, parseDate: string -> Option<int>, i: nat)
    requires Ask(plan, answers, parseDate).failure.None? && i < |plan| && plan[i].kind == DateReply
    ensures Answer(answers, i).Some? && Ask(plan, answers, parseDate).values[i] == Stamp(parseDate(Answer(answers, i).value))
  {
    ReplyAt(plan, answers, parseDate, i);
  }

  /** A plan of numeric queries stores the parsed replies. */
  lemma AskNumbers(plan: seq<Query>, answers: seq<Option<string>>, parseDate: string -> Option<int>)
    requires forall i :: 0 <= i < |plan| ==> plan[i].kind == NumberReply
    ensures var t := Ask(plan, answers, parseDate);
            forall i :: 0 <= i < |t.values| ==>
              t.values[i].Number? && Answer(answers, i).Some? &&
              ParseInt(Answer(answers, i).value) == Some(t.values[i].n as int)
  {
    AskReads(plan, answers, parseDate);
  }

  /** The date reading of a plan without dates. */
  function NoDate(text: string): (d: Option<int>)
    ensures d.None?
  {
    None
  }

  /** Only the queries whose replies all arrive and parse complete the sequence. */
  lemma {:induction false} AskCompletes(plan: seq<Query>, answers: seq<Option<string>>, parseDate: string -> Option<int>)
    ensures Ask(plan, answers, parseDate).failure.None? <==>
              forall i :: 0 <= i < |plan| ==>
                Answer(answers, i).Some? && Read(plan[i].kind, Answer(answers, i).value, parseDate).Some?
    decreases |plan|
  {
    if |plan| > 0 {
      var tail := if |answers| > 0 then answers[1..] else [];
      AskCompletes(plan[1..], tail, parseDate);
      AnswerShift(answers, tail);
      var t := Ask(plan, answers, parseDate);
      if t.failure.None? {
        assert Answer(answers, 0).Some? && Read(plan[0].kind, Answer(answers, 0).value, parseDate).Some?;
        assert Ask(plan[1..], tail, parseDate).failure.None?;
        forall i | 1 <= i < |plan|
          ensures Answer(answers, i).Some? && Read(plan[i].kind, Answer(answers, i).value, parseDate).Some?
        {
          assert plan[1..][i - 1] == plan[i];
          assert Answer(tail, i - 1) == Answer(answers, i);
        }
      } else if Answer(answers, 0).Some? && Read(plan[0].kind, Answer(answers, 0).value, parseDate).Some? {
        assert Ask(plan[1..], tail, parseDate).failure.Some?;
        var i :| 0 <= i < |plan[1..]| &&
                 !(Answer(tail, i).Some? && Read(plan[1..][i].kind, Answer(tail, i).value, parseDate).Some?);
        assert plan[1..][i] == plan[i + 1];
        assert Answer(tail, i) == Answer(answers, i + 1);
      }
    }
  }
}

/** The battery descriptor of package net.ant.rc.serial: the last measured
    voltage in millivolts and the charge level derived from it. */
module BatteryGauge {
  import opened JavaInt

  const MinVoltage: int := 9000
  const MaxVoltage: int := 11100

  datatype Battery = Battery(currentVoltage: Int32)

  /** The constructor: no voltage measured yet. */
  function NewBattery(): (b: Battery)
    ensures GetCurrentVoltage(b) == 0
  {
    Battery(0)
  }

  function SetVoltage(b: Battery, v: Int32): (r: Battery)
    ensures GetCurrentVoltage(r) == v
  {
    Battery(v)
  }

  function GetCurrentVoltage(b: Battery): Int32
  {
    b.currentVoltage
  }

  /** The widest distance from 9000 mV for which 100 * (v - 9000) fits in an `int`. */
  const LevelRange: int := 21474836

  /** `checkVoltageLevel()`: 100 * (v - 9000) / 2100 in Java `int` arithmetic,
      truncating toward zero and not clamped to 0..100. */
  function CheckVoltageLevel(b: Battery): (level: Int32)
    ensures Abs(b.currentVoltage - MinVoltage) <= LevelRange ==>
              level == Div(100 * (b.currentVoltage - MinVoltage), MaxVoltage - MinVoltage)
    ensures MinVoltage <= b.currentVoltage <= MaxVoltage ==> 0 <= level <= 100
  {
    var diff := Wrap(b.currentVoltage - MinVoltage);
    LevelWithinCalibration(b.currentVoltage);
    Div(Mul(100, diff), MaxVoltage - MinVoltage)
  }

  lemma LevelWithinCalibration(v: int)
    ensures MinVoltage <= v <= MaxVoltage ==> 0 <= Div(100 * (v - MinVoltage), MaxVoltage - MinVoltage) <= 100
  {
    if MinVoltage <= v <= MaxVoltage {
      DivMonotone(100 * (v - MinVoltage), 100 * (MaxVoltage - MinVoltage), MaxVoltage - MinVoltage);
      DivMonotone(0, 100 * (v - MinVoltage), MaxVoltage - MinVoltage);
    }
  }

  /** `checkVoltageLevel(v)`: stores the voltage, then reports the level for it. */
  function CheckVoltageLevelOf(b: Battery, v: Int32): (r: (Battery, Int32))
    ensures GetCurrentVoltage(r.0) == v
    ensures r.1 == CheckVoltageLevel(r.0)
  {
    var b' := SetVoltage(b, v);
    (b', CheckVoltageLevel(b'))
  }

  /** The calibration points, and no clamping outside them. */
  lemma LevelCalibration()
    ensures CheckVoltageLevel(Battery(9000)) == 0
    ensures CheckVoltageLevel(Battery(11100)) == 100
    ensures CheckVoltageLevel(Battery(8000)) == -47
    ensures CheckVoltageLevel(Battery(12000)) == 142
  {
    assert Div(100 * -1000, 2100) == -47;
    assert Div(100 * 3000, 2100) == 142;
  }

  /** A higher voltage never shows a lower level (within the range where the
      product does not wrap). */
  lemma LevelMonotone(v: Int32, v': Int32)
    requires v <= v'
    requires Abs(v - MinVoltage) <= LevelRange && Abs(v' - MinVoltage) <= LevelRange
    ensures CheckVoltageLevel(Battery(v)) <= CheckVoltageLevel(Battery(v'))
  {
    DivMonotone(100 * (v - MinVoltage), 100 * (v' - MinVoltage), MaxVoltage - MinVoltage);
  }
}

/** The sensor polling of the older driver base class (net.ant.rc.serial
    SerialDriver): at most one refresh per period, asking for the voltage and
    then the temperature. */
module SensorRefresh {
  import opened Base
  import opened JavaInt
  import opened Decimal
  import opened Exchange
  import opened BatteryGauge

  /** `sensorLastTime`, the battery, and `lastTemperature`. */
  datatype Sensors = Sensors(lastTime: int, battery: Battery, temperature: Int32)

  function Initial(): (s: Sensors)
    ensures s.lastTime == 0 && ChipVoltage(s) == 0 && ChipTemperature(s) == 0
  {
    Sensors(0, NewBattery(), 0)
  }

  const Plan: seq<Query> := [Query("voltage", NumberReply), Query("temperature", NumberReply)]

  /** `getChipParameters` at clock `now`, with the replies that arrive. Past the
      period, the slot is taken before anything is sent; the voltage is stored
      once parsed, the temperature after it. */
  function GetChipParameters(s: Sensors, period: int, now: int, answers: seq<Option<string>>): (r: (Sensors, Transcript))
    ensures now - s.lastTime > period ==> r.0.lastTime == now && r.1 == Ask(Plan, answers, NoDate)
    ensures now - s.lastTime <= period ==> r.0 == s && r.1.sent == []
    ensures |r.1.values| >= 1 ==>
              Answer(answers, 0).Some? && ParseInt(Answer(answers, 0).value) == Some(ChipVoltage(r.0) as int)
    ensures |r.1.values| < 1 ==> ChipVoltage(r.0) == ChipVoltage(s)
    ensures |r.1.values| >= 2 ==>
              Answer(answers, 1).Some? && ParseInt(Answer(answers, 1).value) == Some(ChipTemperature(r.0) as int)
    ensures |r.1.values| < 2 ==> ChipTemperature(r.0) == ChipTemperature(s)
  {
    if now - s.lastTime > period then
      var t := Ask(Plan, answers, NoDate);
      AskNumbers(Plan, answers, NoDate);
      var s1 := s.(lastTime := now);
      var s2 := if |t.values| >= 1 then s1.(battery := SetVoltage(s1.battery, t.values[0].n)) else s1;
      var s3 := if |t.values| >= 2 then s2.(temperature := t.values[1].n) else s2;
      (s3, t)
    else (s, Transcript([], [], None))
  }

  function ChipVoltage(s: Sensors): Int32
  {
    GetCurrentVoltage(s.battery)
  }

  function ChipTemperature(s: Sensors): Int32
  {
    s.temperature
  }

  /** One call of `getChipParameters`: its clock reading and the replies. */
  datatype Call = Call(now: int, answers: seq<Option<string>>)

  /** Runs a series of calls; the second component lists the clock readings of
      the calls that sent commands. */
  function Poll(s: Sensors, period: int, calls: seq<Call>): (r: (Sensors, seq<int>))
    decreases |calls|
  {
    if |calls| == 0 then (s, [])
    else
      var (s1, t) := GetChipParameters(s, period, calls[0].now, calls[0].answers);
      var (s2, times) := Poll(s1, period, calls[1..]);
      (s2, if |t.sent| > 0 then [calls[0].now] + times else times)
  }

  /** Whatever the clock readings and the replies, two calls that send are
      more than a period apart, failed sends included. */
  lemma {:induction false} RefreshesAreSpaced(s: Sensors, period: int, calls: seq<Call>)
    ensures Spaced(s.lastTime, Poll(s, period, calls).1, period)
    decreases |calls|
  {
    if |calls| > 0 {
      var (s1, t) := GetChipParameters(s, period, calls[0].now, calls[0].answers);
      RefreshesAreSpaced(s1, period, calls[1..]);
    }
  }

  /** The slot is used up even when the voltage reply never arrives. */
  lemma FailedRefreshUsesSlot(s: Sensors, period: int, now: int)
    requires now - s.lastTime > period
    ensures var (s', t) := GetChipParameters(s, period, now, []);
            s'.lastTime == now && t.sent == ["voltage"] && t.failure == Some(Timeout) &&
            ChipVoltage(s') == ChipVoltage(s)
  {
  }
}

/** The firmware state of the newer driver (ru.ant.rc.serial ArduinoState):
    identity queried once at construction, sensors refreshed on demand. */
module ArduinoState {
  import opened Base
  import opened JavaInt
  import opened Decimal
  import opened Exchange

  /** The identity fields, fixed at construction. */
  datatype Identity = Identity(
    firmwareVersion: string,
    hardwareType: string,
    totalRAM: Int32,
    sketchSize: Int32,
    totalFlash: Int32,
    buildGccVersion: string,
    buildLibcVersion: string,
    buildSourceName: string,
    buildDate: Option<int>,
    buildCpuTarget: string)

  const IdentityPlan: seq<Query> := [
    Query("Version", TextReply),
    Query("Hardware", TextReply),
    Query("TotalRAM", NumberReply),
    Query("SketchSize", NumberReply),
    Query("TotalFlash", NumberReply),
    Query("GccVersion", TextReply),
    Query("LibcVersion", TextReply),
    Query("SketchSourceName", TextReply),
    Query("CompileDate", DateReply),
    Query("GccCpuTarget", TextReply)]

  /** The kinds of the identity queries, in order. */
  lemma IdentityKinds()
    ensures |IdentityPlan| == 10
    ensures IdentityPlan[0].kind == TextReply && IdentityPlan[1].kind == TextReply
    ensures IdentityPlan[2].kind == NumberReply && IdentityPlan[3].kind == NumberReply
    ensures IdentityPlan[4].kind == NumberReply && IdentityPlan[5].kind == TextReply
    ensures IdentityPlan[6].kind == TextReply && IdentityPlan[7].kind == TextReply
    ensures IdentityPlan[8].kind == DateReply && IdentityPlan[9].kind == TextReply
  {
  }

  const RefreshPlan: seq<Query> := [
    Query("Voltage", NumberReply),
    Query("Temperature", NumberReply),
    Query("FreeRAM", NumberReply),
    Query("UpTime", NumberReply)]

  /** The identity values have the kinds the plan asks for. */
  predicate IdentityShaped(v: seq<Value>)
  {
    && |v| == 10
    && v[0].Text? && v[1].Text? && v[2].Number? && v[3].Number? && v[4].Number?
    && v[5].Text? && v[6].Text? && v[7].Text? && v[8].Stamp? && v[9].Text?
  }

  /** The identity built from the values, field by field in plan order. */
  function FromValues(v: seq<Value>): (id: Identity)
    requires IdentityShaped(v)
    ensures id.firmwareVersion == v[0].text && id.hardwareType == v[1].text
    ensures id.totalRAM == v[2].n && id.sketchSize == v[3].n && id.totalFlash == v[4].n
    ensures id.buildGccVersion == v[5].text && id.buildLibcVersion == v[6].text && id.buildSourceName == v[7].text
    ensures id.buildDate == v[8].date && id.buildCpuTarget == v[9].text
  {
    Identity(v[0].text, v[1].text, v[2].n, v[3].n, v[4].n, v[5].text, v[6].text, v[7].text, v[8].date, v[9].text)
  }

  /** The constructor's queries, in order: an identity when all of them
      succeed, with the compile date None when it does not parse. */
  function Construct(answers: seq<Option<string>>, parseDate: string -> Option<int>): (r: (Option<Identity>, Transcript))
    ensures r.1 == Ask(IdentityPlan, answers, parseDate)
    ensures r.0.Some? <==> r.1.failure.None?
    ensures r.0.Some? ==>
              && Answer(answers, 0) == Some(r.0.value.firmwareVersion)
              && Answer(answers, 1) == Some(r.0.value.hardwareType)
              && Answer(answers, 2).Some? && ParseInt(Answer(answers, 2).value) == Some(r.0.value.totalRAM as int)
              && Answer(answers, 3).Some? && ParseInt(Answer(answers, 3).value) == Some(r.0.value.sketchSize as int)
              && Answer(answers, 4).Some? && ParseInt(Answer(answers, 4).value) == Some(r.0.value.totalFlash as int)
              && Answer(answers, 5) == Some(r.0.value.buildGccVersion)
              && Answer(answers, 6) == Some(r.0.value.buildLibcVersion)
              && Answer(answers, 7) == Some(r.0.value.buildSourceName)
              && Answer(answers, 8).Some? && r.0.value.buildDate == parseDate(Answer(answers, 8).value)
              && Answer(answers, 9) == Some(r.0.value.buildCpuTarget)
  {
    var t := Ask(IdentityPlan, answers, parseDate);
    if t.failure.Some? then (None, t)
    else
      IdentityReplies(answers, parseDate);
      (Some(FromValues(t.values)), t)
  }

  /** What each stored identity value is, when every query succeeded. */
  lemma IdentityReplies(answers: seq<Option<string>>, parseDate: string -> Option<int>)
    requires Ask(IdentityPlan, answers, parseDate).failure.None?
    ensures var v := Ask(IdentityPlan, answers, parseDate).values;
            && IdentityShaped(v)
            && Answer(answers, 0).Some? && Answer(answers, 1).Some? && Answer(answers, 2).Some?
            && Answer(answers, 3).Some? && Answer(answers, 4).Some? && Answer(answers, 5).Some?
            && Answer(answers, 6).Some? && Answer(answers, 7).Some? && Answer(answers, 8).Some?
            && Answer(answers, 9).Some?
            && v[0] == Text(Answer(answers, 0).value) && v[1] == Text(Answer(answers, 1).value)
            && ParseInt(Answer(answers, 2).value) == Some(v[2].n as int)
            && ParseInt(Answer(answers, 3).value) == Some(v[3].n as int)
            && ParseInt(Answer(answers, 4).value) == Some(v[4].n as int)
            && v[5] == Text(Answer(answers, 5).value) && v[6] == Text(Answer(answers, 6).value)
            && v[7] == Text(Answer(answers, 7).value)
            && v[8] == Stamp(parseDate(Answer(answers, 8).value))
            && v[9] == Text(Answer(answers, 9).value)
  {
    IdentityKinds();
    IdentityTexts(answers, parseDate);
    IdentityNumbers(answers, parseDate);
    DateAt(IdentityPlan, answers, parseDate, 8);
  }

  lemma IdentityTexts(answers: seq<Option<string>>, parseDate: string -> Option<int>)
    requires Ask(IdentityPlan, answers, parseDate).failure.None?
    ensures var v := Ask(IdentityPlan, answers, parseDate).values;
            && Answer(answers, 0).Some? && Answer(answers, 1).Some? && Answer(answers, 5).Some?
            && Answer(answers, 6).Some? && Answer(answers, 7).Some? && Answer(answers, 9).Some?
            && v[0] == Text(Answer(answers, 0).value) && v[1] == Text(Answer(answers, 1).value)
            && v[5] == Text(Answer(answers, 5).value) && v[6] == Text(Answer(answers, 6).value)
            && v[7] == Text(Answer(answers, 7).value) && v[9] == Text(Answer(answers, 9).value)
  {
    IdentityKinds();
    TextAt(IdentityPlan, answers, parseDate, 0);
    TextAt(IdentityPlan, answers, parseDate, 1);
    TextAt(IdentityPlan, answers, parseDate, 5);
    TextAt(IdentityPlan, answers, parseDate, 6);
    TextAt(IdentityPlan, answers, parseDate, 7);
    TextAt(IdentityPlan, answers, parseDate, 9);
  }

  lemma IdentityNumbers(answers: seq<Option<string>>, parseDate: string -> Option<int>)
    requires Ask(IdentityPlan, answers, parseDate).failure.None?
    ensures var v := Ask(IdentityPlan, answers, parseDate).values;
            && Answer(answers, 2).Some? && Answer(answers, 3).Some? && Answer(answers, 4).Some?
            && v[2].Number? && v[3].Number? && v[4].Number?
            && ParseInt(Answer(answers, 2).value) == Some(v[2].n as int)
            && ParseInt(Answer(answers, 3).value) == Some(v[3].n as int)
            && ParseInt(Answer(answers, 4).value) == Some(v[4].n as int)
  {
    IdentityKinds();
    NumberAt(IdentityPlan, answers, parseDate, 2);
    NumberAt(IdentityPlan, answers, parseDate, 3);
    NumberAt(IdentityPlan, answers, parseDate, 4);
  }

  /** An unparseable compile date does not stop construction. */
  lemma BadDateStillConstructs(answers: seq<Option<string>>, parseDate: string -> Option<int>)
    requires Ask(IdentityPlan, answers, parseDate).failure.None?
    requires Answer(answers, 8).Some? && parseDate(Answer(answers, 8).value).None?
    ensures Construct(answers, parseDate).0.Some?
    ensures Construct(answers, parseDate).0.value.buildDate.None?
  {
    IdentityReplies(answers, parseDate);
  }

  /** The refreshable readings. `refreshLastTime` is the gate's reference time. */
  datatype Readings = Readings(refreshLastTime: int, voltage: Int32, temperature: Int32, freeRAM: Int32, upTime: Int32)

  function Initial(): (s: Readings)
    ensures s.refreshLastTime == 0
  {
    Readings(0, 0, 0, 0, 0)
  }

  /** Stores the values that were read, in plan order. */
  function Store(s: Readings, values: seq<Value>): (r: Readings)
    requires forall i :: 0 <= i < |values| ==> values[i].Number?
    ensures r.refreshLastTime == s.refreshLastTime
    ensures r.voltage == (if |values| > 0 then values[0].n else s.voltage)
    ensures r.temperature == (if |values| > 1 then values[1].n else s.temperature)
    ensures r.freeRAM == (if |values| > 2 then values[2].n else s.freeRAM)
    ensures r.upTime == (if |values| > 3 then values[3].n else s.upTime)
  {
    var s1 := if |values| > 0 then s.(voltage := values[0].n) else s;
    var s2 := if |values| > 1 then s1.(temperature := values[1].n) else s1;
    var s3 := if |values| > 2 then s2.(freeRAM := values[2].n) else s2;
    if |values| > 3 then s3.(upTime := values[3].n) else s3
  }

  /** `refresh` as written: the gate compares with `refreshLastTime`, which is
      never assigned. */
  function Refresh(s: Readings, period: int, now: int, answers: seq<Option<string>>): (r: (Readings, Transcript))
    ensures r.0.refreshLastTime == s.refreshLastTime
    ensures now - s.refreshLastTime > period ==> r.1 == Ask(RefreshPlan, answers, NoDate)
    ensures now - s.refreshLastTime <= period ==> r.0 == s && r.1.sent == []
    // each reading that parsed is stored; the later ones keep their old values
    ensures |r.1.values| > 0 ==> Answer(answers, 0).Some? && ParseInt(Answer(answers, 0).value) == Some(r.0.voltage as int)
    ensures |r.1.values| > 1 ==> Answer(answers, 1).Some? && ParseInt(Answer(answers, 1).value) == Some(r.0.temperature as int)
    ensures |r.1.values| > 2 ==> Answer(answers, 2).Some? && ParseInt(Answer(answers, 2).value) == Some(r.0.freeRAM as int)
    ensures |r.1.values| > 3 ==> Answer(answers, 3).Some? && ParseInt(Answer(answers, 3).value) == Some(r.0.upTime as int)
    ensures |r.1.values| <= 0 ==> r.0.voltage == s.voltage
    ensures |r.1.values| <= 1 ==> r.0.temperature == s.temperature
    ensures |r.1.values| <= 2 ==> r.0.freeRAM == s.freeRAM
    ensures |r.1.values| <= 3 ==> r.0.upTime == s.upTime
  {
    if now - s.refreshLastTime > period then
      var t := Ask(RefreshPlan, answers, NoDate);
      AskNumbers(RefreshPlan, answers, NoDate);
      (Store(s, t.values), t)
    else (s, Transcript([], [], None))
  }

  /** As written, two calls one millisecond apart both query the firmware once
      the clock has passed the period. */
  lemma RefreshNeverRateLimited(period: int, now: int, answers: seq<Option<string>>)
    requires now > period
    ensures var (s1, t1) := Refresh(Initial(), period, now, answers);
            var (_, t2) := Refresh(s1, period, now + 1, answers);
            |t1.sent| > 0 && |t2.sent| > 0
  {
  }

  /** `refresh` with the gate's reference time advanced when it fires, as the
      driver's sensor polling does: at most one refresh per period. */
  function RefreshCorrected(s: Readings, period: int, now: int, answers: seq<Option<string>>): (r: (Readings, Transcript))
    ensures now - s.refreshLastTime > period ==> r.0.refreshLastTime == now && |r.1.sent| > 0
    ensures now - s.refreshLastTime <= period ==> r.0 == s && r.1.sent == []
    ensures r.1 == Refresh(s, period, now, answers).1
  {
    var (s', t) := Refresh(s, period, now, answers);
    if |t.sent| > 0 then (s'.(refreshLastTime := now), t) else (s', t)
  }

  /** Runs the corrected refresh at the given clock readings; the second
      component lists the readings at which it queried the firmware. */
  function RunCorrected(s: Readings, period: int, calls: seq<(int, seq<Option<string>>)>): (r: (Readings, seq<int>))
    decreases |calls|
  {
    if |calls| == 0 then (s, [])
    else
      var (s1, t) := RefreshCorrected(s, period, calls[0].0, calls[0].1);
      var (s2, times) := RunCorrected(s1, period, calls[1..]);
      (s2, if |t.sent| > 0 then [calls[0].0] + times else times)
  }

  /** With the corrected gate, refreshes are more than a period apart. */
  lemma {:induction false} CorrectedRefreshesAreSpaced(s: Readings, period: int, calls: seq<(int, seq<Option<string>>)>)
    ensures Spaced(s.refreshLastTime, RunCorrected(s, period, calls).1, period)
    decreases |calls|
  {
    if |calls| > 0 {
      var (s1, t) := RefreshCorrected(s, period, calls[0].0, calls[0].1);
      CorrectedRefreshesAreSpaced(s1, period, calls[1..]);
    }
  }
}
