/** The 2WD chassis driver: translates vector (joystick) and tractor (two
    track) commands into the two wheel speeds the firmware understands, and
    writes them as the text `Digital:<left>,<right>`. Wheel speeds run from
    -255 to 255; client values from -100 to 100. */
module Arduino2WD {
  import opened Base
  import opened JavaInt
  import opened Decimal

  const MaxClientValue: int := 100
  const MaxSpeed: int := 255

  /** Arduino2WDEachWheelCommand: one speed per wheel. */
  datatype Wheels = Wheels(left: Int32, right: Int32)

  const Prefix: string := "Digital:"

  /** The text `Digital:<left>,<right>`. */
  function WireText(w: Wheels): string
  {
    Prefix + ToDecimal(w.left) + "," + ToDecimal(w.right)
  }

  /** `generateDigitalCommand(EachWheelCommand)`: the wire text, which starts
      with the prefix and reads back as exactly the two wheel speeds. */
  function DigitalCommand(w: Wheels): (s: string)
    ensures StartsWith(s, Prefix)
    ensures ParseDigital(s) == Some(w)
  {
    DigitalCommandRoundTrip(w);
    WireText(w)
  }

  /** Position of the first `ch` in `s`, or |s| when there is none. */
  function IndexOf(s: string, ch: char): (i: nat)
    ensures i <= |s|
    ensures forall j :: 0 <= j < i ==> s[j] != ch
    ensures i < |s| ==> s[i] == ch
  {
    if |s| == 0 then 0 else if s[0] == ch then 0 else 1 + IndexOf(s[1..], ch)
  }

  /** Reading the wire text the way the firmware does: the prefix, a number,
      a comma, a number. */
  function ParseDigital(s: string): (r: Option<Wheels>)
    ensures r.Some? ==> StartsWith(s, Prefix) && ',' in s
  {
    if !StartsWith(s, Prefix) then None
    else
      var body := s[|Prefix|..];
      var i := IndexOf(body, ',');
      if i == |body| then None
      else
        match (ParseInt(body[..i]), ParseInt(body[i + 1..]))
        case (Some(l), Some(r)) => Some(Wheels(l, r))
        case _ => None
  }

  /** The first comma of a text whose first part holds none is right after that part. */
  lemma IndexOfAfter(a: string, b: string)
    requires ',' !in a
    ensures IndexOf(a + "," + b, ',') == |a|
  {
    var s := a + "," + b;
    assert s[|a|] == ',';
    assert forall j :: 0 <= j < |a| ==> s[j] == a[j];
  }

  /** The wire text determines both wheel speeds: it parses back to them. */
  lemma DigitalCommandRoundTrip(w: Wheels)
    ensures ParseDigital(WireText(w)) == Some(w)
  {
    var a, b := ToDecimal(w.left), ToDecimal(w.right);
    var s := WireText(w);
    var body := s[|Prefix|..];
    assert body == a + "," + b;
    ToDecimalHasNoComma(w.left);
    IndexOfAfter(a, b);
    assert body[..|a|] == a;
    assert body[|a| + 1..] == b;
    ParseToDecimal(w.left);
    ParseToDecimal(w.right);
  }

  /** `sendEachWheelCommand`: the wheel speeds go on the wire unchanged. */
  function EachWheelCommand(w: Wheels): (s: string)
    ensures ParseDigital(s) == Some(w)
  {
    DigitalCommand(w)
  }

  // ---------------------------------------------------------------- tractor

  /** The sign used by the tractor translation: zero counts as positive. */
  function SignOf(v: int): (s: int)
    ensures s == 1 || s == -1
    ensures s == -1 <==> v < 0
  {
    if v < 0 then -1 else 1
  }

  /** One track's speed as the code computes it with Java `int`s: Math.abs of
      Integer.MIN_VALUE stays negative, so that value takes the scaling branch
      and the product 255 * MIN_VALUE wraps around. */
  function TractorWheelSpeedAsWritten(v: Int32): (speed: int)
    ensures v != MinInt ==> speed == TractorWheelSpeed(v)
    ensures Abs(speed) <= Abs(MinInt) / MaxClientValue
  {
    if JavaAbs(v) >= MaxClientValue then SignOf(v) * MaxSpeed
    else Div(Mul(v, MaxSpeed), MaxClientValue)
  }

  /** With left = Integer.MIN_VALUE the computed speed is -21474836 instead of
      the saturated -255, so the firmware is sent "Digital:21474836,0". */
  lemma TractorMinValueOverflows()
    ensures TractorWheelSpeedAsWritten(MinInt) == -21474836
    ensures TractorWheelSpeed(MinInt) == -MaxSpeed
    ensures TractorCommandAsWritten(MinInt, 0) == "Digital:21474836,0"
  {
    MinValueSpeed();
    assert TractorWheelSpeedAsWritten(0) == 0;
    OverflowWire();
  }

  lemma OverflowWire()
    ensures DigitalCommand(Wheels(21474836, 0)) == "Digital:21474836,0"
  {
    Digits21474836();
    assert ToDecimal(0) == "0";
    assert Prefix + "21474836" + "," + "0" == "Digital:21474836,0";
  }

  lemma MinValueSpeed()
    ensures TractorWheelSpeedAsWritten(MinInt) == -21474836
  {
    assert JavaAbs(MinInt) < MaxClientValue;
    assert Mul(MinInt, MaxSpeed) == MinInt;
    assert Div(MinInt, MaxClientValue) == -21474836;
  }

  lemma Digits21474836()
    ensures ToDecimal(21474836) == "21474836"
  {
    assert Digits(21) == "21";
    assert Digits(214) == "214";
    assert Digits(2147) == "2147";
    assert Digits(21474) == "21474";
    assert Digits(214748) == "214748";
    assert Digits(2147483) == "2147483";
    assert Digits(21474836) == "21474836";
  }

  /** The decimal spelling of 255. */
  lemma Digits255()
    ensures ToDecimal(255) == "255" && ToDecimal(-255) == "-255"
  {
    assert Digits(2) == "2";
    assert Digits(25) == "25";
    assert Digits(255) == "255";
  }

  /** The wire text of `sendTractorCommand` as written. */
  function TractorCommandAsWritten(left: Int32, right: Int32): (s: string)
    ensures left != MinInt && right != MinInt ==> s == TractorCommand(left, right)
  {
    var w := Wheels(-TractorWheelSpeedAsWritten(left), -TractorWheelSpeedAsWritten(right));
    assert left != MinInt && right != MinInt ==> w == TractorWheels(left, right);
    DigitalCommand(w)
  }

  /** One track's speed as intended: client values of magnitude 100 or more
      saturate at +-255; smaller ones scale by 255/100, truncating toward zero. */
  function TractorWheelSpeed(v: Int32): (speed: int)
    ensures -MaxSpeed <= speed <= MaxSpeed
    ensures Abs(v) >= MaxClientValue ==> speed == SignOf(v) * MaxSpeed
    ensures Abs(v) < MaxClientValue ==> Abs(speed) == Abs(v) * MaxSpeed / MaxClientValue
    ensures speed != 0 ==> (speed < 0 <==> v < 0)
  {
    if Abs(v) >= MaxClientValue then SignOf(v) * MaxSpeed
    else
      DivBound(v * MaxSpeed);
      Div(v * MaxSpeed, MaxClientValue)
  }

  lemma DivBound(p: int)
    requires -MaxClientValue * MaxSpeed < p < MaxClientValue * MaxSpeed
    ensures Abs(Div(p, MaxClientValue)) < MaxSpeed
  {
  }

  /** `sendTractorCommand`: both speeds, negated for the wheel direction. */
  function TractorWheels(left: Int32, right: Int32): (w: Wheels)
    ensures w.left == -TractorWheelSpeed(left) && w.right == -TractorWheelSpeed(right)
    ensures Abs(w.left) <= MaxSpeed && Abs(w.right) <= MaxSpeed
  {
    Wheels(-TractorWheelSpeed(left), -TractorWheelSpeed(right))
  }

  /** The wire text of `sendTractorCommand`. */
  function TractorCommand(left: Int32, right: Int32): (s: string)
    ensures ParseDigital(s) == Some(TractorWheels(left, right))
  {
    DigitalCommand(TractorWheels(left, right))
  }

  /** The tractor translation is odd: reversing a track reverses its speed. */
  lemma TractorSpeedOdd(v: Int32)
    requires v != MinInt
    ensures TractorWheelSpeed(-v) == -TractorWheelSpeed(v)
  {
    if Abs(v) < MaxClientValue {
      DivNegate(v * MaxSpeed, MaxClientValue);
    }
  }

  /** A larger client value never gives a smaller track speed. */
  lemma TractorSpeedMonotone(v: Int32, v': Int32)
    requires v <= v'
    ensures TractorWheelSpeed(v) <= TractorWheelSpeed(v')
  {
    if Abs(v) < MaxClientValue && Abs(v') < MaxClientValue {
      DivMonotone(v * MaxSpeed, v' * MaxSpeed, MaxClientValue);
    }
  }

  /** Full forward on both tracks drives the wheels full backward on the wire. */
  lemma TractorFullForward()
    ensures TractorCommand(100, 100) == "Digital:-255,-255"
  {
    assert TractorWheels(100, 100) == Wheels(-255, -255);
    FullBackwardWire();
  }

  /** The wire text for both wheels full backward. */
  lemma FullBackwardWire()
    ensures DigitalCommand(Wheels(-255, -255)) == "Digital:-255,-255"
  {
    Digits255();
    assert Prefix + "-255" + "," + "-255" == "Digital:-255,-255";
  }

  /** The zero tractor command stops both wheels. */
  lemma TractorStopped()
    ensures TractorCommand(0, 0) == "Digital:0,0"
  {
    assert TractorWheels(0, 0) == Wheels(0, 0);
    StoppedWire();
  }

  /** The wire text for both wheels stopped. */
  lemma StoppedWire()
    ensures DigitalCommand(Wheels(0, 0)) == "Digital:0,0"
  {
    assert ToDecimal(0) == "0";
    assert Prefix + "0" + "," + "0" == "Digital:0,0";
  }

  // ----------------------------------------------------------------- vector

  /** The integer square root rounded down. */
  function FloorSqrt(n: nat): (r: nat)
    ensures r * r <= n < (r + 1) * (r + 1)
    decreases n
  {
    if n < 4 then (if n == 0 then 0 else 1)
    else
      var h := FloorSqrt(n / 4);
      FloorSqrtStep(n, h);
      if (2 * h + 1) * (2 * h + 1) <= n then 2 * h + 1 else 2 * h
  }

  lemma FloorSqrtStep(n: nat, h: nat)
    requires h * h <= n / 4 < (h + 1) * (h + 1)
    ensures (2 * h) * (2 * h) <= n < (2 * h + 2) * (2 * h + 2)
  {
    assert (2 * h) * (2 * h) == 4 * (h * h);
    assert (2 * h + 2) * (2 * h + 2) == 4 * ((h + 1) * (h + 1));
  }

  /** `Math.round(Math.sqrt(n))` for a natural n: the integer nearest to the
      square root, which is never a tie (an odd square is never 4n). */
  function RoundSqrt(n: nat): (c: nat)
    ensures 4 * n < (2 * c + 1) * (2 * c + 1)
    ensures c == 0 || (2 * c - 1) * (2 * c - 1) < 4 * n
  {
    var f := FloorSqrt(n);
    RoundSqrtStep(n, f);
    if n - f * f > f then f + 1 else f
  }

  lemma RoundSqrtStep(n: nat, f: nat)
    requires f * f <= n < (f + 1) * (f + 1)
    ensures n - f * f > f ==> 4 * n < (2 * f + 3) * (2 * f + 3) && (2 * f + 1) * (2 * f + 1) < 4 * n
    ensures n - f * f <= f ==> 4 * n < (2 * f + 1) * (2 * f + 1) && (f == 0 || (2 * f - 1) * (2 * f - 1) < 4 * n)
  {
    var ff := f * f;
    assert (f + 1) * (f + 1) == ff + 2 * f + 1;
    assert (2 * f + 3) * (2 * f + 3) == 4 * ff + 12 * f + 9;
    assert (2 * f + 1) * (2 * f + 1) == 4 * ff + 4 * f + 1;
    assert (2 * f - 1) * (2 * f - 1) == 4 * ff - 4 * f + 1;
  }

  /** Only one value satisfies the rounding condition. */
  lemma RoundSqrtUnique(n: nat, c: nat)
    requires 4 * n < (2 * c + 1) * (2 * c + 1)
    requires c == 0 || (2 * c - 1) * (2 * c - 1) < 4 * n
    ensures RoundSqrt(n) == c
  {
    var d := RoundSqrt(n);
    if d < c {
      OddSquareMonotone(d, c - 1);
      assert false;
    } else if c < d {
      OddSquareMonotone(c, d - 1);
      assert false;
    }
  }

  lemma OddSquareMonotone(a: nat, b: nat)
    requires a <= b
    ensures (2 * a + 1) * (2 * a + 1) <= (2 * b + 1) * (2 * b + 1)
  {
    MulMonotone(2 * a + 1, 2 * b + 1, 2 * a + 1);
    MulMonotone(2 * a + 1, 2 * b + 1, 2 * b + 1);
  }

  /** The joystick bound of the model. The source computes x*x + y*y in
      `double`; within this bound the sum is at most 2 * 46340 * 46340, far
      below 2^53, so it is exact and `Math.round(Math.sqrt(...))` is the
      nearest integer to the square root. */
  const JoystickBound: int := 46340

  predicate InJoystickRange(x: int, y: int)
  {
    Abs(x) <= JoystickBound && Abs(y) <= JoystickBound
  }

  /** The speed of the leading wheel, before its sign: the rounded length of
      the vector, saturating at 255 from length 100 on. */
  function Magnitude(x: int, y: int): (c: nat)
    ensures c <= MaxSpeed
    ensures RoundSqrt(x * x + y * y) >= MaxClientValue <==> c == MaxSpeed
    ensures RoundSqrt(x * x + y * y) < MaxClientValue ==>
              c == MaxSpeed * RoundSqrt(x * x + y * y) / MaxClientValue
  {
    var c := RoundSqrt(x * x + y * y);
    if c >= MaxClientValue then MaxSpeed
    else
      DivNonNegative(MaxSpeed * c, MaxClientValue);
      Div(MaxSpeed * c, MaxClientValue)
  }

  /** The speed of the other wheel, before its sign: 0 for a purely sideways
      vector, otherwise 255 divided by one more than |x/y| (truncating); the
      cap at 255 that follows never changes that value. */
  function Turn(x: int, y: int): (t: nat)
    ensures t <= MaxSpeed
    ensures y == 0 ==> t == 0
    ensures y != 0 ==> t == MaxSpeed / (Abs(Div(x, y)) + 1)
    ensures y != 0 && Abs(x) < Abs(y) ==> t == MaxSpeed
  {
    if y == 0 then 0
    else
      var q := Abs(Div(x, y)) + 1;
      DivNonNegative(MaxSpeed, q);
      DivAtMostDividend(MaxSpeed, q);
      var t := Div(MaxSpeed, q);
      // the cap at 255 never changes the value
      if MaxSpeed > t then t else MaxSpeed
  }

  lemma DivAtMostDividend(a: nat, q: int)
    requires q >= 1
    ensures a / q <= a
    ensures q == 1 ==> a / q == a
  {
    if a / q > 0 {
      MulMonotone(1, q, a / q);
    }
  }

  /** `generateDigitalCommand(x, y)`: the leading wheel takes the magnitude and
      the other the turn term, both with the sign of y (zero counts as
      positive); the leading wheel is the left one unless x is negative. */
  function Mix(x: int, y: int): (w: Wheels)
    requires InJoystickRange(x, y)
    ensures Abs(w.left) <= MaxSpeed && Abs(w.right) <= MaxSpeed
    ensures y >= 0 ==> w.left >= 0 && w.right >= 0
    ensures y < 0 ==> w.left <= 0 && w.right <= 0
    ensures x >= 0 ==> Abs(w.left) == Magnitude(x, y) && Abs(w.right) == Turn(x, y)
    ensures x < 0 ==> Abs(w.left) == Turn(x, y) && Abs(w.right) == Magnitude(x, y)
  {
    var c := Magnitude(x, y);
    var t := Turn(x, y);
    var sign := if y < 0 then -1 else 1;
    if x >= 0 then Wheels(sign * c, sign * t) else Wheels(sign * t, sign * c)
  }

  /** `sendVectorCommand(x, y)`: y is negated before mixing, so pushing the
      joystick forward (positive y) drives both wheels backward on the wire. */
  function VectorWheels(x: int, y: int): (w: Wheels)
    requires InJoystickRange(x, y)
    ensures y > 0 ==> w.left <= 0 && w.right <= 0
    ensures y <= 0 ==> w.left >= 0 && w.right >= 0
  {
    Mix(x, -y)
  }

  /** The wire text of `sendVectorCommand`. */
  function VectorCommand(x: int, y: int): (s: string)
    requires InJoystickRange(x, y)
    ensures ParseDigital(s) == Some(VectorWheels(x, y))
  {
    DigitalCommand(VectorWheels(x, y))
  }

  /** Mirroring the joystick left to right swaps the wheels. */
  lemma VectorMirror(x: int, y: int)
    requires InJoystickRange(x, y) && x != 0
    ensures VectorWheels(-x, y) == Wheels(VectorWheels(x, y).right, VectorWheels(x, y).left)
  {
    assert (-x) * (-x) == x * x;
    if -y != 0 {
      DivNegate(x, -y);
    }
  }

  /** A vector of length 100 or more drives the leading wheel at full speed. */
  lemma FullDeflectionIsFullSpeed(x: int, y: int)
    requires InJoystickRange(x, y)
    requires x * x + y * y >= MaxClientValue * MaxClientValue
    ensures Abs(if x >= 0 then VectorWheels(x, y).left else VectorWheels(x, y).right) == MaxSpeed
  {
    var n := x * x + (-y) * (-y);
    var c := RoundSqrt(n);
    if c < MaxClientValue {
      OddSquareMonotone(c, MaxClientValue - 1);
      assert false;
    }
  }

  /** The centre position stops both wheels. */
  lemma VectorCentre()
    ensures VectorCommand(0, 0) == "Digital:0,0"
  {
    CentreWheels();
    StoppedWire();
  }

  lemma CentreWheels()
    ensures VectorWheels(0, 0) == Wheels(0, 0)
  {
    RoundSqrtUnique(0, 0);
    assert Magnitude(0, 0) == 0;
  }

  /** Full right drives the left wheel only. */
  lemma VectorFullRight()
    ensures VectorCommand(100, 0) == "Digital:255,0"
  {
    FullRightWheels();
    RightWire();
  }

  lemma RightWire()
    ensures DigitalCommand(Wheels(255, 0)) == "Digital:255,0"
  {
    Digits255();
    assert ToDecimal(0) == "0";
    assert Prefix + "255" + "," + "0" == "Digital:255,0";
  }

  /** Full left drives the right wheel only. */
  lemma VectorFullLeft()
    ensures VectorCommand(-100, 0) == "Digital:0,255"
  {
    FullLeftWheels();
    LeftWire();
  }

  lemma LeftWire()
    ensures DigitalCommand(Wheels(0, 255)) == "Digital:0,255"
  {
    Digits255();
    assert ToDecimal(0) == "0";
    assert Prefix + "0" + "," + "255" == "Digital:0,255";
  }

  lemma FullRightWheels()
    ensures VectorWheels(100, 0) == Wheels(255, 0)
  {
    RoundSqrtUnique(10000, 100);
    assert Magnitude(100, 0) == 255;
  }

  lemma FullLeftWheels()
    ensures VectorWheels(-100, 0) == Wheels(0, 255)
  {
    FullRightWheels();
    VectorMirror(100, 0);
  }

  /** Full forward drives both wheels at full speed, backward on the wire. */
  lemma VectorFullForward()
    ensures VectorCommand(0, 100) == "Digital:-255,-255"
  {
    FullForwardWheels();
    FullBackwardWire();
  }

  lemma FullForwardWheels()
    ensures VectorWheels(0, 100) == Wheels(-255, -255)
  {
    RoundSqrtUnique(10000, 100);
    assert Magnitude(0, -100) == 255;
    assert Div(0, -100) == 0;
    assert Turn(0, -100) == 255;
  }
}
