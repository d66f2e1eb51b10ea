/** The output side of `index.js`: the byte vectors the wheel is sent for its
    rotation range, auto-centering, constant and friction force effects,
    force-off and the rev-light LEDs, and a `Controller` that holds the
    `options` it reads and appends every vector it writes to a log. */
module Commands {
  import opened Numeric

  /** One output report as handed to the device. */
  type Command = seq<int>

  predicate IsBytes(cmd: Command) {
    forall i :: 0 <= i < |cmd| ==> 0 <= cmd[i] < 256
  }

  // ------------------------------------------------------------------- range

  const MinRange: int := 270
  const MaxRange: int := 900

  /** `options.range` after the two clamping `if`s of `setRange`. */
  function ClampRange(range: int): (r: int)
    ensures MinRange <= r <= MaxRange
    ensures MinRange <= range <= MaxRange ==> r == range
    ensures range < MinRange ==> r == MinRange
    ensures range > MaxRange ==> r == MaxRange
  {
    if range < MinRange then MinRange
    else if range > MaxRange then MaxRange
    else range
  }

  /** `[0xf8, 0x81, range & 0xff, (range & 0xff00) >> 8, 0, 0, 0]` of the clamped
      range: a little-endian 16-bit degree count. */
  function RangeCommand(range: int): (cmd: Command)
    ensures |cmd| == 7 && IsBytes(cmd)
    ensures cmd[0] == 0xf8 && cmd[1] == 0x81
    ensures cmd[2] + 256 * cmd[3] == ClampRange(range)
    ensures cmd[4] == 0 && cmd[5] == 0 && cmd[6] == 0
  {
    var r := ClampRange(range);
    [0xf8, 0x81, r % 256, (r / 256) % 256, 0, 0, 0]
  }

  /** Distinct ranges in [270, 900] give distinct commands; clamping is the
      only information lost. */
  lemma RangeCommandInjective(r1: int, r2: int)
    requires MinRange <= r1 <= MaxRange && MinRange <= r2 <= MaxRange
    requires RangeCommand(r1) == RangeCommand(r2)
    ensures r1 == r2
  {
    var c1, c2 := RangeCommand(r1), RangeCommand(r2);
    assert c1[2] + 256 * c1[3] == r1;
    assert c2[2] + 256 * c2[3] == r2;
  }

  /** Setting an already clamped range again sends the same bytes. */
  lemma RangeCommandOfClamped(range: int)
    ensures RangeCommand(ClampRange(range)) == RangeCommand(range)
  {
  }

  // ------------------------------------------------------------- auto-center

  /** `options.autocenter` as `autoCenter` tells it apart: falsy, a two-element
      array `[strength, rise]`, or any other truthy value. */
  datatype AutoCenterOption = Off | On | Profile(strength: real, rise: real)

  const AutoCenterOn: Command := [0x14, 0, 0, 0, 0, 0, 0]
  const AutoCenterOff: Command := [0xf5, 0, 0, 0, 0, 0, 0]

  /** The reports `autoCenter` writes, in order. */
  function AutoCenterCommands(option: AutoCenterOption): (cmds: seq<Command>)
    ensures option.Off? ==> cmds == [AutoCenterOff]
    ensures !option.Off? ==> |cmds| == 2 && cmds[0] == AutoCenterOn
    ensures !option.Off? ==> |cmds[1]| == 8 && cmds[1][0] == 0xfe && cmds[1][1] == 0x0d && cmds[1][2] == cmds[1][3]
    ensures !option.Off? ==> cmds[1][5..] == [0, 0, 0]
    ensures option.Profile? ==> option.strength * 15.0 - 0.5 < cmds[1][2] as real <= option.strength * 15.0 + 0.5
    ensures option.Profile? ==> option.rise * 255.0 - 0.5 < cmds[1][4] as real <= option.rise * 255.0 + 0.5
  {
    match option
    case Off => [AutoCenterOff]
    case On => [AutoCenterOn, [0xfe, 0x0d, 0x07, 0x07, 0xff, 0, 0, 0]]
    case Profile(strength, rise) =>
      var s := MathRound(strength * 15.0);
      var r := MathRound(rise * 255.0);
      [AutoCenterOn, [0xfe, 0x0d, s, s, r, 0, 0, 0]]
  }

  /** Fractions in [0, 1] give a strength in 0..15 and a rise in 0..255. */
  lemma AutoCenterProfileInRange(strength: real, rise: real)
    requires 0.0 <= strength <= 1.0 && 0.0 <= rise <= 1.0
    ensures var cmd := AutoCenterCommands(Profile(strength, rise))[1];
            0 <= cmd[2] <= 15 && 0 <= cmd[4] <= 255 && IsBytes(cmd)
  {
    assert 0 <= MathRound(strength * 15.0) <= 15;
    assert 0 <= MathRound(rise * 255.0) <= 255;
  }

  /** The default profile is the custom profile `[7/15, 1]`: strength 7 and
      the full rise 255. */
  lemma AutoCenterDefaultIsProfile()
    ensures AutoCenterCommands(On) == AutoCenterCommands(Profile(7.0 / 15.0, 1.0))
    ensures AutoCenterCommands(On)[1][2] == 7 && AutoCenterCommands(On)[1][4] == 255
  {
    assert MathRound(7.0 / 15.0 * 15.0) == 7;
    assert MathRound(1.0 * 255.0) == 255;
  }

  // ---------------------------------------------------------------- force off

  /** `parseInt('0x' + n + '0')` without the trailing `0`: the decimal digits
      of `n` read as hexadecimal digits. */
  function DecimalAsHex(n: nat): nat
    decreases n
  {
    if n < 10 then n else DecimalAsHex(n / 10) * 16 + n % 10
  }

  /** Reading decimal digits as hexadecimal never shrinks a number and leaves
      exactly the one-digit numbers alone. */
  lemma {:induction false} DecimalAsHexGrows(n: nat)
    ensures DecimalAsHex(n) >= n
    ensures DecimalAsHex(n) == n <==> n < 10
    decreases n
  {
    if n >= 10 {
      DecimalAsHexGrows(n / 10);
      assert DecimalAsHex(n / 10) * 16 >= (n / 10) * 16 > (n / 10) * 10;
    }
  }

  /** `forceOff(slot)`: byte 0 is 0xf3 (every slot but auto-center) when no
      slot is given, otherwise `parseInt('0x' + slot + '0')`. */
  function ForceOffCommand(slot: Option<nat>): (cmd: Command)
    ensures |cmd| == 7 && cmd[1..] == [0, 0, 0, 0, 0, 0]
    ensures slot == None ==> cmd[0] == 0xf3
    ensures slot.Some? && slot.value < 10 ==> cmd[0] == 16 * slot.value
  {
    var first := if slot == None then 0xf3 else DecimalAsHex(slot.value) * 16;
    [first, 0, 0, 0, 0, 0, 0]
  }

  /** The four documented slots give `0x10`, `0x20`, `0x30`, `0x40`, each
      different from the all-slots byte. */
  lemma ForceOffSlots(slot: nat)
    requires 1 <= slot <= 4
    ensures ForceOffCommand(Some(slot))[0] == slot * 16
    ensures ForceOffCommand(Some(slot)) != ForceOffCommand(None)
  {
    assert ForceOffCommand(Some(slot))[0] != ForceOffCommand(None)[0];
  }

  // ----------------------------------------------------------- constant force

  function RealAbs(x: real): (a: real)
    ensures a >= 0.0 && (a == x || a == -x)
  {
    if x < 0.0 then -x else x
  }

  /** `forceConstant(num)`: absent or exactly 0.5 turns slot 1 off; otherwise
      slot 1 gets the magnitude `Math.round(|num - 1| * 255)` (0 is full force
      left, 1 full force right). */
  function ConstantForceCommand(num: Option<real>): (cmd: Command)
    ensures |cmd| == 7
    ensures (num == None || num == Some(0.5)) ==> cmd == ForceOffCommand(Some(1))
    ensures num.Some? && num.value != 0.5 ==>
              cmd[0] == 0x11 && cmd[1] == 0 && cmd[3..] == [0, 0, 0, 0]
    ensures num.Some? && num.value != 0.5 && 0.0 <= num.value <= 1.0 ==> 0 <= cmd[2] <= 255
    ensures num.Some? && num.value != 0.5 ==>
              RealAbs(num.value - 1.0) * 255.0 - 0.5 < cmd[2] as real <= RealAbs(num.value - 1.0) * 255.0 + 0.5
  {
    if num == None || num == Some(0.5) then ForceOffCommand(Some(1))
    else
      var m := MathRound(RealAbs(num.value - 1.0) * 255.0);
      [0x11, 0, m, 0, 0, 0, 0]
  }

  lemma ConstantForceEndpoints()
    ensures ConstantForceCommand(Some(0.0)) == [0x11, 0, 255, 0, 0, 0, 0]
    ensures ConstantForceCommand(Some(1.0)) == [0x11, 0, 0, 0, 0, 0, 0]
    ensures ConstantForceCommand(None) == [0x10, 0, 0, 0, 0, 0, 0]
  {
    assert MathRound(255.0) == 255;
    assert MathRound(0.0) == 0;
  }

  /** A pull to the left (below 0.5) sends a magnitude above 0x7f, a pull to
      the right one of at most 0x7f, and pulling further right never raises it. */
  lemma ConstantForceSides(x: real, y: real)
    requires 0.0 <= x <= y <= 1.0 && x != 0.5 && y != 0.5
    ensures x < 0.5 ==> ConstantForceCommand(Some(x))[2] >= 128
    ensures y > 0.5 ==> ConstantForceCommand(Some(y))[2] <= 127
    ensures ConstantForceCommand(Some(x))[2] >= ConstantForceCommand(Some(y))[2]
  {
    assert RealAbs(x - 1.0) == 1.0 - x;
    assert RealAbs(y - 1.0) == 1.0 - y;
    assert (1.0 - x) * 255.0 >= (1.0 - y) * 255.0;
  }

  // ----------------------------------------------------------- friction force

  /** `forceFriction(num)`: absent or exactly 0 turns slot 2 off; otherwise
      slot 2 gets friction `Math.round(num * 15)` on both axes. */
  function FrictionCommand(num: Option<real>): (cmd: Command)
    ensures |cmd| == 7
    ensures (num == None || num == Some(0.0)) ==> cmd == ForceOffCommand(Some(2))
    ensures num.Some? && num.value != 0.0 ==>
              cmd[0] == 0x21 && cmd[1] == 0x02 && cmd[2] == cmd[4] && cmd[3] == 0 && cmd[5..] == [0, 0]
    ensures num.Some? && num.value != 0.0 ==> num.value * 15.0 - 0.5 < cmd[2] as real <= num.value * 15.0 + 0.5
  {
    if num == None || num == Some(0.0) then ForceOffCommand(Some(2))
    else
      var n := MathRound(num.value * 15.0);
      [0x21, 0x02, n, 0, n, 0, 0]
  }

  /** A strength in (0, 1] gives a friction level in 0..15; more strength never
      gives less friction. */
  lemma FrictionInRange(x: real, y: real)
    requires 0.0 < x <= y <= 1.0
    ensures 0 <= FrictionCommand(Some(x))[2] <= FrictionCommand(Some(y))[2] <= 15
    ensures FrictionCommand(Some(1.0))[2] == 15
  {
    assert x * 15.0 <= y * 15.0;
    assert MathRound(1.0 * 15.0) == 15;
  }

  // -------------------------------------------------------------------- LEDs

  /** The argument of `leds`: absent, a percentage, a string such as `'011'`, or
      an array of numbers. */
  datatype LedSetting = NoSetting | Percent(p: real) | Pattern(s: string) | Lights(elements: seq<int>)

  /** The pattern a whole percentage is tiered into. */
  function TierPattern(pct: int): string {
    if pct > 84 then "11111"
    else if pct > 69 then "1111"
    else if pct > 39 then "111"
    else if pct > 19 then "11"
    else if pct > 4 then "1"
    else ""
  }

  /** A string split into characters, each read by `parseInt(c) === 1`. */
  function CharsToLights(s: string): (xs: seq<int>)
    ensures |xs| == |s|
    ensures forall i :: 0 <= i < |s| ==> (xs[i] == 1 <==> s[i] == '1')
  {
    if s == [] then [] else CharsToLights(s[..|s| - 1]) + [if s[|s| - 1] == '1' then 1 else 0]
  }

  /** The array `leds` packs, whatever it was given. */
  function LightsOf(setting: LedSetting): seq<int> {
    match setting
    case NoSetting => []
    case Percent(p) => CharsToLights(TierPattern(MathRound(p * 100.0)))
    case Pattern(s) => CharsToLights(s)
    case Lights(xs) => xs
  }

  /** Whether LED `i` (0 = outer green .. 4 = red) is lit: the element exists
      among the first five and equals 1. */
  function Lit(xs: seq<int>, i: nat): (b: int)
    ensures b == 0 || b == 1
  {
    if i < |xs| && i < 5 && xs[i] == 1 then 1 else 0
  }

  /** The LED byte: weights 1, 2, 4, 8, 16 for the first five elements. */
  function LedValue(xs: seq<int>): int {
    Lit(xs, 0) + 2 * Lit(xs, 1) + 4 * Lit(xs, 2) + 8 * Lit(xs, 3) + 16 * Lit(xs, 4)
  }

  const LedWeights: seq<int> := [1, 2, 4, 8, 16]

  /** The sum over the first `k` LEDs. */
  function LedPrefix(xs: seq<int>, k: nat): int
    requires k <= 5
  {
    if k == 0 then 0 else LedPrefix(xs, k - 1) + LedWeights[k - 1] * Lit(xs, k - 1)
  }

  /** The LED byte is in 0..31 and its bits are exactly the lit LEDs: bit `i`
      is set if and only if element `i` (of the first five) is 1. */
  lemma LedValueBits(xs: seq<int>)
    ensures 0 <= LedValue(xs) <= 31
    ensures Flag(LedValue(xs), 1) == Lit(xs, 0) && Flag(LedValue(xs), 2) == Lit(xs, 1)
    ensures Flag(LedValue(xs), 4) == Lit(xs, 2) && Flag(LedValue(xs), 8) == Lit(xs, 3)
    ensures Flag(LedValue(xs), 16) == Lit(xs, 4)
  {
    FlagsOfPackedByte(0, 0, 0, Lit(xs, 4), Lit(xs, 3), Lit(xs, 2), Lit(xs, 1), Lit(xs, 0));
  }

  /** Elements past the fifth are ignored, as the `splice(5, …)` discards them. */
  lemma LedValueTruncates(xs: seq<int>)
    requires |xs| > 5
    ensures LedValue(xs) == LedValue(xs[..5])
  {
  }

  /** Past the last element the sum gains nothing, so a shorter array's sum
      is already the five-LED sum. */
  lemma {:induction false} LedPrefixPastEnd(xs: seq<int>, k: nat)
    requires k <= 5 && (k == 5 || k >= |xs|)
    ensures LedPrefix(xs, 5) == LedPrefix(xs, k)
    decreases 5 - k
  {
    if k < 5 {
      LedPrefixPastEnd(xs, k + 1);
      assert Lit(xs, k) == 0;
    }
  }

  /** The `leds` loop: drop everything past the fifth element, then add the
      weight of every element equal to 1. */
  method PackLeds(lights: seq<int>) returns (value: int)
    ensures value == LedValue(lights)
  {
    var ledArray := if |lights| > 5 then lights[..5] else lights;
    var len := |ledArray|;
    value := 0;
    var i := 0;
    while i < len
      invariant 0 <= i <= len <= 5
      invariant value == LedPrefix(lights, i)
    {
      if ledArray[i] == 1 {
        value := value + LedWeights[i];
      }
      i := i + 1;
    }
    LedPrefixPastEnd(lights, len);
    assert LedPrefix(lights, 2) == Lit(lights, 0) + 2 * Lit(lights, 1);
    assert LedPrefix(lights, 4) == LedPrefix(lights, 2) + 4 * Lit(lights, 2) + 8 * Lit(lights, 3);
  }

  /** The LED write, with the packed value at byte 2; it is a valid byte
      vector exactly when the value fits in a byte. */
  function LedCommand(value: int): (cmd: Command)
    ensures IsBytes(cmd) <==> 0 <= value < 256
  {
    var cmd := [0xf8, 0x12, value, 0, 0, 0, 1];
    assert cmd[2] == value;
    cmd
  }

  /** Whatever `leds` is given, what it writes is a byte vector whose byte 2
      has bit `i` set exactly when LED `i` is lit. */
  lemma LedWriteShowsLights(setting: LedSetting)
    ensures var xs := LightsOf(setting);
            var cmd := LedCommand(LedValue(xs));
            && IsBytes(cmd)
            && Flag(cmd[2], 1) == Lit(xs, 0) && Flag(cmd[2], 2) == Lit(xs, 1)
            && Flag(cmd[2], 4) == Lit(xs, 2) && Flag(cmd[2], 8) == Lit(xs, 3)
            && Flag(cmd[2], 16) == Lit(xs, 4)
  {
    LedValueBits(LightsOf(setting));
  }

  /** The value the percentage tiers produce. */
  function TierValue(pct: int): (v: int)
    ensures v in {0, 1, 3, 7, 15, 31}
  {
    if pct > 84 then 31
    else if pct > 69 then 15
    else if pct > 39 then 7
    else if pct > 19 then 3
    else if pct > 4 then 1
    else 0
  }

  /** A percentage lights a solid run of LEDs from the outside in: the tier's
      string of ones packs to 31, 15, 7, 3, 1 or 0. */
  lemma LedPercentTiers(p: real)
    ensures LedValue(LightsOf(Percent(p))) == TierValue(MathRound(p * 100.0))
  {
    var pct := MathRound(p * 100.0);
    var xs := LightsOf(Percent(p));
    var s := TierPattern(pct);
    assert |xs| == |s|;
    forall i | 0 <= i < |s|
      ensures xs[i] == 1
    {
      assert s[i] == '1';
    }
  }

  /** A larger percentage never lights fewer LEDs. */
  lemma LedPercentMonotonic(p: real, q: real)
    requires p <= q
    ensures LedValue(LightsOf(Percent(p))) <= LedValue(LightsOf(Percent(q)))
  {
    LedPercentTiers(p);
    LedPercentTiers(q);
    assert MathRound(p * 100.0) <= MathRound(q * 100.0);
  }

  lemma LedPercentExamples()
    ensures LedValue(LightsOf(Percent(1.0))) == 31
    ensures LedValue(LightsOf(Percent(0.5))) == 7
    ensures LedValue(LightsOf(Percent(0.0))) == 0
  {
    LedPercentTiers(1.0);
    LedPercentTiers(0.5);
    LedPercentTiers(0.0);
    assert MathRound(1.0 * 100.0) == 100;
    assert MathRound(0.5 * 100.0) == 50;
    assert MathRound(0.0 * 100.0) == 0;
  }

  /** A string pattern lights the same LEDs as the array of its digits. */
  lemma PatternIsLights(s: string, i: nat)
    requires i < 5
    ensures Lit(LightsOf(Pattern(s)), i) == (if i < |s| && s[i] == '1' then 1 else 0)
  {
  }

  // -------------------------------------------------------------- controller

  /** The `options` the encoders read, the `ledPrev` global, and the log of
      every report written to the device. */
  class Controller {
    var range: int
    var autocenter: AutoCenterOption
    var ledPrev: Option<int>
    var written: seq<Command>

    constructor (range: int, autocenter: AutoCenterOption)
      ensures this.range == range && this.autocenter == autocenter
      ensures ledPrev == None && written == []
    {
      this.range := range;
      this.autocenter := autocenter;
      ledPrev := None;
      written := [];
    }

    /** `setRange`: clamps `options.range` in place and writes it. */
    method SetRange()
      modifies this
      ensures range == ClampRange(old(range))
      ensures written == old(written) + [RangeCommand(old(range))]
      ensures autocenter == old(autocenter) && ledPrev == old(ledPrev)
    {
      if range < MinRange {
        range := MinRange;
      }
      if range > MaxRange {
        range := MaxRange;
      }
      var range1 := range % 256;
      var range2 := (range / 256) % 256;
      written := written + [[0xf8, 0x81, range1, range2, 0, 0, 0]];
    }

    method AutoCenter()
      modifies this
      ensures written == old(written) + AutoCenterCommands(autocenter)
      ensures range == old(range) && autocenter == old(autocenter) && ledPrev == old(ledPrev)
    {
      written := written + AutoCenterCommands(autocenter);
    }

    method ForceConstant(num: Option<real>)
      modifies this
      ensures written == old(written) + [ConstantForceCommand(num)]
      ensures range == old(range) && autocenter == old(autocenter) && ledPrev == old(ledPrev)
    {
      written := written + [ConstantForceCommand(num)];
    }

    method ForceFriction(num: Option<real>)
      modifies this
      ensures written == old(written) + [FrictionCommand(num)]
      ensures range == old(range) && autocenter == old(autocenter) && ledPrev == old(ledPrev)
    {
      written := written + [FrictionCommand(num)];
    }

    method ForceOff(slot: Option<nat>)
      modifies this
      ensures written == old(written) + [ForceOffCommand(slot)]
      ensures range == old(range) && autocenter == old(autocenter) && ledPrev == old(ledPrev)
    {
      written := written + [ForceOffCommand(slot)];
    }

    /** `leds(setting)`: every call writes (the `ledPrev === setting` test
        compares an array with a number and never holds), then remembers the
        value. */
    method Leds(setting: LedSetting)
      modifies this
      ensures written == old(written) + [LedCommand(LedValue(LightsOf(setting)))]
      ensures ledPrev == Some(LedValue(LightsOf(setting)))
      ensures range == old(range) && autocenter == old(autocenter)
    {
      var value := PackLeds(LightsOf(setting));
      written := written + [LedCommand(value)];
      ledPrev := Some(value);
    }

    /** What `listen` writes around installing its handlers: the range, the
        auto-centering, and all LEDs off. */
    method StartListening()
      modifies this
      ensures range == ClampRange(old(range))
      ensures written == old(written) + [RangeCommand(old(range))] + AutoCenterCommands(autocenter)
                         + [LedCommand(0)]
      ensures autocenter == old(autocenter) && ledPrev == Some(0)
    {
      SetRange();
      AutoCenter();
      Leds(Percent(0.0));
      assert MathRound(0.0 * 100.0) == 0;
    }
  }
}
