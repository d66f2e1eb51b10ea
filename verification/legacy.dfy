/** The older copy of the decoders kept inside `index.js`, which its `data`
    handler calls. Most of them compute the same bits as `code/data-map.js` by
    other arithmetic (hex-string nibbles, chains of subtractions); three things
    differ: `wheelTurn` clamps the fine byte instead of masking its low bits,
    wheel buttons 2 and 3 are never decoded, and `case 0` of the dispatch falls
    through into `case 1`. */
module LegacyDecoder {
  import opened Numeric
  import opened ControlState
  import opened DataMap

  /** One step of a subtraction chain: if `n - w >= 0`, flag 1 and subtract. */
  function Take(n: int, w: int): (int, int) {
    if n - w >= 0 then (1, n - w) else (0, n)
  }

  /** The lower-case digits `Buffer.toString('hex')` writes. */
  const HexAlphabet: string := "0123456789abcdef"

  /** The two characters byte `b` contributes to the report's hex string:
      character `2k` and `2k + 1` of the string come from byte `k`. */
  function HexByte(b: byte): (h: string)
    ensures |h| == 2
  {
    [HexAlphabet[b / 16], HexAlphabet[b % 16]]
  }

  /** `parseInt(c, 16)` of a single character; anything that is not a hex
      digit is NaN, written -1 here (it matches no `case` and fails every
      `n - w >= 0` test, as NaN does). */
  function ParseHexDigit(c: char): (n: int)
    ensures -1 <= n < 16
  {
    if '0' <= c <= '9' then c as int - '0' as int
    else if 'a' <= c <= 'f' then c as int - 'a' as int + 10
    else if 'A' <= c <= 'F' then c as int - 'A' as int + 10
    else -1
  }

  /** Reading a written digit back gives the nibble it was written from. */
  lemma HexDigitRoundTrip(b: byte)
    ensures ParseHexDigit(HexByte(b)[0]) == b / 16
    ensures ParseHexDigit(HexByte(b)[1]) == b % 16
  {
  }

  /** `shifterBlackButtons` of `index.js`: the first hex digit of the report
      (from byte 0) taken apart by subtracting 8, 4, 2, 1. */
  function LegacyBlackButtons(b: byte, s: Shifter): Shifter {
    var n := ParseHexDigit(HexByte(b)[0]);
    var (top, n1) := Take(n, 8);
    var (right, n2) := Take(n1, 4);
    var (left, n3) := Take(n2, 2);
    var (bottom, _) := Take(n3, 1);
    s.(button1 := top, button2 := right, button4 := left, button3 := bottom)
  }

  lemma LegacyBlackButtonsAgree(b: byte, s: Shifter)
    ensures LegacyBlackButtons(b, s) == BlackButtons(b, s)
  {
    var n := b / 16;
    HexDigitRoundTrip(b);
    assert b / 128 == n / 8 && b / 64 == n / 4 && b / 32 == n / 2;
    assert 0 <= n < 16;
  }

  /** `shifterDpad` of `index.js`: the second hex digit (the low nibble of
      byte 0) through the same table. */
  function LegacyDpad(b: byte, s: Shifter): Shifter {
    s.(dpad := DpadFor(ParseHexDigit(HexByte(b)[1]), s.dpad))
  }

  /** The `index.js` dpad decode is the one of `code/data-map.js`: a nibble
      0..8 selects direction `(nibble + 1) % 9` (0 is neutral), any other
      nibble leaves the dpad as it was, and no other button changes. */
  lemma LegacyDpadAgrees(b: byte, s: Shifter)
    ensures LegacyDpad(b, s) == Dpad(b, s)
    ensures b % 16 <= 8 ==> LegacyDpad(b, s).dpad == (b % 16 + 1) % 9
    ensures b % 16 > 8 ==> LegacyDpad(b, s) == s
    ensures LegacyDpad(b, s).(dpad := s.dpad) == s
  {
    HexDigitRoundTrip(b);
  }

  /** `shifterRedButtons` of `index.js`: byte 1 taken apart by subtracting 128, 64, 32, 16. */
  function LegacyRedButtons(b: byte, s: Shifter): Shifter {
    var (left, n1) := Take(b, 128);
    var (right, n2) := Take(n1, 64);
    var (middleRight, n3) := Take(n2, 32);
    var (middleLeft, _) := Take(n3, 16);
    s.(button5 := left, button8 := right, button7 := middleRight, button6 := middleLeft)
  }

  lemma LegacyRedButtonsAgree(b: byte, s: Shifter)
    ensures LegacyRedButtons(b, s) == RedButtons(b, s)
  {
    FlagsRebuildByte(b);
  }

  /** `shifterGear` of `index.js`: reverse is bit 0 of the 22nd hex digit (the
      low nibble of byte 10); otherwise `reduceNumberTo(byte2, 32)`. */
  function LegacyGear(b2: byte, b10: byte, s: Shifter): Shifter {
    var reverse := ParseHexDigit(HexByte(b10)[1]);
    if Bit(reverse, 1) then s.(gear := -1)
    else s.(gear := GearFor(b2 % 64, s.gear))
  }

  lemma LegacyGearAgrees(b2: byte, b10: byte, s: Shifter)
    ensures LegacyGear(b2, b10, s) == Gear(b2, b10, s)
  {
    HexDigitRoundTrip(b10);
    assert (b10 % 16) % 2 == b10 % 2;
  }

  /** `wheelButtonsTop` of `index.js`: `reduceNumberTo(byte1, 8)` (the low
      nibble), then subtract 8 and 4. */
  function LegacyTopButtons(b: byte, w: Wheel): Wheel {
    var n := b % 16;
    var (topLeft, n1) := Take(n, 8);
    var (topRight, _) := Take(n1, 4);
    w.(button1 := topLeft, button4 := topRight)
  }

  lemma LegacyTopButtonsAgree(b: byte, w: Wheel)
    ensures LegacyTopButtons(b, w) == TopButtons(b, w)
  {
    var n := b % 16;
    assert b / 8 == 2 * (b / 16) + n / 8;
    assert b / 4 == 4 * (b / 16) + n / 4;
  }

  /** `wheelButtonsRight` of `index.js`: byte 2 minus 128, then 64. */
  function LegacyRightButtons(b: byte, w: Wheel): Wheel {
    var (bottomRight, n1) := Take(b, 128);
    var (middleRight, _) := Take(n1, 64);
    w.(button6 := bottomRight, button5 := middleRight)
  }

  lemma LegacyRightButtonsAgree(b: byte, w: Wheel)
    ensures LegacyRightButtons(b, w) == RightButtons(b, w)
  {
    assert b / 128 == (b / 64) / 2;
  }

  /** `wheelShiftPedals` of `index.js`: `reduceNumberTo(byte1, 2)` (the low two
      bits), then subtract 2 and 1. */
  function LegacyShiftPaddles(b: byte, w: Wheel): Wheel {
    var n := b % 4;
    var (left, n1) := Take(n, 2);
    var (right, _) := Take(n1, 1);
    w.(shiftLeft := left, shiftRight := right)
  }

  lemma LegacyShiftPaddlesAgree(b: byte, w: Wheel)
    ensures LegacyShiftPaddles(b, w) == ShiftPaddles(b, w)
  {
    assert b / 2 == 2 * (b / 4) + (b % 4) / 2;
  }

  /** The fine byte of `index.js`'s `wheelTurn`: clamped to 252, low bits kept. */
  function ClampedFine(b3: byte): (f: int)
    ensures 0 <= f <= 252
    ensures b3 <= 252 ==> f == b3
  {
    if b3 > 252 then 252 else b3
  }

  /** `wheelTurn` of `index.js`. */
  function LegacyTurn(b3: byte, b4: byte): (t: real)
    ensures 0.0 <= t <= 100.0
    ensures IsIntegral(t * 100.0)
  {
    var wheel := Round2(b4 as real / 255.0 * 99.0 + ClampedFine(b3) as real / 252.0);
    var wheel := if wheel > 100.0 then 100.0 else wheel;
    if wheel < 0.0 then 0.0 else wheel
  }

  /** The clamps never fire: the rounded sum already lies in [0, 100]. */
  lemma LegacyTurnNeedsNoClamp(b3: byte, b4: byte)
    ensures LegacyTurn(b3, b4) == Round2(b4 as real / 255.0 * 99.0 + ClampedFine(b3) as real / 252.0)
  {
    var x := b4 as real / 255.0 * 99.0 + ClampedFine(b3) as real / 252.0;
    Round2Monotonic(0.0, x);
    Round2Monotonic(x, 100.0);
    assert Round2(0.0) == 0.0 by { assert MathRound(0.0) == 0; }
    assert Round2(100.0) == 100.0 by { assert MathRound(10000.0) == 10000; }
  }

  /** Clamping keeps the button bits, so the fine value of `index.js` is at
      most 3 above the masked one. */
  lemma ClampedFineNearFine(b3: byte)
    ensures FineTurn(b3) <= ClampedFine(b3) <= FineTurn(b3) + 3
  {
  }

  /** The `index.js` turn never reads below the canonical turn and at most
      two hundredths above it: the button bits it keeps add at most 3/252. */
  lemma LegacyTurnNearTurn(b3: byte, b4: byte)
    ensures Turn(b3, b4) <= LegacyTurn(b3, b4) <= Turn(b3, b4) + 0.02
  {
    var c := b4 as real / 255.0 * 99.0;
    var x := c + FineTurn(b3) as real / 252.0;
    var y := c + ClampedFine(b3) as real / 252.0;
    TurnNeedsNoClamp(b3, b4);
    LegacyTurnNeedsNoClamp(b3, b4);
    ClampedFineNearFine(b3);
    assert x <= y <= x + 3.0 / 252.0;
    Round2Monotonic(x, y);
    var t, l := Round2(x), Round2(y);
    var ti, li := (t * 100.0).Floor, (l * 100.0).Floor;
    assert t * 100.0 == ti as real && l * 100.0 == li as real;
    assert l * 100.0 - t * 100.0 < (y - x) * 100.0 + 1.0;
    assert li - ti < 3;
  }

  /** The two fine values agree exactly when the button bits are clear or the
      byte is at least 252 (where masking and clamping both give 252). */
  lemma FineVariantsAgreeIff(b3: byte)
    ensures FineTurn(b3) == ClampedFine(b3) <==> (b3 % 4 == 0 || b3 >= 252)
  {
  }

  /** The two `wheelTurn` variants agree when byte 3 is at most 252 with bits
      0 and 1 clear (and also for 253..255). */
  lemma TurnVariantsAgree(b3: byte, b4: byte)
    requires b3 % 4 == 0 || b3 >= 252
    ensures Turn(b3, b4) == LegacyTurn(b3, b4)
  {
    FineVariantsAgreeIff(b3);
  }

  /** They differ once a button bit is set: byte 3 = 3 (wheel buttons 2 and 3
      pressed) with byte 4 = 0 reads as 0.01 in `index.js` but 0 here. */
  lemma TurnVariantsDiffer()
    ensures Turn(3, 0) == 0.0 && LegacyTurn(3, 0) == 0.01
  {
    assert FineTurn(3) == 0;
    assert MathRound(0.0) == 0;
    assert MathRound(3.0 / 252.0 * 100.0) == 1;
  }

  /** The `switch` of the `index.js` handler. `case 0` has no `break`, so it
      also runs the byte-1 decoders; `case 3`/`case 4` run `wheelTurn` only. */
  function LegacyApplyPosition(pos: int, data: Report, s: State): State {
    if pos == 0 || pos == 1 then
      var s0 := if pos == 0
        then s.(shifter := LegacyDpad(data[0], LegacyBlackButtons(data[0], s.shifter)))
        else s;
      s0.(shifter := LegacyRedButtons(data[1], s0.shifter),
          wheel := LegacyTopButtons(data[1], LegacyShiftPaddles(data[1], s0.wheel)))
    else if pos == 2 then
      s.(shifter := LegacyGear(data[2], data[10], s.shifter),
         wheel := LegacyRightButtons(data[2], s.wheel))
    else if pos == 3 || pos == 4 then
      s.(wheel := s.wheel.(turn := LegacyTurn(data[3], data[4])))
    else if pos == 5 then
      s.(pedals := s.pedals.(gas := PedalToPercent(data[5])))
    else if pos == 6 then
      s.(pedals := s.pedals.(brake := PedalToPercent(data[6])))
    else if pos == 7 then
      s.(pedals := s.pedals.(clutch := PedalToPercent(data[7])))
    else if pos == 10 then
      s.(shifter := LegacyGear(data[2], data[10], s.shifter))
    else
      s
  }

  function LegacyApplyPositions(positions: seq<int>, data: Report, s: State): State
    decreases |positions|
  {
    if positions == [] then s
    else LegacyApplyPosition(positions[|positions| - 1], data,
                             LegacyApplyPositions(positions[..|positions| - 1], data, s))
  }

  /** The fall-through: a change at position 0 decodes byte 0 and then byte 1,
      exactly as the canonical decoder does for positions 0 and 1 in turn. */
  lemma LegacyPosition0FallsThrough(data: Report, s: State)
    ensures LegacyApplyPosition(0, data, s) == ApplyPosition(1, data, ApplyPosition(0, data, s))
  {
    LegacyBlackButtonsAgree(data[0], s.shifter);
    var s0 := ApplyPosition(0, data, s);
    LegacyRedButtonsAgree(data[1], s0.shifter);
    LegacyShiftPaddlesAgree(data[1], s0.wheel);
    LegacyTopButtonsAgree(data[1], ShiftPaddles(data[1], s0.wheel));
  }

  /** Outside positions 0, 3 and 4 the two dispatches do the same thing. */
  lemma LegacyAgreesElsewhere(pos: int, data: Report, s: State)
    requires pos != 0 && pos != 3 && pos != 4
    ensures LegacyApplyPosition(pos, data, s) == ApplyPosition(pos, data, s)
  {
    if pos == 1 {
      LegacyRedButtonsAgree(data[1], s.shifter);
      LegacyShiftPaddlesAgree(data[1], s.wheel);
      LegacyTopButtonsAgree(data[1], ShiftPaddles(data[1], s.wheel));
    } else if pos == 2 || pos == 10 {
      LegacyGearAgrees(data[2], data[10], s.shifter);
      LegacyRightButtonsAgree(data[2], s.wheel);
    }
  }

  /** At positions 3 and 4 only `turn` moves, and it moves as the canonical
      decoder moves it whenever the button bits of byte 3 are clear. */
  lemma LegacyTurnPosition(pos: int, data: Report, s: State)
    requires pos == 3 || pos == 4
    requires data[3] % 4 == 0
    ensures LegacyApplyPosition(pos, data, s) == ApplyPosition(pos, data, s).(wheel :=
              ApplyPosition(pos, data, s).wheel.(button2 := s.wheel.button2, button3 := s.wheel.button3))
  {
    TurnVariantsAgree(data[3], data[4]);
  }

  /** `index.js` never decodes wheel buttons 2 and 3: whatever positions
      change, they keep their previous values. */
  lemma {:induction false} LegacyNeverDecodesLeftButtons(positions: seq<int>, data: Report, s: State)
    ensures LegacyApplyPositions(positions, data, s).wheel.button2 == s.wheel.button2
    ensures LegacyApplyPositions(positions, data, s).wheel.button3 == s.wheel.button3
    decreases |positions|
  {
    if positions != [] {
      LegacyNeverDecodesLeftButtons(positions[..|positions| - 1], data, s);
    }
  }
  /** The `index.js` dispatch keeps every field in its documented range. */
  lemma LegacyApplyPositionWellFormed(pos: int, data: Report, s: State)
    requires WellFormed(s)
    ensures WellFormed(LegacyApplyPosition(pos, data, s))
  {
    if pos == 0 {
      LegacyPosition0FallsThrough(data, s);
      ApplyPositionWellFormed(0, data, s);
      ApplyPositionWellFormed(1, data, ApplyPosition(0, data, s));
    } else if pos != 3 && pos != 4 {
      LegacyAgreesElsewhere(pos, data, s);
      ApplyPositionWellFormed(pos, data, s);
    }
  }

  lemma {:induction false} LegacyApplyPositionsWellFormed(positions: seq<int>, data: Report, s: State)
    requires WellFormed(s)
    ensures WellFormed(LegacyApplyPositions(positions, data, s))
    decreases |positions|
  {
    if positions != [] {
      var n := |positions| - 1;
      LegacyApplyPositionsWellFormed(positions[..n], data, s);
      LegacyApplyPositionWellFormed(positions[n], data, LegacyApplyPositions(positions[..n], data, s));
    }
  }

  /** A report whose changes avoid positions 0, 3 and 4 decodes the same
      with either copy of the decoders. */
  lemma {:induction false} LegacyMatchesCanonical(positions: seq<int>, data: Report, s: State)
    requires forall i :: 0 <= i < |positions| ==> positions[i] != 0 && positions[i] != 3 && positions[i] != 4
    ensures LegacyApplyPositions(positions, data, s) == ApplyPositions(positions, data, s)
    decreases |positions|
  {
    if positions != [] {
      var n := |positions| - 1;
      LegacyMatchesCanonical(positions[..n], data, s);
      LegacyAgreesElsewhere(positions[n], data, ApplyPositions(positions[..n], data, s));
    }
  }
}
