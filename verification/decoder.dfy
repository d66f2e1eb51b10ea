/** The report decoder of `code/data-map.js`: each changed byte position of an
    11-byte input report rewrites the fields it governs in the `memory` object.
    The decoders are specified by functions on the field groups (the meaning
    of each byte), and `Memory` is the mutable object they update in place. */
module DataMap {
  import opened Numeric
  import opened ControlState

  const ReportLength: nat := 11

  /** One input report of the wheel in high-precision mode. */
  type Report = s: seq<byte> | |s| == ReportLength
    witness [0, 0, 0, 0, 0, 0, 0, 0, 0, 0, 0]

  // ---------------------------------------------------------------------
  // Shifter

  /** Byte 0, high nibble: black buttons top/right/left/bottom are bits 128/64/32/16. */
  function BlackButtons(b: byte, s: Shifter): Shifter {
    s.(button1 := Flag(b, 128), button2 := Flag(b, 64), button3 := Flag(b, 16), button4 := Flag(b, 32))
  }

  /** The dpad table: residual 8 is neutral (0), residuals 0..7 are the
      positions top, top right, ..., top left (1..8); any other residual keeps
      the current value. */
  function DpadFor(residual: int, current: int): (d: int)
    ensures 0 <= residual <= 8 ==> d == (residual + 1) % 9
    ensures !(0 <= residual <= 8) ==> d == current
  {
    if residual == 8 then 0
    else if residual == 7 then 8
    else if residual == 6 then 7
    else if residual == 5 then 6
    else if residual == 4 then 5
    else if residual == 3 then 4
    else if residual == 2 then 3
    else if residual == 1 then 2
    else if residual == 0 then 1
    else current
  }

  /** The residual the device sends for a dpad state (the inverse of the table). */
  function DpadResidual(d: int): int {
    (d + 8) % 9
  }

  lemma DpadRoundTrip(d: int, current: int)
    requires 0 <= d <= 8
    ensures DpadFor(DpadResidual(d), current) == d
  {
  }

  /** Byte 0, low nibble: `reduceNumberFromTo(byte, 8)` leaves `byte % 16`. */
  function Dpad(b: byte, s: Shifter): Shifter {
    s.(dpad := DpadFor(b % 16, s.dpad))
  }

  /** Byte 1, high nibble: shifter red buttons 5/8/7/6 are bits 128/64/32/16. */
  function RedButtons(b: byte, s: Shifter): Shifter {
    s.(button5 := Flag(b, 128), button8 := Flag(b, 64), button7 := Flag(b, 32), button6 := Flag(b, 16))
  }

  /** The residual of byte 2 that selects each forward gear 0 (neutral) .. 6. */
  function GearCode(g: int): int
    requires 0 <= g <= 6
  {
    [0, 1, 2, 4, 8, 16, 32][g]
  }

  const GearCodes: set<int> := {0, 1, 2, 4, 8, 16, 32}

  /** The gear table: residuals 0, 1, 2, 4, 8, 16, 32 are gears 0..6; any
      other residual keeps the current gear. */
  function GearFor(residual: int, current: int): (g: int)
    ensures residual in GearCodes ==> 0 <= g <= 6 && GearCode(g) == residual
    ensures residual !in GearCodes ==> g == current
  {
    if residual == 0 then 0
    else if residual == 1 then 1
    else if residual == 2 then 2
    else if residual == 4 then 3
    else if residual == 8 then 4
    else if residual == 16 then 5
    else if residual == 32 then 6
    else current
  }

  lemma GearRoundTrip(g: int, current: int)
    requires 0 <= g <= 6
    ensures GearFor(GearCode(g), current) == g
  {
  }

  /** `shifterGear`: bit 0 of byte 10 is reverse (-1) whatever byte 2 holds;
      otherwise `reduceNumberFromTo(byte2, 32)`, that is `byte2 % 64`, goes
      through the gear table. */
  function Gear(b2: byte, b10: byte, s: Shifter): Shifter {
    if Bit(b10, 1) then s.(gear := -1)
    else s.(gear := GearFor(b2 % 64, s.gear))
  }

  // ---------------------------------------------------------------------
  // Wheel

  /** Byte 1, bits 1 and 2: the right and left shift paddles. */
  function ShiftPaddles(b: byte, w: Wheel): Wheel {
    w.(shiftRight := Flag(b, 1), shiftLeft := Flag(b, 2))
  }

  /** Byte 1, bits 8 and 4: wheel buttons 1 and 4. */
  function TopButtons(b: byte, w: Wheel): Wheel {
    w.(button1 := Flag(b, 8), button4 := Flag(b, 4))
  }

  /** Byte 2, bits 128 and 64: wheel buttons 6 and 5. */
  function RightButtons(b: byte, w: Wheel): Wheel {
    w.(button6 := Flag(b, 128), button5 := Flag(b, 64))
  }

  /** Byte 3, bits 1 and 2: wheel buttons 2 and 3, which share the byte with
      the fine turn value. */
  function LeftButtons(b: byte, w: Wheel): Wheel {
    w.(button2 := Flag(b, 1), button3 := Flag(b, 2))
  }

  /** The fine turn byte with its two button bits subtracted when set. */
  function FineTurn(b3: byte): (f: int)
    ensures f == b3 - b3 % 4
    ensures 0 <= f <= 252 && f % 4 == 0
  {
    var f := if Bit(b3, 1) then b3 - 1 else b3;
    if Bit(f, 2) then f - 2 else f
  }

  /** `wheelTurn`: coarse byte 4 scaled to 0..99 plus the fine value scaled to
      0..1, rounded to two places and clamped to [0, 100]. */
  function Turn(b3: byte, b4: byte): (t: real)
    ensures 0.0 <= t <= 100.0
    ensures IsIntegral(t * 100.0)
  {
    var wheel := Round2(b4 as real / 255.0 * 99.0 + FineTurn(b3) as real / 252.0);
    var wheel := if wheel > 100.0 then 100.0 else wheel;
    if wheel < 0.0 then 0.0 else wheel
  }

  /** The clamps never fire: the rounded sum already lies in [0, 100]. */
  lemma TurnNeedsNoClamp(b3: byte, b4: byte)
    ensures Turn(b3, b4) == Round2(b4 as real / 255.0 * 99.0 + FineTurn(b3) as real / 252.0)
  {
    var x := b4 as real / 255.0 * 99.0 + FineTurn(b3) as real / 252.0;
    Round2Monotonic(0.0, x);
    Round2Monotonic(x, 100.0);
    assert Round2(0.0) == 0.0 by { assert MathRound(0.0) == 0; }
    assert Round2(100.0) == 100.0 by { assert MathRound(10000.0) == 10000; }
  }

  /** Both bytes at their maximum is full right (100); both at 0 is full left (0). */
  lemma TurnExtremes(b3: byte)
    ensures b3 >= 252 ==> Turn(b3, 255) == 100.0
    ensures b3 < 4 ==> Turn(b3, 0) == 0.0
  {
    if b3 >= 252 {
      assert FineTurn(b3) == 252;
      assert MathRound(10000.0) == 10000;
    }
    if b3 < 4 {
      assert FineTurn(b3) == 0;
      assert MathRound(0.0) == 0;
    }
  }

  /** Turning further right (either byte larger) never decreases `turn`. */
  lemma TurnMonotonic(b3: byte, b4: byte, c3: byte, c4: byte)
    requires b3 <= c3 && b4 <= c4
    ensures Turn(b3, b4) <= Turn(c3, c4)
  {
    var x := b4 as real / 255.0 * 99.0 + FineTurn(b3) as real / 252.0;
    var y := c4 as real / 255.0 * 99.0 + FineTurn(c3) as real / 252.0;
    assert FineTurn(b3) <= FineTurn(c3);
    Round2Monotonic(x, y);
    TurnNeedsNoClamp(b3, b4);
    TurnNeedsNoClamp(c3, c4);
  }

  // ---------------------------------------------------------------------
  // The dispatch of `dataMap`

  /** What one changed position does to the state (the `switch` of `dataMap`).
      Positions 8, 9 and anything outside the table change nothing. */
  function ApplyPosition(pos: int, data: Report, s: State): State {
    if pos == 0 then
      s.(shifter := Dpad(data[0], BlackButtons(data[0], s.shifter)))
    else if pos == 1 then
      s.(shifter := RedButtons(data[1], s.shifter),
         wheel := TopButtons(data[1], ShiftPaddles(data[1], s.wheel)))
    else if pos == 2 then
      s.(shifter := Gear(data[2], data[10], s.shifter), wheel := RightButtons(data[2], s.wheel))
    else if pos == 3 || pos == 4 then
      s.(wheel := LeftButtons(data[3], s.wheel.(turn := Turn(data[3], data[4]))))
    else if pos == 5 then
      s.(pedals := s.pedals.(gas := PedalToPercent(data[5])))
    else if pos == 6 then
      s.(pedals := s.pedals.(brake := PedalToPercent(data[6])))
    else if pos == 7 then
      s.(pedals := s.pedals.(clutch := PedalToPercent(data[7])))
    else if pos == 10 then
      s.(shifter := Gear(data[2], data[10], s.shifter))
    else
      s
  }

  /** `dataMap`: the positions applied in list order. */
  function ApplyPositions(positions: seq<int>, data: Report, s: State): State
    decreases |positions|
  {
    if positions == [] then s
    else ApplyPosition(positions[|positions| - 1], data,
                       ApplyPositions(positions[..|positions| - 1], data, s))
  }

  /** The fields each position governs. */
  function Governs(pos: int): set<Field> {
    if pos == 0 then
      {ShifterButton1, ShifterButton2, ShifterButton3, ShifterButton4, ShifterDpad}
    else if pos == 1 then
      {ShifterButton5, ShifterButton6, ShifterButton7, ShifterButton8,
       WheelShiftLeft, WheelShiftRight, WheelButton1, WheelButton4}
    else if pos == 2 then {ShifterGear, WheelButton5, WheelButton6}
    else if pos == 3 || pos == 4 then {WheelTurn, WheelButton2, WheelButton3}
    else if pos == 5 then {PedalsGas}
    else if pos == 6 then {PedalsBrake}
    else if pos == 7 then {PedalsClutch}
    else if pos == 10 then {ShifterGear}
    else {}
  }

  /** One position rewrites only the fields it governs. */
  lemma ApplyPositionFrame(pos: int, data: Report, s: State, f: Field)
    requires f !in Governs(pos)
    ensures Get(ApplyPosition(pos, data, s), f) == Get(s, f)
  {
  }

  /** Positions 8 and 9 (the shifter coordinates) and unknown positions are no-ops. */
  lemma UnusedPositionsChangeNothing(pos: int, data: Report, s: State)
    requires pos !in {0, 1, 2, 3, 4, 5, 6, 7, 10}
    ensures ApplyPosition(pos, data, s) == s
  {
  }

  /** `dataMap` leaves every field that no listed position governs unchanged. */
  lemma {:induction false} ApplyPositionsFrame(positions: seq<int>, data: Report, s: State, f: Field)
    requires forall i :: 0 <= i < |positions| ==> f !in Governs(positions[i])
    ensures Get(ApplyPositions(positions, data, s), f) == Get(s, f)
    decreases |positions|
  {
    if positions != [] {
      var init := positions[..|positions| - 1];
      ApplyPositionsFrame(init, data, s, f);
      ApplyPositionFrame(positions[|positions| - 1], data, ApplyPositions(init, data, s), f);
    }
  }

  /** Reverse wins: with bit 0 of byte 10 set, any change at position 2 or 10
      leaves the gear at -1, whatever order the positions come in. */
  lemma {:induction false} ReverseOverrides(positions: seq<int>, data: Report, s: State)
    requires Bit(data[10], 1)
    requires 2 in positions || 10 in positions
    ensures ApplyPositions(positions, data, s).shifter.gear == -1
    decreases |positions|
  {
    var last := positions[|positions| - 1];
    var init := positions[..|positions| - 1];
    if last != 2 && last != 10 {
      assert positions == init + [last];
      assert 2 in init || 10 in init;
      ReverseOverrides(init, data, s);
      ApplyPositionFrame(last, data, ApplyPositions(init, data, s), ShifterGear);
    }
  }

  lemma Position0InRange(b: byte, s: Shifter)
    requires ShifterInRange(s)
    ensures ShifterInRange(Dpad(b, BlackButtons(b, s)))
  {
    var r := b % 16;
    if r <= 8 {
      assert DpadFor(r, s.dpad) == (r + 1) % 9;
    }
  }

  lemma RedButtonsInRange(b: byte, s: Shifter)
    requires ShifterInRange(s)
    ensures ShifterInRange(RedButtons(b, s))
  {
  }

  lemma GearInRange(b2: byte, b10: byte, s: Shifter)
    requires ShifterInRange(s)
    ensures ShifterInRange(Gear(b2, b10, s))
  {
  }

  lemma WheelDecodersInRange(data: Report, w: Wheel)
    requires WheelInRange(w)
    ensures WheelInRange(TopButtons(data[1], ShiftPaddles(data[1], w)))
    ensures WheelInRange(RightButtons(data[2], w))
    ensures WheelInRange(LeftButtons(data[3], w.(turn := Turn(data[3], data[4]))))
  {
  }

  /** Each position keeps every field within its documented range. */
  lemma ApplyPositionWellFormed(pos: int, data: Report, s: State)
    requires WellFormed(s)
    ensures WellFormed(ApplyPosition(pos, data, s))
  {
    Position0InRange(data[0], s.shifter);
    RedButtonsInRange(data[1], s.shifter);
    GearInRange(data[2], data[10], s.shifter);
    WheelDecodersInRange(data, s.wheel);
  }

  /** Decoding any list of positions keeps the state well-formed: buttons
      0/1, dpad 0..8, gear -1..6, turn in [0, 100], pedals in [0, 1]. */
  lemma {:induction false} ApplyPositionsWellFormed(positions: seq<int>, data: Report, s: State)
    requires WellFormed(s)
    ensures WellFormed(ApplyPositions(positions, data, s))
    decreases |positions|
  {
    if positions != [] {
      var init := positions[..|positions| - 1];
      ApplyPositionsWellFormed(init, data, s);
      ApplyPositionWellFormed(positions[|positions| - 1], data, ApplyPositions(init, data, s));
    }
  }

  /** Byte 1 is decoded without loss: its eight bits are the shifter red
      buttons 5/8/7/6, wheel buttons 1/4 and the left/right paddles. */
  lemma Byte1Lossless(data: Report, s: State)
    ensures var t := ApplyPosition(1, data, s);
      data[1] == 128 * t.shifter.button5 + 64 * t.shifter.button8 + 32 * t.shifter.button7
               + 16 * t.shifter.button6 + 8 * t.wheel.button1 + 4 * t.wheel.button4
               + 2 * t.wheel.shiftLeft + t.wheel.shiftRight
  {
    FlagsRebuildByte(data[1]);
  }

  /** Byte 0 is decoded without loss whenever its low nibble is a dpad
      residual (0..8): the black buttons give the high nibble, the dpad the low. */
  lemma Byte0Lossless(data: Report, s: State)
    requires data[0] % 16 <= 8
    ensures var t := ApplyPosition(0, data, s);
      data[0] == 128 * t.shifter.button1 + 64 * t.shifter.button2 + 32 * t.shifter.button4
               + 16 * t.shifter.button3 + DpadResidual(t.shifter.dpad)
  {
    FlagsRebuildByte(data[0]);
    assert data[0] % 16 == 8 * Flag(data[0], 8) + 4 * Flag(data[0], 4) + 2 * Flag(data[0], 2) + Flag(data[0], 1);
  }

  /** Byte 2 is decoded without loss when not in reverse and its low six bits
      name a gear: bits 128/64 are wheel buttons 6/5, the rest the gear code. */
  lemma Byte2Lossless(data: Report, s: State)
    requires !Bit(data[10], 1) && data[2] % 64 in GearCodes
    ensures var t := ApplyPosition(2, data, s);
      0 <= t.shifter.gear <= 6 &&
      data[2] == 128 * t.wheel.button6 + 64 * t.wheel.button5 + GearCode(t.shifter.gear)
  {
    var b := data[2];
    var r := b % 64;
    var q := b / 64;
    assert b == 64 * q + r && 0 <= q < 4;
    assert b / 128 == q / 2;
    assert q == 2 * Flag(b, 128) + Flag(b, 64);
    var t := ApplyPosition(2, data, s);
    assert t.shifter.gear == GearFor(r, s.shifter.gear);
    assert GearCode(t.shifter.gear) == r;
  }

  /** Byte 3 is decoded without loss: its two low bits are wheel buttons 2 and
      3, the rest is the fine turn value that enters `turn`. */
  lemma Byte3Lossless(data: Report, s: State)
    ensures var t := ApplyPosition(3, data, s);
      data[3] == FineTurn(data[3]) + 2 * t.wheel.button3 + t.wheel.button2
  {
    var b := data[3];
    assert b % 4 == 2 * ((b / 2) % 2) + b % 2;
  }

  // ---------------------------------------------------------------------
  // The `memory` object and the in-place decoders

  /** The `memory` object that `dataMap` and the decoders mutate. */
  class Memory {
    var wheel: Wheel
    var shifter: Shifter
    var pedals: Pedals

    /** A fresh copy of a state (what `clone(memoryPrev)` makes). */
    constructor (s: State)
      ensures Snapshot() == s
    {
      wheel, shifter, pedals := s.wheel, s.shifter, s.pedals;
    }

    function Snapshot(): State
      reads this
    {
      State(wheel, shifter, pedals)
    }

    method ShifterBlackButtons(data: Report)
      modifies this
      ensures shifter == BlackButtons(data[0], old(shifter))
      ensures wheel == old(wheel) && pedals == old(pedals)
    {
      var d := data[0];
      shifter := shifter.(button1 := if Bit(d, 128) then 1 else 0);
      shifter := shifter.(button2 := if Bit(d, 64) then 1 else 0);
      shifter := shifter.(button3 := if Bit(d, 16) then 1 else 0);
      shifter := shifter.(button4 := if Bit(d, 32) then 1 else 0);
    }

    method ShifterDpad(data: Report)
      modifies this
      ensures shifter == Dpad(data[0], old(shifter))
      ensures wheel == old(wheel) && pedals == old(pedals)
    {
      var dpad := ReduceNumberFromTo(data[0], 8);
      shifter := shifter.(dpad := DpadFor(dpad, shifter.dpad));
    }

    method ShifterRedButtons(data: Report)
      modifies this
      ensures shifter == RedButtons(data[1], old(shifter))
      ensures wheel == old(wheel) && pedals == old(pedals)
    {
      var d := data[1];
      shifter := shifter.(button5 := if Bit(d, 128) then 1 else 0);
      shifter := shifter.(button8 := if Bit(d, 64) then 1 else 0);
      shifter := shifter.(button7 := if Bit(d, 32) then 1 else 0);
      shifter := shifter.(button6 := if Bit(d, 16) then 1 else 0);
    }

    method ShifterGear(data: Report)
      modifies this
      ensures shifter == Gear(data[2], data[10], old(shifter))
      ensures wheel == old(wheel) && pedals == old(pedals)
    {
      if Bit(data[10], 1) {
        shifter := shifter.(gear := -1);
        return;
      }
      var stick := ReduceNumberFromTo(data[2], 32);
      shifter := shifter.(gear := GearFor(stick, shifter.gear));
    }

    method WheelShiftPedals(data: Report)
      modifies this
      ensures wheel == ShiftPaddles(data[1], old(wheel))
      ensures shifter == old(shifter) && pedals == old(pedals)
    {
      var d := data[1];
      wheel := wheel.(shiftRight := Flag(d, 1));
      wheel := wheel.(shiftLeft := if Bit(d, 2) then 1 else 0);
    }

    method WheelButtonsTop(data: Report)
      modifies this
      ensures wheel == TopButtons(data[1], old(wheel))
      ensures shifter == old(shifter) && pedals == old(pedals)
    {
      var d := data[1];
      wheel := wheel.(button1 := if Bit(d, 8) then 1 else 0);
      wheel := wheel.(button4 := if Bit(d, 4) then 1 else 0);
    }

    method WheelButtonsRight(data: Report)
      modifies this
      ensures wheel == RightButtons(data[2], old(wheel))
      ensures shifter == old(shifter) && pedals == old(pedals)
    {
      var d := data[2];
      wheel := wheel.(button6 := if Bit(d, 128) then 1 else 0);
      wheel := wheel.(button5 := if Bit(d, 64) then 1 else 0);
    }

    method WheelButtonsLeft(data: Report)
      modifies this
      ensures wheel == LeftButtons(data[3], old(wheel))
      ensures shifter == old(shifter) && pedals == old(pedals)
    {
      var d := data[3];
      wheel := wheel.(button2 := Flag(d, 1));
      wheel := wheel.(button3 := if Bit(d, 2) then 1 else 0);
    }

    method WheelTurn(data: Report)
      modifies this
      ensures wheel == old(wheel).(turn := Turn(data[3], data[4]))
      ensures shifter == old(shifter) && pedals == old(pedals)
    {
      wheel := wheel.(turn := Turn(data[3], data[4]));
    }

    method PedalsGas(data: Report)
      modifies this
      ensures pedals == old(pedals).(gas := PedalToPercent(data[5]))
      ensures wheel == old(wheel) && shifter == old(shifter)
    {
      pedals := pedals.(gas := PedalToPercent(data[5]));
    }

    method PedalsBrake(data: Report)
      modifies this
      ensures pedals == old(pedals).(brake := PedalToPercent(data[6]))
      ensures wheel == old(wheel) && shifter == old(shifter)
    {
      pedals := pedals.(brake := PedalToPercent(data[6]));
    }

    method PedalsClutch(data: Report)
      modifies this
      ensures pedals == old(pedals).(clutch := PedalToPercent(data[7]))
      ensures wheel == old(wheel) && shifter == old(shifter)
    {
      pedals := pedals.(clutch := PedalToPercent(data[7]));
    }

    /** `dataMap`: walk the changed positions in order and run the decoders
        each one governs. */
    method DataMap(positions: seq<int>, data: Report)
      modifies this
      ensures Snapshot() == ApplyPositions(positions, data, old(Snapshot()))
    {
      var i := 0;
      while i < |positions|
        invariant 0 <= i <= |positions|
        invariant Snapshot() == ApplyPositions(positions[..i], data, old(Snapshot()))
      {
        var pos := positions[i];
        if pos == 0 {
          ShifterBlackButtons(data);
          ShifterDpad(data);
        } else if pos == 1 {
          ShifterRedButtons(data);
          WheelShiftPedals(data);
          WheelButtonsTop(data);
        } else if pos == 2 {
          ShifterGear(data);
          WheelButtonsRight(data);
        } else if pos == 3 || pos == 4 {
          WheelTurn(data);
          WheelButtonsLeft(data);
        } else if pos == 5 {
          PedalsGas(data);
        } else if pos == 6 {
          PedalsBrake(data);
        } else if pos == 7 {
          PedalsClutch(data);
        } else if pos == 10 {
          ShifterGear(data);
        }
        assert positions[..i + 1][..i] == positions[..i];
        i := i + 1;
      }
      assert positions[..i] == positions;
    }
  }
}
