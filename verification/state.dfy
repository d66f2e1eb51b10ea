/** The decoded control state of the G27: the `wheel`, `shifter` and `pedals`
    groups of the `memory` object, and a uniform view of its fields (group
    name, field name, numeric value) that the change detector iterates. */
module ControlState {
  import opened Numeric

  /** `memory.wheel`. `turn` is a percentage in [0, 100]; the rest are 0/1. */
  datatype Wheel = Wheel(
    turn: real,
    shiftLeft: int,
    shiftRight: int,
    button1: int,
    button2: int,
    button3: int,
    button4: int,
    button5: int,
    button6: int)

  /** `memory.shifter`. Buttons are 0/1, `dpad` is 0 (neutral) or 1..8
      clockwise from top, `gear` is -1 (reverse), 0 (neutral) or 1..6. */
  datatype Shifter = Shifter(
    button1: int,
    button2: int,
    button3: int,
    button4: int,
    dpad: int,
    button5: int,
    button6: int,
    button7: int,
    button8: int,
    gear: int)

  /** `memory.pedals`: fractions in [0, 1], 1 meaning fully pressed. */
  datatype Pedals = Pedals(gas: real, brake: real, clutch: real)

  datatype State = State(wheel: Wheel, shifter: Shifter, pedals: Pedals)

  /** The state before the first report: the wheel centred, everything else 0. */
  const Initial: State :=
    State(Wheel(50.0, 0, 0, 0, 0, 0, 0, 0, 0),
          Shifter(0, 0, 0, 0, 0, 0, 0, 0, 0, 0),
          Pedals(0.0, 0.0, 0.0))

  predicate IsButton(v: int) {
    v == 0 || v == 1
  }

  predicate WheelInRange(w: Wheel) {
    && 0.0 <= w.turn <= 100.0
    && IsButton(w.shiftLeft) && IsButton(w.shiftRight)
    && IsButton(w.button1) && IsButton(w.button2) && IsButton(w.button3)
    && IsButton(w.button4) && IsButton(w.button5) && IsButton(w.button6)
  }

  predicate ShifterInRange(s: Shifter) {
    && IsButton(s.button1) && IsButton(s.button2) && IsButton(s.button3) && IsButton(s.button4)
    && IsButton(s.button5) && IsButton(s.button6) && IsButton(s.button7) && IsButton(s.button8)
    && 0 <= s.dpad <= 8
    && -1 <= s.gear <= 6
  }

  predicate PedalsInRange(p: Pedals) {
    0.0 <= p.gas <= 1.0 && 0.0 <= p.brake <= 1.0 && 0.0 <= p.clutch <= 1.0
  }

  /** The documented value ranges of every field. */
  predicate WellFormed(s: State) {
    WheelInRange(s.wheel) && ShifterInRange(s.shifter) && PedalsInRange(s.pedals)
  }

  lemma InitialWellFormed()
    ensures WellFormed(Initial)
  {
  }

  /** One field of the state, named after its group and its key. */
  datatype Field =
    | WheelTurn | WheelShiftLeft | WheelShiftRight
    | WheelButton1 | WheelButton4 | WheelButton5 | WheelButton6
    | WheelButton2 | WheelButton3
    | ShifterButton1 | ShifterButton2 | ShifterButton3 | ShifterButton4 | ShifterDpad
    | ShifterButton5 | ShifterButton6 | ShifterButton7 | ShifterButton8 | ShifterGear
    | PedalsGas | PedalsBrake | PedalsClutch

  /** Every field in the order the change detector visits them: groups in the
      order `wheel`, `shifter`, `pedals`, and inside a group the key order of
      the `memory` object (the wheel's `button_2` and `button_3` are added by
      the decoder after the initial keys). */
  const AllFields: seq<Field> := [
    WheelTurn, WheelShiftLeft, WheelShiftRight,
    WheelButton1, WheelButton4, WheelButton5, WheelButton6,
    WheelButton2, WheelButton3,
    ShifterButton1, ShifterButton2, ShifterButton3, ShifterButton4, ShifterDpad,
    ShifterButton5, ShifterButton6, ShifterButton7, ShifterButton8, ShifterGear,
    PedalsGas, PedalsBrake, PedalsClutch]

  lemma AllFieldsComplete(f: Field)
    ensures f in AllFields
  {
  }

  lemma AllFieldsDistinct()
    ensures forall i, j :: 0 <= i < j < |AllFields| ==> AllFields[i] != AllFields[j]
  {
  }

  function Group(f: Field): string {
    match f
    case WheelTurn | WheelShiftLeft | WheelShiftRight | WheelButton1 | WheelButton2
      | WheelButton3 | WheelButton4 | WheelButton5 | WheelButton6 => "wheel"
    case PedalsGas | PedalsBrake | PedalsClutch => "pedals"
    case _ => "shifter"
  }

  function Key(f: Field): string {
    match f
    case WheelTurn => "turn"
    case WheelShiftLeft => "shift_left"
    case WheelShiftRight => "shift_right"
    case WheelButton1 => "button_1"
    case WheelButton2 => "button_2"
    case WheelButton3 => "button_3"
    case WheelButton4 => "button_4"
    case WheelButton5 => "button_5"
    case WheelButton6 => "button_6"
    case ShifterButton1 => "button_1"
    case ShifterButton2 => "button_2"
    case ShifterButton3 => "button_3"
    case ShifterButton4 => "button_4"
    case ShifterDpad => "dpad"
    case ShifterButton5 => "button_5"
    case ShifterButton6 => "button_6"
    case ShifterButton7 => "button_7"
    case ShifterButton8 => "button_8"
    case ShifterGear => "gear"
    case PedalsGas => "gas"
    case PedalsBrake => "brake"
    case PedalsClutch => "clutch"
  }

  /** The per-field event name, `<group>-<key>`, for example `wheel-button_1`. */
  function EventName(f: Field): string {
    Group(f) + "-" + Key(f)
  }

  /** Distinct fields have distinct event names, so a listener on one name
      hears exactly one field. */
  lemma EventNamesDistinct(f: Field, g: Field)
    requires f != g
    ensures EventName(f) != EventName(g)
  {
    var nf, ng := EventName(f), EventName(g);
    if Group(f) == Group(g) {
      assert Key(f) != Key(g);
      var n := |Group(f)| + 1;
      assert nf[n..] == Key(f) && ng[n..] == Key(g);
    } else {
      assert nf[0] != ng[0];
    }
  }

  /** The numeric value of a field, as the event carries it. */
  function Get(s: State, f: Field): real {
    match f
    case WheelTurn => s.wheel.turn
    case WheelShiftLeft => s.wheel.shiftLeft as real
    case WheelShiftRight => s.wheel.shiftRight as real
    case WheelButton1 => s.wheel.button1 as real
    case WheelButton2 => s.wheel.button2 as real
    case WheelButton3 => s.wheel.button3 as real
    case WheelButton4 => s.wheel.button4 as real
    case WheelButton5 => s.wheel.button5 as real
    case WheelButton6 => s.wheel.button6 as real
    case ShifterButton1 => s.shifter.button1 as real
    case ShifterButton2 => s.shifter.button2 as real
    case ShifterButton3 => s.shifter.button3 as real
    case ShifterButton4 => s.shifter.button4 as real
    case ShifterDpad => s.shifter.dpad as real
    case ShifterButton5 => s.shifter.button5 as real
    case ShifterButton6 => s.shifter.button6 as real
    case ShifterButton7 => s.shifter.button7 as real
    case ShifterButton8 => s.shifter.button8 as real
    case ShifterGear => s.shifter.gear as real
    case PedalsGas => s.pedals.gas
    case PedalsBrake => s.pedals.brake
    case PedalsClutch => s.pedals.clutch
  }

  /** Two states that agree on every field are the same state: comparing
      field by field is comparing the whole record. */
  lemma StatesEqualByFields(a: State, b: State)
    requires forall f :: Get(a, f) == Get(b, f)
    ensures a == b
  {
    assert a.wheel == b.wheel by {
      assert Get(a, WheelTurn) == Get(b, WheelTurn);
      assert Get(a, WheelShiftLeft) == Get(b, WheelShiftLeft);
      assert Get(a, WheelShiftRight) == Get(b, WheelShiftRight);
      assert Get(a, WheelButton1) == Get(b, WheelButton1);
      assert Get(a, WheelButton2) == Get(b, WheelButton2);
      assert Get(a, WheelButton3) == Get(b, WheelButton3);
      assert Get(a, WheelButton4) == Get(b, WheelButton4);
      assert Get(a, WheelButton5) == Get(b, WheelButton5);
      assert Get(a, WheelButton6) == Get(b, WheelButton6);
    }
    assert a.shifter == b.shifter by {
      assert Get(a, ShifterButton1) == Get(b, ShifterButton1);
      assert Get(a, ShifterButton2) == Get(b, ShifterButton2);
      assert Get(a, ShifterButton3) == Get(b, ShifterButton3);
      assert Get(a, ShifterButton4) == Get(b, ShifterButton4);
      assert Get(a, ShifterDpad) == Get(b, ShifterDpad);
      assert Get(a, ShifterButton5) == Get(b, ShifterButton5);
      assert Get(a, ShifterButton6) == Get(b, ShifterButton6);
      assert Get(a, ShifterButton7) == Get(b, ShifterButton7);
      assert Get(a, ShifterButton8) == Get(b, ShifterButton8);
      assert Get(a, ShifterGear) == Get(b, ShifterGear);
    }
    assert a.pedals == b.pedals by {
      assert Get(a, PedalsGas) == Get(b, PedalsGas);
      assert Get(a, PedalsBrake) == Get(b, PedalsBrake);
      assert Get(a, PedalsClutch) == Get(b, PedalsClutch);
    }
  }
}
