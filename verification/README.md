# Logitech G27 driver core, modelled in Dafny

This project models the protocol core of the `logitech-g27` Node.js driver.

- **Input reports.** The wheel sends 11-byte input reports.
  - The decoder of `code/data-map.js` turns the bytes that changed into the `wheel`, `shifter` and `pedals` fields of a `memory` object.
  - The fields are buttons (0/1), the dpad (0..8), the gear (-1..6), the wheel turn (a percentage) and the pedals (fractions).
- **The `data` handler of `listen` in `index.js`.** It runs once per report:
  1. It lists the byte positions that differ from the previous report.
  2. It decodes those positions into a copy of the previous state, using the older copy of the decoders kept in `index.js`.
  3. It compares the result with the previous state field by field.
  4. It emits one `<group>-<key>` event per changed field, then `changes`, then `all`.
  5. It keeps the report and the state for the next round.
- **Output commands.** `index.js` builds the 7- and 8-byte output reports for the rotation range, auto-centering, constant and friction forces, force-off and the rev-light LEDs.

Modules:

- `Numeric` (numeric.dfy) holds the bit tests on bytes and the greedy power-of-two reduction `reduceNumberFromTo`, which is the same as `reduceNumberTo`. It also holds `Math.round`, the decimal `round` and `pedalToPercent`.
  - Numbers are exact: a JavaScript number is a `real`, a byte an `int` in 0..255.
  - `round`'s NaN is `None`.
- `ControlState` (state.dfy) holds the state record and its value ranges.
  - It also holds the list of fields in the order the handler visits them, their event names and a field-wise view of a state.
- `DataMap` (decoder.dfy) is the canonical decoder of `code/data-map.js`.
  - Each decoder is specified by a function on the field group it rewrites.
  - The `Memory` class is the mutable `memory` object, with one method per decoder.
  - `Memory.DataMap` is the loop over the changed positions, proved equal to `ApplyPositions`.
- `LegacyDecoder` (legacy.dfy) holds the decoders of `index.js` and the `switch` that calls them, and states how they relate to the canonical ones.
  - Most decode the same bits by other arithmetic.
  - `wheelTurn` clamps the fine byte instead of clearing its button bits.
  - Wheel buttons 2 and 3 are never decoded.
  - `case 0` falls through into `case 1`.
- `Listen` (cycle.dfy) models the `data` handler.
  - The `Session` class holds the globals `dataPrev` and `memoryPrev` and the log of emitted events.
- `Commands` (commands.dfy) holds the output encoders as functions.
  - The `Controller` class holds the `options` they read and the log of every report written.

The `data` handler is modelled as the code has it: it decodes with the `index.js` copy of the decoders, not with `code/data-map.js`. `LegacyDecoder.LegacyMatchesCanonical` shows that the two give the same state whenever no changed position is 0, 3 or 4.

The LED encoder is modelled as the code behaves: every `leds` call with no argument, a number, a string or an array writes. The guard `ledPrev === setting` at index.js:286 is evidently meant to skip a setting equal to the previous one. As written, it compares the freshly built array with `ledPrev`, which is either the initial empty array of index.js:15 (a different object) or the number stored by a previous call. So it never fires, and the model never suppresses a write.

## Model

| member | source | states |
|---|---|---|
| Numeric.Flag | code/data-map.js:245-252 | a decoded button is always 0 or 1 |
| Numeric.FlagsRebuildByte | code/data-map.js:410-419 | the eight bit flags of a byte, weighted 128..1, add back up to the byte |
| Numeric.ReduceNumberFromTo | code/data-map.js:162-186 | the greedy loop returns a value in [0, num]; a value already below `2*to` comes back unchanged; for `to` a power of two up to 128 the result is `num % (2*to)`, so below `2*to` (also `reduceNumberTo`, index.js:153-173) |
| Numeric.MathRound | code/data-map.js:194-196 | `Math.round` gives the integer within half of x, halves rounded up |
| Numeric.ShiftRound | code/data-map.js:205-212 | shifting by p = 10^exp, rounding and shifting back gives r with r*p an integer within half of num*p |
| Numeric.Round | code/data-map.js:188-213 | exp absent or 0 is `Math.round`; a non-integral exp is NaN (None); otherwise the exact decimal shift-round (also the copy at index.js:181-200) |
| Numeric.ShiftRoundZero | code/data-map.js:194-196 | a zero-place shift-round equals `Math.round`, so the `exp == 0` shortcut changes nothing |
| Numeric.Round2 | code/data-map.js:269 | `round(x, 2)` is within half a hundredth of x and has two-decimal resolution |
| Numeric.Round2Idempotent | code/data-map.js:188-213 | rounding to two places twice is rounding once |
| Numeric.RoundHalfCentUp | code/data-map.js:205-212 | decimal shifting rounds 1.005 to 1.01 |
| Numeric.Round2Monotonic | code/data-map.js:188-213 | rounding to two places preserves order |
| Numeric.PedalToPercent | code/data-map.js:298-306 | a pedal reads (255 − raw)/255 to the nearest hundredth, so the value lies in [0, 1] at two-decimal resolution; raw 0 is 1 (full) and raw 255 is 0 |
| Numeric.PedalToPercentAntitone | code/data-map.js:298-306 | a larger raw byte never gives a larger percentage |
| ControlState.InitialWellFormed | index.js:16-45 | the initial state (turn 50, all else 0) is within every documented range |
| ControlState.AllFieldsComplete | index.js:942-943 | the diff loop visits every field of the state |
| ControlState.AllFieldsDistinct | index.js:942-943 | the diff loop visits no field twice |
| ControlState.EventNamesDistinct | index.js:948 | two different fields never share an event name (`<group>-<key>`), so a listener on one name hears exactly one field |
| ControlState.StatesEqualByFields | index.js:942-944 | two states that agree on every field compared by the loop are equal |
| DataMap.DpadFor | code/data-map.js:322-364 | residual 8 is neutral (0), residuals 0..7 are dpad 1..8, any other residual keeps the current value |
| DataMap.DpadRoundTrip | code/data-map.js:322-364 | every dpad value 0..8 is decoded back from its residual |
| DataMap.GearFor | code/data-map.js:374-405 | residuals 0, 1, 2, 4, 8, 16, 32 select gears 0..6 and no other residual changes the gear |
| DataMap.GearRoundTrip | code/data-map.js:374-405 | every forward gear 0..6 is decoded back from its code |
| DataMap.FineTurn | code/data-map.js:258-264 | the fine turn byte loses exactly its two button bits and stays in 0..252 |
| DataMap.Turn | code/data-map.js:254-278 | the wheel turn lies in [0, 100] with two-decimal resolution |
| DataMap.TurnNeedsNoClamp | code/data-map.js:269-273 | the clamps to [0, 100] never fire: the rounded sum is already in range |
| DataMap.TurnExtremes | code/data-map.js:254-278 | byte 4 = 255 with byte 3 >= 252 is 100; bytes 4 and 3 at 0 (buttons aside) are 0 |
| DataMap.TurnMonotonic | code/data-map.js:254-278 | a larger byte 3 or byte 4 never decreases the turn |
| DataMap.ApplyPositionFrame | code/data-map.js:125-158 | a changed position rewrites only the fields it governs |
| DataMap.UnusedPositionsChangeNothing | code/data-map.js:125-158 | positions 8, 9 and any position without a `case` change nothing |
| DataMap.ApplyPositionsFrame | code/data-map.js:117-160 | `dataMap` leaves every field that no listed position governs unchanged |
| DataMap.ReverseOverrides | code/data-map.js:366-372 | with bit 0 of byte 10 set, a change at position 2 or 10 leaves the gear at -1 whatever the order |
| DataMap.Position0InRange | code/data-map.js:311-364 | the black buttons and dpad stay 0/1 and 0..8 |
| DataMap.RedButtonsInRange | code/data-map.js:410-419 | the red buttons stay 0/1 |
| DataMap.GearInRange | code/data-map.js:366-408 | the gear stays in -1..6 |
| DataMap.WheelDecodersInRange | code/data-map.js:218-278 | the wheel buttons, paddles and turn stay in range |
| DataMap.ApplyPositionWellFormed | code/data-map.js:125-158 | each position keeps the whole state within its documented ranges |
| DataMap.ApplyPositionsWellFormed | code/data-map.js:117-160 | `dataMap` over any positions keeps the state within its documented ranges |
| DataMap.Byte1Lossless | code/data-map.js:131-135 | bits 128/64/32/16 of byte 1 are shifter buttons 5/8/7/6, bits 8/4 wheel buttons 1/4, bits 2/1 the left/right paddles: the byte is rebuilt from them |
| DataMap.Byte0Lossless | code/data-map.js:127-130 | bits 128/64/16/32 of byte 0 are black buttons 1/2/3/4; with the dpad residual they rebuild the byte |
| DataMap.Byte2Lossless | code/data-map.js:136-139 | out of reverse with a valid gear code, bits 128/64 are wheel buttons 6/5 and the rest is the gear's code |
| DataMap.Byte3Lossless | code/data-map.js:140-144 | bits 1 and 2 of byte 3 are wheel buttons 2 and 3, the rest is the fine turn value |
| DataMap.Memory.constructor | code/data-map.js:117-123 | the copy holds exactly the given state |
| DataMap.Memory.ShifterBlackButtons | code/data-map.js:311-320 | rewrites the four black buttons from byte 0; wheel and pedals unchanged |
| DataMap.Memory.ShifterDpad | code/data-map.js:322-364 | reduces byte 0 to its low nibble and rewrites the dpad through the table; nothing else changes |
| DataMap.Memory.ShifterRedButtons | code/data-map.js:410-419 | rewrites the four red buttons from byte 1; nothing else changes |
| DataMap.Memory.ShifterGear | code/data-map.js:366-408 | sets reverse from byte 10, else reduces byte 2 to `% 64` and rewrites the gear through the table; nothing else changes |
| DataMap.Memory.WheelShiftPedals | code/data-map.js:245-252 | rewrites the two paddles from byte 1; nothing else changes |
| DataMap.Memory.WheelButtonsTop | code/data-map.js:236-243 | rewrites wheel buttons 1 and 4 from byte 1; nothing else changes |
| DataMap.Memory.WheelButtonsRight | code/data-map.js:227-234 | rewrites wheel buttons 6 and 5 from byte 2; nothing else changes |
| DataMap.Memory.WheelButtonsLeft | code/data-map.js:218-225 | rewrites wheel buttons 2 and 3 from byte 3; nothing else changes |
| DataMap.Memory.WheelTurn | code/data-map.js:254-278 | rewrites only the turn, from bytes 3 and 4 |
| DataMap.Memory.PedalsGas | code/data-map.js:293-296 | rewrites only the gas pedal, from byte 5 |
| DataMap.Memory.PedalsBrake | code/data-map.js:283-286 | rewrites only the brake pedal, from byte 6 |
| DataMap.Memory.PedalsClutch | code/data-map.js:288-291 | rewrites only the clutch pedal, from byte 7 |
| DataMap.Memory.DataMap | code/data-map.js:117-160 | after the loop the memory is the positions applied in list order to the old memory |
| LegacyDecoder.HexDigitRoundTrip | index.js:376 | `parseInt` of a digit of `toString('hex')` gives back the nibble it was written from: the high nibble for the first digit, the low for the second |
| LegacyDecoder.LegacyBlackButtonsAgree | index.js:337-373 | the hex-digit subtraction chain decodes the same black buttons as the bit tests |
| LegacyDecoder.LegacyDpadAgrees | index.js:375-417 | the second hex digit selects the dpad direction through the same table as the canonical decoder; a digit above 8 changes nothing, and no other field changes |
| LegacyDecoder.LegacyRedButtonsAgree | index.js:419-454 | the subtraction chain on byte 1 decodes the same red buttons |
| LegacyDecoder.LegacyGearAgrees | index.js:456-499 | reading reverse from the 22nd hex digit and reducing byte 2 gives the same gear |
| LegacyDecoder.LegacyTopButtonsAgree | index.js:532-551 | `reduceNumberTo(byte, 8)` then subtracting gives the same wheel buttons 1 and 4 |
| LegacyDecoder.LegacyRightButtonsAgree | index.js:553-570 | the subtraction chain on byte 2 gives the same wheel buttons 6 and 5 |
| LegacyDecoder.LegacyShiftPaddlesAgree | index.js:572-591 | `reduceNumberTo(byte, 2)` then subtracting gives the same paddles |
| LegacyDecoder.ClampedFine | index.js:597-599 | the clamped fine byte is in 0..252 and unchanged up to 252 |
| LegacyDecoder.LegacyTurnNeedsNoClamp | index.js:593-613 | the clamps of the `index.js` turn never fire: it is the sum of the scaled coarse and clamped fine bytes, rounded to the nearest hundredth |
| LegacyDecoder.ClampedFineNearFine | index.js:597-599 | the clamped fine byte is at least the masked one and at most 3 above it |
| LegacyDecoder.LegacyTurnNearTurn | index.js:593-613 | the `index.js` turn is never below the `code/data-map.js` turn and at most 0.02 above it |
| LegacyDecoder.LegacyTurn | index.js:593-613 | the `index.js` turn lies in [0, 100] with two-decimal resolution |
| LegacyDecoder.FineVariantsAgreeIff | index.js:597-599 | clamping and bit-clearing agree exactly when the button bits are clear or the byte is at least 252 |
| LegacyDecoder.TurnVariantsAgree | index.js:593-613 | the two `wheelTurn` variants agree when byte 3 has its button bits clear (or is at least 252) |
| LegacyDecoder.TurnVariantsDiffer | index.js:597-599 | with both wheel buttons 2 and 3 pressed at full left, `index.js` reads 0.01 where `code/data-map.js` reads 0 |
| LegacyDecoder.LegacyPosition0FallsThrough | index.js:906-913 | a change at position 0 runs the byte-0 and then the byte-1 decoders |
| LegacyDecoder.LegacyAgreesElsewhere | index.js:904-933 | for every position except 0, 3 and 4 the `index.js` switch does what `dataMap` does |
| LegacyDecoder.LegacyTurnPosition | index.js:918-921 | positions 3 and 4 update the turn as `dataMap` does (bits clear) but leave wheel buttons 2 and 3 alone |
| LegacyDecoder.LegacyNeverDecodesLeftButtons | index.js:904-934 | no list of positions changes wheel buttons 2 and 3 |
| LegacyDecoder.LegacyApplyPositionWellFormed | index.js:904-933 | each position of the `index.js` switch keeps the state within its ranges |
| LegacyDecoder.LegacyApplyPositionsWellFormed | index.js:904-934 | the whole `index.js` decode loop keeps the state within its ranges |
| LegacyDecoder.LegacyMatchesCanonical | index.js:904-934 | without changes at positions 0, 3 or 4 the `index.js` loop and `dataMap` produce the same state |
| Listen.ChangedExact | index.js:893-898 | a position is listed exactly when it lies in the report and its byte differs from the previous one (or has none) |
| Listen.ChangedIncreasing | index.js:893-898 | the positions are listed in strictly increasing order |
| Listen.ChangedEmptyIff | index.js:893-902 | no position is listed exactly when the report equals the previous one |
| Listen.DiffPositions | index.js:893-898 | the loop pushes exactly the changed positions, in order |
| Listen.DiffOverExact | index.js:942-953 | a field with value v is in the diff of a field list exactly when it is listed, it changed and v is its new value |
| Listen.DiffExact | index.js:942-953 | a field with value v is in `memoryDiff` exactly when it changed and v is its new value |
| Listen.DiffEmptyIff | index.js:942-955 | the diff is empty exactly when the new state equals the previous one |
| Listen.FieldEvents | index.js:948 | one `<group>-<key>` event per diff entry, in order, carrying the new value |
| Listen.CycleEventsShape | index.js:942-965 | the cycle's events end with `all` of the new state; `changes` appears exactly when the state changed; one field event per change |
| Listen.FieldEventExact | index.js:944-948 | the event of field f with its new value is emitted exactly when f changed |
| Listen.DiffOverDistinct | index.js:942-950 | visiting distinct fields, the diff holds at most one entry per field |
| Listen.FieldEventsOncePerName | index.js:942-950 | no two field events of one report share a name, so each `<group>-<key>` listener hears at most one event per report |
| Listen.SemanticDiff | index.js:939-953 | the nested loop builds exactly the diff and emits exactly its field events |
| Listen.Decode | index.js:904-934 | the switch loop applies the `index.js` decoders to the positions in order |
| Listen.Session.constructor | index.js:12-45 | no previous report, the initial state, nothing emitted; the session invariant holds |
| Listen.Session.OnData | index.js:884-969 | with no changed byte nothing changes; otherwise the state is the decoded report, the events are the cycle's events and the report becomes the previous one; the stored state stays within its documented ranges |
| Listen.RepeatedReportIgnored | index.js:893-902 | a report identical to the previous one lists no position |
| Listen.FirstReportDecodesAll | index.js:12 | against the initial `Array(11)` every position of the first report is listed |
| Commands.ClampRange | index.js:203-209 | the range is clamped to [270, 900], values inside unchanged |
| Commands.RangeCommand | index.js:202-215 | `[0xf8, 0x81, lo, hi, 0, 0, 0]` of bytes with lo + 256*hi the clamped range |
| Commands.RangeCommandInjective | index.js:211-214 | different ranges in [270, 900] give different commands |
| Commands.RangeCommandOfClamped | index.js:202-215 | re-sending the clamped range gives the same command |
| Commands.AutoCenterCommands | index.js:618-651 | a falsy option writes only 0xf5; otherwise 0x14 and then an 0xfe 0x0d profile with equal strength bytes and three trailing zeros; for `[a, b]` the strength is the nearest integer to a·15 and the rise the nearest integer to b·255 |
| Commands.AutoCenterProfileInRange | index.js:633-642 | a profile of fractions gives strength 0..15 and rise 0..255 |
| Commands.AutoCenterDefaultIsProfile | index.js:643-646 | the default profile is the custom profile [7/15, 1], with strength 7 and rise 255 |
| Commands.DecimalAsHexGrows | index.js:714 | reading a slot's decimal digits as hex never shrinks it and is exact only below 10 |
| Commands.ForceOffCommand | index.js:698-719 | no slot gives 0xf3; a one-digit slot n gives 16*n; the rest is zeros |
| Commands.ForceOffSlots | index.js:698-719 | slots 1..4 give 0x10..0x40, each distinct from the all-slots command |
| Commands.ConstantForceCommand | index.js:653-673 | absent or 0.5 turns slot 1 off; otherwise 0x11 with the magnitude at byte 2: the nearest integer to abs(num − 1)·255, in 0..255 for inputs in [0, 1] |
| Commands.ConstantForceEndpoints | index.js:653-673 | 0 gives 255, 1 gives 0, absent gives `[0x10, 0, …]` |
| Commands.ConstantForceSides | index.js:670 | left of centre gives at least 128, right of centre at most 127, and the magnitude never grows to the right |
| Commands.FrictionCommand | index.js:675-696 | absent or 0 turns slot 2 off; otherwise `0x21 0x02` with the same level at bytes 2 and 4: the nearest integer to num·15 |
| Commands.FrictionInRange | index.js:693 | strengths in (0, 1] give levels 0..15, monotonically, with 1 giving 15 |
| Commands.CharsToLights | index.js:280-282 | each character becomes an element that is 1 exactly when the character is '1' |
| Commands.Lit | index.js:301-305 | an LED is lit or not (0/1) |
| Commands.LedValueBits | index.js:290-313 | the LED byte is 0..31 and its bit i is set exactly when element i (of the first five) is 1 |
| Commands.LedValueTruncates | index.js:295 | elements past the fifth do not matter |
| Commands.LedPrefixPastEnd | index.js:297-305 | LEDs past the end of a short array add nothing, so the loop over the array's length computes the five-LED byte |
| Commands.PackLeds | index.js:290-305 | the truncate-and-add loop computes the LED byte |
| Commands.LedCommand | index.js:324 | the LED write is a valid byte vector exactly when the value fits in a byte |
| Commands.LedWriteShowsLights | index.js:284-324 | whatever `leds` is given, it writes a byte vector whose byte 2 has bit i set exactly when LED i is lit |
| Commands.TierValue | index.js:264-276 | a percentage tier is one of 0, 1, 3, 7, 15, 31 |
| Commands.LedPercentTiers | index.js:261-276 | a percentage lights the tier's solid run of LEDs: above 84 → 31, 69 → 15, 39 → 7, 19 → 3, 4 → 1, else 0 |
| Commands.LedPercentMonotonic | index.js:261-276 | a larger percentage never lights fewer LEDs |
| Commands.LedPercentExamples | index.js:240-246 | 1 lights all (31), 0.5 half (7), 0 none |
| Commands.PatternIsLights | index.js:280-282 | a string pattern lights LED i exactly when its character i is '1' |
| Commands.Controller.constructor | index.js:46-50 | the options given, no LED value stored, nothing written |
| Commands.Controller.SetRange | index.js:202-215 | clamps the stored range in place and writes the range command of the old value |
| Commands.Controller.AutoCenter | index.js:618-651 | writes the auto-center commands of the option |
| Commands.Controller.ForceConstant | index.js:653-673 | writes the constant-force command |
| Commands.Controller.ForceFriction | index.js:675-696 | writes the friction command |
| Commands.Controller.ForceOff | index.js:698-719 | writes the force-off command |
| Commands.Controller.Leds | index.js:234-332 | always writes the LED command of the packed setting and stores its value |
| Commands.Controller.StartListening | index.js:730-977 | `listen` writes the range, the auto-centering and then all LEDs off, storing 0 as the LED value; the model's `autocenter` option is left as it was (the in-place rescale is listed under Left out) |

## Left out

- Device I/O (`connect`, `findWheel`, `disconnect`, the re-open in `listen`, the calibration timer, `relay`, the `error` handler) is left out. Writes are appended to `Controller.written`, and reports arrive as arguments of `Session.OnData`.
- `userOptions` and the debug `console.log` output are left out. The options are the fields of `Controller`.
- The event emitter (`on`, `once`, listener dispatch) is left out. Emitted events are appended to `Session.events`.
- `clone` is not modelled as an operation. States are values, so copying is assignment.
- Numbers are exact reals, not IEEE doubles. `round`'s string shift exists only to avoid binary artefacts, and it is modelled as exact decimal rounding.
- Listen.Session: the `memory` object of `index.js` lacks the wheel `button_2`/`button_3` keys. The model carries them with value 0; the `index.js` decoders never change them, so no event is ever emitted for them, and they appear only inside the `all` state.
- DataMap.Report: reports are exactly 11 bytes. The handler itself loops over whatever length arrives, and `DiffPositions` accepts any length.
- Commands.Controller.Leds: the caller's array is not truncated in place by `splice`. The model packs the first five elements of a value sequence instead. The write's `try`/`catch` is not modelled, because a write never fails here.
- Commands.LedSetting: array elements are integers compared with 1. `parseInt` of non-integers or arbitrary strings is not modelled.
- Commands.Controller.Leds: an argument that is not undefined, a number, a string or an array (`null`, a boolean, an object) passes every branch of `leds` and writes nothing. The model has no such setting.
- Commands.AutoCenterCommands: the in-place rescaling of `options.autocenter` for a two-element array is not modelled. A second call would rescale again.
- Commands.ForceOffCommand: a negative or non-numeric slot (NaN in the source) is not modelled. Slots are naturals.
- Commands.ConstantForceCommand: a non-number argument is not modelled. The input is an optional real.
- Commands.RangeCommand: `options.range` is an integer. JavaScript's `&` on fractional ranges is not modelled.
