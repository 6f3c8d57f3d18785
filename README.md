# Raspberry Pi lab programs, modelled in Dafny

This project models the logic of a set of Raspberry Pi lab programs and proves properties of it:

- **Battery-level LED bar controller** (`LEDDisplay`), in two versions.
  - The full one (module `SpaceController`) validates its configuration and maps the battery level to a bar pattern held in an array. Its setter clamps the level. A downward crossing of 15 % starts a non-blocking flash overlay: three 100 ms cycles, lit for the first 50 ms of each. The overlay snapshots the bar pattern when it starts and restores it when it ends.
  - The simpler version (module `SpaceControllerPart2`) blinks all LEDs three times in a blocking loop instead.
  - The shared module `BatteryBar` holds the argument checks, the clamped linear map `mapValues`, the bar pattern, the crossing condition and the discharge simulator's tick.
- **Morse blinker** (`Morse`): student numbers become Morse strings, which become a schedule of LED writes and pauses.
- **ADS7830 command byte** (`Adc`): the channel-select byte of the analog-to-digital converter, and the joystick read.
- **Bit-row packers**:
  - `ProcessImage`: `convertToHex` of 6/processImage.py.
  - `ImageToData`: `convertToBinary` and `convertToHex` of 6/imageToData.py.
  - `ImageDisplay`: the `byte |= 1 << (7 - i)` loop of 6/labProgram6.py.
- **8x8 LED matrix behind two 74HC595 shift registers**:
  - `ShiftRegister`: the shift-out serialiser and one frame of eight column steps.
  - `LedPanel`: the `LEDPanel` class, its glyph table and its scrolling text.
  - `LedMatrix`: the module-level driver with its timed display loop.
- **Feature-match filters** (`FeatureFilters`): the distance threshold and Lowe's ratio test.
- **Planet tones** (`PlanetTones`): the buzzer frequency formula and the eight planet constants.

Shared modules:
- `Wrappers`: `Option`, `Result` and `Outcome`.
- `Gpio`: the pin driver. It is a class holding a log of the calls made (setup, output, sleep, cleanup) and the set of pins on which a call raises.
- `Bits`: Python's bit operations on unbounded integers.
- `Text`: `str.upper` on one character.

How the model stands in for the hardware and the clock:
- Pin writes are events appended to the driver's log. A method's contract states exactly which events it appends.
- Pauses are `Sleep(ms)` events.
- The wall clock is a `now` parameter in integer milliseconds. In the matrix driver it is the sequence of readings the loop makes.
- The I2C bus is a function from (transaction number, request) to the byte returned.
- The controller's float arithmetic is done over exact reals.

Behaviours of the code that the model reproduces on purpose:
- **Opposite polarities in `LEDDisplay`.** `updateLedStates` drives a pin HIGH where the pattern holds 0. `_end_warning_sequence` drives it LOW there. When the overlay ends inside `updateLedStates`, the restore write comes first and the normal write after it, so the normal write's levels are the ones that remain.
- **Stale restore.** When the overlay ends, the snapshot overwrites any pattern recomputed while it was active.
- **Morse gaps.** The Morse blinker pauses 1 unit after every symbol and 3 more for the space the encoder puts between letters, so letters are 5 units apart rather than the 3 of the international standard. The 7-unit gap comes only once, at the very end.
- **`convertToHex` writes each entry in decimal and parses the result in base 2.** An entry such as 10 is therefore read as two binary digits, and the row `[10]` gives 256.
- **`display_text` shows `len(data) - 8` frames.** The window holding the last character's full glyph is never shown, and text with fewer than two known characters shows nothing.
- **`1 << (7 - i)` raises for a lit pixel at column 8 or beyond.** The packing loop of 6/labProgram6.py returns an error for such a row.

## Model

| member | source | states |
|---|---|---|
| BatteryBar.FirstInvalidPin | 2/space_controller.py:79-81 | the first pin outside `VALID_BCM_PINS`, and none exactly when every pin is in the whitelist |
| BatteryBar.ElementsCardinality | 2/space_controller.py:84-85 | `len(set(pins)) == len(pins)` holds exactly when no pin occurs twice |
| BatteryBar.ValidateInputs | 2/space_controller.py:64-85 | passes exactly on a valid configuration. Otherwise it names the first check that fails, in source order: battery outside [0,100], length mismatch, more than 10 pins, a pin outside the whitelist (naming the first such pin in the list), duplicate pins |
| BatteryBar.Clamp | 2/space_controller.py:147 | `max(lo, min(hi, x))` lies in [lo,hi], is x inside the range and the nearer end outside it |
| BatteryBar.MapValues | 2/space_controller.py:140-153 | raises exactly when `maxInput == 0` or `maxInput <= minInput`, the zero check first; otherwise the result lies in [minOut,maxOut], is the linear formula inside the input range, and is the output end outside it |
| BatteryBar.MappedValue | 2/space_controller.py:146-153 | the clamped map stays in the output range, is linear on the input range and pins both ends outside it |
| BatteryBar.Mapped | 2/space_controller.py:147-153 | the clamped linear map of `np.interp`; its range, linearity and end values are the contract of MappedValue |
| BatteryBar.MappedLinear | 2/space_controller.py:150 | inside the input range the map is `minOut + (x - minIn)(maxOut - minOut)/(maxIn - minIn)` |
| BatteryBar.MappedBelow | 2/space_controller.py:147-153 | an input at or below `minInput` maps to the clamped `minOut` |
| BatteryBar.MappedAbove | 2/space_controller.py:147-153 | an input at or above `maxInput` maps to the clamped `maxOut` |
| BatteryBar.MapValuesMonotone | 2/space_controller.py:140-153 | a larger input never maps lower |
| BatteryBar.MappedMonotone | 2/space_controller.py:147-153 | the clamped linear map is monotone |
| BatteryBar.LedsToEnable | 2/space_controller.py:158-169 | 0 at battery 0; otherwise `max(1, floor(battery*n/100))`, between 1 and n |
| BatteryBar.LedsToEnableMonotone | 2/space_controller.py:158-169 | a fuller battery never lights fewer LEDs |
| BatteryBar.BarPattern | 2/space_controller.py:173-174 | the pattern has the status list's length |
| BatteryBar.SumFill | 2/space_controller.py:173-174 | the fill lights exactly `min(k, n)` slots, none for k <= 0 |
| BatteryBar.Fill | 2/space_controller.py:173-174 | one entry per slot, 1 in the first `k` slots and 0 after; SumFill and BarPatternPrefix state what it lights |
| BatteryBar.LowBatteryCrossing | 2/space_controller.py:207 | the warning condition: the level was above 15 and is now at or below it; SetBatteryLevelSpec uses it as the exact trigger and DischargeWarnsOnce shows it fires once per discharge |
| BatteryBar.BarPatternLit | 2/space_controller.py:155-174 | the pattern lights as many slots as `LedsToEnable` asks for, capped at the status length |
| BatteryBar.SumCountsLit | 2/space_controller.py:277 | on a list of 0/1 entries `sum` is the number of entries that are 1 |
| BatteryBar.BarPatternCount | 2/space_controller.py:155-174 | battery 0 lights nothing; any other level lights `max(1, floor(battery*n/100))` LEDs, between 1 and n |
| BatteryBar.BarPatternPrefix | 2/space_controller.py:173-174 | entries are 0 or 1, and the lit entries form a prefix |
| BatteryBar.BarPatternMonotone | 2/space_controller.py:155-174 | a fuller battery lights a superset of the slots |
| BatteryBar.NormalLevels | 2/space_controller.py:243-248 | a pin is driven HIGH exactly where the pattern holds 0 |
| BatteryBar.Discharge | 2/labProgram2Part2.py:35-45 | one level per tick of `max(0, current - d)`, at most one per drop; the loop runs only while the level is above 0, so a run that stops early ends on 0, and a run that starts at 0 or below has no tick |
| BatteryBar.DischargeTick | 2/labProgram2Part2.py:45 | one tick of the discharge, `max(0, current - d)`; DischargeFalls shows that with drops of 1 to 5 every tick strictly lowers the level and none goes below 0 |
| BatteryBar.DischargeFalls | 2/labProgram2Part2.py:35-45 | with drops of 1 to 5, every tick lowers the level, no level is negative, and a later level is never above an earlier one |
| BatteryBar.DischargeWarnsOnce | 2/labProgram2Part2.py:35-45 | with drops of 1 to 5, the final level is at most the starting one (clamped at 0); the warning condition holds on exactly one tick when the run passes from above 15 to 15 or below, and on none otherwise |
| BatteryBar.SetupEvents | 2/space_controller.py:97-99 | two driver calls per pin: setup as an output, then LOW |
| BatteryBar.SetupPin | 2/space_controller.py:97-99 | one round of the setup loop appends the pin's setup and LOW write, or nothing when the pin raises |
| BatteryBar.SetupLeavesLow | 2/space_controller.py:97-99 | after setup every pin's last written level is LOW |
| SpaceController.TruncDiv | 2/space_controller.py:323 | `int(a / b)` truncates toward zero, for negative `a` too |
| SpaceController.FlashEndsAt | 2/space_controller.py:323-343 | the overlay's end test `int(elapsed/0.1) >= 3` holds exactly from 300 ms on |
| SpaceController.FlashLitWindows | 2/space_controller.py:322-327 | within the three cycles the LEDs are lit exactly in [0,50), [100,150) and [200,250) ms |
| SpaceController.RestoreLevels | 2/space_controller.py:362-365 | the end sequence drives a pin LOW exactly where the pattern holds 0 |
| SpaceController.CreateStep | 2/space_controller.py:30-62 | construction succeeds exactly on a valid configuration whose pins can all be set up; validation errors come before any pin call; a raising pin gives a GPIO error |
| SpaceController.SetBatteryStep | 2/space_controller.py:182-215 | the stored and returned level is the new level clamped to [0,100] (the new level itself when in range); pins, initialisation and pattern length are kept |
| SpaceController.AnimateStep | 2/space_controller.py:312-347 | nothing happens while idle; battery, pins and initialisation are kept; the overlay survives only while fewer than three whole cycles have elapsed, and then keeps the pattern; from 300 ms on it has ended and the pattern is the snapshot |
| SpaceController.EndWarningStep | 2/space_controller.py:349-370 | the overlay is inactive afterwards, and an active overlay's snapshot becomes the pattern |
| SpaceController.RenderStep | 2/space_controller.py:217-252 | fails as not initialised exactly when cleanup has run, and then changes and writes nothing; keeps battery, pins and initialisation; passes once the overlay is over and no pin raises |
| SpaceController.CleanupStep | 2/space_controller.py:254-269 | changes only the initialised flag, which is cleared exactly when the display was initialised and no pin raises; writes nothing when not initialised |
| SpaceController.TriggerStep | 2/space_controller.py:282-310 | the overlay starts only when idle, initialised and with pins; it then snapshots the current pattern with the LEDs off; otherwise nothing changes, and an existing snapshot is kept |
| SpaceController.AnimateBranches | 2/space_controller.py:312-347 | the four cases of the animation: toggle and continue; toggle, then end after three cycles or a raising write; no toggle and end; no toggle and no change |
| SpaceController.AnimateToggle | 2/space_controller.py:330-347 | a change of the lit level writes it to every pin, then ends the overlay if a write raised or three cycles have passed |
| SpaceController.StepsKeepInvariant | 2/space_controller.py:30-370 | every operation keeps the display's invariant: pattern and pin lists of equal length, and a snapshot of that length while the overlay is active |
| SpaceController.SetBatteryLevelSpec | 2/space_controller.py:195-211 | stores and returns the level clamped to [0,100]. An unchanged level changes nothing. A changed level recomputes the pattern. The overlay starts exactly on a crossing from above 15 to 15 or below, snapshotting the recomputed pattern |
| SpaceController.SetBatteryKeepsSnapshot | 2/space_controller.py:207-209 | while the overlay is active a battery change never touches its snapshot |
| SpaceController.AnimateWritesOnlyOnChange | 2/space_controller.py:330-334 | before 300 ms, while the desired level equals the recorded one, the animation writes nothing and changes nothing |
| SpaceController.AnimateFlashes | 2/space_controller.py:330-334 | a level change writes that level to every pin and records it |
| SpaceController.AnimateEnds | 2/space_controller.py:342-359 | from 300 ms on, or after a raising write, the overlay ends and the pattern becomes the snapshot |
| SpaceController.EndWarningAlwaysIdle | 2/space_controller.py:349-370 | the end sequence always leaves the overlay inactive, whatever the pin writes do, and restores the snapshot |
| SpaceController.RenderWhileFlashing | 2/space_controller.py:229-233 | while the overlay stays active, `updateLedStates` writes only the uniform flash level and leaves pattern and battery as they were |
| SpaceController.AnimateEndEvents | 2/space_controller.py:330-365 | past 300 ms with no raising pin, the overlay writes its last level change and then the restore |
| SpaceController.RenderEndWriteOrder | 2/space_controller.py:229-248 | when `updateLedStates` ends the overlay, the restore write comes before the normal write, so each pin ends HIGH exactly where the restored pattern holds 0 |
| SpaceController.StaleRestore | 2/space_controller.py:357-359 | a pattern recomputed during the overlay is replaced by the snapshot when it ends, while the battery level stays the new one |
| SpaceController.CleanupIdempotent | 2/space_controller.py:254-269 | cleanup drives every pin LOW and then releases the driver; a second call does nothing; afterwards `updateLedStates` fails as not initialised |
| SpaceController.LowBatteryScenario | 2/space_controller.py:195-370 | a drop to 14 % starts the overlay. At 20 ms all pins go HIGH and at 70 ms all go LOW. At 310 ms the last flash, the restore and the normal write follow, and the overlay is idle |
| SpaceController.LEDDisplay.constructor | 2/space_controller.py:30-62 | the object `__init__` leaves after validation: battery, status array and pins stored, not initialised, overlay idle |
| SpaceController.LEDDisplay.InitializeGpio | 2/space_controller.py:89-106 | sets up and drives LOW each pin in order up to the first one that raises; initialised exactly when none raises |
| SpaceController.LEDDisplay.CalculateLedStates | 2/space_controller.py:155-180 | rewrites the status array in place with the bar pattern of the current battery level |
| SpaceController.LEDDisplay.TriggerLowBatteryWarning | 2/space_controller.py:282-310 | the new state is `TriggerStep` of the old one |
| SpaceController.LEDDisplay.SetBatteryLevel | 2/space_controller.py:182-215 | the new state and the level returned are `SetBatteryStep` of the old state |
| SpaceController.LEDDisplay.EndWarningSequence | 2/space_controller.py:349-370 | the new state and the pin writes are `EndWarningStep` of the old state |
| SpaceController.LEDDisplay.UpdateWarningAnimation | 2/space_controller.py:312-347 | the new state and the pin writes are `AnimateStep` of the old state at time `now` |
| SpaceController.LEDDisplay.ToggleWarning | 2/space_controller.py:330-347 | the toggle branch produces the state and writes `AnimateStep` specifies |
| SpaceController.LEDDisplay.ToggleWarningLeds | 2/space_controller.py:330-334 | records the new flash level and writes it to every pin up to the first one that raises |
| SpaceController.LEDDisplay.UpdateLedStates | 2/space_controller.py:217-252 | the outcome, new state and pin writes are `RenderStep` of the old state at time `now` |
| SpaceController.LEDDisplay.Cleanup | 2/space_controller.py:254-269 | the new state and the pin writes are `CleanupStep` of the old state |
| SpaceController.LEDDisplay.GetStatus | 2/space_controller.py:271-280 | reports the battery level, the pattern, the pins, the initialised flag and the given timestamp; when the pattern holds only 0s and 1s, `leds_on` is the number of LEDs that are on |
| SpaceController.StatusCountsBar | 2/space_controller.py:271-280 | right after `calculateLedStates`, `leds_on` is the number of LEDs the battery level asks for, capped at the pin count: 0 when empty, otherwise between 1 and n |
| SpaceController.NewLEDDisplay | 2/space_controller.py:30-62 | construction fails or succeeds as `CreateStep` says, with the same writes; on success the object holds its state |
| SpaceControllerPart2.Blinks | 2/Part2/space_controller.py:132-138 | k rounds make `k * (2n + 2)` driver calls |
| SpaceControllerPart2.BlinkOnce | 2/Part2/space_controller.py:133-138 | one round: all pins HIGH, 200 ms, all LOW, 10 ms; a raising write stops it after the writes before it |
| SpaceControllerPart2.CreateStep | 2/Part2/space_controller.py:15-47 | construction succeeds exactly on a valid configuration whose pins can all be set up; validation errors come before any pin call |
| SpaceControllerPart2.SetBatteryLevelSpec | 2/Part2/space_controller.py:85-101 | stores and returns the clamped level. An unchanged level does nothing else. A changed level recomputes the pattern. The blink warning runs exactly on a downward crossing of 15 |
| SpaceControllerPart2.SetBatteryStep | 2/Part2/space_controller.py:85-101 | the stored level is the clamped request and lies in [0,100]; pins, the driver state and the pattern length are kept; the warning runs only on a low-battery crossing |
| SpaceControllerPart2.BlinksAreThreeRounds | 2/Part2/space_controller.py:129-138 | the warning is exactly three copies of one blink |
| SpaceControllerPart2.BlinksLeaveLow | 2/Part2/space_controller.py:136-137 | after any number of blinks every pin's last level is LOW |
| SpaceControllerPart2.WarningSpec | 2/Part2/space_controller.py:124-140 | the warning does nothing when not initialised or without pins; otherwise it is three blinks and leaves every pin LOW |
| SpaceControllerPart2.WarningEvents | 2/Part2/space_controller.py:124-140 | the pin writes of the blink warning; WarningSpec states them: nothing when not initialised or without pins, otherwise three blinks ending with every pin LOW |
| SpaceControllerPart2.RenderSpec | 2/Part2/space_controller.py:103-113 | each pin is written exactly once, in order, HIGH exactly where its entry is 0 |
| SpaceControllerPart2.RenderStep | 2/Part2/space_controller.py:103-113 | fails with the not-initialised error exactly when the driver is not set up, writing nothing then, and passes on pins that do not raise |
| SpaceControllerPart2.CleanupIdempotent | 2/Part2/space_controller.py:115-123 | cleanup drives every pin LOW and then releases the driver; a second call does nothing; afterwards `updateLedStates` fails |
| SpaceControllerPart2.CleanupStep | 2/Part2/space_controller.py:115-123 | changes only the initialised flag, which stays set exactly when a pin raised; a second call on a released driver writes nothing |
| SpaceControllerPart2.LEDDisplay.constructor | 2/Part2/space_controller.py:15-23 | battery, status array and pins stored, not yet initialised |
| SpaceControllerPart2.LEDDisplay.InitializeGpio | 2/Part2/space_controller.py:38-47 | sets up and drives LOW each pin in order up to the first that raises; initialised exactly when none raises |
| SpaceControllerPart2.LEDDisplay.CalculateLedStates | 2/Part2/space_controller.py:66-83 | rewrites the status array in place with the bar pattern |
| SpaceControllerPart2.LEDDisplay.TriggerLowBatteryWarning | 2/Part2/space_controller.py:124-140 | appends exactly the warning's driver calls and changes no field |
| SpaceControllerPart2.LEDDisplay.SetBatteryLevel | 2/Part2/space_controller.py:85-101 | the new state, the level returned and the driver calls are `SetBatteryStep` of the old state |
| SpaceControllerPart2.LEDDisplay.UpdateLedStates | 2/Part2/space_controller.py:103-113 | the outcome and the pin writes are `RenderStep` of the state |
| SpaceControllerPart2.LEDDisplay.Cleanup | 2/Part2/space_controller.py:115-123 | the new state and the driver calls are `CleanupStep` of the old state |
| SpaceControllerPart2.NewLEDDisplay | 2/Part2/space_controller.py:15-23 | construction fails or succeeds as `CreateStep` says, with the same driver calls |
| Morse.Codes | 1/labProgram.py:33-35 | at most one code per character: unknown characters are skipped |
| Morse.MorseCode | 1/labProgram.py:6-15 | the `MORSE_CODE` table: letters, digits and space map to codes, every other character is missing; TableShape and CodesInjective state its shape and that it is one-to-one |
| Morse.Raw | 1/labProgram.py:32-35 | the string built by the loop before `strip()`: each known character's code followed by a space; RawIsTerminated states it |
| Morse.Encode | 1/labProgram.py:32-36 | the loop's string after `strip()`; EncodeJoinsCodes shows it is the codes joined by single spaces |
| Morse.TrimRight | 1/labProgram.py:36 | removes exactly the trailing spaces |
| Morse.TrimLeft | 1/labProgram.py:36 | removes exactly the leading spaces |
| Morse.Strip | 1/labProgram.py:36 | the result neither starts nor ends with a space |
| Morse.ConvertDataToMorse | 1/labProgram.py:29-37 | one Morse string per student number, in the same order |
| Morse.EncodeNumber | 1/labProgram.py:32-36 | one pass of the outer loop gives the encoding of the number |
| Morse.TableShape | 1/labProgram.py:6-15 | every letter and digit has a non-empty code of dots and dashes; every digit code has five symbols |
| Morse.CodesInjective | 1/labProgram.py:6-15 | distinct keys have distinct codes |
| Morse.RawIsTerminated | 1/labProgram.py:33-35 | the string built before `strip` is each known character's code followed by one space |
| Morse.TerminatedIsJoin | 1/labProgram.py:35-36 | codes each followed by a space are the codes joined by single spaces, plus one trailing space |
| Morse.JoinEnds | 1/labProgram.py:36 | a join of codes neither starts nor ends with a space |
| Morse.CodesAreCodes | 1/labProgram.py:33-35 | for a number without spaces, every code kept is a non-empty dot-dash code |
| Morse.EncodeJoinsCodes | 1/labProgram.py:32-36 | for a number without spaces, the encoding is the known characters' codes joined by exactly one space |
| Morse.PinOn | 1/labProgram.py:39-42 | HIGH, a pause, then LOW; nothing when the pin raises |
| Morse.PinOff | 1/labProgram.py:44-46 | LOW, then a pause; nothing when the pin raises |
| Morse.DriveSymbol | 1/labProgram.py:51-57 | one symbol's writes and the one-unit gap after it |
| Morse.DriveString | 1/labProgram.py:50-57 | the writes for every symbol of one string, in order |
| Morse.DriveNext | 1/labProgram.py:50-57 | symbol j of a string appended after the symbols before it |
| Morse.DriveNextString | 1/labProgram.py:49-57 | string k appended after the strings before it |
| Morse.DriveMorseToBlinks | 1/labProgram.py:48-58 | the whole schedule: every string's symbols in order, then the 7-unit gap; nothing when the pin raises |
| Morse.PinTiming | 1/labProgram.py:39-46 | `pinOn` lights the LED for its whole pause and leaves it LOW; `pinOff` never lights it |
| Morse.SymbolTiming | 1/labProgram.py:51-57 | a dot lights the LED 1 unit, a dash 3 and a space none; a space pauses 3 units; every symbol is followed by a 1-unit gap and leaves the LED dark |
| Morse.StringTiming | 1/labProgram.py:50-57 | over one string the LED is lit one unit per dot and three per dash, ends dark, and the total pause counts every symbol and gap |
| Morse.StringsTiming | 1/labProgram.py:49-57 | the same totals over all strings |
| Morse.BlinkTiming | 1/labProgram.py:48-58 | over the whole schedule, starting dark: lit one unit per dot and three per dash, ends dark, and lasts the symbol pauses plus seven units |
| Morse.StringsPauses | 1/labProgram.py:49-57 | every pause inside the strings lasts one or three units |
| Morse.StringPauses | 1/labProgram.py:50-57 | every pause of one string lasts one or three units |
| Morse.LongGapOnlyAtEnd | 1/labProgram.py:58 | the 7-unit gap is the schedule's last event and occurs nowhere else |
| Adc.NewADS7830 | 4/labProgram4.py:46-48 | the object holds the base command 0x84 and the given address |
| Adc.AnalogRequest | 4/labProgram4.py:60-65 | a channel outside 0..7 raises before any bus access; otherwise one request to the device's address |
| Adc.AnalogRead | 4/labProgram4.py:50-66 | fails exactly for a channel outside 0..7; otherwise returns the bus's answer to the channel's command byte |
| Adc.ReadRawJoystickPosition | 4/labProgram4.py:136-138 | reads channel 0 and then channel 1, and returns them as (x, y) |
| Adc.CommandByte | 4/labProgram4.py:64 | the channel bits only add to the base command: bits 7 and 3..0 are those of the command, and every bit of the command stays set |
| Adc.ChannelOf | 4/labProgram4.py:64 | the channel read back from a command byte lies in 0..7 |
| Adc.CommandFixedBits | 4/labProgram4.py:64 | for every channel, bits 7 and 2 are set and bits 3, 1 and 0 are clear |
| Adc.CommandSelector | 4/labProgram4.py:64 | bit 6 holds the channel's bit 0; bits 5..4 hold its bits 2..1 |
| Adc.ChannelRoundTrip | 4/labProgram4.py:64 | the channel can be read back from its command byte |
| Adc.CommandInjective | 4/labProgram4.py:64 | the eight channels have eight distinct command bytes |
| Adc.JoystickCommands | 4/labProgram4.py:64 | channel 0 sends 0x84 and channel 1 sends 0xC4 |
| ProcessImage.Row8 | 6/processImage.py:41-45 | the first 8 entries of a row, or the row padded with zeros on the right to 8 |
| ProcessImage.DecimalString | 6/processImage.py:46 | `str(n)` is a non-empty string of decimal digits, one character exactly when n < 10 |
| ProcessImage.BitString | 6/processImage.py:46 | at least one character per entry |
| ProcessImage.ParseBinary | 6/processImage.py:47 | `int(s, 2)` succeeds exactly on a non-empty string of 0s and 1s, with a value below 2^len |
| ProcessImage.ConvertRow | 6/processImage.py:40-48 | one row's value, as `RowHex` defines it |
| ProcessImage.RowHex | 6/processImage.py:41-48 | one row's value: on a 0/1 row the number whose bits are the row (BitRowValue, BitRowBit); a row with another digit raises (NonBinaryDigitRaises) |
| ProcessImage.ConvertToHex | 6/processImage.py:35-50 | the result is `HexRows` of the image: one value per row, or the first row that raises |
| ProcessImage.FlatRowLayout | 6/processImage.py:40 | `row.flatten()` of a row of three-channel pixels puts channel ch of pixel p at position 3p+ch |
| ProcessImage.FlatRow | 6/processImage.py:40 | `row.flatten()`; FlatRowLayout gives its layout and ColourRowHex its effect on a three-channel row |
| ProcessImage.ColourRowHex | 6/processImage.py:40-48 | on a colour row the 8 entries read are the three channels of pixels 0 and 1 and the first two of pixel 2, not one entry per pixel |
| ProcessImage.HexRowsSpec | 6/processImage.py:37-49 | succeeds exactly when every row converts; then there is one value per row, in row order; on failure it names the first row that does not convert |
| ProcessImage.HexRows | 6/processImage.py:35-50 | the values of all rows or the first failing row; HexRowsSpec states both outcomes |
| ProcessImage.HexRowsStep | 6/processImage.py:39-49 | one more row either appends that row's value or fails on it |
| ProcessImage.HexRowsFailureSticks | 6/processImage.py:37-49 | once a row raises, nothing after it matters |
| ProcessImage.BitRowString | 6/processImage.py:46 | a 0/1 row is written out as one '0' or '1' per entry |
| ProcessImage.BitRowValue | 6/processImage.py:41-48 | a 0/1 row's value is its padded 8 bits read most significant first, below 256 |
| ProcessImage.BitRowBit | 6/processImage.py:41-48 | bit 7-i of a 0/1 row's value is set exactly when pixel i exists and is 1 |
| ProcessImage.NonBinaryDigitRaises | 6/processImage.py:46-48 | an entry from 2 to 9 among the first 8 makes the row raise |
| ProcessImage.TenWrittenOut | 6/processImage.py:44-46 | the row `[10]` is written out as "100000000" |
| ProcessImage.TenReadsAsTwoHundredFiftySix | 6/processImage.py:44-48 | the row `[10]` is not rejected and reads as 256 |
| ImageToData.ThresholdPixel | 6/imageToData.py:17-21 | a pixel becomes 1 exactly when it is above the threshold, 0 otherwise |
| ImageToData.ConvertToBinary | 6/imageToData.py:17-21 | same shape as the image, 0/1 entries, 1 exactly where the pixel is above the threshold |
| ImageToData.ConvertToHex | 6/imageToData.py:23-41 | returns the values of 6/processImage.py's `convertToHex` and one report line per converted row |
| ImageToData.ReportFailureSticks | 6/imageToData.py:25-38 | nothing is reported after the row that raises |
| ImageToData.ReportOnSuccess | 6/imageToData.py:25-38 | when every row converts, row i is reported with its index, its 8 bits and its value |
| ImageToData.Report | 6/imageToData.py:39 | the per-row report lines; ReportOnSuccess gives them when every row converts and ReportFailureSticks the failure case |
| ImageToData.ThresholdedImageConverts | 6/imageToData.py:17-37 | a thresholded image always converts, one value below 256 per row |
| ImageToData.ThresholdedPixelBit | 6/imageToData.py:17-37 | bit 7-j of row i's value is set exactly when pixel j exists and is above the threshold |
| ImageDisplay.Lit | 6/labProgram6.py:29-31 | 1 exactly where the pixel is above 0 |
| ImageDisplay.PackedRow | 6/labProgram6.py:28-33 | a row packs exactly when no lit pixel is at column 8 or beyond |
| ImageDisplay.PackedRowBits | 6/labProgram6.py:29-32 | bit j of the byte is set exactly when j < 8 and pixel 7-j exists and is lit; the byte lies in 0..255 |
| ImageDisplay.PackRow | 6/labProgram6.py:28-32 | the loop that or-s `1 << (7 - i)` into the byte for each lit pixel computes `PackedRow` |
| ImageDisplay.PackedRows | 6/labProgram6.py:27-33 | a packed image has one byte per row; a failure names a row of the image |
| ImageDisplay.PackedRowsSpec | 6/labProgram6.py:27-33 | packing succeeds exactly when every row fits a byte, and then gives one byte per row, in order; on failure it names a row that does not fit |
| ImageDisplay.PackedRowsFailureSticks | 6/labProgram6.py:27-33 | once a row raises, nothing after it matters |
| ImageDisplay.PackImage | 6/labProgram6.py:27-33 | the packing loop computes `PackedRows` |
| ImageDisplay.PackedRowAgreesWithHex | 6/labProgram6.py:28-33 | on a 0/1 row of at most 8 pixels the packed byte equals 6/processImage.py's value |
| ImageDisplay.PackedRowsAgreeWithHex | 6/labProgram6.py:27-33 | on 0/1 images with rows of at most 8 pixels, packing and `convertToHex` both succeed with the same bytes |
| ShiftRegister.ShiftOut | 6/ledMatrix.py:44-51 | appends exactly the events of eight clock steps |
| ShiftRegister.ShiftBit | 6/ledClass.py:69-74 | one step: clock LOW, the selected data bit, clock HIGH |
| ShiftRegister.Trace | 6/ledMatrix.py:44-51 | the levels written to one pin, in order |
| ShiftRegister.TraceAppend | 6/ledMatrix.py:44-51 | the levels written to a pin over two logs are those of each, concatenated |
| ShiftRegister.Pulses | 6/ledMatrix.py:45-51 | n LOW-HIGH clock pulses |
| ShiftRegister.ShiftClockTrace | 6/ledClass.py:68-74 | whatever the order, the clock pin sees exactly one LOW-HIGH pulse per step |
| ShiftRegister.DataLevels | 6/ledClass.py:70-73 | eight data levels for LSBFIRST or MSBFIRST, none for any other order |
| ShiftRegister.BitOfShiftLeft | 6/ledClass.py:73 | bit k of `v << i` is bit k-i of v |
| ShiftRegister.StepDataTrace | 6/ledClass.py:69-74 | step i writes exactly level i of `DataLevels` to the data pin |
| ShiftRegister.ShiftDataPrefix | 6/ledClass.py:68-74 | the first n steps write the first n data levels |
| ShiftRegister.ShiftDataTrace | 6/ledMatrix.py:44-51 | the data pin receives exactly the bits in the chosen order, or nothing for an unknown order |
| ShiftRegister.MsbFirstRoundTrip | 6/ledMatrix.py:49-50 | read most significant first, the MSBFIRST bits give back the value's low byte |
| ShiftRegister.LsbFirstRoundTrip | 6/ledMatrix.py:47-48 | read in reverse, the LSBFIRST bits give back the value's low byte |
| ShiftRegister.ColumnMask | 6/ledClass.py:90 | `~x` for the column bit is negative |
| ShiftRegister.ColumnSelect | 6/ledClass.py:86-93 | shifted MSB first, the mask of column i is LOW only at step i, so its low byte has one 0, at bit 7-i |
| ShiftRegister.Repeat | 6/ledClass.py:85 | n copies of a frame |
| ShiftRegister.ColumnStepLatch | 6/ledMatrix.py:59-63 | the latch goes LOW then HIGH around each column step, and the pause comes after it rises |
| ShiftRegister.NoLatchInShift | 6/ledMatrix.py:44-51 | a shift-out never writes the latch |
| ShiftRegister.ColumnStepData | 6/ledMatrix.py:59-62 | per column step the data pin receives the row byte and then the column mask, both MSB first |
| ShiftRegister.FrameData | 6/ledMatrix.py:58-64 | sixteen data levels per column step |
| ShiftRegister.FrameTraces | 6/ledMatrix.py:57-64 | over a frame the latch pulses once per column, and the data pin receives each row byte followed by the mask selecting that column |
| ShiftRegister.FrameEvents | 6/ledClass.py:86-93 | one frame: a column step for each of the 8 columns, or, for a short pattern, the steps that exist and then latch LOW where indexing raises; FrameTraces and ColumnStepData state what each step sends |
| ShiftRegister.FrameStepsAppend | 6/ledClass.py:87-93 | a column step appended to the earlier ones gives the next prefix of the frame |
| ShiftRegister.LatchColumn | 6/ledClass.py:89-92 | the rest of a column step once the latch is LOW: byte, mask, latch HIGH, pause |
| ShiftRegister.ShowFrame | 6/ledClass.py:86-93 | writes the frame's eight column steps, and fails exactly where indexing past the pattern raises |
| LedPanel.TablesAreGlyphs | 6/ledClass.py:16-37 | every `CHAR_DATA` entry and `SMILING_FACE` has 8 bytes in 0..255 |
| LedPanel.CharData | 6/ledClass.py:19-37 | the `CHAR_DATA` table; TablesAreGlyphs shows each entry is an 8-byte glyph |
| LedPanel.KnownChars | 6/ledClass.py:106-107 | the kept characters all have glyphs, and there are no more of them than characters in the text |
| LedPanel.GlyphsLayout | 6/ledClass.py:105-108 | the glyphs lie back to back: character j occupies bytes 8j to 8j+7 |
| LedPanel.FrameCount | 6/ledClass.py:111 | the number of frames is `len(data) - 8`, or 0 when that is not positive |
| LedPanel.ScrollAppend | 6/ledClass.py:111-120 | frame k shown after the first k frames makes the first k+1 |
| LedPanel.TextFrames | 6/ledClass.py:105-111 | `data` has 8 bytes per known character; there are 8(n-1) frames for n >= 2 known characters, and nothing is shown for 0 or 1 |
| LedPanel.TextEvents | 6/ledClass.py:95-120 | the scrolling of `display_text`, one 8-byte window per frame; TextFrames counts the frames and TextFrameWindow gives each window |
| LedPanel.PatternEvents | 6/ledClass.py:76-93 | the writes of `display_pattern`: nothing for `repeat <= 0`, one frame cut short for a pattern under 8 bytes, else `repeat` whole frames (LedMatrix.RepeatedPattern, LedPanel.LEDPanel.DisplayPattern) |
| LedPanel.TextFrameWindow | 6/ledClass.py:111-120 | frame k shows glyph bytes k to k+7, column by column |
| LedPanel.SlideFrame | 6/ledClass.py:114-116 | a window into `data` is the frame of that 8-byte slice |
| LedPanel.KnownCharsSkip | 6/ledClass.py:106-107 | characters are upper-cased before the lookup, and those without a glyph are skipped |
| LedPanel.AssembleText | 6/ledClass.py:105-108 | the `extend` loop builds the concatenated glyphs of the known characters |
| LedPanel.LEDPanel.constructor | 6/ledClass.py:39-58 | the three pins are stored and set up as outputs |
| LedPanel.LEDPanel.ShiftOut | 6/ledClass.py:60-74 | appends exactly the shift-out events |
| LedPanel.LEDPanel.DisplayPattern | 6/ledClass.py:76-93 | writes `repeat` frames, failing exactly where a pattern shorter than 8 raises |
| LedPanel.LEDPanel.ShowWindow | 6/ledClass.py:112-120 | one window repeated `frame_repeats` times |
| LedPanel.LEDPanel.ScrollOnce | 6/ledClass.py:111-120 | one pass of the scroll loop |
| LedPanel.LEDPanel.DisplayText | 6/ledClass.py:95-120 | writes exactly the frames of the known characters' glyphs |
| LedPanel.LEDPanel.ScrollData | 6/ledClass.py:111-120 | writes windows 0 to `len(data) - 9` |
| LedPanel.LEDPanel.DisplayCharacter | 6/ledClass.py:122-133 | shows the upper-cased character's glyph, or nothing for a character without one |
| LedPanel.LEDPanel.DisplaySmilingFace | 6/ledClass.py:135-143 | shows the smiling face `repeat` times |
| LedPanel.LEDPanel.Clear | 6/ledClass.py:145-147 | one frame of 8 zero bytes, 1 ms per column |
| LedPanel.LEDPanel.DisplayCustomPattern | 6/ledClass.py:149-158 | the same as `display_pattern` on the given bytes |
| LedPanel.LEDPanel.Cleanup | 6/ledClass.py:160-162 | releases the driver |
| LedMatrix.DataAreGlyphs | 6/ledMatrix.py:18-37 | every entry of `data` is 8 bytes in 0..255 |
| LedMatrix.LettersMatchPanelGlyphs | 6/ledMatrix.py:23-26 | the letters B and C are the glyphs of 6/ledClass.py's table |
| LedMatrix.RoundShape | 6/ledMatrix.py:66-89 | each round shows B, binarypic, blank; S, sobelpic, blank; C, cannypic, blank; for 2 s, 10 s and 0.5 s in each group |
| LedMatrix.SetupPins | 6/ledMatrix.py:38-42 | the three pins become outputs |
| LedMatrix.FirstExpiry | 6/ledMatrix.py:55-56 | the first clock reading at which the duration is up, with none before it |
| LedMatrix.DisplayPattern | 6/ledMatrix.py:53-64 | one frame per pass until the clock reading says the duration is up; fails where a short pattern raises |
| LedMatrix.ShowPass | 6/ledMatrix.py:57-64 | one pass appends one frame |
| LedMatrix.RepeatedPattern | 6/ledMatrix.py:56-64 | with no pass or a full pattern, the passes are plain repeats of the frame |
| LedMatrix.ShowSlot | 6/ledMatrix.py:71-89 | one `displayPattern(data[name], duration)` call of the loop |
| LedMatrix.LoopStep | 6/ledMatrix.py:66-89 | call i shows slot i mod 9 after the calls before it |
| LedMatrix.ShowCall | 6/ledMatrix.py:66-89 | call i appended to the calls before it |
| LedMatrix.Loop | 6/ledMatrix.py:66-89 | the first calls of the loop, call i showing slot i mod 9 for its duration |
| LedMatrix.Destroy | 6/ledMatrix.py:91-92 | releases the driver |
| FeatureFilters.DistanceFilter | 8/code/Lab8_temp.py:105-106 | never longer than the input, and every kept match has distance below the threshold |
| FeatureFilters.DistanceFilterSubseq | 8/code/Lab8_temp.py:106 | the result is an order-preserving subsequence of the input |
| FeatureFilters.DistanceFilterCounts | 8/code/Lab8_temp.py:106 | each match occurs as often as in the input if its distance is below the threshold, and not at all otherwise |
| FeatureFilters.DistanceFilterKeeps | 8/code/Lab8_temp.py:106 | a match is kept exactly when it is in the input with distance strictly below the threshold |
| FeatureFilters.DistanceFilterIdempotent | 8/code/Lab8_temp.py:106 | filtering twice with the same threshold is filtering once |
| FeatureFilters.DistanceFilterNested | 8/code/Lab8_temp.py:106 | filtering with a higher and then a lower threshold is filtering with the lower |
| FeatureFilters.DistanceFilterMonotone | 8/code/Lab8_temp.py:106 | a lower threshold yields a subsequence of a higher threshold's result |
| FeatureFilters.RatioSpec | 8/code/Lab8_temp.py:111-116 | a successful result is never longer than the input |
| FeatureFilters.RatioTest | 8/code/Lab8_temp.py:111-116 | the loop computes `RatioSpec` |
| FeatureFilters.RatioSpecFailureSticks | 8/code/Lab8_temp.py:113 | once an entry cannot be unpacked, the rest do not matter |
| FeatureFilters.RatioSpecFails | 8/code/Lab8_temp.py:113 | succeeds exactly when every entry is a pair; otherwise it fails on the first entry that is not |
| FeatureFilters.RatioSpecSelects | 8/code/Lab8_temp.py:111-116 | on pairs, the result is an order-preserving selection of the best matches |
| FeatureFilters.RatioSpecKeeps | 8/code/Lab8_temp.py:113-115 | on pairs, a match is kept exactly when it is the best match m of a pair (m, n) with `m.distance < ratio * n.distance` |
| PlanetTones.GetTone | 3/PassiveBuzzerLab/planet_tones.py:8-10 | a pair of two values |
| PlanetTones.ToneFromPair | 3/PassiveBuzzerLab/planet_tones.py:8-13 | the tone is `base + s * depth` over `get_tone`'s pair, and the base itself at s = 0 |
| PlanetTones.CalculatedTone | 3/PassiveBuzzerLab/planet_tones.py:12-13 | `base + s * depth`; ToneFromPair, ToneBounds and ToneMonotone state its value, range and monotonicity |
| PlanetTones.ToneBounds | 3/PassiveBuzzerLab/planet_tones.py:12-13 | for depth >= 0 and s in [-1,1] the tone lies in [base - depth, base + depth] |
| PlanetTones.ToneMonotone | 3/PassiveBuzzerLab/planet_tones.py:12-13 | for depth >= 0 a larger s never gives a lower tone |
| PlanetTones.PlanetsIncreasing | 3/PassiveBuzzerLab/planet_tones.py:15-45 | base and depth strictly increase from Mercury to Neptune |
| PlanetTones.TonesPositive | 3/PassiveBuzzerLab/planet_tones.py:15-45 | every planet has base - depth > 0, so every tone with s in [-1,1] is positive |
| Text.Upper | 6/ledClass.py:106 | lower-case ASCII letters become upper case; other characters stay as they are, apart from the two non-ASCII letters whose upper case is ASCII |

## Left out

- Logging: the logger setup and every log call. `warning_flash_count` only feeds a log line, so it is not modelled.
- The `isinstance` check in `setBatteryLevel`. Its argument is typed `real` here, so the check cannot fail.
- Floating point. The controller's map and the overlay's elapsed-time arithmetic are over exact reals and integer milliseconds, and `int()` is truncation. NaN and infinities are not modelled.
- `GPIO.setmode` and `GPIO.setwarnings`: they set no state any contract depends on.
- Context-manager entry and exit (`__enter__`, `__exit__`). They only call `cleanup`, which is modelled.
- `getCurrentBattery`: a plain field read.
- The thread-based test harnesses, their lock and their signal handler. Only the discharge tick is modelled, as a sequential driver.
- 4/labProgram4.py: the floating-point calibration and position code, and the console input.
- Programs with no verifiable core, which are not part of this model:
  - 5/labProgram/lab5Progran.py: pulse timing and file logging.
  - 3/PassiveBuzzerLab/main.py: PWM and trigonometry.
  - 7/code/LAb7_temp.py.
  - 9/code/lab9.py, which does not parse.
  - 0/program.py.
- OpenCV, NumPy and Matplotlib: image loading, resizing, Sobel and Canny filters, detectors, matchers, window display and file output. `convertToBinary` is modelled as its comment documents it. The matcher's output is an input here.
- Console output of the programs.
- `destroy` of 1/labProgram.py: it only releases the driver (`Gpio.Gpio.Cleanup`).
- Text.Upper: does not expand characters whose upper case is several characters, and maps only the ASCII letters and two non-ASCII letters. Both glyph and Morse tables have only single-character ASCII keys. The one case an expansion could change is `display_text`, which upper-cases the whole string: U+FB00 becomes "FF" there and shows two F glyphs, which the model skips. Morse upper-cases one character at a time, and a two-character result never matches a key.
- PlanetTones.CalculatedTone: computes over exact reals where the source uses Python floats.
- LedMatrix.Loop: models a finite prefix of the `while True` loop, one clock sequence per call.
- LedMatrix.DisplayPattern: requires that the clock readings eventually reach the duration. The source loops for as long as the clock says.
- LedMatrix.SetupPins, LedMatrix.ShowSlot, LedMatrix.DisplayPattern, LedMatrix.Loop: require the matrix pins not to raise. A raising driver call is modelled only for the Morse blinker and the controllers.
- LedPanel.LEDPanel.DisplayPattern and the other `LEDPanel` methods: require the three pins not to raise, for the same reason.
- ShiftRegister.ShiftOut and ShiftRegister.ShowFrame: require the register pins not to raise.
- SpaceController.LEDDisplay.constructor and SpaceControllerPart2.LEDDisplay.constructor: require a valid configuration. The invalid case is modelled by `NewLEDDisplay`, which validates first as `__init__` does.
- Adc.AnalogRead: the I2C bus is an oracle, so an I/O error from the bus is not modelled.
- ProcessImage.ConvertToHex, ProcessImage.ConvertRow and ImageToData.ConvertToHex: take each row already flat, as a list of non-negative integers. A multi-channel row is flattened by the caller, pixel by pixel, as `ProcessImage.FlatRow` models and `ProcessImage.ColourRowHex` describes. Negative or fractional entries, which `str(int(bit))` would also accept, are not modelled.
- FeatureFilters.RatioSpec: an entry of `knn_matches` with other than two matches is an unpacking error at its index. The partial result Python built before raising is discarded, as the exception discards it.
