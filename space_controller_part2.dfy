/**
 * The simpler lineage of the battery bar controller
 * (`LEDDisplay` in 2/Part2/space_controller.py): the same validation, map,
 * fill and setter, and a blocking low-battery warning of three all-HIGH /
 * all-LOW blinks with no overlay state.
 */
module SpaceControllerPart2 {
  import opened Wrappers
  import opened Gpio
  import opened BatteryBar

  const BLINKS: nat := 3
  const BLINK_MS: nat := 200  // timeOfBlink
  const GAP_MS: nat := 10     // timeBetweenBlinks

  datatype Bar = Bar(battery: real, pattern: seq<int>, pins: seq<int>, initialized: bool)

  predicate Invariant(b: Bar)
  {
    ValidConfig(b.battery, |b.pattern|, b.pins)
  }

  /** One blink: every pin HIGH, a 200 ms pause, every pin LOW, a 10 ms pause. */
  function Blink(pins: seq<int>): seq<Event>
  {
    Writes(pins, Uniform(|pins|, High)) + [Sleep(BLINK_MS)] + Writes(pins, Uniform(|pins|, Low)) + [Sleep(GAP_MS)]
  }

  function Blinks(pins: seq<int>, k: nat): (w: seq<Event>)
    ensures |w| == k * (2 * |pins| + 2)
  {
    if k == 0 then [] else Blinks(pins, k - 1) + Blink(pins)
  }

  /** One round of `triggerLowBatteryWarning`'s loop; a raising write stops it after the writes before it. */
  method BlinkOnce(gpio: Gpio, pins: seq<int>, i: nat, ghost base: seq<Event>) returns (ok: bool)
    requires gpio.log == base + Blinks(pins, i)
    modifies gpio`log
    ensures ok == NoFault(pins, gpio.faulty)
    ensures ok ==> gpio.log == base + Blinks(pins, i + 1)
    ensures !ok ==> gpio.log == base + Blinks(pins, i) + Drive(pins, Uniform(|pins|, High), gpio.faulty)
  {
    ok := gpio.OutputAll(pins, Uniform(|pins|, High));
    if ok {
      gpio.Sleep(BLINK_MS);
      var written := gpio.OutputAll(pins, Uniform(|pins|, Low));
      gpio.Sleep(GAP_MS);
    }
  }

  /** `triggerLowBatteryWarning`: the driver calls it makes (a raising write ends it silently). */
  function WarningEvents(b: Bar, faulty: set<int>): seq<Event>
  {
    if !b.initialized || |b.pins| == 0 then []
    else if !NoFault(b.pins, faulty) then Drive(b.pins, Uniform(|b.pins|, High), faulty)
    else Blinks(b.pins, BLINKS)
  }

  function CreateStep(battery: real, status: seq<int>, pins: seq<int>, faulty: set<int>): (r: (Result<Bar, DisplayError>, seq<Event>))
    ensures r.0.Success? <==> ValidConfig(battery, |status|, pins) && NoFault(pins, faulty)
    ensures ValidateInputs(battery, |status|, pins).Fail? ==>
              r == (Failure(Invalid(ValidateInputs(battery, |status|, pins).error)), [])
    ensures ValidConfig(battery, |status|, pins) && !NoFault(pins, faulty) ==> r.0 == Failure(GpioInitFailed)
    ensures r.0.Success? ==> Invariant(r.0.value) && r.0.value == Bar(battery, status, pins, true)
  {
    match ValidateInputs(battery, |status|, pins)
    case Fail(e) => (Failure(Invalid(e)), [])
    case Pass =>
      var events := SetupEvents(pins[..FirstFault(pins, faulty)]);
      if NoFault(pins, faulty) then (Success(Bar(battery, status, pins, true)), events)
      else (Failure(GpioInitFailed), events)
  }

  /** `setBatteryLevel`: the new bar, the level returned, and the warning's driver calls. */
  function SetBatteryStep(b: Bar, newLevel: real, faulty: set<int>): (r: (Bar, real, seq<Event>))
    ensures MIN_BATTERY <= r.1 <= MAX_BATTERY && r.0.battery == r.1
    ensures MIN_BATTERY <= newLevel <= MAX_BATTERY ==> r.1 == newLevel
    ensures r.0.pins == b.pins && r.0.initialized == b.initialized && |r.0.pattern| == |b.pattern|
    ensures r.2 != [] ==> LowBatteryCrossing(b.battery, r.1)
  {
    var level := Clamp(newLevel, MIN_BATTERY, MAX_BATTERY);
    if level == b.battery then (b, level, [])
    else
      var b1 := b.(battery := level, pattern := BarPattern(level, |b.pattern|));
      (b1, level, if LowBatteryCrossing(b.battery, level) then WarningEvents(b1, faulty) else [])
  }

  /** `updateLedStates`: each pin written once, HIGH iff its entry is 0. */
  function RenderStep(b: Bar, faulty: set<int>): (r: (Outcome<DisplayError>, seq<Event>))
    requires Invariant(b)
    ensures r.0 == Fail(NotInitialized) <==> !b.initialized
    ensures !b.initialized ==> r.1 == []
    ensures b.initialized && NoFault(b.pins, faulty) ==> r.0 == Pass
  {
    if !b.initialized then (Fail(NotInitialized), [])
    else
      var w := Drive(b.pins, NormalLevels(b.pattern), faulty);
      (if NoFault(b.pins, faulty) then Pass else Fail(UpdateFailed), w)
  }

  /** `cleanup`: all pins LOW, then the driver released; errors swallowed. */
  function CleanupStep(b: Bar, faulty: set<int>): (r: (Bar, seq<Event>))
    ensures r.0 == b.(initialized := r.0.initialized)
    ensures r.0.initialized <==> b.initialized && !NoFault(b.pins, faulty)
    ensures !b.initialized ==> r.1 == []
  {
    if !b.initialized then (b, [])
    else if NoFault(b.pins, faulty) then
      (b.(initialized := false), Writes(b.pins, Uniform(|b.pins|, Low)) + [Release])
    else (b, Drive(b.pins, Uniform(|b.pins|, Low), faulty))
  }

  // ---------------------------------------------------------------------
  // Properties
  // ---------------------------------------------------------------------

  /**
   * `setBatteryLevel` returns and stores the clamped level, does nothing
   * else when it is unchanged, recomputes the bar otherwise, and blinks
   * only on a drop from above 15 to 15 or below.
   */
  lemma SetBatteryLevelSpec(b: Bar, newLevel: real, faulty: set<int>)
    requires Invariant(b)
    ensures var (r, level, w) := SetBatteryStep(b, newLevel, faulty);
      && level == Clamp(newLevel, MIN_BATTERY, MAX_BATTERY)
      && MIN_BATTERY <= level <= MAX_BATTERY
      && r.battery == level && r.pins == b.pins && r.initialized == b.initialized
      && Invariant(r)
      && (level == b.battery ==> r == b && w == [])
      && (level != b.battery ==> r.pattern == BarPattern(level, |b.pattern|))
      && (!LowBatteryCrossing(b.battery, level) ==> w == [])
      && (LowBatteryCrossing(b.battery, level) ==> w == WarningEvents(r, faulty))
  {
  }

  /** The blink rounds are exactly three copies of one blink. */
  lemma BlinksAreThreeRounds(pins: seq<int>)
    ensures Blinks(pins, BLINKS) == Blink(pins) + Blink(pins) + Blink(pins)
  {
    assert Blinks(pins, 1) == Blink(pins);
  }

  /** Every blink, hence the whole warning, leaves every pin LOW. */
  lemma {:induction false} BlinksLeaveLow(log: seq<Event>, pins: seq<int>, k: nat, i: nat)
    requires Distinct(pins) && i < |pins| && k > 0
    ensures LastLevel(log + Blinks(pins, k), pins[i]) == Some(Low)
  {
    var n := |pins|;
    var head := log + Blinks(pins, k - 1) + Writes(pins, Uniform(n, High)) + [Sleep(BLINK_MS)];
    LastLevelAfterWrites(head, pins, Uniform(n, Low), i);
    LastLevelSkips(head + Writes(pins, Uniform(n, Low)), [Sleep(GAP_MS)], pins[i]);
    assert log + Blinks(pins, k) == head + Writes(pins, Uniform(n, Low)) + [Sleep(GAP_MS)];
  }

  /**
   * The blocking warning is a no-op when uninitialised or without pins;
   * otherwise, with no raising pin, it blinks three times and leaves every
   * pin LOW. It never changes the bar.
   */
  lemma WarningSpec(b: Bar, faulty: set<int>, log: seq<Event>, i: nat)
    requires Invariant(b)
    ensures !b.initialized || |b.pins| == 0 ==> WarningEvents(b, faulty) == []
    ensures b.initialized && NoFault(b.pins, faulty) && i < |b.pins| ==>
              && WarningEvents(b, faulty) == Blink(b.pins) + Blink(b.pins) + Blink(b.pins)
              && LastLevel(log + WarningEvents(b, faulty), b.pins[i]) == Some(Low)
  {
    BlinksAreThreeRounds(b.pins);
    if b.initialized && NoFault(b.pins, faulty) && i < |b.pins| {
      BlinksLeaveLow(log, b.pins, BLINKS, i);
    }
  }

  /** `updateLedStates` writes each pin exactly once, with HIGH exactly where the bar holds 0. */
  lemma RenderSpec(b: Bar, faulty: set<int>, log: seq<Event>, i: nat)
    requires Invariant(b) && b.initialized && NoFault(b.pins, faulty) && i < |b.pins|
    ensures var (r, w) := RenderStep(b, faulty);
      && r == Pass && |w| == |b.pins|
      && (forall j :: 0 <= j < |w| ==> w[j].Output? && w[j].pin == b.pins[j])
      && LastLevel(log + w, b.pins[i]) == Some(if b.pattern[i] == 0 then High else Low)
  {
    LastLevelAfterWrites(log, b.pins, NormalLevels(b.pattern), i);
  }

  /** `cleanup` acts once: every pin ends LOW, and a second call or a later render does nothing. */
  lemma CleanupIdempotent(b: Bar, faulty: set<int>, log: seq<Event>, i: nat)
    requires Invariant(b) && b.initialized && NoFault(b.pins, faulty) && i < |b.pins|
    ensures var (b1, w) := CleanupStep(b, faulty);
      && !b1.initialized && b1.pattern == b.pattern && b1.battery == b.battery
      && w[|w| - 1] == Release
      && LastLevel(log + w, b.pins[i]) == Some(Low)
      && CleanupStep(b1, faulty) == (b1, [])
      && RenderStep(b1, faulty) == (Fail(NotInitialized), [])
  {
    var w := Writes(b.pins, Uniform(|b.pins|, Low));
    LastLevelAfterWrites(log, b.pins, Uniform(|b.pins|, Low), i);
    assert log + (w + [Release]) == (log + w) + [Release];
  }

  // ---------------------------------------------------------------------
  // The controller object
  // ---------------------------------------------------------------------

  class LEDDisplay {
    var batteryInput: real
    const ledPinsArrStatus: array<int>
    const ledPinsArr: seq<int>
    const gpio: Gpio
    var gpioInitialized: bool

    ghost predicate Valid()
      reads this
    {
      ValidConfig(batteryInput, ledPinsArrStatus.Length, ledPinsArr)
    }

    ghost function Model(): (b: Bar)
      reads this, ledPinsArrStatus
      requires Valid()
      ensures Invariant(b)
    {
      Bar(batteryInput, ledPinsArrStatus[..], ledPinsArr, gpioInitialized)
    }

    constructor (batteryInput: real, ledPinsArrStatus: array<int>, ledPinsArr: seq<int>, gpio: Gpio)
      requires ValidConfig(batteryInput, ledPinsArrStatus.Length, ledPinsArr)
      ensures Valid() && this.gpio == gpio && this.ledPinsArrStatus == ledPinsArrStatus
      ensures Model() == Bar(batteryInput, ledPinsArrStatus[..], ledPinsArr, false)
    {
      this.batteryInput := batteryInput;
      this.ledPinsArrStatus := ledPinsArrStatus;
      this.ledPinsArr := ledPinsArr;
      this.gpio := gpio;
      gpioInitialized := false;
    }

    /** `_initialize_gpio`. */
    method InitializeGpio() returns (ok: bool)
      requires Valid()
      modifies this`gpioInitialized, gpio`log
      ensures Valid() && Model() == old(Model()).(initialized := ok || old(gpioInitialized))
      ensures ok == NoFault(ledPinsArr, gpio.faulty)
      ensures gpio.log == old(gpio.log) + SetupEvents(ledPinsArr[..FirstFault(ledPinsArr, gpio.faulty)])
    {
      var i := 0;
      while i < |ledPinsArr|
        invariant 0 <= i <= |ledPinsArr|
        invariant forall j :: 0 <= j < i ==> ledPinsArr[j] !in gpio.faulty
        invariant gpio.log == old(gpio.log) + SetupEvents(ledPinsArr[..i])
        invariant gpioInitialized == old(gpioInitialized)
      {
        ok := SetupPin(gpio, ledPinsArr, i, old(gpio.log));
        if !ok {
          FirstFaultAt(ledPinsArr, gpio.faulty, i);
          return;
        }
        i := i + 1;
      }
      assert ledPinsArr[..i] == ledPinsArr;
      gpioInitialized := true;
      ok := true;
    }

    /** `calculateLedStates`: rewrites the pattern in place. */
    method CalculateLedStates()
      requires Valid()
      modifies ledPinsArrStatus
      ensures ledPinsArrStatus[..] == BarPattern(batteryInput, ledPinsArrStatus.Length)
    {
      var n := ledPinsArrStatus.Length;
      var ledsToEnable: int;
      if batteryInput == MIN_BATTERY {
        ledsToEnable := 0;
      } else {
        var mapped := MapValues(batteryInput, MIN_BATTERY, MAX_BATTERY, MIN_LEDS as real, n as real);
        ledsToEnable := IMax(1, mapped.value.Floor);
      }
      for i := 0 to n
        invariant forall j :: 0 <= j < i ==> ledPinsArrStatus[j] == if j < ledsToEnable then 1 else 0
      {
        ledPinsArrStatus[i] := if i < ledsToEnable then 1 else 0;
      }
    }

    /** `triggerLowBatteryWarning`: three blocking blinks, a raising write ending it silently. */
    method TriggerLowBatteryWarning()
      requires Valid()
      modifies gpio`log
      ensures gpio.log == old(gpio.log) + WarningEvents(Model(), gpio.faulty)
    {
      if !gpioInitialized || |ledPinsArr| == 0 {
        return;
      }
      var i := 0;
      while i < BLINKS
        invariant 0 <= i <= BLINKS
        invariant i > 0 ==> NoFault(ledPinsArr, gpio.faulty)
        invariant gpio.log == old(gpio.log) + Blinks(ledPinsArr, i)
      {
        var ok := BlinkOnce(gpio, ledPinsArr, i, old(gpio.log));
        if !ok {
          assert Blinks(ledPinsArr, 0) == [];
          return;
        }
        i := i + 1;
      }
    }

    /** `setBatteryLevel`. */
    method SetBatteryLevel(newLevel: real) returns (level: real)
      requires Valid()
      modifies this`batteryInput, ledPinsArrStatus, gpio`log
      ensures Valid()
      ensures Model() == SetBatteryStep(old(Model()), newLevel, gpio.faulty).0
      ensures level == SetBatteryStep(old(Model()), newLevel, gpio.faulty).1
      ensures gpio.log == old(gpio.log) + SetBatteryStep(old(Model()), newLevel, gpio.faulty).2
    {
      var oldLevel := batteryInput;
      batteryInput := RMax(MIN_BATTERY, RMin(MAX_BATTERY, newLevel));
      if batteryInput != oldLevel {
        CalculateLedStates();
        if batteryInput <= LOW_BATTERY_LEVEL && oldLevel > LOW_BATTERY_LEVEL {
          TriggerLowBatteryWarning();
        }
      }
      level := batteryInput;
    }

    /** `updateLedStates`. */
    method UpdateLedStates() returns (r: Outcome<DisplayError>)
      requires Valid()
      modifies gpio`log
      ensures r == RenderStep(Model(), gpio.faulty).0
      ensures gpio.log == old(gpio.log) + RenderStep(Model(), gpio.faulty).1
    {
      if !gpioInitialized {
        return Fail(NotInitialized);
      }
      var written := gpio.OutputAll(ledPinsArr, NormalLevels(ledPinsArrStatus[..]));
      r := if written then Pass else Fail(UpdateFailed);
    }

    /** `cleanup`. */
    method Cleanup()
      requires Valid()
      modifies this`gpioInitialized, gpio`log
      ensures Valid()
      ensures Model() == CleanupStep(old(Model()), gpio.faulty).0
      ensures gpio.log == old(gpio.log) + CleanupStep(old(Model()), gpio.faulty).1
    {
      if gpioInitialized {
        var written := gpio.OutputAll(ledPinsArr, Uniform(|ledPinsArr|, Low));
        if written {
          ghost var lows := Writes(ledPinsArr, Uniform(|ledPinsArr|, Low));
          gpio.Cleanup();
          assert gpio.log == old(gpio.log) + (lows + [Release]);
          gpioInitialized := false;
        }
      }
    }
  }

  /** `LEDDisplay(...)`: validation, then pin setup; either may raise. */
  method NewLEDDisplay(batteryInput: real, ledPinsArrStatus: array<int>, ledPinsArr: seq<int>, gpio: Gpio)
    returns (r: Result<LEDDisplay, DisplayError>)
    modifies gpio`log
    ensures var (c, events) := CreateStep(batteryInput, old(ledPinsArrStatus[..]), ledPinsArr, gpio.faulty);
      && r.Success? == c.Success?
      && (r.Failure? ==> r.error == c.error)
      && (r.Success? ==> fresh(r.value) && r.value.Valid() && r.value.Model() == c.value
                         && r.value.gpio == gpio && r.value.ledPinsArrStatus == ledPinsArrStatus)
      && gpio.log == old(gpio.log) + events
  {
    var check := ValidateInputs(batteryInput, ledPinsArrStatus.Length, ledPinsArr);
    if check.Fail? {
      return Failure(Invalid(check.error));
    }
    var display := new LEDDisplay(batteryInput, ledPinsArrStatus, ledPinsArr, gpio);
    var ok := display.InitializeGpio();
    if !ok {
      return Failure(GpioInitFailed);
    }
    r := Success(display);
  }
}
