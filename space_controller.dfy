/**
 * The battery-level LED bar controller with its non-blocking low-battery
 * flash overlay (`LEDDisplay` in 2/space_controller.py).
 *
 * The controller's state is described by the value type `Display` and one
 * step function per operation; the class `LEDDisplay` holds the same state
 * in fields (the pattern in an array the caller may alias) and each of its
 * methods is proved to perform exactly its step function.
 *
 * Time is an integer number of milliseconds passed in as `now`: one flash
 * cycle is 100 ms (lit for the first 50), and the overlay ends once three
 * whole cycles have elapsed.
 */
module SpaceController {
  import opened Wrappers
  import opened Gpio
  import opened BatteryBar

  const FLASH_CYCLE_MS: int := 100
  const FLASH_ON_MS: int := 50
  const FLASH_CYCLES: int := 3

  /**
   * The overlay: idle, or flashing since `startTime`, holding the pattern
   * snapshot taken when it started and the level it last commanded.
   */
  datatype Warning = Idle | Flashing(startTime: int, saved: seq<int>, lit: bool)

  datatype Display = Display(battery: real, pattern: seq<int>, pins: seq<int>, initialized: bool, warning: Warning)

  datatype Status = Status(batteryLevel: real, ledStates: seq<int>, ledPins: seq<int>, ledsOn: int,
                           gpioInitialized: bool, timestamp: int)

  /** What every reachable display satisfies. */
  predicate Invariant(d: Display)
  {
    && ValidConfig(d.battery, |d.pattern|, d.pins)
    && (d.warning.Flashing? ==> |d.warning.saved| == |d.pins|)
  }

  // ---------------------------------------------------------------------
  // Flash phase arithmetic
  // ---------------------------------------------------------------------

  /** Python's `int(a / b)` for b > 0: the quotient truncated toward zero. */
  function TruncDiv(a: int, b: int): (q: int)
    requires b > 0
    ensures a >= 0 ==> q * b <= a < q * b + b
    ensures a < 0 ==> q <= 0 && q * b - b < a
  {
    if a >= 0 then a / b else -((-a) / b)
  }

  /** `current_cycle`: whole flash cycles elapsed. */
  function FlashCycle(elapsed: int): int
  {
    TruncDiv(elapsed, FLASH_CYCLE_MS)
  }

  /** `leds_should_be_on`: the first half of every cycle is lit (Python's `%` is never negative here). */
  predicate FlashLit(elapsed: int)
  {
    elapsed % FLASH_CYCLE_MS < FLASH_ON_MS
  }

  /** The overlay's end condition holds exactly from 300 ms on. */
  lemma FlashEndsAt(elapsed: int)
    ensures FlashCycle(elapsed) >= FLASH_CYCLES <==> elapsed >= FLASH_CYCLES * FLASH_CYCLE_MS
  {
  }

  /** Within the three cycles the lit windows are [0,50), [100,150) and [200,250). */
  lemma FlashLitWindows(elapsed: int)
    requires 0 <= elapsed < FLASH_CYCLES * FLASH_CYCLE_MS
    ensures FlashLit(elapsed) <==> (0 <= elapsed < 50 || 100 <= elapsed < 150 || 200 <= elapsed < 250)
  {
  }

  // ---------------------------------------------------------------------
  // Step functions: one per operation of the controller
  // ---------------------------------------------------------------------

  /** `_end_warning_sequence`'s polarity: pattern value 0 drives the pin LOW, anything else HIGH. */
  function RestoreLevels(pattern: seq<int>): (ls: seq<Level>)
    ensures |ls| == |pattern|
    ensures forall i :: 0 <= i < |pattern| ==> (ls[i] == Low <==> pattern[i] == 0)
  {
    seq(|pattern|, i requires 0 <= i < |pattern| => if pattern[i] == 0 then Low else High)
  }

  /** Writing the same level to every pin. */
  function FlashLevels(d: Display, lit: bool): seq<Level>
  {
    Uniform(|d.pins|, LevelOf(lit))
  }

  function CreateStep(battery: real, status: seq<int>, pins: seq<int>, faulty: set<int>): (r: (Result<Display, DisplayError>, seq<Event>))
    ensures r.0.Success? <==> ValidConfig(battery, |status|, pins) && NoFault(pins, faulty)
    ensures ValidateInputs(battery, |status|, pins).Fail? ==>
              r == (Failure(Invalid(ValidateInputs(battery, |status|, pins).error)), [])
    ensures ValidConfig(battery, |status|, pins) && !NoFault(pins, faulty) ==> r.0 == Failure(GpioInitFailed)
    ensures r.0.Success? ==> Invariant(r.0.value) && r.0.value == Display(battery, status, pins, true, Idle)
  {
    match ValidateInputs(battery, |status|, pins)
    case Fail(e) => (Failure(Invalid(e)), [])
    case Pass =>
      var events := SetupEvents(pins[..FirstFault(pins, faulty)]);
      if NoFault(pins, faulty) then (Success(Display(battery, status, pins, true, Idle)), events)
      else (Failure(GpioInitFailed), events)
  }

  /** `triggerLowBatteryWarning`. */
  function TriggerStep(d: Display, now: int): (r: Display)
    ensures r.warning.Flashing? <==> d.warning.Flashing? || (d.initialized && |d.pins| > 0)
    ensures d.warning.Flashing? || !d.initialized || |d.pins| == 0 ==> r == d
    ensures d.warning.Idle? && r.warning.Flashing? ==>
              r == d.(warning := Flashing(now, d.pattern, false))
  {
    if !d.initialized then d
    else if |d.pins| == 0 then d
    else if d.warning.Flashing? then d
    else d.(warning := Flashing(now, d.pattern, false))
  }

  /** `setBatteryLevel`: the new display and the level it stores and returns. */
  function SetBatteryStep(d: Display, newLevel: real, now: int): (r: (Display, real))
    ensures MIN_BATTERY <= r.1 <= MAX_BATTERY && r.0.battery == r.1
    ensures MIN_BATTERY <= newLevel <= MAX_BATTERY ==> r.1 == newLevel
    ensures r.0.pins == d.pins && r.0.initialized == d.initialized && |r.0.pattern| == |d.pattern|
  {
    var level := Clamp(newLevel, MIN_BATTERY, MAX_BATTERY);
    if level == d.battery then (d, level)
    else
      var d1 := d.(battery := level, pattern := BarPattern(level, |d.pattern|));
      if LowBatteryCrossing(d.battery, level) then (TriggerStep(d1, now), level) else (d1, level)
  }

  /** `_end_warning_sequence`: back to idle, snapshot restored, restored pattern written. */
  function EndWarningStep(d: Display, faulty: set<int>): (r: (Display, seq<Event>))
    requires Invariant(d)
    ensures r.0.warning.Idle? && (d.warning.Flashing? ==> r.0.pattern == d.warning.saved)
  {
    var pattern := if d.warning.Flashing? then d.warning.saved else d.pattern;
    (d.(warning := Idle, pattern := pattern), Drive(d.pins, RestoreLevels(pattern), faulty))
  }

  /** `_update_warning_animation`. */
  function AnimateStep(d: Display, now: int, faulty: set<int>): (r: (Display, seq<Event>))
    requires Invariant(d)
    ensures r.0.battery == d.battery && r.0.pins == d.pins && r.0.initialized == d.initialized
    ensures d.warning.Idle? ==> r == (d, [])
    ensures r.0.warning.Flashing? ==>
              d.warning.Flashing? && FlashCycle(now - d.warning.startTime) < FLASH_CYCLES && r.0.pattern == d.pattern
    ensures d.warning.Flashing? && FlashCycle(now - d.warning.startTime) >= FLASH_CYCLES ==>
              r.0.warning.Idle? && r.0.pattern == d.warning.saved
  {
    match d.warning
    case Idle => (d, [])
    case Flashing(start, saved, ledState) =>
      var elapsed := now - start;
      var lit := FlashLit(elapsed);
      if lit != ledState then
        var flash := Drive(d.pins, FlashLevels(d, lit), faulty);
        var d1 := d.(warning := Flashing(start, saved, lit));
        if !NoFault(d.pins, faulty) || FlashCycle(elapsed) >= FLASH_CYCLES then
          var (d2, restore) := EndWarningStep(d1, faulty);
          (d2, flash + restore)
        else (d1, flash)
      else if FlashCycle(elapsed) >= FLASH_CYCLES then EndWarningStep(d, faulty)
      else (d, [])
  }

  /** The four branches of `AnimateStep` while the overlay is active, one per case. */
  lemma AnimateBranches(d: Display, now: int, faulty: set<int>)
    requires Invariant(d) && d.warning.Flashing?
    ensures var lit := FlashLit(now - d.warning.startTime);
      var d1 := d.(warning := d.warning.(lit := lit));
      var flash := Drive(d.pins, FlashLevels(d, lit), faulty);
      var ending := FlashCycle(now - d.warning.startTime) >= FLASH_CYCLES;
      && (lit != d.warning.lit && (!NoFault(d.pins, faulty) || ending) ==>
            AnimateStep(d, now, faulty) == (EndWarningStep(d1, faulty).0, flash + EndWarningStep(d1, faulty).1))
      && (lit != d.warning.lit && NoFault(d.pins, faulty) && !ending ==> AnimateStep(d, now, faulty) == (d1, flash))
      && (lit == d.warning.lit && ending ==> AnimateStep(d, now, faulty) == EndWarningStep(d, faulty))
      && (lit == d.warning.lit && !ending ==> AnimateStep(d, now, faulty) == (d, []))
  {
    var lit := FlashLit(now - d.warning.startTime);
    if lit != d.warning.lit {
      var d1 := d.(warning := d.warning.(lit := lit));
      assert d1 == d.(warning := Flashing(d.warning.startTime, d.warning.saved, lit));
    }
  }

  /** The toggle case of `AnimateStep`: the new level is written, and the overlay ends if a write raised or three cycles have passed. */
  lemma AnimateToggle(d: Display, now: int, elapsed: int, faulty: set<int>, on: bool)
    requires Invariant(d) && d.warning.Flashing? && elapsed == now - d.warning.startTime
    requires on == FlashLit(elapsed) && on != d.warning.lit
    ensures var d1 := d.(warning := d.warning.(lit := on));
      var flash := Drive(d.pins, FlashLevels(d, on), faulty);
      if !NoFault(d.pins, faulty) || FlashCycle(elapsed) >= FLASH_CYCLES
      then AnimateStep(d, now, faulty) == (EndWarningStep(d1, faulty).0, flash + EndWarningStep(d1, faulty).1)
      else AnimateStep(d, now, faulty) == (d1, flash)
  {
  }

  /** `updateLedStates`: advance the overlay; while it stays active write nothing else. */
  function RenderStep(d: Display, now: int, faulty: set<int>): (r: (Outcome<DisplayError>, Display, seq<Event>))
    requires Invariant(d)
    ensures r.0 == Fail(NotInitialized) <==> !d.initialized
    ensures !d.initialized ==> r.1 == d && r.2 == []
    ensures r.1.battery == d.battery && r.1.pins == d.pins && r.1.initialized == d.initialized
    ensures r.1.warning.Idle? && d.initialized && NoFault(d.pins, faulty) ==> r.0 == Pass
  {
    if !d.initialized then (Fail(NotInitialized), d, [])
    else
      var (d1, w1) := AnimateStep(d, now, faulty);
      if d1.warning.Flashing? then (Pass, d1, w1)
      else
        var w2 := Drive(d1.pins, NormalLevels(d1.pattern), faulty);
        (if NoFault(d1.pins, faulty) then Pass else Fail(UpdateFailed), d1, w1 + w2)
  }

  /** `cleanup`: all pins LOW and the driver released; a raising write leaves the display initialised. */
  function CleanupStep(d: Display, faulty: set<int>): (r: (Display, seq<Event>))
    ensures r.0 == d.(initialized := r.0.initialized)
    ensures r.0.initialized <==> d.initialized && !NoFault(d.pins, faulty)
    ensures !d.initialized ==> r.1 == []
  {
    if !d.initialized then (d, [])
    else if NoFault(d.pins, faulty) then
      (d.(initialized := false), Writes(d.pins, Uniform(|d.pins|, Low)) + [Release])
    else (d, Drive(d.pins, Uniform(|d.pins|, Low), faulty))
  }

  // ---------------------------------------------------------------------
  // Properties of the step functions
  // ---------------------------------------------------------------------

  /** Every operation keeps the invariant. */
  lemma StepsKeepInvariant(d: Display, newLevel: real, now: int, faulty: set<int>)
    requires Invariant(d)
    ensures Invariant(TriggerStep(d, now))
    ensures Invariant(SetBatteryStep(d, newLevel, now).0)
    ensures Invariant(EndWarningStep(d, faulty).0)
    ensures Invariant(AnimateStep(d, now, faulty).0)
    ensures Invariant(RenderStep(d, now, faulty).1)
    ensures Invariant(CleanupStep(d, faulty).0)
  {
  }

  /**
   * `setBatteryLevel` stores the clamped level and returns it; an unchanged
   * level changes nothing; a changed one recomputes the bar; the warning
   * starts exactly on a drop from above 15 to 15 or below (when the
   * overlay can start at all), and its snapshot is the post-drop bar.
   */
  lemma SetBatteryLevelSpec(d: Display, newLevel: real, now: int)
    requires Invariant(d)
    ensures var (r, level) := SetBatteryStep(d, newLevel, now);
      && MIN_BATTERY <= level <= MAX_BATTERY
      && (MIN_BATTERY <= newLevel <= MAX_BATTERY ==> level == newLevel)
      && (newLevel < MIN_BATTERY ==> level == MIN_BATTERY)
      && (newLevel > MAX_BATTERY ==> level == MAX_BATTERY)
      && r.battery == level && r.pins == d.pins && r.initialized == d.initialized
      && (level == d.battery ==> r == d)
      && (level != d.battery ==> r.pattern == BarPattern(level, |d.pattern|))
      && (r.warning != d.warning <==>
            LowBatteryCrossing(d.battery, level) && d.warning.Idle? && d.initialized && |d.pins| > 0)
      && (r.warning != d.warning ==> r.warning == Flashing(now, BarPattern(level, |d.pattern|), false))
  {
  }

  /** While the overlay is active a battery change never touches its snapshot. */
  lemma SetBatteryKeepsSnapshot(d: Display, newLevel: real, now: int)
    requires Invariant(d) && d.warning.Flashing?
    ensures SetBatteryStep(d, newLevel, now).0.warning == d.warning
  {
  }

  /** Between level changes and before the end, the overlay writes nothing. */
  lemma AnimateWritesOnlyOnChange(d: Display, now: int, faulty: set<int>)
    requires Invariant(d) && d.warning.Flashing?
    requires FlashLit(now - d.warning.startTime) == d.warning.lit
    requires now - d.warning.startTime < FLASH_CYCLES * FLASH_CYCLE_MS
    ensures AnimateStep(d, now, faulty) == (d, [])
  {
    FlashEndsAt(now - d.warning.startTime);
    AnimateBranches(d, now, faulty);
  }

  /** A level change is written to every pin, all with the same level, and recorded. */
  lemma AnimateFlashes(d: Display, now: int, faulty: set<int>)
    requires Invariant(d) && d.warning.Flashing? && NoFault(d.pins, faulty)
    requires FlashLit(now - d.warning.startTime) != d.warning.lit
    requires now - d.warning.startTime < FLASH_CYCLES * FLASH_CYCLE_MS
    ensures var lit := FlashLit(now - d.warning.startTime);
      AnimateStep(d, now, faulty) ==
        (d.(warning := d.warning.(lit := lit)), Writes(d.pins, Uniform(|d.pins|, LevelOf(lit))))
  {
    FlashEndsAt(now - d.warning.startTime);
  }

  /**
   * The overlay always ends once 300 ms have elapsed, and a raising pin
   * write ends it at once; either way the snapshot becomes the pattern.
   */
  lemma AnimateEnds(d: Display, now: int, faulty: set<int>)
    requires Invariant(d) && d.warning.Flashing?
    requires now - d.warning.startTime >= FLASH_CYCLES * FLASH_CYCLE_MS
             || (FlashLit(now - d.warning.startTime) != d.warning.lit && !NoFault(d.pins, faulty))
    ensures AnimateStep(d, now, faulty).0 == d.(warning := Idle, pattern := d.warning.saved)
  {
    FlashEndsAt(now - d.warning.startTime);
  }

  /** Ending the overlay leaves it idle whatever the pin writes do. */
  lemma EndWarningAlwaysIdle(d: Display, faulty: set<int>)
    requires Invariant(d)
    ensures EndWarningStep(d, faulty).0.warning == Idle
    ensures d.warning.Flashing? ==> EndWarningStep(d, faulty).0.pattern == d.warning.saved
  {
  }

  /** While the overlay stays active, `updateLedStates` writes only the uniform flash level. */
  lemma RenderWhileFlashing(d: Display, now: int, faulty: set<int>)
    requires Invariant(d) && d.initialized
    requires RenderStep(d, now, faulty).1.warning.Flashing?
    ensures var (r, d1, w) := RenderStep(d, now, faulty);
      && r == Pass && d1.pattern == d.pattern && d1.battery == d.battery
      && forall i :: 0 <= i < |w| ==> w[i] == Output(d.pins[i], LevelOf(d1.warning.lit))
  {
  }

  /** The pin writes of a render at an elapsed time of 300 ms or more without faults. */
  function FinalFlash(d: Display, now: int): seq<Event>
    requires d.warning.Flashing?
  {
    var lit := FlashLit(now - d.warning.startTime);
    if lit != d.warning.lit then Writes(d.pins, Uniform(|d.pins|, LevelOf(lit))) else []
  }

  /** Past 300 ms, with no raising pin, the overlay writes its last change and then the restore. */
  lemma AnimateEndEvents(d: Display, now: int, faulty: set<int>)
    requires Invariant(d) && d.warning.Flashing? && NoFault(d.pins, faulty)
    requires now - d.warning.startTime >= FLASH_CYCLES * FLASH_CYCLE_MS
    ensures AnimateStep(d, now, faulty) ==
      (d.(warning := Idle, pattern := d.warning.saved),
       FinalFlash(d, now) + Writes(d.pins, RestoreLevels(d.warning.saved)))
  {
    FlashEndsAt(now - d.warning.startTime);
    var lit := FlashLit(now - d.warning.startTime);
    if lit != d.warning.lit {
      var d1 := d.(warning := d.warning.(lit := lit));
      assert Drive(d.pins, FlashLevels(d, lit), faulty) == FinalFlash(d, now);
      assert EndWarningStep(d1, faulty) == (d.(warning := Idle, pattern := d.warning.saved),
                                            Writes(d.pins, RestoreLevels(d.warning.saved)));
    } else {
      assert FinalFlash(d, now) + Writes(d.pins, RestoreLevels(d.warning.saved))
          == Writes(d.pins, RestoreLevels(d.warning.saved));
    }
  }

  /**
   * When `updateLedStates` ends the overlay, the restore write (value 0 is
   * LOW) is followed by the normal write (value 0 is HIGH), so every pin
   * ends at the normal polarity of the restored snapshot.
   */
  lemma RenderEndWriteOrder(d: Display, now: int, faulty: set<int>, log: seq<Event>, i: nat)
    requires Invariant(d) && d.initialized && d.warning.Flashing? && NoFault(d.pins, faulty)
    requires now - d.warning.startTime >= FLASH_CYCLES * FLASH_CYCLE_MS
    requires i < |d.pins|
    ensures var (r, d1, w) := RenderStep(d, now, faulty);
      var saved := d.warning.saved;
      && r == Pass && d1.warning == Idle && d1.pattern == saved
      && w == FinalFlash(d, now) + Writes(d.pins, RestoreLevels(saved)) + Writes(d.pins, NormalLevels(saved))
      && LastLevel(log + w, d.pins[i]) == Some(if saved[i] == 0 then High else Low)
  {
    var saved := d.warning.saved;
    AnimateEndEvents(d, now, faulty);
    var prefix := FinalFlash(d, now) + Writes(d.pins, RestoreLevels(saved));
    var w := prefix + Writes(d.pins, NormalLevels(saved));
    assert RenderStep(d, now, faulty) == (Pass, d.(warning := Idle, pattern := saved), w);
    LastLevelAfterWrites(log + prefix, d.pins, NormalLevels(saved), i);
    assert log + w == (log + prefix) + Writes(d.pins, NormalLevels(saved));
  }

  /**
   * Stale restore: a battery change while the overlay is active recomputes
   * the bar, but the overlay's end puts back the bar it saved at the start.
   */
  lemma StaleRestore(d: Display, newLevel: real, t: int, now: int, faulty: set<int>)
    requires Invariant(d) && d.initialized && d.warning.Flashing?
    requires now - d.warning.startTime >= FLASH_CYCLES * FLASH_CYCLE_MS
    ensures var d1 := SetBatteryStep(d, newLevel, t).0;
      && Invariant(d1)
      && RenderStep(d1, now, faulty).1.pattern == d.warning.saved
      && RenderStep(d1, now, faulty).1.battery == Clamp(newLevel, MIN_BATTERY, MAX_BATTERY)
  {
    var d1 := SetBatteryStep(d, newLevel, t).0;
    SetBatteryKeepsSnapshot(d, newLevel, t);
    StepsKeepInvariant(d, newLevel, t, faulty);
    AnimateEnds(d1, now, faulty);
  }

  /** `cleanup` drives every pin LOW and only then gives up the driver; a second call does nothing. */
  lemma CleanupIdempotent(d: Display, faulty: set<int>, log: seq<Event>, i: nat)
    requires Invariant(d) && d.initialized && NoFault(d.pins, faulty) && i < |d.pins|
    ensures var (d1, w) := CleanupStep(d, faulty);
      && !d1.initialized && d1.pattern == d.pattern && d1.warning == d.warning
      && w[|w| - 1] == Release
      && LastLevel(log + w, d.pins[i]) == Some(Low)
      && CleanupStep(d1, faulty) == (d1, [])
      && RenderStep(d1, 0, faulty).0 == Fail(NotInitialized)
  {
    var w := Writes(d.pins, Uniform(|d.pins|, Low));
    LastLevelAfterWrites(log, d.pins, Uniform(|d.pins|, Low), i);
    assert log + (w + [Release]) == (log + w) + [Release];
    assert LastLevel((log + w) + [Release], d.pins[i]) == LastLevel(log + w, d.pins[i]);
  }

  /**
   * The low-battery sequence end to end: a drop from 16 to 14 at `t0`
   * starts the overlay; renders at 20 ms and 70 ms light and then darken
   * every pin; a render at 310 ms ends it and shows the bar for 14%.
   */
  lemma LowBatteryScenario(d: Display, t0: int, faulty: set<int>)
    requires Invariant(d) && d.initialized && d.warning.Idle? && d.battery == 16.0
    requires |d.pins| > 0 && NoFault(d.pins, faulty)
    ensures var n := |d.pins|;
      var d1 := SetBatteryStep(d, 14.0, t0).0;
      var (_, d2, w2) := RenderStep(d1, t0 + 20, faulty);
      var (_, d3, w3) := RenderStep(d2, t0 + 70, faulty);
      var (_, d4, w4) := RenderStep(d3, t0 + 310, faulty);
      && d1.warning == Flashing(t0, BarPattern(14.0, n), false)
      && w2 == Writes(d.pins, Uniform(n, High)) && d2.warning.Flashing?
      && w3 == Writes(d.pins, Uniform(n, Low)) && d3.warning.Flashing?
      && d4.warning == Idle && d4.pattern == BarPattern(14.0, n)
      && w4 == Writes(d.pins, Uniform(n, High)) + Writes(d.pins, RestoreLevels(d4.pattern))
               + Writes(d.pins, NormalLevels(d4.pattern))
  {
    var n := |d.pins|;
    SetBatteryLevelSpec(d, 14.0, t0);
    var d1 := SetBatteryStep(d, 14.0, t0).0;
    StepsKeepInvariant(d, 14.0, t0, faulty);
    assert FlashLit(20) && FlashCycle(20) == 0;
    AnimateFlashes(d1, t0 + 20, faulty);
    var d2 := RenderStep(d1, t0 + 20, faulty).1;
    StepsKeepInvariant(d1, 14.0, t0 + 20, faulty);
    assert !FlashLit(70) && FlashCycle(70) == 0;
    AnimateFlashes(d2, t0 + 70, faulty);
    var d3 := RenderStep(d2, t0 + 70, faulty).1;
    StepsKeepInvariant(d2, 14.0, t0 + 70, faulty);
    assert FlashLit(310) && FlashCycle(310) == 3;
    RenderEndWriteOrder(d3, t0 + 310, faulty, [], 0);
  }

  // ---------------------------------------------------------------------
  // The controller object
  // ---------------------------------------------------------------------

  class LEDDisplay {
    var batteryInput: real
    /** The bar pattern; the caller's own list, until the overlay's end replaces it by a copy. */
    var ledPinsArrStatus: array<int>
    const ledPinsArr: seq<int>
    const gpio: Gpio
    var gpioInitialized: bool
    var warningActive: bool
    var warningStartTime: int
    var warningLedState: bool
    var originalLedStates: Option<seq<int>>

    ghost predicate Valid()
      reads this
    {
      && ValidConfig(batteryInput, ledPinsArrStatus.Length, ledPinsArr)
      && (warningActive <==> originalLedStates.Some?)
      && (originalLedStates.Some? ==> |originalLedStates.value| == |ledPinsArr|)
      && (!warningActive ==> !warningLedState)
    }

    ghost function Model(): (d: Display)
      reads this, ledPinsArrStatus
      requires Valid()
      ensures Invariant(d)
    {
      Display(batteryInput, ledPinsArrStatus[..], ledPinsArr, gpioInitialized,
              if warningActive then Flashing(warningStartTime, originalLedStates.value, warningLedState) else Idle)
    }

    /** The object as `__init__` leaves it after validation, before the pins are set up. */
    constructor (batteryInput: real, ledPinsArrStatus: array<int>, ledPinsArr: seq<int>, gpio: Gpio)
      requires ValidConfig(batteryInput, ledPinsArrStatus.Length, ledPinsArr)
      ensures Valid() && this.gpio == gpio && this.ledPinsArrStatus == ledPinsArrStatus
      ensures Model() == Display(batteryInput, ledPinsArrStatus[..], ledPinsArr, false, Idle)
    {
      this.batteryInput := batteryInput;
      this.ledPinsArrStatus := ledPinsArrStatus;
      this.ledPinsArr := ledPinsArr;
      this.gpio := gpio;
      gpioInitialized := false;
      warningActive := false;
      warningStartTime := 0;
      warningLedState := false;
      originalLedStates := None;
    }

    /** `_initialize_gpio`: each pin set up and driven LOW, in order. */
    method InitializeGpio() returns (ok: bool)
      requires Valid()
      modifies this`gpioInitialized, gpio`log
      ensures Valid() && Model() == old(Model()).(initialized := ok || old(gpioInitialized))
      ensures ok == NoFault(ledPinsArr, gpio.faulty)
      ensures gpio.log == old(gpio.log) + SetupEvents(ledPinsArr[..FirstFault(ledPinsArr, gpio.faulty)])
    {
      var i := 0;
      while i < |ledPinsArr|
        invariant 0 <= i <= |ledPinsArr|
        invariant forall j :: 0 <= j < i ==> ledPinsArr[j] !in gpio.faulty
        invariant gpio.log == old(gpio.log) + SetupEvents(ledPinsArr[..i])
        invariant gpioInitialized == old(gpioInitialized)
      {
        ok := SetupPin(gpio, ledPinsArr, i, old(gpio.log));
        if !ok {
          FirstFaultAt(ledPinsArr, gpio.faulty, i);
          return;
        }
        i := i + 1;
      }
      assert ledPinsArr[..i] == ledPinsArr;
      gpioInitialized := true;
      ok := true;
    }

    /** `calculateLedStates`: rewrites the pattern in place. */
    method CalculateLedStates()
      requires Valid()
      modifies ledPinsArrStatus
      ensures Valid()
      ensures ledPinsArrStatus[..] == BarPattern(batteryInput, ledPinsArrStatus.Length)
    {
      var n := ledPinsArrStatus.Length;
      var ledsToEnable: int;
      if batteryInput == MIN_BATTERY {
        ledsToEnable := 0;
      } else {
        var mapped := MapValues(batteryInput, MIN_BATTERY, MAX_BATTERY, MIN_LEDS as real, n as real);
        ledsToEnable := IMax(1, mapped.value.Floor);
      }
      for i := 0 to n
        invariant forall j :: 0 <= j < i ==> ledPinsArrStatus[j] == if j < ledsToEnable then 1 else 0
      {
        ledPinsArrStatus[i] := if i < ledsToEnable then 1 else 0;
      }
    }

    /** `triggerLowBatteryWarning`. */
    method TriggerLowBatteryWarning(now: int)
      requires Valid()
      modifies this`warningActive, this`warningStartTime, this`warningLedState, this`originalLedStates
      ensures Valid() && Model() == TriggerStep(old(Model()), now)
    {
      if !gpioInitialized {
        return;
      }
      if |ledPinsArr| == 0 {
        return;
      }
      if warningActive {
        return;
      }
      originalLedStates := Some(ledPinsArrStatus[..]);
      warningActive := true;
      warningStartTime := now;
      warningLedState := false;
    }

    /** `setBatteryLevel`. */
    method SetBatteryLevel(newLevel: real, now: int) returns (level: real)
      requires Valid()
      modifies this, ledPinsArrStatus
      ensures Valid() && ledPinsArrStatus == old(ledPinsArrStatus)
      ensures (Model(), level) == SetBatteryStep(old(Model()), newLevel, now)
    {
      var oldLevel := batteryInput;
      batteryInput := RMax(MIN_BATTERY, RMin(MAX_BATTERY, newLevel));
      if batteryInput != oldLevel {
        CalculateLedStates();
        if batteryInput <= LOW_BATTERY_LEVEL && oldLevel > LOW_BATTERY_LEVEL {
          TriggerLowBatteryWarning(now);
        }
      }
      level := batteryInput;
    }

    /** `_end_warning_sequence`. */
    method EndWarningSequence()
      requires Valid()
      modifies this, gpio`log
      ensures Valid()
      ensures Model() == EndWarningStep(old(Model()), gpio.faulty).0
      ensures gpio.log == old(gpio.log) + EndWarningStep(old(Model()), gpio.faulty).1
    {
      warningActive := false;
      warningLedState := false;
      if originalLedStates.Some? {
        var saved := originalLedStates.value;
        ledPinsArrStatus := new int[|saved|](i requires 0 <= i < |saved| => saved[i]);
        assert ledPinsArrStatus[..] == saved;
        originalLedStates := None;
      }
      var written := gpio.OutputAll(ledPinsArr, RestoreLevels(ledPinsArrStatus[..]));
    }

    /** `_update_warning_animation`. */
    method UpdateWarningAnimation(now: int)
      requires Valid()
      modifies this, gpio`log
      ensures Valid()
      ensures Model() == AnimateStep(old(Model()), now, gpio.faulty).0
      ensures gpio.log == old(gpio.log) + AnimateStep(old(Model()), now, gpio.faulty).1
    {
      if !warningActive {
        return;
      }
      AnimateBranches(Model(), now, gpio.faulty);
      var elapsed := now - warningStartTime;
      var currentCycle := TruncDiv(elapsed, FLASH_CYCLE_MS);
      var ledsShouldBeOn := elapsed % FLASH_CYCLE_MS < FLASH_ON_MS;
      if ledsShouldBeOn != warningLedState {
        ToggleWarning(now, elapsed, currentCycle, ledsShouldBeOn);
      } else if currentCycle >= FLASH_CYCLES {
        EndWarningSequence();
      }
    }

    /** The toggle branch of `_update_warning_animation`: drive the new level, then end the overlay if a write raised or three cycles have passed. */
    method ToggleWarning(now: int, elapsed: int, currentCycle: int, on: bool)
      requires Valid() && warningActive
      requires elapsed == now - warningStartTime
      requires on == FlashLit(elapsed) && on != warningLedState
      requires currentCycle == FlashCycle(elapsed)
      modifies this, gpio`log
      ensures Valid()
      ensures Model() == AnimateStep(old(Model()), now, gpio.faulty).0
      ensures gpio.log == old(gpio.log) + AnimateStep(old(Model()), now, gpio.faulty).1
    {
      ghost var d := Model();
      assert d.warning.startTime == warningStartTime && d.warning.lit == warningLedState && d.pins == ledPinsArr;
      ghost var d1 := d.(warning := d.warning.(lit := on));
      ghost var flash := Drive(d.pins, FlashLevels(d, on), gpio.faulty);
      AnimateToggle(d, now, elapsed, gpio.faulty, on);
      var written := ToggleWarningLeds(on);
      if !written || currentCycle >= FLASH_CYCLES {
        EndWarningSequence();
      }
    }

    /** The toggle inside `_update_warning_animation`: record the new flash state, then drive every LED to it. */
    method ToggleWarningLeds(on: bool) returns (written: bool)
      requires Valid() && warningActive
      modifies this, gpio`log
      ensures Valid() && warningActive
      ensures Model() == old(Model()).(warning := old(Model()).warning.(lit := on))
      ensures written == NoFault(ledPinsArr, gpio.faulty)
      ensures gpio.log == old(gpio.log) + Drive(ledPinsArr, FlashLevels(old(Model()), on), gpio.faulty)
    {
      warningLedState := on;
      written := gpio.OutputAll(ledPinsArr, Uniform(|ledPinsArr|, LevelOf(on)));
    }

    /** `updateLedStates`. */
    method UpdateLedStates(now: int) returns (r: Outcome<DisplayError>)
      requires Valid()
      modifies this, gpio`log
      ensures Valid()
      ensures r == RenderStep(old(Model()), now, gpio.faulty).0
      ensures Model() == RenderStep(old(Model()), now, gpio.faulty).1
      ensures gpio.log == old(gpio.log) + RenderStep(old(Model()), now, gpio.faulty).2
    {
      if !gpioInitialized {
        return Fail(NotInitialized);
      }
      ghost var d := Model();
      UpdateWarningAnimation(now);
      ghost var w1 := AnimateStep(d, now, gpio.faulty).1;
      if warningActive {
        return Pass;
      }
      var written := gpio.OutputAll(ledPinsArr, NormalLevels(ledPinsArrStatus[..]));
      assert gpio.log == old(gpio.log) + w1 + Drive(ledPinsArr, NormalLevels(Model().pattern), gpio.faulty);
      r := if written then Pass else Fail(UpdateFailed);
    }

    /** `cleanup`. */
    method Cleanup()
      requires Valid()
      modifies this`gpioInitialized, gpio`log
      ensures Valid()
      ensures Model() == CleanupStep(old(Model()), gpio.faulty).0
      ensures gpio.log == old(gpio.log) + CleanupStep(old(Model()), gpio.faulty).1
    {
      if gpioInitialized {
        var written := gpio.OutputAll(ledPinsArr, Uniform(|ledPinsArr|, Low));
        if written {
          ghost var lows := Writes(ledPinsArr, Uniform(|ledPinsArr|, Low));
          assert gpio.log == old(gpio.log) + lows;
          gpio.Cleanup();
          assert gpio.log == old(gpio.log) + (lows + [Release]);
          gpioInitialized := false;
        }
      }
    }

    /** `get_status`, with the caller's clock reading as the timestamp. */
    function GetStatus(now: int): (s: Status)
      reads this, ledPinsArrStatus
      ensures s.ledStates == ledPinsArrStatus[..] && s.ledPins == ledPinsArr
      ensures s.ledsOn == Sum(s.ledStates) && s.batteryLevel == batteryInput
      ensures s.gpioInitialized == gpioInitialized && s.timestamp == now
      ensures (forall j :: 0 <= j < |s.ledStates| ==> s.ledStates[j] == 0 || s.ledStates[j] == 1) ==>
                s.ledsOn == multiset(s.ledStates)[1]
    {
      SumCountsLit(ledPinsArrStatus[..]);
      Status(batteryInput, ledPinsArrStatus[..], ledPinsArr, Sum(ledPinsArrStatus[..]), gpioInitialized, now)
    }
  }

  /**
   * Right after `calculateLedStates` the status reports as lit exactly the
   * number of LEDs the battery level asks for: none when empty, otherwise
   * `max(1, floor(battery * n / 100))`, between 1 and n.
   */
  lemma StatusCountsBar(disp: LEDDisplay, now: int)
    requires MIN_BATTERY <= disp.batteryInput <= MAX_BATTERY
    requires disp.ledPinsArrStatus[..] == BarPattern(disp.batteryInput, disp.ledPinsArrStatus.Length)
    ensures var on, b, n := disp.GetStatus(now).ledsOn, disp.batteryInput, disp.ledPinsArrStatus.Length;
      && on == IMin(LedsToEnable(b, n), n)
      && (b == MIN_BATTERY ==> on == 0)
      && (b != MIN_BATTERY && n >= 1 ==> 1 <= on <= n)
  {
    var n, b := disp.ledPinsArrStatus.Length, disp.batteryInput;
    var s := disp.GetStatus(now);
    assert s.ledsOn == Sum(BarPattern(b, n));
    BarPatternLit(b, n);
    BarPatternCount(b, n);
  }

  /** `LEDDisplay(...)`: validation, then pin setup; either may raise. */
  method NewLEDDisplay(batteryInput: real, ledPinsArrStatus: array<int>, ledPinsArr: seq<int>, gpio: Gpio)
    returns (r: Result<LEDDisplay, DisplayError>)
    modifies gpio`log
    ensures var (c, events) := CreateStep(batteryInput, old(ledPinsArrStatus[..]), ledPinsArr, gpio.faulty);
      && r.Success? == c.Success?
      && (r.Failure? ==> r.error == c.error)
      && (r.Success? ==> fresh(r.value) && r.value.Valid() && r.value.Model() == c.value
                         && r.value.gpio == gpio && r.value.ledPinsArrStatus == ledPinsArrStatus)
      && gpio.log == old(gpio.log) + events
  {
    var check := ValidateInputs(batteryInput, ledPinsArrStatus.Length, ledPinsArr);
    if check.Fail? {
      return Failure(Invalid(check.error));
    }
    var display := new LEDDisplay(batteryInput, ledPinsArrStatus, ledPinsArr, gpio);
    var ok := display.InitializeGpio();
    if !ok {
      return Failure(GpioInitFailed);
    }
    r := Success(display);
  }
}
