/**
 * The battery-bar arithmetic shared by both lineages of the LED display
 * controller: argument validation, the clamped linear map, the number of
 * LEDs to light and the bar pattern they form.
 */
module BatteryBar {
  import opened Wrappers
  import opened Gpio

  const MIN_BATTERY: real := 0.0
  const MAX_BATTERY: real := 100.0
  const MIN_LEDS: int := 0
  const MAX_LEDS: int := 10
  const VALID_BCM_PINS: seq<int> := [2, 3, 4, 5, 6, 12, 13, 16, 17, 18, 19, 20, 21, 26]
  /** A drop to this level or below, from above it, raises the low-battery warning. */
  const LOW_BATTERY_LEVEL: real := 15.0

  datatype ValidationError =
    | BatteryOutOfRange
    | LengthMismatch
    | TooManyLeds
    | InvalidPin(pin: int)
    | DuplicatePins

  function RMax(a: real, b: real): real { if a >= b then a else b }
  function RMin(a: real, b: real): real { if a <= b then a else b }
  function IMax(a: int, b: int): int { if a >= b then a else b }
  function IMin(a: int, b: int): int { if a <= b then a else b }

  /** The first pin, in list order, that is not in the whitelist. */
  function FirstInvalidPin(pins: seq<int>): (r: Option<int>)
    ensures r.None? <==> forall i :: 0 <= i < |pins| ==> pins[i] in VALID_BCM_PINS
    ensures r.Some? ==> exists i :: 0 <= i < |pins| && pins[i] == r.value && r.value !in VALID_BCM_PINS
                                    && forall j :: 0 <= j < i ==> pins[j] in VALID_BCM_PINS
  {
    if |pins| == 0 then None
    else if pins[0] !in VALID_BCM_PINS then Some(pins[0])
    else
      var r := FirstInvalidPin(pins[1..]);
      assert r.Some? ==> exists i :: 0 <= i < |pins| - 1 && pins[1..][i] == r.value && r.value !in VALID_BCM_PINS
                                    && forall j :: 0 <= j < i ==> pins[1..][j] in VALID_BCM_PINS;
      assert r.Some? ==> exists i :: 1 <= i < |pins| && pins[i] == r.value && r.value !in VALID_BCM_PINS
                                    && forall j :: 0 <= j < i ==> pins[j] in VALID_BCM_PINS;
      r
  }

  /** Python's `set(pins)`. */
  function Elements(s: seq<int>): set<int>
  {
    set x | x in s
  }

  /** `len(set(s)) == len(s)` is exactly "no value occurs twice". */
  lemma {:induction false} ElementsCardinality(s: seq<int>)
    ensures |Elements(s)| <= |s|
    ensures |Elements(s)| == |s| <==> Distinct(s)
  {
    if |s| == 0 {
      assert Elements(s) == {};
    } else {
      var t := s[1..];
      ElementsCardinality(t);
      ElementsCons(s);
      DistinctCons(s);
      if s[0] in Elements(t) {
        assert Elements(s) == Elements(t);
      } else {
        assert |Elements(s)| == |Elements(t)| + 1;
      }
    }
  }

  lemma ElementsCons(s: seq<int>)
    requires |s| > 0
    ensures Elements(s) == {s[0]} + Elements(s[1..])
    ensures s[0] in Elements(s[1..]) <==> s[0] in s[1..]
  {
    assert s == [s[0]] + s[1..];
  }

  /** A list is duplicate-free iff its head is not in its tail and its tail is duplicate-free. */
  lemma DistinctCons(s: seq<int>)
    requires |s| > 0
    ensures Distinct(s) <==> s[0] !in s[1..] && Distinct(s[1..])
  {
    var t := s[1..];
    if s[0] in t {
      var j :| 0 <= j < |t| && t[j] == s[0];
      assert s[0] == s[j + 1];
    }
    if Distinct(s) {
      forall i, j | 0 <= i < j < |t| ensures t[i] != t[j] {
        assert t[i] == s[i + 1] && t[j] == s[j + 1];
      }
    }
    if s[0] !in t && Distinct(t) {
      forall i, j | 0 <= i < j < |s| ensures s[i] != s[j] {
        if i == 0 {
          assert s[j] == t[j - 1];
        } else {
          assert s[i] == t[i - 1] && s[j] == t[j - 1];
        }
      }
    }
  }

  /** The conditions a display configuration must meet, stated independently of the checks' order. */
  predicate ValidConfig(battery: real, statusLength: int, pins: seq<int>)
  {
    && MIN_BATTERY <= battery <= MAX_BATTERY
    && statusLength == |pins|
    && |pins| <= MAX_LEDS
    && (forall i :: 0 <= i < |pins| ==> pins[i] in VALID_BCM_PINS)
    && Distinct(pins)
  }

  /** The constructor's argument checks, in the order the source makes them. */
  function ValidateInputs(battery: real, statusLength: nat, pins: seq<int>): (r: Outcome<ValidationError>)
    ensures r.Pass? <==> ValidConfig(battery, statusLength, pins)
    ensures r == Fail(BatteryOutOfRange) <==> !(MIN_BATTERY <= battery <= MAX_BATTERY)
    ensures r == Fail(LengthMismatch) <==> MIN_BATTERY <= battery <= MAX_BATTERY && statusLength != |pins|
    ensures r == Fail(TooManyLeds) <==>
              MIN_BATTERY <= battery <= MAX_BATTERY && statusLength == |pins| && |pins| > MAX_LEDS
    ensures r.Fail? && r.error.InvalidPin? ==>
              && MIN_BATTERY <= battery <= MAX_BATTERY && statusLength == |pins| && |pins| <= MAX_LEDS
              && r.error.pin in pins && r.error.pin !in VALID_BCM_PINS
              && FirstInvalidPin(pins) == Some(r.error.pin)
    ensures r == Fail(DuplicatePins) <==>
              && MIN_BATTERY <= battery <= MAX_BATTERY && statusLength == |pins| && |pins| <= MAX_LEDS
              && (forall i :: 0 <= i < |pins| ==> pins[i] in VALID_BCM_PINS)
              && !Distinct(pins)
  {
    ElementsCardinality(pins);
    if !(MIN_BATTERY <= battery <= MAX_BATTERY) then Fail(BatteryOutOfRange)
    else if statusLength != |pins| then Fail(LengthMismatch)
    else if |pins| > MAX_LEDS then Fail(TooManyLeds)
    else if FirstInvalidPin(pins).Some? then Fail(InvalidPin(FirstInvalidPin(pins).value))
    else if |Elements(pins)| != |pins| then Fail(DuplicatePins)
    else Pass
  }

  /** `max(lo, min(hi, x))`. */
  function Clamp(x: real, lo: real, hi: real): (r: real)
    ensures lo <= hi ==> lo <= r <= hi
    ensures lo <= x <= hi ==> r == x
    ensures x <= lo ==> r == lo
    ensures lo <= hi && hi <= x ==> r == hi
  {
    RMax(lo, RMin(hi, x))
  }

  datatype MapError = MaxInputZero | InvertedInputRange

  lemma ScaleWithin(t: real, d: real)
    requires 0.0 <= t <= 1.0
    ensures 0.0 <= d ==> 0.0 <= t * d <= d
  {
    if 0.0 <= d {
      assert (1.0 - t) * d >= 0.0;
    }
  }

  lemma RatioWithin(a: real, w: real)
    requires 0.0 <= a <= w && 0.0 < w
    ensures 0.0 <= a / w <= 1.0
  {
  }

  /** The linear map taking `minIn..maxIn` onto `minOut..maxOut`. */
  function Scale(c: real, minIn: real, maxIn: real, minOut: real, maxOut: real): real
    requires minIn < maxIn
  {
    ((c - minIn) / (maxIn - minIn)) * (maxOut - minOut) + minOut
  }

  /** The clamped linear map of `mapValues` on a valid input range. */
  function Mapped(x: real, minIn: real, maxIn: real, minOut: real, maxOut: real): real
    requires minIn < maxIn
  {
    Clamp(Scale(Clamp(x, minIn, maxIn), minIn, maxIn, minOut, maxOut), minOut, maxOut)
  }

  /** The map stays in the output range, is the linear formula inside the input range and pins the ends outside it. */
  lemma MappedValue(x: real, minIn: real, maxIn: real, minOut: real, maxOut: real)
    requires minIn < maxIn
    ensures minOut <= maxOut ==> minOut <= Mapped(x, minIn, maxIn, minOut, maxOut) <= maxOut
    ensures minOut <= maxOut && minIn <= x <= maxIn ==>
              Mapped(x, minIn, maxIn, minOut, maxOut) == minOut + (x - minIn) * (maxOut - minOut) / (maxIn - minIn)
    ensures x <= minIn ==> Mapped(x, minIn, maxIn, minOut, maxOut) == RMax(minOut, RMin(maxOut, minOut))
    ensures maxIn <= x ==> Mapped(x, minIn, maxIn, minOut, maxOut) == RMax(minOut, RMin(maxOut, maxOut))
  {
    if minOut <= maxOut && minIn <= x <= maxIn {
      MappedLinear(x, minIn, maxIn, minOut, maxOut);
    }
    if x <= minIn {
      MappedBelow(x, minIn, maxIn, minOut, maxOut);
    }
    if maxIn <= x {
      MappedAbove(x, minIn, maxIn, minOut, maxOut);
    }
  }

  lemma MappedLinear(x: real, minIn: real, maxIn: real, minOut: real, maxOut: real)
    requires minIn <= x <= maxIn && minIn < maxIn && minOut <= maxOut
    ensures Mapped(x, minIn, maxIn, minOut, maxOut) == minOut + (x - minIn) * (maxOut - minOut) / (maxIn - minIn)
  {
    var t := (x - minIn) / (maxIn - minIn);
    RatioWithin(x - minIn, maxIn - minIn);
    ScaleWithin(t, maxOut - minOut);
    ScaledRatio(x - minIn, maxIn - minIn, maxOut - minOut);
  }

  lemma MappedBelow(x: real, minIn: real, maxIn: real, minOut: real, maxOut: real)
    requires x <= minIn < maxIn
    ensures Mapped(x, minIn, maxIn, minOut, maxOut) == RMax(minOut, RMin(maxOut, minOut))
  {
    assert Clamp(x, minIn, maxIn) == minIn;
    assert (minIn - minIn) / (maxIn - minIn) == 0.0;
  }

  lemma MappedAbove(x: real, minIn: real, maxIn: real, minOut: real, maxOut: real)
    requires minIn < maxIn <= x
    ensures Mapped(x, minIn, maxIn, minOut, maxOut) == RMax(minOut, RMin(maxOut, maxOut))
  {
    assert Clamp(x, minIn, maxIn) == maxIn;
    assert (maxIn - minIn) / (maxIn - minIn) == 1.0;
  }

  lemma ScaledRatio(a: real, w: real, d: real)
    requires 0.0 < w
    ensures (a / w) * d == a * d / w
  {
  }

  /**
   * `mapValues`: refuses a zero or non-increasing input range, otherwise
   * clamps `x` into the input range, maps it linearly and clamps the result.
   */
  function MapValues(x: real, minIn: real, maxIn: real, minOut: real, maxOut: real): (r: Result<real, MapError>)
    ensures r.Failure? <==> maxIn == 0.0 || maxIn <= minIn
    ensures r == Failure(MaxInputZero) <==> maxIn == 0.0
    ensures r.Success? && minOut <= maxOut ==> minOut <= r.value <= maxOut
    ensures r.Success? && minOut <= maxOut && minIn <= x <= maxIn ==>
              r.value == minOut + (x - minIn) * (maxOut - minOut) / (maxIn - minIn)
    ensures r.Success? && x <= minIn ==> r.value == RMax(minOut, RMin(maxOut, minOut))
    ensures r.Success? && minOut <= maxOut && maxIn <= x ==> r.value == maxOut
  {
    if maxIn == 0.0 then Failure(MaxInputZero)
    else if maxIn <= minIn then Failure(InvertedInputRange)
    else
      MappedValue(x, minIn, maxIn, minOut, maxOut);
      Success(Mapped(x, minIn, maxIn, minOut, maxOut))
  }

  /** Wider inputs never map lower. */
  lemma MapValuesMonotone(x1: real, x2: real, minIn: real, maxIn: real, minOut: real, maxOut: real)
    requires x1 <= x2 && maxIn != 0.0 && minIn < maxIn && minOut <= maxOut
    ensures MapValues(x1, minIn, maxIn, minOut, maxOut).value <= MapValues(x2, minIn, maxIn, minOut, maxOut).value
  {
    MappedMonotone(x1, x2, minIn, maxIn, minOut, maxOut);
  }

  lemma MappedMonotone(x1: real, x2: real, minIn: real, maxIn: real, minOut: real, maxOut: real)
    requires x1 <= x2 && minIn < maxIn && minOut <= maxOut
    ensures Mapped(x1, minIn, maxIn, minOut, maxOut) <= Mapped(x2, minIn, maxIn, minOut, maxOut)
  {
    var c1 := Clamp(x1, minIn, maxIn);
    var c2 := Clamp(x2, minIn, maxIn);
    ClampMonotone(x1, x2, minIn, maxIn);
    ScaleIncreasing(c1, c2, minIn, maxIn, minOut, maxOut);
    ClampMonotone(Scale(c1, minIn, maxIn, minOut, maxOut), Scale(c2, minIn, maxIn, minOut, maxOut), minOut, maxOut);
  }

  lemma ClampMonotone(a: real, b: real, lo: real, hi: real)
    requires a <= b
    ensures Clamp(a, lo, hi) <= Clamp(b, lo, hi)
  {
  }

  lemma ScaleIncreasing(c1: real, c2: real, minIn: real, maxIn: real, minOut: real, maxOut: real)
    requires c1 <= c2 && minIn < maxIn && minOut <= maxOut
    ensures Scale(c1, minIn, maxIn, minOut, maxOut) <= Scale(c2, minIn, maxIn, minOut, maxOut)
  {
    DivMonotone(c1 - minIn, c2 - minIn, maxIn - minIn);
    ScaleMonotone((c1 - minIn) / (maxIn - minIn), (c2 - minIn) / (maxIn - minIn), maxOut - minOut);
  }

  lemma DivMonotone(a: real, b: real, w: real)
    requires a <= b && 0.0 < w
    ensures a / w <= b / w
  {
    assert b / w - a / w == (b - a) / w;
  }

  lemma ScaleMonotone(t1: real, t2: real, d: real)
    requires t1 <= t2 && 0.0 <= d
    ensures t1 * d <= t2 * d
  {
    assert t2 * d - t1 * d == (t2 - t1) * d;
  }

  /**
   * `ledsToEnable` in `calculateLedStates`: none at an empty battery,
   * otherwise at least one and `int(mapValues(battery, 0, 100, 0, n))`.
   */
  function LedsToEnable(battery: real, n: nat): (k: int)
    ensures battery == MIN_BATTERY ==> k == 0
    ensures battery != MIN_BATTERY ==> 1 <= k
    ensures battery != MIN_BATTERY && n >= 1 ==> k <= n
    ensures MIN_BATTERY < battery <= MAX_BATTERY ==> k == IMax(1, (battery * n as real / 100.0).Floor)
  {
    if battery == MIN_BATTERY then 0
    else
      var mapped := MapValues(battery, MIN_BATTERY, MAX_BATTERY, MIN_LEDS as real, n as real).value;
      assert mapped.Floor <= n;
      IMax(1, mapped.Floor)
  }

  lemma FloorMonotone(a: real, b: real)
    requires a <= b
    ensures a.Floor <= b.Floor
  {
  }

  /** A fuller battery never lights fewer LEDs. */
  lemma {:induction false} LedsToEnableMonotone(b1: real, b2: real, n: nat)
    requires MIN_BATTERY <= b1 <= b2 <= MAX_BATTERY
    ensures LedsToEnable(b1, n) <= LedsToEnable(b2, n)
  {
    if b1 != MIN_BATTERY {
      MapValuesMonotone(b1, b2, MIN_BATTERY, MAX_BATTERY, MIN_LEDS as real, n as real);
      FloorMonotone(MapValues(b1, MIN_BATTERY, MAX_BATTERY, MIN_LEDS as real, n as real).value,
                    MapValues(b2, MIN_BATTERY, MAX_BATTERY, MIN_LEDS as real, n as real).value);
    }
  }

  /** The first `k` of `n` slots set to 1, the rest 0. */
  function Fill(k: int, n: nat): (p: seq<int>)
    ensures |p| == n
  {
    seq(n, i => if i < k then 1 else 0)
  }

  /** The pattern `calculateLedStates` writes into a status list of length `n`. */
  function BarPattern(battery: real, n: nat): (p: seq<int>)
    ensures |p| == n
  {
    Fill(LedsToEnable(battery, n), n)
  }

  /** Python's `sum(s)`. */
  function Sum(s: seq<int>): int
  {
    if |s| == 0 then 0 else Sum(s[..|s| - 1]) + s[|s| - 1]
  }

  lemma {:induction false} SumFill(k: int, n: nat)
    ensures Sum(Fill(k, n)) == IMax(0, IMin(k, n))
  {
    if n > 0 {
      SumFill(k, n - 1);
      assert Fill(k, n)[..n - 1] == Fill(k, n - 1);
    }
  }

  /** On a list of 0/1 entries, `sum` counts the entries that are 1. */
  lemma {:induction false} SumCountsLit(s: seq<int>)
    ensures (forall i :: 0 <= i < |s| ==> s[i] == 0 || s[i] == 1) ==> Sum(s) == multiset(s)[1]
  {
    if |s| > 0 && forall i :: 0 <= i < |s| ==> s[i] == 0 || s[i] == 1 {
      var init := s[..|s| - 1];
      SumCountsLit(init);
      assert s == init + [s[|s| - 1]];
    }
  }

  /** The bar pattern lights as many slots as the battery level asks for, capped at the status length. */
  lemma BarPatternLit(battery: real, n: nat)
    ensures Sum(BarPattern(battery, n)) == IMin(LedsToEnable(battery, n), n)
  {
    SumFill(LedsToEnable(battery, n), n);
  }

  /** Number of LEDs a battery level lights: none when empty, otherwise between 1 and n. */
  lemma BarPatternCount(battery: real, n: nat)
    requires MIN_BATTERY <= battery <= MAX_BATTERY
    ensures battery == MIN_BATTERY ==> Sum(BarPattern(battery, n)) == 0
    ensures battery != MIN_BATTERY && n >= 1 ==>
              Sum(BarPattern(battery, n)) == IMax(1, (battery * n as real / 100.0).Floor)
    ensures battery != MIN_BATTERY && n >= 1 ==> 1 <= Sum(BarPattern(battery, n)) <= n
  {
    SumFill(LedsToEnable(battery, n), n);
  }

  /** Lit slots form a prefix: a slot is 1 exactly when every slot before it is. */
  lemma BarPatternPrefix(battery: real, n: nat, i: nat, j: nat)
    requires i <= j < n
    ensures BarPattern(battery, n)[j] == 1 ==> BarPattern(battery, n)[i] == 1
    ensures BarPattern(battery, n)[i] in {0, 1}
  {
  }

  /** A fuller battery lights a superset of the slots. */
  lemma BarPatternMonotone(b1: real, b2: real, n: nat, i: nat)
    requires MIN_BATTERY <= b1 <= b2 <= MAX_BATTERY && i < n
    ensures BarPattern(b1, n)[i] <= BarPattern(b2, n)[i]
  {
    LedsToEnableMonotone(b1, b2, n);
  }

  /** `updateLedStates`' polarity: pattern value 0 drives the pin HIGH, anything else LOW. */
  function NormalLevels(pattern: seq<int>): (ls: seq<Level>)
    ensures |ls| == |pattern|
    ensures forall i :: 0 <= i < |pattern| ==> (ls[i] == High <==> pattern[i] == 0)
  {
    seq(|pattern|, i requires 0 <= i < |pattern| => if pattern[i] == 0 then High else Low)
  }

  /** The condition under which `setBatteryLevel` raises the low-battery warning. */
  predicate LowBatteryCrossing(oldLevel: real, newLevel: real)
  {
    newLevel <= LOW_BATTERY_LEVEL && oldLevel > LOW_BATTERY_LEVEL
  }

  /** One tick of the discharge simulator: `max(0, current - decrease)`. */
  function DischargeTick(current: int, decrease: int): int
  {
    IMax(0, current - decrease)
  }

  /**
   * The levels the simulator hands to `setBatteryLevel`, one per tick; the
   * loop runs only while the level is above 0, so a run that stops early
   * ends on 0.
   */
  function Discharge(current: int, drops: seq<int>): (levels: seq<int>)
    ensures |levels| <= |drops|
    ensures current > 0 && |levels| < |drops| ==> 0 < |levels| && levels[|levels| - 1] == 0
    ensures current <= 0 ==> levels == []
    decreases |drops|
  {
    if |drops| == 0 || current <= 0 then []
    else
      var next := DischargeTick(current, drops[0]);
      [next] + Discharge(next, drops[1..])
  }

  /** How many calls in a row of `setBatteryLevel` calls raise the warning, starting from `current`. */
  function Crossings(current: int, levels: seq<int>): nat
    decreases |levels|
  {
    if |levels| == 0 then 0
    else (if LowBatteryCrossing(current as real, levels[0] as real) then 1 else 0) + Crossings(levels[0], levels[1..])
  }

  /** With drops of 1 to 5 every tick lowers the level, and no level is negative. */
  lemma {:induction false} DischargeFalls(current: int, drops: seq<int>)
    requires forall i :: 0 <= i < |drops| ==> 1 <= drops[i] <= 5
    ensures forall i :: 0 <= i < |Discharge(current, drops)| ==>
              0 <= Discharge(current, drops)[i] < (if i == 0 then current else Discharge(current, drops)[i - 1])
    ensures forall i, j :: 0 <= i <= j < |Discharge(current, drops)| ==>
              Discharge(current, drops)[j] <= Discharge(current, drops)[i]
    decreases |drops|
  {
    var levels := Discharge(current, drops);
    if |drops| > 0 && current > 0 {
      var next := DischargeTick(current, drops[0]);
      var rest := Discharge(next, drops[1..]);
      DischargeFalls(next, drops[1..]);
      assert levels == [next] + rest;
      forall i | 0 <= i < |levels|
        ensures 0 <= levels[i] < (if i == 0 then current else levels[i - 1])
      {
        if i > 0 {
          assert levels[i] == rest[i - 1];
          if i > 1 {
            assert levels[i - 1] == rest[i - 2];
          }
        }
      }
      forall i, j | 0 <= i <= j < |levels|
        ensures levels[j] <= levels[i]
      {
        if i == 0 && j > 0 {
          assert levels[j] == rest[j - 1] <= rest[0] == levels[1] <= levels[0];
        } else if i > 0 {
          assert levels[j] == rest[j - 1] && levels[i] == rest[i - 1];
        }
      }
    }
  }

  function FinalLevel(current: int, levels: seq<int>): int
  {
    if |levels| == 0 then current else levels[|levels| - 1]
  }

  /**
   * Over a whole discharge run the warning is raised exactly once when the
   * level passes from above 15 to 15 or below, and never otherwise.
   */
  lemma {:induction false} DischargeWarnsOnce(current: int, drops: seq<int>)
    requires forall i :: 0 <= i < |drops| ==> 1 <= drops[i] <= 5
    ensures FinalLevel(current, Discharge(current, drops)) <= IMax(0, current)
    ensures Crossings(current, Discharge(current, drops)) ==
              if current as real > LOW_BATTERY_LEVEL && FinalLevel(current, Discharge(current, drops)) as real <= LOW_BATTERY_LEVEL
              then 1 else 0
    decreases |drops|
  {
    if |drops| > 0 && current > 0 {
      var next := DischargeTick(current, drops[0]);
      var rest := Discharge(next, drops[1..]);
      DischargeWarnsOnce(next, drops[1..]);
      assert Discharge(current, drops) == [next] + rest;
      assert ([next] + rest)[1..] == rest;
      assert FinalLevel(current, [next] + rest) == FinalLevel(next, rest);
    }
  }

  datatype DisplayError =
    | Invalid(reason: ValidationError)  // the constructor's argument checks
    | GpioInitFailed                    // a pin could not be set up
    | NotInitialized                    // updateLedStates after cleanup
    | UpdateFailed                      // a pin write raised in updateLedStates

  /** `_initialize_gpio`: each pin set up as an output and driven LOW, in order. */
  function SetupEvents(pins: seq<int>): (w: seq<Event>)
    ensures |w| == 2 * |pins|
  {
    if |pins| == 0 then []
    else SetupEvents(pins[..|pins| - 1]) + [Setup(pins[|pins| - 1]), Output(pins[|pins| - 1], Low)]
  }

  /** One round of `_initialize_gpio`'s loop: set `pins[i]` up as an output and drive it LOW. */
  method SetupPin(gpio: Gpio, pins: seq<int>, i: nat, ghost base: seq<Event>) returns (ok: bool)
    requires i < |pins| && gpio.log == base + SetupEvents(pins[..i])
    modifies gpio`log
    ensures ok == (pins[i] !in gpio.faulty)
    ensures ok ==> gpio.log == base + SetupEvents(pins[..i + 1])
    ensures !ok ==> gpio.log == old(gpio.log)
  {
    ok := gpio.Setup(pins[i]);
    if ok {
      var written := gpio.Output(pins[i], Low);
      assert pins[..i + 1][..i] == pins[..i];
    }
  }


  /** After setup every pin has been driven LOW. */
  lemma {:induction false} SetupLeavesLow(log: seq<Event>, pins: seq<int>, i: nat)
    requires Distinct(pins) && i < |pins|
    ensures LastLevel(log + SetupEvents(pins), pins[i]) == Some(Low)
    decreases |pins|
  {
    var n := |pins|;
    var init := pins[..n - 1];
    var last := [Setup(pins[n - 1]), Output(pins[n - 1], Low)];
    assert log + SetupEvents(pins) == (log + SetupEvents(init)) + last;
    if i < n - 1 {
      assert init[i] == pins[i];
      SetupLeavesLow(log, init, i);
      LastLevelSkips(log + SetupEvents(init), last, pins[i]);
    }
  }
}
