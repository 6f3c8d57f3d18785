/**
 * 6/ledMatrix.py: the same 74HC595 matrix driven by module-level code.
 * `displayPattern` repeats whole frames until the clock says the duration
 * is up, and `loop` cycles through a fixed schedule of letters and images.
 */
module LedMatrix {
  import opened Wrappers
  import opened Gpio
  import opened ShiftRegister
  import LedPanel

  /** Board pins 11 (data), 13 (latch) and 15 (clock). */
  const PINS: Pins := Pins(11, 13, 15)

  const BINARYPIC: seq<int> := [255, 224, 224, 224, 255, 255, 255, 255]
  const SOBELPIC: seq<int> := [31, 255, 31, 255, 255, 255, 255, 31]
  const CANNYPIC: seq<int> := [105, 81, 139, 80, 100, 73, 136, 41]

  const LETTER_B: seq<int> := [0x00, 0x00, 0x7F, 0x49, 0x49, 0x36, 0x00, 0x00]
  const LETTER_S: seq<int> := [0x00, 0x00, 0x46, 0x49, 0x49, 0x31, 0x00, 0x00]
  const LETTER_C: seq<int> := [0x00, 0x00, 0x3E, 0x41, 0x41, 0x22, 0x00, 0x00]
  const BLANK: seq<int> := [0x00, 0x00, 0x00, 0x00, 0x00, 0x00, 0x00, 0x00]

  /** The patterns by name. */
  const DATA: map<string, seq<int>> := map[
    "B" := LETTER_B,
    "binarypic" := BINARYPIC,
    "S" := LETTER_S,
    "sobelpic" := SOBELPIC,
    "C" := LETTER_C,
    "cannypic" := CANNYPIC,
    "blank" := BLANK
  ]

  /** One `displayPattern` call of `loop`: the name shown and for how many milliseconds. */
  datatype Slot = Slot(name: string, durationMs: nat)

  /** One round of `loop`. */
  const ROUND: seq<Slot> := [
    Slot("B", 2000), Slot("binarypic", 10000), Slot("blank", 500),
    Slot("S", 2000), Slot("sobelpic", 10000), Slot("blank", 500),
    Slot("C", 2000), Slot("cannypic", 10000), Slot("blank", 500)
  ]

  /** Every pattern of the table is 8 bytes in 0..255. */
  lemma DataAreGlyphs(name: string)
    requires name in DATA
    ensures LedPanel.IsGlyph(DATA[name])
  {
  }

  /** The letters B and C are the glyphs of 6/ledClass.py's character table. */
  lemma LettersMatchPanelGlyphs()
    ensures DATA["B"] == LedPanel.CharData('B').value
    ensures DATA["C"] == LedPanel.CharData('C').value
  {
  }

  /**
   * Every name of the round has a pattern; each group of three shows a
   * letter for 2 s, an image for 10 s and the blank for 0.5 s, in the
   * order B, S, C.
   */
  lemma RoundShape(g: nat)
    requires g < 3
    ensures forall i :: 0 <= i < |ROUND| ==> ROUND[i].name in DATA
    ensures ROUND[3 * g].durationMs == 2000 && ROUND[3 * g + 1].durationMs == 10000 && ROUND[3 * g + 2].durationMs == 500
    ensures ROUND[3 * g].name == ["B", "S", "C"][g]
    ensures ROUND[3 * g + 1].name == ["binarypic", "sobelpic", "cannypic"][g]
    ensures ROUND[3 * g + 2].name == "blank"
  {
  }

  lemma RoundNamesInData(k: nat)
    requires k < |ROUND|
    ensures ROUND[k].name in DATA
  {
  }

  /** `setup`: the three pins become outputs. */
  method SetupPins(gpio: Gpio)
    requires Healthy(PINS, gpio.faulty)
    modifies gpio`log
    ensures gpio.log == old(gpio.log) + [Setup(PINS.data), Setup(PINS.latch), Setup(PINS.clock)]
  {
    var ok := gpio.Setup(PINS.data);
    ok := gpio.Setup(PINS.latch);
    ok := gpio.Setup(PINS.clock);
  }

  /** The clock reaches `durationMs` past its first reading at some later reading. */
  predicate Expires(clock: seq<int>, durationMs: int)
  {
    exists k :: 1 <= k < |clock| && clock[k] - clock[0] >= durationMs
  }

  /** The first reading, after the start, at which the duration is up: the loop test that fails. */
  function FirstExpiry(clock: seq<int>, durationMs: int, from: nat): (k: nat)
    requires 1 <= from < |clock|
    requires exists k :: from <= k < |clock| && clock[k] - clock[0] >= durationMs
    ensures from <= k < |clock| && clock[k] - clock[0] >= durationMs
    ensures forall j :: from <= j < k ==> clock[j] - clock[0] < durationMs
    decreases |clock| - from
  {
    if clock[from] - clock[0] >= durationMs then from
    else
      assert exists k :: from + 1 <= k < |clock| && clock[k] - clock[0] >= durationMs;
      FirstExpiry(clock, durationMs, from + 1)
  }

  /** The number of whole passes `displayPattern` makes before its loop test fails. */
  function Passes(clock: seq<int>, durationMs: int): nat
    requires Expires(clock, durationMs)
  {
    FirstExpiry(clock, durationMs, 1) - 1
  }

  /**
   * `displayPattern(pattern, duration)`: `clock` holds the successive
   * readings of the wall clock, the first taken as the start time and one
   * more per loop test. Each pass shows the frame with 1 ms per column.
   * Returns false where a pattern shorter than 8 bytes raises.
   */
  method DisplayPattern(gpio: Gpio, pattern: seq<int>, durationMs: int, clock: seq<int>) returns (ok: bool)
    requires Healthy(PINS, gpio.faulty) && Expires(clock, durationMs)
    modifies gpio`log
    ensures ok == (Passes(clock, durationMs) == 0 || |pattern| >= 8)
    ensures gpio.log == old(gpio.log) + LedPanel.PatternEvents(PINS, pattern, 1, Passes(clock, durationMs))
  {
    var startTime := clock[0];
    var reading := 1;
    ghost var last := FirstExpiry(clock, durationMs, 1);
    while clock[reading] - startTime < durationMs
      invariant 1 <= reading <= last
      invariant reading > 1 ==> |pattern| >= 8
      invariant gpio.log == old(gpio.log) + Repeat(FrameEvents(PINS, pattern, 0, 1), reading - 1)
      decreases last - reading
    {
      var shown := ShowPass(gpio, pattern, old(gpio.log), reading - 1);
      if !shown {
        return false;
      }
      reading := reading + 1;
    }
    assert reading == last;
    RepeatedPattern(PINS, pattern, 1, last - 1);
    return true;
  }

  /** One pass of `displayPattern`'s loop, after n whole frames. */
  method ShowPass(gpio: Gpio, pattern: seq<int>, ghost base: seq<Event>, ghost n: nat) returns (shown: bool)
    requires Healthy(PINS, gpio.faulty)
    requires gpio.log == base + Repeat(FrameEvents(PINS, pattern, 0, 1), n)
    modifies gpio`log
    ensures shown == (|pattern| >= 8)
    ensures gpio.log == base + Repeat(FrameEvents(PINS, pattern, 0, 1), n) + FrameEvents(PINS, pattern, 0, 1)
    ensures gpio.log == base + Repeat(FrameEvents(PINS, pattern, 0, 1), n + 1)
  {
    shown := ShowFrame(gpio, PINS, pattern, 0, 1);
    RepeatOnceMore(base, FrameEvents(PINS, pattern, 0, 1), n);
  }

  lemma RepeatOnceMore(base: seq<Event>, frame: seq<Event>, n: nat)
    ensures base + Repeat(frame, n) + frame == base + Repeat(frame, n + 1)
  {
    assert Repeat(frame, n + 1) == Repeat(frame, n) + frame;
  }

  /** Whole frames only: with no pass or a full pattern, the passes are plain repeats of the frame. */
  lemma RepeatedPattern(p: Pins, pattern: seq<int>, ms: nat, n: nat)
    requires n == 0 || |pattern| >= 8
    ensures LedPanel.PatternEvents(p, pattern, ms, n) == [] + Repeat(FrameEvents(p, pattern, 0, ms), n)
  {
  }

  /** What the call showing slot k of the round writes, given its clock readings. */
  function SlotEvents(k: nat, clock: seq<int>): seq<Event>
    requires k < |ROUND| && Expires(clock, ROUND[k].durationMs)
  {
    LedPanel.PatternEvents(PINS, if ROUND[k].name in DATA then DATA[ROUND[k].name] else [], 1, Passes(clock, ROUND[k].durationMs))
  }

  /** Call i of `loop` shows slot i mod 9, and its clock readings reach that slot's duration. */
  predicate ClocksExpire(clocks: seq<seq<int>>)
  {
    forall i :: 0 <= i < |clocks| ==> Expires(clocks[i], ROUND[i % 9].durationMs)
  }

  /** One `displayPattern(data[name], duration)` call of `loop`. */
  method ShowSlot(gpio: Gpio, k: nat, clock: seq<int>)
    requires Healthy(PINS, gpio.faulty) && k < |ROUND| && Expires(clock, ROUND[k].durationMs)
    modifies gpio`log
    ensures gpio.log == old(gpio.log) + SlotEvents(k, clock)
  {
    RoundNamesInData(k);
    var ok := DisplayPattern(gpio, DATA[ROUND[k].name], ROUND[k].durationMs, clock);
  }

  /** What the first n calls of `loop` write, call i showing slot i mod 9 with its own clock readings. */
  function LoopEvents(clocks: seq<seq<int>>, n: nat): seq<Event>
    requires n <= |clocks| && ClocksExpire(clocks)
  {
    if n == 0 then [] else LoopEvents(clocks, n - 1) + SlotEvents((n - 1) % 9, clocks[n - 1])
  }

  lemma LoopStep(clocks: seq<seq<int>>, i: nat)
    requires i < |clocks| && ClocksExpire(clocks)
    ensures Expires(clocks[i], ROUND[i % 9].durationMs)
    ensures LoopEvents(clocks, i + 1) == LoopEvents(clocks, i) + SlotEvents(i % 9, clocks[i])
  {
  }

  lemma Regroup(a: seq<Event>, b: seq<Event>, c: seq<Event>)
    ensures a + (b + c) == (a + b) + c
  {
  }

  /** Call i of `loop`, appended to the log of the calls before it. */
  method ShowCall(gpio: Gpio, clocks: seq<seq<int>>, i: nat, ghost base: seq<Event>)
    requires Healthy(PINS, gpio.faulty) && ClocksExpire(clocks) && i < |clocks|
    requires gpio.log == base + LoopEvents(clocks, i)
    modifies gpio`log
    ensures gpio.log == base + LoopEvents(clocks, i + 1)
  {
    LoopStep(clocks, i);
    ShowSlot(gpio, i % 9, clocks[i]);
    Regroup(base, LoopEvents(clocks, i), SlotEvents(i % 9, clocks[i]));
  }

  /**
   * `loop`, cut off after `|clocks|` calls of `displayPattern`: call i shows
   * the pattern of slot i mod 9 for its duration.
   */
  method Loop(gpio: Gpio, clocks: seq<seq<int>>)
    requires Healthy(PINS, gpio.faulty) && ClocksExpire(clocks)
    modifies gpio`log
    ensures gpio.log == old(gpio.log) + LoopEvents(clocks, |clocks|)
  {
    var i := 0;
    while i < |clocks|
      invariant 0 <= i <= |clocks|
      invariant gpio.log == old(gpio.log) + LoopEvents(clocks, i)
    {
      ShowCall(gpio, clocks, i, old(gpio.log));
      i := i + 1;
    }
  }

  /** `destroy`. */
  method Destroy(gpio: Gpio)
    modifies gpio`log
    ensures gpio.log == old(gpio.log) + [Release]
  {
    gpio.Cleanup();
  }
}
