/**
 * Driving an 8x8 LED matrix through two chained 74HC595 shift registers,
 * as 6/ledClass.py and 6/ledMatrix.py both do: a byte is clocked out one
 * bit per shift-clock pulse, and a column step latches a row byte
 * followed by a column mask that selects one column.
 */
module ShiftRegister {
  import opened Wrappers
  import opened Gpio
  import opened Bits

  const LSBFIRST: int := 1
  const MSBFIRST: int := 2

  /** The pins wired to the register: serial data (DS), latch (ST_CP) and shift clock (SH_CP). */
  datatype Pins = Pins(data: int, latch: int, clock: int)

  predicate Wired(p: Pins)
  {
    p.data != p.latch && p.data != p.clock && p.latch != p.clock
  }

  predicate Healthy(p: Pins, faulty: set<int>)
  {
    p.data !in faulty && p.latch !in faulty && p.clock !in faulty
  }

  /**
   * The level step i writes to the data pin: bit i of the value for
   * LSBFIRST, bit 7 of `value << i` for MSBFIRST (that is, bit 7-i of the
   * value, see `BitOfShiftLeft`), nothing for any other order.
   */
  function DataLevel(order: int, value: int, i: nat): Option<Level>
  {
    if order == LSBFIRST then Some(LevelOf(Bit(value, i)))
    else if order == MSBFIRST then Some(LevelOf(i < 8 && Bit(value, 7 - i)))
    else None
  }

  /** One clock pulse: clock LOW, the data bit if the order writes one, clock HIGH. */
  function ShiftStep(dataPin: int, clockPin: int, order: int, value: int, i: nat): seq<Event>
  {
    [Output(clockPin, Low)]
    + (match DataLevel(order, value, i) case Some(l) => [Output(dataPin, l)] case None => [])
    + [Output(clockPin, High)]
  }

  /** The first n clock pulses of a shift-out. */
  function ShiftSteps(dataPin: int, clockPin: int, order: int, value: int, n: nat): seq<Event>
  {
    if n == 0 then [] else ShiftSteps(dataPin, clockPin, order, value, n - 1) + ShiftStep(dataPin, clockPin, order, value, n - 1)
  }

  function ShiftOutEvents(dataPin: int, clockPin: int, order: int, value: int): seq<Event>
  {
    ShiftSteps(dataPin, clockPin, order, value, 8)
  }

  /** `shiftOut(dPin, cPin, order, val)` of 6/ledMatrix.py, and `LEDPanel._shift_out` of 6/ledClass.py. */
  method ShiftOut(gpio: Gpio, dataPin: int, clockPin: int, order: int, value: int)
    requires dataPin !in gpio.faulty && clockPin !in gpio.faulty
    modifies gpio`log
    ensures gpio.log == old(gpio.log) + ShiftOutEvents(dataPin, clockPin, order, value)
  {
    for i := 0 to 8
      invariant gpio.log == old(gpio.log) + ShiftSteps(dataPin, clockPin, order, value, i)
    {
      ShiftBit(gpio, dataPin, clockPin, order, value, i);
      ShiftStepsAppend(old(gpio.log), dataPin, clockPin, order, value, i);
    }
  }

  /** One pass of the loop of `shiftOut`: clock LOW, the bit the order selects, clock HIGH. */
  method ShiftBit(gpio: Gpio, dataPin: int, clockPin: int, order: int, value: int, i: nat)
    requires dataPin !in gpio.faulty && clockPin !in gpio.faulty && i < 8
    modifies gpio`log
    ensures gpio.log == old(gpio.log) + ShiftStep(dataPin, clockPin, order, value, i)
  {
    var ok := gpio.Output(clockPin, Low);
    if order == LSBFIRST {
      ok := gpio.Output(dataPin, LevelOf(Bit(value, i)));
    } else if order == MSBFIRST {
      BitOfShiftLeft(value, i, 7);
      ok := gpio.Output(dataPin, LevelOf(Bit(value * Pow2(i), 7)));
    }
    ok := gpio.Output(clockPin, High);
  }

  lemma ShiftStepsAppend(log: seq<Event>, dataPin: int, clockPin: int, order: int, value: int, i: nat)
    ensures log + ShiftSteps(dataPin, clockPin, order, value, i) + ShiftStep(dataPin, clockPin, order, value, i)
         == log + ShiftSteps(dataPin, clockPin, order, value, i + 1)
  {
  }

  /** The levels written to `pin`, in order. */
  function Trace(log: seq<Event>, pin: int): (t: seq<Level>)
    ensures |t| <= |log|
  {
    if |log| == 0 then []
    else Trace(log[..|log| - 1], pin) + match log[|log| - 1]
      case Output(q, l) => if q == pin then [l] else []
      case _ => []
  }

  lemma {:induction false} TraceAppend(a: seq<Event>, b: seq<Event>, pin: int)
    ensures Trace(a + b, pin) == Trace(a, pin) + Trace(b, pin)
    decreases |b|
  {
    if |b| == 0 {
      assert a + b == a;
    } else {
      assert (a + b)[..|a + b| - 1] == a + b[..|b| - 1];
      TraceAppend(a, b[..|b| - 1], pin);
    }
  }

  function Pulses(n: nat): (t: seq<Level>)
    ensures |t| == 2 * n
  {
    if n == 0 then [] else Pulses(n - 1) + [Low, High]
  }

  /** Whatever the order, the clock pin sees exactly one LOW-HIGH pulse per step. */
  lemma {:induction false} ShiftClockTrace(dataPin: int, clockPin: int, order: int, value: int, n: nat)
    requires dataPin != clockPin
    ensures Trace(ShiftSteps(dataPin, clockPin, order, value, n), clockPin) == Pulses(n)
  {
    if n > 0 {
      var step := ShiftStep(dataPin, clockPin, order, value, n - 1);
      ShiftClockTrace(dataPin, clockPin, order, value, n - 1);
      TraceAppend(ShiftSteps(dataPin, clockPin, order, value, n - 1), step, clockPin);
      var mid: seq<Event> := match DataLevel(order, value, n - 1) case Some(l) => [Output(dataPin, l)] case None => [];
      TraceAppend([Output(clockPin, Low)], mid, clockPin);
      TraceAppend([Output(clockPin, Low)] + mid, [Output(clockPin, High)], clockPin);
      assert Trace([Output(clockPin, Low)], clockPin) == [] + [Low];
      assert Trace([Output(clockPin, High)], clockPin) == [] + [High];
      assert Trace(mid, clockPin) == [];
    }
  }

  /** The levels the data pin receives, one per step: MSBFIRST bit 7-i at step i, LSBFIRST bit i, otherwise none. */
  function DataLevels(order: int, value: int): (ls: seq<Level>)
    ensures |ls| == if order == LSBFIRST || order == MSBFIRST then 8 else 0
  {
    if order == LSBFIRST then seq(8, i requires 0 <= i < 8 => LevelOf(Bit(value, i)))
    else if order == MSBFIRST then seq(8, i requires 0 <= i < 8 => LevelOf(Bit(value, 7 - i)))
    else []
  }

  /** Bit k of `v << i` is bit k-i of v, for negative v too. */
  lemma {:induction false} BitOfShiftLeft(v: int, i: nat, k: nat)
    requires i <= k
    ensures Bit(v * Pow2(i), k) == Bit(v, k - i)
    decreases i
  {
    if i > 0 {
      var w := v * Pow2(i - 1);
      assert v * Pow2(i) == 2 * w;
      assert (2 * w) / 2 == w;
      BitOfShiftLeft(v, i - 1, k - 1);
    }
  }

  /** The data pin sees one level in step i: level i of `DataLevels`, or none for an unknown order. */
  lemma StepDataTrace(dataPin: int, clockPin: int, order: int, value: int, i: nat)
    requires dataPin != clockPin && i < 8
    ensures Trace(ShiftStep(dataPin, clockPin, order, value, i), dataPin)
      == if order == LSBFIRST || order == MSBFIRST then [DataLevels(order, value)[i]] else []
  {
    var mid: seq<Event> := match DataLevel(order, value, i) case Some(l) => [Output(dataPin, l)] case None => [];
    TraceAppend([Output(clockPin, Low)], mid, dataPin);
    TraceAppend([Output(clockPin, Low)] + mid, [Output(clockPin, High)], dataPin);
    assert Trace([Output(clockPin, Low)], dataPin) == [];
    assert Trace([Output(clockPin, High)], dataPin) == [];
    if order == LSBFIRST || order == MSBFIRST {
      assert Trace(mid, dataPin) == [] + [DataLevels(order, value)[i]];
    }
  }

  lemma {:induction false} ShiftDataPrefix(dataPin: int, clockPin: int, order: int, value: int, n: nat)
    requires dataPin != clockPin && n <= 8
    ensures Trace(ShiftSteps(dataPin, clockPin, order, value, n), dataPin)
      == if order == LSBFIRST || order == MSBFIRST then DataLevels(order, value)[..n] else []
  {
    if n > 0 {
      ShiftDataPrefix(dataPin, clockPin, order, value, n - 1);
      TraceAppend(ShiftSteps(dataPin, clockPin, order, value, n - 1), ShiftStep(dataPin, clockPin, order, value, n - 1), dataPin);
      StepDataTrace(dataPin, clockPin, order, value, n - 1);
      if order == LSBFIRST || order == MSBFIRST {
        PrefixSnoc(DataLevels(order, value), n);
      }
    }
  }

  lemma PrefixSnoc(ls: seq<Level>, n: nat)
    requires 0 < n <= |ls|
    ensures ls[..n] == ls[..n - 1] + [ls[n - 1]]
  {
  }

  /** The data pin receives exactly `DataLevels`: the bits in the chosen order, or nothing for an unknown order. */
  lemma ShiftDataTrace(dataPin: int, clockPin: int, order: int, value: int)
    requires dataPin != clockPin
    ensures Trace(ShiftOutEvents(dataPin, clockPin, order, value), dataPin) == DataLevels(order, value)
  {
    ShiftDataPrefix(dataPin, clockPin, order, value, 8);
    if order == LSBFIRST || order == MSBFIRST {
      assert DataLevels(order, value)[..8] == DataLevels(order, value);
    }
  }

  function LevelDigits(ls: seq<Level>): (d: seq<int>)
    ensures |d| == |ls| && IsBinary(d)
  {
    seq(|ls|, i requires 0 <= i < |ls| => if ls[i] == High then 1 else 0)
  }

  function Reverse(s: seq<int>): (r: seq<int>)
    ensures |r| == |s| && forall i :: 0 <= i < |s| ==> r[i] == s[|s| - 1 - i]
  {
    seq(|s|, i requires 0 <= i < |s| => s[|s| - 1 - i])
  }

  /** The register receives the value's low byte: read MSB first, the MSBFIRST bits give back `value % 256`. */
  lemma MsbFirstRoundTrip(value: int)
    ensures MsbValue(LevelDigits(DataLevels(MSBFIRST, value))) == value % 256
  {
    assert LevelDigits(DataLevels(MSBFIRST, value)) == BitsOf(value, 8);
    BitsOfValue(value, 8);
    assert Pow2(8) == 256;
  }

  /** Read in reverse, the LSBFIRST bits give back `value % 256` too. */
  lemma LsbFirstRoundTrip(value: int)
    ensures MsbValue(Reverse(LevelDigits(DataLevels(LSBFIRST, value)))) == value % 256
  {
    assert Reverse(LevelDigits(DataLevels(LSBFIRST, value))) == BitsOf(value, 8);
    BitsOfValue(value, 8);
    assert Pow2(8) == 256;
  }

  /** `~x` for the column bit x = 0x80 >> i. */
  function ColumnMask(i: nat): (m: int)
    requires i < 8
    ensures m < 0
  {
    -(Pow2(7 - i) as int) - 1
  }

  /** Shifted MSB first, the mask of column i is HIGH at every step but step i: exactly one 0, at bit 7-i. */
  lemma ColumnSelect(i: nat, s: nat)
    requires i < 8 && s < 8
    ensures DataLevels(MSBFIRST, ColumnMask(i))[s] == Low <==> s == i
  {
    BitOfComplement(Pow2(7 - i), 7 - s);
    BitOfPow2(7 - i, 7 - s);
  }

  /** One column step: latch LOW, the row byte, the column mask, latch HIGH, then the pause. */
  function ColumnStep(p: Pins, byte: int, i: nat, ms: nat): seq<Event>
    requires i < 8
  {
    [Output(p.latch, Low)]
    + ShiftOutEvents(p.data, p.clock, MSBFIRST, byte)
    + ShiftOutEvents(p.data, p.clock, MSBFIRST, ColumnMask(i))
    + [Output(p.latch, High), Sleep(ms)]
  }

  /** The first n column steps of a frame whose bytes start at `pattern[start]`. */
  function FrameSteps(p: Pins, pattern: seq<int>, start: nat, ms: nat, n: nat): seq<Event>
    requires n <= 8 && start + n <= |pattern|
  {
    if n == 0 then [] else FrameSteps(p, pattern, start, ms, n - 1) + ColumnStep(p, pattern[start + n - 1], n - 1, ms)
  }

  /**
   * One frame: the 8 column steps, or, when the pattern runs out, the steps
   * up to it and the latch LOW written before indexing past its end raises.
   */
  function FrameEvents(p: Pins, pattern: seq<int>, start: nat, ms: nat): seq<Event>
    requires start <= |pattern|
  {
    if start + 8 <= |pattern| then FrameSteps(p, pattern, start, ms, 8)
    else FrameSteps(p, pattern, start, ms, |pattern| - start) + [Output(p.latch, Low)]
  }

  function Repeat(s: seq<Event>, n: nat): (r: seq<Event>)
    ensures |r| == n * |s|
  {
    if n == 0 then [] else Repeat(s, n - 1) + s
  }

  /** The latch sees LOW then HIGH around each column step, and the pause comes after the latch rises. */
  lemma ColumnStepLatch(p: Pins, byte: int, i: nat, ms: nat)
    requires Wired(p) && i < 8
    ensures Trace(ColumnStep(p, byte, i, ms), p.latch) == [Low, High]
    ensures ColumnStep(p, byte, i, ms)[0] == Output(p.latch, Low)
    ensures |ColumnStep(p, byte, i, ms)| >= 2
    ensures ColumnStep(p, byte, i, ms)[|ColumnStep(p, byte, i, ms)| - 2..] == [Output(p.latch, High), Sleep(ms)]
  {
    var a := ShiftOutEvents(p.data, p.clock, MSBFIRST, byte);
    var b := ShiftOutEvents(p.data, p.clock, MSBFIRST, ColumnMask(i));
    NoLatchInShift(p, MSBFIRST, byte, 8);
    NoLatchInShift(p, MSBFIRST, ColumnMask(i), 8);
    TraceAppend([Output(p.latch, Low)], a, p.latch);
    TraceAppend([Output(p.latch, Low)] + a, b, p.latch);
    TraceAppend([Output(p.latch, Low)] + a + b, [Output(p.latch, High), Sleep(ms)], p.latch);
    assert Trace([Output(p.latch, Low)], p.latch) == [] + [Low];
    var tail := [Output(p.latch, High), Sleep(ms)];
    assert tail[..1] == [Output(p.latch, High)];
    assert Trace(tail, p.latch) == Trace([Output(p.latch, High)], p.latch) + [];
    assert Trace([Output(p.latch, High)], p.latch) == [] + [High];
  }

  /** A shift-out writes nothing to the latch. */
  lemma {:induction false} NoLatchInShift(p: Pins, order: int, value: int, n: nat)
    requires Wired(p)
    ensures Trace(ShiftSteps(p.data, p.clock, order, value, n), p.latch) == []
  {
    if n > 0 {
      var mid: seq<Event> := match DataLevel(order, value, n - 1) case Some(l) => [Output(p.data, l)] case None => [];
      NoLatchInShift(p, order, value, n - 1);
      TraceAppend(ShiftSteps(p.data, p.clock, order, value, n - 1), ShiftStep(p.data, p.clock, order, value, n - 1), p.latch);
      TraceAppend([Output(p.clock, Low)], mid, p.latch);
      TraceAppend([Output(p.clock, Low)] + mid, [Output(p.clock, High)], p.latch);
      assert Trace([Output(p.clock, Low)], p.latch) == [];
      assert Trace([Output(p.clock, High)], p.latch) == [];
      assert Trace(mid, p.latch) == [];
    }
  }

  /**
   * The data pin receives, per column step, the row byte MSB first and then
   * the column mask MSB first.
   */
  lemma ColumnStepData(p: Pins, byte: int, i: nat, ms: nat)
    requires Wired(p) && i < 8
    ensures Trace(ColumnStep(p, byte, i, ms), p.data) == DataLevels(MSBFIRST, byte) + DataLevels(MSBFIRST, ColumnMask(i))
  {
    var a := ShiftOutEvents(p.data, p.clock, MSBFIRST, byte);
    var b := ShiftOutEvents(p.data, p.clock, MSBFIRST, ColumnMask(i));
    ShiftDataTrace(p.data, p.clock, MSBFIRST, byte);
    ShiftDataTrace(p.data, p.clock, MSBFIRST, ColumnMask(i));
    TraceAppend([Output(p.latch, Low)], a, p.data);
    TraceAppend([Output(p.latch, Low)] + a, b, p.data);
    TraceAppend([Output(p.latch, Low)] + a + b, [Output(p.latch, High), Sleep(ms)], p.data);
    assert Trace([Output(p.latch, Low)], p.data) == [];
    var tail := [Output(p.latch, High), Sleep(ms)];
    assert tail[..1] == [Output(p.latch, High)];
    assert Trace(tail, p.data) == Trace([Output(p.latch, High)], p.data) + [];
    assert Trace([Output(p.latch, High)], p.data) == [];
  }

  /** The data levels of the first n column steps: each row byte, then its column mask, MSB first. */
  function FrameData(pattern: seq<int>, start: nat, n: nat): (ls: seq<Level>)
    requires n <= 8 && start + n <= |pattern|
    ensures |ls| == 16 * n
  {
    if n == 0 then []
    else FrameData(pattern, start, n - 1) + DataLevels(MSBFIRST, pattern[start + n - 1]) + DataLevels(MSBFIRST, ColumnMask(n - 1))
  }

  /**
   * Over the first n column steps the latch pulses LOW-HIGH once per step,
   * and the data pin receives, per step, the row byte and then the mask
   * that selects that step's column.
   */
  lemma {:induction false} FrameTraces(p: Pins, pattern: seq<int>, start: nat, ms: nat, n: nat)
    requires Wired(p) && n <= 8 && start + n <= |pattern|
    ensures Trace(FrameSteps(p, pattern, start, ms, n), p.latch) == Pulses(n)
    ensures Trace(FrameSteps(p, pattern, start, ms, n), p.data) == FrameData(pattern, start, n)
  {
    if n > 0 {
      var byte := pattern[start + n - 1];
      FrameTraces(p, pattern, start, ms, n - 1);
      ColumnStepLatch(p, byte, n - 1, ms);
      ColumnStepData(p, byte, n - 1, ms);
      TraceAppend(FrameSteps(p, pattern, start, ms, n - 1), ColumnStep(p, byte, n - 1, ms), p.latch);
      TraceAppend(FrameSteps(p, pattern, start, ms, n - 1), ColumnStep(p, byte, n - 1, ms), p.data);
    }
  }

  /** `x >>= 1` from 0x80 gives 0x80 >> i at step i. */
  lemma HalveColumnBit(i: nat)
    requires i < 7
    ensures Pow2(7 - i) / 2 == Pow2(7 - (i + 1))
  {
  }

  /** Latch LOW and the rest of column step i, written after the first i steps, make the first i + 1. */
  lemma FrameStepsAppend(log: seq<Event>, p: Pins, pattern: seq<int>, start: nat, ms: nat, i: nat)
    requires i < 8 && start + i < |pattern|
    ensures log + FrameSteps(p, pattern, start, ms, i) + [Output(p.latch, Low)] + ColumnStep(p, pattern[start + i], i, ms)[1..]
         == log + FrameSteps(p, pattern, start, ms, i + 1)
  {
    var step := ColumnStep(p, pattern[start + i], i, ms);
    assert step == [Output(p.latch, Low)] + step[1..];
  }

  /** The rest of a column step once the latch is LOW: the byte, the mask `~x`, latch HIGH, the pause. */
  method LatchColumn(gpio: Gpio, p: Pins, byte: int, i: nat, x: int, ms: nat)
    requires i < 8 && x == Pow2(7 - i) && Healthy(p, gpio.faulty)
    modifies gpio`log
    ensures gpio.log == old(gpio.log) + ColumnStep(p, byte, i, ms)[1..]
  {
    ShiftOut(gpio, p.data, p.clock, MSBFIRST, byte);
    ShiftOut(gpio, p.data, p.clock, MSBFIRST, -x - 1);
    var written := gpio.Output(p.latch, High);
    gpio.Sleep(ms);
    var a := ShiftOutEvents(p.data, p.clock, MSBFIRST, byte);
    var b := ShiftOutEvents(p.data, p.clock, MSBFIRST, ColumnMask(i));
    var tail := [Output(p.latch, High), Sleep(ms)];
    assert ColumnStep(p, byte, i, ms) == [Output(p.latch, Low)] + (a + b + tail);
  }

  /**
   * The column loop of `display_pattern`, `display_text` and `displayPattern`:
   * for each of 8 columns, latch LOW, shift the byte at `pattern[start + i]`
   * and the mask `~x`, latch HIGH, pause, `x >>= 1`. Returns false where
   * indexing past the end of `pattern` raises.
   */
  method ShowFrame(gpio: Gpio, p: Pins, pattern: seq<int>, start: nat, ms: nat) returns (ok: bool)
    requires start <= |pattern| && Healthy(p, gpio.faulty)
    modifies gpio`log
    ensures ok == (start + 8 <= |pattern|)
    ensures gpio.log == old(gpio.log) + FrameEvents(p, pattern, start, ms)
  {
    var x := 0x80;
    assert Pow2(2) == 4 && Pow2(4) == 16 && Pow2(6) == 64 && Pow2(7) == x;
    var i := 0;
    while i < 8
      invariant 0 <= i <= 8 && start + i <= |pattern|
      invariant i < 8 ==> x == Pow2(7 - i)
      invariant gpio.log == old(gpio.log) + FrameSteps(p, pattern, start, ms, i)
    {
      var written := gpio.Output(p.latch, Low);
      if start + i == |pattern| {
        assert FrameEvents(p, pattern, start, ms) == FrameSteps(p, pattern, start, ms, i) + [Output(p.latch, Low)];
        return false;
      }
      LatchColumn(gpio, p, pattern[start + i], i, x, ms);
      FrameStepsAppend(old(gpio.log), p, pattern, start, ms, i);
      if i < 7 {
        HalveColumnBit(i);
      }
      x := x / 2;
      i := i + 1;
    }
    ok := start + 8 <= |pattern|;
  }
}
