/**
 * The `LEDPanel` class of 6/ledClass.py: an 8x8 matrix behind two 74HC595
 * registers, with a glyph table for space, 0-9 and A-F, a fixed smiling
 * face, and scrolling text built from the glyphs.
 */
module LedPanel {
  import opened Wrappers
  import opened Gpio
  import opened Text
  import opened ShiftRegister

  /** Board pins 11 (data), 13 (latch) and 15 (clock). */
  const DEFAULT_PINS: Pins := Pins(11, 13, 15)

  const SMILING_FACE: seq<int> := [0x1c, 0x22, 0x51, 0x45, 0x45, 0x51, 0x22, 0x1c]

  const BLANK: seq<int> := [0x00, 0x00, 0x00, 0x00, 0x00, 0x00, 0x00, 0x00]

  /** The `CHAR_DATA` dictionary as a lookup: eight row bytes for space, 0-9 and A-F, `None` for any other character. */
  function CharData(c: char): Option<seq<int>>
  {
    match c
    case ' ' => Some([0x00, 0x00, 0x00, 0x00, 0x00, 0x00, 0x00, 0x00])
    case '0' => Some([0x00, 0x00, 0x3E, 0x41, 0x41, 0x3E, 0x00, 0x00])
    case '1' => Some([0x00, 0x00, 0x21, 0x7F, 0x01, 0x00, 0x00, 0x00])
    case '2' => Some([0x00, 0x00, 0x23, 0x45, 0x49, 0x31, 0x00, 0x00])
    case '3' => Some([0x00, 0x00, 0x22, 0x49, 0x49, 0x36, 0x00, 0x00])
    case '4' => Some([0x00, 0x00, 0x0E, 0x32, 0x7F, 0x02, 0x00, 0x00])
    case '5' => Some([0x00, 0x00, 0x79, 0x49, 0x49, 0x46, 0x00, 0x00])
    case '6' => Some([0x00, 0x00, 0x3E, 0x49, 0x49, 0x26, 0x00, 0x00])
    case '7' => Some([0x00, 0x00, 0x60, 0x47, 0x48, 0x70, 0x00, 0x00])
    case '8' => Some([0x00, 0x00, 0x36, 0x49, 0x49, 0x36, 0x00, 0x00])
    case '9' => Some([0x00, 0x00, 0x32, 0x49, 0x49, 0x3E, 0x00, 0x00])
    case 'A' => Some([0x00, 0x00, 0x3F, 0x44, 0x44, 0x3F, 0x00, 0x00])
    case 'B' => Some([0x00, 0x00, 0x7F, 0x49, 0x49, 0x36, 0x00, 0x00])
    case 'C' => Some([0x00, 0x00, 0x3E, 0x41, 0x41, 0x22, 0x00, 0x00])
    case 'D' => Some([0x00, 0x00, 0x7F, 0x41, 0x41, 0x3E, 0x00, 0x00])
    case 'E' => Some([0x00, 0x00, 0x7F, 0x49, 0x49, 0x41, 0x00, 0x00])
    case 'F' => Some([0x00, 0x00, 0x7F, 0x48, 0x48, 0x40, 0x00, 0x00])
    case _ => None
  }

  /** Eight bytes, each in 0..255. */
  predicate IsGlyph(g: seq<int>)
  {
    |g| == 8 && forall i :: 0 <= i < 8 ==> 0 <= g[i] < 256
  }

  /** Every character glyph and the smiling face are 8 bytes in 0..255. */
  lemma TablesAreGlyphs(c: char)
    requires CharData(c).Some?
    ensures IsGlyph(CharData(c).value) && IsGlyph(SMILING_FACE)
  {
    if c <= '4' {
      GlyphsUpToFour(c);
    } else if c <= '9' {
      GlyphsFiveToNine(c);
    } else {
      GlyphsAToF(c);
    }
  }

  lemma GlyphsUpToFour(c: char)
    requires CharData(c).Some? && c <= '4'
    ensures IsGlyph(CharData(c).value)
  {
  }

  lemma GlyphsFiveToNine(c: char)
    requires CharData(c).Some? && '4' < c <= '9'
    ensures IsGlyph(CharData(c).value)
  {
  }

  lemma GlyphsAToF(c: char)
    requires CharData(c).Some? && '9' < c
    ensures IsGlyph(CharData(c).value)
  {
  }

  /** The frames `display_pattern` shows: `repeat` of them, or one cut short when the pattern has fewer than 8 bytes. */
  function PatternEvents(p: Pins, pattern: seq<int>, ms: nat, repeat: int): seq<Event>
  {
    if repeat <= 0 then []
    else if |pattern| < 8 then FrameEvents(p, pattern, 0, ms)
    else Repeat(FrameEvents(p, pattern, 0, ms), repeat)
  }

  /** The upper-cased characters of `text` that have a glyph, in order. */
  function KnownChars(text: string): (cs: string)
    ensures |cs| <= |text|
    ensures forall i :: 0 <= i < |cs| ==> CharData(cs[i]).Some?
  {
    if |text| == 0 then ""
    else
      var u := Upper(text[|text| - 1]);
      KnownChars(text[..|text| - 1]) + if CharData(u).Some? then [u] else ""
  }

  function Glyphs(cs: string): seq<int>
    requires forall i :: 0 <= i < |cs| ==> CharData(cs[i]).Some?
  {
    if |cs| == 0 then [] else Glyphs(cs[..|cs| - 1]) + CharData(cs[|cs| - 1]).value
  }

  /** The `data` list `display_text` assembles. */
  function TextData(text: string): seq<int>
  {
    Glyphs(KnownChars(text))
  }

  /** The glyphs lie back to back: character j occupies bytes 8j to 8j+7. */
  lemma {:induction false} GlyphsLayout(cs: string)
    requires forall i :: 0 <= i < |cs| ==> CharData(cs[i]).Some?
    ensures |Glyphs(cs)| == 8 * |cs|
    ensures forall j :: 0 <= j < |cs| ==> Glyphs(cs)[8 * j..8 * j + 8] == CharData(cs[j]).value
  {
    if |cs| > 0 {
      var init := cs[..|cs| - 1];
      GlyphsLayout(init);
      var last := CharData(cs[|cs| - 1]).value;
      TablesAreGlyphs(cs[|cs| - 1]);
      var g := Glyphs(cs);
      assert g == Glyphs(init) + last;
      forall j | 0 <= j < |cs|
        ensures g[8 * j..8 * j + 8] == CharData(cs[j]).value
      {
        SliceOfAppend(Glyphs(init), last, 8 * j, 8 * j + 8);
        if j < |init| {
          assert cs[j] == init[j];
          assert Glyphs(init)[8 * j..8 * j + 8] == CharData(init[j]).value;
        } else {
          assert cs[j] == cs[|cs| - 1];
        }
      }
    }
  }

  lemma SliceOfAppend(a: seq<int>, b: seq<int>, i: int, j: int)
    requires 0 <= i <= j <= |a + b|
    ensures j <= |a| ==> (a + b)[i..j] == a[i..j]
    ensures i == |a| && j == |a + b| ==> (a + b)[i..j] == b
  {
  }

  /** `range(len(data) - 8)`: the number of scroll frames. */
  function FrameCount(data: seq<int>): (n: nat)
    ensures n + 8 <= |data| || n == 0
  {
    if |data| > 8 then |data| - 8 else 0
  }

  function Times(repeats: int): nat
  {
    if repeats > 0 then repeats else 0
  }

  /** The first n scroll frames, frame k being the window `data[k..k+8]` shown `repeats` times. */
  function Scroll(p: Pins, data: seq<int>, ms: nat, repeats: int, n: nat): seq<Event>
    requires n <= FrameCount(data)
  {
    if n == 0 then []
    else Scroll(p, data, ms, repeats, n - 1) + Repeat(FrameEvents(p, data, n - 1, ms), Times(repeats))
  }

  /** Frame k shown after the first k frames makes the first k + 1. */
  lemma ScrollAppend(log: seq<Event>, p: Pins, data: seq<int>, ms: nat, repeats: int, k: nat)
    requires k < FrameCount(data)
    ensures log + Scroll(p, data, ms, repeats, k) + Repeat(FrameEvents(p, data, k, ms), Times(repeats))
         == log + Scroll(p, data, ms, repeats, k + 1)
  {
  }

  /** What `display_text` writes. */
  function TextEvents(p: Pins, text: string, ms: nat, repeats: int): seq<Event>
  {
    var data := TextData(text);
    Scroll(p, data, ms, repeats, FrameCount(data))
  }

  /**
   * `display_text` scrolls over 8(n-1) windows for n >= 2 known characters
   * and over none for 0 or 1, so the last character's full glyph, the
   * window starting at 8(n-1), is never a frame.
   */
  lemma TextFrames(text: string)
    ensures |TextData(text)| == 8 * |KnownChars(text)|
    ensures FrameCount(TextData(text)) == if |KnownChars(text)| >= 2 then 8 * (|KnownChars(text)| - 1) else 0
    ensures |KnownChars(text)| <= 1 ==> TextEvents(DEFAULT_PINS, text, 1, 20) == []
  {
    GlyphsLayout(KnownChars(text));
  }

  /** Frame k of the text shows, column by column, glyph bytes k to k+7 of the known characters. */
  lemma TextFrameWindow(text: string, k: nat)
    requires k < FrameCount(TextData(text))
    ensures FrameEvents(DEFAULT_PINS, TextData(text), k, 1)
      == FrameSteps(DEFAULT_PINS, TextData(text)[k..k + 8], 0, 1, 8)
  {
    SlideFrame(DEFAULT_PINS, TextData(text), k, 1, 8);
  }

  lemma {:induction false} SlideFrame(p: Pins, data: seq<int>, k: nat, ms: nat, n: nat)
    requires n <= 8 && k + 8 <= |data|
    ensures FrameSteps(p, data, k, ms, n) == FrameSteps(p, data[k..k + 8], 0, ms, n)
  {
    if n > 0 {
      SlideFrame(p, data, k, ms, n - 1);
    }
  }

  /** Unknown characters are skipped, and upper case is applied before the lookup. */
  lemma KnownCharsSkip(text: string, c: char)
    ensures KnownChars(text + [c]) == KnownChars(text) + if CharData(Upper(c)).Some? then [Upper(c)] else ""
  {
    assert (text + [c])[..|text|] == text;
  }

  /** The first half of `display_text`: `data.extend(CHAR_DATA[char])` for each upper-cased character with a glyph. */
  method AssembleText(text: string) returns (data: seq<int>)
    ensures data == Glyphs(KnownChars(text))
  {
    data := [];
    for t := 0 to |text|
      invariant data == Glyphs(KnownChars(text[..t]))
    {
      KnownCharsSkip(text[..t], text[t]);
      assert text[..t + 1] == text[..t] + [text[t]];
      var c := Upper(text[t]);
      var glyph := CharData(c);
      if glyph.Some? {
        ghost var cs := KnownChars(text[..t]);
        assert (cs + [c])[..|cs|] == cs;
        data := data + glyph.value;
      } else {
        assert KnownChars(text[..t]) + "" == KnownChars(text[..t]);
      }
    }
    assert text[..|text|] == text;
  }

  class LEDPanel {
    const pins: Pins
    const gpio: Gpio

    /** `LEDPanel(data_pin, latch_pin, clock_pin)`: the three pins are set up as outputs. */
    constructor (gpio: Gpio, pins: Pins)
      requires Healthy(pins, gpio.faulty)
      modifies gpio`log
      ensures this.pins == pins && this.gpio == gpio
      ensures gpio.log == old(gpio.log) + [Setup(pins.data), Setup(pins.latch), Setup(pins.clock)]
    {
      this.pins := pins;
      this.gpio := gpio;
      new;
      var ok := gpio.Setup(pins.data);
      ok := gpio.Setup(pins.latch);
      ok := gpio.Setup(pins.clock);
    }

    /** `_shift_out`. */
    method ShiftOut(order: int, value: int)
      requires Healthy(pins, gpio.faulty)
      modifies gpio`log
      ensures gpio.log == old(gpio.log) + ShiftOutEvents(pins.data, pins.clock, order, value)
    {
      ShiftRegister.ShiftOut(gpio, pins.data, pins.clock, order, value);
    }

    /** `display_pattern`: false where a pattern shorter than 8 bytes raises. */
    method DisplayPattern(pattern: seq<int>, ms: nat, repeat: int) returns (ok: bool)
      requires Healthy(pins, gpio.faulty)
      modifies gpio`log
      ensures ok == (repeat <= 0 || |pattern| >= 8)
      ensures gpio.log == old(gpio.log) + PatternEvents(pins, pattern, ms, repeat)
    {
      var r := 0;
      while r < repeat
        invariant 0 <= r <= Times(repeat)
        invariant r > 0 ==> |pattern| >= 8
        invariant gpio.log == old(gpio.log) + Repeat(FrameEvents(pins, pattern, 0, ms), r)
      {
        var shown := ShowFrame(gpio, pins, pattern, 0, ms);
        if !shown {
          return false;
        }
        r := r + 1;
      }
      if repeat <= 0 {
        assert gpio.log == old(gpio.log) + [];
      }
      return true;
    }

    /** The frame repeat loop of `display_text` for the window starting at k. */
    method ShowWindow(data: seq<int>, k: nat, ms: nat, repeats: int)
      requires k + 8 <= |data| && Healthy(pins, gpio.faulty)
      modifies gpio`log
      ensures gpio.log == old(gpio.log) + Repeat(FrameEvents(pins, data, k, ms), Times(repeats))
    {
      var r := 0;
      while r < repeats
        invariant 0 <= r <= Times(repeats)
        invariant gpio.log == old(gpio.log) + Repeat(FrameEvents(pins, data, k, ms), r)
      {
        var shown := ShowFrame(gpio, pins, data, k, ms);
        r := r + 1;
      }
      if repeats <= 0 {
        assert gpio.log == old(gpio.log) + [];
      }
    }

    /** Scroll frame k, written after the first k frames. */
    method ScrollOnce(data: seq<int>, k: nat, ms: nat, repeats: int, ghost base: seq<Event>)
      requires k < FrameCount(data) && Healthy(pins, gpio.faulty)
      requires gpio.log == base + Scroll(pins, data, ms, repeats, k)
      modifies gpio`log
      ensures gpio.log == base + Scroll(pins, data, ms, repeats, k + 1)
    {
      ShowWindow(data, k, ms, repeats);
      ScrollAppend(base, pins, data, ms, repeats, k);
    }

    /** `display_text`: assemble the glyph bytes, then scroll over them. */
    method DisplayText(text: string, frameMs: nat, frameRepeats: int)
      requires Healthy(pins, gpio.faulty)
      modifies gpio`log
      ensures gpio.log == old(gpio.log) + TextEvents(pins, text, frameMs, frameRepeats)
    {
      var data := AssembleText(text);
      ScrollData(data, frameMs, frameRepeats);
    }

    /** The scroll loop of `display_text` over the assembled bytes: windows 0 to `len(data) - 9`. */
    method ScrollData(data: seq<int>, ms: nat, repeats: int)
      requires Healthy(pins, gpio.faulty)
      modifies gpio`log
      ensures gpio.log == old(gpio.log) + Scroll(pins, data, ms, repeats, FrameCount(data))
    {
      assert gpio.log == old(gpio.log) + [];
      for k := 0 to FrameCount(data)
        invariant gpio.log == old(gpio.log) + Scroll(pins, data, ms, repeats, k)
      {
        ScrollOnce(data, k, ms, repeats, old(gpio.log));
      }
    }

    /** `display_character`: the glyph of the upper-cased character, or nothing when it has none. */
    method DisplayCharacter(c: char, ms: nat, repeat: int)
      requires Healthy(pins, gpio.faulty)
      modifies gpio`log
      ensures gpio.log == old(gpio.log) + if CharData(Upper(c)).Some? then PatternEvents(pins, CharData(Upper(c)).value, ms, repeat) else []
    {
      var glyph := CharData(Upper(c));
      if glyph.Some? {
        var ok := DisplayPattern(glyph.value, ms, repeat);
      }
    }

    /** `display_smiling_face`. */
    method DisplaySmilingFace(ms: nat, repeat: int)
      requires Healthy(pins, gpio.faulty)
      modifies gpio`log
      ensures gpio.log == old(gpio.log) + Repeat(FrameEvents(pins, SMILING_FACE, 0, ms), Times(repeat))
    {
      var ok := DisplayPattern(SMILING_FACE, ms, repeat);
    }

    /** `clear`: one frame of 8 zero bytes, 1 ms per column. */
    method Clear()
      requires Healthy(pins, gpio.faulty)
      modifies gpio`log
      ensures gpio.log == old(gpio.log) + FrameEvents(pins, BLANK, 0, 1)
    {
      var ok := DisplayPattern(BLANK, 1, 1);
      assert Repeat(FrameEvents(pins, BLANK, 0, 1), 1) == [] + FrameEvents(pins, BLANK, 0, 1);
    }

    /** `display_custom_pattern`: `display_pattern` on caller-supplied bytes. */
    method DisplayCustomPattern(patternData: seq<int>, ms: nat, repeat: int) returns (ok: bool)
      requires Healthy(pins, gpio.faulty)
      modifies gpio`log
      ensures ok == (repeat <= 0 || |patternData| >= 8)
      ensures gpio.log == old(gpio.log) + PatternEvents(pins, patternData, ms, repeat)
    {
      ok := DisplayPattern(patternData, ms, repeat);
    }

    /** `cleanup`, also run on leaving a `with` block. */
    method Cleanup()
      modifies gpio`log
      ensures gpio.log == old(gpio.log) + [Release]
    {
      gpio.Cleanup();
    }
  }
}
