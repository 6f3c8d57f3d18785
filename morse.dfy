/**
 * The Morse encoder and blink driver of 1/labProgram.py: each student
 * number becomes a string of dots, dashes and spaces, and the strings are
 * played on one LED as timed pin writes.
 *
 * The character table is part 1 of ITU-R M.1677-1 (letters and digits);
 * the timing follows the program, not part 2 of the recommendation: every
 * symbol is followed by a one-unit gap, a character gap is 1 + 3 + 1 = 5
 * units, and the seven-unit gap comes once, after the last string.
 */
module Morse {
  import opened Wrappers
  import opened Gpio
  import opened Text

  const LED_PIN: int := 26
  /** One Morse unit, 0.2 s. */
  const UNIT_MS: nat := 200
  const SHORT: nat := 1  // shortDelay, in units
  const LONG: nat := 3   // longDelay
  const VAR: nat := 7    // varDelay

  /**
   * The `MORSE_CODE` dictionary as a lookup: the code of a letter, a digit
   * or the space, and `None` for a character that is not a key.
   */
  function MorseCode(c: char): Option<string>
  {
    match c
    case 'A' => Some(".-")   case 'B' => Some("-...") case 'C' => Some("-.-.") case 'D' => Some("-..")
    case 'E' => Some(".")    case 'F' => Some("..-.") case 'G' => Some("--.")  case 'H' => Some("....")
    case 'I' => Some("..")   case 'J' => Some(".---") case 'K' => Some("-.-")  case 'L' => Some(".-..")
    case 'M' => Some("--")   case 'N' => Some("-.")   case 'O' => Some("---")  case 'P' => Some(".--.")
    case 'Q' => Some("--.-") case 'R' => Some(".-.")  case 'S' => Some("...")  case 'T' => Some("-")
    case 'U' => Some("..-")  case 'V' => Some("...-") case 'W' => Some(".--")  case 'X' => Some("-..-")
    case 'Y' => Some("-.--") case 'Z' => Some("--..")
    case '0' => Some("-----") case '1' => Some(".----") case '2' => Some("..---") case '3' => Some("...--")
    case '4' => Some("....-") case '5' => Some(".....") case '6' => Some("-....") case '7' => Some("--...")
    case '8' => Some("---..") case '9' => Some("----.")
    case ' ' => Some("  ")
    case _ => None
  }

  // ---------------------------------------------------------------------
  // Encoding
  // ---------------------------------------------------------------------

  /** `morse_string` before `strip`: each known character's code followed by one space. */
  function Raw(s: string): string
  {
    if |s| == 0 then ""
    else
      var c := Upper(s[|s| - 1]);
      Raw(s[..|s| - 1]) + if MorseCode(c).Some? then MorseCode(c).value + " " else ""
  }

  /** The codes of the characters of `s` found in the table, in order; the others are skipped. */
  function Codes(s: string): (cs: seq<string>)
    ensures |cs| <= |s|
  {
    if |s| == 0 then []
    else
      var c := Upper(s[|s| - 1]);
      Codes(s[..|s| - 1]) + if MorseCode(c).Some? then [MorseCode(c).value] else []
  }

  /** Every part followed by one space. */
  function Terminated(parts: seq<string>): string
  {
    if |parts| == 0 then "" else Terminated(parts[..|parts| - 1]) + parts[|parts| - 1] + " "
  }

  /** The parts separated by single spaces. */
  function Join(parts: seq<string>): string
  {
    if |parts| == 0 then ""
    else if |parts| == 1 then parts[0]
    else Join(parts[..|parts| - 1]) + " " + parts[|parts| - 1]
  }

  function TrimRight(s: string): (t: string)
    ensures |t| <= |s| && t == s[..|t|]
    ensures |t| > 0 ==> t[|t| - 1] != ' '
    ensures forall i :: |t| <= i < |s| ==> s[i] == ' '
  {
    if |s| > 0 && s[|s| - 1] == ' ' then TrimRight(s[..|s| - 1]) else s
  }

  function TrimLeft(s: string): (t: string)
    ensures |t| <= |s| && t == s[|s| - |t|..]
    ensures |t| > 0 ==> t[0] != ' '
    ensures forall i :: 0 <= i < |s| - |t| ==> s[i] == ' '
  {
    if |s| > 0 && s[0] == ' ' then TrimLeft(s[1..]) else s
  }

  /** `str.strip`, on strings made of table codes and spaces. */
  function Strip(s: string): (t: string)
    ensures |t| == 0 || (t[0] != ' ' && t[|t| - 1] != ' ')
  {
    TrimLeft(TrimRight(s))
  }

  /** The Morse string of one student number. */
  function Encode(s: string): string
  {
    Strip(Raw(s))
  }

  /** `convertDataToMorse`, with the student numbers as its argument. */
  method ConvertDataToMorse(studentNumbers: seq<string>) returns (morseArr: seq<string>)
    ensures |morseArr| == |studentNumbers|
    ensures forall i :: 0 <= i < |studentNumbers| ==> morseArr[i] == Encode(studentNumbers[i])
  {
    morseArr := [];
    for k := 0 to |studentNumbers|
      invariant |morseArr| == k
      invariant forall i :: 0 <= i < k ==> morseArr[i] == Encode(studentNumbers[i])
    {
      var morseString := EncodeNumber(studentNumbers[k]);
      morseArr := morseArr + [morseString];
    }
  }

  /** One pass of `convertDataToMorse`'s outer loop: each known character's code and a space, then `strip`. */
  method EncodeNumber(studentNumber: string) returns (morseString: string)
    ensures morseString == Encode(studentNumber)
  {
    morseString := "";
    for j := 0 to |studentNumber|
      invariant morseString == Raw(studentNumber[..j])
    {
      var c := Upper(studentNumber[j]);
      var code := MorseCode(c);
      if code.Some? {
        morseString := morseString + code.value + " ";
      }
      assert studentNumber[..j + 1][..j] == studentNumber[..j];
    }
    assert studentNumber[..|studentNumber|] == studentNumber;
    morseString := Strip(morseString);
  }

  // ---------------------------------------------------------------------
  // Properties of the table and the encoding
  // ---------------------------------------------------------------------

  predicate IsCode(code: string)
  {
    |code| > 0 && forall i :: 0 <= i < |code| ==> code[i] == '.' || code[i] == '-'
  }

  /** Every letter and digit has a non-empty code of dots and dashes; every digit code has five. */
  lemma TableShape(c: char)
    requires MorseCode(c).Some? && c != ' '
    ensures IsCode(MorseCode(c).value)
    ensures '0' <= c <= '9' ==> |MorseCode(c).value| == 5
  {
  }

  /** Distinct keys of the table have distinct codes. */
  lemma CodesInjective(a: char, b: char)
    requires MorseCode(a).Some? && MorseCode(b).Some?
    requires MorseCode(a) == MorseCode(b)
    ensures a == b
  {
  }

  lemma {:induction false} RawIsTerminated(s: string)
    ensures Raw(s) == Terminated(Codes(s))
  {
    if |s| > 0 {
      var c := Upper(s[|s| - 1]);
      RawIsTerminated(s[..|s| - 1]);
      if MorseCode(c).Some? {
        var cs := Codes(s[..|s| - 1]) + [MorseCode(c).value];
        assert cs[..|cs| - 1] == Codes(s[..|s| - 1]);
        assert Codes(s) == cs;
        assert Terminated(cs) == Terminated(Codes(s[..|s| - 1])) + MorseCode(c).value + " ";
        assert Raw(s) == Raw(s[..|s| - 1]) + MorseCode(c).value + " ";
      } else {
        assert Codes(s) == Codes(s[..|s| - 1]) + [] == Codes(s[..|s| - 1]);
        assert Raw(s) == Raw(s[..|s| - 1]) + "" == Raw(s[..|s| - 1]);
      }
    }
  }

  lemma {:induction false} TerminatedIsJoin(parts: seq<string>)
    requires |parts| > 0
    ensures Terminated(parts) == Join(parts) + " "
  {
    if |parts| > 1 {
      TerminatedIsJoin(parts[..|parts| - 1]);
      assert parts[..|parts| - 1][..|parts| - 2] == parts[..|parts| - 2];
    } else {
      assert parts[..0] == [];
    }
  }

  /** A join of non-empty space-free parts neither starts nor ends with a space. */
  lemma {:induction false} JoinEnds(parts: seq<string>)
    requires |parts| > 0 && forall i :: 0 <= i < |parts| ==> IsCode(parts[i])
    ensures |Join(parts)| > 0 && Join(parts)[0] != ' ' && Join(parts)[|Join(parts)| - 1] != ' '
  {
    if |parts| > 1 {
      JoinEnds(parts[..|parts| - 1]);
    }
  }

  /** The codes of a space-free student number's characters that are in the table. */
  lemma {:induction false} CodesAreCodes(s: string)
    requires forall i :: 0 <= i < |s| ==> s[i] != ' '
    ensures forall i :: 0 <= i < |Codes(s)| ==> IsCode(Codes(s)[i])
  {
    if |s| > 0 {
      CodesAreCodes(s[..|s| - 1]);
      var c := Upper(s[|s| - 1]);
      if MorseCode(c).Some? {
        TableShape(c);
      }
    }
  }

  /**
   * For input without spaces, the Morse string is the codes of the known
   * characters, in order, separated by exactly one space: unknown
   * characters are skipped, and nothing leads or trails.
   */
  lemma EncodeJoinsCodes(s: string)
    requires forall i :: 0 <= i < |s| ==> s[i] != ' '
    ensures Encode(s) == Join(Codes(s))
  {
    RawIsTerminated(s);
    var cs := Codes(s);
    if |cs| > 0 {
      TerminatedIsJoin(cs);
      CodesAreCodes(s);
      JoinEnds(cs);
      var j := Join(cs);
      assert TrimRight(j + " ") == TrimRight(j) by {
        assert (j + " ")[..|j + " "| - 1] == j;
      }
      assert TrimRight(j) == j;
      assert TrimLeft(j) == j;
    }
  }

  // ---------------------------------------------------------------------
  // The blink driver
  // ---------------------------------------------------------------------

  /** `pinOn`: HIGH, a pause, then LOW. */
  function PinOnEvents(units: nat): seq<Event>
  {
    [Output(LED_PIN, High), Sleep(units * UNIT_MS), Output(LED_PIN, Low)]
  }

  /** `pinOff`: LOW, then a pause. */
  function PinOffEvents(units: nat): seq<Event>
  {
    [Output(LED_PIN, Low), Sleep(units * UNIT_MS)]
  }

  /** One symbol: a dot or dash lights the LED, a space darkens it, and a one-unit gap follows every symbol. */
  function SymbolEvents(c: char): seq<Event>
  {
    (if c == '.' then PinOnEvents(SHORT)
     else if c == '-' then PinOnEvents(LONG)
     else if c == ' ' then PinOffEvents(LONG)
     else []) + PinOffEvents(SHORT)
  }

  function StringEvents(s: string): seq<Event>
  {
    if |s| == 0 then [] else StringEvents(s[..|s| - 1]) + SymbolEvents(s[|s| - 1])
  }

  function StringsEvents(morse: seq<string>): seq<Event>
  {
    if |morse| == 0 then [] else StringsEvents(morse[..|morse| - 1]) + StringEvents(morse[|morse| - 1])
  }

  /** `driveMorseToBlinks`: every string's symbols in order, then one seven-unit gap. */
  function BlinkSchedule(morse: seq<string>): seq<Event>
  {
    StringsEvents(morse) + PinOffEvents(VAR)
  }

  /** All the strings one after another. */
  function Flatten(morse: seq<string>): string
  {
    if |morse| == 0 then "" else Flatten(morse[..|morse| - 1]) + morse[|morse| - 1]
  }

  method PinOn(gpio: Gpio, units: nat) returns (ok: bool)
    modifies gpio`log
    ensures ok == (LED_PIN !in gpio.faulty)
    ensures gpio.log == old(gpio.log) + if ok then PinOnEvents(units) else []
  {
    ok := gpio.Output(LED_PIN, High);
    if !ok {
      return;
    }
    gpio.Sleep(units * UNIT_MS);
    ok := gpio.Output(LED_PIN, Low);
  }

  method PinOff(gpio: Gpio, units: nat) returns (ok: bool)
    modifies gpio`log
    ensures ok == (LED_PIN !in gpio.faulty)
    ensures gpio.log == old(gpio.log) + if ok then PinOffEvents(units) else []
  {
    ok := gpio.Output(LED_PIN, Low);
    if !ok {
      return;
    }
    gpio.Sleep(units * UNIT_MS);
  }

  /** The body of `driveMorseToBlinks`' inner loop: one symbol and the gap after it. */
  method DriveSymbol(gpio: Gpio, c: char) returns (ok: bool)
    modifies gpio`log
    ensures ok == (LED_PIN !in gpio.faulty)
    ensures gpio.log == old(gpio.log) + if ok then SymbolEvents(c) else []
  {
    ok := true;
    if c == '.' {
      ok := PinOn(gpio, SHORT);
    } else if c == '-' {
      ok := PinOn(gpio, LONG);
    } else if c == ' ' {
      ok := PinOff(gpio, LONG);
    }
    if !ok {
      return;
    }
    ok := PinOff(gpio, SHORT);
  }

  /** The inner loop of `driveMorseToBlinks`: the symbols of one string. */
  method DriveString(gpio: Gpio, morseInput: string) returns (ok: bool)
    modifies gpio`log
    ensures ok == (LED_PIN !in gpio.faulty || |morseInput| == 0)
    ensures gpio.log == old(gpio.log) + if LED_PIN !in gpio.faulty then StringEvents(morseInput) else []
  {
    ok := true;
    for j := 0 to |morseInput|
      invariant LED_PIN !in gpio.faulty ==> gpio.log == old(gpio.log) + StringEvents(morseInput[..j])
      invariant LED_PIN in gpio.faulty ==> gpio.log == old(gpio.log) && j == 0
      invariant ok == (LED_PIN !in gpio.faulty) || j == 0
    {
      ok := DriveNext(gpio, morseInput, j, old(gpio.log));
      if !ok {
        return;
      }
    }
    assert morseInput[..|morseInput|] == morseInput;
  }

  /** Symbol j of a string, after the symbols before it. */
  method DriveNext(gpio: Gpio, morseInput: string, j: nat, ghost base: seq<Event>) returns (ok: bool)
    requires j < |morseInput| && gpio.log == base + StringEvents(morseInput[..j])
    modifies gpio`log
    ensures ok == (LED_PIN !in gpio.faulty)
    ensures gpio.log == if ok then base + StringEvents(morseInput[..j + 1]) else old(gpio.log)
  {
    ok := DriveSymbol(gpio, morseInput[j]);
    assert morseInput[..j + 1][..j] == morseInput[..j];
    assert ok ==> gpio.log == base + (StringEvents(morseInput[..j]) + SymbolEvents(morseInput[j]));
  }

  /** `driveMorseToBlinks`; a raising pin write stops it before anything reaches the pin. */
  method DriveMorseToBlinks(gpio: Gpio, morseInputArr: seq<string>) returns (ok: bool)
    modifies gpio`log
    ensures ok == (LED_PIN !in gpio.faulty)
    ensures gpio.log == old(gpio.log) + if ok then BlinkSchedule(morseInputArr) else []
  {
    for k := 0 to |morseInputArr|
      invariant LED_PIN !in gpio.faulty ==> gpio.log == old(gpio.log) + StringsEvents(morseInputArr[..k])
      invariant LED_PIN in gpio.faulty ==> gpio.log == old(gpio.log)
    {
      ok := DriveNextString(gpio, morseInputArr, k, old(gpio.log));
      if !ok {
        return;
      }
    }
    assert morseInputArr[..|morseInputArr|] == morseInputArr;
    ok := PinOff(gpio, VAR);
    assert ok ==> gpio.log == old(gpio.log) + (StringsEvents(morseInputArr) + PinOffEvents(VAR));
  }

  /** String k of the list, after the strings before it. */
  method DriveNextString(gpio: Gpio, morseInputArr: seq<string>, k: nat, ghost base: seq<Event>) returns (ok: bool)
    requires k < |morseInputArr|
    requires LED_PIN !in gpio.faulty ==> gpio.log == base + StringsEvents(morseInputArr[..k])
    modifies gpio`log
    ensures ok == (LED_PIN !in gpio.faulty || |morseInputArr[k]| == 0)
    ensures gpio.log == if LED_PIN !in gpio.faulty then base + StringsEvents(morseInputArr[..k + 1]) else old(gpio.log)
  {
    ok := DriveString(gpio, morseInputArr[k]);
    assert morseInputArr[..k + 1][..k] == morseInputArr[..k];
    assert StringsEvents(morseInputArr[..k + 1]) == StringsEvents(morseInputArr[..k]) + StringEvents(morseInputArr[k]);
  }

  // ---------------------------------------------------------------------
  // Timing of the schedule
  // ---------------------------------------------------------------------

  /** Milliseconds the LED spends lit over `events`, starting at `level`. */
  function HighTime(events: seq<Event>, level: Level): nat
  {
    if |events| == 0 then 0
    else match events[0]
      case Output(p, l) => HighTime(events[1..], if p == LED_PIN then l else level)
      case Sleep(ms) => (if level == High then ms else 0) + HighTime(events[1..], level)
      case _ => HighTime(events[1..], level)
  }

  /** The LED's level after `events`, starting at `level`. */
  function EndLevel(events: seq<Event>, level: Level): Level
  {
    if |events| == 0 then level
    else match events[0]
      case Output(p, l) => EndLevel(events[1..], if p == LED_PIN then l else level)
      case _ => EndLevel(events[1..], level)
  }

  /** Milliseconds of pauses in `events`. */
  function Duration(events: seq<Event>): nat
  {
    if |events| == 0 then 0
    else (if events[0].Sleep? then events[0].ms else 0) + Duration(events[1..])
  }

  lemma {:induction false} TimingAppend(a: seq<Event>, b: seq<Event>, level: Level)
    ensures HighTime(a + b, level) == HighTime(a, level) + HighTime(b, EndLevel(a, level))
    ensures EndLevel(a + b, level) == EndLevel(b, EndLevel(a, level))
    ensures Duration(a + b) == Duration(a) + Duration(b)
  {
    if |a| == 0 {
      assert a + b == b;
    } else {
      assert (a + b)[1..] == a[1..] + b;
      match a[0]
      case Output(p, l) => TimingAppend(a[1..], b, if p == LED_PIN then l else level);
      case _ => TimingAppend(a[1..], b, level);
    }
  }

  lemma PinTiming(units: nat, level: Level)
    ensures HighTime(PinOnEvents(units), level) == units * UNIT_MS && EndLevel(PinOnEvents(units), level) == Low
    ensures Duration(PinOnEvents(units)) == units * UNIT_MS
    ensures HighTime(PinOffEvents(units), level) == 0 && EndLevel(PinOffEvents(units), level) == Low
    ensures Duration(PinOffEvents(units)) == units * UNIT_MS
  {
    var on := PinOnEvents(units);
    assert on[1..] == [Sleep(units * UNIT_MS), Output(LED_PIN, Low)];
    assert on[1..][1..] == [Output(LED_PIN, Low)];
    assert on[1..][1..][1..] == [];
    assert HighTime(on[1..][1..], High) == 0 && EndLevel(on[1..][1..], High) == Low;
    assert HighTime(on[1..], High) == units * UNIT_MS;
    assert Duration(on[1..][1..]) == 0;
    var off := PinOffEvents(units);
    assert off[1..] == [Sleep(units * UNIT_MS)];
    assert off[1..][1..] == [];
    assert HighTime(off[1..], Low) == 0 && EndLevel(off[1..], Low) == Low;
  }

  /** A symbol lights the LED 1 unit for a dot, 3 for a dash, never otherwise, and leaves it dark. */
  lemma SymbolTiming(c: char, level: Level)
    ensures HighTime(SymbolEvents(c), level) == UNIT_MS * (if c == '.' then 1 else if c == '-' then 3 else 0)
    ensures EndLevel(SymbolEvents(c), level) == Low
    ensures Duration(SymbolEvents(c)) == UNIT_MS * (1 + if c == '.' then 1 else if c == '-' || c == ' ' then 3 else 0)
  {
    var head := if c == '.' then PinOnEvents(SHORT) else if c == '-' then PinOnEvents(LONG)
                else if c == ' ' then PinOffEvents(LONG) else [];
    PinTiming(SHORT, EndLevel(head, level));
    PinTiming(LONG, level);
    PinTiming(SHORT, level);
    TimingAppend(head, PinOffEvents(SHORT), level);
  }

  /** Lit time of one string: a unit per dot and three per dash; the LED ends dark. */
  lemma {:induction false} StringTiming(s: string)
    ensures HighTime(StringEvents(s), Low) == UNIT_MS * (multiset(s)['.'] + 3 * multiset(s)['-'])
    ensures EndLevel(StringEvents(s), Low) == Low
    ensures Duration(StringEvents(s)) ==
              UNIT_MS * (|s| + multiset(s)['.'] + 3 * multiset(s)['-'] + 3 * multiset(s)[' '])
  {
    if |s| > 0 {
      var init := s[..|s| - 1];
      StringTiming(init);
      TimingAppend(StringEvents(init), SymbolEvents(s[|s| - 1]), Low);
      SymbolTiming(s[|s| - 1], Low);
      SymbolCounts(s);
    }
  }

  /** Counting the symbols of a non-empty string: those of all but the last, plus the last. */
  lemma SymbolCounts(s: string)
    requires |s| > 0
    ensures var init, c := s[..|s| - 1], s[|s| - 1];
      && multiset(s)['.'] == multiset(init)['.'] + (if c == '.' then 1 else 0)
      && multiset(s)['-'] == multiset(init)['-'] + (if c == '-' then 1 else 0)
      && multiset(s)[' '] == multiset(init)[' '] + (if c == ' ' then 1 else 0)
  {
    assert s == s[..|s| - 1] + [s[|s| - 1]];
    assert multiset(s) == multiset(s[..|s| - 1]) + multiset{s[|s| - 1]};
  }

  lemma {:induction false} StringsTiming(morse: seq<string>)
    ensures var f := Flatten(morse);
      && HighTime(StringsEvents(morse), Low) == UNIT_MS * (multiset(f)['.'] + 3 * multiset(f)['-'])
      && EndLevel(StringsEvents(morse), Low) == Low
      && Duration(StringsEvents(morse)) == UNIT_MS * (|f| + multiset(f)['.'] + 3 * multiset(f)['-'] + 3 * multiset(f)[' '])
  {
    if |morse| > 0 {
      var init := morse[..|morse| - 1];
      var last := morse[|morse| - 1];
      StringsTiming(init);
      StringTiming(last);
      TimingAppend(StringsEvents(init), StringEvents(last), Low);
      assert multiset(Flatten(morse)) == multiset(Flatten(init)) + multiset(last);
    }
  }

  /**
   * Over the whole schedule, starting dark: the LED is lit one unit per
   * dot and three per dash, ends dark, and the schedule lasts one unit per
   * symbol, plus one per dot, three per dash and space, plus seven.
   */
  lemma BlinkTiming(morse: seq<string>)
    ensures var f := Flatten(morse);
      var w := BlinkSchedule(morse);
      && HighTime(w, Low) == UNIT_MS * (multiset(f)['.'] + 3 * multiset(f)['-'])
      && EndLevel(w, Low) == Low
      && Duration(w) == UNIT_MS * (|f| + multiset(f)['.'] + 3 * multiset(f)['-'] + 3 * multiset(f)[' '] + VAR)
  {
    StringsTiming(morse);
    TimingAppend(StringsEvents(morse), PinOffEvents(VAR), Low);
    PinTiming(VAR, Low);
  }

  /** Every pause before the final one lasts one or three units. */
  predicate ShortPauses(events: seq<Event>)
  {
    forall e :: e in events && e.Sleep? ==> e.ms == SHORT * UNIT_MS || e.ms == LONG * UNIT_MS
  }

  lemma {:induction false} StringsPauses(morse: seq<string>)
    ensures ShortPauses(StringsEvents(morse))
  {
    if |morse| > 0 {
      StringsPauses(morse[..|morse| - 1]);
      StringPauses(morse[|morse| - 1]);
    }
  }

  lemma {:induction false} StringPauses(s: string)
    ensures ShortPauses(StringEvents(s))
  {
    if |s| > 0 {
      StringPauses(s[..|s| - 1]);
    }
  }

  /** The seven-unit gap is the schedule's last event and occurs nowhere else, not even between strings. */
  lemma LongGapOnlyAtEnd(morse: seq<string>)
    ensures var w := BlinkSchedule(morse);
      && w[|w| - 1] == Sleep(VAR * UNIT_MS)
      && forall i :: 0 <= i < |w| - 1 ==> w[i] != Sleep(VAR * UNIT_MS)
  {
    var w := BlinkSchedule(morse);
    StringsPauses(morse);
    forall i | 0 <= i < |w| - 1
      ensures w[i] != Sleep(VAR * UNIT_MS)
    {
      if i < |StringsEvents(morse)| {
        assert w[i] in StringsEvents(morse);
      }
    }
  }
}
