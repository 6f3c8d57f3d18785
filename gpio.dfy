/**
 * The pin driver (RPi.GPIO) as the modelled programs see it: every call is
 * an event appended to a log, and a pause (`time.sleep`) is an event too.
 * A driver call on a pin in the fault set raises instead of taking effect.
 */
module Gpio {
  import opened Wrappers

  datatype Level = Low | High

  datatype Event =
    | Setup(pin: int)                 // GPIO.setup(pin, GPIO.OUT)
    | Output(pin: int, level: Level)  // GPIO.output(pin, level)
    | Sleep(ms: nat)                  // time.sleep(ms / 1000)
    | Release                         // GPIO.cleanup()

  function LevelOf(on: bool): (l: Level)
    ensures (l == High) == on
  {
    if on then High else Low
  }

  /** No pin of `pins` raises when driven. */
  predicate NoFault(pins: seq<int>, faulty: set<int>)
  {
    forall i :: 0 <= i < |pins| ==> pins[i] !in faulty
  }

  /** Index of the first pin of `pins` whose driver call raises; `|pins|` when none does. */
  function FirstFault(pins: seq<int>, faulty: set<int>): (k: nat)
    ensures k <= |pins|
    ensures forall j :: 0 <= j < k ==> pins[j] !in faulty
    ensures k < |pins| ==> pins[k] in faulty
    ensures k == |pins| <==> NoFault(pins, faulty)
  {
    if |pins| == 0 then 0
    else if pins[0] in faulty then 0
    else 1 + FirstFault(pins[1..], faulty)
  }

  lemma FirstFaultAt(pins: seq<int>, faulty: set<int>, i: nat)
    requires i < |pins| && pins[i] in faulty
    requires forall j :: 0 <= j < i ==> pins[j] !in faulty
    ensures FirstFault(pins, faulty) == i
  {
  }

  /** Writing `levels[i]` to `pins[i]` for every i, in order. */
  function Writes(pins: seq<int>, levels: seq<Level>): (w: seq<Event>)
    requires |levels| == |pins|
    ensures |w| == |pins|
  {
    seq(|pins|, i requires 0 <= i < |pins| => Output(pins[i], levels[i]))
  }

  function Uniform(n: nat, level: Level): (ls: seq<Level>)
    ensures |ls| == n && forall i :: 0 <= i < n ==> ls[i] == level
  {
    seq(n, _ => level)
  }

  /**
   * What a `for pin in pins: GPIO.output(pin, ...)` loop leaves in the log:
   * the writes up to, not including, the first pin that raises.
   */
  function Drive(pins: seq<int>, levels: seq<Level>, faulty: set<int>): (w: seq<Event>)
    requires |levels| == |pins|
    ensures NoFault(pins, faulty) ==> w == Writes(pins, levels)
    ensures |w| == FirstFault(pins, faulty)
  {
    var k := FirstFault(pins, faulty);
    assert k == |pins| ==> pins[..k] == pins && levels[..k] == levels;
    Writes(pins[..k], levels[..k])
  }

  /** The level last written to `pin` in `log`, if any. */
  function LastLevel(log: seq<Event>, pin: int): Option<Level>
  {
    if |log| == 0 then None
    else match log[|log| - 1]
      case Output(p, l) => if p == pin then Some(l) else LastLevel(log[..|log| - 1], pin)
      case _ => LastLevel(log[..|log| - 1], pin)
  }

  predicate Distinct(s: seq<int>)
  {
    forall i, j :: 0 <= i < j < |s| ==> s[i] != s[j]
  }

  /** Events that do not write to `pin` leave its last level as it was. */
  lemma {:induction false} LastLevelSkips(log: seq<Event>, tail: seq<Event>, pin: int)
    requires forall e :: e in tail ==> !(e.Output? && e.pin == pin)
    ensures LastLevel(log + tail, pin) == LastLevel(log, pin)
  {
    if |tail| > 0 {
      var t := tail[..|tail| - 1];
      assert (log + tail)[..|log + tail| - 1] == log + t;
      LastLevelSkips(log, t, pin);
    } else {
      assert log + tail == log;
    }
  }

  /** After one write per distinct pin, each pin shows the level written to it. */
  lemma LastLevelAfterWrites(log: seq<Event>, pins: seq<int>, levels: seq<Level>, i: nat)
    requires |levels| == |pins| && Distinct(pins) && i < |pins|
    ensures LastLevel(log + Writes(pins, levels), pins[i]) == Some(levels[i])
  {
    var w := Writes(pins, levels);
    var head := log + w[..i + 1];
    assert head[|head| - 1] == Output(pins[i], levels[i]);
    assert LastLevel(head, pins[i]) == Some(levels[i]);
    forall e | e in w[i + 1..] ensures !(e.Output? && e.pin == pins[i]) {
      var j :| 0 <= j < |w[i + 1..]| && w[i + 1..][j] == e;
      assert e == Output(pins[i + 1 + j], levels[i + 1 + j]);
    }
    LastLevelSkips(head, w[i + 1..], pins[i]);
    assert head + w[i + 1..] == log + w;
  }

  /** The pin driver: its call log and the pins on which a call raises. */
  class Gpio {
    var log: seq<Event>
    var faulty: set<int>

    constructor (faulty: set<int>)
      ensures log == [] && this.faulty == faulty
    {
      log := [];
      this.faulty := faulty;
    }

    method Setup(pin: int) returns (ok: bool)
      modifies this`log
      ensures ok == (pin !in faulty)
      ensures log == old(log) + if ok then [Event.Setup(pin)] else []
    {
      ok := pin !in faulty;
      if ok {
        log := log + [Event.Setup(pin)];
      }
    }

    method Output(pin: int, level: Level) returns (ok: bool)
      modifies this`log
      ensures ok == (pin !in faulty)
      ensures log == old(log) + if ok then [Event.Output(pin, level)] else []
    {
      ok := pin !in faulty;
      if ok {
        log := log + [Event.Output(pin, level)];
      }
    }

    method Sleep(ms: nat)
      modifies this`log
      ensures log == old(log) + [Event.Sleep(ms)]
    {
      log := log + [Event.Sleep(ms)];
    }

    method Cleanup()
      modifies this`log
      ensures log == old(log) + [Release]
    {
      log := log + [Release];
    }

    /** `for i, pin in enumerate(pins): GPIO.output(pin, levels[i])`, stopping where a call raises. */
    method OutputAll(pins: seq<int>, levels: seq<Level>) returns (ok: bool)
      requires |levels| == |pins|
      modifies this`log
      ensures ok == NoFault(pins, faulty)
      ensures log == old(log) + Drive(pins, levels, faulty)
    {
      var i := 0;
      while i < |pins|
        invariant 0 <= i <= |pins|
        invariant forall j :: 0 <= j < i ==> pins[j] !in faulty
        invariant log == old(log) + Writes(pins[..i], levels[..i])
      {
        var done := Output(pins[i], levels[i]);
        if !done {
          FirstFaultAt(pins, faulty, i);
          return false;
        }
        assert Writes(pins[..i + 1], levels[..i + 1]) == Writes(pins[..i], levels[..i]) + [Event.Output(pins[i], levels[i])];
        i := i + 1;
      }
      assert pins[..i] == pins && levels[..i] == levels;
      ok := true;
    }
  }
}
