/**
 * The buzzer tones of 3/PassiveBuzzerLab/planet_tones.py: a planet is a
 * base frequency and a depth, and its tone at a sine value `s` is
 * `base + s * depth`. The eight subclasses are the eight constants below.
 */
module PlanetTones {

  datatype Planet = Planet(name: string, base: int, depth: int)

  const MERCURY: Planet := Planet("Mercury", 1500, 300)
  const VENUS: Planet := Planet("Venus", 1800, 400)
  const EARTH: Planet := Planet("Earth", 2000, 500)
  const MARS: Planet := Planet("Mars", 2200, 600)
  const JUPITER: Planet := Planet("Jupiter", 2500, 700)
  const SATURN: Planet := Planet("Saturn", 2700, 800)
  const URANUS: Planet := Planet("Uranus", 2900, 900)
  const NEPTUNE: Planet := Planet("Neptune", 3100, 1000)

  /** The planets in the order the subclasses are declared. */
  const PLANETS: seq<Planet> := [MERCURY, VENUS, EARTH, MARS, JUPITER, SATURN, URANUS, NEPTUNE]

  /** `get_tone`: the pair the tone is computed from. */
  function GetTone(p: Planet): (t: seq<int>)
    ensures |t| == 2
  {
    [p.base, p.depth]
  }

  /** `getCalculatedTone`: the frequency at sine value `s` (exact reals instead of floats). */
  function CalculatedTone(p: Planet, s: real): real
  {
    p.base as real + s * p.depth as real
  }

  /** The tone is the formula over `get_tone`'s pair, and the base itself at zero. */
  lemma ToneFromPair(p: Planet, s: real)
    ensures CalculatedTone(p, s) == GetTone(p)[0] as real + s * GetTone(p)[1] as real
    ensures CalculatedTone(p, 0.0) == p.base as real
  {
  }

  /** Over one sine period the tone swings by at most the depth around the base. */
  lemma ToneBounds(p: Planet, s: real)
    requires p.depth >= 0 && -1.0 <= s <= 1.0
    ensures (p.base - p.depth) as real <= CalculatedTone(p, s) <= (p.base + p.depth) as real
  {
    var d := p.depth as real;
    assert (1.0 - s) * d >= 0.0;
    assert (1.0 + s) * d >= 0.0;
  }

  /** A larger sine value never gives a lower tone. */
  lemma ToneMonotone(p: Planet, s1: real, s2: real)
    requires p.depth >= 0 && s1 <= s2
    ensures CalculatedTone(p, s1) <= CalculatedTone(p, s2)
  {
    assert (s2 - s1) * (p.depth as real) >= 0.0;
  }

  /** Both the base and the depth strictly increase from Mercury out to Neptune. */
  lemma PlanetsIncreasing(i: nat, j: nat)
    requires i < j < |PLANETS|
    ensures PLANETS[i].base < PLANETS[j].base && PLANETS[i].depth < PLANETS[j].depth
  {
  }

  /** Every planet's lowest tone is positive, so every tone over one sine period is. */
  lemma TonesPositive(i: nat, s: real)
    requires i < |PLANETS| && -1.0 <= s <= 1.0
    ensures PLANETS[i].base - PLANETS[i].depth > 0
    ensures CalculatedTone(PLANETS[i], s) > 0.0
  {
    ToneBounds(PLANETS[i], s);
  }
}
