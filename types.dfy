/** The records shared by the editor, the graph, the renderer and the live
    audio graph, with the ranges their declarations document. Amplitudes,
    frequencies and durations are exact reals here; the browser's floating
    point is not modelled. */
module Types {

  /** Number of harmonic slots the editor and the graph offer (ids 1..32). */
  const MaxPotentialHarmonics: int := 32

  /** Amplitude a drag must exceed to activate an absent harmonic. */
  const ActivationThreshold: real := 0.005

  datatype Option<T> = None | Some(value: T)

  /** One sinusoidal partial; its id is also its multiple of the fundamental. */
  datatype Harmonic = Harmonic(
    id: int,           // documented 1..32
    amplitude: real,   // documented 0.00..1.00
    isLocked: bool,
    isMuted: bool,
    isSoloed: bool)

  datatype AudioSettings = AudioSettings(
    fundamentalFrequency: real,  // Hz
    duration: real,              // seconds
    masterVolume: real)          // documented 0.0..1.0

  /** One bar of the amplitude graph: `amplitude` is what is audible,
      `originalAmplitude` what is configured. */
  datatype GraphDataPoint = GraphDataPoint(
    name: string,
    amplitude: real,
    originalAmplitude: real,
    isMuted: bool,
    isLocked: bool,
    isSoloed: bool,
    id: int)

  predicate ValidId(id: int) {
    1 <= id <= MaxPotentialHarmonics
  }

  predicate ValidAmplitude(a: real) {
    0.0 <= a <= 1.0
  }

  /** The documented ranges of a harmonic record. */
  predicate ValidHarmonic(h: Harmonic) {
    ValidId(h.id) && ValidAmplitude(h.amplitude)
  }

  /** The documented range of the master volume. */
  predicate ValidSettings(s: AudioSettings) {
    0.0 <= s.masterVolume <= 1.0
  }

  /** The record standing for a harmonic that is not in the active set. */
  function Inactive(id: int): (h: Harmonic)
    ensures h.id == id && h.amplitude == 0.0
    ensures !h.isLocked && !h.isMuted && !h.isSoloed
    ensures ValidId(id) ==> ValidHarmonic(h)
  {
    Harmonic(id, 0.0, false, false, false)
  }

  /** `Math.max(0, Math.min(1, x))`. */
  function Clamp01(x: real): (r: real)
    ensures ValidAmplitude(r)
    ensures ValidAmplitude(x) ==> r == x
    ensures x < 0.0 ==> r == 0.0
    ensures x > 1.0 ==> r == 1.0
  {
    if x < 0.0 then 0.0 else if x > 1.0 then 1.0 else x
  }

  /** Decimal digits of a natural number, most significant first, without
      leading zeros (the way a template literal prints an integer). */
  function NatToDecimal(n: nat): (s: string)
    ensures |s| >= 1
    ensures forall i :: 0 <= i < |s| ==> '0' <= s[i] <= '9'
    decreases n
  {
    if n < 10 then [DigitChar(n)] else NatToDecimal(n / 10) + [DigitChar(n % 10)]
  }

  function DigitChar(d: nat): (c: char)
    requires d < 10
    ensures '0' <= c <= '9'
  {
    ['0', '1', '2', '3', '4', '5', '6', '7', '8', '9'][d]
  }

  function DigitValue(c: char): (d: nat)
    ensures '0' <= c <= '9' ==> d < 10
  {
    if '0' <= c <= '9' then (c as int) - ('0' as int) else 0
  }

  /** Integer printed in decimal, with a leading '-' when negative. */
  function IntToDecimal(n: int): (s: string)
    ensures |s| >= 1
  {
    if n < 0 then "-" + NatToDecimal(-n) else NatToDecimal(n)
  }

  /** Reads back a digit string, most significant first. */
  function ParseDecimal(s: string): (n: nat)
    decreases |s|
  {
    if |s| == 0 then 0 else ParseDecimal(s[..|s| - 1]) * 10 + DigitValue(s[|s| - 1])
  }

  /** Printing and reading back a natural number is the identity. */
  lemma {:induction false} DecimalRoundTrip(n: nat)
    ensures ParseDecimal(NatToDecimal(n)) == n
    decreases n
  {
    var s := NatToDecimal(n);
    if n < 10 {
      assert s[..|s| - 1] == [];
    } else {
      assert s[..|s| - 1] == NatToDecimal(n / 10);
      DecimalRoundTrip(n / 10);
    }
  }

  /** Distinct non-negative ids print as distinct names. */
  lemma NatToDecimalInjective(a: nat, b: nat)
    requires NatToDecimal(a) == NatToDecimal(b)
    ensures a == b
  {
    DecimalRoundTrip(a);
    DecimalRoundTrip(b);
  }
}
