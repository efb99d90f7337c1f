/**
 * The diatonic helpers the pitch code calls (src/Helpers.ts is not part of
 * this model; these are the assumed definitions). Dafny's `/` and `%` with a
 * positive divisor round towards negative infinity, which is what negative
 * diatonic values need.
 */
module Helpers {
  import opened Constants

  /** The step within its octave, 0 = C .. 6 = B. */
  function SimplifyDiatonic(diatonic: int): (step: int)
    ensures 0 <= step < DiatonicsPerOctave
    ensures diatonic == GetDiatonicOctave(diatonic) * DiatonicsPerOctave + step
  {
    diatonic % DiatonicsPerOctave
  }

  /** The octave a diatonic value falls in (floor division). */
  function GetDiatonicOctave(diatonic: int): (octave: int)
    ensures octave * DiatonicsPerOctave <= diatonic < octave * DiatonicsPerOctave + DiatonicsPerOctave
  {
    diatonic / DiatonicsPerOctave
  }

  /** Semitones of the natural (unaltered) note at a diatonic value. */
  function DiatonicToSemitones(diatonic: int): int
  {
    GetDiatonicOctave(diatonic) * SemitonesPerOctave + ScaleSemitones[SimplifyDiatonic(diatonic)]
  }

  /** A step placed in an octave splits back into that step and octave. */
  lemma StepInOctave(step: int, octave: int)
    requires 0 <= step < DiatonicsPerOctave
    ensures GetDiatonicOctave(step + octave * DiatonicsPerOctave) == octave
    ensures SimplifyDiatonic(step + octave * DiatonicsPerOctave) == step
    ensures DiatonicToSemitones(step + octave * DiatonicsPerOctave)
            == ScaleSemitones[step] + octave * SemitonesPerOctave
  {
    var d := step + octave * DiatonicsPerOctave;
    var q := GetDiatonicOctave(d);
    assert 7 * q <= d < 7 * q + 7;
    assert 7 * octave <= d < 7 * octave + 7;
    assert q == octave;
  }
}
