/**
 * The constants the pitch code imports (src/constants.ts is not part of
 * this model; these are the values it is assumed to hold).
 */
module Constants {

  /** Letter steps in one octave. */
  const DiatonicsPerOctave: int := 7

  /** Semitones in one octave (twelve-tone equal temperament). */
  const SemitonesPerOctave: int := 12

  /** Semitones above C of each natural step C D E F G A B (the major scale). */
  const ScaleSemitones: seq<int> := [0, 2, 4, 5, 7, 9, 11]
}
