# Pitch: scientific pitch notation over an exact coordinate

This project is a Dafny model of the `Pitch` value type of the m-theory
music library (`src/Pitch.ts`). A pitch is an integer pair
`(diatonic, semitones)`, both counted from C0:

- `diatonic` counts letter steps, so D0 is 1 and C1 is 7.
- `semitones` counts semitones and includes the accidental.

The model covers:

- parsing scientific pitch notation (`F#6`, `Dbb4`, `c`, `Bx`) into the
  coordinate;
- rendering the coordinate back as letter, accidental, octave, name and
  notation;
- the constructor's choice between a notation string, a semitone count and a
  coordinate.

Files and modules:

- `wrappers.dfy` (`Wrappers`): `Option` and `Result`.
- `constants.dfy` (`Constants`): 7 steps per octave, 12 semitones per octave,
  and the natural semitones `[0, 2, 4, 5, 7, 9, 11]` of C D E F G A B.
- `helpers.dfy` (`Helpers`): the diatonic helpers.
  - `SimplifyDiatonic` is `d % 7`.
  - `GetDiatonicOctave` is `d / 7`.
  - `DiatonicToSemitones` is `12 * (d / 7) + ScaleSemitones[d % 7]`.
  - Dafny's division with a positive divisor rounds down, so negative
    values land in the right octave.
- `number_text.dfy` (`NumberText`): two JavaScript number conversions.
  - `NumberOf` is `Number(text)` on octave text. The empty text gives 0 and
    a lone `-` gives NaN, modelled as `None`.
  - `IntText` is the template-literal rendering of an integer of magnitude
    below 2^53, in plain decimal.
- `pitch.dfy` (`Pitch`): the pitch itself.
  - The two loops of the source are methods with loop invariants.
    `SimpleDiatonicFromLetter` is the letter search and
    `OffsetFromAccidental` is the accidental sum. Each is proved equal to a
    recursive specification function.
  - `ExecSpnRegex` hand-recognises the regular expression
    `^([a-gA-G])([b|#|x]*)?(-?[0-9]*)?$`. It returns the capture groups and
    leaves a group undefined when it would match only empty text, as an
    optional group does. Because of that, a missing octave takes the
    default `'4'`.
  - `ParseSpn` is the specification of `_getCoordFromSpn`; the method
    `CoordFromSpn` computes it with the two loop methods.
  - The datatype `Pitch` carries the rendering accessors.
  - `Construct` specifies the constructor and the method `New` implements
    it.
- `interval_coords.dfy` (`IntervalCoords`): the coordinate test cases of
  `test/Interval.spec.ts`, stated as differences of parsed pitches.

Three behaviours of the code that a reader may not expect, which the model
keeps:

- The accidental class `[b|#|x]` (src/Pitch.ts:8) also admits a literal
  `|`, which adds 0 (`ParseBarAccidental`).
- The constructor (src/Pitch.ts:20-30) chooses by JavaScript truthiness,
  not presence. An empty string and a count of 0 fall through to the next
  source.
- An octave written as a lone `-` matches the expression, and
  `Number('-')` (src/Pitch.ts:41) is NaN. The source then builds a pitch
  with NaN coordinates rather than raising its parse error. The model has
  no NaN, so it reports this case as the failure `OctaveNotANumber`. Any
  other string outside the grammar gives `InvalidSpn`, the source's thrown
  error.

`semitonesToNearestDiatonic` is not visible, so its rule is unknown. The
constructor and `New` take it as a function parameter `nearest` and assume
nothing about it.

## Model

| member | source | states |
|---|---|---|
| Helpers.SimplifyDiatonic | src/Pitch.ts:129-131 | the simple diatonic lies in 0..6 and, with the octave, recomposes the diatonic value (floor semantics for negatives) |
| Helpers.GetDiatonicOctave | src/Pitch.ts:121-123 | the octave is the floor of diatonic / 7: 7*octave <= diatonic < 7*octave + 7 |
| Helpers.StepInOctave | src/Pitch.ts:98-103 | a step placed in an octave splits back into that step and octave, and its natural semitones are table value plus 12 per octave |
| NumberText.NumberOf | src/Pitch.ts:41 | Number() on octave text gives no number exactly for a lone minus sign; unsigned text gives a non-negative number |
| NumberText.NatText | src/Pitch.ts:136-138 | the decimal rendering of a natural is non-empty digits with no leading zero, and reads back as the number |
| NumberText.IntText | src/Pitch.ts:136-138 | the rendered octave is accepted by the octave group, is neither empty nor a lone minus, starts with minus exactly for negatives, and Number() gives it back |
| Pitch.AccidentalSumAppend | src/Pitch.ts:72-82 | the accidental sum is additive over concatenation (so the empty accidental gives 0) |
| Pitch.AccidentalSumCounts | src/Pitch.ts:5 | the left-to-right sum equals the count of `#` plus twice the count of `x` minus the count of `b`; other characters add nothing |
| Pitch.OffsetFromAccidental | src/Pitch.ts:72-82 | the accumulating loop returns the accidental sum, and so the counted offset |
| Pitch.RepeatSum | src/Pitch.ts:84-96 | a run of n copies of one accidental character sums to n times that character's offset |
| Pitch.IndexOfName | src/Pitch.ts:58-70 | the search returns an index below 7; if the name is among the letters from the start point on, it returns a position holding it, otherwise 0 |
| Pitch.SimpleDiatonicFromLetter | src/Pitch.ts:58-70 | the loop with early return and fallback 0 computes the letter lookup |
| Pitch.LetterIndexOfLetter | src/Pitch.ts:58-70 | every letter a-g or A-G is found, at the position of its upper-case form |
| Pitch.LetterInvertsIndex | src/Pitch.ts:7 | looking up the k-th letter name, upper or lower case, gives k |
| Pitch.AccidentalRunEnd | src/Pitch.ts:8 | the greedy accidental run ends at the first non-accidental character or at the end |
| Pitch.RunEndUnique | src/Pitch.ts:8 | a run of accidentals followed by a non-accidental (or the end) is the greedy run |
| Pitch.ExecSpnRegex | src/Pitch.ts:8 | a present octave group is text of the form -?[0-9]* |
| Pitch.ExecSpnRegexCaptures | src/Pitch.ts:34-40 | a match's groups are one letter, a non-empty accidental run and a non-empty octave text, which together make the input |
| Pitch.ExecSpnRegexMatchesGrammar | src/Pitch.ts:8 | the matcher succeeds exactly on letter + accidental characters + octave text |
| Pitch.ExecComposed | src/Pitch.ts:8 | a composed letter, accidental run and octave text are split back into exactly those groups, with empty groups left undefined |
| Pitch.CoordOfComposedMatch | src/Pitch.ts:40-49 | from the groups of a letter with simple diatonic step: diatonic = step + 7*octave and semitones = table[step] + 12*octave + accidental sum, with octave 4 when the group is absent |
| Pitch.ParseComposed | src/Pitch.ts:33-49 | any letter, accidental run and octave text with a number parse to diatonic = step + 7*octave and semitones = table[step] + 12*octave + accidental sum, where step is the letter's simple diatonic (in 0..6); no octave text means octave 4 |
| Pitch.ParseStepNoOctave | src/Pitch.ts:40 | without octave text the octave defaults to 4 |
| Pitch.ParseLoneMinus | src/Pitch.ts:41 | a lone minus as octave matches but yields no integer coordinate |
| Pitch.ParseSpnFailure | src/Pitch.ts:34-38 | parsing fails with the invalid-notation error exactly on strings outside the grammar; every failure carries the input |
| Pitch.ParseSpnRejects | src/Pitch.ts:34-38 | the empty string, a letter outside A-G and trailing junk are rejected; `C-` gives no number |
| Pitch.ParseBarAccidental | src/Pitch.ts:8 | the class `[b|#|x]` admits `|`, which adds nothing: `C|4` is (28, 48) |
| Pitch.ParseMiddleC | src/Pitch.ts:40-49 | `C4` parses to (28, 48) |
| Pitch.CoordFromSpn | src/Pitch.ts:33-50 | the method, built from the two loops, computes the parse specification |
| Pitch.Pitch.SimpleDiatonic | src/Pitch.ts:129-131 | lies in 0..6 and with the octave recomposes the diatonic value |
| Pitch.Pitch.Octave | src/Pitch.ts:121-123 | the octave is the floor of diatonic / 7 |
| Pitch.Pitch.Letter | src/Pitch.ts:113-115 | one letter of CDEFGAB, whose lookup gives back the simple diatonic |
| Pitch.Pitch.Accidental | src/Pitch.ts:84-96 | only `b` for a negative offset, only `#` for a positive one, length equal to the offset's magnitude, empty exactly for offset 0, and its sum is the offset |
| Pitch.PlacedPitch | src/Pitch.ts:98-131 | the pitch at a step, octave and offset has that simple diatonic, octave, accidental offset and letter |
| Pitch.ParsedPitch | src/Pitch.ts:40-47 | a parsed pitch has the upper-cased letter, the written octave (4 if absent), and accidental offset equal to the accidental sum |
| Pitch.NaturalNoteHasNoOffset | src/Pitch.ts:98-103 | a note written without accidentals has accidental offset 0 |
| Pitch.ParseRendered | src/Pitch.ts:136-138 | a rendered letter, accidental and octave parse to the coordinate formula |
| Pitch.ParseDefaultOctave | src/Pitch.ts:40 | a letter and accidental with no octave parse in octave 4 |
| Pitch.SpnRoundTrip | src/Pitch.ts:133-138 | for every coordinate, including negative octaves, parsing the rendered notation succeeds and gives back exactly that coordinate; the source agrees while the octave's magnitude is below 2^53 (see `NumberText.IntText` under Left out) |
| Pitch.NameReparsesInDefaultOctave | src/Pitch.ts:117-119 | the name reparses, in octave 4, with the same letter and accidental offset |
| Pitch.New | src/Pitch.ts:19-31 | the constructor method computes the construction specification |
| Pitch.ConstructSpnWins | src/Pitch.ts:20-23 | a non-empty notation string decides the result whatever else is given; it succeeds exactly when parsing does, with the parsed coordinate, and otherwise fails with the parse's own error |
| Pitch.ConstructSemitonesWin | src/Pitch.ts:25-56 | the constructor branch at lines 25-28 with the helper `_getCoordFromSemitones` at lines 52-56: without a notation string, a non-zero count is stored verbatim as the semitones, at diatonic nearest(count), whatever coordinate is given |
| Pitch.ConstructFallsThrough | src/Pitch.ts:19-31 | an empty or absent string and a zero or absent count fall through to the given coordinate, or to (0, 0) |
| Pitch.ParseFSharp6 | src/Pitch.ts:40-49 | `F#6` parses to (45, 78) |
| Pitch.SpnOfC0 | src/Pitch.ts:136-138 | (0, 0) renders as `C0` |
| Pitch.SpnOfFSharp6 | src/Pitch.ts:136-138 | (45, 78) renders as `F#6` |
| Pitch.RenderingExamples | src/Pitch.ts:19-31 | a count of 0 gives C0, whose notation is `C0`, and `F#6` renders back as `F#6` |
| IntervalCoords.ParseD4 | test/Interval.spec.ts:10 | `D4` parses to (29, 50) |
| IntervalCoords.ParsedDifferences | test/Interval.spec.ts:9-11 | for pitches constructed from the notation strings alone, as the tests build them: C4 to C4 is (0, 0), C4 to D4 is (1, 2), C4 to F#6 is (17, 30) |

## Left out

- `src/Helpers.ts`, `src/constants.ts`, `src/types.ts` and `src/Interval.ts` are not part of this model. The helper and constant definitions above are assumed values.
- `semitonesToNearestDiatonic`: its rule, tie-breaking included, is not visible. It is the uninterpreted parameter `nearest`, so a pitch built from a count promises only to keep the count paired with `nearest(count)`.
- Interval `quality()` and `qualityOffset()`: their definitions are not visible. Only the coordinate cases of the interval tests are stated, as differences of parsed pitches.
- NaN: an octave written as a lone `-` gives a pitch with NaN coordinates in the source. The model reports `OctaveNotANumber` instead, because it has no NaN. A NaN semitone count, which is falsy, is not modelled because counts are integers.
- Floating point: the octave number, the coordinate and the semitone count are JavaScript numbers in the source (src/Pitch.ts:10-14, 41) and exact `int`s here. Fractional, infinite and NaN values are not modelled, nor is the truncation `'b'.repeat` and `'#'.repeat` apply to a fractional count (src/Pitch.ts:88, 92), nor the loss of precision of `Number()` past 2^53. `'b'.repeat` and `'#'.repeat` throw a RangeError once the offset exceeds the engine's maximum string length, so in the source `accidental()`, `name()` and `spn()` throw for huge offsets, while the model's `Accidental()` is total.
- NumberText.IntText: renders every integer in exact plain decimal, which matches JavaScript only below magnitude 2^53. From 2^53 on, JavaScript writes the shortest digits that identify the double, padded with zeros (`${2**60}` is `1152921504606847000`, where `IntText` gives `1152921504606846976`), and the source's coordinate arithmetic is no longer exact. From 10^21 on it writes exponent form (`1e+21`), which the octave group `-?[0-9]*` rejects, so the source's `spn()` stops parsing back at all. `SpnRoundTrip` holds for every octave in the model, but it describes the source only below 2^53.
- Pitch.SimpleDiatonicFromLetter: `toUpperCase` is modelled for ASCII letters only, not full Unicode case mapping. The method only ever receives one letter from `[a-gA-G]`.
- Aliasing: `coord()` returns the internal array by reference. The model holds the coordinate as an immutable pair, and the accessors `coord`, `diatonic` and `semitones` are plain field reads without contracts.
- Error message text and exception type: failures are `Result` values carrying the input string.
