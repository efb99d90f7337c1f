/**
 * A pitch in scientific pitch notation (`F#6`, `Dbb4`) held as an exact
 * integer coordinate: `diatonic` counts letter steps from C0 and
 * `semitones` counts semitones from C0, accidentals included.
 */
module Pitch {
  import opened Wrappers
  import opened Constants
  import opened Helpers
  import opened NumberText

  /** Letter names in diatonic order; index 0 is C. */
  const PitchNames: string := "CDEFGAB"

  datatype Coord = Coord(diatonic: int, semitones: int)

  /** The coordinate used when the constructor is given nothing (C0). */
  const DefaultCoord: Coord := Coord(0, 0)

  /**
   * Why a notation string yields no coordinate: it does not match the
   * grammar, or its octave text is a lone minus sign (NaN).
   */
  datatype ParseError = InvalidSpn(spn: string) | OctaveNotANumber(spn: string)

  // ---------------------------------------------------------------------
  // Accidentals
  // ---------------------------------------------------------------------

  /** Semitone offset of one accidental character; unknown characters add 0. */
  function CharOffset(c: char): int {
    if c == 'b' then -1
    else if c == '#' then 1
    else if c == 'x' then 2
    else 0
  }

  /** Sum of the character offsets, taken left to right. */
  function AccidentalSum(accidental: string): int
  {
    if accidental == [] then 0
    else AccidentalSum(accidental[..|accidental| - 1]) + CharOffset(accidental[|accidental| - 1])
  }

  /** The sum is additive over concatenation. */
  lemma {:induction false} AccidentalSumAppend(a: string, b: string)
    ensures AccidentalSum(a + b) == AccidentalSum(a) + AccidentalSum(b)
    decreases |b|
  {
    if b == [] {
      assert a + b == a;
    } else {
      var init := b[..|b| - 1];
      assert (a + b)[..|a + b| - 1] == a + init;
      AccidentalSumAppend(a, init);
    }
  }

  /**
   * Reference definition of the accidental offset by counting: one up for
   * each `#`, two up for each `x`, one down for each `b`.
   */
  function CountedOffset(accidental: string): int {
    var m := multiset(accidental);
    m['#'] as int + 2 * m['x'] as int - m['b'] as int
  }

  /** The left-to-right sum equals the counted offset. */
  lemma {:induction false} AccidentalSumCounts(accidental: string)
    ensures AccidentalSum(accidental) == CountedOffset(accidental)
  {
    if accidental != [] {
      var init := accidental[..|accidental| - 1];
      var last := accidental[|accidental| - 1];
      assert accidental == init + [last];
      assert multiset(accidental) == multiset(init) + multiset{last};
      AccidentalSumCounts(init);
    }
  }

  /** The accumulating loop of the source; its result is the accidental sum. */
  method OffsetFromAccidental(accidental: string) returns (totalOffset: int)
    ensures totalOffset == AccidentalSum(accidental)
    ensures totalOffset == CountedOffset(accidental)
  {
    totalOffset := 0;
    for i := 0 to |accidental|
      invariant totalOffset == AccidentalSum(accidental[..i])
    {
      assert accidental[..i + 1][..i] == accidental[..i];
      totalOffset := totalOffset + CharOffset(accidental[i]);
    }
    assert accidental[..|accidental|] == accidental;
    AccidentalSumCounts(accidental);
  }

  /** `c` repeated `n` times. */
  function Repeat(c: char, n: nat): (r: string)
    ensures |r| == n
    ensures forall i :: 0 <= i < n ==> r[i] == c
  {
    if n == 0 then [] else Repeat(c, n - 1) + [c]
  }

  lemma {:induction false} RepeatSum(c: char, n: nat)
    ensures AccidentalSum(Repeat(c, n))
            == if c == 'b' then -(n as int) else if c == '#' then n else if c == 'x' then 2 * n else 0
  {
    if n > 0 {
      assert Repeat(c, n)[..n - 1] == Repeat(c, n - 1);
      RepeatSum(c, n - 1);
    }
  }

  // ---------------------------------------------------------------------
  // Letters
  // ---------------------------------------------------------------------

  /** The letters the notation grammar accepts, `[a-gA-G]`. */
  predicate IsSpnLetter(c: char) {
    'a' <= c <= 'g' || 'A' <= c <= 'G'
  }

  /** Upper-casing of one character (ASCII letters only). */
  function UpperChar(c: char): char {
    if 'a' <= c <= 'z' then (c as int - 32) as char else c
  }

  /** Lower-casing of one character (ASCII letters only). */
  function LowerChar(c: char): char {
    if 'A' <= c <= 'Z' then (c as int + 32) as char else c
  }

  function ToUpper(s: string): string {
    seq(|s|, i requires 0 <= i < |s| => UpperChar(s[i]))
  }

  /**
   * Position of `upperName` among the letter names from `from` on, or 0
   * when none of them is equal to it.
   */
  function IndexOfName(upperName: string, from: nat): (r: nat)
    requires from <= |PitchNames|
    ensures r < |PitchNames|
    ensures (exists k :: from <= k < |PitchNames| && [PitchNames[k]] == upperName) ==>
              from <= r && [PitchNames[r]] == upperName
    ensures (forall k :: from <= k < |PitchNames| ==> [PitchNames[k]] != upperName) ==> r == 0
    decreases |PitchNames| - from
  {
    if from == |PitchNames| then 0
    else if [PitchNames[from]] == upperName then from
    else IndexOfName(upperName, from + 1)
  }

  /** The simple diatonic (0 = C .. 6 = B) of a letter, in either case. */
  function LetterIndex(name: string): (r: nat)
    ensures r < |PitchNames|
  {
    IndexOfName(ToUpper(name), 0)
  }

  /** The searching loop of the source, with its early return and fallback 0. */
  method SimpleDiatonicFromLetter(name: string) returns (index: nat)
    ensures index == LetterIndex(name)
  {
    var upperName := ToUpper(name);
    for i := 0 to |PitchNames|
      invariant IndexOfName(upperName, i) == IndexOfName(upperName, 0)
    {
      var curName := [PitchNames[i]];
      if curName == upperName {
        return i;
      }
    }
    return 0;
  }

  /** The letter names are pairwise different. */
  lemma PitchNamesDistinct(i: nat, j: nat)
    requires i < |PitchNames| && j < |PitchNames| && PitchNames[i] == PitchNames[j]
    ensures i == j
  {
  }

  /**
   * Every letter of the grammar is found, in either case, at the position
   * of its upper-case form (the fallback 0 is never taken for it).
   */
  lemma LetterIndexOfLetter(c: char)
    requires IsSpnLetter(c)
    ensures PitchNames[LetterIndex([c])] == UpperChar(c)
  {
    var u := UpperChar(c);
    assert ToUpper([c]) == [u];
    var k: nat := if u == 'C' then 0 else if u == 'D' then 1 else if u == 'E' then 2
                  else if u == 'F' then 3 else if u == 'G' then 4 else if u == 'A' then 5 else 6;
    assert PitchNames[k] == u;
    assert [PitchNames[k]] == ToUpper([c]);
  }

  /** Lookup inverts the letter names: position k is found at k, in either case. */
  lemma LetterInvertsIndex(k: nat)
    requires k < |PitchNames|
    ensures IsSpnLetter(PitchNames[k])
    ensures LetterIndex([PitchNames[k]]) == k
    ensures LetterIndex([LowerChar(PitchNames[k])]) == k
  {
    var c := PitchNames[k];
    assert IsSpnLetter(c) && IsSpnLetter(LowerChar(c));
    assert UpperChar(LowerChar(c)) == c;
    LetterIndexOfLetter(c);
    PitchNamesDistinct(LetterIndex([c]), k);
    LetterIndexOfLetter(LowerChar(c));
    PitchNamesDistinct(LetterIndex([LowerChar(c)]), k);
  }

  // ---------------------------------------------------------------------
  // The notation grammar `^([a-gA-G])([b|#|x]*)?(-?[0-9]*)?$`
  // ---------------------------------------------------------------------

  /** The accidental character class; it also admits a literal `|`. */
  predicate IsAccidentalChar(c: char) {
    c == 'b' || c == '|' || c == '#' || c == 'x'
  }

  predicate AllAccidental(s: string) {
    forall i :: 0 <= i < |s| ==> IsAccidentalChar(s[i])
  }

  /** End of the longest run of accidental characters starting at `from`. */
  function AccidentalRunEnd(s: string, from: nat): (j: nat)
    requires from <= |s|
    ensures from <= j <= |s|
    ensures AllAccidental(s[from..j])
    ensures j < |s| ==> !IsAccidentalChar(s[j])
    decreases |s| - from
  {
    if from < |s| && IsAccidentalChar(s[from]) then AccidentalRunEnd(s, from + 1) else from
  }

  /** A run of accidentals that is followed by a non-accidental or the end is the longest run. */
  lemma {:induction false} RunEndUnique(s: string, from: nat, k: nat)
    requires from <= k <= |s|
    requires AllAccidental(s[from..k])
    requires k < |s| ==> !IsAccidentalChar(s[k])
    ensures AccidentalRunEnd(s, from) == k
    decreases k - from
  {
    if from < k {
      assert s[from..k][0] == s[from];
      assert s[from + 1..k] == s[from..k][1..];
      RunEndUnique(s, from + 1, k);
    }
  }

  /**
   * The capture groups of a successful match: the letter, and the
   * accidental and octave groups, `None` where the group took no part.
   */
  datatype SpnMatch = SpnMatch(letter: string, accidental: Option<string>, octave: Option<string>)

  /** The grammar, stated as the existence of a split point. */
  ghost predicate MatchesSpnGrammar(spn: string) {
    |spn| >= 1 && IsSpnLetter(spn[0]) &&
    exists j :: 1 <= j <= |spn| && AllAccidental(spn[1..j]) && IsOctaveText(spn[j..])
  }

  /**
   * The regular expression matcher, specialised to the notation grammar.
   * The accidental and octave character sets are disjoint, so the greedy
   * accidental run decides the split. A group that would match only the
   * empty text is left out of the match, as an optional group is.
   */
  function ExecSpnRegex(spn: string): (m: Option<SpnMatch>)
    ensures m.Some? && m.value.octave.Some? ==> IsOctaveText(m.value.octave.value)
  {
    if |spn| == 0 || !IsSpnLetter(spn[0]) then None
    else
      var j := AccidentalRunEnd(spn, 1);
      var rest := spn[j..];
      if !IsOctaveText(rest) then None
      else
        Some(SpnMatch(spn[..1], if j == 1 then None else Some(spn[1..j]),
                      if rest == [] then None else Some(rest)))
  }

  /**
   * The groups of a match are one letter, a non-empty accidental run and a
   * non-empty octave text, and together they are the whole input.
   */
  lemma ExecSpnRegexCaptures(spn: string)
    requires ExecSpnRegex(spn).Some?
    ensures var m := ExecSpnRegex(spn).value;
            |m.letter| == 1 && IsSpnLetter(m.letter[0]) &&
            (m.accidental.Some? ==> m.accidental.value != "" && AllAccidental(m.accidental.value)) &&
            (m.octave.Some? ==> m.octave.value != "" && IsOctaveText(m.octave.value)) &&
            m.letter + m.accidental.GetOr("") + m.octave.GetOr("") == spn
  {
    var j := AccidentalRunEnd(spn, 1);
    assert spn[..1] + spn[1..j] + spn[j..] == spn;
  }

  /** The matcher succeeds exactly on the strings of the grammar. */
  lemma ExecSpnRegexMatchesGrammar(spn: string)
    ensures ExecSpnRegex(spn).Some? <==> MatchesSpnGrammar(spn)
  {
    if ExecSpnRegex(spn).Some? {
      var j := AccidentalRunEnd(spn, 1);
      assert AllAccidental(spn[1..j]) && IsOctaveText(spn[j..]);
    }
    if MatchesSpnGrammar(spn) {
      var j :| 1 <= j <= |spn| && AllAccidental(spn[1..j]) && IsOctaveText(spn[j..]);
      if j < |spn| {
        assert spn[j..][0] == spn[j];
        assert !IsAccidentalChar(spn[j]);
      }
      RunEndUnique(spn, 1, j);
    }
  }

  // ---------------------------------------------------------------------
  // Parsing scientific pitch notation
  // ---------------------------------------------------------------------

  /**
   * The coordinate a notation string denotes: the letter's step plus seven
   * per octave, and the step's natural semitones plus twelve per octave plus
   * the accidental sum. A missing octave means octave 4.
   */
  function ParseSpn(spn: string): Result<Coord, ParseError>
  {
    match ExecSpnRegex(spn)
    case None => Failure(InvalidSpn(spn))
    case Some(m) => CoordOfMatch(spn, m)
  }

  /** The coordinate of the capture groups of a successful match of `spn`. */
  function CoordOfMatch(spn: string, m: SpnMatch): Result<Coord, ParseError>
    requires m.octave.Some? ==> IsOctaveText(m.octave.value)
  {
    var octaveText := m.octave.GetOr("4");
    match NumberOf(octaveText)
    case None => Failure(OctaveNotANumber(spn))
    case Some(octaveNum) =>
      var simpleDiatonic := LetterIndex(m.letter);
      var diatonic := simpleDiatonic + octaveNum * DiatonicsPerOctave;
      var semitones := ScaleSemitones[simpleDiatonic] + octaveNum * SemitonesPerOctave
                       + AccidentalSum(m.accidental.GetOr(""));
      Success(Coord(diatonic, semitones))
  }

  /** The octave a well-formed octave text denotes, 4 when it is empty. */
  ghost predicate OctaveTextMeans(octave: string, value: int)
    requires IsOctaveText(octave)
  {
    if octave == "" then value == 4 else NumberOf(octave) == Some(value)
  }

  /** The matcher splits a composed string back into its three parts. */
  lemma ExecComposed(letter: char, accidental: string, octave: string)
    requires IsSpnLetter(letter) && AllAccidental(accidental) && IsOctaveText(octave)
    ensures ExecSpnRegex([letter] + accidental + octave)
            == Some(SpnMatch([letter], if accidental == "" then None else Some(accidental),
                             if octave == "" then None else Some(octave)))
  {
    var spn := [letter] + accidental + octave;
    var k := 1 + |accidental|;
    assert spn[1..k] == accidental;
    assert spn[k..] == octave;
    assert spn[..1] == [letter];
    if k < |spn| {
      assert spn[k] == octave[0];
    }
    RunEndUnique(spn, 1, k);
  }

  /** The match of a composed string denotes the coordinate formula. */
  lemma CoordOfComposedMatch(spn: string, letter: char, step: int, accidental: string, octave: string,
                             value: int)
    requires LetterIndex([letter]) == step
    requires IsOctaveText(octave) && OctaveTextMeans(octave, value)
    ensures CoordOfMatch(spn, SpnMatch([letter], if accidental == "" then None else Some(accidental),
                                       if octave == "" then None else Some(octave)))
            == Success(Coord(step + value * DiatonicsPerOctave,
                             ScaleSemitones[step] + value * SemitonesPerOctave + AccidentalSum(accidental)))
  {
    var octaveText := if octave == "" then "4" else octave;
    assert NumberOf(octaveText) == Some(value) by {
      if octave == "" {
        assert "4"[..0] == "";
      }
    }
  }

  /**
   * Any letter, any accidental run and any octave text with a number parse
   * to the coordinate formula, where `step` is the letter's simple diatonic.
   */
  lemma ParseComposed(letter: char, step: int, accidental: string, octave: string, value: int)
    requires IsSpnLetter(letter) && LetterIndex([letter]) == step
    requires AllAccidental(accidental) && IsOctaveText(octave) && OctaveTextMeans(octave, value)
    ensures 0 <= step < DiatonicsPerOctave
    ensures ParseSpn([letter] + accidental + octave)
            == Success(Coord(step + value * DiatonicsPerOctave,
                             ScaleSemitones[step] + value * SemitonesPerOctave + AccidentalSum(accidental)))
  {
    var spn := [letter] + accidental + octave;
    var m := SpnMatch([letter], if accidental == "" then None else Some(accidental),
                      if octave == "" then None else Some(octave));
    ExecComposed(letter, accidental, octave);
    assert ParseSpn(spn) == CoordOfMatch(spn, m);
    CoordOfComposedMatch(spn, letter, step, accidental, octave, value);
  }

  /** `ParseComposed` without octave text: the default octave 4. */
  lemma ParseStepNoOctave(letter: char, step: int, accidental: string)
    requires IsSpnLetter(letter) && LetterIndex([letter]) == step && AllAccidental(accidental)
    ensures 0 <= step < DiatonicsPerOctave
    ensures ParseSpn([letter] + accidental)
            == Success(Coord(step + 4 * DiatonicsPerOctave,
                             ScaleSemitones[step] + 4 * SemitonesPerOctave + AccidentalSum(accidental)))
  {
    ParseComposed(letter, step, accidental, "", 4);
    assert [letter] + accidental + "" == [letter] + accidental;
  }

  /** A lone minus sign as octave matches the grammar but gives no number. */
  lemma ParseLoneMinus(letter: char, accidental: string)
    requires IsSpnLetter(letter) && AllAccidental(accidental)
    ensures ParseSpn([letter] + accidental + "-") == Failure(OctaveNotANumber([letter] + accidental + "-"))
  {
    ExecComposed(letter, accidental, "-");
  }

  /**
   * Parsing fails with `InvalidSpn` exactly on strings outside the grammar,
   * and every failure names the offending input.
   */
  lemma ParseSpnFailure(spn: string)
    ensures ParseSpn(spn) == Failure(InvalidSpn(spn)) <==> !MatchesSpnGrammar(spn)
    ensures ParseSpn(spn).Failure? ==> ParseSpn(spn).error.spn == spn
  {
    ExecSpnRegexMatchesGrammar(spn);
  }

  /** Inputs the grammar refuses: no letter, a letter outside A-G, trailing junk. */
  lemma ParseSpnRejects()
    ensures ParseSpn("") == Failure(InvalidSpn(""))
    ensures ParseSpn("H4") == Failure(InvalidSpn("H4"))
    ensures ParseSpn("C4!") == Failure(InvalidSpn("C4!"))
    ensures ParseSpn("C-") == Failure(OctaveNotANumber("C-"))
  {
    ParseSpnFailure("H4");
    assert !IsSpnLetter("H4"[0]);
    var junk := "C4!";
    assert AccidentalRunEnd(junk, 1) == 1;
    assert !IsOctaveText(junk[1..]) by {
      assert junk[1..][1] == '!';
    }
    ParseLoneMinus('C', "");
    assert ['C'] + "" + "-" == "C-";
  }

  /** The literal `|` is admitted by the accidental class and adds nothing. */
  lemma ParseBarAccidental()
    ensures ParseSpn("C|4") == Success(Coord(28, 48))
  {
  }

  /** Middle C: letter C in octave 4, natural. */
  lemma ParseMiddleC()
    ensures ParseSpn("C4") == Success(Coord(28, 48))
  {
  }

  /** The method the constructor uses; it computes `ParseSpn`. */
  method CoordFromSpn(spn: string) returns (r: Result<Coord, ParseError>)
    ensures r == ParseSpn(spn)
  {
    var parsed := ExecSpnRegex(spn);
    if parsed.None? {
      return Failure(InvalidSpn(spn));
    }
    var m := parsed.value;
    var accidental := m.accidental.GetOr("");
    var octave := m.octave.GetOr("4");
    var octaveNum := NumberOf(octave);
    if octaveNum.None? {
      return Failure(OctaveNotANumber(spn));
    }
    var simpleDiatonic := SimpleDiatonicFromLetter(m.letter);
    var diatonic := simpleDiatonic + octaveNum.value * DiatonicsPerOctave;
    var simpleSemitones := ScaleSemitones[simpleDiatonic];
    var octaveOffset := octaveNum.value * SemitonesPerOctave;
    var accidentalOffset := OffsetFromAccidental(accidental);
    var semitones := simpleSemitones + octaveOffset + accidentalOffset;
    return Success(Coord(diatonic, semitones));
  }

  // ---------------------------------------------------------------------
  // The pitch value and its renderings
  // ---------------------------------------------------------------------

  datatype Pitch = Pitch(coord: Coord) {

    function Diatonic(): int {
      coord.diatonic
    }

    function Semitones(): int {
      coord.semitones
    }

    /** The step within the octave, 0 = C .. 6 = B. */
    function SimpleDiatonic(): (step: int)
      ensures 0 <= step < DiatonicsPerOctave
      ensures Diatonic() == Octave() * DiatonicsPerOctave + step
    {
      SimplifyDiatonic(Diatonic())
    }

    /** The octave number, rounded towards negative infinity. */
    function Octave(): (octave: int)
      ensures octave * DiatonicsPerOctave <= Diatonic() < (octave + 1) * DiatonicsPerOctave
    {
      GetDiatonicOctave(Diatonic())
    }

    /** The letter name; looking it up gives back the simple diatonic. */
    function Letter(): (name: string)
      ensures |name| == 1 && name[0] in PitchNames
      ensures LetterIndex(name) == SimpleDiatonic()
    {
      LetterInvertsIndex(SimpleDiatonic());
      [PitchNames[SimpleDiatonic()]]
    }

    /** How far the pitch lies above the natural note of its letter and octave. */
    function AccidentalOffset(): int {
      Semitones() - DiatonicToSemitones(Diatonic())
    }

    /**
     * A run of `b` for a negative offset or of `#` for a positive one, as
     * long as the offset is large, and empty for a natural; reading it back
     * gives the offset.
     */
    function Accidental(): (acc: string)
      ensures |acc| == if AccidentalOffset() < 0 then -AccidentalOffset() else AccidentalOffset()
      ensures AccidentalOffset() < 0 ==> forall i :: 0 <= i < |acc| ==> acc[i] == 'b'
      ensures AccidentalOffset() > 0 ==> forall i :: 0 <= i < |acc| ==> acc[i] == '#'
      ensures acc == "" <==> AccidentalOffset() == 0
      ensures AllAccidental(acc)
      ensures AccidentalSum(acc) == AccidentalOffset()
    {
      var offset := AccidentalOffset();
      if offset < 0 then
        RepeatSum('b', -offset);
        Repeat('b', -offset)
      else if offset > 0 then
        RepeatSum('#', offset);
        Repeat('#', offset)
      else
        ""
    }

    function Name(): string {
      Letter() + Accidental()
    }

    /** Scientific pitch notation: letter, accidental and octave number. */
    function Spn(): string {
      Letter() + Accidental() + IntText(Octave())
    }
  }

  /** The pitch at a step, octave and offset renders those three back. */
  lemma PlacedPitch(step: int, octave: int, offset: int)
    requires 0 <= step < DiatonicsPerOctave
    ensures var p := Pitch(Coord(step + octave * DiatonicsPerOctave,
                                 ScaleSemitones[step] + octave * SemitonesPerOctave + offset));
            p.SimpleDiatonic() == step && p.Octave() == octave && p.AccidentalOffset() == offset &&
            p.Letter() == [PitchNames[step]]
  {
    StepInOctave(step, octave);
  }

  /**
   * A parsed pitch has the upper-cased letter, the given octave, and the
   * accidental sum of its text as accidental offset.
   */
  lemma ParsedPitch(letter: char, accidental: string, octave: string, value: int)
    requires IsSpnLetter(letter) && AllAccidental(accidental) && IsOctaveText(octave)
    requires OctaveTextMeans(octave, value)
    ensures ParseSpn([letter] + accidental + octave).Success?
    ensures var p := Pitch(ParseSpn([letter] + accidental + octave).value);
            p.Letter() == [UpperChar(letter)] &&
            p.Octave() == value &&
            p.AccidentalOffset() == AccidentalSum(accidental)
  {
    var k := LetterIndex([letter]);
    ParseComposed(letter, k, accidental, octave, value);
    PlacedPitch(k, value, AccidentalSum(accidental));
    LetterIndexOfLetter(letter);
  }

  /** A note written without accidentals is natural. */
  lemma NaturalNoteHasNoOffset(letter: char, octave: string, value: int)
    requires IsSpnLetter(letter) && IsOctaveText(octave)
    requires OctaveTextMeans(octave, value)
    ensures ParseSpn([letter] + octave).Success?
    ensures Pitch(ParseSpn([letter] + octave).value).AccidentalOffset() == 0
  {
    assert [letter] + "" + octave == [letter] + octave;
    ParsedPitch(letter, "", octave, value);
  }

  /** A rendered letter, accidental and octave parse to the coordinate formula. */
  lemma ParseRendered(step: int, accidental: string, octave: int)
    requires 0 <= step < DiatonicsPerOctave && AllAccidental(accidental)
    ensures ParseSpn([PitchNames[step]] + accidental + IntText(octave))
            == Success(Coord(step + octave * DiatonicsPerOctave,
                             ScaleSemitones[step] + octave * SemitonesPerOctave + AccidentalSum(accidental)))
  {
    LetterInvertsIndex(step);
    ParseComposed(PitchNames[step], step, accidental, IntText(octave), octave);
  }

  /** A letter and accidental without octave parse in octave 4. */
  lemma ParseDefaultOctave(step: int, accidental: string)
    requires 0 <= step < DiatonicsPerOctave && AllAccidental(accidental)
    ensures ParseSpn([PitchNames[step]] + accidental)
            == Success(Coord(step + 4 * DiatonicsPerOctave,
                             ScaleSemitones[step] + 4 * SemitonesPerOctave + AccidentalSum(accidental)))
  {
    LetterInvertsIndex(step);
    ParseStepNoOctave(PitchNames[step], step, accidental);
  }

  /** Rendering then parsing gives back the coordinate, for every coordinate. */
  lemma SpnRoundTrip(p: Pitch)
    ensures ParseSpn(p.Spn()) == Success(p.coord)
  {
    var k := p.SimpleDiatonic();
    var o := p.Octave();
    var acc := p.Accidental();
    StepInOctave(k, o);
    assert p.Diatonic() == k + o * DiatonicsPerOctave;
    assert DiatonicToSemitones(p.Diatonic()) == ScaleSemitones[k] + o * SemitonesPerOctave;
    assert p.coord == Coord(k + o * DiatonicsPerOctave,
                            ScaleSemitones[k] + o * SemitonesPerOctave + AccidentalSum(acc));
    var spn := [PitchNames[k]] + acc + IntText(o);
    assert p.Spn() == spn;
    ParseRendered(k, acc, o);
  }

  /** The name reparses, in the default octave 4, with the same letter and offset. */
  lemma NameReparsesInDefaultOctave(p: Pitch)
    ensures ParseSpn(p.Name()).Success?
    ensures var q := Pitch(ParseSpn(p.Name()).value);
            q.SimpleDiatonic() == p.SimpleDiatonic() &&
            q.Octave() == 4 &&
            q.AccidentalOffset() == p.AccidentalOffset()
  {
    var k := p.SimpleDiatonic();
    var acc := p.Accidental();
    var spn := [PitchNames[k]] + acc;
    assert p.Name() == spn;
    ParseDefaultOctave(k, acc);
    PlacedPitch(k, 4, AccidentalSum(acc));
  }

  // ---------------------------------------------------------------------
  // Construction
  // ---------------------------------------------------------------------

  /** The optional constructor arguments; `None` is an absent property. */
  datatype Props = Props(coord: Option<Coord>, semitones: Option<int>, spn: Option<string>)

  /**
   * The coordinate for a bare semitone count: the count itself, spelled at
   * the diatonic `nearest` chooses (the nearest-diatonic helper, whose rule
   * is not part of this model).
   */
  function CoordFromSemitones(semitones: int, nearest: int -> int): Coord {
    Coord(nearest(semitones), semitones)
  }

  /**
   * Which source the constructor uses: a non-empty notation string, else a
   * non-zero semitone count, else the coordinate, else C0. Absent, empty
   * and zero are all passed over alike.
   */
  function Construct(props: Props, nearest: int -> int): Result<Pitch, ParseError> {
    if props.spn.Some? && props.spn.value != "" then
      match ParseSpn(props.spn.value)
      case Success(c) => Success(Pitch(c))
      case Failure(e) => Failure(e)
    else if props.semitones.Some? && props.semitones.value != 0 then
      Success(Pitch(CoordFromSemitones(props.semitones.value, nearest)))
    else
      Success(Pitch(props.coord.GetOr(DefaultCoord)))
  }

  /** The constructor: picks its source and fills the coordinate once. */
  method New(props: Props, nearest: int -> int) returns (r: Result<Pitch, ParseError>)
    ensures r == Construct(props, nearest)
  {
    if props.spn.Some? && props.spn.value != "" {
      var parsed := CoordFromSpn(props.spn.value);
      if parsed.Failure? {
        return Failure(parsed.error);
      }
      return Success(Pitch(parsed.value));
    }
    if props.semitones.Some? && props.semitones.value != 0 {
      return Success(Pitch(CoordFromSemitones(props.semitones.value, nearest)));
    }
    return Success(Pitch(props.coord.GetOr(DefaultCoord)));
  }

  /** A non-empty notation string wins over the other two properties. */
  lemma ConstructSpnWins(props: Props, other: Props, nearest: int -> int)
    requires props.spn.Some? && props.spn.value != "" && other.spn == props.spn
    ensures Construct(props, nearest) == Construct(other, nearest)
    ensures Construct(props, nearest).Success? <==> ParseSpn(props.spn.value).Success?
    ensures Construct(props, nearest).Success? ==>
              Construct(props, nearest).value.coord == ParseSpn(props.spn.value).value
    ensures Construct(props, nearest).Failure? ==>
              Construct(props, nearest).error == ParseSpn(props.spn.value).error
  {
  }

  /**
   * Without a notation string, a non-zero semitone count is stored verbatim
   * at the nearest diatonic, whatever coordinate is given.
   */
  lemma ConstructSemitonesWin(props: Props, nearest: int -> int)
    requires props.spn.None? || props.spn == Some("")
    requires props.semitones.Some? && props.semitones.value != 0
    ensures Construct(props, nearest).Success?
    ensures Construct(props, nearest).value.Semitones() == props.semitones.value
    ensures Construct(props, nearest).value.Diatonic() == nearest(props.semitones.value)
  {
  }

  /** An empty string and a zero count fall through to the coordinate, then to C0. */
  lemma ConstructFallsThrough(props: Props, nearest: int -> int)
    requires props.spn.None? || props.spn == Some("")
    requires props.semitones.None? || props.semitones == Some(0)
    ensures Construct(props, nearest)
            == Success(Pitch(if props.coord.Some? then props.coord.value else Coord(0, 0)))
  {
  }

  /** F#6: letter F in octave 6, one sharp. */
  lemma ParseFSharp6()
    ensures ParseSpn("F#6") == Success(Coord(45, 78))
  {
  }

  lemma SpnOfC0()
    ensures Pitch(Coord(0, 0)).Spn() == "C0"
  {
  }

  lemma SpnOfFSharp6()
    ensures Pitch(Coord(45, 78)).Spn() == "F#6"
  {
  }

  /** `Pitch(semitones: 0)` is C0 and `Pitch(spn: "F#6")` renders as `F#6`. */
  lemma RenderingExamples(nearest: int -> int)
    ensures Construct(Props(None, Some(0), None), nearest).Success?
    ensures Construct(Props(None, Some(0), None), nearest).value.Spn() == "C0"
    ensures ParseSpn("F#6").Success? && Pitch(ParseSpn("F#6").value).Spn() == "F#6"
  {
    var props := Props(None, Some(0), None);
    ConstructFallsThrough(props, nearest);
    assert Construct(props, nearest) == Success(Pitch(Coord(0, 0)));
    SpnOfC0();
    ParseFSharp6();
    SpnOfFSharp6();
  }
}
