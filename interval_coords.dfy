/**
 * The coordinate of an interval is the component-wise difference of its end
 * and start pitches (src/Interval.ts is not part of this model; only the
 * coordinate cases of its tests are stated here, over constructed pitches).
 */
module IntervalCoords {
  import opened Wrappers
  import opened Pitch

  /** Letter steps and semitones from `start` up to `end`. */
  function Between(start: Coord, end: Coord): Coord {
    Coord(end.diatonic - start.diatonic, end.semitones - start.semitones)
  }

  lemma ParseD4()
    ensures ParseSpn("D4") == Success(Coord(29, 50))
  {
  }

  /**
   * C4 to C4 is (0, 0), C4 to D4 is (1, 2), C4 to F#6 is (17, 30), for
   * pitches built as the tests build them, from a notation string alone.
   */
  lemma ParsedDifferences(nearest: int -> int)
    ensures var c4 := Construct(Props(None, None, Some("C4")), nearest);
            var d4 := Construct(Props(None, None, Some("D4")), nearest);
            var fs6 := Construct(Props(None, None, Some("F#6")), nearest);
            c4.Success? && d4.Success? && fs6.Success? &&
            Between(c4.value.coord, c4.value.coord) == Coord(0, 0) &&
            Between(c4.value.coord, d4.value.coord) == Coord(1, 2) &&
            Between(c4.value.coord, fs6.value.coord) == Coord(17, 30)
  {
    ParseMiddleC();
    ParseD4();
    ParseFSharp6();
  }
}
