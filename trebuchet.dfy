/**
 * Day 1: trebuchet calibration. Every line hides digits, written as
 * numerals or spelled out ("one" … "nine"); the calibration value of a
 * line is its first digit followed by its last, and the answer is their sum.
 * The matches are found by an Aho-Corasick automaton over the eighteen
 * patterns below, reporting overlapping matches; the model takes the list
 * of matched pattern indices, in the automaton's order, as its input.
 */
module Trebuchet {
  import opened Text

  /** The eighteen patterns, by index: the nine names, then the nine numerals. */
  function Patterns(): (ps: seq<string>)
    ensures |ps| == 18
  {
    ["one", "two", "three", "four", "five", "six", "seven", "eight", "nine",
     "1", "2", "3", "4", "5", "6", "7", "8", "9"]
  }

  /** The English name of each digit from 1 to 9. */
  function DigitName(d: nat): string
    requires 1 <= d <= 9
  {
    match d
    case 1 => "one"
    case 2 => "two"
    case 3 => "three"
    case 4 => "four"
    case 5 => "five"
    case 6 => "six"
    case 7 => "seven"
    case 8 => "eight"
    case _ => "nine"
  }

  /** The digit a pattern index stands for; an index beyond the eighteen patterns gives 0. */
  function PatternDigit(idx: nat): (d: nat)
    ensures idx < 18 <==> 1 <= d <= 9
    ensures idx >= 18 ==> d == 0
  {
    if idx <= 8 then idx + 1
    else if idx <= 17 then idx - 8
    else 0
  }

  /** Each pattern is the name or the numeral of the digit its index gives. */
  lemma PatternNamesItsDigit(idx: nat)
    requires idx < 18
    ensures idx < 9 ==> Patterns()[idx] == DigitName(PatternDigit(idx))
    ensures idx >= 9 ==> Patterns()[idx] == [DigitChar(PatternDigit(idx))]
  {
  }

  /** Every digit from 1 to 9 has exactly its two patterns, its name and its numeral. */
  lemma {:induction false} PatternsOfDigit(d: nat, idx: nat)
    requires 1 <= d <= 9 && idx < 18
    ensures PatternDigit(idx) == d <==> idx == d - 1 || idx == d + 8
  {
  }

  /** The pair of digits `parse_calibration_string` combines: none, the one match twice, or the first and the last. */
  function FirstAndLast(matches: seq<nat>): (pair: (nat, nat))
    ensures matches == [] ==> pair == (0, 0)
    ensures matches != [] ==> pair == (PatternDigit(matches[0]), PatternDigit(matches[|matches| - 1]))
  {
    match |matches|
    case 0 => (0, 0)
    case 1 => (PatternDigit(matches[0]), PatternDigit(matches[0]))
    case n => (PatternDigit(matches[0]), PatternDigit(matches[n - 1]))
  }

  /** `parse_calibration_string`: the first digit as tens, the last as units. */
  function CalibrationValue(matches: seq<nat>): (v: nat)
    ensures matches == [] ==> v == 0
    ensures matches != [] ==> v / 10 == PatternDigit(matches[0]) && v % 10 == PatternDigit(matches[|matches| - 1])
    ensures v <= 99
  {
    var (first, last) := FirstAndLast(matches);
    first * 10 + last
  }

  /** The matched patterns are among the eighteen the automaton was built from. */
  predicate KnownPatterns(matches: seq<nat>) {
    forall i :: 0 <= i < |matches| ==> matches[i] < 18
  }

  /** A line without digits is worth 0; otherwise the value is a two-digit number whose digits are the first and last matched. */
  lemma CalibrationValueDigits(matches: seq<nat>)
    requires KnownPatterns(matches)
    ensures matches == [] <==> CalibrationValue(matches) == 0
    ensures matches != [] ==> 11 <= CalibrationValue(matches) <= 99
    ensures matches != [] ==> CalibrationValue(matches) / 10 == PatternDigit(matches[0])
    ensures matches != [] ==> CalibrationValue(matches) % 10 == PatternDigit(matches[|matches| - 1])
  {
    if matches != [] {
      assert matches[0] < 18 && matches[|matches| - 1] < 18;
    }
  }

  /** Only the first and the last match matter: what lies between can be anything. */
  lemma {:induction false} CalibrationIgnoresMiddle(first: nat, middle: seq<nat>, last: nat)
    ensures CalibrationValue([first] + middle + [last]) == CalibrationValue([first, last])
  {
    var m := [first] + middle + [last];
    assert m[0] == first && m[|m| - 1] == last;
  }

  /** "twone" matches "two" and then, overlapping, "one": the value is 21. */
  lemma OverlappingExample()
    ensures Patterns()[1] == "two" && Patterns()[0] == "one"
    ensures CalibrationValue([1, 0]) == 21
  {
  }

  /** "treb7uchet" matches only "7", which is both the first and the last digit: 77. */
  lemma SingleDigitExample()
    ensures Patterns()[15] == "7"
    ensures CalibrationValue([15]) == 77
  {
  }

  /** `day1`'s fold: the calibration values of the lines added up. */
  function TotalCalibration(lines: seq<seq<nat>>): (t: nat)
    ensures t <= 99 * |lines|
    ensures forall i :: 0 <= i < |lines| ==> CalibrationValue(lines[i]) <= t
  {
    if lines == [] then 0
    else
      var init := lines[..|lines| - 1];
      assert forall i :: 0 <= i < |init| ==> init[i] == lines[i];
      TotalCalibration(init) + CalibrationValue(lines[|lines| - 1])
  }

  /** Every line with a digit adds between 11 and 99. */
  lemma {:induction false} TotalCalibrationBounds(lines: seq<seq<nat>>)
    requires forall i :: 0 <= i < |lines| ==> KnownPatterns(lines[i]) && lines[i] != []
    ensures 11 * |lines| <= TotalCalibration(lines) <= 99 * |lines|
  {
    if lines != [] {
      var init := lines[..|lines| - 1];
      assert forall i :: 0 <= i < |init| ==> init[i] == lines[i];
      TotalCalibrationBounds(init);
      CalibrationValueDigits(lines[|lines| - 1]);
    }
  }
}
