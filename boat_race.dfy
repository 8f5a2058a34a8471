/**
 * Day 6: toy boat races. Holding the button for `x` of a race's `time`
 * milliseconds makes the boat travel `(time - x) * x`; a race is won by
 * beating its record distance. Part 1 multiplies the number of winning hold
 * times of each race; part 2 reads each line's digit groups as one number
 * and counts for that single race.
 */
module BoatRace {
  import opened Common
  import opened Text

  /** `Race`: its duration and the record distance. */
  datatype Race = Race(time: nat, record: nat)

  // ---------------------------------------------------------------------
  // Counting winning hold times
  // ---------------------------------------------------------------------

  /** How far the boat travels when the button is held for `hold` of `time`. */
  function Distance(time: nat, hold: nat): nat
    requires hold <= time
  {
    (time - hold) * hold
  }

  /**
   * The hold time reaches the record: strictly further, or, when `ties`
   * is set, at least as far.
   */
  predicate Beats(time: nat, record: nat, hold: nat, ties: bool)
    requires hold <= time
  {
    Distance(time, hold) > record || (ties && Distance(time, hold) == record)
  }

  /** The fold over `0..n`: one more for every hold time that beats the record. */
  function CountBeating(time: nat, record: nat, n: nat, ties: bool): (c: nat)
    requires n <= time
    ensures c <= n
  {
    if n == 0 then 0
    else CountBeating(time, record, n - 1, ties) + (if Beats(time, record, n - 1, ties) then 1 else 0)
  }

  /** The hold times below `n` that beat the record. */
  function BeatingHolds(time: nat, record: nat, n: nat, ties: bool): set<nat>
    requires n <= time
  {
    set x: nat | x < n && Beats(time, record, x, ties)
  }

  /** The fold counts exactly the hold times that beat the record. */
  lemma {:induction false} CountIsSize(time: nat, record: nat, n: nat, ties: bool)
    requires n <= time
    ensures CountBeating(time, record, n, ties) == |BeatingHolds(time, record, n, ties)|
  {
    if n > 0 {
      CountIsSize(time, record, n - 1, ties);
      var below := BeatingHolds(time, record, n - 1, ties);
      var all := BeatingHolds(time, record, n, ties);
      if Beats(time, record, n - 1, ties) {
        assert all == below + {n - 1};
        assert n - 1 !in below;
      } else {
        assert all == below;
      }
    }
  }

  /** Holding for `x` or for `time - x` travels the same distance, so both or neither beat the record. */
  lemma BeatsSymmetric(time: nat, record: nat, x: nat, ties: bool)
    requires x <= time
    ensures Beats(time, record, x, ties) <==> Beats(time, record, time - x, ties)
  {
    assert Distance(time, x) == x * (time - x) == Distance(time, time - x);
  }

  /** `Race::combinations_to_beat_record`: a hold time that equals the record counts as a win. */
  function Combinations(r: Race): (c: nat)
    ensures c <= r.time
  {
    CountBeating(r.time, r.record, r.time, true)
  }

  /** Corrected: the number of hold times that beat the record strictly, which winning a race requires. */
  function StrictCombinations(r: Race): (c: nat)
    ensures c <= r.time
  {
    CountBeating(r.time, r.record, r.time, false)
  }

  /** Counting with ties counts every strict winner and possibly more. */
  lemma {:induction false} StrictCountsFewer(time: nat, record: nat, n: nat)
    requires n <= time
    ensures CountBeating(time, record, n, false) <= CountBeating(time, record, n, true)
    ensures CountBeating(time, record, n, false) == CountBeating(time, record, n, true) <==>
      forall x :: 0 <= x < n ==> Distance(time, x) != record
  {
    if n > 0 {
      StrictCountsFewer(time, record, n - 1);
      if forall x :: 0 <= x < n ==> Distance(time, x) != record {
        assert Distance(time, n - 1) != record;
      }
    }
  }

  /**
   * A race of 6 ms with record 8 has distances 0, 5, 8, 9, 8, 5: the source
   * counts the two ties and reports 3 ways to win where only holding for 3 ms wins.
   */
  lemma TiesCountedExample()
    ensures Combinations(Race(6, 8)) == 3
    ensures StrictCombinations(Race(6, 8)) == 1
  {
    assert CountBeating(6, 8, 3, true) == 1;
    assert CountBeating(6, 8, 3, false) == 0;
  }

  // ---------------------------------------------------------------------
  // Answers
  // ---------------------------------------------------------------------

  /**
   * The fold of part 1: the product of each race's count, starting from 1;
   * ties counted as the source counts them, or not once corrected.
   */
  function Product(races: seq<Race>, ties: bool): nat {
    if races == [] then 1
    else
      var r := races[|races| - 1];
      Product(races[..|races| - 1], ties) * CountBeating(r.time, r.record, r.time, ties)
  }

  /** The product vanishes exactly when some race has no hold time reaching its record. */
  lemma {:induction false} ProductZeroIff(races: seq<Race>, ties: bool)
    ensures Product(races, ties) == 0 <==>
      exists i :: 0 <= i < |races| && CountBeating(races[i].time, races[i].record, races[i].time, ties) == 0
  {
    if races != [] {
      var init := races[..|races| - 1];
      ProductZeroIff(init, ties);
      if exists i :: 0 <= i < |init| && CountBeating(init[i].time, init[i].record, init[i].time, ties) == 0 {
        var i :| 0 <= i < |init| && CountBeating(init[i].time, init[i].record, init[i].time, ties) == 0;
        assert races[i] == init[i];
      }
      if exists i :: 0 <= i < |races| && CountBeating(races[i].time, races[i].record, races[i].time, ties) == 0 {
        var i :| 0 <= i < |races| && CountBeating(races[i].time, races[i].record, races[i].time, ties) == 0;
        if i < |init| {
          assert init[i] == races[i];
        }
      }
    }
  }

  // ---------------------------------------------------------------------
  // Parsers
  // ---------------------------------------------------------------------

  /** `separated_list1(space1, u32)`: numbers separated by runs of spaces. */
  function SpacedNumbers(s: string): (r: Parsed<seq<nat>>)
    ensures r.Done? ==> |r.value| >= 1 && |r.rest| < |s|
    ensures !r.Abort?
    decreases |s|
  {
    match Unsigned(s, U32Bound)
    case Done(n, rest) =>
      (match Run1(rest, IsSpace)
       case Done(_, rest') =>
         (match SpacedNumbers(rest')
          case Done(ns, rest'') => Done([n] + ns, rest'')
          case _ => Done([n], rest))
       case _ => Done([n], rest))
    case _ => Mismatch
  }

  /** `separated_list1(space1, digit1)`: the digit groups, kept as text. */
  function DigitGroups(s: string): (r: Parsed<seq<string>>)
    ensures r.Done? ==> |r.value| >= 1 && |r.rest| < |s|
    ensures !r.Abort?
    decreases |s|
  {
    match Run1(s, IsDigit)
    case Done(g, rest) =>
      (match Run1(rest, IsSpace)
       case Done(_, rest') =>
         (match DigitGroups(rest')
          case Done(gs, rest'') => Done([g] + gs, rest'')
          case _ => Done([g], rest))
       case _ => Done([g], rest))
    case _ => Mismatch
  }

  /** `times.into_iter().zip(records)`: races paired by position, as many as the shorter list. */
  function Zip(times: seq<nat>, records: seq<nat>): (races: seq<Race>)
    ensures |races| == if |times| <= |records| then |times| else |records|
    ensures forall i :: 0 <= i < |races| ==> races[i] == Race(times[i], records[i])
  {
    var n := if |times| <= |records| then |times| else |records|;
    seq(n, i requires 0 <= i < n => Race(times[i], records[i]))
  }

  /** Zipping the two fields of a list of races gives the list back. */
  lemma ZipOfFields(races: seq<Race>)
    ensures Zip(seq(|races|, i requires 0 <= i < |races| => races[i].time),
                seq(|races|, i requires 0 <= i < |races| => races[i].record)) == races
  {
  }

  /** `parse_race_data`: "Time:", spaces, the times, a newline, "Distance:", spaces, the records. */
  function ParseRaceData(s: string): (r: Parsed<seq<Race>>)
    ensures !r.Abort?
  {
    match Tag(s, "Time:")
    case Done(_, r1) =>
      (match Run1(r1, IsSpace)
       case Done(_, r2) =>
         (match SpacedNumbers(r2)
          case Done(times, r3) =>
            (match Tag(r3, "\n")
             case Done(_, r4) =>
               (match Tag(r4, "Distance:")
                case Done(_, r5) =>
                  (match Run1(r5, IsSpace)
                   case Done(_, r6) =>
                     (match SpacedNumbers(r6)
                      case Done(records, r7) => Done(Zip(times, records), r7)
                      case _ => Mismatch)
                   case _ => Mismatch)
                case _ => Mismatch)
             case _ => Mismatch)
          case _ => Mismatch)
       case _ => Mismatch)
    case _ => Mismatch
  }

  /** The groups written one after the other. */
  function Concat(groups: seq<string>): (s: string)
    ensures (forall i :: 0 <= i < |groups| ==> AllDigits(groups[i])) ==> AllDigits(s)
  {
    if groups == [] then [] else Concat(groups[..|groups| - 1]) + groups[|groups| - 1]
  }

  /** Appending a group shifts the number read so far left by the group's length. */
  lemma ConcatValue(groups: seq<string>, g: string)
    requires forall i :: 0 <= i < |groups| ==> AllDigits(groups[i])
    requires AllDigits(g)
    ensures AllDigits(Concat(groups + [g]))
    ensures DigitsValue(Concat(groups + [g])) == DigitsValue(Concat(groups)) * Pow10(|g|) + DigitsValue(g)
  {
    ConcatSnoc(groups, g);
    DigitsValueConcat(Concat(groups), g);
  }

  lemma ConcatSnoc(groups: seq<string>, g: string)
    ensures Concat(groups + [g]) == Concat(groups) + g
  {
    assert (groups + [g])[..|groups|] == groups;
  }

  lemma ConcatExample()
    ensures Concat(["7", "15", "30"]) == "71530"
  {
    var groups := ["7", "15", "30"];
    assert groups[..2] == ["7", "15"] && groups[..2][..1] == ["7"] && groups[..2][..1][..0] == [];
    assert Concat(["7"]) == "7";
    assert Concat(["7", "15"]) == "715";
  }

  lemma DigitsExample()
    ensures AllDigits("71530") && DigitsValue("71530") == 71530
  {
    assert "71530"[..4] == "7153" && "7153"[..3] == "715" && "715"[..2] == "71" && "71"[..1] == "7";
    assert DigitsValue("7") == 7;
    assert DigitsValue("71") == 71;
    assert DigitsValue("715") == 715;
    assert DigitsValue("7153") == 7153;
  }

  /** "7  15   30" reads as the single number 71530. */
  lemma CombinedExample()
    ensures Combined(["7", "15", "30"]) == Some(71530)
  {
    ConcatExample();
    DigitsExample();
  }


  /**
   * `str::parse::<u64>` of the concatenated groups; `unwrap` panics on
   * `None`, which for digit groups means the number does not fit in 64 bits.
   */
  function Combined(groups: seq<string>): (r: Option<nat>)
    ensures r.Some? ==> r.value < U64Bound
  {
    ParseUnsigned(Concat(groups), U64Bound)
  }

  /** For digit groups the parse fails only by overflow, and otherwise gives the number the groups spell together. */
  lemma CombinedOfDigits(groups: seq<string>)
    requires |groups| >= 1 && forall i :: 0 <= i < |groups| ==> |groups[i]| > 0 && AllDigits(groups[i])
    ensures Combined(groups).Some? <==> DigitsValue(Concat(groups)) < U64Bound
    ensures Combined(groups).Some? ==> Combined(groups).value == DigitsValue(Concat(groups))
  {
    var text := Concat(groups);
    var last := groups[|groups| - 1];
    assert groups[..|groups| - 1] + [last] == groups;
    assert text == Concat(groups[..|groups| - 1]) + last;
    assert |text| > 0 && IsDigit(text[0]);
  }

  /**
   * `parse_race_data_combined`: the same layout read with `digit1`, each
   * line's groups concatenated into one time and one record; `Abort` is the
   * panic of a concatenation that overflows a `u64`.
   */
  function ParseRaceDataCombined(s: string): (r: Parsed<(nat, nat)>)
    ensures r.Done? ==> r.value.0 < U64Bound && r.value.1 < U64Bound
  {
    match Tag(s, "Time:")
    case Done(_, r1) =>
      (match Run1(r1, IsSpace)
       case Done(_, r2) =>
         (match DigitGroups(r2)
          case Done(times, r3) =>
            (match Tag(r3, "\n")
             case Done(_, r4) =>
               (match Tag(r4, "Distance:")
                case Done(_, r5) =>
                  (match Run1(r5, IsSpace)
                   case Done(_, r6) =>
                     (match DigitGroups(r6)
                      case Done(records, r7) =>
                        (match (Combined(times), Combined(records))
                         case (Some(time), Some(distance)) => Done((time, distance), r7)
                         case _ => Abort)
                      case _ => Mismatch)
                   case _ => Mismatch)
                case _ => Mismatch)
             case _ => Mismatch)
          case _ => Mismatch)
       case _ => Mismatch)
    case _ => Mismatch
  }

  // ---------------------------------------------------------------------
  // Reading back the text the parsers accept
  // ---------------------------------------------------------------------

  /** A non-empty run of spaces or tabs, as between the columns of the input. */
  predicate Gap(gap: string) {
    |gap| > 0 && forall i :: 0 <= i < |gap| ==> IsSpace(gap[i])
  }

  /** What may follow a spaced list without the list reading on into it. */
  predicate Stops(rest: string) {
    rest == [] || (!IsDigit(rest[0]) && !IsSpace(rest[0]))
  }

  /** The numbers in decimal, separated by `gap`, followed by `rest`. */
  function Spaced(ns: seq<nat>, gap: string, rest: string): string
    requires |ns| >= 1
  {
    if |ns| == 1 then ShowNat(ns[0]) + rest else ShowNat(ns[0]) + (gap + Spaced(ns[1..], gap, rest))
  }

  lemma SpacedCons(ns: seq<nat>, gap: string, rest: string)
    requires |ns| > 1
    ensures Spaced(ns, gap, rest) == ShowNat(ns[0]) + (gap + Spaced(ns[1..], gap, rest))
  {
  }

  /** The first character of a rendered list is a digit. */
  lemma SpacedStartsWithDigit(ns: seq<nat>, gap: string, rest: string)
    requires |ns| >= 1
    ensures StartsWithDigit(Spaced(ns, gap, rest))
  {
    var first := ShowNat(ns[0]);
    if |ns| == 1 {
      assert (first + rest)[0] == first[0];
    } else {
      assert (first + (gap + Spaced(ns[1..], gap, rest)))[0] == first[0];
    }
  }

  lemma SpacedNumbersLast(n: nat, rest: string)
    requires n < U32Bound && Stops(rest)
    ensures SpacedNumbers(ShowNat(n) + rest) == Done([n], rest)
  {
    UnsignedOfShow(n, rest, U32Bound);
  }

  lemma SpacedNumbersCons(s: string, n: nat, gap: string, tail: string, ns: seq<nat>, rest: string)
    requires n < U32Bound && Gap(gap) && StartsWithDigit(tail) && s == ShowNat(n) + (gap + tail)
    requires SpacedNumbers(tail) == Done(ns, rest)
    ensures SpacedNumbers(s) == Done([n] + ns, rest)
  {
    assert (gap + tail)[0] == gap[0];
    UnsignedOfShow(n, gap + tail, U32Bound);
    Run1OfConcat(gap, tail, IsSpace);
  }

  /** One more number in front of a list that reads back reads back too. */
  lemma SpacedNumbersOfShowCons(n: nat, tail: seq<nat>, gap: string, rest: string)
    requires n < U32Bound && |tail| >= 1 && Gap(gap)
    requires SpacedNumbers(Spaced(tail, gap, rest)) == Done(tail, rest)
    ensures SpacedNumbers(Spaced([n] + tail, gap, rest)) == Done([n] + tail, rest)
  {
    SpacedStartsWithDigit(tail, gap, rest);
    SpacedCons([n] + tail, gap, rest);
    assert ([n] + tail)[1..] == tail;
    SpacedNumbersCons(Spaced([n] + tail, gap, rest), n, gap, Spaced(tail, gap, rest), tail, rest);
  }

  /** A rendered list of `u32` values reads back as those values. */
  lemma {:induction false} SpacedNumbersOfShow(ns: seq<nat>, gap: string, rest: string)
    requires |ns| >= 1 && (forall i :: 0 <= i < |ns| ==> ns[i] < U32Bound)
    requires Gap(gap) && Stops(rest)
    ensures SpacedNumbers(Spaced(ns, gap, rest)) == Done(ns, rest)
    decreases |ns|
  {
    if |ns| == 1 {
      SpacedNumbersLast(ns[0], rest);
      assert ns == [ns[0]];
    } else {
      SpacedNumbersOfShow(ns[1..], gap, rest);
      SpacedNumbersOfShowCons(ns[0], ns[1..], gap, rest);
      assert [ns[0]] + ns[1..] == ns;
    }
  }

  /** The decimal renderings of the numbers, one group each. */
  function Shown(ns: seq<nat>): (groups: seq<string>)
    ensures |groups| == |ns|
  {
    if ns == [] then [] else [ShowNat(ns[0])] + Shown(ns[1..])
  }

  /** Every rendering is a non-empty run of digits. */
  lemma {:induction false} ShownAreDigits(ns: seq<nat>)
    ensures forall i :: 0 <= i < |ns| ==> |Shown(ns)[i]| > 0 && AllDigits(Shown(ns)[i])
  {
    if ns != [] {
      ShownAreDigits(ns[1..]);
      assert forall i :: 1 <= i < |ns| ==> Shown(ns)[i] == Shown(ns[1..])[i - 1];
    }
  }

  /** The number the renderings of `ns` spell when written together. */
  function Joined(ns: seq<nat>): nat {
    ShownAreDigits(ns);
    assert forall i :: 0 <= i < |Shown(ns)| ==> AllDigits(Shown(ns)[i]);
    DigitsValue(Concat(Shown(ns)))
  }

  lemma DigitGroupsLast(n: nat, rest: string)
    requires Stops(rest)
    ensures DigitGroups(ShowNat(n) + rest) == Done([ShowNat(n)], rest)
  {
    Run1OfConcat(ShowNat(n), rest, IsDigit);
  }

  lemma DigitGroupsCons(n: nat, gap: string, tail: string, gs: seq<string>, rest: string)
    requires Gap(gap) && StartsWithDigit(tail)
    requires DigitGroups(tail) == Done(gs, rest)
    ensures DigitGroups(ShowNat(n) + (gap + tail)) == Done([ShowNat(n)] + gs, rest)
  {
    assert (gap + tail)[0] == gap[0];
    Run1OfConcat(ShowNat(n), gap + tail, IsDigit);
    Run1OfConcat(gap, tail, IsSpace);
  }

  /** `digit1` groups of a rendered list are the numbers' renderings. */
  lemma {:induction false} DigitGroupsOfShow(ns: seq<nat>, gap: string, rest: string)
    requires |ns| >= 1 && Gap(gap) && Stops(rest)
    ensures DigitGroups(Spaced(ns, gap, rest)) == Done(Shown(ns), rest)
    decreases |ns|
  {
    if |ns| == 1 {
      DigitGroupsLast(ns[0], rest);
      assert Shown(ns) == [ShowNat(ns[0])];
    } else {
      DigitGroupsOfShow(ns[1..], gap, rest);
      SpacedStartsWithDigit(ns[1..], gap, rest);
      DigitGroupsCons(ns[0], gap, Spaced(ns[1..], gap, rest), Shown(ns[1..]), rest);
    }
  }

  /** One labelled line: the heading, a gap, the numbers, then what follows. */
  function Line(heading: string, gap: string, ns: seq<nat>, rest: string): string
    requires |ns| >= 1
  {
    heading + (gap + Spaced(ns, gap, rest))
  }

  /** The puzzle input: the times line, a newline, the records line, then `rest`. */
  function RaceSheet(times: seq<nat>, records: seq<nat>, gap: string, rest: string): string
    requires |times| >= 1 && |records| >= 1
  {
    Line("Time:", gap, times, "\n" + Line("Distance:", gap, records, rest))
  }

  /** The heading and the gap of a line are read by `tag` and `space1`. */
  lemma LineSteps(heading: string, gap: string, ns: seq<nat>, rest: string)
    requires |ns| >= 1 && Gap(gap)
    ensures Tag(Line(heading, gap, ns, rest), heading) == Done(heading, gap + Spaced(ns, gap, rest))
    ensures Run1(gap + Spaced(ns, gap, rest), IsSpace) == Done(gap, Spaced(ns, gap, rest))
  {
    TagOfConcat(heading, gap + Spaced(ns, gap, rest));
    SpacedStartsWithDigit(ns, gap, rest);
    Run1OfConcat(gap, Spaced(ns, gap, rest), IsSpace);
  }

  /** The sheet reads back as the races its columns pair up. */
  lemma ParseRaceDataOfSheet(times: seq<nat>, records: seq<nat>, gap: string, rest: string)
    requires |times| >= 1 && |records| >= 1 && Gap(gap) && Stops(rest)
    requires forall i :: 0 <= i < |times| ==> times[i] < U32Bound
    requires forall i :: 0 <= i < |records| ==> records[i] < U32Bound
    ensures ParseRaceData(RaceSheet(times, records, gap, rest)) == Done(Zip(times, records), rest)
  {
    var line2 := Line("Distance:", gap, records, rest);
    LineSteps("Time:", gap, times, "\n" + line2);
    SpacedNumbersOfShow(times, gap, "\n" + line2);
    TagOfConcat("\n", line2);
    LineSteps("Distance:", gap, records, rest);
    SpacedNumbersOfShow(records, gap, rest);
  }

  /** The combined parser finds each line's renderings as its digit groups. */
  lemma ParseCombinedGroups(times: seq<nat>, records: seq<nat>, gap: string, rest: string)
    requires |times| >= 1 && |records| >= 1 && Gap(gap) && Stops(rest)
    ensures ParseRaceDataCombined(RaceSheet(times, records, gap, rest)) ==
      match (Combined(Shown(times)), Combined(Shown(records)))
      case (Some(time), Some(distance)) => Done((time, distance), rest)
      case _ => Abort
  {
    var line2 := Line("Distance:", gap, records, rest);
    LineSteps("Time:", gap, times, "\n" + line2);
    DigitGroupsOfShow(times, gap, "\n" + line2);
    TagOfConcat("\n", line2);
    LineSteps("Distance:", gap, records, rest);
    DigitGroupsOfShow(records, gap, rest);
  }

  /** The combined parser reads each line of the sheet as its numbers' renderings written together. */
  lemma ParseCombinedOfSheet(times: seq<nat>, records: seq<nat>, gap: string, rest: string)
    requires |times| >= 1 && |records| >= 1 && Gap(gap) && Stops(rest)
    requires Joined(times) < U64Bound && Joined(records) < U64Bound
    ensures ParseRaceDataCombined(RaceSheet(times, records, gap, rest)) == Done((Joined(times), Joined(records)), rest)
  {
    ParseCombinedGroups(times, records, gap, rest);
    ShownAreDigits(times);
    ShownAreDigits(records);
    CombinedOfDigits(Shown(times));
    CombinedOfDigits(Shown(records));
  }

  // ---------------------------------------------------------------------
  // day6
  // ---------------------------------------------------------------------

  /**
   * `day6`: the product of the per-race counts and the count for the one
   * combined race, both counting ties, or `None` where either parser's
   * `unwrap` panics.
   */
  function Day6(input: string): (r: Option<(nat, nat)>)
    ensures r.Some? <==> ParseRaceData(input).Done? && ParseRaceDataCombined(input).Done?
    ensures r.Some? ==> r.value.0 == Product(ParseRaceData(input).value, true)
    ensures r.Some? ==>
      var (time, record) := ParseRaceDataCombined(input).value;
      r.value.1 == |BeatingHolds(time, record, time, true)|
  {
    match ParseRaceData(input)
    case Done(races, _) =>
      (match ParseRaceDataCombined(input)
       case Done((time, record), _) =>
         CountIsSize(time, record, time, true);
         Some((Product(races, true), Combinations(Race(time, record))))
       case _ => None)
    case _ => None
  }

  /** `day6` corrected: both answers count only hold times that beat the record strictly. */
  function Day6Corrected(input: string): (r: Option<(nat, nat)>)
    ensures r.Some? <==> ParseRaceData(input).Done? && ParseRaceDataCombined(input).Done?
    ensures r.Some? ==> r.value.0 == Product(ParseRaceData(input).value, false)
    ensures r.Some? ==>
      var (time, record) := ParseRaceDataCombined(input).value;
      r.value.1 == |BeatingHolds(time, record, time, false)|
  {
    match ParseRaceData(input)
    case Done(races, _) =>
      (match ParseRaceDataCombined(input)
       case Done((time, record), _) =>
         CountIsSize(time, record, time, false);
         Some((Product(races, false), StrictCombinations(Race(time, record))))
       case _ => None)
    case _ => None
  }

  /** A one-column sheet's single number is read as itself by the combined parser. */
  lemma JoinedSingle(n: nat)
    ensures Joined([n]) == n
  {
    assert Shown([n]) == [ShowNat(n)];
    assert [ShowNat(n)][..0] == [];
    assert Concat([ShowNat(n)]) == ShowNat(n);
  }

  /** Both answers on a rendered sheet: the races its columns pair up, and the race its joined columns spell. */
  lemma Day6OfSheet(times: seq<nat>, records: seq<nat>, gap: string, rest: string)
    requires |times| >= 1 && |records| >= 1 && Gap(gap) && Stops(rest)
    requires forall i :: 0 <= i < |times| ==> times[i] < U32Bound
    requires forall i :: 0 <= i < |records| ==> records[i] < U32Bound
    requires Joined(times) < U64Bound && Joined(records) < U64Bound
    ensures Day6(RaceSheet(times, records, gap, rest)) ==
      Some((Product(Zip(times, records), true), Combinations(Race(Joined(times), Joined(records)))))
    ensures Day6Corrected(RaceSheet(times, records, gap, rest)) ==
      Some((Product(Zip(times, records), false), StrictCombinations(Race(Joined(times), Joined(records)))))
  {
    ParseRaceDataOfSheet(times, records, gap, rest);
    ParseCombinedOfSheet(times, records, gap, rest);
  }

  /**
   * The sheet "Time: 6\nDistance: 8": the program as written answers 3 for
   * both parts, counting the two holds that only tie the record; corrected,
   * only holding for 3 ms wins.
   */
  lemma TiesSheetExample(sheet: string)
    requires sheet == RaceSheet([6], [8], " ", "")
    ensures Day6(sheet) == Some((3, 3))
    ensures Day6Corrected(sheet) == Some((1, 1))
  {
    OneRaceSheet(6, 8);
    SingleRaceProduct(Race(6, 8), true);
    SingleRaceProduct(Race(6, 8), false);
    TiesCountedExample();
  }

  /** A one-race sheet, "Time: t\nDistance: d": both parts answer for the race (t, d). */
  lemma OneRaceSheet(t: nat, d: nat)
    requires t < U32Bound && d < U32Bound
    ensures Day6(RaceSheet([t], [d], " ", "")) == Some((Product([Race(t, d)], true), Combinations(Race(t, d))))
    ensures Day6Corrected(RaceSheet([t], [d], " ", "")) == Some((Product([Race(t, d)], false), StrictCombinations(Race(t, d))))
  {
    assert Gap(" ") && Stops("");
    JoinedSingle(t);
    JoinedSingle(d);
    Day6OfSheet([t], [d], " ", "");
    assert Zip([t], [d]) == [Race(t, d)];
  }

  lemma SingleRaceProduct(r: Race, ties: bool)
    ensures Product([r], ties) == CountBeating(r.time, r.record, r.time, ties)
  {
    assert [r][..0] == [];
  }
}
