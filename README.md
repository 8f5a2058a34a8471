# Advent of Code 2023, days 1 to 8, in Dafny

This project models the puzzle solvers of a Rust Advent of Code 2023
repository, one module per day, and proves what each solver computes:

- **Day 1, `Trebuchet`.** A line's calibration value is ten times its first matched digit plus its last. Digits may be spelled out, and matches may overlap.
- **Day 2, `CubeGame`.** A game is possible when, for red, green and blue, the most balls of that colour seen at once is within the given set. The answer is the sum of the ids of the possible games.
- **Day 3, `EngineSchematic`.** The solver finds every number next to a symbol of the 140-column grid and adds them up.
- **Day 4, `Scratchcards`.** A card scores 1 point for its first winning number and doubles for each further one. A card with k winners also wins copies of the next k cards.
- **Day 5, `Almanac`, `SeedMap`, `Sorting`.**
  - `Almanac` holds the parsers for the almanac file.
  - `SeedMap` pushes seeds through the category maps to a location and takes the lowest location.
  - Part 2 works on seed ranges.
- **Day 6, `BoatRace`.** It counts the hold times whose distance reaches the record. As written, a hold that only ties the record is counted; `StrictCombinations` and `Day6Corrected` are the corrected twins that count strict wins. Part 1 takes the product over the races. Part 2 reads all the digits of a line as one number.
- **Day 7, `CamelCards`.** It classifies each hand, orders hands by type and then by the sum of their card values, and adds up bid times rank. `Rules` selects the behaviour. `AsWritten` follows the source: four of a kind is classified as two pair, and ranks start at 0. `Corrected` uses the evidently intended classification and ranks from 1, and `Day7Corrected` is the corrected entry point.
- **Day 8, `Network`.**
  - It builds the node table in a `MapNodeTree`.
  - It walks from `AAA` to `ZZZ`, following the left/right instructions cyclically.
  - Part 2 moves all the `..A` walkers together, retiring one that stands on a `..Z` node in each round.

`Common` holds `Option` and the parser outcome `Parsed` (`Done(value, rest)`,
`Mismatch` for a recoverable nom error, and `Abort` for a panic inside a parser). `Text`
holds the string operations the solvers use:

- Rust's `trim`, `split` and `parse::<u32>`, and ASCII lower-casing in place of `to_lowercase`;
- nom's `tag`, `space1`/`multispace1`/`alpha1`, and its `u32`/`u64` parsers, which fail on overflow.

Machine integers are unbounded here except where the width decides an outcome. Those cases are:
- the parsers reject numbers that do not fit 32 or 64 bits;
- `unwrap_or(0)` turns an overflowing day-3 number into 0.

## Model

| member | source | states |
|---|---|---|
| Trebuchet.Patterns | src/day1.rs:8-12 | there are 18 patterns, so valid pattern indices are 0 to 17 |
| Trebuchet.PatternDigit | src/day1.rs:22-26 | a pattern index is below 18 exactly when it maps to a digit 1..9; any other index maps to 0 |
| Trebuchet.PatternNamesItsDigit | src/day1.rs:8-12 | pattern `idx` spells out or shows the digit `PatternDigit(idx)` |
| Trebuchet.PatternsOfDigit | src/day1.rs:22-26 | each digit has exactly two patterns, its name (`d - 1`) and its numeral (`d + 8`) |
| Trebuchet.FirstAndLast | src/day1.rs:29-33 | no matches give (0, 0); otherwise the digits of the first and the last match, the same match when there is one |
| Trebuchet.CalibrationValue | src/day1.rs:19-36 | no match gives 0; otherwise the tens digit is the first match's digit and the units digit the last's; never above 99 |
| Trebuchet.TotalCalibration | src/day1.rs:15 | the sum is at most 99 per line and at least each line's value |
| Trebuchet.CalibrationValueDigits | src/day1.rs:19-36 | the value is 0 exactly when nothing matched; otherwise it is a two-digit number whose tens digit is the first match and whose units digit is the last |
| Trebuchet.CalibrationIgnoresMiddle | src/day1.rs:29-35 | matches between the first and the last do not change the value |
| Trebuchet.OverlappingExample | src/day1.rs:20 | overlapping matches of "twone" give 21 |
| Trebuchet.SingleDigitExample | src/day1.rs:31 | a single match is used as both digits (7 gives 77) |
| Trebuchet.TotalCalibrationBounds | src/day1.rs:15 | the total over lines that each match lies between 11 and 99 per line |
| CubeGame.ColourFrom | src/day2.rs:33-42 | a known colour is returned exactly when the lower-cased word is its name; every other word gives `NoColour` |
| CubeGame.ColourFromName | src/day2.rs:33-42 | every spelling whose lower case is a colour's name reads as that colour |
| CubeGame.ColourNamesRoundTrip | src/day2.rs:33-42 | reading a colour's name gives the colour back |
| CubeGame.CapitalisedBlue | src/day2.rs:35 | the match ignores case ("Blue" is blue) |
| CubeGame.BallDataFrom | src/day2.rs:106-114 | the count is the parsed first word when it fits 32 bits, else 0 |
| CubeGame.BallDataRoundTrip | src/day2.rs:106-114 | "n colour" reads back as `BallData(colour, n)` |
| CubeGame.MaxSeenKeys | src/day2.rs:64-79 | a colour has an entry exactly when some handful shows it |
| CubeGame.MaxSeenBounds | src/day2.rs:64-79 | every ball count is at most the recorded maximum for its colour |
| CubeGame.MaxSeenAttained | src/day2.rs:64-79 | every recorded maximum is the count of some ball of that colour |
| CubeGame.GetMaxColoursSeen | src/day2.rs:64-79 | the fold over the handfuls builds exactly the per-colour maxima |
| CubeGame.IsPossible | src/day2.rs:81-88 | `Some(true)` exactly when all three colours were seen and fit; `Some(false)` exactly when a colour seen before the first unseen one in the order red, blue, green exceeds the given set; otherwise `None` |
| CubeGame.IsPossibleWhenAllSeen | src/day2.rs:81-88 | when all colours were seen the answer is the three comparisons |
| CubeGame.TooManyRedsWithoutBlue | src/day2.rs:83-85 | too many reds gives `Some(false)` even with blue unseen; few reds with blue unseen gives `None` |
| CubeGame.Revealed | src/day2.rs:55-62 | one list of balls per handful, one ball per ", "-separated entry |
| CubeGame.GameValid | src/day2.rs:116-135 | the id is returned exactly when it parses and the game is possible |
| CubeGame.FitsIffAllowed | src/day2.rs:81-88 | a colour fits exactly when it was seen and every ball of it is within the given count |
| CubeGame.PossibleIff | src/day2.rs:81-88 | a game is possible exactly when each of the three colours was seen and every ball is within its given count |
| CubeGame.GameValidIff | src/day2.rs:116-135 | `GameValid` returns the game's id exactly when the id parses and every colour was seen and fits |
| CubeGame.SumSomeBounds | src/day2.rs:15-20 | games that are not possible add nothing; each counted id is at most the total |
| CubeGame.Day2 | src/day2.rs:6-23 | the loop adds up the ids of the possible games against 12 red, 13 green, 14 blue |
| EngineSchematic.ColIdx | src/day3.rs:133-135 | columns never exceed 140 and in-range columns are unchanged |
| EngineSchematic.ColIdxIdempotent | src/day3.rs:133-135 | clamping is idempotent and leaves exactly the in-range columns alone |
| EngineSchematic.ReadNumberOfDigits | src/day3.rs:124 | the digits read give their decimal value when it fits 32 bits, else 0 |
| EngineSchematic.NumberAtNonDigit | src/day3.rs:99-101 | reading from a non-digit gives 0 |
| EngineSchematic.CollectStep | src/day3.rs:101-119 | the read stops after column 0 and before the clamp column, otherwise it continues with the next column |
| EngineSchematic.ForwardRun | src/day3.rs:97-125 | reading forwards gives the value of the run of digits starting at the column |
| EngineSchematic.BackwardRun | src/day3.rs:97-125 | reading backwards gives the value of the run of digits ending at the column, in written order |
| EngineSchematic.GetNumber | src/day3.rs:97-125 | the method returns `NumberAt`, the value of the digits read in the given direction (0 where they do not fit 32 bits) |
| EngineSchematic.CollectDigits | src/day3.rs:98-119 | the while loop collects exactly the digits `Collect` reads, stopping after column 0 and before the clamp column |
| EngineSchematic.StopsLeftIff | src/day3.rs:84-90 | backtracking stops exactly when some non-digit lies at or left of the column (a run of digits reaching column 0 never stops) |
| EngineSchematic.LeftStop | src/day3.rs:84-90 | the stop is the nearest non-digit at or left of the column |
| EngineSchematic.BacktrackReadsWholeRun | src/day3.rs:84-95 | from a digit, backtracking reads the whole maximal run of digits through it |
| EngineSchematic.WalkLeft | src/day3.rs:85-90 | the leftward loop stops at `LeftStop`, the nearest non-digit at or left of the column |
| EngineSchematic.BacktrackingGetNumber | src/day3.rs:84-95 | the method returns `BacktrackNumber`, the forward read from just right of the stop |
| EngineSchematic.Push | src/day3.rs:71-80 | a push succeeds exactly when both the list and the number exist, appending the number |
| EngineSchematic.MiddleDigitReadsRun | src/day3.rs:77-78 | a digit above or below the symbol with a digit beside it gives the whole run through it |
| EngineSchematic.NeighboursReadRuns | src/day3.rs:41-49 | beside the symbol, the run ending just left and the run starting just right are read |
| EngineSchematic.GapReadsNeighbourRuns | src/day3.rs:69-76 | with a non-digit above or below, the runs on its two sides are read |
| EngineSchematic.GetValuesFromTargetRow | src/day3.rs:64-82 | the method appends what `TargetRowInto` reads from a neighbouring row |
| EngineSchematic.Then | src/day3.rs:51-59 | a failed read of an earlier row is never recovered |
| EngineSchematic.SurroundingAsWritten | src/day3.rs:56-59 | as written: a symbol on the last row gives the out-of-bounds outcome; on any other row the result is the corrected `Surrounding` |
| EngineSchematic.SurroundingLastRow | src/day3.rs:56-59 | as written, a symbol on the last row reads past the grid; on any other row it agrees with the corrected guard |
| EngineSchematic.LastRowSymbolExample | src/day3.rs:57 | a lone symbol on the last row fails as written and finds nothing once corrected |
| EngineSchematic.OwnNeighbours | src/day3.rs:41-49 | the two pushes on the symbol's own row give `Neighbours`: the run ending just left, then the run starting just right |
| EngineSchematic.GetSurroundingNumbers | src/day3.rs:37-62 | corrected (row below visited only when it exists): the method returns the numbers around the symbol, from the left, the right, the row above and the row below |
| EngineSchematic.SymbolColsComplete | src/day3.rs:19-23 | the symbol columns are exactly the cells that are neither '.' nor a digit, in increasing order |
| EngineSchematic.RowSumsAt | src/day3.rs:18-32 | entry r of the row sums is row r's sum |
| EngineSchematic.RowNumbersNext | src/day3.rs:26-29 | each symbol appends its surrounding numbers to the row's list |
| EngineSchematic.TotalNext | src/day3.rs:31 | each row adds its sum to the running total |
| EngineSchematic.OneReadsBothWays | src/day3.rs:41-49 | a digit between two symbols is read by both of them |
| EngineSchematic.CountedTwiceExample | src/day3.rs:16-35 | a number touching two symbols is counted twice ("*1*." totals 2) |
| EngineSchematic.FoundNumbers | src/day3.rs:25-29 | the inner loop collects the numbers around every symbol of the row, in column order |
| EngineSchematic.AddRow | src/day3.rs:19-31 | one pass of the outer loop extends the running total by the row's sum, so it stays the total of the rows so far |
| EngineSchematic.ParseEngineSchematic | src/day3.rs:16-35 | corrected (uses the corrected last-row guard): the method returns `SchematicTotal`, the sum over all rows of the numbers around each symbol |
| Scratchcards.Filter | src/solutions/day4.rs:56 | the kept elements all satisfy the predicate |
| Scratchcards.FilterAppend | src/solutions/day4.rs:56 | filtering keeps order: filtering a concatenation concatenates the filtered parts |
| Scratchcards.FilterCounts | src/solutions/day4.rs:56 | filtering keeps each satisfying element exactly as often as it occurs and drops all others |
| Scratchcards.BlankIffTrimmedEmpty | src/solutions/day4.rs:45 | `trim().is_empty()` holds exactly for all-whitespace tokens |
| Scratchcards.TokensSkipBlanks | src/solutions/day4.rs:42-47 | the tokens are exactly the non-blank pieces of the space-split field |
| Scratchcards.DoubleSpaceExample | src/solutions/day4.rs:44-45 | the empty piece between two spaces is dropped |
| Scratchcards.ParseAll | src/solutions/day4.rs:46 | the list exists exactly when every token parses as a u32, and then holds those values in order |
| Scratchcards.CardFields | src/solutions/day4.rs:9-13 | a line has fields exactly when splitting on ':' and '\|' gives at least three pieces; the fields are pieces 1 and 2 |
| Scratchcards.Winners | src/solutions/day4.rs:41-57 | the winners are my numbers that occur among the winning numbers |
| Scratchcards.WinnersCount | src/solutions/day4.rs:56 | each number I have that wins appears among the winners exactly as often as I have it |
| Scratchcards.PointsArePowers | src/solutions/day4.rs:59-68 | k >= 1 winners score 2^(k-1) |
| Scratchcards.PointsDouble | src/solutions/day4.rs:59-68 | each further winner doubles the points |
| Scratchcards.Points | src/solutions/day4.rs:59-68 | a card scores nothing exactly when it has no winners |
| Scratchcards.CardPoints | src/day4.rs:16-41 | the first solver's points for a line are the points of its winners |
| Scratchcards.AddCopies | src/solutions/day4.rs:28-32 | the two inner loops add `times` copies to each of the next k cards and change no other slot |
| Scratchcards.CountCards | src/solutions/day4.rs:23-34 | the nested loops leave in each slot the number of copies the cascade defines |
| Scratchcards.FirstCardHeldOnce | src/solutions/day4.rs:23-25 | the first card is only ever the original |
| Scratchcards.NoWinsNoCopies | src/solutions/day4.rs:26-27 | without winners no card receives copies |
| Scratchcards.CascadeExample | src/solutions/day4.rs:23-36 | win counts 4, 2, 2, 1, 0, 0 give copies 1, 2, 4, 8, 14, 1, thirty cards in all |
| Scratchcards.TotalCardsAtLeastOriginals | src/solutions/day4.rs:36 | the total number of cards is at least the number of originals |
| Scratchcards.Day4 | src/solutions/day4.rs:4-39 | the method returns the sum of the points and the total number of cards, which is at least the number of lines |
| Scratchcards.AddUpValues | src/day4.rs:11 | when every line scores, the fold adds up the scores |
| Scratchcards.TotalPointsAgree | src/day4.rs:4-14 | the first solver's total equals the second solver's total points |
| BoatRace.CountIsSize | src/solutions/day6.rs:45-53 | the fold counts exactly the set of hold times below the race time that reach the record (ties included, as written) or beat it (corrected) |
| BoatRace.BeatsSymmetric | src/solutions/day6.rs:47 | holding x and holding time - x travel the same distance |
| BoatRace.Combinations | src/solutions/day6.rs:45-53 | `combinations_to_beat_record` as written, counting holds with distance `>=` the record: at most the race time |
| BoatRace.StrictCombinations | src/solutions/day6.rs:45-53 | corrected: counts only holds whose distance exceeds the record; at most the race time |
| BoatRace.StrictCountsFewer | src/solutions/day6.rs:48 | requiring a win never counts more, and counts the same exactly when no hold time ties the record |
| BoatRace.TiesCountedExample | src/solutions/day6.rs:48 | a 6 ms race with record 8: `Combinations` counts 3 as written, `StrictCombinations` (corrected) counts 1 |
| BoatRace.ProductZeroIff | src/solutions/day6.rs:13-16 | for the as-written count (ties included) and for the corrected one alike, the product of the per-race counts is 0 exactly when some race has count 0 |
| BoatRace.SpacedNumbers | src/solutions/day6.rs:57-61 | `separated_list1(space1, u32)` never panics, reads at least one number and consumes input |
| BoatRace.DigitGroups | src/solutions/day6.rs:67-71 | `separated_list1(space1, digit1)` never panics, reads at least one group and consumes input |
| BoatRace.Zip | src/solutions/day6.rs:63 | races pair times with records up to the shorter list |
| BoatRace.SpacedNumbersOfShow | src/solutions/day6.rs:57-61 | a space-separated list of u32 numbers reads back as that list |
| BoatRace.ParseRaceData | src/solutions/day6.rs:56-64 | the race parser never panics (a failed line is a nom error) |
| BoatRace.ParseRaceDataOfSheet | src/solutions/day6.rs:56-64 | a rendered race sheet parses back to its races |
| BoatRace.ConcatValue | src/solutions/day6.rs:73-74 | joining another group of digits multiplies by a power of ten and adds the group's value |
| BoatRace.CombinedOfDigits | src/solutions/day6.rs:73-74 | the joined number exists exactly when it fits 64 bits, and is the decimal value of all the digits |
| BoatRace.CombinedExample | src/solutions/day6.rs:73-74 | groups 7, 15, 30 join to 71530 |
| BoatRace.ParseRaceDataCombined | src/solutions/day6.rs:66-76 | a parsed joined time and record both fit 64 bits |
| BoatRace.ParseCombinedOfSheet | src/solutions/day6.rs:66-76 | a rendered race sheet reads as the joined time and the joined record |
| BoatRace.Day6 | src/solutions/day6.rs:9-30 | as written: there is an answer exactly when both parsers succeed; part 1 is the product of the tie-counting counts, part 2 the number of holds reaching the joined record |
| BoatRace.Day6Corrected | src/solutions/day6.rs:9-30 | corrected: the same, with strict wins counted |
| BoatRace.JoinedSingle | src/solutions/day6.rs:73-74 | joining the digits of a single number gives the number |
| BoatRace.Day6OfSheet | src/solutions/day6.rs:9-30 | a rendered sheet answers the product of the per-race counts and the count of the joined race, as written and corrected |
| BoatRace.OneRaceSheet | src/solutions/day6.rs:9-30 | a one-race sheet answers that race's count for both parts, as written and corrected |
| BoatRace.SingleRaceProduct | src/solutions/day6.rs:13-16 | the product over one race is its count |
| BoatRace.TiesSheetExample | src/solutions/day6.rs:48 | the sheet `Time: 6` / `Distance: 8` answers (3, 3) as written and (1, 1) corrected |
| Almanac.CategoryFrom | src/solutions/day5.rs:24-38 | a category is returned exactly when the lower-cased name is its name |
| Almanac.CategoryFromAnyCase | src/solutions/day5.rs:24-38 | names read back as their category in lower and in upper case |
| Almanac.NumberList | src/solutions/day5.rs:123-126 | `separated_list1(tag(" "), u64)`: at least one number, every one below 2^64, input consumed, never a panic |
| Almanac.ParseSeeds | src/solutions/day5.rs:123-126 | the line starts with "seeds: " and yields at least one u64, consuming input |
| Almanac.HeaderNames | src/solutions/day5.rs:128-131 | two non-empty alphabetic names around "-to-", then " map:\n", consuming input |
| Almanac.ParseMapCategories | src/solutions/day5.rs:128-131 | a mismatch exactly when the header text does not match; once it matches, an unknown name panics rather than backtracking |
| Almanac.ParseConversionTuple | src/solutions/day5.rs:133-136 | three u64 separated by single spaces, consuming input |
| Almanac.TupleList | src/solutions/day5.rs:138-142 | `separated_list1` over newlines: at least one tuple, consuming input |
| Almanac.ParseMap | src/solutions/day5.rs:138-142 | a header then at least one range |
| Almanac.ParseMaps | src/solutions/day5.rs:144-146 | at least one map, each with at least one range, consuming input |
| Almanac.ParseFullFile | src/solutions/day5.rs:148-156 | at least one u64 seed and at least one map, each map with at least one range |
| Almanac.NumberListOfShow | src/solutions/day5.rs:123-126 | a space-separated u64 list reads back as itself |
| Almanac.ParseSeedsOfRender | src/solutions/day5.rs:123-126 | "seeds: …\n" reads back as its seeds |
| Almanac.ParseConversionTupleOfRender | src/solutions/day5.rs:133-136 | "dest src len" reads back as the tuple |
| Almanac.TupleListOfRender | src/solutions/day5.rs:138-142 | newline-separated tuples read back as the list |
| Almanac.ParseMapCategoriesOfRender | src/solutions/day5.rs:128-131 | "a-to-b map:\n" reads back as the two categories |
| Almanac.ParseMapOfRender | src/solutions/day5.rs:138-142 | a rendered map reads back as itself |
| Almanac.ParseMapsOfRender | src/solutions/day5.rs:144-146 | maps separated by blank lines read back as the list |
| Almanac.ParseFullFileOfRender | src/solutions/day5.rs:148-156 | a rendered almanac reads back as its seeds and maps |
| AlmanacExamples.SeedToSoilHeader | src/solutions/day5.rs:163-167 | "seed-to-soil map:\n" reads as (Seed, Soil) |
| AlmanacExamples.TemperatureToLocationHeader | src/solutions/day5.rs:163-167 | "temperature-to-location map:\n" reads as (Temperature, Location) |
| AlmanacExamples.WaterToFertilizerHeader | src/solutions/day5.rs:163-167 | "water-to-fertilizer map:\n" reads as (Water, Fertilizer) |
| AlmanacExamples.TupleExamples | src/solutions/day5.rs:170-174 | "88 18 7" reads as (88, 18, 7) |
| AlmanacExamples.WideTupleExample | src/solutions/day5.rs:170-174 | a tuple beyond 32 bits reads back as itself |
| AlmanacExamples.SeedsExample | src/solutions/day5.rs:177-179 | "seeds: 1 2 3 4 5\n" reads as the five seeds |
| AlmanacExamples.WideMapExample | src/solutions/day5.rs:182-190 | a map with wide tuples reads back as itself |
| AlmanacExamples.FullFileExample | src/solutions/day5.rs:193-220 | the two-map sample file reads as its seeds and maps |
| SeedMap.OutputForRange | src/solutions/day5.rs:56-61 | a range answers exactly for sources in [src, src + len), at the same offset from dest |
| SeedMap.ImageFirstMatch | src/solutions/day5.rs:63-71 | the first range that holds the value decides its image |
| SeedMap.ImageIdentity | src/solutions/day5.rs:63-71 | a value no range holds maps to itself |
| SeedMap.Convert | src/solutions/day5.rs:63-71 | the loop returns the image under the map |
| SeedMapExamples.ConvertExamples | src/solutions/day5.rs:223-237 | 98 gives 50, 55 gives 57, 101 and 10 are unchanged |
| SeedMap.Locate | src/solutions/day5.rs:111-116 | the loop pushes a seed through every map in order |
| SeedMap.SortedHeadIsMin | src/solutions/day5.rs:119-120 | after sorting, the first location is one of them and no larger than any |
| SeedMap.Part1 | src/solutions/day5.rs:109-121 | the result is the location of some seed and at most every seed's location |
| SeedMap.SeedPairs | src/solutions/day5.rs:88 | the seed list read as (start, count) pairs, a trailing odd seed dropped |
| SeedMap.CandidateHasSeed | src/solutions/day5.rs:90-96 | every location examined belongs to a seed in one of the ranges |
| SeedMap.SeedIsCandidate | src/solutions/day5.rs:90-96 | every seed in the ranges has its location examined |
| SeedMap.SentinelLowestIsMin | src/solutions/day5.rs:97-100 | over positive locations the sentinel fold finds the minimum |
| SeedMap.SentinelLosesZero | src/solutions/day5.rs:87-100 | seeds 0 and 1, under one map whose range starts at source 10, give 1 as written, though 0 is a location |
| SeedMap.Part2AsWritten | src/solutions/day5.rs:86-107 | the loops compute the sentinel fold over every seed's location |
| SeedMap.Part2 | src/solutions/day5.rs:86-107 | the corrected loops give a location of a seed in range, at most every such location, or 0 when there is none |
| SeedMap.Day5 | src/solutions/day5.rs:74-84 | from the parsed file, part 1 is the least seed location and part 2 the sentinel fold over every seed range |
| Sorting.InsertPermutes | src/solutions/day5.rs:119 | insertion adds exactly the one element |
| Sorting.InsertionSort | src/solutions/day7.rs:24 | sorting keeps the length and the multiset of elements; stability is stated by `InsertionSortStable` |
| Sorting.InsertionSortSorted | src/solutions/day7.rs:24 | under a total preorder the result is sorted |
| Sorting.SortInPlace | src/solutions/day7.rs:24 | the array ends up holding the sorted sequence |
| Sorting.InsertLast | src/solutions/day7.rs:24 | one step of insertion sort inserts element i into the sorted prefix and leaves the rest |
| Sorting.InsertionSortStable | src/solutions/day7.rs:24 | stable, as `sort_by` is: for every x, the elements equivalent to x appear in the result in their input order |
| Sorting.SortedStableUnique | src/solutions/day7.rs:24 | two sorted arrangements of the same multiset that keep every equivalence class in the same order are equal |
| Sorting.StableSortIsInsertionSort | src/solutions/day7.rs:24 | any stable sort of the input, such as `sort_by`, gives exactly `InsertionSort`'s result |
| CamelCards.CardFromSymbol | src/solutions/day7.rs:44-75 | exactly the fourteen card symbols read as cards, each showing as its symbol; digit symbols are worth their digit |
| CamelCards.CardSymbolRoundTrip | src/solutions/day7.rs:44-75 | every card's symbol reads back as the card |
| CamelCards.CardOfValue | src/solutions/day7.rs:44-75 | each value 1 to 14 belongs to a card |
| CamelCards.GetCountsOf | src/solutions/day7.rs:128-131 | the count of a card is its multiplicity in the hand |
| CamelCards.CountCards | src/solutions/day7.rs:128-131 | the loop builds the count map of the hand |
| CamelCards.WeightedOfCounts | src/solutions/day7.rs:134 | weighting the counts by a card function gives the sum of that function over the hand |
| CamelCards.CountsTotal | src/solutions/day7.rs:128-131 | the counts add up to the hand size |
| CamelCards.CardValueOrderFree | src/solutions/day7.rs:134 | the card value is the sum of the card values and does not depend on their order |
| CamelCards.CardValueOf | src/solutions/day7.rs:134 | the loop over the map computes the weighted card value |
| CamelCards.OccIsMultiplicity | src/solutions/day7.rs:147-173 | counting a count in the list is its multiplicity |
| CamelCards.ShapeTypeOrderFree | src/solutions/day7.rs:147-173 | the type depends only on the multiset of counts |
| CamelCards.SortedCountsOfHand | src/solutions/day7.rs:149-152 | the sorted counts descend, are positive and sum to the hand size |
| CamelCards.FiveCardShapes | src/solutions/day7.rs:147-173 | sorted positive counts summing to 5 are one of the seven shapes |
| CamelCards.FiveCardHandType | src/solutions/day7.rs:147-173 | every five-card hand gets a type, and it is the type of its count shape |
| CamelCards.FourOfAKindMisread | src/solutions/day7.rs:157 | as written, a five-card hand is misclassified exactly when it is four of a kind, and then it is called two pair |
| CamelCards.FourOfAKindIffFourEqual | src/solutions/day7.rs:147-173 | a five-card hand is four of a kind exactly when some card occurs four times |
| CamelCards.TypeOfCountsAsWritten | src/solutions/day7.rs:147-173 | as written, the sorted counts give the corrected type except that four of a kind becomes two pair |
| CamelCards.GetTypeAsWritten | src/solutions/day7.rs:147-173 | `get_type` as written never yields four of a kind |
| CamelCards.FourAcesExample | src/solutions/day7.rs:157 | AAAA2 is four of a kind, but two pair as written |
| CamelCards.HandOfCards | src/solutions/day7.rs:123-143 | under either rules a hand keeps its bid, its value is the sum of its card values, and every five-card hand is built |
| CamelCards.HandOfMisread | src/solutions/day7.rs:123-143 | a five-card hand is built the same as written and corrected, except that a corrected four of a kind is two pair as written |
| CamelCards.NewHand | src/solutions/day7.rs:123-143 | the method builds `HandOf` under the given rules: the hand's value sum, bid and type, or `None` where `get_type` panics |
| CamelCards.Compare | src/solutions/day7.rs:96-120 | hands compare equal exactly when type and card value agree |
| CamelCards.CompareFlips | src/solutions/day7.rs:116-120 | swapping the hands flips the ordering |
| CamelCards.HandOrderTotal | src/solutions/day7.rs:116-120 | the hand order is a total preorder |
| CamelCards.WinningsOffByOneRank | src/solutions/day7.rs:25 | the ranks as written (from 0) are one short of the corrected ones (from 1), so the as-written total is short by the sum of the bids |
| CamelCards.SingleHandWinnings | src/solutions/day7.rs:25 | a lone hand wins nothing as written and its bid corrected |
| CamelCards.AddUpWinnings | src/solutions/day7.rs:25 | the loop adds bid times rank, ranks from 0 as written and from 1 corrected |
| CamelCards.TotalWinnings | src/solutions/day7.rs:24-25 | the method sorts the hands and returns the winnings of the sorted list under the given rules |
| CamelCards.CardsOfSymbols | src/solutions/day7.rs:124-127 | the symbols of a hand read back as its cards |
| CamelCards.ParseHand | src/solutions/day7.rs:175-177 | a parsed hand consumes input |
| CamelCards.ParseHands | src/solutions/day7.rs:179-183 | `separated_list1` yields at least one hand |
| CamelCards.ParseHandOfRender | src/solutions/day7.rs:175-177 | under either rules, "cards bid" reads back as the hand `Hand::new` builds from them |
| CamelCards.ParseHandsOfRender | src/solutions/day7.rs:179-183 | newline-separated rendered lines of five cards and a u32 bid read back as one hand per line, in order, so such files meet `Day7`'s precondition |
| CamelCards.Day7 | src/solutions/day7.rs:17-28 | as written: the winnings of the parsed hands in sorted order, with the misread type and ranks from 0 |
| CamelCards.Day7Corrected | src/solutions/day7.rs:17-28 | corrected: the winnings of the parsed hands in sorted order, with the corrected type and ranks from 1 |
| CamelCards.OneHandFile | src/solutions/day7.rs:17-28 | a one-hand file wins nothing as written and its bid corrected |
| Network.Gcd | src/solutions/day8.rs:69-76 | the result is 0 exactly when both arguments are 0 |
| Network.GcdDivides | src/solutions/day8.rs:69-76 | the result divides both arguments |
| Network.GcdGreatest | src/solutions/day8.rs:69-76 | every common divisor divides the result |
| Network.NewMapNode | src/solutions/day8.rs:150-156 | the node keeps its id and both successors |
| Network.MapNodeTree.constructor | src/solutions/day8.rs:116-120 | a new tree is empty |
| Network.MapNodeTree.GetNode | src/solutions/day8.rs:122-127 | the node stored under the id, whose own id is that id |
| Network.MapNodeTree.InsertNode | src/solutions/day8.rs:135-138 | the node is stored under its id, replacing any earlier one, and the id is returned |
| Network.NodeTableLastWins | src/solutions/day8.rs:28-31 | an id is in the table exactly when some node has it, and the last such node wins |
| Network.BuildTree | src/solutions/day8.rs:28-31 | folding the inserts builds the node table |
| Network.WalkStuck | src/solutions/day8.rs:89-96 | once a walk hits a missing node it stays stuck |
| Network.StepsToWayOut | src/solutions/day8.rs:86-98 | the loop stops at the first step count that reaches ZZZ |
| Network.FirstZFinds | src/solutions/day8.rs:40-45 | the scan finds the first id ending in Z, or none when none does |
| Network.AdvanceAllSteps | src/solutions/day8.rs:47-51 | all walkers move exactly when each of their nodes has the successor |
| Network.RoundRemovesAtMostOne | src/solutions/day8.rs:40-53 | a round either moves every walker, or retires the first walker on a Z node, records its loop size and moves those before it |
| Network.RoundsStuck | src/solutions/day8.rs:37-59 | once rounds hit a missing node they stay stuck |
| Network.RunRound | src/solutions/day8.rs:40-52 | the for loop performs one `Round`: it moves every walker, or retires the first on a Z node and records its step |
| Network.RunPass | src/solutions/day8.rs:37-53 | one iteration of the while loop is the next `Round`, and no earlier round left the walkers finished |
| Network.RunPasses | src/solutions/day8.rs:36-54 | the while loop ends with no walkers, after the first number of rounds that leaves none |
| Network.WalkAll | src/solutions/day8.rs:25-63 | starting from exactly the keys ending in 'A', each once, the while loop stops at the first round with no walkers left, with the loop sizes recorded |
| Network.ParseDirections | src/solutions/day8.rs:159-168 | a non-empty run of 'L'/'R' ended by a newline, read one direction per character |
| Network.ParseDirectionsOfRender | src/solutions/day8.rs:159-168 | a rendered directions line reads back as its directions, in order |
| Network.ParseIdentifier | src/solutions/day8.rs:170-175 | an identifier is the letters among the next three characters, which are consumed |
| Network.ParseIdentifierOfId | src/solutions/day8.rs:170-175 | three letters read back as the identifier |
| Network.ParseMapNode | src/solutions/day8.rs:177-180 | a parsed node has both successors and consumes input |
| Network.ParseMapNodeOfRender | src/solutions/day8.rs:177-180 | "id = (left, right)\n" reads back as the node |
| Network.ParseMapNodes | src/solutions/day8.rs:182-184 | `many1` never panics and reads at least one node |
| Network.ParseMapNodesOfRender | src/solutions/day8.rs:182-184 | rendered node lines read back as their nodes, in order |
| Network.ParseMapFile | src/solutions/day8.rs:186-196 | a parsed file has instructions and nodes |
| Network.ParseMapFileOfRender | src/solutions/day8.rs:186-196 | a rendered file reads back as its directions and its nodes |
| Network.CalculateStepsToWayOut | src/solutions/day8.rs:78-99 | from the parsed file, the step count is the first at which the walk from AAA reaches ZZZ |
| Network.CalculateStepsToWayOutPt2 | src/solutions/day8.rs:25-63 | from the parsed file and the start ids, the step count is the first round with no walker left, with the loop sizes recorded |
| Text.Unsigned | src/solutions/day6.rs:57 | a number is read only within the bound, and it is followed by a non-digit |
| Text.UnsignedOfShow | src/solutions/day6.rs:57 | a decimal numeral below the bound reads back as its number |
| Text.ParseUnsigned | src/solutions/day4.rs:46 | `parse::<u32>` succeeds only with a value below the bound |
| Text.ParseUnsignedOfShow | src/solutions/day4.rs:46 | `parse::<u32>` of a numeral gives its number |
| Text.TrimOfTrimmed | src/solutions/day4.rs:43 | trimming a trimmed string changes nothing |
| Text.JoinSplitOn | src/solutions/day4.rs:44 | splitting and joining again gives the original string |
| Text.SplitOnFirst | src/day2.rs:117 | splitting at a separator yields the text before it, then the split of the rest |
| Text.Tag | src/solutions/day5.rs:124 | `tag` succeeds exactly on a prefix and consumes it |
| Text.Run1 | src/solutions/day6.rs:57 | the longest nonempty run of matching characters is taken |
| Text.Lower | src/day2.rs:35 | ASCII lower-casing maps each character and keeps the length |
| Text.ShowNat | src/solutions/day5.rs:124 | a decimal numeral whose value is the number and has no leading zero |

## Left out

- Reading input files and printing results are left out; each solver takes its input as a string or a list of lines. This covers `File::open`, `read_to_string`, `println!`, `dbg!` and `src/utilities.rs`.
- `src/main.rs`, which dispatches on the day number, is not part of this model.
- The Aho-Corasick matcher of day 1 is left out. `CalibrationValue` takes the pattern indices of the overlapping matches, in order, as its input.
- The arithmetic is unbounded, so nothing models overflow panics or wrap-around in the products, powers and sums. This covers day 4's `2_u32.pow`, day 6's product and `(time - x) * x`, the day 7 card value and winnings, and the day 8 counters. It also covers day 5's u64 sums: `range.1 + range.2` and `range.0 + source - range.1` in `output_for_range`, and `start + count` in part 2.
  - Bounds are modelled only where a parser or `unwrap_or(0)` depends on them.
- Day 3: an index outside the grid is modelled as the outcome `None`, and so is the backtracking loop that never ends at column 0. The methods require that outcome not to happen.
- Scratchcards.CountCards: requires that no copy lands past the last card. The source panics there with an index out of bounds.
- Day 8, part 2: the source takes its starting walkers from a hash map's keys, so their order is not determined. `WalkAll` takes the start list as a parameter.
  - `lowest_common_muliple` has an empty body in the source and its result only goes to `dbg!`, so it is not modelled. `gcd` is.
- Network.CalculateStepsToWayOut, Network.CalculateStepsToWayOutPt2 and Network.WalkAll: require that the walk ends. The source loops for ever otherwise.
- The parsers of `src/day5.rs` are the same as those of `src/solutions/day5.rs`, so they are modelled once, citing the latter.
- CamelCards hand ordering is modelled as written: type first, then the sum of the card values, not card by card.
- CubeGame.IsPossible: models the `?` short-circuit of the source in its evaluation order, red, blue, green. An unseen colour gives `None` unless an earlier colour already failed.
- Text.Lower: lowers ASCII letters only, where Rust's `to_lowercase` is full Unicode. The only non-ASCII character whose lower case is an ASCII letter is U+212A (Kelvin sign, to 'k'); U+0130 lowers to 'i' plus a combining dot, which no name contains. No colour or category name contains 'k', so the name comparisons come out the same.
- CubeGame.GameValid, CubeGame.Outcomes and CubeGame.Day2: require every line to be `Readable`. `BallData::from` indexes `split[1]` (src/day2.rs:106-114), which panics on a ball entry without a space; the model does not follow the panic.
- SeedMap.Part1: requires a non-empty seed list. The source reads `locations[0]` after sorting (src/solutions/day5.rs:119-120), which panics on an empty list.
- Scratchcards.Day4: requires `CardsRead(lines)`. The source indexes `split_line[1]` and `split_line[2]` and unwraps every `parse::<u32>()` (src/solutions/day4.rs:42-53), which panics on a line without three fields or with a non-numeric token; the model does not follow the panic.
- SeedMap.Day5: requires `ParseFullFile(input).Done?`. The source unwraps `parse_full_conversion_map_file` (src/solutions/day5.rs:80), which panics on a malformed almanac.
- CamelCards.Day7 and CamelCards.Day7Corrected: require `ParseHands(input, …).Done?`. The source unwraps `parse_hands` (src/solutions/day7.rs:23), which panics on a malformed file.
- Network.CalculateStepsToWayOut and Network.CalculateStepsToWayOutPt2: require `ParseMapFile(input).Done?`. The source unwraps `parse_map_file` (src/solutions/day8.rs:79 and src/solutions/day8.rs:26), which panics on a malformed file.
- Performance (the brute-force seed loop of day 5 part 2) is not a property of the model.

## Findings

| source | as written | input that shows it | evidently intended | confidence | as-written member | corrected member |
|---|---|---|---|---|---|---|
| src/solutions/day5.rs:87 | `lowest` starts at 0 and 0 also means "none yet", so a location of 0 is replaced by the next one | seeds `0 2` with one map `20 10 5`: locations 0 and 1, result 1 | the least location, 0 | not executed | SeedMap.SentinelLosesZero | SeedMap.Part2 |
| src/solutions/day7.rs:157 | a largest count of 4 is classified as two pair | hand AAAA2 | four of a kind | not executed | CamelCards.FourOfAKindMisread | CamelCards.FourOfAKindIffFourEqual |
| src/solutions/day7.rs:25 | the enumerate index is used as the rank, so ranks start at 0 | one hand with bid 5: total 0 | ranks from 1, total 5 | not executed | CamelCards.WinningsOffByOneRank | CamelCards.Day7Corrected |
| src/day3.rs:57 | the row below is visited when `row + 1 <= row_count`, which always holds | a symbol on the last row, `["...", ".*."]` | visit the row below only when it exists | not executed | EngineSchematic.LastRowSymbolExample | EngineSchematic.GetSurroundingNumbers |
| src/solutions/day6.rs:48 | a hold time that only ties the record is counted | time 6, record 8: holds 2, 3, 4 counted | only holds that beat the record (hold 3) | not executed | BoatRace.TiesCountedExample | BoatRace.Day6Corrected |
