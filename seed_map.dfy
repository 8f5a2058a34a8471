/**
 * Following seeds through the almanac: each map sends a number through the
 * first of its (destination, source, length) ranges that contains it, and
 * leaves it unchanged when none does; a seed's location is the result of
 * every map in turn. Part 1 takes the lowest location over the listed seeds,
 * part 2 over every seed of the listed (start, count) ranges.
 */
module SeedMap {
  import opened Common
  import opened Almanac
  import opened Sorting

  /** `CategoryMap::output_for_range`: the image of `source` under one range, if the range holds it. */
  function OutputForRange(source: nat, range: Range): (r: Option<nat>)
    ensures r.Some? <==> range.1 <= source < range.1 + range.2
    ensures r.Some? ==> range.0 <= r.value < range.0 + range.2 && r.value - range.0 == source - range.1
  {
    if source >= range.1 && source < range.1 + range.2 then Some(range.0 + source - range.1) else None
  }

  predicate InRange(x: nat, range: Range) { range.1 <= x < range.1 + range.2 }

  /** The image of `x` under a list of ranges: the first range holding it decides, otherwise `x` itself. */
  function Image(ranges: seq<Range>, x: nat): nat {
    if ranges == [] then x
    else match OutputForRange(x, ranges[0])
      case Some(y) => y
      case None => Image(ranges[1..], x)
  }

  /** The first range that holds `x` decides its image, whatever later ranges say. */
  lemma {:induction false} ImageFirstMatch(ranges: seq<Range>, x: nat, k: nat)
    requires k < |ranges| && InRange(x, ranges[k])
    requires forall j :: 0 <= j < k ==> !InRange(x, ranges[j])
    ensures Image(ranges, x) == ranges[k].0 + (x - ranges[k].1)
    decreases k
  {
    if k > 0 {
      ImageFirstMatch(ranges[1..], x, k - 1);
    }
  }

  /** A number that no range holds maps to itself (in particular under an empty list). */
  lemma {:induction false} ImageIdentity(ranges: seq<Range>, x: nat)
    requires forall j :: 0 <= j < |ranges| ==> !InRange(x, ranges[j])
    ensures Image(ranges, x) == x
    decreases |ranges|
  {
    if ranges != [] {
      ImageIdentity(ranges[1..], x);
    }
  }

  /** `CategoryMap::convert`: try the ranges in order and return the first image found. */
  method Convert(m: CategoryMap, source: nat) returns (r: nat)
    ensures r == Image(m.ranges, source)
  {
    var i := 0;
    while i < |m.ranges|
      invariant 0 <= i <= |m.ranges|
      invariant Image(m.ranges, source) == Image(m.ranges[i..], source)
    {
      assert m.ranges[i..][1..] == m.ranges[i + 1..];
      match OutputForRange(source, m.ranges[i]) {
        case None =>
        case Some(n) => return n;
      }
      i := i + 1;
    }
    return source;
  }

  /** A seed's location: every map applied in turn. */
  function Location(maps: seq<CategoryMap>, seed: nat): nat
    decreases |maps|
  {
    if maps == [] then seed else Location(maps[1..], Image(maps[0].ranges, seed))
  }

  /** The inner loop of `part1` and `part2`: `result = map.convert(result)` for each map. */
  method Locate(maps: seq<CategoryMap>, seed: nat) returns (result: nat)
    ensures result == Location(maps, seed)
  {
    result := seed;
    for i := 0 to |maps|
      invariant Location(maps, seed) == Location(maps[i..], result)
    {
      assert maps[i..][1..] == maps[i + 1..];
      result := Convert(maps[i], result);
    }
  }

  function NatLe(a: nat, b: nat): bool { a <= b }

  lemma NatLeTotal()
    ensures TotalPreorder(NatLe)
  {
  }

  /** The head of an ascending sort of `xs` is one of `xs` and no greater than any of them. */
  lemma SortedHeadIsMin(sorted: seq<nat>, xs: seq<nat>)
    requires |xs| > 0 && SortedBy(sorted, NatLe) && multiset(sorted) == multiset(xs)
    ensures |sorted| > 0 && sorted[0] in xs
    ensures forall i :: 0 <= i < |xs| ==> sorted[0] <= xs[i]
  {
    assert xs[0] in multiset(sorted);
    assert |sorted| > 0;
    assert sorted[0] in multiset(xs);
    forall i | 0 <= i < |xs| ensures sorted[0] <= xs[i] {
      assert xs[i] in multiset(sorted);
      var k :| 0 <= k < |sorted| && sorted[k] == xs[i];
      if k > 0 {
        assert NatLe(sorted[0], sorted[k]);
      }
    }
  }

  /**
   * `part1`: push each seed's location, sort the locations ascending and
   * report the first. Indexing `locations[0]` needs at least one seed.
   */
  method Part1(seeds: seq<nat>, maps: seq<CategoryMap>) returns (lowest: nat)
    requires |seeds| > 0
    ensures exists i :: 0 <= i < |seeds| && lowest == Location(maps, seeds[i])
    ensures forall i :: 0 <= i < |seeds| ==> lowest <= Location(maps, seeds[i])
  {
    var locations: seq<nat> := [];
    for i := 0 to |seeds|
      invariant |locations| == i
      invariant forall k :: 0 <= k < i ==> locations[k] == Location(maps, seeds[k])
    {
      var result := Locate(maps, seeds[i]);
      locations := locations + [result];
    }
    var a := new nat[|locations|](k requires 0 <= k < |locations| => locations[k]);
    assert a[..] == locations;
    SortInPlace(a, NatLe);
    NatLeTotal();
    InsertionSortSorted(locations, NatLe);
    SortedHeadIsMin(a[..], locations);
    lowest := a[0];
    var j :| 0 <= j < |locations| && locations[j] == lowest;
    assert lowest == Location(maps, seeds[j]);
  }

  // ---------------------------------------------------------------------
  // Part 2
  // ---------------------------------------------------------------------

  /** `into_iter().tuples()`: consecutive (start, count) pairs; an odd last number is dropped. */
  function SeedPairs(seeds: seq<nat>): (pairs: seq<(nat, nat)>)
    ensures |pairs| == |seeds| / 2
    ensures forall i :: 0 <= i < |pairs| ==> pairs[i] == (seeds[2 * i], seeds[2 * i + 1])
  {
    if |seeds| < 2 then [] else [(seeds[0], seeds[1])] + SeedPairs(seeds[2..])
  }

  predicate InSeedRanges(pairs: seq<(nat, nat)>, seed: nat) {
    exists p :: 0 <= p < |pairs| && pairs[p].0 <= seed < pairs[p].0 + pairs[p].1
  }

  /** The locations of the seeds `start`, `start + 1`, ..., `start + count - 1`, in that order. */
  function RangeLocations(maps: seq<CategoryMap>, start: nat, count: nat): (r: seq<nat>)
    ensures |r| == count
    ensures forall i :: 0 <= i < count ==> r[i] == Location(maps, start + i)
  {
    seq<nat>(count, i requires 0 <= i < count => Location(maps, start + i))
  }

  /** Every location part 2 visits, pair after pair. */
  function Candidates(pairs: seq<(nat, nat)>, maps: seq<CategoryMap>): seq<nat> {
    if pairs == [] then []
    else
      var last := pairs[|pairs| - 1];
      Candidates(pairs[..|pairs| - 1], maps) + RangeLocations(maps, last.0, last.1)
  }

  /** Every location part 2 visits belongs to some seed of some range. */
  lemma {:induction false} CandidateHasSeed(pairs: seq<(nat, nat)>, maps: seq<CategoryMap>, x: nat)
    requires x in Candidates(pairs, maps)
    ensures exists seed: nat :: InSeedRanges(pairs, seed) && x == Location(maps, seed)
    decreases |pairs|
  {
    var front, last := pairs[..|pairs| - 1], pairs[|pairs| - 1];
    var tail := RangeLocations(maps, last.0, last.1);
    if x in tail {
      var i :| 0 <= i < |tail| && tail[i] == x;
      assert pairs[|pairs| - 1].0 <= last.0 + i < pairs[|pairs| - 1].0 + pairs[|pairs| - 1].1;
      assert InSeedRanges(pairs, last.0 + i);
    } else {
      CandidateHasSeed(front, maps, x);
      var seed: nat :| InSeedRanges(front, seed) && x == Location(maps, seed);
      var p :| 0 <= p < |front| && front[p].0 <= seed < front[p].0 + front[p].1;
      assert pairs[p] == front[p];
      assert InSeedRanges(pairs, seed);
    }
  }

  /** Part 2 visits every seed of every range. */
  lemma {:induction false} SeedIsCandidate(pairs: seq<(nat, nat)>, maps: seq<CategoryMap>, seed: nat)
    requires InSeedRanges(pairs, seed)
    ensures Location(maps, seed) in Candidates(pairs, maps)
    decreases |pairs|
  {
    var front, last := pairs[..|pairs| - 1], pairs[|pairs| - 1];
    var p :| 0 <= p < |pairs| && pairs[p].0 <= seed < pairs[p].0 + pairs[p].1;
    if p == |pairs| - 1 {
      var tail := RangeLocations(maps, last.0, last.1);
      assert tail[seed - last.0] == Location(maps, seed);
    } else {
      assert front[p] == pairs[p];
      SeedIsCandidate(front, maps, seed);
    }
  }

  /** One step of the source's fold, with 0 standing for "nothing seen yet". */
  function SentinelStep(lowest: nat, result: nat): nat {
    if lowest == 0 || result < lowest then result else lowest
  }

  /** The `lowest` that part 2 as written reports after visiting `xs`. */
  function SentinelLowest(xs: seq<nat>): nat {
    if xs == [] then 0 else SentinelStep(SentinelLowest(xs[..|xs| - 1]), xs[|xs| - 1])
  }

  /** While every visited location is positive, the sentinel fold is the true minimum. */
  lemma {:induction false} SentinelLowestIsMin(xs: seq<nat>)
    requires |xs| > 0 && forall i :: 0 <= i < |xs| ==> xs[i] > 0
    ensures SentinelLowest(xs) in xs
    ensures forall i :: 0 <= i < |xs| ==> SentinelLowest(xs) <= xs[i]
  {
    var front := xs[..|xs| - 1];
    if front != [] {
      SentinelLowestIsMin(front);
      assert SentinelLowest(front) in xs;
    }
  }

  /**
   * The fold as written loses a minimum of 0: once a later location is
   * visited, the 0 reads as "unset" and is replaced. The seed range (0, 2)
   * under one seed-to-soil map whose only range starts at source 10 visits
   * locations 0 and 1 and reports 1.
   */
  lemma SentinelLosesZero()
    ensures Candidates(SeedPairs([0, 2]), [CategoryMap(Seed, Soil, [(20, 10, 5)])]) == [0, 1]
    ensures SentinelLowest([0, 1]) == 1
  {
    var maps := [CategoryMap(Seed, Soil, [(20, 10, 5)])];
    assert SeedPairs([0, 2]) == [(0, 2)];
    ImageIdentity(maps[0].ranges, 0);
    ImageIdentity(maps[0].ranges, 1);
    assert Location(maps, 0) == 0 && Location(maps, 1) == 1;
    assert RangeLocations(maps, 0, 2) == [0, 1];
    assert Candidates([], maps) == [];
    assert [0, 1][..1] == [0];
  }

  lemma RangeLocationsSnoc(maps: seq<CategoryMap>, start: nat, n: nat)
    ensures RangeLocations(maps, start, n + 1) == RangeLocations(maps, start, n) + [Location(maps, start + n)]
  {
  }

  lemma CandidatesSnoc(pairs: seq<(nat, nat)>, p: nat, maps: seq<CategoryMap>)
    requires p < |pairs|
    ensures Candidates(pairs[..p + 1], maps) == Candidates(pairs[..p], maps) + RangeLocations(maps, pairs[p].0, pairs[p].1)
  {
    assert pairs[..p + 1][..p] == pairs[..p];
  }

  lemma SentinelLowestSnoc(xs: seq<nat>, x: nat)
    ensures SentinelLowest(xs + [x]) == SentinelStep(SentinelLowest(xs), x)
  {
    assert (xs + [x])[..|xs|] == xs;
  }

  /** The inner loop of `part2` as written: one range's seeds, in order, folded into `lowest`. */
  method FoldRangeAsWritten(maps: seq<CategoryMap>, start: nat, count: nat, lowest0: nat, ghost before: seq<nat>)
    returns (lowest: nat)
    requires lowest0 == SentinelLowest(before)
    ensures lowest == SentinelLowest(before + RangeLocations(maps, start, count))
  {
    lowest := lowest0;
    ghost var seen := before;
    for seed := start to start + count
      invariant seen == before + RangeLocations(maps, start, seed - start)
      invariant lowest == SentinelLowest(seen)
    {
      var result := Locate(maps, seed);
      RangeLocationsSnoc(maps, start, seed - start);
      SentinelLowestSnoc(seen, result);
      seen := seen + [result];
      lowest := SentinelStep(lowest, result);
    }
  }

  /** `part2` as written: nested loops over the pairs and their seeds, folding with the 0 sentinel. */
  method Part2AsWritten(seeds: seq<nat>, maps: seq<CategoryMap>) returns (lowest: nat)
    ensures lowest == SentinelLowest(Candidates(SeedPairs(seeds), maps))
  {
    lowest := 0;
    var pairs := SeedPairs(seeds);
    for p := 0 to |pairs|
      invariant lowest == SentinelLowest(Candidates(pairs[..p], maps))
    {
      lowest := FoldRangeAsWritten(maps, pairs[p].0, pairs[p].1, lowest, Candidates(pairs[..p], maps));
      CandidatesSnoc(pairs, p, maps);
    }
    assert pairs[..|pairs|] == pairs;
  }

  /**
   * Part 2 with the evidently intended minimum: a flag records whether any
   * location has been seen, so a location of 0 is kept. With no seeds at all
   * the answer stays 0, as the source prints.
   */
  method Part2(seeds: seq<nat>, maps: seq<CategoryMap>) returns (lowest: nat)
    ensures Candidates(SeedPairs(seeds), maps) == [] ==> lowest == 0
    ensures Candidates(SeedPairs(seeds), maps) != [] ==> lowest in Candidates(SeedPairs(seeds), maps)
    ensures forall x :: x in Candidates(SeedPairs(seeds), maps) ==> lowest <= x
  {
    lowest := 0;
    var found := false;
    var pairs := SeedPairs(seeds);
    ghost var seen: seq<nat> := [];
    for p := 0 to |pairs|
      invariant seen == Candidates(pairs[..p], maps)
      invariant found <==> seen != []
      invariant found ==> lowest in seen
      invariant !found ==> lowest == 0
      invariant forall x :: x in seen ==> lowest <= x
    {
      var (start, count) := pairs[p];
      ghost var before := seen;
      for seed := start to start + count
        invariant seen == before + RangeLocations(maps, start, seed - start)
        invariant found <==> seen != []
        invariant found ==> lowest in seen
        invariant !found ==> lowest == 0
        invariant forall x :: x in seen ==> lowest <= x
      {
        var result := Locate(maps, seed);
        RangeLocationsSnoc(maps, start, seed - start);
        seen := seen + [result];
        if !found || result < lowest {
          lowest := result;
          found := true;
        }
      }
      CandidatesSnoc(pairs, p, maps);
    }
    assert pairs[..|pairs|] == pairs;
  }

  /**
   * `day5` on the puzzle text: parse the whole file (the source unwraps),
   * then run part 1 and part 2 as written on the seeds and maps read.
   */
  method Day5(input: string) returns (lowest1: nat, lowest2: nat)
    requires ParseFullFile(input).Done?
    ensures exists i :: 0 <= i < |ParseFullFile(input).value.0| && lowest1 == Location(ParseFullFile(input).value.1, ParseFullFile(input).value.0[i])
    ensures forall i :: 0 <= i < |ParseFullFile(input).value.0| ==> lowest1 <= Location(ParseFullFile(input).value.1, ParseFullFile(input).value.0[i])
    ensures lowest2 == SentinelLowest(Candidates(SeedPairs(ParseFullFile(input).value.0), ParseFullFile(input).value.1))
  {
    var (seeds, maps) := ParseFullFile(input).value;
    lowest1 := Part1(seeds, maps);
    lowest2 := Part2AsWritten(seeds, maps);
  }
}

/** The conversions the unit test of `convert` checks. */
module SeedMapExamples {
  import opened Almanac
  import opened SeedMap

  lemma ConvertExamples()
    ensures Image([(50, 98, 2), (52, 50, 48)], 98) == 50
    ensures Image([(50, 98, 2), (52, 50, 48)], 55) == 57
    ensures Image([(50, 98, 2), (52, 50, 48)], 101) == 101
    ensures Image([(50, 98, 2), (52, 50, 48)], 10) == 10
  {
    var ranges: seq<Range> := [(50, 98, 2), (52, 50, 48)];
    ImageFirstMatch(ranges, 98, 0);
    ImageFirstMatch(ranges, 55, 1);
    ImageIdentity(ranges, 101);
    ImageIdentity(ranges, 10);
  }
}
