/**
 * The seed almanac and its `nom` parsers: a "seeds:" line of numbers, then
 * "X-to-Y map:" blocks of (destination, source, length) triples. The parsers
 * of src/day5.rs and src/solutions/day5.rs are the same text; this module
 * models them once.
 */
module Almanac {
  import opened Common
  import opened Text

  datatype Category = Seed | Soil | Fertilizer | Water | Light | Temperature | Humidity | Location

  /** The lower-case name by which the almanac writes a category. */
  function CategoryName(c: Category): string {
    match c
    case Seed => "seed"
    case Soil => "soil"
    case Fertilizer => "fertilizer"
    case Water => "water"
    case Light => "light"
    case Temperature => "temperature"
    case Humidity => "humidity"
    case Location => "location"
  }

  /**
   * `Category::from`: the name, lower-cased, is one of the eight category
   * names; any other name is `unimplemented!` (a panic), here `None`.
   */
  function CategoryFrom(name: string): (r: Option<Category>)
    ensures forall c :: r == Some(c) <==> Lower(name) == CategoryName(c)
  {
    match Lower(name)
    case "seed" => Some(Seed)
    case "soil" => Some(Soil)
    case "fertilizer" => Some(Fertilizer)
    case "water" => Some(Water)
    case "light" => Some(Light)
    case "temperature" => Some(Temperature)
    case "humidity" => Some(Humidity)
    case "location" => Some(Location)
    case _ => None
  }

  /** Upper-case ASCII letters, for stating that category names are case-insensitive. */
  function Upper(s: string): (r: string)
    ensures |r| == |s|
  {
    seq(|s|, i requires 0 <= i < |s| => if 'a' <= s[i] <= 'z' then (s[i] as int - 32) as char else s[i])
  }

  /** Every category reads back from its name, whatever the case it is written in. */
  lemma CategoryFromAnyCase(c: Category)
    ensures CategoryFrom(CategoryName(c)) == Some(c)
    ensures CategoryFrom(Upper(CategoryName(c))) == Some(c)
  {
    var n := CategoryName(c);
    assert Lower(n) == n;
    assert Lower(Upper(n)) == n;
  }

  /** A (destination start, source start, length) triple of a map block. */
  type Range = (nat, nat, nat)

  datatype CategoryMap = CategoryMap(source: Category, destination: Category, ranges: seq<Range>)

  // ---------------------------------------------------------------------
  // Parsers
  // ---------------------------------------------------------------------

  predicate AllU64(ns: seq<nat>) { forall i :: 0 <= i < |ns| ==> ns[i] < U64Bound }

  /** `separated_list1(tag(" "), u64)`. */
  function NumberList(s: string): (r: Parsed<seq<nat>>)
    ensures r.Done? ==> |r.value| >= 1 && |r.rest| < |s|
    ensures r.Done? ==> AllU64(r.value)
    ensures !r.Abort?
    decreases |s|
  {
    match Unsigned(s, U64Bound)
    case Done(n, rest) =>
      if StartsWith(rest, " ") then
        match NumberList(rest[1..])
        case Done(ns, rest') => Done([n] + ns, rest')
        case _ => Done([n], rest)
      else Done([n], rest)
    case _ => Mismatch
  }

  /** `parse_seeds`: "seeds: ", numbers separated by single spaces, a newline. */
  function ParseSeeds(s: string): (r: Parsed<seq<nat>>)
    ensures r.Done? ==> StartsWith(s, "seeds: ") && |r.value| >= 1
    ensures r.Done? ==> AllU64(r.value) && |r.rest| < |s|
    ensures !r.Abort?
  {
    match Tag(s, "seeds: ")
    case Done(_, r1) =>
      (match NumberList(r1)
       case Done(seeds, r2) =>
         (match Tag(r2, "\n")
          case Done(_, r3) => Done(seeds, r3)
          case _ => Mismatch)
       case _ => Mismatch)
    case _ => Mismatch
  }

  /**
   * The text half of `parse_map_categories`: two alphabetic names around
   * "-to-", then " map:\n".
   */
  function HeaderNames(s: string): (r: Parsed<(string, string)>)
    ensures r.Done? ==> |r.value.0| >= 1 && |r.value.1| >= 1 && |r.rest| < |s|
    ensures r.Done? ==> forall i :: 0 <= i < |r.value.0| ==> IsAlpha(r.value.0[i])
    ensures r.Done? ==> forall i :: 0 <= i < |r.value.1| ==> IsAlpha(r.value.1[i])
    ensures !r.Abort?
  {
    match Run1(s, IsAlpha)
    case Done(src, r1) =>
      (match Tag(r1, "-to-")
       case Done(_, r2) =>
         (match Run1(r2, IsAlpha)
          case Done(dst, r3) =>
            (match Tag(r3, " map:\n")
             case Done(_, r4) => Done((src, dst), r4)
             case _ => Mismatch)
          case _ => Mismatch)
       case _ => Mismatch)
    case _ => Mismatch
  }

  /**
   * `parse_map_categories`: the names become categories only once the whole
   * header has matched, and an unknown name then panics.
   */
  function ParseMapCategories(s: string): (r: Parsed<(Category, Category)>)
    ensures r.Mismatch? <==> !HeaderNames(s).Done?
    ensures r.Done? ==> |r.rest| < |s|
    ensures r.Done? ==> r.rest == HeaderNames(s).rest
  {
    match HeaderNames(s)
    case Done(names, rest) =>
      (match CategoryFrom(names.0)
       case None => Abort
       case Some(a) =>
         (match CategoryFrom(names.1)
          case None => Abort
          case Some(b) => Done((a, b), rest)))
    case _ => Mismatch
  }

  /** `parse_conversion_tuple`: three `u64`s separated by single spaces, kept in order. */
  function ParseConversionTuple(s: string): (r: Parsed<Range>)
    ensures r.Done? ==> |r.rest| < |s| && r.value.0 < U64Bound && r.value.1 < U64Bound && r.value.2 < U64Bound
    ensures !r.Abort?
  {
    match Unsigned(s, U64Bound)
    case Done(d, r1) =>
      (match Tag(r1, " ")
       case Done(_, r2) =>
         (match Unsigned(r2, U64Bound)
          case Done(src, r3) =>
            (match Tag(r3, " ")
             case Done(_, r4) =>
               (match Unsigned(r4, U64Bound)
                case Done(len, r5) =>
                  assert |r5| < |r4| <= |r3| < |r2| <= |r1| < |s|;
                  Done((d, src, len), r5)
                case _ => Mismatch)
             case _ => Mismatch)
          case _ => Mismatch)
       case _ => Mismatch)
    case _ => Mismatch
  }

  /** `separated_list1(tag("\n"), parse_conversion_tuple)`. */
  function TupleList(s: string): (r: Parsed<seq<Range>>)
    ensures r.Done? ==> |r.value| >= 1 && |r.rest| < |s|
    ensures !r.Abort?
    decreases |s|
  {
    match ParseConversionTuple(s)
    case Done(t, rest) =>
      if StartsWith(rest, "\n") then
        match TupleList(rest[1..])
        case Done(ts, rest') => Done([t] + ts, rest')
        case _ => Done([t], rest)
      else Done([t], rest)
    case _ => Mismatch
  }

  /** `parse_map`: a header, then one or more newline-separated triples. */
  function ParseMap(s: string): (r: Parsed<CategoryMap>)
    ensures r.Done? ==> |r.value.ranges| >= 1 && |r.rest| < |s|
  {
    match ParseMapCategories(s)
    case Done(cats, r1) =>
      (match TupleList(r1)
       case Done(ranges, r2) => Done(CategoryMap(cats.0, cats.1, ranges), r2)
       case _ => Mismatch)
    case Abort => Abort
    case Mismatch => Mismatch
  }

  /** Every map has at least one range, as `separated_list1` in `parse_map` demands. */
  predicate RangesNonEmpty(ms: seq<CategoryMap>) {
    forall i :: 0 <= i < |ms| ==> |ms[i].ranges| >= 1
  }

  lemma RangesNonEmptyCons(m: CategoryMap, ms: seq<CategoryMap>)
    requires |m.ranges| >= 1 && RangesNonEmpty(ms)
    ensures RangesNonEmpty([m] + ms)
  {
  }

  /** `parse_maps`: `separated_list1(multispace1, parse_map)`; a panic in a later block still aborts. */
  function ParseMaps(s: string): (r: Parsed<seq<CategoryMap>>)
    ensures r.Done? ==> |r.value| >= 1 && |r.rest| < |s|
    ensures r.Done? ==> RangesNonEmpty(r.value)
    decreases |s|
  {
    match ParseMap(s)
    case Done(m, rest) =>
      (match Run1(rest, IsMultispace)
       case Done(_, rest1) =>
         (match ParseMaps(rest1)
          case Done(ms, rest') => RangesNonEmptyCons(m, ms); Done([m] + ms, rest')
          case Abort => Abort
          case Mismatch => Done([m], rest))
       case _ => Done([m], rest))
    case Abort => Abort
    case Mismatch => Mismatch
  }

  /** `parse_full_conversion_map_file`: the seeds line, white space, the map blocks. */
  function ParseFullFile(s: string): (r: Parsed<(seq<nat>, seq<CategoryMap>)>)
    ensures r.Done? ==> |r.value.0| >= 1 && |r.value.1| >= 1 && |r.rest| < |s|
    ensures r.Done? ==> AllU64(r.value.0) && RangesNonEmpty(r.value.1)
  {
    match ParseSeeds(s)
    case Done(seeds, r1) =>
      (match Run1(r1, IsMultispace)
       case Done(_, r2) =>
         (match ParseMaps(r2)
          case Done(maps, r3) => Done((seeds, maps), r3)
          case Abort => Abort
          case Mismatch => Mismatch)
       case _ => Mismatch)
    case _ => Mismatch
  }

  // ---------------------------------------------------------------------
  // The almanac's text, and the parsers reading it back
  // ---------------------------------------------------------------------

  function ShowNumbers(ns: seq<nat>, sep: string): string
    requires |ns| >= 1
  {
    if |ns| == 1 then ShowNat(ns[0]) else ShowNat(ns[0]) + sep + ShowNumbers(ns[1..], sep)
  }

  function RenderSeeds(seeds: seq<nat>): string
    requires |seeds| >= 1
  {
    "seeds: " + ShowNumbers(seeds, " ") + "\n"
  }

  function RenderTuple(t: Range): string {
    ShowNat(t.0) + " " + ShowNat(t.1) + " " + ShowNat(t.2)
  }

  function RenderTuples(ts: seq<Range>): string
    requires |ts| >= 1
  {
    if |ts| == 1 then RenderTuple(ts[0]) else RenderTuple(ts[0]) + "\n" + RenderTuples(ts[1..])
  }

  function RenderHeader(source: Category, destination: Category): string {
    CategoryName(source) + "-to-" + CategoryName(destination) + " map:\n"
  }

  function RenderMap(m: CategoryMap): string
    requires |m.ranges| >= 1
  {
    RenderHeader(m.source, m.destination) + RenderTuples(m.ranges)
  }

  /** One or more map blocks, each with at least one triple. */
  predicate Renderable(ms: seq<CategoryMap>) {
    |ms| >= 1 && forall i :: 0 <= i < |ms| ==> |ms[i].ranges| >= 1
  }

  /** Map blocks separated by a blank line. */
  function RenderMaps(ms: seq<CategoryMap>): string
    requires Renderable(ms)
  {
    if |ms| == 1 then RenderMap(ms[0]) else RenderMap(ms[0]) + "\n\n" + RenderMaps(ms[1..])
  }

  function RenderFile(seeds: seq<nat>, maps: seq<CategoryMap>): string
    requires |seeds| >= 1 && Renderable(maps)
  {
    RenderSeeds(seeds) + "\n" + RenderMaps(maps)
  }

  predicate TupleU64(t: Range) { t.0 < U64Bound && t.1 < U64Bound && t.2 < U64Bound }

  /** A map block with at least one triple, whose numbers all fit in a `u64`. */
  predicate MapU64(m: CategoryMap) {
    |m.ranges| >= 1 && forall j :: 0 <= j < |m.ranges| ==> TupleU64(m.ranges[j])
  }

  predicate MapsU64(ms: seq<CategoryMap>) {
    Renderable(ms) && forall i :: 0 <= i < |ms| ==> MapU64(ms[i])
  }

  /** What may follow a list separated by `sep` without the list reading on into it. */
  predicate ListStops(rest: string, sep: char) {
    !StartsWithDigit(rest) && !(|rest| >= 1 && rest[0] == sep && StartsWithDigit(rest[1..]))
  }

  lemma NumberListLast(n: nat, rest: string)
    requires n < U64Bound && ListStops(rest, ' ')
    ensures NumberList(ShowNat(n) + rest) == Done([n], rest)
  {
    UnsignedOfShow(n, rest, U64Bound);
    if StartsWith(rest, " ") {
      UnsignedOfNonDigit(rest[1..], U64Bound);
    }
  }

  lemma NumberListCons(n: nat, tail: string, ns: seq<nat>, rest: string)
    requires n < U64Bound && NumberList(tail) == Done(ns, rest)
    ensures NumberList(ShowNat(n) + (" " + tail)) == Done([n] + ns, rest)
  {
    UnsignedOfShow(n, " " + tail, U64Bound);
    assert (" " + tail)[1..] == tail;
  }

  lemma ShowNumbersCons(ns: seq<nat>, sep: string)
    requires |ns| >= 2
    ensures ShowNumbers(ns, sep) == ShowNat(ns[0]) + sep + ShowNumbers(ns[1..], sep)
  {
  }

  lemma NumberListStep(ns: seq<nat>, rest: string)
    requires |ns| >= 2 && ns[0] < U64Bound
    requires NumberList(ShowNumbers(ns[1..], " ") + rest) == Done(ns[1..], rest)
    ensures NumberList(ShowNumbers(ns, " ") + rest) == Done(ns, rest)
  {
    var tail := ShowNumbers(ns[1..], " ") + rest;
    Regroup(ShowNat(ns[0]), " ", ShowNumbers(ns[1..], " "), rest);
    ShowNumbersCons(ns, " ");
    NumberListCons(ns[0], tail, ns[1..], rest);
    assert [ns[0]] + ns[1..] == ns;
  }

  lemma {:induction false} NumberListOfShow(ns: seq<nat>, rest: string)
    requires |ns| >= 1 && AllU64(ns) && ListStops(rest, ' ')
    ensures NumberList(ShowNumbers(ns, " ") + rest) == Done(ns, rest)
    decreases |ns|
  {
    if |ns| == 1 {
      assert ShowNumbers(ns, " ") == ShowNat(ns[0]) && ns == [ns[0]];
      NumberListLast(ns[0], rest);
    } else {
      NumberListOfShow(ns[1..], rest);
      NumberListStep(ns, rest);
    }
  }

  /** `parse_seeds` reads back the seeds line. */
  lemma ParseSeedsOfRender(seeds: seq<nat>, rest: string)
    requires |seeds| >= 1 && AllU64(seeds)
    ensures ParseSeeds(RenderSeeds(seeds) + rest) == Done(seeds, rest)
  {
    var s2 := "\n" + rest;
    var s1 := ShowNumbers(seeds, " ") + s2;
    assert RenderSeeds(seeds) + rest == "seeds: " + s1;
    TagOfConcat("seeds: ", s1);
    NumberListOfShow(seeds, s2);
    TagOfConcat("\n", rest);
  }

  /** `parse_conversion_tuple` reads the three numbers back in order (values up to 2^64 - 1). */
  lemma ParseConversionTupleOfRender(t: Range, rest: string)
    requires TupleU64(t) && !StartsWithDigit(rest)
    ensures ParseConversionTuple(RenderTuple(t) + rest) == Done(t, rest)
  {
    RenderTupleRegroup(t, rest);
    ParseConversionTupleOfParts(t.0, t.1, t.2, rest);
  }

  lemma RenderTupleRegroup(t: Range, rest: string)
    ensures RenderTuple(t) + rest == ShowNat(t.0) + (" " + (ShowNat(t.1) + (" " + (ShowNat(t.2) + rest))))
  {
  }

  lemma ParseConversionTupleOfParts(a: nat, b: nat, c: nat, rest: string)
    requires a < U64Bound && b < U64Bound && c < U64Bound && !StartsWithDigit(rest)
    ensures ParseConversionTuple(ShowNat(a) + (" " + (ShowNat(b) + (" " + (ShowNat(c) + rest))))) == Done((a, b, c), rest)
  {
    var s4 := ShowNat(c) + rest;
    var s3 := " " + s4;
    var s2 := ShowNat(b) + s3;
    var s1 := " " + s2;
    UnsignedOfShow(a, s1, U64Bound);
    TagOfConcat(" ", s2);
    UnsignedOfShow(b, s3, U64Bound);
    TagOfConcat(" ", s4);
    UnsignedOfShow(c, rest, U64Bound);
  }

  lemma TupleListOfNonDigit(s: string)
    requires !StartsWithDigit(s)
    ensures TupleList(s) == Mismatch
  {
    UnsignedOfNonDigit(s, U64Bound);
    assert ParseConversionTuple(s) == Mismatch;
  }

  lemma TupleListLast(t: Range, rest: string)
    requires TupleU64(t) && ListStops(rest, '\n')
    ensures TupleList(RenderTuple(t) + rest) == Done([t], rest)
  {
    ParseConversionTupleOfRender(t, rest);
    if StartsWith(rest, "\n") {
      assert rest[0] == rest[..1][0] == '\n';
      TupleListOfNonDigit(rest[1..]);
    }
  }

  lemma TupleListCons(t: Range, tail: string, ts: seq<Range>, rest: string)
    requires TupleU64(t) && TupleList(tail) == Done(ts, rest)
    ensures TupleList(RenderTuple(t) + ("\n" + tail)) == Done([t] + ts, rest)
  {
    ParseConversionTupleOfRender(t, "\n" + tail);
    assert ("\n" + tail)[1..] == tail;
  }

  lemma RenderTuplesCons(ts: seq<Range>, rest: string)
    requires |ts| >= 2
    ensures RenderTuples(ts) + rest == RenderTuple(ts[0]) + ("\n" + (RenderTuples(ts[1..]) + rest))
  {
    Regroup(RenderTuple(ts[0]), "\n", RenderTuples(ts[1..]), rest);
  }

  lemma TupleListStep(ts: seq<Range>, rest: string)
    requires |ts| >= 2 && TupleU64(ts[0])
    requires TupleList(RenderTuples(ts[1..]) + rest) == Done(ts[1..], rest)
    ensures TupleList(RenderTuples(ts) + rest) == Done(ts, rest)
  {
    RenderTuplesCons(ts, rest);
    TupleListCons(ts[0], RenderTuples(ts[1..]) + rest, ts[1..], rest);
    assert [ts[0]] + ts[1..] == ts;
  }

  lemma {:induction false} TupleListOfRender(ts: seq<Range>, rest: string)
    requires |ts| >= 1 && (forall i :: 0 <= i < |ts| ==> TupleU64(ts[i])) && ListStops(rest, '\n')
    ensures TupleList(RenderTuples(ts) + rest) == Done(ts, rest)
    decreases |ts|
  {
    if |ts| == 1 {
      assert RenderTuples(ts) == RenderTuple(ts[0]) && ts == [ts[0]];
      TupleListLast(ts[0], rest);
    } else {
      TupleListOfRender(ts[1..], rest);
      TupleListStep(ts, rest);
    }
  }

  lemma CategoryNameAlpha(c: Category)
    ensures |CategoryName(c)| > 0 && forall i :: 0 <= i < |CategoryName(c)| ==> IsAlpha(CategoryName(c)[i])
  {
  }

  predicate AlphaWord(w: string) {
    |w| > 0 && forall i :: 0 <= i < |w| ==> IsAlpha(w[i])
  }

  lemma HeaderNamesOfWords(a: string, b: string, rest: string)
    requires AlphaWord(a) && AlphaWord(b)
    ensures HeaderNames(a + "-to-" + b + " map:\n" + rest) == Done((a, b), rest)
  {
    var s3 := " map:\n" + rest;
    var s2 := b + s3;
    var s1 := "-to-" + s2;
    assert a + "-to-" + b + " map:\n" + rest == a + s1;
    assert s1[0] == '-' && s3[0] == ' ';
    Run1OfConcat(a, s1, IsAlpha);
    TagOfConcat("-to-", s2);
    Run1OfConcat(b, s3, IsAlpha);
    TagOfConcat(" map:\n", rest);
  }

  lemma HeaderNamesOfRender(source: Category, destination: Category, rest: string)
    ensures HeaderNames(RenderHeader(source, destination) + rest) == Done((CategoryName(source), CategoryName(destination)), rest)
  {
    CategoryNameAlpha(source);
    CategoryNameAlpha(destination);
    HeaderNamesOfWords(CategoryName(source), CategoryName(destination), rest);
  }

  /** `parse_map_categories` reads back any header the almanac writes. */
  lemma ParseMapCategoriesOfRender(source: Category, destination: Category, rest: string)
    ensures ParseMapCategories(RenderHeader(source, destination) + rest) == Done((source, destination), rest)
  {
    HeaderNamesOfRender(source, destination, rest);
    CategoryFromAnyCase(source);
    CategoryFromAnyCase(destination);
  }

  lemma ParseMapOfRender(m: CategoryMap, rest: string)
    requires MapU64(m) && ListStops(rest, '\n')
    ensures ParseMap(RenderMap(m) + rest) == Done(m, rest)
  {
    assert RenderMap(m) + rest == RenderHeader(m.source, m.destination) + (RenderTuples(m.ranges) + rest);
    ParseMapCategoriesOfRender(m.source, m.destination, RenderTuples(m.ranges) + rest);
    TupleListOfRender(m.ranges, rest);
  }

  /** What may follow the last map block: nothing, or text that neither continues it nor separates a next one. */
  predicate MapsStop(rest: string) {
    rest == [] || (!IsMultispace(rest[0]) && !IsDigit(rest[0]))
  }

  lemma FirstOfConcat(a: string, b: string)
    requires |a| > 0
    ensures (a + b)[0] == a[0]
  {
  }

  lemma FirstOfChain(a: string, b: string, c: string, d: string, e: string)
    requires |a| > 0
    ensures |a + b + c + d + e| > 0 && (a + b + c + d + e)[0] == a[0]
  {
  }

  /** A rendered block starts with its source category's name, so with a letter. */
  lemma RenderMapStart(m: CategoryMap)
    requires |m.ranges| >= 1
    ensures |RenderMap(m)| > 0 && IsAlpha(RenderMap(m)[0])
  {
    CategoryNameAlpha(m.source);
    FirstOfChain(CategoryName(m.source), "-to-", CategoryName(m.destination), " map:\n", RenderTuples(m.ranges));
  }

  /** Rendered map text starts with its first category name, so no white space. */
  lemma RenderMapsStart(ms: seq<CategoryMap>, rest: string)
    requires Renderable(ms)
    ensures |RenderMaps(ms) + rest| > 0 && IsAlpha((RenderMaps(ms) + rest)[0])
    ensures !IsMultispace((RenderMaps(ms) + rest)[0]) && !IsDigit((RenderMaps(ms) + rest)[0])
  {
    var first := RenderMap(ms[0]);
    RenderMapStart(ms[0]);
    if |ms| > 1 {
      assert RenderMaps(ms) == first + "\n\n" + RenderMaps(ms[1..]);
      FirstOfConcat(first, "\n\n" + RenderMaps(ms[1..]));
    } else {
      assert RenderMaps(ms) == first;
    }
    FirstOfConcat(RenderMaps(ms), rest);
  }

  lemma ParseMapsLast(m: CategoryMap, rest: string)
    requires MapU64(m) && MapsStop(rest)
    ensures ParseMaps(RenderMap(m) + rest) == Done([m], rest)
  {
    ParseMapOfRender(m, rest);
  }

  lemma ParseMapsCons(m: CategoryMap, tail: string, ms: seq<CategoryMap>, rest: string)
    requires MapU64(m) && ParseMaps(tail) == Done(ms, rest)
    requires |tail| > 0 && !IsMultispace(tail[0]) && !IsDigit(tail[0])
    ensures ParseMaps(RenderMap(m) + ("\n\n" + tail)) == Done([m] + ms, rest)
  {
    BlankLine(tail);
    ParseMapOfRender(m, "\n\n" + tail);
  }

  /** A blank line between blocks ends the triples of the first and is skipped as white space. */
  lemma BlankLine(tail: string)
    requires |tail| > 0 && !IsMultispace(tail[0])
    ensures ListStops("\n\n" + tail, '\n')
    ensures Run1("\n\n" + tail, IsMultispace) == Done("\n\n", tail)
  {
    var s1 := "\n\n" + tail;
    assert s1[0] == '\n' && s1[1..][0] == '\n';
    Run1OfConcat("\n\n", tail, IsMultispace);
  }

  lemma MapsU64Tail(ms: seq<CategoryMap>)
    requires MapsU64(ms) && |ms| >= 2
    ensures MapsU64(ms[1..])
  {
    forall i | 0 <= i < |ms[1..]| ensures MapU64(ms[1..][i]) && |ms[1..][i].ranges| >= 1 {
      assert ms[1..][i] == ms[i + 1];
    }
  }

  lemma {:induction false} ParseMapsOfRender(ms: seq<CategoryMap>, rest: string)
    requires MapsU64(ms) && MapsStop(rest)
    ensures ParseMaps(RenderMaps(ms) + rest) == Done(ms, rest)
    decreases |ms|
  {
    assert MapU64(ms[0]);
    if |ms| == 1 {
      assert RenderMaps(ms) == RenderMap(ms[0]) && ms == [ms[0]];
      ParseMapsLast(ms[0], rest);
    } else {
      var tail := RenderMaps(ms[1..]) + rest;
      Regroup(RenderMap(ms[0]), "\n\n", RenderMaps(ms[1..]), rest);
      MapsU64Tail(ms);
      RenderMapsStart(ms[1..], rest);
      ParseMapsOfRender(ms[1..], rest);
      ParseMapsCons(ms[0], tail, ms[1..], rest);
      assert [ms[0]] + ms[1..] == ms;
    }
  }

  /** The whole almanac reads back: seeds first, then the map blocks in order. */
  lemma ParseFullFileOfRender(seeds: seq<nat>, maps: seq<CategoryMap>, rest: string)
    requires |seeds| >= 1 && AllU64(seeds) && MapsU64(maps) && MapsStop(rest)
    ensures ParseFullFile(RenderFile(seeds, maps) + rest) == Done((seeds, maps), rest)
  {
    var body := RenderMaps(maps) + rest;
    Regroup(RenderSeeds(seeds), "\n", RenderMaps(maps), rest);
    ParseSeedsOfRender(seeds, "\n" + body);
    RenderMapsStart(maps, rest);
    Run1OfConcat("\n", body, IsMultispace);
    ParseMapsOfRender(maps, rest);
  }
}

/** The examples the parsers' unit tests check, derived from the round-trip lemmas. */
module AlmanacExamples {
  import opened Common
  import opened Text
  import opened Almanac

  /** A header the almanac writes, read back on its own. */
  lemma HeaderExample(source: Category, destination: Category, text: string)
    requires RenderHeader(source, destination) == text
    ensures ParseMapCategories(text) == Done((source, destination), "")
  {
    assert RenderHeader(source, destination) + "" == text;
    ParseMapCategoriesOfRender(source, destination, "");
  }

  lemma HeaderTexts()
    ensures RenderHeader(Seed, Soil) == "seed-to-soil map:\n"
    ensures RenderHeader(Temperature, Location) == "temperature-to-location map:\n"
    ensures RenderHeader(Water, Fertilizer) == "water-to-fertilizer map:\n"
  {
  }

  lemma SeedToSoilHeader()
    ensures ParseMapCategories("seed-to-soil map:\n") == Done((Seed, Soil), "")
  {
    HeaderTexts();
    HeaderExample(Seed, Soil, "seed-to-soil map:\n");
  }

  lemma TemperatureToLocationHeader()
    ensures ParseMapCategories("temperature-to-location map:\n") == Done((Temperature, Location), "")
  {
    HeaderTexts();
    HeaderExample(Temperature, Location, "temperature-to-location map:\n");
  }

  lemma WaterToFertilizerHeader()
    ensures ParseMapCategories("water-to-fertilizer map:\n") == Done((Water, Fertilizer), "")
  {
    HeaderTexts();
    HeaderExample(Water, Fertilizer, "water-to-fertilizer map:\n");
  }

  lemma TupleText()
    ensures RenderTuple((88, 18, 7)) == "88 18 7"
  {
    assert ShowNat(8) == "8";
    assert ShowNat(88) == "88" && ShowNat(18) == "18" && ShowNat(7) == "7";
  }

  lemma TupleExamples()
    ensures ParseConversionTuple("88 18 7") == Done((88, 18, 7), "")
  {
    TupleText();
    assert RenderTuple((88, 18, 7)) + "" == "88 18 7";
    ParseConversionTupleOfRender((88, 18, 7), "");
  }

  /** Triples beyond 2^32 are read whole: the parser reads `u64`s. */
  lemma WideTupleExample()
    ensures ParseConversionTuple(RenderTuple((4043589752, 1302126249, 251377544))) == Done((4043589752, 1302126249, 251377544), "")
  {
    var t: Range := (4043589752, 1302126249, 251377544);
    assert RenderTuple(t) + "" == RenderTuple(t);
    ParseConversionTupleOfRender(t, "");
  }

  lemma ShowFourNumbers(a: nat, b: nat, c: nat, d: nat)
    ensures ShowNumbers([a, b, c, d], " ") == ShowNat(a) + " " + (ShowNat(b) + " " + (ShowNat(c) + " " + ShowNat(d)))
  {
    var s4, s3, s2 := [a, b, c, d], [b, c, d], [c, d];
    assert s4[1..] == s3 && s3[1..] == s2 && s2[1..] == [d];
    ShowNumbersCons(s4, " ");
    ShowNumbersCons(s3, " ");
    ShowNumbersCons(s2, " ");
    assert ShowNumbers([d], " ") == ShowNat(d);
  }

  lemma ShowFiveNumbers(a: nat, b: nat, c: nat, d: nat, e: nat)
    ensures ShowNumbers([a, b, c, d, e], " ") == ShowNat(a) + " " + ShowNumbers([b, c, d, e], " ")
  {
    assert [a, b, c, d, e][1..] == [b, c, d, e];
  }

  lemma SeedsText()
    ensures RenderSeeds([1, 2, 3, 4, 5]) == "seeds: " + "1 2 3 4 5" + "\n"
  {
    assert ShowNat(1) == "1" && ShowNat(2) == "2" && ShowNat(3) == "3" && ShowNat(4) == "4" && ShowNat(5) == "5";
    ShowFiveNumbers(1, 2, 3, 4, 5);
    ShowFourNumbers(2, 3, 4, 5);
  }

  lemma SeedsExample()
    ensures ParseSeeds("seeds: " + "1 2 3 4 5" + "\n") == Done([1, 2, 3, 4, 5], "")
  {
    SeedsText();
    assert RenderSeeds([1, 2, 3, 4, 5]) + "" == "seeds: " + "1 2 3 4 5" + "\n";
    ParseSeedsOfRender([1, 2, 3, 4, 5], "");
  }

  /** A block whose triples exceed 2^32 keeps all three, in input order. */
  lemma WideMapExample()
    ensures ParseMap(RenderMap(CategoryMap(Seed, Soil, [(34344, 43242342, 5435345), (123, 123, 123), (4043589752, 1302126249, 251377544)])) + "")
      == Done(CategoryMap(Seed, Soil, [(34344, 43242342, 5435345), (123, 123, 123), (4043589752, 1302126249, 251377544)]), "")
  {
    ParseMapOfRender(CategoryMap(Seed, Soil, [(34344, 43242342, 5435345), (123, 123, 123), (4043589752, 1302126249, 251377544)]), "");
  }

  function ExampleMaps(): seq<CategoryMap> {
    [CategoryMap(Seed, Soil, [(50, 98, 2), (52, 50, 48)]),
     CategoryMap(Soil, Fertilizer, [(0, 15, 37), (37, 52, 2), (39, 0, 15)])]
  }

  lemma ShowTwoDigits(n: nat, hi: char, lo: char)
    requires 10 <= n < 100 && hi == DigitChar(n / 10) && lo == DigitChar(n % 10)
    ensures ShowNat(n) == [hi, lo]
  {
  }

  lemma ExampleSeedsText()
    ensures RenderSeeds([79, 14, 55, 13]) == "seeds: 79 14 55 13\n"
  {
    ShowTwoDigits(79, '7', '9');
    ShowTwoDigits(14, '1', '4');
    ShowTwoDigits(55, '5', '5');
    ShowTwoDigits(13, '1', '3');
    ShowFourNumbers(79, 14, 55, 13);
  }

  /** A triple renders as its three numerals separated by single spaces. */
  lemma RenderTupleText(t: Range, a: string, b: string, c: string)
    requires ShowNat(t.0) == a && ShowNat(t.1) == b && ShowNat(t.2) == c
    ensures RenderTuple(t) == a + " " + b + " " + c
  {
  }

  lemma RenderTwoTuples(x: Range, y: Range)
    ensures RenderTuples([x, y]) == RenderTuple(x) + "\n" + RenderTuple(y)
  {
    assert [x, y][1..] == [y];
  }

  lemma RenderThreeTuples(x: Range, y: Range, z: Range)
    ensures RenderTuples([x, y, z]) == RenderTuple(x) + "\n" + (RenderTuple(y) + "\n" + RenderTuple(z))
  {
    assert [x, y, z][1..] == [y, z];
    RenderTwoTuples(y, z);
  }

  lemma ExampleFirstTuples()
    ensures RenderTuple((50, 98, 2)) == "50 98 2" && RenderTuple((52, 50, 48)) == "52 50 48"
  {
    ShowTwoDigits(50, '5', '0');
    ShowTwoDigits(98, '9', '8');
    ShowTwoDigits(52, '5', '2');
    ShowTwoDigits(48, '4', '8');
    assert ShowNat(2) == "2";
    RenderTupleText((50, 98, 2), "50", "98", "2");
    RenderTupleText((52, 50, 48), "52", "50", "48");
  }

  lemma ExampleSecondTuples()
    ensures RenderTuple((0, 15, 37)) == "0 15 37" && RenderTuple((37, 52, 2)) == "37 52 2"
    ensures RenderTuple((39, 0, 15)) == "39 0 15"
  {
    ShowTwoDigits(15, '1', '5');
    ShowTwoDigits(37, '3', '7');
    ShowTwoDigits(52, '5', '2');
    ShowTwoDigits(39, '3', '9');
    assert ShowNat(0) == "0" && ShowNat(2) == "2";
    RenderTupleText((0, 15, 37), "0", "15", "37");
    RenderTupleText((37, 52, 2), "37", "52", "2");
    RenderTupleText((39, 0, 15), "39", "0", "15");
  }

  lemma ExampleFirstTuplesText()
    ensures RenderTuples(ExampleMaps()[0].ranges) == ("50 98 2" + "\n" + "52 50 48")
  {
    RenderTwoTuples((50, 98, 2), (52, 50, 48));
    ExampleFirstTuples();
  }

  lemma ExampleSecondTuplesText()
    ensures RenderTuples(ExampleMaps()[1].ranges) == ("0 15 37" + "\n" + ("37 52 2" + "\n" + "39 0 15"))
  {
    RenderThreeTuples((0, 15, 37), (37, 52, 2), (39, 0, 15));
    ExampleSecondTuples();
  }

  lemma ExampleFirstMapText()
    ensures RenderMap(ExampleMaps()[0]) == "seed-to-soil map:\n" + ("50 98 2" + "\n" + "52 50 48")
  {
    ExampleFirstTuplesText();
    assert RenderHeader(Seed, Soil) == "seed-to-soil map:\n";
  }

  lemma ExampleSecondMapText()
    ensures RenderMap(ExampleMaps()[1]) == "soil-to-fertilizer map:\n" + ("0 15 37" + "\n" + ("37 52 2" + "\n" + "39 0 15"))
  {
    ExampleSecondTuplesText();
    assert RenderHeader(Soil, Fertilizer) == "soil-to-fertilizer map:\n";
  }

  /** The example's two blocks, each a header followed by its triples. */
  lemma ExampleMapsText()
    ensures RenderMaps(ExampleMaps()) ==
      ("seed-to-soil map:\n" + ("50 98 2" + "\n" + "52 50 48")) + "\n\n" + ("soil-to-fertilizer map:\n" + ("0 15 37" + "\n" + ("37 52 2" + "\n" + "39 0 15")))
  {
    var ms := ExampleMaps();
    ExampleFirstMapText();
    ExampleSecondMapText();
    assert RenderMaps(ms[1..]) == RenderMap(ms[1]);
  }

  lemma ExampleFileText()
    ensures RenderFile([79, 14, 55, 13], ExampleMaps()) == "seeds: 79 14 55 13\n" + "\n" + (("seed-to-soil map:\n" + ("50 98 2" + "\n" + "52 50 48")) + "\n\n"
        + ("soil-to-fertilizer map:\n" + ("0 15 37" + "\n" + ("37 52 2" + "\n" + "39 0 15"))))
  {
    ExampleSeedsText();
    ExampleMapsText();
  }

  lemma ExampleFileParses()
    ensures ParseFullFile(RenderFile([79, 14, 55, 13], ExampleMaps())) == Done(([79, 14, 55, 13], ExampleMaps()), "")
  {
    assert AllU64([79, 14, 55, 13]);
    assert MapsU64(ExampleMaps());
    ParseFullFileOfRender([79, 14, 55, 13], ExampleMaps(), "");
    assert RenderFile([79, 14, 55, 13], ExampleMaps()) + "" == RenderFile([79, 14, 55, 13], ExampleMaps());
  }

  /** The whole-file example: two map blocks after the seeds line. */
  lemma FullFileExample()
    ensures ParseFullFile("seeds: 79 14 55 13\n" + "\n" + (("seed-to-soil map:\n" + ("50 98 2" + "\n" + "52 50 48")) + "\n\n"
        + ("soil-to-fertilizer map:\n" + ("0 15 37" + "\n" + ("37 52 2" + "\n" + "39 0 15")))))
      == Done(([79, 14, 55, 13], ExampleMaps()), "")
  {
    ExampleFileText();
    ExampleFileParses();
  }
}
