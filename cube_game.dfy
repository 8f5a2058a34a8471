/**
 * Day 2: games of cubes drawn from a bag. A line "Game N: 3 blue, 4 red;
 * 1 red, 2 green" lists the handfuls revealed in game N; a game is possible
 * for a bag when no colour is ever seen more often than the bag holds, and
 * the day's answer is the sum of the ids of the possible games.
 */
module CubeGame {
  import opened Common
  import opened Text

  // ---------------------------------------------------------------------
  // Colours
  // ---------------------------------------------------------------------

  /** `Colour`; `NoColour` is the source's `Colour::None` for any other word. */
  datatype Colour = Red | Green | Blue | NoColour

  function Name(c: Colour): string
    requires c != NoColour
  {
    match c
    case Red => "red"
    case Green => "green"
    case Blue => "blue"
  }

  /** `Colour::from`: the word, lower-cased, names one of the three colours, or it is `Colour::None`. */
  function ColourFrom(s: string): (c: Colour)
    ensures c != NoColour ==> Lower(s) == Name(c)
    ensures c == NoColour ==> Lower(s) != "red" && Lower(s) != "green" && Lower(s) != "blue"
  {
    var word := Lower(s);
    if word == "red" then Red
    else if word == "green" then Green
    else if word == "blue" then Blue
    else NoColour
  }

  /** A colour's name reads back as that colour, in any mix of upper and lower case. */
  lemma ColourFromName(c: Colour, s: string)
    requires c != NoColour && Lower(s) == Name(c)
    ensures ColourFrom(s) == c
  {
  }

  lemma NameIsLower(c: Colour)
    requires c != NoColour
    ensures Lower(Name(c)) == Name(c)
  {
    var n := Name(c);
    assert forall i :: 0 <= i < |n| ==> 'a' <= n[i] <= 'z';
  }

  /** The names themselves, and their capitalised forms, read back. */
  lemma ColourNamesRoundTrip(c: Colour)
    requires c != NoColour
    ensures ColourFrom(Name(c)) == c
  {
    NameIsLower(c);
  }

  lemma NameHasNoSpace(c: Colour)
    requires c != NoColour
    ensures forall i :: 0 <= i < |Name(c)| ==> Name(c)[i] != ' '
  {
    match c
    case Red =>
    case Green =>
    case Blue =>
  }

  /** Case does not matter: "Blue" is blue. */
  lemma CapitalisedBlue()
    ensures ColourFrom("Blue") == Blue
  {
    assert Lower("Blue") == "blue";
  }

  // ---------------------------------------------------------------------
  // One count of balls: "3 blue"
  // ---------------------------------------------------------------------

  /** `BallData`: a colour and the number of balls of it shown. */
  datatype BallData = BallData(colour: Colour, count: nat)

  function Words(s: string): seq<string> {
    SplitOn(Trim(s), " ")
  }

  /** The text has a second word; `BallData::from` indexes it and panics without one. */
  predicate BallText(s: string) {
    |Words(s)| >= 2
  }

  /**
   * `BallData::from`: trim, split on single spaces, the colour from the
   * second word and the count from the first, 0 when that is not a `u32`.
   */
  function BallDataFrom(s: string): (b: BallData)
    requires BallText(s)
    ensures b.count < U32Bound
    ensures b.count == (match ParseUnsigned(Words(s)[0], U32Bound) case Some(n) => n case None => 0)
  {
    var w := Words(s);
    BallData(ColourFrom(w[1]), ParseUnsigned(w[0], U32Bound).GetOr(0))
  }

  /** "n colour" reads back as n balls of that colour. */
  lemma BallDataRoundTrip(c: Colour, n: nat)
    requires c != NoColour && n < U32Bound
    ensures BallText(ShowNat(n) + " " + Name(c))
    ensures BallDataFrom(ShowNat(n) + " " + Name(c)) == BallData(c, n)
  {
    var digits := ShowNat(n);
    var name := Name(c);
    var s := digits + " " + name;
    assert s[0] == digits[0] && s[|s| - 1] == name[|name| - 1];
    TrimOfTrimmed(s);
    assert forall i :: 0 <= i < |digits| ==> digits[i] != ' ' by {
      forall i | 0 <= i < |digits| ensures digits[i] != ' ' {
        assert IsDigit(digits[i]);
      }
    }
    SplitOnFirst(digits, ' ', name);
    NameHasNoSpace(c);
    SplitOnAbsent(name, ' ');
    assert Words(s) == [digits, name];
    ParseUnsignedOfShow(n, U32Bound);
    ColourNamesRoundTrip(c);
  }

  // ---------------------------------------------------------------------
  // get_max_colours_seen
  // ---------------------------------------------------------------------

  /** The handfuls of a game, one after the other. */
  function Flatten(revealed: seq<seq<BallData>>): (balls: seq<BallData>)
  {
    if revealed == [] then [] else Flatten(revealed[..|revealed| - 1]) + revealed[|revealed| - 1]
  }

  /** One step of the fold: a colour seen for the first time, or seen more often than before, takes this count. */
  function Record(acc: map<Colour, nat>, b: BallData): map<Colour, nat> {
    if b.colour !in acc || acc[b.colour] < b.count then acc[b.colour := b.count] else acc
  }

  /** The accumulator after every ball of `balls`, in order. */
  function MaxSeenOf(balls: seq<BallData>): map<Colour, nat> {
    if balls == [] then map[] else Record(MaxSeenOf(balls[..|balls| - 1]), balls[|balls| - 1])
  }

  /** Some ball of `balls` has colour `c`. */
  predicate Shows(balls: seq<BallData>, c: Colour) {
    exists i :: 0 <= i < |balls| && balls[i].colour == c
  }

  /** The colours that are keys of the accumulator are exactly the colours shown. */
  lemma {:induction false} MaxSeenKeys(balls: seq<BallData>, c: Colour)
    ensures c in MaxSeenOf(balls) <==> Shows(balls, c)
  {
    if balls != [] {
      var init := balls[..|balls| - 1];
      var last := balls[|balls| - 1];
      MaxSeenKeys(init, c);
      if c != last.colour {
        if Shows(init, c) {
          var i :| 0 <= i < |init| && init[i].colour == c;
          assert balls[i] == init[i];
        }
        if Shows(balls, c) {
          var i :| 0 <= i < |balls| && balls[i].colour == c;
          assert i < |init| && init[i] == balls[i];
        }
      } else {
        assert balls[|balls| - 1].colour == c;
      }
    }
  }

  /** No ball of a colour shows more than the accumulator holds for it. */
  lemma {:induction false} MaxSeenBounds(balls: seq<BallData>, i: int)
    requires 0 <= i < |balls|
    ensures balls[i].colour in MaxSeenOf(balls) && balls[i].count <= MaxSeenOf(balls)[balls[i].colour]
  {
    var init := balls[..|balls| - 1];
    if i < |init| {
      assert init[i] == balls[i];
      MaxSeenBounds(init, i);
    }
  }

  /** The value the accumulator holds for a colour is the count of some ball of that colour. */
  lemma {:induction false} MaxSeenAttained(balls: seq<BallData>, c: Colour) returns (i: nat)
    requires c in MaxSeenOf(balls)
    ensures i < |balls| && balls[i].colour == c && balls[i].count == MaxSeenOf(balls)[c]
  {
    var init := balls[..|balls| - 1];
    var last := balls[|balls| - 1];
    if c == last.colour && MaxSeenOf(balls)[c] == last.count {
      i := |balls| - 1;
    } else {
      i := MaxSeenAttained(init, c);
      assert balls[i] == init[i];
    }
  }

  /** `get_max_colours_seen`: fold over the handfuls, updating the accumulator map ball by ball. */
  method GetMaxColoursSeen(revealed: seq<seq<BallData>>) returns (acc: map<Colour, nat>)
    ensures acc == MaxSeenOf(Flatten(revealed))
  {
    acc := map[];
    for r := 0 to |revealed|
      invariant acc == MaxSeenOf(Flatten(revealed[..r]))
    {
      var data := revealed[r];
      assert revealed[..r + 1][..r] == revealed[..r];
      ghost var before := Flatten(revealed[..r]);
      assert before + data[..0] == before;
      for k := 0 to |data|
        invariant acc == MaxSeenOf(before + data[..k])
      {
        var ball := data[k];
        if ball.colour !in acc {
          acc := acc[ball.colour := ball.count];
        } else {
          var val := acc[ball.colour];
          if val < ball.count {
            acc := acc[ball.colour := ball.count];
          }
        }
        assert (before + data[..k + 1])[..|before + data[..k + 1]| - 1] == before + data[..k];
      }
      assert data[..|data|] == data;
      assert Flatten(revealed[..r + 1]) == before + data;
    }
    assert revealed[..|revealed|] == revealed;
  }

  // ---------------------------------------------------------------------
  // is_possible
  // ---------------------------------------------------------------------

  /** The colour is in both maps and the bag holds at least as many as were seen. */
  predicate Fits(given: map<Colour, nat>, seen: map<Colour, nat>, c: Colour) {
    c in given && c in seen && given[c] >= seen[c]
  }

  /** The colour is in both maps and more were seen than the bag holds. */
  predicate Exceeds(given: map<Colour, nat>, seen: map<Colour, nat>, c: Colour) {
    c in given && c in seen && given[c] < seen[c]
  }

  /**
   * `is_possible`: red, then blue, then green. Each `?` returns `None` for a
   * colour missing from either map, but `&&` stops at the first colour that
   * does not fit, so a colour that exceeds the bag gives `Some(false)` even
   * when a later colour is missing.
   */
  function IsPossible(given: map<Colour, nat>, seen: map<Colour, nat>): (r: Option<bool>)
    ensures r == Some(true) <==> Fits(given, seen, Red) && Fits(given, seen, Blue) && Fits(given, seen, Green)
    ensures r == Some(false) <==>
      Exceeds(given, seen, Red) ||
      (Fits(given, seen, Red) && Exceeds(given, seen, Blue)) ||
      (Fits(given, seen, Red) && Fits(given, seen, Blue) && Exceeds(given, seen, Green))
  {
    if Red !in given || Red !in seen then None
    else if !(given[Red] >= seen[Red]) then Some(false)
    else if Blue !in given || Blue !in seen then None
    else if !(given[Blue] >= seen[Blue]) then Some(false)
    else if Green !in given || Green !in seen then None
    else Some(given[Green] >= seen[Green])
  }

  /** With all three colours in both maps, the answer is whether each fits. */
  lemma IsPossibleWhenAllSeen(given: map<Colour, nat>, seen: map<Colour, nat>)
    requires forall c :: c in {Red, Green, Blue} ==> c in given && c in seen
    ensures IsPossible(given, seen) == Some(given[Red] >= seen[Red] && given[Green] >= seen[Green] && given[Blue] >= seen[Blue])
  {
    assert Red in {Red, Green, Blue} && Green in {Red, Green, Blue} && Blue in {Red, Green, Blue};
  }

  /** A game with too many reds is impossible even when it never shows blue. */
  lemma TooManyRedsWithoutBlue()
    ensures IsPossible(map[Red := 12, Green := 13, Blue := 14], map[Red := 20]) == Some(false)
    ensures IsPossible(map[Red := 12, Green := 13, Blue := 14], map[Red := 2]) == None
  {
  }

  // ---------------------------------------------------------------------
  // is_game_valid_for_given_set
  // ---------------------------------------------------------------------

  predicate IsGameSeparator(c: char) {
    c == ':' || c == ';'
  }

  /** `line.split(&[':', ';'])`: the "Game N" header, then one piece per handful. */
  function Parts(line: string): (parts: seq<string>)
    ensures |parts| >= 1
  {
    SplitWhere(line, IsGameSeparator)
  }

  /** The second space-separated word of the header, as a `u32`. */
  function GameId(line: string): Option<nat> {
    var header := SplitOn(Parts(line)[0], " ");
    if |header| < 2 then None else ParseUnsigned(header[1], U32Bound)
  }

  /** The ball texts of each handful: the pieces after the header, each split on ", ". */
  function HandfulTexts(line: string): (texts: seq<seq<string>>)
    ensures |texts| == |Parts(line)| - 1
  {
    var parts := Parts(line);
    seq(|parts| - 1, r requires 0 <= r < |parts| - 1 => SplitOn(parts[r + 1], ", "))
  }

  /** Every ball text has a count and a colour word, so `BallData::from` does not panic. */
  predicate WellFormed(line: string) {
    var texts := HandfulTexts(line);
    forall r, k :: 0 <= r < |texts| && 0 <= k < |texts[r]| ==> BallText(texts[r][k])
  }

  /** `GameData::new_from_raw_data`: every ball text read with `BallData::from`. */
  function Revealed(line: string): (revealed: seq<seq<BallData>>)
    requires WellFormed(line)
    ensures |revealed| == |HandfulTexts(line)|
    ensures forall r :: 0 <= r < |revealed| ==> |revealed[r]| == |HandfulTexts(line)[r]|
  {
    var texts := HandfulTexts(line);
    seq(|texts|, r requires 0 <= r < |texts| =>
      seq(|texts[r]|, k requires 0 <= k < |texts[r]| => BallDataFrom(texts[r][k])))
  }

  /** The game's id does not read, or every ball text is well formed: the lines the source reads without panicking. */
  predicate Readable(line: string) {
    GameId(line).Some? ==> WellFormed(line)
  }

  /**
   * `is_game_valid_for_given_set`: the game's id when it reads and the game
   * is possible for the bag, `None` otherwise. A malformed ball text panics
   * once the id has been read, hence the precondition.
   */
  function GameValid(line: string, given: map<Colour, nat>): (r: Option<nat>)
    requires Readable(line)
    ensures r.Some? <==> GameId(line).Some? && IsPossible(given, MaxSeenOf(Flatten(Revealed(line)))) == Some(true)
    ensures r.Some? ==> r == GameId(line)
  {
    match GameId(line)
    case None => None
    case Some(id) =>
      match IsPossible(given, MaxSeenOf(Flatten(Revealed(line))))
      case None => None
      case Some(possible) => if possible then Some(id) else None
  }

  /** The bag has colour `c`, some ball shows it, and no ball shows more of it than the bag holds. */
  predicate Allowed(given: map<Colour, nat>, balls: seq<BallData>, c: Colour) {
    c in given && Shows(balls, c) &&
    forall i :: 0 <= i < |balls| && balls[i].colour == c ==> balls[i].count <= given[c]
  }

  /** The fold's map fits the bag for one colour exactly when the balls themselves do. */
  lemma FitsIffAllowed(given: map<Colour, nat>, balls: seq<BallData>, c: Colour)
    ensures Fits(given, MaxSeenOf(balls), c) <==> Allowed(given, balls, c)
  {
    var seen := MaxSeenOf(balls);
    MaxSeenKeys(balls, c);
    if Fits(given, seen, c) {
      forall i | 0 <= i < |balls| && balls[i].colour == c ensures balls[i].count <= given[c] {
        MaxSeenBounds(balls, i);
      }
    }
    if Allowed(given, balls, c) {
      var i := MaxSeenAttained(balls, c);
    }
  }

  /** The game is possible exactly when each of red, green and blue is in the bag, is shown, and never exceeds the bag. */
  lemma PossibleIff(given: map<Colour, nat>, balls: seq<BallData>)
    ensures IsPossible(given, MaxSeenOf(balls)) == Some(true) <==>
      Allowed(given, balls, Red) && Allowed(given, balls, Green) && Allowed(given, balls, Blue)
  {
    FitsIffAllowed(given, balls, Red);
    FitsIffAllowed(given, balls, Green);
    FitsIffAllowed(given, balls, Blue);
  }

  /** A game line counts when its id reads and its balls are allowed for all three colours. */
  lemma GameValidIff(line: string, given: map<Colour, nat>)
    requires Readable(line) && GameId(line).Some?
    ensures GameValid(line, given) == GameId(line) <==>
      var balls := Flatten(Revealed(line));
      Allowed(given, balls, Red) && Allowed(given, balls, Green) && Allowed(given, balls, Blue)
  {
    PossibleIff(given, Flatten(Revealed(line)));
  }

  // ---------------------------------------------------------------------
  // day2
  // ---------------------------------------------------------------------

  /** The bag of the puzzle: 12 red, 13 green and 14 blue cubes. */
  function GivenSet(): map<Colour, nat> {
    map[Red := 12, Green := 13, Blue := 14]
  }

  /** What `is_game_valid_for_given_set` answers for each line. */
  function Outcomes(lines: seq<string>, given: map<Colour, nat>): (r: seq<Option<nat>>)
    requires forall i :: 0 <= i < |lines| ==> Readable(lines[i])
    ensures |r| == |lines|
  {
    seq(|lines|, i requires 0 <= i < |lines| => GameValid(lines[i], given))
  }

  /** The values of the `Some` entries, added up; a `None` adds 0. */
  function SumSome(xs: seq<Option<nat>>): nat {
    if xs == [] then 0 else SumSome(xs[..|xs| - 1]) + xs[|xs| - 1].GetOr(0)
  }

  /** All `None` sums to 0, and every `Some` value is at most the sum. */
  lemma {:induction false} SumSomeBounds(xs: seq<Option<nat>>)
    ensures (forall i :: 0 <= i < |xs| ==> xs[i].None?) ==> SumSome(xs) == 0
    ensures forall i :: 0 <= i < |xs| && xs[i].Some? ==> xs[i].value <= SumSome(xs)
  {
    if xs != [] {
      var init := xs[..|xs| - 1];
      SumSomeBounds(init);
      assert forall i :: 0 <= i < |init| ==> init[i] == xs[i];
    }
  }

  /** Appending one outcome adds its value, if any, to the sum. */
  lemma SumSomeSnoc(xs: seq<Option<nat>>, x: Option<nat>)
    ensures SumSome(xs + [x]) == SumSome(xs) + x.GetOr(0)
  {
    assert (xs + [x])[..|xs|] == xs;
  }

  /** `day2`: the possible games' ids added up line by line, an impossible or unreadable game adding 0. */
  method Day2(lines: seq<string>) returns (totalOfIds: nat)
    requires forall i :: 0 <= i < |lines| ==> Readable(lines[i])
    ensures totalOfIds == SumSome(Outcomes(lines, GivenSet()))
  {
    var givenSet := GivenSet();
    ghost var outcomes := Outcomes(lines, givenSet);
    totalOfIds := 0;
    for i := 0 to |lines|
      invariant totalOfIds == SumSome(outcomes[..i])
    {
      var x := GameValid(lines[i], givenSet);
      assert outcomes[..i + 1] == outcomes[..i] + [x];
      SumSomeSnoc(outcomes[..i], x);
      totalOfIds := totalOfIds + x.GetOr(0);
    }
    assert outcomes[..|lines|] == outcomes;
  }
}
