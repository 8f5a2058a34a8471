/**
 * Day 4: scratchcards. A line "Card 1: 41 48 83 | 83 86 6" holds the
 * winning numbers and the numbers I have; the numbers I have that are
 * winning score points (1 for the first, doubling for each further one),
 * and in part 2 each card with k winners wins one copy of each of the next
 * k cards per copy of itself.
 */
module Scratchcards {
  import opened Common
  import opened Text

  // ---------------------------------------------------------------------
  // Filtering
  // ---------------------------------------------------------------------

  /** `into_iter().filter(p).collect()`: the elements satisfying `p`, in order. */
  function Filter<T>(s: seq<T>, p: T -> bool): (r: seq<T>)
    ensures |r| <= |s|
    ensures forall i :: 0 <= i < |r| ==> p(r[i])
  {
    if s == [] then []
    else Filter(s[..|s| - 1], p) + (if p(s[|s| - 1]) then [s[|s| - 1]] else [])
  }

  /** Filtering keeps every element satisfying `p` as often as it occurs, and drops every other. */
  lemma {:induction false} FilterCounts<T>(s: seq<T>, p: T -> bool)
    ensures forall x :: multiset(Filter(s, p))[x] == if p(x) then multiset(s)[x] else 0
  {
    if s != [] {
      var init, last := s[..|s| - 1], s[|s| - 1];
      FilterCounts(init, p);
      assert s == init + [last];
      assert multiset(s) == multiset(init) + multiset{last};
    }
  }

  /**
   * Filtering keeps the order: filtering a concatenation filters each part in
   * place, so a kept element stays before every kept element that followed it.
   */
  lemma {:induction false} FilterAppend<T>(a: seq<T>, b: seq<T>, p: T -> bool)
    ensures Filter(a + b, p) == Filter(a, p) + Filter(b, p)
  {
    if b != [] {
      var init, last := b[..|b| - 1], b[|b| - 1];
      FilterAppend(a, init, p);
      assert (a + b)[..|a + b| - 1] == a + init;
      assert (a + b)[|a + b| - 1] == last;
    } else {
      assert a + b == a;
    }
  }

  // ---------------------------------------------------------------------
  // Parsing a card
  // ---------------------------------------------------------------------

  predicate IsCardSeparator(c: char) {
    c == ':' || c == '|'
  }

  /** `x.trim().is_empty()`: nothing but white space (see `BlankIffTrimmedEmpty`). */
  predicate Blank(t: string) {
    forall i :: 0 <= i < |t| ==> IsWhitespace(t[i])
  }

  lemma {:induction false} TrimEndKeepsFirst(u: string)
    requires |u| > 0 && !IsWhitespace(u[0])
    ensures |TrimEnd(u)| > 0
    decreases |u|
  {
    if IsWhitespace(u[|u| - 1]) {
      TrimEndKeepsFirst(u[..|u| - 1]);
    }
  }

  /** A string trims to nothing exactly when it is all white space. */
  lemma BlankIffTrimmedEmpty(t: string)
    ensures Blank(t) <==> Trim(t) == []
  {
    var n := Span(t, IsWhitespace);
    if Blank(t) {
      assert n == |t|;
      assert TrimStart(t) == [];
    } else {
      assert n < |t|;
      var u := TrimStart(t);
      assert u == t[n..] && u[0] == t[n];
      TrimEndKeepsFirst(u);
    }
  }

  predicate NotBlank(t: string) {
    !Blank(t)
  }

  /** `.trim().split(" ").filter(|x| !x.trim().is_empty())`: the tokens of a field. */
  function Tokens(field: string): (ts: seq<string>)
    ensures forall i :: 0 <= i < |ts| ==> !Blank(ts[i])
  {
    Filter(SplitOn(Trim(field), " "), NotBlank)
  }

  /** Exactly the pieces between single spaces that are not blank survive, each as often as it occurs. */
  lemma TokensSkipBlanks(field: string)
    ensures forall t :: multiset(Tokens(field))[t] ==
                        if Blank(t) then 0 else multiset(SplitOn(Trim(field), " "))[t]
  {
    FilterCounts(SplitOn(Trim(field), " "), NotBlank);
  }

  lemma SplitDoubleSpace()
    ensures SplitOn("1  2", " ") == ["1", "", "2"]
  {
    assert "1  2" == "1" + [' '] + " 2";
    assert " 2" == [] + [' '] + "2";
    SplitOnAbsent("2", ' ');
    SplitOnFirst([], ' ', "2");
    SplitOnFirst("1", ' ', " 2");
  }

  lemma BlankExamples()
    ensures Blank("") && !Blank("1") && !Blank("2")
  {
    assert !IsWhitespace("1"[0]) && !IsWhitespace("2"[0]);
  }

  lemma FilterSnoc<T>(s: seq<T>, x: T, p: T -> bool)
    ensures Filter(s + [x], p) == Filter(s, p) + (if p(x) then [x] else [])
  {
    assert (s + [x])[..|s|] == s;
  }

  lemma FilterBlankExample()
    ensures Filter(["1", "", "2"], NotBlank) == ["1", "2"]
  {
    var none: seq<string> := [];
    FilterSnoc(none, "1", NotBlank);
    assert none + ["1"] == ["1"];
    FilterSnoc(["1"], "", NotBlank);
    assert ["1"] + [""] == ["1", ""];
    FilterSnoc(["1", ""], "2", NotBlank);
    assert ["1", ""] + ["2"] == ["1", "", "2"];
    BlankExamples();
  }

  /** Two spaces between numbers leave an empty piece, which is dropped. */
  lemma DoubleSpaceExample()
    ensures Tokens("1  2") == ["1", "2"]
  {
    TrimOfTrimmed("1  2");
    SplitDoubleSpace();
    FilterBlankExample();
  }

  /** Each token read as a `u32`; `None` is the panic of an `unwrap` on a token that is not one. */
  function ParseAll(tokens: seq<string>): (r: Option<seq<nat>>)
    ensures r.Some? <==> forall i :: 0 <= i < |tokens| ==> ParseUnsigned(tokens[i], U32Bound).Some?
    ensures r.Some? ==> |r.value| == |tokens|
    ensures r.Some? ==> forall i :: 0 <= i < |tokens| ==> Some(r.value[i]) == ParseUnsigned(tokens[i], U32Bound)
  {
    if tokens == [] then Some([])
    else
      var init := tokens[..|tokens| - 1];
      assert forall i :: 0 <= i < |init| ==> init[i] == tokens[i];
      match (ParseAll(init), ParseUnsigned(tokens[|tokens| - 1], U32Bound))
      case (Some(ns), Some(n)) => Some(ns + [n])
      case _ => None
  }

  /** The numbers of one field of a card. */
  function Numbers(field: string): Option<seq<nat>> {
    ParseAll(Tokens(field))
  }

  /** `split_line[1]` and `split_line[2]` of `line.split(&[':', '|'])`; `None` where the indexing panics. */
  function CardFields(line: string): (r: Option<(string, string)>)
    ensures r.Some? <==> |SplitWhere(line, IsCardSeparator)| >= 3
    ensures r.Some? ==> r.value == (SplitWhere(line, IsCardSeparator)[1], SplitWhere(line, IsCardSeparator)[2])
  {
    var parts := SplitWhere(line, IsCardSeparator);
    if |parts| < 3 then None else Some((parts[1], parts[2]))
  }

  // ---------------------------------------------------------------------
  // Winners and points
  // ---------------------------------------------------------------------

  /** `get_winning_numbers`' last step: the numbers I have that are in the winning list, in my order. */
  function Winners(winning: seq<nat>, mine: seq<nat>): (w: seq<nat>)
    ensures |w| <= |mine|
    ensures forall i :: 0 <= i < |w| ==> w[i] in winning
  {
    Filter(mine, x => x in winning)
  }

  /** A number of mine is among the winners exactly when it is winning, and as often as I have it. */
  lemma WinnersCount(winning: seq<nat>, mine: seq<nat>)
    ensures forall x :: multiset(Winners(winning, mine))[x] == if x in winning then multiset(mine)[x] else 0
  {
    FilterCounts(mine, x => x in winning);
  }

  /** `get_winning_numbers`: the winners of a card line, or `None` where the source panics. */
  function WinnersOfLine(line: string): Option<seq<nat>> {
    match CardFields(line)
    case None => None
    case Some((winningField, mineField)) =>
      match (Numbers(winningField), Numbers(mineField))
      case (Some(winning), Some(mine)) => Some(Winners(winning, mine))
      case _ => None
  }

  function Pow2(k: nat): (p: nat)
    ensures p >= 1
  {
    if k == 0 then 1 else 2 * Pow2(k - 1)
  }

  /** `calculate_points_for_card` on the number of winners: 0, 1, then doubling. */
  function Points(winners: nat): (p: nat)
    ensures p == 0 <==> winners == 0
  {
    match winners
    case 0 => 0
    case 1 => 1
    case _ => Pow2(winners - 1)
  }

  /** Points are 2 to the power of one less than the number of winners. */
  lemma PointsArePowers(winners: nat)
    requires winners >= 1
    ensures Points(winners) == Pow2(winners - 1)
  {
  }

  /** Each winner after the first doubles the points. */
  lemma PointsDouble(winners: nat)
    requires winners >= 1
    ensures Points(winners + 1) == 2 * Points(winners)
  {
  }

  /** `parse_winning_numbers` of the first version: the points of one card line. */
  function CardPoints(line: string): (r: Option<nat>)
    ensures r.Some? <==> WinnersOfLine(line).Some?
    ensures r.Some? ==> r.value == Points(|WinnersOfLine(line).value|)
  {
    match WinnersOfLine(line)
    case Some(w) => Some(Points(|w|))
    case None => None
  }

  // ---------------------------------------------------------------------
  // Copies of cards
  // ---------------------------------------------------------------------

  /** The number of copies card `j` ends with: itself, and what the cards before it win of it. */
  function Copies(wins: seq<nat>, j: nat): (c: nat)
    requires j < |wins|
    ensures c >= 1
    decreases j, 1
  {
    1 + Received(wins, j, j)
  }

  /** Copies of card `j` won by the cards before `i`: card `i'` wins one of each of the next `wins[i']` cards per copy of itself. */
  function Received(wins: seq<nat>, j: nat, i: nat): nat
    requires i <= j < |wins|
    decreases j, 0, i
  {
    if i == 0 then 0
    else Received(wins, j, i - 1) + (if j <= i - 1 + wins[i - 1] then Copies(wins, i - 1) else 0)
  }

  /** No card can be won by a card after it: the cascade fits inside the table. */
  predicate CascadeFits(wins: seq<nat>) {
    forall i :: 0 <= i < |wins| ==> i + wins[i] < |wins|
  }

  /**
   * The `card_count` loop of `day4`: one copy of each card, and then every
   * card in order adds its count to each of the next `wins[idx]` cards,
   * one increment at a time. Indexing past the table panics, hence the precondition.
   */
  method CountCards(wins: seq<nat>) returns (cardCount: array<nat>)
    requires CascadeFits(wins)
    ensures fresh(cardCount) && cardCount.Length == |wins|
    ensures forall j :: 0 <= j < |wins| ==> cardCount[j] == Copies(wins, j)
  {
    var n := |wins|;
    cardCount := new nat[n](_ => 0);
    for idx := 0 to n
      invariant forall j :: 0 <= j < idx ==> cardCount[j] == Copies(wins, j)
      invariant forall j :: idx <= j < n ==> cardCount[j] == Received(wins, j, idx)
    {
      cardCount[idx] := cardCount[idx] + 1;
      var k := wins[idx];
      ghost var mid := cardCount[..];
      if k > 0 {
        AddCopies(cardCount, idx, k, cardCount[idx]);
      }
      forall j | idx < j < n ensures cardCount[j] == Received(wins, j, idx + 1) {
        assert mid[j] == Received(wins, j, idx);
      }
    }
  }

  /** The inner loops of `day4`: `times` rounds, each adding one to every one of the `k` cards after `idx`. */
  method AddCopies(cardCount: array<nat>, idx: nat, k: nat, times: nat)
    requires idx + k < cardCount.Length
    modifies cardCount
    ensures forall j :: 0 <= j < cardCount.Length ==>
      cardCount[j] == old(cardCount[j]) + (if idx < j <= idx + k then times else 0)
  {
    ghost var mid := cardCount[..];
    for count := 0 to times
      invariant forall j :: 0 <= j < cardCount.Length ==> cardCount[j] == mid[j] + (if idx < j <= idx + k then count else 0)
    {
      for m := 0 to k
        invariant forall j :: 0 <= j < cardCount.Length ==>
          cardCount[j] == mid[j] + (if idx < j <= idx + k then count else 0) + (if idx < j <= idx + m then 1 else 0)
      {
        cardCount[idx + m + 1] := cardCount[idx + m + 1] + 1;
      }
    }
  }

  /** Without any winners, every card is held exactly once. */
  lemma {:induction false} NoWinsNoCopies(wins: seq<nat>, j: nat, i: nat)
    requires i <= j < |wins| && forall k :: 0 <= k < |wins| ==> wins[k] == 0
    ensures Received(wins, j, i) == 0
    decreases i
  {
    if i > 0 {
      NoWinsNoCopies(wins, j, i - 1);
    }
  }

  /** A card is won only by the cards within reach before it: only the first card is never won. */
  lemma FirstCardHeldOnce(wins: seq<nat>)
    requires |wins| > 0
    ensures Copies(wins, 0) == 1
  {
  }

  /**
   * Six cards with 4, 2, 2, 1, 0 and 0 winners end with 1, 2, 4, 8, 14
   * and 1 copies, 30 cards in all.
   */
  lemma CascadeExample()
    ensures AllCopies([4, 2, 2, 1, 0, 0]) == [1, 2, 4, 8, 14, 1]
    ensures Sum(AllCopies([4, 2, 2, 1, 0, 0])) == 30
  {
    var w := [4, 2, 2, 1, 0, 0];
    assert Copies(w, 0) == 1;
    assert Received(w, 1, 1) == 1;
    assert Copies(w, 1) == 2;
    assert Received(w, 2, 1) == 1;
    assert Copies(w, 2) == 4;
    assert Received(w, 3, 1) == 1 && Received(w, 3, 2) == 3;
    assert Copies(w, 3) == 8;
    assert Received(w, 4, 1) == 1 && Received(w, 4, 2) == 1 && Received(w, 4, 3) == 5;
    assert Copies(w, 4) == 14;
    assert Received(w, 5, 1) == 0 && Received(w, 5, 2) == 0 && Received(w, 5, 3) == 0 && Received(w, 5, 4) == 0;
    assert Copies(w, 5) == 1;
    assert AllCopies(w) == [1, 2, 4, 8, 14, 1];
    SumExample();
  }

  lemma SumExample()
    ensures Sum([1, 2, 4, 8, 14, 1]) == 30
  {
    var s1: seq<nat> := [1];
    var s2: seq<nat> := [1, 2];
    var s3: seq<nat> := [1, 2, 4];
    var s4: seq<nat> := [1, 2, 4, 8];
    var s5: seq<nat> := [1, 2, 4, 8, 14];
    var s6: seq<nat> := [1, 2, 4, 8, 14, 1];
    assert s1[..0] == [] && s2[..1] == s1 && s3[..2] == s2 && s4[..3] == s3 && s5[..4] == s4 && s6[..5] == s5;
    assert Sum(s1) == 1;
    assert Sum(s2) == 3;
    assert Sum(s3) == 7;
    assert Sum(s4) == 15;
    assert Sum(s5) == 29;
  }

  // ---------------------------------------------------------------------
  // Totals
  // ---------------------------------------------------------------------

  /** `fold(0, |acc, n| acc + n)`. */
  function Sum(xs: seq<nat>): nat {
    if xs == [] then 0 else Sum(xs[..|xs| - 1]) + xs[|xs| - 1]
  }

  /** A sum of entries that are each at least 1 is at least their number. */
  lemma {:induction false} SumOfPositives(xs: seq<nat>)
    requires forall i :: 0 <= i < |xs| ==> xs[i] >= 1
    ensures Sum(xs) >= |xs|
  {
    if xs != [] {
      var init := xs[..|xs| - 1];
      assert forall i :: 0 <= i < |init| ==> init[i] == xs[i];
      SumOfPositives(init);
    }
  }

  /** The copies of every card. */
  function AllCopies(wins: seq<nat>): (cs: seq<nat>)
    ensures |cs| == |wins|
  {
    seq(|wins|, j requires 0 <= j < |wins| => Copies(wins, j))
  }

  /** There are at least as many cards in the end as there were originals. */
  lemma TotalCardsAtLeastOriginals(wins: seq<nat>)
    ensures Sum(AllCopies(wins)) >= |wins|
  {
    SumOfPositives(AllCopies(wins));
  }

  /** The points of every card, one entry each. */
  function AllPoints(winners: seq<seq<nat>>): (ps: seq<nat>)
    ensures |ps| == |winners|
  {
    seq(|winners|, i requires 0 <= i < |winners| => Points(|winners[i]|))
  }

  /** The number of winners on every card. */
  function WinCounts(winners: seq<seq<nat>>): (wins: seq<nat>)
    ensures |wins| == |winners|
  {
    seq(|winners|, i requires 0 <= i < |winners| => |winners[i]|)
  }

  /** Every line reads: two fields after the card label, made of `u32` tokens. */
  predicate CardsRead(lines: seq<string>) {
    forall i :: 0 <= i < |lines| ==> WinnersOfLine(lines[i]).Some?
  }

  /** The winners of every line. */
  function AllWinners(lines: seq<string>): (ws: seq<seq<nat>>)
    requires CardsRead(lines)
    ensures |ws| == |lines|
  {
    seq(|lines|, i requires 0 <= i < |lines| => WinnersOfLine(lines[i]).value)
  }

  /** `day4` of the second version: the total points and the total number of cards. */
  method Day4(lines: seq<string>) returns (totalPoints: nat, totalCardCount: nat)
    requires CardsRead(lines) && CascadeFits(WinCounts(AllWinners(lines)))
    ensures totalPoints == Sum(AllPoints(AllWinners(lines)))
    ensures totalCardCount == Sum(AllCopies(WinCounts(AllWinners(lines))))
    ensures totalCardCount >= |lines|
  {
    var winnersForCard := AllWinners(lines);
    totalPoints := Sum(AllPoints(winnersForCard));
    var wins := WinCounts(winnersForCard);
    var cardCount := CountCards(wins);
    assert cardCount[..] == AllCopies(wins);
    totalCardCount := Sum(cardCount[..]);
    TotalCardsAtLeastOriginals(wins);
  }

  /** The sum of the values when every entry is `Some`; `None` (a panic) otherwise. */
  function AddUp(xs: seq<Option<nat>>): (r: Option<nat>)
    ensures r.Some? <==> forall i :: 0 <= i < |xs| ==> xs[i].Some?
  {
    if xs == [] then Some(0)
    else
      var init := xs[..|xs| - 1];
      assert forall i :: 0 <= i < |init| ==> init[i] == xs[i];
      match (AddUp(init), xs[|xs| - 1])
      case (Some(total), Some(x)) => Some(total + x)
      case _ => None
  }

  /** Adding up the `Some` of each value is the sum of the values. */
  lemma {:induction false} AddUpValues(xs: seq<Option<nat>>, ys: seq<nat>)
    requires |xs| == |ys| && forall i :: 0 <= i < |xs| ==> xs[i] == Some(ys[i])
    ensures AddUp(xs) == Some(Sum(ys))
  {
    if xs != [] {
      var n := |xs| - 1;
      assert forall i :: 0 <= i < n ==> xs[..n][i] == Some(ys[..n][i]);
      AddUpValues(xs[..n], ys[..n]);
    }
  }

  /** `day4` of the first version: the points of the lines added up, `None` where some line panics. */
  function TotalPoints(lines: seq<string>): (r: Option<nat>)
  {
    AddUp(seq(|lines|, i requires 0 <= i < |lines| => CardPoints(lines[i])))
  }

  /** Both versions agree on the points. */
  lemma TotalPointsAgree(lines: seq<string>)
    requires CardsRead(lines)
    ensures TotalPoints(lines) == Some(Sum(AllPoints(AllWinners(lines))))
  {
    var outcomes := seq(|lines|, i requires 0 <= i < |lines| => CardPoints(lines[i]));
    var points := AllPoints(AllWinners(lines));
    forall i | 0 <= i < |lines| ensures outcomes[i] == Some(points[i]) {
      assert WinnersOfLine(lines[i]).Some?;
    }
    AddUpValues(outcomes, points);
  }
}
