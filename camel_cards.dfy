/**
 * Camel Cards: hands of card symbols with a bid. A hand is reduced to the
 * multiplicity of each card, a card-value sum and a hand type; hands are
 * ordered by (type, value) and the winnings are the bids weighted by rank.
 */
module CamelCards {
  import opened Common
  import opened Text
  import opened Sorting

  // ---------------------------------------------------------------------
  // Cards
  // ---------------------------------------------------------------------

  datatype Card = One | Two | Three | Four | Five | Six | Seven | Eight | Nine | Ten | Jack | Queen | King | Ace

  /** The discriminant `card as u32`: digits are worth themselves, then T=10, J=11, Q=12, K=13, A=14. */
  function CardValue(c: Card): nat {
    match c
    case One => 1 case Two => 2 case Three => 3 case Four => 4 case Five => 5
    case Six => 6 case Seven => 7 case Eight => 8 case Nine => 9 case Ten => 10
    case Jack => 11 case Queen => 12 case King => 13 case Ace => 14
  }

  /** The symbol each card is serialized as. */
  function CardSymbol(c: Card): char {
    match c
    case One => '1' case Two => '2' case Three => '3' case Four => '4' case Five => '5'
    case Six => '6' case Seven => '7' case Eight => '8' case Nine => '9' case Ten => 'T'
    case Jack => 'J' case Queen => 'Q' case King => 'K' case Ace => 'A'
  }

  /** The characters `is_a("123456789TJQKA")` accepts. */
  predicate IsCardSymbol(ch: char) {
    ch in "123456789TJQKA"
  }

  /** `Card::from_str` on a one-character string: the card with that symbol, if any. */
  function CardFromSymbol(ch: char): (r: Option<Card>)
    ensures r.Some? <==> IsCardSymbol(ch)
    ensures r.Some? ==> CardSymbol(r.value) == ch
    ensures '1' <= ch <= '9' ==> r.Some? && CardValue(r.value) == DigitValue(ch)
  {
    match ch
    case '1' => Some(One) case '2' => Some(Two) case '3' => Some(Three) case '4' => Some(Four)
    case '5' => Some(Five) case '6' => Some(Six) case '7' => Some(Seven) case '8' => Some(Eight)
    case '9' => Some(Nine) case 'T' => Some(Ten) case 'J' => Some(Jack) case 'Q' => Some(Queen)
    case 'K' => Some(King) case 'A' => Some(Ace)
    case _ => None
  }

  /** Symbols and cards are in one-to-one correspondence. */
  lemma CardSymbolRoundTrip(c: Card)
    ensures IsCardSymbol(CardSymbol(c)) && CardFromSymbol(CardSymbol(c)) == Some(c)
  {
  }

  /** The card worth `v`. */
  function CardOfValue(v: nat): (c: Card)
    requires 1 <= v <= 14
    ensures CardValue(c) == v
  {
    if v == 1 then One else if v == 2 then Two else if v == 3 then Three
    else if v == 4 then Four else if v == 5 then Five else if v == 6 then Six
    else if v == 7 then Seven else if v == 8 then Eight else if v == 9 then Nine
    else if v == 10 then Ten else if v == 11 then Jack else if v == 12 then Queen
    else if v == 13 then King else Ace
  }

  /** Every card, in order of value. */
  function AllCards(): (cs: seq<Card>)
    ensures |cs| == 14 && forall i :: 0 <= i < 14 ==> CardValue(cs[i]) == i + 1
  {
    seq(14, i requires 0 <= i < 14 => CardOfValue(i + 1))
  }

  predicate NoDup(cs: seq<Card>) {
    forall i, j :: 0 <= i < j < |cs| ==> cs[i] != cs[j]
  }

  /** `AllCards()` lists each card exactly once. */
  lemma AllCardsOnce(c: Card)
    ensures c in AllCards() && NoDup(AllCards())
  {
    var all := AllCards();
    assert CardValue(all[CardValue(c) - 1]) == CardValue(c);
    assert all[CardValue(c) - 1] == c;
  }

  /** The cards a string of card symbols stands for (`split("")`, then `Card::from_str` on each character). */
  function CardsOf(s: string): (cs: seq<Card>)
    requires forall i :: 0 <= i < |s| ==> IsCardSymbol(s[i])
    ensures |cs| == |s| && forall i :: 0 <= i < |s| ==> CardSymbol(cs[i]) == s[i]
  {
    if s == [] then [] else [CardFromSymbol(s[0]).value] + CardsOf(s[1..])
  }

  // ---------------------------------------------------------------------
  // Counting the cards of a hand
  // ---------------------------------------------------------------------

  /** The `HashMap<Card, u32>` of multiplicities that `Hand::new` builds: each card present, with its count. */
  function CountsOf(cards: seq<Card>): map<Card, nat> {
    map c | c in multiset(cards) :: multiset(cards)[c]
  }

  /** The count of `c`, 0 when absent. */
  function Get(m: map<Card, nat>, c: Card): nat {
    if c in m then m[c] else 0
  }

  lemma GetCountsOf(cards: seq<Card>, c: Card)
    ensures Get(CountsOf(cards), c) == multiset(cards)[c]
  {
  }

  /** The fold of `Hand::new`: `*acc.entry(c).or_insert(0) += 1` for each card in turn. */
  method CountCards(cards: seq<Card>) returns (counts: map<Card, nat>)
    ensures counts == CountsOf(cards)
  {
    counts := map[];
    for i := 0 to |cards|
      invariant counts == CountsOf(cards[..i])
    {
      var c := cards[i];
      assert cards[..i + 1] == cards[..i] + [c];
      CountsOfSnoc(cards[..i], c);
      counts := counts[c := (if c in counts then counts[c] else 0) + 1];
    }
    assert cards[..|cards|] == cards;
  }

  /** One more card raises its own count by one and leaves the others alone. */
  lemma CountsOfSnoc(cards: seq<Card>, c: Card)
    ensures CountsOf(cards + [c]) == CountsOf(cards)[c := Get(CountsOf(cards), c) + 1]
  {
    var m, m' := CountsOf(cards), CountsOf(cards + [c]);
    assert multiset(cards + [c]) == multiset(cards) + multiset{c};
    forall d
      ensures d in m' <==> d in m[c := Get(m, c) + 1]
      ensures d in m' ==> m'[d] == m[c := Get(m, c) + 1][d]
    {
    }
  }

  /** Σ f(c) · count(c) over the cards listed in `cs`. */
  function Weighted(m: map<Card, nat>, cs: seq<Card>, f: Card -> nat): nat {
    if cs == [] then 0 else f(cs[0]) * Get(m, cs[0]) + Weighted(m, cs[1..], f)
  }

  /** Σ f(c) over the cards of a hand, in hand order. */
  function SumOver(cards: seq<Card>, f: Card -> nat): nat {
    if cards == [] then 0 else SumOver(cards[..|cards| - 1], f) + f(cards[|cards| - 1])
  }

  function Unit(c: Card): nat { 1 }

  lemma {:induction false} SumOverUnit(cards: seq<Card>)
    ensures SumOver(cards, Unit) == |cards|
  {
    if cards != [] {
      SumOverUnit(cards[..|cards| - 1]);
    }
  }

  lemma {:induction false} WeightedOfEmpty(cs: seq<Card>, f: Card -> nat)
    ensures Weighted(map[], cs, f) == 0
  {
    if cs != [] {
      WeightedOfEmpty(cs[1..], f);
    }
  }

  /** Raising one count by `d` raises the weighted sum by `f(x) · d` when `x` is listed once. */
  lemma {:induction false} Bump(m1: map<Card, nat>, m2: map<Card, nat>, x: Card, d: nat, cs: seq<Card>, f: Card -> nat)
    requires forall c :: Get(m1, c) == Get(m2, c) + (if c == x then d else 0)
    requires NoDup(cs)
    ensures Weighted(m1, cs, f) == Weighted(m2, cs, f) + (if x in cs then f(x) * d else 0)
  {
    if cs != [] {
      var h, tail := cs[0], cs[1..];
      assert NoDup(tail) by {
        forall i, j | 0 <= i < j < |tail| ensures tail[i] != tail[j] {
          assert tail[i] == cs[i + 1] && tail[j] == cs[j + 1];
        }
      }
      Bump(m1, m2, x, d, tail, f);
      assert x in cs <==> x == h || x in tail;
      if h == x {
        assert x !in tail;
        assert f(h) * Get(m1, h) == f(h) * Get(m2, h) + f(h) * d;
      }
    }
  }

  /** Weighting the counts of a hand is summing over its cards. */
  lemma {:induction false} WeightedOfCounts(cards: seq<Card>, f: Card -> nat)
    ensures Weighted(CountsOf(cards), AllCards(), f) == SumOver(cards, f)
  {
    if cards == [] {
      assert CountsOf(cards) == map[];
      WeightedOfEmpty(AllCards(), f);
    } else {
      var front, x := cards[..|cards| - 1], cards[|cards| - 1];
      assert cards == front + [x];
      WeightedOfCounts(front, f);
      AllCardsOnce(x);
      assert multiset(cards) == multiset(front) + multiset{x};
      Bump(CountsOf(cards), CountsOf(front), x, 1, AllCards(), f);
    }
  }

  /** The counts add up to the number of cards. */
  lemma CountsTotal(cards: seq<Card>)
    ensures Weighted(CountsOf(cards), AllCards(), Unit) == |cards|
  {
    WeightedOfCounts(cards, Unit);
    SumOverUnit(cards);
  }

  /** The card value of a hand is the sum of its cards' values, so it does not depend on their order. */
  lemma CardValueOrderFree(a: seq<Card>, b: seq<Card>)
    requires multiset(a) == multiset(b)
    ensures Weighted(CountsOf(a), AllCards(), CardValue) == SumOver(a, CardValue) == SumOver(b, CardValue)
  {
    WeightedOfCounts(a, CardValue);
    WeightedOfCounts(b, CardValue);
  }

  function Restrict(m: map<Card, nat>, keys: set<Card>): map<Card, nat> {
    map c | c in m && c in keys :: m[c]
  }

  /** Restricting to every key changes nothing; restricting to none leaves nothing to weigh. */
  lemma RestrictBounds(counts: map<Card, nat>)
    ensures Restrict(counts, counts.Keys) == counts
    ensures Weighted(Restrict(counts, {}), AllCards(), CardValue) == 0
  {
    var all, none := Restrict(counts, counts.Keys), Restrict(counts, {});
    assert all.Keys == counts.Keys;
    assert none.Keys == {};
    assert none == map[];
    WeightedOfEmpty(AllCards(), CardValue);
  }

  /** Dropping one key from the restriction drops its term from the weighted sum. */
  lemma RestrictRemove(counts: map<Card, nat>, keys: set<Card>, c: Card)
    requires c in keys && c in counts
    ensures Weighted(Restrict(counts, keys), AllCards(), CardValue)
      == Weighted(Restrict(counts, keys - {c}), AllCards(), CardValue) + CardValue(c) * counts[c]
  {
    AllCardsOnce(c);
    Bump(Restrict(counts, keys), Restrict(counts, keys - {c}), c, counts[c], AllCards(), CardValue);
  }

  /**
   * `card_value`: `Σ card · count` over the map's entries, visited in the
   * map's own (unspecified) order, here any order.
   */
  method CardValueOf(counts: map<Card, nat>) returns (value: nat)
    ensures value == Weighted(counts, AllCards(), CardValue)
  {
    value := 0;
    var remaining := counts.Keys;
    RestrictBounds(counts);
    while remaining != {}
      invariant remaining <= counts.Keys
      invariant value + Weighted(Restrict(counts, remaining), AllCards(), CardValue) == Weighted(counts, AllCards(), CardValue)
      decreases |remaining|
    {
      var c :| c in remaining;
      RestrictRemove(counts, remaining, c);
      value := value + CardValue(c) * counts[c];
      remaining := remaining - {c};
    }
  }

  // ---------------------------------------------------------------------
  // Hand types
  // ---------------------------------------------------------------------

  datatype HandType = HighCard | OnePair | TwoPair | ThreeOfAKind | FullHouse | FourOfAKind | FiveOfAKind

  /** The discriminants 1..7 that the derived order compares. */
  function TypeRank(t: HandType): nat {
    match t
    case HighCard => 1 case OnePair => 2 case TwoPair => 3 case ThreeOfAKind => 4
    case FullHouse => 5 case FourOfAKind => 6 case FiveOfAKind => 7
  }

  /** The multiplicities of the cards present, listed in the order of `cs`. */
  function CountList(m: map<Card, nat>, cs: seq<Card>): (r: seq<nat>)
    ensures forall i :: 0 <= i < |r| ==> r[i] > 0
  {
    if cs == [] then []
    else (if Get(m, cs[0]) > 0 then [Get(m, cs[0])] else []) + CountList(m, cs[1..])
  }

  function Descending(a: nat, b: nat): bool { b <= a }

  /** The counts sorted largest first, as `sorted_by(|a, b| b.1.cmp(a.1))` lists them. */
  function SortedCounts(m: map<Card, nat>): seq<nat> {
    InsertionSort(CountList(m, AllCards()), Descending)
  }

  /**
   * `get_type` on the counts sorted largest first, as written: `None` where it
   * panics (no count at all, a missing second count, or a largest count
   * outside 1..5). A largest count of 4 is classified as a two pair.
   */
  function TypeOfCountsAsWritten(s: seq<nat>): (r: Option<HandType>)
    ensures r == (if TypeOfCounts(s) == Some(FourOfAKind) then Some(TwoPair) else TypeOfCounts(s))
  {
    if |s| > 0 && s[0] == 4 then Some(TwoPair) else TypeOfCounts(s)
  }

  /** `get_type` with a largest count of 4 classified as four of a kind. */
  function TypeOfCounts(s: seq<nat>): Option<HandType> {
    if |s| == 0 then None
    else if s[0] == 5 then Some(FiveOfAKind)
    else if s[0] == 4 then Some(FourOfAKind)
    else if s[0] == 3 then
      (if |s| < 2 then None else if s[1] == 2 then Some(FullHouse) else Some(ThreeOfAKind))
    else if s[0] == 2 then
      (if |s| < 2 then None else if s[1] == 2 then Some(TwoPair) else Some(OnePair))
    else if s[0] == 1 then Some(HighCard)
    else None
  }

  /** `get_type` as written never yields four of a kind: it says two pair where the corrected reading says four of a kind. */
  function GetTypeAsWritten(m: map<Card, nat>): (r: Option<HandType>)
    ensures r != Some(FourOfAKind)
  {
    TypeOfCountsAsWritten(SortedCounts(m))
  }

  function GetType(m: map<Card, nat>): Option<HandType> {
    TypeOfCounts(SortedCounts(m))
  }

  /** How many of the counts equal `k`. */
  function Occ(counts: seq<nat>, k: nat): nat {
    if counts == [] then 0 else (if counts[0] == k then 1 else 0) + Occ(counts[1..], k)
  }

  lemma {:induction false} OccIsMultiplicity(counts: seq<nat>, k: nat)
    ensures Occ(counts, k) == multiset(counts)[k]
  {
    if counts != [] {
      OccIsMultiplicity(counts[1..], k);
      assert counts == [counts[0]] + counts[1..];
    }
  }

  /**
   * The hand types of the game for a five-card hand, by how many of its
   * labels occur five, four, three, two or one times (the counts, in any
   * order): five of a kind, four of a kind, three and two, three and two
   * singles, two pairs, one pair and three singles, five singles.
   */
  function ShapeType(counts: seq<nat>): Option<HandType> {
    if Occ(counts, 5) == 1 then Some(FiveOfAKind)
    else if Occ(counts, 4) == 1 then Some(FourOfAKind)
    else if Occ(counts, 3) == 1 && Occ(counts, 2) == 1 then Some(FullHouse)
    else if Occ(counts, 3) == 1 && Occ(counts, 1) == 2 then Some(ThreeOfAKind)
    else if Occ(counts, 2) == 2 then Some(TwoPair)
    else if Occ(counts, 2) == 1 && Occ(counts, 1) == 3 then Some(OnePair)
    else if Occ(counts, 1) == 5 then Some(HighCard)
    else None
  }

  /** The type of a shape does not depend on the order its counts are listed in. */
  lemma ShapeTypeOrderFree(a: seq<nat>, b: seq<nat>)
    requires multiset(a) == multiset(b)
    ensures ShapeType(a) == ShapeType(b)
  {
    forall k | 1 <= k <= 5 ensures Occ(a, k) == Occ(b, k) {
      OccIsMultiplicity(a, k);
      OccIsMultiplicity(b, k);
    }
  }

  function Sum(s: seq<nat>): nat {
    if s == [] then 0 else s[0] + Sum(s[1..])
  }

  lemma {:induction false} SumAppend(a: seq<nat>, b: seq<nat>)
    ensures Sum(a + b) == Sum(a) + Sum(b)
  {
    if a == [] {
      assert a + b == b;
    } else {
      SumAppend(a[1..], b);
      assert (a + b)[1..] == a[1..] + b;
    }
  }

  lemma {:induction false} SumInsert(s: seq<nat>, x: nat)
    ensures Sum(Insert(s, x, Descending)) == Sum(s) + x
  {
    if s == [] || Descending(s[|s| - 1], x) {
      SumAppend(s, [x]);
    } else {
      var front, last := s[..|s| - 1], s[|s| - 1];
      SumInsert(front, x);
      SumAppend(Insert(front, x, Descending), [last]);
      assert s == front + [last];
      SumAppend(front, [last]);
    }
  }

  lemma {:induction false} SumSorted(s: seq<nat>)
    ensures Sum(InsertionSort(s, Descending)) == Sum(s)
  {
    if s != [] {
      var front, last := s[..|s| - 1], s[|s| - 1];
      SumSorted(front);
      SumInsert(InsertionSort(front, Descending), last);
      assert s == front + [last];
      SumAppend(front, [last]);
    }
  }

  lemma {:induction false} SumCountList(m: map<Card, nat>, cs: seq<Card>)
    ensures Sum(CountList(m, cs)) == Weighted(m, cs, Unit)
  {
    if cs != [] {
      SumCountList(m, cs[1..]);
      var head := if Get(m, cs[0]) > 0 then [Get(m, cs[0])] else [];
      SumAppend(head, CountList(m, cs[1..]));
      assert Sum(head) == Get(m, cs[0]);
    }
  }

  /** The sorted counts of a hand are positive, largest first, and add up to the number of cards. */
  lemma SortedCountsOfHand(cards: seq<Card>)
    ensures SortedBy(SortedCounts(CountsOf(cards)), Descending)
    ensures forall i :: 0 <= i < |SortedCounts(CountsOf(cards))| ==> SortedCounts(CountsOf(cards))[i] > 0
    ensures Sum(SortedCounts(CountsOf(cards))) == |cards|
  {
    var list := CountList(CountsOf(cards), AllCards());
    var sorted := SortedCounts(CountsOf(cards));
    InsertionSortSorted(list, Descending);
    forall i | 0 <= i < |sorted| ensures sorted[i] > 0 {
      assert sorted[i] in multiset(sorted);
    }
    SumSorted(list);
    SumCountList(CountsOf(cards), AllCards());
    CountsTotal(cards);
  }

  /** Positive counts, largest first, that are all 1: there are as many as their sum. */
  lemma {:induction false} AllOnes(s: seq<nat>)
    requires forall i :: 0 <= i < |s| ==> s[i] == 1
    ensures Sum(s) == |s|
  {
    if s != [] {
      AllOnes(s[1..]);
    }
  }

  /** Positive counts add up to at least their number. */
  lemma {:induction false} SumAtLeastLength(s: seq<nat>)
    requires forall i :: 0 <= i < |s| ==> s[i] > 0
    ensures Sum(s) >= |s|
  {
    if s != [] {
      SumAtLeastLength(s[1..]);
    }
  }

  /** The seven ways five cards can fall into groups of equal cards, largest group first. */
  predicate FiveCardShape(s: seq<nat>) {
    s == [5] || s == [4, 1] || s == [3, 2] || s == [3, 1, 1] || s == [2, 2, 1] || s == [2, 1, 1, 1] || s == [1, 1, 1, 1, 1]
  }

  predicate Positive(s: seq<nat>) { forall i :: 0 <= i < |s| ==> s[i] > 0 }

  predicate AtMost(s: seq<nat>, k: nat) { forall i :: 0 <= i < |s| ==> s[i] <= k }

  lemma Peel(s: seq<nat>)
    requires s != []
    ensures s == [s[0]] + s[1..] && Sum(s) == s[0] + Sum(s[1..])
    ensures Positive(s) ==> Positive(s[1..])
    ensures forall k :: AtMost(s, k) ==> AtMost(s[1..], k)
  {
    assert forall i :: 0 <= i < |s| - 1 ==> s[1..][i] == s[i + 1];
  }

  lemma RestOfSumZero(t: seq<nat>)
    requires Positive(t) && Sum(t) == 0
    ensures t == []
  {
    SumAtLeastLength(t);
  }

  lemma RestOfSumOne(t: seq<nat>)
    requires Positive(t) && Sum(t) == 1
    ensures t == [1]
  {
    Peel(t);
    RestOfSumZero(t[1..]);
  }

  lemma RestOfSumTwo(t: seq<nat>)
    requires Positive(t) && Sum(t) == 2
    ensures t == [2] || t == [1, 1]
  {
    Peel(t);
    if t[0] == 2 {
      RestOfSumZero(t[1..]);
    } else {
      RestOfSumOne(t[1..]);
    }
  }

  lemma RestOfSumThree(t: seq<nat>)
    requires Positive(t) && Sum(t) == 3 && t != [] && t[0] <= 2 && AtMost(t, t[0])
    ensures t == [2, 1] || t == [1, 1, 1]
  {
    Peel(t);
    if t[0] == 2 {
      RestOfSumOne(t[1..]);
    } else {
      RestOfSumTwo(t[1..]);
      assert t[1..] != [2] by {
        assert AtMost(t[1..], 1);
      }
    }
  }

  lemma RestOfSumFour(t: seq<nat>)
    requires Positive(t) && Sum(t) == 4 && AtMost(t, 1)
    ensures t == [1, 1, 1, 1]
  {
    Peel(t);
    RestOfSumThree(t[1..]);
    assert t[1..] != [2, 1] by {
      assert AtMost(t[1..], 1);
    }
  }

  lemma ShapeOfFive(s: seq<nat>)
    requires s != [] && s[0] == 5 && Positive(s) && Sum(s) == 5
    ensures s == [5]
  {
    Peel(s);
    RestOfSumZero(s[1..]);
  }

  lemma ShapeOfFour(s: seq<nat>)
    requires s != [] && s[0] == 4 && Positive(s) && Sum(s) == 5
    ensures s == [4, 1]
  {
    Peel(s);
    RestOfSumOne(s[1..]);
    assert s == [4] + [1];
  }

  lemma ShapeOfThree(s: seq<nat>)
    requires s != [] && s[0] == 3 && Positive(s) && Sum(s) == 5
    ensures s == [3, 2] || s == [3, 1, 1]
  {
    Peel(s);
    RestOfSumTwo(s[1..]);
    assert s == [3] + [2] || s == [3] + [1, 1];
  }

  lemma ShapeOfTwo(s: seq<nat>)
    requires s != [] && s[0] == 2 && Positive(s) && AtMost(s, 2) && Sum(s) == 5
    requires |s| > 1 ==> AtMost(s[1..], s[1])
    ensures s == [2, 2, 1] || s == [2, 1, 1, 1]
  {
    Peel(s);
    var t := s[1..];
    SumAtLeastLength(t);
    assert t != [] && t[0] == s[1];
    RestOfSumThree(t);
    assert s == [2] + [2, 1] || s == [2] + [1, 1, 1];
  }

  lemma ShapeOfOne(s: seq<nat>)
    requires s != [] && s[0] == 1 && Positive(s) && AtMost(s, 1) && Sum(s) == 5
    ensures s == [1, 1, 1, 1, 1]
  {
    Peel(s);
    RestOfSumFour(s[1..]);
    assert s == [1] + [1, 1, 1, 1];
  }

  /** Counts adding up to five whose first is the largest and whose second is the largest of the rest. */
  lemma ShapeOf(s: seq<nat>)
    requires s != [] && Positive(s) && AtMost(s, s[0]) && Sum(s) == 5
    requires |s| > 1 ==> AtMost(s[1..], s[1])
    ensures FiveCardShape(s)
  {
    Peel(s);
    SumAtLeastLength(s[1..]);
    if s[0] == 5 {
      ShapeOfFive(s);
    } else if s[0] == 4 {
      ShapeOfFour(s);
    } else if s[0] == 3 {
      ShapeOfThree(s);
    } else if s[0] == 2 {
      ShapeOfTwo(s);
    } else {
      ShapeOfOne(s);
    }
  }

  /** Every five-card hand has one of the seven shapes. */
  lemma FiveCardShapes(s: seq<nat>)
    requires SortedBy(s, Descending) && (forall i :: 0 <= i < |s| ==> s[i] > 0) && Sum(s) == 5
    ensures FiveCardShape(s)
  {
    assert s != [];
    assert forall i :: 0 < i < |s| ==> Descending(s[0], s[i]);
    assert forall i :: 1 < i < |s| ==> Descending(s[1], s[i]);
    if |s| > 1 {
      assert forall i :: 0 <= i < |s| - 1 ==> s[1..][i] == s[i + 1];
    }
    ShapeOf(s);
  }

  lemma ShapeAgreesFive()
    ensures TypeOfCounts([5]).Some? && TypeOfCounts([5]) == ShapeType([5])
    ensures Occ([5], 4) == 0
  {
    assert Occ([5], 5) == 1 && Occ([5], 4) == 0 && Occ([5], 3) == 0 && Occ([5], 2) == 0 && Occ([5], 1) == 0;
  }

  lemma ShapeAgreesFour()
    ensures TypeOfCounts([4, 1]).Some? && TypeOfCounts([4, 1]) == ShapeType([4, 1])
    ensures Occ([4, 1], 4) == 1
  {
    assert Occ([4, 1], 5) == 0 && Occ([4, 1], 4) == 1 && Occ([4, 1], 3) == 0 && Occ([4, 1], 2) == 0 && Occ([4, 1], 1) == 1;
  }

  lemma ShapeAgreesFull()
    ensures TypeOfCounts([3, 2]).Some? && TypeOfCounts([3, 2]) == ShapeType([3, 2])
    ensures Occ([3, 2], 4) == 0
  {
    assert Occ([3, 2], 5) == 0 && Occ([3, 2], 4) == 0 && Occ([3, 2], 3) == 1 && Occ([3, 2], 2) == 1 && Occ([3, 2], 1) == 0;
  }

  lemma ShapeAgreesThree()
    ensures TypeOfCounts([3, 1, 1]).Some? && TypeOfCounts([3, 1, 1]) == ShapeType([3, 1, 1])
    ensures Occ([3, 1, 1], 4) == 0
  {
    assert Occ([3, 1, 1], 5) == 0 && Occ([3, 1, 1], 4) == 0 && Occ([3, 1, 1], 3) == 1 && Occ([3, 1, 1], 2) == 0 && Occ([3, 1, 1], 1) == 2;
  }

  lemma ShapeAgreesTwoPairs()
    ensures TypeOfCounts([2, 2, 1]).Some? && TypeOfCounts([2, 2, 1]) == ShapeType([2, 2, 1])
    ensures Occ([2, 2, 1], 4) == 0
  {
    assert Occ([2, 2, 1], 5) == 0 && Occ([2, 2, 1], 4) == 0 && Occ([2, 2, 1], 3) == 0 && Occ([2, 2, 1], 2) == 2 && Occ([2, 2, 1], 1) == 1;
  }

  lemma ShapeAgreesPair()
    ensures TypeOfCounts([2, 1, 1, 1]).Some? && TypeOfCounts([2, 1, 1, 1]) == ShapeType([2, 1, 1, 1])
    ensures Occ([2, 1, 1, 1], 4) == 0
  {
    assert Occ([2, 1, 1, 1], 5) == 0 && Occ([2, 1, 1, 1], 4) == 0 && Occ([2, 1, 1, 1], 3) == 0 && Occ([2, 1, 1, 1], 2) == 1 && Occ([2, 1, 1, 1], 1) == 3;
  }

  lemma ShapeAgreesHigh()
    ensures TypeOfCounts([1, 1, 1, 1, 1]).Some? && TypeOfCounts([1, 1, 1, 1, 1]) == ShapeType([1, 1, 1, 1, 1])
    ensures Occ([1, 1, 1, 1, 1], 4) == 0
  {
    assert Occ([1, 1, 1, 1, 1], 5) == 0 && Occ([1, 1, 1, 1, 1], 4) == 0 && Occ([1, 1, 1, 1, 1], 3) == 0 && Occ([1, 1, 1, 1, 1], 2) == 0 && Occ([1, 1, 1, 1, 1], 1) == 5;
  }

  /** On each of the seven shapes, `get_type` (corrected) gives the game's type. */
  lemma ShapeTypeAgrees(s: seq<nat>)
    requires FiveCardShape(s)
    ensures TypeOfCounts(s).Some? && TypeOfCounts(s) == ShapeType(s)
  {
    if s == [5] {
      ShapeAgreesFive();
    } else if s == [4, 1] {
      ShapeAgreesFour();
    } else if s == [3, 2] {
      ShapeAgreesFull();
    } else if s == [3, 1, 1] {
      ShapeAgreesThree();
    } else if s == [2, 2, 1] {
      ShapeAgreesTwoPairs();
    } else if s == [2, 1, 1, 1] {
      ShapeAgreesPair();
    } else {
      ShapeAgreesHigh();
    }
  }

  /** Every five-card hand has a type, and `get_type` (corrected) gives the type the game assigns to its shape. */
  lemma FiveCardHandType(cards: seq<Card>)
    requires |cards| == 5
    ensures GetType(CountsOf(cards)).Some?
    ensures GetType(CountsOf(cards)) == ShapeType(CountList(CountsOf(cards), AllCards()))
  {
    var sorted := SortedCounts(CountsOf(cards));
    SortedCountsOfHand(cards);
    FiveCardShapes(sorted);
    ShapeTypeAgrees(sorted);
    ShapeTypeOrderFree(sorted, CountList(CountsOf(cards), AllCards()));
  }

  /** As written, `get_type` misreads exactly the five-card hands holding four of a kind, as a two pair. */
  lemma {:induction false} FourOfAKindMisread(cards: seq<Card>)
    requires |cards| == 5
    ensures GetTypeAsWritten(CountsOf(cards)) != GetType(CountsOf(cards)) <==> GetType(CountsOf(cards)) == Some(FourOfAKind)
    ensures GetType(CountsOf(cards)) == Some(FourOfAKind) ==> GetTypeAsWritten(CountsOf(cards)) == Some(TwoPair)
  {
    var sorted := SortedCounts(CountsOf(cards));
    SortedCountsOfHand(cards);
    FiveCardShapes(sorted);
    MisreadShape(sorted);
  }

  /** On the seven shapes, the two readings of `get_type` part only on `[4, 1]`. */
  lemma MisreadShape(s: seq<nat>)
    requires FiveCardShape(s)
    ensures TypeOfCountsAsWritten(s) != TypeOfCounts(s) <==> TypeOfCounts(s) == Some(FourOfAKind)
    ensures TypeOfCounts(s) == Some(FourOfAKind) ==> TypeOfCountsAsWritten(s) == Some(TwoPair)
  {
  }

  /** A count occurs in the count list exactly when some listed card has it. */
  lemma {:induction false} OccCountList(m: map<Card, nat>, cs: seq<Card>, k: nat)
    requires k > 0
    ensures Occ(CountList(m, cs), k) > 0 <==> exists i :: 0 <= i < |cs| && Get(m, cs[i]) == k
  {
    if cs != [] {
      OccCountList(m, cs[1..], k);
      var head := if Get(m, cs[0]) > 0 then [Get(m, cs[0])] else [];
      OccAppend(head, CountList(m, cs[1..]), k);
      if exists i :: 0 <= i < |cs| && Get(m, cs[i]) == k {
        var i :| 0 <= i < |cs| && Get(m, cs[i]) == k;
        if i > 0 {
          assert cs[1..][i - 1] == cs[i];
        }
      }
      if exists i :: 0 <= i < |cs[1..]| && Get(m, cs[1..][i]) == k {
        var i :| 0 <= i < |cs[1..]| && Get(m, cs[1..][i]) == k;
        assert cs[i + 1] == cs[1..][i];
      }
    }
  }

  lemma {:induction false} OccAppend(a: seq<nat>, b: seq<nat>, k: nat)
    ensures Occ(a + b, k) == Occ(a, k) + Occ(b, k)
  {
    if a == [] {
      assert a + b == b;
    } else {
      OccAppend(a[1..], b, k);
      assert (a + b)[1..] == a[1..] + b;
    }
  }

  /** Among the seven shapes, four of a kind is the one holding a count of 4. */
  lemma FourOfAKindShape(s: seq<nat>)
    requires FiveCardShape(s)
    ensures TypeOfCounts(s) == Some(FourOfAKind) <==> Occ(s, 4) > 0
  {
    if s == [5] {
      ShapeAgreesFive();
    } else if s == [4, 1] {
      ShapeAgreesFour();
    } else if s == [3, 2] {
      ShapeAgreesFull();
    } else if s == [3, 1, 1] {
      ShapeAgreesThree();
    } else if s == [2, 2, 1] {
      ShapeAgreesTwoPairs();
    } else if s == [2, 1, 1, 1] {
      ShapeAgreesPair();
    } else {
      ShapeAgreesHigh();
    }
  }

  /** Some card of the hand occurs `k > 0` times exactly when `k` is among its counts. */
  lemma CountAmongCounts(cards: seq<Card>, k: nat)
    requires k > 0
    ensures Occ(CountList(CountsOf(cards), AllCards()), k) > 0 <==> exists c :: multiset(cards)[c] == k
  {
    var m := CountsOf(cards);
    OccCountList(m, AllCards(), k);
    if exists c :: multiset(cards)[c] == k {
      var c :| multiset(cards)[c] == k;
      AllCardsOnce(c);
      var i :| 0 <= i < |AllCards()| && AllCards()[i] == c;
      GetCountsOf(cards, c);
    }
    if exists i :: 0 <= i < |AllCards()| && Get(m, AllCards()[i]) == k {
      var i :| 0 <= i < |AllCards()| && Get(m, AllCards()[i]) == k;
      GetCountsOf(cards, AllCards()[i]);
    }
  }

  /** A five-card hand is four of a kind exactly when some card occurs four times in it. */
  lemma FourOfAKindIffFourEqual(cards: seq<Card>)
    requires |cards| == 5
    ensures GetType(CountsOf(cards)) == Some(FourOfAKind) <==> exists c :: multiset(cards)[c] == 4
  {
    var m := CountsOf(cards);
    var list := CountList(m, AllCards());
    var sorted := SortedCounts(m);
    SortedCountsOfHand(cards);
    FourOfAKindOfSorted(sorted);
    assert multiset(sorted) == multiset(list);
    OccIsMultiplicity(sorted, 4);
    OccIsMultiplicity(list, 4);
    CountAmongCounts(cards, 4);
  }

  /** On positive counts, largest first, that add up to five: four of a kind exactly when a 4 is among them. */
  lemma FourOfAKindOfSorted(s: seq<nat>)
    requires SortedBy(s, Descending) && (forall i :: 0 <= i < |s| ==> s[i] > 0) && Sum(s) == 5
    ensures TypeOfCounts(s) == Some(FourOfAKind) <==> Occ(s, 4) > 0
  {
    FiveCardShapes(s);
    FourOfAKindShape(s);
  }

  /** "AAAA2" holds four aces, yet its type as written is a two pair. */
  lemma FourAcesExample()
    ensures GetType(CountsOf([Ace, Ace, Ace, Ace, Two])) == Some(FourOfAKind)
    ensures GetTypeAsWritten(CountsOf([Ace, Ace, Ace, Ace, Two])) == Some(TwoPair)
  {
    var four := [Ace, Ace, Ace, Ace, Two];
    assert multiset(four)[Ace] == 4;
    FourOfAKindIffFourEqual(four);
    FourOfAKindMisread(four);
  }

  // ---------------------------------------------------------------------
  // Hands and their order
  // ---------------------------------------------------------------------

  /** `Hand` without its commented-out card map: the value sum, the bid and the type. */
  datatype Hand = Hand(cardValue: nat, bid: nat, handType: HandType)

  /**
   * Which program is meant: the code as written, or the code with its two
   * slips corrected (a largest count of 4 is four of a kind, and ranks count
   * from 1 rather than from 0).
   */
  datatype Rules = AsWritten | Corrected

  /** `get_type` under the given rules. */
  function TypeUnder(rules: Rules, m: map<Card, nat>): Option<HandType> {
    if rules == AsWritten then GetTypeAsWritten(m) else GetType(m)
  }

  /** `Hand::new` on the cards of a hand: `None` where `get_type` panics. */
  function HandOf(cards: seq<Card>, bid: nat, rules: Rules): Option<Hand> {
    match TypeUnder(rules, CountsOf(cards))
    case None => None
    case Some(t) => Some(Hand(Weighted(CountsOf(cards), AllCards(), CardValue), bid, t))
  }

  /** A hand keeps its bid, is worth the sum of its card values, and five cards always make a hand. */
  lemma HandOfCards(cards: seq<Card>, bid: nat, rules: Rules)
    ensures HandOf(cards, bid, rules).Some? ==> HandOf(cards, bid, rules).value.bid == bid
    ensures HandOf(cards, bid, rules).Some? ==> HandOf(cards, bid, rules).value.cardValue == SumOver(cards, CardValue)
    ensures |cards| == 5 ==> HandOf(cards, bid, rules).Some?
  {
    WeightedOfCounts(cards, CardValue);
    if |cards| == 5 {
      HandOfMisread(cards, bid);
    }
  }

  /**
   * As written, a five-card hand is built exactly as in the corrected program,
   * except that a four of a kind is typed as a two pair.
   */
  lemma HandOfMisread(cards: seq<Card>, bid: nat)
    requires |cards| == 5
    ensures HandOf(cards, bid, Corrected).Some? && HandOf(cards, bid, AsWritten).Some?
    ensures HandOf(cards, bid, Corrected).value.handType != FourOfAKind ==>
              HandOf(cards, bid, AsWritten) == HandOf(cards, bid, Corrected)
    ensures HandOf(cards, bid, Corrected).value.handType == FourOfAKind ==>
              HandOf(cards, bid, AsWritten) == Some(HandOf(cards, bid, Corrected).value.(handType := TwoPair))
  {
    FiveCardHandType(cards);
    FourOfAKindMisread(cards);
  }

  /**
   * `Hand::new`: count the cards into a map, sum value times count over the
   * map, then set the type from the map.
   */
  method NewHand(cards: seq<Card>, bid: nat, rules: Rules) returns (h: Option<Hand>)
    ensures h == HandOf(cards, bid, rules)
  {
    var counts := CountCards(cards);
    var value := CardValueOf(counts);
    var hand := Hand(value, bid, HighCard);
    match TypeUnder(rules, counts)
    case None =>
      h := None;
    case Some(t) =>
      hand := hand.(handType := t);
      h := Some(hand);
  }

  datatype Ordering = Less | Equal | Greater

  /** `PartialEq for Hand`: the type and the value agree; the bid is not compared. */
  predicate SameHand(a: Hand, b: Hand) {
    a.handType == b.handType && a.cardValue == b.cardValue
  }

  /** `Ord for Hand`: `(hand_type, card_value)` compared lexicographically, types by discriminant. */
  function Compare(a: Hand, b: Hand): (o: Ordering)
    ensures o == Equal <==> SameHand(a, b)
  {
    if TypeRank(a.handType) < TypeRank(b.handType) then Less
    else if TypeRank(a.handType) > TypeRank(b.handType) then Greater
    else if a.cardValue < b.cardValue then Less
    else if a.cardValue > b.cardValue then Greater
    else Equal
  }

  /** Swapping the hands reverses the comparison. */
  lemma CompareFlips(a: Hand, b: Hand)
    ensures Compare(a, b) == Less <==> Compare(b, a) == Greater
    ensures Compare(a, b) == Equal <==> Compare(b, a) == Equal
  {
  }

  /** `a <= b` in that order. */
  function HandLe(a: Hand, b: Hand): bool {
    Compare(a, b) != Greater
  }

  /** The hand order is total and transitive, so sorting by it is well defined. */
  lemma HandOrderTotal()
    ensures TotalPreorder(HandLe)
  {
    forall a, b, c | HandLe(a, b) && HandLe(b, c) ensures HandLe(a, c) {
    }
  }

  // ---------------------------------------------------------------------
  // Winnings
  // ---------------------------------------------------------------------

  function SumBids(hands: seq<Hand>): nat {
    if hands == [] then 0 else SumBids(hands[..|hands| - 1]) + hands[|hands| - 1].bid
  }

  /** The rank of the weakest hand: the 0-based enumerate index as written, 1 once corrected. */
  function FirstRank(rules: Rules): nat {
    if rules == AsWritten then 0 else 1
  }

  /** Σ bid · rank over hands sorted weakest first, ranks counted up from `FirstRank(rules)`. */
  function Winnings(sorted: seq<Hand>, rules: Rules): nat {
    if sorted == [] then 0
    else Winnings(sorted[..|sorted| - 1], rules) + sorted[|sorted| - 1].bid * (|sorted| - 1 + FirstRank(rules))
  }

  /** Counting ranks from 0 loses exactly one bid per hand. */
  lemma {:induction false} WinningsOffByOneRank(sorted: seq<Hand>)
    ensures Winnings(sorted, Corrected) == Winnings(sorted, AsWritten) + SumBids(sorted)
  {
    if sorted != [] {
      var front, last := sorted[..|sorted| - 1], sorted[|sorted| - 1];
      WinningsOffByOneRank(front);
      assert last.bid * |sorted| == last.bid * (|sorted| - 1) + last.bid;
    }
  }

  /** A single hand wins its bid, but nothing as written. */
  lemma SingleHandWinnings(h: Hand)
    ensures Winnings([h], Corrected) == h.bid
    ensures Winnings([h], AsWritten) == 0
  {
    assert [h][..0] == [];
  }

  /** The fold `acc + h.bid * i` over `enumerate()` of hands already sorted, ranks shifted by `FirstRank(rules)`. */
  method AddUpWinnings(sorted: seq<Hand>, rules: Rules) returns (total: nat)
    ensures total == Winnings(sorted, rules)
  {
    total := 0;
    for i := 0 to |sorted|
      invariant total == Winnings(sorted[..i], rules)
    {
      assert sorted[..i + 1][..i] == sorted[..i];
      total := total + sorted[i].bid * (i + FirstRank(rules));
    }
    assert sorted[..|sorted|] == sorted;
  }

  /** `hands.sort()` then the winnings fold. */
  method TotalWinnings(hands: seq<Hand>, rules: Rules) returns (total: nat)
    ensures total == Winnings(InsertionSort(hands, HandLe), rules)
  {
    var a := new Hand[|hands|](k requires 0 <= k < |hands| => hands[k]);
    assert a[..] == hands;
    SortInPlace(a, HandLe);
    total := AddUpWinnings(a[..], rules);
  }

  // ---------------------------------------------------------------------
  // Parsing
  // ---------------------------------------------------------------------

  /** `parse_hand`: card symbols, spaces or tabs, a `u32` bid; the hand is built from the symbols. */
  function ParseHand(s: string, rules: Rules): (r: Parsed<Hand>)
    ensures r.Done? ==> |r.rest| < |s|
  {
    match Run1(s, IsCardSymbol)
    case Done(symbols, r1) =>
      (match Run1(r1, IsSpace)
       case Done(_, r2) =>
         (match Unsigned(r2, U32Bound)
          case Done(bid, r3) =>
            (match HandOf(CardsOf(symbols), bid, rules)
             case None => Abort
             case Some(h) => Done(h, r3))
          case _ => Mismatch)
       case _ => Mismatch)
    case _ => Mismatch
  }

  /** `parse_hands`: `separated_list1(tag("\n"), parse_hand)`. */
  function ParseHands(s: string, rules: Rules): (r: Parsed<seq<Hand>>)
    ensures r.Done? ==> |r.value| >= 1
    decreases |s|
  {
    match ParseHand(s, rules)
    case Done(h, rest) =>
      if StartsWith(rest, "\n") then
        match ParseHands(rest[1..], rules)
        case Done(hs, rest') => Done([h] + hs, rest')
        case Abort => Abort
        case Mismatch => Done([h], rest)
      else Done([h], rest)
    case Abort => Abort
    case Mismatch => Mismatch
  }

  /** A hand line: the card symbols, a space, the bid. */
  function RenderHand(cards: seq<Card>, bid: nat): string {
    SymbolsOf(cards) + " " + ShowNat(bid)
  }

  function SymbolsOf(cards: seq<Card>): (s: string)
    ensures |s| == |cards| && forall i :: 0 <= i < |s| ==> s[i] == CardSymbol(cards[i])
  {
    if cards == [] then [] else [CardSymbol(cards[0])] + SymbolsOf(cards[1..])
  }

  lemma {:induction false} CardsOfSymbols(cards: seq<Card>)
    ensures forall i :: 0 <= i < |SymbolsOf(cards)| ==> IsCardSymbol(SymbolsOf(cards)[i])
    ensures CardsOf(SymbolsOf(cards)) == cards
  {
    if cards != [] {
      CardsOfSymbols(cards[1..]);
      CardSymbolRoundTrip(cards[0]);
      assert SymbolsOf(cards)[1..] == SymbolsOf(cards[1..]);
    }
  }

  /** One space before a digit is read as the separating run of spaces. */
  lemma SpaceBeforeDigit(s: string)
    requires StartsWithDigit(s)
    ensures Run1(" " + s, IsSpace) == Done(" ", s)
  {
    Run1OfConcat(" ", s, IsSpace);
  }

  /** The symbols of a rendered hand line are read as one run of card symbols. */
  lemma SymbolsBeforeSpace(cards: seq<Card>, s: string)
    requires |cards| > 0
    ensures Run1(SymbolsOf(cards) + (" " + s), IsCardSymbol) == Done(SymbolsOf(cards), " " + s)
  {
    CardsOfSymbols(cards);
    SymbolRunBeforeSpace(SymbolsOf(cards), s);
  }

  lemma SymbolRunBeforeSpace(w: string, s: string)
    requires |w| > 0 && forall i :: 0 <= i < |w| ==> IsCardSymbol(w[i])
    ensures Run1(w + (" " + s), IsCardSymbol) == Done(w, " " + s)
  {
    assert !IsCardSymbol(' ');
    assert (" " + s)[0] == ' ';
    Run1OfConcat(w, " " + s, IsCardSymbol);
  }

  lemma RenderHandRegroup(cards: seq<Card>, bid: nat, rest: string)
    ensures RenderHand(cards, bid) + rest == SymbolsOf(cards) + (" " + (ShowNat(bid) + rest))
  {
  }

  lemma ShownStartsWithDigit(n: nat, rest: string)
    ensures StartsWithDigit(ShowNat(n) + rest)
  {
    assert (ShowNat(n) + rest)[0] == ShowNat(n)[0];
  }

  /** `parse_hand` reads back a rendered hand line whose cards make a hand. */
  lemma ParseHandOfRender(cards: seq<Card>, bid: nat, rules: Rules, h: Hand, rest: string)
    requires |cards| > 0 && HandOf(cards, bid, rules) == Some(h) && bid < U32Bound && !StartsWithDigit(rest)
    ensures ParseHand(RenderHand(cards, bid) + rest, rules) == Done(h, rest)
  {
    var s2 := ShowNat(bid) + rest;
    RenderHandRegroup(cards, bid, rest);
    SymbolsBeforeSpace(cards, s2);
    ShownStartsWithDigit(bid, rest);
    SpaceBeforeDigit(s2);
    UnsignedOfShow(bid, rest, U32Bound);
    CardsOfSymbols(cards);
  }

  /** One line of the puzzle text before it is read: the cards and the bid. */
  datatype HandLine = HandLine(cards: seq<Card>, bid: nat)

  /** Five cards and a bid that fits 32 bits on every line. */
  predicate WellFormedLines(lines: seq<HandLine>) {
    forall i :: 0 <= i < |lines| ==> |lines[i].cards| == 5 && lines[i].bid < U32Bound
  }

  /** The hand lines separated by newlines. */
  function RenderHands(lines: seq<HandLine>): string
    requires |lines| >= 1
  {
    if |lines| == 1 then RenderHand(lines[0].cards, lines[0].bid)
    else RenderHand(lines[0].cards, lines[0].bid) + ("\n" + RenderHands(lines[1..]))
  }

  /** The hand `Hand::new` builds from one line, if it builds one. */
  function LineHands(l: HandLine, rules: Rules): seq<Hand> {
    match HandOf(l.cards, l.bid, rules)
    case Some(h) => [h]
    case None => []
  }

  /** The hands `Hand::new` builds from the lines, in order. */
  function HandsOf(lines: seq<HandLine>, rules: Rules): seq<Hand> {
    if lines == [] then [] else LineHands(lines[0], rules) + HandsOf(lines[1..], rules)
  }

  /** What may follow the last line: no digit that would extend its bid, and no further hand after a newline. */
  predicate HandsStop(rest: string) {
    rest == [] || (!IsDigit(rest[0]) && (rest[0] == '\n' ==> |rest| == 1 || !IsCardSymbol(rest[1])))
  }

  /** No hand starts without a card symbol. */
  lemma ParseHandsNoSymbol(t: string, rules: Rules)
    requires t == [] || !IsCardSymbol(t[0])
    ensures ParseHands(t, rules) == Mismatch
  {
    assert Run1(t, IsCardSymbol) == Mismatch;
    assert ParseHand(t, rules) == Mismatch;
  }

  lemma ParseHandsLast(s: string, h: Hand, rest: string, rules: Rules)
    requires ParseHand(s, rules) == Done(h, rest) && HandsStop(rest)
    ensures ParseHands(s, rules) == Done([h], rest)
  {
    if StartsWith(rest, "\n") {
      StopAfterNewline(rest);
      ParseHandsNoSymbol(rest[1..], rules);
      ParseHandsNothingAfter(s, h, rest, rules);
    } else {
      ParseHandsNoNewline(s, h, rest, rules);
    }
  }

  lemma ParseHandsNothingAfter(s: string, h: Hand, rest: string, rules: Rules)
    requires ParseHand(s, rules) == Done(h, rest) && StartsWith(rest, "\n") && ParseHands(rest[1..], rules) == Mismatch
    ensures ParseHands(s, rules) == Done([h], rest)
  {
  }

  lemma ParseHandsNoNewline(s: string, h: Hand, rest: string, rules: Rules)
    requires ParseHand(s, rules) == Done(h, rest) && !StartsWith(rest, "\n")
    ensures ParseHands(s, rules) == Done([h], rest)
  {
  }

  lemma StopAfterNewline(rest: string)
    requires HandsStop(rest) && StartsWith(rest, "\n")
    ensures rest[1..] == [] || !IsCardSymbol(rest[1..][0])
  {
    assert rest[0] == '\n';
  }

  lemma ParseHandsCons(s: string, h: Hand, tail: string, hs: seq<Hand>, rest: string, rules: Rules)
    requires ParseHand(s, rules) == Done(h, "\n" + tail) && ParseHands(tail, rules) == Done(hs, rest)
    ensures ParseHands(s, rules) == Done([h] + hs, rest)
  {
    assert StartsWith("\n" + tail, "\n") && ("\n" + tail)[1..] == tail;
  }

  lemma RenderHandsCons(lines: seq<HandLine>, rest: string)
    requires |lines| >= 2
    ensures RenderHands(lines) + rest
      == RenderHand(lines[0].cards, lines[0].bid) + ("\n" + (RenderHands(lines[1..]) + rest))
  {
  }

  lemma HandsOfCons(lines: seq<HandLine>, rules: Rules)
    requires |lines| >= 1
    ensures HandsOf(lines, rules) == LineHands(lines[0], rules) + HandsOf(lines[1..], rules)
  {
  }

  lemma OneRenderedLine(lines: seq<HandLine>, rest: string, rules: Rules)
    requires |lines| == 1
    ensures RenderHands(lines) + rest == RenderHand(lines[0].cards, lines[0].bid) + rest
    ensures HandsOf(lines, rules) == LineHands(lines[0], rules)
  {
    assert HandsOf(lines[1..], rules) == [];
    assert LineHands(lines[0], rules) + [] == LineHands(lines[0], rules);
  }

  /** A well-formed line builds exactly one hand. */
  lemma OneLineOneHand(l: HandLine, rules: Rules) returns (h: Hand)
    requires |l.cards| == 5
    ensures HandOf(l.cards, l.bid, rules) == Some(h) && LineHands(l, rules) == [h]
  {
    HandOfCards(l.cards, l.bid, rules);
    h := HandOf(l.cards, l.bid, rules).value;
  }

  lemma LastHandLine(l: HandLine, rest: string, rules: Rules)
    requires |l.cards| == 5 && l.bid < U32Bound && HandsStop(rest)
    ensures ParseHands(RenderHand(l.cards, l.bid) + rest, rules) == Done(LineHands(l, rules), rest)
  {
    var h := OneLineOneHand(l, rules);
    ParseHandOfRender(l.cards, l.bid, rules, h, rest);
    ParseHandsLast(RenderHand(l.cards, l.bid) + rest, h, rest, rules);
  }

  lemma NextHandLine(l: HandLine, t: string, hs: seq<Hand>, rest: string, rules: Rules)
    requires |l.cards| == 5 && l.bid < U32Bound && ParseHands(t, rules) == Done(hs, rest)
    ensures ParseHands(RenderHand(l.cards, l.bid) + ("\n" + t), rules) == Done(LineHands(l, rules) + hs, rest)
  {
    var h := OneLineOneHand(l, rules);
    ParseHandOfRender(l.cards, l.bid, rules, h, "\n" + t);
    ParseHandsCons(RenderHand(l.cards, l.bid) + ("\n" + t), h, t, hs, rest, rules);
  }

  /**
   * `separated_list1(tag("\n"), parse_hand)` reads every rendered line back,
   * in order, one hand per line, so every well-formed file meets `Day7`'s
   * precondition.
   */
  lemma {:induction false} ParseHandsOfRender(lines: seq<HandLine>, rules: Rules, rest: string)
    requires |lines| >= 1 && WellFormedLines(lines) && HandsStop(rest)
    ensures ParseHands(RenderHands(lines) + rest, rules) == Done(HandsOf(lines, rules), rest)
    ensures |HandsOf(lines, rules)| == |lines|
    decreases |lines|
  {
    var l := lines[0];
    var h := OneLineOneHand(l, rules);
    HandsOfCons(lines, rules);
    if |lines| == 1 {
      OneRenderedLine(lines, rest, rules);
      LastHandLine(l, rest, rules);
    } else {
      var tail := lines[1..];
      assert WellFormedLines(tail) by {
        forall i | 0 <= i < |tail| ensures |tail[i].cards| == 5 && tail[i].bid < U32Bound {
          assert tail[i] == lines[i + 1];
        }
      }
      ParseHandsOfRender(tail, rules, rest);
      RenderHandsCons(lines, rest);
      NextHandLine(l, RenderHands(tail) + rest, HandsOf(tail, rules), rest, rules);
    }
  }

  /**
   * Part 1 as written, on the puzzle text: parse (the source unwraps), sort,
   * and add up bid times the 0-based index.
   */
  method Day7(input: string) returns (total: nat)
    requires ParseHands(input, AsWritten).Done?
    ensures total == Winnings(InsertionSort(ParseHands(input, AsWritten).value, HandLe), AsWritten)
  {
    var hands := ParseHands(input, AsWritten).value;
    total := TotalWinnings(hands, AsWritten);
  }

  /** Part 1 corrected: four of a kind recognised and ranks counted from 1. */
  method Day7Corrected(input: string) returns (total: nat)
    requires ParseHands(input, Corrected).Done?
    ensures total == Winnings(InsertionSort(ParseHands(input, Corrected).value, HandLe), Corrected)
  {
    var hands := ParseHands(input, Corrected).value;
    total := TotalWinnings(hands, Corrected);
  }

  /**
   * A file of one hand line: the program as written prints 0, since the only
   * hand has index 0; corrected, it prints the bid.
   */
  lemma OneHandFile(cards: seq<Card>, bid: nat)
    requires |cards| == 5 && bid < U32Bound
    ensures ParseHands(RenderHand(cards, bid), AsWritten).Done?
    ensures Winnings(InsertionSort(ParseHands(RenderHand(cards, bid), AsWritten).value, HandLe), AsWritten) == 0
    ensures ParseHands(RenderHand(cards, bid), Corrected).Done?
    ensures Winnings(InsertionSort(ParseHands(RenderHand(cards, bid), Corrected).value, HandLe), Corrected) == bid
  {
    OneHandLine(cards, bid, AsWritten);
    OneHandLine(cards, bid, Corrected);
  }

  lemma OneHandLine(cards: seq<Card>, bid: nat, rules: Rules)
    requires |cards| == 5 && bid < U32Bound
    ensures ParseHands(RenderHand(cards, bid), rules).Done?
    ensures Winnings(InsertionSort(ParseHands(RenderHand(cards, bid), rules).value, HandLe), rules) == (if rules == AsWritten then 0 else bid)
  {
    HandOfCards(cards, bid, rules);
    var h := HandOf(cards, bid, rules).value;
    assert RenderHand(cards, bid) + "" == RenderHand(cards, bid);
    ParseHandOfRender(cards, bid, rules, h, "");
    assert ParseHands(RenderHand(cards, bid), rules) == Done([h], "");
    assert InsertionSort([h], HandLe) == [h];
    assert [h][..0] == [];
  }
}
