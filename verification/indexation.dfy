/**
 * The catalogue of the 88 bets (INDEXATION) and the judgement of whether a
 * bet is present among the cards on the table (determine_set_existence).
 */
module Indexation {
  import opened Wrappers
  import opened Sequences
  import opened Cards

  /** The action id that means "check" rather than a bet. */
  const Check: int := 88

  datatype SetType =
    | HighCard | Pair | TwoPairs | SmallStraight | BigStraight | GreatStraight
    | ThreeOfAKind | FullHouse | Colour | FourOfAKind | SmallFlush | BigFlush | GreatFlush

  /** One catalogue row; an empty detail column is None. */
  datatype IndexRow = IndexRow(actionId: int, setType: SetType, detail1: Option<int>, detail2: Option<int>)

  /** n rows of one set type with detail_1 = 0, 1, ..., n - 1 and no detail_2. */
  function Singles(first: int, t: SetType, n: nat): seq<IndexRow>
  {
    seq(n, i requires 0 <= i < n => IndexRow(first + i, t, Some(i), None))
  }

  /** The two-pairs rows whose higher pair is d1, the lower pair running 0..d1 - 1. */
  function TwoPairsOver(d1: nat): seq<IndexRow>
  {
    seq(d1, d2 requires 0 <= d2 < d1 => IndexRow(12 + d1 * (d1 - 1) / 2 + d2, TwoPairs, Some(d1), Some(d2)))
  }

  function TwoPairsRows(): seq<IndexRow>
  {
    TwoPairsOver(1) + TwoPairsOver(2) + TwoPairsOver(3) + TwoPairsOver(4) + TwoPairsOver(5)
  }

  /** Full house rows: three of detail_1, then the pair detail_2 over the other five values. */
  function FullHouseRows(): seq<IndexRow>
  {
    seq(30, k requires 0 <= k < 30 =>
      IndexRow(36 + k, FullHouse, Some(k / 5), Some(if k % 5 < k / 5 then k % 5 else k % 5 + 1)))
  }

  function StraightRows(): seq<IndexRow>
  {
    [IndexRow(27, SmallStraight, None, None), IndexRow(28, BigStraight, None, None),
     IndexRow(29, GreatStraight, None, None)]
  }

  /**
   * INDEXATION, row by row in the order of the catalogue text. It has 88
   * rows, row i has action id i (so the position of a row is its id), and
   * every row carries the details its set type needs: two pairs name the
   * higher pair first, a full house names two different values.
   */
  function Catalog(): (rows: seq<IndexRow>)
    ensures |rows| == 88
    ensures forall i :: 0 <= i < 88 ==> rows[i].actionId == i
    ensures forall i :: 0 <= i < 88 ==> WellFormedRow(rows[i])
  {
    TwoPairsShape();
    FullHouseShape();
    SinglesShape(0, HighCard, 6);
    SinglesShape(6, Pair, 6);
    SinglesShape(30, ThreeOfAKind, 6);
    SinglesShape(66, Colour, 4);
    SinglesShape(70, FourOfAKind, 6);
    SinglesShape(76, SmallFlush, 4);
    SinglesShape(80, BigFlush, 4);
    SinglesShape(84, GreatFlush, 4);
    Singles(0, HighCard, 6) + Singles(6, Pair, 6) + TwoPairsRows() + StraightRows()
    + Singles(30, ThreeOfAKind, 6) + FullHouseRows() + Singles(66, Colour, 4)
    + Singles(70, FourOfAKind, 6) + Singles(76, SmallFlush, 4) + Singles(80, BigFlush, 4)
    + Singles(84, GreatFlush, 4)
  }

  predicate ValueSet(t: SetType)
  {
    t in {HighCard, Pair, ThreeOfAKind, FourOfAKind}
  }

  predicate ColourSet(t: SetType)
  {
    t in {Colour, SmallFlush, BigFlush, GreatFlush}
  }

  predicate IsValue(d: Option<int>)
  {
    d.Some? && 0 <= d.value < 6
  }

  predicate IsColour(d: Option<int>)
  {
    d.Some? && 0 <= d.value < 4
  }

  /** The well-formedness of one row: which details it carries and their ranges. */
  predicate WellFormedRow(r: IndexRow)
  {
    && (ValueSet(r.setType) ==> IsValue(r.detail1) && r.detail2.None?)
    && (ColourSet(r.setType) ==> IsColour(r.detail1) && r.detail2.None?)
    && (r.setType == TwoPairs ==> IsValue(r.detail1) && IsValue(r.detail2) && r.detail1.value > r.detail2.value)
    && (r.setType == FullHouse ==> IsValue(r.detail1) && IsValue(r.detail2) && r.detail1.value != r.detail2.value)
    && (r.setType in {SmallStraight, BigStraight, GreatStraight} ==> r.detail1.None? && r.detail2.None?)
  }

  lemma SinglesShape(first: int, t: SetType, n: nat)
    requires (ValueSet(t) && n <= 6) || (ColourSet(t) && n <= 4)
    ensures forall k :: 0 <= k < n ==> Singles(first, t, n)[k].actionId == first + k
    ensures forall k :: 0 <= k < n ==> WellFormedRow(Singles(first, t, n)[k])
  {
  }

  lemma TwoPairsShape()
    ensures |TwoPairsRows()| == 15
    ensures forall k :: 0 <= k < 15 ==> TwoPairsRows()[k].actionId == 12 + k
    ensures forall k :: 0 <= k < 15 ==> WellFormedRow(TwoPairsRows()[k])
  {
    var r := TwoPairsRows();
    assert r == TwoPairsOver(1) + TwoPairsOver(2) + TwoPairsOver(3) + TwoPairsOver(4) + TwoPairsOver(5);
    forall k | 0 <= k < 15
      ensures r[k].actionId == 12 + k && WellFormedRow(r[k])
    {
      if k < 1 { assert r[k] == TwoPairsOver(1)[k]; }
      else if k < 3 { assert r[k] == TwoPairsOver(2)[k - 1]; }
      else if k < 6 { assert r[k] == TwoPairsOver(3)[k - 3]; }
      else if k < 10 { assert r[k] == TwoPairsOver(4)[k - 6]; }
      else { assert r[k] == TwoPairsOver(5)[k - 10]; }
    }
  }

  lemma FullHouseShape()
    ensures forall k :: 0 <= k < 30 ==> FullHouseRows()[k].actionId == 36 + k
    ensures forall k :: 0 <= k < 30 ==> WellFormedRow(FullHouseRows()[k])
  {
  }

  /**
   * INDEXATION[action_id] with Python's indexing: -88..-1 count from the end,
   * anything else outside 0..87 is an IndexError (None).
   */
  function LookUp(actionId: int): (r: Option<IndexRow>)
    ensures r.Some? <==> -88 <= actionId < 88
    ensures r.Some? ==> r.value.actionId == actionId % 88 && WellFormedRow(r.value)
  {
    if 0 <= actionId < 88 then Some(Catalog()[actionId])
    else if -88 <= actionId < 0 then Some(Catalog()[actionId + 88])
    else None
  }

  /** list.count(detail) where an empty detail counts nothing (no card equals None). */
  function CountDetail(xs: seq<int>, d: Option<int>): nat
  {
    if d.None? then 0 else Count(xs, d.value)
  }

  /** Every one of the values lo, lo + 1, ..., hi - 1 occurs (the chained count(v) > 0 tests). */
  predicate AllPresent(xs: seq<int>, lo: int, hi: int)
  {
    forall v :: lo <= v < hi ==> Count(xs, v) > 0
  }

  /** The fewest cards that can show the set of a row. */
  function CardsNeeded(row: IndexRow): nat
  {
    match row.setType
    case HighCard => 1
    case Pair => 2
    case TwoPairs => if row.detail1 != row.detail2 then 4 else 2
    case SmallStraight => 5
    case BigStraight => 5
    case GreatStraight => 6
    case ThreeOfAKind => 3
    case FullHouse => if row.detail1 != row.detail2 then 5 else 3
    case Colour => 5
    case FourOfAKind => 4
    case SmallFlush => 5
    case BigFlush => 5
    case GreatFlush => 6
  }

  /**
   * The test of one set type against the pooled cards. A set can only be
   * present when the cards on the table are at least as many as it names.
   */
  predicate ShapeHolds(cards: seq<Card>, row: IndexRow)
    ensures ShapeHolds(cards, row) ==> CardsNeeded(row) <= |cards|
  {
    var values, colours := Values(cards), Colours(cards);
    var relevant := if row.detail1.Some? then ValuesOfColour(cards, row.detail1.value) else [];
    CountDetailsWithinLength(values, row.detail1, row.detail2);
    CountDetailsWithinLength(colours, row.detail1, row.detail2);
    StraightsWithinLength(values);
    StraightsWithinLength(relevant);
    match row.setType
    case HighCard => CountDetail(values, row.detail1) >= 1
    case Pair => CountDetail(values, row.detail1) >= 2
    case TwoPairs => CountDetail(values, row.detail1) >= 2 && CountDetail(values, row.detail2) >= 2
    case SmallStraight => AllPresent(values, 0, 5)
    case BigStraight => AllPresent(values, 1, 6)
    case GreatStraight => AllPresent(values, 0, 6)
    case ThreeOfAKind => CountDetail(values, row.detail1) >= 3
    case FullHouse => CountDetail(values, row.detail1) >= 3 && CountDetail(values, row.detail2) >= 2
    case Colour => CountDetail(colours, row.detail1) >= 5
    case FourOfAKind => CountDetail(values, row.detail1) >= 4
    case SmallFlush => relevant != [] && AllPresent(relevant, 0, 5)
    case BigFlush => relevant != [] && AllPresent(relevant, 1, 6)
    case GreatFlush => relevant != [] && AllPresent(relevant, 0, 6)
  }

  lemma CountDetailsWithinLength(xs: seq<int>, d1: Option<int>, d2: Option<int>)
    ensures CountDetail(xs, d1) <= |xs|
    ensures d1.Some? && d2.Some? && d1 != d2 ==> CountDetail(xs, d1) + CountDetail(xs, d2) <= |xs|
  {
    if d1.Some? {
      CountsWithinLength(xs, d1.value, if d2.Some? then d2.value else d1.value);
    }
  }

  /** The values lo, lo + 1, ..., hi - 1. */
  function Range(lo: int, hi: int): (r: set<int>)
    requires lo <= hi
    ensures |r| == hi - lo
    ensures forall v :: v in r <==> lo <= v < hi
    decreases hi - lo
  {
    if lo == hi then {} else Range(lo, hi - 1) + {hi - 1}
  }

  /** lo, lo + 1, ..., hi - 1 all present take hi - lo positions. */
  lemma PresentWithinLength(xs: seq<int>, lo: int, hi: int)
    requires lo <= hi && AllPresent(xs, lo, hi)
    ensures hi - lo <= |xs|
  {
    var range := Range(lo, hi);
    forall v | v in range
      ensures v in xs
    {
      CountPositive(xs, v);
    }
    FewerElementsThanPositions(xs, range);
  }

  lemma StraightsWithinLength(xs: seq<int>)
    ensures AllPresent(xs, 0, 5) ==> 5 <= |xs|
    ensures AllPresent(xs, 1, 6) ==> 5 <= |xs|
    ensures AllPresent(xs, 0, 6) ==> 6 <= |xs|
  {
    if AllPresent(xs, 0, 5) { PresentWithinLength(xs, 0, 5); }
    if AllPresent(xs, 1, 6) { PresentWithinLength(xs, 1, 6); }
    if AllPresent(xs, 0, 6) { PresentWithinLength(xs, 0, 6); }
  }

  /**
   * determine_set_existence: whether the bet with this action id is present
   * among the cards; None is the IndexError of an id outside -88..87.
   */
  function SetExists(cards: seq<Card>, actionId: int): (r: Option<bool>)
    ensures r.None? <==> !(-88 <= actionId < 88)
  {
    match LookUp(actionId)
    case None => None
    case Some(row) => Some(ShapeHolds(cards, row))
  }

  predicate Holds(cards: seq<Card>, actionId: int)
  {
    SetExists(cards, actionId) == Some(true)
  }

  /** No bet is present among no cards. */
  lemma NothingInEmptyHand(actionId: int)
    requires -88 <= actionId < 88
    ensures SetExists([], actionId) == Some(false)
  {
    var row := LookUp(actionId).value;
    if row.detail1.Some? {
      assert ValuesOfColour([], row.detail1.value) == [];
    }
    assert Count([], 0) == 0;
    assert Count([], 1) == 0;
  }

  /** A count of a detail only grows when the list is drawn into a larger one. */
  lemma CountDetailWithin(xs: seq<int>, ys: seq<int>, d: Option<int>)
    requires multiset(xs) <= multiset(ys)
    ensures CountDetail(xs, d) <= CountDetail(ys, d)
  {
    if d.Some? {
      CountIsMultiplicity(xs, d.value);
      CountIsMultiplicity(ys, d.value);
    }
  }

  lemma AllPresentWithin(xs: seq<int>, ys: seq<int>, lo: int, hi: int)
    requires multiset(xs) <= multiset(ys) && AllPresent(xs, lo, hi)
    ensures AllPresent(ys, lo, hi)
  {
    forall v | lo <= v < hi
      ensures Count(ys, v) > 0
    {
      CountIsMultiplicity(xs, v);
      CountIsMultiplicity(ys, v);
    }
  }

  /** The test of a row holding among some cards holds among any cards that include them. */
  lemma ShapeWithin(a: seq<Card>, b: seq<Card>, row: IndexRow)
    requires multiset(a) <= multiset(b) && ShapeHolds(a, row)
    ensures ShapeHolds(b, row)
  {
    var c := if row.detail1.Some? then row.detail1.value else 0;
    ProjectionsWithin(a, b, c);
    var va, vb := Values(a), Values(b);
    var ra, rb := ValuesOfColour(a, c), ValuesOfColour(b, c);
    match row.setType
    case HighCard => CountDetailWithin(va, vb, row.detail1);
    case Pair => CountDetailWithin(va, vb, row.detail1);
    case ThreeOfAKind => CountDetailWithin(va, vb, row.detail1);
    case FourOfAKind => CountDetailWithin(va, vb, row.detail1);
    case TwoPairs =>
      CountDetailWithin(va, vb, row.detail1);
      CountDetailWithin(va, vb, row.detail2);
    case FullHouse =>
      CountDetailWithin(va, vb, row.detail1);
      CountDetailWithin(va, vb, row.detail2);
    case Colour => CountDetailWithin(Colours(a), Colours(b), row.detail1);
    case SmallStraight => AllPresentWithin(va, vb, 0, 5);
    case BigStraight => AllPresentWithin(va, vb, 1, 6);
    case GreatStraight => AllPresentWithin(va, vb, 0, 6);
    case SmallFlush =>
      assert ra[0] in multiset(rb);
      AllPresentWithin(ra, rb, 0, 5);
    case BigFlush =>
      assert ra[0] in multiset(rb);
      AllPresentWithin(ra, rb, 1, 6);
    case GreatFlush =>
      assert ra[0] in multiset(rb);
      AllPresentWithin(ra, rb, 0, 6);
  }

  /**
   * A bet present among some cards stays present among any cards that
   * include them (as a multiset): more cards never remove a set.
   */
  lemma MoreCardsKeepSet(a: seq<Card>, b: seq<Card>, actionId: int)
    requires Holds(a, actionId) && multiset(a) <= multiset(b)
    ensures Holds(b, actionId)
  {
    ShapeWithin(a, b, LookUp(actionId).value);
  }

  /** In particular, pooling more cards before or after them keeps the set. */
  lemma PooledCardsKeepSet(a: seq<Card>, b: seq<Card>, actionId: int)
    requires Holds(a, actionId)
    ensures Holds(a + b, actionId) && Holds(b + a, actionId)
  {
    MoreCardsKeepSet(a, a + b, actionId);
    MoreCardsKeepSet(a, b + a, actionId);
  }

  /** Four of a kind implies three of a kind implies a pair implies the high card, value by value. */
  lemma KindsNest(cards: seq<Card>, d: int)
    requires 0 <= d < 6
    ensures Holds(cards, 70 + d) ==> Holds(cards, 30 + d)
    ensures Holds(cards, 30 + d) ==> Holds(cards, 6 + d)
    ensures Holds(cards, 6 + d) ==> Holds(cards, d)
  {
    CatalogAt(70 + d);
    CatalogAt(30 + d);
    CatalogAt(6 + d);
    CatalogAt(d);
  }

  /** A full house (three of d1, two of d2) implies three of a kind of d1 and a pair of d2. */
  lemma FullHouseHasParts(cards: seq<Card>, k: int)
    requires 0 <= k < 30
    ensures Catalog()[36 + k].detail1.Some? && Catalog()[36 + k].detail2.Some?
    ensures Holds(cards, 36 + k) ==>
              Holds(cards, 30 + Catalog()[36 + k].detail1.value) && Holds(cards, 6 + Catalog()[36 + k].detail2.value)
  {
    var row := Catalog()[36 + k];
    CatalogAt(36 + k);
    FullHouseShape();
    assert WellFormedRow(FullHouseRows()[k]);
    CatalogAt(30 + row.detail1.value);
    CatalogAt(6 + row.detail2.value);
  }

  /** Two pairs imply both pairs. */
  lemma TwoPairsHasParts(cards: seq<Card>, k: int)
    requires 0 <= k < 15
    ensures Catalog()[12 + k].detail1.Some? && Catalog()[12 + k].detail2.Some?
    ensures Holds(cards, 12 + k) ==>
              Holds(cards, 6 + Catalog()[12 + k].detail1.value) && Holds(cards, 6 + Catalog()[12 + k].detail2.value)
  {
    var row := Catalog()[12 + k];
    CatalogAt(12 + k);
    TwoPairsShape();
    CatalogAt(6 + row.detail1.value);
    CatalogAt(6 + row.detail2.value);
  }

  /** The great straight (all six values) contains the small and the big straight. */
  lemma GreatStraightHasBoth(cards: seq<Card>)
    ensures Holds(cards, 29) ==> Holds(cards, 27) && Holds(cards, 28)
  {
    CatalogAt(27);
    CatalogAt(28);
    CatalogAt(29);
  }

  /** The great flush of a colour contains the small and the big flush of that colour. */
  lemma GreatFlushHasBoth(cards: seq<Card>, c: int)
    requires 0 <= c < 4
    ensures Holds(cards, 84 + c) ==> Holds(cards, 76 + c) && Holds(cards, 80 + c)
  {
    CatalogAt(84 + c);
    CatalogAt(76 + c);
    CatalogAt(80 + c);
  }

  /** The row at a position of the catalogue, segment by segment. */
  lemma CatalogAt(i: int)
    requires 0 <= i < 88
    ensures i < 6 ==> Catalog()[i] == IndexRow(i, HighCard, Some(i), None)
    ensures 6 <= i < 12 ==> Catalog()[i] == IndexRow(i, Pair, Some(i - 6), None)
    ensures 12 <= i < 27 ==> Catalog()[i] == TwoPairsRows()[i - 12]
    ensures i == 27 ==> Catalog()[i] == IndexRow(27, SmallStraight, None, None)
    ensures i == 28 ==> Catalog()[i] == IndexRow(28, BigStraight, None, None)
    ensures i == 29 ==> Catalog()[i] == IndexRow(29, GreatStraight, None, None)
    ensures 30 <= i < 36 ==> Catalog()[i] == IndexRow(i, ThreeOfAKind, Some(i - 30), None)
    ensures 36 <= i < 66 ==> Catalog()[i] == FullHouseRows()[i - 36]
    ensures 66 <= i < 70 ==> Catalog()[i] == IndexRow(i, Colour, Some(i - 66), None)
    ensures 70 <= i < 76 ==> Catalog()[i] == IndexRow(i, FourOfAKind, Some(i - 70), None)
    ensures 76 <= i < 80 ==> Catalog()[i] == IndexRow(i, SmallFlush, Some(i - 76), None)
    ensures 80 <= i < 84 ==> Catalog()[i] == IndexRow(i, BigFlush, Some(i - 80), None)
    ensures 84 <= i ==> Catalog()[i] == IndexRow(i, GreatFlush, Some(i - 84), None)
  {
    TwoPairsShape();
  }

  /**
   * Two pairs in closed form: the bet with the higher pair d1 and the lower
   * pair d2 is 12 + d1 * (d1 - 1) / 2 + d2 (12 is 1 over 0, 13 is 2 over 0,
   * 14 is 2 over 1, ..., 26 is 5 over 4).
   */
  lemma TwoPairsAt(d1: int, d2: int)
    requires 0 <= d2 < d1 < 6
    ensures 12 <= 12 + d1 * (d1 - 1) / 2 + d2 < 27
    ensures Catalog()[12 + d1 * (d1 - 1) / 2 + d2] == IndexRow(12 + d1 * (d1 - 1) / 2 + d2, TwoPairs, Some(d1), Some(d2))
  {
    var k := d1 * (d1 - 1) / 2 + d2;
    var r := TwoPairsRows();
    assert r == TwoPairsOver(1) + TwoPairsOver(2) + TwoPairsOver(3) + TwoPairsOver(4) + TwoPairsOver(5);
    if d1 == 1 {
      assert k == d2 && r[d2] == TwoPairsOver(1)[d2];
    } else if d1 == 2 {
      assert k == 1 + d2 && r[1 + d2] == TwoPairsOver(2)[d2];
    } else if d1 == 3 {
      assert k == 3 + d2 && r[3 + d2] == TwoPairsOver(3)[d2];
    } else if d1 == 4 {
      assert k == 6 + d2 && r[6 + d2] == TwoPairsOver(4)[d2];
    } else {
      assert k == 10 + d2 && r[10 + d2] == TwoPairsOver(5)[d2];
    }
    CatalogAt(12 + k);
  }

  /**
   * Full house in closed form: three of d1 and a pair of d2 is the bet
   * 36 + 5 * d1 + d2, less one when d2 is above d1 (36 is 0 over 1, 40 is
   * 0 over 5, 41 is 1 over 0, ..., 65 is 5 over 4).
   */
  lemma FullHouseAt(d1: int, d2: int)
    requires 0 <= d1 < 6 && 0 <= d2 < 6 && d1 != d2
    ensures var id := 36 + 5 * d1 + (if d2 < d1 then d2 else d2 - 1);
            36 <= id < 66 && Catalog()[id] == IndexRow(id, FullHouse, Some(d1), Some(d2))
  {
    var m := if d2 < d1 then d2 else d2 - 1;
    var k := 5 * d1 + m;
    assert k / 5 == d1 && k % 5 == m;
    CatalogAt(36 + k);
  }
}
