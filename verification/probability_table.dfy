/**
 * The table of base hit probabilities of shared/probabilities/probability_table.py.
 *
 * For a player holding n cards while the others hold o cards, every column
 * counts the o-card draws out of the 24 - n unseen cards that complete a
 * pattern, and divides that count by C(24 - n, o). Both counts are kept as
 * exact natural numbers; a cell is None exactly where scipy's binom yields
 * NaN (a negative upper argument).
 */
module ProbabilityTable {
  import opened Wrappers
  import opened Sequences
  import opened Combinatorics

  /** The probability columns of one row (the BetType constants). */
  datatype BetType =
    | HighCard | PairHave1 | ThreeHave2 | FourHave3 | Pair | ThreeHave1 | FourHave2
    | TwoPairs | TwoPairsHave1 | TwoPairsHave1Have1 | Three | FourHave1 | Four
    | Colour | ColourHave1 | ColourHave2 | ColourHave3 | ColourHave4
    | Straight | StraightHave1 | StraightHave2 | StraightHave3 | StraightHave4
    | Flush | FlushHave1 | FlushHave2 | FlushHave3 | FlushHave4 | FlushGreat
    | FullHouse | FullHouseHave1And0 | FullHouseHave2And0 | FullHouseHave0And1
    | FullHouseHave1And1 | FullHouseHave2And1

  /** The column at position i of a row, in the order in which a row lists them. */
  function ColumnAt(i: nat): BetType
    requires i < 35
  {
    match i
    case 0 => HighCard            case 1 => PairHave1          case 2 => ThreeHave2
    case 3 => FourHave3           case 4 => Pair               case 5 => ThreeHave1
    case 6 => FourHave2           case 7 => TwoPairs           case 8 => TwoPairsHave1
    case 9 => TwoPairsHave1Have1  case 10 => Three             case 11 => FourHave1
    case 12 => Four               case 13 => Colour            case 14 => ColourHave1
    case 15 => ColourHave2        case 16 => ColourHave3       case 17 => ColourHave4
    case 18 => Straight           case 19 => StraightHave1     case 20 => StraightHave2
    case 21 => StraightHave3      case 22 => StraightHave4     case 23 => Flush
    case 24 => FlushHave1         case 25 => FlushHave2        case 26 => FlushHave3
    case 27 => FlushHave4         case 28 => FlushGreat        case 29 => FullHouse
    case 30 => FullHouseHave1And0 case 31 => FullHouseHave2And0 case 32 => FullHouseHave0And1
    case 33 => FullHouseHave1And1 case _ => FullHouseHave2And1
  }

  /** The columns of a row, in order. */
  function Columns(): seq<BetType>
  {
    seq(35, i requires 0 <= i < 35 => ColumnAt(i))
  }

  /** Position of a column in Columns(). */
  function ColumnIndex(t: BetType): nat
  {
    match t
    case HighCard => 0            case PairHave1 => 1          case ThreeHave2 => 2
    case FourHave3 => 3           case Pair => 4               case ThreeHave1 => 5
    case FourHave2 => 6           case TwoPairs => 7           case TwoPairsHave1 => 8
    case TwoPairsHave1Have1 => 9  case Three => 10             case FourHave1 => 11
    case Four => 12               case Colour => 13            case ColourHave1 => 14
    case ColourHave2 => 15        case ColourHave3 => 16       case ColourHave4 => 17
    case Straight => 18           case StraightHave1 => 19     case StraightHave2 => 20
    case StraightHave3 => 21      case StraightHave4 => 22     case Flush => 23
    case FlushHave1 => 24         case FlushHave2 => 25        case FlushHave3 => 26
    case FlushHave4 => 27         case FlushGreat => 28        case FullHouse => 29
    case FullHouseHave1And0 => 30 case FullHouseHave2And0 => 31 case FullHouseHave0And1 => 32
    case FullHouseHave1And1 => 33 case FullHouseHave2And1 => 34
  }

  /** Every column is listed exactly once: Columns and ColumnIndex are inverse. */
  lemma ColumnsEnumerateBetType()
    ensures |Columns()| == 35
    ensures forall t :: ColumnIndex(t) < 35 && Columns()[ColumnIndex(t)] == t
    ensures forall i :: 0 <= i < 35 ==> ColumnIndex(Columns()[i]) == i
    ensures Distinct(Columns())
  {
    IndexThenColumn();
    ColumnThenIndex();
  }

  lemma IndexThenColumn()
    ensures forall t :: ColumnIndex(t) < 35 && ColumnAt(ColumnIndex(t)) == t
  {
    forall t
      ensures ColumnIndex(t) < 35 && ColumnAt(ColumnIndex(t)) == t
    {
    }
  }

  lemma ColumnThenIndex()
    ensures forall i :: 0 <= i < 35 ==> ColumnIndex(ColumnAt(i)) == i
  {
  }

  /** Number of own cards below which a column is fixed at 0 (the `if n >= k` guards). */
  function Guard(t: BetType): nat
  {
    match t
    case ColourHave1 => 1  case ColourHave2 => 2  case ColourHave3 => 3  case ColourHave4 => 4
    case StraightHave1 => 1  case StraightHave2 => 2  case StraightHave3 => 3  case StraightHave4 => 4
    case FlushHave1 => 1  case FlushHave2 => 2  case FlushHave3 => 3  case FlushHave4 => 4
    case FullHouseHave0And1 => 1  case FullHouseHave1And0 => 1
    case FullHouseHave1And1 => 2  case FullHouseHave2And0 => 2
    case FullHouseHave2And1 => 3
    case _ => 0
  }

  /**
   * The number of o-card draws, out of the 24 - n cards the player does not
   * hold, that complete the pattern of column t (the numerator of the cell).
   * Below its guard a column is exactly 0.
   */
  function Frequency(t: BetType, n: int, o: int): (r: Option<nat>)
    ensures 0 < Guard(t) && n < Guard(t) ==> r == Some(0)
  {
    match t
    case HighCard => Hyper(4, 24 - n - 4, o, 1, 5)
    case PairHave1 => Hyper(3, 24 - n - 3, o, 1, 4)
    case ThreeHave2 => Hyper(2, 24 - n - 2, o, 1, 3)
    case FourHave3 => Binom(24 - n - 1, o - 1)
    case Pair => Hyper(4, 24 - n - 4, o, 2, 5)
    case ThreeHave1 => Hyper(3, 24 - n - 3, o, 2, 4)
    case FourHave2 => Binom(24 - n - 2, o - 2)
    case TwoPairs => Double(4, 2, 5, 4, 2, 5, 24 - n - 8, o)
    case TwoPairsHave1 => Double(3, 1, 4, 4, 2, 5, 24 - n - 7, o)
    case TwoPairsHave1Have1 => Double(3, 1, 4, 3, 1, 4, 24 - n - 6, o)
    case Three => Hyper(4, 24 - n - 4, o, 3, 5)
    case FourHave1 => Binom(24 - n - 3, o - 3)
    case Four => Binom(24 - n - 4, o - 4)
    case Colour => Hyper(6, 24 - n - 6, o, 5, 7)
    case ColourHave1 => if n >= 1 then Hyper(5, 24 - n - 5, o, 4, 6) else Some(0)
    case ColourHave2 => if n >= 2 then Hyper(4, 24 - n - 4, o, 3, 5) else Some(0)
    case ColourHave3 => if n >= 3 then Hyper(3, 24 - n - 3, o, 2, 4) else Some(0)
    case ColourHave4 => if n >= 4 then Hyper(2, 24 - n - 2, o, 1, 3) else Some(0)
    case Straight => Scaled(Pow(C(4, 1), 5), Binom(24 - n - 5 * 4, o - 5))
    case StraightHave1 => if n >= 1 then Scaled(Pow(C(4, 1), 4), Binom(24 - n - 4 * 4, o - 4)) else Some(0)
    case StraightHave2 => if n >= 2 then Scaled(Pow(C(4, 1), 3), Binom(24 - n - 3 * 4, o - 3)) else Some(0)
    case StraightHave3 => if n >= 3 then Scaled(Pow(C(4, 1), 2), Binom(24 - n - 2 * 4, o - 2)) else Some(0)
    case StraightHave4 => if n >= 4 then Scaled(C(4, 1), Binom(24 - n - 1 * 4, o - 1)) else Some(0)
    case Flush => Binom(24 - n - 5, o - 5)
    case FlushHave1 => if n >= 1 then Binom(24 - n - 4, o - 4) else Some(0)
    case FlushHave2 => if n >= 2 then Binom(24 - n - 3, o - 3) else Some(0)
    case FlushHave3 => if n >= 3 then Binom(24 - n - 2, o - 2) else Some(0)
    case FlushHave4 => if n >= 4 then Binom(24 - n - 1, o - 1) else Some(0)
    case FlushGreat => Binom(24 - n - 6, o - 6)
    case FullHouse => Double(4, 3, 5, 4, 2, 5, 24 - n - 8, o)
    case FullHouseHave0And1 => if n >= 1 then Double(4, 3, 5, 3, 1, 4, 24 - n - 7, o) else Some(0)
    case FullHouseHave1And0 => if n >= 1 then Double(3, 2, 4, 4, 2, 5, 24 - n - 7, o) else Some(0)
    case FullHouseHave1And1 => if n >= 2 then Double(3, 2, 4, 3, 1, 4, 24 - n - 6, o) else Some(0)
    case FullHouseHave2And0 => if n >= 2 then Double(2, 1, 3, 4, 2, 5, 24 - n - 6, o) else Some(0)
    case FullHouseHave2And1 => if n >= 3 then Double(2, 1, 3, 3, 1, 4, 24 - n - 5, o) else Some(0)
  }

  /** The row index of a table row: 305 stands for n = 3, o = 5. */
  function RowKey(n: int, o: int): int
  {
    100 * n + o
  }

  /** The (n, o) pairs for which a row is generated. */
  predicate InRange(n: int, o: int)
  {
    1 <= n <= 11 && 1 <= o <= 24 - n
  }

  /**
   * One row: its index, the number of all draws C(24 - n, o) (the common
   * denominator), and the numerator of every column.
   */
  datatype Row = Row(index: int, allStates: Option<nat>, frequencies: map<BetType, Option<nat>>)

  function MakeRow(n: int, o: int): Row
  {
    Row(RowKey(n, o), Binom(24 - n, o), Cells(n, o))
  }

  /** The numerators of a row, one per column. */
  function Cells(n: int, o: int): map<BetType, Option<nat>>
  {
    map t | t in Columns() :: Frequency(t, n, o)
  }

  /** The probability stored in a cell: numerator over denominator, NaN (None) when either is undefined. */
  function Probability(row: Row, t: BetType): Option<real>
  {
    if t in row.frequencies && row.frequencies[t].Some? && row.allStates.Some? && row.allStates.value > 0
    then Some(row.frequencies[t].value as real / row.allStates.value as real)
    else None
  }

  /** The check a generated row must pass: every probability is at most 1 or NaN. */
  predicate AtMostOneOrNaN(row: Row)
  {
    forall t :: t in row.frequencies ==> Probability(row, t).None? || Probability(row, t).value <= 1.0
  }

  // ---------------------------------------------------------------------------
  // The table and the loop that builds it

  /** The rows of n own cards: (n, 1), (n, 2), ..., (n, 24 - n). */
  function RowsOf(n: int): (rows: seq<Row>)
    requires n <= 24
    ensures |rows| == 24 - n
  {
    seq(24 - n, i requires 0 <= i < 24 - n => MakeRow(n, i + 1))
  }

  /** The rows of 1, 2, ..., n - 1 own cards, in the order generate appends them. */
  function RowsBelow(n: int): seq<Row>
    requires n <= 12
  {
    if n <= 1 then [] else RowsBelow(n - 1) + RowsOf(n - 1)
  }

  /**
   * The whole table, n from 1 to 11: 198 rows in increasing index order (n
   * first, then o, so the index has no duplicates); a row is present for
   * (n, o) exactly when 1 <= n <= 11 and 1 <= o <= 24 - n, and every row is
   * the one its index decodes to.
   */
  function Table(): (rows: seq<Row>)
    ensures |rows| == 198
    ensures IncreasingKeys(rows)
    ensures forall k :: 0 <= k < |rows| ==> WellIndexed(rows[k])
    ensures forall n, o :: InRange(n, o) ==> MakeRow(n, o) in rows
  {
    RowsBelowLength(12);
    RowsBelowKeys(12);
    RowsBelowWellIndexed(12);
    RowsBelowCover(12);
    RowsBelow(12)
  }

  /**
   * generate: enumerate n in 1..11 and o in 1..24 - n, build each row, check
   * that its probabilities are at most 1 (or NaN), and append it.
   */
  method Generate() returns (rows: seq<Row>)
    ensures rows == Table()
    ensures AllAtMostOneOrNaN(rows)
  {
    rows := [];
    var n := 1;
    while n < 12
      invariant 1 <= n <= 12
      invariant rows == RowsBelow(n)
      invariant AllAtMostOneOrNaN(rows)
    {
      var o := 1;
      while o < 25 - n
        invariant 1 <= o <= 25 - n
        invariant rows == RowsBelow(n) + RowsOf(n)[..o - 1]
        invariant AllAtMostOneOrNaN(rows)
      {
        var row := MakeRow(n, o);
        GenerateStep(n, o, rows);
        rows := rows + [row];
        o := o + 1;
      }
      assert RowsOf(n)[..o - 1] == RowsOf(n);
      n := n + 1;
    }
  }

  /** Every row of a list passes the check of generate. */
  predicate AllAtMostOneOrNaN(rows: seq<Row>)
  {
    forall k :: 0 <= k < |rows| ==> AtMostOneOrNaN(rows[k])
  }

  /** One pass of the inner loop of generate: the row of (n, o) passes the check and extends the table so far. */
  lemma GenerateStep(n: int, o: int, rows: seq<Row>)
    requires 1 <= n < 12 && 1 <= o < 25 - n
    requires rows == RowsBelow(n) + RowsOf(n)[..o - 1] && AllAtMostOneOrNaN(rows)
    ensures rows + [MakeRow(n, o)] == RowsBelow(n) + RowsOf(n)[..o]
    ensures AllAtMostOneOrNaN(rows + [MakeRow(n, o)])
  {
    RowProbabilitiesAtMostOne(n, o);
    PrefixExtend(RowsOf(n), o);
    AppendChecked(rows, MakeRow(n, o));
  }

  lemma PrefixExtend<T>(s: seq<T>, k: int)
    requires 1 <= k <= |s|
    ensures s[..k] == s[..k - 1] + [s[k - 1]]
  {
  }

  lemma AppendChecked(rows: seq<Row>, row: Row)
    requires AllAtMostOneOrNaN(rows) && AtMostOneOrNaN(row)
    ensures AllAtMostOneOrNaN(rows + [row])
  {
    var extended := rows + [row];
    forall k | 0 <= k < |extended|
      ensures AtMostOneOrNaN(extended[k])
    {
      if k < |rows| {
        assert extended[k] == rows[k];
      }
    }
  }

  // ---------------------------------------------------------------------------
  // Properties of the cells

  /**
   * For every generated row, the only undefined cells are straight for
   * n >= 5 and straight_have_1 for n >= 9: there the non-matching pool
   * 24 - n - 20 (resp. 24 - n - 16) is negative.
   */
  lemma UndefinedCells(t: BetType, n: int, o: int)
    requires 1 <= n <= 11
    ensures Frequency(t, n, o).None? <==> (t == Straight && n >= 5) || (t == StraightHave1 && n >= 9)
  {
  }

  /** The denominator C(24 - n, o) of every generated row is defined and at least 1. */
  lemma DenominatorPositive(n: int, o: int)
    requires InRange(n, o)
    ensures MakeRow(n, o).allStates.Some? && MakeRow(n, o).allStates.value >= 1
  {
    CPositive(24 - n, o);
  }

  /** High card: the draws containing at least one of the 4 cards of the value. */
  lemma HighCardComplement(n: int, o: int)
    requires n <= 20
    ensures Frequency(HighCard, n, o) == Some(C(24 - n, o) - C(20 - n, o))
  {
    var b := 24 - n - 4;
    Vandermonde(4, b, o);
    SumSplit(4, b, o, 0, 1, 5);
    assert HyperSum(4, b, o, 0, 1) == C(4, 0) * C(b, o);
  }

  /** Every defined numerator is at most the number of all draws C(24 - n, o). */
  lemma FrequencyBound(t: BetType, n: int, o: int)
    requires n <= 24
    ensures Frequency(t, n, o).Some? ==> Frequency(t, n, o).value <= C(24 - n, o)
  {
    if t in {HighCard, PairHave1, ThreeHave2, Pair, ThreeHave1, Three} {
      ValueSumsBound(t, n, o);
    } else if t in {Colour, ColourHave1, ColourHave2, ColourHave3, ColourHave4} {
      ColourSumsBound(t, n, o);
    } else if t in {FourHave3, FourHave2, FourHave1, Four, FlushGreat} {
      FixedCardsBound(t, n, o);
    } else if t in {Flush, FlushHave1, FlushHave2, FlushHave3, FlushHave4} {
      FlushBound(t, n, o);
    } else if t in {Straight, StraightHave1, StraightHave2, StraightHave3, StraightHave4} {
      StraightBound(t, n, o);
    } else if t in {TwoPairs, TwoPairsHave1, TwoPairsHave1Have1} {
      TwoPairsBound(t, n, o);
    } else if t in {FullHouse, FullHouseHave0And1, FullHouseHave1And0} {
      FullHouseBound(t, n, o);
    } else {
      FullHouseHavingBound(t, n, o);
    }
  }

  /** A hypergeometric partial sum over a pool of m cards is at most C(m, o). */
  lemma HyperAtMost(a: nat, b: int, o: int, lo: int, hi: int, m: int)
    requires 0 <= lo && hi <= a + 1 && b == m - a
    ensures Hyper(a, b, o, lo, hi).Some? ==> m >= 0 && Hyper(a, b, o, lo, hi).value <= C(m, o)
  {
    if b >= 0 {
      PartialBound(a, b, o, lo, hi);
    }
  }

  /** A two-group sum over a pool of m cards is at most C(m, o). */
  lemma DoubleAtMost(a1: nat, l1: int, h1: int, a2: nat, l2: int, h2: int, b: int, o: int, m: int)
    requires 0 <= l1 && h1 <= a1 + 1 && 0 <= l2 && h2 <= a2 + 1 && b == m - a1 - a2
    ensures Double(a1, l1, h1, a2, l2, h2, b, o).Some? ==> m >= 0 && Double(a1, l1, h1, a2, l2, h2, b, o).value <= C(m, o)
  {
    if b >= 0 {
      DoubleBound(a1, l1, h1, a2, l2, h2, b, o);
    }
  }

  /** The draws containing s fixed cards out of m are at most C(m, o). */
  lemma FixedAtMost(m: int, o: int, s: nat)
    ensures Binom(m - s, o - s).Some? ==> m >= 0 && Binom(m - s, o - s).value <= C(m, o)
  {
    if m - s >= 0 {
      ShiftBound(m, o, s);
    }
  }

  /** One card of each of k fixed values, times 4^k colour choices, out of m cards: at most C(m, o). */
  lemma ScaledAtMost(f: nat, k: nat, m: int, o: int)
    requires f == Pow(4, k)
    ensures Scaled(f, Binom(m - 4 * k, o - k)).Some? ==> m >= 0 && Scaled(f, Binom(m - 4 * k, o - k)).value <= C(m, o)
  {
    if m - 4 * k >= 0 {
      PowerBound(k, m - 4 * k, o);
    }
  }

  lemma ValueSumsBound(t: BetType, n: int, o: int)
    requires n <= 24 && t in {HighCard, PairHave1, ThreeHave2, Pair, ThreeHave1, Three}
    ensures Frequency(t, n, o).Some? ==> Frequency(t, n, o).value <= C(24 - n, o)
  {
    var m := 24 - n;
    match t
    case HighCard => HyperAtMost(4, m - 4, o, 1, 5, m);
    case PairHave1 => HyperAtMost(3, m - 3, o, 1, 4, m);
    case ThreeHave2 => HyperAtMost(2, m - 2, o, 1, 3, m);
    case Pair => HyperAtMost(4, m - 4, o, 2, 5, m);
    case ThreeHave1 => HyperAtMost(3, m - 3, o, 2, 4, m);
    case Three => HyperAtMost(4, m - 4, o, 3, 5, m);
  }

  lemma ColourSumsBound(t: BetType, n: int, o: int)
    requires n <= 24 && t in {Colour, ColourHave1, ColourHave2, ColourHave3, ColourHave4}
    ensures Frequency(t, n, o).Some? ==> Frequency(t, n, o).value <= C(24 - n, o)
  {
    var m := 24 - n;
    match t
    case Colour => HyperAtMost(6, m - 6, o, 5, 7, m);
    case ColourHave1 => HyperAtMost(5, m - 5, o, 4, 6, m);
    case ColourHave2 => HyperAtMost(4, m - 4, o, 3, 5, m);
    case ColourHave3 => HyperAtMost(3, m - 3, o, 2, 4, m);
    case ColourHave4 => HyperAtMost(2, m - 2, o, 1, 3, m);
  }

  lemma FixedCardsBound(t: BetType, n: int, o: int)
    requires n <= 24 && t in {FourHave3, FourHave2, FourHave1, Four, FlushGreat}
    ensures Frequency(t, n, o).Some? ==> Frequency(t, n, o).value <= C(24 - n, o)
  {
    var m := 24 - n;
    match t
    case FourHave3 => FixedAtMost(m, o, 1);
    case FourHave2 => FixedAtMost(m, o, 2);
    case FourHave1 => FixedAtMost(m, o, 3);
    case Four => FixedAtMost(m, o, 4);
    case FlushGreat => FixedAtMost(m, o, 6);
  }

  lemma FlushBound(t: BetType, n: int, o: int)
    requires n <= 24 && t in {Flush, FlushHave1, FlushHave2, FlushHave3, FlushHave4}
    ensures Frequency(t, n, o).Some? ==> Frequency(t, n, o).value <= C(24 - n, o)
  {
    var m := 24 - n;
    match t
    case Flush => FixedAtMost(m, o, 5);
    case FlushHave1 => FixedAtMost(m, o, 4);
    case FlushHave2 => FixedAtMost(m, o, 3);
    case FlushHave3 => FixedAtMost(m, o, 2);
    case FlushHave4 => FixedAtMost(m, o, 1);
  }

  lemma StraightBound(t: BetType, n: int, o: int)
    requires n <= 24 && t in {Straight, StraightHave1, StraightHave2, StraightHave3, StraightHave4}
    ensures Frequency(t, n, o).Some? ==> Frequency(t, n, o).value <= C(24 - n, o)
  {
    var m := 24 - n;
    FourChooseOne();
    match t
    case Straight => ScaledAtMost(Pow(C(4, 1), 5), 5, m, o);
    case StraightHave1 => ScaledAtMost(Pow(C(4, 1), 4), 4, m, o);
    case StraightHave2 => ScaledAtMost(Pow(C(4, 1), 3), 3, m, o);
    case StraightHave3 => ScaledAtMost(Pow(C(4, 1), 2), 2, m, o);
    case StraightHave4 =>
      assert Pow(4, 1) == 4 * Pow(4, 0);
      ScaledAtMost(C(4, 1), 1, m, o);
  }

  lemma TwoPairsBound(t: BetType, n: int, o: int)
    requires n <= 24 && t in {TwoPairs, TwoPairsHave1, TwoPairsHave1Have1}
    ensures Frequency(t, n, o).Some? ==> Frequency(t, n, o).value <= C(24 - n, o)
  {
    var m := 24 - n;
    match t
    case TwoPairs => DoubleAtMost(4, 2, 5, 4, 2, 5, m - 8, o, m);
    case TwoPairsHave1 => DoubleAtMost(3, 1, 4, 4, 2, 5, m - 7, o, m);
    case TwoPairsHave1Have1 => DoubleAtMost(3, 1, 4, 3, 1, 4, m - 6, o, m);
  }

  lemma FullHouseBound(t: BetType, n: int, o: int)
    requires n <= 24 && t in {FullHouse, FullHouseHave0And1, FullHouseHave1And0}
    ensures Frequency(t, n, o).Some? ==> Frequency(t, n, o).value <= C(24 - n, o)
  {
    var m := 24 - n;
    match t
    case FullHouse => DoubleAtMost(4, 3, 5, 4, 2, 5, m - 8, o, m);
    case FullHouseHave0And1 => DoubleAtMost(4, 3, 5, 3, 1, 4, m - 7, o, m);
    case FullHouseHave1And0 => DoubleAtMost(3, 2, 4, 4, 2, 5, m - 7, o, m);
  }

  lemma FullHouseHavingBound(t: BetType, n: int, o: int)
    requires n <= 24 && t in {FullHouseHave1And1, FullHouseHave2And0, FullHouseHave2And1}
    ensures Frequency(t, n, o).Some? ==> Frequency(t, n, o).value <= C(24 - n, o)
  {
    var m := 24 - n;
    match t
    case FullHouseHave1And1 => DoubleAtMost(3, 2, 4, 3, 1, 4, m - 6, o, m);
    case FullHouseHave2And0 => DoubleAtMost(2, 1, 3, 4, 2, 5, m - 6, o, m);
    case FullHouseHave2And1 => DoubleAtMost(2, 1, 3, 3, 1, 4, m - 5, o, m);
  }

  /** Every column of a row holds the numerator of that column. */
  lemma RowCell(n: int, o: int, t: BetType)
    ensures t in MakeRow(n, o).frequencies && MakeRow(n, o).frequencies[t] == Frequency(t, n, o)
  {
    ColumnsEnumerateBetType();
    assert Columns()[ColumnIndex(t)] == t;
  }

  lemma RatioInUnitInterval(f: nat, d: nat)
    requires f <= d && d >= 1
    ensures 0.0 <= f as real / d as real <= 1.0
  {
    var x, y := f as real, d as real;
    assert x / y * y == x;
  }

  /** Every defined probability of a generated row lies in [0, 1]. */
  lemma ProbabilityInUnitInterval(n: int, o: int, t: BetType)
    requires InRange(n, o)
    ensures Probability(MakeRow(n, o), t).Some? ==>
              0.0 <= Probability(MakeRow(n, o), t).value <= 1.0
  {
    var row := MakeRow(n, o);
    DenominatorPositive(n, o);
    RowCell(n, o, t);
    FrequencyBound(t, n, o);
    if row.frequencies[t].Some? {
      RatioInUnitInterval(row.frequencies[t].value, row.allStates.value);
    }
  }

  /** The assertion made on every generated row holds. */
  lemma RowProbabilitiesAtMostOne(n: int, o: int)
    requires InRange(n, o)
    ensures AtMostOneOrNaN(MakeRow(n, o))
  {
    forall t | t in MakeRow(n, o).frequencies
      ensures Probability(MakeRow(n, o), t).None? || Probability(MakeRow(n, o), t).value <= 1.0
    {
      ProbabilityInUnitInterval(n, o, t);
    }
  }

  /** Each row holds exactly the 35 columns. */
  lemma RowColumns(n: int, o: int)
    ensures forall t :: t in MakeRow(n, o).frequencies
    ensures |MakeRow(n, o).frequencies| == 35
  {
    var cells := MakeRow(n, o).frequencies;
    forall t
      ensures t in cells
    {
      RowCell(n, o, t);
    }
    ColumnsEnumerateBetType();
    assert cells.Keys == Elements(Columns());
    DistinctCardinality(Columns());
  }

  // ---------------------------------------------------------------------------
  // Properties of the row index and of the whole table

  /** The row index decodes back to (n, o) with integer division by 100. */
  lemma RowKeyDecodes(n: int, o: int)
    requires 0 <= o < 100
    ensures RowKey(n, o) / 100 == n && RowKey(n, o) % 100 == o
  {
  }

  /** Hence the row index is injective over the generated range. */
  lemma RowKeyInjective(n: int, o: int, n': int, o': int)
    requires InRange(n, o) && InRange(n', o')
    requires RowKey(n, o) == RowKey(n', o')
    ensures n == n' && o == o'
  {
    RowKeyDecodes(n, o);
    RowKeyDecodes(n', o');
  }

  predicate IncreasingKeys(rows: seq<Row>)
  {
    forall i, j :: 0 <= i < j < |rows| ==> rows[i].index < rows[j].index
  }

  /** A row is the one its index decodes to, and that (n, o) is in the generated range. */
  predicate WellIndexed(r: Row)
  {
    InRange(r.index / 100, r.index % 100) && r == MakeRow(r.index / 100, r.index % 100)
  }

  lemma {:induction false} RowsBelowLength(n: int)
    requires 1 <= n <= 12
    ensures 2 * |RowsBelow(n)| == (n - 1) * (48 - n)
  {
    if n > 1 {
      RowsBelowLength(n - 1);
      assert (n - 1) * (48 - n) == (n - 2) * (49 - n) + 2 * (25 - n);
    }
  }

  lemma {:induction false} RowsBelowKeys(n: int)
    requires 1 <= n <= 12
    ensures IncreasingKeys(RowsBelow(n))
    ensures forall k :: 0 <= k < |RowsBelow(n)| ==> RowsBelow(n)[k].index < 100 * n
  {
    if n > 1 {
      RowsBelowKeys(n - 1);
      RowsOfKeys(n - 1);
      KeysConcatenate(RowsBelow(n - 1), RowsOf(n - 1), 100 * (n - 1));
    }
  }

  /** The rows of n own cards have increasing keys strictly between 100 * n and 100 * (n + 1). */
  lemma RowsOfKeys(n: int)
    requires 1 <= n <= 11
    ensures IncreasingKeys(RowsOf(n))
    ensures forall k :: 0 <= k < |RowsOf(n)| ==> 100 * n < RowsOf(n)[k].index < 100 * (n + 1)
  {
  }

  /** Two runs of increasing keys, all of the first below a bound the second lies above, join into one. */
  lemma KeysConcatenate(a: seq<Row>, b: seq<Row>, bound: int)
    requires IncreasingKeys(a) && IncreasingKeys(b)
    requires forall k :: 0 <= k < |a| ==> a[k].index < bound
    requires forall k :: 0 <= k < |b| ==> bound < b[k].index < bound + 100
    ensures IncreasingKeys(a + b)
    ensures forall k :: 0 <= k < |a + b| ==> (a + b)[k].index < bound + 100
  {
    var ab := a + b;
    forall i, j | 0 <= i < j < |ab|
      ensures ab[i].index < ab[j].index
    {
      if j < |a| {
        assert ab[i] == a[i] && ab[j] == a[j];
      } else if i < |a| {
        assert ab[i] == a[i] && ab[j] == b[j - |a|];
      } else {
        assert ab[i] == b[i - |a|] && ab[j] == b[j - |a|];
      }
    }
    forall k | 0 <= k < |ab|
      ensures ab[k].index < bound + 100
    {
      if k < |a| {
        assert ab[k] == a[k];
      } else {
        assert ab[k] == b[k - |a|];
      }
    }
  }

  lemma {:induction false} RowsBelowWellIndexed(n: int)
    requires 1 <= n <= 12
    ensures forall k :: 0 <= k < |RowsBelow(n)| ==> WellIndexed(RowsBelow(n)[k])
  {
    if n > 1 {
      RowsBelowWellIndexed(n - 1);
      var init, last := RowsBelow(n - 1), RowsOf(n - 1);
      assert RowsBelow(n) == init + last;
      forall k | 0 <= k < |last|
        ensures WellIndexed(last[k])
      {
        RowKeyDecodes(n - 1, 1 + k);
      }
    }
  }

  lemma {:induction false} RowsBelowCover(n: int)
    requires 1 <= n <= 12
    ensures forall n', o' :: InRange(n', o') && n' < n ==> MakeRow(n', o') in RowsBelow(n)
  {
    if n > 1 {
      RowsBelowCover(n - 1);
      var init, last := RowsBelow(n - 1), RowsOf(n - 1);
      assert RowsBelow(n) == init + last;
      forall n', o' | InRange(n', o') && n' < n
        ensures MakeRow(n', o') in RowsBelow(n)
      {
        if n' == n - 1 {
          assert last[o' - 1] == MakeRow(n', o');
        } else {
          assert MakeRow(n', o') in init;
        }
      }
    }
  }
}
