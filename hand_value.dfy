/**
 * Values of a card-count vector: slot i (0..9) holds the number of cards of
 * value i + 1, so slot 0 counts aces and slot 9 counts every ten-valued card
 * (10, J, Q, K). These are the quantities a card-count container caches.
 */
module HandValue {
  import opened Fingerprint

  const RANKS: nat := 10

  /** Weights for the hard sum (an ace counts 1) and for the number of cards. */
  const FACES: seq<int> := [1, 2, 3, 4, 5, 6, 7, 8, 9, 10]
  const ONES: seq<int> := [1, 1, 1, 1, 1, 1, 1, 1, 1, 1]

  predicate IsCounts(c: seq<int>)
  {
    |c| == RANKS && forall i :: 0 <= i < |c| ==> c[i] >= 0
  }

  function Total(c: seq<int>): int
    requires |c| == RANKS
  {
    Dot(c, ONES)
  }

  /** The sum of the card values with every ace counted as 1. */
  function HardSum(c: seq<int>): int
    requires |c| == RANKS
  {
    Dot(c, FACES)
  }

  predicate IsSoft(c: seq<int>)
    requires |c| == RANKS
  {
    c[0] > 0
  }

  predicate Bust(c: seq<int>)
    requires |c| == RANKS
  {
    HardSum(c) > 21
  }

  predicate IsNatural(c: seq<int>)
    requires |c| == RANKS
  {
    Total(c) == 2 && c[0] == 1 && c[9] == 1
  }

  /** The hand's value with one ace counted as 11 when that does not bust. */
  function ActualSum(c: seq<int>): int
    requires |c| == RANKS
  {
    if IsSoft(c) && HardSum(c) + 10 <= 21 then HardSum(c) + 10 else HardSum(c)
  }

  /** The vector with one more card of value v. */
  function Inc(c: seq<int>, v: int): seq<int>
    requires |c| == RANKS && 1 <= v <= 10
  {
    c[v - 1 := c[v - 1] + 1]
  }

  /** The vector with one card of value v fewer. */
  function Dec(c: seq<int>, v: int): seq<int>
    requires |c| == RANKS && 1 <= v <= 10
  {
    c[v - 1 := c[v - 1] - 1]
  }

  /** The vector holding a single card of value v. */
  function Single(v: int): seq<int>
    requires 1 <= v <= 10
  {
    Inc([0, 0, 0, 0, 0, 0, 0, 0, 0, 0], v)
  }

  const EMPTY: seq<int> := [0, 0, 0, 0, 0, 0, 0, 0, 0, 0]

  /** A total the hand can be given by counting j of its aces as 11. */
  function AceTotal(c: seq<int>, j: int): int
    requires |c| == RANKS
  {
    HardSum(c) + 10 * j
  }

  // ---------------------------------------------------------------------
  // Facts about the values
  // ---------------------------------------------------------------------

  lemma TotalTen(c: seq<int>)
    requires |c| == RANKS
    ensures Total(c) == c[0] + c[1] + c[2] + c[3] + c[4] + c[5] + c[6] + c[7] + c[8] + c[9]
  {
    DotTen(c, ONES);
  }

  lemma HardSumTen(c: seq<int>)
    requires |c| == RANKS
    ensures HardSum(c) == c[0] + 2 * c[1] + 3 * c[2] + 4 * c[3] + 5 * c[4]
                        + 6 * c[5] + 7 * c[6] + 8 * c[7] + 9 * c[8] + 10 * c[9]
  {
    DotTen(c, FACES);
  }

  /** Adding a card of value v adds one card and v points. */
  lemma IncValues(c: seq<int>, v: int)
    requires |c| == RANKS && 1 <= v <= 10
    ensures Total(Inc(c, v)) == Total(c) + 1
    ensures HardSum(Inc(c, v)) == HardSum(c) + v
  {
    DotUpdate(c, ONES, v - 1, 1);
    DotUpdate(c, FACES, v - 1, 1);
  }

  /** Removing a card of value v removes one card and v points. */
  lemma DecValues(c: seq<int>, v: int)
    requires |c| == RANKS && 1 <= v <= 10
    ensures Total(Dec(c, v)) == Total(c) - 1
    ensures HardSum(Dec(c, v)) == HardSum(c) - v
  {
    DotUpdate(c, ONES, v - 1, -1);
    DotUpdate(c, FACES, v - 1, -1);
  }

  lemma IncDec(c: seq<int>, v: int)
    requires |c| == RANKS && 1 <= v <= 10
    ensures Dec(Inc(c, v), v) == c && Inc(Dec(c, v), v) == c
  {
  }

  lemma CountsBounds(c: seq<int>)
    requires IsCounts(c)
    ensures 0 <= Total(c) <= HardSum(c) <= 10 * Total(c)
    ensures c[0] <= HardSum(c)
    ensures forall i :: 0 <= i < RANKS ==> c[i] <= Total(c)
  {
    TotalTen(c);
    HardSumTen(c);
  }

  /**
   * A two-card natural is exactly one ace and one ten-valued card, and it is
   * worth 21.
   */
  lemma {:induction false} NaturalIsAceAndTen(c: seq<int>)
    requires IsCounts(c)
    ensures IsNatural(c) <==> c == [1, 0, 0, 0, 0, 0, 0, 0, 0, 1]
    ensures IsNatural(c) ==> HardSum(c) == 11 && ActualSum(c) == 21
  {
    TotalTen(c);
    HardSumTen(c);
    if IsNatural(c) {
      assert c == [1, 0, 0, 0, 0, 0, 0, 0, 0, 1];
    }
  }

  /**
   * The actual sum is the best total the hand can reach without busting
   * when any number of its aces may count 11: it is reachable, and every
   * other reachable total not above 21 is no larger. When the hard sum is
   * above 21 it is the hard sum.
   */
  lemma {:induction false} ActualSumIsBestTotal(c: seq<int>)
    requires IsCounts(c)
    ensures exists j :: 0 <= j <= c[0] && ActualSum(c) == AceTotal(c, j)
    ensures !Bust(c) ==> ActualSum(c) <= 21
    ensures forall j :: 0 <= j <= c[0] && AceTotal(c, j) <= 21 ==> AceTotal(c, j) <= ActualSum(c)
    ensures Bust(c) ==> ActualSum(c) == HardSum(c)
  {
    CountsBounds(c);
    if IsSoft(c) && HardSum(c) + 10 <= 21 {
      assert ActualSum(c) == AceTotal(c, 1);
    } else {
      assert ActualSum(c) == AceTotal(c, 0);
    }
  }

  lemma TotalsOfSingle(v: int)
    requires 1 <= v <= 10
    ensures IsCounts(Single(v)) && Total(Single(v)) == 1 && HardSum(Single(v)) == v
    ensures Total(EMPTY) == 0 && HardSum(EMPTY) == 0
  {
    TotalTen(Single(v));
    HardSumTen(Single(v));
    TotalTen(EMPTY);
    HardSumTen(EMPTY);
  }

  /**
   * The dealer's stand rule: stand above 17, draw below, and on exactly 17
   * stand unless the hand holds an ace and the table hits soft 17. "Soft"
   * is `CardCount::is_soft`: the hand holds an ace, whether or not the
   * ace counts 11. The table simulator and the dealer-state enumeration of
   * the calculation apply the same rule.
   */
  function DealerMustStand(c: seq<int>, hitSoft17: bool): (b: bool)
    requires |c| == RANKS
    ensures !hitSoft17 ==> (b <==> ActualSum(c) >= 17)
    ensures hitSoft17 ==> (b <==> ActualSum(c) > 17 || (ActualSum(c) == 17 && !IsSoft(c)))
  {
    var actualSum := ActualSum(c);
    if actualSum > 17 then true
    else if actualSum < 17 then false
    else if !IsSoft(c) then true
    else !hitSoft17
  }
}
