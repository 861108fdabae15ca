/**
 * The earlier calculation (src/calculation.rs): a table of falling
 * factorials, the player's memoised recursion over hit, stand and double,
 * and the dealer's memoised recursion that counts win, push and lose
 * weights for one player total. Cards are the earlier card-count container
 * of module LegacyStateArray; the hard sum, the card total and the ace
 * test, which that container does not define, are read off its counts.
 */
module LegacyCalculation {
  import opened HandValue
  import opened ExtReals
  import opened Wrappers
  import opened Rules
  import opened LegacyStateArray

  // ---------------------------------------------------------------------
  // The table of falling factorials
  // ---------------------------------------------------------------------

  const PERM_SIZE: int := 500

  /** Products from 2^110 on are saturated. */
  const SATURATION: int := 0x4_0000_0000_0000_0000_0000_0000_0000

  const U128_MAX: int := 0xffff_ffff_ffff_ffff_ffff_ffff_ffff_ffff

  /** i · (i − 1) · … · (i − j + 1). */
  function Falling(i: int, j: nat): int
  {
    if j == 0 then 1 else Falling(i, j - 1) * (i - j + 1)
  }

  /**
   * The entry `get_perm` leaves at row i, column j: 1 in column 0; each
   * column up to the diagonal multiplies the previous entry by the next
   * factor; the first product of at least 2^110 becomes the largest u128
   * and ends the row, whose later entries keep their initial 0.
   */
  function Perm(i: nat, j: nat): int
    decreases j
  {
    if j == 0 then 1
    else if j > i then 0
    else
      var prev := Perm(i, j - 1);
      if prev == 0 || prev >= SATURATION then 0
      else if prev * (i - j + 1) >= SATURATION then U128_MAX
      else prev * (i - j + 1)
  }

  /** Below the diagonal the falling factorials are positive and grow
      with j. */
  lemma {:induction false} FallingGrows(i: nat, j: nat)
    requires 1 <= j <= i
    ensures 1 <= Falling(i, j - 1) <= Falling(i, j)
  {
    if j > 1 {
      FallingGrows(i, j - 1);
    }
  }

  /** Before the row saturates, an entry is the falling factorial. */
  lemma {:induction false} PermIsFalling(i: nat, j: nat)
    requires j <= i && Falling(i, j) < SATURATION
    ensures Perm(i, j) == Falling(i, j)
  {
    if j > 0 {
      FallingGrows(i, j);
      PermIsFalling(i, j - 1);
    }
  }

  /** The first falling factorial of at least 2^110 is stored as the
      largest u128, and every later entry of the row is 0. */
  lemma PermSaturates(i: nat, j: nat, k: nat)
    requires 1 <= j <= i && Falling(i, j - 1) < SATURATION <= Falling(i, j)
    ensures Perm(i, j) == U128_MAX
    ensures j < k ==> Perm(i, k) == 0
  {
    FallingGrows(i, j);
    PermIsFalling(i, j - 1);
    if j < k {
      PermZeroAfter(i, j, k);
    }
  }

  lemma {:induction false} PermZeroAfter(i: nat, j: nat, k: nat)
    requires j < k && (Perm(i, j) == U128_MAX || Perm(i, j) == 0)
    ensures Perm(i, k) == 0
    decreases k - j
  {
    if k > j + 1 {
      PermZeroAfter(i, j, k - 1);
    }
  }

  /** Every product the fill computes fits in 128 bits: the previous entry
      is below 2^110 and the factor is below 512. */
  lemma ProductFits(prev: int, factor: int)
    requires 0 < prev < SATURATION && 0 < factor < 512
    ensures 0 < prev * factor < U128_MAX
  {
    assert prev * factor <= prev * 512;
  }

  /** `get_perm`: the 500 × 500 table, filled row by row. */
  method GetPerm() returns (ret: array2<int>)
    ensures ret.Length0 == PERM_SIZE && ret.Length1 == PERM_SIZE
    ensures forall i, j :: 0 <= i < PERM_SIZE && 0 <= j < PERM_SIZE ==> ret[i, j] == Perm(i, j)
  {
    ret := new int[PERM_SIZE, PERM_SIZE]((i, j) => 0);
    var i := 0;
    while i < PERM_SIZE
      invariant 0 <= i <= PERM_SIZE
      invariant forall a, b :: 0 <= a < i && 0 <= b < PERM_SIZE ==> ret[a, b] == Perm(a, b)
      invariant forall a, b :: i <= a < PERM_SIZE && 0 <= b < PERM_SIZE ==> ret[a, b] == 0
    {
      FillRow(ret, i);
      i := i + 1;
    }
  }

  /** Row i of `get_perm`, on a row that is still all zeros. */
  method FillRow(ret: array2<int>, i: int)
    requires ret.Length0 == PERM_SIZE && ret.Length1 == PERM_SIZE && 0 <= i < PERM_SIZE
    requires forall b :: 0 <= b < PERM_SIZE ==> ret[i, b] == 0
    modifies ret
    ensures forall b :: 0 <= b < PERM_SIZE ==> ret[i, b] == Perm(i, b)
    ensures forall a, b :: 0 <= a < PERM_SIZE && a != i && 0 <= b < PERM_SIZE ==> ret[a, b] == old(ret[a, b])
  {
    ret[i, 0] := 1;
    var j := 1;
    var cur := i;
    var prev := 1;
    while j <= i
      invariant 1 <= j <= i + 1 && cur == i - j + 1
      invariant forall b :: 0 <= b < j ==> ret[i, b] == Perm(i, b)
      invariant forall b :: j <= b < PERM_SIZE ==> ret[i, b] == 0
      invariant prev == Perm(i, j - 1) && 0 < prev < SATURATION
      invariant forall a, b :: 0 <= a < PERM_SIZE && a != i && 0 <= b < PERM_SIZE ==> ret[a, b] == old(ret[a, b])
    {
      var saturated;
      saturated, prev := FillColumn(ret, i, j, prev, cur);
      if saturated {
        forall b | j < b < PERM_SIZE
          ensures ret[i, b] == Perm(i, b)
        {
          PermZeroAfter(i, j, b);
        }
        return;
      }
      j := j + 1;
      cur := cur - 1;
    }
  }

  /** The body of the inner loop of `get_perm`: column j of row i from the
      previous entry prev and the factor cur. */
  method FillColumn(ret: array2<int>, i: int, j: int, prev: int, cur: int) returns (saturated: bool, next: int)
    requires ret.Length0 == PERM_SIZE && ret.Length1 == PERM_SIZE && 1 <= j <= i < PERM_SIZE
    requires prev == Perm(i, j - 1) && 0 < prev < SATURATION && cur == i - j + 1
    modifies ret
    ensures ret[i, j] == Perm(i, j) && (saturated <==> Perm(i, j) == U128_MAX)
    ensures !saturated ==> next == Perm(i, j) && 0 < next < SATURATION
    ensures forall a, b :: 0 <= a < PERM_SIZE && 0 <= b < PERM_SIZE && (a != i || b != j) ==> ret[a, b] == old(ret[a, b])
  {
    ProductFits(prev, cur);
    next := prev * cur;
    PermStep(i, j, prev, next);
    assert 0 < next;
    saturated := next >= SATURATION;
    ret[i, j] := if saturated then U128_MAX else next;
  }

  /** One column of a row that has not saturated yet. */
  lemma PermStep(i: nat, j: nat, prev: int, next: int)
    requires 1 <= j <= i && prev == Perm(i, j - 1) && 0 < prev < SATURATION && next == prev * (i - j + 1)
    ensures Perm(i, j) == if next >= SATURATION then U128_MAX else next
  {
  }

  // ---------------------------------------------------------------------
  // The decision values of one hand
  // ---------------------------------------------------------------------

  /** The values of hitting, standing and doubling; minus infinity when not
      available. */
  datatype MaxExpectation = MaxExpectation(hit: ExtReal, stand: ExtReal, double: ExtReal)

  /** `MaxExpectation::default()`. */
  const DEFAULT_MAX_EXPECTATION: MaxExpectation := MaxExpectation(NegInf, NegInf, NegInf)

  /**
   * `get_max_expectation`: the best of surrendering (worth −0.5), hitting,
   * standing and doubling; a value replaces the best so far only when it
   * is strictly larger.
   */
  function GetMaxExpectation(e: MaxExpectation): (r: (ExtReal, Decision))
    ensures AtMost(Fin(-0.5), r.0) && AtMost(e.hit, r.0) && AtMost(e.stand, r.0) && AtMost(e.double, r.0)
    ensures r == (Fin(-0.5), Surrender) || r == (e.hit, Hit) || r == (e.stand, Stand) || r == (e.double, Double)
  {
    var (m1, d1) := if Less(Fin(-0.5), e.hit) then (e.hit, Hit) else (Fin(-0.5), Surrender);
    var (m2, d2) := if Less(m1, e.stand) then (e.stand, Stand) else (m1, d1);
    if Less(m2, e.double) then (e.double, Double) else (m2, d2)
  }

  /**
   * The decision is the first of surrender, hit, stand and double that
   * reaches the maximum: each one is chosen exactly when it beats every
   * earlier value and is not beaten by a later one.
   */
  lemma GetMaxIsFirstMax(e: MaxExpectation)
    ensures var r := GetMaxExpectation(e);
            var s := Fin(-0.5);
            (r.1 == Surrender <==> AtMost(e.hit, s) && AtMost(e.stand, s) && AtMost(e.double, s))
            && (r.1 == Hit <==> Less(s, e.hit) && AtMost(e.stand, e.hit) && AtMost(e.double, e.hit))
            && (r.1 == Stand <==> Less(Max(s, e.hit), e.stand) && AtMost(e.double, e.stand))
            && (r.1 == Double <==> Less(Max(Max(s, e.hit), e.stand), e.double))
  {
  }

  // ---------------------------------------------------------------------
  // Win, push and lose weights
  // ---------------------------------------------------------------------

  datatype WinLoseCasesOdds = WinLoseCasesOdds(win: real, push: real, lose: real)

  const ZERO_ODDS: WinLoseCasesOdds := WinLoseCasesOdds(0.0, 0.0, 0.0)

  /** `+=` on the three fields. */
  function Plus(a: WinLoseCasesOdds, b: WinLoseCasesOdds): (r: WinLoseCasesOdds)
    ensures r.win - a.win == b.win && r.push - a.push == b.push && r.lose - a.lose == b.lose
  {
    WinLoseCasesOdds(a.win + b.win, a.push + b.push, a.lose + b.lose)
  }

  /** `* x` on the three fields. */
  function Times(a: WinLoseCasesOdds, x: real): WinLoseCasesOdds
  {
    WinLoseCasesOdds(a.win * x, a.push * x, a.lose * x)
  }

  /** The weight of all three outcomes. */
  function Mass(a: WinLoseCasesOdds): real
  {
    a.win + a.push + a.lose
  }

  /** Adding and scaling carry over to the total weight. */
  lemma MassIsLinear(a: WinLoseCasesOdds, b: WinLoseCasesOdds, x: real)
    ensures Mass(Plus(a, b)) == Mass(a) + Mass(b)
    ensures Mass(Times(a, x)) == Mass(a) * x
  {
  }

  /**
   * `add_to_win_lose_cases_count`: delta goes to lose, push or win as the
   * player's total is below, equal to or above the dealer's, and the other
   * two fields keep their values.
   */
  function AddToWinLoseCasesCount(playerSum: int, dealerSum: int, count: WinLoseCasesOdds, delta: real)
    : (r: WinLoseCasesOdds)
    ensures playerSum < dealerSum ==> r == count.(lose := count.lose + delta)
    ensures playerSum == dealerSum ==> r == count.(push := count.push + delta)
    ensures playerSum > dealerSum ==> r == count.(win := count.win + delta)
  {
    if playerSum < dealerSum then count.(lose := count.lose + delta)
    else if playerSum == dealerSum then count.(push := count.push + delta)
    else count.(win := count.win + delta)
  }

  /** Exactly delta is added to the total weight. */
  lemma AddToWinLoseAddsDelta(playerSum: int, dealerSum: int, count: WinLoseCasesOdds, delta: real)
    ensures Mass(AddToWinLoseCasesCount(playerSum, dealerSum, count, delta)) == Mass(count) + delta
  {
  }

  // ---------------------------------------------------------------------
  // The earlier rules and the card-count views
  // ---------------------------------------------------------------------

  /** The earlier table rules; the calculation reads only
      dealerHitOnSoft17. */
  datatype LegacyRule = LegacyRule(numberOfDecks: int, doublePolicy: DoublePolicy, dealerHitOnSoft17: bool,
                                   allowDas: bool, allowLateSurrender: bool, dealerPeekHoleCard: bool)

  /** `get_sum`: the hard sum of the counts. */
  function GetSum(c: CardCount): (n: int)
    reads c.counts
    requires c.counts.Length == RANKS
    ensures n == HardSum(c.Counts())
  {
    HardSumTen(c.counts[..]);
    c.counts[0] + 2 * c.counts[1] + 3 * c.counts[2] + 4 * c.counts[3] + 5 * c.counts[4]
    + 6 * c.counts[5] + 7 * c.counts[6] + 8 * c.counts[7] + 9 * c.counts[8] + 10 * c.counts[9]
  }

  /** `get_total`: the number of cards. */
  function GetTotal(c: CardCount): (n: int)
    reads c.counts
    requires c.counts.Length == RANKS
    ensures n == Total(c.Counts())
  {
    TotalTen(c.counts[..]);
    c.counts[0] + c.counts[1] + c.counts[2] + c.counts[3] + c.counts[4]
    + c.counts[5] + c.counts[6] + c.counts[7] + c.counts[8] + c.counts[9]
  }

  /** The extra hand never holds more of a rank than the original shoe. */
  predicate Below(e: seq<int>, o: seq<int>)
  {
    IsCounts(e) && IsCounts(o) && forall i :: 0 <= i < RANKS ==> e[i] <= o[i]
  }

  lemma BelowTotal(e: seq<int>, o: seq<int>)
    requires Below(e, o)
    ensures 0 <= Total(e) <= Total(o)
  {
    TotalTen(e);
    TotalTen(o);
  }

  lemma EmptyBelow(o: seq<int>)
    requires IsCounts(o)
    ensures Below(EMPTY, o) && Total(EMPTY) == 0 && HardSum(EMPTY) == 0
  {
    TotalsOfSingle(1);
  }

  // ---------------------------------------------------------------------
  // The dealer's recursion
  // ---------------------------------------------------------------------

  /** How the dealer's hand ends: bust, standing on a value, or hitting. */
  datatype DealerCase = DealerBust | DealerStands(dealerSum: int) | DealerHits

  /**
   * Whether the dealer stands on the soft total `soft` (the hard sum plus
   * 10). As written in `memoization_find_win_lose_cases_count`, a soft
   * total of 18 to 21 stops the dealer only at a table that hits soft 17,
   * so a table that stands on soft 17 never stops on a soft total. The
   * intended rule stands on soft 18 to 21, and on soft 17 when the table
   * does not hit it.
   */
  predicate SoftStop(rule: LegacyRule, soft: int, intended: bool)
  {
    if intended then 17 <= soft <= 21 && (soft > 17 || !rule.dealerHitOnSoft17)
    else rule.dealerHitOnSoft17 && soft > 17 && soft <= 21
  }

  /** The case split on the dealer's up card and extra hand e; an ace
      anywhere makes the hand soft. */
  function DealerCaseOf(rule: LegacyRule, dealerUpCard: int, e: seq<int>, intended: bool): DealerCase
    requires |e| == RANKS
  {
    var dealerSum := HardSum(e) + dealerUpCard;
    var isSoft := e[0] > 0 || dealerUpCard == 1;
    if dealerSum > 21 then DealerBust
    else if dealerSum >= 17 then DealerStands(dealerSum)
    else if isSoft && SoftStop(rule, dealerSum + 10, intended) then DealerStands(dealerSum + 10)
    else DealerHits
  }

  /** `IndexMut` read: the entry, or the zero the access inserts. */
  function Entry(m: map<int, WinLoseCasesOdds>, k: int): WinLoseCasesOdds
  {
    if k in m then m[k] else ZERO_ODDS
  }

  /**
   * `memoization_find_win_lose_cases_count` for the player's total
   * playerSum, from original shoe o and extra hand e on table m. A hand
   * already in the table is skipped. A final hand of k cards out of a shoe
   * of n is weighted 1 / PERM[n][k] (the probability of one ordered
   * sequence of k draws). None is a panic: a shoe of PERM_SIZE cards or
   * more indexes past the table, a child's entry is missing when read, or
   * a zero table entry (a row past its saturation) would make the weight
   * infinite.
   */
  function WinLose(rule: LegacyRule, playerSum: int, dealerUpCard: int, o: seq<int>, e: seq<int>,
                   m: map<int, WinLoseCasesOdds>, intended: bool): Option<map<int, WinLoseCasesOdds>>
    requires Below(e, o)
    decreases Total(o) - Total(e), 1
  {
    if Key(e) in m then Some(m) else NewDealerHand(rule, playerSum, dealerUpCard, o, e, m, intended)
  }

  /** A dealer hand not in the table yet: its ending, or the draw loop. */
  function NewDealerHand(rule: LegacyRule, playerSum: int, dealerUpCard: int, o: seq<int>, e: seq<int>,
                         m: map<int, WinLoseCasesOdds>, intended: bool): Option<map<int, WinLoseCasesOdds>>
    requires Below(e, o)
    decreases Total(o) - Total(e), 0, 11
  {
    BelowTotal(e, o);
    if Total(o) >= PERM_SIZE then None
    else
      var perm := Perm(Total(o), Total(e));
      var ending := DealerCaseOf(rule, dealerUpCard, e, intended);
      if ending.DealerHits? then DealerDraws(rule, playerSum, dealerUpCard, o, e, 1, m, intended)
      else if perm == 0 then None
      else Some(m[Key(e) := FinalOdds(playerSum, ending, perm)])
  }

  /** The entry of a final dealer hand drawn with weight 1/perm: a win if
      the dealer busts, else the comparison of the two totals. */
  function FinalOdds(playerSum: int, ending: DealerCase, perm: int): (r: WinLoseCasesOdds)
    requires !ending.DealerHits? && perm != 0
    ensures Mass(r) == 1.0 / perm as real
    ensures ending.DealerBust? ==> r.win == 1.0 / perm as real
  {
    match ending
    case DealerBust => WinLoseCasesOdds(1.0 / perm as real, 0.0, 0.0)
    case DealerStands(v) =>
      AddToWinLoseAddsDelta(playerSum, v, ZERO_ODDS, 1.0 / perm as real);
      AddToWinLoseCasesCount(playerSum, v, ZERO_ODDS, 1.0 / perm as real)
  }

  /** The draw loop from rank `card` on: every rank the extra hand holds
      fewer of than the shoe is drawn, and the child's entry is added with
      the number of such cards left as its factor. */
  function DealerDraws(rule: LegacyRule, playerSum: int, dealerUpCard: int, o: seq<int>, e: seq<int>,
                       card: int, m: map<int, WinLoseCasesOdds>, intended: bool)
    : Option<map<int, WinLoseCasesOdds>>
    requires Below(e, o) && 1 <= card <= 11
    decreases Total(o) - Total(e), 0, 11 - card
  {
    BelowTotal(e, o);
    if card > 10 then Some(m)
    else if e[card - 1] == o[card - 1] then DealerDraws(rule, playerSum, dealerUpCard, o, e, card + 1, m, intended)
    else
      var next := Inc(e, card);
      IncValues(e, card);
      BelowTotal(next, o);
      match WinLose(rule, playerSum, dealerUpCard, o, next, m, intended)
      case None => None
      case Some(m2) =>
        match DrawUpdate(o, e, card, m2)
        case None => None
        case Some(m3) => DealerDraws(rule, playerSum, dealerUpCard, o, e, card + 1, m3, intended)
  }

  /** After the extra hand drew `card` and was solved into m2: the child's
      entry, times the number of such cards the shoe still holds, is added
      to the extra hand's entry. None when the child has no entry. */
  function DrawUpdate(o: seq<int>, e: seq<int>, card: int, m2: map<int, WinLoseCasesOdds>)
    : Option<map<int, WinLoseCasesOdds>>
    requires |o| == RANKS && |e| == RANKS && 1 <= card <= 10
  {
    var next := Inc(e, card);
    if Key(next) !in m2 then None
    else
      var add := Times(m2[Key(next)], (o[card - 1] - e[card - 1]) as real);
      Some(m2[Key(e) := Plus(Entry(m2, Key(e)), add)])
  }

  /** Entries are only ever added, and the extra hand's key is present
      afterwards unless the dealer must hit with nothing left to draw. */
  lemma {:induction false} WinLoseKeys(rule: LegacyRule, playerSum: int, dealerUpCard: int, o: seq<int>,
                                       e: seq<int>, m: map<int, WinLoseCasesOdds>, intended: bool)
    requires Below(e, o)
    ensures var r := WinLose(rule, playerSum, dealerUpCard, o, e, m, intended);
            r.Some? ==> m.Keys <= r.value.Keys
                        && (Key(e) in r.value || (DealerCaseOf(rule, dealerUpCard, e, intended) == DealerHits
                                                  && e == o))
    decreases Total(o) - Total(e), 1
  {
    BelowTotal(e, o);
    if Key(e) !in m && Total(o) < PERM_SIZE && DealerCaseOf(rule, dealerUpCard, e, intended) == DealerHits {
      DrawsKeys(rule, playerSum, dealerUpCard, o, e, 1, m, intended);
    }
  }

  lemma {:induction false} DrawsKeys(rule: LegacyRule, playerSum: int, dealerUpCard: int, o: seq<int>,
                                     e: seq<int>, card: int, m: map<int, WinLoseCasesOdds>, intended: bool)
    requires Below(e, o) && 1 <= card <= 11
    ensures var r := DealerDraws(rule, playerSum, dealerUpCard, o, e, card, m, intended);
            r.Some? ==> m.Keys <= r.value.Keys
                        && (Key(e) in m || Key(e) in r.value
                            || forall i :: card - 1 <= i < RANKS ==> e[i] == o[i])
    decreases Total(o) - Total(e), 0, 11 - card
  {
    BelowTotal(e, o);
    if card <= 10 {
      if e[card - 1] == o[card - 1] {
        DrawsKeys(rule, playerSum, dealerUpCard, o, e, card + 1, m, intended);
      } else {
        var next := Inc(e, card);
        IncValues(e, card);
        BelowTotal(next, o);
        WinLoseKeys(rule, playerSum, dealerUpCard, o, next, m, intended);
        var child := WinLose(rule, playerSum, dealerUpCard, o, next, m, intended);
        if child.Some? && DrawUpdate(o, e, card, child.value).Some? {
          DrawsKeys(rule, playerSum, dealerUpCard, o, e, card + 1, DrawUpdate(o, e, card, child.value).value,
                    intended);
        }
      }
    }
  }

  /**
   * `memoization_find_win_lose_cases_count` in place: the extra hand is
   * changed card by card and restored, the original shoe is only read.
   * The result is false exactly when the recursion panics, and otherwise
   * the table is what WinLose gives for the code as written.
   */
  method MemoizationFindWinLoseCasesCount(rule: LegacyRule, playerSum: int, dealerUpCard: int,
                                          originalShoe: CardCount, dealerExtraHand: CardCount,
                                          odds: LegacyStateArray.StateArray<WinLoseCasesOdds>)
    returns (ok: bool)
    requires originalShoe.Valid() && dealerExtraHand.Valid() && originalShoe.counts != dealerExtraHand.counts
    requires Below(dealerExtraHand.Counts(), originalShoe.Counts()) && odds.default == ZERO_ODDS
    modifies dealerExtraHand, dealerExtraHand.counts, odds
    ensures var r := WinLose(rule, playerSum, dealerUpCard, originalShoe.Counts(), old(dealerExtraHand.Counts()),
                             old(odds.data), false);
            (ok <==> r.Some?) && (ok ==> odds.data == r.value)
    ensures ok ==> dealerExtraHand.Valid() && dealerExtraHand.Counts() == old(dealerExtraHand.Counts())
    decreases Total(originalShoe.Counts()) - Total(dealerExtraHand.Counts()), 3
  {
    ghost var o, e := originalShoe.Counts(), dealerExtraHand.Counts();
    BelowTotal(e, o);
    if odds.ContainsState(dealerExtraHand) {
      return true;
    }
    ok := StoreNewDealerHand(rule, playerSum, dealerUpCard, originalShoe, dealerExtraHand, odds);
  }

  /** A dealer hand not in the table yet. */
  method StoreNewDealerHand(rule: LegacyRule, playerSum: int, dealerUpCard: int,
                            originalShoe: CardCount, dealerExtraHand: CardCount,
                            odds: LegacyStateArray.StateArray<WinLoseCasesOdds>)
    returns (ok: bool)
    requires originalShoe.Valid() && dealerExtraHand.Valid() && originalShoe.counts != dealerExtraHand.counts
    requires Below(dealerExtraHand.Counts(), originalShoe.Counts()) && odds.default == ZERO_ODDS
    requires Key(dealerExtraHand.Counts()) !in odds.data
    modifies dealerExtraHand, dealerExtraHand.counts, odds
    ensures var r := NewDealerHand(rule, playerSum, dealerUpCard, originalShoe.Counts(), old(dealerExtraHand.Counts()),
                                   old(odds.data), false);
            (ok <==> r.Some?) && (ok ==> odds.data == r.value)
    ensures ok ==> dealerExtraHand.Valid() && dealerExtraHand.Counts() == old(dealerExtraHand.Counts())
    decreases Total(originalShoe.Counts()) - Total(dealerExtraHand.Counts()), 2
  {
    ghost var o, e := originalShoe.Counts(), dealerExtraHand.Counts();
    BelowTotal(e, o);
    var dealerSum := GetSum(dealerExtraHand) + dealerUpCard;
    var isSoft := dealerExtraHand.Count(1) > 0 || dealerUpCard == 1;
    var n := GetTotal(originalShoe);
    if n >= PERM_SIZE {
      return false;
    }
    var perm := Perm(n, GetTotal(dealerExtraHand));
    ghost var ending := DealerCaseOf(rule, dealerUpCard, e, false);
    if dealerSum > 21 {
      assert ending == DealerBust;
      ok := StoreFinalHand(playerSum, dealerSum, true, perm, dealerExtraHand, odds, ending);
    } else if dealerSum >= 17 {
      assert ending == DealerStands(dealerSum);
      ok := StoreFinalHand(playerSum, dealerSum, false, perm, dealerExtraHand, odds, ending);
    } else if isSoft && rule.dealerHitOnSoft17 && dealerSum + 10 > 17 && dealerSum + 10 <= 21 {
      assert ending == DealerStands(dealerSum + 10);
      ok := StoreFinalHand(playerSum, dealerSum + 10, false, perm, dealerExtraHand, odds, ending);
    } else {
      assert ending == DealerHits;
      ok := WinLoseDrawLoop(rule, playerSum, dealerUpCard, originalShoe, dealerExtraHand, odds);
    }
  }

  /** A final dealer hand (bust, or standing on dealerSum) gets its
      weight 1/perm as a win, or counted by AddToWinLoseCasesCount; a zero
      PERM entry is the division by zero that panics. */
  method StoreFinalHand(playerSum: int, dealerSum: int, bust: bool, perm: int, dealerExtraHand: CardCount,
                        odds: LegacyStateArray.StateArray<WinLoseCasesOdds>, ghost ending: DealerCase)
    returns (ok: bool)
    requires dealerExtraHand.Valid() && Key(dealerExtraHand.Counts()) !in odds.data && odds.default == ZERO_ODDS
    requires ending == if bust then DealerBust else DealerStands(dealerSum)
    modifies odds
    ensures ok <==> perm != 0
    ensures ok ==> odds.data == old(odds.data)[Key(dealerExtraHand.Counts()) := FinalOdds(playerSum, ending, perm)]
  {
    if perm == 0 {
      return false;
    }
    if bust {
      odds.Set(dealerExtraHand, WinLoseCasesOdds(1.0 / perm as real, 0.0, 0.0));
    } else {
      var cur := odds.IndexMut(dealerExtraHand);
      odds.Set(dealerExtraHand, AddToWinLoseCasesCount(playerSum, dealerSum, cur, 1.0 / perm as real));
    }
    return true;
  }

  /** The hit branch of the dealer's recursion: the loop over ranks 1..10. */
  method WinLoseDrawLoop(rule: LegacyRule, playerSum: int, dealerUpCard: int, originalShoe: CardCount,
                         dealerExtraHand: CardCount, odds: LegacyStateArray.StateArray<WinLoseCasesOdds>)
    returns (ok: bool)
    requires originalShoe.Valid() && dealerExtraHand.Valid() && originalShoe.counts != dealerExtraHand.counts
    requires Below(dealerExtraHand.Counts(), originalShoe.Counts()) && odds.default == ZERO_ODDS
    modifies dealerExtraHand, dealerExtraHand.counts, odds
    ensures var r := DealerDraws(rule, playerSum, dealerUpCard, originalShoe.Counts(),
                                 old(dealerExtraHand.Counts()), 1, old(odds.data), false);
            (ok <==> r.Some?) && (ok ==> odds.data == r.value)
    ensures ok ==> dealerExtraHand.Valid() && dealerExtraHand.Counts() == old(dealerExtraHand.Counts())
    decreases Total(originalShoe.Counts()) - Total(dealerExtraHand.Counts()), 1
  {
    ghost var o, e := originalShoe.Counts(), dealerExtraHand.Counts();
    BelowTotal(e, o);
    ghost var goal := DealerDraws(rule, playerSum, dealerUpCard, o, e, 1, odds.data, false);
    var card := 1;
    while card <= 10
      invariant 1 <= card <= 11
      invariant dealerExtraHand.Valid() && dealerExtraHand.Counts() == e && odds.default == ZERO_ODDS
      invariant DealerDraws(rule, playerSum, dealerUpCard, o, e, card, odds.data, false) == goal
    {
      var stepOk := WinLoseDrawCard(rule, playerSum, dealerUpCard, card, originalShoe, dealerExtraHand, odds);
      if !stepOk {
        return false;
      }
      card := card + 1;
    }
    return true;
  }

  /** One rank of the dealer's draw loop: if the shoe has a card of that
      rank left, give it to the dealer, recurse, take it back and add the
      child's entry times the number of such cards left. */
  method WinLoseDrawCard(rule: LegacyRule, playerSum: int, dealerUpCard: int, card: int, originalShoe: CardCount,
                         dealerExtraHand: CardCount, odds: LegacyStateArray.StateArray<WinLoseCasesOdds>)
    returns (ok: bool)
    requires originalShoe.Valid() && dealerExtraHand.Valid() && originalShoe.counts != dealerExtraHand.counts
    requires Below(dealerExtraHand.Counts(), originalShoe.Counts()) && odds.default == ZERO_ODDS
    requires 1 <= card <= 10
    modifies dealerExtraHand, dealerExtraHand.counts, odds
    ensures var o, e := originalShoe.Counts(), old(dealerExtraHand.Counts());
            var r := DealerDraws(rule, playerSum, dealerUpCard, o, e, card, old(odds.data), false);
            (!ok ==> r.None?)
            && (ok ==> dealerExtraHand.Valid() && dealerExtraHand.Counts() == e
                       && r == DealerDraws(rule, playerSum, dealerUpCard, o, e, card + 1, odds.data, false))
    decreases Total(originalShoe.Counts()) - Total(dealerExtraHand.Counts()), 0
  {
    ghost var o, e, m := originalShoe.Counts(), dealerExtraHand.Counts(), odds.data;
    BelowTotal(e, o);
    if dealerExtraHand.Count(card) == originalShoe.Count(card) {
      return true;
    }
    ghost var next := Inc(e, card);
    IncValues(e, card);
    BelowTotal(next, o);
    dealerExtraHand.AddCard(card);
    ok := MemoizationFindWinLoseCasesCount(rule, playerSum, dealerUpCard, originalShoe, dealerExtraHand, odds);
    if !ok {
      return;
    }
    ok := AddDealerCard(card, originalShoe, dealerExtraHand, odds, e);
  }

  /** The extra hand holds the drawn card and is solved: read the child's
      entry, put the card back, and add its weighted share. */
  method AddDealerCard(card: int, originalShoe: CardCount, dealerExtraHand: CardCount,
                       odds: LegacyStateArray.StateArray<WinLoseCasesOdds>, ghost e: seq<int>)
    returns (ok: bool)
    requires originalShoe.Valid() && dealerExtraHand.Valid() && originalShoe.counts != dealerExtraHand.counts
    requires 1 <= card <= 10 && IsCounts(e) && dealerExtraHand.Counts() == Inc(e, card)
    requires odds.default == ZERO_ODDS
    modifies dealerExtraHand, dealerExtraHand.counts, odds
    ensures var r := DrawUpdate(originalShoe.Counts(), e, card, old(odds.data));
            (ok <==> r.Some?)
            && (ok ==> odds.data == r.value && dealerExtraHand.Valid() && dealerExtraHand.Counts() == e)
  {
    if !odds.ContainsState(dealerExtraHand) {
      return false;
    }
    var nextStateOdds := odds.Index(dealerExtraHand);
    IncDec(e, card);
    dealerExtraHand.RemoveCard(card);
    var cur := odds.IndexMut(dealerExtraHand);
    var add := Times(nextStateOdds, (originalShoe.Count(card) - dealerExtraHand.Count(card)) as real);
    odds.Set(dealerExtraHand, Plus(cur, add));
    return true;
  }

  // ---------------------------------------------------------------------
  // The player's stand value
  // ---------------------------------------------------------------------

  /**
   * `calculate_stand_expectation`: the player's total (an ace counted as
   * 11 when that does not bust), the dealer's recursion from an empty
   * extra hand on a fresh table, and win minus lose at the empty hand.
   * None when the recursion panics or leaves no entry for the empty hand.
   */
  function StandExpectation(rule: LegacyRule, h: seq<int>, dealerUpCard: int, s: seq<int>, intended: bool)
    : Option<real>
    requires |h| == RANKS && IsCounts(s)
  {
    EmptyBelow(s);
    match WinLose(rule, ActualSum(h), dealerUpCard, s, EMPTY, map[], intended)
    case None => None
    case Some(m) => if Key(EMPTY) in m then Some(m[Key(EMPTY)].win - m[Key(EMPTY)].lose) else None
  }

  /** `calculate_stand_expectation` with its own extra hand and table. */
  method CalculateStandExpectation(rule: LegacyRule, playerHand: CardCount, dealerUpCard: int, shoe: CardCount)
    returns (ok: bool, ex: real)
    requires playerHand.Valid() && shoe.Valid()
    ensures var r := StandExpectation(rule, playerHand.Counts(), dealerUpCard, shoe.Counts(), false);
            (ok <==> r.Some?) && (ok ==> ex == r.value)
  {
    EmptyBelow(shoe.Counts());
    var dealerExtraHand := new CardCount(EMPTY);
    var sum := GetSum(playerHand);
    var playerSum := if playerHand.Count(1) > 0 && sum + 10 <= 21 then sum + 10 else sum;
    var odds := new LegacyStateArray.StateArray<WinLoseCasesOdds>(ZERO_ODDS);
    ok := MemoizationFindWinLoseCasesCount(rule, playerSum, dealerUpCard, shoe, dealerExtraHand, odds);
    if !ok || !odds.ContainsState(dealerExtraHand) {
      return false, 0.0;
    }
    var od := odds.Index(dealerExtraHand);
    ex := od.win - od.lose;
  }

  // ---------------------------------------------------------------------
  // The player's recursion
  // ---------------------------------------------------------------------

  /** The entry of a busted hand: standing loses the bet, nothing else is
      available. */
  const BUST_ENTRY: MaxExpectation := MaxExpectation(NegInf, Fin(-1.0), NegInf)

  /** `IndexMut` read of the solution table. */
  function SolutionEntry(m: map<int, MaxExpectation>, k: int): MaxExpectation
  {
    if k in m then m[k] else DEFAULT_MAX_EXPECTATION
  }

  /**
   * What a hit is worth once the card is drawn. As written in
   * `memoization_find_solution` it is the child's `get_max_expectation`,
   * which floors it at the surrender value −0.5 and lets the child double;
   * after a hit neither is allowed, so the intended value is the better of
   * hitting again and standing.
   */
  function AfterHit(child: MaxExpectation, intended: bool): ExtReal
  {
    if intended then Max(child.hit, child.stand) else GetMaxExpectation(child).0
  }

  /**
   * `memoization_find_solution` for hand h and remaining shoe s on table m
   * (keyed by the hand only). A hand already in the table is skipped; a
   * busted hand stands at −1; a hard 21, or a soft hand with hard sum 11,
   * only stands; any other hand is given hit 0 and double 0, the hit loop
   * runs, and its stand value is filled in last. None when a step panics.
   */
  function FindSolution(rule: LegacyRule, dealerUpCard: int, s: seq<int>, h: seq<int>,
                        m: map<int, MaxExpectation>, intended: bool): Option<map<int, MaxExpectation>>
    requires IsCounts(s) && IsCounts(h)
    decreases Total(s), 1
  {
    CountsBounds(s);
    if Key(h) in m then Some(m)
    else if HardSum(h) > 21 then Some(m[Key(h) := BUST_ENTRY])
    else if HardSum(h) == 21 || (IsSoft(h) && HardSum(h) == 11) then
      match StandExpectation(rule, h, dealerUpCard, s, intended)
      case None => None
      case Some(x) => Some(m[Key(h) := MaxExpectation(NegInf, Fin(x), NegInf)])
    else OpenHand(rule, dealerUpCard, s, h, m, intended)
  }

  /** A hand that may still draw: hit and double start at 0, the hit loop
      runs, and the stand value is filled in last. */
  function OpenHand(rule: LegacyRule, dealerUpCard: int, s: seq<int>, h: seq<int>,
                    m: map<int, MaxExpectation>, intended: bool): Option<map<int, MaxExpectation>>
    requires IsCounts(s) && IsCounts(h)
    decreases Total(s), 0, 11
  {
    match HitLoop(rule, dealerUpCard, s, h, 1, m[Key(h) := MaxExpectation(Fin(0.0), NegInf, Fin(0.0))], intended)
    case None => None
    case Some(m2) =>
      match StandExpectation(rule, h, dealerUpCard, s, intended)
      case None => None
      case Some(x) => Some(m2[Key(h) := SolutionEntry(m2, Key(h)).(stand := Fin(x))])
  }

  /**
   * The hit loop from rank `card` on: for every rank present, draw it,
   * solve the new hand, and add p times the child's after-hit value to
   * hit and p·2 times the child's stand value to double, where p is the
   * rank's share of the shoe.
   */
  function HitLoop(rule: LegacyRule, dealerUpCard: int, s: seq<int>, h: seq<int>, card: int,
                   m: map<int, MaxExpectation>, intended: bool): Option<map<int, MaxExpectation>>
    requires IsCounts(s) && IsCounts(h) && 1 <= card <= 11
    decreases Total(s), 0, 11 - card
  {
    CountsBounds(s);
    if card > 10 then Some(m)
    else if s[card - 1] == 0 then HitLoop(rule, dealerUpCard, s, h, card + 1, m, intended)
    else
      var s2, h2 := Dec(s, card), Inc(h, card);
      DecValues(s, card);
      match FindSolution(rule, dealerUpCard, s2, h2, m, intended)
      case None => None
      case Some(m2) =>
        match HitUpdate(s, h, card, m2, intended)
        case None => None
        case Some(m3) => HitLoop(rule, dealerUpCard, s, h, card + 1, m3, intended)
  }

  /** The probability of drawing `card`: its count over the shoe's. */
  function Share(s: seq<int>, card: int): (p: real)
    requires IsCounts(s) && 1 <= card <= 10 && s[card - 1] > 0
    ensures 0.0 < p <= 1.0
  {
    CountsBounds(s);
    s[card - 1] as real / Total(s) as real
  }

  /**
   * After the hand drew `card` and was solved into m2: p is the rank's
   * share of the shoe, and the hand's hit value gains p times the child's
   * after-hit value and its double value p·2 times the child's stand
   * value. None when the child has no entry.
   */
  function HitUpdate(s: seq<int>, h: seq<int>, card: int, m2: map<int, MaxExpectation>, intended: bool)
    : Option<map<int, MaxExpectation>>
    requires IsCounts(s) && |h| == RANKS && 1 <= card <= 10 && s[card - 1] > 0
  {
    var h2 := Inc(h, card);
    if Key(h2) !in m2 then None
    else
      var child := m2[Key(h2)];
      var p := Share(s, card);
      var cur := SolutionEntry(m2, Key(h));
      Some(m2[Key(h) := cur.(hit := Add(cur.hit, Scale(p, AfterHit(child, intended))),
                             double := Add(cur.double, Scale(p * 2.0, child.stand)))])
  }

  /**
   * `memoization_find_solution` in place: the shoe and the hand are
   * changed card by card and restored. The result is false exactly when
   * the recursion panics, and otherwise the table is what FindSolution
   * gives for the code as written.
   */
  method MemoizationFindSolution(rule: LegacyRule, dealerUpCard: int, currentShoe: CardCount,
                                 currentHand: CardCount, solution: LegacyStateArray.StateArray<MaxExpectation>)
    returns (ok: bool)
    requires currentShoe.Valid() && currentHand.Valid() && currentShoe.counts != currentHand.counts
    requires solution.default == DEFAULT_MAX_EXPECTATION
    modifies currentShoe, currentShoe.counts, currentHand, currentHand.counts, solution
    ensures var r := FindSolution(rule, dealerUpCard, old(currentShoe.Counts()), old(currentHand.Counts()),
                                  old(solution.data), false);
            (ok <==> r.Some?) && (ok ==> solution.data == r.value)
    ensures ok ==> currentShoe.Valid() && currentHand.Valid()
                   && currentShoe.Counts() == old(currentShoe.Counts())
                   && currentHand.Counts() == old(currentHand.Counts())
    decreases Total(currentShoe.Counts()), 3
  {
    ghost var s, h := currentShoe.Counts(), currentHand.Counts();
    CountsBounds(s);
    if solution.ContainsState(currentHand) {
      return true;
    }
    var currentSum := GetSum(currentHand);
    if currentSum > 21 {
      solution.Set(currentHand, BUST_ENTRY);
      return true;
    }
    if currentSum == 21 || (currentHand.Count(1) > 0 && currentSum == 11) {
      var standOk, ex := CalculateStandExpectation(rule, currentHand, dealerUpCard, currentShoe);
      if !standOk {
        return false;
      }
      solution.Set(currentHand, MaxExpectation(NegInf, Fin(ex), NegInf));
      return true;
    }
    ok := SolveOpenHand(rule, dealerUpCard, currentShoe, currentHand, solution);
  }

  /** The hand may draw: the table entry is started, the hit loop runs
      and the stand value is stored. */
  method SolveOpenHand(rule: LegacyRule, dealerUpCard: int, currentShoe: CardCount,
                       currentHand: CardCount, solution: LegacyStateArray.StateArray<MaxExpectation>)
    returns (ok: bool)
    requires currentShoe.Valid() && currentHand.Valid() && currentShoe.counts != currentHand.counts
    requires solution.default == DEFAULT_MAX_EXPECTATION
    modifies currentShoe, currentShoe.counts, currentHand, currentHand.counts, solution
    ensures var r := OpenHand(rule, dealerUpCard, old(currentShoe.Counts()), old(currentHand.Counts()),
                              old(solution.data), false);
            (ok <==> r.Some?) && (ok ==> solution.data == r.value)
    ensures ok ==> currentShoe.Valid() && currentHand.Valid()
                   && currentShoe.Counts() == old(currentShoe.Counts())
                   && currentHand.Counts() == old(currentHand.Counts())
    decreases Total(currentShoe.Counts()), 2
  {
    solution.Set(currentHand, MaxExpectation(Fin(0.0), NegInf, Fin(0.0)));
    var totalShoeCount := GetTotal(currentShoe);
    ok := SolutionHitLoop(rule, dealerUpCard, totalShoeCount, currentShoe, currentHand, solution);
    if !ok {
      return;
    }
    var standOk, ex := CalculateStandExpectation(rule, currentHand, dealerUpCard, currentShoe);
    if !standOk {
      return false;
    }
    var cur := solution.IndexMut(currentHand);
    solution.Set(currentHand, cur.(stand := Fin(ex)));
  }

  /** The hit loop of `memoization_find_solution` over ranks 1..10. */
  method SolutionHitLoop(rule: LegacyRule, dealerUpCard: int, totalShoeCount: int, currentShoe: CardCount,
                         currentHand: CardCount, solution: LegacyStateArray.StateArray<MaxExpectation>)
    returns (ok: bool)
    requires currentShoe.Valid() && currentHand.Valid() && currentShoe.counts != currentHand.counts
    requires solution.default == DEFAULT_MAX_EXPECTATION && totalShoeCount == Total(currentShoe.Counts())
    modifies currentShoe, currentShoe.counts, currentHand, currentHand.counts, solution
    ensures var r := HitLoop(rule, dealerUpCard, old(currentShoe.Counts()), old(currentHand.Counts()), 1,
                             old(solution.data), false);
            (ok <==> r.Some?) && (ok ==> solution.data == r.value)
    ensures ok ==> currentShoe.Valid() && currentHand.Valid()
                   && currentShoe.Counts() == old(currentShoe.Counts())
                   && currentHand.Counts() == old(currentHand.Counts())
    decreases Total(currentShoe.Counts()), 1
  {
    ghost var s, h := currentShoe.Counts(), currentHand.Counts();
    ghost var goal := HitLoop(rule, dealerUpCard, s, h, 1, solution.data, false);
    CountsBounds(s);
    var card := 1;
    while card <= 10
      invariant 1 <= card <= 11
      invariant currentShoe.Valid() && currentHand.Valid() && currentShoe.Counts() == s && currentHand.Counts() == h
      invariant HitLoop(rule, dealerUpCard, s, h, card, solution.data, false) == goal
    {
      var stepOk := SolutionHitCard(rule, dealerUpCard, card, totalShoeCount, currentShoe, currentHand, solution);
      if !stepOk {
        return false;
      }
      card := card + 1;
    }
    return true;
  }

  /** One rank of the hit loop: draw it if present, solve, put it back,
      and add its share to the hand's hit and double values. */
  method SolutionHitCard(rule: LegacyRule, dealerUpCard: int, card: int, totalShoeCount: int,
                         currentShoe: CardCount, currentHand: CardCount,
                         solution: LegacyStateArray.StateArray<MaxExpectation>)
    returns (ok: bool)
    requires currentShoe.Valid() && currentHand.Valid() && currentShoe.counts != currentHand.counts
    requires solution.default == DEFAULT_MAX_EXPECTATION && totalShoeCount == Total(currentShoe.Counts())
    requires 1 <= card <= 10
    modifies currentShoe, currentShoe.counts, currentHand, currentHand.counts, solution
    ensures var s, h := old(currentShoe.Counts()), old(currentHand.Counts());
            var r := HitLoop(rule, dealerUpCard, s, h, card, old(solution.data), false);
            (!ok ==> r.None?)
            && (ok ==> currentShoe.Valid() && currentHand.Valid()
                       && currentShoe.Counts() == s && currentHand.Counts() == h
                       && r == HitLoop(rule, dealerUpCard, s, h, card + 1, solution.data, false))
    decreases Total(currentShoe.Counts()), 0
  {
    ghost var s, h, m := currentShoe.Counts(), currentHand.Counts(), solution.data;
    CountsBounds(s);
    if currentShoe.Count(card) == 0 {
      return true;
    }
    DecValues(s, card);
    IncDec(s, card);
    IncDec(h, card);
    currentShoe.RemoveCard(card);
    currentHand.AddCard(card);
    ok := MemoizationFindSolution(rule, dealerUpCard, currentShoe, currentHand, solution);
    if !ok {
      return;
    }
    ok := AddDrawnCard(card, totalShoeCount, currentShoe, currentHand, solution, s, h);
  }

  /** The hand holds the drawn card and is solved: read the child's
      values, put the card back, and add the rank's share. */
  method AddDrawnCard(card: int, totalShoeCount: int, currentShoe: CardCount, currentHand: CardCount,
                      solution: LegacyStateArray.StateArray<MaxExpectation>, ghost s: seq<int>, ghost h: seq<int>)
    returns (ok: bool)
    requires currentShoe.Valid() && currentHand.Valid() && currentShoe.counts != currentHand.counts
    requires 1 <= card <= 10 && IsCounts(s) && IsCounts(h) && s[card - 1] > 0
    requires solution.default == DEFAULT_MAX_EXPECTATION && totalShoeCount == Total(s)
    requires currentShoe.Counts() == Dec(s, card) && currentHand.Counts() == Inc(h, card)
    modifies currentShoe, currentShoe.counts, currentHand, currentHand.counts, solution
    ensures var r := HitUpdate(s, h, card, old(solution.data), false);
            (ok <==> r.Some?)
            && (ok ==> solution.data == r.value && currentShoe.Valid() && currentHand.Valid()
                       && currentShoe.Counts() == s && currentHand.Counts() == h)
  {
    if !solution.ContainsState(currentHand) {
      return false;
    }
    var child := solution.Index(currentHand);
    var (exMax, _) := GetMaxExpectation(child);
    var exStand := child.stand;
    IncDec(s, card);
    IncDec(h, card);
    CountsBounds(s);
    currentHand.RemoveCard(card);
    currentShoe.AddCard(card);
    var p := currentShoe.Count(card) as real / totalShoeCount as real;
    var cur := solution.IndexMut(currentHand);
    solution.Set(currentHand, cur.(hit := Add(cur.hit, Scale(p, exMax)),
                                   double := Add(cur.double, Scale(p * 2.0, exStand))));
    return true;
  }

  // ---------------------------------------------------------------------
  // The top level
  // ---------------------------------------------------------------------

  /** The earlier `InitialSituation`: the shoe, the two hand cards and
      the dealer's up card. */
  datatype LegacySituation = LegacySituation(shoe: seq<int>, handCards: (int, int), dealerUpCard: int)

  /** The earlier `SolutionForInitialSituation`: the table keyed by hand,
      and the placeholder for the split value. */
  datatype LegacySolution = LegacySolution(generalSolution: map<int, MaxExpectation>, splitExpectation: real)

  /** The placeholder `calculate_solution` stores for splitting. */
  const SPLIT_PLACEHOLDER: real := -6666.0

  predicate ValidSituation(situation: LegacySituation)
  {
    IsCounts(situation.shoe) && 1 <= situation.handCards.0 <= 10 && 1 <= situation.handCards.1 <= 10
  }

  /** The two-card hand of a situation. */
  function InitialHand(situation: LegacySituation): (h: seq<int>)
    requires ValidSituation(situation)
    ensures IsCounts(h) && Total(h) == 2
    ensures HardSum(h) == situation.handCards.0 + situation.handCards.1
  {
    IncValues(EMPTY, situation.handCards.0);
    IncValues(Inc(EMPTY, situation.handCards.0), situation.handCards.1);
    EmptyBelow(situation.shoe);
    Inc(Inc(EMPTY, situation.handCards.0), situation.handCards.1)
  }

  /** `calculate_solution`: the recursion from the two-card hand on an
      empty table, with the split value left as the placeholder. */
  function CalculateSolutionOf(rule: LegacyRule, situation: LegacySituation, intended: bool): Option<LegacySolution>
    requires ValidSituation(situation)
  {
    match FindSolution(rule, situation.dealerUpCard, situation.shoe, InitialHand(situation), map[], intended)
    case None => None
    case Some(m) => Some(LegacySolution(m, SPLIT_PLACEHOLDER))
  }

  /** `calculate_solution` with its own hand, shoe copy and table; None
      where the code panics. */
  method CalculateSolution(rule: LegacyRule, situation: LegacySituation) returns (r: Option<LegacySolution>)
    requires ValidSituation(situation)
    ensures r == CalculateSolutionOf(rule, situation, false)
    ensures r.Some? ==> Key(InitialHand(situation)) in r.value.generalSolution
                        && r.value.splitExpectation == SPLIT_PLACEHOLDER
  {
    EmptyBelow(situation.shoe);
    var initialHand := new CardCount(EMPTY);
    initialHand.AddCard(situation.handCards.0);
    initialHand.AddCard(situation.handCards.1);
    var shoe := new CardCount(situation.shoe);
    var generalSolution := new LegacyStateArray.StateArray<MaxExpectation>(DEFAULT_MAX_EXPECTATION);
    var ok := MemoizationFindSolution(rule, situation.dealerUpCard, shoe, initialHand, generalSolution);
    FindSolutionKeys(rule, situation.dealerUpCard, situation.shoe, InitialHand(situation), map[], false);
    if !ok {
      return None;
    }
    r := Some(LegacySolution(generalSolution.data, SPLIT_PLACEHOLDER));
  }

  // ---------------------------------------------------------------------
  // Properties of the player's recursion
  // ---------------------------------------------------------------------

  /** Entries are only ever added, and the hand's own entry is present
      afterwards. */
  lemma {:induction false} FindSolutionKeys(rule: LegacyRule, dealerUpCard: int, s: seq<int>, h: seq<int>,
                                            m: map<int, MaxExpectation>, intended: bool)
    requires IsCounts(s) && IsCounts(h)
    ensures var r := FindSolution(rule, dealerUpCard, s, h, m, intended);
            r.Some? ==> m.Keys <= r.value.Keys && Key(h) in r.value
    decreases Total(s), 1
  {
    CountsBounds(s);
    if Key(h) !in m && HardSum(h) <= 21 && !(HardSum(h) == 21 || (IsSoft(h) && HardSum(h) == 11)) {
      HitLoopKeys(rule, dealerUpCard, s, h, 1, m[Key(h) := MaxExpectation(Fin(0.0), NegInf, Fin(0.0))], intended);
    }
  }

  lemma {:induction false} HitLoopKeys(rule: LegacyRule, dealerUpCard: int, s: seq<int>, h: seq<int>, card: int,
                                       m: map<int, MaxExpectation>, intended: bool)
    requires IsCounts(s) && IsCounts(h) && 1 <= card <= 11
    ensures var r := HitLoop(rule, dealerUpCard, s, h, card, m, intended);
            r.Some? ==> m.Keys <= r.value.Keys
    decreases Total(s), 0, 11 - card
  {
    CountsBounds(s);
    if card <= 10 {
      if s[card - 1] == 0 {
        HitLoopKeys(rule, dealerUpCard, s, h, card + 1, m, intended);
      } else {
        DecValues(s, card);
        var s2, h2 := Dec(s, card), Inc(h, card);
        FindSolutionKeys(rule, dealerUpCard, s2, h2, m, intended);
        var child := FindSolution(rule, dealerUpCard, s2, h2, m, intended);
        if child.Some? && HitUpdate(s, h, card, child.value, intended).Some? {
          HitLoopKeys(rule, dealerUpCard, s, h, card + 1, HitUpdate(s, h, card, child.value, intended).value,
                      intended);
        }
      }
    }
  }

  /** The entries the recursion writes for a hand it meets the first
      time: a busted hand only stands, at −1; a hard 21 or a soft hand
      with hard sum 11 only stands, at its stand value; any other hand
      that does not bust gets its stand value as well. */
  lemma FindSolutionEntries(rule: LegacyRule, dealerUpCard: int, s: seq<int>, h: seq<int>,
                            m: map<int, MaxExpectation>, intended: bool)
    requires IsCounts(s) && IsCounts(h) && Key(h) !in m
    ensures var r := FindSolution(rule, dealerUpCard, s, h, m, intended);
            var x := StandExpectation(rule, h, dealerUpCard, s, intended);
            && (HardSum(h) > 21 ==> r == Some(m[Key(h) := BUST_ENTRY]))
            && (HardSum(h) <= 21 && r.Some? ==> x.Some? && Key(h) in r.value && r.value[Key(h)].stand == Fin(x.value))
            && ((HardSum(h) == 21 || (IsSoft(h) && HardSum(h) == 11)) && r.Some?
                ==> r.value == m[Key(h) := MaxExpectation(NegInf, Fin(x.value), NegInf)])
  {
  }

  // ---------------------------------------------------------------------
  // The two discrepancies and their corrections
  // ---------------------------------------------------------------------

  /** The standard dealer rule on the full hand d: stand on a best value
      above 17, and on 17 unless it is a soft 17 at a table that hits it. */
  predicate DealerStandsOn(dealerHitOnSoft17: bool, d: seq<int>)
    requires |d| == RANKS
  {
    var v := ActualSum(d);
    v > 17 || (v == 17 && !(dealerHitOnSoft17 && IsSoft(d) && HardSum(d) + 10 == 17))
  }

  /** As written, a table that stands on soft 17 makes the dealer hit
      every soft hand below hard 17: with an ace up and a 7 drawn the dealer holds
      soft 18 and still draws. */
  lemma AsWrittenSoftEighteenDraws(rule: LegacyRule)
    requires !rule.dealerHitOnSoft17
    ensures DealerCaseOf(rule, 1, Single(7), false) == DealerHits
    ensures DealerStandsOn(rule.dealerHitOnSoft17, Inc(Single(7), 1))
  {
    IncValues(EMPTY, 7);
    IncValues(Single(7), 1);
    TotalsOfSingle(7);
  }

  /** The corrected case split follows the dealer rule on the full hand
      (the extra hand plus the up card): bust exactly when it busts,
      otherwise standing exactly when the rule says so, on its best
      value. */
  lemma IntendedDealerCaseMeaning(rule: LegacyRule, dealerUpCard: int, e: seq<int>)
    requires IsCounts(e) && 1 <= dealerUpCard <= 10
    ensures var d, c := Inc(e, dealerUpCard), DealerCaseOf(rule, dealerUpCard, e, true);
            && (c.DealerBust? <==> Bust(d))
            && (!Bust(d) ==> (c.DealerStands? <==> DealerStandsOn(rule.dealerHitOnSoft17, d)))
            && (c.DealerStands? ==> c.dealerSum == ActualSum(d))
  {
    IncValues(e, dealerUpCard);
    var d := Inc(e, dealerUpCard);
    assert IsSoft(d) <==> e[0] > 0 || dealerUpCard == 1;
  }

  /** As written, a drawn card that busts the hand adds only −0.5 times
      its probability p to the hit value: the child's best value is
      floored at the surrender value. */
  lemma AsWrittenBustDrawCountsHalf(s: seq<int>, h: seq<int>, card: int, m2: map<int, MaxExpectation>)
    requires IsCounts(s) && |h| == RANKS && 1 <= card <= 10 && s[card - 1] > 0
    requires Key(Inc(h, card)) in m2 && m2[Key(Inc(h, card))] == BUST_ENTRY
    requires Key(h) in m2 && m2[Key(h)].hit.Fin?
    ensures var r := HitUpdate(s, h, card, m2, false);
            r.Some? && r.value[Key(h)].hit == Fin(m2[Key(h)].hit.r + Share(s, card) * -0.5)
  {
  }

  /** With the corrected after-hit value the same card adds −1 times its
      probability: a busted hand loses the whole bet. */
  lemma IntendedBustDrawCountsWhole(s: seq<int>, h: seq<int>, card: int, m2: map<int, MaxExpectation>)
    requires IsCounts(s) && |h| == RANKS && 1 <= card <= 10 && s[card - 1] > 0
    requires Key(Inc(h, card)) in m2 && m2[Key(Inc(h, card))] == BUST_ENTRY
    requires Key(h) in m2 && m2[Key(h)].hit.Fin?
    ensures var r := HitUpdate(s, h, card, m2, true);
            r.Some? && r.value[Key(h)].hit == Fin(m2[Key(h)].hit.r + Share(s, card) * -1.0)
  {
  }

  /** As written the after-hit value never drops below −0.5 and may be a
      double; corrected it is the better of hitting again and standing. */
  lemma AfterHitValues(child: MaxExpectation)
    ensures AtMost(Fin(-0.5), AfterHit(child, false))
    ensures AfterHit(child, true) == child.hit || AfterHit(child, true) == child.stand
    ensures AtMost(child.hit, AfterHit(child, true)) && AtMost(child.stand, AfterHit(child, true))
    ensures AfterHit(BUST_ENTRY, false) == Fin(-0.5) && AfterHit(BUST_ENTRY, true) == Fin(-1.0)
  {
  }
}
