/**
 * The hard-coded basic strategy (blackjack/src/strategy.rs): three charts
 * indexed by the player's hand and the dealer's up card, each entry a
 * primary decision and the fallback used when the rules forbid it.
 */
module Strategy {
  import opened HandValue
  import opened Rules
  import opened Wrappers
  import StateArray

  /** A chart entry: the preferred decision and its fallback. */
  datatype Entry = Entry(primary: Decision, fallback: Decision)

  const H: Entry := Entry(Hit, Decision.PlaceHolder)
  const S: Entry := Entry(Stand, Decision.PlaceHolder)
  const P: Entry := Entry(Split, Decision.PlaceHolder)
  const DH: Entry := Entry(Double, Hit)
  const DS: Entry := Entry(Double, Stand)
  const RH: Entry := Entry(Surrender, Hit)
  const RS: Entry := Entry(Surrender, Stand)
  const RP: Entry := Entry(Surrender, Split)

  /** Rows: hard 5 (and less), 6, ..., 17, 18 and more. */
  const HARD_CHARTS: seq<seq<Entry>> := [
    [H, H, H, H, H, H, H, H, H, H],
    [H, H, H, H, H, H, H, H, H, H],
    [H, H, H, H, H, H, H, H, H, H],
    [H, H, H, H, H, H, H, H, H, H],
    [H, H, DH, DH, DH, DH, H, H, H, H],
    [H, DH, DH, DH, DH, DH, DH, DH, DH, H],
    [DH, DH, DH, DH, DH, DH, DH, DH, DH, DH],
    [H, H, H, S, S, S, H, H, H, H],
    [H, S, S, S, S, S, H, H, H, H],
    [H, S, S, S, S, S, H, H, H, H],
    [RH, S, S, S, S, S, H, H, H, RH],
    [RH, S, S, S, S, S, H, H, RH, RH],
    [RS, S, S, S, S, S, S, S, S, S],
    [S, S, S, S, S, S, S, S, S, S]
  ]

  /** Rows: an ace and 2, an ace and 3, ..., an ace and 10. */
  const SOFT_CHARTS: seq<seq<Entry>> := [
    [H, H, H, H, DH, DH, H, H, H, H],
    [H, H, H, H, DH, DH, H, H, H, H],
    [H, H, H, DH, DH, DH, H, H, H, H],
    [H, H, H, DH, DH, DH, H, H, H, H],
    [H, H, DH, DH, DH, DH, H, H, H, H],
    [H, DS, DS, DS, DS, DS, S, S, H, H],
    [S, S, S, S, S, DS, S, S, S, S],
    [S, S, S, S, S, S, S, S, S, S],
    [S, S, S, S, S, S, S, S, S, S]
  ]

  /** Rows: a pair of aces, of 2s, ..., of tens. */
  const PAIR_CHARTS: seq<seq<Entry>> := [
    [P, P, P, P, P, P, P, P, P, P],
    [H, P, P, P, P, P, P, H, H, H],
    [H, P, P, P, P, P, P, H, H, H],
    [H, H, H, H, P, P, H, H, H, H],
    [H, DH, DH, DH, DH, DH, DH, DH, DH, H],
    [H, P, P, P, P, P, H, H, H, H],
    [H, P, P, P, P, P, P, H, H, H],
    [RP, P, P, P, P, P, P, P, P, P],
    [S, P, P, P, P, P, S, P, P, S],
    [S, S, S, S, S, S, S, S, S, S]
  ]

  /** An entry that can always be played: its primary is a real decision,
      and a primary the rules may forbid has a real fallback. */
  predicate EntryResolves(e: Entry)
  {
    e.primary != Decision.PlaceHolder
    && (e.primary == Double || e.primary == Surrender ==> e.fallback != Decision.PlaceHolder)
  }

  /** Every entry of each chart can be played. */
  lemma HardChartResolves(i: int, j: int)
    requires 0 <= i < 14 && 0 <= j < 10
    ensures |HARD_CHARTS| == 14 && |HARD_CHARTS[i]| == 10 && EntryResolves(HARD_CHARTS[i][j])
  {
  }

  lemma SoftChartResolves(i: int, j: int)
    requires 0 <= i < 9 && 0 <= j < 10
    ensures |SOFT_CHARTS| == 9 && |SOFT_CHARTS[i]| == 10 && EntryResolves(SOFT_CHARTS[i][j])
  {
  }

  lemma PairChartResolves(i: int, j: int)
    requires 0 <= i < 10 && 0 <= j < 10
    ensures |PAIR_CHARTS| == 10 && |PAIR_CHARTS[i]| == 10 && EntryResolves(PAIR_CHARTS[i][j])
  {
  }

  /** A two-card hand of two equal cards. */
  predicate IsPair(hand: seq<int>)
    requires IsCounts(hand)
  {
    Total(hand) == 2 && hand[PairRank(hand) - 1] == 2
  }

  /** The value of each card of a two-card hand read as a pair: half the
      hard sum. */
  function PairRank(hand: seq<int>): (r: int)
    requires IsCounts(hand)
    ensures Total(hand) == 2 ==> 1 <= r <= 10
  {
    if Total(hand) == 2 then TwoCardSum(hand); HardSum(hand) / 2 else 1
  }

  lemma TwoCardSum(hand: seq<int>)
    requires IsCounts(hand) && Total(hand) == 2
    ensures 2 <= HardSum(hand) <= 20
  {
    TotalTen(hand);
    HardSumTen(hand);
  }

  /** A hand played as soft: an ace counted as 11 does not bust it. */
  predicate PlayedSoft(hand: seq<int>)
    requires IsCounts(hand)
  {
    IsSoft(hand) && HardSum(hand) + 10 <= 21
  }

  /** `hard_charts` row: hard 5 or less, 6..17, 18 or more. */
  function HardRow(sum: int): (row: int)
    ensures 0 <= row < 14
    ensures sum <= 5 ==> row == 0
    ensures sum >= 18 ==> row == 13
    ensures 5 < sum < 18 ==> row + 5 == sum
  {
    if sum <= 5 then 0 else if sum >= 18 then 13 else sum - 5
  }

  /**
   * The soft and hard branches of `make_decision`: a soft hand holding a ten
   * stands; any other soft hand reads the row of its other card (the hard
   * sum minus the ace), which underflows in 8 bits, a panic, for a lone ace.
   */
  function NonPairEntry(hand: seq<int>, col: int): (r: Option<Entry>)
    requires IsCounts(hand) && 0 <= col < 10
    ensures PlayedSoft(hand) && hand[9] == 1 ==> r == Some(S)
    ensures !PlayedSoft(hand) ==> r == Some(HARD_CHARTS[HardRow(HardSum(hand))][col])
    ensures r == None <==> PlayedSoft(hand) && hand[9] != 1 && HardSum(hand) < 3
  {
    if PlayedSoft(hand) then
      if hand[9] == 1 then Some(S)
      else if HardSum(hand) - 1 < 2 then None
      else
        SoftChartResolves(HardSum(hand) - 3, col);
        Some(SOFT_CHARTS[HardSum(hand) - 3][col])
    else
      HardChartResolves(HardRow(HardSum(hand)), col);
      Some(HARD_CHARTS[HardRow(HardSum(hand))][col])
  }

  /**
   * The chart entry `make_decision` selects, as written: a pair of value r
   * reads `pair_charts[r]`, one row too far (the row of the next pair, and
   * past the end of the table for a pair of tens). None is a panic: an up
   * card outside 1..10 (the column is computed in 8 bits) or an index out of
   * bounds.
   */
  function ChartEntryAsWritten(hand: seq<int>, upCard: int): (r: Option<Entry>)
    requires IsCounts(hand)
  {
    if !(1 <= upCard <= 10) then None
    else if IsPair(hand) then
      PairChartResolves(0, 0);
      if PairRank(hand) < |PAIR_CHARTS| then Some(PAIR_CHARTS[PairRank(hand)][upCard - 1]) else None
    else NonPairEntry(hand, upCard - 1)
  }

  /** The chart entry with the pair of value r read from row r - 1. */
  function ChartEntry(hand: seq<int>, upCard: int): (r: Option<Entry>)
    requires IsCounts(hand)
    ensures r.Some? ==> 1 <= upCard <= 10
    ensures 1 <= upCard <= 10 && IsPair(hand) ==> r == Some(PAIR_CHARTS[PairRank(hand) - 1][upCard - 1])
    ensures 1 <= upCard <= 10 && !IsPair(hand) ==> r == NonPairEntry(hand, upCard - 1)
  {
    if !(1 <= upCard <= 10) then None
    else if IsPair(hand) then
      PairChartResolves(PairRank(hand) - 1, upCard - 1);
      Some(PAIR_CHARTS[PairRank(hand) - 1][upCard - 1])
    else NonPairEntry(hand, upCard - 1)
  }

  /** The rules' say over an entry: a Double after a split needs DAS, a
      Surrender needs late surrender; otherwise the fallback is played. */
  function Apply(e: Entry, rule: Rule, splitAllTimes: int): (d: Decision)
    ensures d == Double ==> (e.primary == Double && (splitAllTimes == 0 || rule.allowDas)) || e.fallback == Double
    ensures d == Surrender ==> (e.primary == Surrender && rule.allowLateSurrender) || e.fallback == Surrender
    ensures e.primary != Double && e.primary != Surrender ==> d == e.primary
    ensures e.primary == Double && (splitAllTimes == 0 || rule.allowDas) ==> d == Double
    ensures e.primary == Surrender && rule.allowLateSurrender ==> d == Surrender
    ensures e.primary == Double && !(splitAllTimes == 0 || rule.allowDas) ==> d == e.fallback
    ensures e.primary == Surrender && !rule.allowLateSurrender ==> d == e.fallback
  {
    match e.primary
    case Double => if splitAllTimes == 0 || rule.allowDas then Double else e.fallback
    case Surrender => if rule.allowLateSurrender then Surrender else e.fallback
    case _ => e.primary
  }

  /** `make_decision` with the pair row corrected; None is a panic. */
  function Decide(rule: Rule, hand: seq<int>, upCard: int, splitAllTimes: int): Option<Decision>
    requires IsCounts(hand)
  {
    match ChartEntry(hand, upCard)
    case None => None
    case Some(e) => Some(Apply(e, rule, splitAllTimes))
  }

  /** `make_decision` as written. */
  function DecideAsWritten(rule: Rule, hand: seq<int>, upCard: int, splitAllTimes: int): Option<Decision>
    requires IsCounts(hand)
  {
    match ChartEntryAsWritten(hand, upCard)
    case None => None
    case Some(e) => Some(Apply(e, rule, splitAllTimes))
  }

  // ---------------------------------------------------------------------
  // Facts
  // ---------------------------------------------------------------------

  /** For a hand of at least two cards and an up card in 1..10, the
      corrected decision exists and is never the placeholder. */
  lemma DecisionResolves(rule: Rule, hand: seq<int>, upCard: int, splitAllTimes: int)
    requires IsCounts(hand) && Total(hand) >= 2 && 1 <= upCard <= 10
    ensures Decide(rule, hand, upCard, splitAllTimes).Some?
    ensures Decide(rule, hand, upCard, splitAllTimes).value != Decision.PlaceHolder
  {
    EntryExists(hand, upCard);
  }

  /** For such hands the chart entry exists and can be played. */
  lemma EntryExists(hand: seq<int>, upCard: int)
    requires IsCounts(hand) && Total(hand) >= 2 && 1 <= upCard <= 10
    ensures ChartEntry(hand, upCard).Some? && EntryResolves(ChartEntry(hand, upCard).value)
  {
    if IsPair(hand) {
      PairChartResolves(PairRank(hand) - 1, upCard - 1);
    } else if PlayedSoft(hand) {
      if hand[9] != 1 {
        SoftSumAtLeastThree(hand);
        SoftChartResolves(HardSum(hand) - 3, upCard - 1);
      }
    } else {
      HardChartResolves(HardRow(HardSum(hand)), upCard - 1);
    }
  }

  /** A soft hand of two or more cards that is not a pair of aces has a
      hard sum of at least 3. */
  lemma SoftSumAtLeastThree(hand: seq<int>)
    requires IsCounts(hand) && Total(hand) >= 2 && IsSoft(hand) && !IsPair(hand)
    ensures HardSum(hand) >= 3
  {
    TotalTen(hand);
    HardSumTen(hand);
  }

  /** Double is only played where the no-split-or-DAS rule allows it, and
      Surrender only under late surrender. */
  lemma RulesRespected(rule: Rule, hand: seq<int>, upCard: int, splitAllTimes: int)
    requires IsCounts(hand)
    ensures Decide(rule, hand, upCard, splitAllTimes) == Some(Double) ==> splitAllTimes == 0 || rule.allowDas
    ensures Decide(rule, hand, upCard, splitAllTimes) == Some(Surrender) ==> rule.allowLateSurrender
  {
    var entry := ChartEntry(hand, upCard);
    if entry.Some? {
      NoFallbackDoubles(entry.value, hand, upCard);
    }
  }

  /** No chart entry falls back to Double or Surrender. */
  lemma NoFallbackDoubles(e: Entry, hand: seq<int>, upCard: int)
    requires IsCounts(hand) && ChartEntry(hand, upCard) == Some(e)
    ensures e.fallback != Double && e.fallback != Surrender
  {
    if IsPair(hand) {
      PairFallbacks(PairRank(hand) - 1, upCard - 1);
    } else if !PlayedSoft(hand) {
      HardFallbacks(HardRow(HardSum(hand)), upCard - 1);
    } else if hand[9] != 1 {
      SoftFallbacks(HardSum(hand) - 3, upCard - 1);
    }
  }

  lemma PairFallbacks(i: int, j: int)
    requires 0 <= i < 10 && 0 <= j < 10
    ensures PAIR_CHARTS[i][j].fallback != Double && PAIR_CHARTS[i][j].fallback != Surrender
  {
  }

  lemma HardFallbacks(i: int, j: int)
    requires 0 <= i < 14 && 0 <= j < 10
    ensures HARD_CHARTS[i][j].fallback != Double && HARD_CHARTS[i][j].fallback != Surrender
  {
  }

  lemma SoftFallbacks(i: int, j: int)
    requires 0 <= i < 9 && 0 <= j < 10
    ensures SOFT_CHARTS[i][j].fallback != Double && SOFT_CHARTS[i][j].fallback != Surrender
  {
  }

  /** `make_decision` as written, for a hand of at least two cards and an
      up card in 1..10: it panics exactly on a pair of tens, and otherwise
      returns a real decision, never the placeholder. */
  lemma DecisionAsWrittenResolves(rule: Rule, hand: seq<int>, upCard: int, splitAllTimes: int)
    requires IsCounts(hand) && Total(hand) >= 2 && 1 <= upCard <= 10
    ensures DecideAsWritten(rule, hand, upCard, splitAllTimes).None? <==> IsPair(hand) && PairRank(hand) == 10
    ensures DecideAsWritten(rule, hand, upCard, splitAllTimes).Some?
            ==> DecideAsWritten(rule, hand, upCard, splitAllTimes).value != Decision.PlaceHolder
  {
    if IsPair(hand) {
      if PairRank(hand) < 10 {
        PairChartResolves(PairRank(hand), upCard - 1);
      }
    } else {
      EntryExists(hand, upCard);
    }
  }

  /** `make_decision` as written keeps the rules too: Double only with no
      split or with DAS, Surrender only under late surrender. */
  lemma RulesRespectedAsWritten(rule: Rule, hand: seq<int>, upCard: int, splitAllTimes: int)
    requires IsCounts(hand)
    ensures DecideAsWritten(rule, hand, upCard, splitAllTimes) == Some(Double) ==> splitAllTimes == 0 || rule.allowDas
    ensures DecideAsWritten(rule, hand, upCard, splitAllTimes) == Some(Surrender) ==> rule.allowLateSurrender
  {
    if 1 <= upCard <= 10 {
      if IsPair(hand) {
        if PairRank(hand) < 10 {
          PairFallbacks(PairRank(hand), upCard - 1);
        }
      } else {
        var entry := ChartEntry(hand, upCard);
        if entry.Some? {
          NoFallbackDoubles(entry.value, hand, upCard);
        }
      }
    }
  }

  /** The pair row as written: a pair of tens indexes past the ten-row pair
      chart, so `make_decision` panics. */
  lemma PairOfTensPanics(rule: Rule, upCard: int, splitAllTimes: int)
    requires 1 <= upCard <= 10
    ensures DecideAsWritten(rule, [0, 0, 0, 0, 0, 0, 0, 0, 0, 2], upCard, splitAllTimes) == None
    ensures Decide(rule, [0, 0, 0, 0, 0, 0, 0, 0, 0, 2], upCard, splitAllTimes) == Some(Stand)
  {
    var tens := [0, 0, 0, 0, 0, 0, 0, 0, 0, 2];
    TotalTen(tens);
    HardSumTen(tens);
  }

  /** The pair row as written: a pair of aces against an up ace reads the
      "pair of 2s" row and hits, where the aces row splits. */
  lemma PairOfAcesReadsNextRow(rule: Rule, splitAllTimes: int)
    ensures DecideAsWritten(rule, [2, 0, 0, 0, 0, 0, 0, 0, 0, 0], 1, splitAllTimes) == Some(Hit)
    ensures Decide(rule, [2, 0, 0, 0, 0, 0, 0, 0, 0, 0], 1, splitAllTimes) == Some(Split)
  {
    var aces := [2, 0, 0, 0, 0, 0, 0, 0, 0, 0];
    TotalTen(aces);
    HardSumTen(aces);
  }

  /**
   * The strategy object: it remembers the up card of the round it was
   * initialised with. The charts are the constants above in every instance.
   */
  class BasicStrategy {
    var dealerUpCard: int

    constructor (rule: Rule)
      ensures dealerUpCard == 0
    {
      dealerUpCard := 0;
    }

    /** `calculate_expectation_before_bet`: a fixed estimate. */
    function CalculateExpectationBeforeBet(rule: Rule, shoe: seq<int>): (e: real)
      ensures e == -0.006
    {
      -0.006
    }

    /** `should_buy_insurance`: basic strategy never insures. */
    function ShouldBuyInsurance(rule: Rule, situation: InitialSituation): (b: bool)
      ensures !b
    {
      false
    }

    method InitWithInitialSituation(rule: Rule, situation: InitialSituation)
      modifies this
      ensures dealerUpCard == situation.dealerUpCard
    {
      dealerUpCard := situation.dealerUpCard;
    }

    /** `make_decision` as written; None is a panic. */
    method MakeDecision(rule: Rule, currentHand: StateArray.CardCount, splitAllTimes: int, splitAceTimes: int)
      returns (d: Option<Decision>)
      requires currentHand.Valid()
      ensures d == DecideAsWritten(rule, currentHand.Counts(), dealerUpCard, splitAllTimes)
    {
      d := DecideAsWritten(rule, currentHand.counts[..], dealerUpCard, splitAllTimes);
    }
  }
}
