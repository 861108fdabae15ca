/**
 * The betting phase and the expectations of one initial situation
 * (blackjack/src/calculation.rs): the 55 slots of the two-card hands, the
 * enumeration of every dealer up card and player hand out of a shoe with
 * its combinatorial weights, and the double, insurance and summary values
 * of `calculate_expectations`.
 *
 * The dealer's side of standing is the parameter `odds`, as in StandHitEx.
 * The thread count is taken as already resolved: `get_number_of_threads`
 * asks the operating system for its parallelism when given 0.
 */
module Betting {
  import opened Wrappers
  import opened ExtReals
  import opened HandValue
  import opened StateArray
  import opened Rules
  import opened CardProbability
  import opened Expectations
  import opened StandHitEx
  import StandHitPasses

  // ---------------------------------------------------------------------
  // The 55 slots of the two-card hands
  // ---------------------------------------------------------------------

  /** `PREFIX_SUM`: slot i holds 0 + 1 + ... + i. */
  const PREFIX_SUM: seq<int> := [0, 1, 3, 6, 10, 15, 21, 28, 36, 45]

  /** The closed form of the table: twice entry i is i(i + 1). */
  lemma PrefixSumIsTriangular()
    ensures |PREFIX_SUM| == 10
    ensures forall i :: 0 <= i < 10 ==> 2 * PREFIX_SUM[i] == i * (i + 1)
  {
  }

  /** `get_prefix_sum`: each entry adds its index to the one before. */
  method GetPrefixSum() returns (a: array<int>)
    ensures fresh(a) && a.Length == 10 && a[..] == PREFIX_SUM
    ensures forall i :: 0 <= i < 10 ==> 2 * a[i] == i * (i + 1)
  {
    a := new int[10](_ => 0);
    var i := 1;
    while i < a.Length
      invariant 1 <= i <= 10
      invariant forall k :: 0 <= k < i ==> a[k] == PREFIX_SUM[k]
    {
      a[i] := a[i - 1] + i;
      i := i + 1;
    }
    PrefixSumIsTriangular();
  }

  /** The slot of the hand (first, second) with first >= second, for the
      up card's row of the table. */
  function Idx55(first: int, second: int): (k: int)
    requires 1 <= second <= first <= 10
    ensures 0 <= k < 55
    ensures PREFIX_SUM[first - 1] <= k < PREFIX_SUM[first - 1] + first
  {
    PREFIX_SUM[first - 1] + second - 1
  }

  /** The hand stored in slot k: the larger card is the row of the
      triangle k falls in, the smaller one the position in that row. */
  function SlotHand(k: int): (int, int)
    requires 0 <= k < 55
  {
    var a := if k < 1 then 1 else if k < 3 then 2 else if k < 6 then 3 else if k < 10 then 4
             else if k < 15 then 5 else if k < 21 then 6 else if k < 28 then 7 else if k < 36 then 8
             else if k < 45 then 9 else 10;
    (a, k - PREFIX_SUM[a - 1] + 1)
  }

  /**
   * The slots are a bijection between the 55 hands (first, second) with
   * 1 <= second <= first <= 10 and the indexes 0..54: SlotHand undoes
   * Idx55 and every index is the slot of the hand SlotHand names.
   */
  lemma SlotsAreABijection()
    ensures forall a, b :: 1 <= b <= a <= 10 ==> SlotHand(Idx55(a, b)) == (a, b)
    ensures forall k :: 0 <= k < 55 ==> var p := SlotHand(k); 1 <= p.1 <= p.0 <= 10 && Idx55(p.0, p.1) == k
  {
    forall a, b | 1 <= b <= a <= 10
      ensures SlotHand(Idx55(a, b)) == (a, b)
    {
      SlotRow(a, Idx55(a, b));
    }
    forall k | 0 <= k < 55
      ensures var p := SlotHand(k); 1 <= p.1 <= p.0 <= 10 && Idx55(p.0, p.1) == k
    {
    }
  }

  /** An index in row a of the triangle is read back as row a. */
  lemma SlotRow(a: int, k: int)
    requires 1 <= a <= 10 && PREFIX_SUM[a - 1] <= k < PREFIX_SUM[a - 1] + a
    ensures SlotHand(k).0 == a
  {
  }

  /** Two hands share a slot only if they are the same hand. */
  lemma SlotsDiffer(a: int, b: int, c: int, d: int)
    requires 1 <= b <= a <= 10 && 1 <= d <= c <= 10
    ensures Idx55(a, b) == Idx55(c, d) <==> a == c && b == d
  {
    SlotsAreABijection();
  }

  /** The two cards with the larger one first. */
  function Ordered(hand: (int, int)): (int, int)
  {
    if hand.0 < hand.1 then (hand.1, hand.0) else hand
  }

  predicate CardsInRange(hand: (int, int), dealerUpCard: int)
  {
    1 <= hand.0 <= 10 && 1 <= hand.1 <= 10 && 1 <= dealerUpCard <= 10
  }

  /** The cell `get_solution_for_initial_situation_aux` reads: the up
      card's row and the slot of the ordered hand. */
  function LookupCell(hand: (int, int), dealerUpCard: int): (int, int)
    requires CardsInRange(hand, dealerUpCard)
  {
    var (a, b) := Ordered(hand);
    (dealerUpCard - 1, Idx55(a, b))
  }

  /**
   * The lookup is symmetric in the two cards and finds the cell the
   * enumeration writes for the hand (first, second), first >= second.
   */
  lemma LookupIsSymmetric(x: int, y: int, dealerUpCard: int)
    requires CardsInRange((x, y), dealerUpCard)
    ensures LookupCell((x, y), dealerUpCard) == LookupCell((y, x), dealerUpCard)
    ensures x >= y ==> LookupCell((x, y), dealerUpCard) == (dealerUpCard - 1, Idx55(x, y))
    ensures x < y ==> LookupCell((x, y), dealerUpCard) == (dealerUpCard - 1, Idx55(y, x))
  {
  }

  // ---------------------------------------------------------------------
  // Weights of the enumeration
  // ---------------------------------------------------------------------

  /**
   * The number of ordered deals giving up card d, then the player's cards
   * f and s (f >= s), from counts c: each of the three counts is read after
   * the cards before it are taken out, and two different player cards can
   * arrive in either order.
   */
  function Combs(c: seq<int>, d: int, f: int, s: int): int
    requires |c| == RANKS && 1 <= d <= 10 && 1 <= f <= 10 && 1 <= s <= 10
  {
    var c1 := Dec(c, d);
    var c2 := Dec(c1, f);
    c[d - 1] * c1[f - 1] * c2[s - 1] * (if s != f then 2 else 1)
  }

  /** `total_combs`: N(N - 1)(N - 2) for the N = 52 · decks cards of the
      rule's shoe. */
  function TotalCombs(rule: Rule): int
  {
    var n := 52 * rule.numberOfDecks;
    n * (n - 1) * (n - 2)
  }

  /** c[0] + ... + c[k - 1]. */
  function PrefixTotal(c: seq<int>, k: int): int
    requires 0 <= k <= |c|
  {
    if k == 0 then 0 else PrefixTotal(c, k - 1) + c[k - 1]
  }

  lemma PrefixTotalIsTotal(c: seq<int>)
    requires |c| == RANKS
    ensures PrefixTotal(c, RANKS) == Total(c)
  {
    TotalTen(c);
    assert PrefixTotal(c, 1) == c[0];
    assert PrefixTotal(c, 2) == PrefixTotal(c, 1) + c[1];
    assert PrefixTotal(c, 3) == PrefixTotal(c, 2) + c[2];
    assert PrefixTotal(c, 4) == PrefixTotal(c, 3) + c[3];
    assert PrefixTotal(c, 5) == PrefixTotal(c, 4) + c[4];
    assert PrefixTotal(c, 6) == PrefixTotal(c, 5) + c[5];
    assert PrefixTotal(c, 7) == PrefixTotal(c, 6) + c[6];
    assert PrefixTotal(c, 8) == PrefixTotal(c, 7) + c[7];
    assert PrefixTotal(c, 9) == PrefixTotal(c, 8) + c[8];
    assert PrefixTotal(c, 10) == PrefixTotal(c, 9) + c[9];
  }

  /** The weights of second cards 1..s for up card d and first card f, as
      the enumeration visits them (absent cards are skipped). */
  function SecondWeights(c: seq<int>, d: int, f: int, s: int): int
    requires |c| == RANKS && 1 <= d <= 10 && 1 <= f <= 10 && 0 <= s <= f
  {
    if s == 0 then 0
    else SecondWeights(c, d, f, s - 1) + (if Dec(Dec(c, d), f)[s - 1] == 0 then 0 else Combs(c, d, f, s))
  }

  /** The weights of first cards 1..f for up card d. */
  function FirstWeights(c: seq<int>, d: int, f: int): int
    requires |c| == RANKS && 1 <= d <= 10 && 0 <= f <= 10
  {
    if f == 0 then 0
    else FirstWeights(c, d, f - 1) + (if Dec(c, d)[f - 1] == 0 then 0 else SecondWeights(c, d, f, f))
  }

  /** The weights of up cards 1..d. */
  function AllWeights(c: seq<int>, d: int): int
    requires |c| == RANKS && 0 <= d <= 10
  {
    if d == 0 then 0
    else AllWeights(c, d - 1) + (if c[d - 1] == 0 then 0 else FirstWeights(c, d, 10))
  }

  /** For a fixed up card and first card, the second cards below the first
      weigh twice their count, the second card equal to it its count less
      one, all times k, the product of the two counts before. */
  lemma {:induction false} SecondWeightsValue(c: seq<int>, d: int, f: int, s: int, k: int)
    requires IsCounts(c) && 1 <= d <= 10 && 1 <= f <= 10 && 0 <= s <= f
    requires k == c[d - 1] * Dec(c, d)[f - 1]
    ensures s < f ==> SecondWeights(c, d, f, s) == 2 * k * PrefixTotal(Dec(c, d), s)
    ensures s == f ==> SecondWeights(c, d, f, s) == k * (2 * PrefixTotal(Dec(c, d), f - 1) + Dec(c, d)[f - 1] - 1)
    decreases s
  {
    if s > 0 {
      SecondWeightsValue(c, d, f, s - 1, k);
      var u := Dec(c, d);
      var p := PrefixTotal(u, s - 1);
      var x := Dec(u, f)[s - 1];
      assert PrefixTotal(u, s) == p + u[s - 1];
      CombsFactor(c, d, f, s, k, x);
      if s < f {
        assert x == u[s - 1];
        StepBelow(k, p, x);
      } else {
        assert x == u[f - 1] - 1;
        StepAt(k, p, x);
      }
    }
  }

  lemma CombsFactor(c: seq<int>, d: int, f: int, s: int, k: int, x: int)
    requires |c| == RANKS && 1 <= d <= 10 && 1 <= f <= 10 && 1 <= s <= 10
    requires k == c[d - 1] * Dec(c, d)[f - 1] && x == Dec(Dec(c, d), f)[s - 1]
    ensures Combs(c, d, f, s) == k * x * (if s != f then 2 else 1)
  {
  }

  lemma StepBelow(k: int, p: int, x: int)
    ensures 2 * k * p + k * x * 2 == 2 * k * (p + x)
  {
  }

  lemma StepAt(k: int, p: int, x: int)
    ensures 2 * k * p + k * x * 1 == k * (2 * p + x)
  {
  }

  /** (p² - p) + u(2p + u - 1) == (p + u)² - (p + u). */
  lemma PairStep(p: int, u: int)
    ensures p * p - p + u * (2 * p + u - 1) == (p + u) * (p + u) - (p + u)
  {
  }

  /** For a fixed up card, the ordered pairs of player cards out of the
      first f values number P² - P, P being how many cards of those values
      are left. */
  lemma {:induction false} FirstWeightsValue(c: seq<int>, d: int, f: int)
    requires IsCounts(c) && 1 <= d <= 10 && 0 <= f <= 10
    ensures var p := PrefixTotal(Dec(c, d), f);
            FirstWeights(c, d, f) == c[d - 1] * (p * p - p)
    decreases f
  {
    if f > 0 {
      FirstWeightsValue(c, d, f - 1);
      var u := Dec(c, d);
      var p := PrefixTotal(u, f - 1);
      var y := u[f - 1];
      assert PrefixTotal(u, f) == p + y;
      if y != 0 {
        var n := c[d - 1];
        var k := n * y;
        SecondWeightsValue(c, d, f, f, k);
        FirstStep(n, y, p, k);
      }
    }
  }

  /** One first card more: n(p² - p) + ny(2p + y - 1) == n((p + y)² - (p + y)). */
  lemma FirstStep(n: int, y: int, p: int, k: int)
    requires k == n * y
    ensures n * (p * p - p) + k * (2 * p + y - 1) == n * ((p + y) * (p + y) - (p + y))
  {
    PairStep(p, y);
    assert k * (2 * p + y - 1) == n * (y * (2 * p + y - 1));
  }

  lemma UpStep(q: int, n: int, w: int)
    ensures q * w + n * w == (q + n) * w
  {
  }

  /** Up cards 1..d weigh (T - 1)² - (T - 1) each, T being the number of
      cards in the shoe. */
  lemma {:induction false} AllWeightsValue(c: seq<int>, d: int)
    requires IsCounts(c) && 0 <= d <= 10
    ensures var t := Total(c) - 1;
            AllWeights(c, d) == PrefixTotal(c, d) * (t * t - t)
    decreases d
  {
    if d > 0 {
      AllWeightsValue(c, d - 1);
      var t := Total(c) - 1;
      var w := t * t - t;
      var n := c[d - 1];
      var q := PrefixTotal(c, d - 1);
      assert PrefixTotal(c, d) == q + n;
      if n != 0 {
        FirstWeightsValue(c, d, 10);
        PrefixTotalIsTotal(Dec(c, d));
        DecValues(c, d);
        assert PrefixTotal(Dec(c, d), 10) == t;
        assert FirstWeights(c, d, 10) == n * w;
      }
      UpStep(q, n, w);
    }
  }

  /**
   * The weights the enumeration gives its situations add up to the number
   * of ordered three-card deals T(T - 1)(T - 2), which is `total_combs`
   * for a full shoe of the rule's decks: the probabilities p = combs /
   * total_combs form a distribution.
   */
  lemma WeightsSumToTotalCombs(c: seq<int>)
    requires IsCounts(c)
    ensures var t := Total(c);
            AllWeights(c, 10) == t * (t - 1) * (t - 2)
    ensures forall rule: Rule :: rule.numberOfDecks >= 0 && c == DeckCounts(rule.numberOfDecks)
                                 ==> AllWeights(c, 10) == TotalCombs(rule)
  {
    AllWeightsValue(c, 10);
    PrefixTotalIsTotal(c);
    var t := Total(c);
    assert t * ((t - 1) * (t - 1) - (t - 1)) == t * (t - 1) * (t - 2);
    forall rule: Rule | rule.numberOfDecks >= 0 && c == DeckCounts(rule.numberOfDecks)
      ensures AllWeights(c, 10) == TotalCombs(rule)
    {
      DeckCountsValues(rule.numberOfDecks);
    }
  }

  // ---------------------------------------------------------------------
  // The expectations of one initial situation
  // ---------------------------------------------------------------------

  /** The values `calculate_expectations` returns beside the two tables. */
  datatype ExsOtherDecisions = ExsOtherDecisions(exDouble: ExtReal, exSplitResult: ExtReal,
                                                 exExtraInsurance: real, exSummary: ExtReal)

  /** `ExsOtherDecisions::default()`: every field 0. */
  const DEFAULT_OTHERS: ExsOtherDecisions := ExsOtherDecisions(Fin(0.0), Fin(0.0), 0.0, Fin(0.0))

  /** The player's two cards as a count vector. */
  function InitialHand(hand: (int, int)): (h: seq<int>)
    requires 1 <= hand.0 <= 10 && 1 <= hand.1 <= 10
    ensures IsCounts(h) && Total(h) == 2 && HardSum(h) == hand.0 + hand.1
  {
    IncValues(EMPTY, hand.0);
    IncValues(Inc(EMPTY, hand.0), hand.1);
    TotalTen(EMPTY);
    HardSumTen(EMPTY);
    Inc(Inc(EMPTY, hand.0), hand.1)
  }

  /** The stand and hit table after the sequential recursion (one thread)
      or the passes of the multi-threaded variant. */
  function StandHitTable(threads: nat, rule: Rule, hole: int, odds: (seq<int>, seq<int>) -> WinLose,
                         s: seq<int>, h: seq<int>, m: map<int, ExpectationStandHit>)
    : Option<map<int, ExpectationStandHit>>
    requires IsCounts(s) && IsCounts(h) && IsHoleExclusion(hole)
  {
    if threads <= 1 then StandHit(rule, hole, odds, s, h, m)
    else StandHitPasses.StandHitPasses(threads, rule, hole, odds,
                                       StandHitPasses.Gathered(m.Keys, rule.charlieNumber, h, s), m)
  }

  /** What `get_card_probability` gives for each rank 1..10 of the shoe
      (entry r - 1 for rank r). */
  function DrawProbabilities(s: seq<int>, hole: int): (ps: seq<real>)
    requires IsCounts(s) && IsHoleExclusion(hole)
    ensures |ps| == RANKS
  {
    seq(RANKS, k requires 0 <= k < RANKS => GetCardProbabilityCopy(s, hole, k + 1))
  }

  /** The double loop over ranks i..10: each rank left in the shoe adds its
      probability ps[i - 1] times the stand value of the hand with that card;
      None is the panic of reading a missing entry. */
  function DoubleAcc(t: map<int, ExpectationStandHit>, ps: seq<real>, s: seq<int>, h: seq<int>, i: int,
                     acc: ExtReal): Option<ExtReal>
    requires IsCounts(s) && IsCounts(h) && |ps| == RANKS && 1 <= i <= 11
    decreases 11 - i
  {
    if i > 10 then Some(acc)
    else if s[i - 1] == 0 then DoubleAcc(t, ps, s, h, i + 1, acc)
    else if Key(Inc(h, i)) !in t then None
    else DoubleAcc(t, ps, s, h, i + 1, Add(acc, Scale(ps[i - 1], t[Key(Inc(h, i))].stand)))
  }

  /** `ex_double`: minus infinity for a natural, else twice the loop's sum. */
  function ExDouble(t: map<int, ExpectationStandHit>, hole: int, s: seq<int>, h: seq<int>): Option<ExtReal>
    requires IsCounts(s) && IsCounts(h) && IsHoleExclusion(hole)
  {
    if IsNatural(h) then Some(NegInf)
    else
      match DoubleAcc(t, DrawProbabilities(s, hole), s, h, 1, Fin(0.0))
      case None => None
      case Some(x) => Some(Scale(2.0, x))
  }

  /** `p_early_end`: the probability that the peeked hole card ends the
      round, 0 when no rank is ruled out. */
  function PEarlyEnd(s: seq<int>, hole: int): real
    requires IsCounts(s) && IsHoleExclusion(hole)
  {
    if hole == 0 then 0.0 else GetCardProbabilityCopy(s, 0, hole)
  }

  /** `ex_extra_insurance`: the side bet pays the insurance payout with
      probability p and is lost otherwise. */
  function InsuranceValue(rule: Rule, p: real): real
  {
    p * rule.payoutInsurance - (1.0 - p)
  }

  /** `ex_no_early_end`: the best decision's value, replaced by the double's
      and then the split's when strictly larger. */
  function NoEarlyEnd(best: ExtReal, exDouble: ExtReal, exSplit: ExtReal): ExtReal
  {
    var ex := if Less(best, exDouble) then exDouble else best;
    if Less(ex, exSplit) then exSplit else ex
  }

  /** `ex_summary`: the round ends at the peek with probability p (a push
      for a natural, a lost bet otherwise) and goes on otherwise; half the
      insurance value is added when it is positive. */
  function Summary(rule: Rule, natural: bool, p: real, noEarly: ExtReal): ExtReal
  {
    var early := if natural then 0.0 else -1.0;
    var base := Add(Fin(p * early), Scale(1.0 - p, noEarly));
    var insurance := InsuranceValue(rule, p);
    if insurance > 0.0 then Add(base, Fin(insurance * 0.5)) else base
  }

  /**
   * The values `calculate_expectations` derives from the filled table t of
   * hand h out of shoe s; None is a panic on a missing entry.
   */
  function OthersOf(rule: Rule, t: map<int, ExpectationStandHit>, hole: int, s: seq<int>, h: seq<int>)
    : Option<ExsOtherDecisions>
    requires IsCounts(s) && IsCounts(h) && IsHoleExclusion(hole)
  {
    match ExDouble(t, hole, s, h)
    case None => None
    case Some(exDouble) =>
      match MaxStandHitSurrender(t, h, rule)
      case None => None
      case Some(best) =>
        var p := PEarlyEnd(s, hole);
        var summary := Summary(rule, IsNatural(h), p, NoEarlyEnd(best.0, exDouble, NegInf));
        Some(ExsOtherDecisions(exDouble, NegInf, InsuranceValue(rule, p), summary))
  }

  /**
   * `calculate_expectations` for shoe s, hand and up card on stand and hit
   * table m: the table afterwards and the other values; None is a panic on
   * a missing entry.
   */
  function ExpectationsOf(threads: nat, rule: Rule, odds: (seq<int>, seq<int>) -> WinLose, s: seq<int>,
                          hand: (int, int), dealerUpCard: int, m: map<int, ExpectationStandHit>)
    : Option<(map<int, ExpectationStandHit>, ExsOtherDecisions)>
    requires IsCounts(s) && CardsInRange(hand, dealerUpCard)
  {
    var hole := GetImpossibleDealerHoleCard(rule, dealerUpCard);
    var h := InitialHand(hand);
    match StandHitTable(threads, rule, hole, odds, s, h, m)
    case None => None
    case Some(t) =>
      match OthersOf(rule, t, hole, s, h)
      case None => None
      case Some(ex) => Some((t, ex))
  }

  /**
   * What every result holds: split is never available, a natural cannot
   * double, and against a dealer who never peeks the insurance is worth -1
   * and the summary is the value of the best decision.
   */
  lemma ExpectationsFacts(threads: nat, rule: Rule, odds: (seq<int>, seq<int>) -> WinLose, s: seq<int>,
                          hand: (int, int), dealerUpCard: int, m: map<int, ExpectationStandHit>)
    requires IsCounts(s) && CardsInRange(hand, dealerUpCard)
    ensures var r := ExpectationsOf(threads, rule, odds, s, hand, dealerUpCard, m);
            r.Some? ==> var (t, ex) := r.value;
                        ex.exSplitResult == NegInf
                        && (IsNatural(InitialHand(hand)) ==> ex.exDouble == NegInf)
                        && (rule.peekPolicy == NoPeek ==>
                              ex.exExtraInsurance == -1.0
                              && MaxStandHitSurrender(t, InitialHand(hand), rule).Some?
                              && ex.exSummary == NoEarlyEnd(MaxStandHitSurrender(t, InitialHand(hand), rule).value.0,
                                                            ex.exDouble, NegInf))
  {
    var r := ExpectationsOf(threads, rule, odds, s, hand, dealerUpCard, m);
    if r.Some? {
      var hole := GetImpossibleDealerHoleCard(rule, dealerUpCard);
      var h := InitialHand(hand);
      var t := StandHitTable(threads, rule, hole, odds, s, h, m).value;
      var exDouble := ExDouble(t, hole, s, h).value;
      var best := MaxStandHitSurrender(t, h, rule).value;
      var p := PEarlyEnd(s, hole);
      assert OthersOf(rule, t, hole, s, h).Some?;
      assert r.value == (t, ExsOtherDecisions(exDouble, NegInf, InsuranceValue(rule, p),
                                              Summary(rule, IsNatural(h), p, NoEarlyEnd(best.0, exDouble, NegInf))));
      if rule.peekPolicy == NoPeek {
        assert hole == 0 && p == 0.0;
        NoPeekSummary(rule, IsNatural(h), NoEarlyEnd(best.0, exDouble, NegInf));
      }
    }
  }

  /** With no chance of an early end the summary is the value of playing on. */
  lemma NoPeekSummary(rule: Rule, natural: bool, noEarly: ExtReal)
    ensures InsuranceValue(rule, 0.0) == -1.0
    ensures Summary(rule, natural, 0.0, noEarly) == noEarly
  {
  }

  /** The hit loop from rank i on records the hand with each rank left in
      the shoe. */
  lemma {:induction false} HitLoopRecordsChildren(rule: Rule, hole: int, odds: (seq<int>, seq<int>) -> WinLose,
                                                  s: seq<int>, h: seq<int>, i: int, m: map<int, ExpectationStandHit>)
    requires IsCounts(s) && IsCounts(h) && IsHoleExclusion(hole) && 1 <= i <= 11 && Key(h) in m
    ensures var r := HitLoop(rule, hole, odds, s, h, i, m);
            r.Some? && forall j :: i <= j <= 10 && s[j - 1] > 0 ==> Key(Inc(h, j)) in r.value
    decreases 11 - i
  {
    HitLoopFacts(rule, hole, odds, s, h, i, m);
    if i <= 10 {
      if s[i - 1] == 0 {
        HitLoopRecordsChildren(rule, hole, odds, s, h, i + 1, m);
      } else {
        CountsBounds(s);
        DecValues(s, i);
        StandHitFacts(rule, hole, odds, Dec(s, i), Inc(h, i), m);
        var m2 := StandHit(rule, hole, odds, Dec(s, i), Inc(h, i), m).value;
        var best := MaxStandHitSurrender(m2, Inc(h, i), rule);
        assert best.Some?;
        var m3 := AddToHit(m2, Key(h), Scale(GetCardProbabilityCopy(s, hole, i), best.value.0));
        assert Key(h) in m3 && Key(Inc(h, i)) in m3;
        HitLoopFacts(rule, hole, odds, s, h, i + 1, m3);
        HitLoopRecordsChildren(rule, hole, odds, s, h, i + 1, m3);
      }
    }
  }

  /** The double loop does not panic when every hand it reads is there. */
  lemma {:induction false} DoubleAccDefined(t: map<int, ExpectationStandHit>, ps: seq<real>, s: seq<int>, h: seq<int>,
                                            i: int, acc: ExtReal)
    requires IsCounts(s) && IsCounts(h) && |ps| == RANKS && 1 <= i <= 11
    requires forall j :: i <= j <= 10 && s[j - 1] > 0 ==> Key(Inc(h, j)) in t
    ensures DoubleAcc(t, ps, s, h, i, acc).Some?
    decreases 11 - i
  {
    if i <= 10 {
      if s[i - 1] == 0 {
        DoubleAccDefined(t, ps, s, h, i + 1, acc);
      } else {
        DoubleAccDefined(t, ps, s, h, i + 1, Add(acc, Scale(ps[i - 1], t[Key(Inc(h, i))].stand)));
      }
    }
  }

  /**
   * `calculate_solution_with_initial_situation` on one thread never
   * panics when the Charlie number exceeds 2: it starts from empty tables,
   * so the recursion expands the two-card hand (which cannot bust and is 21
   * only as a natural) and records every hand the double loop reads.
   */
  lemma WithInitialSituationNeverPanics(threads: nat, rule: Rule, odds: (seq<int>, seq<int>) -> WinLose,
                                        s: seq<int>, hand: (int, int), dealerUpCard: int)
    requires IsCounts(s) && CardsInRange(hand, dealerUpCard) && threads <= 1 && rule.charlieNumber > 2
    ensures ExpectationsOf(threads, rule, odds, s, hand, dealerUpCard, map[]).Some?
  {
    var hole := GetImpossibleDealerHoleCard(rule, dealerUpCard);
    var h := InitialHand(hand);
    var m: map<int, ExpectationStandHit> := map[];
    StandHitFacts(rule, hole, odds, s, h, m);
    var t := StandHit(rule, hole, odds, s, h, m).value;
    assert !Bust(h);
    if !IsNatural(h) {
      NaturalOfTwentyOne(h, hand);
      var m1 := m[Key(h) := ExpectationStandHit(Fin(0.0), NegInf)];
      HitLoopRecordsChildren(rule, hole, odds, s, h, 1, m1);
      var m2 := HitLoop(rule, hole, odds, s, h, 1, m1).value;
      assert t == m2[Key(h) := Get(m2, Key(h)).(stand := StandValue(odds, h, s))];
      DoubleAccDefined(t, DrawProbabilities(s, hole), s, h, 1, Fin(0.0));
    }
  }

  /** Two cards make 21 only as an ace and a ten. */
  lemma NaturalOfTwentyOne(h: seq<int>, hand: (int, int))
    requires 1 <= hand.0 <= 10 && 1 <= hand.1 <= 10 && h == InitialHand(hand)
    ensures ActualSum(h) == 21 ==> IsNatural(h)
  {
    TotalTen(h);
  }

  /** The probability of drawing one of the ranks i..10 as the double loop
      weighs them: a rank no longer in the shoe weighs nothing. */
  function DrawMassFrom(ps: seq<real>, s: seq<int>, i: int): real
    requires |ps| == RANKS && |s| == RANKS && 1 <= i <= 11
    decreases 11 - i
  {
    if i > 10 then 0.0
    else (if s[i - 1] == 0 then 0.0 else ps[i - 1]) + DrawMassFrom(ps, s, i + 1)
  }

  /** What the double loop adds from rank i on when every hand it reads
      stands at v: each rank left in the shoe weighs its probability times v. */
  function UniformGain(ps: seq<real>, s: seq<int>, i: int, v: real): real
    requires |ps| == RANKS && |s| == RANKS && 1 <= i <= 11
    decreases 11 - i
  {
    if i > 10 then 0.0
    else (if s[i - 1] == 0 then 0.0 else Times(ps[i - 1], v)) + UniformGain(ps, s, i + 1, v)
  }

  /** A product kept as a term of its own, so that the sums above stay
      linear for the solver. */
  function Times(x: real, y: real): real
  {
    x * y
  }

  /** From rank i on, the loop adds the uniform gain when every hand it
      reads stands at v. */
  lemma {:induction false} DoubleAccUniform(t: map<int, ExpectationStandHit>, ps: seq<real>, s: seq<int>, h: seq<int>,
                                            i: int, a: real, v: real)
    requires IsCounts(s) && IsCounts(h) && |ps| == RANKS && 1 <= i <= 11
    requires forall j :: i <= j <= 10 && s[j - 1] > 0 ==> Key(Inc(h, j)) in t && t[Key(Inc(h, j))].stand == Fin(v)
    ensures DoubleAcc(t, ps, s, h, i, Fin(a)) == Some(Fin(a + UniformGain(ps, s, i, v)))
    decreases 11 - i
  {
    if i <= 10 {
      var g := if s[i - 1] == 0 then 0.0 else Times(ps[i - 1], v);
      if s[i - 1] != 0 {
        AddScaled(a, ps[i - 1], t[Key(Inc(h, i))].stand, v);
      }
      DoubleAccUniform(t, ps, s, h, i + 1, a + g, v);
    }
  }

  lemma AddScaled(a: real, p: real, x: ExtReal, v: real)
    requires x == Fin(v)
    ensures Add(Fin(a), Scale(p, x)) == Fin(a + Times(p, v))
  {
  }

  /** The uniform gain is v times the probability mass of ranks i..10. */
  lemma {:induction false} UniformGainIsScaledMass(ps: seq<real>, s: seq<int>, i: int, v: real)
    requires |ps| == RANKS && |s| == RANKS && 1 <= i <= 11
    ensures UniformGain(ps, s, i, v) == Times(v, DrawMassFrom(ps, s, i))
    decreases 11 - i
  {
    if i <= 10 {
      UniformGainIsScaledMass(ps, s, i + 1, v);
      var q := if s[i - 1] == 0 then 0.0 else ps[i - 1];
      MassStep(q, v, UniformGain(ps, s, i + 1, v), DrawMassFrom(ps, s, i + 1));
    }
  }

  lemma MassStep(q: real, v: real, gain: real, mass: real)
    requires gain == Times(v, mass)
    ensures Times(q, v) + gain == Times(v, q + mass)
  {
  }

  /** The masses the loop weighs are the draw probabilities of ranks
      i..10, which add up to the whole distribution from rank 1. */
  lemma {:induction false} DrawMassIsProbabilities(s: seq<int>, hole: int, i: int)
    requires IsCounts16(s) && IsHoleExclusion(hole) && 1 <= i <= 11
    ensures DrawMassFrom(DrawProbabilities(s, hole), s, i)
            == SumTo(Probabilities(s, hole), RANKS) - SumTo(Probabilities(s, hole), i - 1)
    decreases 11 - i
  {
    var ps := Probabilities(s, hole);
    if i <= 10 {
      DrawMassIsProbabilities(s, hole, i + 1);
      CopiesAgree(s, hole, i);
      if s[i - 1] == 0 {
        AbsentHasNoProbability(s, hole, i);
      }
      assert SumTo(ps, i) == SumTo(ps, i - 1) + ps[i - 1];
    } else {
      assert i - 1 == RANKS;
    }
  }

  lemma AbsentHasNoProbability(s: seq<int>, hole: int, i: int)
    requires |s| == RANKS && IsHoleExclusion(hole) && 1 <= i <= 10 && s[i - 1] == 0
    ensures GetCardProbability(s, hole, i) == 0.0
  {
  }

  /**
   * Doubling is worth twice the expected stand value of the three-card
   * hand: when every card left leads to the same stand value v, the double
   * is worth 2v, because the draw probabilities (with the ruled-out hole
   * card, if any) add up to one.
   */
  lemma DoubleOfUniformStand(t: map<int, ExpectationStandHit>, hole: int, s: seq<int>, h: seq<int>, v: real)
    requires IsCounts16(s) && IsCounts(h) && IsHoleExclusion(hole) && !IsNatural(h)
    requires hole == 0 ==> Total(s) > 0
    requires hole != 0 ==> Total(s) > 1 && Total(s) > s[hole - 1]
    requires forall j :: 1 <= j <= 10 && s[j - 1] > 0 ==> Key(Inc(h, j)) in t && t[Key(Inc(h, j))].stand == Fin(v)
    ensures ExDouble(t, hole, s, h) == Some(Fin(2.0 * v))
  {
    var ps := DrawProbabilities(s, hole);
    DoubleAccUniform(t, ps, s, h, 1, 0.0, v);
    UniformGainIsScaledMass(ps, s, 1, v);
    DrawMassIsOne(s, hole);
    var gain := UniformGain(ps, s, 1, v);
    assert gain == v by {
      assert Times(v, 1.0) == v;
    }
    var acc := DoubleAcc(t, ps, s, h, 1, Fin(0.0));
    assert acc == Some(Fin(v));
    assert ExDouble(t, hole, s, h) == Some(Scale(2.0, Fin(v)));
  }

  /** The ranks the double loop weighs carry the whole probability. */
  lemma DrawMassIsOne(s: seq<int>, hole: int)
    requires IsCounts16(s) && IsHoleExclusion(hole)
    requires hole == 0 ==> Total(s) > 0
    requires hole != 0 ==> Total(s) > 1 && Total(s) > s[hole - 1]
    ensures DrawMassFrom(DrawProbabilities(s, hole), s, 1) == 1.0
  {
    DrawMassIsProbabilities(s, hole, 1);
    if hole == 0 {
      ProbabilitiesSumToOne(s);
    } else {
      ProbabilitiesSumToOneExcluding(s, hole);
    }
    assert SumTo(Probabilities(s, hole), 0) == 0.0;
  }

  // ---------------------------------------------------------------------
  // `calculate_expectations` in place
  // ---------------------------------------------------------------------

  /**
   * `calculate_expectations`: fills the stand and hit table of the
   * situation's up card (sequentially or in passes) and returns the other
   * values. The result and the table are those ExpectationsOf gives for the
   * table before the call; None is the panic of reading a missing entry.
   */
  method CalculateExpectations(threads: nat, rule: Rule, odds: (seq<int>, seq<int>) -> WinLose,
                               situation: InitialSituation, exStandHit: SingleStateArray<ExpectationStandHit>)
    returns (r: Option<ExsOtherDecisions>)
    requires situation.shoe.Valid() && CardsInRange(situation.handCards, situation.dealerUpCard)
    requires exStandHit.default == DEFAULT_STAND_HIT
    modifies exStandHit
    ensures var e := ExpectationsOf(threads, rule, odds, situation.shoe.Counts(), situation.handCards,
                                    situation.dealerUpCard, old(exStandHit.data));
            (r.Some? <==> e.Some?) && (r.Some? ==> exStandHit.data == e.value.0 && r.value == e.value.1)
  {
    ghost var s := situation.shoe.Counts();
    ghost var m := exStandHit.data;
    var hand := situation.handCards;
    var initialHand := new CardCount.WithNumberOfDecks(0);
    initialHand.AddCard(hand.0);
    initialHand.AddCard(hand.1);
    ghost var h := initialHand.Counts();
    assert h == InitialHand(hand);
    var shoe := situation.shoe.Clone();
    var hole := GetImpossibleDealerHoleCard(rule, situation.dealerUpCard);

    if threads <= 1 {
      MemoizationCalculateStandHitExpectation(rule, hole, odds, shoe, initialHand, exStandHit);
    } else {
      var completed := StandHitPasses.MultithreadingCalculateStandHitExpectation(threads, rule, hole, odds, shoe,
                                                                                 initialHand, exStandHit);
      if !completed {
        return None;
      }
    }
    ghost var t := exStandHit.data;
    assert StandHitTable(threads, rule, hole, odds, s, h, m) == Some(t);

    r := OtherDecisions(rule, hole, situation.shoe, initialHand, exStandHit);
  }

  /** The part of `calculate_expectations` after the table is filled: the
      double, the best of stand, hit and surrender, insurance and summary. */
  method OtherDecisions(rule: Rule, hole: int, shoe: CardCount, initialHand: CardCount,
                        exStandHit: SingleStateArray<ExpectationStandHit>)
    returns (r: Option<ExsOtherDecisions>)
    requires shoe.Valid() && initialHand.Valid() && Disjoint(shoe, initialHand) && IsHoleExclusion(hole)
    modifies initialHand, initialHand.counts
    ensures r == OthersOf(rule, exStandHit.data, hole, shoe.Counts(), old(initialHand.Counts()))
  {
    ghost var s, h, t := shoe.Counts(), initialHand.Counts(), exStandHit.data;
    var exDouble := DoubleOf(hole, shoe, initialHand, exStandHit);
    if exDouble.None? {
      return None;
    }
    var best := MaxStandHitSurrender(exStandHit.data, initialHand.counts[..], rule);
    if best.None? {
      return None;
    }
    var pEarlyEnd := PEarlyEnd(shoe.counts[..], hole);
    var exSplitResult := NegInf;
    var exNoEarlyEnd := NoEarlyEnd(best.value.0, exDouble.value, exSplitResult);
    var exExtraInsurance := InsuranceValue(rule, pEarlyEnd);
    var exSummary := Summary(rule, initialHand.IsNatural(), pEarlyEnd, exNoEarlyEnd);
    r := Some(ExsOtherDecisions(exDouble.value, exSplitResult, exExtraInsurance, exSummary));
  }

  /** The double block of `calculate_expectations`: the third card is drawn
      into the hand and taken back for every rank left in the shoe. */
  method DoubleOf(hole: int, shoe: CardCount, initialHand: CardCount, exStandHit: SingleStateArray<ExpectationStandHit>)
    returns (r: Option<ExtReal>)
    requires shoe.Valid() && initialHand.Valid() && Disjoint(shoe, initialHand) && IsHoleExclusion(hole)
    modifies initialHand, initialHand.counts
    ensures r == ExDouble(exStandHit.data, hole, shoe.Counts(), old(initialHand.Counts()))
    ensures initialHand.Valid() && (r.Some? ==> initialHand.Counts() == old(initialHand.Counts()))
  {
    if initialHand.IsNatural() {
      return Some(NegInf);
    }
    ghost var s, h, t := shoe.Counts(), initialHand.Counts(), exStandHit.data;
    ghost var ps := DrawProbabilities(s, hole);
    var exDouble := Fin(0.0);
    var i := 1;
    while i <= 10
      invariant 1 <= i <= 11
      invariant initialHand.Valid() && initialHand.Counts() == h
      invariant shoe.Valid() && shoe.Counts() == s
      invariant DoubleAcc(t, ps, s, h, i, exDouble) == DoubleAcc(t, ps, s, h, 1, Fin(0.0))
    {
      if shoe.Count(i) != 0 {
        initialHand.AddCard(i);
        var p := GetCardProbabilityCopy(shoe.counts[..], hole, i);
        if !exStandHit.ContainsState(initialHand) {
          assert DoubleAcc(t, ps, s, h, i, exDouble) == None;
          return None;
        }
        exDouble := Add(exDouble, Scale(p, exStandHit.Index(initialHand).stand));
        IncDec(h, i);
        initialHand.RemoveCard(i);
      }
      i := i + 1;
    }
    r := Some(Scale(2.0, exDouble));
  }
}
