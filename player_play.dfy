/**
 * The second-generation solver's player side (blackjack/src/calculation2.rs):
 * the record of every decision's expectation with its best-decision query,
 * and `PlayerPlay::solve`, which gathers every shoe the player can leave
 * behind when standing and hands them to the dealer tables. The later steps
 * of `solve` (two hands, one hand) are empty in blackjack/src/calculation2.rs,
 * so the single-hand tables stay empty.
 */
module PlayerPlay {
  import opened Wrappers
  import opened ExtReals
  import opened Fingerprint
  import opened HandValue
  import opened StateArray
  import opened Rules
  import opened Expectations
  import opened CalculationStates
  import DealerEx

  /** `ExpectationAll`: the expectation of every decision, of the insurance
      side bet and of the whole situation, and the chosen decision. */
  datatype ExpectationAll = ExpectationAll(
    hit: ExtReal, stand: ExtReal, double: ExtReal, surrender: ExtReal, split: ExtReal,
    insurance: ExtReal, summary: ExtReal, decision: Decision)

  /** `ExpectationAll::default()`: nothing evaluated yet. */
  function DefaultExpectationAll(): (e: ExpectationAll)
    ensures e.hit == e.stand == e.double == e.surrender == e.split == NegInf
    ensures e.insurance == e.summary == NegInf && e.decision == Decision.PlaceHolder
  {
    ExpectationAll(NegInf, NegInf, NegInf, NegInf, NegInf, NegInf, NegInf, Decision.PlaceHolder)
  }

  /** The five decisions in the order `get_max_expectation` looks at them. */
  function AllCandidates(e: ExpectationAll): (cs: seq<(ExtReal, Decision)>)
    ensures |cs| == 5
  {
    [(e.hit, Hit), (e.stand, Stand), (e.double, Decision.Double), (e.surrender, Decision.Surrender), (e.split, Split)]
  }

  /** `get_max_expectation`: starting from hitting, each later decision
      replaces the best one only when strictly better. */
  function GetMaxExpectation(e: ExpectationAll): (ExtReal, Decision)
  {
    var b0 := (e.hit, Hit);
    var b1 := if Less(b0.0, e.stand) then (e.stand, Stand) else b0;
    var b2 := if Less(b1.0, e.double) then (e.double, Decision.Double) else b1;
    var b3 := if Less(b2.0, e.surrender) then (e.surrender, Decision.Surrender) else b2;
    if Less(b3.0, e.split) then (e.split, Split) else b3
  }

  /** The best decision is the first maximum of hit, stand, double,
      surrender and split: no decision is better, and every earlier one is
      strictly worse, so ties go to the earlier decision. */
  lemma GetMaxIsFirstMax(e: ExpectationAll) returns (i: int)
    ensures FirstMaxAt(Values(AllCandidates(e)), i)
    ensures GetMaxExpectation(e) == AllCandidates(e)[i]
  {
    var cs := AllCandidates(e);
    assert cs[..1] == [cs[0]];
    assert cs[..2][..1] == cs[..1];
    assert cs[..3][..2] == cs[..2];
    assert cs[..4][..3] == cs[..3];
    assert cs[..5][..4] == cs[..4];
    assert cs[..5] == cs;
    assert Scan(cs[..2]) == Pick(cs[0], cs[1]);
    assert Scan(cs[..3]) == Pick(Scan(cs[..2]), cs[2]);
    assert Scan(cs[..4]) == Pick(Scan(cs[..3]), cs[3]);
    assert Scan(cs) == Pick(Scan(cs[..4]), cs[4]);
    i := ScanIsFirstMax(cs);
  }

  /** An untouched record offers nothing: minus infinity, by hitting. */
  lemma DefaultMaxIsHit()
    ensures GetMaxExpectation(DefaultExpectationAll()) == (NegInf, Hit)
  {
  }

  // ---------------------------------------------------------------------
  // The shoes left after standing
  // ---------------------------------------------------------------------

  /** The shoes of the pairs, in order. */
  function ShoesOf(ps: seq<HandShoePair>): (r: seq<seq<int>>)
    ensures |r| == |ps| && forall j :: 0 <= j < |ps| ==> r[j] == ps[j].shoe
  {
    seq(|ps|, j requires 0 <= j < |ps| => ps[j].shoe)
  }

  lemma ShoesOfAppend(a: seq<HandShoePair>, b: seq<HandShoePair>)
    ensures ShoesOf(a + b) == ShoesOf(a) + ShoesOf(b)
  {
  }

  /**
   * The walk of `get_valid_shoes_after_stand_aux` visits the same states as
   * the player-state walk with nothing recorded: the same stopping rule
   * (hard sum of 21 or more, or the Charlie number of cards) and the same
   * non-decreasing draws. Starting from an empty hand, every shoe it pushes
   * is the starting shoe minus the hand the player holds at that point,
   * every such hand is drawn from the shoe, and no hand is reached twice.
   */
  lemma ValidShoesAreShoeMinusHand(charlieNumber: int, s: seq<int>)
    requires IsCounts(s)
    ensures var ps := HandStates({}, charlieNumber, EMPTY, s, 1);
            |ps| >= 1 && ps[0] == HandShoePair(EMPTY, s)
            && DistinctHands(ps)
            && forall k :: 0 <= k < |ps| ==>
                 IsCounts(ps[k].hand) && IsCounts(ps[k].shoe)
                 && ps[k].shoe == SubPointwise(s, ps[k].hand)
                 && (forall j :: 0 <= j < RANKS ==> ps[k].hand[j] <= s[j])
  {
    var ps := HandStates({}, charlieNumber, EMPTY, s, 1);
    HandStatesShape({}, charlieNumber, EMPTY, s, 1);
    forall k | 0 <= k < |ps|
      ensures ps[k].shoe == SubPointwise(s, ps[k].hand)
      ensures forall j :: 0 <= j < RANKS ==> ps[k].hand[j] <= s[j]
    {
      assert Descends(ps[k], EMPTY, s, 1);
      assert forall j :: 0 <= j < RANKS ==> ps[k].hand[j] + ps[k].shoe[j] == s[j];
    }
  }

  /** A container that shares no storage with the walk's hand and shoe. */
  predicate Apart(x: CardCount, hand: CardCount, shoe: CardCount)
  {
    x != hand && x != shoe && x.counts != hand.counts && x.counts != shoe.counts
  }

  /**
   * `get_valid_shoes_after_stand_aux`: pushes a copy of the shoe, stops at
   * a hard sum of 21 or more or at the Charlie number of cards, and
   * otherwise draws each rank from `start` on that is left in the shoe,
   * recursing and taking the card back. The ghost `cs` tracks the counts
   * of the pushed copies.
   */
  method GetValidShoesAfterStandAux(charlieNumber: int, hand: CardCount, shoe: CardCount, start: int,
                                    result: seq<CardCount>, ghost csIn: seq<seq<int>>)
    returns (r: seq<CardCount>, ghost cs: seq<seq<int>>)
    requires hand.Valid() && shoe.Valid() && Disjoint(hand, shoe) && 1 <= start <= 10
    requires |csIn| == |result|
    requires forall j :: 0 <= j < |result| ==> Apart(result[j], hand, shoe)
                                               && result[j].Valid() && result[j].Counts() == csIn[j]
    modifies hand, hand.counts, shoe, shoe.counts
    ensures hand.Valid() && shoe.Valid()
    ensures hand.Counts() == old(hand.Counts()) && shoe.Counts() == old(shoe.Counts())
    ensures |cs| == |r| && |r| >= |result| && r[..|result|] == result
    ensures cs == csIn + ShoesOf(HandStates({}, charlieNumber, old(hand.Counts()), old(shoe.Counts()), start))
    ensures forall j :: |result| <= j < |r| ==> fresh(r[j]) && fresh(r[j].counts)
    ensures forall j :: 0 <= j < |r| ==> Apart(r[j], hand, shoe) && r[j].Valid() && r[j].Counts() == cs[j]
    decreases Total(shoe.Counts()), 2
  {
    ghost var h, s := hand.Counts(), shoe.Counts();
    var copy := shoe.Clone();
    r, cs := result + [copy], csIn + [s];
    assert HandStates({}, charlieNumber, h, s, start)
           == [HandShoePair(h, s)] + (if StopsDrawing(h, charlieNumber) then []
                                      else HandStatesFrom({}, charlieNumber, h, s, start));
    ShoesOfAppend([HandShoePair(h, s)], if StopsDrawing(h, charlieNumber) then []
                                        else HandStatesFrom({}, charlieNumber, h, s, start));
    if hand.GetSum() >= 21 || hand.GetTotal() == charlieNumber {
      return;
    }
    r, cs := DrawRanks(charlieNumber, hand, shoe, start, r, cs);
  }

  /** The loop over the ranks from `start` to 10 of one walk step. */
  method DrawRanks(charlieNumber: int, hand: CardCount, shoe: CardCount, start: int,
                   result: seq<CardCount>, ghost csIn: seq<seq<int>>)
    returns (r: seq<CardCount>, ghost cs: seq<seq<int>>)
    requires hand.Valid() && shoe.Valid() && Disjoint(hand, shoe) && 1 <= start <= 10
    requires |csIn| == |result|
    requires forall j :: 0 <= j < |result| ==> Apart(result[j], hand, shoe)
                                               && result[j].Valid() && result[j].Counts() == csIn[j]
    modifies hand, hand.counts, shoe, shoe.counts
    ensures hand.Valid() && shoe.Valid()
    ensures hand.Counts() == old(hand.Counts()) && shoe.Counts() == old(shoe.Counts())
    ensures |cs| == |r| && |r| >= |result| && r[..|result|] == result
    ensures cs == csIn + ShoesOf(HandStatesFrom({}, charlieNumber, old(hand.Counts()), old(shoe.Counts()), start))
    ensures forall j :: |result| <= j < |r| ==> fresh(r[j]) && fresh(r[j].counts)
    ensures forall j :: 0 <= j < |r| ==> Apart(r[j], hand, shoe) && r[j].Valid() && r[j].Counts() == cs[j]
    decreases Total(shoe.Counts()), 1
  {
    ghost var h, s := hand.Counts(), shoe.Counts();
    r, cs := result, csIn;
    var i := start;
    while i <= 10
      invariant start <= i <= 11
      invariant hand.Valid() && shoe.Valid() && hand.Counts() == h && shoe.Counts() == s
      invariant |cs| == |r| && |r| >= |result| && r[..|result|] == result
      invariant cs + ShoesOf(HandStatesFrom({}, charlieNumber, h, s, i))
                == csIn + ShoesOf(HandStatesFrom({}, charlieNumber, h, s, start))
      invariant forall j :: |result| <= j < |r| ==> fresh(r[j]) && fresh(r[j].counts)
      invariant forall j :: 0 <= j < |r| ==> Apart(r[j], hand, shoe) && r[j].Valid() && r[j].Counts() == cs[j]
      decreases 11 - i
    {
      if shoe.Count(i) != 0 {
        r, cs := DrawRank(charlieNumber, hand, shoe, i, r, cs);
      }
      i := i + 1;
    }
  }

  /** One rank of the loop: draw it, walk on from it, take it back. */
  method DrawRank(charlieNumber: int, hand: CardCount, shoe: CardCount, i: int,
                  result: seq<CardCount>, ghost csIn: seq<seq<int>>)
    returns (r: seq<CardCount>, ghost cs: seq<seq<int>>)
    requires hand.Valid() && shoe.Valid() && Disjoint(hand, shoe) && 1 <= i <= 10 && shoe.Counts()[i - 1] > 0
    requires |csIn| == |result|
    requires forall j :: 0 <= j < |result| ==> Apart(result[j], hand, shoe)
                                               && result[j].Valid() && result[j].Counts() == csIn[j]
    modifies hand, hand.counts, shoe, shoe.counts
    ensures hand.Valid() && shoe.Valid()
    ensures hand.Counts() == old(hand.Counts()) && shoe.Counts() == old(shoe.Counts())
    ensures |cs| == |r| && |r| >= |result| && r[..|result|] == result
    ensures var h, s := old(hand.Counts()), old(shoe.Counts());
            csIn + ShoesOf(HandStatesFrom({}, charlieNumber, h, s, i))
            == cs + ShoesOf(HandStatesFrom({}, charlieNumber, h, s, i + 1))
    ensures forall j :: |result| <= j < |r| ==> fresh(r[j]) && fresh(r[j].counts)
    ensures forall j :: 0 <= j < |r| ==> Apart(r[j], hand, shoe) && r[j].Valid() && r[j].Counts() == cs[j]
    decreases Total(shoe.Counts()), 0
  {
    ghost var h, s := hand.Counts(), shoe.Counts();
    CountsBounds(s);
    DecValues(s, i);
    shoe.RemoveCard(i);
    hand.AddCard(i);
    r, cs := GetValidShoesAfterStandAux(charlieNumber, hand, shoe, i, result, csIn);
    hand.RemoveCard(i);
    shoe.AddCard(i);
    IncDec(h, i);
    IncDec(s, i);
    DrawRankShoes(charlieNumber, h, s, i, csIn, cs);
  }

  /** The shoes of rank i of the loop, then those of the ranks after it. */
  lemma DrawRankShoes(charlieNumber: int, h: seq<int>, s: seq<int>, i: int, csIn: seq<seq<int>>, cs: seq<seq<int>>)
    requires IsCounts(h) && IsCounts(s) && 1 <= i <= 10 && s[i - 1] > 0
    requires IsCounts(Inc(h, i)) && IsCounts(Dec(s, i))
    requires cs == csIn + ShoesOf(HandStates({}, charlieNumber, Inc(h, i), Dec(s, i), i))
    ensures csIn + ShoesOf(HandStatesFrom({}, charlieNumber, h, s, i))
            == cs + ShoesOf(HandStatesFrom({}, charlieNumber, h, s, i + 1))
  {
    var now := HandStates({}, charlieNumber, Inc(h, i), Dec(s, i), i);
    var later := HandStatesFrom({}, charlieNumber, h, s, i + 1);
    var a, b := ShoesOf(now), ShoesOf(later);
    assert ShoesOf(HandStatesFrom({}, charlieNumber, h, s, i)) == a + b by {
      assert HandStatesFrom({}, charlieNumber, h, s, i) == now + later;
      ShoesOfAppend(now, later);
    }
    assert csIn + (a + b) == (csIn + a) + b;
  }

  // ---------------------------------------------------------------------
  // The solver object
  // ---------------------------------------------------------------------

  /** The dealer tables are built with a natural recorded as in
      blackjack/src/calculation2/dealer_ex.rs. */
  const AS_WRITTEN: DealerEx.NaturalRecord := DealerEx.AsBust

  /** `PlayerPlay`: the rules, the dealer tables, an empty working hand,
      the gathered shoes and one single-hand table per dealer up card
      (held by value). */
  class PlayerPlay {
    const rule: Rule
    const numberOfThreads: int
    const dealerPlay: DealerEx.DealerPlay
    const zeroCardCountAux: CardCount
    var cardCountsAux: seq<CardCount>
    ghost var cardCountsAuxCounts: seq<seq<int>>
    var solutionSingleAux: seq<map<int, ExpectationAll>>

    ghost predicate Valid()
      reads this, dealerPlay, dealerPlay.handAux, dealerPlay.handAux.counts, zeroCardCountAux,
            zeroCardCountAux.counts
    {
      dealerPlay.Valid() && dealerPlay.rule == rule
      && zeroCardCountAux.Valid() && zeroCardCountAux.Counts() == EMPTY
      && Disjoint(zeroCardCountAux, dealerPlay.handAux)
      && |solutionSingleAux| == 10 && |cardCountsAuxCounts| == |cardCountsAux|
    }

    /** `PlayerPlay::new`: fresh dealer tables, nothing gathered. */
    constructor (rule: Rule, numberOfThreads: int)
      ensures Valid() && this.rule == rule && this.numberOfThreads == numberOfThreads
      ensures dealerPlay.State() == DealerEx.NEW_ODDS && cardCountsAux == []
      ensures solutionSingleAux == seq(10, i => map[])
    {
      this.rule := rule;
      this.numberOfThreads := numberOfThreads;
      dealerPlay := new DealerEx.DealerPlay(rule);
      zeroCardCountAux := new CardCount.WithNumberOfDecks(0);
      cardCountsAux := [];
      cardCountsAuxCounts := [];
      solutionSingleAux := seq(10, i => map[]);
      new;
      assert DeckCounts(0) == EMPTY;
    }

    /**
     * `solve`: clears the ten single-hand tables, gathers (on a copy of the
     * shoe) every shoe the player can leave by standing, and updates the
     * dealer tables for them. The result is false where the dealer update
     * panics; the working hand is empty again afterwards.
     */
    method Solve(shoe: CardCount) returns (ok: bool)
      requires Valid() && shoe.Valid()
      modifies this, dealerPlay, dealerPlay.handAux, dealerPlay.handAux.counts, zeroCardCountAux,
               zeroCardCountAux.counts
      ensures Valid() && solutionSingleAux == seq(10, i => map[])
      ensures DealerEx.AllCounts(cardCountsAuxCounts)
      ensures cardCountsAuxCounts == ShoesOf(HandStates({}, rule.charlieNumber, EMPTY, shoe.Counts(), 1))
      ensures ok <==> DealerEx.UpdateOdds(rule, AS_WRITTEN, old(dealerPlay.State()), cardCountsAuxCounts).Some?
      ensures ok ==> dealerPlay.State()
                     == DealerEx.UpdateOdds(rule, AS_WRITTEN, old(dealerPlay.State()), cardCountsAuxCounts).value
    {
      ClearSingleTables();
      var copy := shoe.Clone();
      GetValidShoesAfterStand(copy);
      ValidShoesAreShoeMinusHand(rule.charlieNumber, shoe.Counts());
      ok := dealerPlay.UpdateDealerOdds(AS_WRITTEN, cardCountsAux, cardCountsAuxCounts);
    }

    /** The loop of `solve` that empties the ten single-hand tables. */
    method ClearSingleTables()
      requires |solutionSingleAux| == 10
      modifies this
      ensures solutionSingleAux == seq(10, i => map[])
      ensures cardCountsAux == old(cardCountsAux) && cardCountsAuxCounts == old(cardCountsAuxCounts)
    {
      var i := 0;
      while i < 10
        invariant 0 <= i <= 10 && |solutionSingleAux| == 10
        invariant forall j :: 0 <= j < i ==> solutionSingleAux[j] == map[]
        invariant cardCountsAux == old(cardCountsAux) && cardCountsAuxCounts == old(cardCountsAuxCounts)
      {
        solutionSingleAux := solutionSingleAux[i := map[]];
        i := i + 1;
      }
      assert solutionSingleAux == seq(10, i => map[]);
    }

    /** `get_valid_shoes_after_stand`: the walk from the empty working hand
        with ranks from 1 on, into the cleared list of shoes. */
    method GetValidShoesAfterStand(shoe: CardCount)
      requires Valid() && shoe.Valid() && Disjoint(shoe, zeroCardCountAux)
      modifies this, zeroCardCountAux, zeroCardCountAux.counts, shoe, shoe.counts
      ensures Valid() && shoe.Valid() && shoe.Counts() == old(shoe.Counts())
      ensures solutionSingleAux == old(solutionSingleAux) && dealerPlay.State() == old(dealerPlay.State())
      ensures cardCountsAuxCounts == ShoesOf(HandStates({}, rule.charlieNumber, EMPTY, old(shoe.Counts()), 1))
      ensures forall j :: 0 <= j < |cardCountsAux| ==>
                cardCountsAux[j].Valid() && cardCountsAux[j].Counts() == cardCountsAuxCounts[j]
                && Disjoint(cardCountsAux[j], dealerPlay.handAux)
    {
      var r;
      ghost var cs;
      r, cs := GetValidShoesAfterStandAux(rule.charlieNumber, zeroCardCountAux, shoe, 1, [], []);
      cardCountsAux, cardCountsAuxCounts := r, cs;
    }

    /** `get_expectation_with_single`: the entry of the hand in the table of
        the up card; None where the indexing panics. */
    function GetExpectationWithSingle(hand: CardCount, dealerUpCard: int): (r: Option<ExpectationAll>)
      reads this, hand, hand.counts
      requires |solutionSingleAux| == 10 && hand.Valid()
      ensures r.Some? <==> 1 <= dealerUpCard <= 10 && Key(hand.Counts()) in solutionSingleAux[dealerUpCard - 1]
    {
      if 1 <= dealerUpCard <= 10 && hand.hashValue in solutionSingleAux[dealerUpCard - 1] then
        Some(solutionSingleAux[dealerUpCard - 1][hand.hashValue])
      else None
    }
  }
}
