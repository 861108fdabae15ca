/**
 * The table simulator (blackjack/src/simulation.rs): a phase machine that
 * seats the player, takes the bet, deals, lets the dealer peek, plays
 * splits and decisions, lets the dealer draw and settles every group.
 *
 * Every public step is allowed in exactly one phase; called in any other
 * phase it returns an error and changes nothing. The panics of
 * `simulation.rs` (a shoe that runs dry under `unwrap`, an overflowing
 * `u32`) are the outcome `Panic`.
 */
module Simulation {
  import opened Cards
  import opened HandValue
  import opened Wrappers
  import opened Rules
  import opened Hands
  import Shoes
  import StateArray

  const MAX_PLAYER: int := 10

  datatype GamePhase =
    | WaitForPlayerSeat
    | PlaceBets
    | DealInitialCards
    | DealerPeek
    | WaitForRightPlayers
    | PlaySplit
    | Play
    | WaitForLeftPlayers
    | DealerPlayAndSummary
    | StartNewShoe

  /** What a step of the simulator gives back: a value, the error message
      of a refused step, or a panic of the Rust method. */
  datatype Outcome<T> = Done(value: T) | Refused(message: string) | Panic

  function PhaseName(p: GamePhase): string
  {
    match p
    case WaitForPlayerSeat => "WaitForPlayerSeat"
    case PlaceBets => "PlaceBets"
    case DealInitialCards => "DealInitialCards"
    case DealerPeek => "DealerPeek"
    case WaitForRightPlayers => "WaitForRightPlayers"
    case PlaySplit => "PlaySplit"
    case Play => "Play"
    case WaitForLeftPlayers => "WaitForLeftPlayers"
    case DealerPlayAndSummary => "DealerPlayAndSummary"
    case StartNewShoe => "StartNewShoe"
  }

  /** The message of the phase guard `#[allowed_phase(P)]` put in front of
      the step called `name`. */
  function PhaseError(name: string, p: GamePhase): (m: string)
    ensures m == name + " is only allowed in " + PhaseName(p) + " phase"
    ensures |m| == |name| + 26 + |PhaseName(p)| && m[..|name|] == name
    ensures m[|name| + 20..|m| - 6] == PhaseName(p)
  {
    name + " is only allowed in " + PhaseName(p) + " phase"
  }

  /** Distinct phases have distinct names. */
  lemma {:induction false} PhaseNameInjective(p: GamePhase, q: GamePhase)
    ensures PhaseName(p) == PhaseName(q) <==> p == q
  {
  }

  /** The refusal of a step names the phase it is allowed in: two refusals
      of the same step are the same message exactly when they name the
      same phase. */
  lemma {:induction false} PhaseErrorInjective(name: string, p: GamePhase, q: GamePhase)
    ensures PhaseError(name, p) == PhaseError(name, q) <==> p == q
  {
    var m, n := PhaseError(name, p), PhaseError(name, q);
    if m == n {
      assert PhaseName(p) == m[|name| + 20..|m| - 6] == PhaseName(q);
    }
    PhaseNameInjective(p, q);
  }

  // ---------------------------------------------------------------------
  // Checks and rules of single steps
  // ---------------------------------------------------------------------

  /** The refusal `seat_player` gives for these numbers, if any. */
  function SeatCheck(numberOfPlayers: int, seatOrder: int): (e: Option<string>)
    ensures e == None <==> numberOfPlayers <= MAX_PLAYER && seatOrder < numberOfPlayers
  {
    if numberOfPlayers > MAX_PLAYER then Some("number_of_players cannot exceed 10")
    else if seatOrder >= numberOfPlayers then Some("seat_order should be less than number_of_players")
    else None
  }

  /** The pair (0, 0), documented as "keep the seating", is always refused:
      the seat check rejects it before the keep-seating branch is reached. */
  lemma {:induction false} SeatZeroZeroRefused(numberOfPlayers: int, seatOrder: int)
    requires numberOfPlayers == 0 && seatOrder == 0
    ensures SeatCheck(numberOfPlayers, seatOrder) == Some("seat_order should be less than number_of_players")
  {
    assert !(seatOrder < numberOfPlayers);
  }

  /** The intended seat check: (0, 0) asks to keep the current seating,
      so it is checked as that seating; any other pair as `seat_player`
      checks it. */
  function SeatCheckKeeping(numberOfPlayers: int, seatOrder: int, seatedPlayers: int, seatedOrder: int)
    : (e: Option<string>)
    ensures numberOfPlayers == 0 && seatOrder == 0 ==>
              (e == None <==> seatedPlayers <= MAX_PLAYER && seatedOrder < seatedPlayers)
    ensures !(numberOfPlayers == 0 && seatOrder == 0) ==> e == SeatCheck(numberOfPlayers, seatOrder)
  {
    if numberOfPlayers == 0 && seatOrder == 0 then SeatCheck(seatedPlayers, seatedOrder)
    else SeatCheck(numberOfPlayers, seatOrder)
  }

  /** With the intended check, (0, 0) is accepted whenever someone is
      seated, where the check as written refuses it. */
  lemma {:induction false} SeatZeroZeroKeeps(seatedPlayers: int, seatedOrder: int)
    requires 0 <= seatedOrder < seatedPlayers <= MAX_PLAYER
    ensures SeatCheckKeeping(0, 0, seatedPlayers, seatedOrder) == None
    ensures SeatCheck(0, 0).Some?
  {
    assert SeatCheck(seatedPlayers, seatedOrder) == None;
  }

  predicate IsWhole(x: real)
  {
    x.Floor as real == x
  }

  /** The refusal `place_bets` gives for this bet, if any: the blackjack
      payout of the bet, the half bet and its insurance payout must all be
      whole numbers (exact reals here). */
  function BetCheck(bet: int, rule: Rule): (e: Option<string>)
    requires bet >= 0
    ensures e == None <==> IsWhole(bet as real * rule.payoutBlackjack) && bet % 2 == 0
                           && IsWhole((bet / 2) as real * rule.payoutInsurance)
    ensures bet % 2 != 0 ==> e.Some?
  {
    if !IsWhole(bet as real * rule.payoutBlackjack) then Some("bet multiplied by payout_blackjack must be an integer")
    else if bet % 2 != 0 then Some("bet must be an even integer to possibly buy insurance")
    else if !IsWhole((bet / 2) as real * rule.payoutInsurance) then Some("Half of bet multiplied by payout_insurance must be an integer")
    else None
  }

  /** Whether the dealer looks at the hole card for this up card value. */
  function DealerWillPeek(policy: PeekPolicy, up: int): (b: bool)
    ensures b ==> up == 1 || up == 10
    ensures up == 1 ==> (b <==> policy != NoPeek)
    ensures up == 10 ==> (b <==> policy == UpAceOrTen)
  {
    match policy
    case UpAceOrTen => up == 1 || up == 10
    case UpAce => up == 1
    case NoPeek => false
  }

  /** When the up card is an ace or a ten, the only up cards the dealer
      peeks on, the two cards make a natural exactly when their values add
      up to 11, the test `dealer_peeks` uses; `c` is their counts. (A 2 and
      a 9 also add up to 11, but the dealer never peeks on a 2 or a 9.) */
  lemma DealerNaturalIffEleven(v1: int, v2: int, c: seq<int>)
    requires (v1 == 1 || v1 == 10) && 1 <= v2 <= 10 && c == Inc(Inc(EMPTY, v1), v2)
    ensures v1 + v2 == 11 <==> IsNatural(c)
  {
    TotalsOfSingle(v1);
    IncValues(EMPTY, v1);
    IncValues(Inc(EMPTY, v1), v2);
    assert c[0] == (if v1 == 1 then 1 else 0) + (if v2 == 1 then 1 else 0);
    assert c[9] == (if v1 == 10 then 1 else 0) + (if v2 == 10 then 1 else 0);
  }

  /** A hand worth 18 or more without its aces stands under either rule, so
      the dealer draws at most until the hard sum passes 17. */
  lemma StandsAboveHard17(c: seq<int>, hitSoft17: bool)
    requires IsCounts(c) && HardSum(c) >= 18
    ensures DealerMustStand(c, hitSoft17)
  {
  }

  /** Under the hit-soft-17 rule the dealer draws to ace, six, king: the hand
      is a hard 17, but it holds an ace. */
  lemma HitsHard17WithAce(hitSoft17: bool)
    requires hitSoft17
    ensures HardSum([1, 0, 0, 0, 0, 1, 0, 0, 0, 1]) == 17
    ensures !DealerMustStand([1, 0, 0, 0, 0, 1, 0, 0, 0, 1], hitSoft17)
  {
    HardSumTen([1, 0, 0, 0, 0, 1, 0, 0, 0, 1]);
  }

  /** The counts `c` with the values of cards[lo..hi] added. */
  function AddCards(c: seq<int>, cards: seq<Card>, lo: int, hi: int): (r: seq<int>)
    requires |c| == RANKS && AllValid(cards) && 0 <= lo && hi <= |cards|
    ensures |r| == RANKS
    decreases hi - lo
  {
    if lo >= hi then c else AddCards(Inc(c, BlackjackValue(cards[lo])), cards, lo + 1, hi)
  }

  /**
   * The dealer's draw from the shoe's cards starting at position `next`,
   * with `c` the counts of the dealer's hand: the position after the last
   * card drawn once the stand rule holds, or None when the shoe ends first
   * (where `dealer_plays_and_summary` panics on `unwrap`).
   */
  function DealerDraw(c: seq<int>, cards: seq<Card>, next: int, hitSoft17: bool): (r: Option<int>)
    requires |c| == RANKS && AllValid(cards) && 0 <= next
    ensures r.Some? && next <= |cards| ==> next <= r.value <= |cards|
    decreases |cards| - next
  {
    if DealerMustStand(c, hitSoft17) then Some(next)
    else if next >= |cards| then None
    else DealerDraw(Inc(c, BlackjackValue(cards[next])), cards, next + 1, hitSoft17)
  }

  /** One card of the draw: where the dealer does not stand, the draw goes
      on from the next position with that card counted. */
  lemma DealerDrawStep(c: seq<int>, cards: seq<Card>, next: int, hitSoft17: bool)
    requires |c| == RANKS && AllValid(cards) && 0 <= next < |cards|
    requires !DealerMustStand(c, hitSoft17)
    ensures DealerDraw(c, cards, next, hitSoft17)
            == DealerDraw(Inc(c, BlackjackValue(cards[next])), cards, next + 1, hitSoft17)
  {
  }

  /** The draw stops at the first position where the dealer stands: it
      stands there and at no position before. */
  lemma {:induction false} DealerDrawStops(c: seq<int>, cards: seq<Card>, next: int, hitSoft17: bool)
    requires |c| == RANKS && AllValid(cards) && 0 <= next <= |cards|
    requires DealerDraw(c, cards, next, hitSoft17).Some?
    ensures var k := DealerDraw(c, cards, next, hitSoft17).value;
            next <= k <= |cards|
            && DealerMustStand(AddCards(c, cards, next, k), hitSoft17)
            && forall j :: next <= j < k ==> !DealerMustStand(AddCards(c, cards, next, j), hitSoft17)
    decreases |cards| - next
  {
    if !DealerMustStand(c, hitSoft17) {
      var d := Inc(c, BlackjackValue(cards[next]));
      DealerDrawStops(d, cards, next + 1, hitSoft17);
    }
  }

  /** When the shoe ends first, the dealer stands at no position up to the
      end. */
  lemma {:induction false} DealerDrawRunsOut(c: seq<int>, cards: seq<Card>, next: int, hitSoft17: bool)
    requires |c| == RANKS && AllValid(cards) && 0 <= next <= |cards|
    requires DealerDraw(c, cards, next, hitSoft17) == None
    ensures forall j :: next <= j <= |cards| ==> !DealerMustStand(AddCards(c, cards, next, j), hitSoft17)
    decreases |cards| - next
  {
    if next < |cards| {
      var d := Inc(c, BlackjackValue(cards[next]));
      DealerDrawRunsOut(d, cards, next + 1, hitSoft17);
    }
  }

  // ---------------------------------------------------------------------
  // Settlement
  // ---------------------------------------------------------------------

  /**
   * What one group returns at the end of the round (`dealer_plays_and_summary`):
   * a settled group keeps its stored amount; a natural in an unsplit hand is
   * paid at the blackjack payout unless the dealer has one too; otherwise a
   * dealer bust pays double, a dealer natural takes the bet, and the higher
   * total wins double or nothing, with a push on equal totals.
   */
  function GroupWin(p: GroupBetPair, single: bool, dealer: seq<int>, rule: Rule): (w: int)
    requires ValidPair(p) && |dealer| == RANKS
    ensures 0 <= w
    ensures p.winAlreadyDetermined ==> w == p.bet
  {
    var mine := p.group.cardCount;
    if p.winAlreadyDetermined then p.bet
    else if IsNatural(mine) && single then
      (if !IsNatural(dealer) then p.bet + CastToU32(p.bet as real * rule.payoutBlackjack) else p.bet)
    else if Bust(dealer) then 2 * p.bet
    else if IsNatural(dealer) then 0
    else if ActualSum(mine) < ActualSum(dealer) then 0
    else if ActualSum(mine) > ActualSum(dealer) then 2 * p.bet
    else p.bet
  }

  /** Outside the two natural cases a group gets back nothing, its bet or
      twice its bet. */
  lemma GroupWinShape(p: GroupBetPair, single: bool, dealer: seq<int>, rule: Rule)
    requires ValidPair(p) && |dealer| == RANKS && !p.winAlreadyDetermined
    requires !(IsNatural(p.group.cardCount) && single)
    ensures var w := GroupWin(p, single, dealer, rule);
            w == 0 || w == p.bet || w == 2 * p.bet
    ensures Bust(dealer) ==> GroupWin(p, single, dealer, rule) == 2 * p.bet
    ensures !Bust(dealer) && IsNatural(dealer) ==> GroupWin(p, single, dealer, rule) == 0
  {
  }

  /** A higher total never returns less against the same dealer hand. */
  lemma GroupWinMonotone(p: GroupBetPair, q: GroupBetPair, dealer: seq<int>, rule: Rule)
    requires ValidPair(p) && ValidPair(q) && |dealer| == RANKS && p.bet == q.bet
    requires !p.winAlreadyDetermined && !q.winAlreadyDetermined
    requires !IsNatural(p.group.cardCount) && !IsNatural(q.group.cardCount)
    requires ActualSum(p.group.cardCount) <= ActualSum(q.group.cardCount)
    ensures GroupWin(p, false, dealer, rule) <= GroupWin(q, false, dealer, rule)
  {
  }

  /** An unsplit natural beats everything but a dealer natural, against
      which the bet comes back. */
  lemma NaturalWins(p: GroupBetPair, dealer: seq<int>, rule: Rule)
    requires ValidPair(p) && |dealer| == RANKS && !p.winAlreadyDetermined
    requires IsNatural(p.group.cardCount) && rule.payoutBlackjack >= 0.0
    ensures IsNatural(dealer) ==> GroupWin(p, true, dealer, rule) == p.bet
    ensures !IsNatural(dealer) ==> GroupWin(p, true, dealer, rule) >= p.bet
  {
  }

  /** The total returned by the groups, in order. */
  function SettleAll(groups: seq<GroupBetPair>, single: bool, dealer: seq<int>, rule: Rule): (w: int)
    requires forall i :: 0 <= i < |groups| ==> ValidPair(groups[i])
    requires |dealer| == RANKS
    ensures 0 <= w
    ensures |groups| > 0 ==> w >= GroupWin(groups[|groups| - 1], single, dealer, rule)
  {
    if |groups| == 0 then 0
    else SettleAll(groups[..|groups| - 1], single, dealer, rule) + GroupWin(groups[|groups| - 1], single, dealer, rule)
  }

  /** Each group's return and each earlier total are part of the whole. */
  lemma {:induction false} SettlePrefix(groups: seq<GroupBetPair>, i: int, single: bool, dealer: seq<int>, rule: Rule)
    requires forall j :: 0 <= j < |groups| ==> ValidPair(groups[j])
    requires |dealer| == RANKS && 0 <= i < |groups|
    ensures SettleAll(groups[..i], single, dealer, rule) + GroupWin(groups[i], single, dealer, rule)
            <= SettleAll(groups, single, dealer, rule)
    decreases |groups|
  {
    var n := |groups|;
    if i < n - 1 {
      var front := groups[..n - 1];
      assert front[..i] == groups[..i] && front[i] == groups[i];
      SettlePrefix(front, i, single, dealer, rule);
    } else {
      assert groups[..i] == groups[..n - 1];
    }
  }

  /** The returns of the groups of a hand where every group is settled are
      their stored amounts. */
  lemma {:induction false} SettleAllDetermined(groups: seq<GroupBetPair>, single: bool, dealer: seq<int>, rule: Rule)
    requires forall i :: 0 <= i < |groups| ==> ValidPair(groups[i]) && groups[i].winAlreadyDetermined
    requires |dealer| == RANKS
    ensures SettleAll(groups, single, dealer, rule) == BetSum(groups)
    decreases |groups|
  {
    if |groups| > 0 {
      SettleAllDetermined(groups[..|groups| - 1], single, dealer, rule);
    }
  }

  function BetSum(groups: seq<GroupBetPair>): int
  {
    if |groups| == 0 then 0 else BetSum(groups[..|groups| - 1]) + groups[|groups| - 1].bet
  }

  /** The shoe `Simulator::new` makes: the rule's decks, shuffled by the
      draws, with the cursor at the start. */
  method NewShuffledShoe(rule: Rule, draws: seq<int>) returns (s: Shoes.Shoe)
    requires ValidRule(rule) && rule.numberOfDecks * 16 < 0x100
    requires Shoes.ValidDraws(draws, 52 * rule.numberOfDecks)
    ensures fresh(s) && s.Valid() && s.numberOfDecks == rule.numberOfDecks
    ensures s.cards == Shoes.ShuffleSteps(Shoes.NewCards(rule.numberOfDecks), draws, |draws|)
    ensures s.currentIndex == 0 && s.cardCount == StateArray.DeckCounts(rule.numberOfDecks)
    ensures s.cutCardIndex == Shoes.CutCardIndex(rule.cutCardProportion, rule.numberOfDecks)
  {
    s := new Shoes.Shoe(rule.numberOfDecks, rule.cutCardProportion);
    s.Shuffle(0, draws);
    assert Shoes.NewCards(rule.numberOfDecks)[..0] + Shoes.NewCards(rule.numberOfDecks)[0..]
           == Shoes.NewCards(rule.numberOfDecks);
  }

  /** The `InitialSituation` that `deal_initial_cards` returns: its own copy
      of the counts, the values of the player's two cards and of the
      dealer's up card. */
  method NewSituation(counts: seq<int>, a: Card, b: Card, up: Card) returns (s: InitialSituation)
    requires IsCounts(counts) && ValidCard(a) && ValidCard(b) && ValidCard(up)
    ensures fresh(s) && fresh(s.shoe) && s.shoe.Valid() && s.shoe.Counts() == counts
    ensures s.handCards == (BlackjackValue(a), BlackjackValue(b)) && s.dealerUpCard == BlackjackValue(up)
  {
    var shoeCounts := new StateArray.CardCount(counts);
    s := new InitialSituation(shoeCounts, (BlackjackValue(a), BlackjackValue(b)), BlackjackValue(up));
  }

  /**
   * The inner loop of `deal_initial_cards`: a card to each of n players in
   * seat order, the card of seat s going to the first group of `me`. It
   * fails where `deal_card` finds the shoe empty, which `deal_initial_cards`
   * unwraps into a panic.
   */
  method DealToPlayers(shoe: Shoes.Shoe, me: Hand, n: int, s: int) returns (ok: bool)
    requires shoe.Valid() && me.Valid() && shoe.currentIndex <= |shoe.cards|
    requires 0 <= s < n
    modifies shoe, me
    ensures ok <==> old(shoe.currentIndex) + n <= |shoe.cards|
    ensures ok ==> shoe.Valid() && me.Valid() && shoe.cards == old(shoe.cards)
                   && shoe.currentIndex == old(shoe.currentIndex) + n
                   && me.groups == ReceivedAt(old(me.groups), 0, shoe.cards[old(shoe.currentIndex) + s])
  {
    ghost var base := shoe.currentIndex;
    ghost var myCard := DEFAULT_CARD;
    var i := 0;
    while i < n
      invariant 0 <= i <= n
      invariant shoe.Valid() && shoe.cards == old(shoe.cards) && shoe.currentIndex == base + i <= |shoe.cards|
      invariant me.Valid()
      invariant i <= s ==> me.groups == old(me.groups)
      invariant i > s ==> (myCard == shoe.cards[base + s]
                  && me.groups == ReceivedAt(old(me.groups), 0, myCard))
    {
      var card := shoe.DealCard();
      if card.None? {
        return false;
      }
      if i == s {
        me.ReceiveCard(0, card.value);
        myCard := card.value;
      }
      i := i + 1;
    }
    return true;
  }

  /** One pass of the outer loop of `deal_initial_cards`: DealToPlayers,
      then a card to the dealer. */
  method DealRound(shoe: Shoes.Shoe, me: Hand, dealer: Hand, n: int, s: int) returns (ok: bool)
    requires shoe.Valid() && me.Valid() && dealer.Valid() && me != dealer
    requires |me.groups| == 1 && |dealer.groups| == 1
    requires shoe.currentIndex <= |shoe.cards| && 0 <= s < n
    modifies shoe, me, dealer
    ensures ok <==> old(shoe.currentIndex) + n + 1 <= |shoe.cards|
    ensures ok ==> shoe.Valid() && me.Valid() && dealer.Valid() && shoe.cards == old(shoe.cards)
                   && shoe.currentIndex == old(shoe.currentIndex) + n + 1
                   && me.groups == ReceivedAt(old(me.groups), 0, shoe.cards[old(shoe.currentIndex) + s])
                   && dealer.groups == ReceivedAt(old(dealer.groups), 0, shoe.cards[old(shoe.currentIndex) + n])
  {
    ok := DealToPlayers(shoe, me, n, s);
    if !ok {
      return;
    }
    ghost var mine := me.groups;
    ok := DealInto(shoe, dealer, 0);
    assert me.groups == mine;
  }

  /** Two cards received one after the other into an empty group make the
      group of those two cards; the bet and the flag stay. */
  lemma TwoReceives(gs: seq<GroupBetPair>, g0: seq<GroupBetPair>, g1: seq<GroupBetPair>, a: Card, b: Card)
    requires |g0| == 1 && ValidGroup(g0[0].group) && g0[0].group.cards == [] && ValidCard(a) && ValidCard(b)
    requires g1 == ReceivedAt(g0, 0, a) && gs == ReceivedAt(g1, 0, b)
    ensures gs == [g0[0].(group := GroupOf([a, b]))]
  {
    ReceiveTwo(g0[0].group, a, b);
  }

  /**
   * The outer loop of `deal_initial_cards`, whose two passes are written
   * out as two calls of DealRound: with base the cursor before, n players
   * and seat s the player receives the cards at base + s and
   * base + n + 1 + s and the dealer those at base + n (the up card) and
   * base + 2n + 1.
   */
  method DealTwoRounds(shoe: Shoes.Shoe, me: Hand, dealer: Hand, n: int, s: int) returns (ok: bool)
    requires shoe.Valid() && me.Valid() && dealer.Valid() && me != dealer
    requires |me.groups| == 1 && |dealer.groups| == 1
    requires me.groups[0].group.cards == [] && dealer.groups[0].group.cards == []
    requires shoe.currentIndex <= |shoe.cards| && 0 <= s < n
    modifies shoe, me, dealer
    ensures ok <==> old(shoe.currentIndex) + 2 * (n + 1) <= |shoe.cards|
    ensures ok ==> var base := old(shoe.currentIndex);
              shoe.Valid() && me.Valid() && dealer.Valid() && shoe.cards == old(shoe.cards)
              && shoe.currentIndex == base + 2 * (n + 1)
              && me.groups == [old(me.groups[0]).(group := GroupOf([shoe.cards[base + s], shoe.cards[base + n + 1 + s]]))]
              && dealer.groups == [old(dealer.groups[0]).(group := GroupOf([shoe.cards[base + n], shoe.cards[base + 2 * n + 1]]))]
  {
    ghost var base, cards := shoe.currentIndex, shoe.cards;
    ghost var m0, d0 := me.groups, dealer.groups;
    ok := DealRound(shoe, me, dealer, n, s);
    if !ok {
      return;
    }
    ghost var m1, d1 := me.groups, dealer.groups;
    ok := DealRound(shoe, me, dealer, n, s);
    if !ok {
      return;
    }
    TwoRounds(cards, base, n, s, m0, m1, me.groups, d0, d1, dealer.groups);
  }

  /** The hands after two rounds dealt from `cards` at `base`, as
      DealTwoRounds states them. */
  lemma TwoRounds(cards: seq<Card>, base: int, n: int, s: int,
                  m0: seq<GroupBetPair>, m1: seq<GroupBetPair>, m2: seq<GroupBetPair>,
                  d0: seq<GroupBetPair>, d1: seq<GroupBetPair>, d2: seq<GroupBetPair>)
    requires 0 <= base && 0 <= s < n && base + 2 * (n + 1) <= |cards|
    requires AllValid(cards)
    requires |m0| == 1 && ValidGroup(m0[0].group) && m0[0].group.cards == []
    requires |d0| == 1 && ValidGroup(d0[0].group) && d0[0].group.cards == []
    requires m1 == ReceivedAt(m0, 0, cards[base + s]) && m2 == ReceivedAt(m1, 0, cards[base + n + 1 + s])
    requires d1 == ReceivedAt(d0, 0, cards[base + n]) && d2 == ReceivedAt(d1, 0, cards[base + 2 * n + 1])
    ensures m2 == [m0[0].(group := GroupOf([cards[base + s], cards[base + n + 1 + s]]))]
    ensures d2 == [d0[0].(group := GroupOf([cards[base + n], cards[base + 2 * n + 1]]))]
  {
    TwoReceives(m2, m0, m1, cards[base + s], cards[base + n + 1 + s]);
    TwoReceives(d2, d0, d1, cards[base + n], cards[base + 2 * n + 1]);
  }

  lemma SliceExtend<T>(s: seq<T>, lo: int, hi: int)
    requires 0 <= lo <= hi < |s|
    ensures s[lo..hi + 1] == s[lo..hi] + [s[hi]]
  {
  }

  /** The insurance after a dealer natural: the stake plus its payout at
      `payout_insurance`, cast to `u32`, in a `u32` sum that may overflow. */
  function InsurancePaid(ins: int, rate: real): (paid: int)
    requires 0 <= ins
    ensures ins <= paid < ins + U32_LIMIT
    ensures rate <= 0.0 ==> paid == ins
  {
    ins + CastToU32(ins as real * rate)
  }

  /**
   * What `play_hit` makes of the group being played when it draws `card`,
   * and whether the group is finished: a bust settles it for nothing, the
   * Charlie number of cards settles it for twice the bet (saturated at the
   * top of `u32`), and otherwise the group just holds one card more.
   */
  function HitGroup(p: GroupBetPair, card: Card, charlieNumber: int): (r: (GroupBetPair, bool))
    requires ValidPair(p) && ValidCard(card)
    ensures ValidPair(r.0) && r.0.group == Receive(p.group, card)
    ensures r.1 <==> Bust(r.0.group.cardCount) || Total(r.0.group.cardCount) == charlieNumber
    ensures Bust(r.0.group.cardCount) ==> r.0.bet == 0 && r.0.winAlreadyDetermined
    ensures r.1 && !Bust(r.0.group.cardCount) ==>
              r.0.bet == (if 2 * p.bet < U32_LIMIT then 2 * p.bet else U32_LIMIT - 1) && r.0.winAlreadyDetermined
    ensures !r.1 ==> r.0 == p.(group := Receive(p.group, card))
  {
    var g := Receive(p.group, card);
    SettledMultipliers(p.(group := g));
    if Bust(g.cardCount) then (Settled(p.(group := g), 0.0), true)
    else if Total(g.cardCount) == charlieNumber then (Settled(p.(group := g), 2.0), true)
    else (p.(group := g), false)
  }

  /** What `play_double` makes of the group: one card more and the bet
      doubled, and on a bust the group is settled for nothing. */
  function DoubleGroup(p: GroupBetPair, card: Card): (r: GroupBetPair)
    requires ValidPair(p) && ValidCard(card) && 2 * p.bet < U32_LIMIT
    ensures ValidPair(r) && r.group == Receive(p.group, card)
    ensures Bust(r.group.cardCount) ==> r.bet == 0 && r.winAlreadyDetermined
    ensures !Bust(r.group.cardCount) ==> r.bet == 2 * p.bet && r.winAlreadyDetermined == p.winAlreadyDetermined
  {
    var g := Receive(p.group, card);
    var doubled := p.(group := g, bet := 2 * p.bet);
    SettledMultipliers(doubled);
    if Bust(g.cardCount) then Settled(doubled, 0.0) else doubled
  }

  /** What `play_surrender` makes of the group: settled for half its bet,
      rounded down. */
  function SurrenderGroup(p: GroupBetPair): (r: GroupBetPair)
    requires ValidPair(p)
    ensures ValidPair(r) && r.group == p.group && r.bet == p.bet / 2 && r.winAlreadyDetermined
  {
    SettledMultipliers(p);
    Settled(p, 0.5)
  }

  /** The hit of `play_hit` on group gi: a card from the shoe, then the
      bust and Charlie tests of HitGroup. None where the shoe is empty. */
  method HitInto(shoe: Shoes.Shoe, me: Hand, gi: int, charlieNumber: int) returns (r: Option<bool>)
    requires shoe.Valid() && me.Valid() && 0 <= gi < |me.groups| && shoe.currentIndex <= |shoe.cards|
    modifies shoe, me
    ensures r == None <==> old(shoe.currentIndex) >= |shoe.cards|
    ensures shoe.Valid() && me.Valid() && shoe.cards == old(shoe.cards) && |me.groups| == |old(me.groups)|
    ensures r != None ==>
              var h := HitGroup(old(me.groups[gi]), shoe.cards[old(shoe.currentIndex)], charlieNumber);
              shoe.currentIndex == old(shoe.currentIndex) + 1 && shoe.currentIndex <= |shoe.cards|
              && me.groups == old(me.groups)[gi := h.0] && r.value == h.1
  {
    ghost var at, s0 := shoe.currentIndex, me.groups;
    ghost var p := s0[gi];
    var ok := DealInto(shoe, me, gi);
    if !ok {
      return None;
    }
    ghost var g := Receive(p.group, shoe.cards[at]);
    ghost var h := HitGroup(p, shoe.cards[at], charlieNumber);
    assert me.groups == s0[gi := p.(group := g)];
    var mine := me.GetCardCounts(gi);
    assert mine == g.cardCount;
    if Bust(mine) {
      assert h == (Settled(p.(group := g), 0.0), true);
      me.DetermineWinning(gi, 0.0);
      assert me.groups == s0[gi := h.0];
      return Some(true);
    }
    if Total(mine) == charlieNumber {
      assert h == (Settled(p.(group := g), 2.0), true);
      me.DetermineWinning(gi, 2.0);
      assert me.groups == s0[gi := h.0];
      return Some(true);
    }
    assert h == (p.(group := g), false);
    return Some(false);
  }

  /** The double of `play_double` on group gi: a card from the shoe, the
      bet doubled, and a bust settled, as DoubleGroup says. None where the
      shoe is empty or the doubled bet overflows `u32`. */
  method DoubleInto(shoe: Shoes.Shoe, me: Hand, gi: int) returns (ok: bool)
    requires shoe.Valid() && me.Valid() && 0 <= gi < |me.groups| && shoe.currentIndex <= |shoe.cards|
    modifies shoe, me
    ensures ok <==> old(shoe.currentIndex) < |shoe.cards| && 2 * old(me.groups[gi].bet) < U32_LIMIT
    ensures shoe.Valid() && me.Valid() && shoe.cards == old(shoe.cards) && |me.groups| == |old(me.groups)|
    ensures ok ==> shoe.currentIndex == old(shoe.currentIndex) + 1 && shoe.currentIndex <= |shoe.cards|
                   && me.groups == old(me.groups)[gi := DoubleGroup(old(me.groups[gi]), shoe.cards[old(shoe.currentIndex)])]
  {
    ghost var at, s0 := shoe.currentIndex, me.groups;
    assert ValidPair(s0[gi]);
    ok := DealInto(shoe, me, gi);
    if !ok {
      return;
    }
    ghost var c, s1 := shoe.cards[at], me.groups;
    ReceivedKeeps(s0, gi, c);
    if 2 * me.GetBet(gi) >= U32_LIMIT {
      return false;
    }
    me.DoubleDown(gi);
    DoubleChain(s0, gi, c, s1, me.groups);
    var mine := me.GetCardCounts(gi);
    if Bust(mine) {
      me.DetermineWinning(gi, 0.0);
    }
  }

  /** Receiving a card at gi keeps that group's bet and flag and every
      other group. */
  lemma ReceivedKeeps(s0: seq<GroupBetPair>, gi: int, c: Card)
    requires 0 <= gi < |s0| && ValidGroup(s0[gi].group) && ValidCard(c)
    ensures ReceivedAt(s0, gi, c)[gi].bet == s0[gi].bet
    ensures ReceivedAt(s0, gi, c)[gi].winAlreadyDetermined == s0[gi].winAlreadyDetermined
  {
  }

  /** A card at gi and then the bet there doubled: the group's counts are
      those of the card received, and settling a bust there for nothing
      gives DoubleGroup. */
  lemma DoubleChain(s0: seq<GroupBetPair>, gi: int, c: Card, s1: seq<GroupBetPair>, s2: seq<GroupBetPair>)
    requires 0 <= gi < |s0| && ValidPair(s0[gi]) && ValidCard(c) && 2 * s0[gi].bet < U32_LIMIT
    requires s1 == ReceivedAt(s0, gi, c) && s2 == s1[gi := s1[gi].(bet := 2 * s1[gi].bet)]
    ensures |s2| == |s0| && s2[gi].group.cardCount == Receive(s0[gi].group, c).cardCount
    ensures Bust(s2[gi].group.cardCount) ==> s2[gi := Settled(s2[gi], 0.0)] == s0[gi := DoubleGroup(s0[gi], c)]
    ensures !Bust(s2[gi].group.cardCount) ==> s2 == s0[gi := DoubleGroup(s0[gi], c)]
  {
    var p := s0[gi];
    var g := Receive(p.group, c);
    assert s2[gi] == p.(group := g, bet := 2 * p.bet);
  }

  /** The counts of a two-card hand are the two values counted in order. */
  lemma CountsOfPair(x: Card, y: Card)
    requires ValidCard(x) && ValidCard(y)
    ensures CountsOfCards([x, y]) == Inc(Inc(EMPTY, BlackjackValue(x)), BlackjackValue(y))
  {
    assert [x, y][..1] == [x];
    assert [x][..0] == [];
    assert CountsOfCards([x]) == Inc(EMPTY, BlackjackValue(x));
  }

  /** The amounts `determine_winning` stores for the multipliers the
      simulator uses: nothing for a bust, half (rounded down) for a
      surrender, and double for a Charlie, saturated at the top of `u32`. */
  lemma SettledMultipliers(p: GroupBetPair)
    requires 0 <= p.bet < U32_LIMIT
    ensures Settled(p, 0.0).bet == 0
    ensures Settled(p, 0.5).bet == p.bet / 2
    ensures Settled(p, 2.0).bet == if 2 * p.bet < U32_LIMIT then 2 * p.bet else U32_LIMIT - 1
  {
    DetermineMultipliers(p.bet);
  }

  lemma DetermineMultipliers(bet: int)
    requires 0 <= bet < U32_LIMIT
    ensures CastToU32(bet as real * 0.0) == 0
    ensures CastToU32(bet as real * 0.5) == bet / 2
    ensures CastToU32(bet as real * 2.0) == if 2 * bet < U32_LIMIT then 2 * bet else U32_LIMIT - 1
  {
    CastOfWhole(0);
    assert bet as real * 2.0 == (2 * bet) as real;
    if 2 * bet < U32_LIMIT {
      CastOfWhole(2 * bet);
    }
    var h := bet / 2;
    assert h as real <= bet as real * 0.5 < h as real + 1.0 by {
      assert bet == 2 * h || bet == 2 * h + 1;
    }
  }

  /** A card from the shoe to group gi of the hand (`deal_card().unwrap()`,
      then `receive_card`); it fails when the shoe is empty. */
  method DealInto(shoe: Shoes.Shoe, me: Hand, gi: int) returns (ok: bool)
    requires shoe.Valid() && me.Valid() && 0 <= gi < |me.groups| && shoe.currentIndex <= |shoe.cards|
    modifies shoe, me
    ensures ok <==> old(shoe.currentIndex) < |shoe.cards|
    ensures shoe.Valid() && me.Valid() && shoe.cards == old(shoe.cards) && |me.groups| == |old(me.groups)|
    ensures ok ==> shoe.currentIndex == old(shoe.currentIndex) + 1
                   && me.groups == ReceivedAt(old(me.groups), gi, shoe.cards[old(shoe.currentIndex)])
  {
    ghost var at := shoe.currentIndex;
    var card := shoe.DealCard();
    if card.None? {
      return false;
    }
    assert card.value == shoe.cards[at];
    me.ReceiveCard(gi, card.value);
    return true;
  }

  /** A split of a pair, each half dealt a card, leaves every group with two
      cards when all of them had two before. */
  lemma PairsAfterSplit(s0: seq<GroupBetPair>, gi: int, a: Card, b: Card, s1: seq<GroupBetPair>)
    requires 0 <= gi < |s0| && forall i :: 0 <= i < |s0| ==> |s0[i].group.cards| == 2
    requires ValidCard(a) && ValidCard(b) && AllValid(s0[gi].group.cards)
    requires s1 == s0[gi := s0[gi].(group := GroupOf([s0[gi].group.cards[0], a]))]
                   + [GroupBetPair(GroupOf([s0[gi].group.cards[1], b]), s0[gi].bet, false)]
    ensures forall i :: 0 <= i < |s1| ==> |s1[i].group.cards| == 2
  {
    forall i | 0 <= i < |s1|
      ensures |s1[i].group.cards| == 2
    {
      if i < |s0| && i != gi {
        assert s1[i] == s0[i];
      }
    }
  }

  /** The groups after the split of group gi, with card a dealt to it and
      card b to the new last group. */
  lemma SplitThenDeal(s0: seq<GroupBetPair>, gi: int, a: Card, b: Card,
                      s1: seq<GroupBetPair>, s2: seq<GroupBetPair>, s3: seq<GroupBetPair>)
    requires 0 <= gi < |s0| && ValidPair(s0[gi]) && |s0[gi].group.cards| == 2
    requires ValidCard(a) && ValidCard(b)
    requires s1 == s0[gi := s0[gi].(group := RemoveLast(s0[gi].group).0)]
                   + [GroupBetPair(Receive(NewGroup(), RemoveLast(s0[gi].group).1), s0[gi].bet, false)]
    requires s2 == ReceivedAt(s1, gi, a)
    requires s3 == ReceivedAt(s2, |s2| - 1, b)
    ensures s3 == s0[gi := s0[gi].(group := GroupOf([s0[gi].group.cards[0], a]))]
                  + [GroupBetPair(GroupOf([s0[gi].group.cards[1], b]), s0[gi].bet, false)]
  {
    var p := s0[gi];
    var rest, second := RemoveLast(p.group).0, RemoveLast(p.group).1;
    assert p.group.cards == rest.cards + [second];
    assert rest.cards == [p.group.cards[0]];
    var g0, g1 := Receive(rest, a), Receive(NewGroup(), second);
    assert g0.cards == [p.group.cards[0], a];
    ValidGroupIsGroupOf(g0);
    ReceiveTwo(NewGroup(), second, b);
    var n := |s0|;
    var front := s0[gi := p.(group := g0)];
    assert |s1| == n + 1 && s1[gi] == p.(group := rest) && s1[n] == GroupBetPair(g1, p.bet, false);
    assert s2 == front + [GroupBetPair(g1, p.bet, false)];
    assert |s2| - 1 == n && s2[n] == GroupBetPair(g1, p.bet, false);
    assert s3 == front + [GroupBetPair(Receive(g1, b), p.bet, false)];
  }

  /**
   * The split of `play_split`: the second card of group gi moves to a new
   * last group with the same bet, then group gi and the new group each
   * receive a card from the shoe, in that order.
   */
  method SplitAndDeal(shoe: Shoes.Shoe, me: Hand, gi: int) returns (ok: bool)
    requires shoe.Valid() && me.Valid() && shoe.currentIndex <= |shoe.cards|
    requires 0 <= gi < |me.groups| && |me.groups[gi].group.cards| == 2
    modifies shoe, me
    ensures ok <==> old(shoe.currentIndex) + 2 <= |shoe.cards|
    ensures shoe.Valid() && me.Valid() && shoe.cards == old(shoe.cards)
    ensures ok ==> var p, base := old(me.groups[gi]), old(shoe.currentIndex);
              shoe.currentIndex == base + 2
              && me.groups == old(me.groups)[gi := p.(group := GroupOf([p.group.cards[0], shoe.cards[base]]))]
                              + [GroupBetPair(GroupOf([p.group.cards[1], shoe.cards[base + 1]]), p.bet, false)]
  {
    ghost var base, s0 := shoe.currentIndex, me.groups;
    assert ValidPair(s0[gi]);
    me.SplitGroup(gi);
    ghost var s1 := me.groups;
    ok := DealInto(shoe, me, gi);
    if !ok {
      return;
    }
    ghost var a := shoe.cards[base];
    ghost var s2 := me.groups;
    assert ValidCard(a) && s2 == ReceivedAt(s1, gi, a);
    var last := me.GetNumberOfGroups() - 1;
    ok := DealInto(shoe, me, last);
    if !ok {
      return;
    }
    ghost var b := shoe.cards[base + 1];
    assert ValidCard(b) && last == |s2| - 1;
    assert me.groups == ReceivedAt(s2, last, b);
    SplitThenDeal(s0, gi, a, b, s1, s2, me.groups);
  }

  /** `receive_card_for_dealer` of a card from the shoe: the dealer's one
      group takes it and counts its value. */
  method DealToDealer(shoe: Shoes.Shoe, dealer: Hand) returns (ok: bool)
    requires shoe.Valid() && dealer.Valid() && |dealer.groups| == 1 && shoe.currentIndex <= |shoe.cards|
    modifies shoe, dealer
    ensures ok <==> old(shoe.currentIndex) < |shoe.cards|
    ensures shoe.Valid() && dealer.Valid() && |dealer.groups| == 1 && shoe.cards == old(shoe.cards)
    ensures ok ==> var card := shoe.cards[old(shoe.currentIndex)];
              shoe.currentIndex == old(shoe.currentIndex) + 1
              && dealer.groups[0].(group := old(dealer.groups[0].group)) == old(dealer.groups[0])
              && dealer.groups[0].group.cards == old(dealer.groups[0].group.cards) + [card]
              && dealer.groups[0].group.cardCount == Inc(old(dealer.groups[0].group.cardCount), BlackjackValue(card))
  {
    ghost var at, g0 := shoe.currentIndex, dealer.groups;
    ok := DealInto(shoe, dealer, 0);
    if ok {
      DealerReceives(g0, dealer.groups, shoe.cards[at]);
    }
  }

  /** The dealer's one group after it receives `card`: the same bet and
      flag, one card more, and the card's value counted. */
  lemma DealerReceives(g0: seq<GroupBetPair>, g1: seq<GroupBetPair>, card: Card)
    requires |g0| == 1 && ValidGroup(g0[0].group) && ValidCard(card) && g1 == ReceivedAt(g0, 0, card)
    ensures |g1| == 1 && g1[0].(group := g0[0].group) == g0[0]
    ensures g1[0].group.cards == g0[0].group.cards + [card]
    ensures g1[0].group.cardCount == Inc(g0[0].group.cardCount, BlackjackValue(card))
  {
    ReceiveCounts(g0[0].group, card);
  }

  /**
   * The dealer's draw of `dealer_plays_and_summary`: while the stand rule
   * does not hold, a card from the shoe to the dealer. It follows
   * DealerDraw, and fails where the shoe ends first.
   */
  method DealerPlays(shoe: Shoes.Shoe, dealer: Hand, hitSoft17: bool) returns (ok: bool)
    requires shoe.Valid() && dealer.Valid() && |dealer.groups| == 1 && shoe.currentIndex <= |shoe.cards|
    modifies shoe, dealer
    ensures shoe.Valid() && dealer.Valid() && |dealer.groups| == 1 && shoe.cards == old(shoe.cards)
    ensures ok <==> DealerDraw(old(dealer.groups[0].group.cardCount), shoe.cards, old(shoe.currentIndex), hitSoft17).Some?
    ensures ok ==>
              var k := DealerDraw(old(dealer.groups[0].group.cardCount), shoe.cards, old(shoe.currentIndex), hitSoft17).value;
              shoe.currentIndex == k
              && DealerStood(old(dealer.groups[0]), dealer.groups[0], shoe.cards, old(shoe.currentIndex), k, hitSoft17)
  {
    ghost var p0, base, cs := dealer.groups[0], shoe.currentIndex, shoe.cards;
    assert DrawnSoFar(p0, dealer.groups[0], cs, base, base, hitSoft17) by {
      assert cs[base..base] == [];
    }
    while !DealerMustStand(dealer.GetCardCounts(0), hitSoft17)
      invariant shoe.Valid() && dealer.Valid() && |dealer.groups| == 1 && shoe.cards == cs
      invariant DrawnSoFar(p0, dealer.groups[0], cs, base, shoe.currentIndex, hitSoft17)
      decreases |cs| - shoe.currentIndex
    {
      ghost var at, q := shoe.currentIndex, dealer.groups[0];
      var dealt := DealToDealer(shoe, dealer);
      if !dealt {
        DrawnFails(p0, q, cs, base, at, hitSoft17);
        return false;
      }
      DrawnStep(p0, q, dealer.groups[0], cs, base, at, hitSoft17);
    }
    DrawnDone(p0, dealer.groups[0], cs, base, shoe.currentIndex, hitSoft17);
    return true;
  }

  /** The dealer's group while the dealer draws from position base: the same bet
      and flag as p0, the cards base..at added, and the draw from here ends
      where the draw from base does. */
  ghost predicate DrawnSoFar(p0: GroupBetPair, q: GroupBetPair, cs: seq<Card>, base: int, at: int, hitSoft17: bool)
  {
    0 <= base <= at <= |cs| && AllValid(cs)
    && |p0.group.cardCount| == RANKS && |q.group.cardCount| == RANKS
    && q.(group := p0.group) == p0
    && q.group.cards == p0.group.cards + cs[base..at]
    && DealerDraw(q.group.cardCount, cs, at, hitSoft17) == DealerDraw(p0.group.cardCount, cs, base, hitSoft17)
  }

  lemma DrawnStep(p0: GroupBetPair, q: GroupBetPair, q': GroupBetPair, cs: seq<Card>, base: int, at: int,
                  hitSoft17: bool)
    requires DrawnSoFar(p0, q, cs, base, at, hitSoft17) && at < |cs|
    requires !DealerMustStand(q.group.cardCount, hitSoft17)
    requires q'.(group := q.group) == q && q'.group.cards == q.group.cards + [cs[at]]
    requires q'.group.cardCount == Inc(q.group.cardCount, BlackjackValue(cs[at]))
    ensures DrawnSoFar(p0, q', cs, base, at + 1, hitSoft17)
  {
    SliceExtend(cs, base, at);
    DealerDrawStep(q.group.cardCount, cs, at, hitSoft17);
  }

  lemma DrawnFails(p0: GroupBetPair, q: GroupBetPair, cs: seq<Card>, base: int, at: int, hitSoft17: bool)
    requires DrawnSoFar(p0, q, cs, base, at, hitSoft17) && at >= |cs|
    requires !DealerMustStand(q.group.cardCount, hitSoft17)
    ensures DealerDraw(p0.group.cardCount, cs, base, hitSoft17).None?
  {
  }

  lemma DrawnDone(p0: GroupBetPair, q: GroupBetPair, cs: seq<Card>, base: int, at: int, hitSoft17: bool)
    requires DrawnSoFar(p0, q, cs, base, at, hitSoft17)
    requires DealerMustStand(q.group.cardCount, hitSoft17)
    ensures DealerDraw(p0.group.cardCount, cs, base, hitSoft17) == Some(at)
    ensures DealerStood(p0, q, cs, base, at, hitSoft17)
  {
  }

  /**
   * One pass of the settlement loop of `dealer_plays_and_summary`: the
   * return of group i in `u32` arithmetic, None where the payout sum or the
   * doubling overflows (a panic of `dealer_plays_and_summary`), which happens exactly when
   * GroupWin does not fit.
   */
  method GroupReturn(me: Hand, i: int, single: bool, dealer: seq<int>, rule: Rule) returns (w: Option<int>)
    requires me.Valid() && 0 <= i < |me.groups| && |dealer| == RANKS
    ensures w == None <==> GroupWin(me.groups[i], single, dealer, rule) >= U32_LIMIT
    ensures w != None ==> w.value == GroupWin(me.groups[i], single, dealer, rule)
  {
    var mine := me.GetCardCounts(i);
    var win := me.GetBet(i);
    if me.IsWinningAlreadyDetermined(i) {
      win := me.GetBet(i);
    } else if IsNatural(mine) && single {
      if !IsNatural(dealer) {
        var extra := CastToU32(win as real * rule.payoutBlackjack);
        if win + extra >= U32_LIMIT {
          return None;
        }
        win := win + extra;
      }
    } else if Bust(dealer) {
      if 2 * win >= U32_LIMIT {
        return None;
      }
      win := 2 * win;
    } else if IsNatural(dealer) {
      win := 0;
    } else if ActualSum(mine) < ActualSum(dealer) {
      win := 0;
    } else if ActualSum(mine) > ActualSum(dealer) {
      if 2 * win >= U32_LIMIT {
        return None;
      }
      win := 2 * win;
    }
    return Some(win);
  }

  /**
   * The settlement loop of `dealer_plays_and_summary`: the groups' returns
   * summed in `u32`. None where a return or the sum overflows, a panic of
   * `dealer_plays_and_summary`; that happens exactly when the whole does not fit.
   */
  /** The dealer's group after it drew cards from..to of the shoe: the same
      bet and flag, those cards appended, and a total the dealer stands on. */
  ghost predicate DealerStood(before: GroupBetPair, after: GroupBetPair, cards: seq<Card>, from: int, to: int,
                              hitSoft17: bool)
  {
    0 <= from <= to <= |cards| && |after.group.cardCount| == RANKS
    && after.(group := before.group) == before
    && after.group.cards == before.group.cards + cards[from..to]
    && DealerMustStand(after.group.cardCount, hitSoft17)
  }

  /** The dealer draws to a standing hand and then the player's groups are
      settled against it (the main win of `dealer_plays_and_summary`). None
      where the shoe runs out or the sum overflows `u32`. */
  method DealerRound(shoe: Shoes.Shoe, dealer: Hand, me: Hand, rule: Rule) returns (w: Option<int>)
    requires shoe.Valid() && dealer.Valid() && me.Valid() && dealer != me
    requires |dealer.groups| == 1 && shoe.currentIndex <= |shoe.cards|
    modifies shoe, dealer
    ensures shoe.Valid() && dealer.Valid() && |dealer.groups| == 1 && shoe.cards == old(shoe.cards)
    ensures var d := DealerDraw(old(dealer.groups[0].group.cardCount), shoe.cards, old(shoe.currentIndex),
                                rule.dealerHitOnSoft17);
            var total := SettleAll(me.groups, |me.groups| == 1, dealer.groups[0].group.cardCount, rule);
            (w == None <==> d == None || total >= U32_LIMIT)
            && (w != None ==>
                  w.value == total && shoe.currentIndex == d.value
                  && DealerStood(old(dealer.groups[0]), dealer.groups[0], shoe.cards, old(shoe.currentIndex), d.value,
                                 rule.dealerHitOnSoft17))
  {
    var ok := DealerPlays(shoe, dealer, rule.dealerHitOnSoft17);
    if !ok {
      return None;
    }
    w := SettleGroups(me, dealer.GetCardCounts(0), rule);
  }

  /** DealerRound, then the insurance added to the main win in `u32`. */
  method DealerSummary(shoe: Shoes.Shoe, dealer: Hand, me: Hand, rule: Rule, insurance: int) returns (r: Outcome<int>)
    requires shoe.Valid() && dealer.Valid() && me.Valid() && dealer != me && 0 <= insurance
    requires |dealer.groups| == 1 && shoe.currentIndex <= |shoe.cards|
    modifies shoe, dealer
    ensures shoe.Valid() && dealer.Valid() && |dealer.groups| == 1 && shoe.cards == old(shoe.cards)
    ensures var d := DealerDraw(old(dealer.groups[0].group.cardCount), shoe.cards, old(shoe.currentIndex),
                                rule.dealerHitOnSoft17);
            var w := SettleAll(me.groups, |me.groups| == 1, dealer.groups[0].group.cardCount, rule);
            (r == Panic <==> d == None || w + insurance >= U32_LIMIT)
            && (r != Panic ==>
                  r == Done(w + insurance) && shoe.currentIndex == d.value
                  && DealerStood(old(dealer.groups[0]), dealer.groups[0], shoe.cards, old(shoe.currentIndex), d.value,
                                 rule.dealerHitOnSoft17))
  {
    var mainWin := DealerRound(shoe, dealer, me, rule);
    if mainWin == None {
      return Panic;
    }
    if mainWin.value + insurance >= U32_LIMIT {
      return Panic;
    }
    return Done(mainWin.value + insurance);
  }

  method SettleGroups(me: Hand, dealer: seq<int>, rule: Rule) returns (total: Option<int>)
    requires me.Valid() && |dealer| == RANKS
    ensures var w := SettleAll(me.groups, |me.groups| == 1, dealer, rule);
            (total == None <==> w >= U32_LIMIT) && (total != None ==> total.value == w)
  {
    var sum := 0;
    var n := me.GetNumberOfGroups();
    var single := n == 1;
    for i := 0 to n
      invariant sum == SettleAll(me.groups[..i], single, dealer, rule) && sum < U32_LIMIT
    {
      var win := GroupReturn(me, i, single, dealer, rule);
      if win == None || sum + win.value >= U32_LIMIT {
        SettlePrefix(me.groups, i, single, dealer, rule);
        return None;
      }
      assert me.groups[..i + 1][..i] == me.groups[..i];
      sum := sum + win.value;
    }
    assert me.groups[..n] == me.groups;
    return Some(sum);
  }

  /** `Simulator`: one table with the player's seat among the others. */
  class Simulator {
    const rule: Rule
    var numberOfPlayers: int
    var seatOrder: int
    var phase: GamePhase
    const shoe: Shoes.Shoe
    const dealerHand: Hand
    var insuranceBet: int
    var splitAllTimes: int
    var splitAceTimes: int
    var groupIndex: int
    const currentHand: Hand

    /** The scalar state, to say at once that it did not change. */
    function Counters(): (int, int, int, int, int, int)
      reads this
    {
      (numberOfPlayers, seatOrder, insuranceBet, splitAllTimes, splitAceTimes, groupIndex)
    }

    /**
     * What holds in every phase: the parts are valid and apart, the shoe
     * belongs to the rule's deck count and its cursor has not run past the
     * end, the 8-bit and 32-bit fields are in range, the split counters are
     * within the limits and there is one group per split plus one.
     */
    predicate Consistent()
      reads this, shoe, dealerHand, currentHand
    {
      ValidRule(rule) && shoe.Valid() && dealerHand.Valid() && currentHand.Valid()
      && dealerHand != currentHand
      && shoe.numberOfDecks == rule.numberOfDecks
      && shoe.currentIndex <= |shoe.cards|
      && 0 <= numberOfPlayers <= MAX_PLAYER && 0 <= seatOrder < 0x100
      && 0 <= splitAceTimes <= splitAllTimes <= rule.splitAllLimits && splitAceTimes <= rule.splitAceLimits
      && |currentHand.groups| == splitAllTimes + 1
      && |dealerHand.groups| == 1
      && 0 <= insuranceBet < U32_LIMIT
      && 0 <= groupIndex
    }

    /** The state of a new round: both hands empty, nothing split, no
        insurance. */
    predicate NewGameState()
      reads this, dealerHand, currentHand
    {
      dealerHand.groups == [GroupBetPair(NewGroup(), 0, false)]
      && currentHand.groups == [GroupBetPair(NewGroup(), 0, false)]
      && splitAllTimes == 0 && splitAceTimes == 0 && groupIndex == 0 && insuranceBet == 0
    }

    /** What each phase adds: who is seated, and how many cards the hands
        hold when a step indexes them. */
    predicate PhaseInvariant()
      requires Consistent()
      reads this, shoe, dealerHand, currentHand
    {
      (phase != GamePhase.WaitForPlayerSeat ==> seatOrder < numberOfPlayers)
      && ((phase == GamePhase.PlaceBets || phase == GamePhase.DealInitialCards) ==>
            splitAllTimes == 0 && groupIndex == 0 && insuranceBet == 0
            && currentHand.groups[0].group.cards == [] && !currentHand.groups[0].winAlreadyDetermined
            && dealerHand.groups[0].group.cards == [])
      && ((phase == GamePhase.DealerPeek || phase == GamePhase.WaitForRightPlayers || phase == GamePhase.PlaySplit) ==>
            groupIndex == 0 && |dealerHand.groups[0].group.cards| == 2
            && forall i :: 0 <= i < |currentHand.groups| ==> |currentHand.groups[i].group.cards| == 2)
      && ((phase == GamePhase.DealerPeek || phase == GamePhase.WaitForRightPlayers) ==> splitAllTimes == 0)
      && (phase == GamePhase.DealerPeek ==> insuranceBet == 0)
      && (phase == GamePhase.Play ==> groupIndex < |currentHand.groups|)
    }

    predicate Valid()
      reads this, shoe, dealerHand, currentHand
    {
      Consistent() && PhaseInvariant()
    }

    /** `Simulator::new`: a shuffled shoe of the rule's decks (the shuffle's
        random draws are the parameter), nobody seated, empty hands. */
    constructor (rule: Rule, draws: seq<int>)
      requires ValidRule(rule) && rule.numberOfDecks * 16 < 0x100
      requires Shoes.ValidDraws(draws, 52 * rule.numberOfDecks)
      ensures Valid() && this.rule == rule && phase == GamePhase.WaitForPlayerSeat
      ensures shoe.cards == Shoes.ShuffleSteps(Shoes.NewCards(rule.numberOfDecks), draws, |draws|)
      ensures shoe.currentIndex == 0 && shoe.cardCount == StateArray.DeckCounts(rule.numberOfDecks)
      ensures shoe.cutCardIndex == Shoes.CutCardIndex(rule.cutCardProportion, rule.numberOfDecks)
      ensures numberOfPlayers == 0 && seatOrder == 0 && NewGameState()
    {
      var s := NewShuffledShoe(rule, draws);
      this.rule := rule;
      numberOfPlayers := 0;
      seatOrder := 0;
      phase := GamePhase.WaitForPlayerSeat;
      shoe := s;
      dealerHand := new Hand();
      insuranceBet := 0;
      splitAllTimes := 0;
      splitAceTimes := 0;
      groupIndex := 0;
      currentHand := new Hand();
    }

    /** `new_game`: both hands cleared, the counters, the group cursor and
        the insurance back to zero. */
    method NewGame()
      requires Consistent()
      modifies this, dealerHand, currentHand
      ensures Consistent() && NewGameState()
      ensures phase == old(phase) && numberOfPlayers == old(numberOfPlayers) && seatOrder == old(seatOrder)
    {
      dealerHand.Clear();
      splitAllTimes := 0;
      splitAceTimes := 0;
      groupIndex := 0;
      currentHand.Clear();
      insuranceBet := 0;
    }

    /**
     * `seat_player`: at most ten players and a seat among them, then a new
     * round is set up for betting. The pair (0, 0), documented as keeping
     * the current seating, is refused like any seat not below the number of
     * players (see SeatZeroZeroRefused).
     */
    method SeatPlayer(numberOfPlayers: int, seatOrder: int) returns (r: Outcome<()>)
      requires Valid() && 0 <= numberOfPlayers < 0x100 && 0 <= seatOrder < 0x100
      modifies this, dealerHand, currentHand
      ensures Valid()
      ensures old(phase) != GamePhase.WaitForPlayerSeat ==>
                r == Refused(PhaseError("seat_player", GamePhase.WaitForPlayerSeat))
                && unchanged(this) && unchanged(dealerHand) && unchanged(currentHand)
      ensures old(phase) == GamePhase.WaitForPlayerSeat && SeatCheck(numberOfPlayers, seatOrder).Some? ==>
                r == Refused(SeatCheck(numberOfPlayers, seatOrder).value)
                && unchanged(this) && unchanged(dealerHand) && unchanged(currentHand)
      ensures old(phase) == GamePhase.WaitForPlayerSeat && SeatCheck(numberOfPlayers, seatOrder) == None ==>
                r == Done(()) && phase == GamePhase.PlaceBets && NewGameState()
                && this.numberOfPlayers == numberOfPlayers && this.seatOrder == seatOrder
    {
      if phase != GamePhase.WaitForPlayerSeat {
        return Refused(PhaseError("seat_player", GamePhase.WaitForPlayerSeat));
      }
      if numberOfPlayers > MAX_PLAYER {
        return Refused("number_of_players cannot exceed 10");
      }
      if seatOrder >= numberOfPlayers {
        return Refused("seat_order should be less than number_of_players");
      }
      phase := GamePhase.PlaceBets;
      NewGame();
      if numberOfPlayers == 0 && seatOrder == 0 {
        // The keep-seating branch: the seat check above has refused (0, 0).
        assert false;
      }
      this.numberOfPlayers := numberOfPlayers;
      this.seatOrder := seatOrder;
      return Done(());
    }

    /**
     * `seat_player` as documented: (0, 0) keeps the current seating and
     * still sets up a new round for betting; any other pair goes through
     * `seat_player` itself.
     */
    method SeatPlayerKeeping(numberOfPlayers: int, seatOrder: int) returns (r: Outcome<()>)
      requires Valid() && 0 <= numberOfPlayers < 0x100 && 0 <= seatOrder < 0x100
      modifies this, dealerHand, currentHand
      ensures Valid()
      ensures old(phase) != GamePhase.WaitForPlayerSeat ==>
                r == Refused(PhaseError("seat_player", GamePhase.WaitForPlayerSeat))
                && unchanged(this) && unchanged(dealerHand) && unchanged(currentHand)
      ensures var e := SeatCheckKeeping(numberOfPlayers, seatOrder, old(this.numberOfPlayers), old(this.seatOrder));
              old(phase) == GamePhase.WaitForPlayerSeat && e.Some? ==>
                r == Refused(e.value) && unchanged(this) && unchanged(dealerHand) && unchanged(currentHand)
      ensures old(phase) == GamePhase.WaitForPlayerSeat
              && SeatCheckKeeping(numberOfPlayers, seatOrder, old(this.numberOfPlayers), old(this.seatOrder)) == None ==>
                r == Done(()) && phase == GamePhase.PlaceBets && NewGameState()
                && (numberOfPlayers == 0 && seatOrder == 0 ==>
                      this.numberOfPlayers == old(this.numberOfPlayers) && this.seatOrder == old(this.seatOrder))
                && (!(numberOfPlayers == 0 && seatOrder == 0) ==>
                      this.numberOfPlayers == numberOfPlayers && this.seatOrder == seatOrder)
    {
      if phase != GamePhase.WaitForPlayerSeat {
        return Refused(PhaseError("seat_player", GamePhase.WaitForPlayerSeat));
      }
      if !(numberOfPlayers == 0 && seatOrder == 0) {
        r := SeatPlayer(numberOfPlayers, seatOrder);
        return;
      }
      if this.numberOfPlayers > MAX_PLAYER {
        return Refused("number_of_players cannot exceed 10");
      }
      if this.seatOrder >= this.numberOfPlayers {
        return Refused("seat_order should be less than number_of_players");
      }
      phase := GamePhase.PlaceBets;
      NewGame();
      return Done(());
    }

    /** `place_bets`: the bet must pass BetCheck; it becomes the bet of the
        first group and the cards are dealt next. */
    method PlaceBets(bet: int) returns (r: Outcome<()>)
      requires Valid() && 0 <= bet < U32_LIMIT
      modifies this, currentHand
      ensures Valid()
      ensures old(phase) != GamePhase.PlaceBets ==>
                r == Refused(PhaseError("place_bets", GamePhase.PlaceBets)) && unchanged(this) && unchanged(currentHand)
      ensures old(phase) == GamePhase.PlaceBets && BetCheck(bet, rule).Some? ==>
                r == Refused(BetCheck(bet, rule).value) && unchanged(this) && unchanged(currentHand)
      ensures old(phase) == GamePhase.PlaceBets && BetCheck(bet, rule) == None ==>
                r == Done(()) && phase == GamePhase.DealInitialCards && Counters() == old(Counters())
                && currentHand.groups == old(currentHand.groups)[0 := old(currentHand.groups)[0].(bet := bet)]
    {
      if phase != GamePhase.PlaceBets {
        return Refused(PhaseError("place_bets", GamePhase.PlaceBets));
      }
      var e := BetCheck(bet, rule);
      if e.Some? {
        return Refused(e.value);
      }
      currentHand.SetOriginalBet(bet);
      phase := GamePhase.DealInitialCards;
      return Done(());
    }

    /**
     * `deal_initial_cards`: DealTwoRounds, then the round moves on to the
     * peek. The result carries the counts left in the shoe, the values of
     * the player's two cards and the value of the dealer's up card.
     */
    method DealInitialCards() returns (r: Outcome<InitialSituation>)
      requires Valid()
      modifies this, shoe, dealerHand, currentHand
      ensures old(phase) != GamePhase.DealInitialCards ==>
                r == Refused(PhaseError("deal_initial_cards", GamePhase.DealInitialCards))
                && unchanged(this) && unchanged(shoe) && unchanged(dealerHand) && unchanged(currentHand)
      ensures old(phase) == GamePhase.DealInitialCards ==>
                (r == Panic <==> old(shoe.currentIndex) + 2 * (numberOfPlayers + 1) > |shoe.cards|)
      ensures old(phase) == GamePhase.DealInitialCards && r != Panic ==>
                var base, n, s := old(shoe.currentIndex), old(numberOfPlayers), old(seatOrder);
                Valid() && phase == GamePhase.DealerPeek && r.Done?
                && Counters() == old(Counters()) && shoe.cards == old(shoe.cards)
                && shoe.currentIndex == base + 2 * (n + 1)
                && currentHand.groups == [old(currentHand.groups[0]).(
                     group := GroupOf([shoe.cards[base + s], shoe.cards[base + n + 1 + s]]))]
                && dealerHand.groups == [old(dealerHand.groups[0]).(
                     group := GroupOf([shoe.cards[base + n], shoe.cards[base + 2 * n + 1]]))]
                && fresh(r.value) && fresh(r.value.shoe) && r.value.shoe.Valid()
                && r.value.shoe.Counts() == Shoes.UndealtCounts(shoe.cards, shoe.currentIndex)
                && r.value.handCards == (BlackjackValue(shoe.cards[base + s]), BlackjackValue(shoe.cards[base + n + 1 + s]))
                && r.value.dealerUpCard == BlackjackValue(shoe.cards[base + n])
    {
      if phase != GamePhase.DealInitialCards {
        return Refused(PhaseError("deal_initial_cards", GamePhase.DealInitialCards));
      }
      r := DealHands();
    }

    /** The work of `deal_initial_cards` once its phase is checked. */
    method DealHands() returns (r: Outcome<InitialSituation>)
      requires Valid() && phase == GamePhase.DealInitialCards
      modifies this, shoe, dealerHand, currentHand
      ensures r == Panic <==> old(shoe.currentIndex) + 2 * (numberOfPlayers + 1) > |shoe.cards|
      ensures r != Panic ==>
                var base, n, s := old(shoe.currentIndex), old(numberOfPlayers), old(seatOrder);
                Valid() && phase == GamePhase.DealerPeek && r.Done?
                && Counters() == old(Counters()) && shoe.cards == old(shoe.cards)
                && shoe.currentIndex == base + 2 * (n + 1)
                && currentHand.groups == [old(currentHand.groups[0]).(
                     group := GroupOf([shoe.cards[base + s], shoe.cards[base + n + 1 + s]]))]
                && dealerHand.groups == [old(dealerHand.groups[0]).(
                     group := GroupOf([shoe.cards[base + n], shoe.cards[base + 2 * n + 1]]))]
                && fresh(r.value) && fresh(r.value.shoe) && r.value.shoe.Valid()
                && r.value.shoe.Counts() == Shoes.UndealtCounts(shoe.cards, shoe.currentIndex)
                && r.value.handCards == (BlackjackValue(shoe.cards[base + s]), BlackjackValue(shoe.cards[base + n + 1 + s]))
                && r.value.dealerUpCard == BlackjackValue(shoe.cards[base + n])
    {
      ghost var counters := Counters();
      var ok := DealTwoRounds(shoe, currentHand, dealerHand, numberOfPlayers, seatOrder);
      if !ok {
        return Panic;
      }
      ghost var mine, theirs, cards, at := currentHand.groups, dealerHand.groups, shoe.cards, shoe.currentIndex;
      assert Consistent();
      phase := GamePhase.DealerPeek;
      assert PhaseInvariant();
      var handCards := currentHand.GetCards(0);
      var dealerUpCard := dealerHand.GetCards(0)[0];
      shoe.CardCountIsUndealt();
      var situation := NewSituation(shoe.GetCardCount(), handCards[0], handCards[1], dealerUpCard);
      assert currentHand.groups == mine && dealerHand.groups == theirs && shoe.cards == cards && shoe.currentIndex == at;
      assert Valid() && Counters() == counters;
      return Done(situation);
    }

    /** The fields the play steps leave alone: the seating, the insurance
        and the split counters. */
    function Table(): (int, int, int, int, int)
      reads this
    {
      (numberOfPlayers, seatOrder, insuranceBet, splitAllTimes, splitAceTimes)
    }

    /** After `move_to_next_group` from group `from`: the next group is
        played, or the player's turn is over after the last. */
    predicate MovedOn(from: int)
      reads this, currentHand
    {
      groupIndex == from + 1
      && phase == if groupIndex == |currentHand.groups| then GamePhase.WaitForLeftPlayers else GamePhase.Play
    }

    /**
     * `dealer_peeks_if_necessary` and `dealer_peeks`: where the dealer does
     * not peek, insurance is refused and otherwise play goes on. Where the dealer
     * peeks, a bought insurance is half the first bet; the hand is a
     * natural when the two values add up to 11 (which for the up cards the dealer
     * peeks on is IsNatural, see DealerNaturalIffEleven): then the insurance
     * is paid at its payout (a `u32` sum that may overflow) and the round
     * goes to the settlement, otherwise the insurance is lost.
     */
    method DealerPeeksIfNecessary(buyInsurance: bool) returns (r: Outcome<bool>)
      requires Valid()
      modifies this
      ensures old(phase) != GamePhase.DealerPeek ==>
                r == Refused(PhaseError("dealer_peeks_if_necessary", GamePhase.DealerPeek)) && unchanged(this)
      ensures old(phase) == GamePhase.DealerPeek
              && !DealerWillPeek(rule.peekPolicy, BlackjackValue(dealerHand.groups[0].group.cards[0])) ==>
                if buyInsurance then r == Refused("Cannot buy insurance when dealer doesn't peek!") && unchanged(this)
                else r == Done(false) && phase == GamePhase.WaitForRightPlayers && Counters() == old(Counters())
      ensures old(phase) == GamePhase.DealerPeek
              && DealerWillPeek(rule.peekPolicy, BlackjackValue(dealerHand.groups[0].group.cards[0])) ==>
                var natural := IsNatural(dealerHand.groups[0].group.cardCount);
                var ins := if buyInsurance then currentHand.groups[0].bet / 2 else 0;
                var paid := InsurancePaid(ins, rule.payoutInsurance);
                (r == Panic <==> natural && paid >= U32_LIMIT)
                && (r != Panic ==>
                      r == Done(natural)
                      && (numberOfPlayers, seatOrder, splitAllTimes, splitAceTimes, groupIndex)
                         == old((numberOfPlayers, seatOrder, splitAllTimes, splitAceTimes, groupIndex))
                      && insuranceBet == (if natural then paid else 0)
                      && phase == if natural then GamePhase.DealerPlayAndSummary else GamePhase.WaitForRightPlayers)
      ensures r != Panic ==> Valid()
    {
      if phase != GamePhase.DealerPeek {
        return Refused(PhaseError("dealer_peeks_if_necessary", GamePhase.DealerPeek));
      }
      var dealerCards := dealerHand.GetCards(0);
      var up := BlackjackValue(dealerCards[0]);
      if !DealerWillPeek(rule.peekPolicy, up) {
        if buyInsurance {
          return Refused("Cannot buy insurance when dealer doesn't peek!");
        }
        phase := GamePhase.WaitForRightPlayers;
        return Done(false);
      }
      r := DealerPeeks(buyInsurance);
    }

    /** `dealer_peeks`: the insurance is half the bet when bought, and the
        dealer looks at the hole card; on a natural the insurance pays and
        the round goes to the summary, otherwise the insurance is lost and
        the players to the right act. */
    method DealerPeeks(buyInsurance: bool) returns (r: Outcome<bool>)
      requires Valid() && phase == GamePhase.DealerPeek
      requires DealerWillPeek(rule.peekPolicy, BlackjackValue(dealerHand.groups[0].group.cards[0]))
      modifies this
      ensures var natural := IsNatural(dealerHand.groups[0].group.cardCount);
              var ins := if buyInsurance then currentHand.groups[0].bet / 2 else 0;
              var paid := InsurancePaid(ins, rule.payoutInsurance);
              (r == Panic <==> natural && paid >= U32_LIMIT)
              && (r != Panic ==>
                    r == Done(natural) && Valid()
                    && (numberOfPlayers, seatOrder, splitAllTimes, splitAceTimes, groupIndex)
                       == old((numberOfPlayers, seatOrder, splitAllTimes, splitAceTimes, groupIndex))
                    && insuranceBet == (if natural then paid else 0)
                    && phase == if natural then GamePhase.DealerPlayAndSummary else GamePhase.WaitForRightPlayers)
    {
      var dealerCards := dealerHand.GetCards(0);
      var up := BlackjackValue(dealerCards[0]);
      var ins := 0;
      if buyInsurance {
        ins := currentHand.GetBet(0) / 2;
      }
      var hole := BlackjackValue(dealerCards[1]);
      assert dealerCards == [dealerCards[0], dealerCards[1]];
      CountsOfPair(dealerCards[0], dealerCards[1]);
      DealerNaturalIffEleven(up, hole, dealerHand.groups[0].group.cardCount);
      var natural := up + hole == 11;
      if natural {
        var paid := InsurancePaid(ins, rule.payoutInsurance);
        if paid >= U32_LIMIT {
          return Panic;
        }
        assert Consistent();
        insuranceBet := paid;
        phase := GamePhase.DealerPlayAndSummary;
      } else {
        assert Consistent();
        insuranceBet := 0;
        phase := GamePhase.WaitForRightPlayers;
      }
      assert Valid();
      return Done(natural);
    }

    /** `wait_for_right_players`: the players to the right stand at once. */
    method WaitForRightPlayers() returns (r: Outcome<()>)
      requires Valid()
      modifies this
      ensures Valid()
      ensures old(phase) != GamePhase.WaitForRightPlayers ==>
                r == Refused(PhaseError("wait_for_right_players", GamePhase.WaitForRightPlayers)) && unchanged(this)
      ensures old(phase) == GamePhase.WaitForRightPlayers ==>
                r == Done(()) && phase == GamePhase.PlaySplit && Counters() == old(Counters())
    {
      if phase != GamePhase.WaitForRightPlayers {
        return Refused(PhaseError("wait_for_right_players", GamePhase.WaitForRightPlayers));
      }
      phase := GamePhase.PlaySplit;
      return Done(());
    }

    /**
     * `play_split`: refused at the split limits and for two cards of
     * different values; a group index past the last is a panic of
     * `play_split`'s indexing. The counters go up (the ace counter for a pair of
     * aces), the second card moves to a new last group with the same bet,
     * and both groups receive a card. The result says whether the limits
     * are now reached.
     */
    method PlaySplit(gi: int) returns (r: Outcome<bool>)
      requires Valid()
      modifies this, shoe, currentHand
      ensures old(phase) != GamePhase.PlaySplit ==>
                r == Refused(PhaseError("play_split", GamePhase.PlaySplit))
                && unchanged(this) && unchanged(shoe) && unchanged(currentHand)
      ensures old(phase) == GamePhase.PlaySplit && old(ReachedSplitTimeLimits()) ==>
                r == Refused("You reached split time limits!")
                && unchanged(this) && unchanged(shoe) && unchanged(currentHand)
      ensures old(phase) == GamePhase.PlaySplit && !old(ReachedSplitTimeLimits())
              && !(0 <= gi < old(|currentHand.groups|)) ==>
                r == Panic
      ensures old(phase) == GamePhase.PlaySplit && !old(ReachedSplitTimeLimits())
              && 0 <= gi < old(|currentHand.groups|) ==>
                var p, base := old(currentHand.groups[gi]), old(shoe.currentIndex);
                var v := BlackjackValue(p.group.cards[0]);
                if v != BlackjackValue(p.group.cards[1]) then
                  r == Refused("You cannot split two cards with different values!")
                  && unchanged(this) && unchanged(shoe) && unchanged(currentHand)
                else
                  (r == Panic <==> base + 2 > |shoe.cards|)
                  && (r != Panic ==>
                        Valid() && r == Done(ReachedSplitTimeLimits()) && phase == GamePhase.PlaySplit
                        && (numberOfPlayers, seatOrder, insuranceBet, groupIndex)
                           == old((numberOfPlayers, seatOrder, insuranceBet, groupIndex))
                        && splitAllTimes == old(splitAllTimes) + 1
                        && splitAceTimes == old(splitAceTimes) + (if v == 1 then 1 else 0)
                        && shoe.cards == old(shoe.cards) && shoe.currentIndex == base + 2
                        && currentHand.groups
                           == old(currentHand.groups)[gi := p.(group := GroupOf([p.group.cards[0], shoe.cards[base]]))]
                              + [GroupBetPair(GroupOf([p.group.cards[1], shoe.cards[base + 1]]), p.bet, false)])
    {
      if phase != GamePhase.PlaySplit {
        return Refused(PhaseError("play_split", GamePhase.PlaySplit));
      }
      if ReachedSplitTimeLimits() {
        return Refused("You reached split time limits!");
      }
      if !(0 <= gi < currentHand.GetNumberOfGroups()) {
        return Panic;
      }
      var cards := currentHand.GetCards(gi);
      if BlackjackValue(cards[0]) != BlackjackValue(cards[1]) {
        return Refused("You cannot split two cards with different values!");
      }
      r := SplitPair(gi);
    }

    /** The part of `play_split` after its checks: the split counters go up,
        the pair is split and each half gets a card from the shoe. */
    method SplitPair(gi: int) returns (r: Outcome<bool>)
      requires Valid() && phase == GamePhase.PlaySplit && !ReachedSplitTimeLimits()
      requires 0 <= gi < |currentHand.groups|
      requires BlackjackValue(currentHand.groups[gi].group.cards[0])
               == BlackjackValue(currentHand.groups[gi].group.cards[1])
      modifies this, shoe, currentHand
      ensures var p, base := old(currentHand.groups[gi]), old(shoe.currentIndex);
              var v := BlackjackValue(p.group.cards[0]);
              (r == Panic <==> base + 2 > |shoe.cards|)
              && (r != Panic ==>
                    Valid() && r == Done(ReachedSplitTimeLimits()) && phase == GamePhase.PlaySplit
                    && (numberOfPlayers, seatOrder, insuranceBet, groupIndex)
                       == old((numberOfPlayers, seatOrder, insuranceBet, groupIndex))
                    && splitAllTimes == old(splitAllTimes) + 1
                    && splitAceTimes == old(splitAceTimes) + (if v == 1 then 1 else 0)
                    && shoe.cards == old(shoe.cards) && shoe.currentIndex == base + 2
                    && currentHand.groups
                       == old(currentHand.groups)[gi := p.(group := GroupOf([p.group.cards[0], shoe.cards[base]]))]
                          + [GroupBetPair(GroupOf([p.group.cards[1], shoe.cards[base + 1]]), p.bet, false)])
    {
      ghost var before, base := currentHand.groups, shoe.currentIndex;
      var cards := currentHand.GetCards(gi);
      var ok := SplitAndDeal(shoe, currentHand, gi);
      if !ok {
        return Panic;
      }
      PairsAfterSplit(before, gi, shoe.cards[base], shoe.cards[base + 1], currentHand.groups);
      splitAllTimes := splitAllTimes + 1;
      if BlackjackValue(cards[0]) == 1 {
        splitAceTimes := splitAceTimes + 1;
      }
      return Done(ReachedSplitTimeLimits());
    }

    /** `stop_split`: after a split of aces the player may not act, so the
        turn passes to the left; otherwise play begins with the first group. */
    method StopSplit() returns (r: Outcome<()>)
      requires Valid()
      modifies this
      ensures Valid()
      ensures old(phase) != GamePhase.PlaySplit ==>
                r == Refused(PhaseError("stop_split", GamePhase.PlaySplit)) && unchanged(this)
      ensures old(phase) == GamePhase.PlaySplit ==>
                r == Done(()) && Counters() == old(Counters())
                && phase == if splitAceTimes > 0 then GamePhase.WaitForLeftPlayers else GamePhase.Play
    {
      if phase != GamePhase.PlaySplit {
        return Refused(PhaseError("stop_split", GamePhase.PlaySplit));
      }
      if splitAceTimes > 0 {
        phase := GamePhase.WaitForLeftPlayers;
      } else {
        phase := GamePhase.Play;
      }
      return Done(());
    }

    /** `move_to_next_group`. */
    method MoveToNextGroup()
      requires Valid() && phase == GamePhase.Play
      modifies this
      ensures Valid() && MovedOn(old(groupIndex)) && Table() == old(Table())
    {
      groupIndex := groupIndex + 1;
      if groupIndex == currentHand.GetNumberOfGroups() {
        phase := GamePhase.WaitForLeftPlayers;
      }
    }

    /** `play_stand`: the group keeps its cards and play moves on. */
    method PlayStand() returns (r: Outcome<bool>)
      requires Valid()
      modifies this
      ensures Valid()
      ensures old(phase) != GamePhase.Play ==>
                r == Refused(PhaseError("play_stand", GamePhase.Play)) && unchanged(this)
      ensures old(phase) == GamePhase.Play ==>
                r == Done(true) && MovedOn(old(groupIndex)) && Table() == old(Table())
    {
      if phase != GamePhase.Play {
        return Refused(PhaseError("play_stand", GamePhase.Play));
      }
      MoveToNextGroup();
      return Done(true);
    }

    /**
     * `play_hit`: a card to the group being played, with the bust and
     * Charlie tests of HitGroup; a finished group ends and play moves on.
     */
    method PlayHit() returns (r: Outcome<bool>)
      requires Valid()
      modifies this, shoe, currentHand
      ensures old(phase) != GamePhase.Play ==>
                r == Refused(PhaseError("play_hit", GamePhase.Play))
                && unchanged(this) && unchanged(shoe) && unchanged(currentHand)
      ensures old(phase) == GamePhase.Play ==> (r == Panic <==> old(shoe.currentIndex) >= |shoe.cards|)
      ensures old(phase) == GamePhase.Play && r != Panic ==> Valid()
      ensures old(phase) == GamePhase.Play && r != Panic ==>
                var gi, base := old(groupIndex), old(shoe.currentIndex);
                var h := HitGroup(old(currentHand.groups[gi]), shoe.cards[base], rule.charlieNumber);
                r == Done(h.1) && Table() == old(Table())
                && shoe.cards == old(shoe.cards) && shoe.currentIndex == base + 1
                && currentHand.groups == old(currentHand.groups)[gi := h.0]
                && (if h.1 then MovedOn(gi) else groupIndex == gi && phase == GamePhase.Play)
    {
      if phase != GamePhase.Play {
        return Refused(PhaseError("play_hit", GamePhase.Play));
      }
      var finished := HitInto(shoe, currentHand, groupIndex, rule.charlieNumber);
      if finished == None {
        return Panic;
      }
      assert Valid();
      if finished.value {
        MoveToNextGroup();
      }
      return Done(finished.value);
    }

    /**
     * `play_double`: only on the first two cards of a group, and after a
     * split only where the table allows it; then the group is doubled as
     * DoubleGroup says and ends.
     */
    method PlayDouble() returns (r: Outcome<bool>)
      requires Valid()
      modifies this, shoe, currentHand
      ensures old(phase) != GamePhase.Play ==>
                r == Refused(PhaseError("play_double", GamePhase.Play))
                && unchanged(this) && unchanged(shoe) && unchanged(currentHand)
      ensures old(phase) == GamePhase.Play && |old(currentHand.groups[groupIndex].group.cards)| != 2 ==>
                r == Refused("You can only double down on initial 2 cards")
                && unchanged(this) && unchanged(shoe) && unchanged(currentHand)
      ensures old(phase) == GamePhase.Play && |old(currentHand.groups[groupIndex].group.cards)| == 2
              && |old(currentHand.groups)| > 1 && !rule.allowDas ==>
                r == Refused("DAS is not allowed") && unchanged(this) && unchanged(shoe) && unchanged(currentHand)
      ensures old(phase) == GamePhase.Play && |old(currentHand.groups[groupIndex].group.cards)| == 2
              && !(|old(currentHand.groups)| > 1 && !rule.allowDas) ==>
                (r == Panic <==> old(shoe.currentIndex) >= |shoe.cards|
                                 || 2 * old(currentHand.groups[groupIndex].bet) >= U32_LIMIT)
      ensures old(phase) == GamePhase.Play && r.Done? ==> Valid()
      ensures old(phase) == GamePhase.Play && r.Done? ==>
                var gi, base := old(groupIndex), old(shoe.currentIndex);
                r == Done(true) && Table() == old(Table()) && MovedOn(gi)
                && shoe.cards == old(shoe.cards) && shoe.currentIndex == base + 1
                && currentHand.groups
                   == old(currentHand.groups)[gi := DoubleGroup(old(currentHand.groups[gi]), shoe.cards[base])]
    {
      if phase != GamePhase.Play {
        return Refused(PhaseError("play_double", GamePhase.Play));
      }
      var mine := GetMyCurrentCardCount();
      if Total(mine) != 2 {
        return Refused("You can only double down on initial 2 cards");
      }
      if currentHand.GetNumberOfGroups() > 1 && !rule.allowDas {
        return Refused("DAS is not allowed");
      }
      var ok := DoubleInto(shoe, currentHand, groupIndex);
      if !ok {
        return Panic;
      }
      assert Valid();
      MoveToNextGroup();
      return Done(true);
    }

    /** `play_surrender`: where the table allows it the group is settled
        for half its bet (SurrenderGroup) and play moves on. */
    method PlaySurrender() returns (r: Outcome<bool>)
      requires Valid()
      modifies this, currentHand
      ensures Valid()
      ensures old(phase) != GamePhase.Play ==>
                r == Refused(PhaseError("play_surrender", GamePhase.Play)) && unchanged(this) && unchanged(currentHand)
      ensures old(phase) == GamePhase.Play && !rule.allowLateSurrender ==>
                r == Refused("Surrender is not allowed!") && unchanged(this) && unchanged(currentHand)
      ensures old(phase) == GamePhase.Play && rule.allowLateSurrender ==>
                var gi := old(groupIndex);
                r == Done(true) && Table() == old(Table()) && MovedOn(gi)
                && currentHand.groups == old(currentHand.groups)[gi := SurrenderGroup(old(currentHand.groups[gi]))]
    {
      if phase != GamePhase.Play {
        return Refused(PhaseError("play_surrender", GamePhase.Play));
      }
      if !rule.allowLateSurrender {
        return Refused("Surrender is not allowed!");
      }
      ghost var p := currentHand.groups[groupIndex];
      currentHand.DetermineWinning(groupIndex, 0.5);
      assert currentHand.groups[groupIndex] == SurrenderGroup(p);
      assert Valid();
      MoveToNextGroup();
      return Done(true);
    }

    /** `wait_for_left_players`: the players to the left stand at once. */
    method WaitForLeftPlayers() returns (r: Outcome<()>)
      requires Valid()
      modifies this
      ensures Valid()
      ensures old(phase) != GamePhase.WaitForLeftPlayers ==>
                r == Refused(PhaseError("wait_for_left_players", GamePhase.WaitForLeftPlayers)) && unchanged(this)
      ensures old(phase) == GamePhase.WaitForLeftPlayers ==>
                r == Done(()) && phase == GamePhase.DealerPlayAndSummary && Counters() == old(Counters())
    {
      if phase != GamePhase.WaitForLeftPlayers {
        return Refused(PhaseError("wait_for_left_players", GamePhase.WaitForLeftPlayers));
      }
      phase := GamePhase.DealerPlayAndSummary;
      return Done(());
    }

    /**
     * `dealer_plays_and_summary`: the dealer draws by the stand rule, then
     * every group is settled against the dealer's final hand and the insurance is
     * added. It panics where the shoe ends before the dealer stands or a `u32`
     * sum overflows. The result is what the player gets back, not the
     * profit.
     */
    method DealerPlaysAndSummary() returns (r: Outcome<int>)
      requires Valid()
      modifies this, shoe, dealerHand
      ensures dealerHand.Valid() && |dealerHand.groups| == 1
      ensures old(phase) != GamePhase.DealerPlayAndSummary ==>
                r == Refused(PhaseError("dealer_plays_and_summary", GamePhase.DealerPlayAndSummary))
                && unchanged(this) && unchanged(shoe) && unchanged(dealerHand)
      ensures old(phase) == GamePhase.DealerPlayAndSummary ==>
                var d := DealerDraw(old(dealerHand.groups[0].group.cardCount), old(shoe.cards),
                                    old(shoe.currentIndex), rule.dealerHitOnSoft17);
                var w := SettleAll(old(currentHand.groups), |old(currentHand.groups)| == 1,
                                   dealerHand.groups[0].group.cardCount, rule);
                (r == Panic <==> d == None || w + old(insuranceBet) >= U32_LIMIT)
                && (r != Panic ==>
                      r == Done(w + old(insuranceBet)) && Valid() && phase == GamePhase.StartNewShoe
                      && Counters() == old(Counters())
                      && shoe.cards == old(shoe.cards) && shoe.currentIndex == d.value
                      && DealerStood(old(dealerHand.groups[0]), dealerHand.groups[0], shoe.cards,
                                     old(shoe.currentIndex), d.value, rule.dealerHitOnSoft17))
    {
      if phase != GamePhase.DealerPlayAndSummary {
        return Refused(PhaseError("dealer_plays_and_summary", GamePhase.DealerPlayAndSummary));
      }
      r := DealerTurn();
    }

    /** The work of `dealer_plays_and_summary` once its phase is checked. */
    method DealerTurn() returns (r: Outcome<int>)
      requires Valid() && phase == GamePhase.DealerPlayAndSummary
      modifies this, shoe, dealerHand
      ensures dealerHand.Valid() && |dealerHand.groups| == 1
      ensures var d := DealerDraw(old(dealerHand.groups[0].group.cardCount), old(shoe.cards),
                                  old(shoe.currentIndex), rule.dealerHitOnSoft17);
              var w := SettleAll(old(currentHand.groups), |old(currentHand.groups)| == 1,
                                 dealerHand.groups[0].group.cardCount, rule);
              (r == Panic <==> d == None || w + old(insuranceBet) >= U32_LIMIT)
              && (r != Panic ==>
                    r == Done(w + old(insuranceBet)) && Valid() && phase == GamePhase.StartNewShoe
                    && Counters() == old(Counters())
                    && shoe.cards == old(shoe.cards) && shoe.currentIndex == d.value
                    && DealerStood(old(dealerHand.groups[0]), dealerHand.groups[0], shoe.cards,
                                   old(shoe.currentIndex), d.value, rule.dealerHitOnSoft17))
    {
      r := DealerSummary(shoe, dealerHand, currentHand, rule, insuranceBet);
      if r == Panic {
        return;
      }
      phase := GamePhase.StartNewShoe;
    }

    /** `start_new_shoe_if_necessary`: once the cut card is reached the
        whole shoe is shuffled (with the given draws), and the next round
        waits for the seating. */
    method StartNewShoeIfNecessary(draws: seq<int>) returns (r: Outcome<()>)
      requires Valid() && Shoes.ValidDraws(draws, |shoe.cards|)
      modifies this, shoe
      ensures Valid()
      ensures old(phase) != GamePhase.StartNewShoe ==>
                r == Refused(PhaseError("start_new_shoe_if_necessary", GamePhase.StartNewShoe))
                && unchanged(this) && unchanged(shoe)
      ensures old(phase) == GamePhase.StartNewShoe ==>
                r == Done(()) && phase == GamePhase.WaitForPlayerSeat && Counters() == old(Counters())
      ensures old(phase) == GamePhase.StartNewShoe && old(shoe.ReachedCutCard()) ==>
                shoe.cards == Shoes.ShuffleSteps(old(shoe.cards), draws, |draws|) && shoe.currentIndex == 0
                && shoe.cardCount == StateArray.DeckCounts(rule.numberOfDecks)
      ensures old(phase) == GamePhase.StartNewShoe && !old(shoe.ReachedCutCard()) ==> unchanged(shoe)
    {
      if phase != GamePhase.StartNewShoe {
        return Refused(PhaseError("start_new_shoe_if_necessary", GamePhase.StartNewShoe));
      }
      if shoe.ReachedCutCard() {
        ghost var before := shoe.cards;
        shoe.Shuffle(0, draws);
        assert before[..0] + Shoes.ShuffleSteps(before[0..], draws, |draws|) == Shoes.ShuffleSteps(before, draws, |draws|) by {
          assert before[0..] == before;
        }
      }
      phase := GamePhase.WaitForPlayerSeat;
      return Done(());
    }

    /** `reached_split_time_limits`: either counter is at its limit. While
        both counters are within their limits, the flag is down exactly
        when one more split (of aces or not) keeps both within them. */
    function ReachedSplitTimeLimits(): (b: bool)
      reads this
      ensures b <==> splitAllTimes == rule.splitAllLimits || splitAceTimes == rule.splitAceLimits
      ensures splitAllTimes <= rule.splitAllLimits && splitAceTimes <= rule.splitAceLimits ==>
                (!b <==> splitAllTimes + 1 <= rule.splitAllLimits && splitAceTimes + 1 <= rule.splitAceLimits)
    {
      splitAllTimes == rule.splitAllLimits || splitAceTimes == rule.splitAceLimits
    }

    /** A hand never holds more groups than one plus the split limit. */
    lemma GroupsWithinLimit()
      requires Valid()
      ensures 1 <= |currentHand.groups| <= rule.splitAllLimits + 1
    {
    }

    /** `get_shoe_card_count`: the counts of the cards not yet dealt. */
    function GetShoeCardCount(): (c: seq<int>)
      requires Valid()
      reads this, shoe, dealerHand, currentHand
      ensures c == Shoes.UndealtCounts(shoe.cards, shoe.currentIndex)
      ensures IsCounts(c) && Total(c) == |shoe.cards| - shoe.currentIndex
    {
      shoe.CardCountIsUndealt();
      shoe.GetCardCount()
    }

    function GetCurrentSplitAllTimes(): (n: int)
      requires Valid()
      reads this, shoe, dealerHand, currentHand
      ensures 0 <= n <= rule.splitAllLimits
    {
      splitAllTimes
    }

    function GetCurrentSplitAceTimes(): (n: int)
      requires Valid()
      reads this, shoe, dealerHand, currentHand
      ensures 0 <= n <= rule.splitAceLimits && n <= splitAllTimes
    {
      splitAceTimes
    }

    function GetNumberOfGroups(): (n: int)
      requires Valid()
      reads this, shoe, dealerHand, currentHand
      ensures n == splitAllTimes + 1
    {
      currentHand.GetNumberOfGroups()
    }

    /** `get_my_current_card_count`: the counts of the group being played;
        `get_my_current_card_count` indexes the groups and panics past the last. */
    function GetMyCurrentCardCount(): (c: seq<int>)
      requires Valid() && groupIndex < |currentHand.groups|
      reads this, shoe, dealerHand, currentHand
      ensures IsCounts(c) && Total(c) == |currentHand.groups[groupIndex].group.cards|
    {
      currentHand.GetCardCounts(groupIndex)
    }

    function GetDealerCardCount(): (c: seq<int>)
      requires Valid()
      reads this, shoe, dealerHand, currentHand
      ensures IsCounts(c) && Total(c) == |dealerHand.groups[0].group.cards|
    {
      dealerHand.GetCardCounts(0)
    }

    /** `get_all_card_counts`: the counts of every group, in order. */
    method GetAllCardCounts() returns (all: seq<seq<int>>)
      requires Valid()
      ensures |all| == |currentHand.groups|
      ensures forall i :: 0 <= i < |all| ==> all[i] == CountsOfCards(currentHand.groups[i].group.cards)
    {
      all := [];
      var i := 0;
      while i < currentHand.GetNumberOfGroups()
        invariant 0 <= i <= |currentHand.groups| && |all| == i
        invariant forall j :: 0 <= j < i ==> all[j] == CountsOfCards(currentHand.groups[j].group.cards)
      {
        all := all + [currentHand.GetCardCounts(i)];
        i := i + 1;
      }
    }
  }
}
