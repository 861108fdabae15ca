/**
 * The table rules, the player's decisions and the validated initial
 * situation of a round (blackjack/src/lib.rs).
 */
module Rules {
  import opened HandValue
  import StateArray
  import opened Wrappers

  datatype DoublePolicy = AnyTwo | NineTenElevenOnly | TenElevenOnly

  /** Which dealer up cards make the dealer look at the hole card first. */
  datatype PeekPolicy = UpAceOrTen | UpAce | NoPeek

  /**
   * A table's rules. Widths in `Rule`: the deck count, the split limits
   * and the Charlie number are 8-bit, the proportions and payouts are
   * floating point (exact reals here).
   */
  datatype Rule = Rule(
    numberOfDecks: int,
    cutCardProportion: real,
    splitAllLimits: int,
    splitAceLimits: int,
    allowDecisionsAfterSplitAces: bool,
    doublePolicy: DoublePolicy,
    dealerHitOnSoft17: bool,
    allowDas: bool,
    allowLateSurrender: bool,
    peekPolicy: PeekPolicy,
    charlieNumber: int,
    payoutBlackjack: real,
    payoutInsurance: real)

  /** The 8-bit fields hold 8-bit values. */
  predicate ValidRule(rule: Rule)
  {
    0 <= rule.numberOfDecks < 0x100 && 0 <= rule.splitAllLimits < 0x100
    && 0 <= rule.splitAceLimits < 0x100 && 0 <= rule.charlieNumber < 0x100
  }

  datatype Decision = PlaceHolder | Hit | Stand | Double | Surrender | Split | Insurance

  /** `Decision::default()`. */
  const DEFAULT_DECISION: Decision := PlaceHolder

  const UP_CARD_MESSAGE: string := "Invalid dealer up card! It must be in [1, 10]"
  const HAND_CARD_MESSAGE: string := "Invalid hand card! It must be in [0, 10]"

  /**
   * The panic `InitialSituation::new` raises for these cards, if any: the up
   * card is checked first, then both hand cards. A hand card of 0 is
   * rejected although the message names the range [0, 10].
   */
  function InitialSituationPanic(hand: (int, int), dealerUpCard: int): (r: Option<string>)
    ensures r == None <==> 1 <= dealerUpCard <= 10 && 1 <= hand.0 <= 10 && 1 <= hand.1 <= 10
    ensures !(1 <= dealerUpCard <= 10) ==> r == Some(UP_CARD_MESSAGE)
    ensures 1 <= dealerUpCard <= 10 && !(1 <= hand.0 <= 10 && 1 <= hand.1 <= 10)
            ==> r == Some(HAND_CARD_MESSAGE)
  {
    if dealerUpCard == 0 || dealerUpCard > 10 || dealerUpCard < 0 then Some(UP_CARD_MESSAGE)
    else if hand.0 > 10 || hand.0 <= 0 || hand.1 > 10 || hand.1 <= 0 then Some(HAND_CARD_MESSAGE)
    else None
  }

  /**
   * The shoe before the round, the player's two cards and the dealer's up
   * card. The enumeration of the betting phase moves cards between the shoe
   * and the hand in place, so the fields are mutable.
   */
  class InitialSituation {
    const shoe: StateArray.CardCount
    var handCards: (int, int)
    var dealerUpCard: int

    /** `new` stores its arguments unchanged; it panics on cards outside
        1..10, which callers must therefore not pass. */
    constructor (shoe: StateArray.CardCount, hand: (int, int), dealerUpCard: int)
      requires InitialSituationPanic(hand, dealerUpCard) == None
      ensures this.shoe == shoe && handCards == hand && this.dealerUpCard == dealerUpCard
    {
      this.shoe := shoe;
      handCards := hand;
      this.dealerUpCard := dealerUpCard;
    }
  }
}
