/**
 * The player's cards at the simulator's table (blackjack/src/simulation/hand.rs):
 * one group of cards per split hand, each with its bet and a flag saying
 * whether its winnings are already settled.
 */
module Hands {
  import opened Cards
  import opened HandValue
  import Shoes
  import StateArray

  /** One more than the largest `u32`. */
  const U32_LIMIT: int := 0x1_0000_0000

  /** The cards of one group, in the order received, and their counts by
      value, kept in step. */
  datatype Group = Group(cards: seq<Card>, cardCount: seq<int>)

  datatype GroupBetPair = GroupBetPair(group: Group, bet: int, winAlreadyDetermined: bool)

  /** The counts by value of cards received in this order: one more of
      each card's value, starting from no cards. */
  function CountsOfCards(cards: seq<Card>): (c: seq<int>)
    requires AllValid(cards)
    ensures |c| == RANKS
  {
    if |cards| == 0 then EMPTY
    else Inc(CountsOfCards(cards[..|cards| - 1]), BlackjackValue(cards[|cards| - 1]))
  }

  /** The counts of received cards are counts, one per card. */
  lemma {:induction false} CountsOfCardsTotal(cards: seq<Card>)
    requires AllValid(cards)
    ensures IsCounts(CountsOfCards(cards)) && Total(CountsOfCards(cards)) == |cards|
  {
    if |cards| == 0 {
      TotalsOfSingle(1);
    } else {
      var front := cards[..|cards| - 1];
      CountsOfCardsTotal(front);
      IncValues(CountsOfCards(front), BlackjackValue(cards[|cards| - 1]));
    }
  }

  /** The counts do not depend on the order the cards came in: they are
      the counts by value of the cards as a multiset, as a shoe keeps them. */
  lemma {:induction false} CountsOfCardsIsValueCounts(cards: seq<Card>)
    requires AllValid(cards)
    ensures CountsOfCards(cards) == Shoes.ValueCounts(multiset(cards))
  {
    if |cards| == 0 {
      Shoes.ValueCountsOfFull(multiset{}, 0);
      assert StateArray.DeckCounts(0) == EMPTY;
    } else {
      var front, last := cards[..|cards| - 1], cards[|cards| - 1];
      assert cards == front + [last];
      CountsOfCardsIsValueCounts(front);
      Shoes.ValueCountsAdd(multiset(front), last);
    }
  }

  predicate ValidGroup(g: Group)
  {
    AllValid(g.cards) && g.cardCount == CountsOfCards(g.cards)
  }

  predicate ValidPair(p: GroupBetPair)
  {
    ValidGroup(p.group) && 0 <= p.bet < U32_LIMIT
  }

  /** The group holding these cards, with their counts. */
  function GroupOf(cards: seq<Card>): (g: Group)
    requires AllValid(cards)
    ensures g.cards == cards && ValidGroup(g)
  {
    Group(cards, CountsOfCards(cards))
  }

  /** A valid group is determined by its cards. */
  lemma ValidGroupIsGroupOf(g: Group)
    requires ValidGroup(g)
    ensures g == GroupOf(g.cards)
  {
  }

  /** `Group::new`: no cards, and the counts of zero decks. */
  function NewGroup(): (g: Group)
    ensures ValidGroup(g) && g.cards == [] && Total(g.cardCount) == 0
  {
    TotalsOfSingle(1);
    assert StateArray.DeckCounts(0) == EMPTY;
    Group([], StateArray.DeckCounts(0))
  }

  /** `Group::receive_card`: the card goes last and its value is counted. */
  function Receive(g: Group, card: Card): (r: Group)
    requires ValidGroup(g) && ValidCard(card)
    ensures ValidGroup(r) && r.cards == g.cards + [card]
  {
    var cards := g.cards + [card];
    assert cards[..|cards| - 1] == g.cards;
    Group(cards, Inc(g.cardCount, BlackjackValue(card)))
  }

  /** An empty group that receives two cards is the group of those two. */
  lemma ReceiveTwo(g: Group, a: Card, b: Card)
    requires ValidGroup(g) && g.cards == [] && ValidCard(a) && ValidCard(b)
    ensures Receive(Receive(g, a), b) == GroupOf([a, b])
  {
    var r := Receive(Receive(g, a), b);
    assert r.cards == [a, b];
    ValidGroupIsGroupOf(r);
  }

  /** Receiving a card counts its value once more. */
  lemma ReceiveCounts(g: Group, card: Card)
    requires ValidGroup(g) && ValidCard(card)
    ensures Receive(g, card).cardCount == Inc(g.cardCount, BlackjackValue(card))
  {
  }

  /** Receiving a card adds one to the number of cards. */
  lemma ReceiveTotal(g: Group, card: Card)
    requires ValidGroup(g) && ValidCard(card)
    ensures Total(Receive(g, card).cardCount) == Total(g.cardCount) + 1
  {
    IncValues(g.cardCount, BlackjackValue(card));
  }

  /** `Group::remove_card`: the last card comes off and is uncounted; an
      empty group panics on the `unwrap`. */
  function RemoveLast(g: Group): (r: (Group, Card))
    requires ValidGroup(g) && |g.cards| > 0
    ensures ValidGroup(r.0) && ValidCard(r.1) && g.cards == r.0.cards + [r.1]
  {
    var card := g.cards[|g.cards| - 1];
    var cards := g.cards[..|g.cards| - 1];
    assert g.cards == cards + [card];
    IncDec(CountsOfCards(cards), BlackjackValue(card));
    (Group(cards, Dec(g.cardCount, BlackjackValue(card))), card)
  }

  /** Removing the card just received gives the group back. */
  lemma RemoveAfterReceive(g: Group, card: Card)
    requires ValidGroup(g) && ValidCard(card)
    ensures RemoveLast(Receive(g, card)) == (g, card)
  {
    var r := RemoveLast(Receive(g, card));
    assert r.0.cards == g.cards;
  }

  /** Receiving the card just removed gives the group back. */
  lemma ReceiveAfterRemove(g: Group)
    requires ValidGroup(g) && |g.cards| > 0
    ensures Receive(RemoveLast(g).0, RemoveLast(g).1) == g
  {
  }

  /** A group's counts add up to its number of cards. */
  lemma GroupTotal(g: Group)
    requires ValidGroup(g)
    ensures IsCounts(g.cardCount) && Total(g.cardCount) == |g.cards|
  {
    CountsOfCardsTotal(g.cards);
  }

  /**
   * `f64 as u32`: the value truncated toward zero, saturating at the ends of
   * the range (a NaN, which exact reals cannot express, also gives 0).
   */
  function CastToU32(x: real): (r: int)
    ensures 0 <= r < U32_LIMIT
    ensures x < 0.0 ==> r == 0
    ensures x >= U32_LIMIT as real ==> r == U32_LIMIT - 1
    ensures 0.0 <= x < U32_LIMIT as real ==> r as real <= x < r as real + 1.0
  {
    if x < 0.0 then 0
    else if x >= U32_LIMIT as real then U32_LIMIT - 1
    else x.Floor
  }

  /** A whole number in range casts to itself. */
  lemma CastOfWhole(n: int)
    requires 0 <= n < U32_LIMIT
    ensures CastToU32(n as real) == n
  {
  }

  /** The cast is monotone: a larger product never pays less. */
  lemma CastMonotone(x: real, y: real)
    requires x <= y
    ensures CastToU32(x) <= CastToU32(y)
  {
  }

  /** The groups after group i received the card. */
  function ReceivedAt(gs: seq<GroupBetPair>, i: int, card: Card): (r: seq<GroupBetPair>)
    requires 0 <= i < |gs| && ValidGroup(gs[i].group) && ValidCard(card)
    ensures |r| == |gs| && r[i].group.cards == gs[i].group.cards + [card]
  {
    gs[i := gs[i].(group := Receive(gs[i].group, card))]
  }

  /** The group once its outcome is known: `determine_winning` replaces the
      bet by what it pays, the multiplier times the bet cast to `u32`. */
  function Settled(p: GroupBetPair, multiplier: real): (r: GroupBetPair)
    ensures r.group == p.group && r.winAlreadyDetermined && 0 <= r.bet < U32_LIMIT
  {
    p.(bet := CastToU32(p.bet as real * multiplier), winAlreadyDetermined := true)
  }

  /** All the cards of the player, one group per split hand. */
  class Hand {
    var groups: seq<GroupBetPair>

    /** There is always a first group, the one the bet is placed on. */
    predicate Valid()
      reads this
    {
      |groups| >= 1 && forall i :: 0 <= i < |groups| ==> ValidPair(groups[i])
    }

    /** `Hand::new`: one empty group with no bet. */
    constructor ()
      ensures Valid() && groups == [GroupBetPair(NewGroup(), 0, false)]
    {
      groups := [GroupBetPair(NewGroup(), 0, false)];
    }

    /** `receive_card`: the chosen group takes the card; the others do not
        change. */
    method ReceiveCard(groupIndex: int, card: Card)
      requires Valid() && 0 <= groupIndex < |groups| && ValidCard(card)
      modifies this
      ensures Valid()
      ensures groups == ReceivedAt(old(groups), groupIndex, card)
    {
      var p := groups[groupIndex];
      groups := groups[groupIndex := p.(group := Receive(p.group, card))];
    }

    /**
     * `split_group`: the last card of the chosen group moves to a new group
     * at the end, which carries the same bet and is not yet settled. The
     * Rust method pops with `unwrap`, so the group must hold a card.
     */
    method SplitGroup(groupIndex: int)
      requires Valid() && 0 <= groupIndex < |groups| && |groups[groupIndex].group.cards| > 0
      modifies this
      ensures Valid() && |groups| == |old(groups)| + 1
      ensures var p := old(groups)[groupIndex];
              groups == old(groups)[groupIndex := p.(group := RemoveLast(p.group).0)]
                        + [GroupBetPair(Receive(NewGroup(), RemoveLast(p.group).1), p.bet, false)]
    {
      var p := groups[groupIndex];
      var (rest, card) := RemoveLast(p.group);
      var newGroup := Receive(NewGroup(), card);
      groups := groups[groupIndex := p.(group := rest)];
      groups := groups + [GroupBetPair(newGroup, groups[groupIndex].bet, false)];
    }

    /** `double_down`: the chosen bet doubles. The `u32` multiplication
        overflows (a panic) past the range, so the bet must be below half. */
    method DoubleDown(groupIndex: int)
      requires Valid() && 0 <= groupIndex < |groups| && 2 * groups[groupIndex].bet < U32_LIMIT
      modifies this
      ensures Valid()
      ensures groups == old(groups)[groupIndex := old(groups)[groupIndex].(bet := 2 * old(groups)[groupIndex].bet)]
    {
      var p := groups[groupIndex];
      groups := groups[groupIndex := p.(bet := 2 * p.bet)];
    }

    function GetNumberOfGroups(): (n: int)
      requires Valid()
      reads this
      ensures n >= 1 && n == |groups|
    {
      |groups|
    }

    function GetBet(groupIndex: int): (bet: int)
      requires Valid() && 0 <= groupIndex < |groups|
      reads this
      ensures 0 <= bet < U32_LIMIT
    {
      groups[groupIndex].bet
    }

    /** `set_original_bet`: the bet of the first group. */
    method SetOriginalBet(bet: int)
      requires Valid() && 0 <= bet < U32_LIMIT
      modifies this
      ensures Valid() && groups == old(groups)[0 := old(groups)[0].(bet := bet)]
    {
      groups := groups[0 := groups[0].(bet := bet)];
    }

    /** `determine_winning`: the group is settled and its bet becomes the
        money it returns, the bet times the multiplier cast back to `u32`. */
    method DetermineWinning(groupIndex: int, multiplier: real)
      requires Valid() && 0 <= groupIndex < |groups|
      modifies this
      ensures Valid()
      ensures groups == old(groups)[groupIndex := Settled(old(groups)[groupIndex], multiplier)]
    {
      groups := groups[groupIndex := Settled(groups[groupIndex], multiplier)];
    }

    function IsWinningAlreadyDetermined(groupIndex: int): bool
      requires Valid() && 0 <= groupIndex < |groups|
      reads this
    {
      groups[groupIndex].winAlreadyDetermined
    }

    /** The cards of a group; all of them are valid cards. */
    function GetCards(groupIndex: int): (cards: seq<Card>)
      requires Valid() && 0 <= groupIndex < |groups|
      reads this
      ensures AllValid(cards)
    {
      groups[groupIndex].group.cards
    }

    /** The counts of a group, which are those of its cards. */
    function GetCardCounts(groupIndex: int): (counts: seq<int>)
      requires Valid() && 0 <= groupIndex < |groups|
      reads this
      ensures counts == CountsOfCards(GetCards(groupIndex))
      ensures IsCounts(counts) && Total(counts) == |GetCards(groupIndex)|
    {
      GroupTotal(groups[groupIndex].group);
      groups[groupIndex].group.cardCount
    }

    /** `clear`: the split groups are dropped one by one and the first group
        is emptied, leaving the hand as `new` makes it. */
    method Clear()
      requires Valid()
      modifies this
      ensures Valid() && groups == [GroupBetPair(NewGroup(), 0, false)]
    {
      while |groups| > 1
        invariant 1 <= |groups| <= |old(groups)| && groups == old(groups)[..|groups|]
        decreases |groups|
      {
        groups := groups[..|groups| - 1];
      }
      groups := groups[0 := groups[0].(group := NewGroup(), bet := 0, winAlreadyDetermined := false)];
    }
  }
}
