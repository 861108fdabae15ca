/**
 * The dealer-drawing recursion behind the split calculation
 * (blackjack/src/calculation/stand_odds.rs): starting from the dealer's up
 * card and the cards left in the shoe, the dealer draws until the table's
 * stand rule stops the dealer, and each ending is folded into a memo table of
 * values through four handler callbacks.
 *
 * `memoization_dealer_get_cards` memoises on the shoe but writes every result under the
 * dealer's extra hand, in the same table. DealerGetCards is that
 * recursion as written, MemoizationDealerGetCards its in-place
 * implementation; DealerGetCardsByHand keys both the check and the writes
 * by the extra hand, and SharedKeysGiveWrongValue exhibits a shoe on which
 * the two disagree.
 */
module StandOdds {
  import opened HandValue
  import opened StateArray
  import opened Rules
  import opened Wrappers

  /**
   * The callbacks of the handler trait, as functions from the old memo
   * entry to the new one: a dealer bust, a dealer standing on a value
   * (with the player's value), a dealer natural, and `add_assign_with_p`.
   */
  datatype Handler<!T> = Handler(bust: T -> T, normal: (T, int, int) -> T, natural: T -> T,
                                addWithP: (T, T, real) -> T)

  /** How the dealer's hand (up card plus extra hand) stands, as
      `memoization_dealer_get_cards` tests it. */
  datatype DealerEnd = EndBust | EndNormal(dealerSum: int) | EndNatural | MustHit

  /** The lowest soft total the dealer stands on. */
  function SoftLowerBound(rule: Rule): int
  {
    if rule.dealerHitOnSoft17 then 18 else 17
  }

  /** The case split of `memoization_dealer_get_cards` on the extra hand e and the up card. */
  function DealerEnding(rule: Rule, dealerUpCard: int, e: seq<int>): DealerEnd
    requires |e| == RANKS
  {
    var dealerSum := HardSum(e) + dealerUpCard;
    var isSoft := e[0] > 0 || dealerUpCard == 1;
    if dealerSum > 21 then EndBust
    else if dealerSum >= 17 then EndNormal(dealerSum)
    else if isSoft && dealerSum + 10 == 21 && Total(e) == 1 then EndNatural
    else if isSoft && SoftLowerBound(rule) <= dealerSum + 10 <= 21 then EndNormal(dealerSum + 10)
    else MustHit
  }

  /**
   * The dealer stands on a full hand when its best value is above 17, or is
   * 17 without being a soft 17 (an ace counted as 11) at a table that hits
   * soft 17.
   */
  predicate StandsOn(rule: Rule, d: seq<int>)
    requires |d| == RANKS
  {
    var v := ActualSum(d);
    v > 17 || (v == 17 && !(rule.dealerHitOnSoft17 && IsSoft(d) && HardSum(d) + 10 == 17))
  }

  /**
   * In terms of the dealer's full hand d (the extra hand plus the up card):
   * the dealer busts exactly when d busts, ends on a natural exactly when d is a
   * natural, otherwise ends normally exactly when the dealer stands on d, and then
   * on d's best value.
   */
  lemma DealerEndingMeaning(rule: Rule, dealerUpCard: int, e: seq<int>)
    requires IsCounts(e) && 1 <= dealerUpCard <= 10
    ensures var d := Inc(e, dealerUpCard);
            var r := DealerEnding(rule, dealerUpCard, e);
            (r == EndBust <==> Bust(d))
            && (r == EndNatural <==> IsNatural(d))
            && (r.EndNormal? <==> !Bust(d) && !IsNatural(d) && StandsOn(rule, d))
            && (r.EndNormal? ==> r.dealerSum == ActualSum(d))
  {
    var d := Inc(e, dealerUpCard);
    IncValues(e, dealerUpCard);
    NaturalIsAceAndTen(d);
    CountsBounds(e);
    TotalTen(e);
    HardSumTen(e);
  }

  // ---------------------------------------------------------------------
  // Drawing weights
  // ---------------------------------------------------------------------

  /** The rank ranges the recursion is instantiated with: all ranks, or all
      but the ten or the ace that the dealer's peek ruled out of the hole. */
  predicate DrawRange(lo: int, hi: int)
  {
    (lo == 1 && hi == 10) || (lo == 2 && hi == 10) || (lo == 1 && hi == 9)
  }

  /** The number of cards of ranks lo..hi. */
  function RangeCount(s: seq<int>, lo: int, hi: int): int
    requires |s| == RANKS && 1 <= lo && hi <= 10
    decreases hi - lo + 1
  {
    if lo > hi then 0 else s[lo - 1] + RangeCount(s, lo + 1, hi)
  }

  /** The cards the draws are spread over: the shoe's total less the count
      of the excluded rank, which is exactly the number of cards of the
      drawable ranks. */
  function ValidTotal(s: seq<int>, lo: int, hi: int): (v: int)
    requires |s| == RANKS && DrawRange(lo, hi)
    ensures v == RangeCount(s, lo, hi)
  {
    TotalTen(s);
    assert RangeCount(s, 10, 10) == s[9];
    assert RangeCount(s, 9, hi) == s[8] + RangeCount(s, 10, hi);
    assert RangeCount(s, 8, hi) == s[7] + RangeCount(s, 9, hi);
    assert RangeCount(s, 7, hi) == s[6] + RangeCount(s, 8, hi);
    assert RangeCount(s, 6, hi) == s[5] + RangeCount(s, 7, hi);
    assert RangeCount(s, 5, hi) == s[4] + RangeCount(s, 6, hi);
    assert RangeCount(s, 4, hi) == s[3] + RangeCount(s, 5, hi);
    assert RangeCount(s, 3, hi) == s[2] + RangeCount(s, 4, hi);
    assert RangeCount(s, 2, hi) == s[1] + RangeCount(s, 3, hi);
    Total(s) - (if hi < 10 then s[9] else if lo > 1 then s[0] else 0)
  }

  /** The sum of the drawing weights of ranks lo..hi. */
  function WeightSum(s: seq<int>, lo: int, hi: int, validTotal: real): real
    requires |s| == RANKS && 1 <= lo && hi <= 10 && validTotal != 0.0
    decreases hi - lo + 1
  {
    if lo > hi then 0.0 else s[lo - 1] as real / validTotal + WeightSum(s, lo + 1, hi, validTotal)
  }

  lemma {:induction false} WeightSumIsRangeCount(s: seq<int>, lo: int, hi: int, validTotal: real)
    requires |s| == RANKS && 1 <= lo && hi <= 10 && validTotal != 0.0
    ensures WeightSum(s, lo, hi, validTotal) == RangeCount(s, lo, hi) as real / validTotal
    decreases hi - lo + 1
  {
    if lo <= hi {
      WeightSumIsRangeCount(s, lo + 1, hi, validTotal);
      SumOfQuotients(s[lo - 1] as real, RangeCount(s, lo + 1, hi) as real, validTotal);
    }
  }

  lemma SumOfQuotients(a: real, b: real, v: real)
    requires v != 0.0
    ensures a / v + b / v == (a + b) / v
  {
  }

  lemma QuotientOfItself(v: real)
    requires v != 0.0
    ensures v / v == 1.0
  {
  }

  lemma {:induction false} RangeCountNonNegative(s: seq<int>, lo: int, hi: int)
    requires IsCounts(s) && 1 <= lo && hi <= 10
    ensures RangeCount(s, lo, hi) >= 0
    decreases hi - lo + 1
  {
    if lo <= hi {
      RangeCountNonNegative(s, lo + 1, hi);
    }
  }

  /** The drawing weights of the ranks lo..hi sum to 1 whenever some card
      can be drawn. */
  lemma WeightsSumToOne(s: seq<int>, lo: int, hi: int)
    requires |s| == RANKS && DrawRange(lo, hi) && ValidTotal(s, lo, hi) > 0
    ensures WeightSum(s, lo, hi, ValidTotal(s, lo, hi) as real) == 1.0
  {
    var v := ValidTotal(s, lo, hi) as real;
    WeightSumIsRangeCount(s, lo, hi, v);
    assert RangeCount(s, lo, hi) as real == v;
    QuotientOfItself(v);
  }

  // ---------------------------------------------------------------------
  // The recursion as written
  // ---------------------------------------------------------------------

  /** `IndexMut` read: the entry, or the default the access inserts. */
  function Entry<T>(m: map<int, T>, k: int, default: T): T
  {
    if k in m then m[k] else default
  }

  /** Writes the ending of the extra hand e under e's key. */
  function WriteEnding<T>(hd: Handler<T>, playerSum: int, m: map<int, T>, e: seq<int>, default: T,
                          ending: DealerEnd): map<int, T>
    requires |e| == RANKS && !ending.MustHit?
  {
    var cur := Entry(m, Key(e), default);
    match ending
    case EndBust => m[Key(e) := hd.bust(cur)]
    case EndNormal(v) => m[Key(e) := hd.normal(cur, v, playerSum)]
    case EndNatural => m[Key(e) := hd.natural(cur)]
  }

  /**
   * `memoization_dealer_get_cards` from shoe s and extra hand e on table m,
   * drawing ranks lo..hi; the children draw from all ranks. The shoe's key
   * guards the call and receives the default; the ending and the
   * accumulation of the draws go under the extra hand's key. None is the
   * panic of reading a child's entry that is not in the table.
   */
  function DealerGetCards<T>(hd: Handler<T>, rule: Rule, playerSum: int, dealerUpCard: int,
                             s: seq<int>, e: seq<int>, lo: int, hi: int, m: map<int, T>, default: T)
    : Option<map<int, T>>
    requires IsCounts(s) && IsCounts(e) && DrawRange(lo, hi)
    decreases Total(s), 1, 0
  {
    if Key(s) in m then Some(m)
    else
      var m1 := m[Key(s) := default];
      var ending := DealerEnding(rule, dealerUpCard, e);
      if !ending.MustHit? then Some(WriteEnding(hd, playerSum, m1, e, default, ending))
      else DealerDraws(hd, rule, playerSum, dealerUpCard, s, e, lo, hi, ValidTotal(s, lo, hi), m1, default)
  }

  /** The draw loop from rank `card` to `hi`. */
  function DealerDraws<T>(hd: Handler<T>, rule: Rule, playerSum: int, dealerUpCard: int,
                          s: seq<int>, e: seq<int>, card: int, hi: int, validTotal: int,
                          m: map<int, T>, default: T)
    : Option<map<int, T>>
    requires IsCounts(s) && IsCounts(e) && 1 <= card && hi <= 10
    requires RangeCount(s, card, hi) <= validTotal
    decreases Total(s), 0, 11 - card
  {
    if card > hi then Some(m)
    else if s[card - 1] == 0 then DealerDraws(hd, rule, playerSum, dealerUpCard, s, e, card + 1, hi,
                                              validTotal, m, default)
    else
      CountsBounds(s);
      DecValues(s, card);
      RangeCountNonNegative(s, card + 1, hi);
      var next := Inc(e, card);
      match DealerGetCards(hd, rule, playerSum, dealerUpCard, Dec(s, card), next, 1, 10, m, default)
      case None => None
      case Some(m2) =>
        if Key(next) !in m2 then None
        else
          var p := s[card - 1] as real / validTotal as real;
          var m3 := m2[Key(e) := hd.addWithP(Entry(m2, Key(e), default), m2[Key(next)], p)];
          DealerDraws(hd, rule, playerSum, dealerUpCard, s, e, card + 1, hi, validTotal, m3, default)
  }

  /** Entries are only ever added, and the shoe's key is always there
      afterwards. */
  lemma {:induction false} DealerGetCardsKeys<T>(hd: Handler<T>, rule: Rule, playerSum: int, dealerUpCard: int,
                                                 s: seq<int>, e: seq<int>, lo: int, hi: int,
                                                 m: map<int, T>, default: T)
    requires IsCounts(s) && IsCounts(e) && DrawRange(lo, hi)
    ensures var r := DealerGetCards(hd, rule, playerSum, dealerUpCard, s, e, lo, hi, m, default);
            r.Some? ==> m.Keys <= r.value.Keys && Key(s) in r.value
    decreases Total(s), 1, 0
  {
    if Key(s) !in m && DealerEnding(rule, dealerUpCard, e).MustHit? {
      DealerDrawsKeys(hd, rule, playerSum, dealerUpCard, s, e, lo, hi, ValidTotal(s, lo, hi),
                      m[Key(s) := default], default);
    }
  }

  lemma {:induction false} DealerDrawsKeys<T>(hd: Handler<T>, rule: Rule, playerSum: int, dealerUpCard: int,
                                              s: seq<int>, e: seq<int>, card: int, hi: int, validTotal: int,
                                              m: map<int, T>, default: T)
    requires IsCounts(s) && IsCounts(e) && 1 <= card && hi <= 10
    requires RangeCount(s, card, hi) <= validTotal
    ensures var r := DealerDraws(hd, rule, playerSum, dealerUpCard, s, e, card, hi, validTotal, m, default);
            r.Some? ==> m.Keys <= r.value.Keys
    decreases Total(s), 0, 11 - card
  {
    if card <= hi {
      if s[card - 1] == 0 {
        DealerDrawsKeys(hd, rule, playerSum, dealerUpCard, s, e, card + 1, hi, validTotal, m, default);
      } else {
        CountsBounds(s);
        DecValues(s, card);
        RangeCountNonNegative(s, card + 1, hi);
        var next := Inc(e, card);
        var child := DealerGetCards(hd, rule, playerSum, dealerUpCard, Dec(s, card), next, 1, 10, m, default);
        DealerGetCardsKeys(hd, rule, playerSum, dealerUpCard, Dec(s, card), next, 1, 10, m, default);
        if child.Some? && Key(next) in child.value {
          var m2 := child.value;
          var p := s[card - 1] as real / validTotal as real;
          var m3 := m2[Key(e) := hd.addWithP(Entry(m2, Key(e), default), m2[Key(next)], p)];
          DealerDrawsKeys(hd, rule, playerSum, dealerUpCard, s, e, card + 1, hi, validTotal, m3, default);
        }
      }
    }
  }

  /**
   * The recursion in place: the shoe and the extra hand are changed card by
   * card and restored. The result is false exactly when the Rust recursion panics,
   * and otherwise the table is what DealerGetCards gives and both
   * containers hold their entry values again.
   */
  method MemoizationDealerGetCards<T>(hd: Handler<T>, rule: Rule, playerSum: int, dealerUpCard: int,
                                      lo: int, hi: int, currentShoe: CardCount, dealerExtraHand: CardCount,
                                      odds: SingleStateArray<T>)
    returns (ok: bool)
    requires currentShoe.Valid() && dealerExtraHand.Valid() && Disjoint(currentShoe, dealerExtraHand)
    requires DrawRange(lo, hi)
    modifies currentShoe, currentShoe.counts, dealerExtraHand, dealerExtraHand.counts, odds
    ensures var r := DealerGetCards(hd, rule, playerSum, dealerUpCard, old(currentShoe.Counts()),
                                    old(dealerExtraHand.Counts()), lo, hi, old(odds.data), odds.default);
            (ok <==> r.Some?) && (ok ==> odds.data == r.value)
    ensures ok ==> currentShoe.Valid() && dealerExtraHand.Valid()
                   && currentShoe.Counts() == old(currentShoe.Counts())
                   && dealerExtraHand.Counts() == old(dealerExtraHand.Counts())
    decreases Total(currentShoe.Counts()), 2
  {
    ghost var s, e := currentShoe.Counts(), dealerExtraHand.Counts();
    if odds.ContainsState(currentShoe) {
      return true;
    }
    odds.Set(currentShoe, odds.default);
    ghost var m1 := odds.data;
    ghost var ending := DealerEnding(rule, dealerUpCard, e);
    var dealerSum := dealerExtraHand.GetSum() + dealerUpCard;
    var isSoft := dealerExtraHand.IsSoft() || dealerUpCard == 1;
    if dealerSum > 21 {
      assert ending == EndBust;
      var cur := odds.IndexMut(dealerExtraHand);
      odds.Set(dealerExtraHand, hd.bust(cur));
      assert odds.data == WriteEnding(hd, playerSum, m1, e, odds.default, ending);
      return true;
    }
    if dealerSum >= 17 {
      assert ending == EndNormal(dealerSum);
      var cur := odds.IndexMut(dealerExtraHand);
      odds.Set(dealerExtraHand, hd.normal(cur, dealerSum, playerSum));
      assert odds.data == WriteEnding(hd, playerSum, m1, e, odds.default, ending);
      return true;
    }
    if isSoft {
      if dealerSum + 10 == 21 && dealerExtraHand.GetTotal() == 1 {
        assert ending == EndNatural;
        var cur := odds.IndexMut(dealerExtraHand);
        odds.Set(dealerExtraHand, hd.natural(cur));
        assert odds.data == WriteEnding(hd, playerSum, m1, e, odds.default, ending);
        return true;
      }
      var lowerBound := if rule.dealerHitOnSoft17 then 18 else 17;
      if dealerSum + 10 >= lowerBound && dealerSum + 10 <= 21 {
        assert ending == EndNormal(dealerSum + 10);
        var cur := odds.IndexMut(dealerExtraHand);
        odds.Set(dealerExtraHand, hd.normal(cur, dealerSum + 10, playerSum));
        assert odds.data == WriteEnding(hd, playerSum, m1, e, odds.default, ending);
        return true;
      }
    }
    assert ending == MustHit;
    ok := DealerDrawLoop(hd, rule, playerSum, dealerUpCard, lo, hi, currentShoe, dealerExtraHand, odds);
  }

  /** The hit branch: the loop over the drawable ranks. */
  method DealerDrawLoop<T>(hd: Handler<T>, rule: Rule, playerSum: int, dealerUpCard: int,
                           lo: int, hi: int, currentShoe: CardCount, dealerExtraHand: CardCount,
                           odds: SingleStateArray<T>)
    returns (ok: bool)
    requires currentShoe.Valid() && dealerExtraHand.Valid() && Disjoint(currentShoe, dealerExtraHand)
    requires DrawRange(lo, hi)
    modifies currentShoe, currentShoe.counts, dealerExtraHand, dealerExtraHand.counts, odds
    ensures var s := old(currentShoe.Counts());
            var r := DealerDraws(hd, rule, playerSum, dealerUpCard, s, old(dealerExtraHand.Counts()), lo, hi,
                                 ValidTotal(s, lo, hi), old(odds.data), odds.default);
            (ok <==> r.Some?) && (ok ==> odds.data == r.value)
    ensures ok ==> currentShoe.Valid() && dealerExtraHand.Valid()
                   && currentShoe.Counts() == old(currentShoe.Counts())
                   && dealerExtraHand.Counts() == old(dealerExtraHand.Counts())
    decreases Total(currentShoe.Counts()), 1
  {
    ghost var s, e := currentShoe.Counts(), dealerExtraHand.Counts();
    var excluded := if hi < 10 then currentShoe.Count(10) else if lo > 1 then currentShoe.Count(1) else 0;
    var validTotal := currentShoe.GetTotal() - excluded;
    assert validTotal == ValidTotal(s, lo, hi);
    ghost var goal := DealerDraws(hd, rule, playerSum, dealerUpCard, s, e, lo, hi, validTotal, odds.data,
                                  odds.default);
    var card := lo;
    while card <= hi
      invariant lo <= card <= hi + 1 && RangeCount(s, card, hi) <= validTotal
      invariant currentShoe.Valid() && dealerExtraHand.Valid()
      invariant currentShoe.Counts() == s && dealerExtraHand.Counts() == e
      invariant DealerDraws(hd, rule, playerSum, dealerUpCard, s, e, card, hi, validTotal, odds.data,
                            odds.default) == goal
      decreases hi + 1 - card
    {
      var stepOk := DealerDrawCard(hd, rule, playerSum, dealerUpCard, card, hi, validTotal, currentShoe,
                                   dealerExtraHand, odds);
      if !stepOk {
        return false;
      }
      card := card + 1;
    }
    return true;
  }

  /** One drawn rank of the loop: remove it from the shoe, give it to the
      dealer, recurse, take it back, and accumulate the child's entry with
      the rank's weight. */
  method DealerDrawCard<T>(hd: Handler<T>, rule: Rule, playerSum: int, dealerUpCard: int, card: int, hi: int,
                           validTotal: int, currentShoe: CardCount, dealerExtraHand: CardCount,
                           odds: SingleStateArray<T>)
    returns (ok: bool)
    requires currentShoe.Valid() && dealerExtraHand.Valid() && Disjoint(currentShoe, dealerExtraHand)
    requires 1 <= card <= hi <= 10 && RangeCount(currentShoe.Counts(), card, hi) <= validTotal
    modifies currentShoe, currentShoe.counts, dealerExtraHand, dealerExtraHand.counts, odds
    ensures RangeCount(old(currentShoe.Counts()), card + 1, hi) <= validTotal
    ensures var s, e := old(currentShoe.Counts()), old(dealerExtraHand.Counts());
            var r := DealerDraws(hd, rule, playerSum, dealerUpCard, s, e, card, hi, validTotal, old(odds.data),
                                 odds.default);
            (!ok ==> r.None?)
            && (ok ==> currentShoe.Valid() && dealerExtraHand.Valid()
                       && currentShoe.Counts() == s && dealerExtraHand.Counts() == e
                       && r == DealerDraws(hd, rule, playerSum, dealerUpCard, s, e, card + 1, hi, validTotal,
                                           odds.data, odds.default))
    decreases Total(currentShoe.Counts()), 0
  {
    ghost var s, e, m := currentShoe.Counts(), dealerExtraHand.Counts(), odds.data;
    RangeCountNonNegative(s, card + 1, hi);
    if currentShoe.Count(card) == 0 {
      return true;
    }
    CountsBounds(s);
    DecValues(s, card);
    ghost var next := Inc(e, card);
    ghost var child := DealerGetCards(hd, rule, playerSum, dealerUpCard, Dec(s, card), next, 1, 10, m,
                                      odds.default);
    ghost var r := DealerDraws(hd, rule, playerSum, dealerUpCard, s, e, card, hi, validTotal, m, odds.default);
    currentShoe.RemoveCard(card);
    dealerExtraHand.AddCard(card);
    ok := MemoizationDealerGetCards(hd, rule, playerSum, dealerUpCard, 1, 10, currentShoe, dealerExtraHand, odds);
    if !ok {
      assert child.None? && r.None?;
      return;
    }
    ghost var m2 := odds.data;
    assert child == Some(m2);
    if !odds.ContainsState(dealerExtraHand) {
      assert r.None?;
      return false;
    }
    var nextStateOdds := odds.Index(dealerExtraHand);
    dealerExtraHand.RemoveCard(card);
    currentShoe.AddCard(card);
    IncDec(e, card);
    IncDec(s, card);
    var p := currentShoe.Count(card) as real / validTotal as real;
    var cur := odds.IndexMut(dealerExtraHand);
    odds.Set(dealerExtraHand, hd.addWithP(cur, nextStateOdds, p));
    assert odds.data == m2[Key(e) := hd.addWithP(Entry(m2, Key(e), odds.default), m2[Key(next)], p)];
    assert r == DealerDraws(hd, rule, playerSum, dealerUpCard, s, e, card + 1, hi, validTotal, odds.data,
                            odds.default);
  }

  // ---------------------------------------------------------------------
  // Keyed by the extra hand
  // ---------------------------------------------------------------------

  /** The recursion with the memo check and the default insert keyed by the
      extra hand, like every write. */
  function DealerGetCardsByHand<T>(hd: Handler<T>, rule: Rule, playerSum: int, dealerUpCard: int,
                                   s: seq<int>, e: seq<int>, lo: int, hi: int, m: map<int, T>, default: T)
    : Option<map<int, T>>
    requires IsCounts(s) && IsCounts(e) && DrawRange(lo, hi)
    decreases Total(s), 1, 0
  {
    if Key(e) in m then Some(m)
    else
      var m1 := m[Key(e) := default];
      var ending := DealerEnding(rule, dealerUpCard, e);
      if !ending.MustHit? then Some(WriteEnding(hd, playerSum, m1, e, default, ending))
      else DealerDrawsByHand(hd, rule, playerSum, dealerUpCard, s, e, lo, hi, ValidTotal(s, lo, hi), m1, default)
  }

  function DealerDrawsByHand<T>(hd: Handler<T>, rule: Rule, playerSum: int, dealerUpCard: int,
                                s: seq<int>, e: seq<int>, card: int, hi: int, validTotal: int,
                                m: map<int, T>, default: T)
    : Option<map<int, T>>
    requires IsCounts(s) && IsCounts(e) && 1 <= card && hi <= 10
    requires RangeCount(s, card, hi) <= validTotal
    decreases Total(s), 0, 11 - card
  {
    if card > hi then Some(m)
    else if s[card - 1] == 0 then DealerDrawsByHand(hd, rule, playerSum, dealerUpCard, s, e, card + 1, hi,
                                                    validTotal, m, default)
    else
      CountsBounds(s);
      DecValues(s, card);
      RangeCountNonNegative(s, card + 1, hi);
      var next := Inc(e, card);
      match DealerGetCardsByHand(hd, rule, playerSum, dealerUpCard, Dec(s, card), next, 1, 10, m, default)
      case None => None
      case Some(m2) =>
        if Key(next) !in m2 then None
        else
          var p := s[card - 1] as real / validTotal as real;
          var m3 := m2[Key(e) := hd.addWithP(Entry(m2, Key(e), default), m2[Key(next)], p)];
          DealerDrawsByHand(hd, rule, playerSum, dealerUpCard, s, e, card + 1, hi, validTotal, m3, default)
  }

  /** Keyed by the extra hand, every read of a child's entry finds it: the
      recursion never panics, and the extra hand's entry is always there
      afterwards. */
  lemma {:induction false} ByHandNeverPanics<T>(hd: Handler<T>, rule: Rule, playerSum: int, dealerUpCard: int,
                                                s: seq<int>, e: seq<int>, lo: int, hi: int,
                                                m: map<int, T>, default: T)
    requires IsCounts(s) && IsCounts(e) && DrawRange(lo, hi)
    ensures var r := DealerGetCardsByHand(hd, rule, playerSum, dealerUpCard, s, e, lo, hi, m, default);
            r.Some? && m.Keys <= r.value.Keys && Key(e) in r.value
    decreases Total(s), 1, 0
  {
    if Key(e) !in m && DealerEnding(rule, dealerUpCard, e).MustHit? {
      DrawsByHandNeverPanic(hd, rule, playerSum, dealerUpCard, s, e, lo, hi, ValidTotal(s, lo, hi),
                            m[Key(e) := default], default);
    }
  }

  lemma {:induction false} DrawsByHandNeverPanic<T>(hd: Handler<T>, rule: Rule, playerSum: int,
                                                    dealerUpCard: int, s: seq<int>, e: seq<int>, card: int,
                                                    hi: int, validTotal: int, m: map<int, T>, default: T)
    requires IsCounts(s) && IsCounts(e) && 1 <= card && hi <= 10
    requires RangeCount(s, card, hi) <= validTotal
    ensures var r := DealerDrawsByHand(hd, rule, playerSum, dealerUpCard, s, e, card, hi, validTotal, m, default);
            r.Some? && m.Keys <= r.value.Keys
    decreases Total(s), 0, 11 - card
  {
    if card <= hi {
      if s[card - 1] == 0 {
        DrawsByHandNeverPanic(hd, rule, playerSum, dealerUpCard, s, e, card + 1, hi, validTotal, m, default);
      } else {
        CountsBounds(s);
        DecValues(s, card);
        RangeCountNonNegative(s, card + 1, hi);
        var next := Inc(e, card);
        ByHandNeverPanics(hd, rule, playerSum, dealerUpCard, Dec(s, card), next, 1, 10, m, default);
        var m2 := DealerGetCardsByHand(hd, rule, playerSum, dealerUpCard, Dec(s, card), next, 1, 10, m,
                                       default).value;
        var p := s[card - 1] as real / validTotal as real;
        var m3 := m2[Key(e) := hd.addWithP(Entry(m2, Key(e), default), m2[Key(next)], p)];
        DrawsByHandNeverPanic(hd, rule, playerSum, dealerUpCard, s, e, card + 1, hi, validTotal, m3, default);
      }
    }
  }

  /**
   * The recursion keyed by the extra hand, in place: the shoe and the extra
   * hand are changed card by card and restored, and the table ends as
   * DealerGetCardsByHand gives it.
   */
  method MemoizationDealerGetCardsByHand<T>(hd: Handler<T>, rule: Rule, playerSum: int, dealerUpCard: int,
                                            lo: int, hi: int, currentShoe: CardCount, dealerExtraHand: CardCount,
                                            odds: SingleStateArray<T>)
    requires currentShoe.Valid() && dealerExtraHand.Valid() && Disjoint(currentShoe, dealerExtraHand)
    requires DrawRange(lo, hi)
    modifies currentShoe, currentShoe.counts, dealerExtraHand, dealerExtraHand.counts, odds
    ensures DealerGetCardsByHand(hd, rule, playerSum, dealerUpCard, old(currentShoe.Counts()),
                                 old(dealerExtraHand.Counts()), lo, hi, old(odds.data), odds.default)
            == Some(odds.data)
    ensures currentShoe.Valid() && dealerExtraHand.Valid()
            && currentShoe.Counts() == old(currentShoe.Counts())
            && dealerExtraHand.Counts() == old(dealerExtraHand.Counts())
    decreases Total(currentShoe.Counts()), 2
  {
    ghost var s, e := currentShoe.Counts(), dealerExtraHand.Counts();
    if odds.ContainsState(dealerExtraHand) {
      return;
    }
    odds.Set(dealerExtraHand, odds.default);
    ghost var m1 := odds.data;
    ghost var ending := DealerEnding(rule, dealerUpCard, e);
    var dealerSum := dealerExtraHand.GetSum() + dealerUpCard;
    var isSoft := dealerExtraHand.IsSoft() || dealerUpCard == 1;
    if dealerSum > 21 {
      assert ending == EndBust;
      var cur := odds.IndexMut(dealerExtraHand);
      odds.Set(dealerExtraHand, hd.bust(cur));
      assert odds.data == WriteEnding(hd, playerSum, m1, e, odds.default, ending);
      return;
    }
    if dealerSum >= 17 {
      assert ending == EndNormal(dealerSum);
      var cur := odds.IndexMut(dealerExtraHand);
      odds.Set(dealerExtraHand, hd.normal(cur, dealerSum, playerSum));
      assert odds.data == WriteEnding(hd, playerSum, m1, e, odds.default, ending);
      return;
    }
    if isSoft {
      if dealerSum + 10 == 21 && dealerExtraHand.GetTotal() == 1 {
        assert ending == EndNatural;
        var cur := odds.IndexMut(dealerExtraHand);
        odds.Set(dealerExtraHand, hd.natural(cur));
        assert odds.data == WriteEnding(hd, playerSum, m1, e, odds.default, ending);
        return;
      }
      var lowerBound := if rule.dealerHitOnSoft17 then 18 else 17;
      if dealerSum + 10 >= lowerBound && dealerSum + 10 <= 21 {
        assert ending == EndNormal(dealerSum + 10);
        var cur := odds.IndexMut(dealerExtraHand);
        odds.Set(dealerExtraHand, hd.normal(cur, dealerSum + 10, playerSum));
        assert odds.data == WriteEnding(hd, playerSum, m1, e, odds.default, ending);
        return;
      }
    }
    assert ending == MustHit;
    DealerDrawLoopByHand(hd, rule, playerSum, dealerUpCard, lo, hi, currentShoe, dealerExtraHand, odds);
  }

  /** The hit branch keyed by the extra hand: the loop over the drawable ranks. */
  method DealerDrawLoopByHand<T>(hd: Handler<T>, rule: Rule, playerSum: int, dealerUpCard: int,
                                 lo: int, hi: int, currentShoe: CardCount, dealerExtraHand: CardCount,
                                 odds: SingleStateArray<T>)
    requires currentShoe.Valid() && dealerExtraHand.Valid() && Disjoint(currentShoe, dealerExtraHand)
    requires DrawRange(lo, hi)
    modifies currentShoe, currentShoe.counts, dealerExtraHand, dealerExtraHand.counts, odds
    ensures var s := old(currentShoe.Counts());
            DealerDrawsByHand(hd, rule, playerSum, dealerUpCard, s, old(dealerExtraHand.Counts()), lo, hi,
                              ValidTotal(s, lo, hi), old(odds.data), odds.default)
            == Some(odds.data)
    ensures currentShoe.Valid() && dealerExtraHand.Valid()
            && currentShoe.Counts() == old(currentShoe.Counts())
            && dealerExtraHand.Counts() == old(dealerExtraHand.Counts())
    decreases Total(currentShoe.Counts()), 1
  {
    ghost var s, e := currentShoe.Counts(), dealerExtraHand.Counts();
    var excluded := if hi < 10 then currentShoe.Count(10) else if lo > 1 then currentShoe.Count(1) else 0;
    var validTotal := currentShoe.GetTotal() - excluded;
    assert validTotal == ValidTotal(s, lo, hi);
    ghost var goal := DealerDrawsByHand(hd, rule, playerSum, dealerUpCard, s, e, lo, hi, validTotal, odds.data,
                                        odds.default);
    var card := lo;
    while card <= hi
      invariant lo <= card <= hi + 1 && RangeCount(s, card, hi) <= validTotal
      invariant currentShoe.Valid() && dealerExtraHand.Valid()
      invariant currentShoe.Counts() == s && dealerExtraHand.Counts() == e
      invariant DealerDrawsByHand(hd, rule, playerSum, dealerUpCard, s, e, card, hi, validTotal, odds.data,
                                  odds.default) == goal
      decreases hi + 1 - card
    {
      DealerDrawCardByHand(hd, rule, playerSum, dealerUpCard, card, hi, validTotal, currentShoe,
                           dealerExtraHand, odds);
      card := card + 1;
    }
  }

  /** One drawn rank of the loop keyed by the extra hand. */
  method DealerDrawCardByHand<T>(hd: Handler<T>, rule: Rule, playerSum: int, dealerUpCard: int, card: int, hi: int,
                                 validTotal: int, currentShoe: CardCount, dealerExtraHand: CardCount,
                                 odds: SingleStateArray<T>)
    requires currentShoe.Valid() && dealerExtraHand.Valid() && Disjoint(currentShoe, dealerExtraHand)
    requires 1 <= card <= hi <= 10 && RangeCount(currentShoe.Counts(), card, hi) <= validTotal
    modifies currentShoe, currentShoe.counts, dealerExtraHand, dealerExtraHand.counts, odds
    ensures RangeCount(old(currentShoe.Counts()), card + 1, hi) <= validTotal
    ensures var s, e := old(currentShoe.Counts()), old(dealerExtraHand.Counts());
            DealerDrawsByHand(hd, rule, playerSum, dealerUpCard, s, e, card, hi, validTotal, old(odds.data),
                              odds.default)
            == DealerDrawsByHand(hd, rule, playerSum, dealerUpCard, s, e, card + 1, hi, validTotal,
                                 odds.data, odds.default)
    ensures currentShoe.Valid() && dealerExtraHand.Valid()
            && currentShoe.Counts() == old(currentShoe.Counts())
            && dealerExtraHand.Counts() == old(dealerExtraHand.Counts())
    decreases Total(currentShoe.Counts()), 0
  {
    ghost var s, e, m := currentShoe.Counts(), dealerExtraHand.Counts(), odds.data;
    RangeCountNonNegative(s, card + 1, hi);
    if currentShoe.Count(card) == 0 {
      return;
    }
    CountsBounds(s);
    DecValues(s, card);
    ghost var next := Inc(e, card);
    ghost var r := DealerDrawsByHand(hd, rule, playerSum, dealerUpCard, s, e, card, hi, validTotal, m,
                                     odds.default);
    ByHandNeverPanics(hd, rule, playerSum, dealerUpCard, Dec(s, card), next, 1, 10, m, odds.default);
    currentShoe.RemoveCard(card);
    dealerExtraHand.AddCard(card);
    MemoizationDealerGetCardsByHand(hd, rule, playerSum, dealerUpCard, 1, 10, currentShoe, dealerExtraHand, odds);
    ghost var m2 := odds.data;
    assert DealerGetCardsByHand(hd, rule, playerSum, dealerUpCard, Dec(s, card), next, 1, 10, m, odds.default)
           == Some(m2);
    var nextStateOdds := odds.Index(dealerExtraHand);
    dealerExtraHand.RemoveCard(card);
    currentShoe.AddCard(card);
    IncDec(e, card);
    IncDec(s, card);
    var p := currentShoe.Count(card) as real / validTotal as real;
    var cur := odds.IndexMut(dealerExtraHand);
    odds.Set(dealerExtraHand, hd.addWithP(cur, nextStateOdds, p));
    assert odds.data == m2[Key(e) := hd.addWithP(Entry(m2, Key(e), odds.default), m2[Key(next)], p)];
  }

  // ---------------------------------------------------------------------
  // A shoe on which the shared keys give a wrong value
  // ---------------------------------------------------------------------

  /** A handler whose value is the dealer's expected final hard value. */
  function ExpectedValueHandler(): Handler<real>
  {
    Handler(t => 0.0, (t, v, p) => v as real, t => 0.0, (t, r, p) => t + p * r)
  }

  const SEVEN: seq<int> := [0, 0, 0, 0, 0, 0, 1, 0, 0, 0]
  const EIGHT: seq<int> := [0, 0, 0, 0, 0, 0, 0, 1, 0, 0]
  const SEVEN_EIGHT: seq<int> := [0, 0, 0, 0, 0, 0, 1, 1, 0, 0]

  lemma SmallKeys()
    ensures Key(EMPTY) == 0
    ensures Key(SEVEN) == 88245939632761
    ensures Key(EIGHT) == 18619893262512571
    ensures Key(SEVEN_EIGHT) == 18708139202145332
  {
    Fingerprint.DotTen(EMPTY, POW_BASE);
    Fingerprint.DotTen(SEVEN, POW_BASE);
    Fingerprint.DotTen(EIGHT, POW_BASE);
    Fingerprint.DotTen(SEVEN_EIGHT, POW_BASE);
  }

  /** Keyed by the extra hand, the child that is dealt the 7 stands on 17. */
  lemma ByHandSevenChild(rule: Rule)
    requires !rule.dealerHitOnSoft17
    ensures DealerGetCardsByHand(ExpectedValueHandler(), rule, 0, 10, EIGHT, SEVEN, 1, 10, map[0 := 0.0], 0.0)
            == Some(map[0 := 0.0, 88245939632761 := 17.0])
  {
    SmallKeys();
    TotalTen(SEVEN);
    HardSumTen(SEVEN);
    assert DealerEnding(rule, 10, SEVEN) == EndNormal(17);
    assert WriteEnding(ExpectedValueHandler(), 0, map[0 := 0.0, 88245939632761 := 0.0], SEVEN, 0.0, EndNormal(17))
           == map[0 := 0.0, 88245939632761 := 17.0];
  }

  /** Keyed by the extra hand, the child that is dealt the 8 stands on 18. */
  lemma ByHandEightChild(rule: Rule)
    requires !rule.dealerHitOnSoft17
    ensures DealerGetCardsByHand(ExpectedValueHandler(), rule, 0, 10, SEVEN, EIGHT, 1, 10,
                                 map[0 := 8.5, 88245939632761 := 17.0], 0.0)
            == Some(map[0 := 8.5, 88245939632761 := 17.0, 18619893262512571 := 18.0])
  {
    SmallKeys();
    TotalTen(EIGHT);
    HardSumTen(EIGHT);
    assert DealerEnding(rule, 10, EIGHT) == EndNormal(18);
    assert WriteEnding(ExpectedValueHandler(), 0, map[0 := 8.5, 88245939632761 := 17.0, 18619893262512571 := 0.0],
                       EIGHT, 0.0, EndNormal(18))
           == map[0 := 8.5, 88245939632761 := 17.0, 18619893262512571 := 18.0];
  }

  /** As written, the child dealt the 7 stores the default under its shoe
      {8} and its ending under {7}. */
  lemma SharedSevenChild(rule: Rule)
    requires !rule.dealerHitOnSoft17
    ensures DealerGetCards(ExpectedValueHandler(), rule, 0, 10, EIGHT, SEVEN, 1, 10,
                           map[18708139202145332 := 0.0], 0.0)
            == Some(map[18708139202145332 := 0.0, 18619893262512571 := 0.0, 88245939632761 := 17.0])
  {
    SmallKeys();
    TotalTen(SEVEN);
    HardSumTen(SEVEN);
    assert DealerEnding(rule, 10, SEVEN) == EndNormal(17);
  }

  /** As written, the child dealt the 8 finds its shoe {7} taken and
      returns the table unchanged. */
  lemma SharedEightChild(rule: Rule)
    ensures DealerGetCards(ExpectedValueHandler(), rule, 0, 10, SEVEN, EIGHT, 1, 10,
                           map[18708139202145332 := 0.0, 18619893262512571 := 0.0, 88245939632761 := 17.0,
                               0 := 8.5], 0.0)
            == Some(map[18708139202145332 := 0.0, 18619893262512571 := 0.0, 88245939632761 := 17.0,
                        0 := 8.5])
  {
    SmallKeys();
  }

  /** Keyed by the extra hand, the draw of the 7 adds half of 17 to the
      root. */
  lemma ByHandDrawSeven(rule: Rule)
    requires !rule.dealerHitOnSoft17
    ensures RangeCount(SEVEN_EIGHT, 7, 10) <= 2 && RangeCount(SEVEN_EIGHT, 8, 10) <= 2
    ensures DealerDrawsByHand(ExpectedValueHandler(), rule, 0, 10, SEVEN_EIGHT, EMPTY, 7, 10, 2,
                              map[0 := 0.0], 0.0)
            == DealerDrawsByHand(ExpectedValueHandler(), rule, 0, 10, SEVEN_EIGHT, EMPTY, 8, 10, 2,
                                 map[0 := 8.5, 88245939632761 := 17.0], 0.0)
  {
    SmallKeys();
    var hd := ExpectedValueHandler();
    assert Inc(EMPTY, 7) == SEVEN && Dec(SEVEN_EIGHT, 7) == EIGHT;
    ByHandSevenChild(rule);
    var m2 := map[0 := 0.0, 88245939632761 := 17.0];
    assert Entry(m2, Key(EMPTY), 0.0) == 0.0 && m2[Key(SEVEN)] == 17.0;
    var p := SEVEN_EIGHT[6] as real / 2 as real;
    assert p == 0.5;
    assert hd.addWithP(0.0, 17.0, p) == 8.5;
    assert m2[Key(EMPTY) := 8.5] == map[0 := 8.5, 88245939632761 := 17.0];
  }

  /** Keyed by the extra hand, the draw of the 8 adds half of 18. */
  lemma ByHandDrawEight(rule: Rule)
    requires !rule.dealerHitOnSoft17
    ensures RangeCount(SEVEN_EIGHT, 8, 10) <= 2 && RangeCount(SEVEN_EIGHT, 9, 10) <= 2
    ensures DealerDrawsByHand(ExpectedValueHandler(), rule, 0, 10, SEVEN_EIGHT, EMPTY, 8, 10, 2,
                              map[0 := 8.5, 88245939632761 := 17.0], 0.0)
            == DealerDrawsByHand(ExpectedValueHandler(), rule, 0, 10, SEVEN_EIGHT, EMPTY, 9, 10, 2,
                                 map[0 := 17.5, 88245939632761 := 17.0, 18619893262512571 := 18.0], 0.0)
  {
    SmallKeys();
    var hd := ExpectedValueHandler();
    assert Inc(EMPTY, 8) == EIGHT && Dec(SEVEN_EIGHT, 8) == SEVEN;
    ByHandEightChild(rule);
    var m2 := map[0 := 8.5, 88245939632761 := 17.0, 18619893262512571 := 18.0];
    assert Entry(m2, Key(EMPTY), 0.0) == 8.5 && m2[Key(EIGHT)] == 18.0;
    var p := SEVEN_EIGHT[7] as real / 2 as real;
    assert p == 0.5;
    assert hd.addWithP(8.5, 18.0, p) == 17.5;
    assert m2[Key(EMPTY) := 17.5] == map[0 := 17.5, 88245939632761 := 17.0, 18619893262512571 := 18.0];
  }

  /** As written, the draw of the 7 adds half of 17 to the root. */
  lemma SharedDrawSeven(rule: Rule)
    requires !rule.dealerHitOnSoft17
    ensures RangeCount(SEVEN_EIGHT, 7, 10) <= 2 && RangeCount(SEVEN_EIGHT, 8, 10) <= 2
    ensures DealerDraws(ExpectedValueHandler(), rule, 0, 10, SEVEN_EIGHT, EMPTY, 7, 10, 2,
                        map[18708139202145332 := 0.0], 0.0)
            == DealerDraws(ExpectedValueHandler(), rule, 0, 10, SEVEN_EIGHT, EMPTY, 8, 10, 2,
                           map[18708139202145332 := 0.0, 18619893262512571 := 0.0, 88245939632761 := 17.0,
                               0 := 8.5], 0.0)
  {
    SmallKeys();
    var hd := ExpectedValueHandler();
    assert Inc(EMPTY, 7) == SEVEN && Dec(SEVEN_EIGHT, 7) == EIGHT;
    SharedSevenChild(rule);
    var m2 := map[18708139202145332 := 0.0, 18619893262512571 := 0.0, 88245939632761 := 17.0];
    assert Entry(m2, Key(EMPTY), 0.0) == 0.0 && m2[Key(SEVEN)] == 17.0;
    var p := SEVEN_EIGHT[6] as real / 2 as real;
    assert p == 0.5;
    assert hd.addWithP(0.0, 17.0, p) == 8.5;
  }

  /** As written, the draw of the 8 reads the default 0 stored under the
      shoe {8} and leaves the root at 8.5. */
  lemma SharedDrawEight(rule: Rule)
    ensures RangeCount(SEVEN_EIGHT, 8, 10) <= 2 && RangeCount(SEVEN_EIGHT, 9, 10) <= 2
    ensures DealerDraws(ExpectedValueHandler(), rule, 0, 10, SEVEN_EIGHT, EMPTY, 8, 10, 2,
                        map[18708139202145332 := 0.0, 18619893262512571 := 0.0, 88245939632761 := 17.0,
                            0 := 8.5], 0.0)
            == DealerDraws(ExpectedValueHandler(), rule, 0, 10, SEVEN_EIGHT, EMPTY, 9, 10, 2,
                           map[18708139202145332 := 0.0, 18619893262512571 := 0.0, 88245939632761 := 17.0,
                               0 := 8.5], 0.0)
  {
    SmallKeys();
    var hd := ExpectedValueHandler();
    assert Inc(EMPTY, 8) == EIGHT && Dec(SEVEN_EIGHT, 8) == SEVEN;
    SharedEightChild(rule);
    var m2 := map[18708139202145332 := 0.0, 18619893262512571 := 0.0, 88245939632761 := 17.0, 0 := 8.5];
    assert Entry(m2, Key(EMPTY), 0.0) == 8.5 && m2[Key(EIGHT)] == 0.0;
    var p := SEVEN_EIGHT[7] as real / 2 as real;
    assert p == 0.5;
    assert hd.addWithP(8.5, 0.0, p) == 8.5;
    assert m2[Key(EMPTY) := 8.5] == m2;
  }

  /** The ranks below 7 are not in the shoe: the root's draws begin at 7. */
  lemma RootSkipsToSeven(rule: Rule)
    ensures RangeCount(SEVEN_EIGHT, 1, 10) <= 2 && RangeCount(SEVEN_EIGHT, 7, 10) <= 2
    ensures DealerDrawsByHand(ExpectedValueHandler(), rule, 0, 10, SEVEN_EIGHT, EMPTY, 1, 10, 2, map[0 := 0.0], 0.0)
            == DealerDrawsByHand(ExpectedValueHandler(), rule, 0, 10, SEVEN_EIGHT, EMPTY, 7, 10, 2,
                                 map[0 := 0.0], 0.0)
    ensures DealerDraws(ExpectedValueHandler(), rule, 0, 10, SEVEN_EIGHT, EMPTY, 1, 10, 2,
                        map[18708139202145332 := 0.0], 0.0)
            == DealerDraws(ExpectedValueHandler(), rule, 0, 10, SEVEN_EIGHT, EMPTY, 7, 10, 2,
                           map[18708139202145332 := 0.0], 0.0)
  {
  }

  /**
   * Up card 10, a shoe of one 7 and one 8, and an empty table: the dealer
   * ends on 17 or 18 with probability 1/2 each. Keyed by the extra hand the
   * root entry (key 0, the empty extra hand) is the mean 17.5.
   */
  lemma RootByHand(rule: Rule)
    requires !rule.dealerHitOnSoft17
    ensures DealerGetCardsByHand(ExpectedValueHandler(), rule, 0, 10, SEVEN_EIGHT, EMPTY, 1, 10, map[], 0.0)
            == Some(map[0 := 17.5, 88245939632761 := 17.0, 18619893262512571 := 18.0])
  {
    SmallKeys();
    TotalTen(SEVEN_EIGHT);
    HardSumTen(EMPTY);
    assert ValidTotal(SEVEN_EIGHT, 1, 10) == 2;
    assert DealerEnding(rule, 10, EMPTY) == MustHit;
    RootSkipsToSeven(rule);
    ByHandDrawSeven(rule);
    ByHandDrawEight(rule);
  }

  /**
   * The same shoe as written: the second draw's child finds the key of its
   * shoe {7} already taken, by the first child's extra hand {7}, returns at
   * once, and the parent reads for the extra hand {8} the default the first
   * child stored under its shoe {8}: the root entry is 8.5.
   */
  lemma RootShared(rule: Rule)
    requires !rule.dealerHitOnSoft17
    ensures DealerGetCards(ExpectedValueHandler(), rule, 0, 10, SEVEN_EIGHT, EMPTY, 1, 10, map[], 0.0)
            == Some(map[18708139202145332 := 0.0, 18619893262512571 := 0.0, 88245939632761 := 17.0,
                        0 := 8.5])
  {
    SmallKeys();
    TotalTen(SEVEN_EIGHT);
    HardSumTen(EMPTY);
    assert ValidTotal(SEVEN_EIGHT, 1, 10) == 2;
    assert DealerEnding(rule, 10, EMPTY) == MustHit;
    RootSkipsToSeven(rule);
    SharedDrawSeven(rule);
    SharedDrawEight(rule);
  }
}
