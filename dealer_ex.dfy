/**
 * The dealer part of the second engine (blackjack/src/calculation2/dealer_ex.rs).
 * For every shoe a player can leave behind, it fills a table that maps each
 * dealer hand to the distribution of the dealer's final value, using a
 * memoised recursion over the dealer's hand drawn from that shoe. Here the
 * shoe ("dealer plus shoe") still holds the dealer's own cards, so what the
 * dealer can draw is the shoe less the dealer's hand.
 *
 * The tables of all shoes live in a ring of pool slots. A map from each
 * shoe's key points at the slot its table was built in.
 */
module DealerEx {
  import opened Wrappers
  import opened HandValue
  import opened StateArray
  import opened Rules
  import opened CardProbability
  import opened DealerProbability
  import opened StandOdds

  // ---------------------------------------------------------------------
  // The stop rule
  // ---------------------------------------------------------------------

  /** How a dealer natural is written into the table: with the bust
      callback, as `memoization_dealer_gets_cards` does, or with the natural one. */
  datatype NaturalRecord = AsBust | AsNatural

  /** The ending recorded for the dealer hand h, or None where the dealer
      draws. */
  function Ending(rule: Rule, rec: NaturalRecord, h: seq<int>): (o: Option<DealerOutcome>)
    requires IsCounts(h)
    ensures o.Some? ==> ValidOutcome(o.value)
    ensures o.None? <==> !Bust(h) && !DealerMustStand(h, rule.dealerHitOnSoft17)
  {
    if Bust(h) then Some(DealerBust)
    else
      var a := ActualSum(h);
      if a > 17 then
        if IsNatural(h) then Some(if rec == AsBust then DealerBust else DealerNatural)
        else Some(DealerStands(a))
      else if a == 17 && (!IsSoft(h) || !rule.dealerHitOnSoft17) then Some(DealerStands(17))
      else None
  }

  /** A bust ends as a bust, a natural as its record says, and any other
      hand the dealer stands on at its best value. */
  lemma EndingMeaning(rule: Rule, rec: NaturalRecord, h: seq<int>)
    requires IsCounts(h)
    ensures Bust(h) ==> Ending(rule, rec, h) == Some(DealerBust)
    ensures IsNatural(h) ==> Ending(rule, rec, h) == Some(if rec == AsBust then DealerBust else DealerNatural)
    ensures !Bust(h) && !IsNatural(h) && DealerMustStand(h, rule.dealerHitOnSoft17)
            ==> Ending(rule, rec, h) == Some(DealerStands(ActualSum(h)))
  {
    NaturalIsAceAndTen(h);
  }

  // ---------------------------------------------------------------------
  // What the dealer can draw
  // ---------------------------------------------------------------------

  /** The dealer's hand h is part of the shoe. */
  predicate Below(h: seq<int>, plus: seq<int>)
  {
    IsCounts(h) && IsCounts(plus) && forall i :: 0 <= i < RANKS ==> h[i] <= plus[i]
  }

  /** The cards of the shoe outside the dealer's hand. */
  function Rest(plus: seq<int>, h: seq<int>): (r: seq<int>)
    requires Below(h, plus)
    ensures IsCounts(r) && Total(r) == Total(plus) - Total(h) && Total(r) >= 0
    ensures forall i :: 0 <= i < RANKS ==> r[i] == plus[i] - h[i]
  {
    var r := seq(RANKS, i requires 0 <= i < RANKS => plus[i] - h[i]);
    TotalTen(r);
    TotalTen(plus);
    TotalTen(h);
    r
  }

  /** The ranks the memo variants are instantiated with: none, an ace or a
      ten. */
  predicate Excludable(excl: int)
  {
    excl == 0 || excl == 1 || excl == 10
  }

  /** `(next_card_min, next_card_max)`: every rank but the excluded one. */
  function NextCardRange(excl: int): (r: (int, int))
    requires Excludable(excl)
    ensures DrawRange(r.0, r.1)
    ensures excl == 0 ==> r == (1, 10)
    ensures excl != 0 ==> r.1 - r.0 == 8 && !(r.0 <= excl <= r.1)
  {
    if excl == 0 then (1, 10) else if excl == 1 then (2, 10) else (1, 9)
  }

  /** `current_valid_shoe_total`: the cards left outside the hand less those
      of the excluded rank. That is exactly the number of cards of the
      drawable ranks. */
  function DealerValidTotal(plus: seq<int>, h: seq<int>, excl: int): (v: int)
    requires Below(h, plus) && Excludable(excl)
    ensures v == RangeCount(Rest(plus, h), NextCardRange(excl).0, NextCardRange(excl).1)
  {
    var impossible := if excl == 0 then 0 else plus[excl - 1] - h[excl - 1];
    var rest := Rest(plus, h);
    assert excl != 0 ==> rest[excl - 1] == impossible;
    assert ValidTotal(rest, NextCardRange(excl).0, NextCardRange(excl).1) == Total(plus) - Total(h) - impossible;
    Total(plus) - Total(h) - impossible
  }

  /** The weights of the drawable ranks sum to 1 whenever the dealer can
      draw at all. */
  lemma DrawWeightsSumToOne(plus: seq<int>, h: seq<int>, excl: int)
    requires Below(h, plus) && Excludable(excl) && DealerValidTotal(plus, h, excl) > 0
    ensures var (lo, hi) := NextCardRange(excl);
            WeightSum(Rest(plus, h), lo, hi, DealerValidTotal(plus, h, excl) as real) == 1.0
  {
    var (lo, hi) := NextCardRange(excl);
    WeightsSumToOne(Rest(plus, h), lo, hi);
  }

  // ---------------------------------------------------------------------
  // The recursion
  // ---------------------------------------------------------------------

  /**
   * `memoization_dealer_gets_cards` for the dealer hand h drawn from the
   * shoe plus, on table m. The first draw skips the excluded rank; later
   * draws use every rank. A hand already in the table is left alone.
   * Otherwise the hand gets the default entry, then its ending, or the
   * weighted entries of its children.
   */
  function Gets(rule: Rule, rec: NaturalRecord, excl: int, plus: seq<int>, h: seq<int>, m: map<int, Dist>)
    : (r: map<int, Dist>)
    requires Below(h, plus) && Excludable(excl)
    ensures m.Keys <= r.Keys && Key(h) in r
    ensures Key(h) in m ==> r == m
    decreases Total(plus) - Total(h), 1
  {
    if Key(h) in m then m
    else
      var m1 := m[Key(h) := ZERO];
      match Ending(rule, rec, h)
      case Some(o) => m1[Key(h) := Leaf(o)]
      case None =>
        var (lo, hi) := NextCardRange(excl);
        Draws(rule, rec, plus, h, lo, hi, DealerValidTotal(plus, h, excl), m1)
  }

  /** The draw loop from rank c to hi, with the cards counted by vt. */
  function Draws(rule: Rule, rec: NaturalRecord, plus: seq<int>, h: seq<int>, c: int, hi: int, vt: int,
                 m: map<int, Dist>): (r: map<int, Dist>)
    requires Below(h, plus) && 1 <= c && hi <= 10 && Key(h) in m
    requires RangeCount(Rest(plus, h), c, hi) <= vt
    ensures m.Keys <= r.Keys
    decreases Total(plus) - Total(h), 0, 11 - c
  {
    if c > hi then m
    else if h[c - 1] == plus[c - 1] then Draws(rule, rec, plus, h, c + 1, hi, vt, m)
    else
      RangeCountNonNegative(Rest(plus, h), c + 1, hi);
      IncValues(h, c);
      var next := Inc(h, c);
      assert Total(Rest(plus, next)) >= 0;
      var m2 := Gets(rule, rec, 0, plus, next, m);
      var p := (plus[c - 1] - h[c - 1]) as real / vt as real;
      Draws(rule, rec, plus, h, c + 1, hi, vt, m2[Key(h) := AddAssignWithP(m2[Key(h)], m2[Key(next)], p)])
  }

  /** A hand the dealer stands on, not yet in the table, gets the
      distribution of its ending, and nothing else changes. */
  lemma StandingHandEntry(rule: Rule, rec: NaturalRecord, excl: int, plus: seq<int>, h: seq<int>,
                          m: map<int, Dist>)
    requires Below(h, plus) && Excludable(excl) && Key(h) !in m
    requires Bust(h) || DealerMustStand(h, rule.dealerHitOnSoft17)
    ensures var o := Ending(rule, rec, h).value;
            Gets(rule, rec, excl, plus, h, m) == m[Key(h) := Leaf(o)]
  {
  }

  /** The entries already in the table are never changed: every write goes
      to a hand that was not there. */
  lemma {:induction false} GetsPreserves(rule: Rule, rec: NaturalRecord, excl: int, plus: seq<int>,
                                         h: seq<int>, m: map<int, Dist>)
    requires Below(h, plus) && Excludable(excl)
    ensures var r := Gets(rule, rec, excl, plus, h, m);
            forall k :: k in m ==> r[k] == m[k]
    decreases Total(plus) - Total(h), 1
  {
    if Key(h) !in m && Ending(rule, rec, h).None? {
      var (lo, hi) := NextCardRange(excl);
      DrawsPreserves(rule, rec, plus, h, lo, hi, DealerValidTotal(plus, h, excl), m[Key(h) := ZERO]);
    }
  }

  lemma {:induction false} DrawsPreserves(rule: Rule, rec: NaturalRecord, plus: seq<int>, h: seq<int>,
                                          c: int, hi: int, vt: int, m: map<int, Dist>)
    requires Below(h, plus) && 1 <= c && hi <= 10 && Key(h) in m
    requires RangeCount(Rest(plus, h), c, hi) <= vt
    ensures var r := Draws(rule, rec, plus, h, c, hi, vt, m);
            forall k :: k in m && k != Key(h) ==> r[k] == m[k]
    decreases Total(plus) - Total(h), 0, 11 - c
  {
    if c <= hi {
      RangeCountNonNegative(Rest(plus, h), c + 1, hi);
      if h[c - 1] == plus[c - 1] {
        DrawsPreserves(rule, rec, plus, h, c + 1, hi, vt, m);
      } else {
        IncValues(h, c);
        var next := Inc(h, c);
        assert Total(Rest(plus, next)) >= 0;
        var m2 := Gets(rule, rec, 0, plus, next, m);
        GetsPreserves(rule, rec, 0, plus, next, m);
        var p := (plus[c - 1] - h[c - 1]) as real / vt as real;
        var m3 := m2[Key(h) := AddAssignWithP(m2[Key(h)], m2[Key(next)], p)];
        DrawsPreserves(rule, rec, plus, h, c + 1, hi, vt, m3);
      }
    }
  }

  // ---------------------------------------------------------------------
  // The recursion in place
  // ---------------------------------------------------------------------

  /**
   * The recursion on the in-place dealer hand: the hand is changed card by
   * card and restored, and the table ends as Gets gives it.
   */
  method MemoizationDealerGetsCards(rule: Rule, rec: NaturalRecord, excl: int, plus: CardCount,
                                    hand: CardCount, odd: SingleStateArray<Dist>)
    requires plus.Valid() && hand.Valid() && Disjoint(plus, hand) && Below(hand.Counts(), plus.Counts())
    requires Excludable(excl) && odd.default == ZERO
    modifies hand, hand.counts, odd
    ensures hand.Valid() && hand.Counts() == old(hand.Counts())
    ensures odd.data == Gets(rule, rec, excl, plus.Counts(), old(hand.Counts()), old(odd.data))
    decreases Total(plus.Counts()) - Total(hand.Counts()), 4
  {
    ghost var h := hand.Counts();
    if odd.ContainsState(hand) {
      return;
    }
    odd.Set(hand, odd.default);
    ghost var m1 := odd.data;
    if hand.Bust() {
      var cur := odd.IndexMut(hand);
      odd.Set(hand, EndWithBust(cur));
      return;
    }
    var actualSum := hand.GetActualSum();
    if actualSum > 17 {
      var cur := odd.IndexMut(hand);
      if hand.IsNatural() {
        if rec == AsBust {
          odd.Set(hand, EndWithBust(cur));
        } else {
          odd.Set(hand, EndWithNatural(cur));
        }
      } else {
        odd.Set(hand, EndWithNormal(cur, actualSum));
      }
      return;
    }
    if actualSum == 17 && (!hand.IsSoft() || !rule.dealerHitOnSoft17) {
      var cur := odd.IndexMut(hand);
      odd.Set(hand, EndWithNormal(cur, 17));
      return;
    }
    assert Ending(rule, rec, h).None?;
    DealerDrawLoop(rule, rec, excl, plus, hand, odd);
  }

  /** The hit branch: the loop over the drawable ranks. */
  method DealerDrawLoop(rule: Rule, rec: NaturalRecord, excl: int, plus: CardCount, hand: CardCount,
                        odd: SingleStateArray<Dist>)
    requires plus.Valid() && hand.Valid() && Disjoint(plus, hand) && Below(hand.Counts(), plus.Counts())
    requires Excludable(excl) && odd.default == ZERO && Key(hand.Counts()) in odd.data
    modifies hand, hand.counts, odd
    ensures hand.Valid() && hand.Counts() == old(hand.Counts())
    ensures var h := old(hand.Counts());
            odd.data == Draws(rule, rec, plus.Counts(), h, NextCardRange(excl).0, NextCardRange(excl).1,
                              DealerValidTotal(plus.Counts(), h, excl), old(odd.data))
    decreases Total(plus.Counts()) - Total(hand.Counts()), 3
  {
    ghost var h, pc := hand.Counts(), plus.Counts();
    var validTotal := ValidTotalOf(excl, plus, hand);
    var (lo, hi) := NextCardRange(excl);
    DrawEachRank(rule, rec, plus, hand, lo, hi, validTotal, odd, pc, h);
  }

  /** The `for` loop over the ranks lo..hi, one DealerDrawCard each. */
  method DrawEachRank(rule: Rule, rec: NaturalRecord, plus: CardCount, hand: CardCount, lo: int, hi: int, vt: int,
                      odd: SingleStateArray<Dist>, ghost pc: seq<int>, ghost h: seq<int>)
    requires plus.Valid() && hand.Valid() && Disjoint(plus, hand)
    requires pc == plus.Counts() && h == hand.Counts() && Below(h, pc)
    requires odd.default == ZERO && Key(h) in odd.data
    requires 1 <= lo <= hi + 1 && hi <= 10 && RangeCount(Rest(pc, h), lo, hi) <= vt
    modifies hand, hand.counts, odd
    ensures hand.Valid() && hand.Counts() == h
    ensures odd.data == Draws(rule, rec, pc, h, lo, hi, vt, old(odd.data))
    decreases Total(pc) - Total(h), 2
  {
    ghost var goal := Draws(rule, rec, pc, h, lo, hi, vt, odd.data);
    ghost var rest := Rest(pc, h);
    for c := lo to hi + 1
      invariant RangeCount(rest, c, hi) <= vt
      invariant hand.Valid() && hand.Counts() == h && Key(h) in odd.data
      invariant plus.Valid() && plus.Counts() == pc && odd.default == ZERO
      invariant Draws(rule, rec, pc, h, c, hi, vt, odd.data) == goal
    {
      DealerDrawCard(rule, rec, plus, hand, c, hi, vt, odd, pc, h, rest);
    }
  }

  /** The number of cards the dealer can draw: those outside the hand, less
      the excluded rank's. */
  method ValidTotalOf(excl: int, plus: CardCount, hand: CardCount) returns (validTotal: int)
    requires plus.Valid() && hand.Valid() && Below(hand.Counts(), plus.Counts()) && Excludable(excl)
    ensures validTotal == DealerValidTotal(plus.Counts(), hand.Counts(), excl)
  {
    var impossible := if excl == 0 then 0 else plus.Count(excl) - hand.Count(excl);
    validTotal := plus.GetTotal() - hand.GetTotal() - impossible;
  }

  /** One rank of the loop: unless the shoe has none of it left, draw it,
      recurse, undo the draw, and add the child's entry with its weight. */
  method DealerDrawCard(rule: Rule, rec: NaturalRecord, plus: CardCount, hand: CardCount, c: int, hi: int,
                        vt: int, odd: SingleStateArray<Dist>, ghost pc: seq<int>, ghost h: seq<int>,
                        ghost rest: seq<int>)
    requires plus.Valid() && hand.Valid() && Disjoint(plus, hand)
    requires pc == plus.Counts() && h == hand.Counts() && Below(h, pc) && rest == Rest(pc, h)
    requires odd.default == ZERO && Key(h) in odd.data
    requires 1 <= c <= hi <= 10 && RangeCount(rest, c, hi) <= vt
    modifies hand, hand.counts, odd
    ensures hand.Valid() && hand.Counts() == h && Key(h) in odd.data
    ensures plus.Valid() && plus.Counts() == pc && odd.default == ZERO
    ensures RangeCount(rest, c + 1, hi) <= vt
    ensures Draws(rule, rec, pc, h, c, hi, vt, old(odd.data)) == Draws(rule, rec, pc, h, c + 1, hi, vt, odd.data)
    decreases Total(pc) - Total(h), 1
  {
    ghost var m := odd.data;
    RangeCountNonNegative(rest, c + 1, hi);
    if hand.Count(c) == plus.Count(c) {
      return;
    }
    IncValues(h, c);
    ghost var next := Inc(h, c);
    assert Total(Rest(pc, next)) >= 0;
    var nextStateOdds := DrawAndUndo(rule, rec, plus, hand, c, odd, pc, h);
    ghost var m2 := odd.data;
    var p := (plus.Count(c) - hand.Count(c)) as real / vt as real;
    var cur := odd.IndexMut(hand);
    odd.Set(hand, AddAssignWithP(cur, nextStateOdds, p));
    assert odd.data == m2[Key(h) := AddAssignWithP(m2[Key(h)], m2[Key(next)], p)];
    DrawsHit(rule, rec, pc, h, c, hi, vt, m, m2, p);
  }

  /** The draw of rank c: the card added to the hand, the table filled
      for the larger hand, the entry read and the card taken back. */
  method DrawAndUndo(rule: Rule, rec: NaturalRecord, plus: CardCount, hand: CardCount, c: int,
                     odd: SingleStateArray<Dist>, ghost pc: seq<int>, ghost h: seq<int>) returns (entry: Dist)
    requires plus.Valid() && hand.Valid() && Disjoint(plus, hand)
    requires pc == plus.Counts() && h == hand.Counts() && 1 <= c <= 10 && Below(Inc(h, c), pc)
    requires odd.default == ZERO
    modifies hand, hand.counts, odd
    ensures hand.Valid() && hand.Counts() == h && plus.Counts() == pc
    ensures odd.data == Gets(rule, rec, 0, pc, Inc(h, c), old(odd.data))
    ensures Key(Inc(h, c)) in odd.data && entry == odd.data[Key(Inc(h, c))]
    decreases Total(pc) - Total(h), 0
  {
    IncValues(h, c);
    assert Total(Rest(pc, Inc(h, c))) >= 0;
    hand.AddCard(c);
    MemoizationDealerGetsCards(rule, rec, 0, plus, hand, odd);
    entry := odd.Index(hand);
    hand.RemoveCard(c);
    IncDec(h, c);
  }

  /** A rank the shoe still holds: the loop from c is the loop from c + 1
      after the child's table and its weighted entry. */
  lemma DrawsHit(rule: Rule, rec: NaturalRecord, plus: seq<int>, h: seq<int>, c: int, hi: int, vt: int,
                 m: map<int, Dist>, m2: map<int, Dist>, p: real)
    requires Below(h, plus) && 1 <= c <= hi <= 10 && Key(h) in m
    requires RangeCount(Rest(plus, h), c, hi) <= vt && 0 < vt
    requires h[c - 1] != plus[c - 1] && Below(Inc(h, c), plus)
    requires m2 == Gets(rule, rec, 0, plus, Inc(h, c), m)
    requires p == (plus[c - 1] - h[c - 1]) as real / vt as real
    ensures Key(h) in m2 && Key(Inc(h, c)) in m2 && RangeCount(Rest(plus, h), c + 1, hi) <= vt
    ensures Draws(rule, rec, plus, h, c, hi, vt, m)
            == Draws(rule, rec, plus, h, c + 1, hi, vt, m2[Key(h) := AddAssignWithP(m2[Key(h)], m2[Key(Inc(h, c))], p)])
  {
    RangeCountNonNegative(Rest(plus, h), c + 1, hi);
  }

  // ---------------------------------------------------------------------
  // All up cards of one shoe
  // ---------------------------------------------------------------------

  /** An excluded hole rank for each up card. */
  predicate ValidExclusions(ex: seq<int>)
  {
    |ex| == RANKS && forall i :: 0 <= i < RANKS ==> Excludable(ex[i])
  }

  /**
   * The memo variant `new` picks for each up card, as the rank it
   * excludes: a ten under an up ace when the dealer peeks on aces, an ace
   * under an up ten when the dealer peeks on tens too, and nothing otherwise.
   */
  function Exclusions(rule: Rule): (ex: seq<int>)
    ensures ValidExclusions(ex)
  {
    var forAce := if rule.peekPolicy == UpAce || rule.peekPolicy == UpAceOrTen then 10 else 0;
    var forTen := if rule.peekPolicy == UpAceOrTen then 1 else 0;
    [forAce, 0, 0, 0, 0, 0, 0, 0, 0, forTen]
  }

  /** The choice agrees with the hole card the peek rules out. */
  lemma ExclusionsAreImpossibleHoleCards(rule: Rule, up: int)
    requires 1 <= up <= 10
    ensures Exclusions(rule)[up - 1] == GetImpossibleDealerHoleCard(rule, up)
  {
  }

  /** `update_dealer_odd` from up card `up` on: each up card left in the
      shoe gets its recursion, from the hand holding just that card. */
  function OddLoop(rule: Rule, rec: NaturalRecord, ex: seq<int>, plus: seq<int>, up: int, m: map<int, Dist>)
    : (r: map<int, Dist>)
    requires IsCounts(plus) && ValidExclusions(ex) && 1 <= up <= 11
    ensures m.Keys <= r.Keys
    decreases 11 - up
  {
    if up > 10 then m
    else if plus[up - 1] == 0 then OddLoop(rule, rec, ex, plus, up + 1, m)
    else OddLoop(rule, rec, ex, plus, up + 1, Gets(rule, rec, ex[up - 1], plus, Single(up), m))
  }

  /** After the loop, every up card the shoe holds has its entry. */
  lemma {:induction false} OddLoopCoversUpCards(rule: Rule, rec: NaturalRecord, ex: seq<int>, plus: seq<int>,
                                                up: int, m: map<int, Dist>, u: int)
    requires IsCounts(plus) && ValidExclusions(ex) && 1 <= up <= u <= 10 && plus[u - 1] > 0
    ensures Key(Single(u)) in OddLoop(rule, rec, ex, plus, up, m)
    decreases 11 - up
  {
    if up < u {
      if plus[up - 1] == 0 {
        OddLoopCoversUpCards(rule, rec, ex, plus, up + 1, m, u);
      } else {
        OddLoopCoversUpCards(rule, rec, ex, plus, up + 1, Gets(rule, rec, ex[up - 1], plus, Single(up), m), u);
      }
    }
  }

  /** In place: the auxiliary hand, empty, takes each up card left in the
      shoe in turn and is emptied again. */
  method UpdateDealerOdd(rule: Rule, rec: NaturalRecord, plus: CardCount, ex: seq<int>, hand: CardCount,
                         odd: SingleStateArray<Dist>)
    requires plus.Valid() && hand.Valid() && Disjoint(plus, hand) && hand.Counts() == EMPTY
    requires ValidExclusions(ex) && odd.default == ZERO
    modifies hand, hand.counts, odd
    ensures hand.Valid() && hand.Counts() == EMPTY
    ensures odd.data == OddLoop(rule, rec, ex, plus.Counts(), 1, old(odd.data))
  {
    ghost var pc := plus.Counts();
    for up := 1 to 11
      invariant hand.Valid() && hand.Counts() == EMPTY
      invariant OddLoop(rule, rec, ex, pc, up, odd.data) == OddLoop(rule, rec, ex, pc, 1, old(odd.data))
    {
      if plus.Count(up) != 0 {
        UpdateForUpCard(rule, rec, plus, ex, up, hand, odd);
      }
    }
  }

  /** One up card of the loop. */
  method UpdateForUpCard(rule: Rule, rec: NaturalRecord, plus: CardCount, ex: seq<int>, up: int, hand: CardCount,
                         odd: SingleStateArray<Dist>)
    requires plus.Valid() && hand.Valid() && Disjoint(plus, hand) && hand.Counts() == EMPTY
    requires ValidExclusions(ex) && odd.default == ZERO && 1 <= up <= 10 && plus.Counts()[up - 1] != 0
    modifies hand, hand.counts, odd
    ensures hand.Valid() && hand.Counts() == EMPTY
    ensures odd.data == Gets(rule, rec, ex[up - 1], plus.Counts(), Single(up), old(odd.data))
  {
    hand.AddCard(up);
    assert hand.Counts() == Single(up);
    MemoizationDealerGetsCards(rule, rec, ex[up - 1], plus, hand, odd);
    hand.RemoveCard(up);
  }

  /** A cleared pool slot filled for the shoe plus. */
  method FillSlot(rule: Rule, rec: NaturalRecord, plus: CardCount, ex: seq<int>, hand: CardCount)
    returns (table: map<int, Dist>)
    requires plus.Valid() && hand.Valid() && Disjoint(plus, hand) && hand.Counts() == EMPTY && ValidExclusions(ex)
    modifies hand, hand.counts
    ensures hand.Valid() && hand.Counts() == EMPTY
    ensures table == OddLoop(rule, rec, ex, plus.Counts(), 1, map[])
  {
    var odd := new SingleStateArray<Dist>(ZERO);
    UpdateDealerOdd(rule, rec, plus, ex, hand, odd);
    table := odd.data;
  }

  // ---------------------------------------------------------------------
  // The pool of tables
  // ---------------------------------------------------------------------

  const MEMORY_POOL_SIZE: nat := 10000

  /** The slot pointers by shoe key, the pool of tables, the next slot, and
      the keys of the shoes already done. */
  datatype Odds = Odds(pointers: map<int, nat>, pool: seq<map<int, Dist>>, poolIndex: nat, calculated: set<int>)

  /** The state `new` leaves: the pool has room reserved but no slot. */
  const NEW_ODDS: Odds := Odds(map[], [], 0, {})

  /** One shoe of `update_dealer_odds`. A shoe already done is skipped.
      Otherwise the current slot is cleared and filled, and the shoe points
      at it. None is the panic of an index past the pool's end. */
  function UpdateOne(rule: Rule, rec: NaturalRecord, o: Odds, s: seq<int>): Option<Odds>
    requires IsCounts(s)
  {
    if Key(s) in o.calculated then Some(o)
    else if o.poolIndex >= |o.pool| then None
    else
      var odd := OddLoop(rule, rec, Exclusions(rule), s, 1, map[]);
      Some(Odds(o.pointers[Key(s) := o.poolIndex], o.pool[o.poolIndex := odd],
                (o.poolIndex + 1) % MEMORY_POOL_SIZE, o.calculated + {Key(s)}))
  }

  predicate AllCounts(shoes: seq<seq<int>>)
  {
    forall i :: 0 <= i < |shoes| ==> IsCounts(shoes[i])
  }

  /** `update_dealer_odds` over the shoes in order; None once one panics. */
  function UpdateOdds(rule: Rule, rec: NaturalRecord, o: Odds, shoes: seq<seq<int>>): Option<Odds>
    requires AllCounts(shoes)
    decreases |shoes|
  {
    if shoes == [] then Some(o)
    else match UpdateOdds(rule, rec, o, shoes[..|shoes| - 1])
      case None => None
      case Some(o') => UpdateOne(rule, rec, o', shoes[|shoes| - 1])
  }

  lemma {:induction false} UpdateOddsStaysPanicked(rule: Rule, rec: NaturalRecord, o: Odds,
                                                   shoes: seq<seq<int>>, i: int)
    requires AllCounts(shoes) && 0 <= i <= |shoes| && UpdateOdds(rule, rec, o, shoes[..i]) == None
    ensures UpdateOdds(rule, rec, o, shoes) == None
    decreases |shoes|
  {
    if i < |shoes| {
      var n := |shoes| - 1;
      assert shoes[..n][..i] == shoes[..i];
      UpdateOddsStaysPanicked(rule, rec, o, shoes[..n], i);
    } else {
      assert shoes[..i] == shoes;
    }
  }

  /** As written, `new` leaves the pool without slots, so the first shoe
      not yet done panics: any non-empty list of shoes does. */
  lemma {:induction false} NewPoolPanics(rule: Rule, rec: NaturalRecord, shoes: seq<seq<int>>)
    requires AllCounts(shoes) && |shoes| > 0
    ensures UpdateOdds(rule, rec, NEW_ODDS, shoes) == None
    decreases |shoes|
  {
    var n := |shoes| - 1;
    if n > 0 {
      NewPoolPanics(rule, rec, shoes[..n]);
    } else {
      assert shoes[..n] == [];
    }
  }

  /** The pool `update_dealer_odds` evidently intends: every slot there, the next
      slot in range, and every shoe done pointing into the pool. */
  predicate PoolReady(o: Odds)
  {
    |o.pool| == MEMORY_POOL_SIZE && o.poolIndex < MEMORY_POOL_SIZE
    && o.calculated == o.pointers.Keys
    && forall k :: k in o.pointers ==> o.pointers[k] < MEMORY_POOL_SIZE
  }

  /** A pool created with all its slots. */
  const FILLED_ODDS: Odds := Odds(map[], seq(MEMORY_POOL_SIZE, i => map[]), 0, {})

  lemma FilledOddsReady()
    ensures PoolReady(FILLED_ODDS)
  {
  }

  /**
   * With every slot allocated, updating never panics and keeps the pool
   * ready; every shoe of the list is then done and points at a slot. A
   * new shoe's slot holds the entries of all the up cards it contains.
   */
  lemma {:induction false} FilledPoolNeverPanics(rule: Rule, rec: NaturalRecord, o: Odds, shoes: seq<seq<int>>)
    requires AllCounts(shoes) && PoolReady(o)
    ensures var r := UpdateOdds(rule, rec, o, shoes);
            r.Some? && PoolReady(r.value) && o.calculated <= r.value.calculated
            && forall i :: 0 <= i < |shoes| ==> Key(shoes[i]) in r.value.pointers
    decreases |shoes|
  {
    if shoes != [] {
      var n := |shoes| - 1;
      FilledPoolNeverPanics(rule, rec, o, shoes[..n]);
      var o' := UpdateOdds(rule, rec, o, shoes[..n]).value;
      assert forall i :: 0 <= i < n ==> shoes[..n][i] == shoes[i];
    }
  }

  /** A shoe not done before has, in its slot, the table of all its up
      cards, and every up card it holds is in that table. */
  lemma UpdateOneFillsSlot(rule: Rule, rec: NaturalRecord, o: Odds, s: seq<int>, u: int)
    requires IsCounts(s) && PoolReady(o) && Key(s) !in o.calculated && 1 <= u <= 10 && s[u - 1] > 0
    ensures var r := UpdateOne(rule, rec, o, s).value;
            r.pool[r.pointers[Key(s)]] == OddLoop(rule, rec, Exclusions(rule), s, 1, map[])
            && Key(Single(u)) in r.pool[r.pointers[Key(s)]]
  {
    OddLoopCoversUpCards(rule, rec, Exclusions(rule), s, 1, map[], u);
  }

  /** `get_dealer_hand_value_probability`: the entry of the hand holding
      one up card, in the table the shoe points at; None is a panic. */
  function DealerHandValueProbabilityOf(o: Odds, plus: seq<int>, up: int): (r: Option<Dist>)
    requires |plus| == RANKS && 1 <= up <= 10
    ensures r.Some? <==> Key(plus) in o.pointers && o.pointers[Key(plus)] < |o.pool|
                         && Key(Single(up)) in o.pool[o.pointers[Key(plus)]]
  {
    if Key(plus) !in o.pointers || o.pointers[Key(plus)] >= |o.pool| then None
    else
      var odd := o.pool[o.pointers[Key(plus)]];
      if Key(Single(up)) in odd then Some(odd[Key(Single(up))]) else None
  }

  // ---------------------------------------------------------------------
  // A dealer natural
  // ---------------------------------------------------------------------

  /** An ace and a ten. */
  const ACE_TEN: seq<int> := [1, 0, 0, 0, 0, 0, 0, 0, 0, 1]

  /**
   * As written, a dealer natural is recorded with the bust callback: the
   * lookups then count a dealer natural as worse than any player value up
   * to 21, that is, as a player win.
   */
  lemma NaturalAsWritten(rule: Rule, excl: int, plus: seq<int>, m: map<int, Dist>, x: int)
    requires Below(ACE_TEN, plus) && Excludable(excl) && Key(ACE_TEN) !in m && 0 <= x <= 21
    ensures var d := Gets(rule, AsBust, excl, plus, ACE_TEN, m)[Key(ACE_TEN)];
            PWorseThanPlayer(d, x) == Some(1.0) && PBetterThanPlayer(d, x) == Some(0.0)
  {
    NaturalIsAceAndTen(ACE_TEN);
    LeafLookups(DealerBust, x);
  }

  /** Recorded with the natural callback, a dealer natural beats every
      player value up to 21, as the lookups mean. */
  lemma NaturalFixed(rule: Rule, excl: int, plus: seq<int>, m: map<int, Dist>, x: int)
    requires Below(ACE_TEN, plus) && Excludable(excl) && Key(ACE_TEN) !in m && 0 <= x <= 21
    ensures var d := Gets(rule, AsNatural, excl, plus, ACE_TEN, m)[Key(ACE_TEN)];
            PWorseThanPlayer(d, x) == Some(0.0) && PBetterThanPlayer(d, x) == Some(1.0)
  {
    NaturalIsAceAndTen(ACE_TEN);
    LeafLookups(DealerNatural, x);
  }

  // ---------------------------------------------------------------------
  // The dealer play object
  // ---------------------------------------------------------------------

  /** `DealerPlay`: the per-shoe tables and their bookkeeping. The pool
      slots are tables held by value. */
  class DealerPlay {
    const rule: Rule
    const exclusions: seq<int>
    var pointers: map<int, nat>
    var pool: seq<map<int, Dist>>
    var poolIndex: nat
    var calculated: set<int>
    const handAux: CardCount

    ghost predicate Valid()
      reads this, handAux, handAux.counts
    {
      handAux.Valid() && handAux.Counts() == EMPTY && exclusions == Exclusions(rule)
    }

    function State(): Odds
      reads this
    {
      Odds(pointers, pool, poolIndex, calculated)
    }

    /** `DealerPlay::new`, as written: the pool is reserved but has no
        slot. */
    constructor (rule: Rule)
      ensures Valid() && this.rule == rule && State() == NEW_ODDS && fresh(handAux) && fresh(handAux.counts)
    {
      this.rule := rule;
      var forAce := if rule.peekPolicy == UpAce || rule.peekPolicy == UpAceOrTen then 10 else 0;
      var forTen := if rule.peekPolicy == UpAceOrTen then 1 else 0;
      exclusions := [forAce, 0, 0, 0, 0, 0, 0, 0, 0, forTen];
      pointers := map[];
      pool := [];
      poolIndex := 0;
      calculated := {};
      handAux := new CardCount.WithNumberOfDecks(0);
    }

    /** The dealer play with every pool slot allocated. */
    constructor WithFilledPool(rule: Rule)
      ensures Valid() && this.rule == rule && State() == FILLED_ODDS && fresh(handAux) && fresh(handAux.counts)
    {
      this.rule := rule;
      exclusions := Exclusions(rule);
      pointers := map[];
      pool := seq(MEMORY_POOL_SIZE, i => map[]);
      poolIndex := 0;
      calculated := {};
      handAux := new CardCount.WithNumberOfDecks(0);
    }

    /** `clear_dealer_odds`: no shoe is done any more. */
    method ClearDealerOdds()
      modifies this
      ensures pointers == map[] && calculated == {}
      ensures pool == old(pool) && poolIndex == old(poolIndex)
    {
      pointers := map[];
      calculated := {};
    }

    /**
     * `update_dealer_odds` over the shoes whose counts are cs. The result is
     * false where `update_dealer_odds` panics, and the state is then unspecified.
     */
    method UpdateDealerOdds(rec: NaturalRecord, shoes: seq<CardCount>, ghost cs: seq<seq<int>>)
      returns (ok: bool)
      requires Valid() && |cs| == |shoes|
      requires forall i :: 0 <= i < |shoes| ==> shoes[i].Valid() && shoes[i].Counts() == cs[i]
                                                && Disjoint(shoes[i], handAux)
      modifies this, handAux, handAux.counts
      ensures Valid()
      ensures AllCounts(cs) && (ok <==> UpdateOdds(rule, rec, old(State()), cs).Some?)
      ensures ok ==> State() == UpdateOdds(rule, rec, old(State()), cs).value
    {
      ghost var o0 := State();
      assert AllCounts(cs);
      var i := 0;
      assert cs[..0] == [];
      while i < |shoes|
        invariant 0 <= i <= |shoes| && Valid()
        invariant forall j :: 0 <= j < |shoes| ==> shoes[j].Valid() && shoes[j].Counts() == cs[j]
        invariant UpdateOdds(rule, rec, o0, cs[..i]) == Some(State())
        decreases |shoes| - i
      {
        assert cs[..i + 1][..i] == cs[..i];
        var one := UpdateShoe(rec, shoes[i], cs[i]);
        if !one {
          UpdateOddsStaysPanicked(rule, rec, o0, cs, i + 1);
          return false;
        }
        i := i + 1;
      }
      assert cs[..i] == cs;
      ok := true;
    }

    /** One shoe of the loop; false is the panic. */
    method UpdateShoe(rec: NaturalRecord, s: CardCount, ghost c: seq<int>) returns (ok: bool)
      requires Valid() && s.Valid() && s.Counts() == c && Disjoint(s, handAux)
      modifies this, handAux, handAux.counts
      ensures Valid() && s.Valid() && s.Counts() == c
      ensures ok <==> UpdateOne(rule, rec, old(State()), c).Some?
      ensures ok ==> State() == UpdateOne(rule, rec, old(State()), c).value
    {
      if s.hashValue in calculated {
        return true;
      }
      calculated := calculated + {s.hashValue};
      if poolIndex >= |pool| {
        return false;
      }
      var slot := poolIndex;
      poolIndex := (poolIndex + 1) % MEMORY_POOL_SIZE;
      var table := FillSlot(rule, rec, s, exclusions, handAux);
      pool := pool[slot := table];
      pointers := pointers[s.hashValue := slot];
      ok := true;
    }
  }
}
