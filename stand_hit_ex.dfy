/**
 * The expectations of standing and hitting for every hand the player can
 * reach from an initial hand (blackjack/src/calculation/stand_hit_ex.rs):
 * the memoised recursion, and the sequential passes of the multi-threaded
 * variant (classification, then hit values from the largest hands down).
 *
 * The dealer's side, `calculate_stand_odds_single_hand`, is not part of
 * this model: it is a parameter `odds` giving the player's probabilities of
 * winning and of losing when standing on a hand against a shoe, for the
 * fixed rule and dealer up card.
 */
module StandHitEx {
  import opened Wrappers
  import opened ExtReals
  import opened HandValue
  import opened StateArray
  import opened Rules
  import opened CardProbability
  import opened Expectations

  /** The player's probabilities of winning and of losing when standing. */
  datatype WinLose = WinLose(win: real, lose: real)

  /** The value of standing on a hand: a natural wins at the blackjack
      payout, any other hand at even money. */
  function StandPayoff(rule: Rule, odds: (seq<int>, seq<int>) -> WinLose, h: seq<int>, s: seq<int>): real
    requires |h| == RANKS
  {
    var o := odds(h, s);
    if IsNatural(h) then o.win * rule.payoutBlackjack - o.lose else o.win - o.lose
  }

  /** The stand value written after the hit loop: minus infinity for a hand
      of at most 11 that does not hold three cards (a hand the player
      obviously hits; three cards are kept for the double), otherwise the
      even-money value. */
  function StandValue(odds: (seq<int>, seq<int>) -> WinLose, h: seq<int>, s: seq<int>): ExtReal
    requires |h| == RANKS
  {
    if ActualSum(h) <= 11 && Total(h) != 3 then NegInf
    else
      var o := odds(h, s);
      Fin(o.win - o.lose)
  }

  /** The entry written for hand h with hit value `hit` changed. */
  function AddToHit(m: map<int, ExpectationStandHit>, k: int, x: ExtReal): map<int, ExpectationStandHit>
  {
    var e := Get(m, k);
    m[k := e.(hit := Add(e.hit, x))]
  }

  // ---------------------------------------------------------------------
  // The memoised recursion
  // ---------------------------------------------------------------------

  /**
   * `memoization_calculate_stand_hit_expectation` from shoe s and hand h on
   * table m; None is the panic of reading a child's entry that is missing.
   */
  function StandHit(rule: Rule, hole: int, odds: (seq<int>, seq<int>) -> WinLose,
                    s: seq<int>, h: seq<int>, m: map<int, ExpectationStandHit>)
    : Option<map<int, ExpectationStandHit>>
    requires IsCounts(s) && IsCounts(h) && IsHoleExclusion(hole)
    decreases Total(s), 1
  {
    var k := Key(h);
    if k in m then Some(m)
    else if Bust(h) then Some(m[k := ExpectationStandHit(NegInf, Fin(-1.0))])
    else if Total(h) == rule.charlieNumber then Some(m[k := ExpectationStandHit(NegInf, Fin(1.0))])
    else if ActualSum(h) == 21 then Some(m[k := ExpectationStandHit(NegInf, Fin(StandPayoff(rule, odds, h, s)))])
    else
      match HitLoop(rule, hole, odds, s, h, 1, m[k := ExpectationStandHit(Fin(0.0), NegInf)])
      case None => None
      case Some(m2) => Some(m2[k := Get(m2, k).(stand := StandValue(odds, h, s))])
  }

  /** The hit loop over ranks i..10. */
  function HitLoop(rule: Rule, hole: int, odds: (seq<int>, seq<int>) -> WinLose,
                   s: seq<int>, h: seq<int>, i: int, m: map<int, ExpectationStandHit>)
    : Option<map<int, ExpectationStandHit>>
    requires IsCounts(s) && IsCounts(h) && IsHoleExclusion(hole) && 1 <= i <= 11
    decreases Total(s), 0, 11 - i
  {
    if i > 10 then Some(m)
    else if s[i - 1] == 0 then HitLoop(rule, hole, odds, s, h, i + 1, m)
    else
      CountsBounds(s);
      DecValues(s, i);
      match StandHit(rule, hole, odds, Dec(s, i), Inc(h, i), m)
      case None => None
      case Some(m2) =>
        match MaxStandHitSurrender(m2, Inc(h, i), rule)
        case None => None
        case Some(best) =>
          HitLoop(rule, hole, odds, s, h, i + 1,
                  AddToHit(m2, Key(h), Scale(GetCardProbabilityCopy(s, hole, i), best.0)))
  }

  /** The best value of a hand in table t (minus infinity where the entry
      is missing). */
  function Best(t: map<int, ExpectationStandHit>, h: seq<int>, rule: Rule): ExtReal
    requires |h| == RANKS
  {
    match MaxStandHitSurrender(t, h, rule)
    case None => NegInf
    case Some(r) => r.0
  }

  /** Theory of total expectation: acc plus, for every rank from i on left
      in the shoe, its probability times the best value of the hand with
      that card, as recorded in t. */
  function HitAcc(t: map<int, ExpectationStandHit>, rule: Rule, hole: int, s: seq<int>, h: seq<int>, i: int,
                  acc: ExtReal): ExtReal
    requires IsCounts(s) && IsCounts(h) && IsHoleExclusion(hole) && 1 <= i <= 11
    decreases 11 - i
  {
    if i > 10 then acc
    else if s[i - 1] == 0 then HitAcc(t, rule, hole, s, h, i + 1, acc)
    else HitAcc(t, rule, hole, s, h, i + 1, Add(acc, Scale(GetCardProbabilityCopy(s, hole, i), Best(t, Inc(h, i), rule))))
  }

  /**
   * The recursion never panics, only adds entries, leaves every entry it
   * finds alone (in particular it returns the table unchanged when the hand
   * already has an entry), and records the hand. A new bust hand is worth
   * -1 by standing, a new hand at the Charlie number 1, and a new hand of
   * 21 its stand value; for all three hitting stays minus infinity.
   */
  lemma {:induction false} StandHitFacts(rule: Rule, hole: int, odds: (seq<int>, seq<int>) -> WinLose,
                                         s: seq<int>, h: seq<int>, m: map<int, ExpectationStandHit>)
    requires IsCounts(s) && IsCounts(h) && IsHoleExclusion(hole)
    ensures var r := StandHit(rule, hole, odds, s, h, m);
            r.Some? && m.Keys <= r.value.Keys && Key(h) in r.value
            && (forall k :: k in m ==> r.value[k] == m[k])
    ensures var r := StandHit(rule, hole, odds, s, h, m).value;
            Key(h) !in m ==>
              (Bust(h) ==> r[Key(h)] == ExpectationStandHit(NegInf, Fin(-1.0)))
              && (!Bust(h) && Total(h) == rule.charlieNumber ==> r[Key(h)] == ExpectationStandHit(NegInf, Fin(1.0)))
              && (!Bust(h) && Total(h) != rule.charlieNumber && ActualSum(h) == 21
                  ==> r[Key(h)] == ExpectationStandHit(NegInf, Fin(StandPayoff(rule, odds, h, s))))
    decreases Total(s), 1
  {
    var k := Key(h);
    if k !in m && !Bust(h) && Total(h) != rule.charlieNumber && ActualSum(h) != 21 {
      HitLoopFacts(rule, hole, odds, s, h, 1, m[k := ExpectationStandHit(Fin(0.0), NegInf)]);
    }
  }

  lemma {:induction false} HitLoopFacts(rule: Rule, hole: int, odds: (seq<int>, seq<int>) -> WinLose,
                                        s: seq<int>, h: seq<int>, i: int, m: map<int, ExpectationStandHit>)
    requires IsCounts(s) && IsCounts(h) && IsHoleExclusion(hole) && 1 <= i <= 11 && Key(h) in m
    ensures var r := HitLoop(rule, hole, odds, s, h, i, m);
            r.Some? && m.Keys <= r.value.Keys
            && (forall k :: k in m && k != Key(h) ==> r.value[k] == m[k])
            && r.value[Key(h)].stand == m[Key(h)].stand
    decreases Total(s), 0, 11 - i
  {
    if i <= 10 {
      if s[i - 1] == 0 {
        HitLoopFacts(rule, hole, odds, s, h, i + 1, m);
      } else {
        CountsBounds(s);
        DecValues(s, i);
        StandHitFacts(rule, hole, odds, Dec(s, i), Inc(h, i), m);
        var m2 := StandHit(rule, hole, odds, Dec(s, i), Inc(h, i), m).value;
        var best := MaxStandHitSurrender(m2, Inc(h, i), rule);
        assert best.Some?;
        var m3 := AddToHit(m2, Key(h), Scale(GetCardProbabilityCopy(s, hole, i), best.value.0));
        HitLoopFacts(rule, hole, odds, s, h, i + 1, m3);
      }
    }
  }

  /** Tables in which every entry has a finite value for at least one of
      the two decisions. */
  predicate AllEvaluated(m: map<int, ExpectationStandHit>)
  {
    forall k :: k in m ==> Evaluated(m[k])
  }

  /**
   * Every value the recursion computes is finite where it matters: over a
   * table of evaluated entries, every entry afterwards is evaluated, and a
   * new hand that is neither bust, at the Charlie number nor at 21 has a
   * finite hit value (so the best value of every hand is finite and no
   * minus infinity enters a sum).
   */
  lemma {:induction false} StandHitEvaluated(rule: Rule, hole: int, odds: (seq<int>, seq<int>) -> WinLose,
                                             s: seq<int>, h: seq<int>, m: map<int, ExpectationStandHit>)
    requires IsCounts(s) && IsCounts(h) && IsHoleExclusion(hole) && AllEvaluated(m)
    ensures var r := StandHit(rule, hole, odds, s, h, m);
            r.Some? && Key(h) in r.value && AllEvaluated(r.value)
            && (Key(h) !in m && !Bust(h) && Total(h) != rule.charlieNumber && ActualSum(h) != 21
                ==> r.value[Key(h)].hit.Fin?)
    decreases Total(s), 1
  {
    StandHitFacts(rule, hole, odds, s, h, m);
    var k := Key(h);
    if k !in m && !Bust(h) && Total(h) != rule.charlieNumber && ActualSum(h) != 21 {
      var m1 := m[k := ExpectationStandHit(Fin(0.0), NegInf)];
      HitLoopEvaluated(rule, hole, odds, s, h, 1, m1);
    }
  }

  lemma {:induction false} HitLoopEvaluated(rule: Rule, hole: int, odds: (seq<int>, seq<int>) -> WinLose,
                                            s: seq<int>, h: seq<int>, i: int, m: map<int, ExpectationStandHit>)
    requires IsCounts(s) && IsCounts(h) && IsHoleExclusion(hole) && 1 <= i <= 11
    requires Key(h) in m && AllEvaluated(m) && m[Key(h)].hit.Fin?
    ensures var r := HitLoop(rule, hole, odds, s, h, i, m);
            r.Some? && Key(h) in r.value && AllEvaluated(r.value) && r.value[Key(h)].hit.Fin?
    decreases Total(s), 0, 11 - i
  {
    if i <= 10 {
      if s[i - 1] == 0 {
        HitLoopEvaluated(rule, hole, odds, s, h, i + 1, m);
      } else {
        CountsBounds(s);
        DecValues(s, i);
        StandHitFacts(rule, hole, odds, Dec(s, i), Inc(h, i), m);
        StandHitEvaluated(rule, hole, odds, Dec(s, i), Inc(h, i), m);
        var m2 := StandHit(rule, hole, odds, Dec(s, i), Inc(h, i), m).value;
        assert m2[Key(h)] == m[Key(h)];
        EvaluatedMaxIsFinite(m2, Inc(h, i), rule);
        var best := MaxStandHitSurrender(m2, Inc(h, i), rule).value;
        var x := Scale(GetCardProbabilityCopy(s, hole, i), best.0);
        assert x.Fin?;
        var m3 := AddToHit(m2, Key(h), x);
        assert m3 == m2[Key(h) := m2[Key(h)].(hit := Add(m2[Key(h)].hit, x))];
        assert m3[Key(h)].hit.Fin?;
        assert AllEvaluated(m3);
        HitLoopEvaluated(rule, hole, odds, s, h, i + 1, m3);
      }
    }
  }

  /** Changing the hand's own entry does not change the sum over its
      children, whose keys all differ from it. */
  lemma {:induction false} HitAccFrame(t: map<int, ExpectationStandHit>, rule: Rule, hole: int, s: seq<int>,
                                       h: seq<int>, i: int, acc: ExtReal, v: ExpectationStandHit)
    requires IsCounts(s) && IsCounts(h) && IsHoleExclusion(hole) && 1 <= i <= 11
    ensures HitAcc(t[Key(h) := v], rule, hole, s, h, i, acc) == HitAcc(t, rule, hole, s, h, i, acc)
    decreases 11 - i
  {
    if i <= 10 {
      KeyChangesOnAdd(h, i);
      assert Best(t[Key(h) := v], Inc(h, i), rule) == Best(t, Inc(h, i), rule);
      if s[i - 1] == 0 {
        HitAccFrame(t, rule, hole, s, h, i + 1, acc, v);
      } else {
        var x := Scale(GetCardProbabilityCopy(s, hole, i), Best(t, Inc(h, i), rule));
        HitAccFrame(t, rule, hole, s, h, i + 1, Add(acc, x), v);
      }
    }
  }

  /** The loop adds to the hand's hit value, for each rank, the rank's
      probability times the best value of the child as the final table
      records it. */
  lemma {:induction false} HitLoopEquation(rule: Rule, hole: int, odds: (seq<int>, seq<int>) -> WinLose,
                                           s: seq<int>, h: seq<int>, i: int, m: map<int, ExpectationStandHit>)
    requires IsCounts(s) && IsCounts(h) && IsHoleExclusion(hole) && 1 <= i <= 11 && Key(h) in m
    ensures var r := HitLoop(rule, hole, odds, s, h, i, m);
            r.Some? && Key(h) in r.value && r.value[Key(h)].hit == HitAcc(r.value, rule, hole, s, h, i, m[Key(h)].hit)
    decreases 11 - i
  {
    HitLoopFacts(rule, hole, odds, s, h, i, m);
    if i <= 10 {
      if s[i - 1] == 0 {
        HitLoopEquation(rule, hole, odds, s, h, i + 1, m);
      } else {
        CountsBounds(s);
        DecValues(s, i);
        StandHitFacts(rule, hole, odds, Dec(s, i), Inc(h, i), m);
        var m2 := StandHit(rule, hole, odds, Dec(s, i), Inc(h, i), m).value;
        var best := MaxStandHitSurrender(m2, Inc(h, i), rule).value;
        var x := Scale(GetCardProbabilityCopy(s, hole, i), best.0);
        var m3 := AddToHit(m2, Key(h), x);
        HitLoopFacts(rule, hole, odds, s, h, i + 1, m3);
        HitLoopEquation(rule, hole, odds, s, h, i + 1, m3);
        var r := HitLoop(rule, hole, odds, s, h, i + 1, m3).value;
        KeyChangesOnAdd(h, i);
        assert r[Key(Inc(h, i))] == m2[Key(Inc(h, i))];
        assert Best(r, Inc(h, i), rule) == best.0;
        assert m3[Key(h)].hit == Add(m[Key(h)].hit, x);
      }
    }
  }

  /**
   * For a new hand that is neither bust, at the Charlie number nor at 21,
   * the entry the recursion leaves is the equation of total expectation
   * over the final table, and the stand value of the hand.
   */
  lemma StandHitEquation(rule: Rule, hole: int, odds: (seq<int>, seq<int>) -> WinLose,
                         s: seq<int>, h: seq<int>, m: map<int, ExpectationStandHit>)
    requires IsCounts(s) && IsCounts(h) && IsHoleExclusion(hole)
    requires Key(h) !in m && !Bust(h) && Total(h) != rule.charlieNumber && ActualSum(h) != 21
    ensures var r := StandHit(rule, hole, odds, s, h, m);
            r.Some? && Key(h) in r.value
            && r.value[Key(h)].hit == HitAcc(r.value, rule, hole, s, h, 1, Fin(0.0))
            && r.value[Key(h)].stand == StandValue(odds, h, s)
  {
    var k := Key(h);
    var m1 := m[k := ExpectationStandHit(Fin(0.0), NegInf)];
    HitLoopFacts(rule, hole, odds, s, h, 1, m1);
    HitLoopEquation(rule, hole, odds, s, h, 1, m1);
    var m2 := HitLoop(rule, hole, odds, s, h, 1, m1).value;
    var v := Get(m2, k).(stand := StandValue(odds, h, s));
    HitAccFrame(m2, rule, hole, s, h, 1, Fin(0.0), v);
  }

  // ---------------------------------------------------------------------
  // The recursion in place
  // ---------------------------------------------------------------------

  /**
   * The shoe and the hand are changed card by card and restored; the table
   * ends as StandHit gives it, which never panics.
   */
  method MemoizationCalculateStandHitExpectation(rule: Rule, hole: int, odds: (seq<int>, seq<int>) -> WinLose,
                                                 currentShoe: CardCount, currentHand: CardCount,
                                                 exStandHit: SingleStateArray<ExpectationStandHit>)
    requires currentShoe.Valid() && currentHand.Valid() && Disjoint(currentShoe, currentHand)
    requires IsHoleExclusion(hole) && exStandHit.default == DEFAULT_STAND_HIT
    modifies currentShoe, currentShoe.counts, currentHand, currentHand.counts, exStandHit
    ensures StandHit(rule, hole, odds, old(currentShoe.Counts()), old(currentHand.Counts()), old(exStandHit.data))
            == Some(exStandHit.data)
    ensures currentShoe.Valid() && currentHand.Valid()
            && currentShoe.Counts() == old(currentShoe.Counts()) && currentHand.Counts() == old(currentHand.Counts())
    decreases Total(currentShoe.Counts()), 2
  {
    ghost var s, h := currentShoe.Counts(), currentHand.Counts();
    if exStandHit.ContainsState(currentHand) {
      return;
    }
    if currentHand.Bust() {
      exStandHit.Set(currentHand, ExpectationStandHit(NegInf, Fin(-1.0)));
      return;
    }
    if currentHand.GetTotal() == rule.charlieNumber {
      exStandHit.Set(currentHand, ExpectationStandHit(NegInf, Fin(1.0)));
      return;
    }
    if currentHand.GetActualSum() == 21 {
      var standOdds := odds(currentHand.counts[..], currentShoe.counts[..]);
      var stand := if currentHand.IsNatural() then standOdds.win * rule.payoutBlackjack - standOdds.lose
                   else standOdds.win - standOdds.lose;
      assert stand == StandPayoff(rule, odds, h, s);
      exStandHit.Set(currentHand, ExpectationStandHit(NegInf, Fin(stand)));
      return;
    }
    exStandHit.Set(currentHand, ExpectationStandHit(Fin(0.0), NegInf));
    HitCards(rule, hole, odds, currentShoe, currentHand, exStandHit);
    ghost var m2 := exStandHit.data;
    var stand;
    if currentHand.GetActualSum() <= 11 && currentHand.GetTotal() != 3 {
      stand := NegInf;
    } else {
      var standOdds := odds(currentHand.counts[..], currentShoe.counts[..]);
      stand := Fin(standOdds.win - standOdds.lose);
    }
    assert stand == StandValue(odds, h, s);
    var cur := exStandHit.IndexMut(currentHand);
    exStandHit.Set(currentHand, cur.(stand := stand));
    assert exStandHit.data == m2[Key(h) := Get(m2, Key(h)).(stand := StandValue(odds, h, s))];
  }

  /** The hit loop in place. */
  method HitCards(rule: Rule, hole: int, odds: (seq<int>, seq<int>) -> WinLose,
                  currentShoe: CardCount, currentHand: CardCount, exStandHit: SingleStateArray<ExpectationStandHit>)
    requires currentShoe.Valid() && currentHand.Valid() && Disjoint(currentShoe, currentHand)
    requires IsHoleExclusion(hole) && exStandHit.default == DEFAULT_STAND_HIT
    requires Key(currentHand.Counts()) in exStandHit.data
    modifies currentShoe, currentShoe.counts, currentHand, currentHand.counts, exStandHit
    ensures HitLoop(rule, hole, odds, old(currentShoe.Counts()), old(currentHand.Counts()), 1, old(exStandHit.data))
            == Some(exStandHit.data)
    ensures currentShoe.Valid() && currentHand.Valid()
            && currentShoe.Counts() == old(currentShoe.Counts()) && currentHand.Counts() == old(currentHand.Counts())
    decreases Total(currentShoe.Counts()), 1
  {
    ghost var s, h := currentShoe.Counts(), currentHand.Counts();
    ghost var goal := HitLoop(rule, hole, odds, s, h, 1, exStandHit.data);
    HitLoopFacts(rule, hole, odds, s, h, 1, exStandHit.data);
    var i := 1;
    while i <= 10
      invariant 1 <= i <= 11
      invariant currentShoe.Valid() && currentHand.Valid()
      invariant currentShoe.Counts() == s && currentHand.Counts() == h
      invariant Key(h) in exStandHit.data
      invariant HitLoop(rule, hole, odds, s, h, i, exStandHit.data) == goal
    {
      if currentShoe.Count(i) != 0 {
        HitCard(rule, hole, odds, i, currentShoe, currentHand, exStandHit);
      }
      i := i + 1;
    }
    HitLoopFacts(rule, hole, odds, s, h, 11, exStandHit.data);
  }

  /** One rank of the hit loop: draw it, recurse, take it back and add its
      weighted best value to the hand's hit value. */
  method HitCard(rule: Rule, hole: int, odds: (seq<int>, seq<int>) -> WinLose, i: int,
                 currentShoe: CardCount, currentHand: CardCount, exStandHit: SingleStateArray<ExpectationStandHit>)
    requires currentShoe.Valid() && currentHand.Valid() && Disjoint(currentShoe, currentHand)
    requires IsHoleExclusion(hole) && exStandHit.default == DEFAULT_STAND_HIT
    requires 1 <= i <= 10 && currentShoe.Counts()[i - 1] > 0
    requires Key(currentHand.Counts()) in exStandHit.data
    modifies currentShoe, currentShoe.counts, currentHand, currentHand.counts, exStandHit
    ensures var s, h := old(currentShoe.Counts()), old(currentHand.Counts());
            HitLoop(rule, hole, odds, s, h, i, old(exStandHit.data))
            == HitLoop(rule, hole, odds, s, h, i + 1, exStandHit.data)
    ensures Key(old(currentHand.Counts())) in exStandHit.data
    ensures currentShoe.Valid() && currentHand.Valid()
            && currentShoe.Counts() == old(currentShoe.Counts()) && currentHand.Counts() == old(currentHand.Counts())
    decreases Total(currentShoe.Counts()), 0
  {
    ghost var s, h, m := currentShoe.Counts(), currentHand.Counts(), exStandHit.data;
    CountsBounds(s);
    DecValues(s, i);
    currentShoe.RemoveCard(i);
    currentHand.AddCard(i);
    MemoizationCalculateStandHitExpectation(rule, hole, odds, currentShoe, currentHand, exStandHit);
    ghost var m2 := exStandHit.data;
    StandHitFacts(rule, hole, odds, Dec(s, i), Inc(h, i), m);
    var best := MaxStandHitSurrender(exStandHit.data, currentHand.counts[..], rule);
    assert best.Some?;
    currentHand.RemoveCard(i);
    currentShoe.AddCard(i);
    IncDec(h, i);
    IncDec(s, i);
    var p := GetCardProbabilityCopy(currentShoe.counts[..], hole, i);
    var cur := exStandHit.IndexMut(currentHand);
    exStandHit.Set(currentHand, cur.(hit := Add(cur.hit, Scale(p, best.value.0))));
    assert exStandHit.data == AddToHit(m2, Key(h), Scale(p, best.value.0));
  }
}
