/**
 * The multi-threaded variant of the stand-and-hit calculation
 * (`multithreading_calculate_stand_hit_expectation` in
 * blackjack/src/calculation/stand_hit_ex.rs). It gathers every hand the
 * player can reach into buckets by number of cards, then makes three
 * passes: a classification that writes an entry for every pair and deals
 * the pairs that need the dealer's odds round-robin to the worker slots,
 * the stand values of the dealt pairs, and the hit values, from the
 * largest hands down, so that every child's entry is written before its
 * parent reads it. The workers' passes are run here one after the other.
 *
 * A pair holds count vectors rather than `CardCount`
 * objects; the table is accessed by the fingerprint of the vector, which
 * is the hash a valid `CardCount` of those counts carries.
 */
module StandHitPasses {
  import opened Wrappers
  import opened ExtReals
  import opened HandValue
  import opened StateArray
  import opened Rules
  import opened CardProbability
  import opened Expectations
  import opened CalculationStates
  import opened StandHitEx

  type Table = map<int, ExpectationStandHit>

  // ---------------------------------------------------------------------
  // Pairs
  // ---------------------------------------------------------------------

  /** Every pair holds a hand and a shoe of ten counts. */
  predicate ValidPairs(xs: seq<HandShoePair>)
  {
    forall i :: 0 <= i < |xs| ==> IsCounts(xs[i].hand) && IsCounts(xs[i].shoe)
  }

  predicate ValidBuckets(vp: seq<seq<HandShoePair>>)
  {
    forall a :: 0 <= a < |vp| ==> ValidPairs(vp[a])
  }

  /** No two pairs share a table key. */
  predicate DistinctKeys(xs: seq<HandShoePair>)
    requires ValidPairs(xs)
  {
    forall a, b :: 0 <= a < b < |xs| ==> Key(xs[a].hand) != Key(xs[b].hand)
  }

  /** The table keys of the pairs' hands. */
  function HandKeys(xs: seq<HandShoePair>): set<int>
    requires ValidPairs(xs)
  {
    set i | 0 <= i < |xs| :: Key(xs[i].hand)
  }

  /** The slots one after the other. */
  function Concat(slots: seq<seq<HandShoePair>>): seq<HandShoePair>
  {
    if slots == [] then [] else slots[0] + Concat(slots[1..])
  }

  lemma HandKeysCons(xs: seq<HandShoePair>)
    requires ValidPairs(xs) && xs != []
    ensures ValidPairs(xs[1..]) && HandKeys(xs) == {Key(xs[0].hand)} + HandKeys(xs[1..])
  {
    assert forall i :: 0 <= i < |xs| - 1 ==> xs[1..][i] == xs[i + 1];
    forall k | k in HandKeys(xs)
      ensures k in {Key(xs[0].hand)} + HandKeys(xs[1..])
    {
      var i :| 0 <= i < |xs| && k == Key(xs[i].hand);
      if i > 0 {
        assert k == Key(xs[1..][i - 1].hand);
      }
    }
  }

  lemma DistinctKeysCons(xs: seq<HandShoePair>)
    requires ValidPairs(xs) && xs != [] && DistinctKeys(xs)
    ensures ValidPairs(xs[1..]) && DistinctKeys(xs[1..]) && Key(xs[0].hand) !in HandKeys(xs[1..])
  {
    assert forall i :: 0 <= i < |xs| - 1 ==> xs[1..][i] == xs[i + 1];
  }

  lemma ConcatValid(slots: seq<seq<HandShoePair>>)
    requires ValidBuckets(slots)
    ensures ValidPairs(Concat(slots))
    decreases |slots|
  {
    if slots != [] {
      assert ValidBuckets(slots[1..]) by {
        assert forall a :: 0 <= a < |slots| - 1 ==> slots[1..][a] == slots[a + 1];
      }
      ConcatValid(slots[1..]);
    }
  }

  // ---------------------------------------------------------------------
  // The classification pass
  // ---------------------------------------------------------------------

  /** A hand whose stand value needs the dealer's odds: it is dealt to a
      worker slot. */
  predicate NeedsStandOdds(rule: Rule, h: seq<int>)
    requires |h| == RANKS
  {
    !Bust(h) && Total(h) != rule.charlieNumber && !(ActualSum(h) <= 11 && Total(h) != 3)
  }

  /**
   * The entry the classification leaves for a hand. A bust hand and a hand
   * at the Charlie number are settled by standing; a hand of at most 11
   * that does not hold three cards is only hit; a hand of 21 is only
   * stood on; any other hand may do both. A hit value of zero marks the
   * hands whose hit value the last pass computes.
   */
  function ClassEntry(rule: Rule, h: seq<int>): ExpectationStandHit
    requires |h| == RANKS
  {
    if Bust(h) then ExpectationStandHit(NegInf, Fin(-1.0))
    else if Total(h) == rule.charlieNumber then ExpectationStandHit(NegInf, Fin(1.0))
    else if ActualSum(h) <= 11 && Total(h) != 3 then ExpectationStandHit(Fin(0.0), NegInf)
    else if ActualSum(h) == 21 then ExpectationStandHit(NegInf, Fin(0.0))
    else ExpectationStandHit(Fin(0.0), Fin(0.0))
  }

  /** The state of the classification: the table, the worker slots and the
      number of pairs dealt so far. */
  datatype Classified = Classified(table: Table, slots: seq<seq<HandShoePair>>, count: nat)

  /** One pair: write its entry and, when it needs the dealer's odds, deal
      it to slot `count mod n`. */
  function ClassifyPair(rule: Rule, st: Classified, p: HandShoePair): (r: Classified)
    requires |st.slots| >= 1 && |p.hand| == RANKS
    ensures |r.slots| == |st.slots|
  {
    var m := st.table[Key(p.hand) := ClassEntry(rule, p.hand)];
    if NeedsStandOdds(rule, p.hand) then
      var j := st.count % |st.slots|;
      Classified(m, st.slots[j := st.slots[j] + [p]], st.count + 1)
    else st.(table := m)
  }

  function ClassifyList(rule: Rule, st: Classified, xs: seq<HandShoePair>): (r: Classified)
    requires |st.slots| >= 1 && ValidPairs(xs)
    ensures |r.slots| == |st.slots|
    ensures ValidBuckets(st.slots) ==> ValidBuckets(r.slots)
    decreases |xs|
  {
    if xs == [] then st
    else
      assert ValidPairs(xs[1..]) by {
        assert forall i :: 0 <= i < |xs| - 1 ==> xs[1..][i] == xs[i + 1];
      }
      ClassifyList(rule, ClassifyPair(rule, st, xs[0]), xs[1..])
  }

  /** The classification over the buckets in order. */
  function ClassifyBuckets(rule: Rule, st: Classified, vp: seq<seq<HandShoePair>>): (r: Classified)
    requires |st.slots| >= 1 && ValidBuckets(vp)
    ensures |r.slots| == |st.slots|
    ensures ValidBuckets(st.slots) ==> ValidBuckets(r.slots)
    decreases |vp|
  {
    if vp == [] then st
    else
      assert ValidBuckets(vp[1..]) by {
        assert forall a :: 0 <= a < |vp| - 1 ==> vp[1..][a] == vp[a + 1];
      }
      ClassifyBuckets(rule, ClassifyList(rule, st, vp[0]), vp[1..])
  }

  /** The pairs that are dealt, in order. */
  function Sent(rule: Rule, xs: seq<HandShoePair>): seq<HandShoePair>
    requires ValidPairs(xs)
    decreases |xs|
  {
    if xs == [] then []
    else
      assert ValidPairs(xs[1..]) by {
        assert forall i :: 0 <= i < |xs| - 1 ==> xs[1..][i] == xs[i + 1];
      }
      (if NeedsStandOdds(rule, xs[0].hand) then [xs[0]] else []) + Sent(rule, xs[1..])
  }

  /**
   * Over pairs with distinct keys, the classification writes exactly the
   * pairs' keys, each with the entry its hand calls for, and leaves every
   * other entry alone.
   */
  lemma {:induction false} ClassifyListTable(rule: Rule, st: Classified, xs: seq<HandShoePair>)
    requires |st.slots| >= 1 && ValidPairs(xs) && DistinctKeys(xs)
    ensures var r := ClassifyList(rule, st, xs).table;
            r.Keys == st.table.Keys + HandKeys(xs)
            && (forall i :: 0 <= i < |xs| ==> r[Key(xs[i].hand)] == ClassEntry(rule, xs[i].hand))
            && (forall k :: k in st.table && k !in HandKeys(xs) ==> r[k] == st.table[k])
    decreases |xs|
  {
    if xs != [] {
      var st1 := ClassifyPair(rule, st, xs[0]);
      HandKeysCons(xs);
      DistinctKeysCons(xs);
      ClassifyListTable(rule, st1, xs[1..]);
      var r := ClassifyList(rule, st, xs).table;
      assert r == ClassifyList(rule, st1, xs[1..]).table;
      forall i | 0 <= i < |xs|
        ensures r[Key(xs[i].hand)] == ClassEntry(rule, xs[i].hand)
      {
        if i > 0 {
          assert xs[i] == xs[1..][i - 1];
        }
      }
    } else {
      assert HandKeys(xs) == {};
    }
  }

  /** Adding a pair to one slot adds it to the pairs of all the slots. */
  lemma {:induction false} ConcatPush(slots: seq<seq<HandShoePair>>, j: int, p: HandShoePair)
    requires 0 <= j < |slots|
    ensures multiset(Concat(slots[j := slots[j] + [p]])) == multiset(Concat(slots)) + multiset{p}
    decreases |slots|
  {
    var q := slots[j := slots[j] + [p]];
    if j == 0 {
      assert q[1..] == slots[1..];
    } else {
      assert q[1..] == slots[1..][j - 1 := slots[1..][j - 1] + [p]];
      ConcatPush(slots[1..], j - 1, p);
    }
  }

  /**
   * Every pair that needs the dealer's odds is dealt to exactly one slot,
   * and no other pair is: the slots gain exactly the dealt pairs, and the
   * count grows by their number.
   */
  lemma {:induction false} ClassifyListSlots(rule: Rule, st: Classified, xs: seq<HandShoePair>)
    requires |st.slots| >= 1 && ValidPairs(xs)
    ensures var r := ClassifyList(rule, st, xs);
            r.count == st.count + |Sent(rule, xs)|
            && multiset(Concat(r.slots)) == multiset(Concat(st.slots)) + multiset(Sent(rule, xs))
    decreases |xs|
  {
    if xs != [] {
      assert ValidPairs(xs[1..]) by {
        assert forall i :: 0 <= i < |xs| - 1 ==> xs[1..][i] == xs[i + 1];
      }
      var st1 := ClassifyPair(rule, st, xs[0]);
      ClassifyListSlots(rule, st1, xs[1..]);
      if NeedsStandOdds(rule, xs[0].hand) {
        ConcatPush(st.slots, st.count % |st.slots|, xs[0]);
      }
    }
  }

  /** `number_of_threads` empty worker slots. */
  function EmptySlots(n: nat): (r: seq<seq<HandShoePair>>)
    ensures |r| == n && ValidBuckets(r)
  {
    seq(n, _ => [])
  }

  /** Round-robin dealing keeps the slots even: with c pairs dealt over n
      slots, the first c mod n slots hold c div n + 1 pairs and the others
      c div n. */
  predicate Balanced(slots: seq<seq<HandShoePair>>, count: nat)
    requires |slots| >= 1
  {
    forall j :: 0 <= j < |slots| ==> |slots[j]| == count / |slots| + (if j < count % |slots| then 1 else 0)
  }

  lemma MulAtLeast(d: int, n: int)
    requires d >= 1 && n >= 1
    ensures d * n >= n
  {
    assert d * n == (d - 1) * n + n;
    assert (d - 1) * n >= 0;
  }

  lemma DivModUnique(x: int, n: int, q: int, r: int)
    requires n >= 1 && 0 <= r < n && x == q * n + r
    ensures x / n == q && x % n == r
  {
    var q', r' := x / n, x % n;
    assert x == q' * n + r';
    assert (q - q') * n == r' - r by {
      assert (q - q') * n == q * n - q' * n;
    }
    assert (q' - q) * n == r - r' by {
      assert (q' - q) * n == q' * n - q * n;
    }
    if q > q' {
      MulAtLeast(q - q', n);
    } else if q < q' {
      MulAtLeast(q' - q, n);
    }
  }

  lemma DivModNext(c: nat, n: int)
    requires n >= 1
    ensures c % n == n - 1 ==> (c + 1) / n == c / n + 1 && (c + 1) % n == 0
    ensures c % n != n - 1 ==> (c + 1) / n == c / n && (c + 1) % n == c % n + 1
  {
    var q, r := c / n, c % n;
    assert c == q * n + r;
    if r == n - 1 {
      DivModUnique(c + 1, n, q + 1, 0);
    } else {
      DivModUnique(c + 1, n, q, r + 1);
    }
  }

  lemma {:induction false} ClassifyListBalanced(rule: Rule, st: Classified, xs: seq<HandShoePair>)
    requires |st.slots| >= 1 && ValidPairs(xs) && Balanced(st.slots, st.count)
    ensures var r := ClassifyList(rule, st, xs); Balanced(r.slots, r.count)
    decreases |xs|
  {
    if xs != [] {
      assert ValidPairs(xs[1..]) by {
        assert forall i :: 0 <= i < |xs| - 1 ==> xs[1..][i] == xs[i + 1];
      }
      var st1 := ClassifyPair(rule, st, xs[0]);
      if NeedsStandOdds(rule, xs[0].hand) {
        DivModNext(st.count, |st.slots|);
        assert Balanced(st1.slots, st1.count);
      }
      ClassifyListBalanced(rule, st1, xs[1..]);
    }
  }

  /** No slot holds anything before the first pair is dealt. */
  lemma EmptySlotsBalanced(n: nat)
    requires n >= 1
    ensures Balanced(EmptySlots(n), 0)
  {
  }

  // ---------------------------------------------------------------------
  // The stand pass
  // ---------------------------------------------------------------------

  /** A worker's write for one dealt pair: its stand value, from the
      dealer's odds against the pair's shoe. */
  function SetStand(rule: Rule, odds: (seq<int>, seq<int>) -> WinLose, m: Table, p: HandShoePair): Table
    requires |p.hand| == RANKS
  {
    var k := Key(p.hand);
    m[k := Get(m, k).(stand := Fin(StandPayoff(rule, odds, p.hand, p.shoe)))]
  }

  function StandPass(rule: Rule, odds: (seq<int>, seq<int>) -> WinLose, m: Table, ys: seq<HandShoePair>): Table
    requires ValidPairs(ys)
    decreases |ys|
  {
    if ys == [] then m
    else
      assert ValidPairs(ys[1..]) by {
        assert forall i :: 0 <= i < |ys| - 1 ==> ys[1..][i] == ys[i + 1];
      }
      StandPass(rule, odds, SetStand(rule, odds, m, ys[0]), ys[1..])
  }

  /** The slots one after the other. */
  function StandPassSlots(rule: Rule, odds: (seq<int>, seq<int>) -> WinLose, m: Table,
                          slots: seq<seq<HandShoePair>>): Table
    requires ValidBuckets(slots)
    decreases |slots|
  {
    if slots == [] then m
    else
      assert ValidBuckets(slots[1..]) by {
        assert forall a :: 0 <= a < |slots| - 1 ==> slots[1..][a] == slots[a + 1];
      }
      StandPassSlots(rule, odds, StandPass(rule, odds, m, slots[0]), slots[1..])
  }

  /**
   * Over pairs with distinct keys, the stand pass sets the stand value of
   * every pair's hand to its payoff, keeps its hit value, and leaves every
   * other entry alone.
   */
  lemma {:induction false} StandPassValues(rule: Rule, odds: (seq<int>, seq<int>) -> WinLose, m: Table,
                                           ys: seq<HandShoePair>)
    requires ValidPairs(ys) && DistinctKeys(ys)
    ensures var r := StandPass(rule, odds, m, ys);
            r.Keys == m.Keys + HandKeys(ys)
            && (forall i :: 0 <= i < |ys| ==>
                  r[Key(ys[i].hand)]
                  == Get(m, Key(ys[i].hand)).(stand := Fin(StandPayoff(rule, odds, ys[i].hand, ys[i].shoe))))
            && (forall k :: k in m && k !in HandKeys(ys) ==> r[k] == m[k])
    decreases |ys|
  {
    if ys != [] {
      HandKeysCons(ys);
      DistinctKeysCons(ys);
      var m1 := SetStand(rule, odds, m, ys[0]);
      StandPassValues(rule, odds, m1, ys[1..]);
      var r := StandPass(rule, odds, m, ys);
      assert r == StandPass(rule, odds, m1, ys[1..]);
      forall i | 0 <= i < |ys|
        ensures r[Key(ys[i].hand)]
                == Get(m, Key(ys[i].hand)).(stand := Fin(StandPayoff(rule, odds, ys[i].hand, ys[i].shoe)))
      {
        if i > 0 {
          assert ys[i] == ys[1..][i - 1];
          assert Key(ys[i].hand) != Key(ys[0].hand);
        }
      }
    } else {
      assert HandKeys(ys) == {};
    }
  }

  lemma {:induction false} StandPassAppend(rule: Rule, odds: (seq<int>, seq<int>) -> WinLose, m: Table,
                                           a: seq<HandShoePair>, b: seq<HandShoePair>)
    requires ValidPairs(a) && ValidPairs(b)
    ensures ValidPairs(a + b)
    ensures StandPass(rule, odds, m, a + b) == StandPass(rule, odds, StandPass(rule, odds, m, a), b)
    decreases |a|
  {
    if a != [] {
      assert (a + b)[1..] == a[1..] + b;
      assert ValidPairs(a[1..]) by {
        assert forall i :: 0 <= i < |a| - 1 ==> a[1..][i] == a[i + 1];
      }
      StandPassAppend(rule, odds, SetStand(rule, odds, m, a[0]), a[1..], b);
    } else {
      assert a + b == b;
    }
  }

  /** Running the slots one after the other is the pass over all their
      pairs in that order. */
  lemma {:induction false} StandPassSlotsFlat(rule: Rule, odds: (seq<int>, seq<int>) -> WinLose, m: Table,
                                              slots: seq<seq<HandShoePair>>)
    requires ValidBuckets(slots)
    ensures ValidPairs(Concat(slots))
    ensures StandPassSlots(rule, odds, m, slots) == StandPass(rule, odds, m, Concat(slots))
    decreases |slots|
  {
    ConcatValid(slots);
    if slots != [] {
      assert ValidBuckets(slots[1..]) by {
        assert forall a :: 0 <= a < |slots| - 1 ==> slots[1..][a] == slots[a + 1];
      }
      ConcatValid(slots[1..]);
      StandPassSlotsFlat(rule, odds, StandPass(rule, odds, m, slots[0]), slots[1..]);
      StandPassAppend(rule, odds, m, slots[0], Concat(slots[1..]));
    }
  }

  /** The stand value the first two passes leave for a hand. */
  function PassStand(rule: Rule, odds: (seq<int>, seq<int>) -> WinLose, h: seq<int>, s: seq<int>): ExtReal
    requires |h| == RANKS
  {
    if NeedsStandOdds(rule, h) then Fin(StandPayoff(rule, odds, h, s)) else ClassEntry(rule, h).stand
  }

  /**
   * The two variants agree: for a new hand, the stand value the first two
   * passes leave is the one the memoised recursion writes, and where the
   * classification does not mark the hit value for computing, it is the
   * recursion's hit value.
   */
  lemma PassesAgreeWithMemo(rule: Rule, hole: int, odds: (seq<int>, seq<int>) -> WinLose,
                            s: seq<int>, h: seq<int>, m: Table)
    requires IsCounts(s) && IsCounts(h) && IsHoleExclusion(hole) && Key(h) !in m
    ensures var r := StandHit(rule, hole, odds, s, h, m);
            r.Some? && Key(h) in r.value
            && r.value[Key(h)].stand == PassStand(rule, odds, h, s)
            && (ClassEntry(rule, h).hit != Fin(0.0) ==> r.value[Key(h)].hit == ClassEntry(rule, h).hit)
  {
    StandHitFacts(rule, hole, odds, s, h, m);
    if !Bust(h) && Total(h) != rule.charlieNumber && ActualSum(h) != 21 {
      StandHitEquation(rule, hole, odds, s, h, m);
      if IsNatural(h) {
        NaturalIsAceAndTen(h);
      }
    }
  }

  // ---------------------------------------------------------------------
  // The hit pass
  // ---------------------------------------------------------------------

  /** Every rank from i on left in the shoe leads to a hand whose best
      value the table can give. */
  predicate ChildrenKnown(rule: Rule, t: Table, h: seq<int>, s: seq<int>, i: int)
    requires |h| == RANKS && |s| == RANKS && 1 <= i
  {
    forall c :: i <= c <= 10 && s[c - 1] != 0 ==> MaxStandHitSurrender(t, Inc(h, c), rule).Some?
  }

  /** The card loop for one pair from rank i on; None is the panic of a
      child whose entry is missing. */
  function HitCardsPass(rule: Rule, hole: int, t: Table, h: seq<int>, s: seq<int>, i: int): Option<Table>
    requires IsCounts(h) && IsCounts(s) && IsHoleExclusion(hole) && 1 <= i <= 11
    decreases 11 - i
  {
    if i > 10 then Some(t)
    else if s[i - 1] == 0 then HitCardsPass(rule, hole, t, h, s, i + 1)
    else
      match MaxStandHitSurrender(t, Inc(h, i), rule)
      case None => None
      case Some(best) =>
        HitCardsPass(rule, hole, AddToHit(t, Key(h), Scale(GetCardProbabilityCopy(s, hole, i), best.0)), h, s, i + 1)
  }

  /**
   * The card loop panics exactly when a child's entry is missing, and
   * otherwise adds to the hand's hit value the sum of total expectation
   * over the table: nothing else changes.
   */
  lemma {:induction false} HitCardsPassEquation(rule: Rule, hole: int, t: Table, h: seq<int>, s: seq<int>, i: int)
    requires IsCounts(h) && IsCounts(s) && IsHoleExclusion(hole) && 1 <= i <= 11 && Key(h) in t
    ensures var r := HitCardsPass(rule, hole, t, h, s, i);
            (r.Some? <==> ChildrenKnown(rule, t, h, s, i))
            && (r.Some? ==> r.value == t[Key(h) := t[Key(h)].(hit := HitAcc(t, rule, hole, s, h, i, t[Key(h)].hit))])
    decreases 11 - i
  {
    if i <= 10 {
      ChildrenKnownStep(rule, t, h, s, i);
      if s[i - 1] == 0 {
        HitCardsPassEquation(rule, hole, t, h, s, i + 1);
      } else {
        var best := MaxStandHitSurrender(t, Inc(h, i), rule);
        if best.Some? {
          var x := Scale(GetCardProbabilityCopy(s, hole, i), best.value.0);
          var v := t[Key(h)].(hit := Add(t[Key(h)].hit, x));
          var t3 := AddToHit(t, Key(h), x);
          assert t3 == t[Key(h) := v];
          HitCardsPassEquation(rule, hole, t3, h, s, i + 1);
          ChildrenKnownFrame(rule, t, h, s, i + 1, v);
          HitAccFrame(t, rule, hole, s, h, i + 1, v.hit, v);
          assert HitAcc(t, rule, hole, s, h, i, t[Key(h)].hit) == HitAcc(t, rule, hole, s, h, i + 1, v.hit);
        }
      }
    }
  }

  lemma ChildrenKnownStep(rule: Rule, t: Table, h: seq<int>, s: seq<int>, i: int)
    requires |h| == RANKS && |s| == RANKS && 1 <= i <= 10
    ensures ChildrenKnown(rule, t, h, s, i)
            <==> (s[i - 1] != 0 ==> MaxStandHitSurrender(t, Inc(h, i), rule).Some?) && ChildrenKnown(rule, t, h, s, i + 1)
  {
  }

  /** Changing the hand's own entry does not change what is known of its
      children. */
  lemma ChildrenKnownFrame(rule: Rule, t: Table, h: seq<int>, s: seq<int>, i: int, v: ExpectationStandHit)
    requires |h| == RANKS && |s| == RANKS && 1 <= i
    ensures ChildrenKnown(rule, t[Key(h) := v], h, s, i) == ChildrenKnown(rule, t, h, s, i)
  {
    forall c | i <= c <= 10 && s[c - 1] != 0
      ensures MaxStandHitSurrender(t[Key(h) := v], Inc(h, c), rule) == MaxStandHitSurrender(t, Inc(h, c), rule)
    {
      KeyChangesOnAdd(h, c);
    }
  }

  /** One pair of the hit pass: skipped unless the classification marked
      its hit value; None is the panic of reading a missing entry. */
  function HitPair(rule: Rule, hole: int, t: Table, p: HandShoePair): Option<Table>
    requires IsCounts(p.hand) && IsCounts(p.shoe) && IsHoleExclusion(hole)
  {
    var k := Key(p.hand);
    if k !in t then None
    else if t[k].hit != Fin(0.0) then Some(t)
    else HitCardsPass(rule, hole, t, p.hand, p.shoe, 1)
  }

  /** The pairs of a bucket in order. */
  function HitPassList(rule: Rule, hole: int, t: Table, xs: seq<HandShoePair>): Option<Table>
    requires ValidPairs(xs) && IsHoleExclusion(hole)
    decreases |xs|
  {
    if xs == [] then Some(t)
    else
      assert ValidPairs(xs[1..]) by {
        assert forall i :: 0 <= i < |xs| - 1 ==> xs[1..][i] == xs[i + 1];
      }
      match HitPair(rule, hole, t, xs[0])
      case None => None
      case Some(t2) => HitPassList(rule, hole, t2, xs[1..])
  }

  /** The buckets below a, from the largest hands down. */
  function HitPassBuckets(rule: Rule, hole: int, t: Table, vp: seq<seq<HandShoePair>>, a: int): Option<Table>
    requires ValidBuckets(vp) && IsHoleExclusion(hole) && 0 <= a <= |vp|
    decreases a
  {
    if a == 0 then Some(t)
    else
      match HitPassList(rule, hole, t, vp[a - 1])
      case None => None
      case Some(t2) => HitPassBuckets(rule, hole, t2, vp, a - 1)
  }

  /**
   * A pair panics exactly when its hand has no entry, or its hit value is
   * marked and a child's entry is missing. A marked hand gets the sum of
   * total expectation over the table as it is when the pair comes up; any
   * other pair leaves the table as it is.
   */
  lemma HitPairFacts(rule: Rule, hole: int, t: Table, p: HandShoePair)
    requires IsCounts(p.hand) && IsCounts(p.shoe) && IsHoleExclusion(hole)
    ensures var r := HitPair(rule, hole, t, p);
            var k := Key(p.hand);
            (r.Some? <==> k in t && (t[k].hit != Fin(0.0) || ChildrenKnown(rule, t, p.hand, p.shoe, 1)))
            && (r.Some? && t[k].hit != Fin(0.0) ==> r.value == t)
            && (r.Some? && t[k].hit == Fin(0.0)
                ==> r.value == t[k := t[k].(hit := HitAcc(t, rule, hole, p.shoe, p.hand, 1, Fin(0.0)))])
  {
    if Key(p.hand) in t {
      HitCardsPassEquation(rule, hole, t, p.hand, p.shoe, 1);
    }
  }

  /** The hit pass over a bucket writes no new key, changes no stand value,
      and touches only the entries of the bucket's hands. */
  lemma {:induction false} HitPassListFrame(rule: Rule, hole: int, t: Table, xs: seq<HandShoePair>)
    requires ValidPairs(xs) && IsHoleExclusion(hole)
    ensures var r := HitPassList(rule, hole, t, xs);
            r.Some? ==> r.value.Keys == t.Keys
                        && (forall k :: k in t ==> r.value[k].stand == t[k].stand)
                        && (forall k :: k in t && k !in HandKeys(xs) ==> r.value[k] == t[k])
    decreases |xs|
  {
    if xs != [] {
      HandKeysCons(xs);
      HitPairFacts(rule, hole, t, xs[0]);
      var t2 := HitPair(rule, hole, t, xs[0]);
      if t2.Some? {
        HitPassListFrame(rule, hole, t2.value, xs[1..]);
      }
    }
  }

  /** The whole hit pass writes no new key and changes no stand value. */
  lemma {:induction false} HitPassBucketsFrame(rule: Rule, hole: int, t: Table, vp: seq<seq<HandShoePair>>, a: int)
    requires ValidBuckets(vp) && IsHoleExclusion(hole) && 0 <= a <= |vp|
    ensures var r := HitPassBuckets(rule, hole, t, vp, a);
            r.Some? ==> r.value.Keys == t.Keys && (forall k :: k in t ==> r.value[k].stand == t[k].stand)
    decreases a
  {
    if a > 0 {
      HitPassListFrame(rule, hole, t, vp[a - 1]);
      var t2 := HitPassList(rule, hole, t, vp[a - 1]);
      if t2.Some? {
        HitPassBucketsFrame(rule, hole, t2.value, vp, a - 1);
      }
    }
  }

  // ---------------------------------------------------------------------
  // The whole calculation
  // ---------------------------------------------------------------------

  /** The bucket of a hand is its number of cards. */
  function TotalFeature(c: seq<int>): nat
  {
    if |c| == RANKS && Total(c) >= 0 then Total(c) else 0
  }

  /** The three passes over the gathered buckets, with n worker slots. */
  function StandHitPasses(n: nat, rule: Rule, hole: int, odds: (seq<int>, seq<int>) -> WinLose,
                          vp: seq<seq<HandShoePair>>, m: Table): Option<Table>
    requires n >= 1 && ValidBuckets(vp) && IsHoleExclusion(hole)
  {
    var st := ClassifyBuckets(rule, Classified(m, EmptySlots(n), 0), vp);
    HitPassBuckets(rule, hole, StandPassSlots(rule, odds, st.table, st.slots), vp, |vp|)
  }

  lemma {:induction false} InBucketValid(xs: seq<HandShoePair>, feature: HandShoePair -> nat, k: nat)
    requires ValidPairs(xs)
    ensures ValidPairs(InBucket(xs, feature, k))
    decreases |xs|
  {
    if xs != [] {
      assert ValidPairs(xs[1..]) by {
        assert forall i :: 0 <= i < |xs| - 1 ==> xs[1..][i] == xs[i + 1];
      }
      InBucketValid(xs[1..], feature, k);
    }
  }

  /** The buckets `gather_hand_count_states` returns, by number of cards:
      every gathered pair holds count vectors. */
  function Gathered(recorded: set<int>, charlieNumber: int, h: seq<int>, s: seq<int>)
    : (vp: seq<seq<HandShoePair>>)
    requires IsCounts(h) && IsCounts(s)
    ensures ValidBuckets(vp)
  {
    var xs := HandStates(recorded, charlieNumber, h, s, 1);
    HandStatesShape(recorded, charlieNumber, h, s, 1);
    assert ValidPairs(xs);
    var vp := Bucketed([], xs, OnHand(TotalFeature));
    BucketedContents([], xs, OnHand(TotalFeature));
    assert forall a :: 0 <= a < |vp| ==> vp[a] == [] + InBucket(xs, OnHand(TotalFeature), a);
    forall a | 0 <= a < |vp|
      ensures ValidPairs(InBucket(xs, OnHand(TotalFeature), a))
    {
      InBucketValid(xs, OnHand(TotalFeature), a);
    }
    vp
  }

  // ---------------------------------------------------------------------
  // The passes in place
  // ---------------------------------------------------------------------

  /**
   * `multithreading_calculate_stand_hit_expectation`: gather the hands not
   * yet in the table into buckets by number of cards, then run the three
   * passes. The result is false where the Rust function panics on a missing
   * entry; otherwise the table ends as StandHitPasses gives it.
   */
  method MultithreadingCalculateStandHitExpectation(numberOfThreads: nat, rule: Rule, hole: int,
                                                    odds: (seq<int>, seq<int>) -> WinLose,
                                                    initialShoe: CardCount, initialHand: CardCount,
                                                    exStandHit: SingleStateArray<ExpectationStandHit>)
    returns (completed: bool)
    requires numberOfThreads >= 1 && initialShoe.Valid() && initialHand.Valid() && IsHoleExclusion(hole)
    modifies exStandHit
    ensures var vp := Gathered(old(exStandHit.data).Keys, rule.charlieNumber, initialHand.Counts(), initialShoe.Counts());
            var r := StandHitPasses(numberOfThreads, rule, hole, odds, vp, old(exStandHit.data));
            (completed <==> r.Some?) && (completed ==> exStandHit.data == r.value)
  {
    var validPairs := GatherHandCountStates(initialHand, initialShoe, rule.charlieNumber, TotalFeature, exStandHit);
    assert validPairs == Gathered(exStandHit.data.Keys, rule.charlieNumber, initialHand.Counts(), initialShoe.Counts());
    var dispatched := ClassifyPass(numberOfThreads, rule, validPairs, exStandHit);
    StandPassInPlace(rule, odds, dispatched, exStandHit);
    completed := HitPass(rule, hole, validPairs, exStandHit);
  }

  /** The classification pass: writes the entries and returns the slots. */
  method ClassifyPass(numberOfThreads: nat, rule: Rule, validPairs: seq<seq<HandShoePair>>,
                      exStandHit: SingleStateArray<ExpectationStandHit>)
    returns (dispatched: seq<seq<HandShoePair>>)
    requires numberOfThreads >= 1 && ValidBuckets(validPairs)
    modifies exStandHit
    ensures var st := ClassifyBuckets(rule, Classified(old(exStandHit.data), EmptySlots(numberOfThreads), 0), validPairs);
            ValidBuckets(dispatched) && exStandHit.data == st.table && dispatched == st.slots
  {
    dispatched := [];
    var j := 0;
    while j < numberOfThreads
      invariant 0 <= j <= numberOfThreads && dispatched == EmptySlots(j)
    {
      dispatched := dispatched + [[]];
      j := j + 1;
    }
    ghost var goal := ClassifyBuckets(rule, Classified(exStandHit.data, dispatched, 0), validPairs);
    var stateCount := 0;
    var a := 0;
    while a < |validPairs|
      invariant 0 <= a <= |validPairs| && |dispatched| == numberOfThreads && ValidBuckets(dispatched)
      invariant ValidBuckets(validPairs[a..])
      invariant ClassifyBuckets(rule, Classified(exStandHit.data, dispatched, stateCount), validPairs[a..]) == goal
    {
      var pairs := validPairs[a];
      assert validPairs[a..][0] == pairs && validPairs[a..][1..] == validPairs[a + 1..];
      var b := 0;
      while b < |pairs|
        invariant 0 <= b <= |pairs| && |dispatched| == numberOfThreads && ValidBuckets(dispatched)
        invariant ValidPairs(pairs[b..])
        invariant ClassifyBuckets(rule, ClassifyList(rule, Classified(exStandHit.data, dispatched, stateCount), pairs[b..]),
                                  validPairs[a + 1..]) == goal
      {
        var pair := pairs[b];
        assert pairs[b..][0] == pair && pairs[b..][1..] == pairs[b + 1..];
        dispatched, stateCount := ClassifyOne(rule, pair, dispatched, stateCount, exStandHit);
        b := b + 1;
      }
      assert pairs[b..] == [];
      a := a + 1;
    }
  }

  /** One pair of the classification. */
  method ClassifyOne(rule: Rule, pair: HandShoePair, dispatched: seq<seq<HandShoePair>>, stateCount: nat,
                     exStandHit: SingleStateArray<ExpectationStandHit>)
    returns (slots: seq<seq<HandShoePair>>, count: nat)
    requires |dispatched| >= 1 && IsCounts(pair.hand)
    modifies exStandHit
    ensures Classified(exStandHit.data, slots, count)
            == ClassifyPair(rule, Classified(old(exStandHit.data), dispatched, stateCount), pair)
  {
    slots := dispatched;
    count := stateCount;
    var k := Key(pair.hand);
    if Bust(pair.hand) {
      exStandHit.data := exStandHit.data[k := ExpectationStandHit(NegInf, Fin(-1.0))];
    } else if Total(pair.hand) == rule.charlieNumber {
      exStandHit.data := exStandHit.data[k := ExpectationStandHit(NegInf, Fin(1.0))];
    } else if ActualSum(pair.hand) <= 11 && Total(pair.hand) != 3 {
      exStandHit.data := exStandHit.data[k := ExpectationStandHit(Fin(0.0), NegInf)];
    } else {
      exStandHit.data := exStandHit.data[k := ExpectationStandHit(Fin(0.0), Fin(0.0))];
      if ActualSum(pair.hand) == 21 {
        exStandHit.data := exStandHit.data[k := ExpectationStandHit(NegInf, Fin(0.0))];
      }
      var slot := stateCount % |dispatched|;
      slots := dispatched[slot := dispatched[slot] + [pair]];
      count := stateCount + 1;
    }
  }

  /** The stand pass, one slot after the other. */
  method StandPassInPlace(rule: Rule, odds: (seq<int>, seq<int>) -> WinLose, dispatched: seq<seq<HandShoePair>>,
                          exStandHit: SingleStateArray<ExpectationStandHit>)
    requires ValidBuckets(dispatched)
    modifies exStandHit
    ensures exStandHit.data == StandPassSlots(rule, odds, old(exStandHit.data), dispatched)
  {
    ghost var goal := StandPassSlots(rule, odds, exStandHit.data, dispatched);
    var a := 0;
    while a < |dispatched|
      invariant 0 <= a <= |dispatched| && ValidBuckets(dispatched[a..])
      invariant StandPassSlots(rule, odds, exStandHit.data, dispatched[a..]) == goal
    {
      var pairs := dispatched[a];
      assert dispatched[a..][0] == pairs && dispatched[a..][1..] == dispatched[a + 1..];
      var b := 0;
      while b < |pairs|
        invariant 0 <= b <= |pairs| && ValidPairs(pairs[b..])
        invariant StandPassSlots(rule, odds, StandPass(rule, odds, exStandHit.data, pairs[b..]), dispatched[a + 1..])
                  == goal
      {
        var pair := pairs[b];
        assert pairs[b..][0] == pair && pairs[b..][1..] == pairs[b + 1..];
        SetStandInPlace(rule, odds, pair, exStandHit);
        b := b + 1;
      }
      assert pairs[b..] == [];
      a := a + 1;
    }
  }

  /** One worker's write for one pair. */
  method SetStandInPlace(rule: Rule, odds: (seq<int>, seq<int>) -> WinLose, pair: HandShoePair,
                         exStandHit: SingleStateArray<ExpectationStandHit>)
    requires |pair.hand| == RANKS
    modifies exStandHit
    ensures exStandHit.data == SetStand(rule, odds, old(exStandHit.data), pair)
  {
    var standOdds := odds(pair.hand, pair.shoe);
    var stand := if IsNatural(pair.hand) then standOdds.win * rule.payoutBlackjack - standOdds.lose
                 else standOdds.win - standOdds.lose;
    assert stand == StandPayoff(rule, odds, pair.hand, pair.shoe);
    var k := Key(pair.hand);
    var cur := Get(exStandHit.data, k);
    exStandHit.data := exStandHit.data[k := cur.(stand := Fin(stand))];
  }

  /** What is left of the hit pass once the pairs of the current bucket
      have given table o. */
  ghost function ThenBuckets(rule: Rule, hole: int, o: Option<Table>, vp: seq<seq<HandShoePair>>, a: int)
    : Option<Table>
    requires ValidBuckets(vp) && IsHoleExclusion(hole) && 0 <= a <= |vp|
  {
    match o
    case None => None
    case Some(t) => HitPassBuckets(rule, hole, t, vp, a)
  }

  /** The hit pass, from the last bucket down. */
  method HitPass(rule: Rule, hole: int, validPairs: seq<seq<HandShoePair>>,
                 exStandHit: SingleStateArray<ExpectationStandHit>)
    returns (completed: bool)
    requires ValidBuckets(validPairs) && IsHoleExclusion(hole)
    modifies exStandHit
    ensures var r := HitPassBuckets(rule, hole, old(exStandHit.data), validPairs, |validPairs|);
            (completed <==> r.Some?) && (completed ==> exStandHit.data == r.value)
  {
    ghost var goal := HitPassBuckets(rule, hole, exStandHit.data, validPairs, |validPairs|);
    var a := |validPairs|;
    while a > 0
      invariant 0 <= a <= |validPairs|
      invariant HitPassBuckets(rule, hole, exStandHit.data, validPairs, a) == goal
    {
      var pairs := validPairs[a - 1];
      var b := 0;
      while b < |pairs|
        invariant 0 <= b <= |pairs| && ValidPairs(pairs[b..])
        invariant ThenBuckets(rule, hole, HitPassList(rule, hole, exStandHit.data, pairs[b..]), validPairs, a - 1) == goal
      {
        var pair := pairs[b];
        assert pairs[b..][0] == pair && pairs[b..][1..] == pairs[b + 1..];
        var ok := HitOnePair(rule, hole, pair, exStandHit);
        if !ok {
          return false;
        }
        b := b + 1;
      }
      assert pairs[b..] == [];
      a := a - 1;
    }
    return true;
  }

  /** One pair of the hit pass in place. */
  method HitOnePair(rule: Rule, hole: int, pair: HandShoePair, exStandHit: SingleStateArray<ExpectationStandHit>)
    returns (ok: bool)
    requires IsCounts(pair.hand) && IsCounts(pair.shoe) && IsHoleExclusion(hole)
    modifies exStandHit
    ensures var r := HitPair(rule, hole, old(exStandHit.data), pair);
            (ok <==> r.Some?) && (ok ==> exStandHit.data == r.value)
  {
    var k := Key(pair.hand);
    if k !in exStandHit.data {
      return false;
    }
    if exStandHit.data[k].hit != Fin(0.0) {
      return true;
    }
    ghost var goal := HitCardsPass(rule, hole, exStandHit.data, pair.hand, pair.shoe, 1);
    var nextCard := 1;
    while nextCard <= 10
      invariant 1 <= nextCard <= 11
      invariant HitCardsPass(rule, hole, exStandHit.data, pair.hand, pair.shoe, nextCard) == goal
    {
      if pair.shoe[nextCard - 1] != 0 {
        var best := MaxStandHitSurrender(exStandHit.data, Inc(pair.hand, nextCard), rule);
        if best.None? {
          return false;
        }
        var p := GetCardProbabilityCopy(pair.shoe, hole, nextCard);
        var cur := Get(exStandHit.data, k);
        exStandHit.data := exStandHit.data[k := cur.(hit := Add(cur.hit, Scale(p, best.value.0)))];
      }
      nextCard := nextCard + 1;
    }
    return true;
  }
}
