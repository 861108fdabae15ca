/**
 * The expectations of a split pair (blackjack/src/calculation/split_ex.rs).
 * The player splits a pair into hand 0 and hand 1 and plays hand 0 first;
 * a table entry is keyed by (hand 0, the state hand 0 ended in, hand 1).
 * `Aux0` plays hand 0 (state placeholder: still in play), `Aux1` plays
 * hand 1 once hand 0 has ended, and `Aux2` settles both hands against the
 * dealer's final-value distribution for the remaining shoe, which it
 * memoises per shoe. Split aces without further decisions take one card
 * each (`DoubleAces`).
 *
 * The dealer's distribution comes from the dealer recursion keyed by the
 * extra hand (StandOdds.DealerGetCardsByHand), under which the root entry
 * is always present.
 *
 * The functions describe the recursion on values: the table as a map, the
 * shoe and the hands as count vectors. The methods at the end are the
 * in-place recursion over the mutable containers, each proved to leave the
 * tables as its function says and to restore the shoe and the hands.
 */
module SplitEx {
  import opened Wrappers
  import opened ExtReals
  import opened HandValue
  import opened StateArray
  import opened Rules
  import opened CardProbability
  import opened DealerProbability
  import opened StandOdds
  import Expectations

  // ---------------------------------------------------------------------
  // Entries
  // ---------------------------------------------------------------------

  /**
   * The expectations of the four decisions for the hand in play. The
   * entry types without a double or a surrender field are this one with
   * that field never written and never read.
   */
  datatype AfterSplit = AfterSplit(stand: ExtReal, hit: ExtReal, double: ExtReal, surrender: ExtReal)

  /** The default entry: no decision evaluated. */
  const DEFAULT_AFTER_SPLIT: AfterSplit := AfterSplit(NegInf, NegInf, NegInf, NegInf)

  /** The two constants of the entry type: whether doubling after a split
      and late surrender are available. */
  datatype Kind = Kind(allowDas: bool, allowLateSurrender: bool)

  datatype Field = StandField | HitField | DoubleField | SurrenderField

  /** The setter of one field. */
  function SetField(e: AfterSplit, f: Field, v: ExtReal): AfterSplit
  {
    match f
    case StandField => e.(stand := v)
    case HitField => e.(hit := v)
    case DoubleField => e.(double := v)
    case SurrenderField => e.(surrender := v)
  }

  /** The decisions the entry type offers, in the order they are scanned. */
  function Candidates(kind: Kind, e: AfterSplit): (cs: seq<(ExtReal, Decision)>)
    ensures 2 <= |cs| <= 4
  {
    [(e.stand, Decision.Stand), (e.hit, Decision.Hit)]
    + (if kind.allowDas then [(e.double, Decision.Double)] else [])
    + (if kind.allowLateSurrender then [(e.surrender, Decision.Surrender)] else [])
  }

  /**
   * `get_max_expectation`: start from standing, and let hitting, then
   * doubling (when offered), then surrendering (when offered) replace the
   * best only when strictly larger.
   */
  function GetMaxExpectation(kind: Kind, e: AfterSplit): (ExtReal, Decision)
  {
    var best0 := (e.stand, Decision.Stand);
    var best1 := if Less(best0.0, e.hit) then (e.hit, Decision.Hit) else best0;
    var best2 := if kind.allowDas && Less(best1.0, e.double) then (e.double, Decision.Double) else best1;
    if kind.allowLateSurrender && Less(best2.0, e.surrender) then (e.surrender, Decision.Surrender) else best2
  }

  /** The result is the first maximum of the offered decisions: no offered
      decision is better, and every earlier one is strictly worse. */
  lemma GetMaxIsFirstMax(kind: Kind, e: AfterSplit) returns (i: int)
    ensures Expectations.FirstMaxAt(Expectations.Values(Candidates(kind, e)), i)
    ensures GetMaxExpectation(kind, e) == Candidates(kind, e)[i]
  {
    var cs := Candidates(kind, e);
    var s2 := Expectations.Pick(cs[0], cs[1]);
    assert Expectations.Scan(cs[..2]) == s2 by {
      assert cs[..2][..1] == [cs[0]];
    }
    if |cs| == 2 {
      assert cs[..2] == cs;
    } else if |cs| == 3 {
      assert cs[..3][..2] == cs[..2];
      assert cs[..3] == cs;
    } else {
      assert cs[..3][..2] == cs[..2];
      assert cs[..4][..3] == cs[..3];
      assert cs[..4] == cs;
    }
    i := Expectations.ScanIsFirstMax(cs);
  }

  // ---------------------------------------------------------------------
  // One hand against the dealer
  // ---------------------------------------------------------------------

  /**
   * `calculate_expectation_for_one_hand`: a surrendered hand loses half
   * its bet, a bust hand loses it, a hand at the Charlie number wins it;
   * any other hand wins with the probability that the dealer ends below it
   * and loses with the probability that the dealer ends above it, at twice the
   * stake when doubled.
   */
  function OneHand(rule: Rule, h: seq<int>, st: HandState, d: Dist): real
    requires IsCounts(h)
  {
    if st == HandState.Surrender then -0.5
    else if Bust(h) then -1.0
    else if Total(h) == rule.charlieNumber then 1.0
    else
      CountsBounds(h);
      ActualSumIsBestTotal(h);
      var x := ActualSum(h);
      var ret := PWorseThanPlayer(d, x).value - PBetterThanPlayer(d, x).value;
      if st == HandState.Double then ret * 2.0 else ret
  }

  /** The stake of a hand that is played out: twice the bet for a doubled
      hand. */
  function Stake(st: HandState): real
  {
    if st == HandState.Double then 2.0 else 1.0
  }

  /**
   * Against a dealer who surely ends with outcome o, a hand that neither
   * surrendered, busted nor reached the Charlie number wins its stake when
   * the dealer ends below it, loses it when the dealer ends above it, and pushes
   * otherwise.
   */
  lemma OneHandAgainstOneEnding(rule: Rule, h: seq<int>, st: HandState, o: DealerOutcome)
    requires IsCounts(h) && ValidOutcome(o) && st != HandState.Surrender
    requires !Bust(h) && Total(h) != rule.charlieNumber
    ensures var x := ActualSum(h);
            OneHand(rule, h, st, Leaf(o))
            == if DealerWorse(o, x) then Stake(st) else if DealerBetter(o, x) then -Stake(st) else 0.0
  {
    CountsBounds(h);
    ActualSumIsBestTotal(h);
    LeafLookups(o, ActualSum(h));
  }

  /** Bust and Charlie hands are worth -1 and 1 whatever the dealer does,
      and a surrendered hand -1/2. */
  lemma OneHandIgnoresDealer(rule: Rule, h: seq<int>, st: HandState, d: Dist, d': Dist)
    requires IsCounts(h)
    requires st == HandState.Surrender || Bust(h) || Total(h) == rule.charlieNumber
    ensures OneHand(rule, h, st, d) == OneHand(rule, h, st, d')
    ensures OneHand(rule, h, st, d) == if st == HandState.Surrender then -0.5 else if Bust(h) then -1.0 else 1.0
  {
  }

  // ---------------------------------------------------------------------
  // The dealer's distribution per shoe
  // ---------------------------------------------------------------------

  /** The callbacks that build a dealer distribution. `end_with_dealer_normal`
      subtracts 16 from the dealer's value without a check; the dealer stands only on
      17 or more, so the guard never applies. */
  function DistHandler(): Handler<Dist>
  {
    var bust: Dist -> Dist := d => EndWithBust(d);
    var normal: (Dist, int, int) -> Dist := (d, v, playerSum) => if v >= 16 then EndWithNormal(d, v) else d;
    var natural: Dist -> Dist := d => EndWithNatural(d);
    var addWithP: (Dist, Dist, real) -> Dist := (a, b, p) => AddAssignWithP(a, b, p);
    Handler(bust, normal, natural, addWithP)
  }

  /** The dealer table of a shoe: the dealer recursion from the empty extra
      hand, drawing ranks lo..hi first, on an empty table. */
  function DealerTable(rule: Rule, up: int, lo: int, hi: int, s: seq<int>): (m: map<int, Dist>)
    requires IsCounts(s) && DrawRange(lo, hi)
    ensures 0 in m
  {
    SmallKeys();
    ByHandNeverPanics(DistHandler(), rule, 0, up, s, EMPTY, lo, hi, map[], ZERO);
    DealerGetCardsByHand(DistHandler(), rule, 0, up, s, EMPTY, lo, hi, map[], ZERO).value
  }

  /** Every dealer table holds the root entry (key 0, the empty extra
      hand) that the settlement reads. */
  predicate DealerTablesValid(dps: map<int, map<int, Dist>>)
  {
    forall k :: k in dps ==> 0 in dps[k]
  }

  /** The split expectations and the dealer tables, keyed by shoe. */
  datatype Tables = Tables(ex: map<int, AfterSplit>, dps: map<int, map<int, Dist>>)

  /** The key of a pair with the state of hand 0. */
  function PairKey(h0: seq<int>, st0: HandState, h1: seq<int>): int
    requires |h0| == RANKS && |h1| == RANKS
  {
    Pack(Key(h0), st0, Key(h1))
  }

  /** Writing one field of an entry through the mutable access, which
      inserts the default first when the entry is missing. */
  function Put(t: Tables, k: int, f: Field, v: ExtReal): (r: Tables)
    ensures r.dps == t.dps && r.ex.Keys == t.ex.Keys + {k}
  {
    t.(ex := t.ex[k := SetField(Entry(t.ex, k, DEFAULT_AFTER_SPLIT), f, v)])
  }

  /** The field the settlement writes for the state hand 1 ends in. */
  function FieldOf(st1: HandState): Field
  {
    match st1
    case Surrender => SurrenderField
    case Double => DoubleField
    case _ => StandField
  }

  /** A hand that can only stand: bust, or at the Charlie number. */
  predicate Settled(rule: Rule, h: seq<int>)
    requires |h| == RANKS
  {
    Bust(h) || Total(h) == rule.charlieNumber
  }

  // ---------------------------------------------------------------------
  // Settlement
  // ---------------------------------------------------------------------

  /**
   * `memoization_calculate_split_expectation_aux2`: the dealer table of
   * the shoe is built when the shoe has none, and the pair's value, the
   * sum of both hands' values against the table's root distribution, is
   * written into the field of the state hand 1 ends in. Nothing else
   * changes.
   */
  function Aux2(rule: Rule, up: int, lo: int, hi: int, s: seq<int>, h0: seq<int>, st0: HandState,
                h1: seq<int>, st1: HandState, t: Tables): (r: Tables)
    requires IsCounts(s) && IsCounts(h0) && IsCounts(h1) && DrawRange(lo, hi)
    requires st1 != HandState.PlaceHolder && DealerTablesValid(t.dps)
    ensures DealerTablesValid(r.dps) && Key(s) in r.dps
    ensures r.dps == if Key(s) in t.dps then t.dps else t.dps[Key(s) := DealerTable(rule, up, lo, hi, s)]
    ensures var k := PairKey(h0, st0, h1);
            var d := r.dps[Key(s)][0];
            r.ex == t.ex[k := SetField(Entry(t.ex, k, DEFAULT_AFTER_SPLIT), FieldOf(st1),
                                       Fin(OneHand(rule, h0, st0, d) + OneHand(rule, h1, st1, d)))]
  {
    var dps := if Key(s) in t.dps then t.dps else t.dps[Key(s) := DealerTable(rule, up, lo, hi, s)];
    var d := dps[Key(s)][0];
    Put(Tables(t.ex, dps), PairKey(h0, st0, h1), FieldOf(st1),
        Fin(OneHand(rule, h0, st0, d) + OneHand(rule, h1, st1, d)))
  }

  // ---------------------------------------------------------------------
  // Hand 1
  // ---------------------------------------------------------------------

  /** The accumulation of a draw loop: the tables and the running sum. */
  datatype Step = Step(t: Tables, acc: ExtReal)

  /**
   * `memoization_calculate_split_expectation_aux1`: hand 0 has ended in
   * state st0 and hand 1 is played. Both hands settled: the pair is worth
   * the sum of their fixed values by standing. Otherwise standing on more
   * than 11 is settled, and unless hand 1 is settled or at 21 it may hit
   * (every rank, and after a hit the dealer draws from every rank),
   * surrender, and double on two cards.
   */
  function Aux1(kind: Kind, rule: Rule, up: int, hole: int, lo: int, hi: int, s: seq<int>,
                h0: seq<int>, st0: HandState, h1: seq<int>, t: Tables): (r: Tables)
    requires IsCounts(s) && IsCounts(h0) && IsCounts(h1) && IsHoleExclusion(hole) && DrawRange(lo, hi)
    requires DealerTablesValid(t.dps)
    ensures DealerTablesValid(r.dps) && t.ex.Keys <= r.ex.Keys && PairKey(h0, st0, h1) in r.ex
    ensures PairKey(h0, st0, h1) in t.ex ==> r == t
    decreases Total(s), 2, 2
  {
    var k := PairKey(h0, st0, h1);
    if k in t.ex then t
    else Aux1Fresh(kind, rule, up, hole, lo, hi, s, h0, st0, h1, t.(ex := t.ex[k := DEFAULT_AFTER_SPLIT]))
  }

  /** The pair once its default entry is in: both hands settled, or hand 1
      played. */
  function Aux1Fresh(kind: Kind, rule: Rule, up: int, hole: int, lo: int, hi: int, s: seq<int>,
                     h0: seq<int>, st0: HandState, h1: seq<int>, t0: Tables): (r: Tables)
    requires IsCounts(s) && IsCounts(h0) && IsCounts(h1) && IsHoleExclusion(hole) && DrawRange(lo, hi)
    requires DealerTablesValid(t0.dps) && PairKey(h0, st0, h1) in t0.ex
    ensures DealerTablesValid(r.dps) && t0.ex.Keys <= r.ex.Keys
    decreases Total(s), 2, 1
  {
    var k := PairKey(h0, st0, h1);
    if Settled(rule, h0) && Settled(rule, h1) then
      Put(t0, k, StandField, Fin((if Bust(h0) then -1.0 else 1.0) + (if Bust(h1) then -1.0 else 1.0)))
    else Aux1Play(kind, rule, up, hole, lo, hi, s, h0, st0, h1, t0)
  }

  /** Hand 1 played: its stand above 11, then its other moves unless it is
      settled or at 21. */
  function Aux1Play(kind: Kind, rule: Rule, up: int, hole: int, lo: int, hi: int, s: seq<int>,
                    h0: seq<int>, st0: HandState, h1: seq<int>, t0: Tables): (r: Tables)
    requires IsCounts(s) && IsCounts(h0) && IsCounts(h1) && IsHoleExclusion(hole) && DrawRange(lo, hi)
    requires DealerTablesValid(t0.dps) && PairKey(h0, st0, h1) in t0.ex
    ensures DealerTablesValid(r.dps) && t0.ex.Keys <= r.ex.Keys
    decreases Total(s), 2, 0
  {
    var t1 := if ActualSum(h1) > 11 then Aux2(rule, up, lo, hi, s, h0, st0, h1, HandState.Normal, t0) else t0;
    if Settled(rule, h1) || ActualSum(h1) == 21 then t1
    else Aux1Moves(kind, rule, up, hole, lo, hi, s, h0, st0, h1, t1)
  }

  /** Hand 1's hit, surrender and double, written into the pair's entry
      after its stand. */
  function Aux1Moves(kind: Kind, rule: Rule, up: int, hole: int, lo: int, hi: int, s: seq<int>,
                     h0: seq<int>, st0: HandState, h1: seq<int>, t: Tables): (r: Tables)
    requires IsCounts(s) && IsCounts(h0) && IsCounts(h1) && IsHoleExclusion(hole) && DrawRange(lo, hi)
    requires DealerTablesValid(t.dps)
    ensures DealerTablesValid(r.dps) && t.ex.Keys + {PairKey(h0, st0, h1)} <= r.ex.Keys
    decreases Total(s), 1
  {
    var k := PairKey(h0, st0, h1);
    var hit := Aux1Hit(kind, rule, up, hole, s, h0, st0, h1, 1, Step(t, Fin(0.0)));
    var t2 := Put(hit.t, k, HitField, hit.acc);
    var t3 := if kind.allowLateSurrender then Aux2(rule, up, lo, hi, s, h0, st0, h1, HandState.Surrender, t2)
              else t2;
    Aux1DoubleMove(kind, rule, up, hole, lo, hi, s, h0, st0, h1, t3)
  }

  /** Doubling hand 1 on two cards, when the entry type offers it. */
  function Aux1DoubleMove(kind: Kind, rule: Rule, up: int, hole: int, lo: int, hi: int, s: seq<int>,
                          h0: seq<int>, st0: HandState, h1: seq<int>, t: Tables): (r: Tables)
    requires IsCounts(s) && IsCounts(h0) && IsCounts(h1) && IsHoleExclusion(hole) && DrawRange(lo, hi)
    requires DealerTablesValid(t.dps)
    ensures DealerTablesValid(r.dps) && t.ex.Keys <= r.ex.Keys
  {
    if kind.allowDas && Total(h1) == 2 then
      var dbl := Aux1Double(kind, rule, up, hole, lo, hi, s, h0, st0, h1, 1, Step(t, Fin(0.0)));
      Put(dbl.t, PairKey(h0, st0, h1), DoubleField, dbl.acc)
    else t
  }

  /** Hand 1's hit loop over ranks i..10: each rank of non-zero probability
      adds its probability times the best value of the pair with that card. */
  function Aux1Hit(kind: Kind, rule: Rule, up: int, hole: int, s: seq<int>, h0: seq<int>, st0: HandState,
                   h1: seq<int>, i: int, st: Step): (r: Step)
    requires IsCounts(s) && IsCounts(h0) && IsCounts(h1) && IsHoleExclusion(hole) && 1 <= i <= 11
    requires DealerTablesValid(st.t.dps)
    ensures DealerTablesValid(r.t.dps) && st.t.ex.Keys <= r.t.ex.Keys
    decreases Total(s), 0, 11 - i
  {
    if i > 10 then st
    else
      var p := GetCardProbabilityCopy(s, hole, i);
      if p == 0.0 then Aux1Hit(kind, rule, up, hole, s, h0, st0, h1, i + 1, st)
      else
        CopyOfAbsent(s, hole, i);
        CountsBounds(s);
        DecValues(s, i);
        var child := Aux1(kind, rule, up, hole, 1, 10, Dec(s, i), h0, st0, Inc(h1, i), st.t);
        var best := GetMaxExpectation(kind, child.ex[PairKey(h0, st0, Inc(h1, i))]).0;
        Aux1Hit(kind, rule, up, hole, s, h0, st0, h1, i + 1, Step(child, Add(st.acc, Scale(p, best))))
  }

  /** Hand 1's double loop over ranks i..10: the doubled hand with each
      card is settled, and the best value recorded for the pair with that
      card is accumulated. */
  function Aux1Double(kind: Kind, rule: Rule, up: int, hole: int, lo: int, hi: int, s: seq<int>,
                      h0: seq<int>, st0: HandState, h1: seq<int>, i: int, st: Step): (r: Step)
    requires IsCounts(s) && IsCounts(h0) && IsCounts(h1) && IsHoleExclusion(hole) && DrawRange(lo, hi)
    requires 1 <= i <= 11 && DealerTablesValid(st.t.dps)
    ensures DealerTablesValid(r.t.dps) && st.t.ex.Keys <= r.t.ex.Keys
    decreases 11 - i
  {
    if i > 10 then st
    else
      var p := GetCardProbabilityCopy(s, hole, i);
      if p == 0.0 then Aux1Double(kind, rule, up, hole, lo, hi, s, h0, st0, h1, i + 1, st)
      else
        CopyOfAbsent(s, hole, i);
        var child := Aux2(rule, up, lo, hi, Dec(s, i), h0, st0, Inc(h1, i), HandState.Double, st.t);
        var best := GetMaxExpectation(kind, child.ex[PairKey(h0, st0, Inc(h1, i))]).0;
        Aux1Double(kind, rule, up, hole, lo, hi, s, h0, st0, h1, i + 1, Step(child, Add(st.acc, Scale(p, best))))
  }

  // ---------------------------------------------------------------------
  // Hand 0
  // ---------------------------------------------------------------------

  /**
   * `memoization_calculate_split_expectation_aux0`: hand 0 is played with
   * hand 1 waiting. Standing (only above 11) is worth the best play of
   * hand 1 after it; a settled hand or a 21 stops there. Otherwise hitting
   * (every rank; after a hit the dealer draws from every rank), surrender
   * and, on two cards, doubling are each worth the best play of hand 1
   * after hand 0 ends that way.
   */
  function Aux0(kind: Kind, rule: Rule, up: int, hole: int, lo: int, hi: int, s: seq<int>,
                h0: seq<int>, h1: seq<int>, t: Tables): (r: Tables)
    requires IsCounts(s) && IsCounts(h0) && IsCounts(h1) && IsHoleExclusion(hole) && DrawRange(lo, hi)
    requires DealerTablesValid(t.dps)
    ensures DealerTablesValid(r.dps) && t.ex.Keys <= r.ex.Keys && PairKey(h0, HandState.PlaceHolder, h1) in r.ex
    ensures PairKey(h0, HandState.PlaceHolder, h1) in t.ex ==> r == t
    decreases Total(s), 4
  {
    var k := PairKey(h0, HandState.PlaceHolder, h1);
    if k in t.ex then t
    else
      var t0 := t.(ex := t.ex[k := DEFAULT_AFTER_SPLIT]);
      var t1 := if ActualSum(h0) > 11 then
                  var c := Aux1(kind, rule, up, hole, lo, hi, s, h0, HandState.Normal, h1, t0);
                  Put(c, k, StandField, GetMaxExpectation(kind, c.ex[PairKey(h0, HandState.Normal, h1)]).0)
                else Put(t0, k, StandField, NegInf);
      if Settled(rule, h0) || ActualSum(h0) == 21 then t1
      else Aux0Moves(kind, rule, up, hole, lo, hi, s, h0, h1, t1)
  }

  /** Hand 0's hit, surrender and double, written into the pair's entry
      after its stand. */
  function Aux0Moves(kind: Kind, rule: Rule, up: int, hole: int, lo: int, hi: int, s: seq<int>,
                     h0: seq<int>, h1: seq<int>, t: Tables): (r: Tables)
    requires IsCounts(s) && IsCounts(h0) && IsCounts(h1) && IsHoleExclusion(hole) && DrawRange(lo, hi)
    requires DealerTablesValid(t.dps)
    ensures DealerTablesValid(r.dps) && t.ex.Keys + {PairKey(h0, HandState.PlaceHolder, h1)} <= r.ex.Keys
    decreases Total(s), 3
  {
    var k := PairKey(h0, HandState.PlaceHolder, h1);
    var hit := Aux0Hit(kind, rule, up, hole, s, h0, h1, 1, Step(t, Fin(0.0)));
    var t2 := Put(hit.t, k, HitField, hit.acc);
    var t3 := if kind.allowLateSurrender then
                var c := Aux1(kind, rule, up, hole, lo, hi, s, h0, HandState.Surrender, h1, t2);
                Put(c, k, SurrenderField, GetMaxExpectation(kind, c.ex[PairKey(h0, HandState.Surrender, h1)]).0)
              else t2;
    Aux0DoubleMove(kind, rule, up, hole, lo, hi, s, h0, h1, t3)
  }

  /** Doubling hand 0 on two cards, when the entry type offers it. */
  function Aux0DoubleMove(kind: Kind, rule: Rule, up: int, hole: int, lo: int, hi: int, s: seq<int>,
                          h0: seq<int>, h1: seq<int>, t: Tables): (r: Tables)
    requires IsCounts(s) && IsCounts(h0) && IsCounts(h1) && IsHoleExclusion(hole) && DrawRange(lo, hi)
    requires DealerTablesValid(t.dps)
    ensures DealerTablesValid(r.dps) && t.ex.Keys <= r.ex.Keys
  {
    if kind.allowDas && Total(h0) == 2 then
      var dbl := Aux0Double(kind, rule, up, hole, lo, hi, s, h0, h1, 1, Step(t, Fin(0.0)));
      Put(dbl.t, PairKey(h0, HandState.PlaceHolder, h1), DoubleField, dbl.acc)
    else t
  }

  /** Hand 0's hit loop over ranks i..10. */
  function Aux0Hit(kind: Kind, rule: Rule, up: int, hole: int, s: seq<int>, h0: seq<int>, h1: seq<int>,
                   i: int, st: Step): (r: Step)
    requires IsCounts(s) && IsCounts(h0) && IsCounts(h1) && IsHoleExclusion(hole) && 1 <= i <= 11
    requires DealerTablesValid(st.t.dps)
    ensures DealerTablesValid(r.t.dps) && st.t.ex.Keys <= r.t.ex.Keys
    decreases Total(s), 2, 11 - i
  {
    if i > 10 then st
    else
      var p := GetCardProbabilityCopy(s, hole, i);
      if p == 0.0 then Aux0Hit(kind, rule, up, hole, s, h0, h1, i + 1, st)
      else
        CopyOfAbsent(s, hole, i);
        CountsBounds(s);
        DecValues(s, i);
        var child := Aux0(kind, rule, up, hole, 1, 10, Dec(s, i), Inc(h0, i), h1, st.t);
        var best := GetMaxExpectation(kind, child.ex[PairKey(Inc(h0, i), HandState.PlaceHolder, h1)]).0;
        Aux0Hit(kind, rule, up, hole, s, h0, h1, i + 1, Step(child, Add(st.acc, Scale(p, best))))
  }

  /** Hand 0's double loop over ranks i..10: with each card hand 0 ends
      doubled and hand 1 is played. */
  function Aux0Double(kind: Kind, rule: Rule, up: int, hole: int, lo: int, hi: int, s: seq<int>,
                      h0: seq<int>, h1: seq<int>, i: int, st: Step): (r: Step)
    requires IsCounts(s) && IsCounts(h0) && IsCounts(h1) && IsHoleExclusion(hole) && DrawRange(lo, hi)
    requires 1 <= i <= 11 && DealerTablesValid(st.t.dps)
    ensures DealerTablesValid(r.t.dps) && st.t.ex.Keys <= r.t.ex.Keys
    decreases 11 - i
  {
    if i > 10 then st
    else
      var p := GetCardProbabilityCopy(s, hole, i);
      if p == 0.0 then Aux0Double(kind, rule, up, hole, lo, hi, s, h0, h1, i + 1, st)
      else
        CopyOfAbsent(s, hole, i);
        var child := Aux1(kind, rule, up, hole, lo, hi, Dec(s, i), Inc(h0, i), HandState.Double, h1, st.t);
        var best := GetMaxExpectation(kind, child.ex[PairKey(Inc(h0, i), HandState.Double, h1)]).0;
        Aux0Double(kind, rule, up, hole, lo, hi, s, h0, h1, i + 1, Step(child, Add(st.acc, Scale(p, best))))
  }

  // ---------------------------------------------------------------------
  // Split aces and the entry point
  // ---------------------------------------------------------------------

  /** The dealer's first draw when the peek ruled out a hole card: all
      ranks, all but the ace, or all but the ten. Any other value panics. */
  function HoleRange(hole: int): (r: Option<(int, int)>)
    ensures r.Some? <==> hole == 0 || hole == 1 || hole == 10
    ensures r.Some? ==> DrawRange(r.value.0, r.value.1)
  {
    if hole == 0 then Some((1, 10))
    else if hole == 1 then Some((2, 10))
    else if hole == 10 then Some((1, 9))
    else None
  }

  /**
   * `calculate_expectation_double_aces`: each split ace takes exactly one
   * card. The pair's hit value is the sum over the two cards, taken as an
   * unordered pair (c1 <= c0, a pair of different cards counted twice), of
   * their probability times the value of standing on both.
   */
  function DoubleAces(rule: Rule, up: int, hole: int, s: seq<int>, h0: seq<int>, h1: seq<int>, t: Tables)
    : (r: Option<Tables>)
    requires IsCounts(s) && IsCounts(h0) && IsCounts(h1) && IsHoleExclusion(hole) && DealerTablesValid(t.dps)
    ensures r.None? <==> PairKey(h0, HandState.PlaceHolder, h1) !in t.ex && HoleRange(hole).None?
    ensures r.Some? ==> DealerTablesValid(r.value.dps) && t.ex.Keys <= r.value.ex.Keys
                        && PairKey(h0, HandState.PlaceHolder, h1) in r.value.ex
    ensures PairKey(h0, HandState.PlaceHolder, h1) in t.ex ==> r == Some(t)
  {
    var k := PairKey(h0, HandState.PlaceHolder, h1);
    if k in t.ex then Some(t)
    else
      var t0 := t.(ex := t.ex[k := DEFAULT_AFTER_SPLIT]);
      match HoleRange(hole)
      case None => None
      case Some(range) =>
        var hit := AcesFirst(rule, up, hole, range.0, range.1, s, h0, h1, 1, Step(t0, Fin(0.0)));
        Some(Put(hit.t, k, HitField, hit.acc))
  }

  /** The loop over the first ace's card c0 from rank i. */
  function AcesFirst(rule: Rule, up: int, hole: int, lo: int, hi: int, s: seq<int>, h0: seq<int>, h1: seq<int>,
                     i: int, st: Step): (r: Step)
    requires IsCounts(s) && IsCounts(h0) && IsCounts(h1) && IsHoleExclusion(hole) && DrawRange(lo, hi)
    requires 1 <= i <= 11 && DealerTablesValid(st.t.dps)
    ensures DealerTablesValid(r.t.dps) && st.t.ex.Keys <= r.t.ex.Keys
    decreases 11 - i
  {
    if i > 10 then st
    else
      var p := GetCardProbabilityCopy(s, hole, i);
      if p == 0.0 then AcesFirst(rule, up, hole, lo, hi, s, h0, h1, i + 1, st)
      else
        CopyOfAbsent(s, hole, i);
        var inner := AcesSecond(rule, up, hole, lo, hi, Dec(s, i), Inc(h0, i), h1, i, p, 1, st);
        AcesFirst(rule, up, hole, lo, hi, s, h0, h1, i + 1, inner)
  }

  /** The weight of the aces' cards c0 and c1 of probabilities p and x: an
      unordered pair of different cards is counted twice. */
  function PairWeight(c0: int, c1: int, p: real, x: real): real
  {
    var q := p * x;
    if c0 != c1 then q * 2.0 else q
  }

  /** The loop over the second ace's card c1 from rank j up to c0, with
      the first card's probability p. `calculate_split_expectation` skips a card whose joint
      probability p * x is zero; p is not zero, so that is a card whose own
      probability x is zero. */
  function AcesSecond(rule: Rule, up: int, hole: int, lo: int, hi: int, s: seq<int>, h0: seq<int>, h1: seq<int>,
                      c0: int, p: real, j: int, st: Step): (r: Step)
    requires IsCounts(s) && IsCounts(h0) && IsCounts(h1) && IsHoleExclusion(hole) && DrawRange(lo, hi)
    requires 1 <= j <= c0 + 1 && c0 <= 10 && p != 0.0 && DealerTablesValid(st.t.dps)
    ensures DealerTablesValid(r.t.dps) && st.t.ex.Keys <= r.t.ex.Keys
    decreases c0 + 1 - j
  {
    if j > c0 then st
    else
      var x := GetCardProbabilityCopy(s, hole, j);
      if x == 0.0 then AcesSecond(rule, up, hole, lo, hi, s, h0, h1, c0, p, j + 1, st)
      else
        CopyOfAbsent(s, hole, j);
        var w := PairWeight(c0, j, p, x);
        var child := Aux2(rule, up, lo, hi, Dec(s, j), h0, HandState.Normal, Inc(h1, j), HandState.Normal, st.t);
        var stand := child.ex[PairKey(h0, HandState.Normal, Inc(h1, j))].stand;
        AcesSecond(rule, up, hole, lo, hi, s, h0, h1, c0, p, j + 1, Step(child, Add(st.acc, Scale(w, stand))))
  }

  /** The split card: half the hand's hard sum, the sum cast to 8 bits. */
  function SplitCard(hand: seq<int>): int
    requires |hand| == RANKS
  {
    (HardSum(hand) % 0x100) / 2
  }

  /**
   * `calculate_split_expectation` for a pair in `hand`: both hands start
   * with the split card. Aces without decisions after the split go to
   * DoubleAces; otherwise hand 0 is played with the dealer's first draw
   * restricted by the peek. None is a panic: a split card outside 1..10,
   * which no card count can hold, or a ruled-out hole card other than none,
   * the ace and the ten.
   */
  function CalculateSplitExpectation(kind: Kind, rule: Rule, up: int, hole: int, s: seq<int>, hand: seq<int>,
                                     t: Tables): (r: Option<Tables>)
    requires IsCounts(s) && IsCounts(hand) && IsHoleExclusion(hole) && DealerTablesValid(t.dps)
    ensures r.None? <==> !(1 <= SplitCard(hand) <= 10)
                         || (HoleRange(hole).None?
                             && !(SplitCard(hand) == 1 && !rule.allowDecisionsAfterSplitAces
                                  && PairKey(Single(1), HandState.PlaceHolder, Single(1)) in t.ex))
    ensures r.Some? ==> var h := Single(SplitCard(hand));
                        DealerTablesValid(r.value.dps) && t.ex.Keys <= r.value.ex.Keys
                        && PairKey(h, HandState.PlaceHolder, h) in r.value.ex
  {
    var v := SplitCard(hand);
    if !(1 <= v <= 10) then None
    else
      TotalsOfSingle(v);
      var h := Single(v);
      if v == 1 && !rule.allowDecisionsAfterSplitAces then DoubleAces(rule, up, hole, s, h, h, t)
      else
        match HoleRange(hole)
        case None => None
        case Some(range) => Some(Aux0(kind, rule, up, hole, range.0, range.1, s, h, h, t))
  }

  // ---------------------------------------------------------------------
  // Properties
  // ---------------------------------------------------------------------

  /** A pair of c splits into two hands holding c each. */
  lemma SplitCardOfPair(c: int)
    requires 1 <= c <= 10
    ensures IsCounts(Inc(Single(c), c)) && SplitCard(Inc(Single(c), c)) == c
  {
    TotalsOfSingle(c);
    IncValues(Single(c), c);
  }

  /** The entries of one pair in different states of hand 0 are distinct. */
  lemma PairKeysOfStatesDiffer(h0: seq<int>, st: HandState, st': HandState, h1: seq<int>)
    requires |h0| == RANKS && |h1| == RANKS && st != st'
    ensures PairKey(h0, st, h1) != PairKey(h0, st', h1)
  {
  }

  /**
   * Both hands settled: the pair can only stand, and its value is the sum
   * of both hands' values against any dealer distribution, so no dealer
   * table is built.
   */
  lemma Aux1SettledPair(kind: Kind, rule: Rule, up: int, hole: int, lo: int, hi: int, s: seq<int>,
                        h0: seq<int>, st0: HandState, h1: seq<int>, t: Tables, d: Dist)
    requires IsCounts(s) && IsCounts(h0) && IsCounts(h1) && IsHoleExclusion(hole) && DrawRange(lo, hi)
    requires DealerTablesValid(t.dps) && PairKey(h0, st0, h1) !in t.ex
    requires Settled(rule, h0) && Settled(rule, h1) && st0 != HandState.Surrender
    ensures var r := Aux1(kind, rule, up, hole, lo, hi, s, h0, st0, h1, t);
            r.dps == t.dps
            && r.ex == t.ex[PairKey(h0, st0, h1) := DEFAULT_AFTER_SPLIT.(stand := Fin(OneHand(rule, h0, st0, d)
                                                                           + OneHand(rule, h1, HandState.Normal, d)))]
  {
    OneHandIgnoresDealer(rule, h0, st0, d, d);
    OneHandIgnoresDealer(rule, h1, HandState.Normal, d, d);
  }

  /** An entry with nothing but its stand evaluated is worth its stand. */
  lemma StandOnlyEntry(kind: Kind, v: ExtReal)
    ensures GetMaxExpectation(kind, DEFAULT_AFTER_SPLIT.(stand := v)) == (v, Decision.Stand)
  {
  }

  // Doubling hand 1 -----------------------------------------------------

  /**
   * As written, hand 1's double loop reads the best value of the entry the
   * doubled settlement was written into. The hit loop filled that entry for
   * the same cards, so the doubled hand is credited with at least the value
   * of standing or hitting undoubled.
   */
  lemma DoubleReadAsWritten(kind: Kind, e: AfterSplit, v: ExtReal)
    requires kind.allowDas
    ensures var best := GetMaxExpectation(kind, SetField(e, DoubleField, v)).0;
            AtMost(e.stand, best) && AtMost(e.hit, best) && AtMost(v, best)
  {
    var e' := SetField(e, DoubleField, v);
    var i := GetMaxIsFirstMax(kind, e');
    var vs := Expectations.Values(Candidates(kind, e'));
    assert vs[0] == e.stand && vs[1] == e.hit && vs[2] == v;
  }

  /** Standing on the card is worth -1, hitting -1/4, and the doubled
      settlement -2: as written the doubled card counts -1/4. */
  lemma DoubleReadExample()
    ensures var e := AfterSplit(Fin(-1.0), Fin(-0.25), NegInf, NegInf);
            GetMaxExpectation(Kind(true, false), SetField(e, DoubleField, Fin(-2.0))).0 == Fin(-0.25)
  {
  }

  /** One rank of hand 1's double loop reading the doubled settlement
      itself: a rank that cannot be drawn leaves the step alone. */
  function DoubleFixedStep(rule: Rule, up: int, hole: int, lo: int, hi: int, s: seq<int>,
                           h0: seq<int>, st0: HandState, h1: seq<int>, i: int, st: Step): (r: Step)
    requires IsCounts(s) && IsCounts(h0) && IsCounts(h1) && IsHoleExclusion(hole) && DrawRange(lo, hi)
    requires 1 <= i <= 10 && DealerTablesValid(st.t.dps)
    ensures DealerTablesValid(r.t.dps) && st.t.ex.Keys <= r.t.ex.Keys
  {
    var p := GetCardProbabilityCopy(s, hole, i);
    if p == 0.0 then st
    else
      CopyOfAbsent(s, hole, i);
      var child := Aux2(rule, up, lo, hi, Dec(s, i), h0, st0, Inc(h1, i), HandState.Double, st.t);
      Step(child, Add(st.acc, Scale(p, child.ex[PairKey(h0, st0, Inc(h1, i))].double)))
  }

  /** Hand 1's double loop reading the doubled settlement itself. */
  function Aux1DoubleFixed(rule: Rule, up: int, hole: int, lo: int, hi: int, s: seq<int>,
                           h0: seq<int>, st0: HandState, h1: seq<int>, i: int, st: Step): (r: Step)
    requires IsCounts(s) && IsCounts(h0) && IsCounts(h1) && IsHoleExclusion(hole) && DrawRange(lo, hi)
    requires 1 <= i <= 11 && DealerTablesValid(st.t.dps)
    ensures DealerTablesValid(r.t.dps) && st.t.ex.Keys <= r.t.ex.Keys
    decreases 11 - i
  {
    if i > 10 then st
    else Aux1DoubleFixed(rule, up, hole, lo, hi, s, h0, st0, h1, i + 1,
                         DoubleFixedStep(rule, up, hole, lo, hi, s, h0, st0, h1, i, st))
  }

  /** Corrected, every card that can be drawn adds its probability times
      the settlement of the pair with hand 1 doubled on that card, and the
      other ranks add nothing. */
  lemma Aux1DoubleFixedAddsSettlement(rule: Rule, up: int, hole: int, lo: int, hi: int,
                                      s: seq<int>, h0: seq<int>, st0: HandState, h1: seq<int>, i: int, st: Step)
    requires IsCounts(s) && IsCounts(h0) && IsCounts(h1) && IsHoleExclusion(hole) && DrawRange(lo, hi)
    requires 1 <= i <= 10 && DealerTablesValid(st.t.dps)
    ensures GetCardProbabilityCopy(s, hole, i) == 0.0
            ==> DoubleFixedStep(rule, up, hole, lo, hi, s, h0, st0, h1, i, st) == st
    ensures GetCardProbabilityCopy(s, hole, i) != 0.0 ==>
            s[i - 1] > 0
            && var child := Aux2(rule, up, lo, hi, Dec(s, i), h0, st0, Inc(h1, i), HandState.Double, st.t);
               var d := child.dps[Key(Dec(s, i))][0];
               var v := OneHand(rule, h0, st0, d) + OneHand(rule, Inc(h1, i), HandState.Double, d);
               DoubleFixedStep(rule, up, hole, lo, hi, s, h0, st0, h1, i, st)
               == Step(child, Add(st.acc, Scale(GetCardProbabilityCopy(s, hole, i), Fin(v))))
  {
    if GetCardProbabilityCopy(s, hole, i) != 0.0 {
      CopyOfAbsent(s, hole, i);
      var child := Aux2(rule, up, lo, hi, Dec(s, i), h0, st0, Inc(h1, i), HandState.Double, st.t);
      var d := child.dps[Key(Dec(s, i))][0];
      var v := OneHand(rule, h0, st0, d) + OneHand(rule, Inc(h1, i), HandState.Double, d);
      assert FieldOf(HandState.Double) == DoubleField;
      assert child.ex[PairKey(h0, st0, Inc(h1, i))].double == Fin(v);
    }
  }

  // One doubled hand ----------------------------------------------------

  /** One hand's value with the doubled stake applied to every played-out
      hand, the bust and the Charlie one included. */
  function OneHandFixed(rule: Rule, h: seq<int>, st: HandState, d: Dist): real
    requires IsCounts(h)
  {
    if st == HandState.Surrender then -0.5
    else
      CountsBounds(h);
      ActualSumIsBestTotal(h);
      var base := if Bust(h) then -1.0
                  else if Total(h) == rule.charlieNumber then 1.0
                  else PWorseThanPlayer(d, ActualSum(h)).value - PBetterThanPlayer(d, ActualSum(h)).value;
      Stake(st) * base
  }

  /** Corrected, doubling doubles the value of every hand, and an
      undoubled hand keeps the value `calculate_expectation_for_one_hand`
      gives it. */
  lemma OneHandFixedDoubles(rule: Rule, h: seq<int>, st: HandState, d: Dist)
    requires IsCounts(h) && st != HandState.Surrender
    ensures OneHandFixed(rule, h, HandState.Double, d) == 2.0 * OneHandFixed(rule, h, HandState.Normal, d)
    ensures st != HandState.Double ==> OneHandFixed(rule, h, st, d) == OneHand(rule, h, st, d)
    ensures !Bust(h) && Total(h) != rule.charlieNumber ==> OneHandFixed(rule, h, st, d) == OneHand(rule, h, st, d)
  {
  }

  /** As written, the hand 5, 8, 9 (22) doubled loses one bet, where a
      doubled bust loses two. */
  lemma DoubledBustAsWritten(rule: Rule, d: Dist)
    ensures var h := [0, 0, 0, 0, 1, 0, 0, 1, 1, 0];
            IsCounts(h) && Bust(h) && Total(h) == 3
            && OneHand(rule, h, HandState.Double, d) == -1.0 && OneHandFixed(rule, h, HandState.Double, d) == -2.0
  {
    var h := [0, 0, 0, 0, 1, 0, 0, 1, 1, 0];
    TotalTen(h);
    HardSumTen(h);
  }

  // A Charlie hand of at most 11 ----------------------------------------

  /** Five 2s: a Charlie hand of five cards worth 10. */
  const FIVE_TWOS: seq<int> := [0, 5, 0, 0, 0, 0, 0, 0, 0, 0]

  /**
   * As written, hand 0 stands only above 11, yet a hand at the Charlie
   * number stops there. With a Charlie number of 5, five 2s stop with no
   * decision evaluated, and the pair's best value is minus infinity.
   */
  lemma CharlieAsWritten(kind: Kind, rule: Rule, up: int, hole: int, lo: int, hi: int, s: seq<int>,
                         h1: seq<int>, t: Tables)
    requires rule.charlieNumber == 5
    requires IsCounts(s) && IsCounts(h1) && IsHoleExclusion(hole) && DrawRange(lo, hi) && DealerTablesValid(t.dps)
    requires PairKey(FIVE_TWOS, HandState.PlaceHolder, h1) !in t.ex
    ensures var r := Aux0(kind, rule, up, hole, lo, hi, s, FIVE_TWOS, h1, t);
            r.ex[PairKey(FIVE_TWOS, HandState.PlaceHolder, h1)] == DEFAULT_AFTER_SPLIT
            && GetMaxExpectation(kind, DEFAULT_AFTER_SPLIT).0 == NegInf
  {
    TotalTen(FIVE_TWOS);
    HardSumTen(FIVE_TWOS);
  }

  /** The stand guard intended: above 11, or a hand that has to stop. */
  predicate StandsFixed(rule: Rule, h: seq<int>)
    requires |h| == RANKS
  {
    ActualSum(h) > 11 || Settled(rule, h)
  }

  /** Hand 0's stand with the intended guard, on a pair not yet in the
      table. */
  function Aux0StandFixed(kind: Kind, rule: Rule, up: int, hole: int, lo: int, hi: int, s: seq<int>,
                          h0: seq<int>, h1: seq<int>, t: Tables): (r: Tables)
    requires IsCounts(s) && IsCounts(h0) && IsCounts(h1) && IsHoleExclusion(hole) && DrawRange(lo, hi)
    requires DealerTablesValid(t.dps)
    ensures DealerTablesValid(r.dps) && PairKey(h0, HandState.PlaceHolder, h1) in r.ex
  {
    var k := PairKey(h0, HandState.PlaceHolder, h1);
    var t0 := t.(ex := t.ex[k := DEFAULT_AFTER_SPLIT]);
    if StandsFixed(rule, h0) then
      var c := Aux1(kind, rule, up, hole, lo, hi, s, h0, HandState.Normal, h1, t0);
      Put(c, k, StandField, GetMaxExpectation(kind, c.ex[PairKey(h0, HandState.Normal, h1)]).0)
    else Put(t0, k, StandField, NegInf)
  }

  /** Corrected, a Charlie hand 0 with a settled hand 1 stands at its win
      plus hand 1's fixed value. */
  lemma CharlieStandsFixed(kind: Kind, rule: Rule, up: int, hole: int, lo: int, hi: int, s: seq<int>,
                           h0: seq<int>, h1: seq<int>, t: Tables)
    requires IsCounts(s) && IsCounts(h0) && IsCounts(h1) && IsHoleExclusion(hole) && DrawRange(lo, hi)
    requires DealerTablesValid(t.dps) && PairKey(h0, HandState.Normal, h1) !in t.ex
    requires !Bust(h0) && Total(h0) == rule.charlieNumber && Settled(rule, h1)
    ensures Aux0StandFixed(kind, rule, up, hole, lo, hi, s, h0, h1, t).ex[PairKey(h0, HandState.PlaceHolder, h1)].stand
            == Fin(1.0 + if Bust(h1) then -1.0 else 1.0)
  {
    var k := PairKey(h0, HandState.PlaceHolder, h1);
    var k' := PairKey(h0, HandState.Normal, h1);
    PairKeysOfStatesDiffer(h0, HandState.PlaceHolder, HandState.Normal, h1);
    var t0 := t.(ex := t.ex[k := DEFAULT_AFTER_SPLIT]);
    var v := Fin(1.0 + if Bust(h1) then -1.0 else 1.0);
    var c := Aux1(kind, rule, up, hole, lo, hi, s, h0, HandState.Normal, h1, t0);
    var t1 := t0.(ex := t0.ex[k' := DEFAULT_AFTER_SPLIT]);
    assert c == Aux1Fresh(kind, rule, up, hole, lo, hi, s, h0, HandState.Normal, h1, t1);
    assert c.ex[k'] == DEFAULT_AFTER_SPLIT.(stand := v);
    StandOnlyEntry(kind, v);
  }

  // ---------------------------------------------------------------------
  // In place: the containers
  // ---------------------------------------------------------------------

  /** The shoe and the two hands: valid and sharing no storage. */
  ghost predicate Objects(shoe: CardCount, hand0: CardCount, hand1: CardCount)
    reads shoe, shoe.counts, hand0, hand0.counts, hand1, hand1.counts
  {
    shoe.Valid() && hand0.Valid() && hand1.Valid()
    && Disjoint(shoe, hand0) && Disjoint(shoe, hand1) && Disjoint(hand0, hand1)
  }

  /** The index built from the containers is the pair's key. */
  lemma IndexIsPairKey(hand0: CardCount, st0: HandState, hand1: CardCount)
    requires hand0.Valid() && hand1.Valid()
    ensures NewDoubleIndex(hand0, st0, hand1).hashValue == PairKey(hand0.Counts(), st0, hand1.Counts())
  {
  }

  /** The dealer table of the shoe, built from the empty extra hand when
      the shoe has none. */
  method EnsureDealerTable(rule: Rule, up: int, lo: int, hi: int, shoe: CardCount,
                           dps: SingleStateArray<map<int, Dist>>)
    requires shoe.Valid() && DrawRange(lo, hi) && DealerTablesValid(dps.data)
    modifies shoe, shoe.counts, dps
    ensures shoe.Valid() && shoe.Counts() == old(shoe.Counts())
    ensures var s := old(shoe.Counts());
            dps.data == if Key(s) in old(dps.data) then old(dps.data)
                        else old(dps.data)[Key(s) := DealerTable(rule, up, lo, hi, s)]
  {
    ghost var s := shoe.Counts();
    if !dps.ContainsState(shoe) {
      dps.Set(shoe, map[]);
      var extra := new CardCount.WithNumberOfDecks(0);
      assert extra.Counts() == EMPTY;
      var odds := new SingleStateArray<Dist>(ZERO);
      MemoizationDealerGetCardsByHand(DistHandler(), rule, 0, up, lo, hi, shoe, extra, odds);
      dps.Set(shoe, odds.data);
    }
  }

  /** Writing one field through the mutable access, as Put does. */
  method PutField(ex: DoubleStateArray<AfterSplit>, index: DoubleCardCountIndex, f: Field, v: ExtReal)
    requires ex.default == DEFAULT_AFTER_SPLIT
    modifies ex
    ensures ex.data == Put(Tables(old(ex.data), map[]), index.hashValue, f, v).ex
  {
    var cur := ex.IndexMut(index);
    ex.Set(index, SetField(cur, f, v));
  }

  /** `memoization_calculate_split_expectation_aux2` in place. */
  method MemoAux2(rule: Rule, up: int, lo: int, hi: int, st1: HandState, shoe: CardCount, hand0: CardCount,
                  st0: HandState, hand1: CardCount, ex: DoubleStateArray<AfterSplit>,
                  dps: SingleStateArray<map<int, Dist>>)
    requires Objects(shoe, hand0, hand1) && DrawRange(lo, hi) && st1 != HandState.PlaceHolder
    requires DealerTablesValid(dps.data) && ex.default == DEFAULT_AFTER_SPLIT
    modifies shoe, shoe.counts, ex, dps
    ensures Objects(shoe, hand0, hand1) && shoe.Counts() == old(shoe.Counts())
    ensures Tables(ex.data, dps.data)
            == Aux2(rule, up, lo, hi, old(shoe.Counts()), old(hand0.Counts()), st0, old(hand1.Counts()), st1,
                    Tables(old(ex.data), old(dps.data)))
  {
    ghost var t := Tables(ex.data, dps.data);
    ghost var r := Aux2(rule, up, lo, hi, shoe.Counts(), hand0.Counts(), st0, hand1.Counts(), st1, t);
    var index := NewDoubleIndex(hand0, st0, hand1);
    IndexIsPairKey(hand0, st0, hand1);
    EnsureDealerTable(rule, up, lo, hi, shoe, dps);
    assert dps.data == r.dps;
    var table := dps.Index(shoe);
    var d := table[0];
    var ex0 := OneHand(rule, hand0.counts[..], st0, d);
    var ex1 := OneHand(rule, hand1.counts[..], st1, d);
    PutField(ex, index, FieldOf(st1), Fin(ex0 + ex1));
  }

  /** `memoization_calculate_split_expectation_aux1` in place. */
  method MemoAux1(kind: Kind, rule: Rule, up: int, hole: int, lo: int, hi: int, shoe: CardCount,
                  hand0: CardCount, st0: HandState, hand1: CardCount, ex: DoubleStateArray<AfterSplit>,
                  dps: SingleStateArray<map<int, Dist>>)
    requires Objects(shoe, hand0, hand1) && IsHoleExclusion(hole) && DrawRange(lo, hi)
    requires DealerTablesValid(dps.data) && ex.default == DEFAULT_AFTER_SPLIT
    modifies shoe, shoe.counts, hand1, hand1.counts, ex, dps
    ensures Objects(shoe, hand0, hand1)
            && shoe.Counts() == old(shoe.Counts()) && hand1.Counts() == old(hand1.Counts())
    ensures Tables(ex.data, dps.data)
            == Aux1(kind, rule, up, hole, lo, hi, old(shoe.Counts()), old(hand0.Counts()), st0, old(hand1.Counts()),
                    Tables(old(ex.data), old(dps.data)))
    decreases Total(shoe.Counts()), 3, 2
  {
    ghost var s, h0, h1, t := shoe.Counts(), hand0.Counts(), hand1.Counts(), Tables(ex.data, dps.data);
    ghost var k := PairKey(h0, st0, h1);
    var index := NewDoubleIndex(hand0, st0, hand1);
    IndexIsPairKey(hand0, st0, hand1);
    if ex.ContainsState(index) {
      return;
    }
    ex.Set(index, DEFAULT_AFTER_SPLIT);
    Hand1Play(kind, rule, up, hole, lo, hi, shoe, hand0, st0, hand1, ex, dps);
  }

  /** The pair's entry after its default is in: settle both hands, or play
      hand 1. */
  method Hand1Play(kind: Kind, rule: Rule, up: int, hole: int, lo: int, hi: int, shoe: CardCount,
                   hand0: CardCount, st0: HandState, hand1: CardCount, ex: DoubleStateArray<AfterSplit>,
                   dps: SingleStateArray<map<int, Dist>>)
    requires Objects(shoe, hand0, hand1) && IsHoleExclusion(hole) && DrawRange(lo, hi)
    requires DealerTablesValid(dps.data) && ex.default == DEFAULT_AFTER_SPLIT
    requires PairKey(hand0.Counts(), st0, hand1.Counts()) in ex.data
    modifies shoe, shoe.counts, hand1, hand1.counts, ex, dps
    ensures Objects(shoe, hand0, hand1)
            && shoe.Counts() == old(shoe.Counts()) && hand1.Counts() == old(hand1.Counts())
    ensures Tables(ex.data, dps.data)
            == Aux1Fresh(kind, rule, up, hole, lo, hi, old(shoe.Counts()), old(hand0.Counts()), st0,
                         old(hand1.Counts()), Tables(old(ex.data), old(dps.data)))
    decreases Total(shoe.Counts()), 3, 1
  {
    var settled0 := hand0.Bust() || hand0.GetTotal() == rule.charlieNumber;
    var settled1 := hand1.Bust() || hand1.GetTotal() == rule.charlieNumber;
    if settled0 && settled1 {
      Hand1Settled(kind, rule, up, hole, lo, hi, shoe, hand0, st0, hand1, ex, dps);
    } else {
      Hand1Stand(kind, rule, up, hole, lo, hi, shoe, hand0, st0, hand1, ex, dps);
    }
  }

  /** Both hands settled in place: the pair's stand is the sum of their
      fixed values. */
  method Hand1Settled(kind: Kind, rule: Rule, up: int, hole: int, lo: int, hi: int, shoe: CardCount,
                      hand0: CardCount, st0: HandState, hand1: CardCount, ex: DoubleStateArray<AfterSplit>,
                      dps: SingleStateArray<map<int, Dist>>)
    requires Objects(shoe, hand0, hand1) && IsHoleExclusion(hole) && DrawRange(lo, hi)
    requires DealerTablesValid(dps.data) && ex.default == DEFAULT_AFTER_SPLIT
    requires PairKey(hand0.Counts(), st0, hand1.Counts()) in ex.data
    requires Settled(rule, hand0.Counts()) && Settled(rule, hand1.Counts())
    modifies ex
    ensures Tables(ex.data, dps.data)
            == Aux1Fresh(kind, rule, up, hole, lo, hi, shoe.Counts(), hand0.Counts(), st0,
                         hand1.Counts(), Tables(old(ex.data), dps.data))
  {
    var index := NewDoubleIndex(hand0, st0, hand1);
    IndexIsPairKey(hand0, st0, hand1);
    var exStand := (if hand0.Bust() then -1.0 else 1.0) + (if hand1.Bust() then -1.0 else 1.0);
    PutField(ex, index, StandField, Fin(exStand));
  }

  /** Hand 1 played in place. */
  method Hand1Stand(kind: Kind, rule: Rule, up: int, hole: int, lo: int, hi: int, shoe: CardCount,
                    hand0: CardCount, st0: HandState, hand1: CardCount, ex: DoubleStateArray<AfterSplit>,
                    dps: SingleStateArray<map<int, Dist>>)
    requires Objects(shoe, hand0, hand1) && IsHoleExclusion(hole) && DrawRange(lo, hi)
    requires DealerTablesValid(dps.data) && ex.default == DEFAULT_AFTER_SPLIT
    requires PairKey(hand0.Counts(), st0, hand1.Counts()) in ex.data
    modifies shoe, shoe.counts, hand1, hand1.counts, ex, dps
    ensures Objects(shoe, hand0, hand1)
            && shoe.Counts() == old(shoe.Counts()) && hand1.Counts() == old(hand1.Counts())
    ensures Tables(ex.data, dps.data)
            == Aux1Play(kind, rule, up, hole, lo, hi, old(shoe.Counts()), old(hand0.Counts()), st0,
                        old(hand1.Counts()), Tables(old(ex.data), old(dps.data)))
    decreases Total(shoe.Counts()), 3, 0
  {
    ghost var s, h0, h1, t0 := shoe.Counts(), hand0.Counts(), hand1.Counts(), Tables(ex.data, dps.data);
    if hand1.GetActualSum() > 11 {
      MemoAux2(rule, up, lo, hi, HandState.Normal, shoe, hand0, st0, hand1, ex, dps);
    }
    ghost var t1 := if ActualSum(h1) > 11 then Aux2(rule, up, lo, hi, s, h0, st0, h1, HandState.Normal, t0) else t0;
    assert Tables(ex.data, dps.data) == t1;
    var settled1 := hand1.Bust() || hand1.GetTotal() == rule.charlieNumber;
    if settled1 || hand1.GetActualSum() == 21 {
      return;
    }
    Hand1Moves(kind, rule, up, hole, lo, hi, shoe, hand0, st0, hand1, ex, dps);
  }

  /** Hand 1's hit, surrender and double in place. */
  method Hand1Moves(kind: Kind, rule: Rule, up: int, hole: int, lo: int, hi: int, shoe: CardCount,
                    hand0: CardCount, st0: HandState, hand1: CardCount, ex: DoubleStateArray<AfterSplit>,
                    dps: SingleStateArray<map<int, Dist>>)
    requires Objects(shoe, hand0, hand1) && IsHoleExclusion(hole) && DrawRange(lo, hi)
    requires DealerTablesValid(dps.data) && ex.default == DEFAULT_AFTER_SPLIT
    modifies shoe, shoe.counts, hand1, hand1.counts, ex, dps
    ensures Objects(shoe, hand0, hand1)
            && shoe.Counts() == old(shoe.Counts()) && hand1.Counts() == old(hand1.Counts())
    ensures Tables(ex.data, dps.data)
            == Aux1Moves(kind, rule, up, hole, lo, hi, old(shoe.Counts()), old(hand0.Counts()), st0,
                         old(hand1.Counts()), Tables(old(ex.data), old(dps.data)))
    decreases Total(shoe.Counts()), 2
  {
    ghost var s, h0, h1, t := shoe.Counts(), hand0.Counts(), hand1.Counts(), Tables(ex.data, dps.data);
    ghost var k := PairKey(h0, st0, h1);
    var index := NewDoubleIndex(hand0, st0, hand1);
    IndexIsPairKey(hand0, st0, hand1);
    var hit := Hand1Hits(kind, rule, up, hole, shoe, hand0, st0, hand1, ex, dps);
    ghost var hitStep := Aux1Hit(kind, rule, up, hole, s, h0, st0, h1, 1, Step(t, Fin(0.0)));
    assert hitStep == Step(Tables(ex.data, dps.data), hit);
    PutField(ex, index, HitField, hit);
    ghost var t2 := Put(hitStep.t, k, HitField, hitStep.acc);
    assert Tables(ex.data, dps.data) == t2;
    if kind.allowLateSurrender {
      MemoAux2(rule, up, lo, hi, HandState.Surrender, shoe, hand0, st0, hand1, ex, dps);
    }
    ghost var t3 := if kind.allowLateSurrender then Aux2(rule, up, lo, hi, s, h0, st0, h1, HandState.Surrender, t2)
                    else t2;
    assert Tables(ex.data, dps.data) == t3;
    Hand1DoubleMove(kind, rule, up, hole, lo, hi, shoe, hand0, st0, hand1, ex, dps);
  }

  /** Hand 1's double in place. */
  method Hand1DoubleMove(kind: Kind, rule: Rule, up: int, hole: int, lo: int, hi: int, shoe: CardCount,
                         hand0: CardCount, st0: HandState, hand1: CardCount, ex: DoubleStateArray<AfterSplit>,
                         dps: SingleStateArray<map<int, Dist>>)
    requires Objects(shoe, hand0, hand1) && IsHoleExclusion(hole) && DrawRange(lo, hi)
    requires DealerTablesValid(dps.data) && ex.default == DEFAULT_AFTER_SPLIT
    modifies shoe, shoe.counts, hand1, hand1.counts, ex, dps
    ensures Objects(shoe, hand0, hand1)
            && shoe.Counts() == old(shoe.Counts()) && hand1.Counts() == old(hand1.Counts())
    ensures Tables(ex.data, dps.data)
            == Aux1DoubleMove(kind, rule, up, hole, lo, hi, old(shoe.Counts()), old(hand0.Counts()), st0,
                              old(hand1.Counts()), Tables(old(ex.data), old(dps.data)))
  {
    if kind.allowDas && hand1.GetTotal() == 2 {
      Hand1Double(kind, rule, up, hole, lo, hi, shoe, hand0, st0, hand1, ex, dps);
    }
  }

  /** The double of hand 1 in place: its loop, then the pair's double field. */
  method Hand1Double(kind: Kind, rule: Rule, up: int, hole: int, lo: int, hi: int, shoe: CardCount,
                     hand0: CardCount, st0: HandState, hand1: CardCount, ex: DoubleStateArray<AfterSplit>,
                     dps: SingleStateArray<map<int, Dist>>)
    requires Objects(shoe, hand0, hand1) && IsHoleExclusion(hole) && DrawRange(lo, hi)
    requires DealerTablesValid(dps.data) && ex.default == DEFAULT_AFTER_SPLIT
    modifies shoe, shoe.counts, hand1, hand1.counts, ex, dps
    ensures Objects(shoe, hand0, hand1)
            && shoe.Counts() == old(shoe.Counts()) && hand1.Counts() == old(hand1.Counts())
    ensures var dbl := Aux1Double(kind, rule, up, hole, lo, hi, old(shoe.Counts()), old(hand0.Counts()), st0,
                                  old(hand1.Counts()), 1, Step(Tables(old(ex.data), old(dps.data)), Fin(0.0)));
            Tables(ex.data, dps.data) == Put(dbl.t, PairKey(old(hand0.Counts()), st0, old(hand1.Counts())),
                                             DoubleField, dbl.acc)
  {
    ghost var s, h0, h1, t := shoe.Counts(), hand0.Counts(), hand1.Counts(), Tables(ex.data, dps.data);
    ghost var dblStep := Aux1Double(kind, rule, up, hole, lo, hi, s, h0, st0, h1, 1, Step(t, Fin(0.0)));
    var index := NewDoubleIndex(hand0, st0, hand1);
    IndexIsPairKey(hand0, st0, hand1);
    var dbl := Hand1Doubles(kind, rule, up, hole, lo, hi, shoe, hand0, st0, hand1, ex, dps);
    assert dblStep == Step(Tables(ex.data, dps.data), dbl);
    PutField(ex, index, DoubleField, dbl);
  }

  /** Hand 1's hit loop in place; the result is the hit value. */
  method Hand1Hits(kind: Kind, rule: Rule, up: int, hole: int, shoe: CardCount, hand0: CardCount,
                   st0: HandState, hand1: CardCount, ex: DoubleStateArray<AfterSplit>,
                   dps: SingleStateArray<map<int, Dist>>) returns (acc: ExtReal)
    requires Objects(shoe, hand0, hand1) && IsHoleExclusion(hole)
    requires DealerTablesValid(dps.data) && ex.default == DEFAULT_AFTER_SPLIT
    modifies shoe, shoe.counts, hand1, hand1.counts, ex, dps
    ensures Objects(shoe, hand0, hand1)
            && shoe.Counts() == old(shoe.Counts()) && hand1.Counts() == old(hand1.Counts())
    ensures Step(Tables(ex.data, dps.data), acc)
            == Aux1Hit(kind, rule, up, hole, old(shoe.Counts()), old(hand0.Counts()), st0, old(hand1.Counts()), 1,
                       Step(Tables(old(ex.data), old(dps.data)), Fin(0.0)))
    decreases Total(shoe.Counts()), 1
  {
    ghost var s, h0, h1 := shoe.Counts(), hand0.Counts(), hand1.Counts();
    ghost var goal := Aux1Hit(kind, rule, up, hole, s, h0, st0, h1, 1, Step(Tables(ex.data, dps.data), Fin(0.0)));
    acc := Fin(0.0);
    var i := 1;
    while i <= 10
      invariant 1 <= i <= 11
      invariant Objects(shoe, hand0, hand1) && shoe.Counts() == s && hand1.Counts() == h1
      invariant DealerTablesValid(dps.data)
      invariant Aux1Hit(kind, rule, up, hole, s, h0, st0, h1, i, Step(Tables(ex.data, dps.data), acc)) == goal
    {
      var p := GetCardProbabilityCopy(shoe.counts[..], hole, i);
      if p != 0.0 {
        acc := Hand1HitCard(kind, rule, up, hole, i, p, acc, shoe, hand0, st0, hand1, ex, dps);
      }
      i := i + 1;
    }
  }

  /** One rank of hand 1's hit loop: draw it, play on, take it back, and
      add its weighted best value. */
  method Hand1HitCard(kind: Kind, rule: Rule, up: int, hole: int, i: int, p: real, acc: ExtReal, shoe: CardCount,
                      hand0: CardCount, st0: HandState, hand1: CardCount, ex: DoubleStateArray<AfterSplit>,
                      dps: SingleStateArray<map<int, Dist>>) returns (acc': ExtReal)
    requires Objects(shoe, hand0, hand1) && IsHoleExclusion(hole) && 1 <= i <= 10
    requires p == GetCardProbabilityCopy(shoe.Counts(), hole, i) && p != 0.0
    requires DealerTablesValid(dps.data) && ex.default == DEFAULT_AFTER_SPLIT
    modifies shoe, shoe.counts, hand1, hand1.counts, ex, dps
    ensures Objects(shoe, hand0, hand1)
            && shoe.Counts() == old(shoe.Counts()) && hand1.Counts() == old(hand1.Counts())
    ensures DealerTablesValid(dps.data)
    ensures Aux1Hit(kind, rule, up, hole, old(shoe.Counts()), old(hand0.Counts()), st0, old(hand1.Counts()), i,
                    Step(Tables(old(ex.data), old(dps.data)), acc))
            == Aux1Hit(kind, rule, up, hole, old(shoe.Counts()), old(hand0.Counts()), st0, old(hand1.Counts()), i + 1,
                       Step(Tables(ex.data, dps.data), acc'))
    decreases Total(shoe.Counts()), 0
  {
    ghost var s, h0, h1 := shoe.Counts(), hand0.Counts(), hand1.Counts();
    CopyOfAbsent(s, hole, i);
    CountsBounds(s);
    DecValues(s, i);
    shoe.RemoveCard(i);
    hand1.AddCard(i);
    MemoAux1(kind, rule, up, hole, 1, 10, shoe, hand0, st0, hand1, ex, dps);
    var next := NewDoubleIndex(hand0, st0, hand1);
    IndexIsPairKey(hand0, st0, hand1);
    var best := GetMaxExpectation(kind, ex.Index(next)).0;
    hand1.RemoveCard(i);
    shoe.AddCard(i);
    IncDec(s, i);
    IncDec(h1, i);
    acc' := Add(acc, Scale(p, best));
  }

  /** Hand 1's double loop in place; the result is the double value. */
  method Hand1Doubles(kind: Kind, rule: Rule, up: int, hole: int, lo: int, hi: int, shoe: CardCount,
                      hand0: CardCount, st0: HandState, hand1: CardCount, ex: DoubleStateArray<AfterSplit>,
                      dps: SingleStateArray<map<int, Dist>>) returns (acc: ExtReal)
    requires Objects(shoe, hand0, hand1) && IsHoleExclusion(hole) && DrawRange(lo, hi)
    requires DealerTablesValid(dps.data) && ex.default == DEFAULT_AFTER_SPLIT
    modifies shoe, shoe.counts, hand1, hand1.counts, ex, dps
    ensures Objects(shoe, hand0, hand1)
            && shoe.Counts() == old(shoe.Counts()) && hand1.Counts() == old(hand1.Counts())
    ensures Step(Tables(ex.data, dps.data), acc)
            == Aux1Double(kind, rule, up, hole, lo, hi, old(shoe.Counts()), old(hand0.Counts()), st0, old(hand1.Counts()),
                          1, Step(Tables(old(ex.data), old(dps.data)), Fin(0.0)))
  {
    ghost var s, h0, h1 := shoe.Counts(), hand0.Counts(), hand1.Counts();
    ghost var goal := Aux1Double(kind, rule, up, hole, lo, hi, s, h0, st0, h1, 1,
                                 Step(Tables(ex.data, dps.data), Fin(0.0)));
    acc := Fin(0.0);
    var i := 1;
    while i <= 10
      invariant 1 <= i <= 11
      invariant Objects(shoe, hand0, hand1) && shoe.Counts() == s && hand1.Counts() == h1
      invariant DealerTablesValid(dps.data)
      invariant Aux1Double(kind, rule, up, hole, lo, hi, s, h0, st0, h1, i, Step(Tables(ex.data, dps.data), acc))
                == goal
    {
      var p := GetCardProbabilityCopy(shoe.counts[..], hole, i);
      if p != 0.0 {
        acc := Hand1DoubleCard(kind, rule, up, hole, lo, hi, i, p, acc, shoe, hand0, st0, hand1, ex, dps);
      }
      i := i + 1;
    }
  }

  /** One rank of hand 1's double loop. */
  method Hand1DoubleCard(kind: Kind, rule: Rule, up: int, hole: int, lo: int, hi: int, i: int, p: real,
                         acc: ExtReal, shoe: CardCount, hand0: CardCount, st0: HandState, hand1: CardCount,
                         ex: DoubleStateArray<AfterSplit>, dps: SingleStateArray<map<int, Dist>>)
    returns (acc': ExtReal)
    requires Objects(shoe, hand0, hand1) && IsHoleExclusion(hole) && DrawRange(lo, hi) && 1 <= i <= 10
    requires p == GetCardProbabilityCopy(shoe.Counts(), hole, i) && p != 0.0
    requires DealerTablesValid(dps.data) && ex.default == DEFAULT_AFTER_SPLIT
    modifies shoe, shoe.counts, hand1, hand1.counts, ex, dps
    ensures Objects(shoe, hand0, hand1)
            && shoe.Counts() == old(shoe.Counts()) && hand1.Counts() == old(hand1.Counts())
    ensures DealerTablesValid(dps.data)
    ensures Aux1Double(kind, rule, up, hole, lo, hi, old(shoe.Counts()), old(hand0.Counts()), st0, old(hand1.Counts()),
                       i, Step(Tables(old(ex.data), old(dps.data)), acc))
            == Aux1Double(kind, rule, up, hole, lo, hi, old(shoe.Counts()), old(hand0.Counts()), st0,
                          old(hand1.Counts()), i + 1, Step(Tables(ex.data, dps.data), acc'))
  {
    ghost var s, h0, h1 := shoe.Counts(), hand0.Counts(), hand1.Counts();
    CopyOfAbsent(s, hole, i);
    shoe.RemoveCard(i);
    hand1.AddCard(i);
    MemoAux2(rule, up, lo, hi, HandState.Double, shoe, hand0, st0, hand1, ex, dps);
    var next := NewDoubleIndex(hand0, st0, hand1);
    IndexIsPairKey(hand0, st0, hand1);
    var best := GetMaxExpectation(kind, ex.Index(next)).0;
    hand1.RemoveCard(i);
    shoe.AddCard(i);
    IncDec(s, i);
    IncDec(h1, i);
    acc' := Add(acc, Scale(p, best));
  }

  /** `memoization_calculate_split_expectation_aux0` in place. */
  method MemoAux0(kind: Kind, rule: Rule, up: int, hole: int, lo: int, hi: int, shoe: CardCount,
                  hand0: CardCount, hand1: CardCount, ex: DoubleStateArray<AfterSplit>,
                  dps: SingleStateArray<map<int, Dist>>)
    requires Objects(shoe, hand0, hand1) && IsHoleExclusion(hole) && DrawRange(lo, hi)
    requires DealerTablesValid(dps.data) && ex.default == DEFAULT_AFTER_SPLIT
    modifies shoe, shoe.counts, hand0, hand0.counts, hand1, hand1.counts, ex, dps
    ensures Objects(shoe, hand0, hand1) && shoe.Counts() == old(shoe.Counts())
            && hand0.Counts() == old(hand0.Counts()) && hand1.Counts() == old(hand1.Counts())
    ensures Tables(ex.data, dps.data)
            == Aux0(kind, rule, up, hole, lo, hi, old(shoe.Counts()), old(hand0.Counts()), old(hand1.Counts()),
                    Tables(old(ex.data), old(dps.data)))
    decreases Total(shoe.Counts()), 6
  {
    var index := NewDoubleIndex(hand0, HandState.PlaceHolder, hand1);
    IndexIsPairKey(hand0, HandState.PlaceHolder, hand1);
    if ex.ContainsState(index) {
      return;
    }
    ex.Set(index, DEFAULT_AFTER_SPLIT);
    if hand0.GetActualSum() > 11 {
      MemoAux1(kind, rule, up, hole, lo, hi, shoe, hand0, HandState.Normal, hand1, ex, dps);
      var next := NewDoubleIndex(hand0, HandState.Normal, hand1);
      IndexIsPairKey(hand0, HandState.Normal, hand1);
      var best := GetMaxExpectation(kind, ex.Index(next)).0;
      PutField(ex, index, StandField, best);
    } else {
      PutField(ex, index, StandField, NegInf);
    }
    if hand0.Bust() || hand0.GetTotal() == rule.charlieNumber || hand0.GetActualSum() == 21 {
      return;
    }
    Hand0Moves(kind, rule, up, hole, lo, hi, shoe, hand0, hand1, ex, dps);
  }

  /** Hand 0's hit, surrender and double in place. */
  method Hand0Moves(kind: Kind, rule: Rule, up: int, hole: int, lo: int, hi: int, shoe: CardCount,
                    hand0: CardCount, hand1: CardCount, ex: DoubleStateArray<AfterSplit>,
                    dps: SingleStateArray<map<int, Dist>>)
    requires Objects(shoe, hand0, hand1) && IsHoleExclusion(hole) && DrawRange(lo, hi)
    requires DealerTablesValid(dps.data) && ex.default == DEFAULT_AFTER_SPLIT
    modifies shoe, shoe.counts, hand0, hand0.counts, hand1, hand1.counts, ex, dps
    ensures Objects(shoe, hand0, hand1) && shoe.Counts() == old(shoe.Counts())
            && hand0.Counts() == old(hand0.Counts()) && hand1.Counts() == old(hand1.Counts())
    ensures Tables(ex.data, dps.data)
            == Aux0Moves(kind, rule, up, hole, lo, hi, old(shoe.Counts()), old(hand0.Counts()),
                         old(hand1.Counts()), Tables(old(ex.data), old(dps.data)))
    decreases Total(shoe.Counts()), 5
  {
    ghost var s, h0, h1, t := shoe.Counts(), hand0.Counts(), hand1.Counts(), Tables(ex.data, dps.data);
    ghost var k := PairKey(h0, HandState.PlaceHolder, h1);
    var index := NewDoubleIndex(hand0, HandState.PlaceHolder, hand1);
    IndexIsPairKey(hand0, HandState.PlaceHolder, hand1);
    var hit := Hand0Hits(kind, rule, up, hole, shoe, hand0, hand1, ex, dps);
    ghost var hitStep := Aux0Hit(kind, rule, up, hole, s, h0, h1, 1, Step(t, Fin(0.0)));
    assert hitStep == Step(Tables(ex.data, dps.data), hit);
    PutField(ex, index, HitField, hit);
    ghost var t2 := Put(hitStep.t, k, HitField, hitStep.acc);
    assert Tables(ex.data, dps.data) == t2;
    if kind.allowLateSurrender {
      MemoAux1(kind, rule, up, hole, lo, hi, shoe, hand0, HandState.Surrender, hand1, ex, dps);
      var next := NewDoubleIndex(hand0, HandState.Surrender, hand1);
      IndexIsPairKey(hand0, HandState.Surrender, hand1);
      var best := GetMaxExpectation(kind, ex.Index(next)).0;
      PutField(ex, index, SurrenderField, best);
    }
    Hand0DoubleMove(kind, rule, up, hole, lo, hi, shoe, hand0, hand1, ex, dps);
  }

  /** Hand 0's double in place. */
  method Hand0DoubleMove(kind: Kind, rule: Rule, up: int, hole: int, lo: int, hi: int, shoe: CardCount,
                         hand0: CardCount, hand1: CardCount, ex: DoubleStateArray<AfterSplit>,
                         dps: SingleStateArray<map<int, Dist>>)
    requires Objects(shoe, hand0, hand1) && IsHoleExclusion(hole) && DrawRange(lo, hi)
    requires DealerTablesValid(dps.data) && ex.default == DEFAULT_AFTER_SPLIT
    modifies shoe, shoe.counts, hand0, hand0.counts, hand1, hand1.counts, ex, dps
    ensures Objects(shoe, hand0, hand1) && shoe.Counts() == old(shoe.Counts())
            && hand0.Counts() == old(hand0.Counts()) && hand1.Counts() == old(hand1.Counts())
    ensures Tables(ex.data, dps.data)
            == Aux0DoubleMove(kind, rule, up, hole, lo, hi, old(shoe.Counts()), old(hand0.Counts()),
                              old(hand1.Counts()), Tables(old(ex.data), old(dps.data)))
  {
    if kind.allowDas && hand0.GetTotal() == 2 {
      var index := NewDoubleIndex(hand0, HandState.PlaceHolder, hand1);
      IndexIsPairKey(hand0, HandState.PlaceHolder, hand1);
      var dbl := Hand0Doubles(kind, rule, up, hole, lo, hi, shoe, hand0, hand1, ex, dps);
      PutField(ex, index, DoubleField, dbl);
    }
  }

  /** Hand 0's hit loop in place; the result is the hit value. */
  method Hand0Hits(kind: Kind, rule: Rule, up: int, hole: int, shoe: CardCount, hand0: CardCount,
                   hand1: CardCount, ex: DoubleStateArray<AfterSplit>, dps: SingleStateArray<map<int, Dist>>)
    returns (acc: ExtReal)
    requires Objects(shoe, hand0, hand1) && IsHoleExclusion(hole)
    requires DealerTablesValid(dps.data) && ex.default == DEFAULT_AFTER_SPLIT
    modifies shoe, shoe.counts, hand0, hand0.counts, hand1, hand1.counts, ex, dps
    ensures Objects(shoe, hand0, hand1) && shoe.Counts() == old(shoe.Counts())
            && hand0.Counts() == old(hand0.Counts()) && hand1.Counts() == old(hand1.Counts())
    ensures Step(Tables(ex.data, dps.data), acc)
            == Aux0Hit(kind, rule, up, hole, old(shoe.Counts()), old(hand0.Counts()), old(hand1.Counts()), 1,
                       Step(Tables(old(ex.data), old(dps.data)), Fin(0.0)))
    decreases Total(shoe.Counts()), 4
  {
    ghost var s, h0, h1 := shoe.Counts(), hand0.Counts(), hand1.Counts();
    ghost var goal := Aux0Hit(kind, rule, up, hole, s, h0, h1, 1, Step(Tables(ex.data, dps.data), Fin(0.0)));
    acc := Fin(0.0);
    var i := 1;
    while i <= 10
      invariant 1 <= i <= 11
      invariant Objects(shoe, hand0, hand1) && shoe.Counts() == s && hand0.Counts() == h0 && hand1.Counts() == h1
      invariant DealerTablesValid(dps.data)
      invariant Aux0Hit(kind, rule, up, hole, s, h0, h1, i, Step(Tables(ex.data, dps.data), acc)) == goal
    {
      var p := GetCardProbabilityCopy(shoe.counts[..], hole, i);
      if p != 0.0 {
        acc := Hand0HitCard(kind, rule, up, hole, i, p, acc, shoe, hand0, hand1, ex, dps);
      }
      i := i + 1;
    }
  }

  /** One rank of hand 0's hit loop. */
  method Hand0HitCard(kind: Kind, rule: Rule, up: int, hole: int, i: int, p: real, acc: ExtReal, shoe: CardCount,
                      hand0: CardCount, hand1: CardCount, ex: DoubleStateArray<AfterSplit>,
                      dps: SingleStateArray<map<int, Dist>>) returns (acc': ExtReal)
    requires Objects(shoe, hand0, hand1) && IsHoleExclusion(hole) && 1 <= i <= 10
    requires p == GetCardProbabilityCopy(shoe.Counts(), hole, i) && p != 0.0
    requires DealerTablesValid(dps.data) && ex.default == DEFAULT_AFTER_SPLIT
    modifies shoe, shoe.counts, hand0, hand0.counts, hand1, hand1.counts, ex, dps
    ensures Objects(shoe, hand0, hand1) && shoe.Counts() == old(shoe.Counts())
            && hand0.Counts() == old(hand0.Counts()) && hand1.Counts() == old(hand1.Counts())
    ensures DealerTablesValid(dps.data)
    ensures Aux0Hit(kind, rule, up, hole, old(shoe.Counts()), old(hand0.Counts()), old(hand1.Counts()), i,
                    Step(Tables(old(ex.data), old(dps.data)), acc))
            == Aux0Hit(kind, rule, up, hole, old(shoe.Counts()), old(hand0.Counts()), old(hand1.Counts()), i + 1,
                       Step(Tables(ex.data, dps.data), acc'))
    decreases Total(shoe.Counts()), 3
  {
    ghost var s, h0 := shoe.Counts(), hand0.Counts();
    CopyOfAbsent(s, hole, i);
    CountsBounds(s);
    DecValues(s, i);
    shoe.RemoveCard(i);
    hand0.AddCard(i);
    MemoAux0(kind, rule, up, hole, 1, 10, shoe, hand0, hand1, ex, dps);
    var next := NewDoubleIndex(hand0, HandState.PlaceHolder, hand1);
    IndexIsPairKey(hand0, HandState.PlaceHolder, hand1);
    var best := GetMaxExpectation(kind, ex.Index(next)).0;
    hand0.RemoveCard(i);
    shoe.AddCard(i);
    IncDec(s, i);
    IncDec(h0, i);
    acc' := Add(acc, Scale(p, best));
  }

  /** Hand 0's double loop in place; the result is the double value. */
  method Hand0Doubles(kind: Kind, rule: Rule, up: int, hole: int, lo: int, hi: int, shoe: CardCount,
                      hand0: CardCount, hand1: CardCount, ex: DoubleStateArray<AfterSplit>,
                      dps: SingleStateArray<map<int, Dist>>) returns (acc: ExtReal)
    requires Objects(shoe, hand0, hand1) && IsHoleExclusion(hole) && DrawRange(lo, hi)
    requires DealerTablesValid(dps.data) && ex.default == DEFAULT_AFTER_SPLIT
    modifies shoe, shoe.counts, hand0, hand0.counts, hand1, hand1.counts, ex, dps
    ensures Objects(shoe, hand0, hand1) && shoe.Counts() == old(shoe.Counts())
            && hand0.Counts() == old(hand0.Counts()) && hand1.Counts() == old(hand1.Counts())
    ensures Step(Tables(ex.data, dps.data), acc)
            == Aux0Double(kind, rule, up, hole, lo, hi, old(shoe.Counts()), old(hand0.Counts()), old(hand1.Counts()),
                          1, Step(Tables(old(ex.data), old(dps.data)), Fin(0.0)))
  {
    ghost var s, h0, h1 := shoe.Counts(), hand0.Counts(), hand1.Counts();
    ghost var goal := Aux0Double(kind, rule, up, hole, lo, hi, s, h0, h1, 1, Step(Tables(ex.data, dps.data), Fin(0.0)));
    acc := Fin(0.0);
    var i := 1;
    while i <= 10
      invariant 1 <= i <= 11
      invariant Objects(shoe, hand0, hand1) && shoe.Counts() == s && hand0.Counts() == h0 && hand1.Counts() == h1
      invariant DealerTablesValid(dps.data)
      invariant Aux0Double(kind, rule, up, hole, lo, hi, s, h0, h1, i, Step(Tables(ex.data, dps.data), acc)) == goal
    {
      var p := GetCardProbabilityCopy(shoe.counts[..], hole, i);
      if p != 0.0 {
        acc := Hand0DoubleCard(kind, rule, up, hole, lo, hi, i, p, acc, shoe, hand0, hand1, ex, dps);
      }
      i := i + 1;
    }
  }

  /** One rank of hand 0's double loop: hand 0 ends doubled with the card
      and hand 1 is played. */
  method Hand0DoubleCard(kind: Kind, rule: Rule, up: int, hole: int, lo: int, hi: int, i: int, p: real,
                         acc: ExtReal, shoe: CardCount, hand0: CardCount, hand1: CardCount,
                         ex: DoubleStateArray<AfterSplit>, dps: SingleStateArray<map<int, Dist>>)
    returns (acc': ExtReal)
    requires Objects(shoe, hand0, hand1) && IsHoleExclusion(hole) && DrawRange(lo, hi) && 1 <= i <= 10
    requires p == GetCardProbabilityCopy(shoe.Counts(), hole, i) && p != 0.0
    requires DealerTablesValid(dps.data) && ex.default == DEFAULT_AFTER_SPLIT
    modifies shoe, shoe.counts, hand0, hand0.counts, hand1, hand1.counts, ex, dps
    ensures Objects(shoe, hand0, hand1) && shoe.Counts() == old(shoe.Counts())
            && hand0.Counts() == old(hand0.Counts()) && hand1.Counts() == old(hand1.Counts())
    ensures DealerTablesValid(dps.data)
    ensures Aux0Double(kind, rule, up, hole, lo, hi, old(shoe.Counts()), old(hand0.Counts()), old(hand1.Counts()),
                       i, Step(Tables(old(ex.data), old(dps.data)), acc))
            == Aux0Double(kind, rule, up, hole, lo, hi, old(shoe.Counts()), old(hand0.Counts()),
                          old(hand1.Counts()), i + 1, Step(Tables(ex.data, dps.data), acc'))
  {
    ghost var s, h0 := shoe.Counts(), hand0.Counts();
    CopyOfAbsent(s, hole, i);
    shoe.RemoveCard(i);
    hand0.AddCard(i);
    MemoAux1(kind, rule, up, hole, lo, hi, shoe, hand0, HandState.Double, hand1, ex, dps);
    var next := NewDoubleIndex(hand0, HandState.Double, hand1);
    IndexIsPairKey(hand0, HandState.Double, hand1);
    var best := GetMaxExpectation(kind, ex.Index(next)).0;
    hand0.RemoveCard(i);
    shoe.AddCard(i);
    IncDec(s, i);
    IncDec(h0, i);
    acc' := Add(acc, Scale(p, best));
  }

  /** `calculate_expectation_double_aces` in place; false is the panic of
      an unexpected ruled-out hole card. */
  method DoubleAcesInPlace(rule: Rule, up: int, hole: int, shoe: CardCount, hand0: CardCount, hand1: CardCount,
                           ex: DoubleStateArray<AfterSplit>, dps: SingleStateArray<map<int, Dist>>)
    returns (ok: bool)
    requires Objects(shoe, hand0, hand1) && IsHoleExclusion(hole)
    requires DealerTablesValid(dps.data) && ex.default == DEFAULT_AFTER_SPLIT
    modifies shoe, shoe.counts, hand0, hand0.counts, hand1, hand1.counts, ex, dps
    ensures var r := DoubleAces(rule, up, hole, old(shoe.Counts()), old(hand0.Counts()), old(hand1.Counts()),
                                Tables(old(ex.data), old(dps.data)));
            ok == r.Some? && (ok ==> r.value == Tables(ex.data, dps.data))
    ensures ok ==> Objects(shoe, hand0, hand1) && shoe.Counts() == old(shoe.Counts())
                   && hand0.Counts() == old(hand0.Counts()) && hand1.Counts() == old(hand1.Counts())
  {
    var index := NewDoubleIndex(hand0, HandState.PlaceHolder, hand1);
    IndexIsPairKey(hand0, HandState.PlaceHolder, hand1);
    if ex.ContainsState(index) {
      return true;
    }
    ex.Set(index, DEFAULT_AFTER_SPLIT);
    var range := HoleRange(hole);
    if range.None? {
      return false;
    }
    var hit := AcesFirstCards(rule, up, hole, range.value.0, range.value.1, shoe, hand0, hand1, ex, dps);
    PutField(ex, index, HitField, hit);
    ok := true;
  }

  /** The loop over the first ace's card in place. */
  method AcesFirstCards(rule: Rule, up: int, hole: int, lo: int, hi: int, shoe: CardCount, hand0: CardCount,
                        hand1: CardCount, ex: DoubleStateArray<AfterSplit>, dps: SingleStateArray<map<int, Dist>>)
    returns (acc: ExtReal)
    requires Objects(shoe, hand0, hand1) && IsHoleExclusion(hole) && DrawRange(lo, hi)
    requires DealerTablesValid(dps.data) && ex.default == DEFAULT_AFTER_SPLIT
    modifies shoe, shoe.counts, hand0, hand0.counts, hand1, hand1.counts, ex, dps
    ensures Objects(shoe, hand0, hand1) && shoe.Counts() == old(shoe.Counts())
            && hand0.Counts() == old(hand0.Counts()) && hand1.Counts() == old(hand1.Counts())
    ensures Step(Tables(ex.data, dps.data), acc)
            == AcesFirst(rule, up, hole, lo, hi, old(shoe.Counts()), old(hand0.Counts()), old(hand1.Counts()), 1,
                         Step(Tables(old(ex.data), old(dps.data)), Fin(0.0)))
  {
    ghost var s, h0, h1 := shoe.Counts(), hand0.Counts(), hand1.Counts();
    ghost var goal := AcesFirst(rule, up, hole, lo, hi, s, h0, h1, 1, Step(Tables(ex.data, dps.data), Fin(0.0)));
    acc := Fin(0.0);
    var i := 1;
    while i <= 10
      invariant 1 <= i <= 11
      invariant Objects(shoe, hand0, hand1) && shoe.Counts() == s && hand0.Counts() == h0 && hand1.Counts() == h1
      invariant DealerTablesValid(dps.data)
      invariant AcesFirst(rule, up, hole, lo, hi, s, h0, h1, i, Step(Tables(ex.data, dps.data), acc)) == goal
    {
      var p := GetCardProbabilityCopy(shoe.counts[..], hole, i);
      if p != 0.0 {
        acc := AcesFirstCard(rule, up, hole, lo, hi, i, p, acc, shoe, hand0, hand1, ex, dps);
      }
      i := i + 1;
    }
  }

  /** One first card: drawn to hand 0, then the second card's loop. */
  method AcesFirstCard(rule: Rule, up: int, hole: int, lo: int, hi: int, i: int, p: real, acc: ExtReal,
                       shoe: CardCount, hand0: CardCount, hand1: CardCount, ex: DoubleStateArray<AfterSplit>,
                       dps: SingleStateArray<map<int, Dist>>) returns (acc': ExtReal)
    requires Objects(shoe, hand0, hand1) && IsHoleExclusion(hole) && DrawRange(lo, hi) && 1 <= i <= 10
    requires p == GetCardProbabilityCopy(shoe.Counts(), hole, i) && p != 0.0
    requires DealerTablesValid(dps.data) && ex.default == DEFAULT_AFTER_SPLIT
    modifies shoe, shoe.counts, hand0, hand0.counts, hand1, hand1.counts, ex, dps
    ensures Objects(shoe, hand0, hand1) && shoe.Counts() == old(shoe.Counts())
            && hand0.Counts() == old(hand0.Counts()) && hand1.Counts() == old(hand1.Counts())
    ensures DealerTablesValid(dps.data)
    ensures AcesFirst(rule, up, hole, lo, hi, old(shoe.Counts()), old(hand0.Counts()), old(hand1.Counts()), i,
                      Step(Tables(old(ex.data), old(dps.data)), acc))
            == AcesFirst(rule, up, hole, lo, hi, old(shoe.Counts()), old(hand0.Counts()), old(hand1.Counts()),
                         i + 1, Step(Tables(ex.data, dps.data), acc'))
  {
    ghost var s, h0 := shoe.Counts(), hand0.Counts();
    CopyOfAbsent(s, hole, i);
    shoe.RemoveCard(i);
    hand0.AddCard(i);
    acc' := AcesSecondCards(rule, up, hole, lo, hi, i, p, acc, shoe, hand0, hand1, ex, dps);
    hand0.RemoveCard(i);
    shoe.AddCard(i);
    IncDec(s, i);
    IncDec(h0, i);
  }

  /** The loop over the second ace's card in place, up to the first card. */
  method AcesSecondCards(rule: Rule, up: int, hole: int, lo: int, hi: int, c0: int, p: real, acc0: ExtReal,
                         shoe: CardCount, hand0: CardCount, hand1: CardCount, ex: DoubleStateArray<AfterSplit>,
                         dps: SingleStateArray<map<int, Dist>>) returns (acc: ExtReal)
    requires Objects(shoe, hand0, hand1) && IsHoleExclusion(hole) && DrawRange(lo, hi) && 1 <= c0 <= 10
    requires p != 0.0 && DealerTablesValid(dps.data) && ex.default == DEFAULT_AFTER_SPLIT
    modifies shoe, shoe.counts, hand1, hand1.counts, ex, dps
    ensures Objects(shoe, hand0, hand1) && shoe.Counts() == old(shoe.Counts()) && hand1.Counts() == old(hand1.Counts())
    ensures DealerTablesValid(dps.data)
    ensures Step(Tables(ex.data, dps.data), acc)
            == AcesSecond(rule, up, hole, lo, hi, old(shoe.Counts()), old(hand0.Counts()), old(hand1.Counts()),
                          c0, p, 1, Step(Tables(old(ex.data), old(dps.data)), acc0))
  {
    ghost var s, h0, h1 := shoe.Counts(), hand0.Counts(), hand1.Counts();
    ghost var goal := AcesSecond(rule, up, hole, lo, hi, s, h0, h1, c0, p, 1, Step(Tables(ex.data, dps.data), acc0));
    acc := acc0;
    var j := 1;
    while j <= c0
      invariant 1 <= j <= c0 + 1
      invariant Objects(shoe, hand0, hand1) && shoe.Counts() == s && hand0.Counts() == h0 && hand1.Counts() == h1
      invariant DealerTablesValid(dps.data)
      invariant AcesSecond(rule, up, hole, lo, hi, s, h0, h1, c0, p, j, Step(Tables(ex.data, dps.data), acc)) == goal
    {
      var x := GetCardProbabilityCopy(shoe.counts[..], hole, j);
      var q := p * x;
      ZeroProduct(p, x);
      if q != 0.0 {
        acc := AcesSecondCard(rule, up, hole, lo, hi, c0, p, j, x, acc, shoe, hand0, hand1, ex, dps);
      }
      j := j + 1;
    }
  }

  /** One second card: drawn to hand 1, both hands settled standing, and
      the stand value added at the pair's weight. */
  method AcesSecondCard(rule: Rule, up: int, hole: int, lo: int, hi: int, c0: int, p: real, j: int, x: real,
                        acc: ExtReal, shoe: CardCount, hand0: CardCount, hand1: CardCount,
                        ex: DoubleStateArray<AfterSplit>, dps: SingleStateArray<map<int, Dist>>)
    returns (acc': ExtReal)
    requires Objects(shoe, hand0, hand1) && IsHoleExclusion(hole) && DrawRange(lo, hi) && 1 <= j <= c0 <= 10
    requires p != 0.0
    requires x == GetCardProbabilityCopy(shoe.Counts(), hole, j) && x != 0.0
    requires DealerTablesValid(dps.data) && ex.default == DEFAULT_AFTER_SPLIT
    modifies shoe, shoe.counts, hand1, hand1.counts, ex, dps
    ensures Objects(shoe, hand0, hand1) && shoe.Counts() == old(shoe.Counts()) && hand1.Counts() == old(hand1.Counts())
    ensures DealerTablesValid(dps.data)
    ensures AcesSecond(rule, up, hole, lo, hi, old(shoe.Counts()), old(hand0.Counts()), old(hand1.Counts()), c0, p, j,
                       Step(Tables(old(ex.data), old(dps.data)), acc))
            == AcesSecond(rule, up, hole, lo, hi, old(shoe.Counts()), old(hand0.Counts()), old(hand1.Counts()), c0, p,
                          j + 1, Step(Tables(ex.data, dps.data), acc'))
  {
    ghost var s, h0, h1 := shoe.Counts(), hand0.Counts(), hand1.Counts();
    ghost var st := Step(Tables(ex.data, dps.data), acc);
    CopyOfAbsent(s, hole, j);
    var w := PairWeight(c0, j, p, x);
    shoe.RemoveCard(j);
    hand1.AddCard(j);
    MemoAux2(rule, up, lo, hi, HandState.Normal, shoe, hand0, HandState.Normal, hand1, ex, dps);
    ghost var child := Aux2(rule, up, lo, hi, Dec(s, j), h0, HandState.Normal, Inc(h1, j), HandState.Normal, st.t);
    assert Tables(ex.data, dps.data) == child;
    var next := NewDoubleIndex(hand0, HandState.Normal, hand1);
    IndexIsPairKey(hand0, HandState.Normal, hand1);
    var stand := ex.Index(next).stand;
    assert stand == child.ex[PairKey(h0, HandState.Normal, Inc(h1, j))].stand;
    hand1.RemoveCard(j);
    shoe.AddCard(j);
    IncDec(s, j);
    IncDec(h1, j);
    acc' := Add(acc, Scale(w, stand));
    assert AcesSecond(rule, up, hole, lo, hi, s, h0, h1, c0, p, j, st)
           == AcesSecond(rule, up, hole, lo, hi, s, h0, h1, c0, p, j + 1, Step(child, acc'));
  }

  /** A product of reals with a non-zero factor is zero exactly when the
      other factor is. */
  lemma ZeroProduct(p: real, x: real)
    requires p != 0.0
    ensures (p * x == 0.0) == (x == 0.0)
  {
    if x != 0.0 {
      assert (p * x) / x == p;
    }
  }

  /** `calculate_split_expectation` in place; false is a panic. */
  method SplitInPlace(kind: Kind, rule: Rule, up: int, hole: int, shoe: CardCount, hand: CardCount,
                      ex: DoubleStateArray<AfterSplit>, dps: SingleStateArray<map<int, Dist>>) returns (ok: bool)
    requires shoe.Valid() && hand.Valid() && IsHoleExclusion(hole)
    requires DealerTablesValid(dps.data) && ex.default == DEFAULT_AFTER_SPLIT
    modifies shoe, shoe.counts, ex, dps
    ensures var r := CalculateSplitExpectation(kind, rule, up, hole, old(shoe.Counts()), old(hand.Counts()),
                                               Tables(old(ex.data), old(dps.data)));
            ok == r.Some? && (ok ==> r.value == Tables(ex.data, dps.data))
    ensures ok ==> shoe.Valid() && shoe.Counts() == old(shoe.Counts())
  {
    var v := (hand.GetSum() % 0x100) / 2;
    if !(1 <= v <= 10) {
      return false;
    }
    var hand0 := new CardCount.WithNumberOfDecks(0);
    assert hand0.Counts() == EMPTY;
    hand0.AddCard(v);
    var hand1 := hand0.Clone();
    TotalsOfSingle(v);
    assert hand0.Counts() == Single(v) && hand1.Counts() == Single(v);
    if v == 1 && !rule.allowDecisionsAfterSplitAces {
      ok := DoubleAcesInPlace(rule, up, hole, shoe, hand0, hand1, ex, dps);
      return;
    }
    var range := HoleRange(hole);
    if range.None? {
      return false;
    }
    MemoAux0(kind, rule, up, hole, range.value.0, range.value.1, shoe, hand0, hand1, ex, dps);
    ok := true;
  }
}
