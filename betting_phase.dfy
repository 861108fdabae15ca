/**
 * The betting phase of blackjack/src/calculation.rs: the enumeration of
 * every dealer up card and two-card player hand out of a shoe
 * (`calculate_solution_without_initial_situation`), the table of results
 * it fills (`SolutionForBettingPhase`) and the single-situation entry
 * point (`calculate_solution_with_initial_situation`).
 *
 * The enumeration is specified by three nested folds (UpLoop, FirstLoop,
 * SecondLoop) over an Enumeration value; the methods run the same loops on
 * the class and its arrays and are proved to end in the fold's value.
 */
module BettingPhase {
  import opened Wrappers
  import opened ExtReals
  import opened HandValue
  import opened StateArray
  import opened Rules
  import opened Expectations
  import opened StandHitEx
  import opened Betting

  /** The tables and running total of the enumeration: one stand and hit
      table per up card, the 10 × 55 results and the weighted summary. */
  datatype Enumeration = Enumeration(tables: seq<map<int, ExpectationStandHit>>,
                                     cells: seq<seq<ExsOtherDecisions>>, total: ExtReal)

  predicate Shaped(e: Enumeration)
  {
    |e.tables| == 10 && |e.cells| == 10 && forall i :: 0 <= i < 10 ==> |e.cells[i]| == 55
  }

  /** `SolutionForBettingPhase::default()`: empty tables, default results,
      a total of 0. */
  function Initial(): (e: Enumeration)
    ensures Shaped(e) && e.total == Fin(0.0)
    ensures forall x :: 0 <= x < 10 ==> e.tables[x] == map[]
    ensures forall x, y :: 0 <= x < 10 && 0 <= y < 55 ==> e.cells[x][y] == DEFAULT_OTHERS
  {
    Enumeration(seq(10, i => map[]), seq(10, i => seq(55, j => DEFAULT_OTHERS)), Fin(0.0))
  }

  /** All three cards of the deal are still in shoe c when drawn in order. */
  predicate Live(c: seq<int>, d: int, f: int, s: int)
    requires |c| == RANKS && 1 <= d <= 10 && 1 <= f <= 10 && 1 <= s <= 10
  {
    c[d - 1] > 0 && Dec(c, d)[f - 1] > 0 && Dec(Dec(c, d), f)[s - 1] > 0
  }

  /**
   * The body of the innermost loop for up card d and hand (f, s), the three
   * cards already out of shoe s3: `calculate_expectations` on the up card's
   * table, its result stored in the hand's slot, its summary added with
   * weight p.
   */
  function Deal(threads: nat, rule: Rule, odds: (seq<int>, seq<int>) -> WinLose, s3: seq<int>,
                d: int, f: int, s: int, p: real, st: Enumeration): (r: Option<Enumeration>)
    requires IsCounts(s3) && 1 <= d <= 10 && 1 <= s <= f <= 10 && Shaped(st)
    ensures r.Some? ==> Shaped(r.value)
  {
    match ExpectationsOf(threads, rule, odds, s3, (f, s), d, st.tables[d - 1])
    case None => None
    case Some(res) =>
      Some(Enumeration(st.tables[d - 1 := res.0],
                       st.cells[d - 1 := st.cells[d - 1][Idx55(f, s) := res.1]],
                       Add(st.total, Scale(p, res.1.exSummary))))
  }

  /** The second-card loop from s on, shoe u without the up card and the
      first card; k is the weight of those two. */
  function SecondLoop(threads: nat, rule: Rule, odds: (seq<int>, seq<int>) -> WinLose, u: seq<int>,
                      d: int, f: int, s: int, k: int, tc: int, st: Enumeration): (r: Option<Enumeration>)
    requires IsCounts(u) && 1 <= d <= 10 && 1 <= f <= 10 && 1 <= s <= f + 1 && tc > 0 && Shaped(st)
    ensures r.Some? ==> Shaped(r.value)
    decreases f + 1 - s
  {
    if s > f then Some(st)
    else if u[s - 1] == 0 then SecondLoop(threads, rule, odds, u, d, f, s + 1, k, tc, st)
    else
      var combs := k * u[s - 1] * (if s != f then 2 else 1);
      match Deal(threads, rule, odds, Dec(u, s), d, f, s, combs as real / tc as real, st)
      case None => None
      case Some(st') => SecondLoop(threads, rule, odds, u, d, f, s + 1, k, tc, st')
  }

  /** The first-card loop from f on, shoe v without the up card; k is the
      up card's count. */
  function FirstLoop(threads: nat, rule: Rule, odds: (seq<int>, seq<int>) -> WinLose, v: seq<int>,
                     d: int, f: int, k: int, tc: int, st: Enumeration): (r: Option<Enumeration>)
    requires IsCounts(v) && 1 <= d <= 10 && 1 <= f <= 11 && tc > 0 && Shaped(st)
    ensures r.Some? ==> Shaped(r.value)
    decreases 11 - f
  {
    if f > 10 then Some(st)
    else if v[f - 1] == 0 then FirstLoop(threads, rule, odds, v, d, f + 1, k, tc, st)
    else
      match SecondLoop(threads, rule, odds, Dec(v, f), d, f, 1, k * v[f - 1], tc, st)
      case None => None
      case Some(st') => FirstLoop(threads, rule, odds, v, d, f + 1, k, tc, st')
  }

  /** The up-card loop from d on, over shoe c. */
  function UpLoop(threads: nat, rule: Rule, odds: (seq<int>, seq<int>) -> WinLose, c: seq<int>,
                  d: int, tc: int, st: Enumeration): (r: Option<Enumeration>)
    requires IsCounts(c) && 1 <= d <= 11 && tc > 0 && Shaped(st)
    ensures r.Some? ==> Shaped(r.value)
    decreases 11 - d
  {
    if d > 10 then Some(st)
    else if c[d - 1] == 0 then UpLoop(threads, rule, odds, c, d + 1, tc, st)
    else
      match FirstLoop(threads, rule, odds, Dec(c, d), d, 1, c[d - 1], tc, st)
      case None => None
      case Some(st') => UpLoop(threads, rule, odds, c, d + 1, tc, st')
  }

  /** `calculate_solution_without_initial_situation` on shoe c: None is a
      panic on a missing table entry. */
  function BettingPhaseOf(threads: nat, rule: Rule, odds: (seq<int>, seq<int>) -> WinLose, c: seq<int>)
    : Option<Enumeration>
    requires IsCounts(c) && rule.numberOfDecks >= 1
  {
    PositiveProduct(52 * rule.numberOfDecks, 52 * rule.numberOfDecks - 1, 52 * rule.numberOfDecks - 2);
    UpLoop(threads, rule, odds, c, 1, TotalCombs(rule), Initial())
  }

  lemma PositiveProduct(a: int, b: int, c: int)
    requires a > 0 && b > 0 && c > 0
    ensures a * b * c > 0
  {
  }

  // ---------------------------------------------------------------------
  // What the enumeration leaves alone
  // ---------------------------------------------------------------------

  /** The cell of hand (a, b) under up card d is the same in st and r. */
  predicate KeepsCell(st: Enumeration, r: Enumeration, d: int, a: int, b: int)
    requires Shaped(st) && Shaped(r) && 1 <= d <= 10 && 1 <= b <= a <= 10
  {
    KeepsSlot(st, r, d, Idx55(a, b))
  }

  /** Slot j under up card d is the same in st and r. */
  predicate KeepsSlot(st: Enumeration, r: Enumeration, d: int, j: int)
    requires Shaped(st) && Shaped(r) && 1 <= d <= 10 && 0 <= j < 55
  {
    r.cells[d - 1][j] == st.cells[d - 1][j]
  }

  /** r differs from st at most in the table and the row of up card d. */
  predicate OnlyUpCard(st: Enumeration, r: Enumeration, d: int)
    requires Shaped(st) && Shaped(r)
  {
    forall x :: 0 <= x < 10 && x != d - 1 ==> r.tables[x] == st.tables[x] && r.cells[x] == st.cells[x]
  }

  /** r is st with at most up card d's table and slot (f, s) rewritten. */
  predicate DealWrote(st: Enumeration, r: Enumeration, d: int, f: int, s: int)
    requires Shaped(st) && Shaped(r) && 1 <= d <= 10 && 1 <= s <= f <= 10
  {
    OnlyUpCard(st, r, d) && forall j :: 0 <= j < 55 && j != Idx55(f, s) ==> KeepsSlot(st, r, d, j)
  }

  /** One deal writes the table of its up card and the slot of its hand. */
  lemma DealWrites(threads: nat, rule: Rule, odds: (seq<int>, seq<int>) -> WinLose, s3: seq<int>,
                   d: int, f: int, s: int, p: real, st: Enumeration)
    requires IsCounts(s3) && 1 <= d <= 10 && 1 <= s <= f <= 10 && Shaped(st)
    ensures var r := Deal(threads, rule, odds, s3, d, f, s, p, st);
            r.Some? ==> DealWrote(st, r.value, d, f, s)
  {
  }

  /** Two rows of the triangle do not overlap. */
  lemma RowsApart(a: int, f: int)
    requires 1 <= a < f <= 10
    ensures PREFIX_SUM[a - 1] + a <= PREFIX_SUM[f - 1]
  {
    PrefixSumIsTriangular();
    assert 2 * PREFIX_SUM[a - 1] == (a - 1) * a && 2 * PREFIX_SUM[f - 1] == (f - 1) * f;
    assert (a - 1) * a + 2 * a == a * (a + 1) <= (f - 1) * f;
  }

  /** A slot of row a is outside row f when a != f. */
  lemma OutsideRow(a: int, b: int, f: int)
    requires 1 <= b <= a <= 10 && 1 <= f <= 10 && a != f
    ensures !(PREFIX_SUM[f - 1] <= Idx55(a, b) < PREFIX_SUM[f - 1] + f)
  {
    if a < f { RowsApart(a, f); } else { RowsApart(f, a); }
  }

  /** r is st with at most up card d's table and, in its row, the slots
      (f, b), b >= s, with u[b - 1] > 0 rewritten. */
  predicate SecondWrote(st: Enumeration, r: Enumeration, u: seq<int>, d: int, f: int, s: int)
    requires Shaped(st) && Shaped(r) && |u| == RANKS && 1 <= d <= 10 && 1 <= f <= 10
  {
    OnlyUpCard(st, r, d)
    && (forall b :: 1 <= b <= f && (b < s || u[b - 1] == 0) ==> KeepsCell(st, r, d, f, b))
    && forall j :: 0 <= j < 55 && !(PREFIX_SUM[f - 1] <= j < PREFIX_SUM[f - 1] + f) ==> KeepsSlot(st, r, d, j)
  }

  /** A deal of (f, s) followed by the rest of the second-card loop. */
  lemma SecondStep(st: Enumeration, st': Enumeration, r: Enumeration, u: seq<int>, d: int, f: int, s: int)
    requires Shaped(st) && Shaped(st') && Shaped(r) && |u| == RANKS && 1 <= d <= 10 && 1 <= s <= f <= 10
    requires u[s - 1] > 0
    requires DealWrote(st, st', d, f, s) && SecondWrote(st', r, u, d, f, s + 1)
    ensures SecondWrote(st, r, u, d, f, s)
  {
    forall b | 1 <= b <= f && (b < s || u[b - 1] == 0)
      ensures KeepsCell(st, r, d, f, b)
    {
      assert KeepsCell(st', r, d, f, b);
      assert Idx55(f, b) != Idx55(f, s);
      assert KeepsSlot(st, st', d, Idx55(f, b));
    }
    forall j | 0 <= j < 55 && !(PREFIX_SUM[f - 1] <= j < PREFIX_SUM[f - 1] + f)
      ensures KeepsSlot(st, r, d, j)
    {
      assert KeepsSlot(st, st', d, j) && KeepsSlot(st', r, d, j);
    }
  }

  /** The second-card loop writes only up card d's table and, in its row,
      the slots (f, b), b >= s, whose second card is still in the shoe. */
  lemma {:induction false} SecondLoopFrame(threads: nat, rule: Rule, odds: (seq<int>, seq<int>) -> WinLose,
                                           u: seq<int>, d: int, f: int, s: int, k: int, tc: int, st: Enumeration)
    requires IsCounts(u) && 1 <= d <= 10 && 1 <= f <= 10 && 1 <= s <= f + 1 && tc > 0 && Shaped(st)
    ensures var r := SecondLoop(threads, rule, odds, u, d, f, s, k, tc, st);
            r.Some? ==> SecondWrote(st, r.value, u, d, f, s)
    decreases f + 1 - s
  {
    var r := SecondLoop(threads, rule, odds, u, d, f, s, k, tc, st);
    if s <= f && r.Some? {
      if u[s - 1] == 0 {
        SecondLoopFrame(threads, rule, odds, u, d, f, s + 1, k, tc, st);
      } else {
        var combs := k * u[s - 1] * (if s != f then 2 else 1);
        var p := combs as real / tc as real;
        var st' := Deal(threads, rule, odds, Dec(u, s), d, f, s, p, st).value;
        DealWrites(threads, rule, odds, Dec(u, s), d, f, s, p, st);
        SecondLoopFrame(threads, rule, odds, u, d, f, s + 1, k, tc, st');
        assert r == SecondLoop(threads, rule, odds, u, d, f, s + 1, k, tc, st');
        SecondStep(st, st', r.value, u, d, f, s);
      }
    }
  }

  /** r is st with at most up card d's table and, in its row, the slots of
      hands (a, b), a >= f, whose two cards are in v in turn rewritten. */
  predicate FirstWrote(st: Enumeration, r: Enumeration, v: seq<int>, d: int, f: int)
    requires Shaped(st) && Shaped(r) && IsCounts(v) && 1 <= d <= 10
  {
    OnlyUpCard(st, r, d)
    && forall a, b :: 1 <= b <= a <= 10 && (a < f || v[a - 1] == 0 || Dec(v, a)[b - 1] == 0)
                      ==> KeepsCell(st, r, d, a, b)
  }

  /** The second-card loop of first card f followed by the rest of the
      first-card loop. */
  lemma FirstStep(st: Enumeration, st': Enumeration, r: Enumeration, v: seq<int>, d: int, f: int)
    requires Shaped(st) && Shaped(st') && Shaped(r) && IsCounts(v) && 1 <= d <= 10 && 1 <= f <= 10
    requires v[f - 1] > 0
    requires SecondWrote(st, st', Dec(v, f), d, f, 1) && FirstWrote(st', r, v, d, f + 1)
    ensures FirstWrote(st, r, v, d, f)
  {
    forall a, b | 1 <= b <= a <= 10 && (a < f || v[a - 1] == 0 || Dec(v, a)[b - 1] == 0)
      ensures KeepsCell(st, r, d, a, b)
    {
      assert KeepsCell(st', r, d, a, b);
      if a != f {
        OutsideRow(a, b, f);
        assert KeepsSlot(st, st', d, Idx55(a, b));
      } else {
        assert KeepsCell(st, st', d, f, b);
        assert KeepsSlot(st, st', d, Idx55(a, b));
      }
    }
  }

  /** The first-card loop writes only up card d's table and, in its row,
      the slots of hands (a, b), a >= f, whose two cards are still in the
      shoe. */
  lemma {:induction false} FirstLoopFrame(threads: nat, rule: Rule, odds: (seq<int>, seq<int>) -> WinLose,
                                          v: seq<int>, d: int, f: int, k: int, tc: int, st: Enumeration)
    requires IsCounts(v) && 1 <= d <= 10 && 1 <= f <= 11 && tc > 0 && Shaped(st)
    ensures var r := FirstLoop(threads, rule, odds, v, d, f, k, tc, st);
            r.Some? ==> FirstWrote(st, r.value, v, d, f)
    decreases 11 - f
  {
    var r := FirstLoop(threads, rule, odds, v, d, f, k, tc, st);
    if f <= 10 && r.Some? {
      if v[f - 1] == 0 {
        FirstLoopFrame(threads, rule, odds, v, d, f + 1, k, tc, st);
      } else {
        var st' := SecondLoop(threads, rule, odds, Dec(v, f), d, f, 1, k * v[f - 1], tc, st).value;
        SecondLoopFrame(threads, rule, odds, Dec(v, f), d, f, 1, k * v[f - 1], tc, st);
        FirstLoopFrame(threads, rule, odds, v, d, f + 1, k, tc, st');
        assert r == FirstLoop(threads, rule, odds, v, d, f + 1, k, tc, st');
        FirstStep(st, st', r.value, v, d, f);
      }
    }
  }

  /** The up-card loop writes only the tables of up cards d.. the shoe
      holds, and only the slots of deals d.. whose three cards are still in
      the shoe in turn. */
  lemma {:induction false} UpLoopFrame(threads: nat, rule: Rule, odds: (seq<int>, seq<int>) -> WinLose,
                                       c: seq<int>, d: int, tc: int, st: Enumeration)
    requires IsCounts(c) && 1 <= d <= 11 && tc > 0 && Shaped(st)
    ensures var r := UpLoop(threads, rule, odds, c, d, tc, st);
            r.Some? ==>
              (forall x :: 0 <= x < 10 && !(d - 1 <= x && c[x] > 0) ==> r.value.tables[x] == st.tables[x])
              && forall y, a, b :: 1 <= y <= 10 && 1 <= b <= a <= 10 && !(d <= y && Live(c, y, a, b))
                                   ==> KeepsCell(st, r.value, y, a, b)
    decreases 11 - d
  {
    var r := UpLoop(threads, rule, odds, c, d, tc, st);
    if d <= 10 && r.Some? {
      if c[d - 1] == 0 {
        UpLoopFrame(threads, rule, odds, c, d + 1, tc, st);
      } else {
        var st' := FirstLoop(threads, rule, odds, Dec(c, d), d, 1, c[d - 1], tc, st).value;
        FirstLoopFrame(threads, rule, odds, Dec(c, d), d, 1, c[d - 1], tc, st);
        UpLoopFrame(threads, rule, odds, c, d + 1, tc, st');
        assert r == UpLoop(threads, rule, odds, c, d + 1, tc, st');
        forall y, a, b | 1 <= y <= 10 && 1 <= b <= a <= 10 && !(d <= y && Live(c, y, a, b))
          ensures KeepsCell(st, r.value, y, a, b)
        {
          assert KeepsCell(st', r.value, y, a, b);
          if y == d {
            assert KeepsCell(st, st', y, a, b);
          }
        }
      }
    }
  }

  /**
   * A deal that cannot come out of the shoe is never evaluated: its slot
   * keeps the default result, and an up card the shoe does not hold keeps
   * an empty table. Slots are written exactly for the deals with a
   * non-zero weight.
   */
  lemma ImpossibleDealsKeepDefaults(threads: nat, rule: Rule, odds: (seq<int>, seq<int>) -> WinLose, c: seq<int>)
    requires IsCounts(c) && rule.numberOfDecks >= 1
    ensures var r := BettingPhaseOf(threads, rule, odds, c);
            r.Some? ==>
              (forall x :: 0 <= x < 10 && c[x] == 0 ==> r.value.tables[x] == map[])
              && forall d, a, b :: 1 <= d <= 10 && 1 <= b <= a <= 10 && Combs(c, d, a, b) == 0
                                   ==> r.value.cells[d - 1][Idx55(a, b)] == DEFAULT_OTHERS
  {
    var n := 52 * rule.numberOfDecks;
    PositiveProduct(n, n - 1, n - 2);
    UpLoopFrame(threads, rule, odds, c, 1, TotalCombs(rule), Initial());
    forall d, a, b | 1 <= d <= 10 && 1 <= b <= a <= 10 && Combs(c, d, a, b) == 0
      ensures !Live(c, d, a, b)
    {
      LiveHasWeight(c, d, a, b);
    }
  }

  /** The weight of a deal is non-zero exactly when its three cards are in
      the shoe in turn. */
  lemma LiveHasWeight(c: seq<int>, d: int, f: int, s: int)
    requires IsCounts(c) && 1 <= d <= 10 && 1 <= f <= 10 && 1 <= s <= 10
    ensures Combs(c, d, f, s) != 0 <==> Live(c, d, f, s)
  {
    var c1 := Dec(c, d);
    var c2 := Dec(c1, f);
    if Live(c, d, f, s) {
      PositiveProduct(c[d - 1], c1[f - 1], c2[s - 1]);
    } else if c[d - 1] > 0 && c1[f - 1] > 0 {
      assert c2[s - 1] == 0;
    } else if c[d - 1] > 0 {
      assert c1[f - 1] == 0;
    }
  }

  // ---------------------------------------------------------------------
  // The table of results and the enumeration in place
  // ---------------------------------------------------------------------

  /** What a lookup returns: the up card's stand and hit table and the
      values stored for the hand. */
  datatype SolutionForInitialSituation = SolutionForInitialSituation(
    exStandHit: map<int, ExpectationStandHit>, exDouble: ExtReal, exSplitResult: ExtReal,
    exExtraInsurance: real, exSummary: ExtReal)

  /** `get_solution_for_initial_situation` read off an enumeration. */
  function Lookup(e: Enumeration, hand: (int, int), dealerUpCard: int): SolutionForInitialSituation
    requires Shaped(e) && CardsInRange(hand, dealerUpCard)
  {
    var (x, j) := LookupCell(hand, dealerUpCard);
    var other := e.cells[x][j];
    SolutionForInitialSituation(e.tables[x], other.exDouble, other.exSplitResult, other.exExtraInsurance,
                                other.exSummary)
  }

  /**
   * A lookup does not depend on the order of the two cards, and it reads
   * the table of the up card and the slot the enumeration writes for the
   * hand with the larger card first.
   */
  lemma LookupFindsDeal(e: Enumeration, x: int, y: int, dealerUpCard: int)
    requires Shaped(e) && CardsInRange((x, y), dealerUpCard)
    ensures Lookup(e, (x, y), dealerUpCard) == Lookup(e, (y, x), dealerUpCard)
    ensures var (a, b) := if x >= y then (x, y) else (y, x);
            var r := Lookup(e, (x, y), dealerUpCard);
            r.exStandHit == e.tables[dealerUpCard - 1]
            && r.exSummary == e.cells[dealerUpCard - 1][Idx55(a, b)].exSummary
            && r.exDouble == e.cells[dealerUpCard - 1][Idx55(a, b)].exDouble
  {
    LookupIsSymmetric(x, y, dealerUpCard);
  }

  /** `calculate_solution_with_initial_situation` on shoe s: the
      expectations computed on an empty table; None is a panic. */
  function InitialSolutionOf(threads: nat, rule: Rule, odds: (seq<int>, seq<int>) -> WinLose, s: seq<int>,
                             hand: (int, int), dealerUpCard: int): Option<SolutionForInitialSituation>
    requires IsCounts(s) && CardsInRange(hand, dealerUpCard)
  {
    match ExpectationsOf(threads, rule, odds, s, hand, dealerUpCard, map[])
    case None => None
    case Some((t, ex)) =>
      Some(SolutionForInitialSituation(t, ex.exDouble, ex.exSplitResult, ex.exExtraInsurance, ex.exSummary))
  }

  /**
   * What a solution for one initial situation holds: split is never
   * evaluated, a natural cannot double, and against a dealer who never
   * peeks the insurance bet is worth -1 and the summary is the best of
   * stand, hit, surrender and double.
   */
  lemma InitialSolutionFacts(threads: nat, rule: Rule, odds: (seq<int>, seq<int>) -> WinLose, s: seq<int>,
                             hand: (int, int), dealerUpCard: int)
    requires IsCounts(s) && CardsInRange(hand, dealerUpCard)
    ensures var r := InitialSolutionOf(threads, rule, odds, s, hand, dealerUpCard);
            r.Some? ==> var sol := r.value;
                        sol.exSplitResult == NegInf
                        && (IsNatural(InitialHand(hand)) ==> sol.exDouble == NegInf)
                        && (rule.peekPolicy == NoPeek ==>
                              sol.exExtraInsurance == -1.0
                              && MaxStandHitSurrender(sol.exStandHit, InitialHand(hand), rule).Some?
                              && sol.exSummary
                                 == NoEarlyEnd(MaxStandHitSurrender(sol.exStandHit, InitialHand(hand), rule).value.0,
                                               sol.exDouble, NegInf))
  {
    ExpectationsFacts(threads, rule, odds, s, hand, dealerUpCard, map[]);
  }

  /** `get_number_of_threads`: 0 asks the system for its parallelism
      (`available`, None when the query fails, which counts as 1). */
  function NumberOfThreads(requested: nat, available: Option<nat>): (n: nat)
    ensures requested > 0 ==> n == requested
    ensures requested == 0 && available.None? ==> n == 1
    ensures requested == 0 && available.Some? ==> n == available.value
  {
    if requested == 0 then (match available case Some(x) => x case None => 1) else requested
  }

  /**
   * `SolutionForBettingPhase`: one stand and hit table per up card, the
   * 10 × 55 results of the two-card hands and the weighted total.
   */
  class SolutionForBettingPhase {
    var exsStandHit: seq<map<int, ExpectationStandHit>>
    const exsOtherDecisions: array2<ExsOtherDecisions>
    var exTotalSummary: ExtReal

    ghost predicate Valid()
      reads this
    {
      |exsStandHit| == 10 && exsOtherDecisions.Length0 == 10 && exsOtherDecisions.Length1 == 55
    }

    /** The 10 × 55 results are cells and the total is total. */
    ghost predicate CellsAre(cells: seq<seq<ExsOtherDecisions>>, total: ExtReal)
      reads this, exsOtherDecisions
      requires Valid()
    {
      |cells| == 10 && (forall i :: 0 <= i < 10 ==> |cells[i]| == 55)
      && (forall i, j :: 0 <= i < 10 && 0 <= j < 55 ==> exsOtherDecisions[i, j] == cells[i][j])
      && exTotalSummary == total
    }

    /** The tables, cells and total are those of e. */
    ghost predicate Represents(e: Enumeration)
      reads this, exsOtherDecisions
      requires Valid()
    {
      Shaped(e) && exsStandHit == e.tables && CellsAre(e.cells, e.total)
    }

    /** `SolutionForBettingPhase::default()`. */
    constructor ()
      ensures Valid() && Represents(Initial()) && fresh(exsOtherDecisions)
    {
      exsStandHit := seq(10, i => map[]);
      exsOtherDecisions := new ExsOtherDecisions[10, 55]((i, j) => DEFAULT_OTHERS);
      exTotalSummary := Fin(0.0);
    }

    /** The store of the innermost loop: the result ex in the slot of hand
        (f, s) under up card d, and its summary added with weight p. */
    method Store(d: int, f: int, s: int, p: real, ex: ExsOtherDecisions, ghost cells: seq<seq<ExsOtherDecisions>>,
                 ghost total: ExtReal)
      requires Valid() && CellsAre(cells, total) && 1 <= d <= 10 && 1 <= s <= f <= 10
      modifies this, exsOtherDecisions
      ensures Valid() && exsStandHit == old(exsStandHit)
      ensures CellsAre(cells[d - 1 := cells[d - 1][Idx55(f, s) := ex]], Add(total, Scale(p, ex.exSummary)))
    {
      exsOtherDecisions[d - 1, PREFIX_SUM[f - 1] + s - 1] := ex;
      exTotalSummary := Add(exTotalSummary, Scale(p, ex.exSummary));
    }

    /** Up card d's table, filled in place during its enumeration, is put
        into the solution. */
    method PutTable(d: int, t: map<int, ExpectationStandHit>)
      requires Valid() && 1 <= d <= 10
      modifies this
      ensures Valid() && exsStandHit == old(exsStandHit)[d - 1 := t]
      ensures exTotalSummary == old(exTotalSummary)
    {
      exsStandHit := exsStandHit[d - 1 := t];
    }

    /** `get_total_expectation`. */
    function GetTotalExpectation(): ExtReal
      reads this
    {
      exTotalSummary
    }

    /** `get_solution_for_initial_situation` (and the consuming
        `into_solution_for_initial_situation`, which returns the same
        values): the lookup of the hand under the up card. */
    method GetSolutionForInitialSituation(hand: (int, int), dealerUpCard: int, ghost e: Enumeration)
      returns (sol: SolutionForInitialSituation)
      requires Valid() && Represents(e) && CardsInRange(hand, dealerUpCard)
      ensures sol == Lookup(e, hand, dealerUpCard)
    {
      var (a, b) := hand;
      if a < b {
        a, b := b, a;
      }
      var d := dealerUpCard - 1;
      var other := exsOtherDecisions[d, PREFIX_SUM[a - 1] + b - 1];
      sol := SolutionForInitialSituation(exsStandHit[d], other.exDouble, other.exSplitResult,
                                         other.exExtraInsurance, other.exSummary);
    }
  }

  /** During the enumeration of up card d the solution holds e, except that
      d's table is the object table. */
  ghost predicate InPlace(solution: SolutionForBettingPhase, table: SingleStateArray<ExpectationStandHit>, d: int,
                          e: Enumeration)
    reads solution, solution.exsOtherDecisions, table
    requires solution.Valid() && 1 <= d <= 10
  {
    Shaped(e) && (forall i :: 0 <= i < 10 && i != d - 1 ==> solution.exsStandHit[i] == e.tables[i])
    && table.data == e.tables[d - 1] && solution.CellsAre(e.cells, e.total)
  }

  /**
   * `calculate_solution_without_initial_situation` on shoe `shoe` with the
   * thread count already resolved: completed is false on a panic, and
   * otherwise the solution holds what BettingPhaseOf gives.
   */
  method CalculateSolutionWithoutInitialSituation(threads: nat, rule: Rule, odds: (seq<int>, seq<int>) -> WinLose,
                                                  shoe: CardCount)
    returns (solution: SolutionForBettingPhase, completed: bool)
    requires shoe.Valid() && rule.numberOfDecks >= 1
    ensures solution.Valid()
    ensures var e := BettingPhaseOf(threads, rule, odds, shoe.Counts());
            (completed <==> e.Some?) && (completed ==> solution.Represents(e.value))
  {
    ghost var c := shoe.Counts();
    solution := new SolutionForBettingPhase();
    var situationShoe := shoe.Clone();
    var situation := new InitialSituation(situationShoe, (1, 1), 1);
    PositiveProduct(52 * rule.numberOfDecks, 52 * rule.numberOfDecks - 1, 52 * rule.numberOfDecks - 2);
    var tc := TotalCombs(rule);
    completed := UpCards(threads, rule, odds, situation, solution, tc);
    assert shoe.Counts() == c;
  }

  /** The up-card loop of `calculate_solution_without_initial_situation`
      on a fresh solution. */
  method UpCards(threads: nat, rule: Rule, odds: (seq<int>, seq<int>) -> WinLose, situation: InitialSituation,
                 solution: SolutionForBettingPhase, tc: int)
    returns (completed: bool)
    requires situation.shoe.Valid() && solution.Valid() && solution.Represents(Initial()) && tc > 0
    modifies situation, situation.shoe, situation.shoe.counts, solution, solution.exsOtherDecisions
    ensures solution.Valid()
    ensures var e := UpLoop(threads, rule, odds, old(situation.shoe.Counts()), 1, tc, Initial());
            (completed <==> e.Some?) && (completed ==> solution.Represents(e.value))
  {
    ghost var c := situation.shoe.Counts();
    ghost var st := Initial();
    var d := 1;
    while d <= 10
      invariant 1 <= d <= 11
      invariant situation.shoe.Valid() && situation.shoe.Counts() == c
      invariant solution.Valid() && Shaped(st) && solution.Represents(st)
      invariant UpLoop(threads, rule, odds, c, d, tc, st) == UpLoop(threads, rule, odds, c, 1, tc, Initial())
    {
      var ok;
      ok, st := UpCard(threads, rule, odds, situation, solution, d, tc, st);
      if !ok {
        return false;
      }
      d := d + 1;
    }
    completed := true;
  }

  /** One round of the up-card loop: if the shoe holds card d, it is
      dealt, its first-card loop run on its own table, the table stored and
      the card put back. */
  method UpCard(threads: nat, rule: Rule, odds: (seq<int>, seq<int>) -> WinLose, situation: InitialSituation,
                solution: SolutionForBettingPhase, d: int, tc: int, ghost st: Enumeration)
    returns (ok: bool, ghost st': Enumeration)
    requires situation.shoe.Valid() && solution.Valid() && Shaped(st) && solution.Represents(st)
    requires 1 <= d <= 10 && tc > 0
    modifies situation, situation.shoe, situation.shoe.counts, solution, solution.exsOtherDecisions
    ensures situation.shoe.Valid() && (ok ==> situation.shoe.Counts() == old(situation.shoe.Counts()))
    ensures solution.Valid() && (ok ==> Shaped(st') && solution.Represents(st'))
    ensures var c := old(situation.shoe.Counts());
            UpLoop(threads, rule, odds, c, d, tc, st)
            == if ok then UpLoop(threads, rule, odds, c, d + 1, tc, st') else None
  {
    ghost var c := situation.shoe.Counts();
    if situation.shoe.Count(d) == 0 {
      return true, st;
    }
    situation.dealerUpCard := d;
    var k := situation.shoe.Count(d);
    situation.shoe.RemoveCard(d);
    var table := new SingleStateArray<ExpectationStandHit>(DEFAULT_STAND_HIT);
    table.data := solution.exsStandHit[d - 1];
    ok, st' := FirstCards(threads, rule, odds, situation, solution, table, d, k, tc, st);
    if ok {
      solution.PutTable(d, table.data);
      assert solution.exsStandHit == st'.tables;
      situation.shoe.AddCard(d);
      IncDec(c, d);
    }
  }

  /** The first-card loop for up card d (out of the situation's shoe):
      the hands f..10, each with its second-card loop. */
  method FirstCards(threads: nat, rule: Rule, odds: (seq<int>, seq<int>) -> WinLose, situation: InitialSituation,
                    solution: SolutionForBettingPhase, table: SingleStateArray<ExpectationStandHit>,
                    d: int, k: int, tc: int, ghost st: Enumeration)
    returns (ok: bool, ghost st': Enumeration)
    requires situation.shoe.Valid() && solution.Valid() && 1 <= d <= 10 && InPlace(solution, table, d, st)
    requires situation.dealerUpCard == d && tc > 0 && table.default == DEFAULT_STAND_HIT
    modifies situation, situation.shoe, situation.shoe.counts, solution, solution.exsOtherDecisions, table
    ensures situation.shoe.Valid() && (ok ==> situation.shoe.Counts() == old(situation.shoe.Counts()))
    ensures situation.dealerUpCard == d && solution.Valid() && solution.exsStandHit == old(solution.exsStandHit)
    ensures var e := FirstLoop(threads, rule, odds, old(situation.shoe.Counts()), d, 1, k, tc, st);
            (ok <==> e.Some?) && (ok ==> st' == e.value && InPlace(solution, table, d, st'))
  {
    ghost var v := situation.shoe.Counts();
    st' := st;
    var f := 1;
    while f <= 10
      invariant 1 <= f <= 11
      invariant situation.shoe.Valid() && situation.shoe.Counts() == v && situation.dealerUpCard == d
      invariant solution.Valid() && solution.exsStandHit == old(solution.exsStandHit) && InPlace(solution, table, d, st')
      invariant FirstLoop(threads, rule, odds, v, d, f, k, tc, st') == FirstLoop(threads, rule, odds, v, d, 1, k, tc, st)
    {
      ok, st' := FirstCard(threads, rule, odds, situation, solution, table, d, f, k, tc, st');
      if !ok {
        return false, st';
      }
      f := f + 1;
    }
    ok := true;
  }

  /** One round of the first-card loop: if the shoe holds card f, it is
      dealt, its second-card loop run and the card put back. */
  method FirstCard(threads: nat, rule: Rule, odds: (seq<int>, seq<int>) -> WinLose, situation: InitialSituation,
                   solution: SolutionForBettingPhase, table: SingleStateArray<ExpectationStandHit>,
                   d: int, f: int, k: int, tc: int, ghost st: Enumeration)
    returns (ok: bool, ghost st': Enumeration)
    requires situation.shoe.Valid() && solution.Valid() && 1 <= d <= 10 && 1 <= f <= 10 && InPlace(solution, table, d, st)
    requires situation.dealerUpCard == d && tc > 0 && table.default == DEFAULT_STAND_HIT
    modifies situation, situation.shoe, situation.shoe.counts, solution, solution.exsOtherDecisions, table
    ensures situation.shoe.Valid() && (ok ==> situation.shoe.Counts() == old(situation.shoe.Counts()))
    ensures situation.dealerUpCard == d && solution.Valid() && solution.exsStandHit == old(solution.exsStandHit)
    ensures ok ==> InPlace(solution, table, d, st')
    ensures var v := old(situation.shoe.Counts());
            FirstLoop(threads, rule, odds, v, d, f, k, tc, st)
            == if ok then FirstLoop(threads, rule, odds, v, d, f + 1, k, tc, st') else None
  {
    ghost var v := situation.shoe.Counts();
    if situation.shoe.Count(f) == 0 {
      return true, st;
    }
    var handCards := situation.handCards;
    situation.handCards := (f, handCards.1);
    var k' := k * situation.shoe.Count(f);
    situation.shoe.RemoveCard(f);
    ok, st' := SecondCards(threads, rule, odds, situation, solution, table, d, f, k', tc, st);
    if ok {
      situation.shoe.AddCard(f);
      IncDec(v, f);
    }
  }

  /** The second-card loop for up card d and first card f: every second
      card s <= f left in the shoe is dealt, evaluated and stored. */
  method SecondCards(threads: nat, rule: Rule, odds: (seq<int>, seq<int>) -> WinLose, situation: InitialSituation,
                     solution: SolutionForBettingPhase, table: SingleStateArray<ExpectationStandHit>,
                     d: int, f: int, k: int, tc: int, ghost st: Enumeration)
    returns (ok: bool, ghost st': Enumeration)
    requires situation.shoe.Valid() && solution.Valid() && 1 <= d <= 10 && 1 <= f <= 10 && InPlace(solution, table, d, st)
    requires situation.dealerUpCard == d && situation.handCards.0 == f && tc > 0 && table.default == DEFAULT_STAND_HIT
    modifies situation, situation.shoe, situation.shoe.counts, solution, solution.exsOtherDecisions, table
    ensures situation.shoe.Valid() && (ok ==> situation.shoe.Counts() == old(situation.shoe.Counts()))
    ensures situation.dealerUpCard == d && situation.handCards.0 == f
    ensures solution.Valid() && solution.exsStandHit == old(solution.exsStandHit)
    ensures var e := SecondLoop(threads, rule, odds, old(situation.shoe.Counts()), d, f, 1, k, tc, st);
            (ok <==> e.Some?) && (ok ==> st' == e.value && InPlace(solution, table, d, st'))
  {
    ghost var u := situation.shoe.Counts();
    st' := st;
    var s := 1;
    while s <= f
      invariant 1 <= s <= f + 1
      invariant situation.shoe.Valid() && situation.shoe.Counts() == u
      invariant situation.dealerUpCard == d && situation.handCards.0 == f
      invariant solution.Valid() && solution.exsStandHit == old(solution.exsStandHit) && InPlace(solution, table, d, st')
      invariant SecondLoop(threads, rule, odds, u, d, f, s, k, tc, st') == SecondLoop(threads, rule, odds, u, d, f, 1, k, tc, st)
    {
      ok, st' := SecondCard(threads, rule, odds, situation, solution, table, d, f, s, k, tc, st');
      if !ok {
        return false, st';
      }
      s := s + 1;
    }
    ok := true;
  }

  /** One round of the second-card loop: if the shoe holds card s, it is
      dealt, the deal evaluated and stored, and the card put back. */
  method SecondCard(threads: nat, rule: Rule, odds: (seq<int>, seq<int>) -> WinLose, situation: InitialSituation,
                    solution: SolutionForBettingPhase, table: SingleStateArray<ExpectationStandHit>,
                    d: int, f: int, s: int, k: int, tc: int, ghost st: Enumeration)
    returns (ok: bool, ghost st': Enumeration)
    requires situation.shoe.Valid() && solution.Valid() && 1 <= d <= 10 && 1 <= s <= f <= 10 && InPlace(solution, table, d, st)
    requires situation.dealerUpCard == d && situation.handCards.0 == f && tc > 0 && table.default == DEFAULT_STAND_HIT
    modifies situation, situation.shoe, situation.shoe.counts, solution, solution.exsOtherDecisions, table
    ensures situation.shoe.Valid() && (ok ==> situation.shoe.Counts() == old(situation.shoe.Counts()))
    ensures situation.dealerUpCard == d && situation.handCards.0 == f
    ensures solution.Valid() && solution.exsStandHit == old(solution.exsStandHit)
    ensures ok ==> InPlace(solution, table, d, st')
    ensures var u := old(situation.shoe.Counts());
            SecondLoop(threads, rule, odds, u, d, f, s, k, tc, st)
            == if ok then SecondLoop(threads, rule, odds, u, d, f, s + 1, k, tc, st') else None
  {
    ghost var u := situation.shoe.Counts();
    if situation.shoe.Count(s) == 0 {
      return true, st;
    }
    situation.handCards := (f, s);
    var combs := k * situation.shoe.Count(s);
    if s != f {
      combs := combs * 2;
    }
    situation.shoe.RemoveCard(s);
    var p := combs as real / tc as real;
    ok, st' := DealInPlace(threads, rule, odds, situation, solution, table, d, f, s, p, st);
    SecondLoopStep(threads, rule, odds, u, d, f, s, k, tc, st);
    if ok {
      situation.shoe.AddCard(s);
      IncDec(u, s);
    }
  }

  /** One round of the second-card loop with the card in the shoe. */
  lemma SecondLoopStep(threads: nat, rule: Rule, odds: (seq<int>, seq<int>) -> WinLose, u: seq<int>,
                       d: int, f: int, s: int, k: int, tc: int, st: Enumeration)
    requires IsCounts(u) && 1 <= d <= 10 && 1 <= s <= f <= 10 && tc > 0 && Shaped(st) && u[s - 1] != 0
    ensures var e := Deal(threads, rule, odds, Dec(u, s), d, f, s,
                          (k * u[s - 1] * (if s != f then 2 else 1)) as real / tc as real, st);
            SecondLoop(threads, rule, odds, u, d, f, s, k, tc, st)
            == if e.None? then None else SecondLoop(threads, rule, odds, u, d, f, s + 1, k, tc, e.value)
  {
  }

  /** The body of the innermost loop on the solution: the result of
      `calculate_expectations` stored in the hand's slot and added, with
      weight p, to the total. */
  method DealInPlace(threads: nat, rule: Rule, odds: (seq<int>, seq<int>) -> WinLose, situation: InitialSituation,
                     solution: SolutionForBettingPhase, table: SingleStateArray<ExpectationStandHit>,
                     d: int, f: int, s: int, p: real, ghost st: Enumeration)
    returns (ok: bool, ghost st': Enumeration)
    requires situation.shoe.Valid() && solution.Valid() && 1 <= d <= 10 && InPlace(solution, table, d, st)
    requires situation.dealerUpCard == d && situation.handCards == (f, s) && 1 <= s <= f <= 10
    requires table.default == DEFAULT_STAND_HIT
    modifies solution, solution.exsOtherDecisions, table
    ensures solution.Valid() && solution.exsStandHit == old(solution.exsStandHit)
    ensures var e := Deal(threads, rule, odds, situation.shoe.Counts(), d, f, s, p, st);
            (ok <==> e.Some?) && (ok ==> st' == e.value && InPlace(solution, table, d, st'))
  {
    var ex := Evaluate(threads, rule, odds, situation, table);
    DealIs(threads, rule, odds, situation.shoe.Counts(), d, f, s, p, st);
    if ex.None? {
      return false, st;
    }
    ok := true;
    solution.Store(d, f, s, p, ex.value, st.cells, st.total);
    st' := Enumeration(st.tables[d - 1 := table.data], st.cells[d - 1 := st.cells[d - 1][Idx55(f, s) := ex.value]],
                       Add(st.total, Scale(p, ex.value.exSummary)));
  }

  /** `calculate_expectations` on the up card's table, its result stated
      without the intermediate binding. */
  method Evaluate(threads: nat, rule: Rule, odds: (seq<int>, seq<int>) -> WinLose, situation: InitialSituation,
                  table: SingleStateArray<ExpectationStandHit>)
    returns (r: Option<ExsOtherDecisions>)
    requires situation.shoe.Valid() && CardsInRange(situation.handCards, situation.dealerUpCard)
    requires table.default == DEFAULT_STAND_HIT
    modifies table
    ensures r.Some? <==> ExpectationsOf(threads, rule, odds, situation.shoe.Counts(), situation.handCards,
                                        situation.dealerUpCard, old(table.data)).Some?
    ensures r.Some? ==> r.value == ExpectationsOf(threads, rule, odds, situation.shoe.Counts(), situation.handCards,
                                                  situation.dealerUpCard, old(table.data)).value.1
    ensures r.Some? ==> table.data == ExpectationsOf(threads, rule, odds, situation.shoe.Counts(), situation.handCards,
                                                     situation.dealerUpCard, old(table.data)).value.0
  {
    r := CalculateExpectations(threads, rule, odds, situation, table);
  }

  /** Deal in terms of the result of `calculate_expectations`. */
  lemma DealIs(threads: nat, rule: Rule, odds: (seq<int>, seq<int>) -> WinLose, s3: seq<int>,
               d: int, f: int, s: int, p: real, st: Enumeration)
    requires IsCounts(s3) && 1 <= d <= 10 && 1 <= s <= f <= 10 && Shaped(st)
    ensures var e := ExpectationsOf(threads, rule, odds, s3, (f, s), d, st.tables[d - 1]);
            Deal(threads, rule, odds, s3, d, f, s, p, st)
            == if e.None? then None
               else Some(Enumeration(st.tables[d - 1 := e.value.0],
                                     st.cells[d - 1 := st.cells[d - 1][Idx55(f, s) := e.value.1]],
                                     Add(st.total, Scale(p, e.value.1.exSummary))))
  {
  }

  /** `calculate_solution_with_initial_situation`, the thread count already
      resolved: the expectations of one initial situation, computed on a
      fresh table; None is a panic. */
  method CalculateSolutionWithInitialSituation(threads: nat, rule: Rule, odds: (seq<int>, seq<int>) -> WinLose,
                                               situation: InitialSituation)
    returns (r: Option<SolutionForInitialSituation>)
    requires situation.shoe.Valid() && CardsInRange(situation.handCards, situation.dealerUpCard)
    ensures r == InitialSolutionOf(threads, rule, odds, situation.shoe.Counts(), situation.handCards,
                                   situation.dealerUpCard)
  {
    var table := new SingleStateArray<ExpectationStandHit>(DEFAULT_STAND_HIT);
    var ex := Evaluate(threads, rule, odds, situation, table);
    if ex.None? {
      return None;
    }
    var other := ex.value;
    r := Some(SolutionForInitialSituation(table.data, other.exDouble, other.exSplitResult, other.exExtraInsurance,
                                          other.exSummary));
  }
}
