/**
 * The per-hand expectations of the single-hand engine and the choice of
 * the best of surrender, stand and hit (blackjack/src/calculation.rs).
 */
module Expectations {
  import opened ExtReals
  import opened HandValue
  import opened Rules
  import opened Wrappers
  import opened StateArray

  /** The expectations of hitting and of standing on one hand. */
  datatype ExpectationStandHit = ExpectationStandHit(hit: ExtReal, stand: ExtReal)

  /** `ExpectationStandHit::default()`: neither decision evaluated yet. */
  const DEFAULT_STAND_HIT: ExpectationStandHit := ExpectationStandHit(NegInf, NegInf)

  /** A table entry, or the default where the table has none: what an
      `index_mut` access reads. */
  function Get(m: map<int, ExpectationStandHit>, k: int): ExpectationStandHit
  {
    if k in m then m[k] else DEFAULT_STAND_HIT
  }

  /** The value to beat before the table is consulted: surrendering, when
      the table allows it, and nothing otherwise. */
  function SurrenderFloor(rule: Rule): (ExtReal, Decision)
  {
    if rule.allowLateSurrender then (Fin(-0.5), Decision.Surrender) else (NegInf, Decision.PlaceHolder)
  }

  /** The index of the first maximum of vs: every value is at most it, and
      every earlier value is strictly below it. */
  predicate FirstMaxAt(vs: seq<ExtReal>, i: int)
  {
    0 <= i < |vs|
    && (forall j :: 0 <= j < |vs| ==> AtMost(vs[j], vs[i]))
    && (forall j :: 0 <= j < i ==> Less(vs[j], vs[i]))
  }

  /** One step of a scan for the best decision: the candidate replaces the
      current best only when it is strictly larger. */
  function Pick(best: (ExtReal, Decision), c: (ExtReal, Decision)): (ExtReal, Decision)
  {
    if Less(best.0, c.0) then c else best
  }

  /** The scan over the candidates in their order, from the first one. */
  function Scan(cs: seq<(ExtReal, Decision)>): (ExtReal, Decision)
    requires |cs| > 0
  {
    if |cs| == 1 then cs[0] else Pick(Scan(cs[..|cs| - 1]), cs[|cs| - 1])
  }

  function Values(cs: seq<(ExtReal, Decision)>): (vs: seq<ExtReal>)
    ensures |vs| == |cs| && forall j :: 0 <= j < |cs| ==> vs[j] == cs[j].0
  {
    seq(|cs|, j requires 0 <= j < |cs| => cs[j].0)
  }

  /** The scan picks the first maximum of the candidates' values: ties go
      to the earlier candidate. */
  lemma {:induction false} ScanIsFirstMax(cs: seq<(ExtReal, Decision)>) returns (i: int)
    requires |cs| > 0
    ensures FirstMaxAt(Values(cs), i) && Scan(cs) == cs[i]
  {
    var vs := Values(cs);
    if |cs| == 1 {
      i := 0;
      LessIsStrictOrder(vs[0], vs[0], vs[0]);
    } else {
      var n := |cs| - 1;
      var pre := cs[..n];
      var k := ScanIsFirstMax(pre);
      var pvs := Values(pre);
      assert forall j :: 0 <= j < n ==> pvs[j] == vs[j];
      var best := vs[k];
      var c := vs[n];
      if Less(best, c) {
        i := n;
        forall j | 0 <= j < n
          ensures Less(vs[j], c)
        {
          assert AtMost(pvs[j], best);
          LessIsStrictOrder(vs[j], best, c);
        }
        LessIsStrictOrder(c, c, c);
      } else {
        i := k;
        LessIsStrictOrder(best, c, best);
      }
    }
  }

  /**
   * `get_max_expectation_of_stand_hit_surrender`. A bust hand is worth -1
   * and a hand that has reached the Charlie number 1, both by standing,
   * without a look at the table. Otherwise the best of the surrender floor,
   * the entry's stand and its hit, each replacing the current best only
   * when strictly larger. None is the panic of reading a missing entry.
   */
  function MaxStandHitSurrender(m: map<int, ExpectationStandHit>, h: seq<int>, rule: Rule)
    : (r: Option<(ExtReal, Decision)>)
    requires |h| == RANKS
    ensures r.None? <==> !Bust(h) && Total(h) < rule.charlieNumber && Key(h) !in m
  {
    if Bust(h) then Some((Fin(-1.0), Stand))
    else if Total(h) >= rule.charlieNumber then Some((Fin(1.0), Stand))
    else if Key(h) !in m then None
    else
      var ex := m[Key(h)];
      var (max0, decision0) := SurrenderFloor(rule);
      var (max1, decision1) := if Less(max0, ex.stand) then (ex.stand, Stand) else (max0, decision0);
      if Less(max1, ex.hit) then Some((ex.hit, Hit)) else Some((max1, decision1))
  }

  /** The two terminal cases do not depend on the table. */
  lemma TerminalIgnoresTable(m: map<int, ExpectationStandHit>, h: seq<int>, rule: Rule)
    requires |h| == RANKS
    ensures Bust(h) ==> MaxStandHitSurrender(m, h, rule) == Some((Fin(-1.0), Stand))
    ensures !Bust(h) && Total(h) >= rule.charlieNumber ==> MaxStandHitSurrender(m, h, rule) == Some((Fin(1.0), Stand))
  {
  }

  /**
   * Otherwise the result is the first maximum of (surrender floor, stand,
   * hit) with its decision: ties go to the earlier one. With no surrender
   * and neither decision evaluated the result is minus infinity with the
   * placeholder decision.
   */
  lemma MaxStandHitSurrenderIsFirstMax(m: map<int, ExpectationStandHit>, h: seq<int>, rule: Rule)
    requires |h| == RANKS && !Bust(h) && Total(h) < rule.charlieNumber && Key(h) in m
    ensures var ex := m[Key(h)];
            var vs := [SurrenderFloor(rule).0, ex.stand, ex.hit];
            var ds := [SurrenderFloor(rule).1, Stand, Hit];
            exists i :: FirstMaxAt(vs, i) && MaxStandHitSurrender(m, h, rule) == Some((vs[i], ds[i]))
    ensures !rule.allowLateSurrender && m[Key(h)] == DEFAULT_STAND_HIT
            ==> MaxStandHitSurrender(m, h, rule) == Some((NegInf, Decision.PlaceHolder))
  {
    var ex := m[Key(h)];
    var vs := [SurrenderFloor(rule).0, ex.stand, ex.hit];
    var ds := [SurrenderFloor(rule).1, Stand, Hit];
    LessIsStrictOrder(vs[0], vs[1], vs[2]);
    LessIsStrictOrder(vs[1], vs[2], vs[0]);
    LessIsStrictOrder(vs[2], vs[0], vs[1]);
    var i := if Less(vs[0], vs[1]) then (if Less(vs[1], vs[2]) then 2 else 1)
             else (if Less(vs[0], vs[2]) then 2 else 0);
    assert FirstMaxAt(vs, i);
    assert MaxStandHitSurrender(m, h, rule) == Some((vs[i], ds[i]));
  }

  /** A value worth having: at least one of the two decisions of an entry
      has a finite expectation. */
  predicate Evaluated(ex: ExpectationStandHit)
  {
    ex.hit.Fin? || ex.stand.Fin?
  }

  /** Over entries that are evaluated, the best value is finite. */
  lemma EvaluatedMaxIsFinite(m: map<int, ExpectationStandHit>, h: seq<int>, rule: Rule)
    requires |h| == RANKS && (Key(h) in m ==> Evaluated(m[Key(h)]))
    ensures var r := MaxStandHitSurrender(m, h, rule); r.Some? ==> r.value.0.Fin?
  {
  }
}
