/**
 * The bankroll bookkeeping of the table-simulator driver and its mapping
 * from the strategy's decisions to the simulator's play operations
 * (blackjack_drivers/src/blackjack_simulator/simulation.rs).
 */
module SimulatorDriver {
  import opened Rules
  import opened Wrappers

  const I32_MIN: int := -0x8000_0000
  const I32_LIMIT: int := 0x8000_0000
  const U32_LIMIT: int := 0x1_0000_0000

  predicate IsI32(x: int) { I32_MIN <= x < I32_LIMIT }
  predicate IsU32(x: int) { 0 <= x < U32_LIMIT }

  /** `money as i32` for a 32-bit unsigned amount: values from 2^31 on wrap
      to negative numbers. */
  function AsI32(money: int): (r: int)
    requires IsU32(money)
    ensures IsI32(r) && (r - money) % U32_LIMIT == 0
    ensures money < I32_LIMIT ==> r == money
  {
    if money < I32_LIMIT then money else money - U32_LIMIT
  }

  /**
   * Money won and bet so far, the values at the last report, and the lowest
   * balance reached after a bet. Arithmetic overflow panics in `bet_money`, `receive_money` and
   * `get_delta_money`,
   * so each method requires that its results stay in range.
   */
  class Statistics {
    var currentMoney: int
    var totalBet: int
    var lastMoney: int
    var lastBet: int
    var minMoney: int

    /** The widths of the fields; the bet reported last is never above the
        total bet, since the total only grows. */
    ghost predicate Valid()
      reads this
    {
      IsI32(currentMoney) && IsU32(totalBet) && IsI32(lastMoney) && IsU32(lastBet) && IsI32(minMoney)
      && lastBet <= totalBet
    }

    /** `Default::default()`: every field 0. */
    constructor ()
      ensures Valid()
      ensures currentMoney == 0 && totalBet == 0 && lastMoney == 0 && lastBet == 0 && minMoney == 0
    {
      currentMoney, totalBet, lastMoney, lastBet, minMoney := 0, 0, 0, 0, 0;
    }

    /** Places a bet: it is added to the total bet and taken from the
        balance, and the lowest balance follows the new balance down. */
    method BetMoney(money: int)
      requires Valid() && IsU32(money)
      requires IsU32(totalBet + money) && IsI32(currentMoney - AsI32(money))
      modifies this
      ensures Valid()
      ensures totalBet == old(totalBet) + money
      ensures currentMoney == old(currentMoney) - AsI32(money)
      ensures minMoney == if old(minMoney) > currentMoney then currentMoney else old(minMoney)
      ensures lastMoney == old(lastMoney) && lastBet == old(lastBet)
    {
      totalBet := totalBet + money;
      currentMoney := currentMoney - AsI32(money);
      if minMoney > currentMoney {
        minMoney := currentMoney;
      }
    }

    /** Adds winnings to the balance and changes nothing else. */
    method ReceiveMoney(money: int)
      requires Valid() && IsU32(money) && IsI32(currentMoney + AsI32(money))
      modifies this
      ensures Valid()
      ensures currentMoney == old(currentMoney) + AsI32(money)
      ensures totalBet == old(totalBet) && lastMoney == old(lastMoney) && lastBet == old(lastBet)
      ensures minMoney == old(minMoney)
    {
      currentMoney := currentMoney + AsI32(money);
    }

    function GetCurrentMoney(): (m: int)
      reads this
      requires Valid()
      ensures IsI32(m) && m == currentMoney
    {
      currentMoney
    }

    function GetTotalBet(): (b: int)
      reads this
      requires Valid()
      ensures IsU32(b) && b == totalBet
    {
      totalBet
    }

    function GetMinMoney(): (m: int)
      reads this
      requires Valid()
      ensures IsI32(m) && m == minMoney
    {
      minMoney
    }

    /** `get_rate`: the balance per unit bet, so the rate times the total
        bet gives the balance back and the rate has the balance's sign. With
        nothing bet the f64 division gives NaN or an infinity, which the
        model reports as `None`. */
    function GetRate(): (r: Option<real>)
      reads this
      requires Valid()
      ensures r.Some? <==> totalBet != 0
      ensures r.Some? ==> r.value * totalBet as real == currentMoney as real
      ensures r.Some? ==> (r.value < 0.0 <==> currentMoney < 0) && (r.value == 0.0 <==> currentMoney == 0)
    {
      if totalBet == 0 then None else Some(currentMoney as real / totalBet as real)
    }

    /** The change of the balance since the last report; the report point
        moves to the current balance. */
    method GetDeltaMoney() returns (delta: int)
      requires Valid() && IsI32(currentMoney - lastMoney)
      modifies this
      ensures Valid()
      ensures delta == old(currentMoney) - old(lastMoney) && IsI32(delta)
      ensures lastMoney == currentMoney
      ensures currentMoney == old(currentMoney) && totalBet == old(totalBet)
      ensures lastBet == old(lastBet) && minMoney == old(minMoney)
    {
      delta := currentMoney - lastMoney;
      lastMoney := currentMoney;
    }

    /** The amount bet since the last report; never negative, because the
        total bet only grows. */
    method GetDeltaBet() returns (delta: int)
      requires Valid()
      modifies this
      ensures Valid()
      ensures delta == old(totalBet) - old(lastBet) && IsU32(delta)
      ensures lastBet == totalBet
      ensures currentMoney == old(currentMoney) && totalBet == old(totalBet)
      ensures lastMoney == old(lastMoney) && minMoney == old(minMoney)
    {
      delta := totalBet - lastBet;
      lastBet := totalBet;
    }
  }

  /**
   * The lowest balance never rises, and it stays at or below the balance
   * through a bet, and through winnings below 2^31 (a larger amount wraps
   * to a negative change of the balance, see AsI32).
   */
  method BetKeepsMinimum(s: Statistics, money: int)
    requires s.Valid() && IsU32(money) && s.minMoney <= s.currentMoney
    requires IsU32(s.totalBet + money) && IsI32(s.currentMoney - AsI32(money))
    modifies s
    ensures s.minMoney <= s.currentMoney && s.minMoney <= old(s.minMoney)
  {
    s.BetMoney(money);
  }

  method ReceiveKeepsMinimum(s: Statistics, money: int)
    requires s.Valid() && IsU32(money) && money < I32_LIMIT && s.minMoney <= s.currentMoney
    requires IsI32(s.currentMoney + AsI32(money))
    modifies s
    ensures s.minMoney <= s.currentMoney && s.minMoney == old(s.minMoney)
  {
    s.ReceiveMoney(money);
  }

  /** Asking twice in a row for the changes gives zero the second time. */
  method SecondDeltaIsZero(s: Statistics) returns (m: int, b: int)
    requires s.Valid() && IsI32(s.currentMoney - s.lastMoney)
    modifies s
    ensures m == 0 && b == 0
  {
    var _ := s.GetDeltaMoney();
    var _ := s.GetDeltaBet();
    m := s.GetDeltaMoney();
    b := s.GetDeltaBet();
  }

  /** The simulator operations a decision can be turned into. */
  datatype PlayOperation = PlayStand | PlayHit | PlayDouble | PlaySurrender

  /** `decision_to_fn`; None is the panic for any other decision. */
  function DecisionToFn(d: Decision): (r: Option<PlayOperation>)
    ensures r.Some? <==> d in {Stand, Hit, Double, Surrender}
  {
    match d
    case Stand => Some(PlayStand)
    case Hit => Some(PlayHit)
    case Double => Some(PlayDouble)
    case Surrender => Some(PlaySurrender)
    case _ => None
  }

  /** `decision_to_string`; None is the panic for any other decision. */
  function DecisionToString(d: Decision): (r: Option<string>)
    ensures r.Some? <==> d in {Stand, Hit, Double, Surrender}
    ensures r.Some? ==> |r.value| > 0
  {
    match d
    case Stand => Some("Stand")
    case Hit => Some("Hit")
    case Double => Some("~~~~~~DOUBLE~~~~~~")
    case Surrender => Some("Surrender")
    case _ => None
  }

  /** The two mappings accept the same decisions, and distinct decisions
      get distinct operations and distinct labels. */
  lemma DecisionMappingsAgree(d: Decision, e: Decision)
    ensures DecisionToFn(d).Some? <==> DecisionToString(d).Some?
    ensures DecisionToFn(d).Some? && DecisionToFn(d) == DecisionToFn(e) ==> d == e
    ensures DecisionToString(d).Some? && DecisionToString(d) == DecisionToString(e) ==> d == e
  {
  }
}
