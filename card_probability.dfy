/**
 * The probability that the next card drawn from a shoe has a given value,
 * given that the dealer's hole card is known not to be a certain value
 * (blackjack/src/calculation2/util.rs, and its copy at
 * blackjack/src/calculation.rs:190-224).
 *
 * When the dealer has peeked and has no natural, the hole card (already
 * taken from the shoe) is known not to be `r`. The next card is then drawn
 * from the shoe minus the hole card, whose value is distributed over the
 * other values in proportion to their counts.
 */
module CardProbability {
  import opened Fingerprint
  import opened HandValue
  import opened Rules

  /** Division of two counts converted to doubles; the zero divisor, which
      only an empty shoe produces, is taken to give 0. */
  function Quot(x: real, y: real): real
  {
    if y == 0.0 then 0.0 else x / y
  }

  /** A ruled-out hole card value: 0 for none, else a card value. */
  predicate IsHoleExclusion(r: int)
  {
    0 <= r <= 10
  }

  /** `get_card_probability` of blackjack/src/calculation2/util.rs. */
  function GetCardProbability(shoe: seq<int>, r: int, t: int): real
    requires |shoe| == RANKS && IsHoleExclusion(r) && 1 <= t <= 10
  {
    var total := Total(shoe);
    if shoe[t - 1] == 0 then 0.0
    else
      var n := shoe[t - 1] as real;
      if r == 0 then Quot(n, total as real)
      else
        var pHole := if r == t then 0.0 else Quot(n, (total - shoe[r - 1]) as real);
        HoleMix(pHole, (shoe[t - 1] - 1) as real, n, (total - 1) as real)
  }

  /**
   * The probability of a value of count n when the hole card is of that
   * value with probability x: out of the `rest` cards left, c == n - 1 are
   * of that value if it is, n if it is not.
   */
  function HoleMix(x: real, c: real, n: real, rest: real): real
  {
    Quot(x * c, rest) + Quot((1.0 - x) * n, rest)
  }

  /** The 16-bit `wrapping_sub(1)` of a count. */
  function WrapDecrement16(n: int): int
  {
    (n - 1) % 0x1_0000
  }

  /**
   * The copy in blackjack/src/calculation.rs: it has no early return for
   * an absent value and decrements the count with a 16-bit wrap.
   */
  function GetCardProbabilityCopy(shoe: seq<int>, r: int, t: int): real
    requires |shoe| == RANKS && IsHoleExclusion(r) && 1 <= t <= 10
  {
    var total := Total(shoe);
    var n := shoe[t - 1] as real;
    if r == 0 then Quot(n, total as real)
    else
      var pHole := if r == t then 0.0 else Quot(n, (total - shoe[r - 1]) as real);
      HoleMix(pHole, WrapDecrement16(shoe[t - 1]) as real, n, (total - 1) as real)
  }

  /** `get_impossible_dealer_hole_card`: after a peek without a natural,
      an up ace rules out a ten-valued hole card and an up ten rules out an
      ace, as far as the policy peeks at all. */
  function GetImpossibleDealerHoleCard(rule: Rule, dealerUpCard: int): (r: int)
    ensures r == 0 || r == 1 || r == 10
    ensures r == 10 <==> dealerUpCard == 1 && rule.peekPolicy != NoPeek
    ensures r == 1 <==> dealerUpCard == 10 && rule.peekPolicy == UpAceOrTen
  {
    match rule.peekPolicy
    case UpAceOrTen => if dealerUpCard == 1 then 10 else if dealerUpCard == 10 then 1 else 0
    case UpAce => if dealerUpCard == 1 then 10 else 0
    case NoPeek => 0
  }

  // ---------------------------------------------------------------------
  // Facts
  // ---------------------------------------------------------------------

  /** Counts that fit the 16-bit counters of `CardCount`. */
  predicate IsCounts16(shoe: seq<int>)
  {
    IsCounts(shoe) && forall i :: 0 <= i < |shoe| ==> shoe[i] < 0x1_0000
  }

  /** The two copies agree on every shoe of 16-bit counts, an absent value
      included. */
  lemma CopiesAgree(shoe: seq<int>, r: int, t: int)
    requires IsCounts16(shoe) && IsHoleExclusion(r) && 1 <= t <= 10
    ensures GetCardProbabilityCopy(shoe, r, t) == GetCardProbability(shoe, r, t)
  {
    var n := shoe[t - 1];
    if n > 0 {
      assert WrapDecrement16(n) == n - 1;
    } else if r != 0 {
      var pHole := if r == t then 0.0 else Quot(0.0, (Total(shoe) - shoe[r - 1]) as real);
      assert pHole == 0.0;
      HoleMixOfNone(WrapDecrement16(n) as real, (Total(shoe) - 1) as real);
    }
  }

  /** The copy also gives 0 for a value with no card left, so a non-zero
      probability means there is a card of that value to draw. */
  lemma CopyOfAbsent(shoe: seq<int>, r: int, t: int)
    requires IsCounts(shoe) && IsHoleExclusion(r) && 1 <= t <= 10
    ensures GetCardProbabilityCopy(shoe, r, t) != 0.0 ==> shoe[t - 1] > 0
  {
    if shoe[t - 1] == 0 && r != 0 {
      HoleMixOfNone(WrapDecrement16(0) as real, (Total(shoe) - 1) as real);
    }
  }

  /** A value with no card left has probability 0 whatever the others. */
  lemma HoleMixOfNone(c: real, rest: real)
    ensures HoleMix(0.0, c, 0.0, rest) == 0.0
  {
  }

  /** Multiplied back by the number of cards left, the mix is the expected
      count of the value among them. */
  lemma HoleMixTimes(x: real, c: real, n: real, rest: real)
    requires rest != 0.0
    ensures HoleMix(x, c, n, rest) * rest == x * c + (1.0 - x) * n
  {
    QuotTimes(x * c, rest);
    QuotTimes((1.0 - x) * n, rest);
    Distribute(Quot(x * c, rest), Quot((1.0 - x) * n, rest), rest);
  }

  /** The three cases `get_card_probability` singles out. */
  lemma ProbabilityCases(shoe: seq<int>, r: int, t: int)
    requires IsCounts(shoe) && IsHoleExclusion(r) && 1 <= t <= 10
    ensures shoe[t - 1] == 0 ==> GetCardProbability(shoe, r, t) == 0.0
    ensures r == 0 && Total(shoe) > 0 ==> GetCardProbability(shoe, r, t) == shoe[t - 1] as real / Total(shoe) as real
    ensures r == t && Total(shoe) > 1 ==> GetCardProbability(shoe, r, t) == shoe[t - 1] as real / (Total(shoe) - 1) as real
  {
  }

  lemma QuotTimes(x: real, y: real)
    requires y != 0.0
    ensures Quot(x, y) * y == x
  {
  }

  /**
   * With a ruled-out value r, the shoe holding more than one card and some
   * card not of value r: a value t other than r, of count n, has
   * probability (n b - n) / (a b), with a = T - 1, b = T - n_r, T the total
   * and n_r the count of r; the value r itself has probability n_r / a.
   */
  lemma ClosedForm(shoe: seq<int>, r: int, t: int, p: real, a: real, b: real, n: real)
    requires IsCounts(shoe) && 1 <= r <= 10 && 1 <= t <= 10
    requires Total(shoe) > 1 && Total(shoe) > shoe[r - 1]
    requires p == GetCardProbability(shoe, r, t) && n == shoe[t - 1] as real
    requires a == (Total(shoe) - 1) as real && b == (Total(shoe) - shoe[r - 1]) as real
    ensures TermClosed(p, n, a, b, t == r)
  {
    if shoe[t - 1] > 0 {
      if t == r {
        assert p == Quot(n, a);
        QuotTimes(n, a);
      } else {
        var x := Quot(n, b);
        QuotTimes(n, b);
        assert p == HoleMix(x, n - 1.0, n, a);
        HoleMixTimes(x, n - 1.0, n, a);
        MixCollapse(x, n, p * a);
        CloseWithB(p * a, n, x, b);
      }
    }
  }

  lemma MixCollapse(x: real, n: real, pa: real)
    requires pa == x * (n - 1.0) + (1.0 - x) * n
    ensures pa == n - x
  {
  }

  lemma CloseWithB(pa: real, n: real, x: real, b: real)
    requires pa == n - x && x * b == n
    ensures pa * b == n * b - n
  {
  }

  /** The probabilities of the ten values, in order. */
  function Probabilities(shoe: seq<int>, r: int): (ps: seq<real>)
    requires |shoe| == RANKS && IsHoleExclusion(r)
    ensures |ps| == RANKS
    ensures forall i :: 0 <= i < RANKS ==> ps[i] == GetCardProbability(shoe, r, i + 1)
  {
    seq(RANKS, i requires 0 <= i < RANKS => GetCardProbability(shoe, r, i + 1))
  }

  /** The counts as reals. */
  function AsReals(shoe: seq<int>): (ns: seq<real>)
    ensures |ns| == |shoe| && forall i :: 0 <= i < |shoe| ==> ns[i] == shoe[i] as real
  {
    seq(|shoe|, i requires 0 <= i < |shoe| => shoe[i] as real)
  }

  /** xs[0] + ... + xs[k - 1]. */
  function SumTo(xs: seq<real>, k: int): real
    requires 0 <= k <= |xs|
  {
    if k == 0 then 0.0 else SumTo(xs, k - 1) + xs[k - 1]
  }

  lemma SumOfCounts(shoe: seq<int>)
    requires |shoe| == RANKS
    ensures SumTo(AsReals(shoe), RANKS) == Total(shoe) as real
  {
    TotalTen(shoe);
    var ns := AsReals(shoe);
    assert SumTo(ns, 1) == ns[0];
    assert SumTo(ns, 2) == SumTo(ns, 1) + ns[1];
    assert SumTo(ns, 3) == SumTo(ns, 2) + ns[2];
    assert SumTo(ns, 4) == SumTo(ns, 3) + ns[3];
    assert SumTo(ns, 5) == SumTo(ns, 4) + ns[4];
    assert SumTo(ns, 6) == SumTo(ns, 5) + ns[5];
    assert SumTo(ns, 7) == SumTo(ns, 6) + ns[6];
    assert SumTo(ns, 8) == SumTo(ns, 7) + ns[7];
    assert SumTo(ns, 9) == SumTo(ns, 8) + ns[8];
  }

  lemma Distribute(s: real, p: real, m: real)
    ensures (s + p) * m == s * m + p * m
  {
  }

  lemma Associate(p: real, a: real, b: real)
    ensures p * (a * b) == (p * a) * b
  {
  }

  /** The closed form of one term: p a == n for the ruled-out value, and
      p a b == n b - n for the others. */
  predicate TermClosed(p: real, n: real, a: real, b: real, ruledOut: bool)
  {
    if ruledOut then p * a == n else p * a * b == n * b - n
  }

  /** The closed form holds for the first k terms. */
  predicate ClosedUpTo(ps: seq<real>, ns: seq<real>, r: int, a: real, b: real, k: int)
    requires 0 <= k <= |ps| && k <= |ns|
  {
    k == 0 || (ClosedUpTo(ps, ns, r, a, b, k - 1) && TermClosed(ps[k - 1], ns[k - 1], a, b, k - 1 == r - 1))
  }

  /** One step of the sum below. */
  lemma SumStep(s: real, p: real, a: real, b: real, c0: real, n: real, cut0: real, cut: real, ruledOut: bool,
                 sk: real, ck: real)
    requires s * (a * b) == c0 * b - (c0 - cut0)
    requires TermClosed(p, n, a, b, ruledOut) && cut == if ruledOut then cut0 + n else cut0
    requires sk == s + p && ck == c0 + n
    ensures sk * (a * b) == ck * b - (ck - cut)
  {
    Distribute(s, p, a * b);
    Distribute(c0, n, b);
    Associate(p, a, b);
  }

  /** The sum of terms of the closed form, over abstract terms. */
  lemma {:induction false} ClosedFormSum(ps: seq<real>, ns: seq<real>, r: int, a: real, b: real, k: int)
    requires |ps| == RANKS && |ns| == RANKS && 1 <= r <= 10 && 0 <= k <= 10
    requires ClosedUpTo(ps, ns, r, a, b, k)
    ensures SumTo(ps, k) * (a * b) == SumTo(ns, k) * b - (SumTo(ns, k) - if r <= k then ns[r - 1] else 0.0)
  {
    if k > 0 {
      ClosedFormSum(ps, ns, r, a, b, k - 1);
      SumStep(SumTo(ps, k - 1), ps[k - 1], a, b, SumTo(ns, k - 1), ns[k - 1],
              if r <= k - 1 then ns[r - 1] else 0.0, if r <= k then ns[r - 1] else 0.0, k - 1 == r - 1,
              SumTo(ps, k), SumTo(ns, k));
    }
  }

  lemma MulCancel(x: real, y: real)
    requires y > 0.0 && x * y == y
    ensures x == 1.0
  {
    assert (x - 1.0) * y == 0.0;
  }

  /**
   * With a ruled-out value, the probabilities of the ten values add up to
   * one, provided the shoe holds more than one card and not only cards of
   * the ruled-out value.
   */
  lemma ProbabilitiesSumToOneExcluding(shoe: seq<int>, r: int)
    requires IsCounts(shoe) && 1 <= r <= 10
    requires Total(shoe) > 1 && Total(shoe) > shoe[r - 1]
    ensures SumTo(Probabilities(shoe, r), RANKS) == 1.0
  {
    var ps := Probabilities(shoe, r);
    var ns := AsReals(shoe);
    var a := (Total(shoe) - 1) as real;
    var b := (Total(shoe) - shoe[r - 1]) as real;
    ClosedFormAll(shoe, r, ps, ns, a, b, RANKS);
    SumOfCounts(shoe);
    SumToOneFromClosedForm(ps, ns, r, Total(shoe) as real, a, b);
  }

  /** The closed form for every value, in terms of the sequences. */
  lemma {:induction false} ClosedFormAll(shoe: seq<int>, r: int, ps: seq<real>, ns: seq<real>, a: real, b: real,
                                         k: int)
    requires IsCounts(shoe) && 1 <= r <= 10 && 0 <= k <= RANKS
    requires Total(shoe) > 1 && Total(shoe) > shoe[r - 1]
    requires ps == Probabilities(shoe, r) && ns == AsReals(shoe)
    requires a == (Total(shoe) - 1) as real && b == (Total(shoe) - shoe[r - 1]) as real
    ensures |ps| == RANKS && |ns| == RANKS && ClosedUpTo(ps, ns, r, a, b, k)
  {
    if k > 0 {
      ClosedFormAll(shoe, r, ps, ns, a, b, k - 1);
      ClosedForm(shoe, r, k, ps[k - 1], a, b, ns[k - 1]);
    }
  }

  /** The closed forms of the ten terms add up to one. */
  lemma SumToOneFromClosedForm(ps: seq<real>, ns: seq<real>, r: int, t: real, a: real, b: real)
    requires |ps| == RANKS && |ns| == RANKS && 1 <= r <= 10
    requires ClosedUpTo(ps, ns, r, a, b, RANKS)
    requires SumTo(ns, RANKS) == t && a == t - 1.0 && b == t - ns[r - 1] && a > 0.0 && b > 0.0
    ensures SumTo(ps, RANKS) == 1.0
  {
    ClosedFormSum(ps, ns, r, a, b, RANKS);
    var s := SumTo(ps, RANKS);
    assert s * (a * b) == t * b - (t - ns[r - 1]);
    Cancel(s, t, a, b, t - ns[r - 1]);
  }

  /** s (a b) == t b - b with a == t - 1 and a, b > 0 gives s == 1. */
  lemma Cancel(s: real, t: real, a: real, b: real, c: real)
    requires a == t - 1.0 && a > 0.0 && b > 0.0
    requires s * (a * b) == t * b - c && c == b
    ensures s == 1.0
  {
    var ab := a * b;
    var tb := t * b;
    assert tb == ab + b by {
      assert t == a + 1.0;
      Distribute(a, 1.0, b);
    }
    MulPositive(a, b);
    assert s * ab == tb - c;
    assert s * ab == ab;
    MulCancel(s, ab);
  }

  lemma {:induction false} PlainSum(ps: seq<real>, ns: seq<real>, t: real, k: int)
    requires |ps| == RANKS && |ns| == RANKS && 0 <= k <= 10
    requires forall i :: 0 <= i < RANKS ==> ps[i] * t == ns[i]
    ensures SumTo(ps, k) * t == SumTo(ns, k)
  {
    if k > 0 {
      PlainSum(ps, ns, t, k - 1);
      Distribute(SumTo(ps, k - 1), ps[k - 1], t);
    }
  }

  /** Without a ruled-out value, the probabilities of a non-empty shoe add
      up to one. */
  lemma ProbabilitiesSumToOne(shoe: seq<int>)
    requires IsCounts(shoe) && Total(shoe) > 0
    ensures SumTo(Probabilities(shoe, 0), RANKS) == 1.0
  {
    var ps := Probabilities(shoe, 0);
    var ns := AsReals(shoe);
    var t := Total(shoe) as real;
    forall i | 0 <= i < RANKS
      ensures ps[i] * t == ns[i]
    {
      if shoe[i] > 0 {
        QuotTimes(ns[i], t);
      }
    }
    PlainSum(ps, ns, t, RANKS);
    SumOfCounts(shoe);
    assert SumTo(ps, RANKS) * t == t;
    assert t > 0.0;
    MulCancel(SumTo(ps, RANKS), t);
  }

  lemma QuotBounds(x: real, y: real)
    requires 0.0 <= x && 0.0 <= y
    ensures Quot(x, y) >= 0.0
    ensures x <= y ==> Quot(x, y) <= 1.0
    ensures 0.0 < x && 0.0 < y ==> Quot(x, y) > 0.0
  {
  }

  lemma MulPositive(x: real, y: real)
    requires 0.0 < x && 0.0 < y
    ensures 0.0 < x * y
  {
  }

  lemma MulNonNegative(x: real, y: real)
    requires 0.0 <= x && 0.0 <= y
    ensures 0.0 <= x * y
  {
  }

  lemma HoleMixNonNegative(x: real, c: real, n: real, rest: real)
    requires 0.0 <= x <= 1.0 && 0.0 <= c && 0.0 <= n && 0.0 <= rest
    ensures HoleMix(x, c, n, rest) >= 0.0
  {
    MulNonNegative(x, c);
    MulNonNegative(1.0 - x, n);
    QuotBounds(x * c, rest);
    QuotBounds((1.0 - x) * n, rest);
  }

  /** Probabilities are never negative, and without a ruled-out value a
      present card value has a positive probability. (With a ruled-out value
      a present value can have probability 0: in a shoe of one t and some
      r, the hole card must be the t.) */
  lemma ProbabilityNonNegative(shoe: seq<int>, r: int, t: int)
    requires IsCounts(shoe) && IsHoleExclusion(r) && 1 <= t <= 10
    ensures GetCardProbability(shoe, r, t) >= 0.0
    ensures shoe[t - 1] > 0 && r == 0 ==> GetCardProbability(shoe, r, t) > 0.0
  {
    var total := Total(shoe);
    var n := shoe[t - 1] as real;
    if shoe[t - 1] > 0 {
      CountsBounds(shoe);
      if r == 0 {
        QuotBounds(n, total as real);
      } else {
        var pHole := if r == t then 0.0 else Quot(n, (total - shoe[r - 1]) as real);
        if r != t {
          PairBound(shoe, r, t);
          QuotBounds(n, (total - shoe[r - 1]) as real);
        }
        HoleMixNonNegative(pHole, (shoe[t - 1] - 1) as real, n, (total - 1) as real);
      }
    }
  }

  /** Two different values together are no more than the whole shoe. */
  lemma PairBound(shoe: seq<int>, r: int, t: int)
    requires IsCounts(shoe) && 1 <= r <= 10 && 1 <= t <= 10 && r != t
    ensures shoe[t - 1] + shoe[r - 1] <= Total(shoe)
  {
    TotalTen(shoe);
  }
}
