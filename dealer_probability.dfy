/**
 * The dealer's final-value distribution kept by the split and dealer-play
 * calculations (DealerHandValueProbability, defined identically in
 * blackjack/src/calculation/split_ex.rs and
 * blackjack/src/calculation2/dealer_ex.rs). Six prefix sums: slot 0 is the
 * probability that the dealer busts, slot i (1..5) the probability that
 * the dealer busts or ends on at most 16 + i; what is left above slot 5 is
 * the probability of a dealer natural. Probabilities are exact reals.
 */
module DealerProbability {
  import opened Wrappers

  const SLOTS: nat := 6

  datatype DealerHandValueProbability = DealerHandValueProbability(prefix: seq<real>)

  predicate WellFormed(d: DealerHandValueProbability)
  {
    |d.prefix| == SLOTS
  }

  /** `Default::default()`: every slot 0. */
  const ZERO: DealerHandValueProbability := DealerHandValueProbability([0.0, 0.0, 0.0, 0.0, 0.0, 0.0])

  /** A distribution with its six slots. */
  type Dist = d: DealerHandValueProbability | WellFormed(d) witness ZERO

  /** How one dealer hand ends: bust, standing on a value 17..21, or a
      natural. */
  datatype DealerOutcome = DealerBust | DealerStands(value: int) | DealerNatural

  predicate ValidOutcome(o: DealerOutcome)
  {
    o.DealerStands? ==> 17 <= o.value <= 21
  }

  /** The dealer ends below a player who stands on x (bust or a lower value). */
  predicate DealerWorse(o: DealerOutcome, x: int)
  {
    o.DealerBust? || (o.DealerStands? && o.value < x)
  }

  /** The dealer beats a player who stands on x (a natural or a higher value). */
  predicate DealerBetter(o: DealerOutcome, x: int)
  {
    o.DealerNatural? || (o.DealerStands? && o.value > x)
  }

  // ---------------------------------------------------------------------
  // Lookups
  // ---------------------------------------------------------------------

  /** `p_worse_than_player`; None is the panic above 21. */
  function PWorseThanPlayer(d: DealerHandValueProbability, x: int): (r: Option<real>)
    requires WellFormed(d) && x >= 0
    ensures r.Some? <==> x <= 21
  {
    if x <= 17 then Some(d.prefix[0])
    else if x <= 21 then Some(d.prefix[x - 17])
    else None
  }

  /** `p_better_than_player`; None is the panic above 21. */
  function PBetterThanPlayer(d: DealerHandValueProbability, x: int): (r: Option<real>)
    requires WellFormed(d) && x >= 0
    ensures r.Some? <==> x <= 21
  {
    if x <= 16 then Some(1.0 - d.prefix[0])
    else if x <= 21 then Some(1.0 - d.prefix[x - 16])
    else None
  }

  // ---------------------------------------------------------------------
  // Handler callbacks
  // ---------------------------------------------------------------------

  /** `end_with_dealer_bust`: every slot becomes 1. */
  function EndWithBust(d: DealerHandValueProbability): (r: DealerHandValueProbability)
    requires WellFormed(d)
    ensures WellFormed(r) && forall i :: 0 <= i < SLOTS ==> r.prefix[i] == 1.0
  {
    DealerHandValueProbability([1.0, 1.0, 1.0, 1.0, 1.0, 1.0])
  }

  /** `end_with_dealer_normal`: slots from `dealerSum - 16` on become 1 and
      the lower ones are kept; the subtraction is unsigned, so the sum is at
      least 16. */
  function EndWithNormal(d: DealerHandValueProbability, dealerSum: int): (r: DealerHandValueProbability)
    requires WellFormed(d) && dealerSum >= 16
    ensures WellFormed(r)
    ensures forall i :: 0 <= i < SLOTS ==> r.prefix[i] == if i >= dealerSum - 16 then 1.0 else d.prefix[i]
  {
    DealerHandValueProbability(seq(SLOTS, i requires 0 <= i < SLOTS => if i >= dealerSum - 16 then 1.0 else d.prefix[i]))
  }

  /** `end_with_dealer_natural` changes nothing. */
  function EndWithNatural(d: DealerHandValueProbability): (r: DealerHandValueProbability)
    requires WellFormed(d)
    ensures r == d
  {
    d
  }

  /** `add_assign_with_p`: slot by slot, `a += p * b`. */
  function AddAssignWithP(a: DealerHandValueProbability, b: DealerHandValueProbability, p: real)
    : (r: DealerHandValueProbability)
    requires WellFormed(a) && WellFormed(b)
    ensures WellFormed(r) && forall i :: 0 <= i < SLOTS ==> r.prefix[i] == a.prefix[i] + b.prefix[i] * p
  {
    DealerHandValueProbability(seq(SLOTS, i requires 0 <= i < SLOTS => a.prefix[i] + b.prefix[i] * p))
  }

  /** The distribution of a single ending, as the callbacks build it from
      the default. */
  function Leaf(o: DealerOutcome): (r: DealerHandValueProbability)
    requires ValidOutcome(o)
    ensures WellFormed(r)
  {
    match o
    case DealerBust => EndWithBust(ZERO)
    case DealerStands(v) => EndWithNormal(ZERO, v)
    case DealerNatural => EndWithNatural(ZERO)
  }

  /**
   * For a single ending, whatever the player's value x up to 21, the two
   * lookups are exactly the indicators of the dealer ending below or above
   * the player: the slot layout encodes the comparison correctly.
   */
  lemma LeafLookups(o: DealerOutcome, x: int)
    requires ValidOutcome(o) && 0 <= x <= 21
    ensures PWorseThanPlayer(Leaf(o), x) == Some(if DealerWorse(o, x) then 1.0 else 0.0)
    ensures PBetterThanPlayer(Leaf(o), x) == Some(if DealerBetter(o, x) then 1.0 else 0.0)
  {
  }

  /** Lookups are linear in the accumulation: adding p times b adds p times
      b's probability of ending below the player, and p times b's
      probability of not ending above. */
  lemma MixtureLookups(a: DealerHandValueProbability, b: DealerHandValueProbability, p: real, x: int)
    requires WellFormed(a) && WellFormed(b) && 0 <= x <= 21
    ensures PWorseThanPlayer(AddAssignWithP(a, b, p), x).value
            == PWorseThanPlayer(a, x).value + p * PWorseThanPlayer(b, x).value
    ensures 1.0 - PBetterThanPlayer(AddAssignWithP(a, b, p), x).value
            == (1.0 - PBetterThanPlayer(a, x).value) + p * (1.0 - PBetterThanPlayer(b, x).value)
  {
  }

  // ---------------------------------------------------------------------
  // The callbacks' slot loops
  // ---------------------------------------------------------------------

  method EndWithBustLoop(d: DealerHandValueProbability) returns (r: DealerHandValueProbability)
    requires WellFormed(d)
    ensures r == EndWithBust(d)
  {
    var slots := d.prefix;
    var i := 0;
    while i < SLOTS
      invariant 0 <= i <= SLOTS && |slots| == SLOTS
      invariant forall j :: 0 <= j < i ==> slots[j] == 1.0
    {
      slots := slots[i := 1.0];
      i := i + 1;
    }
    r := DealerHandValueProbability(slots);
  }

  method EndWithNormalLoop(d: DealerHandValueProbability, dealerSum: int) returns (r: DealerHandValueProbability)
    requires WellFormed(d) && dealerSum >= 16
    ensures r == EndWithNormal(d, dealerSum)
  {
    var slots := d.prefix;
    var i := dealerSum - 16;
    while i < SLOTS
      invariant dealerSum - 16 <= i && |slots| == SLOTS
      invariant forall j :: 0 <= j < SLOTS ==>
                  slots[j] == if dealerSum - 16 <= j < i then 1.0 else d.prefix[j]
      decreases SLOTS - i
    {
      slots := slots[i := 1.0];
      i := i + 1;
    }
    assert slots == EndWithNormal(d, dealerSum).prefix;
    r := DealerHandValueProbability(slots);
  }

  method AddAssignWithPLoop(a: DealerHandValueProbability, b: DealerHandValueProbability, p: real)
    returns (r: DealerHandValueProbability)
    requires WellFormed(a) && WellFormed(b)
    ensures r == AddAssignWithP(a, b, p)
  {
    var slots := a.prefix;
    var i := 0;
    while i < SLOTS
      invariant 0 <= i <= SLOTS && |slots| == SLOTS
      invariant forall j :: 0 <= j < SLOTS ==> slots[j] == if j < i then a.prefix[j] + b.prefix[j] * p else a.prefix[j]
    {
      slots := slots[i := slots[i] + b.prefix[i] * p];
      i := i + 1;
    }
    ghost var sum := AddAssignWithP(a, b, p);
    assert forall j :: 0 <= j < SLOTS ==> slots[j] == sum.prefix[j];
    assert slots == sum.prefix;
    r := DealerHandValueProbability(slots);
  }
}
