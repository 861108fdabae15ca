/**
 * The card-count container and the memo tables keyed by its fingerprint
 * (blackjack/src/statearray.rs). A CardCount caches, beside its ten
 * counts, the fingerprint, the hard sum and the number of cards; every
 * method keeps the caches equal to what the counts determine.
 */
module StateArray {
  import opened Fingerprint
  import opened HandValue

  /** The 62-bit prime modulus and the base of the fingerprint. */
  const MOD: Modulus := 3817949514078926267
  const BASE: int := 211
  /** The powers of the base modulo MOD, as `get_powers_of_base` computes them. */
  const POW_BASE: seq<int> := [1, 211, 44521, 9393931, 1982119441, 418227202051, 88245939632761,
                               18619893262512571, 110847964311226214, 481223385195173552]

  /** The fingerprint of a count vector, the key of every memo table. */
  function Key(c: seq<int>): int
    requires |c| == RANKS
  {
    Dot(c, POW_BASE) % MOD
  }

  /** The table is the powers of BASE reduced modulo MOD. */
  lemma PowBaseValues()
    ensures POW_BASE == PowTable(BASE, MOD, RANKS)
  {
    assert PowMod(BASE, MOD, 1) == 211;
    assert PowMod(BASE, MOD, 2) == 44521;
    assert PowMod(BASE, MOD, 3) == 9393931;
    assert PowMod(BASE, MOD, 4) == 1982119441;
    assert PowMod(BASE, MOD, 5) == 418227202051;
    assert PowMod(BASE, MOD, 6) == 88245939632761;
    assert PowMod(BASE, MOD, 7) == 18619893262512571;
    assert PowMod(BASE, MOD, 8) == 110847964311226214;
    assert PowMod(BASE, MOD, 9) == 481223385195173552;
  }

  /** The key is the polynomial fingerprint, so it equals Horner evaluation. */
  lemma KeyIsHash(c: seq<int>)
    requires |c| == RANKS
    ensures Key(c) == Hash(BASE, MOD, c) == Horner(BASE, MOD, c)
  {
    PowBaseValues();
    HornerIsHash(BASE, MOD, c);
  }

  /** Every power lies strictly between 0 and MOD, so adding or removing a
      card always changes the fingerprint. */
  lemma PowBaseRange(k: int)
    requires 0 <= k < RANKS
    ensures 0 < POW_BASE[k] < MOD
  {
  }

  /** The key of a vector with one more card of value v differs from the key
      of the vector itself. */
  lemma KeyChangesOnAdd(c: seq<int>, v: int)
    requires |c| == RANKS && 1 <= v <= 10
    ensures Key(Inc(c, v)) != Key(c)
  {
    PowBaseRange(v - 1);
    IncrementChangesModDot(c, POW_BASE, MOD, v - 1);
  }

  /** The accumulation that recomputes the fingerprint stays inside the
      128-bit accumulator for any 16-bit counts. */
  lemma PropagateNoOverflow(c: seq<int>)
    requires |c| == RANKS && forall i :: 0 <= i < RANKS ==> 0 <= c[i] < 0x1_0000
    ensures 0 <= Dot(c, POW_BASE) < 0x1_0000_0000_0000_0000_0000_0000_0000_0000
  {
    forall i | 0 <= i < RANKS ensures 0 <= POW_BASE[i] <= MOD - 1 { PowBaseRange(i); }
    DotBound(c, POW_BASE, 0xFFFF, MOD - 1);
  }

  /** The table `get_powers_of_base` fills is POW_BASE. */
  method GetPowersOfBase() returns (a: array<int>)
    ensures a[..] == POW_BASE
  {
    a := PowersOfBase(BASE, MOD, RANKS);
    PowBaseValues();
    assert a[..] == POW_BASE;
  }

  /** The counts of a full shoe of n decks. */
  function DeckCounts(n: int): seq<int>
  {
    [4 * n, 4 * n, 4 * n, 4 * n, 4 * n, 4 * n, 4 * n, 4 * n, 4 * n, 16 * n]
  }

  lemma DeckCountsValues(n: nat)
    ensures IsCounts(DeckCounts(n))
    ensures Total(DeckCounts(n)) == 52 * n && HardSum(DeckCounts(n)) == 340 * n
  {
    TotalTen(DeckCounts(n));
    HardSumTen(DeckCounts(n));
  }

  lemma FacesAt(i: int)
    requires 0 <= i < RANKS
    ensures FACES[i] == i + 1 && ONES[i] == 1
  {
  }

  /** One slot more of the accumulation in `propagate_counts`. */
  lemma PropagateStep(c: seq<int>, i: int)
    requires |c| == RANKS && 0 <= i < RANKS
    ensures Dot(c[..i + 1], POW_BASE[..i + 1]) == Dot(c[..i], POW_BASE[..i]) + c[i] * POW_BASE[i]
    ensures Dot(c[..i + 1], FACES[..i + 1]) == Dot(c[..i], FACES[..i]) + (i + 1) * c[i]
    ensures Dot(c[..i + 1], ONES[..i + 1]) == Dot(c[..i], ONES[..i]) + c[i]
  {
    DotSnoc(c, POW_BASE, i);
    DotSnoc(c, FACES, i);
    DotSnoc(c, ONES, i);
    FacesAt(i);
  }

  lemma SliceAll(s: seq<int>)
    ensures s[..|s|] == s
  {
  }

  class CardCount {
    const counts: array<int>
    var hashValue: int
    var sum: int
    var total: int

    ghost predicate Valid()
      reads this, counts
    {
      counts.Length == RANKS && IsCounts(counts[..])
      && hashValue == Key(counts[..]) && sum == HardSum(counts[..]) && total == Total(counts[..])
    }

    ghost function Counts(): seq<int>
      reads counts
    {
      counts[..]
    }

    constructor (c: seq<int>)
      requires IsCounts(c)
      ensures Valid() && Counts() == c && fresh(counts)
    {
      counts := new int[RANKS](i requires 0 <= i < RANKS => c[i]);
      hashValue, sum, total := 0, 0, 0;
      new;
      assert counts[..] == c;
      PropagateCounts();
    }

    /** A full shoe; the deck count is multiplied in 8 bits, so at most 15. */
    constructor WithNumberOfDecks(n: int)
      requires 0 <= n && n * 16 < 0x100
      ensures Valid() && Counts() == DeckCounts(n) && fresh(counts)
      ensures total == 52 * n
    {
      counts := new int[RANKS](i requires 0 <= i < RANKS => if i == 9 then 16 * n else 4 * n);
      hashValue, sum, total := 0, 0, 0;
      new;
      assert counts[..] == DeckCounts(n);
      DeckCountsValues(n);
      PropagateCounts();
    }

    /** The copy a `clone` makes. */
    method Clone() returns (r: CardCount)
      requires Valid()
      ensures fresh(r) && fresh(r.counts) && r.Valid() && r.Counts() == Counts()
    {
      r := new CardCount(counts[..]);
    }

    /** Recomputes the fingerprint, the hard sum and the total from the counts. */
    method PropagateCounts()
      requires counts.Length == RANKS && IsCounts(counts[..])
      modifies this
      ensures Valid()
    {
      hashValue, sum, total := 0, 0, 0;
      ghost var c := counts[..];
      var i := 0;
      while i < RANKS
        invariant 0 <= i <= RANKS
        invariant hashValue == Dot(c[..i], POW_BASE[..i])
        invariant sum == Dot(c[..i], FACES[..i])
        invariant total == Dot(c[..i], ONES[..i])
      {
        PropagateStep(c, i);
        hashValue := hashValue + counts[i] * POW_BASE[i];
        sum := sum + (i + 1) * counts[i];
        total := total + counts[i];
        i := i + 1;
      }
      SliceAll(c);
      SliceAll(POW_BASE);
      SliceAll(FACES);
      SliceAll(ONES);
      hashValue := hashValue % MOD;
    }

    /** Adds a card of value v (1..10). */
    method AddCard(v: int)
      requires Valid() && 1 <= v <= 10
      modifies this, counts
      ensures Valid() && Counts() == Inc(old(Counts()), v)
    {
      ghost var c := counts[..];
      var index := v - 1;
      counts[index] := counts[index] + 1;
      assert counts[..] == Inc(c, v);
      ModDotIncrement(c, POW_BASE, MOD, index);
      IncValues(c, v);
      hashValue := (hashValue + POW_BASE[index]) % MOD;
      sum := sum + v;
      total := total + 1;
    }

    /** Removes a card of value v; the caller guarantees that one is there. */
    method RemoveCard(v: int)
      requires Valid() && 1 <= v <= 10 && counts[v - 1] > 0
      modifies this, counts
      ensures Valid() && Counts() == Dec(old(Counts()), v)
    {
      ghost var c := counts[..];
      var index := v - 1;
      counts[index] := counts[index] - 1;
      assert counts[..] == Dec(c, v);
      ModDotDecrement(c, POW_BASE, MOD, index);
      DecValues(c, v);
      hashValue := (hashValue + MOD - POW_BASE[index]) % MOD;
      sum := sum - v;
      total := total - 1;
    }

    /** The hard sum (aces as 1), read from the cache. */
    function GetSum(): (s: int)
      reads this, counts
      requires Valid()
      ensures s == HardSum(Counts())
    {
      sum
    }

    function GetTotal(): (n: int)
      reads this, counts
      requires Valid()
      ensures n == Total(Counts())
    {
      total
    }

    /** The number of cards of value v. */
    function Count(v: int): (n: int)
      reads counts
      requires counts.Length == RANKS && 1 <= v <= 10
      ensures n == Counts()[v - 1]
    {
      counts[v - 1]
    }

    predicate IsSoft()
      reads counts
      requires counts.Length == RANKS
    {
      counts[0] > 0
    }

    predicate Bust()
      reads this, counts
      requires Valid()
      ensures Bust() <==> HandValue.Bust(Counts())
    {
      sum > 21
    }

    predicate IsNatural()
      reads this, counts
      requires Valid()
      ensures IsNatural() <==> HandValue.IsNatural(Counts())
    {
      total == 2 && counts[0] == 1 && counts[9] == 1
    }

    function GetActualSum(): (s: int)
      reads this, counts
      requires Valid()
      ensures s == ActualSum(Counts())
    {
      if IsSoft() && sum + 10 <= 21 then sum + 10 else sum
    }

    /** Only the fingerprint is moved to that of the sum; the other caches
        are left stale. */
    method FastAddAssign(rhs: CardCount)
      requires Valid() && rhs.Valid()
      modifies this`hashValue
      ensures hashValue == Key(AddPointwise(Counts(), rhs.Counts()))
    {
      ModDotAdd(counts[..], rhs.counts[..], POW_BASE, MOD);
      hashValue := (hashValue + rhs.hashValue) % MOD;
    }

    /** Only the fingerprint is moved to that of the difference. */
    method FastSubAssign(rhs: CardCount)
      requires Valid() && rhs.Valid()
      modifies this`hashValue
      ensures hashValue == Key(SubPointwise(Counts(), rhs.Counts()))
    {
      ModDotSub(counts[..], rhs.counts[..], POW_BASE, MOD);
      hashValue := (hashValue + MOD - rhs.hashValue) % MOD;
    }

    /** `self += rhs`: pointwise addition of the counts. */
    method AddAssign(rhs: CardCount)
      requires Valid() && rhs.Valid() && rhs.counts != counts
      modifies this, counts
      ensures Valid() && Counts() == AddPointwise(old(Counts()), rhs.Counts())
    {
      ghost var c := counts[..];
      var i := 0;
      while i < RANKS
        invariant 0 <= i <= RANKS
        invariant forall j :: 0 <= j < i ==> counts[j] == c[j] + rhs.counts[j]
        invariant forall j :: i <= j < RANKS ==> counts[j] == c[j]
        invariant hashValue == Key(c) && sum == HardSum(c) && total == Total(c)
      {
        counts[i] := counts[i] + rhs.counts[i];
        i := i + 1;
      }
      assert counts[..] == AddPointwise(c, rhs.counts[..]);
      ModDotAdd(c, rhs.counts[..], POW_BASE, MOD);
      DotAdd(c, rhs.counts[..], FACES);
      DotAdd(c, rhs.counts[..], ONES);
      hashValue := (hashValue + rhs.hashValue) % MOD;
      total := total + rhs.total;
      sum := sum + rhs.sum;
    }

    /** `self -= rhs`: pointwise subtraction; every count of rhs must be
        available (the 16-bit subtraction would underflow otherwise). */
    method SubAssign(rhs: CardCount)
      requires Valid() && rhs.Valid() && rhs.counts != counts
      requires forall j :: 0 <= j < RANKS ==> rhs.counts[j] <= counts[j]
      modifies this, counts
      ensures Valid() && Counts() == SubPointwise(old(Counts()), rhs.Counts())
    {
      ghost var c := counts[..];
      var i := 0;
      while i < RANKS
        invariant 0 <= i <= RANKS
        invariant forall j :: 0 <= j < i ==> counts[j] == c[j] - rhs.counts[j]
        invariant forall j :: i <= j < RANKS ==> counts[j] == c[j]
        invariant hashValue == Key(c) && sum == HardSum(c) && total == Total(c)
      {
        counts[i] := counts[i] - rhs.counts[i];
        i := i + 1;
      }
      assert counts[..] == SubPointwise(c, rhs.counts[..]);
      ModDotSub(c, rhs.counts[..], POW_BASE, MOD);
      DotSub(c, rhs.counts[..], FACES);
      DotSub(c, rhs.counts[..], ONES);
      hashValue := (hashValue + MOD - rhs.hashValue) % MOD;
      total := total - rhs.total;
      sum := sum - rhs.sum;
    }

    /** Equality compares fingerprints only: equal counts are always equal,
        the converse holds only up to fingerprint collisions. */
    predicate Equals(other: CardCount)
      reads this, counts, other, other.counts
      requires Valid() && other.Valid()
      ensures Counts() == other.Counts() ==> Equals(other)
    {
      hashValue == other.hashValue
    }
  }

  /** Two containers that share no storage. */
  predicate Disjoint(a: CardCount, b: CardCount)
  {
    a != b && a.counts != b.counts
  }

  // ---------------------------------------------------------------------
  // Memo tables
  // ---------------------------------------------------------------------

  /** A table from card-count fingerprints to values; `default` plays the
      role of `T::default()`. */
  class SingleStateArray<T> {
    var data: map<int, T>
    const default: T

    constructor (d: T)
      ensures data == map[] && default == d
    {
      data := map[];
      default := d;
    }

    method Clear()
      modifies this
      ensures data == map[]
    {
      data := map[];
    }

    predicate ContainsState(index: CardCount)
      reads this, index, index.counts
      requires index.Valid()
      ensures ContainsState(index) <==> Key(index.Counts()) in data
    {
      index.hashValue in data
    }

    function Len(): nat
      reads this
    {
      |data|
    }

    /** Reading an entry; a missing key is fatal, so callers must know it is there. */
    function Index(index: CardCount): (v: T)
      reads this, index, index.counts
      requires index.Valid() && Key(index.Counts()) in data
      ensures v == data[Key(index.Counts())]
    {
      data[index.hashValue]
    }

    /** Mutable access: inserts the default value when the key is missing
        and leaves every present entry alone. */
    method IndexMut(index: CardCount) returns (v: T)
      requires index.Valid()
      modifies this
      ensures data == if Key(index.Counts()) in old(data) then old(data)
                      else old(data)[Key(index.Counts()) := default]
      ensures v == data[Key(index.Counts())]
    {
      if index.hashValue !in data {
        data := data[index.hashValue := default];
      }
      v := data[index.hashValue];
    }

    /** Writing through the mutable access: the entry becomes v. */
    method Set(index: CardCount, v: T)
      requires index.Valid()
      modifies this
      ensures data == old(data)[Key(index.Counts()) := v]
    {
      data := data[index.hashValue := v];
    }
  }

  // ---------------------------------------------------------------------
  // Keys for pairs of hands
  // ---------------------------------------------------------------------

  /** How a hand of a split pair has ended or will be played. */
  datatype HandState = PlaceHolder | Normal | Surrender | Double

  /** The discriminant the key packs (`as u128`). */
  function Tag(s: HandState): (t: int)
    ensures 0 <= t < 4
  {
    match s
    case PlaceHolder => 0
    case Normal => 1
    case Surrender => 2
    case Double => 3
  }

  lemma TagInjective(s: HandState, t: HandState)
    ensures Tag(s) == Tag(t) ==> s == t
  {
  }

  const TWO_62: int := 0x4000_0000_0000_0000
  const TWO_64: int := 0x1_0000_0000_0000_0000

  /** In 128-bit words, `hash0 | tag << 62 | hash1 << 64` is a sum, because
      the three fields occupy disjoint bits. */
  lemma OrIsSum(h0: bv128, t: bv128, h1: bv128)
    requires h0 < 0x4000_0000_0000_0000 && t < 4 && h1 < 0x4000_0000_0000_0000
    ensures h0 | (t << 62) | (h1 << 64) == h0 + t * 0x4000_0000_0000_0000 + h1 * 0x1_0000_0000_0000_0000
  {
  }

  /** The packed key of a (hand, state, hand) triple, written as the sum the
      bitwise or amounts to. */
  function Pack(h0: int, s: HandState, h1: int): int
  {
    h0 + Tag(s) * TWO_62 + h1 * TWO_64
  }

  /** The three fields can be read back from the packed key; MOD < 2^62
      keeps every fingerprint inside its field. */
  lemma PackFields(h0: int, s: HandState, h1: int)
    requires 0 <= h0 < TWO_62 && 0 <= h1
    ensures Pack(h0, s, h1) % TWO_62 == h0
    ensures (Pack(h0, s, h1) / TWO_62) % 4 == Tag(s)
    ensures Pack(h0, s, h1) / TWO_64 == h1
  {
    var k := Pack(h0, s, h1);
    ModUnique(k, Tag(s) + 4 * h1, h0, TWO_62);
    ModUnique(Tag(s) + 4 * h1, h1, Tag(s), 4);
    ModUnique(k, h1, h0 + Tag(s) * TWO_62, TWO_64);
  }

  /** Distinct (hand, state, hand) triples get distinct keys. */
  lemma PackInjective(h0: int, s: HandState, h1: int, g0: int, t: HandState, g1: int)
    requires 0 <= h0 < TWO_62 && 0 <= h1 && 0 <= g0 < TWO_62 && 0 <= g1
    requires Pack(h0, s, h1) == Pack(g0, t, g1)
    ensures h0 == g0 && s == t && h1 == g1
  {
    PackFields(h0, s, h1);
    PackFields(g0, t, g1);
    TagInjective(s, t);
  }

  datatype DoubleCardCountIndex = DoubleCardCountIndex(hashValue: int)

  /** The key of a pair of hands and the state of the first one. */
  function NewDoubleIndex(hand0: CardCount, mul0: HandState, hand1: CardCount): (r: DoubleCardCountIndex)
    reads hand0, hand0.counts, hand1, hand1.counts
    requires hand0.Valid() && hand1.Valid()
    ensures r.hashValue % TWO_62 == Key(hand0.Counts())
    ensures (r.hashValue / TWO_62) % 4 == Tag(mul0)
    ensures r.hashValue / TWO_64 == Key(hand1.Counts())
  {
    PackFields(hand0.hashValue, mul0, hand1.hashValue);
    DoubleCardCountIndex(Pack(hand0.hashValue, mul0, hand1.hashValue))
  }

  /** A table from packed pair keys to values. */
  class DoubleStateArray<T> {
    var data: map<int, T>
    const default: T

    constructor (d: T)
      ensures data == map[] && default == d
    {
      data := map[];
      default := d;
    }

    method Clear()
      modifies this
      ensures data == map[]
    {
      data := map[];
    }

    predicate ContainsState(index: DoubleCardCountIndex)
      reads this
    {
      index.hashValue in data
    }

    function Len(): nat
      reads this
    {
      |data|
    }

    function Index(index: DoubleCardCountIndex): T
      reads this
      requires index.hashValue in data
    {
      data[index.hashValue]
    }

    method IndexMut(index: DoubleCardCountIndex) returns (v: T)
      modifies this
      ensures data == if index.hashValue in old(data) then old(data)
                      else old(data)[index.hashValue := default]
      ensures v == data[index.hashValue]
    {
      if index.hashValue !in data {
        data := data[index.hashValue := default];
      }
      v := data[index.hashValue];
    }

    method Set(index: DoubleCardCountIndex, v: T)
      modifies this
      ensures data == old(data)[index.hashValue := v]
    {
      data := data[index.hashValue := v];
    }
  }
}
