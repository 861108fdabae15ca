/**
 * The earlier card-count container (src/statearray.rs): ten 8-bit counts
 * and a fingerprint modulo 1000000007, with a memo table keyed by that
 * fingerprint. It caches no hard sum and no total.
 */
module LegacyStateArray {
  import opened Fingerprint
  import opened HandValue

  const MOD: Modulus := 1000000007
  const BASE: int := 211
  const POW_BASE: seq<int> := [1, 211, 44521, 9393931, 982119434, 227199125, 939015046,
                               132173320, 888570331, 488338532]

  function Key(c: seq<int>): int
    requires |c| == RANKS
  {
    Dot(c, POW_BASE) % MOD
  }

  /** The table is the powers of BASE reduced modulo MOD. */
  lemma PowBaseValues()
    ensures POW_BASE == PowTable(BASE, MOD, RANKS)
  {
    assert PowMod(BASE, MOD, 4) == 982119434;
    assert PowMod(BASE, MOD, 5) == 227199125;
    assert PowMod(BASE, MOD, 6) == 939015046;
    assert PowMod(BASE, MOD, 7) == 132173320;
    assert PowMod(BASE, MOD, 8) == 888570331;
    assert PowMod(BASE, MOD, 9) == 488338532;
  }

  /** The key is the polynomial fingerprint evaluated by Horner's rule. */
  lemma KeyIsHorner(c: seq<int>)
    requires |c| == RANKS
    ensures Key(c) == Horner(BASE, MOD, c)
  {
    PowBaseValues();
    HornerIsHash(BASE, MOD, c);
  }

  /** The table `get_powers_of_base` fills is POW_BASE. */
  method GetPowersOfBase() returns (a: array<int>)
    ensures a[..] == POW_BASE
  {
    a := PowersOfBase(BASE, MOD, RANKS);
    PowBaseValues();
    assert a[..] == POW_BASE;
  }

  /** The accumulation in `propagate_hash` fits the 64-bit accumulator for
      any 8-bit counts. */
  lemma PropagateNoOverflow(c: seq<int>)
    requires |c| == RANKS && forall i :: 0 <= i < RANKS ==> 0 <= c[i] < 0x100
    ensures 0 <= Dot(c, POW_BASE) < 0x1_0000_0000_0000_0000
  {
    DotBound(c, POW_BASE, 0xFF, MOD - 1);
  }

  /** Adding a card always changes the key. */
  lemma KeyChangesOnAdd(c: seq<int>, v: int)
    requires |c| == RANKS && 1 <= v <= 10
    ensures Key(Inc(c, v)) != Key(c)
  {
    IncrementChangesModDot(c, POW_BASE, MOD, v - 1);
  }

  lemma SliceAll(s: seq<int>)
    ensures s[..|s|] == s
  {
  }

  class CardCount {
    const counts: array<int>
    var hashValue: int

    ghost predicate Valid()
      reads this, counts
    {
      counts.Length == RANKS && IsCounts(counts[..]) && hashValue == Key(counts[..])
    }

    ghost function Counts(): seq<int>
      reads counts
    {
      counts[..]
    }

    constructor (c: seq<int>)
      requires IsCounts(c)
      ensures Valid() && Counts() == c && fresh(counts)
    {
      counts := new int[RANKS](i requires 0 <= i < RANKS => c[i]);
      hashValue := 0;
      new;
      assert counts[..] == c;
      PropagateHash();
    }

    method PropagateHash()
      requires counts.Length == RANKS && IsCounts(counts[..])
      modifies this
      ensures Valid()
    {
      hashValue := 0;
      ghost var c := counts[..];
      var i := 0;
      while i < RANKS
        invariant 0 <= i <= RANKS
        invariant hashValue == Dot(c[..i], POW_BASE[..i])
      {
        DotSnoc(c, POW_BASE, i);
        hashValue := hashValue + counts[i] * POW_BASE[i];
        i := i + 1;
      }
      SliceAll(c);
      SliceAll(POW_BASE);
      hashValue := hashValue % MOD;
    }

    method AddCard(v: int)
      requires Valid() && 1 <= v <= 10
      modifies this, counts
      ensures Valid() && Counts() == Inc(old(Counts()), v)
    {
      ghost var c := counts[..];
      var index := v - 1;
      counts[index] := counts[index] + 1;
      assert counts[..] == Inc(c, v);
      ModDotIncrement(c, POW_BASE, MOD, index);
      hashValue := (hashValue + POW_BASE[index]) % MOD;
    }

    /** The caller guarantees a card of value v is present. */
    method RemoveCard(v: int)
      requires Valid() && 1 <= v <= 10 && counts[v - 1] > 0
      modifies this, counts
      ensures Valid() && Counts() == Dec(old(Counts()), v)
    {
      ghost var c := counts[..];
      var index := v - 1;
      counts[index] := counts[index] - 1;
      assert counts[..] == Dec(c, v);
      ModDotDecrement(c, POW_BASE, MOD, index);
      hashValue := (hashValue + MOD - POW_BASE[index]) % MOD;
    }

    function Count(v: int): (n: int)
      reads counts
      requires counts.Length == RANKS && 1 <= v <= 10
      ensures n == Counts()[v - 1]
    {
      counts[v - 1]
    }
  }

  /** A table from legacy fingerprints to values. */
  class StateArray<T> {
    var data: map<int, T>
    const default: T

    constructor (d: T)
      ensures data == map[] && default == d
    {
      data := map[];
      default := d;
    }

    /** Reading an entry; a missing key is fatal. */
    function Index(index: CardCount): (v: T)
      reads this, index, index.counts
      requires index.Valid() && Key(index.Counts()) in data
      ensures v == data[Key(index.Counts())]
    {
      data[index.hashValue]
    }

    method IndexMut(index: CardCount) returns (v: T)
      requires index.Valid()
      modifies this
      ensures data == if Key(index.Counts()) in old(data) then old(data)
                      else old(data)[Key(index.Counts()) := default]
      ensures v == data[Key(index.Counts())]
    {
      if index.hashValue !in data {
        data := data[index.hashValue := default];
      }
      v := data[index.hashValue];
    }

    method Set(index: CardCount, v: T)
      requires index.Valid()
      modifies this
      ensures data == old(data)[Key(index.Counts()) := v]
    {
      data := data[index.hashValue := v];
    }

    /** Whether an entry exists; the earlier table type has no such method,
        though the calculation that uses it calls one. */
    predicate ContainsState(index: CardCount)
      reads this, index, index.counts
      requires index.Valid()
      ensures ContainsState(index) <==> Key(index.Counts()) in data
    {
      index.hashValue in data
    }
  }
}
