/**
 * The simulator's shoe (blackjack/src/simulation/shoe.rs): the cards in
 * dealing order, a cursor to the next card, the position of the cut card,
 * and the counts by value of the cards not yet dealt, kept in step with the
 * cursor.
 */
module Shoes {
  import opened Cards
  import opened HandValue
  import opened Wrappers
  import StateArray

  /** One deck in order: suit by suit, faces ace to king, so position e holds
      the card of encoding e. */
  function Deck(): (d: seq<Card>)
    ensures |d| == 52 && forall e :: 0 <= e < 52 ==> d[e] == CardOf(e)
  {
    seq(52, e requires 0 <= e < 52 => CardOf(e))
  }

  lemma DeckPrefixStep(k: int)
    requires 0 <= k < 52
    ensures Deck()[..k + 1] == Deck()[..k] + [CardOf(k)]
  {
  }

  /** The cards of `Shoe::new`: n ordered decks one after the other. */
  function NewCards(n: nat): (cs: seq<Card>)
    ensures |cs| == 52 * n
  {
    if n == 0 then [] else NewCards(n - 1) + Deck()
  }

  /** Card c + 52 i of a new shoe is the card of encoding c. */
  lemma {:induction false} NewCardsAt(n: nat, i: int, c: int)
    requires 0 <= i < n && 0 <= c < 52
    ensures NewCards(n)[c + 52 * i] == CardOf(c)
  {
    if i < n - 1 {
      NewCardsAt(n - 1, i, c);
    }
  }

  /** The number of copies of c among the first k cards of a deck. */
  lemma {:induction false} DeckPrefixMultiplicity(k: int, c: Card)
    requires 0 <= k <= 52
    ensures multiset(Deck()[..k])[c] == if ValidCard(c) && ToByte(c) < k then 1 else 0
  {
    if k > 0 {
      DeckPrefixMultiplicity(k - 1, c);
      assert Deck()[..k] == Deck()[..k - 1] + [CardOf(k - 1)];
      if ValidCard(c) && CardOf(k - 1) == c {
        assert ToByte(c) == k - 1;
      } else if ValidCard(c) && ToByte(c) == k - 1 {
        FromToByte(c);
      }
    }
  }

  /** A new shoe holds every card exactly n times, and nothing else. */
  lemma {:induction false} NewCardsMultiplicity(n: nat, c: Card)
    ensures multiset(NewCards(n))[c] == if ValidCard(c) then n else 0
  {
    if n > 0 {
      NewCardsMultiplicity(n - 1, c);
      DeckPrefixMultiplicity(52, c);
      assert Deck()[..52] == Deck();
    }
  }

  // ---------------------------------------------------------------------
  // Counts by value
  // ---------------------------------------------------------------------

  /** The copies, in any suit, of the face value f. */
  function SuitSum(m: multiset<Card>, f: int): int
  {
    m[Card(f, Diamond)] + m[Card(f, Club)] + m[Card(f, Heart)] + m[Card(f, Spade)]
  }

  /** The number of cards of blackjack value v (1..10) in m. */
  function ValueCount(m: multiset<Card>, v: int): int
  {
    if v < 10 then SuitSum(m, v) else SuitSum(m, 10) + SuitSum(m, 11) + SuitSum(m, 12) + SuitSum(m, 13)
  }

  /** The counts by value of a collection of cards, as `CardCount` keeps them. */
  function ValueCounts(m: multiset<Card>): (c: seq<int>)
    ensures |c| == RANKS && forall i :: 0 <= i < RANKS ==> c[i] == ValueCount(m, i + 1)
  {
    seq(RANKS, i requires 0 <= i < RANKS => ValueCount(m, i + 1))
  }

  lemma SuitSumRemove(m: multiset<Card>, c: Card, f: int)
    requires m[c] > 0
    ensures SuitSum(m - multiset{c}, f) == SuitSum(m, f) - if c.faceValue == f then 1 else 0
  {
    var m' := m - multiset{c};
    assert forall d :: m'[d] == if d == c then m[d] - 1 else m[d];
    assert c == Card(c.faceValue, c.suit);
    match c.suit {
      case Diamond =>
      case Club =>
      case Heart =>
      case Spade =>
    }
  }

  lemma ValueCountRemove(m: multiset<Card>, c: Card, v: int)
    requires ValidCard(c) && m[c] > 0 && 1 <= v <= 10
    ensures ValueCount(m - multiset{c}, v) == ValueCount(m, v) - if BlackjackValue(c) == v then 1 else 0
  {
    SuitSumRemove(m, c, v);
    SuitSumRemove(m, c, 10);
    SuitSumRemove(m, c, 11);
    SuitSumRemove(m, c, 12);
    SuitSumRemove(m, c, 13);
  }

  /** Taking one card out lowers the count of its value by one. */
  lemma ValueCountsRemove(m: multiset<Card>, c: Card)
    requires ValidCard(c) && m[c] > 0
    ensures ValueCounts(m - multiset{c}) == Dec(ValueCounts(m), BlackjackValue(c))
  {
    var a := ValueCounts(m - multiset{c});
    var b := Dec(ValueCounts(m), BlackjackValue(c));
    forall i | 0 <= i < RANKS
      ensures a[i] == b[i]
    {
      ValueCountRemove(m, c, i + 1);
    }
  }

  /** Putting one card in raises the count of its value by one. */
  lemma ValueCountsAdd(m: multiset<Card>, c: Card)
    requires ValidCard(c)
    ensures ValueCounts(m + multiset{c}) == Inc(ValueCounts(m), BlackjackValue(c))
  {
    assert (m + multiset{c}) - multiset{c} == m;
    ValueCountsRemove(m + multiset{c}, c);
    IncDec(ValueCounts(m + multiset{c}), BlackjackValue(c));
  }

  /** A collection holding every card n times has 4n cards of each value
      1..9 and 16n tens. */
  lemma ValueCountsOfFull(m: multiset<Card>, n: nat)
    requires forall c :: ValidCard(c) ==> m[c] == n
    ensures ValueCounts(m) == StateArray.DeckCounts(n)
  {
    var a := ValueCounts(m);
    var b := StateArray.DeckCounts(n);
    forall i | 0 <= i < RANKS
      ensures a[i] == b[i]
    {
      assert ValidCard(Card(i + 1, Diamond)) && ValidCard(Card(i + 1, Club));
      assert ValidCard(Card(i + 1, Heart)) && ValidCard(Card(i + 1, Spade));
      if i == 9 {
        assert forall f, s :: 11 <= f <= 13 ==> ValidCard(Card(f, s));
      }
    }
  }

  /** A full shoe of n decks has 4n cards of each value 1..9 and 16n tens. */
  lemma ValueCountsOfNewCards(n: nat)
    ensures ValueCounts(multiset(NewCards(n))) == StateArray.DeckCounts(n)
  {
    forall c | ValidCard(c)
      ensures multiset(NewCards(n))[c] == n
    {
      NewCardsMultiplicity(n, c);
    }
    ValueCountsOfFull(multiset(NewCards(n)), n);
  }

  /** A card of value v is counted by ValueCount, any other card is not. */
  lemma ValueCountSingle(c: Card, v: int)
    requires ValidCard(c) && 1 <= v <= 10
    ensures ValueCount(multiset{c}, v) == if BlackjackValue(c) == v then 1 else 0
  {
    assert c == Card(c.faceValue, c.suit);
    match c.suit {
      case Diamond =>
      case Club =>
      case Heart =>
      case Spade =>
    }
  }

  lemma ValueCountUnion(a: multiset<Card>, b: multiset<Card>, v: int)
    ensures ValueCount(a + b, v) == ValueCount(a, v) + ValueCount(b, v)
  {
  }

  // ---------------------------------------------------------------------
  // The per-encoding counts of `shuffle_with_firsts`
  // ---------------------------------------------------------------------

  /** k copies of c. */
  function Copies(c: Card, k: nat): (m: multiset<Card>)
    ensures |m| == k && m[c] == k && forall d :: d != c ==> m[d] == 0
  {
    multiset{}[c := k]
  }

  /** Per-encoding counts: at most 52 of them, none negative. */
  predicate IsEncodingCounts(counts: seq<int>)
  {
    |counts| <= 52 && forall e :: 0 <= e < |counts| ==> counts[e] >= 0
  }

  /** The cards of the encodings 0..|counts|-1, each as many times as its
      count says. */
  function Rest(counts: seq<int>): multiset<Card>
    requires IsEncodingCounts(counts)
  {
    if counts == [] then multiset{}
    else Rest(counts[..|counts| - 1]) + Copies(CardOf(|counts| - 1), counts[|counts| - 1])
  }

  lemma {:induction false} RestMultiplicity(counts: seq<int>, c: Card)
    requires IsEncodingCounts(counts)
    ensures Rest(counts)[c] == if ValidCard(c) && ToByte(c) < |counts| then counts[ToByte(c)] else 0
  {
    if counts != [] {
      var k := |counts| - 1;
      var d := CardOf(k);
      RestMultiplicity(counts[..k], c);
      assert Rest(counts)[c] == Rest(counts[..k])[c] + Copies(d, counts[k])[c];
      if !ValidCard(c) {
        assert c != d;
      } else if ToByte(c) == k {
        assert c == d by { FromToByte(c); }
      } else if ToByte(c) < k {
        assert c != d;
        assert counts[..k][ToByte(c)] == counts[ToByte(c)];
      } else {
        assert c != d;
      }
    }
  }

  /** Taking a card of encoding b out of the counts takes it out of Rest. */
  lemma RestDecrement(counts: seq<int>, b: int)
    requires IsEncodingCounts(counts) && 0 <= b < |counts| && counts[b] > 0
    ensures IsEncodingCounts(counts[b := counts[b] - 1])
    ensures Rest(counts[b := counts[b] - 1]) + multiset{CardOf(b)} == Rest(counts)
  {
    var counts' := counts[b := counts[b] - 1];
    forall c
      ensures (Rest(counts') + multiset{CardOf(b)})[c] == Rest(counts)[c]
    {
      RestMultiplicity(counts', c);
      RestMultiplicity(counts, c);
      if c == CardOf(b) {
        assert ToByte(c) == b;
      } else if ValidCard(c) {
        assert ToByte(c) != b by { FromToByte(c); }
      }
    }
  }

  /** The counts of a fresh `[number_of_decks; 52]` describe a full shoe. */
  lemma RestOfFull(n: nat, counts: seq<int>)
    requires |counts| == 52 && forall e :: 0 <= e < 52 ==> counts[e] == n
    ensures IsEncodingCounts(counts) && Rest(counts) == multiset(NewCards(n))
  {
    forall c
      ensures Rest(counts)[c] == multiset(NewCards(n))[c]
    {
      RestMultiplicity(counts, c);
      NewCardsMultiplicity(n, c);
    }
  }

  /** With every encoding of value v at count 0, Rest has no card of value v. */
  lemma RestWithoutValue(counts: seq<int>, v: int)
    requires IsEncodingCounts(counts) && |counts| == 52 && 1 <= v <= 10
    requires forall e :: 0 <= e < 52 && BlackjackValue(CardOf(e)) == v ==> counts[e] == 0
    ensures ValueCount(Rest(counts), v) == 0
  {
    RestFaceWithoutValue(counts, v, v);
    if v == 10 {
      RestFaceWithoutValue(counts, v, 11);
      RestFaceWithoutValue(counts, v, 12);
      RestFaceWithoutValue(counts, v, 13);
    }
  }

  lemma RestFaceWithoutValue(counts: seq<int>, v: int, f: int)
    requires IsEncodingCounts(counts) && |counts| == 52 && 1 <= v <= 10 && 1 <= f <= 13
    requires BlackjackValue(Card(f, Diamond)) == v
    requires forall e :: 0 <= e < 52 && BlackjackValue(CardOf(e)) == v ==> counts[e] == 0
    ensures SuitSum(Rest(counts), f) == 0
  {
    RestCardWithoutValue(counts, v, Card(f, Diamond));
    RestCardWithoutValue(counts, v, Card(f, Club));
    RestCardWithoutValue(counts, v, Card(f, Heart));
    RestCardWithoutValue(counts, v, Card(f, Spade));
  }

  lemma RestCardWithoutValue(counts: seq<int>, v: int, c: Card)
    requires IsEncodingCounts(counts) && |counts| == 52 && ValidCard(c) && BlackjackValue(c) == v
    requires forall e :: 0 <= e < 52 && BlackjackValue(CardOf(e)) == v ==> counts[e] == 0
    ensures Rest(counts)[c] == 0
  {
    RestMultiplicity(counts, c);
    FromToByte(c);
    assert CardOf(ToByte(c)) == c;
  }

  /** The encoding of face value f in the suit of index si. */
  function Enc(f: int, si: int): int
  {
    f - 1 + 13 * si
  }

  /** Whether the face value f and suit index si come before face value g and
      suit index sj in the order `find_suitable_card` scans them. */
  predicate ScannedBefore(f: int, si: int, g: int, sj: int)
  {
    f < g || (f == g && si < sj)
  }

  /**
   * `find_suitable_card`: the first encoding with a positive count and the
   * blackjack value v, scanning faces (10 to 13 for v == 10) and, within a
   * face, the suits in order; an error when there is none.
   */
  method FindSuitableCard(counts: seq<int>, v: int) returns (r: Result<int, ()>)
    requires |counts| == 52 && 1 <= v <= 10
    requires forall e :: 0 <= e < 52 ==> counts[e] >= 0
    ensures r.Ok? ==> 0 <= r.value < 52 && counts[r.value] > 0 && BlackjackValue(CardOf(r.value)) == v
    ensures r.Ok? ==> forall f, si :: v <= f && 0 <= si < 4
                        && ScannedBefore(f, si, CardOf(r.value).faceValue, SuitIndex(CardOf(r.value).suit))
                        ==> counts[Enc(f, si)] == 0
    ensures r.Err? ==> forall e :: 0 <= e < 52 && BlackjackValue(CardOf(e)) == v ==> counts[e] == 0
  {
    var lo, hi := if v == 10 then 10 else v, if v == 10 then 13 else v;
    var face := lo;
    while face <= hi
      invariant lo <= face <= hi + 1
      invariant forall f, si :: lo <= f < face && 0 <= si < 4 ==> counts[Enc(f, si)] == 0
    {
      var si := 0;
      while si < 4
        invariant 0 <= si <= 4
        invariant forall f, sj :: lo <= f < face && 0 <= sj < 4 ==> counts[Enc(f, sj)] == 0
        invariant forall sj :: 0 <= sj < si ==> counts[Enc(face, sj)] == 0
      {
        assert SuitIndex(SUITS[si]) == si;
        var card := ToByte(Card(face, SUITS[si]));
        assert card == Enc(face, si);
        if counts[card] > 0 {
          assert CardOf(card) == Card(face, SUITS[si]);
          return Ok(card);
        }
        si := si + 1;
      }
      face := face + 1;
    }
    forall e | 0 <= e < 52 && BlackjackValue(CardOf(e)) == v
      ensures counts[e] == 0
    {
      var c := CardOf(e);
      assert e == Enc(c.faceValue, SuitIndex(c.suit));
    }
    return Err(());
  }

  // ---------------------------------------------------------------------
  // Shuffling with the random draws as a parameter
  // ---------------------------------------------------------------------

  /** The random draws of a Fisher-Yates shuffle of m elements: draw i is the
      index in 0..i that position i is swapped with. */
  predicate ValidDraws(draws: seq<int>, m: int)
  {
    |draws| == m && forall i :: 0 <= i < m ==> 0 <= draws[i] <= i
  }

  function Swap<T>(s: seq<T>, i: int, j: int): (t: seq<T>)
    requires 0 <= i < |s| && 0 <= j < |s|
    ensures |t| == |s| && multiset(t) == multiset(s)
    ensures t[i] == s[j] && t[j] == s[i]
    ensures forall k :: 0 <= k < |s| && k != i && k != j ==> t[k] == s[k]
  {
    s[i := s[j]][j := s[i]]
  }

  /** The slice `shuffle` of the random-number crate: positions k-1 down to
      1 are each swapped with their draw. */
  function ShuffleSteps<T>(s: seq<T>, draws: seq<int>, k: int): seq<T>
    requires ValidDraws(draws, |s|) && 0 <= k <= |s|
    decreases k
  {
    if k <= 1 then s else ShuffleSteps(Swap(s, k - 1, draws[k - 1]), draws, k - 1)
  }

  /** The loop of the slice `shuffle`, from the last position down. */
  method ShuffleSeq<T>(s: seq<T>, draws: seq<int>) returns (t: seq<T>)
    requires ValidDraws(draws, |s|)
    ensures t == ShuffleSteps(s, draws, |s|)
  {
    t := s;
    var k := |t|;
    while k > 1
      invariant 0 <= k <= |t| == |draws|
      invariant ShuffleSteps(t, draws, k) == ShuffleSteps(s, draws, |s|)
    {
      t := Swap(t, k - 1, draws[k - 1]);
      k := k - 1;
    }
  }

  /** A shuffle rearranges the elements and nothing else. */
  lemma {:induction false} ShuffleStepsPermutes<T>(s: seq<T>, draws: seq<int>, k: int)
    requires ValidDraws(draws, |s|) && 0 <= k <= |s|
    ensures |ShuffleSteps(s, draws, k)| == |s|
    ensures multiset(ShuffleSteps(s, draws, k)) == multiset(s)
    decreases k
  {
    if k > 1 {
      ShuffleStepsPermutes(Swap(s, k - 1, draws[k - 1]), draws, k - 1);
    }
  }

  /** The cut card position `(proportion * cards) as usize`: the product
      rounded down, negative products giving 0. */
  function CutCardIndex(proportion: real, n: int): (i: int)
    ensures i >= 0
    ensures proportion * (52 * n) as real < 0.0 ==> i == 0
    ensures proportion * (52 * n) as real >= 0.0
            ==> i as real <= proportion * (52 * n) as real < i as real + 1.0
  {
    var x := proportion * (52 * n) as real;
    if x < 0.0 then 0 else x.Floor
  }

  /** The undealt cards of a shoe: the cards from the cursor on. */
  function Undealt(cards: seq<Card>, currentIndex: int): seq<Card>
    requires currentIndex >= 0
  {
    if currentIndex <= |cards| then cards[currentIndex..] else []
  }

  lemma ValueCountsAreCounts(m: multiset<Card>)
    ensures IsCounts(ValueCounts(m))
  {
    var c := ValueCounts(m);
    forall i | 0 <= i < RANKS
      ensures c[i] >= 0
    {
    }
  }

  /** The counts by value of a sequence of valid cards add up to its length. */
  lemma {:induction false} ValueCountsTotal(cs: seq<Card>)
    requires forall i :: 0 <= i < |cs| ==> ValidCard(cs[i])
    ensures IsCounts(ValueCounts(multiset(cs))) && Total(ValueCounts(multiset(cs))) == |cs|
  {
    ValueCountsAreCounts(multiset(cs));
    if cs == [] {
      TotalTen(ValueCounts(multiset(cs)));
    } else {
      var rest := cs[1..];
      assert multiset(rest) == multiset(cs) - multiset{cs[0]} by {
        assert cs == [cs[0]] + rest;
      }
      ValueCountsTotal(rest);
      ValueCountsRemove(multiset(cs), cs[0]);
      DecValues(ValueCounts(multiset(cs)), BlackjackValue(cs[0]));
    }
  }

  /** Every card of a full shoe is a valid card. */
  lemma InFullShoe(cs: seq<Card>, n: nat, i: int)
    requires multiset(cs) == multiset(NewCards(n)) && 0 <= i < |cs|
    ensures ValidCard(cs[i])
  {
    assert cs[i] in multiset(NewCards(n));
    NewCardsMultiplicity(n, cs[i]);
  }

  /** The counts by value of the cards from position k on, one more of
      each card's value from the last card back. */
  function UndealtCounts(cs: seq<Card>, k: int): (c: seq<int>)
    requires AllValid(cs) && k >= 0
    ensures |c| == RANKS
    decreases |cs| - k
  {
    if k >= |cs| then EMPTY else Inc(UndealtCounts(cs, k + 1), BlackjackValue(cs[k]))
  }

  /** The counts from position k on are the counts by value of the undealt
      cards as a multiset: they do not depend on the order. */
  lemma {:induction false} UndealtCountsIsValueCounts(cs: seq<Card>, k: int)
    requires AllValid(cs) && k >= 0
    ensures UndealtCounts(cs, k) == ValueCounts(multiset(Undealt(cs, k)))
    decreases |cs| - k
  {
    if k >= |cs| {
      ValueCountsOfFull(multiset{}, 0);
      assert StateArray.DeckCounts(0) == EMPTY;
      assert Undealt(cs, k) == [];
    } else {
      UndealtCountsIsValueCounts(cs, k + 1);
      assert Undealt(cs, k) == [cs[k]] + Undealt(cs, k + 1);
      assert multiset(Undealt(cs, k)) == multiset(Undealt(cs, k + 1)) + multiset{cs[k]};
      ValueCountsAdd(multiset(Undealt(cs, k + 1)), cs[k]);
    }
  }

  /** The undealt cards are counted by as many as they are. */
  lemma {:induction false} UndealtCountsTotal(cs: seq<Card>, k: int)
    requires AllValid(cs) && k >= 0
    ensures IsCounts(UndealtCounts(cs, k))
    ensures Total(UndealtCounts(cs, k)) == if k <= |cs| then |cs| - k else 0
    decreases |cs| - k
  {
    if k >= |cs| {
      TotalsOfSingle(1);
    } else {
      UndealtCountsTotal(cs, k + 1);
      IncValues(UndealtCounts(cs, k + 1), BlackjackValue(cs[k]));
    }
  }

  /** A full shoe holds valid cards only, and from the start it is counted
      as n full decks. */
  lemma FullShoe(cs: seq<Card>, n: nat)
    requires multiset(cs) == multiset(NewCards(n))
    ensures AllValid(cs) && UndealtCounts(cs, 0) == StateArray.DeckCounts(n)
  {
    forall i | 0 <= i < |cs|
      ensures ValidCard(cs[i])
    {
      InFullShoe(cs, n, i);
    }
    UndealtCountsIsValueCounts(cs, 0);
    assert Undealt(cs, 0) == cs;
    ValueCountsOfNewCards(n);
  }

  /** The counts still to be placed when the fill of `shuffle_with_firsts`
      has reached encoding e and placed t of its copies. */
  function RemAfter(counts: seq<int>, e: int, t: int): (r: seq<int>)
    requires IsEncodingCounts(counts) && |counts| == 52 && 0 <= e && (e < 52 ==> 0 <= t <= counts[e])
    ensures |r| == 52 && IsEncodingCounts(r)
  {
    seq(52, j requires 0 <= j < 52 => if j < e then 0 else if j == e then counts[e] - t else counts[j])
  }

  /** Finishing encoding e is starting encoding e + 1. */
  lemma RemAfterNext(counts: seq<int>, e: int)
    requires IsEncodingCounts(counts) && |counts| == 52 && 0 <= e < 52
    ensures RemAfter(counts, e, counts[e]) == RemAfter(counts, e + 1, 0)
  {
  }

  /** The card of face value f in the suit of index si has encoding Enc(f, si). */
  lemma EncodingOf(f: int, si: int)
    requires 1 <= f <= 13 && 0 <= si < 4
    ensures ToByte(Card(f, SUITS[si])) == Enc(f, si) && CardOf(Enc(f, si)) == Card(f, SUITS[si])
  {
    assert SuitIndex(SUITS[si]) == si;
    ToByteInjective(CardOf(Enc(f, si)), Card(f, SUITS[si]));
  }

  /** A multiset in which no card occurs is empty. */
  lemma RestOfZeros(counts: seq<int>)
    requires |counts| == 52 && forall j :: 0 <= j < 52 ==> counts[j] == 0
    ensures IsEncodingCounts(counts) && Rest(counts) == multiset{}
  {
    forall c
      ensures Rest(counts)[c] == 0
    {
      RestMultiplicity(counts, c);
    }
  }

  /** The counts by value of cards whose values are listed in vs. */
  lemma {:induction false} ValueCountOfValues(cs: seq<Card>, vs: seq<int>, v: int)
    requires |cs| == |vs| && 1 <= v <= 10
    requires forall j :: 0 <= j < |cs| ==> ValidCard(cs[j]) && BlackjackValue(cs[j]) == vs[j]
    ensures ValueCount(multiset(cs), v) == multiset(vs)[v]
  {
    if cs != [] {
      var k := |cs| - 1;
      assert cs == cs[..k] + [cs[k]] && vs == vs[..k] + [vs[k]];
      ValueCountOfValues(cs[..k], vs[..k], v);
      ValueCountUnion(multiset(cs[..k]), multiset{cs[k]}, v);
      ValueCountSingle(cs[k], v);
    }
  }

  /** Element i occurs in s more often than in the part before it. */
  lemma OccursOnceMore(s: seq<int>, i: int)
    requires 0 <= i < |s|
    ensures multiset(s)[s[i]] >= multiset(s[..i])[s[i]] + 1
  {
    assert s == s[..i] + [s[i]] + s[i + 1..];
  }

  /** A value no encoding supplies any more is requested once more than
      the shoe holds it. */
  lemma Oversupplied(cs: seq<Card>, counts: seq<int>, firsts: seq<int>, idx: int,
                     full: multiset<Card>, supply: seq<int>)
    requires 0 <= idx < |firsts| && idx <= |cs| && 1 <= firsts[idx] <= 10
    requires IsEncodingCounts(counts) && |counts| == 52
    requires multiset(cs[..idx]) + Rest(counts) == full && ValueCounts(full) == supply
    requires forall j :: 0 <= j < idx ==> ValidCard(cs[j]) && BlackjackValue(cs[j]) == firsts[j]
    requires forall e :: 0 <= e < 52 && BlackjackValue(CardOf(e)) == firsts[idx] ==> counts[e] == 0
    ensures !(forall v :: 1 <= v <= 10 ==> multiset(firsts)[v] <= supply[v - 1])
  {
    var v := firsts[idx];
    assert ValueCount(full, v) == multiset(firsts[..idx])[v] by {
      RestWithoutValue(counts, v);
      ValueCountUnion(multiset(cs[..idx]), Rest(counts), v);
      ValueCountOfValues(cs[..idx], firsts[..idx], v);
    }
    OccursOnceMore(firsts, idx);
    assert multiset(firsts)[v] > supply[v - 1];
  }

  /** Values that could all be placed are requested at most as often as the
      shoe holds them. */
  lemma Supplied(cs: seq<Card>, counts: seq<int>, firsts: seq<int>, full: multiset<Card>, supply: seq<int>)
    requires |firsts| <= |cs| && IsEncodingCounts(counts)
    requires multiset(cs[..|firsts|]) + Rest(counts) == full && ValueCounts(full) == supply
    requires forall j :: 0 <= j < |firsts| ==> ValidCard(cs[j]) && BlackjackValue(cs[j]) == firsts[j]
    ensures forall w :: 1 <= w <= 10 ==> multiset(firsts)[w] <= supply[w - 1]
  {
    forall w | 1 <= w <= 10
      ensures multiset(firsts)[w] <= supply[w - 1]
    {
      ValueCountUnion(multiset(cs[..|firsts|]), Rest(counts), w);
      ValueCountOfValues(cs[..|firsts|], firsts, w);
    }
  }

  /** One step of the first half: the card of encoding e, which the counts
      still hold, is written at position idx and counted out. */
  lemma FirstStep(cs: seq<Card>, idx: int, counts: seq<int>, e: int, full: multiset<Card>)
    requires IsEncodingCounts(counts) && 0 <= e < |counts| && counts[e] > 0
    requires 0 <= idx <= |cs| == |full| && multiset(cs[..idx]) + Rest(counts) == full
    ensures idx < |cs| && IsEncodingCounts(counts[e := counts[e] - 1])
    ensures multiset(cs[idx := CardOf(e)][..idx + 1]) + Rest(counts[e := counts[e] - 1]) == full
  {
    RestDecrement(counts, e);
    PlaceOne(cs, idx, CardOf(e), Rest(counts[e := counts[e] - 1]), full);
  }

  /** One step of the second half: a copy of the card of encoding e is
      written at position idx. */
  lemma FillStep(cs: seq<Card>, idx: int, counts: seq<int>, e: int, t: int, full: multiset<Card>, k: int)
    requires IsEncodingCounts(counts) && |counts| == 52 && 0 <= e < 52 && 0 <= t < counts[e]
    requires 0 <= k <= idx <= |cs| == |full| && multiset(cs[..idx]) + Rest(RemAfter(counts, e, t)) == full
    ensures idx < |cs| && cs[idx := CardOf(e)][..k] == cs[..k]
    ensures multiset(cs[idx := CardOf(e)][..idx + 1]) + Rest(RemAfter(counts, e, t + 1)) == full
  {
    var r := RemAfter(counts, e, t);
    assert RemAfter(counts, e, t + 1) == r[e := r[e] - 1];
    FirstStep(cs, idx, r, e, full);
  }

  /** Writing card c at position idx of cs, when the cards before it and
      those still to come (rest + c) make up full, keeps that balance. */
  lemma PlaceOne(cs: seq<Card>, idx: int, c: Card, rest: multiset<Card>, full: multiset<Card>)
    requires 0 <= idx <= |cs| && |full| == |cs|
    requires multiset(cs[..idx]) + rest + multiset{c} == full
    ensures idx < |cs|
    ensures multiset(cs[idx := c][..idx + 1]) + rest == full
  {
    assert |multiset(cs[..idx])| + |rest| + 1 == |full|;
    assert cs[idx := c][..idx + 1] == cs[..idx] + [c];
  }

  /** The innermost loop of the second half of `shuffle_with_firsts`: as
      many copies of the card of encoding e as its count says, from
      position idx on. */
  method PlaceCopies(cs: seq<Card>, idx: int, counts: seq<int>, e: int, k: int, ghost full: multiset<Card>)
      returns (cs': seq<Card>, idx': int)
    requires |counts| == 52 && IsEncodingCounts(counts) && 0 <= e < 52
    requires 0 <= k <= idx <= |cs| == |full|
    requires multiset(cs[..idx]) + Rest(RemAfter(counts, e, 0)) == full
    ensures k <= idx' <= |cs'| == |full| && cs'[..k] == cs[..k]
    ensures multiset(cs'[..idx']) + Rest(RemAfter(counts, e + 1, 0)) == full
  {
    ghost var c := counts;
    cs', idx' := cs, idx;
    var t := 0;
    while t < counts[e]
      invariant 0 <= t <= c[e] == counts[e] && k <= idx' <= |cs'| == |full|
      invariant cs'[..k] == cs[..k]
      invariant multiset(cs'[..idx']) + Rest(RemAfter(c, e, t)) == full
    {
      FillStep(cs', idx', c, e, t, full, k);
      cs' := cs'[idx' := CardOf(e)];
      idx' := idx' + 1;
      t := t + 1;
    }
    assert t == c[e];
    RemAfterNext(c, e);
  }

  /** The deterministic first half of `shuffle_with_firsts`: for each
      requested value, the first card of that value the counts still
      hold. False where one is missing, where `find_suitable_card` panics. */
  method PlaceFirsts(cards: seq<Card>, firsts: seq<int>, counts: seq<int>,
                     ghost full: multiset<Card>, ghost supply: seq<int>)
      returns (ok: bool, cs: seq<Card>, counts': seq<int>)
    requires forall i :: 0 <= i < |firsts| ==> 1 <= firsts[i] <= 10
    requires |counts| == 52 && IsEncodingCounts(counts)
    requires |cards| == |full| && Rest(counts) == full && ValueCounts(full) == supply
    ensures ok <==> forall v :: 1 <= v <= 10 ==> multiset(firsts)[v] <= supply[v - 1]
    ensures ok ==> |firsts| <= |cs| == |full| && |counts'| == 52 && IsEncodingCounts(counts')
    ensures ok ==> multiset(cs[..|firsts|]) + Rest(counts') == full
    ensures ok ==> forall j :: 0 <= j < |firsts| ==> ValidCard(cs[j]) && BlackjackValue(cs[j]) == firsts[j]
  {
    cs := cards;
    counts' := counts;
    var idx := 0;
    while idx < |firsts|
      invariant 0 <= idx <= |firsts| && idx <= |cs| == |full|
      invariant |counts'| == 52 && IsEncodingCounts(counts')
      invariant multiset(cs[..idx]) + Rest(counts') == full
      invariant forall j :: 0 <= j < idx ==> ValidCard(cs[j]) && BlackjackValue(cs[j]) == firsts[j]
    {
      var r := FindSuitableCard(counts', firsts[idx]);
      if r.Err? {
        Oversupplied(cs, counts', firsts, idx, full, supply);
        return false, cs, counts';
      }
      var e := r.value;
      FirstStep(cs, idx, counts', e, full);
      counts' := counts'[e := counts'[e] - 1];
      var card := FromByte(e).value;
      cs := cs[idx := card];
      idx := idx + 1;
    }
    Supplied(cs, counts', firsts, full, supply);
    return true, cs, counts';
  }

  /** The second half of `shuffle_with_firsts`: the cards the counts still
      hold, in encoding order, after the first k. */
  method PlaceRest(cards: seq<Card>, counts: seq<int>, k: int, ghost full: multiset<Card>)
      returns (cs: seq<Card>)
    requires 0 <= k <= |cards| == |full|
    requires |counts| == 52 && IsEncodingCounts(counts)
    requires multiset(cards[..k]) + Rest(counts) == full
    ensures |cs| == |full| && cs[..k] == cards[..k] && multiset(cs) == full
  {
    ghost var c := counts;
    assert RemAfter(c, 0, 0) == c;
    cs := cards;
    var idx := k;
    ghost var pos := 0;
    var si := 0;
    while si < 4
      invariant 0 <= si <= 4 && k <= idx <= |cs| == |full| && pos == 13 * si
      invariant cs[..k] == cards[..k]
      invariant multiset(cs[..idx]) + Rest(RemAfter(c, pos, 0)) == full
    {
      var face := 1;
      while face <= 13
        invariant 1 <= face <= 14 && k <= idx <= |cs| == |full| && pos == Enc(face, si)
        invariant cs[..k] == cards[..k]
        invariant multiset(cs[..idx]) + Rest(RemAfter(c, pos, 0)) == full
      {
        var card := Card(face, SUITS[si]);
        var e := ToByte(card);
        EncodingOf(face, si);
        cs, idx := PlaceCopies(cs, idx, counts, e, k, full);
        pos := pos + 1;
        face := face + 1;
      }
      si := si + 1;
    }
    RestOfZeros(RemAfter(c, pos, 0));
    assert |multiset(cs[..idx])| == |full|;
    assert cs[..idx] == cs;
  }

  /** Two sequences that agree before position |firsts| agree on the
      values there. */
  lemma PrefixValues(a: seq<Card>, b: seq<Card>, firsts: seq<int>)
    requires |firsts| <= |a| && |firsts| <= |b| && a[..|firsts|] == b[..|firsts|]
    requires forall j :: 0 <= j < |firsts| ==> ValidCard(a[j]) && BlackjackValue(a[j]) == firsts[j]
    ensures forall j :: 0 <= j < |firsts| ==> ValidCard(b[j]) && BlackjackValue(b[j]) == firsts[j]
  {
    forall j | 0 <= j < |firsts|
      ensures b[j] == a[j]
    {
      assert a[..|firsts|][j] == b[..|firsts|][j];
    }
  }

  /**
   * A shoe: n decks in dealing order, the cursor past the last dealt card,
   * the cut card position and the counts by value of the undealt cards.
   */
  class Shoe {
    const numberOfDecks: int
    const cutCardIndex: int
    var cards: seq<Card>
    var cardCount: seq<int>
    var currentIndex: int

    /** The shoe holds each card exactly numberOfDecks times, and its counts
        are those of the cards the cursor has not passed. */
    predicate Valid()
      reads this
    {
      0 <= numberOfDecks && numberOfDecks * 16 < 0x100
      && |cards| == 52 * numberOfDecks
      && multiset(cards) == multiset(NewCards(numberOfDecks)) && AllValid(cards)
      && currentIndex >= 0
      && cardCount == UndealtCounts(cards, currentIndex)
    }

    /** `Shoe::new`: n ordered decks, nothing dealt. */
    constructor (numberOfDecks: int, cutCardProportion: real)
      requires 0 <= numberOfDecks && numberOfDecks * 16 < 0x100
      ensures Valid()
      ensures this.numberOfDecks == numberOfDecks
      ensures cutCardIndex == CutCardIndex(cutCardProportion, numberOfDecks)
      ensures cards == NewCards(numberOfDecks) && currentIndex == 0
      ensures cardCount == StateArray.DeckCounts(numberOfDecks)
    {
      var cs: seq<Card> := [];
      var d := 0;
      while d < numberOfDecks
        invariant 0 <= d <= numberOfDecks && cs == NewCards(d)
      {
        ghost var pos := 0;
        var si := 0;
        while si < 4
          invariant 0 <= si <= 4 && pos == 13 * si && cs == NewCards(d) + Deck()[..pos]
        {
          var face := 1;
          while face <= 13
            invariant 1 <= face <= 14 && pos == Enc(face, si) && cs == NewCards(d) + Deck()[..pos]
          {
            var card := Card(face, SUITS[si]);
            EncodingOf(face, si);
            DeckPrefixStep(pos);
            cs := cs + [card];
            pos := pos + 1;
            face := face + 1;
          }
          si := si + 1;
        }
        assert Deck()[..pos] == Deck();
        d := d + 1;
      }
      this.numberOfDecks := numberOfDecks;
      cutCardIndex := CutCardIndex(cutCardProportion, numberOfDecks);
      cards := cs;
      cardCount := StateArray.DeckCounts(numberOfDecks);
      currentIndex := 0;
      new;
      FullShoe(cards, numberOfDecks);
    }

    /** The counts always describe as many cards as are left to deal. */
    lemma CardCountIsUndealt()
      requires Valid()
      ensures IsCounts(cardCount)
      ensures Total(cardCount) == if currentIndex <= |cards| then |cards| - currentIndex else 0
    {
      UndealtCountsTotal(cards, currentIndex);
    }

    /** `deal_card`: the cursor always moves on; past the end there is no
        card, otherwise the card under it is dealt and its value counted out. */
    method DealCard() returns (c: Option<Card>)
      requires Valid()
      modifies this
      ensures Valid()
      ensures cards == old(cards) && currentIndex == old(currentIndex) + 1
      ensures old(ReachedCutCard()) ==> ReachedCutCard()
      ensures old(currentIndex) >= |cards| ==> c == None && cardCount == old(cardCount)
      ensures old(currentIndex) < |cards| ==>
                c == Some(cards[old(currentIndex)]) && ValidCard(c.value)
                && cardCount == Dec(old(cardCount), BlackjackValue(c.value))
    {
      currentIndex := currentIndex + 1;
      if currentIndex > |cards| {
        c := None;
      } else {
        var card := cards[currentIndex - 1];
        IncDec(UndealtCounts(cards, currentIndex), BlackjackValue(card));
        cardCount := Dec(cardCount, BlackjackValue(card));
        c := Some(card);
      }
    }

    /** `reached_cut_card`: the cursor is at or past the cut card, that is,
        when the cut card lies in the shoe, no more cards are left to deal
        than the cards behind it. */
    function ReachedCutCard(): (b: bool)
      requires Valid()
      reads this
      ensures b <==> currentIndex >= cutCardIndex
      ensures 0 <= cutCardIndex <= |cards| ==> (b <==> Total(cardCount) <= |cards| - cutCardIndex)
    {
      UndealtCountsTotal(cards, currentIndex);
      currentIndex >= cutCardIndex
    }

    /** `get_card_count`: the counts of the undealt cards. */
    function GetCardCount(): (c: seq<int>)
      requires Valid()
      reads this
      ensures c == UndealtCounts(cards, currentIndex)
    {
      cardCount
    }

    /** `retry`: the dealt cards go back in their old order. */
    method Retry()
      requires Valid()
      modifies this
      ensures Valid() && cards == old(cards) && currentIndex == 0
      ensures cardCount == StateArray.DeckCounts(numberOfDecks)
    {
      currentIndex := 0;
      cardCount := StateArray.DeckCounts(numberOfDecks);
      FullShoe(cards, numberOfDecks);
    }

    /** Shuffles the cards from position start on, with the given draws. */
    method ShuffleSlice(start: int, draws: seq<int>)
      requires 0 <= start <= |cards| && ValidDraws(draws, |cards| - start)
      modifies this
      ensures cards == old(cards)[..start] + ShuffleSteps(old(cards)[start..], draws, |draws|)
      ensures |cards| == |old(cards)| && cards[..start] == old(cards)[..start]
      ensures multiset(cards) == multiset(old(cards))
      ensures cardCount == old(cardCount) && currentIndex == old(currentIndex)
    {
      ghost var before := cards;
      var slice := ShuffleSeq(cards[start..], draws);
      ShuffleStepsPermutes(before[start..], draws, |draws|);
      assert before == before[..start] + before[start..];
      cards := cards[..start] + slice;
      assert cards[..start] == before[..start];
    }

    /** `shuffle`: every card back in the shoe, the cards from position start
        on shuffled with the given draws. */
    method Shuffle(start: int, draws: seq<int>)
      requires Valid() && 0 <= start <= |cards| && ValidDraws(draws, |cards| - start)
      modifies this
      ensures Valid() && currentIndex == 0
      ensures ReachedCutCard() <==> cutCardIndex <= 0
      ensures cards == old(cards)[..start] + ShuffleSteps(old(cards)[start..], draws, |draws|)
      ensures cardCount == StateArray.DeckCounts(numberOfDecks)
    {
      ghost var before := cards;
      ShuffleSlice(start, draws);
      ShuffleStepsPermutes(before[start..], draws, |draws|);
      assert before == before[..start] + before[start..];
      currentIndex := 0;
      cardCount := StateArray.DeckCounts(numberOfDecks);
      FullShoe(cards, numberOfDecks);
    }
  
    /**
     * `shuffle_with_firsts`: every card back in the shoe, the first cards of
     * the requested blackjack values and the rest shuffled with the given
     * draws. It fails, where `shuffle_with_firsts` panics, exactly when some value is
     * requested more often than the shoe holds it.
     */
    method ShuffleWithFirsts(firsts: seq<int>, draws: seq<int>) returns (ok: bool)
      requires Valid()
      requires forall i :: 0 <= i < |firsts| ==> 1 <= firsts[i] <= 10
      requires |firsts| <= |cards| ==> ValidDraws(draws, |cards| - |firsts|)
      modifies this
      ensures ok <==> forall v :: 1 <= v <= 10
                        ==> multiset(firsts)[v] <= StateArray.DeckCounts(numberOfDecks)[v - 1]
      ensures ok ==> Valid() && currentIndex == 0 && cardCount == StateArray.DeckCounts(numberOfDecks)
      ensures ok ==> |firsts| <= |cards|
                     && forall j :: 0 <= j < |firsts| ==> ValidCard(cards[j]) && BlackjackValue(cards[j]) == firsts[j]
    {
      var counts := seq(52, _ => numberOfDecks);
      currentIndex := 0;
      cardCount := StateArray.DeckCounts(numberOfDecks);
      ghost var full := multiset(NewCards(numberOfDecks));
      RestOfFull(numberOfDecks, counts);
      ValueCountsOfNewCards(numberOfDecks);
      var arranged;
      ok, arranged, counts := PlaceFirsts(cards, firsts, counts, full, StateArray.DeckCounts(numberOfDecks));
      if !ok {
        return;
      }
      var k := |firsts|;
      var filled := PlaceRest(arranged, counts, k, full);
      PrefixValues(arranged, filled, firsts);
      cards := filled;
      ShuffleSlice(k, draws);
      PrefixValues(filled, cards, firsts);
      FullShoe(cards, numberOfDecks);
    }
  }
}
