/**
 * Enumeration of the hand states the expectation engine visits
 * (blackjack/src/calculation/calculation_states.rs). Both enumerations are
 * depth-first walks that add a card to a hand in place, recurse, and take
 * the card back; each visited state is pushed into the bucket its feature
 * selects. The order of the pushes is given by the spec functions
 * HandStates and DealerStates, and the methods are proved to push exactly
 * those states and to leave the hands they walk as they found them.
 */
module CalculationStates {
  import opened HandValue
  import opened StateArray

  /** A player's hand together with the shoe it was drawn from. */
  datatype HandShoePair = HandShoePair(hand: seq<int>, shoe: seq<int>)

  // ---------------------------------------------------------------------
  // Buckets
  // ---------------------------------------------------------------------

  /** Pushing x into bucket `feature`, after growing the outer vector with
      empty buckets until that bucket exists. */
  function PushInto<X>(result: seq<seq<X>>, feature: nat, x: X): (r: seq<seq<X>>)
    ensures |r| == if feature < |result| then |result| else feature + 1
    ensures forall k :: 0 <= k < |r| ==>
              r[k] == (if k < |result| then result[k] else []) + (if k == feature then [x] else [])
    decreases feature + 1 - |result|
  {
    if feature < |result| then result[feature := result[feature] + [x]]
    else PushInto(result + [[]], feature, x)
  }

  /** Pushing every element of xs in turn into the bucket its feature names. */
  function Bucketed<X>(result: seq<seq<X>>, xs: seq<X>, feature: X -> nat): seq<seq<X>>
    decreases |xs|
  {
    if xs == [] then result else Bucketed(PushInto(result, feature(xs[0]), xs[0]), xs[1..], feature)
  }

  /** The elements of xs that belong to bucket k, in order. */
  function InBucket<X>(xs: seq<X>, feature: X -> nat, k: nat): seq<X>
  {
    if xs == [] then []
    else (if feature(xs[0]) == k then [xs[0]] else []) + InBucket(xs[1..], feature, k)
  }

  /** The bucket of a hand-shoe pair is the feature of its hand. */
  function OnHand(feature: seq<int> -> nat): HandShoePair -> nat
  {
    (p: HandShoePair) => feature(p.hand)
  }

  lemma {:induction false} BucketedAppend<X>(result: seq<seq<X>>, a: seq<X>, b: seq<X>, feature: X -> nat)
    ensures Bucketed(result, a + b, feature) == Bucketed(Bucketed(result, a, feature), b, feature)
    decreases |a|
  {
    if a != [] {
      assert (a + b)[0] == a[0] && (a + b)[1..] == a[1..] + b;
      BucketedAppend(PushInto(result, feature(a[0]), a[0]), a[1..], b, feature);
    } else {
      assert a + b == b;
    }
  }

  /** Every element gets a bucket, and no bucket is lost. */
  lemma {:induction false} BucketedLength<X>(result: seq<seq<X>>, xs: seq<X>, feature: X -> nat)
    ensures |Bucketed(result, xs, feature)| >= |result|
    ensures forall i :: 0 <= i < |xs| ==> feature(xs[i]) < |Bucketed(result, xs, feature)|
    decreases |xs|
  {
    if xs != [] {
      var r1 := PushInto(result, feature(xs[0]), xs[0]);
      BucketedLength(r1, xs[1..], feature);
      forall i | 0 <= i < |xs|
        ensures feature(xs[i]) < |Bucketed(result, xs, feature)|
      {
        if i > 0 {
          assert xs[i] == xs[1..][i - 1];
        }
      }
    }
  }

  /** Bucket k holds what it held before, followed by exactly the elements
      whose feature is k, in their order. */
  lemma {:induction false} BucketedAt<X>(result: seq<seq<X>>, xs: seq<X>, feature: X -> nat, k: nat)
    requires k < |Bucketed(result, xs, feature)|
    ensures Bucketed(result, xs, feature)[k] == (if k < |result| then result[k] else []) + InBucket(xs, feature, k)
    decreases |xs|
  {
    if xs != [] {
      var r1 := PushInto(result, feature(xs[0]), xs[0]);
      BucketedAt(r1, xs[1..], feature, k);
      var here := if feature(xs[0]) == k then [xs[0]] else [];
      var old0: seq<X> := if k < |result| then result[k] else [];
      if k < |r1| {
        assert r1[k] == old0 + here;
      } else {
        assert here == [] && old0 == [];
      }
      assert InBucket(xs, feature, k) == here + InBucket(xs[1..], feature, k);
    }
  }

  /**
   * After the pushes, every element has a bucket, and bucket k holds what it
   * held before followed by exactly the elements whose feature is k, in
   * their order.
   */
  lemma BucketedContents<X>(result: seq<seq<X>>, xs: seq<X>, feature: X -> nat)
    ensures |Bucketed(result, xs, feature)| >= |result|
    ensures forall i :: 0 <= i < |xs| ==> feature(xs[i]) < |Bucketed(result, xs, feature)|
    ensures forall k :: 0 <= k < |Bucketed(result, xs, feature)| ==>
              Bucketed(result, xs, feature)[k]
              == (if k < |result| then result[k] else []) + InBucket(xs, feature, k)
  {
    BucketedLength(result, xs, feature);
    forall k | 0 <= k < |Bucketed(result, xs, feature)|
      ensures Bucketed(result, xs, feature)[k]
              == (if k < |result| then result[k] else []) + InBucket(xs, feature, k)
    {
      BucketedAt(result, xs, feature, k);
    }
  }

  /** The push of `gather_hand_count_states_aux`: grow with empty buckets, then push. */
  method Push<X>(result: seq<seq<X>>, feature: nat, x: X) returns (r: seq<seq<X>>)
    ensures r == PushInto(result, feature, x)
  {
    r := result;
    while |r| <= feature
      invariant PushInto(r, feature, x) == PushInto(result, feature, x)
      decreases feature + 1 - |r|
    {
      r := r + [[]];
    }
    r := r[feature := r[feature] + [x]];
  }

  // ---------------------------------------------------------------------
  // Player states
  // ---------------------------------------------------------------------

  /** A hand stops being expanded at a hard sum of 21 or more, or at the
      Charlie number of cards. */
  predicate StopsDrawing(h: seq<int>, charlieNumber: int)
    requires |h| == RANKS
  {
    HardSum(h) >= 21 || Total(h) == charlieNumber
  }

  /**
   * The pairs `gather_hand_count_states_aux` pushes, in order, from hand h
   * and shoe s drawing ranks from `start` on. A hand whose fingerprint is
   * in `recorded` is skipped with everything below it; otherwise it is
   * pushed, and unless it stops drawing, each rank from `start` to 10 left
   * in the shoe is drawn and the walk continues from that rank, so drawn
   * ranks never decrease.
   */
  function HandStates(recorded: set<int>, charlieNumber: int, h: seq<int>, s: seq<int>, start: int)
    : seq<HandShoePair>
    requires IsCounts(h) && IsCounts(s) && 1 <= start <= 11
    decreases Total(s), 1, 0
  {
    if Key(h) in recorded then []
    else [HandShoePair(h, s)]
         + (if StopsDrawing(h, charlieNumber) then [] else HandStatesFrom(recorded, charlieNumber, h, s, start))
  }

  /** The pairs pushed for ranks i..10 of the loop. */
  function HandStatesFrom(recorded: set<int>, charlieNumber: int, h: seq<int>, s: seq<int>, i: int)
    : seq<HandShoePair>
    requires IsCounts(h) && IsCounts(s) && 1 <= i <= 11
    decreases Total(s), 0, 11 - i
  {
    if i > 10 then []
    else if s[i - 1] == 0 then HandStatesFrom(recorded, charlieNumber, h, s, i + 1)
    else
      CountsBounds(s);
      DecValues(s, i);
      HandStates(recorded, charlieNumber, Inc(h, i), Dec(s, i), i)
      + HandStatesFrom(recorded, charlieNumber, h, s, i + 1)
  }

  /**
   * A pushed pair of the walk from (h, s) drawing from rank `start`: its hand
   * and shoe are count vectors whose sum is that of h and s (cards only move
   * from the shoe to the hand), the hand holds every card of h and no more
   * cards of the ranks below `start`.
   */
  predicate Descends(p: HandShoePair, h: seq<int>, s: seq<int>, start: int)
    requires |h| == RANKS && |s| == RANKS && start <= 11
  {
    IsCounts(p.hand) && IsCounts(p.shoe)
    && (forall j :: 0 <= j < RANKS ==> p.hand[j] + p.shoe[j] == h[j] + s[j])
    && (forall j :: 0 <= j < RANKS ==> p.hand[j] >= h[j])
    && (forall j :: 0 <= j < start - 1 ==> p.hand[j] == h[j])
  }

  /** No two pushed pairs hold the same hand. */
  predicate DistinctHands(ps: seq<HandShoePair>)
  {
    forall a, b :: 0 <= a < b < |ps| ==> ps[a].hand != ps[b].hand
  }

  lemma DistinctConcat(a: seq<HandShoePair>, b: seq<HandShoePair>)
    requires DistinctHands(a) && DistinctHands(b)
    requires forall i, j :: 0 <= i < |a| && 0 <= j < |b| ==> a[i].hand != b[j].hand
    ensures DistinctHands(a + b)
  {
    forall x, y | 0 <= x < y < |a + b|
      ensures (a + b)[x].hand != (a + b)[y].hand
    {
      if y < |a| {
      } else if x >= |a| {
        assert (a + b)[x] == b[x - |a|] && (a + b)[y] == b[y - |a|];
      } else {
        assert (a + b)[y] == b[y - |a|];
      }
    }
  }

  /**
   * Every pushed pair descends from the starting state and is not in the
   * record, and no hand is pushed twice: the non-decreasing draw order
   * reaches each multiset of drawn cards along one path only.
   */
  lemma {:induction false} HandStatesShape(recorded: set<int>, charlieNumber: int, h: seq<int>, s: seq<int>,
                                           start: int)
    requires IsCounts(h) && IsCounts(s) && 1 <= start <= 11
    ensures var ps := HandStates(recorded, charlieNumber, h, s, start);
            (forall k :: 0 <= k < |ps| ==> Descends(ps[k], h, s, start) && Key(ps[k].hand) !in recorded)
            && DistinctHands(ps)
    decreases Total(s), 1, 0
  {
    var ps := HandStates(recorded, charlieNumber, h, s, start);
    if Key(h) !in recorded && !StopsDrawing(h, charlieNumber) {
      var rest := HandStatesFrom(recorded, charlieNumber, h, s, start);
      HandStatesFromShape(recorded, charlieNumber, h, s, start);
      assert ps == [HandShoePair(h, s)] + rest;
      DistinctConcat([HandShoePair(h, s)], rest);
    }
  }

  lemma {:induction false} HandStatesFromShape(recorded: set<int>, charlieNumber: int, h: seq<int>, s: seq<int>,
                                               i: int)
    requires IsCounts(h) && IsCounts(s) && 1 <= i <= 11
    ensures var ps := HandStatesFrom(recorded, charlieNumber, h, s, i);
            (forall k :: 0 <= k < |ps| ==> Descends(ps[k], h, s, i) && ps[k].hand != h
                                            && Key(ps[k].hand) !in recorded)
            && DistinctHands(ps)
    decreases Total(s), 0, 11 - i
  {
    if i <= 10 {
      HandStatesFromShape(recorded, charlieNumber, h, s, i + 1);
      var later := HandStatesFrom(recorded, charlieNumber, h, s, i + 1);
      if s[i - 1] != 0 {
        CountsBounds(s);
        DecValues(s, i);
        var h', s' := Inc(h, i), Dec(s, i);
        HandStatesShape(recorded, charlieNumber, h', s', i);
        var child := HandStates(recorded, charlieNumber, h', s', i);
        forall k | 0 <= k < |child|
          ensures Descends(child[k], h, s, i) && child[k].hand != h && child[k].hand[i - 1] > h[i - 1]
        {
          assert Descends(child[k], h', s', i);
          assert child[k].hand[i - 1] >= h'[i - 1];
        }
        forall x, y | 0 <= x < |child| && 0 <= y < |later|
          ensures child[x].hand != later[y].hand
        {
          assert later[y].hand[i - 1] == h[i - 1];
        }
        DistinctConcat(child, later);
        forall k | 0 <= k < |later|
          ensures Descends(later[k], h, s, i)
        {
        }
      }
    }
  }

  /** `gather_hand_count_states`: the walk runs on copies, so the caller's
      hand and shoe are untouched. */
  method GatherHandCountStates<T>(initialHand: CardCount, initialShoe: CardCount, charlieNumber: int,
                                  feature: seq<int> -> nat, record: SingleStateArray<T>)
    returns (r: seq<seq<HandShoePair>>)
    requires initialHand.Valid() && initialShoe.Valid()
    ensures r == Bucketed([], HandStates(record.data.Keys, charlieNumber, initialHand.Counts(),
                                         initialShoe.Counts(), 1), OnHand(feature))
  {
    var hand := initialHand.Clone();
    var shoe := initialShoe.Clone();
    r := GatherHandCountStatesAux(charlieNumber, feature, record, hand, shoe, 1, []);
  }

  method GatherHandCountStatesAux<T>(charlieNumber: int, feature: seq<int> -> nat, record: SingleStateArray<T>,
                                     hand: CardCount, shoe: CardCount, start: int,
                                     result: seq<seq<HandShoePair>>)
    returns (r: seq<seq<HandShoePair>>)
    requires hand.Valid() && shoe.Valid() && Disjoint(hand, shoe) && 1 <= start <= 10
    modifies hand, hand.counts, shoe, shoe.counts
    ensures hand.Valid() && shoe.Valid()
    ensures hand.Counts() == old(hand.Counts()) && shoe.Counts() == old(shoe.Counts())
    ensures r == Bucketed(result, HandStates(record.data.Keys, charlieNumber, old(hand.Counts()),
                                             old(shoe.Counts()), start), OnHand(feature))
    decreases Total(shoe.Counts()), 1
  {
    ghost var h, s, keys := hand.Counts(), shoe.Counts(), record.data.Keys;
    ghost var goal := Bucketed(result, HandStates(keys, charlieNumber, h, s, start), OnHand(feature));
    if record.ContainsState(hand) {
      return result;
    }
    var pair := HandShoePair(hand.counts[..], shoe.counts[..]);
    r := Push(result, feature(pair.hand), pair);
    assert HandStates(keys, charlieNumber, h, s, start)
           == [pair] + (if StopsDrawing(h, charlieNumber) then []
                        else HandStatesFrom(keys, charlieNumber, h, s, start));
    BucketedAppend(result, [pair], if StopsDrawing(h, charlieNumber) then []
                                   else HandStatesFrom(keys, charlieNumber, h, s, start), OnHand(feature));
    if hand.GetSum() >= 21 || hand.GetTotal() == charlieNumber {
      return;
    }
    var i := start;
    while i <= 10
      invariant start <= i <= 11
      invariant hand.Valid() && shoe.Valid() && hand.Counts() == h && shoe.Counts() == s
      invariant Bucketed(r, HandStatesFrom(keys, charlieNumber, h, s, i), OnHand(feature)) == goal
      decreases 11 - i
    {
      if shoe.Count(i) != 0 {
        CountsBounds(s);
        DecValues(s, i);
        ghost var before := r;
        shoe.RemoveCard(i);
        hand.AddCard(i);
        r := GatherHandCountStatesAux(charlieNumber, feature, record, hand, shoe, i, r);
        hand.RemoveCard(i);
        shoe.AddCard(i);
        IncDec(h, i);
        IncDec(s, i);
        BucketedAppend(before, HandStates(keys, charlieNumber, Inc(h, i), Dec(s, i), i),
                       HandStatesFrom(keys, charlieNumber, h, s, i + 1), OnHand(feature));
      }
      i := i + 1;
    }
  }

  // ---------------------------------------------------------------------
  // Dealer states
  // ---------------------------------------------------------------------

  /** The fingerprints marked visited after a walk, and the hands it pushed. */
  datatype Visit = Visit(visited: set<int>, hands: seq<seq<int>>)

  /**
   * What `gather_dealer_count_states_aux` does from hand h: a hand whose
   * fingerprint was visited is skipped; otherwise it is marked and pushed,
   * and unless the dealer must stand on it, a card of each rank 1..10 is
   * added in turn (the dealer's draws are not limited by a shoe).
   */
  function DealerStates(visited: set<int>, hitSoft17: bool, h: seq<int>): Visit
    requires IsCounts(h)
    decreases 30 - HardSum(h), 1, 0
  {
    if Key(h) in visited then Visit(visited, [])
    else if DealerMustStand(h, hitSoft17) then Visit(visited + {Key(h)}, [h])
    else
      var rest := DealerStatesFrom(visited + {Key(h)}, hitSoft17, h, 1);
      Visit(rest.visited, [h] + rest.hands)
  }

  /** The walk over ranks i..10 of the loop, threading the visited marks. */
  function DealerStatesFrom(visited: set<int>, hitSoft17: bool, h: seq<int>, i: int): Visit
    requires IsCounts(h) && 1 <= i <= 11 && !DealerMustStand(h, hitSoft17)
    decreases 30 - HardSum(h), 0, 11 - i
  {
    if i > 10 then Visit(visited, [])
    else
      IncValues(h, i);
      var child := DealerStates(visited, hitSoft17, Inc(h, i));
      var rest := DealerStatesFrom(child.visited, hitSoft17, h, i + 1);
      Visit(rest.visited, child.hands + rest.hands)
  }

  /** The fingerprints of a list of hands. */
  function KeysOf(hs: seq<seq<int>>): set<int>
    requires forall k :: 0 <= k < |hs| ==> |hs[k]| == RANKS
  {
    if hs == [] then {} else {Key(hs[0])} + KeysOf(hs[1..])
  }

  /** No fingerprint occurs twice in the list. */
  predicate DistinctKeys(hs: seq<seq<int>>)
    requires forall k :: 0 <= k < |hs| ==> |hs[k]| == RANKS
  {
    hs == [] || (Key(hs[0]) !in KeysOf(hs[1..]) && DistinctKeys(hs[1..]))
  }

  /** Every hand of the list is a count vector holding every card of h. */
  predicate Extend(hs: seq<seq<int>>, h: seq<int>)
    requires |h| == RANKS
  {
    forall k :: 0 <= k < |hs| ==> IsCounts(hs[k]) && forall j :: 0 <= j < RANKS ==> hs[k][j] >= h[j]
  }

  lemma ExtendConcat(a: seq<seq<int>>, b: seq<seq<int>>, h: seq<int>)
    requires |h| == RANKS && Extend(a, h) && Extend(b, h)
    ensures Extend(a + b, h)
  {
    forall k | 0 <= k < |a + b|
      ensures IsCounts((a + b)[k]) && forall j :: 0 <= j < RANKS ==> (a + b)[k][j] >= h[j]
    {
      if k >= |a| {
        assert (a + b)[k] == b[k - |a|];
      }
    }
  }

  lemma ExtendMore(a: seq<seq<int>>, h': seq<int>, h: seq<int>)
    requires |h| == RANKS && |h'| == RANKS && Extend(a, h')
    requires forall j :: 0 <= j < RANKS ==> h'[j] >= h[j]
    ensures Extend(a, h)
  {
  }

  lemma {:induction false} KeysOfConcat(a: seq<seq<int>>, b: seq<seq<int>>)
    requires forall k :: 0 <= k < |a| ==> |a[k]| == RANKS
    requires forall k :: 0 <= k < |b| ==> |b[k]| == RANKS
    ensures KeysOf(a + b) == KeysOf(a) + KeysOf(b)
    ensures DistinctKeys(a) && DistinctKeys(b) && KeysOf(a) !! KeysOf(b) ==> DistinctKeys(a + b)
    decreases |a|
  {
    if a == [] {
      assert a + b == b;
    } else {
      assert (a + b)[1..] == a[1..] + b;
      KeysOfConcat(a[1..], b);
    }
  }

  /**
   * The walk pushes hands that extend h, whose fingerprints were not yet
   * visited and are pairwise distinct, so no hand is pushed twice; and the
   * marks afterwards are the marks before plus exactly the pushed hands.
   */
  lemma {:induction false} DealerStatesShape(visited: set<int>, hitSoft17: bool, h: seq<int>)
    requires IsCounts(h)
    ensures var r := DealerStates(visited, hitSoft17, h);
            Extend(r.hands, h)
            && r.visited == visited + KeysOf(r.hands)
            && visited !! KeysOf(r.hands) && DistinctKeys(r.hands)
    decreases 30 - HardSum(h), 1, 0
  {
    var r := DealerStates(visited, hitSoft17, h);
    if Key(h) !in visited {
      assert KeysOf([h]) == {Key(h)} by { assert [h][1..] == []; }
      assert Extend([h], h);
      if !DealerMustStand(h, hitSoft17) {
        var rest := DealerStatesFrom(visited + {Key(h)}, hitSoft17, h, 1);
        DealerStatesFromShape(visited + {Key(h)}, hitSoft17, h, 1);
        KeysOfConcat([h], rest.hands);
        ExtendConcat([h], rest.hands, h);
        assert r == Visit(rest.visited, [h] + rest.hands);
      }
    }
  }

  lemma {:induction false} DealerStatesFromShape(visited: set<int>, hitSoft17: bool, h: seq<int>, i: int)
    requires IsCounts(h) && 1 <= i <= 11 && !DealerMustStand(h, hitSoft17)
    ensures var r := DealerStatesFrom(visited, hitSoft17, h, i);
            Extend(r.hands, h)
            && r.visited == visited + KeysOf(r.hands)
            && visited !! KeysOf(r.hands) && DistinctKeys(r.hands)
    decreases 30 - HardSum(h), 0, 11 - i
  {
    if i <= 10 {
      IncValues(h, i);
      var child := DealerStates(visited, hitSoft17, Inc(h, i));
      DealerStatesShape(visited, hitSoft17, Inc(h, i));
      var rest := DealerStatesFrom(child.visited, hitSoft17, h, i + 1);
      DealerStatesFromShape(child.visited, hitSoft17, h, i + 1);
      KeysOfConcat(child.hands, rest.hands);
      ExtendMore(child.hands, Inc(h, i), h);
      ExtendConcat(child.hands, rest.hands, h);
    }
  }

  /** `gather_dealer_count_states`: the walk starts from the empty hand with
      nothing visited. */
  method GatherDealerCountStates(hitSoft17: bool, feature: seq<int> -> nat) returns (r: seq<seq<seq<int>>>)
    ensures r == Bucketed([], DealerStates({}, hitSoft17, EMPTY).hands, feature)
  {
    var cardCount := new CardCount.WithNumberOfDecks(0);
    var isVisited := new SingleStateArray<()>(());
    assert cardCount.Counts() == EMPTY;
    assert isVisited.data.Keys == {};
    r := GatherDealerCountStatesAux(hitSoft17, feature, cardCount, isVisited, []);
  }

  method GatherDealerCountStatesAux(hitSoft17: bool, feature: seq<int> -> nat, hand: CardCount,
                                    isVisited: SingleStateArray<()>, result: seq<seq<seq<int>>>)
    returns (r: seq<seq<seq<int>>>)
    requires hand.Valid()
    modifies hand, hand.counts, isVisited
    ensures hand.Valid() && hand.Counts() == old(hand.Counts())
    ensures var v := DealerStates(old(isVisited.data).Keys, hitSoft17, old(hand.Counts()));
            isVisited.data.Keys == v.visited && r == Bucketed(result, v.hands, feature)
    decreases 30 - HardSum(hand.Counts())
  {
    ghost var h, visited0 := hand.Counts(), isVisited.data.Keys;
    ghost var goal := DealerStates(visited0, hitSoft17, h);
    if isVisited.ContainsState(hand) {
      return result;
    }
    isVisited.Set(hand, ());
    assert isVisited.data.Keys == visited0 + {Key(h)};
    var card := hand.counts[..];
    r := Push(result, feature(card), card);
    if DealerMustStand(card, hitSoft17) {
      return;
    }
    assert goal.hands == [h] + DealerStatesFrom(visited0 + {Key(h)}, hitSoft17, h, 1).hands;
    BucketedAppend(result, [h], DealerStatesFrom(visited0 + {Key(h)}, hitSoft17, h, 1).hands, feature);
    var i := 1;
    while i <= 10
      invariant 1 <= i <= 11
      invariant hand.Valid() && hand.Counts() == h
      invariant DealerStatesFrom(isVisited.data.Keys, hitSoft17, h, i).visited == goal.visited
      invariant Bucketed(r, DealerStatesFrom(isVisited.data.Keys, hitSoft17, h, i).hands, feature)
                == Bucketed(result, goal.hands, feature)
      decreases 11 - i
    {
      ghost var before, marks := r, isVisited.data.Keys;
      IncValues(h, i);
      hand.AddCard(i);
      r := GatherDealerCountStatesAux(hitSoft17, feature, hand, isVisited, r);
      hand.RemoveCard(i);
      IncDec(h, i);
      ghost var child := DealerStates(marks, hitSoft17, Inc(h, i));
      BucketedAppend(before, child.hands, DealerStatesFrom(child.visited, hitSoft17, h, i + 1).hands, feature);
      i := i + 1;
    }
  }
}
