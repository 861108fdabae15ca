# A verified model of a blackjack expectation solver and table simulator

The repository computes the player's mathematical expectation in blackjack for every decision (stand, hit, double, surrender, split) and for the bet as a whole. It works from the exact composition of the shoe, and it also contains a table simulator that deals real hands under configurable rules. This project models its core in Dafny and proves what each part promises.

- **Card counts and memo tables** (`StateArray`, `LegacyStateArray`, `Fingerprint`, `HandValue`): a hand or shoe is the number of cards of each of the ten ranks. Every count keeps an incrementally updated fingerprint, hard sum and card total. The fingerprint is proved to equal its from-scratch value after every add, remove, `+=` and `-=`. Memo tables are maps keyed by that fingerprint. The older container of `src/statearray.rs` (a Horner hash modulo 1000000007) is modelled beside it.
- **The expectation solver** (`Expectations`, `CardProbability`, `CalculationStates`, `StandOdds`, `StandHitEx`, `StandHitPasses`, `SplitEx`, `Betting`, `BettingPhase`): the dealer's outcome odds given the hole-card exclusion after a peek, and the player's memoised recursion over hit and stand. It also covers the bucketed sequential form of the multithreaded pass, the split recursions, and the betting-phase enumeration of every up card and two-card hand. Each recursion over the shoe is a method on the mutable counts and tables, proved to end in the value of a specification function. The properties of those functions are lemmas.
- **The second-generation solver** (`DealerProbability`, `DealerEx`, `PlayerPlay`): per-shoe dealer tables held in a memory pool, and the player's gathering of every shoe left after standing.
- **The earlier solver** (`LegacyCalculation`): the saturated falling-factorial table and the earlier player and dealer recursions of `src/calculation.rs`.
- **Strategy and simulation** (`Strategy`, `Cards`, `Shoes`, `Hands`, `Simulation`, `SimulatorDriver`): the hard-coded basic-strategy charts, the card encoding, the shoe with its cut card and first-card placement, and the player's hand groups. The simulator's phase machine covers seating, bets, dealing, the peek, splits, decisions, the dealer's draw and settlement. The driver's bankroll statistics are modelled too.

Expectations and probabilities are exact reals. Minus infinity, which the code uses for "not available", is the extended real `NegInf`. Integer widths are modelled where they matter: the u32 arithmetic of bets and settlements, the u8 product of `with_number_of_decks`, the 64-bit and 128-bit fingerprint accumulators, the 2^110 saturation of the factorial table, and the i32 cast of the statistics. The per-rank counts of both card containers are unbounded (see "## Left out"). A Rust panic that some caller can reach is a `None` or `Panic` result, or a `false` success flag. A panic that every caller rules out is a precondition of the function that would panic:

- removing a card of a rank whose count is 0 (`StateArray.CardCount.RemoveCard`, `StateArray.CardCount.SubAssign`, `LegacyStateArray.CardCount.RemoveCard`);
- popping the last card of an empty group (`Hands.Hand.SplitGroup`);
- doubling a bet past u32 (`Hands.Hand.DoubleDown`; its simulator caller `Simulation.DoubleInto` reports that case as a failure);
- shuffling from a position past the end (`Shoes.Shoe.Shuffle`);
- the value or encoding of a card whose face is outside 1..13 (`Cards.BlackjackValue`, `Cards.ToByte`);
- zero worker threads (`StandHitPasses.MultithreadingCalculateStandHitExpectation`).

## Model

| member | source | states |
|---|---|---|
| `Rules.InitialSituationPanic` | blackjack/src/lib.rs:52-64 | the up card is checked first and must lie in 1..10, then both hand cards must lie in 1..10; a card of 0 is refused although the message names [0, 10]; no panic exactly when all three cards are in range |
| `Rules.InitialSituation.constructor` | blackjack/src/lib.rs:52-64 | a situation is built only from cards that pass the panic checks and stores the shoe, the two hand cards and the up card unchanged |
| `ExtReals.Max` | blackjack/src/calculation.rs:48-59 | the larger of two expectations, keeping the first on a tie, as the strict `<` comparisons do |
| `Expectations.ScanIsFirstMax` | blackjack/src/calculation.rs:48-59 | the strict-improvement scan returns the value and decision of the first maximum of its candidates |
| `Expectations.MaxStandHitSurrender` | blackjack/src/calculation.rs:31-62 | the result is missing (the panic of indexing an absent state) exactly when the hand is neither bust nor at the Charlie number and its state is not in the table |
| `Expectations.TerminalIgnoresTable` | blackjack/src/calculation.rs:36-41 | the bust and Charlie answers are the same for every table |
| `Expectations.MaxStandHitSurrenderIsFirstMax` | blackjack/src/calculation.rs:43-61 | outside the terminal cases the result is the first maximum of (-0.5 Surrender when late surrender is allowed, else minus infinity PlaceHolder), stand, hit, in that order; ties keep the earlier decision |
| `Expectations.EvaluatedMaxIsFinite` | blackjack/src/calculation.rs:31-62 | when the hand's entry has a finite stand or hit value, the best value returned is finite |
| `HandValue.IncValues` | blackjack/src/statearray.rs:156-166 | adding a card of value v adds one card to the total and v points to the hard sum |
| `HandValue.DecValues` | blackjack/src/statearray.rs:168-175 | removing a card of value v removes one card and v points |
| `HandValue.NaturalIsAceAndTen` | blackjack/src/statearray.rs:193-195 | a two-card hand is a natural exactly when it is one ace and one ten-valued card, and it is then worth 21 |
| `HandValue.ActualSumIsBestTotal` | blackjack/src/statearray.rs:197-203 | the actual sum (one ace counted 11 when that does not bust) is the best total not above 21 reachable by counting aces as 1 or 11, and the hard sum when every total busts |
| `HandValue.DealerMustStand` | blackjack/src/calculation/calculation_states.rs:125-139 | the dealer stands above 17, draws below 17, and on 17 stands unless the hand holds an ace and the table hits soft 17 |
| `Cards.SuitIndex` | blackjack/src/simulation.rs:15-21 | each suit's discriminant is its position 0..3 in the order Diamond, Club, Heart, Spade |
| `Cards.BlackjackValue` | blackjack/src/simulation.rs:12-12 | a card counts its face value up to 10 and 10 for J, Q and K |
| `Cards.ToByte` | blackjack/src/simulation.rs:73-77 | the encoding lies in 0..51 with the suit as quotient by 13 and face value minus one as remainder |
| `Cards.FromByte` | blackjack/src/simulation.rs:79-100 | decoding succeeds exactly for bytes below 52 and then yields a valid card |
| `Cards.CardOf` | blackjack/src/simulation.rs:82-98 | the card decoded from 0..51 is valid and encodes back to the same byte |
| `Cards.FromToByte` | blackjack/src/simulation.rs:73-100 | decoding the encoding of a card gives the card back |
| `Cards.ToFromByte` | blackjack/src/simulation.rs:73-100 | encoding the card decoded from a byte below 52 gives the byte back |
| `Cards.ToByteInjective` | blackjack/src/simulation.rs:73-77 | distinct cards have distinct encodings |
| `Cards.Display` | blackjack/src/simulation.rs:45-71 | a card displays as its suit letter then its face letter, and panics exactly for a face value outside 1..13 |
| `Cards.DisplayInjective` | blackjack/src/simulation.rs:45-71 | distinct valid cards display differently |
| `Fingerprint.HornerIsPoly` | blackjack/src/statearray.rs:316-324 | Horner evaluation with reduction at every step equals the exact polynomial of the counts reduced once |
| `Fingerprint.DotPowIsPoly` | blackjack/src/statearray.rs:217-228 | the sum of counts times the reduced powers of the base is congruent to the exact polynomial |
| `Fingerprint.HornerIsHash` | blackjack/src/statearray.rs:326-335 | the fingerprint the containers keep equals Horner evaluation of the counts from the highest slot down |
| `Fingerprint.ModDotIncrement` | blackjack/src/statearray.rs:156-166 | adding one card of slot k moves the reduced fingerprint by that slot's power |
| `Fingerprint.ModDotDecrement` | blackjack/src/statearray.rs:168-175 | removing one card of slot k moves it back, computed with the added modulus as the unsigned arithmetic does |
| `Fingerprint.ModDotAdd` | blackjack/src/statearray.rs:242-252 | the reduced fingerprint of a pointwise sum of counts is the reduced sum of the two fingerprints |
| `Fingerprint.ModDotSub` | blackjack/src/statearray.rs:230-240 | the reduced fingerprint of a pointwise difference is the difference of the fingerprints plus the modulus, reduced |
| `Fingerprint.IncrementChangesModDot` | blackjack/src/statearray.rs:156-166 | when a slot's power is not a multiple of the modulus, adding a card of that slot always changes the fingerprint |
| `Fingerprint.PowersOfBase` | blackjack/src/statearray.rs:9-21 | the table filled front to back holds base^j reduced modulo the modulus at every index j, starting from 1 |
| `StateArray.PowBaseValues` | blackjack/src/statearray.rs:5-21 | the constant table is base 211 raised to 0..9, each reduced modulo the 62-bit prime |
| `StateArray.GetPowersOfBase` | blackjack/src/statearray.rs:9-21 | the loop that fills the table from ret[0] = 1 produces exactly the constant table |
| `StateArray.KeyIsHash` | blackjack/src/statearray.rs:316-335 | the key kept for a count vector equals Horner evaluation of the counts, the reference the hash test compares against |
| `StateArray.KeyChangesOnAdd` | blackjack/src/statearray.rs:156-166 | adding a card always changes the key, so a parent and its child never share a table entry |
| `StateArray.PropagateNoOverflow` | blackjack/src/statearray.rs:217-228 | with 16-bit counts the unreduced accumulation fits in 128 bits |
| `StateArray.DeckCountsValues` | blackjack/src/statearray.rs:147-151 | a full shoe of n decks holds 52n cards worth 340n points |
| `StateArray.CardCount.constructor` | blackjack/src/statearray.rs:134-145 | a new container holds the given counts with fingerprint, hard sum and total equal to their values computed from the counts |
| `StateArray.CardCount.Clone` | blackjack/src/statearray.rs:123-123 | a clone is a fresh container with the same counts and valid caches |
| `StateArray.CardCount.PropagateCounts` | blackjack/src/statearray.rs:217-228 | recomputing the caches from the counts leaves them equal to the fingerprint, hard sum and total of the counts |
| `StateArray.CardCount.AddCard` | blackjack/src/statearray.rs:156-166 | one more card of value v; every cache stays equal to its value computed from the new counts |
| `StateArray.CardCount.RemoveCard` | blackjack/src/statearray.rs:168-175 | one card of value v fewer; the fingerprint is moved back with the added modulus and every cache stays valid |
| `StateArray.CardCount.GetSum` | blackjack/src/statearray.rs:177-179 | the cached sum is the hard sum of the counts, aces as 1 |
| `StateArray.CardCount.GetTotal` | blackjack/src/statearray.rs:181-183 | the cached total is the number of cards |
| `StateArray.CardCount.Count` | blackjack/src/statearray.rs:254-259 | indexing by card value v reads the count of slot v - 1 |
| `StateArray.CardCount.Bust` | blackjack/src/statearray.rs:189-191 | a hand is bust exactly when its hard sum exceeds 21 |
| `StateArray.CardCount.IsNatural` | blackjack/src/statearray.rs:193-195 | a hand is natural exactly when it is two cards, one ace and one ten |
| `StateArray.CardCount.GetActualSum` | blackjack/src/statearray.rs:197-203 | the actual sum equals the best total of the counts (see `HandValue.ActualSumIsBestTotal`) |
| `StateArray.CardCount.FastAddAssign` | blackjack/src/statearray.rs:205-209 | only the fingerprint moves, to the fingerprint of the pointwise sum of the two count vectors |
| `StateArray.CardCount.FastSubAssign` | blackjack/src/statearray.rs:211-215 | only the fingerprint moves, to the fingerprint of the pointwise difference |
| `StateArray.CardCount.AddAssign` | blackjack/src/statearray.rs:242-252 | `+=` adds the counts pointwise and keeps every cache valid |
| `StateArray.CardCount.SubAssign` | blackjack/src/statearray.rs:230-240 | `-=` subtracts the counts pointwise when none goes negative and keeps every cache valid |
| `StateArray.CardCount.Equals` | blackjack/src/statearray.rs:267-271 | equality compares fingerprints, so containers with equal counts are always equal |
| `StateArray.SingleStateArray.constructor` | blackjack/src/statearray.rs:30-34 | a new table is empty |
| `StateArray.SingleStateArray.Clear` | blackjack/src/statearray.rs:42-44 | clearing empties the table |
| `StateArray.SingleStateArray.ContainsState` | blackjack/src/statearray.rs:46-48 | a state is contained exactly when its fingerprint is a key of the table |
| `StateArray.SingleStateArray.Index` | blackjack/src/statearray.rs:55-60 | reading returns the entry stored under the state's fingerprint, which must be present |
| `StateArray.SingleStateArray.IndexMut` | blackjack/src/statearray.rs:62-71 | mutable access inserts the default value when the fingerprint is missing, changes nothing otherwise, and yields the stored entry |
| `StateArray.SingleStateArray.Set` | blackjack/src/statearray.rs:62-71 | writing through mutable access stores the value under the state's fingerprint and leaves every other entry |
| `StateArray.Tag` | blackjack/src/statearray.rs:274-279 | each hand state's discriminant is one of 0..3 |
| `StateArray.TagInjective` | blackjack/src/statearray.rs:274-279 | distinct hand states have distinct discriminants |
| `StateArray.OrIsSum` | blackjack/src/statearray.rs:293-297 | the bitwise or of the three shifted fields is their sum, because the fields do not overlap |
| `StateArray.PackFields` | blackjack/src/statearray.rs:293-297 | the first fingerprint, the state and the second fingerprint can each be read back from the packed key |
| `StateArray.PackInjective` | blackjack/src/statearray.rs:293-297 | distinct (hand, state, hand) triples get distinct packed keys |
| `StateArray.NewDoubleIndex` | blackjack/src/statearray.rs:292-299 | the key of a pair of hands holds the first fingerprint in bits 0..61, the state in bits 62..63 and the second fingerprint from bit 64 |
| `StateArray.DoubleStateArray.constructor` | blackjack/src/statearray.rs:80-84 | a new table is empty |
| `StateArray.DoubleStateArray.Clear` | blackjack/src/statearray.rs:92-94 | clearing empties the table |
| `StateArray.DoubleStateArray.IndexMut` | blackjack/src/statearray.rs:112-121 | mutable access inserts the default value under a missing key and yields the stored entry |
| `StateArray.DoubleStateArray.Set` | blackjack/src/statearray.rs:112-121 | writing stores the value under the packed key and leaves every other entry |
| `StateArray.CardCount.WithNumberOfDecks` | blackjack/src/statearray.rs:147-151 | a full shoe of n decks: four of each rank and sixteen ten-valued cards per deck, 52n cards, with every cached value consistent |
| `LegacyStateArray.PowBaseValues` | src/statearray.rs:5-21 | the constant table is base 211 raised to 0..9, each reduced modulo 1000000007 |
| `LegacyStateArray.KeyIsHorner` | src/statearray.rs:131-150 | the key kept for a count vector equals Horner evaluation of the counts, the reference the hash test compares against |
| `LegacyStateArray.GetPowersOfBase` | src/statearray.rs:9-21 | the loop that fills the table from ret[0] = 1 produces exactly the constant table |
| `LegacyStateArray.PropagateNoOverflow` | src/statearray.rs:93-99 | with 8-bit counts the unreduced accumulation fits the 64-bit accumulator |
| `LegacyStateArray.KeyChangesOnAdd` | src/statearray.rs:77-81 | adding a card always changes the key |
| `LegacyStateArray.CardCount.constructor` | src/statearray.rs:63-72 | a new container holds the given counts and the fingerprint computed from them |
| `LegacyStateArray.CardCount.PropagateHash` | src/statearray.rs:93-99 | recomputing the fingerprint from the counts leaves it equal to the key of the counts |
| `LegacyStateArray.CardCount.AddCard` | src/statearray.rs:74-81 | one more card of value v, with the fingerprint moved by that slot's power and still equal to the key of the new counts |
| `LegacyStateArray.CardCount.RemoveCard` | src/statearray.rs:83-91 | one card of value v fewer, the fingerprint moved back with the added modulus and still valid |
| `LegacyStateArray.CardCount.Count` | src/statearray.rs:102-107 | indexing by card value v reads the count of slot v - 1 |
| `LegacyStateArray.StateArray.constructor` | src/statearray.rs:30-34 | a new table is empty |
| `LegacyStateArray.StateArray.Index` | src/statearray.rs:37-42 | reading returns the entry under the state's fingerprint, which must be present |
| `LegacyStateArray.StateArray.IndexMut` | src/statearray.rs:44-52 | mutable access inserts the default value under a missing fingerprint and yields the stored entry |
| `LegacyStateArray.StateArray.Set` | src/statearray.rs:44-52 | writing stores the value under the state's fingerprint and leaves every other entry |
| `LegacyStateArray.StateArray.ContainsState` | src/calculation.rs:118-120 | the earlier table reports a hand as present exactly when an entry is stored under its fingerprint |
| `CardProbability.GetImpossibleDealerHoleCard` | blackjack/src/calculation2/util.rs:31-44 | the ruled-out hole card is 10 exactly when the up card is an ace and the policy peeks, 1 exactly when the up card is a ten and the policy peeks at aces and tens, and 0 otherwise |
| `CardProbability.CopiesAgree` | blackjack/src/calculation.rs:190-209 | the copy without the early return and with the 16-bit wrapping decrement gives the same probability as the utility version on every shoe of 16-bit counts |
| `CardProbability.CopyOfAbsent` | blackjack/src/calculation.rs:190-209 | the copy gives a non-zero probability only for a value with a card left |
| `CardProbability.ProbabilityCases` | blackjack/src/calculation2/util.rs:3-29 | an absent value has probability 0; with nothing ruled out the probability is count over total; for the ruled-out value itself it is count over total minus one |
| `CardProbability.ClosedForm` | blackjack/src/calculation2/util.rs:16-28 | with a ruled-out hole value r, a value t other than r of count n has probability (n b - n) / (a b) with a = total - 1 and b = total - count of r; r itself has probability count / a |
| `CardProbability.ProbabilitiesSumToOneExcluding` | blackjack/src/calculation2/util.rs:3-29 | with a ruled-out hole value, the ten probabilities add up to one when the shoe holds more than one card and some card of another value |
| `CardProbability.ProbabilitiesSumToOne` | blackjack/src/calculation2/util.rs:3-14 | with nothing ruled out, the ten probabilities of a non-empty shoe add up to one |
| `CardProbability.ProbabilityNonNegative` | blackjack/src/calculation2/util.rs:3-29 | every probability is at least 0, and strictly positive for a present value when nothing is ruled out |
| `CalculationStates.PushInto` | blackjack/src/calculation/calculation_states.rs:48-55 | after the outer vector is grown with empty buckets until bucket `feature` exists, that bucket gains x at its end and every other bucket is unchanged |
| `CalculationStates.BucketedContents` | blackjack/src/calculation/calculation_states.rs:48-55 | after a sequence of pushes every element has a bucket, and bucket k holds its earlier contents followed by exactly the elements whose feature is k, in order |
| `CalculationStates.Push` | blackjack/src/calculation/calculation_states.rs:48-55 | the grow-then-push loop computes `PushInto` |
| `CalculationStates.HandStatesShape` | blackjack/src/calculation/calculation_states.rs:34-82 | every pair the walk pushes moves cards from the shoe into the hand only, keeps every card of the starting hand, is not in the record, and no hand is pushed twice, because drawn ranks never decrease |
| `CalculationStates.HandStatesFromShape` | blackjack/src/calculation/calculation_states.rs:65-81 | the pairs pushed by the rank loop from rank i on are proper descendants of the hand, outside the record and pairwise distinct |
| `CalculationStates.GatherHandCountStates` | blackjack/src/calculation/calculation_states.rs:9-32 | the buckets returned are the walk's pushed pairs from the initial hand and shoe, bucketed by the feature of the hand, and the caller's hand and shoe are untouched because the walk runs on clones |
| `CalculationStates.GatherHandCountStatesAux` | blackjack/src/calculation/calculation_states.rs:34-82 | skipping a recorded hand, pushing it, stopping at a hard sum of 21 or the Charlie number, and otherwise drawing each rank from `loop_start_card` on that is left in the shoe produces exactly the walk's pairs, and the hand and shoe are restored |
| `CalculationStates.DealerStatesShape` | blackjack/src/calculation/calculation_states.rs:104-156 | the dealer walk pushes hands that extend the start hand, that were not yet visited and are pairwise distinct, and the visited set afterwards is the set before plus exactly the pushed hands |
| `CalculationStates.DealerStatesFromShape` | blackjack/src/calculation/calculation_states.rs:145-155 | the same for the hands pushed by the dealer's rank loop from rank i on |
| `CalculationStates.GatherDealerCountStates` | blackjack/src/calculation/calculation_states.rs:84-102 | the buckets returned are the dealer walk's hands from the empty hand with nothing visited, bucketed by feature |
| `CalculationStates.GatherDealerCountStatesAux` | blackjack/src/calculation/calculation_states.rs:104-156 | skipping a visited hand, marking and pushing it, stopping where the dealer must stand and otherwise drawing every rank 1..10 produces exactly the dealer walk, marks exactly its hands, and restores the hand |
| `StandOdds.DealerEndingMeaning` | blackjack/src/calculation/stand_odds.rs:39-72 | on the dealer's full hand d (extra hand plus up card) the case split ends in a bust exactly when d busts, in a natural exactly when d is a natural, and in a normal end exactly when the dealer stands on d, then on d's best value |
| `StandOdds.ValidTotal` | blackjack/src/calculation/stand_odds.rs:75-84 | the shoe total less the count of the rank excluded from the draw range is the number of cards of the drawable ranks |
| `StandOdds.WeightsSumToOne` | blackjack/src/calculation/stand_odds.rs:84-111 | the draw weights count/valid-total over the drawable ranks add up to one |
| `StandOdds.DealerGetCardsKeys` | blackjack/src/calculation/stand_odds.rs:19-112 | the recursion only adds entries, and when it does not panic the shoe's key is present afterwards |
| `StandOdds.DealerDrawsKeys` | blackjack/src/calculation/stand_odds.rs:86-111 | the draw loop only adds entries |
| `StandOdds.MemoizationDealerGetCards` | blackjack/src/calculation/stand_odds.rs:19-112 | the in-place recursion, with its memo check and default insert keyed by the shoe and its writes keyed by the extra hand, fails exactly when reading a child's entry would panic, otherwise leaves the table the recursion defines and restores the shoe and the extra hand |
| `StandOdds.DealerDrawLoop` | blackjack/src/calculation/stand_odds.rs:86-111 | the rank loop of the hit branch adds each drawable child's entry weighted by count over valid total to the extra hand's entry, as the recursion defines, and restores both containers |
| `StandOdds.DealerDrawCard` | blackjack/src/calculation/stand_odds.rs:91-110 | one drawn rank: remove from the shoe, add to the hand, recurse, read the child's entry, undo, and add it with weight p |
| `StandOdds.ByHandNeverPanics` | blackjack/src/calculation/stand_odds.rs:34-37 | with the memo check keyed by the extra hand like the writes, every read of a child's entry succeeds and the extra hand's entry is present afterwards |
| `StandOdds.DrawsByHandNeverPanic` | blackjack/src/calculation/stand_odds.rs:86-111 | the draw loop keyed by the extra hand never panics and only adds entries |
| `StandOdds.MemoizationDealerGetCardsByHand` | blackjack/src/calculation/stand_odds.rs:19-112 | the corrected in-place recursion always completes with the table the hand-keyed recursion defines and restores both containers |
| `StandOdds.DealerDrawLoopByHand` | blackjack/src/calculation/stand_odds.rs:86-111 | the hand-keyed rank loop computes the hand-keyed draw recursion and restores both containers |
| `StandOdds.DealerDrawCardByHand` | blackjack/src/calculation/stand_odds.rs:91-110 | one drawn rank of the hand-keyed loop |
| `StandOdds.RootByHand` | blackjack/src/calculation/stand_odds.rs:34-37 | up card 10 and a shoe of one 7 and one 8: keyed by the extra hand the root's expected dealer total is 17.5 |
| `StandOdds.RootShared` | blackjack/src/calculation/stand_odds.rs:34-37 | the same situation as written: the second child finds its shoe's key taken by the first child's extra hand and the root reads 8.5 |
| `StandHitEx.StandHitFacts` | blackjack/src/calculation/stand_hit_ex.rs:149-250 | the recursion never panics, only adds entries, leaves every entry it finds alone, and records the hand; a new bust hand stands at -1, a new hand at the Charlie number stands at 1, and a new 21 stands at its payoff |
| `StandHitEx.HitLoopFacts` | blackjack/src/calculation/stand_hit_ex.rs:209-234 | the hit loop never panics, only adds entries, changes no other recorded entry and keeps the hand's stand value |
| `StandHitEx.StandHitEvaluated` | blackjack/src/calculation/stand_hit_ex.rs:203-234 | over a table of evaluated entries every entry afterwards is evaluated, and a new hand that is neither bust, at the Charlie number nor at 21 gets a finite hit value |
| `StandHitEx.HitLoopEvaluated` | blackjack/src/calculation/stand_hit_ex.rs:209-234 | the hit loop keeps every entry evaluated and the hand's hit value finite |
| `StandHitEx.HitLoopEquation` | blackjack/src/calculation/stand_hit_ex.rs:209-234 | after the loop from rank i the hand's hit value is its starting value plus the probability-weighted best values of the children over the final table |
| `StandHitEx.StandHitEquation` | blackjack/src/calculation/stand_hit_ex.rs:203-249 | for a new hand that is neither bust, at the Charlie number nor at 21, the hit value left is the law of total expectation over the children's best values and the stand value is win minus lose, or minus infinity for a sum of at most 11 with other than three cards |
| `StandHitEx.MemoizationCalculateStandHitExpectation` | blackjack/src/calculation/stand_hit_ex.rs:149-250 | the in-place recursion leaves the table the recursion defines, which exists for every input, and restores the shoe and the hand |
| `StandHitEx.HitCards` | blackjack/src/calculation/stand_hit_ex.rs:209-234 | the in-place hit loop computes the recursion's hit loop and restores both containers |
| `StandHitEx.HitCard` | blackjack/src/calculation/stand_hit_ex.rs:210-233 | one drawn rank: recurse on the child, read its best value, undo the draw and add p times that value to the hand's hit value |
| `StandHitPasses.ClassifyListTable` | blackjack/src/calculation/stand_hit_ex.rs:36-80 | over pairs with distinct hands the classification writes exactly the pairs' keys, each with the entry its hand calls for (bust -1, Charlie 1, a sum of at most 11 without three cards hit only, 21 stand only, else both), and leaves every other entry alone |
| `StandHitPasses.ClassifyListSlots` | blackjack/src/calculation/stand_hit_ex.rs:77-78 | every pair that needs the dealer's odds is dealt to exactly one worker slot and no other pair is: the slots gain exactly the dealt pairs and the count grows by their number |
| `StandHitPasses.EmptySlots` | blackjack/src/calculation/stand_hit_ex.rs:31-34 | `number_of_threads` empty slots |
| `StandHitPasses.ClassifyListBalanced` | blackjack/src/calculation/stand_hit_ex.rs:77-78 | dealing pair c to slot c mod n keeps the slots balanced: slot j holds c div n pairs plus one when j < c mod n |
| `StandHitPasses.EmptySlotsBalanced` | blackjack/src/calculation/stand_hit_ex.rs:31-35 | the slots start balanced with nothing dealt |
| `StandHitPasses.StandPassValues` | blackjack/src/calculation/stand_hit_ex.rs:82-125 | over pairs with distinct hands the stand pass sets every pair's stand value to win minus lose (win times the blackjack payout for a natural), keeps its hit value and leaves every other entry alone |
| `StandHitPasses.StandPassSlotsFlat` | blackjack/src/calculation/stand_hit_ex.rs:85-125 | running the worker slots one after the other is the stand pass over all dealt pairs, so the order of the workers does not matter |
| `StandHitPasses.PassesAgreeWithMemo` | blackjack/src/calculation/stand_hit_ex.rs:36-125 | for a new hand the stand value the first two passes leave is the one the memoised recursion writes, and where the classification does not mark the hit value it equals the recursion's hit value |
| `StandHitPasses.HitCardsPassEquation` | blackjack/src/calculation/stand_hit_ex.rs:134-144 | the card loop panics exactly when a child's entry is missing, and otherwise adds to the hand's hit value the probability-weighted best values of its children; nothing else changes |
| `StandHitPasses.HitPairFacts` | blackjack/src/calculation/stand_hit_ex.rs:129-145 | a pair panics exactly when its hand has no entry, or its hit is marked and a child's entry is missing; a marked hand gets the sum of total expectation over the table as it stands, any other pair leaves the table unchanged |
| `StandHitPasses.HitPassListFrame` | blackjack/src/calculation/stand_hit_ex.rs:128-146 | the hit pass over a bucket writes no new key, changes no stand value and touches only the bucket's hands |
| `StandHitPasses.HitPassBucketsFrame` | blackjack/src/calculation/stand_hit_ex.rs:128-146 | the whole hit pass writes no new key and changes no stand value |
| `StandHitPasses.Gathered` | blackjack/src/calculation/stand_hit_ex.rs:23-30 | the hands not yet in the table, gathered and bucketed by number of cards, form valid buckets |
| `StandHitPasses.MultithreadingCalculateStandHitExpectation` | blackjack/src/calculation/stand_hit_ex.rs:9-147 | gathering, classification, stand pass and hit pass leave the table the three passes define, and the run fails exactly where a missing entry would panic |
| `StandHitPasses.ClassifyPass` | blackjack/src/calculation/stand_hit_ex.rs:31-80 | the classification loop over the buckets writes the classification's table and returns its worker slots |
| `StandHitPasses.StandPassInPlace` | blackjack/src/calculation/stand_hit_ex.rs:82-125 | the stand pass over the slots, one after the other, leaves the table the stand pass defines |
| `StandHitPasses.SetStandInPlace` | blackjack/src/calculation/stand_hit_ex.rs:96-106 | one worker's write sets the pair's stand value from the dealer's odds |
| `StandHitPasses.HitPass` | blackjack/src/calculation/stand_hit_ex.rs:127-146 | the hit pass from the last bucket down fails exactly where the pass panics and otherwise leaves the table it defines |
| `StandHitPasses.HitOnePair` | blackjack/src/calculation/stand_hit_ex.rs:129-145 | one pair of the hit pass in place: skipped unless marked, else the card loop |
| `DealerProbability.PWorseThanPlayer` | blackjack/src/calculation2/dealer_ex.rs:12-19 | the lookup panics exactly for a player value above 21 |
| `DealerProbability.PBetterThanPlayer` | blackjack/src/calculation2/dealer_ex.rs:21-28 | the lookup panics exactly for a player value above 21 |
| `DealerProbability.EndWithBust` | blackjack/src/calculation2/dealer_ex.rs:30-34 | every slot becomes 1 |
| `DealerProbability.EndWithNormal` | blackjack/src/calculation2/dealer_ex.rs:36-40 | the slots from dealer sum - 16 on become 1 and the others are kept |
| `DealerProbability.AddAssignWithP` | blackjack/src/calculation2/dealer_ex.rs:44-48 | every slot gains p times the other distribution's slot |
| `DealerProbability.LeafLookups` | blackjack/src/calculation2/dealer_ex.rs:3-28 | for a single dealer ending and any player value up to 21 the two lookups are exactly the indicators of the dealer ending below (bust or lower) and above (natural or higher) the player, so the slot layout encodes the comparison |
| `DealerProbability.MixtureLookups` | blackjack/src/calculation2/dealer_ex.rs:12-48 | both lookups are linear: on a - p b mixture they give the lookup of a plus p times the lookup of b |
| `DealerProbability.EndWithBustLoop` | blackjack/src/calculation2/dealer_ex.rs:30-34 | the slot loop computes `EndWithBust` |
| `DealerProbability.EndWithNormalLoop` | blackjack/src/calculation2/dealer_ex.rs:36-40 | the slot loop from dealer sum - 16 computes `EndWithNormal` |
| `DealerProbability.AddAssignWithPLoop` | blackjack/src/calculation2/dealer_ex.rs:44-48 | the slot loop computes `AddAssignWithP` |
| `DealerEx.Ending` | blackjack/src/calculation2/dealer_ex.rs:219-238 | a hand has an ending exactly when it is bust or the dealer must stand on it; endings are bust, a value 17..21 or a natural |
| `DealerEx.EndingMeaning` | blackjack/src/calculation2/dealer_ex.rs:219-238 | a bust hand ends in a bust; a natural is recorded with the bust callback as written (a natural with the corrected record); any other hand the dealer stands on ends on its actual sum |
| `DealerEx.Rest` | blackjack/src/calculation2/dealer_ex.rs:263-274 | the cards of the shoe outside the dealer's hand, slot by slot, with the totals subtracted |
| `DealerEx.NextCardRange` | blackjack/src/calculation2/dealer_ex.rs:255-260 | the draw range is 1..10 with nothing excluded and otherwise nine ranks that leave out the excluded one |
| `DealerEx.DealerValidTotal` | blackjack/src/calculation2/dealer_ex.rs:241-253 | the shoe total less the hand's cards less the excluded rank's remaining cards is the number of cards of the drawable ranks |
| `DealerEx.DrawWeightsSumToOne` | blackjack/src/calculation2/dealer_ex.rs:241-281 | the weights of the drawable ranks add up to one whenever the dealer can draw |
| `DealerEx.Gets` | blackjack/src/calculation2/dealer_ex.rs:203-282 | the recursion only adds entries, always records the hand, and leaves the table alone when the hand is already there |
| `DealerEx.Draws` | blackjack/src/calculation2/dealer_ex.rs:262-281 | the draw loop only adds entries |
| `DealerEx.StandingHandEntry` | blackjack/src/calculation2/dealer_ex.rs:219-238 | a new hand the dealer stands on gets the distribution of its single ending and nothing else changes |
| `DealerEx.GetsPreserves` | blackjack/src/calculation2/dealer_ex.rs:214-217 | entries already in the table are never changed |
| `DealerEx.DrawsPreserves` | blackjack/src/calculation2/dealer_ex.rs:262-281 | the draw loop changes no entry but the hand's own |
| `DealerEx.MemoizationDealerGetsCards` | blackjack/src/calculation2/dealer_ex.rs:203-282 | the in-place recursion leaves the table the recursion defines and restores the dealer hand |
| `DealerEx.DealerDrawLoop` | blackjack/src/calculation2/dealer_ex.rs:262-281 | the rank loop of the hit branch computes the draw recursion and restores the hand |
| `DealerEx.ValidTotalOf` | blackjack/src/calculation2/dealer_ex.rs:241-253 | computes the number of drawable cards |
| `DealerEx.DealerDrawCard` | blackjack/src/calculation2/dealer_ex.rs:263-280 | one rank of the loop: skip a rank with no card left, else recurse, read the child's entry and add it with weight remaining count over valid total |
| `DealerEx.DrawEachRank` | blackjack/src/calculation2/dealer_ex.rs:262-281 | the loop over the ranks lo..hi leaves the table that the draw recursion over that range defines, with the hand restored |
| `DealerEx.DrawAndUndo` | blackjack/src/calculation2/dealer_ex.rs:267-272 | drawing rank c fills the table for the hand with that card as the dealer recursion defines, returns the child's entry and takes the card back |
| `DealerEx.Exclusions` | blackjack/src/calculation2/dealer_ex.rs:90-121 | the memo variant chosen for each up card excludes a valid rank or nothing |
| `DealerEx.ExclusionsAreImpossibleHoleCards` | blackjack/src/calculation2/dealer_ex.rs:90-121 | the variant chosen for each up card excludes exactly the hole card the peek policy rules out |
| `DealerEx.OddLoop` | blackjack/src/calculation2/dealer_ex.rs:190-200 | the up-card loop only adds entries |
| `DealerEx.OddLoopCoversUpCards` | blackjack/src/calculation2/dealer_ex.rs:190-200 | after the loop every up card the shoe holds has its entry |
| `DealerEx.UpdateDealerOdd` | blackjack/src/calculation2/dealer_ex.rs:178-201 | the in-place up-card loop computes the loop's table and leaves the auxiliary hand empty |
| `DealerEx.UpdateForUpCard` | blackjack/src/calculation2/dealer_ex.rs:190-200 | one up card present in the shoe runs its memo variant from the one-card hand |
| `DealerEx.FillSlot` | blackjack/src/calculation2/dealer_ex.rs:159-170 | a cleared pool slot ends holding the up-card loop's table for the shoe |
| `DealerEx.UpdateOddsStaysPanicked` | blackjack/src/calculation2/dealer_ex.rs:148-176 | once one shoe panics, the whole update panics |
| `DealerEx.NewPoolPanics` | blackjack/src/calculation2/dealer_ex.rs:124-159 | the pool made by `new` is empty, so the first new shoe's slot access panics: every non-empty update fails |
| `DealerEx.FilledPoolNeverPanics` | blackjack/src/calculation2/dealer_ex.rs:148-176 | with every slot allocated, updating never panics, keeps the pool ready, and leaves every shoe of the list calculated with a slot |
| `DealerEx.UpdateOneFillsSlot` | blackjack/src/calculation2/dealer_ex.rs:148-174 | a new shoe's slot holds the entries of all the up cards it contains |
| `DealerEx.DealerHandValueProbabilityOf` | blackjack/src/calculation2/dealer_ex.rs:133-141 | the lookup succeeds exactly when the shoe has a slot and that slot holds the up card's one-card hand |
| `DealerEx.NaturalAsWritten` | blackjack/src/calculation2/dealer_ex.rs:226-227 | as written, a dealer natural is recorded with the bust callback, so the lookups count it as worse than every player value up to 21 |
| `DealerEx.NaturalFixed` | blackjack/src/calculation2/dealer_ex.rs:226-227 | recorded with the natural callback, a dealer natural counts as better than every player value up to 21 |
| `DealerEx.DealerPlay.constructor` | blackjack/src/calculation2/dealer_ex.rs:90-131 | a new dealer play holds the rule, an empty pool at index 0, nothing calculated and the exclusions for each up card |
| `DealerEx.DealerPlay.WithFilledPool` | blackjack/src/calculation2/dealer_ex.rs:88-131 | the same with all 10000 pool slots allocated |
| `DealerEx.DealerPlay.ClearDealerOdds` | blackjack/src/calculation2/dealer_ex.rs:143-146 | no shoe is calculated or pointed at any more, and the pool and its index are kept |
| `DealerEx.DealerPlay.UpdateDealerOdds` | blackjack/src/calculation2/dealer_ex.rs:148-176 | the loop over the shoes leaves the state the update defines and fails exactly where it panics |
| `DealerEx.DealerPlay.UpdateShoe` | blackjack/src/calculation2/dealer_ex.rs:149-174 | one shoe: skipped when calculated, else marked, then its pool slot is cleared and filled and the index advances modulo the pool size; fails exactly on a missing slot |
| `SplitEx.Candidates` | blackjack/src/calculation/split_ex.rs:31-51 | the entry offers stand and hit, then double and surrender when the entry type has them: two to four candidates |
| `SplitEx.GetMaxIsFirstMax` | blackjack/src/calculation/split_ex.rs:31-51 | `get_max_expectation` returns the first candidate, in the order stand, hit, double, surrender, whose value is the largest |
| `SplitEx.OneHandAgainstOneEnding` | blackjack/src/calculation/split_ex.rs:580-605 | against a dealer who surely ends one way, a live hand wins its stake (2 when doubled) when the dealer ends below it, loses it when the dealer ends above it and pushes otherwise |
| `SplitEx.OneHandIgnoresDealer` | blackjack/src/calculation/split_ex.rs:586-594 | a surrendered, bust or Charlie hand is worth -0.5, -1 or +1 whatever the dealer's distribution |
| `SplitEx.DealerTable` | blackjack/src/calculation/split_ex.rs:542-559 | the dealer table built for a shoe always holds the empty extra hand, whose distribution the pair is settled against |
| `SplitEx.Put` | blackjack/src/calculation/split_ex.rs:573-575 | writing one field of one entry adds that entry and leaves the dealer tables alone |
| `SplitEx.Aux2` | blackjack/src/calculation/split_ex.rs:513-578 | the shoe's dealer table is built only when missing and kept otherwise; the pair's entry gets, in the field of hand 1's state, the sum of both hands' values against that table's root; nothing else changes |
| `SplitEx.Aux1` | blackjack/src/calculation/split_ex.rs:342-511 | the recursion only adds entries, always leaves the pair's entry, and changes nothing when that entry was already there |
| `SplitEx.Aux1Fresh` | blackjack/src/calculation/split_ex.rs:373-397 | after the fresh entry is written, hand 1's play only adds entries |
| `SplitEx.Aux1Play` | blackjack/src/calculation/split_ex.rs:399-421 | hand 1's stand and the rest of its play only add entries |
| `SplitEx.Aux1Moves` | blackjack/src/calculation/split_ex.rs:423-511 | hand 1's hit, surrender and double keep the pair's entry and only add entries |
| `SplitEx.Aux1DoubleMove` | blackjack/src/calculation/split_ex.rs:474-510 | hand 1's double only adds entries |
| `SplitEx.Aux1Hit` | blackjack/src/calculation/split_ex.rs:423-453 | hand 1's hit loop over the ranks only adds entries |
| `SplitEx.Aux1Double` | blackjack/src/calculation/split_ex.rs:476-508 | hand 1's double loop over the ranks only adds entries |
| `SplitEx.Aux0` | blackjack/src/calculation/split_ex.rs:185-340 | the recursion over hand 0 only adds entries, always leaves the pair's placeholder entry, and changes nothing when it was already there |
| `SplitEx.Aux0Moves` | blackjack/src/calculation/split_ex.rs:251-340 | hand 0's hit, surrender and double keep the pair's entry and only add entries |
| `SplitEx.Aux0DoubleMove` | blackjack/src/calculation/split_ex.rs:302-339 | hand 0's double only adds entries |
| `SplitEx.Aux0Hit` | blackjack/src/calculation/split_ex.rs:251-281 | hand 0's hit loop over the ranks only adds entries |
| `SplitEx.Aux0Double` | blackjack/src/calculation/split_ex.rs:304-338 | hand 0's double loop over the ranks only adds entries |
| `SplitEx.HoleRange` | blackjack/src/calculation/split_ex.rs:88-93 | the dealer's first-draw range exists exactly for the excluded hole cards 0, 1 and 10; any other value panics |
| `SplitEx.DoubleAces` | blackjack/src/calculation/split_ex.rs:107-183 | split aces without decisions: a known entry is returned unchanged; otherwise it panics exactly on an excluded hole card outside 0, 1 and 10, and else adds the pair's entry and only adds entries |
| `SplitEx.AcesFirst` | blackjack/src/calculation/split_ex.rs:137-181 | the loop over the first ace's card only adds entries |
| `SplitEx.AcesSecond` | blackjack/src/calculation/split_ex.rs:145-177 | the loop over the second ace's card, up to the first one's rank, only adds entries |
| `SplitEx.CalculateSplitExpectation` | blackjack/src/calculation/split_ex.rs:54-105 | the split panics exactly when the split card is outside 1..10 or the excluded hole card is not 0, 1 or 10 (unless the aces' entry is already there); otherwise the pair of one-card hands has its entry and entries are only added |
| `SplitEx.SplitCardOfPair` | blackjack/src/calculation/split_ex.rs:68-71 | a pair of c splits into two hands of one c each |
| `SplitEx.PairKeysOfStatesDiffer` | blackjack/src/calculation/split_ex.rs:235-330 | the entries of one pair with hand 0 in different states never collide |
| `SplitEx.Aux1SettledPair` | blackjack/src/calculation/split_ex.rs:375-397 | both hands bust or at the Charlie number: no dealer table is built and the entry holds only the stand value, the sum of both hands' fixed values |
| `SplitEx.StandOnlyEntry` | blackjack/src/calculation/split_ex.rs:31-51 | an entry with only its stand evaluated is worth its stand, with decision stand |
| `SplitEx.DoubleReadAsWritten` | blackjack/src/calculation/split_ex.rs:486-507 | as written, hand 1's double loop reads the best value of the entry that also holds its stand and hit, so the double is credited at least the stand and hit values |
| `SplitEx.DoubleReadExample` | blackjack/src/calculation/split_ex.rs:486-507 | a doubled settlement of -2 is read back as the hit value -0.25 |
| `SplitEx.DoubleFixedStep` | blackjack/src/calculation/split_ex.rs:478-507 | one rank of the corrected double loop only adds entries |
| `SplitEx.Aux1DoubleFixed` | blackjack/src/calculation/split_ex.rs:476-508 | the corrected double loop only adds entries |
| `SplitEx.Aux1DoubleFixedAddsSettlement` | blackjack/src/calculation/split_ex.rs:476-508 | each rank of the corrected loop adds its probability times the doubled settlement of the pair itself, and a rank of probability 0 changes nothing |
| `SplitEx.OneHandFixedDoubles` | blackjack/src/calculation/split_ex.rs:580-605 | with a doubled bust charged twice, a doubled hand is worth twice the undoubled one in every case; it agrees with the code except on a doubled bust or Charlie hand |
| `SplitEx.DoubledBustAsWritten` | blackjack/src/calculation/split_ex.rs:589-594 | as written, a doubled hand that busts loses 1 instead of 2 |
| `SplitEx.CharlieAsWritten` | blackjack/src/calculation/split_ex.rs:223-249 | as written, with Charlie number 5, five 2s (sum 10) get no stand and stop before hitting, so the pair is worth minus infinity |
| `SplitEx.Aux0StandFixed` | blackjack/src/calculation/split_ex.rs:218-240 | the corrected stand of hand 0 always leaves the pair's entry |
| `SplitEx.CharlieStandsFixed` | blackjack/src/calculation/split_ex.rs:218-249 | corrected, a hand 0 at the Charlie number stands and the pair is worth 1 plus hand 1's fixed value |
| `SplitEx.IndexIsPairKey` | blackjack/src/calculation/split_ex.rs:362-362 | the index built from the two hands and a state is the pair's key |
| `SplitEx.EnsureDealerTable` | blackjack/src/calculation/split_ex.rs:542-559 | builds the shoe's dealer table in place only when it is missing, and restores the shoe |
| `SplitEx.PutField` | blackjack/src/calculation/split_ex.rs:573-575 | writes one field through the mutable access as `Put` does |
| `SplitEx.MemoAux2` | blackjack/src/calculation/split_ex.rs:513-578 | the in-place settlement leaves the tables `Aux2` defines and restores the shoe |
| `SplitEx.MemoAux1` | blackjack/src/calculation/split_ex.rs:342-511 | the in-place recursion over hand 1 leaves the tables `Aux1` defines and restores the shoe and hand 1 |
| `SplitEx.Hand1Play` | blackjack/src/calculation/split_ex.rs:373-511 | the play after the fresh entry, in place, as `Aux1Fresh` |
| `SplitEx.Hand1Settled` | blackjack/src/calculation/split_ex.rs:379-397 | the settled pair's stand is written in place, as `Aux1Fresh` |
| `SplitEx.Hand1Stand` | blackjack/src/calculation/split_ex.rs:399-421 | hand 1's stand and the rest in place, as `Aux1Play` |
| `SplitEx.Hand1Moves` | blackjack/src/calculation/split_ex.rs:423-511 | hand 1's hit, surrender and double in place, as `Aux1Moves` |
| `SplitEx.Hand1DoubleMove` | blackjack/src/calculation/split_ex.rs:474-510 | hand 1's double in place, as `Aux1DoubleMove` |
| `SplitEx.Hand1Double` | blackjack/src/calculation/split_ex.rs:475-509 | runs the double loop and writes its sum into the pair's double field |
| `SplitEx.Hand1Hits` | blackjack/src/calculation/split_ex.rs:424-452 | hand 1's hit loop in place returns the hit value and leaves the tables of `Aux1Hit` |
| `SplitEx.Hand1HitCard` | blackjack/src/calculation/split_ex.rs:426-451 | one rank of the loop, drawn to hand 1 and put back, advances `Aux1Hit` by one rank |
| `SplitEx.Hand1Doubles` | blackjack/src/calculation/split_ex.rs:476-508 | hand 1's double loop in place returns the double value of `Aux1Double` |
| `SplitEx.Hand1DoubleCard` | blackjack/src/calculation/split_ex.rs:478-507 | one rank of the double loop advances `Aux1Double` by one rank |
| `SplitEx.MemoAux0` | blackjack/src/calculation/split_ex.rs:185-340 | the in-place recursion over hand 0 leaves the tables `Aux0` defines and restores the shoe and both hands |
| `SplitEx.Hand0Moves` | blackjack/src/calculation/split_ex.rs:251-340 | hand 0's hit, surrender and double in place, as `Aux0Moves` |
| `SplitEx.Hand0DoubleMove` | blackjack/src/calculation/split_ex.rs:302-339 | hand 0's double in place, as `Aux0DoubleMove` |
| `SplitEx.Hand0Hits` | blackjack/src/calculation/split_ex.rs:252-280 | hand 0's hit loop in place returns the hit value of `Aux0Hit` |
| `SplitEx.Hand0HitCard` | blackjack/src/calculation/split_ex.rs:254-279 | one rank of the loop advances `Aux0Hit` by one rank |
| `SplitEx.Hand0Doubles` | blackjack/src/calculation/split_ex.rs:304-337 | hand 0's double loop in place returns the double value of `Aux0Double` |
| `SplitEx.Hand0DoubleCard` | blackjack/src/calculation/split_ex.rs:306-336 | one rank of the double loop advances `Aux0Double` by one rank |
| `SplitEx.DoubleAcesInPlace` | blackjack/src/calculation/split_ex.rs:107-183 | split aces in place: fails exactly where `DoubleAces` panics and otherwise leaves its tables |
| `SplitEx.AcesFirstCards` | blackjack/src/calculation/split_ex.rs:137-181 | the first ace's loop in place, as `AcesFirst` |
| `SplitEx.AcesFirstCard` | blackjack/src/calculation/split_ex.rs:138-180 | one first card drawn to hand 0, then the second card's loop, and the card put back |
| `SplitEx.AcesSecondCards` | blackjack/src/calculation/split_ex.rs:145-177 | the second ace's loop in place, as `AcesSecond` |
| `SplitEx.AcesSecondCard` | blackjack/src/calculation/split_ex.rs:146-176 | one second card: a pair of different cards counted twice, the settled stand weighted by its probability |
| `SplitEx.SplitInPlace` | blackjack/src/calculation/split_ex.rs:54-105 | the split in place fails exactly where `CalculateSplitExpectation` panics and otherwise leaves its tables |
| `Simulation.PhaseError` | blackjack_macros/src/lib.rs:17-17 | the refusal of a call made in the wrong phase starts with the call's name and carries the name of the phase it is allowed in, which can be read back from the message |
| `Simulation.PhaseErrorInjective` | blackjack_macros/src/lib.rs:17-17 | two refusals of the same call are the same message exactly when they name the same phase |
| `Simulation.SeatCheck` | blackjack/src/simulation.rs:158-164 | seating is accepted exactly when there are at most ten players and the seat is below their number |
| `Simulation.SeatZeroZeroRefused` | blackjack/src/simulation.rs:155-164 | as written, the pair (0, 0) documented as keeping the seating is refused by the seat test |
| `Simulation.SeatCheckKeeping` | blackjack/src/simulation.rs:155-175 | as documented, (0, 0) is accepted exactly when the current seating is valid; any other pair is tested as written |
| `Simulation.SeatZeroZeroKeeps` | blackjack/src/simulation.rs:155-175 | with a valid seating, (0, 0) is accepted by the documented test though the written one refuses it |
| `Simulation.BetCheck` | blackjack/src/simulation.rs:280-295 | a bet is accepted exactly when bet times the blackjack payout is whole, the bet is even and half of it times the insurance payout is whole; an odd bet is always refused |
| `Simulation.DealerWillPeek` | blackjack/src/simulation.rs:337-343 | the dealer peeks only on an ace or ten up card: on an ace under both peek policies, on a ten only under UpAceOrTen |
| `Simulation.DealerNaturalIffEleven` | blackjack/src/simulation.rs:360-363 | with an ace or a ten up, the two cards' values sum to 11 exactly when the dealer's hand is a natural |
| `Simulation.StandsAboveHard17` | blackjack/src/simulation.rs:513-528 | a dealer hand with a hard sum of 18 or more always stands |
| `Simulation.HitsHard17WithAce` | blackjack/src/simulation.rs:513-528 | under hit-soft-17, ace, six, ten (a hard sum of 17 with an ace) is hit: the stand rule counts it as soft |
| `Simulation.AddCards` | blackjack/src/simulation.rs:560-561 | adding a run of dealt cards keeps ten counts |
| `Simulation.DealerDraw` | blackjack/src/simulation.rs:512-562 | the dealer's draw ends at a position in the shoe at or after the start |
| `Simulation.DealerDrawStep` | blackjack/src/simulation.rs:560-561 | while the dealer may not stand, the draw is the draw after taking the next card |
| `Simulation.DealerDrawStops` | blackjack/src/simulation.rs:512-562 | when the draw ends, the dealer stands on the cards taken and would not have stood on any shorter run |
| `Simulation.DealerDrawRunsOut` | blackjack/src/simulation.rs:512-562 | when the draw fails, the dealer could stand on no run of the remaining cards: the shoe ran out |
| `Simulation.GroupWin` | blackjack/src/simulation.rs:531-555 | a group returns a non-negative amount, and a settled group returns its stored bet |
| `Simulation.GroupWinShape` | blackjack/src/simulation.rs:545-553 | an unsettled group that is not a lone natural returns 0, its bet or twice its bet; twice on a dealer bust, 0 against a dealer natural |
| `Simulation.GroupWinMonotone` | blackjack/src/simulation.rs:545-553 | against the same dealer hand, a higher player sum never returns less |
| `Simulation.NaturalWins` | blackjack/src/simulation.rs:538-544 | a lone natural pushes against a dealer natural and otherwise returns at least its bet |
| `Simulation.SettleAll` | blackjack/src/simulation.rs:531-555 | the total returned is non-negative and includes the last group's return |
| `Simulation.SettlePrefix` | blackjack/src/simulation.rs:532-555 | every group's return and the total of the groups before it are part of the whole |
| `Simulation.SettleAllDetermined` | blackjack/src/simulation.rs:536-537 | when every group is settled, the total is the sum of their stored bets whatever the dealer holds |
| `Simulation.NewShuffledShoe` | blackjack/src/simulation.rs:138-139 | a new shoe of the rule's decks, shuffled from the start by the given draws, with its counts full and the cut card placed |
| `Simulation.NewSituation` | blackjack/src/simulation.rs:321-328 | the situation holds the remaining counts, the values of the player's two cards and the up card's value |
| `Simulation.DealToPlayers` | blackjack/src/simulation.rs:307-312 | a card to each of the players in seat order; the player's seat's card goes to its first group; fails exactly when the shoe runs out |
| `Simulation.DealRound` | blackjack/src/simulation.rs:306-315 | one pass: the players' cards then one card to the dealer; fails exactly when the shoe runs out |
| `Simulation.TwoReceives` | blackjack/src/simulation/hand.rs:24-26 | two cards received into an empty single group give the group of those two cards |
| `Simulation.DealTwoRounds` | blackjack/src/simulation.rs:306-315 | the player gets the cards at base+s and base+n+1+s, the dealer those at base+n and base+2n+1, and the cursor advances 2(n+1); fails exactly when fewer cards remain |
| `Simulation.InsurancePaid` | blackjack/src/simulation.rs:365-365 | the insurance after a dealer natural is the bet plus its payout truncated to `u32`, never less than the bet |
| `Simulation.HitGroup` | blackjack/src/simulation.rs:441-457 | the group receives the card; it ends exactly on a bust (settled for nothing) or at the Charlie number (settled for twice the bet, saturated at the top of `u32`), and otherwise nothing else changes |
| `Simulation.DoubleGroup` | blackjack/src/simulation.rs:471-478 | the group receives one card and its bet doubles; a bust then settles it for nothing |
| `Simulation.SurrenderGroup` | blackjack/src/simulation.rs:490-490 | a surrendered group keeps its cards and is settled for half its bet |
| `Simulation.HitInto` | blackjack/src/simulation.rs:442-454 | in place, the next card of the shoe goes through `HitGroup` into the group; fails exactly on an empty shoe |
| `Simulation.DoubleInto` | blackjack/src/simulation.rs:471-478 | in place, the next card goes through `DoubleGroup`; fails exactly on an empty shoe or a doubled bet past `u32` |
| `Simulation.CountsOfPair` | blackjack/src/simulation/hand.rs:101-104 | the counts of a two-card group are its two values counted |
| `Simulation.SettledMultipliers` | blackjack/src/simulation/hand.rs:57-61 | settling with multiplier 0, 0.5 and 2 stores nothing, half the bet and twice the bet saturated at the top of `u32` |
| `Simulation.DetermineMultipliers` | blackjack/src/simulation/hand.rs:57-61 | the float multiply-and-cast of `determine_winning` gives 0, half the bet and twice the bet saturated, for the three multipliers used |
| `Simulation.DealInto` | blackjack/src/simulation.rs:623-626 | the next card of the shoe goes to the given group; fails exactly on an empty shoe |
| `Simulation.PairsAfterSplit` | blackjack/src/simulation.rs:403-408 | after a split and its two deals every group still holds two cards |
| `Simulation.SplitThenDeal` | blackjack/src/simulation.rs:403-408 | split then two deals: the group keeps its first card plus the first card dealt, and a new last group with the same bet holds its second card plus the second card dealt |
| `Simulation.SplitAndDeal` | blackjack/src/simulation.rs:403-408 | the split in place gives the groups `SplitThenDeal` describes and advances the shoe by two; fails exactly when fewer than two cards remain |
| `Simulation.DealToDealer` | blackjack/src/simulation.rs:628-630 | the next card goes to the dealer's group and nothing else of it changes; fails exactly on an empty shoe |
| `Simulation.DealerPlays` | blackjack/src/simulation.rs:512-562 | the dealer's loop follows `DealerDraw`: it fails exactly where the draw fails, and otherwise stops at the draw's position holding exactly the cards taken |
| `Simulation.DrawnStep` | blackjack/src/simulation.rs:560-561 | one more card keeps the loop invariant of the dealer's draw |
| `Simulation.DrawnFails` | blackjack/src/simulation.rs:560-560 | the shoe running out while the dealer must draw means the draw fails |
| `Simulation.DrawnDone` | blackjack/src/simulation.rs:530-557 | the dealer standing inside the loop means the draw ends here with these cards |
| `Simulation.GroupReturn` | blackjack/src/simulation.rs:533-554 | in `u32` arithmetic one group's return is `GroupWin`, and it overflows exactly when `GroupWin` reaches 2^32 |
| `Simulation.DealerRound` | blackjack/src/simulation.rs:512-562 | the dealer draws and the groups are settled: the total is `SettleAll` against the final hand, failing exactly when the draw fails or the total overflows |
| `Simulation.DealerSummary` | blackjack/src/simulation.rs:512-566 | the dealer's round plus the insurance: a panic exactly when the draw fails or the sum with the insurance reaches 2^32, otherwise that sum with the dealer standing where the draw stops |
| `Simulation.SettleGroups` | blackjack/src/simulation.rs:531-557 | the settlement loop computes `SettleAll`, failing exactly on `u32` overflow |
| `Simulation.Simulator.constructor` | blackjack/src/simulation.rs:137-153 | a simulator waiting for the seat, with a freshly shuffled full shoe, no players and a cleared game |
| `Simulation.Simulator.NewGame` | blackjack/src/simulation.rs:645-652 | both hands cleared, the counters, group index and insurance back to 0; phase and seating kept |
| `Simulation.Simulator.SeatPlayer` | blackjack/src/simulation.rs:157-175 | refused outside its phase or by `SeatCheck`, changing nothing; else seats the player, clears the game and moves to betting |
| `Simulation.Simulator.SeatPlayerKeeping` | blackjack/src/simulation.rs:155-175 | as documented: (0, 0) keeps the current seating and still starts betting; other pairs as `SeatPlayer` |
| `Simulation.Simulator.PlaceBets` | blackjack/src/simulation.rs:279-299 | refused outside its phase or by `BetCheck`, changing nothing; else the first group's bet is set and dealing is next |
| `Simulation.Simulator.DealInitialCards` | blackjack/src/simulation.rs:304-330 | refused outside its phase; panics exactly when the shoe cannot give 2(n+1) cards; else deals as `DealTwoRounds` and returns the remaining counts, the player's two values and the up card |
| `Simulation.Simulator.DealHands` | blackjack/src/simulation.rs:305-330 | the dealing once the phase is checked, with the same outcome |
| `Simulation.Simulator.DealerPeeksIfNecessary` | blackjack/src/simulation.rs:335-353 | without a peek, insurance is refused and play goes on; with a peek, a dealer natural ends the round with the insurance paid and otherwise the insurance is lost |
| `Simulation.Simulator.DealerPeeks` | blackjack/src/simulation.rs:355-372 | returns whether the dealer has a natural; the insurance is half the first bet when bought, paid on a natural and cleared otherwise; panics on a `u32` overflow of the payout |
| `Simulation.Simulator.WaitForRightPlayers` | blackjack/src/simulation.rs:377-381 | only moves the round to the split phase |
| `Simulation.Simulator.PlaySplit` | blackjack/src/simulation.rs:388-411 | refused at the split limits or for cards of different values; else the counters grow (the ace one for aces), the group splits as `SplitAndDeal`, and the result says whether a limit is now reached |
| `Simulation.Simulator.SplitPair` | blackjack/src/simulation.rs:398-410 | the split once its refusals are passed |
| `Simulation.Simulator.StopSplit` | blackjack/src/simulation.rs:418-428 | after split aces the player's turn is skipped; otherwise play begins |
| `Simulation.Simulator.MoveToNextGroup` | blackjack/src/simulation.rs:638-643 | the next group is played, and after the last the round waits for the players to the left |
| `Simulation.Simulator.PlayStand` | blackjack/src/simulation.rs:432-436 | the group is kept as it is and play moves on |
| `Simulation.Simulator.PlayHit` | blackjack/src/simulation.rs:440-457 | the group is hit as `HitGroup` says; play moves on exactly when the group ended; panics exactly on an empty shoe |
| `Simulation.Simulator.PlayDouble` | blackjack/src/simulation.rs:461-481 | refused off two cards or after a split without DAS; else the group is doubled as `DoubleGroup` says and play moves on |
| `Simulation.Simulator.PlaySurrender` | blackjack/src/simulation.rs:485-493 | refused without late surrender; else the group is settled for half its bet and play moves on |
| `Simulation.Simulator.WaitForLeftPlayers` | blackjack/src/simulation.rs:497-502 | only moves the round to the dealer's play |
| `Simulation.Simulator.DealerPlaysAndSummary` | blackjack/src/simulation.rs:510-567 | the dealer draws by the stand rule, and the result is `SettleAll` against the final hand plus the insurance; panics exactly when the shoe runs out or the sum overflows `u32` |
| `Simulation.Simulator.DealerTurn` | blackjack/src/simulation.rs:512-566 | the same once the phase is checked |
| `Simulation.Simulator.StartNewShoeIfNecessary` | blackjack/src/simulation.rs:572-578 | the shoe is reshuffled from the start exactly when the cut card was reached, and the round waits for the seat again |
| `Simulation.Simulator.ReachedSplitTimeLimits` | blackjack/src/simulation.rs:580-583 | while both counters are within their limits (as the simulator keeps them), the flag is down exactly when one more split, of aces or not, keeps both counters within `split_all_limits` and `split_ace_limits`; `PlaySplit` is refused exactly when it is up |
| `Simulation.Simulator.GroupsWithinLimit` | blackjack/src/simulation.rs:389-411 | the player never holds more groups than one plus the split limit |
| `Simulation.Simulator.GetShoeCardCount` | blackjack/src/simulation.rs:585-587 | the counts of exactly the cards not yet dealt |
| `Simulation.Simulator.GetCurrentSplitAllTimes` | blackjack/src/simulation.rs:589-591 | the split counter never exceeds its limit |
| `Simulation.Simulator.GetCurrentSplitAceTimes` | blackjack/src/simulation.rs:593-595 | the ace split counter never exceeds its limit or the split counter |
| `Simulation.Simulator.GetNumberOfGroups` | blackjack/src/simulation.rs:597-599 | the number of groups is one more than the splits made |
| `Simulation.Simulator.GetMyCurrentCardCount` | blackjack/src/simulation.rs:601-604 | the counts of the group being played add up to its number of cards |
| `Simulation.Simulator.GetDealerCardCount` | blackjack/src/simulation.rs:606-608 | the dealer's counts add up to the dealer's number of cards |
| `Simulation.Simulator.GetAllCardCounts` | blackjack/src/simulation.rs:614-621 | one entry per group, in order, each the counts of that group's cards |
| `Hands.CountsOfCards` | blackjack/src/simulation/hand.rs:101-104 | the counts kept alongside a group's cards have one slot per value |
| `Hands.CountsOfCardsTotal` | blackjack/src/simulation/hand.rs:101-104 | the counts of received cards are non-negative and add up to the number of cards |
| `Hands.CountsOfCardsIsValueCounts` | blackjack/src/simulation/hand.rs:101-104 | the counts of a group are the value counts of the multiset of its cards, whatever their order |
| `Hands.GroupOf` | blackjack/src/simulation/hand.rs:88-92 | the valid group holding exactly these cards |
| `Hands.ValidGroupIsGroupOf` | blackjack/src/simulation/hand.rs:88-92 | a valid group is determined by its cards: the counts never drift from them |
| `Hands.NewGroup` | blackjack/src/simulation/hand.rs:94-99 | a new group holds no card and counts nothing |
| `Hands.Receive` | blackjack/src/simulation/hand.rs:101-104 | the card goes last and the group stays valid |
| `Hands.ReceiveTwo` | blackjack/src/simulation/hand.rs:101-104 | an empty group that receives two cards is the group of those two cards |
| `Hands.ReceiveCounts` | blackjack/src/simulation/hand.rs:101-104 | receiving a card counts its value once more |
| `Hands.ReceiveTotal` | blackjack/src/simulation/hand.rs:101-104 | receiving a card adds one to the total count |
| `Hands.RemoveLast` | blackjack/src/simulation/hand.rs:106-110 | the last card comes off and the rest stays a valid group |
| `Hands.RemoveAfterReceive` | blackjack/src/simulation/hand.rs:101-110 | removing the card just received gives the group back with that card |
| `Hands.ReceiveAfterRemove` | blackjack/src/simulation/hand.rs:101-110 | receiving the card just removed gives the group back |
| `Hands.GroupTotal` | blackjack/src/simulation/hand.rs:88-104 | a group's counts add up to its number of cards |
| `Hands.CastToU32` | blackjack/src/simulation/hand.rs:57-61 | the `f64 as u32` cast: in range, 0 below, saturated above, and the floor of a value in range |
| `Hands.CastOfWhole` | blackjack/src/simulation/hand.rs:57-61 | a whole number in range casts to itself |
| `Hands.CastMonotone` | blackjack/src/simulation/hand.rs:57-61 | the cast is monotone: a larger product never pays less |
| `Hands.ReceivedAt` | blackjack/src/simulation/hand.rs:24-26 | only the chosen group gets the card, as its last card |
| `Hands.Settled` | blackjack/src/simulation/hand.rs:57-61 | a settled group keeps its cards, is marked settled and stores an amount in `u32` |
| `Hands.Hand.constructor` | blackjack/src/simulation/hand.rs:12-21 | a new hand holds one empty group with no bet |
| `Hands.Hand.ReceiveCard` | blackjack/src/simulation/hand.rs:24-26 | the chosen group receives the card and nothing else changes |
| `Hands.Hand.SplitGroup` | blackjack/src/simulation/hand.rs:29-38 | the chosen group's last card moves to a new last group with the same bet, not settled; the other groups are unchanged |
| `Hands.Hand.DoubleDown` | blackjack/src/simulation/hand.rs:41-43 | only the chosen group's bet doubles |
| `Hands.Hand.GetNumberOfGroups` | blackjack/src/simulation/hand.rs:45-47 | a hand always holds at least one group |
| `Hands.Hand.GetBet` | blackjack/src/simulation/hand.rs:49-51 | a bet is always a `u32` |
| `Hands.Hand.SetOriginalBet` | blackjack/src/simulation/hand.rs:53-55 | only the first group's bet changes |
| `Hands.Hand.DetermineWinning` | blackjack/src/simulation/hand.rs:57-61 | only the chosen group is settled, for its bet times the multiplier cast to `u32` |
| `Hands.Hand.GetCards` | blackjack/src/simulation/hand.rs:67-69 | every card of a group is a valid card |
| `Hands.Hand.GetCardCounts` | blackjack/src/simulation/hand.rs:71-73 | a group's counts are those of its cards and add up to its number of cards |
| `Hands.Hand.Clear` | blackjack/src/simulation/hand.rs:77-84 | the hand is back to one empty group with no bet |
| `Shoes.Deck` | blackjack/src/simulation/shoe.rs:25-29 | one ordered deck: 52 cards, the card at position e being the card of encoding e |
| `Shoes.DeckPrefixStep` | blackjack/src/simulation/shoe.rs:25-29 | the deck is built one card at a time in encoding order |
| `Shoes.NewCards` | blackjack/src/simulation/shoe.rs:22-30 | n ordered decks hold 52n cards |
| `Shoes.NewCardsAt` | blackjack/src/simulation/shoe.rs:22-30 | card c + 52i of a new shoe is the card of encoding c |
| `Shoes.DeckPrefixMultiplicity` | blackjack/src/simulation/shoe.rs:25-29 | the first k cards of a deck hold each card of encoding below k once and no other |
| `Shoes.NewCardsMultiplicity` | blackjack/src/simulation/shoe.rs:22-30 | a new shoe holds every valid card exactly n times and nothing else |
| `Shoes.ValueCounts` | blackjack/src/simulation/shoe.rs:35-35 | slot v - 1 counts the cards of blackjack value v |
| `Shoes.SuitSumRemove` | blackjack/src/simulation/shoe.rs:91-91 | taking a card out lowers the count of its face by one |
| `Shoes.ValueCountRemove` | blackjack/src/simulation/shoe.rs:91-91 | taking a card out lowers the count of its value by one and no other |
| `Shoes.ValueCountsRemove` | blackjack/src/simulation/shoe.rs:91-91 | the counts after dealing a card are the old counts with its value removed |
| `Shoes.ValueCountsAdd` | blackjack/src/simulation/shoe.rs:91-91 | putting a card in raises the count of its value by one |
| `Shoes.ValueCountsOfFull` | blackjack/src/simulation/shoe.rs:35-35 | any collection holding every card n times has the counts of n full decks |
| `Shoes.ValueCountsOfNewCards` | blackjack/src/simulation/shoe.rs:22-38 | the counts set by `new` are exactly the counts of its cards |
| `Shoes.ValueCountSingle` | blackjack/src/simulation/shoe.rs:91-91 | a single card is counted under its own value only |
| `Shoes.ValueCountUnion` | blackjack/src/simulation/shoe.rs:91-91 | counting by value adds up over unions |
| `Shoes.Copies` | blackjack/src/simulation/shoe.rs:61-64 | k copies of one card and nothing else |
| `Shoes.RestMultiplicity` | blackjack/src/simulation/shoe.rs:44-66 | the cards the `counts` array still stands for hold each card as many times as its count |
| `Shoes.RestDecrement` | blackjack/src/simulation/shoe.rs:52-52 | lowering a count takes exactly that card out of the cards still to place |
| `Shoes.RestOfFull` | blackjack/src/simulation/shoe.rs:44-44 | the counts `[number_of_decks; 52]` stand for a full shoe |
| `Shoes.RestWithoutValue` | blackjack/src/simulation/shoe.rs:106-128 | with every card of value v at count 0, no card of value v is left |
| `Shoes.RestFaceWithoutValue` | blackjack/src/simulation/shoe.rs:106-128 | no card of a face of value v is left then |
| `Shoes.RestCardWithoutValue` | blackjack/src/simulation/shoe.rs:106-128 | no single card of value v is left then |
| `Shoes.FindSuitableCard` | blackjack/src/simulation/shoe.rs:106-128 | the first card, by face then suit, of value v with a positive count; an error exactly when every card of value v is used up |
| `Shoes.Swap` | blackjack/src/simulation/shoe.rs:68-68 | exchanges two positions and keeps the rest, so the contents are a permutation |
| `Shoes.ShuffleSeq` | blackjack/src/simulation/shoe.rs:68-73 | the slice shuffle from the last position down, with the random draws as a parameter |
| `Shoes.ShuffleStepsPermutes` | blackjack/src/simulation/shoe.rs:68-73 | a shuffle is a permutation: same length, same multiset of cards |
| `Shoes.CutCardIndex` | blackjack/src/simulation/shoe.rs:33-33 | the cut card index is the proportion times 52n cast to `usize`: its floor, or 0 when negative |
| `Shoes.ValueCountsAreCounts` | blackjack/src/simulation/shoe.rs:35-35 | counts by value are never negative |
| `Shoes.ValueCountsTotal` | blackjack/src/simulation/shoe.rs:35-35 | the counts of valid cards add up to their number |
| `Shoes.InFullShoe` | blackjack/src/simulation/shoe.rs:22-30 | a rearranged full shoe holds only valid cards |
| `Shoes.UndealtCounts` | blackjack/src/simulation/shoe.rs:101-103 | the counts of the cards from the cursor on |
| `Shoes.UndealtCountsIsValueCounts` | blackjack/src/simulation/shoe.rs:101-103 | they are the counts by value of the multiset of the undealt cards |
| `Shoes.UndealtCountsTotal` | blackjack/src/simulation/shoe.rs:101-103 | they add up to the number of cards left, 0 once the cursor passes the end |
| `Shoes.FullShoe` | blackjack/src/simulation/shoe.rs:72-76 | any rearrangement of a full shoe has full counts before any card is dealt |
| `Shoes.RemAfter` | blackjack/src/simulation/shoe.rs:57-66 | the counts left to place while the fill loop is inside encoding e |
| `Shoes.RemAfterNext` | blackjack/src/simulation/shoe.rs:57-66 | finishing one encoding is starting the next |
| `Shoes.EncodingOf` | blackjack/src/simulation/shoe.rs:116-122 | the scan's face and suit give the card of that encoding |
| `Shoes.RestOfZeros` | blackjack/src/simulation/shoe.rs:57-66 | all counts at 0 means nothing is left to place |
| `Shoes.ValueCountOfValues` | blackjack/src/simulation/shoe.rs:49-55 | cards of listed values are counted as the list counts them |
| `Shoes.OccursOnceMore` | blackjack/src/simulation/shoe.rs:49-55 | a value in the list occurs more often in the whole list than before it |
| `Shoes.Oversupplied` | blackjack/src/simulation/shoe.rs:49-51 | when no card of a requested value is left, the requests for that value exceed the full shoe's supply |
| `Shoes.Supplied` | blackjack/src/simulation/shoe.rs:49-55 | when every request was placed, no value was requested more often than the full shoe holds |
| `Shoes.FirstStep` | blackjack/src/simulation/shoe.rs:52-54 | placing one requested card keeps placed plus left equal to the full shoe |
| `Shoes.FillStep` | blackjack/src/simulation/shoe.rs:61-64 | placing one copy in the fill loop keeps placed plus left equal to the full shoe and the requested prefix untouched |
| `Shoes.PlaceOne` | blackjack/src/simulation/shoe.rs:53-63 | writing the card next to the placed part moves it from left to placed |
| `Shoes.PlaceCopies` | blackjack/src/simulation/shoe.rs:61-64 | the copies of one encoding are placed after the others, keeping the requested prefix |
| `Shoes.PlaceFirsts` | blackjack/src/simulation/shoe.rs:48-55 | the requested values are placed in order; it fails exactly when some value is requested more often than the full shoe holds |
| `Shoes.PlaceRest` | blackjack/src/simulation/shoe.rs:57-66 | the remaining cards fill the shoe after the prefix, which is kept, so the shoe holds the full multiset |
| `Shoes.PrefixValues` | blackjack/src/simulation/shoe.rs:68-68 | shuffling after the prefix keeps the requested values in front |
| `Shoes.Shoe.constructor` | blackjack/src/simulation/shoe.rs:22-38 | n ordered decks, nothing dealt, full counts and the cut card placed |
| `Shoes.Shoe.CardCountIsUndealt` | blackjack/src/simulation/shoe.rs:85-94 | the counts always describe as many cards as are left to deal |
| `Shoes.Shoe.DealCard` | blackjack/src/simulation/shoe.rs:85-94 | the cursor always advances, so a reached cut card stays reached; past the end nothing is dealt and the counts stay, otherwise the card at the cursor is dealt and its value uncounted |
| `Shoes.Shoe.ReachedCutCard` | blackjack/src/simulation/shoe.rs:97-99 | for a cut card inside the shoe, reached exactly when the cards left to deal, as the counts give them, are no more than the cards behind the cut card |
| `Shoes.Shoe.GetCardCount` | blackjack/src/simulation/shoe.rs:101-103 | the counts of exactly the undealt cards |
| `Shoes.Shoe.Retry` | blackjack/src/simulation/shoe.rs:79-82 | the same cards in the same order, nothing dealt, full counts |
| `Shoes.Shoe.ShuffleSlice` | blackjack/src/simulation/shoe.rs:68-73 | the cards from `start` on are shuffled, those before kept, the multiset unchanged |
| `Shoes.Shoe.Shuffle` | blackjack/src/simulation/shoe.rs:72-76 | the cards from `start` on are shuffled, nothing is dealt, the counts are full, and the cut card counts as reached again only when its index is 0 |
| `Shoes.Shoe.ShuffleWithFirsts` | blackjack/src/simulation/shoe.rs:40-69 | fails (the panic) exactly when a value is requested more often than the full shoe holds; otherwise the shoe is full and undealt and starts with cards of the requested values in order |
| `Betting.PrefixSumIsTriangular` | blackjack/src/calculation.rs:95-106 | the prefix-sum table has ten entries and entry i is the triangular number i(i+1)/2 |
| `Betting.GetPrefixSum` | blackjack/src/calculation.rs:95-104 | the loop fills a fresh ten-slot array equal to the prefix-sum table, so slot i holds i(i+1)/2 |
| `Betting.Idx55` | blackjack/src/calculation.rs:271-272 | a two-card hand with the larger card first lands in one of 55 slots, inside the block of slots reserved for its larger card |
| `Betting.SlotsAreABijection` | blackjack/src/calculation.rs:267-272 | the 55 slots and the 55 unordered two-card hands correspond one to one: decoding a slot gives back the hand and every slot is used |
| `Betting.SlotRow` | blackjack/src/calculation.rs:271-272 | a slot inside the block of a larger card decodes to a hand whose larger card is that card |
| `Betting.SlotsDiffer` | blackjack/src/calculation.rs:271-272 | two hands share a slot if and only if they are the same hand |
| `Betting.LookupIsSymmetric` | blackjack/src/calculation.rs:166-187 | looking up a betting-phase answer gives the same cell whichever order the two player cards are named in, and that cell is the up-card row and the slot of the ordered hand |
| `Betting.PrefixTotalIsTotal` | blackjack/src/calculation.rs:247-279 | summing the counts of all ten ranks gives the number of cards in the shoe |
| `Betting.SecondWeightsValue` | blackjack/src/calculation.rs:267-279 | the weights of the second-card loop sum to the ordered-pair count: twice the cards below the first card, plus the pairs of the first card itself |
| `Betting.FirstWeightsValue` | blackjack/src/calculation.rs:260-279 | for a fixed up card the weights of all player hands sum to the number of ordered pairs p(p-1) drawn from the remaining shoe |
| `Betting.AllWeightsValue` | blackjack/src/calculation.rs:252-299 | over up cards below d the weights sum to (cards of those ranks) times the ordered-pair count of the rest of the shoe |
| `Betting.WeightsSumToTotalCombs` | blackjack/src/calculation.rs:247-299 | the weights of all (up card, hand) combinations sum to T(T-1)(T-2) for a shoe of T cards, which is the divisor the code uses for a full shoe, so the probabilities of the enumeration sum to one |
| `Betting.InitialHand` | blackjack/src/calculation.rs:346-348 | the initial hand holds exactly the two dealt cards: two cards whose hard sum is their sum |
| `Betting.DrawProbabilities` | blackjack/src/calculation.rs:434-446 | there is one draw probability per rank |
| `Betting.ExpectationsFacts` | blackjack/src/calculation.rs:339-528 | whenever the expectations are defined: split is always minus infinity, a natural cannot double, and with a dealer who does not peek insurance is worth -1 and the summary is the best of stand, hit, surrender and double |
| `Betting.NoPeekSummary` | blackjack/src/calculation.rs:487-520 | with no chance of an early end the insurance bet is worth -1 (so it is never bought) and the summary is the value when play continues |
| `Betting.HitLoopRecordsChildren` | blackjack/src/calculation.rs:354-362 | after the stand/hit pass every hand one card away from the initial hand, for every rank left in the shoe, has an entry in the table |
| `Betting.DoubleAccDefined` | blackjack/src/calculation.rs:429-448 | the double loop never reads a missing table entry when every one-card extension of the hand has an entry |
| `Betting.WithInitialSituationNeverPanics` | blackjack/src/calculation.rs:305-332 | with one thread and a charlie number above two, calculating the expectations from an empty table always produces a result |
| `Betting.NaturalOfTwentyOne` | blackjack/src/calculation.rs:429-431 | two initial cards that make 21 are a natural, so the double branch for them is the minus-infinity branch |
| `Betting.DoubleAccUniform` | blackjack/src/calculation.rs:433-446 | if every third card leads to the same stand value v, the double loop adds v times the probability mass of the ranks it visits |
| `Betting.UniformGainIsScaledMass` | blackjack/src/calculation.rs:433-446 | the gain of a constant stand value over the remaining ranks is that value times the probability mass of those ranks |
| `Betting.DrawMassIsProbabilities` | blackjack/src/calculation.rs:434-446 | the probability mass the double loop visits from rank i on equals the tail sum of the card probabilities from rank i |
| `Betting.AbsentHasNoProbability` | blackjack/src/calculation.rs:434-437 | a rank with no cards left has probability zero, so skipping it in the double loop loses nothing |
| `Betting.DoubleOfUniformStand` | blackjack/src/calculation.rs:429-448 | if every third card gives the same stand value v, doubling is worth exactly 2v |
| `Betting.DrawMassIsOne` | blackjack/src/calculation.rs:434-446 | the draw probabilities over the ranks present in a non-empty shoe sum to one |
| `Betting.CalculateExpectations` | blackjack/src/calculation.rs:339-528 | the procedure fills the stand/hit table and returns the double, split, insurance and summary values exactly as the expectation function defines them, failing exactly when it does |
| `Betting.OtherDecisions` | blackjack/src/calculation.rs:428-527 | the double, split, insurance and summary values equal their definition from the table, the shoe and the initial hand |
| `Betting.DoubleOf` | blackjack/src/calculation.rs:429-448 | the double value equals its definition by the third-card probabilities, and the hand is left as it was |
| `BettingPhase.Initial` | blackjack/src/calculation.rs:108-114 | the default solution has ten empty stand/hit tables, every one of the 10 × 55 results at its default and a total of zero |
| `BettingPhase.Deal` | blackjack/src/calculation.rs:281-292 | evaluating one deal keeps the solution shaped as 10 tables and 10 × 55 results |
| `BettingPhase.SecondLoop` | blackjack/src/calculation.rs:267-295 | the loop over second cards keeps the solution shaped |
| `BettingPhase.FirstLoop` | blackjack/src/calculation.rs:260-297 | the loop over first cards keeps the solution shaped |
| `BettingPhase.UpLoop` | blackjack/src/calculation.rs:252-299 | the loop over dealer up cards keeps the solution shaped |
| `BettingPhase.DealWrites` | blackjack/src/calculation.rs:281-292 | one deal writes only its own up card's table and the single result slot of its hand, and leaves every other cell alone |
| `BettingPhase.RowsApart` | blackjack/src/calculation.rs:271-272 | the slot blocks of two different larger cards do not overlap |
| `BettingPhase.OutsideRow` | blackjack/src/calculation.rs:271-272 | a hand whose larger card is a never lands in the slot block of another larger card f |
| `BettingPhase.SecondStep` | blackjack/src/calculation.rs:267-295 | one deal followed by the rest of the second-card loop writes only the cells of the second cards visited |
| `BettingPhase.SecondLoopFrame` | blackjack/src/calculation.rs:267-295 | the second-card loop changes only the result slots of hands (f, s') with s' from s up to f and a card of rank s' in the shoe |
| `BettingPhase.FirstStep` | blackjack/src/calculation.rs:260-297 | one first card's inner loop followed by the rest of the first-card loop writes only the hands visited |
| `BettingPhase.FirstLoopFrame` | blackjack/src/calculation.rs:260-297 | the first-card loop changes only the result slots of hands that can be dealt under that up card |
| `BettingPhase.UpLoopFrame` | blackjack/src/calculation.rs:252-299 | the up-card loop leaves the table of every up card it skips and every cell of a deal that cannot happen as they were |
| `BettingPhase.ImpossibleDealsKeepDefaults` | blackjack/src/calculation.rs:252-270 | after the whole enumeration, an up card absent from the shoe keeps an empty table and every deal with zero weight keeps its default result |
| `BettingPhase.LiveHasWeight` | blackjack/src/calculation.rs:253-277 | a deal has non-zero weight exactly when every card of it is still in the shoe at its turn, which is when the loops do not skip it |
| `BettingPhase.LookupFindsDeal` | blackjack/src/calculation.rs:151-187 | looking up a hand gives the same answer in either card order, with the up card's stand/hit table and the summary and double of the ordered hand's slot |
| `BettingPhase.InitialSolutionFacts` | blackjack/src/calculation.rs:305-332 | the single-situation solution never splits, never doubles a natural, and with a dealer who does not peek has insurance worth -1 and the best of stand, hit, surrender and double as its summary |
| `BettingPhase.NumberOfThreads` | blackjack/src/calculation.rs:226-236 | a requested number of threads is kept; zero asks for the available parallelism and falls back to one when it is not known |
| `BettingPhase.SolutionForBettingPhase.constructor` | blackjack/src/calculation.rs:108-114 | a fresh solution represents the default enumeration |
| `BettingPhase.SolutionForBettingPhase.Store` | blackjack/src/calculation.rs:290-292 | the result lands in the hand's slot under its up card and its summary is added to the total with the deal's weight, all else unchanged |
| `BettingPhase.SolutionForBettingPhase.PutTable` | blackjack/src/calculation.rs:283-289 | the up card's stand/hit table is replaced and nothing else changes |
| `BettingPhase.SolutionForBettingPhase.GetSolutionForInitialSituation` | blackjack/src/calculation.rs:140-187 | reading the stored arrays returns exactly the lookup of the hand under the up card in the enumeration the solution represents |
| `BettingPhase.CalculateSolutionWithoutInitialSituation` | blackjack/src/calculation.rs:239-302 | the procedure completes exactly when the enumeration is defined, and then the solution holds its tables, results and weighted total |
| `BettingPhase.UpCards` | blackjack/src/calculation.rs:252-299 | the up-card loop on the arrays ends in the state of the up-card fold from a default solution, failing exactly when it does |
| `BettingPhase.UpCard` | blackjack/src/calculation.rs:252-299 | one up card's iteration advances the fold by one step and puts every card it removed back into the shoe |
| `BettingPhase.FirstCards` | blackjack/src/calculation.rs:260-297 | the first-card loop on the arrays ends in the state of the first-card fold and restores the shoe |
| `BettingPhase.FirstCard` | blackjack/src/calculation.rs:260-297 | one first card's iteration advances the first-card fold by one step and restores the shoe |
| `BettingPhase.SecondCards` | blackjack/src/calculation.rs:267-295 | the second-card loop on the arrays ends in the state of the second-card fold and restores the shoe |
| `BettingPhase.SecondCard` | blackjack/src/calculation.rs:267-295 | one second card's iteration advances the second-card fold by one step and restores the shoe |
| `BettingPhase.SecondLoopStep` | blackjack/src/calculation.rs:267-295 | a present second card is dealt with weight (up × first × second count, doubled for two different cards) over the total before the loop moves on |
| `BettingPhase.DealInPlace` | blackjack/src/calculation.rs:281-292 | evaluating a deal on the arrays matches one deal of the fold, failing exactly when it does |
| `BettingPhase.Evaluate` | blackjack/src/calculation.rs:283-289 | the table and the results after evaluating a deal are those the expectation function defines, failing exactly when it does |
| `BettingPhase.DealIs` | blackjack/src/calculation.rs:281-292 | one deal replaces the up card's table with the one the expectations produce, stores the results in the hand's slot and adds the weighted summary to the total |
| `BettingPhase.CalculateSolutionWithInitialSituation` | blackjack/src/calculation.rs:305-332 | the single-situation entry point returns exactly the solution its definition gives from the shoe, the hand and the up card |
| `PlayerPlay.DefaultExpectationAll` | blackjack/src/calculation2.rs:21-36 | before anything is evaluated every decision and the insurance and summary are worth minus infinity and no decision is chosen |
| `PlayerPlay.AllCandidates` | blackjack/src/calculation2.rs:39-55 | the best-decision query weighs exactly five candidates: hit, stand, double, surrender and split |
| `PlayerPlay.GetMaxIsFirstMax` | blackjack/src/calculation2.rs:39-55 | the best decision is the first candidate, in the order hit, stand, double, surrender, split, whose value no other candidate exceeds |
| `PlayerPlay.DefaultMaxIsHit` | blackjack/src/calculation2.rs:39-55 | with nothing evaluated the best decision is hit at minus infinity, since ties keep the earlier candidate |
| `PlayerPlay.ShoesOf` | blackjack/src/calculation2.rs:129-162 | the gathered shoes are the shoe halves of the hand/shoe pairs, one for one and in order |
| `PlayerPlay.ShoesOfAppend` | blackjack/src/calculation2.rs:143-161 | gathering the shoes of two runs one after the other gives the shoes of the first run followed by those of the second |
| `PlayerPlay.ValidShoesAreShoeMinusHand` | blackjack/src/calculation2.rs:129-162 | the first shoe gathered is the starting shoe, no hand is visited twice, and every shoe gathered is the starting shoe minus a hand drawn from it |
| `PlayerPlay.GetValidShoesAfterStandAux` | blackjack/src/calculation2.rs:129-162 | the recursion appends fresh copies of exactly the shoes of every hand reachable from the current one, in visiting order, and restores the hand and the shoe |
| `PlayerPlay.DrawRanks` | blackjack/src/calculation2.rs:143-161 | the loop over next cards from the start rank appends the shoes of every hand it reaches and restores the hand and the shoe |
| `PlayerPlay.DrawRank` | blackjack/src/calculation2.rs:144-160 | one next card appends the shoes reachable through it and advances the loop by one rank, with the hand and the shoe restored |
| `PlayerPlay.PlayerPlay.constructor` | blackjack/src/calculation2.rs:72-83 | a new player side keeps its rule and thread count, owns a dealer side with no odds yet, an empty shoe list and ten empty single-hand tables |
| `PlayerPlay.PlayerPlay.Solve` | blackjack/src/calculation2.rs:85-98 | solving gathers every shoe the player can stand on, hands them to the dealer side, succeeds exactly when the dealer update does and then leaves the dealer tables as that update defines; the single-hand tables stay empty |
| `PlayerPlay.PlayerPlay.ClearSingleTables` | blackjack/src/calculation2.rs:86-88 | the ten single-hand tables are empty afterwards and the gathered shoes are untouched |
| `PlayerPlay.PlayerPlay.GetValidShoesAfterStand` | blackjack/src/calculation2.rs:108-119 | the shoe list becomes the shoes of every hand the player can reach from an empty hand, each a valid count disjoint from the dealer's hand, with the shoe restored and the tables untouched |
| `PlayerPlay.PlayerPlay.GetExpectationWithSingle` | blackjack/src/calculation2.rs:100-106 | the lookup finds an answer exactly when the up card is a rank and the hand has an entry in that up card's table |
| `LegacyCalculation.FallingGrows` | src/calculation.rs:19-27 | the falling factorial i(i-1)…(i-j+1) is positive and does not shrink as j grows up to i |
| `LegacyCalculation.PermIsFalling` | src/calculation.rs:16-30 | below the saturation bound of 2^110 the table entry is exactly the number of ordered draws of j cards out of i |
| `LegacyCalculation.PermSaturates` | src/calculation.rs:21-25 | the first product to reach 2^110 is stored as the largest u128 and every later entry of its row stays zero |
| `LegacyCalculation.PermZeroAfter` | src/calculation.rs:11-25 | after a saturated or zero entry every later entry of the row is zero |
| `LegacyCalculation.ProductFits` | src/calculation.rs:21-22 | a product still below 2^110 times a factor below 512 fits in a u128, so the table never overflows before it saturates |
| `LegacyCalculation.GetPerm` | src/calculation.rs:10-33 | the 500 × 500 table holds at every entry the saturated falling factorial |
| `LegacyCalculation.FillRow` | src/calculation.rs:17-28 | one row of the table is filled with its saturated falling factorials and no other row changes |
| `LegacyCalculation.FillColumn` | src/calculation.rs:21-27 | one entry receives its saturated falling factorial; the loop stops exactly when it saturated, and otherwise carries the product on |
| `LegacyCalculation.PermStep` | src/calculation.rs:21-25 | the next entry is the previous one times the next factor, replaced by the largest u128 once it reaches 2^110 |
| `LegacyCalculation.GetMaxExpectation` | src/calculation.rs:43-60 | the best value is at least surrender's −0.5 and each of hit, stand and double, and it is one of those four with its own decision |
| `LegacyCalculation.GetMaxIsFirstMax` | src/calculation.rs:43-60 | surrender is chosen exactly when nothing beats −0.5, and each later decision exactly when it is strictly larger than everything before it and not beaten after it |
| `LegacyCalculation.Plus` | src/calculation.rs:181-187 | adding two win/push/lose records adds each field separately |
| `LegacyCalculation.MassIsLinear` | src/calculation.rs:181-198 | the total weight of a record adds under addition and scales under multiplication |
| `LegacyCalculation.AddToWinLoseCasesCount` | src/calculation.rs:293-304 | the weight goes to lose when the player's sum is lower, to push when equal, to win when higher, and the other fields are unchanged |
| `LegacyCalculation.AddToWinLoseAddsDelta` | src/calculation.rs:293-304 | recording an outcome adds exactly its weight to the record's total weight |
| `LegacyCalculation.GetSum` | src/calculation.rs:122-122 | the sum the recursion reads is the hard sum of the counts |
| `LegacyCalculation.GetTotal` | src/calculation.rs:147-147 | the total the recursion reads is the number of cards counted |
| `LegacyCalculation.BelowTotal` | src/calculation.rs:271-274 | a dealer hand drawn from the shoe never holds more cards than the shoe |
| `LegacyCalculation.EmptyBelow` | src/calculation.rs:206-206 | the empty dealer hand the stand calculation starts from is drawn from any shoe and holds no cards |
| `LegacyCalculation.FinalOdds` | src/calculation.rs:247-258 | a finished dealer hand carries weight 1/perm, all of it on win when the dealer busts |
| `LegacyCalculation.WinLoseKeys` | src/calculation.rs:229-291 | the dealer recursion only adds entries, and records the current hand unless the dealer must draw from a shoe with nothing left |
| `LegacyCalculation.DrawsKeys` | src/calculation.rs:270-290 | the dealer's draw loop only adds entries, and records the current hand unless every remaining rank is exhausted |
| `LegacyCalculation.MemoizationFindWinLoseCasesCount` | src/calculation.rs:229-291 | the dealer recursion on the table ends in the memo its definition gives, failing exactly when it does (a zero table entry), and restores the dealer hand |
| `LegacyCalculation.StoreNewDealerHand` | src/calculation.rs:244-290 | a dealer hand not yet in the memo is evaluated as its definition says and the hand is restored |
| `LegacyCalculation.StoreFinalHand` | src/calculation.rs:247-258 | a finished dealer hand is stored with its final odds, failing exactly when the table entry is zero |
| `LegacyCalculation.WinLoseDrawLoop` | src/calculation.rs:270-290 | the draw loop on the table ends in the memo of the draw fold and restores the dealer hand |
| `LegacyCalculation.WinLoseDrawCard` | src/calculation.rs:271-289 | one drawn card advances the draw fold by one rank and restores the dealer hand |
| `LegacyCalculation.AddDealerCard` | src/calculation.rs:276-289 | a drawn card's odds, scaled by the copies left, are added to the current hand's entry and the card is removed again |
| `LegacyCalculation.CalculateStandExpectation` | src/calculation.rs:200-227 | standing is worth the win weight minus the lose weight of the dealer recursion for the player's best total, failing exactly when the recursion does |
| `LegacyCalculation.Share` | src/calculation.rs:165-165 | the chance of drawing a present rank lies in (0, 1] |
| `LegacyCalculation.MemoizationFindSolution` | src/calculation.rs:106-172 | the player recursion on the table ends in the memo its definition gives, failing exactly when it does, and restores the shoe and the hand |
| `LegacyCalculation.SolveOpenHand` | src/calculation.rs:122-171 | a hand not yet in the memo is evaluated as its definition says, with the shoe and the hand restored |
| `LegacyCalculation.SolutionHitLoop` | src/calculation.rs:147-168 | the hit loop on the table ends in the memo of the hit fold and restores the shoe and the hand |
| `LegacyCalculation.SolutionHitCard` | src/calculation.rs:149-167 | one drawn card advances the hit fold by one rank with the shoe and the hand restored |
| `LegacyCalculation.AddDrawnCard` | src/calculation.rs:159-167 | after one card the hit value gains its share times the child's best value and the double value its share times twice the child's stand value |
| `LegacyCalculation.InitialHand` | src/calculation.rs:87-89 | the initial hand holds the two dealt cards and its hard sum is their sum |
| `LegacyCalculation.CalculateSolution` | src/calculation.rs:82-104 | the solution is the one its definition gives; when it exists the initial hand has an entry and the split value is the placeholder −6666 |
| `LegacyCalculation.FindSolutionKeys` | src/calculation.rs:106-172 | the player recursion only adds entries and always records the current hand |
| `LegacyCalculation.HitLoopKeys` | src/calculation.rs:149-168 | the hit loop only adds entries |
| `LegacyCalculation.FindSolutionEntries` | src/calculation.rs:118-171 | a bust hand is stored as stand −1 and nothing else, a hand of 21 (or soft 11) stands only, and every other evaluated hand stores its stand expectation |
| `LegacyCalculation.AsWrittenSoftEighteenDraws` | src/calculation.rs:256-268 | as written, at a table that stands on soft 17, a dealer with an ace up and a 7 in the hole (soft 18) still draws, although soft 18 is a standing hand |
| `LegacyCalculation.IntendedDealerCaseMeaning` | src/calculation.rs:244-268 | with the intended soft rule the dealer busts exactly above 21, stands exactly on a standing total, and stands with the hand's best total |
| `LegacyCalculation.AsWrittenBustDrawCountsHalf` | src/calculation.rs:157-166 | as written, a card that busts the hand adds its share times −0.5 to the hit value, because the child's best value offers surrender |
| `LegacyCalculation.IntendedBustDrawCountsWhole` | src/calculation.rs:157-166 | with the intended reading a busting card adds its share times −1 to the hit value |
| `LegacyCalculation.AfterHitValues` | src/calculation.rs:159-159 | as written the value after a hit is never below −0.5; intended, it is the better of the child's hit and stand, and a bust child is worth −0.5 as written and −1 intended |
| `Strategy.HardChartResolves` | blackjack/src/strategy.rs:119-134 | the hard chart has 14 rows of 10 entries and every entry can be played: a real decision, with a real fallback where the rules may forbid it |
| `Strategy.SoftChartResolves` | blackjack/src/strategy.rs:135-145 | the soft chart has 9 rows of 10 entries and every entry can be played |
| `Strategy.PairChartResolves` | blackjack/src/strategy.rs:146-157 | the pair chart has 10 rows of 10 entries and every entry can be played |
| `Strategy.PairRank` | blackjack/src/strategy.rs:186-190 | a two-card hand names a rank from ace to ten |
| `Strategy.TwoCardSum` | blackjack/src/strategy.rs:186-187 | two cards have a hard sum between 2 and 20, so half of it is a rank |
| `Strategy.HardRow` | blackjack/src/strategy.rs:203-211 | hard totals of 5 or less use the first row, 18 or more the last, and each total in between its own row total − 5 |
| `Strategy.NonPairEntry` | blackjack/src/strategy.rs:192-213 | a soft hand holding a ten stands, a hard hand reads the hard chart at its row, and the lookup fails only for a soft hand whose hard sum is below 3 |
| `Strategy.ChartEntry` | blackjack/src/strategy.rs:183-213 | with the pair row corrected, a pair reads the pair chart at its own rank and any other hand reads the soft or hard chart; an entry is found only for an up card from ace to ten |
| `Strategy.Apply` | blackjack/src/strategy.rs:216-232 | double is played only before a split or when doubling after a split is allowed, surrender only when late surrender is allowed, otherwise the fallback; every other primary is played as it is |
| `Strategy.DecisionResolves` | blackjack/src/strategy.rs:176-233 | with the pair row corrected, every hand of two or more cards against any up card gets a real decision |
| `Strategy.EntryExists` | blackjack/src/strategy.rs:183-213 | with the pair row corrected, every hand of two or more cards finds a playable chart entry |
| `Strategy.SoftSumAtLeastThree` | blackjack/src/strategy.rs:192-199 | a soft hand of two or more cards that is not a pair has hard sum at least 3, so its soft-chart row exists |
| `Strategy.RulesRespected` | blackjack/src/strategy.rs:216-232 | the strategy doubles only before a split or when doubling after a split is allowed, and surrenders only when late surrender is allowed |
| `Strategy.NoFallbackDoubles` | blackjack/src/strategy.rs:109-117 | no chart entry falls back to double or surrender, so the fallback never needs a rule check |
| `Strategy.PairFallbacks` | blackjack/src/strategy.rs:146-157 | no pair-chart entry falls back to double or surrender |
| `Strategy.HardFallbacks` | blackjack/src/strategy.rs:119-134 | no hard-chart entry falls back to double or surrender |
| `Strategy.SoftFallbacks` | blackjack/src/strategy.rs:135-145 | no soft-chart entry falls back to double or surrender |
| `Strategy.DecisionAsWrittenResolves` | blackjack/src/strategy.rs:176-233 | as written, a hand of two or more cards fails to get a decision exactly when it is a pair of tens, and otherwise gets a real decision |
| `Strategy.RulesRespectedAsWritten` | blackjack/src/strategy.rs:216-232 | as written the strategy still doubles and surrenders only when the rules allow it |
| `Strategy.PairOfTensPanics` | blackjack/src/strategy.rs:186-191 | as written a pair of tens reads past the last pair row and fails, whereas the corrected row stands |
| `Strategy.PairOfAcesReadsNextRow` | blackjack/src/strategy.rs:186-191 | as written a pair of aces against an ace reads the row of a pair of 2s and hits, whereas the corrected row splits |
| `Strategy.BasicStrategy.constructor` | blackjack/src/strategy.rs:99-160 | a new basic strategy has no up card recorded yet |
| `Strategy.BasicStrategy.InitWithInitialSituation` | blackjack/src/strategy.rs:168-170 | the dealer's up card of the situation is recorded for the later decisions |
| `Strategy.BasicStrategy.MakeDecision` | blackjack/src/strategy.rs:176-233 | the decision is the as-written chart lookup for the hand against the recorded up card, so it respects the doubling and surrender rules |
| `SimulatorDriver.AsI32` | blackjack_drivers/src/blackjack_simulator/simulation.rs:20-27 | the cast to i32 gives the unique 32-bit signed value congruent to the amount modulo 2^32, which is the amount itself below 2^31 |
| `SimulatorDriver.Statistics.constructor` | blackjack_drivers/src/blackjack_simulator/simulation.rs:7-15 | a new record starts with every amount at zero |
| `SimulatorDriver.Statistics.BetMoney` | blackjack_drivers/src/blackjack_simulator/simulation.rs:18-24 | a bet adds to the total bet, is taken from the current money, and lowers the minimum when the money falls below it; the last readings are kept |
| `SimulatorDriver.Statistics.ReceiveMoney` | blackjack_drivers/src/blackjack_simulator/simulation.rs:26-28 | money received is added to the current money and nothing else changes |
| `SimulatorDriver.Statistics.GetCurrentMoney` | blackjack_drivers/src/blackjack_simulator/simulation.rs:30-32 | the current money is a 32-bit signed amount |
| `SimulatorDriver.Statistics.GetTotalBet` | blackjack_drivers/src/blackjack_simulator/simulation.rs:34-36 | the total bet is a 32-bit unsigned amount |
| `SimulatorDriver.Statistics.GetMinMoney` | blackjack_drivers/src/blackjack_simulator/simulation.rs:54-56 | the lowest money seen is a 32-bit signed amount |
| `SimulatorDriver.Statistics.GetRate` | blackjack_drivers/src/blackjack_simulator/simulation.rs:38-40 | once something is bet, the rate times the total bet is the current money and has its sign; with nothing bet there is no rate |
| `SimulatorDriver.Statistics.GetDeltaMoney` | blackjack_drivers/src/blackjack_simulator/simulation.rs:42-46 | the reported change is the money gained since the last reading, and that reading moves to the current money |
| `SimulatorDriver.Statistics.GetDeltaBet` | blackjack_drivers/src/blackjack_simulator/simulation.rs:48-52 | the reported change is the amount bet since the last reading, never negative, and that reading moves to the total bet |
| `SimulatorDriver.BetKeepsMinimum` | blackjack_drivers/src/blackjack_simulator/simulation.rs:18-24 | after a bet the recorded minimum is still at most the current money and never rises |
| `SimulatorDriver.ReceiveKeepsMinimum` | blackjack_drivers/src/blackjack_simulator/simulation.rs:26-28 | receiving money below 2^31 keeps the minimum at most the current money and leaves it unchanged |
| `SimulatorDriver.SecondDeltaIsZero` | blackjack_drivers/src/blackjack_simulator/simulation.rs:42-52 | reading both changes twice in a row reports zero the second time |
| `SimulatorDriver.DecisionToFn` | blackjack_drivers/src/blackjack_simulator/simulation.rs:204-214 | a decision maps to a play operation exactly when it is stand, hit, double or surrender; any other decision panics |
| `SimulatorDriver.DecisionToString` | blackjack_drivers/src/blackjack_simulator/simulation.rs:216-224 | a decision has a non-empty name exactly when it is stand, hit, double or surrender |
| `SimulatorDriver.DecisionMappingsAgree` | blackjack_drivers/src/blackjack_simulator/simulation.rs:204-224 | both mappings accept the same decisions and each is one to one on them |

## Left out

- Threads: `multithreading_calculate_stand_hit_expectation` spawns workers over a shared raw-pointer table (blackjack/src/calculation/stand_hit_ex.rs:83-125). Only the stand pass is threaded there; the classification (lines 36-78) and the hit pass (lines 127-146) are sequential in the Rust function too. The model runs the stand pass's worker slots one after another, in index order (`StandHitPasses.StandPassInPlace`), and `StandHitPasses.StandPassSlotsFlat` proves that this order gives the stand pass over all dealt pairs. The thread count is a parameter, and the result of `available_parallelism` is an argument of `BettingPhase.NumberOfThreads`.
- StandHitPasses.MultithreadingCalculateStandHitExpectation: its contract ties the table to the sequential passes and says when they complete. It does not prove that walking the buckets from the highest card count down always finalises every child before its parent. So it does not prove completion on gathered buckets, nor agreement with `StandHitEx.StandHit` for the hit values the passes compute.
- SplitEx.Aux2: the settlement of a split pair is computed against the dealer recursion keyed by the extra hand (`StandOdds.DealerGetCardsByHand`). The shoe-keyed recursion that `aux2` calls as written (blackjack/src/calculation/split_ex.rs:542-568) is not used here; its defect is the stand_odds.rs finding below. The split values are therefore those of a correct dealer table.
- SplitEx.DealerTable: built from `StandOdds.DealerGetCardsByHand` for the same reason. The recursion as written is modelled separately, as `StandOdds.DealerGetCards`.
- Split is not reachable from the entry points: `calculate_expectations` has its split call commented out (blackjack/src/calculation.rs:377-426, 452-485), and its split value is always minus infinity. The split recursions are modelled and proved on their own. The `ex_split` tables of both solutions are never written, so the model leaves them out.
- ExtReals.Scale: 0 · (−∞) is taken as 0, where IEEE arithmetic gives NaN. Where a zero probability meets a minus-infinity value, the model's sum stays finite while the program's becomes NaN.
- CardProbability.Quot: a zero divisor gives 0, where f64 gives infinity or NaN. This arises for an empty shoe, for a shoe of one card under a hole-card exclusion, and for a shoe whose only cards are of the excluded hole rank.
- Floating point in general: every f64 expectation and probability is an exact real, and no rounding is modelled. `get_rate` of the driver statistics is an exact division of reals (`SimulatorDriver.Statistics.GetRate`), and the `fract()` whole-number checks of `place_bets` are stated over reals.
- SimulatorDriver.Statistics.GetRate: with nothing bet, the f64 division gives NaN (no money either) or an infinity. The model has no such value and returns `None`.
- LegacyCalculation.StoreFinalHand: a zero factorial-table entry (a saturated row) makes `1.0 / 0` infinite in f64. The model reports it as a failed step (`None`) instead of carrying an infinity.
- BettingPhase.CalculateSolutionWithoutInitialSituation: `total_combs` is computed in u32 (blackjack/src/calculation.rs:248-249) and would overflow for more than 31 decks. The model computes it with unbounded integers. With zero decks `total_combs - 1` underflows: a panic in a debug build, a zero divisor in a release build. The model does not cover that case. This member, the enumeration it is specified by (`BettingPhase.BettingPhaseOf`) and `BettingPhase.ImpossibleDealsKeepDefaults` require at least one deck.
- Per-rank counts: the counts are u16 in blackjack/src/statearray.rs:125 and u8 in src/statearray.rs:56, and `counts[index] += 1` (blackjack/src/statearray.rs:158, src/statearray.rs:79) would overflow past 65535 or 255 cards of one rank. `StateArray.CardCount.AddCard` and `LegacyStateArray.CardCount.AddCard` keep the counts as unbounded integers and do not model that overflow. The shoes the solver builds hold at most 16 cards of a rank per deck, far below either bound for the deck counts the rules allow.
- SplitEx.DEFAULT_AFTER_SPLIT: the split functions need `T: Default` and write `Default::default()` (blackjack/src/calculation/split_ex.rs:127, 216, 373), but no `impl Default` for the split entry types, and no derive of it, is part of this model's sources. The default entry is assumed to hold minus infinity in every field, as the other expectation types' defaults do (`ExpectationStandHit`, blackjack/src/calculation.rs:22-28). Every value the split recursions start from rests on that assumption.
- DealerProbability.EndWithNatural, Strategy.BasicStrategy.CalculateExpectationBeforeBet and Strategy.BasicStrategy.ShouldBuyInsurance: `end_with_dealer_natural` does nothing, and the two strategy methods return the constants −0.006 and `false`. They are modelled as written, and there is no property to prove about them.
- StateArray.CardCount.WithNumberOfDecks: the u8 product `number_of_decks * 16` overflows from 16 decks on. The constructor requires at most 15 decks.
- SimulatorDriver.Statistics.BetMoney: the requires exclude the u32 overflow of the total bet and the i32 overflow of the current money, which `bet_money` does not check.
- SimulatorDriver.Statistics.ReceiveMoney: the requires exclude the i32 overflow of `receive_money`.
- SimulatorDriver.Statistics.GetDeltaMoney: the requires exclude the i32 overflow of the subtraction in `get_delta_money`.
- Shoes.FindSuitableCard: the wanted first cards are limited to values 1 to 10. The Rust function accepts any u8, where 11 to 13 would pick jacks, queens and kings and 0 would underflow.
- Shoes.Shoe.ShuffleWithFirsts: the same limit on the first cards. The random tail shuffle is a caller-supplied sequence of draws (a Fisher–Yates swap per position), so any permutation the generator can produce is covered. Its contract states the placed first cards and a full shoe, not which suit of a value is chosen.
- Randomness in general: the shuffles of the simulator's shoe take their draws as a parameter. The cut-card index, an f64 proportion of the shoe, is a given integer.
- The `odds` parameter of the player's solver: `calculate_stand_odds_single_hand` is imported and called by blackjack/src/calculation/stand_hit_ex.rs (lines 3, 90, 114, 187 and 246), but no source file of this model defines it. blackjack/src/calculation/stand_odds.rs holds only the handler trait and `memoization_dealer_get_cards`, which `StandOdds` models. The missing function is the parameter `odds`, and nothing constrains it. Every result of `StandHitEx`, `StandHitPasses` and `Betting` holds for any `odds`, and no lemma ties it to `StandOdds`.
- Tables held by value: `SolutionForBettingPhase` keeps its ten stand/hit tables as values. Each up card's enumeration fills a table object and stores it back, rather than borrowing into the array.
- `into_solution_for_initial_situation` moves the tables out of a consumed solution, where `get_solution_for_initial_situation` clones them. The model has no ownership, so both are `BettingPhase.SolutionForBettingPhase.GetSolutionForInitialSituation`.
- BettingPhase.SolutionForBettingPhase.GetTotalExpectation is a plain field read with no contract of its own. The value it returns is stated by `BettingPhase.CalculateSolutionWithoutInitialSituation`.
- The earlier card container of src/statearray.rs defines no `contains_state`, `get_sum`, `get_total` or `is_soft`, although src/calculation.rs calls them. The model supplies them from the counts (`LegacyStateArray.StateArray.ContainsState`, `LegacyCalculation.GetSum`, `LegacyCalculation.GetTotal`).
- Fingerprint collisions of both containers are modelled as in the code: tables are keyed by the modular fingerprint, so two hands with one fingerprint share an entry. What is proved is narrower: adding one card always changes the fingerprint, and the packed index of a pair of hands is injective in the two fingerprints and the hand state.
- `Simulator::automatic_simulate_with_fixed_main_bet`, `loop_make_decisions_single`, `loop_make_decisions_multiple` and `check_bust_or_charlie` call strategy methods that the `Strategy` trait of blackjack/src/strategy.rs does not declare, so they are not part of this model. The simulator's steps they would drive are modelled one by one.
- The `SimulatorEventHandler` callbacks do nothing but report, so they are not part of this model.
- `preview_next_few_cards_in_shoe` only reads the shoe. It is not part of this model.
- `DpStrategySinglePlayer` (blackjack/src/strategy.rs:22-89) calls a function that does not exist, so it is not part of this model.
- blackjack/src/simulation/strategy.rs and blackjack/src/calculation2/dealer_play.rs are not declared as modules, and blackjack/src/calculation2/double_hands_ex.rs is an empty stub. src/simulation.rs is a test harness. None of them is part of this model.
- The phase guard is a procedural macro (blackjack_macros/src/lib.rs). Only its effect is modelled: every simulator step checks the phase and returns the macro's message.
- I/O: printing, the command-line driver and its YAML configuration (blackjack_drivers/src/blackjack_simulator/main.rs, blackjack_drivers/src/shared.rs), the printing loop of `simulate_playing_forever`, the commented-out stdin loop and the tests are not part of this model.

## Findings

| source | as written | input that shows it | evidently intended | confidence | as-written member | corrected member |
|---|---|---|---|---|---|---|
| blackjack/src/strategy.rs:186-191 | a pair of rank r reads pair-chart row r, but the rows are numbered from 0 | a pair of tens reads row 10 of a 10-row chart and panics; a pair of aces against an ace reads the row of a pair of 2s and hits | row r − 1 | high; not executed | `Strategy.PairOfTensPanics` | `Strategy.DecisionResolves` |
| blackjack/src/calculation2/dealer_ex.rs:226-227 | a dealer natural is recorded with the bust callback | ace up and ten in the hole: the lookups count it as worse than any player total up to 21 | record it as a natural, which beats every player total up to 21 | medium; not executed | `DealerEx.NaturalAsWritten` | `DealerEx.NaturalFixed` |
| blackjack/src/calculation2/dealer_ex.rs:124-159 | the memory pool is created with capacity 10000 but no elements, then indexed | `update_dealer_odds` on any non-empty list of shoes right after `new` indexes an empty vector and panics | a pool of 10000 allocated slots | high; not executed | `DealerEx.NewPoolPanics` | `DealerEx.FilledPoolNeverPanics` |
| blackjack/src/calculation/stand_odds.rs:34-37 | the memo check is keyed by the current shoe while the entries are keyed by the dealer's extra hand | up card 10, shoe {7, 8}, stand on soft 17: the root entry of the expected dealer total is 8.5 | key the check by the extra hand, giving 17.5 | high; not executed | `StandOdds.RootShared` | `StandOdds.RootByHand` |
| blackjack/src/calculation/split_ex.rs:474-510 | hand 1's double loop reads the best value of the entry, which the hit loop already filled for the same cards | stand −1, hit −1/4, doubled settlement −2: the doubled card is credited −1/4 | read the doubled settlement itself | high; not executed | `SplitEx.DoubleReadExample` | `SplitEx.Aux1DoubleFixedAddsSettlement` |
| blackjack/src/calculation/split_ex.rs:586-600 | a bust or Charlie hand returns ±1 before the doubling is applied | the doubled hand 5, 8, 9 (22) loses one bet | a doubled bust loses two bets | high; not executed | `SplitEx.DoubledBustAsWritten` | `SplitEx.OneHandFixedDoubles` |
| blackjack/src/calculation/split_ex.rs:223-249 | hand 0 may stand only above 11, yet a hand at the Charlie number must stop | Charlie number 5, hand 0 of five 2s: no decision is evaluated, so the pair keeps its default entry, taken as minus infinity | a hand that has to stop stands with its settled value | medium, resting on the assumed default entry of minus infinity in every field (see `SplitEx.DEFAULT_AFTER_SPLIT` under "## Left out"); not executed | `SplitEx.CharlieAsWritten` | `SplitEx.CharlieStandsFixed` |
| blackjack/src/simulation.rs:155-175 | (0, 0), documented as "not changing" the seating, fails the seat check first | `seat_player(0, 0)` returns the error "seat_order should be less than number_of_players" | accept (0, 0) and keep the current seating | high; not executed | `Simulation.SeatZeroZeroRefused` | `Simulation.SeatZeroZeroKeeps` |
| src/calculation.rs:256-268 | a soft total of 18 to 21 stops the dealer only at a table that hits soft 17 | a table that stands on soft 17, ace up and a 7 in the hole: the dealer draws on soft 18 | stand on soft 18 to 21, and on soft 17 where soft 17 stands | high; not executed | `LegacyCalculation.AsWrittenSoftEighteenDraws` | `LegacyCalculation.IntendedDealerCaseMeaning` |
| src/calculation.rs:157-166 | the value after a hit is the child's best including surrender at −0.5 and double | a card that busts the hand adds its share times −0.5 to the hit value | the better of the child's hit and stand, so a bust counts −1 | high; not executed | `LegacyCalculation.AsWrittenBustDrawCountsHalf` | `LegacyCalculation.IntendedBustDrawCountsWhole` |
