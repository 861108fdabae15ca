/**
 * Playing cards of the table simulator (blackjack/src/simulation.rs): a
 * face value 1..13 (ace .. king) and a suit, their byte encoding 0..51, the
 * value a card counts in blackjack and the two-character display name.
 */
module Cards {
  import opened Wrappers

  datatype Suit = Diamond | Club | Heart | Spade

  datatype Card = Card(faceValue: int, suit: Suit)

  /** The order of `Suit::iter()` and the discriminant `suit as u8`. */
  const SUITS: seq<Suit> := [Diamond, Club, Heart, Spade]

  function SuitIndex(s: Suit): (i: int)
    ensures 0 <= i < 4 && SUITS[i] == s
  {
    match s
    case Diamond => 0
    case Club => 1
    case Heart => 2
    case Spade => 3
  }

  predicate ValidCard(c: Card)
  {
    1 <= c.faceValue <= 13
  }

  predicate AllValid(cards: seq<Card>)
  {
    forall i :: 0 <= i < |cards| ==> ValidCard(cards[i])
  }

  /** `Card::default()`: the ace of diamonds. */
  const DEFAULT_CARD: Card := Card(1, Diamond)

  /** `FACE_VALUE_TO_BLACKJACK_VALUE`. */
  const FACE_VALUE_TO_BLACKJACK_VALUE: seq<int> := [1, 2, 3, 4, 5, 6, 7, 8, 9, 10, 10, 10, 10]

  /** The value a card counts: its face value, capped at 10 for J, Q, K. A
      face value outside 1..13 indexes out of the table, a panic. */
  function BlackjackValue(c: Card): (v: int)
    requires ValidCard(c)
    ensures 1 <= v <= 10
    ensures c.faceValue <= 10 ==> v == c.faceValue
    ensures c.faceValue > 10 ==> v == 10
  {
    FACE_VALUE_TO_BLACKJACK_VALUE[c.faceValue - 1]
  }

  /** `Into<u8>`: suit * 13 + face value - 1. */
  function ToByte(c: Card): (b: int)
    requires ValidCard(c)
    ensures 0 <= b < 52
    ensures b / 13 == SuitIndex(c.suit) && b % 13 == c.faceValue - 1
  {
    SuitIndex(c.suit) * 13 + c.faceValue - 1
  }

  /** `TryFrom<u8>`: the card of an encoding below 52, else an error. */
  function FromByte(b: int): (r: Result<Card, ()>)
    requires 0 <= b < 0x100
    ensures r.Ok? <==> b < 52
    ensures r.Ok? ==> ValidCard(r.value)
  {
    if b >= 52 then Err(())
    else Ok(Card(b % 13 + 1, SUITS[b / 13]))
  }

  /** The card of an encoding 0..51. */
  function CardOf(b: int): (c: Card)
    requires 0 <= b < 52
    ensures ValidCard(c) && ToByte(c) == b && FromByte(b) == Ok(c)
  {
    Card(b % 13 + 1, SUITS[b / 13])
  }

  /** Encoding then decoding gives the card back. */
  lemma FromToByte(c: Card)
    requires ValidCard(c)
    ensures FromByte(ToByte(c)) == Ok(c)
  {
  }

  /** Decoding then encoding gives the byte back. */
  lemma ToFromByte(b: int)
    requires 0 <= b < 52
    ensures FromByte(b).Ok? && ToByte(FromByte(b).value) == b
  {
    var c := FromByte(b).value;
    assert SuitIndex(c.suit) == b / 13;
  }

  /** Distinct cards have distinct encodings. */
  lemma ToByteInjective(c: Card, d: Card)
    requires ValidCard(c) && ValidCard(d) && ToByte(c) == ToByte(d)
    ensures c == d
  {
    FromToByte(c);
    FromToByte(d);
  }

  const SUIT_CHARS: seq<char> := ['D', 'C', 'H', 'S']
  const FACE_CHARS: seq<char> := ['A', '2', '3', '4', '5', '6', '7', '8', '9', 'T', 'J', 'Q', 'K']

  /** `Display`: the suit letter then the face letter; any other face value
      panics. */
  function Display(c: Card): (s: Option<string>)
    ensures s.Some? <==> ValidCard(c)
    ensures s.Some? ==> |s.value| == 2 && s.value[0] == SUIT_CHARS[SuitIndex(c.suit)]
                        && s.value[1] == FACE_CHARS[c.faceValue - 1]
  {
    if ValidCard(c) then Some([SUIT_CHARS[SuitIndex(c.suit)], FACE_CHARS[c.faceValue - 1]]) else None
  }

  /** Distinct valid cards display differently. */
  lemma DisplayInjective(c: Card, d: Card)
    requires ValidCard(c) && ValidCard(d) && Display(c) == Display(d)
    ensures c == d
  {
    var s := Display(c).value;
    assert s[1] == FACE_CHARS[c.faceValue - 1] == FACE_CHARS[d.faceValue - 1];
    assert s[0] == SUIT_CHARS[SuitIndex(c.suit)] == SUIT_CHARS[SuitIndex(d.suit)];
    FaceCharsDistinct(c.faceValue - 1, d.faceValue - 1);
  }

  lemma FaceCharsDistinct(i: int, j: int)
    requires 0 <= i < 13 && 0 <= j < 13 && FACE_CHARS[i] == FACE_CHARS[j]
    ensures i == j
  {
  }
}
