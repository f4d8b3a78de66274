/** Cards and suits (src/solitare/card.rs). A card id 0..51 names a suit index
    (id / 13) and a number (id mod 13, plus one: 1 is the ace, 13 the king). */
module Cards {

  datatype Suit = Hearts | Diamonds | Clubs | Spades

  /** A card as the game stores it. The source keeps the suit next to the suit
      index, always as FromIndex(suitIndex); here the suit is derived by SuitOf. */
  datatype Card = Card(suitIndex: int, number: int)

  /** The source's card ids and indices are 8-bit signed integers. */
  predicate IsI8(x: int) {
    -128 <= x < 128
  }

  /** An `as i8` cast: two's-complement wrap-around into -128..127. */
  function WrapI8(x: int): (r: int)
    ensures IsI8(r)
    ensures (r - x) % 256 == 0
    ensures IsI8(x) ==> r == x
  {
    (x + 128) % 256 - 128
  }

  /** A card that belongs to the 52-card deck. */
  predicate IsDeckCard(c: Card) {
    0 <= c.suitIndex < 4 && 1 <= c.number <= 13
  }

  /** The position of a suit in the source's enum. */
  function SuitIndex(s: Suit): int {
    match s
    case Hearts => 0
    case Diamonds => 1
    case Clubs => 2
    case Spades => 3
  }

  /** Suit::from_index: 0, 1 and 2 name the first three suits, every other index Spades. */
  function FromIndex(i: int): (s: Suit)
    ensures 0 <= i < 4 ==> SuitIndex(s) == i
    ensures !(0 <= i < 3) ==> s == Spades
  {
    if i == 0 then Hearts
    else if i == 1 then Diamonds
    else if i == 2 then Clubs
    else Spades
  }

  function SuitOf(c: Card): Suit {
    FromIndex(c.suitIndex)
  }

  predicate IsRed(s: Suit) {
    s == Hearts || s == Diamonds
  }

  /** Suit::same_color. */
  function SameColor(a: Suit, b: Suit): (r: bool)
    ensures r <==> (IsRed(a) <==> IsRed(b))
  {
    if a == Hearts || a == Diamonds then b == Hearts || b == Diamonds
    else b == Clubs || b == Spades
  }

  /** Card::new. The suit index is id / 13 in Rust's integer division, which rounds
      toward zero (Dafny's rounds toward minus infinity for negative ids); the number
      is id.rem_euclid(13) + 1, which is Dafny's `%` for a positive divisor. */
  function NewCard(id: int): (c: Card)
    requires IsI8(id)
    ensures 1 <= c.number <= 13
    ensures 0 <= id < 52 ==> IsDeckCard(c) && CardId(c) == id
  {
    var suitIndex := if id >= 0 then id / 13 else -((-id) / 13);
    Card(suitIndex, id % 13 + 1)
  }

  /** The id a deck card was made from. */
  function CardId(c: Card): int {
    13 * c.suitIndex + c.number - 1
  }

  lemma NewCardOfCardId(c: Card)
    requires IsDeckCard(c)
    ensures 0 <= CardId(c) < 52
    ensures NewCard(CardId(c)) == c
  {
    var id := CardId(c);
    assert id / 13 == c.suitIndex && id % 13 == c.number - 1;
  }

  /** Distinct ids of the deck give distinct cards. */
  lemma NewCardInjective(x: int, y: int)
    requires 0 <= x < 52 && 0 <= y < 52
    ensures NewCard(x) == NewCard(y) <==> x == y
  {
  }

  lemma FromIndexInjective(i: int, j: int)
    requires 0 <= i < 4 && 0 <= j < 4
    ensures FromIndex(i) == FromIndex(j) <==> i == j
  {
  }

  /** same_color is an equivalence with exactly two classes: red and black. */
  lemma SameColorIsEquivalence(a: Suit, b: Suit, c: Suit)
    ensures SameColor(a, a)
    ensures SameColor(a, b) == SameColor(b, a)
    ensures SameColor(a, b) && SameColor(b, c) ==> SameColor(a, c)
    ensures SameColor(a, b) || SameColor(b, c) || SameColor(a, c)
    ensures !SameColor(Hearts, Spades)
  {
  }

  /** `card` may be laid on `onto`: the colours differ and onto's number is one higher.
      This is the test of the table and deck move scans and of the draw heuristic. */
  predicate CanStack(onto: Card, card: Card) {
    !SameColor(SuitOf(card), SuitOf(onto)) && onto.number == card.number + 1
  }
}
