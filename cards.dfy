/**
 * Playing cards: a suit, a rank (value 2..14 with its display glyph), and the
 * face-up flag the engine flips when a card is shown.
 */
module Cards {

  datatype Suit = Hearts | Diamonds | Clubs | Spades

  /** The four suits in the order the deck is built. */
  const SUITS: seq<Suit> := [Hearts, Diamonds, Clubs, Spades]

  /** A rank value: 2..10, then 11 (J), 12 (Q), 13 (K) and 14 (A). */
  type Value = v: int | 2 <= v <= 14 witness 2

  datatype Rank = Rank(value: Value, display: string)

  /** The thirteen ranks in the order the deck is built. */
  const RANKS: seq<Rank> := [
    Rank(2, "2"), Rank(3, "3"), Rank(4, "4"), Rank(5, "5"), Rank(6, "6"),
    Rank(7, "7"), Rank(8, "8"), Rank(9, "9"), Rank(10, "10"),
    Rank(11, "J"), Rank(12, "Q"), Rank(13, "K"), Rank(14, "A")]

  /** What the rules look at: suit and value. Two cards are equal when their faces are. */
  datatype Face = Face(suit: Suit, value: Value)

  class Card {
    const suit: Suit
    const rank: Rank
    const value: Value
    const display: string
    var isRevealed: bool

    /** A new card takes value and display from its rank and starts face down. */
    constructor (suit: Suit, rank: Rank)
      ensures this.suit == suit && this.rank == rank
      ensures value == rank.value && display == rank.display
      ensures !isRevealed
    {
      this.suit := suit;
      this.rank := rank;
      this.value := rank.value;
      this.display := rank.display;
      this.isRevealed := false;
    }

    function GetFace(): Face { Face(suit, value) }

    /** Hearts and diamonds are red, clubs and spades black. */
    function GetColor(): (color: string)
      ensures color == "red" <==> suit == Hearts || suit == Diamonds
      ensures color == "red" || color == "black"
    {
      if suit == Hearts || suit == Diamonds then "red" else "black"
    }

    function GetSuitSymbol(): (symbol: string)
      ensures |symbol| == 1
      ensures symbol == SuitSymbol(suit)
    {
      SuitSymbol(suit)
    }

    /** The display glyph of the rank followed by the suit glyph. */
    function ToString(): (s: string)
      ensures s == display + GetSuitSymbol()
      ensures |s| == |display| + 1 && s[|s| - 1] == SuitSymbol(suit)[0]
    {
      display + GetSuitSymbol()
    }

    /** Same suit and same value; the face-up flag and object identity play no part. */
    function Equals(other: Card): (b: bool)
      ensures b <==> GetFace() == other.GetFace()
    {
      suit == other.suit && value == other.value
    }

    method Reveal()
      modifies this
      ensures isRevealed
    {
      isRevealed := true;
    }

    method Hide()
      modifies this
      ensures !isRevealed
    {
      isRevealed := false;
    }
  }

  function SuitSymbol(s: Suit): string {
    match s
    case Hearts => "\U{2665}"
    case Diamonds => "\U{2666}"
    case Clubs => "\U{2663}"
    case Spades => "\U{2660}"
  }

  /** The four glyphs are single characters and pairwise different. */
  lemma SuitSymbolsDistinct(s: Suit, t: Suit)
    ensures |SuitSymbol(s)| == 1
    ensures SuitSymbol(s) == SuitSymbol(t) <==> s == t
  {
  }

  /** Card equality is an equivalence relation. */
  lemma EqualsIsEquivalence(a: Card, b: Card, c: Card)
    ensures a.Equals(a)
    ensures a.Equals(b) <==> b.Equals(a)
    ensures a.Equals(b) && b.Equals(c) ==> a.Equals(c)
  {
  }

  function Faces(cards: seq<Card>): (fs: seq<Face>)
    ensures |fs| == |cards|
    ensures forall i :: 0 <= i < |cards| ==> fs[i] == cards[i].GetFace()
  {
    seq(|cards|, i requires 0 <= i < |cards| => cards[i].GetFace())
  }

  function Values(cards: seq<Card>): (vs: seq<int>)
    ensures |vs| == |cards|
    ensures forall i :: 0 <= i < |cards| ==> vs[i] == cards[i].value
  {
    if cards == [] then [] else [cards[0].value as int] + Values(cards[1..])
  }
}
