/** Playing cards of a standard 52-card deck: suits, ranks and their names. */
module Cards {

  datatype Option<+T> = None | Some(value: T)

  /** The four suit names, in the order the deck is built. */
  const SuitNames: seq<string> := ["Clubs", "Diamonds", "Hearts", "Spades"]

  /** A suit is kept as its name, as the game does. */
  type Suit = s: string | s in SuitNames witness "Clubs"

  /** Ranks 1 (Ace) to 13 (King), the range a card is constructed with. */
  type Rank = r: int | 1 <= r <= 13 witness 1

  datatype Card = Card(suit: Suit, rank: Rank) {
    /** The card's full name, such as "Ace of Clubs": the first space ends the rank name, the suit follows " of ". */
    function ToString(): (r: string)
      ensures var k := FirstSpace(r); r[..k] == RankName(rank).value && r[k..] == " of " + suit
    {
      var name := RankName(rank).value;
      RankNameHasNoSpace(rank);
      FirstSpaceAfter(name, " of " + suit);
      assert name + " of " + suit == name + (" of " + suit);
      name + " of " + suit
    }
  }

  lemma SuitNamesOrder()
    ensures |SuitNames| == 4
    ensures SuitNames[0] == "Clubs" && SuitNames[1] == "Diamonds"
    ensures SuitNames[2] == "Hearts" && SuitNames[3] == "Spades"
    ensures forall i, j :: 0 <= i < j < 4 ==> SuitNames[i] != SuitNames[j]
  {
  }

  /** The position of a suit in SuitNames. */
  function SuitIndex(s: Suit): (i: nat)
    ensures i < 4 && SuitNames[i] == s
  {
    if s == "Clubs" then 0
    else if s == "Diamonds" then 1
    else if s == "Hearts" then 2
    else 3
  }

  /** The full name of a rank; None outside 1..13, where the switch has no case. */
  function RankName(rank: int): (r: Option<string>)
    ensures r.Some? <==> 1 <= rank <= 13
  {
    match rank
    case 1 => Some("Ace")
    case 2 => Some("Two")
    case 3 => Some("Three")
    case 4 => Some("Four")
    case 5 => Some("Five")
    case 6 => Some("Six")
    case 7 => Some("Seven")
    case 8 => Some("Eight")
    case 9 => Some("Nine")
    case 10 => Some("Ten")
    case 11 => Some("Jack")
    case 12 => Some("Queen")
    case 13 => Some("King")
    case _ => None
  }

  /** The short label of a rank; None outside 1..13. */
  function RankAbbreviation(rank: int): (r: Option<string>)
    ensures r.Some? <==> 1 <= rank <= 13
  {
    match rank
    case 1 => Some("A")
    case 2 => Some("2")
    case 3 => Some("3")
    case 4 => Some("4")
    case 5 => Some("5")
    case 6 => Some("6")
    case 7 => Some("7")
    case 8 => Some("8")
    case 9 => Some("9")
    case 10 => Some("10")
    case 11 => Some("J")
    case 12 => Some("Q")
    case 13 => Some("K")
    case _ => None
  }

  /** The symbol shown for a suit name; None for any other string. */
  function SuitSymbol(suit: string): (r: Option<string>)
    ensures r.Some? <==> suit in SuitNames
  {
    if suit == "Clubs" then Some("\U{2663}\U{FE0F}")
    else if suit == "Diamonds" then Some("\U{2666}\U{FE0F}")
    else if suit == "Hearts" then Some("\U{2665}\U{FE0F}")
    else if suit == "Spades" then Some("\U{2660}\U{FE0F}")
    else None
  }

  /** Decimal numeral of a natural number, an independent reference for the numeric labels. */
  function Numeral(n: nat): (s: string)
    ensures |s| >= 1
    decreases n
  {
    if n < 10 then ["0123456789"[n]] else Numeral(n / 10) + ["0123456789"[n % 10]]
  }

  /** The rank denoted by a full rank name, the inverse of RankName. */
  function RankOfName(name: string): (r: Option<Rank>)
  {
    if name == "Ace" then Some(1)
    else if name == "Two" then Some(2)
    else if name == "Three" then Some(3)
    else if name == "Four" then Some(4)
    else if name == "Five" then Some(5)
    else if name == "Six" then Some(6)
    else if name == "Seven" then Some(7)
    else if name == "Eight" then Some(8)
    else if name == "Nine" then Some(9)
    else if name == "Ten" then Some(10)
    else if name == "Jack" then Some(11)
    else if name == "Queen" then Some(12)
    else if name == "King" then Some(13)
    else None
  }

  /** RankName and RankOfName are inverse to each other. */
  lemma RankNameRoundTrip(rank: int, name: string)
    ensures RankName(rank) == Some(name) <==> (RankOfName(name).Some? && RankOfName(name).value == rank)
  {
  }

  /** Different ranks have different names. */
  lemma RankNameInjective(a: int, b: int)
    requires RankName(a).Some? && RankName(a) == RankName(b)
    ensures a == b
  {
    RankNameRoundTrip(a, RankName(a).value);
    RankNameRoundTrip(b, RankName(a).value);
  }

  /** The numeric ranks are labelled by their decimal numeral. */
  lemma NumericAbbreviation(rank: int)
    requires 2 <= rank <= 10
    ensures RankAbbreviation(rank) == Some(Numeral(rank))
  {
    if rank == 10 {
      assert Numeral(1) == "1";
      assert Numeral(10) == Numeral(1) + "0" == "10";
    }
  }

  /** Ace and the face cards are labelled by the first letter of their name. */
  lemma LetterAbbreviation(rank: int)
    requires rank == 1 || 11 <= rank <= 13
    ensures RankAbbreviation(rank) == Some([RankName(rank).value[0]])
  {
  }

  /** No rank name contains a space, so the first space of a card name ends the rank. */
  lemma RankNameHasNoSpace(rank: Rank)
    ensures ' ' !in RankName(rank).value
  {
  }

  /** The four suits have four different symbols. */
  lemma SuitSymbolsDistinct(a: Suit, b: Suit)
    requires a != b
    ensures SuitSymbol(a) != SuitSymbol(b)
  {
  }

  /** The index of the first space in s, or |s| when there is none. */
  function FirstSpace(s: string): (k: nat)
    ensures k <= |s|
  {
    if s == [] || s[0] == ' ' then 0 else 1 + FirstSpace(s[1..])
  }

  lemma {:induction false} FirstSpaceAfter(x: string, rest: string)
    requires ' ' !in x && rest != [] && rest[0] == ' '
    ensures FirstSpace(x + rest) == |x|
  {
    if x != [] {
      assert (x + rest)[1..] == x[1..] + rest;
      FirstSpaceAfter(x[1..], rest);
    }
  }

  /** Distinct cards have distinct names. */
  lemma CardNameInjective(a: Card, b: Card)
    requires a.ToString() == b.ToString()
    ensures a == b
  {
    var u := a.ToString();
    var k := FirstSpace(u);
    assert " of " + a.suit == u[k..] == " of " + b.suit;
    assert a.suit == (" of " + a.suit)[4..];
    assert b.suit == (" of " + b.suit)[4..];
    RankNameInjective(a.rank, b.rank);
  }
}
