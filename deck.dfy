/** The deck: a stack of cards drawn from the end, built as the standard 52 and shuffled. */
module Decks {
  import opened Cards
  import opened Piles

  /** The standard 52 cards in the order they are built: suit by suit, ranks 1 to 13 in each. */
  function StandardCards(): (d: seq<Card>)
    ensures |d| == 52
  {
    seq(52, i requires 0 <= i < 52 => Card(SuitNames[i / 13], i % 13 + 1))
  }

  /** The card of suit number s and rank r sits at position 13 * s + r - 1. */
  lemma StandardCardsAt(s: nat, r: Rank)
    requires s < 4
    ensures StandardCards()[13 * s + r - 1] == Card(SuitNames[s], r)
  {
    var i := 13 * s + r - 1;
    assert i / 13 == s && i % 13 == r - 1;
  }

  ghost predicate Distinct<T>(s: seq<T>) {
    forall i, j :: 0 <= i < j < |s| ==> s[i] != s[j]
  }

  /** In a sequence without repetitions every element occurs once. */
  lemma {:induction false} DistinctCount<T>(s: seq<T>, x: T)
    requires Distinct(s)
    ensures multiset(s)[x] == if x in s then 1 else 0
  {
    if s != [] {
      var t := s[..|s| - 1];
      assert s == t + [s[|s| - 1]];
      assert Distinct(t);
      DistinctCount(t, x);
      assert s[|s| - 1] !in t;
    }
  }

  lemma StandardCardsDistinct()
    ensures Distinct(StandardCards())
  {
    SuitNamesOrder();
  }

  /** The standard deck holds every card exactly once. */
  lemma StandardCardsOnce(c: Card)
    ensures multiset(StandardCards())[c] == 1
  {
    var s := SuitIndex(c.suit);
    StandardCardsAt(s, c.rank);
    StandardCardsDistinct();
    DistinctCount(StandardCards(), c);
  }

  /** The text of one card in the deck listing. */
  function Line(c: Card): string {
    c.ToString() + "\n"
  }

  /** The deck listing: one line per card, the last card (the top) first. */
  function Listing(cards: seq<Card>): string {
    if cards == [] then "" else Listing(cards[1..]) + Line(cards[0])
  }

  /** Listing a deck lists the part above before the part below. */
  lemma {:induction false} ListingConcat(below: seq<Card>, above: seq<Card>)
    ensures Listing(below + above) == Listing(above) + Listing(below)
  {
    if below != [] {
      assert (below + above)[1..] == below[1..] + above;
      ListingConcat(below[1..], above);
    } else {
      assert below + above == above;
    }
  }

  /** The top card's line comes first. */
  lemma ListingTopFirst(cards: seq<Card>, top: Card)
    ensures Listing(cards + [top]) == Line(top) + Listing(cards)
  {
    ListingConcat(cards, [top]);
    assert Listing([top]) == Listing([]) + Line(top);
  }

  /** s with x inserted before position index, as splice(index, 0, x) does. */
  function Splice(s: seq<Card>, index: nat, x: Card): (r: seq<Card>)
    requires index <= |s|
    ensures |r| == |s| + 1 && r[index] == x
    ensures r[..index] == s[..index] && r[index + 1..] == s[index..]
    ensures multiset(r) == multiset(s) + multiset{x}
  {
    assert s == s[..index] + s[index..];
    s[..index] + [x] + s[index..]
  }

  class Deck {
    /** The cards, bottom first; the top of the deck is the last one. */
    var cards: seq<Card>

    constructor(cards: seq<Card>)
      ensures this.cards == cards
    {
      this.cards := cards;
    }

    /** Replaces the contents with the standard 52 cards. */
    method Populate()
      modifies this
      ensures cards == StandardCards()
    {
      var built: seq<Card> := [];
      for s := 0 to |SuitNames|
        invariant built == StandardCards()[..13 * s]
      {
        for rank := 1 to 14
          invariant built == StandardCards()[..13 * s + rank - 1]
        {
          StandardCardsAt(s, rank);
          built := built + [Card(SuitNames[s], rank)];
        }
      }
      cards := built;
    }

    /** Reorders the cards: each card popped from the top is inserted at a chosen position. */
    method Shuffle()
      modifies this
      ensures |cards| == |old(cards)|
      ensures multiset(cards) == multiset(old(cards))
    {
      var shuffled: seq<Card> := [];
      while cards != []
        invariant multiset(cards) + multiset(shuffled) == multiset(old(cards))
        decreases |cards|
      {
        var card := cards[|cards| - 1];
        assert cards == cards[..|cards| - 1] + [card];
        cards := cards[..|cards| - 1];
        var index :| 0 <= index <= |shuffled|;
        shuffled := Splice(shuffled, index, card);
      }
      cards := shuffled;
      assert |multiset(cards)| == |multiset(old(cards))|;
    }

    /** Removes and returns the top card; an empty deck gives None and stays empty. */
    method Draw() returns (card: Option<Card>)
      modifies this
      ensures old(cards) == [] ==> card == None && cards == []
      ensures old(cards) != [] ==> card != None && old(cards) == cards + [card.value]
    {
      if |cards| == 0 {
        return None;
      }
      card := Some(cards[|cards| - 1]);
      cards := cards[..|cards| - 1];
    }

    /** The top card, or None for an empty deck. */
    function Peek(): (r: Option<Card>)
      reads this
      ensures r == None <==> cards == []
      ensures r != None ==> r.value == cards[|cards| - 1]
    {
      TopOf(cards)
    }

    /** The listing of the deck, top card first, one line per card. */
    method ToString() returns (str: string)
      ensures str == Listing(cards)
    {
      str := "";
      for i := |cards| downto 0
        invariant str == Listing(cards[i..])
      {
        assert cards[i..][1..] == cards[i + 1..];
        str := str + Line(cards[i]);
      }
    }
  }
}
