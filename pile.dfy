/** A pile: an ordered stack of cards whose top is the card added last. */
module Piles {
  import opened Cards

  /** The top of a stack of cards (the last one), or None when there is none. */
  function TopOf(cards: seq<Card>): Option<Card> {
    if |cards| == 0 then None else Some(cards[|cards| - 1])
  }

  class Pile {
    /** The cards held, bottom first. */
    var cards: seq<Card>

    constructor()
      ensures cards == []
    {
      cards := [];
    }

    /** Puts a card on top; the cards already held stay as they were. */
    method Add(card: Card)
      modifies this
      ensures cards == old(cards) + [card]
      ensures Size() == old(Size()) + 1 && Top() == Some(card)
    {
      cards := cards + [card];
    }

    /** Removes every card. */
    method Clear()
      modifies this
      ensures cards == []
      ensures Size() == 0 && Top() == None
    {
      cards := [];
    }

    /** The top card, or None for an empty pile. */
    function Top(): (r: Option<Card>)
      reads this
      ensures r == None <==> cards == []
      ensures r != None ==> r.value == cards[|cards| - 1]
    {
      TopOf(cards)
    }

    /** The number of cards held. */
    function Size(): nat
      reads this
    {
      |cards|
    }
  }
}
