/** The game engine: one deck, two ball piles, ten pin piles and the card being played. */
module Games {
  import opened Cards
  import opened Piles
  import opened Decks
  import opened Rules

  class Game {
    const deck: Deck
    const balls: seq<Pile>
    const pins: seq<Pile>
    /** The card drawn last, waiting to be played. */
    var activeCard: Option<Card>

    /** Two balls and ten pins, twelve different pile objects. */
    ghost predicate Valid() {
      && |balls| == BallCount && |pins| == PinCount
      && (forall i, j :: 0 <= i < j < |balls| ==> balls[i] != balls[j])
      && (forall i, j :: 0 <= i < j < |pins| ==> pins[i] != pins[j])
      && (forall i, j :: 0 <= i < |balls| && 0 <= j < |pins| ==> balls[i] != pins[j])
    }

    ghost function BallCards(): (r: seq<seq<Card>>)
      reads balls
      ensures |r| == |balls| && forall k :: 0 <= k < |balls| ==> r[k] == balls[k].cards
    {
      seq(|balls|, k requires 0 <= k < |balls| reads balls => balls[k].cards)
    }

    ghost function PinCards(): (r: seq<seq<Card>>)
      reads pins
      ensures |r| == |pins| && forall k :: 0 <= k < |pins| ==> r[k] == pins[k].cards
    {
      seq(|pins|, k requires 0 <= k < |pins| reads pins => pins[k].cards)
    }

    /** The piles the active card may be played to. */
    ghost function Targets(): seq<PileId>
      reads this, balls, pins
      requires activeCard != None
    {
      Playable(Tops(PinCards()), activeCard.value.rank, Sizes(BallCards()))
    }

    /** A card is active and the state is one the rules keep between plays. */
    ghost predicate Playing()
      reads this, deck, balls, pins
    {
      Valid() && activeCard != None && InPlay(deck.cards, BallCards(), PinCards(), activeCard.value)
    }

    /** A new frame with its first card drawn: every pile empty, the other 51 cards in the deck. */
    ghost predicate FrameDealt()
      reads this, deck, balls, pins
    {
      && activeCard != None
      && multiset(deck.cards) + multiset{activeCard.value} == multiset(StandardCards())
      && (forall k :: 0 <= k < |balls| ==> balls[k].cards == [])
      && (forall k :: 0 <= k < |pins| ==> pins[k].cards == [])
    }

    constructor()
      ensures Valid()
      ensures fresh(deck) && deck.cards == [] && activeCard == None
      ensures forall k :: 0 <= k < |balls| ==> fresh(balls[k]) && balls[k].cards == []
      ensures forall k :: 0 <= k < |pins| ==> fresh(pins[k]) && pins[k].cards == []
    {
      var d := new Deck([]);
      var bs: seq<Pile> := [];
      for i := 0 to BallCount
        invariant |bs| == i
        invariant forall k :: 0 <= k < i ==> fresh(bs[k]) && bs[k].cards == []
        invariant forall k, m :: 0 <= k < m < i ==> bs[k] != bs[m]
        invariant d.cards == []
      {
        var ball := new Pile();
        bs := bs + [ball];
      }
      var ps: seq<Pile> := [];
      for i := 0 to PinCount
        invariant |ps| == i
        invariant forall k :: 0 <= k < i ==> fresh(ps[k]) && ps[k].cards == []
        invariant forall k, m :: 0 <= k < m < i ==> ps[k] != ps[m]
        invariant forall k, m :: 0 <= k < |bs| && 0 <= m < i ==> bs[k] != ps[m]
        invariant forall k :: 0 <= k < |bs| ==> bs[k].cards == []
        invariant d.cards == []
      {
        var pin := new Pile();
        ps := ps + [pin];
      }
      deck := d;
      balls := bs;
      pins := ps;
      activeCard := None;
    }

    /** Starts the first frame and draws its first card. */
    method StartGame()
      requires Valid()
      modifies this, deck, balls, pins
      ensures FrameDealt() && Playing()
    {
      NextFrame();
      Draw();
      FrameStartInPlay(deck.cards, activeCard.value, BallCards(), PinCards());
    }

    /** A new frame: a freshly built and shuffled deck, every pile emptied. */
    method NextFrame()
      requires Valid()
      modifies deck, balls, pins
      ensures |deck.cards| == 52 && multiset(deck.cards) == multiset(StandardCards())
      ensures forall k :: 0 <= k < |balls| ==> balls[k].cards == []
      ensures forall k :: 0 <= k < |pins| ==> pins[k].cards == []
    {
      deck.Populate();
      deck.Shuffle();
      for k := 0 to |balls|
        invariant forall m :: 0 <= m < k ==> balls[m].cards == []
        modifies balls
      {
        balls[k].Clear();
      }
      for k := 0 to |pins|
        invariant forall m :: 0 <= m < k ==> pins[m].cards == []
        invariant forall m :: 0 <= m < |balls| ==> balls[m].cards == []
        modifies pins
      {
        pins[k].Clear();
      }
    }

    /** Makes the top card of the deck the active card. */
    method Draw()
      requires deck.cards != []
      modifies this, deck
      ensures activeCard != None && old(deck.cards) == deck.cards + [activeCard.value]
    {
      var card := deck.Draw();
      activeCard := card;
    }

    /**
     * One scan of the pins for a card of rank target: the first pin showing
     * that rank, or, when there is none, the last pin ranked below and the
     * first pin ranked above the target (-1 and |pins| when there are none).
     */
    method ScanPins(target: int) returns (m: nat, lower: int, upper: nat)
      requires Valid()
      ensures var tops := Tops(PinCards());
        && m <= |pins|
        && (m < |pins| ==> Matches(tops[m], target))
        && (forall j :: 0 <= j < m ==> !Matches(tops[j], target))
      ensures var tops := Tops(PinCards());
        m == |pins| ==>
          && -1 <= lower < |pins| && (lower >= 0 ==> Below(tops[lower], target))
          && (forall j :: lower < j < |pins| ==> !Below(tops[j], target))
          && upper <= |pins| && (upper < |pins| ==> Above(tops[upper], target))
          && (forall j :: 0 <= j < upper ==> !Above(tops[j], target))
    {
      ghost var tops := Tops(PinCards());
      lower := -1;
      upper := |pins|;
      for i := 0 to |pins|
        invariant forall j :: 0 <= j < i ==> !Matches(tops[j], target)
        invariant -1 <= lower < i && (lower >= 0 ==> Below(tops[lower], target))
        invariant forall j :: lower < j < i ==> !Below(tops[j], target)
        invariant upper <= |pins| && (upper < |pins| ==> upper < i && Above(tops[upper], target))
        invariant forall j :: 0 <= j < i && j < upper ==> !Above(tops[j], target)
      {
        var top := pins[i].Top();
        assert top == tops[i];
        if top != None {
          if top.value.rank == target {
            return i, lower, upper;
          }
          if top.value.rank < target {
            lower := i;
          }
          if top.value.rank > target && i < upper {
            upper := i;
          }
        }
      }
      m := |pins|;
    }

    /** The piles the active card may be played to, found by one scan of the pins. */
    method GetPlayablePiles() returns (playable: seq<PileId>)
      requires Valid() && activeCard != None
      ensures playable == Targets()
    {
      var target := activeCard.value.rank;
      ghost var tops := Tops(PinCards());
      ghost var sizes := Sizes(BallCards());
      var m, lower, upper := ScanPins(target);
      if m < |pins| {
        PlayableMatch(tops, target, sizes, m);
        return [Pin(m)];
      }

      if lower + 1 < upper {
        var playablePins: seq<PileId> := [];
        for i := lower + 1 to upper
          invariant playablePins == PinRange(lower + 1, i)
        {
          playablePins := playablePins + [Pin(i)];
        }
        PlayableGap(tops, target, sizes, lower, upper);
        return playablePins;
      }

      PlayableFallback(tops, target, sizes, lower, upper);
      for i := 0 to BallCount
        invariant forall j :: 0 <= j < i ==> sizes[j] >= ThrowSize
      {
        if balls[i].Size() < ThrowSize {
          return [Ball(i)];
        }
      }
      return [];
    }

    /** The number of non-empty pins. */
    method CountFilledPins() returns (count: nat)
      requires Valid()
      ensures count == Filled(Tops(PinCards()))
    {
      ghost var tops := Tops(PinCards());
      count := 0;
      for i := 0 to |pins|
        invariant count == Filled(tops[..i])
      {
        assert tops[..i + 1][..i] == tops[..i];
        if pins[i].Top() != None {
          count := count + 1;
        }
      }
      assert tops[..|pins|] == tops;
    }

    /**
     * The end of every legal play: a new frame when reset, then a card is
     * drawn. Without a reset the piles keep their cards.
     */
    method EndPlay(reset: bool)
      requires Valid() && (reset || deck.cards != [])
      modifies this, deck, balls, pins
      ensures reset ==> FrameDealt() && Playing()
      ensures !reset ==>
        && BallCards() == old(BallCards()) && PinCards() == old(PinCards())
        && activeCard != None && old(deck.cards) == deck.cards + [activeCard.value]
    {
      if reset {
        NextFrame();
      }
      Draw();
      if reset {
        FrameStartInPlay(deck.cards, activeCard.value, BallCards(), PinCards());
      }
    }

    /**
     * Plays the active card to pin i if that is a target. Filling the
     * tenth pin announces a strike (first ball not thrown) or a spare and
     * starts a new frame. A card is then drawn.
     */
    method PlayPin(i: nat) returns (event: Option<Event>)
      requires Playing() && i < |pins|
      modifies this, deck, balls, pins
      ensures Playing()
      ensures Pin(i) !in old(Targets()) ==>
        && event == None && activeCard == old(activeCard) && deck.cards == old(deck.cards)
        && BallCards() == old(BallCards()) && PinCards() == old(PinCards())
      ensures Pin(i) in old(Targets()) ==>
        var played := old(PinCards())[i := old(pins[i].cards) + [old(activeCard).value]];
        if Filled(Tops(played)) == PinCount then
          && event == Some(if old(|balls[0].cards|) < ThrowSize then Strike else Spare)
          && FrameDealt()
        else
          && event == None
          && PinCards() == played && BallCards() == old(BallCards())
          && old(deck.cards) == deck.cards + [activeCard.value]
    {
      var playable := GetPlayablePiles();
      if Pin(i) !in playable {
        return None;
      }
      ghost var deck0, balls0, pins0, card := deck.cards, BallCards(), PinCards(), activeCard.value;
      ghost var played := pins0[i := pins0[i] + [card]];
      var reset;
      event, reset := AddToPin(i);
      assert reset == (Filled(Tops(played)) == PinCount);
      assert event == if reset then Some(if |balls0[0]| < ThrowSize then Strike else Spare) else None;
      if !reset {
        InPlayDeckSize(deck0, balls0, pins0, card);
      }
      EndPlay(reset);
      if !reset {
        assert deck.cards == deck0[..|deck0| - 1] && activeCard.value == deck0[|deck0| - 1];
        PinPlayInPlay(deck0, balls0, pins0, card, i);
      }
    }

    /**
     * Puts the active card on pin i. Once all ten pins are filled, a strike
     * (the first ball not thrown) or a spare is announced and the frame ends.
     */
    method AddToPin(i: nat) returns (event: Option<Event>, frameOver: bool)
      requires Valid() && activeCard != None && i < |pins|
      modifies pins[i]
      ensures PinCards() == old(PinCards())[i := old(pins[i].cards) + [activeCard.value]]
      ensures BallCards() == old(BallCards())
      ensures frameOver <==> Filled(Tops(PinCards())) == PinCount
      ensures event == if frameOver then Some(if |balls[0].cards| < ThrowSize then Strike else Spare) else None
    {
      pins[i].Add(activeCard.value);
      var filled := CountFilledPins();
      frameOver := filled == PinCount;
      event := None;
      if frameOver {
        event := Some(if balls[0].Size() < ThrowSize then Strike else Spare);
      }
    }

    /**
     * Plays the active card to ball j if that is a target. A third card
     * throws the ball and scores the filled pins; throwing the second ball
     * starts a new frame. A card is then drawn.
     */
    method PlayBall(j: nat) returns (event: Option<Event>)
      requires Playing() && j < |balls|
      modifies this, deck, balls, pins
      ensures Playing()
      ensures Ball(j) !in old(Targets()) ==>
        && event == None && activeCard == old(activeCard) && deck.cards == old(deck.cards)
        && BallCards() == old(BallCards()) && PinCards() == old(PinCards())
      ensures Ball(j) in old(Targets()) ==>
        var size := old(|balls[j].cards|) + 1;
        && event == (if size == ThrowSize then Some(Score(old(Filled(Tops(PinCards()))))) else None)
        && if size == ThrowSize && j == 1 then
             FrameDealt()
           else
             && BallCards() == old(BallCards())[j := old(balls[j].cards) + [old(activeCard).value]]
             && PinCards() == old(PinCards())
             && old(deck.cards) == deck.cards + [activeCard.value]
    {
      var playable := GetPlayablePiles();
      if Ball(j) !in playable {
        return None;
      }
      ghost var deck0, balls0, pins0, card := deck.cards, BallCards(), PinCards(), activeCard.value;
      event := AddToBall(j);
      var reset := balls[j].Size() == ThrowSize && j == 1;
      assert event == if |balls0[j]| + 1 == ThrowSize then Some(Score(Filled(Tops(pins0)))) else None;
      assert reset == (|balls0[j]| + 1 == ThrowSize && j == 1);
      if !reset {
        InPlayDeckSize(deck0, balls0, pins0, card);
      }
      EndPlay(reset);
      if !reset {
        assert deck.cards == deck0[..|deck0| - 1] && activeCard.value == deck0[|deck0| - 1];
        BallPlayInPlay(deck0, balls0, pins0, card, j);
      }
    }

    /** Puts the active card on ball j; the third card throws the ball and scores the filled pins. */
    method AddToBall(j: nat) returns (event: Option<Event>)
      requires Valid() && activeCard != None && j < |balls|
      modifies balls[j]
      ensures BallCards() == old(BallCards())[j := old(balls[j].cards) + [activeCard.value]]
      ensures PinCards() == old(PinCards())
      ensures event == if |balls[j].cards| == ThrowSize then Some(Score(Filled(Tops(PinCards())))) else None
    {
      balls[j].Add(activeCard.value);
      event := None;
      if balls[j].Size() == ThrowSize {
        var points := CountFilledPins();
        event := Some(Score(points));
      }
    }
  }
}
