# Bowling card game: a verified model of the rules engine

This project models the rules engine of a single-player card game scored like bowling.

- **Cards.** A card has a suit, kept as one of the four suit names, and a rank from 1 (Ace) to 13 (King). There are functions for the rank's name, its short label and the suit's symbol.
- **Deck.** The deck is a stack of cards whose top is the last element. It can be rebuilt as the standard 52 cards, shuffled by repeated random insertion, drawn from, peeked at and listed.
- **Piles.** A pile is an append-only stack with a top, a size and a clear operation.
- **Game.** The game owns one deck, two *ball* piles and ten *pin* piles, plus the active card (the one drawn last).
  - The active card may go where the placement rule allows. The rule offers the first pin whose top has the card's rank. Failing that, it offers every pin strictly between the last pin ranked below the card and the first pin ranked above it. Failing that, it offers the first ball holding fewer than three cards.
  - The third card on a ball *throws* it and scores the number of filled pins. Throwing the second ball ends the frame.
  - Filling all ten pins ends the frame with a strike (first ball not yet thrown) or a spare.
  - Ending a frame rebuilds and reshuffles the deck and empties every pile. A new card is drawn after every legal play.

The model has five modules:

- `Cards` (`cards.dfy`): card values, written as pure functions.
- `Piles` (`pile.dfy`): a `Pile` class over a `seq<Card>` field.
- `Decks` (`deck.dfy`): a `Deck` class over a `seq<Card>` field, with loops where the source has them.
- `Rules` (`rules.dfy`): value-level definitions of the placement rule and of the game invariant, and the lemmas about them.
- `Games` (`game.dfy`): a `Game` class whose methods change the deck, the piles and the active card in place. Each method is proved against the `Rules` definitions.

Modelling choices:

- **Pile identity.** The source identifies a pile by object reference. Here a pile is named by `Pin(i)` or `Ball(j)`.
- **Alerts.** The source shows alerts; here they are returned events: `Score(points)`, `Strike` and `Spare`.
- **Randomness.** The random insertion index of the shuffle is a nondeterministic choice in range.

Main results:

- **Placement rule.** `Games.Game.GetPlayablePiles` computes exactly `Rules.Playable`. The Playable lemmas pin down every case of that rule.
- **Game invariant.** The invariant `Rules.InPlay` holds before every play as long as every play goes through `PlayPin` / `PlayBall`. It says:
  - all 52 cards are accounted for by the deck, the piles and the active card;
  - every pin holds cards of one rank, and the pins' tops strictly increase from left to right;
  - at most nine pins are filled;
  - a ball holds at most three cards, and the second ball is never thrown without ending the frame.
- **Consequences of the invariant.**
  - The deck always keeps at least ten cards, so a draw during play never meets an empty deck.
  - The placement rule always offers a target. The "no legal play" result of the fallback is unreachable.

## Model

| member | source | states |
|---|---|---|
| Cards.SuitNamesOrder | src/Card.js:3 | the suit names are exactly Clubs, Diamonds, Hearts, Spades in that order, all different |
| Cards.RankName | src/Card.js:70-99 | a name exists exactly for ranks 1..13; any other input has no case and gives None |
| Cards.RankNameRoundTrip | src/Card.js:70-99 | the rank name is the inverse of the independent name-to-rank table: Ace..Ten, Jack, Queen, King for 1..13, in both directions |
| Cards.RankNameInjective | src/Card.js:70-99 | two ranks with the same name are the same rank |
| Cards.RankNameHasNoSpace | src/Card.js:70-99 | no rank name contains a space |
| Cards.RankAbbreviation | src/Card.js:106-135 | a label exists exactly for ranks 1..13 |
| Cards.NumericAbbreviation | src/Card.js:110-127 | ranks 2..10 are labelled by their decimal numeral, compared against an independent numeral function |
| Cards.LetterAbbreviation | src/Card.js:106-135 | Ace, Jack, Queen and King are labelled by the first letter of their names |
| Cards.SuitSymbol | src/Card.js:142-153 | a symbol exists exactly for the four suit names |
| Cards.SuitSymbolsDistinct | src/Card.js:142-153 | different suits have different symbols |
| Cards.Card.ToString | src/Card.js:60-62 | the name splits at its first space into the rank name, then " of " and the suit |
| Cards.CardNameInjective | src/Card.js:60-62 | a card's name "<rank name> of <suit>" determines the card: different cards have different names |
| Piles.Pile.constructor | src/Pile.js:8-13 | a new pile is empty |
| Piles.Pile.Add | src/Pile.js:19-26 | the cards held become the old cards followed by the new one; size grows by one and the top is the new card |
| Piles.Pile.Clear | src/Pile.js:31-36 | the pile becomes empty: size 0, no top |
| Piles.Pile.Top | src/Pile.js:42-47 | there is no top exactly when the pile is empty; otherwise the top is the last card added |
| Decks.StandardCards | src/Deck.js:28-37 | the standard deck has 52 cards |
| Decks.StandardCardsAt | src/Deck.js:30-33 | the card of the s-th suit name and rank r sits at position 13*s + r - 1: suits in order, ranks 1..13 within each |
| Decks.StandardCardsOnce | src/Deck.js:28-37 | every card occurs exactly once in the standard deck |
| Decks.Splice | src/Deck.js:47 | inserting at index keeps the cards before and after it and adds exactly the one card |
| Decks.Deck.constructor | src/Deck.js:11-15 | the deck holds the given cards |
| Decks.Deck.Populate | src/Deck.js:28-37 | the deck becomes the standard 52 cards in suit-major, rank-minor order |
| Decks.Deck.Shuffle | src/Deck.js:42-50 | the new order is a permutation of the old cards: same length, same multiset |
| Decks.Deck.Draw | src/Deck.js:56-63 | an empty deck gives no card and stays empty; otherwise the top card is returned and only it is removed |
| Decks.Deck.Peek | src/Deck.js:69-74 | there is no card exactly when the deck is empty; otherwise it is the top (last) card |
| Decks.Deck.ToString | src/Deck.js:76-82 | the result is the listing of the deck, top card first, each card's name followed by a newline |
| Decks.ListingConcat | src/Deck.js:76-82 | listing a deck lists the upper part before the lower part |
| Decks.ListingTopFirst | src/Deck.js:76-82 | the top card's line comes first, followed by the listing of the rest |
| Rules.FirstMatch | src/Game.js:172-180 | the lowest pin whose top has the target rank, with no match before it; the pin count when there is none |
| Rules.LastBelow | src/Game.js:181-183 | the highest pin whose top ranks below the target, with none above it; -1 when there is none |
| Rules.FirstAbove | src/Game.js:184-186 | the lowest pin whose top ranks above the target, with none before it; the pin count when there is none |
| Rules.FirstOpen | src/Game.js:199-203 | the lowest ball with fewer than three cards, with every earlier ball full |
| Rules.PinRange | src/Game.js:190-196 | the pins from..to-1 in order |
| Rules.PinRangeHas | src/Game.js:190-196 | a pile is in the range exactly when it is a pin with index in from..to-1 |
| Rules.Playable | src/Game.js:167-206 | the targets: the first matching pin, else the pins of the open gap, else the first open ball, else nothing; every target is a real pile, and several targets are always pins |
| Rules.PlayableMatch | src/Game.js:172-180 | when some pin's top has the target rank, the only target is the lowest such pin |
| Rules.PlayableGap | src/Game.js:170-196 | without a match and with lower+1 < upper, the targets are exactly the pins lower+1..upper-1 in order |
| Rules.PlayableFallback | src/Game.js:198-205 | without a match or gap, the targets are ball 0 if it holds fewer than three cards, else ball 1 if it does, else nothing |
| Rules.PlayableAllEmpty | src/Game.js:170-196 | with every pin empty, all ten pins are the targets, in order, and no ball is |
| Rules.PlayableTargets | src/Game.js:167-206 | every target is a real pile; a non-empty pin target shows the rank and is the only target; an empty pin target lies above every lower-ranked top and below every higher-ranked one; a ball target is the first open ball |
| Rules.GapTargetsEmpty | src/Game.js:189-196 | when no pin shows the target rank, every pin offered is empty |
| Rules.PlayKeepsAscending | src/Game.js:141-148 | playing a card to a target pin keeps the non-empty pin tops strictly increasing left to right |
| Rules.PlayableNonEmpty | src/Game.js:199-205 | while the second ball holds fewer than three cards, the rule always offers a target |
| Rules.Filled | src/Game.js:212-220 | the filled count is at most the pin count, and equals it exactly when every pin is non-empty |
| Rules.FilledCounts | src/Game.js:212-220 | the filled count is the number of indices whose top is non-empty |
| Rules.OneRankAtMostFour | src/Deck.js:28-37 | a pile of one rank drawn from the standard deck holds at most four cards |
| Rules.PinCardsBound | src/Game.js:141-158 | pins of one rank each hold at most four cards per filled pin |
| Rules.InPlayDeckSize | src/Game.js:95-100 | between plays the deck keeps at least ten cards, so drawing never meets an empty deck |
| Rules.InPlayHasTarget | src/Game.js:199-205 | between plays the active card always has a target |
| Rules.FrameStartInPlay | src/Game.js:72-75 | a new frame with its first card drawn satisfies the game invariant |
| Rules.DrawKeepsConserved | src/Game.js:95-100 | moving the active card to a pile and drawing the next card keeps every one of the 52 cards accounted for |
| Rules.PinPlayInPlay | src/Game.js:141-161 | a play to a target pin that does not fill all ten pins keeps the game invariant |
| Rules.BallPlayInPlay | src/Game.js:117-135 | a play to a target ball that does not throw the second ball keeps the game invariant |
| Games.Game.constructor | src/Game.js:8-67 | a new game has an empty deck, no active card, two empty balls and ten empty pins, all different objects |
| Games.Game.StartGame | src/Game.js:72-75 | the first frame is dealt: every pile is empty, 51 cards are in the deck and one is active, and the game invariant holds |
| Games.Game.NextFrame | src/Game.js:80-90 | the deck holds the 52 standard cards in some order and all twelve piles are empty |
| Games.Game.Draw | src/Game.js:95-100 | the top card of the deck becomes the active card and only it leaves the deck |
| Games.Game.ScanPins | src/Game.js:170-187 | the scan finds the first matching pin, or else the last pin ranked below and the first pin ranked above the target |
| Games.Game.GetPlayablePiles | src/Game.js:167-206 | the result is exactly the placement rule applied to the pin tops, the active rank and the ball sizes |
| Games.Game.CountFilledPins | src/Game.js:212-220 | the count is the number of non-empty pins |
| Games.Game.AddToPin | src/Game.js:148-158 | the card is added to pin i only; the frame is over exactly when all ten pins are filled, with a strike when ball 0 holds fewer than three cards and a spare otherwise |
| Games.Game.AddToBall | src/Game.js:123-128 | the card is added to ball j only; when it is the third card the event is the score of the filled pins |
| Games.Game.EndPlay | src/Game.js:129-134 | after a frame-ending play a new frame is dealt; otherwise every pile keeps its cards and the next card is drawn |
| Games.Game.PlayPin | src/Game.js:141-161 | a play to a non-target changes nothing; a legal play adds the card to pin i, and filling the tenth pin announces a strike or spare and deals a new frame; otherwise the next card is drawn; the game invariant is kept |
| Games.Game.PlayBall | src/Game.js:117-135 | a play to a non-target changes nothing; a legal play adds the card to ball j, and the third card scores the filled pins, ending the frame when it is the second ball; otherwise the next card is drawn; the game invariant is kept |

## Left out

- Presentation is not modelled:
  - the template cloning of the common component class;
  - positions, visibility, face-up state, highlighting and click handlers;
  - `appendChild`/`remove` calls and the deck's card counter.
- Games.Game.Draw: leaves out the source's highlighting of the playable piles after a draw (src/Game.js:102-110), which only feeds the display.
- Click dispatch is replaced by calling `PlayPin(i)` or `PlayBall(j)` with the pile's index.
- Decks.Deck.Shuffle: the source draws its insertion index from `Math.random`. Here the index is an arbitrary choice in range, and the contract states a permutation, not uniformity. Uniformity needs probability and floating point.
- Alerts are not I/O here. The play methods return `Some(Score(points))`, `Some(Strike)` or `Some(Spare)`, and `None` when the source shows nothing.
- Games.Game.Draw: requires a non-empty deck. The source dereferences the missing card on an empty deck, and no recovery is invented. `Rules.InPlayDeckSize` proves the deck keeps at least ten cards between plays, so `PlayPin`, `PlayBall` and `StartGame` never reach that case.
- Piles.Pile.Size: it is the number of cards held by definition and has no contract of its own. It appears in the contracts of `Add` and `Clear`.
- Cards: a card is built only from one of the four suit names and a rank in 1..13. The source's constructor documents that range but does not check it. The naming functions still take any input and return None outside their cases, where the source yields undefined.
- The shuffle follows the source's own insertion algorithm; no other shuffling algorithm is modelled.
- The "no legal play" case (both balls full and no pin gap) is modelled in `Rules.Playable` and `Rules.PlayableFallback`. `Rules.PlayableNonEmpty` and the invariant show it cannot occur as long as every play goes through `PlayPin` / `PlayBall`. No recovery for it is modelled, because the source has none.
