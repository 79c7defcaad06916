/**
 * The rules of the game on values: which piles the active card may go to,
 * how many pins are filled, and the invariant that holds between plays.
 * Pins are described by their top cards, balls by their sizes.
 */
module Rules {
  import opened Cards
  import opened Piles
  import opened Decks

  /** Stands for a pile object: ball j or pin i. */
  datatype PileId = Ball(index: nat) | Pin(index: nat)

  /** What a play announces. */
  datatype Event = Score(points: nat) | Strike | Spare

  const PinCount: nat := 10
  const BallCount: nat := 2
  /** A ball is thrown once it holds this many cards. */
  const ThrowSize: nat := 3

  /** The top card of every pile. */
  function Tops(piles: seq<seq<Card>>): (r: seq<Option<Card>>)
    ensures |r| == |piles|
  {
    seq(|piles|, i requires 0 <= i < |piles| => TopOf(piles[i]))
  }

  /** The size of every pile. */
  function Sizes(piles: seq<seq<Card>>): (r: seq<nat>)
    ensures |r| == |piles|
  {
    seq(|piles|, i requires 0 <= i < |piles| => |piles[i]|)
  }

  predicate Matches(top: Option<Card>, target: int) {
    top != None && top.value.rank == target
  }

  predicate Below(top: Option<Card>, target: int) {
    top != None && top.value.rank < target
  }

  predicate Above(top: Option<Card>, target: int) {
    top != None && top.value.rank > target
  }

  /** The lowest pin whose top has the target rank, or |tops| when there is none. */
  function FirstMatch(tops: seq<Option<Card>>, target: int): (k: nat)
    ensures k <= |tops|
    ensures k < |tops| ==> Matches(tops[k], target)
    ensures forall j :: 0 <= j < k ==> !Matches(tops[j], target)
  {
    if tops == [] then 0
    else if Matches(tops[0], target) then 0
    else 1 + FirstMatch(tops[1..], target)
  }

  /** The highest pin whose top ranks below the target, or -1 when there is none. */
  function LastBelow(tops: seq<Option<Card>>, target: int): (k: int)
    ensures -1 <= k < |tops|
    ensures k >= 0 ==> Below(tops[k], target)
    ensures forall j :: k < j < |tops| ==> !Below(tops[j], target)
  {
    if tops == [] then -1
    else if Below(tops[|tops| - 1], target) then |tops| - 1
    else LastBelow(tops[..|tops| - 1], target)
  }

  /** The lowest pin whose top ranks above the target, or |tops| when there is none. */
  function FirstAbove(tops: seq<Option<Card>>, target: int): (k: nat)
    ensures k <= |tops|
    ensures k < |tops| ==> Above(tops[k], target)
    ensures forall j :: 0 <= j < k ==> !Above(tops[j], target)
  {
    if tops == [] then 0
    else if Above(tops[0], target) then 0
    else 1 + FirstAbove(tops[1..], target)
  }

  /** The lowest ball that is not yet thrown, or |sizes| when every ball is. */
  function FirstOpen(sizes: seq<nat>): (k: nat)
    ensures k <= |sizes|
    ensures k < |sizes| ==> sizes[k] < ThrowSize
    ensures forall j :: 0 <= j < k ==> sizes[j] >= ThrowSize
  {
    if sizes == [] then 0
    else if sizes[0] < ThrowSize then 0
    else 1 + FirstOpen(sizes[1..])
  }

  /** The pins from..to-1, in order. */
  function PinRange(from: nat, to: nat): (r: seq<PileId>)
    requires from <= to
    ensures |r| == to - from
    ensures forall k :: 0 <= k < |r| ==> r[k] == Pin(from + k)
  {
    seq(to - from, k requires 0 <= k < to - from => Pin(from + k))
  }

  lemma PinRangeHas(from: nat, to: nat, id: PileId)
    requires from <= to
    ensures id in PinRange(from, to) <==> id.Pin? && from <= id.index < to
  {
    if id.Pin? && from <= id.index < to {
      assert PinRange(from, to)[id.index - from] == id;
    }
  }

  /**
   * The piles the active card of rank target may be played to:
   * the first pin showing that rank; otherwise every pin strictly between
   * the last pin ranked below and the first pin ranked above; otherwise
   * the first ball not yet thrown; otherwise none.
   */
  function Playable(tops: seq<Option<Card>>, target: int, sizes: seq<nat>): (r: seq<PileId>)
    ensures forall id :: id in r ==> if id.Pin? then id.index < |tops| else id.index < |sizes|
    ensures |r| > 1 ==> forall id :: id in r ==> id.Pin?
  {
    var m := FirstMatch(tops, target);
    if m < |tops| then [Pin(m)]
    else
      var lower := LastBelow(tops, target);
      var upper := FirstAbove(tops, target);
      if lower + 1 < upper then PinRange(lower + 1, upper)
      else
        var b := FirstOpen(sizes);
        if b < |sizes| then [Ball(b)] else []
  }

  /** A pin showing the target rank is the only target, the lowest such pin. */
  lemma PlayableMatch(tops: seq<Option<Card>>, target: int, sizes: seq<nat>, k: nat)
    requires k < |tops| && Matches(tops[k], target)
    requires forall j :: 0 <= j < k ==> !Matches(tops[j], target)
    ensures Playable(tops, target, sizes) == [Pin(k)]
  {
  }

  /** Without a match, the gap strictly between lower and upper is the target set. */
  lemma PlayableGap(tops: seq<Option<Card>>, target: int, sizes: seq<nat>, lower: int, upper: nat)
    requires forall j :: 0 <= j < |tops| ==> !Matches(tops[j], target)
    requires -1 <= lower < |tops| && (lower >= 0 ==> Below(tops[lower], target))
    requires forall j :: lower < j < |tops| ==> !Below(tops[j], target)
    requires upper <= |tops| && (upper < |tops| ==> Above(tops[upper], target))
    requires forall j :: 0 <= j < upper ==> !Above(tops[j], target)
    requires lower + 1 < upper
    ensures var r := Playable(tops, target, sizes);
      |r| == upper - lower - 1 && forall k :: 0 <= k < |r| ==> r[k] == Pin(lower + 1 + k)
  {
    assert LastBelow(tops, target) == lower;
    assert FirstAbove(tops, target) == upper;
  }

  /** Without a match or a gap, the first ball not yet thrown is the target, or nothing. */
  lemma PlayableFallback(tops: seq<Option<Card>>, target: int, sizes: seq<nat>, lower: int, upper: nat)
    requires |sizes| == BallCount
    requires forall j :: 0 <= j < |tops| ==> !Matches(tops[j], target)
    requires -1 <= lower < |tops| && (lower >= 0 ==> Below(tops[lower], target))
    requires forall j :: lower < j < |tops| ==> !Below(tops[j], target)
    requires upper <= |tops| && (upper < |tops| ==> Above(tops[upper], target))
    requires forall j :: 0 <= j < upper ==> !Above(tops[j], target)
    requires upper <= lower + 1
    ensures Playable(tops, target, sizes) ==
      if sizes[0] < ThrowSize then [Ball(0)]
      else if sizes[1] < ThrowSize then [Ball(1)]
      else []
  {
    assert LastBelow(tops, target) == lower;
    assert FirstAbove(tops, target) == upper;
    assert FirstMatch(tops, target) == |tops|;
    if sizes[0] >= ThrowSize {
      assert sizes[1..][0] == sizes[1];
    }
  }

  /** With every pin empty, every pin is a target, in order, and no ball is. */
  lemma PlayableAllEmpty(tops: seq<Option<Card>>, target: int, sizes: seq<nat>)
    requires |tops| > 0
    requires forall j :: 0 <= j < |tops| ==> tops[j] == None
    ensures var r := Playable(tops, target, sizes);
      |r| == |tops| && forall k :: 0 <= k < |r| ==> r[k] == Pin(k)
  {
    PlayableGap(tops, target, sizes, -1, |tops|);
  }

  /**
   * Each target is a real pile. A pin target either shows the target rank
   * and is then the only target, or is empty and lies strictly above every
   * lower-ranked top and strictly below every higher-ranked one. A ball
   * target is the first ball not yet thrown.
   */
  lemma PlayableTargets(tops: seq<Option<Card>>, target: int, sizes: seq<nat>, id: PileId)
    requires id in Playable(tops, target, sizes)
    ensures id.Pin? ==> id.index < |tops|
    ensures id.Pin? && tops[id.index] != None ==>
      Matches(tops[id.index], target) && Playable(tops, target, sizes) == [id]
    ensures id.Pin? && tops[id.index] == None ==>
      forall j :: 0 <= j < |tops| && tops[j] != None ==>
        (j < id.index ==> tops[j].value.rank < target) &&
        (j > id.index ==> tops[j].value.rank > target)
    ensures id.Ball? ==>
      id.index < |sizes| && sizes[id.index] < ThrowSize &&
      (forall j :: 0 <= j < id.index ==> sizes[j] >= ThrowSize)
  {
    var m := FirstMatch(tops, target);
    if m == |tops| {
      var lower := LastBelow(tops, target);
      var upper := FirstAbove(tops, target);
      if lower + 1 < upper {
        PinRangeHas(lower + 1, upper, id);
      }
    }
  }

  /** When no pin shows the target rank, every pin offered is empty. */
  lemma GapTargetsEmpty(tops: seq<Option<Card>>, target: int, sizes: seq<nat>, i: nat)
    requires forall j :: 0 <= j < |tops| ==> !Matches(tops[j], target)
    requires Pin(i) in Playable(tops, target, sizes)
    ensures i < |tops| && tops[i] == None
  {
    PlayableTargets(tops, target, sizes, Pin(i));
  }

  /** The pins ranked left to right: non-empty tops strictly increase. */
  ghost predicate Ascending(tops: seq<Option<Card>>) {
    forall i, j :: 0 <= i < j < |tops| && tops[i] != None && tops[j] != None ==>
      tops[i].value.rank < tops[j].value.rank
  }

  /** Playing to a target pin keeps the pins ranked. */
  lemma PlayKeepsAscending(tops: seq<Option<Card>>, card: Card, sizes: seq<nat>, i: nat)
    requires Ascending(tops)
    requires Pin(i) in Playable(tops, card.rank, sizes)
    ensures i < |tops| && Ascending(tops[i := Some(card)])
  {
    PlayableTargets(tops, card.rank, sizes, Pin(i));
  }

  /** While the second ball holds fewer than three cards, the rule always offers a target. */
  lemma PlayableNonEmpty(tops: seq<Option<Card>>, target: int, sizes: seq<nat>)
    requires |sizes| == BallCount && sizes[1] < ThrowSize
    ensures Playable(tops, target, sizes) != []
  {
    if sizes[0] >= ThrowSize {
      assert sizes[1..][0] == sizes[1];
    }
  }

  /** The number of non-empty tops, counted left to right. */
  function Filled(tops: seq<Option<Card>>): (n: nat)
    ensures n <= |tops|
    ensures n == |tops| <==> forall i :: 0 <= i < |tops| ==> tops[i] != None
  {
    if tops == [] then 0
    else Filled(tops[..|tops| - 1]) + (if tops[|tops| - 1] != None then 1 else 0)
  }

  /** Filled counts exactly the indices of non-empty tops. */
  lemma {:induction false} FilledCounts(tops: seq<Option<Card>>)
    ensures Filled(tops) == |set i | 0 <= i < |tops| && tops[i] != None|
  {
    var s := set i | 0 <= i < |tops| && tops[i] != None;
    if tops != [] {
      var n := |tops| - 1;
      var u := tops[..n];
      var t := set i | 0 <= i < |u| && u[i] != None;
      FilledCounts(u);
      if tops[n] != None {
        assert s == t + {n};
        assert n !in t;
      } else {
        assert s == t;
      }
    } else {
      assert s == {};
    }
  }

  /** Every card of the pile has the same rank. */
  ghost predicate OneRank(cards: seq<Card>) {
    forall i, j :: 0 <= i < |cards| && 0 <= j < |cards| ==> cards[i].rank == cards[j].rank
  }

  /** All the cards of a sequence of piles. */
  function Union(piles: seq<seq<Card>>): multiset<Card> {
    if piles == [] then multiset{}
    else Union(piles[..|piles| - 1]) + multiset(piles[|piles| - 1])
  }

  lemma {:induction false} UnionAdd(piles: seq<seq<Card>>, k: nat, card: Card)
    requires k < |piles|
    ensures Union(piles[k := piles[k] + [card]]) == Union(piles) + multiset{card}
  {
    var n := |piles| - 1;
    var q := piles[k := piles[k] + [card]];
    if k == n {
      assert q[..n] == piles[..n];
    } else {
      assert q[..n] == piles[..n][k := piles[k] + [card]];
      UnionAdd(piles[..n], k, card);
    }
  }

  lemma {:induction false} UnionHolds(piles: seq<seq<Card>>, k: nat)
    requires k < |piles|
    ensures multiset(piles[k]) <= Union(piles)
  {
    var n := |piles| - 1;
    if k < n {
      UnionHolds(piles[..n], k);
    }
  }

  lemma {:induction false} UnionOfEmpty(piles: seq<seq<Card>>)
    requires forall k :: 0 <= k < |piles| ==> piles[k] == []
    ensures Union(piles) == multiset{}
  {
    if piles != [] {
      UnionOfEmpty(piles[..|piles| - 1]);
    }
  }

  lemma {:induction false} SubMultisetSize(a: multiset<Card>, b: multiset<Card>)
    requires a <= b
    ensures |a| <= |b|
    decreases |a|
  {
    if a != multiset{} {
      var x :| x in a;
      SubMultisetSize(a - multiset{x}, b - multiset{x});
    }
  }

  /** A pile of one rank drawn from the standard deck holds at most four cards. */
  lemma OneRankAtMostFour(cards: seq<Card>)
    requires OneRank(cards)
    requires multiset(cards) <= multiset(StandardCards())
    ensures |cards| <= 4
  {
    if cards != [] {
      var r := cards[0].rank;
      var four := multiset{Card("Clubs", r), Card("Diamonds", r), Card("Hearts", r), Card("Spades", r)};
      forall c | c in multiset(cards)
        ensures multiset(cards)[c] <= four[c]
      {
        StandardCardsOnce(c);
        var i :| 0 <= i < |cards| && cards[i] == c;
        assert c.rank == r;
        var s := SuitIndex(c.suit);
        SuitNamesOrder();
        assert c == Card(SuitNames[s], r);
      }
      assert multiset(cards) <= four;
      SubMultisetSize(multiset(cards), four);
    }
  }

  /** Pins of one rank each hold at most four cards per non-empty pin. */
  lemma {:induction false} PinCardsBound(pins: seq<seq<Card>>)
    requires forall i :: 0 <= i < |pins| ==> OneRank(pins[i])
    requires forall i :: 0 <= i < |pins| ==> multiset(pins[i]) <= multiset(StandardCards())
    ensures |Union(pins)| <= 4 * Filled(Tops(pins))
  {
    if pins != [] {
      var n := |pins| - 1;
      var rest := pins[..n];
      assert Tops(pins)[..n] == Tops(rest);
      assert Filled(Tops(pins)) == Filled(Tops(rest)) + (if pins[n] != [] then 1 else 0);
      assert |Union(pins)| == |Union(rest)| + |pins[n]|;
      PinCardsBound(rest);
      OneRankAtMostFour(pins[n]);
    }
  }

  /** Pins ranked left to right, each of one rank, fewer than ten of them filled. */
  ghost predicate PinsInPlay(pins: seq<seq<Card>>) {
    && |pins| == PinCount
    && Ascending(Tops(pins))
    && (forall i :: 0 <= i < |pins| ==> OneRank(pins[i]))
    && Filled(Tops(pins)) < PinCount
  }

  /** Ball 0 holds at most three cards, ball 1 fewer than three, and ball 1 gets cards only after ball 0 is thrown. */
  ghost predicate BallsInPlay(balls: seq<seq<Card>>) {
    && |balls| == BallCount
    && |balls[0]| <= ThrowSize && |balls[1]| < ThrowSize
    && (balls[1] != [] ==> |balls[0]| == ThrowSize)
  }

  /** The 52 cards are all accounted for by the deck, the piles and the active card. */
  ghost predicate Conserved(deck: seq<Card>, balls: seq<seq<Card>>, pins: seq<seq<Card>>, active: Card) {
    multiset(deck) + Union(balls) + Union(pins) + multiset{active} == multiset(StandardCards())
  }

  /** The state between two plays. */
  ghost predicate InPlay(deck: seq<Card>, balls: seq<seq<Card>>, pins: seq<seq<Card>>, active: Card) {
    PinsInPlay(pins) && BallsInPlay(balls) && Conserved(deck, balls, pins, active)
  }

  lemma ConservedSize(deck: seq<Card>, balls: seq<seq<Card>>, pins: seq<seq<Card>>, active: Card)
    requires Conserved(deck, balls, pins, active)
    ensures |deck| + |Union(balls)| + |Union(pins)| + 1 == 52
    ensures forall i :: 0 <= i < |pins| ==> multiset(pins[i]) <= multiset(StandardCards())
  {
    assert |multiset(StandardCards())| == 52;
    forall i | 0 <= i < |pins|
      ensures multiset(pins[i]) <= multiset(StandardCards())
    {
      UnionHolds(pins, i);
    }
  }

  lemma BallsSize(balls: seq<seq<Card>>)
    requires BallsInPlay(balls)
    ensures |Union(balls)| <= 5
  {
    assert balls[..1][..0] == [];
    assert Union(balls[..1]) == multiset(balls[0]);
  }

  /** Between plays at least ten cards are left to draw. */
  lemma InPlayDeckSize(deck: seq<Card>, balls: seq<seq<Card>>, pins: seq<seq<Card>>, active: Card)
    requires InPlay(deck, balls, pins, active)
    ensures |deck| >= 10
  {
    ConservedSize(deck, balls, pins, active);
    PinCardsBound(pins);
    BallsSize(balls);
  }

  /** In play there is always somewhere to put the active card. */
  lemma InPlayHasTarget(deck: seq<Card>, balls: seq<seq<Card>>, pins: seq<seq<Card>>, active: Card)
    requires InPlay(deck, balls, pins, active)
    ensures Playable(Tops(pins), active.rank, Sizes(balls)) != []
  {
    PlayableNonEmpty(Tops(pins), active.rank, Sizes(balls));
  }

  /** A fresh frame with its first card drawn is in play. */
  lemma FrameStartInPlay(deck: seq<Card>, active: Card, balls: seq<seq<Card>>, pins: seq<seq<Card>>)
    requires multiset(deck) + multiset{active} == multiset(StandardCards())
    requires |balls| == BallCount && |pins| == PinCount
    requires forall k :: 0 <= k < |balls| ==> balls[k] == []
    requires forall k :: 0 <= k < |pins| ==> pins[k] == []
    ensures InPlay(deck, balls, pins, active)
  {
    UnionOfEmpty(balls);
    UnionOfEmpty(pins);
    assert forall k :: 0 <= k < |pins| ==> Tops(pins)[k] == None;
    assert Filled(Tops(pins)) == 0 by {
      FilledCounts(Tops(pins));
      assert (set i | 0 <= i < |pins| && Tops(pins)[i] != None) == {};
    }
  }

  /** Moving the top of the deck to the active card, and the active card to a pile, keeps the count. */
  lemma DrawKeepsConserved(deck: seq<Card>, balls: seq<seq<Card>>, pins: seq<seq<Card>>, active: Card,
                           balls': seq<seq<Card>>, pins': seq<seq<Card>>)
    requires Conserved(deck, balls, pins, active)
    requires Union(balls') + Union(pins') == Union(balls) + Union(pins) + multiset{active}
    requires deck != []
    ensures Conserved(deck[..|deck| - 1], balls', pins', deck[|deck| - 1])
  {
    MoveTop(deck, Union(balls), Union(pins), active, Union(balls'), Union(pins'), multiset(StandardCards()));
  }

  lemma MoveTop(deck: seq<Card>, b: multiset<Card>, p: multiset<Card>, active: Card,
                b': multiset<Card>, p': multiset<Card>, all: multiset<Card>)
    requires multiset(deck) + b + p + multiset{active} == all
    requires b' + p' == b + p + multiset{active}
    requires deck != []
    ensures multiset(deck[..|deck| - 1]) + b' + p' + multiset{deck[|deck| - 1]} == all
  {
    var rest, top := deck[..|deck| - 1], deck[|deck| - 1];
    assert deck == rest + [top];
    assert multiset(deck) == multiset(rest) + multiset{top};
    calc {
      multiset(rest) + b' + p' + multiset{top};
      multiset(rest) + multiset{top} + (b' + p');
      multiset(deck) + (b + p + multiset{active});
      all;
    }
  }

  /** Playing the active card to a target pin, without filling all ten, stays in play. */
  lemma PinPlayInPlay(deck: seq<Card>, balls: seq<seq<Card>>, pins: seq<seq<Card>>, active: Card, i: nat)
    requires InPlay(deck, balls, pins, active)
    requires Pin(i) in Playable(Tops(pins), active.rank, Sizes(balls))
    requires i < |pins| && Filled(Tops(pins[i := pins[i] + [active]])) < PinCount
    requires deck != []
    ensures InPlay(deck[..|deck| - 1], balls, pins[i := pins[i] + [active]], deck[|deck| - 1])
  {
    var tops := Tops(pins);
    var pins' := pins[i := pins[i] + [active]];
    assert PinsInPlay(pins') by {
      PlayKeepsAscending(tops, active, Sizes(balls), i);
      assert Tops(pins') == tops[i := Some(active)];
      PlayableTargets(tops, active.rank, Sizes(balls), Pin(i));
      assert OneRank(pins'[i]);
    }
    assert Conserved(deck[..|deck| - 1], balls, pins', deck[|deck| - 1]) by {
      UnionAdd(pins, i, active);
      DrawKeepsConserved(deck, balls, pins, active, balls, pins');
    }
  }

  /** Playing the active card to a target ball, unless it throws the second ball, stays in play. */
  lemma BallPlayInPlay(deck: seq<Card>, balls: seq<seq<Card>>, pins: seq<seq<Card>>, active: Card, j: nat)
    requires InPlay(deck, balls, pins, active)
    requires Ball(j) in Playable(Tops(pins), active.rank, Sizes(balls))
    requires j == 0 || |balls[1]| + 1 < ThrowSize
    requires deck != []
    ensures j < |balls|
    ensures InPlay(deck[..|deck| - 1], balls[j := balls[j] + [active]], pins, deck[|deck| - 1])
  {
    var balls' := balls[j := balls[j] + [active]];
    assert BallsInPlay(balls') by {
      var sizes := Sizes(balls);
      PlayableTargets(Tops(pins), active.rank, sizes, Ball(j));
      assert sizes[0] == |balls[0]|;
    }
    assert Conserved(deck[..|deck| - 1], balls', pins, deck[|deck| - 1]) by {
      UnionAdd(balls, j, active);
      DrawKeepsConserved(deck, balls, pins, active, balls', pins);
    }
  }
}
