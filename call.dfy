/**
 * The call estimator (call.py): the chance that each card of a hand takes a trick when its
 * suit is led, summed over the hand. The shuffles behind every trial are supplied by the
 * caller.
 */
module Call {
  import opened Errors
  import Engine
  import Probab
  import Randomness
  import opened Arith

  /** The shuffle draws of trial i of batch j. */
  type Shuffles = (nat, nat) -> seq<nat>

  /** Every trial's draws are a valid shuffle of `size` tokens. */
  ghost predicate ValidShuffles(draws: Shuffles, size: nat) {
    forall j: nat, i: nat :: Randomness.ShuffleDraws(draws(j, i), size)
  }

  /** The fewest cards of its suit that each other player must still hold for the card to be led. */
  function Need(card: Engine.Card): int {
    15 - card.face.value
  }

  /** What the shuffles must provide for the card: only a card that reaches its threshold is simulated. */
  ghost predicate ChanceReady(card: Engine.Card, cardsCount: nat, others: int, draws: Shuffles) {
    cardsCount >= Need(card) ==> ValidShuffles(draws, |Probab.Tokens(13 - cardsCount, others)|)
  }

  /**
   * One trial: the cards of the suit still out are dealt to the other players, and each of
   * them must get at least Need(card) of them.
   */
  function Trial(card: Engine.Card, cardsCount: nat, others: int, draws: Shuffles, j: nat, i: nat): bool
    requires ValidShuffles(draws, |Probab.Tokens(13 - cardsCount, others)|)
  {
    Probab.ContainsMin(Probab.HeartDistribution(13 - cardsCount, others, draws(j, i)), Need(card)) == Ok(true)
  }

  /** The trials of win_chance_for_card, by batch and trial number. */
  function TrialOf(card: Engine.Card, cardsCount: nat, others: int, draws: Shuffles): (nat, nat) -> bool
    requires ValidShuffles(draws, |Probab.Tokens(13 - cardsCount, others)|)
  {
    (j: nat, i: nat) => Trial(card, cardsCount, others, draws, j, i)
  }

  /**
   * win_chance_for_card: 0 for a card whose suit is too short; otherwise the worst of two
   * batches of 1000 trials. With no other player every trial takes min() of nothing.
   */
  function WinChance(card: Engine.Card, cardsCount: nat, others: int, draws: Shuffles): (r: Result<real>)
    requires ChanceReady(card, cardsCount, others, draws)
    ensures cardsCount < Need(card) ==> r == Ok(0.0)
    ensures cardsCount >= Need(card) && others <= 0 ==> r == Err(EmptySequence)
    ensures others > 0 ==> r.Ok?
    ensures r.Ok? ==> 0.0 <= r.value <= 1.0
    ensures cardsCount >= Need(card) && others > 0 ==>
      r == Probab.GetProb(TrialOf(card, cardsCount, others, draws), 1000, 2)
  {
    if cardsCount < Need(card) then Ok(0.0)
    else if others <= 0 then Err(EmptySequence)
    else
      var trial := TrialOf(card, cardsCount, others, draws);
      Probab.GetProbIsWorstBatch(trial, 1000, 2);
      Probab.GetProb(trial, 1000, 2)
  }

  /**
   * A card that reaches its threshold scores the worse of its two batches: the fraction of
   * 1000 trials in which every other player still follows suit Need(card) deep.
   */
  lemma WinChanceWorstBatch(card: Engine.Card, cardsCount: nat, others: int, draws: Shuffles)
    requires cardsCount >= Need(card) && others > 0 && ChanceReady(card, cardsCount, others, draws)
    ensures exists j :: 0 <= j < 2 && WinChance(card, cardsCount, others, draws) ==
              Ok(Probab.Ratio(TrialOf(card, cardsCount, others, draws), j, 1000))
    ensures forall j :: 0 <= j < 2 ==>
              WinChance(card, cardsCount, others, draws).value <= Probab.Ratio(TrialOf(card, cardsCount, others, draws), j, 1000)
  {
    Probab.GetProbIsWorstBatch(TrialOf(card, cardsCount, others, draws), 1000, 2);
  }

  /**
   * A card is never led home when the suit's cards still out cannot give every other player
   * Need(card) of them.
   */
  lemma WinChanceShortSuit(card: Engine.Card, cardsCount: nat, others: nat, draws: Shuffles)
    requires cardsCount <= 13 && others >= 1 && ChanceReady(card, cardsCount, others, draws)
    requires Need(card) * others > 13 - cardsCount
    ensures WinChance(card, cardsCount, others, draws) == Ok(0.0)
  {
    if cardsCount >= Need(card) {
      var trial := TrialOf(card, cardsCount, others, draws);
      forall i: nat | i < 1000 ensures !trial(0, i) {
        TrialShortSuit(card, cardsCount, others, draws, 0, i);
      }
      assert Probab.AllFail(trial, 0, 1000);
      Probab.GetProbNone(trial, 1000, 2, 0);
    }
  }

  lemma TrialShortSuit(card: Engine.Card, cardsCount: nat, others: nat, draws: Shuffles, j: nat, i: nat)
    requires cardsCount <= 13 && others >= 1 && ValidShuffles(draws, |Probab.Tokens(13 - cardsCount, others)|)
    requires Need(card) * others > 13 - cardsCount
    ensures !Trial(card, cardsCount, others, draws, j, i)
  {
    var dist := Probab.HeartDistribution(13 - cardsCount, others, draws(j, i));
    Probab.HeartDistributionShape(13 - cardsCount, others, draws(j, i));
    if forall x :: x in dist ==> x >= Need(card) {
      Probab.SumAtLeast(dist, Need(card));
    }
  }

  /** Holding all 13 cards of a suit, no card of it is led home: nobody else can follow. */
  lemma WinChanceFullSuit(card: Engine.Card, others: nat, draws: Shuffles)
    requires card.face.value <= 14 && others >= 1 && ChanceReady(card, 13, others, draws)
    ensures WinChance(card, 13, others, draws) == Ok(0.0)
  {
    WinChanceShortSuit(card, 13, others, draws);
  }

  /** A two is never led home among four players, whatever the length of its suit. */
  lemma WinChanceTwo(card: Engine.Card, cardsCount: nat, draws: Shuffles)
    requires card.face.value == 2 && cardsCount <= 13 && ChanceReady(card, cardsCount, 3, draws)
    ensures WinChance(card, cardsCount, 3, draws) == Ok(0.0)
  {
    WinChanceShortSuit(card, cardsCount, 3, draws);
  }

  // ---------------------------------------------------------------------------
  // can_win over a hand of suit buckets

  /** The chance of card k of bucket b, against three other players. */
  function CardChance(cards: seq<seq<Engine.Card>>, draws: (nat, nat) -> Shuffles, b: nat, k: nat): (p: real)
    requires b < |cards| && k < |cards[b]| && HandReady(cards, draws)
    ensures 0.0 <= p <= 1.0
  {
    WinChance(cards[b][k], |cards[b]|, 3, draws(b, k)).value
  }

  /** The shuffles every card of the hand needs. */
  ghost predicate HandReady(cards: seq<seq<Engine.Card>>, draws: (nat, nat) -> Shuffles) {
    forall b, k :: 0 <= b < |cards| && 0 <= k < |cards[b]| ==> ChanceReady(cards[b][k], |cards[b]|, 3, draws(b, k))
  }

  /** The chances of cards k, k+1, ... of bucket b. */
  function BucketFrom(cards: seq<seq<Engine.Card>>, draws: (nat, nat) -> Shuffles, b: nat, k: nat): (p: real)
    requires b < |cards| && k <= |cards[b]| && HandReady(cards, draws)
    ensures 0.0 <= p <= (|cards[b]| - k) as real
    decreases |cards[b]| - k
  {
    if k == |cards[b]| then 0.0 else CardChance(cards, draws, b, k) + BucketFrom(cards, draws, b, k + 1)
  }

  /** The chances of every card in buckets b, b+1, ... */
  function HandFrom(cards: seq<seq<Engine.Card>>, draws: (nat, nat) -> Shuffles, b: nat): real
    requires b <= |cards| && HandReady(cards, draws)
    decreases |cards| - b
  {
    if b == |cards| then 0.0 else BucketFrom(cards, draws, b, 0) + HandFrom(cards, draws, b + 1)
  }

  /** The expected number of tricks the hand leads home: the sum of its cards' chances. */
  function HandChance(cards: seq<seq<Engine.Card>>, draws: (nat, nat) -> Shuffles): real
    requires HandReady(cards, draws)
  {
    HandFrom(cards, draws, 0)
  }

  /** The estimate lies between 0 and the number of cards in the hand. */
  lemma {:induction false} HandFromBounds(cards: seq<seq<Engine.Card>>, draws: (nat, nat) -> Shuffles, b: nat)
    requires b <= |cards| && HandReady(cards, draws)
    ensures 0.0 <= HandFrom(cards, draws, b) <= |Engine.Flatten(cards[b..])| as real
    decreases |cards| - b
  {
    if b < |cards| {
      HandFromBounds(cards, draws, b + 1);
      assert cards[b..][1..] == cards[b + 1..];
      assert Engine.Flatten(cards[b..]) == cards[b] + Engine.Flatten(cards[b + 1..]);
    }
  }

  /** A hand estimates between 0 and one trick per card, and an empty hand estimates 0. */
  lemma HandChanceBounds(cards: seq<seq<Engine.Card>>, draws: (nat, nat) -> Shuffles)
    requires HandReady(cards, draws)
    ensures 0.0 <= HandChance(cards, draws) <= |Engine.Flatten(cards)| as real
    ensures Engine.Flatten(cards) == [] ==> HandChance(cards, draws) == 0.0
  {
    HandFromBounds(cards, draws, 0);
    assert cards[0..] == cards;
  }

  /** can_win: the chances of every card, bucket by bucket, added up. */
  method CanWin(cards: seq<seq<Engine.Card>>, draws: (nat, nat) -> Shuffles) returns (chance: real)
    requires HandReady(cards, draws)
    ensures chance == HandChance(cards, draws)
  {
    chance := 0.0;
    var b := 0;
    while b < |cards|
      invariant b <= |cards|
      invariant chance + HandFrom(cards, draws, b) == HandChance(cards, draws)
    {
      var k := 0;
      while k < |cards[b]|
        invariant k <= |cards[b]|
        invariant chance + BucketFrom(cards, draws, b, k) + HandFrom(cards, draws, b + 1) == HandChance(cards, draws)
      {
        var p := WinChance(cards[b][k], |cards[b]|, 3, draws(b, k)).value;
        chance := chance + p;
        k := k + 1;
      }
      b := b + 1;
    }
  }

  /** suggest_call: the call is the hand's estimate. */
  method SuggestCall(cards: seq<seq<Engine.Card>>, draws: (nat, nat) -> Shuffles) returns (call: real)
    requires HandReady(cards, draws)
    ensures call == HandChance(cards, draws)
    ensures 0.0 <= call <= |Engine.Flatten(cards)| as real
  {
    call := CanWin(cards, draws);
    HandChanceBounds(cards, draws);
  }
}
