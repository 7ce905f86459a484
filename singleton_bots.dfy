/** The smoothbrain and stupid bots (bots/smoothbrainbot/smoothbrainbot.go and
    bots/stupidbot/stupidbot.go carry the same code line for line). They never build a meld:
    every card is reported as a meld of its own. The random draws of math/rand come in as
    parameters. */
module SingletonBots {
  import opened Slices
  import opened BotTypes

  /** One single-card meld per card code, in hand order. */
  function Singletons(hand: seq<string>): (r: seq<seq<string>>)
    ensures |r| == |hand|
    ensures forall i | 0 <= i < |r| :: r[i] == [hand[i]]
  {
    if hand == [] then [] else Singletons(hand[..|hand| - 1]) + [[hand[|hand| - 1]]]
  }

  /** Singletons of a concatenation are the singletons of each part, in order. */
  lemma {:induction false} SingletonsAppend(a: seq<string>, b: seq<string>)
    ensures Singletons(a + b) == Singletons(a) + Singletons(b)
  {
    if b != [] {
      SingletonsAppend(a, b[..|b| - 1]);
      assert (a + b)[..|a + b| - 1] == a + b[..|b| - 1];
    } else {
      assert a + b == a;
    }
  }

  /** Draw: the deck, or the discard pile when the coin (rand.Intn(2)) comes up 1. */
  function Draw(req: BotRequest, coin: int): (r: DrawResponse)
    requires 0 <= coin < 2
    ensures r.action == ActionDraw
    ensures r.stack == StackDiscard <==> coin == 1
    ensures r.stack == StackDeck <==> coin == 0
  {
    var stack := if coin == 1 then StackDiscard else StackDeck;
    DrawResponse(ActionDraw, stack)
  }

  /** Score: every card of the hand as its own meld, in hand order, with the discard action
      and no flop. */
  method Score(req: BotRequest) returns (r: ScoreResponse)
    ensures r.sequences == Singletons(req.hand)
    ensures r.action == ActionDiscard && !r.flop
  {
    var sequences := [];
    for i := 0 to |req.hand|
      invariant sequences == Singletons(req.hand[..i])
    {
      assert req.hand[..i + 1] == req.hand[..i] + [req.hand[i]];
      sequences := sequences + [[req.hand[i]]];
    }
    assert req.hand[..|req.hand|] == req.hand;
    return ScoreResponse(sequences, ActionDiscard, false);
  }

  /** Discard: the card at the drawn index (rand.Intn(len(hand)), which panics on an empty
      hand) is thrown away and every other card is reported as its own meld, in hand order. */
  method Discard(req: BotRequest, discardIdx: int) returns (r: DiscardResponse)
    requires 0 <= discardIdx < |req.hand|
    ensures r.card == req.hand[discardIdx]
    ensures r.sequences == Singletons(Delete(req.hand, discardIdx))
    ensures r.action == ActionDiscard && !r.flop
  {
    var hand := req.hand;
    var sequences := [];
    for i := 0 to |hand|
      invariant sequences == Singletons(KeptBefore(hand, discardIdx, i))
    {
      KeptStep(hand, discardIdx, i);
      if i != discardIdx {
        SingletonsAppend(KeptBefore(hand, discardIdx, i), [hand[i]]);
        sequences := sequences + [[hand[i]]];
      }
    }
    KeptAll(hand, discardIdx);
    return DiscardResponse(sequences, ActionDiscard, hand[discardIdx], false);
  }

  lemma KeptAll(hand: seq<string>, discardIdx: nat)
    requires discardIdx < |hand|
    ensures KeptBefore(hand, discardIdx, |hand|) == Delete(hand, discardIdx)
  {
  }

  /** The cards before index i other than the discarded one. */
  function KeptBefore(hand: seq<string>, discardIdx: nat, i: nat): seq<string>
    requires discardIdx < |hand| && i <= |hand|
  {
    if i <= discardIdx then hand[..i] else hand[..discardIdx] + hand[discardIdx + 1..i]
  }

  lemma KeptStep(hand: seq<string>, discardIdx: nat, i: nat)
    requires discardIdx < |hand| && i < |hand|
    ensures KeptBefore(hand, discardIdx, i + 1) ==
              if i == discardIdx then KeptBefore(hand, discardIdx, i)
              else KeptBefore(hand, discardIdx, i) + [hand[i]]
  {
    if i < discardIdx {
      assert hand[..i + 1] == hand[..i] + [hand[i]];
    } else if i > discardIdx {
      assert hand[..discardIdx] + hand[discardIdx + 1..i + 1] ==
             hand[..discardIdx] + hand[discardIdx + 1..i] + [hand[i]];
    } else {
      assert hand[..discardIdx] + hand[discardIdx + 1..i + 1] == hand[..i];
    }
  }
}
