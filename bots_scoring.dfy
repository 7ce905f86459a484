/** bots/scoring.go: the bots' own copy of the sequence score, with the joker rule inlined. */
module BotsScoring {
  import opened Game
  import GameScoring

  /** bots.ScoreSequence: 25 for each joker plus the numbers of the other cards; the same
      total as the engine's score. */
  method ScoreSequence(cards: seq<Card>) returns (score: int)
    ensures score == GameScoring.SumOfCardScores(cards)
  {
    score := 0;
    for i := 0 to |cards|
      invariant score == GameScoring.SumOfCardScores(cards[..i])
    {
      assert cards[..i + 1][..i] == cards[..i];
      if cards[i].joker {
        score := score + 25;
      } else {
        score := score + cards[i].number;
      }
    }
    assert cards[..|cards|] == cards;
  }
}
