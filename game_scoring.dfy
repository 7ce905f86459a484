/** Card and sequence scores of game/scoring.go: a joker counts 25, any other card its number. */
module GameScoring {
  import opened Game
  import Slices

  /** A joker scores 25; another card scores its number, whatever its suit. */
  function ScoreCard(card: Card): int
  {
    if card.joker then 25 else card.number
  }

  /** The total score of a list of cards, added up from the front as the engine does. */
  function SumOfCardScores(cards: seq<Card>): int
  {
    if cards == [] then 0 else SumOfCardScores(cards[..|cards| - 1]) + ScoreCard(cards[|cards| - 1])
  }

  /** game.ScoreSequence: the sum of the card scores. */
  method ScoreSequence(cards: seq<Card>) returns (score: int)
    ensures score == SumOfCardScores(cards)
  {
    score := 0;
    for i := 0 to |cards|
      invariant score == SumOfCardScores(cards[..i])
    {
      assert cards[..i + 1][..i] == cards[..i];
      score := score + ScoreCard(cards[i]);
    }
    assert cards[..|cards|] == cards;
  }

  /** The score of two lists laid end to end is the sum of their scores. */
  lemma {:induction false} SumAppend(a: seq<Card>, b: seq<Card>)
    ensures SumOfCardScores(a + b) == SumOfCardScores(a) + SumOfCardScores(b)
  {
    if b != [] {
      var init := b[..|b| - 1];
      assert (a + b)[..|a + b| - 1] == a + init;
      SumAppend(a, init);
    } else {
      assert a + b == a;
    }
  }

  /** The score does not depend on the order of the cards. */
  lemma {:induction false} SumPermutation(a: seq<Card>, b: seq<Card>)
    requires multiset(a) == multiset(b)
    ensures SumOfCardScores(a) == SumOfCardScores(b)
  {
    if a == [] {
      assert |b| == |multiset(b)| == 0;
    } else {
      var x := a[0];
      assert x in multiset(b);
      var j :| 0 <= j < |b| && b[j] == x;
      var left, right := b[..j], b[j + 1..];
      var tail := a[1..];
      assert multiset(tail) == multiset(left + right) by {
        Slices.RemoveAt(b, j);
        Slices.RemoveAt(a, 0);
        assert a[..0] + a[1..] == tail;
      }
      SumPermutation(tail, left + right);
      assert a == [x] + tail;
      SumAppend([x], tail);
      assert b == (left + [x]) + right;
      SumAppend(left + [x], right);
      SumAppend(left, [x]);
      SumAppend(left, right);
      SumSingle(x);
    }
  }

  lemma SumSingle(x: Card)
    ensures SumOfCardScores([x]) == ScoreCard(x)
  {
    assert [x][..0] == [];
  }

  /** A list of valid cards scores between 3 and 25 points per card. */
  lemma {:induction false} SumBounds(cards: seq<Card>)
    requires forall c | c in cards :: ValidCard(c)
    ensures 3 * |cards| <= SumOfCardScores(cards) <= 25 * |cards|
  {
    if cards != [] {
      SumBounds(cards[..|cards| - 1]);
      assert cards[|cards| - 1] in cards;
    }
  }
}
