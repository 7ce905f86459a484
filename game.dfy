/** The card model of package game (game/game.go): five suits, numbered cards and jokers,
    and the round-dependent wild rule. Package bots declares the same Card shape and the same
    suit list (bots/encoding.go, bots/bot.go); this one datatype stands for both. */
module Game {

  const SuiteBlue: char := 'B'
  const SuiteRed: char := 'R'
  const SuiteYellow: char := 'Y'
  const SuiteGreen: char := 'G'
  const SuiteBlack: char := 'X'

  /** The suits in the order the engine walks them. */
  const Suites: seq<char> := [SuiteBlue, SuiteGreen, SuiteBlack, SuiteRed, SuiteYellow]

  /** A card: a joker, or a number with a suit rune. The fields are those of the Go struct,
      so a joker may in principle carry a number and a suit. */
  datatype Card = Card(joker: bool, number: int, suite: char)
  {
    /** Jokers are always wild; any other card is wild in the round equal to its number. */
    predicate IsWild(round: int)
    {
      joker || number == round
    }
  }

  /** The joker as the engine writes it: the Go zero value with the joker flag set. */
  const CardJoker: Card := Card(true, 0, 0 as char)

  /** Go's zero Card{}: what a failed lookup of a wild card hands back. */
  const ZeroCard: Card := Card(false, 0, 0 as char)

  /** Every joker is the canonical CardJoker (decoding produces no other). */
  predicate Canonical(c: Card)
  {
    c.joker ==> c == CardJoker
  }

  predicate AllCanonical(cards: seq<Card>)
  {
    forall i | 0 <= i < |cards| :: Canonical(cards[i])
  }

  /** One of the five suit runes. */
  predicate IsSuite(r: char)
  {
    r == SuiteBlue || r == SuiteRed || r == SuiteBlack || r == SuiteGreen || r == SuiteYellow
  }

  /** A card the codec accepts: the joker, or a number from 3 to 13 in one of the five suits. */
  predicate ValidCard(c: Card)
  {
    if c.joker then c == CardJoker else 3 <= c.number <= 13 && IsSuite(c.suite)
  }

  /** The suit list holds exactly the five suit runes, each once. */
  lemma SuitesDistinct()
    ensures forall r :: IsSuite(r) <==> r in Suites
    ensures forall i, j | 0 <= i < j < |Suites| :: Suites[i] != Suites[j]
  {
  }

  /** CardJoker is wild in every round; another card is wild exactly in the round equal to
      its number; the suit never matters. */
  lemma WildRule(c: Card, round: int, otherSuite: char)
    ensures CardJoker.IsWild(round)
    ensures !c.joker ==> (c.IsWild(round) <==> c.number == round)
    ensures c.(suite := otherSuite).IsWild(round) == c.IsWild(round)
  {
  }
}
