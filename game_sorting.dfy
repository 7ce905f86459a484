/** CompareCard (game/sorting.go): the order hands are sorted in before runs are looked for. */
module GameSorting {
  import opened Game
  import opened Slices

  /** Zero for equal cards; a joker sorts after everything; otherwise the suit runes decide,
      and within a suit the numbers do. */
  function CompareCard(c1: Card, c2: Card): int
  {
    if c1 == c2 then 0
    else if c1.joker then 1
    else if c2.joker then -1
    else if c1.suite == c2.suite then c1.number - c2.number
    else (c1.suite as int) - (c2.suite as int)
  }

  function Sign(x: int): int
  {
    if x > 0 then 1 else if x < 0 then -1 else 0
  }

  /** The four branches of CompareCard. */
  lemma CompareCardCases(c1: Card, c2: Card)
    ensures CompareCard(c1, c1) == 0
    ensures c1.joker && !c2.joker ==> CompareCard(c1, c2) == 1 && CompareCard(c2, c1) == -1
    ensures !c1.joker && !c2.joker && c1.suite == c2.suite ==> CompareCard(c1, c2) == c1.number - c2.number
    ensures !c1.joker && !c2.joker && c1.suite != c2.suite ==>
              CompareCard(c1, c2) == (c1.suite as int) - (c2.suite as int)
  {
  }

  /** The cases of bots/sorting_test.go: 10-R against 10-B gives 16, 11-B against 10-B gives 1. */
  lemma CompareCardExamples()
    ensures CompareCard(CardJoker, Card(false, 10, 'R')) == 1
    ensures CompareCard(Card(false, 10, 'R'), CardJoker) == -1
    ensures CompareCard(Card(false, 10, 'R'), Card(false, 10, 'B')) == 16
    ensures CompareCard(Card(false, 11, 'B'), Card(false, 10, 'B')) == 1
  {
  }

  /** On canonical cards the comparison is 0 only for equal cards and swapping the arguments
      flips its sign. */
  lemma CompareCardAntisymmetric(a: Card, b: Card)
    requires Canonical(a) && Canonical(b)
    ensures CompareCard(a, b) == 0 <==> a == b
    ensures Sign(CompareCard(a, b)) == -Sign(CompareCard(b, a))
  {
  }

  /** On canonical cards "not after" is transitive. */
  lemma CompareCardTransitive(a: Card, b: Card, c: Card)
    requires Canonical(a) && Canonical(b) && Canonical(c)
    requires CompareCard(a, b) <= 0 && CompareCard(b, c) <= 0
    ensures CompareCard(a, c) <= 0
  {
  }

  /** CompareCard is a strict consistent order on any list of canonical cards. */
  lemma {:induction false} CompareCardOrders(cards: seq<Card>)
    requires AllCanonical(cards)
    ensures OrderOn(cards, CompareCard) && StrictOn(cards, CompareCard)
  {
    forall a, b | a in cards && b in cards
      ensures CompareCard(a, b) <= 0 <==> CompareCard(b, a) >= 0
      ensures CompareCard(a, b) == 0 ==> a == b
    {
      CompareCardAntisymmetric(a, b);
    }
    forall a, b, c | a in cards && b in cards && c in cards && CompareCard(a, b) <= 0 && CompareCard(b, c) <= 0
      ensures CompareCard(a, c) <= 0
    {
      CompareCardTransitive(a, b, c);
    }
  }

  /** slices.SortFunc(hand, CompareCard), as the grugbot and bigbrainbot pipelines call it. */
  function SortCards(hand: seq<Card>): (sorted: seq<Card>)
    ensures multiset(sorted) == multiset(hand)
  {
    SortFunc(hand, CompareCard)
  }

  /** For canonical cards the sorted hand is sorted. */
  lemma SortCardsSorted(hand: seq<Card>)
    requires AllCanonical(hand)
    ensures SortedBy(SortCards(hand), CompareCard)
  {
    CompareCardOrders(hand);
  }

  /** For canonical cards any sorted permutation of the hand is the sorted hand, whatever
      order ties would have been broken in. */
  lemma SortCardsUnique(hand: seq<Card>, other: seq<Card>)
    requires AllCanonical(hand)
    requires multiset(other) == multiset(hand) && SortedBy(other, CompareCard)
    ensures other == SortCards(hand)
  {
    var s := SortCards(hand);
    SortCardsSorted(hand);
    CanonicalPermutation(hand, s);
    CompareCardOrders(s);
    SortedUnique(s, other, CompareCard);
  }

  /** The hand 9-Y, *, 8-R, 9-R sorts to 8-R, 9-R, 9-Y, *: red before yellow, the lower
      number first within red, and the joker last. */
  lemma SortCardsExample()
    ensures SortCards([Card(false, 9, 'Y'), CardJoker, Card(false, 8, 'R'), Card(false, 9, 'R')])
            == [Card(false, 8, 'R'), Card(false, 9, 'R'), Card(false, 9, 'Y'), CardJoker]
  {
    var hand := [Card(false, 9, 'Y'), CardJoker, Card(false, 8, 'R'), Card(false, 9, 'R')];
    var sorted := [Card(false, 8, 'R'), Card(false, 9, 'R'), Card(false, 9, 'Y'), CardJoker];
    ExampleSame(hand, sorted);
    ExampleSorted(sorted);
    SortCardsUnique(hand, sorted);
  }

  lemma ExampleSame(hand: seq<Card>, sorted: seq<Card>)
    requires hand == [Card(false, 9, 'Y'), CardJoker, Card(false, 8, 'R'), Card(false, 9, 'R')]
    requires sorted == [Card(false, 8, 'R'), Card(false, 9, 'R'), Card(false, 9, 'Y'), CardJoker]
    ensures AllCanonical(hand) && multiset(sorted) == multiset(hand)
  {
    assert hand == [hand[0], hand[1]] + [hand[2], hand[3]];
    assert sorted == [hand[2], hand[3]] + [hand[0], hand[1]];
  }

  lemma ExampleSorted(sorted: seq<Card>)
    requires sorted == [Card(false, 8, 'R'), Card(false, 9, 'R'), Card(false, 9, 'Y'), CardJoker]
    ensures SortedBy(sorted, CompareCard)
  {
    assert CompareCard(sorted[0], sorted[1]) < 0 && CompareCard(sorted[0], sorted[2]) < 0;
    assert CompareCard(sorted[1], sorted[2]) < 0;
    assert CompareCard(sorted[0], sorted[3]) < 0 && CompareCard(sorted[1], sorted[3]) < 0;
    assert CompareCard(sorted[2], sorted[3]) < 0;
  }

  lemma CanonicalPermutation(a: seq<Card>, b: seq<Card>)
    requires AllCanonical(a) && multiset(a) == multiset(b)
    ensures AllCanonical(b)
  {
    forall i | 0 <= i < |b| ensures Canonical(b[i]) {
      assert b[i] in multiset(a);
      var j :| 0 <= j < |a| && a[j] == b[i];
    }
  }

  /** What sortedness by CompareCard means for two canonical cards in order: a joker is
      followed only by jokers, and two other cards ascend by suit rune, then by number. */
  lemma SortedPairMeaning(a: Card, b: Card)
    requires Canonical(a) && Canonical(b) && CompareCard(a, b) <= 0
    ensures a.joker ==> b.joker
    ensures !a.joker && !b.joker ==> a.suite < b.suite || (a.suite == b.suite && a.number <= b.number)
  {
  }
}
