/** The exhaustive meld search of old-script.js: the card index built from a hand, the score
    of the cards left at a leaf of the search, the candidate melds found from the index, and
    their enumeration into shorter runs and smaller sets. JavaScript objects and sets are
    modelled as their keys in insertion order plus, for objects, the values. */
module OldScript {
  import opened Wrappers
  import opened Strings
  import opened Slices
  import opened Subsequences
  import ArenaEngine
  import Game
  import BotsEncoding

  // ---------------------------------------------------------------------------------------
  // The card index of bestScore

  /** A JavaScript object from card codes to counts: the keys in insertion order and the value
      of each key. */
  datatype CardIndex = CardIndex(keys: seq<string>, counts: map<string, int>)

  ghost predicate Distinct(s: seq<string>)
  {
    forall i, j | 0 <= i < j < |s| :: s[i] != s[j]
  }

  /** Every key is listed once, and the listed keys are exactly the keys with a value. */
  ghost predicate ValidIndex(idx: CardIndex)
  {
    Distinct(idx.keys) && forall k :: k in idx.counts <==> k in idx.keys
  }

  /** The distinct elements of s in the order of their first occurrence. */
  function FirstOccurrences(s: seq<string>): (d: seq<string>)
    ensures Distinct(d)
    ensures forall x :: x in d <==> x in s
  {
    if s == [] then []
    else
      var d := FirstOccurrences(s[..|s| - 1]);
      if s[|s| - 1] in d then d else d + [s[|s| - 1]]
  }

  /** The index of a hand: every card keyed once, in order of first sight, with its number of
      occurrences. */
  ghost predicate Counted(idx: CardIndex, cards: seq<string>)
  {
    ValidIndex(idx) && idx.keys == FirstOccurrences(cards) &&
    forall k | k in idx.counts :: idx.counts[k] == multiset(cards)[k]
  }

  /** One more card: a new key with the value 1, or one more on an existing key. */
  function Count(idx: CardIndex, card: string): CardIndex
  {
    if card !in idx.counts then CardIndex(idx.keys + [card], idx.counts[card := 1])
    else idx.(counts := idx.counts[card := idx.counts[card] + 1])
  }

  lemma CountStep(cards: seq<string>, i: nat, idx: CardIndex)
    requires i < |cards| && Counted(idx, cards[..i])
    ensures Counted(Count(idx, cards[i]), cards[..i + 1])
  {
    CountStepKeys(cards, i, idx);
    CountStepValues(cards, i, idx);
  }

  lemma CountStepKeys(cards: seq<string>, i: nat, idx: CardIndex)
    requires i < |cards| && Counted(idx, cards[..i])
    ensures ValidIndex(Count(idx, cards[i])) && Count(idx, cards[i]).keys == FirstOccurrences(cards[..i + 1])
  {
    var card := cards[i];
    var next := Count(idx, card);
    FirstOccurrencesStep(cards, i);
    assert next.keys == FirstOccurrences(cards[..i + 1]);
    forall k ensures k in next.counts <==> k in next.keys {
      assert k in next.keys <==> k in idx.keys || k == card;
    }
  }

  lemma CountStepValues(cards: seq<string>, i: nat, idx: CardIndex)
    requires i < |cards| && Counted(idx, cards[..i])
    ensures forall k | k in Count(idx, cards[i]).counts :: Count(idx, cards[i]).counts[k] == multiset(cards[..i + 1])[k]
  {
    var card := cards[i];
    var next := Count(idx, card);
    assert cards[..i + 1] == cards[..i] + [card];
    var before := multiset(cards[..i]);
    var after := multiset(cards[..i + 1]);
    assert after == before + multiset{card};
    forall k | k in next.counts ensures next.counts[k] == after[k] {
      if k == card && card !in idx.counts {
        assert card !in cards[..i];
      }
    }
  }

  /** The loop of bestScore that turns the hand into an index: the first sight of a card adds
      its key with the value 1, every further sight adds one. (A present key never holds 0
      here, so the source's "falsy" test and a presence test agree.) */
  method CountCards(cards: seq<string>) returns (idx: CardIndex)
    ensures ValidIndex(idx)
    ensures idx.keys == FirstOccurrences(cards)
    ensures forall k | k in idx.counts :: idx.counts[k] == multiset(cards)[k]
  {
    idx := CardIndex([], map[]);
    for i := 0 to |cards|
      invariant Counted(idx, cards[..i])
    {
      var card := cards[i];
      CountStep(cards, i, idx);
      if card !in idx.counts {
        idx := CardIndex(idx.keys + [card], idx.counts[card := 1]);
      } else {
        idx := idx.(counts := idx.counts[card := idx.counts[card] + 1]);
      }
    }
    assert cards[..|cards|] == cards;
  }

  lemma FirstOccurrencesStep(cards: seq<string>, i: nat)
    requires i < |cards|
    ensures FirstOccurrences(cards[..i + 1]) ==
              if cards[i] in FirstOccurrences(cards[..i]) then FirstOccurrences(cards[..i])
              else FirstOccurrences(cards[..i]) + [cards[i]]
  {
    assert cards[..i + 1][..i] == cards[..i];
  }

  /** The value of a key, or 0 when it is absent (as `cardIdx[key] ?? 0` reads it). */
  function Lookup(idx: CardIndex, key: string): int
  {
    if key in idx.counts then idx.counts[key] else 0
  }

  // ---------------------------------------------------------------------------------------
  // The leaf of calculateBest

  /** n copies of x, none when n is not positive. */
  function Repeat(x: string, n: int): (r: seq<string>)
    ensures |r| == if n > 0 then n else 0
    ensures forall k | 0 <= k < |r| :: r[k] == x
    ensures forall y :: multiset(r)[y] == if y == x then |r| else 0
    decreases n
  {
    if n <= 0 then [] else Repeat(x, n - 1) + [x]
  }

  /** The cards pushed onto `remaining`: every key whose value is positive, value times, in key
      order. */
  function LeafRemaining(keys: seq<string>, counts: map<string, int>): seq<string>
  {
    if keys == [] then []
    else
      var k := keys[|keys| - 1];
      LeafRemaining(keys[..|keys| - 1], counts) + (if k in counts then Repeat(k, counts[k]) else [])
  }

  /** The JavaScript number of a card, none standing for NaN and undefined alike. */
  function Number(card: string): Option<int>
  {
    ArenaEngine.JsDecodeCard(card).number
  }

  /** The leaf score: the number of every key with a positive value times that value, summed in
      key order; one undecodable key (and the joker, whose number is undefined) makes it NaN. */
  function LeafScore(number: string -> Option<int>, keys: seq<string>, counts: map<string, int>): Option<int>
  {
    if keys == [] then Some(0)
    else
      var k := keys[|keys| - 1];
      var before := LeafScore(number, keys[..|keys| - 1], counts);
      if !(k in counts && counts[k] > 0) then before
      else if before.Some? && number(k).Some? then Some(before.value + number(k).value * counts[k])
      else None
  }

  /** The leaf of calculateBest: one pass over the entries of the index. The number of a card
      is read by `number`, which calculateBest takes from decodeCard (the function Number). */
  method Leaf(idx: CardIndex, number: string -> Option<int>) returns (remaining: seq<string>, score: Option<int>)
    requires forall k | k in idx.keys :: k in idx.counts
    ensures remaining == LeafRemaining(idx.keys, idx.counts)
    ensures score == LeafScore(number, idx.keys, idx.counts)
  {
    remaining := [];
    score := Some(0);
    for e := 0 to |idx.keys|
      invariant remaining == LeafRemaining(idx.keys[..e], idx.counts)
      invariant score == LeafScore(number, idx.keys[..e], idx.counts)
    {
      LeafStep(number, idx.keys, e, idx.counts);
      var card := idx.keys[e];
      var count := idx.counts[card];
      if count > 0 {
        score := if score.Some? && number(card).Some? then Some(score.value + number(card).value * count) else None;
        remaining := PushCopies(remaining, card, count);
      }
    }
    assert idx.keys[..|idx.keys|] == idx.keys;
  }

  /** One more entry of the index: its copies and its share of the score when its value is
      positive, nothing otherwise. */
  lemma LeafStep(number: string -> Option<int>, keys: seq<string>, e: nat, counts: map<string, int>)
    requires e < |keys| && keys[e] in counts
    ensures var k, n := keys[e], counts[keys[e]];
            && LeafRemaining(keys[..e + 1], counts) ==
                 LeafRemaining(keys[..e], counts) + (if n > 0 then Repeat(k, n) else [])
            && LeafScore(number, keys[..e + 1], counts) ==
                 var before := LeafScore(number, keys[..e], counts);
                 if n <= 0 then before
                 else if before.Some? && number(k).Some? then Some(before.value + number(k).value * n)
                 else None
  {
    var pre := keys[..e + 1];
    assert pre[..|pre| - 1] == keys[..e] && pre[|pre| - 1] == keys[e];
    if counts[keys[e]] <= 0 {
      assert Repeat(keys[e], counts[keys[e]]) == [];
    }
  }

  /** The inner loop of the leaf: push one card `count` times. */
  method PushCopies(cards: seq<string>, card: string, count: int) returns (more: seq<string>)
    ensures more == cards + Repeat(card, count)
  {
    more := cards;
    var i := 0;
    while i < count
      invariant more == cards + Repeat(card, i)
      invariant if count > 0 then 0 <= i <= count else i == 0
      decreases count - i
    {
      more := more + [card];
      i := i + 1;
    }
  }

  /** How often a card is left at the leaf: its value when that is positive, for a key listed
      once. */
  lemma {:induction false} LeafRemainingCount(keys: seq<string>, counts: map<string, int>, x: string)
    requires Distinct(keys)
    ensures multiset(LeafRemaining(keys, counts))[x] ==
              if x in keys && x in counts && counts[x] > 0 then counts[x] else 0
  {
    if keys != [] {
      var k := keys[|keys| - 1];
      var front := keys[..|keys| - 1];
      LeafRemainingCount(front, counts, x);
      assert keys == front + [k];
      assert x in keys <==> x in front || x == k;
      assert k !in front;
    }
  }

  /** At the root of the search the leaf keeps the whole hand: the remaining cards are a
      permutation of the counted hand. */
  lemma CountedLeafRemaining(cards: seq<string>, idx: CardIndex)
    requires ValidIndex(idx) && idx.keys == FirstOccurrences(cards)
    requires forall k | k in idx.counts :: idx.counts[k] == multiset(cards)[k]
    ensures multiset(LeafRemaining(idx.keys, idx.counts)) == multiset(cards)
  {
    forall x ensures multiset(LeafRemaining(idx.keys, idx.counts))[x] == multiset(cards)[x] {
      LeafRemainingCount(idx.keys, idx.counts, x);
    }
  }

  /** Addition of JavaScript numbers where none is NaN: NaN absorbs everything. */
  function AddNumber(a: Option<int>, b: Option<int>): Option<int>
  {
    if a.Some? && b.Some? then Some(a.value + b.value) else None
  }

  /** The numbers of the cards added up one card at a time, as they were dealt. */
  function NumberSum(number: string -> Option<int>, cards: seq<string>): Option<int>
  {
    if cards == [] then Some(0) else AddNumber(NumberSum(number, cards[..|cards| - 1]), number(cards[|cards| - 1]))
  }

  /** The sum is a number exactly when every card has one. */
  lemma {:induction false} NumberSumDefined(number: string -> Option<int>, cards: seq<string>)
    ensures NumberSum(number, cards).Some? <==> forall c | c in cards :: number(c).Some?
  {
    if cards != [] {
      NumberSumDefined(number, cards[..|cards| - 1]);
      assert cards == cards[..|cards| - 1] + [cards[|cards| - 1]];
    }
  }

  /** The leaf score reads only the values of the listed keys. */
  lemma {:induction false} LeafScoreFrame(number: string -> Option<int>, keys: seq<string>, m1: map<string, int>, m2: map<string, int>)
    requires forall k | k in keys :: (k in m1 <==> k in m2) && (k in m1 ==> m1[k] == m2[k])
    ensures LeafScore(number, keys, m1) == LeafScore(number, keys, m2)
  {
    if keys != [] {
      LeafScoreFrame(number, keys[..|keys| - 1], m1, m2);
    }
  }

  /** One more copy of a listed card adds its number once to the leaf score. */
  lemma {:induction false} LeafScoreBump(number: string -> Option<int>, keys: seq<string>, m1: map<string, int>, m2: map<string, int>, c: string)
    requires Distinct(keys) && c in keys
    requires forall k | k in keys :: k in m1 && k in m2 && m1[k] > 0
    requires m2[c] == m1[c] + 1
    requires forall k | k in keys && k != c :: m1[k] == m2[k]
    ensures LeafScore(number, keys, m2) == AddNumber(LeafScore(number, keys, m1), number(c))
  {
    var k := keys[|keys| - 1];
    var front := keys[..|keys| - 1];
    assert keys == front + [k];
    if k == c {
      assert c !in front;
      LeafScoreFrame(number, front, m1, m2);
      var before := LeafScore(number, front, m1);
      if before.Some? && number(c).Some? {
        var n := number(c).value;
        assert n * m2[c] == n * m1[c] + n;
      }
    } else {
      assert c in front;
      LeafScoreBump(number, front, m1, m2, c);
    }
  }

  /** The values of the index of a hand, as a map. */
  function CountsOf(cards: seq<string>): map<string, int>
  {
    map k | k in FirstOccurrences(cards) :: multiset(cards)[k]
  }

  /** The leaf score of the index of a hand is the sum of the hand's numbers. */
  lemma {:induction false} CountsOfLeafScore(number: string -> Option<int>, cards: seq<string>)
    ensures LeafScore(number, FirstOccurrences(cards), CountsOf(cards)) == NumberSum(number, cards)
  {
    if cards == [] {
      assert FirstOccurrences(cards) == [];
    } else {
      var front := cards[..|cards| - 1];
      var c := cards[|cards| - 1];
      CountsOfLeafScore(number, front);
      var keys := FirstOccurrences(front);
      var m1 := CountsOf(front);
      var m2 := CountsOf(cards);
      var sum := NumberSum(number, front);
      assert NumberSum(number, cards) == AddNumber(sum, number(c));
      assert LeafScore(number, keys, m1) == sum;
      CountsOfStep(cards);
      if c in keys {
        LeafScoreBump(number, keys, m1, m2, c);
        assert LeafScore(number, FirstOccurrences(cards), m2) == AddNumber(sum, number(c));
      } else {
        LeafScoreFrame(number, keys, m1, m2);
        LeafScoreNewKey(number, keys, m2, c);
      }
    }
  }

  /** A last key with the value 1 adds its number once. */
  lemma LeafScoreNewKey(number: string -> Option<int>, keys: seq<string>, m: map<string, int>, c: string)
    requires c in m && m[c] == 1
    ensures LeafScore(number, keys + [c], m) == AddNumber(LeafScore(number, keys, m), number(c))
  {
    var all := keys + [c];
    assert all[..|all| - 1] == keys;
  }

  /** One more card: one more on its value, or a new key with the value 1. */
  lemma CountsOfStep(cards: seq<string>)
    requires cards != []
    ensures var front := cards[..|cards| - 1];
            var c := cards[|cards| - 1];
            var keys := FirstOccurrences(front);
            && FirstOccurrences(cards) == (if c in keys then keys else keys + [c])
            && c in CountsOf(cards)
            && (c in keys ==> c in CountsOf(front) && CountsOf(cards)[c] == CountsOf(front)[c] + 1)
            && (c !in keys ==> CountsOf(cards)[c] == 1)
            && (forall k | k in keys :: k in CountsOf(front) && k in CountsOf(cards) && CountsOf(front)[k] > 0)
            && (forall k | k in keys && k != c :: CountsOf(cards)[k] == CountsOf(front)[k])
  {
    var front := cards[..|cards| - 1];
    var c := cards[|cards| - 1];
    assert cards == front + [c];
    assert multiset(cards) == multiset(front) + multiset{c};
  }

  /** At the root of the search the leaf score is the sum of the numbers of the hand: a number
      when every card decodes to one, NaN as soon as the hand holds a joker or an undecodable
      card. */
  lemma CountedLeafScore(cards: seq<string>, idx: CardIndex)
    requires ValidIndex(idx) && idx.keys == FirstOccurrences(cards)
    requires forall k | k in idx.counts :: idx.counts[k] == multiset(cards)[k]
    ensures LeafScore(Number, idx.keys, idx.counts) == NumberSum(Number, cards)
    ensures LeafScore(Number, idx.keys, idx.counts).Some? <==> forall c | c in cards :: Number(c).Some?
  {
    LeafScoreFrame(Number, idx.keys, idx.counts, CountsOf(cards));
    CountsOfLeafScore(Number, cards);
    NumberSumDefined(Number, cards);
  }

  // ---------------------------------------------------------------------------------------
  // getSequences: the run and the set around one card

  /** The text of a suit in a template literal: the suit, or "undefined" when the card had no
      dash. */
  function SuiteText(suite: Option<string>): string
  {
    if suite.Some? then suite.value else "undefined"
  }

  /** The text of a number in a template literal: its decimal form, or "NaN". */
  function NumberText(number: Option<int>): string
  {
    if number.Some? then IntToDecimal(number.value) else "NaN"
  }

  /** `${i}-${cardDec.suite}`: the code of the card with number i of the card's suit. */
  function Sibling(i: int, suite: Option<string>): string
  {
    IntToDecimal(i) + "-" + SuiteText(suite)
  }

  /** `cardIdx[key] && cardIdx[key] > 0`: the key is present with a positive value. */
  predicate Positive(idx: CardIndex, key: string)
  {
    key in idx.counts && idx.counts[key] > 0
  }

  /** `i => ${i}-${suite}`: the codes of the cards of one suit. */
  function SiblingOf(suite: Option<string>): int -> string
  {
    i => Sibling(i, suite)
  }

  /** The run below number i, with `text` giving the code of each number: while number i is
      at least 3 and its card is positive in the index, that card and then the run below
      i - 1, in ascending order. */
  function RunBelow(idx: CardIndex, text: int -> string, i: int): seq<string>
    decreases if i < 3 then 0 else i
  {
    if i < 3 || !Positive(idx, text(i)) then [] else RunBelow(idx, text, i - 1) + [text(i)]
  }

  /** The run below i is the longest stretch of numbers ending at i, none below 3, whose
      cards are all positive in the index. */
  lemma {:induction false} RunBelowShape(idx: CardIndex, text: int -> string, i: int)
    ensures var r := RunBelow(idx, text, i);
            && (|r| == 0 || 3 <= i - |r| + 1)
            && (forall k | 0 <= k < |r| :: r[k] == text(i - |r| + 1 + k) && Positive(idx, r[k]))
            && (i - |r| < 3 || !Positive(idx, text(i - |r|)))
    decreases if i < 3 then 0 else i
  {
    if !(i < 3 || !Positive(idx, text(i))) {
      RunBelowShape(idx, text, i - 1);
      var front := RunBelow(idx, text, i - 1);
      var r := front + [text(i)];
      assert i - |r| == i - 1 - |front|;
      forall k | 0 <= k < |r| ensures r[k] == text(i - |r| + 1 + k) && Positive(idx, r[k]) {
        if k < |front| {
          assert r[k] == front[k];
        }
      }
    }
  }

  /** The run above number i: while number i is at most 13 and its card is positive in the
      index, that card and then the run above i + 1. */
  function RunAbove(idx: CardIndex, text: int -> string, i: int): seq<string>
    decreases 14 - i
  {
    if i > 13 || !Positive(idx, text(i)) then [] else [text(i)] + RunAbove(idx, text, i + 1)
  }

  /** The run above i is the longest stretch of numbers starting at i, none above 13, whose
      cards are all positive in the index. */
  lemma {:induction false} RunAboveShape(idx: CardIndex, text: int -> string, i: int)
    ensures var r := RunAbove(idx, text, i);
            && (|r| == 0 || i + |r| - 1 <= 13)
            && (forall k | 0 <= k < |r| :: r[k] == text(i + k) && Positive(idx, r[k]))
            && (i + |r| > 13 || !Positive(idx, text(i + |r|)))
    decreases 14 - i
  {
    if !(i > 13 || !Positive(idx, text(i))) {
      RunAboveShape(idx, text, i + 1);
      var back := RunAbove(idx, text, i + 1);
      var r := [text(i)] + back;
      assert i + |r| == i + 1 + |back|;
      forall k | 0 <= k < |r| ensures r[k] == text(i + k) && Positive(idx, r[k]) {
        if k > 0 {
          assert r[k] == back[k - 1];
          assert i + 1 + (k - 1) == i + k;
        }
      }
    }
  }

  /** The run through the card of number n: the run below n, the card, the run above n. */
  function RunThrough(idx: CardIndex, text: int -> string, n: int, card: string): seq<string>
  {
    RunBelow(idx, text, n - 1) + [card] + RunAbove(idx, text, n + 1)
  }

  /** The largest same-suit run through a card; the card alone when its number is NaN. */
  function RunAround(idx: CardIndex, card: string): seq<string>
  {
    var cardDec := ArenaEngine.JsDecodeCard(card);
    if cardDec.number.None? then [card]
    else RunThrough(idx, SiblingOf(cardDec.suite), cardDec.number.value, card)
  }

  /** The loop walking left from the card: each present sibling goes to the front. */
  method WalkLeft(idx: CardIndex, text: int -> string, n: int, card: string) returns (sequence: seq<string>)
    ensures sequence == RunBelow(idx, text, n - 1) + [card]
  {
    sequence := [card];
    var i := n - 1;
    while i >= 3
      invariant i <= n - 1
      invariant RunBelow(idx, text, n - 1) + [card] == RunBelow(idx, text, i) + sequence
      decreases i
    {
      var siblingCard := text(i);
      if Positive(idx, siblingCard) {
        sequence := [siblingCard] + sequence;
      } else {
        break;
      }
      i := i - 1;
    }
  }

  /** The loop walking right from the card: each present sibling goes to the back. */
  method WalkRight(idx: CardIndex, text: int -> string, n: int, start: seq<string>) returns (sequence: seq<string>)
    ensures sequence == start + RunAbove(idx, text, n + 1)
  {
    sequence := start;
    var i := n + 1;
    while i <= 13
      invariant start + RunAbove(idx, text, n + 1) == sequence + RunAbove(idx, text, i)
      decreases 14 - i
    {
      var siblingCard := text(i);
      if Positive(idx, siblingCard) {
        sequence := sequence + [siblingCard];
      } else {
        break;
      }
      i := i + 1;
    }
  }

  /** The run part of getSequences for one card. A NaN number makes both loops stop at once. */
  method RunOf(idx: CardIndex, card: string) returns (sequence: seq<string>)
    ensures sequence == RunAround(idx, card)
  {
    var cardDec := ArenaEngine.JsDecodeCard(card);
    if cardDec.number.None? {
      sequence := [card];
    } else {
      sequence := WalkLeft(idx, SiblingOf(cardDec.suite), cardDec.number.value, card);
      sequence := WalkRight(idx, SiblingOf(cardDec.suite), cardDec.number.value, sequence);
    }
  }

  /** The run through a card of number n holds the card and, on both sides, exactly the
      consecutive siblings present in the index, within the numbers 3 to 13. */
  lemma RunThroughShape(idx: CardIndex, text: int -> string, n: int, card: string)
    ensures var below := RunBelow(idx, text, n - 1);
            var r := RunThrough(idx, text, n, card);
            var lo := |below|;
            && lo < |r| && r[lo] == card
            && (forall k | 0 <= k < |r| && k != lo :: r[k] == text(n - lo + k) && Positive(idx, r[k]))
            && (lo > 0 ==> n - lo >= 3)
            && (|r| - 1 > lo ==> n - lo + |r| - 1 <= 13)
            && (n - 1 - lo < 3 || !Positive(idx, text(n - 1 - lo)))
            && (n + |r| - lo > 13 || !Positive(idx, text(n + |r| - lo)))
  {
    var below := RunBelow(idx, text, n - 1);
    var above := RunAbove(idx, text, n + 1);
    RunBelowShape(idx, text, n - 1);
    RunAboveShape(idx, text, n + 1);
    RunThroughElements(idx, text, n, card);
    var r := below + [card] + above;
    assert r[|below|] == card;
  }

  /** The elements of the run through a card other than the card itself. */
  lemma RunThroughElements(idx: CardIndex, text: int -> string, n: int, card: string)
    ensures var lo := |RunBelow(idx, text, n - 1)|;
            var r := RunThrough(idx, text, n, card);
            forall k | 0 <= k < |r| && k != lo :: r[k] == text(n - lo + k) && Positive(idx, r[k])
  {
    var below := RunBelow(idx, text, n - 1);
    var above := RunAbove(idx, text, n + 1);
    RunBelowShape(idx, text, n - 1);
    RunAboveShape(idx, text, n + 1);
    var r := below + [card] + above;
    forall k | 0 <= k < |r| && k != |below|
      ensures r[k] == text(n - |below| + k) && Positive(idx, r[k])
    {
      if k < |below| {
        assert r[k] == below[k];
        assert n - 1 - |below| + 1 + k == n - |below| + k;
      } else {
        assert r[k] == above[k - |below| - 1];
        assert n + 1 + (k - |below| - 1) == n - |below| + k;
      }
    }
  }

  /** `${cardDec.number}-${suite}`: the code of the card with the same number in another
      suit. */
  function SetSibling(number: Option<int>, suite: char): string
  {
    NumberText(number) + "-" + [suite]
  }

  /** The codes of the cards with the given number, one per suit of the deck, in suit
      order. */
  function SetSiblings(number: Option<int>): (r: seq<string>)
    ensures |r| == |ArenaEngine.DeckSuites|
    ensures forall s | 0 <= s < |r| :: r[s] == SetSibling(number, ArenaEngine.DeckSuites[s])
  {
    seq(|ArenaEngine.DeckSuites|, s requires 0 <= s < |ArenaEngine.DeckSuites| => SetSibling(number, ArenaEngine.DeckSuites[s]))
  }

  /** The five siblings of a number are five different codes: each ends in its own suit. */
  lemma SetSiblingsDistinct(number: Option<int>)
    ensures Distinct(SetSiblings(number))
  {
    var r := SetSiblings(number);
    forall i, j | 0 <= i < j < |r| ensures r[i] != r[j] {
      assert r[i][|r[i]| - 1] == ArenaEngine.DeckSuites[i];
      assert r[j][|r[j]| - 1] == ArenaEngine.DeckSuites[j];
    }
  }

  /** Every copy the index holds of each code in `siblings`, code after code; a code whose
      value is missing or not positive adds nothing. */
  function CopiesOf(idx: CardIndex, siblings: seq<string>): seq<string>
  {
    if siblings == [] then []
    else
      var siblingCard := siblings[|siblings| - 1];
      CopiesOf(idx, siblings[..|siblings| - 1]) + Repeat(siblingCard, Lookup(idx, siblingCard))
  }

  /** The set loop of getSequences: all copies of the card's number in every suit. */
  function SetAround(idx: CardIndex, number: Option<int>): seq<string>
  {
    CopiesOf(idx, SetSiblings(number))
  }

  /** The set part of getSequences for one card. */
  method SetOf(idx: CardIndex, number: Option<int>) returns (cardSet: seq<string>)
    ensures cardSet == SetAround(idx, number)
  {
    var siblings := SetSiblings(number);
    cardSet := [];
    for k := 0 to |siblings|
      invariant cardSet == CopiesOf(idx, siblings[..k])
    {
      var siblingCard := siblings[k];
      var count := Lookup(idx, siblingCard);
      assert siblings[..k + 1][..k] == siblings[..k];
      cardSet := PushCopies(cardSet, siblingCard, count);
    }
    assert siblings[..|siblings|] == siblings;
  }

  /** Copying distinct codes holds each of them as often as the index counts it (none for a
      value that is not positive), and nothing else. */
  lemma {:induction false} CopiesOfCount(idx: CardIndex, siblings: seq<string>, x: string)
    requires Distinct(siblings)
    ensures multiset(CopiesOf(idx, siblings))[x] ==
              if x in siblings && Lookup(idx, x) > 0 then Lookup(idx, x) else 0
  {
    if siblings != [] {
      var front := siblings[..|siblings| - 1];
      var last := siblings[|siblings| - 1];
      assert siblings == front + [last];
      assert Distinct(front);
      CopiesOfCount(idx, front, x);
      assert x in siblings <==> x in front || x == last;
      if x == last {
        assert x !in front;
      }
    }
  }

  /** The set around a number holds each suit's sibling of that number as often as the index
      counts it, and nothing else. */
  lemma SetAroundCount(idx: CardIndex, number: Option<int>, x: string)
    ensures multiset(SetAround(idx, number))[x] ==
              if (exists s | 0 <= s < |ArenaEngine.DeckSuites| :: x == SetSibling(number, ArenaEngine.DeckSuites[s])) && Lookup(idx, x) > 0
              then Lookup(idx, x) else 0
  {
    SetSiblingsDistinct(number);
    CopiesOfCount(idx, SetSiblings(number), x);
    var r := SetSiblings(number);
    if x in r {
      var s :| 0 <= s < |r| && r[s] == x;
      assert x == SetSibling(number, ArenaEngine.DeckSuites[s]);
    }
  }

  // ---------------------------------------------------------------------------------------
  // Objects and sets used as ordered sets of keys

  /** `obj[key] = 1`, or adding to a JavaScript Set: a new key goes last, a present key keeps
      its place. */
  function AddKey(keys: seq<string>, key: string): seq<string>
  {
    if key in keys then keys else keys + [key]
  }

  /** Adding several keys one after the other; with a Set as `more`, Set.prototype.union. */
  function AddKeys(keys: seq<string>, more: seq<string>): seq<string>
    decreases |more|
  {
    if more == [] then keys else AddKeys(AddKey(keys, more[0]), more[1..])
  }

  /** Adding keys keeps the keys already there in their places and in front, adds exactly the
      new ones, and lists no key twice. */
  lemma {:induction false} AddKeysMembers(keys: seq<string>, more: seq<string>)
    ensures forall x :: x in AddKeys(keys, more) <==> x in keys || x in more
    ensures |keys| <= |AddKeys(keys, more)| && AddKeys(keys, more)[..|keys|] == keys
    ensures Distinct(keys) ==> Distinct(AddKeys(keys, more))
    decreases |more|
  {
    if more != [] {
      var next := AddKey(keys, more[0]);
      AddKeysMembers(next, more[1..]);
      assert next[..|keys|] == keys;
      assert AddKeys(keys, more)[..|keys|] == AddKeys(next, more[1..])[..|next|][..|keys|];
      assert forall x :: x in more <==> x == more[0] || x in more[1..];
    }
  }

  // ---------------------------------------------------------------------------------------
  // permuteSequence on a run: the contiguous windows

  /** cards.slice(o, o + l). */
  function Window(cards: seq<string>, o: nat, l: nat): seq<string>
    requires o + l <= |cards|
  {
    cards[o..o + l]
  }

  /** The windows of length l starting at offset o and after, by offset. */
  function Slides(cards: seq<string>, l: nat, o: nat): seq<seq<string>>
    decreases |cards| - o
  {
    if o + l > |cards| then [] else [Window(cards, o, l)] + Slides(cards, l, o + 1)
  }

  /** The windows of length l and longer, by length and then by offset. */
  function WindowsFrom(cards: seq<string>, l: nat): seq<seq<string>>
    decreases |cards| + 1 - l
  {
    if l > |cards| then [] else Slides(cards, l, 0) + WindowsFrom(cards, l + 1)
  }

  /** The nested loops of permuteSequence for a run: every window of at least three cards,
      the shorter ones first, each length by offset. */
  method Windows(cards: seq<string>) returns (permutations: seq<seq<string>>)
    ensures permutations == WindowsFrom(cards, 3)
  {
    permutations := [];
    var l := 3;
    while l <= |cards|
      invariant 3 <= l
      invariant WindowsFrom(cards, 3) == permutations + WindowsFrom(cards, l)
      decreases |cards| + 1 - l
    {
      var slides := SlidesOf(cards, l);
      assert WindowsFrom(cards, l) == slides + WindowsFrom(cards, l + 1);
      permutations := permutations + slides;
      l := l + 1;
    }
    assert WindowsFrom(cards, l) == [];
  }

  /** The inner loop of permuteSequence: the windows of one length l, by offset. */
  method SlidesOf(cards: seq<string>, l: nat) returns (slides: seq<seq<string>>)
    requires l <= |cards|
    ensures slides == Slides(cards, l, 0)
  {
    slides := [];
    var o := 0;
    while o <= |cards| - l
      invariant 0 <= o <= |cards| - l + 1
      invariant Slides(cards, l, 0) == slides + Slides(cards, l, o)
    {
      assert Slides(cards, l, o) == [cards[o..o + l]] + Slides(cards, l, o + 1);
      slides := slides + [cards[o..o + l]];
      o := o + 1;
    }
    assert Slides(cards, l, o) == [];
  }

  /** The windows of length l from offset o on are exactly the slices of that length which
      start at o or later. */
  lemma {:induction false} SlidesMembers(cards: seq<string>, l: nat, o: nat, w: seq<string>)
    ensures w in Slides(cards, l, o) <==> exists p: nat | o <= p && p + l <= |cards| :: w == Window(cards, p, l)
    ensures o + l <= |cards| + 1 ==> |Slides(cards, l, o)| == |cards| + 1 - l - o
    decreases |cards| - o
  {
    if o + l <= |cards| {
      SlidesMembers(cards, l, o + 1, w);
      if w == Window(cards, o, l) {
        assert o <= o && o + l <= |cards|;
      }
      if exists p: nat | o <= p && p + l <= |cards| :: w == Window(cards, p, l) {
        var p: nat :| o <= p && p + l <= |cards| && w == Window(cards, p, l);
        if p > o {
          assert o + 1 <= p;
        }
      }
    }
  }

  /** The windows of length l and longer are exactly the slices of at least l cards. */
  lemma {:induction false} WindowsMembers(cards: seq<string>, l: nat, w: seq<string>)
    ensures w in WindowsFrom(cards, l) <==>
              exists p: nat, m: nat | l <= m && p + m <= |cards| :: w == Window(cards, p, m)
    decreases |cards| + 1 - l
  {
    if l <= |cards| {
      var here, rest := Slides(cards, l, 0), WindowsFrom(cards, l + 1);
      assert WindowsFrom(cards, l) == here + rest;
      assert w in WindowsFrom(cards, l) <==> w in here || w in rest;
      WindowsMembers(cards, l + 1, w);
      SlidesMembers(cards, l, 0, w);
      if exists p: nat, m: nat | l <= m && p + m <= |cards| :: w == Window(cards, p, m) {
        var p: nat, m: nat :| l <= m && p + m <= |cards| && w == Window(cards, p, m);
        if m == l {
          assert 0 <= p && p + l <= |cards| && w == Window(cards, p, l);
        } else {
          assert l + 1 <= m;
        }
      }
      if w in Slides(cards, l, 0) {
        var p: nat :| 0 <= p && p + l <= |cards| && w == Window(cards, p, l);
        assert l <= l && p + l <= |cards|;
      }
    }
  }

  /** There are n - l + 1 windows of each length l, so twice their number is
      (n - l + 1) * (n - l + 2) for all lengths from l to n. */
  lemma {:induction false} WindowsCount(cards: seq<string>, l: nat)
    requires l <= |cards| + 1
    ensures 2 * |WindowsFrom(cards, l)| == (|cards| + 1 - l) * (|cards| + 2 - l)
    decreases |cards| + 1 - l
  {
    if l <= |cards| {
      WindowsCount(cards, l + 1);
      SlidesMembers(cards, l, 0, []);
      var k := |cards| + 1 - l;
      var here, rest := Slides(cards, l, 0), WindowsFrom(cards, l + 1);
      assert WindowsFrom(cards, l) == here + rest;
      assert |here| == k && 2 * |rest| == (k - 1) * k;
      TriangleStep(k, |rest|);
    }
  }

  /** One more row of k windows takes the triangle number from row k - 1 to row k. */
  lemma TriangleStep(k: int, rest: int)
    requires 2 * rest == (k - 1) * k
    ensures 2 * (k + rest) == k * (k + 1)
  {
    assert (k - 1) * k + 2 * k == k * (k + 1);
  }

  // ---------------------------------------------------------------------------------------
  // permuteSet: every smaller set, by deleting one card at a time

  /** The Set permuteSet builds, in insertion order: the joined cards, then, for more than
      three cards, the union over every index of the permutations of the cards without it. */
  function Perms(cards: seq<string>): seq<string>
    decreases |cards|, 1, 0
  {
    if |cards| > 3 then PermsFrom(cards, 0, [Join(cards, ':')]) else [Join(cards, ':')]
  }

  /** The loop of permuteSet from index i on, with acc the Set so far. */
  function PermsFrom(cards: seq<string>, i: nat, acc: seq<string>): seq<string>
    decreases |cards|, 0, |cards| - i
  {
    if i >= |cards| then acc else PermsFrom(cards, i + 1, AddKeys(acc, Perms(Delete(cards, i))))
  }

  /** permuteSet: recursive, with a loop taking the union with the permutations of the cards
      without each index in turn. */
  method PermuteSet(cards: seq<string>) returns (permutations: seq<string>)
    ensures permutations == Perms(cards)
    decreases |cards|
  {
    permutations := [Join(cards, ':')];
    if |cards| > 3 {
      var i := 0;
      while i < |cards|
        invariant 0 <= i <= |cards|
        invariant Perms(cards) == PermsFrom(cards, i, permutations)
      {
        var smaller := PermuteSet(Delete(cards, i));
        permutations := AddKeys(permutations, smaller);
        i := i + 1;
      }
    }
  }

  /** The loop from index i adds exactly the permutations of the cards without an index from
      i on, and lists nothing twice. */
  lemma {:induction false} PermsFromMembers(cards: seq<string>, i: nat, acc: seq<string>, x: string)
    ensures x in PermsFrom(cards, i, acc) <==> x in acc || exists j | i <= j < |cards| :: x in Perms(Delete(cards, j))
    ensures Distinct(acc) ==> Distinct(PermsFrom(cards, i, acc))
    decreases |cards| - i
  {
    if i < |cards| {
      var here := Perms(Delete(cards, i));
      var next := AddKeys(acc, here);
      assert PermsFrom(cards, i, acc) == PermsFrom(cards, i + 1, next);
      AddKeysMembers(acc, here);
      PermsFromMembers(cards, i + 1, next, x);
      if exists j | i <= j < |cards| :: x in Perms(Delete(cards, j)) {
        var j :| i <= j < |cards| && x in Perms(Delete(cards, j));
        if j > i {
          assert i + 1 <= j;
        }
      }
    }
  }

  /** permuteSet lists no permutation twice. */
  lemma PermsDistinct(cards: seq<string>)
    ensures Distinct(Perms(cards))
  {
    if |cards| > 3 {
      PermsFromMembers(cards, 0, [Join(cards, ':')], "");
    }
  }

  /** Every permutation is a joined order-preserving sub-list of at least three of the
      cards. */
  lemma {:induction false} PermsSound(cards: seq<string>, x: string) returns (sub: seq<string>)
    requires |cards| >= 3 && x in Perms(cards)
    ensures IsSub(sub, cards) && |sub| >= 3 && x == Join(sub, ':')
    decreases |cards|
  {
    if x == Join(cards, ':') {
      SubRefl(cards);
      sub := cards;
    } else {
      assert |cards| > 3;
      PermsFromMembers(cards, 0, [Join(cards, ':')], x);
      var j :| 0 <= j < |cards| && x in Perms(Delete(cards, j));
      sub := PermsSound(Delete(cards, j), x);
      DeleteSub(cards, j);
      SubTrans(sub, Delete(cards, j), cards);
    }
  }

  /** Every order-preserving sub-list of at least three of the cards, joined, is a
      permutation. */
  lemma {:induction false} PermsComplete(cards: seq<string>, sub: seq<string>)
    requires IsSub(sub, cards) && |sub| >= 3
    ensures Join(sub, ':') in Perms(cards)
    decreases |cards|
  {
    SubLength(sub, cards);
    if |sub| == |cards| {
      SubFull(sub, cards);
      if |cards| > 3 {
        PermsFromMembers(cards, 0, [Join(cards, ':')], Join(sub, ':'));
      }
    } else {
      var j := SubOfDelete(sub, cards);
      PermsComplete(Delete(cards, j), sub);
      PermsFromMembers(cards, 0, [Join(cards, ':')], Join(sub, ':'));
    }
  }

  /** From three cards on, permuteSet gives exactly the joined order-preserving sub-lists of
      at least three cards, the cards themselves among them. */
  lemma PermsMembers(cards: seq<string>, x: string)
    requires |cards| >= 3
    ensures x in Perms(cards) <==> exists sub | IsSub(sub, cards) && |sub| >= 3 :: x == Join(sub, ':')
  {
    if x in Perms(cards) {
      var sub := PermsSound(cards, x);
    }
    if exists sub | IsSub(sub, cards) && |sub| >= 3 :: x == Join(sub, ':') {
      var sub :| IsSub(sub, cards) && |sub| >= 3 && x == Join(sub, ':');
      PermsComplete(cards, sub);
    }
  }

  // ---------------------------------------------------------------------------------------
  // isSet and permuteSequence

  /** isSet: the decoded numbers of the first two cards are strictly equal. A joker has no
      number (undefined), which equals only another joker's; NaN equals nothing. */
  predicate IsSet(cards: seq<string>)
    requires |cards| >= 2
  {
    var first := ArenaEngine.JsDecodeCard(cards[0]);
    var second := ArenaEngine.JsDecodeCard(cards[1]);
    if first.joker || second.joker then first.joker && second.joker
    else first.number.Some? && first.number == second.number
  }

  /** On the codes of two engine cards, isSet holds when both are jokers or both have the
      same number. */
  lemma IsSetEncoded(a: Game.Card, b: Game.Card, rest: seq<string>)
    requires Game.ValidCard(a) && Game.ValidCard(b)
    ensures IsSet([BotsEncoding.EncodeCard(a), BotsEncoding.EncodeCard(b)] + rest) <==>
              (a.joker && b.joker) || (!a.joker && !b.joker && a.number == b.number)
  {
    ArenaEngine.JsDecodeEncoded(a);
    ArenaEngine.JsDecodeEncoded(b);
  }

  /** What permuteSequence returns: the sequence itself, a string from permuteSet, or a
      window of a run, which is an array of cards. */
  datatype Permutation = Text(text: string) | Cards(cards: seq<string>)

  /** A permutation used as an object key: an array turns into its elements joined by
      commas, not colons. */
  function KeyOf(p: Permutation): string
  {
    match p
    case Text(text) => text
    case Cards(cards) => Join(cards, ',')
  }

  /** The keys of several permutations, in order. */
  function KeysOf(ps: seq<Permutation>): (keys: seq<string>)
    ensures |keys| == |ps|
    ensures forall i | 0 <= i < |ps| :: keys[i] == KeyOf(ps[i])
  {
    seq(|ps|, i requires 0 <= i < |ps| => KeyOf(ps[i]))
  }

  /** Strings as permutations. */
  function Texts(texts: seq<string>): (ps: seq<Permutation>)
    ensures |ps| == |texts|
    ensures forall i | 0 <= i < |ps| :: ps[i] == Text(texts[i])
  {
    seq(|texts|, i requires 0 <= i < |texts| => Text(texts[i]))
  }

  /** Card arrays as permutations. */
  function CardArrays(windows: seq<seq<string>>): (ps: seq<Permutation>)
    ensures |ps| == |windows|
    ensures forall i | 0 <= i < |ps| :: ps[i] == Cards(windows[i])
  {
    seq(|windows|, i requires 0 <= i < |windows| => Cards(windows[i]))
  }

  /** permuteSequence on a key holding a colon: three cards give the key alone; a set gives
      the permutations of permuteSet; a run gives its windows of three cards and more. */
  function PermuteSeq(sequence: string): seq<Permutation>
    requires ':' in sequence
  {
    var cards := Split(sequence, ':');
    SplitSeveral(sequence, ':');
    if |cards| == 3 then [Text(sequence)]
    else if IsSet(cards) then Texts(Perms(cards))
    else CardArrays(WindowsFrom(cards, 3))
  }

  /** permuteSequence. A key without a colon would make isSet read a missing second card and
      throw, so every key holds one. */
  method PermuteSequence(sequence: string) returns (permutations: seq<Permutation>)
    requires ':' in sequence
    ensures permutations == PermuteSeq(sequence)
  {
    var cards := Split(sequence, ':');
    SplitSeveral(sequence, ':');
    if |cards| == 3 {
      return [Text(sequence)];
    }
    if IsSet(cards) {
      var texts := PermuteSet(cards);
      permutations := Texts(texts);
    } else {
      var windows := Windows(cards);
      permutations := CardArrays(windows);
    }
  }

  /** A three-card key comes back alone and unchanged. */
  lemma PermuteThree(sequence: string)
    requires |Split(sequence, ':')| == 3
    ensures ':' in sequence && PermuteSeq(sequence) == [Text(sequence)]
  {
    SplitSeveral(sequence, ':');
  }

  /** The keys a set of four cards or more adds are exactly its joined order-preserving
      sub-lists of three cards or more, the key itself among them. */
  lemma PermuteSetKeys(sequence: string, x: string)
    requires ':' in sequence
    requires |Split(sequence, ':')| > 3 && IsSet(Split(sequence, ':'))
    ensures x in KeysOf(PermuteSeq(sequence)) <==>
              exists sub | IsSub(sub, Split(sequence, ':')) && |sub| >= 3 :: x == Join(sub, ':')
    ensures sequence in KeysOf(PermuteSeq(sequence))
  {
    var cards := Split(sequence, ':');
    var keys := KeysOf(PermuteSeq(sequence));
    assert forall i | 0 <= i < |keys| :: keys[i] == Perms(cards)[i];
    assert keys == Perms(cards);
    PermsMembers(cards, x);
    JoinSplit(sequence, ':');
    SubRefl(cards);
    PermsComplete(cards, cards);
  }

  /** A run of four cards or more adds, as comma-joined keys, exactly its windows of three
      cards and more: (n - 2)(n - 1)/2 of them for n cards. */
  lemma PermuteRunKeys(sequence: string, w: seq<string>)
    requires ':' in sequence
    requires |Split(sequence, ':')| > 3 && !IsSet(Split(sequence, ':'))
    ensures var cards := Split(sequence, ':');
            && PermuteSeq(sequence) == CardArrays(WindowsFrom(cards, 3))
            && (Cards(w) in PermuteSeq(sequence) <==>
                  exists p: nat, m: nat | 3 <= m && p + m <= |cards| :: w == Window(cards, p, m))
            && 2 * |PermuteSeq(sequence)| == (|cards| - 2) * (|cards| - 1)
  {
    var cards := Split(sequence, ':');
    WindowsMembers(cards, 3, w);
    WindowsCount(cards, 3);
    var ps := PermuteSeq(sequence);
    if Cards(w) in ps {
      var i :| 0 <= i < |ps| && ps[i] == Cards(w);
      assert WindowsFrom(cards, 3)[i] == w;
    }
    if w in WindowsFrom(cards, 3) {
      var i :| 0 <= i < |WindowsFrom(cards, 3)| && WindowsFrom(cards, 3)[i] == w;
      assert ps[i] == Cards(w);
    }
  }

  // ---------------------------------------------------------------------------------------
  // getSequences

  /** `cardIdx[card] === 0`: the key is there with the value 0. */
  predicate Zero(idx: CardIndex, key: string)
  {
    key in idx.counts && idx.counts[key] == 0
  }

  /** The keys getSequences records for one card: its run when at least three cards long,
      then its set, sorted, when at least three cards strong. `sortCards` is not part of this
      model and is a parameter. */
  function Produced(idx: CardIndex, sortCards: seq<string> -> seq<string>, card: string): seq<string>
  {
    Melds(RunAround(idx, card), SetAround(idx, ArenaEngine.JsDecodeCard(card).number), sortCards)
  }

  /** The keys recorded for a run and a set: each joined by colons, the set sorted first,
      when at least three cards long. */
  function Melds(run: seq<string>, cardSet: seq<string>, sortCards: seq<string> -> seq<string>): seq<string>
  {
    (if |run| >= 3 then [Join(run, ':')] else []) + (if |cardSet| >= 3 then [Join(sortCards(cardSet), ':')] else [])
  }

  /** The first loop of getSequences over `keys` with `found` recorded so far: it stops at the
      first key whose value is 0, skips the joker and records what `produce` gives for every
      other key. */
  function Scan(idx: CardIndex, produce: string -> seq<string>, keys: seq<string>, found: seq<string>): seq<string>
    decreases |keys|
  {
    if keys == [] || Zero(idx, keys[0]) then found
    else if keys[0] == "*" then Scan(idx, produce, keys[1..], found)
    else Scan(idx, produce, keys[1..], AddKeys(found, produce(keys[0])))
  }

  /** How many keys the scan visits: those before the first key whose value is 0. */
  function LiveCount(idx: CardIndex, keys: seq<string>): (n: nat)
    ensures n <= |keys|
  {
    if keys == [] || Zero(idx, keys[0]) then 0 else 1 + LiveCount(idx, keys[1..])
  }

  /** The scan visits the keys up to the first one whose value is 0 and no further. */
  lemma {:induction false} LiveCountShape(idx: CardIndex, keys: seq<string>)
    ensures forall j | 0 <= j < LiveCount(idx, keys) :: !Zero(idx, keys[j])
    ensures LiveCount(idx, keys) < |keys| ==> Zero(idx, keys[LiveCount(idx, keys)])
  {
    if keys != [] && !Zero(idx, keys[0]) {
      LiveCountShape(idx, keys[1..]);
      forall j | 0 <= j < LiveCount(idx, keys) ensures !Zero(idx, keys[j]) {
        if j > 0 {
          assert keys[j] == keys[1..][j - 1];
        }
      }
    }
  }

  /** The scan records exactly what the visited keys other than the joker produce, keeps what
      was found before in front, and lists nothing twice. */
  lemma {:induction false} ScanMembers(idx: CardIndex, produce: string -> seq<string>, keys: seq<string>, found: seq<string>, x: string)
    ensures x in Scan(idx, produce, keys, found) <==>
              x in found || exists j | 0 <= j < LiveCount(idx, keys) :: keys[j] != "*" && x in produce(keys[j])
    ensures |found| <= |Scan(idx, produce, keys, found)| && Scan(idx, produce, keys, found)[..|found|] == found
    ensures Distinct(found) ==> Distinct(Scan(idx, produce, keys, found))
    decreases |keys|
  {
    if keys != [] && !Zero(idx, keys[0]) {
      var next := if keys[0] == "*" then found else AddKeys(found, produce(keys[0]));
      AddKeysMembers(found, produce(keys[0]));
      ScanMembers(idx, produce, keys[1..], next, x);
      assert Scan(idx, produce, keys, found) == Scan(idx, produce, keys[1..], next);
      assert Scan(idx, produce, keys, found)[..|found|] == Scan(idx, produce, keys[1..], next)[..|next|][..|found|];
      if exists j | 0 <= j < LiveCount(idx, keys) :: keys[j] != "*" && x in produce(keys[j]) {
        var j :| 0 <= j < LiveCount(idx, keys) && keys[j] != "*" && x in produce(keys[j]);
        if j > 0 {
          assert keys[1..][j - 1] == keys[j];
        }
      }
      if exists j | 0 <= j < LiveCount(idx, keys[1..]) :: keys[1..][j] != "*" && x in produce(keys[1..][j]) {
        var j :| 0 <= j < LiveCount(idx, keys[1..]) && keys[1..][j] != "*" && x in produce(keys[1..][j]);
        assert keys[j + 1] == keys[1..][j];
      }
    }
  }

  /** The producer of the first loop, for one index and one card sorter. */
  function Producer(idx: CardIndex, sortCards: seq<string> -> seq<string>): string -> seq<string>
  {
    card => Produced(idx, sortCards, card)
  }

  /** The keys the first loop of getSequences records. */
  function Found(idx: CardIndex, sortCards: seq<string> -> seq<string>): seq<string>
  {
    Scan(idx, Producer(idx, sortCards), idx.keys, [])
  }

  /** The body of the first loop for one card: record its run, then its sorted set, each
      when at least three cards long. */
  method RecordCard(idx: CardIndex, sortCards: seq<string> -> seq<string>, card: string, sequences: seq<string>)
    returns (more: seq<string>)
    ensures more == AddKeys(sequences, Produced(idx, sortCards, card))
  {
    var sequence := RunOf(idx, card);
    var cardSet := SetOf(idx, ArenaEngine.JsDecodeCard(card).number);
    more := RecordMelds(sequence, cardSet, sortCards, sequences);
  }

  /** Recording a run and a set as object keys. */
  method RecordMelds(sequence: seq<string>, cardSet: seq<string>, sortCards: seq<string> -> seq<string>, sequences: seq<string>)
    returns (more: seq<string>)
    ensures more == AddKeys(sequences, Melds(sequence, cardSet, sortCards))
  {
    var melds := Melds(sequence, cardSet, sortCards);
    more := sequences;
    if |sequence| >= 3 {
      more := AddKey(more, Join(sequence, ':'));
      assert AddKeys(sequences, melds) == AddKeys(more, melds[1..]);
      melds := melds[1..];
    }
    if |cardSet| >= 3 {
      more := AddKey(more, Join(sortCards(cardSet), ':'));
      assert melds[1..] == [];
    }
  }

  /** The first loop of getSequences: the run and the set around every card up to the first
      key whose value is 0, the joker skipped. */
  method ScanIndex(idx: CardIndex, sortCards: seq<string> -> seq<string>) returns (sequences: seq<string>)
    ensures sequences == Found(idx, sortCards)
  {
    var produce := Producer(idx, sortCards);
    sequences := [];
    var i := 0;
    while i < |idx.keys|
      invariant 0 <= i <= |idx.keys|
      invariant Found(idx, sortCards) == Scan(idx, produce, idx.keys[i..], sequences)
    {
      var card := idx.keys[i];
      assert idx.keys[i..][0] == card && idx.keys[i..][1..] == idx.keys[i + 1..];
      if card in idx.counts && idx.counts[card] == 0 {
        return;
      }
      if card != "*" {
        sequences := RecordCard(idx, sortCards, card, sequences);
      }
      i := i + 1;
    }
  }

  /** Every key the first loop records holds a colon, provided the card sorter keeps the
      number of cards. */
  lemma FoundColon(idx: CardIndex, sortCards: seq<string> -> seq<string>)
    requires forall cards :: |sortCards(cards)| == |cards|
    ensures forall k | k in Found(idx, sortCards) :: ':' in k
  {
    var produce := Producer(idx, sortCards);
    forall k | k in Found(idx, sortCards) ensures ':' in k {
      ScanMembers(idx, produce, idx.keys, [], k);
      var j :| 0 <= j < LiveCount(idx, idx.keys) && idx.keys[j] != "*" && k in produce(idx.keys[j]);
      var card := idx.keys[j];
      var run := RunAround(idx, card);
      var cardSet := SetAround(idx, ArenaEngine.JsDecodeCard(card).number);
      if |run| >= 3 {
        JoinHasSeparator(run, ':');
      }
      if |cardSet| >= 3 {
        JoinHasSeparator(sortCards(cardSet), ':');
      }
    }
  }

  /** The keys of the permutations of a key holding a colon. */
  function PermutedKeys(): string --> seq<string>
  {
    sequence requires ':' in sequence => KeysOf(PermuteSeq(sequence))
  }

  /** The second loop of getSequences over the recorded `keys`: the keys of each one's
      permutations, added to `sequences`. */
  function Expand(permuted: string --> seq<string>, keys: seq<string>, sequences: seq<string>): seq<string>
    requires forall k | k in keys :: permuted.requires(k)
    decreases |keys|
  {
    if keys == [] then sequences
    else Expand(permuted, keys[1..], AddKeys(sequences, permuted(keys[0])))
  }

  /** The second loop keeps what was there in front and lists nothing twice. */
  lemma {:induction false} ExpandKeeps(permuted: string --> seq<string>, keys: seq<string>, sequences: seq<string>)
    requires forall k | k in keys :: permuted.requires(k)
    ensures |sequences| <= |Expand(permuted, keys, sequences)| && Expand(permuted, keys, sequences)[..|sequences|] == sequences
    ensures Distinct(sequences) ==> Distinct(Expand(permuted, keys, sequences))
    decreases |keys|
  {
    if keys != [] {
      var next := AddKeys(sequences, permuted(keys[0]));
      AddKeysMembers(sequences, permuted(keys[0]));
      ExpandKeeps(permuted, keys[1..], next);
      assert Expand(permuted, keys, sequences)[..|sequences|] == Expand(permuted, keys[1..], next)[..|next|][..|sequences|];
    }
  }

  /** The second loop adds exactly the keys of the permutations of the recorded keys. */
  lemma {:induction false} ExpandMembers(permuted: string --> seq<string>, keys: seq<string>, sequences: seq<string>, x: string)
    requires forall k | k in keys :: permuted.requires(k)
    ensures x in Expand(permuted, keys, sequences) <==>
              x in sequences || exists j | 0 <= j < |keys| :: x in permuted(keys[j])
    decreases |keys|
  {
    if keys != [] {
      var next := AddKeys(sequences, permuted(keys[0]));
      AddKeysMembers(sequences, permuted(keys[0]));
      ExpandMembers(permuted, keys[1..], next, x);
      if exists j | 0 <= j < |keys| :: x in permuted(keys[j]) {
        var j :| 0 <= j < |keys| && x in permuted(keys[j]);
        if j > 0 {
          assert keys[1..][j - 1] == keys[j];
        }
      }
      if exists j | 0 <= j < |keys[1..]| :: x in permuted(keys[1..][j]) {
        var j :| 0 <= j < |keys[1..]| && x in permuted(keys[1..][j]);
        assert keys[j + 1] == keys[1..][j];
      }
    }
  }

  /** What getSequences returns: the recorded keys followed by the new keys of their
      permutations. */
  function Sequences(idx: CardIndex, sortCards: seq<string> -> seq<string>): seq<string>
    requires forall cards :: |sortCards(cards)| == |cards|
  {
    FoundColon(idx, sortCards);
    var found := Found(idx, sortCards);
    Expand(PermutedKeys(), found, found)
  }

  /** getSequences: the first loop records runs and sets, the second adds the permutations
      of every key recorded by the first. */
  method GetSequences(idx: CardIndex, sortCards: seq<string> -> seq<string>) returns (keys: seq<string>)
    requires forall cards :: |sortCards(cards)| == |cards|
    ensures keys == Sequences(idx, sortCards)
  {
    var sequences := ScanIndex(idx, sortCards);
    FoundColon(idx, sortCards);
    var recorded := sequences;
    var j := 0;
    while j < |recorded|
      invariant 0 <= j <= |recorded|
      invariant Sequences(idx, sortCards) == Expand(PermutedKeys(), recorded[j..], sequences)
    {
      assert recorded[j..][0] == recorded[j] && recorded[j..][1..] == recorded[j + 1..];
      var permutations := PermuteSequence(recorded[j]);
      var m := 0;
      while m < |permutations|
        invariant 0 <= m <= |permutations|
        invariant Sequences(idx, sortCards) == Expand(PermutedKeys(), recorded[j + 1..], AddKeys(sequences, KeysOf(permutations)[m..]))
      {
        assert KeysOf(permutations)[m..][0] == KeyOf(permutations[m]);
        assert KeysOf(permutations)[m..][1..] == KeysOf(permutations)[m + 1..];
        sequences := AddKey(sequences, KeyOf(permutations[m]));
        m := m + 1;
      }
      j := j + 1;
    }
    keys := sequences;
  }

  /** getSequences returns no key twice; it holds the keys of the first loop, in front, and
      beyond them exactly the keys of their permutations. */
  lemma SequencesMembers(idx: CardIndex, sortCards: seq<string> -> seq<string>, x: string)
    requires forall cards :: |sortCards(cards)| == |cards|
    ensures var found := Found(idx, sortCards);
            && Distinct(Sequences(idx, sortCards))
            && |found| <= |Sequences(idx, sortCards)| && Sequences(idx, sortCards)[..|found|] == found
            && (x in Sequences(idx, sortCards) <==>
                  x in found || exists j | 0 <= j < |found| && ':' in found[j] :: x in KeysOf(PermuteSeq(found[j])))
  {
    FoundColon(idx, sortCards);
    var found := Found(idx, sortCards);
    ScanMembers(idx, Producer(idx, sortCards), idx.keys, [], x);
    ExpandKeeps(PermutedKeys(), found, found);
    ExpandMembers(PermutedKeys(), found, found, x);
  }
}
