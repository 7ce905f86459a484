/** The older JavaScript arena helpers of arena/engine.js: the deck builder, the card
    decoder built on JavaScript's parseInt, and the meld scorer. */
module ArenaEngine {
  import opened Wrappers
  import opened Strings
  import opened Game
  import BotsEncoding
  import GameScoring

  /** The suits in the order the deck builder walks them (not the engine's order). */
  const DeckSuites: seq<char> := ['B', 'R', 'Y', 'X', 'G']

  const Numbers: seq<int> := [3, 4, 5, 6, 7, 8, 9, 10, 11, 12, 13]

  // ---------------------------------------------------------------------------------------
  // newDeck

  /** Copies of each numbered card: one for a unique deck, two otherwise. */
  function Copies(unique: bool): nat
  {
    if unique then 1 else 2
  }

  function JokerCount(unique: bool): nat
  {
    if unique then 1 else 6
  }

  /** The size of the deck: one copy of each of the 55 numbered cards and one joker, or two
      copies of each and six jokers. */
  function DeckSize(unique: bool): (n: nat)
    ensures n == if unique then 56 else 116
  {
    55 * Copies(unique) + JokerCount(unique)
  }

  /** Where copy k of the card in a slot lands: the copies of one card sit side by side. */
  function Pos(unique: bool, slot: nat, k: nat): nat
  {
    if unique then slot + k else 2 * slot + k
  }

  /** The slot of the numbered card at index i. */
  function SlotOf(unique: bool, i: nat): nat
  {
    if unique then i else i / 2
  }

  /** The numbered card of one of the 55 slots: slot 11 s + n holds number 3 + n (that is,
      Numbers[n]) of suit DeckSuites[s]. */
  function SlotCard(slot: nat): Card
    requires slot < 55
  {
    Card(false, 3 + slot % 11, DeckSuites[slot / 11])
  }

  /** The slot the loops fill with number Numbers[n] of suit DeckSuites[s]. */
  lemma SlotCardAt(s: nat, n: nat)
    requires s < 5 && n < 11
    ensures s * 11 + n < 55 && SlotCard(s * 11 + n) == Card(false, Numbers[n], DeckSuites[s])
  {
    assert (s * 11 + n) % 11 == n && (s * 11 + n) / 11 == s;
  }

  /** Every slot holds a valid numbered card, and DeckSlot finds its slot again. */
  lemma SlotCardValid(slot: nat)
    requires slot < 55
    ensures ValidCard(SlotCard(slot)) && !SlotCard(slot).joker && DeckSlot(SlotCard(slot)) == slot
  {
  }

  /** The position of a numbered card among the 55 slots: its suit's place in the walk, then
      its number. */
  function DeckSlot(card: Card): int
  {
    (if card.suite == 'B' then 0 else if card.suite == 'R' then 1 else if card.suite == 'Y' then 2
     else if card.suite == 'X' then 3 else 4) * 11 + card.number - 3
  }

  /** The text of a slot's card: the bots' card code `${number}-${suite}`. */
  function SlotText(slot: nat): string
  {
    if slot < 55 then BotsEncoding.EncodeCard(SlotCard(slot)) else "*"
  }

  /** The deck as an index formula, with the text of each slot given by `write`: the
      numbered cards slot by slot, the copies of one card side by side, then the jokers. */
  function DeckAt(write: nat -> string, unique: bool, i: nat): string
  {
    if i < Pos(unique, 55, 0) then write(SlotOf(unique, i)) else "*"
  }

  /** The card at index i of the deck newDeck builds. */
  function DeckCard(unique: bool, i: nat): string
    requires i < DeckSize(unique)
  {
    DeckAt(SlotText, unique, i)
  }

  /** c copies of one text. */
  function Block(text: string, c: nat): (b: seq<string>)
    ensures |b| == c && forall k | 0 <= k < c :: b[k] == text
  {
    if c == 0 then [] else Block(text, c - 1) + [text]
  }

  /** The cards the middle loop of newDeck has pushed for suit s after n numbers. */
  function Row(write: nat -> string, unique: bool, s: nat, n: nat): seq<string>
  {
    if n == 0 then [] else Row(write, unique, s, n - 1) + Block(write(s * 11 + n - 1), Copies(unique))
  }

  /** The cards the outer loop of newDeck has pushed after s suits. */
  function Rows(write: nat -> string, unique: bool, s: nat): seq<string>
  {
    if s == 0 then [] else Rows(write, unique, s - 1) + Row(write, unique, s - 1, |Numbers|)
  }

  /** What newDeck pushes, loop by loop: every suit's row, then the jokers. */
  function DeckBy(write: nat -> string, unique: bool): seq<string>
  {
    Rows(write, unique, |DeckSuites|) + Block("*", JokerCount(unique))
  }

  lemma {:induction false} RowIndex(write: nat -> string, unique: bool, s: nat, n: nat)
    ensures |Row(write, unique, s, n)| == Pos(unique, n, 0)
    ensures forall i | 0 <= i < Pos(unique, n, 0) ::
              Row(write, unique, s, n)[i] == write(s * 11 + SlotOf(unique, i))
  {
    if n > 0 {
      RowIndex(write, unique, s, n - 1);
      var before := Row(write, unique, s, n - 1);
      var block := Block(write(s * 11 + n - 1), Copies(unique));
      forall i | 0 <= i < Pos(unique, n, 0)
        ensures (before + block)[i] == write(s * 11 + SlotOf(unique, i))
      {
        if i >= |before| {
          assert SlotOf(unique, i) == n - 1;
          assert (before + block)[i] == block[i - |before|];
        } else {
          assert (before + block)[i] == before[i];
        }
      }
    }
  }

  lemma {:induction false} RowsIndex(write: nat -> string, unique: bool, s: nat)
    ensures |Rows(write, unique, s)| == Pos(unique, s * 11, 0)
    ensures forall i | 0 <= i < Pos(unique, s * 11, 0) ::
              Rows(write, unique, s)[i] == write(SlotOf(unique, i))
  {
    if s > 0 {
      RowsIndex(write, unique, s - 1);
      RowIndex(write, unique, s - 1, |Numbers|);
      var before := Rows(write, unique, s - 1);
      var row := Row(write, unique, s - 1, |Numbers|);
      forall i | 0 <= i < Pos(unique, s * 11, 0)
        ensures (before + row)[i] == write(SlotOf(unique, i))
      {
        if i >= |before| {
          var j := i - |before|;
          assert SlotOf(unique, i) == (s - 1) * 11 + SlotOf(unique, j);
          assert (before + row)[i] == row[j];
        } else {
          assert (before + row)[i] == before[i];
        }
      }
    }
  }

  /** The walk of the loops and the index formula describe the same deck. */
  lemma DeckIndex(write: nat -> string, unique: bool)
    ensures |DeckBy(write, unique)| == DeckSize(unique)
    ensures forall i | 0 <= i < DeckSize(unique) :: DeckBy(write, unique)[i] == DeckAt(write, unique, i)
  {
    RowsIndex(write, unique, |DeckSuites|);
    var rows := Rows(write, unique, |DeckSuites|);
    var jokers := Block("*", JokerCount(unique));
    forall i | 0 <= i < DeckSize(unique) ensures (rows + jokers)[i] == DeckAt(write, unique, i) {
      if i >= |rows| {
        assert (rows + jokers)[i] == jokers[i - |rows|];
      } else {
        assert (rows + jokers)[i] == rows[i];
      }
    }
  }

  /** The innermost loop of newDeck: the copies of one numbered card. */
  method AppendCopies(cards: seq<string>, unique: bool, s: nat, n: nat) returns (more: seq<string>)
    requires s < 5 && n < 11
    ensures more == cards + Block(SlotText(s * 11 + n), Copies(unique))
    ensures forall done | cards == done + Row(SlotText, unique, s, n) ::
              more == done + Row(SlotText, unique, s, n + 1)
  {
    var text := BotsEncoding.EncodeCard(Card(false, Numbers[n], DeckSuites[s]));
    SlotCardAt(s, n);
    more := cards;
    for k := 0 to Copies(unique)
      invariant more == cards + Block(text, k)
    {
      more := more + [text];
    }
  }

  /** The middle loop of newDeck: every number of one suit. */
  method AppendSuit(cards: seq<string>, unique: bool, s: nat) returns (more: seq<string>)
    requires s < 5
    ensures more == cards + Row(SlotText, unique, s, |Numbers|)
  {
    more := cards;
    for n := 0 to |Numbers|
      invariant more == cards + Row(SlotText, unique, s, n)
    {
      more := AppendCopies(more, unique, s, n);
    }
  }

  /** The joker loop of newDeck. */
  method AppendJokers(cards: seq<string>, unique: bool) returns (deck: seq<string>)
    ensures deck == cards + Block("*", JokerCount(unique))
  {
    deck := cards;
    for j := 0 to JokerCount(unique)
      invariant deck == cards + Block("*", j)
    {
      deck := deck + ["*"];
    }
  }

  /** newDeck: nested loops over suits, numbers and copies, then the jokers. */
  method NewDeck(unique: bool) returns (cards: seq<string>)
    ensures |cards| == DeckSize(unique)
    ensures forall i | 0 <= i < |cards| :: cards[i] == DeckCard(unique, i)
  {
    cards := [];
    for s := 0 to |DeckSuites|
      invariant cards == Rows(SlotText, unique, s)
    {
      cards := AppendSuit(cards, unique, s);
    }
    cards := AppendJokers(cards, unique);
    DeckIndex(SlotText, unique);
  }

  /** Where a numbered card sits: index i of the deck holds the card exactly when i lies in
      the card's slot, so every valid numbered card appears, once per copy, side by side. */
  lemma DeckCardWhere(unique: bool, i: nat, card: Card)
    requires i < DeckSize(unique) && ValidCard(card) && !card.joker
    ensures DeckCard(unique, i) == BotsEncoding.EncodeCard(card) <==>
              i < Pos(unique, 55, 0) && SlotOf(unique, i) == DeckSlot(card)
  {
    if i < Pos(unique, 55, 0) {
      var at := SlotCard(SlotOf(unique, i));
      SlotCardValid(SlotOf(unique, i));
      if BotsEncoding.EncodeCard(at) == BotsEncoding.EncodeCard(card) {
        BotsEncoding.EncodeCardInjective(at, card);
      }
    }
  }

  /** The jokers come last: index i holds "*" exactly when it is past the numbered cards. */
  lemma DeckJokersLast(unique: bool, i: nat)
    requires i < DeckSize(unique)
    ensures DeckCard(unique, i) == "*" <==> i >= Pos(unique, 55, 0)
  {
  }

  /** The unique deck holds no card twice. */
  lemma UniqueDeckDistinct(i: nat, j: nat)
    requires i < j < DeckSize(true)
    ensures DeckCard(true, i) != DeckCard(true, j)
  {
    if j < 55 {
      SlotCardValid(i);
      DeckCardWhere(true, j, SlotCard(i));
    }
  }

  // ---------------------------------------------------------------------------------------
  // parseInt and decodeCard

  /** The characters JavaScript's parseInt skips before the number: white space and line
      terminators. */
  predicate IsJsSpace(c: char)
  {
    var u := c as int;
    || u == 0x09 || u == 0x0A || u == 0x0B || u == 0x0C || u == 0x0D || u == 0x20
    || u == 0xA0 || u == 0x1680 || (0x2000 <= u <= 0x200A) || u == 0x2028 || u == 0x2029
    || u == 0x202F || u == 0x205F || u == 0x3000 || u == 0xFEFF
  }

  /** s without its leading white space. */
  function TrimStart(s: string): (t: string)
    ensures t != [] ==> !IsJsSpace(t[0])
  {
    if s != [] && IsJsSpace(s[0]) then TrimStart(s[1..]) else s
  }

  /** TrimStart drops exactly a prefix of white space. */
  lemma {:induction false} TrimStartSuffix(s: string)
    ensures |TrimStart(s)| <= |s| && TrimStart(s) == s[|s| - |TrimStart(s)|..]
    ensures forall i | 0 <= i < |s| - |TrimStart(s)| :: IsJsSpace(s[i])
  {
    if s != [] && IsJsSpace(s[0]) {
      TrimStartSuffix(s[1..]);
    }
  }

  /** The longest prefix of s made of digits of the radix. */
  function LeadingDigits(s: string, radix: nat): (d: string)
    ensures |d| <= |s| && d == s[..|d|]
    ensures forall i | 0 <= i < |d| :: DigitValue(d[i], radix).Some?
    ensures |d| < |s| ==> DigitValue(s[|d|], radix).None?
  {
    if s == [] || DigitValue(s[0], radix).None? then [] else [s[0]] + LeadingDigits(s[1..], radix)
  }

  /** parseInt without a radix: skip leading white space, take one sign, then read the
      number. */
  function ParseInt(s: string): Option<int>
  {
    ParseSigned(TrimStart(s))
  }

  /** An optional '-' or '+' before the unsigned number. */
  function ParseSigned(t: string): Option<int>
  {
    if t != [] && t[0] == '-' then
      match ParseUnsigned(t[1..])
      case None => None
      case Some(v) => Some(-(v as int))
    else if t != [] && t[0] == '+' then ParseUnsigned(t[1..])
    else ParseUnsigned(t)
  }

  /** Hexadecimal after "0x" or "0X", decimal otherwise. */
  function ParseUnsigned(u: string): Option<nat>
  {
    if |u| >= 2 && u[0] == '0' && (u[1] == 'x' || u[1] == 'X') then ParseRadix(u[2..], 16)
    else ParseRadix(u, 10)
  }

  /** The digits up to the first non-digit, or NaN (none) when there is no digit at all. */
  function ParseRadix(body: string, radix: nat): Option<nat>
  {
    var digits := LeadingDigits(body, radix);
    if digits == [] then None else ParseDigits(digits, radix)
  }

  /** A string of digits is its own leading digits. */
  lemma {:induction false} LeadingDigitsAll(s: string, radix: nat)
    requires forall i | 0 <= i < |s| :: DigitValue(s[i], radix).Some?
    ensures LeadingDigits(s, radix) == s
  {
    if s != [] {
      LeadingDigitsAll(s[1..], radix);
    }
  }

  /** A string of digits that does not start "0x" is read as a decimal number. */
  lemma ParseIntOfDigits(s: string)
    requires s != [] && AllDigits(s) && !(|s| >= 2 && s[0] == '0')
    ensures ParseInt(s) == ParseDigits(s, 10)
  {
    assert IsDigit(s[0]);
    assert TrimStart(s) == s;
    assert ParseSigned(s) == ParseRadix(s, 10);
    forall i | 0 <= i < |s| ensures DigitValue(s[i], 10).Some? {
      assert IsDigit(s[i]);
    }
    LeadingDigitsAll(s, 10);
  }

  /** parseInt reads back the decimal rendering of every natural number. */
  lemma ParseIntDecimal(n: nat)
    ensures ParseInt(NatToDecimal(n)) == Some(n)
  {
    NatToDecimalDigits(n);
    DecimalValue(n);
    ParseIntOfDigits(NatToDecimal(n));
  }

  /** parseInt is lenient: it skips leading blanks and stops at the first non-digit. */
  lemma ParseIntLenient()
    ensures ParseInt(" 12abc") == Some(12)
  {
    assert " 12abc"[1..] == "12abc";
    assert TrimStart(" 12abc") == "12abc";
    assert ParseSigned("12abc") == ParseRadix("12abc", 10);
    assert LeadingDigits("12abc", 10) == "12" by {
      assert "12abc"[1..] == "2abc" && "2abc"[1..] == "abc";
      assert LeadingDigits("abc", 10) == [];
    }
    assert "12"[..1] == "1" && "1"[..0] == "";
    assert ParseDigits("1", 10) == Some(1);
    assert ParseDigits("12", 10) == Some(12);
  }

  /** parseInt takes a sign and reads hexadecimal after "0x". */
  lemma ParseIntSignedHex()
    ensures ParseInt("-0x1A") == Some(-26)
  {
    assert TrimStart("-0x1A") == "-0x1A";
    assert "-0x1A"[1..] == "0x1A" && "0x1A"[2..] == "1A";
    assert ParseUnsigned("0x1A") == ParseRadix("1A", 16);
    assert LeadingDigits("1A", 16) == "1A" by {
      assert "1A"[1..] == "A" && "A"[1..] == "";
    }
    assert "1A"[..1] == "1" && "1"[..0] == "";
    assert ParseDigits("1", 16) == Some(1);
    assert ParseDigits("1A", 16) == Some(26);
  }

  /** parseInt gives NaN for text without digits. */
  lemma ParseIntNaN()
    ensures ParseInt("abc") == None
    ensures ParseInt("") == None
  {
    assert TrimStart("abc") == "abc";
  }

  /** What decodeCard builds: a joker flag, the number (NaN when parseInt finds none, left
      undefined for the joker) and the suit text after the first dash (undefined when there
      is no dash). */
  datatype JsCard = JsCard(joker: bool, number: Option<int>, suite: Option<string>)

  /** decodeCard: "*" is the joker; otherwise split on '-', parseInt the first part and keep
      the second as the suit. */
  function JsDecodeCard(card: string): (r: JsCard)
    ensures r.joker <==> card == "*"
    ensures !r.joker ==> (r.suite.Some? <==> '-' in card)
  {
    if card == "*" then JsCard(true, None, None)
    else
      var parts := Split(card, '-');
      SplitSeveral(card, '-');
      JsCard(false, ParseInt(parts[0]), if |parts| >= 2 then Some(parts[1]) else None)
  }

  /** Decoding what the bots encode: the joker comes back as the joker, and a valid
      numbered card as its number and its suit. */
  lemma JsDecodeEncoded(c: Card)
    requires ValidCard(c)
    ensures c.joker ==> JsDecodeCard(BotsEncoding.EncodeCard(c)) == JsCard(true, None, None)
    ensures !c.joker ==> JsDecodeCard(BotsEncoding.EncodeCard(c)) == JsCard(false, Some(c.number), Some([c.suite]))
  {
    if !c.joker {
      var digits := NatToDecimal(c.number);
      NatToDecimalDigits(c.number);
      assert '-' !in digits by {
        forall i | 0 <= i < |digits| ensures digits[i] != '-' {
          assert IsDigit(digits[i]);
        }
      }
      assert BotsEncoding.EncodeCard(c) == digits + ['-'] + [c.suite];
      SplitAfterFirst(digits, '-', [c.suite]);
      SplitNoSeparator([c.suite], '-');
      ParseIntDecimal(c.number);
    }
  }

  // ---------------------------------------------------------------------------------------
  // scoreSequence

  /** The score of a card code: 25 for "*", else the parsed number (NaN, none, when there is
      none). */
  function JsCardScore(card: string): Option<int>
  {
    if card == "*" then Some(25) else JsDecodeCard(card).number
  }

  /** The sum scoreSequence computes; one NaN card makes the whole sum NaN. */
  function JsSequenceScore(sequence: seq<string>): Option<int>
  {
    if sequence == [] then Some(0)
    else
      match (JsSequenceScore(sequence[..|sequence| - 1]), JsCardScore(sequence[|sequence| - 1]))
      case (Some(a), Some(b)) => Some(a + b)
      case _ => None
  }

  /** scoreSequence: one pass adding 25 per joker and the decoded number of every other card. */
  method ScoreSequence(sequence: seq<string>) returns (score: Option<int>)
    ensures score == JsSequenceScore(sequence)
  {
    score := Some(0);
    for i := 0 to |sequence|
      invariant score == JsSequenceScore(sequence[..i])
    {
      assert sequence[..i + 1][..i] == sequence[..i];
      var card := sequence[i];
      if card == "*" {
        score := if score.Some? then Some(score.value + 25) else None;
        continue;
      }
      var cardDec := JsDecodeCard(card);
      score := if score.Some? && cardDec.number.Some? then Some(score.value + cardDec.number.value) else None;
    }
    assert sequence[..|sequence|] == sequence;
  }

  /** The JavaScript score of one card code agrees with the Go score of the card. */
  lemma JsCardScoreEncoded(c: Card)
    requires ValidCard(c)
    ensures JsCardScore(BotsEncoding.EncodeCard(c)) == Some(GameScoring.ScoreCard(c))
  {
    JsDecodeEncoded(c);
  }

  /** Codes that score like their cards one by one add up like the cards. */
  lemma {:induction false} JsSumAgrees(codes: seq<string>, cards: seq<Card>)
    requires |codes| == |cards|
    requires forall i | 0 <= i < |cards| :: JsCardScore(codes[i]) == Some(GameScoring.ScoreCard(cards[i]))
    ensures JsSequenceScore(codes) == Some(GameScoring.SumOfCardScores(cards))
  {
    if cards != [] {
      JsSumAgrees(codes[..|codes| - 1], cards[..|cards| - 1]);
    }
  }

  /** On the codes of valid cards the JavaScript scorer agrees with the Go one. */
  lemma JsScoreMatchesGo(cards: seq<Card>)
    requires forall i | 0 <= i < |cards| :: ValidCard(cards[i])
    ensures JsSequenceScore(BotsEncoding.EncodedCards(cards)) == Some(GameScoring.SumOfCardScores(cards))
  {
    var codes := BotsEncoding.EncodedCards(cards);
    forall i | 0 <= i < |cards| ensures JsCardScore(codes[i]) == Some(GameScoring.ScoreCard(cards[i])) {
      JsCardScoreEncoded(cards[i]);
    }
    JsSumAgrees(codes, cards);
  }
}
