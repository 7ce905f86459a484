/** The text codec of bots/encoding.go (package game carries the same codec, exercised by
    game/encoding_test.go): a card is "*" or "<number>-<suit>", a sequence is its card codes
    joined by ':'. */
module BotsEncoding {
  import opened Wrappers
  import opened Strings
  import opened Game

  /** Card.Encode: "*" for a joker, otherwise the decimal number, a dash and the suit rune. */
  function EncodeCard(c: Card): (s: string)
    ensures |s| >= 1
    ensures s == "*" <==> c.joker
  {
    if c.joker then "*" else IntToDecimal(c.number) + "-" + [c.suite]
  }

  /** What utf8.DecodeLastRuneInString yields: the last character, or the replacement
      character U+FFFD for the empty string. */
  function LastRune(s: string): char
  {
    if s == [] then '�' else s[|s| - 1]
  }

  /** DecodeCard indexes the second part of the split only once the number has been read;
      a text with no dash whose number reads and lies in range makes it panic. */
  predicate DecodeCardDefined(c: string)
  {
    c == "*" || '-' in c || Atoi(c).None? || !(3 <= Atoi(c).value <= 13)
  }

  /** The three ways a card code is refused; each carries the code. */
  datatype DecodeError =
    | BadNumber(code: string)
    | NumberOutOfRange(code: string)
    | BadSuite(code: string)

  /** The text of each error, as fmt.Errorf formats it. */
  function Message(e: DecodeError): string
  {
    match e
    case BadNumber(code) => "unable to decode number: " + code
    case NumberOutOfRange(code) => "invalid number in card encoding: " + code
    case BadSuite(code) => "invalid suite in card encoding: " + code
  }

  /** DecodeCard: "*" is the joker; otherwise the text before the first dash must read as an
      integer from 3 to 13 and the last rune after it must be one of the five suits. */
  function DecodeCard(c: string): (r: Result<Card, DecodeError>)
    requires DecodeCardDefined(c)
    ensures r.Ok? ==> ValidCard(r.value)
    ensures (r.Ok? && r.value.joker) <==> c == "*"
    ensures r.Err? ==> r.error.code == c
  {
    if c == "*" then Ok(CardJoker)
    else
      var parts := SplitFirst(c, '-');
      var number := Atoi(parts[0]);
      if number.None? then Err(BadNumber(c))
      else if number.value < 3 || number.value > 13 then Err(NumberOutOfRange(c))
      else
        SplitFirstNone(c, '-');
        var suite := LastRune(parts[1]);
        if !IsSuite(suite) then Err(BadSuite(c))
        else Ok(Card(false, number.value, suite))
  }

  /** Decoding an encoded valid card gives the card back. */
  lemma DecodeEncodeCard(c: Card)
    requires ValidCard(c)
    ensures DecodeCardDefined(EncodeCard(c))
    ensures DecodeCard(EncodeCard(c)) == Ok(c)
  {
    if !c.joker {
      var digits := NatToDecimal(c.number);
      NatToDecimalDigits(c.number);
      assert '-' !in digits by {
        assert forall i | 0 <= i < |digits| :: digits[i] != '-';
      }
      assert EncodeCard(c) == digits + ['-'] + [c.suite];
      SplitFirstAt(digits, '-', [c.suite]);
      AtoiDecimal(c.number);
    }
  }

  /** Valid cards have distinct encodings. */
  lemma EncodeCardInjective(a: Card, b: Card)
    requires ValidCard(a) && ValidCard(b) && EncodeCard(a) == EncodeCard(b)
    ensures a == b
  {
    DecodeEncodeCard(a);
    DecodeEncodeCard(b);
  }

  /** The cases of bots/encoding_test.go. */
  lemma CardCodecExamples()
    ensures EncodeCard(CardJoker) == "*"
    ensures EncodeCard(Card(false, 10, 'R')) == "10-R"
    ensures DecodeCard("7-G") == Ok(Card(false, 7, 'G'))
  {
    assert NatToDecimal(10) == "10";
    SplitFirstAt("7", '-', "G");
    assert "7" + "-" + "G" == "7-G";
  }

  /** The decoder is lenient: a sign and leading zeros are read, and only the last rune
      after the first dash names the suit. */
  lemma LenientDecodeExample()
    ensures DecodeCard("+05-XR") == Ok(Card(false, 5, 'R'))
  {
    SplitFirstAt("+05", '-', "XR");
    assert "+05" + "-" + "XR" == "+05-XR";
    LenientNumber();
  }

  lemma LenientNumber()
    ensures Atoi("+05") == Some(5)
  {
    assert "+05"[1..] == "05";
    assert ParseDigits("05", 10) == Some(5) by {
      assert "05"[..1] == "0" && "0"[..0] == "";
    }
  }

  /** A number outside 3..13 is an error. */
  lemma NumberOutOfRangeExample()
    ensures DecodeCard("2-R") == Err(NumberOutOfRange("2-R"))
  {
    SplitFirstAt("2", '-', "R");
    assert "2" + "-" + "R" == "2-R";
  }

  /** A missing suit is an error: the last rune of the empty text is U+FFFD. */
  lemma MissingSuitExample()
    ensures DecodeCard("5-") == Err(BadSuite("5-"))
  {
    SplitFirstAt("5", '-', "");
    assert "5" + "-" + "" == "5-";
  }

  /** A number that does not read is an error. */
  lemma BadNumberExample()
    ensures DecodeCard("x-R") == Err(BadNumber("x-R"))
  {
    SplitFirstAt("x", '-', "R");
    assert "x" + "-" + "R" == "x-R";
  }

  /** The card codes of a sequence, one per card. */
  function EncodedCards(cards: seq<Card>): (codes: seq<string>)
    ensures |codes| == |cards|
    ensures forall i | 0 <= i < |cards| :: codes[i] == EncodeCard(cards[i])
  {
    if cards == [] then [] else EncodedCards(cards[..|cards| - 1]) + [EncodeCard(cards[|cards| - 1])]
  }

  /** The text of a sequence: its card codes joined by ':'. */
  function SequenceText(cards: seq<Card>): string
  {
    Join(EncodedCards(cards), ':')
  }

  /** Sequence.EncodeCards: fills a slice of the length of the sequence with the card codes. */
  method EncodeCards(cards: seq<Card>) returns (codes: seq<string>)
    ensures codes == EncodedCards(cards)
  {
    var sequenceCode := new string[|cards|](_ => "");
    for i := 0 to |cards|
      invariant forall k | 0 <= k < i :: sequenceCode[k] == EncodeCard(cards[k])
    {
      sequenceCode[i] := EncodeCard(cards[i]);
    }
    codes := sequenceCode[..];
  }

  /** Sequence.Encode: writes the card codes into a builder with ':' before every code but
      the first. */
  method EncodeSequence(cards: seq<Card>) returns (out: string)
    ensures out == SequenceText(cards)
  {
    out := "";
    for i := 0 to |cards|
      invariant out == SequenceText(cards[..i])
    {
      var codes := EncodedCards(cards[..i]);
      assert cards[..i + 1][..i] == cards[..i];
      if i != 0 {
        out := out + ":";
        JoinSnoc(codes, EncodeCard(cards[i]), ':');
      }
      out := out + EncodeCard(cards[i]);
    }
    assert cards[..|cards|] == cards;
  }

  /** No code makes DecodeCard panic. */
  predicate AllDefined(codes: seq<string>)
  {
    forall i | 0 <= i < |codes| :: DecodeCardDefined(codes[i])
  }

  /** DecodeSequence panics when one of its codes would make DecodeCard panic. */
  predicate DecodeSequenceDefined(s: string)
  {
    AllDefined(Split(s, ':'))
  }

  /** The card a code decodes to, or the zero Card when it fails. */
  function DecodedCard(code: string): Card
    requires DecodeCardDefined(code)
  {
    var r := DecodeCard(code); if r.Ok? then r.value else ZeroCard
  }

  /** The first n decoded cards: a failed code leaves the zero Card in its slot. */
  function DecodedCards(codes: seq<string>, n: nat): (cards: seq<Card>)
    requires AllDefined(codes) && n <= |codes|
    ensures |cards| == n
  {
    if n == 0 then [] else DecodedCards(codes, n - 1) + [DecodedCard(codes[n - 1])]
  }

  /** The errors of the failed codes among the first n, in order (errors.Join of nothing is
      no error). */
  function DecodeErrors(codes: seq<string>, n: nat): seq<DecodeError>
    requires AllDefined(codes) && n <= |codes|
  {
    if n == 0 then []
    else
      var last := DecodeCard(codes[n - 1]);
      DecodeErrors(codes, n - 1) + (if last.Err? then [last.error] else [])
  }

  /** DecodeSequence: splits on ':' and decodes each code into its slot of a slice made for
      all of them, collecting the errors of the codes that fail. */
  method DecodeSequence(s: string) returns (cards: seq<Card>, errs: seq<DecodeError>)
    requires DecodeSequenceDefined(s)
    ensures cards == DecodedCards(Split(s, ':'), |Split(s, ':')|)
    ensures errs == DecodeErrors(Split(s, ':'), |Split(s, ':')|)
  {
    var cardCodes := Split(s, ':');
    var slots := new Card[|cardCodes|](_ => ZeroCard);
    errs := [];
    for i := 0 to |cardCodes|
      invariant slots[..i] == DecodedCards(cardCodes, i)
      invariant forall k | i <= k < |cardCodes| :: slots[k] == ZeroCard
      invariant errs == DecodeErrors(cardCodes, i)
    {
      var r := DecodeCard(cardCodes[i]);
      if r.Err? {
        errs := errs + [r.error];
        assert slots[..i + 1] == slots[..i] + [ZeroCard];
        continue;
      }
      slots[i] := r.value;
      assert slots[..i + 1] == slots[..i] + [r.value];
    }
    cards := slots[..];
    assert slots[..] == slots[..|cardCodes|];
  }

  /** A valid card's code holds no ':'. */
  lemma NoColonInCode(c: Card)
    requires ValidCard(c)
    ensures ':' !in EncodeCard(c)
  {
    if !c.joker {
      var digits := NatToDecimal(c.number);
      NatToDecimalDigits(c.number);
      assert forall i | 0 <= i < |digits| :: digits[i] != ':';
      assert EncodeCard(c) == digits + "-" + [c.suite];
    }
  }

  /** Codes that all decode give their cards and no error. */
  lemma {:induction false} DecodedAll(codes: seq<string>, cards: seq<Card>, n: nat)
    requires AllDefined(codes) && n <= |codes| && |cards| == |codes|
    requires forall i | 0 <= i < n :: DecodeCard(codes[i]) == Ok(cards[i])
    ensures DecodedCards(codes, n) == cards[..n]
    ensures DecodeErrors(codes, n) == []
  {
    if n != 0 {
      DecodedAll(codes, cards, n - 1);
      var last := DecodeCard(codes[n - 1]);
      assert last == Ok(cards[n - 1]);
      assert DecodedCards(codes, n) == cards[..n - 1] + [cards[n - 1]];
      assert cards[..n] == cards[..n - 1] + [cards[n - 1]];
    }
  }

  /** Every code of a sequence of valid cards is free of ':' and decodes to its card. */
  lemma CodesDecode(cards: seq<Card>)
    requires forall c | c in cards :: ValidCard(c)
    ensures forall i | 0 <= i < |cards| :: ':' !in EncodedCards(cards)[i]
    ensures AllDefined(EncodedCards(cards))
    ensures forall i | 0 <= i < |cards| :: DecodeCard(EncodedCards(cards)[i]) == Ok(cards[i])
  {
    var codes := EncodedCards(cards);
    forall i | 0 <= i < |cards|
      ensures ':' !in codes[i] && DecodeCardDefined(codes[i]) && DecodeCard(codes[i]) == Ok(cards[i])
    {
      assert cards[i] in cards;
      NoColonInCode(cards[i]);
      DecodeEncodeCard(cards[i]);
    }
  }

  /** The text of a non-empty sequence of valid cards splits back into its card codes. */
  lemma SplitSequenceText(cards: seq<Card>)
    requires |cards| >= 1
    requires forall c | c in cards :: ValidCard(c)
    ensures Split(SequenceText(cards), ':') == EncodedCards(cards)
  {
    var codes := EncodedCards(cards);
    CodesDecode(cards);
    assert forall p | p in codes :: ':' !in p;
    SplitJoin(codes, ':');
  }

  /** Decoding the text of a non-empty sequence of valid cards gives the cards back without
      errors. */
  lemma DecodeEncodeSequence(cards: seq<Card>)
    requires |cards| >= 1
    requires forall c | c in cards :: ValidCard(c)
    ensures Split(SequenceText(cards), ':') == EncodedCards(cards)
    ensures DecodeSequenceDefined(SequenceText(cards))
    ensures DecodedCards(EncodedCards(cards), |cards|) == cards
    ensures DecodeErrors(EncodedCards(cards), |cards|) == []
  {
    SplitSequenceText(cards);
    CodesDecode(cards);
    DecodedAll(EncodedCards(cards), cards, |cards|);
    assert cards[..|cards|] == cards;
  }

  /** The empty sequence encodes as the empty text, which decodes to one zero card and one
      error: the round trip holds only for non-empty sequences. */
  lemma EmptySequenceRoundTrip()
    ensures SequenceText([]) == ""
    ensures Split("", ':') == [""] && DecodeSequenceDefined("")
    ensures DecodedCards([""], 1) == [ZeroCard]
    ensures DecodeErrors([""], 1) == [BadNumber("")]
    ensures Message(BadNumber("")) == "unable to decode number: "
  {
    assert SplitFirst("", '-') == [""];
    assert Atoi("").None?;
    assert "unable to decode number: " + "" == "unable to decode number: ";
  }

  /** The encoding cases of bots/encoding_test.go for sequences. */
  lemma SequenceEncodeExamples()
    ensures EncodedCards([CardJoker, Card(false, 10, 'R')]) == ["*", "10-R"]
    ensures SequenceText([CardJoker, Card(false, 10, 'R')]) == "*:10-R"
  {
    assert EncodeCard(Card(false, 10, 'R')) == "10-R" by { assert NatToDecimal(10) == "10"; }
    assert EncodedCards([CardJoker, Card(false, 10, 'R')]) == ["*", "10-R"];
    assert Join(["*", "10-R"], ':') == "*:10-R";
  }
}
