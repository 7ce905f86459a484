/** The bigbrain bot of bots/bigbrainbot/bigbrainbot.go. It runs the grug engine over the hand
    and reads its answer off the melds: for a draw it asks whether the top of the discard
    pile would finish a meld, for a discard it drops the card its worst-card rule picks. */
module Bigbrainbot {
  import opened Wrappers
  import opened Game
  import opened Slices
  import opened GameSorting
  import opened BotTypes
  import BotsEncoding
  import Grugbot

  /** What Calculate returns: the melds, whether they allow a flop, and the hand (which
      Calculate leaves empty). */
  datatype Calculation = Calculation(sequences: seq<seq<Card>>, flop: bool, hand: seq<Card>)

  /** The card the worst-card rule picks, with the meld it sits in and its place there. */
  datatype CardPick = CardPick(card: Card, sequenceIdx: int, cardIdx: int)

  /** The functions this bot calls that are not part of this model: game.DecodeCards,
      the two-argument grugbot.FindSequences, game.CanFlop, game.EncodeSequences,
      grugbot.Calculate and grugbot.WorstCard. */
  datatype Externals = Externals(
    decodeCards: seq<string> -> Result<seq<Card>, string>,
    findSequences: (int, seq<Card>) -> seq<seq<Card>>,
    canFlop: seq<seq<Card>> -> bool,
    encodeSequences: seq<seq<Card>> -> seq<seq<string>>,
    grugCalculate: BotRequest -> Result<Calculation, string>,
    worstCard: (int, seq<seq<Card>>, bool) -> CardPick)

  // ---------------------------------------------------------------------------------------
  // Calculate

  /** The melds Calculate may return for a request: the decoded hand, sorted, run through
      the candidate finder and the grug filter. */
  ghost predicate Calculated(req: BotRequest, ext: Externals, seqs: seq<seq<Card>>)
  {
    && ext.decodeCards(req.hand).Ok?
    && var hand := SortCards(ext.decodeCards(req.hand).value);
       Grugbot.FilterOutcome(req.round, hand, ext.findSequences(req.round, hand), seqs)
  }

  /** Calculate: decode the hand or fail, sort it, find and filter the candidates, and report
      whether exactly those melds allow a flop. */
  method Calculate(req: BotRequest, ext: Externals) returns (r: Result<Calculation, string>)
    ensures ext.decodeCards(req.hand).Err? ==>
              r == Err("unable to decode cards: " + ext.decodeCards(req.hand).error)
    ensures ext.decodeCards(req.hand).Ok? ==>
              && r.Ok?
              && Calculated(req, ext, r.value.sequences)
              && r.value.flop == ext.canFlop(r.value.sequences)
              && r.value.hand == []
  {
    var decoded := ext.decodeCards(req.hand);
    if decoded.Err? {
      return Err("unable to decode cards: " + decoded.error);
    }
    var hand := SortCards(decoded.value);
    var seqs := ext.findSequences(req.round, hand);
    seqs := Grugbot.FilterSequences(req.round, hand, seqs);
    return Ok(Calculation(seqs, ext.canFlop(seqs), []));
  }

  // ---------------------------------------------------------------------------------------
  // Score

  /** Score: the melds of grugbot.Calculate, encoded, with the flop decided from those melds
      and the request's action echoed; a failed calculation is wrapped. */
  function Score(req: BotRequest, ext: Externals): (r: Result<ScoreResponse, string>)
    ensures r.Err? <==> ext.grugCalculate(req).Err?
    ensures r.Err? ==> r.error == "cannot calculate response: " + ext.grugCalculate(req).error
    ensures r.Ok? ==>
              var melds := ext.grugCalculate(req).value.sequences;
              && r.value.action == req.action
              && r.value.flop == ext.canFlop(melds)
              && r.value.sequences == ext.encodeSequences(melds)
  {
    match ext.grugCalculate(req)
    case Err(e) => Err("cannot calculate response: " + e)
    case Ok(calculation) => Ok(ScoreResponse(ext.encodeSequences(calculation.sequences), req.action, ext.canFlop(calculation.sequences)))
  }

  // ---------------------------------------------------------------------------------------
  // Draw

  /** The scan of Draw over the first n melds, from the last one down: a complete meld
      (three cards or more) means the discard is worth taking, an incomplete meld holding the
      top card means it is not, and nothing found means no advice. */
  function Advice(seqs: seq<seq<Card>>, top: Card, n: nat): Option<Stack>
    requires n <= |seqs|
  {
    if n == 0 then None
    else if |seqs[n - 1]| >= 3 then Some(StackDiscard)
    else if top in seqs[n - 1] then Some(StackDeck)
    else Advice(seqs, top, n - 1)
  }

  /** The melds strictly between index i and index n are all incomplete and none holds the
      top card (i is -1 to start from the first meld). */
  ghost predicate Quiet(seqs: seq<seq<Card>>, top: Card, i: int, n: nat)
    requires -1 <= i <= n <= |seqs|
  {
    forall j | i < j < n :: |seqs[j]| < 3 && top !in seqs[j]
  }

  /** Quietness up to n is quietness up to n - 1 and a quiet meld at n - 1. */
  lemma QuietExtend(seqs: seq<seq<Card>>, top: Card, i: int, n: nat)
    requires -1 <= i < n - 1 && n <= |seqs|
    ensures Quiet(seqs, top, i, n) <==>
              Quiet(seqs, top, i, n - 1) && |seqs[n - 1]| < 3 && top !in seqs[n - 1]
  {
  }

  /** The scan answers nothing exactly when all the melds are quiet. */
  lemma {:induction false} AdviceNone(seqs: seq<seq<Card>>, top: Card, n: nat)
    requires n <= |seqs|
    ensures Advice(seqs, top, n) == None <==> Quiet(seqs, top, -1, n)
  {
    if n > 0 {
      AdviceNone(seqs, top, n - 1);
      QuietExtend(seqs, top, -1, n);
    }
  }

  /** The scan advises the discard stack exactly when some complete meld (three cards or
      more) has only quiet melds after it. */
  lemma {:induction false} AdviceDiscard(seqs: seq<seq<Card>>, top: Card, n: nat)
    requires n <= |seqs|
    ensures Advice(seqs, top, n) == Some(StackDiscard) <==>
              exists i | 0 <= i < n :: |seqs[i]| >= 3 && Quiet(seqs, top, i, n)
  {
    if n > 0 {
      var last := seqs[n - 1];
      if |last| >= 3 {
        assert Quiet(seqs, top, n - 1, n);
      } else if top in last {
        assert StackDeck != StackDiscard;
        forall i | 0 <= i < n - 1 ensures !Quiet(seqs, top, i, n) {
          QuietExtend(seqs, top, i, n);
        }
      } else {
        AdviceDiscard(seqs, top, n - 1);
        forall i | 0 <= i < n - 1 ensures Quiet(seqs, top, i, n) == Quiet(seqs, top, i, n - 1) {
          QuietExtend(seqs, top, i, n);
        }
      }
    }
  }

  /** The scan advises the deck exactly when some incomplete meld holding the top card has
      only quiet melds after it. */
  lemma {:induction false} AdviceDeck(seqs: seq<seq<Card>>, top: Card, n: nat)
    requires n <= |seqs|
    ensures Advice(seqs, top, n) == Some(StackDeck) <==>
              exists i | 0 <= i < n :: |seqs[i]| < 3 && top in seqs[i] && Quiet(seqs, top, i, n)
  {
    if n > 0 {
      var last := seqs[n - 1];
      if |last| >= 3 {
        assert StackDeck != StackDiscard;
        forall i | 0 <= i < n - 1 ensures !Quiet(seqs, top, i, n) {
          QuietExtend(seqs, top, i, n);
        }
      } else if top in last {
        assert Quiet(seqs, top, n - 1, n);
      } else {
        AdviceDeck(seqs, top, n - 1);
        forall i | 0 <= i < n - 1 ensures Quiet(seqs, top, i, n) == Quiet(seqs, top, i, n - 1) {
          QuietExtend(seqs, top, i, n);
        }
      }
    }
  }

  /** The reverse scan of Draw over the melds, with its early returns. */
  method TopCardStack(seqs: seq<seq<Card>>, top: Card) returns (stack: Option<Stack>)
    ensures stack == Advice(seqs, top, |seqs|)
  {
    var i := |seqs|;
    while i > 0
      invariant 0 <= i <= |seqs|
      invariant Advice(seqs, top, |seqs|) == Advice(seqs, top, i)
    {
      if |seqs[i - 1]| >= 3 {
        return Some(StackDiscard);
      }
      if top in seqs[i - 1] {
        return Some(StackDeck);
      }
      i := i - 1;
    }
    return None;
  }

  /** The request Draw calculates for: the hand with the top discard code appended, the
      same action, round and discard pile, and no other field set. */
  function Hypothetical(req: BotRequest): (h: BotRequest)
    requires |req.discard| >= 1
    ensures h.hand == req.hand + [req.discard[0]]
    ensures h.round == req.round && h.action == req.action && h.discard == req.discard
  {
    BotRequest(req.discard, req.hand + [req.discard[0]], req.action, "", 0, req.round, false)
  }

  /** The response Draw builds from the scan's advice. */
  function DrawAnswer(action: Action, advice: Option<Stack>): (r: Result<DrawResponse, string>)
    ensures r.Ok? <==> advice.Some?
    ensures r.Ok? ==> r.value.action == action && r.value.stack == advice.value
  {
    match advice
    case Some(stack) => Ok(DrawResponse(action, stack))
    case None => Err("did not find the top card in the sequences")
  }

  /** Draw: decode the top discard (the pile must not be empty), calculate the melds of the
      hand with that card added, and take the discard exactly when the scan says so. */
  method Draw(req: BotRequest, ext: Externals) returns (r: Result<DrawResponse, string>)
    requires |req.discard| >= 1 && BotsEncoding.DecodeCardDefined(req.discard[0])
    ensures BotsEncoding.DecodeCard(req.discard[0]).Err? ==>
              r == Err("unable to decode discard card: " + BotsEncoding.Message(BotsEncoding.DecodeCard(req.discard[0]).error))
    ensures BotsEncoding.DecodeCard(req.discard[0]).Ok? && ext.decodeCards(req.hand + [req.discard[0]]).Err? ==>
              r == Err("unable to hypothesise discard score: " + ("unable to decode cards: " + ext.decodeCards(req.hand + [req.discard[0]]).error))
    ensures BotsEncoding.DecodeCard(req.discard[0]).Ok? && ext.decodeCards(req.hand + [req.discard[0]]).Ok? ==>
              var top := BotsEncoding.DecodeCard(req.discard[0]).value;
              exists seqs :: Calculated(Hypothetical(req), ext, seqs) &&
                             r == DrawAnswer(req.action, Advice(seqs, top, |seqs|))
  {
    var topCard := BotsEncoding.DecodeCard(req.discard[0]);
    if topCard.Err? {
      return Err("unable to decode discard card: " + BotsEncoding.Message(topCard.error));
    }
    var hypothetical := Calculate(Hypothetical(req), ext);
    if hypothetical.Err? {
      return Err("unable to hypothesise discard score: " + hypothetical.error);
    }
    var seqs := hypothetical.value.sequences;
    var stack := TopCardStack(seqs, topCard.value);
    r := DrawAnswer(req.action, stack);
  }

  // ---------------------------------------------------------------------------------------
  // Discard

  /** The pick can be carried out: its meld exists, and unless that meld is a single card,
      so does the card at its place (slices.Delete panics otherwise). */
  predicate ValidPick(w: CardPick, seqs: seq<seq<Card>>)
  {
    && 0 <= w.sequenceIdx < |seqs|
    && (|seqs[w.sequenceIdx]| == 1 || 0 <= w.cardIdx < |seqs[w.sequenceIdx]|)
  }

  /** The melds after the pick is removed: a single-card meld goes as a whole and the melds
      after it move up; otherwise the card at the pick's place leaves its meld and every
      other meld stays as it was. */
  function Removed(seqs: seq<seq<Card>>, w: CardPick): (r: seq<seq<Card>>)
    requires ValidPick(w, seqs)
    ensures |seqs[w.sequenceIdx]| == 1 ==>
              && |r| == |seqs| - 1
              && forall k | 0 <= k < |r| :: r[k] == if k < w.sequenceIdx then seqs[k] else seqs[k + 1]
    ensures |seqs[w.sequenceIdx]| != 1 ==>
              && |r| == |seqs|
              && (forall k | 0 <= k < |r| && k != w.sequenceIdx :: r[k] == seqs[k])
              && |r[w.sequenceIdx]| == |seqs[w.sequenceIdx]| - 1
              && forall k | 0 <= k < |r[w.sequenceIdx]| ::
                   r[w.sequenceIdx][k] == if k < w.cardIdx then seqs[w.sequenceIdx][k] else seqs[w.sequenceIdx][k + 1]
  {
    var i := w.sequenceIdx;
    if |seqs[i]| == 1 then Delete(seqs, i) else seqs[i := Delete(seqs[i], w.cardIdx)]
  }

  /** The card that leaves the melds: the single card of a one-card meld, else the card at
      the pick's place. */
  function RemovedCard(seqs: seq<seq<Card>>, w: CardPick): Card
    requires ValidPick(w, seqs)
  {
    var i := w.sequenceIdx;
    if |seqs[i]| == 1 then seqs[i][0] else seqs[i][w.cardIdx]
  }

  lemma {:induction false} FlattenConcat(a: seq<seq<Card>>, b: seq<seq<Card>>)
    ensures Grugbot.Flatten(a + b) == Grugbot.Flatten(a) + Grugbot.Flatten(b)
  {
    if b != [] {
      FlattenConcat(a, b[..|b| - 1]);
      assert (a + b)[..|a + b| - 1] == a + b[..|b| - 1];
    } else {
      assert a + b == a;
    }
  }

  /** Around one meld, the flattened melds split into the melds before, that meld, and the
      melds after. */
  lemma FlattenAround(seqs: seq<seq<Card>>, i: nat, x: seq<Card>)
    requires i < |seqs|
    ensures multiset(Grugbot.Flatten(seqs[..i] + [x] + seqs[i + 1..])) ==
              multiset(Grugbot.Flatten(seqs[..i])) + multiset(x) + multiset(Grugbot.Flatten(seqs[i + 1..]))
  {
    FlattenConcat(seqs[..i] + [x], seqs[i + 1..]);
    FlattenConcat(seqs[..i], [x]);
    assert Grugbot.Flatten([x]) == Grugbot.Flatten([]) + x;
  }

  /** Deleting a one-card meld loses exactly its card. */
  lemma DeleteMeldLosesCard(seqs: seq<seq<Card>>, i: nat)
    requires i < |seqs| && |seqs[i]| == 1
    ensures multiset(Grugbot.Flatten(seqs[..i] + seqs[i + 1..])) + multiset{seqs[i][0]} ==
              multiset(Grugbot.Flatten(seqs))
  {
    assert seqs == seqs[..i] + [seqs[i]] + seqs[i + 1..];
    FlattenAround(seqs, i, seqs[i]);
    FlattenConcat(seqs[..i], seqs[i + 1..]);
    assert seqs[i] == [seqs[i][0]];
  }

  /** Deleting the card at index j of meld i loses exactly that card. */
  lemma DeleteCardLosesCard(seqs: seq<seq<Card>>, i: nat, j: nat)
    requires i < |seqs| && j < |seqs[i]|
    ensures multiset(Grugbot.Flatten(seqs[i := Delete(seqs[i], j)])) + multiset{seqs[i][j]} ==
              multiset(Grugbot.Flatten(seqs))
  {
    var meld := Delete(seqs[i], j);
    assert seqs == seqs[..i] + [seqs[i]] + seqs[i + 1..];
    assert seqs[i := meld] == seqs[..i] + [meld] + seqs[i + 1..];
    FlattenAround(seqs, i, seqs[i]);
    FlattenAround(seqs, i, meld);
  }

  /** Discarding loses exactly one card: the cards of the melds after the removal, with the
      removed card added back, are the cards of the melds before it. */
  lemma DiscardLosesOneCard(seqs: seq<seq<Card>>, w: CardPick)
    requires ValidPick(w, seqs)
    ensures multiset(Grugbot.Flatten(Removed(seqs, w))) + multiset{RemovedCard(seqs, w)} ==
              multiset(Grugbot.Flatten(seqs))
  {
    var i := w.sequenceIdx;
    if |seqs[i]| == 1 {
      DeleteMeldLosesCard(seqs, i);
    } else {
      DeleteCardLosesCard(seqs, i, w.cardIdx);
    }
  }

  /** The removal step of Discard: delete the one-card meld, or the card from its meld. */
  method RemovePick(seqs: seq<seq<Card>>, w: CardPick) returns (melds: seq<seq<Card>>)
    requires ValidPick(w, seqs)
    ensures melds == Removed(seqs, w)
  {
    var i := w.sequenceIdx;
    melds := seqs;
    if |melds[i]| == 1 {
      melds := Delete(melds, i);
    } else {
      melds := melds[i := Delete(melds[i], w.cardIdx)];
    }
  }

  /** The discard response: the melds left after the removal, encoded, with the flop decided
      from them, the discard action, and the code of the picked card. */
  function DiscardAnswer(seqs: seq<seq<Card>>, w: CardPick, ext: Externals): (r: DiscardResponse)
    requires ValidPick(w, seqs)
    ensures r.action == ActionDiscard && r.card == BotsEncoding.EncodeCard(w.card)
    ensures r.sequences == ext.encodeSequences(Removed(seqs, w)) && r.flop == ext.canFlop(Removed(seqs, w))
  {
    var left := Removed(seqs, w);
    DiscardResponse(ext.encodeSequences(left), ActionDiscard, BotsEncoding.EncodeCard(w.card), ext.canFlop(left))
  }

  /** Discard: calculate the melds, ask the worst-card rule for a card, and take it out of
      the melds in place. The pick must be one the melds can carry out, as slices.Delete
      requires. */
  method Discard(req: BotRequest, ext: Externals) returns (r: Result<DiscardResponse, string>)
    requires forall seqs | Calculated(req, ext, seqs) :: ValidPick(ext.worstCard(req.round, seqs, req.lastTurn), seqs)
    ensures ext.decodeCards(req.hand).Err? ==>
              r == Err("unable to calculate score: " + ("unable to decode cards: " + ext.decodeCards(req.hand).error))
    ensures ext.decodeCards(req.hand).Ok? ==>
              exists seqs :: Calculated(req, ext, seqs) &&
                             r == Ok(DiscardAnswer(seqs, ext.worstCard(req.round, seqs, req.lastTurn), ext))
  {
    var calculation := Calculate(req, ext);
    if calculation.Err? {
      return Err("unable to calculate score: " + calculation.error);
    }
    var seqs := calculation.value.sequences;
    var worst := ext.worstCard(req.round, seqs, req.lastTurn);
    var melds := RemovePick(seqs, worst);
    return Ok(DiscardResponse(ext.encodeSequences(melds), ActionDiscard, BotsEncoding.EncodeCard(worst.card), ext.canFlop(melds)));
  }
}
