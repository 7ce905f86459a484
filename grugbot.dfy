/** Grugbot (bots/grugbot/grugbot.go): the greedy meld engine. It counts the hand, lists
    candidate runs and sets (which may overlap), ranks them, commits them one by one against
    the count table, pads short ones with wild cards and emits whatever is left as single
    cards. */
module Grugbot {
  import opened Wrappers
  import opened Game
  import opened Slices
  import opened GameSorting
  import GameScoring
  import BotTypes

  /** The count table: Go's map[game.Card]int. */
  type Counts = map<Card, int>

  /** Reading the table as Go does: a missing card counts 0. */
  function Get(counts: Counts, c: Card): int
  {
    if c in counts then counts[c] else 0
  }

  /** The multiplicity table of a hand: one key per distinct card, mapped to its count. */
  function HandCounts(hand: seq<Card>): Counts
  {
    map c | c in hand :: multiset(hand)[c]
  }

  /** CardCounts: the table maps each card of the hand to the number of its occurrences and
      holds no other key. */
  method CardCounts(hand: seq<Card>) returns (counts: Counts)
    ensures counts == HandCounts(hand)
    ensures forall c :: Get(counts, c) == multiset(hand)[c]
  {
    counts := map[];
    for i := 0 to |hand|
      invariant counts == HandCounts(hand[..i])
    {
      HandCountsStep(hand, i);
      counts := counts[hand[i] := Get(counts, hand[i]) + 1];
    }
    assert hand[..|hand|] == hand;
  }

  /** One more card of the hand: one more on its count, or a new key with count 1. */
  lemma HandCountsStep(hand: seq<Card>, i: nat)
    requires i < |hand|
    ensures var before := HandCounts(hand[..i]);
            HandCounts(hand[..i + 1]) == before[hand[i] := Get(before, hand[i]) + 1]
  {
    var c := hand[i];
    var prefix := hand[..i + 1];
    assert prefix == hand[..i] + [c];
    var before := HandCounts(hand[..i]);
    var after := before[c := Get(before, c) + 1];
    var now := HandCounts(prefix);
    forall d ensures d in after <==> d in now {
      assert d in prefix <==> d in hand[..i] || d == c;
    }
    forall d | d in now ensures now[d] == after[d] {
      assert multiset(prefix)[d] == multiset(hand[..i])[d] + (if d == c then 1 else 0);
    }
    assert now == after;
  }

  // ---------------------------------------------------------------------------------------
  // Candidate runs

  /** The state of the run scan: the runs saved so far and the run being grown. */
  datatype Scan = Scan(runs: seq<seq<Card>>, cur: seq<Card>)

  /** One card of the run scan. A joker, or a card equal to the last one of the current run,
      is passed over; a card of the same suit one higher extends the run; any other card
      closes the run (saving it when it has at least two cards) and starts a new one. */
  function ScanStep(st: Scan, c: Card): (next: Scan)
    requires st.cur != []
    ensures next.cur != []
  {
    var pc := st.cur[|st.cur| - 1];
    if c.joker || c == pc then st
    else if c.suite == pc.suite && c.number == pc.number + 1 then Scan(st.runs, st.cur + [c])
    else Scan(if |st.cur| >= 2 then st.runs + [st.cur] else st.runs, [c])
  }

  /** The scan after the first n cards of the hand; it starts from the first card. */
  function ScanPrefix(hand: seq<Card>, n: nat): (st: Scan)
    requires 1 <= n <= |hand|
    ensures st.cur != []
  {
    if n == 1 then Scan([], [hand[0]]) else ScanStep(ScanPrefix(hand, n - 1), hand[n - 1])
  }

  /** The runs found in a hand: the saved runs, then the last one when it is long enough. */
  function Runs(hand: seq<Card>): seq<seq<Card>>
    requires hand != []
  {
    var st := ScanPrefix(hand, |hand|);
    if |st.cur| >= 2 then st.runs + [st.cur] else st.runs
  }

  /** A run: at least two cards, no joker, one suit, each number one more than the last. */
  predicate IsRun(r: seq<Card>)
  {
    && |r| >= 2
    && forall k | 0 <= k < |r| :: !r[k].joker && r[k].suite == r[0].suite && r[k].number == r[0].number + k
  }

  /** The run being grown: its cards come from the hand, share a suit and count up by one;
      a joker can only stand alone in it. */
  predicate GrowingRun(hand: seq<Card>, cur: seq<Card>)
  {
    && cur != []
    && (forall k | 0 <= k < |cur| :: cur[k] in hand)
    && (forall k | 0 <= k < |cur| :: cur[k].suite == cur[0].suite && cur[k].number == cur[0].number + k)
    && (forall k | 1 <= k < |cur| :: !cur[k].joker)
    && (cur[0].joker ==> |cur| == 1)
  }

  predicate RunsFromHand(hand: seq<Card>, runs: seq<seq<Card>>)
  {
    forall i | 0 <= i < |runs| :: IsRun(runs[i]) && forall k | 0 <= k < |runs[i]| :: runs[i][k] in hand
  }

  lemma {:induction false} ScanInvariant(hand: seq<Card>, n: nat)
    requires 1 <= n <= |hand|
    requires forall i | 0 <= i < |hand| :: ValidCard(hand[i])
    ensures RunsFromHand(hand, ScanPrefix(hand, n).runs)
    ensures GrowingRun(hand, ScanPrefix(hand, n).cur)
  {
    if n == 1 {
      assert hand[0] in hand;
    } else {
      ScanInvariant(hand, n - 1);
      assert forall x | x in hand :: ValidCard(x);
      ScanStepKeeps(hand, ScanPrefix(hand, n - 1), hand[n - 1]);
    }
  }

  /** One step of the scan with a valid card of the hand keeps the saved runs runs of hand
      cards and the current run growing. */
  lemma ScanStepKeeps(hand: seq<Card>, st: Scan, c: Card)
    requires RunsFromHand(hand, st.runs) && GrowingRun(hand, st.cur)
    requires c in hand && forall x | x in hand :: ValidCard(x)
    ensures RunsFromHand(hand, ScanStep(st, c).runs)
    ensures GrowingRun(hand, ScanStep(st, c).cur)
  {
    var pc := st.cur[|st.cur| - 1];
    if c.joker || c == pc {
    } else if c.suite == pc.suite && c.number == pc.number + 1 {
      var cur := st.cur + [c];
      assert ValidCard(pc) && ValidCard(c);
      assert forall k | 0 <= k < |st.cur| :: cur[k] == st.cur[k];
    } else if |st.cur| >= 2 {
      assert IsRun(st.cur);
      var runs := st.runs + [st.cur];
      assert forall i | 0 <= i < |st.runs| :: runs[i] == st.runs[i];
    }
  }

  /** Every run found in a hand of valid cards is a run of cards from the hand. */
  lemma RunsAreRuns(hand: seq<Card>)
    requires hand != []
    requires forall i | 0 <= i < |hand| :: ValidCard(hand[i])
    ensures RunsFromHand(hand, Runs(hand))
  {
    ScanInvariant(hand, |hand|);
  }

  /** A run holds no card twice: its numbers climb by one. */
  lemma RunDistinct(r: seq<Card>)
    requires IsRun(r)
    ensures forall i, j | 0 <= i < j < |r| :: r[i] != r[j]
  {
  }

  // ---------------------------------------------------------------------------------------
  // Candidate sets

  /** k copies of a card. */
  function Copies(c: Card, k: nat): (s: seq<Card>)
    ensures |s| == k
  {
    if k == 0 then [] else Copies(c, k - 1) + [c]
  }

  /** The set candidate for a number over the first k suits of the suit list: every copy in
      the hand of that number in each of those suits, suit by suit. */
  function SetFor(hand: seq<Card>, number: int, k: nat): seq<Card>
    requires k <= |Suites|
  {
    if k == 0 then []
    else
      var c := Card(false, number, Suites[k - 1]);
      SetFor(hand, number, k - 1) + Copies(c, multiset(hand)[c])
  }

  /** The set candidate for a number: its copies in the five suits, in the order of the list. */
  function SetCandidate(hand: seq<Card>, number: int): seq<Card>
  {
    SetFor(hand, number, |Suites|)
  }

  /** The set candidates for the numbers from 3 up to m - 1: those with at least two cards. */
  function SetsBelow(hand: seq<Card>, m: int): seq<seq<Card>>
    decreases m - 3
  {
    if m <= 3 then []
    else
      var s := SetCandidate(hand, m - 1);
      SetsBelow(hand, m - 1) + (if |s| >= 2 then [s] else [])
  }

  /** The set candidates: the loop over numbers stops before 13, so kings never form one. */
  function Sets(hand: seq<Card>): seq<seq<Card>>
  {
    SetsBelow(hand, 13)
  }

  lemma {:induction false} CopiesCount(c: Card, k: nat, d: Card)
    ensures multiset(Copies(c, k))[d] == if d == c then k else 0
  {
    if k > 0 {
      CopiesCount(c, k - 1, d);
    }
  }

  /** The rank of a suit rune in the suit list. */
  function SuiteRank(r: char): nat
  {
    if r == SuiteBlue then 0 else if r == SuiteGreen then 1 else if r == SuiteBlack then 2
    else if r == SuiteRed then 3 else 4
  }

  lemma SuiteRanks(k: nat)
    requires k < |Suites|
    ensures IsSuite(Suites[k]) && SuiteRank(Suites[k]) == k
  {
  }

  /** Over the first k suits the candidate holds every copy of the number in those suits and
      nothing else. */
  lemma {:induction false} SetForCount(hand: seq<Card>, number: int, k: nat, d: Card)
    requires k <= |Suites|
    ensures multiset(SetFor(hand, number, k))[d] ==
              if !d.joker && d.number == number && IsSuite(d.suite) && SuiteRank(d.suite) < k
              then multiset(hand)[d] else 0
  {
    if k > 0 {
      SetForCount(hand, number, k - 1, d);
      var c := Card(false, number, Suites[k - 1]);
      CopiesCount(c, multiset(hand)[c], d);
      SuiteRanks(k - 1);
      assert d == c <==> !d.joker && d.number == number && IsSuite(d.suite) && SuiteRank(d.suite) == k - 1;
    }
  }

  /** The set candidate for a number holds exactly the hand's copies of that number in the
      five suits. */
  lemma SetCandidateCards(hand: seq<Card>, number: int, d: Card)
    ensures multiset(SetCandidate(hand, number))[d] ==
              if !d.joker && d.number == number && IsSuite(d.suite) then multiset(hand)[d] else 0
  {
    SetForCount(hand, number, |Suites|, d);
  }

  /** Over the first k suits the candidate is grouped suit by suit in the order of the list. */
  lemma {:induction false} SetForGrouped(hand: seq<Card>, number: int, k: nat)
    requires k <= |Suites|
    ensures forall i | 0 <= i < |SetFor(hand, number, k)| ::
              IsSuite(SetFor(hand, number, k)[i].suite) && SuiteRank(SetFor(hand, number, k)[i].suite) < k
    ensures forall i, j | 0 <= i < j < |SetFor(hand, number, k)| ::
              SuiteRank(SetFor(hand, number, k)[i].suite) <= SuiteRank(SetFor(hand, number, k)[j].suite)
  {
    if k > 0 {
      SetForGrouped(hand, number, k - 1);
      var c := Card(false, number, Suites[k - 1]);
      var front, back := SetFor(hand, number, k - 1), Copies(c, multiset(hand)[c]);
      assert SetFor(hand, number, k) == front + back;
      SuiteRanks(k - 1);
      forall i | 0 <= i < |back| ensures back[i] == c {
        CopiesCount(c, |back|, back[i]);
        assert back[i] in multiset(back);
      }
    }
  }

  /** A set candidate is listed exactly for the numbers 3 to m - 1 whose candidate has at least
      two cards. */
  lemma {:induction false} SetsBelowMembers(hand: seq<Card>, m: int, s: seq<Card>)
    ensures s in SetsBelow(hand, m) <==> exists n | 3 <= n < m :: s == SetCandidate(hand, n) && |s| >= 2
    decreases m - 3
  {
    if m > 3 {
      SetsBelowMembers(hand, m - 1, s);
      if exists n | 3 <= n < m :: s == SetCandidate(hand, n) && |s| >= 2 {
        var n :| 3 <= n < m && s == SetCandidate(hand, n) && |s| >= 2;
        if n < m - 1 {
          assert s in SetsBelow(hand, m - 1);
        }
      }
    }
  }

  /** The set candidates are those for the numbers 3 to 12 with at least two cards. */
  lemma SetsMembers(hand: seq<Card>, s: seq<Card>)
    ensures s in Sets(hand) <==> exists n | 3 <= n <= 12 :: s == SetCandidate(hand, n) && |s| >= 2
  {
    SetsBelowMembers(hand, 13, s);
  }

  // ---------------------------------------------------------------------------------------
  // FindSequences

  /** The first half of FindSequences: the scan of the hand for runs. */
  method RunCandidates(hand: seq<Card>) returns (seqs: seq<seq<Card>>)
    requires hand != []
    ensures seqs == Runs(hand)
  {
    seqs := [];
    var curSeq := [hand[0]];
    for i := 1 to |hand|
      invariant Scan(seqs, curSeq) == ScanPrefix(hand, i)
    {
      var c := hand[i];
      var pc := curSeq[|curSeq| - 1];
      if c.joker || c == pc {
        continue;
      }
      if c.suite == pc.suite && c.number == pc.number + 1 {
        curSeq := curSeq + [c];
      } else {
        if |curSeq| >= 2 {
          seqs := seqs + [curSeq];
        }
        curSeq := [c];
      }
    }
    if |curSeq| >= 2 {
      seqs := seqs + [curSeq];
    }
  }

  /** The second half of FindSequences: for each number from 3 to 12, every copy of it in the
      hand, suit by suit, kept when there are at least two. */
  method SetCandidates(hand: seq<Card>) returns (seqs: seq<seq<Card>>)
    ensures seqs == Sets(hand)
  {
    seqs := [];
    var counts := CardCounts(hand);
    for number := 3 to 13
      invariant seqs == SetsBelow(hand, number)
    {
      var cur := CollectSet(hand, counts, number);
      if |cur| >= 2 {
        seqs := seqs + [cur];
      }
    }
  }

  /** The suit loop of the set search for one number: every copy of it in each suit. */
  method CollectSet(hand: seq<Card>, counts: Counts, number: int) returns (cur: seq<Card>)
    requires forall c :: Get(counts, c) == multiset(hand)[c]
    ensures cur == SetCandidate(hand, number)
  {
    cur := [];
    for k := 0 to |Suites|
      invariant cur == SetFor(hand, number, k)
    {
      var c := Card(false, number, Suites[k]);
      cur := AppendCard(cur, c, Get(counts, c));
    }
  }

  /** The innermost loop of the set search: `for range cardCounts[c]` appends n copies. */
  method AppendCard(cur: seq<Card>, c: Card, n: int) returns (more: seq<Card>)
    ensures more == cur + Copies(c, if n > 0 then n else 0)
  {
    more := cur;
    for t := 0 to (if n > 0 then n else 0)
      invariant more == cur + Copies(c, t)
    {
      more := more + [c];
    }
  }

  /** FindSequences: the runs of the hand followed by the set candidates. A hand must hold at
      least one card, since the scan starts from the first. */
  method FindSequences(hand: seq<Card>) returns (seqs: seq<seq<Card>>)
    requires hand != []
    ensures seqs == Runs(hand) + Sets(hand)
  {
    var runs := RunCandidates(hand);
    var sets := SetCandidates(hand);
    seqs := runs + sets;
  }

  // ---------------------------------------------------------------------------------------
  // Wild cards

  /** The round's wild card of the k-th suit of the list. */
  function RoundCard(round: int, k: nat): Card
    requires k < |Suites|
  {
    Card(false, round, Suites[k])
  }

  /** The counts of the round's wild cards in the first k suits, added up. */
  function SuitWilds(counts: Counts, round: int, k: nat): int
    requires k <= |Suites|
  {
    if k == 0 then 0 else SuitWilds(counts, round, k - 1) + Get(counts, RoundCard(round, k - 1))
  }

  /** What wildCount adds up: the jokers and the round's card in each of the five suits. */
  function WildTotal(counts: Counts, round: int): int
  {
    Get(counts, CardJoker) + SuitWilds(counts, round, |Suites|)
  }

  /** wildCount: the loop over the suits adds up exactly the wild total. */
  method WildCount(counts: Counts, round: int) returns (count: int)
    ensures count == WildTotal(counts, round)
  {
    count := 0;
    count := count + Get(counts, CardJoker);
    for k := 0 to |Suites|
      invariant count == Get(counts, CardJoker) + SuitWilds(counts, round, k)
    {
      var c := Card(false, round, Suites[k]);
      count := count + Get(counts, c);
    }
  }

  /** getWild's error. */
  datatype WildError = NoWildsFound

  /** The first of the round's cards, from the k-th suit on, that has a positive count. */
  function FirstRoundCard(counts: Counts, round: int, k: nat): Result<Card, WildError>
    requires k <= |Suites|
    decreases |Suites| - k
  {
    if k == |Suites| then Err(NoWildsFound)
    else if Get(counts, RoundCard(round, k)) > 0 then Ok(RoundCard(round, k))
    else FirstRoundCard(counts, round, k + 1)
  }

  /** The card getWild hands out: the joker while one is left, otherwise the round's card in
      the first suit of the list that is left. */
  function WildChoice(counts: Counts, round: int): Result<Card, WildError>
  {
    if Get(counts, CardJoker) > 0 then Ok(CardJoker) else FirstRoundCard(counts, round, 0)
  }

  /** getWild: the loop over the suits returns at the first round card left. */
  method GetWild(counts: Counts, round: int) returns (r: Result<Card, WildError>)
    ensures r == WildChoice(counts, round)
  {
    if Get(counts, CardJoker) > 0 {
      return Ok(CardJoker);
    }
    for k := 0 to |Suites|
      invariant FirstRoundCard(counts, round, 0) == FirstRoundCard(counts, round, k)
    {
      var c := Card(false, round, Suites[k]);
      if Get(counts, c) > 0 {
        return Ok(c);
      }
    }
    return Err(NoWildsFound);
  }

  lemma {:induction false} FirstRoundCardMeaning(counts: Counts, round: int, k: nat)
    requires k <= |Suites|
    ensures FirstRoundCard(counts, round, k).Err? <==>
              forall j | k <= j < |Suites| :: Get(counts, RoundCard(round, j)) <= 0
    ensures FirstRoundCard(counts, round, k).Ok? ==>
              exists j | k <= j < |Suites| ::
                && FirstRoundCard(counts, round, k).value == RoundCard(round, j)
                && Get(counts, RoundCard(round, j)) > 0
                && forall i | k <= i < j :: Get(counts, RoundCard(round, i)) <= 0
    decreases |Suites| - k
  {
    if k < |Suites| {
      FirstRoundCardMeaning(counts, round, k + 1);
      if FirstRoundCard(counts, round, k).Ok? && Get(counts, RoundCard(round, k)) <= 0 {
        var j :| k + 1 <= j < |Suites| &&
                 FirstRoundCard(counts, round, k + 1).value == RoundCard(round, j) &&
                 Get(counts, RoundCard(round, j)) > 0 &&
                 forall i | k + 1 <= i < j :: Get(counts, RoundCard(round, i)) <= 0;
        assert forall i | k <= i < j :: Get(counts, RoundCard(round, i)) <= 0;
      }
    }
  }

  /** getWild hands out the joker exactly when one is left; otherwise the round's card of the
      first suit in the list that is left; and an error exactly when no wild card is left.
      What it hands out is always wild in the round and left in the table. */
  lemma WildChoiceMeaning(counts: Counts, round: int)
    ensures WildChoice(counts, round) == Ok(CardJoker) <==> Get(counts, CardJoker) > 0
    ensures WildChoice(counts, round).Err? <==>
              Get(counts, CardJoker) <= 0 && forall j | 0 <= j < |Suites| :: Get(counts, RoundCard(round, j)) <= 0
    ensures WildChoice(counts, round).Ok? && !WildChoice(counts, round).value.joker ==>
              exists j | 0 <= j < |Suites| ::
                && WildChoice(counts, round).value == RoundCard(round, j)
                && Get(counts, RoundCard(round, j)) > 0
                && forall i | 0 <= i < j :: Get(counts, RoundCard(round, i)) <= 0
    ensures WildChoice(counts, round).Ok? ==>
              WildChoice(counts, round).value.IsWild(round) && Get(counts, WildChoice(counts, round).value) > 0
  {
    FirstRoundCardMeaning(counts, round, 0);
  }

  lemma {:induction false} SuitWildsPositive(counts: Counts, round: int, k: nat)
    requires k <= |Suites|
    requires SuitWilds(counts, round, k) > 0
    ensures exists j | 0 <= j < k :: Get(counts, RoundCard(round, j)) > 0
  {
    if Get(counts, RoundCard(round, k - 1)) <= 0 {
      SuitWildsPositive(counts, round, k - 1);
    }
  }

  /** A positive wild total means getWild finds a card, even when some counts have gone
      negative. */
  lemma WildTotalPositive(counts: Counts, round: int)
    requires WildTotal(counts, round) > 0
    ensures WildChoice(counts, round).Ok?
  {
    if Get(counts, CardJoker) <= 0 {
      SuitWildsPositive(counts, round, |Suites|);
      WildChoiceMeaning(counts, round);
    }
  }

  // ---------------------------------------------------------------------------------------
  // Ranking the candidates

  /** The comparison FilterSequences sorts by: candidates of three or more cards come first,
      and within each group the higher score comes first. */
  function CandidateCompare(a: seq<Card>, b: seq<Card>): int
  {
    if |a| < 3 && |b| >= 3 then 1
    else if |a| >= 3 && |b| < 3 then -1
    else GameScoring.SumOfCardScores(b) - GameScoring.SumOfCardScores(a)
  }

  /** The comparison is a consistent order on any list of candidates. */
  lemma CandidateCompareOrders(seqs: seq<seq<Card>>)
    ensures OrderOn(seqs, CandidateCompare)
  {
  }

  /** The ranked candidates: the sort run on the candidate list. */
  function Ranked(seqs: seq<seq<Card>>): (sorted: seq<seq<Card>>)
    ensures multiset(sorted) == multiset(seqs) && |sorted| == |seqs|
  {
    var sorted := SortFunc(seqs, CandidateCompare);
    assert |sorted| == |multiset(sorted)| == |multiset(seqs)| == |seqs|;
    sorted
  }

  /** After the ranking every candidate of three or more cards precedes every shorter one,
      and within each group the scores do not increase. */
  lemma RankedOrder(seqs: seq<seq<Card>>)
    ensures forall i, j | 0 <= i < j < |Ranked(seqs)| ::
              && (|Ranked(seqs)[j]| >= 3 ==> |Ranked(seqs)[i]| >= 3)
              && ((|Ranked(seqs)[i]| >= 3 <==> |Ranked(seqs)[j]| >= 3) ==>
                    GameScoring.SumOfCardScores(Ranked(seqs)[i]) >= GameScoring.SumOfCardScores(Ranked(seqs)[j]))
  {
    CandidateCompareOrders(seqs);
    var sorted := Ranked(seqs);
    assert SortedBy(sorted, CandidateCompare);
    forall i, j | 0 <= i < j < |sorted|
      ensures |sorted[j]| >= 3 ==> |sorted[i]| >= 3
      ensures (|sorted[i]| >= 3 <==> |sorted[j]| >= 3) ==>
                GameScoring.SumOfCardScores(sorted[i]) >= GameScoring.SumOfCardScores(sorted[j])
    {
      assert CandidateCompare(sorted[i], sorted[j]) <= 0;
    }
  }

  // ---------------------------------------------------------------------------------------
  // Committing the candidates

  /** Every card of the candidate has at least one copy left in the table. */
  predicate Available(counts: Counts, cand: seq<Card>)
  {
    forall i | 0 <= i < |cand| :: Get(counts, cand[i]) >= 1
  }

  /** A candidate being padded, with the table as the padding leaves it. */
  datatype Padded = Padded(cards: seq<Card>, counts: Counts)

  /** The card a padding step adds: getWild's card, or Go's zero Card when it finds none. */
  function PickWild(counts: Counts, round: int): Card
  {
    match WildChoice(counts, round)
    case Ok(c) => c
    case Err(_) => ZeroCard
  }

  /** The first n padding steps: each appends the picked card and takes the whole gap off
      that card's count. */
  function Pad(cand: seq<Card>, counts: Counts, round: int, gap: int, n: nat): (p: Padded)
    ensures |p.cards| == |cand| + n && p.cards[..|cand|] == cand
  {
    if n == 0 then Padded(cand, counts)
    else
      var p := Pad(cand, counts, round, gap, n - 1);
      var wc := PickWild(p.counts, round);
      Padded(p.cards + [wc], p.counts[wc := Get(p.counts, wc) - gap])
  }

  /** The table after one copy of each card of s has been taken off. */
  function Used(counts: Counts, s: seq<Card>): Counts
  {
    if s == [] then counts
    else
      var m := Used(counts, s[..|s| - 1]);
      m[s[|s| - 1] := Get(m, s[|s| - 1]) - 1]
  }

  /** Taking the cards of s off lowers each count by the number of copies in s. */
  lemma {:induction false} UsedGet(counts: Counts, s: seq<Card>, c: Card)
    ensures Get(Used(counts, s), c) == Get(counts, c) - multiset(s)[c]
  {
    if s != [] {
      UsedGet(counts, s[..|s| - 1], c);
      assert s == s[..|s| - 1] + [s[|s| - 1]];
    }
  }

  /** One candidate against the table: none when one of its cards has no copy left;
      otherwise the committed meld (padded to three cards with wilds when it is short and
      enough wilds are left) and the table with every card of the meld, padding included,
      taken off once more. */
  function Commit(counts: Counts, cand: seq<Card>, round: int): Option<Padded>
  {
    if !Available(counts, cand) then None
    else
      var gap := 3 - |cand|;
      var p := if gap > 0 && WildTotal(counts, round) >= gap then Pad(cand, counts, round, gap, gap)
               else Padded(cand, counts);
      Some(Padded(p.cards, Used(p.counts, p.cards)))
  }

  /** Commit leaves the candidate as it is: it has three or more cards, or the wilds left
      do not cover its gap. */
  predicate Unpadded(counts: Counts, cand: seq<Card>, round: int)
  {
    |cand| >= 3 || WildTotal(counts, round) < 3 - |cand|
  }

  /** The melds committed so far and the table. */
  datatype FilterState = FilterState(filtered: seq<seq<Card>>, counts: Counts)

  /** One step of the greedy pass: a skipped candidate leaves the state alone, a committed
      one is appended. */
  function CommitOne(st: FilterState, cand: seq<Card>, round: int): FilterState
  {
    match Commit(st.counts, cand, round)
    case None => st
    case Some(p) => FilterState(st.filtered + [p.cards], p.counts)
  }

  /** The first n candidates committed in order from the initial table. */
  function CommitAll(cands: seq<seq<Card>>, counts: Counts, round: int, n: nat): FilterState
    requires n <= |cands|
  {
    if n == 0 then FilterState([], counts) else CommitOne(CommitAll(cands, counts, round, n - 1), cands[n - 1], round)
  }

  /** What the greedy pass over the ranked candidates leaves, starting from the hand's table. */
  function Committed(round: int, hand: seq<Card>, seqs: seq<seq<Card>>): FilterState
  {
    CommitAll(Ranked(seqs), HandCounts(hand), round, |seqs|)
  }

  /** The leftovers: one single-card meld for each card whose count is still positive, each
      once, in no particular order (Go's map order). */
  predicate LeftoverSingles(left: seq<seq<Card>>, counts: Counts)
  {
    && (forall i | 0 <= i < |left| :: |left[i]| == 1 && left[i][0] in counts && counts[left[i][0]] > 0)
    && (forall i, j | 0 <= i < j < |left| :: left[i] != left[j])
    && (forall c | c in counts && counts[c] > 0 :: [c] in left)
  }

  /** The result of FilterSequences: the committed melds in order, then the leftovers. */
  ghost predicate FilterOutcome(round: int, hand: seq<Card>, seqs: seq<seq<Card>>, filtered: seq<seq<Card>>)
  {
    var st := Committed(round, hand, seqs);
    && |st.filtered| <= |filtered|
    && filtered[..|st.filtered|] == st.filtered
    && LeftoverSingles(filtered[|st.filtered|..], st.counts)
  }

  /** The availability check of FilterSequences: stops at the first card without a copy left. */
  method CheckAvailable(counts: Counts, meld: seq<Card>) returns (valid: bool)
    ensures valid == Available(counts, meld)
  {
    valid := true;
    for i := 0 to |meld|
      invariant forall j | 0 <= j < i :: Get(counts, meld[j]) >= 1
    {
      if Get(counts, meld[i]) < 1 {
        valid := false;
        break;
      }
    }
  }

  /** The padding loop of FilterSequences: gap rounds of getWild, each appending the card and
      taking the whole gap off its count. */
  method PadMeld(meld: seq<Card>, counts: Counts, round: int, gap: nat) returns (padded: seq<Card>, left: Counts)
    ensures Padded(padded, left) == Pad(meld, counts, round, gap, gap)
  {
    padded, left := meld, counts;
    for j := 0 to gap
      invariant Padded(padded, left) == Pad(meld, counts, round, gap, j)
    {
      var r := GetWild(left, round);
      var wc := if r.Ok? then r.value else ZeroCard;
      padded := padded + [wc];
      left := left[wc := Get(left, wc) - gap];
    }
  }

  /** The decrement loop of FilterSequences: one copy of each card of the meld comes off. */
  method TakeOff(counts: Counts, meld: seq<Card>) returns (left: Counts)
    ensures left == Used(counts, meld)
  {
    left := counts;
    for i := 0 to |meld|
      invariant left == Used(counts, meld[..i])
    {
      assert meld[..i + 1][..i] == meld[..i];
      left := left[meld[i] := Get(left, meld[i]) - 1];
    }
    assert meld[..|meld|] == meld;
  }

  /** One pass of the loop of FilterSequences: check the candidate, pad it when it is short
      and wilds allow, append it and take its cards off. */
  method CommitCandidate(filtered: seq<seq<Card>>, counts: Counts, cand: seq<Card>, round: int)
    returns (filtered': seq<seq<Card>>, counts': Counts)
    ensures FilterState(filtered', counts') == CommitOne(FilterState(filtered, counts), cand, round)
  {
    filtered', counts' := filtered, counts;
    var meld := cand;
    var valid := CheckAvailable(counts', meld);
    if !valid {
      return;
    }
    var gap := 3 - |meld|;
    var padding := false;
    if gap > 0 {
      var wilds := WildCount(counts', round);
      padding := wilds >= gap;
    }
    if padding {
      meld, counts' := PadMeld(meld, counts', round, gap);
    }
    filtered' := filtered' + [meld];
    counts' := TakeOff(counts', meld);
  }

  /** FilterSequences: ranks the candidates, commits them greedily against the hand's table
      with wild padding, then appends a single-card meld for each card still left. */
  method FilterSequences(round: int, hand: seq<Card>, seqs: seq<seq<Card>>) returns (filtered: seq<seq<Card>>)
    ensures FilterOutcome(round, hand, seqs, filtered)
  {
    var sorted := Ranked(seqs);
    filtered := [];
    var counts := CardCounts(hand);
    for k := 0 to |sorted|
      invariant FilterState(filtered, counts) == CommitAll(sorted, HandCounts(hand), round, k)
    {
      filtered, counts := CommitCandidate(filtered, counts, sorted[k], round);
    }
    filtered := AppendLeftovers(filtered, counts);
  }

  /** The last loop of FilterSequences: a single-card meld for each card of the table whose
      count is still positive, in the table's (unspecified) iteration order. */
  method AppendLeftovers(done: seq<seq<Card>>, counts: Counts) returns (filtered: seq<seq<Card>>)
    ensures |done| <= |filtered| && filtered[..|done|] == done
    ensures LeftoverSingles(filtered[|done|..], counts)
  {
    filtered := done;
    var keys := counts.Keys;
    while keys != {}
      invariant keys <= counts.Keys
      invariant |done| <= |filtered| && filtered[..|done|] == done
      invariant forall i | |done| <= i < |filtered| ::
                  |filtered[i]| == 1 && filtered[i][0] in counts && counts[filtered[i][0]] > 0 && filtered[i][0] !in keys
      invariant forall i, j | |done| <= i < j < |filtered| :: filtered[i] != filtered[j]
      invariant forall c | c in counts && counts[c] > 0 && c !in keys :: [c] in filtered[|done|..]
      decreases |keys|
    {
      var card :| card in keys;
      keys := keys - {card};
      if counts[card] > 0 {
        ghost var prev := filtered;
        filtered := filtered + [[card]];
        assert filtered[|done|..] == prev[|done|..] + [[card]];
      }
    }
  }

  // ---------------------------------------------------------------------------------------
  // What committing a candidate does

  /** A candidate is skipped exactly when one of its cards has no copy left. A committed meld
      starts with the candidate and is padded to exactly three cards when, and only when, it
      is short and the wild total covers the gap. */
  lemma CommitRule(counts: Counts, cand: seq<Card>, round: int)
    ensures Commit(counts, cand, round).None? <==> exists i | 0 <= i < |cand| :: Get(counts, cand[i]) < 1
    ensures Commit(counts, cand, round).Some? ==>
              && Commit(counts, cand, round).value.cards[..|cand|] == cand
              && |Commit(counts, cand, round).value.cards| ==
                   if 3 - |cand| > 0 && WildTotal(counts, round) >= 3 - |cand| then 3 else |cand|
  {
  }

  /** A candidate that is not padded (three or more cards, or too few wilds left to fill
      the gap) is committed as it is when available, and each of its cards loses one copy. */
  lemma CommitFull(counts: Counts, cand: seq<Card>, round: int, c: Card)
    requires Unpadded(counts, cand, round) && Available(counts, cand)
    ensures Commit(counts, cand, round).Some?
    ensures Commit(counts, cand, round).value.cards == cand
    ensures Get(Commit(counts, cand, round).value.counts, c) == Get(counts, c) - multiset(cand)[c]
  {
    UsedGet(counts, cand, c);
  }

  /** A two-card candidate with a wild left gets getWild's card as its third card; that card
      is wild in the round, and its count drops by two on top of any copies in the candidate:
      once for the gap and once more with the rest of the meld. */
  lemma CommitPadsWithWild(counts: Counts, cand: seq<Card>, round: int, c: Card)
    requires |cand| == 2 && Available(counts, cand) && WildTotal(counts, round) >= 1
    ensures WildChoice(counts, round).Ok? && WildChoice(counts, round).value.IsWild(round)
    ensures Commit(counts, cand, round).Some?
    ensures Commit(counts, cand, round).value.cards == cand + [WildChoice(counts, round).value]
    ensures Get(Commit(counts, cand, round).value.counts, c) ==
              Get(counts, c) - multiset(cand)[c] - (if c == WildChoice(counts, round).value then 2 else 0)
  {
    WildTotalPositive(counts, round);
    WildChoiceMeaning(counts, round);
    var w := WildChoice(counts, round).value;
    var p := Pad(cand, counts, round, 1, 1);
    assert Pad(cand, counts, round, 1, 0) == Padded(cand, counts);
    assert p.cards == cand + [w];
    UsedGet(p.counts, p.cards, c);
    assert multiset(cand + [w])[c] == multiset(cand)[c] + (if c == w then 1 else 0);
  }

  // ---------------------------------------------------------------------------------------
  // Conservation of cards

  /** No card appears twice. */
  predicate NoRepeats(s: seq<Card>)
  {
    forall i, j | 0 <= i < j < |s| :: s[i] != s[j]
  }

  /** The cards of a list of melds, meld after meld. */
  function Flatten(melds: seq<seq<Card>>): seq<Card>
  {
    if melds == [] then [] else Flatten(melds[..|melds| - 1]) + melds[|melds| - 1]
  }

  lemma {:induction false} NoRepeatsCount(s: seq<Card>, c: Card)
    requires NoRepeats(s)
    ensures multiset(s)[c] <= 1
    ensures multiset(s)[c] == 1 ==> exists i | 0 <= i < |s| :: s[i] == c
  {
    if s != [] {
      var init := s[..|s| - 1];
      assert s == init + [s[|s| - 1]];
      NoRepeatsCount(init, c);
      if s[|s| - 1] == c {
        assert forall i | 0 <= i < |init| :: init[i] == s[i] && s[i] != s[|s| - 1];
      }
    }
  }

  /** The accounting the greedy pass keeps when it conserves cards: for every card, its copies
      in the committed melds plus its remaining count give its initial count, and no count
      is negative. */
  ghost predicate Conserved(st: FilterState, counts: Counts)
  {
    forall c :: 0 <= Get(st.counts, c) && multiset(Flatten(st.filtered))[c] + Get(st.counts, c) == Get(counts, c)
  }

  lemma ConserveStep(st: FilterState, cand: seq<Card>, round: int, counts: Counts)
    requires Unpadded(st.counts, cand, round) && NoRepeats(cand)
    requires Conserved(st, counts)
    ensures Conserved(CommitOne(st, cand, round), counts)
    ensures CommitOne(st, cand, round).filtered == st.filtered ||
            CommitOne(st, cand, round).filtered == st.filtered + [cand]
  {
    if Available(st.counts, cand) {
      var next := CommitOne(st, cand, round);
      assert next.filtered == st.filtered + [cand] by {
        CommitFull(st.counts, cand, round, CardJoker);
      }
      assert Flatten(next.filtered) == Flatten(st.filtered) + cand;
      forall c
        ensures 0 <= Get(next.counts, c)
        ensures multiset(Flatten(next.filtered))[c] + Get(next.counts, c) == Get(counts, c)
      {
        CommitFull(st.counts, cand, round, c);
        NoRepeatsCount(cand, c);
      }
    }
  }

  /** Without repeated cards and without padding (every candidate has three or more cards,
      or is shorter than the initial wild total can fill, which holds all along since counts
      only fall) the greedy pass conserves cards, starting from a table without negative
      counts, and every committed meld is one of the candidates. */
  /** The wild total only falls when no count rises. */
  lemma {:induction false} SuitWildsMono(a: Counts, b: Counts, round: int, k: nat)
    requires k <= |Suites|
    requires forall c :: Get(a, c) <= Get(b, c)
    ensures SuitWilds(a, round, k) <= SuitWilds(b, round, k)
  {
    if k > 0 {
      SuitWildsMono(a, b, round, k - 1);
      assert Get(a, RoundCard(round, k - 1)) <= Get(b, RoundCard(round, k - 1));
    }
  }

  lemma WildTotalMono(a: Counts, b: Counts, round: int)
    requires forall c :: Get(a, c) <= Get(b, c)
    ensures WildTotal(a, round) <= WildTotal(b, round)
  {
    SuitWildsMono(a, b, round, |Suites|);
  }

  /** A candidate that the initial table would not pad is not padded later either, since
      under the accounting no count has risen. */
  lemma StaysUnpadded(st: FilterState, counts: Counts, cand: seq<Card>, round: int)
    requires Conserved(st, counts) && Unpadded(counts, cand, round)
    ensures Unpadded(st.counts, cand, round)
  {
    forall c ensures Get(st.counts, c) <= Get(counts, c) {
      assert multiset(Flatten(st.filtered))[c] >= 0;
    }
    WildTotalMono(st.counts, counts, round);
  }

  lemma {:induction false} CommitAllConserves(cands: seq<seq<Card>>, counts: Counts, round: int, n: nat)
    requires n <= |cands|
    requires forall cand | cand in cands :: Unpadded(counts, cand, round) && NoRepeats(cand)
    requires forall c :: Get(counts, c) >= 0
    ensures Conserved(CommitAll(cands, counts, round, n), counts)
    ensures forall i | 0 <= i < |CommitAll(cands, counts, round, n).filtered| ::
              CommitAll(cands, counts, round, n).filtered[i] in cands
  {
    if n > 0 {
      CommitAllConserves(cands, counts, round, n - 1);
      var st := CommitAll(cands, counts, round, n - 1);
      var cand := cands[n - 1];
      assert cand in cands;
      StaysUnpadded(st, counts, cand, round);
      ConserveStep(st, cand, round, counts);
      var next := CommitOne(st, cand, round);
      assert CommitAll(cands, counts, round, n) == next;
      forall i | 0 <= i < |next.filtered| ensures next.filtered[i] in cands {
        if i < |st.filtered| {
          assert next.filtered[i] == st.filtered[i];
        }
      }
    }
  }

  /** Under the conserving accounting no meld takes more copies than the table started with,
      every leftover card was in the initial table, and every card of the initial table is
      committed or left over. */
  lemma ConservedOutcome(st: FilterState, counts: Counts, filtered: seq<seq<Card>>)
    requires |st.filtered| <= |filtered| && filtered[..|st.filtered|] == st.filtered
    requires Conserved(st, counts) && LeftoverSingles(filtered[|st.filtered|..], st.counts)
    ensures forall c :: multiset(Flatten(filtered[..|st.filtered|]))[c] <= Get(counts, c)
    ensures forall i | |st.filtered| <= i < |filtered| :: |filtered[i]| == 1 && Get(counts, filtered[i][0]) > 0
    ensures forall c | Get(counts, c) > 0 ::
              c in Flatten(filtered[..|st.filtered|]) || [c] in filtered[|st.filtered|..]
  {
    var n := |st.filtered|;
    var left := filtered[n..];
    forall i | n <= i < |filtered| ensures |filtered[i]| == 1 && Get(counts, filtered[i][0]) > 0 {
      assert filtered[i] == left[i - n];
      assert Get(st.counts, left[i - n][0]) > 0;
    }
    forall c | Get(counts, c) > 0 ensures c in Flatten(st.filtered) || [c] in left {
      if c !in Flatten(st.filtered) {
        assert c in st.counts && st.counts[c] > 0;
      }
    }
  }

  lemma HandCountsGet(hand: seq<Card>)
    ensures forall c :: Get(HandCounts(hand), c) == multiset(hand)[c]
  {
  }

  lemma RankedFromCandidates(seqs: seq<seq<Card>>)
    ensures forall x | x in Ranked(seqs) :: x in seqs
  {
    var sorted := Ranked(seqs);
    forall x | x in sorted ensures x in seqs {
      assert x in multiset(sorted);
    }
  }

  /** For candidates without repeated cards that are never padded (three or more cards, or
      fewer wilds in the hand than their gap), FilterSequences neither invents nor loses
      cards: the committed melds take no card more often than the
      hand holds it, every committed meld is a candidate, every leftover comes from the hand,
      and every card of the hand is in a committed meld or is a leftover. */
  lemma FilterConservation(round: int, hand: seq<Card>, seqs: seq<seq<Card>>, filtered: seq<seq<Card>>)
    requires FilterOutcome(round, hand, seqs, filtered)
    requires forall cand | cand in seqs :: Unpadded(HandCounts(hand), cand, round) && NoRepeats(cand)
    ensures var n := |Committed(round, hand, seqs).filtered|;
            && multiset(Flatten(filtered[..n])) <= multiset(hand)
            && (forall i | 0 <= i < n :: filtered[i] in seqs)
            && (forall i | n <= i < |filtered| :: filtered[i][0] in hand)
            && (forall c | c in hand :: c in Flatten(filtered[..n]) || [c] in filtered[n..])
  {
    var sorted := Ranked(seqs);
    var init := HandCounts(hand);
    RankedFromCandidates(seqs);
    CommitAllConserves(sorted, init, round, |sorted|);
    var st := Committed(round, hand, seqs);
    var n := |st.filtered|;
    ConservedOutcome(st, init, filtered);
    HandCountsGet(hand);
    forall i | 0 <= i < n ensures filtered[i] in seqs {
      assert filtered[i] == st.filtered[i];
      assert st.filtered[i] in sorted;
    }
  }

  // ---------------------------------------------------------------------------------------
  // Where the code as written departs from its intent

  lemma CommitAllFirst(cands: seq<seq<Card>>, counts: Counts, round: int)
    requires |cands| >= 1
    ensures CommitAll(cands, counts, round, 1) == CommitOne(FilterState([], counts), cands[0], round)
  {
    assert CommitAll(cands, counts, round, 0) == FilterState([], counts);
  }

  lemma CommitOneTaken(st: FilterState, cand: seq<Card>, round: int)
    requires Commit(st.counts, cand, round).Some?
    ensures CommitOne(st, cand, round) ==
              FilterState(st.filtered + [Commit(st.counts, cand, round).value.cards], Commit(st.counts, cand, round).value.counts)
  {
  }

  lemma ScoreOfThree(a: Card, b: Card, c: Card)
    ensures GameScoring.SumOfCardScores([a, b, c]) ==
              GameScoring.ScoreCard(a) + GameScoring.ScoreCard(b) + GameScoring.ScoreCard(c)
  {
    assert [a, b, c][..2] == [a, b];
    assert [a, b][..1] == [a];
    assert [a][..0] == [];
    assert GameScoring.SumOfCardScores([a]) == GameScoring.ScoreCard(a);
    assert GameScoring.SumOfCardScores([a, b]) == GameScoring.ScoreCard(a) + GameScoring.ScoreCard(b);
  }

  lemma {:induction false} SuitWildsAbsent(counts: Counts, round: int, k0: nat, k: nat)
    requires k0 <= k <= |Suites|
    requires forall j | k0 <= j < k :: RoundCard(round, j) !in counts
    ensures SuitWilds(counts, round, k) == SuitWilds(counts, round, k0)
  {
    if k > k0 {
      SuitWildsAbsent(counts, round, k0, k - 1);
    }
  }

  /** The candidates of the hand 3-B, 3-X, 3-X, 4-X, 5-X: the run 3-X 4-X 5-X (12 points)
      ranks before the set 3-B 3-X 3-X (9 points). */
  lemma RankedExample()
    ensures var b3, x3, x4, x5 := Card(false, 3, 'B'), Card(false, 3, 'X'), Card(false, 4, 'X'), Card(false, 5, 'X');
            Ranked([[x3, x4, x5], [b3, x3, x3]]) == [[x3, x4, x5], [b3, x3, x3]]
  {
    var b3, x3, x4, x5 := Card(false, 3, 'B'), Card(false, 3, 'X'), Card(false, 4, 'X'), Card(false, 5, 'X');
    var run, triple := [x3, x4, x5], [b3, x3, x3];
    var cands := [run, triple];
    ScoreOfThree(x3, x4, x5);
    ScoreOfThree(b3, x3, x3);
    assert CandidateCompare(triple, run) == 3;
    assert cands[..1] == [run] && [run][..0] == [];
    assert SortFunc([run], CandidateCompare) == [run];
    assert SortFunc(cands, CandidateCompare) == InsertLast([run], triple, CandidateCompare);
  }

  /** A candidate that holds one card twice is checked card by card against a count of at
      least one, so it is committed even when the hand has only one copy left. With the hand
      3-B, 3-X, 3-X, 4-X, 5-X in round 6 the run 3-X 4-X 5-X is committed first (see
      RankedExample), and then the set 3-B 3-X 3-X is committed too, with a single 3-X left:
      3-X is placed three times though the hand holds two, and its count ends at -1. */
  lemma ReusedCardExample()
    ensures var b3, x3, x4, x5 := Card(false, 3, 'B'), Card(false, 3, 'X'), Card(false, 4, 'X'), Card(false, 5, 'X');
            var cands := [[x3, x4, x5], [b3, x3, x3]];
            var st := CommitAll(cands, map[b3 := 1, x3 := 2, x4 := 1, x5 := 1], 6, 2);
            && st.filtered == cands
            && Get(st.counts, x3) == -1
  {
    var b3, x3, x4, x5 := Card(false, 3, 'B'), Card(false, 3, 'X'), Card(false, 4, 'X'), Card(false, 5, 'X');
    var run, triple := [x3, x4, x5], [b3, x3, x3];
    var cands := [run, triple];
    var m0 := map[b3 := 1, x3 := 2, x4 := 1, x5 := 1];
    ReusedCardFirst();
    var st1 := CommitAll(cands, m0, 6, 1);
    assert Available(st1.counts, triple);
    CommitFull(st1.counts, triple, 6, x3);
    assert multiset(triple)[x3] == 2;
    CommitOneTaken(st1, triple, 6);
  }

  /** The first step of ReusedCardExample: the run is committed and leaves one 3-X and the
      3-B. */
  lemma ReusedCardFirst()
    ensures var b3, x3, x4, x5 := Card(false, 3, 'B'), Card(false, 3, 'X'), Card(false, 4, 'X'), Card(false, 5, 'X');
            var st := CommitAll([[x3, x4, x5], [b3, x3, x3]], map[b3 := 1, x3 := 2, x4 := 1, x5 := 1], 6, 1);
            && st.filtered == [[x3, x4, x5]]
            && Get(st.counts, x3) == 1 && Get(st.counts, b3) == 1
  {
    var b3, x3, x4, x5 := Card(false, 3, 'B'), Card(false, 3, 'X'), Card(false, 4, 'X'), Card(false, 5, 'X');
    var run, triple := [x3, x4, x5], [b3, x3, x3];
    var m0 := map[b3 := 1, x3 := 2, x4 := 1, x5 := 1];
    assert Available(m0, run);
    CommitFull(m0, run, 6, x3);
    CommitFull(m0, run, 6, b3);
    CommitAllFirst([run, triple], m0, 6);
    CommitOneTaken(FilterState([], m0), run, 6);
  }

  /** A wild used for padding loses its copy twice: once for the gap and once more with the
      rest of the meld. With the hand 4-B, 5-B and two jokers in round 10 the run 4-B 5-B is
      padded with one joker, yet the joker count drops to 0, so the second joker is neither
      in a meld nor among the leftovers. */
  lemma PaddingTakesWildTwiceExample()
    ensures var b4, b5 := Card(false, 4, 'B'), Card(false, 5, 'B');
            var st := CommitAll([[b4, b5]], map[b4 := 1, b5 := 1, CardJoker := 2], 10, 1);
            && st.filtered == [[b4, b5, CardJoker]]
            && Get(st.counts, CardJoker) == 0
            && forall left | LeftoverSingles(left, st.counts) :: [CardJoker] !in left
  {
    var b4, b5 := Card(false, 4, 'B'), Card(false, 5, 'B');
    var m0 := map[b4 := 1, b5 := 1, CardJoker := 2];
    SuitWildsAbsent(m0, 10, 0, |Suites|);
    assert WildTotal(m0, 10) == 2;
    assert WildChoice(m0, 10) == Ok(CardJoker);
    assert Available(m0, [b4, b5]);
    CommitPadsWithWild(m0, [b4, b5], 10, CardJoker);
    var st := CommitAll([[b4, b5]], m0, 10, 1);
    CommitAllFirst([[b4, b5]], m0, 10);
    CommitOneTaken(FilterState([], m0), [b4, b5], 10);
    assert [b4, b5] + [CardJoker] == [b4, b5, CardJoker];
    assert [] + [[b4, b5, CardJoker]] == [[b4, b5, CardJoker]];
    assert Get(st.counts, CardJoker) == 0;
  }

  /** The round's own card can pad the meld it already belongs to. With the hand 7-B, 8-B in
      round 7 the run 7-B 8-B is padded with 7-B itself, giving the meld 7-B 8-B 7-B from a
      hand with one 7-B, whose count ends at -2. */
  lemma RoundCardPadsItselfExample()
    ensures var b7, b8 := Card(false, 7, 'B'), Card(false, 8, 'B');
            var st := CommitAll([[b7, b8]], map[b7 := 1, b8 := 1], 7, 1);
            && st.filtered == [[b7, b8, b7]]
            && Get(st.counts, b7) == -2
  {
    var b7, b8 := Card(false, 7, 'B'), Card(false, 8, 'B');
    var m0 := map[b7 := 1, b8 := 1];
    assert RoundCard(7, 0) == b7;
    SuitWildsAbsent(m0, 7, 1, |Suites|);
    assert SuitWilds(m0, 7, 1) == 1;
    assert WildTotal(m0, 7) == 1;
    assert WildChoice(m0, 7) == Ok(b7);
    assert Available(m0, [b7, b8]);
    CommitPadsWithWild(m0, [b7, b8], 7, b7);
    CommitAllFirst([[b7, b8]], m0, 7);
    CommitOneTaken(FilterState([], m0), [b7, b8], 7);
    assert [b7, b8] + [b7] == [b7, b8, b7];
    assert [] + [[b7, b8, b7]] == [[b7, b8, b7]];
  }

  // ---------------------------------------------------------------------------------------
  // The bot

  /** grugBot.Score: decode the hand, sort it, find the candidates, filter them, and answer
      with the request's action, no flop, and the encoded melds. The card decoder and the meld
      encoder of package game are not part of this model and come in as parameters; a
      decoded hand must not be empty, since the run scan starts from its first card. */
  method Score(req: BotTypes.BotRequest,
               decodeCards: seq<string> -> Result<seq<Card>, string>,
               encodeSequences: seq<seq<Card>> -> seq<seq<string>>)
    returns (r: Result<BotTypes.ScoreResponse, string>)
    requires decodeCards(req.hand).Ok? ==> decodeCards(req.hand).value != []
    ensures decodeCards(req.hand).Err? ==> r == Err("unable to decode cards: " + decodeCards(req.hand).error)
    ensures decodeCards(req.hand).Ok? ==>
              var hand := SortCards(decodeCards(req.hand).value);
              && hand != []
              && r.Ok? && r.value.action == req.action && !r.value.flop
              && exists melds :: FilterOutcome(req.round, hand, Runs(hand) + Sets(hand), melds) &&
                                 r.value.sequences == encodeSequences(melds)
  {
    var decoded := decodeCards(req.hand);
    if decoded.Err? {
      return Err("unable to decode cards: " + decoded.error);
    }
    var hand := SortCards(decoded.value);
    assert |hand| == |multiset(hand)| == |decoded.value|;
    var seqs := FindSequences(hand);
    seqs := FilterSequences(req.round, hand, seqs);
    return Ok(BotTypes.ScoreResponse(encodeSequences(seqs), req.action, false));
  }
}
