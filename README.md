# fivecrowns bots — a Dafny model

Five Crowns is a rummy game: a hand of cards is laid out as melds, which are runs of one suit
or sets of one number. Five suits and the numbers 3 to 13 make up the deck, plus jokers, and in
each round the card whose number equals the round is wild. The repository answers the game
server with bots. Each bot decodes the hand from text codes ("10-R", "*"), looks for melds,
and answers a draw, discard or score request.

This project models the core of those bots:

- **game** (`game.dfy`, `game_sorting.dfy`, `game_scoring.dfy`): the card, the wild rule, the
  card order the hands are sorted in, and card and sequence scores.
- **bots** (`bots_encoding.dfy`, `bots_scoring.dfy`, `bot_types.dfy`): the text codec for
  cards and sequences, the bots' own sequence score, and the request and response records.
- **grugbot** (`grugbot.dfy`): the greedy meld engine. It counts the hand, lists run and set
  candidates, ranks them, commits them against the count table (padding short melds with
  wild cards), and returns the leftovers as single-card melds.
- **bigbrainbot** (`bigbrainbot.dfy`): draw, discard and score built on the grug engine.
- **smoothbrainbot / stupidbot** (`singleton_bots.dfy`): a coin-flip draw, a random discard,
  and a score that keeps every card on its own.
- **math** (`math_min.dfy`): the generic minimum.
- **arena/engine.js** (`arena_engine.dfy`): the deck builder, JavaScript's `parseInt`,
  `decodeCard` and `scoreSequence`.
- **old-script.js** (`old_script.dfy`): the exhaustive meld search. It covers the card index
  built from a hand and the leaf score. It also covers `getSequences`, which records each
  card's run and set, and `permuteSequence` and `permuteSet`, which expand those into every
  window or order-preserving sub-list.

Support modules:

- `wrappers.dfy`: Option and Result.
- `strings.dfy`: Go's `strings.Split`, `strings.SplitN`, `strconv.Atoi` and decimal rendering.
- `slices.dfy`: Go's `slices.SortFunc` and `slices.Delete`.
- `subsequences.dfy`: order-preserving sub-lists.

Go code is modelled as follows:

- Loops become methods with loop invariants, proved against specification functions.
- Pure code becomes functions.
- Go maps become Dafny `map`s.
- Go slices become `seq`s.
- Errors become `Result` values.

JavaScript objects and Sets become ordered lists of distinct keys, because their iteration
order matters to old-script.js.

Where the source calls code that is not part of this model, the model takes it as a
parameter. Randomness, the card decoder of package game and the flop rule are treated this
way.

## Model

| member | source | states |
|---|---|---|
| Game.SuitesDistinct | game/game.go:11 | The suit list holds exactly the five suit runes, each once. |
| Game.WildRule | game/game.go:21-26 | The joker is wild in every round; any other card is wild exactly when its number equals the round, whatever its suit. |
| GameSorting.CompareCardCases | game/sorting.go:4-16 | The four branches: equal cards give 0; a joker sorts after any other card; within a suit the number difference decides; across suits the difference of the suit runes decides. |
| GameSorting.CompareCardExamples | bots/sorting_test.go:10-76 | The test cases: joker against 10-R gives 1 and -1, 10-R against 10-B gives 16, 11-B against 10-B gives 1. |
| GameSorting.CompareCardAntisymmetric | game/sorting.go:4-16 | On canonical cards the comparison is 0 only for equal cards, and swapping the arguments flips its sign. |
| GameSorting.CompareCardTransitive | game/sorting.go:4-16 | On canonical cards "not after" is transitive. |
| GameSorting.CompareCardOrders | game/sorting.go:4-16 | On any list of canonical cards CompareCard is a consistent strict order, as slices.SortFunc needs. |
| GameSorting.SortCards | bots/grugbot/grugbot.go:31 | The sorted hand is a permutation of the hand. |
| GameSorting.SortCardsSorted | bots/grugbot/grugbot.go:31 | For canonical cards the sorted hand is sorted by CompareCard. |
| GameSorting.SortCardsUnique | bots/grugbot/grugbot.go:31 | Any sorted permutation of a canonical hand is the sorted hand, so the sort result does not depend on the algorithm. |
| GameSorting.SortCardsExample | bots/sorting_test.go:80-102 | The hand 9-Y, *, 8-R, 9-R sorts to the cards of "8-R:9-R:9-Y:*": red before yellow, 8 before 9 within red, the joker last. |
| GameSorting.SortedPairMeaning | game/sorting.go:4-16 | For two cards in sorted order, a joker is followed only by jokers, and otherwise the suit ascends or, within a suit, the number does not descend. |
| Slices.SortFunc | bots/bigbrainbot/bigbrainbot.go:125 | Sorting gives a permutation, and a sorted one when the comparison is a consistent order on the list. |
| GameScoring.ScoreSequence | game/scoring.go:3-18 | The loop returns the sum of the card scores: 25 per joker, the number for any other card. |
| GameScoring.SumAppend | game/scoring.go:3-10 | The score of two lists laid end to end is the sum of their scores. |
| GameScoring.SumPermutation | game/scoring.go:3-10 | The score does not depend on the order of the cards. |
| GameScoring.SumBounds | game/scoring.go:12-18 | A list of valid cards scores between 3 and 25 points per card. |
| BotsScoring.ScoreSequence | bots/scoring.go:3-14 | The bots' inlined scorer returns the same sum as the game scorer. |
| MathMin.Min | math/math.go:3-8 | The result is at most both arguments and is one of them; on a tie it is the first. |
| BotsEncoding.EncodeCard | bots/encoding.go:18-24 | The code is non-empty, and it is "*" exactly for a joker. |
| BotsEncoding.DecodeCard | bots/encoding.go:27-57 | A decoded card is valid. The result is the joker exactly for "*". Every error carries the code it refused. |
| BotsEncoding.DecodeEncodeCard | bots/encoding.go:18-57 | Decoding the code of a valid card gives the card back. |
| BotsEncoding.EncodeCardInjective | bots/encoding.go:18-24 | Valid cards have distinct codes. |
| BotsEncoding.CardCodecExamples | bots/encoding_test.go:10-39 | The test cases: the joker encodes as "*", 10-R encodes as "10-R", "7-G" decodes to 7-G. |
| BotsEncoding.LenientDecodeExample | bots/encoding.go:34-43 | The decoder accepts a sign and leading zeros and reads only the last rune of the suit part: "+05-XR" is 5-R. |
| BotsEncoding.LenientNumber | bots/encoding.go:35 | Atoi reads "+05" as 5. |
| BotsEncoding.NumberOutOfRangeExample | bots/encoding.go:39-40 | A number outside 3..13 is refused: "2-R". |
| BotsEncoding.MissingSuitExample | bots/encoding.go:43-49 | A missing suit is refused: "5-". |
| BotsEncoding.BadNumberExample | bots/encoding.go:35-38 | A number that does not read is refused: "x-R". |
| BotsEncoding.EncodedCards | bots/encoding.go:79-88 | One code per card, each the card's own code. |
| BotsEncoding.EncodeCards | bots/encoding.go:79-88 | The loop fills the slice with the card codes in order. |
| BotsEncoding.EncodeSequence | bots/encoding.go:62-75 | The builder loop writes the card codes joined by ':'. |
| BotsEncoding.DecodeSequence | bots/encoding.go:91-110 | The cards are the decoded codes after splitting on ':', with a zero Card in each failed slot. The errors are those of the failed codes, in order. |
| BotsEncoding.NoColonInCode | bots/encoding.go:18-24 | The code of a valid card holds no ':'. |
| BotsEncoding.DecodedAll | bots/encoding.go:91-110 | Codes that all decode give their cards and no error. |
| BotsEncoding.CodesDecode | bots/encoding.go:79-88 | Each code of a list of valid cards is free of ':' and decodes to its card. |
| BotsEncoding.SplitSequenceText | bots/encoding.go:62-93 | The text of a non-empty sequence of valid cards splits back into its card codes. |
| BotsEncoding.DecodeEncodeSequence | bots/encoding.go:62-110 | Decoding the text of a non-empty sequence of valid cards gives the cards back without errors. |
| BotsEncoding.EmptySequenceRoundTrip | bots/encoding.go:62-110 | The empty sequence does not round-trip: its text "" decodes to one zero card and one number error. |
| BotsEncoding.SequenceEncodeExamples | bots/encoding_test.go:41-69 | The test cases: [*, 10-R] gives the codes ["*", "10-R"] and the text "*:10-R". |
| Strings.SplitFirst | bots/encoding.go:34 | strings.SplitN with 2 gives two parts exactly when the separator occurs. |
| Strings.Atoi | bots/encoding.go:35 | Any number Atoi reads lies in the 64-bit range. |
| Strings.AtoiDecimal | bots/encoding.go:35 | Atoi reads back the decimal rendering of every 64-bit integer. |
| Grugbot.CardCounts | bots/grugbot/grugbot.go:55-63 | The table maps each card to its number of occurrences in the hand; a missing card reads 0. |
| Grugbot.ScanInvariant | bots/grugbot/grugbot.go:73-103 | At every step of the run scan, the saved runs are runs of hand cards and the run being grown is one suit counting up by one. |
| Grugbot.RunsAreRuns | bots/grugbot/grugbot.go:73-108 | Every run found in a hand of valid cards is a run of at least two hand cards, with no joker, one suit and consecutive numbers. |
| Grugbot.RunDistinct | bots/grugbot/grugbot.go:88-90 | A run holds no card twice. |
| Grugbot.SetCandidateCards | bots/grugbot/grugbot.go:116-130 | A number's set candidate holds exactly the hand's copies of that number in the five suits. |
| Grugbot.SetForGrouped | bots/grugbot/grugbot.go:118-130 | The set candidate is grouped suit by suit, in the order of the suit list. |
| Grugbot.SetsMembers | bots/grugbot/grugbot.go:114-135 | The set candidates are exactly those for the numbers 3 to 12 that have at least two cards; kings never form one. |
| Grugbot.RunCandidates | bots/grugbot/grugbot.go:73-108 | The scan loop returns the specified runs. |
| Grugbot.SetCandidates | bots/grugbot/grugbot.go:110-135 | The nested set loops return the specified set candidates. |
| Grugbot.FindSequences | bots/grugbot/grugbot.go:67-138 | The candidates are the runs followed by the sets. |
| Grugbot.WildCount | bots/grugbot/grugbot.go:244-260 | The loop adds up the jokers and the round's card in each of the five suits. |
| Grugbot.GetWild | bots/grugbot/grugbot.go:224-242 | The loop returns the specified wild choice. |
| Grugbot.FirstRoundCardMeaning | bots/grugbot/grugbot.go:230-241 | The suit loop fails exactly when no round card from that suit on has a positive count; otherwise it returns the first that does. |
| Grugbot.WildChoiceMeaning | bots/grugbot/grugbot.go:224-242 | getWild returns the joker exactly when one is left, and otherwise the first round card with a count left. It fails exactly when there is neither. Any card it returns is wild this round. |
| Grugbot.WildTotalPositive | bots/grugbot/grugbot.go:189-197 | When wildCount is positive, getWild finds a card, even when some counts have gone negative. |
| Grugbot.CandidateCompareOrders | bots/grugbot/grugbot.go:148-157 | The ranking comparison is a consistent order on any list of candidates. |
| Grugbot.Ranked | bots/grugbot/grugbot.go:148-157 | The ranking is a permutation of the candidates. |
| Grugbot.RankedOrder | bots/grugbot/grugbot.go:148-157 | After ranking, candidates of three or more cards come first, and within each group the score does not increase. |
| Grugbot.Pad | bots/grugbot/grugbot.go:187-202 | Padding extends the candidate by one card per step and keeps its cards in front. |
| Grugbot.UsedGet | bots/grugbot/grugbot.go:207-209 | The decrement loop lowers each count by the number of copies of that card in the meld. |
| Grugbot.CheckAvailable | bots/grugbot/grugbot.go:170-185 | The check succeeds exactly when every card of the candidate has a copy left. |
| Grugbot.PadMeld | bots/grugbot/grugbot.go:187-202 | The padding loop appends getWild's card gap times and takes the whole gap off that card's count each time. |
| Grugbot.TakeOff | bots/grugbot/grugbot.go:207-209 | The decrement loop takes one copy of each card of the meld off the table. |
| Grugbot.CommitCandidate | bots/grugbot/grugbot.go:167-210 | One pass of the loop is one step of the greedy pass. |
| Grugbot.FilterSequences | bots/grugbot/grugbot.go:144-222 | The result is the ranked candidates committed greedily against the hand's table, followed by one single-card meld per card left with a positive count. |
| Grugbot.AppendLeftovers | bots/grugbot/grugbot.go:215-219 | The leftover loop keeps the committed melds in front and adds exactly the cards with a positive count, each once, as single-card melds. |
| Grugbot.CommitRule | bots/grugbot/grugbot.go:170-209 | A candidate is skipped exactly when one of its cards has no copy left. A committed meld starts with the candidate. |
| Grugbot.CommitFull | bots/grugbot/grugbot.go:167-209 | An available candidate that is not padded (three or more cards, or fewer wilds left than its gap) is committed as it is, and each of its cards loses one copy per occurrence. |
| Grugbot.CommitPadsWithWild | bots/grugbot/grugbot.go:187-209 | A two-card candidate with a wild left gets getWild's card as its third card. That card loses its copy twice: once for the gap and once in the decrement loop. |
| Grugbot.NoRepeatsCount | bots/grugbot/grugbot.go:207-209 | In a list without repeats every card occurs at most once. |
| Grugbot.ConserveStep | bots/grugbot/grugbot.go:167-210 | A step on a candidate without repeats that is not padded (three or more cards, or a gap the wilds left cannot fill) keeps the accounting: committed copies plus remaining count equal the starting count, and the candidate is skipped or appended unchanged. |
| Grugbot.CommitAllConserves | bots/grugbot/grugbot.go:167-210 | When no candidate repeats a card and none is padded (three or more cards, or a gap larger than the initial wild total, which only falls), the greedy pass conserves cards and every committed meld is a candidate. |
| Grugbot.ConservedOutcome | bots/grugbot/grugbot.go:167-219 | Under that accounting no card is committed more often than the hand holds it. The leftovers are cards of the hand, and every card of the hand is committed or left over. |
| Grugbot.FilterConservation | bots/grugbot/grugbot.go:144-222 | For candidates without repeats that are never padded (three or more cards, or a gap larger than the hand's wild count), two-card runs and pairs included, FilterSequences uses every card of the hand and no card more often than the hand holds it. |
| Grugbot.RankedExample | bots/grugbot/grugbot_test.go:58-65 | For the hand 3-B, 3-X, 3-X, 4-X, 5-X the run 3-X 4-X 5-X ranks ahead of the equally long, lower-scoring set [3-B, 3-X, 3-X]. |
| Grugbot.ReusedCardExample | bots/grugbot/grugbot.go:173-185 | A candidate holding one card twice passes a check against a count of one and drives that count negative. |
| Grugbot.PaddingTakesWildTwiceExample | bots/grugbot/grugbot.go:197-209 | The padding wild loses two copies: one for the gap and one more with the meld. |
| Grugbot.RoundCardPadsItselfExample | bots/grugbot/grugbot.go:187-209 | The round's own card can pad the meld it already belongs to. |
| Grugbot.Score | bots/grugbot/grugbot.go:23-44 | A decode failure gives the wrapped error. Otherwise the answer is the filtered candidates of the sorted hand, encoded, with the request's action and no flop. |
| Bigbrainbot.Calculate | bots/bigbrainbot/bigbrainbot.go:117-140 | A decode failure gives the wrapped error. Otherwise the result is the filtered candidates of the sorted hand with the flop rule's verdict. |
| Bigbrainbot.Score | bots/bigbrainbot/bigbrainbot.go:20-33 | It fails exactly when grugbot.Calculate fails, with the wrapped message. Otherwise it answers the encoded melds with the flop rule's verdict. |
| Bigbrainbot.AdviceNone | bots/bigbrainbot/bigbrainbot.go:58-76 | The reverse scan finds nothing exactly when every meld is short and none holds the top card. |
| Bigbrainbot.AdviceDiscard | bots/bigbrainbot/bigbrainbot.go:58-65 | The scan advises the discard pile exactly when some meld of three or more cards is followed only by short melds without the top card. |
| Bigbrainbot.AdviceDeck | bots/bigbrainbot/bigbrainbot.go:66-73 | The scan advises the deck exactly when some short meld holding the top card is followed only by short melds without it. |
| Bigbrainbot.TopCardStack | bots/bigbrainbot/bigbrainbot.go:58-74 | The reverse loop with its early returns gives the specified advice. |
| Bigbrainbot.Hypothetical | bots/bigbrainbot/bigbrainbot.go:45-50 | The hypothetical request is the hand with the top discard appended; round, action and discard pile are unchanged. |
| Bigbrainbot.DrawAnswer | bots/bigbrainbot/bigbrainbot.go:58-76 | The answer succeeds exactly when the scan advised a stack, and then it carries that stack. |
| Bigbrainbot.Draw | bots/bigbrainbot/bigbrainbot.go:35-77 | Each decode or calculate failure gives its wrapped error. Otherwise the stack is the scan's advice, or the "did not find" error. |
| Bigbrainbot.Removed | bots/bigbrainbot/bigbrainbot.go:93-101 | A one-card meld is deleted as a whole. Otherwise the card is deleted from its meld and the other melds are unchanged. |
| Bigbrainbot.DiscardLosesOneCard | bots/bigbrainbot/bigbrainbot.go:93-101 | The removal loses exactly one card, the picked one, and keeps all others. |
| Bigbrainbot.RemovePick | bots/bigbrainbot/bigbrainbot.go:93-101 | The removal step gives the specified melds. |
| Bigbrainbot.DiscardAnswer | bots/bigbrainbot/bigbrainbot.go:103-108 | The response carries the picked card's code, the encoded remaining melds, their flop verdict and the discard action. |
| Bigbrainbot.Discard | bots/bigbrainbot/bigbrainbot.go:79-109 | A calculation failure gives the wrapped error. Otherwise the answer discards the worst card and reports the melds without it. |
| SingletonBots.Singletons | bots/smoothbrainbot/smoothbrainbot.go:52-56 | One single-card meld per card, in hand order. |
| SingletonBots.SingletonsAppend | bots/smoothbrainbot/smoothbrainbot.go:37-41 | The singletons of a concatenation are the singletons of each part. |
| SingletonBots.Draw | bots/smoothbrainbot/smoothbrainbot.go:16-29 | The draw action, from the discard pile exactly when the coin is 1 and from the deck exactly when it is 0. |
| SingletonBots.Score | bots/smoothbrainbot/smoothbrainbot.go:50-64 | Every card as its own meld, in hand order, with the discard action and no flop. |
| SingletonBots.Discard | bots/smoothbrainbot/smoothbrainbot.go:32-48 | The drawn card is discarded and every other card is kept, in order, as its own meld. |
| SingletonBots.KeptAll | bots/smoothbrainbot/smoothbrainbot.go:37-41 | Skipping the drawn index while walking the hand leaves the hand with that index deleted. |
| ArenaEngine.DeckSize | arena/engine.js:4-20 | 56 cards for a unique deck, 116 otherwise. |
| ArenaEngine.SlotCardValid | arena/engine.js:1-10 | Every slot the loops fill holds a valid numbered card, and the slot can be found again from the card. |
| ArenaEngine.DeckIndex | arena/engine.js:4-20 | The walk of the loops and the index formula describe the same deck. |
| ArenaEngine.AppendCopies | arena/engine.js:9-11 | The innermost loop appends the copies of one card code. |
| ArenaEngine.AppendSuit | arena/engine.js:8-12 | The middle loop appends one suit's row. |
| ArenaEngine.AppendJokers | arena/engine.js:15-17 | The joker loop appends one joker for a unique deck and six otherwise. |
| ArenaEngine.NewDeck | arena/engine.js:4-20 | The deck has the stated size, and each index holds the card the index formula names. |
| ArenaEngine.DeckCardWhere | arena/engine.js:4-20 | Index i holds a numbered card exactly when i lies in that card's block of copies. |
| ArenaEngine.DeckJokersLast | arena/engine.js:15-17 | Index i holds "*" exactly when it is past the numbered cards. |
| ArenaEngine.UniqueDeckDistinct | arena/engine.js:4-20 | The unique deck holds no card twice. |
| ArenaEngine.TrimStartSuffix | arena/engine.js:32 | parseInt skips exactly a prefix of white space. |
| ArenaEngine.LeadingDigits | arena/engine.js:32 | parseInt reads the longest prefix of digits and stops at the first non-digit. |
| ArenaEngine.ParseIntDecimal | arena/engine.js:32 | parseInt reads back the decimal rendering of every natural number. |
| ArenaEngine.ParseIntLenient | arena/engine.js:32 | parseInt skips leading blanks and trailing junk: " 12abc" is 12. |
| ArenaEngine.ParseIntSignedHex | arena/engine.js:32 | parseInt takes a sign and reads hexadecimal after "0x": "-0x1A" is -26. |
| ArenaEngine.ParseIntNaN | arena/engine.js:32 | Text without digits gives NaN. |
| ArenaEngine.JsDecodeCard | arena/engine.js:22-35 | The result is a joker exactly for "*". Any other code has a suite exactly when it holds a dash. |
| ArenaEngine.JsDecodeEncoded | arena/engine.js:22-35 | Decoding the bots' code of a valid card gives back its joker flag, its number and its suit. |
| ArenaEngine.ScoreSequence | arena/engine.js:37-53 | The loop adds 25 per joker and the parsed number of every other card; a single NaN makes the sum NaN. |
| ArenaEngine.JsCardScoreEncoded | arena/engine.js:37-53 | The JavaScript score of a valid card's code is the Go score of the card. |
| ArenaEngine.JsScoreMatchesGo | arena/engine.js:37-53 | On the codes of valid cards, scoreSequence agrees with game.ScoreSequence. |
| OldScript.FirstOccurrences | old-script.js:58-67 | The distinct cards of the hand, each once, and no others. |
| OldScript.CountCards | old-script.js:58-67 | The index lists each card of the hand once, in order of first sight, and maps it to its number of occurrences. |
| OldScript.Leaf | old-script.js:76-89 | The leaf loop returns the specified remaining cards and score. |
| OldScript.PushCopies | old-script.js:85-87 | The inner loop pushes the card count times. |
| OldScript.LeafRemainingCount | old-script.js:82-89 | A listed card is left as often as its value when that is positive, and not at all otherwise. |
| OldScript.CountedLeafRemaining | old-script.js:58-89 | At the root of the search the remaining cards are a permutation of the hand. |
| OldScript.NumberSumDefined | old-script.js:84 | The sum is a number exactly when every card has one. |
| OldScript.CountsOfLeafScore | old-script.js:58-89 | The leaf score of a hand's index is the sum of the numbers of the hand's cards. |
| OldScript.CountedLeafScore | old-script.js:58-89 | At the root the leaf score is the sum of the hand's numbers. It is a number exactly when no card is a joker or otherwise lacks a number. |
| OldScript.RunBelowShape | old-script.js:139-148 | The left walk collects the longest stretch of numbers ending just below the card, none below 3, whose cards have a positive count, in ascending order. |
| OldScript.RunAboveShape | old-script.js:150-158 | The right walk collects the longest stretch of numbers starting just above the card, none above 13, whose cards have a positive count. |
| OldScript.WalkLeft | old-script.js:139-148 | The left loop gives the run below, then the card. |
| OldScript.WalkRight | old-script.js:150-158 | The right loop appends the run above. |
| OldScript.RunOf | old-script.js:130-160 | Both walks give the run around the card: the card alone when its number is NaN. |
| OldScript.RunThroughShape | old-script.js:139-160 | The run holds the card, and on each side exactly the present same-suit neighbours in numeric order, up to the first gap or the 3..13 bound. |
| OldScript.SetSiblingsDistinct | old-script.js:166-177 | The five siblings are distinct codes. |
| OldScript.SetOf | old-script.js:166-177 | The set loop gives every copy of the card's number in each suit. |
| OldScript.CopiesOfCount | old-script.js:166-177 | Each distinct sibling is held as often as the index counts it, and a sibling with a non-positive value not at all. |
| OldScript.SetAroundCount | old-script.js:166-177 | The set holds each suit's sibling of the number as often as the index counts it, and nothing else. |
| OldScript.AddKeysMembers | old-script.js:184-186 | Adding object keys keeps the old keys in front, adds exactly the new ones, and lists no key twice. |
| OldScript.Windows | old-script.js:205-211 | The nested loops list every window of at least three cards, by length and then by offset. |
| OldScript.SlidesOf | old-script.js:206-208 | The inner loop lists, by offset, every window of one length that fits in the cards. |
| OldScript.SlidesMembers | old-script.js:206-210 | The windows of one length are exactly the slices of that length; there are n + 1 - l of them. |
| OldScript.WindowsMembers | old-script.js:205-211 | The windows listed are exactly the slices of at least the given length. |
| OldScript.WindowsCount | old-script.js:205-211 | Twice the number of windows is (n + 1 - l)(n + 2 - l). |
| OldScript.PermuteSet | old-script.js:215-227 | The recursive procedure gives the specified Set, in insertion order. |
| OldScript.PermsFromMembers | old-script.js:220-224 | The loop adds exactly the permutations of the cards with one index deleted, and keeps the Set free of duplicates. |
| OldScript.PermsDistinct | old-script.js:215-227 | permuteSet lists no permutation twice. |
| OldScript.PermsSound | old-script.js:215-227 | Every permutation is the colon-joined form of an order-preserving sub-list of at least three of the cards. |
| OldScript.PermsComplete | old-script.js:215-227 | Every order-preserving sub-list of at least three cards appears, joined by colons. |
| OldScript.PermsMembers | old-script.js:215-227 | From three cards on, the permutations are exactly the joined order-preserving sub-lists of at least three cards. |
| OldScript.IsSetEncoded | old-script.js:229-231 | On the codes of two engine cards, isSet holds exactly when both are jokers or both are numbered with the same number. |
| OldScript.PermuteSequence | old-script.js:192-213 | The procedure gives the specified permutations. |
| OldScript.PermuteThree | old-script.js:195-197 | A three-card key comes back alone and unchanged. |
| OldScript.PermuteSetKeys | old-script.js:201-202 | A set of four or more cards yields exactly its joined order-preserving sub-lists of at least three cards, including itself. |
| OldScript.PermuteRunKeys | old-script.js:205-211 | A run of four or more cards yields, as comma-joined keys, exactly its windows of at least three cards; twice their number is (n - 2)(n - 1). |
| OldScript.LiveCountShape | old-script.js:120-123 | The scan visits the keys before the first one whose value is 0, and no further. |
| OldScript.ScanMembers | old-script.js:118-178 | The first loop records exactly what the visited non-joker keys produce. It keeps earlier keys in front and lists none twice. |
| OldScript.RecordCard | old-script.js:162-177 | One card's body records its run and sorted set (each when at least three cards long) as new object keys. |
| OldScript.RecordMelds | old-script.js:162-177 | Recording a run and a set adds their keys to the object. |
| OldScript.ScanIndex | old-script.js:118-178 | The first loop gives the specified recorded keys, stopping at the first key whose value is 0. |
| OldScript.FoundColon | old-script.js:162-177 | Every recorded key holds a colon, so permuteSequence always sees at least two cards. |
| OldScript.ExpandKeeps | old-script.js:180-187 | The second loop keeps the recorded keys in front and lists no key twice. |
| OldScript.ExpandMembers | old-script.js:180-187 | The second loop adds exactly the keys of the permutations of the recorded keys. |
| OldScript.GetSequences | old-script.js:116-190 | getSequences returns the specified keys. |
| OldScript.SequencesMembers | old-script.js:116-190 | getSequences returns no key twice. The first loop's keys come first, and every key is one of them or a key of one of their permutations. |

## Left out

- Grugbot `Draw` and `Discard` (bots/grugbot/grugbot.go:46-52) only return the error "not implemented" and are not modelled.
- Logging (`log`, `slog`, `console.log`), `main.go` and its HTTP server, and the rendering and DOM code of the arena scripts are I/O and are not modelled.
- `rand.Intn` in the singleton bots is a parameter: the coin of `Draw` and the index of `Discard`.
- `game.DecodeCards`, `game.EncodeSequences`, `game.CanFlop`, `grugbot.Calculate`, `grugbot.WorstCard` and bigbrainbot's two-argument `FindSequences` are not part of this model. They are parameters of the bots that call them, gathered in `Bigbrainbot.Externals`.
- Package game's own card codec is taken to behave like the bots codec modelled in `bots_encoding.dfy`, which game/encoding_test.go exercises with the same cases.
- MathMin.Min: the generic `cmp.Ordered` minimum is modelled on integers only; floating-point NaN ordering is not modelled.
- Go's map iteration order is unspecified. The leftover loop of FilterSequences is therefore specified by what it appends, in any order.
- Slices.SortFunc is modelled as a stable insertion sort. Go uses that algorithm only for short slices and pdqsort beyond 12 elements. For canonical cards `GameSorting.SortCardsUnique` shows that the order of the result is the same either way. The ranking of grugbot candidates can order ties differently.
- `slices.Delete` and `append` are modelled on values. Aliasing between the slice passed to `Delete` and the slice it returns is not modelled.
- `arena/script.js` (the browser game loop, dealing and rendering) is not part of this model, and neither is old-script.js's `shuffleDeck`.
- The recursion of old-script.js's `calculateBest` (old-script.js:102-113) is not modelled. It discards the results of its recursive calls, so a call that does not end at a leaf returns undefined. It also decrements keys that are absent to NaN. Only the leaf (old-script.js:76-89) and `bestScore`'s index (old-script.js:58-67) are modelled; `bestScore` itself discards its result.
- JavaScript numbers are modelled as integers, with NaN (and undefined) as `None`. Floating-point rounding of large values and -0 are not modelled.
- JavaScript objects are modelled as plain maps: keys named after `Object.prototype` properties ("constructor", "toString", "__proto__") would pick up inherited values in `cardIdx[card]`; card codes never take such names.
- Go strings are UTF-8 bytes while the model uses `seq<char>`: `utf8.DecodeLastRuneInString` (bots/encoding.go:43) turns an invalid trailing byte into U+FFFD, which the model never produces. Such a code is rejected with the suit error either way.
- JavaScript objects list integer-like keys first, in numeric order. Card codes always hold a dash or are "*", so no key is integer-like, and insertion order is modelled.
- OldScript.Leaf: the reader of a card's number is a parameter. `OldScript.CountedLeafScore` instantiates it with `decodeCard`'s number.
- OldScript.GetSequences: requires that the card sorter `sortCards`, which old-script.js calls but does not define, keeps the number of cards. The sorter is a parameter.
- OldScript.PermuteSequence: requires a key holding a colon. Without one, `isSet` would read a missing second card. `OldScript.FoundColon` shows that getSequences never passes such a key.
- Bigbrainbot.Draw: requires a non-empty discard pile whose top code does not make the decoder panic; the Go code indexes `req.Discard[0]` unguarded.
- Bigbrainbot.Discard: requires that the worst-card rule, which is not part of this model, picks a meld and card that exist.
- Grugbot.Score: requires a decoded hand that is not empty; FindSequences indexes `hand[0]` unguarded.
- BotsEncoding.DecodeCard: requires a code for which `parts[1]` exists whenever the number reads. A code with a number but no dash makes the Go code panic.
