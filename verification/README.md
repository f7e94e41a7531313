# Verified model of the plate-scanning and gate-management core

This project models the parts of the MEKSS backend (and of its Python plate engine) whose
correctness rests on loops, interleavings or whole runs, and proves properties of them in Dafny 4.11.

| files | what they model |
|---|---|
| `CtcSpec`, `CtcBeam`, `CtcRun`, `CtcDecoder`, `DecoderPriors`, `DecoderReadings`, `EnsembleVote`, `VoteOutcomes`, `Tally` | the grammar-constrained CTC prefix beam search against the brute-force sum over all alignments, the result it returns, and the ensemble vote with its weighted tallies |
| `PlateGrammar`, `GrammarOutcomes`, `ZoneOutcomes`, `EditDistance`, `PlateMatcher`, `MatchOutcomes` | canonical plates and their normaliser and printer, the confusion-weighted edit distance, and resolving a read plate to open passes and to what the guard is shown |
| `FusionEvidence`, `PlateFusion`, `FusionRuns` | multi-frame fusion: the sparse evidence map and the lock / candidate / new-vehicle state machine |
| `Billing`, `LedgerModel`, `LedgerRows`, `LedgerRuns`, `LedgerFamilies`, `LedgerReport`, `LedgerService`, `LedgerOutcomes`, `LedgerPayments`, `ReportOutcomes` | the invoice ledger: arithmetic, operations, per-invoice and whole-run properties, split families, the report, and the service methods |
| `WalletModel`, `WalletService`, `WalletOutcomes` | the gate-pass wallet under interleaved callbacks, sweeps, credits and charges |
| `GatePassModel`, `GatePassService`, `GatePassOutcomes` | two-stage gate-pass review under interleaved reads and claims |
| `OpenPlateCache`, `OpenPlateQuery`, `CacheOutcomes` | the cache of open plates with in-flight tokens and delayed change events |
| `FrameScheduler`, `SchedulerOutcomes` | the one-slot latest-frame-wins scheduler of a scanning socket |
| `CircuitBreaker`, `BreakerOutcomes` | the circuit breaker and the caller that reports to it |
| `Nms`, `NmsOutcomes` | greedy suppression of overlapping boxes, and tiling |
| `Options` | optional values |

How the model reads the code:

- Probabilities are reals, not logarithms: 0 stands for minus infinity, `+` for `logSumExp`, `*` for
  `+`, and every probability is floored at 1e-12 before use. A probability row is a sequence.
- Money is whole hundredths of a Rial, times are milliseconds, and a calendar day is
  `floor(ms / 86 400 000)`. Wallet amounts use the same unit.
- Each ledger operation is one atomic step at a given time. Wallet and gate-pass requests are two
  steps, a read and one conditional transaction, interleaved in any order with everything else.
- Classes hold the fields the source updates in place. Each method is proved equal to a transition
  function on values, and the run theorems are about that function.
- The modules whose names end in `Outcomes`, with `DecoderPriors`, `DecoderReadings`, `FusionRuns` and
  `LedgerPayments`, say what callers get without naming those functions: conditions, amounts, limits and
  stored fields are spelt from the stored rows and the events, and proved of the transition functions and of
  whole runs of them.
- `log` and `exp` are parameters; the only fact used is that `exp` is positive.
- The order of equal elements is modelled where the source fixes it (stable sorts of arrays and
  insertion-ordered maps). Where ties are not fixed (the beam cut, `argsort`), any order is allowed.

What the proofs show to be different from what the code or its comments say:

- The letter position is assumed to have 22 characters, but the grammar has 25. After every run whose
  frames propose letters, the fused distribution of the letter misses mass exactly if some letter was
  not proposed since the last reset (`PlateFusion.LetterIsShortIff`): always after a first frame that
  lists fewer than 25, and as long as all frames together do (`PlateFusion.FirstFrameFallsShort`,
  `PlateFusion.FewFramesFallShort`).
- The installments' daily rates can together exceed the original rate, because each is rounded to a
  cent (`LedgerRows.SplitCanAccrueMore` is an accepted split). They stay within it exactly when what
  the roundings leave adds up to at least the total for every installment
  (`Billing.RatesWithin`, `LedgerRows.SplitRatesWithin`), and always within half a cent each
  (`Billing.RatesNearlyConserved`).
- A payment once reported failed can still be confirmed; if the invoice was changed in between, the
  frozen payable can differ from the charge (`LedgerRuns.FailedPaymentCanDiffer`). For a payment not
  yet verified and an open invoice it is equal exactly when the total is still the one the payment
  was started on, or that one was zero and the total is at most the charge
  (`LedgerRuns.ChargesExactlyIff`).
- A wallet callback can answer "failed" about a session that was credited
  (`WalletModel.FailureCanBeVerified`). However it answers, at its read, by its transaction or by
  throwing, the answer is true exactly unless it was to fail a session verified by then, or it throws
  when the session is verified or after crediting it itself (`WalletModel.AnswerIsTrue`).
- A reviewer's claim depends on the status alone, so an approval can cover an edit committed after
  the reviewer's read (`GatePassModel.ApprovalMayMissAnEdit`). It covers what was read exactly when no
  claim on the pass was committed in between (`GatePassModel.ReviewCoversWhatWasRead`,
  `GatePassModel.ChangedIffCommitted`); and what is completed is what was approved.
- The plate distance breaks the triangle inequality on neighbours of every canonical plate
  (`EditDistance.NoTriangle`). It holds between texts without three characters each confusable with
  the next but the outer two not (`EditDistance.TriangleUnlessBroken`), and for plates differing in
  one character only there (`EditDistance.TriangleAtOneCharacter`).
- The re-check of a match looks at the actor's scope and not at the status, so a pass that closed
  after the plates were loaded is still matched and shown (`PlateMatcher.ClosedPassIsShown`): exactly
  when a listed pass of that plate has closed since and is still in scope
  (`PlateMatcher.ShowsClosedIff`). With no change event on its way every pass shown of a match is open
  (`PlateMatcher.QuietMatchIsOpen`).
- Splitting an invoice can change the total of a report for a window of dates
  (`LedgerReport.SplitCanChangeReport`). While the window holds at most 2000 invoices with the
  installments, it does exactly when the window covers one of the moment the invoice was issued and
  the moment of the split and not the other (`LedgerReport.SplitKeepsReport`); beyond that the
  installments push out the oldest rows (`LedgerReport.SplitPushesOut`).
- Half-open promises a single trial request, but a call admitted before can still be outstanding
  beside it (`CircuitBreaker.SlowCallBesideTrial`), and when that call ends it lowers the trial's flag,
  so that a second trial is let through beside the first (`CircuitBreaker.TwoTrialsAtOnce`). A trial
  is alone exactly when nothing was outstanding before it (`CircuitBreaker.TrialIsAloneIffIdle`); an
  attempt makes two trials outstanding exactly when one is and the flag is down in half-open
  (`CircuitBreaker.SecondTrialIff`), which takes the end of a call that is not a trial
  (`CircuitBreaker.OneTrialUnlessForeignEnd`).
- The default tiles miss a strip exactly when a side of the image is three pixels
  (`Nms.DefaultTilesCover`).
- A threshold below one makes the breaker behave as with threshold one
  (`CircuitBreaker.BreakerRefinesHistory`).

## Model

| member | source | states |
|---|---|---|
| CtcSpec.MassBlank | mekss-backend/src/anpr/ctc-decoder.ts:110-111 | the brute-force mass of a prefix ending in blank after one more row is its whole mass so far times the blank's probability |
| CtcSpec.MassCharacter | mekss-backend/src/anpr/ctc-decoder.ts:112-120 | the brute-force mass ending in a character obeys the repeat / extend recurrence, including the same-character case that needs a blank between |
| CtcSpec.TotalIsBoth | mekss-backend/src/anpr/ctc-decoder.ts:110 | the two masses of a prefix add up to the mass of all alignments collapsing to it |
| CtcSpec.TotalWeight | mekss-backend/src/anpr/ctc-decoder.ts:92-95 | all alignments of a length together weigh the product of the row sums |
| CtcSpec.CollapseStep | mekss-backend/src/anpr/ctc-decoder.ts:62-66 | collapsing one more class appends its character unless it is blank or repeats the last class |
| CtcBeam.EmitBeam | mekss-backend/src/anpr/ctc-decoder.ts:99-121 | one beam adds to the next map exactly the scores the row step specifies, prefix by prefix, and creates exactly the prefixes it reaches |
| CtcBeam.StepRow | mekss-backend/src/anpr/ctc-decoder.ts:92-121 | after all beams, every reached prefix holds the sum of what the beams emit to it, and no other prefix is present |
| CtcBeam.SortAndCut | mekss-backend/src/anpr/ctc-decoder.ts:123-125 | the cut keeps at most the beam width, distinct, descending, and nothing it leaves out is heavier |
| CtcRun.RunKeepsGrammar | mekss-backend/src/anpr/ctc-decoder.ts:85-125 | for any width and threshold the surviving prefixes are distinct, at most 8 long, legal at every position, with non-negative scores |
| CtcRun.RunBelowMass | mekss-backend/src/anpr/ctc-decoder.ts:92-125 | for any width and threshold both scores of every prefix are lower bounds on its true alignment masses |
| CtcRun.RunIsExact | mekss-backend/src/anpr/ctc-decoder.ts:92-125 | if nothing is cut or pruned, both scores of every legal prefix equal the sum over all alignments collapsing to it |
| CtcRun.RunTotalIsExact | mekss-anpr/app/pipeline/decoder.py:103-136 | under the same condition the total of a prefix equals its whole alignment mass |
| CtcRun.WideNeverCuts | mekss-backend/src/anpr/ctc-decoder.ts:123-125 | a beam at least as wide as the number of legal prefixes never cuts |
| CtcRun.RunMassBound | mekss-backend/src/anpr/ctc-decoder.ts:92-126 | the mass of all beams together is at most the product of the row sums |
| CtcDecoder.GreedyDecode | mekss-backend/src/anpr/ctc-decoder.ts:46-69 | the raw text is the CTC collapse of the best path, which takes the first most likely class of every row, and its confidence the mean probability of the characters written |
| CtcDecoder.LikeliestClass | mekss-backend/src/anpr/ctc-decoder.ts:53-61 | the loop finds the first class of the highest probability |
| CtcDecoder.BestPathIsUnique | mekss-anpr/app/pipeline/decoder.py:32-44 | there is only one such text and confidence |
| CtcDecoder.OneProbabilityEach | mekss-backend/src/anpr/ctc-decoder.ts:46-69 | the mean is over exactly one probability for every character of the text |
| CtcDecoder.SearchBeams | mekss-backend/src/anpr/ctc-decoder.ts:90-126 | the loop over the rows leaves the last beams of some run of the row step |
| CtcDecoder.GrammarOf | mekss-backend/src/anpr/ctc-decoder.ts:77-86 | digits and letters of the label set are allowed where the layout has them |
| CtcDecoder.RankFinals | mekss-backend/src/anpr/ctc-decoder.ts:128-139 | the finals are the complete beams with mass times prior, in the order of a stable descending sort; `DecoderPriors.PriorIsOdds` spells out the prior |
| CtcDecoder.BestFinal | mekss-backend/src/anpr/ctc-decoder.ts:139-149 | the first final is a complete beam whose score no other complete beam beats, and there is one exactly if some beam is complete |
| CtcDecoder.Summarize | mekss-backend/src/anpr/ctc-decoder.ts:141-173 | plate, probability, character confidences, position lists and rounded alternatives are the ones the ranking defines |
| CtcDecoder.ReadPosition | mekss-backend/src/anpr/ctc-decoder.ts:154-162 | one position's tally gives the share of the candidates that agree with the plate there, and the three characters of the greatest shares |
| CtcDecoder.SharesAreMarginals | mekss-backend/src/anpr/ctc-decoder.ts:152-162 | a character's tally at a position is the sum of the scores of the candidates with that character there, over the mass |
| CtcDecoder.ConstrainedBeamSearch | mekss-backend/src/anpr/ctc-decoder.ts:71-174 | the result is read off the last beams of some run of the row step, and raw text and confidence are the best path's |
| CtcDecoder.MarginalBounds | mekss-backend/src/anpr/ctc-decoder.ts:152-162 | a character's share is at least the best candidate's and at most everything |
| CtcDecoder.DecodedIsCanonical | mekss-backend/src/anpr/ctc-decoder.ts:128-173 | for any width and threshold a valid result is a standard plate, a fixed point of the normaliser, with probability and confidences in range |
| CtcDecoder.AlternativesAreStandard | mekss-backend/src/anpr/ctc-decoder.ts:164-173 | for any width and threshold every alternative of a valid result is a standard plate with a weight that is not negative |
| CtcDecoder.ExactDecodeIsOptimal | mekss-backend/src/anpr/ctc-decoder.ts:89-149 | with nothing cut or pruned the first final has exactly the brute-force CTC mass times prior of its plate, and no complete plate of the grammar has more; `DecoderPriors` says what that means for zeros and regions |
| CtcDecoder.RunDecodesBest | mekss-backend/src/anpr/ctc-decoder.ts:89-173 | so with nothing cut or pruned the returned plate is a best one with its score as probability, and an invalid result means that no complete plate has any mass |
| CtcDecoder.WideDecodeIsOptimal | mekss-backend/src/anpr/ctc-decoder.ts:71-174 | the same for every result of the search whose beam is at least as wide as the grammar has prefixes and which prunes no label |
| CtcDecoder.NoDecodeNoMass | mekss-backend/src/anpr/ctc-decoder.ts:141-143 | with nothing cut or pruned and no final, no complete plate has any mass |
| DecoderReadings.WeightIsChance | mekss-backend/src/anpr/ctc-decoder.ts:92-95 | a path weighs the product of the probabilities of its classes, none taken for less than one in a trillion |
| DecoderReadings.BeamsFitWidth | mekss-backend/src/anpr/ctc-decoder.ts:123-125 | after every row of every run no more beams than the width are kept |
| DecoderReadings.BeamsUseLikely | mekss-backend/src/anpr/ctc-decoder.ts:96-97 | in every run every class of every beam was given more than the threshold by some row before |
| DecoderReadings.GrammarSpellsPlates | mekss-backend/src/anpr/ctc-decoder.ts:77-86 | the complete prefixes spell exactly the standard plates that the labels can spell |
| DecoderReadings.ResultReadsOff | mekss-backend/src/anpr/ctc-decoder.ts:145-173 | from the first candidates, twice as many as asked for and at least two: a confidence is the part of the mass that has the plate's character there, and the alternatives are the candidates asked for with their parts to within a twenty-thousandth |
| DecoderReadings.MeanIs | mekss-backend/src/anpr/ctc-decoder.ts:68 | the best path's confidence times the number of characters is the sum of their probabilities, and zero without any |
| DecoderPriors.PriorIsOdds | mekss-backend/src/anpr/ctc-decoder.ts:131-136 | the prior of every standard plate: a twentieth for each of the three digit groups that begins with zero, and a fifth if the region begins with zero or is 39, 70, 80 or 90 |
| DecoderPriors.WideDecodeIsPreferred | mekss-backend/src/anpr/ctc-decoder.ts:71-174 | with nothing cut or pruned the plate returned outranks every other: no plate without such zeros and regions has more mass; against one of those a plate of such a region needs five times the mass, one with such a zero twenty times, and one whose region begins with zero a hundred times; and of two with equal odds the greater mass wins |
| EnsembleVote.PoolVotes | mekss-backend/src/anpr/ctc-decoder.ts:182-187 | the two loops pool the votes of all alternatives in order of first appearance |
| Tally.PoolCounts | mekss-backend/src/anpr/ctc-decoder.ts:182-188 | a tally holds every key weighted, once, with exactly the weight given to it, and loses none |
| Tally.TopChoicesAre | mekss-backend/src/anpr/ctc-decoder.ts:160 | the choices are at most three different characters with their rounded weights, heaviest first, and none left out is heavier |
| EnsembleVote.MergeDecodes | mekss-backend/src/anpr/ctc-decoder.ts:177-220 | none, one or several valid decodes: the first result, the only valid one, or the merged one the standings define, with its position lists, rounded alternatives and the raw reading of the most probable decode |
| EnsembleVote.MostVotesWin | mekss-backend/src/anpr/ctc-decoder.ts:188-190 | no plate has more votes than the merged plate, and someone voted for it |
| EnsembleVote.ConfidencesInRange | mekss-backend/src/anpr/ctc-decoder.ts:193-203 | each character's confidence lies between the winner's share and one |
| EnsembleVote.MeanSupportIs | mekss-backend/src/anpr/ctc-decoder.ts:205-208 | the merged probability is the mean over all valid decodes, those of another plate counting as zero, and in range |
| EnsembleVote.WinnerIsRead | mekss-backend/src/anpr/ctc-decoder.ts:189-190 | whatever holds of every alternative's plate, such as being canonical, holds of the winner |
| EnsembleVote.ProbabilityInRange | mekss-backend/src/anpr/ctc-decoder.ts:205-208 | the merged probability is between zero and one when those of the decodes are |
| EnsembleVote.MergedIsPresentable | mekss-backend/src/anpr/ctc-decoder.ts:71-220 | whatever results of the search are merged, a valid outcome is a standard plate and a fixed point of the normaliser, with probability and confidences between zero and one |
| VoteOutcomes.GetsVotes | mekss-backend/src/anpr/ctc-decoder.ts:182-187 | a plate gets, from every decode that is valid and has alternatives, the chances of the alternatives that read it times the decode's probability, or times a millionth if that is less |
| VoteOutcomes.VerdictIs | mekss-backend/src/anpr/ctc-decoder.ts:188-208 | of two or more such decodes the plate that gets most is returned, and if one of them read it its probability is the sum of those that did, divided by the number of such decodes |
| VoteOutcomes.FewDecodes | mekss-backend/src/anpr/ctc-decoder.ts:177-180 | with one such decode it is the result, with none the first decode, and without any decode there is none |
| VoteOutcomes.CharactersAre | mekss-backend/src/anpr/ctc-decoder.ts:192-203 | a character's confidence is the part of all the votes that goes to plates with it there |
| VoteOutcomes.AlternativesAre | mekss-backend/src/anpr/ctc-decoder.ts:215 | the alternatives are the first five of the standings, with their parts to within a twenty-thousandth |
| PlateGrammar.NormalizeIsCanonical | mekss-backend/src/anpr/plate-grammar.ts:93-123 | every valid result is a canonical plate whose parts spell it |
| PlateGrammar.CanonicalIsFixed | mekss-backend/src/anpr/plate-grammar.ts:93-123 | every canonical plate normalises to itself |
| PlateGrammar.NormalizeIsIdempotent | mekss-backend/src/anpr/plate-grammar.ts:93-123 | normalising twice changes nothing |
| PlateGrammar.DisplayRoundTrip | mekss-backend/src/anpr/plate-grammar.ts:194-200 | the display form of every canonical plate normalises back to it |
| PlateGrammar.CanonicalIsKept | mekss-backend/src/anpr/plate-grammar.ts:126-132 | a canonical plate is filed under itself |
| PlateGrammar.DisplayedStandard | mekss-backend/src/anpr/plate-grammar.ts:194-200 | a standard plate is shown with its letter between spaces, alef by its name, and its region after a dash |
| GrammarOutcomes.SpelledIsRead | mekss-backend/src/anpr/plate-grammar.ts:93-123 | however a standard plate is written, in the digits and letter variants of either keyboard and with separators anywhere, it is read as that plate |
| GrammarOutcomes.CountryIsRead | mekss-backend/src/anpr/plate-grammar.ts:109-123 | and so it is with the country's name, in Persian or Latin letters, set apart by separators anywhere in it or at its ends |
| GrammarOutcomes.TypesAre | mekss-backend/src/anpr/plate-grammar.ts:21-35 | the vehicle type of each letter |
| ZoneOutcomes.ZonesAre | mekss-backend/src/anpr/plate-grammar.ts:44-52 | the codes and names of the seven free zones |
| ZoneOutcomes.ZoneIsShown | mekss-backend/src/anpr/plate-grammar.ts:194-197 | a free-zone plate is shown as the zone's name and its number |
| ZoneOutcomes.AnyCaseIsRead | mekss-backend/src/anpr/plate-grammar.ts:95-100 | a free-zone plate is read whatever the case of its code, the keyboard of its digits and the blanks around it |
| ZoneOutcomes.ZoneIsRead | mekss-backend/src/anpr/plate-grammar.ts:102-107 | a text with the name of one zone is that zone's plate with the digits it has, exactly if it has five |
| ZoneOutcomes.RawHasNoMarks | mekss-backend/src/anpr/plate-grammar.ts:126-132 | an unreadable value is filed without blanks, and unless it starts like a free-zone plate without dashes, underscores and bars |
| ZoneOutcomes.RawZoneIsCapital | mekss-backend/src/anpr/plate-grammar.ts:130 | an unreadable value that starts like a free-zone plate is filed in capitals |
| ZoneOutcomes.RawKeepsRest | mekss-backend/src/anpr/plate-grammar.ts:131 | of any other unreadable value in which no two word characters meet only blanks, dashes, underscores and bars are dropped |
| EditDistance.PlateDistance | mekss-backend/src/anpr/plate-grammar.ts:180-192 | the rolling-row loop computes the last cell of the distance table |
| EditDistance.DistanceIsMinimum | mekss-backend/src/anpr/plate-grammar.ts:180-192 | the distance is the least cost of all edit scripts between the plates: attained, and never beaten |
| EditDistance.DistanceSymmetric | mekss-backend/src/anpr/plate-grammar.ts:174-192 | the distance is symmetric |
| EditDistance.DistanceSeparates | mekss-backend/src/anpr/plate-grammar.ts:174-192 | it is zero exactly on equal plates and at least the difference of the lengths |
| EditDistance.DistanceBelowPositional | mekss-backend/src/anpr/plate-grammar.ts:180-192 | for plates of one length it is at most the positional substitution cost |
| EditDistance.DistanceIsPositional | mekss-backend/src/anpr/plate-grammar.ts:180-192 | for plates of one length whose positional cost is at most 2 the distance is that cost |
| EditDistance.TriangleIffDirect | mekss-backend/src/anpr/plate-grammar.ts:180-192 | for any substitution price the distance obeys the triangle inequality on all texts if and only if the price does on all characters |
| EditDistance.DirectUnlessBroken | mekss-backend/src/anpr/plate-grammar.ts:147-178 | going by a third character is cheaper exactly if it is confusable with both and they are not confusable with each other |
| EditDistance.TriangleUnlessBroken | mekss-backend/src/anpr/plate-grammar.ts:147-192 | the inequality holds between any three texts whose characters form no such chain |
| EditDistance.TriangleAtOneCharacter | mekss-backend/src/anpr/plate-grammar.ts:147-192 | for texts that differ in one character it holds if and only if the three characters form no such chain |
| EditDistance.NoTriangle | mekss-backend/src/anpr/plate-grammar.ts:147-172 | every canonical plate, standard or of a free zone, with 4, 6 and 9 at any of its digits gives three canonical plates that break the inequality |
| PlateMatcher.WeightedDistance | mekss-backend/src/anpr/plate-matcher.service.ts:155-169 | the loop computes the weighted sum, or the edit distance for plates of different length |
| PlateMatcher.WeightedBounds | mekss-backend/src/anpr/plate-matcher.service.ts:150-169 | the sum is at most the positional cost, and zero exactly when every differing character was itself listed with certainty |
| PlateMatcher.ScoreNear | mekss-backend/src/anpr/plate-matcher.service.ts:94-97 | the scored list holds exactly the open plates within a threshold, by weighted distance and then by distance |
| PlateMatcher.UniqueKeeps | mekss-backend/src/anpr/plate-matcher.service.ts:100-101 | keeping the first of each pass keeps the order, and keeps each pass by its nearest plate |
| PlateMatcher.Choose | mekss-backend/src/anpr/plate-matcher.service.ts:100-106 | the suggestions are at most three, of distinct passes, each by its nearest plate, and none left out comes before one suggested |
| PlateMatcher.IndexByPlate | mekss-backend/src/anpr/plate-matcher.service.ts:136-138 | the index files every plate exactly under itself, in order |
| PlateMatcher.Resolve | mekss-backend/src/anpr/plate-matcher.service.ts:77-108 | exact passes first, then the first alternative with open passes, then the nearest with their rounded distances, otherwise nothing |
| PlateMatcher.MatchedIffOpen | mekss-backend/src/anpr/plate-matcher.service.ts:79-82 | a plate is matched exactly when an open pass bears it, and to all of those |
| PlateMatcher.Answer | mekss-backend/src/anpr/plate-matcher.service.ts:110-128 | the details are exactly the named passes in scope, in the order of the resolution; a match without any becomes not found and drops the cached plates |
| PlateMatcher.Match | mekss-backend/src/anpr/plate-matcher.service.ts:77-128 | the whole of a match: the resolution against the cached plates, then the answer with the details as they are now |
| PlateMatcher.MatchedIffInScope | mekss-backend/src/anpr/plate-matcher.service.ts:119-127 | the guard is told of a match exactly when a pass filed under the plate is still in the actor's scope, open or not, and is then shown exactly those passes |
| PlateMatcher.FreshMatchIsOpen | mekss-backend/src/anpr/plate-matcher.service.ts:79-82 | of plates loaded from the present database, whose passes have unique identities, a match always stands, and every pass shown is open and bears the plate |
| PlateMatcher.QuietMatchIsOpen | mekss-backend/src/anpr/plate-matcher.service.ts:49-82 | over every run of the cache, with no change event on its way, a match against the cached plates stands and shows open passes only |
| PlateMatcher.ShowsClosedIff | mekss-backend/src/core/management.service.ts:1175-1185 | of plates that may be old, a match shows a closed pass if and only if a pass they list under the plate has closed since and is still in scope |
| PlateMatcher.ClosedPassIsShown | mekss-backend/src/anpr/plate-matcher.service.ts:121-123 | for every canonical plate, a pass that closed after the plates were loaded is still matched and shown |
| MatchOutcomes.PriceIs | mekss-backend/src/anpr/plate-grammar.ts:147-177 | substituting a character costs nothing for itself, four tenths for one of the listed look-alikes, and one for any other |
| MatchOutcomes.OneCharacterApart | mekss-backend/src/anpr/plate-grammar.ts:180-192 | texts that differ in one character are as far apart as its price |
| MatchOutcomes.WeightedIs | mekss-backend/src/anpr/plate-matcher.service.ts:155-169 | one more character adds its price, or what the reading leaves open if it lists the other character there and that is less, times 0.35 and 0.65 of its confidence, which is one if unknown |
| MatchOutcomes.SuggestsNearest | mekss-backend/src/anpr/plate-matcher.service.ts:94-108 | the suggestions are one to three open passes at most 0.6 away as weighted or one as it stands, each once and nearest first with its distance to three decimals, none left out is nearer than the three, and nothing is found exactly when no open plate is so near |
| MatchOutcomes.TriedIs | mekss-backend/src/anpr/plate-matcher.service.ts:84-87 | an alternative is tried, as it would be filed and in its turn, exactly if its probability is a twentieth or more |
| MatchOutcomes.DetailsInOrder | mekss-backend/src/anpr/plate-matcher.service.ts:118-121 | the details come in the order in which the resolution first names their passes |
| FusionEvidence.FusePosition | mekss-backend/src/anpr/plate-fusion.ts:115-124 | the loops over one position's map compute the fused evidence |
| FusionEvidence.FusedIsDense | mekss-backend/src/anpr/plate-fusion.ts:113-125 | one frame moves the score of every character, seen or not, by the dense recurrence |
| FusionEvidence.AddMissingKeeps | mekss-backend/src/anpr/plate-fusion.ts:122 | adding the newly proposed characters at the shared score changes no character's score |
| FusionEvidence.AlphabetShare | mekss-backend/src/anpr/plate-fusion.ts:155-160 | over any alphabet with the map's characters the shares are those listed plus the shared score for each other character |
| FusionEvidence.TotalIsWhole | mekss-backend/src/anpr/plate-fusion.ts:158-159 | the total is the sum over the whole alphabet exactly when the alphabet has the assumed size |
| FusionEvidence.PosteriorSumsToOne | mekss-backend/src/anpr/plate-fusion.ts:155-163 | over an alphabet of the assumed size the fused probabilities sum to one |
| FusionEvidence.LettersAreTheGrammar | mekss-backend/src/anpr/plate-grammar.ts:21-35 | the grammar has exactly 25 letters |
| FusionEvidence.LetterTotalFallsShort | mekss-backend/src/anpr/plate-fusion.ts:58 | of any evidence whose characters are letters, the letter's total is whole exactly when all 25 are in the map |
| PlateFusion.Fusion.Push | mekss-backend/src/anpr/plate-fusion.ts:98-148 | one frame takes the state and answer to those of the transition function, which `FusionRuns.PushAnswers` and `FusionRuns.RunIsSettled` spell out over every run |
| PlateFusion.Fusion.ReadCurrent | mekss-backend/src/anpr/plate-fusion.ts:150-185 | plate, confidences, position lists, agreement, alternative plates, and the best frame with its colour and the plate's type, as the state defines them |
| PlateFusion.Fusion.Reset | mekss-backend/src/anpr/plate-fusion.ts:87-96 | a reset leaves a fresh fusion |
| PlateFusion.RunIsSound | mekss-backend/src/anpr/plate-fusion.ts:98-148 | after every run: frames equal the sum of the hit counts and every hit counts its frames exactly; every score is the dense one; a lock is confident enough and backed by enough strong or certain frames of that plate since the last reset; at most one candidate per reset |
| PlateFusion.LockIsAbsorbing | mekss-backend/src/anpr/plate-fusion.ts:99 | a lock absorbs every frame until a reset |
| PlateFusion.SecondDisagreementRestarts | mekss-backend/src/anpr/plate-fusion.ts:104-111 | the second strongly disagreeing frame in a row leaves what a fresh fusion fed only that frame would be |
| PlateFusion.CurrentIsBest | mekss-backend/src/anpr/plate-fusion.ts:155-166 | the fused plate takes at each position a proposed character whose dense score no other proposed one beats, and its confidence is in range |
| PlateFusion.ChoicesAreBest | mekss-backend/src/anpr/plate-fusion.ts:156-163 | each position lists at most three proposed characters with their rounded probabilities, in the order of their dense scores and the plate's own first, and none left out scores higher |
| PlateFusion.AlternativesAreMostRead | mekss-backend/src/anpr/plate-fusion.ts:167-183 | the alternatives are at most five plates read most often since the last reset with their rounded shares, none left out was read more often, and the frame a plate rests on is the most confident of those that read it |
| PlateFusion.RestsOnFrame | mekss-backend/src/anpr/plate-fusion.ts:168-178 | every reading rests on a frame fused since the last reset and shows that frame's colour |
| PlateFusion.TypeOfWholePlate | mekss-backend/src/anpr/plate-fusion.ts:177 | a complete fused plate has the type its letter says, whatever the frames said |
| PlateFusion.RunListsProposed | mekss-backend/src/anpr/plate-fusion.ts:118-122 | after every run a position's map lists exactly the characters that frames since the last reset proposed there |
| PlateFusion.LetterIsShortIff | mekss-backend/src/anpr/plate-fusion.ts:58 | after every run whose frames propose letters, the letter's total is below the sum over the 25 letters if and only if some letter was not proposed since the last reset |
| PlateFusion.FewFramesFallShort | mekss-backend/src/anpr/plate-fusion.ts:58 | it is below after every run whose frames list fewer than 25 characters for the letter together |
| PlateFusion.FirstFrameFallsShort | mekss-backend/src/anpr/plate-fusion.ts:113-125 | a reachable state: it is below after any first readable frame that lists fewer than 25 letters there |
| FusionRuns.RunIsSettled | mekss-backend/src/anpr/plate-fusion.ts:134-147 | after every run the fusion is locked, on its own reading, if and only if that is certain enough and enough strong or certain frames since the last reset read it; and while it is not locked a candidate was suggested if and only if there were frames enough |
| FusionRuns.StandardLock | mekss-backend/src/anpr/plate-fusion.ts:27-35 | with the standard settings: two frames of 0.8 or one of 0.97 on a plate fused at 0.8, and a candidate at the fourth frame |
| FusionRuns.PushAnswers | mekss-backend/src/anpr/plate-fusion.ts:98-148 | after every run: a locked fusion repeats its reading, a frame that is not valid or not of eight positions is passed over, and any other is counted; a second frame in a row over 0.8 and at least 2.5 away leaves only itself; and the answer is the lock, the candidate at the set number of frames if none was suggested, or neither |
| FusionRuns.DenseStep | mekss-backend/src/anpr/plate-fusion.ts:113-125 | one more frame decays a character's score and adds, times the frame's confidence but at least 0.05, the logarithm of the probability last listed for it or of an even share of the rest among 10 or 22, at least 0.001 |
| FusionRuns.ConfidenceIsPosterior | mekss-backend/src/anpr/plate-fusion.ts:152-163 | after every run a character's confidence is its share of the exponentials of the dense scores of all characters that fill its position, ten digits or 22 letters, and zero where none was proposed |
| FusionRuns.ConfidenceIsProduct | mekss-backend/src/anpr/plate-fusion.ts:166 | the plate's confidence is the product of the eight |
| FusionRuns.RestsOnMostRead | mekss-backend/src/anpr/plate-fusion.ts:168-177 | after every run a fused plate that no frame read rests on the best frame of a plate read most often, and one that cannot be read has the type of its frame |
| Billing.SplitEvenly | mekss-backend/src/core/invoice-billing.ts:121-126 | the array holds equal whole-Rial shares with the rest in the last slot |
| Billing.EvenSplitConserves | mekss-backend/src/core/invoice-billing.ts:120-126 | the shares sum exactly to the total, and the last exceeds the others by less than one Rial per installment |
| Billing.RatesNearlyConserved | mekss-backend/src/core/management.service.ts:2521-2522 | the installments' daily rates sum to the original rate within half a cent each |
| Billing.RatesWithin | mekss-backend/src/core/management.service.ts:2521-2522 | the rates together are at most the original one if and only if what their roundings leave adds up to at least the whole for every part |
| Billing.RatesCanExceed | mekss-backend/src/core/management.service.ts:2521-2522 | two halves of a one-cent rate sum to two cents |
| Billing.CarriedSurvives | mekss-backend/src/core/management.service.ts:2213-2221 | replacing the editable lines leaves the carried penalty lines untouched, and only the stored ones |
| LedgerRows.CreateInBooks | mekss-backend/src/core/management.service.ts:1950-1987 | every accepted new invoice balances |
| LedgerRows.TotalAboveCarried | mekss-backend/src/core/management.service.ts:2336-2342 | a balanced invoice's total is never below its carried penalty |
| LedgerRows.UpdateEvolves | mekss-backend/src/core/management.service.ts:2201-2282 | an edit keeps the books, the carried lines, a started penalty's start and rate, and is refused on closed invoices and beside a payment in flight |
| LedgerRows.DiscountEvolves | mekss-backend/src/core/management.service.ts:2330-2348 | a discount keeps the books and never reaches the carried penalty |
| LedgerRows.ExtendEvolves | mekss-backend/src/core/management.service.ts:2403-2422 | an extension keeps the books and a started penalty |
| LedgerRows.CancelEvolves | mekss-backend/src/core/management.service.ts:2367-2391 | a cancellation changes the status of an open invoice and nothing else it could lose |
| LedgerRows.StartIsPreserved | mekss-backend/src/core/management.service.ts:2669-2673 | once late, moving the due date leaves the penalty's start where it was unless the new date is earlier |
| LedgerRows.SettleEvolves | mekss-backend/src/core/management.service.ts:2559-2584 | a manual settlement freezes exactly what was payable at the payment date |
| LedgerRows.PenaltyNeverDrops | mekss-backend/src/core/management.service.ts:6837-6841 | a step that keeps the start and rate never lowers the penalty, then or later |
| LedgerRows.FrozenEqualsCharged | mekss-backend/src/core/management.service.ts:2849-2878 | the frozen payable equals the charge if and only if the total is still the base the payment was started on, or that base was zero and the total is at most the charge |
| LedgerRows.ChildTotal | mekss-backend/src/core/management.service.ts:2505-2530 | an installment's total is its share, plus the accrued penalty on the first one, and is payable in full at once |
| LedgerRows.SplitConserves | mekss-backend/src/core/management.service.ts:2467-2531 | for the even and the custom schedule the installments add up exactly to what was payable, with rates within half a cent each |
| LedgerRows.SplitRatesWithin | mekss-backend/src/core/management.service.ts:2467-2531 | an accepted split accrues at most the original daily rate if and only if the request's shares meet that condition |
| LedgerRows.SplitCanAccrueMore | mekss-backend/src/core/management.service.ts:2521-2522 | an accepted split into halves whose installments accrue twice the original rate |
| LedgerRuns.After | mekss-backend/src/core/management.service.ts:2226-2280 | after every run all books balance: total is amount plus tax less discount, amount is the sum of the lines when there are lines |
| LedgerRuns.ApplySteps | mekss-backend/src/core/management.service.ts:1848-2946 | every operation keeps the books and evolves every invoice, and leaves totals alone beside a payment in flight |
| LedgerRuns.PenaltyNeverDropsNow | mekss-backend/src/core/management.service.ts:2242-2254 | no operation lowers any invoice's penalty at its own moment, by its start and rate, which `LedgerOutcomes.SettlementIs` ties to what is charged |
| LedgerRuns.PenaltyNeverErased | mekss-backend/src/core/management.service.ts:2242-2254 | over any run of operations on a late invoice the penalty at every later time is at least what it would have been; `LedgerPayments.ChargedIsNeverErased` and `LateDaysAreCharged` say the same of what is charged |
| LedgerRuns.CarriedSurvivesRuns | mekss-backend/src/core/management.service.ts:2212-2241 | carried penalty lines survive every run and the total never falls below them |
| LedgerRuns.PaidIsTerminal | mekss-backend/src/core/management.service.ts:2653-2657 | a paid invoice never changes again |
| LedgerRuns.SplitOnlyGetsPaid | mekss-backend/src/core/management.service.ts:2622-2631 | a split parent leaves INSTALLMENTS only to paid by its installments, and changes in nothing else |
| LedgerRuns.RunKeepsQuotes | mekss-backend/src/core/management.service.ts:2639-2646 | while a payment is undecided and less than 30 minutes old, its invoice keeps the total it was started on |
| LedgerRuns.FrozenIsCharged | mekss-backend/src/core/management.service.ts:2824-2916 | a confirmed callback of such a payment freezes exactly what was charged, or leaves a closed invoice alone |
| LedgerRuns.ChargesExactlyIff | mekss-backend/src/core/management.service.ts:2849-2878 | for any payment not yet verified and its open invoice, a confirmed callback freezes the charge if and only if the total is the one it was started on, or that was zero and the total is at most the charge |
| LedgerRuns.FailedPaymentCanDiffer | mekss-backend/src/core/management.service.ts:2827-2831 | a concrete run in which a payment reported failed is confirmed later and the two amounts differ |
| LedgerFamilies.RunKeepsFamilies | mekss-backend/src/core/management.service.ts:2622-2637 | after every run a split parent has at least two installments, is paid exactly when all are paid, and no installment is itself split |
| LedgerFamilies.ApplyKeepsOrder | mekss-backend/src/core/management.service.ts:1848-2946 | every operation keeps the books balanced, payments tied to invoices, and families whole; it is the class invariant of the service |
| LedgerFamilies.CallbackSparesClosed | mekss-backend/src/core/management.service.ts:2863-2878 | a gateway callback changes only an open invoice, and only to awaiting confirmation |
| LedgerReport.DebtMoves | mekss-backend/src/core/management.service.ts:5569-5591 | turning an invoice into a split parent and adding its installments moves its payable between the moments they were issued, so far as the window covers them, counting what the row limit leaves out |
| LedgerReport.SplitKeepsReport | mekss-backend/src/core/management.service.ts:5569-5595 | a split leaves the report's total as it was if and only if what the limit of 2000 rows leaves out grows by just what moves into the window; within the limit, if and only if the window covers both the issue date and the present or neither |
| LedgerReport.SplitPushesOut | mekss-backend/src/core/management.service.ts:5577-5591 | in a window that covers the present and only earlier invoices, the report counts the whole debt and the newest of the rows before, as many as there is room left for |
| LedgerReport.SplitCanChangeReport | mekss-backend/src/core/management.service.ts:5569-5591 | a run in which splitting yesterday's invoice raises today's total from nothing to the whole debt |
| LedgerService.InvoiceService.CreateInvoice | mekss-backend/src/core/management.service.ts:1848-1987 | creating checks the lines, amounts and rate in the source's order and stores exactly the row the model creates, or refuses and stores nothing |
| LedgerService.InvoiceService.UpdateInvoice | mekss-backend/src/core/management.service.ts:2192-2306 | editing, check by check, stores exactly the edited row of the model, or refuses for the model's reason and stores nothing |
| LedgerService.InvoiceService.DiscountInvoice | mekss-backend/src/core/management.service.ts:2330-2364 | a discount within the base less carried penalty is stored with its new total; every other request is refused and stores nothing |
| LedgerService.InvoiceService.CancelInvoice | mekss-backend/src/core/management.service.ts:2367-2401 | an open invoice without a payment in flight is cancelled; every other request is refused and stores nothing |
| LedgerService.InvoiceService.ExtendInvoiceDueDate | mekss-backend/src/core/management.service.ts:2403-2457 | a later due date that is not past is stored with the preserved penalty start; every other request is refused and stores nothing |
| LedgerService.InvoiceService.SplitInvoice | mekss-backend/src/core/management.service.ts:2459-2557 | an accepted schedule, even or custom, freezes the parent and appends exactly the installments of the model; every other request is refused and stores nothing |
| LedgerService.InvoiceService.SettleInvoiceManually | mekss-backend/src/core/management.service.ts:2559-2619 | the invoice is paid with what was payable at the payment date, and its parent completed in the same step when it was the last; `LedgerPayments.SettleOutcome` spells out the amount |
| LedgerService.InvoiceService.ConfirmInvoicePayment | mekss-backend/src/core/management.service.ts:2919-2946 | an awaiting invoice becomes paid, and its parent is completed in the same step when it was the last |
| LedgerService.InvoiceService.CompleteInstallmentParent | mekss-backend/src/core/management.service.ts:2622-2631 | the parent becomes paid exactly when no installment is unpaid |
| LedgerService.InvoiceService.StartOnlinePayment | mekss-backend/src/core/management.service.ts:2725-2822 | an open invoice with something to pay is marked overdue if it is, and a payment of exactly its payable is recorded, once per key; `LedgerPayments.StartOutcome` spells out the amount |
| LedgerService.InvoiceService.VerifyOnlinePayment | mekss-backend/src/core/management.service.ts:2824-2916 | a callback decides its payment once, and freezes the penalty on its invoice only if that is open; `LedgerPayments.VerifyOutcome` and `VerifiedIffConfirmed` say which callbacks verify one |
| LedgerService.InvoiceService.ListInvoices | mekss-backend/src/core/management.service.ts:1815-1823 | listing stores pending invoices past their due day as overdue |
| LedgerOutcomes.SettlementIs | mekss-backend/src/core/management.service.ts:6837-6841 | an unsettled invoice costs its total and the calendar days since its penalty start, or due date, times its rate; a paid, awaiting or split one what was frozen, and a cancelled one no penalty |
| LedgerOutcomes.CreateOutcome | mekss-backend/src/core/management.service.ts:1848-1987 | a new invoice is accepted exactly if its lines, at most twenty, are of the issuer's kinds, positive and titled where they must be, and its amounts and rate are in range; every field stored |
| LedgerOutcomes.UpdateOutcome | mekss-backend/src/core/management.service.ts:2192-2306 | when an edit is refused and why, and every field of the row it leaves |
| LedgerOutcomes.DiscountOutcome | mekss-backend/src/core/management.service.ts:2330-2364 | a discount is accepted exactly on an unsettled invoice without a payment begun in the last half hour, from zero to the base less its penalty lines, and is then the one stored |
| LedgerOutcomes.CancelOutcome | mekss-backend/src/core/management.service.ts:2367-2401 | such an invoice is cancelled, and no other |
| LedgerOutcomes.ExtendOutcome | mekss-backend/src/core/management.service.ts:2403-2457 | such an invoice gets the later date asked for if its day is not over, is pending again, and keeps the date its penalty counts from if one has accrued |
| LedgerOutcomes.SplitOutcome | mekss-backend/src/core/management.service.ts:2459-2557 | when a split is refused and why; the parent freezes the days and penalty accrued; each installment has its part or even share, the first also the penalty as a line, its date, and its share of the rate rounded to a cent |
| LedgerOutcomes.ListOutcome | mekss-backend/src/core/management.service.ts:1815-1823 | exactly the listed pending invoices past their day become overdue |
| LedgerOutcomes.UnknownIsNotFound | mekss-backend/src/core/management.service.ts:1848-2946 | an operation on what is not there changes nothing |
| LedgerPayments.SettleOutcome | mekss-backend/src/core/management.service.ts:2559-2619 | a settlement by hand is accepted exactly on an unsettled invoice without a fresh payment, for a moment at most five minutes ahead and not before its day of issue; it freezes the days and penalty accrued by then, and pays a split parent whose other installments are paid |
| LedgerPayments.ConfirmOutcome | mekss-backend/src/core/management.service.ts:2919-2946 | exactly an awaiting invoice becomes paid, and with it a split parent whose other installments are paid |
| LedgerPayments.StartOutcome | mekss-backend/src/core/management.service.ts:2725-2822 | a payment is begun exactly on an unsettled invoice that costs something, with a key not used before, if the gateway opens; it records the total and the penalty accrued now |
| LedgerPayments.VerifyOutcome | mekss-backend/src/core/management.service.ts:2824-2916 | a callback verifies a payment exactly if it reports success and the provider confirms, and then claims an unsettled invoice with what was charged beyond the total; any other leaves all invoices as they are and the payment failed, unless it was verified |
| LedgerPayments.VerifiedIffConfirmed | mekss-backend/src/core/management.service.ts:2824-2916 | over every run a payment is verified if and only if a successful and confirmed callback reached it |
| LedgerPayments.GatewayNeedsConfirmation | mekss-backend/src/core/management.service.ts:2863-2878 | over every run an invoice awaits confirmation, or counts as paid by the gateway, only if a successful and confirmed callback reached one of its payments |
| LedgerPayments.KeysDiffer | mekss-backend/src/core/management.service.ts:2744-2753 | over every run no two payments share a key |
| LedgerPayments.ChargedIsNeverErased | mekss-backend/src/core/management.service.ts:2242-2254 | over any further run a penalty that has started is charged, on what is still unsettled, for at least the days since its start at no lower rate |
| LedgerPayments.LateDaysAreCharged | mekss-backend/src/core/management.service.ts:2669-2673 | over any further run without an edit of the invoice, what it is charged while unsettled is its total and exactly the calendar days since the first due date that went late, times its rate |
| ReportOutcomes.ReportOutcome | mekss-backend/src/core/management.service.ts:5569-5591 | while at most two thousand invoices were issued in the window, the report adds up what each costs, a split one counting nothing |
| WalletModel.RunIsSound | mekss-backend/src/core/management.service.ts:5247-5322 | under every interleaving: balances are never negative, equal verified amounts less fees, every top-up is credited once exactly if it is verified, and balanceAfter is the balance just after its credit |
| WalletModel.TerminalForever | mekss-backend/src/core/management.service.ts:5260-5272 | a top-up no longer initiated never changes |
| WalletModel.AnswerIsTrue | mekss-backend/src/core/management.service.ts:5231-5322 | however a callback answers, at its read, by its transaction or by throwing, it says success exactly if the top-up is verified, unless and only unless it was to fail a session verified by then, or throws when it is verified or after crediting it |
| WalletModel.CreditAnswers | mekss-backend/src/core/management.service.ts:5297-5322 | a credit answers success if the session is initiated or verified when it runs, and failure otherwise |
| WalletModel.ImmediateAnswerIsTrue | mekss-backend/src/core/management.service.ts:5247-5259 | a callback answers at the read exactly unless the session is still initiated, and then truly and changing nothing |
| WalletModel.SuccessIsVerified | mekss-backend/src/core/management.service.ts:5297-5322 | a callback that answers success answers about a verified top-up |
| WalletModel.FailureCanBeVerified | mekss-backend/src/core/management.service.ts:5262-5273 | a concrete interleaving in which a callback answers failure about a credited top-up |
| WalletModel.CreditKeepsSound | mekss-backend/src/core/management.service.ts:5297-5315 | the claim-and-credit transaction keeps every balance equal to its history |
| WalletModel.ChargeKeepsSound | mekss-backend/src/core/management.service.ts:1357-1378 | the conditional charge keeps balances non-negative and equal to their history |
| WalletService.Wallet.StartTopUp | mekss-backend/src/core/management.service.ts:5168-5216 | a session is opened for whole Rials within the limits, changing no balance |
| WalletService.Wallet.TopUpManually | mekss-backend/src/core/management.service.ts:5125-5147 | a positive amount is credited and recorded as verified with the new balance, in one step |
| WalletService.Wallet.SweepExpired | mekss-backend/src/core/management.service.ts:5076-5083 | exactly the factory's initiated sessions older than a day become cancelled |
| WalletService.Wallet.ReadForCallback | mekss-backend/src/core/management.service.ts:5247-5295 | what a callback will do is decided from the row it read and the provider's answer: credit, or fail or cancel the session; nothing else changes; `WalletOutcomes.ReadOutcome` and `StatusHasReason` say which answers lead to which |
| WalletService.Wallet.ThrowRequest | mekss-backend/src/core/management.service.ts:5231-5238 | a request that throws answers failure, before its transaction with nothing changed but that it is gone, or after it with all that it wrote |
| WalletService.Wallet.ReadForPass | mekss-backend/src/core/management.service.ts:1330-1366 | a pass that need not be paid is created at once; otherwise the charge is left to the transaction, or refused on the balance read |
| WalletService.Wallet.FinishRequest | mekss-backend/src/core/management.service.ts:5297-5322 | the transaction credits only a session still initiated, fails only one still initiated, and charges only a sufficient balance |
| WalletOutcomes.StartOutcome | mekss-backend/src/core/management.service.ts:5168-5216 | a session is opened exactly for a whole number of Rials from ten thousand to two billion, of a known factory, if the gateway opens |
| WalletOutcomes.ManualOutcome | mekss-backend/src/core/management.service.ts:5125-5147 | any positive amount is credited at once, to that balance alone |
| WalletOutcomes.SweepOutcome | mekss-backend/src/core/management.service.ts:5076-5083 | exactly the undecided sessions of the factory more than a day old are cancelled |
| WalletOutcomes.ReadOutcome | mekss-backend/src/core/management.service.ts:5247-5295 | what a callback resolves to do: cancel if the payer said no, credit if the provider may be used, confirms, and the session is at most a day old, and otherwise fail it |
| WalletOutcomes.ReadBalanceOutcome | mekss-backend/src/core/management.service.ts:1330-1366 | a pass that need not be paid, or costs nothing, is made at once; a charge waits if the balance covers it |
| WalletOutcomes.FinishOutcome | mekss-backend/src/core/management.service.ts:5297-5322 | a conclusion writes only a session still undecided, or a balance that covers the fee |
| WalletOutcomes.ThrowOutcome | mekss-backend/src/core/management.service.ts:5231-5238 | a throw leaves what was committed before it |
| WalletOutcomes.StatusHasReason | mekss-backend/src/core/management.service.ts:5231-5322 | under every interleaving a top-up is verified only by hand or by a concluded request that had read it undecided, at most a day old, with the payer's yes, an allowed provider and its confirmation; failed only by one with the payer's yes and anything else missing; cancelled only by one with the payer's no or by a sweep after a day |
| WalletOutcomes.MadeOnce | mekss-backend/src/core/management.service.ts:5205-5215 | every top-up was made by one event, whose moment, factory and amount it keeps |
| WalletOutcomes.SessionHasReason | mekss-backend/src/core/management.service.ts:5270-5322 | a session opened at the gateway is verified only by such a callback |
| GatePassModel.RunIsSound | mekss-backend/src/core/management.service.ts:1458-1666 | under every interleaving: pending passes carry no reviewer, approved ones stand as approved, rejected ones carry a reason and a verifier exactly when the guard stage rejected them |
| GatePassModel.CompletedWasReviewed | mekss-backend/src/core/management.service.ts:1547-1574 | a completed pass was approved by a park manager or super admin and directly after verified by a guard or super admin, both on the declaration it still carries |
| GatePassModel.TerminalForever | mekss-backend/src/core/management.service.ts:1656-1666 | completed and cancelled passes never change |
| GatePassModel.StepKeepsSound | mekss-backend/src/core/management.service.ts:1483-1506 | every read and every claim of every request keeps all passes consistent, an edit of a rejected pass starting the review again |
| GatePassModel.StepChanges | mekss-backend/src/core/management.service.ts:1573-1574 | a step changes a pass only by committing a claim on it, which then writes exactly that claim and one more mark |
| GatePassModel.ChangedIffCommitted | mekss-backend/src/core/management.service.ts:1458-1666 | over any further steps trails only grow, and a pass is unchanged if and only if its trail is, if and only if no claim on it was committed |
| GatePassModel.ReviewCoversWhatWasRead | mekss-backend/src/core/management.service.ts:1547-1574 | a review that succeeds decides on the pass it finds, which is the pass its reviewer read if and only if no claim on it was committed in between |
| GatePassModel.ApprovalMayMissAnEdit | mekss-backend/src/core/management.service.ts:1572-1574 | for every declaration and driver, an interleaving in which a manager who read one driver approves a pass naming another |
| GatePassService.GatePassDesk.ReadForEdit | mekss-backend/src/core/management.service.ts:1470-1501 | only pending and rejected passes of a unit not suspended may be edited; the claim waits on the status read |
| GatePassService.GatePassDesk.ReadForReview | mekss-backend/src/core/management.service.ts:1529-1571 | only the right role may act, on the status of its stage, and a refusal needs a reason; the claim waits on that status |
| GatePassService.GatePassDesk.ReadForCancel | mekss-backend/src/core/management.service.ts:1636-1661 | only pending, approved and rejected passes may be withdrawn; the claim waits on the status read |
| GatePassService.GatePassDesk.FinishRequest | mekss-backend/src/core/management.service.ts:1573-1574 | the claim writes only if the pass still has the status it waits on |
| GatePassOutcomes.EditIsRead | mekss-backend/src/core/management.service.ts:1470-1480 | an edit is taken up exactly on a pending or rejected pass, of a factory that is not suspended, if it enters anything |
| GatePassOutcomes.EditLands | mekss-backend/src/core/management.service.ts:1482-1506 | whatever happens in between, it is written exactly if the status is still the one read: what was entered replaces what was declared, the kind is settled anew if a plate or kind was entered, and a rejected pass starts its review again |
| GatePassOutcomes.ReviewIsRead | mekss-backend/src/core/management.service.ts:1528-1561 | a review is taken up exactly from who may make it, on the status of its stage, and to turn a pass down with a reason that is not blank |
| GatePassOutcomes.ReviewLands | mekss-backend/src/core/management.service.ts:1560-1574 | and it is written exactly if that status is still there: status, reviewer, and the trimmed reason cut at 2000 characters |
| GatePassOutcomes.CancelIsRead | mekss-backend/src/core/management.service.ts:1636-1658 | a withdrawal is taken up exactly from a super admin, park manager or owner, on a pass neither completed nor cancelled |
| GatePassOutcomes.CancelLands | mekss-backend/src/core/management.service.ts:1660-1666 | and leaves the pass cancelled, with a note below those read, exactly if the status is still the one read |
| OpenPlateCache.PlateCache.OpenPlates | mekss-backend/src/anpr/plate-matcher.service.ts:130-147 | a fresh entry is served, a running load joined, otherwise a load begun |
| OpenPlateCache.PlateCache.LandLoad | mekss-backend/src/anpr/plate-matcher.service.ts:135-141 | a load inserts its entry only while it is the one in flight |
| OpenPlateCache.PlateCache.DropLoad | mekss-backend/src/anpr/plate-matcher.service.ts:142-144 | a finished or failed load leaves the in-flight map only if it is still its own |
| OpenPlateCache.PlateCache.InvalidateAll | mekss-backend/src/anpr/plate-matcher.service.ts:72-75 | both maps are emptied |
| OpenPlateCache.RunIsCoherent | mekss-backend/src/anpr/plate-matcher.service.ts:65-147 | under every interleaving: each cached entry is the answer at some version and every later commit's event is still on its way |
| OpenPlateCache.QuietCacheIsExact | mekss-backend/src/anpr/plate-matcher.service.ts:65-75 | with no event on its way every cached entry is the current answer |
| OpenPlateCache.StaleLoadNeverLands | mekss-backend/src/anpr/plate-matcher.service.ts:135-144 | a load begun before an invalidation is never inserted, even beside a newer load of the same actor |
| OpenPlateQuery.QueryIsOpen | mekss-backend/src/core/management.service.ts:1163-1172 | the answer holds approved passes in scope only, newest first, and all of them unless there are more than 5000 |
| OpenPlateQuery.CacheHoldsOpenPasses | mekss-backend/src/anpr/plate-matcher.service.ts:49-75 | with no event on its way the cached plates are the open passes in the actor's scope |
| CacheOutcomes.RequestOutcome | mekss-backend/src/anpr/plate-matcher.service.ts:130-147 | an entry younger than its time is served, a load under way joined, and otherwise one begun |
| CacheOutcomes.LoadIsServed | mekss-backend/src/anpr/plate-matcher.service.ts:130-147 | after every run: a load that no event comes between lands with the actor's answer, is served until its time is over, and leaves room for the next |
| CacheOutcomes.LateLoadSparesNewer | mekss-backend/src/anpr/plate-matcher.service.ts:139-144 | a load no longer under way touches neither the cache nor a newer load |
| CacheOutcomes.DeliveryReloads | mekss-backend/src/anpr/plate-matcher.service.ts:65-75 | after a change event every request begins a load |
| CacheOutcomes.QueryOutcome | mekss-backend/src/core/management.service.ts:1163-1172 | a load lists approved passes of factories in scope, newest first and at most 5000; a list that is not full leaves none out, and a full one none newer than those it has |
| FrameScheduler.SocketState.Dispatch | mekss-backend/src/anpr/anpr.gateway.ts:157-175 | a frame is started, or a timer armed, or nothing is done, as the state says |
| FrameScheduler.SocketState.AcceptFrame | mekss-backend/src/anpr/anpr.gateway.ts:85-100 | a newer frame replaces and acknowledges the waiting one |
| FrameScheduler.SocketState.HandleDisconnect | mekss-backend/src/anpr/anpr.gateway.ts:74-81 | a disconnect acknowledges the waiting frame and disarms the timer |
| FrameScheduler.RunIsSound | mekss-backend/src/anpr/anpr.gateway.ts:74-192 | for every event order: each accepted frame is waiting or acknowledged exactly once, at most one is in processing, starts are at least 125 ms apart and in order of arrival, and while connected a waiting frame has a running one or an armed timer |
| FrameScheduler.RunAcksMatch | mekss-backend/src/anpr/anpr.gateway.ts:177-192 | exactly the started frames are acknowledged as processed or failed |
| FrameScheduler.AllAckedOnce | mekss-backend/src/anpr/anpr.gateway.ts:74-81 | after a disconnect and the end of the running frame every accepted frame has been acknowledged exactly once |
| FrameScheduler.WaitingIsPickedUp | mekss-backend/src/anpr/anpr.gateway.ts:158-174 | a due timer starts the waiting frame, and a settling frame starts it or arms a timer for it |
| SchedulerOutcomes.FrameOutcome | mekss-backend/src/anpr/anpr.gateway.ts:85-100 | a new frame supersedes and acknowledges the waiting one; it is started if nothing is in processing, no timer is set and 125 ms have passed since the last start |
| SchedulerOutcomes.SettledOutcome | mekss-backend/src/anpr/anpr.gateway.ts:171-174 | when a frame settles the waiting one is picked up, if the client is still there |
| SchedulerOutcomes.StartsAreApart | mekss-backend/src/anpr/anpr.gateway.ts:20 | over every run starts are at least 125 ms apart, in order of arrival |
| SchedulerOutcomes.AckHasCause | mekss-backend/src/anpr/anpr.gateway.ts:74-192 | over every run a frame is acknowledged as processed or failed for the end of its own recognition, as superseded for a newer frame while it waited, and as disconnected for the disconnect |
| SchedulerOutcomes.IdleStartsAtOnce | mekss-backend/src/anpr/anpr.gateway.ts:157-175 | a frame that reaches an idle socket in time is in processing at once |
| CircuitBreaker.Breaker.AllowRequest | mekss-backend/src/anpr/circuit-breaker.ts:25-33 | admission as the transition function says |
| CircuitBreaker.Breaker.RecordFailure | mekss-backend/src/anpr/circuit-breaker.ts:46-53 | a failure counts, and opens at the threshold or from half-open |
| CircuitBreaker.Breaker.EndCall | mekss-backend/src/anpr/anpr-engine.service.ts:65-87 | each answer of the engine is reported as success, release or failure and returned, rethrown or failed over as the caller does, and a failover's log line reads the state, which can turn half-open |
| CircuitBreaker.BreakerRefinesHistory | mekss-backend/src/anpr/circuit-breaker.ts:19-53 | for a monotone clock the state read is the one the history defines: closed while the trailing failures are below the threshold, else open or half-open by the time since the last |
| CircuitBreaker.TrialNeverSticks | mekss-backend/src/anpr/circuit-breaker.ts:28-48 | the trial flag is up only while the trial call is outstanding |
| CircuitBreaker.OneTrialAtATime | mekss-backend/src/anpr/circuit-breaker.ts:25-33 | if every call ends in less than the cooldown, at most one is outstanding in half-open |
| CircuitBreaker.TrialIsAloneIffIdle | mekss-backend/src/anpr/circuit-breaker.ts:25-33 | a call admitted in half-open leaves at most one outstanding if and only if none was outstanding before it |
| CircuitBreaker.SlowCallBesideTrial | mekss-backend/src/anpr/circuit-breaker.ts:25-33 | without that bound a slow call can be outstanding beside the trial |
| CircuitBreaker.SecondTrialIff | mekss-backend/src/anpr/circuit-breaker.ts:25-33 | an attempt makes two trials outstanding if and only if one already is, and in half-open the flag is down |
| CircuitBreaker.OneTrialUnlessForeignEnd | mekss-backend/src/anpr/circuit-breaker.ts:25-53 | over every run in which no call but the trial ends while one is outstanding, at most one trial is outstanding and the flag is up for it |
| CircuitBreaker.TwoTrialsAtOnce | mekss-backend/src/anpr/circuit-breaker.ts:25-48 | a run in which the end of a slow call lets a second trial through beside the first |
| BreakerOutcomes.AdmittedIff | mekss-backend/src/anpr/circuit-breaker.ts:24-33 | after every run in order of time a call is let through if and only if the history says so: closed, or half-open with no call trying the engine since the last one ended |
| BreakerOutcomes.EndCounts | mekss-backend/src/anpr/anpr-engine.service.ts:65-87 | a result or a bad image clears the failures, a busy engine and a slow photo count nothing, everything else counts one; and only a result is returned and only a bad image rethrown |
| Nms.Suppress | mekss-anpr/app/pipeline/detector.py:42-57 | the loop keeps what the greedy rule keeps, and terminates because the remaining order strictly shrinks |
| Nms.NmsKeeps | mekss-anpr/app/pipeline/detector.py:42-57 | the kept boxes are distinct, in descending score, pairwise within the threshold, and every dropped box overlaps a kept one of at least its score beyond it |
| Nms.MergeDetections | mekss-anpr/app/pipeline/detector.py:93-99 | the merged detections are separated, come from the input, and absorb every other detection |
| Nms.MergedStays | mekss-anpr/app/pipeline/detector.py:93-99 | suppression of separated detections keeps all of them, whatever the order of ties |
| Nms.TileWindows | mekss-anpr/app/pipeline/detector.py:102-107 | the tiles are all combinations of the two offsets of each axis |
| Nms.DefaultTilesCover | mekss-anpr/app/pipeline/detector.py:102-107 | the tiles lie in the image and cover every pixel exactly when no side is three pixels |
| NmsOutcomes.WithinIff | mekss-anpr/app/pipeline/detector.py:42-57 | two boxes may both be kept if and only if what their sides have in common is at most the threshold of their area together and a billionth |
| NmsOutcomes.ApartOrEqual | mekss-anpr/app/pipeline/detector.py:42-57 | boxes that are apart are both kept, and of two equal ones of a pixel or more one is dropped |
| NmsOutcomes.TilesAre | mekss-anpr/app/pipeline/detector.py:102-107 | each axis has a tile at its beginning and one at its end, of the largest whole number of pixels in 0.62 of it, and at least one |

## Left out

- Floating-point rounding: arithmetic is over reals, and the roundings to four and three digits are exact ones.
- Python's upper clip of probabilities at 1 (`decoder.py`): the modelled floor is that of both engines.
- Image processing, ONNX inference, softmax, and the voting on colour and type of one image: not modelled; a frame comes with its colour and type.
- PlateGrammar.CanonicalOrRaw: the upper-casing of an unreadable value that starts like a free-zone plate is modelled for the letters whose capital is a Latin letter; the normaliser itself depends on no others.
- PlateFusion.Fusion.Push: `lastTop`, which is written and never read, is not kept.
- PlateMatcher.Answer: of a pass's details only identity, plate, factory, approval and date; the unit and its creator are looked up with them.
- Access rights, role scopes (except the roles in gate-pass review), notifications, audit rows, texts and invoice numbers.
- LedgerModel keeps only whether an invoice line has a title, not the title.
- The Excel import of invoices, and the report's filter by factory, its paid and penalty totals and its counts by status.
- Isolation anomalies of the database: every transaction and every conditional update is one atomic step, and ledger operations are whole steps.
- The park's share of the pass fee, and refunds: the first only adds to another total, the second does not exist.
- GatePassModel.CompletedWasReviewed: the declaration is the driver, plate, plate type and cargo; the other editable fields are written in the same way and left out.
- GatePassModel.RunIsSound: the status EXPIRED is not modelled, because no operation of this service sets it, and the older gate-pass service beside it is not part of this model.
- OpenPlateCache.QuietCacheIsExact: the actor's scope does not change, and the scope and the passes are read at one moment.
- FrameScheduler.RunIsSound: session keys and the refusal of empty or oversized frames, which are answered at once, are not part of it.
- CircuitBreaker.OneTrialAtATime: one way over runs; the bound on call duration is sufficient, `SlowCallBesideTrial` shows that it cannot be dropped, and `TrialIsAloneIffIdle` is the exact condition call by call.
- Nms.NmsKeeps: arithmetic is over reals; a zero denominator compares as not within the threshold, as a NaN or infinite overlap does.
