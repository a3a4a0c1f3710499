# Wisconsin Card Sorting Test scoring engine

A model of the scoring core of a browser-based Wisconsin Card Sorting Test
(`script.js`). A participant sorts 128 stimulus cards, one at a time, onto one
of four fixed template cards. A hidden rule (color, form or number) decides
which choice is correct. After ten correct responses in a row a category is
complete and the rule moves on along the schedule C, F, N, C, F, N. The test
ends after 128 trials or six completed categories.

Every response is logged with its response dimension, its correctness, an
ambiguity mark and a perseverative flag. The flag comes from a small state
machine: two consecutive errors of one dimension establish the
perseverated-to principle (PTP), and later errors of that dimension are
perseverative. A retroactive "sandwich" rule can also flag a correct response
that lies between two perseverative errors. The results screen counts trials,
correct responses, perseverative errors and responses, and categories.

Modules, following the parts of the script:

- `Cards`: the card attributes, the four templates, `checkCorrectness`, `getResponseDimension` and `checkAmbiguity`.
- `Deck`: `generateStimulusCards`. It builds the 64 card combinations with three nested loops, doubles them and shuffles them in place by Fisher–Yates on an array.
- `Perseveration`: the PTP state machine of `handleCardChoice`.
- `TrialLog`: the log records, the sandwich rule and the summary counts of `calculateAndDisplayResults`.
- `Session`: the test state as a value; `nextTrial`, `handleCardChoice` and `changeRule` as transitions; the invariant they keep.
- `ScoredTest`: class `Engine`, whose fields are the script's module-level variables. Its methods update those fields in place exactly as the `Session` transitions say.
- `Practice`: the practice round, whose rule rotates C → F → N → C.

`Math.random()` is an oracle argument `picks`, where `picks[i]` is the swap index
chosen at position `i`, with `0 <= picks[i] <= i`. `Date.now() - startTime` is
a `reactionTime` argument. The template the participant clicks is an index
`choice` (0 to 3 for ids 1 to 4).

The sandwich rule follows the code. `results.slice(-3)` takes the last three
log entries as they stand: markers are not skipped. A
marker never counts as a perseverative error. As the middle entry its
`correct` field `'---'` is truthy, but its response `'---'` equals no
dimension, so a marker is never amended. `Sandwich` states this.

## Model

| member | source | states |
|---|---|---|
| Cards.CheckCorrectness | script.js:319-329 | a correct choice agrees with the template on at least one attribute, and a template agreeing on all three is correct under every rule |
| Cards.CorrectnessByDimension | script.js:319-336 | the response dimension is the rule iff the choice is correct under it and under no higher-priority rule; a correct choice never has a lower-priority dimension than the rule |
| Cards.ResponseDimension | script.js:331-336 | the result is a dimension along which stimulus and template agree, or O; no higher-priority rule (C before F before N) would make the choice correct |
| Cards.CheckAmbiguity | script.js:338-346 | the stimulus is ambiguous iff its attribute agreements summed over all four templates exceed 1 |
| Cards.TemplateMatches | script.js:338-346 | the total agreements over the templates are the sum of the four templates' individual agreements |
| Cards.AlwaysAmbiguous | script.js:78-83 | every deck card agrees with the templates on exactly 3 attributes in total, so every stimulus is marked ambiguous |
| Cards.OneTemplateCorrect | script.js:319-329 | under each rule, exactly one of the four templates is correct for a deck card |
| Cards.CorrectButOtherDimension | script.js:319-336 | a choice can be correct under the form rule while its response dimension is C |
| Deck.NumberRowCount | script.js:60-62 | the innermost loop yields the given shape and color once per listed number |
| Deck.NumbersCount | script.js:56 | the numbers list holds 1 to 4 once each |
| Deck.ColorsCount | script.js:55 | the colors list holds every color once |
| Deck.ShapesCount | script.js:54 | the shapes list holds every shape once |
| Deck.ColorRowsCount | script.js:59-63 | the middle loop yields each (color, number) combination of the shape once |
| Deck.ShapeRowsCount | script.js:58-64 | the outer loop yields each combination of the listed shapes once |
| Deck.UniverseCount | script.js:53-64 | the generated card list has 64 cards and holds each combination with number 1 to 4 exactly once |
| Deck.PushNumberRow | script.js:60-62 | the innermost loop appends the row of cards for one shape and color |
| Deck.PushColorRows | script.js:59-63 | the middle loop appends the rows for one shape, in color order |
| Deck.BuildUniverse | script.js:57-64 | the nested loops produce exactly the universe, in loop order |
| Deck.Swap | script.js:72 | positions i and j exchange their cards and every other position keeps its card |
| Deck.Shuffled | script.js:69-73 | the loop's result has the length of its input; `ShuffledPermutes` proves it a permutation |
| Deck.SwapPermutes | script.js:72 | a swap only exchanges two cards |
| Deck.ShuffledPermutes | script.js:69-73 | the Fisher–Yates result is a permutation of its input, whatever the random picks |
| Deck.SwapAt | script.js:72 | the destructuring assignment exchanges positions i and j of the array and nothing else |
| Deck.ShuffleInPlace | script.js:69-73 | the in-place loop from the last index down to 1 leaves exactly `Shuffled` of the initial contents |
| Deck.ShuffledStep | script.js:69-73 | one loop iteration: a swap at i with its pick, then the rest of the loop from i - 1 |
| Deck.ShuffleCopy | script.js:67-73 | copying the doubled list into a fresh array and shuffling it in place yields exactly `Shuffled` of the list |
| Deck.DoubledCount | script.js:67 | any permutation of the doubled list holds each of the 64 combinations exactly twice and nothing else |
| Deck.GenerateStimulusCards | script.js:53-75 | the deck is the universe twice, shuffled by the oracle's picks; it has 128 cards, each of the 64 combinations exactly twice and no other card |
| Perseveration.Track | script.js:243-267 | a correct response clears the error run and keeps the PTP. An error extends the run of its dimension or opens a run of 1. The trial is flagged iff it is an error in the PTP dimension. The PTP changes only from unset, on the second error of a run, and the trial that sets it is not flagged |
| Perseveration.Flags | script.js:248-250 | one flag per response |
| Perseveration.PtpStable | script.js:264-266 | once set, the PTP stays the same for any later responses until the rule changes |
| Perseveration.NoFlagWithoutPtp | script.js:248-250 | while no PTP has been established, no response is flagged |
| Perseveration.EstablishFromFresh | script.js:253-266 | two errors of one dimension from the fresh state set the PTP to it; neither is flagged |
| Perseveration.FreshStreak | script.js:354-356 | after a reset, the next error opens a run of length 1 and is not flagged |
| TrialLog.Sandwich | script.js:281-299 | the log keeps its length and every entry except the one at length - 2. That entry can only gain the perseverative flag. It gains it iff the window is perseverative error, correct trial in the PTP dimension, perseverative error |
| TrialLog.ValidTrials | script.js:377 | the filter keeps only trial records and is no longer than the log |
| TrialLog.CorrectCount | script.js:378 | the correct responses are among the trial records |
| TrialLog.PerseverativeErrors | script.js:380 | the perseverative errors are among the perseverative responses |
| TrialLog.PerseverativeResponses | script.js:381 | the perseverative responses are among the trial records |
| TrialLog.AppendOne | script.js:270-279 | pushing a record adds exactly its contribution to every count |
| TrialLog.SandwichCounts | script.js:281-299 | the sandwich rule changes no count except the perseverative responses, which grow by 0 or 1 |
| TrialLog.CountBounds | script.js:378-381 | perseverative errors ≤ perseverative responses ≤ trial records, and perseverative errors plus correct responses ≤ trial records |
| TrialLog.TrialsPlusMarkers | script.js:377 | every log entry is either a trial record or a marker |
| TrialLog.Summarize | script.js:375-381 | the summary counts trial records only, and trial records plus markers make up the log; the count bounds hold |
| Session.Start | script.js:191-205 | the test starts on the given deck with nothing presented, no log entry, rule C, a fresh perseveration state, no streak and no category |
| Session.IsOver | script.js:212 | under the invariant, the test is over exactly when 128 trials are presented or 6 categories are complete |
| Session.Next | script.js:211-216 | only the trial counter changes; it moves on by one exactly when the test is not over, and never passes 128 |
| Session.AdvanceRule | script.js:348-359 | a rule change leaves the deck and the trial counter alone |
| Session.AdvanceRuleEffect | script.js:348-359 | the streak restarts and the rule index and categories grow by one; while the schedule lasts, its next rule is set, the perseveration state reset and one marker appended; past its end the rule, the perseveration state and the log stay as they are |
| Session.AdvanceInv | script.js:348-359 | completing a category from an answered state keeps the invariant and adds no trial record |
| Session.Record | script.js:270-279 | the pushed entry is a trial record |
| Session.Score | script.js:232-311 | scoring leaves the deck, the trial counter, the rule, the rule index and the categories alone; `ScoreCounts` gives its log counts |
| Session.Respond | script.js:232-313 | a response leaves the deck and the trial counter alone; `RespondInv`, `RespondLog` and `RespondSchedule` state the rest |
| Session.StartInv | script.js:191-205 | the started test satisfies the invariant with nothing presented |
| Session.NextInv | script.js:211-216 | the invariant is kept; the state is unchanged iff 128 trials are done or 6 categories are complete; otherwise the next stimulus is presented and awaits a response |
| Session.RecordClassifies | script.js:232-279 | the record names the trial, the stimulus, its correctness under the current rule, its response dimension and the rule. It is flagged iff it is an error in the earlier trials' PTP dimension, and it is marked ambiguous |
| Session.ScoreCounts | script.js:232-299 | scoring adds exactly one trial record and no marker, and keeps the perseveration state consistent |
| Session.AdvanceCounts | script.js:348-359 | a rule change adds no trial record; it adds a marker exactly when a next rule exists |
| Session.RespondInv | script.js:232-313 | a response keeps the invariant and answers the presented stimulus with exactly one more trial record |
| Session.RespondLog | script.js:269-313 | earlier entries are untouched except the previous one, which can only gain the flag. The new record is at the old length, followed by at most a marker |
| Session.RespondSchedule | script.js:302-313 | a category is completed iff the response is the 10th correct in a row. Then the run restarts and the rule index advances; while the schedule lasts, the next rule is set, the perseveration state reset and a marker logged. The 6th completion sets no rule and logs no marker. Otherwise the run grows, or restarts on an error |
| ScoredTest.Engine.constructor | script.js:191-205 | the fields are `Start` of the doubled universe shuffled by the oracle's picks, a deck with each card combination exactly twice; the invariant holds |
| ScoredTest.Engine.NextTrial | script.js:211-230 | the fields become `Next` of the old fields; nothing is drawn iff the test is over, otherwise the card at `currentTrial - 1` is drawn |
| ScoredTest.Engine.ChangeRule | script.js:348-359 | the fields become `AdvanceRule` of the old fields |
| ScoredTest.Engine.TrackResponse | script.js:243-267 | the perseveration fields and the returned flag are `Track` of the old fields |
| ScoredTest.Engine.ApplySandwich | script.js:281-299 | the log becomes `Sandwich` of the old log under the current PTP |
| ScoredTest.Engine.ClassifyResponse | script.js:234-267 | the record built is `Record` of the old fields, and the perseveration fields become `Track` of the old ones |
| ScoredTest.Engine.ScoreResponse | script.js:232-311 | the fields become `Score` of the old fields |
| ScoredTest.Engine.SubmitResponse | script.js:232-313 | the fields and the result are `Respond` of the old fields; the invariant is kept and the stimulus is answered |
| ScoredTest.Engine.CalculateResults | script.js:375-381 | the summary is `Summarize` of the log; at most 128 trials; once every stimulus is answered, the completed trials equal the trial records; at most 6 categories |
| Practice.RotationIndex | script.js:176 | every rule has a position in the rotation, so `indexOf` never gives -1 |
| Practice.NextPracticeRule | script.js:176-177 | the next rule differs from the current one and sits one place further along the rotation, wrapping around |
| Practice.RotationCycles | script.js:176-177 | the next practice rule differs from the current one, and three steps come back to it |
| Practice.RotationFollowsSequence | script.js:176-177 | the practice rotation agrees with the scored test's rule schedule |
| Practice.PracticeStep | script.js:170-185 | the rule changes iff the response is the 10th correct in a row, and then to the next rule; the run grows by one or restarts at 0 and stays below 10 |
| Practice.CorrectStreak | script.js:170-172 | fewer correct responses than complete the run keep the rule and lengthen the run |
| Practice.TenCorrectSwitch | script.js:170-178 | ten correct responses from a cleared run move the practice to the next rule |
| Practice.PracticeRunAppend | script.js:165-189 | folding one more response onto a run of responses |
| Practice.PracticeRound.constructor | script.js:102-116 | the practice starts with its own deck, the doubled universe shuffled by the oracle's picks and holding each combination twice, the rule C, no run and no trial |
| Practice.PracticeRound.NextTrial | script.js:148-155 | the trial counter advances and the card drawn is the deck card at that counter modulo the deck size |
| Practice.PracticeRound.Respond | script.js:165-185 | correctness is judged under the practice rule; rule and run become `PracticeStep` of the old ones |

## Left out

- The DOM: login, containers, card rendering (`createCardElement`), hover effects, the feedback texts and the results table markup.
- `setTimeout` between trials. `SubmitResponse` requires that the presented stimulus is not yet answered, the alternation the script's flow gives. A second click during the feedback delay is not modelled.
- `Date.now()`: the reaction time is an argument.
- `Math.random()`: the swap indices are an oracle argument.
- The accuracy percentage (`toFixed`, floating point) of the results screen, and the Excel export (`exportToExcel`, the XLSX library).
- Record strings: the stimulus descriptor `${number}${color}${shape}` is kept as the card itself, and the marker's display texts as its category count and rule.
- `userName` and its validation in `startTest`.
- ScoredTest.Engine.constructor: it models the first start of the real test. `startRealTest` does not reset `consecutiveIncorrectCount`, which is still 0 from its declaration because the practice never touches it.
- Practice.PracticeRound.Respond: `handlePracticeCardChoice` also computes a response dimension that it never uses; the model omits it.
- `checkCorrectness` picks the practice or the test rule by which container is visible. The model passes the rule as a parameter: the rule of `PracticeRound` in the practice and `currentRule` in the test.
