/**
 * The scored test as the script runs it: module-level variables updated in
 * place by `startRealTest`, `nextTrial`, `handleCardChoice` and `changeRule`.
 * Each method changes the fields exactly as the corresponding transition of
 * module Session says, and so keeps `Session.Inv`.
 */
module ScoredTest {
  import opened Wrappers
  import opened Cards
  import opened Deck
  import opened Perseveration
  import opened TrialLog
  import opened Session

  class Engine {
    var currentTrial: nat
    var stimulusCards: seq<Card>
    var results: seq<Rec>
    var currentRule: Rule
    var ruleIndex: nat
    var consecutiveCorrect: nat
    var ptpDimension: Option<Dim>
    var lastIncorrectDimension: Option<Dim>
    var consecutiveIncorrectCount: nat
    var categoriesCompleted: nat

    /** The three perseveration variables as one value. */
    function Perseveration(): PState
      reads this
    {
      PState(ptpDimension, lastIncorrectDimension, consecutiveIncorrectCount)
    }

    /** The fields as one state value. */
    function View(): State
      reads this
    {
      State(currentTrial, stimulusCards, results, currentRule, ruleIndex, consecutiveCorrect,
            Perseveration(), categoriesCompleted)
    }

    ghost predicate Valid()
      reads this
    {
      Inv(View())
    }

    /** `startRealTest`: a freshly shuffled deck, an empty log and the first rule. */
    constructor (picks: seq<int>)
      requires ValidPicks(picks, TotalTrials)
      ensures Valid() && Answered(View())
      ensures View() == Start(stimulusCards)
      ensures stimulusCards == Shuffled(Universe() + Universe(), picks, |picks| - 1)
      ensures forall c :: multiset(stimulusCards)[c] == if InUniverse(c) then 2 else 0
    {
      var deck := GenerateStimulusCards(picks);
      stimulusCards := deck;
      currentTrial := 0;
      results := [];
      currentRule := RuleSequence[0];
      ruleIndex := 0;
      consecutiveCorrect := 0;
      categoriesCompleted := 0;
      ptpDimension := None;
      lastIncorrectDimension := None;
      consecutiveIncorrectCount := 0;
      new;
      forall k | 0 <= k < |deck| ensures InUniverse(deck[k]) {
        assert multiset(deck)[deck[k]] > 0;
      }
      StartInv(deck);
    }

    /**
     * `nextTrial`: ends the test, drawing nothing, exactly when 128 trials are
     * done or 6 categories are complete; otherwise presents the next card.
     */
    method NextTrial() returns (drawn: Option<Card>)
      requires Valid() && Answered(View())
      modifies this`currentTrial
      ensures Valid()
      ensures View() == Next(old(View()))
      ensures drawn == if IsOver(old(View())) then None else Some(stimulusCards[currentTrial - 1])
    {
      NextInv(View());
      if currentTrial >= TotalTrials || categoriesCompleted >= MaxCategories {
        drawn := None;
        return;
      }
      currentTrial := currentTrial + 1;
      drawn := Some(stimulusCards[currentTrial - 1]);
    }

    /** `changeRule`. */
    method ChangeRule()
      modifies this`consecutiveCorrect, this`ruleIndex, this`categoriesCompleted, this`currentRule,
               this`ptpDimension, this`lastIncorrectDimension, this`consecutiveIncorrectCount, this`results
      ensures View() == AdvanceRule(old(View()))
    {
      AdvanceRuleEffect(View());
      consecutiveCorrect := 0;
      ruleIndex := ruleIndex + 1;
      categoriesCompleted := categoriesCompleted + 1;
      if ruleIndex < |RuleSequence| {
        var rule := RuleSequence[ruleIndex];
        currentRule := rule;
        ptpDimension := None;
        lastIncorrectDimension := None;
        consecutiveIncorrectCount := 0;
        results := results + [Marker(categoriesCompleted, rule)];
      }
    }

    /** The perseveration update of `handleCardChoice` and this trial's own flag. */
    method TrackResponse(correct: bool, responseDimension: Dim) returns (perseverative: bool)
      modifies this`ptpDimension, this`lastIncorrectDimension, this`consecutiveIncorrectCount
      ensures (Perseveration(), perseverative) == Track(old(Perseveration()), correct, responseDimension)
    {
      perseverative := false;
      if correct {
        consecutiveIncorrectCount := 0;
        lastIncorrectDimension := None;
      } else {
        // the flag is decided before this trial can establish the PTP
        if ptpDimension.Some? && responseDimension == ptpDimension.value {
          perseverative := true;
        }
        if Some(responseDimension) == lastIncorrectDimension {
          consecutiveIncorrectCount := consecutiveIncorrectCount + 1;
        } else {
          consecutiveIncorrectCount := 1;
          lastIncorrectDimension := Some(responseDimension);
        }
        if ptpDimension == None && consecutiveIncorrectCount == 2 {
          ptpDimension := lastIncorrectDimension;
        }
      }
    }

    /** The sandwich rule of `handleCardChoice`, amending the record at `length - 2` in place. */
    method ApplySandwich()
      modifies this`results
      ensures results == Sandwich(old(results), ptpDimension)
    {
      if |results| >= 3 {
        var first, middle, last := results[|results| - 3], results[|results| - 2], results[|results| - 1];
        if IsPerseverativeError(first) && IsPerseverativeError(last) && (middle.Marker? || middle.correct) {
          if middle.Trial? && ptpDimension == Some(middle.response) {
            var middleIndex := |results| - 2;
            results := results[middleIndex := results[middleIndex].(perseverative := true)];
          }
        }
      }
    }

    /**
     * The first part of `handleCardChoice`: classifies the response to the
     * presented stimulus, updates the perseveration variables and builds the
     * record to be logged.
     */
    method ClassifyResponse(choice: nat, reactionTime: int) returns (record: Rec)
      requires 1 <= currentTrial <= |stimulusCards| && choice < |Templates|
      modifies this`ptpDimension, this`lastIncorrectDimension, this`consecutiveIncorrectCount
      ensures record == Record(old(View()), choice, reactionTime)
      ensures Perseveration() == Track(old(Perseveration()), record.correct, record.response).0
    {
      var stimulus := stimulusCards[currentTrial - 1];
      var template := Templates[choice];
      var correct := CheckCorrectness(stimulus, template, currentRule);
      var responseDimension := ResponseDimension(stimulus, template);
      var isAmbiguous := CheckAmbiguity(stimulus);
      var perseverative := TrackResponse(correct, responseDimension);
      record := Trial(currentTrial, stimulus, responseDimension, correct, perseverative,
                      isAmbiguous, currentRule, reactionTime);
    }

    /**
     * The scoring part of `handleCardChoice`: scores the presented stimulus
     * against template `choice`, logs one trial record, applies the sandwich
     * rule and updates the run of correct responses.
     */
    method ScoreResponse(choice: nat, reactionTime: int) returns (correct: bool)
      requires 1 <= currentTrial <= |stimulusCards| && choice < |Templates|
      modifies this`results, this`consecutiveCorrect, this`ptpDimension, this`lastIncorrectDimension,
               this`consecutiveIncorrectCount
      ensures View() == Score(old(View()), choice, reactionTime)
      ensures correct == Record(old(View()), choice, reactionTime).correct
    {
      var record := ClassifyResponse(choice, reactionTime);
      correct := record.correct;
      results := results + [record];
      ApplySandwich();
      if correct {
        consecutiveCorrect := consecutiveCorrect + 1;
      } else {
        consecutiveCorrect := 0;
      }
    }

    /**
     * `handleCardChoice` for template `choice` (0 to 3 for ids 1 to 4): scores
     * the response and completes a category on the tenth correct response in a row.
     */
    method SubmitResponse(choice: nat, reactionTime: int) returns (correct: bool)
      requires Valid() && Awaiting(View())
      requires choice < |Templates|
      modifies this
      ensures Valid() && Answered(View())
      ensures (View(), correct) == Respond(old(View()), choice, reactionTime)
    {
      ghost var st := View();
      RespondInv(st, choice, reactionTime);
      correct := ScoreResponse(choice, reactionTime);
      if correct && consecutiveCorrect == CategoryRun {
        ChangeRule();
      }
    }

    /**
     * The counts of `calculateAndDisplayResults`: at most 128 trial records
     * and at most 6 categories; once every presented stimulus is answered, the
     * completed trials shown are exactly the trial records.
     */
    method CalculateResults() returns (s: Summary)
      requires Valid()
      ensures s == Summarize(results, currentTrial, categoriesCompleted)
      ensures s.validTrials <= s.totalCompleted <= TotalTrials
      ensures Answered(View()) ==> s.totalCompleted == s.validTrials
      ensures s.categoriesCompleted <= MaxCategories
      ensures s.perseverativeErrors <= s.perseverativeResponses <= s.validTrials
      ensures s.correctResponses <= s.validTrials
    {
      s := Summarize(results, currentTrial, categoriesCompleted);
    }
  }
}
