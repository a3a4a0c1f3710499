/**
 * The state of a scored test as a value, and the three transitions the
 * script applies to it: presenting the next stimulus (`nextTrial`), scoring a
 * response (`handleCardChoice`) and completing a category (`changeRule`).
 * The class in module ScoredTest updates its fields as these functions say.
 */
module Session {
  import opened Wrappers
  import opened Cards
  import opened Perseveration
  import opened TrialLog

  /** Stimuli in one test. */
  const TotalTrials: nat := 128
  /** The rule schedule: each dimension twice. */
  const RuleSequence: seq<Rule> := [C, F, N, C, F, N]
  /** Consecutive correct responses that complete a category. */
  const CategoryRun: nat := 10
  /** Completed categories at which `nextTrial` ends the test. */
  const MaxCategories: nat := 6

  datatype State = State(
    currentTrial: nat,
    stimulusCards: seq<Card>,
    results: seq<Rec>,
    currentRule: Rule,
    ruleIndex: nat,
    consecutiveCorrect: nat,
    pers: PState,
    categoriesCompleted: nat)

  /** The rule in force after `ruleIndex` advances; the sixth leaves the last rule in force. */
  function RuleAt(ruleIndex: nat): Rule {
    if ruleIndex < |RuleSequence| then RuleSequence[ruleIndex] else RuleSequence[|RuleSequence| - 1]
  }

  /** Trial records in the log. */
  function TrialCount(st: State): nat {
    |ValidTrials(st.results)|
  }

  /** Every presented stimulus has been answered. */
  predicate Answered(st: State) {
    TrialCount(st) == st.currentTrial
  }

  /** Stimulus `currentTrial` is presented and waits for its response. */
  predicate Awaiting(st: State) {
    TrialCount(st) + 1 == st.currentTrial && st.categoriesCompleted < MaxCategories
  }

  /**
   * What holds between any two steps of a test: a deck of 128 cards of the
   * universe, at most 128 trials presented, the rule
   * index equals the categories completed (at most 6) and names the rule in
   * force, a streak of correct responses is shorter than 10, one marker per
   * rule change that set a new rule, and one trial record per answered stimulus.
   */
  predicate Inv(st: State) {
    |st.stimulusCards| == TotalTrials &&
    (forall k :: 0 <= k < |st.stimulusCards| ==> InUniverse(st.stimulusCards[k])) &&
    st.currentTrial <= TotalTrials &&
    st.ruleIndex == st.categoriesCompleted <= MaxCategories &&
    st.currentRule == RuleAt(st.ruleIndex) &&
    st.consecutiveCorrect < CategoryRun &&
    Consistent(st.pers) &&
    MarkerCount(st.results) == (if st.categoriesCompleted < |RuleSequence| then st.categoriesCompleted else |RuleSequence| - 1) &&
    (Answered(st) || Awaiting(st))
  }

  /** The state `startRealTest` sets up for a generated deck. */
  function Start(deck: seq<Card>): (r: State)
    ensures r.stimulusCards == deck && r.currentTrial == 0 && TrialCount(r) == 0 && MarkerCount(r.results) == 0
    ensures r.currentRule == C && r.pers == Fresh && r.categoriesCompleted == 0 && r.consecutiveCorrect == 0
  {
    State(0, deck, [], RuleSequence[0], 0, 0, Fresh, 0)
  }

  /** `nextTrial`'s guard: the test is over after 128 trials or 6 categories. */
  predicate IsOver(st: State)
    ensures Inv(st) ==> (IsOver(st) <==> st.currentTrial == TotalTrials || st.categoriesCompleted == MaxCategories)
  {
    st.currentTrial >= TotalTrials || st.categoriesCompleted >= MaxCategories
  }

  /**
   * `nextTrial`: nothing but the trial counter changes; it moves on by one
   * exactly when the test is not over, and so never passes 128.
   */
  function Next(st: State): (r: State)
    ensures r.(currentTrial := st.currentTrial) == st
    ensures r.currentTrial == if IsOver(st) then st.currentTrial else st.currentTrial + 1
    ensures st.currentTrial <= TotalTrials ==> r.currentTrial <= TotalTrials
  {
    if IsOver(st) then st else st.(currentTrial := st.currentTrial + 1)
  }

  /** `changeRule`. */
  function AdvanceRule(st: State): (r: State)
    ensures r.stimulusCards == st.stimulusCards && r.currentTrial == st.currentTrial
  {
    var ruleIndex := st.ruleIndex + 1;
    var categories := st.categoriesCompleted + 1;
    if ruleIndex < |RuleSequence| then
      st.(consecutiveCorrect := 0, ruleIndex := ruleIndex, categoriesCompleted := categories,
          currentRule := RuleSequence[ruleIndex], pers := Fresh,
          results := st.results + [Marker(categories, RuleSequence[ruleIndex])])
    else
      st.(consecutiveCorrect := 0, ruleIndex := ruleIndex, categoriesCompleted := categories)
  }

  /** The record `handleCardChoice` pushes for choosing template `choice`. */
  function Record(st: State, choice: nat, reactionTime: int): (r: Rec)
    requires 1 <= st.currentTrial <= |st.stimulusCards| && choice < |Templates|
    ensures r.Trial?
  {
    var stim := st.stimulusCards[st.currentTrial - 1];
    var template := Templates[choice];
    var correct := CheckCorrectness(stim, template, st.currentRule);
    var dim := ResponseDimension(stim, template);
    Trial(st.currentTrial, stim, dim, correct, Track(st.pers, correct, dim).1,
          MatchesAgainst(stim, Templates) > 1, st.currentRule, reactionTime)
  }

  /**
   * `handleCardChoice` up to its rule check: the perseveration update, the
   * push of the trial record, the sandwich rule and the streak of correct responses.
   */
  function Score(st: State, choice: nat, reactionTime: int): (r: State)
    requires 1 <= st.currentTrial <= |st.stimulusCards| && choice < |Templates|
    ensures r.stimulusCards == st.stimulusCards && r.currentTrial == st.currentTrial
    ensures r.currentRule == st.currentRule && r.ruleIndex == st.ruleIndex &&
            r.categoriesCompleted == st.categoriesCompleted
  {
    var rec := Record(st, choice, reactionTime);
    var pers := Track(st.pers, rec.correct, rec.response).0;
    st.(pers := pers,
        results := Sandwich(st.results + [rec], pers.ptp),
        consecutiveCorrect := if rec.correct then st.consecutiveCorrect + 1 else 0)
  }

  /** `handleCardChoice`: the new state and whether the response was correct. */
  function Respond(st: State, choice: nat, reactionTime: int): (r: (State, bool))
    requires 1 <= st.currentTrial <= |st.stimulusCards| && choice < |Templates|
    ensures r.0.stimulusCards == st.stimulusCards && r.0.currentTrial == st.currentTrial
  {
    var correct := Record(st, choice, reactionTime).correct;
    var scored := Score(st, choice, reactionTime);
    (if correct && scored.consecutiveCorrect == CategoryRun then AdvanceRule(scored) else scored, correct)
  }

  // ---------------------------------------------------------------------------
  // Properties of the transitions
  // ---------------------------------------------------------------------------

  lemma StartInv(deck: seq<Card>)
    requires |deck| == TotalTrials && forall k :: 0 <= k < |deck| ==> InUniverse(deck[k])
    ensures Inv(Start(deck)) && Answered(Start(deck))
  {
  }

  /** Presenting a stimulus keeps the invariant; it happens exactly when the test is not over. */
  lemma NextInv(st: State)
    requires Inv(st) && Answered(st)
    ensures Inv(Next(st))
    ensures IsOver(st) ==> Next(st) == st
    ensures !IsOver(st) ==> Awaiting(Next(st)) && Next(st).currentTrial == st.currentTrial + 1
  {
  }

  /**
   * The pushed record is classified against the rule in force, its own flag
   * against the PTP of earlier trials, and it is always marked ambiguous.
   */
  lemma RecordClassifies(st: State, choice: nat, reactionTime: int)
    requires Inv(st) && Awaiting(st) && choice < |Templates|
    ensures var rec := Record(st, choice, reactionTime);
      var stim := st.stimulusCards[st.currentTrial - 1];
      rec.trial == st.currentTrial && rec.stimulus == stim &&
      rec.correct == CheckCorrectness(stim, Templates[choice], st.currentRule) &&
      rec.response == ResponseDimension(stim, Templates[choice]) &&
      (rec.perseverative <==> !rec.correct && st.pers.ptp == Some(rec.response)) &&
      rec.ambiguous && rec.rule == st.currentRule
  {
    AlwaysAmbiguous(st.stimulusCards[st.currentTrial - 1]);
  }

  /** Scoring logs exactly one more trial record and no marker, and leaves the schedule alone. */
  lemma ScoreCounts(st: State, choice: nat, reactionTime: int)
    requires 1 <= st.currentTrial <= |st.stimulusCards| && choice < |Templates|
    ensures var sc := Score(st, choice, reactionTime);
      TrialCount(sc) == TrialCount(st) + 1 && MarkerCount(sc.results) == MarkerCount(st.results) &&
      Consistent(sc.pers)
  {
    var rec := Record(st, choice, reactionTime);
    var pers := Track(st.pers, rec.correct, rec.response).0;
    AppendOne(st.results, rec);
    SandwichCounts(st.results + [rec], pers.ptp);
  }

  /**
   * `changeRule` on its own: the streak restarts, the rule index and the
   * categories move on by one; while the schedule lasts, its next rule is set,
   * the perseveration state reset and one marker appended; past its end the
   * rule, the perseveration state and the log are left as they are.
   */
  lemma AdvanceRuleEffect(st: State)
    ensures var r := AdvanceRule(st);
      r.consecutiveCorrect == 0 && r.ruleIndex == st.ruleIndex + 1 &&
      r.categoriesCompleted == st.categoriesCompleted + 1 &&
      (st.ruleIndex + 1 < |RuleSequence| ==>
         r.currentRule == RuleSequence[st.ruleIndex + 1] && r.pers == Fresh &&
         r.results == st.results + [Marker(r.categoriesCompleted, r.currentRule)]) &&
      (st.ruleIndex + 1 >= |RuleSequence| ==>
         r.currentRule == st.currentRule && r.pers == st.pers && r.results == st.results)
  {
  }

  /** A rule change logs no trial record, and a marker exactly when it sets a new rule. */
  lemma AdvanceCounts(st: State)
    ensures TrialCount(AdvanceRule(st)) == TrialCount(st)
    ensures MarkerCount(AdvanceRule(st).results) ==
      MarkerCount(st.results) + (if st.ruleIndex + 1 < |RuleSequence| then 1 else 0)
  {
  }

  /**
   * A response keeps the invariant, and leaves the presented stimulus answered
   * by exactly one more trial record.
   */
  lemma RespondInv(st: State, choice: nat, reactionTime: int)
    requires Inv(st) && Awaiting(st) && choice < |Templates|
    ensures Inv(Respond(st, choice, reactionTime).0)
    ensures Answered(Respond(st, choice, reactionTime).0)
    ensures TrialCount(Respond(st, choice, reactionTime).0) == TrialCount(st) + 1
  {
    var rec := Record(st, choice, reactionTime);
    var scored := Score(st, choice, reactionTime);
    ScoreCounts(st, choice, reactionTime);
    assert scored.consecutiveCorrect <= st.consecutiveCorrect + 1;
    if rec.correct && scored.consecutiveCorrect == CategoryRun {
      assert Respond(st, choice, reactionTime).0 == AdvanceRule(scored);
      AdvanceInv(scored);
    } else {
      assert Respond(st, choice, reactionTime).0 == scored;
    }
  }

  /** Completing a category from an answered state keeps the invariant. */
  lemma AdvanceInv(st: State)
    requires |st.stimulusCards| == TotalTrials
    requires forall k :: 0 <= k < |st.stimulusCards| ==> InUniverse(st.stimulusCards[k])
    requires st.currentTrial <= TotalTrials && Answered(st)
    requires st.ruleIndex == st.categoriesCompleted < MaxCategories && st.currentRule == RuleAt(st.ruleIndex)
    requires MarkerCount(st.results) == st.categoriesCompleted && Consistent(st.pers)
    ensures Inv(AdvanceRule(st)) && Answered(AdvanceRule(st))
    ensures TrialCount(AdvanceRule(st)) == TrialCount(st)
  {
    AdvanceCounts(st);
    AdvanceRuleEffect(st);
    var r := AdvanceRule(st);
    assert TrialCount(r) == r.currentTrial;
    if st.ruleIndex + 1 < |RuleSequence| {
      assert r.currentRule == RuleAt(r.ruleIndex);
      assert MarkerCount(r.results) == r.categoriesCompleted;
    } else {
      assert r.categoriesCompleted == MaxCategories;
      assert MarkerCount(r.results) == |RuleSequence| - 1;
    }
  }

  /**
   * The log after a response: every earlier record is untouched except the
   * one just before the new record, which can only gain the perseverative
   * flag; then comes the new trial record, then at most a rule-change marker.
   */
  lemma RespondLog(st: State, choice: nat, reactionTime: int)
    requires Inv(st) && Awaiting(st) && choice < |Templates|
    ensures var r := Respond(st, choice, reactionTime).0;
      var n := |st.results|;
      n + 1 <= |r.results| <= n + 2 &&
      (forall k :: 0 <= k < n - 1 ==> r.results[k] == st.results[k]) &&
      (n >= 1 ==> r.results[n - 1] == st.results[n - 1] ||
                  (st.results[n - 1].Trial? && r.results[n - 1] == st.results[n - 1].(perseverative := true))) &&
      r.results[n] == Record(st, choice, reactionTime) &&
      (|r.results| == n + 2 ==> r.results[n + 1].Marker?)
  {
    var rec := Record(st, choice, reactionTime);
    var pers := Track(st.pers, rec.correct, rec.response).0;
    assert Sandwich(st.results + [rec], pers.ptp)[|st.results|] == rec;
  }

  /**
   * The schedule after a response: a category is completed exactly when the
   * response is the tenth correct one in a row.  Then the streak restarts and
   * the rule index advances; while the schedule lasts, the next rule is set,
   * the perseveration state reset and a marker logged; the sixth completion
   * sets no rule and logs no marker.  Otherwise the streak grows or, on an
   * error, restarts, and the perseveration state is `Track`'s.
   */
  lemma RespondSchedule(st: State, choice: nat, reactionTime: int)
    requires Inv(st) && Awaiting(st) && choice < |Templates|
    ensures var (r, correct) := Respond(st, choice, reactionTime);
      var rec := Record(st, choice, reactionTime);
      var advance := correct && st.consecutiveCorrect + 1 == CategoryRun;
      correct == rec.correct &&
      (advance <==> r.categoriesCompleted == st.categoriesCompleted + 1) &&
      (!advance ==>
         r.categoriesCompleted == st.categoriesCompleted && r.ruleIndex == st.ruleIndex &&
         r.currentRule == st.currentRule &&
         r.consecutiveCorrect == (if correct then st.consecutiveCorrect + 1 else 0) &&
         r.pers == Track(st.pers, correct, rec.response).0) &&
      (advance ==> r.consecutiveCorrect == 0 && r.ruleIndex == st.ruleIndex + 1) &&
      (advance && r.ruleIndex < |RuleSequence| ==>
         r.currentRule == RuleSequence[r.ruleIndex] && r.pers == Fresh &&
         r.results[|r.results| - 1] == Marker(r.categoriesCompleted, r.currentRule)) &&
      (advance && r.ruleIndex >= |RuleSequence| ==>
         r.currentRule == st.currentRule && r.pers == Track(st.pers, correct, rec.response).0 &&
         MarkerCount(r.results) == MarkerCount(st.results))
  {
  }
}
