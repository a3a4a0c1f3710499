/**
 * The practice round (`startTest`, `nextPracticeTrial`,
 * `handlePracticeCardChoice`): scored against its own rule, which rotates
 * C -> F -> N -> C after ten correct responses in a row, with nothing logged
 * and no category counted.
 */
module Practice {
  import opened Cards
  import opened Deck
  import opened Session

  /** The rotation `handlePracticeCardChoice` looks its rule up in. */
  const Rotation: seq<Rule> := [C, F, N]

  /** Position of a rule in `Rotation`; every rule has one, so `indexOf` never gives -1. */
  function RotationIndex(r: Rule): (i: nat)
    ensures i < |Rotation| && Rotation[i] == r
  {
    if r == C then 0 else if r == F then 1 else 2
  }

  /** The rule after `r`: the next entry of `Rotation`, wrapping around. */
  function NextPracticeRule(r: Rule): (n: Rule)
    ensures n != r
    ensures RotationIndex(n) == (RotationIndex(r) + 1) % |Rotation|
  {
    Rotation[(RotationIndex(r) + 1) % |Rotation|]
  }

  /** The rotation always moves to another rule and comes back after three steps. */
  lemma RotationCycles(r: Rule)
    ensures NextPracticeRule(r) != r
    ensures NextPracticeRule(NextPracticeRule(r)) != r
    ensures NextPracticeRule(NextPracticeRule(NextPracticeRule(r))) == r
  {
  }

  /** The practice rotation follows the same order as the scored test's rule sequence. */
  lemma RotationFollowsSequence(k: nat)
    requires k + 1 < |RuleSequence|
    ensures NextPracticeRule(RuleSequence[k]) == RuleSequence[k + 1]
  {
  }

  /**
   * One practice response: the new rule and run of correct responses. An
   * error clears the run; the tenth correct response in a row moves to the
   * next rule and clears the run; any other correct response extends it.
   */
  function PracticeStep(rule: Rule, run: nat, correct: bool): (r: (Rule, nat))
    ensures r.0 != rule <==> correct && run + 1 == CategoryRun
    ensures r.0 != rule ==> r.0 == NextPracticeRule(rule)
    ensures r.1 == (if correct && run + 1 != CategoryRun then run + 1 else 0)
    ensures run < CategoryRun ==> r.1 < CategoryRun
  {
    RotationCycles(rule);
    if !correct then (rule, 0)
    else if run + 1 == CategoryRun then (NextPracticeRule(rule), 0)
    else (rule, run + 1)
  }

  /** A sequence of practice responses folded through `PracticeStep`. */
  function PracticeRun(rule: Rule, run: nat, responses: seq<bool>): (Rule, nat)
    decreases |responses|
  {
    if |responses| == 0 then (rule, run)
    else
      var next := PracticeStep(rule, run, responses[0]);
      PracticeRun(next.0, next.1, responses[1..])
  }

  /** Fewer correct responses than are needed to finish the run keep the rule and lengthen the run. */
  lemma {:induction false} CorrectStreak(rule: Rule, run: nat, k: nat)
    requires run + k < CategoryRun
    ensures PracticeRun(rule, run, seq(k, _ => true)) == (rule, run + k)
    decreases k
  {
    if k > 0 {
      assert seq(k, _ => true)[1..] == seq(k - 1, _ => true);
      CorrectStreak(rule, run + 1, k - 1);
    }
  }

  /** Ten correct responses in a row from a cleared run move the practice to the next rule. */
  lemma {:induction false} TenCorrectSwitch(rule: Rule)
    ensures PracticeRun(rule, 0, seq(CategoryRun, _ => true)) == (NextPracticeRule(rule), 0)
  {
    var s := seq(CategoryRun, _ => true);
    assert s[1..] == seq(CategoryRun - 1, _ => true);
    CorrectStreak(rule, 1, CategoryRun - 2);
    var before := seq(CategoryRun - 2, _ => true);
    assert s[1..] == before + [true];
    PracticeRunAppend(rule, 1, before, true);
  }

  /** Folding one more response onto a run. */
  lemma {:induction false} PracticeRunAppend(rule: Rule, run: nat, responses: seq<bool>, last: bool)
    ensures PracticeRun(rule, run, responses + [last])
         == PracticeStep(PracticeRun(rule, run, responses).0, PracticeRun(rule, run, responses).1, last)
    decreases |responses|
  {
    if |responses| > 0 {
      var next := PracticeStep(rule, run, responses[0]);
      assert (responses + [last])[1..] == responses[1..] + [last];
      PracticeRunAppend(next.0, next.1, responses[1..], last);
    }
  }

  /** The practice variables of the script. */
  class PracticeRound {
    var stimulusCards: seq<Card>
    var rule: Rule
    var consecutiveCorrect: nat
    var currentTrial: nat

    ghost predicate Valid()
      reads this
    {
      |stimulusCards| == TotalTrials && consecutiveCorrect < CategoryRun
    }

    /** `startTest`: a shuffled deck of its own, the first rule of the sequence, nothing answered. */
    constructor (picks: seq<int>)
      requires ValidPicks(picks, TotalTrials)
      ensures Valid()
      ensures rule == RuleSequence[0] && consecutiveCorrect == 0 && currentTrial == 0
      ensures stimulusCards == Shuffled(Universe() + Universe(), picks, |picks| - 1)
      ensures forall c :: multiset(stimulusCards)[c] == if InUniverse(c) then 2 else 0
    {
      var deck := GenerateStimulusCards(picks);
      stimulusCards := deck;
      rule := RuleSequence[0];
      consecutiveCorrect := 0;
      currentTrial := 0;
    }

    /** The card `handlePracticeCardChoice` scores: the deck is cycled through without end. */
    function Stimulus(): Card
      requires Valid()
      reads this
    {
      stimulusCards[currentTrial % |stimulusCards|]
    }

    /** `nextPracticeTrial`: moves to the next card, wrapping around the deck. */
    method NextTrial() returns (card: Card)
      requires Valid()
      modifies this`currentTrial
      ensures Valid()
      ensures currentTrial == old(currentTrial) + 1
      ensures card == Stimulus() && card in stimulusCards
    {
      currentTrial := currentTrial + 1;
      card := stimulusCards[currentTrial % |stimulusCards|];
    }

    /** `handlePracticeCardChoice` for template `choice` (0 to 3 for ids 1 to 4). */
    method Respond(choice: nat) returns (correct: bool)
      requires Valid() && choice < |Templates|
      modifies this`rule, this`consecutiveCorrect
      ensures Valid()
      ensures correct == CheckCorrectness(old(Stimulus()), Templates[choice], old(rule))
      ensures (rule, consecutiveCorrect) == PracticeStep(old(rule), old(consecutiveCorrect), correct)
    {
      var stimulus := stimulusCards[currentTrial % |stimulusCards|];
      correct := CheckCorrectness(stimulus, Templates[choice], rule);
      if correct {
        consecutiveCorrect := consecutiveCorrect + 1;
        if consecutiveCorrect == CategoryRun {
          var ruleIndex := RotationIndex(rule);
          rule := Rotation[(ruleIndex + 1) % |Rotation|];
          consecutiveCorrect := 0;
        }
      } else {
        consecutiveCorrect := 0;
      }
    }
  }
}
