/**
 * The trial log: one record per response plus a marker per rule change, the
 * retroactive "sandwich" amendment of the perseverative flag, and the summary
 * counts computed from the log.
 */
module TrialLog {
  import opened Wrappers
  import opened Cards

  /**
   * A log entry.  A trial carries its 1-based number, the stimulus, the
   * response dimension, correctness, the perseverative flag ('P' or ''), the
   * ambiguity flag ('*' or ''), the active rule and the reaction time in ms.
   * A marker (trial '---') records the categories completed so far and the new rule.
   */
  datatype Rec =
    | Trial(trial: nat, stimulus: Card, response: Dim, correct: bool,
            perseverative: bool, ambiguous: bool, rule: Rule, reactionTime: int)
    | Marker(categories: nat, rule: Rule)

  /** A record the sandwich rule reads as a perseverative error; a marker's '---' flag is not 'P'. */
  predicate IsPerseverativeError(r: Rec) {
    r.Trial? && r.perseverative && !r.correct
  }

  /**
   * The retroactive amendment run after each append: when the last three log
   * entries are a perseverative error, a correct response and a perseverative
   * error, and the middle response is the PTP dimension, the middle record is
   * flagged perseverative.  The window is the last three entries of the log
   * as they stand: a marker's correctness '---' is truthy, but its response
   * '---' equals no dimension, so a marker never gets amended.
   */
  function Sandwich(results: seq<Rec>, ptp: Option<Dim>): (r: seq<Rec>)
    ensures |r| == |results|
    ensures forall k :: 0 <= k < |results| && k != |results| - 2 ==> r[k] == results[k]
    ensures |results| >= 2 ==>
      r[|results| - 2] == results[|results| - 2] ||
      (results[|results| - 2].Trial? && r[|results| - 2] == results[|results| - 2].(perseverative := true))
    ensures |results| >= 3 && IsPerseverativeError(results[|results| - 3]) &&
            IsPerseverativeError(results[|results| - 1]) &&
            results[|results| - 2].Trial? && results[|results| - 2].correct &&
            ptp == Some(results[|results| - 2].response)
            ==> r[|results| - 2].perseverative
    ensures r != results ==>
      |results| >= 3 && IsPerseverativeError(results[|results| - 3]) &&
      IsPerseverativeError(results[|results| - 1]) &&
      results[|results| - 2].Trial? && results[|results| - 2].correct &&
      ptp == Some(results[|results| - 2].response)
  {
    if |results| >= 3 then
      var first, middle, last := results[|results| - 3], results[|results| - 2], results[|results| - 1];
      if IsPerseverativeError(first) && IsPerseverativeError(last) && (middle.Marker? || middle.correct) then
        if middle.Trial? && ptp == Some(middle.response) then
          results[|results| - 2 := middle.(perseverative := true)]
        else results
      else results
    else results
  }

  /** `results.filter(r => typeof r.trial === 'number')`: the trial records, markers dropped. */
  function ValidTrials(results: seq<Rec>): (vs: seq<Rec>)
    ensures |vs| <= |results|
    ensures forall k :: 0 <= k < |vs| ==> vs[k].Trial?
  {
    if results == [] then []
    else
      var last := results[|results| - 1];
      ValidTrials(results[..|results| - 1]) + (if last.Trial? then [last] else [])
  }

  function MarkerCount(results: seq<Rec>): nat {
    if results == [] then 0
    else MarkerCount(results[..|results| - 1]) + (if results[|results| - 1].Marker? then 1 else 0)
  }

  /** Trials with `correct === true`. */
  function CorrectCount(rs: seq<Rec>): (n: nat)
    ensures n <= |ValidTrials(rs)|
  {
    if rs == [] then 0
    else
      var last := rs[|rs| - 1];
      CorrectCount(rs[..|rs| - 1]) + (if last.Trial? && last.correct then 1 else 0)
  }

  /** Trials with `perseverative === 'P' && !correct`. */
  function PerseverativeErrors(rs: seq<Rec>): (n: nat)
    ensures n <= PerseverativeResponses(rs)
  {
    if rs == [] then 0
    else
      var last := rs[|rs| - 1];
      PerseverativeErrors(rs[..|rs| - 1]) + (if IsPerseverativeError(last) then 1 else 0)
  }

  /** Trials with `perseverative === 'P'`. */
  function PerseverativeResponses(rs: seq<Rec>): (n: nat)
    ensures n <= |ValidTrials(rs)|
  {
    if rs == [] then 0
    else
      var last := rs[|rs| - 1];
      PerseverativeResponses(rs[..|rs| - 1]) + (if last.Trial? && last.perseverative then 1 else 0)
  }

  /** Appending one record adds that record's contribution to every count. */
  lemma AppendOne(rs: seq<Rec>, x: Rec)
    ensures ValidTrials(rs + [x]) == ValidTrials(rs) + (if x.Trial? then [x] else [])
    ensures MarkerCount(rs + [x]) == MarkerCount(rs) + (if x.Marker? then 1 else 0)
    ensures CorrectCount(rs + [x]) == CorrectCount(rs) + (if x.Trial? && x.correct then 1 else 0)
    ensures PerseverativeErrors(rs + [x]) == PerseverativeErrors(rs) + (if IsPerseverativeError(x) then 1 else 0)
    ensures PerseverativeResponses(rs + [x]) ==
      PerseverativeResponses(rs) + (if x.Trial? && x.perseverative then 1 else 0)
  {
  }

  /**
   * The sandwich amendment changes no count but the perseverative responses,
   * which it raises by at most one (it flags a correct response, never an error).
   */
  lemma SandwichCounts(results: seq<Rec>, ptp: Option<Dim>)
    ensures |ValidTrials(Sandwich(results, ptp))| == |ValidTrials(results)|
    ensures MarkerCount(Sandwich(results, ptp)) == MarkerCount(results)
    ensures CorrectCount(Sandwich(results, ptp)) == CorrectCount(results)
    ensures PerseverativeErrors(Sandwich(results, ptp)) == PerseverativeErrors(results)
    ensures PerseverativeResponses(results) <= PerseverativeResponses(Sandwich(results, ptp)) <=
            PerseverativeResponses(results) + 1
  {
  }

  /** The integer part of the results summary (the accuracy percentage is left to the display). */
  datatype Summary = Summary(
    totalCompleted: nat,
    validTrials: nat,
    correctResponses: nat,
    perseverativeErrors: nat,
    perseverativeResponses: nat,
    categoriesCompleted: nat)

  lemma {:induction false} CountBounds(rs: seq<Rec>)
    ensures PerseverativeErrors(rs) <= PerseverativeResponses(rs) <= |ValidTrials(rs)|
    ensures PerseverativeErrors(rs) + CorrectCount(rs) <= |ValidTrials(rs)|
  {
    if rs != [] {
      CountBounds(rs[..|rs| - 1]);
    }
  }

  /**
   * The counts of the results screen: markers are excluded, perseverative
   * errors are among the perseverative responses, and no count exceeds the
   * number of trial records.
   */
  function Summarize(results: seq<Rec>, currentTrial: nat, categoriesCompleted: nat): (s: Summary)
    ensures s.validTrials == |ValidTrials(results)| && s.validTrials + MarkerCount(results) == |results|
    ensures s.perseverativeErrors <= s.perseverativeResponses <= s.validTrials
    ensures s.correctResponses <= s.validTrials
    ensures s.perseverativeErrors + s.correctResponses <= s.validTrials
  {
    var vs := ValidTrials(results);
    CountBounds(vs);
    TrialsPlusMarkers(results);
    Summary(currentTrial, |vs|, CorrectCount(vs), PerseverativeErrors(vs), PerseverativeResponses(vs), categoriesCompleted)
  }

  /** Every log entry is a trial or a marker. */
  lemma {:induction false} TrialsPlusMarkers(results: seq<Rec>)
    ensures |ValidTrials(results)| + MarkerCount(results) == |results|
  {
    if results != [] {
      TrialsPlusMarkers(results[..|results| - 1]);
    }
  }
}
