/**
 * The perseveration state machine: the perseverated-to dimension (PTP), the
 * dimension of the current run of errors and the length of that run.
 */
module Perseveration {
  import opened Wrappers
  import opened Cards

  /** `ptpDimension`, `lastIncorrectDimension` and `consecutiveIncorrectCount`. */
  datatype PState = PState(ptp: Option<Dim>, lastIncorrect: Option<Dim>, incorrectCount: nat)

  /** The state at the start of the test and after every rule change. */
  const Fresh: PState := PState(None, None, 0)

  /** A run of errors has a dimension exactly when it has a positive length. */
  predicate Consistent(p: PState) {
    p.incorrectCount == 0 <==> p.lastIncorrect == None
  }

  /**
   * One response of dimension `dim`: the new state and whether this trial is
   * flagged perseverative.  The flag is decided against the PTP of earlier
   * trials only; the PTP is assigned only while unset, when the error run
   * reaches length 2, and the trial that assigns it is not flagged.
   */
  function Track(p: PState, correct: bool, dim: Dim): (r: (PState, bool))
    ensures r.1 <==> !correct && p.ptp == Some(dim)
    ensures correct ==> r.0 == PState(p.ptp, None, 0)
    ensures !correct ==> r.0.lastIncorrect == Some(dim)
    ensures !correct ==> r.0.incorrectCount == if p.lastIncorrect == Some(dim) then p.incorrectCount + 1 else 1
    ensures r.0.ptp != p.ptp <==> p.ptp == None && !correct && r.0.incorrectCount == 2
    ensures r.0.ptp != p.ptp ==> r.0.ptp == Some(dim) && !r.1
    ensures Consistent(r.0)
  {
    if correct then
      (PState(p.ptp, None, 0), false)
    else
      var flag := p.ptp.Some? && dim == p.ptp.value;
      var (last, count) :=
        if Some(dim) == p.lastIncorrect then (p.lastIncorrect, p.incorrectCount + 1) else (Some(dim), 1);
      var ptp := if p.ptp == None && count == 2 then last else p.ptp;
      (PState(ptp, last, count), flag)
  }

  /** A run of responses, each given as (correct, dimension), fed to `Track` in order. */
  function TrackAll(p: PState, responses: seq<(bool, Dim)>): PState
    decreases |responses|
  {
    if responses == [] then p
    else TrackAll(Track(p, responses[0].0, responses[0].1).0, responses[1..])
  }

  /** The flags `Track` gives a run of responses, in order. */
  function Flags(p: PState, responses: seq<(bool, Dim)>): (fs: seq<bool>)
    ensures |fs| == |responses|
    decreases |responses|
  {
    if responses == [] then []
    else
      var r := Track(p, responses[0].0, responses[0].1);
      [r.1] + Flags(r.0, responses[1..])
  }

  /** Once established, the PTP stays the same until the rule changes. */
  lemma {:induction false} PtpStable(p: PState, responses: seq<(bool, Dim)>)
    requires p.ptp != None
    ensures TrackAll(p, responses).ptp == p.ptp
    decreases |responses|
  {
    if responses != [] {
      PtpStable(Track(p, responses[0].0, responses[0].1).0, responses[1..]);
    }
  }

  /** Without an established PTP no response of a run is flagged before the PTP is set. */
  lemma {:induction false} NoFlagWithoutPtp(p: PState, responses: seq<(bool, Dim)>)
    requires TrackAll(p, responses).ptp == None
    ensures forall k :: 0 <= k < |responses| ==> !Flags(p, responses)[k]
    decreases |responses|
  {
    if responses != [] {
      var r := Track(p, responses[0].0, responses[0].1);
      if p.ptp != None {
        PtpStable(p, responses);
      }
      if r.0.ptp != None {
        PtpStable(r.0, responses[1..]);
      }
      NoFlagWithoutPtp(r.0, responses[1..]);
      assert Flags(p, responses) == [r.1] + Flags(r.0, responses[1..]);
    }
  }

  /**
   * Two consecutive errors of the same dimension from a fresh state set the
   * PTP to that dimension, and neither of the two is flagged.
   */
  lemma EstablishFromFresh(d: Dim)
    ensures Flags(Fresh, [(false, d), (false, d)]) == [false, false]
    ensures TrackAll(Fresh, [(false, d), (false, d)]) == PState(Some(d), Some(d), 2)
  {
    var rs := [(false, d), (false, d)];
    assert rs[1..] == [(false, d)];
    assert rs[1..][1..] == [];
    var p1 := Track(Fresh, false, d).0;
    assert p1 == PState(None, Some(d), 1);
    assert TrackAll(Fresh, rs) == TrackAll(p1, [(false, d)]);
  }

  /** After a rule change the next error opens a new run of length 1, whatever came before. */
  lemma FreshStreak(d: Dim)
    ensures Track(Fresh, false, d) == (PState(None, Some(d), 1), false)
  {
  }
}
