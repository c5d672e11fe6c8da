/** The lifecycle seen as stages of the proof, the view a caller of the proving
    backend cares about. The view's flags and slots determine the stage. A small
    machine over stages, written independently of the handlers, predicts every
    tap's effect on it.

    The view has no "not initialized" stage: Prove is enabled from the start and a
    failed Init disables nothing, so initialization never changes the stage.
 */
module Stages {
  import opened Lifecycle

  datatype Stage =
    | NoProof       // nothing stored yet
    | ProofReady    // a pair is stored and Verify is enabled
    | ProofChecked  // a pair is stored and its check has completed

  /** The stage a view state is in. */
  function StageOf(s: State): Stage {
    if s.proof.None? then NoProof
    else if s.verifyEnabled then ProofReady
    else ProofChecked
  }

  /** The stage machine: a returned proof always leads to `ProofReady`; a completed
      check, valid or not, moves `ProofReady` to `ProofChecked`; nothing else moves. */
  function Next(stage: Stage, e: Event): Stage {
    match e
    case TapInit(_) => stage
    case TapProve(outcome) => if outcome.Proved? then ProofReady else stage
    case TapVerify(outcome) => if stage == ProofReady && outcome.Checked? then ProofChecked else stage
  }

  /** The stage after a sequence of taps. */
  function NextAll(stage: Stage, events: seq<Event>): Stage
    decreases |events|
  {
    if |events| == 0 then stage else NextAll(Next(stage, events[0]), events[1..])
  }

  /** Each tap moves the view's stage exactly as the machine does. */
  lemma PressFollowsNext(s: State, e: Event)
    requires Invariant(s) && WellFormedEvent(e)
    ensures StageOf(Press(s, e)) == Next(StageOf(s), e)
  {
  }

  /** So does every sequence of taps. */
  lemma {:induction false} RunFollowsNextAll(s: State, events: seq<Event>)
    requires Invariant(s) && AllWellFormed(events)
    ensures StageOf(Run(s, events)) == NextAll(StageOf(s), events)
    decreases |events|
  {
    if |events| > 0 {
      PressFollowsNext(s, events[0]);
      RunFollowsNextAll(Press(s, events[0]), events[1..]);
    }
  }

  /** Verification needs a proof: from the initial state, taps that never return a
      proof leave the view in `NoProof`, whatever Init and Verify do. */
  lemma {:induction false} NoProofWithoutProving(events: seq<Event>)
    requires AllWellFormed(events)
    requires forall i :: 0 <= i < |events| ==> !(events[i].TapProve? && events[i].proveOutcome.Proved?)
    ensures StageOf(Run(Initial(), events)) == NoProof
  {
    RunFollowsNextAll(Initial(), events);
    NextAllStaysWithoutProof(events);
  }

  lemma {:induction false} NextAllStaysWithoutProof(events: seq<Event>)
    requires forall i :: 0 <= i < |events| ==> !(events[i].TapProve? && events[i].proveOutcome.Proved?)
    ensures NextAll(NoProof, events) == NoProof
    decreases |events|
  {
    if |events| > 0 {
      NextAllStaysWithoutProof(events[1..]);
    }
  }
}
