/** The prove/verify lifecycle of `MultiplierCircuitView`.

    The view holds two button flags, the last proof with its public inputs, and a
    text log. Its three handlers (Init, Prove, Verify) are transitions on that
    state. Each is modelled as one atomic step whose effect depends only on what
    the backend call did, which is passed in as an outcome value. The buttons'
    `.disabled(...)` gating is modelled by `Press`, and `Run` folds a sequence of
    presses from a state.
 */
module Lifecycle {

  datatype Option<T> = None | Some(value: T)

  /** An opaque byte blob produced by the proving backend (Swift `Data`). */
  type Blob = seq<bv8>

  /** One piece of text appended to the log. `Elapsed` stands for the formatted
      duration of a backend call followed by "s\n"; its digits come from the
      wall clock and are not modelled. */
  datatype Entry = Text(text: string) | Elapsed

  datatype State = State(
    log: seq<Entry>,
    proveEnabled: bool,
    verifyEnabled: bool,
    proof: Option<Blob>,
    inputs: Option<Blob>
  )

  // What the backend call of each handler did. The error message is the thrown
  // error's `localizedDescription`.

  /** Outcome of `initializeMopro()`. */
  datatype InitOutcome = Initialized | InitFailed(message: string)

  /** Outcome of `generateProof2`. The handler passes it the same constant input map
      on every tap (modelled separately by `CircuitInputs`), so what the call
      returned is all that distinguishes one Prove tap from another. */
  datatype ProveOutcome = Proved(proof: Blob, publicInputs: Blob) | ProveFailed(message: string)

  /** Outcome of `verifyProof2` on the stored proof and public inputs. A thrown
      error only reaches `print`, so its message is not kept. */
  datatype VerifyOutcome = Checked(valid: bool) | VerifyThrew

  /** The handler asserts that a returned proof is non-empty. */
  predicate WellFormedProve(outcome: ProveOutcome) {
    outcome.Proved? ==> |outcome.proof| > 0
  }

  const InitStarted: string := "Initializing library... "
  const ProveStarted: string := "Generating proof... "
  const VerifyStarted: string := "Verifying proof... "
  const NotGeneratedYet: string := "Proof has not been generated yet.\n"
  const VerificationFailed: string := "\nProof verification failed.\n"

  function InitFailure(message: string): string {
    "\nInitialization failed: " + message + "\n"
  }

  function ProveFailure(message: string): string {
    "\nProof generation failed: " + message + "\n"
  }

  /** The view's state when it appears: Prove enabled, Verify disabled, nothing stored. */
  function Initial(): (s: State)
    ensures s.log == []
    ensures s.proveEnabled && !s.verifyEnabled
    ensures s.proof.None? && s.inputs.None?
  {
    State([], true, false, None, None)
  }

  /** The facts every handler keeps: Prove stays enabled, proof and public inputs are
      stored together, Verify is enabled only with a stored pair, and a stored proof
      is non-empty. */
  predicate Invariant(s: State) {
    && s.proveEnabled
    && (s.proof.Some? <==> s.inputs.Some?)
    && (s.verifyEnabled ==> s.proof.Some?)
    && (s.proof.Some? ==> |s.proof.value| > 0)
  }

  /** `runInitAction`. The Init button is never disabled. */
  function RunInit(s: State, outcome: InitOutcome): (r: State)
    ensures r.proof == s.proof && r.inputs == s.inputs && r.verifyEnabled == s.verifyEnabled
    ensures r.proveEnabled == (s.proveEnabled || outcome.Initialized?)
    ensures |r.log| == |s.log| + 2 && r.log[..|s.log|] == s.log && r.log[|s.log|] == Text(InitStarted)
    ensures outcome.Initialized? ==> r.log[|s.log| + 1] == Elapsed
    ensures outcome.InitFailed? ==> r.log[|s.log| + 1] == Text(InitFailure(outcome.message))
    ensures Invariant(s) ==> Invariant(r)
  {
    var started := s.(log := s.log + [Text(InitStarted)]);
    match outcome
    case Initialized => started.(log := started.log + [Elapsed], proveEnabled := true)
    case InitFailed(message) => started.(log := started.log + [Text(InitFailure(message))])
  }

  /** `runProveAction`: a returned proof replaces the stored pair and enables Verify;
      a failure only adds its message to the log. */
  function RunProve(s: State, outcome: ProveOutcome): (r: State)
    requires WellFormedProve(outcome)
    ensures r.proveEnabled == s.proveEnabled
    ensures |r.log| == |s.log| + 2 && r.log[..|s.log|] == s.log && r.log[|s.log|] == Text(ProveStarted)
    ensures outcome.Proved? ==>
      && r.proof == Some(outcome.proof) && r.inputs == Some(outcome.publicInputs)
      && r.verifyEnabled
      && r.log[|s.log| + 1] == Elapsed
    ensures outcome.ProveFailed? ==>
      && r.proof == s.proof && r.inputs == s.inputs && r.verifyEnabled == s.verifyEnabled
      && r.log[|s.log| + 1] == Text(ProveFailure(outcome.message))
    ensures Invariant(s) ==> Invariant(r)
  {
    var started := s.(log := s.log + [Text(ProveStarted)]);
    match outcome
    case Proved(proof, publicInputs) =>
      started.(proof := Some(proof), inputs := Some(publicInputs), log := started.log + [Elapsed], verifyEnabled := true)
    case ProveFailed(message) =>
      started.(log := started.log + [Text(ProveFailure(message))])
  }

  /** `runVerifyAction`. Without a stored pair it only reports that; otherwise a
      completed check, valid or not, disables Verify, and a thrown error leaves
      everything after "Verifying proof... " as it was. The stored pair is kept. */
  function RunVerify(s: State, outcome: VerifyOutcome): (r: State)
    ensures r.proveEnabled == s.proveEnabled && r.proof == s.proof && r.inputs == s.inputs
    ensures |r.log| > |s.log| && r.log[..|s.log|] == s.log
    ensures (s.proof.None? || s.inputs.None?) ==>
      r.verifyEnabled == s.verifyEnabled && r.log == s.log + [Text(NotGeneratedYet)]
    ensures (s.proof.Some? && s.inputs.Some? && outcome.Checked?) ==>
      && !r.verifyEnabled
      && r.log == s.log + [Text(VerifyStarted), if outcome.valid then Elapsed else Text(VerificationFailed)]
    ensures (s.proof.Some? && s.inputs.Some? && outcome.VerifyThrew?) ==>
      r.verifyEnabled == s.verifyEnabled && r.log == s.log + [Text(VerifyStarted)]
    ensures Invariant(s) ==> Invariant(r)
  {
    if s.proof.None? || s.inputs.None? then
      s.(log := s.log + [Text(NotGeneratedYet)])
    else
      var started := s.(log := s.log + [Text(VerifyStarted)]);
      match outcome
      case Checked(valid) =>
        var report := if valid then Elapsed else Text(VerificationFailed);
        started.(log := started.log + [report], verifyEnabled := false)
      case VerifyThrew =>
        started
  }

  /** A tap on one of the three buttons, with what the backend call did. */
  datatype Event = TapInit(initOutcome: InitOutcome) | TapProve(proveOutcome: ProveOutcome) | TapVerify(verifyOutcome: VerifyOutcome)

  predicate WellFormedEvent(e: Event) {
    e.TapProve? ==> WellFormedProve(e.proveOutcome)
  }

  predicate AllWellFormed(events: seq<Event>) {
    forall i :: 0 <= i < |events| ==> WellFormedEvent(events[i])
  }

  /** A tap as the view delivers it: a disabled button does nothing. */
  function Press(s: State, e: Event): (r: State)
    requires WellFormedEvent(e)
    ensures e.TapProve? && !s.proveEnabled ==> r == s
    ensures e.TapVerify? && !s.verifyEnabled ==> r == s
    ensures Invariant(s) ==> Invariant(r)
  {
    match e
    case TapInit(outcome) => RunInit(s, outcome)
    case TapProve(outcome) => if s.proveEnabled then RunProve(s, outcome) else s
    case TapVerify(outcome) => if s.verifyEnabled then RunVerify(s, outcome) else s
  }

  /** The state after the taps `events`, in order. Through the buttons the invariant
      is never lost. */
  function Run(s: State, events: seq<Event>): (r: State)
    requires AllWellFormed(events)
    ensures Invariant(s) ==> Invariant(r)
    decreases |events|
  {
    if |events| == 0 then s else Run(Press(s, events[0]), events[1..])
  }

  /** Every state the view reaches through its buttons keeps the invariant. */
  lemma ReachableInvariant(events: seq<Event>)
    requires AllWellFormed(events)
    ensures Invariant(Run(Initial(), events))
  {
  }

  /** The log is append-only: nothing a handler does removes or rewrites text. */
  lemma {:induction false} RunExtendsLog(s: State, events: seq<Event>)
    requires AllWellFormed(events)
    ensures |s.log| <= |Run(s, events).log| && Run(s, events).log[..|s.log|] == s.log
    decreases |events|
  {
    if |events| > 0 {
      var next := Press(s, events[0]);
      RunExtendsLog(next, events[1..]);
      assert next.log[..|s.log|] == s.log;
      assert Run(s, events).log[..|next.log|] == next.log;
      assert Run(s, events).log[..|s.log|] == next.log[..|s.log|];
    }
  }

  /** One tap from a state keeping the invariant does not log the missing-proof report. */
  lemma PressNeverReportsMissingProof(s: State, e: Event)
    requires Invariant(s) && WellFormedEvent(e)
    requires Text(NotGeneratedYet) !in s.log
    ensures Text(NotGeneratedYet) !in Press(s, e).log
  {
    var r := Press(s, e);
    // The failure reports begin with a line break, the missing-proof report does not.
    assert NotGeneratedYet[0] == 'P';
    match e
    case TapInit(outcome) =>
      if outcome.InitFailed? {
        assert InitFailure(outcome.message)[0] == '\n';
      }
      assert r.log == s.log + r.log[|s.log|..];
    case TapProve(outcome) =>
      if outcome.ProveFailed? {
        assert ProveFailure(outcome.message)[0] == '\n';
      }
      assert r.log == s.log + r.log[|s.log|..];
    case TapVerify(outcome) =>
  }

  /** Through the buttons the Verify handler always finds a stored pair: from the
      initial state, "Proof has not been generated yet." never reaches the log. */
  lemma {:induction false} NeverReportsMissingProof(s: State, events: seq<Event>)
    requires Invariant(s) && AllWellFormed(events)
    requires Text(NotGeneratedYet) !in s.log
    ensures Text(NotGeneratedYet) !in Run(s, events).log
    decreases |events|
  {
    if |events| > 0 {
      var next := Press(s, events[0]);
      PressNeverReportsMissingProof(s, events[0]);
      NeverReportsMissingProof(next, events[1..]);
    }
  }

  /** Verify with nothing stored makes no backend call: what the backend would have
      answered does not matter. */
  lemma VerifyWithoutProofIgnoresBackend(s: State, a: VerifyOutcome, b: VerifyOutcome)
    requires s.proof.None? || s.inputs.None?
    ensures RunVerify(s, a) == RunVerify(s, b) == s.(log := s.log + [Text(NotGeneratedYet)])
  {
  }

  /** The proof and public inputs returned by the last successful prove among
      `events`, if there is one. */
  function LastProved(events: seq<Event>): Option<(Blob, Blob)>
    decreases |events|
  {
    if |events| == 0 then None
    else
      var last := events[|events| - 1];
      if last.TapProve? && last.proveOutcome.Proved? then Some((last.proveOutcome.proof, last.proveOutcome.publicInputs))
      else LastProved(events[..|events| - 1])
  }

  /** Run with the last tap split off. */
  lemma {:induction false} RunSnoc(s: State, events: seq<Event>, e: Event)
    requires AllWellFormed(events) && WellFormedEvent(e)
    ensures AllWellFormed(events + [e])
    ensures Run(s, events + [e]) == Press(Run(s, events), e)
    decreases |events|
  {
    if |events| > 0 {
      assert (events + [e])[1..] == events[1..] + [e];
      RunSnoc(Press(s, events[0]), events[1..], e);
    }
  }

  /** The stored pair is always the one from the most recent successful prove; no
      other tap changes or clears it. */
  lemma {:induction false} RunStoresLastProof(s: State, events: seq<Event>)
    requires Invariant(s) && AllWellFormed(events)
    ensures LastProved(events).Some? ==>
      Run(s, events).proof == Some(LastProved(events).value.0) && Run(s, events).inputs == Some(LastProved(events).value.1)
    ensures LastProved(events).None? ==> Run(s, events).proof == s.proof && Run(s, events).inputs == s.inputs
    decreases |events|
  {
    if |events| > 0 {
      var init, e := events[..|events| - 1], events[|events| - 1];
      assert events == init + [e];
      assert AllWellFormed(init) && WellFormedEvent(e) by {
        assert forall i :: 0 <= i < |init| ==> init[i] == events[i];
      }
      RunSnoc(s, init, e);
      RunStoresLastProof(s, init);
    }
  }
}
