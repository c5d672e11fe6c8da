# mopro example app: proof lifecycle and sentiment emoji

A Dafny model of the two pieces of sequential logic in the iOS example app of the
mopro zero-knowledge-proof benchmark.

- **`MultiplierCircuitView`**: the Init / Prove / Verify screen. Its state is the Prove
  and Verify button flags, the last generated proof and its public inputs, and a
  text log. The three button handlers are transitions on that state.
  - `Lifecycle` models the state, the handlers (`RunInit`, `RunProve`, `RunVerify`),
    the buttons' enabled/disabled gating (`Press`) and sequences of taps (`Run`).
  - Each backend call (`initializeMopro`, `generateProof2`, `verifyProof2`) is an
    outcome value passed to its handler.
  - `CircuitInputs` models the fixed signature / modulus / base-message input map
    that the Prove handler hands to `generateProof2`. Each limb is kept as a number
    and rendered as its canonical decimal numeral.
  - `Stages` describes the same lifecycle as stages of the proof: no proof, proof
    ready to verify, proof checked. An independent stage machine predicts the stage
    after every tap.
- **`SentimentAnalyzer.emoji(forScore:)`**: `Sentiment` models the `switch` as an
  ordered list of case arms with first-match semantics, over Swift's 64-bit `Int`.
  It is proved to agree with a reference classification by sign and intensity.

The view has no not-initialized state, no busy guard and no verified state: Prove
is enabled from the start (MultiplierCircuitView.swift:12), a failed Init disables
nothing (line 58), and a completed verification only disables Verify (line 202).

## Model

| member | source | states |
|---|---|---|
| `Lifecycle.Initial` | mopro-example-app/ios/ExampleApp/ExampleApp/MultiplierCircuitView.swift:12-16 | The view starts with an empty log, Prove enabled, Verify disabled, and no proof or public inputs stored. |
| `Lifecycle.RunInit` | mopro-example-app/ios/ExampleApp/ExampleApp/MultiplierCircuitView.swift:47-61 | Init appends "Initializing library... ". Success then appends the elapsed time and enables Prove. Failure appends the failure message. Neither outcome touches the stored pair or the Verify flag, and the invariant is preserved. |
| `Lifecycle.RunProve` | mopro-example-app/ios/ExampleApp/ExampleApp/MultiplierCircuitView.swift:63-169 | Prove appends "Generating proof... ". A returned proof replaces the stored pair with exactly the returned proof and inputs, enables Verify and appends the elapsed time. A failure leaves the pair and both flags as they were and appends the failure message. The invariant is preserved. |
| `Lifecycle.RunVerify` | mopro-example-app/ios/ExampleApp/ExampleApp/MultiplierCircuitView.swift:171-209 | With no stored pair, Verify only appends "Proof has not been generated yet.\n". A completed check, valid or not, disables Verify and appends the elapsed time (valid) or "Proof verification failed." (invalid). A thrown error changes nothing after "Verifying proof... ". The stored pair and the Prove flag never change, and the invariant is preserved. |
| `Lifecycle.Run` | mopro-example-app/ios/ExampleApp/ExampleApp/MultiplierCircuitView.swift:24-26 | Taps are delivered one after another through the buttons' gating, and no sequence of taps loses the invariant: Prove stays enabled, proof and inputs are stored together, Verify is enabled only with a stored pair, and a stored proof is non-empty. |
| `Lifecycle.Press` | mopro-example-app/ios/ExampleApp/ExampleApp/MultiplierCircuitView.swift:24-26 | A tap on a disabled Prove or Verify button leaves the state unchanged. A tap keeps the invariant. |
| `Lifecycle.VerifyWithoutProofIgnoresBackend` | mopro-example-app/ios/ExampleApp/ExampleApp/MultiplierCircuitView.swift:172-176 | With no stored pair, Verify makes no backend call: its result is the same for every backend answer and only adds the missing-proof report. |
| `Lifecycle.ReachableInvariant` | mopro-example-app/ios/ExampleApp/ExampleApp/MultiplierCircuitView.swift:12-16 | Every state reachable from the initial view satisfies the invariant. |
| `Lifecycle.RunExtendsLog` | mopro-example-app/ios/ExampleApp/ExampleApp/MultiplierCircuitView.swift:47-209 | The log is append-only: after any taps, the earlier log is a prefix of the new one. |
| `Lifecycle.PressNeverReportsMissingProof` | mopro-example-app/ios/ExampleApp/ExampleApp/MultiplierCircuitView.swift:171-176 | From a state keeping the invariant, one tap never adds the missing-proof report. |
| `Lifecycle.NeverReportsMissingProof` | mopro-example-app/ios/ExampleApp/ExampleApp/MultiplierCircuitView.swift:171-176 | Through the buttons, the missing-proof branch of Verify is never taken: the report never enters a log that did not already contain it. |
| `Lifecycle.RunStoresLastProof` | mopro-example-app/ios/ExampleApp/ExampleApp/MultiplierCircuitView.swift:158-160 | After any taps, the stored proof and inputs are the pair from the last successful prove. If no prove succeeded, they are the ones stored before. Nothing else assigns or clears them. |
| `Stages.PressFollowsNext` | mopro-example-app/ios/ExampleApp/ExampleApp/MultiplierCircuitView.swift:152-202 | Each tap moves the view's stage as the stage machine says. A returned proof leads to ProofReady. A completed check, valid or not, moves ProofReady to ProofChecked. Init, failures and thrown errors leave the stage as it is. |
| `Stages.RunFollowsNextAll` | mopro-example-app/ios/ExampleApp/ExampleApp/MultiplierCircuitView.swift:47-209 | For any sequence of taps, the view's stage is the one the stage machine reaches. |
| `Stages.NoProofWithoutProving` | mopro-example-app/ios/ExampleApp/ExampleApp/MultiplierCircuitView.swift:158-160 | Starting from the initial view, taps that never return a proof leave it in NoProof, whatever Init and Verify do. |
| `CircuitInputs.Inputs` | mopro-example-app/ios/ExampleApp/ExampleApp/MultiplierCircuitView.swift:69-147 | The input map has exactly the keys "signature", "modulus" and "base_message". Each holds 32 canonical decimal numerals, each below 2^64. |
| `CircuitInputs.Assemble` | mopro-example-app/ios/ExampleApp/ExampleApp/MultiplierCircuitView.swift:144-147 | The assembled map has exactly the three signal names as keys, each holding the signal it was given. |
| `CircuitInputs.Render` | mopro-example-app/ios/ExampleApp/ExampleApp/MultiplierCircuitView.swift:69-142 | Each limb becomes one numeral, in order. Every numeral is canonical and parses back to its limb. |
| `CircuitInputs.RenderWellFormed` | mopro-example-app/ios/ExampleApp/ExampleApp/MultiplierCircuitView.swift:69-142 | Rendering 32 limbs below 2^64 gives a well-formed signal. |
| `CircuitInputs.DecimalString` | mopro-example-app/ios/ExampleApp/ExampleApp/MultiplierCircuitView.swift:69-142 | A limb's numeral is non-empty and consists of decimal digits only. |
| `CircuitInputs.DecimalStringLeadingDigit` | mopro-example-app/ios/ExampleApp/ExampleApp/MultiplierCircuitView.swift:139-142 | A numeral starts with '0' exactly when its value is 0, as in the "0" limbs. |
| `CircuitInputs.DecimalStringCanonical` | mopro-example-app/ios/ExampleApp/ExampleApp/MultiplierCircuitView.swift:69-142 | Every numeral is canonical: digits only, with no leading zero except in "0". |
| `CircuitInputs.ParseDecimalString` | mopro-example-app/ios/ExampleApp/ExampleApp/MultiplierCircuitView.swift:69-142 | Parsing a numeral gives its limb back. |
| `CircuitInputs.DecimalStringParse` | mopro-example-app/ios/ExampleApp/ExampleApp/MultiplierCircuitView.swift:69-142 | A canonical numeral is the rendering of its own value, so each number has exactly one canonical spelling. |
| `CircuitInputs.ParseNonZero` | mopro-example-app/ios/ExampleApp/ExampleApp/MultiplierCircuitView.swift:69-142 | A canonical numeral other than "0" has a non-zero value. |
| `Sentiment.FirstMatch` | mopro-example-app/ios/ExampleApp/ExampleApp/SentimentAnalyzer.swift:77-96 | The chosen arm is the first one whose pattern matches. No earlier arm matches, and the index is the number of arms only when none matches (the `default` arm). |
| `Sentiment.ArmOf` | mopro-example-app/ios/ExampleApp/ExampleApp/SentimentAnalyzer.swift:77-96 | Which arm each score reaches: the arm for ≥ 5, 4, 3, 1-2, -1/-2, -3, -4 or ≤ -5, or `default` for 0. |
| `Sentiment.EmojiCases` | mopro-example-app/ios/ExampleApp/ExampleApp/SentimentAnalyzer.swift:76-97 | ≥ 5 gives 😍, 4 😃, 3 😊, 1 and 2 🙂, -1 and -2 🙁, -3 ☹️, -4 😤, ≤ -5 😡, and 0 😐. |
| `Sentiment.DefaultOnlyForZero` | mopro-example-app/ios/ExampleApp/ExampleApp/SentimentAnalyzer.swift:94-95 | A score reaches the `default` arm if and only if it is 0. |
| `Sentiment.ScaleDistinct` | mopro-example-app/ios/ExampleApp/ExampleApp/SentimentAnalyzer.swift:78-95 | The nine faces are pairwise distinct. |
| `Sentiment.Emoji` | mopro-example-app/ios/ExampleApp/ExampleApp/SentimentAnalyzer.swift:76-97 | The face chosen by the switch is the one a reference classification gives: the sign picks positive or negative faces and the clamped magnitude picks the intensity. |
| `Sentiment.EmojiOnScale` | mopro-example-app/ios/ExampleApp/ExampleApp/SentimentAnalyzer.swift:76-97 | Every score maps to one of the nine faces, and that face has exactly one position on the scale from 😡 to 😍. |
| `Sentiment.EmojiMonotone` | mopro-example-app/ios/ExampleApp/ExampleApp/SentimentAnalyzer.swift:76-97 | A higher score never gets a face lower on the scale from 😡 to 😍: its reference rank is no lower, and any positions of the two faces on the scale are in the same order. |
| `Sentiment.EmojiMirror` | mopro-example-app/ios/ExampleApp/ExampleApp/SentimentAnalyzer.swift:78-93 | Negating a score mirrors its face across 😐 on that scale. |
| `Sentiment.EmojiOnto` | mopro-example-app/ios/ExampleApp/ExampleApp/SentimentAnalyzer.swift:76-97 | Each of the nine faces is the result for some score. |

## Left out

- The SwiftUI `body`, navigation and toolbar (MultiplierCircuitView.swift:20-43) are layout only. `Press` keeps just the buttons' enabled/disabled gating.
- The internals of `initializeMopro`, `generateProof2` and `verifyProof2` are foreign code. Their results enter the model as outcome values.
- `toEthereumProof` and `toEthereumInputs` (lines 187-194) are foreign conversions whose results are only printed. The asserts on them (lines 190-191) constrain foreign code whose layout is not visible here.
- Lifecycle.RunProve: the Swift `assert` that a returned proof is non-empty (line 153) is modelled as a requirement on the outcome. In a debug build an empty proof would trap, and in a release build it would be stored; neither path is modelled.
- The elapsed time (`CFAbsoluteTimeGetCurrent` and `%.3f` formatting) is wall-clock time and floating point. Each timing report is the single log entry `Elapsed`.
- The log is a `String` in the source. The model keeps it as a list of appended pieces, so "append-only" is a statement about prefixes of that list.
- The asynchronous `Task`s run in the model as one atomic step per handler, taken right after the tap. Interleavings of overlapping handlers are not modelled.
- `print` diagnostics (lines 193-194, 204-206) do not affect the state. That is also why a thrown verification error carries no message.
- `SentimentAnalyzer.init`, `analyze` and `fetchData` (SentimentAnalyzer.swift:11-70) are a JavaScriptCore VM, `Math.random` and promise/timer callbacks.
