# Marketplace Core: a Dafny model of the decision kernel

This project models the decision kernel of `tools/marketplace-core` and the two thin layers of `apps/marketplace-api`
above it, and proves what those parts promise. It stands alone; every statement is about the model described here.

Four cores, each in its own modules:

* **Trust state.** `TrustBundle` is the verification of a signed trust bundle against the durable state it replaces;
  `TrustAcceptance` says what acceptance comes to, in the bundle's contents, the prior state and the clock.
  `TrustProtocol` is any number of controllers over one store as a system of atomic steps: everything between two awaits
  is one step, compare-and-swap requests may be applied late, repeatedly or never, replies are arbitrary or missing, and
  `withRevision` excludes compare-and-swap while a callback runs. `TrustSafety` states what holds over whole runs,
  `TrustOrigins` who signed each change in them, `TrustRegistration` which commitments and permits come into being.
  `TrustRuntime` is the same program as an object with mutable fields. Its straight-line methods (`LoadAndVerify`, `Apply`,
  `Reply`, `Reload`, `Confirm`, `UseLoad`) only tie the object to the steps, as `ParseCanonicalJson` ties the checked parse
  to its function; what they amount to is stated by `AloneEndsAs`, `ServedRunsIff` and `AcceptedIffCanonical`. One await is
  folded away: the resumption after the awaited `verifyAndCommit` and its registration of commitment and permit belong to
  `Confirm`. That is harmless: registration touches no store state, so steps of other calls in between commute with it.
* **Canonical JSON.** `CanonicalJson` normalizes and prints, `CanonicalWire` is `JSON.parse`, `CanonicalArtifacts` puts
  them together: injectivity, the acceptance of wires, and the worklist that bounds JSON shape. `CanonicalDomain` says
  which values have a canonical text, and how short and plain that text is.
* **Evaluation.** `Marketplace` (artifacts and schema rules), `Findings`, `TickRange`, `Ranking`, `Eligibility`,
  `Attestation`, `Evaluation` (candidate sets, receipt, independent re-check), `Display` and `TwoPass` (the API). Three
  modules say what comes out, in inputs alone: `DecisionTable` (findings and outcomes), `ScoreForm` (the factors and the
  total) and `ReceiptContents` (every field of a result).
* **Category contracts.** `CategoryProduction` (mandates, requests, permission attenuation), `CategoryReads`,
  `CategoryAttestation`, `CategoryLinkage` and `CategorySuccessor` (validity windows and the derived report), with
  `SuccessorForm` (what a verified attestation must be, field by field) and `ReportTable` (the status by cases).

`Witnesses` holds concrete accepted artifacts and failing inputs; `Foundations`, `Arithmetic`, `Ordering`, `Decimal` and `Runs` hold what they share.

Conventions:

* SHA-256 is collision-free: a digest type is a constructor applied to the content it digests, so equal digests mean
  equal contents. That equal canonical text means the same value is proved (`CanonicalArtifacts.CanonicalTextIdentifies`),
  which is what makes a digest or a `canonicalJson` comparison of two typed artifacts an equality here.
* Ed25519 verification is an arbitrary predicate carried by the trust values (`signed`), and decoding of a wire into an
  envelope is an arbitrary function (`decode`), so every theorem holds for all of them.
* Times are integers in Unix seconds, read once per call as the code reads its clock. Amounts are the natural numbers
  their canonical decimals denote. Strings whose order or identity matters are sequences of UTF-16 code units.
* `Math.floor` of a quotient by a positive divisor is Dafny's division; `Math.round` is written out. All numerators
  involved are far below 2^53, so JavaScript's quotients floor and round to the same integers.

What came out false of the code, with the exact condition and a concrete witness:

* An object key `__proto__` is dropped by the normalizer, because the assignment at `canonical.ts:49` sets a prototype
  instead of a property. Two values then print alike exactly when they agree up to key order once such keys are dropped
  (`CanonicalTextIdentifies`, `CanonicalTextInjective`; witness `ProtoKeyCollides`).
* A permit is single-use only for callers that do not overlap its uses: two unserved uses can both still run exactly when
  both have passed the permit check and the store still holds the permit's state (`BothCanRunIff`, run
  `OverlappingUsesBothRun`), and with one already run a second still can under the same condition (`CanStillRunIff`,
  `SecondCanRunIff`). Without overlap it runs at most once, even when its operation throws (`DisciplinedPermitRunsOnce`).
* A first bundle may list a key as active and tombstone it too; the state it commits then refuses every later bundle, the
  same one included (`InconsistentStateAcceptsNothing`, witness `FirstBundleCanGetStuck`). Presenting a bundle again works
  exactly when none of its tombstones names a record it lists with another lifecycle or binding (`RestartIsIdempotent`,
  `ConsistentIffTombstonesAgree`), which a signer can check before publishing.
* The comment at `apps/marketplace-api/src/core.ts:184` takes every second-pass failure for a fault of the set. That holds
  with a clock that stands still (`TwoPassesAgree`). For any clock the request fails for another reason exactly when there
  are survivors, not too many, and the last reading is no legal time for the mandate or lies outside some survivor's
  interval from issuance less skew to expiry (`BlamesTheSetWronglyIff`, witness `SampleExpiresBetweenPasses`).
* Rows of the comparison view and the receipt ranking can disagree on two eligible quotes of one evaluation: exactly when
  their totals round to one displayed score and their quote ids are ordered against (higher total, then candidate)
  (`OrdersDisagreeIff`, witness `TieShownTheOtherWay`).
* `validateActionCoverage` by itself does not bound the total value quoted, because it accepts repeated action ids. For a
  list that some mandate covers, every covering mandate grants the total exactly when no id is quoted twice with a positive
  value (`CoverageBoundsTotalIff`, witness `RepeatedSwapExceeds`); the request schema's distinct ids imply it (`CoveredTotal`).

## Model

| member | source | states |
|---|---|---|
| TrustBundle.NextStateIsBundle | tools/marketplace-core/src/trust-bundle.ts:1512-1582 | whatever state an accepted bundle replaces, the next durable state is the one the bundle itself spells out |
| TrustBundle.UnionIsBundleList | tools/marketplace-core/src/trust-bundle.ts:1557-1580 | recomputing and sorting the revoked-fingerprint union adds nothing to the list an accepted bundle carries |
| TrustBundle.ConsistentIffTombstonesAgree | tools/marketplace-core/src/trust-bundle.ts:1584-1673 | an accepted bundle leaves a consistent state exactly when none of its tombstones names a listed record with another lifecycle or binding |
| TrustBundle.RestartIsIdempotent | tools/marketplace-core/src/trust-bundle.ts:1535-1543 | presenting the committed bundle again changes nothing exactly when its tombstones agree with its records, and is refused otherwise |
| TrustBundle.AcceptedOverPriorIsConsistent | tools/marketplace-core/src/trust-bundle.ts:1584-1673 | a bundle accepted over an older state leaves a consistent state |
| TrustBundle.InconsistentStateAcceptsNothing | tools/marketplace-core/src/trust-bundle.ts:1526-1529 | an inconsistent durable state refuses every bundle |
| TrustBundle.FirstBundleCanGetStuck | tools/marketplace-core/src/trust-bundle.ts:1512-1518 | a concrete first bundle that is accepted and leaves an inconsistent state |
| TrustBundle.StepContinues | tools/marketplace-core/src/trust-bundle.ts:1675-2028 | the record and tombstone checks imply that every id keeps its binding, tombstones stay and lifecycles only advance |
| TrustBundle.SupersedesTransitive | tools/marketplace-core/src/trust-bundle.ts:1529-1576 | superseding (generation up, epoch not down, ledgers and revocations only grow) is transitive over states |
| TrustBundle.VerifiedStepSupersedes | tools/marketplace-core/src/trust-bundle.ts:683-777 | a step to a new state by a bundle that verifies (what that takes: VerifyBundleIff) supersedes the state it replaces |
| TrustAcceptance.VerifyBundleIff | tools/marketplace-core/src/trust-bundle.ts:683-777 | verification succeeds exactly for a bundle under the pinned root key, signed by it, no older than the rollback floor, with sorted ledgers whose records, tombstones and revoked fingerprints agree, and standing to the prior state as the same bundle or a lawful newer one, from issuance less 30 seconds until expiry, at most 604800 seconds apart; the state it yields repeats the bundle field by field |
| TrustAcceptance.RefusedOutright | tools/marketplace-core/src/trust-bundle.ts:704-740 | which bundles are refused for the key, the signature, a clock before the window, an illegal window or expiry, each with its own code, whatever they hold |
| TrustAcceptance.RollbackIff | tools/marketplace-core/src/trust-bundle.ts:1097-1121 | a rollback is reported exactly for a signed bundle in its window that lies below the floor, or is sound but older than a prior state that holds, or another one of its generation |
| TrustAcceptance.NewerIsAccepted | tools/marketplace-core/src/trust-bundle.ts:1512-1582 | a concrete second bundle, which retires nothing and adds a key, is accepted over the state of a concrete first one exactly in its window |
| TrustProtocol.StepKeepsInv | tools/marketplace-core/src/category-trust-controller.ts:380-463 | every atomic step of every call, delivery and permit use keeps the protocol invariant |
| TrustProtocol.RunKeepsInv | tools/marketplace-core/src/category-trust-controller.ts:209-346 | every interleaving from an invariant state keeps it |
| TrustProtocol.RequestLinks | tools/marketplace-core/src/category-trust-controller.ts:400-413 | a compare-and-swap that takes effect replaces exactly the state its bundle was verified against |
| TrustSafety.EveryChangeIsVerified | tools/marketplace-core/src/category-trust-controller.ts:380-427 | in every state meeting the invariant each change of durable state is what some bundle verified over exactly the state it replaced would leave |
| TrustOrigins.EveryChangeIsSigned | tools/marketplace-core/src/category-trust-controller.ts:380-427 | in every run from an initial store each change of durable state was made by a call of that run whose bundle is signed under its own controller's root, acceptable over exactly the state replaced and read inside its window; the new state repeats that bundle |
| TrustSafety.LaterSupersedes | tools/marketplace-core/src/category-trust-controller.ts:380-427 | over a whole run generations strictly rise and epochs, ledgers and revocations never go back |
| TrustSafety.GenerationsRise | tools/marketplace-core/src/category-trust-controller.ts:380-427 | over any run from an initial store a later state has a higher generation and no lower revocation epoch |
| TrustSafety.NeverReturns | tools/marketplace-core/src/category-trust-controller.ts:55-65 | the store never holds the same content twice |
| TrustSafety.RevocationIsPermanent | tools/marketplace-core/src/trust-bundle.ts:1545-1576 | a fingerprint revoked in one durable state names no key of any later one, in any run |
| TrustSafety.IdentityIsPermanent | tools/marketplace-core/src/trust-bundle.ts:1675-1813 | in any state meeting the invariant, a key id of an earlier durable state keeps its public key, a release id its definition digest, and a tombstoned id of either kind never returns |
| TrustSafety.IdentityIsPermanentOverRuns | tools/marketplace-core/src/category-trust-controller.ts:380-427 | the same between any two durable states of any run from an initial store |
| TrustSafety.RequestAppliesOnce | tools/marketplace-core/src/category-trust-controller.ts:400-413 | however often a compare-and-swap is delivered it changes the store at most once |
| TrustSafety.CommitmentWasDurable | tools/marketplace-core/src/category-trust-controller.ts:428-463 | a registered commitment names a state the store held at some moment since its call began |
| TrustSafety.RegistriesNameDurableStates | tools/marketplace-core/src/category-trust-controller.ts:279-294 | after any run every commitment and permit ever registered names a state in the store's history; which ones exist is PermitsAreExactlyIssued |
| TrustRegistration.ConfirmRegisters | tools/marketplace-core/src/category-trust-controller.ts:263-294 | the last step of a successful call adds the commitment with its controller, bundle, generation, epoch and state, and exactly if it issues a permit the permit with that commitment and the tuple granted; an unsuccessful one adds nothing; all other entries stay |
| TrustRegistration.IssuedPermitIsAsserted | tools/marketplace-core/src/category-trust-controller.ts:279-305 | a use started next with a permit just issued passes the check exactly for the controller that issued it |
| TrustRegistration.PermitsAreExactlyIssued | tools/marketplace-core/src/category-trust-controller.ts:239-295 | after any run from an initial store the commitments are those of the calls that succeeded, the permits those of the ones that issue one, each naming its call's controller, bundle and state and a tuple granted in the run |
| TrustRegistration.CheckedIff | tools/marketplace-core/src/category-trust-controller.ts:296-305 | after any run a use passes its check exactly for a call that issued a permit under the same controller and of which no use has begun |
| TrustRegistration.AbortedNeverRegisters | tools/marketplace-core/src/category-trust-controller.ts:239-295 | a call cut off before its end, whatever it awaited, never registers a commitment or permit in any continuation |
| TrustRegistration.CommittedSinceStart | tools/marketplace-core/src/category-trust-controller.ts:428-463 | a commitment of a call started now names its bundle and a state the store holds now or comes to hold in the run |
| TrustSafety.ConfirmSucceedsIff | tools/marketplace-core/src/category-trust-controller.ts:428-440 | at its last load a call succeeds exactly when its state is the durable state and its tuple resolves |
| TrustSafety.LostReplyStillSucceeds | tools/marketplace-core/src/category-trust-controller.ts:401-427 | once written, a call succeeds whatever reply it gets, none included |
| TrustSafety.OperationSeesItsState | tools/marketplace-core/src/category-trust-controller.ts:314-324 | while a permit's operation runs the durable state is the one the permit names |
| TrustSafety.StalePermitNeverRevived | tools/marketplace-core/src/category-trust-controller.ts:314-321 | once the store has left a permit's state no operation of that permit runs in any continuation |
| TrustSafety.ConsumedPermitServesNoNewUse | tools/marketplace-core/src/category-trust-controller.ts:296-305 | a consumed permit is refused by every later check, whatever became of its operation |
| TrustSafety.OverlappingUsesBothRun | tools/marketplace-core/src/category-trust-controller.ts:306-325 | two uses that both passed the check before either was served both run |
| TrustSafety.BothCanRunIff | tools/marketplace-core/src/category-trust-controller.ts:306-325 | two unserved uses of one permit can both still run exactly when both have passed the check and the store holds the permit's state |
| TrustSafety.CanStillRunIff | tools/marketplace-core/src/category-trust-controller.ts:306-325 | an unserved use can still run exactly when it has passed the check and the store holds the permit's state, whatever ran before under its permit |
| TrustSafety.SecondCanRunIff | tools/marketplace-core/src/category-trust-controller.ts:306-325 | with one use already run, a second one of the same permit can still run exactly under that condition |
| TrustSafety.DisciplinedPermitRunsOnce | tools/marketplace-core/src/category-trust-controller.ts:306-325 | with non-overlapping uses a permit's operation runs at most once, even when it throws |
| TrustRuntime.AloneEndsAs | tools/marketplace-core/src/category-trust-controller.ts:380-440 | with no other writer a call's result and the stored state, for every reply and for an applied or lost write |
| TrustRuntime.AloneRegisters | tools/marketplace-core/src/category-trust-controller.ts:239-295 | with no other writer a successful call adds its commitment and, if it issues one, its permit; a failed call adds nothing; other entries, uses and fence stay |
| TrustRuntime.TwoReceiptsSettle | tools/marketplace-core/src/category-trust-controller.ts:400-427 | only the two receipts that name exactly the write asked for end a call without another load |
| TrustRuntime.ServedRunsIff | tools/marketplace-core/src/category-trust-controller.ts:306-325 | with nothing else running an operation runs exactly for a current permit whose state is stored, and consumes only it |
| TrustRuntime.Runtime.VerifyAndCommit | tools/marketplace-core/src/category-trust-controller.ts:239-295 | the whole call keeps the invariant, ends with the stated result and stored state, and registers exactly its own commitment and, when it issues one, its permit with the tuple granted; on failure nothing; uses, consumed permits and fence stay |
| TrustRuntime.Runtime.WithPermit | tools/marketplace-core/src/category-trust-controller.ts:306-325 | runs exactly for a current, fresh permit; consumes it alone and leaves store, permits and fence as they were |
| Ordering.CompareIsTotalOrder | tools/marketplace-core/src/primitives.ts:74-76 | the string comparator is a strict total order that returns 0 only for equal strings |
| Ordering.LessIff | tools/marketplace-core/src/primitives.ts:74-76 | one string precedes another exactly when at the first place where they differ it is over or has the smaller code unit |
| Ordering.SortForgetsOrder | tools/marketplace-core/src/evaluate.ts:907-909 | sorting by a comparator that tells the elements apart forgets the order they came in |
| Decimal.ValueInjective | tools/marketplace-core/src/primitives.ts:46-57 | a number has exactly one canonical decimal |
| CanonicalJson.NormalizeIsNormal | tools/marketplace-core/src/canonical.ts:21-54 | normalization gives sorted distinct keys, safe integers and no array-index or prototype key, at every depth |
| CanonicalJson.NormalizeFixesNormal | tools/marketplace-core/src/canonical.ts:21-54 | a normal value is its own normal form |
| CanonicalJson.NormalFormDecidesSame | tools/marketplace-core/src/canonical.ts:21-54 | two values have one normal form exactly when they agree up to key order |
| CanonicalWire.StringRoundTrip | tools/marketplace-core/src/canonical.ts:56-58 | parsing a printed string gives it back, surrogates and control characters included |
| CanonicalWire.ValueRoundTrip | tools/marketplace-core/src/canonical.ts:56-58 | parsing the text of a normal value followed by anything gives the value back and stops right after it |
| CanonicalWire.PrintRoundTrips | tools/marketplace-core/src/canonical.ts:56-58 | the canonical text of a normal value parses to that value |
| CanonicalArtifacts.CanonicalTextParses | tools/marketplace-core/src/canonical.ts:21-58 | parsing the canonical text of any value that has one (CanonicalTextIff says which) gives its normal form |
| CanonicalDomain.CanonicalTextIff | tools/marketplace-core/src/canonical.ts:21-58 | a value has a canonical text exactly when every number is a safe integer, nothing in it is foreign to JSON and no key at any depth is an array-index name; key order does not enter |
| CanonicalDomain.KeyOrderIsIrrelevant | tools/marketplace-core/src/canonical.ts:41-51 | values that are the same maps at every depth have the same canonical text or none |
| CanonicalDomain.OutOfOrderPrintsInOrder | tools/marketplace-core/src/canonical.ts:41-58 | the object with b before a prints as {"a":2,"b":1} |
| CanonicalDomain.EscapeIsShortest | tools/marketplace-core/src/canonical.ts:56-58 | no text that parses to a code unit other than a surrogate is shorter than the one printed for it |
| CanonicalDomain.EscapesAreLowerCase | tools/marketplace-core/src/canonical.ts:56-58 | an escape is one, two or six units long, six for a lone surrogate, and its hexadecimal digits are lower case |
| CanonicalDomain.PlainTextPrintsAsIs | tools/marketplace-core/src/canonical.ts:56-58 | a well-formed string without quote, backslash or control characters prints unchanged, surrogate pairs included |
| CanonicalDomain.TextIsTight | tools/marketplace-core/src/canonical.ts:56-58 | arrays, objects and strings print with their separators and delimiters and no unit besides |
| CanonicalArtifacts.CanonicalTextIdentifies | tools/marketplace-core/src/canonical.ts:21-62 | of two values that have a text, they print one text exactly when they agree up to key order, dropped prototype keys aside |
| CanonicalArtifacts.SameIsMapEquality | tools/marketplace-core/src/canonical.ts:39-51 | agreeing up to key order is equality of the key-to-value maps when no prototype key occurs |
| CanonicalArtifacts.CanonicalTextInjective | tools/marketplace-core/src/canonical.ts:56-62 | without prototype keys the printer is injective on values taken as maps |
| CanonicalArtifacts.ProtoKeyCollides | tools/marketplace-core/src/canonical.ts:47-49 | two different objects that print alike because one has a prototype key |
| CanonicalArtifacts.NormalizeCanonical | tools/marketplace-core/src/canonical.ts:21-54 | the sorted-key loop that fills the output record computes the recursive normal form, defined exactly where CanonicalTextIff says |
| CanonicalArtifacts.AssertBoundedJsonShape | tools/marketplace-core/src/attestation.ts:380-402 | the worklist accepts exactly the trees with at most 4096 nodes and depth at most 32 |
| CanonicalArtifacts.AcceptedIffCanonical | tools/marketplace-core/src/attestation.ts:349-378 | a wire is accepted exactly when it is the canonical text of a bounded normal value, which it then yields |
| CanonicalArtifacts.SpacedTextIsRefused | tools/marketplace-core/src/attestation.ts:349-378 | a canonical text followed by a space is refused, for its shape when its value is out of bounds and otherwise as not canonical |
| CanonicalArtifacts.AcceptedWireIsUnique | tools/marketplace-core/src/attestation.ts:371-376 | two accepted wires of one value are the same wire |
| Marketplace.CompareEqualIsSameIdentity | tools/marketplace-core/src/primitives.ts:82-99 | the candidate comparator returns 0 exactly for candidates with one identity string |
| Marketplace.CandidatesByNumber | tools/marketplace-core/src/primitives.ts:91-99 | on one chain candidates stand in the order of their token numbers, whatever the lengths of their decimals |
| Marketplace.NormalizeIsValid | tools/marketplace-core/src/normalize.ts:21-79 | normalizing a valid projection always satisfies the quote schema |
| Marketplace.NormalizationLosesNothing | tools/marketplace-core/src/normalize.ts:21-79 | payload and capture time can be read back from a normalized quote, which commits to both |
| Findings.FindingKeyInjective | tools/marketplace-core/src/codes.ts:176-185 | the key a finding is stored under identifies it |
| Findings.FindingsByKindThenCode | tools/marketplace-core/src/codes.ts:176-185 | findings stand by kind, exclusions first and unsupported last, and then by code |
| Findings.CanonicalIsCanonical | tools/marketplace-core/src/codes.ts:176-185 | sorted findings have the same members, each once, in key order |
| Findings.CanonicalDependsOnSet | tools/marketplace-core/src/codes.ts:176-185 | neither the order findings were raised in nor repetition shows |
| Findings.SortFindings | tools/marketplace-core/src/codes.ts:176-185 | the Map loop computes the canonical list |
| TickRange.ExpectedIffNearest | tools/marketplace-core/src/evaluate.ts:475-486 | the computed lower tick is the one aligned tick whose range is nearest, for every tick, ties upward |
| TickRange.NearestIsClosest | tools/marketplace-core/src/evaluate.ts:475-486 | no aligned range of the width has its middle closer to the current tick |
| TickRange.NearestContainsTick | tools/marketplace-core/src/evaluate.ts:487-495 | that range always contains the current tick |
| Ranking.ClampChangesNothing | tools/marketplace-core/src/ranking.ts:9-36 | clamping never changes a factor and the score always passes its schema |
| Ranking.ScoreBounds | tools/marketplace-core/src/ranking.ts:38-143 | a scored quote with a passed preview totals 500000 to 1000000, 5000 to 10000 basis points; the total itself is ScoreIs |
| Ranking.ScoreMonotone | tools/marketplace-core/src/ranking.ts:38-143 | a quote no worse in every input that ScoreIs names, scored no later, scores at least as high |
| ScoreForm.ScoreIs | tools/marketplace-core/src/ranking.ts:38-143 | the six factors and the total as numbers in the inputs: freshness is the least of the five unused shares of the age limits, risk a quarter of the sum of four unused shares, cost a third of three, reputation the 50/30/20 mix, each the greatest integer not above its share; four numbers are these exactly when they are the factors, and the total is 500000 + 20, 15, 10 and 5 times them |
| ScoreForm.EligibleScoreIs | tools/marketplace-core/src/evaluate.ts:605-608 | the decision of an eligible quote carries exactly that total |
| Eligibility.RaiseRangeIff | tools/marketplace-core/src/evaluate.ts:457-504 | the four range findings are absent exactly for the unique nearest aligned range inside the approved one |
| Eligibility.NothingRaisedIff | tools/marketplace-core/src/evaluate.ts:264-561 | no finding is raised exactly when the quote fits the mandate and the time lies in one interval |
| Eligibility.EligibleIff | tools/marketplace-core/src/evaluate.ts:563-620 | eligible exactly when the declarative fit holds, from capture less skew until the first expiry or stale second |
| Eligibility.DecisionIsValid | tools/marketplace-core/src/schemas.ts:676-740 | no decision ever violates the decision schema |
| Eligibility.EligibleScoreBounds | tools/marketplace-core/src/evaluate.ts:605-608 | every eligible decision carries a score in the upper half of the scale |
| Eligibility.EligibleRangeIsUnique | tools/marketplace-core/src/evaluate.ts:457-504 | the proposed range of an eligible quote is the only nearest aligned range and contains the tick |
| Eligibility.LooserKeepsEligible | tools/marketplace-core/src/evaluate.ts:505-559 | higher ceilings, longer allow-lists and later limits never remove eligibility |
| Eligibility.AddTimestampFindings | tools/marketplace-core/src/evaluate.ts:220-262 | pushes exactly the timestamp findings, in order |
| Eligibility.AddGateFindings | tools/marketplace-core/src/evaluate.ts:270-291 | the gate loop pushes one finding for each gate that does not pass |
| Eligibility.RebalancingFindings | tools/marketplace-core/src/evaluate.ts:264-561 | the pushing program computes the canonical list of everything raised, which FindingsAreDue reads off the inputs |
| DecisionTable.FindingsAreDue | tools/marketplace-core/src/evaluate.ts:264-620 | a finding of a given kind and code is in the decision exactly when its line of one table, conditions on mandate, quote and time alone, holds |
| DecisionTable.OutcomeIs | tools/marketplace-core/src/evaluate.ts:563-620 | excluded exactly for another category or some exclusion condition, unsupported for the other categories, inconclusive exactly when no exclusion holds and a gate is unknown, a timestamp ahead of the clock, the preview unavailable or the price not normalized, eligible otherwise |
| Witnesses.SampleIsEligible | tools/marketplace-core/src/evaluate.ts:563-620 | a concrete quote at a tick tie is eligible from thirty seconds before capture until its evidence is stale, and at no other time |
| DecisionTable.LostPreviewIsInconclusive | tools/marketplace-core/src/evaluate.ts:367-368 | an eligible quote that loses its preview becomes inconclusive, for that reason and no other |
| Witnesses.UnavailablePreviewIsInconclusive | tools/marketplace-core/src/evaluate.ts:367-368 | the same quote with its preview unavailable is inconclusive for that reason alone |
| Attestation.AcceptedIff | tools/marketplace-core/src/attestation.ts:188-272 | an attestation verifies exactly when sound, from issuance less skew until its expiry |
| Attestation.RefusalIsJustified | tools/marketplace-core/src/attestation.ts:188-272 | every refusal names a condition of the envelope, the mandate, the clock or the trust that really fails |
| Attestation.RefusedForTime | tools/marketplace-core/src/attestation.ts:208-240 | a sound envelope is refused as not yet valid exactly before its issuance less skew, as expired exactly from its expiry |
| Attestation.RefusedForSignature | tools/marketplace-core/src/attestation.ts:253-272 | an envelope that some signature would make acceptable is refused for its signature |
| Attestation.VerifiedIsValidProjection | tools/marketplace-core/src/evaluate.ts:889-901 | a verified payload makes a valid projection exactly when its evidence has its own category |
| Evaluation.InspectCandidateSet | tools/marketplace-core/src/evaluate.ts:122-154 | the two-set loop finds the first repetition |
| Evaluation.InspectIff | tools/marketplace-core/src/evaluate.ts:122-154 | a set is accepted exactly when small enough with every identity and quote id its own |
| Evaluation.RefusalCode | tools/marketplace-core/src/evaluate.ts:131-153 | the code of a refused set is that of its first repetition, a repeated identity before a repeated quote id |
| Evaluation.UniquePermutes | tools/marketplace-core/src/evaluate.ts:131-153 | uniqueness does not depend on order |
| Evaluation.SortedQuotesAgree | tools/marketplace-core/src/evaluate.ts:102-107 | sorting unique valid quotes gives one list whatever the order |
| Evaluation.ProjectAllIff | tools/marketplace-core/src/evaluate.ts:880-904 | all wires project exactly when each does, in order |
| Evaluation.EvaluationIgnoresOrder | tools/marketplace-core/src/evaluate.ts:873-919 | any permutation of the attestations gives the same success, quotes, decisions, ranking and receipt id |
| Evaluation.ReceiptIsValid | tools/marketplace-core/src/schemas.ts:762-919 | the receipt of decided unique quotes always satisfies the receipt schema; what it says is EvaluationIsSpelled |
| ReceiptContents.EvaluationIsSpelled | tools/marketplace-core/src/evaluate.ts:873-919 | the result of every successful evaluation in its own fields: mandate, the attested quotes by candidate, the decision of each, commitments to exactly these lists and the ranking, each reference the digest of the entry at its index, each count the number of indices with that outcome, the ranking the eligible ones by total and then candidate |
| ReceiptContents.AcceptedIffSpelled | tools/marketplace-core/src/evaluate.ts:1003-1096 | the re-check accepts a result exactly when its mandate is valid, its instant legal, its at most eight quotes valid and distinct, and it is spelled that way of them |
| ReceiptContents.SpelledOnce | tools/marketplace-core/src/evaluate.ts:622-692 | what is spelled that way of given quotes at a time is one result: order, decisions, commitments, ranking, counts and receipt id leave no choice |
| ReceiptContents.RefusalIsJustified | tools/marketplace-core/src/evaluate.ts:1003-1096 | every refusal of the re-check names something about the result that really fails |
| Evaluation.RankingIsSorted | tools/marketplace-core/src/evaluate.ts:628-647 | the ranking holds the eligible decisions, higher totals first and equal totals in candidate order |
| Evaluation.ConsistencyIsSound | tools/marketplace-core/src/evaluate.ts:1003-1096 | what the re-check accepts is the evaluation of its mandate, quotes and time, whatever their order |
| Evaluation.ConsistencyIsComplete | tools/marketplace-core/src/evaluate.ts:1003-1096 | the re-check accepts every evaluation of a valid mandate and valid quotes |
| Evaluation.ForgedReceiptIsRefused | tools/marketplace-core/src/evaluate.ts:1003-1096 | an accepted result with any other receipt for its instant is refused for the receipt |
| Evaluation.ReorderedQuotesAreRefused | tools/marketplace-core/src/evaluate.ts:1052-1072 | an accepted result with its quotes in any other order is refused for their order |
| Evaluation.ForgedDecisionsAreRefused | tools/marketplace-core/src/evaluate.ts:1003-1096 | an accepted result with as many other decisions is refused for them |
| Evaluation.EvaluatedIsConsistent | tools/marketplace-core/src/evaluate.ts:873-919 | every evaluation of attestations passes the re-check |
| Evaluation.ReceiptIdCommits | tools/marketplace-core/src/evaluate.ts:659-692 | two accepted results with one receipt id are the same result, as the id commits to everything EvaluationIsSpelled lists |
| Display.ProjectScore | apps/marketplace-api/src/display.ts:130-197 | the projection loop computes factors, confirmations, warnings and the renormalized score |
| Display.ProjectedIs | apps/marketplace-api/src/display.ts:138-197 | factors shown as scoring are the present ones other than fit and readiness at full, which are confirmations; the displayed score is the quotient of their points and weight rounded to the nearest; Core's own score and total are carried |
| Display.RowWarned | apps/marketplace-api/src/display.ts:223-258 | a decision raises a warning exactly when no quote has its id, or for fit or readiness below full |
| Display.WarningsRaised | apps/marketplace-api/src/display.ts:143-165 | a warning is raised exactly for a missing factor and for fit or readiness below full |
| Display.RoundedIsNearest | apps/marketplace-api/src/display.ts:181-187 | rounding gives the nearest integer, the upper one at a tie |
| Display.ProjectionConserves | apps/marketplace-api/src/display.ts:138-176 | whatever the score, shown weights and points add up to Core's: nothing is hidden |
| Display.PinnedProjection | apps/marketplace-api/src/display.ts:178-187 | a pinned score drops exactly 500000 points, rounds the rest over 50 weight points and warns of nothing |
| Display.EligibleIsPinned | apps/marketplace-api/src/display.ts:32-39 | every eligible decision has fit and readiness pinned at 10000 |
| Display.DisplayedFollowsTotal | apps/marketplace-api/src/display.ts:181-187 | displayed scores are a monotone rounding of Core's totals |
| Display.BuildRows | apps/marketplace-api/src/display.ts:223-270 | the pushing loop and the sort compute the specified rows and warnings |
| Display.ViewShowsEachDecision | apps/marketplace-api/src/display.ts:223-270 | the view is a rearrangement of one row for each decision, with its quote id, candidate, outcome, findings, Core's numbers and its quote |
| Display.RowsInOrder | apps/marketplace-api/src/display.ts:260-267 | of two rows the earlier is the eligible one, or the higher grade, or the earlier quote id |
| Display.EligibleRowsFirst | apps/marketplace-api/src/display.ts:260-267 | no ineligible row precedes an eligible one, and scores descend |
| Display.EligibleHasPlaces | apps/marketplace-api/src/display.ts:223-270 | every eligible quote of an evaluation has a place in the receipt ranking and a row in the view |
| Display.RankPlaces | tools/marketplace-core/src/evaluate.ts:628-647 | of two ranked quotes the one with the higher total, or at equal totals the earlier candidate, stands first in the receipt |
| Display.RowPlaces | apps/marketplace-api/src/display.ts:260-270 | of two eligible rows the one with the higher rounded (total - 500000) / 50, or at a tie the earlier quote id, stands first in the view |
| Display.DisplayAgreesWithReceipt | apps/marketplace-api/src/display.ts:260-270 | two eligible quotes of one evaluation with different displayed scores stand in one relative order in view and receipt, that of their totals |
| Display.OrdersDisagreeIff | apps/marketplace-api/src/display.ts:260-270 | view and receipt put two eligible quotes in opposite orders exactly when their totals round alike and their quote ids are ordered against (higher total, then candidate) |
| Witnesses.TieShownTheOtherWay | apps/marketplace-api/src/display.ts:265-269 | two valid eligible quotes of one valid mandate, evaluated together, that the receipt ranks one way and the view shows the other |
| Display.NoWarnings | apps/marketplace-api/src/display.ts:116-117 | rows built from Core's own quotes and decisions never carry a warning |
| TwoPass.Evaluate | apps/marketplace-api/src/core.ts:148-191 | the two-pass program computes the specified answer for any clock |
| TwoPass.ClassifyPartitions | apps/marketplace-api/src/core.ts:152-167 | the first pass partitions the indices by whether each attestation evaluates alone |
| TwoPass.SurvivorDecidedAsAlone | apps/marketplace-api/src/core.ts:175-182 | each survivor is decided in the ranked set exactly as alone |
| TwoPass.SurvivorsFailOnlyAsASet | apps/marketplace-api/src/core.ts:183-190 | survivors together fail exactly when too many or repeated, with one of three codes |
| TwoPass.FirstRefusalDecides | tools/marketplace-core/src/evaluate.ts:880-904 | otherwise a set with a refused attestation fails with the error that the first refused one has alone |
| TwoPass.TwoPassesAgree | apps/marketplace-api/src/core.ts:148-191 | with a steady clock: partition, equal decisions, and failure only through the set |
| TwoPass.RankedIff | apps/marketplace-api/src/core.ts:175-190 | at any instant a set is ranked exactly when small enough, at a legal time, with every envelope sound and inside its interval and no candidate or quote id repeated |
| TwoPass.FirstPassUnderAnyClock | apps/marketplace-api/src/core.ts:152-167 | under any clock the first pass partitions the indices and accepts exactly the attestations sound and current at their own reading |
| TwoPass.BlamesTheSetWronglyIff | apps/marketplace-api/src/core.ts:183-190 | under any clock the request fails with a code that is not about the set exactly when survivors within the limit exist and the last reading is illegal or outside some survivor's interval |
| TwoPass.FailsForTimeIff | apps/marketplace-api/src/core.ts:183-190 | sound attestations together fail with a code that is not about the set exactly for an illegal instant or one outside some interval |
| TwoPass.RankingReturnedIff | apps/marketplace-api/src/core.ts:148-191 | under any clock a ranking is returned exactly when the survivors are within the limit, distinct and all current at the last, legal reading |
| TwoPass.ExpiryBetweenPasses | apps/marketplace-api/src/core.ts:183-190 | any one attestation accepted at the first reading and expired at the second fails the request with ATTESTATION_EXPIRED |
| TwoPass.FirstPassBreaksIff | apps/marketplace-api/src/core.ts:155-167 | the first pass gives up exactly when some evaluation of one attestation dies of an error that is not Core's |
| TwoPass.CrashAnswers | apps/marketplace-api/src/core.ts:155-167 | the request then fails with the first such error, as no fault of the client |
| TwoPass.SecondCrashAnswers | apps/marketplace-api/src/core.ts:175-190 | when the second pass dies so does the request, as no fault of the client |
| Witnesses.SampleExpiresBetweenPasses | apps/marketplace-api/src/core.ts:183-190 | a concrete attestation and two readings at which that happens |
| CategoryProduction.UniqueSortedIff | tools/marketplace-core/src/category-production.ts:249-269 | the uniqueness and order rule accepts exactly strictly ascending ids |
| CategoryProduction.GrantedByExactlyOne | tools/marketplace-core/src/category-production.ts:464-478 | with distinct ids an action lies within exactly one granted action |
| CategoryProduction.GrantedTotal | tools/marketplace-core/src/category-production.ts:464-478 | distinct granted actions ask for no more value together than is granted together |
| CategoryProduction.AcceptedRequestAttenuates | tools/marketplace-core/src/category-production.ts:436-492 | an accepted request is within the mandate action by action, in total value, spend, expiry and lifetime |
| SuccessorForm.BindIff | tools/marketplace-core/src/category-production.ts:436-492 | a request is accepted exactly when mandate and request are valid, it names and commits to this mandate and its scope, and every asked action is a granted one at no more value, with spend, expiry and lifetime inside the mandate's |
| CategoryProduction.GrantedTransitive | tools/marketplace-core/src/category-production.ts:1090-1101 | attenuation composes |
| CategoryProduction.CoverageComposes | tools/marketplace-core/src/category-production.ts:1056-1114 | coverage with the profile as a further bound composes from mandate to request to quote |
| CategoryProduction.CoverageAfterBinding | tools/marketplace-core/src/category-production.ts:1056-1114 | for a bound request coverage asks exactly for the profile |
| SuccessorForm.CoveredByCases | tools/marketplace-core/src/category-production.ts:1056-1114 | coverage by cases: observers ask for nothing and were granted nothing; traders ask, within the spend cap, only for calls the mandate allows and a draft profile of the adapter admits |
| CategoryProduction.CoveredTotal | tools/marketplace-core/src/category-production.ts:1090-1112 | covered actions with distinct ids total no more than the mandate's |
| CategoryProduction.CoverageBoundsTotalIff | tools/marketplace-core/src/category-production.ts:1090-1112 | for a list some mandate covers, every covering mandate grants at least the quoted total exactly when no id is quoted twice with a positive value |
| CategoryProduction.RepeatedValueExceeds | tools/marketplace-core/src/category-production.ts:1090-1112 | whenever an id is quoted twice with a positive value, some mandate with distinct ids covers the list and grants less than it quotes |
| CoverageWitness.RepeatedSwapExceeds | tools/marketplace-core/src/category-production.ts:1090-1112 | one action of value 1 granted, the same action quoted twice: covered, at a total of 2 |
| CategoryProduction.ValidUntilExact | tools/marketplace-core/src/category-production.ts:1645-1658 | a second precedes the computed boundary exactly when every expiry is ahead and the evidence fresh |
| CategoryReads.ReadKeyInjective | tools/marketplace-core/src/category-production.ts:785-795 | the joined key identifies a read although call ids may contain the separator |
| CategoryReads.TargetsFitIff | tools/marketplace-core/src/category-production.ts:628-701 | target observations are accepted exactly when they are the contracts of the scope's subject, in order, each interface-only under the unendorsed source or verified under its adapter's |
| CategoryReads.ReadProfileFitsIff | tools/marketplace-core/src/category-production.ts:950-1003 | a read profile is accepted exactly when it is valid and each read is the described one, but for its response |
| CategoryReads.ExactReadsIff | tools/marketplace-core/src/category-production.ts:797-817 | the comparison is of the exact sets of reads; order is irrelevant |
| CategoryReads.StaticProfileIsProjection | tools/marketplace-core/src/category-production.ts:907-937 | the static profile of an accepted one is its reads without targets, arguments and responses, bound to an account exactly when the scope has one |
| CategoryReads.AcceptedProfilesDifferOnlyInResponses | tools/marketplace-core/src/category-production.ts:950-978 | two accepted profiles of one scope differ only in responses and share one static profile |
| CategoryAttestation.AcceptingTimesAreInterval | tools/marketplace-core/src/category-attestation.ts:320-420 | accepting times are exactly one half-open interval whose end is the returned validUntil |
| CategoryAttestation.RefusalIsJustified | tools/marketplace-core/src/category-attestation.ts:320-420 | every refusal names a condition that really fails |
| CategoryAttestation.ValidUntilIsExact | tools/marketplace-core/src/category-attestation.ts:408-419 | an accepted attestation stays accepted until validUntil and never after |
| CategoryLinkage.AcceptsIff | tools/marketplace-core/src/category-linkage.ts:440-631 | a projection is accepted in exactly one half-open interval ending at its earliest expiry |
| SuccessorForm.StandingIff | tools/marketplace-core/src/category-linkage.ts:440-631 | a linkage stands exactly when it is the one the verifier would have written from its own facts, but for the provider's and observer's six parts, with its times in order |
| CategorySuccessor.EnvelopeErrorIff | tools/marketplace-core/src/category-successor.ts:909-952 | the envelope checks pass exactly for firm bindings within one interval |
| CategorySuccessor.SameExpiry | tools/marketplace-core/src/category-successor.ts:675-689 | the report's validUntil is the linkage expiry cut off by the attestation's |
| CategorySuccessor.VerifyIff | tools/marketplace-core/src/category-successor.ts:520-641 | an attestation verifies in exactly one half-open interval across the checks of both files; what it must be is VerifiesIff |
| SuccessorForm.VerifiesIff | tools/marketplace-core/src/category-successor.ts:520-641 | an attestation verifies exactly when its envelope, linkage and sidecars are what the verifier would have written for a resolved, pinned and signed release, after its three beginnings less skew and before each of its seven ends and the bundle's |
| SuccessorForm.RefusedForTime | tools/marketplace-core/src/category-successor.ts:520-641 | why an attested quote is refused at a legal instant outside its interval: the bundle has expired, it is not yet valid or expired, or its linkage is not in force |
| SuccessorForm.RefusedForSignature | tools/marketplace-core/src/category-successor.ts:1055-1072 | an attestation that some signature would make acceptable is refused for its signature |
| SuccessorForm.RefusalIsJustified | tools/marketplace-core/src/category-successor.ts:909-958 | every refusal of an envelope names a condition of it that really fails |
| CategorySuccessor.ValidUntilIsExact | tools/marketplace-core/src/category-successor.ts:675-689 | before the bundle expires, verifying later succeeds exactly before validUntil |
| CategorySuccessor.DraftsAreNeverComplete | tools/marketplace-core/src/category-successor.ts:989-1020 | while profiles are drafts transactional coverage is never complete |
| CategorySuccessor.DeriveSucceedsIff | tools/marketplace-core/src/category-successor.ts:643-759 | a report derives exactly at the verification tick with a null or the signed profile; its schema never rejects it |
| CategorySuccessor.HireableIff | tools/marketplace-core/src/category-successor.ts:703-726 | hireable exactly for observe-only, thirty seconds left and targets meeting the assurance; the other statuses are StatusIs |
| ReportTable.StatusIs | tools/marketplace-core/src/category-successor.ts:1023-1053 | the status of every derived report by cases: unavailable with under thirty seconds left or no preview; ineligible for a failed preview, or one passed on the observed block in its window with an action the profile does not admit; hireable for observers whose targets meet the release's assurance; inconclusive otherwise |
| ReportTable.ReportIs | tools/marketplace-core/src/category-successor.ts:703-759 | every other field of a derived report is the request's, the mandate's, the attestation's or the release's own, and validUntil the least of seven ends |
| ReportTable.ValidUntilIsLeast | tools/marketplace-core/src/category-successor.ts:675-689 | the computed boundary is the least of seven ends |
| SuccessorWitness.SampleVerifies | tools/marketplace-core/src/category-successor.ts:520-641 | a concrete attestation, for observing and for trading, and exactly the seconds at which it verifies |
| SuccessorWitness.SampleIsHireable | tools/marketplace-core/src/category-successor.ts:643-759 | its report is hireable at every such second with thirty left |
| SuccessorWitness.FailedPreviewIsIneligible | tools/marketplace-core/src/category-successor.ts:1023-1053 | the trading one has a failed preview and its report is ineligible at those seconds |
| CategorySuccessor.Registry.VerifyAttestation | tools/marketplace-core/src/category-successor.ts:544-640 | verifies under a registered store only and registers exactly the verified value |
| CategorySuccessor.Registry.DeriveReport | tools/marketplace-core/src/category-successor.ts:653-672 | reports come from registered attestations only and carry their own linkage, sidecars and preview |

## Left out

- Ed25519, SPKI parsing, SHA-256 itself, UTF-8 and byte-order-mark decoding: library calls; predicates, injective constructors or parameters here.
- Fractions and exponents in JSON numbers: the conversion to a double is an arbitrary function of the token; only safe integers survive normalization.
- Sparse arrays, accessors, symbol keys and exotic prototypes: values here are what `JSON.parse` and object literals produce.
- TrustBundle.VerifiedStepSupersedes: authorization edges (their own well-formedness and their transition rules, the one active tuple, overlap limits, duplicate fingerprints) are arbitrary predicates of the root, so nothing is claimed about edges.
- Resolution of a trust tuple for an attestation (lifecycle at issuance, canary channel): an arbitrary function of key, release, issuance time, adapter and mode, as it does not depend on the evaluation time.
- TrustProtocol.RunKeepsInv: the store is the contract of its interface (atomic compare-and-swap, revision fence, loads of the latest write); backends that break it are outside.
- Readiness classification, clock failures and malformed store replies: they end a call without registering anything, which the abort step covers.
- Eligibility.RebalancingFindings: finding messages are fixed by their codes and are not carried.
- CanonicalArtifacts.AcceptedIffCanonical: which wires are accepted is exact; which of its codes a refused wire gets rests on the model of `JSON.parse` for texts that are not canonical.
- Evaluation.ConsistencyIsSound: artifacts are typed values; that an artifact valid only after normalization is refused appears as validity of the given value.
- Field formats of the schemas (identifier alphabets, address and digest syntax, length limits of texts and lists) except where an argument rests on them.
- TwoPass.Evaluate: errors that are not Core's own are an arbitrary function of the call; their texts are not modelled.
- CategoryReads.AcceptedProfilesDifferOnlyInResponses: the table of selectors and the calldata digest are parameters.
- CategorySuccessor.VerifyIff: error codes of the grouped target, tuple and linkage checks are one code each; which inputs fail is exact.
- The candidate acceptance and active candidate report of the earlier category contract, release units and deployment manifests: tables and bindings of the same kind as those proved.
- The v1 capture path, the passive verifier and adapters, HTTP, UI, command lines and deployment: input and output around the kernel.
