# Verification of the optimization core

This project models the parts of pydantic-ai-gepa whose correctness is hardest to see and
proves what they promise, over every input, run or interleaving.

* **Dollar admission** (`Meter`, `RolloutRuns`, `FundedRuns`, `Exploration`, `MeterChains`,
  `SpendMeter`, `LedgerTree`, `AdmissionTree`): a tree of capped ledgers that admits rollouts
  against reservations, withholds a reserve from exploration, conserves charges and never
  deadlocks.
* **Encoders and rewriters** (`Sorting`, `JsonText`, `Fingerprint`, `CacheKey`, `PyLiteral`,
  `StringSymbols`, `Schemas`, `SchemaLens`, `PathKeys`, `ToolCatalog`): fingerprints that parse
  back, literals that read back with every other byte kept, and a lens over tool schemas.
* **Selection under uncertainty** (`Acceptance`, `Quantile`, `Pareto`, `MatchedVotes`,
  `FairVote`, `Incumbents`, `AdaptiveRuns`): intervals and verdicts, matched voting rounds, Pareto
  choice and incumbent-keeping loops.
* **Event bus and driver** (`EventNames`, `EmitRuns`, `EventBus`, `Reaper`, `Driver`,
  `DriverRuns`): exclusive event files, an acked cursor, at-most-once synthesis, and a driver
  that recovers from a crash between any two saves.
* **Stop classification** (`ProviderErrors`, `StopReasons`): a search over cyclic graphs of
  exceptions that shares one visited set.

`Options`, `Texts` and `Multiples` are small helpers.

Loops and objects of the program are methods and classes here, proved against specification
functions; protocols are state machines whose events are the atomic steps of the program, and
`Run` ranges over all their sequences. Money and scores are reals. Square roots, quantile
functions, engine runs, evaluations, clocks and cost probes are parameters.

Where code and documentation disagree, the model follows the code:

* The overshoot that the meter documents over rollouts "in flight at the stop" is too small; the
  rollouts in flight just after the last admission are what counts.
* The comparison that a phase reserves for can still be refused, if the other kind's high stopped
  the capped ledger.
* The fallback to `repr` that is written as defensive is taken, for text that ends in a run of
  three, six, nine ... quotes.
* A surrogate pair and the character it encodes have one fingerprint.
* The texts of a cache key are joined by a bar that they may hold themselves.
* Names with dots can share a parameter key.
* Swapping the sides of a comparison is not symmetric when a side has a single sample.
* A cause shared by two members of an exception group is seen for the first only.
* Event names stop sorting by sequence number after the last padded number.
* A driver whose event is overtaken by one that sorts before it can never ack it.

Verify with `dafny verify dfyconfig.toml`.

## Model

| member | source | states |
|---|---|---|
| RolloutRuns.OvershootBound | src/pydantic_ai_gepa/spend.py:111-170 | For every interleaving of admissions, responses, settlements, checks and other spend on one capped ledger: `reserved` is the sum of the live reservations; each kind holds at most its ramped slots and all kinds at most `max_concurrent`; total spend is at most the effective cap at the last admission, plus the excess over reservation of the rollouts in flight just after it, plus spend no rollout gate saw. |
| RolloutRuns.OvershootPerSlot | src/pydantic_ai_gepa/spend.py:123-144 | If no rollout in flight just after the last admission costs more than `each` above its reservation, spend is at most the cap plus `max_concurrent * each` plus ungated spend. |
| RolloutRuns.DocumentedBound | src/pydantic_ai_gepa/spend.py:130-138 | The bound over the rollouts in flight now equals the proved one exactly when no rollout of the last admission has settled above its reservation; then it holds. |
| RolloutRuns.DocumentedBoundFails | src/pydantic_ai_gepa/spend.py:130-138 | A concrete run that stops half a dollar over its cap while the only rollout in flight cost what it reserved: the documented bound over "in flight at the stop" is too strong. |
| RolloutRuns.AdmitsExactly | src/pydantic_ai_gepa/spend.py:51-67 | A gate admits if and only if there is no stop and no reflection, headroom is left that covers one projected rollout, and either nothing is in flight or a slot of the ramp is free and the headroom covers one highest cost for every ramped slot; otherwise it stops or waits exactly as stated, and nothing else changes. |
| RolloutRuns.StartsExactly | src/pydantic_ai_gepa/spend.py:466-496 | On every run that condition, read from the rollouts in flight, decides whether the next one starts; above one slot the headroom covers all ramped slots. |
| FundedRuns.FundedBatchFinishes | src/pydantic_ai_gepa/compose.py:465-478 | If spend plus N times the high is strictly below the cap, nothing is in flight and no rollout of the batch exceeds that high, then after any interleaving of the N rollouts there is no stop, a check passes, and with nothing in flight the next rollout is admitted. |
| FundedRuns.NextIsAdmitted | src/pydantic_ai_gepa/spend.py:466-496 | With nothing in flight the next rollout of a funded batch is admitted at once. |
| FundedRuns.ProbedBatchCanStart | src/pydantic_ai_gepa/spend.py:387-437 | On every ledger a run reaches, the running mean projects at most what the highest cost projects; so a batch that the probe accepts is not refused by its own mean projection, and the ledger is unchanged. |
| FundedRuns.RunKeepsMeanBelowHigh | src/pydantic_ai_gepa/spend.py:440-464 | Over any run a kind's dollars are at most its observations times its highest cost. |
| Exploration.ReserveHolds | src/pydantic_ai_gepa/compose.py:481-530 | At the end of any exploration phase that admitted a rollout, outer spend plus N times the high is at most the outer cap plus the inner excesses, reflection spend since, and N times the rise of the high since the last inner admission. |
| Exploration.ComparisonFits | src/pydantic_ai_gepa/compose.py:465-478 | With no excess, no reflection spend and no new high, the follow-up probe passes if and only if the phase did not stop the capped ledger itself. |
| Exploration.OtherKindStopsComparison | src/pydantic_ai_gepa/compose.py:488-497 | A concrete phase with no excess and no new high after which the comparison is refused, because a training rollout's own high stopped the capped ledger. |
| Exploration.PhaseFollowsChain | src/pydantic_ai_gepa/compose.py:481-530 | What happens to the two ledgers of a phase is what happens to a chain of the two: a charge reaches both, a check and a projection ask both, and a refused projection stops only the phase's own. |
| MeterChains.RecordReachesAll | src/pydantic_ai_gepa/spend.py:318-356 | A priced, unpriced or cap-breaking response charges every ledger of the ancestry the same usage even when recording raises; a ledger newly stops only on its own cap or an unpriced response; recording raises exactly when some ledger of the chain is stopped afterwards. |
| MeterChains.RecordExactly | src/pydantic_ai_gepa/spend.py:340-345 | On every ledger of the ancestry one response counts one request with its tokens, in its category; a capped ledger stops exactly when the response has no price or the new total exceeds the cap; recording raises if and only if some ledger was stopped before or must stop now, with the reason of the outermost one. |
| MeterChains.CheckSeesEveryAncestor | src/pydantic_ai_gepa/spend.py:282-291 | A check passes exactly when no ledger of the ancestry is stopped or exhausted, and then changes nothing; it never changes a ledger's spend. |
| MeterChains.ProbeSeesEveryAncestor | src/pydantic_ai_gepa/spend.py:256-280 | A probe of N rollouts passes exactly when every ledger of the ancestry, uncapped ones aside, has no stop and room for N highest costs below its cap. |
| MeterChains.RefusalStaysLocal | src/pydantic_ai_gepa/spend.py:387-437 | A refused projection stops at most the asking ledger; an ancestor's stop changes only if that ancestor is exhausted; no ledger's spend changes; an accepted one changes nothing. |
| MeterChains.CanStartExactly | src/pydantic_ai_gepa/spend.py:387-437 | A projection is accepted exactly when no ledger of the ancestry is stopped or exhausted and the projected batch fits below every cap. |
| MeterChains.ProjectsAtMeans | src/pydantic_ai_gepa/spend.py:398-420 | What a batch is projected to cost: its rollouts at the mean of their kind or category and the following ones at theirs, counting nothing that was not yet observed. |
| SpendMeters.SpendMeter.Create | src/pydantic_ai_gepa/spend.py:172-222 | Returns nothing exactly when the cap or the concurrency is refused, and otherwise a fresh valid meter in the initial state below the given parent. |
| SpendMeters.SpendMeter.constructor | src/pydantic_ai_gepa/spend.py:172-222 | The new meter is valid, has the given parent and is in the initial state. |
| SpendMeters.SpendMeter.ProbeRollouts | src/pydantic_ai_gepa/spend.py:256-280 | Returns what the probe of the whole chain says and changes nothing. |
| SpendMeters.SpendMeter.Check | src/pydantic_ai_gepa/spend.py:282-291 | The chain and the raised stop after the call are those of the chain check, ancestors first. |
| SpendMeters.SpendMeter.RecordPriced | src/pydantic_ai_gepa/spend.py:318-356 | The chain and the raised stop after the call are those of recording on the whole chain. |
| SpendMeters.SpendMeter.CanStart | src/pydantic_ai_gepa/spend.py:387-437 | The chain and the answer are those of the chain projection, stopping this meter only when asked to. |
| SpendMeters.SpendMeter.ObserveStep | src/pydantic_ai_gepa/spend.py:440-464 | The chain after a step is the chain in which every ledger observed it. |
| SpendMeters.SpendMeter.TryAdmitRollout | src/pydantic_ai_gepa/spend.py:466-496 | The local state and the answer are those of the admission function; ancestors are unchanged. |
| SpendMeters.SpendMeter.AdmitLocal | src/pydantic_ai_gepa/spend.py:523-536 | The local part of an admission: waits, refuses, or holds the reservation and one slot of the kind. |
| SpendMeters.SpendMeter.ReleaseLocal | src/pydantic_ai_gepa/spend.py:539-549 | Gives back exactly the slot and the reservation that were held. |
| LedgerTree.LedgersConserve | src/pydantic_ai_gepa/spend.py:293-356 | Over any sequence of events on any tree of meters, each meter's requests, tokens and dollars equal its direct charges plus its children's ledgers, raising included. |
| LedgerTree.RecordConserves | src/pydantic_ai_gepa/spend.py:318-356 | One response at any node, priced or not, keeps that balance everywhere. |
| LedgerTree.OtherEventsKeepLedgers | src/pydantic_ai_gepa/spend.py:282-291 | Checks, projections, observations and admissions leave every ledger's spend alone. |
| LedgerTree.LedgersAreResponses | src/pydantic_ai_gepa/spend.py:318-356 | Over any run each category of a ledger is what it started with plus the usage of every response recorded at that meter or below it. |
| LedgerTree.ObservationsAreSteps | src/pydantic_ai_gepa/spend.py:440-464 | Over any run a meter's counts of reflections and rollouts, and of one kind the count, the dollars and the highest cost, are those of the steps that were observed at it or below it and had a response. |
| LedgerTree.CallsFollowChains | src/pydantic_ai_gepa/spend.py:282-464 | Recording, checking, projecting and observing at a node do to it and its ancestors what the chain functions say, and nothing to any other meter. |
| AdmissionTree.NoDeadlock | src/pydantic_ai_gepa/spend.py:498-549 | In every state reached from idle meters by nested admissions, reflections, cancellations and wake-ups, unless a notification on its way is itself cancelled, if a task sleeps then some task can move; when none is between awaits, a rollout admitted at every level of its chain or a reflection is running. |
| AdmissionTree.CancelledNotificationStrands | src/pydantic_ai_gepa/spend.py:579-585 | A concrete run in which one cancelled notification leaves a reflection asleep for good, with nothing running: the condition of the deadlock theorem is needed. |
| AdmissionTree.RunOrderly | src/pydantic_ai_gepa/spend.py:513-549 | Over every run, cancelled notifications included, a gate's counts are the rollouts that hold its slots, and a reflecting ledger is held by a reflection and by no rollout. |
| AdmissionTree.ReflectionsRunAlone | src/pydantic_ai_gepa/spend.py:551-585 | While a gate is reflecting it has no active rollout, and no rollout task holds a slot of it. |
| AdmissionTree.BarrierIsOutermost | src/pydantic_ai_gepa/spend.py:561-566 | The gate of a reflection is the outermost capped proper ancestor of its meter, and there is none exactly when no proper ancestor is capped. |
| AdmissionTree.NoRolloutBesideReflection | src/pydantic_ai_gepa/spend.py:551-585 | Over every run, while a reflection runs, the outermost capped proper ancestor of its own meter reflects, and no rollout runs at or below that ancestor, if its admission is enforced; with no capped ancestor a reflection passes no gate. |
| AdmissionTree.RunGood | src/pydantic_ai_gepa/spend.py:513-549 | Over every run that delivers its notifications, the same holds and every sleeper has someone who will wake it. |
| Fingerprints.RoundTrip | src/pydantic_ai_gepa/cache.py:277-313 | Parsing a fingerprint yields the canonical value and leaves nothing over. |
| Fingerprints.EqualPrints | src/pydantic_ai_gepa/cache.py:277-313 | Two fingerprints are equal exactly when the canonical values are. |
| Fingerprints.FingerprintsAgree | src/pydantic_ai_gepa/cache.py:277-313 | Over nested none, bool, int, str, list, tuple and dict values, two fingerprints are equal if and only if the values are equal up to dict order and up to combining surrogate pairs. |
| Fingerprints.FingerprintIsEquality | src/pydantic_ai_gepa/cache.py:277-313 | For values without surrogate pairs, fingerprints are equal if and only if the values are equal up to dict order. |
| Fingerprints.SurrogatesCollide | src/pydantic_ai_gepa/cache.py:295-296 | Two different strings, a surrogate pair and the character it encodes, have one fingerprint. |
| JsonText.StringRound | src/pydantic_ai_gepa/cache.py:295-296 | Reading an ASCII-escaped JSON string (section 7 of RFC 8259) gives the text with its surrogate pairs combined, and the rest of the input. |
| JsonText.EscapeCombined | src/pydantic_ai_gepa/cache.py:295-296 | Combining surrogate pairs does not change what is written. |
| JsonText.DecimalRound | src/pydantic_ai_gepa/cache.py:291-292 | A printed integer reads back, with the rest of the input. |
| Sorting.SortForgetsOrder | src/pydantic_ai_gepa/cache.py:302-308 | Sorting pairs of texts gives one result for every order of the input. |
| CacheKeys.GenerateCacheKey | src/pydantic_ai_gepa/cache.py:349-396 | The key is the hash of the joined parts, with gold and evaluators in metric keys only. |
| CacheKeys.AppendTail | src/pydantic_ai_gepa/cache.py:364-391 | The parts appended one by one are the shared tail of every key. |
| CacheKeys.GoldPosition | src/pydantic_ai_gepa/cache.py:349-362 | What stands before the gold's hash in a metric key depends on the metric identity only. |
| CacheKeys.GoldsNeverShareKeys | src/pydantic_ai_gepa/cache.py:351-396 | Under one metric identity, two calls share a metric key only if their golds are the same value (up to dict order and combined surrogates) or a hash collision is at hand. |
| CacheKeys.KeysDetermineCalls | src/pydantic_ai_gepa/cache.py:349-396 | Equal metric keys of calls whose texts hold no bar have the same metric identity, gold, evaluators, model, case name, inputs, metadata, history, output and candidate (a missing, empty and "None" error alike, a missing and an empty model alike), or a hash collision is at hand. |
| CacheKeys.RunKeysDetermineCalls | src/pydantic_ai_gepa/cache.py:364-396 | The same for agent-run keys. |
| CacheKeys.KindsApart | src/pydantic_ai_gepa/cache.py:349-349 | The text of a metric key is never that of an agent-run key. |
| CacheKeys.SeparatorsCollide | src/pydantic_ai_gepa/cache.py:393-396 | With a bar in a case name or the inputs, two different calls share a text, whatever else they hold. |
| PyLiterals.TripleQuotedReadsBack | src/pydantic_ai_gepa/string_symbols.py:513-520 | By the rules of section 2.4.1 of the Python Language Reference, the triple-quoted form evaluates to the text if and only if the text does not end in a run of three, six, nine ... quotes; otherwise it is not one literal. |
| PyLiterals.FallbackExactly | src/pydantic_ai_gepa/string_symbols.py:511-523 | For multi-line printable text the triple-quoted form is returned exactly when that run has no such length, and `repr` otherwise. |
| PyLiterals.FallbackIsTaken | src/pydantic_ai_gepa/string_symbols.py:518-523 | The shortest text for which the defensive fallback is taken: a newline and three quotes. |
| PyLiterals.LiteralReadsBack | src/pydantic_ai_gepa/string_symbols.py:511-523 | The literal of any text evaluates to that text, also after LF-to-CRLF rewriting and behind a `u` prefix. |
| PyLiterals.ReprReadsBack | src/pydantic_ai_gepa/string_symbols.py:523 | The `repr` form evaluates to the text and holds no carriage return. |
| StringSymbols.ReframeStrips | src/pydantic_ai_gepa/string_symbols.py:501-508 | Stripping a reframed stripped text gives the text. |
| StringSymbols.ReframeKeepsFraming | src/pydantic_ai_gepa/string_symbols.py:501-508 | However a base value is framed by whitespace, exactly what is framed is replaced by the text; a blank base stays in front of it. |
| StringSymbols.OutsidePieces | src/pydantic_ai_gepa/string_symbols.py:490-498 | The moving cursor cuts exactly the pieces outside the spans. |
| StringSymbols.Splice | src/pydantic_ai_gepa/string_symbols.py:217-219 | Splicing from right to left equals substituting all tokens at once between the outside pieces. |
| StringSymbols.ShiftedReads | src/pydantic_ai_gepa/string_symbols.py:217-219 | At the shifted spans the result has the tokens, and outside them the original pieces. |
| StringSymbols.PlanEdits | src/pydantic_ai_gepa/string_symbols.py:195-216 | Every constant gets its own replacement, or none, and the flag says whether there is any. |
| StringSymbols.RewriteFile | src/pydantic_ai_gepa/string_symbols.py:191-220 | The rewritten file is the substitution of all edits; it is marked changed exactly when there is an edit. |
| StringSymbols.ReplacementReads | src/pydantic_ai_gepa/string_symbols.py:205-216 | A replacement evaluates to a text that, stripped, is what the constant is expected to hold. |
| StringSymbols.ReplacementKeepsStyle | src/pydantic_ai_gepa/string_symbols.py:195-216 | A constant is rewritten exactly when its stripped text changes; the literal keeps the `u` prefix, and its newlines are CRLF exactly when the file has one. |
| StringSymbols.RewriteReadsBack | src/pydantic_ai_gepa/string_symbols.py:187-228 | After a rewrite the bytes between the shifted spans are the original outside pieces, and every constant reads back, stripped, as the candidate's text or as its stripped base value. |
| StringSymbols.NoEditKeepsFile | src/pydantic_ai_gepa/string_symbols.py:221-222 | Without an edit no byte changes. |
| Schemas.SetThenRead | src/pydantic_ai_gepa/tool_components.py:146-181 | Setting a description keeps every resolving path resolving and changes what is read at that path only. |
| Schemas.SetsCommute | src/pydantic_ai_gepa/tool_components.py:146-181 | Setting two different paths, parents and children included, commutes. |
| SchemaLens.YieldedResolves | src/pydantic_ai_gepa/tool_components.py:114-143 | With no property named "[]", every yielded path resolves to the description it is yielded with, which is not blank. |
| SchemaLens.YieldedExactly | src/pydantic_ai_gepa/tool_components.py:114-143 | A path is yielded with a text if and only if the node there has that text as its non-blank string description, where each step is a property of a dict of type "object", "[]" of one of type "array", or a last step onto a constant option of a named node. |
| SchemaLens.YieldedOnce | src/pydantic_ai_gepa/tool_components.py:114-143 | A path is yielded with one text only. |
| SchemaLens.SetThenIterate | src/pydantic_ai_gepa/tool_components.py:146-181 | Setting a non-blank text at a yielded path changes exactly that entry of the next iteration, in place. |
| ToolCatalog.IterateIsEntries | src/pydantic_ai_gepa/tool_components.py:114-143 | Building paths downwards yields the entries that putting steps in front on the way up gives. |
| ToolCatalog.ApplyThenRead | src/pydantic_ai_gepa/tool_components.py:430-440 | After all updates are applied, every path reads as the last text given for it, or as before. |
| ToolCatalog.UpdatesTradePlaces | src/pydantic_ai_gepa/tool_components.py:430-440 | Two neighbouring updates of different paths can trade places anywhere in the list. |
| ToolCatalog.ApplyCandidate | src/pydantic_ai_gepa/tool_components.py:427-443 | The loop over parameters applies the candidate's updates; unless it says so, nothing changed. |
| ToolCatalog.CatalogComplete | src/pydantic_ai_gepa/tool_components.py:216-219 | With ordinary names the catalog has every yielded path under its own key. |
| ToolCatalog.CatalogSound | src/pydantic_ai_gepa/tool_components.py:216-219 | The catalog has nothing but yielded paths. |
| ToolCatalog.CandidateLands | src/pydantic_ai_gepa/tool_components.py:411-447 | Applying a candidate through a tool's own catalog makes every yielded path read as the candidate's text for its key, or as its old text. |
| ToolCatalog.EveryDescriptionLands | src/pydantic_ai_gepa/tool_components.py:411-447 | With ordinary names, every described place of a schema is in the catalog under its own key, and after applying a candidate reads as the candidate's text for that key or as its old text. |
| PathKeys.FormatPath | src/pydantic_ai_gepa/tool_components.py:57-72 | The loop that extends the last segment in place prints the format of the path. |
| PathKeys.KeysInjective | src/pydantic_ai_gepa/tool_components.py:75-79 | For one tool and kind, paths whose names are non-empty and free of dots and "[]" have equal keys only if they are equal. |
| PathKeys.OptionKeysApart | src/pydantic_ai_gepa/tool_components.py:76-79 | With any names, an option's key is never a property's key. |
| PathKeys.DottedNamesCollide | src/pydantic_ai_gepa/tool_components.py:75-79 | A property "a.b" and a property "b" of "a" share a key. |
| Acceptance.WelchBounds | src/pydantic_ai_gepa/acceptance.py:205-209 | With positive terms the combined degrees of freedom lie between the smaller side's and the sum of both. |
| Acceptance.ComparedDegreesBounded | src/pydantic_ai_gepa/acceptance.py:205-224 | The degrees a comparison reports are one less than the paired cases, or lie between those of the smaller sample and those of both together. |
| Acceptance.UnpairedExactly | src/pydantic_ai_gepa/acceptance.py:192-256 | What an unpaired comparison reports: the difference of the means, the degrees by the Welch formula, the interval around it, and the verdict from where the interval lies and whether both sides have two samples. |
| Acceptance.PairedExactly | src/pydantic_ai_gepa/acceptance.py:211-256 | A paired comparison works on the differences case by case, needs two cases, reports one less degree, and is undecided on fewer than ten cases without spread. |
| Acceptance.UndecidedExactly | src/pydantic_ai_gepa/acceptance.py:161-180 | When paired evidence was asked for and cannot decide, and with which reason; the verdict is then inconclusive. |
| Acceptance.RefusedExactly | src/pydantic_ai_gepa/acceptance.py:159-190 | Which arguments are refused and with which error. |
| Acceptance.MeanIsAverage | src/pydantic_ai_gepa/acceptance.py:192-194 | The mean times the number of samples is their sum. |
| Acceptance.VarianceTimes | src/pydantic_ai_gepa/acceptance.py:195-196 | The variance times one less than the number of samples is the sum of the squared deviations from the mean. |
| Acceptance.MoreLooksMoreConfidence | src/pydantic_ai_gepa/acceptance.py:226 | More looks mean at least as much confidence per look. |
| Acceptance.FewerLooksStillAccept | src/pydantic_ai_gepa/acceptance.py:226-248 | For a quantile that grows with its probability, acceptance with more looks implies acceptance with fewer. |
| Acceptance.SwapExchanges | src/pydantic_ai_gepa/acceptance.py:236-254 | Swapping unpaired sides exchanges accepted and rejected and keeps the other verdicts if and only if both sides have two samples or the means differ by at most the threshold. |
| Acceptance.SingleSamplesDoNotSwap | src/pydantic_ai_gepa/acceptance.py:236-254 | One sample a side, 0 against 1: the swapped comparison is rejected, the straight one is not accepted. |
| Quantiles.Bisect | src/pydantic_ai_gepa/acceptance.py:71-76 | Fifty halvings keep the target bracketed and shrink the bracket by two to the power fifty. |
| Quantiles.Invert | src/pydantic_ai_gepa/acceptance.py:67-77 | For a non-increasing tail the doubling ends, and the result is within the first bracket over two to the power 51 of every crossing. |
| Quantiles.StudentTQuantile | src/pydantic_ai_gepa/acceptance.py:52-77 | Zero at one half, signed by symmetry elsewhere, and within that distance of every crossing of the tail. |
| Pareto.DominanceIsStrict | src/pydantic_ai_gepa/compose.py:1714-1731 | Dominance is irreflexive, asymmetric and transitive. |
| Pareto.SomeUnbeaten | src/pydantic_ai_gepa/compose.py:1704-1710 | Every nonempty field has a vote that no vote of it dominates. |
| Pareto.ParetoChoice | src/pydantic_ai_gepa/compose.py:1684-1711 | The winner is selectable and not dominated, and every other such vote has a lower mean, or the same mean and a higher index. |
| MatchedVotes.ChoiceExactly | src/pydantic_ai_gepa/compose.py:1581-1615 | On matched votes all frontier coordinate sets agree; with a selectable candidate the choice succeeds exactly when the mode's coordinates exist. |
| MatchedVotes.WinnerExactly | src/pydantic_ai_gepa/compose.py:1684-1762 | In terms of the evaluations: the winner is selectable on every sample, no such candidate is nowhere lower and somewhere higher on average over the coordinates of the mode, and every other candidate of which this is true has a lower mean score, or the same one and a later place. |
| MatchedVotes.VoteScoreIsCaseMean | src/pydantic_ai_gepa/compose.py:1604-1615 | If each sample's score is the mean of its case scores, so is the vote's mean score of its mean case scores. |
| MatchedVotes.InstanceIsArgmax | src/pydantic_ai_gepa/compose.py:1684-1711 | Then "instance" mode chooses the lowest-indexed highest mean, as plain argmax does. |
| MatchedVotes.KeyTextsApart | src/pydantic_ai_gepa/compose.py:1734-1762 | The coordinate texts of one mode are distinct; in cartesian mode, when no case id holds ":objective". |
| MatchedVotes.PairTextsCollide | src/pydantic_ai_gepa/compose.py:1756-1759 | Without that, two different pairs share a coordinate text. |
| FairVotes.EvaluateRound | src/pydantic_ai_gepa/compose.py:1432-1435 | One round gives every candidate one more sample in order and never exceeds the budget. |
| FairVotes.BaseRounds | src/pydantic_ai_gepa/compose.py:1431-1448 | The base rounds are all held, or the first interruption ends them; the budget suffices. |
| FairVotes.MatchedRounds | src/pydantic_ai_gepa/compose.py:1428-1518 | Whatever a look says, the decision rests on exactly the rounds at which a look stopped, the cap refused, or the maximum was reached; otherwise an interruption or a failed look is at hand. |
| FairVotes.SelectFairWinner | src/pydantic_ai_gepa/compose.py:1373-1542 | Argument errors in order; refusal before anything is spent; no votes after a refusal or an interruption; otherwise the decision, its votes, its rounds, its early-stop flag and its exact cost. |
| FairVotes.BaselineRounds | src/pydantic_ai_gepa/compose.py:1468-1516 | With a baseline a further round is held exactly after rounds whose comparison of the provisional winner with the baseline is inconclusive, while the cap and the maximum allow one; the provisional winner wins exactly when it is the baseline or is accepted. |
| FairVotes.TieRounds | src/pydantic_ai_gepa/compose.py:1468-1516 | Without a baseline a further round is held exactly after rounds that end in a tie, while the cap and the maximum allow one; the provisional winner wins. |
| FairVotes.LookFailsExactly | src/pydantic_ai_gepa/compose.py:1545-1615 | A look fails exactly when the samples do not match, the rule picks no selectable candidate, or the baseline is none. |
| FairVotes.MatchedSamples | src/pydantic_ai_gepa/compose.py:1428-1449 | A decision has one sample per completed round for every candidate, the same rounds for all, between `repetitions` and `max_repetitions`. |
| FairVotes.WinnerIsAccepted | src/pydantic_ai_gepa/compose.py:1517-1523 | A winner other than the baseline was accepted on all completed rounds, is selectable, and has a mean higher by more than the threshold. |
| FairVotes.WinnerIsPareto | src/pydantic_ai_gepa/compose.py:1545-1554 | Without a baseline the winner is the Pareto choice on all completed rounds. |
| FairVotes.AlphaSpent | src/pydantic_ai_gepa/compose.py:1460-1467 | All looks together spend at most 1 - confidence, and exactly that when the last possible round was reached. |
| FairVotes.AcceptanceIsStandard | src/pydantic_ai_gepa/compose.py:1572-1578 | Every comparison a look makes is at the confidence of one look of the plan. |
| FairVotes.OneOutcome | src/pydantic_ai_gepa/compose.py:1473-1511 | Evaluations and probes determine the decision; a decision excludes interruption and failure. |
| FairVotes.TiebreakExactly | src/pydantic_ai_gepa/compose.py:1676-1681 | Without a baseline another round is asked for exactly when two selectable means lie within the tie width of the best. |
| Incumbents.NeverFalls | src/pydantic_ai_gepa/compose.py:793-818 | Once the incumbent is selectable it stays so and its score never falls, under either adoption rule. |
| Incumbents.LatestMaximum | src/pydantic_ai_gepa/compose.py:801-818 | Adopting ties, the incumbent is the latest maximum of all selectable evaluations, the seed included. |
| Incumbents.NearBest | src/pydantic_ai_gepa/compose.py:1238-1249 | Adopting only clear gains, the incumbent is within the threshold of every selectable evaluation. |
| Incumbents.Stages | src/pydantic_ai_gepa/compose.py:749-821 | The stages that completed, the incumbent, what each engine was handed, the calls left and why the loop ended. |
| Incumbents.OptimizeSequential | src/pydantic_ai_gepa/compose.py:672-837 | Refuses bad arguments and unfunded seeds; otherwise that ending, with calls within the budget and comparisons within cases times (stages + 1). |
| Incumbents.SequentialEnds | src/pydantic_ai_gepa/compose.py:749-821 | Every sequential run ends on the latest maximum of its completed selectable evaluations, which is the seed or a stage with its own evaluation. |
| Incumbents.StagesExactly | src/pydantic_ai_gepa/compose.py:749-821 | Each completed stage was not stopped, had calls left and was funded before and after its engine; the next one failed one of these, and the report says which. |
| Incumbents.RemainingExactly | src/pydantic_ai_gepa/compose.py:738-760 | A stage costs what it used of the smaller of its size and what was left. |
| Incumbents.HandedIsItsOwn | src/pydantic_ai_gepa/compose.py:731-736 | An engine is handed the evaluation of exactly the candidate it starts from, or none when the seed's was interrupted. |
| AdaptiveRuns.Judge | src/pydantic_ai_gepa/compose.py:1247-1281 | Plateau rounds, calls and switches after a slice, and whether a due switch is no longer allowed. |
| AdaptiveRuns.RunSlice | src/pydantic_ai_gepa/compose.py:1196-1227 | Why a slice stops or what it evaluates to; calls used and charged stay within what was granted. |
| AdaptiveRuns.Slices | src/pydantic_ai_gepa/compose.py:1190-1286 | At most `slice_limit` slices and `max_switches` switches; every phase follows from the ones before it; the reason the loop ended. |
| AdaptiveRuns.OptimizeAdaptive | src/pydantic_ai_gepa/compose.py:1087-1304 | Refuses exactly the bad arguments, in order, and unfunded seeds; otherwise that ending. |
| AdaptiveRuns.AdaptiveEnds | src/pydantic_ai_gepa/compose.py:1190-1286 | Every adaptive run ends within the threshold of the best selectable score seen, hands out no more slices than its limit, the interrupted last one included, makes no more switches than its limit, with comparisons within cases times (slices + 1). |
| AdaptiveRuns.SwitchNeedsPlateau | src/pydantic_ai_gepa/compose.py:1254-1262 | An engine's turn ends only when its slice spent nothing or after `patience` slices in a row without an improvement. |
| AdaptiveRuns.OneTurn | src/pydantic_ai_gepa/compose.py:1201 | Between two plateaus one engine runs. |
| AdaptiveRuns.PhaseExactly | src/pydantic_ai_gepa/compose.py:1200-1241 | A slice runs on the engine whose turn it is, with the smaller of its size and the calls left, and improves exactly on a score clearly above the incumbent's. |
| AdaptiveRuns.PlateauExactly | src/pydantic_ai_gepa/compose.py:1247-1262 | It ends its turn exactly when it spends nothing, or when the last `patience` slices of the turn did not improve and the turn spent its minimum. |
| AdaptiveRuns.SliceExactly | src/pydantic_ai_gepa/compose.py:1190-1227 | Every slice was within the limit, not stopped, funded before and after its engine, granted at least the minimum, and follows from the slices before it. |
| AdaptiveRuns.EndingExactly | src/pydantic_ai_gepa/compose.py:1190-1286 | Why a run ended, from what was left and what was probed. |
| AdaptiveRuns.SliceLimitExactly | src/pydantic_ai_gepa/compose.py:1136-1138 | The default limit is the number of smallest slices that the calls pay for, at least one. |
| AdaptiveRuns.RefusedExactly | src/pydantic_ai_gepa/compose.py:1121-1144 | Which arguments are refused, in order, with the comparison calls that are required. |
| EventNames.EventNamesDiffer | src/pydantic_ai_gepa/cli/events.py:428 | Event names are equal exactly when timestamp, producer and sequence number are. |
| EventNames.EarlierSortsFirst | src/pydantic_ai_gepa/cli/events.py:93-100 | With times of at most 13 digits an event of an earlier time sorts first, whatever the producers and numbers. |
| EventNames.SequenceOrder | src/pydantic_ai_gepa/cli/events.py:93-100 | For one producer and time, the lower sequence number sorts first if and only if it is at most the higher one without its extra digits; below a million always (`SequencesSort`). |
| EventNames.SequenceOverflows | src/pydantic_ai_gepa/cli/events.py:93-100 | Number 1000000 sorts before number 999999 of the same producer and time. |
| EventNames.ReaperKeysDiffer | src/pydantic_ai_gepa/cli/events.py:614-640 | Sentinel names are equal exactly for the same lane and epoch, or the same iteration. |
| EmitRuns.IdsNeverShared | src/pydantic_ai_gepa/cli/events.py:426-453 | Whatever threads, processes, write errors and crashes do, no two emits return one id. |
| EmitRuns.CollisionsBounded | src/pydantic_ai_gepa/cli/events.py:343-365 | At any time an emit has collided at most once per file with its timestamp and producer, so its retries end. |
| EmitRuns.EmitReturns | src/pydantic_ai_gepa/cli/events.py:426-453 | After any run an emit that is left to itself returns a new file of its own, with at most one try more than there are files with its timestamp and producer. |
| EmitRuns.FailedNumberReturns | src/pydantic_ai_gepa/cli/events.py:353-358 | A number whose write failed is handed out again exactly when no later one was taken meanwhile. |
| EventBuses.EventBus.Publish | src/pydantic_ai_gepa/cli/events.py:439 | Creation is exclusive: it succeeds exactly for a new name. |
| EventBuses.EventBus.NextEvent | src/pydantic_ai_gepa/cli/events.py:456-470 | The oldest readable event above the cursor, or none exactly when there is none. |
| EventBuses.EventBus.Ack | src/pydantic_ai_gepa/cli/events.py:473-503 | Advances to the oldest unacked event, is a no-op at or below the cursor, and otherwise is rejected with its reason, changing nothing. |
| EventBuses.NothingIsSkipped | src/pydantic_ai_gepa/cli/events.py:456-503 | If every event is created above the cursor, then in every run of creations, acks, repeated acks and lost cursors each readable event at or below the cursor was acked, and acks increase until the cursor is lost. |
| EventBuses.AckTwice | src/pydantic_ai_gepa/cli/events.py:480-490 | Acking an acked event again changes nothing and is not an error. |
| EventBuses.AckAdvancesExactly | src/pydantic_ai_gepa/cli/events.py:491-503 | A pending event can be acked if and only if no other pending event sorts before it. |
| EventBuses.PendingExactly | src/pydantic_ai_gepa/cli/events.py:456-503 | A new readable event above the cursor joins what is pending, an accepted ack removes exactly the acked event, and a lost cursor brings back every readable event. |
| EventBuses.LateEventsAreNotDelivered | src/pydantic_ai_gepa/cli/events.py:464-466 | An event created at or below the cursor is never delivered until the cursor is lost. |
| Reaper.EmittedOnce | src/pydantic_ai_gepa/cli/events.py:588-655 | Any interleaving of reaper passes, crashes included, emits at most one event per lane and epoch and at most one per iteration. |
| Reaper.ClaimedOnce | src/pydantic_ai_gepa/cli/events.py:557-585 | Each sentinel stands for exactly one signal: emitted, held by a live pass, or lost with a pass that died. |
| Reaper.PassFinishes | src/pydantic_ai_gepa/cli/events.py:557-655 | A pass that no other disturbs emits, in order, the first signal for every key that has no sentinel, and leaves a sentinel for every key. |
| DriverRuns.FailedStepsCountOnce | src/pydantic_ai_gepa/cli/drive.py:393-405 | Whatever crashes, pauses and restarts happen, the attempts of a key equal the number of distinct steps that failed for it since its last reset. |
| DriverRuns.LimitedStepsAdvanceOnce | src/pydantic_ai_gepa/cli/drive.py:612-624 | The reflector index equals the number of distinct usage-limited steps since its last reset. |
| DriverRuns.ResumedAtMostOnce | src/pydantic_ai_gepa/cli/drive.py:625-633 | A usage-limited step resumes the reflector at most once. |
| DriverRuns.PausesAtCap | src/pydantic_ai_gepa/cli/drive.py:404-405 | After a failure the driver pauses for its attempts exactly when as many distinct steps failed as the cap allows; otherwise it is ready to retry with the step forgotten. |
| DriverRuns.PausesAtLastReflector | src/pydantic_ai_gepa/cli/drive.py:612-636 | After a usage limit the driver pauses exactly when as many distinct steps were limited as there are reflectors; otherwise the reflector is resumed, if its epoch has not moved on, and the step is retried. |
| DriverRuns.OutcomeIsCounted | src/pydantic_ai_gepa/cli/drive.py:393-405 | In every reachable state an outcome adds its step once: nothing and a clean lane for a nomination, one more limited step for a usage limit, one more failed step otherwise. |
| DriverRuns.RestartsExactly | src/pydantic_ai_gepa/cli/drive.py:292-340 | When a stopped driver comes back and what it forgets: reflectors used when their list changed or ran out, attempts when they ran out, and the step at hand with either. |
| DriverRuns.NominationFinishesEvent | src/pydantic_ai_gepa/cli/drive.py:375-381 | A step that leads to a nomination ends with its event recorded, acked and cleared, unless the bus rejects the ack; then the driver stops with the event. |
| DriverRuns.ScoringFinishesEvent | src/pydantic_ai_gepa/cli/drive.py:658-700 | Scoring ends an event in the same way, and its start and end are saved on the way. |
| DriverRuns.AckedOnlyWhenRecorded | src/pydantic_ai_gepa/cli/drive.py:375-381 | The cursor moves only after phase "recorded" was saved, and only to the driver's event. |
| DriverRuns.EventsAreFinished | src/pydantic_ai_gepa/cli/drive.py:375-381 | Each received event is acked before the next is received, and the driver never acts on one that was acked. |
| DriverRuns.RepeatedAckIsHarmless | src/pydantic_ai_gepa/cli/drive.py:697-699 | After a crash between an ack and the following save, acking again is a no-op. |
| DriverRuns.OvertakenForever | src/pydantic_ai_gepa/cli/drive.py:375-381 | If an event that sorts before the received one appears before its ack, the ack is rejected and no restart ever gets past it. |
| DriverRuns.DriverCanBeOvertaken | src/pydantic_ai_gepa/cli/drive.py:697-699 | Such a state is reachable. |
| ProviderErrors.IsStop | src/pydantic_ai_gepa/provider_errors.py:72-91 | Ends on every finite graph, cyclic or not, and leaves the shared set and the answer that the search function gives. |
| ProviderErrors.IsProviderStopError | src/pydantic_ai_gepa/provider_errors.py:61-69 | The answer of that search from an empty set. |
| StopReasons.StopIsJustified | src/pydantic_ai_gepa/provider_errors.py:72-91 | A positive answer is derivable in the least fixpoint of "stops by itself, by all members of its group, or by its cause". |
| StopReasons.StopsAloneIff | src/pydantic_ai_gepa/provider_errors.py:12-25 | An exception stops by itself exactly when it says so, or is an HTTP error with status 401 or 403 or with one of the five billing codes anywhere in its body. |
| StopReasons.LinksInOrder | src/pydantic_ai_gepa/provider_errors.py:51-58 | An exception that is no group stops exactly when it stops by itself or its cause does, or, without a cause, its context. |
| StopReasons.ExactWhenStopsAreUnshared | src/pydantic_ai_gepa/provider_errors.py:72-91 | When no exception that stops is shared, except by links back to one still open, the answer is exactly that fixpoint; exceptions that do not stop may be shared freely. |
| StopReasons.ExactWithoutSharing | src/pydantic_ai_gepa/provider_errors.py:72-91 | When every link goes to an exception of its own or back to one still open, the answer is exactly that fixpoint. |
| StopReasons.SharedFailureIsShared | src/pydantic_ai_gepa/provider_errors.py:73-74 | Two failures with one shared ordinary cause fall outside the condition that nothing is shared, |
| StopReasons.SharedFailureCostsNothing | src/pydantic_ai_gepa/provider_errors.py:73-74 | and inside the condition that nothing which stops is shared. |
| StopReasons.SharingLosesAStop | src/pydantic_ai_gepa/provider_errors.py:73-74 | A group of two failures with one shared cause stops by the fixpoint, but the search says no. |

## Left out

- AdmissionTree.NoDeadlock: asks that no notification on its way is cancelled, which the program accepts because its run is then being torn down; every other cancellation is covered.
- Exploration.ComparisonFits: the follow-up probe can fail although the reserve held, when a rollout of the other kind stopped the capped ledger; the lemma states the exact condition.
- RolloutRuns.DocumentedBound: the docstring's "in flight at the stop" omits rollouts that settled above their reservation; the lemma states exactly when that wording is enough.
- Fingerprints.FingerprintsAgree: floats, and the type-tagged fallback for other objects, are not values of the model.
- CacheKeys.GoldsNeverShareKeys: no hash of fixed length is injective, so the conclusion names the collision; evaluators, inputs and the other serialized parts are opaque texts.
- CacheKeys.KeysDetermineCalls: asks that no serialized text holds the separator, because the program does not escape it; `SeparatorsCollide` shows what happens otherwise.
- PyLiterals.LiteralReadsBack: the lexer reads the escapes that the printer writes; octal and `\N{...}` escapes and bytes literals are not read.
- SpendMeters.SpendMeter.constructor: the callable reserve is a parameter of the methods that consult it, one number per ledger of the chain, so the error for a reserve without a cap does not arise.
- MatchedVotes.KeyTextsApart: the Pareto choice itself works on structured coordinates, so two cartesian pairs that share a text are two coordinates in the model.
- MatchedVotes.InstanceIsArgmax: asks that scores are case means, which needs distinct case ids.
- AdaptiveRuns.OptimizeAdaptive: the best result is named by its slice; the program looks it up by equality of results.
- EmitRuns.CollisionsBounded: an emit under a private dataset scans the directory instead of sharing a counter; it is a process of its own in the model.
- Quantiles.Invert: the tail is any non-increasing function and the normal limit a parameter; the incomplete beta function, its continued fraction and rounding are left out.
- StopReasons.ExactWhenStopsAreUnshared: only this direction; when an exception that stops is shared, the answer depends on the order of the links.
- Spending: the breakdown by model, price lookup, thread locks and context variables; a nested agent run that shares an outer reservation is no step at all. Dollars are reals.
- Schemas: descriptions are set in place in the program and on values here, so aliasing of shared sub-schemas and the deep copy are not captured; a tool's own description is a single assignment and is left out.
- String constants: finding spans with the parser, the masked syntax tree, comments, git and encodings; a file is gaps and tokens with spans, in characters.
- Comparisons: cases are matched by a number per evaluation; non-finite scores and their error are left out, scores are reals.
- Composition: engines, lanes, the seed evaluation views and the remaining helpers; engine runs are arbitrary results and never use more than they are granted.
- Events: payload validation, the command line and waiting; reading an event file is one flag.
- Driver: process guarding, leases, prompts and scoring are single steps with arbitrary outcomes; a nomination is not withdrawn before it is scored.
- Provider errors: the text patterns for saved messages, and Unicode lowercasing of bodies.
