# StellarTrace: a Dafny model of the triage core

StellarTrace takes in Stellar transactions, runs ten deterministic rules over each one and the recent
history of its account, scores the triggers, files alerts, lets an advisory model comment on them and
lets investigators, and nobody else, change their status. Everything that happens to an alert goes into
a hash-chained audit log. This project models that core and proves what the service promises about it:
over every request sequence, and over every interleaving of concurrent requests.

`dafny verify dfyconfig.toml` checks all of it.

| module | follows | subject |
|---|---|---|
| `Common`, `Sorting` | `crates/common` | domain types, filtering, stable sorting |
| `Audit`, `ChainTheorems` | `crates/audit` | the log as a class, and what its hash chain does and does not detect |
| `Sanitizer`, `Folding`, `Advisor`, `AdvisorTheorems` | `crates/ai_advisor` | tag stripping, marker replacement as it is meant and as it is done on byte positions, the recommendation that leaves the service |
| `Scoring`, `ScoreTheorems`, `Bands` | `crates/scoring` | the rank-discounted score and its severity bands |
| `Rules`, `RuleMeaning`, `Engine`, `ShippedRules`, `RuleTheorems`, `Bounds` | `crates/rules_engine` | the ten rules, the engine and what it reports under each id, bounded histories, rules composed with scoring |
| `History`, `Alerts`, `Service` | `crates/api`, `crates/alerts` | state as classes; each handler proved equal to one transition of a pure machine |
| `Runs`, `NonInterference`, `Outcomes`, `ShippedService`, `Persistence` | the same | whole runs of that machine, what each request leaves behind, snapshots and restarts |
| `Interleaving`, `InterleavingTheorems`, `EventConservation`, `Linearization`, `InterleavedAdvice` | the same | a second machine with one transition per lock region, and how it relates to the first |
| `Pipeline` | `crates/ingestion` | retry with backoff, in-order delivery |

## How the two machines fit together

In `Service`, a request is one transition of a `World` that holds alerts, log, flagged accounts,
histories, transactions and recommendations. Fresh ids, clock readings and the model's answer are part
of the request. The assessment (rules and scoring) and the advisory layer are parameters, so the theorems
about runs hold for every rule set and every sanitizer; `ShippedService` puts the shipped ones in. The imperative classes
(`AuditLog`, `AlertManager`, `AppState`) are proved to do exactly what the transitions say.

In `Interleaving`, a request takes one step per lock it acquires. Between its write to the alerts and
its appends to the log, other requests run, so the log's order may differ from the order of status
writes. What holds in every state is a conservation law over logged and pending status changes. Once no
call is in flight, alerts, flags and log entries are those of the first machine handling the same requests
in the order of their first lock regions (`Linearizes`).

The hash is an arbitrary function of a record's content with results of 64 characters. Theorems about
tampering say: either the claim holds, or two records at hand have one digest for two contents. The
genesis value is 94 characters long (crates/audit/src/lib.rs:70), so it is never a digest.

Lower-casing is any function from a character to a text that folds ASCII letters and leaves other ASCII
characters alone. For the exact set of safe letters it is also taken to yield one to three characters, and
where it yields several, more bytes than the one had.

`1/sqrt(k)` is any function `r` with `r(k) > 0` and `r(k)*r(k)*k == 1`.

## Where the code and its documentation differ

The model follows the code. Each of these is a theorem.

- `crates/audit/src/lib.rs:10-13` and `docs/audit-model.md` say that removing any record is detected.
  Removing any but the last is (`InteriorDeletionDetected`); removing the last never is
  (`LastDeletionUndetected`).
- `docs/ai-boundary.md:17` says that the fallback recommendation is sanitized. It is not: it is presentable
  exactly when its own texts and the reasons it repeats are clean (`FallbackPresentableIff`), and a reason
  quotes account names (`AccountNameReachesReader`).
- `docs/ai-boundary.md:17-23` and `crates/ai_advisor/src/sanitize.rs:8-14` say that every text is neutralized.
  A marker's byte position in the lower-cased text is used to cut the text itself (`sanitize.rs:65-69`), so a
  letter whose lower case takes another number of bytes can let a marker through (`DottedCapitalLeaks`) or
  make the slicing panic (`ChangedWidthPanics`). Every text over an alphabet comes out clean exactly when
  each of its letters keeps its width (`ShippedSafeLettersIff`).
- `docs/audit-model.md:18` says that the log tells what happened to an alert in order. Under concurrent
  decisions it need not (`OvertakingMisleads`); the last logged change names the status exactly when the
  logged changes balance there (`LastChangeTellsStatusIff`).
- The first retry delay is not capped by the maximum (`DelaysCappedIff`).
- The scoring comment speaks of ten Low triggers not outranking a Critical one; the exact number is
  forty-four (`LowsBelowCriticalIff`).
- `crates/ingestion/src/pipeline.rs:4-10` speaks of a dead-letter buffer for exhausted batches. No code
  adds to it.

Two further results concern limits that the documentation admits to: a snapshot's two files need not belong
together (`SnapshotConsistentIff`, `DecisionBetweenReadsTears`), and a restart forgets the flagged accounts
(`RestartForgetsFlags`, `RestartSilencesFlaggedRule`).

## Model

| member | source | states |
|---|---|---|
| Audit.AuditLog.Append | crates/audit/src/lib.rs:106-142 | a record is added at the end that names the digest before it and carries its own; nothing recorded changes |
| Audit.AuditLog.Restore | crates/audit/src/lib.rs:163-165 | the log is what was saved |
| Audit.AuditLog.VerifyIntegrity | crates/audit/src/lib.rs:171-193 | accepts exactly the logs in which every record is linked and sealed; otherwise names the least bad index and whether the link or the seal is wrong there |
| Audit.AppendKeepsChain | crates/audit/src/lib.rs:106-142 | appending keeps every accepted log accepted and every earlier record in place |
| ChainTheorems.PrefixAccepted | crates/audit/src/lib.rs:171-193 | every prefix of an accepted log is accepted |
| ChainTheorems.HeadFixesLog | crates/audit/src/lib.rs:72-88 | two accepted logs with the same last digest agree in length and every record, or exhibit a collision |
| ChainTheorems.DigestsDistinct | crates/audit/src/lib.rs:171-193 | no digest occurs twice in an accepted log, or there is a collision |
| ChainTheorems.OnlyPrefixesAccepted | crates/audit/src/lib.rs:167-193 | a log made of records of an accepted one, reordered, repeated or dropped in any way, is accepted if and only if it is a prefix |
| ChainTheorems.InteriorDeletionDetected | crates/audit/src/lib.rs:10-13 | removing any record but the last is detected |
| ChainTheorems.LastDeletionUndetected | crates/audit/src/lib.rs:10-13 | removing the last record is never detected |
| ChainTheorems.RewriteChangesHead | crates/audit/src/lib.rs:10-18 | an accepted rewrite that differs anywhere ends in another digest |
| Sanitizer.InTag | crates/ai_advisor/src/sanitize.rs:43-50 | the automaton is inside a tag if and only if the nearest preceding bracket is an opening one |
| Sanitizer.StripMarkup | crates/ai_advisor/src/sanitize.rs:41-53 | the output is what stands, in order, at exactly the positions that hold no bracket and are not inside a tag |
| Sanitizer.StrippedBracketFree | crates/ai_advisor/src/sanitize.rs:41-53 | no angle bracket is left |
| Sanitizer.StrippedIdentity | crates/ai_advisor/src/sanitize.rs:41-53 | text without brackets is unchanged |
| Sanitizer.FindIsLeftmost | crates/ai_advisor/src/sanitize.rs:64-66 | the search yields the leftmost case-insensitive match, or nothing if and only if there is none |
| Sanitizer.OccursIgnoringCase | crates/ai_advisor/src/sanitize.rs:56-65 | a lower-case marker matches exactly where the text reads the same but for the case of ASCII letters |
| Folding.RunPass | crates/ai_advisor/src/sanitize.rs:62-75 | the loop of one pass: it looks the marker up in the lower-cased rest, cuts the rest itself at that byte position, and panics where that is no character boundary or past the end |
| Folding.NeutralizeActionLanguage | crates/ai_advisor/src/sanitize.rs:55-79 | one such pass per marker that the lower-cased original contains |
| Folding.SteadyPass | crates/ai_advisor/src/sanitize.rs:62-75 | if every character keeps its width in lower case, a pass never panics and cuts out exactly the leftmost matches |
| Folding.SteadyNeutralize | crates/ai_advisor/src/sanitize.rs:55-79 | then all passes together do what they are meant to |
| Folding.QuietTextUntouched | crates/ai_advisor/src/sanitize.rs:55-79 | text of any characters whose lower case contains no marker is left alone |
| Sanitizer.MatchAvoidsReplacement | crates/ai_advisor/src/sanitize.rs:62-75 | letters compared by ASCII case, no marker can overlap a replacement text, on either side or across it |
| Sanitizer.PassRemovesAndMakesNone | crates/ai_advisor/src/sanitize.rs:62-75 | a pass as it is meant leaves no match of its own marker and creates none of any other |
| Sanitizer.NeutralizedHasNone | crates/ai_advisor/src/sanitize.rs:55-79 | after all passes as they are meant no marker occurs in any ASCII case |
| Sanitizer.MarkerFreeUnchanged | crates/ai_advisor/src/sanitize.rs:55-79 | as they are meant, the passes leave text without markers unchanged |
| Sanitizer.PassFactors | crates/ai_advisor/src/sanitize.rs:62-75 | a pass as it is meant cuts its input at the leftmost non-overlapping matches, replaces those and keeps the rest |
| Advisor.ComputeCleanField | crates/ai_advisor/src/sanitize.rs:81-85 | stripping, neutralizing and cutting to 4000 in that order, unless neutralizing panics |
| Advisor.CleanFieldIsClean | crates/ai_advisor/src/sanitize.rs:41-85 | if every character of the input keeps its width in lower case: no panic, and no marker in any case even across cuts, no bracket and at most 4000 characters go out |
| Advisor.CleanFieldFixesCleanText | crates/ai_advisor/src/sanitize.rs:81-85 | among such inputs cleaning leaves alone exactly the clean ones |
| Advisor.InnocentTextOnlyCut | crates/ai_advisor/src/sanitize.rs:81-85 | text of any characters, without brackets and with no marker in lower case, is only cut to length |
| Advisor.CleanListFixesCleanTexts | crates/ai_advisor/src/sanitize.rs:93-110 | a cleaned list of such texts is at most 20 clean texts, and lists that are so already are unchanged |
| Advisor.SanitizedIsPresentable | crates/ai_advisor/src/sanitize.rs:89-113 | a recommendation whose characters keep their width comes out clean in every field, with the canonical label and a confidence in 0..1; sanitizing leaves alone exactly those, hence is idempotent |
| Advisor.ClampIsNearest | crates/ai_advisor/src/sanitize.rs:109-113 | a finite confidence becomes the nearest one in 0..1, any other becomes 0 |
| Advisor.Draft.SanitizeRecommendation | crates/ai_advisor/src/sanitize.rs:89-113 | the field-by-field update in place yields that recommendation, and fails exactly when sanitizing a text panics |
| Advisor.ModelAnswerPresentable | crates/ai_advisor/src/lib.rs:98-114 | every answer of the model whose characters keep their width is presentable when it leaves the service |
| AdvisorTheorems.SafeLettersIff | crates/ai_advisor/src/sanitize.rs:55-85 | for any policy whose last marker is a single word: all fields over ASCII and an alphabet come out clean if and only if each letter of the alphabet keeps its width |
| AdvisorTheorems.ShippedSafeLettersIff | crates/ai_advisor/src/sanitize.rs:26-85 | the same for the twelve shipped markers |
| AdvisorTheorems.NoPhraseComesOut | crates/ai_advisor/src/sanitize.rs:26-39 | none of the twelve phrases, each written out, comes out of the shipped sanitizer in any letter case, if the input's characters keep their width |
| AdvisorTheorems.LabelOverwritten | crates/common/src/lib.rs:129-131 | whatever the model calls its answer, and whatever its characters, it leaves with the advisory label |
| AdvisorTheorems.ChangedWidthPanics | crates/ai_advisor/src/sanitize.rs:64-69 | one character of another width before a marker makes the pass panic |
| AdvisorTheorems.GrowingLetterLeaks | crates/ai_advisor/src/sanitize.rs:64-69 | any letter that grows by one byte, repeated before a marker, lets the marker through |
| AdvisorTheorems.DottedCapitalLeaks | crates/ai_advisor/src/sanitize.rs:26-85 | thirteen capital dotted I let "automatically" through the shipped sanitizer |
| AdvisorTheorems.FallbackPresentableIff | crates/ai_advisor/src/lib.rs:57-79 | the fallback is presentable if and only if its fixed texts and the reasons are clean |
| AdvisorTheorems.FallbackCarriesMarker | crates/ai_advisor/src/lib.rs:57-79 | a marker anywhere in any reason comes out in the fallback |
| AdvisorTheorems.AccountNameReachesReader | crates/rules_engine/src/rules.rs:153-159 | so a marker in an account name comes out through the frequency rule's reason |
| AdvisorTheorems.AutomaticallyReachesReader | crates/rules_engine/src/rules.rs:153-159 | with the shipped markers the account name "automatically" is one |
| Scoring.SortingIsBest | crates/scoring/src/lib.rs:48-59 | no arrangement of the weights has a larger discounted sum than the descending one |
| Scoring.RawIsMaximum | crates/scoring/src/lib.rs:48-59 | the raw score is the maximum over all arrangements, and is attained |
| Scoring.RawSubadditive | crates/scoring/src/lib.rs:40-59 | together two lists of triggers have at most the sum of their raw scores |
| Scoring.MergedIsLess | crates/scoring/src/lib.rs:40-59 | in a merged ranking no trigger counts for more than in its own |
| Scoring.RawAtLeastAny | crates/scoring/src/lib.rs:55-59 | the raw score is at least the weight of any one trigger |
| ScoreTheorems.ScoreIsBestArrangement | crates/scoring/src/lib.rs:44-65 | the score is the capped maximum over all orders of the triggers, the same for all of them, and in 0..100 |
| ScoreTheorems.TriggerNeverLowers | crates/scoring/src/lib.rs:44-65 | a further trigger never lowers the score |
| ScoreTheorems.SeverityNeverLowers | crates/scoring/src/lib.rs:44-65 | a trigger that becomes more severe never lowers it |
| ScoreTheorems.BandNeverLowers | crates/scoring/src/lib.rs:44-78 | neither lowers the alert's severity band |
| ScoreTheorems.ScoreSubadditive | crates/scoring/src/lib.rs:40-65 | after the cap too, a combined list scores at most what its parts score |
| ScoreTheorems.ScoreAtLeastAnyTrigger | crates/scoring/src/lib.rs:44-65 | any one trigger puts a floor under the score |
| ScoreTheorems.IncrementsShrink | crates/scoring/src/lib.rs:40-43 | equal triggers give strictly shrinking increments |
| ScoreTheorems.RootSumAtMost | crates/scoring/src/lib.rs:55-59 | the sum of 1/sqrt(k) to n is at most 1 + sqrt(4n+2) - sqrt(6) |
| ScoreTheorems.RootSumAtLeast | crates/scoring/src/lib.rs:55-59 | and at least what the trapezoid rule gives |
| ScoreTheorems.LowsBelowCriticalIff | crates/scoring/src/lib.rs:20-65 | with default weights, n Low triggers score below one Critical if and only if n is at most 44 |
| ScoreTheorems.LoneTriggerBand | crates/scoring/src/lib.rs:20-78 | with default weights a lone trigger makes a Low alert, a lone Critical one a Medium alert |
| Bands.LoneTriggerBandIs | crates/scoring/src/lib.rs:44-78 | under any weights a lone trigger makes a Critical alert exactly from 9/4 of the Critical weight, a High one from 27/20, a Medium one from 3/5 |
| Bands.CutAtTwenty | crates/scoring/src/lib.rs:20-78 | three Medium triggers score just below 20 and make a Low alert, a Low one more makes it Medium |
| Bands.CutAtFortyFive | crates/scoring/src/lib.rs:20-78 | a Critical and two Medium triggers score just below 45 and make a Medium alert, a Critical and a High just above and a High one |
| Bands.CriticalWithTwoHighs | crates/scoring/src/lib.rs:20-78 | a Critical and two High triggers score between 54.7 and 54.8 and make a High alert |
| Bands.BelowSeventyFive | crates/scoring/src/lib.rs:20-78 | two Critical and two High triggers score just below 75 and make a High alert |
| Bands.AboveSeventyFive | crates/scoring/src/lib.rs:20-78 | two Critical, a High, two Medium and a Low one score just above 75 and make a Critical alert |
| Rules.CheckThresholds | crates/rules_engine/src/rules.rs:292-311 | the early-return loop finds an exceeded threshold if and only if there is one, in any traversal order |
| RuleMeaning.WindowIs | crates/rules_engine/src/context.rs:37-48 | a window of w seconds holds exactly the transactions not after the instant and less than w + 1 seconds before it |
| RuleMeaning.FrequencyFiresIff | crates/rules_engine/src/rules.rs:135-163 | fires at Medium if and only if the threshold is met by the positions in the window and the transaction itself |
| RuleMeaning.RepeatedFiresIff | crates/rules_engine/src/rules.rs:84-116 | the same, counting only payments to the same destination |
| RuleMeaning.UnusualFiresIff | crates/rules_engine/src/rules.rs:233-272 | fires if and only if n payments in the asset, enough of them and positive in sum, are outweighed by the multiplier |
| RuleMeaning.DormantFiresIff | crates/rules_engine/src/rules.rs:330-366 | fires if and only if the amount suffices, something was sent before and all of it long enough ago |
| RuleMeaning.RoundTripFiresIff | crates/rules_engine/src/rules.rs:386-416 | fires if and only if some earlier position in the window is a return leg |
| RuleMeaning.NewAccountFiresIff | crates/rules_engine/src/rules.rs:435-470 | fires if and only if a large enough payment has few enough earlier ones |
| RuleMeaning.CrossAssetFiresIff | crates/rules_engine/src/rules.rs:489-520 | fires if and only if some set of assets as large as the threshold was touched within the window |
| Engine.RulesEngine.EvaluateAll | crates/rules_engine/src/lib.rs:63-87 | the loop reports, sorted by id, exactly the ids and severities of the rules that fired |
| Engine.RulesEngine.Register | crates/rules_engine/src/lib.rs:56-58 | the rule comes last |
| Engine.FiredOnce | crates/rules_engine/src/lib.rs:63-87 | with distinct ids, a trigger fires once and its id tells it |
| Engine.EngineDeterministic | crates/rules_engine/src/lib.rs:59-87 | the output is strictly sorted by id and the same for every order of registration |
| Engine.DefaultIdsDistinct | crates/rules_engine/src/rules.rs:11-24 | the ten shipped rules have distinct ids |
| Engine.PrecedesIff | crates/rules_engine/src/lib.rs:85 | the order of ids is that of dictionaries |
| ShippedRules.LargeTransferReported | crates/rules_engine/src/rules.rs:41-56 | large_transfer is in the engine's output exactly above the threshold, Critical exactly if also above ten times it, else High |
| ShippedRules.RepeatedTransactionReported | crates/rules_engine/src/rules.rs:84-116 | repeated_transaction, at Medium, exactly when the positions in the window with the same destination and the payment itself meet the threshold |
| ShippedRules.AbnormalFrequencyReported | crates/rules_engine/src/rules.rs:135-163 | abnormal_frequency, at Medium, exactly when the positions in the window and the payment itself meet the threshold |
| ShippedRules.FlaggedAccountReported | crates/rules_engine/src/rules.rs:183-213 | flagged_account_interaction, at High, exactly when a flagged account is the source or the destination |
| ShippedRules.UnusualMovementReported | crates/rules_engine/src/rules.rs:233-272 | unusual_asset_movement, at Medium, exactly when enough earlier payments in the asset, positive in sum, are outweighed by the multiplier |
| ShippedRules.ConfigurableThresholdReported | crates/rules_engine/src/rules.rs:292-311 | configurable_threshold, at Low, is absent exactly when no configured limit is below the amount |
| ShippedRules.DormantReported | crates/rules_engine/src/rules.rs:330-366 | dormant_account_reactivation, at High, exactly when the amount suffices, something was sent before and all of it at least the gap ago |
| ShippedRules.RoundTripReported | crates/rules_engine/src/rules.rs:386-416 | round_trip_wash_trading, at High, exactly when an earlier payment in the window goes from the destination back to the source |
| ShippedRules.NewAccountReported | crates/rules_engine/src/rules.rs:435-470 | new_account_high_value_outflow, at Medium, exactly when a large enough payment with a destination has few enough earlier ones |
| ShippedRules.CrossAssetReported | crates/rules_engine/src/rules.rs:489-520 | cross_asset_rapid_conversion, at Medium, exactly when some set of assets as large as the threshold was moved within the window |
| RuleTheorems.RuleIgnoresOrder | crates/rules_engine/src/rules.rs:72-523 | no shipped rule depends on the order of the history |
| RuleTheorems.EvaluationIgnoresHistoryOrder | crates/rules_engine/src/lib.rs:63-87 | neither does the engine's output |
| RuleTheorems.BoundedWindowCount | crates/rules_engine/src/context.rs:37-48 | with in-order ingestion, counting in the last n is exact up to n |
| RuleTheorems.FrequencyUnaffectedIff | crates/rules_engine/src/rules.rs:135-138 | the frequency rule's verdict on the last n is that on the full history exactly when the threshold is at most n + 1 or not reached by the full history either |
| RuleTheorems.RepeatedUnaffectedIff | crates/rules_engine/src/rules.rs:84-91 | the repeated-payment rule fires on a kept part only if it fires on all; the verdicts agree exactly when the kept part has enough like payments or all of it has not |
| RuleTheorems.CrossAssetUnaffectedIff | crates/rules_engine/src/rules.rs:490-495 | the same for the cross-asset rule and the assets touched |
| RuleTheorems.RoundTripUnaffectedIff | crates/rules_engine/src/rules.rs:389-394 | the same for the round-trip rule: exactly when a return leg in the window was kept or there never was one |
| RuleTheorems.DormantUnaffectedIff | crates/rules_engine/src/rules.rs:335-342 | the same for the dormancy rule, given in-order ingestion: exactly when the amount is too small, something sent was kept, or the full history shows no reawakening |
| RuleTheorems.NewAccountUnaffectedIff | crates/rules_engine/src/rules.rs:435-447 | the new-account rule goes the other way: it fires on a kept part if it fires on all; with the exact condition for agreement |
| RuleTheorems.RoundTripCanBeMissed | crates/rules_engine/src/rules.rs:389-394 | a return leg followed by 500 other payments is missed |
| Bounds.FiredUnderCeilings | crates/rules_engine/src/rules.rs:11-24 | the raw score of what fires is at most that of every rule firing at its heaviest |
| Bounds.ScoreBelowEighty | crates/scoring/src/lib.rs:55-78 | for all transactions, histories and configurations the score is below 80, and below 64 unless the amount is above ten times the large-transfer threshold; only then is the Critical band reached |
| Bounds.FlaggedScoresAtLeast | crates/rules_engine/src/rules.rs:183-201 | a transaction of a flagged account triggers and scores at least 600/36 |
| History.RecordingKeepsIndex | crates/api/src/state.rs:45-71 | recording keeps every account's history the last 500 of all transactions it is a party of, in order, self-payments once |
| History.RecordingKeepsStore | crates/api/src/state.rs:45-58 | and each hash mapped to the latest transaction bearing it |
| Alerts.ListingIsComplete | crates/alerts/src/lib.rs:111-115 | a listing holds every alert once, later creation times first, whatever order the map is traversed in |
| Alerts.RestoreUndoesList | crates/alerts/src/lib.rs:111-134 | restoring a listing into an empty store gives the same alerts |
| Alerts.RestoredHas | crates/alerts/src/lib.rs:129-134 | restoring leaves the last saved alert under each id |
| Alerts.AlertManager.CreateAlert | crates/alerts/src/lib.rs:51-105 | the alert is stored as Open and two events are appended for it |
| Alerts.AlertManager.List | crates/alerts/src/lib.rs:111-115 | the complete listing |
| Alerts.AlertManager.ListByStatus | crates/alerts/src/lib.rs:117-122 | exactly the stored alerts with the status, each once, newest first |
| Alerts.AlertManager.Restore | crates/alerts/src/lib.rs:129-134 | inserts the saved alerts, later ones over earlier ones, and logs nothing |
| Alerts.AlertManager.ApplyInvestigatorDecision | crates/alerts/src/lib.rs:154-198 | an unknown alert changes nothing; otherwise status and update time change and the decision and the change from the old status are appended |
| Service.AppState.PushBounded | crates/api/src/state.rs:60-71 | the history is the last 500 of the old one and the transaction |
| Service.AppState.RecordTransaction | crates/api/src/state.rs:45-58 | both parties' histories and the hash map are updated |
| Service.AppState.RunEvaluationHere | crates/api/src/handlers.rs:99-131 | the handler's whole effect and response are the pure machine's evaluation |
| Service.AppState.IngestTransaction | crates/api/src/handlers.rs:35-43 | its effect and response are the machine's transition |
| Service.AppState.EvaluateTransaction | crates/api/src/handlers.rs:70-84 | the same, also for an unknown hash |
| Service.AppState.IngestAndEvaluateTransaction | crates/api/src/handlers.rs:89-97 | the same |
| Service.AppState.GetAiInvestigation | crates/api/src/handlers.rs:182-237 | the same, also for an unknown alert |
| Service.AppState.SubmitDecision | crates/api/src/handlers.rs:252-291 | the same, also for a role that cannot decide and for an unknown alert |
| Runs.TrailReplays | crates/audit/src/lib.rs:144-152 | a well-formed trail replays to one status |
| Runs.HandleKeepsInvariant | crates/api/src/handlers.rs:35-291 | every request keeps the log accepted, every trail well formed and equal in replay to the stored status, and the flags exactly the confirmed parties; the log only grows and no account is unflagged |
| Runs.RunKeepsInvariant | crates/api/src/handlers.rs:35-291 | so does every run from any such state |
| Runs.RunFromEmpty | crates/api/src/handlers.rs:35-291 | from empty, each trail is Created, Triggered, then advisory pairs and decision pairs whose changes link up from Open; its replay is the stored status; exactly the parties of confirmed alerts are flagged |
| Outcomes.ViewerRefused | crates/common/src/lib.rs:172-176 | a viewer's decision is answered Forbidden and leaves the world as it was |
| Outcomes.DecisionTakesEffect | crates/alerts/src/lib.rs:154-198 | an investigator's or an administrator's decision on a known alert gives it that status and the time, changes nothing else of any alert, records who decided what and the change from the old status, and flags both parties exactly when it confirms |
| Outcomes.UnknownAlertNotFound | crates/alerts/src/lib.rs:158-161 | on an unknown alert it changes nothing |
| Outcomes.ViewersDecideNothing | crates/api/src/handlers.rs:252-291 | in a run whose decisions all come from viewers no alert and no flag changes and no decision or change of status is recorded |
| Outcomes.EvaluationFiles | crates/api/src/handlers.rs:99-131 | without triggers nothing changes; with them an open alert holds triggers, score and severity as assessed, and the two records say so |
| Outcomes.EvaluationByHash | crates/api/src/handlers.rs:70-84 | by hash the latest ingested transaction bearing it is evaluated; an unknown hash changes nothing |
| Outcomes.InvestigationStores | crates/api/src/handlers.rs:182-237 | the advice made of the triggers' reasons in order is stored, returned and recorded; nothing else changes |
| Outcomes.UnknownAlertNotAdvised | crates/api/src/handlers.rs:186-189 | advice on an unknown alert is refused and changes nothing |
| Outcomes.TrailsTellFromEmpty | crates/alerts/src/lib.rs:75-94 | after every run from empty each alert's first two records tell its score, severity and trigger ids one by one, and the last answer on its trail that of the stored advice |
| NonInterference.DroppingRefusedDecisions | crates/api/src/handlers.rs:258-262 | a run ends in the very same world, and answers every other request the same, without the decisions of roles that cannot decide |
| Runs.HistoryRefinesIngestLog | crates/api/src/state.rs:45-80 | after any run each history is the last 500 of the full ingest sequence filtered to the account |
| NonInterference.AiCallInvisible | crates/api/src/handlers.rs:182-237 | an advisory call changes nothing but recommendations and advisory records, whatever the model answers |
| NonInterference.OtherRequestsAgree | crates/api/src/handlers.rs:35-291 | other requests do and answer the same in states that agree up to those |
| NonInterference.DroppingAiCalls | crates/api/src/handlers.rs:182-237 | a run agrees with the run without its advisory calls |
| NonInterference.AdviceDoesNotInterfere | crates/api/src/handlers.rs:182-291 | two sequences that differ only in the model's answers, or in whether advisory calls happen, end alike in alerts, flags, histories and log but for advisory records and hashes, and every other request is answered alike |
| ShippedService.ConfirmedPartiesKeepAlerting | crates/api/src/handlers.rs:258-281 | once an alert is confirmed, after any later requests an evaluation that touches one of its parties files an alert scoring from 600/36 to below 80 |
| ShippedService.RunReproducible | crates/scoring/src/lib.rs:1-8 | in every run of the shipped service each alert has triggers in strict order of ids, and its score and severity band are those recomputed from them alone |
| ShippedService.UnansweredIsFallback | crates/ai_advisor/src/lib.rs:57-114 | when the model does not answer, the stored advice has no confidence, is marked unavailable, bears the advisory label and repeats the reasons one by one |
| ShippedService.FreshTransactionJudgedOnLast500 | crates/api/src/handlers.rs:70-131 | after any run a transaction with a new hash is judged on the last 500 of its account on the way in and on the last 499 by hash; for the frequency rule that is as good as all exactly up to a threshold of 501 or 500, or beyond what all reach |
| ShippedService.FrequencyAnswered | crates/api/src/handlers.rs:89-131 | from the ingest sequence to the answer: a new transaction is reported for its frequency exactly when it and the account's transactions in the window, at most 500 of them, reach the threshold |
| ShippedService.EndpointsAlikeIff | crates/api/src/handlers.rs:35-97 | evaluating on the way in, and ingesting and then evaluating by hash, leave the same world and answer the same under every assessment if and only if the account has fewer than 500 others |
| ShippedService.EndpointsFrequencyAlikeIff | crates/api/src/handlers.rs:35-97 | the frequency rule tells them apart exactly at threshold 501 with 500 others in the window |
| ShippedService.JudgedOnSuffix | crates/api/src/handlers.rs:99-108 | any transaction, new or stored, is judged on an end of all its account's transactions of other hashes |
| ShippedService.RunKeepsAdviceSafe | crates/api/src/handlers.rs:182-237 | if the characters of the model's answers keep their width, every recommendation stored by any run is presentable or the local fallback |
| ShippedService.StoredHistoryVerdicts | crates/api/src/state.rs:60-71 | after any run and for any transaction, three rules never fire on the stored history without firing on the full one, nor does dormancy given in-order ingestion, and the new-account rule the other way round |
| Persistence.RestoreOnStartup | crates/api/src/persistence.rs:36-67 | alerts and log are what was saved, a missing file changes nothing, and the verdict on the restored log is right |
| Persistence.RunKeepsChain | crates/audit/src/lib.rs:106-165 | from any accepted log, restored or not, every run extends it and keeps it accepted |
| Persistence.SnapshotIsUsable | crates/api/src/persistence.rs:71-90 | whatever requests fall between the two reads, the saved log is accepted and extends the log at the first read, each saved status is the replay of a prefix of its saved trail, and the restart restores the alerts and goes on from an accepted log |
| Persistence.TakeSnapshot | crates/api/src/persistence.rs:71-90 | with nothing handled in between, the two reads save a complete listing that restores the alerts, and the log |
| Persistence.RunStatus | crates/api/src/handlers.rs:252-291 | a run leaves an alert with the status of the last decision on it by a role that can decide, or as it was |
| Persistence.SnapshotConsistentIff | crates/api/src/persistence.rs:71-90 | a saved status is told by the whole saved trail exactly when no decision on the alert fell between the reads or the last one gave the status it had |
| Persistence.CreatedBetweenReadsTears | crates/api/src/persistence.rs:71-90 | an alert not yet saved fits exactly when it was not created between the reads |
| Persistence.DecisionBetweenReadsTears | crates/api/src/persistence.rs:71-90 | a decision between the reads tears the snapshot |
| Persistence.RestartForgetsFlags | crates/api/src/persistence.rs:36-90 | what a restart restores flags exactly the confirmed parties if and only if nobody was flagged when the snapshot was taken |
| Persistence.RestartSilencesFlaggedRule | crates/rules_engine/src/rules.rs:183-201 | the flagged-account rule, firing on a party of a confirmed alert before, is silent on it after a restart until an alert is confirmed anew |
| Interleaving.CallConserves | crates/alerts/src/lib.rs:169-187 | one lock region of a call logs the status change it owes or goes on owing it |
| Interleaving.MovesConserved | crates/alerts/src/lib.rs:154-198 | every step keeps logged plus pending changes, but for the one a beginning decision adds |
| Interleaving.ChainBalances | crates/alerts/src/lib.rs:154-198 | changes that link up from Open balance at the status they end in and nowhere else |
| Interleaving.StepKeepsConsistent | crates/alerts/src/lib.rs:51-198 | every step of every call keeps the log accepted, every status explained by the logged and pending changes, and every flag backed by a logged confirmation, and only extends the log |
| Interleaving.RunKeepsConsistent | crates/alerts/src/lib.rs:51-198 | so does every interleaving |
| InterleavingTheorems.StatusMovesBalance | crates/alerts/src/lib.rs:154-198 | in every state of every interleaving, changes into a status less those out of it, logged or pending, are [current = s] - [s = Open]; the log is accepted |
| InterleavingTheorems.StatusRecoverable | crates/alerts/src/lib.rs:154-198 | with no decision in flight the status is the one at which the unordered logged changes balance |
| InterleavingTheorems.UnorderedLogFixesStatus | crates/alerts/src/lib.rs:154-198 | runs that logged the same changes of an alert, in whatever order, end in the same status |
| InterleavingTheorems.SnapshotStatusRecoverable | crates/api/src/persistence.rs:71-90 | a snapshot's log has a prefix from which a saved status with no decision in flight can be recovered |
| InterleavingTheorems.QuiescentFlags | crates/api/src/handlers.rs:272-281 | at rest exactly the parties of alerts with a logged confirmation are flagged |
| InterleavingTheorems.SerialDecisionsReplay | crates/audit/src/lib.rs:144-152 | if decisions on an alert do not overlap, its logged changes link up in log order to its status |
| InterleavingTheorems.LastChangeTellsStatusIff | docs/audit-model.md:18 | at rest the last logged change names the status if and only if the logged changes balance there |
| InterleavingTheorems.OvertakingMisleads | crates/alerts/src/lib.rs:169-187 | a concrete interleaving, at rest, whose log ends in a status the alert does not have |
| EventConservation.StepDelivers | crates/audit/src/lib.rs:106-142 | every step keeps recorded plus owed events, but for the two a new request adds |
| EventConservation.EventsDelivered | crates/api/src/handlers.rs:182-291 | in every interleaving the log holds only events that requests began, none more often than begun; at rest it holds exactly those |
| Linearization.RunStaysAhead | crates/alerts/src/lib.rs:51-198 | handling requests one after another in the order of their first lock regions stays ahead of any interleaving by exactly what the calls in flight owe |
| Linearization.Linearizes | crates/api/src/handlers.rs:182-291 | every interleaving has the alerts of that serial run at every moment, and at rest its flags and its log entries as a multiset |
| InterleavedAdvice.AdvisoryCallsErasable | crates/api/src/handlers.rs:182-237 | an interleaving with its advisory calls' steps erased and the others renumbered can still happen, with the same alerts, flags and log but for advisory records and hashes |
| InterleavedAdvice.AdviceDoesNotInterfereInterleaved | crates/api/src/handlers.rs:182-291 | so interleavings that differ only in advice, or in advisory calls, end alike |
| InterleavedAdvice.StoredAdviceOnRecord | crates/api/src/handlers.rs:213-228 | in every interleaving stored advice is advice on record for its alert, and at rest exactly the alerts with some on record have advice |
| Pipeline.IngestionPipeline.FetchWithRetry | crates/ingestion/src/pipeline.rs:82-104 | stops at the first success or the last attempt, returns that poll's answer, and sleeps the closed-form delays in between |
| Pipeline.StopsAtFirstSuccess | crates/ingestion/src/pipeline.rs:82-104 | the number of polls is the smaller of the first success and max(1, attempts) |
| Pipeline.DelaysCappedIff | crates/ingestion/src/pipeline.rs:84-101 | delay k is min(base * 2^(k-1), maximum) for all k, and never above the maximum, if and only if the base is within it |
| Pipeline.FetchBrings | crates/ingestion/src/pipeline.rs:82-104 | a fetch brings its last poll's batch and nothing else |
| Pipeline.IngestionPipeline.Turn | crates/ingestion/src/pipeline.rs:116-130 | one turn sends what its fetch brought, in order, or the front of it that the channel takes |
| Pipeline.IngestionPipeline.Run | crates/ingestion/src/pipeline.rs:111-132 | polls, items received and sleeps are those of the turns made, in full, or cut off where a closing channel has no more room; then the loop ends with ChannelClosed |
| Pipeline.TurnsBring | crates/ingestion/src/pipeline.rs:111-132 | what the turns deliver is what all their polls brought, in order, nothing lost or repeated whatever the retries |
| Pipeline.TurnsPoll | crates/ingestion/src/pipeline.rs:82-132 | n turns make from n to n times the attempts polls, and sleep once per poll |

## Left out

- HTTP routing, JSON, CORS, metrics, tracing, the dashboard, tokens and configuration files.
- The network clients: what a model or a transaction source answers is an input. Whether a source
  advances its cursor before delivery is up to the source.
- SHA-256, hexadecimal and timestamp rendering: the hash is a function of the record's fields, so two
  contents whose concatenated fields read alike count as a collision.
- Fresh ids and clocks: inputs. Runs assume only that alert ids do not repeat.
- Rounding, and amounts or weights that are not finite: arithmetic is over exact reals. Only the
  confidence clamp and the average over an empty history meet NaN and infinity.
- The one place where lower-casing depends on context: a capital sigma at the end of a word. Both its lower
  cases take two bytes and neither is in a marker.
- Service.AppState.GetAiInvestigation: a panic of the sanitizer ends the request, as other panics do; runs are
  of requests that come to their end.
- AdvisorTheorems.FallbackPresentableIff: that none of the twelve markers is in the six fixed texts of the
  fallback is left as the condition `FixedTextsClean`.
- Reason texts but for the frequency rule's, evidence texts, which of several custom thresholds is named,
  and transaction fields that no rule reads.
- The unusual-movement rule on the last 500 against the full history: its verdict can change both ways,
  so nothing is claimed.
- Dead letters: nothing is ever put there.
- File handling in `crates/storage`, the Soroban contract, lock poisoning, panics and crashes inside a
  request.
- Sorting.Sort: the library's in-place stable sort is modelled by insertion on a sequence, so its order of
  comparisons is not captured.
- Interleaving.Next: transaction histories are behind locks of their own and are not part of the concurrent
  machine; an evaluation enters it as the creation of an arbitrary alert.
- Pipeline.IngestionPipeline.Run: runs for a given number of turns, since a caller ends the source's endless
  loop by dropping it; being dropped in the middle of a turn is not modelled, nor is overflow of a delay.
- Pipeline.Channel.Send: a receiver that closes does so after a given number of items, and waiting for a full
  channel is not modelled.
