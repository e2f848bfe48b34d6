# Verification of the gateway's control logic

A Dafny model of the parts of an LLM gateway whose correctness is decided by its own code:
reconciling a channel's model list with its upstream, keeping per-key state on multi-key
channels, limiting requests in memory, retrying a relayed request, reconciling prices, and two
byte-level pieces. `dafny verify dfyconfig.toml` checks the whole project.

| file | component |
|---|---|
| `Text.dfy`, `NameLists.dfy` | list columns, trimming, ordered duplicate-free name lists |
| `UpstreamDiff.dfy`, `Adoption.dfy` | pending additions and removals, vendor prefixes, model mapping; when adopting them settles |
| `Selection.dfy`, `Rotation.dfy`, `Validation.dfy`, `ModelUpdate.dfy` | budgeted rotating validation, failure counts, guards, histories of checks |
| `Sweep.dfy`, `SweepChannel.dfy` | the full model sweep |
| `MultiKey.dfy`, `MultiKeyRefinement.dfy`, `MultiKeyNotes.dfy` | sparse per-index key state, the plain list it refines, disable times and reasons |
| `RateLimiter.dfy` | the sliding-window limiter |
| `Relay.dfy`, `TaskRelay.dfy` | the retry loops, the ping-aware writer, buffered attempts |
| `PriceDiff.dfy`, `ModelsDev.dfy` | the difference table and the price selection |
| `Bytes.dfy`, `Ogg.dfy`, `BodyStorage.dfy`, `RequestBody.dfy` | Ogg page scanner, replayable request body |
| `Arithmetic.dfy`, `Wrappers.dfy` | products and remainders, an optional value |

The model follows the form of the code. Objects that are updated in place (the limiter, a
multi-key channel, the writers, the storages, a request's context) are classes, loops are
methods with invariants, and each method is tied to a specification function; the lemmas prove
what the code promises about those functions. Clocks are parameters. Upstream answers, handlers,
cancellation, channel selection and billing are oracles passed in as functions or scripts, so
every result holds for all of their behaviours. Ignore rules are an arbitrary predicate.

## Where the code and its promises differ

The model does what the code does. Each difference has a lemma with a concrete family of inputs
and, where one exists, the exact condition under which the promise holds.

- Deleting the automatically disabled keys of a channel reports success even when every key is
  one; the blank column is then not stored and all keys come back enabled (`DeleteAllAuto`).
- A blank line inside a key column shifts the recorded state when a delete makes it the first or
  last line (`DeleteRefinesExactly`, `DeleteAutoRefinesExactly`, `BlankLineShiftsStatus`).
- Restoring a key from the relay drops its status but not its disable time and reason
  (`RestoreTidyExactly`, `StaleReasonShown`); and a save prunes status entries past the end but
  not times and reasons, so that a new key can show those of an old one (`StepBacked`,
  `RunBacked`, `NewKeyShowsOldReason`).
- Adopting an upstream id with a comma need not settle: it is pending again, or a part of it is
  newly pending removal (`OneAdoptionSettles`, `CommaNeverSettles`, `SplitNameIsRemoved`); and a
  padded mapping key can unsettle an adoption (`PaddedKeyUnsettles`).
- The rotation cursor moves by the whole sample even when the budget cuts the sample short
  (`RotationFairExactly`, `RotationStarves`).
- The comments on models.dev say the cheapest price is selected; it is the cheapest up to 1e-9
  (`SelectedPrice`, `CheapestForEveryNaming`).
- The comment on the limiter's Check says a non-positive maximum has no room; Request treats 0
  as 1 (`ZeroMaximumActsAsOne`).
- The comment on onlyPingsWritten says the size check keeps it exact even after a hijack. It is
  exact up to short pings and bytes sent after a hijack (`OnlyPingsExactly`); gin 1.9.1 allows a
  hijack after bytes (`HijackFoolsTheCheck`, `LatePingFoolsTheCheck`), and a short write does the
  same (`LostPingFoolsTheCheck`). Nothing in the repository hijacks inside the loop: the only
  upgrade is controller/relay.go:92, before the wrapper is installed.
- Memory and disk bodies differ on one observation, a read into an empty buffer at the end
  (`BackendsDifferExactly`).
- A sweep compares untrimmed names and records a failure for every padded one
  (`PaddedNameRecorded`); validation never looks such a name up (`ChecksSeeVisible`).
- The price table stays silent about a null and about a value that reads "same"
  (`SurvivesExactly`, `NullVanishes`, `SameVanishes`).

## Model

| member | source | states |
|---|---|---|
| `RateLimiter.InMemoryRateLimiter.Request` | common/rate-limit.go:50-78 | answers and updates queue and window as the one-call specification says, and never leaves an empty queue behind |
| `RateLimiter.InMemoryRateLimiter.Check` | common/rate-limit.go:84-98 | answers without recording; the only change is a widened window |
| `RateLimiter.InMemoryRateLimiter.ClearExpired` | common/rate-limit.go:32-47 | drops exactly the keys whose newest entry has left the window |
| `RateLimiter.QueueAnswers` | common/rate-limit.go:50-78 | a bounded queue gives the answer the complete log of accepted requests would give |
| `RateLimiter.QueueForgets` | common/rate-limit.go:32-47 | cleanup only forgets a key whose whole log is too old to count |
| `RateLimiter.RunTracks` | common/rate-limit.go:32-98 | after every run the queue is the newest part of the complete log, and everything missing from it is old |
| `RateLimiter.AnswersExactly` | common/rate-limit.go:32-98 | for a fixed maximum of at least 1 per key, any interleaving of keys, checks and cleanup: admitted if and only if fewer than the maximum of that key's accepted requests are younger than the duration |
| `RateLimiter.CleanupUnobservable` | common/rate-limit.go:32-47 | no answer changes when the cleanup passes are taken out of a run |
| `RateLimiter.CheckPredictsRequest` | common/rate-limit.go:84-98 | Check gives the answer Request would give at that moment |
| `RateLimiter.NeverAboveMaximum` | common/rate-limit.go:50-78 | no half-open window of one duration, wherever it starts, holds more accepted requests than the maximum |
| `RateLimiter.ZeroMaximumActsAsOne` | common/rate-limit.go:50-98 | Request treats a maximum of 0 as 1 while Check refuses it, against the comment on Check |
| `Text.StorageRoundTrip` | model/channel.go:272-294 | a list survives being joined, stored and read back if and only if no part holds the separator and neither end is blank |
| `Text.ReadListShape` | model/channel.go:272-294 | what reading a column can produce: nothing, one blank part, or a list that round-trips |
| `Text.PartsSurvive` | model/channel.go:473-478 | whatever else is in a list, its non-blank parts without a separator are read back |
| `Text.TrimSpaceTrims` | controller/channel_upstream_update.go:119-124 | trimming yields text without outer white space and fixes text that has none |
| `NameLists.NormalizeCleans` | controller/channel_upstream_update.go:119-124 | a normalized list is distinct, trimmed and without blanks, and normalizing it again changes nothing |
| `NameLists.NormalizeNames` | controller/channel_upstream_update.go:119-124 | it holds exactly the trimmed non-blank names of its input |
| `NameLists.MergeCleans` | controller/channel_upstream_update.go:126-140 | merging keeps the base in place as a prefix and adds what was missing, once |
| `NameLists.SubtractCleans` | controller/channel_upstream_update.go:142-151 | subtracting leaves exactly the names of the base that were not named for removal |
| `NameLists.ApplySelectedMeaning` | controller/channel_upstream_update.go:164-169 | a name selected both for adding and for removing is kept |
| `MultiKey.MultiKeyChannel.constructor` | model/channel.go:767-808 | a multi-key channel starts with empty maps and a size that counts its lines |
| `MultiKey.MultiKeyChannel.Save` | model/channel.go:767-808 | a blank column keeps the stored keys, the size is recounted, and status entries past the end go |
| `MultiKey.MultiKeyChannel.DisableKey` | controller/channel.go:1872-1913 | accepted exactly inside the list; column and maps become those DisableRefines reads as a disabled record |
| `MultiKey.MultiKeyChannel.EnableKey` | controller/channel.go:1915-1955 | accepted exactly inside the list; column and maps become those EnableRefines reads as an enabled record without time and reason |
| `MultiKey.MultiKeyChannel.EnableAllKeys` | controller/channel.go:1957-1979 | all maps are emptied, and the count returned is the number of keys that were not enabled (with EnableAllCount) |
| `MultiKey.MultiKeyChannel.DisableAllKeys` | controller/channel.go:1981-2026 | accepted exactly when some key is enabled, with the number of keys that were (with DisableAllCount); keys already disabled keep their status |
| `MultiKey.MultiKeyChannel.DeleteKey` | controller/channel.go:2028-2106 | accepted exactly inside the list and when a key would be left; the rest is renumbered |
| `MultiKey.MultiKeyChannel.DeleteDisabledKeys` | controller/channel.go:2108-2175 | accepted exactly when some key is automatically disabled, with their number; the rest is renumbered |
| `MultiKey.Reindex` | controller/channel.go:2048-2078 | the renumbering loop of both deletes: line j of the result has what was recorded for the j-th line that stays |
| `MultiKey.MultiKeyChannel.Mark` | model/channel.go:997-1047 | the first line holding the key is marked or restored; an unknown key changes nothing |
| `MultiKey.MultiKeyChannel.AppendKeys` | controller/channel.go:1097-1168 | the column gains the new keys behind the old ones and no map entry moves |
| `MultiKey.MultiKeyChannel.Deduplicate` | controller/channel.go:1145-1164 | the keys to append are the new ones not on the channel, once each, in order |
| `MultiKey.MultiKeyChannel.Convert` | controller/channel.go:1211-1248 | a single-key channel becomes multi-key exactly when two different keys remain |
| `MultiKey.MultiKeyChannel.ReplaceKeys` | controller/channel.go:1250-1284 | the new column with, for every line, what was recorded for its old line of the same occurrence rank |
| `MultiKey.IndexKeys` | controller/channel.go:1258-1262 | each trimmed key is queued with the lines it occurs on, in order |
| `MultiKey.CarryByRank` | controller/channel.go:1267-1283 | popping the queues carries, for every new line, what was recorded for its old one |
| `MultiKey.NeverCarriedTwice` | controller/channel.go:1258-1284 | no old record reaches two new lines |
| `MultiKeyRefinement.ReplaceCarriesByRank` | controller/channel.go:1258-1284 | the j-th occurrence of a trimmed key gets status, time and reason of its j-th occurrence before; further occurrences start enabled |
| `MultiKeyRefinement.DeleteRefinesExactly` | controller/channel.go:2028-2106 | deleting acts as on a plain list of records if and only if neither end of what remains is blank |
| `MultiKeyRefinement.BlankLineShiftsStatus` | controller/channel.go:2028-2106 | with a blank line between two keys, deleting the first enables the other, whatever its status was |
| `MultiKeyRefinement.BlankLineWitness` | controller/channel.go:2028-2106 | the column of a key, a blank line and another key is such a row |
| `MultiKeyRefinement.DeleteAutoRefinesExactly` | controller/channel.go:2108-2175 | on every in-range row the bulk delete removes exactly the automatically disabled keys if and only if some key is left and neither end of what is left is blank |
| `MultiKeyRefinement.DeleteAllAuto` | controller/channel.go:2148-2163 | with every key automatically disabled it keeps all of them and enables them |
| `MultiKeyRefinement.AppendRefines` | controller/channel.go:1097-1168 | appended keys start enabled behind the existing ones and no existing record changes, if and only if the column does not start with a blank line or nothing is added |
| `MultiKeyRefinement.NewKeysClean` | controller/channel.go:1145-1164 | appended keys are distinct, non-blank and not on the channel under any padding |
| `MultiKeyRefinement.DisableRefines` | controller/channel.go:1872-1913 | disables record i of the plain list and nothing else; an old time and reason stay |
| `MultiKeyRefinement.EnableRefines` | controller/channel.go:1915-1955 | makes record i of the plain list a fresh one and touches nothing else |
| `MultiKeyRefinement.EnableAllRefines` | controller/channel.go:1957-1979 | makes every record a fresh one |
| `MultiKeyRefinement.DisableAllRefines` | controller/channel.go:1981-2026 | disables exactly the records that were enabled |
| `MultiKeyRefinement.MarkRefines` | model/channel.go:997-1047 | changes the first record with the key and no other |
| `MultiKeyRefinement.DeleteRefines` | controller/channel.go:2028-2106 | removes record i, keeping every other record with its state, if and only if what is left has no blank end |
| `MultiKeyRefinement.DeleteAutoRefines` | controller/channel.go:2108-2175 | removes the automatically disabled records and keeps the others in order, an enabled one without time and reason, if and only if what is left has no blank end; without such a record it changes nothing |
| `MultiKeyRefinement.StepRefines` | controller/channel.go:1872-2161 | on every in-range row an action acts on the sparse maps as on a plain list with one record per key if and only if it is safe, and then no map index leaves the list; only deletes that leave a blank end and an append behind a blank column are not safe |
| `MultiKeyRefinement.RunRefines` | controller/channel.go:1872-2161 | a run of disable, enable, enable-all, disable-all, delete, bulk delete, append, replace and relay marks is at every moment the run on the plain list if and only if each action is safe in its turn |
| `MultiKeyRefinement.ConvertStarts` | controller/channel.go:1226-1247 | a converted channel starts with one enabled record per distinct key if and only if its old key is one line and nothing is on record for the lines it gets |
| `MultiKeyNotes.RunTidy` | controller/channel.go:1872-2161 | on the plain list, over every run without a relay restore, disable times and reasons exist only for keys that are not enabled |
| `MultiKeyNotes.SafeRunTidy` | controller/channel.go:1872-2161 | so does the stored row over every safe run without a relay restore |
| `MultiKeyNotes.StepBacked` | controller/channel.go:1872-2161 | where every time and reason on the row, past the end included, is that of a disabled key, one action keeps it so if and only if it neither restores a key that has one nor is a delete that carries one past the lines read back |
| `MultiKeyNotes.RunBacked` | controller/channel.go:1872-2161 | over any run, safe or not, it holds at every moment if and only if each action is such in its turn |
| `MultiKeyNotes.BackedIsTidy` | controller/channel.go:1872-2161 | on counted rows that is the same as a tidy list with all indexes in range |
| `MultiKeyNotes.NewKeyShowsOldReason` | model/channel.go:799-807 | a delete followed by an append can show an old time and reason on a brand-new enabled key, because only stale status entries are pruned |
| `Text.ReadsInner` | model/channel.go:272-294 | a column is read back as the list that was written without its blank ends |
| `MultiKeyNotes.RestoreTidyExactly` | model/channel.go:1024-1035 | a restore keeps that true if and only if the key had neither a time nor a reason on record |
| `MultiKeyNotes.StaleReasonShown` | model/channel.go:1024-1035 | otherwise a key disabled by hand shows the reason of an earlier automatic disable |
| `MultiKeyRefinement.EnableAllCount` | controller/channel.go:1957-1979 | enable_all_keys reports the number of keys that were not enabled |
| `MultiKeyRefinement.DisableAllCount` | controller/channel.go:1981-2026 | disable_all_keys reports the number of keys that were enabled |
| `UpstreamDiff.StripVendorPrefixes` | controller/channel_upstream_update.go:210-238 | the two-pass loop strips exactly the ids that alone claim a bare name no upstream id has |
| `UpstreamDiff.StrippedExactly` | controller/channel_upstream_update.go:210-238 | an id is stripped if and only if its bare name is neither an upstream id nor the bare name of another strippable id |
| `UpstreamDiff.CandidatesInjective` | controller/channel_upstream_update.go:210-238 | two upstream ids never share a candidate name, for any upstream list |
| `UpstreamDiff.CollectPending` | controller/channel_upstream_update.go:247-339 | the loops compute the specified additions, removals and mapping entries on normalized lists |
| `UpstreamDiff.AddExactly` | controller/channel_upstream_update.go:301-325 | a name is pending if and only if it is the candidate of a listed id that is neither served nor ignored under either spelling |
| `UpstreamDiff.AddIsNew` | controller/channel_upstream_update.go:293-325 | pending additions are clean and disjoint from local names and mapping targets |
| `UpstreamDiff.RemoveExactly` | controller/channel_upstream_update.go:326-334 | a served name is pending removal if and only if the upstream lists it under neither spelling and it is no alias |
| `UpstreamDiff.EntriesNameTheirId` | controller/channel_upstream_update.go:301-325 | every mapping entry belongs to a pending candidate and names the one id adopted under it |
| `UpstreamDiff.PendingMappingFor` | controller/channel_upstream_update.go:358-372 | entries are narrowed to the models still staged |
| `UpstreamDiff.MergeChannelMapping` | controller/channel_upstream_update.go:380-411 | an existing entry is never overwritten, every other adopted name is mapped, and a column that does not parse is never rewritten |
| `Adoption.MappingGrows` | controller/channel_upstream_update.go:380-411 | writing entries keeps every alias and adds only the entries' own; an alias keeps its target while no competing one is stored for it |
| `Adoption.AdoptedExactly` | controller/channel_upstream_update.go:1126-1139 | the list read back after an adoption holds the old names and every trimmed part of what was added, and nothing else |
| `Adoption.OneAdoptionSettles` | controller/channel_upstream_update.go:247-411 | after one adoption, in whatever order the mapping is read: nothing is pending to add if and only if each listed id that is not ignored, on the old list or a part of an added name is the target some mapping key cannot avoid; the pending removals are unchanged if and only if every part of an added name is on the old list, listed by the upstream or an alias |
| `Adoption.UnreachedIds` | controller/channel_upstream_update.go:293-325 | such an id was covered by a mapping target, or is pending under a name with a comma |
| `Adoption.FixedPoint` | controller/channel_upstream_update.go:247-411 | without a comma in what is added the pending removals never change, and nothing is pending to add while no two mapping keys differ only in white space |
| `Adoption.AdditionsSettleExactly` | controller/channel_upstream_update.go:247-339 | for any list and mapping: nothing is pending to add in whatever order the mapping is read if and only if every listed id is ignored, on the list under some spelling, or the target some key cannot avoid |
| `Adoption.RemovalsSettleExactly` | controller/channel_upstream_update.go:326-338 | the removals half, for each order in which the mapping may be read, on the inputs alone |
| `Adoption.SplitNameIsRemoved` | controller/channel_upstream_update.go:326-338 | a name with a comma that its own mapping entry serves still unsettles the removals: its first part is read back as a name and is newly pending removal |
| `Adoption.SplitNameExample` | controller/channel_upstream_update.go:326-338 | the same for the id x/b,c |
| `Adoption.OwnEntryNormal` | controller/channel_upstream_update.go:183-194 | the entry such an adoption writes is read back as it was written |
| `Adoption.CommaNeverSettles` | controller/channel_upstream_update.go:1126-1139 | an id with a comma is adopted, read back as two names, and pending again |
| `Adoption.PaddedKeyUnsettles` | controller/channel_upstream_update.go:380-411 | a padded mapping key beside the same key written by an adoption can uncover its target |
| `Selection.SelectForValidation` | controller/channel_upstream_update.go:711-774 | the loops select the first budget-many distinct names of candidates, due failures and rotation, and advance the cursor by the sample |
| `Selection.SelectionBounded` | controller/channel_upstream_update.go:711-774 | the selection is duplicate-free, within budget, and drawn from candidates and served models |
| `Selection.CandidatesComeFirst` | controller/channel_upstream_update.go:739-743 | candidates have the first claim on the budget |
| `Selection.DueFailuresComeNext` | controller/channel_upstream_update.go:745-757 | failures whose delay has passed have the second |
| `Selection.CandidatesOnlySelection` | controller/channel_upstream_update.go:846-853 | without health records and sample, only candidates are selected |
| `Selection.RotationReachesEveryModel` | controller/channel_upstream_update.go:759-771 | with budget for candidates, due failures and sample, any stretch of runs that samples n models in total selects all n, from any cursor |
| `Rotation.RotationFairExactly` | controller/channel_upstream_update.go:759-771 | on steady runs every model is selected sooner or later, from any cursor, if and only if the shorter of budget and sample is at least the greatest common divisor of sample and list length |
| `Rotation.RotationStarves` | controller/channel_upstream_update.go:759-771 | otherwise some model is in no run at all, because the cursor moves by the sample even when the budget cuts it |
| `Validation.RunContext.Consume` | controller/channel_upstream_update.go:641-650 | what leaves the budget is counted as validated, and the budget never goes below zero |
| `Validation.Classify` | controller/channel_upstream_update.go:960-1046 | the health map, the two decisions and the rejection count after one result |
| `Validation.RecordedAt` | controller/channel_upstream_update.go:960-1046 | a model's entry depends on its own result only |
| `Validation.LimiterNeverBinds` | controller/channel_upstream_update.go:782-826 | whenever the cumulative guard lets removals through, the per-run limiter returns them unchanged: at most half, never all |
| `Validation.LimitedBound` | controller/channel_upstream_update.go:782-795 | on any input the limiter allows at most half of the served models |
| `Validation.AskingIsFailing` | controller/channel_upstream_update.go:960-1046 | a model that asks for removal is on record as failing |
| `Validation.RemovalsAreAllOrNothing` | controller/channel_upstream_update.go:918-937 | either the guard suspends every removal, or each model that asked for removal is removed |
| `Validation.Prune` | controller/channel_upstream_update.go:1050-1074 | known models only, at most 200 entries, and none dropped that failed later than one kept |
| `Validation.TestSelected` | controller/channel_upstream_update.go:878-916 | the requests add up, in order, until a stop, a cancelled wait or an empty budget |
| `Validation.ValidateChannelModels` | controller/channel_upstream_update.go:833-947 | an uninterrupted run gets through its whole plan; approvals, removals, health, cursor, budget and counters are those of the prefix that was requested |
| `ModelUpdate.ValidationHealthStep` | controller/channel_upstream_update.go:833-947 | a run, completed or cancelled, whatever pruning and the cap drop, changes the health map by at most one failure per conclusive fault |
| `ModelUpdate.RecordedWithinStreak` | controller/channel_upstream_update.go:960-1074 | recorded failures never exceed the faults since the last success, over any life of a channel |
| `ModelUpdate.RemovalNeedsThreshold` | controller/channel_upstream_update.go:833-947 | a removal needs the threshold's worth of faults since the last success |
| `ModelUpdate.StreakRuns` | controller/channel_upstream_update.go:960-1046 | a streak of n faults happened in n different runs with no success from the first of them on |
| `ModelUpdate.NothingServedNothingRemoved` | controller/channel_upstream_update.go:846-853 | a run that only requests names the channel does not serve removes nothing |
| `ModelUpdate.CheckChannel` | controller/channel_upstream_update.go:1076-1152 | what passed is added, what was decided is removed and the mapping gains the entries of what was added, or everything stays staged; the list is what the rewritten column reads as |
| `ModelUpdate.UnvalidatedCheckAdopts` | controller/channel_upstream_update.go:1123-1139 | a check that applies without validating is one adoption in list and mapping |
| `ModelUpdate.NextCheckExactly` | controller/channel_upstream_update.go:1123-1139 | so what the next check finds is decided by those two conditions on the list, the mapping and the upstream before it, and it finds nothing new without commas and clashes |
| `ModelUpdate.RereadKeeps` | controller/channel_upstream_update.go:1136-1139 | reading the rewritten column again loses none of the names served before |
| `ModelUpdate.TargetModerate` | controller/channel_upstream_update.go:1123-1139 | the rewritten list loses at most half of the served models and is not emptied |
| `ModelUpdate.CheckIsStep` | controller/channel_upstream_update.go:1076-1152 | whatever a check does, each model it drops had a conclusive fault that brought its record up to the threshold, and the check was allowed to remove |
| `ModelUpdate.RunChecks` | controller/channel_upstream_update.go:1076-1152 | any number of checks in a row is a history of such steps |
| `ModelUpdate.EveryRemovalWasEarned` | controller/channel_upstream_update.go:833-947 | over any number of checks, a model that leaves the list had the threshold's worth of faults since its last success, one per run |
| `ModelUpdate.NeverEmptied` | controller/channel_upstream_update.go:782-826 | over any number of checks a channel with models keeps some |
| `ModelUpdate.SweepHealthStep` | model/channel_settings_mutate.go:112-136 | the single failure recorded for a swept-out model stays within its faults |
| `Sweep.ProbeModel` | controller/channel_model_sweep.go:217-266 | the verdict of one goroutine is the fold over first probe and other keys |
| `Sweep.OpinionMeaning` | controller/channel_model_sweep.go:232-260 | on a multi-key channel a Fail means every enabled key failed; uncancelled, exactly then, and a Pass exactly when some key passed |
| `Sweep.TestGroup` | controller/channel_model_sweep.go:217-269 | a group holds one such verdict per model |
| `Sweep.BuildItems` | controller/channel_model_sweep.go:312-329 | served models first, then new candidates, no name twice; only a new stripped candidate is probed under its upstream id |
| `Sweep.FirstPass` | controller/channel_model_sweep.go:334-375 | unless it finds the context done, exactly the first min(items, budget) items, for every group size, each paid for once |
| `Sweep.RetryPass` | controller/channel_model_sweep.go:376-403 | only unresolved verdicts, each at most once; thorough unless the budget runs out or the context is done |
| `Sweep.RunPasses` | controller/channel_model_sweep.go:333-403 | probes never exceed the budget, which is never negative; a resolved verdict is never probed again nor overwritten; with budget to spare every verdict is the first that resolved |
| `Sweep.ComputeSwept` | controller/channel_model_sweep.go:172-202 | removed, added and remaining names by verdict, in order |
| `Sweep.CountOutcome` | controller/channel_model_sweep.go:404-415 | unverified, incomplete and inconclusive are what the final verdicts say |
| `Sweep.SweepOutcome` | controller/channel_model_sweep.go:172-202 | removed exactly on Fail, adopted exactly on Pass; removed, added and unverified are pairwise disjoint, and every unverified served model is kept in order |
| `SweepChannel.FindCandidates` | controller/channel_model_sweep.go:286-310 | pending additions under active aliases only, plus models removed earlier; a failed fetch leaves only the latter |
| `SweepChannel.SweepModels` | controller/channel_model_sweep.go:276-456 | a sweep whose context is done at the end changes nothing; any other was never cancelled, removes a model only when every enabled key failed for it in one round, and with budget to spare removes and adopts by the first resolved verdict of every model |
| `SweepChannel.SweepWithinStreak` | model/channel_settings_mutate.go:112-136 | for every trimmed name, what a sweep records on the raw columns never runs ahead of the evidence, so later checks still need the rest of their threshold |
| `SweepChannel.PaddedNameRecorded` | model/channel_settings_mutate.go:130-136 | a name with white space around it is recorded with one failure by every sweep, whatever was found out |
| `SweepChannel.ChecksSeeVisible` | controller/channel_upstream_update.go:960-1074 | a check is the same legal step on the trimmed names alone, so such records play no part in it |
| `Relay.PingAwareWriter.Write` | controller/relay.go:585-592 | a write that is exactly one ping frame is counted as a ping, any other as data |
| `Relay.PingAwareWriter.WriteString` | controller/relay.go:594-599 | the same for strings |
| `Relay.PingAwareWriter.Happen` | controller/relay.go:572-612 | the writer follows the wire through bypasses, flushes and hijacks |
| `Relay.StepAccounted` | controller/relay.go:572-612 | whatever happens to the connection, counters and ledger account for every byte: what counted pings fell short of, what went around the wrapper, what was sent after a hijack |
| `Relay.OnlyPingsExactly` | controller/relay.go:607-612 | onlyPingsWritten accepts exactly when as many bytes went around the wrapper as counted pings fell short of; and when none fell short, the wire holds just those pings if and only if nothing was sent after a hijack |
| `Relay.HijackFoolsTheCheck` | controller/relay.go:610-612 | a hijack after a ping lets raw payload pass the check |
| `Relay.LostPingFoolsTheCheck` | controller/relay.go:610-612 | a ping that was not sent and eight bytes around the wrapper pass it too |
| `Relay.LatePingFoolsTheCheck` | controller/relay.go:610-612 | so do eight bytes around the wrapper, a hijack, and a ping that goes nowhere |
| `Relay.RunAttempt` | controller/relay.go:350-457 | one handler call, whatever it writes; the loop goes on exactly when shouldRetry says so |
| `Relay.RetriedWireExactly` | controller/relay.go:302-458 | what is on the wire when a handler is called again, exactly, for any handlers |
| `Relay.PayloadIsNeverJoined` | controller/relay.go:302-458 | with complete writes and no hijack everything on the wire before the last handler call is pings |
| `Relay.RelayLoop` | controller/relay.go:302-458 | for any handlers the loop stops at the first attempt that is not retried and reports its error; with complete writes and no hijack payload of two attempts is never joined; a connection upgraded before the loop is never retried; running out of channels does not hide the last error |
| `TaskRelay.TaskResponseWriter.Apply` | controller/task_response_writer.go:13-44 | header, status, body and written flag after each call |
| `TaskRelay.TaskResponseWriter.Size` | controller/task_response_writer.go:24-29 | -1 until something was written, else the buffered length |
| `TaskRelay.StatusExactly` | controller/task_response_writer.go:30-43 | the status is the last one set before the first write |
| `TaskRelay.BodyExactly` | controller/task_response_writer.go:36-43 | the body is everything written, in order |
| `TaskRelay.ClientWriter.Commit` | controller/relay.go:997-1004 | the buffered header replaces the downstream one, then status and body go out |
| `TaskRelay.ClientWriter.SendError` | controller/relay.go:1021-1029 | an error leaves every downstream header as it was |
| `TaskRelay.Submit` | controller/relay.go:883-949 | the loop stops at the first attempt that is not retried, with that attempt's ending; a success hands on exactly what that attempt buffered |
| `TaskRelay.RelayTask` | controller/relay.go:861-1005 | adaptor output reaches the client only after the insert and exactly as the one accepted attempt buffered it; failed runs leave only the rendered error; Refund once, exactly when no row was inserted or a panic follows the insert |
| `PriceDiff.BuildDifferences` | controller/ratio_sync.go:536-696 | the passes together compute the specified table |
| `PriceDiff.LoudExactly` | controller/ratio_sync.go:656-665 | a channel counts as differing if and only if it differs somewhere with a value that is neither null nor "same" |
| `PriceDiff.SurvivesExactly` | controller/ratio_sync.go:536-696 | an entry survives all passes if and only if some channel differs there and some channel that counts as differing anywhere is not shown as the same there; nulls and the word "same" included |
| `PriceDiff.SurvivesOnCleanInputs` | controller/ratio_sync.go:536-696 | without nulls and the word "same" that is: if and only if some channel's value differs from the local one or the local one is missing |
| `PriceDiff.RowListsSpeakingChannels` | controller/ratio_sync.go:667-694 | a surviving entry lists exactly the channels that count as differing, with what is shown for each and its confidence |
| `PriceDiff.NullVanishes` | controller/ratio_sync.go:656-690 | a null for a configured price disagrees and is not reported |
| `PriceDiff.SameVanishes` | controller/ratio_sync.go:656-690 | a value that reads "same" is not reported |
| `ModelsDev.Build` | controller/ratio_sync.go:845-879 | which cost records make a candidate, and that every valid price is carried over as it is |
| `ModelsDev.SelectCandidates` | controller/ratio_sync.go:915-944 | the nested loops compute the selection for providers in sorted order |
| `ModelsDev.SortedUnique` | controller/ratio_sync.go:915-919 | sorting gives one list whatever order the map was enumerated in |
| `ModelsDev.SelectionIsDeterministic` | controller/ratio_sync.go:915-944 | so the selection does not depend on map order |
| `ModelsDev.SelectedPrice` | controller/ratio_sync.go:881-944 | the selected price is less than 1e-9 above every valid non-zero candidate, although the tolerance is not transitive |
| `ModelsDev.SelectedNonZeroExactly` | controller/ratio_sync.go:881-944 | it is non-zero if and only if some valid candidate is |
| `ModelsDev.PickOfFree` | controller/ratio_sync.go:881-893 | among free candidates the first provider wins |
| `ModelsDev.CheapestInEveryOrder` | controller/ratio_sync.go:881-893 | the fold ends on the cheapest price in every order if and only if no other price lies less than 1e-9 above it |
| `ModelsDev.CheapestForEveryNaming` | controller/ratio_sync.go:881-944 | so every catalogue with these prices, whatever its providers are called, has the cheapest selected under the same condition |
| `Ogg.OpusGranule` | common/audio.go:204-249 | the scan ends on every byte string and agrees with its specification |
| `Ogg.SkipPage` | common/audio.go:228-248 | granule position and next offset of a page, from its header and segment table |
| `Ogg.GranuleRoundTrip` | common/audio.go:228-232 | a signed 64-bit granule position survives its little-endian form |
| `Ogg.PageFields` | common/audio.go:204-249 | what the scanner reads at a page that section 6 of RFC 3533 lays out |
| `Ogg.ScansEveryPage` | common/audio.go:204-249 | on any well-formed pages, after any prefix without a capture pattern: exactly the page boundaries, and the larger of 0 and the greatest granule position |
| `Ogg.HighestIsMaximum` | common/audio.go:229-232 | that value is an upper bound and is attained |
| `Ogg.BoundariesAreStarts` | common/audio.go:204-249 | the k-th boundary is the length of everything in front of page k |
| `BodyStorage.MemoryStorage.Read` | common/body_storage.go:47-54 | bytes, end of data and position |
| `BodyStorage.MemoryStorage.Seek` | common/body_storage.go:56-63 | the new position, or an error that changes nothing |
| `BodyStorage.MemoryStorage.Bytes` | common/body_storage.go:74-81 | all bytes until closed; the position does not move |
| `BodyStorage.DiskStorage.constructor` | common/body_storage.go:100-167 | everything written, rewound to the start |
| `BodyStorage.DiskStorage.Read` | common/body_storage.go:169-176 | bytes, end of data and position |
| `BodyStorage.DiskStorage.Seek` | common/body_storage.go:178-185 | the new position, or an error that changes nothing |
| `BodyStorage.DiskStorage.Bytes` | common/body_storage.go:198-230 | all bytes, and the file offset is back where it was |
| `BodyStorage.CreateBodyStorage` | common/body_storage.go:241-259 | disk or memory by the settings, falling back to memory; either way the bytes from position 0 |
| `BodyStorage.CreateFromReader` | common/body_storage.go:262-303 | the whole body from position 0 if and only if it arrives, is within the limit and the file it must stream to can be created; otherwise which error |
| `BodyStorage.BackendsDifferExactly` | common/body_storage.go:47-185 | one read tells the backends apart if and only if it asks for nothing at the end of an open storage |
| `BodyStorage.BackendsIndistinguishable` | common/body_storage.go:47-230 | a sequence of reads, seeks and Bytes calls tells the backends apart if and only if some step reads nothing at the end of an open storage |
| `RequestBody.RequestContext.GetBody` | common/gin.go:37-91 | a held storage is rewound, else the older cache, else the sticky error, else the request's body is read |
| `RequestBody.RequestContext.Clean` | common/gin.go:107-114 | the storage is closed and its key cleared |
| `RequestBody.FirstFetchExactly` | common/gin.go:60-90 | unless a file is needed and cannot be created, the first read of a body that arrives succeeds if and only if its length is within the limit |
| `RequestBody.FullBodyUntilCleanup` | common/gin.go:37-91 | until the next cleanup every fetch gets the whole body of the first at position 0, and the request's body is not read again |
| `RequestBody.ErrorIsSticky` | common/gin.go:61-65 | a failed read gives the same error for ever, through cleanups and rewrites, until something is cached |
| `RequestBody.FetchAfterCleanup` | common/gin.go:37-114 | once the body was fetched, a fetch behind a cleanup gets the last cached body if there is one; otherwise it gets bytes if and only if no fetch failed and the last rewrite is unread and can be taken in, and then exactly that rewrite |
| `RequestBody.NotReadTwice` | common/gin.go:60-90 | without a cached or rewritten body, the body off the connection cannot be had again through a cleanup |
| `RequestBody.NothingToRead` | common/gin.go:60-90 | a request without a body gives the empty body to every fetch, cleanups or not |
| `RequestBody.RewriteIsSeen` | middleware/kling_adapter.go:47-51 | after a cleanup a cached rewrite is what every fetch gets |
| `RequestBody.RewriteIsHidden` | middleware/kling_adapter.go:47-51 | without the cleanup it would not be |
| `RequestBody.ReadsBounded` | common/gin.go:37-114 | the request's body is read at most once between cleanups |
| `RequestBody.Handle` | common/gin.go:37-163 | any interleaving of fetches, reads, seeks, Bytes calls, cleanups, cached and rewritten bodies follows that state machine, step by step |
| `RequestBody.TranscribedAt` | common/gin.go:37-114 | so what any step showed is explained by the state all steps before it lead to |

## Left out

- SurvivesExactly: assumes distinct channel names, as the caller makes them by appending the channel id.
- RotationFairExactly: for runs without candidates and due failures and with one fixed budget; with enough budget for all of them RotationReachesEveryModel holds for any runs.
- RotationReachesEveryModel: the spacing of retries is not claimed, because the rotation may pick a model that is still cooling down.
- HTTP handlers, JSON binding, database rows and locks, Redis, notifications and the minimum check interval.
- Channel selection, scoring, cooldown, billing sessions and the retry counter of both relay loops; attempts are a script of any length.
- Key columns that are JSON arrays (Vertex AI), per-key environments and fingerprints, polling, and the channel-wide status that follows from the keys.
- The text markers that classify a probe or a validation error; verdicts are oracles.
- Goroutines inside a sweep group and between validation workers; a group is one step, and another worker taking the shared budget is a stop.
- The error text in a health record, and the order among records with the same failure time when the cap drops some.
- Normalizing a raw pricing value, OpenRouter conversion, rounding, and floating-point error; prices are reals.
- The nested difference map is one map on pairs of model and field.
- Partial reads of an audio file; the duration's division by 48000.
- The shared slice that a memory body hands out, write errors of the temporary file, a connection that breaks after the size limit was passed, and disk usage counters.
- A limiter key used with several maxima or durations, which its queue cannot represent.
