# Verified model of the gateway's stateful core

An LLM gateway forwards requests to upstream channels, keeps their keys, models and prices up to date, and
bills its users. This project models the parts of it that hold state or carry an algorithm, and proves what
they guarantee over every input, every run and every interleaving. `dafny verify dfyconfig.toml` checks all of it.

| file | part of the gateway |
|---|---|
| `OrderLock.dfy` | the reference-counted mutex per order, as an interleaving system of any number of threads |
| `TopUpCredit.dfy`, `TopUpEffects.dfy` | crediting of Epay orders on top of that lock, with duplicated notifications and failing database calls; what each handler does to an order and its user |
| `UpstreamModels.dfy`, `UpstreamSync.dfy` | model-name lists; detecting upstream model changes and applying a selection of them |
| `ChannelBatches.dfy` | the id-cursor loop over all enabled channels |
| `MultiKey.dfy`, `MultiKeyActions.dfy`, `MultiKeyDeletion.dfy` | channels with many keys: the actions as values, the handlers that run them in place, and the two ways of deleting disabled keys |
| `PricingCandidates.dfy`, `PricingConverters.dfy`, `PricingDiff.dfy` | price synchronisation: the epsilon-tolerant choice, the two converters, the diff |
| `RateLimiter.dfy` | the sliding-window limiter and its janitor |
| `OpusScanner.dfy` | the Ogg page scanner that finds the length of an Opus file |
| `BodyStorage.dfy`, `RequestBody.dfy`, `CacheCounters.dfy` | the replayable request body, its per-request cache, and the usage counters |
| `TaskRelay.dfy`, `TaskChannels.dfy` | the retry and billing loop of asynchronous tasks, with the channel selection over groups; the channel of every round |
| `VerificationCodes.dfy` | the map of verification codes that evicts expired entries |
| `Basics.dfy`, `Text.dfy` | shared vocabulary: filtering, sums, trimming, splitting and joining |

## How to read it

State that the code updates in place is a class; each of its methods is proved equal to a function on values
(`Next`, `Act`, `Detect`, `Fetch`, ...), and the theorems are about that function over whole runs. Concurrent code
is a step function over an explicit state, one shared-memory access per step. Everything outside the modelled code
(the clock, the database, upstream answers, file-system failures, regular-expression matching) is a parameter. Lemmas
carry `{:induction false}`: every induction is written out.

Some properties that the design suggests do not hold of the code. The model follows the code; for each of
them there is a condition, proved exact where it is stated as an equivalence:

- The limiter treats a limit of 0 as 1, and it is exact only while the duration is at most one second more than the
  whole seconds of the expiration (`LimiterIsExact`, `LongDurationOverflows`).
- A model name with a comma that is added is split when it is stored, so that it is offered again; a name beginning with
  `regex:` that is ignored becomes a pattern, which need not match the name itself and may match others
  (`ApplyKeepsSync`, `ApplyKeepsSyncPlain`, `CommaNameIsDetectedForEver`, `IgnoringOneRegexName`).
- Deleting all automatically disabled keys when every key is one deletes none and enables all of them (`DeleteAllComesBack`).
- A report that a key works again leaves its old disable time and reason behind, and from then on
  `delete_disabled_keys` is not a sequence of `delete_key` (`ActTidy`, `NamedDeletionsAgree`).
- Blank keys, which creating a channel can store, are lost when an action brings them to an end of the list; the states
  then belong to other keys (`ActRefines`, `ActStores`, `DeleteKeyNeedsNonBlankEnds`).
- With blank keys `delete_disabled_keys` can differ from `delete_key` used on each disabled key: if only blank keys survive,
  the first deletes nothing or all but one blank key, and the second leaves the first key (`DeleteDisabledIsDeleteOneByOne`,
  `BlankSurvivorDiffers`).
- An empty read at the end of a body is an end of file in memory and a success on disk (`ObservationallyEqual`).
- A request body rewritten through the older context entry (as in `middleware/kling_adapter.go`, line 49) is not seen once the body has
  been read (`RewritesAreNotDelivered`).
- Upstream prices that are JSON null or the text "same" can disappear from the price diff (`ReportedMeaning`, `MarkerValueIsLost`, `NullValueIsLost`).
- The cheapest-provider choice depends on the providers being sorted (`SelectIsCheapest`, `UnsortedFoldDrifts`).
- A task can be tried `RetryTimes + 1` times in every group the selection moves through, and when the last group is used up
  the upstream's error is replaced by a local one; a negative `RetryTimes` crashes the handler (`RetryTimesPlusOneExactly`,
  `GroupsMultiplyAttempts`, `SettleOrRefundOnce`). The comment in `service/channel_select.go`, lines 70-82, describes one retry
  count running through all groups; the code starts again from 0 in each, and the model follows the code.

## Model

| member | source | states |
|---|---|---|
| OrderLock.StepInv | controller/topup.go:273-304 | every step of any thread keeps the invariant: a reference count is the number of engaged threads, and each engaged thread's mutex is the one in the table |
| OrderLock.ExecInv | controller/topup.go:273-304 | the invariant holds after every schedule of any number of threads |
| OrderLock.MutualExclusion | controller/topup.go:273-304 | in every interleaving at most one thread is between LockOrder(k) returning and its UnlockOrder(k) releasing |
| OrderLock.KeyOfTheCall | controller/topup.go:273-304 | in every interleaving the order a thread works on is the one of the LockOrder call, made when it was idle, since which it has not been idle |
| OrderLock.LookupFindsOwnMutex | controller/topup.go:289-296 | the lookup made without createLock finds the object this thread locked, the unlock releases its own mutex, and no free mutex is unlocked |
| OrderLock.CountsAreExact | controller/topup.go:273-304 | refCount is the number of engaged threads, and outside the createLock sections an entry exists exactly for orders with an engaged thread |
| OrderLock.QuiescentTableIsEmpty | controller/topup.go:297-303 | when all threads are idle the lock table is empty |
| OrderLock.DeadlockFree | controller/topup.go:273-304 | whenever a thread is unfinished some thread can step |
| OrderLock.AdvanceReducesWork | controller/topup.go:273-304 | every step brings the system strictly nearer to all threads being idle |
| OrderLock.Progress | controller/topup.go:273-304 | while work is left some thread makes progress and the invariant stays |
| OrderLock.Drain | controller/topup.go:273-304 | from every reachable state the engaged threads can all finish, within the remaining work, and leave the table empty |
| TopUpCredit.NextInv | controller/topup.go:369-404 | every event (order creation, lock step, database call that works or fails, administrator completion) keeps the crediting invariant |
| TopUpCredit.RunInv | controller/topup.go:369-404 | the lock invariant and the crediting invariant hold after every run |
| TopUpCredit.CreditedAtMostOnce | controller/topup.go:369-404 | no order is credited twice; a credit belongs to a paid order, its user and its amount |
| TopUpCredit.NextWrites | controller/topup.go:369-404 | an event changes an Epay order only from pending to success, under its lock, and never its user or amount |
| TopUpCredit.OrderWrites | controller/topup.go:369-404 | the same in every reachable state |
| TopUpCredit.QuotaIsSumOverSettledOrders | controller/topup.go:386-401 | in every reachable state a user's quota is the sum of Amount x QuotaPerUnit over the successful orders, without those whose quota update failed or is in flight |
| TopUpCredit.QuotaIsSumOverPaidOrders | controller/topup.go:386-401 | the corollary for runs in which no quota update failed and none is in flight: the sum over all successful orders |
| TopUpCredit.CreditSumIsSetSum | controller/topup.go:386-401 | the history of credits sums to the sum over the set of credited orders |
| TopUpEffects.QuotaToAddMeaning | controller/topup.go:394-396 | the quota is Amount x QuotaPerUnit with its fraction cut off, as an inequality on reals, for either sign |
| TopUpEffects.NotificationCredits | controller/topup.go:369-404 | in every reached state, under the lock of a pending Epay order, the three working calls of a notification leave the order successful with the notified method, one more credit and the user's quota grown by the amount's worth, and change nothing else |
| TopUpEffects.NotificationSettles | controller/topup.go:369-404 | the same with any events of others in between and afterwards: the order is and stays successful and its credit is there |
| TopUpEffects.HandlersWithoutEffect | controller/topup.go:372-392 | without a pending order, or when reading or saving fails, no order, quota or credit changes |
| TopUpEffects.CompletionCredits | model/topup.go:333-378 | a completion that works marks the pending order and credits its user in one step, the payment method unchanged |
| TopUpEffects.MissedMeaning | controller/topup.go:397-401 | in every run an order has missed its quota exactly if some event of the run was a failing quota increase under its lock |
| TopUpEffects.QuotaWhenAllCallsWork | controller/topup.go:369-404 | when no database call of a run failed and all handlers have returned, a user's quota is the sum over all of the user's successful orders |
| TopUpEffects.CreatedAndPaid | controller/topup.go:273-404 | from every reached state with idle threads, creating an order, locking it and notifying its payment leaves it successful and its user credited |
| Text.ReadJoin | model/channel.go:83-105 | a list of separator-free names stored as text reads back unchanged exactly when its first and last names are not empty |
| Text.ReadJoinStrip | model/channel.go:83-105 | what is read back of any separator-free parts: all but the blank ones at the ends |
| Text.ReadListEnds | model/channel.go:83-105 | a list that is read never begins or ends with a blank, unless it is a single blank |
| Text.SplitJoin | model/channel.go:83-105 | splitting undoes joining for separator-free parts |
| Text.TrimMeaning | controller/channel_upstream_update.go:97-102 | trimming takes away exactly the longest prefix and the longest suffix of matching characters |
| UpstreamModels.NormalizeNormal | controller/channel_upstream_update.go:97-102 | a normalised list is trimmed, without blanks and duplicates |
| UpstreamModels.NormalizeFixed | controller/channel_upstream_update.go:97-102 | normalising a normal list changes nothing |
| UpstreamModels.NormalizeMembers | controller/channel_upstream_update.go:97-102 | the normalised names are exactly the non-empty trimmed forms of the given ones |
| UpstreamModels.NormalizePrefix | controller/channel_upstream_update.go:97-102 | names stand in the order of their first occurrence: normalising a prefix gives a prefix |
| UpstreamModels.AppendUnseen | controller/channel_upstream_update.go:104-118 | the loop with the seen set appends the names of the second list that are not in the first, once each, in order |
| UpstreamModels.MergeModelNames | controller/channel_upstream_update.go:104-118 | the merge loop computes the merged list |
| UpstreamModels.MergeMeaning | controller/channel_upstream_update.go:104-118 | for all inputs: the normalised base first, then the appended names it does not have, in their order |
| UpstreamModels.MergeNormal | controller/channel_upstream_update.go:104-118 | for all inputs the merged list is trimmed, without blanks and duplicates |
| UpstreamModels.SubtractMeaning | controller/channel_upstream_update.go:120-129 | for all inputs: the normalised names of base that are not removed, in their order |
| UpstreamModels.IntersectMeaning | controller/channel_upstream_update.go:131-140 | for all inputs: the normalised names of base that are allowed, in their order |
| UpstreamModels.ApplySelectedMeaning | controller/channel_upstream_update.go:142-147 | for all inputs and in this order: the original names that are not removed or are added again, then the new names |
| UpstreamModels.PendingMeaning | controller/channel_upstream_update.go:176-235 | the pending lists are the upstream names that may be added and the local names that may be removed, in their own order |
| UpstreamModels.RemovalOffered | controller/channel_upstream_update.go:225-233 | a name is offered for removal exactly if it is local, not upstream, and no redirect starts at it |
| UpstreamModels.AdditionOffered | controller/channel_upstream_update.go:209-224 | a name is offered for addition exactly if it is upstream, not local, the target of no redirect, and no ignore rule is this name or a regex: pattern that matches it |
| UpstreamModels.StoredAsPieces | controller/channel_upstream_update.go:802-806 | a list stored as text is read back as the comma-separated pieces of its names |
| UpstreamModels.PiecesAppend | controller/channel_upstream_update.go:802-806 | names added to a storable list are read back as that list and then their new pieces |
| UpstreamSync.ChannelRecord.constructor | controller/channel_upstream_update.go:360-407 | the record holds the given channel |
| UpstreamSync.ChannelRecord.CheckAndPersist | controller/channel_upstream_update.go:360-407 | the method performs exactly one detection, or nothing within the minimum interval, or notes the time of a failed fetch |
| UpstreamSync.ChannelRecord.ApplyUpdates | controller/channel_upstream_update.go:780-828 | the method performs exactly Apply on the stored record |
| UpstreamSync.DetectInSync | controller/channel_upstream_update.go:360-407 | after every detection the stored pending lists are those a new one would compute, unless an automatic addition has a comma |
| UpstreamSync.NextModelsMeaning | controller/channel_upstream_update.go:796-806 | the models after applying, order included |
| UpstreamSync.NextIgnoredMeaning | controller/channel_upstream_update.go:808-811 | the ignore list after applying: the old and the newly ignored names without the added ones |
| UpstreamSync.RemovalsCommute | controller/channel_upstream_update.go:799-815 | the remaining removals are those a new detection finds, order included, exactly when no piece of an added name is removable |
| UpstreamSync.AdditionsCommute | controller/channel_upstream_update.go:796-814 | the remaining additions are those a new detection finds, order included, exactly when every upstream name is treated as selected, a condition on the request and the stored rules |
| UpstreamSync.ApplyKeepsSync | controller/channel_upstream_update.go:780-828 | detecting and applying commute, for every selection whatever, exactly under these two conditions, both known before the call |
| UpstreamSync.ApplyKeepsSyncCommaFree | controller/channel_upstream_update.go:780-828 | without commas, exactly when an ignored name keeps a rule and any other is covered by a newly ignored rule just if it is itself ignored |
| UpstreamSync.PlainNamesAgree | controller/channel_upstream_update.go:210-224 | the rules agree whenever no selected name begins with regex: |
| UpstreamSync.ApplyKeepsSyncPlain | controller/channel_upstream_update.go:780-828 | without such names, detect and apply commute if and only if no added name has a comma |
| UpstreamSync.AddWinsOverIgnore | controller/channel_upstream_update.go:796-815 | a name without a comma that is selected for both is stored, not ignored, and no longer pending |
| UpstreamSync.StillDetected | controller/channel_upstream_update.go:812-814 | for every channel and request: what stays pending for addition is what is neither added nor ignored |
| UpstreamSync.StillRemoved | controller/channel_upstream_update.go:799-815 | what stays pending for removal is what is not removed, or added as well |
| UpstreamSync.StillIgnored | controller/channel_upstream_update.go:808-811 | the rules afterwards are the old ones and the pending names that are ignored, without those that are added |
| UpstreamSync.NextModelsMembers | controller/channel_upstream_update.go:796-806 | the models afterwards are the local ones that are not removed and the pending ones that are added; the stored text is theirs |
| UpstreamSync.DetectMeaning | controller/channel_upstream_update.go:376-396 | a detection stores its findings, or with auto-sync appends all of them to the models and counts them, and touches neither rules nor switch |
| UpstreamSync.ApplyAllFixedPoint | controller/channel_upstream_update.go:847-926 | applying everything leaves nothing pending; it is a fixed point of detecting and applying exactly when that selection agrees, for plain names exactly without commas |
| UpstreamSync.AutoSyncInSync | controller/channel_upstream_update.go:384-396 | automatic synchronisation leaves the lists in sync if and only if no added name has a comma |
| UpstreamSync.CommaNameIsDetectedForEver | controller/channel_upstream_update.go:802-815 | every added name with a comma that no newly ignored rule covers leaves the pending list and is offered again by the next detection |
| UpstreamSync.AddingOneCommaName | controller/channel_upstream_update.go:802-815 | adding the name a,b to an empty channel leaves it out of sync |
| UpstreamSync.RegexNameIsNotIgnored | controller/channel_upstream_update.go:214-223 | a name that is ignored and matched by no newly ignored rule, its own pattern included, is offered again by the next detection |
| UpstreamSync.IgnoringOneRegexName | controller/channel_upstream_update.go:214-223 | ignoring one pending name that begins with regex: keeps the lists in sync if and only if its pattern matches it and no other pending name |
| UpstreamSync.IgnoringABrokenPattern | controller/channel_upstream_update.go:214-223 | ignoring the name regex:[, whose pattern matches nothing, leaves the channel out of sync |
| ChannelBatches.EnabledMeaning | controller/channel_upstream_update.go:834-845 | the query returns exactly the enabled channels after the cursor, ascending |
| ChannelBatches.CursorMoves | controller/channel_upstream_update.go:540-608 | moving the cursor to the n-th channel of an answer drops exactly the first n |
| ChannelBatches.NextBatch | controller/channel_upstream_update.go:834-845 | a batch followed by what is after its last id is what was left, and a short batch is the last |
| ChannelBatches.VisitEnabled | controller/channel_upstream_update.go:854-909 | the loop ends and visits every enabled channel exactly once in ascending id order, for any table and batch size |
| MultiKey.ReindexView | controller/channel.go:1560-1607 | re-indexing the three maps with the running index keeps each surviving key's own status, time and reason |
| MultiKey.ActRefines | controller/channel.go:1383-1675 | for every channel, blank keys included: an action on key text, size and maps is the corresponding edit of one list of records, exactly if the keys it leaves can be stored, and then keeps the invariant |
| MultiKey.ActStores | controller/channel.go:1383-1675 | what every action leaves in any case: the edited list with the keys that are read back, the states staying with the positions; the index bound survives exactly if no time or reason lies beyond those keys |
| MultiKey.ReportChangesOne | model/channel.go:577-606 | a report changes exactly one record, the first with the reported key or record 0 when there is none; a report that the key works leaves its time and reason |
| MultiKey.KeyActions | controller/channel.go:1386-1470 | disabling a key sets its status to 2 and keeps its notes, enabling it sets it to 1 and drops them, and no other record changes |
| MultiKey.AllKeysActions | controller/channel.go:1471-1541 | the same for all keys; those already disabled stay as they are |
| MultiKey.AppendAdds | controller/channel.go:876-955 | an append keeps all records and adds an enabled one for each non-blank trimmed line, once each, unless a key is the same but for white space |
| MultiKey.WrittenBound | model/channel.go:460-498 | after keys and maps are written, all indices are below the key count exactly if no time or reason lies beyond the keys that are read |
| MultiKey.NamedRefines | controller/channel.go:1383-1675 | without blank keys every action refines the list and leaves no blank key |
| MultiKey.RunRefines | controller/channel.go:1383-1675 | over every sequence of actions the channel follows the list of records, each key with its own state, exactly as long as the keys each action leaves can be stored; indices then stay below the key count and the size equals it |
| MultiKey.NamedRunRefines | controller/channel.go:1383-1675 | without blank keys this holds for every sequence of actions |
| MultiKey.ActTidy | model/channel.go:577-613 | an action keeps times and reasons for disabled keys only, except exactly a report that re-enables a key with notes |
| MultiKey.RunTidy | controller/channel.go:1404-1519 | over every sequence of actions on every channel in order, all indices stay below the key count and times and reasons exist at disabled positions only, all along, if and only if no report re-enables a key that has them and no action strips blank keys that have them |
| MultiKey.DeleteAllComesBack | controller/channel.go:1623-1675 | deleting disabled keys when all are keeps the key text and enables every key |
| MultiKeyDeletion.DeleteDisabledIsDeleteOneByOne | controller/channel.go:1623-1675 | for every channel with a key to delete and a survivor, blank keys included: the same keys, size and maps as delete_key from the highest disabled index down if and only if a survivor has a name, the survivors up to the last such one have no left-over times and reasons, and the blank keys behind it carry the same ones; and exactly when the stored text is the same too |
| MultiKeyDeletion.RebuildIsWritten | controller/channel.go:1560-1607 | what a deletion stores is determined by the list of records that is left: its text, the count of the keys that are read, statuses pruned to them, times and reasons not |
| MultiKeyDeletion.OnceWrites | controller/channel.go:1623-1675 | delete_disabled_keys writes the copied survivors |
| MultiKeyDeletion.StepsLeave | controller/channel.go:1560-1607 | deleting one by one writes the survivors up to the last one that has a name, or everything before the first deleted name behind it; without such a survivor only the first key is left |
| MultiKeyDeletion.LastKeySurvives | controller/channel.go:1623-1675 | with blank keys or not, if the last key survives the two are equal if and only if no enabled key has a time or reason |
| MultiKeyDeletion.NamedDeletionsAgree | controller/channel.go:1623-1675 | the same without blank keys, whenever a key survives |
| MultiKeyDeletion.BlankSurvivorDiffers | controller/channel.go:601-610 | the keys a, blank, b with the first and last disabled: a tidy channel with a survivor on which the two differ |
| MultiKey.DeleteKeyNeedsNonBlankEnds | controller/channel.go:1560-1607 | with arbitrary keys delete_key drops exactly the chosen record if and only if the remaining list does not begin or end with a blank key |
| MultiKeyActions.MultiKeyChannel.constructor | model/channel.go:460-498 | the record holds the given channel |
| MultiKeyActions.MultiKeyChannel.Update | model/channel.go:460-498 | an empty key text falls back to the stored one, the size is recounted and status entries beyond it are dropped |
| MultiKeyActions.MultiKeyChannel.DisableKey | controller/channel.go:1386-1428 | is the disable action, refused out of range |
| MultiKeyActions.MultiKeyChannel.EnableKey | controller/channel.go:1429-1470 | is the enable action, refused out of range |
| MultiKeyActions.MultiKeyChannel.EnableAllKeys | controller/channel.go:1471-1494 | is the enable-all action |
| MultiKeyActions.MultiKeyChannel.DisableAllKeys | controller/channel.go:1495-1541 | is the disable-all action, refused when nothing is enabled |
| MultiKeyActions.MultiKeyChannel.DeleteKey | controller/channel.go:1542-1621 | is the delete action, refused for the last key |
| MultiKeyActions.MultiKeyChannel.DeleteDisabledKeys | controller/channel.go:1622-1675 | is the delete-disabled action with the number of deleted keys |
| MultiKeyActions.MultiKeyChannel.Append | controller/channel.go:876-955 | is the append action: new keys trimmed, without blanks, duplicates and known keys |
| MultiKeyActions.MultiKeyChannel.Report | model/channel.go:577-613 | is the status report for the key in use |
| MultiKeyActions.DisableLoop | controller/channel.go:1507-1519 | the loop disables exactly the enabled positions |
| MultiKeyActions.CompactLoop | controller/channel.go:1560-1607 | the loop with the running newIndex yields the remaining keys and the re-indexed maps |
| MultiKeyActions.NewKeysLoop | controller/channel.go:919-947 | the loop over the seen map yields the new keys |
| PricingCandidates.BuildCandidate | controller/ratio_sync.go:845-879 | a candidate exists exactly for usable costs, carries the given input cost, and no negative output or cache price |
| PricingCandidates.SelectIsCheapest | controller/ratio_sync.go:881-893 | over sorted providers the fold picks a non-zero candidate if one exists, less than one epsilon above the true non-zero minimum |
| PricingCandidates.UnsortedFoldDrifts | controller/ratio_sync.go:881-893 | in descending order three near-equal steps drift by more than an epsilon |
| PricingCandidates.SelectIsBest | controller/ratio_sync.go:881-893 | with costs equal or an epsilon apart the fold gives the cheapest, lexicographically first provider |
| PricingCandidates.OrderDoesNotMatter | controller/ratio_sync.go:881-893 | with such costs any order of the same candidates gives the same one |
| PricingConverters.ConvertOpenRouter | controller/ratio_sync.go:744-793 | the conversion loop computes the three maps |
| PricingConverters.OpenRouterMeaning | controller/ratio_sync.go:744-793 | with distinct ids each entry decides its own ratios and nothing else appears |
| PricingConverters.OpenRouterSkips | controller/ratio_sync.go:744-774 | an entry is skipped exactly if no price is readable, one is negative, or only the completion costs; a free model has ratio 0 and no other |
| PricingConverters.SortedKeys | controller/ratio_sync.go:915-919 | the keys in sort.Strings order |
| PricingConverters.CandidatesMeaning | controller/ratio_sync.go:915-944 | the candidates of a model come in ascending provider order with non-negative costs |
| PricingConverters.CandidatesMembers | controller/ratio_sync.go:922-944 | a candidate is considered exactly if it is the usable offer of one of the providers |
| PricingConverters.ConsiderProvider | controller/ratio_sync.go:922-944 | considering one provider's models extends the fold by that provider, for every model |
| PricingConverters.Project | controller/ratio_sync.go:950-973 | the chosen candidates become the three maps |
| PricingConverters.ConvertModelsDev | controller/ratio_sync.go:906-985 | the result holds, for every model, the ratios of the fold over all providers in sorted order, or there is no usable price |
| PricingConverters.ProviderOrderUnique | controller/ratio_sync.go:915-919 | there is one sorted provider order, so the catalogue alone decides the result |
| PricingConverters.ModelsDevPicksCheapest | controller/ratio_sync.go:915-944 | each model's price is one of its providers', cheapest up to one epsilon |
| PricingConverters.CheapestPriceReported | controller/ratio_sync.go:906-985 | the ratio of a model exceeds half of no provider's price by more than rounding and half an epsilon, and is half of some provider's price up to rounding |
| PricingConverters.SameRatio | controller/ratio_sync.go:744-793 | one price quoted per token or per million tokens gives one ratio, free, zero-prompt and negative prices included |
| PricingConverters.ConvertersAgree | controller/ratio_sync.go:954-972 | for the same prices the two converters return identical maps |
| PricingConverters.RoundError | controller/ratio_sync.go:698-700 | a rounded ratio is within 5e-7 of the exact one |
| PricingConverters.ProductError | controller/ratio_sync.go:698-700 | the product of two rounded ratios is within 5e-7 times the sum of the exact ones plus 2.5e-13 |
| PricingConverters.EmittedRatios | controller/ratio_sync.go:777-790 | both bounds hold of the model and completion ratios that OpenRouter prices give |
| PricingConverters.EmittedCacheRatio | controller/ratio_sync.go:785-792 | the cache ratio exists exactly for a non-negative cache price and is within 5e-7 |
| PricingConverters.EmittedByModelsDev | controller/ratio_sync.go:954-972 | model, completion and cache ratio of models.dev prices are within 5e-7 and the product within its bound; a free model gets exactly zero |
| PricingDiff.Confidence | controller/ratio_sync.go:561-591 | only the placeholder pair 37.5 and 1 is untrusted |
| PricingDiff.Compare | controller/ratio_sync.go:605-631 | what one channel shows for a field: its value, the marker, or nothing, and whether that is a difference |
| PricingDiff.BuildItem | controller/ratio_sync.go:594-642 | the channel loop: the row over all channels and whether the pair is listed |
| PricingDiff.BuildTable | controller/ratio_sync.go:593-654 | before pruning exactly the pairs with a difference, or with a value and no local one, are listed |
| PricingDiff.ChannelsWithDiff | controller/ratio_sync.go:656-665 | the names of the channels that show a value somewhere |
| PricingDiff.Prune | controller/ratio_sync.go:667-693 | exactly the pairs survive that still show something other than the marker, with exactly the kept channels, and no empty model |
| PricingDiff.BuildDifferences | controller/ratio_sync.go:536-696 | lists a pair if and only if it is reported, with the local value, the value and the trust of exactly the channels that differ somewhere |
| PricingDiff.ReportedMeaning | controller/ratio_sync.go:536-696 | with distinct names a pair is reported exactly when a channel shows a value for it, or a value is hidden and a differing channel has none |
| PricingDiff.ReportedWhenClean | controller/ratio_sync.go:536-696 | without null and marker values: reported if and only if some channel has a value and local is absent or not nearly equal |
| PricingDiff.NumberReported | controller/ratio_sync.go:55-62 | with a local number, reported exactly if some channel has a number a billionth or more away, or a value that is no number |
| PricingDiff.OtherReported | controller/ratio_sync.go:605-693 | with a local text or flag, reported exactly if some channel has anything else; with no local value, exactly if some channel has one |
| PricingDiff.EntryMeaning | controller/ratio_sync.go:605-696 | what a reported entry shows for each listed channel (its value, the marker, nil) and whether its prices are the placeholder 37.5 and 1 |
| PricingDiff.ListedWhenClean | controller/ratio_sync.go:656-665 | without such values the listed channels are exactly those with a genuine difference somewhere |
| PricingDiff.PruningKeepsVisible | controller/ratio_sync.go:667-693 | pruning never removes a pair for which a channel shows a value |
| PricingDiff.MarkerValueIsLost | controller/ratio_sync.go:605-693 | a differing value that is the text "same" is listed before pruning and not reported |
| PricingDiff.NullValueIsLost | controller/ratio_sync.go:605-693 | the same for a JSON null |
| RateLimiter.InMemoryRateLimiter.constructor | common/rate-limit.go:14-26 | an empty store |
| RateLimiter.InMemoryRateLimiter.Request | common/rate-limit.go:45-70 | the decision and the new queue of one request |
| RateLimiter.InMemoryRateLimiter.ClearExpiredItems | common/rate-limit.go:28-42 | the sweep deletes exactly the idle keys |
| RateLimiter.DecisionIsExact | common/rate-limit.go:45-70 | the bounded queue decides as the full log of accepted requests would |
| RateLimiter.RunInv | common/rate-limit.go:28-70 | after every run the queue is the newest part of the log and what it lacks is old |
| RateLimiter.LimiterIsExact | common/rate-limit.go:28-70 | after every run a request is accepted exactly when fewer than the limit of all accepted ones are younger than duration, whatever the janitor did |
| RateLimiter.WindowHoldsAtMostLimit | common/rate-limit.go:28-70 | no window of length duration contains more accepted requests than the limit |
| RateLimiter.LongDurationOverflows | common/rate-limit.go:28-42 | with a longer duration there is a run with a monotone clock after which one request too many is accepted |
| OpusScanner.GetOpusDuration | common/audio.go:196-254 | for all bytes the loop ends with the maximum over the pages the scan sees, divided by the sample rate |
| OpusScanner.SumLoop | common/audio.go:241-245 | the page size is the sum of the segment table |
| OpusScanner.LittleEndianRoundTrip | common/audio.go:228-229 | decoding undoes little-endian encoding |
| OpusScanner.MaxGranuleMeaning | common/audio.go:228-232 | the result is zero or reached by a page, and no page exceeds it |
| OpusScanner.EncodeIsFrame | common/audio.go:219-245 | a page in the format of section 6 of RFC 3533 is a frame with its granule position where the scanner reads it |
| OpusScanner.ScanOneFrame | common/audio.go:207-249 | at a frame the scanner takes its granule position and jumps to its end |
| OpusScanner.ScanFrames | common/audio.go:196-254 | on a concatenation of frames it lands on every boundary and on nothing else |
| OpusScanner.ScanStream | common/audio.go:196-254 | for every concatenation of pages, payloads with "OggS" included, it sees exactly the pages and returns the greatest non-negative granule position |
| OpusScanner.ScanAfterGarbage | common/audio.go:219-226 | bytes before the first page in which no pattern begins are skipped |
| OpusScanner.ScanBrokenStream | common/audio.go:207-240 | of a stream that breaks off within a page that page still counts exactly if its 27 bytes of header are complete |
| BodyStorage.MemoryStorage.constructor | common/body_storage.go:37-45 | whole contents at position 0, open |
| BodyStorage.MemoryStorage.Read | common/body_storage.go:47-54 | fills the buffer as the abstract object answers and leaves the rest of the buffer alone |
| BodyStorage.MemoryStorage.Seek | common/body_storage.go:56-63 | moves as the abstract object does, refusing negative positions |
| BodyStorage.MemoryStorage.Bytes | common/body_storage.go:74-81 | the whole contents, or the closed error |
| BodyStorage.MemoryStorage.Size | common/body_storage.go:83-85 | the length of the contents |
| BodyStorage.MemoryStorage.Close | common/body_storage.go:65-72 | closes; again does nothing |
| BodyStorage.DiskStorage.constructor | common/body_storage.go:100-130 | whole contents at position 0, open |
| BodyStorage.DiskStorage.Read | common/body_storage.go:169-176 | fills the buffer from the file as the abstract object answers |
| BodyStorage.DiskStorage.Seek | common/body_storage.go:178-185 | moves as the abstract object does |
| BodyStorage.DiskStorage.Bytes | common/body_storage.go:198-230 | returns the whole contents and restores the position |
| BodyStorage.DiskStorage.Size | common/body_storage.go:232-234 | the length of the contents |
| BodyStorage.DiskStorage.Close | common/body_storage.go:187-196 | closes and removes the file once |
| BodyStorage.ReadFull | common/body_storage.go:217-222 | fills the buffer from the file or reports that it is too short |
| BodyStorage.ObservationallyEqual | common/body_storage.go:47-230 | for every sequence of operations both storages give the same replies if and only if no empty read is made at the end of an open storage |
| BodyStorage.EmptyReadTellsThemApart | common/body_storage.go:169-176 | such a read of any exhausted body is answered differently |
| BodyStorage.ContentsFixed | common/body_storage.go:47-81 | no sequence of operations changes the contents; closing is final and nothing else closes |
| BodyStorage.ReadingCollects | common/body_storage.go:47-54 | reading with buffers of any sizes delivers the contents from the position on without gap or repetition |
| BodyStorage.SeekMeaning | common/body_storage.go:56-63 | a seek leads to the byte counted from the start or from the end, and a seek back by what a read got undoes the read |
| BodyStorage.SeekRefused | common/body_storage.go:56-63 | a seek before the start is refused and does nothing |
| BodyStorage.ReadReply | common/body_storage.go:47-54 | a non-empty read succeeds exactly if it gets a byte, and is an end of file exactly if none is left, in both storages |
| RequestBody.CreateBodyStorage | common/body_storage.go:241-259 | stores the data whole, on disk exactly if enabled, large enough, within the quota and the disk works |
| RequestBody.NewDiskStorageFromReader | common/body_storage.go:132-167 | stores the whole stream, or fails, exactly in the listed cases; too large is told apart |
| RequestBody.CreateBodyStorageFromReader | common/body_storage.go:262-303 | stores the whole body at position 0 or answers the error of the first failing step |
| RequestBody.NeverTruncated | common/body_storage.go:284-290 | a body is stored whole or not at all; without faults it is refused exactly if longer than the limit |
| RequestBody.RequestContext.constructor | common/gin.go:38-85 | a request with an unread body |
| RequestBody.RequestContext.GetRequestBody | common/gin.go:38-85 | rewinds the cached storage, else uses the older cache entry, else reads the body, caching what it got |
| RequestBody.RequestContext.CleanupBodyStorage | common/gin.go:101-108 | closes the storage and forgets it |
| RequestBody.RunKeepsBody | common/gin.go:38-108 | in every run what is stored or unread is the original body |
| RequestBody.EveryRetryReplays | common/gin.go:38-85 | after any run a successful request for the body stands at position 0 of the complete original body, and reads deliver it from its first byte |
| RequestBody.FirstFetch | common/gin.go:62-84 | without faults a fresh body is delivered exactly if it has at most maxMB x 1048576 bytes, or 134217728 by default, and is refused as too large otherwise |
| RequestBody.RefusedStaysRefused | common/gin.go:62-84 | a body that was refused once is never delivered later |
| RequestBody.RewritesAreNotDelivered | common/gin.go:38-61 | after a successful request for the body no later one delivers a rewrite of the older cache entry, over every run without a cleanup |
| RequestBody.RewriteWithoutStorage | common/gin.go:49-60 | without a cached storage the latest rewrite is what is delivered |
| CacheCounters.NextInv | common/disk_cache_config.go:109-134 | every atomic instruction keeps each counter equal to the sum of the storages' shares |
| CacheCounters.RunInv | common/disk_cache_config.go:109-134 | the same after every interleaving |
| CacheCounters.ClampsNeverFire | common/disk_cache_config.go:115-122 | no counter is ever negative, so no clamp to zero is ever taken |
| CacheCounters.Conservation | common/body_storage.go:37-45 | when no operation is under way active counts are the numbers of open storages and usages the sums of their sizes, disk and memory separately |
| CacheCounters.AllClosedIsZero | common/body_storage.go:187-196 | once all storages are closed all counters are zero |
| CacheCounters.CloseAgain | common/body_storage.go:65-72 | further Closes of a closed storage change nothing |
| TaskRelay.RetryDecision | controller/relay.go:607-647 | retried exactly for a retryable status, with budget left and no reason to stay on the channel |
| TaskRelay.SelectAutoMoves | service/channel_select.go:83-162 | a selection stays in its group, or moves to a later group with the retries starting from 0, or takes the last try of a group and prepares the next |
| TaskRelay.SelectAutoExact | service/channel_select.go:106-154 | the channel comes from the first group from the current one on that has one, asked with the retry count or with 0; there is none exactly if no group has one; when a group is left for good |
| TaskChannels.UsedChannel | controller/relay.go:510-531 | the i-th channel used is the one of round i |
| TaskChannels.OwnGroupChannel | service/channel_select.go:155-160 | without auto groups round i takes the channel its group offers at priority i, the first round the context's channel if there is no channel data |
| TaskChannels.LockedChannel | controller/relay.go:513-520 | with a locked channel every round uses that one, until it cannot be set up again |
| TaskChannels.FurtherRound | controller/relay.go:510-558 | there is a round after round i exactly if the error is retryable, nothing ties the request to its channel, and i is below RetryTimes |
| TaskChannels.AutoDisabledChannel | service/channel_select.go:89-92 | with auto groups switched off only the context's channel is ever used |
| TaskChannels.FirstAutoChannel | controller/relay.go:286-299 | with auto groups a round without channel data takes the context's channel; when there is a further round |
| TaskChannels.FirstAutoMove | controller/relay.go:510-558 | after it the retries count on in the same group |
| TaskChannels.AutoChannel | service/channel_select.go:106-154 | every other round takes the channel of the first group from the current one on that offers one; when there is a further round |
| TaskChannels.AutoMove | service/channel_select.go:106-154 | the next round begins in the next group at priority 0 after the last try of a group with cross-group retry, otherwise in the same group at the next priority |
| TaskChannels.AutoRoundWithoutOffer | service/channel_select.go:106-154 | when no group offers a channel the round gets none and is the last |
| TaskRelay.AttemptShrinks | controller/relay.go:510-558 | every further round uses up budget, so the loop ends although retries are reset |
| TaskRelay.AttemptMeaning | controller/relay.go:510-558 | a round records its channel, goes on only after a retryable error, and otherwise leaves its own error or result |
| TaskRelay.RunMeaning | controller/relay.go:510-558 | used channels are one per round that got one, in order; all earlier rounds failed retryably; the last decides error and result; a pre-charge exists exactly if one was made |
| TaskRelay.AttemptsBounded | controller/relay.go:510-558 | attempts are at most the budget left plus RetryTimes + 1 for every group moved on |
| TaskRelay.AttemptsPerGroup | controller/relay.go:510-558 | never more than RetryTimes + 1 attempts for each group from the current one on, and not more than that in all while no group is left |
| TaskRelay.RetryTimesPlusOneExactly | controller/relay.go:510-558 | RetryTimes + 1 bounds the attempts for whatever the upstreams answer if and only if there is no further group, no retry, or a specific channel |
| TaskRelay.SettleOrRefundOnce | controller/relay.go:495-597 | every run ends with one settlement of the accepted quota, or the last round's error and, if there is a pre-charge, one refund; with negative RetryTimes it crashes |
| TaskRelay.GroupsMultiplyAttempts | service/channel_select.go:106-154 | for all groups and every RetryTimes from 1 on the bound is reached: RetryTimes + 1 attempts in each group, and then a local error instead of the upstream's |
| TaskRelay.TwoGroupsFourAttempts | service/channel_select.go:106-154 | for instance two groups and RetryTimes 1 give four attempts |
| TaskRelay.RunsOut | service/channel_select.go:106-154 | even without cross-group retry a first group that runs out of channels lets the attempts exceed RetryTimes + 1 |
| TaskRelay.TaskRequest.constructor | controller/relay.go:503-508 | a request as it enters the loop |
| TaskRelay.TaskRequest.IncreaseRetry | service/channel_select.go:33-42 | a pending reset uses up the increment |
| TaskRelay.TaskRequest.SelectFromAutoGroups | service/channel_select.go:106-154 | the loop over the auto groups is the recursive selection |
| TaskRelay.TaskRequest.GetChannel | controller/relay.go:286-316 | the locked channel, the context's channel, or a selected one |
| TaskRelay.TaskRequest.TryOnce | controller/relay.go:510-558 | the loop body is one round |
| TaskRelay.TaskRequest.Submit | controller/relay.go:531-557 | the rest of the loop body once the channel is known |
| TaskRelay.TaskRequest.RelayTask | controller/relay.go:479-597 | the handler runs all rounds and then settles, or responds and refunds |
| VerificationCodes.VerificationMap.constructor | common/verification.go:74-78 | an empty map |
| VerificationCodes.VerificationMap.RegisterVerificationCodeWithKey | common/verification.go:35-45 | stores the code and sweeps a map that has grown too large |
| VerificationCodes.VerificationMap.VerifyCodeWithKey | common/verification.go:47-56 | true exactly for the stored code while it is valid |
| VerificationCodes.VerificationMap.DeleteKey | common/verification.go:58-62 | removes exactly that entry |
| VerificationCodes.VerificationMap.RemoveExpiredPairs | common/verification.go:65-72 | the sweep removes exactly the expired entries |
| VerificationCodes.ExpiredMeaning | common/verification.go:50-54 | comparing truncated seconds is comparing exact times |
| VerificationCodes.RunLosesOnlyExpired | common/verification.go:35-72 | in every run the map has lost nothing but entries that had expired |
| VerificationCodes.EvictionUnobservable | common/verification.go:47-56 | every Verify answers as a map that never evicts |
| VerificationCodes.VerifyMeaning | common/verification.go:47-56 | true exactly if some registration with this code is the last word on the id and is not too old |
| VerificationCodes.OversizedMeansValid | common/verification.go:42-44 | after every run that leaves more than the maximum number of entries, none of them had expired at the last registration |
| VerificationCodes.IdsDistinct | common/verification.go:16-19 | purposes of one length never make different keys collide |
| VerificationCodes.PurposesDistinct | common/verification.go:16-19 | an email verification and a password reset never share an id |
| VerificationCodes.IdsCollide | common/verification.go:36-38 | for other purposes, exactly when two pairs collide |

## Left out

- HTTP handlers, JSON binding, sessions, OAuth, payment SDK calls, notifications and log texts: plumbing around the modelled code.
- Order locks of several processes: the table lives in the memory of one process, and so do the claims.
- The price per unit of quota is one number during a run of TopUpCredit.
- Signature checks, order statuses other than pending, success and closed, and the internals of the other payment providers, which appear as an environment step on their own orders; so does an administrator's completion of such an order, whose quota is not part of the sums over Epay orders.
- Failing database writes when upstream model changes are applied; regular-expression matching is an arbitrary predicate.
- Concurrent changes of the channel table during a batch loop.
- A channel created with blank first or last keys counts them in its size until its first update; the multi-key results start from a channel whose size is the number of keys that are read.
- Key texts that are JSON arrays, the Vertex AI key format, the paginated key status listing, and the channel-level status that follows from the keys' states.
- Floating-point rounding, infinities and NaN in prices: prices are exact reals, and texts that are no number are None.
- In the price diff all numeric JSON types are one number type and composite values do not occur.
- The other audio formats: their work is done by external decoders. The Opus scanner reads from a file that fills its buffer whenever enough bytes are left; short reads and read errors are not modelled.
- The data slice that memory storage hands out is not copied by the code; changes made to it by callers are not modelled.
- Seek origins other than start, current and end, 64-bit overflow of positions, and operating-system errors while reading or seeking an open file.
- After a first read the code replaces the request's body by the storage itself (`common/gin.go`, lines 110-139); in the model a body that has been read is closed.
- Cleanup of old cache files, and the reset and synchronisation of the usage counters, which change them independently of Close; cache-hit counters.
- The disk quota is checked before and not while a file is written; that concurrent creations stay within it is not claimed.
- How a channel is picked within a group and priority, pre-charging, settling and refunding themselves: answers of the environment in TaskRelay. Channel ids are recorded as numbers, not as their decimal texts.
- GenerateVerificationCode: a call into a random source.
