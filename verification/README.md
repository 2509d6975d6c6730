# Verified models of new-api's self-contained algorithms

This project models the parts of new-api that carry an algorithm of their own and proves what
they promise: the per-order lock and top-up completion, the in-memory rate limiter, the multi-key
channel manager, the price comparison and provider selection, the Ogg page scanner, the upstream
model reconciliation and its paged sweep, the batched model enrichment, the request body storage
with its usage counters, and the polling and billing of image and video tasks. Databases, clocks, upstream
answers and configuration are parameters, so every result holds for whatever they deliver.

Code that runs concurrently (order lock, usage counters, refund pollers) is a relation or function
over atomic steps, and the results hold in every state of every run. Code that updates objects or
loops over collections is a class or a method, proved equal to a specification function whose
properties are then proved as lemmas. `dafny verify dfyconfig.toml` checks everything.

| module | subject |
|---|---|
| `Basics`, `Text` | shared vocabulary; trimming, splitting, joining and first-occurrence filtering |
| `OrderLock`, `TopUp` | the reference-counted keyed mutex; order completion and credits under it |
| `RateLimit` | bounded queues with eviction against a limiter that keeps everything |
| `MultiKey` | index maps over key lists against sequences of key records |
| `RatioDiff`, `ModelsDev` | the price comparison; the choice of one provider per model |
| `OggScan` | the resynchronising page scanner |
| `ModelNames`, `UpstreamSync`, `KeysetSweep` | ordered name sets; detect, apply, converge; the paged sweep |
| `Enrich` | the batched enrichment against the per-model computation |
| `BodyStorage`, `UsageCounters` | two storages behind one interface; the global counters |
| `TaskStatus`, `TaskPolling` | the status of video tasks; guarded polls, timeouts and user queries, and what they bill |
| `MjRefund`, `VideoBilling` | guarded refunds of image tasks; the unguarded charge and refund ledger of video tasks |

## Where the code and its promise part

Each of these is proved, with the exact condition where one exists.

- A rate limit of zero acts as a limit of one. Eviction is invisible on all runs exactly when no
  window exceeds the expiration by more than one second, one second more than the comment at
  `newapi/common/constants.go:204-205` allows (`RateLimit.EvictionInvisibleIff`).
- A completed order does not always get its credit. In every state of every run the orders completed,
  unpaid and in nobody's hands are exactly those for which a call failed after the completed row was
  stored and before the quota was added; no later notification pays them. Every pending Epay
  order can end so, and no other order (`TopUp.StrandedIffLost`, `TopUp.CompletedMeansCredited`,
  `TopUp.CanStrand`, `TopUp.LostAreEpay`).
- Deleting the auto-disabled keys when all keys are auto-disabled deletes none and enables all,
  because an empty key text is not written (`MultiKey.Channel.DeleteDisabledKeys`). It also drops a
  stale disable time or reason of enabled keys (`MultiKey.MetadataKeptIff`). A rewritten,
  non-empty key list reads back unchanged exactly when no key has a line break and the first and last are
  not empty or, where its text happens to be a JSON array, that array holds just these keys
  (`MultiKey.RestorableIff`); otherwise the keys that do read back take over the records by position, as
  when "a" is deleted from "a", "" and "b"
  (`MultiKey.DeletionMisplaces`). Ordinary keys are never affected by this
  (`MultiKey.DeletionSafe`, `MultiKey.Channel.PerformAll`).
- Replacing the keys by fewer leaves the disable times and reasons of the dropped positions behind. Keys
  appended later are fresh exactly when nothing is left at their positions (`MultiKey.AppendFreshIff`);
  otherwise a new, enabled key shows a dead key's time and reason (`MultiKey.DeadDataReturn`,
  `MultiKey.ReplaceThenAppend`). With nothing left and no replacement every sequence of actions on ordinary
  keys is the plain sequence of edits (`MultiKey.PlainEdits`). The stored key count is the number of keys
  unless the text is an empty JSON array (`MultiKey.CountedIff`).
- Appending something new to a text that opens like a JSON array but is none loses the existing keys
  (`MultiKey.ExistingKeysIff`). When nothing new is pasted the joined text is empty and the stored keys stay.
- `buildDifferences` also reports an entry when a channel answers a local value with an explicit null
  while a listed channel has none (`RatioDiff.SpuriousIff`, with the input of `RatioDiff.NullExample`), and an upstream text "same" can hide a
  difference (`RatioDiff.HiddenIff`). `RatioDiff.AppearsIff` is the exact condition for all inputs.
- The provider choice has the cheapest non-zero price, however prices are distributed over providers,
  exactly when no other price comes within 1e-9 of it (`ModelsDev.CheapestIff`).
- Applying all pending changes converges exactly when no needed ignore rule is itself one of the added
  models (`UpstreamSync.ConvergesIff`, `UpstreamSync.AddedRuleIsLost`). A model name with a comma falls
  apart when it is stored: it stays pending however often it is added (`UpstreamSync.CommaAlwaysPending`),
  and the pending lists stay current exactly when no selection adds a name and leaves a piece of it pending
  (`UpstreamSync.AlwaysCurrentIff`, `UpstreamSync.CommaExample`).
- A body limit configured at 2^43 megabytes or more leaves the 64-bit range and is wrong; every smaller
  one is kept exactly (`BodyStorage.RequestLimitIff`). Reading nothing at the end differs between the two
  storages (`BodyStorage.SameAnswersIff`).
- Refunds of image tasks: that every refunding update changes the stored status does not suffice with
  several pollers, because a stale copy can win when its status returns (`MjRefund.StatusReturns`). The
  exact condition is `MjRefund.RefundedOnceIff`. A response naming one task twice can refund twice
  (`MjRefund.RepeatedItemIff`).
- The polling loop bills a video task at most once in every run exactly when no user's query meets an open
  status upstream (`TaskPolling.BilledOnceIff`). A query of a Gemini or Vertex task stores what it meets,
  also for a task that was refunded, for instance after a timeout; "in progress", which
  `newapi/relay/channel/task/gemini/adaptor.go:226-230` reports, makes it unfinished again, and its failure
  is refunded a second time (`TaskPolling.RefundedTwice`). With working funding calls every failed task is
  refunded exactly when no query meets the failure first (`TaskPolling.FailureRefundedIff`). Without
  queries a failed task's charge is back exactly when no failing call, old-system timeout or missing
  channel ended it (`TaskPolling.RefundLostIff`). The stored quota is never the settled price
  (`TaskPolling.Books`), although `newapi/service/task_billing.go:217` assigns it.
- In `newapi/controller/task_video.go`, an older version of the poll that nothing calls any more, a charge
  is repeated by every poll whose save fails, and a failed task that is reported otherwise breaks the
  ledger by exactly its quota (`VideoBilling.WorthDrifts`, `VideoBilling.PollBalancedIff`,
  `VideoBilling.UnsavedChargesRepeat`). It saves without a guard, so every copy fetched before the failure
  is stored is refunded (`VideoBilling.EveryCopyRefunds`).

## Model

| member | source | states |
|---|---|---|
| OrderLock.InvAlways | newapi/controller/topup.go:269-308 | in every run of any goroutines on any trade numbers: createLock, mutex holders, reference counts, the map and the program points agree |
| OrderLock.MutualExclusion | newapi/controller/topup.go:279-308 | at most one goroutine is between LockOrder and UnlockOrder of a trade number |
| OrderLock.EntryIsStable | newapi/controller/topup.go:279-292 | while a goroutine is registered for a trade number the map points at its mutex, refCount is the number registered, and distinct trade numbers have distinct mutexes |
| OrderLock.UnlockFindsOwnMutex | newapi/controller/topup.go:294-308 | the lookup without createLock finds the mutex this goroutine holds; no unlock of a free mutex |
| OrderLock.DeleteIsSafe | newapi/controller/topup.go:300-306 | deleting an entry with count zero detaches no other goroutine |
| OrderLock.QuietMeansEmpty | newapi/controller/topup.go:300-306 | with all goroutines idle the map is empty and createLock free |
| OrderLock.DeadlockFree | newapi/controller/topup.go:279-308 | whenever some goroutine is under way, some goroutine under way can take a step |
| TopUp.IntPart | newapi/controller/topup.go:398-400 | the amount is truncated towards zero |
| TopUp.DueBounds | newapi/model/topup.go:348-360 | an order is worth its amount, for Stripe its money, times the quota per unit, without the fraction; when that is positive and when it is negative |
| TopUp.InvAlways | newapi/controller/topup.go:373-408 | in every run with failing database calls, the lock, the workers' copies and the credits agree |
| TopUp.CreditedAtMostOnce | newapi/controller/topup.go:373-408 | an order is credited at most once, only in status success and to its own user; the credit is the amount times the quota per unit, for Stripe orders the money instead, without its fraction |
| TopUp.AdminPays | newapi/model/topup.go:343-375 | a manual completion turns a pending order of any provider into a completed one and adds one positive credit of that amount to its user |
| TopUp.AdminPaysIff | newapi/model/topup.go:338-363 | it can pay if and only if the order is pending and worth at least one unit of quota |
| TopUp.IncreaseEnabledIff | newapi/controller/topup.go:398-405 | the quota increase after a notification is refused if and only if the quota is negative |
| TopUp.NotifyTakesOver | newapi/controller/topup.go:376-396 | a notification completes only a pending Epay order and stores the payment method it was told |
| TopUp.StepPaysAtMostOnce | newapi/controller/topup.go:398-405 | a step adds at most one credit, and that moves its user's balance by its quota and no other balance |
| TopUp.BalanceIsLedger | newapi/controller/topup.go:398-405 | a balance is its start value plus the recorded credits of the user |
| TopUp.FailureStrands | newapi/controller/topup.go:390-405 | a call that fails after the row was stored and before the quota was added leaves the order completed, unpaid and in nobody's hands |
| TopUp.StrandedForever | newapi/controller/topup.go:381-408 | such an order is never credited later |
| TopUp.StrandedIffLost | newapi/controller/topup.go:381-405 | in every state of every run, the orders completed, unpaid and in nobody's hands are exactly those with such a failed call |
| TopUp.CanStrand | newapi/controller/topup.go:390-405 | for every pending Epay order a run that ends so, through a failing save that stored the row or through a failing quota increase |
| TopUp.LostAreEpay | newapi/controller/topup.go:381-386 | in every run only Epay orders can end so |
| TopUp.CompletedMeansCredited | newapi/controller/topup.go:381-404 | an order completed in the run is credited or about to be if and only if no such call failed, and otherwise it never is |
| TopUp.AdminKeeps | newapi/model/topup.go:320-391 | manual completion under the same lock keeps the ledger |
| RateLimit.InMemoryRateLimiter.Request | newapi/common/rate-limit.go:45-70 | decision and new store of one request |
| RateLimit.InMemoryRateLimiter.ClearExpiredItems | newapi/common/rate-limit.go:28-42 | a cleaner pass removes exactly the keys whose latest time is older than the expiration |
| RateLimit.RunTracks | newapi/common/rate-limit.go:28-70 | whatever other keys do, a key's queue is the tail of its full history, what it dropped is too old to matter, and its requests are accepted at the same times as without eviction |
| RateLimit.SameAnswers | newapi/common/rate-limit.go:28-70 | with windows up to the expiration plus one second, every decision is that of the limiter that never evicts |
| RateLimit.EvictionInvisibleIff | newapi/common/constants.go:204-205 | decisions agree on all runs if and only if no window exceeds the expiration plus one second |
| RateLimit.EvictionSeen | newapi/common/rate-limit.go:28-42 | for any larger window a run with a differing decision |
| RateLimit.AcceptancesSpaced | newapi/common/rate-limit.go:45-70 | acceptances of a key that are `max` apart are at least `duration` seconds apart, across evictions, whatever the windows of other keys |
| RateLimit.SpacedIff | newapi/common/rate-limit.go:28-70 | that holds for a key in every run if and only if its own window is at most the expiration plus one second |
| RateLimit.NoCrowdedWindow | newapi/common/rate-limit.go:45-70 | no interval of `duration` seconds holds more than `max` acceptances of a key |
| RateLimit.NotCrowdedIff | newapi/common/rate-limit.go:28-70 | and that for every run and interval if and only if the key's window is at most the expiration plus one second |
| RateLimit.AdmittedIff | newapi/common/rate-limit.go:45-70 | in every run a request is let through if and only if fewer than `max` of its key, for a `max` of zero fewer than one, were accepted in the last `duration` seconds |
| RateLimit.CountIsCardinality | newapi/common/rate-limit.go:45-70 | those counts are numbers of acceptances |
| MultiKey.Channel.Update | newapi/model/channel.go:526-573 | recounts the keys, trims the status map, keeps the stored text when the new one is empty |
| MultiKey.Channel.DisableKey | newapi/controller/channel.go:1407-1448 | changes one record's status and nothing else; rejects exactly bad indices |
| MultiKey.Channel.EnableKey | newapi/controller/channel.go:1450-1490 | resets one record; rejects exactly bad indices |
| MultiKey.Channel.EnableAllKeys | newapi/controller/channel.go:1492-1514 | resets every record; reports the size of the status map |
| MultiKey.EnableAllCountIff | newapi/controller/channel.go:1492-1514 | that number is the number of keys enabled if and only if the map holds no explicit "enabled" |
| MultiKey.Channel.DisableAllKeys | newapi/controller/channel.go:1516-1561 | disables exactly the enabled records and reports their number; rejects when there is none |
| MultiKey.DisableEnabledKeys | newapi/controller/channel.go:1529-1546 | the loop over the indices computes that edit and that count |
| MultiKey.CountIsCardinality | newapi/controller/channel.go:1529-1546 | reported counts are numbers of keys with the status |
| MultiKey.Channel.DeleteKey | newapi/controller/channel.go:1563-1641 | writes the list without the key; the keys that read back show the remaining records by position, and all is as intended if and only if the list can be stored |
| MultiKey.CopyAllBut | newapi/controller/channel.go:1580-1613 | re-indexing around the deleted key removes exactly its record |
| MultiKey.Channel.DeleteDisabledKeys | newapi/controller/channel.go:1643-1710 | the same for dropping exactly the auto-disabled records, whose number is reported; with nothing left all keys stay and are enabled |
| MultiKey.DeletionSafe | newapi/controller/channel.go:1563-1710 | any deletion from ordinary keys leaves a list that can be stored |
| MultiKey.DeletionMisplaces | newapi/controller/channel.go:1624-1630 | a deletion after which a key shows another key's record |
| MultiKey.PairedRecords | newapi/model/channel.go:541-565 | whatever keys read back, the i-th shows the i-th intended record |
| MultiKey.Channel.PerformAll | newapi/controller/channel.go:1407-1710 | any sequence of requests, one after the other, on a channel with ordinary keys, appending and replacing included and whatever times and reasons are left over, makes the specified edits of records and left-over data and keeps the channel consistent |
| MultiKey.PlainEdits | newapi/controller/channel.go:1407-1710 | with nothing left over and no replacement these are the plain edits of the record sequence |
| MultiKey.EditKeepsPlain | newapi/controller/channel.go:859-985 | every edit by an action with ordinary keys leaves ordinary keys, and at least one |
| MultiKey.CopySurvivors | newapi/controller/channel.go:1652-1681 | the loop drops exactly the auto-disabled records and counts them |
| MultiKey.SurvivorPosition | newapi/controller/channel.go:1652-1681 | a key whose status is not 3 stays, moves up by the number of keys deleted before it and keeps its record, an enabled one without time and reason |
| MultiKey.MetadataKeptIff | newapi/controller/channel.go:1663-1680 | all survivors keep their time and reason if and only if no enabled key carries stale ones |
| MultiKey.Channel.AppendKeys | newapi/controller/channel.go:897-972 | writes the combined list; where it can be stored the old records stay, new keys take over what is left at their positions, and all is the old records followed by fresh enabled ones if and only if nothing is left there |
| MultiKey.AppendFreshIff | newapi/model/channel.go:555-563 | appended keys are fresh if and only if no time or reason is stored at their positions |
| MultiKey.Channel.ReplaceKeys | newapi/controller/channel.go:859-985 | without append mode the text is replaced, each key takes over what its position holds, and times and reasons beyond the keys stay; the stored count is right if and only if the text is no empty array |
| MultiKey.RelabelSheet | newapi/model/channel.go:538-563 | what a new key list shows: records by position, old data where no record was |
| MultiKey.DeadDataReturn | newapi/model/channel.go:555-563 | a key appended at the position of a dropped key is enabled and shows its time and reason |
| MultiKey.ReplaceThenAppend | newapi/controller/channel.go:897-985 | the same as the outcome of two requests |
| MultiKey.CountedIff | newapi/model/channel.go:538-555 | the counted keys are the keys unless the text is an empty JSON array |
| MultiKey.Deduplicate | newapi/controller/channel.go:939-968 | what is appended are the trimmed non-blank keys not present, each once, in order |
| MultiKey.PastedArrive | newapi/controller/channel.go:921-968 | every pasted line that shows anything is a key afterwards, trimmed, and nothing else is added |
| MultiKey.AppendSafe | newapi/controller/channel.go:917-971 | appending to a key text that is no array gives a list that can be stored if and only if the text shows anything or the list reads back by itself |
| MultiKey.ExistingKeysIff | newapi/controller/channel.go:901-919 | append sees the channel's keys unless their text opens like a JSON array and is none |
| MultiKey.KeysShown | newapi/model/channel.go:175-197 | a JSON array shows its items, another text its lines |
| MultiKey.RestorableIff | newapi/model/channel.go:175-197 | a key list survives storing if and only if it is not empty and, its text being a JSON array, that holds just these keys, its text being none, there are no line breaks and no empty first or last key |
| MultiKey.PlainRestorable | newapi/model/channel.go:175-197 | every non-empty list of visible one-line keys that do not open like an array survives storing |
| MultiKey.AfterRewrite | newapi/model/channel.go:526-573 | after a rewrite the channel shows the intended records if and only if the list can be stored |
| Text.FieldsJoin | newapi/model/channel.go:193-196 | joining with a separator and reading back is the identity if and only if no item contains it and the ends are not empty |
| Text.SplitJoin | newapi/model/channel.go:193-196 | splitting undoes joining |
| Text.TrimmedAway | newapi/controller/channel_upstream_update.go:97-102 | trimming takes away white space at the two ends only |
| Text.SpacesAre | newapi/controller/channel_upstream_update.go:97-102 | white space is what Unicode lists as White_Space |
| Text.FreshFacts | newapi/controller/channel.go:949-968 | the first-occurrence filter lists exactly the unseen trimmed names, each once |
| Text.NamesAre | newapi/controller/channel_upstream_update.go:97-102 | the names of a list are its trimmed non-empty items |
| RatioDiff.BuildDifferences | newapi/controller/ratio_sync.go:536-696 | the passes compute, for every model and field, exactly the declared entry, which the rows below describe in terms of the tables; no row is left empty |
| RatioDiff.FarNumbersShown | newapi/controller/ratio_sync.go:36-53 | a channel whose number is 1e-9 or more from the local one is shown with its number |
| RatioDiff.NearNumbersAreSame | newapi/controller/ratio_sync.go:48-53 | a channel whose number is closer never is: its cell, if any, says same |
| RatioDiff.NewValuesShown | newapi/controller/ratio_sync.go:608-636 | a value the local tables lack is shown beside null |
| RatioDiff.OnlyPricingFields | newapi/controller/ratio_sync.go:64-75 | only the ten pricing fields occur |
| RatioDiff.DistrustIff | newapi/controller/ratio_sync.go:558-591 | a shown channel is distrusted if and only if its ratios for the model are within 1e-9 of 37.5 and 1 |
| RatioDiff.CompareField | newapi/controller/ratio_sync.go:594-654 | one (model, field) across the channels gives exactly the recorded item |
| RatioDiff.AssessChannels | newapi/controller/ratio_sync.go:558-591 | confidence is false exactly for placeholder ratios 37.5 and 1, the last channel of a name counting |
| RatioDiff.FindListed | newapi/controller/ratio_sync.go:656-665 | the channels that show a value in some entry |
| RatioDiff.Prune | newapi/controller/ratio_sync.go:667-693 | in-place pruning cuts every entry to the listed channels and drops all-same entries and empty rows |
| RatioDiff.ListedIff | newapi/controller/ratio_sync.go:656-665 | a channel is listed if and only if it has a difference anywhere that is not the text "same" |
| RatioDiff.ShownEntry | newapi/controller/ratio_sync.go:605-674 | an entry's channels are the listed ones; each cell is value, null or same as defined; confidence as assessed |
| RatioDiff.ShownKeys | newapi/controller/ratio_sync.go:667-693 | no entry is empty and confidence has the keys of upstreams |
| RatioDiff.AppearsIff | newapi/controller/ratio_sync.go:536-696 | the exact condition for an entry, for all inputs: some channel differs or gives null, and some listed channel shows a difference here or lacks the local value |
| RatioDiff.HiddenIff | newapi/controller/ratio_sync.go:608-694 | a real difference has no entry if and only if no channel has anything to show |
| RatioDiff.SpuriousIff | newapi/controller/ratio_sync.go:608-694 | an entry without any difference appears if and only if a channel gives null and a listed one lacks the local value |
| RatioDiff.NullExample | newapi/controller/ratio_sync.go:608-636 | a literal input with such an entry |
| RatioDiff.AppearsIffDiffers | newapi/controller/ratio_sync.go:536-696 | with distinct names and neither null nor "same" here, an entry appears if and only if some channel's value is absent locally or different |
| RatioDiff.NullMakesAnEntry | newapi/controller/ratio_sync.go:608-636 | an entry without any real difference, for every channel with a null here and a difference elsewhere |
| RatioDiff.SameTextHides | newapi/controller/ratio_sync.go:656-665 | an upstream text "same" hides a real difference |
| ModelsDev.SelectCandidates | newapi/controller/ratio_sync.go:915-944 | the nested loops compute the fold over the sorted providers, whatever the map order |
| ModelsDev.SortingUnique | newapi/controller/ratio_sync.go:915-919 | a key set has one sorted listing, so the result depends on the catalogue alone |
| ModelsDev.PickIsCheap | newapi/controller/ratio_sync.go:881-893 | a non-zero offer is chosen whenever there is one, and no non-zero offer is cheaper by 1e-9 or more |
| ModelsDev.PickIsAnOffer | newapi/controller/ratio_sync.go:881-893 | the choice is one of the offers and the alphabetical tie-break never fires |
| ModelsDev.PickAmongFree | newapi/controller/ratio_sync.go:903-905 | with only free offers the first provider is chosen |
| ModelsDev.PickIsCheapest | newapi/controller/ratio_sync.go:903-905 | where no other price comes within the tolerance of the cheapest non-zero one, the choice has that price |
| ModelsDev.CheapestIff | newapi/controller/ratio_sync.go:881-905 | that condition is exact for the choice to be cheapest however the prices are distributed over the providers |
| ModelsDev.OrderDecides | newapi/controller/ratio_sync.go:48-53 | within the tolerance the provider order decides, against the cheaper price |
| ModelsDev.SelectionIsCheap | newapi/controller/ratio_sync.go:845-944 | for the catalogue as a whole: the chosen price exceeds no valid non-zero price any provider has for the model by 1e-9 or more |
| ModelsDev.SelectionIsReal | newapi/controller/ratio_sync.go:845-879 | the choice carries the input price, output price and cache price its provider has in the catalogue |
| ModelsDev.SelectionExistsIff | newapi/controller/ratio_sync.go:845-944 | a model has a choice if and only if some provider prices it validly |
| ModelsDev.ConvertCandidates | newapi/controller/ratio_sync.go:949-974 | the three ratio tables: half the input price for every selected model, output and cache price over input price for the priced ones that have them, each to six places, and no other entries |
| ModelsDev.RoundedRatio | newapi/controller/ratio_sync.go:698-700 | rounding gives the nearest whole number of millionths |
| ModelsDev.ModelRatioZeroIff | newapi/controller/ratio_sync.go:698-700 | a price rounds to ratio zero if and only if it is below a millionth |
| OggScan.GetOpusDuration | newapi/common/audio.go:196-254 | terminates on every byte string; on a stream of pages between quiet bytes the seconds times 48000 are the largest granule position or zero, on one cut at any byte that of the pages whose 27 header bytes arrived |
| OggScan.ScanStep | newapi/common/audio.go:206-250 | one iteration finishes with the result or goes on at a strictly later position |
| OggScan.ScanPage | newapi/common/audio.go:222-249 | a well-formed page is stepped over to its very end and its granule position counted |
| OggScan.ScanStream | newapi/common/audio.go:208-250 | for pages with any bytes between in which no capture pattern begins, the scan meets exactly the pages |
| OggScan.DurationOfStream | newapi/common/audio.go:228-254 | the result is the maximum of zero and all granule positions |
| OggScan.ScanCutPage | newapi/common/audio.go:213-247 | a page cut in its header is ignored, one cut later counts |
| OggScan.ScanCutStream | newapi/common/audio.go:208-250 | a stream cut at any byte is measured by the pages whose header is complete |
| OggScan.HeaderFields | newapi/common/audio.go:217-235 | granule position and segment count are read back from an encoded header (section 6 of RFC 3533) |
| OggScan.PageBytes | newapi/common/audio.go:217-247 | the bytes of a page: capture pattern, granule position in bytes 6 to 13, segment count in byte 26, segment sizes, and as much data as they add up to (section 6 of RFC 3533) |
| OggScan.SumOfMore | newapi/common/audio.go:238-246 | segment sizes add up |
| OggScan.LittleEndianRoundTrip | newapi/common/audio.go:228 | little-endian decoding undoes encoding |
| ModelNames.NormalizeFacts | newapi/controller/channel_upstream_update.go:97-102 | the result is trimmed, non-blank, duplicate-free and has exactly the names |
| ModelNames.NormalizeFixpoint | newapi/controller/channel_upstream_update.go:97-102 | clean lists are exactly the fixpoints |
| ModelNames.MergeModelNames | newapi/controller/channel_upstream_update.go:104-118 | the appending loop computes the specified merge |
| ModelNames.MergeFacts | newapi/controller/channel_upstream_update.go:104-118 | merge is the union, keeps the base as prefix and stays clean |
| ModelNames.SubtractFacts | newapi/controller/channel_upstream_update.go:120-129 | subtract is the set difference and stays clean |
| ModelNames.IntersectFacts | newapi/controller/channel_upstream_update.go:131-140 | intersect is the intersection and stays clean |
| ModelNames.ApplySelectedFacts | newapi/controller/channel_upstream_update.go:142-147 | addition wins over removal |
| ModelNames.SameListIffSameSet | newapi/controller/channel_upstream_update.go:142-147 | the list stays the same if and only if the set does |
| UpstreamSync.PendingFacts | newapi/controller/channel_upstream_update.go:176-235 | pending additions and removals, both directions, with rules and redirections |
| UpstreamSync.IgnoredIff | newapi/controller/channel_upstream_update.go:205-225 | a model is ignored if and only if a rule names it or is "regex:" and a pattern that matches it |
| UpstreamSync.CheckedSettings | newapi/controller/channel_upstream_update.go:360-407 | what a check stores, name by name |
| UpstreamSync.UpstreamChannel.Check | newapi/controller/channel_upstream_update.go:360-407 | new state and answers of a check: skipped only if not forced and too early, with failed fetch, failed store, failed ability update and automatic addition |
| UpstreamSync.UpstreamChannel.Apply | newapi/controller/channel_upstream_update.go:780-828 | new state and answers of an application, with failed store or ability update; models changed if and only if the set of models changed |
| UpstreamSync.InvAlways | newapi/controller/channel_upstream_update.go:360-407 | in every run over comma-free names from a consistent row the stored lists are clean, pending additions are neither present nor plainly ignored, pending removals are present |
| UpstreamSync.InvFromNothing | newapi/controller/channel_upstream_update.go:360-407 | the same for every channel with nothing pending |
| UpstreamSync.AlwaysCurrentIff | newapi/controller/channel_upstream_update.go:360-407 | for any names these facts hold throughout a run if and only if every selection applied leaves pending no piece of a name it adds |
| UpstreamSync.ApplyKeepsIff | newapi/controller/channel_upstream_update.go:780-828 | the same for one selection |
| UpstreamSync.CommaExample | newapi/controller/channel_upstream_update.go:796-806 | adding "a,b" while "a" is pending makes "a" present and leaves it pending |
| UpstreamSync.CommaAlwaysPending | newapi/controller/channel_upstream_update.go:176-235 | an upstream name with a comma is pending in every state unless redirected to or ignored |
| UpstreamSync.AppliedPieces | newapi/controller/channel_upstream_update.go:796-806 | the model names after applying a selection, for any names |
| UpstreamSync.ApplyAccounts | newapi/controller/channel_upstream_update.go:780-828 | pending additions are exactly added, ignored or remaining; an added model is present and not ignored |
| UpstreamSync.AppliedLocal | newapi/controller/channel_upstream_update.go:796-806 | the model names after applying a selection |
| UpstreamSync.AppliedSettings | newapi/controller/channel_upstream_update.go:808-816 | the settings after applying a selection |
| UpstreamSync.ConvergesIff | newapi/controller/channel_upstream_update.go:176-235 | after applying everything no removal is pending, and no addition if and only if the ignore rules survive |
| UpstreamSync.Converges | newapi/controller/channel_upstream_update.go:780-828 | convergence when no upstream name starts with "regex:" |
| UpstreamSync.AddedRuleIsLost | newapi/controller/channel_upstream_update.go:808-811 | adding a model named like the only rule makes what it ignored pending again |
| UpstreamSync.AutoSyncConverges | newapi/controller/channel_upstream_update.go:380-391 | automatic addition leaves nothing to add |
| KeysetSweep.Sweep | newapi/controller/channel_upstream_update.go:540-608 | the batch loop ends and visits every enabled channel once in ascending order; it fails if and only if a query it gets to fails, having visited the full batches before |
| KeysetSweep.EnabledFacts | newapi/controller/channel_upstream_update.go:834-845 | the ids to visit are exactly those of enabled rows, ascending |
| KeysetSweep.NextBatch | newapi/controller/channel_upstream_update.go:855-909 | each query continues where the last ended, and a short batch is the last |
| KeysetSweep.NonPositiveRepeats | newapi/controller/channel_upstream_update.go:841-843 | after a non-positive id the query would start over |
| Enrich.EnrichModels | newapi/controller/model_meta.go:164-330 | every record gets what the per-model computation gives it, whatever the map orders, also when it occurs twice or a query fails; a rule model matches the listed names that begin with (rule 1), contain (2) or end with (3) its name, and none under another number |
| Enrich.ExactShows | newapi/controller/model_meta.go:189-203 | the fields of an enriched exact record |
| Enrich.RuleShows | newapi/controller/model_meta.go:235-329 | groups and quota types of a rule model are those of the prices whose name it matches, each once; without a match nothing but the match fields changes |
| Enrich.RuleEndpoints | newapi/controller/model_meta.go:276-300 | endpoints are kept if present, else those of the matched prices |
| Enrich.RuleChannels | newapi/controller/model_meta.go:305-325 | channels are those of the matched names if the query finds any |
| Enrich.CollectMatches | newapi/controller/model_meta.go:213-260 | one pass over the prices computes every rule model's own matches |
| Enrich.MatchedNames | newapi/controller/model_meta.go:218-233 | matched names are the names at the hits |
| Enrich.HitsExact | newapi/controller/model_meta.go:220-232 | the hits are exactly the positions matching by prefix, suffix or contains, ascending |
| Enrich.MatchedUnions | newapi/controller/model_meta.go:235-258 | endpoints, groups and quota types are the unions over the matching prices |
| Enrich.FillRule | newapi/controller/model_meta.go:276-329 | writes the unions, sorted quota types and match fields; unmatched models keep the rest |
| Enrich.FillExact | newapi/controller/model_meta.go:189-203 | fills an exact model from caches and query, endpoints only when empty |
| Enrich.CollectChannels | newapi/controller/model_meta.go:310-317 | channels keyed by name and type are exactly those of the matched names |
| Enrich.KeyInjective | newapi/controller/model_meta.go:314-315 | no two channels share a key, underscores in names included |
| Enrich.EnrichedTwice | newapi/controller/model_meta.go:164-330 | enriching an enriched record again is covered by the same statement |
| BodyStorage.MemoryStorage.Perform | newapi/common/body_storage.go:47-85 | each operation answers and moves as the interface says |
| BodyStorage.DiskStorage.Perform | newapi/common/body_storage.go:169-234 | the same for the file, but for a read of nothing at the end |
| BodyStorage.SeekMoves | newapi/common/body_storage.go:56-63 | seeks from start, position and end, and which are refused |
| BodyStorage.ReadMoves | newapi/common/body_storage.go:47-54 | what a read delivers and where it ends |
| BodyStorage.ClosedStays | newapi/common/body_storage.go:47-85 | what a closed storage answers |
| BodyStorage.DiskStorage.ReadWhole | newapi/common/body_storage.go:198-230 | reading through the shared position gives the whole content and restores the position |
| BodyStorage.SameAnswersIff | newapi/common/body_storage.go:14-24 | both storages answer an operation sequence alike if and only if it never reads nothing at the end |
| BodyStorage.RunMemory | newapi/common/body_storage.go:47-85 | operation sequences on the memory storage |
| BodyStorage.RunDisk | newapi/common/body_storage.go:169-234 | operation sequences on the disk storage |
| BodyStorage.ReadsDeliver | newapi/common/body_storage.go:47-54 | consecutive reads of any sizes deliver the content in order |
| BodyStorage.RewindAndRead | newapi/common/body_storage.go:74-81 | rewinding and reading delivers what Bytes returns |
| BodyStorage.CreateBodyStorage | newapi/common/body_storage.go:241-259 | either backend holds exactly the data; the disk is used exactly when enabled, large enough, available and working |
| BodyStorage.CreateBodyStorageFromReader | newapi/common/body_storage.go:262-303 | either backend holds exactly what is kept of the body; too large bodies, reader errors and disk failures are told apart exactly |
| BodyStorage.ReadBodyExactIff | newapi/common/body_storage.go:285-291 | the body is kept whole or refused by the limit if and only if the limit is not the largest 64-bit number or the body is empty |
| BodyStorage.LimitIsWhole | newapi/common/gin.go:60-69 | the caller's limit is a whole number of megabytes, never the largest number, so its bodies are kept or refused by it exactly |
| BodyStorage.LimitInBytes | newapi/common/gin.go:60-64 | the limit in bytes, 128 MB without a positive setting |
| BodyStorage.RequestLimitIff | newapi/common/gin.go:60-69 | bodies are kept or refused by the configured megabytes if and only if there are fewer than 2^43 |
| BodyStorage.DiskAvailableIff | newapi/common/disk_cache_config.go:170-177 | the room check is right unless the sum leaves the 64-bit range |
| UsageCounters.InvAlways | newapi/common/disk_cache_config.go:108-134 | after every atomic step each counter is the sum of the bodies' shares |
| UsageCounters.NeverNegative | newapi/common/disk_cache_config.go:115-122 | no counter is ever negative |
| UsageCounters.NeverReset | newapi/common/disk_cache_config.go:116-121 | the resets to zero never happen |
| UsageCounters.QuietExact | newapi/common/body_storage.go:37-72 | at quiescence count and bytes are the number and total size of the unclosed bodies of each backend |
| UsageCounters.UnclosedIsCardinality | newapi/common/body_storage.go:37-72 | that number is the number of bodies created and not closed |
| UsageCounters.UnclosedBytesAdd | newapi/common/body_storage.go:37-72 | and the total the sum of their sizes |
| UsageCounters.ClosedForGood | newapi/common/body_storage.go:187-196 | after the first effective close further closes change nothing and the body never comes back |
| MjRefund.ProcessItem | newapi/controller/midjourney.go:121-196 | copy, stored row and balance after one response item; an open task gets its full quota back if and only if it fails, its status is still the one read, and save and credit work |
| MjRefund.Midjourney.TakeOver | newapi/controller/midjourney.go:133-175 | the copy after taking over a response and whether to refund |
| MjRefund.Midjourney.UpdateWithStatus | newapi/model/midjourney.go:165-171 | compare-and-set on the stored status |
| MjRefund.SkippedIff | newapi/controller/midjourney.go:202-262 | an update is skipped if and only if it would change nothing and could not refund again |
| MjRefund.RefundedOnceIff | newapi/controller/midjourney.go:121-196 | with any pollers and stale copies a task is refunded at most once in every run if and only if no failing response leaves a status an open task can have |
| MjRefund.BalanceCountsRefunds | newapi/controller/midjourney.go:176-182 | in every run the balance is its start plus the number of refunds times the task's quota |
| MjRefund.RefundedOnceBalance | newapi/controller/midjourney.go:121-196 | under that condition the balance ends at its start or the quota above it, then with the task finished |
| MjRefund.StatusReturns | newapi/controller/midjourney.go:133-182 | two refunds although each changes the stored status and finished tasks are not fetched |
| MjRefund.SinglePollerOnce | newapi/model/midjourney.go:93-102 | a single poller gives the quota back at most once, as finished tasks are not fetched |
| MjRefund.FailureMet | newapi/controller/midjourney.go:121-182 | the poll that meets a failure finishes the task and gives the quota back, if save and credit work |
| MjRefund.RepeatedItemIff | newapi/controller/midjourney.go:121-180 | the same item twice refunds twice if and only if it gives a failure reason without the final progress |
| TaskPolling.UpdateVideoSingleTask | newapi/service/task_polling.go:344-502 | stored task, copy and balance after a poll with a copy of any age, with a lost race, failing saves and funding calls, and replies without a status |
| TaskPolling.PollShows | newapi/service/task_polling.go:400-471 | status, progress, times, reason and result link that a poll leaves in the row |
| TaskPolling.EmptyStatus | newapi/service/task_polling.go:400-420 | which replies without a status count as a failure |
| TaskPolling.PollPays | newapi/service/task_polling.go:473-500 | what a poll pays: the quota to the winner of a failure, the quota less the price to that of a success |
| TaskPolling.VideoTask.TakeOver | newapi/service/task_polling.go:422-471 | the status switch |
| TaskPolling.VideoTask.Save | newapi/service/task_polling.go:473-492 | a final status is saved by compare-and-set and billed only by the winner |
| TaskPolling.VideoTask.UpdateWithStatus | newapi/model/task.go:404-417 | compare-and-set on the stored status |
| TaskPolling.VideoTask.RecalculateTaskQuota | newapi/service/task_billing.go:187-217 | moves exactly the difference to a positive settled price, if the funding call succeeds |
| TaskPolling.VideoTask.RefundTaskQuota | newapi/service/task_billing.go:152-162 | gives the charge back, if the funding call succeeds |
| TaskPolling.TimeOutTask | newapi/service/task_polling.go:57-82 | one task of the timeout sweep: guarded failure, refund unless of the old system |
| TaskPolling.TimeoutShows | newapi/service/task_polling.go:51-82 | what a timeout writes and pays; no refund for tasks submitted before 22 February 2026 |
| TaskPolling.RefreshTask | newapi/relay/relay_task.go:453-478 | a user's query stores the upstream's status, guarded, without billing |
| TaskPolling.RefreshShows | newapi/relay/relay_task.go:460-478 | status, progress and result link that a query leaves in the row |
| TaskPolling.Books | newapi/service/task_billing.go:152-217 | in every run of pollers, sweeps, bulk failures and queries the balance is the sum of the recorded endings, waiting copies are not final, and the stored quota is the pre-charge |
| TaskPolling.BilledOnceIff | newapi/service/task_polling.go:473-500 | at most one refund or settlement in every run if and only if no query meets an open status |
| TaskPolling.RefundedTwice | newapi/relay/relay_task.go:453-478 | otherwise a run that refunds the task twice |
| TaskPolling.FailureRefundedIff | newapi/relay/relay_task.go:453-478 | with working funding calls every failed task has its full refund in every run if and only if no query meets a failure |
| TaskPolling.FinalForever | newapi/service/task_polling.go:473-492 | a final task, whoever made it so, is never billed later, if no query meets an open status |
| TaskPolling.RefundLostIff | newapi/service/task_polling.go:42-88 | without queries, a failed task's charge is back if and only if no step ended it without paying: a failing funding call, a timeout of an old task, a bulk failure |
| TaskPolling.NetPayment | newapi/service/task_polling.go:344-560 | without queries and with working funding calls the net payment is the pre-charge while open, nothing once failed, the price once succeeded |
| TaskPolling.SharedCopy | newapi/service/task_polling.go:109-117 | one copy polled twice, as with two tasks of one upstream id, refunds a failure twice and settles a success once |
| VideoBilling.UpdateVideoSingleTask | newapi/controller/task_video.go:127-276 | stored task, copy and balance after a poll with a copy of any age, with failing charges, saves and refunds; an unknown status is an error and saves nothing |
| VideoBilling.PollShows | newapi/controller/task_video.go:127-263 | status, progress, times and reason that a poll leaves in the row |
| VideoBilling.PollMoves | newapi/controller/task_video.go:184-274 | what a success and a failure move between balance and quota |
| TaskStatus.UnfinishedIff | newapi/model/task.go:306-314 | which tasks are fetched |
| VideoBilling.VideoTask.TakeOver | newapi/controller/task_video.go:127-263 | the status switch |
| VideoBilling.VideoTask.Settle | newapi/controller/task_video.go:184-236 | a charge or partial refund moves exactly the difference between balance and quota |
| VideoBilling.WorthDrifts | newapi/controller/task_video.go:127-276 | over any polls with any failures, balance plus what is owed changes by exactly the listed drifts |
| VideoBilling.PollBalancedIff | newapi/controller/task_video.go:184-274 | the exact condition for one poll to keep balance plus what is owed |
| VideoBilling.RunDrifts | newapi/controller/task_video.go:127-276 | with any number of pollers and copies of any age, balance plus what is owed changes by exactly the drifts, those of overwritten rows included |
| VideoBilling.StaleBalancedIff | newapi/controller/task_video.go:264-267 | a poll that keeps the books with a current copy keeps them with an old one if and only if copy and row owe the same or nothing is saved |
| VideoBilling.CurrentRuns | newapi/controller/task_video.go:127-276 | pollers whose copies are current do together what one poller does |
| VideoBilling.EveryCopyRefunds | newapi/controller/task_video.go:241-274 | n copies fetched before a failure is stored refund it n times |
| VideoBilling.NetPayment | newapi/controller/task_video.go:127-276 | with successful saves and refunds and no return from failure, the net payment is the task's quota while not failed and zero after |
| VideoBilling.FailureRepeats | newapi/controller/task_video.go:241-257 | repeated failures move nothing |
| VideoBilling.SuccessRepeats | newapi/controller/task_video.go:184-236 | successes at one price charge the difference once |
| VideoBilling.UnsavedChargesRepeat | newapi/controller/task_video.go:184-267 | every success poll whose save fails charges again |

## Left out

- MultiKey.Channel.AppendKeys: does not model pasted Vertex AI key arrays or an empty stored key text.
- MultiKey.Channel.PerformAll: requests come one after the other. `newapi/controller/channel.go:1271-1288` reads the channel before taking the per-channel lock, so of two concurrent requests the later can undo the edit of the earlier.
- MultiKey.Channel.Update: does not model a failing database write or the ability table.
- MultiKey.Channel.EnableAllKeys: reports the size of the status map as the code does; EnableAllCountIff says when that is the number of keys changed. The code never writes an explicit "enabled" (`newapi/model/channel.go:668-669` deletes the entry), so the two differ only for data written by something else.
- TopUp.CreditedAtMostOnce: does not model Stripe, Creem, Waffo and other gateways' own completion functions, nor several processes, which share no lock.
- RateLimit.SameAnswers: assumes a clock that does not go back and a fixed limit and window per key.
- ModelsDev.SelectionIsCheap: floating-point rounding is not modelled, prices are real numbers.
- UpstreamSync.InvAlways: is the case of comma-free upstream names, and so are the convergence results; AlwaysCurrentIff and CommaAlwaysPending say what holds for other names. Regular-expression matching is an uninterpreted relation.
- KeysetSweep.Sweep: the table does not change during the sweep; the work done per channel is in UpstreamSync.
- Enrich.EnrichModels: the JSON encoding of endpoint lists is an uninterpreted function that never fails.
- BodyStorage.SameAnswersIff: file errors, short reads, file-size limits of the file system and seek origins other than start, current and end are not modelled, nor that Bytes of the memory storage shares its array with the caller.
- BodyStorage.CreateBodyStorage: two creations may pass the room check together; the usage is a parameter and the counters are in UsageCounters.
- UsageCounters.QuietExact: excludes age-based cleanup of live files, the maintenance calls that overwrite the counters, and the cached files of `newapi/service/file_service.go:206-209` and `363-366`, which move the same disk counters.
- MjRefund.RefundedOnceIff: a response names a task at most once per fetch; responses for unknown tasks, tasks sharing an upstream id, database engines that report an update to equal values as no row affected, and the saved but unread properties and buttons are not modelled.
- TaskPolling.BilledOnceIff: save and payment of a poll are one step, as the payment reads the copy alone; the token's own quota, subscriptions, the usage statistics and the logs are not modelled, and the settled price is a given integer. Each fetched copy is polled once (SharedCopy treats the other case), and the music tasks, which have their own unguarded poll, are left out.
- VideoBilling.NetPayment: the price of a success is a given integer; its computation from tokens and ratios, the usage statistics and the logs are not modelled.
- Key status listing with pagination: only formats what MultiKey holds.
- JSON decoding of prices: numbers are reals and nested values do not occur; a number in a text field compares by value.
- Strings are sequences of characters, not bytes; the cases where Go compares bytes agree on valid UTF-8 but for the order of provider names beyond the basic plane.
- The other audio formats wrap external decoders; OpenRouter price conversion is a field-by-field calculation.
- HTTP handling, logging, authentication, relay routing and retry: no algorithm of their own in this scope.
