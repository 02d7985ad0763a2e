# A verified model of the gateway's core

This project models, in Dafny, the parts of the API gateway where money, state or concurrency make it easy
to be wrong, and proves properties of them for all inputs, all runs or all interleavings.

| file | what it models |
|---|---|
| `Options.dfy`, `Numbers.dfy` | optional values, and small facts several modules need |
| `OrderLock.dfy` | the reference-counted lock per payment order, one step per memory access, any number of threads of one process |
| `TopUpCredit.dfy` | the payment handlers under that lock: epay notification, administrator completion, Stripe success, failure and expiry, and the subscriptions they complete |
| `RateLimit.dfy` | the in-memory rate limiter against a sliding-window log |
| `Verification.dfy` | the store of verification codes, keyed by purpose and address joined in one string |
| `OggScan.dfy` | the duration of an Ogg stream (the page layout of section 6 of RFC 3533) |
| `Text.dfy`, `MultiKey.dfy`, `MultiKeyChannel.dfy` | channels with several keys in one text column and three maps by key position |
| `ModelNames.dfy`, `UpstreamSync.dfy`, `ChannelWalk.dfy` | keeping a channel's model list in step with its upstream, and the batched walk over all channels |
| `Tolerance.dfy`, `RatioDiff.dfy`, `ModelsDev.dfy` | the price comparison report, and choosing one price per model |
| `VideoTask.dfy`, `TaskPolling.dfy` | the bill of a video task over repeated polls, and over concurrent pollers with a guarded write and owners looking at the task |
| `BodyStorage.dfy` | the counters of request bodies on disk and in memory, and the disk limit |
| `RelayRetry.dfy`, `Billing.dfy`, `RequestBilling.dfy` | the retry loop over priorities and groups, the billing session, and both together |
| `OptionBundle.dfy` | exporting and importing the options |

`dafny verify dfyconfig.toml` checks everything.

Code that updates state is modelled by classes and loops that are proved equal to a specification function
(`Act`, `Step`, `Next`, `Scan`, `Loop`, ...); the properties are then lemmas about that function. Concurrent
code is a state machine whose steps are the single accesses to shared memory, and the lemmas hold for every
interleaving. Clocks, upstream answers, failing writes, JSON decoding and regular expressions are parameters.
Prices are `real` numbers.

## Where a property one would expect is false

The lemmas named show where it fails, and say exactly when it holds or by how much it is missed.

- Deleting the auto-disabled keys when all keys are auto-disabled deletes none and enables them all, because an
  empty key text is not written (`AllAutoDisabledComeBack`, `DeleteAutoDisabledIff`).
- After a deletion the keys read back right exactly under the condition of `DeleteKeepsKeysIff`; otherwise statuses
  move to the wrong key (`BlankKeyShiftsStatuses`). Appending to keys that begin with a bracket but are no JSON array
  drops them all (`AppendDropsKeys`). An update of a failing key saved from a copy loaded before a deletion leaves a
  row that is not valid (`StaleInfoIff`).
- The sweep of the rate limiter is unobservable exactly when the window is at most one second longer than the
  expiry; a limit of zero lets one request through (`SweepsUnobservableIff`).
- Verification codes of different purposes stay apart exactly when no purpose begins another
  (`UnobservableIffPrefixFree`); the two purposes in use do (`PurposesInUse`).
- A second detection after applying everything finds nothing exactly under the condition of
  `DetectAgainFindsNothingIff`; a model named like an ignore pattern, or one with a comma, breaks it
  (`PatternNameGivesWay`, `CommaNameComesBack`). Names with commas also put the waiting list out of step
  (`RunInvIff`, `CommaBreaksStep`).
- The walk over the channels ends exactly when the first full batch ends in a positive id (`WalkEndsIff`).
- The report leaves out an upstream value that is the word "same" (`ReportedIff`, `SameIsMissed`).
- The chosen price is exactly the cheapest under the condition of `CheapestIff`, and otherwise within the
  tolerance (`NearTieKeepsFirst`, `SelectionIsCheapest`).
- An order can become successful without a credit: when its quota write fails, and when it stands for a subscription
  (`SuccessWithoutCredit`).
- A poll keeps a video task's books balanced exactly when none of four things happens (`BalancedIff`,
  `RevivedIsRefundedTwice`).
- Pollers alone bill a video task exactly once (`PollersBillOnce`), but it is billed once more for every time it is
  brought back from its end (`BillsAre`). An owner's look at a task of Gemini or Vertex writes down whatever the upstream says, without
  a bill: it can bring a refunded task back, to be refunded again every time (`RefundedTwice`, `RefundedEveryTime`),
  record an end that is then never billed (`SeenEndIsNotBilled`), or put an old quota back (`OldQuotaComesBack`). And a
  poller that finds no channel for a task fails it without asking and without a refund, even after a success
  (`SuccessIsOverturned`). The books are right, and an end is final, exactly when no move does any of this
  (`InOrderThroughoutIff`, `EndIsFinalIff`).
- The disk limit can be overshot, by a bound that is attained (`LimitHolds`, `LimitBoundIsAttained`). The clean-up of
  old files takes files off the counters that their owners take off again (`CleanUpExactIff`).
- The documentation above `CacheGetRandomSatisfiedChannel` counts the retries of all groups together; in the
  code each group has its own (`AttemptsBound`, `BoundIsAttained`). With a negative number of retries a request
  is neither sent nor refunded, and a task crashes (`NegativeRetries`).
- An answered request whose settlement fails keeps its reserve instead of its actual quota, and what a failed rollback
  took comes back only to a wallet that is refunded (`RequestCosts`, `RollbackComesBack`).
- Settling a billing session after a refund charges too little (`SettledAfterReturn`).
- A second import of the same bundle writes exactly the theme settings other than "default"
  (`SecondImportWritesIff`).

## Model

| member | source | states |
|---|---|---|
| `OrderLock.StepInv` | controller/topup.go:270-299 | every single memory access of LockOrder and UnlockOrder keeps the invariant: one thread in the creation section, one mutex per order shared by all its users, the count is the number of users, an entry exists only while it has users |
| `OrderLock.MutualExclusion` | controller/topup.go:270-299 | at most one thread holds the lock of an order, the lookup in UnlockOrder finds the very mutex that was locked, and no unlock of an unlocked mutex happens |
| `OrderLock.NoDeadlock` | controller/topup.go:270-299 | while some handler is between lock and unlock, some thread can move |
| `OrderLock.EntriesAreInFlight` | controller/topup.go:285-299 | an order has an entry in the map only while some thread is using it, so the map cannot leak |
| `OrderLock.RunsKeepInv` | controller/topup.go:270-299 | the invariant holds in every state of every interleaving from the start |
| `OrderLock.StepProgress` | controller/topup.go:270-299 | every access brings its thread one step nearer to the end |
| `OrderLock.Drains` | controller/topup.go:270-299 | without new calls every schedule stops within the outstanding number of accesses, and only with all threads idle and the map empty |
| `TopUpCredit.DecideIsSound` | controller/topup_stripe.go:223-336 | what each access of each handler may do: a row leaves pending once, only an order of the right provider becomes successful, is failed or expired, a credit is the order's worth for its user, and a pending subscription order is completed with its row marked successful and no credit |
| `TopUpCredit.ChosenIsSound` | model/subscription.go:511-645 | the same where the subscription order cannot be read, which counts as its not existing |
| `TopUpCredit.PerformInv` | model/topup.go:107-158 | every access of every handler keeps the books: credits once, only for successful top-up orders, subscriptions started once, and balances equal to the start plus the credits |
| `TopUpCredit.NextInv` | controller/topup_stripe.go:223-336 | so does every step of the whole system: handlers arriving, lock moves, orders and subscription orders being placed, and subscription orders being abandoned outside the lock |
| `TopUpCredit.CreditsOverRuns` | controller/topup.go:364-399 | over every interleaving of repeated notifications no order is credited twice and no subscription started twice, every credit is for a top-up order that was pending or placed since, for its worth, and balances grew by exactly the credits |
| `TopUpCredit.SuccessWithoutCredit` | model/subscription.go:511-617 | once all handlers have returned, an order that became successful without a credit is one whose quota write failed or a subscription that was started; exactly these, if top-ups and subscriptions have different numbers |
| `TopUpCredit.SubscriptionIsNotCredited` | controller/topup_stripe.go:274-277 | completing a Stripe subscription order marks a row successful, starts the subscription and credits nothing |
| `TopUpCredit.CreditedStaysSuccessful` | controller/topup_stripe.go:223-257 | a credited order is never turned into a failed or expired one, and does not change at all unless a subscription has its number |
| `TopUpCredit.LockIsNeeded` | controller/topup.go:364-371 | without the order lock two notifications can credit the same order twice |
| `RateLimit.InMemoryRateLimiter.Request` | common/rate-limit.go:45-70 | the answer and the new store are those of the specification of one request |
| `RateLimit.InMemoryRateLimiter.ClearExpiredItems` | common/rate-limit.go:28-42 | the loop drops exactly the stale queues and changes no other |
| `RateLimit.YoungIffNthNewest` | common/rate-limit.go:52-63 | in a sorted log, looking at the oldest of the newest e entries decides whether e requests lie in the window |
| `RateLimit.AdmitAgrees` | common/rate-limit.go:45-70 | the bounded queue admits exactly when the full log admits, and mirrors it afterwards |
| `RateLimit.AgreesWithLog` | common/rate-limit.go:28-70 | for every history of requests for any keys and of sweeps, the answers are those of a sliding-window log that forgets nothing |
| `RateLimit.SweepsUnobservableIff` | common/rate-limit.go:28-42 | sweeping can never be noticed if and only if the window is at most one second longer than the expiry |
| `Verification.VerificationStore.Register` | common/verification.go:35-45 | the entry is replaced and, past the size limit, expired entries are dropped |
| `Verification.VerificationStore.Verify` | common/verification.go:47-56 | true exactly for a stored code that equals the given one and has not expired |
| `Verification.VerificationStore.RemoveExpiredPairs` | common/verification.go:65-72 | the loop drops exactly the expired entries |
| `Verification.JoinIsInjective` | common/verification.go:35-62 | if no purpose begins another, the joined key determines purpose and address |
| `Verification.AnswersAgree` | common/verification.go:35-72 | the answers of any history equal those of a store keyed by pairs that never drops anything |
| `Verification.PrefixCollides` | common/verification.go:35-56 | a purpose that continues another lets its code verify for that other one |
| `Verification.UnobservableIffPrefixFree` | common/verification.go:35-72 | joining and sweeping are unobservable in every history if and only if no purpose begins another |
| `Verification.PurposesInUse` | common/verification.go:16-19 | the two purposes of the program never collide |
| `OggScan.PageSize` | common/audio.go:241-245 | the loop adds up the segment table |
| `OggScan.GetOpusDuration` | common/audio.go:196-254 | the loop ends on every input and returns the scanned granule position over 48000 |
| `OggScan.DecodeEncode` | common/audio.go:229 | reading a little-endian number gives back what was written, for every width |
| `OggScan.GranuleRoundTrip` | common/audio.go:228-229 | every signed 64-bit granule position survives the header |
| `OggScan.LargestIsMaximum` | common/audio.go:230-232 | the running maximum is an upper bound, and is attained or the initial value |
| `OggScan.ScanFindsEveryPage` | common/audio.go:196-254 | on every stream of well-formed pages with arbitrary markless bytes between them the scan finds every page and returns the largest granule position, or 0 |
| `Text.ReadBackIff` | model/channel.go:81-103 | a list stored in one column reads back as itself if and only if no part holds the separator and neither end is blank |
| `MultiKey.DeleteView` | controller/channel.go:1542-1620 | deleting a key leaves the texts and the shown status, time and reason of the others, renumbered; the last key cannot be deleted; the remaining keys must not read as some other JSON array |
| `MultiKey.DeleteAutoDisabledView` | controller/channel.go:1622-1690 | deleting the auto-disabled keys leaves the others as shown before, renumbered, if there are others |
| `MultiKey.AllAutoDisabledComeBack` | model/channel.go:458-505 | with all keys auto-disabled none is deleted and all are enabled again |
| `MultiKey.DeleteAutoDisabledIff` | controller/channel.go:1622-1690 | the deletion is right if and only if some key is not auto-disabled |
| `MultiKey.DeleteKeepsKeysIff` | controller/channel.go:1542-1620 | for keys of any kind, JSON arrays included, the exact condition for the others to read back right |
| `MultiKey.BlankKeyShiftsStatuses` | controller/channel.go:1542-1620 | a blank key in the middle makes a later key take over its status |
| `MultiKey.FreshKeysAre` | controller/channel.go:928-947 | the appended keys are exactly the named ones that are not blank and not there yet, each once |
| `MultiKey.AppendEffect` | controller/channel.go:876-955 | appending keys of one line each leaves old keys and all side maps as they were and puts the new keys behind |
| `MultiKey.ExistingAreKeysIff` | controller/channel.go:885-899 | the append logic finds the keys there are if and only if the text does not begin with a bracket without being a JSON array |
| `MultiKey.AppendDropsKeys` | controller/channel.go:885-950 | in that case it finds none, and appending drops all old keys |
| `MultiKey.PlainSuits` | controller/channel.go:876-955 | keys that do not begin with a bracket or a blank never get into either case |
| `MultiKey.ActKeepsValid` | controller/channel.go:1242-1698 | every action keeps the size equal to the number of keys and every map within it, and leaves the keys it should, where these read back |
| `MultiKey.KeyKeepsItsState` | controller/channel.go:1242-1698 | a key the action is not about keeps text, status, time and reason wherever it moves |
| `MultiKey.MovedKeepsOrder` | controller/channel.go:1542-1690 | keys that stay keep their order in one action |
| `MultiKey.SurvivorsKeepOrder` | controller/channel.go:1242-1698 | over every run the keys that are not deleted keep their text and their order, whatever is done to their statuses |
| `MultiKey.PlainRunsSuit` | controller/channel.go:1242-1698 | with plain keys the condition of the run theorems holds of every run |
| `MultiKey.RunsKeepKeys` | controller/channel.go:1242-1698 | over every run of actions the row stays valid, and a key no action is about keeps text, status, time and reason |
| `MultiKey.StaleInfoIff` | model/channel.go:641-672 | saving everything but the key text from a stale copy keeps the row valid if and only if the number of keys has not changed |
| `MultiKey.DeleteMeanwhile` | model/channel.go:641-672 | a deletion between loading and saving breaks it |
| `MultiKey.SettingsTakeEffect` | controller/channel.go:1386-1540 | what enabling and disabling, one or all, do to the keys they are about |
| `MultiKey.PagesCover` | controller/channel.go:1347-1368 | every key is on exactly its page, and the number of pages fits |
| `MultiKeyChannels.KeysWithout` | controller/channel.go:1560-1592 | the loop of the deletion computes the renumbered row |
| `MultiKeyChannels.KeysNotAutoDisabled` | controller/channel.go:1622-1660 | the loop of the bulk deletion computes the renumbered row and the number of deleted keys |
| `MultiKeyChannels.DisableEnabled` | controller/channel.go:1507-1519 | the loop disables exactly the enabled keys and counts them |
| `MultiKeyChannels.Deduplicate` | controller/channel.go:928-947 | the loops drop blank and repeated keys |
| `MultiKeyChannels.MultiKeyChannel.DisableAllKeys` | controller/channel.go:1495-1540 | the row afterwards; refused exactly when no key is enabled |
| `MultiKeyChannels.MultiKeyChannel.DeleteKey` | controller/channel.go:1542-1620 | the row afterwards; refused exactly for an index out of range or the last key |
| `MultiKeyChannels.MultiKeyChannel.DeleteDisabledKeys` | controller/channel.go:1622-1690 | the row afterwards and the number of deleted keys |
| `MultiKeyChannels.MultiKeyChannel.AppendKeys` | controller/channel.go:876-955 | the row afterwards |
| `MultiKeyChannels.MultiKeyChannel.UpdateStatus` | model/channel.go:573-609 | the row afterwards; a key that is not found counts as the first |
| `MultiKeyChannels.MultiKeyChannel.GetKeyStatus` | controller/channel.go:1272-1384 | statistics over all keys, and one page of the keys with the status asked for, the page moved back to the last one |
| `ModelNames.NormalizeIs` | controller/channel_upstream_update.go:97-102 | the result is trimmed, non-empty and distinct, and names exactly what the list names |
| `ModelNames.MergeModelNames` | controller/channel_upstream_update.go:104-118 | the loop computes the merge |
| `ModelNames.MergeIs` | controller/channel_upstream_update.go:104-118 | the merge is the union, beginning with the first list |
| `ModelNames.SubtractIs` | controller/channel_upstream_update.go:120-129 | the difference, clean |
| `ModelNames.IntersectIs` | controller/channel_upstream_update.go:131-140 | the intersection, clean |
| `ModelNames.ApplySelectedIs` | controller/channel_upstream_update.go:142-147 | a name is in the result exactly when selected for adding, or there before and not selected for removal |
| `ModelNames.ApplySelectedOrder` | controller/channel_upstream_update.go:142-147 | the old names without the removed ones, in order, then the added ones |
| `UpstreamSync.CollectPending` | controller/channel_upstream_update.go:176-235 | the loops compute what to add and what to remove |
| `UpstreamSync.StoredModelsIff` | model/channel.go:196-201 | the list written is the list read if and only if no name holds a comma |
| `UpstreamSync.StoredPieces` | model/channel.go:196-201 | whatever the names hold, what is read back is their pieces between commas |
| `UpstreamSync.CheckedIs` | controller/channel_upstream_update.go:360-407 | a check never takes a model away; it appends all missing ones with auto-sync and lists them otherwise, and lists what is gone upstream |
| `UpstreamSync.AppliedModels` | controller/channel_upstream_update.go:780-828 | the models after an application: the old ones without the removals, and what the additions read back as |
| `UpstreamSync.AppliedLists` | controller/channel_upstream_update.go:780-828 | the ignore list and the two waiting lists after an application |
| `UpstreamSync.ApplyPartitions` | controller/channel_upstream_update.go:780-828 | each waiting model goes to exactly one of model list, ignore list and waiting list, adding winning; a name with a comma enters the model list as its pieces |
| `UpstreamSync.ApplyInvIff` | controller/channel_upstream_update.go:780-828 | an application keeps the waiting lists in step with the model list, the redirects and the ignore list if and only if no name that keeps waiting is a piece of a name that is added |
| `UpstreamSync.RunInvIff` | controller/channel_upstream_update.go:360-828 | over every run, with failed fetches and writes and skipped checks, they are in step throughout if and only if every application is such |
| `UpstreamSync.RunInv` | controller/channel_upstream_update.go:360-828 | they always are when no upstream answer holds a comma |
| `UpstreamSync.CommaBreaksStep` | controller/channel_upstream_update.go:780-828 | adding a name with a comma leaves a waiting piece of it both waiting and in the model list |
| `UpstreamSync.CommaExample` | controller/channel_upstream_update.go:780-828 | a record where that happens, for any such pair of names |
| `UpstreamSync.RunModels` | controller/channel_upstream_update.go:360-828 | over every run a model leaves only if an application names it and it is no redirect source, and enters only if it, or a name it is a piece of, waited or was offered by an upstream answer |
| `UpstreamSync.SyncedModels` | controller/channel_upstream_update.go:847-926 | after detecting and applying everything the list holds exactly what it should |
| `UpstreamSync.DetectAgain` | controller/channel_upstream_update.go:736-828 | what a second detection finds, exactly, when no name added holds a comma |
| `UpstreamSync.DetectAgainFindsNothingIff` | controller/channel_upstream_update.go:736-828 | for every upstream list it finds nothing if and only if no name added holds a comma and every ignored upstream name is still ignored by an entry that was not added |
| `UpstreamSync.DetectAgainFindsNothing` | controller/channel_upstream_update.go:736-828 | it finds nothing when no name added holds a comma or looks like a pattern |
| `UpstreamSync.PatternNameGivesWay` | controller/channel_upstream_update.go:210-224 | adding a model named like an ignore pattern releases what the pattern held back |
| `UpstreamSync.CommaNameComesBack` | controller/channel_upstream_update.go:736-828 | a name with a comma is found again after every round |
| `UpstreamSync.Channel.CheckAndPersist` | controller/channel_upstream_update.go:360-407 | the record afterwards, on all paths, and the number of models added |
| `UpstreamSync.Channel.ApplyUpdates` | controller/channel_upstream_update.go:780-828 | the record afterwards and the lists reported |
| `ChannelWalk.VisitEnabled` | controller/channel_upstream_update.go:540-608 | the loop visits all enabled channels once in id order, or after a failed query a whole number of batches of them |
| `ChannelWalk.WalkEndsIff` | controller/channel_upstream_update.go:834-926 | the walk ends if and only if the first full batch ends in a positive id, and has then visited every channel once in order |
| `ChannelWalk.RoundsRepeat` | controller/channel_upstream_update.go:834-845 | otherwise the first batch comes back for ever |
| `RatioDiff.CompareCell` | controller/ratio_sync.go:593-641 | the loop over the channels shows each channel's value, "same" or nothing, and includes a price exactly when some channel has another value |
| `RatioDiff.BuildDifferences` | controller/ratio_sync.go:536-696 | the report: which prices, their local values, and for each channel with a difference what it shows, whatever order the maps are walked in |
| `RatioDiff.ReportedIff` | controller/ratio_sync.go:656-693 | a price that should be reported is, if and only if a difference there is real or a channel differing elsewhere is silent there |
| `RatioDiff.ReportedWhenPlain` | controller/ratio_sync.go:593-693 | nothing is missed and nothing made up where no upstream value is null or "same" |
| `RatioDiff.SameIsMissed` | controller/ratio_sync.go:593-693 | the upstream value "same" goes unreported |
| `RatioDiff.ChannelLeftOutIff` | controller/ratio_sync.go:656-674 | a channel is left out if and only if it has no real difference |
| `RatioDiff.AdoptedChannelSettles` | controller/ratio_sync.go:536-696 | taking over all of a channel's values leaves nothing to report against it |
| `ModelsDev.SelectCandidates` | controller/ratio_sync.go:915-944 | the loops select, for every model, the choice over its offers in provider order |
| `ModelsDev.TieBreakNeverFires` | controller/ratio_sync.go:881-893 | in sorted order only a first offer, a first price or one cheaper by the tolerance replaces |
| `ModelsDev.ChosenIsCheapest` | controller/ratio_sync.go:881-893 | the choice has a price whenever any offer has, and no offer undercuts it by more than the tolerance |
| `ModelsDev.CheapestIff` | controller/ratio_sync.go:881-893 | the choice is exactly the first cheapest offer if and only if what was chosen before it had no price or one dearer by the tolerance |
| `ModelsDev.NearTieKeepsFirst` | controller/ratio_sync.go:881-893 | two prices within the tolerance where the dearer one is chosen |
| `ModelsDev.SelectionIsCheapest` | controller/ratio_sync.go:915-944 | from the table to the choice: a model is selected exactly when offered, with one of its offers, priced if any is, and no provider undercuts it by more than the tolerance |
| `ModelsDev.CheapestWhenSeparated` | controller/ratio_sync.go:881-893 | it is when different prices are at least the tolerance apart |
| `ModelsDev.OutOfOrderDrifts` | controller/ratio_sync.go:915-919 | without sorting the providers the tie-breaker lets the price creep up |
| `ModelsDev.InputGivenBack` | controller/ratio_sync.go:954-961 | the input price comes back from the model ratio within a millionth of a dollar, and a model with price zero is free |
| `ModelsDev.PartGivenBack` | controller/ratio_sync.go:963-971 | so do output and cache prices, within half a millionth of the input price |
| `VideoTask.Task.Update` | controller/task_video.go:30-276 | the row and the money after a poll, with every write that may fail and a channel that may be gone |
| `VideoTask.BalancedIff` | controller/task_video.go:127-276 | a poll keeps paid equal to the quota, or to nothing after a failure, if and only if no settlement is forgotten, no refund is lost, no failed task is revived and none is failed for want of a channel |
| `VideoTask.RunBalancedIff` | controller/task_video.go:127-276 | over every run, with any writes failing, the books are balanced throughout if and only if every poll is harmless in that sense |
| `VideoTask.OrdinaryRunBalanced` | controller/task_video.go:127-276 | so they are when unfinished tasks are polled and the row and the refund are written, however often the settlement fails |
| `VideoTask.RepeatedPollIdleIff` | controller/task_video.go:127-276 | the same answer again changes nothing if and only if the first poll left nothing to settle and recorded the status, or what is left fails again |
| `VideoTask.RevivedIsRefundedTwice` | controller/task_video.go:251-273 | a refunded task reported running and failed again is refunded again |
| `TaskPolling.NextCounted` | service/task_polling.go:60-502 | every step of every poller and every owner keeps the count: each end is a bill that was won or an end without a bill, each revival follows an end, and each refund is a bill that was won |
| `TaskPolling.BillsAre` | service/task_polling.go:473-499 | in every interleaving of any number of pollers and owners, the bills are the revivals, and one more once the task has ended, less the ends without a bill; refunds are no more; billed at most once if and only if those ends make up for the revivals |
| `TaskPolling.InOrderIff` | relay/relay_task.go:522-579 | from books in order a step of a poller or an owner keeps them so if and only if it writes no old quota, loses no bill, and, if it writes without a bill, changes neither what is owed nor a row whose bill is in hand |
| `TaskPolling.InOrderThroughoutIff` | relay/relay_task.go:483-579 | over every interleaving the books are in order after every move if and only if every move is harmless in that sense |
| `TaskPolling.EndIsFinalIff` | model/task.go:507-545 | an ended task keeps its status throughout if and only if no move strikes a success and no look that goes through sees another status |
| `TaskPolling.PollersBillOnce` | service/task_polling.go:60-82 | if no task is struck, no look goes through at or to an ended status and no bill is lost, the task is billed exactly once when it has ended and not before, and at rest the user has paid the recorded quota, or nothing for a failure |
| `TaskPolling.RefundedTwice` | relay/relay_task.go:559-579 | failed, seen running by its owner and failed again, a task is refunded twice, and no write was lost |
| `TaskPolling.RefundedEveryTime` | relay/relay_task.go:559-579 | n such rounds refund it n times, for every n |
| `TaskPolling.SeenEndIsNotBilled` | relay/relay_task.go:559-579 | an end its owner sees first is recorded and never billed, whatever the pollers do afterwards |
| `TaskPolling.OldQuotaComesBack` | model/task.go:507-520 | a look at a success taken before its settlement was recorded puts the old quota back |
| `TaskPolling.SuccessIsOverturned` | service/task_polling.go:306-321 | a success that was billed is turned into a failure, and stays charged, by a poller that finds no channel |
| `TaskPolling.GuardIsNeeded` | model/task.go:507-520 | without the guard on the status two pollers refund the same task |
| `BodyStorage.NextInv` | common/disk_cache_config.go:109-134 | after every single counter access each counter holds exactly what its bodies add up to |
| `BodyStorage.ClampNeverFires` | common/disk_cache_config.go:115-122 | no counter falls below zero as long as only the owners of the files take them off, so setting it to zero never happens |
| `BodyStorage.CleanUpExactIff` | common/disk_cache.go:105-137 | the clean-up of old files keeps the counters exact if and only if there is nothing on them to take off |
| `BodyStorage.CountersAreExact` | common/body_storage.go:37-259 | whenever any interleaving is at rest the counters are the number and bytes of the open bodies of each kind, files cached on disk included |
| `BodyStorage.LimitHolds` | common/body_storage.go:241-303 | the bytes on disk never exceed the limit by more than the bodies admitted at the same time |
| `BodyStorage.LimitBoundIsAttained` | common/disk_cache_config.go:170-177 | and that bound is attained for every number of concurrent bodies |
| `RelayRetry.SelectGroup` | service/channel_select.go:106-154 | the loop over the groups computes the selection and the new counters |
| `RelayRetry.GetChannel` | controller/relay.go:287-317 | the channel of an attempt, the first one being chosen before the loop |
| `RelayRetry.RelayRequest` | controller/relay.go:180-236 | the loop ends and gives the outcome and the number of attempts |
| `RelayRetry.SelectSpends` | service/channel_select.go:33-162 | every attempt after the first uses up some of the remaining attempts, resets of the counter included |
| `RelayRetry.AttemptsBound` | controller/relay.go:180-236 | at most one attempt more than retries in one group, and as many for every group left with automatic groups |
| `RelayRetry.BoundIsAttained` | service/channel_select.go:83-162 | with groups that always have a channel that fails, exactly that many are made |
| `RelayRetry.LoopHistory` | controller/relay.go:180-236 | all attempts but the last failed with an error that may be repeated, and a request is answered exactly by its last attempt |
| `RelayRetry.EndsIff` | controller/relay.go:180-236 | the loop ends in an answer or an error if and only if the number of retries is not negative |
| `RelayRetry.CrashesIff` | controller/relay.go:496-572 | a task crashes on the missing result if and only if that number is negative |
| `Billing.BillingSession.ReserveMore` | service/billing_session.go:152-178 | the session, the money and the returned error after a reserve, rollbacks included |
| `Billing.BillingSession.SettleActual` | service/billing_session.go:41-79 | the session, the money and the returned error after a settlement |
| `Billing.BillingSession.ReturnAll` | service/billing_session.go:82-123 | the session and the money after a refund |
| `Billing.OpenedIsOpen` | service/billing_session.go:186-230 | a session starts out holding exactly its reserve, a trusted one nothing and a subscription at least one |
| `Billing.RunBooks` | service/billing_session.go:41-178 | after any sequence of calls, whichever of their writes fail, the request is charged its actual quota once, or returned in full, or holds exactly its reserve, or was settled after its return; the funding and the token have each given exactly that and what lost writes set adrift |
| `Billing.NothingAdrift` | service/billing_session.go:41-178 | nothing is adrift on a side none of whose writes was lost, whatever happened on the other |
| `Billing.RollbackComesBack` | service/billing_session.go:152-178 | what a failed rollback took from a wallet comes back with the refund, if and only if a reserve was held besides |
| `Billing.SettledFundingStays` | service/billing_session.go:38-78 | when the token cannot be adjusted the funding is settled all the same, and no later call returns it |
| `Billing.EndIsFinal` | service/billing_session.go:41-145 | once charged or returned no further call moves anything |
| `Billing.SettledAfterReturn` | service/billing_session.go:41-48 | except a settlement after a refund, which charges the actual quota less the whole reserve |
| `RequestBilling.RequestCosts` | controller/relay.go:161-236 | what the funding has paid, for every outcome of the final writes: the actual quota or a reserve that could not be settled, nothing or what could not be returned, and on top what failed rollbacks set adrift; after an error with all returns made nothing is paid if and only if nothing was adrift or a wallet held a reserve |
| `RequestBilling.SettledXorRefunded` | controller/relay.go:170-236 | however the attempts go, the session is settled exactly when the request was answered and the funding could be adjusted, and refunded exactly when it ended in an error and anything had been taken |
| `RequestBilling.NegativeRetries` | controller/relay.go:480-572 | with a negative number of retries a request keeps its whole reserve, and a task crashes before it has taken anything |
| `OptionBundle.OptionStore.BuildDiffs` | controller/option_bundle.go:213-249 | the loop computes the diffs and whether any is rejected |
| `OptionBundle.OptionStore.ApplyImport` | controller/option_bundle.go:99-163 | the options afterwards and whether the import succeeded, stopping at the first failing write |
| `OptionBundle.ImportTouchesOnly` | controller/option_bundle.go:99-139 | whatever the bundle and the failures, blocked keys and keys outside the bundle stay, others stay or get their value, in the database as far as it could be saved, and with anything rejected nothing changes |
| `OptionBundle.ImportTakesOver` | controller/option_bundle.go:99-139 | after an import without failure every key of the bundle that is not blocked has its value in memory, and the database has of those written what it could save |
| `OptionBundle.SecretsNeverLeave` | controller/option_bundle.go:45-74 | a key that ends like a secret, however it is spelt, is in no export unless it is one of the two public keys |
| `OptionBundle.OwnExportChangesNothing` | controller/option_bundle.go:60-74 | importing one's own export changes nothing, whatever the rules |
| `OptionBundle.SecondImportWritesIff` | model/option.go:208-227 | a second import writes a key if and only if nothing is rejected and it is a theme setting other than "default" |
| `OptionBundle.SecondImportWritesNothing` | controller/option_bundle.go:99-139 | without theme settings the second import writes nothing |
| `OptionBundle.TransferKeepsOptions` | controller/option_bundle.go:60-139 | export on one installation and import on another make all options that are not blocked the same |

## Left out

- The HTTP layer, sign-in, logging, notifications and all provider adaptors.
- Several processes: the order lock is local to one, and `CreditsOverRuns` is about one. Two that receive the same notification behave as in `LockIsNeeded`.
- Who calls `UpdateVideoTaskAll`, which `VideoTask.dfy` models: nothing in the repository does. The polling that runs is that of `TaskPolling.dfy`.
- Signature checks of the payment providers, and the Creem and Waffo handlers, which repeat the shape of the Stripe one.
- Floating-point rounding of quotas and prices: prices are exact numbers, and a conversion to an integer truncates.
- JSON decoding, regular expressions and sorting: they are parameters of the model.
- The confidence flags of the price report, and values that are objects or lists.
- Choosing the next enabled key of a channel, and the channel's own status when all its keys are disabled.
- The parsing of newly appended Vertex AI keys, which may be one JSON object each.
- Changes a person makes to a channel's models or ignore list between two synchronisation steps.
- Other interleavings of two people managing the keys of one channel: there the later save of a whole row wins.
- MultiKeyChannels.MultiKeyChannel.UpdateStatus: models the update of the key, not its caller's early return when the channel already has the status.
- Resetting or re-reading the disk counters by hand while bodies are open.
- The fee for a violation of an upstream's terms, charged besides the refund of a failed request.
- A failed advance payment, which creates no billing session, and the settlement of a free model, which has none.
- The polling of music tasks, which fails tasks without a channel in the same way, but refunds before it writes and writes without a guard; and that of drawing tasks.
