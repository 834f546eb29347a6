# iris notification engine, in Dafny

A model of the core of iris. Iris is a Go service that receives Alertmanager alerts, resolves
their receptor groups to addresses, dispatches them through notification channels
(Telegram, Mattermost, Asiatech SMS, Sms.ir), records one message per recipient, and
reconciles delivery statuses. It also fails over to an alternative provider once a message
has used up its attempts.

The model covers:

- **The generic LRU + TTL cache** (`LruCache.Cache`). Its state is the entry map, the recency
  list as a key sequence, and the array-backed expiry min-heap with per-node slot indices.
  The class is proved against a value-level meaning (`CacheSpec`). The pointer-level list
  surgery is modelled separately on values (`LruLinks`), together with the stale-tail
  finding below.
- **Cache options** (`CacheOptions`): the defaults, and the option closures applied in order.
- **The alert dispatcher** (`AlertProviders`, `AlertHandler`, `AlertDispatch`,
  `TelegramDispatchTrace`, and the corrected Telegram branch `TelegramAlignment`). This covers `getProvider`'s per-flag choice and sort, and
  `handleAlert`. `handleAlert` walks the receptor groups through the receptor cache, keeps
  the address list duplicate-free, writes per-outcome records, and marks the alert sent.
- **The alert scheduler's configuration** (`AlertConfig`).
- **The message status reconciler** (`MessageStatus`): its configuration check, its started
  flag, polling, failover, and the choice of an alternative provider.
- **The receptor cache refresher** (`CacheReceptors`).
- **Message records and their service** (`Messages`).
- **Alert ingestion** (`Alerts`): the merge of a new status into a stored alert, and batch
  ingestion.
- **The channels** (`ErrorStacks`, `Mattermost`, `Telegram`, `Asiatech`, `Smsir`): their
  texts, their per-recipient loops, their result and status codes, and Asiatech's cached
  token.
- **Users** (`UserUtil`, `Users`, `UserHandler`): password generation, the salt and the
  hash, sign-up, verification, login checks, the default admin, and the REST validation
  rules.
- **The provider REST handlers** (`ProvidersHandler`).
- **The version-7 UUID builder** (`Uuid`).
- **Shared string helpers** (`Text`): `strings.Split`, `strconv.Itoa`, `strconv.ParseInt` with its
  syntax and range errors, and `strconv.Quote`.

External collaborators are parameters of the operations:

- repositories and the database;
- HTTP endpoints and SDK clients;
- the random source, bcrypt and ULID;
- the clock.

Each one is an oracle function, or an answer the caller supplies. Go's map iteration order
is an arbitrary order the caller picks. Integers are unbounded, and 64-bit limits are
written out where the code parses or reinterprets them.

## Model

| member | source | states |
|---|---|---|
| CacheOptions.Defaults | pkg/cache/option.go:39-45 | capacity 1024, cleanup interval one minute, janitor enabled |
| CacheOptions.Apply | pkg/cache/option.go:25-37 | each option writes exactly its own field |
| CacheOptions.ApplyOptions | pkg/cache/cache.go:83-86 | the options run in order on the defaults |
| CacheOptions.LaterOverrides | pkg/cache/cache.go:83-86 | a later option on the same field wins |
| CacheOptions.CapacityIsLastWritten | pkg/cache/cache.go:83-86 | the capacity is the last one written, or the default |
| CacheOptions.Clamp | pkg/cache/cache.go:87-92 | a capacity below 1 becomes 1 and a non-positive interval one minute; valid values and the janitor flag are kept |
| LruCache.Cache.constructor | pkg/cache/cache.go:82-108 | an empty, open, valid cache with the clamped settings |
| LruCache.Cache.ModelWellFormed | pkg/cache/cache.go:112-165 | a valid cache's meaning is well formed: distinct recency list over exactly the keys, at most capacity entries |
| LruCache.Cache.Set | pkg/cache/cache.go:112-165 | returns nil, keeps the map, list and heap coherent, and does `CacheSpec.Set` on the meaning, with the corrected `moveToFront` (see Findings) |
| LruCache.Cache.Update | pkg/cache/cache.go:126-148 | an existing key gets the new value and expiry and moves to the front |
| LruCache.Cache.Insert | pkg/cache/cache.go:151-158 | a new key goes to the front; it enters the heap only with an expiry |
| LruCache.Cache.EvictOverflow | pkg/cache/cache.go:160-163 | the eviction loop is `CacheSpec.Evict` and restores the capacity bound; its victim follows the corrected recency order (see Findings) |
| LruCache.Cache.EvictOldest | pkg/cache/cache.go:243-253 | drops the last entry of the corrected recency order (see Findings) |
| LruCache.Cache.Get | pkg/cache/cache.go:170-201 | is `CacheSpec.Get` on the meaning: a hit moves the key to the front (the corrected `moveToFront`, see Findings), an expired entry is removed |
| LruCache.Cache.Hit | pkg/cache/cache.go:197-200 | a hit only moves the key to the front |
| LruCache.Cache.Delete | pkg/cache/cache.go:204-219 | is `CacheSpec.Delete`: a closed cache or a missing key is untouched |
| LruCache.Cache.Len | pkg/cache/cache.go:222-226 | the entry count, never above capacity |
| LruCache.Cache.Close | pkg/cache/cache.go:229-240 | the cache becomes closed, all else unchanged |
| LruCache.Cache.NextExpiry | pkg/cache/cache.go:344-349 | the earliest nonzero expiry, 0 when none |
| LruCache.Cache.PurgeExpired | pkg/cache/cache.go:352-373 | is `CacheSpec.Purge`: exactly the expired entries leave |
| LruCache.Cache.PurgeDone | pkg/cache/cache.go:356-372 | when the loop stops, the keys gone are exactly the expired ones |
| LruCache.Cache.InsertFront | pkg/cache/cache.go:264-274 | the key becomes the head |
| LruCache.Cache.RemoveNode | pkg/cache/cache.go:276-285 | the key leaves the list; the others keep their order |
| LruCache.Cache.MoveToFront | pkg/cache/cache.go:256-262 | the key becomes the head, the others keep their order (the corrected behaviour, see Findings) |
| LruCache.Cache.Swap | pkg/cache/cache.go:58 | two slots trade nodes and each node's `hidx` follows it |
| LruCache.Cache.Push | pkg/cache/cache.go:59 | the node takes a slot and the heap stays ordered |
| LruCache.Cache.Pop | pkg/cache/cache.go:60-67 | the root leaves, the heap stays ordered, its `hidx` becomes -1 |
| LruCache.Cache.Remove | pkg/cache/cache.go:78 | slot `i`'s node leaves, the heap stays ordered, its `hidx` becomes -1 |
| LruCache.Cache.Fix | pkg/cache/cache.go:139-145 | after an expiry change the heap is ordered again |
| LruCache.Cache.RemoveFromHeap | pkg/cache/cache.go:74-79 | the node leaves the heap when it had a slot |
| HeapOrder.RootIsMin | pkg/cache/cache.go:68-73 | the root of an ordered heap holds the earliest expiry |
| HeapOrder.UpStep | pkg/cache/cache.go:155-158 | one sift-up swap keeps the sift-up invariant a level higher |
| HeapOrder.DownStep | pkg/cache/cache.go:139-145 | one sift-down swap keeps the sift-down invariant a level lower |
| LruLayout.PurgedExactly | pkg/cache/cache.go:352-373 | the purge's removed set is exactly the expired keys |
| CacheSpec.ExpiryOf | pkg/cache/cache.go:113-117 | no expiry for ttl <= 0, otherwise a time after now |
| CacheSpec.SetWellFormed | pkg/cache/cache.go:160-163 | every Set keeps the state well formed, with at most capacity entries |
| CacheSpec.SetMostRecent | pkg/cache/cache.go:126-158 | Set makes the key the most recent, with the new value and expiry |
| CacheSpec.SetEvictsLeastRecent | pkg/cache/cache.go:243-253 | inserting into a full cache evicts exactly the least recently used key |
| CacheSpec.SetExistingKeepsKeys | pkg/cache/cache.go:126-148 | updating an existing key keeps the key set and the length |
| CacheSpec.SetThenGet | pkg/cache/cache.go:112-201 | what was set is read back until it expires |
| CacheSpec.GetExpiredRemoves | pkg/cache/cache.go:187-196 | a Get of an expired entry removes it and misses |
| CacheSpec.GetHitMostRecent | pkg/cache/cache.go:197-200 | a hit returns the value and moves the key to the front |
| CacheSpec.DeleteProperties | pkg/cache/cache.go:204-219 | deleting a missing key changes nothing; afterwards the key is gone |
| CacheSpec.ClosedInert | pkg/cache/cache.go:122-124 | after Close, Set, Get, Delete, purge and Close change nothing and Get misses |
| CacheSpec.PurgeExact | pkg/cache/cache.go:352-373 | the purge keeps exactly the unexpired entries, unchanged |
| CacheSpec.EvictOnce | pkg/cache/cache.go:160-163 | one over capacity, eviction drops exactly the last key |
| LruLinks.InsertFrontSpells | pkg/cache/cache.go:264-274 | `insertFront` at pointer level puts the node at the head of the spelled sequence |
| LruLinks.RemoveNodeSpells | pkg/cache/cache.go:276-285 | `removeNodeLocked` cuts the node's position out of the spelled sequence |
| LruLinks.RemoveNodeEnds | pkg/cache/cache.go:276-285 | after `removeNodeLocked`, head and tail are the ends of the cut sequence |
| LruLinks.MoveToFrontSpells | pkg/cache/cache.go:256-262 | `moveToFront` done with `removeNodeLocked` spells the key at the front and the rest in order |
| LruLinks.StaleTail | pkg/cache/cache.go:256-294 | as written, moving the tail node to the front leaves `tail` on the new head |
| LruLinks.AsWrittenOffTail | pkg/cache/cache.go:256-262 | away from the tail, the written and the corrected `moveToFront` agree |
| LruLinks.ReadThenInsert | pkg/cache/cache.go:150-201 | as written, capacity 2 with Set 1, Set 2, Get 1, Set 3 evicts key 1, the key just read |
| LruLinks.ReadThenInsertMeaning | pkg/cache/cache.go:150-201 | the same calls on the cache's meaning keep 1 and evict 2 |
| AlertConfig.NewScheduler | pkg/scheduler/alert/type.go:51-83 | workers <= 0 becomes 1, queue size <= 0 becomes 100, interval <= 0 becomes 10 s; the queue has the queue-size capacity |
| AlertConfig.SchedulerUsable | pkg/scheduler/alert/type.go:60-68 | whatever the configuration, at least one worker, room in the queue and a positive interval |
| AlertConfig.NewSchedulerIdempotent | pkg/scheduler/alert/type.go:60-68 | normalising twice is normalising once |
| AlertConfig.StartPeriod | pkg/scheduler/alert/service.go:28 | `Start` ticks every 5 s, which differs from any other configured interval |
| AlertProviders.FirstServing | pkg/scheduler/alert/service.go:278-288 | the first active provider serving a flag, and none before it does |
| AlertProviders.ChooseFirst | pkg/scheduler/alert/service.go:277-288 | every chosen provider is active, serves a requested flag, and is the first to serve it |
| AlertProviders.ChooseOnePerFlag | pkg/scheduler/alert/service.go:279-281 | no flag is served twice |
| AlertProviders.ChooseComplete | pkg/scheduler/alert/service.go:277-288 | every requested flag some active provider serves is served |
| AlertProviders.InsertPermutes | pkg/scheduler/alert/service.go:291-293 | insertion adds exactly one channel |
| AlertProviders.InsertSorted | pkg/scheduler/alert/service.go:291-293 | insertion keeps the priority order |
| AlertProviders.SortByPriority | pkg/scheduler/alert/service.go:291-293 | the result is sorted by priority and a permutation of the input |
| AlertProviders.PickFor | pkg/scheduler/alert/service.go:278-288 | one flag's inner loop adds the first serving provider, unless the flag is taken |
| AlertProviders.GetProvider | pkg/scheduler/alert/service.go:269-300 | the registry error is returned; an empty choice is "no active provider found"; else the chosen channels sorted by priority |
| AlertHandler.GatherGroup | pkg/scheduler/alert/service.go:145-162 | the loop over a group's users is `Gather` |
| AlertHandler.CollectReceptors | pkg/scheduler/alert/service.go:130-165 | the loop over the receptor groups is `Collect`; a cache miss stops it |
| AlertHandler.SaveTelegram | pkg/scheduler/alert/service.go:176-217 | the Telegram branch's loop, including its out-of-range panic |
| AlertHandler.SaveFailed | pkg/scheduler/alert/service.go:218-239 | the failed-send loop, stopping at the first `Add` error |
| AlertHandler.SaveSent | pkg/scheduler/alert/service.go:240-264 | the sent loop |
| AlertHandler.RunRound | pkg/scheduler/alert/service.go:124-265 | one provider iteration is `Round` |
| AlertHandler.HandleAlert | pkg/scheduler/alert/service.go:85-267 | no provider lookup without methods and receptors; the result is `Handle` over `getProvider`'s answer |
| AlertDispatch.UnroutableAlertOnlyMarked | pkg/scheduler/alert/service.go:85-122 | with no method, no receptor or a lookup error, only the mark is made and its answer returned |
| AlertDispatch.NilMeansMarked | pkg/scheduler/alert/service.go:85-267 | a nil return means the alert was marked sent |
| AlertDispatch.Handle | pkg/scheduler/alert/service.go:85-267 | a failed provider lookup makes no send and no record and marks the alert; each provider round sends at most once |
| AlertDispatch.RoundsSendOnce | pkg/scheduler/alert/service.go:123-267 | the provider loop sends at most once per provider |
| AlertDispatch.MissingGroupMarks | pkg/scheduler/alert/service.go:131-144 | a receptor group missing from the cache under the first provider's flag marks the alert and returns an error, with no records and no send |
| AlertDispatch.MissingGroupRounds | pkg/scheduler/alert/service.go:123-144 | a group missing under the flag of any provider: the rounds never return nil, and a marked alert comes with an error |
| AlertDispatch.MissingGroupNeverNil | pkg/scheduler/alert/service.go:85-144 | a group missing under any provider's flag means the handler never reports success |
| AlertDispatch.SendsAccumulate | pkg/scheduler/alert/service.go:99-173 | each provider's address list extends the previous one |
| AlertDispatch.DistinctAddresses | pkg/scheduler/alert/service.go:145-162 | no address gets two records |
| AlertDispatch.FailedRecords | pkg/scheduler/alert/service.go:218-239 | a failed send writes one Failed record per visited user, with the send error |
| AlertDispatch.SentRecords | pkg/scheduler/alert/service.go:240-264 | a successful send writes one Sent record per visited user at its own address; without a panic there is one record per visited user, and with enough message ids there is no panic |
| AlertDispatch.SentIds | pkg/scheduler/alert/service.go:240-260 | the message ids follow the records; the index advances only on a successful `Add` |
| AlertDispatch.SentMarks | pkg/scheduler/alert/service.go:240-260 | every visited user ends up marked as sent, unless the loop panics |
| TelegramDispatchTrace.MismatchedIdsPanic | pkg/scheduler/alert/service.go:176-217 | two receptors, one with a bad chat id, make the Telegram branch index past its ids and panic before the mark |
| TelegramDispatchTrace.OneIdTwoSegmentsPanic | pkg/scheduler/alert/service.go:176-217 | an answer of an error text, a nil and a single message id makes the two-group Telegram round panic, unmarked |
| TelegramDispatchTrace.AlignedTraceCompletes | pkg/scheduler/alert/service.go:176-217 | the same bad-chat-id answer, read by the corrected loop, records both users without a panic, in either map order |
| TelegramAlignment.AlignedResponses | pkg/notifications/telegram/service.go:66-90 | corrected `Send` responses: one per receptor, the parsed ones as the code as written gives them |
| TelegramAlignment.AlignedResponsesAgree | pkg/notifications/telegram/service.go:66-90 | when every chat id parses, the corrected responses equal the responses as written |
| TelegramAlignment.AlignedLoopKeepsPlace | pkg/scheduler/alert/service.go:179-215 | with a segment and an id per receptor, the corrected loop never panics and saves one record per visited user, in visiting order, each with its own receptor's segment, or its id for "nil" |
| TelegramAlignment.AlignedRound | pkg/scheduler/alert/service.go:175-215 | on the channel's real error text and the corrected responses, every visited user is recorded with their own chat's message id or error text, and nothing panics |
| MessageStatus.NewMessageStatusMessageService | pkg/scheduler/message_status/service.go:17-44 | a negative queue size panics; otherwise refused for interval <= 0 or workers < 1, and built unstarted with the configuration as given |
| MessageStatus.Scheduler.Start | pkg/scheduler/message_status/service.go:46-70 | refused while started, otherwise started |
| MessageStatus.Scheduler.Stop | pkg/scheduler/message_status/service.go:72-87 | always succeeds and leaves the scheduler stopped |
| MessageStatus.GetNotificationProvider | pkg/scheduler/message_status/service.go:275-296 | the loop computes `NotificationProvider`: the last provider with the name |
| MessageStatus.GetAlternativeProvider | pkg/scheduler/message_status/service.go:322-367 | fills the name map, deletes the chain and searches in map order |
| MessageStatus.NotificationProvider | pkg/scheduler/message_status/service.go:275-296 | the repository error is "failed to get active providers: " plus its text; an empty list is "no active providers found"; a found channel is that of the last active provider with the name; the job panics exactly when no active provider has the name |
| MessageStatus.NameFlags | pkg/scheduler/message_status/service.go:334-336 | a name is in the map iff some active provider has it, with the flag of the last such provider |
| MessageStatus.FillNameFlags | pkg/scheduler/message_status/service.go:334-336 | the first loop builds `NameFlags` |
| MessageStatus.Without | pkg/scheduler/message_status/service.go:338-344 | a name stays iff it was in the map and is not in the chain, with its flag unchanged |
| MessageStatus.DeleteChain | pkg/scheduler/message_status/service.go:338-344 | the second loop builds `Without` |
| MessageStatus.PickAlternative | pkg/scheduler/message_status/service.go:346-366 | a pick is an active provider whose name is among the remaining names; no pick means none of those names has a provider |
| MessageStatus.Search | pkg/scheduler/message_status/service.go:346-366 | the third loop computes `PickAlternative` |
| MessageStatus.FindNamed | pkg/scheduler/message_status/service.go:349-359 | the inner loop finds the first provider with the name, or none |
| MessageStatus.PickIgnoresFlag | pkg/scheduler/message_status/service.go:348-360 | both branches of the flag test choose the same way |
| MessageStatus.AlternativeOutsideChain | pkg/scheduler/message_status/service.go:334-366 | an alternative is an active provider's channel not named in the chain |
| MessageStatus.AlternativeIgnoresFlag | pkg/scheduler/message_status/service.go:348-362 | the requested flag plays no part in the choice |
| MessageStatus.AlternativeFound | pkg/scheduler/message_status/service.go:334-366 | an alternative is found exactly when an active name outside the chain remains |
| MessageStatus.SendNotification | pkg/scheduler/message_status/service.go:307-320 | sends to the one receptor; a failed send is "failed to send message: " plus the error, a success returns the first id the provider answered, and an empty answer panics |
| MessageStatus.RunJob | pkg/scheduler/message_status/service.go:153-218 | `checkMessageStatus` as recovered by `safeRunJob` |
| MessageStatus.CheckMessageStatus | pkg/scheduler/message_status/service.go:162-218 | a panicking job makes no call; otherwise the first call updates the message itself with one attempt more, and only a message past its attempts also saves a fresh record for the same receptor and text |
| MessageStatus.SendAlternative | pkg/scheduler/message_status/service.go:220-273 | at most an update of the message with one attempt more and the save of a fresh record |
| MessageStatus.Failover | pkg/scheduler/message_status/service.go:228-273 | no alternative gives a Failed update; otherwise the resend, within the same shape |
| MessageStatus.ResendVia | pkg/scheduler/message_status/service.go:242-273 | a failed resend makes no call; a resend updates the message, and saves a fresh record once that update succeeds |
| MessageStatus.SendAlternativeNotification | pkg/scheduler/message_status/service.go:220-273 | the failover path |
| MessageStatus.ExhaustedNeverPolled | pkg/scheduler/message_status/service.go:163-166 | a message at the attempt limit is never polled |
| MessageStatus.PollOutcome | pkg/scheduler/message_status/service.go:180-217 | one update with one attempt more: 10 becomes Delivered, 6 Failed, anything else or an error status 0, so the update carries the status "" |
| MessageStatus.LookupFailureNoUpdate | pkg/scheduler/message_status/service.go:162-226 | a failed provider lookup makes no repository call |
| MessageStatus.UnknownSenderPanics | pkg/scheduler/message_status/service.go:286-293 | a sender no active provider is named after panics the job with no repository call |
| MessageStatus.NoAlternativeMarksFailed | pkg/scheduler/message_status/service.go:229-236 | with no alternative the message is marked 6 once |
| MessageStatus.FailedResendChangesNothing | pkg/scheduler/message_status/service.go:238-250 | a failed resend leaves the message alone |
| MessageStatus.ResendRecords | pkg/scheduler/message_status/service.go:251-272 | a resend marks the original 6, then adds a record with chain [original, alternative] whose sender id is the first id the alternative answered |
| CacheReceptors.NewCacheReceptorsScheduler | pkg/scheduler/cache_receptors/service.go:15-40 | refused for interval <= 0 or workers < 1; queue size <= 0 becomes the worker count |
| CacheReceptors.StoredQueuePositive | pkg/scheduler/cache_receptors/service.go:21-35 | an accepted configuration has a positive queue size |
| CacheReceptors.Refresher.Start | pkg/scheduler/cache_receptors/service.go:42-62 | "scheduler already started" while started, otherwise started |
| CacheReceptors.Refresher.Stop | pkg/scheduler/cache_receptors/service.go:64-79 | returns nil and leaves the refresher stopped |
| CacheReceptors.Refresher.SetMobilesOnCache | pkg/scheduler/cache_receptors/service.go:81-105 | a repository error leaves the cache alone; otherwise each group is deleted and set without expiry, in order |
| CacheReceptors.LastGroupCached | pkg/scheduler/cache_receptors/service.go:90-97 | the last group refreshed is cached, most recent, with its mobiles and no expiry |
| CacheReceptors.RefreshedEntries | pkg/scheduler/cache_receptors/service.go:90-97 | every refreshed key that stays in the cache holds its last group's mobiles |
| CacheReceptors.ClosedUntouched | pkg/scheduler/cache_receptors/service.go:90-97 | a closed cache is left as it is |
| Messages.StatusText | pkg/message/type.go:53-57 | `StatusMap`: 1 Sent, 6 Failed, 10 Delivered, "" otherwise |
| Messages.StatusNames | pkg/message/type.go:47-57 | exactly three codes have a name, and the names are distinct |
| Messages.NewMessage | pkg/message/type.go:59-80 | attempt 0, status the mapped name, provider chain copied, the other fields as given |
| Messages.Updated | pkg/message/service.go:22-28 | status name and response set, attempt one more |
| Messages.AttemptsCount | pkg/message/service.go:25 | n updates raise the attempt count by exactly n |
| Messages.Service.Add | pkg/message/service.go:14-16 | the record reaches the repository unchanged; its answer is returned |
| Messages.Service.UpdateMessageStatus | pkg/message/service.go:22-28 | the record becomes `Updated` and is persisted |
| Messages.Service.ListNotFinishedMessages | pkg/message/service.go:30-32 | the repository's list or its error |
| Alerts.NewAlert | pkg/alerts/alerts_service.go:39-82 | a new id gets the given fields, not sent or silenced; a lookup error is returned; a stored alert keeps its fields but status and end, and its send flag resets exactly on a status change |
| Alerts.RepeatKeepsAlert | pkg/alerts/alerts_service.go:64-80 | reporting the stored status again changes only the end and update times |
| Alerts.AddAlertManagerAlerts | pkg/alerts/alerts_service.go:84-101 | sums the rows and stops at the first error with the partial sum |
| Alerts.AddedSplit | pkg/alerts/alerts_service.go:84-101 | the sum is of the rows before the first error |
| ErrorStacks.ErrorStack.Append | pkg/notifications/mattermost/type.go:26-28 | one entry added at the end, the others unchanged |
| ErrorStacks.ErrorStack.Error | pkg/notifications/mattermost/type.go:30-40 | one ";"-terminated segment per entry, "nil" for nil |
| ErrorStacks.SplitRender | pkg/notifications/mattermost/type.go:30-40 | with no ";" inside messages, splitting gives the segments and one trailing "" |
| Mattermost.Send | pkg/notifications/mattermost/service.go:11-35 | one result per recipient, in order; the error stack holds exactly the failures |
| Mattermost.SendErrorIffFailure | pkg/notifications/mattermost/service.go:31-34 | an error exactly when some post failed |
| Mattermost.FailuresEmpty | pkg/notifications/mattermost/service.go:31-34 | there are no failures exactly when every post succeeded |
| Mattermost.Status | pkg/notifications/mattermost/service.go:37-39 | always Delivered |
| Mattermost.Describe | pkg/notifications/mattermost/service.go:45-55 | name "Mattermost", flag "mattermost", configured priority |
| Telegram.RenderText | pkg/notifications/telegram/service.go:58-65 | the banner by state, or empty text for another state |
| Telegram.Send | pkg/notifications/telegram/service.go:55-95 | one stack entry per receptor; responses for the parsed ids; an error for any non-empty list |
| Telegram.ResponsesAligned | pkg/notifications/telegram/service.go:67-89 | when every chat id parses, one response per receptor: the receptor for a failed send, the message id for a sent one |
| Telegram.ResponsesCount | pkg/notifications/telegram/service.go:66-90 | there is one response fewer than receptors for each chat id that does not parse |
| Telegram.Status | pkg/notifications/telegram/service.go:97-99 | always Failed |
| Telegram.Describe | pkg/notifications/telegram/service.go:39-49 | "Telegram", "telegram", priority 3 |
| Telegram.ParseErrorNamesReceptor | pkg/notifications/telegram/service.go:67-72 | the parse error names the receptor in a form `strconv.Unquote` reads back, and ends "value out of range" exactly for a range error, "invalid syntax" otherwise |
| Telegram.MalformedChatIdText | pkg/notifications/telegram/service.go:67-72 | a short printable chat id that does not parse gives "strconv.ParseInt: parsing \"<id>\": invalid syntax" |
| Telegram.OutOfRangeChatIdText | pkg/notifications/telegram/service.go:67-72 | a chat id of digits beyond 64 bits gives "strconv.ParseInt: parsing \"<id>\": value out of range" |
| Text.Split | pkg/scheduler/alert/service.go:179 | `strings.Split` always gives at least one piece |
| Text.SplitAfterPiece | pkg/scheduler/alert/service.go:179 | a separator-free piece followed by the separator comes out as the first piece, and the rest splits on |
| Text.ParseItoa | pkg/notifications/telegram/service.go:67 | `strconv.ParseInt` reads back what `strconv.Itoa` writes, for every 64-bit value |
| Text.SplitWithout | pkg/scheduler/alert/service.go:179 | a string without the separator splits into itself alone |
| Text.ScanUint64 | pkg/notifications/telegram/service.go:67 | the unsigned scan yields only values within 64 bits |
| Text.ScanAgreesWithDigits | pkg/notifications/telegram/service.go:67 | the left-to-right scan succeeds exactly on digit strings within 64 bits, with their value, and a syntax error means a non-digit |
| Text.ParseIntOutcome | pkg/notifications/telegram/service.go:67 | a parsed value lies within the signed 64-bit range |
| Text.ParseOutcomeAgrees | pkg/notifications/telegram/service.go:67 | `ParseInt64` fails exactly when `strconv.ParseInt` reports an error, and agrees on the value |
| Text.OutOfRangeIsRangeError | pkg/notifications/telegram/service.go:67 | digits beyond the signed range are a range error, not a syntax error |
| Text.ShortFailureIsSyntaxError | pkg/notifications/telegram/service.go:67 | every failure on at most 18 characters is a syntax error |
| Text.Quote | pkg/notifications/telegram/service.go:67-70 | `strconv.Quote` wraps the text in double quotes and is at least two longer |
| Text.QuotePlain | pkg/notifications/telegram/service.go:67-70 | printable ASCII without quote or backslash is quoted verbatim |
| Text.QuoteRoundTrip | pkg/notifications/telegram/service.go:67-70 | `strconv.Unquote` of `strconv.Quote(s)` is `s` |
| Asiatech.RenderText | pkg/notifications/asiatech/service.go:47-52 | the Firing or Resolved banner, then the details; empty for another state |
| Asiatech.TextEndsWithTime | pkg/notifications/asiatech/service.go:47-52 | a rendered text ends with the subject, the message and the time line, each on its own line |
| Asiatech.Rewrite | pkg/notifications/asiatech/service.go:62-64 | a leading "0" becomes "98"; nothing else changes |
| Asiatech.RewriteOnce | pkg/notifications/asiatech/service.go:62-64 | rewriting twice is rewriting once |
| Asiatech.BuildBody | pkg/notifications/asiatech/service.go:55-70 | one request per receptor, in order, with the rewritten number |
| Asiatech.SendResult | pkg/notifications/asiatech/service.go:85-113 | code 100 gives the ids; another code the error with the code; no response panics |
| Asiatech.Classify | pkg/notifications/asiatech/service.go:154-165 | 1 Delivered; 5, 11, 13-16 Failed; any other Sent |
| Asiatech.ReportResult | pkg/notifications/asiatech/service.go:130-166 | an error for a failed request, a panic for an empty report, else the first report classified |
| Asiatech.TokenStep | pkg/notifications/asiatech/service.go:173-227 | a cached token is returned with no fetch; a fetched one is cached for 4 minutes; a non-200 answer is "cannot get token from asiatech" |
| Asiatech.Fetched | pkg/notifications/asiatech/service.go:173-227 | a token fetch fails exactly on a build error, no answer or a non-200 answer; otherwise the token, "" when the answer has none |
| Asiatech.TokenReused | pkg/notifications/asiatech/service.go:173-227 | a token just fetched is served from the cache on the next call, within its lifetime |
| Asiatech.Service.GetAuthenticationToken | pkg/notifications/asiatech/service.go:173-227 | the cache and the token are `TokenStep` |
| Asiatech.Service.Send | pkg/notifications/asiatech/service.go:46-114 | token, then the bodies, then `SendResult` |
| Asiatech.Service.Status | pkg/notifications/asiatech/service.go:116-167 | token, then `ReportResult` |
| Asiatech.Service.Describe | pkg/notifications/asiatech/service.go:34-44 | "Asiatech", "sms", configured priority |
| Smsir.RenderText | pkg/notifications/smsir/service.go:28-33 | the emoji right before the subject; empty for another state |
| Smsir.RenderTextLines | pkg/notifications/smsir/service.go:28-33 | without line breaks in its parts, the text splits into three lines: emoji and subject, the message, "Time: " and the time |
| Smsir.LineNumber | pkg/notifications/smsir/service.go:27 | `strconv.Atoi` of the line number, 0 on error |
| Smsir.LineNumberRoundTrip | pkg/notifications/smsir/service.go:27 | a decimal line number reads back as itself |
| Smsir.Send | pkg/notifications/smsir/service.go:26-95 | no response, non-200 ("http status code N") and bad bodies are errors; otherwise the ids in decimal, in order |
| Smsir.MessageIds | pkg/notifications/smsir/service.go:88-91 | each id written in decimal, in order |
| Smsir.SentIdsReadBack | pkg/notifications/smsir/service.go:88-91 | every returned id parses back to the endpoint's integer |
| Smsir.Classify | pkg/notifications/smsir/service.go:139-153 | API status 1 Delivered; delivery 3 or 5 Sent; 2, 4, 6, 7 Failed with an error; else Delivered |
| Smsir.Status | pkg/notifications/smsir/service.go:97-154 | any failure to get a report is -1 with an error; otherwise `Classify` |
| Smsir.StatusErrorCases | pkg/notifications/smsir/service.go:97-154 | an error comes only with -1 or a failed delivery; without one the status is Sent or Delivered |
| Smsir.Request | pkg/notifications/smsir/service.go:27-38 | the body carries the receptors, the rendered text and the parsed line number |
| Smsir.Service.Describe | pkg/notifications/smsir/service.go:172-182 | "Smsir", "sms", configured priority |
| UserUtil.GenerateRandomPassword | pkg/user/user_util.go:28-53 | length <= 0 is an error; a failed draw is returned; otherwise the drawn characters |
| UserUtil.DrawnChars | pkg/user/user_util.go:40-52 | the password exists iff every draw succeeds; it has `length` characters, each from the character set |
| UserUtil.PasswordFromCharSet | pkg/user/user_util.go:33-49 | every character of a password is one of the 72 |
| UserUtil.CharSetShape | pkg/user/user_util.go:34 | 72 characters, the last ten the non-alphanumeric specials |
| UserUtil.DecodeEncode | pkg/user/user_util.go:12-17 | standard Base64 decodes back to the bytes |
| UserUtil.EncodeLength | pkg/user/user_util.go:12-17 | n groups of three bytes or fewer give 4n characters |
| UserUtil.GenerateSalt | pkg/user/user_util.go:11-18 | the Base64 of 16 random bytes, or the random source's error |
| UserUtil.SaltShape | pkg/user/user_util.go:11-18 | a salt is 24 characters ending "==" and decodes to its bytes |
| UserUtil.HashPassword | pkg/user/user_util.go:20-27 | the hash of the password with the salt appended, or the hash error |
| Users.AddUser | pkg/user/user.go:24-67 | a sign-up succeeds exactly when the name is free, the database is up, and the role, the random salt and bcrypt all succeed; a hash failure leaves the caller's password "" and stores nothing |
| Users.ValidateUser | pkg/user/user.go:143-160 | log-in succeeds exactly for a stored, not-New user whose hash bcrypt accepts for the entered password plus salt; a mismatch gives "password not valid"; a found row replaces the caller's user |
| Users.AddExistingRefused | pkg/user/user.go:25-32 | an existing user name is refused and nothing is stored |
| Users.AddCreatesNewUser | pkg/user/user.go:35-66 | a new user is stored with status New, the viewer role, equal times, a salt, and the hash of password+salt |
| Users.AddFailureStoresNothing | pkg/user/user.go:24-67 | any error leaves the store as it was |
| Users.NewUserCannotLogIn | pkg/user/user.go:150-153 | a New user is refused before any password check |
| Users.VerifyUser | pkg/user/user.go:170-180 | an already verified user is refused; otherwise the user becomes Verified and is saved |
| Users.SignUpVerifyLogIn | pkg/user/user.go:24-180 | after sign-up, login is refused as not verified; after verification, login with the same password succeeds and verifying again is refused |
| Users.GetByUserName | pkg/user/user.go:200-210 | an empty name is refused without a lookup; otherwise the repository's answer |
| Users.CreateDefaultAdminUser | pkg/user/user.go:78-141 | an existing admin means nothing to do; otherwise the first usable draw is saved |
| Users.AdminExistsNothingToDo | pkg/user/user.go:87-93 | an existing admin leaves the store alone |
| Users.AdminPassword | pkg/user/user.go:95-136 | the new admin is verified, named admin, and its password is the hash of a 20-character draw from the character set with a special character |
| UserHandler.PasswordValidation | pkg/http/rest/user_handler.go:55-77 | true iff at least 8 UTF-8 bytes and an upper, a lower, a digit and one of "@$!%*?&#^" |
| UserHandler.OtherCharacterOnlyLengthens | pkg/http/rest/user_handler.go:63-76 | a character outside the four classes sets no flag but adds its bytes |
| UserHandler.ByteLengthBounds | pkg/http/rest/user_handler.go:74 | the byte length is between the character count and four times it |
| UserHandler.SignupToUser | pkg/http/rest/user_handler.go:442-450 | user name, names, password and e-mail carry over; the mobile does not |
| UserHandler.UpdateToUser | pkg/http/rest/user_handler.go:452-475 | every field of the body carries over (an empty one leaves the user's field empty); id, salt, status and role stay empty |
| UserHandler.FieldErrors | pkg/http/rest/user_handler.go:22-30 | at most one error per field, and none exactly when the body meets every tag |
| UserHandler.ValidBodyShape | pkg/http/rest/user_handler.go:22-30 | a body passing the tags has a 3-30 character name, a strong confirmed password, a mobile of 11 characters in the validator's numeric syntax (optional sign, digits, at most one decimal point) or none, an e-mail or none |
| UserHandler.AddUserHandler | pkg/http/rest/user_handler.go:79-180 | decode or validation failures are 400 and `AddUser` is not called; otherwise 201, or 500 with the error |
| UserHandler.AddedUsersAreValid | pkg/http/rest/user_handler.go:144-170 | a user reaching `AddUser` has a strong password, a valid name and no mobile |
| ProvidersHandler.GetProviders | pkg/http/rest/providers_handler.go:26-105 | id and name together are 400 with no lookup; else by name, by id, or the whole list |
| ProvidersHandler.Single | pkg/http/rest/providers_handler.go:38-80 | 200 with the provider, 404 for not found or nil, 500 for another error |
| ProvidersHandler.Run | pkg/http/rest/providers_handler.go:157-189 | the calls run in order and the first failure stops them |
| ProvidersHandler.Plan | pkg/http/rest/providers_handler.go:123-189 | the status change comes first, the priority change last, one call per field given |
| ProvidersHandler.ModifyProvider | pkg/http/rest/providers_handler.go:107-191 | 200 exactly for a valid request whose calls all succeed; no call before the checks pass; the calls are a prefix of the plan |
| ProvidersHandler.PriorityWrittenInRange | pkg/http/rest/providers_handler.go:123-189 | every priority written is between 1 and 5, for the named provider |
| ProvidersHandler.StatusAloneKeepsPriority | pkg/http/rest/providers_handler.go:138-156 | a status-only request never writes the priority |
| ProvidersHandler.StatusBeforePriority | pkg/http/rest/providers_handler.go:162-189 | with both fields the status changes first, and a failed status change skips the priority |
| Uuid.Layout | pkg/util/uuid.go:30-36 | version nibble 7, variant bits 0b10, and the random bits in their places |
| Uuid.Timestamp | pkg/util/uuid.go:16 | `uint64` of the millisecond count: itself when non-negative, plus 2^64 when negative |
| Uuid.LayoutTimestamp | pkg/util/uuid.go:16-22 | bytes 0-5 are the timestamp's low 48 bits, big-endian |
| Uuid.MillisecondsReadBack | pkg/util/uuid.go:16-22 | a millisecond count below 2^48 is recovered exactly |
| Uuid.LaterSortsAfter | pkg/util/uuid.go:16-22 | an identifier from a later millisecond sorts after, byte by byte |
| Uuid.New | pkg/util/uuid.go:12-39 | the layout for the clock and random bytes; the Nil UUID with the error when the random source fails |
| Uuid.TextVersionAndVariant | pkg/util/uuid.go:42-48 | in the text form the version digit is 7 and the variant digit one of 8, 9, a, b |
| Uuid.Format | pkg/util/uuid.go:47 | 36 characters with dashes at 8, 13, 18 and 23; the version and variant digits are the high nibbles of bytes 6 and 8 |
| Uuid.NewUuidV7 | pkg/util/uuid.go:42-48 | the text form, or "" with the error |

## Left out

- Goroutines, tickers, channels, wait groups and mutexes are not modelled: the cache janitor and `tryWake`, and the schedulers' `loop`, `run`, `worker`, `enqueueCache` and `fetchAndEnqueue`. Only the started flag of the schedulers is modelled.
- The clock is a parameter (`now`, `ms`), not `time.Now`.
- SQL, GORM, HTTP clients, the Telegram bot SDK and the Mattermost client are oracles. So are bcrypt, ULID, crypto/rand and the JSON decoder, and the e-mail syntax check of the struct validator.
- The cache's linked list is modelled as the key sequence it spells, plus a value-level pointer map (`LruLinks`) for `insertFront`, `removeNodeLinks`, `removeNodeLocked` and `moveToFront`. The heap-object list and node aliasing are not modelled.
- LruCache.Cache.MoveToFront: models the corrected behaviour (see Findings); the written behaviour is modelled in `LruLinks`.
- LruCache.Cache.Set: its contract follows the corrected `moveToFront`. As written, a Set that refreshes the tail key leaves `tail` on that key (see Findings).
- LruCache.Cache.Get: its contract follows the corrected `moveToFront`. As written, a hit on the tail key leaves `tail` on that key, so the next eviction drops the key just read (see Findings).
- LruCache.Cache.EvictOverflow: its victim is the last key of the corrected recency order. As written, after a tail key was moved to the front, the stale `tail` names that key instead (see Findings).
- LruCache.Cache.EvictOldest: drops the last key of the corrected recency order. As written, the node `tail` points at can be the head after a stale move (see Findings).
- The alert service's `getProvider` failure branch returns nil when marking succeeds (pkg/scheduler/alert/service.go:115-121). The model keeps this as written.
- `Alert.Method` is declared a string in pkg/alerts/alerts.go. It is used as a list by the dispatcher, and the model follows that use.
- The Telegram channel uses an `errorStack` type that only the Mattermost package defines. The model reuses the same `ErrorStacks` module.
- The message status reconciler calls `NewMessage` with eight arguments where the constructor takes nine. The missing status is modelled as Sent (1).
- A nil provider from `getNotificationProvider` panics at its first use, as in the source. A negative queue size panics in the reconciler's constructor, as in the source.
- CacheReceptors.Refresher.SetMobilesOnCache: the failed-`Set` abort is not reachable, because the cache's `Set` always returns nil.
- `safeRunJob` of the receptor cache refresher is not modelled: the modelled job cannot panic, so there is nothing for it to recover.
- Asiatech.Service.GetAuthenticationToken: the failed-`Set` branch (service.go:219-224) is not reachable with the cache modelled here, which never fails a `Set`. The test-only mock cache that can fail is not modelled.
- Asiatech: a transport failure on send reads a nil response and is modelled as a panic. An empty status report also panics, and a token answer that does not decode caches "".
- Smsir.LineNumber: `strconv.Atoi` clamps an out-of-range value to the 64-bit limits with an error; the model gives 0 for every error, as the source ignores it.
- The Sms.ir `Verify` credit formatting uses floats and is not modelled. Neither are the channels' `Verify` calls.
- The Sms.ir response types `SendSmsResponse` and `GetStatusResponse` are not defined in smsir/type.go. The model uses the fields the service reads.
- `iriserror.ErrProviderNotFound` is not defined in pkg/errors/type.go. ProvidersHandler.Single keeps a distinct not-found error as the handler tests for one.
- Users.AddUser: when hashing fails, the caller's user is left with the password "" and the error returns before anything is stored. Any lookup outcome other than "found" lets the sign-up proceed, and a database failure then fails the save.
- MessageStatus.Env: one answer of `GetActiveProviders` serves both lookups, `getNotificationProvider` and `getAlternativeProvider`. The model therefore cannot show the list changing between the two calls, or the second call failing after the first succeeded. In the source such a failure ends the job the same way as "no alternative".
- MessageStatus.PollOutcome: the update it builds carries the status "" for an unknown answer. The repository's `Updates` with a struct skips zero-valued fields, so the stored status would stay as it was. The model records the update as built and does not model the stored row.
- Telegram.ParseErrorText: `strconv.Quote` also escapes the non-ASCII characters Go's `unicode.IsPrint` rejects, and invalid UTF-8. The model escapes the C1 controls U+0080..U+009F and copies every other non-ASCII character.
- The remaining REST handlers (login, verify, update, listing, user info) are not modelled: they are HTTP plumbing over the user service.
- UserHandler.ValidBodyShape: character counts stand for `utf8.RuneCountInString`. The `min`, `max` and `len` tags count characters, and the model's characters are Unicode scalar values.
- Uuid.Format: the text form follows the UUID library's 8-4-4-4-12 lower-case layout. It is used only for the version and variant digits.

## Findings

| source | as written | input that shows it | evidently intended | confidence | as-written member | corrected member |
|---|---|---|---|---|---|---|
| pkg/cache/cache.go:256-262 | `moveToFront` unlinks the node with `removeNodeLinks`, which never moves `tail`, so moving the tail node to the front leaves `tail` on the new head | capacity 2: Set 1, Set 2, Get 1, Set 3 evicts key 1, the key just read | unlink with `removeNodeLocked`, so the old second-to-last node becomes the tail and Set 3 evicts key 2 | not executed | LruLinks.StaleTail, LruLinks.ReadThenInsert | LruLinks.MoveToFrontSpells, LruLinks.ReadThenInsertMeaning |
| pkg/scheduler/alert/service.go:179-215 | the Telegram branch matches the i-th error segment and the i-th message id to the i-th user in map order. `Send` adds no response for a chat id that does not parse, and a failed `Add` skips the index step, so segments, ids and users drift apart | groups g1 = {u1: "abc"} and g2 = {u2: "123"}: the error text splits to [parse error, "nil", ""] but there is one id, so the "nil" segment reads a second id and the handler panics before marking the alert | each user takes the segment and the id at their own receptor's position, with one response per receptor | not executed | TelegramDispatchTrace.MismatchedIdsPanic, TelegramDispatchTrace.OneIdTwoSegmentsPanic | TelegramAlignment.AlignedRound, TelegramAlignment.AlignedLoopKeepsPlace, TelegramDispatchTrace.AlignedTraceCompletes |
