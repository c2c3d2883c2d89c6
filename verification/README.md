# GeoNote: a verified model of the backend's stateful core

GeoNote is a map of short messages left at places. Most of its backend is SQL and HTTP plumbing; this project models the
parts that keep state over unbounded runs and proves what they keep.

| files | component |
|---|---|
| `SendQueue.dfy`, `Hub.dfy` | the WebSocket hub and its pumps: a step relation over the RWMutex, any number of overlapping Broadcasts, any number of pending Unregister calls, and a bounded channel per client |
| `Traces.dfy`, `RateLimit.dfy`, `AntiSpam.dfy` | the token bucket and the cooldown map, each with its janitor |
| `Messages.dfy`, `Ranking.dfy`, `Nearby.dfy`, `GridKeys.dfy`, `MessageService.dfy` | the nearby pipeline (query, filter, mask, enrich, rank) behind the grid cache, with Create, Delete and UnlockMystery; whole calls as steps |
| `NearbyRaces.dfy` | the same calls interleaved statement by statement: lookups, queries, unlock checks, stores and invalidations race |
| `Streaks.dfy`, `Badges.dfy` | streak rows and badge awards as functions of a user's whole history |
| `Reports.dfy`, `Likes.dfy`, `Reactions.dfy`, `ReactionRaces.dfy` | check-then-act statements over unique indexes and triggers, interleaved; the popup's optimistic reaction toggle |
| `Hashtags.dfy` | the hashtag scanner |

Each component has the same shape: a step or update function that follows the code branch by branch, an independent
statement of what it is for (a window of requests, a run of days, a set of rows, a list of positions), and lemmas over all
inputs or all runs connecting the two. Code that works by mutation also appears as a class or a loop proved against that
function. Columns, defaults and constants of single statements are fixed by small lemmas without a row below, such as
`Messages.StoredColumns`, `Nearby.NormalizeExact`, `Nearby.CallsAct`, `GridKeys.TextOfQuery` and the `StatementsAct` lemmas.

## Assumptions

- Tokens, times, distances and scores are reals. The clock is monotone, and each middleware reads it under its mutex, so its
  events form one sequence. A janitor pass reads the clock once.
- Service calls are atomic steps in `Nearby`; in `NearbyRaces` every statement is a step of its own. PostgreSQL, Redis and network answers are parameters: `Reply` for the rows,
  reactions and failed unlock lookups of one call, `getOk`/`setOk` for Redis, `enabled` for a cache switched off at start.
- The file creating `content_reports` (migration 005) is not part of this model. One report per reporter and message is inferred
  from `ON CONFLICT DO NOTHING` (backend/internal/repository/interaction_repo.go:124), and deleting a message is taken to delete
  its reports, as it does its interactions, unlocks and reactions.
- backend/cmd/server/main.go:144 passes four arguments to `ServeWS`; backend/internal/ws/client.go:33 takes three. The model
  follows client.go.
- User ids have distinct eight-character prefixes, as the comment at backend/internal/cache/redis.go:43 assumes.
- ToggleLike is two atomic steps, the SELECT and then the write, trigger, count and commit: the trigger's update holds the
  message row's lock until the commit. Ids of messages and rows are generated and never reused.

Where code and comments differ the model follows the code: InvalidateZone deletes `grid:*` (its comment says `nearby:*`,
backend/internal/cache/redis.go:76-83), and a TTL of zero means no expiry.

These promises a reader might expect hold only under a condition, which is proved exact:

- Eviction by the rate limiter goes unnoticed exactly when `RateLimit.IdleRefills` holds (`EvictionUnobservable`,
  `EvictionObservable`); every window stays within maxBurst + rate × length exactly when moreover neither is negative
  (`WindowsBoundedExactly`).
- A message outscores everything it dominates exactly when its distance is not zero, since zero scores like 1000 m
  (`Ranking.DominanceExact`).
- A new message's announcement goes to every connection and masks mysteries only. It shows no more than an anonymous caller may
  see exactly for public messages that are not unrevealed or expired capsules (`MessageService.AnnouncementExact`); a private
  note is announced in full (`PrivateIsAnnounced`).
- A cache hit may list a message that moderation has hidden, or that has expired, since the entry was written
  (`Nearby.ServedWhileHidden`); a returned message is visible now exactly if neither has happened (`Nearby.ContentExact`).
- With calls racing, a hit knows of a create or delete that has returned exactly if the write was committed before the storing call
  read its rows; otherwise that call spans the write, from before its commit to after its scan
  (`NearbyRaces.HitOfReturnedWrite`). Both failures occur: a new message is missing (`StaleAfterReturnedCreate`), and a deleted one
  is served (`ServedAfterReturnedDelete`).
- With calls racing, a streak badge is held in the end exactly if some check read the row while the current streak was long enough
  (`Badges.SettledExactly`), so a streak on record may leave no badge (`StreakBadgeLost`); the badges for counts are never lost
  (`CountingBadgesSettle`).

## Model

| member | source | states |
|---|---|---|
| `Hub.InvStep` | backend/internal/ws/hub.go:27-63 | every single step of Register, Unregister, Broadcast and the pumps keeps the protocol invariant: lock discipline, open channels in the map, sound queues, ordered histories, service in progress |
| `Hub.RunInv` | backend/internal/ws/hub.go:27-63 | the invariant holds in every state of every interleaving from a new hub |
| `Hub.LockedStep` | backend/internal/ws/hub.go:27-63 | whatever steps next, no send or close hits a closed channel and every client in the map keeps an open one |
| `Hub.HubSafe` | backend/internal/ws/hub.go:27-63 | in every state of every run: no panic, mapped clients have open channels, each channel is closed at most once, buffers hold at most 256, no zero value is ever received in a drain |
| `Hub.OnlyOpenChannels` | backend/internal/ws/hub.go:34-62 | no step of any run sends on, or closes, a channel that is already closed, and a close closes it |
| `Hub.NeverStuck` | backend/internal/ws/hub.go:34-63 | a running Broadcast can always visit any client it has left, and an Unregister that removed its client can always close |
| `Hub.NoDeadlock` | backend/internal/ws/hub.go:27-63 | while anything is waiting for or holding the lock some step of it can be taken, and a free lock admits a Broadcast beside those running |
| `Hub.WriterSafe` | backend/internal/ws/client.go:81-105 | in every run a drain in progress never blocks, what is written is a prefix of what was enqueued, and a Close frame comes after everything enqueued |
| `Hub.ClosedClientIsWrittenOut` | backend/internal/ws/client.go:81-105 | whatever the hub is doing, a client whose channel was closed and whose writer has not returned can be sent everything it was ever queued, in order, and then the Close frame: some continuation of the run does so |
| `Hub.EnqueuedAtMostOnce` | backend/internal/ws/hub.go:55-62 | a broadcast occurs at most once in a client's channel history |
| `Hub.NonOverlappingInOrder` | backend/internal/ws/hub.go:52-62 | if one Broadcast released the lock before another took it, every client that gets both gets them in that order |
| `Hub.DeliveredAtEnd` | backend/internal/ws/hub.go:52-62 | when a Broadcast ends, every client then in the map has it queued or has an Unregister pending |
| `Hub.NobodySkipped` | backend/internal/ws/hub.go:34-63 | a client in the map when a broadcast ended and still there later has it queued or is about to be removed; with the lock free and nothing pending it has it |
| `Hub.RegistersOnce` | backend/internal/ws/client.go:40-48 | a client that has been in the map is past registration for good: it never waits for, or holds, the lock to register again |
| `Hub.RemovalIsFinal` | backend/internal/ws/hub.go:34-42 | a client that was in the map and no longer is never comes back |
| `Hub.Whereabouts` | backend/internal/ws/hub.go:27-42 | at every moment a connected client is in exactly one place: on its way in, in the map, being closed, or closed; its pumps may run exactly once Register has returned |
| `Hub.ReaderExitUnregisters` | backend/internal/ws/client.go:52-56 | once a reader has ended its client is out of the map or an Unregister of it is pending or under way; with the lock free and nothing pending it is out and its channel closed |
| `Hub.ReaderEndsOnce` | backend/internal/ws/client.go:52-71 | a reader that has ended never reads again |
| `Hub.MappedIsRead` | backend/internal/ws/client.go:47-71 | a client in the map whose reader was launched is still being read, or is leaving |
| `Hub.HubObject.Register` | backend/internal/ws/hub.go:27-32 | run alone, the method is the run of its steps and adds just this client |
| `Hub.HubObject.Unregister` | backend/internal/ws/hub.go:34-42 | run alone, it removes and closes a present client, does nothing for an absent one, and is the run of its steps |
| `Hub.HubObject.Broadcast` | backend/internal/ws/hub.go:45-63 | run alone, the loop over the map in any order is a run of steps after which everybody has the message or an Unregister spawned |
| `SendQueue.EnqueueSound` | backend/internal/ws/hub.go:56-57 | a successful non-blocking send keeps the channel bounded and the writer's account of it exact |
| `SendQueue.CloseSound` | backend/internal/ws/hub.go:39 | closing an open channel, at any moment of the writer, keeps that account and makes it closed once |
| `SendQueue.WriterSound` | backend/internal/ws/client.go:74-114 | every writer step, failing connection operations included, loses and reorders nothing between channel and frames |
| `SendQueue.DrainNeverBlocks` | backend/internal/ws/client.go:96-101 | each further receive after the length was read can proceed and takes a real message |
| `SendQueue.WrittenIsPrefix` | backend/internal/ws/client.go:81-105 | completed frames plus the open one are a prefix of everything enqueued; with a Close frame sent they are all of it |
| `SendQueue.FailureIsFinal` | backend/internal/ws/client.go:90-112 | when any connection operation fails the writer has returned, sends no Close frame and takes no further step |
| `SendQueue.WriterMoves` | backend/internal/ws/client.go:81-113 | the writer waits only on an open empty channel, where it still pings; everywhere else it can go on, whether or not the connection accepts |
| `SendQueue.ClosedIsWrittenOut` | backend/internal/ws/client.go:81-105 | from wherever the writer stands when its channel is closed, an accepting connection takes everything ever enqueued and then the Close frame |
| `SendQueue.Channel.Receive` | backend/internal/ws/client.go:100 | a receive that does not block yields the oldest message, or the zero value only when closed and empty |
| `SendQueue.Channel.DrainBatch` | backend/internal/ws/client.go:96-101 | for every schedule of sends and closes between receives, the loop takes exactly what was buffered when the length was read |
| `RateLimit.TokensAreTightest` | backend/internal/middleware/ratelimit.go:39-69 | the stored tokens are the least remaining budget over all earlier requests of the key |
| `RateLimit.BucketExact` | backend/internal/middleware/ratelimit.go:42-69 | a request is admitted if and only if, from every request of the key so far, admissions plus one stay within maxBurst + rate × elapsed |
| `RateLimit.EvictionUnobservable` | backend/internal/middleware/ratelimit.go:20-53 | when an idle minute refills the bucket, arbitrary janitor passes change no verdict on any monotone trace |
| `RateLimit.EvictionObservable` | backend/internal/middleware/ratelimit.go:20-53 | otherwise some monotone trace is admitted with the janitor and rejected without it, so the condition is exact |
| `RateLimit.LimiterExact` | backend/internal/middleware/ratelimit.go:16-75 | the exact characterisation for the limiter with its janitor |
| `RateLimit.WindowBound` | backend/internal/middleware/ratelimit.go:42-69 | when an idle minute refills the bucket and neither rate nor burst is negative, every time window of every run admits at most maxBurst + rate × length requests of one key |
| `RateLimit.WindowExceeded` | backend/internal/middleware/ratelimit.go:20-53 | when an idle minute does not refill the bucket some run exceeds the window bound |
| `RateLimit.WindowsBoundedExactly` | backend/internal/middleware/ratelimit.go:16-75 | every window of every monotone run is bounded if and only if an idle minute refills the bucket and neither rate nor burst is negative |
| `RateLimit.DeployedWindow` | backend/cmd/server/main.go:86 | with the server's settings every window admits at most 20 + 10 × length |
| `RateLimit.Limiter.constructor` | backend/internal/middleware/ratelimit.go:16-18 | a new limiter knows nobody |
| `RateLimit.Limiter.Handle` | backend/internal/middleware/ratelimit.go:36-70 | the statement-by-statement update of the visitors map gives the verdict of the recorded trace |
| `RateLimit.Limiter.Cleanup` | backend/internal/middleware/ratelimit.go:24-30 | the deletion loop, in any order, keeps exactly the visitors seen within the last 60 s, unchanged, and is one janitor event of the trace |
| `AntiSpam.RecordsLastAccepted` | backend/internal/middleware/ratelimit.go:103-119 | the map holds the time of each user's last accepted action, and nothing for users without one |
| `AntiSpam.CooldownExact` | backend/internal/middleware/ratelimit.go:103-119 | an action is accepted if and only if every earlier accepted one is at least the cooldown back |
| `AntiSpam.EvictionUnobservable` | backend/internal/middleware/ratelimit.go:82-93 | dropping entries older than twice the cooldown changes no verdict, for any cooldown |
| `AntiSpam.DeployedCooldownExact` | backend/internal/middleware/ratelimit.go:78-125 | the exact rule for the middleware with its janitor |
| `AntiSpam.AnonymousPasses` | backend/internal/middleware/ratelimit.go:97-101 | requests without a user id always pass and leave no record |
| `AntiSpam.Guard.constructor` | backend/internal/middleware/ratelimit.go:78-80 | a new guard remembers nobody |
| `AntiSpam.Guard.Handle` | backend/internal/middleware/ratelimit.go:97-122 | the update of lastAction gives the verdict of the recorded trace; anonymous requests pass unrecorded |
| `AntiSpam.Guard.Cleanup` | backend/internal/middleware/ratelimit.go:85-91 | the deletion loop, in any order, keeps exactly the entries at most twice the cooldown old, unchanged, and is one janitor event of the trace |
| `Nearby.PreparedFrom` | backend/internal/service/message_service.go:78-110 | every prepared message is a stored, visible row, masked exactly by the mystery rule and carrying its own reaction summary |
| `Nearby.OwnReactions` | backend/internal/service/message_service.go:96-110 | batch enrichment gives a message an answer of its own single-message reaction query |
| `Nearby.AnswerLists` | backend/internal/service/message_service.go:73-127 | an uncached answer lists exactly the rows read, or with a hashtag exactly those that carry it |
| `Nearby.NextKeepsCacheOk` | backend/internal/service/message_service.go:28-210 | every service call keeps all cache entries unmasked, current in content, and readable by the users of their key |
| `Nearby.ContentExact` | backend/internal/service/message_service.go:63-94 | in every run, on hits as on misses, a returned message has exactly the content the mystery rule allows the caller at that moment (only a failed lookup masks more); on a miss it is visible to the caller, and on a hit it is if and only if it is not hidden and not expired now |
| `Nearby.HitWasVisible` | backend/internal/service/message_service.go:63-71 | every message of a hit was visible to this same caller when the entry was written, less than the TTL ago |
| `Nearby.HitVisibleNow` | backend/migrations/007_reports.up.sql:64-71 | a message of a hit is visible now if and only if its row is neither hidden nor expired now: visibility and reveal cannot be lost in between |
| `Nearby.ServedWhileHidden` | backend/internal/repository/interaction_repo.go:139-145 | for any world where a point is at distance zero from itself, a run in which a hit returns a moderated message in full, because hiding does not invalidate |
| `Nearby.AnonymousEntriesHoldNoMystery` | backend/internal/cache/redis.go:40-46 | in every reachable state entries under the anonymous key hold no mystery message |
| `Nearby.UnlockIsVisible` | backend/internal/service/message_service.go:194-209 | after a user's unlock no later GetNearby of that user shows the message masked, through any cache state, if the lookup succeeds |
| `Nearby.GridKeyExact` | backend/internal/cache/redis.go:40-46 | two queries share an entry if and only if they agree on the printed coordinates, the radius and the user |
| `Nearby.EntryLifetime` | backend/internal/cache/redis.go:73 | an entry answers from its writing until the TTL has passed, and for good without one |
| `Nearby.OrderedAnswers` | backend/internal/service/message_service.go:112-121 | in every run, "recent" answers are newest first and "popular" ones most liked first |
| `Nearby.RemovedByAuthor` | backend/internal/repository/message_repo.go:137-139 | in every run, a message goes only by a delete of its own author |
| `Nearby.EntryOrigin` | backend/internal/cache/redis.go:62-91 | every cache entry was written by an earlier miss with that key, and no message was created or deleted since |
| `Nearby.HitAgrees` | backend/internal/service/message_service.go:63-76 | every hit equals the uncached pipeline's result for some plain query of the same caller about the same rounded place and radius, on the store less than the TTL ago, undisturbed since |
| `NearbyRaces.RunInv` | backend/internal/service/message_service.go:28-210 | in every interleaving of statements: tables consistent, every call in flight and every cache entry properly masked |
| `NearbyRaces.NoMaskIsEverCached` | backend/internal/service/message_service.go:129-135 | with lookups, unlocks, deletes and stores racing, no entry ever holds a masked mystery, and a mystery only under the key of users who wrote or unlocked it |
| `NearbyRaces.ReturnedContent` | backend/internal/service/message_service.go:63-94 | whatever a racing call returns, a mystery with real content was written or unlocked by the caller, and only mysteries of others are masked |
| `NearbyRaces.UnlockIsVisibleToLaterCalls` | backend/internal/service/message_service.go:194-209 | a call begun after the unlock never shows the message masked, under any interleaving, if the message still exists and its lookup did not fail |
| `NearbyRaces.EntryOrigin` | backend/internal/cache/redis.go:62-91 | a live entry was stored by some call, and every invalidation finished since had scanned before that; the others in progress will remove it |
| `NearbyRaces.RacingHitAgrees` | backend/internal/service/message_service.go:63-135 | every hit is what one call of the same user, about the same rounded place and radius, fetched, enriched, sorted and stored, unmasked, less than the TTL ago; every write returned by now had scanned before that store |
| `NearbyRaces.HitOfReturnedWrite` | backend/internal/cache/redis.go:76-91 | over every hit and every create or delete that has returned: the hit knows of it exactly if it was committed before the rows were read, else the storing call spans commit and scan; the hit lists exactly the rows read; a created message can appear only in the first case and then does unless crowded out; a deleted one can appear only in the second |
| `NearbyRaces.ReflectedExactly` | backend/internal/service/message_service.go:152-159 | the tables know of a create or delete at a moment exactly if it was committed before |
| `NearbyRaces.RemovedByAuthor` | backend/internal/repository/message_repo.go:137-139 | with everything racing a message still goes only by a delete of its own author |
| `NearbyRaces.StaleAfterReturnedCreate` | backend/internal/service/message_service.go:28-34 | for any world where a point is at distance zero from itself and every delay, a run whose hit lacks a message whose create has returned, while every uncached answer is not empty |
| `NearbyRaces.ServedAfterReturnedDelete` | backend/internal/service/message_service.go:152-159 | for any world where a point is at distance zero from itself and every delay, a run whose hit serves in full a message whose delete has returned |
| `GridKeys.ValueOfDecimal` | backend/internal/cache/redis.go:45 | reading back the printed radius returns it |
| `GridKeys.TextInjective` | backend/internal/cache/redis.go:40-46 | two keys with the same text agree on rounded coordinates, radius and user prefix |
| `MessageService.MaskInPlace` | backend/internal/service/message_service.go:78-94 | the loop rewrites the slice to the masked messages and reports whether any was masked |
| `MessageService.EnrichInPlace` | backend/internal/service/message_service.go:96-110 | the loop gives each message the group collected under its id |
| `MessageService.Service.Fetch` | backend/internal/repository/message_repo.go:104-134 | the returned slice holds the rows, filtered in place when a hashtag is given |
| `MessageService.Service.GetNearby` | backend/internal/service/message_service.go:55-138 | the method, loops and cache included, is exactly one GetNearby step of the run model; only plain queries store, and they do whenever nothing was masked |
| `MessageService.Service.Invalidate` | backend/internal/cache/redis.go:78-91 | collecting and deleting the keys empties an enabled cache |
| `MessageService.Service.Create` | backend/internal/service/message_service.go:28-53 | refused exactly when the trimmed content is empty or over 500 characters, and then nothing changes; else one Create step that stores the request's columns; the announcement masks mysteries only, within what an anonymous caller may see if and only if the message is open to everybody at once |
| `MessageService.CreatedIsFound` | backend/internal/service/message_service.go:28-34 | whoever may see a new message at once and asks where it was written, uncached, gets it, unless as many others as the limit are just as near |
| `MessageService.AnnouncementExact` | backend/internal/service/message_service.go:35-41 | the announcement shows no more than an anonymous caller may see if and only if the message is public and, for a capsule, revealed and not expired |
| `MessageService.PrivateIsAnnounced` | backend/internal/service/message_service.go:35-41 | a private standard message is announced word for word, though no query lists it to an anonymous caller at any time |
| `MessageService.Service.Delete` | backend/internal/service/message_service.go:152-159 | succeeds exactly for the message's author; the message goes with its unlocks and reactions and nothing else does; success empties the cache, failure changes nothing |
| `MessageService.Service.UnlockMystery` | backend/internal/service/message_service.go:166-210 | found, kind and distance checks, a new or repeated unlock, real content on success, nothing changed otherwise; a mystery within reach is unlocked if fewer than 100 other messages are no farther, and not found if 100 are nearer |
| `Messages.StoredTags` | backend/internal/repository/message_repo.go:24-74 | the stored tags are those of the stored, trimmed content |
| `Messages.VisibleWindow` | backend/internal/repository/message_repo.go:38-58 | exactly when and to whom a created message is visible: a day for standard, a day from the reveal for capsules, always for mysteries |
| `Messages.LimitExact` | backend/migrations/007_reports.up.sql:72-73 | a message the query could return is in the answer if fewer than the limit are no farther, out if that many are nearer, and exactly so without ties |
| `Messages.KeepStable` | backend/internal/repository/message_repo.go:120-132 | the filter is the subsequence at exactly the positions carrying the tag |
| `Messages.HasTagExact` | backend/internal/repository/message_repo.go:123-129 | a message matches exactly if the searched tag is part of one of its hashtags in lower case |
| `Messages.SearchIgnoresHashAndCase` | backend/internal/repository/message_repo.go:121 | one leading # and the case of the searched tag make no difference |
| `Messages.FoundByPieces` | backend/internal/repository/message_repo.go:121-129 | a message tagged t is found by t and by every piece of it |
| `Messages.FilterInPlace` | backend/internal/repository/message_repo.go:120-132 | the compaction over the shared backing array leaves the stable filter of the original in front |
| `Ranking.DominanceScores` | backend/internal/service/message_service.go:140-150 | at positive distance, no farther, no older, no less liked and better in age or likes means a strictly higher score, for all increasing curves |
| `Ranking.DominatingComesFirst` | backend/internal/service/message_service.go:112-127 | in the default order such a message comes strictly earlier |
| `Ranking.ZeroDistanceScoresAsFar` | backend/internal/service/message_service.go:141-144 | a missing or zero distance scores as 1000 m, below every distance between |
| `Ranking.ZeroDistanceBreaksDominance` | backend/internal/service/message_service.go:141-144 | for all curves like log1p and exp, every message at distance zero dominates one 100 m away that outranks it |
| `Ranking.DominanceExact` | backend/internal/service/message_service.go:140-150 | a message outscores everything it dominates, at every moment, if and only if its distance is positive |
| `Ranking.Rank` | backend/internal/service/message_service.go:112-127 | the sort returns a permutation in descending order of the chosen key |
| `Ranking.RankedMeans` | backend/internal/service/message_service.go:113-121 | "recent" puts newer before older, "popular" more liked before less liked |
| `Ranking.ScoreTradeoffs` | backend/internal/service/message_service.go:140-150 | exactly what the score weighs: 0.0004 a metre up to a kilometre, 0.06 the logarithm of the likes, 0.3 a freshness decaying over 8.66 hours |
| `Streaks.PostExtendsRun` | backend/internal/repository/gamification_repo.go:43-47 | the CASE gives the length of the consecutive-day run ending at the new last day |
| `Streaks.LongestAfterPost` | backend/internal/repository/gamification_repo.go:48-52 | GREATEST gives the longest run after the new last day |
| `Streaks.StreakRefinement` | backend/internal/repository/gamification_repo.go:33-72 | for every history on non-decreasing days with unlocks anywhere, current, max, last date and totals mean what the history says, from no row or a seeded row |
| `Streaks.ZonesOfHistory` | backend/internal/repository/gamification_repo.go:55-56 | total_zones is the count computed at the last post, and zero before the first |
| `Streaks.LongestRunDecides` | backend/internal/repository/gamification_repo.go:48-52 | the longest run reaches k if and only if some k consecutive days were all posted on |
| `Badges.GamificationRepo.RecordPost` | backend/internal/repository/gamification_repo.go:33-60 | the upsert changes this user's row as the history function says and no other |
| `Badges.GamificationRepo.RecordUnlock` | backend/internal/repository/gamification_repo.go:63-72 | likewise for an unlock, NULL date kept |
| `Badges.GamificationRepo.CheckAndAwardBadges` | backend/internal/repository/gamification_repo.go:104-146 | the sequence of conditional awards adds exactly the badges the row earns |
| `Badges.GamificationRepo.AfterCreate` | backend/internal/service/message_service.go:43-50 | record, check and capsule award are one serial operation |
| `Badges.GamificationRepo.AfterUnlock` | backend/internal/service/message_service.go:199-202 | record and check are one serial operation |
| `Badges.BadgesAgreeWithRecords` | backend/internal/repository/gamification_repo.go:104-146 | after every operation, although checked on the current streak, streak_k is held iff max_streak ≥ k, mystery_hunter_k iff total_unlocks ≥ k, first_post iff total_posts ≥ 1 |
| `Badges.BadgesAgreeWithHistory` | backend/internal/repository/gamification_repo.go:33-146 | streak_k is held iff the history has k consecutive posting days, mystery_hunter_k iff it has k unlocks |
| `Badges.ExplorerOfHistory` | backend/internal/repository/gamification_repo.go:115-124 | explorer_k is held iff some post of the user saw k zones, and never lost when the count falls |
| `Badges.CapsuleOfHistory` | backend/internal/service/message_service.go:47-49 | capsule_creator is held exactly by users who made a capsule |
| `Badges.OnlyListedBadges` | backend/internal/repository/gamification_repo.go:104-146 | no badge of another level is ever awarded |
| `Badges.BadgesNeverUndeserved` | backend/internal/repository/gamification_repo.go:96-146 | with interleaved calls and failing statements, a tracked badge is still only ever held by a user whose records reach its level |
| `Badges.CountingBadgesSettle` | backend/internal/repository/gamification_repo.go:104-146 | in every interleaving, once a user's calls are over without a failed read or award, first_post and mystery_hunter_k are held if and only if the records reach their level |
| `Badges.SettledExactly` | backend/internal/repository/gamification_repo.go:104-146 | under the same conditions any checked badge is held if and only if some check of the user read a row that earned it |
| `Badges.StreakBadgeLost` | backend/internal/repository/gamification_repo.go:126-135 | a run without failures in which a streak of three is on record and streak_3 is not held, because every check read after the reset |
| `Reports.NeverHiddenWithoutQuorum` | backend/internal/service/interaction_service.go:35-50 | in every interleaving, failures included, a hidden message has at least three distinct reporters |
| `Reports.QuorumHidesWhenQuiet` | backend/internal/service/interaction_service.go:35-50 | with no call in flight a live message whose statements did not fail is hidden if and only if it has three reporters |
| `Reports.HiddenStays` | backend/internal/repository/interaction_repo.go:139-145 | a hidden message stays hidden as long as it exists |
| `Reports.ReportCounts` | backend/internal/repository/interaction_repo.go:122-127 | an inserted report counts its user among the reporters for as long as the message exists |
| `Reports.ReportedByCaller` | backend/internal/repository/interaction_repo.go:122-127 | a reporter is added only by that user's own call |
| `Reports.InteractionService.GetReportCount` | backend/internal/repository/interaction_repo.go:130-137 | COUNT(*) over the rows of a message is its number of distinct reporters |
| `Reports.InteractionService.ReportMessage` | backend/internal/service/interaction_service.go:35-50 | run alone, the call is the sequence of its steps: one more reporter, and the message hidden if there are then at least three; a missing message changes nothing |
| `Likes.StepKeepsDrift` | backend/migrations/001_init_schema.up.sql:119-142 | no step, double delete or losing insert included, changes counter minus rows of a live message |
| `Likes.CountersConserved` | backend/internal/repository/interaction_repo.go:19-95 | in every interleaving, counter minus rows is the same at any two moments a message is live |
| `Likes.CountersExact` | backend/internal/repository/interaction_repo.go:19-95 | from an empty store both counters equal their row counts in every state, and nobody likes twice |
| `Likes.RowRemovedByOwner` | backend/internal/repository/interaction_repo.go:27-38 | a row goes only with its message or by its own user: a like by that user's toggle, a comment by that user's DeleteComment |
| `Likes.RowAddedByOwner` | backend/internal/repository/interaction_repo.go:39-46 | a row comes only by its own user's toggle or AddComment, and never changes |
| `Likes.StatementsAct` | backend/internal/repository/interaction_repo.go:66-95 | a comment under a live message is added, one's own is deleted, a deleted message takes its rows along |
| `Likes.CommitExact` | backend/internal/repository/interaction_repo.go:33-61 | the second part of a toggle flips its own user's like exactly if the like it found still exists, or it found none and there is none |
| `Likes.InteractionRepo.ToggleLike` | backend/internal/repository/interaction_repo.go:19-64 | run alone: flag, like set and count move together; a missing message rolls back |
| `Likes.InteractionRepo.ToggleTwice` | backend/internal/repository/interaction_repo.go:19-64 | two serial toggles restore the like set and the count |
| `Reactions.OptimisticIsSummary` | mobile/lib/widgets/message_popup.dart:94-124 | the optimistic list is a summary of the rows after the server's toggle, for all rows, users and emojis |
| `Reactions.SummaryUnique` | backend/internal/repository/interaction_repo.go:177-201 | rows determine their summary up to order |
| `Reactions.OptimisticCommutes` | mobile/lib/widgets/message_popup.dart:94-142 | the optimistic list equals the server's answer up to order if and only if the service's trimming leaves the emoji alone, for all rows, users and emojis |
| `Reactions.ToggleTwice` | mobile/lib/widgets/message_popup.dart:94-124 | two toggles restore the rows, and the list up to order |
| `Reactions.Popup.Edit` | mobile/lib/widgets/message_popup.dart:96-124 | the index search and list edits compute the optimistic list |
| `Reactions.Popup.ToggleReaction` | mobile/lib/widgets/message_popup.dart:89-148 | an error restores the prior list, success takes the server's, an unmounted popup keeps what it showed |
| `Reactions.ReactionRepo.ToggleReaction` | backend/internal/repository/interaction_repo.go:148-174 | toggles this user's row under this message and touches no other message |
| `Reactions.ReactionRepo.ServeToggle` | backend/internal/service/interaction_service.go:52-56 | the service toggles the row of the trimmed emoji and reports whether it is now there |
| `ReactionRaces.WriteExact` | backend/internal/repository/interaction_repo.go:148-174 | in every interleaving each write toggles exactly its own reaction or changes nothing, with the exact condition, and what added, removed or an error then says about the table |
| `ReactionRaces.AloneToggles` | backend/internal/repository/interaction_repo.go:148-174 | a call nobody gets in between toggles its reaction and leaves every other alone |
| `Reactions.BatchGivesOwnSummary` | backend/internal/repository/interaction_repo.go:204-233 | the group collected for a message answers its own single query, and is missing exactly when it has no reactions |
| `Reactions.GroupRows` | backend/internal/repository/interaction_repo.go:223-232 | the scan loop builds exactly these groups |
| `Hashtags.FindAll` | backend/internal/repository/message_repo.go:356 | the left-to-right scanner returns the greedy submatches |
| `Hashtags.ExtractHashtags` | backend/internal/repository/message_repo.go:355-367 | the loop with its seen map returns the de-duplicated lower-case tags |
| `Hashtags.ScanFindsAll` | backend/internal/repository/message_repo.go:13 | the scan lists the greedy submatch of every match position, left to right |
| `Hashtags.DedupKeepsFirsts` | backend/internal/repository/message_repo.go:357-365 | the kept tags are all tags, once each, in order of first occurrence |
| `Hashtags.ExtractIsFirstOccurrences` | backend/internal/repository/message_repo.go:355-367 | the result holds exactly the tags occurring in the content, lower-cased, once each, ordered by first position |
| `Hashtags.ExtractedLiterally` | backend/internal/repository/message_repo.go:13 | every tag is a non-empty string of small letters, digits and underscores, stands behind a # up to case, and is followed by none of these |
| `Hashtags.ExtractOfRender` | backend/internal/repository/message_repo.go:355-367 | printing stored tags as "#t1 #t2 ..." and extracting returns the list |
| `Hashtags.ExtractedTagsAreStored` | backend/internal/repository/message_repo.go:355-367 | every extracted list survives printing and extracting again |
| `Hashtags.TrimSpaceExact` | backend/internal/repository/message_repo.go:73 | trimming removes exactly the outer white space |
| `Hashtags.ExtractOfTrimmed` | backend/internal/repository/message_repo.go:24-73 | tags of the raw content are the tags of the trimmed content that is stored |

## Left out

- HTTP handlers, JSON, routing, configuration, JWT and bcrypt: plumbing; the user id is given. A broadcast whose payload fails to serialize does nothing and is not a step.
- PostGIS geometry, the bounding box and Haversine: distance is an abstract function. Three-decimal printing of coordinates is a parameter too; `GridKeys.TextInjective` only needs that it prints no colon.
- IEEE rounding in token counts and scores; logarithm and exponential are arbitrary strictly increasing functions.
- Redis SCAN cursors and a failing invalidation: in `Nearby` InvalidateZone removes all grid keys at once; in `NearbyRaces` the scan is one moment, finds at least the live keys, and the deletion comes later.
- NearbyRaces: a call whose query fails simply stops, and the checks before an unlock's insert are not separate steps.
- Fairness and progress of the RWMutex and of goroutines: the hub results are safety results.
- RFC 3339 parsing: the schedule of a capsule is an option, empty when absent or unreadable.
- Deleting users and what that cascades to; the reports of a deleted user would lower a quorum already used.
- unlocks_count and its trigger, heatmap, leaderboard, event detection, search and pagination, comment listing: easy members.
- Lower-casing outside ASCII: tags are ASCII by the expression, and a searched hashtag is taken as ASCII.
- Aliasing of the Dart list with the widget's message: the popup's list is a sequence value that the methods reassign.
- Ranking.Rank: sorts by insertion, because sort.Slice promises only a sorted permutation and no particular algorithm or tie order.
- Flutter screens other than the reaction toggle, and request validation.
