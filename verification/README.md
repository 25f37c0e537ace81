# Constell: verified models

Constell is a chat system: Go services behind a WebSocket gateway, a TypeScript SDK, and a web
client. This project models the parts whose correctness is not visible in any single function
and proves what they promise, each over every run.

| area | modules |
|---|---|
| message order, the client's list, optimistic sends | `MessageOrder`, `MessageStore`, `MessageConvergence` |
| the message log, its queries and its pagers | `MessageLog`, `Paging`, `IdPaging`, `Decimal` |
| the sync protocol between log and client | `SyncStore`, `Sync` |
| the read-through LRU cache and authorization on top of it | `Lru`, `LruTheorems`, `Permissions`, `Authorization` |
| connection, subscription and session state machines | `WsManager`, `Subscriptions`, `TokenRefresh` |
| read cursors, push fan-out | `Unread`, `FanOut` |
| migrations, search query text, wire frames | `Migrate`, `Tsquery`, `Frames` |

`Wrappers` holds `Option` and `Result`. `dafny verify dfyconfig.toml` verifies everything.

Where the program changes objects, lists or buffers step by step, the model is a class or a
method with loops (`MessagesStore`, `SyncState`, `LruCache`, `Cache`, `CommunityService`,
`Manager`, `ConnManager`, `Client`, `AuthManager`, `AuthServer`, `Store`, `Runner`,
`EncodeFrame`, ...). Each such method is tied by its contract to a specification function, and
the theorems about runs are lemmas about those functions.

## What the environment is assumed to do

- Messages become visible in seq order, each with a seq above every seq issued before.
- Server ids and temporary ids are disjoint, and ids and seqs determine each other.
- A JavaScript sort is stable, and seqs stay below 2^53.
- Handlers run one at a time, on one instance, and do not re-enter a state machine.
- A failing database call has no effect, except that a migration's commit may take effect
  although it reports a failure.
- The database and Go order version names by bytes.

## Where the code does not do what its comments promise

Each item is a lemma that gives the exact condition, a concrete run, or both.

- *Convergence regardless of push loss.* A client without a cursor asks for messages since 0 and
  is given the newest 200; it then moves its cursor past all of them. Whatever was older and not
  in its list is never fetched by later rounds (`Sync.ZeroCursorGap`, `Sync.EmptyListGap`;
  `Sync.GapIsReached` for a new client that misses more than 200 pushes).
- *Older messages on scrolling back.* The list view asks for the newest page again, so scrolling
  back adds nothing older than the newest 50 (`Sync.LoadMoreAddsNothingOlder`).
- *Cached membership.* The members cache holds the first 1000 members by id, so a permitted
  member beyond rank 1000 is refused (`Authorization.VerdictsAgree`, `Authorization.LateMemberIsRefused`).
- *One driver per session.* `connect()` after `disconnect()` but before the closed socket's close
  event ends with two drivers, and `disconnect()` during an attempt leaves the attempt running
  (`WsManager.ConnectNeedsClosed`, `WsManager.DisconnectNeedsNoAttempt`).
- *Subscriptions.* The client tracks an empty channel id that the gateway rejects, and a late
  clean-up of the previous connection removes the new connection's entry
  (`Subscriptions.EmptyIdIsNeverSubscribed`, `Subscriptions.LateCleanUp`).
- *Token rotation.* Tokens carry no unique id, so two logins in one second get the same refresh
  token. Which repeats, and which lost answers, can end with a stored token that the server
  rejects is exactly what the guard forbids (`TokenRefresh.GuardIsExact`,
  `TokenRefresh.RepeatedTokenIsReachable`). A comment in `sdk/sdk-js/src/auth.ts` says that
  4xx answers log out; the code does so for every answer that is not a success, which is what
  keeps a rotation that fails half-way consistent. The model follows the code.
- *Channel pushes.* `handleMessageCreated` publishes the whole target list once per target, so a
  user receives as many copies as their gateway has online targets (`FanOut.CopiesPerTarget`).
- *Migrations.* Up goes by file name and down by version. Every run keeps a prefix if and only
  if no version extends another by something that sorts before `.up.sql`
  (`Migrate.PrefixIffNoShortExtension`; `Migrate.PrefixIsLost` is a directory where it fails).
- *Frames.* A payload of 2^32 bytes or more is framed with a truncated length
  (`Frames.PayloadRoundTrip`).

## Model

| member | source | states |
|---|---|---|
| MessageOrder.SortIsStable | clients/web/src/stores/messagesStore.ts:31-32 | sorting by seq, then creation time yields a sorted list with the same messages in which equal ones keep their order |
| MessageOrder.StableSortUnique | clients/web/src/stores/messagesStore.ts:31-32 | there is only one such list, so the result does not depend on the sorting algorithm |
| MessageOrder.SortFilter | clients/web/src/stores/messagesStore.ts:122-128 | removing messages before or after a stable sort gives the same list |
| MessageOrder.ComparatorIsBefore | clients/web/src/stores/messagesStore.ts:31-32 | below 2^53 the comparator orders by seq and then by creation time, messages without a seq last |
| MessageOrder.SortFollowsOrder | clients/web/src/stores/messagesStore.ts:31-32 | no message of the sorted list comes before an earlier one in that order |
| MessageStore.MaxSeqIsMax | clients/web/src/stores/messagesStore.ts:50-51 | the high-water seq is at least 0 and no sequenced message is above it |
| MessageStore.MaxSeqIsAttained | clients/web/src/stores/messagesStore.ts:50-51 | the high-water seq is that of a listed message, or 0 |
| MessageStore.WithLocalSeq | clients/web/src/stores/messagesStore.ts:48-53 | a sequenced message is unchanged; another one only gets a seq, above all in the list and directly after one of them, or 1 when none has one |
| MessageStore.MergeByIdSeq | clients/web/src/stores/messagesStore.ts:63-72 | the two loops over an insertion-ordered map compute `Merge` |
| MessageStore.MergeShape | clients/web/src/stores/messagesStore.ts:63-72 | a merge is sorted, has every id of either side exactly once and no other id |
| MessageStore.MessagesStore.SetChannelMessages | clients/web/src/stores/messagesStore.ts:96-101 | a history load replaces one channel's list by its stable sort and touches nothing else |
| MessageStore.MessagesStore.AppendChannelMessage | clients/web/src/stores/messagesStore.ts:106-112 | an append is a merge of one message with a local seq where it has none |
| MessageStore.MessagesStore.MergeChannelMessages | clients/web/src/stores/messagesStore.ts:114-120 | a backfill merges a batch into one channel's list and touches nothing else |
| MessageStore.MessagesStore.RemoveChannelMessage | clients/web/src/stores/messagesStore.ts:122-128 | one id is removed from one channel's list |
| MessageStore.MessagesStore.Reconcile | clients/web/src/hooks/useMessageSend.ts:32-49 | an acknowledgement swaps the temporary message for the real one and moves its status over; without a new id only the status changes |
| MessageStore.MessagesStore.BeginRetry | clients/web/src/hooks/useMessageSend.ts:55-71 | a retry finds the optimistic message and marks it as sending, or does nothing |
| MessageStore.MessagesStore.SettleRetry | clients/web/src/hooks/useMessageSend.ts:72-90 | a retry ends like a first send: reconciled on an acknowledgement, marked failed on an error, with the status in every case |
| MessageConvergence.MergeKeepsFreshest | clients/web/src/stores/messagesStore.ts:55-72 | for every id a merge keeps the last copy, except that a copy without a seq never replaces one with a seq |
| MessageConvergence.SequencelessNeverOverwrites | clients/web/src/stores/messagesStore.ts:58-61 | a sequenced message survives any batch that has no sequenced copy of it |
| MessageConvergence.RunIsUnion | clients/web/src/stores/messagesStore.ts:106-120 | after any appends and merges of server messages the list is the union of everything carried, strictly ascending in seq |
| MessageConvergence.OrderBlind | clients/web/src/stores/messagesStore.ts:31-120 | two runs that carry the same messages in any order, batching and repetition show the same (id, seq) list |
| MessageConvergence.MergeIdempotent | clients/web/src/stores/messagesStore.ts:63-72 | merging a batch twice equals merging it once |
| MessageConvergence.AppendStands | clients/web/src/stores/messagesStore.ts:106-112 | a new message with a seq above those shown stands directly behind them |
| MessageConvergence.OptimisticIsLast | clients/web/src/stores/messagesStore.ts:35-53 | an optimistic message takes the seq after the highest shown and stands directly behind all messages with a seq |
| MessageConvergence.LaterPushGoesBehind | clients/web/src/stores/messagesStore.ts:35-53 | a later push with a higher seq stands directly behind it, so the optimistic message does not move |
| MessageConvergence.RunWithout | clients/web/src/stores/messagesStore.ts:48-128 | at every moment of every run, the list without optimistic messages is the list of the run in which they were never shown |
| MessageConvergence.OnlyOutstanding | clients/web/src/hooks/useMessageSend.ts:32-49 | only sends not yet acknowledged have a temporary message in the list |
| MessageConvergence.OptimisticSendsLeaveNoTrace | clients/web/src/hooks/useMessageSend.ts:32-49 | once every send is acknowledged the list equals, message for message, that of the run without optimistic messages |
| Decimal.CursorRoundTrip | backend/services/community-service/repository.go:528-561 | parsing a formatted cursor gives the seq back |
| Decimal.FormatIsDecimal | backend/services/community-service/repository.go:561-561 | a cursor is written in decimal digits, with a minus sign for a negative number |
| Decimal.AcceptedExactly | backend/services/community-service/repository.go:528-531 | a cursor is accepted if and only if it is digits with at most one sign and a value of 64 bits |
| MessageLog.GetChannelMessages | backend/services/community-service/repository.go:517-565 | one page below the cursor, newest first, with the last returned seq as next cursor when a further row exists; a malformed cursor is an error |
| MessageLog.GetChannelMessagesSince | backend/services/community-service/repository.go:569-596 | the messages above a seq, ascending, at most `limit` or, for a limit of 0 or less, 200 of them, none left out unless there are that many and then only higher ones |
| MessageLog.GetMessages | backend/services/community-service/service.go:782-815 | a positive since_seq takes the catch-up path, anything else the history path |
| MessageLog.AboveMembers | backend/services/community-service/repository.go:573-580 | the catch-up query selects exactly the live messages above the seq |
| MessageLog.AboveTaken | backend/services/community-service/repository.go:573-580 | what is still above the last message of a full catch-up answer is what the answer left out |
| Paging.RunRises | backend/services/community-service/repository.go:517-565 | over a paging run the keys returned rise strictly across all pages |
| Paging.RunCovers | backend/services/community-service/repository.go:517-565 | a key live at every request and not past the next cursor has been returned |
| Paging.PagingIsExact | backend/services/community-service/repository.go:517-565 | any keyset run over a changing table returns every key that stays live exactly once, in order, in a bounded number of pages |
| Paging.HistoryPageServed | backend/services/community-service/repository.go:524-563 | a page of history meets the keyset promise, the peek row being neither lost nor repeated |
| Paging.HistoryIsPage | backend/services/community-service/repository.go:517-565 | a page has at most `limit` messages below the cursor, the highest ones, descending, and a next cursor, the last seq, if and only if it leaves some out |
| Paging.RequestIsAnswered | backend/services/community-service/service.go:782-815 | a request is an error if and only if it needs a cursor that is no number; else it is a catch-up or a page of as many messages as asked for, or 50 |
| Paging.OnlyFirstTable | backend/services/community-service/repository.go:517-565 | messages inserted after the first page are never returned by the run |
| Paging.HistoryPagingIsExact | backend/services/community-service/repository.go:517-565 | following nextCursor from "" returns every message live throughout exactly once in strictly descending seq, returns nothing that was never live, and ends |
| IdPaging.ListMembersByCommunity | backend/services/community-service/repository.go:324-362 | one page of rows past the id cursor, with the last returned id as next cursor when a further row exists |
| IdPaging.PageAfterIs | backend/services/community-service/repository.go:324-362 | a page has at most `limit` rows past the cursor, the lowest ones, ascending, and a next cursor, the last id, if and only if it leaves some out |
| IdPaging.PageAfterServed | backend/services/community-service/repository.go:324-362 | such a page meets the keyset promise |
| IdPaging.IdPagingIsExact | backend/services/community-service/repository.go:324-362 | following the id cursor lists everyone listed throughout exactly once, ids ascending, and ends |
| SyncStore.MaxFromIsMax | clients/web/src/hooks/useMessageSync.ts:51-51 | the batch maximum is the greatest of the cursor asked with and the seqs returned |
| SyncStore.SyncState.AdvanceDM | clients/web/src/stores/syncStore.ts:46-52 | a scope's cursor becomes the seq if that is higher, and what rises is persisted; the other scopes keep theirs |
| SyncStore.SyncState.AdvanceChannel | clients/web/src/stores/syncStore.ts:54-60 | a scope's cursor becomes the seq if that is higher, and what rises is persisted; the other scopes keep theirs |
| SyncStore.ApplyRound | clients/web/src/hooks/useMessageSync.ts:49-52 | an answered round merges its items into its scope's list and advances that scope's cursor once, to their maximum; the other scopes keep theirs |
| SyncStore.CursorsAreIndependent | clients/web/src/hooks/useMessageSync.ts:27-56 | over any rounds on any scopes a scope's cursor never falls and is the greatest seq that its own rounds brought, if above its start |
| Sync.ActionsAreTheHandlers | clients/web/src/hooks/useMessageSync.ts:47-52 | the protocol's answers and cursor moves are those of the request handler and of applying a round |
| Sync.MergeHolds | clients/web/src/stores/messagesStore.ts:63-72 | merging server messages keeps everything shown and adds exactly the batch |
| Sync.NewestCovers | backend/services/community-service/repository.go:517-565 | the newest page is complete from its lowest seq upwards |
| Sync.SinceCovers | backend/services/community-service/repository.go:569-596 | a catch-up answer holds every live message between the cursor and its own maximum |
| Sync.RoundStays | clients/web/src/hooks/useMessageSync.ts:47-52 | an answer in flight stays complete up to its maximum whatever is inserted or deleted meanwhile |
| Sync.LoadKeeps | clients/web/src/components/chat/MessageList.tsx:131-152 | a history load keeps coverage, with the floor at the lowest seq loaded |
| Sync.LoadShowsNewest | clients/web/src/components/chat/MessageList.tsx:131-152 | a history load shows exactly the newest 50 messages in order and moves the cursor up to the highest of them |
| Sync.LoadMoreKeeps | clients/web/src/components/chat/MessageList.tsx:224-235 | prepending what a repeated request for the newest page brings keeps coverage |
| Sync.LoadMoreAddsNothingOlder | clients/web/src/components/chat/MessageList.tsx:224-235 | scrolling back changes the list if and only if one of the newest 50 messages is missing from it, and never adds an older one |
| Sync.ApplyKeeps | clients/web/src/hooks/useMessageSync.ts:47-52 | applying an answer, however old and however many others are in flight, keeps coverage |
| Sync.CoverageStep | clients/web/src/hooks/useMessageSync.ts:22-57 | every step of server, network and client keeps coverage |
| Sync.CoverageInvariant | clients/web/src/hooks/useMessageSync.ts:9-57 | in every reachable state every live message between the floor and the cursor is in the list, under lost, repeated and reordered pushes and overlapping rounds |
| Sync.FloorRises | clients/web/src/hooks/useMessageSync.ts:28-56 | the floor moves only by a history load, a reload, or applying a round that was asked without a cursor, moves the cursor, and does not reach down to what was covered |
| Sync.RoundTripIsProtocol | clients/web/src/hooks/useMessageSync.ts:45-56 | a round trip is asking, serving and applying in a row |
| Sync.BoundedConvergence | clients/web/src/hooks/useMessageSync.ts:28-56 | with a positive cursor and k live messages above it, n rounds leave max(0, k - 200 n), so exactly ceil(k/200) rounds are needed |
| Sync.CaughtUp | clients/web/src/hooks/useMessageSync.ts:9-57 | after those rounds the list holds every live message above the floor and every one that was above the cursor |
| Sync.ZeroCursorGap | clients/web/src/hooks/useMessageSync.ts:47-52 | without a cursor, any number of rounds completes the list if and only if it already held all but the newest 200 |
| Sync.EmptyListGap | clients/web/src/hooks/useMessageSync.ts:47-52 | from an empty list that is: if and only if at most 200 messages are live |
| Sync.GapIsReached | clients/web/src/hooks/useMessageSync.ts:47-52 | a run: a new client loads an empty channel and misses k pushes; any number of rounds gives it all of them if and only if k is at most 200 |
| Lru.LruCache.Get | backend/pkg/groupcache/groupcache.go:245-252 | a hit returns the value and moves its entry to the front, a miss changes nothing |
| Lru.LruCache.Add | backend/pkg/groupcache/groupcache.go:256-274 | a known key is updated and moved to the front, a new one is put in front and the list cut to its capacity; map and list stay linked |
| Lru.LruCache.Remove | backend/pkg/groupcache/groupcache.go:277-282 | the key's entry is unlinked from list and map |
| Lru.Cache.Get | backend/pkg/groupcache/groupcache.go:99-156 | a hit or a successful fill returns the value now cached; a failed or absent filler is an error and caches nothing |
| Lru.Cache.constructor | backend/pkg/groupcache/groupcache.go:64-85 | a capacity of 0 or less, or none, is 10000 |
| Lru.Cache.Set | backend/pkg/groupcache/groupcache.go:159-163 | a value put is in front |
| Lru.Cache.Remove | backend/pkg/groupcache/groupcache.go:166-170 | a key removed is gone, the others keep their order |
| LruTheorems.TraceBounded | backend/pkg/groupcache/groupcache.go:225-282 | over every sequence of calls each key is held once and the capacity is never exceeded |
| LruTheorems.PairsAfter | backend/pkg/groupcache/groupcache.go:245-282 | a call changes the entry of its own key only |
| LruTheorems.LeavesOnlyAs | backend/pkg/groupcache/groupcache.go:256-282 | a key leaves if and only if it is removed, or is the last of a full cache that a new key enters |
| LruTheorems.TouchedIsFirst | backend/pkg/groupcache/groupcache.go:245-274 | what was just hit, filled or set is in front with the right value, so never evicted by its own call |
| LruTheorems.TraceByRecency | backend/pkg/groupcache/groupcache.go:225-282 | the list order is the order of last touch |
| LruTheorems.SmallTraceHoldsAll | backend/pkg/groupcache/groupcache.go:256-282 | before the capacity is used up the cache holds exactly the keys touched since they were last removed |
| LruTheorems.InclusionStep | backend/pkg/groupcache/groupcache.go:99-170 | one call keeps a smaller cache a prefix of a larger one if and only if its fill does not fail for a key only the larger one holds |
| LruTheorems.Inclusion | backend/pkg/groupcache/groupcache.go:99-170 | with a filler that never fails, the keys of the smaller cache are always a prefix of the larger's |
| LruTheorems.HitsAreIncluded | backend/pkg/groupcache/groupcache.go:99-170 | every hit in the smaller cache is a hit in the larger |
| Permissions.ComputePermissions | backend/services/community-service/permissions.go:24-37 | the early-exit loop yields every permission for the owner or an administrator and the union of the roles otherwise |
| Permissions.EffectiveHolds | backend/services/community-service/permissions.go:24-45 | a permission is granted if and only if the user owns the community or some role is administrator or has a required bit |
| Permissions.OrderIsIrrelevant | backend/services/community-service/permissions.go:29-36 | the order of the roles makes no difference |
| Authorization.CachedMembersSet | backend/services/community-service/cache.go:157-163 | the set marks exactly the listed users |
| Authorization.FetchKeepsRows | backend/services/community-service/cache.go:20-49 | a read, filled or not, leaves only rows equal to the database's in the cache |
| Authorization.FetchKeepsMembers | backend/services/community-service/cache.go:75-104 | a read leaves only member-id sets equal to the 1000-row query in the cache |
| Authorization.DropKeepsRows | backend/services/community-service/cache.go:63-66 | invalidating one community makes up for any change to its row |
| Authorization.DropKeepsMembers | backend/services/community-service/cache.go:107-110 | invalidating one member list makes up for any change to it |
| Authorization.SetKeepsRows | backend/services/community-service/cache.go:52-60 | setting a row just written keeps the cache equal to the database |
| Authorization.WhoMayUseAChannel | backend/services/community-service/service.go:577-610 | who may send or read: a member among the first thousand who is the owner or has a role with the bit or administrator; and which error the others get |
| Authorization.WhoMay | backend/services/community-service/service.go:126-475 | who may update, delete, join and leave, and which error the others get |
| Authorization.WhoMayKick | backend/services/community-service/service.go:478-530 | who may kick whom, and which error the others get |
| Authorization.RemovedIsGone | backend/services/community-service/repository.go:311-320 | removing a member takes exactly that membership and its roles away |
| Authorization.AddedIsJoined | backend/services/community-service/repository.go:271-289 | adding a member adds exactly that membership, and nothing for a known member |
| Authorization.DeletedRowIsDeleted | backend/services/community-service/repository.go:142-148 | deleting a community takes away exactly what belongs to it |
| Authorization.GoneIsRefused | backend/services/community-service/service.go:593-610 | someone who is out of a community is refused in all its channels, by the cached checks as by the tables |
| Authorization.CommunityService.CheckPermission | backend/services/community-service/service.go:854-877 | the verdict is the one the database gives; a failing database can only turn it into an error |
| Authorization.CommunityService.SendMessage | backend/services/community-service/service.go:577-610 | the checks accept only what the database would accept, and exactly that when no call fails |
| Authorization.CommunityService.GetMessages | backend/services/community-service/service.go:748-780 | the same for reading |
| Authorization.CommunityService.GetCommunity | backend/services/community-service/service.go:105-123 | the row returned is the database's |
| Authorization.AssignedOnly | backend/services/community-service/repository.go:381-390 | assigning a role gives it to one member of one community, once, and changes nothing else |
| Authorization.CommunityService.CreateCommunity | backend/services/community-service/service.go:47-102 | every table after each point of failure, the caches still equal to the database; only the founder gains the default role |
| Authorization.CommunityService.UpdateCommunity | backend/services/community-service/service.go:126-156 | only with the database's permission, changing name, description and icon and never the owner |
| Authorization.CommunityService.DeleteCommunity | backend/services/community-service/service.go:159-193 | only by the owner; nothing of the community is left in tables and caches, and nothing else has changed |
| Authorization.CommunityService.JoinCommunity | backend/services/community-service/service.go:385-436 | only into a public community; the caller is then a member, joining twice changes no membership, nobody else's membership or roles change, and the default role is assigned |
| Authorization.CommunityService.LeaveCommunity | backend/services/community-service/service.go:439-475 | never by the owner; the caller is then no member and has no roles there, and nothing else has changed |
| Authorization.CommunityService.KickMember | backend/services/community-service/service.go:478-530 | by the owner or with the database's kick permission, and never of the owner; the target is then no member and has no roles there, and nothing else has changed |
| Authorization.ListedIffRanked | backend/services/community-service/cache.go:78-87 | a user is in the cached set if and only if a member with fewer than 1000 members before them |
| Authorization.VerdictsAgree | backend/services/community-service/service.go:593-610 | the cached verdict is the true one unless an allowed member ranks 1000 or later |
| Authorization.LateMemberIsRefused | backend/services/community-service/service.go:598-606 | in a community of 1001 members the last one, though permitted, is refused |
| WsManager.Manager.Connect | sdk/sdk-js/src/ws-manager.ts:85-106 | connected: nothing; connecting: a retry is remembered; reconnecting: the timer is cancelled; else an attempt begins |
| WsManager.Manager.Disconnect | sdk/sdk-js/src/ws-manager.ts:109-120 | timers are cleared, the remembered socket is told to close, the status is disconnected |
| WsManager.Manager.OnTokenFailure | sdk/sdk-js/src/ws-manager.ts:158-175 | retried at once if a connect came meanwhile, else backed off; an authentication failure first disconnects |
| WsManager.Manager.OnOpen | sdk/sdk-js/src/ws-manager.ts:182-190 | the socket is remembered, counters are reset, the heartbeat runs |
| WsManager.Manager.OnClose | sdk/sdk-js/src/ws-manager.ts:198-218 | unless closed on purpose, the session goes on by a retry or a timer |
| WsManager.Manager.ArmReconnect | sdk/sdk-js/src/ws-manager.ts:247-259 | one timer more, unless closed on purpose |
| WsManager.StepKeeps | sdk/sdk-js/src/ws-manager.ts:85-259 | every guarded event keeps the one-driver invariant |
| WsManager.AlwaysOneDriver | sdk/sdk-js/src/ws-manager.ts:85-259 | in every reachable state exactly one of: idle, one attempt, one timer, one open socket with heartbeat |
| WsManager.NeverIdle | sdk/sdk-js/src/ws-manager.ts:85-259 | in every guarded run, after a connect with no later disconnect or authentication failure, the session is not idle |
| WsManager.ConnectActs | sdk/sdk-js/src/ws-manager.ts:85-106 | a connect starts an attempt at once unless one is in flight or the session is open; a pending backoff is cancelled and its count forgotten |
| WsManager.RememberedConnectRetries | sdk/sdk-js/src/ws-manager.ts:164-213 | a connect during an attempt is remembered, and if the attempt fails the next one starts at once |
| WsManager.FailureBacksOff | sdk/sdk-js/src/ws-manager.ts:164-218 | any other failure, and the loss of an open socket, arms one timer and counts it |
| WsManager.AttemptGoesOn | sdk/sdk-js/src/ws-manager.ts:109-190 | what a timer, a token, an opened socket and a disconnect each lead to |
| WsManager.AttemptCounts | sdk/sdk-js/src/ws-manager.ts:97-259 | over every guarded run the attempt count is the number of backoffs since a socket opened or the count was reset |
| WsManager.DisconnectNeedsNoAttempt | sdk/sdk-js/src/ws-manager.ts:109-120 | disconnecting leaves no driver behind if and only if no attempt was in flight |
| WsManager.ConnectNeedsClosed | sdk/sdk-js/src/ws-manager.ts:198-218 | connecting before the closed socket's close event always ends with an attempt and a timer at once |
| WsManager.ClosingIsReachable | sdk/sdk-js/src/ws-manager.ts:85-120 | a run that leads to such a state |
| WsManager.DelayBounds | sdk/sdk-js/src/ws-manager.ts:261-265 | every delay is at least 0.8 s and under 36 s, and at least 24 s from the sixth attempt on |
| WsManager.DelayDoubles | sdk/sdk-js/src/ws-manager.ts:261-265 | the middle of the delays starts at one second and doubles up to 30 seconds, and every delay is within a fifth of it |
| Subscriptions.ConnManager.Register | backend/services/ws-gateway/connmgr.go:33-43 | a new connection starts without channels and replaces the user's entry, others unchanged |
| Subscriptions.ConnManager.Unregister | backend/services/ws-gateway/connmgr.go:46-54 | the user's entry is removed, whichever connection it holds |
| Subscriptions.ConnManager.Handle | backend/services/ws-gateway/router.go:110-142 | a frame changes its user's set only; an empty channel id is refused and changes nothing |
| Subscriptions.FrameChangesOne | backend/services/ws-gateway/router.go:110-142 | a subscribe frame adds its channel and an unsubscribe frame removes it, for its user only |
| Subscriptions.Client.SubscribeChannel | sdk/sdk-js/src/client.ts:442-453 | the channel is tracked once and a frame is sent if the socket is open |
| Subscriptions.Client.UnsubscribeChannel | sdk/sdk-js/src/client.ts:456-465 | the channel is no longer tracked and a frame is sent if the socket is open |
| Subscriptions.TrackChangesOne | sdk/sdk-js/src/client.ts:442-465 | a subscribe tracks its channel, an unsubscribe untracks it, and the others stay |
| Subscriptions.Client.OnOpen | sdk/sdk-js/src/ws-manager.ts:293-302 | every tracked channel is sent again, in order |
| Subscriptions.OpeningSendsAll | sdk/sdk-js/src/ws-manager.ts:293-302 | one subscribe frame for each tracked channel |
| Subscriptions.StepKeeps | sdk/sdk-js/src/client.ts:442-465 | every event keeps agreement while the socket is open |
| Subscriptions.OpenMeansAgreement | sdk/sdk-js/src/ws-manager.ts:182-190 | whenever the socket is open, reading the frames in transit leaves the gateway with exactly the tracked channels that have a non-empty id |
| Subscriptions.OthersUntouched | backend/services/ws-gateway/connmgr.go:89-106 | no event of one client changes another user's entry |
| Subscriptions.EmptyIdIsNeverSubscribed | backend/services/ws-gateway/router.go:115-117 | gateway and client agree literally if and only if the empty id is not tracked |
| Subscriptions.LateCleanUp | backend/services/ws-gateway/server.go:167-168 | a clean-up after the next registration leaves agreement if and only if nothing is tracked, and only registering again repairs it |
| Subscriptions.LateCleanUpIsReachable | backend/services/ws-gateway/server.go:86-168 | a run that leads there |
| TokenRefresh.AuthServer.RefreshToken | backend/services/auth-service/service.go:153-194 | an unknown token is refused; a known one is deleted and replaced, or deleted and refused |
| TokenRefresh.AuthServer.GenerateTokenPair | backend/services/auth-service/service.go:198-224 | both tokens are generated and the refresh token is stored, or neither |
| TokenRefresh.RotationIs | backend/services/auth-service/service.go:153-224 | what a rotation answers and stores in each case, with lifetimes of 15 minutes and 7 days |
| TokenRefresh.AuthManager.GetValidToken | sdk/sdk-js/src/auth.ts:163-185 | the stored token if it is good, else the shared refresh |
| TokenRefresh.AuthManager.Refresh | sdk/sdk-js/src/auth.ts:242-274 | one request for all callers; half a stored pair leaves a rejected promise behind |
| TokenRefresh.AuthManager.OnRefreshAnswer | sdk/sdk-js/src/auth.ts:250-271 | success stores both tokens, any refusal removes both, and the promise is cleared |
| TokenRefresh.AuthManager.OnRefreshNetworkError | sdk/sdk-js/src/auth.ts:260-271 | a network error keeps the stored tokens |
| TokenRefresh.ClientKeeps | sdk/sdk-js/src/auth.ts:114-274 | a good token causes no request, a failed login leaves the stored tokens, a refresh answer replaces or removes both |
| TokenRefresh.StepKeeps | sdk/sdk-js/src/auth.ts:137-274 | every guarded event keeps client and server consistent |
| TokenRefresh.RefreshStaysConsistent | sdk/sdk-js/src/auth.ts:137-274 | over every run both tokens or neither are stored, a promise is set exactly while one request is in flight, none is ever kept rejected, and with none in flight the stored refresh token is good |
| TokenRefresh.StoredTokensWereIssued | sdk/sdk-js/src/auth.ts:137-274 | over every run the two stored tokens were issued together, by a login or by a refresh to the subject of the token presented |
| TokenRefresh.InvIffNeverStale | sdk/sdk-js/src/auth.ts:137-274 | the invariant is the weakest: it holds if and only if no guarded run ends with a stored token that the server rejects and nothing in flight |
| TokenRefresh.GuardIsExact | backend/services/auth-service/service.go:153-224 | an event respects the guard on repeated tokens and lost answers if and only if no guarded run after it ends that way |
| TokenRefresh.StuckNeedsHalfAPair | sdk/sdk-js/src/auth.ts:247-274 | a rejected promise is kept if and only if an access token is stored without a refresh token |
| TokenRefresh.RepeatedTokenIsStale | backend/pkg/jwt/jwt.go:18-36 | the four events by which a login answer that repeats the stored token, with nothing in flight, ends with a stored token that the server rejects |
| TokenRefresh.RepeatedTokenIsReachable | backend/pkg/jwt/jwt.go:18-36 | two logins within one second lead there |
| TokenRefresh.LostAnswer | backend/services/auth-service/service.go:180-194 | after a lost answer the stored token is good, and the session can be trusted, if and only if the deletion failed or the token was issued again |
| Unread.Store.MarkChannelRead | backend/services/notify-service/store.go:45-58 | the cursor becomes the greater of itself and the newest live seq |
| Unread.Store.AdvanceChannelRead | backend/services/notify-service/store.go:80-93 | the cursor becomes the greater of itself and the seq |
| Unread.Store.GetUnreadChannels | backend/services/notify-service/store.go:118-150 | the loop reports the rows with something above the cursor |
| Unread.ReportedExactly | backend/services/notify-service/store.go:118-150 | a channel is reported if and only if something live is above the cursor, with how much, cut to 32 bits |
| Unread.ReportKeepsOrder | backend/services/notify-service/store.go:118-150 | channels are reported as often as they are joined, in order |
| Unread.UpsertRaisesOne | backend/services/notify-service/store.go:45-93 | an upsert raises its own cursor, if the seq is higher, and no other |
| Unread.CountIsExact | backend/services/notify-service/store.go:145-145 | the 32-bit count is right if and only if it is below 2^31 |
| Unread.CountWraps | backend/services/notify-service/store.go:145-145 | beyond that it is the count modulo 2^32 |
| Unread.StepKeeps | backend/services/notify-service/subscriber.go:99-178 | inserts, deletions, mark-reads and deliveries keep cursor and read set in agreement |
| Unread.CursorRefinesReadSet | backend/services/notify-service/store.go:45-150 | over every run, what the cursor counts as unread is exactly what is missing from an explicit read set |
| Unread.LateMessage | backend/services/notify-service/store.go:125-127 | a message that becomes visible late is counted rightly if and only if it is above the cursor |
| Unread.RedeliveryChangesNothing | backend/services/notify-service/subscriber.go:99-178 | an event once processed stays so, and delivering it again changes nothing |
| Unread.DeliveriesMoveBack | backend/services/notify-service/store.go:80-106 | a run leaves the messages and cursors of the run in which all its deliveries come last |
| Unread.DeliveryOrderIsIrrelevant | backend/services/notify-service/store.go:45-106 | two runs with the same posts, deletions and mark-reads, and the same events delivered at whatever places, in whatever order and however often, leave the same messages and cursors |
| FanOut.PushToUsers | backend/services/notify-service/subscriber.go:280-319 | one push per gateway with online targets, listing exactly those, in order |
| FanOut.HandleMessageCreated | backend/services/notify-service/subscriber.go:148-174 | one push per online target other than the sender, each with the payload and listing every member but the sender, as often as listed |
| FanOut.EachCarries | backend/services/notify-service/subscriber.go:325-343 | every such push carries its payload and goes to the gateway of an online target |
| FanOut.OrderIsKept | backend/services/notify-service/subscriber.go:150-155 | grouping and leaving out the sender keep the order of the list |
| FanOut.HandleDMCreated | backend/services/notify-service/subscriber.go:114-127 | one push, to the receiver's gateway |
| FanOut.DeliverToLocal | backend/services/ws-gateway/push.go:80-102 | the event, if it can be built, is written to exactly the targets connected here, and counted |
| FanOut.FanOutIsAPartition | backend/services/notify-service/subscriber.go:280-319 | every online user gets one event for each time they are listed, nobody else any |
| FanOut.CopiesPerTarget | backend/services/notify-service/subscriber.go:158-174 | a target gets as many copies as its gateway has online targets: one if and only if alone there |
| FanOut.SenderGetsNone | backend/services/notify-service/subscriber.go:148-174 | the sender gets no event |
| FanOut.DMIsDeliveredOnce | backend/services/notify-service/subscriber.go:99-130 | an online receiver gets one event |
| Migrate.Runner.MigrateUp | backend/tools/migrate/main.go:78-134 | pending files in order, one transaction each, up to `steps` or all, stopping at the first failure |
| Migrate.Runner.MigrateDown | backend/tools/migrate/main.go:136-196 | applied versions in the order listed, one by default, stopping at the first failure |
| Migrate.UpKeepsPrefix | backend/tools/migrate/main.go:78-134 | from a prefix an up run ends at a longer prefix wherever it fails, and exactly `steps` further when it does not |
| Migrate.DownKeepsPrefix | backend/tools/migrate/main.go:136-196 | from a prefix a down run ends at a shorter prefix wherever it fails |
| Migrate.DownUndoes | backend/tools/migrate/main.go:136-196 | without a step count a down undoes exactly the last file applied, with one as many as asked or there are, with a negative one nothing |
| Migrate.AlwaysAPrefix | backend/tools/migrate/main.go:78-196 | after any commands the applied versions are a prefix of the files and the schema is the fold of that prefix |
| Migrate.UpThenDown | backend/tools/migrate/main.go:78-196 | up by k and down by k restore the database if and only if as many go down as went up |
| Migrate.UpThenDownFor | backend/tools/migrate/main.go:126-153 | for positive k that is: at least k were pending, or none was applied |
| Migrate.OrdersDiffer | backend/tools/migrate/main.go:83-142 | when version order and file order of two migrations agree |
| Migrate.SortedFilesInVersionOrder | backend/tools/migrate/main.go:83-142 | sorted files are in version order if and only if no version extends another by something that sorts before the file suffix |
| Migrate.DownLeavesAHole | backend/tools/migrate/main.go:78-196 | for any two files out of version order, up to the later one and one down, over whatever the query lists, leave no prefix |
| Migrate.PrefixIffVersionOrder | backend/tools/migrate/main.go:78-196 | every run keeps a prefix if and only if the files are in version order |
| Migrate.PrefixIffNoShortExtension | backend/tools/migrate/main.go:83-142 | for sorted files that is: if and only if no version extends another by something that sorts before the file suffix |
| Migrate.PrefixIsLost | backend/tools/migrate/main.go:83-142 | a directory in which up and one down leave no prefix |
| Tsquery.PrefixTsquery | backend/services/search-service/repository.go:80-101 | the nested loops render the sanitized non-empty fields in order |
| Tsquery.RenderedSnoc | backend/services/search-service/repository.go:93-98 | each token is followed by `:*`, and all but the first are preceded by ` & ` |
| Tsquery.FieldsAcrossSpace | backend/services/search-service/repository.go:83-83 | a space separates fields |
| Tsquery.FieldsOfOne | backend/services/search-service/repository.go:83-83 | text without spaces is one field |
| Tsquery.TokensKeepEveryWordCharacter | backend/services/search-service/repository.go:84-93 | the tokens are words that together are all word characters of the input, in order; the output is empty if and only if there are none |
| Tsquery.TokensOfRendered | backend/services/search-service/repository.go:80-101 | the output read back gives the tokens |
| Tsquery.RewriteIsIdempotent | backend/services/search-service/repository.go:80-101 | rewriting the output changes nothing |
| Tsquery.OutputDeterminesTokens | backend/services/search-service/repository.go:80-101 | two inputs have the same output if and only if they have the same tokens |
| Frames.HeaderRoundTrip | backend/services/ws-gateway/protocol.go:24-38 | four bytes, the most significant first, hold a length modulo 2^32 |
| Frames.EncodeFrame | sdk/sdk-js/src/codec.ts:95-107 | the buffer filled in place is the header followed by the payload |
| Frames.EncodeMessage | backend/services/ws-gateway/protocol.go:17-63 | a message is framed if and only if it marshals |
| Frames.PayloadRoundTrip | backend/services/ws-gateway/protocol.go:17-49 | a frame gives its payload back, whatever follows, if and only if the payload is under 2^32 bytes |
| Frames.UnframedIffFrame | backend/services/ws-gateway/protocol.go:66-84 | data yields a payload if and only if it begins with that payload's frame |
| Frames.StrictPrefixIsRefused | backend/services/ws-gateway/protocol.go:31-43 | no strict prefix of a frame is accepted |
| Frames.DecodersAgree | sdk/sdk-js/src/codec.ts:134-153 | the Go decoders and the TypeScript reader accept the same data and see the same message |
| Frames.RefusedHow | backend/services/ws-gateway/protocol.go:31-47 | which data the Go decoders refuse, and with which error |
| Frames.MessageRoundTrip | backend/services/ws-gateway/protocol.go:52-84 | a message framed on either side is recovered on the other, and no strict prefix of its frame is |
| Frames.StreamRoundTrip | sdk/sdk-js/src/codec.ts:134-153 | reading by bytesRead over concatenated frames gives exactly the messages, leaving exactly an unfinished frame |

## Left out

- The copies of the list actions, cursors, pagers, read cursors and unread queries for direct messages; they differ from the channel ones in table and key only.
- The HTTP gateway, which forwards the limit and since_seq of a history request but not its cursor; the paging theorems are about the service behind it.
- `GetDMConversations`, which pages by a timestamp taken from its peek row.
- A history load whose request and answer are apart: the load is one step, because it replaces the list and would drop what arrived in between.
- An append of a copy without a seq of a message already listed; it is given a local seq first, so the claim that such copies never overwrite is about merges.
- Message bodies in the sync theorems: pushes carry shortened bodies, so those theorems speak of ids and seqs.
- Deletions reaching other clients; a client that did not delete a message itself keeps its copy, and coverage speaks of live messages.
- Several connections of one user, several service instances, and a cache fill racing an invalidation.
- Consistent hashing of cache keys: the owner of a key makes no difference, both branches call the local filler. Single-flight only matters for concurrent callers.
- Authorization holds its two caches as the recency lists that `Lru` proves its objects to keep, so sharing of list elements between caches is not expressed there.
- The roles cache, which nothing reads, and the stored nickname of a cached member, which may be out of date; the invariant is about ids.
- White space trimmed off request fields, attachments, events published after a membership change, and the channel and message editing handlers, which check permission like the ones modelled.
- The gap between the token wrapper's disconnect and the manager's handling of the error, which no other event enters.
- The pending-request map of the client, presence events, heartbeats' content and time-outs.
- The lifetime of stored refresh tokens, which Redis enforces, and several clients sharing one storage.
- Lost publications: every push reaches its gateway and every write succeeds in the fan-out theorems, while `DeliverToLocal` itself allows failing writes.
- SQL, Redis, NATS, Protobuf and JWT internals: tables are maps and ordered lists, marshalling is an abstract inverse pair, a token is its claims.
- Unicode tables: the space and word classes are parameters that are assumed disjoint and to treat the characters the rewriter adds as it does.
- Permissions.Mask: a mask is the set of its one bits; the 64-bit width never matters because only `|` and a non-zero `&` are used.
