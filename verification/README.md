# A verified model of the Lark server's stateful cores

The Lark server relays messages between people and agents. This project models its five stateful cores in
Dafny and proves what they keep.

- `Connection.dfy`, `Hub.dfy`, `HubHandlers.dfy`, `HubRuns.dfy`, `HubNames.dfy`: one connection's bounded queue
  and subscription set; the hub's redundant indexes; the handlers that change both; and the runs of those
  operations, interleaved one by one: a join or a leave takes two steps, a removal over REST three.
- `Drafts.dfy`, `DraftSends.dfy`, `DraftHandlers.dfy`: held drafts against the room version. Every store call is
  one step, so handlers interleave between their store calls; the handlers as code are proved to take exactly
  those steps.
- `RateLimiter.dfy`: the token bucket, its background sweep, and the middleware in front of it.
- `MigrationSplitter.dfy`, `Migrations.dfy`, `FtsQuery.dfy`, `DmLookup.dfy`, `MessageStore.dfy`: the SQL splitter,
  crash-restartable migrations, the full-text query quoter, the exact-set channel lookup, and the messages table
  with everything its triggers derive from it.
- `Workflow.dfy`: the workflow executor, its steps, its conditions and its dotted paths.
- `Text.dfy`, `Collections.dfy`: the parts of Go's `strings` package in use, and shared vocabulary.

Code that changes state is written as classes and loops and proved against functions on values; the main
results are lemmas about those functions over all inputs, all runs or all interleavings. Clock readings, fresh
ids, store and network failures, the order in which SQLite fires triggers and the order in which Go walks a map
are parameters or left open, so the results hold for each of them.

Where a natural expectation is false of the code, the code is kept, an input that shows it is given, and the
exact condition under which the expectation holds is proved:

- A trigger survives splitting only if the first `END` after its first `BEGIN` ends it; a body that names
  `SENDER_ID` does not (`SingleTrigger`, `SenderTriggerCutShort`).
- The rate limiter's sweep is observable, and breaks the window bound, exactly for limits over 600
  (`EvictionUnobservable`, `WindowBoundExactly`).
- A message that is its own thread can be indexed twice (`InsertAgreesExactly`, `AgreesExactly`).
- The direct-message lookup is exact only for lists without repetition (`ExactIffDistinct`).
- A draft can make more than one message; it makes at most one exactly when its sends find no earlier send that has
  posted or can still post (`OneMessageExactly`), and a second send on its own posts again exactly when the status
  write of the first failed (`SecondSendExactly`).
- An expired draft can be sent until the next sweep, and exactly until then (`OverdueExactly`, `LateSendWithoutSweep`); with sweeps on time
  that is at most twelve minutes after creation (`LifetimeBound`).
- A failed room-version read counts as version 0 in the send handlers and lets a stale draft through
  (`StaleSendOnReadError`; the check passes exactly as `CheckExact` says); overlapping sends of one draft each post it (`OverlappingSendsDuplicate`).
- The hub removes by member id, so the disconnect of an old connection drops the entries of a newer one
  (`DisconnectIsById`); a REST removal that overlaps a join can leave the two sides of the subscription index apart
  (`RemovalDuringJoin`, `JoinDuringRemoval`; exact conditions in `BackedExactly` and `BothSidesExactly`).
- A workflow run that times out counts as completed in memory, and its final update is made with the expired
  context (`TimedOutRun`, `ExecuteWorkflow`).

Automatic induction is switched off on every lemma; inductions are written out. Run `dafny verify dfyconfig.toml`
to check the project.

## Model

| member | source | states |
|---|---|---|
| HubRuns.ListedIsSubscribed | internal/server/websocket/hub.go:117-200 | Over every run of single operations in which each connection logs in once: a connection listed under a channel is listed under its own member id, its own set holds at most 200 channels, no channel has an empty table; and if no join goes on to the hub after losing the channel, the own set holds that channel once nothing is half done |
| HubRuns.BackedExactly | internal/server/api/handlers_ws.go:235-239 | The exact condition: at every point of such a run every listed connection has the channel in its own set or its unlisting under way, if and only if no join goes on to the hub after a REST removal took the channel away |
| HubRuns.BothSidesExactly | internal/server/api/handlers_channel.go:176-179 | The exact condition for the other side: at every point every registered member with a single connection is listed under every channel of its own set (or about to be), if and only if no REST removal goes on to the hub after the channel came back |
| HubRuns.BothSidesAgree | internal/server/api/handlers_ws.go:205-258 | For a registered member that only ever had one connection, and a channel with nothing half done, "in my set" and "in the hub's table" are equivalent, under those two conditions |
| HubRuns.ApartIsSound | internal/server/api/handlers_channel.go:165-181 | Both conditions hold of every run in which no REST removal overlaps a join of the same channel by the same member |
| HubRuns.ReachedAreLive | internal/server/websocket/conn.go:174-182 | With one login per connection no listed and no registered connection has gone: a broadcast never reaches a connection whose read loop has ended |
| HubRuns.ReachedOnce | internal/server/websocket/hub.go:202-214 | With one login per connection every listed connection is listed once, so a broadcast reaches it exactly once |
| HubRuns.RemovalDuringJoin | internal/server/api/handlers_channel.go:165-181 | A REST removal between the two halves of a join leaves the member listed for good, with the channel not in its own set |
| HubRuns.JoinDuringRemoval | internal/server/api/handlers_channel.go:176-179 | A join between the two halves of a REST removal leaves the channel in the own set only |
| HubRuns.SecondLogin | internal/server/api/handlers_ws.go:160-165 | A second login under another id leaves the first id listed after the connection has gone |
| HubRuns.DisconnectIsById | internal/server/websocket/hub.go:117-137 | After a disconnect nothing is registered or listed under the member id, whichever connection held it, and nothing else is lost |
| HubRuns.LastLoginIsRegistered | internal/server/websocket/hub.go:93-137 | Over every run: somebody is registered under an id if and only if, since the last login under it, no connection of that id has ended and no shutdown came; and then it is the connection of that login |
| HubRuns.LoginRegisters | internal/server/api/handlers_ws.go:160-194 | A login puts the new connection in place of whatever was registered under the id, an agent under its name too, and changes no other entry |
| HubRuns.JoinCompletes | internal/server/api/handlers_ws.go:217-241 | A join that runs to its end puts the channel in the own set and the connection in the hub's table below 200 subscriptions, and changes nothing at 200 |
| HubRuns.LeaveCompletes | internal/server/api/handlers_ws.go:243-258 | A leave that runs to its end takes the channel out of the own set and the member out of the hub's table |
| HubRuns.RemovalCompletes | internal/server/api/handlers_channel.go:165-181 | A REST removal that runs to its end takes the channel from the registered connection's own set and the member out of the hub's table |
| Hubs.JoinedLists | internal/server/websocket/hub.go:178-188 | Subscribing replaces exactly one entry of the channel-member relation and creates no empty table |
| Hubs.LeftLists | internal/server/websocket/hub.go:190-200 | Unsubscribing takes away exactly one entry and leaves no empty table |
| Hubs.DroppedLists | internal/server/websocket/hub.go:127-133 | The deletion loop takes away every entry of the member id and every empty table, nothing else |
| Hubs.Hub.Add | internal/server/websocket/hub.go:93-114 | The new connection is registered under the id, an agent also among the agents and under its name, in place of whatever was there; no other entry changes; the connection previously registered is closed |
| Hubs.Hub.Remove | internal/server/websocket/hub.go:117-137 | The id leaves the connection tables and every channel table, an agent's name leaves the names, whichever connection they held; proved through the deletion loop |
| Hubs.Hub.SubscribeChannel | internal/server/websocket/hub.go:179-188 | New channel tables |
| Hubs.Hub.UnsubscribeChannel | internal/server/websocket/hub.go:191-200 | New channel tables |
| Hubs.Hub.BroadcastToChannel | internal/server/websocket/hub.go:203-214 | Every connection in the channel's table gets the message as often as it is listed, and nobody else gets anything |
| Hubs.SentExactly | internal/server/websocket/conn.go:128-144 | What being sent a message n times leaves: n attempts, and as many copies at the end of the queue as there is room for in 256, none after the close |
| Hubs.Hub.RegisterDaemon | internal/server/websocket/hub.go:260-278 | Every hosted name is routed to the daemon's connection in both name tables, proved through the loop |
| Hubs.Hub.UnregisterDaemon | internal/server/websocket/hub.go:281-298 | Every name of a known daemon leaves both name tables; an unknown daemon changes nothing |
| Hubs.Hub.WakeAgentByName | internal/server/websocket/hub.go:302-347 | The wake goes to the connection the name resolves to, daemons before direct connections, or to nobody |
| Hubs.Hub.Close | internal/server/websocket/hub.go:391-407 | The member tables are emptied, the daemon tables kept, and every registered connection is closed |
| HubNames.AgentsAreAgentConnections | internal/server/websocket/hub.go:93-137 | Over every run, with daemons and second logins, `agents` is `connections` restricted to agent ids |
| HubNames.NamesResolveExactly | internal/server/websocket/hub.go:93-137 | With stable distinct names and no daemons, a name resolves if and only if its agent is registered, and then to its connection; `agentNames` holds the names of `agents` and no others |
| HubNames.RoutedToLastClaimant | internal/server/websocket/hub.go:260-315 | With fresh daemon ids, a name is in `daemonAgents` if and only if no claimant was unregistered since the last claim; it then points to the connection of the last daemon to claim it, which is still registered with the name |
| HubNames.RouteIsLastClaim | internal/server/websocket/hub.go:267-275 | The route left by any history of claims and drops is the last claim not followed by a change that mentions the name |
| HubNames.StillStanding | internal/server/websocket/hub.go:281-296 | A daemon none of whose names was dropped since it registered is still registered |
| HubNames.UnregisterSilencesNames | internal/server/websocket/hub.go:290-294 | After any claimant unregisters, the name resolves to nobody, even when a direct agent was registered under it |
| HubNames.RoutesSurviveDisconnects | internal/server/websocket/hub.go:391-402 | Disconnects and shutdown leave every daemon route where it was |
| HubHandlers.SubscribeMemberChannels | internal/server/api/handlers_ws.go:205-215 | The subscription loop over the member's channels, own set and hub tables together; a failed lookup changes nothing |
| HubHandlers.LoginFills | internal/server/api/handlers_ws.go:205-215 | A new connection ends up in exactly the first 200 channels of a duplicate-free list, and the hub lists it under exactly those |
| HubHandlers.Login | internal/server/api/handlers_ws.go:138-203 | Identity, registration, subscriptions, reply, and the closing of the previous connection of the member; nothing changes on failure |
| HubHandlers.JoinChannel | internal/server/api/handlers_ws.go:217-241 | Joined if and only if authenticated, the request decodes, a member and below 200 subscriptions; own set, hub table and reply in each case |
| HubHandlers.LeaveChannel | internal/server/api/handlers_ws.go:243-258 | Own set, hub table and reply |
| HubHandlers.LeaveUndoesJoin | internal/server/api/handlers_ws.go:217-258 | A leave after a join restores the hub's tables exactly |
| HubHandlers.RemoveChannelMember | internal/server/api/handlers_channel.go:165-181 | The registered connection's set and the hub's table lose the channel, when the store agreed |
| Connection.DrainedIsPrefix | internal/server/websocket/conn.go:128-172 | Over every interleaving of sends, receives and closes: drained messages are a prefix of the accepted ones, the queue is the rest and never exceeds 256 |
| Connection.DroppedExactly | internal/server/websocket/conn.go:134-143 | A message is dropped if and only if a close came before it or 256 messages were waiting |
| Connection.NeverOutOfOrder | internal/server/websocket/hub.go:203-214 | Of two accepted messages sent one after the other, the earlier is drained at an earlier place |
| Connection.ClosedIsFinal | internal/server/websocket/conn.go:152-160 | Nothing enters after the close; what is still delivered is a prefix of what was queued |
| Connection.DrainsDeliver | internal/server/websocket/conn.go:218-224 | n receives hand out the n oldest messages in order, or all; enough of them deliver everything that was accepted, closed or not |
| Connection.BurstFits | internal/server/websocket/conn.go:43 | Up to 256 messages on an open connection are all accepted |
| Connection.Conn.Send | internal/server/websocket/conn.go:128-144 | The queue after a send; the Go channel is never sent to after it is closed (a precondition of the channel operation) |
| Connection.Conn.Receive | internal/server/websocket/conn.go:218-224 | The write pump takes the oldest message out of the queue, also after the close; nothing from an empty queue |
| Connection.Conn.Close | internal/server/websocket/conn.go:147-160 | Closing twice closes the Go channel once |
| Connection.Conn.Subscribe | internal/server/websocket/conn.go:103-111 | False at 200 subscriptions, even for a channel already in the set; otherwise the set gains the channel |
| Connection.Conn.Unsubscribe | internal/server/websocket/conn.go:114-118 | The set loses the channel |
| Drafts.RoomVersionIsCount | internal/server/store/sqlite.go:246 | Over every interleaving, room_version is the number of messages ever inserted into the channel, and never falls |
| Drafts.StalenessBound | internal/server/api/handlers_draft.go:80-106 | An unforced send that could read the version goes through only if at most 5 messages were inserted between the version read at creation and the one at send |
| Drafts.CheckExact | internal/server/api/handlers_draft.go:101-106 | The staleness check passes if and only if it is forced, or the version cannot be read, or at most 5 messages went by |
| Drafts.ValidationLifetime | internal/server/api/handlers_draft.go:59-84 | A valid answer with delta d survives exactly 5 - d more inserts; an invalid one stays invalid |
| Drafts.FireKeepsVersions | internal/server/api/handlers_ws.go:822-915 | Every single store step keeps the version bookkeeping of drafts, handlers in flight and posted messages |
| Drafts.DraftWrites | internal/server/store/sqlite.go:2763-2783 | What each write to a draft leaves: a cancel, a removal, a sweep; the other drafts and the versions stay |
| DraftSends.SendsBounded | internal/server/api/handlers_draft.go:86-122 | Over every interleaving, the messages made from a draft number at most the send handlers that read it as held |
| DraftSends.SendsBoundedByEarlyReaders | internal/server/api/handlers_ws.go:887-931 | Once the status has changed, that number is bounded by the handlers that had read the draft by then, for ever |
| DraftSends.SettledStays | internal/server/store/sqlite.go:2763-2783 | `held` is never re-entered, and no handler reads the draft as held any more |
| DraftSends.CancelSettles | internal/server/api/handlers_draft.go:124-131 | After a successful cancel no handler ever reads the draft as held again, and its messages number at most the handlers that had read it by then, over every continuation |
| DraftSends.OneMessageExactly | internal/server/api/handlers_draft.go:86-122 | The exact condition for one message: at every point of a run the draft has made or can still make at most one message, if and only if every send handler that reads it as held does so when no earlier send of it has posted or can still post |
| DraftSends.CommittedIsReached | internal/server/api/handlers_draft.go:101-117 | The count behind it is exact: while the channel exists, the handlers in flight can go on to make every message counted |
| DraftSends.AtMostOneMessage | internal/server/api/handlers_draft.go:86-122 | At most one message, when sends of the draft do not overlap and their status writes succeed |
| DraftSends.OverlappingSendsDuplicate | internal/server/api/handlers_draft.go:93-120 | The bound is reached: n overlapping sends make n messages |
| DraftSends.StaleSendOnReadError | internal/server/api/handlers_draft.go:101-103 | An unreadable room version lets an unforced send through after any number of messages, because the error is dropped |
| DraftSends.LifetimeBound | internal/server/server.go:170-186 | With sweeps on time, no send succeeds whose status read comes later than 12 minutes after creation |
| DraftSends.OverdueExactly | internal/server/store/sqlite.go:2779-2783 | The exact condition for late sends: a draft neither sent nor cancelled can still be read as held, at any later time, if and only if no sweep has run since it expired |
| DraftSends.LateSendWithoutSweep | internal/server/api/handlers_draft.go:97-100 | Without sweeps a draft can be sent at any later time: the send path never checks expiry |
| DraftHandlers.DraftServer.HandleCreateDraft | internal/server/api/handlers_draft.go:12-45 | Exactly when a draft is created, what is stored, and that the handler takes the two store steps of the interleaving model |
| DraftHandlers.DraftServer.HandleValidateDraft | internal/server/api/handlers_ws.go:846-885 | Exactly when there is an answer, and that it is the delta and the verdict |
| DraftHandlers.DraftServer.HandleSendDraft | internal/server/api/handlers_draft.go:86-122 | Exactly when the message is posted and what it leaves behind, the reply in every case, and that the handler takes exactly the store steps of the interleaving model up to the point where it returns |
| DraftHandlers.DraftServer.HandleCancelDraft | internal/server/api/handlers_draft.go:124-131 | A successful cancel makes the draft cancelled, whatever its status was, and touches no other draft and no version; a failed one changes nothing |
| DraftHandlers.DraftServer.ExpireDrafts | internal/server/store/sqlite.go:2779-2783 | Exactly the held drafts with a past expiry become expired |
| DraftHandlers.SecondSendExactly | internal/server/api/handlers_draft.go:97-120 | After a send that posted the draft, a later send posts it again if and only if the status write of the first failed and its own checks and writes go through (read, owner, insert, and force or a version delta of at most 5) |
| RateLimiting.RateLimiter.Allow | internal/server/api/ratelimit.go:61-80 | One token is gained for every whole second since the last call, up to the limit; the call passes if and only if there is a token then, and spends it; no other bucket changes |
| RateLimiting.RefillExactly | internal/server/api/ratelimit.go:69-74 | With k whole seconds since the last call, the tokens before charging are min(tokens + k, limit) |
| RateLimiting.RefusedExactly | internal/server/api/ratelimit.go:61-80 | With a positive limit a call is refused if and only if the address has no token left and called less than a second ago |
| RateLimiting.RefusedOnlyInHaste | internal/server/api/ratelimit.go:34-80 | Over every schedule with its sweeps: a call is refused only if the same address made another call less than a second before, so one call a second always passes |
| RateLimiting.RateLimiter.Cleanup | internal/server/api/ratelimit.go:34-52 | The sweep loop deletes exactly the entries idle for more than ten minutes |
| RateLimiting.RateLimiter.Middleware | internal/server/api/middleware.go:14-35 | One call, and a second one for a mutation when the first was allowed; passes if and only if all were |
| RateLimiting.EvictionUnobservable | internal/server/api/ratelimit.go:34-80 | The answers equal those of a limiter that never evicts, for every schedule and sweep placement, if and only if the limit is at most 600 |
| RateLimiting.SimulationRun | internal/server/api/ratelimit.go:34-80 | The simulation behind it: related limiters give the same answers over every run |
| RateLimiting.WitnessAnswer | internal/server/api/ratelimit.go:8 | For every limit over 600 a schedule whose last call is allowed only by the evicting limiter |
| RateLimiting.WindowBound | internal/server/api/ratelimit.go:61-80 | In any window from s to t at most limit + floor(t - s) calls of one address succeed, whatever came before, if the limit is at most 600 or no sweep falls in the window |
| RateLimiting.WindowBoundExactly | internal/server/api/ratelimit.go:8 | The window bound holds for every schedule, sweeps included, if and only if the limit is at most 600 |
| RateLimiting.CappedBudget | internal/server/api/ratelimit.go:69-78 | The bound from any bucket state, by the cap |
| RateLimiting.Budget | internal/server/api/ratelimit.go:69-78 | Tokens in hand plus whole seconds left bound what can still be let through (sum of floors) |
| RateLimiting.ServedRequestBound | internal/server/api/router.go:206 | With the middleware installed twice, 4 x served mutations + 2 x other served requests obey the window bound, however concurrent requests interleave |
| MigrationSplitter.SplitMigrationSQL | internal/server/store/sqlite.go:332-384 | The loop computes the split; `upper` stays the upper-case image of `sql` and the text strictly shrinks |
| MigrationSplitter.AppendPieces | internal/server/store/sqlite.go:342-358 | The inner loops append exactly the trimmed non-empty pieces between semicolons |
| MigrationSplitter.TriggerEnd | internal/server/store/sqlite.go:360-373 | Where the first END after the first BEGIN ends, or that there is none |
| MigrationSplitter.CutTrigger | internal/server/store/sqlite.go:373-381 | One trigger is cut out of both copies of the text |
| MigrationSplitter.BlockExactly | internal/server/store/sqlite.go:360-373 | A trigger block ends with the first END at or after the first BEGIN, and has no end if and only if there is no BEGIN or no END after it |
| MigrationSplitter.RoundTrip | internal/server/store/sqlite.go:332-384 | Splitting the ";\n"-join returns the list if and only if every statement is plain or a trigger closed by its first END, the last possibly a trigger never closed |
| MigrationSplitter.SplitJoin | internal/server/store/sqlite.go:332-384 | The round trip itself, for every such list |
| MigrationSplitter.OutputsSurvive | internal/server/store/sqlite.go:332-384 | Every output of the splitter is such a list |
| MigrationSplitter.SplitIdempotent | internal/server/store/sqlite.go:332-384 | Rejoining and splitting again changes nothing, on every script |
| MigrationSplitter.SingleTrigger | internal/server/store/sqlite.go:360-375 | One trigger comes back whole if and only if the first END after its BEGIN ends it, or there is none |
| MigrationSplitter.CutShort | internal/server/store/sqlite.go:368-375 | A trigger with an END before its end is cut there |
| MigrationSplitter.SenderTriggerCutShort | internal/server/store/sqlite.go:368-375 | A body that names SENDER_ID is such a trigger |
| MigrationSplitter.Conservation | internal/server/store/sqlite.go:332-384 | Everything but semicolons and white space appears once and in order in the output |
| MigrationSplitter.OutputShape | internal/server/store/sqlite.go:332-384 | Every piece is non-empty and trimmed, and one that holds a semicolon starts with CREATE TRIGGER |
| Migrations.Database.RunMigrations | internal/server/store/sqlite.go:302-323 | The nested loops, stopped after any number of database statements, execute exactly that prefix of the script |
| Migrations.CrashOnce | internal/server/store/sqlite.go:34-46 | A crash after any statement, then a full start-up, gives exactly what an undisturbed start-up gives, verdict included |
| Migrations.CrashRestartable | internal/server/store/sqlite.go:34-46 | The same for any number of crashes |
| Migrations.SecondStartupIdle | internal/server/store/sqlite.go:302-323 | After a successful start-up the next one executes no migration and changes nothing |
| Migrations.StartupExactly | internal/server/store/sqlite.go:34-46 | A start-up that succeeds has added exactly what the base schema and the statements of the pending migrations add, and recorded exactly the pending versions |
| Migrations.Replay | internal/server/store/sqlite.go:310-317 | Executing statements again on the database they left changes nothing and ends the same way |
| Migrations.RunWithinPrefix | internal/server/store/sqlite.go:302-323 | A run that dies is a prefix of the whole run |
| Migrations.StatementsTrimmed | internal/server/store/sqlite.go:306-309 | The trim and the empty check inside the loop never change anything |
| FtsQuery.SanitizeFTS5Query | internal/server/store/sqlite.go:1045-1055 | The in-place loop computes the quoted words joined by spaces |
| FtsQuery.QuotingRoundTrip | internal/server/store/sqlite.go:1045-1055 | Reading the result as quoted strings (section 3.1, FTS5 Strings, of the SQLite FTS5 documentation) gives back exactly the white-space fields of the query |
| FtsQuery.SameQuery | internal/server/store/sqlite.go:1045-1055 | Two queries give the same result if and only if they have the same fields |
| FtsQuery.EmptyIffBlank | internal/server/store/sqlite.go:1045-1061 | The result is empty if and only if the query is blank |
| FtsQuery.FieldsAreWords | internal/server/store/sqlite.go:1046 | Fields are non-empty and free of white space |
| FtsQuery.FieldsSkipSpace | internal/server/store/sqlite.go:1045-1055 | White space in front of a query makes no difference to its fields |
| FtsQuery.FieldsOfJoin | internal/server/store/sqlite.go:1046 | Words joined by single spaces are exactly their fields |
| DmLookup.GetDMChannel | internal/server/store/sqlite.go:1402-1456 | For two or more members what is found is what the query selects; for distinct ones a channel is found if and only if one of the asked workspace and of the right type has exactly those members, and then such a one; fewer than two find nothing |
| DmLookup.QueriesExact | internal/server/store/sqlite.go:1410-1448 | Both the self-join and the GROUP BY/HAVING query select exactly the channels whose member set is the given set |
| DmLookup.ExactIffDistinct | internal/server/store/sqlite.go:1402-1456 | The lookup is the exact-set lookup on every database if and only if no member is repeated |
| DmLookup.SelfLookup | internal/server/store/sqlite.go:1410-1425 | A pair that names one member twice finds any two-person channel of that member |
| DmLookup.RepeatedGroupFindsNothing | internal/server/store/sqlite.go:1426-1448 | A longer list with a repetition finds nothing on any database |
| MessageStore.StoreConsistent | internal/server/store/migrations.go:85-119 | After any sequence of inserts, edits and (cascading) deletes, in any firing order of the triggers: the index holds exactly the tokens of the live messages, every reply_count is the number of live replies, no thread dangles; provided every message that goes in is indexed once |
| MessageStore.FreshIdsConsistent | internal/server/store/migrations.go:85-119 | The same whenever no message names its own id as its thread, as with server-generated ids |
| MessageStore.AgreesExactly | internal/server/store/migrations.go:85-119 | The exact condition over runs: the index agrees with the table after every statement if and only if no message goes in that is its own thread, has tokens, and has its count bumped before it is indexed |
| MessageStore.InsertAgreesExactly | internal/server/store/migrations.go:85-119 | An insert keeps the index in step if and only if the message is not its own thread, or has no tokens, or is indexed before its count is bumped |
| MessageStore.RunKeepsInv | internal/server/store/migrations.go:85-119 | The same invariant from any state that has it |
| MessageStore.CountsAlwaysExact | internal/server/store/migrations.go:84-95 | Reply counts stay exact over every run, self-threaded messages included |
| MessageStore.RoomVersionCounts | internal/server/store/sqlite.go:246 | room_version counts the inserts that went through; edits, deletes and failed statements leave it alone |
| MessageStore.FiredOrders | internal/server/store/migrations.go:84-119 | Only the relative order of the reply-count and the index trigger can matter among the six firing orders |
| MessageStore.SearchEqualsScan | internal/server/store/sqlite.go:1057-1095 | In each of the three scopes the index query finds exactly what a full scan for the user's words finds |
| MessageStore.SearchAfterRun | internal/server/store/sqlite.go:1057-1095 | The same after any run from the empty store |
| MessageStore.BlankFindsNothing | internal/server/store/sqlite.go:1057-1061 | A blank query selects nothing, as the early return says |
| MessageStore.SearchExactly | internal/server/store/sqlite.go:1057-1095 | A message is found if and only if it is in the asked channel, else in a channel of the asked workspace, else anywhere, some word of the query has a token, and the tokens of every word stand side by side in the message |
| MessageStore.InsertExactly | internal/server/store/sqlite.go:868-889 | Exactly when an insert goes through, and the rows, reply counts and versions it leaves |
| MessageStore.EditExactly | internal/server/store/sqlite.go:978-983 | An edit that is taken changes the content of its message and nothing else in the tables |
| MessageStore.DeleteExactly | internal/server/store/sqlite.go:984-989 | A delete goes through if and only if no message that stays is in the thread of one that goes; then exactly the victims are gone and the others change in their reply counts only |
| MessageStore.Store.InsertMessage | internal/server/store/sqlite.go:868-889 | The insert with its three triggers, or the state unchanged when a key or a check refuses it |
| MessageStore.Store.EditMessage | internal/server/store/sqlite.go:978-983 | Exactly the content of the message changes, when there is one; the index follows by its trigger |
| MessageStore.Store.DeleteMessages | internal/server/store/sqlite.go:984-989 | Deletion row by row with its triggers: exactly the victims are gone, or nothing changes when a thread would dangle |
| MessageStore.Store.SearchMessages | internal/server/store/sqlite.go:1057-1095 | What is found, equal to the full scan whenever the index agrees |
| Workflow.RunExplained | internal/server/api/handlers_workflow.go:266-286 | Record k carries index k and the step's type, each step sees exactly the output of the step before, the records are a prefix of the steps, and execution ends right after the first failed step without continue_on_error, at the first expired check or at the first panic |
| Workflow.ExplanationUnique | internal/server/api/handlers_workflow.go:266-286 | That description determines the whole trace: records, outputs and why it ended |
| Workflow.RunComposes | internal/server/api/handlers_workflow.go:266-286 | Running xs + ys is running xs and, if nothing stopped it, ys from the last output of xs with shifted indexes |
| Workflow.WorkflowRun.ExecuteWorkflow | internal/server/api/handlers_workflow.go:239-305 | Status, error, result and the saved row in every case: failed if and only if some record failed (valid steps, no panic); the final update fails with the expired context, the panic path saves without it |
| Workflow.RunSteps | internal/server/api/handlers_workflow.go:263-286 | The loop computes the recursive run |
| Workflow.ExecuteTurn | internal/server/api/handlers_workflow.go:266-286 | One turn of the loop |
| Workflow.HasFailure | internal/server/api/handlers_workflow.go:291-297 | The scan finds a record whose status is "failed" if and only if there is one, the last included |
| Workflow.StatusExactly | internal/server/api/handlers_workflow.go:288-303 | A run is failed if and only if the status of some record is "failed"; the result is the records and the error text is kept otherwise |
| Workflow.StoppedIsFailed | internal/server/api/handlers_workflow.go:285-303 | A run that stopped at a failed step is failed, and that step's record is its last |
| Workflow.TimedOutRun | internal/server/api/handlers_workflow.go:270-304 | A timed-out run ends on a "timeout" record that counts as skipped, so it is completed if and only if nothing failed before; its context has run out |
| Workflow.ContinuesToTheEnd | internal/server/api/handlers_workflow.go:285-287 | With continue_on_error everywhere, no timeout and no panic, every step has its record |
| Workflow.ExecuteStep | internal/server/api/handlers_workflow.go:308-579 | What a step adds to its record, in place, and its output, kind by kind |
| Workflow.StepContract | internal/server/api/handlers_workflow.go:308-579 | A record keeps index, type and input; it is completed, failed or skipped; a failed step has no output; output is also in the record |
| Workflow.StepFailsExactly | internal/server/api/handlers_workflow.go:308-579 | For each kind of step, exactly when its record is failed |
| Workflow.StepOutputExactly | internal/server/api/handlers_workflow.go:308-579 | What a step that does not fail puts out for the next one, key by key, for each kind |
| Workflow.ConditionReadsPrevious | internal/server/api/handlers_workflow.go:538-560 | A condition on prev.key sees the value of that key in the previous output, or null |
| Workflow.ConditionalNeverFails | internal/server/api/handlers_workflow.go:538-561 | A well-formed condition never fails its step; a false one only marks its own record skipped |
| Workflow.NestedIsWalk | internal/server/api/handlers_workflow.go:598-614 | A dotted path looks up exactly what walking its parts reaches, for every path |
| Workflow.OperatorsExactly | internal/server/api/handlers_workflow.go:582-595 | Each operator in each spelling holds exactly when its name says, on printed values; any other never |
| Workflow.ConditionLaws | internal/server/api/handlers_workflow.go:582-595 | neq is the negation of eq in either spelling, eq implies contains, exists holds of a path if and only if the walk ends at a non-null value |

## Left out

- Transport: HTTP, WebSocket framing, JSON encoding, pings and read deadlines. Messages are opaque values; replies
  are named by their event or error text.
- Authentication, billing, file storage, process spawning, calls, reviews and plain record keeping in the services
  and handlers: they would only add easy members.
- Presence and typing broadcasts, `BroadcastToAll` and `BroadcastToAgents`: same shape as `BroadcastToChannel`.
- Connections that close without leaving the hub (the authentication timeout): the hub keeps them until the read
  loop ends, and nothing stated depends on the flag.
- HubHandlers.Login: the presence broadcast after the reply is not part of the contract, and the different failure
  replies count as one.
- HubHandlers.JoinChannel: the membership check in the store is a parameter, and it is not atomic with the join.
- Hubs.Hub.WakeAgentByName: the recent messages bundled into the wake and the metrics callback are left out.
- HubRuns.ListedIsSubscribed: a second login on the same connection is outside its hypotheses; `SecondLogin` shows what
  it can do.
- HubNames.RoutedToLastClaimant: daemon ids are taken as fresh, while the handler derives them from the member id
  and the millisecond; `UnregisterDaemon` is modelled although no handler calls it.
- Two connections replacing each other inside one `Add`: the registration and the closing of the previous connection
  are one step here; the closing only sets that connection's own flag.
- RateLimiting.RateLimiter.Allow: time is monotonic and counted in whole nanoseconds; the rounding of a duration to
  floating-point seconds is ignored. Addresses are taken as already stripped of their port.
- MigrationSplitter.SplitMigrationSQL: scripts are ASCII. Outside ASCII, upper-casing can change the byte length, and
  the two copies of the text no longer line up.
- Migrations.CrashRestartable: a statement is abstracted to the object it adds and the objects it needs, which fits
  CREATE ... IF NOT EXISTS, ALTER TABLE ADD COLUMN and INSERT OR IGNORE. The INSERT that rebuilds the full-text index
  at start-up is not modelled, and neither is a version table that cannot be read.
- FtsQuery.QuotingRoundTrip: phrases only; what the tokenizer makes of a phrase is the parameter of `MessageStore`.
- MessageStore.SearchEqualsScan: ranking, ORDER BY and LIMIT are left out; the tokenizer is any function.
- MessageStore.AgreesExactly: the FTS "delete" of a row that is not indexed yet, which only a message that is its own
  thread can cause, is taken as having no effect, while SQLite leaves its effect unspecified; so the half that says when
  the index does not agree is about that reading. The handlers always let the
  server generate the id, so no message is its own thread in practice (`FreshIdsConsistent`).
- MessageStore.InsertAgreesExactly: the same, for the half that says when the index does not agree.
- MessageStore.Store.EditMessage: metadata, edit counters and timestamps are left out.
- MessageStore.Store.SearchMessages: ordering and the limit are left out.
- MessageStore.StoreConsistent: attachments, reactions and edit history are other tables.
- The REST edit handler records the history entry after the request body has overwritten the message, so "history
  holds the previous versions" is not claimed.
- DmLookup.GetDMChannel: only the lookup. `createDMChannel` lists eight columns and seven values, so its INSERT
  always fails; the row read back by id after the lookup is left out.
- DraftHandlers.DraftServer.HandleCreateDraft: threads and contents are not stored; the decoding of the request and the
  authentication of a WebSocket caller are parameters.
- DraftHandlers.DraftServer.HandleValidateDraft: the recent messages that go with a stale answer are left out.
- DraftHandlers.DraftServer.HandleSendDraft: one handler by itself; interleavings are the subject of `Drafts` and
  `DraftSends`. The broadcast of the posted message, threads and contents are left out.
- DraftSends.LifetimeBound: a draft counts as created when its row is inserted, and clocks do not go back.
- The agent bridge's matching of draft acknowledgements: concurrent spawns share one slot, so nothing is claimed.
- Workflow.ExecuteStep: the services, the network and the decoding of a step's configuration are parameters; error
  texts of failed decoding, the delay itself and the finishing time are left out.
- Workflow.WorkflowRun.ExecuteWorkflow: the finishing time and the text of decoding errors and panics are left out.
- Workflow.ConditionLaws: the printing of values (`%v`) is any function.
