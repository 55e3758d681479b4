# Aegis node control: a verified model

A central host publishes the desired state of every VPN node as numbered, paginated snapshots
stamped with a digest. Each node's agent pulls the newest snapshot, checks it, applies it in a fixed
order of durable writes and outside calls, and acknowledges it. Acknowledgements may be lost,
delayed or repeated, and the agent may stop between any two writes. This project models that
protocol and what rides on it, and proves what it keeps over whole runs.

How the modules fit together:

- **Data**: `Wrappers`, `Seqs`, `Decimal`, `PyDict`, `Items` (what travels in a snapshot),
  `XrayConfig` (the part of Xray's JSON the agent reads or edits).
- **Cascade rewriting**: `Cascade` (the transformation as functions, undo and history
  independence), `FailClosed` (first-match routing over the result), `CascadeFields` (what the result
  says field by field, and which lists are refused), `CascadeRewriter` (the same edit in place, on a
  class).
- **One node**: `Reconcile` (what one reconciliation decides), `LiveDelta` (API calls against a
  reload), `Hysteria` (who may sign in), `NodeMachine` (each write and call is one step; crashes,
  Hysteria2 users and Xray restarts come in between), `NodeSafety` (revocation and live-user
  guarantees over every run), `Convergence` (one-step convergence, idempotence, offline replay),
  `Agent` (the agent's methods, whose objects log themselves as steps of that machine), `Escape` (a run
  that loses a session), `Records` and `Effects` (what a node holds at success, field by field).
- **The centre**: `Desired` (what the database makes of a node, whatever the row order), `Publication` (and
  that a database which keeps its keys yields something fit to publish), `Centre` and `StoreShape` (the store and what publish, acknowledge and prune keep), `NodeStore` (the
  handlers on a class).
- **The whole protocol**: `Transport` (failover and the download checks), `Protocol` (centre, network
  and node as one machine), `CascadeService`, `Fleet` and `RouteFields` (which routes are advertised,
  what stands behind one, column by column), `EndToEnd` (from the tables to what a node lets in).
- **Beside it**: `Traffic` and `TrafficSafety` (byte accounting), `Telemetry` (sequence numbers),
  `ConnLimit`, `LoadProbe`, `PushApi`.

SHA-256 of canonical JSON is taken to be injective (`Items.Digest` carries what was hashed), replacing
a file atomically is one step, a database transaction is one step, and JSON documents are records.

Where a promise turned out not to hold of the code as it is, the model keeps the code and states
exactly when it does hold:

- `NodeSafety.JournalWriteExact`: rewriting the journal keeps every authorised or pending email on
  record exactly when the snapshot does not re-authorise an email that is pending and off the disk.
- `NodeSafety.SessionsGuardedExactly`: hence no live session is ever off the record exactly when no
  journal write meets a live session of such an email; `Escape.SessionLost` is a run that does.
- `FailClosed.FailsClosedExactly`: routing fails closed for every route exactly when no two routes
  share an id, which the rewrite does not check.
- `Cascade.UndoExact`: applying routes and then none restores the config exactly when it has its
  sections, nothing managed, no balancers and no observatory.
- `Telemetry.ReservedExactly`: the control loop takes a block of numbers in memory before writing it,
  and goes on after a failed write; numbers stay below the durable reservation, and restarts above
  all earlier ones, exactly when nothing is sent on a reservation that never reached the disk.
  `Telemetry.FailedWriteReuses` is a run in which a restarted agent's first report is turned away.
- `ConnLimit.SkipRefinesRebuild` and `ConnLimit.FailedClearStays`: a failed call that should have
  cleared the block rule is not repeated, so the addresses stay blocked.
- `LoadProbe.NetNegative`: the smoothed network load has no lower clamp, unlike the CPU; it stays in
  [0, 1] while the interface counters grow. The load acted upon stays in [0, 1] always.
- `PushApi.RemoveCloses`: a removed client's live session ends exactly when the kick is answered; the
  handler ignores a failed one, and `PushApi.RemoveAgainKeeps` says that removing again does not help.
- `PushApi.RemoveUndoesAdd`: removing what was just added restores the client lists exactly when the
  UUID was on no VLESS inbound before.

## Model

| member | source | states |
|---|---|---|
| Cascade.HistoryIndependent | agent/app/cascade.py:78-136 | for every config, applying valid routes R1 and then a non-empty valid R2 equals applying R2 alone |
| Cascade.UndoExact | agent/app/cascade.py:52-75 | applying routes and then the empty list gives the base back if and only if the base is clean |
| Cascade.ReapplyIsStable | agent/app/cascade.py:78-136 | a second application of the same routes changes nothing |
| Cascade.AppliedSections | agent/app/cascade.py:78-136 | the sections of the result: unmanaged outbounds then the routes' own, the routes' rules then unmanaged ones, in order |
| CascadeFields.OutboundsExact | agent/app/cascade.py:14-49 | field by field: each exit of each route gets an outbound with its host, port, account, keys, camouflage name and path; every managed outbound is one of these; the others are the config's own |
| CascadeFields.RoutingExact | agent/app/cascade.py:96-136 | one rule for each route, by ascending id and before the others, hands exactly its inbounds to its balancer; that balancer picks among its exits by least ping; the observatory probes every exit, with the first route's settings or the defaults |
| CascadeFields.ValidExactly | agent/app/cascade.py:96-107 | a list is accepted if and only if no two routes claim one inbound, each strategy is the supported one or none, and every path starts with a slash |
| CascadeFields.RefusedFor | agent/app/cascade.py:96-107 | which fault of which route a refused list is refused for |
| Cascade.StripApplied | agent/app/cascade.py:52-75 | stripping an applied config leaves the stripped base |
| FailClosed.FailsClosed | agent/app/cascade.py:92-136 | for routes with ids of their own: on a claimed inbound the first matching rule is the route's own, and its balancer's selectors pick exactly outbounds that lead to the route's exits |
| FailClosed.FailsClosedExactly | agent/app/cascade.py:92-136 | that holds of all accepted routes and all connections if and only if no two routes share an id, which the rewrite does not check |
| FailClosed.UnclaimedUntouched | agent/app/cascade.py:92-136 | connections on unclaimed inbounds meet the same rule as without the cascade |
| FailClosed.ExitTagPrefix | agent/app/cascade.py:14-17 | an exit tag is a prefix of another only within one route, for all ids and positions |
| FailClosed.PickFromApplied | agent/app/cascade.py:92-136 | a route's selectors pick exactly its outbounds from all outbounds |
| CascadeRewriter.ConfigDict.StripManaged | agent/app/cascade.py:52-75 | the in-place edit equals the stripping function |
| CascadeRewriter.ConfigDict.AddRoutes | agent/app/cascade.py:92-120 | the loop appends every route before the first bad one, and reports that one |
| CascadeRewriter.ConfigDict.ApplyCascadeRoutes | agent/app/cascade.py:78-136 | the in-place rewrite equals the transformation, errors included, and reports whether anything changed |
| Reconcile.RemovalsCover | agent/app/reconcile.py:197-221 | whoever is configured and not desired is among the removed emails |
| Reconcile.NewEmails | agent/app/reconcile.py:197-226 | the new config authorises exactly the desired emails |
| Reconcile.NewDiskWellFormed | agent/app/reconcile.py:197-226 | a plan keeps the config well-formed |
| Agent.DesiredParts | agent/app/reconcile.py:154-176 | the loop yields unexpired clients and services in order, the overrides and the routes |
| Agent.DiffInbound | agent/app/reconcile.py:197-226 | one inbound's removals, additions and new client list |
| Agent.DiffConfig | agent/app/reconcile.py:197-226 | the same over all inbounds, with the emails removed and whether a list changed |
| Agent.ComputePlan | agent/app/reconcile.py:179-255 | the loops and comparisons compute the plan function, or the cascade error |
| LiveDelta.DeltaRefinesReload | agent/app/reconcile.py:261-270 | if all calls succeed, live removals then additions leave what a restart on the saved config would load |
| LiveDelta.RestartAbsorbed | agent/app/reconcile.py:261-270 | a restart half-way through the calls does not spoil that |
| Hysteria.RefreshFromConfig | agent/app/hysteria.py:31-41 | the nested loops build the uuid-to-email map of the VLESS clients |
| Hysteria.AuthWithinEmails | agent/app/hysteria.py:31-55 | everyone Hysteria2 lets in is configured on a VLESS inbound |
| Hysteria.NewAuthExact | agent/app/hysteria.py:31-41 | after a reconciliation the auth map is exactly the desired clients' map |
| Hysteria.AuthExact | agent/app/hysteria.py:31-41 | a UUID is let in if and only if a VLESS record has it with an email, and under such a record's email |
| NodeSafety.InvStep | agent/app/reconcile.py:179-292 | every step of the node machine keeps its invariant |
| NodeSafety.TrackedStep | agent/app/reconcile.py:123-141 | every step keeps: losing emails are on disk, in the journal, or kicked after leaving the auth map |
| NodeSafety.JournalWriteExact | agent/app/reconcile.py:191-255 | the journal write loses no authorised or pending email if and only if the snapshot re-authorises no pending one off the disk |
| NodeSafety.RetryAlwaysClears | agent/app/reconcile.py:123-141 | once the kick succeeded the retry inside a reconciliation empties the journal |
| NodeSafety.JournalWriteSpares | agent/app/reconcile.py:252-255 | from a guarded state every live session is still guarded after the journal write if and only if none belongs to an email re-authorised while pending and off the disk |
| NodeSafety.SessionsGuardedExactly | agent/app/reconcile.py:191-277 | over every run each live Hysteria2 session's email is on disk or in the journal at every moment if and only if every journal write spares the sessions in this sense |
| NodeSafety.NoSessionEscapes | agent/app/reconcile.py:191-277 | so it is in every run in which no snapshot re-authorises a pending email |
| Escape.SessionLost | agent/app/reconcile.py:252-258 | a run that loses a session: its kick fails, a snapshot re-authorises the email, the agent stops after the journal write; the session is then on no record, and revoking the email again succeeds without closing it |
| NodeSafety.LiveStep | agent/app/reconcile.py:261-274 | every step keeps the remaining calls leading to the users of the saved config |
| NodeSafety.LiveUsersMatchDisk | agent/app/reconcile.py:202-274 | a reconciliation that began with Xray in step, or whose reload replaced the process, ends with Xray in step, users and routing, whatever calls failed, on either side of the delta limit |
| NodeSafety.CallsOnlyWithinLimit | agent/app/reconcile.py:261-263 | over every run the live API is used only without a cascade change and for a delta within the limit |
| NodeSafety.RunInv | agent/app/main.py:55-57 | all three invariants hold over every run from startup, crashes included |
| NodeSafety.SuccessMeansExact | agent/app/reconcile.py:154-292 | at success: client lists, cascade section, overrides, auth map, empty journal and applied state are exactly the snapshot's |
| Effects.ClientsOnDisk | agent/app/reconcile.py:197-226 | at success every VLESS inbound holds the snapshot's authorised items, in its order, each with its id and email and with the vision flow unless that inbound is grpc or xhttp; nothing else about any inbound changes |
| Effects.AccessOnNode | agent/app/reconcile.py:279-281 | at success a UUID signs in under an email exactly if an authorised item says so, and a user's limit is the last limit item's, on disk and in memory |
| Effects.RoutesOnDisk | agent/app/reconcile.py:196-196 | at success each exit of each route of the snapshot has an outbound that leads there, and no managed outbound leads elsewhere |
| Effects.XrayAccepts | agent/app/reconcile.py:261-274 | whoever Xray then accepts is an authorised item's email, with its UUID and the inbound's flow |
| Effects.XrayServes | agent/app/reconcile.py:261-274 | and it accepts every authorised item under every VLESS inbound's tag |
| Effects.AckedFields | agent/app/control_loop.py:208-219 | the clients on disk, field by field, when a success acknowledgement leaves |
| Effects.DesiredInOrder | agent/app/reconcile.py:154-176 | the desired clients are the unexpired clients and the services, in the snapshot's order |
| Convergence.ConvergesInOneStep | agent/app/reconcile.py:179-292 | from any two starting states with the same unmanaged config, one snapshot at one time gives the same config, overrides, empty journal, and applied generation, digest and items |
| Convergence.SecondRunIdle | agent/app/reconcile.py:228-251 | a second run of the same snapshot at the same time reports no change |
| Protocol.PendingStalls | agent/app/control_loop.py:157-165 | over every run, while a revocation is pending and no new snapshot was received, config, overrides and applied state stay as they are and the journal only shrinks |
| Convergence.CachedRunExact | agent/app/control_loop.py:157-176 | one cached run leaves exactly the cached clients still unexpired and the services |
| Convergence.OfflineOnlyShrinks | agent/app/control_loop.py:157-176 | over any number of cached runs with a clock that does not go back the authorised set only shrinks |
| Convergence.MachineReplay | agent/app/control_loop.py:157-176 | a completed cached reconciliation of the machine is one such run |
| Agent.NodeAgent.ReconcileSnapshot | agent/app/reconcile.py:179-292 | every write and call is a step of the machine; a finished run leaves the plan's outcome, observe mode leaves everything |
| Agent.NodeAgent.SaveConfigAndRefresh | agent/app/reconcile.py:252-259 | journal, then config, then auth map, any write of which may fail |
| Agent.NodeAgent.UpdateLiveUsers | agent/app/reconcile.py:261-274 | API calls for a small delta, one reload otherwise or after a failed call |
| Agent.NodeAgent.RetryPending | agent/app/reconcile.py:123-141 | auth map, kick, journal, in this order |
| Agent.NodeAgent.Commit | agent/app/reconcile.py:279-291 | overrides before the applied state |
| Agent.NodeAgent.ReconcileCachedState | agent/app/control_loop.py:157-176 | nothing with a pending revocation or nothing applied, else one cached run |
| Agent.NodeAgent.Startup | agent/app/main.py:55-57 | auth map from disk, then the journal against the config on disk; only unconfigured emails leave it |
| Agent.LogIsRun | agent/app/reconcile.py:179-292 | what an agent object has done is a run of the node machine |
| Agent.AgentIsSafe | agent/app/reconcile.py:179-292 | so the live users of the object match its config after a reconciliation, and its sessions are guarded exactly if every journal write spared them |
| Desired.BuildDesiredItems | bot/src/control/state.py:50-131 | the query's selection, the loops over subscriptions, devices and limits, the cascade items and the sort; an unknown server is an error, an inactive one gets nothing |
| EndToEnd.SentFor | bot/src/control/state.py:62-107 | every client sent speaks for one linked, active, unexpired subscription or for one of its usable devices: UUID, email, and expiry in milliseconds |
| EndToEnd.IsSent | bot/src/control/state.py:62-107 | and each of these is sent |
| EndToEnd.AuthorisedUntil | bot/src/control/state.py:32-35 | a node authorises a client only before its subscription expires, and until the last whole millisecond before |
| EndToEnd.LimitsSent | bot/src/control/state.py:108-123 | the limits sent are exactly those of the users with a subscription here, a negative one as zero |
| EndToEnd.LimitsArrive | agent/app/reconcile.py:175-175 | and a node that applied what was built enforces exactly these |
| Publication.OrderExact | bot/src/control/state.py:38-47 | routes, services, clients, limits; by ascending number, clients by email |
| Desired.RowOrderIrrelevant | bot/src/control/state.py:38-47 | any row order gives the same items when no two share a sort key |
| Publication.DesiredApart | bot/src/control/state.py:38-47 | if the tables keep their keys, no two items share a UUID, an email or a sort key, and none is blank |
| Publication.DesiredIsPublishable | bot/src/control/state.py:50-131 | so what is built has everything the protocol asks of a publication |
| EndToEnd.BuiltIsAccepted | agent/app/control_client.py:234-300 | and, served as stored, it is accepted and comes back whole if and only if it fits the agent's limits |
| Publication.RepublishIsIdle | bot/src/control/state.py:178-209 | publishing an unchanged database again makes no new generation, whatever the row order |
| Desired.SortSorts | bot/src/control/state.py:130-131 | the sort permutes and orders by kind, identity and UUID |
| Desired.ClientsAreCounted | bot/src/control/state.py:94-120 | every client sent is one subscription's, and the traffic parser credits it there |
| Desired.DesiredIsBuilt | bot/src/control/state.py:74-131 | the cascade part of the items is what the cascade service builds, for any server, inactive ones included |
| Centre.ChunksRoundTrip | bot/src/control/state.py:214-224 | pages reassemble to the list, none is empty or too long, and their number is the agent's formula |
| StoreShape.PublishKeeps | bot/src/control/state.py:178-239 | publishing keeps the store's shape, adds at most the next generation and rewrites nothing |
| StoreShape.AcknowledgeKeeps | bot/src/control/router.py:193-239 | acknowledging keeps the shape, only moves the applied generation forward, only to a stored snapshot with that digest, and alters nothing kept |
| StoreShape.AcknowledgeAnswers | bot/src/control/router.py:198-239 | exactly which acknowledgement gets which answer, and what each does to the error noted |
| StoreShape.PruneKeeps | bot/src/control/state.py:148-175 | pruning leaves exactly the generations from max(1, applied - 2), each with all of its pages |
| StoreShape.AckRowsExact | bot/src/services/cascade_service.py:164-202 | whatever order the pages are read in, the rows are exactly the (route, revision, digest) triples of the snapshot |
| StoreShape.StoredPagesCarry | bot/src/services/cascade_service.py:170-194 | a snapshot's stored pages carry exactly what it was published with |
| StoreShape.LatestIsDesired | bot/src/control/state.py:134-145 | the latest snapshot is the desired generation's |
| NodeStore.Paginate | bot/src/control/state.py:214-214 | the slices are the pages of the specification |
| NodeStore.NodeStore.Publish | bot/src/control/state.py:178-239 | the handler equals the publish function, returns the latest manifest, and refuses a page size below one untouched |
| NodeStore.NodeStore.Prune | bot/src/control/state.py:148-175 | the deletion equals the prune function |
| NodeStore.NodeStore.RecordCascadeAck | bot/src/services/cascade_service.py:164-202 | the nested loops replace the rows by what the pages carry |
| NodeStore.NodeStore.Acknowledge | bot/src/control/router.py:193-239 | the handler equals the acknowledge function for some order of the pages, and keeps the invariant |
| NodeStore.NodeStore.Poll | bot/src/control/router.py:119-155 | one poll publishes if nothing is stored or the capabilities changed, and answers from the latest snapshot |
| NodeStore.NodeStore.SyncNode | bot/src/control/router.py:111-159 | the long poll, with publications and acknowledgements of others in between, ends with the answer that is right for the rows as they then are |
| Transport.OrderedUrlsSame | agent/app/control_client.py:164-170 | the preferred endpoint once and first, then the others in their order |
| Transport.FailoverExact | agent/app/control_client.py:172-203 | the first endpoint that does not fail decides and is preferred from then on, an oversized answer ends the request, and a request fails for want of an endpoint if and only if every endpoint is out of reach or answers 500 or more |
| Transport.FirstAnswer | agent/app/control_client.py:181-203 | the first answer that is not passed over, and nothing before it |
| Transport.ControlClient.RequestWithFailover | agent/app/control_client.py:172-203 | the loop returns the first usable answer and remembers who gave it; an oversized one ends it |
| Transport.ControlClient.NoteUuids | agent/app/control_client.py:279-283 | a page passes if and only if no client or service UUID repeats so far |
| Transport.ControlClient.DownloadPage | agent/app/control_client.py:252-287 | one page: identity, digest, duplicates and total size |
| Transport.ControlClient.Sync | agent/app/control_client.py:217-302 | the download loop equals the specification, result and error |
| Transport.AcceptedIsGenuine | agent/app/control_client.py:248-302 | whatever pages arrive, an accepted snapshot is the list the manifest's digest stands for, with its count, within the byte limit, valid and without a repeated UUID |
| Transport.AcceptedHasManifest | agent/app/control_client.py:233-247 | an accepted snapshot has the generation, schema and digest of a manifest that passed |
| Transport.AcceptedExactly | agent/app/control_client.py:233-300 | a download yields a snapshot if and only if a proper manifest came and, each in its place, all the proper pages it announces: schema, generation, index, digests, counts, bytes, no repeated UUID, no faulty item |
| Transport.NothingNewExactly | agent/app/control_client.py:229-230 | and nothing new if and only if the answer is a 204 |
| Transport.FaultyExactly | agent/app/control_models.py:19-47 | an item is refused if and only if it is a cascade item without a proper id or revision, or a route without inbound or exit or with an exit on no real port |
| Transport.RoundTrip | agent/app/control_client.py:234-300 | what the centre stores is accepted and comes back whole if and only if its UUIDs are distinct, none of its items is faulty and its size is within the limits |
| Protocol.SystemStep | bot/src/control/router.py:111-239 | every event of centre, network and node keeps the system invariant and moves nothing back |
| Protocol.AppliedIsDurable | bot/src/control/router.py:205-238 | over every run the centre's applied generation was held durably by the node, is at most what it holds and at most the desired one, and its digest is that of a stored snapshot |
| Protocol.NothingGoesBack | agent/app/control_loop.py:205-221 | over every run no counter of centre or node goes back and no published generation is rewritten |
| Protocol.StoreShapeHolds | bot/src/control/state.py:148-239 | over every run the store has its shape |
| Protocol.NotModifiedExactly | bot/src/control/router.py:147-159 | a node gets a 204 if and only if it has applied the latest generation, and then its items are the latest; any other node is told to fetch the latest snapshot |
| Protocol.DownloadStaysStored | bot/src/control/router.py:162-188 | no page of a download in progress is pruned |
| Protocol.DownloadCompletes | agent/app/control_client.py:248-302 | so the store's answers, however late, yield the published snapshot if and only if it is valid and fits |
| Protocol.ReceiveGenuine | agent/app/control_client.py:289-302 | what the agent receives is what was published under that generation |
| Protocol.AckMeansExact | agent/app/control_loop.py:208-219 | when a success acknowledgement leaves, the node is exactly as the snapshot says and holds it durably |
| Protocol.AckRowsAreApplied | bot/src/control/router.py:221-234 | over every run a node's rows are triples of the snapshot it durably applied |
| CascadeService.BuildCascadeItems | bot/src/services/cascade_service.py:87-161 | the loop builds the node's route and service items, in route order |
| CascadeService.RouteExitsExact | bot/src/services/cascade_service.py:30-45 | the exits are exactly the enabled ones whose server exists |
| RouteFields.RouteSentExactly | bot/src/services/cascade_service.py:104-148 | column by column: a route goes to its entry exactly if it can work, and its exits are its enabled exit rows by position, with each row's account and camouflage and its server's address and keys |
| RouteFields.ServiceSentExactly | bot/src/services/cascade_service.py:149-160 | a service account goes to a server exactly for each enabled exit row there of a route that can work |
| RouteFields.DialsAccepted | bot/src/services/cascade_service.py:104-160 | the account the entry is told to use at an exit is one that exit is told to accept |
| CascadeService.BuiltIsCoherent | bot/src/services/cascade_service.py:87-161 | built items agree on each route's revision and digest, and a node without the capability gets none |
| CascadeService.DigestPinsRoute | bot/src/services/cascade_service.py:48-84 | equal route digests mean equal route and service items and equal participants |
| CascadeService.GroupByEntry | bot/src/services/cascade_service.py:225-228 | the dict of lists holds each entry's candidates in order |
| CascadeService.AdvertisableRoutes | bot/src/services/cascade_service.py:205-265 | the loops return exactly the candidates that are ready, in order |
| CascadeService.AdvertisedExactly | bot/src/services/cascade_service.py:205-265 | a route is advertised if and only if it is enabled, alone at its entry, alive and acknowledged by all participants |
| RouteFields.AdvertisedFields | bot/src/services/cascade_service.py:205-265 | the same column by column: active, capable, current revision and digest |
| CascadeService.OnePerEntry | bot/src/services/cascade_service.py:229-234 | at most one route per entry is advertised |
| Fleet.AdvertisedIffApplied | bot/src/services/cascade_service.py:205-265 | the same in terms of what each participant's acknowledged snapshot carries |
| Fleet.AdvertisedIsDurable | bot/src/services/cascade_service.py:226-265 | behind an advertised route the entry durably applied the current route item and each enabled exit its current service account |
| RouteFields.AdvertisedConnects | bot/src/services/cascade_service.py:226-265 | and the account the entry's durable route dials each exit with is in that exit's durable snapshot |
| Fleet.CarriedIsCurrent | bot/src/services/cascade_service.py:48-84 | a snapshot carrying the current digest holds the current items, from whatever database state it was built |
| Traffic.EmailRoundTrip | bot/src/scheduler/tasks.py:60-73 | every counter name a node uses is read back to its own subscription |
| Traffic.IndexStats | bot/src/scheduler/tasks.py:60-73 | one pass groups the counters by subscription, in order |
| Traffic.FoldEntries | bot/src/scheduler/tasks.py:425-441 | one link's loop: new cursors and the bytes to credit, restarts included |
| Traffic.TrafficTables.ApplyStats | bot/src/scheduler/tasks.py:401-463 | the loops over links and counters equal the accounting function on all three rows |
| TrafficSafety.PollConserves | bot/src/scheduler/tasks.py:443-455 | in each poll the server's increment is the sum over links, over subscriptions and over counters |
| TrafficSafety.EachCredited | bot/src/scheduler/tasks.py:419-455 | and each link and its subscription gain exactly what that subscription's own counters are worth, others nothing |
| TrafficSafety.NeverOverCounts | bot/src/scheduler/tasks.py:401-463 | over every run of traffic, restarts, late or repeated polls and changing links no email is credited with more than it moved |
| TrafficSafety.FirstPollExact | bot/src/scheduler/tasks.py:428-431 | the first poll that lists an email starts exact accounting, if Xray did not restart since the sample it reads |
| TrafficSafety.ExactWithoutRestart | bot/src/scheduler/tasks.py:432-441 | from then on, without a restart and with the link in place, exactly what moved is credited |
| TrafficSafety.WorldStep | bot/src/scheduler/tasks.py:401-463 | every event keeps the accounting invariant |
| Telemetry.SendExact | agent/app/control_loop.py:224-232 | the next number is on disk if and only if the last reservation got there |
| Telemetry.ReservedExactly | agent/app/control_loop.py:195-233 | over a whole run all numbers sent are reserved and restarts go above them if and only if nothing is sent on an unsaved reservation |
| Telemetry.RestartGetsThrough | bot/src/control/router.py:261-276 | if nothing was sent on an unsaved reservation, a report is never turned away for one sent before a restart |
| Telemetry.StoredGrows | bot/src/control/router.py:261-276 | stored numbers strictly increase |
| Telemetry.FailedWriteReuses | agent/app/control_loop.py:224-226 | a run in which a failed write makes a restarted agent reuse a number |
| Telemetry.BlockLasts | agent/app/control_loop.py:224-226 | a block is taken when the last number is used up and is good for 1024 reports |
| Telemetry.BackoffExact | agent/app/control_loop.py:251-253 | the pause doubles with each failure in a row, up to a minute |
| Telemetry.PauseInRange | agent/app/control_loop.py:234-253 | over every run it lies between one second and a minute, and a confirmed report resets it |
| Telemetry.ControlLoop.ReserveIfNeeded | agent/app/control_loop.py:224-226 | the block is taken in memory, then written, and a failure ends the round |
| Telemetry.ControlLoop.SendTelemetry | agent/app/control_loop.py:227-233 | the number counts only once a reply came |
| Telemetry.ControlLoop.Run | agent/app/control_loop.py:195-253 | the loop does only what the machine allows |
| Telemetry.LoopOk | agent/app/control_loop.py:195-253 | so its log is a run of which all of the above holds |
| ConnLimit.CapExact | agent/app/connlimit.py:200-224 | exactly min(n, max(0, limit - hy2)) addresses are kept, the rest blocked, none newer than a kept one, and the kick rule |
| ConnLimit.LimitedAsCounted | agent/app/connlimit.py:97-109 | the user whose limit applies is the one whose traffic is counted |
| ConnLimit.LimitExact | agent/app/connlimit.py:97-109 | a counter's limit is its user's own if there is one, else the node's |
| ConnLimit.ExcessExact | agent/app/connlimit.py:199-215 | an address is blocked if and only if it is over the limit of some user seen on either protocol |
| ConnLimit.Check | agent/app/connlimit.py:203-224 | one user's overflow and kick |
| ConnLimit.ConnLimiter.Collect | agent/app/connlimit.py:200-224 | the loop over users finds all overflow and everyone to kick |
| ConnLimit.ConnLimiter.EnforceOnce | agent/app/connlimit.py:157-239 | one cycle: the rule, the memory of it, the count and the kicks; a failed query leaves everything |
| ConnLimit.ConnLimiter.ReplaceOverrides | agent/app/connlimit.py:83-94 | disk before memory, the whole set or nothing |
| ConnLimit.ConnLimiter.SetOverride | agent/app/connlimit.py:74-80 | sets or clears one override, written or not |
| ConnLimit.SkipRefinesRebuild | agent/app/connlimit.py:226-239 | from a rule in step, skipping equals rebuilding if and only if the call made succeeds or would change nothing |
| ConnLimit.RuleIsLatest | agent/app/connlimit.py:226-239 | over any number of cycles whose calls succeed the rule is the latest excess |
| ConnLimit.FailedClearStays | agent/app/connlimit.py:230-239 | a failed clearing call is never repeated |
| LoadProbe.DefaultBounds | agent/app/lbprobe.py:70-75 | with default settings the load adds less than 380 ms and the 2000 ms cap never bites |
| LoadProbe.PenaltyExact | agent/app/lbprobe.py:70-75 | the load penalty solved for any settings, and when there is none |
| LoadProbe.SwitchExact | agent/app/lbprobe.py:149-150 | the switch penalty solved for any settings and traffic |
| LoadProbe.DelayExact | agent/app/lbprobe.py:145-151 | the delay is their sum, at most two seconds, and there is no answer at or past full load |
| LoadProbe.CarrierWins | agent/app/lbprobe.py:145-151 | a node that carried the stick threshold beats an idle one whose ping is at most 120 ms better |
| LoadProbe.CarrierMayLose | agent/app/lbprobe.py:145-151 | beyond 120 ms some load lets the idle node win |
| LoadProbe.SwitchMelts | agent/app/lbprobe.py:149-150 | more traffic never raises the switch penalty, and the threshold halves it |
| LoadProbe.LoadStaysInRange | agent/app/lbprobe.py:90-107 | the smoothed load stays in [0, 1] for all readings |
| LoadProbe.CpuExact | agent/app/lbprobe.py:100-101 | each reading takes the CPU figure a fifteenth of the way to the share of busy ticks |
| LoadProbe.NetExact | agent/app/lbprobe.py:102-105 | and the network figure a fifteenth of the way to the share of the link in use |
| LoadProbe.RhoExact | agent/app/lbprobe.py:106-106 | the load is the larger of the two |
| LoadProbe.NetStaysInRange | agent/app/lbprobe.py:102-105 | so does the network part while the counters grow |
| LoadProbe.NetNegative | agent/app/lbprobe.py:102-105 | from an idle start one step makes it negative if and only if the counter went back |
| LoadProbe.AddSample | agent/app/lbprobe.py:133-140 | the pop loop ends before the list is empty and leaves exactly the samples inside the window, in order |
| LoadProbe.WindowExact | agent/app/lbprobe.py:133-140 | the samples kept are the new one and those of the last ten minutes since the counters started over |
| LoadProbe.RecentIsTraffic | agent/app/lbprobe.py:141-142 | recent bytes are the sum of the steps since the oldest sample kept |
| LoadProbe.RefreshedShows | agent/app/lbprobe.py:129-143 | each probe id shows the window of one polled user it stands for |
| LoadProbe.LoadProbe.SampleLoop | agent/app/lbprobe.py:90-107 | the loop equals the smoothing function over all readings, failed ones skipped |
| LoadProbe.LoadProbe.RefreshActivity | agent/app/lbprobe.py:129-143 | the loop equals the activity function and keeps histories ordered |
| PushApi.AddExact | agent/app/main.py:153-176 | a VLESS inbound without the UUID gets one more record at its end, with id, email and the right flow; every other inbound stays |
| PushApi.AddLetsIn | agent/app/main.py:171-173 | and a client that was nowhere before can sign in under its email |
| PushApi.BulkIsIterated | agent/app/main.py:216-240 | the bulk call's loop order gives the same client lists and auth map as adding one by one |
| PushApi.RemoveUndoesAdd | agent/app/main.py:153-212 | removing what was just added restores the lists if and only if no VLESS inbound had the UUID |
| PushApi.RemoveRevokes | agent/app/main.py:179-212 | after a removal the UUID is nowhere and cannot sign in, whatever became of the kick, and nobody else's record went |
| PushApi.RemoveCloses | agent/app/main.py:203-209 | the sessions of the emails on the removed records end if and only if the kick is answered or there were none, and nobody else's |
| PushApi.FailedKickLeavesSession | agent/app/main.py:203-209 | a node and a failed kick after which the removed client is still connected |
| PushApi.RemoveAgainKeeps | agent/app/main.py:179-212 | no later removal closes that session |
| PushApi.PushHandlers.AddClient | agent/app/main.py:153-176 | the handler equals the add function |
| PushApi.PushHandlers.RemoveClient | agent/app/main.py:179-212 | the handler equals the remove function for either outcome of the kick, which it does not look at |
| PushApi.PushHandlers.BulkAddClients | agent/app/main.py:215-240 | the handler equals add after add |
| PushApi.BulkEverywhere | agent/app/main.py:221-234 | the nested loops over inbounds and requests |

## Left out

Assumed rather than modelled:

- Digests are injective, and a file replaced atomically is either the old or the new one; a write that fails changes nothing, except the telemetry reservation, where both cases are modelled.
- Unreadable or corrupt files: the journal, the applied state, the overrides and the telemetry number are read as they were written.
- Snapshots begun by the machine have distinct, non-empty UUIDs and emails: Publication.DesiredIsPublishable proves that of what the centre builds, and the download checks the UUIDs once more. Inbound tags, and ids and emails within an inbound, are unique on disk.
- The tables keep their keys: ids, one exit for each route and server, and UUIDs that are unique within and across the tables.
- The manifest comes from the centre (mutual TLS); the pages may be anything.
- Clocks do not go back where a lemma says so.

Stated for less than every input:

- Agent.NodeAgent.ReconcileSnapshot: asks for distinct, non-empty UUIDs and emails and an exit on every route; the code also takes other snapshots, which the download checks and the centre's own builder do not produce.
- Agent.NodeAgent.ReconcileCachedState: asks the same of the applied items, which came from such a snapshot.
- NodeSafety.NoSessionEscapes: only for runs in which no snapshot re-authorises an email that is pending and off the disk; NodeSafety.SessionsGuardedExactly has the exact condition for every run.
- NodeSafety.LiveUsersMatchDisk: only for a reconciliation that began with Xray in step with the disk, or whose reload replaced the process; a process that outlives the signal may answer the readiness probe in place of a new one. Inbound tags are unique.
- Cascade.HistoryIndependent: for routes the rewrite accepts and a non-empty second list; the empty one is Cascade.UndoExact.
- Convergence.OfflineOnlyShrinks: for cached runs that finish, on a disk with at least one VLESS inbound.
- TrafficSafety.PollConserves: for tables with one link per subscription and server, as the primary key has it.
- TrafficSafety.NeverOverCounts: for one source of counters; readings may be late or repeated but are applied in the order in which they were taken.
- StoreShape.PublishKeeps: for items that agree on each route's revision and digest; CascadeService.BuiltIsCoherent proves that of what is built.
- Desired.RowOrderIrrelevant: when no two items share a sort key; Publication.DesiredApart proves that from the tables' keys.
- FailClosed.FailsClosed: for routes with ids of their own; FailClosed.FailsClosedExactly has both directions.
- Telemetry.RestartGetsThrough: for runs in which nothing is sent on an unsaved reservation; Telemetry.FailedWriteReuses shows why.
- TrafficSafety.FirstPollExact: when Xray did not restart since the sample the poll reads.
- Telemetry.ControlLoop.Run: what a round does before it reports (sync, reconciliation, acknowledgement) is one flag; Protocol and Agent model those.
- NodeStore.NodeStore.Acknowledge: leaves out the columns that only record times, and `is_synced`.
- NodeStore.NodeStore.Poll: leaves out the heartbeat, the agent version and the answer to an inactive node.
- Fleet.AdvertisedIsDurable: when every publication was built from some state of the database and the acknowledgement table holds the nodes' rows.
- ConnLimit.RuleIsLatest: for cycles whose calls succeed; ConnLimit.SkipRefinesRebuild says what a failed one does.
- LoadProbe.CarrierWins: with the default settings.
- EndToEnd.AuthorisedUntil: for tables that keep their keys; so does EndToEnd.LimitsArrive.
- EndToEnd.BuiltIsAccepted: for tables that keep their keys, with ids and revisions from one and servers on real ports; EndToEnd.SentFor and EndToEnd.LimitsSent need none of that.
- RouteFields.RouteSentExactly: for tables with one row for each route id and one exit row for each route and server.
- Publication.OrderExact: numbers compare by value up to 20 digits, the width they are padded to; longer ones compare as text.
- PushApi.AddLetsIn: for a client whose UUID is new to every VLESS inbound; PushApi.AddExact has the records in every case.

Not claimed, because the code does not give it:

- Repair of the running Xray after a crash between saving the config and the calls: the next run computes an empty delta. `NodeSafety.LiveUsersMatchDisk` therefore asks for a start in step.
- Journal coverage of an email that is re-authorised while pending (Escape.SessionLost).
- An end to a removed client's live session when the kick fails (PushApi.FailedKickLeavesSession).
- No replay of revoked clients after a crash between clearing the journal and saving the applied state.
- Delivery of a lost acknowledgement: after it the next sync gets 204 and nothing is acknowledged again.
- Traffic bounds when Hysteria2's counters are summed into Xray's.
- Survival of unmanaged balancers through a cascade rewrite.
- `is_synced` and the other bookkeeping columns of the acknowledgement handler (last seen, last reconciled).

Not modelled:

- HTTP, mutual TLS, SQL, asyncio scheduling, provisioning, certificates, Telegram and web user interfaces, payments, subscription rendering.
- Authentication and inactive nodes at the sync endpoint, the heartbeat, and the size check of telemetry payloads.
- JSON details: a null against a missing key, keys the agent carries along, and health or transport policies beyond the fields used.
- Lower-casing and digit tests outside ASCII.
- How the connection limiter queries the addresses, and the time limit of its queries.
- The probe's HTTP answer and the reading of `/proc`; what the kernel reports is a parameter.
- The live API calls of the push handlers, and push calls during a run of the node machine.
- The order in which real arithmetic rounds: the load probe is over the reals.
- Random jitter of the control loop's back-off.
