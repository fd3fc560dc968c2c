# Blender bridge: a verified model

The repository lets a Rust server drive Blender through a Python add-on. This project models the parts where code, not
Blender, decides what is true, and proves what they promise over every input, run or interleaving.

| file | what it models |
|---|---|
| `pending.dfy` | the server's pending-request table and session slot |
| `addon.dfy` | the add-on's bounded queues, pump, outbox and revision counter |
| `bridge.dfy`, `bridge_fields.dfy` | both sides together: callers, connection tasks, writer tasks, the wire, any number of add-ons with a reader and a writer thread for each connection, however they overlap, as one transition system with loss and replacement; its steps field by field |
| `bridge_slot.dfy`, `bridge_waiters.dfy`, `bridge_tokens.dfy`, `bridge_truth.dfy`, `bridge_runs.dfy` | its invariants and the theorems over every run |
| `bridge_failing.dfy`, `bridge_writers.dfy`, `bridge_answers.dfy`, `bridge_past.dfy` | what history adds: how each session was failed, what became of every frame a writer took, which answers can still arrive |
| `bridge_forgood.dfy` | which entries outlive their calls for good |
| `bridge_ways.dfy`, `bridge_homing.dfy`, `bridge_dropped.dfy` | from where an answer can still come to its own connection, and which entries a caller leaves for good that takes no further step |
| `bridge_events.dfy`, `bridge_returns.dfy`, `bridge_ends.dfy` | what must happen: all that is due is offered in order, an event can come across, a call can succeed or end, a connection can finish |
| `bridge_losses.dfy`, `bridge_breaking.dfy` | what a connection can lose: one frame on its way up, and a whole queue on its way down |
| `bridge_bytes.dfy` | the writers' steps against the bytes of the write loops |
| `bridge_leak.dfy`, `bridge_routes.dfy` | three concrete runs that reach the states the theorems single out |
| `framing.dfy`, `writing.dfy` | length-prefixed frames over short reads and timeouts, in both languages; the two write loops, each with its own limit |
| `batch.dfy`, `operation_names.dfy`, `transactions.dfy` | batches against single requests, errors with their details included; the closest names to an unknown one; undo boundaries and rollback |
| `ids.dfy` | stable ids looked up through a stale-tolerant cache |
| `diff_fold.dfy`, `diff_tells.dfy`, `watch.dfy`, `scene_cache.dfy` | the add-on's snapshot diff, the server's bounded history, and the folded difference a caller reads, entry by entry |
| `download.dfy`, `file_names.dfy`, `textures.dfy` | downloads with a manifest cache, accepted file names, resolution labels and texture plans |
| `regions.dfy`, `region_meshes.dfy`, `edge_ring.dfy` | faces grouped by union-find, and meshes of real triangles; the edge-ring walk |
| `collections.dfy`, `collection_ops.dfy`, `empty_collections.dfy` | the collection tree, its operations in place, and clearing out what is empty |
| `parenting.dfy` | parent links of objects and bones |
| `weights.dfy` | trimming and normalising skin weights |
| `wrappers.dfy` | the option type, lists without repeats, and decimal numbers |

Code that changes state step by step is modelled by classes, methods and loops, each proved against a function of the
old state; the theorems are about those functions. Arithmetic on weights, areas and normals is over the reals.

## What was found

Where a promise does not hold on all inputs, the model keeps the code as it is and a lemma says exactly when it does.

- A response from a replaced connection is taken out of the pending table and put back in two lock sections
  (`crates/blender-client/src/pending.rs:63-80`). A deadline that cancels in between finds nothing, and the entry then
  goes back. Some continuation leaves it there for good exactly when the cancel finds it held
  (`BridgeForGood.DeadlineSettlesExactlyWhenNotHeld`); once its call is over, it is there for good exactly when it is
  in the table with its session failed already (`BridgeForGood.StaysForGoodExactlyWhen`). `BridgeLeak.AnEntryCanOutliveItsCall`
  is a reachable run.
- `docs/PROTOCOL.md:262-266` says every pending request fails on reconnect. Failing a session leaves a request in the table
  exactly when it was registered after the failing, or was held as a stray while it happened
  (`BridgePast.InTableAfterFailingExactlyWhen`). Both happen: `BridgeLeak.LateRegistration`,
  `BridgeRoutes.HeldThroughTheFailing`. A session is failed once, so such a request waits for its deadline.
- A caller whose future is dropped cancels nothing (`crates/blender-client/src/client.rs:159-193` has no guard). Its entry then stays
  for good, whatever the others do, exactly when its session has been failed already and no answer to it can still come to its
  own connection (`BridgeDropped.StaysWithoutItsCallerExactlyWhen`); `BridgeDropped.ADroppedCallCanStay` is a reachable state.
- `stop` waits three seconds for the reader thread while connecting may take five (`blender_extension/transport.py:56-78`, `:135`), so after
  a start two readers can run. Everything here holds however they overlap, but the one that leaves first detaches the add-on
  from the other's session as well (`transport.py:176-179`), and events are dropped while the connection is up
  (`BridgeRoutes.OneReaderDetachesTheOther`).
- A response can be lost although its own connection is up: reconnecting waits one second for the old connection's writer
  thread, which takes from the outbox until a write fails. What a writer has taken can still cross exactly when its socket
  takes writes (`BridgePast.TakenFramesCrossExactlyWhenOpen`); what it lost never arrives another way
  (`BridgePast.LostAnswersNeverArrive`). `BridgeRoutes.AnAnswerCanBeLost` is a reachable run.
- One request over the frame limit ends the server's writer task (`crates/blender-client/src/connection.rs:278-291`, since
  the error is fatal by `framing.rs:49-51`). It and everything queued behind it is never sent, run or answered, and every later
  send on that session fails (`BridgeBreaking.BrokenWriterLosesItsQueue`); all that was handed over arrives exactly when
  nothing in it is over a limit (`Writing.AllArrivesExactlyWhenNoneIsOver`). The add-on's writer goes on, with an error in place of
  a response over the limit and nothing in place of an event.
- The server's frame limit can be set (`crates/mcp-server/src/config.rs:157`) and the add-on's is a constant. Where they differ
  the server's frames arrive up to the first payload over the smaller one (`Writing.ServerStreamArrives`) and the add-on's up to the
  first over the server's limit (`Writing.AddonStreamArrives`); the reader then ends.
- Rollback lands on the undo step beneath the begin boundary, not on the scene at begin. An edit that was never pushed
  is lost (`Transactions.RollbackRestoresExactlyWhenCurrent`, `UnpushedEditIsLost`).
- A batch counts an unknown operation as an error; the single-request path does not
  (`Batch.CountersAgreeExactlyWhenSupported`).
- An atomic batch loses its report, though everything stays applied, exactly when marking one of its undo steps raises
  anything but a structured error (`Batch.RunReportsExactlyWhenNoStepEscapes`).
- `_sanitise` is not idempotent: NaN becomes `None`, and `None` becomes `{}`. A batch that did not stop says `stopped_at: {}`
  (`Batch.ReportOnTheWire`).
- `blender_extension/operations/batch.py:12-17` promises "the same error mapping" as a single request. The error is the same on the wire
  exactly when the operation is known and sanitising leaves the error's details alone (`Batch.BatchCarriesTheReplies`): a single request is told the closest
  names, and its details are sent as they are, so it can be encoded exactly when they can (`Batch.ErrorEncodesExactlyWhen`).
- The server reports a stream cut inside a frame's header as a clean close; its documentation says that means between
  frames (`Framing.CleanCloseExactlyWithinHeader`).
- A face is compared only with the first face seen on an edge. When any two faces that share an edge share one on which the
  earlier of them is the first, the groups are "shares an edge and agrees" (`Regions.CoveredMeansIntended`). Otherwise they
  can be finer, as on a mesh of three real triangles (`RegionMeshes.RealNeighboursSplit`). The converse is about faces whose
  normals and centres are given at will (`Regions.GroupsAreAsIntendedExactlyWhenCovered`); it does not hold of all real
  meshes (`RegionMeshes.UncoveredCanGroupAsIntended`).
- An edge ring is closed exactly when every quad the walk passed over, at an edge with more than two faces, has its far edge
  in the ring anyway (`EdgeRing.RingIsClosedExactlyWhen`); three quads on one edge leave it open
  (`EdgeRing.ThreeFacesLeaveRingOpen`).
- `events.reset` is said to run on connect, but nothing calls it there: the first tick of a session reports all that
  happened since the last one (`Watch.FirstTickReportsTheGap`).
- `collection.create` with a refused colour tag leaves a collection linked to nothing
  (`Collections.CreateKeepsTreeExactlyWhenTagAccepted`).
- A dry run of the empty-collection pass reports only what the first pass would remove
  (`EmptyCollections.DryRunIsCompleteExactlyWhenFlat`).
- After a rescan `ids.find` does not look at the id again, so a local and a linked block of one name can be confused
  (`Ids.HeldIdIsFoundExactlyWhenItsNameLeadsBack`).
- The folded difference forgets the first of two deletions of one id (`DiffFold.FoldIsFaithfulExactlyWhenNoneCameBackToGo`),
  and a reset in it keeps the selection from before (`DiffFold.ResetForgetsAllButTheSelection`).
- The server's revision counter never goes back, so when Blender restarts and numbers from one, its changes are
  recorded and left out of every difference until they pass the old counter (`SceneCache.NewSessionShowsExactlyWhenAhead`).
- Falling behind the event stream is said to force the next difference to be refused (`crates/mcp-server/src/sync.rs:44-50`). Until
  the next event it is refused exactly when its marker lies below the counter; at the counter it says that nothing changed
  (`SceneCache.LagIsRefusedExactlyBelowTheCounter`). From the next event on it is refused (`SceneCache.MissedChangesAreRefused`).
- A negative `max_influences` slices from the end and trims more on every run
  (`Weights.SecondRunChangesNothingExactlyWhen`).
- `object.set_parent` with a bone that is missing fails after the link was made
  (`Parenting.FailureLeavesLinksExactlyWhen`).
- A texture rung listed as `4K` is offered, chosen and then not found (`Textures.LabelIsThereExactlyWhenCanonical`).

## Model

| member | source | states |
|---|---|---|
| `Pending.PendingRequests.Register` | `crates/blender-client/src/pending.rs:42-59` | the request is in the table with its session and its waiter waits |
| `Pending.PendingRequests.Complete` | `crates/blender-client/src/pending.rs:63-84` | answers the waiter and takes the entry out, unless it is another session's: then the table is as before; true exactly when a caller still listened |
| `Pending.PendingRequests.Cancel` | `crates/blender-client/src/pending.rs:87-89` | takes the entry out, if there is one, dropping its waiter |
| `Pending.PendingRequests.FailSession` | `crates/blender-client/src/pending.rs:115-134` | exactly the entries of that session leave, each told the connection is lost |
| `Pending.StrayResponseChangesNothing` | `crates/blender-client/src/pending.rs:69-80` | uninterrupted, a response from another session leaves the table as it was |
| `Pending.SessionSlot.Replace` | `crates/blender-client/src/session.rs:106-109` | installs the session and hands back the one it replaced |
| `Pending.SessionSlot.ClearIf` | `crates/blender-client/src/session.rs:114-123` | clears the slot only if it still holds the session that ended |
| `Mailboxes.Mailbox.PutItem` | `blender_extension/queue.py:21-31` | appends, or refuses and changes nothing when full |
| `Mailboxes.Mailbox.Get` | `blender_extension/queue.py:33-37` | takes the oldest item, or none |
| `Mailboxes.Mailbox.Drain` | `blender_extension/queue.py:39-47` | takes the oldest items in order, up to the limit |
| `Mailboxes.Mailbox.Clear` | `blender_extension/queue.py:49-51` | empties the queue and counts what it dropped |
| `AddOn.BridgeState.EnqueueOut` | `blender_extension/transport.py:267-269` | a frame joins the outbox, or is dropped when it is full |
| `AddOn.BridgeState.EmitEvent` | `blender_extension/dispatcher.py:108-117` | attached and with room, the outbox grows by exactly the event, with the session and revision of the moment; otherwise it is as it was |
| `AddOn.BridgeState.ReadRequestFrame` | `blender_extension/transport.py:242-257` | a request is accepted, or answered as rate limited when the inbox is full |
| `AddOn.BridgeState.RunHandler` | `blender_extension/dispatcher.py:66-72` | a handler's bumps and events reach the shared state in order |
| `AddOn.BridgeState.Pump` | `blender_extension/dispatcher.py:253-289` | requests are taken oldest first; each handler's bumps and events go before its one response, which joins the outbox or is lost when it is full |
| `AddOn.PumpKeepsAccount` | `blender_extension/dispatcher.py:253-289` | a whole pass keeps the account, whatever its handlers bump and emit |
| `AddOn.PumpOffers` | `blender_extension/dispatcher.py:253-289` | a pass offers, for each request it comes to, an event for each emission under a session, with the revision as the bumps before it left it, then the response; and leaves the rest of the inbox |
| `AddOn.BridgeState.Stop` | `blender_extension/transport.py:56-78` | forgets the session and everything queued |
| `AddOn.StepKeepsAccount` | `blender_extension/transport.py:221-318` | every step keeps the account: what was accepted is answered in acceptance order, in dispatch, or in the inbox; what was answered was kept, written or dropped; both queues within their bounds |
| `AddOn.StepOffersWhatIsDue` | `blender_extension/transport.py:242-271` | each step offers to the outbox what it has for it, once, at the end; it is kept exactly where there is room |
| `AddOn.StepDoesNoMore` | `blender_extension/transport.py:221-265` | what each step does to the session, the revision, the inbox and the request in dispatch |
| `AddOn.RunKeepsAccount` | `blender_extension/transport.py:132-318` | the account holds over every run of the add-on |
| `AddOn.RunOffersWhatIsDue` | `blender_extension/transport.py:221-318` | over every run, what was offered since the queues were last emptied is all that was due, in order |
| `AddOn.RequestsConserved` | `blender_extension/transport.py:242-271` | up to the writer: requests read are those in the inbox, in dispatch, answered in the outbox, taken by a writer, or dropped on a full outbox, refusals included: equal as multisets |
| `BridgeWriters.RequestsConservedToTheWire` | `blender_extension/transport.py:242-318` | what writers took is split further: written, replaced because too large, in a writer's hand, or lost: equal as multisets |
| `BridgeWriters.StepKeepsPulls` | `blender_extension/transport.py:271-318` | every step keeps the record of pulls: each unsettled one is in its connection's hand, what crossed ends with what is on its way, a lost one's socket takes no more writes |
| `BridgeWriters.GetsAcrossExactlyWhenOpen` | `blender_extension/transport.py:271-318` | a frame in hand can still cross in some continuation exactly when its socket takes writes |
| `BridgeSlot.StepKeepsSlot` | `crates/blender-client/src/connection.rs:97-156` | every step keeps the slot's invariant |
| `BridgeSlot.OnlyItsOwnEndFailsASession` | `crates/blender-client/src/connection.rs:103-152` | no replacement and no connection's exit takes a request of the session in the slot out of the table |
| `BridgeSlot.SupersededExitIsHarmless` | `crates/blender-client/src/connection.rs:140-152` | a superseded connection's exit neither clears the slot nor fails a newer session |
| `BridgeSlot.StepKeepsAccounts` | `blender_extension/transport.py:221-318` | every add-on's account holds in the whole system too |
| `BridgeTokens.MoveKeepsPlaces` | `crates/blender-client/src/client.rs:168-177` | a step that moves requests along leaves each in one place: a writer's queue, the wire, an inbox, in dispatch, or run |
| `BridgeTokens.ServerMovesTokens` | `crates/blender-client/src/connection.rs:278-291` | server steps move requests along and copy none |
| `BridgeTokens.PeerMovesTokens` | `blender_extension/transport.py:221-265` | add-on steps move requests along and copy none |
| `BridgeTokens.CallKeepsTokens` | `crates/blender-client/src/client.rs:159-193` | a caller puts each fresh request in one place |
| `BridgeTruth.PeerKeepsTruth` | `blender_extension/dispatcher.py:266-285` | every response on its way tells what its own request's run returned |
| `BridgeTruth.ServerKeepsTruth` | `crates/blender-client/src/connection.rs:211-275` | reading a frame answers nobody with anything else |
| `BridgeTruth.CallKeepsTruth` | `crates/blender-client/src/client.rs:179-193` | what a caller returns is what its waiter was told |
| `BridgeTruth.ServerKeepsEvents` | `crates/blender-client/src/connection.rs:238-245` | only events of the connection's own session are broadcast |
| `BridgeTruth.PeerKeepsEvents` | `blender_extension/dispatcher.py:108-117` | an event's session is the one its add-on was attached under when it was emitted |
| `BridgeEvents.AllIsOffered` | `blender_extension/dispatcher.py:108-117` | over every run of the whole system and for every add-on, what was offered since its queues were last emptied is, in order, an event for each emission under a session, a response for each request finished or refused, and each fatal frame; nothing else and nothing less |
| `BridgeEvents.ReadIsBroadcast` | `crates/blender-client/src/connection.rs:238-245` | reading an event of the connection's own session broadcasts it |
| `BridgeEvents.EventComesAcross` | `blender_extension/transport.py:271-318` | an event in the outbox, in a writer's hand or on the wire of its own session's connection, open and read, is broadcast in some continuation without any caller |
| `BridgeEvents.EmittedCanBeBroadcast` | `blender_extension/dispatcher.py:108-117` | so is one emitted while its add-on is attached, with room, over such a connection |
| `BridgeRuns.StepKeepsInv` | `crates/blender-client/src/connection.rs:81-291` | every step of every party keeps the whole invariant |
| `BridgeRuns.RunKeepsInv` | `crates/blender-client/src/connection.rs:81-291` | the invariant holds over every run |
| `BridgeRuns.HandlerRunsAtMostOnce` | `crates/blender-client/src/client.rs:161-177` | over every run each request's handler runs at most once, on what was sent |
| `BridgeRuns.OkIsTheResultOfThatRequest` | `crates/blender-client/src/client.rs:179-181` | an Ok outcome is what the one run of that call's own request returned |
| `BridgeRuns.BroadcastEventsAreTheConnectionsOwn` | `crates/blender-client/src/connection.rs:238-245` | a broadcast event carries the connection's session id and was emitted under it by the add-on at its other end |
| `BridgeRuns.SlotHoldsTheLatestSession` | `crates/blender-client/src/connection.rs:103-152` | the slot holds the most recently installed session until its own task clears it |
| `BridgeRuns.NoWaiterIsStranded` | `crates/blender-client/src/client.rs:182-188` | a caller still waiting has its entry in the table or about to return there; the dropped-sender branch is never taken |
| `BridgeRuns.SettledStaysSettled` | `crates/blender-client/src/pending.rs:63-134` | each waiter is settled at most once, and a finished call stays as it finished |
| `BridgeRuns.EndedCallsLeaveTheTable` | `crates/blender-client/src/client.rs:174-193` | the entry of a finished call is out of the table, unless its cancel missed it in a task's hands |
| `BridgeRuns.HeldEntryOutlivesItsCall` | `crates/blender-client/src/pending.rs:64-79` | when one does, the entry goes back and its caller is gone |
| `BridgeLeak.LateRegistration` | `crates/blender-client/src/client.rs:159-170` | a run that reaches a request registered after its session was failed |
| `BridgeLeak.AnEntryCanOutliveItsCall` | `crates/blender-client/src/pending.rs:63-80` | a run from the start to a state where the call is over and its entry is in the table for good |
| `BridgeFailing.StepKeepsStatus` | `crates/blender-client/src/connection.rs:103-152` | every step keeps each installed session in the slot, about to be failed by one task, or failed |
| `BridgeFailing.StepKeepsLedger` | `crates/blender-client/src/pending.rs:63-134` | every step keeps what channels tell of the failings: connection lost exactly when a failing met the request |
| `BridgeAnswers.StepKeepsAnswers` | `blender_extension/transport.py:221-318` | every step keeps a request and its response one thing in at most one place, gone once read, refused or lost |
| `BridgePast.RunKeepsKnown` | `crates/blender-client/src/connection.rs:81-291` | the whole invariant, history included, holds over every run |
| `BridgePast.EverySessionHasOneFate` | `crates/blender-client/src/connection.rs:103-152` | an installed session is in the slot, about to be failed by exactly one task, or failed: one of the three |
| `BridgePast.FailedAtMostOnce` | `crates/blender-client/src/connection.rs:103-152` | a failing is never repeated |
| `BridgePast.FailingLeavesExactlyTheHeld` | `crates/blender-client/src/pending.rs:115-134` | a failing leaves, of its session's requests, exactly those held as strays |
| `BridgePast.InTableAfterFailingExactlyWhen` | `crates/blender-client/src/pending.rs:63-134` | a request neither answered nor cancelled is in the table after its session was failed exactly when it was registered later or held meanwhile; otherwise its caller is told |
| `BridgePast.RequestsConservedOverRuns` | `blender_extension/transport.py:132-318` | over every run and for every add-on, the requests read are accounted for up to the wire |
| `BridgePast.PullsAreWhereTheySay` | `blender_extension/transport.py:271-318` | over every run, frames in hand, on their way and lost are where the record of pulls says |
| `BridgePast.TakenFramesCrossExactlyWhenOpen` | `blender_extension/transport.py:176-185` | over every run, what a writer has taken can still cross exactly when its socket takes writes |
| `BridgePast.LostAnswersNeverArrive` | `blender_extension/transport.py:271-318` | nothing of a request whose answer was lost is under way, and no call returns a reply to it |
| `BridgePast.OneAnswerUnderWay` | `crates/blender-client/src/pending.rs:63-84` | over every run, a request and its response are in one place, and in none once answered, held, missed or lost |
| `BridgeForGood.StaysForGoodExactlyWhen` | `crates/blender-client/src/pending.rs:63-134` | the entry of an ended call is in the table in every continuation exactly when it is there with its session failed already |
| `BridgeForGood.CanStayForGoodExactlyWhen` | `crates/blender-client/src/pending.rs:63-134` | some continuation leaves it for good exactly when a task holds it, or it is there with its session failed already |
| `BridgeForGood.DeadlineSettlesExactlyWhenNotHeld` | `crates/blender-client/src/client.rs:189-192` | after the deadline's cancel no continuation leaves the entry for good exactly when no task held it |
| `BridgeForGood.EndedIsInTableExactlyWhen` | `crates/blender-client/src/client.rs:174-193` | the request of an ended call is in the table, or held, exactly when its cancel missed it and no failing of its session met it |
| `BridgeWays.StepOpensNoWay` | `blender_extension/transport.py:221-318` | no step but its own sending opens a way by which a request's answer can come to its own connection |
| `BridgeHoming.ComesHome` | `crates/blender-client/src/connection.rs:211-236` | wherever a way is open, some continuation without any caller follows it to the end; the entry is then out of the table, and its waiter was answered if it was still in it |
| `BridgeReturns.CallStepDoes` | `crates/blender-client/src/client.rs:159-193` | each step of a caller: its session, entry and place at the end of the queue, and what it returns: the answer its channel holds, a lost connection, or a timeout |
| `BridgeReturns.ReadingDoes` | `crates/blender-client/src/connection.rs:211-275` | what each frame does when it is read: an answer of the own session reaches its waiter, another's is in the task's hands, an event is broadcast exactly when it names the session, a fatal frame ends the reading |
| `BridgeReturns.CanReturnAReply` | `crates/blender-client/src/client.rs:179-181` | a waiting caller with its entry in the table and a way open can return a reply |
| `BridgeReturns.ACallCanSucceed` | `crates/blender-client/src/client.rs:168-181` | a call registered on a session whose connection is up at both ends can be sent, run, answered and return the reply |
| `BridgeEnds.CallCanEnd` | `crates/blender-client/src/client.rs:172-193` | wherever it stands, a call can end by its own steps alone, without a reply |
| `BridgeEnds.ConnectionCanFinish` | `crates/blender-client/src/connection.rs:97-156` | however far it has come, a connection's task can run to its end; then its queue is empty and closed, its session out of the slot, and failed or about to be |
| `BridgeEnds.ShutForGood` | `blender_extension/transport.py:176-185` | a socket that takes no writes takes none in any continuation |
| `BridgeDropped.StaysWithoutItsCallerExactlyWhen` | `crates/blender-client/src/client.rs:159-193` | the request of a call that takes no further step is in the table, or about to return there, in every continuation exactly when it is so now, its session has been failed, and no way is open |
| `BridgeDropped.ADroppedCallCanStay` | `crates/blender-client/src/client.rs:165-177` | a run to a state where dropping the caller leaves its entry for good |
| `BridgeRoutes.OneReaderDetachesTheOther` | `blender_extension/transport.py:56-185` | a run after which a connection is up and read while its add-on is attached under no session and emits nothing |
| `BridgeRoutes.HeldThroughTheFailing` | `crates/blender-client/src/connection.rs:140-152` | a run that reaches a request registered in time, held while its session was failed, and in the table afterwards |
| `BridgeRoutes.AnAnswerCanBeLost` | `blender_extension/transport.py:171-185` | a run that reaches an answer lost by the writer of the connection before, its own connection being up |
| `BridgeLosses.OneLossPerConnection` | `blender_extension/transport.py:271-318` | over every run a connection loses at most one taken frame, the last its writer took, and its writer is over |
| `BridgeBreaking.BreakEndsExactlyTheQueue` | `crates/blender-client/src/connection.rs:278-291` | what is over once a writer task ended or was aborted is what was over before and what was in its queue |
| `BridgeBreaking.BrokenWriterLosesItsQueue` | `crates/blender-client/src/connection.rs:278-291` | over every run and continuation, nothing queued when a writer task ends or is aborted is run or answered, and every later send on its session fails |
| `BridgeBytes.TaskSendsWhatTheLoopWrites` | `crates/blender-client/src/connection.rs:278-291` | however the task runs alone to its end, transmitting a request within the limit and breaking at one over it, it sends exactly the requests whose bytes the write loop sends, and is broken exactly when the loop refuses one |
| `BridgeBytes.TaskComesToItsEnd` | `crates/blender-client/src/connection.rs:282-289` | there is such a run from every state with the task up |
| `BridgeBytes.WriterCarriesWhatTheStepsSay` | `blender_extension/transport.py:271-298` | however the writer thread runs alone to its end, treating each frame by its size, what crosses is what the other side reads of the loop's bytes: the frame, the error in place of a response, nothing for an event, and no more once the error itself is over the limit |
| `BridgeBytes.WriterComesToItsEnd` | `blender_extension/transport.py:271-318` | there is such a run from every state with the writer up and its socket open |
| `BridgeBytes.ShortenedLeftOutAndBlocked` | `blender_extension/transport.py:278-298` | an encoding under which, as the limit falls, a response is shortened, an event left out, and the writer stopped |
| `Framing.HeaderDecodes` | `crates/blender-client/src/framing.rs:86-93` | decoding a big-endian header gives the size that was encoded |
| `Framing.SizeEncodes` | `blender_extension/framing.py:62-63` | encoding the size a header stands for gives the header |
| `Framing.CutStreamYieldsWholeFrames` | `blender_extension/framing.py:60-74` | a stream cut anywhere yields exactly its whole frames, in order, an undecodable or empty one costing only itself, then the end |
| `Framing.WholeStreamRoundTrips` | `blender_extension/framing.py:60-83` | any frames at all against any reader's limit: what is read is what stands before the first one over it, whole and in order, and the stream ends there |
| `Framing.RefusedExactlyWhenFatal` | `blender_extension/framing.py:64-83` | a writer refuses exactly the payloads that would end the reader's stream |
| `Framing.ReadersInteroperate` | `crates/blender-client/src/framing.rs:71-115` | on any bytes the two readers yield the same messages and stop alike, as long as an empty payload decodes to nothing |
| `Framing.CleanCloseExactlyWithinHeader` | `crates/blender-client/src/framing.rs:86-113` | the server calls a cut stream cleanly closed exactly when less than a header of the next frame came |
| `Framing.Socket.RecvExactly` | `blender_extension/framing.py:35-57` | exactly the bytes asked for, whatever pieces and timeouts they came in, or the end |
| `Framing.Socket.ReadOne` | `blender_extension/framing.py:60-74` | reading one frame does to the arriving bytes what the function says, for every script of reads |
| `Framing.Socket.ReadLoop` | `blender_extension/transport.py:221-240` | the same messages in the same order for every split into short reads |
| `Writing.ServerWriteLoop` | `crates/blender-client/src/connection.rs:278-291` | sends the payloads before the first over the limit, and leaves that one and all behind it |
| `Writing.ServerStreamArrives` | `crates/blender-client/src/framing.rs:131-157` | for any two limits, the add-on reads exactly the payloads before the first one over either, and how its stream ends |
| `Writing.AllArrivesExactlyWhenNoneIsOver` | `crates/blender-client/src/connection.rs:278-291` | everything the server was handed arrives exactly when nothing in it is over either limit |
| `Writing.AddonWriteLoop` | `blender_extension/transport.py:271-298` | sends each frame, an error in place of one over the limit that has a request, and nothing for one that has none |
| `Writing.AddonStreamArrives` | `blender_extension/transport.py:271-298` | for any two limits, the server reads what was carried up to the first payload over its own, and how its stream ends |
| `Writing.CarriedAsTheyAreExactlyWhenNoneIsOver` | `blender_extension/transport.py:278-298` | the frames are carried as they are exactly when none is over the limit |
| `OperationNames.NamespaceEndsAtTheFirstDot` | `blender_extension/dispatcher.py:218` | an operation's namespace is what stands before its first dot |
| `OperationNames.ClosestMeans` | `blender_extension/dispatcher.py:216-222` | at most five operations, ascending, of the unknown name's namespace if it has any; none left out comes before a listed one |
| `Batch.SanitisedIsEncodable` | `blender_extension/dispatcher.py:225-250` | whatever a handler returns, what is sent can be encoded |
| `Batch.UnfitExactlyWhenSomethingInsideIs` | `blender_extension/dispatcher.py:225-250` | a value can be encoded exactly when no NaN, infinity or value of no JSON type stands anywhere inside it |
| `Batch.SanitisedPlaceByPlace` | `blender_extension/dispatcher.py:225-250` | at every place inside: a `None` becomes `{}`, a NaN or infinity a `None`, anything else unknown its text; all else is kept, keys and lengths included |
| `Batch.SanitiseIdempotentExactlyWhenFinite` | `blender_extension/dispatcher.py:232-236` | sanitising twice is sanitising once exactly when no NaN or infinity is inside |
| `Batch.Dispatcher.Dispatch` | `blender_extension/dispatcher.py:134-213` | one request: checks, handler, error mapping with details and closest names, counters, and the revision sent |
| `Batch.SingleTellsHowItEnded` | `blender_extension/dispatcher.py:180-213` | a value is answered sanitised; a structured error verbatim; a RuntimeError as BLENDER_CONTEXT_ERROR and any other exception as BLENDER_INTERNAL_ERROR, with text and operation, not retryable; the counters |
| `Batch.RefusedSinglesSayWhy` | `blender_extension/dispatcher.py:143-178` | a request that reaches no handler: which code, which details, and nothing changed but the request count |
| `Batch.OnlyTheEmptyBecomeEmpty` | `blender_extension/dispatcher.py:146` | arguments left out or empty of any kind are an empty object, all others what they are |
| `Batch.ErrorOnTheWire` | `blender_extension/dispatcher.py:180-211` | the code, message, retryability and details an error is sent with |
| `Batch.EntryTellsHowItEnded` | `blender_extension/operations/batch.py:45-79` | an entry of a batch is answered likewise, its value raw; an unknown operation as unsupported, with nothing touched |
| `Batch.MarkingTellsHowItEnded` | `blender_extension/operations/batch.py:126-140` | after a success, a structured error from marking the undo step is passed over; any other exception ends the run and is told as the run's own |
| `Batch.RefusedEntriesSayWhy` | `blender_extension/operations/batch.py:102-118` | a run is refused at an entry exactly when it is no object, names no operation, names one not allowed inside, or has arguments of another kind; each told by its number or its name |
| `Batch.BatchAnswersForItsRun` | `blender_extension/operations/batch.py:82-148` | the reply is the report of the run from its first entry, or what ended it, as one more error |
| `Batch.UnfitBatchesSayWhy` | `blender_extension/operations/batch.py:84-93` | no operations, or more than a thousand: nothing runs, one error is counted, and the reply says which |
| `Batch.Dispatcher.RunEntry` | `blender_extension/operations/batch.py:45-140` | one entry of a batch, its counters and its undo step |
| `Batch.Dispatcher.DispatchRun` | `blender_extension/operations/batch.py:82-148` | the loop leaves the state and the report of the run function, or raises what a malformed entry or an unfit list calls for |
| `Batch.Dispatcher.DispatchBatch` | `blender_extension/operations/batch.py:82-148` | the whole request: counters, and the report sanitised like any handler's value |
| `Batch.ReportOnTheWire` | `blender_extension/operations/batch.py:142-148` | the report as sent can be encoded, with every outcome sanitised, both counts, and `{}` for a missing `stopped_at` |
| `Batch.ErrorEncodesExactlyWhen` | `blender_extension/dispatcher.py:180-211` | the error of a single request can be encoded exactly when its details can |
| `Batch.BatchCarriesTheReplies` | `blender_extension/operations/batch.py:45-79` | each outcome carries the value the request alone is answered with; the same error exactly when the operation is known and sanitising leaves the details alone |
| `Batch.RunRefinesSingles` | `blender_extension/operations/batch.py:99-148` | without undo steps a batch leaves the scene, the outcomes and the request count of its operations sent singly, cut at the first failure: values before sanitising, and the same errors but for the closest names; it counts unknown names as errors besides |
| `Batch.CountersAgreeExactlyWhenSupported` | `blender_extension/operations/batch.py:122-124` | the error counters agree exactly when no entry reached names an unknown operation |
| `Batch.MarkedRunRefinesSingles` | `blender_extension/operations/batch.py:102-140` | however a batch ends, its scene, outcomes and counters are those of the entries it reached sent singly, with `transaction.step` after each success; it counts no request and no error for an undo step, and an error for each unknown name |
| `Batch.RunReportsExactlyWhenNoStepEscapes` | `blender_extension/operations/batch.py:128-148` | it hands back its report exactly when no undo step raises anything but a structured error; otherwise it raises what the first such step raised |
| `Batch.RunReachesWhatItReports` | `blender_extension/operations/batch.py:102-127` | exactly the entries reached are reported, in order, all well formed; `stopped_at` is the last of them |
| `Batch.CompletedCountsAllButTheErrors` | `blender_extension/operations/batch.py:122-148` | `completed` counts every reported entry but those the error counter rose by; under `stop_on_error` that is the one the run stopped at |
| `Batch.RefusalRunsExactlyTheEarlier` | `blender_extension/operations/batch.py:102-140` | a malformed entry leaves exactly the state of the run cut before it, undo steps included |
| `Transactions.Host.Begin` | `blender_extension/operations/transaction.py:57-75` | opens one transaction and pushes its boundary, or refuses and changes nothing |
| `Transactions.Host.Step` | `blender_extension/operations/transaction.py:79-90` | pushes a boundary and counts it |
| `Transactions.Host.Commit` | `blender_extension/operations/transaction.py:94-106` | closes the transaction, with its id and number of steps in the reply, and changes nothing else |
| `Transactions.Host.Rollback` | `blender_extension/operations/transaction.py:110-151` | undoes as many boundaries as it can up to `steps` + 1 and reports the true number |
| `Transactions.BoundariesAreCounted` | `blender_extension/operations/transaction.py:72-89` | over every interleaving since begin, boundaries pushed equal `steps` + 1 and lie in order on the bounded stack |
| `Transactions.RolledBackRun` | `blender_extension/operations/transaction.py:57-151` | over every run of begin, anything in between, and rollback, wherever an undo call raises: when it succeeds, where it lands, when that is the scene at begin, and what a failure reports |
| `Transactions.OpenAfterRun` | `blender_extension/operations/transaction.py:57-151` | over every run, which transaction is open at its end, with how many steps |
| `Transactions.OpenExactlyWhenBegunAndNotEnded` | `blender_extension/operations/transaction.py:57-151` | one is open at the end exactly when a begin succeeded and neither commit nor rollback came after it |
| `Transactions.CommittedRun` | `blender_extension/operations/transaction.py:94-106` | begin, anything in between, commit: the reply has begin's id and the number of steps; scene, stack and revision are as just before; only a begin is accepted next |
| `Transactions.StepsAreNumbered` | `blender_extension/operations/transaction.py:79-90` | each step replies its number, pushes the scene as it stands, and a second begin is refused |
| `Transactions.IdleExactlyWhenNoneIsOpen` | `blender_extension/operations/transaction.py:59-113` | step, commit and rollback are refused and begin accepted exactly when no transaction is open |
| `Transactions.RollbackLands` | `blender_extension/operations/transaction.py:117-151` | rollback succeeds exactly when a step lay beneath begin and the limit kept it; it then lands there |
| `Transactions.FailedRollbackTellsTheTruth` | `blender_extension/operations/transaction.py:118-141` | otherwise it reports failure with the true count, never success |
| `Transactions.RollbackRestoresExactlyWhenCurrent` | `blender_extension/operations/transaction.py:117-151` | it restores the scene at begin exactly when that scene was current on the stack |
| `Transactions.UnpushedEditIsLost` | `blender_extension/operations/transaction.py:117-129` | a run in which an earlier edit is rolled back as well |
| `Transactions.RunsStayValid` | `blender_extension/operations/transaction.py:57-106` | over every run the stack stays within its limit and a second begin is refused |
| `Ids.IdTable.Find` | `blender_extension/ids.py:120-156` | the answer and the cache afterwards, for every cache |
| `Ids.IdTable.Rebuild` | `blender_extension/ids.py:110-117` | the index of the collection as it is, a later block overwriting an earlier one |
| `Ids.IdTable.EnsureId` | `blender_extension/ids.py:41-63` | an existing id is kept; a fresh one is written; a read-only block is remembered under a derived one |
| `Ids.IdTable.InvalidateCache` | `blender_extension/ids.py:91-96` | drops one kind's cache, or all |
| `Ids.AskingTells` | `blender_extension/ids.py:120-156` | with unique names and ids: the block of that id or name, a read-only one kept under it, or that there is none, as an error exactly when one was required |
| `Ids.LookupLeaves` | `blender_extension/ids.py:135-147` | the cache after a lookup is the one it hit, or the index of the collection as it is |
| `Ids.HeldIdIsAnswered` | `blender_extension/ids.py:135-147` | a held id is always answered with a block; it carries the id exactly when the cache hit or its name leads back |
| `Ids.HeldIdIsFoundExactlyWhenItsNameLeadsBack` | `blender_extension/ids.py:139-147` | the block carries the id whatever the cache, exactly when the first block of the last carrier's name carries it |
| `Ids.SharedNameGetsTheWrongBlock` | `blender_extension/ids.py:140-147` | two blocks of one name for which every cache gives the wrong one |
| `Ids.CachedLookupIsAScan` | `blender_extension/ids.py:135-150` | with unique names and ids the lookup is a full scan, however stale the cache |
| `Ids.CacheIsInvisible` | `blender_extension/ids.py:91-156` | over every history of edits, invalidations and lookups the answers are those of a table without a cache |
| `Ids.FreshIdLeadsBack` | `blender_extension/ids.py:48-63` | a fresh id keeps ids unique, leads back to its block, and changes no other answer |
| `Ids.FoundByItsIdExactlyWhenUuid` | `blender_extension/ids.py:135-152` | a block is found by the id it carries exactly when that id parses as one, or is its name |
| `Watch.Watcher.ReportStructuralChanges` | `blender_extension/events.py:83-114` | reports the snapshot difference, each change after a bump, and keeps the new snapshot; above the limit one reset |
| `Watch.Watcher.ReportDatablockUpdates` | `blender_extension/events.py:117-163` | reports each update in order, each after a bump |
| `Watch.Watcher.ReportSelection` | `blender_extension/events.py:166-175` | reports the selection when it or the active object changed |
| `Watch.Watcher.OnDepsgraphUpdate` | `blender_extension/events.py:71-80` | the three in order, and nothing while not connected |
| `Watch.Watcher.OnReload` | `blender_extension/events.py:179-195` | a new baseline and one reset event |
| `Watch.DiffRebuildsTheSnapshot` | `blender_extension/events.py:95-114` | replaying the reported changes onto the old snapshot gives the new one, each change fitting where it is applied |
| `Watch.StructuralTells` | `blender_extension/events.py:95-114` | the reported changes are exactly what the two snapshots differ in: created, deleted, or renamed |
| `Watch.TickTells` | `blender_extension/events.py:117-175` | of what stays in the scene a tick tells exactly what its updates call for, and the selection exactly when it changed |
| `Watch.UpdateTellsWhatItCallsFor` | `blender_extension/events.py:117-163` | which changes one update calls for: a mesh, the aspects moved and shaded, a node tree |
| `Watch.StepLeaves` | `blender_extension/events.py:40-195` | what each step leaves: snapshot, selection, connection, revision, and the one event of a reload |
| `Watch.SmallScenesAreCompared` | `blender_extension/events.py:95-114` | up to the limit a tick tells exactly the difference of the snapshots |
| `Watch.LargeScenesAreReset` | `blender_extension/events.py:86-93` | above it one reset, and only while the snapshot still holds something |
| `Watch.SnapshotMeans` | `blender_extension/events.py:36-37` | a snapshot has each id with the name of the last object that has it |
| `Watch.FirstTickReportsTheGap` | `blender_extension/events.py:40-114` | connecting takes no new baseline: the first tick reports exactly what differs from the last snapshot |
| `Watch.NothingHappensUnconnected` | `blender_extension/events.py:71-74` | ticks while not connected report nothing and leave the baseline |
| `Watch.RevisionsRise` | `blender_extension/dispatcher.py:104-117` | over every run event revisions strictly increase, and the revision counts events and handlers' bumps exactly |
| `Watch.EventsRebuildTheScene` | `blender_extension/events.py:71-114` | over every run short of a reload, through any disconnections, the events since then take the old snapshot to the present one |
| `DiffFold.Fold` | `crates/scene-cache/src/diff.rs:128-245` | the loop over five tables computes the folded difference |
| `DiffTells.CreatedExactlyWhenNew` | `crates/scene-cache/src/diff.rs:154-166` | an id is in `created` exactly when it was created after its last deletion or reset |
| `DiffTells.AspectsOfTheNew` | `crates/scene-cache/src/diff.rs:204-213` | its aspects are exactly those of its changes since it was last created |
| `DiffTells.NameOfTheNew` | `crates/scene-cache/src/diff.rs:186-191` | its name is the last it was given |
| `DiffTells.ModifiedExactlyWhenMentioned` | `crates/scene-cache/src/diff.rs:186-226` | an id is in `modified` exactly when it was modified or renamed, while not new, after its last deletion or reset |
| `DiffTells.AspectsOfTheModified` | `crates/scene-cache/src/diff.rs:192-225` | its aspects are exactly those told since, with its naming for a rename |
| `DiffTells.NameOfTheModified` | `crates/scene-cache/src/diff.rs:192-203` | its name is the last it was renamed to |
| `DiffTells.PreviousOfTheModified` | `crates/scene-cache/src/diff.rs:192-198` | its old name is told exactly when the first thing said of it was a rename |
| `DiffTells.DeletedExactlyWhen` | `crates/scene-cache/src/diff.rs:167-184` | an id is in `deleted` exactly when it was deleted, not being new, and not created or reset since |
| `DiffTells.MeshIsStaleExactlyWhen` | `crates/scene-cache/src/diff.rs:227-229` | which meshes are listed: those invalidated since their last deletion or reset |
| `DiffTells.TreeIsStaleExactlyWhen` | `crates/scene-cache/src/diff.rs:230-232` | which node trees are listed: those invalidated since the last reset |
| `DiffTells.SelectionAndResetAreTheLast` | `crates/scene-cache/src/diff.rs:143-236` | the selection is the last reported, and the reason that of the last reset |
| `DiffTells.EachIsToldOnce` | `crates/scene-cache/src/diff.rs:204-232` | no aspect is told twice of one object, and no mesh or tree listed twice |
| `DiffTells.ListsAreInOrder` | `crates/scene-cache/src/diff.rs:135-244` | each list is in the order its entries came |
| `DiffFold.FoldIsFaithfulExactlyWhenNoneCameBackToGo` | `crates/scene-cache/src/diff.rs:122-203` | reading the difference gives the objects as they are exactly when none that is gone was created again in between |
| `DiffFold.ComingBackHidesADeletion` | `crates/scene-cache/src/diff.rs:154-184` | delete, create, delete: the difference is empty and the object gone |
| `DiffFold.ResetForgetsAllButTheSelection` | `crates/scene-cache/src/diff.rs:143-153` | a reset forgets everything before it but the selection |
| `DiffFold.FoldIsWellFormed` | `crates/scene-cache/src/diff.rs:135-244` | no id is listed twice in a list, nor as created and deleted |
| `SceneCache.SceneCache.PushAt` | `crates/scene-cache/src/revision.rs:112-123` | records a change, drops the oldest beyond the capacity and moves the horizon |
| `SceneCache.SceneCache.BeginSession` | `crates/scene-cache/src/cache.rs:70-75` | a new session's record starts empty; the counter never goes back |
| `SceneCache.SceneCache.EndSession` | `crates/scene-cache/src/cache.rs:78-82` | forgets the session and its record, and keeps the counter |
| `SceneCache.SceneCache.FollowEvent` | `crates/mcp-server/src/sync.rs:26-42` | the first event of a session opens it just below itself |
| `SceneCache.OtherSessionsStartAfresh` | `crates/mcp-server/src/sync.rs:26-42` | an event of another session is not taken into the record; a fresh one is opened for it, just below it or at the counter |
| `SceneCache.SceneCache.DiffSince` | `crates/scene-cache/src/cache.rs:120-129` | the fold of the changes in range, or the error its bounds call for |
| `SceneCache.AnswerIsCompleteOrExpired` | `crates/scene-cache/src/revision.rs:141-173` | an answer holds every change of its range; it is refused exactly when one has fallen off or the range starts too early |
| `SceneCache.MarkerLastsExactlyOneWindow` | `crates/scene-cache/src/revision.rs:112-173` | a marker is answered with just the changes since, exactly while these fit the window |
| `SceneCache.NewSessionShowsExactlyWhenAhead` | `crates/scene-cache/src/cache.rs:70-75` | a new session's changes show exactly when their numbers lie beyond the old counter |
| `SceneCache.RestartedNumbersDoNotShow` | `crates/mcp-server/src/sync.rs:30-41` | a restarted Blender's first change is recorded and not shown |
| `SceneCache.LagIsRefusedExactlyBelowTheCounter` | `crates/mcp-server/src/sync.rs:44-53` | after falling behind, a difference is refused exactly when its marker lies below the counter; at the counter it is empty |
| `SceneCache.NextEventShowsTheLagExactlyWhenSkipped` | `crates/mcp-server/src/sync.rs:26-53` | after the next event every earlier marker is refused exactly when some number was skipped |
| `SceneCache.MissedChangesAreRefused` | `crates/mcp-server/src/sync.rs:26-53` | so once the stream is heard again, no missed change is passed over |
| `SceneCache.DiffTurnsThenIntoNow` | `crates/scene-cache/src/cache.rs:120-129` | end to end: over any run of edits the difference turns the scene at the marker into the scene now, exactly when no object that is gone came back in between |
| `FileNames.SafeRelativePath` | `crates/asset-providers/src/policy.rs:174-198` | the loop accepts exactly the parts of the function |
| `FileNames.NameIsSafeExactlyWhen` | `crates/asset-providers/src/policy.rs:137-165` | a file name is accepted exactly when it has at most 128 letters, digits, dots, underscores, dashes and spaces, starts with no dot, holds no two dots in a row, and ends in an allowed extension in any case |
| `FileNames.DirectoryIsSafeExactlyWhen` | `crates/asset-providers/src/policy.rs:200-215` | a directory likewise, without the extension and up to 64 |
| `FileNames.PartsAreAccepted` | `crates/asset-providers/src/policy.rs:174-215` | accepted parts: at most four, plain directories, a safe trimmed file name of an allowed format |
| `FileNames.JoinedPartsReadTheSame` | `crates/asset-providers/src/policy.rs:174-198` | reading the joined parts again gives the same parts |
| `FileNames.NoCollisions` | `crates/asset-providers/src/policy.rs:137-165` | no accepted name is the manifest's or another file's `.part` |
| `Download.RelativeLeadsBack` | `crates/asset-providers/src/download.rs:163-170` | the root joined with the relative path is the path |
| `Download.DirectoryIsGivenExactlyWhen` | `crates/asset-providers/src/download.rs:138-143` | a directory is given exactly when provider, asset and variant are acceptable, and is made of them |
| `Download.ProviderIsAcceptedExactlyWhen` | `crates/blender-protocol/src/asset.rs:273-289` | a provider's id is accepted exactly when it has 1 to 32 small letters, digits and underscores |
| `Download.AssetIsAcceptedExactlyWhen` | `crates/blender-protocol/src/asset.rs:293-308` | an asset's exactly when it is not empty, takes at most 200 bytes, and holds no separator, NUL or two dots in a row |
| `Download.VariantIsAcceptedExactlyWhen` | `crates/asset-providers/src/download.rs:211-233` | a variant exactly when it has 1 to 64 letters, digits, dots, underscores and dashes, no dot first and no two in a row |
| `Download.DirectoryStaysInside` | `crates/asset-providers/src/download.rs:138-159` | an accepted directory lies below the root, so the second check never fires |
| `Download.DirectoryTellsApart` | `crates/asset-providers/src/download.rs:138-143` | assets and trimmed variants never share a directory |
| `Download.Downloader.Cached` | `crates/asset-providers/src/download.rs:176-192` | the listed files, if every one is on disk with its size |
| `Download.Downloader.Run` | `crates/asset-providers/src/download.rs:48-135` | cache hit, refusal, or the files fetched in order with what was written before a failure left written |
| `Download.SuccessIsHonest` | `crates/asset-providers/src/download.rs:84-134` | one reported file for each planned one, where and as it was written; the total is their sum and within the limit |
| `Download.FetchSucceedsExactlyWhen` | `crates/asset-providers/src/download.rs:84-134` | fetching succeeds exactly when every name is accepted, no declared size is over the file limit, every file arrives, and all together are within the total |
| `Download.FailureSaysWhereAndWhy` | `crates/asset-providers/src/download.rs:84-134` | otherwise it fails at one file after all before it succeeded, for the first of the four reasons, and only a file that went over the total stays written |
| `Download.NextRunHitsExactlyWhen` | `crates/asset-providers/src/download.rs:176-203` | the next unforced run answers the same from the cache exactly when there were files and no path was listed with two sizes |
| `Download.FetchedOnceIsReused` | `crates/asset-providers/src/download.rs:48-135` | a plan of distinct destinations, fetched once, is answered from the cache with the same files and total |
| `Textures.LabelReadsBack` | `crates/asset-providers/src/provider.rs:143-157` | a printed label reads back, for every multiple of 1024 |
| `Textures.LabelReadsExactlyWhen` | `crates/asset-providers/src/provider.rs:143-149` | a label is read exactly when it is digits, perhaps after a plus sign, and a k in either case, of a number below 2^32 |
| `Textures.ReadPrintsBackExactlyWhenCanonical` | `crates/asset-providers/src/provider.rs:143-157` | a label that reads prints back as itself exactly when it is canonical |
| `Textures.NearestIsTheRung` | `crates/asset-providers/src/provider.rs:114-140` | the smallest rung not below the wish, else the largest; without a wish the documented default |
| `Textures.PlanFiles` | `crates/asset-providers/src/polyhaven.rs:304-362` | the loop computes the plan |
| `Textures.PlanIsAtOneResolution` | `crates/asset-providers/src/polyhaven.rs:322-361` | every file of a plan stands at one resolution, the nearest rung the chosen maps offer; the files are just those found there |
| `Textures.MapsAreChosen` | `crates/asset-providers/src/polyhaven.rs:239-266` | the maps asked for in any case; with none asked for, the usual six that are there, or all |
| `Textures.ChosenExactlyWhen` | `crates/asset-providers/src/polyhaven.rs:305-310` | which keys of a set are its chosen maps |
| `Textures.FormatIsPicked` | `crates/asset-providers/src/polyhaven.rs:214-229` | a format asked for or none; without a wish the first preferred one there is, else the first |
| `Textures.FileIsPlannedExactlyWhen` | `crates/asset-providers/src/polyhaven.rs:331-355` | a file is planned exactly when its map has the label, a format to pick and an address; its name, address and size |
| `Textures.NoPlanSaysWhy` | `crates/asset-providers/src/polyhaven.rs:304-362` | which of the three reasons a missing plan gives, exactly when |
| `Textures.LabelIsThereExactlyWhenCanonical` | `crates/asset-providers/src/polyhaven.rs:324-339` | some chosen map really has the looked-up label exactly when one offers the resolution under a canonical key |
| `Textures.CapitalLabelIsNotFound` | `crates/asset-providers/src/polyhaven.rs:331-360` | a map listing only `4K` has no plan |
| `Regions.Find` | `blender_extension/operations/scene_surface.py:230-234` | terminates at the root of its face; path halving changes no face's root |
| `Regions.Union` | `blender_extension/operations/scene_surface.py:236-239` | merges exactly the two groups |
| `Regions.RootDetermined` | `blender_extension/operations/scene_surface.py:228-234` | the parent links alone decide every root |
| `Regions.LinkAll` | `blender_extension/operations/scene_surface.py:241-254` | afterwards the roots stand for the closure of the links examined |
| `Regions.RepresentsMeans` | `blender_extension/operations/scene_surface.py:227-254` | one root means connected by examined links, and the other way round |
| `Regions.GroupFaces` | `blender_extension/operations/scene_surface.py:197-258` | two faces fall in one group exactly when the examined links connect them; group areas sum to the total |
| `Regions.HingeIsOneGroupExactlyWhen` | `blender_extension/operations/scene_surface.py:243-254` | two faces that share an edge fall in one group exactly when the product of their normals is no less than the tolerance's cosine and their offsets differ by no more than its distance |
| `Regions.FoldedExactlyUpToTheAngle` | `blender_extension/operations/scene_surface.py:250-252` | with equal offsets, exactly up to the angle |
| `Regions.ShiftedExactlyUpToTheDistance` | `blender_extension/operations/scene_surface.py:250-252` | with equal unit normals, exactly up to the distance |
| `Regions.MembersExact` | `blender_extension/operations/scene_surface.py:256-258` | a group lists exactly its faces, ascending |
| `Regions.AreaOfNextFace` | `blender_extension/operations/scene_surface.py:256-262` | each face adds its area to exactly one group |
| `Regions.Measure` | `blender_extension/operations/scene_surface.py:261-271` | a group's area and its weighted normal and centre |
| `Regions.Emit` | `blender_extension/operations/scene_surface.py:260-325` | exactly the groups with an area and a direction are reported, measured as above; no area is lost but in groups whose weighted normal cancels |
| `Regions.CentreLiesAmong` | `blender_extension/operations/scene_surface.py:266-276` | along any direction a region's centre lies between the centres of its faces |
| `Regions.CancelsExactlyWhenBalanced` | `blender_extension/operations/scene_surface.py:266-274` | faces along one direction are dropped exactly when what faces one way and the other are within 1e-9 |
| `Regions.ManifoldIsCovered` | `blender_extension/operations/scene_surface.py:243-249` | with at most two faces on an edge the condition below holds |
| `Regions.CoveredMeansIntended` | `blender_extension/operations/scene_surface.py:227-254` | on covered faces the groups are the closure of "shares an edge and agrees" |
| `Regions.UncoveredSplits` | `blender_extension/operations/scene_surface.py:246-254` | otherwise some placement of the same faces, each with a plane of its own, keeps two agreeing neighbours apart |
| `Regions.GroupsAreAsIntendedExactlyWhenCovered` | `blender_extension/operations/scene_surface.py:227-258` | over normals and centres given at will, the groups are as intended wherever the faces are placed exactly when the mesh is covered |
| `RegionMeshes.RealNeighboursSplit` | `blender_extension/operations/scene_surface.py:203-254` | three real triangles on one edge, with normals, centres and areas as their points give them, keep two agreeing neighbours apart |
| `RegionMeshes.UncoveredCanGroupAsIntended` | `blender_extension/operations/scene_surface.py:203-254` | over real triangles coverage is not necessary: three copies of one are uncovered and grouped as intended wherever their points are |
| `EdgeRing.OppositeInvolution` | `blender_extension/operations/mesh.py:600-606` | crossing a quad twice comes back |
| `EdgeRing.Ring` | `blender_extension/operations/mesh.py:578-597` | the walk terminates on any mesh and computes the ring function |
| `EdgeRing.RingIsSound` | `blender_extension/operations/mesh.py:580-597` | no edge twice, and each added edge lies opposite an earlier one in a quad |
| `EdgeRing.RingIsClosedExactlyWhen` | `blender_extension/operations/mesh.py:580-597` | the ring is closed, that is, holds every edge reachable by crossing quads, exactly when each quad passed over has its far edge in it |
| `EdgeRing.RingIsComplete` | `blender_extension/operations/mesh.py:580-597` | it is when no edge it can reach, but the start, carries two quads and a third face |
| `EdgeRing.ManifoldRingIsComplete` | `blender_extension/operations/mesh.py:580-597` | on a manifold mesh every ring is closed, and every edge of it has the same ring |
| `EdgeRing.ThreeFacesLeaveRingOpen` | `blender_extension/operations/mesh.py:593-596` | three quads on one edge leave it open |
| `Collections.SubtreeIsBeneath` | `blender_extension/operations/collection.py:96-101` | the recursive list holds exactly what hangs under a collection |
| `Collections.DeletedParents` | `blender_extension/operations/collection.py:171-179` | after deletion only the deleted collection's children have moved, up to its parent |
| `Collections.DeletedIsForest` | `blender_extension/operations/collection.py:146-184` | deletion keeps a forest a forest and a tree a tree |
| `Collections.DeleteKeepsOthersReachable` | `blender_extension/operations/collection.py:171-179` | without `recursive` every other collection is still reached from the root |
| `Collections.DeleteKeepsObjects` | `blender_extension/operations/collection.py:163-169` | without `delete_objects` every object stays; it is in the parent exactly when it was there or was in nothing but deleted collections |
| `Collections.DeleteTakesContents` | `blender_extension/operations/collection.py:160-162` | with it exactly the objects of the deleted collections go |
| `Collections.UnlinkAllDoesJustThat` | `blender_extension/operations/collection.py:199-213` | unlinking succeeds exactly when no object would be left in no collection, and takes out just those objects |
| `Collections.UnlinkStopsAtTheRefused` | `blender_extension/operations/collection.py:199-213` | when it fails, the objects before the first that would be left in no collection are out, and nothing else has changed |
| `Collections.UnlinkAllKeepsHousing` | `blender_extension/operations/collection.py:202-211` | succeeding or not, every object stays in some collection |
| `Collections.MoveKeepsHousing` | `blender_extension/operations/collection.py:227-233` | moving gives exactly the memberships asked for and touches no other object |
| `Collections.MoveAllKeepsHousing` | `blender_extension/operations/collection.py:217-224` | so does moving many: each object is then where it was asked to be, and no other has moved |
| `Collections.CreateKeepsTreeExactlyWhenTagAccepted` | `blender_extension/operations/collection.py:111-126` | creating keeps a tree exactly when the colour tag is accepted |
| `Collections.CreateDoesJustThat` | `blender_extension/operations/collection.py:110-126` | the new collection hangs last under its parent with exactly the objects given, or is linked to nothing when the tag is refused; nothing else changes |
| `Collections.TagIsAcceptedExactlyWhen` | `blender_extension/operations/collection.py:111-126` | a tag is accepted exactly when none is given, or `NONE`, or one of the eight |
| `Collections.SceneStaysTidy` | `blender_extension/operations/collection.py:110-233` | over every sequence of operations the collections stay a tree and every object housed |
| `CollectionOps.SceneData.FindParent` | `blender_extension/operations/collection.py:47-53` | the collection that contains this one, or the root |
| `CollectionOps.SceneData.CollectDescendants` | `blender_extension/operations/collection.py:96-101` | the recursion terminates and lists the descendants depth first |
| `CollectionOps.SceneData.Relink` | `blender_extension/operations/collection.py:159-169` | unlinks a target's objects one by one, linking to the parent whichever is then in none |
| `CollectionOps.SceneData.Delete` | `blender_extension/operations/collection.py:146-184` | link by link, the deletion comes to the function the theorems are about; the root is refused |
| `EmptyCollections.CollectionList.RemoveEmpty` | `blender_extension/operations/utilities.py:198-215` | terminates and removes exactly the collections with no object anywhere under them, each once, those below first; a dry run reports the first layer and changes nothing |
| `EmptyCollections.BarrenMeans` | `blender_extension/operations/utilities.py:200-206` | empty below means no object of its own and only such children |
| `EmptyCollections.NoneLeft` | `blender_extension/operations/utilities.py:207-208` | when nothing is bare nothing barren is left, in any acyclic hierarchy |
| `EmptyCollections.DryRunIsCompleteExactlyWhenFlat` | `blender_extension/operations/utilities.py:211-214` | the dry run reports what the real run removes exactly when no collection hides behind bare children |
| `Parenting.LinkIsSafeExactlyWhen` | `blender_extension/operations/object.py:584-592` | a link closes no cycle exactly when the parent is neither the child nor below it: the guards are exact |
| `Parenting.Outliner.IsAncestor` | `blender_extension/operations/object.py:616-622` | the walk terminates and finds exactly the ancestors |
| `Parenting.Outliner.SetParent` | `blender_extension/operations/object.py:573-613` | the outcome, and the links after it, failures after the assignment included; no cycle |
| `Parenting.Outliner.ClearParent` | `blender_extension/operations/object.py:626-635` | removes exactly those links |
| `Parenting.LinksStayAcyclic` | `blender_extension/operations/object.py:573-635` | no sequence of calls, failing ones included, closes a cycle |
| `Parenting.RunGoesOn` | `blender_extension/operations/object.py:573-635` | what each call of a run does to the links, from wherever the run stands |
| `Parenting.OutcomeExactlyWhen` | `blender_extension/operations/object.py:584-606` | each way a call can end, exactly when it does |
| `Parenting.FailureLeavesLinksExactlyWhen` | `blender_extension/operations/object.py:594-606` | a failing call leaves the links alone exactly when the guards caught it or nothing new was asked for |
| `Parenting.Armature.WouldCloseCycle` | `blender_extension/operations/rigging.py:408-414` | the walk terminates and is true exactly when the link would close a cycle |
| `Parenting.Armature.ParentBone` | `blender_extension/operations/rigging.py:374-405` | refused exactly when the link would close a cycle, and then nothing changes |
| `Weights.SortedMeans` | `blender_extension/operations/rigging.py:601` | a stable sort, strongest first |
| `Weights.DeformGroupIndices` | `blender_extension/operations/rigging.py:634-650` | exactly the groups asked for, moved by a bone and not locked |
| `Weights.Skin.NormalizeVertex` | `blender_extension/operations/rigging.py:595-617` | entry by entry, the vertex comes to the function; the counts are the dry run's |
| `Weights.Skin.Normalize` | `blender_extension/operations/rigging.py:594-627` | every vertex by itself; a dry run reports the same counts and changes nothing |
| `Weights.AdjustedCounts` | `blender_extension/operations/rigging.py:608-617` | the count of adjusted vertices is of those whose kept weights have a positive total off one by 1e-6 or more |
| `Weights.TrimmedCounts` | `blender_extension/operations/rigging.py:600-606` | the count of trimmed weights is what the vertices lost |
| `Weights.KeepsAtMostMax` | `blender_extension/operations/rigging.py:600-606` | exactly as many deforming weights are left as the limit allows |
| `Weights.SumsToOne` | `blender_extension/operations/rigging.py:608-617` | they sum to one within 1e-6, unless what was kept had no positive total |
| `Weights.RatiosKept` | `blender_extension/operations/rigging.py:600-617` | kept weights are divided by one factor, and none was smaller than a trimmed one |
| `Weights.OthersUntouched` | `blender_extension/operations/rigging.py:596` | nothing outside the deforming groups changes |
| `Weights.StaysInRange` | `blender_extension/operations/rigging.py:614-617` | weights between 0 and 1 stay there |
| `Weights.SecondRunChangesNothingExactlyWhen` | `blender_extension/operations/rigging.py:600-617` | a second run changes nothing exactly when the limit is absent, not negative, or left nothing |

## Left out

- Sockets, threads, the async runtime, clocks and JSON text: steps taken in any order, byte sequences, and a decoder that may fail. Timeouts and wall-clock budgets are steps that may happen at any time.
- BridgeRuns.NoWaiterIsStranded: `complete` and `fail_session` take entries out under the lock and tell the waiters after it (`crates/blender-client/src/pending.rs:63-84`, `:115-134`). The model does both in one step, so what it says of a waiter whose entry is gone holds of the code once that call has returned.
- BridgePast.InTableAfterFailingExactlyWhen: likewise, "its caller is told" is of the moment `fail_session` returns; what it says of the table needs no such delay.
- Ping and pong, the handshake's version and identity checks, and the capacity of the server's outbound queue: they carry no request.
- UUIDs are fresh values; uniqueness of the generator is not proved. `Ids` takes the standard library's UUID parser as a parameter.
- Session replacement in `session.rs` keeps a last error for the panel; it is not part of this model.
- Blender itself: objects, collections, meshes, weights and the undo stack are plain records. The undo stack is a bounded sequence of snapshots and a live scene; handlers push no boundaries of their own, and the user pushes none during a transaction.
- Regions.GroupFaces: edges are keyed by themselves, not by a hash that might collide.
- Regions.UncoveredSplits: normals and centres are given at will, though faces that share vertices constrain each other; `region_meshes.dfy` has the real meshes.
- Regions.GroupsAreAsIntendedExactlyWhenCovered: over such placements only; of real meshes the "only when" does not hold, as `RegionMeshes.UncoveredCanGroupAsIntended` shows.
- Regions.Emit: tangents, bounds, extents, classification and the final sort by area follow from each region by itself and are not modelled; square roots are avoided by comparing squares, so normals are not normalised.
- EdgeRing.Ring: a face's vertices and edges are one cyclic list; hidden and loose geometry is not told apart.
- The surface cache: its key has no modifier state and rounds transforms, so only an equal key means a hit.
- Collections.SceneStaysTidy: collections are told apart by identity, not by name; a refused colour tag is excluded because the theorem fails there, as the exact condition beside it says. Renaming, visibility and listing change no link.
- Weights.Skin.Normalize: floats are reals and rounding is not modelled; an entry is a value, so nothing is said of how Blender moves a vertex's entries in memory while some are removed.
- Parenting.Outliner.SetParent: matrices and the kept world transform.
- Watch.Watcher.ReportStructuralChanges: an event dropped on a full outbox, or an exception inside the handler, is not part of `emitted`; above the snapshot limit deletions are deliberately not reported, so the theorems over runs ask for small scenes.
- DiffFold.Fold: an entity's kind and a mesh's revision are carried along unread.
- SceneCache.DiffTurnsThenIntoNow: broadcast lag is not part of that run; what it does is stated by itself.
- Download.Downloader.Run: transfers, their checks of type and size on the wire, and partial files are one step that gives a size and a digest or fails; a path that is both a file and a directory counts as such a failure. Byte counts do not wrap at 64 bits.
- FileNames.SafeRelativePath: errors are not told apart; lengths are in characters, which agrees with bytes on everything accepted.
- Textures.PlanFiles: the sets of resolutions are sequences, of which only membership matters to the choice; HDRIs and models follow the same calls.
- Batch.Dispatcher.Dispatch: tracebacks; the type name before the text of an unexpected exception; a request without an id, which raises before anything is counted.
- Batch.Dispatcher.DispatchRun: a dictionary's keys are text already, and the checks that `operations` is a list and `undo_label` a string come before it.
- AddOn.BridgeState.Pump: a request without an id, which gets a fatal frame in place of a response.
- Writing.AddonWriteLoop: a frame that cannot be encoded, such as an error whose details hold NaN, is answered by an internal error in its place; one whose details are no JSON type at all ends the thread.
- render.py's settings restore, pagination, timeout tables, percent-encoding, licences, panels, and the many thin handlers around single Blender calls: nothing but easy members.
- HTTP, redirects, TLS, credentials and host checks.
