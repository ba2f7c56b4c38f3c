# A verified model of the engine's session, replication, clock and frame logic

The repository is a C++20 game engine. This project models the parts of it whose correctness is hard to see from
any one function, and proves properties of whole runs of them:

* **Sessions** (`Server.dfy`, `Client.dfy`, `Session.dfy` and the modules on top of them). Both halves are classes
  whose methods are the critical sections of the original, each proved equal to a function on the state the mutex
  guards. `Session` puts one server, any number of clients and a network together as a state machine: packets that
  were sent stay available, so they can be lost, delayed, duplicated and reordered, and a request that timed out can
  still be handled later. `Delivery`, `Pending`, `Holding` and `Newest` (which scene the server holds) and `Progress`
  (joining again, one exchange step by step) hold for every run of it. `Roster`, `Publishing` and `Confirmed` hold for
  the runs in which a client hears a reply only for the request it is waiting on, which the request socket guarantees.
  Client processes are told apart by their random join tokens. Packets are messages there, not bytes; the codec theorems
  say that messages that fit the wire fields survive the bytes unchanged.
* **Scene replication** (`Scene.dfy`, `Replication.dfy`, `Replicator.dfy` and what follows). What a replicator shows
  is a map from network ids to components; every operation is described by what it does to that map, whatever order
  an unordered map is walked in; `Reapply` compares whole states instead, and `ClientLife` follows a client's
  replicator from its construction. `Parts.dfy` cuts the view into what each process owns. `Ghosts` puts the
  replicator next to the server's two separate critical sections.
* **Clocks** (`Rational.dfy`, `Meter.dfy`, `MeterRange.dfy`, `Timeline.dfy`, `Readings.dfy`, `Stepper.dfy`). `Timeline`
  is a heap of objects that read their sources; the contracts of the setters are about every timeline of the forest.
  `Meter` is one timeline's arithmetic as a value. Integers are unbounded in both. `MeterRange` does the same
  arithmetic operation by operation in 64 bits, faults where a result does not fit, and proves exactly when it
  computes what `Meter` computes; the methods of `Timeline` state that condition as `Exact64` and `Same64`, and
  `Readings` has it for `now()`.
* **Frames** (`Simulation.dfy`, `Frames.dfy`, `Subsystems.dfy`). The frame and callback loops as methods over
  `Timeline` objects, frames over whole runs, and the interleavings of subsystem threads with posted tasks.
* **Codecs** (`Wire.dfy`, `Protocol.dfy`, `Flags.dfy`, `Codec.dfy`, `Snapshot.dfy`, `SnapshotCodec.dfy`, and
  `Layout.dfy` for what stands at which offset), **peers** (`Peers.dfy`, and `PeerRuns.dfy` for their whole lives) and
  **sprite animations** (`Animation.dfy`). Floats in snapshots are the four bytes they are; time in animations is a
  real number.

`EndToEnd.dfy` joins the layers: from publishing a scene on the server to what a client shows, and from the roster log
to the peers that are listened to.

What each owner's part of a view becomes is stated for senders that encode what they own, as `encodeOwned` does
(`Ownership.EncodeOwnedIsHonest`): clients on the server, and peers. A server's snapshot may carry anything there; whole
peer lives take it to carry what the server owns, as `include/engine/networking/peerSession.hpp:24-25` asks of peers.

What the model takes as given: tracked and bound entities come from the scene the replicator is used with, and a
process does not use up its 2^24 local ids; the step cap is not negative; the steady clock and external counters do
not go back; `onTick` and subsystem callbacks do not change game time themselves. Clocks, socket ports, timeouts and
random tokens are parameters or nondeterministic steps.

Where the code and its documentation differ, the model follows the code:

* `Stepper::tickIndex()` is documented to be the previous frame's last tick until the first `step()` of a frame. When
  a frame drops a backlog it is not; `Steppers.IndexBeforeSteps` gives the exact condition.
* `Timeline`'s header says that the tick rate is fixed at construction; `setTicksPerSecond` changes it.
* `src/timeline.cpp:28-30` says that the intermediates of `scaleElapsed` are bounded by the rate, and they are; but a
  change of rate takes three `int64_t` products, at lines 173, 174 and 178, and each can overflow on settings that
  the setters accept. A timeline of 60 ticks a second on a microsecond clock runs at speed 1.234567 and is set to
  speed 0.345679 after 13 milliseconds: `remainder_ * rateDen_` does not fit (`Rational.RescaleOverflows`, and
  `MeterRanges.SpeedChangeFaults` as a run). A timeline of 10^13 ticks a second is set to full speed:
  `ticksPerSecond_ * speedNum_` does not fit although the rate does (`MeterRanges.RawProductFaults`). A change of rate
  is exact if and only if all three fit (`Rational.Recompute64Exact`), and a run of banks, pauses and changes if and
  only if every step's products and sums do (`MeterRanges.Run64Exact`); the drift bounds hold of the code exactly that
  far (`MeterRanges.Drift64`, `MeterRanges.NowDrift64`). Settings in range are enough however long a run is
  (`MeterRanges.RatesSuffice`), and it is enough that no raw term exceeds 3 037 000 499
  (`MeterRanges.SmallTermsInRange`).
* A session decoder accepts any non-zero flag byte where the encoder writes 1, so the session format, unlike the
  snapshot format, is not a bijection. `Flags.RequestNotReproduced` and `Flags.ReplyNotReproduced` are accepted
  strings that the encoder does not write; `Protocol.UpdateRequestReproduced` and `Flags.UpdateReplyReproduced` say
  exactly which accepted strings it does.
* The carry loop of `advanceAnimations` does not end for a looping animation none of whose frames take time
  (`Animations.TimelessLoopNeverEnds`); `Animations.EndsExactlyWhen` says exactly when it ends, whatever the signs of
  durations and times.
* `include/engine/networking/sessionServer.hpp:79` promises to apply each client's newest submitted scene. A request
  that was given up and is handled late puts its older scene back (`Newest.LateFromTheStart` is a whole run). The
  scene held is the newest of those taken if and only if nothing sent after the request handled last was handled
  before it with another scene (`Newest.HeldIsNewestExactlyWhen`), and for a client whose scenes have all been
  answered it is then the newest submitted (`Confirmed.IdleHoldsNewest`). Handling in the order of sending is enough
  (`Newest.SendOrderSuffices`); with rising ticks, one more request leaves the newest held if and only if its tick is
  not below that of the scene held (`Newest.TickGuard`).

## Model

| member | source | states |
|---|---|---|
| Delivery.ExactlyOnce | src/networking/sessionServer.cpp:166-192 | at every point of every run, item i of what a side accepted from the other has the sender's id and the kind, tick and payload of message i the other side sent, once each and none out of turn, and each outbox is what was sent after a point the receiver has already passed |
| Delivery.StepKeeps | src/networking/sessionClient.cpp:87-132 | every critical section and every network event keeps the delivery invariant, with no assumption on which reply is heard when |
| Delivery.OneExchangeDelivers | src/networking/sessionClient.cpp:99-122 | from wherever a run has got to, one exchange that is handled and answered empties the client's outbox and brings both sides up to date |
| Progress.ExchangeDelivers | src/networking/sessionServer.cpp:160-198 | from wherever a run has got to, the three steps of one exchange can be taken, are paired, and leave both sides with everything that was sent |
| Progress.PublishedIsShown | src/networking/sessionServer.cpp:200-208 | from wherever a paired run has got to, one exchange after a publish is legal and leaves the client holding exactly the scene and tick published, under the newest version |
| Progress.LeaveRetires | src/networking/sessionClient.cpp:256-262 | from wherever a run has got to, a leave request that is handled takes the client out of the clients, the held scenes and into the departed list and the log, and the server has by then accepted all it ever sent |
| Progress.JoinedPort | src/networking/sessionClient.cpp:205-218 | in every run, late and repeated replies included, a joined client that is live on the server sends its updates to the port the server listens on for it |
| Delivery.IdsAreOwn | src/networking/sessionServer.cpp:108-123 | no two client processes ever hold the same id |
| Reliable.AcceptedContinues | src/networking/sessionServer.cpp:166-171 | whatever batch of really sent messages arrives, the receiver extends its prefix of the sender's history and nothing else |
| Reliable.AcceptedReaches | src/networking/sessionClient.cpp:117-122 | a contiguous batch that reaches back far enough is accepted up to its end |
| Reliable.UnackedIsTail | src/networking/sessionServer.cpp:173 | dropping what is acknowledged moves the start of an outbox up to the acknowledgement and no further |
| Reliable.AcceptMessages | src/networking/sessionServer.cpp:166-171 | the accept loop appends exactly the accepted messages, each with the sender's id and its own kind, tick and payload, and counts them |
| Reliable.DropAcknowledged | src/networking/sessionClient.cpp:115 | the pop loop leaves exactly the unacknowledged tail |
| Client.RoundTripDelivers | src/networking/sessionClient.cpp:141-176 | one exchange delivers everything both sides had when it was built and handled; only what was sent since remains in the client's outbox |
| Client.SessionClient.StartUpdate | src/networking/sessionClient.cpp:153-161 | the pending scene moves into the request, everything unacknowledged goes with it |
| Client.SessionClient.FinishExchange | src/networking/sessionClient.cpp:108-132 | a timeout, a malformed, refused or unknown-client reply changes nothing; an Ok reply updates outbox, inbox, roster and snapshot together |
| Client.SessionClient.Retry | src/networking/sessionClient.cpp:178-184 | a failed request's scene goes back unless a newer one is pending |
| Client.SessionClient.FinishJoin | src/networking/sessionClient.cpp:205-218 | a joined client stays joined; otherwise only an Ok reply gives it an id and port |
| Client.SessionClient.SendTyped | src/networking/sessionClient.cpp:282-289 | messages are numbered on from the last |
| Client.SessionClient.SubmitScene | src/networking/sessionClient.cpp:321-330 | the newest scene replaces the pending one |
| Server.SessionServer.HandleJoin | src/networking/sessionServer.cpp:88-136 | malformed requests change nothing and are rejected; otherwise the whole new state and the reply are those of Join |
| Server.RejoinKeepsId | src/networking/sessionServer.cpp:96-106 | a repeated join of a live client gets its own id and port, and changes nothing |
| Progress.RejoinInEveryRun | src/networking/sessionServer.cpp:96-106 | in every reachable state no two live clients hold one token, and a live client that asks to join again gets its own id and port without effect |
| Server.JoinOutcome | src/networking/sessionServer.cpp:108-135 | a first join gets an id nobody had and the port of its socket, is recorded as it asked and logged once, and nothing else changes; a full server or a failed socket changes nothing at all |
| Server.SessionServer.HandleUpdate | src/networking/sessionServer.cpp:138-210 | malformed requests are refused without effect; for any other the whole new state and the reply are those of Update, of which Updated, SnapshotOffered, StaysOrLeaves and UpdateRefused say field by field what they are |
| Server.Updated | src/networking/sessionServer.cpp:160-198 | whichever branch an update takes, its messages are accepted, its acknowledgement is applied, the reply carries both, and no other client is touched |
| Server.SnapshotOffered | src/networking/sessionServer.cpp:200-208 | a reply carries a snapshot if and only if the client stays, something is published and this client was not sent that version; it is then the newest publish and its tick, and the client counts as having been sent it |
| Server.StaysOrLeaves | src/networking/sessionServer.cpp:156-198 | who stays is counted and has its scene held under its tick; who leaves is taken out, logged once as it was known, listed as departed, and its scene is discarded |
| Server.UpdateRefused | src/networking/sessionServer.cpp:142-155 | a request for another client or from one that is gone changes nothing and is answered with the bare status |
| Server.SessionServer.RetireClient | src/networking/sessionServer.cpp:229-244 | a client that goes is taken out with its held scene, one LEFT with its info is logged and queued, it is put among the departed, and nothing else changes; an unknown id changes nothing |
| Server.SessionServer.Watchdog | src/networking/sessionServer.cpp:256-269 | the live clients that are late leave in id order: clients and held scenes are the old ones less theirs, the departed list grows by exactly them, the log and the queued events by one LEFT each with that client's info, and nothing else changes |
| Server.AllLeave | src/networking/sessionServer.cpp:262-267 | retiring a list of distinct live clients one by one leaves everyone else as they were and logs and lists each of them once, in that order |
| Server.SessionServer.BroadcastAll | src/networking/sessionServer.cpp:349-356 | every live client gets the message under its own next number |
| Server.SessionServer.DrainStates | src/networking/sessionServer.cpp:212-220 | the scenes are handed out, each once, in some order, and none is kept |
| Server.SessionServer.PublishEncoded | src/networking/sessionServer.cpp:399-406 | the newest scene replaces the one on offer under the next version |
| Pending.NewestIsKept | src/networking/sessionClient.cpp:155-184 | in every run, until a request carrying it is answered the newest submitted scene is pending or in the current request |
| Pending.GiveUpKeeps | src/networking/sessionClient.cpp:178-184 | giving up on a request leaves the newest submitted scene pending |
| Holding.HeldIsTakenLast | src/networking/sessionServer.cpp:160-164 | in every run, delayed and repeated requests included, the scene held for a client is the one taken last, and every scene taken is one that client submitted |
| Newest.RunKeepsNumbers | src/networking/sessionClient.cpp:153-184 | in every run, retries included, a request carries the scene its number names, and of two requests of one client the one sent later does not carry an earlier scene |
| Newest.HeldIsNewestExactlyWhen | src/networking/sessionServer.cpp:160-164 | at every point of every run the scene held is the newest of all that were taken if and only if every request sent after the one handled last, but handled before it, carries the same scene |
| Newest.SendOrderSuffices | src/networking/sessionServer.cpp:160-164 | when requests are handled in the order they were sent, repeats included, the scene taken last is the newest of those taken |
| Newest.TickGuard | src/networking/sessionServer.cpp:160-164 | for scenes submitted at rising ticks, and while the newest taken is held, handling one more request keeps it so if and only if its tick is not below that of the scene held |
| Newest.LateRequestHoldsOlder | src/networking/sessionServer.cpp:160-164 | from every state with a connected client that waits for nothing, a legal run of seven steps leaves the server with the older of two submitted scenes |
| Newest.LateFromTheStart | src/networking/sessionServer.cpp:160-164 | a legal run of ten steps from the start, join included, that ends with the older of two scenes held |
| Confirmed.ConfirmedIsCovered | src/networking/sessionClient.cpp:108-132 | in every paired run, of what a connected client has had answered the server has taken that scene or a newer one |
| Confirmed.IdleHoldsNewest | src/networking/sessionServer.cpp:160-164 | for a connected client with nothing pending and nothing in flight, the scene held is the newest it submitted if and only if nothing sent after the request handled last was handled before it with another scene |
| Holding.ConfirmedWasTaken | src/networking/sessionClient.cpp:108-115 | a client that hears Ok for a request with a scene has had that scene taken by the server |
| Roster.RosterReplicates | src/networking/sessionServer.cpp:175-191 | replaying the log gives the live clients; folding all a client was told gives the roster at its version; nobody is reported joined twice |
| Roster.CatchUp | src/networking/sessionServer.cpp:178-191 | a full roster followed by the rest of the log folds to the whole log |
| Roster.FullRosterCovers | src/networking/sessionServer.cpp:178-184 | the version-0 reply reports exactly the live clients, once each |
| Roster.FullRosterInOrder | src/networking/sessionServer.cpp:178-184 | and in the order of their ids |
| Roster.AnswerGood | src/networking/sessionServer.cpp:175-191 | an Ok reply takes a reader at any version to a later version of the log, exactly |
| Roster.UpdateLogged | src/networking/sessionServer.cpp:222-244 | updates and leaves keep the log equal to the live clients when replayed, and only append to it |
| Roster.StepRoster | src/networking/sessionClient.cpp:124-125 | every step of a paired run keeps every client's told events equal to the log up to its version |
| Publishing.SnapshotsAdvance | src/networking/sessionServer.cpp:200-208 | the versions a client accepts strictly increase although replies are lost and repeated, and it holds exactly what was published under the last |
| Publishing.UpdateOffers | src/networking/sessionServer.cpp:200-208 | a snapshot goes out only if it is newer than anything sent to that client, and is then the newest published |
| EndToEnd.ClientShowsWhatWasPublished | src/networking/sessionClient.cpp:334-339 | after any life of a client's replicator from its construction, applying the snapshot the client holds shows, of what it does not own, exactly what the server showed when that version was published, and leaves what it owns as it was |
| ClientLives.EveryClientLife | src/networking/sessionClient.cpp:334-339 | through every life of a client's replicator (track, untrack, extras, binds, drops, scene changes, the server's snapshots) everything remote is in the last snapshot's list |
| ClientLives.BindExactly | src/networking/sceneReplicator.cpp:204-213 | a bind keeps that if and only if this process owns the id or the source's last snapshot named it |
| ClientLives.DropExactly | src/networking/sceneReplicator.cpp:322-337 | a drop keeps that if and only if it is not of the source while entities of others came from it |
| EndToEnd.PeersAreTheConnected | src/networking/peerSession.cpp:134-166 | over a session run and a peer session from its construction that was told what the client handed out, the peers are the roster's others with an endpoint, nothing of those reported gone is left, and once caught up the roster is who is connected |
| Ghosts.NoGhosts | src/networking/sessionServer.cpp:408-421 | in every interleaving, binds included, a client that is gone is waiting to be dropped or owns nothing, only such clients are dropped, and between two calls nothing of a dropped client is shown |
| Ghosts.OneCallSettles | src/networking/sessionServer.cpp:415-420 | whoever was gone when applyClientStates took the departed out has nothing left when that call ends, whatever happened in between |
| Ghosts.SettledForever | src/networking/sessionServer.cpp:229-244 | once gone and dropped, a client's entities never come back |
| Ghosts.ApplyKeeps | src/networking/sessionServer.cpp:410-413 | applying a scene held since before its sender went cannot leave an entity nobody will drop |
| Ghosts.BindExactly | src/networking/sceneReplicator.cpp:204-213 | binding an id keeps the no-ghost invariant if and only if the id's owner is not a client already gone and dropped |
| Ghosts.ApplyClientStates | src/networking/sessionServer.cpp:408-421 | the call is a history of the machine NoGhosts speaks of; whoever had departed owns nothing and shows nothing afterwards; when clients submit what they own, every other part of the view is what the owner's held scene makes of it, or what it was; both lists are emptied |
| Ghosts.CallIsHistory | src/networking/sessionServer.cpp:408-421 | draining, applying, swapping and dropping, with nobody in between, are moves of the machine one after the other, whatever order the scenes are drained in |
| Ghosts.CallParts | src/networking/sessionServer.cpp:408-421 | owner by owner, in whatever order the scenes are drained: nothing of the departed, of others what their scene makes of what was shown, or what was shown |
| Parts.PayloadParts | src/networking/sceneReplicator.cpp:263-320 | a snapshot of what its sender owns overwrites the sender's part of the view, takes away what it listed before and leaves out now, and changes nobody else's part or list |
| Parts.HubParts | src/networking/sceneReplicator.cpp:263-320 | owner by owner, the same of a source whose snapshots may name anyone's entities |
| Parts.PartIsSnapshot | src/networking/sceneReplicator.cpp:313-318 | when all that is shown of an owner was listed by the source, its part is afterwards exactly what the snapshot says of it |
| Parts.OwnPartStays | src/networking/sceneReplicator.cpp:273 | no snapshot of any content changes the part of the process itself |
| Parts.DropParts | src/networking/sceneReplicator.cpp:322-349 | a drop empties one owner's part and list and changes no other part |
| Ownership.ApplyBringsOwn | src/networking/sceneReplicator.cpp:263-320 | a payload of its sender's own entities brings in no entity of anyone else |
| Ownership.EncodeOwnedIsHonest | src/networking/sceneReplicator.cpp:215-218 | what encodeOwned writes decodes to entities the sender owns |
| Replication.ApplyShows | src/networking/sceneReplicator.cpp:263-320 | for any history and any number of sources: the snapshot overwrites the view, and what its source listed before and leaves out now is gone |
| Replication.LatestWins | src/networking/sceneReplicator.cpp:263-320 | with one source the remote view after a snapshot is exactly the snapshot, and what this process owns looks as it did |
| Replication.Converges | src/networking/sceneReplicator.cpp:263-320 | any sequence of snapshots leaves the view that its last one alone would leave on a fresh replicator |
| Reapplication.Reapplied | src/networking/sceneReplicator.cpp:263-320 | applying the snapshot a source sent last once more changes nothing at all: no component, texture, id map, counter or list of either the scene or the replicator |
| Replication.ApplySpares | src/networking/sceneReplicator.cpp:270-288 | entities that this process owns, that are not replicated, or that are neither in the snapshot nor in the source's previous one keep every component |
| Replication.TexturesStay | src/networking/sceneReplicator.cpp:298-306 | a local texture survives every snapshot that still gives the entity a shape |
| Replication.TrackFresh | src/networking/sceneReplicator.cpp:179-188 | a new id is this process's own, was not mapped, and lies above every local part used so far |
| Replication.UntrackKeeps | src/networking/sceneReplicator.cpp:190-197 | exactly the untracked entity leaves the view, with its extra bytes |
| Replication.SetExtraShows | src/networking/sceneReplicator.cpp:199-202 | extra bytes are shown with their entity from then on, and nothing else changes |
| Replication.BindKeeps | src/networking/sceneReplicator.cpp:204-213 | the two are mapped to each other, what either was mapped to is not, and no other mapping changes |
| Replication.DropShows | src/networking/sceneReplicator.cpp:322-349 | exactly the owner's entities leave the view, with their extra bytes; a process never drops its own |
| Replication.EncodeSays | src/networking/sceneReplicator.cpp:225-261 | in whatever order the map is walked, the snapshot names exactly the ids that the sender shows (and owns, when asked for owned ones only) and the receiver does not own, and says of each exactly what the sender shows |
| Replication.RecordCarries | src/networking/sceneReplicator.cpp:231-257 | an entity's record has the bit of a component if and only if the entity shows one, and then carries it |
| Replication.ViewReads | src/networking/sceneReplicator.cpp:231-257 | what is shown of an entity is its transform and, component by component, what its scene holds, less the local texture |
| Replication.EndToEnd | src/networking/sceneReplicator.cpp:215-320 | encoding, the bytes and applying give a single-source receiver exactly the sender's view |
| Replication.WriteShows | src/networking/sceneReplicator.cpp:290-307 | a written entity shows each component the record has and none it lacks, and no other entity changes |
| Replicators.SceneReplicator.ApplySnapshot | src/networking/sceneReplicator.cpp:263-320 | a malformed snapshot changes nothing; any other has exactly the effect of Apply |
| Replicators.SceneReplicator.Encode | src/networking/sceneReplicator.cpp:225-261 | the loop writes each entity to be sent once |
| Replicators.SceneReplicator.TrackEntity | src/networking/sceneReplicator.cpp:179-188 | the whole new state and the id are those of Track, of which TrackFresh speaks |
| Replicators.SceneReplicator.BindEntity | src/networking/sceneReplicator.cpp:204-213 | the whole new state is that of Bind, of which BindKeeps speaks |
| Replicators.SceneReplicator.Drop | src/networking/sceneReplicator.cpp:322-337 | the loops over the owner's ids and every source's list have exactly the effect of DropOwner |
| Replicators.SceneReplicator.ForgetAll | src/networking/sceneReplicator.cpp:339-349 | forgetting one by one, in any order, is forgetting the set |
| ReplicatorRuns.EveryLife | src/networking/sceneReplicator.cpp:179-213 | through every sequence of track, untrack, bind, apply, drop and scene changes the two maps stay inverse, and no id is handed out twice |
| ReplicatorRuns.HandedOutOnce | src/networking/sceneReplicator.cpp:183-184 | ids handed out have strictly increasing local parts, above all that were bound or used before |
| ReplicatorRuns.OwnedIsSafe | src/networking/sceneReplicator.cpp:273 | whatever is applied and whoever is dropped, an entity this process owns stays mapped and keeps every component |
| Scenes.Scene.DestroyEntity | src/entity.cpp:15-20 | the loop over the stores removes exactly this entity from every one |
| Scenes.DestroyOnly | src/entity.cpp:15-20 | destroyed entities leave no component behind and no other entity changes |
| Scenes.CreateFresh | src/entity.cpp:9-13 | a created entity is new and has no component |
| Scenes.Scene.Add | include/engine/entity.hpp:140-145 | fails on an unknown entity; otherwise the component is in the store of its type, made if need be |
| Scenes.PutOnly | include/engine/entity.hpp:140-145 | adding changes one component of one entity, and components stay with live entities |
| Scenes.Scene.Each | include/engine/entity.hpp:179-185 | called once for exactly the entities that have every component named |
| Snapshot.BinaryRoundTrip | src/networking/sceneReplicator.cpp:50-90 | a written snapshot reads back, and no proper prefix or extension of one is accepted |
| Snapshot.BinaryReproduced | src/networking/sceneReplicator.cpp:74-90 | every string that is accepted is exactly what its records are written as |
| SnapshotCodec.WriteBinary | src/networking/sceneReplicator.cpp:50-72 | the writing loop prints the layout of the format |
| Layouts.RecordLayout | src/networking/sceneReplicator.cpp:50-72 | which component of an entity stands at which offset, for every combination of optional ones |
| SnapshotCodec.ReadRecords | src/networking/sceneReplicator.cpp:74-90 | the reading loop accepts and yields exactly what the format's parser does |
| Protocol.JoinRequestCodec | src/networking/sessionProtocol.hpp:108-128 | round trip, and every proper prefix and extension is refused |
| Protocol.JoinReplyCodec | src/networking/sessionProtocol.hpp:130-147 | round trip, and every proper prefix and extension is refused |
| Protocol.UpdateRequestCodec | src/networking/sessionProtocol.hpp:149-179 | round trip, and every proper prefix and extension is refused |
| Protocol.UpdateReplyCodec | src/networking/sessionProtocol.hpp:181-226 | round trip, and every proper prefix and extension is refused |
| Protocol.SnapshotCodec | src/networking/sessionProtocol.hpp:228-244 | round trip, and every proper prefix and extension is refused |
| Layouts.JoinRequestLayout | src/networking/sessionProtocol.hpp:108-116 | which field stands at which offset |
| Layouts.JoinReplyLayout | src/networking/sessionProtocol.hpp:130-137 | which field stands at which offset, and the codes of kinds, statuses and changes |
| Layouts.MessageLayout | src/networking/sessionProtocol.hpp:79-89 | which field stands at which offset |
| Layouts.EventLayout | src/networking/sessionProtocol.hpp:188-195 | which field of a roster event stands at which offset |
| Layouts.UpdateRequestLayout | src/networking/sessionProtocol.hpp:149-162 | which field stands at which offset, with and without a scene |
| Layouts.UpdateReplyLayout | src/networking/sessionProtocol.hpp:181-200 | which field stands at which offset, with and without a snapshot |
| Layouts.SnapshotLayout | src/networking/sessionProtocol.hpp:228-235 | which field stands at which offset |
| Protocol.UpdateRequestReproduced | src/networking/sessionProtocol.hpp:164-179 | an accepted update request is what the encoder would write if and only if its flag byte is 0 or 1 |
| Flags.AnyFlagDecodes | src/networking/sessionProtocol.hpp:164-179 | a request with a scene decodes the same under every non-zero flag byte, and only one of these strings is what the encoder writes |
| Flags.RequestNotReproduced | src/networking/sessionProtocol.hpp:164-179 | an accepted request that the encoder does not write |
| Flags.UpdateReplyReproduced | src/networking/sessionProtocol.hpp:202-226 | an accepted update reply is what the encoder would write if and only if its flag byte is 0 or 1 |
| Flags.AnyReplyFlagDecodes | src/networking/sessionProtocol.hpp:202-226 | a reply with a snapshot decodes the same under every non-zero flag byte, and only one of these strings is what the encoder writes |
| Flags.ReplyNotReproduced | src/networking/sessionProtocol.hpp:202-226 | an accepted reply that the encoder does not write |
| Codec.EncodeUpdateRequest | src/networking/sessionProtocol.hpp:149-162 | the writer appends exactly the layout |
| Codec.ReadUpdateRequest | src/networking/sessionProtocol.hpp:164-179 | the sticky-failure reader accepts and yields exactly what the layout's parser does |
| Codec.EncodeUpdateReply | src/networking/sessionProtocol.hpp:181-200 | the writer appends exactly the layout |
| Codec.ReadUpdateReply | src/networking/sessionProtocol.hpp:202-226 | the sticky-failure reader accepts and yields exactly what the layout's parser does |
| Codec.GetMessages | src/networking/sessionProtocol.hpp:91-106 | the counted loop reads exactly the listed messages or fails |
| Wire.ByteReader.ReadUint | src/networking/byteCodec.hpp:52-60 | a read that runs out fails, stays failed and leaves the value; another takes exactly its bytes |
| Wire.ByteReader.ReadBytes | src/networking/byteCodec.hpp:62-70 | a run is taken whole or not at all |
| Wire.UintStable | src/networking/byteCodec.hpp:52-60 | a read that succeeds is not changed by bytes appended to the input |
| Layouts.UintByte | src/networking/byteCodec.hpp:17-25 | byte i of an integer on the wire has weight 256 to the i |
| Timelines.Timeline.SetSpeedMultiplier | src/timeline.cpp:103-119 | NaN and out of range are ignored; otherwise the speed is the multiplier in millionths, no timeline of the forest jumps, and 64-bit arithmetic computes this exactly when the products of the change fit |
| Timelines.Timeline.SetTicksPerSecond | src/timeline.cpp:121-138 | the rate changes and no timeline of the forest jumps, paused children and grandchildren included; for the node and for each child 64-bit arithmetic computes this exactly when its products fit |
| Timelines.Timeline.Pause | src/timeline.cpp:140-146 | the timeline stands still, no timeline of the forest jumps, and 64-bit arithmetic computes this exactly when what is banked fits |
| Timelines.Timeline.Unpause | src/timeline.cpp:148-154 | the timeline goes on from where it stood, no timeline of the forest jumps, and 64-bit arithmetic computes this exactly when what is banked fits |
| Timelines.Timeline.Derive | src/timeline.cpp:60-71 | a derived timeline joins the forest at tick zero and disturbs no other |
| Timelines.Timeline.Destroy | src/timeline.cpp:73-81 | a timeline without derived ones leaves the forest and disturbs no other |
| Timelines.Timeline.RootStartsAtZero | src/timeline.cpp:45-58 | a root timeline shows tick zero when it is made |
| Timelines.Advance | src/timeline.cpp:83-89 | when a root counter advances no timeline goes back, and paused ones and other trees stand still |
| Timelines.Settle | src/timeline.cpp:103-154 | if the changed timelines show the same for the source reading they had, all timelines show the same |
| Timelines.Timeline.RecomputeRate | src/timeline.cpp:169-179 | the rate is the exact fraction in lowest terms, and the remainder stays within it; 64-bit arithmetic computes exactly this when all three products fit, and overflows otherwise |
| Timelines.Timeline.BankAt | src/timeline.cpp:160-167 | the whole new state is that of Bank, of which BankInvisible and BankExact speak |
| Meters.BankInvisible | src/timeline.cpp:160-167 | banking, paused or not, does not change any later reading |
| Meters.BankAndRerateKeepNow | src/timeline.cpp:121-138 | banking and then changing the rate does not change the reading at that instant |
| Meters.NowMonotonic | src/timeline.cpp:83-89 | a reading never goes back |
| Meters.DriftBound | src/timeline.cpp:160-179 | over any run of banks, pauses and rate changes, banked time never exceeds the exact integral and falls short by less than the sum of 1/den over the rate changes; it is exact when there are none. Of the 64-bit code this holds as long as no intermediate overflows, the raw terms of each change included (MeterRanges.Drift64) |
| Meters.NowDriftBound | src/timeline.cpp:83-89 | the reading is the floor of the banked time carried on, so within one tick more of the exact integral. Of the 64-bit code this holds as MeterRanges.NowDrift64 says |
| MeterRanges.Run64Exact | src/timeline.cpp:160-179 | a run of banks, pauses and changes of rate, each change computed from its settings, gives in 64-bit arithmetic what the unbounded meter gives if and only if every product and sum fits, both raw terms and the rescaled remainder of each change included, and faults otherwise |
| MeterRanges.Drift64 | src/timeline.cpp:160-179 | the drift bound for the 64-bit run, exactly as long as it has not faulted |
| MeterRanges.NowDrift64 | src/timeline.cpp:83-89 | after a 64-bit run that has not faulted, a reading overflows exactly when the clock runs and banking there would, and otherwise keeps the bound of NowDriftBound |
| MeterRanges.RatesSuffice | src/timeline.cpp:160-179 | with counts that start at zero or above: if for each rate (den-1)*(num+1) fits, for each change both raw terms and (oldDen-1)*newDen, and the final count, the run never faults, however long |
| MeterRanges.SmallTermsInRange | src/timeline.cpp:169-179 | settings whose raw terms, and a rate whose terms, are at most 3037000499 are in that range |
| MeterRanges.SetRate64Exact | src/timeline.cpp:160-179 | a setter's bank and recomputation in 64 bits are exact if and only if the bank's results and the three products of the change fit |
| MeterRanges.SpeedChangeFaults | src/timeline.cpp:178 | a run of one change of speed that faults, and the part of a tick the unbounded meter holds after it |
| MeterRanges.RawProductFaults | src/timeline.cpp:173-174 | a run of one change of speed whose exact rate and rescaled remainder fit while the product of tick rate and speed does not: it faults |
| Readings.Read64Exact | src/timeline.cpp:83-89 | now() in 64 bits, with the readings of all its sources, is exact if and only if what each timeline up to the first paused one would bank fits |
| Rational.ScaleElapsedExact | src/timeline.cpp:31-35 | dividing first gives the exact quotient and remainder of (elapsed * num + remainder) / den |
| Rational.ScaleElapsed64Exact | src/timeline.cpp:28-35 | with 64-bit intermediates it succeeds with that result exactly when the named intermediates fit |
| Rational.ScaleElapsed64Bound | src/timeline.cpp:28-35 | if the result and (den-1)*(num+1) fit in 64 bits, every intermediate fits, for every elapsed time |
| Rational.MultiplyFirstOverflows | src/timeline.cpp:28-30 | an input for which multiplying first would overflow and this does not |
| Rational.RescaledRemainder | src/timeline.cpp:178 | a remainder rescaled to a new denominator stays below it, in unbounded integers |
| Rational.Rescale64Exact | src/timeline.cpp:178 | in 64 bits the rescaled remainder is exact if and only if remainder * newDen fits |
| Rational.Rescale64Always | src/timeline.cpp:178 | it is exact for every remainder below the old denominator if and only if (den - 1) * newDen fits |
| Rational.Recompute64Exact | src/timeline.cpp:169-179 | in 64 bits a change of rate gives the lowest terms and the rescaled remainder if and only if its three products fit |
| Rational.RescaleOverflows | src/timeline.cpp:178 | 60 ticks a second on a microsecond clock at speed 1.234567, set to 0.345679 after 13000 microseconds: the product does not fit, and wrapped around it would leave a negative remainder |
| Steppers.FrameRuns | src/timeline.cpp:192-213 | a frame runs exactly the newest min(pending, cap) ticks ending at the time it sampled, and the rest are dropped |
| Steppers.Accounting | src/timeline.cpp:192-221 | over any run of frames, ticks run and dropped add up to the time passed, and ticks are run once and in order |
| Steppers.NothingDropped | src/timeline.cpp:196-203 | while the backlog is within the cap nothing is dropped and every tick is run |
| Steppers.IndexBeforeSteps | include/engine/timeline.hpp:115-119 | the tick index before a frame's first step is the last frame's exactly when nothing is dropped |
| Steppers.Stepper.BeginFrame | src/timeline.cpp:192-203 | the clock is read once; the whole new state is that of Begin, of which FrameRuns speaks |
| Steppers.Stepper.Step | src/timeline.cpp:205-213 | one pending tick is run, or nothing changes |
| Simulation.SimulationThread.RunFrame | src/simulationThread.cpp:109-149 | tasks first, then exactly the newest ticks with their keyboards; a published frame carries the sampled time and the pause state, the books balance, and the whole frame is one frame of the run Frames speaks of |
| Simulation.SimulationThread.RunTasks | src/simulationThread.cpp:116-122 | a batch of tasks leaves the scene and the pause state its tasks make, the last accepted speed rounded to a millionth or else the speed it had, the tick rate it had, and the time shown as it was |
| Simulation.OneTask | src/simulationThread.cpp:84-98 | what each kind of task does to the scene, the pause state and the speed |
| Simulation.BatchesAdd | src/simulationThread.cpp:116-122 | a batch is its tasks one after the other, for scene, pause state and speed |
| Simulation.PlayedInOrder | src/simulationThread.cpp:133-138 | onTick is called once for each call, the first one first |
| Simulation.SimulationThread.RunTicks | src/simulationThread.cpp:133-138 | the loop calls onTick for exactly the stepper's ticks |
| Simulation.BooksBalance | src/simulationThread.cpp:133-138 | each tick is told the keyboard the one before it saw, indices increase, and ticks run and dropped account for the time since the start |
| Simulation.SubsystemRunner.RunSubsystemFrame | src/simulationThread.cpp:164-190 | paused: no callback, and what was due is discarded; otherwise exactly a frame's ticks |
| Frames.FramesAddUp | src/simulationThread.cpp:109-149 | over any run, ticks run plus dropped is the tick index less the start, and a clock last shown as paused still stands where that frame shows |
| Frames.FrozenUntilResumed | src/simulationThread.cpp:140-147 | after a frame shown as paused no tick is run until a task resumes, and frames in between show the same tick |
| Subsystems.SubsystemSafety | src/simulationThread.cpp:164-190 | in every interleaving no callback is in progress while paused, and each subsystem's ticks strictly increase over its whole life |
| Subsystems.NothingWhilePaused | src/simulationThread.cpp:175-182 | while paused no callback starts, even for ticks sampled before |
| Subsystems.FrameAlone | src/simulationThread.cpp:164-190 | a frame nobody disturbs is a legal interleaving and calls back for exactly the ticks RunSubsystemFrame calls back for |
| Peers.UpdatesKeep | src/networking/peerSession.cpp:134-166 | an update that starts with the peers in step with the roster leaves the peers exactly the roster's others with an endpoint and no entity of a peer reported gone |
| PeerRuns.EveryPeerLife | src/networking/peerSession.cpp:134-166 | from construction, whatever is published, tracked, bound, changed and updated in between: the roster is the fold of what was told, the peers are its others with an endpoint, and no entity of a peer reported gone is left |
| PeerRuns.EveryUpdateShows | src/networking/peerSession.cpp:134-166 | at every update of every life each owner's part is as UpdateParts says, and this process's own is as it was |
| PeerRuns.BindExactly | src/networking/sceneReplicator.cpp:204-213 | binding an id keeps those reported gone without entities if and only if the id's owner is this process or was not reported gone |
| Peers.PeersFollowRoster | src/networking/peerSession.cpp:138-154 | as long as nobody joins twice, roster and peers follow the events |
| Peers.LeftIsDropped | src/networking/peerSession.cpp:149-153 | no entity of a peer reported gone survives the events |
| Peers.PeerSession.ApplyUpdates | src/networking/peerSession.cpp:134-166 | events, then the server's snapshot, then each peer's newest scene once, in some order; when peers publish what they own, the part of every owner is then given outright: nothing of who left, else what the server's snapshot, whatever it carries, makes of it, and of a peer that stayed what its newest publication makes of that, if it decodes |
| Peers.UpdateParts | src/networking/peerSession.cpp:134-166 | that result owner by owner, the same for every order in which the peers are visited |
| Peers.StayersKeepLatest | src/networking/peerSession.cpp:138-154 | a peer that stays keeps what was heard of it and not yet taken, and one that is new has nothing |
| Peers.OwnStays | src/networking/peerSession.cpp:156-165 | whatever server and peers say, what this process owns is shown as it was |
| Peers.PeerSession.Leave | src/networking/peerSession.cpp:114-121 | leaving disconnects every peer, once |
| Animations.AnimationStore.AdvanceAnimations | src/animation.cpp:19-38 | every animation is advanced, once, by the whole delta, whatever its sign |
| Animations.AnimationStore.Carry | src/animation.cpp:25-36 | the carry loop ends and computes the carried animation |
| Animations.CarriedRests | src/animation.cpp:26-36 | what is left is less than the current frame takes, or the animation stands at its last frame; time that was not negative does not become so |
| Animations.EndsExactlyWhen | src/animation.cpp:26-36 | for durations and times of any sign the loop ends if and only if the animation does not loop, or a round takes time, or some frame of the first round takes longer than the time left when it comes up |
| Animations.OrdinaryEnds | src/animation.cpp:26-36 | with no negative duration or time the loop ends if and only if the animation does not loop or some frame takes time |
| Animations.TimelessLoopNeverEnds | src/animation.cpp:26-36 | a looping animation of two frames that take no time is carried for ever |
| Animations.AdvanceAdds | src/animation.cpp:19-38 | advancing by x and then by y, not negative, is advancing by the sum: exactly when looping, on the frame shown when not; if the sum can be advanced by, so can both |
| Animations.TimeConserved | src/animation.cpp:26-31 | a looping animation is where it was plus the time passed, less whole cycles |
| Animations.OnceConserves | src/animation.cpp:32-35 | one that does not loop loses time only by standing at its last frame |
| Animations.UniformShows | src/animation.cpp:7-17 | equally long frames: after time t frame floor(t / duration) is shown, counted round and round |

## Left out

- JSON snapshots: their reader and writer rest on a library that is not part of this model; what the JSON reader makes of a snapshot is a parameter of ApplySnapshot.
- Ghosts.ApplyClientStates: takes binary scenes only, for the same reason.
- Replicators.SceneReplicator.Encode: writes the binary form only, for the same reason.
- Sequence numbers, snapshot and roster versions, entity ids: unbounded; the 32-bit and 64-bit wrap-around of these counters is not modelled.
- Timelines.Timeline.SetSpeedMultiplier: a multiplier is NaN or a real number; infinities are out of range like any large number. A float times 10^6 is exact in double arithmetic (24 and 14 significant bits in 53), so no rounding is lost there.
- Timelines.Timeline.RecomputeRate: the method's own integers are unbounded; where the code's products overflow its behaviour is undefined, and the contract says only when that is.
- Meters.DriftBound: the same; MeterRanges.Drift64 is the bound with the range condition.
- Meters.NowDriftBound: the same; MeterRanges.NowDrift64 has the range condition.
- Rational.RescaledRemainder: the same; Rational.Rescale64Exact has the range condition.
- Replicators.SceneReplicator.TrackEntity: requires that the 2^24 local ids are not used up, which the original asserts; what a release build does beyond that is not modelled.
- Steppers.Stepper.BeginFrame: a negative step cap is not modelled.
- Animations.AnimationStore.AdvanceAnimations: float rounding is not modelled, and it requires that the loop ends for every animation and that current frames exist; EndsExactlyWhen says when the loop ends, and otherwise the original does not return.
- Simulation.SimulationThread.RunFrame: one method call is one instant of game time; time that passes between the tasks of one batch or between ticks is not modelled, except between frames. dt is not passed on and the speed is not published.
- Simulation.SubsystemRunner.RunSubsystemFrame: no other thread pauses the clock during a frame there, so one check stands for the check before each tick; Subsystems has the interleavings.
- Peers.PeerSession.Leave: the leave request its session sends is a step of Session, not part of this method.
- Sockets, threads and their joining, heartbeat and timeout periods, condition variables, logging: timeouts and lateness are nondeterministic; connected() is not modelled.
- SessionServer::stop(), which clears the clients without logging that they left: runs end there. roster() and stats() only read.
- advanceFrame(): it runs every subsystem's frame and then the simulation's; the two are modelled, the loop over subsystems is not.
- Exceptions thrown by tasks and callbacks, and starting and stopping the simulation's threads.
- physics, collision, rendering, input, window, log, texture and text caches: no hard property.
- std::any and type_index: a component carries its type, and each type has one store.
