# Verified model of the livelook SFU

livelook is a selective forwarding unit: browsers publish media over WebRTC, the server forwards the RTP packets
to `ffmpeg` transcoders over UDP, and a web page lists the sessions. This project models the server's stateful
core in Dafny and proves what it keeps over every run:

- **Ports and sessions.** A shared allocator hands UDP ports to participants, one per enabled codec. A participant
  can be closed by a `close_session` message, by a failed announcement, or by its own connection failing, any
  number of times and in any order; a re-join replaces a participant without closing it. A failing connection closes
  in two steps, since the router goroutine can handle a join between its release of the ports and its stop message.
  `Ports`, `Participants` and `Sessions` are the objects, with the fields and loops of the Go code. Every handler of
  `SessionsManager` is proved to perform exactly one event of `Lifecycle`, a state machine over plain values, except
  that offers and the publisher's candidates are no events: they change a transport and nothing `Lifecycle` sees.
  Every event is proved to be a run of `PortProtocol`, whose steps are single `Allocate` and `Deallocate` calls. The
  theorems about runs are in `PortProtocol` (all interleavings of closes with an allocation loop) and
  `LifecycleTheorems` (whole server runs); `LifecycleEffects` says field by field what each event does. `Servers` puts the router's messages and the peer connections' goroutines in
  front of a manager and keeps the whole history as such a run, so the theorems hold of the objects.
- **Codecs and the transcoder description.** `Codecs` is the process-wide codec cache, `TranscoderSdp` the session
  description built from it and from the allocated ports, `CodecTheorems` what a configuration enables and what a
  description says, against the list of the eight codecs.
- **Session rows.** `SessionRows` are the updates of the `sessions` table; `Pagination` lists them, with `Float64`
  for the floating-point page count.
- **Transcoder daemons.** `Transcoders` has any number of daemons whose handlers interleave at their locked phases.
  `EndToEnd` joins them to the messages a server run sends.
- **ICE candidates.** `IceBuffer` is the pending buffer under serial calls, `IceRace` the same buffer with the check,
  the append, the set and the flush as separate steps.
- **Images.** `IdPartition` cuts an ID into directory names, `ImagePaths` makes paths and addresses from them,
  `ImageObjects` are the three image classes with their cached partition.
- **Messages.** `Rpcs` parses and prints the RPC messages as JSON values, `Routers` dispatches them. `RpcReading` says
  which documents are read, as what, and which callback each causes; `Base64s` is the encoding behind packed offers.

`dafny verify dfyconfig.toml` checks the whole project.

The modelled code crashes in four places, and the model makes each a terminal state (`crashed`) and claims nothing past
it: a failing `NewParticipant` returns nil and `StartSession` calls `Close` on it; a candidate for the receiver is offered
to a transport that is never created; a track that arrives at a closed participant is written to a nil map; closing a
participant closes the connection of every stored track, which is nil until the track's goroutine has dialled it
(internal/rtc/mediatrack.go:61, 112).

Where the code does not keep a property it seems meant to keep, the code is modelled as it is and the exact condition is
proved:

- Starts and stops of a user's transcoder need not alternate. Over every run they do iff nobody joins while their last
  message is a start (`AlternationIff`). Two runs fail: a second join over an unclosed participant
  (`RejoinBreaksAlternation`), and a join after a failed connection released its ports and before it published its stop
  (`JoinDuringCloseBreaksAlternation`). `StartsAndStopsAlternate` gives a discipline over participants that suffices.
- A user with an open participant need not have a running transcoder. Over every run all such users have one throughout
  iff no stop is published for a user who still has an unclosed participant (`AlwaysRunningIff`). A late close frees no
  port and still publishes one, even under that discipline (`LateStopEndsTranscoder`).
- Closing a session need not free all the user's ports. It leaves some held iff a participant other than the room's held
  some before (`LeakIff`), which a re-join brings about (`RejoinLeaks`).
- Closing a session while the row update fails leaves a broadcasting row without a room iff the row was broadcasting
  (`OrphanIff`), which one join, one publish and one such close bring about (`FailedUpdateOrphans`).
- A transcoder that exits by itself stays in the pid map. A spawn keeps the records sound iff nobody else still holds its
  pid (`SpawnKeepsOwnPidsIff`). In runs of such spawns no stop kills another user's process (`KillsOnlyOwn`), so none
  does where pids are never reused (`NewPidsKillOnlyOwn`); any other spawn can be followed to such a kill
  (`ReuseKills`), and one is reachable from a fresh start (`ReusedPidIsKilled`).
- Under serial calls no candidate is held back once a remote description is set, iff no flush fails and no description is
  kept with an error while candidates wait (`ClearIff`). Otherwise a later candidate can overtake an earlier one
  (`KeptDescriptionReorders`).
- After the last completed flush a candidate is pending iff its call checked before any remote description was set and
  appended after that flush (`ResidueIff`), which any call can do (`RaceLeavesResidue`).
- An image object that is given another ID keeps answering with the cached path; the path is right iff the IDs are the
  same (`StaleCache`).
- A printed offer is parsed back iff its type name is, and its text is empty, not base64, or unpacks to itself
  (`ParsePrint`). A packed text is read as what it packs (`PackedTextIsLost`).
- A page of `GetAll` is the right stretch of the table iff its offset fits 64 bits or wraps around to one past the table
  (`RightPageIff`); a huge page number can repeat the first page (`HugePageRepeatsTheFirst`). This is about the function:
  its only caller asks for page 1 of 50.

## Model

| member | source | states |
|---|---|---|
| Ports.PortsAllocator.constructor | internal/rtc/ports_allocator.go:13-23 | the key set is exactly the half-open configured range, nothing is allocated |
| Ports.PortsAllocator.FindFree | internal/rtc/ports_allocator.go:29-34 | the search over the map finds a free port iff there is one, whatever the map order |
| Ports.PortsAllocator.Allocate | internal/rtc/ports_allocator.go:25-37 | fails iff no port is free; otherwise marks exactly one free port and returns it |
| Ports.PortsAllocator.Deallocate | internal/rtc/ports_allocator.go:39-43 | frees exactly that port |
| Ports.FreePlusTaken | internal/rtc/ports_allocator.go:8-11 | free plus allocated ports is the size of the map |
| Ports.ReleaseUndoesMark | internal/rtc/ports_allocator.go:25-43 | taking free ports and giving them back restores the allocator |
| PortProtocol.StepKeepsInv | internal/rtc/participant.go:92-116 | every single allocation, deallocation, begin, finish and close step keeps: marked iff owned, owners disjoint, key set fixed |
| PortProtocol.AllocatedIffOneOwner | internal/rtc/participant.go:277-315 | under every interleaving of building and closing steps a port is marked iff exactly one participant owns it |
| PortProtocol.OthersCannotFree | internal/rtc/participant.go:204-213 | no number of closes of other participants, early or late, frees a port of one that is not being closed |
| PortProtocol.ClosedStaysClosed | internal/rtc/participant.go:288-293 | a closed participant stays closed and its next close changes nothing |
| PortProtocol.Capacity | internal/rtc/ports_allocator.go:25-43 | in every interleaving, unclosed participants times payload types plus free ports never exceed the range |
| PortProtocol.LoopCannotRunDry | internal/rtc/participant.go:92-99 | with one participant's worth of free ports at its start, the allocation loop always finds its next port, whatever closes meanwhile |
| PortProtocol.TooFewPorts | internal/rtc/participant.go:94-97 | with fewer, and no port given back, the loop never finishes |
| Codecs.EqualFoldMeaning | internal/rtc/mediaengine.go:232-235 | two texts are equal under folding iff they agree character by character up to case |
| Codecs.IsCodecEnabled | internal/rtc/mediaengine.go:230-240 | true iff some entry of the configuration has the codec's MIME type and an empty or equal format line, in whatever order the map is visited |
| Codecs.SelectedMeaning | internal/rtc/mediaengine.go:134-202 | the enabled list is exactly the wanted entries of the available table, in table order, each once |
| Codecs.PayloadTypesDistinct | internal/rtc/mediaengine.go:109-195 | under every configuration no two enabled codecs share a payload type, across both kinds |
| Codecs.CacheAgrees | internal/rtc/mediaengine.go:95-212 | after any number of registrations, some of them refused midway, the global list is the direct computation |
| Codecs.AcceptedAll | internal/rtc/mediaengine.go:119-123 | an engine receives a prefix of the cached list, and all of it iff it refuses none |
| Codecs.CodecTable.RegisterAudioCodecs | internal/rtc/mediaengine.go:95-126 | fills the empty audio part, leaves a filled one, registers in order up to the first refusal |
| Codecs.CodecTable.AppendEnabledVideo | internal/rtc/mediaengine.go:198-202 | the appending loop computes the selection |
| Codecs.CodecTable.RegisterVideoCodecs | internal/rtc/mediaengine.go:128-212 | the same for video |
| Codecs.CodecTable.RegisterCodecs | internal/rtc/mediaengine.go:83-93 | one registration: audio first, video only if no audio codec was refused |
| CodecTheorems.VideoEnabledIff | internal/rtc/mediaengine.go:128-212 | the video codecs are exactly those of the seven listed ones that some entry names, with their payload types, rates and format lines |
| CodecTheorems.AudioEnabledIff | internal/rtc/mediaengine.go:95-126 | the audio codecs are opus iff some entry names it |
| CodecTheorems.NeedsIff | internal/rtc/participant.go:92-99 | a participant needs a port for a payload type iff some entry names its codec |
| CodecTheorems.OneEntryEnables | internal/rtc/mediaengine.go:230-240 | an entry without a format line enables every codec of its MIME type, one with a line those that share it |
| CodecTheorems.DefaultNeedsVp8 | internal/config/config.go:100-103 | the default configuration needs payload type 96 and no other |
| CodecTheorems.DescriptionIsExact | internal/rtc/participant.go:92-116 | every line has kind, name, payload type, clock rate, channels and format line of one enabled codec and the port held for it; every enabled codec has its line |
| CodecTheorems.LinesInNumbers | internal/rtc/participant.go:104-110 | video lines have rate 90000 and no channels, the audio line 48000 and one |
| TranscoderSdp.OrderFacts | internal/rtc/participant.go:92-93 | both visiting orders of the two-key codec map list the same distinct payload types |
| TranscoderSdp.SdpBijection | internal/rtc/participant.go:92-116 | for either order the media lines and the port map are in bijection, ports distinct, and every enabled codec has its line |
| TranscoderSdp.LinesNameTheirCodecs | internal/rtc/participant.go:101-110 | media kind, slash and trimmed codec name give back the codec's MIME type |
| TranscoderSdp.ForwardedAsAdvertised | internal/rtc/participant.go:258-269 | a track goes to an advertised port iff its payload type has a media line, and then to that line's port, or port zero is advertised |
| Participants.Participant.AllocateOne | internal/rtc/participant.go:94-114 | one turn of the loop takes a port, stores it under the payload type and appends the codec's line with it, or no port is free |
| Participants.Participant.AllocateFor | internal/rtc/participant.go:93-115 | the inner loop stops early iff no port is left |
| Participants.Participant.AllocatePorts | internal/rtc/participant.go:91-116 | the whole loop succeeds iff as many ports are free as codecs are enabled |
| Participants.CanBuildIff | internal/rtc/participant.go:55-138 | the stages succeed iff the outside calls do, the engine refuses no enabled codec and enough ports are free |
| Participants.EnoughPorts | internal/rtc/participant.go:94-97 | how far the loop came decides whether the ports were enough |
| Participants.NewParticipant | internal/rtc/participant.go:55-138 | a participant is built iff every stage succeeds, and its description is exact; a failure leaves marked exactly the ports taken up to it |
| Participants.Participant.Close | internal/rtc/participant.go:277-315 | crashes iff a stored track was not dialled; otherwise gives back exactly the ports it holds, nothing when already closed, both maps become nil, one stop message |
| Participants.Participant.CloseTracks | internal/rtc/participant.go:283-286 | the loop takes out every track, or crashes on one that was not dialled with some tracks left |
| Participants.Participant.ReleasePorts | internal/rtc/participant.go:288-290 | the loop over the port map frees exactly its values |
| Participants.Participant.OnMediaTrack | internal/rtc/participant.go:240-270 | the track is stored with the port of its payload type; on a closed participant it crashes |
| Participants.Participant.HandlePrimaryStateChange | internal/rtc/participant.go:204-214 | closes, or crashes as a close does, on a failed connection and does nothing on any other state |
| Participants.Participant.HandleOffer | internal/rtc/participant.go:165-194 | an offer for the publisher sets its remote description and succeeds iff it was accepted, flushed and answered; others change nothing |
| Participants.Participant.AddICECandidate | internal/rtc/participant.go:140-148 | a publisher candidate goes to the publisher transport, any other crashes |
| SessionRows.ChangeKeepsRowsOk | internal/core/sessions_repository.go:99-176 | every row change keeps: one row per user, media type set iff broadcasting, broadcasting rows online |
| SessionRows.ChangeMeaning | internal/core/sessions_repository.go:99-176 | what each change says about the user: online, on the air, present; nothing about others |
| SessionRows.ColumnsWritten | internal/core/sessions_repository.go:99-176 | the value of every modelled column of the user's row after each change |
| SessionRows.OthersUntouched | internal/core/sessions_repository.go:136-176 | other users' rows are exactly what they were, the user's keep identity and image, and rows are added only by a save |
| SessionRows.SessionsRepository.SaveSession | internal/core/sessions_repository.go:99-123 | the upsert: a new row with the next ID, or the existing row online |
| Sessions.Room.Join | internal/rtc/room.go:42-46 | the new participant replaces the old entry |
| Sessions.Room.Close | internal/rtc/room.go:91-105 | closes the host, with its crash if it has one, or reports that there is none and does nothing |
| Sessions.SessionsManager.constructor | internal/service/sessions_manager.go:37-71 | a new manager over any sound table is in an initial state |
| Sessions.SessionsManager.StartSession | internal/service/sessions_manager.go:73-117 | performs one join event, determined by the outcomes of the outside calls and by whether enough ports are free; a failure without a crash leaves every port as it was |
| Sessions.SessionsManager.CloseSession | internal/service/sessions_manager.go:141-167 | performs one close event and fails iff there is no room; or the event of a crash on an undialled track of the room's participant |
| Sessions.SessionsManager.PublishStream | internal/service/sessions_manager.go:169-189 | performs one publish event; succeeds iff there is a room and the row was written |
| Sessions.SessionsManager.StopStream | internal/service/sessions_manager.go:191-211 | performs one stop event |
| Sessions.SessionsManager.FindOrInitRoom | internal/service/sessions_manager.go:230-246 | the user's room, made empty if it did not exist |
| Sessions.SessionsManager.ConnectionStateChanged | internal/rtc/participant.go:204-214 | a connection failure of any participant ever built, however late, is one event: ports back and maps nil, or a crash on an undialled track |
| Sessions.SessionsManager.StopPublished | internal/rtc/participant.go:303-314 | the stop message of that failure is a later event |
| Sessions.SessionsManager.TrackArrived | internal/rtc/participant.go:258-269 | a track at any participant is one event, a crash when it is closed |
| Sessions.SessionsManager.HandleOffer | internal/service/sessions_manager.go:119-129 | reaches the transport of the participant in the user's room and nothing else, and reports whether it was accepted, flushed and answered |
| Sessions.SessionsManager.AddICECandidate | internal/service/sessions_manager.go:131-139 | a publisher candidate reaches that transport and is no event; a receiver candidate is one event, a crash iff there is a room |
| Servers.MessageEvents | internal/service/sessions_manager.go:61-68 | which event each method text causes for its sender, with the outcomes met |
| Servers.Server.Handle | internal/service/sessions_manager.go:61-68 | every router callback performs the event it stands for, and only that, with the history extended by it; offers and publisher candidates reach the transport of the user's participant |
| Servers.Server.Serve | internal/eventbus/router.go:57-159 | a message sequence extends the history by the events of its callbacks, in order; it stops early only when the process crashed or a close waits for a lock |
| Servers.Server.ConnectionChanged | internal/rtc/participant.go:204-214 | a peer connection's own goroutine extends the same history |
| Servers.Server.PortsOfTheObjects | internal/rtc/ports_allocator.go:8-43 | whatever the server has been through, a port of its allocator is marked iff exactly one participant object has it in its map |
| Servers.Server.MessagesOfTheBus | internal/rtc/participant.go:277-315 | the messages it has published alternate iff its history has no join after an unstopped start |
| Lifecycle.ReceiverCandidateCrashes | internal/rtc/participant.go:140-148 | a receiver candidate crashes iff the user has a room |
| Lifecycle.CloseIsTwoHalves | internal/rtc/participant.go:277-315 | a close by a handler is the release followed by the stop message |
| LifecycleEffects.StartEffect | internal/service/sessions_manager.go:73-117 | an announced newcomer holds its marked ports in its user's room; one that could not be announced is closed and every port is as before |
| LifecycleEffects.FailedStartEffect | internal/service/sessions_manager.go:78-103 | a failed save changes nothing; a failed construction leaves a saved row, a room and the ports taken |
| LifecycleEffects.CloseEffect | internal/service/sessions_manager.go:141-167 | a close frees exactly its participant's ports, empties its maps, removes the room, takes the row offline if written, and sends one stop |
| LifecycleEffects.FailureEffect | internal/rtc/participant.go:204-293 | a failed connection frees exactly its participant's ports and changes nothing else |
| LifecycleEffects.StopEffect | internal/rtc/participant.go:303-314 | the later stop message changes only the messages |
| LifecycleEffects.StreamEffect | internal/service/sessions_manager.go:169-211 | publishing and stopping change only the user's row, to broadcasting video or to idle |
| LifecycleEffects.TrackEffect | internal/rtc/participant.go:258-269 | a track changes only its participant's track map |
| LifecycleEffects.CrashIff | internal/service/sessions_manager.go:100-103 | exactly which events end the process |
| LifecycleRuns.EventRefines | internal/rtc/participant.go:92-116 | every handler event is a run of single allocate and deallocate steps |
| LifecycleRuns.EventKeepsInv | internal/service/sessions_manager.go:73-211 | every handler event keeps the ownership, room, participant and row invariants together |
| LifecycleRuns.RunKeepsInv | internal/service/sessions_manager.go:73-211 | so does every run |
| LifecycleTheorems.PortOwnership | internal/service/sessions_manager.go:73-117 | in every reachable state a port is allocated iff an unclosed participant holds it, no two share one, the key set is the range |
| LifecycleTheorems.StaleClosesFreeNothing | internal/service/sessions_manager.go:141-167 | over any run an unclosed participant keeps its ports and its description, and its ports stay allocated |
| LifecycleTheorems.Capacity | internal/rtc/ports_allocator.go:13-43 | free ports plus unclosed participants times enabled codecs is the range size |
| LifecycleTheorems.StartPossible | internal/rtc/participant.go:92-99 | the next start finds its ports iff one participant's worth is free |
| LifecycleTheorems.RoomForOneMore | internal/rtc/participant.go:92-99 | equivalently iff one more participant fits the range |
| LifecycleTheorems.RoomsAreOccupied | internal/rtc/room.go:97-100 | every room holds exactly its user's participant, so its missing-participant branch is unreachable |
| LifecycleTheorems.OnlyDisplacedLeak | internal/rtc/room.go:42-46 | after a session is closed, whatever of the user still holds ports was displaced by a re-join |
| LifecycleTheorems.LeakIff | internal/rtc/room.go:91-105 | a close leaves a participant of the user holding ports iff one other than the room's held some before |
| LifecycleTheorems.RejoinLeaks | internal/service/sessions_manager.go:105-105 | a join, a second join and a close leave the first participant's ports held and no room |
| LifecycleTheorems.AdvertisedPortsAreUsed | internal/rtc/participant.go:258-269 | over every run a track with an advertised payload type goes to the advertised port, which is allocated |
| LifecycleTheorems.DescriptionsOverRuns | internal/rtc/participant.go:92-116 | over every run each unclosed participant's description is exact for the configuration |
| LifecycleTheorems.RowsOverRuns | internal/core/sessions_repository.go:99-176 | over every run the row invariants hold and every room has an online row |
| LifecycleTheorems.BroadcastsHaveRooms | internal/service/sessions_manager.go:155-162 | from a table without broadcasting rows, while no row update at a close failed, every broadcasting row has a room |
| LifecycleTheorems.OrphanIff | internal/service/sessions_manager.go:155-162 | a close leaves a broadcasting row without a room iff the update failed and the row was broadcasting |
| LifecycleTheorems.FailedUpdateOrphans | internal/service/sessions_manager.go:155-162 | a run from a fresh start that leaves such a row |
| LifecycleTheorems.AppendMessage | internal/rtc/participant.go:133-135 | a message breaks the alternation iff it is a start and the user's last one was a start |
| LifecycleTheorems.AlternationIff | internal/rtc/participant.go:277-315 | over every run the messages alternate iff nobody joins while their last message is a start |
| LifecycleTheorems.StartsAndStopsAlternate | internal/service/sessions_manager.go:73-117 | without joins over open participants and lost stops, a stop lies between any two starts, and a user whose last message is a start has an open participant |
| LifecycleTheorems.RunningAfter | internal/rtc/participant.go:277-315 | after an event a user's last message is a start iff it was or is one now and no stop followed |
| LifecycleTheorems.PartsStayRunningIff | internal/rtc/participant.go:277-315 | an event keeps open participants running iff it publishes no stop for a user who still has one |
| LifecycleTheorems.AlwaysRunningIff | internal/rtc/participant.go:277-315 | over every run they are running in every state iff no stop along it is for such a user |
| LifecycleTheorems.LateStopEndsTranscoder | internal/rtc/participant.go:204-214 | a disciplined run in which a late failure of a closed participant ends its user's next transcoder |
| LifecycleTheorems.RejoinBreaksAlternation | internal/service/sessions_manager.go:105-105 | two joins in a row send two starts in a row |
| LifecycleTheorems.JoinDuringCloseBreaksAlternation | internal/rtc/participant.go:292-314 | a join between the release and the stop message of a failed connection sends two starts in a row |
| Transcoders.StepKeepsOwnPids | internal/transcode/daemon.go:198-234 | each handler phase with no reused pid keeps: a pid recorded or carried was last spawned by this daemon for that user |
| Transcoders.SpawnKeepsOwnPidsIff | internal/transcode/daemon.go:193-204 | a spawn keeps the pid records sound iff nobody else's record or handler holds its pid |
| Transcoders.KillsOnlyOwn | internal/transcode/daemon.go:216-234 | under every interleaving in which nobody is given a pid somebody else holds, no stop kills another user's process |
| Transcoders.NewPidsKillOnlyOwn | internal/transcode/daemon.go:216-234 | so it is in every interleaving in which each pid is given out at most once |
| Transcoders.ReuseKills | internal/transcode/daemon.go:216-234 | from every reachable state, a spawn with a pid somebody else holds can be followed to a kill of its process in that user's name |
| Transcoders.ReusedPidIsKilled | internal/transcode/daemon.go:202-210 | a run from a fresh daemon in which a stop kills another user's process |
| Transcoders.ActKeepsInv | internal/transcode/daemon.go:52-64 | message delivery and handler phases keep each user's records on at most one daemon |
| Transcoders.OneTranscoderPerUser | internal/transcode/daemon.go:52-64 | in disciplined runs at most one daemon records a user, iff the last message was a successful start, and every live process is recorded |
| Transcoders.DuplicateStopsChangeNothing | internal/transcode/daemon.go:213-222 | once a user is gone, further stops touch neither pid maps nor processes, in any interleaving |
| Transcoders.Daemon.StartTranscoder | internal/transcode/daemon.go:129-211 | the handler's phases in order: spawn, then record; a failed preparation changes nothing |
| Transcoders.Daemon.StopTranscoder | internal/transcode/daemon.go:213-245 | the handler's phases in order: read, kill, forget, with each way it can fail; an unknown user ends it |
| EndToEnd.AlternationIsDiscipline | internal/transcode/daemon.go:52-64 | delivering alternating messages one user at a time is a disciplined run |
| EndToEnd.OneTranscoderPerUser | internal/service/sessions_manager.go:73-167 | from a server run with alternating messages to the daemons: each user recorded at most once, iff the last message was a successful start, with no other live process |
| EndToEnd.ParticipantsHaveTranscoders | internal/service/sessions_manager.go:73-167 | while no stop is published for a user with an open participant, such a user has a recorded transcoder, unless its start failed at the daemon |
| EndToEnd.LiveTranscodersHaveParticipants | internal/service/sessions_manager.go:73-167 | under the discipline, a user with a live or recorded transcoder has an open participant |
| IceBuffer.PCTransport.AddICECandidate | internal/rtc/transport.go:112-125 | offered at once with a remote description, else appended to the buffer |
| IceBuffer.PCTransport.SetRemoteDescription | internal/rtc/transport.go:127-144 | the flush offers the buffer in order; an error leaves the buffer as it was, whether or not the connection kept the description |
| IceBuffer.ClearIff | internal/rtc/transport.go:112-144 | over every serial run nothing is held back after a description iff no flush fails and no description is kept with an error while candidates wait |
| IceBuffer.SerialOrder | internal/rtc/transport.go:112-144 | in such runs offered then pending are the arrivals in order, each once |
| IceBuffer.KeptDescriptionReorders | internal/rtc/transport.go:127-133 | a run with a description kept with an error in which a later candidate overtakes an earlier one |
| IceBuffer.Conservation | internal/rtc/transport.go:127-144 | in every serial run offered plus pending are the arrivals plus exactly what failed flushes offered |
| IceBuffer.NoRepeatsAfterFlush | internal/rtc/transport.go:135-141 | after a successful flush nothing is repeated or held back |
| IceRace.StepKeepsInv | internal/rtc/transport.go:112-144 | every atomic step keeps the invariant behind the next three |
| IceRace.NothingLost | internal/rtc/transport.go:112-144 | under every interleaving a returned call's candidate was offered or is pending |
| IceRace.PendingIff | internal/rtc/transport.go:119-122 | pending are exactly the candidates appended since the last completed flush |
| IceRace.ResidueIff | internal/rtc/transport.go:113-122 | after the last completed flush, pending are exactly those checked before any description was set and appended after that flush |
| IceRace.RaceLeavesResidue | internal/rtc/transport.go:113-122 | for every call there is such a run |
| IceRace.EachOnce | internal/rtc/transport.go:135-141 | without a failed flush every interleaving offers each candidate at most once |
| IdPartition.IdPartition | internal/core/image.go:146-175 | the loop with its early exit computes the partition; an error iff the ID is not positive |
| IdPartition.ReadDecimal | internal/core/image.go:153-153 | reading the decimal form gives the number back |
| IdPartition.DecimalRead | internal/core/image.go:153-153 | printing what was read gives the text back unless it starts with a zero |
| IdPartition.PartsFacts | internal/core/image.go:146-175 | parts of three digits and a last one of one to three, at least three of them, at most seven for 64 bits; joined they are the padded ID |
| IdPartition.StemBound | internal/core/image.go:130-136 | a directory holds at most 1110 different file stems, for any set of IDs |
| IdPartition.SubdirectoryBound | internal/core/stream_image.go:130-131 | and at most 1000 subdirectories |
| IdPartition.BoundIsMet | internal/core/image.go:146-175 | every stem of one to three digits occurs in one and the same directory |
| IdPartition.SubdirectoryBoundIsMet | internal/core/image.go:146-175 | every subdirectory of three digits occurs in one and the same directory |
| IdPartition.PaddingOnlyToNine | internal/core/image.go:153-153 | below 10^9 an ID has three parts of three digits; above, the parts are its decimal form cut up |
| ImagePaths.ExtMeaning | internal/core/image.go:125-125 | the extension is the text from the last dot of the last path element, or nothing |
| ImagePaths.EveryNameSplits | internal/core/image.go:125-125 | every name is of one of those two forms |
| ImagePaths.StoredExtension | internal/core/image.go:116-128 | a stored file ends in the extension it was uploaded with |
| ImagePaths.PathShape | internal/core/image.go:116-136 | a path is the prefix, the parts with slashes, and a suffix from an underscore on |
| ImagePaths.PathNamesId | internal/core/image.go:116-136 | the ID can be read back from the path, whatever the file name and whatever follows |
| ImagePaths.PathsDiffer | internal/core/image.go:116-128 | under one prefix different IDs never share a path |
| ImagePaths.FileIsNoDirectory | internal/core/image.go:116-136 | a saved file's path is never a directory that any ID needs |
| ImagePaths.AddressNamesId | internal/core/image.go:108-114 | the served address names the ID |
| ImagePaths.StaleCache | internal/core/user_profile_image.go:69-74 | a cached partition of another ID gives the right path iff the IDs are equal |
| ImageObjects.AddressText | internal/core/stream_image.go:98-104 | the two kinds of address written out |
| ImageObjects.DirectoriesServed | internal/core/stream_image.go:12-14 | the upload directories are the served prefixes below the static directory |
| ImageObjects.Store | internal/core/image.go:80-105 | the part all uploads share: what is cached, made, written and reported for each outcome |
| ImageObjects.UserProfileImage.UploadHandle | internal/core/user_profile_image.go:50-96 | fields and disk after each way an upload can end; after a success with an empty or matching cache the stored file is the one served, and names the ID |
| ImageObjects.UserProfileImage.Path | internal/core/user_profile_image.go:108-120 | the path names the ID the object answers for, cached or its own; none iff it has neither |
| ImageObjects.UserProfileImage.Dir | internal/core/user_profile_image.go:123-129 | the directory the path lies in, given whenever the path is |
| ImageObjects.UserProfileImage.URL | internal/core/user_profile_image.go:99-105 | so does the address |
| ImageObjects.StreamImage.UploadHandle | internal/core/stream_image.go:50-95 | the same as for profile images, under the session's ID |
| ImageObjects.StreamImage.URL | internal/core/stream_image.go:98-104 | the address names the ID the object answers for |
| ImageObjects.Image.HandleUpload | internal/core/image.go:61-106 | the same under configured directories |
| ImageObjects.Image.URL | internal/core/image.go:108-114 | the address names the ID the object answers for |
| RpcReading.ReadIff | internal/eventbus/rpc/rpc_methods.go:56-140 | exactly which documents are read, and which of the refused have an unknown method |
| RpcReading.ReadContent | internal/eventbus/rpc/rpc_methods.go:68-139 | for every document that is read, the message with each of its arguments |
| RpcReading.EmptyIsRead | internal/eventbus/rpc/rpc_methods.go:57-73 | each of the nine methods is read without parameters, its arguments empty |
| RpcReading.AbsentHeadIsNull | internal/eventbus/rpc/rpc_methods.go:46-66 | an absent field of the head reads like a null or an empty one |
| RpcReading.AbsentParamIsNull | internal/eventbus/rpc/rpc_methods.go:70-73 | so does an absent parameter, except the type of a description |
| RpcReading.PrintedKeys | internal/eventbus/rpc/sdp_rpc.go:50-52 | printed messages carry version, method and arguments under the names that are read |
| Rpcs.ParsePrint | internal/eventbus/rpc/rpc_methods.go:56-140 | for all message kinds, parsing undoes printing iff type names are read back and an offer's text is empty, not base64, or unpacks to itself |
| Rpcs.PlainTextIsNotBase64 | internal/eventbus/rpc/rpc_methods.go:89-95 | text starting `v=0` is never valid base64 |
| Base64s.TestIsExact | internal/eventbus/rpc/rpc_methods.go:90-95 | the base64 test accepts exactly the texts that decode |
| Base64s.EncodedIsValid | internal/eventbus/rpc/rpc_methods.go:90-95 | every encoding passes it and decodes to its bytes |
| Rpcs.PlainDescriptionSurvives | internal/eventbus/rpc/rpc_methods.go:83-114 | so printed descriptions with such text are parsed back |
| Rpcs.PackedOffer | internal/eventbus/rpc/rpc_methods.go:89-114 | an offer sent packed is parsed as the offer with its text unpacked |
| Rpcs.PackedTextIsLost | internal/eventbus/rpc/rpc_methods.go:89-114 | an offer whose own text is packed comes back with another text |
| Rpcs.ParsedIsWellMade | internal/eventbus/rpc/rpc_methods.go:68-139 | a parsed message has the concrete type of its method and version 2.0, whatever version came in |
| Rpcs.ReadingIsStable | internal/eventbus/rpc/sdp_rpc.go:50-52 | a message that survives printing is a fixed point of print and parse |
| Routers.Router.Dispatch | internal/eventbus/router.go:79-144 | a message with the type of its method fails no conversion and makes exactly the callback it asks for |
| Routers.Router.Start | internal/eventbus/router.go:57-159 | for every message sequence no conversion fails and the callbacks made are the ordered image of the messages handled, one for each readable message that is no answer; only an unregistered callback stops it |
| RpcReading.MethodCalls | internal/eventbus/router.go:79-144 | for every readable document, which callback its method text causes, with sender and arguments |
| RpcReading.MethodCallbacks | internal/eventbus/router.go:79-144 | and which registration that callback needs |
| Routers.OneCallPerRequest | internal/eventbus/router.go:57-144 | unreadable messages and answers make no call, every other message makes one |
| Routers.ImageAppend | internal/eventbus/router.go:68-145 | the image of two sequences in a row is the two images in a row |
| Routers.SentIsCalled | internal/eventbus/router.go:167-184 | printed requests posted in envelopes each cause exactly one callback, in order, with the sender's identity and arguments |
| Float64.CeilingIsExact | internal/core/sessions_repository.go:65-65 | below 2^53 the ceiling of any nearest floating-point quotient is the whole-number ceiling |
| Float64.WholeIsExact | internal/core/sessions_repository.go:65-65 | a whole number below 2^53 is converted to itself |
| Float64.NearestExists | internal/core/sessions_repository.go:65-65 | every quotient of whole numbers below 2^53 has a nearest representable number |
| Pagination.FirstFifty | internal/core/sessions_repository.go:51-56 | page 0 of size 0 is the first 50 rows; other numbers stand for themselves |
| Pagination.RefusedIff | internal/core/sessions_repository.go:80-84 | a listing is refused iff its size or its 64-bit offset is negative |
| Pagination.TotalPagesExact | internal/core/sessions_repository.go:65-65 | the number of pages shown is the number of pages there are |
| Pagination.DivisionHasResults | internal/core/sessions_repository.go:65-65 | so the conversions and the division always have results to speak about |
| Pagination.PagesPartitionTheTable | internal/core/sessions_repository.go:65-81 | the pages shown, put together, are the whole table, no row missed or repeated, none empty |
| Pagination.RightPageIff | internal/core/sessions_repository.go:79-81 | every page is its stretch of the table iff the offset fits 64 bits or wraps around to one past the table |
| Pagination.NothingAfterTheLastPage | internal/core/sessions_repository.go:80-80 | past the last page there is nothing, iff the same |
| Pagination.HugePageRepeatsTheFirst | internal/core/sessions_repository.go:80-80 | a page number whose offset wraps around repeats the first page |
| Pagination.ShowAll | internal/core/sessions_repository.go:86-92 | every row gets the address of its own image; one row without a positive ID fails the listing |
| Pagination.GetAll | internal/core/sessions_repository.go:50-97 | defaults, errors, window and page count of one listing |

## Left out

- The HTTP handlers, templates, authentication, logging, telemetry and command-line programs: no deep state. The session gauge drifts on re-joins and is not modelled.
- RTP forwarding, the PLI ticker and the bot: library calls and socket I/O.
- The WebRTC library, NATS, Redis, Postgres and `ffmpeg` are outcomes given as parameters: a call succeeds or fails, a message is delivered, a description is accepted, a candidate of a flush is refused, a stored track has been dialled, a kill works. Pids are fresh where a theorem says so.
- `StartPublish`, `StopPublish` of a participant, `Room.StopStream`, `Subscribe`, `Unsubscribe` and the manager's `Close` do nothing in the source and are not modelled.
- The receiver direction: its transport is never created; what is modelled is the crash of a candidate for it.
- Participants.Participant.HandleOffer: the answer that follows an accepted offer is one outcome.
- Connection failures while a participant is still being built: its peer connection has no remote description before `NewParticipant` returns, so the model lets only built participants fail. Two handlers of the manager never overlap, because one router goroutine calls them. In `Lifecycle` the two steps of a failing connection fall between handlers; one that falls inside a handler has the effect of one before or after it, because a handler publishes at most one start and then at most one stop. Failures between the single port operations of a handler are in `PortProtocol`. What needs the lock a closing participant holds waits for it.
- Transcoders.OneTranscoderPerUser: assumes disciplined runs, in which a user's handlers do not overlap, a stop lies between two starts, nobody is given a pid somebody else holds, and a kill removes the process. The files a daemon writes and removes are not modelled.
- EndToEnd.OneTranscoderPerUser: assumes that the bus delivers the messages in the order they were published.
- Timestamps of rows, viewer counts and the columns no handler reads. `updated_at` enters a listing only as the order of its snapshot, and an image address only as the text of a time stamp.
- `SetOnline` is not modelled: no handler calls it. `Save` with a title, an image node or an image name of its own does not occur in the modelled handlers.
- Pagination.GetAll: the count and the rows are one snapshot each, and a NULL title that would fail the scan is not modelled. The page count is claimed for totals and page sizes below 2^53; the conversion of a larger quotient to an integer is not.
- Float64.CeilingIsExact: exponents are unbounded; quotients of these numbers never leave the range of a double.
- ImageObjects.Image.URL: the address pattern has a place for the path and then one for the time stamp, as the source's two constants do; patterns without them are not covered.
- The bytes of an uploaded file and of its truncation; multipart parsing is an outcome.
- Rpcs.ParsePrint: messages are JSON values, not bytes. Keys that differ only in case, duplicate keys, invalid UTF-8, negative zero and what follows the first document are outside the model. The base64 test is exact, unpacking is a parameter with the law stated in `PackedOffer`, and so is how the WebRTC library reads a type name.
- Servers.Server.Serve: the outcomes of the outside calls are given with each message. Callbacks of the peer connections fall between messages, not inside a callback.
- Routers.Router.Start: the order in which the bus delivers messages is the given sequence, and a stop request ends it. Errors a callback returns are only logged, so they are not part of the trace.
