# Flakkari: a verified model

Flakkari is an authoritative UDP game server. This project models its state machines and its wire format in Dafny and
proves what they keep. `dafny verify dfyconfig.toml` checks everything.

Code that works by changing things step by step is a class or a method with loops here, and each such method is proved
to have the effect of a function on values. What the program promises is then proved about those functions, over all
inputs and all runs.

- **Registry** (`SparseArrays`, `Registry`, `RegistryClass`): component storage that refines a plain map, and the entity
  allocator.
- **Wire format** (`Bytes`, `Packet`, `PayloadStream`, `Components`, `ComponentStream`, `StreamReader`, `PacketFactory`,
  `ClientApi`, `UserEvents`): headers, typed payloads, component streams, batches and user events, with both clients'
  encoders and a reader written from the layout alone.
- **Game session** (`Client`, `GameModel`, `Game`): admission, removal, broadcasts, the enemy spawner, and the consuming
  and sending of packets; and each of these cell by cell and packet by packet (`PacketContents`, `PlayerChanges`,
  `EnemySpawn`, `Movement`).
- **Replication and transport** (`Synchronizer`, `SynchronizerClass`, `SceneFacts`, `Replication`, `GameRuns`,
  `EnemyCap`, `Transport`, `TransportRuns`, `Delivery`, `ExampleClient`): what a client can rebuild from the packets it is
  sent.
- **Matchmaking, sessions and the server step** (`Matchmaking`, `MatchmakingRuns`, `RoomOutcomes`, `GameManager`,
  `Sessions`, `SessionRuns`, `ClientManager`, `Server`, `ServerOutcomes`, `UDPServer`), who is lost or kept when somebody
  leaves (`Departures`), and the server with a world for each instance, fed with what the server receives (`Hosting`,
  `HostedRuns`).
- **Smaller pieces** (`PacketQueue`, `Collisions`, `Buffer`): interleavings of the locked queue, exact collision tests
  over the reals, run-length and hex coding.

## How it fits together

`GameModel` is the game as a state and its transitions. `Game.State()` maps the game object to that state, and every
method of `Game` ends in the state the transition gives. `Replication.After` is one step of a run (a join, a leave, the
enemy system, an arriving packet, a frame's check, consuming or sending, or a system that only changes component
values), and `GameRuns` and `Delivery` prove the theorems over all runs. The history a theorem speaks of (packets already
sent, datagrams, where a player's log began) is part of the state and never read by the program.

`Servers.Step` composes the client manager and the game manager as `handlePacket` does. A run of the server is shown to
be a run of each manager, which carries their theorems over; that a client is offered at most once then follows from
each client object being new. `Hosting` puts a game state of `GameModel` behind every instance of the game manager and
lets server events and steps of instances alternate: what holds of one game then holds of every instance of a server.
A packet the client manager queues to a player arrives in the world the player is in, and nothing else arrives there.

Addresses are pairs of IP and port. Time is a parameter: one clock reading for each step, and one time stamp for the
packets built in it. Random positions, the outcome of the spawner's timer and the float arithmetic of moving and looking
are parameters too. Floats are opaque 32-bit patterns, but reals in `Collisions`.

## What turned out false

- `checkDisconnect` kills an entity and then has `removePlayer` kill it again; `GameRuns.DroppingBreaksTheAllocator`. A
  run of a game ends there, a run of the server goes on without claims about that instance's scene.
- An emptied instance takes the last instance off the list, whichever that is; `Departures.SecondPlayerIsLost` is a
  run, and `Matchmaking.LeavingLosesNobodyElse` says exactly when nobody else is lost.
- An emptied instance that never ran ends the process when it is destroyed; `Departures.LonePlayerEndsServer` is a run,
  and `Servers.DepartureIsSurvived` says exactly when a departure is survived.
- A client that waits cannot leave the queue, and a lost client at its front blocks it; `Matchmaking.WaitingCannotLeave`,
  `MatchmakingRuns.LostFrontBlocks`.
- A client whose game has left the store keeps playing after a disconnect or a ban; `Departures.ClosedGameKeepsItsPlayer`
  is a run, and `Servers.LeaverPlaysNowhere` says exactly when a leaver still plays.
- The Unity client's reader of moves reads further than the server writes, so every move throws;
  `Synchronizers.MovedThrows`. The rest of the replication survives it: `GameRuns.ReplayEqualsScene`.
- The example client drops what is left of a datagram at the first exception; `ExampleClients.SpawnIsLost` is a run, and
  `ExampleClients.ExampleClientSeesScene` says what a datagram must not hold.
- The Unity client's connection request carries no length prefix; `Sessions.BareNameIsNotWelcomed`.
- Run-length coding loses runs beyond 255; `Buffers.RunLengthRoundTrip`. The box test reports flat boxes;
  `Collisions.FlatBoxReported`.
- User events beyond the 4096-byte receive buffer are lost; `UserEvents.EventsArrive`.
- Section 3.1 of docs/RFC.txt and Flakkari/Protocol/Header.hpp disagree on the header; the code is followed.

## Model

| member | source | states |
|---|---|---|
| `GameRuns.ReplayEqualsScene` | Flakkari/Server/Game/Game.cpp:469-535 | after any run, for a player who joined and stayed connected: a client that handles every packet queued to it since then ends with exactly the entities with a transform and a tag other than Skybox, ids recycled or not; exactly the MOVED packets throw on the way, each of a known entity, so it gets there without an exception if and only if nothing moved |
| `GameRuns.StepSync` | Flakkari/Server/Game/Game.cpp:147-206 | one step: a player in line stays in line if and only if it is connected or nothing appeared or disappeared |
| `GameRuns.RunKeeps` | Flakkari/Server/Game/Game.cpp:435-453 | over any run of frames, up to one in which checkDisconnect finds a lost player, the allocator, the list of players and the visibility of their entities stay as they should, and players in line who stay connected stay in line |
| `GameRuns.CheckDisconnectIsQuiet` | Flakkari/Server/Game/Game.cpp:208-221 | checkDisconnect does nothing if and only if every player is connected, and then it is the step Check of a run, which ends otherwise |
| `Replication.NewcomerSynced` | Flakkari/Server/Game/Game.cpp:484-511 | CONNECT and the spawns that follow bring a newcomer exactly in line with the scene |
| `Replication.JoinSync` | Flakkari/Server/Game/Game.cpp:493-508 | when somebody joins, another player stays in line if and only if it is connected |
| `GameRuns.LeaveSync` | Flakkari/Server/Game/Game.cpp:520-532 | when somebody leaves, another player stays in line if and only if it is connected |
| `GameRuns.EnemyStep` | Flakkari/Server/Game/Game.cpp:50-65 | when spawn_enemy runs, a player stays in line if and only if it is connected or nothing was spawned |
| `Replication.ReplayVisible` | Flakkari/Server/Game/Game.cpp:184-206 | the packets of sendAllEntitiesToPlayer add the visible entities below the bound, without the player's own, whatever the client knew before |
| `Replication.BroadcastSync` | Flakkari/Server/Game/Game.cpp:147-182 | a packet that changes the client's set brings a player in line if and only if the player hears it |
| `Replication.BroadcastQuiet` | Flakkari/Server/Game/Game.cpp:147-182 | a packet that changes nothing for the client leaves it in line, heard or not |
| `Replication.JoinGood` | Flakkari/Server/Game/Game.cpp:469-512 | admission keeps live and dead ids apart and every player seated on a visible entity of its own |
| `GameRuns.LeaveGood` | Flakkari/Server/Game/Game.cpp:514-535 | removal keeps them too |
| `GameRuns.MoveQuiet` | Flakkari/Server/Game/Game.cpp:223-256 | an update always names an entity that every client in line knows |
| `GameRuns.IncomingQuiet` | Flakkari/Server/Game/Game.cpp:379-407 | consuming packets shows and hides nothing and leaves every player in line |
| `GameRuns.OutgoingQuiet` | Flakkari/Server/Game/Game.cpp:409-433 | so does sending |
| `GameRuns.SimulateQuiet` | Flakkari/Server/Game/Game.cpp:43-48 | so does any system that changes component values in place |
| `GameRuns.StartIsGood` | Flakkari/Server/Game/Game.cpp:111-145 | a freshly loaded scene is a good start for all of the above |
| `GameRuns.DroppingBreaksTheAllocator` | Flakkari/Server/Game/Game.cpp:208-221 | checkDisconnect kills the entity twice: afterwards no set of live ids fits the allocator, and two later spawns in a row get the same id |
| `EnemyCap.EnemiesAreCapped` | Flakkari/Engine/EntityComponentSystem/Systems/Systems.cpp:161-240 | if players are not tagged Enemy, no mix of turns of the game and deaths of any entities, with ids handed out again, takes a scene of at most ten enemies beyond ten |
| `EnemyCap.EquipEnemies` | Flakkari/Engine/EntityComponentSystem/Systems/Systems.cpp:229-231 | a template adds at most one enemy, and none unless its tag says so |
| `SceneFacts.EquipCell` | Flakkari/Server/Game/Game.cpp:486 | a template's last entry of a type wins and other entities keep theirs |
| `SceneFacts.EquipVisible` | Flakkari/Server/Game/Game.cpp:482-486 | equipping a bare entity from a template with transform and tag shows exactly that entity |
| `SceneFacts.RetireVisible` | Flakkari/Engine/EntityComponentSystem/Registry.cpp:40-46 | killing an entity hides it and no other |
| `Synchronizers.RebuildsAppend` | Libraries/Flakkari4Unity/Runtime/Synchronizer.cs:18-24 | what two stretches of packets lead to is what the second leads to from where the first ended |
| `Synchronizers.ReplayNeedsStillness` | Libraries/Flakkari4Unity/Runtime/Synchronizer.cs:18-24 | where only moves throw, a client that stops at the first exception gets through if and only if no packet is a move, and then knows what one that goes on knows |
| `Synchronizers.ThrowsAt` | Libraries/Flakkari4Unity/Runtime/Synchronizer.cs:18-24 | where only moves throw, the i-th packet throws if and only if it is a move, and a move is of an entity known by then |
| `Synchronizers.SpawnAdds` | Libraries/Flakkari4Unity/Runtime/API.cs:74-84 | a SPAWN packet built by the server is read back as its id, for names and components of any length |
| `Synchronizers.ConnectAdds` | Libraries/Flakkari4Unity/Runtime/API.cs:34-44 | a CONNECT packet built by the server is read back as its id |
| `Synchronizers.DestroyRemoves` | Libraries/Flakkari4Unity/Runtime/API.cs:92-96 | a DESTROY packet removes exactly its entity |
| `Synchronizers.MovedThrows` | Libraries/Flakkari4Unity/Runtime/API.cs:98-122 | every MOVED packet of the server throws in the reader, and of a known entity for its length alone |
| `Synchronizers.MovedIsTooShort` | Libraries/Flakkari4Unity/Runtime/API.cs:98-122 | every MOVED payload of the server has 72 bytes, while the Unity reader reads 80 |
| `SynchronizerObjects.Synchronizer.Enqueue` | Libraries/Flakkari4Unity/Runtime/Synchronizer.cs:13-16 | to the end |
| `SynchronizerObjects.Synchronizer.Update` | Libraries/Flakkari4Unity/Runtime/Synchronizer.cs:18-24 | draining the action queue handles the packets in order up to the first that throws: the dictionary reached, that packet gone, those behind it left for the next call |
| `SynchronizerObjects.Synchronizer.UpdateEachFrame` | Libraries/Flakkari4Unity/Runtime/Synchronizer.cs:18-24 | called frame after frame it handles every packet whatever throws, and meets no exception if and only if the plain replay succeeds |
| `SynchronizerObjects.Synchronizer.Invoke` | Libraries/Flakkari4Unity/Runtime/API.cs:74-122 | one packet does to the dictionary what Apply says, and an exception leaves it alone |
| `SynchronizerObjects.Synchronizer.AddEntity` | Libraries/Flakkari4Unity/Runtime/Synchronizer.cs:26-39 | a known id keeps its entity |
| `SynchronizerObjects.Synchronizer.RemoveEntity` | Libraries/Flakkari4Unity/Runtime/Synchronizer.cs:41-48 | removal takes away one entry, or nothing |
| `Games.Game.AddPlayer` | Flakkari/Server/Game/Game.cpp:469-512 | refuses, throws or admits exactly as the state machine does, and leaves the game in the admitted state |
| `Games.Game.RemovePlayer` | Flakkari/Server/Game/Game.cpp:514-535 | the new state is that of the state machine; false and nothing changed for a stranger |
| `Games.Game.SendOnSameScene` | Flakkari/Server/Game/Game.cpp:147-182 | each connected player of the scene, but the one left out, gets the packet once and in its own version |
| `Games.Game.SendAllEntitiesToPlayer` | Flakkari/Server/Game/Game.cpp:184-206 | the loop over the transforms queues one spawn for each visible entity but the player's own |
| `Games.Game.HandleEvents` | Flakkari/Server/Game/Game.cpp:317-377 | the events and axis events of the payload lead through exactly the poses of the state machine, with one update for each |
| `Games.Game.MoveTo` | Flakkari/Server/Game/Game.cpp:223-256 | the pose is written back and the scene told |
| `Games.Game.UpdateIncomingPackets` | Flakkari/Server/Game/Game.cpp:379-407 | each connected player's first twenty packets are consumed in order |
| `Games.Game.ConsumeSome` | Flakkari/Server/Game/Game.cpp:388-405 | the inner loop: up to twenty packets of one player |
| `Games.Game.UpdateOutcomingPackets` | Flakkari/Server/Game/Game.cpp:409-433 | each connected player's first twenty packets leave in one datagram to its address |
| `Games.Game.SpawnEnemies` | Flakkari/Server/Game/Game.cpp:50-65 | the system and its callback do what the state machine says, in every branch |
| `Games.LoadScene` | Flakkari/Server/Game/Game.cpp:111-145 | the loaded registry is the scene that gives each entity the next id and its template |
| `Games.SearchSpawner` | Flakkari/Engine/EntityComponentSystem/Systems/Systems.cpp:199-212 | the loop finds the first entity that is a skybox with transform, box, timer and template |
| `Games.CountEntities` | Flakkari/Engine/EntityComponentSystem/Systems/Systems.cpp:161-181 | the loop counts exactly the entities with the tag |
| `Games.RegistryEntityByTemplate` | Flakkari/Server/Game/Game.cpp:486 | one add_component for each component of the template, in order |
| `Games.VisibleBelowNext` | Flakkari/Server/Game/Game.cpp:190-195 | the size of the transform array is a high enough bound for what can be visible |
| `Games.MovesSum` | Flakkari/Server/Game/Game.cpp:337-376 | handling two stretches of poses is handling the second in the state after the first |
| `PlayerChanges.PlayerJoins` | Flakkari/Server/Game/Game.cpp:469-512 | addPlayer refuses a client that plays, a full game and a client that is not connected, throws without an id left, and else: the client is the last player, on the next id, with the last component of each kind of the player template; every other cell stays; it is sent CONNECT and then the scene, and each other connected player of the scene is told once, by name and without components |
| `PlayerChanges.SceneIsTold` | Flakkari/Server/Game/Game.cpp:184-206 | a newcomer gets one SPAWN for each entity with a transform and a tag other than Skybox, without its own, in order of id, each under its tag and with all its components read back from the bytes |
| `PlayerChanges.PlayerLeaves` | Flakkari/Server/Game/Game.cpp:514-535 | removePlayer empties the cells of the entity and no other, keeps the order of the others, and tells each connected player of the scene once |
| `EnemySpawns.EnemySpawnsExactly` | Flakkari/Engine/EntityComponentSystem/Systems/Systems.cpp:183-240 | once triggered, the spawner's timer restarts now with its old span, and an enemy appears if and only if fewer than 10 entities carry the tag Enemy: on the next id, the last component of each kind of the template, its transform at the position drawn with the template's rotation and scale; every other cell stays, and each connected player of the scene is told once of the entity as it now is |
| `EnemySpawns.NothingSpawns` | Flakkari/Engine/EntityComponentSystem/Systems/Systems.cpp:183-223 | without the types registered, an entity that drives the system, or its time come, nothing changes |
| `SceneFacts.LastOfIsLast` | Flakkari/Server/Game/Game.cpp:486 | what a template leaves under a kind is its last entry of that kind |
| `SceneFacts.SceneCells` | Flakkari/Server/Game/Game.cpp:111-145 | the i-th entity of the scene gets the id i and the last component of each kind of its template |
| `Movements.OneEventDoes` | Flakkari/Server/Game/Game.cpp:258-315 | one event of direction 0 to 5 puts the pose of the physics into the movable and transform cells if and only if moveLeft, moveRight, moveUp, moveDown, moveFront or moveBack, in this order, is set; every other cell stays; each hearer is sent one packet with that pose either way; other ids change and send nothing |
| `Movements.OneAxisDoes` | Flakkari/Server/Game/Game.cpp:354-376 | axis 7 with lookRight and axis 8 with lookUp set the pose of the physics and send one packet to each hearer; any other axis event does nothing |
| `Movements.NothingToMove` | Flakkari/Server/Game/Game.cpp:317-326 | without a control, movable or transform on its entity a player moves nothing |
| `Movements.EventsInTurn` | Flakkari/Server/Game/Game.cpp:336-352 | a packet of many events does what its first event does alone and then what the rest do |
| `Movements.AxesInTurn` | Flakkari/Server/Game/Game.cpp:354-376 | so do the axis events |
| `Movements.OneConsumed` | Flakkari/Server/Game/Game.cpp:388-405 | one packet off the receive queue: events are handled, a heartbeat is answered in its version, anything else is dropped |
| `PacketContents.MovedTells` | Flakkari/Server/Game/Game.cpp:223-256 | a MOVED packet holds, at the offsets of its 72 bytes, the id, position, rotation, scale, velocity and acceleration |
| `PacketContents.SpawnTells` | Flakkari/Server/Game/Game.cpp:184-206 | a SPAWN packet holds the id, the name, and the components as the reader of the layout rebuilds them |
| `PacketContents.ConnectTells` | Flakkari/Server/Game/Game.cpp:493-500 | a CONNECT packet holds the id, the template and the scene |
| `PacketContents.DestroyTells` | Flakkari/Server/Game/Game.cpp:524-532 | a DESTROY packet holds the id |
| `PacketContents.BroadcastTells` | Flakkari/Server/Game/Game.cpp:147-182 | each connected player of the scene, without the one left out, gets exactly one packet, in its own version; nobody else gets any |
| `Delivery.ClientSeesScene` | Libraries/Flakkari4Unity/Runtime/API.cs:149-166 | end to end: what the client splits out of its datagrams, followed by what is still queued, leads to exactly the visible scene, exactly the MOVED packets throwing on the way, if no payload sent was beyond 16 bits |
| `ExampleClients.CutIsExact` | Libraries/Flakkari4Unity/Examples/NetworkClient.cs:60-111 | a datagram handled up to its first exception leads where the whole datagram leads if and only if what comes behind its first move changes nothing in the end |
| `ExampleClients.ExampleClientSeesScene` | Libraries/Flakkari4Unity/Examples/NetworkClient.cs:60-111 | the example client, which drops the rest of a datagram at an exception, ends with the visible scene if no datagram brings or takes an entity behind a move |
| `ExampleClients.SpawnIsLost` | Libraries/Flakkari4Unity/Examples/NetworkClient.cs:60-111 | a run in which a player joins in the frame of a move and the example client never learns of it |
| `Delivery.BatchesAreExact` | Flakkari/Server/Game/Game.cpp:409-433 | in every run, what a version 1 player recovers from its datagrams, one to twenty packets in each, is what left its queue, if and only if no payload was beyond 16 bits |
| `Transport.RecoversWhatWasSent` | Libraries/Flakkari4Unity/Runtime/API.cs:149-166 | the client recovers exactly the packets sent, in order, if and only if each is of version 1 with a command in range and its true length |
| `Transport.TidyIsRecovered` | Flakkari/Protocol/Packet.hpp:166-172 | for packets built by the operators that comes down to their payload lengths |
| `Transport.FlushedCarries` | Flakkari/Server/Game/Game.cpp:418-431 | one more frame keeps the datagrams a partition of what was sent, one to twenty packets each |
| `Delivery.HeartbeatsAreConserved` | Flakkari/Server/Game/Game.cpp:397-404 | over any run the replies queued plus the requests waiting are the earlier ones plus the requests received, version for version and in order |
| `Delivery.BacklogShrinks` | Flakkari/Server/Game/Game.cpp:379-407 | without arrivals k frames leave the last max(0, n - 20k) of the n packets waiting for a connected player |
| `Delivery.QueueDrains` | Flakkari/Server/Game/Game.cpp:409-433 | over any run with k frames of sending, a connected player with n packets queued is sent at most 20k packets and at least min(n, 20k); if nothing is queued meanwhile max(0, n - 20k) are left |
| `Delivery.StepKept` | Flakkari/Server/Game/Game.cpp:379-433 | no step but an arrival loses, adds or reorders heartbeats or sent packets of a player |
| `TransportRuns.HeartbeatKept` | Flakkari/Server/Game/Game.cpp:397-404 | one heartbeat consumed is one reply queued to the same player |
| `TransportRuns.IncomingInboxes` | Flakkari/Server/Game/Game.cpp:385-391 | a frame takes up to twenty packets off each connected player's queue and touches no other |
| `ClientApi.SplitIsExact` | Libraries/Flakkari4Unity/Runtime/API.cs:149-166 | the splitter succeeds if and only if the datagram is a concatenation of readable packets, and returns exactly those |
| `ClientApi.ReadFirst` | Libraries/Flakkari4Unity/Runtime/Protocol_V1.cs:452-477 | a packet at the front of a datagram is read back if and only if it is readable |
| `ClientApi.ReadIsFront` | Libraries/Flakkari4Unity/Runtime/Protocol_V1.cs:452-477 | whatever is read was the front of the datagram |
| `ClientApi.ReadAgainstServer` | Libraries/Flakkari4Unity/Runtime/Protocol_V1.cs:452-477 | client and server accept the same packets but for version 0 and priorities above CRITICAL, which C# never refuses |
| `ClientApi.Reply` | Libraries/Flakkari4Unity/Runtime/API.cs:149-166 | the loop returns the commands, sequence numbers and payloads of the split, or throws where it fails |
| `ClientApi.SerializePacket` | Libraries/Flakkari4Unity/Runtime/Protocol_V1.cs:431-443 | the array holds the serialisation of the packet, with the length cast to 16 bits |
| `ClientApi.SerializeHeader` | Libraries/Flakkari4Unity/Runtime/Protocol_V1.cs:408-416 | the twelve bytes are the header's encoding |
| `ClientApi.ServerReadsWritten` | Libraries/Flakkari4Unity/Runtime/Protocol_V1.cs:431-443 | the server reads what C# writes if and only if priority and command are in range, and the payload is whole if and only if it is below 64 KiB |
| `ClientApi.ConcatByteArrays` | Libraries/Flakkari4Unity/Runtime/API.cs:168-174 | the result is the first array followed by the second |
| `Packets.SerializeThenDeserialize` | Flakkari/Protocol/Packet.hpp:166-198 | a packet followed by anything is read back if and only if its header is in range and states its length |
| `Packets.DeserializeThenSerialize` | Flakkari/Protocol/Packet.hpp:181-198 | whatever is accepted re-serialises to the prefix it was read from |
| `Packets.ReceivedRoundTrip` | Flakkari/Network/Socket.cpp:324-342 | through the zero-padded 4096-byte receive buffer exactly the framed packets of at most 4096 bytes arrive |
| `Packets.HeaderRoundTrip` | Flakkari/Protocol/Header.hpp:94-104 | the twelve bytes determine the header |
| `Packets.HeaderLayout` | Flakkari/Protocol/Header.hpp:94-104 | priority in the low half of the first byte and version in the high one, then command, length and sequence number |
| `Bytes.LowByteFirst` | Flakkari/Protocol/Packet.hpp:86-97 | the lowest byte of a value comes first |
| `Bytes.LowHalfFirst` | Flakkari/Protocol/Packet.hpp:86-97 | and the low half of a wide value before its high half |
| `Packets.HeaderWriteBack` | Flakkari/Protocol/Header.hpp:94-104 | every twelve bytes are some header's encoding |
| `Packets.Packet.Append` | Flakkari/Protocol/Packet.hpp:86-97 | the bytes go to the end and the 16-bit length wraps |
| `Packets.Packet.Extract` | Flakkari/Protocol/Packet.hpp:109-123 | the first bytes are taken off, or it throws and nothing changes |
| `Packets.Packet.InjectString` | Flakkari/Protocol/Packet.hpp:132-139 | a 32-bit prefix and the characters go to the end |
| `Packets.Packet.ExtractString` | Flakkari/Protocol/Packet.hpp:147-159 | a prefixed string is taken off, or it throws or reads too far |
| `Packets.Packet.Serialize` | Flakkari/Protocol/Packet.hpp:166-172 | header and payload |
| `Packets.Packet.Deserialize` | Flakkari/Protocol/Packet.hpp:181-198 | accepts exactly what the checks allow; a rejected buffer leaves the payload but not the header |
| `PayloadStreams.OperationsKeepConsistent` | Flakkari/Protocol/Packet.hpp:86-159 | contentLength is the payload size modulo 65536 after every operation |
| `PayloadStreams.PayloadIsQueue` | Flakkari/Protocol/Packet.hpp:86-159 | any interleaving of writes and matching reads behaves as a first-in first-out queue of typed values |
| `PayloadStreams.WriteThenRead` | Flakkari/Protocol/Packet.hpp:86-159 | any list of values and strings, written and then read with the same types, comes back and leaves the payload empty |
| `PayloadStreams.StringRoundTrip` | Flakkari/Protocol/Packet.hpp:132-159 | a string comes back if and only if its size survives the cast to int |
| `PayloadStreams.WriteAllAppends` | Flakkari/Protocol/Packet.hpp:86-139 | writing a list appends its encoding and keeps the header but for the length |
| `ComponentStreams.StreamIsUniquelyDecodable` | Flakkari/Protocol/Engine/PacketFactory.hpp:298-312 | two entities produce the same bytes if and only if they have the same sent components with the same sent fields, for strings of any length and any subset of components |
| `ComponentStreams.DecodeStream` | Flakkari/Protocol/Engine/PacketFactory.hpp:298-312 | the tag-dispatched decoder reads back every entity's stream |
| `ComponentStreams.WireDetermines` | Flakkari/Protocol/Engine/PacketFactory.hpp:38-288 | two components of a kind write the same bytes if and only if their sent fields agree |
| `StreamReaders.EntityReads` | Flakkari/Protocol/Engine/PacketFactory.hpp:298-312 | a reader with the numeric tags and the members by name, in the order of the source, rebuilds every sent component of every entity from its stream, in the order sent |
| `StreamReaders.ComponentReads` | Flakkari/Protocol/Engine/PacketFactory.hpp:38-288 | it rebuilds one component of any kind, whatever follows |
| `ComponentStreams.OrderIsComplete` | Flakkari/Protocol/Engine/PacketFactory.hpp:298-312 | the three passes write every kind but Spawned, each once |
| `PacketFactories.AddComponentsToPacketByEntity` | Flakkari/Protocol/Engine/PacketFactory.hpp:298-312 | the packet ends in the entity's component stream, and the registry looks unchanged |
| `PacketFactories.AddCommonsToPacketByEntity` | Flakkari/Protocol/Engine/PacketFactory.hpp:38-132 | the same for the common components |
| `PacketFactories.Add2dToPacketByEntity` | Flakkari/Protocol/Engine/PacketFactory.hpp:142-200 | the same for the 2D components |
| `PacketFactories.Add3dToPacketByEntity` | Flakkari/Protocol/Engine/PacketFactory.hpp:210-287 | the same for the 3D components |
| `UserEvents.WalkReadsBack` | Flakkari/Server/Game/Game.cpp:328-376 | the server's offset walk reads exactly the events and axis events encoded, in order |
| `UserEvents.EventsArrive` | Flakkari/Client/UDPClient.cpp:60-84 | through framing, receive buffer and walk the events arrive if and only if the frame fits 4096 bytes |
| `UserEvents.ReadEvents` | Flakkari/Server/Game/Game.cpp:328-376 | the walk by pointer arithmetic stays inside the payload or gives up |
| `UserEvents.ReqUserUpdates` | Flakkari/Client/UDPClient.cpp:60-84 | the C++ client builds that frame; nothing at all for two empty lists |
| `UserEvents.CsReqUserUpdates` | Libraries/Flakkari4Unity/Runtime/API.cs:124-140 | the C# client builds the same payload |
| `UserEvents.SerializeEvents` | Libraries/Flakkari4Unity/Runtime/Protocol_V1.cs:327-337 | two bytes an event |
| `UserEvents.SerializeAxes` | Libraries/Flakkari4Unity/Runtime/Protocol_V1.cs:339-351 | five bytes an axis event |
| `Registries.RegistryRefinesMap` | Flakkari/Engine/EntityComponentSystem/Registry.hpp:84-200 | any sequence of operations gives the answers and the contents of a plain map from type and entity to value, so growth on read and re-creation are invisible |
| `Registries.StepRefines` | Flakkari/Engine/EntityComponentSystem/Registry.hpp:84-200 | each single operation does |
| `Registries.CellsAfter` | Flakkari/Engine/EntityComponentSystem/Registry.hpp:138-168 | adding writes one cell, removing empties one, killing empties those of the entity, and a spawn takes the first of the dead or else the counter |
| `Registries.TypeRegisteredMeansTouched` | Flakkari/Engine/EntityComponentSystem/Registry.hpp:104-114 | isRegistered on a type holds if and only if the type was ever added to or read, which the map cannot show |
| `Registries.KillIsKill` | Flakkari/Engine/EntityComponentSystem/Registry.cpp:40-46 | killing erases the entity's components of every type |
| `Registries.AllocatorRun` | Flakkari/Engine/EntityComponentSystem/Registry.cpp:25-46 | in every run that kills and equips only live entities, live and dead ids partition those handed out and no id is dead twice |
| `Registries.SpawnIsFresh` | Flakkari/Engine/EntityComponentSystem/Registry.cpp:25-36 | a spawned id was not live and has no component of any type |
| `Registries.ReuseIsFifo` | Flakkari/Engine/EntityComponentSystem/Registry.cpp:25-46 | in every run the ids reused, followed by those still dead, are the deaths in order |
| `Registries.KillNeedsLive` | Flakkari/Engine/EntityComponentSystem/Registry.cpp:40-46 | killing keeps the partition if and only if the entity is live |
| `Registries.AddNeedsLive` | Flakkari/Engine/EntityComponentSystem/Registry.hpp:138-142 | adding a component keeps it if and only if the entity is live |
| `Registries.DoubleKillDuplicates` | Flakkari/Engine/EntityComponentSystem/Registry.cpp:40-46 | killing twice makes the allocator hand out the id twice in a row |
| `RegistryObjects.Registry.SpawnEntity` | Flakkari/Engine/EntityComponentSystem/Registry.cpp:25-36 | the oldest dead id, else the counter, else an exception |
| `RegistryObjects.Registry.KillEntity` | Flakkari/Engine/EntityComponentSystem/Registry.cpp:40-46 | every erase function runs, in any order, and the id joins the dead |
| `RegistryObjects.Registry.GetComponents` | Flakkari/Engine/EntityComponentSystem/Registry.hpp:193-200 | the type's array, created if it is missing or empty |
| `RegistryObjects.Registry.GetAt` | Flakkari/Engine/EntityComponentSystem/Registry.hpp:225-228 | the cell, after growing the array |
| `RegistryObjects.Registry.AddComponent` | Flakkari/Engine/EntityComponentSystem/Registry.hpp:138-142 | the value is stored and the type has its erase function |
| `RegistryObjects.Registry.EmplaceComponent` | Flakkari/Engine/EntityComponentSystem/Registry.hpp:153-157 | likewise |
| `RegistryObjects.Registry.RemoveComponent` | Flakkari/Engine/EntityComponentSystem/Registry.hpp:165-168 | the cell is emptied |
| `RegistryObjects.Registry.RegisterComponent` | Flakkari/Engine/EntityComponentSystem/Registry.hpp:176-185 | an array that is still empty is created again |
| `RegistryObjects.Registry.IsRegistered` | Flakkari/Engine/EntityComponentSystem/Registry.hpp:84-95 | whether the entity has the component |
| `RegistryObjects.Registry.IsTypeRegistered` | Flakkari/Engine/EntityComponentSystem/Registry.hpp:104-114 | whether the array exists and is not empty |
| `RegistryObjects.Registry.Clear` | Flakkari/Engine/EntityComponentSystem/Registry.cpp:16-23 | an empty registry |
| `SparseArrays.SparseArray.At` | Flakkari/Engine/EntityComponentSystem/SparseArrays.hpp:73-79 | reading past the end grows the array with empty cells |
| `SparseArrays.SparseArray.InsertAt` | Flakkari/Engine/EntityComponentSystem/SparseArrays.hpp:117-124 | one cell is set, no other changes |
| `SparseArrays.SparseArray.EmplaceAt` | Flakkari/Engine/EntityComponentSystem/SparseArrays.hpp:151-158 | one cell is set, no other changes |
| `SparseArrays.SparseArray.Erase` | Flakkari/Engine/EntityComponentSystem/SparseArrays.hpp:165-169 | one cell is emptied, nothing past the end |
| `SparseArrays.SparseArray.GetIndex` | Flakkari/Engine/EntityComponentSystem/SparseArrays.hpp:177-186 | the first cell that holds the component, or the size |
| `MatchmakingRuns.RunWithinLimits` | Flakkari/Server/Game/GameManager.cpp:113-208 | in every reachable state a game has at most maxInstances instances, each with at most maxPlayers distinct players |
| `MatchmakingRuns.EveryClientInOnePlace` | Flakkari/Server/Game/GameManager.cpp:113-208 | if each client is offered once, it is in at most one place: one slot of one instance, or one waiting slot |
| `MatchmakingRuns.QueueIsFifo` | Flakkari/Server/Game/GameManager.cpp:178-203 | over any run those waiting, followed by those who joined the queue, are those admitted from it followed by those still waiting: the queue never drops a client |
| `MatchmakingRuns.LostFrontBlocks` | Flakkari/Server/Game/GameManager.cpp:194-202 | as long as the client at the front stays away nobody is admitted |
| `Matchmaking.DropsOnlyDuplicates` | Flakkari/Server/Game/GameManager.cpp:194-202 | the queue loses its front without an admission if and only if that client is connected and already plays in the very instance with the free seat |
| `Matchmaking.QueueNeverDrops` | Flakkari/Server/Game/GameManager.cpp:194-202 | with one place for each client that cannot happen, and the admitted client plays |
| `Matchmaking.LeavingLosesNobodyElse` | Flakkari/Server/Game/GameManager.cpp:172-177 | when a client leaves, everybody else keeps a place if and only if an emptied instance was the last one or the last one had nobody in it |
| `Departures.SecondPlayerIsLost` | Flakkari/Server/Game/GameManager.cpp:172-177 | a run of four requests, each survived, after which a player who did nothing has no place any more |
| `Servers.DepartureIsSurvived` | Flakkari/Server/Game/Game.cpp:34-39 | a departure is survived if and only if no instance that never ran is taken off the list: its destructor joins a thread that was never started |
| `Departures.LonePlayerEndsServer` | Flakkari/Server/Game/Game.cpp:34-39 | a run from the start in which the only player of a game that waits for more disconnects, which ends the process |
| `Matchmaking.WaitingCannotLeave` | Flakkari/Server/Game/GameManager.cpp:158-208 | leaving ends play, but a client that only waits stays in the queue |
| `Matchmaking.EnterWithin` | Flakkari/Server/Game/GameManager.cpp:133-155 | entering keeps the limits |
| `Matchmaking.ExitWithin` | Flakkari/Server/Game/GameManager.cpp:167-205 | leaving keeps them |
| `Matchmaking.EnterOnce` | Flakkari/Server/Game/GameManager.cpp:133-155 | a client who is not in the room gets at most one place |
| `Matchmaking.ExitOnce` | Flakkari/Server/Game/GameManager.cpp:167-205 | leaving gives nobody a second place |
| `Matchmaking.EnterStarts` | Flakkari/Server/Game/GameManager.cpp:145-152 | instances start in time and none before its time |
| `Matchmaking.ExitStarts` | Flakkari/Server/Game/GameManager.cpp:167-205 | leaving never leaves an instance idle that should run |
| `Matchmaking.DroppedWithin` | Flakkari/Server/Game/Game.cpp:208-221 | a player dropped by checkDisconnect leaves its instance within the limits |
| `Matchmaking.DroppedOnce` | Flakkari/Server/Game/Game.cpp:208-221 | it gives nobody a second place |
| `RoomOutcomes.EntryGoes` | Flakkari/Server/Game/GameManager.cpp:133-155 | who enters plays in the last instance if that has a free seat, in a new one if not and one may be added, and else waits; it is turned away if and only if it is not connected, plays there, or no seat exists |
| `RoomOutcomes.ExitGoes` | Flakkari/Server/Game/GameManager.cpp:167-205 | who leaves is off its instance, the others keep their order; an emptied instance takes off the last; above the minimum the front of the queue is seated if and only if it is connected, not seated there, and there is room, and it is off the queue if and only if it is connected |
| `RoomOutcomes.StrangerLeaves` | Flakkari/Server/Game/GameManager.cpp:167-207 | who plays nowhere changes nothing by leaving |
| `RoomOutcomes.StoreShrinks` | Flakkari/Server/Game/GameManager.cpp:178-192 | a game leaves the store if and only if a player leaves, more than the minimum stay in that instance, nobody waits, and its removal was asked for |
| `RoomOutcomes.StoreGrows` | Flakkari/Server/Game/GameManager.cpp:59-102 | 0, 1 or 3, and what is noted |
| `GameManagers.GameManager.AddClientToGame` | Flakkari/Server/Game/GameManager.cpp:113-156 | the four maps afterwards, and the answer, are those of the state machine |
| `GameManagers.GameManager.RemoveClientFromGame` | Flakkari/Server/Game/GameManager.cpp:158-208 | the maps and the answer are those of the transition, early returns included, and whether the instance taken off the list could be destroyed |
| `GameManagers.GameManager.AddGame` | Flakkari/Server/Game/GameManager.cpp:59-76 | 0, 1 or 3, and the store |
| `GameManagers.GameManager.RemoveGame` | Flakkari/Server/Game/GameManager.cpp:94-102 | only the request is noted |
| `GameManagers.GameManager.GetIndexInWaitingQueue` | Flakkari/Server/Game/GameManager.cpp:218-232 | the first position of the client, or -1 if and only if the game is unknown or the client does not wait |
| `GameManagers.GameManager.IsClientWaiting` | Flakkari/Server/Game/GameManager.cpp:210-216 | despite its name true if and only if the game is unknown or nobody waits |
| `Sessions.BansArePermanent` | Flakkari/Server/Client/ClientManager.cpp:17-154 | the list of bans only grows |
| `Sessions.BansAreEffective` | Flakkari/Server/Client/ClientManager.cpp:17-83 | after a ban no client of that IP is added, kept alive or replaced |
| `Sessions.BannedEntriesExpire` | Flakkari/Server/Client/ClientManager.cpp:70-83 | a banned client's entry is gone for good after the first inactivity check five seconds past its last activity |
| `Sessions.WarningsStayBelowFive` | Flakkari/Server/Client/ClientManager.cpp:113-154 | in every run each registered client whose IP is not banned has fewer than five warnings |
| `Sessions.CheckDrops` | Flakkari/Server/Client/ClientManager.cpp:70-83 | an inactivity check drops exactly the clients silent for at least 5000 milliseconds |
| `Sessions.ConnectIsWelcomed` | Flakkari/Client/UDPClient.cpp:38-49 | a connection request is welcomed under its game if and only if its sender is neither banned nor known, its version exists and it fits the receive buffer |
| `Sessions.BareNameIsNotWelcomed` | Libraries/Flakkari4Unity/Runtime/API.cs:18-25 | a request of the C# client, which has no length prefix, is never welcomed under its name |
| `SessionRuns.StrangersAreBanned` | Flakkari/Server/Client/ClientManager.cpp:17-47 | addClient adds exactly the sender's IP to the bans if it is neither banned nor known and no framed connection request is at the front of the buffer, and nothing in every other case |
| `SessionRuns.KnownAreKeptAlive` | Flakkari/Server/Client/ClientManager.cpp:28-33 | a known sender that is not banned counts as active now, and nothing else changes |
| `SessionRuns.RequestRegisters` | Flakkari/Server/Client/ClientManager.cpp:49-53 | a client is registered under a game if and only if its sender is neither banned nor known and asks for that game; it has no warnings and is active now |
| `SessionRuns.FifthUnreadableIsBanned` | Flakkari/Server/Client/ClientManager.cpp:144-153 | over any run from the start, receivePacketFromClient bans an IP if and only if the packet is the fifth unreadable one of its client |
| `SessionRuns.PacketIsQueued` | Flakkari/Server/Client/ClientManager.cpp:113-141 | a packet is queued to its sender's client if and only if the sender is registered and not banned, and the packet is framed, at most 4096 bytes long and no request to leave; such a request names the client's game |
| `SessionRuns.QueuedIsAccepted` | Flakkari/Server/Client/ClientManager.cpp:113-141 | over any run exactly the packets accepted from its address are queued to a client, in order, requests to leave left out |
| `Clients.SilenceInMilliseconds` | Flakkari/Server/Client/Client.cpp:24-30 | connected means less than 5000 milliseconds of silence, with the truncation of duration_cast |
| `Clients.HistoryIsLatest` | Flakkari/Server/Client/Client.cpp:34-39 | over any run the history is the latest ten packets, oldest first |
| `Clients.Client.IncrementWarningCount` | Flakkari/Server/Client/Client.cpp:41-45 | one more warning, and whether that is five |
| `Clients.Client.AddPacketToHistory` | Flakkari/Server/Client/Client.cpp:34-39 | the oldest packet makes room for the new one |
| `Clients.Client.AddPacketToSendQueue` | Flakkari/Server/Client/Client.cpp:53-57 | the packet goes to the end and its version becomes the client's |
| `Clients.Client.AddPacketToReceiveQueue` | Flakkari/Server/Client/Client.cpp:47-51 | likewise |
| `Clients.Client.KeepAlive` | Flakkari/Server/Client/Client.cpp:32 | the client is connected at that moment |
| `Clients.Client.Flush` | Flakkari/Server/Game/Game.cpp:415-432 | up to twenty packets leave, joined in one datagram; an empty one is not sent |
| `ClientManagers.ClientManager.AddClient` | Flakkari/Server/Client/ClientManager.cpp:17-54 | banned, known, rejected, thrown or created, as the screening says; the new client is a new object |
| `ClientManagers.ClientManager.CheckInactiveClients` | Flakkari/Server/Client/ClientManager.cpp:70-83 | the erasing loop keeps exactly the connected clients |
| `ClientManagers.ClientManager.ReceivePacketFromClient` | Flakkari/Server/Client/ClientManager.cpp:113-154 | the answer, the warnings, the ban, and the one receive queue that grows |
| `ClientManagers.ClientManager.RemoveClient` | Flakkari/Server/Client/ClientManager.cpp:56-62 | the entry is gone |
| `ClientManagers.ClientManager.IsBanned` | Flakkari/Server/Client/ClientManager.cpp:64-68 | whether the IP is on the list |
| `Servers.ServerRunsSessions` | Flakkari/Server/UDPServer.cpp:68-106 | a run of the server is a run of the client manager |
| `Servers.ServerRunsMatchmaking` | Flakkari/Server/UDPServer.cpp:68-106 | a run of the server is a run of the game manager in which every client is offered at most once |
| `Servers.ReachableServersAreOrderly` | Flakkari/Server/UDPServer.cpp:48-106 | in every reachable server a client is in at most one place, games are within their limits, and unbanned clients have fewer than five warnings |
| `Servers.ServerQueuesAreFifo` | Flakkari/Server/UDPServer.cpp:68-106 | no run of the server drops a waiting client |
| `Servers.ServerBansAreEffective` | Flakkari/Server/UDPServer.cpp:48-106 | bans outlive every run of the server and banned clients disappear for good |
| `Servers.BannedAddressIsSilent` | Flakkari/Server/UDPServer.cpp:73-76 | after a ban the server runs as if that IP had never sent anything again |
| `Servers.ReachableServersAreHoused` | Flakkari/Server/UDPServer.cpp:78-87 | rooms of a reachable server hold only clients created for that game, and loaded games are configured |
| `Servers.LeaverPlaysNowhere` | Flakkari/Server/UDPServer.cpp:91-98 | in every reachable server a client that disconnects or is banned plays nowhere afterwards, if and only if its game is still in the store or it was not playing |
| `ServerOutcomes.KnownSweeps` | Flakkari/Server/UDPServer.cpp:68-92 | a packet of a known client keeps that client and exactly those others that were active in the last five seconds |
| `ServerOutcomes.NewcomerSweeps` | Flakkari/Server/UDPServer.cpp:73-90 | an unknown sender that asks for a game is offered to it and stays if and only if the game takes it; the others are swept |
| `ServerOutcomes.StrangersSweepNobody` | Flakkari/Server/UDPServer.cpp:73-76 | a packet of a banned or unwelcome sender sweeps nobody and leaves the games alone |
| `ServerOutcomes.TimeoutSweeps` | Flakkari/Server/UDPServer.cpp:48-56 | a timeout drops exactly the clients silent for five seconds |
| `ServerOutcomes.ConnectedMeans` | Flakkari/Server/Client/Client.cpp:24-30 | a client object counts as connected if and only if it was active in the last five seconds, registered or not |
| `Departures.ClosedGameKeepsItsPlayer` | Flakkari/Server/Game/GameManager.cpp:180-192 | a run from the start in which the first departure closes the store and the second player plays on after its disconnect request |
| `Hosting.EnterHosts` | Flakkari/Server/Game/GameManager.cpp:133-155 | each instance is a world with its players, and addClientToGame keeps it so |
| `Hosting.ExitHosts` | Flakkari/Server/Game/GameManager.cpp:167-205 | so does removeClientFromGame, with a player admitted from the queue or an instance taken off the list |
| `Hosting.StepInTouch` | Flakkari/Server/Game/Game.cpp:469-535 | after a step of a world a player is in line if it just joined, or if it was in line and connected |
| `Hosting.HouseRunsServer` | Flakkari/Server/UDPServer.cpp:68-106 | whatever the instances do beside it, the server runs as it does alone |
| `Hosting.PlayersSeeTheirScene` | Flakkari/Server/UDPServer.cpp:68-106 | in every reachable server each player of each instance, admitted at once or from the queue, has its record in that instance unless checkDisconnect has dropped somebody there, and if it was connected while it played its packets lead exactly to that instance's scene |
| `HostedRuns.WorldsRunGames` | Flakkari/Server/UDPServer.cpp:68-106 | the history of an instance while a player keeps its seat is a run of its game, and what arrives for the player there is exactly what the server queued to it |
| `HostedRuns.AcceptedPacketsArrive` | Flakkari/Server/Client/ClientManager.cpp:113-141 | in a running server the receive queue of a seated player is what is left of the packets that waited and exactly those accepted from its address since, in order; the heartbeats among them are answered one for one |
| `HostedRuns.StepQueues` | Flakkari/Server/UDPServer.cpp:91-98 | one packet handled queues what its one receipt says, to nobody else |
| `UDPServers.UDPServer.HandlePacket` | Flakkari/Server/UDPServer.cpp:68-106 | the calls in their order have the effect of the step, in every branch, and it does not return where the step has none |
| `UDPServers.UDPServer.HandleTimeout` | Flakkari/Server/UDPServer.cpp:48-56 | an inactivity check if and only if the wait timed out |
| `PacketQueues.OneConsumerIsSafe` | Flakkari/Network/PacketQueue.hpp:56-88 | for every interleaving of any producers with one consumer that tests empty() before pop_front(), no pop meets an empty queue and what is consumed is a prefix of what was pushed |
| `PacketQueues.TwoConsumersCanFail` | Flakkari/Network/PacketQueue.hpp:68-88 | with two consumers a pop can meet an empty queue |
| `PacketQueues.PacketQueue.PushBack` | Flakkari/Network/PacketQueue.hpp:56-60 | to the end |
| `PacketQueues.PacketQueue.PopFront` | Flakkari/Network/PacketQueue.hpp:68-74 | off the front |
| `PacketQueues.PacketQueue.GetNext` | Flakkari/Client/UDPClient.cpp:88-93 | nothing, or the front |
| `Collisions.BoxTestIsExact` | Flakkari/Engine/EntityComponentSystem/Systems/Systems.cpp:258-267 | for positive extents the test holds if and only if the open boxes share a point |
| `Collisions.FlatBoxReported` | Flakkari/Engine/EntityComponentSystem/Systems/Systems.cpp:258-267 | two boxes, one of them flat, that the test reports although no point lies in both open boxes |
| `Collisions.SphereBoxTestIsExact` | Flakkari/Engine/EntityComponentSystem/Systems/Systems.cpp:298-317 | the test holds if and only if some point of the box lies strictly inside the sphere |
| `Collisions.SphereTestIsExact` | Flakkari/Engine/EntityComponentSystem/Systems/Systems.cpp:269-277 | the test holds if and only if the open balls share a point |
| `Collisions.ReflectedSpeed` | Flakkari/Engine/EntityComponentSystem/Systems/Systems.cpp:319-327 | how reflection changes the squared speed, for any normal |
| `Collisions.ReflectionKeepsSpeed` | Flakkari/Engine/EntityComponentSystem/Systems/Systems.cpp:319-327 | it keeps the speed of every velocity if and only if the normal is zero or of length one |
| `Collisions.ReflectionUndoesItself` | Flakkari/Engine/EntityComponentSystem/Systems/Systems.cpp:319-327 | about a unit normal it is its own inverse |
| `Collisions.UnitNormal` | Flakkari/Engine/EntityComponentSystem/Systems/Systems.cpp:279-296 | the resolved normal of two colliding spheres with different centres has length one |
| `Collisions.NormalPointsApart` | Flakkari/Engine/EntityComponentSystem/Systems/Systems.cpp:279-296 | the resolved normal is the way from the second centre to the first cut to length one if the spheres overlap, and zero if not |
| `Collisions.ReflectionKeepsTangents` | Flakkari/Engine/EntityComponentSystem/Systems/Systems.cpp:319-327 | what is at right angles to the normal stays as it was |
| `Collisions.CollisionConservesSpeed` | Flakkari/Engine/EntityComponentSystem/Systems/Systems.cpp:279-327 | reflection about the resolved normal keeps the speed |
| `Buffers.RunLengthRoundTrip` | Flakkari/Network/Buffer.cpp:53-90 | decoding the encoding gives the buffer back if and only if no run is longer than 255 |
| `Buffers.EncodedLength` | Flakkari/Network/Buffer.cpp:53-76 | the encoding has two bytes for each maximal run |
| `Buffers.DecodeOfEncode` | Flakkari/Network/Buffer.cpp:53-90 | what decoding gives back in general |
| `Buffers.RunLayout` | Flakkari/Network/Buffer.cpp:53-76 | a run is written as its length modulo 256 and then its byte |
| `Buffers.HexRoundTrip` | Flakkari/Network/Buffer.cpp:92-114 | hex conversion comes back for every buffer |
| `Buffers.HexCanonical` | Flakkari/Network/Buffer.cpp:92-114 | the other order comes back if and only if all bytes are nibbles |
| `Buffers.NibbleLayout` | Flakkari/Network/Buffer.cpp:92-102 | the high half of a byte comes before its low half |
| `Buffers.XorLayout` | Flakkari/Network/Buffer.cpp:45-51 | a bit of the result is set exactly where the two differ |
| `Buffers.XorInvolution` | Flakkari/Network/Buffer.cpp:45-51 | the same mask twice is no change |
| `Buffers.Buffer.RunLengthEncode` | Flakkari/Network/Buffer.cpp:53-76 | the loop computes the encoding |
| `Buffers.Buffer.RunLengthDecode` | Flakkari/Network/Buffer.cpp:78-90 | the loop computes the decoding |
| `Buffers.Buffer.ConvertToHex` | Flakkari/Network/Buffer.cpp:92-102 | two nibbles a byte, high first |
| `Buffers.Buffer.ConvertFromHex` | Flakkari/Network/Buffer.cpp:104-114 | back again |
| `Buffers.Buffer.BitwiseXor` | Flakkari/Network/Buffer.cpp:45-51 | in place, over the common length |

## Left out

- `Game::checkDisconnect` beyond the first player it drops: it breaks the allocator's precondition, as proved, and erases from the list it iterates. To the game manager a dropped player is off its instance's list.
- `Game::update` as a whole: its parts are steps that may come in any order.
- JSON and the `Factory` dispatch: a template is a ready-made list of components.
- More than one scene: `loadScene` is only ever called with the start scene, so the game has one registry.
- Game objects inside `GameManager`: an instance is given by its players and whether it runs, and `Hosting` gives it a game state on values; aliasing between games is not modelled. A client's record is in the world it plays in, and brings whatever it held when admitted.
- `updateGame`: with a fixed configuration file it changes nothing.
- The operations of `PacketQueue` that no modelled code calls: `front`, `back`, `push_front`, `pop_back`, `size` and `clear`.
- Threads: a step of a game is atomic; the locked queue alone is modelled under interleaving.
- `std::any` and references into component arrays: a component type is a key, a value under a wrong type reads as absent, and a write through a reference is an assignment.
- Undefined behaviour: an extraction past the end leaves the packet alone, a payload the event walk would overrun is ignored, and an enemy template without a transform is not placed.
- UDP loss, duplication and reordering: transport and replication are stated over send order. The size limit of a datagram is not modelled on the way to the client.
- `spawn_random_within_skybox`: its first ten updates name entity 0 whatever happened.
- `handle_collisions` and `handleDeath`: their result flags report neither the bullet's death nor a surviving target correctly.
- `Vector::quaternionRotate` and the rest of the float arithmetic of moving: a parameter of the model.
- Unity scene objects, `Entity.CreateComponents` and `UpdateComponents`: the decoder here follows the encoder's layout.
- The final copy over `begin()` in the buffer coders: the freshly built buffer is the result.
- `_isConnected`: it is never false while a client exists.
- `Client::setGameName`: never called, so the name is a constant.
- `addGame` reads its configuration from a fixed catalogue instead of a file.
- Sockets, select and poll, logging, argument parsing, the console and the downloader: input and output only.
- ReadEvents: a payload that ends before its events gives no events, where the source reads past its end.
- AddEntity: `CreateComponents` runs before the insertion, so that an exception in the component decoder, which is not part of this model, leaves the id out.
- Invoke: the component decoder behind `CreateComponents` and `UpdateComponents` is not part of this model, so its exceptions are not.
- Update: nothing in the repository calls `Enqueue`; the queue stands for a client that handles packets one action at a time, and `ExampleClients` is the one that does not.
- The example client's calls with other parameters than API.cs declares: each is taken as the function of that name.
- HandleEvents: the float arithmetic of a pose is a parameter, and a payload the walk would overrun changes nothing, where the source reads past it.
- SpawnEnemies: the comparison of the timer and the random position are inputs.
