# gosocket hub, modelled in Dafny

This project models the bookkeeping kernel of the gosocket real-time event
hub. Connected clients join named rooms. They exchange named events through
a handler table, and a middleware chain filters those events first. The model
is one state machine, and each operation has an atomic, sequential effect.
Goroutines and locks are left out.

The state is an immutable `Hub` record (`state.dfy`) with three parts:

- `sessions`: every client object the hub has admitted. A client has its own
  room-name set, the contents of its buffered outbound channel (capacity
  256) and a closed flag. Dropped clients stay in this table, so their closed
  flag can still be observed.
- `clients`: the registry of connected IDs (the Go `Server.clients` map).
- `rooms`: the room index, from room name to the set of member IDs.

`Server` (`dispatch.dfy`) adds the handler table (event name → handler
entry) and the ordered middleware list.

The invariant `Valid` has four parts:

- the client's room set and the room index agree;
- no room is empty;
- every registered client has an open channel;
- no channel holds more than 256 messages.

Every transition preserves it. The three loops of the Go code are written as
methods with loop invariants:

- deregistration, which leaves the client's rooms one by one;
- broadcast to all registered clients;
- broadcast to a room.

Each method is proved equal to an order-independent reference function
(`LeaveAll`, `EmitAll`). This holds whatever order the Go map iteration
picks.

In these places the code behaves in ways that are easy to misread; the model
follows the code:

- Broadcast to all (`Client.Broadcast` → the hub's broadcast case) reaches
  every registered client, and that includes the sender: `Client.Broadcast`
  delivers the message to the client that sent it too.
- The `disconnect` hook runs on every deregistration request, including a
  repeated one: socket.go:180-185 sits outside the `if` at line 170. When
  the read loop gives up, it sends two such requests: one at client.go:76,
  then the deferred one at client.go:63.
- A client shed by a full channel is removed from the registry but not from
  the room index (client.go:32-33). A later deregistration skips it, because
  it is no longer in the registry (socket.go:170). So it stays a member of
  its rooms with a closed channel, and a later room broadcast would send on
  that closed channel. `Coordinator.ShedClientStaysInRooms` states this.
- Only close codes 1001 and 1006 can end the read loop. Any other read error
  keeps it going, a normal closure (1000) included (`ReadPump.OtherErrorsNeverStop`).
- Event names `connect` and `disconnect` are not reserved on the wire. A
  peer that sends them, with any payload, reaches the same handler entries
  the hub fires itself (`Dispatch.PeerReachesHook`).

Parameters stand in for code the model cannot see:

- `Decoder` is an abstract partial function `(Shape, Value) -> Option<Value>`.
  It stands for the JSON re-encode and decode in `TypedHandler.Handle`.
- User callbacks are opaque `Callback` identities.
- Middleware predicates are functions of the client ID and the message.

## Model

| member | source | states |
|---|---|---|
| State.NewHub | socket.go:63-80 | a new hub has no registered client and no room, and satisfies the invariant |
| Rooms.RemoveMember | socket.go:205-210 | taking a client out of a room keeps the other members, deletes the room key when no member is left, and leaves other rooms and an absent room as they were |
| Rooms.Join | client.go:113-122 | after Join the room is in the client's set and the client is in the room's member set; a missing room is created holding only the client; other rooms, clients and the registry are unchanged; agreement and the invariant are preserved |
| Rooms.Leave | socket.go:202-214 | after leaving, the room is gone from the client's set and the client from the room; the room key is deleted once empty; an absent room leaves the index unchanged but is still removed from the client's set; agreement, no-empty-rooms and the invariant are preserved |
| Rooms.LeaveAll | socket.go:174-177 | leaving a set of rooms at once removes the client from exactly those rooms, keeps all other members, and preserves the invariant; with agreement, leaving all of a client's rooms leaves it in no room |
| Rooms.LeaveAllStep | socket.go:175-177 | leaving one more room with leaveRoom extends the set-at-once definition by that room, whatever the order |
| Rooms.JoinIdempotent | client.go:116-121 | joining a room twice gives the same state as joining it once |
| Rooms.JoinMemberNoop | client.go:116-121 | joining a room the client is already in (with agreement) leaves the state unchanged |
| Rooms.LeaveUndoesJoin | client.go:113-127 | on a valid state, leaving a room that was just joined (not a member before) restores the state exactly |
| Rooms.LeaveIdempotent | socket.go:205-213 | leaving a room twice gives the same state as leaving it once |
| Delivery.Deliver | client.go:29-34 | a send appends to a channel with room, and closes a full channel without adding to it |
| Delivery.Emit | client.go:21-35 | on an open client with fewer than 256 queued messages the message is appended at the end and nothing else changes; on a full one the channel is closed and the ID leaves the registry; the room index is never touched; the invariant is preserved |
| Delivery.EmitAll | socket.go:189-196 | the order-independent fan-out: each target with room gets the message appended and keeps its registration; each full target is closed and unregistered; non-targets are unchanged; the invariant is preserved |
| Delivery.EmitAllSingle | client.go:29-34 | fanning out to one client is Emit on that client |
| Delivery.EmitAllStep | socket.go:189-196 | one more Emit to a client not yet reached extends the fan-out by that client |
| Delivery.Receive | client.go:41-45 | a receive yields the oldest buffered message and removes it; buffered messages still come out after the channel is closed; an empty closed channel reports closure; an empty open one yields nothing |
| Delivery.Consume | client.go:41-45 | one receive by the channel's consumer removes only the oldest message of that client's buffer; rooms, registry, the closed flag and other clients are unchanged; the invariant is preserved |
| Delivery.ConsumeUndoesEmit | client.go:29-45 | consuming right after an Emit to an empty open channel hands out that message and restores the state |
| Delivery.DrainAll | client.go:41-45 | receiving as many times as there are buffered messages yields the buffer in order |
| Delivery.EmitThenDrain | client.go:29-45 | messages come out of a client's channel in the order they were emitted (FIFO) |
| Coordinator.Register | socket.go:157-160 | the new client is registered with no rooms and an empty open channel; every other client and the room index are unchanged; the invariant is preserved |
| Coordinator.Dropped | socket.go:170-172 | dropping a client takes it out of the registry and closes its channel, nothing else |
| Coordinator.Unregister | socket.go:168-179 | a registered client is removed from the registry, its channel is closed, its room set emptied and it is in no room of the index; other clients are unchanged; the invariant is preserved; an unregistered client leaves the state unchanged, so a second call is a no-op |
| Coordinator.BroadcastAll | socket.go:187-197 | every registered client with room gets the message at the end and stays registered; every full one is closed and unregistered; unregistered clients and rooms are unchanged |
| Coordinator.RoomTargets | client.go:132-134 | a room broadcast targets exactly the room's members other than the sender, and nobody for a missing room |
| Coordinator.BroadcastToRoom | client.go:129-139 | each member other than the sender gets one Emit; the sender's state and registration are unchanged; non-members are unchanged; a missing room changes nothing; the invariant is preserved |
| Coordinator.LeftClientNotReached | client.go:125-134 | a client that left a room is not a target of a later broadcast to it |
| Coordinator.ShedClientStaysInRooms | client.go:29-34 | a shed client is unregistered and closed but stays in its rooms, so a later room broadcast from another member would send on its closed channel |
| Dispatch.Handle | socket.go:44-56 | a payload that fails to decode yields an error and no callback runs; otherwise the callback runs on the decoded payload |
| Dispatch.NewServer | socket.go:63-80 | a new server has an empty hub (no client object, no registered client, no room), which satisfies the invariant, and no handlers and no middleware |
| Dispatch.On | socket.go:146-152 | the event maps to the new untyped handler, replacing any earlier one; all other entries, the hub and the middleware are unchanged |
| Dispatch.OnTyped | socket.go:102-106 | the event maps to the new typed handler, replacing any earlier one; all other entries are unchanged |
| Dispatch.LastRegistrationWins | socket.go:102-106 | registering twice for one event, with On or OnTyped in any of the four combinations, leaves only the second handler |
| Dispatch.Use | socket.go:96-98 | the predicate is appended at the end and the earlier predicates keep their order |
| Dispatch.RunMiddleware | client.go:88-99 | the message proceeds iff every predicate accepts it; otherwise the last predicate called is the first to reject, and none after it is called |
| Dispatch.UseAddsCheck | socket.go:96-98 | after Use, a message passes iff it passed before and the new predicate accepts it |
| Dispatch.Inbound | client.go:88-108 | a message is blocked iff some predicate rejects it; dropped iff no handler is registered under its name; fails iff the handler's decode fails; otherwise the handler registered under its name runs on the decoded payload |
| Dispatch.Hook | socket.go:164-166 | a lifecycle hook runs the handler registered under its name on the empty payload, if there is one |
| Dispatch.Connect | socket.go:157-166 | admission registers the client with a fresh record, leaves every other client record and the room index unchanged, preserves the invariant, then fires the connect handler iff one is registered |
| Dispatch.Disconnect | socket.go:168-185 | a registered client leaves the registry, is closed and leaves every room of the index, other clients keep their records and registration, and the invariant is preserved; an unregistered one leaves the hub unchanged; the disconnect handler fires on every request |
| Dispatch.PeerReachesHook | client.go:100-108 | an inbound "connect" or "disconnect" event with any payload, once the middleware passes it, runs the handler entry the hub fires for that hook, exactly when the payload decodes; the callback is the hook's callback |
| Dispatch.BlockedNeverDispatched | client.go:89-99 | a message some predicate rejects never reaches a callback, and no predicate after the first rejecting one runs |
| ReadPump.ReadStep | client.go:70-85 | a 1001/1006 close stops the loop iff the counter is above 15, else increments it; any other error continues with the counter unchanged; a frame goes on to dispatch |
| ReadPump.RunReads | client.go:67-85 | over a run of reads, the loop can stop only on a 1001/1006 close, and the counter never exceeds 16 |
| ReadPump.RunReadsCounts | client.go:67-85 | the loop stops exactly at the first 1001/1006 close that finds the counter at 16; until then the counter equals the number of such closes seen |
| ReadPump.SeventeenthCloseStops | client.go:74-79 | since the counter is never reset, the 17th 1001/1006 close ends the loop and 16 are survived |
| ReadPump.OtherErrorsNeverStop | client.go:72-85 | reads other than 1001/1006 closes never end the loop nor move the counter |
| Scenarios.LobbyPing | client.go:113-139 | A and B join "lobby" and A broadcasts: B's channel holds exactly that message, A's is empty |
| Scenarios.UnregisterTwice | socket.go:168-179 | a second deregistration of the same client gives the same state as the first |
| Scenarios.ConnectHandlerFires | socket.go:163-166 | a connect handler registered before admission fires once, for the admitted client, on whatever the decoder makes of the empty payload |

## Left out

- Goroutines, channels used for synchronisation (the register, unregister and broadcast requests) and `sync.RWMutex` locking: each operation is atomic. The lock defects are not reproduced. The unregister case holds `s.mu` and then `leaveRoom` locks it again (socket.go:169, 176, 203). The handler error path skips `RUnlock` (client.go:106).
- Go panics from sending on or closing a closed channel: `Emit`, `BroadcastToRoom` and `BroadcastAll` require their targets' channels to be open.
- The HTTP side: the upgrade, auth gate and origin check (socket.go:118-142), and the Gin/Mux attachment (socket.go:108-116). `NewServer`'s configuration of these is left out too.
- `writePump` frame encoding and writing (client.go:37-59): only the channel receive it performs is modelled (`Delivery.Receive`, `Delivery.Consume`).
- The `time.Sleep` between retries in `readPump`: only the counter is kept.
- JSON marshalling and unmarshalling in `TypedHandler.Handle`: abstracted by the `Decoder` parameter.
- `Value.Number` carries an integer, while a JSON number decoded into `interface{}` is a Go float64: fractional numbers are not represented. No modelled property depends on the payload's contents.
- What user callbacks do: dispatch reports which callback runs, for which client and with which payload. The state changes a callback makes through the hub are the modelled operations themselves.
- UUID generation: `Register` requires an ID not used before.
- Logging.
- test/main.go, a demo application that wires routes and static files with no hub logic of its own.
- Dispatch.Disconnect: its result does not report that the read loop sends two deregistration requests when it stops. It states what one request does.
