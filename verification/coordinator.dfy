/**
  The hub's coordinating loop: admitting a client, deregistering it, and
  broadcasting to every registered client; plus the per-client room
  broadcast, which walks the room index directly.
 */
module Coordinator {
  import opened State
  import opened Rooms
  import opened Delivery

  /** Admission of a newly upgraded client under its (fresh) ID: it enters the
      registry with no rooms, an empty open channel, and nothing else moves. */
  function Register(h: Hub, id: ClientId): (r: Hub)
    requires id !in h.sessions
    ensures r.clients == h.clients + {id}
    ensures id in r.sessions && r.sessions[id] == FreshClient
    ensures r.sessions.Keys == h.sessions.Keys + {id}
    ensures forall x :: x in h.sessions ==> r.sessions[x] == h.sessions[x]
    ensures r.rooms == h.rooms
    ensures Valid(h) ==> Valid(r)
  {
    Hub(h.sessions[id := FreshClient], h.clients + {id}, h.rooms)
  }

  /** The state once `id` has been dropped from the registry and its channel
      closed, before it has left any room. */
  function Dropped(h: Hub, id: ClientId): (r: Hub)
    requires id in h.sessions
    ensures r.sessions.Keys == h.sessions.Keys && r.rooms == h.rooms
    ensures r.clients == h.clients - {id}
    ensures r.sessions[id] == h.sessions[id].(closed := true)
    ensures forall x :: x in h.sessions && x != id ==> r.sessions[x] == h.sessions[x]
    ensures Valid(h) ==> Valid(r)
  {
    Hub(h.sessions[id := h.sessions[id].(closed := true)], h.clients - {id}, h.rooms)
  }

  /** Deregistration as the coordinating loop performs it. A registered
      client is removed from the registry, its channel is closed, and it
      leaves each of its rooms one by one. A client that is not in the
      registry (already deregistered, or shed) leaves the state untouched, so
      a second deregistration is a no-op. */
  method Unregister(h: Hub, id: ClientId) returns (r: Hub)
    requires id in h.sessions
    ensures id !in h.clients ==> r == h
    ensures id in h.clients ==> r == LeaveAll(Dropped(h, id), id, h.sessions[id].rooms)
    ensures r.clients == h.clients - {id}
    ensures r.sessions.Keys == h.sessions.Keys
    ensures id in h.clients ==> r.sessions[id] == h.sessions[id].(closed := true, rooms := {})
    ensures id in h.clients && Agreement(h) ==> forall x :: x in r.rooms ==> id !in r.rooms[x]
    ensures forall x :: x in h.sessions && x != id ==> r.sessions[x] == h.sessions[x]
    ensures Valid(h) ==> Valid(r)
  {
    if id !in h.clients {
      return h;
    }
    var names := h.sessions[id].rooms;
    var start := Dropped(h, id);
    r := start;
    LeaveAllNone(start, id);
    assert names - r.sessions[id].rooms == {};
    while r.sessions[id].rooms != {}
      invariant id in r.sessions
      invariant r.sessions[id].rooms <= names
      invariant r == LeaveAll(start, id, names - r.sessions[id].rooms)
      decreases r.sessions[id].rooms
    {
      var room :| room in r.sessions[id].rooms;
      var done := names - r.sessions[id].rooms;
      LeaveAllStep(start, id, done, room);
      r := Leave(r, id, room);
      assert names - r.sessions[id].rooms == done + {room};
    }
    assert names - r.sessions[id].rooms == names;
  }

  /** Broadcast to every registered client, the sender included, as the
      coordinating loop performs it: one non-blocking send per client of the
      registry snapshot. Each client with room in its buffer gets the message
      at the back; each client with a full buffer is shed. */
  method BroadcastAll(h: Hub, m: Message) returns (r: Hub)
    requires RegisteredOpen(h)
    ensures r == EmitAll(h, h.clients, m)
    ensures forall x :: x in h.clients && !Full(h.sessions[x]) ==>
      x in r.clients && r.sessions[x].send == h.sessions[x].send + [m]
    ensures forall x :: x in h.clients && Full(h.sessions[x]) ==>
      x !in r.clients && r.sessions[x].closed
    ensures r.clients <= h.clients
    ensures forall x :: x in h.sessions && x !in h.clients ==> r.sessions[x] == h.sessions[x]
    ensures r.rooms == h.rooms
    ensures Valid(h) ==> Valid(r)
  {
    r := h;
    var pending := h.clients;
    ghost var done: set<ClientId> := {};
    EmitAllNone(h, m);
    while pending != {}
      invariant pending + done == h.clients && pending !! done
      invariant r == EmitAll(h, done, m)
      decreases pending
    {
      var id :| id in pending;
      EmitAllStep(h, done, id, m);
      r := Emit(r, id, m);
      pending := pending - {id};
      done := done + {id};
    }
  }

  /** The clients a room broadcast from `sender` reaches: every member of the
      room except the sender; nobody if the room does not exist. */
  function RoomTargets(h: Hub, room: RoomName, sender: ClientId): (t: set<ClientId>)
    ensures sender !in t
    ensures forall x :: x in t <==> room in h.rooms && x in h.rooms[room] && x != sender
  {
    if room in h.rooms then h.rooms[room] - {sender} else {}
  }

  /** `BroadcastToRoom`: one non-blocking send to each member of the room
      other than the sender, whose own state is left alone. Every member to be
      reached must still have an open channel. */
  method BroadcastToRoom(h: Hub, sender: ClientId, room: RoomName, m: Message) returns (r: Hub)
    requires Sendable(h, RoomTargets(h, room, sender))
    ensures r == EmitAll(h, RoomTargets(h, room, sender), m)
    ensures room !in h.rooms ==> r == h
    ensures sender in h.sessions ==> r.sessions[sender] == h.sessions[sender]
    ensures sender in r.clients <==> sender in h.clients
    ensures forall x :: x in h.sessions && (room !in h.rooms || x !in h.rooms[room]) ==> r.sessions[x] == h.sessions[x]
    ensures room in h.rooms ==> forall x :: x in h.rooms[room] && x != sender && !Full(h.sessions[x]) ==>
      r.sessions[x].send == h.sessions[x].send + [m]
    ensures room in h.rooms ==> forall x :: x in h.rooms[room] && x != sender && Full(h.sessions[x]) ==>
      x !in r.clients && r.sessions[x].closed
    ensures r.rooms == h.rooms
    ensures Valid(h) ==> Valid(r)
  {
    EmitAllNone(h, m);
    r := h;
    if room !in h.rooms {
      return;
    }
    var pending := h.rooms[room];
    ghost var done: set<ClientId> := {};
    while pending != {}
      invariant pending + done == h.rooms[room] && pending !! done
      invariant r == EmitAll(h, done - {sender}, m)
      decreases pending
    {
      var id :| id in pending;
      if id != sender {
        EmitAllStep(h, done - {sender}, id, m);
        r := Emit(r, id, m);
      }
      assert (done + {id}) - {sender} == if id != sender then (done - {sender}) + {id} else done - {sender};
      pending := pending - {id};
      done := done + {id};
    }
    assert done - {sender} == RoomTargets(h, room, sender);
  }

  /** A client that has left a room is not reached by a later broadcast to
      that room. */
  lemma LeftClientNotReached(h: Hub, id: ClientId, room: RoomName, sender: ClientId)
    requires id in h.sessions
    ensures id !in RoomTargets(Leave(h, id, room), room, sender)
  {
  }

  /** A client shed by a full channel keeps its room memberships: the shed
      path never touches the room index, and deregistration skips clients no
      longer in the registry. A later broadcast to one of its rooms from any
      other member would therefore send on its closed channel. */
  lemma ShedClientStaysInRooms(h: Hub, id: ClientId, room: RoomName, other: ClientId, m: Message)
    requires Valid(h) && id in h.clients && Full(h.sessions[id])
    requires room in h.sessions[id].rooms && other != id
    ensures var r := Emit(h, id, m);
      && id !in r.clients && r.sessions[id].closed
      && room in r.rooms && id in r.rooms[room]
      && !Sendable(r, RoomTargets(r, room, other))
  {
  }
}
