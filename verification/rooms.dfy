/**
  Room membership: joining and leaving keep the client's own room set and the
  room index in step, create rooms lazily and delete them once empty.
 */
module Rooms {
  import opened State

  /** The room index after `id` is taken out of room `room`: the room's entry
      disappears when nobody is left in it. */
  function RemoveMember(rooms: map<RoomName, set<ClientId>>, id: ClientId, room: RoomName): (r: map<RoomName, set<ClientId>>)
    ensures forall x :: x != room ==> (x in r <==> x in rooms)
    ensures forall x :: x in rooms && x != room ==> r[x] == rooms[x]
    ensures room in r <==> room in rooms && rooms[room] - {id} != {}
    ensures room in r ==> r[room] == rooms[room] - {id}
    ensures room in rooms ==> forall x :: x in rooms[room] && x != id ==> room in r && x in r[room]
  {
    if room in rooms then
      var rest := rooms[room] - {id};
      assert forall x :: x in rooms[room] && x != id ==> x in rest;
      if rest == {} then rooms - {room} else rooms[room := rest]
    else
      rooms
  }

  /** `id` joins `room`: the room goes into the client's own set, and the
      client's ID into the room's member set, which is created if missing. */
  function Join(h: Hub, id: ClientId, room: RoomName): (r: Hub)
    requires id in h.sessions
    ensures r.sessions.Keys == h.sessions.Keys && r.clients == h.clients
    ensures room in r.sessions[id].rooms
    ensures room in r.rooms && id in r.rooms[room]
    ensures room !in h.rooms ==> r.rooms[room] == {id}
    ensures room in h.rooms ==> r.rooms[room] == h.rooms[room] + {id}
    ensures forall x :: x in h.rooms && x != room ==> x in r.rooms && r.rooms[x] == h.rooms[x]
    ensures r.rooms.Keys == h.rooms.Keys + {room}
    ensures r.sessions[id].rooms == h.sessions[id].rooms + {room}
    ensures r.sessions[id].send == h.sessions[id].send && r.sessions[id].closed == h.sessions[id].closed
    ensures forall x :: x in h.sessions && x != id ==> r.sessions[x] == h.sessions[x]
    ensures Agreement(h) ==> Agreement(r)
    ensures Valid(h) ==> Valid(r)
  {
    var c := h.sessions[id];
    var members := if room in h.rooms then h.rooms[room] else {};
    Hub(h.sessions[id := c.(rooms := c.rooms + {room})], h.clients, h.rooms[room := members + {id}])
  }

  /** `id` leaves `room`. The room is dropped from the client's own set even
      when the index has no such room; the index then stays as it was. */
  function Leave(h: Hub, id: ClientId, room: RoomName): (r: Hub)
    requires id in h.sessions
    ensures r.sessions.Keys == h.sessions.Keys && r.clients == h.clients
    ensures room !in r.sessions[id].rooms
    ensures r.sessions[id].rooms == h.sessions[id].rooms - {room}
    ensures room in r.rooms ==> id !in r.rooms[room] && r.rooms[room] != {}
    ensures room in h.rooms ==> forall x :: x in h.rooms[room] && x != id ==> room in r.rooms && x in r.rooms[room]
    ensures room in r.rooms ==> room in h.rooms && r.rooms[room] == h.rooms[room] - {id}
    ensures room in h.rooms && h.rooms[room] <= {id} ==> room !in r.rooms
    ensures room !in h.rooms ==> r.rooms == h.rooms
    ensures forall x :: x != room ==> (x in r.rooms <==> x in h.rooms)
    ensures forall x :: x in h.rooms && x != room ==> r.rooms[x] == h.rooms[x]
    ensures r.sessions[id].send == h.sessions[id].send && r.sessions[id].closed == h.sessions[id].closed
    ensures forall x :: x in h.sessions && x != id ==> r.sessions[x] == h.sessions[x]
    ensures Agreement(h) ==> Agreement(r)
    ensures NoEmptyRooms(h) ==> NoEmptyRooms(r)
    ensures Valid(h) ==> Valid(r)
  {
    var c := h.sessions[id];
    Hub(h.sessions[id := c.(rooms := c.rooms - {room})], h.clients, RemoveMember(h.rooms, id, room))
  }

  /** Reference definition of leaving every room of `names` at once: the net
      effect of calling `Leave` once per name, in any order. */
  function LeaveAll(h: Hub, id: ClientId, names: set<RoomName>): (r: Hub)
    requires id in h.sessions
    ensures r.sessions.Keys == h.sessions.Keys && r.clients == h.clients
    ensures r.sessions[id].rooms == h.sessions[id].rooms - names
    ensures r.sessions[id].send == h.sessions[id].send && r.sessions[id].closed == h.sessions[id].closed
    ensures forall x :: x in h.sessions && x != id ==> r.sessions[x] == h.sessions[x]
    ensures forall x :: x in names && x in r.rooms ==> id !in r.rooms[x]
    ensures forall x :: x !in names ==> (x in r.rooms <==> x in h.rooms)
    ensures forall x :: x in h.rooms && x !in names ==> r.rooms[x] == h.rooms[x]
    ensures forall x :: x in r.rooms ==> x in h.rooms && r.rooms[x] <= h.rooms[x]
    ensures forall x, y :: x in h.rooms && y in h.rooms[x] && y != id ==> x in r.rooms && y in r.rooms[x]
    ensures Agreement(h) && h.sessions[id].rooms <= names ==> forall x :: x in r.rooms ==> id !in r.rooms[x]
    ensures Valid(h) ==> Valid(r)
  {
    var c := h.sessions[id];
    assert forall x, y :: x in h.rooms && y in h.rooms[x] && y != id ==> y in h.rooms[x] - {id};
    Hub(h.sessions[id := c.(rooms := c.rooms - names)], h.clients,
        map x | x in h.rooms && (x !in names || h.rooms[x] - {id} != {}) ::
          if x in names then h.rooms[x] - {id} else h.rooms[x])
  }

  /** Leaving no room changes nothing. */
  lemma LeaveAllNone(h: Hub, id: ClientId)
    requires id in h.sessions
    ensures LeaveAll(h, id, {}) == h
  {
    var r := LeaveAll(h, id, {});
    assert r.sessions[id].rooms == h.sessions[id].rooms;
    assert r.sessions == h.sessions;
    assert r.rooms == h.rooms;
  }

  /** Leaving one more room extends the reference definition by that room. */
  lemma LeaveAllStep(h: Hub, id: ClientId, done: set<RoomName>, room: RoomName)
    requires id in h.sessions
    ensures Leave(LeaveAll(h, id, done), id, room) == LeaveAll(h, id, done + {room})
  {
    var a := Leave(LeaveAll(h, id, done), id, room);
    var b := LeaveAll(h, id, done + {room});
    assert a.sessions[id].rooms == b.sessions[id].rooms;
    assert a.sessions == b.sessions;
    var mid := LeaveAll(h, id, done);
    forall x | x in a.rooms
      ensures a.rooms[x] == b.rooms[x]
    {
      if x == room {
        assert a.rooms[x] == mid.rooms[x] - {id};
        if x in done {
          assert mid.rooms[x] == h.rooms[x] - {id};
        }
      }
    }
    assert a.rooms.Keys == b.rooms.Keys;
    assert a.rooms == b.rooms;
  }

  /** Joining a room twice gives the same state as joining it once. */
  lemma JoinIdempotent(h: Hub, id: ClientId, room: RoomName)
    requires id in h.sessions
    ensures Join(Join(h, id, room), id, room) == Join(h, id, room)
  {
  }

  /** Joining a room the client is already in changes nothing. */
  lemma JoinMemberNoop(h: Hub, id: ClientId, room: RoomName)
    requires Agreement(h) && id in h.sessions && room in h.sessions[id].rooms
    ensures Join(h, id, room) == h
  {
    var r := Join(h, id, room);
    assert r.sessions[id] == h.sessions[id];
    assert r.sessions == h.sessions;
    assert r.rooms[room] == h.rooms[room];
    assert r.rooms == h.rooms;
  }

  /** Leaving a room that one has just joined, having not been in it before,
      restores the state exactly: Leave undoes Join. */
  lemma LeaveUndoesJoin(h: Hub, id: ClientId, room: RoomName)
    requires Valid(h) && id in h.sessions
    requires room !in h.sessions[id].rooms
    ensures Leave(Join(h, id, room), id, room) == h
  {
  }

  /** Leaving a room twice is the same as leaving it once. */
  lemma LeaveIdempotent(h: Hub, id: ClientId, room: RoomName)
    requires id in h.sessions
    ensures Leave(Leave(h, id, room), id, room) == Leave(h, id, room)
  {
    var once := Leave(h, id, room);
    var twice := Leave(once, id, room);
    assert twice.sessions[id].rooms == once.sessions[id].rooms;
    assert twice.sessions == once.sessions;
    assert room in once.rooms ==> once.rooms[room] - {id} == once.rooms[room];
    assert twice.rooms == once.rooms;
  }
}
