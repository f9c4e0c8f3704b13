/** Optional value, used for decoding results and handler lookups. */
module Wrappers {

  datatype Option<+T> = None | Some(value: T)
}

/**
  The hub's bookkeeping state: which client objects exist, which of them the
  hub currently counts as connected, which rooms exist and who is in them.
  Every operation of the hub is a pure transition on this record.
 */
module State {

  type ClientId = string
  type RoomName = string

  /** A JSON-shaped payload. `Bytes` stands for a raw Go byte slice, the
      payload the hub hands to its own lifecycle hooks. */
  datatype Value =
    | Null
    | Bool(b: bool)
    | Number(n: int)
    | Text(s: string)
    | Bytes(bytes: seq<bv8>)
    | List(items: seq<Value>)
    | Object(fields: map<string, Value>)

  /** The wire record `{event, data}`. */
  datatype Message = Message(event: string, data: Value)

  /** Buffer size of every client's outbound channel. */
  const SendCapacity: nat := 256

  /** One connected peer: its own room-name set, the messages sitting in its
      buffered outbound channel (oldest first), and whether that channel has
      been closed. */
  datatype Client = Client(rooms: set<RoomName>, send: seq<Message>, closed: bool)

  /** A client object as the hub creates it on admission. */
  const FreshClient: Client := Client({}, [], false)

  /** `sessions` holds every client object the hub has admitted, including
      those it later dropped (their closed flag stays observable);
      `clients` is the registry of connected IDs; `rooms` is the room index. */
  datatype Hub = Hub(
    sessions: map<ClientId, Client>,
    clients: set<ClientId>,
    rooms: map<RoomName, set<ClientId>>)

  /** An outbound channel that cannot take another message without blocking. */
  predicate Full(c: Client) {
    |c.send| >= SendCapacity
  }

  /** The client's own room set and the room index say the same thing. */
  ghost predicate Agreement(h: Hub) {
    && (forall id, r :: id in h.sessions && r in h.sessions[id].rooms ==> r in h.rooms && id in h.rooms[r])
    && (forall r, id :: r in h.rooms && id in h.rooms[r] ==> id in h.sessions && r in h.sessions[id].rooms)
  }

  /** No room is kept around with nobody in it. */
  ghost predicate NoEmptyRooms(h: Hub) {
    forall r :: r in h.rooms ==> h.rooms[r] != {}
  }

  /** Every registered client still has an open outbound channel. */
  ghost predicate RegisteredOpen(h: Hub) {
    forall id :: id in h.clients ==> id in h.sessions && !h.sessions[id].closed
  }

  /** No outbound channel holds more than its buffer size. */
  ghost predicate Bounded(h: Hub) {
    forall id :: id in h.sessions ==> |h.sessions[id].send| <= SendCapacity
  }

  ghost predicate Valid(h: Hub) {
    && Agreement(h)
    && NoEmptyRooms(h)
    && RegisteredOpen(h)
    && Bounded(h)
  }

  /** The state right after the hub is created: nothing registered, no rooms. */
  function NewHub(): (h: Hub)
    ensures Valid(h)
    ensures h.sessions == map[] && h.clients == {} && h.rooms == map[]
  {
    Hub(map[], {}, map[])
  }
}
