/**
  End-to-end runs of the hub operations on small concrete states.
 */
module Scenarios {
  import opened Wrappers
  import opened State
  import opened Rooms
  import opened Coordinator
  import opened Dispatch

  /** Two clients A and B join "lobby"; A broadcasts to the room. B's channel
      then holds exactly that one message, A's channel stays empty, and both
      remain registered. */
  method LobbyPing(m: Message) returns (h: Hub)
    ensures Valid(h)
    ensures "A" in h.sessions && "B" in h.sessions
    ensures h.sessions["B"].send == [m] && h.sessions["A"].send == []
    ensures h.clients == {"A", "B"}
    ensures "lobby" in h.rooms && h.rooms["lobby"] == {"A", "B"}
  {
    h := Register(Register(NewHub(), "A"), "B");
    h := Join(h, "A", "lobby");
    h := Join(h, "B", "lobby");
    assert h.rooms["lobby"] == {"A", "B"};
    h := BroadcastToRoom(h, "A", "lobby", m);
  }

  /** Deregistering the same client twice: the second request changes
      nothing, whatever state the first one left. */
  method UnregisterTwice(h: Hub, id: ClientId) returns (once: Hub, twice: Hub)
    requires id in h.sessions
    ensures id !in once.clients
    ensures twice == once
  {
    once := Unregister(h, id);
    twice := Unregister(once, id);
  }

  /** A `connect` handler registered before a client is admitted fires exactly
      once, for that client, on admission, with whatever the decoder makes of
      the empty payload (Go's JSON round trip of an empty byte slice gives the
      empty string). */
  lemma ConnectHandlerFires(s: Server, decode: Decoder, cb: Callback, id: ClientId, p: Value)
    requires id !in s.hub.sessions
    requires decode(Any, EmptyPayload) == Some(p)
    ensures Connect(On(s, "connect", cb), decode, id).1 == Some(Invoked(Call(cb, id, p)))
  {
  }
}
