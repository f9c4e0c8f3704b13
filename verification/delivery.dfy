/**
  Outbound delivery: the non-blocking enqueue onto a client's bounded channel,
  which sheds the client when the channel is full, its fan-out to a set of
  clients, and the receiving end of the channel.
 */
module Delivery {
  import opened State

  /** What one non-blocking send does to the client object: append when there
      is room, otherwise close the channel. */
  function Deliver(c: Client, m: Message): (r: Client)
    ensures r.rooms == c.rooms
    ensures !Full(c) ==> r.send == c.send + [m] && r.closed == c.closed
    ensures Full(c) ==> r.send == c.send && r.closed
  {
    if Full(c) then c.(closed := true) else c.(send := c.send + [m])
  }

  /** `Emit` on client `id`, whose channel must still be open (sending on a
      closed channel is a Go panic). With room in the buffer the message goes
      at the back and nothing else changes; with a full buffer the client is
      shed: its channel is closed and its ID leaves the registry. The room
      index is not touched in either case. */
  function Emit(h: Hub, id: ClientId, m: Message): (r: Hub)
    requires id in h.sessions && !h.sessions[id].closed
    ensures r.sessions.Keys == h.sessions.Keys && r.rooms == h.rooms
    ensures r.sessions[id].rooms == h.sessions[id].rooms
    ensures !Full(h.sessions[id]) ==> r.sessions[id].send == h.sessions[id].send + [m] && !r.sessions[id].closed
    ensures !Full(h.sessions[id]) ==> r.clients == h.clients
    ensures Full(h.sessions[id]) ==> r.sessions[id].closed && r.sessions[id].send == h.sessions[id].send
    ensures Full(h.sessions[id]) ==> r.clients == h.clients - {id}
    ensures forall x :: x in h.sessions && x != id ==> r.sessions[x] == h.sessions[x]
    ensures Valid(h) ==> Valid(r)
  {
    var c := h.sessions[id];
    Hub(h.sessions[id := Deliver(c, m)], if Full(c) then h.clients - {id} else h.clients, h.rooms)
  }

  /** Every client in `targets` exists and can still be sent to. */
  ghost predicate Sendable(h: Hub, targets: set<ClientId>) {
    forall id :: id in targets ==> id in h.sessions && !h.sessions[id].closed
  }

  /** The clients of `targets` whose channel is full, and so would be shed. */
  function Saturated(h: Hub, targets: set<ClientId>): set<ClientId>
    requires targets <= h.sessions.Keys
  {
    set id | id in targets && Full(h.sessions[id])
  }

  /** Reference definition of emitting one message to every client of
      `targets`, independent of the order the sends happen in. */
  function EmitAll(h: Hub, targets: set<ClientId>, m: Message): (r: Hub)
    requires Sendable(h, targets)
    ensures r.sessions.Keys == h.sessions.Keys && r.rooms == h.rooms
    ensures forall x :: x in h.sessions && x !in targets ==> r.sessions[x] == h.sessions[x]
    ensures forall x :: x !in targets ==> (x in r.clients <==> x in h.clients)
    ensures forall x :: x in targets && !Full(h.sessions[x]) ==>
      r.sessions[x] == h.sessions[x].(send := h.sessions[x].send + [m]) && (x in r.clients <==> x in h.clients)
    ensures forall x :: x in targets && Full(h.sessions[x]) ==>
      r.sessions[x] == h.sessions[x].(closed := true) && x !in r.clients
    ensures Valid(h) ==> Valid(r)
  {
    Hub(map x | x in h.sessions :: if x in targets then Deliver(h.sessions[x], m) else h.sessions[x],
        h.clients - Saturated(h, targets),
        h.rooms)
  }

  /** Emitting to no one changes nothing. */
  lemma EmitAllNone(h: Hub, m: Message)
    ensures EmitAll(h, {}, m) == h
  {
  }

  /** Emitting to a single client is `Emit`. */
  lemma EmitAllSingle(h: Hub, id: ClientId, m: Message)
    requires id in h.sessions && !h.sessions[id].closed
    ensures EmitAll(h, {id}, m) == Emit(h, id, m)
  {
  }

  /** One more `Emit`, to a client not yet reached, extends the fan-out by
      that client. */
  lemma EmitAllStep(h: Hub, done: set<ClientId>, id: ClientId, m: Message)
    requires Sendable(h, done + {id}) && id !in done
    ensures Emit(EmitAll(h, done, m), id, m) == EmitAll(h, done + {id}, m)
  {
  }

  /** What the consumer of an outbound channel observes on one receive. */
  datatype Received =
    | Item(m: Message)   // the oldest buffered message
    | Drained            // the channel is closed and empty: `ok` is false
    | Waiting            // the channel is open and empty: the receive blocks

  /** One receive from the client's channel. Buffered messages are still
      handed out after the channel is closed; only an empty closed channel
      reports closure. */
  function Receive(c: Client): (r: (Received, Client))
    ensures r.0.Item? <==> |c.send| > 0
    ensures r.0.Item? ==> r.0.m == c.send[0] && r.1 == c.(send := c.send[1..])
    ensures r.0.Drained? <==> c.send == [] && c.closed
    ensures !r.0.Item? ==> r.1 == c
  {
    if |c.send| > 0 then (Item(c.send[0]), c.(send := c.send[1..]))
    else if c.closed then (Drained, c)
    else (Waiting, c)
  }

  /** The channel's consumer taking one receive from client `id`'s channel,
      as a hub transition: only that client's buffer can change, and only by
      losing its oldest message. */
  function Consume(h: Hub, id: ClientId): (r: (Received, Hub))
    requires id in h.sessions
    ensures r.1.sessions.Keys == h.sessions.Keys && r.1.clients == h.clients && r.1.rooms == h.rooms
    ensures r.0.Item? <==> |h.sessions[id].send| > 0
    ensures r.0.Item? ==> r.0.m == h.sessions[id].send[0] && r.1.sessions[id].send == h.sessions[id].send[1..]
    ensures r.0.Drained? <==> h.sessions[id].send == [] && h.sessions[id].closed
    ensures !r.0.Item? ==> r.1 == h
    ensures r.1.sessions[id].rooms == h.sessions[id].rooms && r.1.sessions[id].closed == h.sessions[id].closed
    ensures forall x :: x in h.sessions && x != id ==> r.1.sessions[x] == h.sessions[x]
    ensures Valid(h) ==> Valid(r.1)
  {
    var (got, c) := Receive(h.sessions[id]);
    if got.Item? then (got, h.(sessions := h.sessions[id := c])) else (got, h)
  }

  /** Consuming right after an `Emit` to an open client with an empty channel
      hands out that message and restores the state: Consume undoes Emit. */
  lemma ConsumeUndoesEmit(h: Hub, id: ClientId, m: Message)
    requires id in h.sessions && !h.sessions[id].closed && h.sessions[id].send == []
    ensures Consume(Emit(h, id, m), id) == (Item(m), h)
  {
    var r := Consume(Emit(h, id, m), id);
    assert r.1.sessions[id] == h.sessions[id];
    assert r.1.sessions == h.sessions;
  }

  /** The messages handed out by `n` successive receives (stopping early if
      the channel has nothing more to give). */
  function Drain(c: Client, n: nat): (r: seq<Message>)
    ensures |r| <= n
    decreases n
  {
    if n == 0 then []
    else
      var (got, rest) := Receive(c);
      if got.Item? then [got.m] + Drain(rest, n - 1) else []
  }

  /** Receiving as many times as there are buffered messages yields exactly
      the buffer, oldest first. */
  lemma {:induction false} DrainAll(c: Client)
    ensures Drain(c, |c.send|) == c.send
    decreases |c.send|
  {
    if |c.send| > 0 {
      DrainAll(c.(send := c.send[1..]));
    }
  }

  /** Messages sent to one client come out of its channel in the order they
      were sent: the consumer sees every earlier message, then `m`. */
  lemma EmitThenDrain(c: Client, m: Message)
    requires !Full(c) && !c.closed
    ensures Drain(Deliver(c, m), |c.send| + 1) == c.send + [m]
  {
    DrainAll(Deliver(c, m));
  }
}
