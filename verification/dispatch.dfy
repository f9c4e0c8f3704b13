/**
  The server facade's event side: the handler table, the middleware chain,
  the decoding step of a handler, and what happens to one inbound message.
  User callbacks and middleware predicates are opaque; what the model tracks
  is which callback runs, for which client, with which decoded payload.
 */
module Dispatch {
  import opened Wrappers
  import opened State
  import Rooms
  import Coordinator

  /** The payload shape a handler decodes into: `Any` for handlers
      registered with `On` (decoded into an untyped value), `Typed(name)` for
      `OnTyped[T]`, named by its type. */
  datatype Shape = Any | Typed(name: string)

  /** A user callback, known only by its identity. */
  type Callback = nat

  /** A handler table entry: the callback and the shape it expects. */
  datatype Handler = Handler(callback: Callback, shape: Shape)

  /** Re-encoding a payload to JSON and decoding it into a shape; `None` when
      either step fails. Left abstract. */
  type Decoder = (Shape, Value) -> Option<Value>

  /** A middleware predicate over the sending client and the message. */
  type Middleware = (ClientId, Message) -> bool

  datatype Server = Server(hub: Hub, handlers: map<string, Handler>, middleware: seq<Middleware>)

  /** One run of a user callback. */
  datatype Call = Call(callback: Callback, client: ClientId, payload: Value)

  datatype Handled = Invoked(call: Call) | DecodeError

  /** The payload the hub hands to its `connect` and `disconnect` hooks: an
      empty byte slice. */
  const EmptyPayload: Value := Bytes([])

  /** `Handle` of a handler entry: decode the payload into the entry's shape;
      on failure report an error and do not run the callback, otherwise run
      the callback on the decoded payload. */
  function Handle(hd: Handler, decode: Decoder, client: ClientId, data: Value): (r: Handled)
    ensures r.DecodeError? <==> decode(hd.shape, data).None?
    ensures r.Invoked? ==> r.call.callback == hd.callback && r.call.client == client
    ensures r.Invoked? ==> decode(hd.shape, data) == Some(r.call.payload)
  {
    match decode(hd.shape, data)
    case None => DecodeError
    case Some(p) => Invoked(Call(hd.callback, client, p))
  }

  /** The empty server: no clients, no handlers, no middleware. */
  function NewServer(): (s: Server)
    ensures Valid(s.hub)
    ensures s.hub.sessions == map[] && s.hub.clients == {} && s.hub.rooms == map[]
    ensures s.handlers == map[] && s.middleware == []
  {
    Server(NewHub(), map[], [])
  }

  /** `On`: registers an untyped handler for `event`, replacing any handler
      that event already had; every other entry is kept. */
  function On(s: Server, event: string, cb: Callback): (r: Server)
    ensures event in r.handlers && r.handlers[event] == Handler(cb, Any)
    ensures r.handlers.Keys == s.handlers.Keys + {event}
    ensures forall e :: e in s.handlers && e != event ==> r.handlers[e] == s.handlers[e]
    ensures r.hub == s.hub && r.middleware == s.middleware
  {
    s.(handlers := s.handlers[event := Handler(cb, Any)])
  }

  /** `OnTyped[T]`: registers a handler decoding into shape `shape`, with the
      same replacement rule as `On`. */
  function OnTyped(s: Server, event: string, shape: string, cb: Callback): (r: Server)
    ensures event in r.handlers && r.handlers[event] == Handler(cb, Typed(shape))
    ensures r.handlers.Keys == s.handlers.Keys + {event}
    ensures forall e :: e in s.handlers && e != event ==> r.handlers[e] == s.handlers[e]
    ensures r.hub == s.hub && r.middleware == s.middleware
  {
    s.(handlers := s.handlers[event := Handler(cb, Typed(shape))])
  }

  /** Registering for the same event twice keeps only the second handler,
      whichever kind either registration was. */
  lemma LastRegistrationWins(s: Server, event: string, a: Callback, b: Callback, sa: string, sb: string)
    ensures On(On(s, event, a), event, b).handlers == On(s, event, b).handlers
    ensures On(OnTyped(s, event, sa, a), event, b).handlers == On(s, event, b).handlers
    ensures OnTyped(On(s, event, a), event, sb, b).handlers == OnTyped(s, event, sb, b).handlers
    ensures OnTyped(OnTyped(s, event, sa, a), event, sb, b).handlers == OnTyped(s, event, sb, b).handlers
  {
  }

  /** `Use`: appends a predicate to the end of the middleware chain; the
      earlier predicates keep their order. */
  function Use(s: Server, mw: Middleware): (r: Server)
    ensures |r.middleware| == |s.middleware| + 1
    ensures r.middleware[..|s.middleware|] == s.middleware
    ensures r.middleware[|s.middleware|] == mw
    ensures r.hub == s.hub && r.handlers == s.handlers
  {
    s.(middleware := s.middleware + [mw])
  }

  /** Every predicate of the chain accepts the message. */
  ghost predicate AllPass(chain: seq<Middleware>, id: ClientId, m: Message) {
    forall i :: 0 <= i < |chain| ==> chain[i](id, m)
  }

  /** Result of running the chain: whether the message goes on to dispatch,
      and how many predicates were called. */
  datatype Gate = Gate(proceed: bool, evaluated: nat)

  /** Runs the predicates in registration order and stops at the first one
      that rejects the message. The message goes on exactly when every
      predicate accepts it; when one rejects it, it is the first to do so and
      none after it is called. */
  function RunMiddleware(chain: seq<Middleware>, id: ClientId, m: Message): (r: Gate)
    ensures r.evaluated <= |chain|
    ensures r.proceed <==> AllPass(chain, id, m)
    ensures r.proceed ==> r.evaluated == |chain|
    ensures !r.proceed ==> 0 < r.evaluated && !chain[r.evaluated - 1](id, m)
    ensures !r.proceed ==> forall i :: 0 <= i < r.evaluated - 1 ==> chain[i](id, m)
    decreases |chain|
  {
    if chain == [] then Gate(true, 0)
    else if !chain[0](id, m) then Gate(false, 1)
    else
      var rest := RunMiddleware(chain[1..], id, m);
      assert forall i :: 1 <= i < |chain| ==> chain[i] == chain[1..][i - 1];
      Gate(rest.proceed, rest.evaluated + 1)
  }

  /** Adding a predicate with `Use` lets a message through exactly when the
      old chain did and the new predicate accepts it. */
  lemma UseAddsCheck(s: Server, mw: Middleware, id: ClientId, m: Message)
    ensures RunMiddleware(Use(s, mw).middleware, id, m).proceed
      <==> RunMiddleware(s.middleware, id, m).proceed && mw(id, m)
  {
  }

  /** What became of one inbound message. */
  datatype Outcome =
    | Blocked(evaluated: nat)   // a middleware predicate rejected it
    | Unhandled                 // no handler for its event name: dropped
    | Failed                    // the handler could not decode its payload
    | Dispatched(call: Call)    // the handler's callback ran

  /** The middleware and dispatch part of the read loop for one decoded
      message. Lookup is by event name alone. */
  function Inbound(s: Server, decode: Decoder, id: ClientId, msg: Message): (r: Outcome)
    ensures r.Blocked? <==> !AllPass(s.middleware, id, msg)
    ensures r.Blocked? ==> 0 < r.evaluated <= |s.middleware| && !s.middleware[r.evaluated - 1](id, msg)
    ensures r.Blocked? ==> forall i :: 0 <= i < r.evaluated - 1 ==> s.middleware[i](id, msg)
    ensures r.Unhandled? <==> AllPass(s.middleware, id, msg) && msg.event !in s.handlers
    ensures r.Failed? <==> (AllPass(s.middleware, id, msg) && msg.event in s.handlers
      && decode(s.handlers[msg.event].shape, msg.data).None?)
    ensures r.Dispatched? ==> (AllPass(s.middleware, id, msg) && msg.event in s.handlers
      && r.call.callback == s.handlers[msg.event].callback && r.call.client == id
      && decode(s.handlers[msg.event].shape, msg.data) == Some(r.call.payload))
  {
    var gate := RunMiddleware(s.middleware, id, msg);
    if !gate.proceed then Blocked(gate.evaluated)
    else if msg.event !in s.handlers then Unhandled
    else match Handle(s.handlers[msg.event], decode, id, msg.data)
      case DecodeError => Failed
      case Invoked(c) => Dispatched(c)
  }

  /** The lifecycle hook the hub fires itself: the handler registered under
      `name`, if any, run on the empty payload. */
  function Hook(s: Server, decode: Decoder, id: ClientId, name: string): (r: Option<Handled>)
    ensures r.None? <==> name !in s.handlers
    ensures r.Some? ==> r.value == Handle(s.handlers[name], decode, id, EmptyPayload)
  {
    if name in s.handlers then Some(Handle(s.handlers[name], decode, id, EmptyPayload)) else None
  }

  /** Admission by the coordinating loop: the client is registered, then the
      `connect` handler, if any, is run for it. */
  function Connect(s: Server, decode: Decoder, id: ClientId): (r: (Server, Option<Handled>))
    requires id !in s.hub.sessions
    ensures id in r.0.hub.clients && id in r.0.hub.sessions && r.0.hub.sessions[id] == FreshClient
    ensures r.0.hub.clients == s.hub.clients + {id} && r.0.hub.rooms == s.hub.rooms
    ensures r.0.hub.sessions.Keys == s.hub.sessions.Keys + {id}
    ensures forall x :: x in s.hub.sessions ==> r.0.hub.sessions[x] == s.hub.sessions[x]
    ensures Valid(s.hub) ==> Valid(r.0.hub)
    ensures r.0.handlers == s.handlers && r.0.middleware == s.middleware
    ensures r.1.Some? <==> "connect" in s.handlers
    ensures r.1.Some? ==> r.1.value == Handle(s.handlers["connect"], decode, id, EmptyPayload)
  {
    (s.(hub := Coordinator.Register(s.hub, id)), Hook(s, decode, id, "connect"))
  }

  /** Deregistration request processed by the coordinating loop. The hub
      state changes only for a registered client, but the `disconnect`
      handler runs on every request, including a repeated one. */
  method Disconnect(s: Server, decode: Decoder, id: ClientId) returns (r: Server, fired: Option<Handled>)
    requires id in s.hub.sessions
    ensures r.hub.clients == s.hub.clients - {id} && r.hub.sessions.Keys == s.hub.sessions.Keys
    ensures id !in s.hub.clients ==> r.hub == s.hub
    ensures id in s.hub.clients ==>
      r.hub == Rooms.LeaveAll(Coordinator.Dropped(s.hub, id), id, s.hub.sessions[id].rooms)
    ensures id in s.hub.clients ==> r.hub.sessions[id] == s.hub.sessions[id].(closed := true, rooms := {})
    ensures id in s.hub.clients && Agreement(s.hub) ==> forall x :: x in r.hub.rooms ==> id !in r.hub.rooms[x]
    ensures forall x :: x in s.hub.sessions && x != id ==> r.hub.sessions[x] == s.hub.sessions[x]
    ensures r.handlers == s.handlers && r.middleware == s.middleware
    ensures fired.Some? <==> "disconnect" in s.handlers
    ensures fired.Some? ==> fired.value == Handle(s.handlers["disconnect"], decode, id, EmptyPayload)
    ensures Valid(s.hub) ==> Valid(r.hub)
  {
    var hub := Coordinator.Unregister(s.hub, id);
    r := s.(hub := hub);
    fired := Hook(s, decode, id, "disconnect");
  }

  /** The reserved names are not reserved on the wire: a peer that sends an
      event named like a lifecycle hook, with any payload, reaches the handler
      entry the hub fires for that hook. The callback runs exactly when the
      payload decodes into the entry's shape, and it is the same callback the
      hub's own firing runs. */
  lemma PeerReachesHook(s: Server, decode: Decoder, id: ClientId, name: string, d: Value)
    requires name == "connect" || name == "disconnect"
    requires AllPass(s.middleware, id, Message(name, d)) && name in s.handlers
    ensures Hook(s, decode, id, name).Some?
    ensures Inbound(s, decode, id, Message(name, d)).Dispatched?
      <==> decode(s.handlers[name].shape, d).Some?
    ensures Inbound(s, decode, id, Message(name, d)).Dispatched? ==>
      Inbound(s, decode, id, Message(name, d)).call
        == Call(s.handlers[name].callback, id, decode(s.handlers[name].shape, d).value)
    ensures Inbound(s, decode, id, Message(name, d)).Dispatched? && Hook(s, decode, id, name).value.Invoked? ==>
      Inbound(s, decode, id, Message(name, d)).call.callback == Hook(s, decode, id, name).value.call.callback
  {
  }

  /** A message some middleware predicate rejects never reaches a callback. */
  lemma BlockedNeverDispatched(s: Server, decode: Decoder, id: ClientId, msg: Message, i: nat)
    requires i < |s.middleware| && !s.middleware[i](id, msg)
    ensures !Inbound(s, decode, id, msg).Dispatched?
    ensures Inbound(s, decode, id, msg).evaluated <= i + 1
  {
  }
}
