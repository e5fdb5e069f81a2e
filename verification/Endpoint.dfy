/**
 * The engine as one: the pending transactions, the server's registry and the client's observed table of an
 * lwm2m_context_t, and the branch of lwm2m_handle_packet that hands a message to them (core/packet.c).
 */
module Endpoint {
  import opened Bytes
  import opened CoapPacket
  import opened Uri
  import opened IntrusiveList
  import opened ListLookup
  import opened Transactions
  import R = Registry
  import O = Observe
  import opened RegistrationClient

  /**
   * The three parts take their message ids from the same counter, and each request to observe is a transaction. stale
   * holds the serials of transactions that were pending to a client when its record was freed; held is what the client
   * keeps of its registration with each server.
   */
  datatype Context = Context(engine: Engine, registry: R.State, watched: O.State, stale: set<nat>, held: seq<Held>)

  /** The addresses in the records transactions refer to. */
  function AddressIn(c: Context, p: Peer): Address {
    match p
    case Client(id) => (match Lookup(c.registry.clients, id) case Some(client) => client.addr case None => [])
    case Server(k) => if k < |c.watched.servers| then c.watched.servers[k].addr else []
    case _ => []
  }

  function BookOf(c: Context): Book {
    (p: Peer) => AddressIn(c, p)
  }

  // ----- registrations -----

  /** What is held of server k changes, and with it whether that server may observe. */
  function Holds(c: Context, k: nat, h: Held): Context
    requires k < |c.held|
  {
    c.(held := c.held[k := h], watched := O.Apply(c.watched, O.Registering(k, h.status == Status.Registered)))
  }

  /** prv_handleRegistrationReply: no request but a registration is made to a server. */
  function CalledBack(c: Context, peer: Peer, reply: Option<Packet>): Context {
    if peer.Server? && peer.index < |c.held| && OnReply(c.held[peer.index], reply) != c.held[peer.index] then
      Holds(c, peer.index, OnReply(c.held[peer.index], reply))
    else c
  }

  // ----- messages that are not requests -----

  /** handle_reset */
  function AfterReset(c: Context, message: Packet, from: Address): Context {
    if message.kind == Rst then c.(watched := O.Apply(c.watched, O.Reset(message.mid, from))) else c
  }

  /** The transaction at k ends with this message, and with it the request to observe it may have been. */
  function Completing(c: Context, k: nat, message: Packet, from: Address): Context
    requires k < |c.engine.pending|
  {
    c.(engine := Transactions.Apply(c.engine, Receive(message.mid, from, BookOf(c))),
       registry := R.Completed(c.registry, c.engine.pending[k].item.serial, Some(message)))
  }

  /** handle_response: the callback, that of a request to observe or of a registration, and the end of the transaction. */
  function AfterAnswer(c: Context, k: nat, message: Packet, from: Address): Context
    requires k < |c.engine.pending|
  {
    var t := c.engine.pending[k].item;
    if IsFrom(t.peer, from, BookOf(c)) then
      var d := Completing(c, k, message, from);
      if t.hasCallback then CalledBack(d, t.peer, Some(message)) else d
    else c
  }

  /**
   * What lwm2m_handle_packet does with a message that is no request: a reset first cancels an observation; then the
   * first pending transaction with the message id takes the message, whoever it is from and whatever it is; only
   * when there is none can it be a notification.
   */
  function OnResponse(c: Context, message: Packet, from: Address): Context {
    var d := AfterReset(c, message, from);
    match Find(d.engine.pending, message.mid)
    case Some(k) => AfterAnswer(d, k, message, from)
    case None => d.(registry := R.Notify(d.registry, message, from))
  }

  // ----- transactions started and given up -----

  /** The callbacks of requests to observe that time out, in order. */
  function TimedOutAll(r: R.State, events: seq<Event>): R.State
    decreases |events|
  {
    if events == [] then r
    else
      var ev := events[0];
      TimedOutAll(if ev.TimedOut? && ev.callbackRun then R.Completed(r, ev.serial, None) else r, events[1..])
  }

  /** The transactions the engine looks at: those pending, and the one just created. */
  function Looked(e: Engine, i: Transactions.Input): Pending {
    if i.Create? then Inserted(e.pending, Entry(i.mid, Fresh(e, i))) else e.pending
  }

  function PeerIn(v: Pending, n: nat): Peer {
    if v == [] then UnknownPeer else if v[0].item.serial == n then v[0].item.peer else PeerIn(v[1..], n)
  }

  /** The callbacks of registrations that time out, in order. */
  function HeldTimedOut(c: Context, v: Pending, events: seq<Event>): Context
    decreases |events|
  {
    if events == [] then c
    else
      var ev := events[0];
      HeldTimedOut(if ev.TimedOut? && ev.callbackRun then CalledBack(c, PeerIn(v, ev.serial), None) else c, v, events[1..])
  }

  /** What the engine does, and the callbacks of requests to observe it runs by itself. */
  function Stepped(c: Context, i: Transactions.Input): Context {
    var e := Transactions.Apply(c.engine, i);
    c.(engine := e, registry := TimedOutAll(c.registry, NewEvents(c.engine, e)))
  }

  /** With those of registrations. */
  function WithEngine(c: Context, i: Transactions.Input): Context {
    HeldTimedOut(Stepped(c, i), Looked(c.engine, i), NewEvents(c.engine, Transactions.Apply(c.engine, i)))
  }

  function NewEvents(e: Engine, f: Engine): seq<Event> {
    if |e.log| <= |f.log| then f.log[|e.log|..] else []
  }

  /** The request of lwm2m_observe. */
  function ObserveMessage(c: Context, client: u16, uri: Uri): Message {
    match Find(c.registry.clients, client)
    case Some(i) =>
      var id := NewId(c.registry.clients[i].item.observations);
      R.ObserveRequest(uri, c.registry.nextMid, R.Token(client, id))
    case None => Init(Con, COAP_GET, c.registry.nextMid)
  }

  function ObserveTaken(c: Context, client: u16, uri: Uri): Context {
    var r := R.Observe(c.registry, client, uri).state;
    c.(registry := r, watched := c.watched.(nextMid := r.nextMid))
  }

  function ObserveRequested(c: Context, client: u16, uri: Uri, now: int, clock: bool): Transactions.Input {
    Create(c.registry.nextMid, ObserveMessage(c, client, uri), Client(client), true, now, clock, BookOf(c))
  }

  /** lwm2m_observe, with its first send */
  function StartObserve(c: Context, client: u16, uri: Uri, now: int, clock: bool): Context {
    if R.Observe(c.registry, client, uri).status != R.NO_ERROR then c
    else WithEngine(ObserveTaken(c, client, uri), ObserveRequested(c, client, uri, now, clock))
  }

  /** The message id of a request is taken, and the serial of its transaction. */
  function IdTaken(c: Context): Context {
    var r := R.Apply(c.registry, R.OtherRequest);
    c.(registry := r, watched := c.watched.(nextMid := r.nextMid))
  }

  function Requested(c: Context, message: Message, peer: Peer, hasCallback: bool, now: int, clock: bool): Transactions.Input {
    Create(c.registry.nextMid, message.(mid := c.registry.nextMid), peer, hasCallback, now, clock, BookOf(c))
  }

  /** Any other request: of the server to a client, or of the client to a server. */
  function StartRequest(c: Context, message: Message, peer: Peer, hasCallback: bool, now: int, clock: bool): Context {
    WithEngine(IdTaken(c), Requested(c, message, peer, hasCallback, now, clock))
  }

  /** The turn of lwm2m_register for server k: it is pending once its request has left. */
  function Enrol(c: Context, k: nat, name: seq<byte>, payload: seq<byte>, now: int, clock: bool): Context
    requires k < |c.held|
  {
    var mid := c.registry.nextMid;
    var i := Requested(c, RegisterRequest(name, payload, mid), Server(k), true, now, clock);
    var d := StartRequest(c, RegisterRequest(name, payload, mid), Server(k), true, now, clock);
    if k < |d.held| && Send(Fresh(c.engine, i), now, clock, i.book).result == 0 then
      Holds(d, k, Held(Status.Pending, mid, d.held[k].location))
    else d
  }

  /** registration_deregister for server k */
  function Withdraw(c: Context, k: nat): Context
    requires k < |c.held|
  {
    if c.held[k].status != Status.Registered then c
    else
      var r := R.Apply(c.registry, R.OtherMessage);
      Holds(c.(registry := r, watched := c.watched.(nextMid := r.nextMid)), k, c.held[k].(status := Unknown))
  }

  /** handle_registration_request; a deregistered client is freed, pending transactions or not. */
  function AfterRegistration(c: Context, uri: Uri, message: Packet, from: Address): Context {
    var a := R.HandleRegistration(c.registry, uri, message, from);
    c.(registry := a.state,
       stale := if a.status == DELETED_2_02 then c.stale + SerialsTo(c.engine.pending, Client(uri.objectId)) else c.stale)
  }

  function SerialsTo(v: Pending, peer: Peer): set<nat> {
    set k | 0 <= k < |v| && v[k].item.peer == peer :: v[k].item.serial
  }

  // ----- runs -----

  datatype Input =
    | Response(message: Packet, from: Address)
    | Step(reading: Option<int>, clock: bool)
    | Subscribing(client: u16, uri: Uri, now: int, clock: bool)
    | Cancelling(client: u16, uri: Uri)
    | Requesting(request: Message, peer: Peer, hasCallback: bool, now: int, clock: bool)
    | Registering(uri: Uri, message: Packet, from: Address)
    | Enrolling(server: nat, name: seq<byte>, payload: seq<byte>, now: int, clock: bool)
    | Withdrawing(server: nat)
    /** What changes the client's table otherwise: requests and value changes. */
    | Watching(input: O.Input)

  function Apply(c: Context, i: Input): Context {
    match i
    case Response(message, from) => OnResponse(c, message, from)
    case Step(reading, clock) => WithEngine(c, Tick(reading, clock, BookOf(c)))
    case Subscribing(client, uri, now, clock) => StartObserve(c, client, uri, now, clock)
    case Cancelling(client, uri) => c.(registry := R.Cancel(c.registry, client, uri).state)
    case Requesting(request, peer, hasCallback, now, clock) => StartRequest(c, request, peer, hasCallback, now, clock)
    case Registering(uri, message, from) => AfterRegistration(c, uri, message, from)
    case Enrolling(k, name, payload, now, clock) =>
      if k < |c.held| then Enrol(c, k, name, payload, now, clock) else c
    case Withdrawing(k) => if k < |c.held| then Withdraw(c, k) else c
    case Watching(input) =>
      if input.Registering? then c
      else
        var t := O.Apply(c.watched, input);
        c.(watched := t, registry := c.registry.(nextMid := t.nextMid))
  }

  function Run(c: Context, inputs: seq<Input>): Context
    decreases |inputs|
  {
    if inputs == [] then c else Run(Apply(c, inputs[0]), inputs[1..])
  }

  /** Servers have addresses, and no registrations yet. */
  function Start(addresses: seq<Address>, mid: u16): Context {
    var servers := seq(|addresses|, k requires 0 <= k < |addresses| => O.Server(addresses[k], false));
    Context(EMPTY, R.Start(mid), O.Start(servers, mid), {}, seq(|addresses|, _ => Held(Unknown, 0, [])))
  }
}
