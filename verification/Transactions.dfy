/**
 * The transaction engine of core/transaction.c, lwm2m_step and handle_response, as a state machine over the
 * list of pending transactions and the log of what was sent and which callbacks ran.
 */
module Transactions {
  import opened Bytes
  import opened CoapPacket
  import opened IntrusiveList

  const COAP_RESPONSE_TIMEOUT := 2
  const COAP_MAX_RETRANSMIT := 4

  /** The record a transaction's peerP refers to, by its type and its number. */
  datatype Peer = Client(id: u16) | Server(index: nat) | BootstrapServer | UnknownPeer

  /** The addresses those records hold at the moment, which a new registration may have changed since. */
  type Book = Peer -> Address

  /**
   * lwm2m_transaction_t without its list link and id. serial tells transactions apart the way their addresses
   * do in C; wire is the buffer, absent until the first serialization succeeds.
   */
  datatype Transaction = Transaction(serial: nat, peer: Peer, message: Message, hasCallback: bool,
                                     counter: nat, time: int, wire: Option<seq<byte>>)

  datatype Datagram = Datagram(to: Address, bytes: seq<byte>)

  /**
   * A send attempt (nothing leaves for a bootstrap server yet), and the two ways a transaction completes. A timeout
   * runs the callback if there is one; an answer calls it without looking, so that false there is a call through null.
   */
  datatype Event =
    | Attempt(serial: nat, at: int, datagram: Option<Datagram>)
    | Answered(serial: nat, callbackRun: bool)
    | TimedOut(serial: nat, at: int, callbackRun: bool)

  type Pending = seq<Entry<Transaction>>

  // ----- transaction_send -----

  function WireOf(t: Transaction): seq<byte> {
    if t.wire.Some? then t.wire.value else Serialized(t.message)
  }

  /** The datagram leaves: the message serializes and the peer has a known type. */
  predicate Sendable(t: Transaction) {
    WireOf(t) != [] && !t.peer.UnknownPeer?
  }

  function DatagramOf(t: Transaction, book: Book): Option<Datagram> {
    if t.peer.Client? || t.peer.Server? then Some(Datagram(book(t.peer), WireOf(t))) else None
  }

  /** The counter and time transaction_send goes on with: a first send starts the clock, or gives up on it. */
  function Started(t: Transaction, now: int, clock: bool): Transaction {
    if t.counter != 0 then t
    else if clock then t.(counter := 1, time := now)
    else t.(counter := COAP_MAX_RETRANSMIT)
  }

  /** What one transaction_send leaves on the list, what it does, and its return value. */
  datatype Sent = Sent(kept: Option<Transaction>, events: seq<Event>, result: int)

  function Send(t: Transaction, now: int, clock: bool, book: Book): Sent {
    if WireOf(t) == [] then Sent(Some(t), [], INTERNAL_SERVER_ERROR_5_00)
    else
      var u := t.(wire := Some(WireOf(t)));
      if u.peer.UnknownPeer? then Sent(Some(u), [], -1)
      else
        var attempt := Attempt(u.serial, now, DatagramOf(u, book));
        var w := Started(u, now, clock);
        if w.counter < COAP_MAX_RETRANSMIT then
          Sent(Some(w.(counter := w.counter + 1, time := w.time + COAP_RESPONSE_TIMEOUT * w.counter)), [attempt], 0)
        else Sent(None, [attempt, TimedOut(u.serial, now, u.hasCallback)], -1)
  }

  // ----- lwm2m_step -----

  /** timeoutP->tv_sec after one transaction that stays has been looked at. */
  function Lowered(wait: int, time: int, now: int): int {
    var interval := if time > now then time - now else 1;
    if wait > interval then interval else wait
  }

  datatype Pass = Pass(pending: Pending, events: seq<Event>, wait: int)

  function StepOne(e: Entry<Transaction>, now: int, clock: bool, book: Book, wait: int): Pass {
    if e.item.time <= now then
      var s := Send(e.item, now, clock, book);
      Pass(if s.kept.Some? then [e.(item := s.kept.value)] else [], s.events,
           if s.result == 0 then Lowered(wait, s.kept.value.time, now) else wait)
    else Pass([e], [], Lowered(wait, e.item.time, now))
  }

  function StepAll(v: Pending, now: int, clock: bool, book: Book, wait: int): Pass {
    if v == [] then Pass([], [], wait)
    else
      var first := StepOne(v[0], now, clock, book, wait);
      var rest := StepAll(v[1..], now, clock, book, first.wait);
      Pass(first.pending + rest.pending, first.events + rest.events, rest.wait)
  }

  // ----- the engine -----

  datatype Engine = Engine(pending: Pending, log: seq<Event>, created: nat)

  const EMPTY := Engine([], [], 0)

  datatype Input =
    | Create(mid: u16, message: Message, peer: Peer, hasCallback: bool, now: int, clock: bool, book: Book)
    | Tick(reading: Option<int>, clock: bool, book: Book)
    | Receive(mid: u16, from: Address, book: Book)

  function Fresh(e: Engine, i: Input): Transaction
    requires i.Create?
  {
    Transaction(e.created, i.peer, i.message, i.hasCallback, 0, 0, None)
  }

  /** v with the entry at k replaced by what is kept of it. */
  function Settled(v: Pending, k: nat, kept: Option<Transaction>): Pending
    requires k < |v|
  {
    match kept case Some(t) => v[k := v[k].(item := t)] case None => Without(v, k)
  }

  predicate IsFrom(p: Peer, from: Address, book: Book) {
    (p.Client? || p.Server?) && book(p) == from
  }

  /**
   * Create is transaction_new, the addition to the list and the first transaction_send; Tick is lwm2m_step, with
   * no reading when gettimeofday fails; Receive is handle_response for a message with this id, with the callback run.
   */
  function Apply(e: Engine, i: Input): Engine {
    match i
    case Create(mid, _, _, _, now, clock, book) =>
      var t := Fresh(e, i);
      var s := Send(t, now, clock, book);
      var k := AddIndex(e.pending, mid);
      Engine(Settled(Inserted(e.pending, Entry(mid, t)), k, s.kept), e.log + s.events, e.created + 1)
    case Tick(None, _, _) => e
    case Tick(Some(now), clock, book) =>
      var p := StepAll(e.pending, now, clock, book, 0);
      Engine(p.pending, e.log + p.events, e.created)
    case Receive(mid, from, book) =>
      match Find(e.pending, mid)
      case None => e
      case Some(k) =>
        var t := e.pending[k].item;
        if IsFrom(t.peer, from, book)
        then Engine(Without(e.pending, k), e.log + [Answered(t.serial, t.hasCallback)], e.created)
        else e
  }

  function Run(e: Engine, inputs: seq<Input>): Engine
    decreases |inputs|
  {
    if inputs == [] then e else Run(Apply(e, inputs[0]), inputs[1..])
  }
}
