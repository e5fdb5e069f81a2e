/**
 * The server's side: the registry of clients (core/registration.c) and its observations on them (core/observe.c),
 * as a state machine over the list of clients and the log of what was sent and which callbacks ran.
 */
module Registry {
  import opened Bytes
  import opened CoapPacket
  import opened Uri
  import opened IntrusiveList
  import opened RegisterPayload

  /** lwm2m_observation_t without link and id; serial tells observations apart the way their addresses do in C. */
  datatype Observation = Observation(serial: nat, uri: Uri, confirmed: bool)

  /** lwm2m_client_t without link and id. Names are what C's string functions see of them. */
  datatype Client = Client(name: seq<byte>, addr: Address, objects: Objects, observations: seq<Entry<Observation>>)

  type Clients = seq<Entry<Client>>

  /**
   * A request handed to the transactions, a run of an observation's callback for the end of that request or for a
   * notification, a reset that was sent, or the end of the request of an observation that has been freed: there the
   * source calls through memory it no longer owns.
   */
  datatype Event =
    | Asked(serial: nat, client: u16, uri: Uri, message: Packet)
    | Answered(serial: nat, client: u16, uri: Uri, status: byte, payload: seq<byte>)
    | Notified(serial: nat, client: u16, uri: Uri, count: int, payload: seq<byte>)
    | Refused(to: Address, message: Packet)
    | Dangling(serial: nat)

  /** What the transaction of a request refers to: a client and an observation of it. */
  datatype Handle = Handle(client: u16, id: u16)

  /** open holds the requests whose transactions are still pending, by the serial of their observations. */
  datatype State = State(clients: Clients, nextMid: u16, created: nat, open: map<nat, Handle>, log: seq<Event>)

  // ----- looking things up -----

  const QUERY_TEMPLATE: seq<byte> := ['e' as int, 'p' as int, '=' as int]

  /** The string C sees in front of the first 0. */
  function CString(s: seq<byte>): seq<byte> {
    s[..Until(s, 0, 0)]
  }

  /** prv_getParameters: the value of the first query option that starts with ep= and goes on. */
  function NameIn(query: seq<seq<byte>>): Option<seq<byte>> {
    if query == [] then None
    else if |query[0]| > 3 && query[0][..3] == QUERY_TEMPLATE then Some(CString(query[0][3..]))
    else NameIn(query[1..])
  }

  /** prv_getClientByName */
  function FirstNamed(v: Clients, name: seq<byte>): (i: nat)
    ensures i <= |v|
    ensures i < |v| ==> v[i].item.name == name
    ensures forall j :: 0 <= j < i ==> v[j].item.name != name
  {
    if v == [] || v[0].item.name == name then 0 else 1 + FirstNamed(v[1..], name)
  }

  /** prv_findObservationByURI: all fields of the URI are compared. */
  function FirstFor(v: seq<Entry<Observation>>, uri: Uri): (i: nat)
    ensures i <= |v|
    ensures i < |v| ==> v[i].item.uri == uri
    ensures forall j :: 0 <= j < i ==> v[j].item.uri != uri
  {
    if v == [] || v[0].item.uri == uri then 0 else 1 + FirstFor(v[1..], uri)
  }

  /** The client at i with other observations. */
  function Observing(v: Clients, i: nat, observations: seq<Entry<Observation>>): Clients
    requires i < |v|
  {
    v[i := v[i].(item := v[i].item.(observations := observations))]
  }

  // ----- registration -----

  datatype Answer = Answer(status: byte, location: Option<seq<byte>>, state: State)

  /** prv_getLocationString */
  function Location(id: u16): seq<byte> {
    [SLASH] + RD + [SLASH] + Decimal(id)
  }

  /** The record of a known name keeps its id and observations; a new one gets the lowest unused id. */
  function WithClient(v: Clients, name: seq<byte>, from: Address, objects: Objects): (r: (Clients, u16)) {
    var i := FirstNamed(v, name);
    if i < |v| then (v[i := v[i].(item := v[i].item.(addr := from, objects := objects))], v[i].id)
    else (Inserted(v, Entry(NewId(v), Client(name, from, objects, []))), NewId(v))
  }

  function Post(s: State, message: Packet, from: Address): Answer {
    match NameIn(message.uriQuery)
    case None => Answer(BAD_REQUEST_4_00, None, s)
    case Some(name) =>
      var objects := DecodedOnto([], message.payload);
      if objects == [] then Answer(BAD_REQUEST_4_00, None, s)
      else
        var (v, id) := WithClient(s.clients, name, from, objects);
        Answer(CREATED_2_01, Some(Location(id)), s.(clients := v))
  }

  /**
   * handle_registration_request. Its checks of the URI's flags come down to a test of the resource bit, so that a
   * DELETE without an id is taken for one of client 0, and a POST with an id for one without.
   */
  function HandleRegistration(s: State, uri: Uri, message: Packet, from: Address): Answer {
    if message.code == COAP_POST then
      if uri.hasResource then Answer(BAD_REQUEST_4_00, None, s) else Post(s, message, from)
    else if message.code == COAP_PUT then Answer(NOT_IMPLEMENTED_5_01, None, s)
    else if message.code == COAP_DELETE then
      if uri.hasResource then Answer(BAD_REQUEST_4_00, None, s)
      else
        match RemoveIndex(s.clients, uri.objectId)
        case None => Answer(BAD_REQUEST_4_00, None, s)
        case Some(k) => Answer(DELETED_2_02, None, s.(clients := Without(s.clients, k)))
    else Answer(BAD_REQUEST_4_00, None, s)
  }

  // ----- observation -----

  const NO_ERROR: byte := 0

  /** The token of an observation: the client's id and the observation's. */
  function Token(client: u16, observation: u16): seq<byte> {
    [client / 0x100, client % 0x100, observation / 0x100, observation % 0x100]
  }

  /** The request transaction_new and lwm2m_observe build. */
  function ObserveRequest(uri: Uri, mid: u16, token: seq<byte>): Packet {
    Init(Con, COAP_GET, mid).(uriPath := Segments(uri), observe := 0, token := token, options := {URI_PATH, OBSERVE, TOKEN})
  }

  datatype Outcome = Outcome(status: byte, state: State)

  /** One observation more of the client at i, and the request for it. */
  function Opening(s: State, i: nat, uri: Uri): State
    requires i < |s.clients|
  {
    var v, client := s.clients[i].item.observations, s.clients[i].id;
    var id := NewId(v);
    var asked := Asked(s.created, client, uri, ObserveRequest(uri, s.nextMid, Token(client, id)));
    State(Observing(s.clients, i, Inserted(v, Entry(id, Observation(s.created, uri, false)))),
          (s.nextMid + 1) % 0x1_0000, s.created + 1, s.open[s.created := Handle(client, id)], s.log + [asked])
  }

  /** lwm2m_observe, up to the send */
  function Observe(s: State, client: u16, uri: Uri): Outcome {
    if !uri.hasInstance && uri.hasResource then Outcome(BAD_REQUEST_4_00, s)
    else
      match Find(s.clients, client)
      case None => Outcome(NOT_FOUND_4_04, s)
      case Some(i) => Outcome(NO_ERROR, Opening(s, i, uri))
  }

  /** The observation lwm2m_observe_cancel finds. */
  function Cancelled(s: State, client: u16, uri: Uri): Option<Observation> {
    match Find(s.clients, client)
    case None => None
    case Some(i) =>
      var v := s.clients[i].item.observations;
      var k := FirstFor(v, uri);
      if k < |v| then Some(v[k].item) else None
  }

  /** lwm2m_observe_cancel */
  function Cancel(s: State, client: u16, uri: Uri): Outcome {
    match Find(s.clients, client)
    case None => Outcome(NOT_FOUND_4_04, s)
    case Some(i) =>
      var v := s.clients[i].item.observations;
      var k := FirstFor(v, uri);
      if k == |v| then Outcome(NOT_FOUND_4_04, s)
      else Outcome(NO_ERROR, s.(clients := Observing(s.clients, i, Without(v, k))))
  }

  /** What a request for an observation came to: None stands for its timeout. */
  function ReplyCode(reply: Option<Packet>): byte {
    match reply
    case None => SERVICE_UNAVAILABLE_5_03
    case Some(p) => if p.code == CONTENT_2_05 && OBSERVE !in p.options then METHOD_NOT_ALLOWED_4_05 else p.code
  }

  /** The callback, and the observation kept or dropped: number k of the client at i. */
  function Closed(s: State, i: nat, k: nat, reply: Option<Packet>): State
    requires i < |s.clients| && k < |s.clients[i].item.observations|
  {
    var client, v := s.clients[i].id, s.clients[i].item.observations;
    var o, code := v[k].item, ReplyCode(reply);
    if code != CONTENT_2_05 then
      s.(clients := Observing(s.clients, i, Without(v, k)), log := s.log + [Answered(o.serial, client, o.uri, code, [])])
    else
      s.(clients := Observing(s.clients, i, v[k := v[k].(item := o.(confirmed := true))]),
         log := s.log + [Answered(o.serial, client, o.uri, code, reply.value.payload)])
  }

  /** prv_obsRequestCallback for the request of the observation with this serial: reply is None at its timeout. */
  function Completed(s: State, serial: nat, reply: Option<Packet>): State {
    if serial !in s.open then s
    else
      var t, h := s.(open := s.open - {serial}), s.open[serial];
      var dangling := t.(log := t.log + [Dangling(serial)]);
      match Find(s.clients, h.client)
      case None => dangling
      case Some(i) =>
        var v := s.clients[i].item.observations;
        match Find(v, h.id)
        case None => dangling
        case Some(k) => if v[k].item.serial != serial then dangling else Closed(t, i, k, reply)
  }

  /** The Observe value as the int a callback is given. */
  function AsInt(n: u32): (r: int)
    ensures -0x8000_0000 <= r < 0x8000_0000 && (r == n || r + 0x1_0000_0000 == n)
  {
    if n < 0x8000_0000 then n else n - 0x1_0000_0000
  }

  function IdAt(token: seq<byte>, i: nat): u16
    requires i + 1 < |token|
  {
    (token[i] as int) * 0x100 + token[i + 1]
  }

  /** A message with no transaction to answer goes to handle_observe_notify if it has an Observe option. */
  function Notify(s: State, message: Packet, from: Address): State {
    if OBSERVE !in message.options || TOKEN !in message.options || |message.token| != 4 then s
    else
      var client, id := IdAt(message.token, 0), IdAt(message.token, 2);
      match Find(s.clients, client)
      case None => s
      case Some(i) =>
        var v := s.clients[i].item.observations;
        match Find(v, id)
        case None => s.(log := s.log + [Refused(from, Init(Rst, 0, message.mid))])
        case Some(k) =>
          var o := v[k].item;
          s.(log := s.log + [Notified(o.serial, client, o.uri, AsInt(message.observe), message.payload)])
  }

  // ----- runs -----

  datatype Input =
    | RegistrationRequest(uri: Uri, message: Packet, from: Address)
    | StartObserve(client: u16, uri: Uri)
    | StopObserve(client: u16, uri: Uri)
    | RequestDone(serial: nat, reply: Option<Packet>)
    | Incoming(message: Packet, from: Address)
    /** Another part of the engine starts a transaction, or only takes a message id. */
    | OtherRequest
    | OtherMessage

  function Apply(s: State, i: Input): State {
    match i
    case RegistrationRequest(uri, message, from) => HandleRegistration(s, uri, message, from).state
    case StartObserve(client, uri) => Observe(s, client, uri).state
    case StopObserve(client, uri) => Cancel(s, client, uri).state
    case RequestDone(serial, reply) => Completed(s, serial, reply)
    case Incoming(message, from) => Notify(s, message, from)
    case OtherRequest => s.(nextMid := (s.nextMid + 1) % 0x1_0000, created := s.created + 1)
    case OtherMessage => s.(nextMid := (s.nextMid + 1) % 0x1_0000)
  }

  function Run(s: State, inputs: seq<Input>): State
    decreases |inputs|
  {
    if inputs == [] then s else Run(Apply(s, inputs[0]), inputs[1..])
  }

  function Start(mid: u16): State {
    State([], mid, 0, map[], [])
  }
}
