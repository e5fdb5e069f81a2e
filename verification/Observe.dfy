/**
 * The client's side of observation (core/observe.c): the table of observed URIs and their watchers, as it is
 * changed by requests, by resets and by value changes.
 */
module Observe {
  import opened Bytes
  import opened CoapPacket
  import opened Uri

  /** The part of lwm2m_server_t that matters here. A watcher names a server by its place in the list. */
  datatype Server = Server(addr: Address, registered: bool)

  /** lwm2m_watcher_t; serial tells watchers apart the way their addresses do in C. */
  datatype Watcher = Watcher(serial: nat, server: nat, token: seq<byte>, counter: u32, lastMid: u16)

  datatype Observed = Observed(uri: Uri, watchers: seq<Watcher>)

  type Table = seq<Observed>

  /** The Observe value of the answer to a request, or a notification handed to the network. */
  datatype Event = Confirmed(serial: nat, value: u32) | Notified(serial: nat, to: Address, message: Packet)

  datatype State = State(servers: seq<Server>, table: Table, nextMid: u16, created: nat, log: seq<Event>)

  // ----- looking things up -----

  /** prv_findObserved's test of a table entry's URI against the one asked for. */
  predicate SameUri(u: Uri, asked: Uri) {
    && u.objectId == asked.objectId
    && u.kind == asked.kind && u.hasObject == asked.hasObject
    && u.hasInstance == asked.hasInstance && u.hasResource == asked.hasResource
    && (asked.hasInstance ==> u.instanceId == asked.instanceId)
    && (asked.hasResource ==> u.resourceId == asked.resourceId)
  }

  /** prv_getObservedList's test: equal wherever both name an instance, and wherever both name a resource. */
  predicate Overlaps(u: Uri, changed: Uri) {
    && u.objectId == changed.objectId
    && (changed.hasInstance && u.hasInstance ==> changed.instanceId == u.instanceId)
    && (changed.hasResource && u.hasResource ==> changed.resourceId == u.resourceId)
  }

  /** prv_findServer stops at the first server whose address has the same length or agrees with the sender's. */
  predicate TakenFor(s: Server, from: Address) {
    |s.addr| == |from| || from <= s.addr
  }

  function FirstObserved(t: Table, uri: Uri): (i: nat)
    ensures i <= |t|
    ensures i < |t| ==> SameUri(t[i].uri, uri)
    ensures forall j :: 0 <= j < i ==> !SameUri(t[j].uri, uri)
  {
    if t == [] || SameUri(t[0].uri, uri) then 0 else 1 + FirstObserved(t[1..], uri)
  }

  function FirstServer(servers: seq<Server>, from: Address): (i: nat)
    ensures i <= |servers|
    ensures i < |servers| ==> TakenFor(servers[i], from)
    ensures forall j :: 0 <= j < i ==> !TakenFor(servers[j], from)
  {
    if servers == [] || TakenFor(servers[0], from) then 0 else 1 + FirstServer(servers[1..], from)
  }

  function FirstWatcher(ws: seq<Watcher>, server: nat): (i: nat)
    ensures i <= |ws|
    ensures i < |ws| ==> ws[i].server == server
    ensures forall j :: 0 <= j < i ==> ws[j].server != server
  {
    if ws == [] || ws[0].server == server then 0 else 1 + FirstWatcher(ws[1..], server)
  }

  // ----- a request -----

  /** coap_set_header_observe keeps 24 bits. */
  function ObserveValue(counter: u32): u32 {
    counter % 0x100_0000
  }

  /** A table in which the URI is observed, in front if it was not. */
  function WithObserved(t: Table, uri: Uri): (r: (Table, nat))
    ensures r.1 < |r.0|
  {
    var i := FirstObserved(t, uri);
    if i < |t| then (t, i) else ([Observed(uri, [])] + t, 0)
  }

  /** A watcher list in which the server watches, in front if it did not. */
  function WithWatcher(ws: seq<Watcher>, server: nat, token: seq<byte>, serial: nat): (r: (seq<Watcher>, nat))
    ensures r.1 < |r.0|
  {
    var i := FirstWatcher(ws, server);
    if i < |ws| then (ws, i) else ([Watcher(serial, server, token, 0, 0)] + ws, 0)
  }

  function Bumped(w: Watcher): Watcher {
    w.(counter := (w.counter + 1) % 0x1_0000_0000)
  }

  datatype Answer = Answer(status: byte, state: State)

  /** handle_observe_request; Confirmed in the log is the Observe value of the answer. */
  function Request(s: State, uri: Uri, from: Address, token: seq<byte>): Answer {
    if !uri.hasInstance && uri.hasResource then Answer(BAD_REQUEST_4_00, s)
    else if token == [] then Answer(BAD_REQUEST_4_00, s)
    else
      var server := FirstServer(s.servers, from);
      if server == |s.servers| || !s.servers[server].registered then Answer(UNAUTHORIZED_4_01, s)
      else
        var (t, i) := WithObserved(s.table, uri);
        var (ws, j) := WithWatcher(t[i].watchers, server, token, s.created);
        var w := ws[j];
        Answer(CONTENT_2_05,
          s.(table := t[i := t[i].(watchers := ws[j := Bumped(w)])],
             created := s.created + 1, log := s.log + [Confirmed(w.serial, ObserveValue(w.counter))]))
  }

  // ----- a reset -----

  predicate Hit(servers: seq<Server>, w: Watcher, mid: u16, from: Address) {
    w.lastMid == mid && w.server < |servers| && servers[w.server].addr == from
  }

  function FirstHit(servers: seq<Server>, ws: seq<Watcher>, mid: u16, from: Address): (j: nat)
    ensures j <= |ws|
    ensures j < |ws| ==> Hit(servers, ws[j], mid, from)
    ensures forall k :: 0 <= k < j ==> !Hit(servers, ws[k], mid, from)
  {
    if ws == [] || Hit(servers, ws[0], mid, from) then 0 else 1 + FirstHit(servers, ws[1..], mid, from)
  }

  /** The table without watcher j of entry i, and without the entry when it was the last. */
  function Dropped(t: Table, i: nat, j: nat): Table
    requires i < |t| && j < |t[i].watchers|
  {
    var ws := t[i].watchers[..j] + t[i].watchers[j + 1..];
    if ws == [] then t[..i] + t[i + 1..] else t[i := t[i].(watchers := ws)]
  }

  /** cancel_observe, from entry i on. */
  function CancelFrom(servers: seq<Server>, t: Table, i: nat, mid: u16, from: Address): Table
    decreases |t| - i
  {
    if i >= |t| then t
    else
      var j := FirstHit(servers, t[i].watchers, mid, from);
      if j < |t[i].watchers| then Dropped(t, i, j) else CancelFrom(servers, t, i + 1, mid, from)
  }

  // ----- a value change -----

  /** The message of lwm2m_resource_value_changed for one watcher. */
  function Notification(w: Watcher, mid: u16, payload: seq<byte>): Packet {
    Init(Ack, CHANGED_2_04, mid).(
      payload := payload[..Min(REST_MAX_CHUNK_SIZE, |payload|)],
      token := w.token[..Min(COAP_TOKEN_LEN, |w.token|)], observe := ObserveValue(w.counter), options := {TOKEN, OBSERVE})
  }

  function Told(w: Watcher, mid: u16): Watcher {
    Bumped(w).(lastMid := mid)
  }

  function MidAfter(mid: u16, n: nat): u16 {
    (mid + n) % 0x1_0000
  }

  function WatcherAddress(servers: seq<Server>, w: Watcher): Address {
    if w.server < |servers| then servers[w.server].addr else []
  }

  /** The watchers of one entry after a notification to each, mid being the first id used. */
  function ToldAll(ws: seq<Watcher>, mid: u16): seq<Watcher> {
    if ws == [] then [] else [Told(ws[0], mid)] + ToldAll(ws[1..], MidAfter(mid, 1))
  }

  function Notifications(servers: seq<Server>, ws: seq<Watcher>, mid: u16, payload: seq<byte>): seq<Event> {
    if ws == [] then []
    else
      [Notified(ws[0].serial, WatcherAddress(servers, ws[0]), Notification(ws[0], mid, payload))]
      + Notifications(servers, ws[1..], MidAfter(mid, 1), payload)
  }

  /** The entries prv_getObservedList collects: it puts each one in front, so the last of the table comes first. */
  function Selected(t: Table, uri: Uri, n: nat): (r: seq<nat>)
    requires n <= |t|
    ensures forall k :: 0 <= k < |r| ==> r[k] < n && Overlaps(t[r[k]].uri, uri)
  {
    if n == 0 then []
    else if Overlaps(t[n - 1].uri, uri) then [n - 1] + Selected(t, uri, n - 1)
    else Selected(t, uri, n - 1)
  }

  /** What object_read answers for each URI while the change is being reported; None for any status but 2.05. */
  type Reader = Uri -> Option<seq<byte>>

  function NotifyEntry(s: State, i: nat, read: Reader): State
    requires i < |s.table|
  {
    match read(s.table[i].uri)
    case None => s
    case Some(payload) =>
      var ws := s.table[i].watchers;
      s.(table := s.table[i := s.table[i].(watchers := ToldAll(ws, s.nextMid))],
         nextMid := MidAfter(s.nextMid, |ws|),
         log := s.log + Notifications(s.servers, ws, s.nextMid, payload))
  }

  function NotifyEntries(s: State, list: seq<nat>, read: Reader): State
    requires forall k :: 0 <= k < |list| ==> list[k] < |s.table|
    decreases |list|
  {
    if list == [] then s else NotifyEntries(NotifyEntry(s, list[0], read), list[1..], read)
  }

  /** lwm2m_resource_value_changed */
  function Changed(s: State, uri: Uri, read: Reader): State {
    NotifyEntries(s, Selected(s.table, uri, |s.table|), read)
  }

  // ----- runs -----

  datatype Input =
    | Observation(uri: Uri, from: Address, token: seq<byte>)
    | Reset(mid: u16, from: Address)
    | Change(uri: Uri, read: Reader)
    /** The registration state of a server changes. */
    | Registering(server: nat, registered: bool)
    /** Another part of the engine takes a message id. */
    | OtherMessage

  function Apply(s: State, i: Input): State {
    match i
    case Observation(uri, from, token) => Request(s, uri, from, token).state
    case Reset(mid, from) => s.(table := CancelFrom(s.servers, s.table, 0, mid, from))
    case Change(uri, read) => Changed(s, uri, read)
    case Registering(k, r) =>
      if k < |s.servers| then s.(servers := s.servers[k := s.servers[k].(registered := r)]) else s
    case OtherMessage => s.(nextMid := MidAfter(s.nextMid, 1))
  }

  function Run(s: State, inputs: seq<Input>): State
    decreases |inputs|
  {
    if inputs == [] then s else Run(Apply(s, inputs[0]), inputs[1..])
  }

  function Start(servers: seq<Server>, mid: u16): State {
    State(servers, [], mid, 0, [])
  }
}
