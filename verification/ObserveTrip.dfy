/** Requests, notifications and resets on their way through the codec, and what the other side does with them. */
module ObserveTrip {
  import opened Bytes
  import opened CoapStrings
  import opened CoapPacket
  import opened CoapRoundTrip
  import opened CoapFidelity
  import opened CoapSize
  import opened Uri
  import opened IntrusiveList
  import opened ListLookup
  import opened RegistryExact
  import opened RegistrationTrip
  import Observe
  import ObserveLaws
  import ObserveExact
  import Registry
  import Transactions
  import opened Endpoint
  import opened EndpointRuns
  import opened EndpointDispatch

  // ----- requests to a client -----

  /** The message transaction_new builds for a URI. */
  function ManagementRequest(code: byte, uri: Uri, mid: u16): Packet {
    Init(Con, code, mid).(uriPath := Segments(uri), options := {URI_PATH})
  }

  lemma {:induction false} WeightBound(values: seq<seq<byte>>, most: nat)
    requires forall k :: 0 <= k < |values| ==> |values[k]| <= most
    ensures Weight(values) <= |values| * (1 + most)
  {
    if values != [] {
      WeightBound(values[1..], most);
      assert |values| * (1 + most) == (|values| - 1) * (1 + most) + 1 + most;
      assert |values[0]| <= most;
    }
  }

  lemma SegmentsShort(u: Uri)
    ensures 1 <= |Segments(u)| <= 3 && forall k :: 0 <= k < |Segments(u)| ==> |Segments(u)[k]| <= 5
  {
    hide Decimal;
    DecimalShort(u.objectId);
    DecimalShort(u.instanceId);
    DecimalShort(u.resourceId);
  }

  lemma SegmentsEncoded(delta: nat, u: Uri)
    requires delta < 13
    ensures |EncodeValues(delta, Segments(u))| <= 18
  {
    SegmentsShort(u);
    var values := Segments(u);
    hide Segments, EncodeValues, Weight;
    assert forall k :: 0 <= k < |values| ==> |values[k]| <= 5;
    WeightBound(values, 5);
    ShortValues(delta, values);
  }

  lemma ManagementShape(code: byte, uri: Uri, mid: u16)
    ensures var p := ManagementRequest(code, uri, mid);
            && WellFormed(p) && OnlyOptions(p, {URI_PATH}) && p.token == [] && p.code == code && p.mid == mid
            && Values(p, URI_PATH) == p.uriPath == Segments(uri)
  {
    SegmentsShort(uri);
    hide Segments;
  }

  /** The client is asked for the URI the server's caller named, unless its instance id is 65535. */
  lemma ManagementTrip(code: byte, uri: Uri, mid: u16)
    requires RequestUri(uri)
    ensures var p := ManagementRequest(code, uri, mid);
            && Delivers(p, Received(p)) && Received(p).kind == Con && Received(p).code == code && Received(p).mid == mid
            && (UriOf(Received(p).uriPath) == Some(uri) <==> (uri.hasInstance ==> uri.instanceId < LWM2M_MAX_ID))
  {
    var p := ManagementRequest(code, uri, mid);
    ManagementShape(code, uri, mid);
    SegmentsEncoded(URI_PATH, uri);
    RequestUriRoundTrip(uri);
    hide Segments, ManagementRequest, Values, WellFormed, EncodeFrom, EncodeValues, Received, Serialized, Parse, UriOf;
    OneOption(p, URI_PATH);
    Arrives(p);
  }

  lemma AskShape(uri: Uri, mid: u16, token: seq<byte>)
    requires |token| == 4
    ensures var p := Registry.ObserveRequest(uri, mid, token);
            && WellFormed(p) && OnlyOptions(p, {OBSERVE, URI_PATH}) && p.token == token
            && Values(p, OBSERVE) == [[]] && Values(p, URI_PATH) == p.uriPath == Segments(uri)
  {
    SegmentsShort(uri);
    hide Segments;
  }

  lemma AskLength(p: Packet, uri: Uri)
    requires OnlyOptions(p, {OBSERVE, URI_PATH})
    requires Values(p, OBSERVE) == [[]] && Values(p, URI_PATH) == Segments(uri)
    ensures |EncodeFrom(p, 1, 0)| <= 19
  {
    hide Segments, Values, EncodeFrom, EncodeValues;
    SegmentsEncoded(URI_PATH - OBSERVE, uri);
    TwoOptions(p, OBSERVE, URI_PATH);
    EmptyValue();
  }

  lemma EmptyValue()
    ensures |EncodeValues(OBSERVE, [[]])| == 1
  {
    EncodeOne(OBSERVE, []);
  }

  lemma AskArrives(p: Packet, uri: Uri)
    requires WellFormed(p) && OnlyOptions(p, {OBSERVE, URI_PATH}) && |p.token| == 4
    requires Values(p, OBSERVE) == [[]] && Values(p, URI_PATH) == Segments(uri)
    ensures Delivers(p, Received(p))
  {
    hide Segments, Values, WellFormed, EncodeFrom, Received, Serialized, Parse, Joinable, BlockFits;
    AskLength(p, uri);
    Arrives(p);
  }

  /** A request to observe a URI arrives with the observation's token. */
  lemma ObserveRequestTrip(uri: Uri, mid: u16, client: u16, id: u16)
    requires RequestUri(uri)
    ensures var p := Registry.ObserveRequest(uri, mid, Registry.Token(client, id));
            && Delivers(p, Received(p)) && Received(p).token == Registry.Token(client, id)
            && (UriOf(Received(p).uriPath) == Some(uri) <==> (uri.hasInstance ==> uri.instanceId < LWM2M_MAX_ID))
  {
    hide Segments, Registry.ObserveRequest, Values, WellFormed, Received, Serialized, Parse, UriOf, OnlyOptions, Registry.Token;
    TokenSplits(client, id);
    AskShape(uri, mid, Registry.Token(client, id));
    AskSet(uri, mid, Registry.Token(client, id));
    AskArrives(Registry.ObserveRequest(uri, mid, Registry.Token(client, id)), uri);
    RequestUriRoundTrip(uri);
  }

  lemma AskSet(uri: Uri, mid: u16, token: seq<byte>)
    ensures var p := Registry.ObserveRequest(uri, mid, token); URI_PATH in p.options && p.uriPath == Segments(uri)
  {
    hide Segments;
  }

  // ----- notifications back -----

  lemma NotificationShape(w: Observe.Watcher, mid: u16, payload: seq<byte>)
    requires 1 <= |w.token| <= COAP_TOKEN_LEN
    ensures var p := Observe.Notification(w, mid, payload);
            && WellFormed(p) && OnlyOptions(p, {OBSERVE}) && p.token == w.token && p.mid == mid
            && Values(p, OBSERVE) == [Minimal(p.observe)] && p.observe == w.counter % 0x100_0000
            && p.payload == payload[..Min(REST_MAX_CHUNK_SIZE, |payload|)] && p.code == CHANGED_2_04 && p.kind == Ack
            && p.options == {TOKEN, OBSERVE}
  {
  }

  lemma NotificationArrives(w: Observe.Watcher, mid: u16, payload: seq<byte>)
    requires 1 <= |w.token| <= COAP_TOKEN_LEN
    ensures var p := Observe.Notification(w, mid, payload); Delivers(p, Received(p))
  {
    var p := Observe.Notification(w, mid, payload);
    NotificationShape(w, mid, payload);
    hide Observe.Notification, Values, WellFormed, EncodeFrom, EncodeValues, Received, Serialized, Parse, Minimal;
    OneOption(p, OBSERVE);
    MinimalLength(p.observe);
    ShortValues(OBSERVE, [Minimal(p.observe)]);
    WeightBound([Minimal(p.observe)], 4);
    hide Weight;
    Arrives(p);
  }

  /**
   * What is read of a notification on the other side: an acknowledgement with 2.04, the token and the count of the
   * watcher, the latter modulo two to the 24, and at most 128 bytes of the value.
   */
  lemma NotificationSaid(w: Observe.Watcher, mid: u16, payload: seq<byte>)
    requires 1 <= |w.token| <= COAP_TOKEN_LEN
    ensures var q := Received(Observe.Notification(w, mid, payload));
            && Delivers(Observe.Notification(w, mid, payload), q)
            && q.kind == Ack && q.code == CHANGED_2_04 && q.mid == mid && q.token == w.token && q.options == {TOKEN, OBSERVE}
            && q.observe == w.counter % 0x100_0000 && q.payload == payload[..Min(REST_MAX_CHUNK_SIZE, |payload|)]
  {
    NotificationShape(w, mid, payload);
    NotificationArrives(w, mid, payload);
    hide Values, WellFormed, Received, Serialized, Parse, Minimal;
  }

  lemma NotificationRead(w: Observe.Watcher, mid: u16, payload: seq<byte>)
    requires 1 <= |w.token| <= COAP_TOKEN_LEN
    ensures var q := Received(Observe.Notification(w, mid, payload));
            && Delivers(Observe.Notification(w, mid, payload), q)
            && q.kind == Ack && q.mid == mid && q.token == w.token && OBSERVE in q.options && TOKEN in q.options
            && Registry.AsInt(q.observe) == Observe.ObserveValue(w.counter)
            && (|payload| <= REST_MAX_CHUNK_SIZE ==> q.payload == payload)
  {
    NotificationSaid(w, mid, payload);
    hide Received, Delivers, Observe.Notification;
  }

  /**
   * What a client sends to a watcher that holds the token of a live observation runs that observation's callback on
   * the server, with the observation's URI, the watcher's count and the value read, if and only if the server has no
   * transaction pending with the id of the message.
   */
  lemma NotificationTrip(c: Context, client: u16, id: u16, w: Observe.Watcher, mid: u16, payload: seq<byte>, from: Address)
    requires Linked(c) && Live(c.registry.clients, client, id).Some?
    requires w.token == Registry.Token(client, id) && |payload| <= REST_MAX_CHUNK_SIZE
    ensures var p := Observe.Notification(w, mid, payload);
            var o := Live(c.registry.clients, client, id).value;
            && Delivers(p, Received(p))
            && (OnResponse(c, Received(p), from).registry.log ==
                c.registry.log + [Registry.Notified(o.serial, client, o.uri, Observe.ObserveValue(w.counter), payload)]
                <==> !Has(c.engine.pending, mid))
  {
    NotificationRead(w, mid, payload);
    hide Linked, Received, Observe.Notification, Delivers, Observe.ObserveValue, OnResponse, Registry.Token, Has;
    NotificationRouted(c, Received(Observe.Notification(w, mid, payload)), from, client, id);
  }

  // ----- and resets -----

  lemma ResetArrives(mid: u16)
    ensures var p := Init(Rst, 0, mid); Delivers(p, Received(p)) && Received(p).kind == Rst && Received(p).mid == mid
  {
    var p := Init(Rst, 0, mid);
    NoOptions(p);
    hide EncodeFrom, Received, Serialized, Parse;
    Arrives(p);
  }

  /** Nothing else that happens to a reset touches the table: it is the answer to no registration. */
  lemma OnlyReset(c: Context, message: Packet, from: Address)
    requires message.kind == Rst
    ensures OnResponse(c, message, from).watched == Observe.Apply(c.watched, Observe.Reset(message.mid, from))
  {
    hide Observe.Apply, Find, Transactions.Apply, Registry.Completed, Registry.Notify;
  }

  /** A reset that arrives takes the watcher that was last sent its id off the table, whatever else it does. */
  lemma ResetTaken(d: Context, mid: u16, i: nat, j: nat, told: Observe.Watcher)
    requires ObserveLaws.Sound(d.watched) && i < |d.watched.table| && j < |d.watched.table[i].watchers|
    requires d.watched.table[i].watchers[j] == Observe.Told(told, mid)
    requires var from := Observe.WatcherAddress(d.watched.servers, told);
             forall k: nat, l: nat :: ObserveExact.SentLast(d.watched, mid, from, k, l) ==> k == i && l == j
    ensures var q, from := Received(Init(Rst, 0, mid)), Observe.WatcherAddress(d.watched.servers, told);
            && Delivers(Init(Rst, 0, mid), q)
            && OnResponse(d, q, from).watched == d.watched.(table := Observe.Dropped(d.watched.table, i, j))
            && ObserveExact.Loses(d.watched.table, OnResponse(d, q, from).watched.table, i, j)
  {
    var q, from, w := Received(Init(Rst, 0, mid)), Observe.WatcherAddress(d.watched.servers, told), d.watched.table[i].watchers[j];
    ResetArrives(mid);
    LastTold(d.watched, i, j);
    OnlyReset(d, q, from);
    hide Received, Serialized, Parse, ObserveLaws.Sound, Observe.Dropped, Observe.Apply, Find, ObserveExact.SentLast, ObserveExact.Loses, OnResponse;
    assert Observe.WatcherAddress(d.watched.servers, w) == from;
    ObserveExact.ResetFindsSender(d.watched, mid, i, j);
    ResetTable(d.watched, mid, from);
  }

  /** A reset touches nothing but the table. */
  lemma ResetTable(s: Observe.State, mid: u16, from: Address)
    ensures var t := Observe.Apply(s, Observe.Reset(mid, from)); t == s.(table := t.table)
  {
    hide Observe.CancelFrom;
  }

  lemma LastTold(s: Observe.State, i: nat, j: nat)
    requires ObserveLaws.Sound(s) && i < |s.table| && j < |s.table[i].watchers|
    ensures ObserveLaws.LastMid(s.log, s.table[i].watchers[j].serial) == s.table[i].watchers[j].lastMid
  {
    hide ObserveLaws.CountsUp, ObserveLaws.SerialsOk;
    assert ObserveLaws.Accounted(s.table[i].watchers[j], s.log);
  }

  /**
   * A notification for an observation the server has given up is answered by a reset if and only if the server has no
   * transaction pending with its id; and the reset takes the watcher off the client's table, if no other watcher of
   * that server was last sent the same id.
   */
  lemma RefusalTrip(c: Context, client: u16, id: u16, d: Context, i: nat, j: nat, told: Observe.Watcher, mid: u16, payload: seq<byte>,
                    from: Address)
    requires Linked(c) && Lookup(c.registry.clients, client).Some? && Live(c.registry.clients, client, id) == None
    requires told.token == Registry.Token(client, id)
    requires ObserveLaws.Sound(d.watched) && i < |d.watched.table| && j < |d.watched.table[i].watchers|
    requires d.watched.table[i].watchers[j] == Observe.Told(told, mid)
    requires var server := Observe.WatcherAddress(d.watched.servers, told);
             forall k: nat, l: nat :: ObserveExact.SentLast(d.watched, mid, server, k, l) ==> k == i && l == j
    ensures var p, refused := Observe.Notification(told, mid, payload), Init(Rst, 0, mid);
            && Delivers(p, Received(p))
            && (OnResponse(c, Received(p), from).registry.log == c.registry.log + [Registry.Refused(from, refused)]
                <==> !Has(c.engine.pending, mid))
            && Delivers(refused, Received(refused))
            && OnResponse(d, Received(refused), Observe.WatcherAddress(d.watched.servers, told)).watched ==
               d.watched.(table := Observe.Dropped(d.watched.table, i, j))
            && ObserveExact.Loses(d.watched.table, Observe.Dropped(d.watched.table, i, j), i, j)
  {
    NotificationRead(told, mid, payload);
    ResetTaken(d, mid, i, j, told);
    hide Linked, Received, Observe.Notification, Delivers, OnResponse, Registry.Token, Has, ObserveLaws.Sound, Observe.Dropped,
         ObserveExact.SentLast, ObserveExact.Loses;
    NotificationRouted(c, Received(Observe.Notification(told, mid, payload)), from, client, id);
  }
}
