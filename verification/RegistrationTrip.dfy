/** A registration and its end, through the codec in both directions: client, server, client, server. */
module RegistrationTrip {
  import opened Bytes
  import opened CoapOption
  import opened CoapStrings
  import opened CoapPacket
  import opened CoapRoundTrip
  import opened CoapFidelity
  import opened CoapSize
  import opened CoapSetters
  import opened Uri
  import opened ListLookup
  import opened RegisterPayload
  import opened RegisterRoundTrip
  import opened Registry
  import opened RegistryExact
  import opened RegistrationClient

  /** The answer lwm2m_handle_packet prepares for a request, mid being the id it would give a new message. */
  function Reply(request: Packet, mid: u16, status: byte, location: Option<seq<byte>>): Packet {
    var r := if request.kind == Con then Init(Ack, CONTENT_2_05, request.mid) else Init(Non, CONTENT_2_05, mid);
    var t := if request.token != [] then WithToken(r, request.token) else r;
    (if location.Some? then WithLocation(t, location.value) else t).(code := status)
  }

  /** What the other side parses of a message. */
  ghost predicate Delivers(sent: Packet, got: Packet) {
    && |sent.token| <= COAP_TOKEN_LEN && Serialized(sent) != []
    && Parse(Serialized(sent)) == Accepted(got) && SameMessage(got, sent)
  }

  // ----- the client's request -----

  /** An endpoint name that is one query segment and one C string. */
  predicate PlainName(name: seq<byte>) {
    name != [] && AMPERSAND !in name && 0 !in name
  }

  predicate NameFits(name: seq<byte>) {
    PlainName(name) && |name| <= 55
  }

  lemma PathOfRd()
    ensures UriPathOf([SLASH] + RD) == [RD]
  {
    assert ([SLASH] + RD)[1..] == RD;
    CutOne(RD, SLASH, SLASH);
    assert Cut(RD, SLASH, SLASH) == Segmented(RD, SLASH);
  }

  lemma QueryRead(name: seq<byte>)
    requires PlainName(name)
    ensures UriQueryOf(QUERY_TEMPLATE + name) == [QUERY_TEMPLATE + name]
    ensures NameIn([QUERY_TEMPLATE + name]) == Some(name)
  {
    var q := QUERY_TEMPLATE + name;
    CutOne(q, QUESTION_MARK, AMPERSAND);
    assert q[..3] == QUERY_TEMPLATE && q[3..] == name;
    UntilUnique(name, 0, 0, |name|);
    assert name[..|name|] == name;
  }

  /** A name with an ampersand in it is cut there, and the server knows the client by what comes before. */
  lemma NameCut(first: seq<byte>, rest: seq<byte>)
    requires PlainName(first)
    ensures NameIn(UriQueryOf(QUERY_TEMPLATE + (first + [AMPERSAND] + rest))) == Some(first)
  {
    var q, s := QUERY_TEMPLATE + first, QUERY_TEMPLATE + (first + [AMPERSAND] + rest);
    assert s[..|q|] == q && s[|q|] == AMPERSAND && s[0] == QUERY_TEMPLATE[0];
    SegmentEndUnique(s, AMPERSAND, |q|);
    SegmentStep(s, AMPERSAND);
    var segments := UriQueryOf(s);
    assert segments[0] == q;
    assert q[..3] == QUERY_TEMPLATE && q[3..] == first;
    UntilUnique(first, 0, 0, |first|);
    assert first[..|first|] == first;
  }

  lemma HeaderLength(delta: nat, length: nat)
    requires delta < 13
    ensures |Header(delta, length)| == if length < 13 then 1 else if length < 269 then 2 else 3
  {
  }

  lemma RegisterShape(name: seq<byte>, payload: seq<byte>, mid: u16)
    requires PlainName(name)
    ensures var p := RegisterRequest(name, payload, mid);
            && WellFormed(p) && OnlyOptions(p, {URI_PATH, URI_QUERY}) && p.token == []
            && Values(p, URI_PATH) == p.uriPath == [RD]
            && Values(p, URI_QUERY) == p.uriQuery == [QUERY_TEMPLATE + name]
            && p.code == COAP_POST && p.mid == mid && p.kind == Con
            && (|payload| <= REST_MAX_CHUNK_SIZE ==> p.payload == payload)
  {
    PathOfRd();
    QueryRead(name);
    hide Cut;
  }

  lemma RegisterLength(name: seq<byte>, payload: seq<byte>, mid: u16)
    requires PlainName(name)
    ensures |EncodeFrom(RegisterRequest(name, payload, mid), 1, 0)| == 3 + |Header(URI_QUERY - URI_PATH, 3 + |name|)| + 3 + |name|
    ensures 3 + |Header(URI_QUERY - URI_PATH, 3 + |name|)| + 3 + |name| <= COAP_MAX_HEADER_SIZE - COAP_HEADER_LEN <==> NameFits(name)
  {
    var p := RegisterRequest(name, payload, mid);
    RegisterShape(name, payload, mid);
    hide RegisterRequest, Values, EncodeFrom, EncodeValues, Header, WellFormed;
    TwoOptions(p, URI_PATH, URI_QUERY);
    EncodeOne(URI_PATH, RD);
    EncodeOne(URI_QUERY - URI_PATH, QUERY_TEMPLATE + name);
    HeaderLength(URI_PATH, 2);
    HeaderLength(URI_QUERY - URI_PATH, 3 + |name|);
  }

  /** A registration can be sent exactly when the endpoint name has at most 55 characters. */
  lemma RegisterSendable(name: seq<byte>, payload: seq<byte>, mid: u16)
    requires PlainName(name)
    ensures var p := RegisterRequest(name, payload, mid);
            |p.token| <= COAP_TOKEN_LEN && (Serialized(p) != [] <==> NameFits(name))
  {
    RegisterShape(name, payload, mid);
    RegisterLength(name, payload, mid);
    hide RegisterRequest, Values, EncodeFrom, Header, WellFormed, Trailer;
  }

  lemma RegisterArrives(name: seq<byte>, payload: seq<byte>, mid: u16)
    requires NameFits(name)
    ensures Delivers(RegisterRequest(name, payload, mid), Received(RegisterRequest(name, payload, mid)))
  {
    RegisterShape(name, payload, mid);
    RegisterLength(name, payload, mid);
    hide RegisterRequest, Values, EncodeFrom, Header, Received, SameMessage, Serialized, Parse, Joinable, BlockFits,
         WellFormed;
    Arrives(RegisterRequest(name, payload, mid));
  }

  // ----- the server's answer -----

  lemma NoSlashName(id: u16)
    ensures SLASH !in Decimal(id) && SLASH !in RD && QUESTION_MARK !in Decimal(id) && 0 !in Decimal(id) && |Decimal(id)| <= 5
  {
    hide Decimal;
    DecimalShort(id);
  }

  /** What is left of the location string: without its slash in front. */
  lemma LocationSet(p: Packet, id: u16)
    ensures WithLocation(p, Location(id)) ==
            p.(locationPath := RD + [SLASH] + Decimal(id), options := p.options + {LOCATION_PATH})
  {
    NoSlashName(id);
    hide Decimal;
    var path, s := Location(id), RD + [SLASH] + Decimal(id);
    assert path[1..] == s && path[0] == SLASH && s[0] == RD[0];
    assert Stripped(s, SLASH) == s;
    assert Stripped(path, SLASH) == Stripped(path[1..], SLASH);
    assert s[..|s|] == s;
    SegmentEndUnique(s, QUESTION_MARK, |s|);
  }

  lemma LocationJoinable(id: u16)
    ensures var s := RD + [SLASH] + Decimal(id);
            Split(s, SLASH) == [RD, Decimal(id)] && Joinable(s, SLASH) && CString(s) == s
  {
    NoSlashName(id);
    hide Decimal;
    var d, s := Decimal(id), RD + [SLASH] + Decimal(id);
    SplitTwo(RD, d, SLASH);
    assert s[|s| - 1] == d[|d| - 1] && d[|d| - 1] in d;
    UntilUnique(s, 0, 0, |s|) by {
      assert forall j :: 0 <= j < |s| ==> s[j] in s;
    }
    assert s[..|s|] == s;
  }

  lemma TwoShort(delta: nat, a: seq<byte>, b: seq<byte>)
    requires delta < 13 && |a| < 13 && |b| < 13
    ensures |EncodeValues(delta, [a, b])| == 2 + |a| + |b|
  {
    var v := [a, b];
    ShortValues(delta, v);
    assert v[1..] == [b] && [b][1..] == [];
    assert Weight(v) == 1 + |a| + Weight([b]) && Weight([b]) == 1 + |b| + Weight([]);
  }

  /** The answer to a registration arrives with its location, whatever token the request had. */
  lemma LocationArrives(request: Packet, mid: u16, id: u16)
    requires |request.token| <= COAP_TOKEN_LEN
    ensures var r := Reply(request, mid, CREATED_2_01, Some(Location(id)));
            Delivers(r, Received(r)) && Received(r).locationPath == RD + [SLASH] + Decimal(id)
  {
    var r := Reply(request, mid, CREATED_2_01, Some(Location(id)));
    LocationReply(request, mid, id);
    LocationJoinable(id);
    NoSlashName(id);
    hide Reply, Values, EncodeFrom, EncodeValues, Received, Serialized, Parse, Joinable, BlockFits, Split,
         WellFormed, Decimal;
    OneOption(r, LOCATION_PATH);
    TwoShort(LOCATION_PATH, RD, Decimal(id));
    Arrives(r);
  }

  lemma LocationReply(request: Packet, mid: u16, id: u16)
    requires |request.token| <= COAP_TOKEN_LEN
    ensures var r := Reply(request, mid, CREATED_2_01, Some(Location(id)));
            && OnlyOptions(r, {LOCATION_PATH}) && WellFormed(r)
            && r.locationPath == RD + [SLASH] + Decimal(id) && Values(r, LOCATION_PATH) == Split(r.locationPath, SLASH)
            && r.token == request.token && r.code == CREATED_2_01
            && (if request.kind == Con then r.kind == Ack && r.mid == request.mid else r.kind == Non && r.mid == mid)
  {
    var r := if request.kind == Con then Init(Ack, CONTENT_2_05, request.mid) else Init(Non, CONTENT_2_05, mid);
    var t := if request.token != [] then WithToken(r, request.token) else r;
    LocationSet(t, id);
    hide Location, Decimal;
    assert request.token[..|request.token|] == request.token;
  }

  // ----- the end of the registration -----

  lemma DeregisterShape(id: u16, mid: u16)
    ensures var p := DeregisterRequest(RD + [SLASH] + Decimal(id), mid);
            && WellFormed(p) && OnlyOptions(p, {URI_PATH}) && p.token == []
            && Values(p, URI_PATH) == p.uriPath == [RD, Decimal(id)]
            && p.code == COAP_DELETE && p.mid == mid
  {
    LocationJoinable(id);
    NoSlashName(id);
    PathOfTwo(RD, Decimal(id));
    hide Decimal, Cut, Split, Joinable;
  }

  lemma DeregisterArrives(id: u16, mid: u16)
    ensures var p := DeregisterRequest(RD + [SLASH] + Decimal(id), mid);
            Delivers(p, Received(p)) && Received(p).uriPath == [RD, Decimal(id)]
  {
    var p := DeregisterRequest(RD + [SLASH] + Decimal(id), mid);
    DeregisterShape(id, mid);
    NoSlashName(id);
    hide DeregisterRequest, Values, EncodeFrom, EncodeValues, Received, Serialized, Parse, Joinable, BlockFits,
         WellFormed, Decimal;
    OneOption(p, URI_PATH);
    TwoShort(URI_PATH, RD, Decimal(id));
    Arrives(p);
  }

  lemma RdUri(id: u16)
    ensures UriOf([RD]) == Some(NO_URI.(kind := UriType.Registration))
    ensures UriOf([RD, Decimal(id)]) == Some(NO_URI.(kind := UriType.Registration, hasObject := true, objectId := id))
  {
    hide Decimal, NumberOnto;
    DecimalInverse(id);
  }

  // ----- the whole way -----

  /** What lwm2m_handle_packet does on the server with a datagram that is a request to the registry. */
  datatype Handled = Elsewhere | Handled(request: Packet, answer: Answer)

  function OnDatagram(s: State, wire: seq<byte>, from: Address): Handled {
    match Parse(wire)
    case Accepted(m) =>
      if COAP_GET <= m.code <= COAP_DELETE && UriOf(m.uriPath).Some? && UriOf(m.uriPath).value.kind == UriType.Registration
      then Handled(m, HandleRegistration(s, UriOf(m.uriPath).value, m, from))
      else Elsewhere
    case _ => Elsewhere
  }

  /** payload is what prv_getRegisterPayload prints for the objects into the 64 bytes lwm2m_register gives it. */
  ghost predicate Prints(objects: seq<ClientObject>, payload: seq<byte>) {
    && Real(AllItems(objects)) && 2 < |Text(AllItems(objects))| <= 64
    && payload == Text(AllItems(objects))[..|Text(AllItems(objects))| - 2]
  }

  /** The client's record: its name and address, and the objects its payload was printed for. */
  ghost predicate Records(c: Client, name: seq<byte>, from: Address, objects: seq<ClientObject>) {
    c.name == name && c.addr == from && Describes(c.objects, objects)
  }

  lemma PrintedObjects(objects: seq<ClientObject>, payload: seq<byte>)
    requires Prints(objects, payload) && IdsFit(objects)
    ensures |payload| <= REST_MAX_CHUNK_SIZE
    ensures Describes(DecodedOnto([], payload), objects) && DecodedOnto([], payload) != []
  {
    hide DecodedOnto, Text, Real;
    PayloadRoundTrip(objects, payload);
    assert objects != [] by {
      TextOfNothing();
    }
    assert HasObject(objects, objects[0].id);
  }

  lemma PostExact(s: State, uri: Uri, m: Packet, from: Address, name: seq<byte>, objects: Objects)
    requires m.code == COAP_POST && !uri.hasResource
    requires NameIn(m.uriQuery) == Some(name) && DecodedOnto([], m.payload) == objects != []
    ensures var (w, id) := WithClient(s.clients, name, from, objects);
            HandleRegistration(s, uri, m, from) == Answer(CREATED_2_01, Some(Location(id)), s.(clients := w))
  {
    hide NameIn, DecodedOnto, WithClient;
  }

  /** The client's request makes the server's record. */
  lemma RegisterTrip(s: State, name: seq<byte>, objects: seq<ClientObject>, payload: seq<byte>, from: Address, mid: u16)
    requires RegistryOk(s.clients) && |s.clients| < 0x1_0000
    requires NameFits(name) && IdsFit(objects) && Prints(objects, payload)
    ensures var request := Received(RegisterRequest(name, payload, mid));
            var (w, id) := WithClient(s.clients, name, from, DecodedOnto([], payload));
            && request.token == [] && request.kind == Con && request.mid == mid
            && OnDatagram(s, Serialized(RegisterRequest(name, payload, mid)), from) ==
               Handled(request, Answer(CREATED_2_01, Some(Location(id)), s.(clients := w)))
            && Lookup(w, id).Some? && Records(Lookup(w, id).value, name, from, objects)
  {
    var p := RegisterRequest(name, payload, mid);
    var request, list := Received(p), DecodedOnto([], payload);
    PrintedObjects(objects, payload);
    RegisterShape(name, payload, mid);
    RegisterArrives(name, payload, mid);
    QueryRead(name);
    RdUri(0);
    WithClientExact(s.clients, name, from, list);
    hide Received, RegisterRequest, WithClient, DecodedOnto, Describes, IdsFit, Prints, NameIn, UriOf, Parse, Serialized,
         HandleRegistration, WellFormed, RegistryOk, OnlyOptions, Values;
    PostExact(s, NO_URI.(kind := UriType.Registration), request, from, name, list);
  }

  /** The client's request to that location removes the record with that id, and no other. */
  lemma DeregisterTrip(t: State, id: u16, from: Address, mid: u16)
    requires RegistryOk(t.clients) && Lookup(t.clients, id).Some?
    ensures var h := OnDatagram(t, Serialized(DeregisterRequest(RD + [SLASH] + Decimal(id), mid)), from);
            && h.Handled? && h.answer.status == DELETED_2_02 && RegistryOk(h.answer.state.clients)
            && forall x: u16 :: Lookup(h.answer.state.clients, x) == if x == id then None else Lookup(t.clients, x)
  {
    var p := DeregisterRequest(RD + [SLASH] + Decimal(id), mid);
    DeregisterShape(id, mid);
    DeregisterArrives(id, mid);
    RdUri(id);
    var uri := NO_URI.(kind := UriType.Registration, hasObject := true, objectId := id);
    DeleteExact(t, uri, Received(p), from);
    hide Received, DeregisterRequest, Decimal, Parse, Serialized, WellFormed, OnlyOptions, Values, UriOf, Lookup,
         HandleRegistration, RegistryOk;
  }

  /** Nothing is left of a client that registered under a new name and then deregistered. */
  lemma RegistrationUndone(s: State, name: seq<byte>, objects: seq<ClientObject>, payload: seq<byte>, from: Address,
                           mid: u16, later: u16, from': Address)
    requires RegistryOk(s.clients) && |s.clients| < 0x1_0000
    requires NameFits(name) && IdsFit(objects) && Prints(objects, payload)
    requires forall c: u16 :: !Named(s.clients, c, name)
    ensures var h := OnDatagram(s, Serialized(RegisterRequest(name, payload, mid)), from);
            && h.Handled?
            && exists id: u16 ::
              && h.answer.location == Some(Location(id))
              && var end := OnDatagram(h.answer.state, Serialized(DeregisterRequest(RD + [SLASH] + Decimal(id), later)), from');
              && end.Handled? && end.answer.state.clients == s.clients
  {
    hide Received, RegisterRequest, DeregisterRequest, WithClient, DecodedOnto, IdsFit, Prints, Records, Parse, Serialized,
         Location, Decimal, Lookup, OnDatagram;
    RegisterTrip(s, name, objects, payload, from, mid);
    var list := DecodedOnto([], payload);
    var (w, id) := WithClient(s.clients, name, from, list);
    WithClientExact(s.clients, name, from, list);
    var t := s.(clients := w);
    DeregisterTrip(t, id, from', later);
    DeregisterShape(id, later);
    var end := OnDatagram(t, Serialized(DeregisterRequest(RD + [SLASH] + Decimal(id), later)), from');
    LookupDetermines(end.answer.state.clients, s.clients);
  }

  // ----- the id of the URI, missing or too many -----

  function DeleteRequest(mid: u16): Packet {
    Init(Non, COAP_DELETE, mid).(uriPath := [RD], options := {URI_PATH})
  }

  lemma DeleteArrives(mid: u16)
    ensures Delivers(DeleteRequest(mid), Received(DeleteRequest(mid)))
    ensures Received(DeleteRequest(mid)).uriPath == [RD] && Received(DeleteRequest(mid)).code == COAP_DELETE
  {
    var p := DeleteRequest(mid);
    assert WellFormed(p) && Values(p, URI_PATH) == [RD];
    hide Values, EncodeFrom, EncodeValues, Received, Serialized, Parse, Joinable, BlockFits, WellFormed;
    OneOption(p, URI_PATH);
    EncodeOne(URI_PATH, RD);
    HeaderLength(URI_PATH, 2);
    Arrives(p);
  }

  /** A DELETE of /rd, which names no client, removes the client with id 0 when there is one. */
  lemma DeleteWithoutId(t: State, from: Address, mid: u16)
    requires RegistryOk(t.clients)
    ensures var h := OnDatagram(t, Serialized(DeleteRequest(mid)), from);
            && h.Handled?
            && (if Lookup(t.clients, 0).Some? then
                  && h.answer.status == DELETED_2_02
                  && forall x: u16 :: Lookup(h.answer.state.clients, x) == if x == 0 then None else Lookup(t.clients, x)
                else h.answer.status == BAD_REQUEST_4_00 && h.answer.state == t)
  {
    DeleteArrives(mid);
    RdUri(0);
    DeleteExact(t, NO_URI.(kind := UriType.Registration), Received(DeleteRequest(mid)), from);
    hide Received, DeleteRequest, Parse, Serialized, UriOf, Lookup, HandleRegistration, RegistryOk;
  }

  /** The request of a registration, to the location of a client. */
  function RegisterAt(id: u16, name: seq<byte>, payload: seq<byte>, mid: u16): Packet {
    RegisterRequest(name, payload, mid).(uriPath := [RD, Decimal(id)])
  }

  lemma RegisterAtShape(id: u16, name: seq<byte>, payload: seq<byte>, mid: u16)
    requires PlainName(name)
    ensures var p := RegisterAt(id, name, payload, mid);
            && WellFormed(p) && OnlyOptions(p, {URI_PATH, URI_QUERY}) && p.token == []
            && Values(p, URI_PATH) == p.uriPath == [RD, Decimal(id)]
            && Values(p, URI_QUERY) == p.uriQuery == [QUERY_TEMPLATE + name]
            && p.code == COAP_POST
            && (|payload| <= REST_MAX_CHUNK_SIZE ==> p.payload == payload)
  {
    RegisterShape(name, payload, mid);
    NoSlashName(id);
    hide Cut, Decimal;
  }

  lemma RegisterAtArrives(id: u16, name: seq<byte>, payload: seq<byte>, mid: u16)
    requires PlainName(name) && |name| <= 49
    ensures Delivers(RegisterAt(id, name, payload, mid), Received(RegisterAt(id, name, payload, mid)))
  {
    var p := RegisterAt(id, name, payload, mid);
    RegisterAtShape(id, name, payload, mid);
    NoSlashName(id);
    hide RegisterAt, Values, EncodeFrom, EncodeValues, Header, Received, Serialized, Parse, Joinable, BlockFits, WellFormed,
         Decimal;
    TwoOptions(p, URI_PATH, URI_QUERY);
    TwoShort(URI_PATH, RD, Decimal(id));
    EncodeOne(URI_QUERY - URI_PATH, QUERY_TEMPLATE + name);
    HeaderLength(URI_QUERY - URI_PATH, 3 + |name|);
    Arrives(p);
  }

  /** A POST to the location of a client, be there such a client or not, registers as a POST to /rd does. */
  lemma PostWithId(s: State, id: u16, name: seq<byte>, objects: seq<ClientObject>, payload: seq<byte>, from: Address, mid: u16)
    requires RegistryOk(s.clients) && |s.clients| < 0x1_0000
    requires PlainName(name) && |name| <= 49 && IdsFit(objects) && Prints(objects, payload)
    ensures var h := OnDatagram(s, Serialized(RegisterAt(id, name, payload, mid)), from);
            var plain := OnDatagram(s, Serialized(RegisterRequest(name, payload, mid)), from);
            && h.Handled? && plain.Handled? && h.answer == plain.answer && h.answer.status == CREATED_2_01
  {
    var p := RegisterAt(id, name, payload, mid);
    var list := DecodedOnto([], payload);
    RegisterTrip(s, name, objects, payload, from, mid);
    PrintedObjects(objects, payload);
    RegisterAtShape(id, name, payload, mid);
    RegisterAtArrives(id, name, payload, mid);
    QueryRead(name);
    RdUri(id);
    hide Received, RegisterAt, RegisterRequest, WithClient, DecodedOnto, Describes, IdsFit, Prints, NameIn, UriOf, Parse,
         Serialized, HandleRegistration, WellFormed, RegistryOk, OnlyOptions, Values, Records, Decimal, Lookup;
    PostExact(s, NO_URI.(kind := UriType.Registration, hasObject := true, objectId := id), Received(p), from, name, list);
  }
}
