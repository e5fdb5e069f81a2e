/** A registration the whole way round: client, server, client, server, each side as its engine runs. */
module RegistrationLoop {
  import opened Bytes
  import opened CoapPacket
  import opened CoapRoundTrip
  import opened CoapSize
  import opened Uri
  import opened IntrusiveList
  import opened ListLookup
  import opened RegisterPayload
  import opened RegisterRoundTrip
  import Registry
  import opened RegistryExact
  import RegistryRuns
  import opened RegistrationClient
  import opened RegistrationTrip
  import Transactions
  import opened Endpoint
  import opened EndpointRuns
  import opened EndpointRegistration

  /** What the client has of server k when it has asked to be registered. */
  ghost predicate Asking(c: Context, k: nat, name: seq<byte>) {
    && Linked(c) && RegistryRuns.Room(c.registry) && k < |c.held| && !Has(c.engine.pending, c.registry.nextMid)
    && NameFits(name)
  }

  lemma AnswerRead(request: Packet, serverMid: u16, id: u16)
    requires request.token == [] && request.kind == Con
    ensures var answer := Reply(request, serverMid, CREATED_2_01, Some(Registry.Location(id)));
            var q := Received(answer);
            && Delivers(answer, q) && q.mid == request.mid && q.kind == Ack && q.code == CREATED_2_01
            && q.locationPath == RD + [SLASH] + Decimal(id)
  {
    LocationArrives(request, serverMid, id);
    LocationReply(request, serverMid, id);
    hide Reply, Received, Registry.Location, Decimal, Parse, Serialized, WellFormed, OnlyOptions, Values;
  }

  lemma RequestRead(name: seq<byte>, payload: seq<byte>, mid: u16)
    requires NameFits(name)
    ensures var p := RegisterRequest(name, payload, mid);
            var request := Received(p);
            && Delivers(p, request) && request.token == [] && request.kind == Con && request.mid == mid
  {
    RegisterShape(name, payload, mid);
    RegisterArrives(name, payload, mid);
    hide Received, RegisterRequest, Parse, Serialized, WellFormed, OnlyOptions, Values;
  }

  /**
   * The server's answer gives the client its location, if and only if it comes from that server's address: the
   * transaction is found by the id of the answer, and its callback registers the client.
   */
  lemma AnswerTrip(c: Context, k: nat, name: seq<byte>, payload: seq<byte>, now: int, serverMid: u16, id: u16, from: Address)
    requires Asking(c, k, name)
    ensures var mid := c.registry.nextMid;
            var answer := Reply(Received(RegisterRequest(name, payload, mid)), serverMid, CREATED_2_01, Some(Registry.Location(id)));
            var d := Endpoint.Apply(Endpoint.Apply(c, Enrolling(k, name, payload, now, true)), Response(Received(answer), from));
            && Delivers(answer, Received(answer)) && k < |d.held|
            && d.held[k] == if from == AddressIn(c, Transactions.Peer.Server(k)) then
                              Held(Status.Registered, mid, RD + [SLASH] + Decimal(id))
                            else Held(Status.Pending, mid, c.held[k].location)
  {
    hide Linked, RegistryRuns.Room, Received, RegisterRequest, Delivers, Serialized, Enrol, OnResponse, Reply, Registry.Location,
         Decimal, AddressIn, NameFits, Has;
    var mid := c.registry.nextMid;
    RequestRead(name, payload, mid);
    RequestHeader(name, payload, mid);
    var answer := Reply(Received(RegisterRequest(name, payload, mid)), serverMid, CREATED_2_01, Some(Registry.Location(id)));
    AnswerRead(Received(RegisterRequest(name, payload, mid)), serverMid, id);
    assert Serialized(RegisterRequest(name, payload, mid)) != [] by {
      DeliversSome(RegisterRequest(name, payload, mid), Received(RegisterRequest(name, payload, mid)));
    }
    Enrolled(c, k, name, payload, now);
    EnrolLinked(c, k, name, payload, now, true);
    Applied(c, k, name, payload, now, Received(answer), from);
    hide Endpoint.Apply;
    RegisteredBy(Enrol(c, k, name, payload, now, true), k, Received(answer), from);
  }

  lemma Applied(c: Context, k: nat, name: seq<byte>, payload: seq<byte>, now: int, message: Packet, from: Address)
    requires k < |c.held|
    ensures Endpoint.Apply(Endpoint.Apply(c, Enrolling(k, name, payload, now, true)), Response(message, from)) ==
            OnResponse(Enrol(c, k, name, payload, now, true), message, from)
  {
    hide Enrol, OnResponse;
  }

  lemma DeliversSome(p: Packet, q: Packet)
    requires Delivers(p, q)
    ensures Serialized(p) != []
  {
  }

  /**
   * A client registers, takes its location from the answer, and some time later deregisters with it. The server has
   * kept the client's objects under its name, and the end of the registration removes exactly that record from
   * whatever the registry has become meanwhile, as long as the record is still in it.
   */
  lemma RegisterThenDeregister(c: Context, k: nat, name: seq<byte>, objects: seq<ClientObject>, payload: seq<byte>, now: int,
                               s: Registry.State, from: Address, serverMid: u16, t: Registry.State, later: u16, from': Address)
    requires Asking(c, k, name) && IdsFit(objects) && Prints(objects, payload)
    requires RegistryOk(s.clients) && |s.clients| < 0x1_0000
    ensures var p := RegisterRequest(name, payload, c.registry.nextMid);
            && |p.token| <= COAP_TOKEN_LEN
            && var h := OnDatagram(s, Serialized(p), from);
            && h.Handled?
            && var answer := Reply(h.request, serverMid, h.answer.status, h.answer.location);
            && Delivers(answer, Received(answer))
            && var d := Endpoint.Apply(Endpoint.Apply(c, Enrolling(k, name, payload, now, true)),
                                       Response(Received(answer), AddressIn(c, Transactions.Peer.Server(k))));
            && k < |d.held| && d.held[k].status == Status.Registered
            && exists id: u16 ::
              && Lookup(h.answer.state.clients, id).Some?
              && Records(Lookup(h.answer.state.clients, id).value, name, from, objects)
              && (RegistryOk(t.clients) && Lookup(t.clients, id).Some? ==>
                    var end := OnDatagram(t, Serialized(DeregisterRequest(d.held[k].location, later)), from');
                    && end.Handled? && end.answer.status == DELETED_2_02
                    && forall x: u16 :: Lookup(end.answer.state.clients, x) == if x == id then None else Lookup(t.clients, x))
  {
    hide Received, DeregisterRequest, Registry.WithClient, DecodedOnto, IdsFit, Prints, Records, Parse, Serialized,
         RegistryOk, Reply, Registry.Location, Decimal, Lookup, OnDatagram, WellFormed, OnlyOptions, Values, Linked,
         RegistryRuns.Room, Enrol, OnResponse, AddressIn, Delivers, Has, RegisterRequest, Endpoint.Apply;
    var mid := c.registry.nextMid;
    RequestHeader(name, payload, mid);
    RegisterTrip(s, name, objects, payload, from, mid);
    var id := Registry.WithClient(s.clients, name, from, DecodedOnto([], payload)).1;
    AnswerTrip(c, k, name, payload, now, serverMid, id, AddressIn(c, Transactions.Peer.Server(k)));
    if RegistryOk(t.clients) && Lookup(t.clients, id).Some? {
      DeregisterTrip(t, id, from', later);
    }
  }
}
