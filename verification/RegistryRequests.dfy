/** Which registration requests are accepted, and what the record then says, for every request. */
module RegistryRequests {
  import opened Bytes
  import opened CoapPacket
  import opened Uri
  import opened IntrusiveList
  import opened ListLookup
  import opened RegisterPayload
  import opened RegisterReading
  import opened Registry
  import opened RegistryExact
  import opened RegistryRuns

  // ----- the name -----

  /** Query option k starts with ep= and goes on, and none in front of it does. */
  ghost predicate FirstName(query: seq<seq<byte>>, k: nat) {
    && k < |query| && |query[k]| > 3 && QUERY_TEMPLATE <= query[k]
    && forall j :: 0 <= j < k ==> !(|query[j]| > 3 && QUERY_TEMPLATE <= query[j])
  }

  /** There is a name if and only if there is such an option, and it is what follows there, up to a 0. */
  lemma {:induction false} NameExact(query: seq<seq<byte>>)
    ensures NameIn(query).Some? <==> exists k: nat :: k < |query| && |query[k]| > 3 && QUERY_TEMPLATE <= query[k]
    ensures forall k: nat :: FirstName(query, k) ==>
              && NameIn(query).Some? && NameIn(query).value <= query[k][3..] && 0 !in NameIn(query).value
              && (3 + |NameIn(query).value| < |query[k]| ==> query[k][3 + |NameIn(query).value|] == 0)
  {
    hide Until;
    if query != [] {
      var rest := query[1..];
      NameExact(rest);
      assert |query[0]| >= 3 ==> (QUERY_TEMPLATE <= query[0] <==> query[0][..3] == QUERY_TEMPLATE);
      forall k: nat | 0 < k < |query|
        ensures query[k] == rest[k - 1] && (FirstName(query, k) ==> FirstName(rest, k - 1))
      {
      }
    }
  }

  // ----- the answer -----

  /** Some item of the payload begins with a readable id below 65535. */
  ghost predicate NamesSomething(payload: seq<byte>) {
    exists t, id: u16 :: Among(payload, t) && NamesObject(t, id)
  }

  /**
   * A request is a registration if and only if it is a POST, names no resource, has a query option that starts with ep=
   * and goes on, and a payload that names some object. Every other POST is refused with 4.00, a PUT with 5.01, and every
   * other method but DELETE with 4.00, and the registry stays as it is.
   */
  lemma RegistrationExact(s: State, uri: Uri, message: Packet, from: Address)
    ensures var a := HandleRegistration(s, uri, message, from);
            && (a.status == CREATED_2_01 <==>
                  && message.code == COAP_POST && !uri.hasResource && NamesSomething(message.payload)
                  && exists k: nat ::
                       k < |message.uriQuery| && |message.uriQuery[k]| > 3 && QUERY_TEMPLATE <= message.uriQuery[k])
            && (a.status != CREATED_2_01 && message.code != COAP_DELETE ==>
                  a == Answer(if message.code == COAP_PUT then NOT_IMPLEMENTED_5_01 else BAD_REQUEST_4_00, None, s))
  {
    NameExact(message.uriQuery);
    SomethingReads(message.payload);
    hide NameIn, DecodedOnto, WithClient, RemoveIndex;
  }

  /** The objects and instances of a record are those the payload names. */
  ghost predicate Reads(list: Objects, payload: seq<byte>) {
    && (forall id: u16 :: Has(list, id) <==> exists t :: Among(payload, t) && NamesObject(t, id))
    && forall k, instance: u16 :: 0 <= k < |list| ==>
         (Has(list[k].item, instance) <==> exists t :: Among(payload, t) && NamesInstance(t, list[k].id, instance))
  }

  /**
   * An accepted registration leaves one record under the name: with the sender's address and the objects and instances
   * the payload names, under the id in the location; of a client known before it keeps id and observations. No other
   * record changes.
   */
  lemma RegistrationRecords(s: State, uri: Uri, message: Packet, from: Address)
    requires RegistryOk(s.clients) && |s.clients| < 0x1_0000
    requires HandleRegistration(s, uri, message, from).status == CREATED_2_01
    ensures var a := HandleRegistration(s, uri, message, from);
            && a.state == s.(clients := a.state.clients) && RegistryOk(a.state.clients) && NameIn(message.uriQuery).Some?
            && exists id: u16 ::
                 && a.location == Some([SLASH] + RD + [SLASH] + Decimal(id))
                 && (forall c: u16 :: Named(s.clients, c, NameIn(message.uriQuery).value) ==> c == id)
                 && (forall c: u16 :: c != id ==> Lookup(a.state.clients, c) == Lookup(s.clients, c))
                 && Lookup(a.state.clients, id).Some?
                 && var r := Lookup(a.state.clients, id).value;
                    && r.name == NameIn(message.uriQuery).value && r.addr == from && Reads(r.objects, message.payload)
                    && r.observations == if Named(s.clients, id, r.name) then Lookup(s.clients, id).value.observations else []
  {
    Accepted(s, uri, message, from);
    hide NameIn, DecodedOnto, WithClient, Lookup, Decimal, RegistryOk, Reads, HandleRegistration;
    var name, objects := NameIn(message.uriQuery).value, DecodedOnto([], message.payload);
    ObjectsRead(message.payload);
    WithClientExact(s.clients, name, from, objects);
    var (w, id) := WithClient(s.clients, name, from, objects);
  }

  lemma ObjectsRead(payload: seq<byte>)
    ensures Reads(DecodedOnto([], payload), payload)
  {
    PayloadReads(payload);
    hide DecodedOnto, Has, Among, NamesObject, NamesInstance;
  }

  lemma Accepted(s: State, uri: Uri, message: Packet, from: Address)
    requires HandleRegistration(s, uri, message, from).status == CREATED_2_01
    ensures NameIn(message.uriQuery).Some?
    ensures var (w, id) := WithClient(s.clients, NameIn(message.uriQuery).value, from, DecodedOnto([], message.payload));
            HandleRegistration(s, uri, message, from) ==
            Answer(CREATED_2_01, Some([SLASH] + RD + [SLASH] + Decimal(id)), s.(clients := w))
  {
    hide NameIn, DecodedOnto, WithClient, RemoveIndex, Decimal;
  }

  // ----- every run -----

  /** Every client has an object. */
  ghost predicate Described(v: Clients) {
    forall c: u16 :: Lookup(v, c).Some? ==> Lookup(v, c).value.objects != []
  }

  lemma DescribedKept(s: State, i: Input)
    requires Sound(s) && Room(s) && Described(s.clients)
    ensures Described(Apply(s, i).clients)
  {
    SoundOk(s);
    hide Sound, RegistryOk, OpenOk, Observe, Completed, Cancel, HandleRegistration, Notify, Lookup, Live, Described;
    match i {
      case RegistrationRequest(uri, message, from) => RegistrationDescribed(s, uri, message, from);
      case StartObserve(client, uri) => ObserveDescribed(s, client, uri);
      case StopObserve(client, uri) => CancelDescribed(s, client, uri);
      case RequestDone(serial, reply) => CompletedDescribed(s, serial, reply);
      case Incoming(message, from) => NotifyKeepsClients(s, message, from);
      case OtherRequest =>
      case OtherMessage =>
    }
  }

  lemma RegistrationDescribed(s: State, uri: Uri, message: Packet, from: Address)
    requires RegistryOk(s.clients) && |s.clients| < 0x1_0000 && Described(s.clients)
    ensures Described(HandleRegistration(s, uri, message, from).state.clients)
  {
    var name, objects := NameIn(message.uriQuery), DecodedOnto([], message.payload);
    if message.code == COAP_POST && !uri.hasResource && name.Some? && objects != [] {
      WithClientExact(s.clients, name.value, from, objects);
    } else if message.code == COAP_DELETE {
      DeleteExact(s, uri, message, from);
    }
    hide NameIn, DecodedOnto, WithClient, RemoveIndex, Lookup, RegistryOk, Without;
  }

  lemma ObserveDescribed(s: State, client: u16, uri: Uri)
    requires RegistryOk(s.clients) && Room(s) && Described(s.clients)
    ensures Described(Observe(s, client, uri).state.clients)
  {
    hide RegistryOk, Observe, Live, Lookup, Described, Opened;
    var r := Observe(s, client, uri);
    assert Lookup(s.clients, client).Some? ==> |Lookup(s.clients, client).value.observations| < 0x1_0000;
    RegistryExact.ObserveExact(s, client, uri);
    if r.status == NO_ERROR {
      var id: u16 :| Opened(s, r.state, client, uri, id);
      OpenedDescribed(s, r.state, client, uri, id);
    }
  }

  lemma OpenedDescribed(s: State, t: State, client: u16, uri: Uri, id: u16)
    requires Described(s.clients) && Opened(s, t, client, uri, id)
    ensures Described(t.clients)
  {
    hide Live, Lookup, Segments;
  }

  lemma ChangedDescribed(v: Clients, w: Clients, client: u16, id: u16, o: Option<Observation>)
    requires Described(v) && OnlyChanges(v, w, client, id, o)
    ensures Described(w)
  {
    hide Live, Lookup;
  }

  lemma CancelDescribed(s: State, client: u16, uri: Uri)
    requires RegistryOk(s.clients) && Described(s.clients)
    ensures Described(Cancel(s, client, uri).state.clients)
  {
    hide RegistryOk, Cancel, Cancelled, Live, Lookup, Described, OnlyChanges;
    RegistryExact.CancelExact(s, client, uri);
    var r := Cancel(s, client, uri);
    if r.status == NO_ERROR {
      var id: u16 :| Live(s.clients, client, id) == Cancelled(s, client, uri) && OnlyChanges(s.clients, r.state.clients, client, id, None);
      ChangedDescribed(s.clients, r.state.clients, client, id, None);
    }
  }

  lemma CompletedDescribed(s: State, serial: nat, reply: Option<Packet>)
    requires RegistryOk(s.clients) && Described(s.clients)
    ensures Described(Completed(s, serial, reply).clients)
  {
    hide RegistryOk, Completed, Live, Lookup, Described, OnlyChanges;
    if serial in s.open {
      var h := s.open[serial];
      CompletedExact(s, serial, reply);
      var o := Live(s.clients, h.client, h.id);
      if o.Some? && o.value.serial == serial {
        var confirmed := reply.Some? && reply.value.code == CONTENT_2_05 && OBSERVE in reply.value.options;
        ChangedDescribed(s.clients, Completed(s, serial, reply).clients, h.client, h.id,
                         if confirmed then Some(o.value.(confirmed := true)) else None);
      }
    } else {
      NothingDone(s, serial, reply);
    }
  }

  lemma NothingDone(s: State, serial: nat, reply: Option<Packet>)
    requires serial !in s.open
    ensures Completed(s, serial, reply) == s
  {
  }

  lemma NotifyKeepsClients(s: State, message: Packet, from: Address)
    ensures Notify(s, message, from).clients == s.clients
  {
    hide Find;
  }

  /** In every run, every registered client has an object: no request leaves a record without. */
  lemma {:induction false} EveryRunDescribed(s: State, inputs: seq<Input>)
    requires Sound(s) && Roomy(s, inputs) && Described(s.clients)
    ensures Described(Run(s, inputs).clients)
    decreases |inputs|
  {
    hide Sound, Apply, Room, Described;
    if inputs != [] {
      ApplySound(s, inputs[0]);
      DescribedKept(s, inputs[0]);
      EveryRunDescribed(Apply(s, inputs[0]), inputs[1..]);
    }
  }

  lemma StartDescribed(mid: u16)
    ensures Described(Start(mid).clients)
  {
  }
}
