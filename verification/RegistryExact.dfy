/** What each request, call and message does to the registry, said over the map from client ids to records. */
module RegistryExact {
  import opened Bytes
  import opened CoapPacket
  import opened Uri
  import opened IntrusiveList
  import opened ListLookup
  import opened RegisterPayload
  import opened Registry

  /** The observation an id pair names. */
  function Live(v: Clients, client: u16, id: u16): Option<Observation> {
    match Lookup(v, client) case None => None case Some(c) => Lookup(c.observations, id)
  }

  /** Client ids ascend, no two clients have the same name, and every client's observation ids ascend. */
  ghost predicate RegistryOk(v: Clients) {
    && Ascending(v)
    && (forall a: u16, b: u16 :: Lookup(v, a).Some? && Lookup(v, b).Some? && Lookup(v, a).value.name == Lookup(v, b).value.name
          ==> a == b)
    && (forall c: u16 :: Lookup(v, c).Some? ==> Ascending(Lookup(v, c).value.observations))
  }

  lemma LookupAt<T>(v: seq<Entry<T>>, k: nat)
    requires Ascending(v) && k < |v|
    ensures Lookup(v, v[k].id) == Some(v[k].item)
  {
    FindAt(v, k);
  }

  lemma NamedLookup(v: Clients, name: seq<byte>)
    requires Ascending(v)
    ensures var i := FirstNamed(v, name);
            if i < |v| then Lookup(v, v[i].id) == Some(v[i].item)
            else forall c: u16 :: Lookup(v, c).Some? ==> Lookup(v, c).value.name != name
  {
    var i := FirstNamed(v, name);
    if i < |v| {
      LookupAt(v, i);
    }
  }

  /** name is the name of the client with this id. */
  predicate Named(v: Clients, id: u16, name: seq<byte>) {
    Lookup(v, id).Some? && Lookup(v, id).value.name == name
  }

  /**
   * A registration under a known name keeps the client's id and observations; a new name gets the lowest id not in
   * use and starts without observations. Every other record stays as it is.
   */
  lemma WithClientExact(v: Clients, name: seq<byte>, from: Address, objects: Objects)
    requires RegistryOk(v) && |v| < 0x1_0000
    ensures var (w, id) := WithClient(v, name, from, objects);
            && RegistryOk(w)
            && (forall c: u16 :: Named(v, c, name) ==> c == id)
            && (forall c: u16 :: c != id ==> Lookup(w, c) == Lookup(v, c))
            && (if Named(v, id, name) then
                  Lookup(w, id) == Some(Lookup(v, id).value.(addr := from, objects := objects))
                else
                  && Lookup(v, id) == None && (forall c: u16 :: c < id ==> Lookup(v, c).Some?)
                  && Lookup(w, id) == Some(Client(name, from, objects, [])))
  {
    var i := FirstNamed(v, name);
    NamedLookup(v, name);
    if i < |v| {
      LookupUpdated(v, i, v[i].item.(addr := from, objects := objects));
    } else {
      var e := Entry(NewId(v), Client(name, from, objects, []));
      NewIdLeastUnused(v);
      LookupInserted(v, e);
      forall c: u16
        ensures c < e.id ==> Lookup(v, c).Some?
        ensures Lookup(v, e.id) == None
      {
        LookupExact(v, c, e.item);
        LookupExact(v, e.id, e.item);
      }
    }
  }

  /** A DELETE removes the client with the id of the URI and no other, and is refused when there is none. */
  lemma DeleteExact(s: State, uri: Uri, message: Packet, from: Address)
    requires RegistryOk(s.clients) && message.code == COAP_DELETE
    ensures var a := HandleRegistration(s, uri, message, from);
            && RegistryOk(a.state.clients)
            && (a.status == DELETED_2_02 <==> !uri.hasResource && Lookup(s.clients, uri.objectId).Some?)
            && (a.status != DELETED_2_02 ==> a.status == BAD_REQUEST_4_00 && a.state == s)
            && (a.status == DELETED_2_02 ==>
                  && a.state == s.(clients := a.state.clients)
                  && forall c: u16 ::
                    Lookup(a.state.clients, c) == if c == uri.objectId then None else Lookup(s.clients, c))
  {
    AscendingSorted(s.clients);
    RemoveIsFind(s.clients, uri.objectId);
    hide Find, RemoveIndex, Without;
    if !uri.hasResource {
      match RemoveIndex(s.clients, uri.objectId) {
        case Some(k) =>
          LookupWithout(s.clients, k);
          LookupAt(s.clients, k);
        case None =>
      }
    }
  }

  // ----- observations -----

  /** Only the observations of one client differ. */
  lemma ObservingExact(v: Clients, i: nat, observations: seq<Entry<Observation>>)
    requires RegistryOk(v) && i < |v| && Ascending(observations)
    ensures RegistryOk(Observing(v, i, observations))
    ensures forall c: u16 :: Lookup(Observing(v, i, observations), c) ==
                             if c == v[i].id then Some(v[i].item.(observations := observations)) else Lookup(v, c)
    ensures Lookup(v, v[i].id) == Some(v[i].item)
  {
    hide Find;
    LookupAt(v, i);
    LookupUpdated(v, i, v[i].item.(observations := observations));
    assert Observing(v, i, observations) == v[i := v[i].(item := v[i].item.(observations := observations))];
  }

  /** But for one observation, which is now o, nothing differs between the two. */
  ghost predicate OnlyChanges(v: Clients, w: Clients, client: u16, id: u16, o: Option<Observation>) {
    && (forall c: u16 :: c != client ==> Lookup(w, c) == Lookup(v, c))
    && Lookup(v, client).Some? && Lookup(w, client).Some?
    && Lookup(w, client).value == Lookup(v, client).value.(observations := Lookup(w, client).value.observations)
    && (forall x: u16 :: Live(w, client, x) == if x == id then o else Live(v, client, x))
  }

  lemma ObservingChanges(v: Clients, i: nat, observations: seq<Entry<Observation>>, id: u16, o: Option<Observation>)
    requires RegistryOk(v) && i < |v| && Ascending(observations)
    requires forall x: u16 :: Lookup(observations, x) == if x == id then o else Lookup(v[i].item.observations, x)
    ensures RegistryOk(Observing(v, i, observations))
    ensures OnlyChanges(v, Observing(v, i, observations), v[i].id, id, o)
  {
    ObservingExact(v, i, observations);
    hide Lookup, Observing;
  }

  lemma ClientFound(v: Clients, client: u16)
    requires RegistryOk(v)
    ensures Lookup(v, client).Some? <==> Find(v, client).Some?
    ensures Find(v, client).Some? ==>
              var i := Find(v, client).value;
              && v[i].id == client && Lookup(v, client) == Some(v[i].item) && Ascending(v[i].item.observations)
              && forall id: u16 :: Live(v, client, id) == Lookup(v[i].item.observations, id)
  {
    hide Find;
  }

  /** An observation more, under the lowest id that was not in use, and the request for it. */
  ghost predicate Opened(s: State, t: State, client: u16, uri: Uri, id: u16) {
    && Live(s.clients, client, id) == None && (forall x: u16 :: x < id ==> Live(s.clients, client, x).Some?)
    && OnlyChanges(s.clients, t.clients, client, id, Some(Observation(s.created, uri, false)))
    && t == State(t.clients, (s.nextMid + 1) % 0x1_0000, s.created + 1, s.open[s.created := Handle(client, id)],
                  s.log + [Asked(s.created, client, uri, ObserveRequest(uri, s.nextMid, Token(client, id)))])
  }

  /** Observing a client adds one observation, under the lowest id not in use there, and sends one request for it. */
  lemma ObserveExact(s: State, client: u16, uri: Uri)
    requires RegistryOk(s.clients) && (Lookup(s.clients, client).Some? ==> |Lookup(s.clients, client).value.observations| < 0x1_0000)
    ensures var r := Observe(s, client, uri);
            && RegistryOk(r.state.clients)
            && (r.status == NO_ERROR <==> (uri.hasResource ==> uri.hasInstance) && Lookup(s.clients, client).Some?)
            && (r.status != NO_ERROR ==>
                  r.state == s && r.status == if uri.hasResource ==> uri.hasInstance then NOT_FOUND_4_04 else BAD_REQUEST_4_00)
            && (r.status == NO_ERROR ==>
                  exists id: u16 :: Opened(s, r.state, client, uri, id))
  {
    hide Find, Segments, OnlyChanges, RegistryOk, Inserted, NewIdFrom;
    ClientFound(s.clients, client);
    if (uri.hasResource ==> uri.hasInstance) && Find(s.clients, client).Some? {
      var i := Find(s.clients, client).value;
      var v := s.clients[i].item.observations;
      var e := Entry(NewId(v), Observation(s.created, uri, false));
      NewIdLeastUnused(v);
      LookupInserted(v, e);
      LookupExact(v, e.id, e.item);
      forall x: u16 | x < e.id
        ensures Live(s.clients, client, x).Some?
      {
        LookupExact(v, x, e.item);
      }
      ObservingChanges(s.clients, i, Inserted(v, e), e.id, Some(e.item));
      assert Opened(s, Observe(s, client, uri).state, client, uri, e.id);
    }
  }

  /** Cancelling removes the observation it finds, one of that URI, and nothing else. */
  lemma CancelExact(s: State, client: u16, uri: Uri)
    requires RegistryOk(s.clients)
    ensures var r := Cancel(s, client, uri);
            && RegistryOk(r.state.clients)
            && (r.status == NO_ERROR <==> exists id: u16 :: Live(s.clients, client, id).Some? && Live(s.clients, client, id).value.uri == uri)
            && (r.status == NO_ERROR <==> Cancelled(s, client, uri).Some?)
            && (r.status != NO_ERROR ==> r.state == s && r.status == NOT_FOUND_4_04)
            && (r.status == NO_ERROR ==>
                  && r.state == s.(clients := r.state.clients)
                  && exists id: u16 ::
                    && Live(s.clients, client, id) == Cancelled(s, client, uri) && Live(s.clients, client, id).value.uri == uri
                    && OnlyChanges(s.clients, r.state.clients, client, id, None))
  {
    hide Find, OnlyChanges, RegistryOk, Without;
    ClientFound(s.clients, client);
    if Find(s.clients, client).Some? {
      var i := Find(s.clients, client).value;
      var v := s.clients[i].item.observations;
      var k := FirstFor(v, uri);
      if k < |v| {
        LookupAt(v, k);
        LookupWithout(v, k);
        ObservingChanges(s.clients, i, Without(v, k), v[k].id, None);
      } else {
        forall id: u16 | Live(s.clients, client, id).Some?
          ensures Live(s.clients, client, id).value.uri != uri
        {
          assert Live(s.clients, client, id) == Lookup(v, id);
        }
      }
    }
  }

  /**
   * The end of an observation's request runs its callback once, and the observation stays exactly when the answer
   * is 2.05 with an Observe option. The callback is told the code of the answer, or 4.05 for a 2.05 without the option,
   * or 5.03 at the timeout. If the observation has been freed by then, the source uses it all the same.
   */
  lemma CompletedExact(s: State, serial: nat, reply: Option<Packet>)
    requires RegistryOk(s.clients) && serial in s.open
    ensures var t, h := Completed(s, serial, reply), s.open[serial];
            var o := Live(s.clients, h.client, h.id);
            var confirmed := reply.Some? && reply.value.code == CONTENT_2_05 && OBSERVE in reply.value.options;
            var code := if reply.None? then SERVICE_UNAVAILABLE_5_03
                        else if reply.value.code == CONTENT_2_05 && !confirmed then METHOD_NOT_ALLOWED_4_05
                        else reply.value.code;
            && RegistryOk(t.clients)
            && if o.Some? && o.value.serial == serial then
                 && OnlyChanges(s.clients, t.clients, h.client, h.id, if confirmed then Some(o.value.(confirmed := true)) else None)
                 && t == s.(clients := t.clients, open := s.open - {serial},
                            log := s.log + [Answered(serial, h.client, o.value.uri, code,
                                                     if confirmed then reply.value.payload else [])])
               else t == s.(open := s.open - {serial}, log := s.log + [Dangling(serial)])
  {
    var h, t := s.open[serial], s.(open := s.open - {serial});
    ClientFound(s.clients, h.client);
    var o := Live(s.clients, h.client, h.id);
    hide OnlyChanges, RegistryOk, Closed, Skip;
    if o.Some? && o.value.serial == serial {
      var i := Find(s.clients, h.client).value;
      ClosedExact(t, i, Find(s.clients[i].item.observations, h.id).value, reply);
    }
  }

  lemma ClosedExact(s: State, i: nat, k: nat, reply: Option<Packet>)
    requires RegistryOk(s.clients) && i < |s.clients| && k < |s.clients[i].item.observations|
    requires Ascending(s.clients[i].item.observations)
    ensures var t, c, e := Closed(s, i, k, reply), s.clients[i], s.clients[i].item.observations[k];
            var confirmed := reply.Some? && reply.value.code == CONTENT_2_05 && OBSERVE in reply.value.options;
            var code := if reply.None? then SERVICE_UNAVAILABLE_5_03
                        else if reply.value.code == CONTENT_2_05 && !confirmed then METHOD_NOT_ALLOWED_4_05
                        else reply.value.code;
            && RegistryOk(t.clients)
            && OnlyChanges(s.clients, t.clients, c.id, e.id, if confirmed then Some(e.item.(confirmed := true)) else None)
            && t == s.(clients := t.clients,
                       log := s.log + [Answered(e.item.serial, c.id, e.item.uri, code,
                                                if confirmed then reply.value.payload else [])])
  {
    hide OnlyChanges, RegistryOk, Without, Observing;
    var v := s.clients[i].item.observations;
    LookupWithout(v, k);
    LookupUpdated(v, k, v[k].item.(confirmed := true));
    if ReplyCode(reply) != CONTENT_2_05 {
      ObservingChanges(s.clients, i, Without(v, k), v[k].id, None);
    } else {
      ObservingChanges(s.clients, i, v[k := v[k].(item := v[k].item.(confirmed := true))], v[k].id,
                       Some(v[k].item.(confirmed := true)));
    }
  }

  lemma TokenSplits(client: u16, id: u16)
    ensures |Token(client, id)| == 4 && IdAt(Token(client, id), 0) == client && IdAt(Token(client, id), 2) == id
  {
  }

  lemma TokenJoins(token: seq<byte>)
    requires |token| == 4
    ensures Token(IdAt(token, 0), IdAt(token, 2)) == token
  {
    TokenSplits(IdAt(token, 0), IdAt(token, 2));
  }

  /** Different observations have different tokens. */
  lemma TokensDistinct(client: u16, id: u16, client': u16, id': u16)
    requires Token(client, id) == Token(client', id')
    ensures client == client' && id == id'
  {
    TokenSplits(client, id);
    TokenSplits(client', id');
  }

  /** A message that handle_observe_notify looks at. */
  predicate Notifies(message: Packet) {
    OBSERVE in message.options && TOKEN in message.options && |message.token| == 4
  }

  /**
   * A notification with the token of a live observation runs that observation's callback, with its URI, and does
   * nothing else; with another token of a known client it is answered by a reset with its own message id, and no
   * callback runs; all other messages do nothing.
   */
  lemma NotifyExact(s: State, message: Packet, from: Address, client: u16, id: u16)
    requires RegistryOk(s.clients) && message.token == Token(client, id)
    ensures Notify(s, message, from) ==
            if Notifies(message) && Live(s.clients, client, id).Some? then
              var o := Live(s.clients, client, id).value;
              s.(log := s.log + [Notified(o.serial, client, o.uri, AsInt(message.observe), message.payload)])
            else if Notifies(message) && Lookup(s.clients, client).Some? then
              s.(log := s.log + [Refused(from, Init(Rst, 0, message.mid))])
            else s
  {
    TokenSplits(client, id);
    ClientFound(s.clients, client);
    hide Find, Token;
  }
}
