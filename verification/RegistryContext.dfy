/** The server's handlers as they run, on the linked list of clients. */
module RegistryContext {
  import opened Bytes
  import opened CoapPacket
  import opened Uri
  import opened IntrusiveList
  import opened RegisterPayload
  import opened Registry

  class ClientList {
    var clientList: Node?<Client>
    var nextMID: u16
    var created: nat
    /** The requests to observe whose transactions are pending, and what those refer to. */
    var open: map<nat, Handle>
    /** What went out and which callbacks ran, in order. */
    var log: seq<Event>
    ghost var spine: seq<Node<Client>>

    ghost predicate Valid()
      reads this, spine
    {
      Chain(clientList, spine)
    }

    ghost function Now(): State
      reads this, spine
    {
      State(View(spine), nextMID, created, open, log)
    }

    constructor (mid: u16)
      ensures Valid() && Now() == Start(mid)
    {
      clientList, nextMID, created, open, log, spine := null, mid, 0, map[], [], [];
    }

    /** prv_getClientByName */
    method ClientByName(name: seq<byte>) returns (n: Node?<Client>)
      requires Valid()
      ensures var k := FirstNamed(View(spine), name); n == if k < |spine| then spine[k] else null
    {
      ghost var v, k := View(spine), 0;
      n := clientList;
      while n != null && n.item.name != name
        invariant 0 <= k <= |spine| && n == LinkAt(spine, k)
        invariant k + FirstNamed(v[k..], name) == FirstNamed(v, name)
        decreases |spine| - k
      {
        assert v[k..][1..] == v[k + 1..];
        n := n.next;
        k := k + 1;
      }
    }

    /** Assigning one record leaves the others. */
    method SetItem(n: Node<Client>, c: Client, ghost k: nat)
      requires Valid() && k < |spine| && n == spine[k]
      modifies n`item
      ensures Valid() && View(spine) == old(View(spine))[k := Entry(n.id, c)]
    {
      n.item := c;
    }

    method SetObservations(n: Node<Client>, observations: seq<Entry<Observation>>, ghost k: nat)
      requires Valid() && k < |spine| && n == spine[k]
      modifies n`item
      ensures Valid() && View(spine) == Observing(old(View(spine)), k, observations)
    {
      hide Chain;
      SetItem(n, n.item.(observations := observations), k);
    }

    method AddClient(c: Client) returns (id: u16)
      requires Valid()
      modifies this`clientList, this`spine, spine`next
      ensures Valid() && id == NewId(old(View(spine))) && View(spine) == Inserted(old(View(spine)), Entry(id, c))
    {
      hide Chain, Inserted, NewIdFrom, AddIndex, Spliced;
      id := NewIdOf(clientList, spine);
      ghost var v := View(spine);
      var node := new Node(id, c);
      assert View(spine) == v;
      clientList, spine := Add(clientList, node, spine);
    }

    /** The client with the name, created if there is none, with its new address and objects. */
    method StoreClient(name: seq<byte>, from: Address, objects: Objects) returns (id: u16)
      requires Valid()
      modifies this`clientList, this`spine, spine
      ensures Valid() && (View(spine), id) == WithClient(old(View(spine)), name, from, objects)
    {
      hide Chain, Inserted;
      var clientP := ClientByName(name);
      if clientP != null {
        SetItem(clientP, clientP.item.(addr := from, objects := objects), FirstNamed(View(spine), name));
        id := clientP.id;
      } else {
        id := AddClient(Client(name, from, objects, []));
      }
    }

    /** The POST branch of handle_registration_request */
    method Register(message: Packet, from: Address) returns (status: byte, location: Option<seq<byte>>)
      requires Valid()
      modifies this, spine
      ensures Valid() && Answer(status, location, Now()) == Post(old(Now()), message, from)
    {
      hide Chain, WithClient, DecodedOnto;
      status, location := BAD_REQUEST_4_00, None;
      var name := GetParameters(message.uriQuery);
      if name == None {
        return;
      }
      var objects := DecodeRegisterPayload(message.payload);
      if objects == [] {
        return;
      }
      var id := StoreClient(name.value, from, objects);
      status, location := CREATED_2_01, Some(Location(id));
    }

    method RemoveClient(id: u16) returns (removed: bool)
      requires Valid()
      modifies this`clientList, this`spine, spine`next
      ensures Valid() && removed == RemoveIndex(old(View(spine)), id).Some?
      ensures View(spine) == if removed then Without(old(View(spine)), RemoveIndex(old(View(spine)), id).value) else old(View(spine))
    {
      hide Chain, RemoveIndex, Without;
      var clientP;
      ghost var before, v := spine, View(spine);
      clientList, clientP, spine := Remove(clientList, id, spine);
      removed := clientP != null;
      assert View(before) == v;
      if removed {
        ViewWithout(before, RemoveIndex(v, id).value);
      }
    }

    /** handle_registration_request */
    method HandleRegistrationRequest(uri: Uri, message: Packet, from: Address)
      returns (status: byte, location: Option<seq<byte>>)
      requires Valid()
      modifies this, spine
      ensures Valid() && Answer(status, location, Now()) == HandleRegistration(old(Now()), uri, message, from)
    {
      hide Chain, Post, Without, RemoveIndex;
      status, location := BAD_REQUEST_4_00, None;
      if message.code == COAP_POST {
        if !uri.hasResource {
          status, location := Register(message, from);
        }
      } else if message.code == COAP_PUT {
        status := NOT_IMPLEMENTED_5_01;
      } else if message.code == COAP_DELETE {
        if !uri.hasResource {
          var removed := RemoveClient(uri.objectId);
          if removed {
            status := DELETED_2_02;
          }
        }
      }
    }

    /** What lwm2m_observe adds for the client it found. */
    method OpenObservation(clientP: Node<Client>, uri: Uri, ghost k: nat)
      requires Valid() && k < |spine| && clientP == spine[k]
      modifies this`nextMID, this`created, this`open, this`log, clientP`item
      ensures Valid() && Now() == Opening(old(Now()), k, uri)
    {
      hide Chain, Inserted, Observing, ObserveRequest, NewIdFrom;
      var v := clientP.item.observations;
      var mid := nextMID;
      nextMID := (nextMID + 1) % 0x1_0000;
      var id := NewId(v);
      var observationP := Entry(id, Observation(created, uri, false));
      SetObservations(clientP, Inserted(v, observationP), k);
      var token: seq<byte> := [clientP.id / 0x100, clientP.id % 0x100, id / 0x100, id % 0x100];
      log := log + [Asked(created, clientP.id, uri, ObserveRequest(uri, mid, token))];
      open := open[created := Handle(clientP.id, id)];
      created := created + 1;
    }

    /** lwm2m_observe, up to the send */
    method StartObservation(clientID: u16, uri: Uri) returns (status: byte)
      requires Valid()
      modifies this`nextMID, this`created, this`open, this`log, spine
      ensures Valid() && Outcome(status, Now()) == Observe(old(Now()), clientID, uri)
    {
      hide Chain, Opening;
      if !uri.hasInstance && uri.hasResource {
        return BAD_REQUEST_4_00;
      }
      var clientP := FindNode(clientList, clientID, spine);
      if clientP == null {
        return NOT_FOUND_4_04;
      }
      OpenObservation(clientP, uri, Find(View(spine), clientID).value);
      return NO_ERROR;
    }

    /** lwm2m_observe_cancel */
    method StopObservation(clientID: u16, uri: Uri) returns (status: byte)
      requires Valid()
      modifies spine
      ensures Valid() && Outcome(status, Now()) == Cancel(old(Now()), clientID, uri)
    {
      hide Chain, Find, Observing, Without;
      var clientP := FindNode(clientList, clientID, spine);
      if clientP == null {
        return NOT_FOUND_4_04;
      }
      var v := clientP.item.observations;
      var j := FindObservation(v, uri);
      if j == |v| {
        return NOT_FOUND_4_04;
      }
      SetObservations(clientP, Without(v, j), Find(View(spine), clientID).value);
      return NO_ERROR;
    }

    /** prv_obsRequestCallback, when the transaction of the request with this serial ends. */
    method ObsRequestCallback(serial: nat, reply: Option<Packet>)
      requires Valid() && serial in open
      modifies this`open, this`log, spine
      ensures Valid() && Now() == Completed(old(Now()), serial, reply)
    {
      hide Chain, Skip, Closed;
      var h := open[serial];
      open := open - {serial};
      var clientP := FindNode(clientList, h.client, spine);
      if clientP != null {
        var v := clientP.item.observations;
        var observationP := Find(v, h.id);
        if observationP.Some? && v[observationP.value].item.serial == serial {
          CloseObservation(clientP, observationP.value, reply, Find(View(spine), h.client).value);
          return;
        }
      }
      log := log + [Dangling(serial)];
    }

    /** The callback, and the observation confirmed or removed. */
    method CloseObservation(clientP: Node<Client>, j: nat, reply: Option<Packet>, ghost k: nat)
      requires Valid() && k < |spine| && clientP == spine[k] && j < |clientP.item.observations|
      modifies this`log, clientP`item
      ensures Valid() && Now() == Closed(old(Now()), k, j, reply)
    {
      hide Chain, Observing, Without, ReplyCode;
      var v := clientP.item.observations;
      var o := v[j].item;
      var code := CodeOf(reply);
      if code != CONTENT_2_05 {
        log := log + [Answered(o.serial, clientP.id, o.uri, code, [])];
        SetObservations(clientP, Without(v, j), k);
      } else {
        CodeOfContent(reply);
        SetObservations(clientP, v[j := v[j].(item := o.(confirmed := true))], k);
        log := log + [Answered(o.serial, clientP.id, o.uri, CONTENT_2_05, reply.value.payload)];
      }
    }

    /** handle_observe_notify, behind the test that sends a message there */
    method HandleObserveNotify(message: Packet, from: Address)
      requires Valid() && OBSERVE in message.options
      modifies this`log
      ensures Valid() && Now() == Notify(old(Now()), message, from)
    {
      hide Chain, Find;
      if TOKEN !in message.options || |message.token| != 4 {
        return;
      }
      var clientID, obsID := IdAt(message.token, 0), IdAt(message.token, 2);
      var clientP := FindNode(clientList, clientID, spine);
      if clientP == null {
        return;
      }
      var v := clientP.item.observations;
      var observationP := Find(v, obsID);
      if observationP == None {
        log := log + [Refused(from, Init(Rst, 0, message.mid))];
      } else {
        var o := v[observationP.value].item;
        log := log + [Notified(o.serial, clientID, o.uri, AsInt(message.observe), message.payload)];
      }
    }
  }

  lemma ViewWithout(spine: seq<Node<Client>>, k: nat)
    requires k < |spine|
    ensures View(Without(spine, k)) == Without(View(spine), k)
  {
  }

  lemma CodeOfContent(reply: Option<Packet>)
    ensures ReplyCode(reply) == CONTENT_2_05 ==> reply.Some?
  {
  }

  method CodeOf(reply: Option<Packet>) returns (code: byte)
    ensures code == ReplyCode(reply)
  {
    if reply == None {
      code := SERVICE_UNAVAILABLE_5_03;
    } else if reply.value.code == CONTENT_2_05 && OBSERVE !in reply.value.options {
      code := METHOD_NOT_ALLOWED_4_05;
    } else {
      code := reply.value.code;
    }
  }

  /** prv_getParameters */
  method GetParameters(query: seq<seq<byte>>) returns (name: Option<seq<byte>>)
    ensures name == NameIn(query)
  {
    var i := 0;
    while i < |query|
      invariant 0 <= i <= |query| && NameIn(query[i..]) == NameIn(query)
    {
      if |query[i]| > 3 && query[i][..3] == QUERY_TEMPLATE {
        return Some(CString(query[i][3..]));
      }
      assert query[i..][1..] == query[i + 1..];
      i := i + 1;
    }
    return None;
  }

  /** prv_findObservationByURI */
  method FindObservation(v: seq<Entry<Observation>>, uri: Uri) returns (k: nat)
    ensures k == FirstFor(v, uri)
  {
    k := 0;
    while k < |v| && v[k].item.uri != uri
      invariant 0 <= k <= |v| && k + FirstFor(v[k..], uri) == FirstFor(v, uri)
    {
      assert v[k..][1..] == v[k + 1..];
      k := k + 1;
    }
  }
}
