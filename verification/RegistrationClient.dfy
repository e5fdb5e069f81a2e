/** The client's end of a registration (core/registration.c): what it sends, and what it keeps of the answer. */
module RegistrationClient {
  import opened Bytes
  import opened CoapPacket
  import opened CoapSetters
  import opened Uri
  import opened Registry

  datatype Status = Unknown | Pending | Registered

  /** What lwm2m_server_t keeps of a registration. */
  datatype Held = Held(status: Status, mid: u16, location: seq<byte>)

  /** The request of lwm2m_register. */
  function RegisterRequest(name: seq<byte>, payload: seq<byte>, mid: u16): Packet {
    WithPayload(
      Init(Con, COAP_POST, mid).(uriPath := UriPathOf([SLASH] + RD), uriQuery := UriQueryOf(QUERY_TEMPLATE + name),
                                 options := {URI_PATH, URI_QUERY}),
      payload)
  }

  /** The request of registration_deregister; the location is used as a C string. */
  function DeregisterRequest(location: seq<byte>, mid: u16): Packet {
    Init(Non, COAP_DELETE, mid).(uriPath := UriPathOf(CString(location)), options := {URI_PATH})
  }

  /** prv_handleRegistrationReply: None stands for the timeout of the request. An answer without a location is ignored. */
  function OnReply(h: Held, reply: Option<Packet>): Held {
    if h.status != Pending then h
    else
      match reply
      case None => h.(status := Unknown, mid := 0)
      case Some(p) =>
        if p.mid != h.mid || p.kind != Ack || p.locationPath == [] then h
        else if p.code == CREATED_2_01 then h.(status := Status.Registered, location := p.locationPath)
        else if p.code == BAD_REQUEST_4_00 then h.(status := Unknown, mid := 0)
        else h
  }

  // ----- what that comes to -----

  /** An answer that settles a pending registration: its acknowledgement with a location, accepting or refusing it. */
  predicate Settles(h: Held, reply: Option<Packet>) {
    match reply
    case None => true
    case Some(p) => p.mid == h.mid && p.kind == Ack && p.locationPath != [] && p.code in {CREATED_2_01, BAD_REQUEST_4_00}
  }

  function AfterReplies(h: Held, replies: seq<Option<Packet>>): Held
    decreases |replies|
  {
    if replies == [] then h else AfterReplies(OnReply(h, replies[0]), replies[1..])
  }

  lemma {:induction false} NothingPending(h: Held, replies: seq<Option<Packet>>)
    requires h.status != Pending
    ensures AfterReplies(h, replies) == h
    decreases |replies|
  {
    if replies != [] {
      NothingPending(h, replies[1..]);
    }
  }

  lemma {:induction false} NoneSettles(h: Held, replies: seq<Option<Packet>>)
    requires h.status == Pending && forall k :: 0 <= k < |replies| ==> !Settles(h, replies[k])
    ensures AfterReplies(h, replies) == h
    decreases |replies|
  {
    if replies != [] {
      assert !Settles(h, replies[0]);
      NoneSettles(h, replies[1..]);
    }
  }

  /**
   * Whatever answers come in, in whatever order: a pending registration stays pending until the first that settles it.
   * That one alone decides: the client is registered, with the location that answer carries, if it is a 2.01, and is
   * not registered if it is a 4.00 with a location or the timeout.
   */
  lemma {:induction false} FirstDecides(h: Held, replies: seq<Option<Packet>>, k: nat)
    requires h.status == Pending && k < |replies| && Settles(h, replies[k])
    requires forall i :: 0 <= i < k ==> !Settles(h, replies[i])
    ensures var r, reply := AfterReplies(h, replies), replies[k];
            if reply.Some? && reply.value.code == CREATED_2_01 then r == Held(Status.Registered, h.mid, reply.value.locationPath)
            else r == Held(Unknown, 0, h.location)
    decreases k
  {
    if k == 0 {
      NothingPending(OnReply(h, replies[0]), replies[1..]);
    } else {
      assert !Settles(h, replies[0]);
      FirstDecides(h, replies[1..], k - 1);
    }
  }

  /** lwm2m_server_t, as far as registration goes */
  class Server {
    var status: Status
    var mid: u16
    var location: seq<byte>

    ghost function Now(): Held
      reads this
    {
      Held(status, mid, location)
    }

    constructor ()
      ensures Now() == Held(Unknown, 0, [])
    {
      status, mid, location := Unknown, 0, [];
    }

    /** The turn of lwm2m_register for one server; sent says whether transaction_send returned 0. */
    method Register(name: seq<byte>, payload: seq<byte>, nextMID: u16, sent: bool) returns (message: Packet)
      modifies this`status, this`mid
      ensures message == RegisterRequest(name, payload, nextMID)
      ensures Now() == if sent then Held(Pending, nextMID, old(location)) else old(Now())
    {
      message := Init(Con, COAP_POST, nextMID);
      var path := SetSegments([SLASH] + RD, SLASH, SLASH);
      var query := SetSegments(QUERY_TEMPLATE + name, QUESTION_MARK, AMPERSAND);
      message := WithPayload(message.(uriPath := path, uriQuery := query, options := {URI_PATH, URI_QUERY}), payload);
      if sent {
        status := Pending;
        mid := message.mid;
      }
    }

    /** prv_handleRegistrationReply */
    method HandleRegistrationReply(reply: Option<Packet>)
      modifies this
      ensures Now() == OnReply(old(Now()), reply)
    {
      if status != Pending {
        return;
      }
      if reply == None {
        status, mid := Unknown, 0;
      } else if reply.value.mid == mid && reply.value.kind == Ack && |reply.value.locationPath| != 0 {
        if reply.value.code == CREATED_2_01 {
          status := Status.Registered;
          location := reply.value.locationPath;
        } else if reply.value.code == BAD_REQUEST_4_00 {
          status, mid := Unknown, 0;
        }
      }
    }

    /** registration_deregister */
    method Deregister(nextMID: u16) returns (message: Option<Packet>)
      modifies this`status
      ensures if old(status) == Status.Registered then
                message == Some(DeregisterRequest(location, nextMID)) && Now() == old(Now()).(status := Unknown)
              else message == None && Now() == old(Now())
    {
      if status != Status.Registered {
        return None;
      }
      var path := SetSegments(CString(location), SLASH, SLASH);
      status := Unknown;
      message := Some(Init(Non, COAP_DELETE, nextMID).(uriPath := path, options := {URI_PATH}));
    }
  }
}
