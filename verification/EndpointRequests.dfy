/** What a request puts on the wire at once, and that it carries the id its transaction is found by. */
module EndpointRequests {
  import opened Bytes
  import opened CoapPacket
  import opened Uri
  import opened IntrusiveList
  import opened ListLookup
  import opened Transactions
  import R = Registry
  import O = Observe
  import opened RegistrationClient
  import opened Endpoint
  import opened EndpointHeld
  import opened EndpointDispatch
  import opened EndpointRegistration

  // ----- the first datagram -----

  /** A transaction not sent yet, to a client or a server, with a message that can be sent. */
  predicate Unsent(t: Transaction) {
    t.counter == 0 && t.wire == None && (t.peer.Client? || t.peer.Server?) && Serialized(t.message) != []
  }

  lemma FirstSend(t: Transaction, now: int, book: Book)
    requires Unsent(t)
    ensures Send(t, now, true, book).events == [Attempt(t.serial, now, Some(Datagram(book(t.peer), Serialized(t.message))))]
  {
    hide Serialized;
  }

  lemma CreateSends(c: Context, d: Context, i: Transactions.Input)
    requires i.Create? && i.clock && (i.peer.Client? || i.peer.Server?) && Serialized(i.message) != [] && d.engine == c.engine
    ensures WithEngine(d, i).engine.log ==
            c.engine.log + [Attempt(c.engine.created, i.now, Some(Datagram(i.book(i.peer), Serialized(i.message))))]
  {
    FirstSend(Fresh(d.engine, i), i.now, i.book);
    EngineIs(d, i);
    hide Send, Serialized, AddIndex, Inserted, WithEngine;
  }

  /** A request that can be sent leaves at once, with the next message id, for the address in its peer's record. */
  lemma RequestLeaves(c: Context, request: Message, peer: Peer, hasCallback: bool, now: int)
    requires peer.Client? || peer.Server?
    requires Serialized(request.(mid := c.registry.nextMid)) != []
    ensures Endpoint.Apply(c, Requesting(request, peer, hasCallback, now, true)).engine.log ==
            c.engine.log + [Attempt(c.engine.created, now,
                                    Some(Datagram(AddressIn(c, peer), Serialized(request.(mid := c.registry.nextMid)))))]
  {
    hide Serialized, WithEngine;
    CreateSends(c, IdTaken(c), Requested(c, request, peer, hasCallback, now, true));
  }

  /** And so does the request to observe, for the client, with the token of the observation. */
  lemma ObservationLeaves(c: Context, client: u16, uri: Uri, now: int)
    requires R.Observe(c.registry, client, uri).status == R.NO_ERROR && Lookup(c.registry.clients, client).Some?
    requires Serialized(ObserveMessage(c, client, uri)) != []
    ensures Endpoint.Apply(c, Subscribing(client, uri, now, true)).engine.log ==
            c.engine.log + [Attempt(c.engine.created, now,
                                    Some(Datagram(Lookup(c.registry.clients, client).value.addr,
                                                  Serialized(ObserveMessage(c, client, uri)))))]
  {
    hide Serialized, WithEngine, ObserveMessage, R.Observe, Lookup;
    CreateSends(c, ObserveTaken(c, client, uri), ObserveRequested(c, client, uri, now, true));
  }

  /** And the registration, for its server. */
  lemma RegistrationLeaves(c: Context, k: nat, name: seq<byte>, payload: seq<byte>, now: int)
    requires k < |c.held| == |c.watched.servers|
    requires var p := RegisterRequest(name, payload, c.registry.nextMid); |p.token| <= COAP_TOKEN_LEN && Serialized(p) != []
    ensures Endpoint.Apply(c, Enrolling(k, name, payload, now, true)).engine.log ==
            c.engine.log + [Attempt(c.engine.created, now,
                                    Some(Datagram(c.watched.servers[k].addr,
                                                  Serialized(RegisterRequest(name, payload, c.registry.nextMid)))))]
  {
    hide Serialized, RegisterRequest, Enrol;
    EnrolLeaves(c, k, name, payload, RegisterRequest(name, payload, c.registry.nextMid), now);
  }

  lemma EnrolLeaves(c: Context, k: nat, name: seq<byte>, payload: seq<byte>, p: Message, now: int)
    requires k < |c.held| == |c.watched.servers| && p == RegisterRequest(name, payload, c.registry.nextMid) && Serialized(p) != []
    ensures Enrol(c, k, name, payload, now, true).engine.log ==
            c.engine.log + [Attempt(c.engine.created, now, Some(Datagram(c.watched.servers[k].addr, Serialized(p))))]
  {
    EnrolEngine(c, k, name, payload, now, true);
    ServerBook(c, k);
    hide Serialized, WithEngine, RegisterRequest, Enrol, BookOf, Requested, IdTaken, Endpoint.Apply;
    CreateSends(c, IdTaken(c), Create(c.registry.nextMid, p, Peer.Server(k), true, now, true, BookOf(c)));
  }

  lemma ServerBook(c: Context, k: nat)
    requires k < |c.watched.servers|
    ensures BookOf(c)(Peer.Server(k)) == c.watched.servers[k].addr && IdTaken(c).engine == c.engine
  {
  }

  /** The engine after a registration: that after its request. */
  lemma EnrolEngine(c: Context, k: nat, name: seq<byte>, payload: seq<byte>, now: int, clock: bool)
    requires k < |c.held|
    ensures var p := RegisterRequest(name, payload, c.registry.nextMid);
            && p.mid == c.registry.nextMid && p.token == []
            && Requested(c, p, Peer.Server(k), true, now, clock) ==
               Create(c.registry.nextMid, p, Peer.Server(k), true, now, clock, BookOf(c))
            && Enrol(c, k, name, payload, now, clock).engine ==
               WithEngine(IdTaken(c), Requested(c, p, Peer.Server(k), true, now, clock)).engine
  {
    RequestHeader(name, payload, c.registry.nextMid);
    hide RegisterRequest, WithEngine, Send, BookOf;
  }

  /**
   * A deregistration takes a message id of its own, and ends a registration in force: that server may no longer observe,
   * and nothing else changes. One that is not in force stays as it is.
   */
  lemma WithdrawnExact(c: Context, k: nat)
    requires k < |c.held|
    ensures var d := Endpoint.Apply(c, Withdrawing(k));
            && d.engine == c.engine && d.stale == c.stale && d.registry == c.registry.(nextMid := d.registry.nextMid)
            && if c.held[k].status != Status.Registered then d == c
               else
                 && d.held == c.held[k := c.held[k].(status := Unknown)]
                 && d.registry.nextMid == d.watched.nextMid == (c.registry.nextMid + 1) % 0x1_0000
                 && d.watched == c.watched.(nextMid := d.watched.nextMid, servers := d.watched.servers)
                 && d.watched.servers == if k < |c.watched.servers| then
                                           c.watched.servers[k := c.watched.servers[k].(registered := false)]
                                         else c.watched.servers
  {
  }

  // ----- the id of a transaction -----

  /** Each transaction is found by the id its message carries. */
  ghost predicate IdsMatch(v: Pending) {
    forall k :: 0 <= k < |v| ==> v[k].id == v[k].item.message.mid
  }

  lemma SendKeepsMessage(t: Transaction, now: int, clock: bool, book: Book)
    ensures Send(t, now, clock, book).kept.Some? ==> Send(t, now, clock, book).kept.value.message == t.message
  {
    hide Serialized;
  }

  lemma {:induction false} StepIds(v: Pending, now: int, clock: bool, book: Book, wait: int)
    requires IdsMatch(v)
    ensures IdsMatch(StepAll(v, now, clock, book, wait).pending)
    decreases |v|
  {
    hide Send;
    if v != [] {
      SendKeepsMessage(v[0].item, now, clock, book);
      assert forall k :: 0 <= k < |v[1..]| ==> v[1..][k] == v[k + 1];
      StepIds(v[1..], now, clock, book, StepOne(v[0], now, clock, book, wait).wait);
    }
  }

  lemma EngineIds(e: Engine, i: Transactions.Input)
    requires IdsMatch(e.pending) && (i.Create? ==> i.message.mid == i.mid)
    ensures IdsMatch(Transactions.Apply(e, i).pending)
  {
    hide Send, StepAll, AddIndex, Find;
    match i {
      case Create(mid, message, _, _, now, clock, book) =>
        var t := Fresh(e, i);
        SendKeepsMessage(t, now, clock, book);
        var v := Inserted(e.pending, Entry(mid, t));
        SettledIds(v, AddIndex(e.pending, mid), Send(t, now, clock, book).kept);
      case Tick(None, _, _) =>
      case Tick(Some(now), clock, book) => StepIds(e.pending, now, clock, book, 0);
      case Receive(mid, _, _) =>
        if Find(e.pending, mid).Some? {
          SettledIds(e.pending, Find(e.pending, mid).value, None);
        }
    }
  }

  lemma SettledIds(v: Pending, k: nat, kept: Option<Transaction>)
    requires IdsMatch(v) && k < |v| && (kept.Some? ==> kept.value.message == v[k].item.message)
    ensures IdsMatch(Settled(v, k, kept))
  {
    var w := Settled(v, k, kept);
    assert forall j :: 0 <= j < |w| ==> kept.None? ==> w[j] == v[if j < k then j else j + 1];
  }

  lemma WithEngineIds(c: Context, i: Transactions.Input)
    requires IdsMatch(c.engine.pending) && (i.Create? ==> i.message.mid == i.mid)
    ensures IdsMatch(WithEngine(c, i).engine.pending)
  {
    hide WithEngine, Transactions.Apply;
    EngineIs(c, i);
    EngineIds(c.engine, i);
  }

  lemma ResponseIds(c: Context, message: Packet, from: Address)
    requires IdsMatch(c.engine.pending)
    ensures IdsMatch(OnResponse(c, message, from).engine.pending)
  {
    hide Transactions.Apply, R.Completed, R.Notify, O.Apply, CalledBack, Find, IdsMatch;
    var d := AfterReset(c, message, from);
    if Find(d.engine.pending, message.mid).Some? {
      var k := Find(d.engine.pending, message.mid).value;
      EngineIds(c.engine, Receive(message.mid, from, BookOf(d)));
      CalledBackOnly(Completing(d, k, message, from), d.engine.pending[k].item.peer, Some(message));
    }
  }

  lemma ObserveMessageId(c: Context, client: u16, uri: Uri)
    ensures ObserveMessage(c, client, uri).mid == c.registry.nextMid
  {
    hide Find, Segments;
  }

  lemma ApplyIds(c: Context, i: Endpoint.Input)
    requires IdsMatch(c.engine.pending)
    ensures IdsMatch(Endpoint.Apply(c, i).engine.pending)
  {
    hide WithEngine, OnResponse, R.Observe, R.Cancel, R.HandleRegistration, O.Apply, ObserveMessage, IdsMatch, RegisterRequest,
         Enrol, Withdraw;
    match i
    case Response(message, from) => ResponseIds(c, message, from);
    case Step(reading, clock) => WithEngineIds(c, Tick(reading, clock, BookOf(c)));
    case Subscribing(client, uri, now, clock) =>
      ObserveMessageId(c, client, uri);
      WithEngineIds(ObserveTaken(c, client, uri), ObserveRequested(c, client, uri, now, clock));
    case Requesting(request, peer, hasCallback, now, clock) =>
      WithEngineIds(IdTaken(c), Requested(c, request, peer, hasCallback, now, clock));
    case Enrolling(k, name, payload, now, clock) =>
      if k < |c.held| {
        EnrolEngine(c, k, name, payload, now, clock);
        WithEngineIds(IdTaken(c), Requested(c, RegisterRequest(name, payload, c.registry.nextMid), Peer.Server(k), true, now, clock));
      }
    case Withdrawing(k) =>
      if k < |c.held| {
        WithdrawnExact(c, k);
      }
    case Cancelling(client, uri) =>
    case Registering(uri, message, from) =>
    case Watching(input) =>
  }

  /** In every run the id a transaction is found by is that of its message, so an answer with the id it was sent with finds it. */
  lemma {:induction false} EveryRunIdsMatch(c: Context, inputs: seq<Endpoint.Input>)
    requires IdsMatch(c.engine.pending)
    ensures IdsMatch(Endpoint.Run(c, inputs).engine.pending)
    decreases |inputs|
  {
    hide IdsMatch, Endpoint.Apply;
    if inputs != [] {
      ApplyIds(c, inputs[0]);
      EveryRunIdsMatch(Endpoint.Apply(c, inputs[0]), inputs[1..]);
    }
  }

  lemma StartIdsMatch(addresses: seq<Address>, mid: u16)
    ensures IdsMatch(Endpoint.Start(addresses, mid).engine.pending)
  {
  }
}
