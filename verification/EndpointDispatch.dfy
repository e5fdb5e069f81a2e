/** Which messages become notifications (core/packet.c:281-311), and which are taken for something else before. */
module EndpointDispatch {
  import opened Bytes
  import opened CoapPacket
  import opened IntrusiveList
  import opened ListLookup
  import opened Transactions
  import opened TransactionRuns
  import opened TransactionDatagrams
  import R = Registry
  import opened RegistryExact
  import RR = RegistryRuns
  import opened Endpoint
  import opened EndpointHeld
  import opened EndpointRuns

  /** The registry's answer to a message that handle_observe_notify gets to see, with the token of these ids. */
  function Reaction(c: Context, client: u16, id: u16, message: Packet, from: Address): Option<R.Event> {
    match Live(c.registry.clients, client, id)
    case Some(o) => Some(R.Notified(o.serial, client, o.uri, R.AsInt(message.observe), message.payload))
    case None =>
      if Lookup(c.registry.clients, client).Some? then Some(R.Refused(from, Init(Rst, 0, message.mid))) else None
  }

  /**
   * A notification runs its observation's callback, or is reset for want of one, if and only if no transaction with
   * its message id is pending.
   */
  lemma NotificationRouted(c: Context, message: Packet, from: Address, client: u16, id: u16)
    requires Linked(c) && message.kind != Rst && Notifies(message) && message.token == R.Token(client, id)
    requires Lookup(c.registry.clients, client).Some?
    ensures var d := OnResponse(c, message, from);
            && Reaction(c, client, id, message, from).Some?
            && (d.registry.log == c.registry.log + [Reaction(c, client, id, message, from).value]
                <==> !Has(c.engine.pending, message.mid))
            && (!Has(c.engine.pending, message.mid) ==>
                  d == c.(registry := c.registry.(log := c.registry.log + [Reaction(c, client, id, message, from).value])))
  {
    LinkedParts(c);
    FindExact(c.engine.pending, message.mid);
    assert RegistryOk(c.registry.clients) by {
      RR.SoundOk(c.registry);
    }
    hide Linked, Sorted, RegistryOk, Live, Skip;
    match Find(c.engine.pending, message.mid) {
      case None =>
        NotifyExact(c.registry, message, from, client, id);
      case Some(k) =>
        AnswerLogs(c, k, message, from);
    }
  }

  /** A message taken by a transaction logs at most the end of a request. */
  lemma AnswerLogs(c: Context, k: nat, message: Packet, from: Address)
    requires Linked(c) && Find(c.engine.pending, message.mid) == Some(k)
    ensures var r, s := AfterAnswer(c, k, message, from).registry, c.registry;
            r.log == s.log || (|r.log| == |s.log| + 1 && (r.log[|s.log|].Answered? || r.log[|s.log|].Dangling?))
  {
    var n := c.engine.pending[k].item.serial;
    LinkedParts(c);
    RR.SoundOk(c.registry);
    hide Linked, Sorted, Skip;
    if n in c.registry.open {
      CompletedExact(c.registry, n, Some(message));
    }
    hide R.Completed, RegistryOk, OnlyChanges, Live;
    assert n !in c.registry.open ==> R.Completed(c.registry, n, Some(message)) == c.registry by {
      NothingOpen(c.registry, n, Some(message));
    }
  }

  lemma NothingOpen(r: R.State, n: nat, reply: Option<Packet>)
    ensures n !in r.open ==> R.Completed(r, n, reply) == r
  {
  }

  /** The peer is a client or a server, and its record holds the address. */
  ghost predicate Peered(c: Context, peer: Peer, from: Address) {
    match peer
    case Client(id) => from == if Lookup(c.registry.clients, id).Some? then Lookup(c.registry.clients, id).value.addr else []
    case Server(j) => from == if j < |c.watched.servers| then c.watched.servers[j].addr else []
    case _ => false
  }

  /**
   * What a pending transaction with its message id makes of a notification instead: from another address nothing at
   * all; from the transaction's peer the end of the transaction, with the notification for an answer.
   */
  lemma NotificationTaken(c: Context, message: Packet, from: Address, k: nat)
    requires Linked(c) && message.kind != Rst && Find(c.engine.pending, message.mid) == Some(k)
    ensures var t, d := c.engine.pending[k].item, OnResponse(c, message, from);
            if Peered(c, t.peer, from) then
              var e := c.(engine := Engine(Without(c.engine.pending, k), c.engine.log + [Answered(t.serial, t.hasCallback)],
                                           c.engine.created),
                          registry := R.Completed(c.registry, t.serial, Some(message)));
              HeldOnly(e, d) && d == if t.hasCallback then CalledBack(e, t.peer, Some(message)) else e
            else d == c
  {
    hide Linked, Find, R.Completed, CalledBack;
    CalledBackOnly(Completing(c, k, message, from), c.engine.pending[k].item.peer, Some(message));
  }

  /**
   * Of the messages with its id, exactly those from its peer's address end a pending transaction, whatever they are; one
   * from any other address touches neither the transactions nor the registry, and nothing at all unless it is a reset.
   */
  lemma AnsweredByPeer(c: Context, message: Packet, from: Address, k: nat)
    requires Linked(c) && Find(c.engine.pending, message.mid) == Some(k) && k < |c.engine.pending|
    ensures var t, d := c.engine.pending[k].item, OnResponse(c, message, from);
            var e := Engine(Without(c.engine.pending, k), c.engine.log + [Answered(t.serial, t.hasCallback)], c.engine.created);
            && (t.peer.Client? && Lookup(c.registry.clients, t.peer.id).Some? ==>
                  (d.engine == e <==> from == Lookup(c.registry.clients, t.peer.id).value.addr))
            && (t.peer.Server? && t.peer.index < |c.watched.servers| ==>
                  (d.engine == e <==> from == c.watched.servers[t.peer.index].addr))
            && (!t.peer.Client? && !t.peer.Server? ==> d.engine != e)
            && (d.engine != e ==> d.engine == c.engine && d.registry == c.registry && (message.kind != Rst ==> d == c))
  {
    hide Linked, Find, R.Completed, CalledBack, O.Apply;
    var d := AfterReset(c, message, from);
    ResetKeepsAddresses(c, message, from);
    CalledBackOnly(Completing(d, k, message, from), c.engine.pending[k].item.peer, Some(message));
    WithoutShorter(c.engine.pending, k);
  }

  lemma ResetKeepsAddresses(c: Context, message: Packet, from: Address)
    ensures AfterReset(c, message, from).watched.servers == c.watched.servers
  {
    hide O.CancelFrom;
  }

  lemma WithoutShorter(v: Pending, k: nat)
    requires k < |v|
    ensures Without(v, k) != v
  {
    assert |Without(v, k)| == |v| - 1;
  }

  // ----- what is not looked at -----

  /**
   * No branch looks at the code of a response without a transaction of its own: with any code, that of an error or 0,
   * it runs the callback of the observation its token names, or is reset for want of one.
   */
  lemma CodeIgnored(c: Context, message: Packet, code: byte, from: Address, client: u16, id: u16)
    requires Linked(c) && message.kind != Rst && Notifies(message) && message.token == R.Token(client, id)
    requires Lookup(c.registry.clients, client).Some? && !Has(c.engine.pending, message.mid)
    ensures var d := OnResponse(c, message.(code := code), from);
            && d == OnResponse(c, message, from)
            && Reaction(c, client, id, message, from).Some?
            && d.registry.log == c.registry.log + [Reaction(c, client, id, message, from).value]
  {
    hide Linked, OnResponse, Lookup, Has;
    NotificationRouted(c, message, from, client, id);
    NotificationRouted(c, message.(code := code), from, client, id);
  }

  /**
   * A transaction without a callback, such as that of a management request made without one, has it called all the same
   * when its peer answers: the source calls the null pointer.
   */
  lemma NullCalled(c: Context, message: Packet, from: Address, k: nat)
    requires Linked(c) && message.kind != Rst && Find(c.engine.pending, message.mid) == Some(k) && k < |c.engine.pending|
    requires var t := c.engine.pending[k].item; !t.hasCallback && Peered(c, t.peer, from)
    ensures var n, d := c.engine.pending[k].item.serial, OnResponse(c, message, from);
            && d.engine.log == c.engine.log + [Answered(n, false)] && d.registry == c.registry
            && Holding(d.engine.pending, n) == 0
  {
    assert Tied(c.registry, c.engine.pending[k].item) by {
      LinkedParts(c);
    }
    hide Linked, Find, R.Completed, OnResponse, BookOf, Peered;
    NotificationTaken(c, message, from, k);
    NothingOpen(c.registry, c.engine.pending[k].item.serial, Some(message));
    AnsweredGone(c, k);
  }

  // ----- where the ids collide -----

  lemma CreatedPending(e: Engine, i: Transactions.Input)
    requires i.Create? && Sorted(e.pending) && !Has(e.pending, i.mid) && Send(Fresh(e, i), i.now, i.clock, i.book).kept.Some?
    ensures var f := Transactions.Apply(e, i);
            && Find(f.pending, i.mid).Some?
            && Find(f.pending, i.mid).value < |f.pending|
            && f.pending[Find(f.pending, i.mid).value].item == Send(Fresh(e, i), i.now, i.clock, i.book).kept.value
  {
    var t, a := Fresh(e, i), AddIndex(e.pending, i.mid);
    var v, r := Inserted(e.pending, Entry(i.mid, t)), Send(t, i.now, i.clock, i.book);
    AddIndexSeparates(e.pending, i.mid);
    var w := Settled(v, a, r.kept);
    hide Send, AddIndex, Sorted;
    assert w == v[a := Entry(i.mid, r.kept.value)];
    forall j | 0 <= j < a
      ensures w[j].id < i.mid
    {
      assert w[j] == e.pending[j];
    }
    SkipUnique(w, i.mid, a);
  }

  /** The first send of a request that can be sent, with a working clock, leaves it pending. */
  lemma FirstSendKeeps(t: Transaction, now: int, book: Book)
    requires t.counter == 0
    ensures Send(t, now, true, book).kept.Some?
    ensures var u := Send(t, now, true, book).kept.value; u.serial == t.serial && u.peer == t.peer && u.hasCallback == t.hasCallback
  {
    hide Serialized;
  }

  /** The transaction with serial n, to this peer and with nothing of the registry's to call back, is found by the id. */
  ghost predicate PlainRequest(d: Context, mid: u16, n: nat, peer: Peer, hasCallback: bool) {
    && n !in d.registry.open && Find(d.engine.pending, mid).Some?
    && var t := d.engine.pending[Find(d.engine.pending, mid).value].item;
       t.serial == n && t.peer == peer && t.hasCallback == hasCallback
  }

  lemma EngineAsked(e: Engine, i: Transactions.Input)
    requires i.Create? && i.clock && Sorted(e.pending) && !Has(e.pending, i.mid)
    ensures var v := Transactions.Apply(e, i).pending;
            && Find(v, i.mid).Some?
            && var t := v[Find(v, i.mid).value].item;
               t.serial == e.created && t.peer == i.peer && t.hasCallback == i.hasCallback
    ensures Send(Fresh(e, i), i.now, i.clock, i.book).kept.Some?
  {
    FirstSendKeeps(Fresh(e, i), i.now, i.book);
    hide Send, Transactions.Apply, Find, Sorted;
    CreatedPending(e, i);
  }

  lemma EngineIs(c: Context, i: Transactions.Input)
    ensures WithEngine(c, i).engine == Transactions.Apply(c.engine, i)
  {
    hide Transactions.Apply, HeldTimedOut;
    HeldTimedOutOnly(Stepped(c, i), Looked(c.engine, i), NewEvents(c.engine, Transactions.Apply(c.engine, i)));
  }

  lemma RequestAsked(c: Context, peer: Peer, request: Message, hasCallback: bool, now: int)
    requires Linked(c) && !Has(c.engine.pending, c.registry.nextMid)
    ensures var d := StartRequest(c, request, peer, hasCallback, now, true);
            && d == IdTaken(c).(engine := d.engine)
            && PlainRequest(d, c.registry.nextMid, c.engine.created, peer, hasCallback)
  {
    hide Linked, Sorted, Send, Find, Transactions.Apply, RegistrySound, AllTied, ExactlyOnce, Conserved, OneContent,
         WithEngine, BookOf;
    LinkedParts(c);
    NotYetOpen(c);
    var i := Requested(c, request, peer, hasCallback, now, true);
    EngineAsked(c.engine, i);
    RequestClients(c, i);
    EngineIs(IdTaken(c), i);
  }

  /** Such a request is over with any message of that id from its peer, and that is all that happens. */
  lemma PlainAnswered(d: Context, message: Packet, from: Address, n: nat, peer: Peer, hasCallback: bool)
    requires Linked(d) && message.kind != Rst && PlainRequest(d, message.mid, n, peer, hasCallback)
    requires Peered(d, peer, from)
    ensures var e := OnResponse(d, message, from);
            && e.registry == d.registry && e.engine.log == d.engine.log + [Answered(n, hasCallback)]
            && Holding(e.engine.pending, n) == 0
  {
    hide Linked, Find, R.Completed, OnResponse;
    var k := Find(d.engine.pending, message.mid).value;
    NotificationTaken(d, message, from, k);
    NothingOpen(d.registry, n, Some(message));
    AnsweredGone(d, k);
  }

  /**
   * Client and server count their message ids apart, and both from 0. When the server has just sent a client a request
   * under an id, a notification of that client under the same id is taken for the answer: the observation's callback
   * does not run, whatever the token says, and the request is over.
   */
  lemma NotificationForAnswer(c: Context, client: u16, request: Message, hasCallback: bool, now: int, message: Packet, from: Address)
    requires Linked(c) && RR.Room(c.registry) && Lookup(c.registry.clients, client).Some?
    requires !Has(c.engine.pending, c.registry.nextMid)
    requires message.kind != Rst && message.mid == c.registry.nextMid
    requires from == Lookup(c.registry.clients, client).value.addr
    ensures var d := StartRequest(c, request, Client(client), hasCallback, now, true);
            var e := OnResponse(d, message, from);
            && e.registry == d.registry && e.engine.log == d.engine.log + [Answered(c.engine.created, hasCallback)]
            && Holding(e.engine.pending, c.engine.created) == 0
  {
    var d := StartRequest(c, request, Client(client), hasCallback, now, true);
    hide Linked, RR.Room, StartRequest, Lookup, PlainRequest, OnResponse, Has, AddressIn, Holding;
    RequestAsked(c, Client(client), request, hasCallback, now);
    RequestLinked(c, request, Client(client), hasCallback, now, true);
    SameAddress(c, d, client);
    PlainAnswered(d, message, from, c.engine.created, Client(client), hasCallback);
  }

  lemma SameAddress(c: Context, d: Context, client: u16)
    requires d.registry.clients == c.registry.clients && Lookup(c.registry.clients, client).Some?
    ensures AddressIn(d, Client(client)) == Lookup(c.registry.clients, client).value.addr
  {
  }

  lemma AnsweredGone(d: Context, k: nat)
    requires Linked(d) && k < |d.engine.pending|
    ensures Holding(Without(d.engine.pending, k), d.engine.pending[k].item.serial) == 0
  {
    LinkedParts(d);
    HoldingAt(d.engine.pending, k, d.engine.pending[k].item.serial);
    HeldAtMostOnce(d.engine, d.engine.pending[k].item.serial);
  }

  /** Starting a request touches no client, and opens no request to observe. */
  lemma RequestClients(c: Context, i: Transactions.Input)
    requires i.Create? && Linked(c)
    requires Send(Fresh(c.engine, i), i.now, i.clock, i.book).kept.Some?
    ensures WithEngine(IdTaken(c), i).registry == IdTaken(c).registry == R.Apply(c.registry, R.OtherRequest)
    ensures WithEngine(IdTaken(c), i) == IdTaken(c).(engine := Transactions.Apply(c.engine, i))
  {
    var d := IdTaken(c);
    var r := d.registry;
    var events := Send(Fresh(c.engine, i), i.now, i.clock, i.book).events;
    KeptLogsNoTimeout(Fresh(c.engine, i), i.now, i.clock, i.book);
    hide Linked, Send, AddIndex, Inserted, HeldTimedOut, TimedOutAll, Looked, NewEvents;
    Appended(d.engine, i, events);
    NoTimeouts(r, events);
    NoneTimedOut(Stepped(d, i), Looked(d.engine, i), events);
  }

  lemma KeptLogsNoTimeout(t: Transaction, now: int, clock: bool, book: Book)
    requires Send(t, now, clock, book).kept.Some?
    ensures forall m :: 0 <= m < |Send(t, now, clock, book).events| ==> !Send(t, now, clock, book).events[m].TimedOut?
  {
    hide Serialized;
  }

  lemma {:induction false} NoTimeouts(r: R.State, events: seq<Event>)
    requires forall m :: 0 <= m < |events| ==> !events[m].TimedOut?
    ensures TimedOutAll(r, events) == r
    decreases |events|
  {
    if events != [] {
      NoTimeouts(r, events[1..]);
    }
  }
}
