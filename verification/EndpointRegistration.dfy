/** The client's registrations as the engine runs them: which message ends one, and what that leaves. */
module EndpointRegistration {
  import opened Bytes
  import opened CoapPacket
  import opened IntrusiveList
  import opened Transactions
  import opened TransactionRuns
  import opened TransactionStep
  import R = Registry
  import RR = RegistryRuns
  import O = Observe
  import opened RegistrationClient
  import opened Endpoint
  import opened EndpointHeld
  import opened EndpointRuns
  import opened EndpointDispatch

  // ----- who may observe, over every run -----

  lemma {:induction false} NotifyEntriesServers(s: O.State, list: seq<nat>, read: O.Reader)
    requires forall k :: 0 <= k < |list| ==> list[k] < |s.table|
    ensures O.NotifyEntries(s, list, read).servers == s.servers
    decreases |list|
  {
    hide O.Notifications, O.ToldAll;
    if list != [] {
      NotifyEntriesServers(O.NotifyEntry(s, list[0], read), list[1..], read);
    }
  }

  lemma WatchingServers(s: O.State, i: O.Input)
    requires !i.Registering?
    ensures O.Apply(s, i).servers == s.servers
  {
    hide O.Selected, O.NotifyEntries, O.CancelFrom, O.WithObserved, O.WithWatcher;
    match i
    case Change(uri, read) => NotifyEntriesServers(s, O.Selected(s.table, uri, |s.table|), read);
    case _ =>
  }

  /** Neither what is held nor who may observe is touched. */
  lemma SameSynced(c: Context, d: Context)
    requires Synced(c) && d.held == c.held && d.watched.servers == c.watched.servers
    ensures Synced(d)
  {
  }

  lemma EngineSynced(c: Context, i: Transactions.Input)
    requires Synced(c)
    ensures Synced(WithEngine(c, i))
  {
    hide Synced, Transactions.Apply, TimedOutAll, HeldTimedOut, Looked, NewEvents;
    SameSynced(c, Stepped(c, i));
    HeldTimedOutSynced(Stepped(c, i), Looked(c.engine, i), NewEvents(c.engine, Transactions.Apply(c.engine, i)));
  }

  lemma ResponseSynced(c: Context, message: Packet, from: Address)
    requires Synced(c)
    ensures Synced(OnResponse(c, message, from))
  {
    hide Synced, O.CancelFrom, R.Completed, R.Notify, CalledBack, Find, Transactions.Apply;
    var d := AfterReset(c, message, from);
    SameSynced(c, d);
    match Find(d.engine.pending, message.mid) {
      case Some(k) =>
        if k < |d.engine.pending| {
          var e := Completing(d, k, message, from);
          SameSynced(d, e);
          CalledBackSynced(e, d.engine.pending[k].item.peer, Some(message));
        }
      case None =>
        SameSynced(d, OnResponse(c, message, from));
    }
  }

  lemma EnrolSynced(c: Context, k: nat, name: seq<byte>, payload: seq<byte>, now: int, clock: bool)
    requires Synced(c) && k < |c.held|
    ensures Synced(Enrol(c, k, name, payload, now, clock))
  {
    hide Synced, WithEngine, RegisterRequest, Send, Holds;
    var p := RegisterRequest(name, payload, c.registry.nextMid);
    assert p.token == [] by {
      NoToken(name, payload, c.registry.nextMid);
    }
    SameSynced(c, IdTaken(c));
    EngineSynced(IdTaken(c), Requested(c, p, Peer.Server(k), true, now, clock));
    var d := StartRequest(c, p, Peer.Server(k), true, now, clock);
    if k < |d.held| {
      HoldsSynced(d, k, Held(Status.Pending, c.registry.nextMid, d.held[k].location));
    }
  }

  lemma WithdrawSynced(c: Context, k: nat)
    requires Synced(c) && k < |c.held|
    ensures Synced(Withdraw(c, k))
  {
    hide Synced, Holds;
    if c.held[k].status == Status.Registered {
      var r := R.Apply(c.registry, R.OtherMessage);
      var d := c.(registry := r, watched := c.watched.(nextMid := r.nextMid));
      SameSynced(c, d);
      HoldsSynced(d, k, c.held[k].(status := Unknown));
    }
  }

  lemma ApplySynced(c: Context, i: Endpoint.Input)
    requires Synced(c)
    ensures Synced(Endpoint.Apply(c, i))
  {
    hide Synced, OnResponse, WithEngine, Enrol, Withdraw, R.Observe, R.Cancel, R.HandleRegistration, O.Apply, ObserveMessage;
    match i
    case Response(message, from) => ResponseSynced(c, message, from);
    case Step(reading, clock) => EngineSynced(c, Tick(reading, clock, BookOf(c)));
    case Subscribing(client, uri, now, clock) =>
      SameSynced(c, ObserveTaken(c, client, uri));
      EngineSynced(ObserveTaken(c, client, uri), ObserveRequested(c, client, uri, now, clock));
    case Cancelling(client, uri) => SameSynced(c, Endpoint.Apply(c, i));
    case Requesting(request, peer, hasCallback, now, clock) =>
      SameSynced(c, IdTaken(c));
      EngineSynced(IdTaken(c), Requested(c, request, peer, hasCallback, now, clock));
    case Registering(uri, message, from) => SameSynced(c, Endpoint.Apply(c, i));
    case Enrolling(k, name, payload, now, clock) =>
      if k < |c.held| {
        EnrolSynced(c, k, name, payload, now, clock);
      }
    case Withdrawing(k) =>
      if k < |c.held| {
        WithdrawSynced(c, k);
      }
    case Watching(input) =>
      if !input.Registering? {
        WatchingServers(c.watched, input);
        SameSynced(c, Endpoint.Apply(c, i));
      }
  }

  /** In every run a server is let observe exactly while the client is registered with it. */
  lemma {:induction false} EveryRunSynced(c: Context, inputs: seq<Endpoint.Input>)
    requires Synced(c)
    ensures Synced(Endpoint.Run(c, inputs))
    decreases |inputs|
  {
    hide Synced, Endpoint.Apply;
    if inputs != [] {
      ApplySynced(c, inputs[0]);
      EveryRunSynced(Endpoint.Apply(c, inputs[0]), inputs[1..]);
    }
  }

  lemma StartSynced(addresses: seq<Address>, mid: u16)
    ensures Synced(Endpoint.Start(addresses, mid))
  {
  }

  // ----- the answer to a registration -----

  /** The message is taken by a transaction to server k, and comes from that server. */
  predicate AnswersServer(c: Context, k: nat, message: Packet, from: Address) {
    match Find(c.engine.pending, message.mid)
    case None => false
    case Some(j) =>
      var t := c.engine.pending[j].item;
      t.peer == Peer.Server(k) && t.hasCallback && AddressIn(c, Peer.Server(k)) == from
  }

  /** The message accepts the registration that is held. */
  predicate Accepts(h: Held, message: Packet) {
    message.mid == h.mid && message.kind == Ack && message.locationPath != [] && message.code == CREATED_2_01
  }

  /**
   * A pending registration becomes one in force, at the location the message carries, if and only if the message is
   * taken by a transaction to that server, comes from that server's address and accepts it.
   */
  lemma RegisteredBy(c: Context, k: nat, message: Packet, from: Address)
    requires Linked(c) && k < |c.held| && c.held[k].status == Status.Pending
    ensures var d := OnResponse(c, message, from);
            && |d.held| == |c.held|
            && (d.held[k].status == Status.Registered <==> AnswersServer(c, k, message, from) && Accepts(c.held[k], message))
            && (d.held[k].status == Status.Registered ==>
                  d.held[k] == c.held[k].(status := Status.Registered, location := message.locationPath))
            && (!AnswersServer(c, k, message, from) ==> d.held[k] == c.held[k])
  {
    hide Linked, Find, R.Completed, R.Notify, Transactions.Apply;
    var d := AfterReset(c, message, from);
    match Find(d.engine.pending, message.mid) {
      case None =>
      case Some(j) =>
        ResetAddress(c, message, from, c.engine.pending[j].item.peer);
    }
  }

  lemma ResetAddress(c: Context, message: Packet, from: Address, peer: Peer)
    ensures AddressIn(AfterReset(c, message, from), peer) == AddressIn(c, peer)
    ensures AfterReset(c, message, from).engine == c.engine && AfterReset(c, message, from).held == c.held
  {
    hide O.CancelFrom;
  }

  /** A registration just asked for is pending with the id of its request, and its transaction is found by that id. */
  lemma Enrolled(c: Context, k: nat, name: seq<byte>, payload: seq<byte>, now: int)
    requires Linked(c) && !Has(c.engine.pending, c.registry.nextMid)
    requires k < |c.held| && Serialized(RegisterRequest(name, payload, c.registry.nextMid)) != []
    ensures var mid, d := c.registry.nextMid, Enrol(c, k, name, payload, now, true);
            && d.held == c.held[k := Held(Status.Pending, mid, c.held[k].location)]
            && PlainRequest(d, mid, c.engine.created, Peer.Server(k), true)
            && AddressIn(d, Peer.Server(k)) == AddressIn(c, Peer.Server(k))
  {
    hide Linked, RR.Room, Serialized, RegisterRequest, StartRequest, PlainRequest, Has, WithEngine, Send, Holds, HeldOnly, BookOf;
    var mid := c.registry.nextMid;
    var p := RegisterRequest(name, payload, mid);
    RequestHeader(name, payload, mid);
    var i := Requested(c, p, Peer.Server(k), true, now, true);
    var d := StartRequest(c, p, Peer.Server(k), true, now, true);
    RequestAsked(c, Peer.Server(k), p, true, now);
    FirstSendLeaves(Fresh(c.engine, i), now, i.book);
    var h := Held(Status.Pending, mid, d.held[k].location);
    HoldsOnly(d, k, h);
    HeldPlain(d, Holds(d, k, h), mid, c.engine.created, Peer.Server(k));
  }

  lemma RequestHeader(name: seq<byte>, payload: seq<byte>, mid: u16)
    ensures RegisterRequest(name, payload, mid).token == [] && RegisterRequest(name, payload, mid).mid == mid
  {
  }

  lemma FirstSendLeaves(t: Transaction, now: int, book: Book)
    requires t.counter == 0 && t.wire == None && t.peer.Server? && Serialized(t.message) != []
    ensures Send(t, now, true, book).result == 0
  {
    hide Serialized;
  }

  lemma HeldPlain(c: Context, d: Context, mid: u16, n: nat, peer: Peer)
    requires HeldOnly(c, d)
    ensures PlainRequest(d, mid, n, peer, true) <==> PlainRequest(c, mid, n, peer, true)
    ensures AddressIn(d, peer) == AddressIn(c, peer)
  {
  }

  // ----- the timeout of a registration -----

  /** A transaction to server k with a callback is among those, and times out among the events. */
  ghost predicate GivesUp(v: Pending, events: seq<Event>, k: nat) {
    exists j, m :: 0 <= j < |v| && 0 <= m < |events| && v[j].item.peer == Peer.Server(k)
                   && events[m].TimedOut? && events[m].callbackRun && events[m].serial == v[j].item.serial
  }

  ghost predicate SerialsApart(v: Pending) {
    forall i, j :: 0 <= i < j < |v| ==> v[i].item.serial != v[j].item.serial
  }

  lemma {:induction false} PeerFound(v: Pending, j: nat)
    requires SerialsApart(v) && j < |v|
    ensures PeerIn(v, v[j].item.serial) == v[j].item.peer
    decreases |v|
  {
    if j > 0 {
      var rest := v[1..];
      assert forall i :: 0 <= i < |rest| ==> rest[i] == v[i + 1];
      PeerFound(rest, j - 1);
    }
  }

  lemma {:induction false} PeerSomewhere(v: Pending, n: nat)
    ensures PeerIn(v, n) == UnknownPeer || exists j :: 0 <= j < |v| && v[j].item.serial == n && v[j].item.peer == PeerIn(v, n)
    decreases |v|
  {
    if v != [] && v[0].item.serial != n {
      var rest := v[1..];
      PeerSomewhere(rest, n);
      if PeerIn(rest, n) != UnknownPeer {
        var j :| 0 <= j < |rest| && rest[j].item.serial == n && rest[j].item.peer == PeerIn(rest, n);
        assert v[j + 1] == rest[j];
      }
    }
  }

  /** What the timeout leaves of what is held. */
  function GivenUp(h: Held): Held {
    if h.status == Status.Pending then h.(status := Unknown, mid := 0) else h
  }

  lemma GivesUpFirst(v: Pending, events: seq<Event>, k: nat)
    requires SerialsApart(v) && events != []
    ensures GivesUp(v, events, k) <==>
            || (events[0].TimedOut? && events[0].callbackRun && PeerIn(v, events[0].serial) == Peer.Server(k))
            || GivesUp(v, events[1..], k)
  {
    hide SerialsApart;
    var ev, rest := events[0], events[1..];
    PeerSomewhere(v, ev.serial);
    if GivesUp(v, events, k) {
      var j, m :| 0 <= j < |v| && 0 <= m < |events| && v[j].item.peer == Peer.Server(k)
                  && events[m].TimedOut? && events[m].callbackRun && events[m].serial == v[j].item.serial;
      PeerFound(v, j);
      assert m > 0 ==> rest[m - 1] == events[m];
    }
    if GivesUp(v, rest, k) {
      var j, m :| 0 <= j < |v| && 0 <= m < |rest| && v[j].item.peer == Peer.Server(k)
                  && rest[m].TimedOut? && rest[m].callbackRun && rest[m].serial == v[j].item.serial;
      assert events[m + 1] == rest[m];
    }
  }

  lemma TimeoutHeld(c: Context, peer: Peer, k: nat)
    requires k < |c.held|
    ensures var d := CalledBack(c, peer, None);
            |d.held| == |c.held| && d.held[k] == if peer == Peer.Server(k) then GivenUp(c.held[k]) else c.held[k]
  {
  }

  lemma {:induction false} TimeoutsHeld(c: Context, v: Pending, events: seq<Event>, k: nat)
    requires SerialsApart(v) && k < |c.held|
    ensures var d := HeldTimedOut(c, v, events);
            |d.held| == |c.held| && d.held[k] == if GivesUp(v, events, k) then GivenUp(c.held[k]) else c.held[k]
    decreases |events|
  {
    hide SerialsApart, CalledBack, PeerIn;
    if events != [] {
      var ev := events[0];
      var d := if ev.TimedOut? && ev.callbackRun then CalledBack(c, PeerIn(v, ev.serial), None) else c;
      TimeoutHeld(c, PeerIn(v, ev.serial), k);
      TimeoutsHeld(d, v, events[1..], k);
      GivesUpFirst(v, events, k);
      hide GivesUp;
    }
  }

  lemma PendingApart(c: Context)
    requires Linked(c)
    ensures SerialsApart(c.engine.pending)
  {
    LinkedParts(c);
    var v := c.engine.pending;
    hide Linked, Holding;
    forall i, j | 0 <= i < j < |v|
      ensures v[i].item.serial != v[j].item.serial
    {
      var rest := Without(v, i);
      assert rest[j - 1] == v[j];
      HoldingAt(v, i, v[i].item.serial);
      HoldingAt(rest, j - 1, v[i].item.serial);
      HeldAtMostOnce(c.engine, v[i].item.serial);
    }
  }

  /**
   * A step ends a pending registration with a server if and only if in that step a transaction to that server with a
   * callback times out; it then is no longer pending, and not in force. No other registration changes in a step.
   */
  lemma RegistrationExpires(c: Context, reading: Option<int>, clock: bool, k: nat)
    requires Linked(c) && k < |c.held|
    ensures var d := Endpoint.Apply(c, Step(reading, clock));
            && |c.engine.log| <= |d.engine.log| && |d.held| == |c.held|
            && d.held[k] == if GivesUp(c.engine.pending, d.engine.log[|c.engine.log|..], k) then GivenUp(c.held[k]) else c.held[k]
  {
    var i := Tick(reading, clock, BookOf(c));
    PendingApart(c);
    StepAppends(c.engine, i);
    hide Linked, Transactions.Apply, HeldTimedOut, TimedOutAll, BookOf, SerialsApart, GivesUp;
    TimeoutsHeld(Stepped(c, i), Looked(c.engine, i), NewEvents(c.engine, Transactions.Apply(c.engine, i)), k);
    EngineIs(c, i);
  }

  lemma StepAppends(e: Engine, i: Transactions.Input)
    requires i.Tick?
    ensures var f := Transactions.Apply(e, i);
            |e.log| <= |f.log| && NewEvents(e, f) == f.log[|e.log|..]
  {
    hide StepAll;
  }

  lemma LookedApart(c: Context, i: Transactions.Input)
    requires Linked(c) && i.Create?
    ensures SerialsApart(Looked(c.engine, i))
  {
    var v, w, a := c.engine.pending, Looked(c.engine, i), AddIndex(c.engine.pending, i.mid);
    PendingApart(c);
    LinkedParts(c);
    hide Linked, AddIndex, Holding, SerialsApart;
    assert w == Spliced(v, a, Entry(i.mid, Fresh(c.engine, i)));
    forall j | 0 <= j < |v|
      ensures v[j].item.serial < c.engine.created
    {
      HoldingAt(v, j, v[j].item.serial);
      HeldAtMostOnce(c.engine, v[j].item.serial);
    }
    OneMoreApart(v, a, Entry(i.mid, Fresh(c.engine, i)));
  }

  lemma OneMoreApart(v: Pending, a: nat, e: Entry<Transaction>)
    requires SerialsApart(v) && a <= |v| && forall j :: 0 <= j < |v| ==> v[j].item.serial < e.item.serial
    ensures SerialsApart(Spliced(v, a, e))
  {
    var w := Spliced(v, a, e);
    hide Spliced;
    assert forall j :: 0 <= j < |w| && j != a ==> w[j] == v[if j < a then j else j - 1];
  }

  /**
   * A registration for which the clock cannot be read leaves, but its transaction times out at once: the registration
   * does not become pending, and one that was pending is given up.
   */
  lemma RegistrationWithoutClock(c: Context, k: nat, name: seq<byte>, payload: seq<byte>, now: int)
    requires Linked(c) && k < |c.held|
    requires var p := RegisterRequest(name, payload, c.registry.nextMid); |p.token| <= COAP_TOKEN_LEN && Serialized(p) != []
    ensures var d := Endpoint.Apply(c, Enrolling(k, name, payload, now, false));
            |d.held| == |c.held| && d.held[k] == GivenUp(c.held[k])
  {
    RequestHeader(name, payload, c.registry.nextMid);
    hide Serialized, RegisterRequest, Enrol;
    EnrolledWithoutClock(c, k, name, payload, RegisterRequest(name, payload, c.registry.nextMid), now);
  }

  lemma EnrolledWithoutClock(c: Context, k: nat, name: seq<byte>, payload: seq<byte>, p: Message, now: int)
    requires Linked(c) && k < |c.held|
    requires p == RegisterRequest(name, payload, c.registry.nextMid) && p.mid == c.registry.nextMid && Serialized(p) != []
    ensures var d := Enrol(c, k, name, payload, now, false); |d.held| == |c.held| && d.held[k] == GivenUp(c.held[k])
  {
    var i := Create(c.registry.nextMid, p, Peer.Server(k), true, now, false, BookOf(c));
    hide Linked, Serialized, RegisterRequest, WithEngine, BookOf, GivenUp, IdTaken, Send;
    GivenUpAtOnce(c, i, k);
    EnrolFails(c, k, name, payload, p, now);
  }

  lemma EnrolFails(c: Context, k: nat, name: seq<byte>, payload: seq<byte>, p: Message, now: int)
    requires k < |c.held| && p == RegisterRequest(name, payload, c.registry.nextMid) && p.mid == c.registry.nextMid
    ensures var i := Create(c.registry.nextMid, p, Peer.Server(k), true, now, false, BookOf(c));
            Send(Fresh(c.engine, i), now, false, i.book).result != 0 ==>
              Enrol(c, k, name, payload, now, false) == WithEngine(IdTaken(c), i)
  {
    hide RegisterRequest, WithEngine, Send, BookOf, IdTaken;
    assert p.(mid := c.registry.nextMid) == p;
  }

  lemma GivenUpAtOnce(c: Context, i: Transactions.Input, k: nat)
    requires Linked(c) && k < |c.held| && i.Create? && !i.clock && i.peer == Peer.Server(k) && i.hasCallback
    requires Serialized(i.message) != []
    ensures Send(Fresh(c.engine, i), i.now, false, i.book).result != 0
    ensures var d := WithEngine(IdTaken(c), i); |d.held| == |c.held| && d.held[k] == GivenUp(c.held[k])
  {
    var t, e := Fresh(c.engine, i), Transactions.Apply(c.engine, i);
    ClockFails(t, i.now, i.book);
    LookedApart(c, i);
    hide Linked, Serialized, HeldTimedOut, TimedOutAll, SerialsApart, Send, AddIndex;
    var events, v, a := Send(t, i.now, false, i.book).events, Looked(c.engine, i), AddIndex(c.engine.pending, i.mid);
    Appended(c.engine, i, events);
    assert v[a] == Entry(i.mid, t);
    assert GivesUp(v, events, k) by {
      assert v[a].item.peer == Peer.Server(k) && events[1].TimedOut? && events[1].callbackRun && events[1].serial == v[a].item.serial;
    }
    TimeoutsHeld(Stepped(IdTaken(c), i), v, events, k);
  }
}
