/** An observation the whole way round: the server asks, the client watches, a value changes, the callback runs. */
module ObserveLoop {
  import opened Bytes
  import opened CoapPacket
  import opened CoapRoundTrip
  import opened Uri
  import opened IntrusiveList
  import opened ListLookup
  import O = Observe
  import OL = ObserveLaws
  import OR = ObserveRuns
  import OE = ObserveExact
  import opened ObserveRequests
  import Registry
  import RE = RegistryExact
  import opened RegistryExact
  import RegistryRuns
  import opened RegistrationTrip
  import opened Endpoint
  import opened EndpointRuns
  import opened EndpointDispatch
  import opened ObserveTrip

  /** What lwm2m_observe hands to its transaction is the request with the token of the observation it has made. */
  lemma MessageAsked(c: Context, client: u16, uri: Uri) returns (id: u16)
    requires Linked(c) && RegistryRuns.Room(c.registry) && Registry.Observe(c.registry, client, uri).status == Registry.NO_ERROR
    ensures ObserveMessage(c, client, uri) == Registry.ObserveRequest(uri, c.registry.nextMid, Registry.Token(client, id))
    ensures Live(ObserveTaken(c, client, uri).registry.clients, client, id) ==
            Some(Registry.Observation(c.registry.created, uri, false))
  {
    var r := Registry.Observe(c.registry, client, uri).state;
    RegistryIsSound(c);
    RegistryRuns.SoundOk(c.registry);
    RoomFor(c.registry, client);
    RE.ObserveExact(c.registry, client, uri);
    LastAsked(c, client, uri);
    hide Linked, RegistryRuns.Sound, RegistryRuns.Room, RegistryOk, Registry.Observe, ObserveMessage, OnlyChanges, Live,
         RegistryRuns.OpenOk, Segments, Registry.Token;
    id :| Opened(c.registry, r, client, uri, id);
    RegistryRuns.ChangedIs(c.registry.clients, r.clients, client, id, Some(Registry.Observation(c.registry.created, uri, false)));
  }

  lemma LastAsked(c: Context, client: u16, uri: Uri)
    requires Registry.Observe(c.registry, client, uri).status == Registry.NO_ERROR
    ensures var r := Registry.Observe(c.registry, client, uri).state;
            |r.log| > 0 && r.log[|r.log| - 1].Asked? && r.log[|r.log| - 1].message == ObserveMessage(c, client, uri)
  {
    hide Inserted, Segments;
  }

  // ----- the client -----

  /** The server with this address is known as number k, may observe, and does not watch the URI yet. */
  ghost predicate MayWatch(s: O.State, k: nat, from: Address, uri: Uri) {
    && OL.Sound(s) && Recognized(s.servers, from) && k == O.FirstServer(s.servers, from) < |s.servers|
    && s.servers[k].registered && WatcherOf(s.table, uri, k) == None
  }

  lemma Watched(s: O.State, k: nat, from: Address, uri: Uri, token: seq<byte>)
    requires MayWatch(s, k, from, uri) && Observable(uri, token)
    ensures var r := O.Request(s, uri, from, token);
            && r.status == CONTENT_2_05 && OL.Sound(r.state) && r.state.servers == s.servers
            && WatcherOf(r.state.table, uri, k) == Some(O.Watcher(s.created, k, token, 1, 0))
  {
    RequestExact(s, uri, from, token, uri, k);
    OL.ApplySound(s, O.Observation(uri, from, token));
    SameUriReflexive(uri);
    hide OL.Sound, O.Request, WatcherOf, Recognized;
  }

  lemma ServerAddress(s: O.State, k: nat, from: Address, uri: Uri)
    requires MayWatch(s, k, from, uri)
    ensures k < |s.servers| && s.servers[k].addr == from
  {
    ServerFound(s.servers, from);
  }

  /** A watcher's place in the table. */
  lemma PlaceOf(t: O.Table, uri: Uri, k: nat) returns (i: nat, j: nat)
    requires WatcherOf(t, uri, k).Some?
    ensures i < |t| && j < |t[i].watchers| && O.SameUri(t[i].uri, uri) && t[i].watchers[j] == WatcherOf(t, uri, k).value
  {
    i := O.FirstObserved(t, uri);
    j := O.FirstWatcher(t[i].watchers, k);
  }

  /** A watcher is in one place only. */
  lemma OnePlace(s: O.State, i: nat, j: nat, i': nat, j': nat)
    requires OL.Sound(s)
    requires i < |s.table| && j < |s.table[i].watchers| && i' < |s.table| && j' < |s.table[i'].watchers|
    requires s.table[i].watchers[j].serial == s.table[i'].watchers[j'].serial
    ensures i == i' && j == j'
  {
    hide OL.AllAccounted, OL.CountsUp, OR.TableOk, OR.Occurs;
    if i != i' {
      OL.ElsewhereAbsent(s, i, j, i');
      OL.OccursSome(s.table[i'].watchers, j');
    } else if j != j' {
      OL.OnceHere(s, i, j);
      OL.OnceInEntry(s.table[i].watchers, j, j');
    }
  }

  lemma {:induction false} HeardSome(evs: seq<O.Event>, x: nat) returns (m: nat)
    requires OE.Heard(evs, x) >= 1
    ensures m < |evs| && evs[m].serial == x
  {
    if evs[0].serial == x {
      m := 0;
    } else {
      m := HeardSome(evs[1..], x);
      m := m + 1;
    }
  }

  /** A change of the value is sent to the watcher, with its token and count. */
  lemma ChangeSent(s: O.State, uri: Uri, k: nat, read: O.Reader, payload: seq<byte>) returns (mid: u16)
    requires OL.Sound(s) && WatcherOf(s.table, uri, k).Some?
    requires forall u: Uri :: O.SameUri(u, uri) ==> read(u) == Some(payload)
    ensures var w, t := WatcherOf(s.table, uri, k).value, O.Changed(s, uri, read);
            && s.log <= t.log
            && O.Notified(w.serial, O.WatcherAddress(s.servers, w), O.Notification(w, mid, payload)) in t.log[|s.log|..]
  {
    var w := WatcherOf(s.table, uri, k).value;
    var i, j := PlaceOf(s.table, uri, k);
    SameMeet(s.table[i].uri, uri);
    var evs := OE.ChangeExact(s, uri, read);
    hide OL.Sound, O.Changed, O.Notification, WatcherOf, O.WatcherAddress, O.SameUri, OE.Meet;
    var m := HeardSome(evs, w.serial);
    assert OE.Warranted(s, uri, read, evs[m], m);
    var i', j' :| OE.Sent(s, uri, read, evs[m], m, i', j');
    OnePlace(s, i, j, i', j');
    mid := O.MidAfter(s.nextMid, m);
  }

  lemma SameMeet(u: Uri, uri: Uri)
    ensures O.SameUri(u, uri) ==> OE.Meet(u, uri)
  {
    assert OE.Covers(uri, uri.objectId, uri.instanceId, uri.resourceId);
  }

  // ----- all the way round -----

  /**
   * A server observes a URI of a client. The request it makes arrives with the URI and the token of the observation;
   * the client, which knows the server by its address and lets it observe, adds a watcher with that token; and when
   * the value changes it sends the server a message that arrives and, whatever has happened there meanwhile, runs the
   * callback of the observation with that token with the new value and count 1, if and only if the observation is
   * still live and no transaction is pending under the id of the message.
   */
  lemma ObservedTrip(c: Context, client: u16, uri: Uri, s: Context, k: nat, server: Address, read: O.Reader,
                     payload: seq<byte>, later: Context, from: Address)
    returns (id: u16, mid: u16)
    requires Linked(c) && RegistryRuns.Room(c.registry) && Registry.Observe(c.registry, client, uri).status == Registry.NO_ERROR
    requires RequestUri(uri) && (uri.hasInstance ==> uri.instanceId < LWM2M_MAX_ID)
    requires MayWatch(s.watched, k, server, uri)
    requires (forall u: Uri :: O.SameUri(u, uri) ==> read(u) == Some(payload)) && |payload| <= REST_MAX_CHUNK_SIZE
    requires Linked(later) && Lookup(later.registry.clients, client).Some?
    ensures var p := ObserveMessage(c, client, uri);
            var q := Received(p);
            && Delivers(p, q) && UriOf(q.uriPath) == Some(uri)
            && O.Request(s.watched, uri, server, q.token).status == CONTENT_2_05
            && var r := Endpoint.Apply(s, Watching(O.Observation(uri, server, q.token)));
               var t := Endpoint.Apply(r, Watching(O.Change(uri, read)));
               var x := s.watched.created;
               var n := O.Notification(O.Watcher(x, k, Registry.Token(client, id), 1, 0), mid, payload);
            && r.watched.log <= t.watched.log && O.Notified(x, server, n) in t.watched.log[|r.watched.log|..]
            && Delivers(n, Received(n))
            && var o := Live(later.registry.clients, client, id);
               var log := Endpoint.Apply(later, Response(Received(n), from)).registry.log;
               (CalledOnce(later.registry.log, log, client, payload) <==> o.Some? && !Has(later.engine.pending, mid))
               && (o.Some? && !Has(later.engine.pending, mid) ==>
                     log == later.registry.log + [Registry.Notified(o.value.serial, client, o.value.uri, 1, payload)])
    ensures Live(ObserveTaken(c, client, uri).registry.clients, client, id) ==
            Some(Registry.Observation(c.registry.created, uri, false))
  {
    hide Linked, RegistryRuns.Room, Registry.Observe, MayWatch, Received, Delivers, ObserveMessage, O.Request, O.Changed,
         O.Notification, Registry.ObserveRequest, Registry.Token, OnResponse, Live, Lookup, Has, UriOf, RequestUri, O.SameUri,
         ObserveTaken, WatcherOf, CalledOnce;
    id := MessageAsked(c, client, uri);
    var token := Registry.Token(client, id);
    TokenSplits(client, id);
    ObserveRequestTrip(uri, c.registry.nextMid, client, id);
    assert Observable(uri, token) by {
      ObservableUri(c, client, uri, token);
    }
    Watched(s.watched, k, server, uri, token);
    ServerAddress(s.watched, k, server, uri);
    var r := O.Request(s.watched, uri, server, token).state;
    mid := ChangeSent(r, uri, k, read, payload);
    var w := O.Watcher(s.watched.created, k, token, 1, 0);
    AddressFound(s.watched, k, w);
    ReactionTo(later, client, id, w, mid, payload, from);
    WatchedBy(s, uri, server, token, read);
    Reacts(later, Received(O.Notification(w, mid, payload)), from);
    hide Endpoint.Apply;
  }

  lemma WatchedBy(s: Context, uri: Uri, server: Address, token: seq<byte>, read: O.Reader)
    ensures var r := Endpoint.Apply(s, Watching(O.Observation(uri, server, token)));
            var t := Endpoint.Apply(r, Watching(O.Change(uri, read)));
            && r.watched == O.Request(s.watched, uri, server, token).state
            && t.watched == O.Changed(r.watched, uri, read)
  {
    hide O.Request, O.Changed;
  }

  lemma Reacts(c: Context, message: Packet, from: Address)
    ensures Endpoint.Apply(c, Response(message, from)) == OnResponse(c, message, from)
  {
    hide OnResponse;
  }

  lemma ObservableUri(c: Context, client: u16, uri: Uri, token: seq<byte>)
    requires Registry.Observe(c.registry, client, uri).status == Registry.NO_ERROR && |token| == 4
    ensures Observable(uri, token)
  {
    hide Find;
  }

  lemma AddressFound(s: O.State, k: nat, w: O.Watcher)
    requires k < |s.servers| && w.server == k
    ensures O.WatcherAddress(s.servers, w) == s.servers[k].addr
  {
  }

  /** The callback of the client's observation is run with this payload and count 1, and nothing else is logged. */
  ghost predicate CalledOnce(before: seq<Registry.Event>, log: seq<Registry.Event>, client: u16, payload: seq<byte>) {
    exists x: nat, u: Uri :: log == before + [Registry.Notified(x, client, u, 1, payload)]
  }

  lemma NotCalled(before: seq<Registry.Event>, log: seq<Registry.Event>, client: u16, payload: seq<byte>)
    requires log == before || (|log| == |before| + 1 && !log[|before|].Notified?)
    ensures !CalledOnce(before, log, client, payload)
  {
    forall x: nat, u: Uri
      ensures log != before + [Registry.Notified(x, client, u, 1, payload)]
    {
      assert (before + [Registry.Notified(x, client, u, 1, payload)])[|before|].Notified?;
    }
  }

  /** What the server does with the notification, told from what it logs. */
  lemma ReactionTo(c: Context, client: u16, id: u16, w: O.Watcher, mid: u16, payload: seq<byte>, from: Address)
    requires Linked(c) && Lookup(c.registry.clients, client).Some? && |payload| <= REST_MAX_CHUNK_SIZE
    requires w.token == Registry.Token(client, id) && w.counter == 1
    ensures var n := O.Notification(w, mid, payload);
            && Delivers(n, Received(n))
            && var o := Live(c.registry.clients, client, id);
               var log := OnResponse(c, Received(n), from).registry.log;
               (CalledOnce(c.registry.log, log, client, payload) <==> o.Some? && !Has(c.engine.pending, mid))
               && (o.Some? && !Has(c.engine.pending, mid) ==>
                     log == c.registry.log + [Registry.Notified(o.value.serial, client, o.value.uri, 1, payload)])
  {
    hide Linked, Received, Delivers, O.Notification, OnResponse, Registry.Token, Live, Lookup, Has, CalledOnce, Reaction;
    TokenSplits(client, id);
    NotificationRead(w, mid, payload);
    assert O.ObserveValue(1) == 1;
    Called(c, client, id, Received(O.Notification(w, mid, payload)), from);
  }

  lemma Called(c: Context, client: u16, id: u16, message: Packet, from: Address)
    requires Linked(c) && Lookup(c.registry.clients, client).Some?
    requires message.kind != Rst && Notifies(message) && message.token == Registry.Token(client, id)
    requires Registry.AsInt(message.observe) == 1
    ensures var o := Live(c.registry.clients, client, id);
            var log := OnResponse(c, message, from).registry.log;
            (CalledOnce(c.registry.log, log, client, message.payload) <==> o.Some? && !Has(c.engine.pending, message.mid))
            && (o.Some? && !Has(c.engine.pending, message.mid) ==>
                  log == c.registry.log + [Registry.Notified(o.value.serial, client, o.value.uri, 1, message.payload)])
  {
    hide Linked, OnResponse, Registry.Token, Live, Lookup, Has, Notifies;
    var before, log := c.registry.log, OnResponse(c, message, from).registry.log;
    if Has(c.engine.pending, message.mid) {
      NotificationLogs(c, message, from);
      NotCalled(before, log, client, message.payload);
    } else {
      NotificationRouted(c, message, from, client, id);
      if Live(c.registry.clients, client, id).None? {
        NotCalled(before, log, client, message.payload);
      }
    }
  }

  /** A message taken by a transaction logs no notification. */
  lemma NotificationLogs(c: Context, message: Packet, from: Address)
    requires Linked(c) && message.kind != Rst
    ensures Has(c.engine.pending, message.mid) ==>
              var log := OnResponse(c, message, from).registry.log;
              log == c.registry.log || (|log| == |c.registry.log| + 1 && !log[|c.registry.log|].Notified?)
  {
    LinkedParts(c);
    FindExact(c.engine.pending, message.mid);
    hide Linked, Sorted, AfterAnswer, Skip;
    if Has(c.engine.pending, message.mid) {
      AnswerLogs(c, Find(c.engine.pending, message.mid).value, message, from);
    }
  }
}
