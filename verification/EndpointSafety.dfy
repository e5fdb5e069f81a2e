/** When the engine uses memory it has freed: exactly when it frees what a pending transaction refers to. */
module EndpointSafety {
  import opened Bytes
  import opened CoapPacket
  import opened Uri
  import opened IntrusiveList
  import opened ListLookup
  import opened Transactions
  import opened TransactionRuns
  import opened TransactionDatagrams
  import RegisterPayload
  import R = Registry
  import opened RegistryExact
  import RR = RegistryRuns
  import RA = RegistryAnswers
  import O = Observe
  import opened RegistrationClient
  import opened Endpoint
  import opened EndpointHeld
  import opened EndpointRuns

  // ----- what pending transactions refer to -----

  /** The observation of every open request is still there. */
  ghost predicate AllLive(r: R.State) {
    forall n: nat :: n in r.open ==>
      var o := Live(r.clients, r.open[n].client, r.open[n].id); o.Some? && o.value.serial == n
  }

  /** No pending transaction is to a client whose record has been freed. */
  ghost predicate NoneStale(v: Pending, stale: set<nat>) {
    forall k :: 0 <= k < |v| ==> v[k].item.serial !in stale
  }

  ghost predicate Safe(c: Context) {
    && AllLive(c.registry) && NoneStale(c.engine.pending, c.stale)
    && forall n :: n in c.stale ==> n < c.engine.created
  }

  /** The call frees an observation whose request is unanswered, or a client a transaction is pending to. */
  ghost predicate FreesInUse(c: Context, i: Endpoint.Input) {
    match i
    case Cancelling(client, uri) => R.Cancelled(c.registry, client, uri).Some? && !R.Cancelled(c.registry, client, uri).value.confirmed
    case Registering(uri, message, from) =>
      && R.HandleRegistration(c.registry, uri, message, from).status == DELETED_2_02
      && exists k :: 0 <= k < |c.engine.pending| && c.engine.pending[k].item.peer == Client(uri.objectId)
    case _ => false
  }

  // ----- the registry alone -----

  lemma CompletedLive(r: R.State, n: nat, reply: Option<Packet>)
    requires RR.Sound(r) && AllLive(r)
    ensures var t := R.Completed(r, n, reply);
            && AllLive(t)
            && (t == r || (|t.log| == |r.log| + 1 && r.log == t.log[..|r.log|] && !t.log[|r.log|].Dangling?))
  {
    var t := R.Completed(r, n, reply);
    RR.SoundOk(r);
    if n in r.open {
      var h := r.open[n];
      CompletedExact(r, n, reply);
      var o := Live(r.clients, h.client, h.id).value;
      var confirmed := reply.Some? && reply.value.code == CONTENT_2_05 && OBSERVE in reply.value.options;
      hide RegistryOk, RR.Sound, RR.OpenOk, R.Completed, OnlyChanges, Live;
      forall m: nat | m in t.open
        ensures var p := Live(t.clients, t.open[m].client, t.open[m].id); p.Some? && p.value.serial == m
      {
        RR.OthersStay(r.clients, t.clients, h.client, h.id, if confirmed then Some(o.(confirmed := true)) else None,
                      r.open[m].client, r.open[m].id);
      }
    } else {
      NotOpened(r, n, reply);
    }
  }

  lemma NotOpened(r: R.State, n: nat, reply: Option<Packet>)
    requires n !in r.open
    ensures R.Completed(r, n, reply) == r
  {
  }

  /** No use of freed memory is logged from place n on. */
  predicate NoneDangling(log: seq<R.Event>, n: nat) {
    forall m :: n <= m < |log| ==> !log[m].Dangling?
  }

  lemma {:induction false} TimedOutAllLive(r: R.State, events: seq<Event>)
    requires RegistrySound(r) && AllLive(r)
    ensures var t := TimedOutAll(r, events);
            AllLive(t) && r.log <= t.log && NoneDangling(t.log, |r.log|)
    decreases |events|
  {
    hide RegistrySound, AllLive, R.Completed;
    if events != [] {
      var ev := events[0];
      var s := r;
      if ev.TimedOut? && ev.callbackRun {
        s := R.Completed(r, ev.serial, None);
        CompletedEnds(r, ev.serial, None);
        SoundParts(r);
        CompletedLive(r, ev.serial, None);
      }
      TimedOutAllLive(s, events[1..]);
      var t := TimedOutAll(s, events[1..]);
      assert forall m :: |r.log| <= m < |s.log| ==> t.log[m] == s.log[m];
    }
  }

  lemma SoundParts(r: R.State)
    requires RegistrySound(r)
    ensures RR.Sound(r)
  {
  }

  lemma SameLive(r: R.State, t: R.State)
    requires AllLive(r) && t.open == r.open
    requires forall c: u16, x: u16 :: Live(t.clients, c, x) == Live(r.clients, c, x)
    ensures AllLive(t)
  {
  }

  /** Storing a client under a known or a new name leaves every observation. */
  lemma StoredLive(v: R.Clients, name: seq<byte>, from: Address, objects: RegisterPayload.Objects)
    requires RegistryOk(v) && |v| < 0x1_0000
    ensures var w := R.WithClient(v, name, from, objects).0;
            forall c: u16, x: u16 :: Live(w, c, x) == Live(v, c, x)
  {
    WithClientExact(v, name, from, objects);
    RR.NothingObserved(R.Client(name, from, objects, []));
    hide RegistryOk, Lookup, R.WithClient;
  }


  // ----- one input -----

  lemma RemovedLive(r: R.State, t: R.State, client: u16, id: u16)
    requires RR.OpenOk(r) && AllLive(r) && t == r.(clients := t.clients)
    requires Live(r.clients, client, id).Some? && OnlyChanges(r.clients, t.clients, client, id, None)
    ensures AllLive(t) <==> Live(r.clients, client, id).value.confirmed
  {
    hide OnlyChanges, Live;
    var o := Live(r.clients, client, id).value;
    RR.ChangedIs(r.clients, t.clients, client, id, None);
    if o.confirmed {
      forall m: nat | m in t.open
        ensures var p := Live(t.clients, t.open[m].client, t.open[m].id); p.Some? && p.value.serial == m
      {
        RR.OthersStay(r.clients, t.clients, client, id, None, r.open[m].client, r.open[m].id);
      }
    } else {
      assert o.serial in t.open && t.open[o.serial] == R.Handle(client, id);
    }
  }

  lemma CancelSafe(c: Context, client: u16, uri: Uri)
    requires Linked(c) && Safe(c)
    ensures Safe(Endpoint.Apply(c, Cancelling(client, uri))) <==> !FreesInUse(c, Cancelling(client, uri))
  {
    hide Linked, RegistryOk, RR.Sound, RegistrySound, AllTied, R.Cancel, R.Cancelled, OnlyChanges, Live, NoneStale,
         RR.OpenOk, AllLive, Sorted, ExactlyOnce, Conserved, OneContent;
    var r, t := c.registry, R.Cancel(c.registry, client, uri).state;
    RegistryIsSound(c);
    RR.SoundOk(r);
    CancelExact(r, client, uri);
    RA.CancelLogs(r, client, uri);
    if R.Cancelled(r, client, uri).Some? {
      var o := R.Cancelled(r, client, uri).value;
      var id: u16 :| Live(r.clients, client, id) == Some(o) && OnlyChanges(r.clients, t.clients, client, id, None);
      RemovedLive(r, t, client, id);
    }
  }

  /** A request that is open is pending to the client it refers to. */
  lemma OpenPending(c: Context, n: nat)
    requires Linked(c) && n in c.registry.open
    ensures exists k :: 0 <= k < |c.engine.pending| && c.engine.pending[k].item.peer == Client(c.registry.open[n].client)
  {
    LinkedParts(c);
    assert Holding(c.engine.pending, n) == 1;
    var k := HolderOf(c.engine.pending, n);
    assert Tied(c.registry, c.engine.pending[k].item);
  }

  ghost predicate PendingTo(v: Pending, peer: Peer) {
    exists k :: 0 <= k < |v| && v[k].item.peer == peer
  }

  lemma SerialsNone(v: Pending, peer: Peer)
    ensures !PendingTo(v, peer) ==> SerialsTo(v, peer) == {}
    ensures forall stale: set<nat> :: NoneStale(v, stale + SerialsTo(v, peer)) ==> !PendingTo(v, peer)
  {
    forall stale: set<nat> | PendingTo(v, peer)
      ensures !NoneStale(v, stale + SerialsTo(v, peer))
    {
      var k :| 0 <= k < |v| && v[k].item.peer == peer;
      assert v[k].item.serial in SerialsTo(v, peer);
    }
  }

  lemma SerialsOld(c: Context, peer: Peer)
    requires ExactlyOnce(c.engine)
    ensures forall n :: n in SerialsTo(c.engine.pending, peer) ==> n < c.engine.created
  {
    HeldSerials(c.engine);
  }

  lemma DeletedLive(c: Context, t: R.State, id: u16)
    requires Linked(c) && AllLive(c.registry) && t == c.registry.(clients := t.clients)
    requires forall x: u16 :: x != id ==> Lookup(t.clients, x) == Lookup(c.registry.clients, x)
    requires !PendingTo(c.engine.pending, Client(id))
    ensures AllLive(t)
  {
    hide Linked, Lookup;
    var r := c.registry;
    forall m: nat | m in t.open
      ensures Live(t.clients, t.open[m].client, t.open[m].id) == Live(r.clients, r.open[m].client, r.open[m].id)
    {
      OpenPending(c, m);
    }
  }

  lemma DeletedSafe(c: Context, uri: Uri, message: Packet, from: Address)
    requires Linked(c) && Safe(c) && message.code == COAP_DELETE
    requires R.HandleRegistration(c.registry, uri, message, from).status == DELETED_2_02
    ensures Safe(AfterRegistration(c, uri, message, from)) <==> !FreesInUse(c, Registering(uri, message, from))
  {
    hide Linked, RegistryOk, RR.Sound, RegistrySound, AllTied, R.HandleRegistration, Lookup, SerialsTo, AllLive, NoneStale,
         Sorted, ExactlyOnce, Conserved, OneContent, RR.OpenOk;
    var d, peer := AfterRegistration(c, uri, message, from), Client(uri.objectId);
    LinkedParts(c);
    RegistryIsSound(c);
    RR.SoundOk(c.registry);
    DeleteExact(c.registry, uri, message, from);
    RA.RegistrationLogs(c.registry, uri, message, from);
    SerialsNone(c.engine.pending, peer);
    SerialsOld(c, peer);
    if !PendingTo(c.engine.pending, peer) {
      assert d.stale == c.stale;
      DeletedLive(c, d.registry, uri.objectId);
    }
  }

  lemma RegistrationSafe(c: Context, uri: Uri, message: Packet, from: Address)
    requires Linked(c) && RR.Room(c.registry) && Safe(c)
    ensures Safe(AfterRegistration(c, uri, message, from)) <==> !FreesInUse(c, Registering(uri, message, from))
  {
    var r := c.registry;
    var a := R.HandleRegistration(r, uri, message, from);
    LinkedParts(c);
    RR.SoundOk(r);
    if message.code == COAP_DELETE && a.status == DELETED_2_02 {
      hide Linked, Safe, AfterRegistration, R.HandleRegistration;
      DeletedSafe(c, uri, message, from);
    } else {
      OtherRegistration(r, uri, message, from);
      hide Linked, RegistryOk, RR.Sound, RegistrySound, AllTied, R.HandleRegistration, Live, NoneStale;
      SameLive(r, a.state);
    }
  }

  lemma OtherRegistration(r: R.State, uri: Uri, message: Packet, from: Address)
    requires RegistryOk(r.clients) && RR.Room(r)
    requires message.code == COAP_DELETE ==> R.HandleRegistration(r, uri, message, from).status != DELETED_2_02
    ensures var a := R.HandleRegistration(r, uri, message, from);
            && a.status != DELETED_2_02 && a.state == r.(clients := a.state.clients)
            && forall c: u16, x: u16 :: Live(a.state.clients, c, x) == Live(r.clients, c, x)
  {
    hide RegistryOk, RegisterPayload.DecodedOnto, R.WithClient, RemoveIndex, R.NameIn, Live;
    if message.code == COAP_POST && !uri.hasResource && R.NameIn(message.uriQuery).Some? {
      var name := R.NameIn(message.uriQuery).value;
      StoredLive(r.clients, name, from, RegisterPayload.DecodedOnto([], message.payload));
    }
  }

  lemma KeptNotStale(v: Pending, w: Pending, stale: set<nat>)
    requires NoneStale(v, stale) && forall j :: 0 <= j < |w| ==> KeptFromSome(v, w[j].item)
    ensures NoneStale(w, stale)
  {
    hide Serialized, WireOk;
    forall j | 0 <= j < |w|
      ensures w[j].item.serial !in stale
    {
      assert KeptFromSome(v, w[j].item);
    }
  }

  lemma HeldSafe(c: Context, d: Context)
    requires HeldOnly(c, d)
    ensures Safe(d) <==> Safe(c)
    ensures d.registry == c.registry
  {
    hide AllLive, NoneStale;
  }

  lemma EngineSafe(c: Context, i: Transactions.Input)
    requires (i.Create? || i.Tick?) && Ready(c, i) && Safe(c)
    ensures Safe(WithEngine(c, i))
    ensures var t := WithEngine(c, i).registry; c.registry.log <= t.log && NoneDangling(t.log, |c.registry.log|)
  {
    hide Safe, Ready, Stepped, HeldTimedOut, HeldOnly, Looked, NewEvents;
    SteppedSafe(c, i);
    HeldTimedOutOnly(Stepped(c, i), Looked(c.engine, i), NewEvents(c.engine, Transactions.Apply(c.engine, i)));
    HeldSafe(Stepped(c, i), WithEngine(c, i));
  }

  lemma SteppedSafe(c: Context, i: Transactions.Input)
    requires (i.Create? || i.Tick?) && Ready(c, i) && Safe(c)
    ensures Safe(Stepped(c, i))
    ensures var t := Stepped(c, i).registry; c.registry.log <= t.log && NoneDangling(t.log, |c.registry.log|)
  {
    TimedOutAllLive(c.registry, NewEvents(c.engine, Transactions.Apply(c.engine, i)));
    EngineCreated(c.engine, i);
    hide AllLive, Sorted, Conserved, RegistrySound, AllTied, TimedOutAll, NewEvents, StepAll, Send, StepOutcome, KeptFromSome;
    match i {
      case Create(_, _, _, _, now, clock, book) =>
        var t, a := Fresh(c.engine, i), AddIndex(c.engine.pending, i.mid);
        CreateOutcome(c.engine, i);
        CreatedNotStale(c, i);
        OutcomeKept(Inserted(c.engine.pending, Entry(i.mid, t)), Send(t, now, clock, book).events,
                    Settled(Inserted(c.engine.pending, Entry(i.mid, t)), a, Send(t, now, clock, book).kept), c.stale);
      case Tick(None, _, _) =>
      case Tick(Some(now), clock, book) =>
        var p := StepAll(c.engine.pending, now, clock, book, 0);
        TickOutcome(c.engine, now, clock, book);
        OutcomeKept(c.engine.pending, p.events, p.pending, c.stale);
    }
  }

  lemma OutcomeKept(v: Pending, events: seq<Event>, w: Pending, stale: set<nat>)
    requires StepOutcome(v, events, w) && NoneStale(v, stale)
    ensures NoneStale(w, stale)
  {
    KeptNotStale(v, w, stale);
  }

  lemma CreatedNotStale(c: Context, i: Transactions.Input)
    requires i.Create? && Safe(c)
    ensures NoneStale(Inserted(c.engine.pending, Entry(i.mid, Fresh(c.engine, i))), c.stale)
  {
    hide AllLive, AddIndex;
    var v, a := c.engine.pending, AddIndex(c.engine.pending, i.mid);
    var w := Inserted(v, Entry(i.mid, Fresh(c.engine, i)));
    assert forall j :: 0 <= j < |w| && j != a ==> w[j] == v[if j < a then j else j - 1];
  }

  lemma OpenedSafe(c: Context, client: u16, uri: Uri)
    requires Linked(c) && RR.Room(c.registry) && Safe(c) && R.Observe(c.registry, client, uri).status == R.NO_ERROR
    ensures Safe(ObserveTaken(c, client, uri))
    ensures var t := ObserveTaken(c, client, uri).registry; c.registry.log <= t.log && NoneDangling(t.log, |c.registry.log|)
  {
    var r, t := c.registry, R.Observe(c.registry, client, uri).state;
    LinkedParts(c);
    RR.SoundOk(r);
    NotYetOpen(c);
    LinkedCounts(c);
    ObserveExact(r, client, uri);
    hide Linked, RegistryOk, RR.Sound, RegistrySound, AllTied, R.Observe, NoneStale;
    var id: u16 :| Opened(r, t, client, uri, id);
    var o := Some(R.Observation(r.created, uri, false));
    RR.ChangedIs(r.clients, t.clients, client, id, o);
    hide OnlyChanges, Live, Segments, R.Token;
    forall m: nat | m in t.open
      ensures var p := Live(t.clients, t.open[m].client, t.open[m].id); p.Some? && p.value.serial == m
    {
      if m != r.created {
        RR.OthersStay(r.clients, t.clients, client, id, o, r.open[m].client, r.open[m].id);
      }
    }
  }

  lemma ObserveSafe(c: Context, client: u16, uri: Uri, now: int, clock: bool)
    requires Linked(c) && RR.Room(c.registry) && Safe(c)
    ensures var d := StartObserve(c, client, uri, now, clock);
            Safe(d) && c.registry.log <= d.registry.log && NoneDangling(d.registry.log, |c.registry.log|)
  {
    hide Linked, WithEngine, RR.Room, Ready, R.Observe, Safe;
    if R.Observe(c.registry, client, uri).status == R.NO_ERROR {
      var t := ObserveTaken(c, client, uri);
      ObserveReady(c, client, uri, now, clock);
      OpenedSafe(c, client, uri);
      EngineSafe(t, ObserveRequested(c, client, uri, now, clock));
      var d := StartObserve(c, client, uri, now, clock);
      assert forall m :: |c.registry.log| <= m < |t.registry.log| ==> d.registry.log[m] == t.registry.log[m];
    }
  }

  lemma RequestSafe(c: Context, message: Message, peer: Peer, hasCallback: bool, now: int, clock: bool)
    requires Linked(c) && RR.Room(c.registry) && Safe(c)
    ensures var d := StartRequest(c, message, peer, hasCallback, now, clock);
            Safe(d) && c.registry.log <= d.registry.log && NoneDangling(d.registry.log, |c.registry.log|)
  {
    TakenSafe(c);
    hide Linked, WithEngine, RR.Room, Ready, Safe;
    RequestReady(c, message, peer, hasCallback, now, clock);
    EngineSafe(IdTaken(c), Requested(c, message, peer, hasCallback, now, clock));
  }

  lemma TakenSafe(c: Context)
    requires Safe(c)
    ensures Safe(IdTaken(c)) && IdTaken(c).registry.log == c.registry.log
  {
    hide Live, NoneStale;
  }

  lemma StepSafe(c: Context, reading: Option<int>, clock: bool)
    requires Linked(c) && Safe(c)
    ensures var d := WithEngine(c, Tick(reading, clock, BookOf(c)));
            Safe(d) && c.registry.log <= d.registry.log && NoneDangling(d.registry.log, |c.registry.log|)
  {
    hide Linked, WithEngine, Ready, Safe;
    StepReady(c, reading, clock);
    EngineSafe(c, Tick(reading, clock, BookOf(c)));
  }

  lemma AnswerSafe(c: Context, k: nat, message: Packet, from: Address)
    requires Linked(c) && Safe(c) && Find(c.engine.pending, message.mid) == Some(k)
    ensures var d := AfterAnswer(c, k, message, from);
            Safe(d) && c.registry.log <= d.registry.log && NoneDangling(d.registry.log, |c.registry.log|)
  {
    hide Linked, Safe, Find, Completing, CalledBack, HeldOnly, BookOf;
    var t := c.engine.pending[k].item;
    if IsFrom(t.peer, from, BookOf(c)) {
      var e := Completing(c, k, message, from);
      CompletingSafe(c, k, message, from);
      CalledBackOnly(e, t.peer, Some(message));
      HeldSafe(e, CalledBack(e, t.peer, Some(message)));
    }
  }

  lemma CompletingSafe(c: Context, k: nat, message: Packet, from: Address)
    requires Linked(c) && Safe(c) && Find(c.engine.pending, message.mid) == Some(k)
    requires IsFrom(c.engine.pending[k].item.peer, from, BookOf(c))
    ensures var d := Completing(c, k, message, from);
            Safe(d) && c.registry.log <= d.registry.log && NoneDangling(d.registry.log, |c.registry.log|)
  {
    hide Linked, RegistrySound, AllLive, R.Completed, Find, RR.Sound, Sorted, ExactlyOnce, Conserved, OneContent, AllTied,
         BookOf;
    LinkedParts(c);
    SoundParts(c.registry);
    CompletedLive(c.registry, c.engine.pending[k].item.serial, Some(message));
    WithoutStale(c.engine.pending, k, c.stale);
  }

  lemma WithoutStale(v: Pending, k: nat, stale: set<nat>)
    requires NoneStale(v, stale) && k < |v|
    ensures NoneStale(Without(v, k), stale)
  {
    var w := Without(v, k);
    assert forall j :: 0 <= j < |w| ==> w[j] == v[if j < k then j else j + 1];
  }

  lemma NotifySafe(c: Context, message: Packet, from: Address)
    requires Safe(c)
    ensures var d := c.(registry := R.Notify(c.registry, message, from));
            Safe(d) && c.registry.log <= d.registry.log && NoneDangling(d.registry.log, |c.registry.log|)
  {
    var r, t := c.registry, R.Notify(c.registry, message, from);
    RA.NotifyLogs(r, message, from);
    hide R.Notify, Live, NoneStale;
    SameLive(r, t);
  }

  lemma ResponseSafe(c: Context, message: Packet, from: Address)
    requires Linked(c) && Safe(c)
    ensures var d := OnResponse(c, message, from);
            Safe(d) && c.registry.log <= d.registry.log && NoneDangling(d.registry.log, |c.registry.log|)
  {
    var d := AfterReset(c, message, from);
    ResetLinked(c, message, from);
    hide Linked, Safe, R.Notify, Find, AfterAnswer, O.Apply;
    assert Safe(d) by {
      ResetSafe(c, message, from);
    }
    match Find(d.engine.pending, message.mid) {
      case Some(k) => AnswerSafe(d, k, message, from);
      case None => NotifySafe(d, message, from);
    }
  }

  lemma ResetSafe(c: Context, message: Packet, from: Address)
    requires Safe(c)
    ensures Safe(AfterReset(c, message, from))
  {
    hide AllLive, NoneStale, O.Apply;
  }

  lemma EnrolSafe(c: Context, k: nat, name: seq<byte>, payload: seq<byte>, now: int, clock: bool)
    requires Linked(c) && RR.Room(c.registry) && Safe(c) && k < |c.held|
    ensures var d := Enrol(c, k, name, payload, now, clock);
            Safe(d) && c.registry.log <= d.registry.log && NoneDangling(d.registry.log, |c.registry.log|)
  {
    hide Linked, RR.Room, Safe, StartRequest, RegisterRequest, Send, Holds, HeldOnly, BookOf;
    var p := RegisterRequest(name, payload, c.registry.nextMid);
    NoToken(name, payload, c.registry.nextMid);
    var d := StartRequest(c, p, Peer.Server(k), true, now, clock);
    RequestSafe(c, p, Peer.Server(k), true, now, clock);
    if k < |d.held| {
      var h := Held(Status.Pending, c.registry.nextMid, d.held[k].location);
      HoldsOnly(d, k, h);
      HeldSafe(d, Holds(d, k, h));
    }
  }

  lemma WithdrawSafe(c: Context, k: nat)
    requires Safe(c) && k < |c.held|
    ensures Safe(Withdraw(c, k)) && Withdraw(c, k).registry.log == c.registry.log
  {
    if c.held[k].status == Status.Registered {
      var r := R.Apply(c.registry, R.OtherMessage);
      var d := c.(registry := r, watched := c.watched.(nextMid := r.nextMid));
      hide Live, NoneStale, Holds, HeldOnly;
      assert Safe(d);
      HoldsOnly(d, k, c.held[k].(status := Unknown));
      HeldSafe(d, Withdraw(c, k));
    }
  }

  lemma WatchSafe(c: Context, input: O.Input)
    requires Safe(c)
    ensures Safe(Endpoint.Apply(c, Watching(input)))
  {
    hide Live, NoneStale, O.Apply;
  }

  /** The input makes the engine use an observation or a client that has been freed. */
  ghost predicate UsesFreed(c: Context, i: Endpoint.Input) {
    var d := Endpoint.Apply(c, i);
    || (exists m :: |c.registry.log| <= m < |d.registry.log| && d.registry.log[m].Dangling?)
    || (i.Response? && Find(c.engine.pending, i.message.mid).Some?
        && c.engine.pending[Find(c.engine.pending, i.message.mid).value].item.serial in c.stale)
    || (i.Step? && i.reading.Some? && exists k :: 0 <= k < |c.engine.pending| && c.engine.pending[k].item.time <= i.reading.value
                                                  && c.engine.pending[k].item.serial in c.stale)
  }

  /**
   * As long as nothing that is in use has been freed, no input uses freed memory; and an input leaves it that way if
   * and only if it does not itself free an observation whose request is unanswered, or a client a transaction is
   * pending to.
   */
  lemma SafeInput(c: Context, i: Endpoint.Input)
    requires Linked(c) && RR.Room(c.registry) && Safe(c)
    ensures !UsesFreed(c, i)
    ensures Safe(Endpoint.Apply(c, i)) <==> !FreesInUse(c, i)
    ensures c.registry.log <= Endpoint.Apply(c, i).registry.log
  {
    SafeApply(c, i);
    hide Linked, RR.Room, Endpoint.Apply, FreesInUse, AllLive, Find, NoneDangling;
    var d := Endpoint.Apply(c, i);
    assert forall m :: |c.registry.log| <= m < |d.registry.log| ==> !d.registry.log[m].Dangling? by {
      NoneIn(d.registry.log, |c.registry.log|);
    }
    assert forall k :: 0 <= k < |c.engine.pending| ==> c.engine.pending[k].item.serial !in c.stale;
    if i.Response? && Find(c.engine.pending, i.message.mid).Some? {
      FoundBelow(c.engine.pending, i.message.mid);
    }
  }

  lemma NoneIn(log: seq<R.Event>, n: nat)
    requires NoneDangling(log, n)
    ensures forall m :: n <= m < |log| ==> !log[m].Dangling?
  {
  }

  lemma FoundBelow(v: Pending, mid: u16)
    requires Find(v, mid).Some?
    ensures Find(v, mid).value < |v|
  {
  }

  lemma SafeApply(c: Context, i: Endpoint.Input)
    requires Linked(c) && RR.Room(c.registry) && Safe(c)
    ensures var d := Endpoint.Apply(c, i);
            c.registry.log <= d.registry.log && NoneDangling(d.registry.log, |c.registry.log|)
    ensures Safe(Endpoint.Apply(c, i)) <==> !FreesInUse(c, i)
  {
    hide Linked, RR.Room, Safe, OnResponse, WithEngine, StartObserve, StartRequest, R.Cancel, O.Apply, R.HandleRegistration, Enrol, Withdraw;
    match i
    case Response(message, from) => ResponseSafe(c, message, from);
    case Step(reading, clock) => StepSafe(c, reading, clock);
    case Subscribing(client, uri, now, clock) => ObserveSafe(c, client, uri, now, clock);
    case Cancelling(client, uri) =>
      CancelSafe(c, client, uri);
      RA.CancelLogs(c.registry, client, uri);
    case Requesting(request, peer, hasCallback, now, clock) => RequestSafe(c, request, peer, hasCallback, now, clock);
    case Registering(uri, message, from) =>
      RegistrationSafe(c, uri, message, from);
      RA.RegistrationLogs(c.registry, uri, message, from);
    case Enrolling(k, name, payload, now, clock) =>
      if k < |c.held| {
        EnrolSafe(c, k, name, payload, now, clock);
      }
    case Withdrawing(k) =>
      if k < |c.held| {
        WithdrawSafe(c, k);
      }
    case Watching(input) => WatchSafe(c, input);
  }

  // ----- every run -----

  /** No call along the run frees what is in use. */
  ghost predicate Careful(c: Context, inputs: seq<Endpoint.Input>)
    decreases |inputs|
  {
    inputs == [] || (!FreesInUse(c, inputs[0]) && Careful(Endpoint.Apply(c, inputs[0]), inputs[1..]))
  }

  /** A run that frees nothing in use never uses freed memory: no callback of a request is run on a freed observation. */
  lemma {:induction false} CarefulRunSafe(c: Context, inputs: seq<Endpoint.Input>)
    requires Linked(c) && Roomy(c, inputs) && Safe(c) && Careful(c, inputs)
    ensures Safe(Endpoint.Run(c, inputs))
    ensures var r := Endpoint.Run(c, inputs).registry; c.registry.log <= r.log && NoneDangling(r.log, |c.registry.log|)
    decreases |inputs|
  {
    hide Linked, RR.Room, Safe, Endpoint.Apply, FreesInUse;
    if inputs != [] {
      var d := Endpoint.Apply(c, inputs[0]);
      ApplyLinked(c, inputs[0]);
      SafeApply(c, inputs[0]);
      CarefulRunSafe(d, inputs[1..]);
      var e := Endpoint.Run(d, inputs[1..]);
      assert forall m :: |c.registry.log| <= m < |d.registry.log| ==> e.registry.log[m] == d.registry.log[m];
    }
  }

  lemma StartSafe(addresses: seq<Address>, mid: u16)
    ensures Safe(Endpoint.Start(addresses, mid))
  {
  }

  /**
   * In every run from the start that frees nothing in use, each request to observe that went out has the callback of
   * its observation run once if its transaction has completed, and not at all while that is pending.
   */
  lemma CallbackRunOnce(addresses: seq<Address>, mid: u16, inputs: seq<Endpoint.Input>, n: nat)
    requires Roomy(Endpoint.Start(addresses, mid), inputs) && Careful(Endpoint.Start(addresses, mid), inputs)
    requires RA.Asks(Endpoint.Run(Endpoint.Start(addresses, mid), inputs).registry.log, n) == 1
    ensures var c := Endpoint.Run(Endpoint.Start(addresses, mid), inputs);
            && RA.Callbacks(c.registry.log, n) == Completions(c.engine.log, n)
            && RA.Callbacks(c.registry.log, n) + Holding(c.engine.pending, n) == 1
  {
    var s := Endpoint.Start(addresses, mid);
    var c := Endpoint.Run(s, inputs);
    StartLinked(addresses, mid);
    StartSafe(addresses, mid);
    assert s.registry.log == [];
    hide Linked, Safe, Endpoint.Run, Roomy, Careful, RA.Asks, RA.Ends, RA.Callbacks, Holding, Completions, Endpoint.Start;
    EveryRunLinked(s, inputs);
    CarefulRunSafe(s, inputs);
    CallbackOnce(c, n);
    NoneIn(c.registry.log, 0);
    RA.EndsCallback(c.registry.log, n);
  }

  // ----- and otherwise -----

  /** Once something in use has been freed, one message is enough: any with the id of the transaction that uses it. */
  lemma UnsafeUsed(c: Context, k: nat, message: Packet, from: Address)
    requires Linked(c) && message.kind != Rst && Find(c.engine.pending, message.mid) == Some(k) && k < |c.engine.pending|
    requires var t := c.engine.pending[k].item;
             || t.serial in c.stale
             || (t.serial in c.registry.open && from == AddressIn(c, t.peer)
                 && var h := c.registry.open[t.serial];
                    var o := Live(c.registry.clients, h.client, h.id); o.None? || o.value.serial != t.serial)
    ensures UsesFreed(c, Response(message, from))
  {
    var t, r := c.engine.pending[k].item, c.registry;
    if t.serial !in c.stale {
      LinkedParts(c);
      RR.SoundOk(r);
      assert Tied(r, t);
      CompletedExact(r, t.serial, Some(message));
      hide Linked, RegistryOk, RR.Sound, RegistrySound, AllTied, R.Completed, Live, OnlyChanges, Find, Transactions.Apply;
      var d := Endpoint.Apply(c, Response(message, from));
      assert d.registry == R.Completed(r, t.serial, Some(message));
      assert d.registry.log[|r.log|].Dangling?;
    }
  }
}
