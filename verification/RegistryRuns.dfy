/** What holds in every state of the server's registry, whatever requests, calls and messages led there. */
module RegistryRuns {
  import opened Bytes
  import opened CoapPacket
  import opened Uri
  import opened IntrusiveList
  import opened ListLookup
  import opened RegisterPayload
  import opened Registry
  import opened RegistryExact

  predicate AskedFor(e: Event, serial: nat, client: u16, uri: Uri) {
    e.Asked? && e.serial == serial && e.client == client && e.uri == uri
  }

  /** A run of an observation's callback. */
  predicate Calls(e: Event) {
    e.Answered? || e.Notified?
  }

  /** The request for this observation went out with its token. */
  ghost predicate WasAsked(log: seq<Event>, client: u16, id: u16, o: Observation) {
    exists m :: 0 <= m < |log| && AskedFor(log[m], o.serial, client, o.uri) && log[m].message.token == Token(client, id)
  }

  /** Every run of a callback belongs to an earlier request: same observation, same client, same URI. */
  ghost predicate CallsAsked(log: seq<Event>) {
    forall m :: 0 <= m < |log| && Calls(log[m]) ==> CallAsked(log, m)
  }

  ghost predicate CallAsked(log: seq<Event>, m: nat)
    requires m < |log| && Calls(log[m])
  {
    exists n :: 0 <= n < m && AskedFor(log[n], log[m].serial, log[m].client, log[m].uri)
  }

  ghost predicate SerialsOnce(log: seq<Event>, created: nat) {
    && (forall m :: 0 <= m < |log| && log[m].Asked? ==> log[m].serial < created)
    && (forall m, n :: 0 <= m < n < |log| && log[m].Asked? && log[n].Asked? ==> log[m].serial != log[n].serial)
  }

  ghost predicate LiveAsked(v: Clients, log: seq<Event>) {
    forall c: u16, id: u16 :: Live(v, c, id).Some? ==> WasAsked(log, c, id, Live(v, c, id).value)
  }

  /** An observation is confirmed exactly when its request is no longer pending; a pending one refers to it. */
  ghost predicate OpenOk(s: State) {
    && (forall n :: n in s.open ==> n < s.created)
    && (forall c: u16, id: u16 :: Live(s.clients, c, id).Some? ==>
          var o := Live(s.clients, c, id).value;
          && (o.serial in s.open <==> !o.confirmed)
          && (o.serial in s.open ==> s.open[o.serial] == Handle(c, id)))
  }

  ghost predicate Sound(s: State) {
    && RegistryOk(s.clients) && SerialsOnce(s.log, s.created) && LiveAsked(s.clients, s.log) && CallsAsked(s.log)
    && OpenOk(s)
  }

  /** Every list has an id left. */
  ghost predicate Room(s: State) {
    && |s.clients| < 0x1_0000
    && forall c: u16 :: Lookup(s.clients, c).Some? ==> |Lookup(s.clients, c).value.observations| < 0x1_0000
  }

  ghost predicate Roomy(s: State, inputs: seq<Input>)
    decreases |inputs|
  {
    Room(s) && (inputs == [] || Roomy(Apply(s, inputs[0]), inputs[1..]))
  }

  // ----- the steps that start no observation -----

  /** Whatever is observed in w was already observed in v. */
  ghost predicate Narrower(v: Clients, w: Clients) {
    forall c: u16, id: u16 :: Live(w, c, id).Some? ==>
      && Live(v, c, id).Some?
      && Live(w, c, id).value.serial == Live(v, c, id).value.serial && Live(w, c, id).value.uri == Live(v, c, id).value.uri
  }

  /** The same, with nothing changed in what is left. */
  ghost predicate Sub(v: Clients, w: Clients) {
    forall c: u16, id: u16 :: Live(w, c, id).Some? ==> Live(w, c, id) == Live(v, c, id)
  }

  ghost predicate CallOf(v: Clients, e: Event) {
    exists id: u16 :: Calls(e) && Live(v, e.client, id).Some?
                      && Live(v, e.client, id).value.serial == e.serial && Live(v, e.client, id).value.uri == e.uri
  }

  /** What a step may log: a reset, a callback of a live observation, or the end of a pending request. */
  ghost predicate Loggable(s: State, e: Event) {
    e.Refused? || CallOf(s.clients, e) || (e.Dangling? && e.serial in s.open)
  }

  ghost predicate Quiet(s: State, t: State) {
    && RegistryOk(t.clients) && Narrower(s.clients, t.clients) && t.created >= s.created
    && t.open.Keys <= s.open.Keys
    && (t.log == s.log || (exists e: Event :: t.log == s.log + [e] && Loggable(s, e)))
  }

  lemma SubQuiet(s: State, t: State)
    requires OpenOk(s) && RegistryOk(t.clients) && Sub(s.clients, t.clients)
    requires t.created >= s.created && t.open == s.open && t.log == s.log
    ensures Quiet(s, t) && OpenOk(t)
  {
    hide RegistryOk, Live;
  }

  lemma RemovedSub(v: Clients, w: Clients, client: u16, id: u16)
    requires OnlyChanges(v, w, client, id, None)
    ensures Sub(v, w)
  {
    forall c: u16, x: u16 | Live(w, c, x).Some?
      ensures Live(w, c, x) == Live(v, c, x)
    {
      if c == client && x == id {
        ChangedIs(v, w, client, id, None);
      } else {
        OthersStay(v, w, client, id, None, c, x);
      }
    }
  }

  lemma RegistrationQuiet(s: State, uri: Uri, message: Packet, from: Address)
    requires RegistryOk(s.clients) && OpenOk(s) && Room(s)
    ensures var t := HandleRegistration(s, uri, message, from).state; Quiet(s, t) && OpenOk(t)
  {
    var t := HandleRegistration(s, uri, message, from).state;
    assert RegistryOk(t.clients) && Sub(s.clients, t.clients) && t.open == s.open && t.log == s.log && t.created == s.created by {
      hide RegistryOk, Lookup, DecodedOnto, WithClient, RemoveIndex, OpenOk;
      if message.code == COAP_DELETE {
        DeleteExact(s, uri, message, from);
      } else if t != s {
        var name, objects := NameIn(message.uriQuery).value, DecodedOnto([], message.payload);
        WithClientExact(s.clients, name, from, objects);
        NothingObserved(Client(name, from, objects, []));
      }
    }
    hide RegistryOk, HandleRegistration, Sub, OpenOk, Quiet;
    SubQuiet(s, t);
  }

  lemma NothingObserved(c: Client)
    ensures c.observations == [] ==> forall id: u16 :: Lookup(c.observations, id) == None
  {
  }

  lemma CancelQuiet(s: State, client: u16, uri: Uri)
    requires RegistryOk(s.clients) && OpenOk(s)
    ensures var t := Cancel(s, client, uri).state; Quiet(s, t) && OpenOk(t)
  {
    CancelExact(s, client, uri);
    hide RegistryOk, OnlyChanges, OpenOk, Sub, Quiet;
    var t := Cancel(s, client, uri);
    if t.status == NO_ERROR {
      var id: u16 :| Live(s.clients, client, id).Some? && OnlyChanges(s.clients, t.state.clients, client, id, None);
      RemovedSub(s.clients, t.state.clients, client, id);
    } else {
      SubSame(s.clients);
    }
    SubQuiet(s, t.state);
  }

  lemma SubSame(v: Clients)
    ensures Sub(v, v)
  {
  }

  lemma CompletedQuiet(s: State, serial: nat, reply: Option<Packet>)
    requires RegistryOk(s.clients) && OpenOk(s)
    ensures var t := Completed(s, serial, reply); Quiet(s, t) && OpenOk(t)
  {
    var t := Completed(s, serial, reply);
    if serial in s.open {
      var h := s.open[serial];
      CompletedExact(s, serial, reply);
      hide RegistryOk, OnlyChanges, Completed;
      var o := Live(s.clients, h.client, h.id);
      if o.Some? && o.value.serial == serial {
        var confirmed := reply.Some? && reply.value.code == CONTENT_2_05 && OBSERVE in reply.value.options;
        var e := Answered(serial, h.client, o.value.uri, ReplyCode(reply), if confirmed then reply.value.payload else []);
        assert CallOf(s.clients, e);
        CompletedOpen(s, t, serial, if confirmed then Some(o.value.(confirmed := true)) else None);
      } else {
        assert Loggable(s, Dangling(serial));
        DanglingOpen(s, serial);
      }
    }
  }

  lemma CompletedOpen(s: State, t: State, serial: nat, o: Option<Observation>)
    requires OpenOk(s) && serial in s.open && t.open == s.open - {serial} && t.created == s.created
    requires var h := s.open[serial];
             && OnlyChanges(s.clients, t.clients, h.client, h.id, o)
             && Live(s.clients, h.client, h.id).Some? && Live(s.clients, h.client, h.id).value.serial == serial
             && (o.Some? ==> o.value == Live(s.clients, h.client, h.id).value.(confirmed := true))
    ensures OpenOk(t) && Narrower(s.clients, t.clients)
  {
    var h := s.open[serial];
    hide OnlyChanges, Live;
    forall c: u16, x: u16 | Live(t.clients, c, x).Some?
      ensures Live(s.clients, c, x).Some?
      ensures var p, q := Live(t.clients, c, x).value, Live(s.clients, c, x).value;
              && p.serial == q.serial && p.uri == q.uri && (p.serial in t.open <==> !p.confirmed)
              && (p.serial in t.open ==> t.open[p.serial] == Handle(c, x))
    {
      if c == h.client && x == h.id {
        ChangedIs(s.clients, t.clients, h.client, h.id, o);
      } else {
        OthersStay(s.clients, t.clients, h.client, h.id, o, c, x);
      }
    }
  }

  /** No live observation has the serial of a request whose observation is gone. */
  lemma DanglingOpen(s: State, serial: nat)
    requires OpenOk(s) && serial in s.open
    requires var o := Live(s.clients, s.open[serial].client, s.open[serial].id); o.None? || o.value.serial != serial
    ensures OpenOk(s.(open := s.open - {serial}, log := s.log + [Dangling(serial)]))
    ensures Narrower(s.clients, s.clients)
  {
    hide Live;
  }

  lemma NotifyQuiet(s: State, message: Packet, from: Address)
    requires RegistryOk(s.clients) && OpenOk(s)
    ensures var t := Notify(s, message, from); Quiet(s, t) && OpenOk(t)
  {
    hide RegistryOk, Live;
    if Notifies(message) {
      var client, id := IdAt(message.token, 0), IdAt(message.token, 2);
      TokenJoins(message.token);
      NotifyExact(s, message, from, client, id);
      hide Notify;
      if Live(s.clients, client, id).Some? {
        var o := Live(s.clients, client, id).value;
        assert CallOf(s.clients, Notified(o.serial, client, o.uri, AsInt(message.observe), message.payload));
      }
    }
  }

  lemma ApplyQuiet(s: State, i: Input)
    requires RegistryOk(s.clients) && OpenOk(s) && Room(s) && !i.StartObserve?
    ensures Quiet(s, Apply(s, i)) && OpenOk(Apply(s, i))
  {
    hide RegistryOk, OpenOk, Room, Quiet, HandleRegistration, Cancel, Completed, Notify, Sub;
    match i
    case RegistrationRequest(uri, message, from) => RegistrationQuiet(s, uri, message, from);
    case StopObserve(client, uri) => CancelQuiet(s, client, uri);
    case RequestDone(serial, reply) => CompletedQuiet(s, serial, reply);
    case Incoming(message, from) => NotifyQuiet(s, message, from);
    case OtherRequest => OtherQuiet(s, Apply(s, i));
    case OtherMessage => OtherQuiet(s, Apply(s, i));
  }

  lemma OtherQuiet(s: State, t: State)
    requires RegistryOk(s.clients) && OpenOk(s) && t.created >= s.created
    requires t == s.(nextMid := t.nextMid, created := t.created)
    ensures Quiet(s, t) && OpenOk(t)
  {
    hide RegistryOk, Live;
  }

  // ----- the invariant -----

  lemma AskedLater(log: seq<Event>, e: Event, client: u16, id: u16, o: Observation)
    requires WasAsked(log, client, id, o)
    ensures WasAsked(log + [e], client, id, o)
  {
    var m :| 0 <= m < |log| && AskedFor(log[m], o.serial, client, o.uri) && log[m].message.token == Token(client, id);
    assert (log + [e])[m] == log[m];
  }

  lemma LiveAskedLater(v: Clients, w: Clients, log: seq<Event>, e: Event)
    requires LiveAsked(v, log) && Narrower(v, w)
    ensures LiveAsked(w, log) && LiveAsked(w, log + [e])
  {
    hide Live;
    forall c: u16, id: u16 | Live(w, c, id).Some?
      ensures WasAsked(log, c, id, Live(w, c, id).value) && WasAsked(log + [e], c, id, Live(w, c, id).value)
    {
      assert WasAsked(log, c, id, Live(v, c, id).value);
      AskedLater(log, e, c, id, Live(w, c, id).value);
    }
  }

  lemma CallsLater(log: seq<Event>, e: Event)
    requires CallsAsked(log)
    requires Calls(e) ==> exists n :: 0 <= n < |log| && AskedFor(log[n], e.serial, e.client, e.uri)
    ensures CallsAsked(log + [e])
  {
    var more := log + [e];
    forall m | 0 <= m < |more| && Calls(more[m])
      ensures CallAsked(more, m)
    {
      if m < |log| {
        assert CallAsked(log, m);
        var n :| 0 <= n < m && AskedFor(log[n], log[m].serial, log[m].client, log[m].uri);
        assert AskedFor(more[n], more[m].serial, more[m].client, more[m].uri);
      } else {
        var n :| 0 <= n < |log| && AskedFor(log[n], e.serial, e.client, e.uri);
        assert AskedFor(more[n], more[m].serial, more[m].client, more[m].uri);
      }
    }
  }

  lemma QuietSound(s: State, t: State)
    requires Sound(s) && Quiet(s, t) && OpenOk(t)
    ensures Sound(t)
  {
    hide RegistryOk, Live, Narrower, CallsAsked, LiveAsked, OpenOk;
    if t.log == s.log {
      LiveAskedLater(s.clients, t.clients, s.log, Refused([], Init(Rst, 0, 0)));
    } else {
      var e :| t.log == s.log + [e] && Loggable(s, e);
      LiveAskedLater(s.clients, t.clients, s.log, e);
      if Calls(e) {
        var id: u16 :| Live(s.clients, e.client, id).Some?
                       && Live(s.clients, e.client, id).value.serial == e.serial
                       && Live(s.clients, e.client, id).value.uri == e.uri;
        LiveWasAsked(s, e.client, id);
      }
      CallsLater(s.log, e);
    }
  }

  lemma LiveWasAsked(s: State, client: u16, id: u16)
    requires Sound(s) && Live(s.clients, client, id).Some?
    ensures WasAsked(s.log, client, id, Live(s.clients, client, id).value)
  {
  }

  lemma OpenedSound(s: State, t: State, client: u16, uri: Uri, id: u16)
    requires Sound(s) && RegistryOk(t.clients) && Opened(s, t, client, uri, id)
    ensures Sound(t)
  {
    hide RegistryOk, Live, Token, OnlyChanges, CallsAsked, Segments;
    var e := t.log[|s.log|];
    CallsLater(s.log, e);
    var o := Observation(s.created, uri, false);
    forall c: u16, x: u16 | Live(t.clients, c, x).Some?
      ensures WasAsked(t.log, c, x, Live(t.clients, c, x).value)
      ensures var p := Live(t.clients, c, x).value;
              (p.serial in t.open <==> !p.confirmed) && (p.serial in t.open ==> t.open[p.serial] == Handle(c, x))
    {
      if c == client && x == id {
        ChangedIs(s.clients, t.clients, client, id, Some(o));
      } else {
        OthersStay(s.clients, t.clients, client, id, Some(o), c, x);
        LiveWasAsked(s, c, x);
        LiveOld(s, c, x);
        AskedLater(s.log, e, c, x, Live(s.clients, c, x).value);
      }
    }
  }

  lemma LiveOld(s: State, client: u16, id: u16)
    requires Sound(s) && Live(s.clients, client, id).Some?
    ensures Live(s.clients, client, id).value.serial < s.created
  {
    hide RegistryOk, Live, Token;
    LiveWasAsked(s, client, id);
  }

  lemma ChangedIs(v: Clients, w: Clients, client: u16, id: u16, o: Option<Observation>)
    requires OnlyChanges(v, w, client, id, o)
    ensures Live(w, client, id) == o
  {
  }

  lemma ObserveSound(s: State, client: u16, uri: Uri)
    requires Sound(s) && Room(s)
    ensures Sound(Observe(s, client, uri).state)
  {
    SoundOk(s);
    ObserveExact(s, client, uri);
    var t := Observe(s, client, uri).state;
    hide Sound, Observe, Opened, RegistryOk;
    if t != s {
      var id: u16 :| Opened(s, t, client, uri, id);
      OpenedSound(s, t, client, uri, id);
    }
  }

  lemma OthersStay(v: Clients, w: Clients, client: u16, id: u16, o: Option<Observation>, c: u16, x: u16)
    requires OnlyChanges(v, w, client, id, o) && !(c == client && x == id)
    ensures Live(w, c, x) == Live(v, c, x)
  {
    hide Lookup;
    if c != client {
      assert Lookup(w, c) == Lookup(v, c);
    }
  }

  lemma ApplySound(s: State, i: Input)
    requires Sound(s) && Room(s)
    ensures Sound(Apply(s, i))
  {
    hide Sound, RegistryOk, Room, Observe, Quiet, OpenOk;
    if i.StartObserve? {
      ObserveSound(s, i.client, i.uri);
    } else {
      SoundOk(s);
      ApplyQuiet(s, i);
      QuietSound(s, Apply(s, i));
    }
  }

  lemma SoundOk(s: State)
    requires Sound(s)
    ensures RegistryOk(s.clients) && OpenOk(s)
  {
  }

  /** In every run, as long as ids last: the registry stays a map, and every callback run had been asked for. */
  lemma {:induction false} EveryRunSound(s: State, inputs: seq<Input>)
    requires Sound(s) && Roomy(s, inputs)
    ensures Sound(Run(s, inputs))
    decreases |inputs|
  {
    hide Sound, Apply, Room;
    if inputs != [] {
      ApplySound(s, inputs[0]);
      EveryRunSound(Apply(s, inputs[0]), inputs[1..]);
    }
  }

  /** How many of the events are requests sent. */
  function AskedIn(log: seq<Event>): nat {
    if log == [] then 0 else AskedIn(log[..|log| - 1]) + (if log[|log| - 1].Asked? then 1 else 0)
  }

  /** How many of the inputs take a message id for something else. */
  function Others(inputs: seq<Input>): nat {
    if inputs == [] then 0 else (if inputs[0].OtherRequest? || inputs[0].OtherMessage? then 1 else 0) + Others(inputs[1..])
  }

  lemma AskedMore(log: seq<Event>, e: Event)
    ensures AskedIn(log + [e]) == AskedIn(log) + if e.Asked? then 1 else 0
  {
    assert (log + [e])[..|log|] == log;
  }

  lemma OneId(s: State, i: Input)
    ensures var t := Apply(s, i);
            && t.nextMid == (s.nextMid + AskedIn(t.log) - AskedIn(s.log) + (if i.OtherRequest? || i.OtherMessage? then 1 else 0)) % 0x1_0000
            && AskedIn(s.log) <= AskedIn(t.log)
  {
    var t := Apply(s, i);
    hide Find, FirstFor, DecodedOnto, WithClient, RemoveIndex, NameIn, Segments, Token, Inserted, NewIdFrom, AskedIn;
    if |t.log| == |s.log| + 1 {
      AskedMore(s.log, t.log[|s.log|]);
    }
  }

  /** In every run, message ids are used one after the other, one for each request and for each thing else. */
  lemma {:induction false} EveryRunCountsIds(s: State, inputs: seq<Input>)
    ensures var t := Run(s, inputs);
            AskedIn(s.log) <= AskedIn(t.log)
            && t.nextMid == (s.nextMid + AskedIn(t.log) - AskedIn(s.log) + Others(inputs)) % 0x1_0000
    decreases |inputs|
  {
    hide Apply, AskedIn;
    if inputs != [] {
      OneId(s, inputs[0]);
      EveryRunCountsIds(Apply(s, inputs[0]), inputs[1..]);
    }
  }

  lemma StartSound(mid: u16)
    ensures Sound(Start(mid))
  {
  }

  // ----- what follows -----

  /** No two live observations were made by the same call. */
  lemma SerialsDistinct(s: State, client: u16, id: u16, client': u16, id': u16)
    requires Sound(s)
    requires Live(s.clients, client, id).Some? && Live(s.clients, client', id').Some?
    requires Live(s.clients, client, id).value.serial == Live(s.clients, client', id').value.serial
    ensures client == client' && id == id'
  {
    hide RegistryOk, Live, Token;
    LiveWasAsked(s, client, id);
    LiveWasAsked(s, client', id');
    var o, o' := Live(s.clients, client, id).value, Live(s.clients, client', id').value;
    var m :| 0 <= m < |s.log| && AskedFor(s.log[m], o.serial, client, o.uri) && s.log[m].message.token == Token(client, id);
    var n :| 0 <= n < |s.log| && AskedFor(s.log[n], o.serial, client', o'.uri) && s.log[n].message.token == Token(client', id');
    assert m == n;
    TokensDistinct(client, id, client', id');
  }

  /** The observation with this serial was made and is no more. */
  ghost predicate Gone(s: State, serial: nat) {
    && serial < s.created
    && forall c: u16, id: u16 :: Live(s.clients, c, id).Some? ==> Live(s.clients, c, id).value.serial != serial
  }

  /** A use of the observation with this serial: a run of its callback, or of what its memory holds by then. */
  predicate Uses(e: Event, serial: nat) {
    (Calls(e) || e.Dangling?) && e.serial == serial
  }

  /** The observation with this serial is not used from place n of the log on. */
  predicate SilentFrom(log: seq<Event>, n: nat, serial: nat) {
    forall m :: n <= m < |log| ==> !Uses(log[m], serial)
  }

  /** Whatever happens from s on, the observation is not used. */
  ghost predicate SilentForGood(s: State, serial: nat) {
    forall inputs: seq<Input> :: Roomy(s, inputs) ==> SilentFrom(Run(s, inputs).log, |s.log|, serial)
  }

  lemma OpenedGone(s: State, t: State, client: u16, uri: Uri, id: u16, serial: nat)
    requires Gone(s, serial) && serial !in s.open && Opened(s, t, client, uri, id)
    ensures Gone(t, serial) && serial !in t.open && s.log <= t.log && SilentFrom(t.log, |s.log|, serial)
  {
    hide OnlyChanges, Live, Token, Segments;
    var o := Some(Observation(s.created, uri, false));
    forall c: u16, x: u16 | Live(t.clients, c, x).Some?
      ensures Live(t.clients, c, x).value.serial != serial
    {
      if c == client && x == id {
        ChangedIs(s.clients, t.clients, client, id, o);
      } else {
        OthersStay(s.clients, t.clients, client, id, o, c, x);
      }
    }
  }

  lemma QuietGone(s: State, t: State, serial: nat)
    requires Gone(s, serial) && serial !in s.open && Quiet(s, t)
    ensures Gone(t, serial) && serial !in t.open && s.log <= t.log && SilentFrom(t.log, |s.log|, serial)
  {
    hide RegistryOk, Live;
  }

  lemma GoneStays(s: State, i: Input, serial: nat)
    requires Sound(s) && Room(s) && Gone(s, serial) && serial !in s.open
    ensures Gone(Apply(s, i), serial) && serial !in Apply(s, i).open
    ensures s.log <= Apply(s, i).log && SilentFrom(Apply(s, i).log, |s.log|, serial)
  {
    var t := Apply(s, i);
    SoundOk(s);
    if i.StartObserve? {
      ObserveExact(s, i.client, i.uri);
      hide RegistryOk, Observe, Sound, Gone, Opened, OpenOk;
      if t != s {
        var id: u16 :| Opened(s, t, i.client, i.uri, id);
        OpenedGone(s, t, i.client, i.uri, id, serial);
      }
    } else {
      ApplyQuiet(s, i);
      hide RegistryOk, Apply, Live, Sound, OpenOk, Quiet, Gone;
      QuietGone(s, t, serial);
    }
  }

  lemma {:induction false} RunSilent(s: State, inputs: seq<Input>, serial: nat)
    requires Sound(s) && Roomy(s, inputs) && Gone(s, serial) && serial !in s.open
    ensures s.log <= Run(s, inputs).log && SilentFrom(Run(s, inputs).log, |s.log|, serial)
    decreases |inputs|
  {
    hide Sound, Apply, Room, Gone;
    if inputs != [] {
      var t := Apply(s, inputs[0]);
      ApplySound(s, inputs[0]);
      GoneStays(s, inputs[0], serial);
      RunSilent(t, inputs[1..], serial);
      var u := Run(t, inputs[1..]);
      assert forall m :: |s.log| <= m < |t.log| ==> u.log[m] == t.log[m];
    }
  }

  /** The input that uses a freed observation is the end of its request, here by timeout. */
  lemma RequestEnds(s: State, serial: nat)
    requires Sound(s) && Gone(s, serial) && serial in s.open
    ensures Apply(s, RequestDone(serial, None)) == s.(open := s.open - {serial}, log := s.log + [Dangling(serial)])
  {
    SoundOk(s);
    CompletedExact(s, serial, None);
    hide RegistryOk, Sound, OpenOk;
  }

  lemma RunOfOne(s: State, i: Input)
    requires Room(s) && Room(Apply(s, i))
    ensures Roomy(s, [i]) && Run(s, [i]) == Apply(s, i)
  {
    hide Apply, Room;
    var t, none := Apply(s, i), [i][1..];
    assert none == [] && Run(t, none) == t && Roomy(t, none);
  }

  /** An observation that is gone stays unused in every run if and only if its request is no longer pending. */
  lemma GoneForGood(s: State, serial: nat)
    requires Sound(s) && Room(s) && Gone(s, serial)
    ensures SilentForGood(s, serial) <==> serial !in s.open
  {
    if serial !in s.open {
      forall inputs: seq<Input> | Roomy(s, inputs)
        ensures SilentFrom(Run(s, inputs).log, |s.log|, serial)
      {
        RunSilent(s, inputs, serial);
      }
    } else {
      var i := RequestDone(serial, None);
      RequestEnds(s, serial);
      hide Sound, Gone, Apply, Completed;
      assert Room(Apply(s, i));
      RunOfOne(s, i);
      assert Uses(Run(s, [i]).log[|s.log|], serial);
    }
  }

  lemma RemovedIsGone(s: State, t: State, client: u16, id: u16)
    requires Sound(s) && t.created == s.created && Sub(s.clients, t.clients)
    requires Live(s.clients, client, id).Some? && Live(t.clients, client, id) == None
    ensures Gone(t, Live(s.clients, client, id).value.serial)
  {
    var serial := Live(s.clients, client, id).value.serial;
    LiveOld(s, client, id);
    hide RegistryOk, Live;
    forall c: u16, x: u16 | Live(t.clients, c, x).Some?
      ensures Live(t.clients, c, x).value.serial != serial
    {
      if Live(s.clients, c, x).value.serial == serial {
        SerialsDistinct(s, c, x, client, id);
      }
    }
  }

  lemma OpenUnlessConfirmed(s: State, client: u16, id: u16)
    requires Sound(s) && Live(s.clients, client, id).Some?
    ensures var o := Live(s.clients, client, id).value; o.serial in s.open <==> !o.confirmed
  {
  }

  /**
   * A successful lwm2m_observe_cancel ends the observation it removes for good if and only if that observation's
   * request had been answered before.
   */
  lemma CancelForGood(s: State, client: u16, uri: Uri) returns (id: u16)
    requires Sound(s) && Room(s) && Cancel(s, client, uri).status == NO_ERROR && Room(Cancel(s, client, uri).state)
    ensures Live(s.clients, client, id).Some? && Live(s.clients, client, id).value.uri == uri
    ensures OnlyChanges(s.clients, Cancel(s, client, uri).state.clients, client, id, None)
    ensures var o := Live(s.clients, client, id).value;
            SilentForGood(Cancel(s, client, uri).state, o.serial) <==> o.confirmed
  {
    var t := Cancel(s, client, uri).state;
    SoundOk(s);
    CancelExact(s, client, uri);
    ApplySound(s, StopObserve(client, uri));
    assert t == Apply(s, StopObserve(client, uri));
    hide RegistryOk, Sound, Room, Cancel, OnlyChanges, Live, SilentForGood, Gone, OpenOk, Apply, Sub;
    id :| Live(s.clients, client, id).Some? && Live(s.clients, client, id).value.uri == uri
          && OnlyChanges(s.clients, t.clients, client, id, None);
    ChangedIs(s.clients, t.clients, client, id, None);
    RemovedSub(s.clients, t.clients, client, id);
    RemovedIsGone(s, t, client, id);
    OpenUnlessConfirmed(s, client, id);
    GoneForGood(t, Live(s.clients, client, id).value.serial);
  }

  /** So does a successful DELETE, for each observation of the client it removes. */
  lemma DeleteForGood(s: State, uri: Uri, message: Packet, from: Address, id: u16)
    requires Sound(s) && Room(s) && message.code == COAP_DELETE
    requires HandleRegistration(s, uri, message, from).status == DELETED_2_02
    requires Room(HandleRegistration(s, uri, message, from).state)
    requires Live(s.clients, uri.objectId, id).Some?
    ensures var o := Live(s.clients, uri.objectId, id).value;
            SilentForGood(HandleRegistration(s, uri, message, from).state, o.serial) <==> o.confirmed
  {
    var t := HandleRegistration(s, uri, message, from).state;
    SoundOk(s);
    DeleteExact(s, uri, message, from);
    ApplySound(s, RegistrationRequest(uri, message, from));
    assert t == Apply(s, RegistrationRequest(uri, message, from));
    hide RegistryOk, Sound, Room, HandleRegistration, SilentForGood, Gone, OpenOk, Apply;
    assert Sub(s.clients, t.clients) && Live(t.clients, uri.objectId, id) == None by {
      hide Lookup;
    }
    hide Sub, Live;
    RemovedIsGone(s, t, uri.objectId, id);
    OpenUnlessConfirmed(s, uri.objectId, id);
    GoneForGood(t, Live(s.clients, uri.objectId, id).value.serial);
  }

  /** The shortest way there: a URI is observed, given up before the answer, and the request times out. */
  lemma CancelledTooEarly(s: State, t: State, u: State, client: u16, uri: Uri)
    requires Sound(s) && Room(s) && Room(u)
    requires forall x: u16 :: Live(s.clients, client, x).Some? ==> Live(s.clients, client, x).value.uri != uri
    requires Observe(s, client, uri) == Outcome(NO_ERROR, t) && Cancel(t, client, uri) == Outcome(NO_ERROR, u)
    ensures Apply(u, RequestDone(s.created, None)).log == u.log + [Dangling(s.created)]
  {
    ObserveSound(s, client, uri);
    SoundOk(s);
    var id := OpenedBy(s, t, client, uri);
    var gone := CancelledBy(t, u, client, uri);
    OpenedHas(s, t, client, uri, id, gone);
    hide RegistryOk, Sound, Room, Observe, OnlyChanges, Live, Gone, OpenOk, Apply, Sub;
    ChangedIs(s.clients, t.clients, client, id, Some(Observation(s.created, uri, false))) by {
      hide Segments;
    }
    ChangedIs(t.clients, u.clients, client, id, None);
    RemovedSub(t.clients, u.clients, client, id);
    RemovedIsGone(t, u, client, id);
    CancelledSound(t, u, client, uri);
    hide Cancel;
    RequestEnds(u, s.created);
  }

  lemma CancelledSound(t: State, u: State, client: u16, uri: Uri)
    requires Sound(t) && Cancel(t, client, uri) == Outcome(NO_ERROR, u)
    ensures Sound(u)
  {
    SoundOk(t);
    CancelQuiet(t, client, uri);
    hide Sound, Cancel, Quiet, OpenOk, RegistryOk;
    QuietSound(t, u);
  }

  // ----- what a token stands for -----

  /**
   * Ids, and so tokens, are used again: when the only observation of a URI has been cancelled and another URI of the
   * same client is observed next, a late notification for the first runs the callback of the second.
   */
  lemma StaleNotification(s: State, t: State, t': State, u: State, client: u16, first: Uri, second: Uri,
                          late: Packet, from: Address)
    requires Sound(s) && Room(s) && Room(t')
    requires forall x: u16 :: Live(s.clients, client, x).Some? ==> Live(s.clients, client, x).value.uri != first
    requires Observe(s, client, first) == Outcome(NO_ERROR, t)
    requires Cancel(t, client, first) == Outcome(NO_ERROR, t')
    requires Observe(t', client, second) == Outcome(NO_ERROR, u)
    requires Notifies(late) && t.log != [] && t.log[|t.log| - 1].Asked? && late.token == t.log[|t.log| - 1].message.token
    ensures Notify(u, late, from).log == u.log + [Notified(s.created + 1, client, second, AsInt(late.observe), late.payload)]
  {
    hide RegistryOk, Sound, Room, Observe, Cancel, Notify, Opened, OnlyChanges, Segments, Live, Notifies;
    SoundOk(s);
    var id := OpenedBy(s, t, client, first);
    var gone := CancelledBy(t, t', client, first);
    OpenedHas(s, t, client, first, id, gone);
    var again := OpenedBy(t', u, client, second);
    IdAgain(s, t, t', u, client, first, second, id, again);
    NotifyExact(u, late, from, client, id);
  }

  lemma OpenedBy(s: State, t: State, client: u16, uri: Uri) returns (id: u16)
    requires RegistryOk(s.clients) && Room(s) && Observe(s, client, uri) == Outcome(NO_ERROR, t)
    ensures RegistryOk(t.clients) && Opened(s, t, client, uri, id)
  {
    ObserveExact(s, client, uri);
    hide RegistryOk, Observe, Opened;
    id :| Opened(s, t, client, uri, id);
  }

  lemma CancelledBy(t: State, t': State, client: u16, uri: Uri) returns (id: u16)
    requires RegistryOk(t.clients) && Cancel(t, client, uri) == Outcome(NO_ERROR, t')
    ensures RegistryOk(t'.clients) && t' == t.(clients := t'.clients)
    ensures Live(t.clients, client, id).Some? && Live(t.clients, client, id).value.uri == uri
    ensures OnlyChanges(t.clients, t'.clients, client, id, None)
  {
    CancelExact(t, client, uri);
    hide RegistryOk, Cancel, OnlyChanges, Live;
    id :| Live(t.clients, client, id).Some? && Live(t.clients, client, id).value.uri == uri
          && OnlyChanges(t.clients, t'.clients, client, id, None);
  }

  lemma OpenedHas(s: State, t: State, client: u16, uri: Uri, id: u16, other: u16)
    requires Opened(s, t, client, uri, id) && Live(t.clients, client, other).Some?
    requires Live(t.clients, client, other).value.uri == uri
    requires forall x: u16 :: Live(s.clients, client, x).Some? ==> Live(s.clients, client, x).value.uri != uri
    ensures other == id && |t.log| > 0 && t.log[|t.log| - 1].Asked?
    ensures t.log[|t.log| - 1].message.token == Token(client, id)
  {
    hide Live, Token, Segments;
  }

  lemma IdAgain(s: State, t: State, t': State, u: State, client: u16, first: Uri, second: Uri, id: u16, again: u16)
    requires Opened(s, t, client, first, id) && OnlyChanges(t.clients, t'.clients, client, id, None)
    requires t' == t.(clients := t'.clients) && Opened(t', u, client, second, again)
    ensures again == id && Live(u.clients, client, id) == Some(Observation(s.created + 1, second, false))
  {
    hide Live, Token, Segments;
    assert forall x: u16 :: Live(t'.clients, client, x).Some? <==> Live(s.clients, client, x).Some?;
  }
}
