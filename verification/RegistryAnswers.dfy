/** Every request to observe is answered once. */
module RegistryAnswers {
  import opened Bytes
  import opened CoapPacket
  import opened Uri
  import opened IntrusiveList
  import opened RegisterPayload
  import opened Registry
  import opened RegistryExact
  import opened RegistryRuns

  /** How often the request with this serial has ended, with its observation still there or not. */
  function Ends(log: seq<Event>, serial: nat): nat {
    if log == [] then 0
    else Ends(log[..|log| - 1], serial)
         + (if (log[|log| - 1].Answered? || log[|log| - 1].Dangling?) && log[|log| - 1].serial == serial then 1 else 0)
  }

  /** How often the callback of the observation with this serial has run for the answer to its request. */
  function Callbacks(log: seq<Event>, serial: nat): nat {
    if log == [] then 0
    else Callbacks(log[..|log| - 1], serial)
         + (if log[|log| - 1].Answered? && log[|log| - 1].serial == serial then 1 else 0)
  }

  /** A request that ends while its observation is there ends with the observation's callback. */
  lemma {:induction false} EndsCallback(log: seq<Event>, serial: nat)
    requires forall m :: 0 <= m < |log| ==> !log[m].Dangling?
    ensures Callbacks(log, serial) == Ends(log, serial)
    decreases |log|
  {
    if log != [] {
      EndsCallback(log[..|log| - 1], serial);
    }
  }

  function Asks(log: seq<Event>, serial: nat): nat {
    if log == [] then 0
    else Asks(log[..|log| - 1], serial) + (if log[|log| - 1].Asked? && log[|log| - 1].serial == serial then 1 else 0)
  }

  lemma LogAdds(log: seq<Event>, e: Event, serial: nat)
    ensures Ends(log + [e], serial) ==
            Ends(log, serial) + (if (e.Answered? || e.Dangling?) && e.serial == serial then 1 else 0)
    ensures Asks(log + [e], serial) == Asks(log, serial) + (if e.Asked? && e.serial == serial then 1 else 0)
  {
    assert (log + [e])[..|log|] == log;
  }

  /** A request was sent at most once, and has ended once or is pending. */
  ghost predicate AnsweredOnce(s: State) {
    forall n: nat :: Asks(s.log, n) <= 1 && Ends(s.log, n) + (if n in s.open then 1 else 0) == Asks(s.log, n)
  }

  ghost predicate NotYet(s: State) {
    forall n: nat :: n >= s.created ==> Asks(s.log, n) == 0
  }

  /** The three kinds of steps that log something. */
  ghost predicate LogsOne(s: State, t: State, e: Event) {
    && t.log == s.log + [e]
    && (|| (e.Asked? && e.serial == s.created && t.created == s.created + 1
            && s.created !in s.open && t.open.Keys == s.open.Keys + {s.created})
        || ((e.Answered? || e.Dangling?) && e.serial in s.open && t.open.Keys == s.open.Keys - {e.serial} && t.created == s.created)
        || ((e.Refused? || e.Notified?) && t.open == s.open && t.created == s.created))
  }

  lemma OnceExtends(s: State, t: State, e: Event)
    requires AnsweredOnce(s) && NotYet(s) && LogsOne(s, t, e)
    ensures AnsweredOnce(t) && NotYet(t)
  {
    hide Ends, Asks;
    forall n: nat
      ensures Asks(t.log, n) <= 1 && Ends(t.log, n) + (if n in t.open then 1 else 0) == Asks(t.log, n)
      ensures n >= t.created ==> Asks(t.log, n) == 0
    {
      LogAdds(s.log, e, n);
    }
  }

  lemma StepLogs(s: State, i: Input)
    requires Sound(s) && Room(s)
    ensures var t := Apply(s, i);
            (t == s.(clients := t.clients, nextMid := t.nextMid, created := t.created) && t.created >= s.created)
            || exists e: Event :: LogsOne(s, t, e)
  {
    var t := Apply(s, i);
    SoundOk(s);
    hide RegistryOk, Observe, Completed, Notify, Sound, HandleRegistration, Live, OnlyChanges, Segments, Token;
    match i {
      case StartObserve(client, uri) =>
        ObserveLogs(s, client, uri);
      case RequestDone(serial, reply) =>
        if serial in s.open {
          CompletedExact(s, serial, reply);
          assert LogsOne(s, t, t.log[|s.log|]);
        } else {
          NotOpen(s, serial, reply);
        }
      case Incoming(message, from) =>
        NotifyLogs(s, message, from);
        if t != s {
          assert LogsOne(s, t, t.log[|s.log|]);
        }
      case RegistrationRequest(uri, message, from) =>
        RegistrationLogs(s, uri, message, from);
      case StopObserve(client, uri) =>
        CancelLogs(s, client, uri);
      case OtherRequest =>
      case OtherMessage =>
    }
  }

  lemma ObserveLogs(s: State, client: u16, uri: Uri)
    requires RegistryOk(s.clients) && OpenOk(s) && Room(s)
    ensures var t := Observe(s, client, uri).state; t == s || exists e: Event :: LogsOne(s, t, e)
  {
    var t := Observe(s, client, uri).state;
    ObserveExact(s, client, uri);
    hide RegistryOk, Observe, Opened, OpenOk, LogsOne;
    if t != s {
      var id: u16 :| Opened(s, t, client, uri, id);
      OpenedLogs(s, t, client, uri, id);
    }
  }

  lemma OpenedLogs(s: State, t: State, client: u16, uri: Uri, id: u16)
    requires OpenOk(s) && Opened(s, t, client, uri, id)
    ensures LogsOne(s, t, t.log[|s.log|])
  {
    hide Live, OnlyChanges, Segments, Token;
  }

  lemma NotOpen(s: State, serial: nat, reply: Option<Packet>)
    requires serial !in s.open
    ensures Completed(s, serial, reply) == s
  {
  }

  lemma CancelLogs(s: State, client: u16, uri: Uri)
    ensures var t := Cancel(s, client, uri).state; t == s.(clients := t.clients)
  {
    hide Find, FirstFor;
  }

  lemma OnceKept(s: State, i: Input)
    requires Sound(s) && Room(s) && AnsweredOnce(s) && NotYet(s)
    ensures AnsweredOnce(Apply(s, i)) && NotYet(Apply(s, i))
  {
    StepLogs(s, i);
    hide Sound, Apply, LogsOne, Ends, Asks;
    var t := Apply(s, i);
    if e: Event :| LogsOne(s, t, e) {
      OnceExtends(s, t, e);
    }
  }

  lemma RegistrationLogs(s: State, uri: Uri, message: Packet, from: Address)
    ensures var t := HandleRegistration(s, uri, message, from).state; t == s.(clients := t.clients)
  {
    hide DecodedOnto, WithClient, RemoveIndex, NameIn;
  }

  lemma NotifyLogs(s: State, message: Packet, from: Address)
    ensures var t := Notify(s, message, from);
            t == s || (t == s.(log := t.log) && |t.log| == |s.log| + 1 && s.log == t.log[..|s.log|]
                       && (t.log[|s.log|].Refused? || t.log[|s.log|].Notified?))
  {
    hide Find;
  }

  /**
   * Over every run: a request is sent once, and its callback runs once or is still to come; for a request whose
   * observation has been freed meanwhile, the source then runs what is no longer a callback.
   */
  lemma {:induction false} EveryRunAnsweredOnce(s: State, inputs: seq<Input>)
    requires Sound(s) && Roomy(s, inputs) && AnsweredOnce(s) && NotYet(s)
    ensures AnsweredOnce(Run(s, inputs))
    decreases |inputs|
  {
    hide Sound, Apply, Room, AnsweredOnce, NotYet;
    if inputs != [] {
      ApplySound(s, inputs[0]);
      OnceKept(s, inputs[0]);
      EveryRunAnsweredOnce(Apply(s, inputs[0]), inputs[1..]);
    }
  }

  lemma StartAnsweredOnce(mid: u16)
    ensures AnsweredOnce(Start(mid)) && NotYet(Start(mid))
  {
  }
}
