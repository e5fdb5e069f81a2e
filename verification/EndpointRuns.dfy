/** Transactions and observations together, over every run: each request to observe has its callback run once. */
module EndpointRuns {
  import opened Bytes
  import opened CoapPacket
  import opened Uri
  import opened IntrusiveList
  import opened ListLookup
  import opened Transactions
  import opened TransactionRuns
  import opened TransactionSchedule
  import opened TransactionStep
  import opened TransactionDatagrams
  import R = Registry
  import RegistryExact
  import RR = RegistryRuns
  import RA = RegistryAnswers
  import O = Observe
  import opened Endpoint
  import opened RegistrationClient
  import opened EndpointHeld

  // ----- what ties the two -----

  /** A pending transaction is that of a request to observe exactly when the registry has it open, and refers to its client. */
  ghost predicate Tied(r: R.State, t: Transaction) {
    && (RA.Asks(r.log, t.serial) == 1 <==> t.serial in r.open)
    && (t.serial in r.open ==> t.hasCallback && t.peer == Client(r.open[t.serial].client))
  }

  ghost predicate AllTied(r: R.State, v: Pending) {
    && (forall k :: 0 <= k < |v| ==> Tied(r, v[k].item))
    && (forall n: nat :: n in r.open ==> Holding(v, n) == 1)
  }

  ghost predicate RegistrySound(r: R.State) {
    RR.Sound(r) && RA.AnsweredOnce(r) && RA.NotYet(r)
  }

  ghost predicate Linked(c: Context) {
    && ExactlyOnce(c.engine) && Conserved(c.engine) && Sorted(c.engine.pending) && OneContent(c.engine)
    && RegistrySound(c.registry)
    && c.registry.created == c.engine.created && c.registry.nextMid == c.watched.nextMid
    && AllTied(c.registry, c.engine.pending)
  }

  // ----- timeouts -----

  ghost predicate Expires(events: seq<Event>, n: nat) {
    exists m :: 0 <= m < |events| && events[m].TimedOut? && events[m].callbackRun && events[m].serial == n
  }

  lemma ExpiresFirst(events: seq<Event>, n: nat)
    requires events != []
    ensures Expires(events, n) <==> (events[0].TimedOut? && events[0].callbackRun && events[0].serial == n) || Expires(events[1..], n)
  {
    if Expires(events[1..], n) {
      var m :| 0 <= m < |events[1..]| && events[1..][m].TimedOut? && events[1..][m].callbackRun && events[1..][m].serial == n;
      assert events[m + 1] == events[1..][m];
    }
    if Expires(events, n) {
      var m :| 0 <= m < |events| && events[m].TimedOut? && events[m].callbackRun && events[m].serial == n;
      assert m > 0 ==> events[1..][m - 1] == events[m];
    }
  }

  /** One request ends: it is no longer open, and nothing else about the requests changes. */
  ghost predicate Ended(r: R.State, t: R.State, n: nat) {
    && RegistrySound(t) && t.created == r.created && t.nextMid == r.nextMid && t.open == r.open - {n}
    && forall m: nat :: RA.Asks(t.log, m) == RA.Asks(r.log, m)
  }

  lemma CompletedEnds(r: R.State, n: nat, reply: Option<Packet>)
    requires RegistrySound(r)
    ensures Ended(r, R.Completed(r, n, reply), n)
  {
    var t := R.Completed(r, n, reply);
    RR.SoundOk(r);
    RR.CompletedQuiet(r, n, reply);
    RR.QuietSound(r, t);
    if n in r.open {
      RegistryExact.CompletedExact(r, n, reply);
      var e := t.log[|r.log|];
      hide RR.Sound, RegistryExact.RegistryOk, RR.OpenOk, R.Completed, RegistryExact.OnlyChanges, RegistryExact.Live, RR.Quiet;
      assert RA.LogsOne(r, t, e);
      RA.OnceExtends(r, t, e);
      forall m: nat
        ensures RA.Asks(t.log, m) == RA.Asks(r.log, m)
      {
        RA.LogAdds(r.log, e, m);
      }
    }
  }

  lemma {:induction false} TimedOutAllEnds(r: R.State, events: seq<Event>)
    requires RegistrySound(r)
    ensures var t := TimedOutAll(r, events);
            && RegistrySound(t) && t.created == r.created && t.nextMid == r.nextMid
            && (forall n: nat :: n in t.open <==> n in r.open && !Expires(events, n))
            && (forall n: nat :: n in t.open ==> t.open[n] == r.open[n])
            && (forall m: nat :: RA.Asks(t.log, m) == RA.Asks(r.log, m))
    decreases |events|
  {
    hide RegistrySound, Expires, R.Completed, RA.Asks;
    if events == [] {
      NothingExpires();
    } else {
      var ev := events[0];
      var s := if ev.TimedOut? && ev.callbackRun then R.Completed(r, ev.serial, None) else r;
      if ev.TimedOut? && ev.callbackRun {
        CompletedEnds(r, ev.serial, None);
      }
      TimedOutAllEnds(s, events[1..]);
      forall n: nat
        ensures Expires(events, n) <==> (ev.TimedOut? && ev.callbackRun && ev.serial == n) || Expires(events[1..], n)
      {
        ExpiresFirst(events, n);
      }
    }
  }

  lemma NothingExpires()
    ensures forall n: nat :: !Expires([], n)
  {
  }

  // ----- what the engine does by itself -----

  /** The events of a step, and the transactions it leaves, come from the transactions v it looked at. */
  ghost predicate StepOutcome(v: Pending, events: seq<Event>, w: Pending) {
    && (forall n: nat :: Holding(v, n) <= 1 && Completions(events, n) + Holding(w, n) == Holding(v, n))
    && (forall m :: 0 <= m < |events| ==> !events[m].Answered?)
    && (forall m :: 0 <= m < |events| && events[m].TimedOut? ==> ExpiryOf(v, events[m]))
    && (forall j :: 0 <= j < |w| ==> KeptFromSome(v, w[j].item))
  }

  ghost predicate ExpiryOf(v: Pending, ev: Event) {
    exists k :: 0 <= k < |v| && ev.TimedOut? && ev.serial == v[k].item.serial && ev.callbackRun == v[k].item.hasCallback
  }

  lemma {:induction false} CompletedEvent(events: seq<Event>, n: nat) returns (m: nat)
    requires Completions(events, n) >= 1
    ensures m < |events| && !events[m].Attempt? && events[m].serial == n
  {
    if !events[0].Attempt? && events[0].serial == n {
      m := 0;
    } else {
      m := CompletedEvent(events[1..], n);
      m := m + 1;
    }
  }

  /** An open request expires exactly when its transaction is gone from the list. */
  lemma ExpiresWhenGone(r: R.State, v: Pending, events: seq<Event>, w: Pending, n: nat)
    requires AllTied(r, v) && StepOutcome(v, events, w) && n in r.open
    ensures Expires(events, n) <==> Holding(w, n) == 0
    ensures Holding(w, n) <= 1
  {
    hide Holding, Completions;
    assert Holding(v, n) == 1;
    if Holding(w, n) == 0 {
      var m := CompletedEvent(events, n);
      assert events[m].TimedOut? && ExpiryOf(v, events[m]);
      var k :| 0 <= k < |v| && events[m].serial == v[k].item.serial && events[m].callbackRun == v[k].item.hasCallback;
      assert Tied(r, v[k].item);
    } else if Expires(events, n) {
      var m :| 0 <= m < |events| && events[m].TimedOut? && events[m].callbackRun && events[m].serial == n;
      CompletedSome(events, m);
    }
  }

  lemma StillTied(r: R.State, t: R.State, v: Pending, events: seq<Event>, w: Pending, j: nat)
    requires AllTied(r, v) && StepOutcome(v, events, w) && j < |w|
    requires forall n: nat :: n in t.open <==> n in r.open && !Expires(events, n)
    requires forall n: nat :: n in t.open ==> t.open[n] == r.open[n]
    requires forall n: nat :: RA.Asks(t.log, n) == RA.Asks(r.log, n)
    ensures Tied(t, w[j].item)
  {
    hide Holding, Completions, RA.Asks, Expires;
    assert KeptFromSome(v, w[j].item);
    var k :| 0 <= k < |v| && Same(w[j].item, v[k].item);
    assert Tied(r, v[k].item);
    HoldingSome(w, j);
    var n := w[j].item.serial;
    if n in r.open {
      ExpiresWhenGone(r, v, events, w, n);
    }
  }

  lemma StepTied(r: R.State, v: Pending, events: seq<Event>, w: Pending)
    requires RegistrySound(r) && AllTied(r, v) && StepOutcome(v, events, w)
    ensures var t := TimedOutAll(r, events);
            RegistrySound(t) && t.created == r.created && t.nextMid == r.nextMid && AllTied(t, w)
  {
    hide RegistrySound, TimedOutAll, StepOutcome, Tied, RA.Asks, Holding, Expires;
    var t := TimedOutAll(r, events);
    TimedOutAllEnds(r, events);
    forall j | 0 <= j < |w|
      ensures Tied(t, w[j].item)
    {
      StillTied(r, t, v, events, w, j);
    }
    forall n: nat | n in t.open
      ensures Holding(w, n) == 1
    {
      ExpiresWhenGone(r, v, events, w, n);
    }
  }

  lemma {:induction false} NoAnswers(events: seq<Event>)
    requires AllAnswers(events) == 0
    ensures forall m :: 0 <= m < |events| ==> !events[m].Answered?
    decreases |events|
  {
    if events != [] {
      NoAnswers(events[1..]);
      assert forall m :: 0 < m < |events| ==> events[m] == events[1..][m - 1];
    }
  }

  lemma HeldAtMostOnce(e: Engine, n: nat)
    requires ExactlyOnce(e)
    ensures Holding(e.pending, n) <= 1 && (n >= e.created ==> Holding(e.pending, n) == 0)
  {
    assert Completions(e.log, n) + Holding(e.pending, n) == if n < e.created then 1 else 0;
  }

  lemma TickExpiries(v: Pending, now: int, clock: bool, book: Book)
    ensures var p := StepAll(v, now, clock, book, 0);
            forall m :: 0 <= m < |p.events| && p.events[m].TimedOut? ==> ExpiryOf(v, p.events[m])
  {
    hide StepAll, Send;
    var p := StepAll(v, now, clock, book, 0);
    forall m | 0 <= m < |p.events| && p.events[m].TimedOut?
      ensures ExpiryOf(v, p.events[m])
    {
      var k := TimeoutOrigin(v, now, clock, book, 0, m);
    }
  }

  lemma TickKept(v: Pending, now: int, clock: bool, book: Book)
    requires forall k :: 0 <= k < |v| ==> WireOk(v[k].item)
    ensures var w := StepAll(v, now, clock, book, 0).pending; forall j :: 0 <= j < |w| ==> KeptFromSome(v, w[j].item)
  {
    hide StepAll, Same, WireOk;
    var w := StepAll(v, now, clock, book, 0).pending;
    forall j | 0 <= j < |w|
      ensures KeptFromSome(v, w[j].item)
    {
      var k := StepKept(v, now, clock, book, 0, j);
    }
  }

  lemma TickOutcome(e: Engine, now: int, clock: bool, book: Book)
    requires ExactlyOnce(e) && OneContent(e)
    ensures var p := StepAll(e.pending, now, clock, book, 0); StepOutcome(e.pending, p.events, p.pending)
  {
    var v, p := e.pending, StepAll(e.pending, now, clock, book, 0);
    assert forall k :: 0 <= k < |v| ==> WireOk(v[k].item);
    hide StepAll, Holding, Completions, AllAnswers, OneContent, ExactlyOnce, ExpiryOf, KeptFromSome, WireOk;
    StepCompletes(v, now, clock, book, 0, 0);
    NoAnswers(p.events);
    TickExpiries(v, now, clock, book);
    TickKept(v, now, clock, book);
    forall n: nat
      ensures Holding(v, n) <= 1 && Completions(p.events, n) + Holding(p.pending, n) == Holding(v, n)
    {
      HeldAtMostOnce(e, n);
      StepCompletes(v, now, clock, book, 0, n);
    }
  }

  lemma SendExpiry(t: Transaction, now: int, clock: bool, book: Book)
    ensures forall m :: 0 <= m < |Send(t, now, clock, book).events| ==>
              var ev := Send(t, now, clock, book).events[m];
              !ev.Answered? && (ev.TimedOut? ==> ev.serial == t.serial && ev.callbackRun == t.hasCallback)
  {
    hide Serialized;
  }

  lemma CreateOutcome(e: Engine, i: Transactions.Input)
    requires i.Create? && ExactlyOnce(e) && OneContent(e)
    ensures var t, a := Fresh(e, i), AddIndex(e.pending, i.mid);
            var v, r := Inserted(e.pending, Entry(i.mid, t)), Send(t, i.now, i.clock, i.book);
            StepOutcome(v, r.events, Settled(v, a, r.kept))
  {
    var t, a := Fresh(e, i), AddIndex(e.pending, i.mid);
    var v, r := Inserted(e.pending, Entry(i.mid, t)), Send(t, i.now, i.clock, i.book);
    assert forall k :: 0 <= k < |e.pending| ==> WireOk(e.pending[k].item);
    assert v[a] == Entry(i.mid, t);
    hide Send, Holding, Completions, OneContent, ExactlyOnce, Same, WireOk, AddIndex, Inserted;
    CreateKept(e, i, v, a);
    SendExpiry(t, i.now, i.clock, i.book);
    forall n: nat
      ensures Holding(v, n) <= 1 && Completions(r.events, n) + Holding(Settled(v, a, r.kept), n) == Holding(v, n)
    {
      HeldAtMostOnce(e, n);
      HoldingInserted(e.pending, Entry(i.mid, t), n);
      SettledCounts(v, a, t, i.now, i.clock, i.book, n);
    }
    forall m | 0 <= m < |r.events| && r.events[m].TimedOut?
      ensures ExpiryOf(v, r.events[m])
    {
      assert r.events[m].serial == v[a].item.serial;
    }
  }

  /** The engine's own laws, whatever it is given. */
  lemma EngineKept(e: Engine, i: Transactions.Input)
    requires ExactlyOnce(e) && Conserved(e) && Sorted(e.pending) && OneContent(e)
    ensures var f := Transactions.Apply(e, i); ExactlyOnce(f) && Conserved(f) && Sorted(f.pending) && OneContent(f)
  {
    hide Transactions.Apply, ExactlyOnce, Conserved, Sorted, OneContent;
    ExactlyOnceKept(e, i);
    SortedKept(e, i);
    OneContentKept(e, i);
  }

  /** The registry r that goes with the transactions v the engine is about to look at. */
  ghost predicate Ready(c: Context, i: Transactions.Input) {
    && ExactlyOnce(c.engine) && Conserved(c.engine) && Sorted(c.engine.pending) && OneContent(c.engine)
    && RegistrySound(c.registry) && c.registry.nextMid == c.watched.nextMid
    && c.registry.created == c.engine.created + (if i.Create? then 1 else 0)
    && AllTied(c.registry, if i.Create? then Inserted(c.engine.pending, Entry(i.mid, Fresh(c.engine, i))) else c.engine.pending)
  }

  lemma LinkedHeld(c: Context, d: Context)
    requires Linked(c) && HeldOnly(c, d)
    ensures Linked(d)
  {
    hide ExactlyOnce, Conserved, Sorted, OneContent, RegistrySound, AllTied;
  }

  lemma EngineLinked(c: Context, i: Transactions.Input)
    requires (i.Create? || i.Tick?) && Ready(c, i)
    ensures Linked(WithEngine(c, i))
  {
    hide Linked, Ready, Stepped, HeldTimedOut, HeldOnly, Looked, NewEvents;
    SteppedLinked(c, i);
    HeldTimedOutOnly(Stepped(c, i), Looked(c.engine, i), NewEvents(c.engine, Transactions.Apply(c.engine, i)));
    LinkedHeld(Stepped(c, i), WithEngine(c, i));
  }

  lemma SteppedLinked(c: Context, i: Transactions.Input)
    requires (i.Create? || i.Tick?) && Ready(c, i)
    ensures Linked(Stepped(c, i))
  {
    EngineKept(c.engine, i);
    EngineCreated(c.engine, i);
    hide ExactlyOnce, Conserved, Sorted, OneContent, RegistrySound, AllTied, TimedOutAll, StepAll, Send, StepOutcome;
    match i {
      case Create(_, _, _, _, now, clock, book) =>
        var t, a := Fresh(c.engine, i), AddIndex(c.engine.pending, i.mid);
        var v, r := Inserted(c.engine.pending, Entry(i.mid, t)), Send(t, now, clock, book);
        CreateOutcome(c.engine, i);
        Appended(c.engine, i, r.events);
        StepTied(c.registry, v, r.events, Settled(v, a, r.kept));
      case Tick(None, _, _) =>
        Appended(c.engine, i, []);
        assert TimedOutAll(c.registry, []) == c.registry by {
          NothingTimedOut(c.registry);
        }
      case Tick(Some(now), clock, book) =>
        var p := StepAll(c.engine.pending, now, clock, book, 0);
        TickOutcome(c.engine, now, clock, book);
        Appended(c.engine, i, p.events);
        StepTied(c.registry, c.engine.pending, p.events, p.pending);
    }
  }

  lemma NothingTimedOut(r: R.State)
    ensures TimedOutAll(r, []) == r
  {
  }

  lemma EngineCreated(e: Engine, i: Transactions.Input)
    ensures Transactions.Apply(e, i).created == e.created + (if i.Create? then 1 else 0)
  {
    hide Send, StepAll;
  }

  lemma Appended(e: Engine, i: Transactions.Input, events: seq<Event>)
    requires Transactions.Apply(e, i).log == e.log + events
    ensures NewEvents(e, Transactions.Apply(e, i)) == events
  {
    hide Transactions.Apply;
  }

  // ----- the other inputs -----

  /** A registry that has logged no request and closed none goes with the same transactions. */
  lemma RegistryLinked(c: Context, r: R.State)
    requires Linked(c) && RegistrySound(r) && r.open == c.registry.open && r.created == c.registry.created
    requires r.nextMid == c.registry.nextMid && forall n: nat :: RA.Asks(r.log, n) == RA.Asks(c.registry.log, n)
    ensures Linked(c.(registry := r))
  {
    hide ExactlyOnce, Conserved, Sorted, OneContent, RegistrySound, Holding, RA.Asks;
  }

  /** One input of the registry's own: what it keeps, and when it logs no request and ends none. */
  lemma RegistryKept(r: R.State, i: R.Input)
    requires RegistrySound(r) && RR.Room(r)
    ensures RegistrySound(R.Apply(r, i))
  {
    hide R.Apply, RR.Sound, RR.Room, RA.AnsweredOnce, RA.NotYet;
    RR.ApplySound(r, i);
    RA.OnceKept(r, i);
  }

  lemma CancelLinked(c: Context, client: u16, uri: Uri)
    requires Linked(c) && RR.Room(c.registry)
    ensures Linked(Endpoint.Apply(c, Cancelling(client, uri)))
  {
    RegistryKept(c.registry, R.StopObserve(client, uri));
    RA.CancelLogs(c.registry, client, uri);
    hide Linked, RegistrySound, R.Cancel, RA.Asks;
    assert RegistrySound(c.registry) by {
      LinkedParts(c);
    }
    RegistryLinked(c, R.Cancel(c.registry, client, uri).state);
  }

  lemma LinkedParts(c: Context)
    requires Linked(c)
    ensures RegistrySound(c.registry) && AllTied(c.registry, c.engine.pending)
    ensures ExactlyOnce(c.engine) && Conserved(c.engine) && Sorted(c.engine.pending) && OneContent(c.engine)
  {
  }

  lemma RegistrationLinked(c: Context, uri: Uri, message: Packet, from: Address)
    requires Linked(c) && RR.Room(c.registry)
    ensures Linked(AfterRegistration(c, uri, message, from))
  {
    RegistryKept(c.registry, R.RegistrationRequest(uri, message, from));
    RA.RegistrationLogs(c.registry, uri, message, from);
    hide Linked, RegistrySound, R.HandleRegistration, RA.Asks;
    RegistryLinked(c, R.HandleRegistration(c.registry, uri, message, from).state);
  }

  lemma NotifyLinked(c: Context, message: Packet, from: Address)
    requires Linked(c) && RR.Room(c.registry)
    ensures Linked(c.(registry := R.Notify(c.registry, message, from)))
  {
    var r, t := c.registry, R.Notify(c.registry, message, from);
    RegistryKept(r, R.Incoming(message, from));
    RA.NotifyLogs(r, message, from);
    hide Linked, RegistrySound, R.Notify;
    forall n: nat
      ensures RA.Asks(t.log, n) == RA.Asks(r.log, n)
    {
      if t != r {
        assert t.log == r.log + [t.log[|r.log|]];
        RA.LogAdds(r.log, t.log[|r.log|], n);
      }
    }
    RegistryLinked(c, t);
  }

  /** handle_response ends one transaction, and with it the request it was for. */
  lemma AnswerLinked(c: Context, k: nat, message: Packet, from: Address)
    requires Linked(c) && Find(c.engine.pending, message.mid) == Some(k)
    ensures Linked(AfterAnswer(c, k, message, from))
  {
    hide Linked, Find, Completing, CalledBack, HeldOnly, BookOf;
    var t := c.engine.pending[k].item;
    if IsFrom(t.peer, from, BookOf(c)) {
      CompletingLinked(c, k, message, from);
      CalledBackOnly(Completing(c, k, message, from), t.peer, Some(message));
      if t.hasCallback {
        LinkedHeld(Completing(c, k, message, from), AfterAnswer(c, k, message, from));
      }
    }
  }

  lemma CompletingLinked(c: Context, k: nat, message: Packet, from: Address)
    requires Linked(c) && Find(c.engine.pending, message.mid) == Some(k)
    requires IsFrom(c.engine.pending[k].item.peer, from, BookOf(c))
    ensures Linked(Completing(c, k, message, from))
  {
    var t := c.engine.pending[k].item;
    var i := Receive(message.mid, from, BookOf(c));
    var d := Completing(c, k, message, from);
    EngineKept(c.engine, i);
    EngineCreated(c.engine, i);
    assert d.engine.pending == Without(c.engine.pending, k);
    CompletedEnds(c.registry, t.serial, Some(message));
    hide ExactlyOnce, Conserved, Sorted, OneContent, RegistrySound, R.Completed, RA.Asks, Holding, Find, Skip;
    WithoutTied(c, d.registry, k);
  }

  lemma WithoutTied(c: Context, r: R.State, k: nat)
    requires Linked(c) && k < |c.engine.pending| && Ended(c.registry, r, c.engine.pending[k].item.serial)
    ensures AllTied(r, Without(c.engine.pending, k))
  {
    var v, n := c.engine.pending, c.engine.pending[k].item.serial;
    LinkedParts(c);
    HeldSerials(c.engine);
    hide Linked, Holding, RegistrySound, RA.Asks;
    var w := Without(v, k);
    assert forall j :: 0 <= j < |w| ==> w[j] == v[if j < k then j else j + 1];
    forall m: nat | m in r.open
      ensures Holding(w, m) == 1
    {
      HoldingAt(v, k, m);
    }
  }

  lemma HeldSerials(e: Engine)
    requires ExactlyOnce(e)
    ensures SerialsDiffer(e.pending) && forall k :: 0 <= k < |e.pending| ==> e.pending[k].item.serial < e.created
  {
    hide Holding, Completions;
    forall n: nat
      ensures Holding(e.pending, n) <= 1
    {
      HeldAtMostOnce(e, n);
    }
    HeldOnce(e.pending);
    forall k | 0 <= k < |e.pending|
      ensures e.pending[k].item.serial < e.created
    {
      PendingOnce(e, k);
      HeldAtMostOnce(e, e.pending[k].item.serial);
    }
  }

  lemma ResponseLinked(c: Context, message: Packet, from: Address)
    requires Linked(c) && RR.Room(c.registry)
    ensures Linked(OnResponse(c, message, from))
  {
    var d := AfterReset(c, message, from);
    ResetLinked(c, message, from);
    hide Linked, AfterReset, R.Notify, Find, RR.Room, AfterAnswer;
    match Find(d.engine.pending, message.mid) {
      case Some(k) => AnswerLinked(d, k, message, from);
      case None => NotifyLinked(d, message, from);
    }
  }

  lemma ResetLinked(c: Context, message: Packet, from: Address)
    requires Linked(c)
    ensures var d := AfterReset(c, message, from); Linked(d) && d.registry == c.registry && d.engine == c.engine
  {
    hide ExactlyOnce, Conserved, Sorted, OneContent, RegistrySound, AllTied, O.CancelFrom;
  }

  lemma InsertedEntries(v: Pending, e: Entry<Transaction>)
    ensures forall j :: 0 <= j < |Inserted(v, e)| ==> Inserted(v, e)[j] == e || exists k :: 0 <= k < |v| && Inserted(v, e)[j] == v[k]
  {
    var w, a := Inserted(v, e), AddIndex(v, e.id);
    hide AddIndex;
    forall j | 0 <= j < |w| && j != a
      ensures exists k :: 0 <= k < |v| && w[j] == v[k]
    {
      assert w[j] == v[if j < a then j else j - 1];
    }
  }

  /** Nothing differs between the two registries but for the request with serial n. */
  ghost predicate SameBut(r: R.State, t: R.State, n: nat) {
    forall m: nat :: m != n ==>
      && (m in t.open <==> m in r.open) && (m in t.open ==> t.open[m] == r.open[m])
      && RA.Asks(t.log, m) == RA.Asks(r.log, m)
  }

  lemma TiedBut(r: R.State, t: R.State, n: nat, x: Transaction)
    requires Tied(r, x) && SameBut(r, t, n) && x.serial != n
    ensures Tied(t, x)
  {
    hide RA.Asks;
  }

  /** The transaction just created goes with what the registry says of its serial. */
  lemma InsertedTied(c: Context, r: R.State, i: Transactions.Input)
    requires Linked(c) && i.Create? && Tied(r, Fresh(c.engine, i)) && SameBut(c.registry, r, c.engine.created)
    ensures AllTied(r, Inserted(c.engine.pending, Entry(i.mid, Fresh(c.engine, i))))
  {
    hide Linked, Inserted, Holding, ExactlyOnce, Tied, SameBut, RegistrySound, Conserved, Sorted, OneContent;
    var e, v := Entry(i.mid, Fresh(c.engine, i)), c.engine.pending;
    var w := Inserted(v, e);
    LinkedParts(c);
    HeldSerials(c.engine);
    InsertedEntries(v, e);
    forall j | 0 <= j < |w|
      ensures Tied(r, w[j].item)
    {
      if w[j] != e {
        var k :| 0 <= k < |v| && w[j] == v[k];
        TiedBut(c.registry, r, c.engine.created, v[k].item);
      }
    }
    forall n: nat | n in r.open
      ensures Holding(w, n) == 1
    {
      HoldingInserted(v, e, n);
      HeldAtMostOnce(c.engine, n);
      OpenBut(c.registry, r, c.engine.created, n);
    }
  }

  lemma OpenBut(r: R.State, t: R.State, n: nat, m: nat)
    requires SameBut(r, t, n) && m in t.open
    ensures m == n || m in r.open
  {
  }

  lemma NotYetOpen(c: Context)
    requires Linked(c)
    ensures c.engine.created !in c.registry.open && RA.Asks(c.registry.log, c.engine.created) == 0
  {
    assert RA.NotYet(c.registry) && RR.Sound(c.registry);
    RR.SoundOk(c.registry);
    hide ExactlyOnce, Conserved, Sorted, OneContent, AllTied;
  }

  lemma RequestReady(c: Context, message: Message, peer: Peer, hasCallback: bool, now: int, clock: bool)
    requires Linked(c) && RR.Room(c.registry)
    ensures Ready(IdTaken(c), Requested(c, message, peer, hasCallback, now, clock))
  {
    var d, i := IdTaken(c), Requested(c, message, peer, hasCallback, now, clock);
    RegistryKept(c.registry, R.OtherRequest);
    NotYetOpen(c);
    LinkedParts(c);
    hide ExactlyOnce, Conserved, Sorted, OneContent, RegistrySound, RA.Asks;
    assert Tied(d.registry, Fresh(c.engine, i)) && SameBut(c.registry, d.registry, c.engine.created);
    InsertedTied(c, d.registry, i);
  }

  lemma RequestLinked(c: Context, message: Message, peer: Peer, hasCallback: bool, now: int, clock: bool)
    requires Linked(c) && RR.Room(c.registry)
    ensures Linked(StartRequest(c, message, peer, hasCallback, now, clock))
  {
    hide Linked, WithEngine, RR.Room, Ready;
    RequestReady(c, message, peer, hasCallback, now, clock);
    EngineLinked(IdTaken(c), Requested(c, message, peer, hasCallback, now, clock));
  }

  lemma ObserveReady(c: Context, client: u16, uri: Uri, now: int, clock: bool)
    requires Linked(c) && RR.Room(c.registry) && R.Observe(c.registry, client, uri).status == R.NO_ERROR
    ensures Ready(ObserveTaken(c, client, uri), ObserveRequested(c, client, uri, now, clock))
  {
    hide ExactlyOnce, Conserved, Sorted, OneContent, RegistrySound, RA.Asks, R.Observe, ObserveMessage, AllTied, Inserted,
         BookOf, SameBut;
    var d, i := ObserveTaken(c, client, uri), ObserveRequested(c, client, uri, now, clock);
    LinkedParts(c);
    LinkedCounts(c);
    ObserveKept(c, client, uri);
    ObserveOpens(c, client, uri);
    hide Linked;
    assert Tied(d.registry, Fresh(c.engine, i));
    InsertedTied(c, d.registry, i);
  }

  lemma ObserveKept(c: Context, client: u16, uri: Uri)
    requires Linked(c) && RR.Room(c.registry)
    ensures RegistrySound(R.Observe(c.registry, client, uri).state)
  {
    RegistryKept(c.registry, R.StartObserve(client, uri));
  }

  lemma ObserveLinked(c: Context, client: u16, uri: Uri, now: int, clock: bool)
    requires Linked(c) && RR.Room(c.registry)
    ensures Linked(StartObserve(c, client, uri, now, clock))
  {
    hide Linked, WithEngine, RR.Room, Ready, R.Observe;
    if R.Observe(c.registry, client, uri).status == R.NO_ERROR {
      ObserveReady(c, client, uri, now, clock);
      EngineLinked(ObserveTaken(c, client, uri), ObserveRequested(c, client, uri, now, clock));
    }
  }

  /** What lwm2m_observe adds to the registry, seen from the engine. */
  lemma ObserveOpens(c: Context, client: u16, uri: Uri)
    requires Linked(c) && RR.Room(c.registry) && R.Observe(c.registry, client, uri).status == R.NO_ERROR
    ensures var r, n := R.Observe(c.registry, client, uri).state, c.engine.created;
            && r.created == n + 1 && r.nextMid == (c.registry.nextMid + 1) % 0x1_0000
            && n in r.open && r.open[n].client == client && RA.Asks(r.log, n) == 1
            && SameBut(c.registry, r, n)
  {
    hide RegistryExact.RegistryOk, R.Observe, RR.Sound, RR.Room, Linked, RegistryExact.Opened, RR.OpenOk, SameBut,
         RegistrySound, AllTied, ExactlyOnce, Conserved, Sorted, OneContent;
    var r, s := R.Observe(c.registry, client, uri).state, c.registry;
    NotYetOpen(c);
    LinkedCounts(c);
    RegistryIsSound(c);
    RR.SoundOk(s);
    RoomFor(s, client);
    RegistryExact.ObserveExact(s, client, uri);
    var id: u16 :| RegistryExact.Opened(s, r, client, uri, id);
    OpenedBut(s, r, client, uri, id);
  }

  lemma RegistryIsSound(c: Context)
    requires Linked(c)
    ensures RR.Sound(c.registry)
  {
  }

  lemma RoomFor(r: R.State, client: u16)
    requires RR.Room(r)
    ensures Lookup(r.clients, client).Some? ==> |Lookup(r.clients, client).value.observations| < 0x1_0000
  {
  }

  lemma OpenedBut(s: R.State, r: R.State, client: u16, uri: Uri, id: u16)
    requires RegistryExact.Opened(s, r, client, uri, id) && RA.Asks(s.log, s.created) == 0
    ensures r.created == s.created + 1 && r.nextMid == (s.nextMid + 1) % 0x1_0000
    ensures s.created in r.open && r.open[s.created].client == client && RA.Asks(r.log, s.created) == 1
    ensures SameBut(s, r, s.created)
  {
    hide RegistryExact.Live, RegistryExact.OnlyChanges, Segments, R.Token;
    forall m: nat
      ensures RA.Asks(r.log, m) == RA.Asks(s.log, m) + (if m == s.created then 1 else 0)
    {
      RA.LogAdds(s.log, r.log[|s.log|], m);
    }
  }

  lemma StepReady(c: Context, reading: Option<int>, clock: bool)
    requires Linked(c)
    ensures Ready(c, Tick(reading, clock, BookOf(c)))
  {
    hide ExactlyOnce, Conserved, Sorted, OneContent, RegistrySound, AllTied;
  }

  lemma StepLinked(c: Context, reading: Option<int>, clock: bool)
    requires Linked(c)
    ensures Linked(WithEngine(c, Tick(reading, clock, BookOf(c))))
  {
    hide Linked, WithEngine, Ready;
    StepReady(c, reading, clock);
    EngineLinked(c, Tick(reading, clock, BookOf(c)));
  }

  lemma WatchLinked(c: Context, input: O.Input)
    requires Linked(c)
    ensures Linked(Endpoint.Apply(c, Watching(input)))
  {
    var t := O.Apply(c.watched, input);
    SoundAnyMid(c.registry, t.nextMid);
    hide ExactlyOnce, Conserved, Sorted, OneContent, O.Apply, Holding, RA.Asks;
  }

  lemma SoundAnyMid(r: R.State, mid: u16)
    requires RegistrySound(r)
    ensures RegistrySound(r.(nextMid := mid))
  {
    hide RegistryExact.RegistryOk, RegistryExact.Live, RA.Asks, RA.Ends;
  }

  lemma EnrolLinked(c: Context, k: nat, name: seq<byte>, payload: seq<byte>, now: int, clock: bool)
    requires Linked(c) && RR.Room(c.registry) && k < |c.held|
    ensures Linked(Enrol(c, k, name, payload, now, clock))
  {
    hide Linked, RR.Room, StartRequest, RegisterRequest, Send, Holds, HeldOnly, BookOf;
    var p := RegisterRequest(name, payload, c.registry.nextMid);
    assert p.token == [] by {
      NoToken(name, payload, c.registry.nextMid);
    }
    var d := StartRequest(c, p, Peer.Server(k), true, now, clock);
    RequestLinked(c, p, Peer.Server(k), true, now, clock);
    if k < |d.held| {
      var h := Held(Status.Pending, c.registry.nextMid, d.held[k].location);
      HoldsOnly(d, k, h);
      LinkedHeld(d, Holds(d, k, h));
    }
  }

  lemma NoToken(name: seq<byte>, payload: seq<byte>, mid: u16)
    ensures RegisterRequest(name, payload, mid).token == []
  {
  }

  lemma WithdrawLinked(c: Context, k: nat)
    requires Linked(c) && RR.Room(c.registry) && k < |c.held|
    ensures Linked(Withdraw(c, k))
  {
    if c.held[k].status == Status.Registered {
      var r := R.Apply(c.registry, R.OtherMessage);
      var d := c.(registry := r, watched := c.watched.(nextMid := r.nextMid));
      SoundAnyMid(c.registry, r.nextMid);
      hide ExactlyOnce, Conserved, Sorted, OneContent, Holding, RA.Asks, Holds, HeldOnly;
      assert Linked(d);
      HoldsOnly(d, k, c.held[k].(status := Unknown));
      LinkedHeld(d, Withdraw(c, k));
    }
  }

  lemma ApplyLinked(c: Context, i: Endpoint.Input)
    requires Linked(c) && RR.Room(c.registry)
    ensures Linked(Endpoint.Apply(c, i))
  {
    hide Linked, RR.Room, OnResponse, WithEngine, StartObserve, StartRequest, R.Cancel, AfterRegistration, O.Apply, Enrol, Withdraw;
    match i
    case Response(message, from) => ResponseLinked(c, message, from);
    case Step(reading, clock) => StepLinked(c, reading, clock);
    case Subscribing(client, uri, now, clock) => ObserveLinked(c, client, uri, now, clock);
    case Cancelling(client, uri) => CancelLinked(c, client, uri);
    case Requesting(request, peer, hasCallback, now, clock) => RequestLinked(c, request, peer, hasCallback, now, clock);
    case Registering(uri, message, from) => RegistrationLinked(c, uri, message, from);
    case Enrolling(k, name, payload, now, clock) =>
      if k < |c.held| {
        EnrolLinked(c, k, name, payload, now, clock);
      }
    case Withdrawing(k) =>
      if k < |c.held| {
        WithdrawLinked(c, k);
      }
    case Watching(input) => WatchLinked(c, input);
  }

  /** As long as there are ids left. */
  ghost predicate Roomy(c: Context, inputs: seq<Endpoint.Input>)
    decreases |inputs|
  {
    RR.Room(c.registry) && (inputs == [] || Roomy(Endpoint.Apply(c, inputs[0]), inputs[1..]))
  }

  /** In every run a request to observe is open in the registry exactly as long as its transaction is pending. */
  lemma {:induction false} EveryRunLinked(c: Context, inputs: seq<Endpoint.Input>)
    requires Linked(c) && Roomy(c, inputs)
    ensures Linked(Endpoint.Run(c, inputs))
    decreases |inputs|
  {
    hide Linked, RR.Room, Endpoint.Apply;
    if inputs != [] {
      ApplyLinked(c, inputs[0]);
      EveryRunLinked(Endpoint.Apply(c, inputs[0]), inputs[1..]);
    }
  }

  lemma StartLinked(addresses: seq<Address>, mid: u16)
    ensures Linked(Endpoint.Start(addresses, mid))
  {
    EmptyExactlyOnce();
    EmptyOneContent();
    RR.StartSound(mid);
    RA.StartAnsweredOnce(mid);
    hide RR.Sound, RA.AnsweredOnce, RA.NotYet;
  }

  /**
   * Each request to observe that went out has the callback of its transaction run exactly as often as that has
   * completed: not at all while it is pending, and once after an answer or the last timeout.
   */
  lemma CallbackOnce(c: Context, n: nat)
    requires Linked(c) && RA.Asks(c.registry.log, n) == 1
    ensures RA.Ends(c.registry.log, n) == Completions(c.engine.log, n)
    ensures RA.Ends(c.registry.log, n) + Holding(c.engine.pending, n) == 1
  {
    LinkedParts(c);
    assert RA.AnsweredOnce(c.registry) && RA.NotYet(c.registry);
    hide Linked, RR.Sound, Conserved, Sorted, OneContent, RA.Asks, RA.Ends, Holding, Completions, RegistrySound;
    assert n < c.engine.created by {
      LinkedCounts(c);
    }
    assert Completions(c.engine.log, n) + Holding(c.engine.pending, n) == 1;
    if Holding(c.engine.pending, n) == 1 {
      var k := HolderOf(c.engine.pending, n);
      assert Tied(c.registry, c.engine.pending[k].item);
    }
  }

  lemma LinkedCounts(c: Context)
    requires Linked(c)
    ensures c.registry.created == c.engine.created
  {
  }

  lemma {:induction false} HolderOf(v: Pending, n: nat) returns (k: nat)
    requires Holding(v, n) >= 1
    ensures k < |v| && v[k].item.serial == n
    decreases |v|
  {
    if v[0].item.serial == n {
      k := 0;
    } else {
      k := HolderOf(v[1..], n);
      k := k + 1;
    }
  }
}
